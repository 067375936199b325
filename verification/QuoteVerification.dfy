/**
 The engine's quotes and what is signed of them. `verifyQuote` of the environment is a check on the canonical
 payload of the quote; a committed session's quote, with both signatures written into it, passes that check for
 both parties, which is what settlement verifies.
 */
module QuoteVerification {
  import opened Protocol
  import opened Reducer
  import opened Collections
  import opened Routes
  import opened EngineRuns
  import C = Canonical
  import opened QuoteSigning

  /** The properties a quote is built with. */
  const QUOTE_KEYS: seq<Key> := [
    KQuoteId, KRfqId, KBuyer, KSeller, KServiceType, KFinalPrice, KCurrency, KPaymentEndpoint, KExpiresAt, KNonce,
    KMemoPolicy, KBuyerSignature, KSellerSignature, KSpecHash]

  predicate IsQuoteKey(k: Key) {
    k.KQuoteId? || k.KRfqId? || k.KBuyer? || k.KSeller? || k.KServiceType? || k.KFinalPrice? || k.KCurrency? ||
    k.KPaymentEndpoint? || k.KExpiresAt? || k.KNonce? || k.KMemoPolicy? || k.KBuyerSignature? || k.KSellerSignature? ||
    k.KSpecHash?
  }

  function NameOf(k: Key): string {
    match k
    case KQuoteId => "quote_id"
    case KRfqId => "rfq_id"
    case KBuyer => "buyer"
    case KSeller => "seller"
    case KServiceType => "service_type"
    case KFinalPrice => "final_price"
    case KCurrency => "currency"
    case KPaymentEndpoint => "payment_endpoint"
    case KExpiresAt => "expires_at"
    case KNonce => "nonce"
    case KMemoPolicy => "memo_policy"
    case KBuyerSignature => "buyer_signature"
    case KSellerSignature => "seller_signature"
    case KSpecHash => "spec_hash"
    case _ => ""
  }

  /** Length and first character tell the names apart. */
  function TagOf(k: Key): (int, char) {
    match k
    case KQuoteId => (8, 'q')
    case KRfqId => (6, 'r')
    case KBuyer => (5, 'b')
    case KSeller => (6, 's')
    case KServiceType => (12, 's')
    case KFinalPrice => (11, 'f')
    case KCurrency => (8, 'c')
    case KPaymentEndpoint => (16, 'p')
    case KExpiresAt => (10, 'e')
    case KNonce => (5, 'n')
    case KMemoPolicy => (11, 'm')
    case KBuyerSignature => (15, 'b')
    case KSellerSignature => (16, 's')
    case KSpecHash => (9, 's')
    case _ => (0, ' ')
  }

  function Property(k: Key): C.Key { C.Units(NameOf(k)) }

  lemma {:induction false} NameHasTag(k: Key)
    requires IsQuoteKey(k)
    ensures |NameOf(k)| == TagOf(k).0 > 0 && NameOf(k)[0] == TagOf(k).1
  {
  }

  lemma {:induction false} TagsDiffer(a: Key, b: Key)
    requires IsQuoteKey(a) && IsQuoteKey(b) && TagOf(a) == TagOf(b)
    ensures a == b
  {
  }

  /** Different properties have different names. */
  lemma {:induction false} PropertiesDiffer(a: Key, b: Key)
    requires IsQuoteKey(a) && IsQuoteKey(b) && Property(a) == Property(b)
    ensures a == b
  {
    hide NameOf, TagOf, IsQuoteKey;
    NameHasTag(a);
    NameHasTag(b);
    assert Property(a)[0] == NameOf(a)[0] as int && Property(b)[0] == NameOf(b)[0] as int;
    TagsDiffer(a, b);
  }

  lemma {:induction false} SignatureProperties(k: Key)
    requires IsQuoteKey(k)
    ensures Property(k) == BUYER_SIGNATURE <==> k == KBuyerSignature
    ensures Property(k) == SELLER_SIGNATURE <==> k == KSellerSignature
  {
    assert Property(KBuyerSignature) == BUYER_SIGNATURE && Property(KSellerSignature) == SELLER_SIGNATURE;
    hide Property;
    if Property(k) == BUYER_SIGNATURE { PropertiesDiffer(k, KBuyerSignature); }
    if Property(k) == SELLER_SIGNATURE { PropertiesDiffer(k, KSellerSignature); }
  }

  /** A quote as the object that is signed, whatever `json` makes of the values. */
  function FieldsOf(json: Value -> C.Json, q: Payload, keys: seq<Key>): seq<C.Field> {
    if keys == [] then []
    else
      var k := keys[|keys| - 1];
      FieldsOf(json, q, keys[..|keys| - 1]) + (if k in q then [C.Field(Property(k), json(q[k]))] else [])
  }

  ghost predicate QuoteKeys(keys: seq<Key>) {
    && (forall i :: 0 <= i < |keys| ==> IsQuoteKey(keys[i]))
    && Distinct(keys)
  }

  /** The field comes from a property of the quote. */
  ghost predicate From(json: Value -> C.Json, q: Payload, keys: seq<Key>, x: C.Field) {
    exists k :: k in keys && k in q && x == C.Field(Property(k), json(q[k]))
  }

  lemma {:induction false} FieldsAre(json: Value -> C.Json, q: Payload, keys: seq<Key>, x: C.Field)
    ensures x in FieldsOf(json, q, keys) <==> From(json, q, keys, x)
  {
    hide Property;
    if keys != [] {
      var front, k := keys[..|keys| - 1], keys[|keys| - 1];
      FieldsAre(json, q, front, x);
      assert forall y :: y in keys <==> y in front || y == k;
      if From(json, q, keys, x) {
        var y :| y in keys && y in q && x == C.Field(Property(y), json(q[y]));
        assert y == k || From(json, q, front, x);
      }
      if From(json, q, front, x) {
        var y :| y in front && y in q && x == C.Field(Property(y), json(q[y]));
        assert y in keys;
      }
      if k in q { assert k in keys; }
    }
  }

  lemma {:induction false} FieldsAreDistinct(json: Value -> C.Json, q: Payload, keys: seq<Key>)
    requires QuoteKeys(keys)
    ensures C.DistinctKeys(FieldsOf(json, q, keys))
  {
    hide Property, IsQuoteKey;
    if keys != [] {
      var n := |keys| - 1;
      var front, k := keys[..n], keys[n];
      FieldsAreDistinct(json, q, front);
      var before := FieldsOf(json, q, front);
      forall i | 0 <= i < |before| ensures before[i].key != Property(k) {
        assert before[i] in before;
        FieldsAre(json, q, front, before[i]);
        var y :| y in front && y in q && before[i] == C.Field(Property(y), json(q[y]));
        var j :| 0 <= j < n && keys[j] == y;
        if Property(y) == Property(k) { PropertiesDiffer(y, k); }
      }
    }
  }

  lemma {:induction false} BuiltKeys()
    ensures QuoteKeys(QUOTE_KEYS)
  {
  }

  function PayloadOf(json: Value -> C.Json, q: Payload): C.Json {
    SigningPayload(FieldsOf(json, q, QUOTE_KEYS))
  }

  predicate IsSignature(k: Key) {
    k == KBuyerSignature || k == KSellerSignature
  }

  /** The quotes agree on everything but the signatures. */
  ghost predicate SameTerms(p: Payload, q: Payload) {
    forall k :: !IsSignature(k) ==> (k in p <==> k in q) && (k in p ==> p[k] == q[k])
  }

  lemma {:induction false} SameTermsSameFields(json: Value -> C.Json, p: Payload, q: Payload, keys: seq<Key>,
                                               x: C.Field)
    requires QuoteKeys(keys) && SameTerms(p, q) && x.key != BUYER_SIGNATURE && x.key != SELLER_SIGNATURE
    requires x in FieldsOf(json, p, keys)
    ensures x in FieldsOf(json, q, keys)
  {
    hide Property, IsQuoteKey, FieldsOf;
    FieldsAre(json, p, keys, x);
    FieldsAre(json, q, keys, x);
    var k :| k in keys && k in p && x == C.Field(Property(k), json(p[k]));
    SignatureProperties(k);
  }

  /** Writing signatures into a quote does not change what is signed. */
  lemma {:induction false} SameTermsSamePayload(json: Value -> C.Json, p: Payload, q: Payload)
    requires SameTerms(p, q)
    ensures PayloadOf(json, p) == PayloadOf(json, q)
  {
    BuiltKeys();
    var a, b := FieldsOf(json, p, QUOTE_KEYS), FieldsOf(json, q, QUOTE_KEYS);
    FieldsAreDistinct(json, p, QUOTE_KEYS);
    FieldsAreDistinct(json, q, QUOTE_KEYS);
    hide FieldsOf, QuoteKeys, SigningPayload;
    forall x: C.Field | x.key != BUYER_SIGNATURE && x.key != SELLER_SIGNATURE ensures x in a <==> x in b {
      if x in a { SameTermsSameFields(json, p, q, QUOTE_KEYS, x); }
      if x in b { SameTermsSameFields(json, q, p, QUOTE_KEYS, x); }
    }
    SignaturesAreNotSigned(a, b);
  }

  // ---- Every term is signed ----

  /** Texts become strings and nothing else does. */
  ghost predicate WritesTexts(json: Value -> C.Json) {
    forall v, t :: json(v) == C.Str(t) <==> v == Text(t)
  }

  /** The properties a built quote can have. */
  const ALL_KEYS := BUILT_KEYS + {KSpecHash}

  lemma {:induction false} AllAreQuoteKeys(k: Key)
    ensures k in ALL_KEYS <==> IsQuoteKey(k)
    ensures k in ALL_KEYS ==> k in QUOTE_KEYS
  {
  }

  lemma {:induction false} NotProto(k: Key)
    requires IsQuoteKey(k)
    ensures Property(k) != C.PROTO
  {
    NameHasTag(k);
    assert Property(k)[0] == NameOf(k)[0] as int && C.PROTO[0] == '_' as int;
  }

  lemma {:induction false} TextIsField(json: Value -> C.Json, q: Payload, k: Key, t: string)
    requires WritesTexts(json) && k in ALL_KEYS
    ensures C.Field(Property(k), C.Str(t)) in FieldsOf(json, q, QUOTE_KEYS) <==> TextAt(q, k) == Some(t)
  {
    AllAreQuoteKeys(k);
    BuiltKeys();
    FieldsAre(json, q, QUOTE_KEYS, C.Field(Property(k), C.Str(t)));
    hide ALL_KEYS, QUOTE_KEYS;
    TextComesFromKey(json, q, QUOTE_KEYS, k, t);
  }

  lemma {:induction false} TextComesFromKey(json: Value -> C.Json, q: Payload, keys: seq<Key>, k: Key, t: string)
    requires WritesTexts(json) && QuoteKeys(keys) && IsQuoteKey(k) && k in keys
    ensures From(json, q, keys, C.Field(Property(k), C.Str(t))) <==> TextAt(q, k) == Some(t)
  {
    hide Property, IsQuoteKey;
    var x := C.Field(Property(k), C.Str(t));
    if From(json, q, keys, x) {
      var y :| y in keys && y in q && x == C.Field(Property(y), json(q[y]));
      PropertiesDiffer(y, k);
    }
    if TextAt(q, k) == Some(t) { assert json(q[k]) == C.Str(t); }
  }

  /** Equal payloads hold the same text under every property a built quote can have, the signatures apart. */
  lemma {:induction false} EqualPayloadsEqualTexts(json: Value -> C.Json, p: Payload, q: Payload, k: Key)
    requires WritesTexts(json) && PayloadOf(json, p) == PayloadOf(json, q)
    requires k in ALL_KEYS && !IsSignature(k)
    ensures TextAt(p, k) == TextAt(q, k)
  {
    AllAreQuoteKeys(k);
    BuiltKeys();
    FieldsAreDistinct(json, p, QUOTE_KEYS);
    FieldsAreDistinct(json, q, QUOTE_KEYS);
    SignatureProperties(k);
    NotProto(k);
    hide Property, FieldsOf, SigningPayload, IsQuoteKey, QuoteKeys;
    var a, b := FieldsOf(json, p, QUOTE_KEYS), FieldsOf(json, q, QUOTE_KEYS);
    forall t ensures TextAt(p, k) == Some(t) <==> TextAt(q, k) == Some(t) {
      TextIsField(json, p, k, t);
      TextIsField(json, q, k, t);
      SignedTermsAreFixed(a, b, Property(k), t);
    }
  }

  /** A quote of texts under the properties a built quote can have. */
  ghost predicate IsQuote(q: Payload) {
    q.Keys <= ALL_KEYS && forall k :: k in q ==> q[k].Text?
  }

  /** The payload holds every term: quotes have one payload exactly if they differ in nothing but signatures. */
  lemma {:induction false} PayloadIsTheTerms(json: Value -> C.Json, p: Payload, q: Payload)
    requires WritesTexts(json) && IsQuote(p) && IsQuote(q)
    ensures PayloadOf(json, p) == PayloadOf(json, q) <==> SameTerms(p, q)
  {
    hide PayloadOf;
    if SameTerms(p, q) { SameTermsSamePayload(json, p, q); }
    if PayloadOf(json, p) == PayloadOf(json, q) {
      forall k | !IsSignature(k) ensures (k in p <==> k in q) && (k in p ==> p[k] == q[k]) {
        if k in p || k in q { EqualPayloadsEqualTexts(json, p, q, k); }
      }
    }
  }

  /**
   In every run the quote a session holds is signed whole: a quote with the same payload has the same text under
   every property of it but the signatures.
   */
  lemma {:induction false} StoredQuoteIsSignedWhole(env: Env, json: Value -> C.Json, actions: seq<Action>,
                                                    rfqId: string, p: Payload)
    requires env.Valid() && WritesTexts(json) && rfqId in Run(env, actions)
    ensures Accepted(Run(env, actions)[rfqId])
    ensures var s := Derive(Run(env, actions)[rfqId]).s;
            s.unsignedQuote.Some? && PayloadOf(json, p) == PayloadOf(json, s.unsignedQuote.value) ==>
              forall k :: k in s.unsignedQuote.value && !IsSignature(k) ==>
                TextAt(p, k) == TextAt(s.unsignedQuote.value, k) != None
  {
    hide Run, Derive, PayloadOf, WindowOk;
    StoredQuotesAreBuilt(env, actions, rfqId);
    var s := Derive(Run(env, actions)[rfqId]).s;
    if s.unsignedQuote.Some? && PayloadOf(json, p) == PayloadOf(json, s.unsignedQuote.value) {
      var q := s.unsignedQuote.value;
      forall k | k in q && !IsSignature(k) ensures TextAt(p, k) == TextAt(q, k) != None {
        EqualPayloadsEqualTexts(json, p, q, k);
      }
    }
  }

  /** The environment checks a quote's signature on its canonical payload. */
  ghost predicate ChecksPayload(env: Env, json: Value -> C.Json, verify: (string, C.Json, string) -> bool) {
    forall signer, q, sig :: env.verifyQuote(signer, q, sig) <==> verify(signer, PayloadOf(json, q), sig)
  }

  /** What the settlement's `verifyQuote` asks of a quote: its own parties' signatures in it cover its payload. */
  ghost predicate SignedByBoth(json: Value -> C.Json, verify: (string, C.Json, string) -> bool, q: Payload) {
    && TextAt(q, KBuyer).Some? && TextAt(q, KSeller).Some?
    && TextAt(q, KBuyerSignature).Some? && TextAt(q, KSellerSignature).Some?
    && verify(TextAt(q, KBuyer).value, PayloadOf(json, q), TextAt(q, KBuyerSignature).value)
    && verify(TextAt(q, KSeller).value, PayloadOf(json, q), TextAt(q, KSellerSignature).value)
  }

  /** settle-report's `quoteWithSigs` */
  function Finished(s: Session): Payload
    requires s.unsignedQuote.Some?
  {
    var buyer := if s.buyerSignature.Some? then s.buyerSignature.value else "";
    var seller := if s.sellerSignature.Some? then s.sellerSignature.value else "";
    s.unsignedQuote.value[KBuyerSignature := Text(buyer)][KSellerSignature := Text(seller)]
  }

  lemma {:induction false} FinishedHasTerms(s: Session)
    requires s.unsignedQuote.Some? && s.buyerSignature.Some? && s.sellerSignature.Some?
    ensures var q, f := s.unsignedQuote.value, Finished(s);
            && SameTerms(f, q) && TextAt(f, KBuyer) == TextAt(q, KBuyer) && TextAt(f, KSeller) == TextAt(q, KSeller)
            && TextAt(f, KBuyerSignature) == s.buyerSignature && TextAt(f, KSellerSignature) == s.sellerSignature
  {
  }

  lemma {:induction false} DealIsSigned(env: Env, json: Value -> C.Json, verify: (string, C.Json, string) -> bool,
                                        s: Session, i: nat)
    requires Deal(env, s, i) && ChecksPayload(env, json, verify)
    ensures SignedByBoth(json, verify, Finished(s))
  {
    FinishedHasTerms(s);
    hide PayloadOf, OfferTermsOk, Finished, TextAt, SameTerms;
    var q, f := s.unsignedQuote.value, Finished(s);
    SameTermsSamePayload(json, f, q);
    assert env.verifyQuote(s.rfq.buyer, q, s.buyerSignature.value);
    assert env.verifyQuote(s.offers[i].seller, q, s.sellerSignature.value);
  }

  /**
   In every run, a committed session's quote with both signatures written into it passes the settlement's signature
   check: each party's signature covers the payload of the finished quote.
   */
  lemma {:induction false} FinishedQuoteVerifies(env: Env, json: Value -> C.Json,
                                                 verify: (string, C.Json, string) -> bool,
                                                 actions: seq<Action>, rfqId: string)
    requires env.Valid() && ChecksPayload(env, json, verify) && rfqId in Run(env, actions)
    ensures Accepted(Run(env, actions)[rfqId])
    ensures var s := Derive(Run(env, actions)[rfqId]).s;
            s.state == Committed ==> s.unsignedQuote.Some? && SignedByBoth(json, verify, Finished(s))
  {
    hide Next, Derive, SignedByBoth, ChecksPayload;
    CommittedMeansDeal(env, actions, rfqId);
    var s := Derive(Run(env, actions)[rfqId]).s;
    if s.state == Committed {
      var i: nat :| Deal(env, s, i);
      DealIsSigned(env, json, verify, s, i);
    }
  }
}
