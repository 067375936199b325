/** What a quote's two signatures cover: the canonical form of the quote with both signature fields blank. */
module QuoteSigning {
  import opened Canonical

  const BUYER_SIGNATURE: Key := Units("buyer_signature")
  const SELLER_SIGNATURE: Key := Units("seller_signature")

  /** `{ ...fields, [k]: v }`: a key that is there keeps its place, a new one goes last. */
  function Assign(fields: seq<Field>, k: Key, v: Json): seq<Field> {
    if fields == [] then [Field(k, v)]
    else if fields[0].key == k then [Field(k, v)] + fields[1..]
    else [fields[0]] + Assign(fields[1..], k, v)
  }

  function Blank(quote: seq<Field>): seq<Field> {
    Assign(Assign(quote, BUYER_SIGNATURE, Str("")), SELLER_SIGNATURE, Str(""))
  }

  /** `quoteSigningPayload` */
  function SigningPayload(quote: seq<Field>): Json {
    SortKeys(Obj(Blank(quote)), true)
  }

  function SignAsBuyer(quote: seq<Field>, sign: Json -> string): seq<Field> {
    Assign(quote, BUYER_SIGNATURE, Str(sign(SigningPayload(quote))))
  }

  function SignAsSeller(quote: seq<Field>, sign: Json -> string): seq<Field> {
    Assign(quote, SELLER_SIGNATURE, Str(sign(SigningPayload(quote))))
  }

  lemma {:induction false} AssignHas(fields: seq<Field>, k: Key, v: Json, x: Field)
    requires DistinctKeys(fields)
    ensures x in Assign(fields, k, v) <==> x == Field(k, v) || (x in fields && x.key != k)
  {
    if fields != [] {
      assert x in fields <==> x == fields[0] || x in fields[1..];
      if fields[0].key != k { AssignHas(fields[1..], k, v, x); }
    }
  }

  lemma {:induction false} AssignKeepsDistinct(fields: seq<Field>, k: Key, v: Json)
    requires DistinctKeys(fields)
    ensures DistinctKeys(Assign(fields, k, v))
  {
    if fields != [] && fields[0].key != k {
      var rest := Assign(fields[1..], k, v);
      AssignKeepsDistinct(fields[1..], k, v);
      forall j | 0 <= j < |rest| ensures rest[j].key != fields[0].key {
        assert rest[j] in rest;
        AssignHas(fields[1..], k, v, rest[j]);
      }
    }
  }

  /** The order of an object's properties does not reach its form. */
  lemma {:induction false} SameFieldsSameForm(f: seq<Field>, g: seq<Field>, top: bool)
    requires DistinctKeys(f) && DistinctKeys(g) && SameFields(f, g)
    ensures SortKeys(Obj(f), top) == SortKeys(Obj(g), top)
  {
    IncludedComes(f, g, top);
    IncludedComes(g, f, top);
    SameObjects(f, g, top);
  }

  lemma {:induction false} IncludedComes(f: seq<Field>, g: seq<Field>, top: bool)
    requires forall x :: x in f ==> x in g
    ensures forall x :: Comes(f, Forms(f), top, x) ==> Comes(g, Forms(g), top, x)
  {
    forall x | Comes(f, Forms(f), top, x) ensures Comes(g, Forms(g), top, x) {
      var i :| 0 <= i < |f| && Kept(top, f[i]) && x == Field(f[i].key, Forms(f)[i]);
      assert f[i] in f;
      var k :| 0 <= k < |g| && g[k] == f[i];
      assert Kept(top, g[k]) && x == Field(g[k].key, Forms(g)[k]);
    }
  }

  /** The fields of a blanked quote: its own other fields and two blanks. */
  lemma {:induction false} BlankHas(quote: seq<Field>, x: Field)
    requires DistinctKeys(quote)
    ensures x in Blank(quote) <==>
            || x == Field(BUYER_SIGNATURE, Str("")) || x == Field(SELLER_SIGNATURE, Str(""))
            || (x in quote && x.key != BUYER_SIGNATURE && x.key != SELLER_SIGNATURE)
    ensures DistinctKeys(Blank(quote))
  {
    var once := Assign(quote, BUYER_SIGNATURE, Str(""));
    assert |BUYER_SIGNATURE| != |SELLER_SIGNATURE|;
    AssignKeepsDistinct(quote, BUYER_SIGNATURE, Str(""));
    AssignKeepsDistinct(once, SELLER_SIGNATURE, Str(""));
    AssignHas(quote, BUYER_SIGNATURE, Str(""), x);
    AssignHas(once, SELLER_SIGNATURE, Str(""), x);
  }

  /** Quotes that differ only in signature fields. */
  ghost predicate SameButSignatures(a: seq<Field>, b: seq<Field>) {
    forall x: Field :: x.key != BUYER_SIGNATURE && x.key != SELLER_SIGNATURE ==> (x in a <==> x in b)
  }

  lemma {:induction false} SignaturesAreNotSigned(a: seq<Field>, b: seq<Field>)
    requires DistinctKeys(a) && DistinctKeys(b) && SameButSignatures(a, b)
    ensures SigningPayload(a) == SigningPayload(b)
  {
    forall x ensures x in Blank(a) <==> x in Blank(b) {
      BlankHas(a, x);
      BlankHas(b, x);
    }
    BlankHas(a, Field([], Null));
    BlankHas(b, Field([], Null));
    SameFieldsSameForm(Blank(a), Blank(b), true);
  }

  lemma {:induction false} SigningKeepsPayload(quote: seq<Field>, k: Key, v: Json)
    requires DistinctKeys(quote) && k in {BUYER_SIGNATURE, SELLER_SIGNATURE}
    ensures DistinctKeys(Assign(quote, k, v)) && SigningPayload(Assign(quote, k, v)) == SigningPayload(quote)
  {
    AssignKeepsDistinct(quote, k, v);
    forall x: Field | x.key != BUYER_SIGNATURE && x.key != SELLER_SIGNATURE
      ensures x in Assign(quote, k, v) <==> x in quote
    {
      AssignHas(quote, k, v, x);
    }
    SignaturesAreNotSigned(Assign(quote, k, v), quote);
  }

  /**
   Whoever signs first, both signatures are over the payload of the finished quote, and the two finished quotes
   hold the same fields.
   */
  lemma {:induction false} SigningOrderDoesNotMatter(quote: seq<Field>, buyer: Json -> string, seller: Json -> string)
    requires DistinctKeys(quote)
    ensures var payload := SigningPayload(quote);
            var a := SignAsSeller(SignAsBuyer(quote, buyer), seller);
            var b := SignAsBuyer(SignAsSeller(quote, seller), buyer);
            && SigningPayload(a) == SigningPayload(b) == payload
            && Field(BUYER_SIGNATURE, Str(buyer(payload))) in a && Field(SELLER_SIGNATURE, Str(seller(payload))) in a
            && SameFields(a, b)
  {
    var payload := SigningPayload(quote);
    var b1, s1 := SignAsBuyer(quote, buyer), SignAsSeller(quote, seller);
    SigningKeepsPayload(quote, BUYER_SIGNATURE, Str(buyer(payload)));
    SigningKeepsPayload(quote, SELLER_SIGNATURE, Str(seller(payload)));
    SigningKeepsPayload(b1, SELLER_SIGNATURE, Str(seller(payload)));
    SigningKeepsPayload(s1, BUYER_SIGNATURE, Str(buyer(payload)));
    assert |BUYER_SIGNATURE| != |SELLER_SIGNATURE|;
    forall x ensures SignedHas(quote, payload, buyer, seller, x) <==> x in SignAsSeller(b1, seller)
             ensures SignedHas(quote, payload, buyer, seller, x) <==> x in SignAsBuyer(s1, buyer)
    {
      AssignHas(quote, BUYER_SIGNATURE, Str(buyer(payload)), x);
      AssignHas(quote, SELLER_SIGNATURE, Str(seller(payload)), x);
      AssignHas(b1, SELLER_SIGNATURE, Str(seller(payload)), x);
      AssignHas(s1, BUYER_SIGNATURE, Str(buyer(payload)), x);
    }
    assert SignedHas(quote, payload, buyer, seller, Field(BUYER_SIGNATURE, Str(buyer(payload))));
    assert SignedHas(quote, payload, buyer, seller, Field(SELLER_SIGNATURE, Str(seller(payload))));
  }

  ghost predicate SignedHas(quote: seq<Field>, payload: Json, buyer: Json -> string, seller: Json -> string, x: Field) {
    || x == Field(BUYER_SIGNATURE, Str(buyer(payload))) || x == Field(SELLER_SIGNATURE, Str(seller(payload)))
    || (x in quote && x.key != BUYER_SIGNATURE && x.key != SELLER_SIGNATURE)
  }

  /** The payload pins the rest of the quote: equal payloads exactly for quotes equivalent once blanked. */
  lemma {:induction false} PayloadPinsQuote(a: seq<Field>, b: seq<Field>)
    requires WellFormed(Obj(a)) && WellFormed(Obj(b))
    ensures SigningPayload(a) == SigningPayload(b) <==> Equivalent(Obj(Blank(a)), Obj(Blank(b)), true)
  {
    BlankIsWellFormed(a);
    BlankIsWellFormed(b);
    SameFormIffEquivalent(Obj(Blank(a)), Obj(Blank(b)), true);
  }

  lemma {:induction false} BlankIsWellFormed(quote: seq<Field>)
    requires WellFormed(Obj(quote))
    ensures WellFormed(Obj(Blank(quote)))
  {
    var blank := Blank(quote);
    BlankHas(quote, Field([], Null));
    forall i | 0 <= i < |blank| ensures WellFormed(blank[i].value) {
      assert blank[i] in blank;
      BlankHas(quote, blank[i]);
      if blank[i] in quote { var k :| 0 <= k < |quote| && quote[k] == blank[i]; }
    }
  }

  /**
   Whoever signs a payload signs every plain text term: a quote with the same payload has the same price,
   seller, buyer, endpoint, expiry, nonce and so on, under the same key.
   */
  lemma {:induction false} SignedTermsAreFixed(a: seq<Field>, b: seq<Field>, k: Key, term: string)
    requires DistinctKeys(a) && DistinctKeys(b) && SigningPayload(a) == SigningPayload(b)
    requires k != BUYER_SIGNATURE && k != SELLER_SIGNATURE && k != PROTO
    ensures Field(k, Str(term)) in a <==> Field(k, Str(term)) in b
  {
    TermComes(a, k, term);
    TermComes(b, k, term);
    SameObjects(Blank(a), Blank(b), true);
  }

  lemma {:induction false} TermComes(quote: seq<Field>, k: Key, term: string)
    requires DistinctKeys(quote) && k != BUYER_SIGNATURE && k != SELLER_SIGNATURE && k != PROTO
    ensures DistinctKeys(Blank(quote))
    ensures Field(k, Str(term)) in quote <==> Comes(Blank(quote), Forms(Blank(quote)), true, Field(k, Str(term)))
  {
    var blank, x := Blank(quote), Field(k, Str(term));
    BlankHas(quote, x);
    if x in quote {
      var i :| 0 <= i < |blank| && blank[i] == x;
      assert Kept(true, blank[i]) && x == Field(blank[i].key, Forms(blank)[i]);
    }
    if Comes(blank, Forms(blank), true, x) {
      var i :| 0 <= i < |blank| && Kept(true, blank[i]) && x == Field(blank[i].key, Forms(blank)[i]);
      assert SortKeys(blank[i].value, false) == Str(term);
      assert blank[i] == x;
      assert blank[i] in blank;
    }
  }
}
