/**
 What holds of every session in every run of the engine: any number of sessions, any interleaving of
 routes and enforcer actions, any stale unlocked reads, any clock readings.
 */
module EngineRuns {
  import opened Protocol
  import opened Reducer
  import opened ReducerHistory
  import opened Routes

  // ---- The session invariant ----

  /** The properties of every built quote; a quote for an RFQ with a spec has `spec_hash` besides. */
  const BUILT_KEYS := {KQuoteId, KRfqId, KBuyer, KSeller, KServiceType, KFinalPrice, KCurrency, KPaymentEndpoint,
                       KExpiresAt, KNonce, KMemoPolicy, KBuyerSignature, KSellerSignature}

  /** Nothing but these properties, all of them texts, the policy fixed and the signatures blank. */
  ghost predicate IsBlankQuote(env: Env, spec: Option<Payload>, q: Payload) {
    && q.Keys == BUILT_KEYS + (if spec.Some? then {KSpecHash} else {})
    && (forall k :: k in q ==> q[k].Text?)
    && TextAt(q, KMemoPolicy) == Some("quote_id_required")
    && TextAt(q, KBuyerSignature) == Some("") && TextAt(q, KSellerSignature) == Some("")
    && (spec.Some? ==> TextAt(q, KSpecHash) == Some(env.specHash(spec.value)))
  }

  /** The quote carries exactly the terms of this recorded offer and expires no later than the deadline. */
  ghost predicate QuoteOf(env: Env, rfq: Rfq, o: RecordedOffer, q: Payload) {
    && TextAt(q, KRfqId) == Some(rfq.rfqId) && TextAt(q, KBuyer) == Some(rfq.buyer)
    && TextAt(q, KServiceType) == Some(rfq.serviceType)
    && TextAt(q, KSeller) == Some(o.seller) && TextAt(q, KFinalPrice) == Some(o.price)
    && TextAt(q, KCurrency) == Some(o.currency) && TextAt(q, KPaymentEndpoint) == Some(o.paymentEndpoint)
    && PositiveAmount(o.price)
    && env.parse(rfq.deadline).Some?
    && TextAt(q, KExpiresAt).Some? && env.parse(TextAt(q, KExpiresAt).value).Some?
    && env.parse(TextAt(q, KExpiresAt).value).value <= env.parse(rfq.deadline).value
    && IsBlankQuote(env, rfq.spec, q)
  }

  /** The number a setting stands for: itself within the bounds, else the nearer bound; unset, the default. */
  ghost predicate IsSetting(configured: Option<int>, unset: int, low: int, high: int, w: int) {
    match configured
    case None => w == unset && low <= w <= high
    case Some(c) => if c < low then w == low else if high < c then w == high else w == c
  }

  /** The quote's expiry, as an instant. */
  ghost predicate ExpiresAt(env: Env, q: Payload, x: int) {
    TextAt(q, KExpiresAt).Some? && env.parse(TextAt(q, KExpiresAt).value) == Some(x)
  }

  /** The settlement window: 60 to 600 seconds, 300 by default. */
  ghost predicate IsWindow(env: Env, w: int) {
    IsSetting(env.settlementWindowMs, 300_000, 60_000, 600_000, w)
  }

  /** A quote built at `built` expires at the deadline or at the end of the window, whichever comes first. */
  ghost predicate ExpiresInWindow(env: Env, deadline: string, q: Payload, built: int) {
    exists x, w :: ExpiresAt(env, q, x) && IsWindow(env, w) && env.parse(deadline).Some?
                   && x <= env.parse(deadline).value && x <= built + w
                   && (x == env.parse(deadline).value || x == built + w)
  }

  /** The quote expires within the window after `at`. */
  ghost predicate ExpiresWithin(env: Env, q: Payload, at: int) {
    exists x, w :: ExpiresAt(env, q, x) && IsWindow(env, w) && x <= at + w
  }

  /** The current quote expires within the window after its selection. */
  ghost predicate WindowOk(env: Env, s: Session) {
    s.unsignedQuote.Some? ==>
      s.commitPendingAt.Some? && ExpiresWithin(env, s.unsignedQuote.value, s.commitPendingAt.value)
  }

  ghost predicate OffersOk(s: Session) {
    && (forall i, j :: 0 <= i < j < |s.offers| ==> s.offers[i].offerId != s.offers[j].offerId)
    && s.totalOffers == |s.offers| <= MAX_OFFERS_PER_SESSION
    && (forall x :: CountOf(s.offerCount, x) <= MAX_OFFERS_PER_SELLER)
  }

  /** What the offer route's unlocked checks establish, and the endpoint it takes from the seller's listing. */
  predicate OfferTermsOk(rfq: Rfq, o: RecordedOffer) {
    o.currency == rfq.currency && o.paymentEndpoint != "" && PositiveAmount(o.price)
  }

  ghost predicate TermsOk(s: Session) {
    forall i :: 0 <= i < |s.offers| ==> OfferTermsOk(s.rfq, s.offers[i])
  }

  ghost predicate AcceptsOk(s: Session) {
    && s.totalAccepts <= MAX_ACCEPTS_PER_SESSION
    && (forall x :: CountOf(s.acceptCount, x) <= MAX_ACCEPTS_PER_SELLER)
  }

  ghost predicate CountersOk(s: Session) {
    && (forall i :: 0 <= i < |s.counters| ==> s.counters[i].round > 0)
    && (forall i, j :: 0 <= i < j < |s.counters| ==>
          s.counters[i].round < s.counters[j].round && s.counters[i].counterId != s.counters[j].counterId)
  }

  ghost predicate QuoteOk(env: Env, s: Session) {
    && (s.state == CommitPending || s.state == Committed ==> s.unsignedQuote.Some?)
    && (s.unsignedQuote.Some? ==>
          && s.selectedOfferId.Some?
          && FindOffer(s.offers, s.selectedOfferId.value).Some?
          && var o := FindOffer(s.offers, s.selectedOfferId.value).value;
             s.selectedSeller == Some(o.seller) && QuoteOf(env, s.rfq, o, s.unsignedQuote.value))
    && (s.state == Open || s.state == Negotiating ==> s.unsignedQuote.None?)
  }

  ghost predicate SignaturesOk(env: Env, s: Session) {
    && (s.buyerSignature.Some? ==>
          s.unsignedQuote.Some? && env.verifyQuote(s.rfq.buyer, s.unsignedQuote.value, s.buyerSignature.value))
    && (s.sellerSignature.Some? ==>
          s.buyerSignature.Some? && s.selectedSeller.Some? && s.unsignedQuote.Some? &&
          env.verifyQuote(s.selectedSeller.value, s.unsignedQuote.value, s.sellerSignature.value))
    && (s.state == Committed ==> s.sellerSignature.Some?)
  }

  ghost predicate SessionOk(env: Env, s: Session) {
    && OffersOk(s) && TermsOk(s) && AcceptsOk(s) && CountersOk(s) && QuoteOk(env, s) && SignaturesOk(env, s)
    && env.parse(s.rfq.deadline).Some? && WindowOk(env, s)
  }

  // ---- What the route guards establish about the event they append ----

  ghost predicate NewOfferOk(s: Session, p: Payload) {
    ParseOffer(p).Some? ==>
      var o := ParseOffer(p).value;
      && (forall i :: 0 <= i < |s.offers| ==> s.offers[i].offerId != o.offerId)
      && OfferTermsOk(s.rfq, o)
      && s.totalOffers < MAX_OFFERS_PER_SESSION && CountOf(s.offerCount, o.seller) < MAX_OFFERS_PER_SELLER
  }

  ghost predicate NewCounterOk(s: Session, p: Payload) {
    ParseCounter(p).Some? ==>
      var c := ParseCounter(p).value;
      && c.round > 0
      && forall i :: 0 <= i < |s.counters| ==> s.counters[i].round < c.round && s.counters[i].counterId != c.counterId
  }

  ghost predicate NewWinnerOk(env: Env, s: Session, p: Payload) {
    TextAt(p, KSeller).Some? && TextAt(p, KOfferId).Some? && FindOffer(s.offers, TextAt(p, KOfferId).value).Some? ==>
      && s.totalAccepts < MAX_ACCEPTS_PER_SESSION
      && CountOf(s.acceptCount, TextAt(p, KSeller).value) < MAX_ACCEPTS_PER_SELLER
      && DocAt(p, KQuote).Some?
      && QuoteOf(env, s.rfq, FindOffer(s.offers, TextAt(p, KOfferId).value).value, DocAt(p, KQuote).value)
  }

  /** A selection's quote expires within the window after the event. */
  ghost predicate QuoteTimely(env: Env, e: Event) {
    e.ty == WinnerSelected && DocAt(e.payload, KQuote).Some? ==>
      ExpiresWithin(env, DocAt(e.payload, KQuote).value, e.timestamp)
  }

  ghost predicate EventOk(env: Env, s: Session, e: Event) {
    match e.ty
    case OfferSubmitted => NewOfferOk(s, e.payload)
    case CounterSent => NewCounterOk(s, e.payload)
    case WinnerSelected => NewWinnerOk(env, s, e.payload)
    case QuoteSigned =>
      && s.buyerSignature.None? && s.unsignedQuote.Some?
      && (TextAt(e.payload, KBuyerSignature).Some? ==>
            env.verifyQuote(s.rfq.buyer, s.unsignedQuote.value, TextAt(e.payload, KBuyerSignature).value))
    case QuoteCommitted =>
      && s.buyerSignature.Some? && s.unsignedQuote.Some?
      && (TextAt(e.payload, KSellerSignature).Some? && s.selectedSeller.Some? ==>
            env.verifyQuote(s.selectedSeller.value, s.unsignedQuote.value, TextAt(e.payload, KSellerSignature).value))
    case RfqCreated => false
    case CommitMarker => false
    case NegotiationCancelled => false
    case _ => true
  }

  // ---- Every event that passes its guards keeps the invariant ----

  lemma {:induction false} KeepsOffers(env: Env, s: Session, e: Event)
    requires OffersOk(s) && EventOk(env, s, e) && Apply(s, e).Live?
    ensures OffersOk(Apply(s, e).s)
  {
    var t := Apply(s, e).s;
    forall x ensures CountOf(t.offerCount, x) <= MAX_OFFERS_PER_SELLER {
      assert CountOf(s.offerCount, x) <= MAX_OFFERS_PER_SELLER;
    }
  }

  lemma {:induction false} KeepsTerms(env: Env, s: Session, e: Event)
    requires TermsOk(s) && EventOk(env, s, e) && Apply(s, e).Live?
    ensures TermsOk(Apply(s, e).s)
  {
    RecordsKept(s, e);
    var t := Apply(s, e).s;
    if e.ty == OfferSubmitted {
      assert t.offers == s.offers + [ParseOffer(e.payload).value];
    } else {
      assert t.offers == s.offers;
    }
  }

  lemma {:induction false} KeepsAccepts(env: Env, s: Session, e: Event)
    requires AcceptsOk(s) && EventOk(env, s, e) && Apply(s, e).Live?
    ensures AcceptsOk(Apply(s, e).s)
  {
    var t := Apply(s, e).s;
    if e.ty == WinnerSelected {
      assert t.totalAccepts == s.totalAccepts + 1;
      forall x ensures CountOf(t.acceptCount, x) <= MAX_ACCEPTS_PER_SELLER {
        assert CountOf(s.acceptCount, x) <= MAX_ACCEPTS_PER_SELLER;
      }
    }
  }

  lemma {:induction false} KeepsCounters(env: Env, s: Session, e: Event)
    requires CountersOk(s) && EventOk(env, s, e) && Apply(s, e).Live?
    ensures CountersOk(Apply(s, e).s)
  {
  }

  lemma {:induction false} FoundStaysFound(offers: seq<RecordedOffer>, o: RecordedOffer, id: string)
    requires FindOffer(offers, id).Some?
    ensures FindOffer(offers + [o], id) == FindOffer(offers, id)
  {
    if offers[0].offerId != id {
      FoundStaysFound(offers[1..], o, id);
      assert (offers + [o])[1..] == offers[1..] + [o];
    }
  }

  /** The offers after an event still hold the selected one. */
  lemma {:induction false} SelectionStays(s: Session, e: Event, id: string)
    requires Apply(s, e).Live? && FindOffer(s.offers, id).Some?
    ensures FindOffer(Apply(s, e).s.offers, id) == FindOffer(s.offers, id)
  {
    if e.ty == OfferSubmitted {
      FoundStaysFound(s.offers, ParseOffer(e.payload).value, id);
    }
  }

  lemma {:induction false} KeepsQuote(env: Env, s: Session, e: Event)
    requires QuoteOk(env, s) && EventOk(env, s, e) && Apply(s, e).Live?
    ensures QuoteOk(env, Apply(s, e).s)
  {
    if s.unsignedQuote.Some? { SelectionStays(s, e, s.selectedOfferId.value); }
    if e.ty == WinnerSelected {
      NewQuote(env, s, e);
    } else {
      OldQuote(env, s, e);
    }
  }

  lemma {:induction false} NewQuote(env: Env, s: Session, e: Event)
    requires e.ty == WinnerSelected && EventOk(env, s, e) && Apply(s, e).Live?
    ensures QuoteOk(env, Apply(s, e).s)
  {
  }

  lemma {:induction false} OldQuote(env: Env, s: Session, e: Event)
    requires QuoteOk(env, s) && Apply(s, e).Live? && e.ty != WinnerSelected
    requires s.unsignedQuote.Some? ==>
               FindOffer(Apply(s, e).s.offers, s.selectedOfferId.value) == FindOffer(s.offers, s.selectedOfferId.value)
    ensures QuoteOk(env, Apply(s, e).s)
  {
    hide QuoteOf;
  }

  lemma {:induction false} KeepsSignatures(env: Env, s: Session, e: Event)
    requires SignaturesOk(env, s) && EventOk(env, s, e) && Apply(s, e).Live?
    ensures SignaturesOk(env, Apply(s, e).s)
  {
    hide NewOfferOk, NewCounterOk, NewWinnerOk, FindOffer, HasOfferFrom, ParseOffer, ParseCounter;
    var t := Apply(s, e).s;
    if e.ty == WinnerSelected || Rollback(e.ty) {
      assert t.buyerSignature.None? && t.sellerSignature.None? && t.state != Committed;
    } else {
      assert t.unsignedQuote == s.unsignedQuote && t.selectedSeller == s.selectedSeller && t.rfq == s.rfq;
    }
  }

  lemma {:induction false} KeepsWindow(env: Env, s: Session, e: Event)
    requires QuoteOk(env, s) && WindowOk(env, s) && EventOk(env, s, e) && QuoteTimely(env, e) && Apply(s, e).Live?
    ensures WindowOk(env, Apply(s, e).s)
  {
    hide ExpiresWithin, QuoteOf;
    var t := Apply(s, e).s;
    if e.ty == WinnerSelected {
      assert t.unsignedQuote == DocAt(e.payload, KQuote) && t.commitPendingAt == Some(e.timestamp);
    } else {
      assert t.unsignedQuote.Some? ==> t.unsignedQuote == s.unsignedQuote && t.commitPendingAt == s.commitPendingAt;
    }
  }

  // ---- Every route's guards establish EventOk ----

  lemma {:induction false} OfferPayloadParses(r: Request, rfqId: string)
    requires r.SubmitOffer? && r.endpoint.Some?
    ensures ParseOffer(OfferPayload(r, rfqId)) ==
            Some(RecordedOffer(r.offerId, r.seller, r.price, r.currency, r.validUntil, r.listingId, r.endpoint.value,
                               r.extensions))
  {
  }

  lemma {:induction false} OfferGuards(env: Env, pre: Session, s: Session, a: Action)
    requires a.request.SubmitOffer? && DecideOffer(env, pre, s, a).Append? && pre.rfq == s.rfq
    ensures EventOk(env, s, NewEvent(a, DecideOffer(env, pre, s, a)))
  {
    hide OfferPayload, NewOfferOk, PositiveAmount;
    NewOfferIsOk(s, a.request, a.rfqId);
  }

  lemma {:induction false} NewOfferIsOk(s: Session, r: Request, rfqId: string)
    requires r.SubmitOffer? && r.endpoint.Some? && r.endpoint.value != "" && PositiveAmount(r.price)
    requires r.currency == s.rfq.currency && !HasOfferId(s.offers, r.offerId)
    requires s.totalOffers < MAX_OFFERS_PER_SESSION && CountOf(s.offerCount, r.seller) < MAX_OFFERS_PER_SELLER
    ensures NewOfferOk(s, OfferPayload(r, rfqId))
  {
    OfferPayloadParses(r, rfqId);
    hide OfferPayload, ParseOffer, PositiveAmount;
  }

  lemma {:induction false} CounterPayloadParses(r: Request, rfqId: string)
    requires r.SendCounter?
    ensures ParseCounter(CounterPayload(r, rfqId)) ==
            Some(RecordedCounter(r.counterId, r.round, r.sender, r.recipient, r.price))
  {
  }

  lemma {:induction false} CounterGuards(env: Env, pre: Session, s: Session, a: Action)
    requires a.request.SendCounter? && DecideCounter(env, pre, s, a).Append?
    ensures EventOk(env, s, NewEvent(a, DecideCounter(env, pre, s, a)))
  {
    CounterPayloadParses(a.request, a.rfqId);
    NewRoundOk(s, a.request, a.rfqId);
  }

  lemma {:induction false} NewRoundOk(s: Session, r: Request, rfqId: string)
    requires r.SendCounter? && r.round > 0 && !HasCounterId(s.counters, r.counterId) && r.round > MaxRound(s.counters)
    ensures NewCounterOk(s, CounterPayload(r, rfqId))
  {
    CounterPayloadParses(r, rfqId);
  }

  /** The terms of a quote: one text each, the policy fixed and the signatures blank. */
  ghost predicate HasTerms(env: Env, rfq: Rfq, o: RecordedOffer, expiry: int, quoteId: string, nonce: string,
                           q: Payload)
  {
    && TextAt(q, KRfqId) == Some(rfq.rfqId) && TextAt(q, KBuyer) == Some(rfq.buyer)
    && TextAt(q, KServiceType) == Some(rfq.serviceType)
    && TextAt(q, KSeller) == Some(o.seller) && TextAt(q, KFinalPrice) == Some(o.price)
    && TextAt(q, KCurrency) == Some(o.currency) && TextAt(q, KPaymentEndpoint) == Some(o.paymentEndpoint)
    && TextAt(q, KExpiresAt) == Some(env.iso(expiry))
    && TextAt(q, KQuoteId) == Some(quoteId) && TextAt(q, KNonce) == Some(nonce)
    && TextAt(q, KMemoPolicy) == Some("quote_id_required")
    && TextAt(q, KBuyerSignature) == Some("") && TextAt(q, KSellerSignature) == Some("")
  }

  lemma {:induction false} TermsAreThere(env: Env, rfq: Rfq, o: RecordedOffer, expiry: int, quoteId: string,
                                         nonce: string)
    ensures HasTerms(env, rfq, o, expiry, quoteId, nonce, QuoteTerms(env, rfq, o, expiry, quoteId, nonce))
    ensures QuoteTerms(env, rfq, o, expiry, quoteId, nonce).Keys == BUILT_KEYS
  {
  }

  lemma {:induction false} QuoteDocFields(env: Env, rfq: Rfq, o: RecordedOffer, expiry: int, quoteId: string,
                                          nonce: string)
    ensures HasTerms(env, rfq, o, expiry, quoteId, nonce, QuoteDoc(env, rfq, o, expiry, quoteId, nonce))
  {
    hide QuoteTerms, BUILT_KEYS;
    TermsAreThere(env, rfq, o, expiry, quoteId, nonce);
  }

  lemma {:induction false} QuoteDocIsBlank(env: Env, rfq: Rfq, o: RecordedOffer, expiry: int, quoteId: string,
                                           nonce: string)
    ensures IsBlankQuote(env, rfq.spec, QuoteDoc(env, rfq, o, expiry, quoteId, nonce))
  {
    hide QuoteTerms;
    TermsAreThere(env, rfq, o, expiry, quoteId, nonce);
  }

  /** The engine's two clamped settings are the numbers they stand for. */
  lemma {:induction false} SettingsAreClamped(env: Env)
    ensures IsWindow(env, SettlementWindowMs(env)) && MIN_SETTLEMENT_WINDOW_MS <= SettlementWindowMs(env)
    ensures IsSetting(env.cosignTimeoutMs, 60_000, 15_000, 120_000, CosignTimeoutMs(env))
  {
  }

  lemma {:induction false} QuoteHasTerms(env: Env, rfq: Rfq, o: RecordedOffer, now: int, quoteId: string, nonce: string,
                                         q: Payload)
    requires env.Valid() && QuoteExpiry(env, rfq.deadline, now).Some? && PositiveAmount(o.price)
    requires q == QuoteDoc(env, rfq, o, QuoteExpiry(env, rfq.deadline, now).value, quoteId, nonce)
    ensures QuoteOf(env, rfq, o, q) && ExpiresInWindow(env, rfq.deadline, q, now)
    ensures TextAt(q, KQuoteId) == Some(quoteId) && TextAt(q, KNonce) == Some(nonce)
  {
    var expiry := QuoteExpiry(env, rfq.deadline, now).value;
    assert env.parse(env.iso(expiry)) == Some(expiry);
    QuoteDocFields(env, rfq, o, expiry, quoteId, nonce);
    QuoteDocIsBlank(env, rfq, o, expiry, quoteId, nonce);
    SettingsAreClamped(env);
    hide QuoteDoc, PositiveAmount, IsBlankQuote, IsWindow, SettlementWindowMs;
    assert ExpiresAt(env, q, expiry) && IsWindow(env, SettlementWindowMs(env));
  }

  lemma {:induction false} AcceptGuards(env: Env, pre: Session, s: Session, a: Action)
    requires env.Valid() && a.request.Accept? && DecideAccept(env, pre, s, a).Append?
    ensures EventOk(env, s, NewEvent(a, DecideAccept(env, pre, s, a)))
    ensures a.request.envelope.revision == s.lastEventId && a.request.envelope.rfqId == a.rfqId
    ensures StoresBuiltQuote(env, s, a, DecideAccept(env, pre, s, a).payload)
  {
    hide QuoteOf, ExpiresInWindow, PositiveAmount, QuoteDoc, FindOffer, FindOfferOf, HasOfferFrom, Reached;
    hide WinnerPayload;
    var p := a.request.envelope.payload;
    var seller, offerId := TextAt(p, KSeller).value, TextAt(p, KOfferId).value;
    var o, expiry := FindOffer(s.offers, offerId).value, QuoteExpiry(env, s.rfq.deadline, a.t.built).value;
    var quote := BuildQuote(env, s, offerId, a.t.built, a.request.quoteId, a.request.nonce).value;
    QuoteDocFields(env, s.rfq, o, expiry, a.request.quoteId, a.request.nonce);
    assert TextAt(quote, KFinalPrice) == Some(o.price);
    QuoteHasTerms(env, s.rfq, o, a.t.built, a.request.quoteId, a.request.nonce, quote);
    WinnerFields(seller, offerId, quote);
  }

  lemma {:induction false} WinnerFields(seller: string, offerId: string, quote: Payload)
    ensures var w := WinnerPayload(seller, offerId, quote);
            && DocAt(w, KQuote) == Some(quote)
            && TextAt(w, KSeller) == Some(seller) && TextAt(w, KOfferId) == Some(offerId)
  {
  }

  /** The selection holds the offer's quote as built for this request at this instant. */
  ghost predicate StoresBuiltQuote(env: Env, s: Session, a: Action, p: Payload)
    requires a.request.Accept?
  {
    && TextAt(p, KOfferId).Some? && FindOffer(s.offers, TextAt(p, KOfferId).value).Some? && DocAt(p, KQuote).Some?
    && var q := DocAt(p, KQuote).value;
       && QuoteOf(env, s.rfq, FindOffer(s.offers, TextAt(p, KOfferId).value).value, q)
       && ExpiresInWindow(env, s.rfq.deadline, q, a.t.built)
       && TextAt(q, KQuoteId) == Some(a.request.quoteId) && TextAt(q, KNonce) == Some(a.request.nonce)
  }

  lemma {:induction false} EarlierWindow(env: Env, deadline: string, q: Payload, built: int, at: int)
    requires ExpiresInWindow(env, deadline, q, built) && built <= at
    ensures ExpiresWithin(env, q, at)
  {
  }

  lemma {:induction false} AcceptIsTimely(env: Env, pre: Session, s: Session, a: Action)
    requires env.Valid() && a.t.Ordered() && a.request.Accept? && DecideAccept(env, pre, s, a).Append?
    ensures QuoteTimely(env, NewEvent(a, DecideAccept(env, pre, s, a)))
  {
    AcceptGuards(env, pre, s, a);
    hide DecideAccept, EventOk, ExpiresInWindow, ExpiresWithin, QuoteOf;
    var q := DocAt(DecideAccept(env, pre, s, a).payload, KQuote).value;
    EarlierWindow(env, s.rfq.deadline, q, a.t.built, a.t.stamp);
  }

  lemma {:induction false} SignGuards(env: Env, s: Session, a: Action)
    requires a.request.SignQuote? && DecideSign(env, s, a).Append?
    ensures EventOk(env, s, NewEvent(a, DecideSign(env, s, a)))
  {
  }

  lemma {:induction false} CosignGuards(env: Env, pre: Session, s: Session, a: Action)
    requires a.request.Cosign? && DecideCosign(env, pre, s, a).Append?
    ensures EventOk(env, s, NewEvent(a, DecideCosign(env, pre, s, a)))
  {
  }

  /** Only a session that exists, at both reads, can be acted on. */
  lemma {:induction false} ActsOnSession(env: Env, log: seq<Event>, a: Action)
    requires a.seen <= |log| && !a.request.CreateRfq? && Decide(env, log, a).Append?
    ensures Accepted(log[..a.seen]) && Accepted(log)
    ensures Decide(env, log, a) == DecideFor(env, Derive(log[..a.seen]).s, Derive(log).s, log, a)
  {
  }

  lemma {:induction false} GuardsEstablishEventOk(env: Env, log: seq<Event>, a: Action)
    requires env.Valid() && a.seen <= |log| && !a.request.CreateRfq? && Decide(env, log, a).Append?
    ensures Accepted(log) && EventOk(env, Derive(log).s, NewEvent(a, Decide(env, log, a)))
  {
    ActsOnSession(env, log, a);
    RecordsOnlyGrow(log[..a.seen], log);
    var pre, s := Derive(log[..a.seen]).s, Derive(log).s;
    match a.request
    case SubmitOffer(_, _, _, _, _, _, _, _) => OfferGuards(env, pre, s, a);
    case SendCounter(_, _, _, _, _, _) => CounterGuards(env, pre, s, a);
    case Accept(_, _, _) => AcceptGuards(env, pre, s, a);
    case SignQuote(_) => SignGuards(env, s, a);
    case Cosign(_) => CosignGuards(env, pre, s, a);
    case _ =>
  }

  lemma {:induction false} GuardsEstablishTimely(env: Env, log: seq<Event>, a: Action)
    requires env.Valid() && a.t.Ordered() && a.seen <= |log| && !a.request.CreateRfq? && Decide(env, log, a).Append?
    ensures QuoteTimely(env, NewEvent(a, Decide(env, log, a)))
  {
    ActsOnSession(env, log, a);
    hide Decide, Derive, QuoteTimely;
    OnlyAcceptsSelect(a.request);
    if a.request.Accept? {
      var pre, s := Derive(log[..a.seen]).s, Derive(log).s;
      AcceptDecides(env, pre, s, log, a);
      AcceptIsTimely(env, pre, s, a);
    } else {
      NotASelection(env, NewEvent(a, Decide(env, log, a)));
    }
  }

  lemma {:induction false} OnlyAcceptsSelect(r: Request)
    ensures AppendedType(r) == WinnerSelected <==> r.Accept?
  {
  }

  lemma {:induction false} AcceptDecides(env: Env, pre: Session, s: Session, log: seq<Event>, a: Action)
    requires a.request.Accept?
    ensures DecideFor(env, pre, s, log, a) == DecideAccept(env, pre, s, a)
  {
  }

  lemma {:induction false} NotASelection(env: Env, e: Event)
    requires e.ty != WinnerSelected
    ensures QuoteTimely(env, e)
  {
  }

  // ---- Histories: ids, event budget, settlement ----

  /**
   How many non-counter events a session may hold: the RFQ, its offers, and per accept cycle the
   selection, the buyer's signature and one closing event; an open cycle has events left to come.
   */
  function EventBudget(s: Session, settlements: nat): int {
    1 + s.totalOffers + 3 * s.totalAccepts + settlements
    - (if s.state != CommitPending then 0 else if s.buyerSignature.None? then 2 else 1)
    + (if s.state == Expired then 1 else 0)
  }

  ghost predicate BudgetOk(log: seq<Event>, s: Session) {
    var settlements := CountType(log, SettlementConfirmed);
    && |log| - CountType(log, CounterSent) <= EventBudget(s, settlements)
    && settlements <= 1 && (settlements == 1 ==> s.state == Committed)
  }

  /** No type appears in the log iff its count is zero. */
  lemma {:induction false} CountZero(log: seq<Event>, ty: EventType)
    ensures CountType(log, ty) == 0 <==> forall i :: 0 <= i < |log| ==> log[i].ty != ty
  {
    if log != [] {
      CountZero(log[..|log| - 1], ty);
    }
  }

  lemma {:induction false} KeepsBudget(env: Env, log: seq<Event>, s: Session, e: Event)
    requires BudgetOk(log, s) && EventOk(env, s, e) && Apply(s, e).Live?
    requires e.ty == SettlementConfirmed ==> !Settled(log)
    ensures BudgetOk(log + [e], Apply(s, e).s)
  {
    CountTypeSnoc(log, e);
    if e.ty == SettlementConfirmed { CountZero(log, SettlementConfirmed); }
    hide CountType;
  }

  lemma {:induction false} CountTypeSnoc(log: seq<Event>, e: Event)
    ensures forall ty :: CountType(log + [e], ty) == CountType(log, ty) + (if e.ty == ty then 1 else 0)
  {
    assert (log + [e])[..|log|] == log;
  }

  // ---- The invariant of a log, kept by every handler ----

  ghost predicate LogOk(env: Env, rfqId: string, log: seq<Event>) {
    && Accepted(log) && SessionOk(env, Derive(log).s) && BudgetOk(log, Derive(log).s) && DistinctIds(log)
    && log[0].actor == Derive(log).s.rfq.buyer && Derive(log).s.rfq.rfqId == rfqId
  }

  lemma {:induction false} KeepsSession(env: Env, s: Session, e: Event)
    requires SessionOk(env, s) && EventOk(env, s, e) && QuoteTimely(env, e) && Apply(s, e).Live?
    ensures SessionOk(env, Apply(s, e).s)
  {
    KeepsOffers(env, s, e);
    KeepsTerms(env, s, e);
    KeepsAccepts(env, s, e);
    KeepsCounters(env, s, e);
    KeepsQuote(env, s, e);
    KeepsSignatures(env, s, e);
    KeepsWindow(env, s, e);
    RecordsKept(s, e);
  }

  lemma {:induction false} KeepsLog(env: Env, rfqId: string, log: seq<Event>, e: Event)
    requires LogOk(env, rfqId, log) && EventOk(env, Derive(log).s, e) && Accepted(log + [e])
    requires QuoteTimely(env, e) && (e.ty == SettlementConfirmed ==> !Settled(log))
    requires forall i :: 0 <= i < |log| ==> log[i].id != e.id
    ensures LogOk(env, rfqId, log + [e])
  {
    var s := Derive(log).s;
    DeriveSnoc(log, e);
    KeepsSession(env, s, e);
    KeepsBudget(env, log, s, e);
    RecordsKept(s, e);
    DistinctSnoc(log, e);
    assert (log + [e])[0] == log[0];
  }

  lemma {:induction false} DistinctSnoc(log: seq<Event>, e: Event)
    requires DistinctIds(log) && forall i :: 0 <= i < |log| ==> log[i].id != e.id
    ensures DistinctIds(log + [e])
  {
  }

  lemma {:induction false} FirstEvent(env: Env, a: Action)
    requires a.request.CreateRfq? && DecideCreate(env, [], a).Append?
    ensures LogOk(env, a.rfqId, [NewEvent(a, DecideCreate(env, [], a))])
  {
    var e := NewEvent(a, DecideCreate(env, [], a));
    CreatePayloadParses(env, a);
    hide RfqPayload, ParseRfq, PositiveAmount, LogOk;
    FirstLogOk(env, e);
  }

  lemma {:induction false} FirstLogOk(env: Env, e: Event)
    requires e.ty == RfqCreated && ParseRfq(e.payload).Some? && ParseRfq(e.payload).value.buyer == e.actor
    requires env.parse(ParseRfq(e.payload).value.deadline).Some?
    ensures LogOk(env, ParseRfq(e.payload).value.rfqId, [e])
  {
    FirstDerives(e);
    CountTypeSnoc([], e);
    assert [] + [e] == [e];
    hide ParseRfq, Derive;
    assert SessionOk(env, Create(e).s) && BudgetOk([e], Create(e).s);
  }

  lemma {:induction false} FirstDerives(e: Event)
    ensures Derive([e]) == Create(e)
  {
    hide Create;
    assert [] + [e] == [e];
    DeriveSnoc([], e);
  }

  lemma {:induction false} CreatePayloadParses(env: Env, a: Action)
    requires a.request.CreateRfq? && DecideCreate(env, [], a).Append?
    ensures ParseRfq(DecideCreate(env, [], a).payload) ==
            Some(Rfq(a.request.buyer, a.rfqId, a.request.anchorPrice, a.request.currency, a.request.deadline,
                     a.request.serviceType, a.request.budgetCommitment, Some(a.request.spec)))
  {
    hide RfqPayload, ParseRfq;
    RfqPayloadParses(a.request, a.rfqId);
  }

  lemma {:induction false} RfqPayloadParses(r: Request, rfqId: string)
    requires r.CreateRfq?
    ensures ParseRfq(RfqPayload(r, rfqId)) ==
            Some(Rfq(r.buyer, rfqId, r.anchorPrice, r.currency, r.deadline, r.serviceType, r.budgetCommitment,
                     Some(r.spec)))
  {
    assert TextAt(RfqPayload(r, rfqId), KBudgetCommitment) == r.budgetCommitment;
  }

  lemma {:induction false} SettlementGuard(env: Env, log: seq<Event>, a: Action)
    requires a.seen <= |log| && Decide(env, log, a).Append? && Decide(env, log, a).ty == SettlementConfirmed
    ensures (a.request.Execute? || a.request.ReportSettlement?) && !Settled(log) && Accepted(log[..a.seen])
    ensures Derive(log[..a.seen]).s.state == Committed
  {
    hide DecideOffer, DecideCounter, DecideAccept, DecideSign, DecideCosign, DecideDecline, Derive;
    assert a.request.Execute? || a.request.ReportSettlement?;
  }

  lemma {:induction false} AppendKeepsLog(env: Env, log: seq<Event>, a: Action)
    requires env.Valid() && a.t.Ordered() && a.seen <= |log| && Decide(env, log, a).Append?
    requires log != [] ==> LogOk(env, a.rfqId, log)
    requires Accepted(log + [NewEvent(a, Decide(env, log, a))])
    requires forall i :: 0 <= i < |log| ==> log[i].id != a.eventId
    ensures LogOk(env, a.rfqId, log + [NewEvent(a, Decide(env, log, a))])
  {
    var e := NewEvent(a, Decide(env, log, a));
    if a.request.CreateRfq? {
      assert log + [e] == [e];
      FirstEvent(env, a);
    } else {
      GuardsEstablishEventOk(env, log, a);
      GuardsEstablishTimely(env, log, a);
      if e.ty == SettlementConfirmed { SettlementGuard(env, log, a); }
      KeepsLog(env, a.rfqId, log, e);
    }
  }

  ghost predicate LogsOk(env: Env, logs: Logs) {
    forall r :: r in logs ==> logs[r] != [] && LogOk(env, r, logs[r])
  }

  lemma {:induction false} FreshInLog(logs: Logs, rfqId: string, id: string)
    requires FreshId(logs, id)
    ensures forall i :: 0 <= i < |LogOf(logs, rfqId)| ==> LogOf(logs, rfqId)[i].id != id
  {
  }

  lemma {:induction false} OneLogChanges(env: Env, logs: Logs, rfqId: string, log: seq<Event>)
    requires LogsOk(env, logs) && log != [] && LogOk(env, rfqId, log)
    ensures LogsOk(env, logs[rfqId := log])
  {
  }

  lemma {:induction false} NextKeepsLogs(env: Env, logs: Logs, a: Action)
    requires env.Valid() && LogsOk(env, logs)
    ensures LogsOk(env, Next(env, logs, a))
  {
    if Appends(env, logs, a) {
      var log := LogOf(logs, a.rfqId);
      FreshInLog(logs, a.rfqId, a.eventId);
      AppendKeepsLog(env, log, a);
      OneLogChanges(env, logs, a.rfqId, log + [NewEvent(a, Decide(env, log, a))]);
    }
  }

  /** Every session of every run satisfies the invariant. */
  lemma {:induction false} RunKeepsLogs(env: Env, actions: seq<Action>)
    requires env.Valid()
    ensures LogsOk(env, Run(env, actions))
  {
    if actions != [] {
      RunKeepsLogs(env, actions[..|actions| - 1]);
      NextKeepsLogs(env, Run(env, actions[..|actions| - 1]), actions[|actions| - 1]);
    }
  }

  lemma {:induction false} RunSnoc(env: Env, actions: seq<Action>, a: Action)
    ensures Run(env, actions + [a]) == Next(env, Run(env, actions), a)
  {
    hide Next;
    assert (actions + [a])[..|actions|] == actions;
  }

  // ---- Main results ----

  /**
   The deal behind a committed session: the selection names exactly one recorded offer, the quote has that
   offer's terms and names its seller, and both parties' signatures verify on that quote.
   */
  ghost predicate Deal(env: Env, s: Session, i: nat) {
    && i < |s.offers| && s.selectedOfferId == Some(s.offers[i].offerId) && s.selectedSeller == Some(s.offers[i].seller)
    && (forall j :: 0 <= j < |s.offers| && j != i ==> s.offers[j].offerId != s.offers[i].offerId)
    && s.unsignedQuote.Some? && QuoteOf(env, s.rfq, s.offers[i], s.unsignedQuote.value)
    && OfferTermsOk(s.rfq, s.offers[i]) && WindowOk(env, s)
    && s.buyerSignature.Some? && env.verifyQuote(s.rfq.buyer, s.unsignedQuote.value, s.buyerSignature.value)
    && s.sellerSignature.Some? && env.verifyQuote(s.offers[i].seller, s.unsignedQuote.value, s.sellerSignature.value)
  }

  lemma {:induction false} FoundAt(offers: seq<RecordedOffer>, id: string) returns (i: nat)
    requires FindOffer(offers, id).Some?
    ensures i < |offers| && offers[i].offerId == id && FindOffer(offers, id).value == offers[i]
  {
    if offers[0].offerId == id {
      i := 0;
    } else {
      i := FoundAt(offers[1..], id);
      i := i + 1;
    }
  }

  lemma {:induction false} DealOf(env: Env, s: Session) returns (i: nat)
    requires SessionOk(env, s) && s.state == Committed
    ensures Deal(env, s, i)
  {
    i := FoundAt(s.offers, s.selectedOfferId.value);
  }

  /** In every reachable state a COMMITTED session carries a deal signed by both parties on one recorded offer. */
  lemma {:induction false} CommittedMeansDeal(env: Env, actions: seq<Action>, rfqId: string)
    requires env.Valid() && rfqId in Run(env, actions)
    ensures Accepted(Run(env, actions)[rfqId])
    ensures var s := Derive(Run(env, actions)[rfqId]).s; s.state == Committed ==> exists i :: Deal(env, s, i)
  {
    RunKeepsLogs(env, actions);
    var s := Derive(Run(env, actions)[rfqId]).s;
    if s.state == Committed {
      var i := DealOf(env, s);
    }
  }

  /** In every run an accept stores the quote built for it, expiring at the deadline or at the end of the window. */
  lemma {:induction false} AcceptStoresQuote(env: Env, actions: seq<Action>, a: Action)
    requires env.Valid() && Appends(env, Run(env, actions), a) && a.request.Accept?
    ensures var log := LogOf(Run(env, actions), a.rfqId);
            Accepted(log) && StoresBuiltQuote(env, Derive(log).s, a, Decide(env, log, a).payload)
  {
    var log := LogOf(Run(env, actions), a.rfqId);
    ActsOnSession(env, log, a);
    hide Run, Derive, Decide, DecideFor, DecideAccept, StoresBuiltQuote;
    var pre, s := Derive(log[..a.seen]).s, Derive(log).s;
    AcceptDecides(env, pre, s, log, a);
    AcceptGuards(env, pre, s, a);
  }

  /** Whatever quote a reachable session holds has only the built properties and expires within its window. */
  lemma {:induction false} StoredQuotesAreBuilt(env: Env, actions: seq<Action>, rfqId: string)
    requires env.Valid() && rfqId in Run(env, actions)
    ensures Accepted(Run(env, actions)[rfqId])
    ensures var s := Derive(Run(env, actions)[rfqId]).s;
            WindowOk(env, s) && (s.unsignedQuote.Some? ==> IsBlankQuote(env, s.rfq.spec, s.unsignedQuote.value))
  {
    RunKeepsLogs(env, actions);
    hide Run, Derive, IsBlankQuote;
  }

  /** Sessions cannot cycle forever: bounded accepts, offers and, counters aside, bounded events. */
  lemma {:induction false} SessionsAreBounded(env: Env, actions: seq<Action>, rfqId: string, seller: string)
    requires env.Valid() && rfqId in Run(env, actions)
    ensures var log := Run(env, actions)[rfqId];
            && CountType(log, WinnerSelected) <= 6 && CountFor(log, WinnerSelected, seller) <= 2
            && CountType(log, OfferSubmitted) <= 50 && CountFor(log, OfferSubmitted, seller) <= 5
            && |log| - CountType(log, CounterSent) <= 70
  {
    RunKeepsLogs(env, actions);
    var log := Run(env, actions)[rfqId];
    SessionCountsTheLog(log);
    assert CountOf(Derive(log).s.acceptCount, seller) <= 2 && CountOf(Derive(log).s.offerCount, seller) <= 5;
  }

  /** Counter rounds rise strictly through the whole session and counter ids never repeat. */
  lemma {:induction false} CounterRoundsRise(env: Env, actions: seq<Action>, rfqId: string, i: nat, j: nat)
    requires env.Valid() && rfqId in Run(env, actions)
    requires i < j < |CountersIn(Run(env, actions)[rfqId])|
    ensures var cs := CountersIn(Run(env, actions)[rfqId]);
            0 < cs[i].round < cs[j].round && cs[i].counterId != cs[j].counterId
  {
    RunKeepsLogs(env, actions);
    SessionCountsTheLog(Run(env, actions)[rfqId]);
  }

  /** Whatever was appended since, the unlocked checks on the RFQ and on a seller's offers still hold. */
  lemma {:induction false} UnlockedChecksStillHold(log: seq<Event>, seen: nat, seller: string)
    requires Accepted(log) && 0 < seen <= |log|
    ensures Accepted(log[..seen])
    ensures Derive(log).s.rfq == Derive(log[..seen]).s.rfq
    ensures HasOfferFrom(Derive(log[..seen]).s.offers, seller) ==> HasOfferFrom(Derive(log).s.offers, seller)
    ensures Derive(log[..seen]).s.state == Committed ==> SameButLastId(Derive(log[..seen]).s, Derive(log).s)
  {
    RecordsOnlyGrow(log[..seen], log);
    var before, now := Derive(log[..seen]).s.offers, Derive(log).s.offers;
    if HasOfferFrom(before, seller) {
      var i :| 0 <= i < |before| && before[i].seller == seller;
      assert now[i] == before[i];
    }
    if Derive(log[..seen]).s.state == Committed {
      CommittedIsAbsorbing(log[..seen], log);
    }
  }

  /** A seller's own offer is in the log. */
  ghost predicate Offered(log: seq<Event>, seller: string) {
    exists j :: 0 <= j < |log| && log[j].ty == OfferSubmitted && log[j].actor == seller
  }

  lemma {:induction false} OfferIsByItsSeller(s: Session, e: Event, seller: string)
    requires Apply(s, e).Live? && HasOfferFrom(Apply(s, e).s.offers, seller)
    ensures HasOfferFrom(s.offers, seller) || (e.ty == OfferSubmitted && e.actor == seller)
  {
    RecordsOfStep(s, e);
    var offers := Apply(s, e).s.offers;
    var i :| 0 <= i < |offers| && offers[i].seller == seller;
    if i < |s.offers| { assert s.offers[i].seller == seller; }
  }

  /** Every recorded offer stands in the log, sent by its seller. */
  lemma {:induction false} RecordedOfferIsInLog(log: seq<Event>, seller: string)
    requires Accepted(log) && HasOfferFrom(Derive(log).s.offers, seller)
    ensures Offered(log, seller)
  {
    if |log| > 1 {
      LastStep(log);
      hide Derive, Apply;
      var before, e := log[..|log| - 1], log[|log| - 1];
      OfferIsByItsSeller(Derive(before).s, e, seller);
      if HasOfferFrom(Derive(before).s.offers, seller) {
        RecordedOfferIsInLog(before, seller);
        var j :| 0 <= j < |before| && before[j].ty == OfferSubmitted && before[j].actor == seller;
        assert log[j] == before[j];
      }
    } else {
      NothingOffered(log);
    }
  }

  lemma {:induction false} NothingOffered(log: seq<Event>)
    requires Accepted(log) && |log| <= 1
    ensures Derive(log).s.offers == []
  {
    assert log == [] + log && (log != [] ==> log[..0] == []);
  }

  lemma {:induction false} CounterNeedsOffer(s: Session, e: Event)
    requires Apply(s, e).Live? && e.ty == CounterSent
    ensures TextAt(e.payload, KTo).Some? && HasOfferFrom(s.offers, TextAt(e.payload, KTo).value)
  {
  }

  /** In every accepted log, whoever a counter answers has sent an offer before it. */
  lemma {:induction false} RecipientOfferedEarlier(log: seq<Event>, k: nat)
    requires Accepted(log) && k < |log| && log[k].ty == CounterSent
    ensures TextAt(log[k].payload, KTo).Some? && Offered(log[..k], TextAt(log[k].payload, KTo).value)
  {
    PrefixAccepted(log, k + 1);
    DeriveNext(log, k);
    if k > 0 {
      PrefixAccepted(log, k);
      hide Derive;
      CounterNeedsOffer(Derive(log[..k]).s, log[k]);
      RecordedOfferIsInLog(log[..k], TextAt(log[k].payload, KTo).value);
    }
  }

  /** At most one settlement record per session, and only after COMMITTED. */
  lemma {:induction false} SettlesAtMostOnce(env: Env, actions: seq<Action>, rfqId: string)
    requires env.Valid() && rfqId in Run(env, actions)
    ensures var log := Run(env, actions)[rfqId];
            && Accepted(log) && CountType(log, SettlementConfirmed) <= 1
            && (CountType(log, SettlementConfirmed) == 1 ==> Derive(log).s.state == Committed)
  {
    RunKeepsLogs(env, actions);
  }

  /** The settlement routes' unlocked COMMITTED check is still true when they append. */
  lemma {:induction false} SettlementStateIsCurrent(env: Env, log: seq<Event>, a: Action)
    requires Accepted(log) && a.seen <= |log| && Decide(env, log, a).Append?
    requires Decide(env, log, a).ty == SettlementConfirmed
    ensures Derive(log).s.state == Committed
  {
    SettlementGuard(env, log, a);
    CommittedIsAbsorbing(log[..a.seen], log);
  }

  /** The unlocked read behind a settlement differs from the session at the append in its last event id at most. */
  lemma {:induction false} SettlementReadIsCurrent(env: Env, log: seq<Event>, a: Action)
    requires Accepted(log) && a.seen <= |log| && Decide(env, log, a).Append?
    requires Decide(env, log, a).ty == SettlementConfirmed
    ensures Accepted(log[..a.seen]) && SameButLastId(Derive(log[..a.seen]).s, Derive(log).s)
    ensures Decide(env, log, a) == DecideFor(env, Derive(log[..a.seen]).s, Derive(log).s, log, a)
  {
    SettlementGuard(env, log, a);
    CommittedIsAbsorbing(log[..a.seen], log);
  }

  /** A settlement record names the deal's seller, buyer and price. */
  ghost predicate RecordsDeal(env: Env, s: Session, p: Payload) {
    exists i: nat :: Deal(env, s, i) && TextAt(p, KSeller) == Some(s.offers[i].seller) == s.selectedSeller
                && TextAt(p, KBuyer) == Some(s.rfq.buyer) && TextAt(p, KFinalPrice) == Some(s.offers[i].price)
  }

  lemma {:induction false} ReportedRecord(env: Env, pre: Session, s: Session, log: seq<Event>, a: Action)
    requires a.request.ReportSettlement? && DecideReport(pre, log, a).Append?
    requires SessionOk(env, s) && s.state == Committed && SameButLastId(pre, s)
    ensures RecordsDeal(env, s, DecideReport(pre, log, a).payload)
  {
    hide PositiveAmount, OfferTermsOk, BudgetOk;
    var p, q := DecideReport(pre, log, a).payload, pre.unsignedQuote.value;
    assert TextAt(p, KSeller) == TextAt(q, KSeller) && TextAt(p, KBuyer) == TextAt(q, KBuyer);
    assert TextAt(p, KFinalPrice) == TextAt(q, KFinalPrice);
    var i := DealOf(env, s);
  }

  lemma {:induction false} ReportDecides(env: Env, pre: Derived, locked: Derived, log: seq<Event>, a: Action)
    requires a.request.ReportSettlement? && pre.Live? && locked.Live?
    ensures DecideFor(env, pre.s, locked.s, log, a) == DecideReport(pre.s, log, a)
  {
  }

  lemma {:induction false} ReportOnLog(env: Env, log: seq<Event>, a: Action)
    requires LogOk(env, a.rfqId, log) && a.seen <= |log| && a.request.ReportSettlement? && Decide(env, log, a).Append?
    ensures RecordsDeal(env, Derive(log).s, Decide(env, log, a).payload)
  {
    ReportDecides(env, Derive(log[..a.seen]), Derive(log), log, a);
    hide Decide, DecideFor, DecideReport, Derive, SessionOk, BudgetOk;
    SettlementReadIsCurrent(env, log, a);
    SettlementStateIsCurrent(env, log, a);
    ReportedRecord(env, Derive(log[..a.seen]).s, Derive(log).s, log, a);
  }

  /** In every run, whatever the seller's report says, the record names the deal's own seller, buyer and price. */
  lemma {:induction false} ReportRecordsDeal(env: Env, actions: seq<Action>, a: Action)
    requires env.Valid() && Appends(env, Run(env, actions), a) && a.request.ReportSettlement?
    ensures var log := LogOf(Run(env, actions), a.rfqId);
            Accepted(log) && RecordsDeal(env, Derive(log).s, Decide(env, log, a).payload)
  {
    RunKeepsLogs(env, actions);
    ActsOnSession(env, LogOf(Run(env, actions), a.rfqId), a);
    ReportOnLog(env, LogOf(Run(env, actions), a.rfqId), a);
  }

  lemma {:induction false} OnlyTheEnforcer(r: Request)
    ensures AppendedType(r) == NegotiationExpired ==> r.Expire?
    ensures AppendedType(r) == CosignTimeout ==> r.TimeOutCosign?
  {
  }

  lemma {:induction false} ExpiryGuard(env: Env, log: seq<Event>, a: Action)
    requires a.seen <= |log| && a.request.Expire? && Decide(env, log, a).Append?
    ensures Accepted(log) && TryExpire(env, Derive(log).s, a.t.tested).Append?
  {
    ActsOnSession(env, log, a);
    ExpiryRechecks(env, Derive(log[..a.seen]).s, Derive(log).s, log, a);
  }

  lemma {:induction false} ExpiryRechecks(env: Env, pre: Session, s: Session, log: seq<Event>, a: Action)
    requires a.request.Expire? && DecideFor(env, pre, s, log, a).Append?
    ensures TryExpire(env, s, a.t.tested).Append?
  {
  }

  lemma {:induction false} TimeoutGuard(env: Env, log: seq<Event>, a: Action)
    requires a.seen <= |log| && a.request.TimeOutCosign? && Decide(env, log, a).Append?
    ensures Accepted(log) && TryCosignTimeout(env, Derive(log).s, a.t.tested).Append?
  {
    ActsOnSession(env, log, a);
    TimeoutRechecks(env, Derive(log[..a.seen]).s, Derive(log).s, log, a);
  }

  lemma {:induction false} TimeoutRechecks(env: Env, pre: Session, s: Session, log: seq<Event>, a: Action)
    requires a.request.TimeOutCosign? && DecideFor(env, pre, s, log, a).Append?
    ensures TryCosignTimeout(env, s, a.t.tested).Append?
  {
  }

  /**
   Whatever happens between the scan's unlocked read and the lock, an expiry is appended only to a live
   session whose deadline has passed at the instant tested.
   */
  lemma {:induction false} ExpiryIsTimely(env: Env, actions: seq<Action>, a: Action)
    requires env.Valid() && Appends(env, Run(env, actions), a)
    requires Decide(env, LogOf(Run(env, actions), a.rfqId), a).ty == NegotiationExpired
    ensures var d := Derive(LogOf(Run(env, actions), a.rfqId));
            d.Live? && !Terminal(d.s.state) && Reached(env, a.t.tested, d.s.rfq.deadline)
  {
    RunKeepsLogs(env, actions);
    OnlyTheEnforcer(a.request);
    ExpiryGuard(env, LogOf(Run(env, actions), a.rfqId), a);
  }

  /** A cosign timeout is appended only to a session pending for the clamped timeout since its current selection. */
  lemma {:induction false} CosignTimeoutIsTimely(env: Env, actions: seq<Action>, a: Action)
    requires env.Valid() && Appends(env, Run(env, actions), a)
    requires Decide(env, LogOf(Run(env, actions), a.rfqId), a).ty == CosignTimeout
    ensures var log := LogOf(Run(env, actions), a.rfqId);
            && Accepted(log) && Derive(log).s.state == CommitPending
            && exists w: nat :: CurrentWinner(log, w)
                                && a.t.tested - log[w].timestamp >= CosignTimeoutMs(env) >= MIN_COSIGN_TIMEOUT_MS
  {
    var log := LogOf(Run(env, actions), a.rfqId);
    OnlyTheEnforcer(a.request);
    TimeoutGuard(env, log, a);
    QuoteFieldsAreCurrent(log);
    var w := Winner(log).value;
    assert CurrentWinner(log, w);
  }

  // ---- Participants act in time and with authority ----

  /** A step a buyer or seller takes in a negotiation. */
  predicate Negotiates(r: Request) {
    r.SubmitOffer? || r.SendCounter? || r.Accept? || r.SignQuote? || r.Cosign? || r.Decline?
  }

  lemma {:induction false} FoundOfferOf(offers: seq<RecordedOffer>, id: string, seller: string)
    requires FindOfferOf(offers, id, seller).Some?
    ensures var o := FindOfferOf(offers, id, seller).value; o in offers && o.offerId == id && o.seller == seller
  {
    if !(offers[0].offerId == id && offers[0].seller == seller) {
      FoundOfferOf(offers[1..], id, seller);
    }
  }

  lemma {:induction false} DeadlineTested(env: Env, pre: Session, s: Session, log: seq<Event>, a: Action)
    requires Negotiates(a.request) && DecideFor(env, pre, s, log, a).Append?
    ensures !Reached(env, a.t.tested, s.rfq.deadline)
    ensures a.request.SignQuote? || a.request.Cosign? ==> !QuoteOver(env, s, a.t.checked)
  {
  }

  /** The offer an accept selects is on record and still valid at the instant tested. */
  ghost predicate AcceptsValidOffer(env: Env, s: Session, e: Envelope, now: int) {
    exists o :: o in s.offers && TextAt(e.payload, KOfferId) == Some(o.offerId)
                && TextAt(e.payload, KSeller) == Some(o.seller)
                && !Reached(env, now, o.validUntil)
  }

  lemma {:induction false} ValidityTested(env: Env, pre: Session, s: Session, a: Action)
    requires a.request.Accept? && DecideAccept(env, pre, s, a).Append?
    ensures AcceptsValidOffer(env, s, a.request.envelope, a.t.checked) &&
            env.verifyEnvelope(pre.rfq.buyer, a.request.envelope)
  {
    var p := a.request.envelope.payload;
    FoundOfferOf(s.offers, TextAt(p, KOfferId).value, TextAt(p, KSeller).value);
  }

  /**
   In every run a participant's step is appended only if the deadline had not passed when it was tested inside the
   lock; a signature only if the quote had not expired; an accept only on an offer still valid and an envelope the
   buyer signed; a decline only on one the seller now selected signed.
   */
  lemma {:induction false} ActsInTimeAndWithAuthority(env: Env, actions: seq<Action>, a: Action)
    requires env.Valid() && Appends(env, Run(env, actions), a) && Negotiates(a.request)
    ensures var d := Derive(LogOf(Run(env, actions), a.rfqId));
            && d.Live? && !Reached(env, a.t.tested, d.s.rfq.deadline)
            && (a.request.SignQuote? || a.request.Cosign? ==> !QuoteOver(env, d.s, a.t.checked))
            && (a.request.Accept? ==> AcceptsValidOffer(env, d.s, a.request.envelope, a.t.checked)
                                      && env.verifyEnvelope(d.s.rfq.buyer, a.request.envelope))
            && (a.request.Decline? ==> d.s.selectedSeller.Some?
                                       && env.verifyEnvelope(d.s.selectedSeller.value, a.request.envelope))
  {
    var log := LogOf(Run(env, actions), a.rfqId);
    ActsOnSession(env, log, a);
    var pre, s := Derive(log[..a.seen]).s, Derive(log).s;
    RecordsOnlyGrow(log[..a.seen], log);
    DeadlineTested(env, pre, s, log, a);
    if a.request.Accept? { ValidityTested(env, pre, s, a); }
    if a.request.Decline? { DeclineGuards(env, pre, s, a); }
  }

  // ---- Signed envelopes act at most once ----

  lemma {:induction false} NextGrows(env: Env, logs: Logs, a: Action, rfqId: string)
    ensures LogOf(logs, rfqId) <= LogOf(Next(env, logs, a), rfqId)
  {
  }

  /** Logs only ever grow. */
  lemma {:induction false} RunGrows(env: Env, actions: seq<Action>, i: nat, rfqId: string)
    requires i <= |actions|
    ensures LogOf(Run(env, actions[..i]), rfqId) <= LogOf(Run(env, actions), rfqId)
  {
    if i < |actions| {
      var shorter := actions[..|actions| - 1];
      assert shorter[..i] == actions[..i];
      RunGrows(env, shorter, i, rfqId);
      NextGrows(env, Run(env, shorter), actions[|actions| - 1], rfqId);
    } else {
      assert actions[..i] == actions;
    }
  }

  predicate Carries(a: Action, e: Envelope) {
    (a.request.Accept? || a.request.Decline?) && a.request.envelope == e
  }

  lemma {:induction false} DeclineGuards(env: Env, pre: Session, s: Session, a: Action)
    requires a.request.Decline? && DecideDecline(env, pre, s, a).Append?
    ensures a.request.envelope.revision == s.lastEventId && a.request.envelope.rfqId == a.rfqId
    ensures s.selectedSeller.Some? && env.verifyEnvelope(s.selectedSeller.value, a.request.envelope)
  {
  }

  /** A handler that appends on an envelope pins the whole log: its last event id is the envelope's revision. */
  lemma {:induction false} EnvelopePinsLog(env: Env, log: seq<Event>, a: Action, e: Envelope)
    requires env.Valid() && Carries(a, e) && a.seen <= |log| && Decide(env, log, a).Append?
    ensures a.rfqId == e.rfqId && log != [] && log[|log| - 1].id == e.revision
  {
    var pre, s := Derive(log[..a.seen]).s, Derive(log).s;
    if a.request.Accept? {
      AcceptGuards(env, pre, s, a);
    } else {
      DeclineGuards(env, pre, s, a);
    }
    SessionCountsTheLog(log);
  }

  /** Two different positions of one log cannot both end in the envelope's revision. */
  lemma {:induction false} RevisionNeverReturns(log: seq<Event>, n: nat, revision: string)
    requires DistinctIds(log) && 0 < n < |log| && log[n - 1].id == revision
    ensures log[|log| - 1].id != revision
  {
  }

  lemma {:induction false} AppendLengthens(env: Env, logs: Logs, a: Action, e: Envelope)
    requires env.Valid() && Carries(a, e) && Appends(env, logs, a)
    ensures a.rfqId == e.rfqId && |LogOf(Next(env, logs, a), e.rfqId)| > |LogOf(logs, e.rfqId)| > 0
    ensures LogOf(logs, e.rfqId) <= LogOf(Next(env, logs, a), e.rfqId)
    ensures LogOf(logs, e.rfqId)[|LogOf(logs, e.rfqId)| - 1].id == e.revision
  {
    EnvelopePinsLog(env, LogOf(logs, a.rfqId), a, e);
  }

  /** Once an envelope has acted, its revision lies buried in every later log. */
  lemma {:induction false} RevisionIsBuried(env: Env, actions: seq<Action>, i: nat, j: nat, e: Envelope)
    returns (n: nat)
    requires env.Valid() && i < j <= |actions| && Carries(actions[i], e)
    requires Appends(env, Run(env, actions[..i]), actions[i])
    ensures 0 < n < |LogOf(Run(env, actions[..j]), e.rfqId)| &&
            LogOf(Run(env, actions[..j]), e.rfqId)[n - 1].id == e.revision
  {
    hide Decide;
    var before := LogOf(Run(env, actions[..i]), e.rfqId);
    AppendLengthens(env, Run(env, actions[..i]), actions[i], e);
    assert actions[..i + 1][..i] == actions[..i];
    assert Run(env, actions[..i + 1]) == Next(env, Run(env, actions[..i]), actions[i]);
    assert actions[..j][..i + 1] == actions[..i + 1];
    RunGrows(env, actions[..j], i + 1, e.rfqId);
    n := |before|;
  }

  /**
   Two accept or decline envelopes naming the same session and revision never both cause an event; so the same
   signed envelope never acts twice, however many copies of it were validated before any was recorded as used.
   */
  lemma {:induction false} EnvelopeActsOnce(env: Env, actions: seq<Action>, i: nat, j: nat, e: Envelope, f: Envelope)
    requires env.Valid() && i < j < |actions| && Carries(actions[i], e) && Carries(actions[j], f)
    requires e.rfqId == f.rfqId && e.revision == f.revision
    requires Appends(env, Run(env, actions[..i]), actions[i])
    ensures !Appends(env, Run(env, actions[..j]), actions[j])
  {
    var logs := Run(env, actions[..j]);
    var n := RevisionIsBuried(env, actions, i, j, e);
    RunKeepsLogs(env, actions[..j]);
    RevisionNeverReturns(LogOf(logs, e.rfqId), n, e.revision);
    if Appends(env, logs, actions[j]) {
      AppendLengthens(env, logs, actions[j], f);
      assert false;
    }
  }
}
