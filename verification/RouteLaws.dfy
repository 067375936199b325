/**
 When each handler appends, in any run, said of the raw logs: both directions, every guard. What the guards let
 through always passes the dry run.
 */
module RouteLaws {
  import opened Protocol
  import opened Reducer
  import opened ReducerHistory
  import opened Routes
  import opened EngineRuns
  import opened Admission
  import opened LogView

  /** A date that parses to an instant after `now`. */
  predicate Ahead(env: Env, date: string, now: int) {
    env.parse(date).Some? && env.parse(date).value > now
  }

  predicate DeadlinePassed(env: Env, log: seq<Event>, now: int) {
    log != [] && TextAt(log[0].payload, KDeadline).Some? && Reached(env, now, TextAt(log[0].payload, KDeadline).value)
  }

  predicate InCurrency(log: seq<Event>, currency: string) {
    log != [] && TextAt(log[0].payload, KCurrency) == Some(currency)
  }

  predicate IsBuyer(log: seq<Event>, who: string) {
    log != [] && TextAt(log[0].payload, KBuyer) == Some(who)
  }

  /** The envelope names this action, this session and the last event of the log. */
  predicate Binds(e: Envelope, action: ControlAction, rfqId: string, log: seq<Event>) {
    e.action == action && e.rfqId == rfqId && e.revision != "" && log != [] && e.revision == log[|log| - 1].id
  }

  /** What any append to an existing session needs: clock order, something read without the lock, a new event id. */
  ghost predicate Ready(logs: Logs, a: Action) {
    a.t.Ordered() && 0 < a.seen <= |LogOf(logs, a.rfqId)| && FreshId(logs, a.eventId)
  }

  // ---- The conditions ----

  predicate CreateDue(env: Env, log: seq<Event>, a: Action)
    requires a.request.CreateRfq?
  {
    a.valid && log == [] && Ahead(env, a.request.deadline, a.t.unlocked) && PositiveAmount(a.request.anchorPrice)
  }

  ghost predicate OfferDue(env: Env, log: seq<Event>, a: Action)
    requires a.request.SubmitOffer?
  {
    var r := a.request;
    && a.valid && InCurrency(log, r.currency) && PositiveAmount(r.price) && Ahead(env, r.validUntil, a.t.unlocked)
    && r.endpoint.Some? && r.endpoint.value != ""
    && !DeadlinePassed(env, log, a.t.tested) && Bargaining(log) && !OfferNamed(log, r.offerId)
    && CountType(log, OfferSubmitted) < 50 && CountFor(log, OfferSubmitted, r.seller) < 5
  }

  ghost predicate CounterDue(env: Env, log: seq<Event>, a: Action)
    requires a.request.SendCounter? && a.seen <= |log|
  {
    var r := a.request;
    && a.valid && InCurrency(log, r.currency) && PositiveAmount(r.price) && IsBuyer(log, r.sender)
    && OfferedBy(log[..a.seen], r.recipient)
    && !DeadlinePassed(env, log, a.t.tested) && Bargaining(log) && !CounterNamed(log, r.counterId)
    && r.round > 0 && RoundsBelow(log, r.round)
  }

  /** The log holds this seller's offer with this id, and it has not lapsed. */
  predicate StandingOffer(env: Env, log: seq<Event>, id: string, seller: string, now: int) {
    exists k :: 0 <= k < |log| && IsStanding(env, log[k], id, seller, now)
  }

  predicate IsStanding(env: Env, e: Event, id: string, seller: string, now: int) {
    && e.ty == OfferSubmitted && TextAt(e.payload, KOfferId) == Some(id) && TextAt(e.payload, KSeller) == Some(seller)
    && TextAt(e.payload, KValidUntil).Some? && !Reached(env, now, TextAt(e.payload, KValidUntil).value)
  }

  ghost predicate AcceptDue(env: Env, log: seq<Event>, a: Action)
    requires a.request.Accept?
  {
    var e := a.request.envelope;
    && a.valid && Binds(e, AcceptAction, a.rfqId, log)
    && (exists buyer :: IsBuyer(log, buyer) && env.verifyEnvelope(buyer, e))
    && TextAt(e.payload, KSeller).Some? && TextAt(e.payload, KOfferId).Some?
    && !DeadlinePassed(env, log, a.t.tested) && Bargaining(log)
    && StandingOffer(env, log, TextAt(e.payload, KOfferId).value, TextAt(e.payload, KSeller).value, a.t.checked)
    && CountType(log, WinnerSelected) < 6 && CountFor(log, WinnerSelected, TextAt(e.payload, KSeller).value) < 2
  }

  /** The current quote has not expired and this is `signer`'s signature on it. */
  ghost predicate Signs(env: Env, log: seq<Event>, signer: string, signature: string, now: int) {
    exists q :: CurrentQuote(log, q) && IsSignedBy(env, q, signer, signature, now)
  }

  predicate IsSignedBy(env: Env, q: Payload, signer: string, signature: string, now: int) {
    && !(TextAt(q, KExpiresAt).Some? && Reached(env, now, TextAt(q, KExpiresAt).value))
    && env.verifyQuote(signer, q, signature)
  }

  ghost predicate SignDue(env: Env, log: seq<Event>, a: Action)
    requires a.request.SignQuote?
  {
    && a.valid && !DeadlinePassed(env, log, a.t.tested) && Pending(log) && !BuyerSigned(log)
    && exists buyer :: IsBuyer(log, buyer) && Signs(env, log, buyer, a.request.signature, a.t.checked)
  }

  ghost predicate CosignDue(env: Env, log: seq<Event>, a: Action)
    requires a.request.Cosign? && a.seen <= |log|
  {
    && a.valid && !DeadlinePassed(env, log, a.t.tested) && Pending(log) && BuyerSigned(log)
    && (exists read :: CurrentSeller(log[..a.seen], read) && read != "")
    && exists seller :: CurrentSeller(log, seller) && Signs(env, log, seller, a.request.signature, a.t.checked)
  }

  ghost predicate DeclineDue(env: Env, log: seq<Event>, a: Action)
    requires a.request.Decline? && a.seen <= |log|
  {
    var e := a.request.envelope;
    && a.valid && Binds(e, DeclineAction, a.rfqId, log) && !DeadlinePassed(env, log, a.t.tested) && Pending(log)
    && exists seller :: CurrentSeller(log[..a.seen], seller) && CurrentSeller(log, seller) && seller != ""
                        && env.verifyEnvelope(seller, e)
  }

  ghost predicate ExpireDue(env: Env, log: seq<Event>, a: Action)
    requires a.seen <= |log|
  {
    !Over(log[..a.seen]) && !Over(log) && DeadlinePassed(env, log, a.t.unlocked)
  }

  /** Pending on a selection at least the cosign timeout old. */
  ghost predicate Overdue(env: Env, log: seq<Event>, now: int) {
    Pending(log) && exists t :: SelectedAt(log, t) && now - t >= CosignTimeoutMs(env)
  }

  ghost predicate TimeoutDue(env: Env, log: seq<Event>, a: Action)
    requires a.seen <= |log|
  {
    && Overdue(env, log[..a.seen], a.t.unlocked) && !DeadlinePassed(env, log, a.t.unlocked)
    && Overdue(env, log, a.t.tested) && exists seller :: CurrentSeller(log, seller) && seller != ""
  }

  /** Not settled before, and the committed quote has this id, if it has one. */
  ghost predicate SettleDue(log: seq<Event>, seen: nat, quoteId: Option<string>)
    requires seen <= |log|
  {
    && Happened(log[..seen], QuoteCommitted) && !Happened(log, SettlementConfirmed)
    && exists q :: CurrentQuote(log, q) && TextAt(q, KQuoteId) in {Some(""), quoteId}
  }

  ghost predicate ExecuteDue(log: seq<Event>, a: Action)
    requires a.request.Execute? && a.seen <= |log|
  {
    var q := a.request.quote;
    && a.valid && TextAt(q, KSeller).Some? && TextAt(q, KRfqId) == Some(a.rfqId)
    && SettleDue(log, a.seen, TextAt(q, KQuoteId))
  }

  ghost predicate ReportDue(log: seq<Event>, a: Action)
    requires a.request.ReportSettlement? && a.seen <= |log|
  {
    && a.valid && a.request.quoteId != "" && CurrentSeller(log, a.request.reporter)
    && SettleDue(log, a.seen, Some(a.request.quoteId))
  }

  // ---- What a handler sees ----

  /** The two reads of a handler, and what they show of the log. */
  ghost predicate Reads(env: Env, log: seq<Event>, seen: nat, pre: Session, s: Session) {
    && 0 < seen <= |log| && Accepted(log) && Accepted(log[..seen])
    && pre == Derive(log[..seen]).s && s == Derive(log).s && pre.rfq == s.rfq
    && SessionOk(env, s) && BooksView(log, s) && CycleView(log, s) && CycleView(log[..seen], pre)
    && (pre.state == Committed ==> SameButLastId(pre, s))
  }

  lemma {:induction false} HandlerReads(env: Env, rfqId: string, log: seq<Event>, seen: nat)
    requires LogOk(env, rfqId, log) && 0 < seen <= |log|
    ensures Accepted(log[..seen]) && Reads(env, log, seen, Derive(log[..seen]).s, Derive(log).s)
  {
    hide Derive, BooksView, CycleView, SessionOk, BudgetOk;
    BooksAreViewed(log);
    CycleIsViewed(log);
    RecordsOnlyGrow(log[..seen], log);
    CycleIsViewed(log[..seen]);
    if Derive(log[..seen]).s.state == Committed { CommittedIsAbsorbing(log[..seen], log); }
  }

  lemma {:induction false} NoSessionNoAppend(env: Env, logs: Logs, a: Action)
    requires !a.request.CreateRfq? && (LogOf(logs, a.rfqId) == [] || a.seen == 0)
    ensures !Appends(env, logs, a)
  {
    hide DecideFor;
  }

  lemma {:induction false} AppendsOnSession(env: Env, logs: Logs, a: Action)
    requires !a.request.CreateRfq? && 0 < a.seen <= |LogOf(logs, a.rfqId)|
    requires Accepted(LogOf(logs, a.rfqId)) && Accepted(LogOf(logs, a.rfqId)[..a.seen])
    ensures var log := LogOf(logs, a.rfqId);
            var o := DecideFor(env, Derive(log[..a.seen]).s, Derive(log).s, log, a);
            Appends(env, logs, a) <==> Ready(logs, a) && o.Append? && Apply(Derive(log).s, NewEvent(a, o)).Live?
  {
    hide DecideFor, Apply;
    var log := LogOf(logs, a.rfqId);
    var o := DecideFor(env, Derive(log[..a.seen]).s, Derive(log).s, log, a);
    assert Decide(env, log, a) == o;
    if o.Append? { DeriveSnoc(log, NewEvent(a, o)); }
    hide Derive;
  }

  /** The handler appends exactly if its condition holds of the log. */
  ghost predicate Law(env: Env, logs: Logs, a: Action, due: bool) {
    Appends(env, logs, a) <==> Ready(logs, a) && due
  }

  /** From what the guards decide on the two reads to what is appended to the log. */
  lemma {:induction false} LawOf(env: Env, actions: seq<Action>, a: Action, due: bool)
    requires env.Valid() && !a.request.CreateRfq?
    requires var logs := Run(env, actions);
             var log := LogOf(logs, a.rfqId);
             (0 < a.seen <= |log| && LogOk(env, a.rfqId, log) && a.t.Ordered() && Accepted(log[..a.seen])
              && Reads(env, log, a.seen, Derive(log[..a.seen]).s, Derive(log).s)) ==>
               var o := DecideFor(env, Derive(log[..a.seen]).s, Derive(log).s, log, a);
               (o.Append? <==> due) && (o.Append? ==> Apply(Derive(log).s, NewEvent(a, o)).Live?)
    ensures Law(env, Run(env, actions), a, due)
  {
    hide DecideFor, Apply, Derive, Reads, LogOk, Run, Appends;
    var logs := Run(env, actions);
    var log := LogOf(logs, a.rfqId);
    RunKeepsLogs(env, actions);
    if log == [] || a.seen == 0 {
      NoSessionNoAppend(env, logs, a);
    } else if a.seen <= |log| {
      HandlerReads(env, a.rfqId, log, a.seen);
      LogIsAccepted(env, a.rfqId, log);
      AppendsOnSession(env, logs, a);
    } else {
      UnseenNoAppend(env, logs, a);
    }
  }

  lemma {:induction false} LogIsAccepted(env: Env, rfqId: string, log: seq<Event>)
    requires LogOk(env, rfqId, log)
    ensures Accepted(log)
  {
  }

  lemma {:induction false} UnseenNoAppend(env: Env, logs: Logs, a: Action)
    requires a.seen > |LogOf(logs, a.rfqId)|
    ensures !Appends(env, logs, a)
  {
  }

  // ---- Steps from the session to the log ----

  lemma {:induction false} OfferedStays(log: seq<Event>, n: nat, x: string)
    requires n <= |log|
    ensures OfferedBy(log[..n], x) ==> OfferedBy(log, x) && Happened(log, OfferSubmitted)
  {
    if k :| 0 <= k < n && log[..n][k].ty == OfferSubmitted && TextAt(log[..n][k].payload, KSeller) == Some(x) {
      assert log[k] == log[..n][k];
    }
  }

  lemma {:induction false} SignsIff(env: Env, log: seq<Event>, s: Session, signer: string, signature: string, now: int)
    requires CycleView(log, s)
    ensures Signs(env, log, signer, signature, now) <==>
            && s.unsignedQuote.Some? && !QuoteOver(env, s, now)
            && env.verifyQuote(signer, s.unsignedQuote.value, signature)
  {
    hide CurrentQuote, Phases, CurrentSeller, OfferedBy, HasOfferFrom, SelectedAt, BuyerSigned;
    if s.unsignedQuote.Some? { assert CurrentQuote(log, s.unsignedQuote.value); }
  }

  lemma {:induction false} SettledIsHappened(log: seq<Event>)
    ensures Settled(log) <==> Happened(log, SettlementConfirmed)
  {
  }

  lemma {:induction false} QuoteHasId(env: Env, s: Session)
    requires SessionOk(env, s) && s.state == Committed
    ensures s.unsignedQuote.Some? && TextAt(s.unsignedQuote.value, KQuoteId).Some?
  {
    assert KQuoteId in s.unsignedQuote.value;
  }

  lemma {:induction false} FoundInOffers(offers: seq<RecordedOffer>, o: RecordedOffer)
    requires o in offers && forall i, j :: 0 <= i < j < |offers| ==> offers[i].offerId != offers[j].offerId
    ensures FindOfferOf(offers, o.offerId, o.seller) == Some(o) == FindOffer(offers, o.offerId)
  {
    if offers[0] != o {
      var k :| 0 <= k < |offers| && offers[k] == o;
      FoundInOffers(offers[1..], o);
    }
  }

  /** With distinct ids, finding by id and seller is finding by id. */
  lemma {:induction false} FoundIsFirst(env: Env, s: Session, p: Payload)
    requires SessionOk(env, s) && TextAt(p, KOfferId).Some? && TextAt(p, KSeller).Some?
    ensures var id, x := TextAt(p, KOfferId).value, TextAt(p, KSeller).value;
            FindOfferOf(s.offers, id, x).Some? ==>
              var o := FindOfferOf(s.offers, id, x).value;
              && FindOffer(s.offers, id) == Some(o) && o in s.offers && o.offerId == id && o.seller == x
              && HasOfferFrom(s.offers, x) && PositiveAmount(o.price)
  {
    hide PositiveAmount;
    var id, x := TextAt(p, KOfferId).value, TextAt(p, KSeller).value;
    if FindOfferOf(s.offers, id, x).Some? {
      FoundOfferOf(s.offers, id, x);
      FoundInOffers(s.offers, FindOfferOf(s.offers, id, x).value);
    }
  }

  lemma {:induction false} StandingIff(env: Env, log: seq<Event>, s: Session, p: Payload, now: int)
    requires Accepted(log) && s == Derive(log).s && SessionOk(env, s)
    ensures TextAt(p, KOfferId).Some? && TextAt(p, KSeller).Some? ==>
              var id, x := TextAt(p, KOfferId).value, TextAt(p, KSeller).value;
              StandingOffer(env, log, id, x, now) <==>
              FindOfferOf(s.offers, id, x).Some? && !Reached(env, now, FindOfferOf(s.offers, id, x).value.validUntil)
  {
    hide Derive, FindOfferOf, Reached, CountsTheLog, OffersIn;
    SessionCountsTheLog(log);
    AcceptedParse(log);
    if TextAt(p, KOfferId).Some? && TextAt(p, KSeller).Some? {
      var id, x := TextAt(p, KOfferId).value, TextAt(p, KSeller).value;
      if StandingOffer(env, log, id, x, now) {
        var k :| 0 <= k < |log| && IsStanding(env, log[k], id, x, now);
        assert Parses(log[k]);
        var o := ParseOffer(log[k].payload).value;
        assert OfferEvent(log, k, o);
        RecordedIsSent(log, o);
        FoundInOffers(s.offers, o);
      }
      if FindOfferOf(s.offers, id, x).Some? {
        var o := FindOfferOf(s.offers, id, x).value;
        FoundOfferOf(s.offers, id, x);
        RecordedIsSent(log, o);
        var k :| OfferEvent(log, k, o);
        assert IsStanding(env, log[k], id, x, now) <==> !Reached(env, now, o.validUntil);
      }
    }
  }

  /** The quote of an offer found can always be built, and its price is the offer's. */
  lemma {:induction false} BuildsQuote(env: Env, s: Session, a: Action)
    requires SessionOk(env, s) && a.request.Accept?
    ensures var p := a.request.envelope.payload;
            TextAt(p, KOfferId).Some? && TextAt(p, KSeller).Some?
            && FindOfferOf(s.offers, TextAt(p, KOfferId).value, TextAt(p, KSeller).value).Some? ==>
              var q := BuildQuote(env, s, TextAt(p, KOfferId).value, a.t.built, a.request.quoteId, a.request.nonce);
              && HasOfferFrom(s.offers, TextAt(p, KSeller).value) && q.Some? && TextAt(q.value, KFinalPrice).Some?
              && PositiveAmount(TextAt(q.value, KFinalPrice).value)
  {
    var p := a.request.envelope.payload;
    if TextAt(p, KOfferId).Some? && TextAt(p, KSeller).Some? {
      FoundIsFirst(env, s, p);
      hide FindOffer, FindOfferOf, PositiveAmount, HasOfferFrom, QuoteDoc;
      var o := FindOffer(s.offers, TextAt(p, KOfferId).value);
      var expiry := QuoteExpiry(env, s.rfq.deadline, a.t.built);
      if o.Some? && expiry.Some? {
        QuoteDocFields(env, s.rfq, o.value, expiry.value, a.request.quoteId, a.request.nonce);
      }
    }
  }

  /** Whether a settlement is due, from what the two reads show. */
  lemma {:induction false} SettleIff(env: Env, log: seq<Event>, seen: nat, pre: Session, s: Session,
                                     quoteId: Option<string>)
    requires Reads(env, log, seen, pre, s)
    ensures pre.state == Committed ==> pre.unsignedQuote.Some?
    ensures SettleDue(log, seen, quoteId) <==> pre.state == Committed && !QuoteDiffers(pre, quoteId) && !Settled(log)
  {
    hide Derive, BooksView, SessionOk, Happened, CurrentQuote, Settled, Over, Pending, Bargaining;
    SettledIsHappened(log);
    if pre.state == Committed {
      QuoteHasId(env, s);
      QuoteIdTested(log, s, quoteId);
    }
  }

  lemma {:induction false} QuoteIdTested(log: seq<Event>, s: Session, quoteId: Option<string>)
    requires CycleView(log, s) && s.unsignedQuote.Some? && TextAt(s.unsignedQuote.value, KQuoteId).Some?
    ensures (exists q :: CurrentQuote(log, q) && TextAt(q, KQuoteId) in {Some(""), quoteId}) <==>
            !QuoteDiffers(s, quoteId)
  {
    hide CurrentQuote, Phases, CurrentSeller, OfferedBy, HasOfferFrom, SelectedAt, BuyerSigned;
    assert CurrentQuote(log, s.unsignedQuote.value);
  }

  lemma {:induction false} ReporterIff(env: Env, log: seq<Event>, seen: nat, pre: Session, s: Session, reporter: string)
    requires Reads(env, log, seen, pre, s) && pre.state == Committed
    ensures pre.selectedSeller == Some(reporter) <==> CurrentSeller(log, reporter)
  {
    hide Derive, BooksView, SessionOk, CurrentSeller;
  }

  lemma {:induction false} FoundIsFirstRead(env: Env, log: seq<Event>, pre: Session, s: Session, a: Action)
    requires a.request.Accept? && Reads(env, log, a.seen, pre, s) && DecideAccept(env, pre, s, a).Append?
    ensures var p := a.request.envelope.payload;
            && TextAt(p, KOfferId).Some? && TextAt(p, KSeller).Some?
            && FindOffer(s.offers, TextAt(p, KOfferId).value).Some?
            && FindOffer(s.offers, TextAt(p, KOfferId).value).value.seller == TextAt(p, KSeller).value
  {
    hide FindOfferOf, FindOffer, PositiveAmount, BuildQuote, BooksView, CycleView, SessionOk, Derive;
    FoundIsFirst(env, s, a.request.envelope.payload);
  }

  lemma {:induction false} WinnerApplies(s: Session, e: Event, seller: string, id: string)
    requires s.state == Negotiating && e.ty == WinnerSelected && e.actor == s.rfq.buyer
    requires TextAt(e.payload, KSeller) == Some(seller) && TextAt(e.payload, KOfferId) == Some(id)
    requires FindOffer(s.offers, id).Some? && FindOffer(s.offers, id).value.seller == seller
    ensures Apply(s, e).Live?
  {
  }

  lemma {:induction false} CommittedRead(env: Env, log: seq<Event>, seen: nat, pre: Session, s: Session)
    requires Reads(env, log, seen, pre, s) && pre.state == Committed
    ensures s.state == Committed
  {
    hide Derive, BooksView, CycleView, SessionOk;
  }

  lemma {:induction false} SelectedRead(env: Env, log: seq<Event>, seen: nat, pre: Session, s: Session)
    requires Reads(env, log, seen, pre, s)
    ensures s.state == CommitPending ==> s.selectedSeller.Some?
  {
    hide Derive, BooksView, SessionOk, Phases, CurrentSeller, CurrentQuote, BuyerSigned, OfferedBy, HasOfferFrom;
  }

  lemma {:induction false} RollbackApplies(s: Session, e: Event)
    requires s.state == CommitPending && e.ty == CosignDeclined && s.selectedSeller == Some(e.actor)
    requires TextAt(e.payload, KSeller) == s.selectedSeller
    ensures Apply(s, e).Live?
  {
  }

  lemma {:induction false} SettlementApplies(s: Session, e: Event)
    requires s.state == Committed && e.ty == SettlementConfirmed
    ensures Apply(s, e).Live?
  {
  }

  lemma {:induction false} SignatureApplies(s: Session, e: Event)
    requires s.state == CommitPending && e.ty == QuoteSigned && e.actor == s.rfq.buyer && s.selectedSeller.Some?
    requires TextAt(e.payload, KSeller) == s.selectedSeller && TextAt(e.payload, KBuyerSignature).Some?
    ensures Apply(s, e).Live?
  {
  }

  lemma {:induction false} ExpiryApplies(s: Session, e: Event)
    requires !Terminal(s.state) && e.ty == NegotiationExpired
    ensures Apply(s, e).Live?
  {
  }

  // ---- Route by route ----

  lemma {:induction false} OfferDecides(env: Env, log: seq<Event>, pre: Session, s: Session, a: Action)
    requires a.request.SubmitOffer? && a.t.Ordered() && Reads(env, log, a.seen, pre, s)
    ensures DecideFor(env, pre, s, log, a).Append? <==> OfferDue(env, log, a)
  {
    hide Derive, Over, Bargaining, Pending, Happened, Selecting, PositiveAmount, SessionOk, OfferedBy, CurrentSeller;
    hide CurrentQuote, BuyerSigned, SelectedAt, OfferNamed, CounterNamed, RoundsBelow, CountType, CountFor, HasOfferId;
    hide HasCounterId, HasOfferFrom, MaxRound, OfferPayload, CounterPayload;
  }

  lemma {:induction false} OfferPasses(env: Env, log: seq<Event>, pre: Session, s: Session, a: Action)
    requires a.request.SubmitOffer? && Reads(env, log, a.seen, pre, s) && DecideFor(env, pre, s, log, a).Append?
    ensures Apply(s, NewEvent(a, DecideFor(env, pre, s, log, a))).Live?
  {
    hide Reads, Derive, PositiveAmount, OfferPayload, HasOfferId, ParseOffer;
    OfferPayloadParses(a.request, a.rfqId);
  }

  lemma {:induction false} CounterDecides(env: Env, log: seq<Event>, pre: Session, s: Session, a: Action)
    requires a.request.SendCounter? && a.t.Ordered() && Reads(env, log, a.seen, pre, s)
    ensures DecideFor(env, pre, s, log, a).Append? <==> CounterDue(env, log, a)
  {
    hide Derive, Over, Bargaining, Pending, Happened, Selecting, PositiveAmount, SessionOk, OfferedBy, CurrentSeller;
    hide CurrentQuote, BuyerSigned, SelectedAt, OfferNamed, CounterNamed, RoundsBelow, CountType, CountFor, HasOfferId;
    hide HasCounterId, HasOfferFrom, MaxRound, OfferPayload, CounterPayload;
    OfferedStays(log, a.seen, a.request.recipient);
  }

  lemma {:induction false} CounterPasses(env: Env, log: seq<Event>, pre: Session, s: Session, a: Action)
    requires a.request.SendCounter? && Reads(env, log, a.seen, pre, s) && DecideFor(env, pre, s, log, a).Append?
    ensures Apply(s, NewEvent(a, DecideFor(env, pre, s, log, a))).Live?
  {
    hide Derive, PositiveAmount, CounterPayload, HasCounterId, ParseCounter, BooksView, CycleView, SessionOk, MaxRound;
    CounterPayloadParses(a.request, a.rfqId);
  }

  lemma {:induction false} DeclineDecides(env: Env, log: seq<Event>, pre: Session, s: Session, a: Action)
    requires a.request.Decline? && a.t.Ordered() && Reads(env, log, a.seen, pre, s)
    ensures DecideFor(env, pre, s, log, a).Append? <==> DeclineDue(env, log, a)
  {
    hide Derive, Over, Bargaining, Pending, Happened, Selecting, PositiveAmount, SessionOk, OfferedBy, CurrentSeller;
    hide CurrentQuote, BuyerSigned, SelectedAt, OfferNamed, CounterNamed, RoundsBelow, CountType, CountFor, HasOfferId;
    hide HasCounterId, HasOfferFrom, MaxRound, OfferPayload, CounterPayload;
  }

  lemma {:induction false} DeclinePasses(env: Env, log: seq<Event>, pre: Session, s: Session, a: Action)
    requires a.request.Decline? && Reads(env, log, a.seen, pre, s) && DecideFor(env, pre, s, log, a).Append?
    ensures Apply(s, NewEvent(a, DecideFor(env, pre, s, log, a))).Live?
  {
    hide Reads, Reached, EnvelopeBinds, Apply;
    var o := DecideFor(env, pre, s, log, a);
    assert s.selectedSeller == Some(o.actor) && TextAt(o.payload, KSeller) == s.selectedSeller;
    RollbackApplies(s, NewEvent(a, o));
  }

  lemma {:induction false} ExpireDecides(env: Env, log: seq<Event>, pre: Session, s: Session, a: Action)
    requires a.request.Expire? && a.t.Ordered() && Reads(env, log, a.seen, pre, s)
    ensures DecideFor(env, pre, s, log, a).Append? <==> ExpireDue(env, log, a)
  {
    hide Derive, Over, Bargaining, Pending, Happened, Selecting, PositiveAmount, SessionOk, OfferedBy, CurrentSeller;
    hide CurrentQuote, BuyerSigned, SelectedAt, OfferNamed, CounterNamed, RoundsBelow, CountType, CountFor, HasOfferId;
    hide HasCounterId, HasOfferFrom, MaxRound, OfferPayload, CounterPayload;
  }

  lemma {:induction false} ExpirePasses(env: Env, log: seq<Event>, pre: Session, s: Session, a: Action)
    requires a.request.Expire? && Reads(env, log, a.seen, pre, s) && DecideFor(env, pre, s, log, a).Append?
    ensures Apply(s, NewEvent(a, DecideFor(env, pre, s, log, a))).Live?
  {
    hide Reads, Reached, Apply;
    ExpiryApplies(s, NewEvent(a, DecideFor(env, pre, s, log, a)));
  }

  lemma {:induction false} TimeoutDecides(env: Env, log: seq<Event>, pre: Session, s: Session, a: Action)
    requires a.request.TimeOutCosign? && a.t.Ordered() && Reads(env, log, a.seen, pre, s)
    ensures DecideFor(env, pre, s, log, a).Append? <==> TimeoutDue(env, log, a)
  {
    hide Derive, Over, Bargaining, Pending, Happened, Selecting, PositiveAmount, SessionOk, OfferedBy, CurrentSeller;
    hide CurrentQuote, BuyerSigned, SelectedAt, OfferNamed, CounterNamed, RoundsBelow, CountType, CountFor, HasOfferId;
    hide HasCounterId, HasOfferFrom, MaxRound, OfferPayload, CounterPayload;
  }

  lemma {:induction false} TimeoutPasses(env: Env, log: seq<Event>, pre: Session, s: Session, a: Action)
    requires a.request.TimeOutCosign? && Reads(env, log, a.seen, pre, s) && DecideFor(env, pre, s, log, a).Append?
    ensures Apply(s, NewEvent(a, DecideFor(env, pre, s, log, a))).Live?
  {
    hide Derive, BooksView, CycleView, SessionOk, Reached, CosignTimeoutMs;
  }

  lemma {:induction false} SignDecides(env: Env, log: seq<Event>, pre: Session, s: Session, a: Action)
    requires a.request.SignQuote? && a.t.Ordered() && Reads(env, log, a.seen, pre, s)
    ensures DecideFor(env, pre, s, log, a).Append? <==> SignDue(env, log, a)
  {
    hide Derive, Over, Bargaining, Pending, Happened, Selecting, PositiveAmount, SessionOk, OfferedBy, CurrentSeller;
    hide CurrentQuote, BuyerSigned, SelectedAt, OfferNamed, CounterNamed, RoundsBelow, CountType, CountFor, HasOfferId;
    hide HasCounterId, HasOfferFrom, MaxRound, OfferPayload, CounterPayload;
    hide Signs, QuoteOver;
    SignsIff(env, log, s, s.rfq.buyer, a.request.signature, a.t.checked);
  }

  lemma {:induction false} SignPasses(env: Env, log: seq<Event>, pre: Session, s: Session, a: Action)
    requires a.request.SignQuote? && Reads(env, log, a.seen, pre, s) && DecideFor(env, pre, s, log, a).Append?
    ensures Apply(s, NewEvent(a, DecideFor(env, pre, s, log, a))).Live?
  {
    hide Reads, QuoteOver, Reached, Apply;
    SelectedRead(env, log, a.seen, pre, s);
    var o := DecideFor(env, pre, s, log, a);
    assert TextAt(o.payload, KSeller) == s.selectedSeller && TextAt(o.payload, KBuyerSignature).Some?;
    SignatureApplies(s, NewEvent(a, o));
  }

  lemma {:induction false} CosignDecides(env: Env, log: seq<Event>, pre: Session, s: Session, a: Action)
    requires a.request.Cosign? && a.t.Ordered() && Reads(env, log, a.seen, pre, s)
    ensures DecideFor(env, pre, s, log, a).Append? <==> CosignDue(env, log, a)
  {
    hide Derive, Over, Bargaining, Pending, Happened, Selecting, PositiveAmount, SessionOk, OfferedBy, CurrentSeller;
    hide CurrentQuote, BuyerSigned, SelectedAt, OfferNamed, CounterNamed, RoundsBelow, CountType, CountFor, HasOfferId;
    hide HasCounterId, HasOfferFrom, MaxRound, OfferPayload, CounterPayload;
  }

  lemma {:induction false} CosignPasses(env: Env, log: seq<Event>, pre: Session, s: Session, a: Action)
    requires a.request.Cosign? && Reads(env, log, a.seen, pre, s) && DecideFor(env, pre, s, log, a).Append?
    ensures Apply(s, NewEvent(a, DecideFor(env, pre, s, log, a))).Live?
  {
    hide Reads, Derive, QuoteOver;
  }

  lemma {:induction false} ExecuteDecides(env: Env, log: seq<Event>, pre: Session, s: Session, a: Action)
    requires a.request.Execute? && a.t.Ordered() && Reads(env, log, a.seen, pre, s)
    ensures DecideFor(env, pre, s, log, a).Append? <==> ExecuteDue(log, a)
  {
    hide Reads, SettleDue, QuoteDiffers, Settled;
    SettleIff(env, log, a.seen, pre, s, TextAt(a.request.quote, KQuoteId));
  }

  lemma {:induction false} ExecutePasses(env: Env, log: seq<Event>, pre: Session, s: Session, a: Action)
    requires a.request.Execute? && Reads(env, log, a.seen, pre, s) && DecideFor(env, pre, s, log, a).Append?
    ensures Apply(s, NewEvent(a, DecideFor(env, pre, s, log, a))).Live?
  {
    hide Reads, Settled, QuoteDiffers, Apply, SettlementRecord;
    CommittedRead(env, log, a.seen, pre, s);
    SettlementApplies(s, NewEvent(a, DecideFor(env, pre, s, log, a)));
  }

  lemma {:induction false} ReportDecides(env: Env, log: seq<Event>, pre: Session, s: Session, a: Action)
    requires a.request.ReportSettlement? && a.t.Ordered() && Reads(env, log, a.seen, pre, s)
    ensures DecideFor(env, pre, s, log, a).Append? <==> ReportDue(log, a)
  {
    hide Reads, SettleDue, QuoteDiffers, Settled;
    SettleIff(env, log, a.seen, pre, s, Some(a.request.quoteId));
    if pre.state == Committed { ReporterIff(env, log, a.seen, pre, s, a.request.reporter); }
  }

  lemma {:induction false} ReportPasses(env: Env, log: seq<Event>, pre: Session, s: Session, a: Action)
    requires a.request.ReportSettlement? && Reads(env, log, a.seen, pre, s) && DecideFor(env, pre, s, log, a).Append?
    ensures Apply(s, NewEvent(a, DecideFor(env, pre, s, log, a))).Live?
  {
    hide Reads, Settled, QuoteDiffers, Apply, SettlementRecord;
    CommittedRead(env, log, a.seen, pre, s);
    SettlementApplies(s, NewEvent(a, DecideFor(env, pre, s, log, a)));
  }

  lemma {:induction false} AcceptDecides(env: Env, log: seq<Event>, pre: Session, s: Session, a: Action)
    requires a.request.Accept? && a.t.Ordered() && Reads(env, log, a.seen, pre, s)
    ensures DecideFor(env, pre, s, log, a).Append? <==> AcceptDue(env, log, a)
  {
    hide Derive, Over, Bargaining, Pending, Happened, Selecting, PositiveAmount, SessionOk, OfferedBy, CurrentSeller;
    hide CurrentQuote, BuyerSigned, SelectedAt, OfferNamed, CounterNamed, RoundsBelow, CountType, CountFor, HasOfferId;
    hide HasCounterId, HasOfferFrom, MaxRound, OfferPayload, CounterPayload;
    hide StandingOffer, FindOfferOf, FindOffer, BuildQuote;
    StandingIff(env, log, s, a.request.envelope.payload, a.t.checked);
    BuildsQuote(env, s, a);
    OffersHappened(log);
    assert IsBuyer(log, s.rfq.buyer);
  }

  lemma {:induction false} AcceptPasses(env: Env, log: seq<Event>, pre: Session, s: Session, a: Action)
    requires a.request.Accept? && Reads(env, log, a.seen, pre, s) && DecideFor(env, pre, s, log, a).Append?
    ensures Apply(s, NewEvent(a, DecideFor(env, pre, s, log, a))).Live?
  {
    hide Reads, Apply, FindOfferOf, FindOffer, PositiveAmount, BuildQuote, Reached, HasOfferFrom;
    FoundIsFirstRead(env, log, pre, s, a);
    var p := a.request.envelope.payload;
    WinnerApplies(s, NewEvent(a, DecideFor(env, pre, s, log, a)), TextAt(p, KSeller).value, TextAt(p, KOfferId).value);
  }

  // ---- The laws ----

  /** An RFQ is created exactly if none is there, its deadline is ahead, its price positive and its id new. */
  lemma {:induction false} CreateLaw(env: Env, actions: seq<Action>, a: Action)
    requires env.Valid() && a.request.CreateRfq?
    ensures Appends(env, Run(env, actions), a) <==>
            && a.t.Ordered() && a.seen <= |LogOf(Run(env, actions), a.rfqId)| && FreshId(Run(env, actions), a.eventId)
            && CreateDue(env, LogOf(Run(env, actions), a.rfqId), a)
  {
    hide Run, PositiveAmount, RfqPayload, FreshId;
    var log := LogOf(Run(env, actions), a.rfqId);
    if a.t.Ordered() && a.seen <= |log| && DecideCreate(env, log, a).Append? { CreatePasses(env, a); }
  }

  lemma {:induction false} CreatePasses(env: Env, a: Action)
    requires a.request.CreateRfq? && DecideCreate(env, [], a).Append?
    ensures Accepted([] + [NewEvent(a, DecideCreate(env, [], a))])
  {
    var e := NewEvent(a, DecideCreate(env, [], a));
    CreatePayloadParses(env, a);
    FirstDerives(e);
    assert [] + [e] == [e];
    hide Derive, ParseRfq;
  }

  /**
   An offer is appended exactly if its currency, price, validity and endpoint are right, the deadline has not passed,
   nobody is selected, its id is new and both caps leave room.
   */
  lemma {:induction false} OfferLaw(env: Env, actions: seq<Action>, a: Action)
    requires env.Valid() && a.request.SubmitOffer?
    ensures Appends(env, Run(env, actions), a) <==>
            Ready(Run(env, actions), a) && OfferDue(env, LogOf(Run(env, actions), a.rfqId), a)
  {
    hide Run, Derive, DecideFor, Apply, Reads, Appends, OfferDue, FreshId;
    var log := LogOf(Run(env, actions), a.rfqId);
    if a.seen <= |log| && a.t.Ordered() && Accepted(log) && Accepted(log[..a.seen]) {
      var pre, s := Derive(log[..a.seen]).s, Derive(log).s;
      if Reads(env, log, a.seen, pre, s) {
        OfferDecides(env, log, pre, s, a);
        if DecideFor(env, pre, s, log, a).Append? { OfferPasses(env, log, pre, s, a); }
      }
    }
    LawOf(env, actions, a, a.seen <= |log| && OfferDue(env, log, a));
  }

  /**
   A counter is appended exactly if it is the buyer's, to a seller who had offered when read, in the currency, of a
   positive amount, in time, with a new id and a round above every earlier one, while nobody is selected.
   */
  lemma {:induction false} CounterLaw(env: Env, actions: seq<Action>, a: Action)
    requires env.Valid() && a.request.SendCounter?
    ensures Appends(env, Run(env, actions), a) <==>
            Ready(Run(env, actions), a) && CounterDue(env, LogOf(Run(env, actions), a.rfqId), a)
  {
    hide Run, Derive, DecideFor, Apply, Reads, Appends, CounterDue, FreshId;
    var log := LogOf(Run(env, actions), a.rfqId);
    if a.seen <= |log| && a.t.Ordered() && Accepted(log) && Accepted(log[..a.seen]) {
      var pre, s := Derive(log[..a.seen]).s, Derive(log).s;
      if Reads(env, log, a.seen, pre, s) {
        CounterDecides(env, log, pre, s, a);
        if DecideFor(env, pre, s, log, a).Append? { CounterPasses(env, log, pre, s, a); }
      }
    }
    LawOf(env, actions, a, a.seen <= |log| && CounterDue(env, log, a));
  }

  /**
   An accept is appended exactly if the buyer signed its envelope for this very log, the offer stands, nobody is
   selected, the deadline has not passed and both accept limits leave room.
   */
  lemma {:induction false} AcceptLaw(env: Env, actions: seq<Action>, a: Action)
    requires env.Valid() && a.request.Accept?
    ensures Appends(env, Run(env, actions), a) <==>
            Ready(Run(env, actions), a) && AcceptDue(env, LogOf(Run(env, actions), a.rfqId), a)
  {
    hide Run, Derive, DecideFor, Apply, Reads, Appends, AcceptDue, FreshId;
    var log := LogOf(Run(env, actions), a.rfqId);
    if a.seen <= |log| && a.t.Ordered() && Accepted(log) && Accepted(log[..a.seen]) {
      var pre, s := Derive(log[..a.seen]).s, Derive(log).s;
      if Reads(env, log, a.seen, pre, s) {
        AcceptDecides(env, log, pre, s, a);
        if DecideFor(env, pre, s, log, a).Append? { AcceptPasses(env, log, pre, s, a); }
      }
    }
    LawOf(env, actions, a, a.seen <= |log| && AcceptDue(env, log, a));
  }

  /**
   A buyer's signature is appended exactly if a selection waits for it and it is the buyer's on the current,
   unexpired quote, before the deadline.
   */
  lemma {:induction false} SignLaw(env: Env, actions: seq<Action>, a: Action)
    requires env.Valid() && a.request.SignQuote?
    ensures Appends(env, Run(env, actions), a) <==>
            Ready(Run(env, actions), a) && SignDue(env, LogOf(Run(env, actions), a.rfqId), a)
  {
    hide Run, Derive, DecideFor, Apply, Reads, Appends, SignDue, FreshId;
    var log := LogOf(Run(env, actions), a.rfqId);
    if a.seen <= |log| && a.t.Ordered() && Accepted(log) && Accepted(log[..a.seen]) {
      var pre, s := Derive(log[..a.seen]).s, Derive(log).s;
      if Reads(env, log, a.seen, pre, s) {
        SignDecides(env, log, pre, s, a);
        if DecideFor(env, pre, s, log, a).Append? { SignPasses(env, log, pre, s, a); }
      }
    }
    LawOf(env, actions, a, a.seen <= |log| && SignDue(env, log, a));
  }

  /**
   A commit is appended exactly if the buyer has signed and this is the selected seller's signature on the current,
   unexpired quote, before the deadline.
   */
  lemma {:induction false} CosignLaw(env: Env, actions: seq<Action>, a: Action)
    requires env.Valid() && a.request.Cosign?
    ensures Appends(env, Run(env, actions), a) <==>
            Ready(Run(env, actions), a) && CosignDue(env, LogOf(Run(env, actions), a.rfqId), a)
  {
    hide Run, Derive, DecideFor, Apply, Reads, Appends, CosignDue, FreshId;
    var log := LogOf(Run(env, actions), a.rfqId);
    if a.seen <= |log| && a.t.Ordered() && Accepted(log) && Accepted(log[..a.seen]) {
      var pre, s := Derive(log[..a.seen]).s, Derive(log).s;
      if Reads(env, log, a.seen, pre, s) {
        CosignDecides(env, log, pre, s, a);
        if DecideFor(env, pre, s, log, a).Append? { CosignPasses(env, log, pre, s, a); }
      }
    }
    LawOf(env, actions, a, a.seen <= |log| && CosignDue(env, log, a));
  }

  /**
   A decline is appended exactly if the seller selected at both reads signed its envelope for this very log before
   the deadline.
   */
  lemma {:induction false} DeclineLaw(env: Env, actions: seq<Action>, a: Action)
    requires env.Valid() && a.request.Decline?
    ensures Appends(env, Run(env, actions), a) <==>
            Ready(Run(env, actions), a) && DeclineDue(env, LogOf(Run(env, actions), a.rfqId), a)
  {
    hide Run, Derive, DecideFor, Apply, Reads, Appends, DeclineDue, FreshId;
    var log := LogOf(Run(env, actions), a.rfqId);
    if a.seen <= |log| && a.t.Ordered() && Accepted(log) && Accepted(log[..a.seen]) {
      var pre, s := Derive(log[..a.seen]).s, Derive(log).s;
      if Reads(env, log, a.seen, pre, s) {
        DeclineDecides(env, log, pre, s, a);
        if DecideFor(env, pre, s, log, a).Append? { DeclinePasses(env, log, pre, s, a); }
      }
    }
    LawOf(env, actions, a, a.seen <= |log| && DeclineDue(env, log, a));
  }

  /**
   An expiry is appended exactly if the session was live at both reads and the deadline had passed at the first.
   */
  lemma {:induction false} ExpireLaw(env: Env, actions: seq<Action>, a: Action)
    requires env.Valid() && a.request.Expire?
    ensures Appends(env, Run(env, actions), a) <==>
            Ready(Run(env, actions), a) && ExpireDue(env, LogOf(Run(env, actions), a.rfqId), a)
  {
    hide Run, Derive, DecideFor, Apply, Reads, Appends, ExpireDue, FreshId;
    var log := LogOf(Run(env, actions), a.rfqId);
    if a.seen <= |log| && a.t.Ordered() && Accepted(log) && Accepted(log[..a.seen]) {
      var pre, s := Derive(log[..a.seen]).s, Derive(log).s;
      if Reads(env, log, a.seen, pre, s) {
        ExpireDecides(env, log, pre, s, a);
        if DecideFor(env, pre, s, log, a).Append? { ExpirePasses(env, log, pre, s, a); }
      }
    }
    LawOf(env, actions, a, a.seen <= |log| && ExpireDue(env, log, a));
  }

  /**
   A cosign timeout is appended exactly if the selection was old enough at both reads and the deadline was ahead.
   */
  lemma {:induction false} TimeoutLaw(env: Env, actions: seq<Action>, a: Action)
    requires env.Valid() && a.request.TimeOutCosign?
    ensures Appends(env, Run(env, actions), a) <==>
            Ready(Run(env, actions), a) && TimeoutDue(env, LogOf(Run(env, actions), a.rfqId), a)
  {
    hide Run, Derive, DecideFor, Apply, Reads, Appends, TimeoutDue, FreshId;
    var log := LogOf(Run(env, actions), a.rfqId);
    if a.seen <= |log| && a.t.Ordered() && Accepted(log) && Accepted(log[..a.seen]) {
      var pre, s := Derive(log[..a.seen]).s, Derive(log).s;
      if Reads(env, log, a.seen, pre, s) {
        TimeoutDecides(env, log, pre, s, a);
        if DecideFor(env, pre, s, log, a).Append? { TimeoutPasses(env, log, pre, s, a); }
      }
    }
    LawOf(env, actions, a, a.seen <= |log| && TimeoutDue(env, log, a));
  }

  /**
   A settlement is recorded by /execute exactly if the session was committed when read, has no settlement yet, and
   the quote names this session and the committed quote's id.
   */
  lemma {:induction false} ExecuteLaw(env: Env, actions: seq<Action>, a: Action)
    requires env.Valid() && a.request.Execute?
    ensures Appends(env, Run(env, actions), a) <==>
            Ready(Run(env, actions), a) && ExecuteDue(LogOf(Run(env, actions), a.rfqId), a)
  {
    hide Run, Derive, DecideFor, Apply, Reads, Appends, ExecuteDue, FreshId;
    var log := LogOf(Run(env, actions), a.rfqId);
    if a.seen <= |log| && a.t.Ordered() && Accepted(log) && Accepted(log[..a.seen]) {
      var pre, s := Derive(log[..a.seen]).s, Derive(log).s;
      if Reads(env, log, a.seen, pre, s) {
        ExecuteDecides(env, log, pre, s, a);
        if DecideFor(env, pre, s, log, a).Append? { ExecutePasses(env, log, pre, s, a); }
      }
    }
    LawOf(env, actions, a, a.seen <= |log| && ExecuteDue(log, a));
  }

  /**
   A settlement is recorded by a report exactly if the selected seller sends it with the committed quote's id, the
   session was committed when read and has no settlement yet.
   */
  lemma {:induction false} ReportLaw(env: Env, actions: seq<Action>, a: Action)
    requires env.Valid() && a.request.ReportSettlement?
    ensures Appends(env, Run(env, actions), a) <==>
            Ready(Run(env, actions), a) && ReportDue(LogOf(Run(env, actions), a.rfqId), a)
  {
    hide Run, Derive, DecideFor, Apply, Reads, Appends, ReportDue, FreshId;
    var log := LogOf(Run(env, actions), a.rfqId);
    if a.seen <= |log| && a.t.Ordered() && Accepted(log) && Accepted(log[..a.seen]) {
      var pre, s := Derive(log[..a.seen]).s, Derive(log).s;
      if Reads(env, log, a.seen, pre, s) {
        ReportDecides(env, log, pre, s, a);
        if DecideFor(env, pre, s, log, a).Append? { ReportPasses(env, log, pre, s, a); }
      }
    }
    LawOf(env, actions, a, a.seen <= |log| && ReportDue(log, a));
  }
}
