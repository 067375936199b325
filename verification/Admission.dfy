/**
 Which logs the reducer accepts, said of the raw log alone: no state, no transition table, no fold. Every event of
 an accepted log was admitted by the events before it, and nothing else is refused.
 */
module Admission {
  import opened Protocol
  import opened Reducer
  import opened ReducerHistory

  predicate Happened(log: seq<Event>, ty: EventType) {
    exists i :: 0 <= i < |log| && log[i].ty == ty
  }

  /** Committed, expired or cancelled. */
  predicate Over(log: seq<Event>) {
    Happened(log, QuoteCommitted) || Happened(log, NegotiationExpired) || Happened(log, NegotiationCancelled)
  }

  /** A seller is selected: an accept cycle is current. */
  ghost predicate Selecting(log: seq<Event>) {
    exists w :: CurrentWinner(log, w)
  }

  /** The offers and counters phase. */
  ghost predicate Bargaining(log: seq<Event>) {
    !Over(log) && !Selecting(log)
  }

  /** Waiting for the two signatures. */
  ghost predicate Pending(log: seq<Event>) {
    !Over(log) && Selecting(log)
  }

  predicate HasTexts(p: Payload, keys: set<Key>) {
    forall k :: k in keys ==> TextAt(p, k).Some?
  }

  const RFQ_TEXTS := {KBuyer, KRfqId, KAnchorPrice, KCurrency, KDeadline, KServiceType}
  const OFFER_TEXTS := {KOfferId, KSeller, KPrice, KCurrency, KValidUntil, KListingId, KPaymentEndpoint}
  const COUNTER_TEXTS := {KCounterId, KFrom, KTo, KPrice}

  /** The request's buyer did it. */
  predicate ByBuyer(log: seq<Event>, e: Event) {
    log != [] && TextAt(log[0].payload, KBuyer) == Some(e.actor)
  }

  /** Some offer in the log is from this seller. */
  predicate OfferedBy(log: seq<Event>, seller: string) {
    exists i :: 0 <= i < |log| && log[i].ty == OfferSubmitted && TextAt(log[i].payload, KSeller) == Some(seller)
  }

  predicate OfferAt(log: seq<Event>, k: nat, id: string) {
    k < |log| && log[k].ty == OfferSubmitted && TextAt(log[k].payload, KOfferId) == Some(id)
  }

  /** The first offer with this id. */
  ghost predicate FirstOfferAt(log: seq<Event>, k: nat, id: string) {
    OfferAt(log, k, id) && forall j: nat :: j < k ==> !OfferAt(log, j, id)
  }

  /** The first offer with this id is from this seller. */
  ghost predicate FirstOfferFrom(log: seq<Event>, id: string, seller: string) {
    exists k: nat :: FirstOfferAt(log, k, id) && TextAt(log[k].payload, KSeller) == Some(seller)
  }

  /** The seller selected in the current cycle. */
  ghost predicate CurrentSeller(log: seq<Event>, seller: string) {
    exists w: nat :: CurrentWinner(log, w) && TextAt(log[w].payload, KSeller) == Some(seller)
  }

  /** The event selects an offer of the log and names the seller who made it. */
  ghost predicate SelectsOffer(log: seq<Event>, e: Event) {
    && HasTexts(e.payload, {KSeller, KOfferId})
    && FirstOfferFrom(log, TextAt(e.payload, KOfferId).value, TextAt(e.payload, KSeller).value)
  }

  /** The event names the seller now selected. */
  ghost predicate NamesCurrent(log: seq<Event>, e: Event) {
    TextAt(e.payload, KSeller).Some? && CurrentSeller(log, TextAt(e.payload, KSeller).value)
  }

  /** What the events so far let happen next. */
  ghost predicate Admitted(log: seq<Event>, e: Event) {
    match e.ty
    case RfqCreated => log == [] && HasTexts(e.payload, RFQ_TEXTS)
    case OfferSubmitted =>
      && log != [] && Bargaining(log)
      && HasTexts(e.payload, OFFER_TEXTS) && TextAt(e.payload, KSeller) == Some(e.actor)
    case CounterSent =>
      && log != [] && Bargaining(log)
      && HasTexts(e.payload, COUNTER_TEXTS) && NumberAt(e.payload, KRound).Some?
      && ByBuyer(log, e) && TextAt(e.payload, KFrom) == Some(e.actor)
      && OfferedBy(log, TextAt(e.payload, KTo).value)
    case WinnerSelected => log != [] && Bargaining(log) && ByBuyer(log, e) && SelectsOffer(log, e)
    case CommitMarker => Pending(log)
    case QuoteSigned =>
      Pending(log) && NamesCurrent(log, e) && ByBuyer(log, e) && TextAt(e.payload, KBuyerSignature).Some?
    case QuoteCommitted =>
      && Pending(log) && NamesCurrent(log, e) && TextAt(e.payload, KSeller) == Some(e.actor)
      && TextAt(e.payload, KSellerSignature).Some?
    case CosignDeclined => Pending(log) && NamesCurrent(log, e) && TextAt(e.payload, KSeller) == Some(e.actor)
    case CosignTimeout => Pending(log) && NamesCurrent(log, e)
    case NegotiationExpired => log != [] && !Over(log)
    case NegotiationCancelled => log != [] && Bargaining(log)
    case SettlementConfirmed => Happened(log, QuoteCommitted)
  }

  // ---- The state of a session, from the raw log ----

  ghost predicate StateOfLog(log: seq<Event>, st: SessionState) {
    match st
    case Committed => Happened(log, QuoteCommitted)
    case Expired => Happened(log, NegotiationExpired)
    case Cancelled => Happened(log, NegotiationCancelled)
    case CommitPending => Pending(log)
    case Negotiating => Bargaining(log) && Happened(log, OfferSubmitted)
    case Open => Bargaining(log) && !Happened(log, OfferSubmitted)
  }

  /** At most one of the three endings happened, and nobody is selected before there is an offer. */
  ghost predicate Orderly(log: seq<Event>) {
    && (Selecting(log) ==> Happened(log, OfferSubmitted))
    && !(Happened(log, QuoteCommitted) && Happened(log, NegotiationExpired))
    && !(Happened(log, QuoteCommitted) && Happened(log, NegotiationCancelled))
    && !(Happened(log, NegotiationExpired) && Happened(log, NegotiationCancelled))
  }

  lemma {:induction false} HappenedSnoc(log: seq<Event>, e: Event, ty: EventType)
    ensures Happened(log + [e], ty) <==> Happened(log, ty) || e.ty == ty
  {
    var longer := log + [e];
    assert longer[|log|] == e;
    if i :| 0 <= i < |log| && log[i].ty == ty { assert longer[i].ty == ty; }
  }

  lemma {:induction false} SelectingIsWinner(log: seq<Event>)
    ensures Selecting(log) <==> Winner(log).Some?
  {
    if Winner(log).Some? { assert CurrentWinner(log, Winner(log).value); }
  }

  lemma {:induction false} SelectingSnoc(log: seq<Event>, e: Event)
    ensures Selecting(log + [e]) <==> e.ty == WinnerSelected || (!Rollback(e.ty) && Selecting(log))
  {
    SelectingIsWinner(log);
    SelectingIsWinner(log + [e]);
    assert (log + [e])[..|log|] == log;
  }

  /** The table's moves, seen from the log. */
  lemma {:induction false} MovesMatchLog(log: seq<Event>, e: Event, s: Session)
    requires Orderly(log) && StateOfLog(log, s.state) && Apply(s, e).Live?
    ensures Orderly(log + [e]) && StateOfLog(log + [e], Apply(s, e).s.state)
  {
    NextStateOf(s, e);
    SelectingSnoc(log, e);
    forall ty ensures Happened(log + [e], ty) <==> Happened(log, ty) || e.ty == ty { HappenedSnoc(log, e, ty); }
    hide Apply, Happened, Selecting;
  }

  lemma {:induction false} NextStateOf(s: Session, e: Event)
    requires Apply(s, e).Live?
    ensures NextState(s.state, e.ty) == Some(Apply(s, e).s.state)
  {
  }

  /** An accepted log shows its state: which ending happened, if any, and whether a cycle is current. */
  lemma {:induction false} StateFromLog(log: seq<Event>)
    requires Accepted(log)
    ensures Orderly(log) && StateOfLog(log, Derive(log).s.state)
  {
    if |log| > 1 {
      LastStep(log);
      hide Derive, Apply, StateOfLog, Orderly;
      var before, e := log[..|log| - 1], log[|log| - 1];
      StateFromLog(before);
      MovesMatchLog(before, e, Derive(before).s);
    } else {
      AcceptedIsNotEmpty(log);
      assert log == [] + [log[0]];
      StartState(log[0]);
    }
  }

  lemma {:induction false} StartState(e: Event)
    requires Accepted([e])
    ensures Orderly([e]) && StateOfLog([e], Derive([e]).s.state)
  {
    assert [e][..0] == [];
    assert Derive([e]) == Create(e);
    assert forall w :: !CurrentWinner([e], w);
  }

  // ---- What the session remembers, from the raw log ----

  ghost predicate OffersParse(log: seq<Event>) {
    forall i :: 0 <= i < |log| && log[i].ty == OfferSubmitted ==> ParseOffer(log[i].payload).Some?
  }

  lemma {:induction false} AcceptedOffersParse(log: seq<Event>)
    requires Accepted(log)
    ensures OffersParse(log)
  {
    if |log| > 1 {
      LastStep(log);
      if log[|log| - 1].ty == OfferSubmitted { OfferStepParses(Derive(log[..|log| - 1]).s, log[|log| - 1]); }
      hide Derive;
      AcceptedOffersParse(log[..|log| - 1]);
    } else {
      AcceptedIsNotEmpty(log);
      assert log[..0] == [];
    }
  }

  lemma {:induction false} OfferStepParses(s: Session, e: Event)
    requires Apply(s, e).Live? && e.ty == OfferSubmitted
    ensures ParseOffer(e.payload).Some?
  {
  }

  lemma {:induction false} OfferedBySnoc(log: seq<Event>, e: Event, x: string)
    ensures OfferedBy(log + [e], x) <==>
            OfferedBy(log, x) || (e.ty == OfferSubmitted && TextAt(e.payload, KSeller) == Some(x))
  {
    var longer := log + [e];
    assert longer[|log|] == e;
    if i :| 0 <= i < |log| && log[i].ty == OfferSubmitted && TextAt(log[i].payload, KSeller) == Some(x) {
      assert longer[i] == log[i];
    }
  }

  lemma {:induction false} HasOfferSnoc(offers: seq<RecordedOffer>, more: seq<RecordedOffer>, x: string)
    requires |more| <= 1
    ensures HasOfferFrom(offers + more, x) <==> HasOfferFrom(offers, x) || (more != [] && more[0].seller == x)
  {
    var all := offers + more;
    if i :| 0 <= i < |offers| && offers[i].seller == x { assert all[i].seller == x; }
    if more != [] { assert all[|offers|] == more[0]; }
  }

  lemma {:induction false} OffererIsRecorded(log: seq<Event>, x: string)
    requires OffersParse(log)
    ensures HasOfferFrom(OffersIn(log), x) <==> OfferedBy(log, x)
  {
    if log != [] {
      var before, e := log[..|log| - 1], log[|log| - 1];
      OffererIsRecorded(before, x);
      assert log == before + [e];
      RecordsSnoc(before, e);
      OfferedBySnoc(before, e, x);
      HasOfferSnoc(OffersIn(before), OffersOf(e), x);
    }
  }

  lemma {:induction false} FindSnoc(offers: seq<RecordedOffer>, more: seq<RecordedOffer>, id: string)
    requires |more| <= 1
    ensures FindOffer(offers + more, id) ==
            if FindOffer(offers, id).Some? then FindOffer(offers, id)
            else if more != [] && more[0].offerId == id then Some(more[0]) else None
  {
    if offers == [] {
      assert offers + more == more;
    } else {
      assert (offers + more)[1..] == offers[1..] + more;
      FindSnoc(offers[1..], more, id);
    }
  }

  /** `find` by id finds the first offer of the log with that id. */
  ghost predicate FindsFirst(log: seq<Event>, offers: seq<RecordedOffer>, id: string) {
    match FindOffer(offers, id)
    case None => forall k: nat :: !OfferAt(log, k, id)
    case Some(o) => exists k: nat :: FirstOfferAt(log, k, id) && ParseOffer(log[k].payload) == Some(o)
  }

  lemma {:induction false} FindIsFirst(log: seq<Event>, id: string)
    requires OffersParse(log)
    ensures FindsFirst(log, OffersIn(log), id)
  {
    if log != [] {
      var before, e := log[..|log| - 1], log[|log| - 1];
      FindIsFirst(before, id);
      assert log == before + [e];
      RecordsSnoc(before, e);
      FindSnoc(OffersIn(before), OffersOf(e), id);
      forall k: nat
        ensures OfferAt(log, k, id) <==> if k == |before| then OfferAt(log, |before|, id) else OfferAt(before, k, id)
      {
      }
      if FindOffer(OffersIn(before), id).Some? {
        var k: nat :| FirstOfferAt(before, k, id) && ParseOffer(before[k].payload) == FindOffer(OffersIn(before), id);
        assert FirstOfferAt(log, k, id);
      } else if OffersOf(e) != [] && OffersOf(e)[0].offerId == id {
        assert FirstOfferAt(log, |before|, id);
      }
    }
  }

  lemma {:induction false} FirstIsUnique(log: seq<Event>, j: nat, k: nat, id: string)
    requires FirstOfferAt(log, j, id) && FirstOfferAt(log, k, id)
    ensures j == k
  {
  }

  lemma {:induction false} FindsFrom(log: seq<Event>, offers: seq<RecordedOffer>, id: string, seller: string)
    requires FindsFirst(log, offers, id)
    ensures FirstOfferFrom(log, id, seller) <==>
            FindOffer(offers, id).Some? && FindOffer(offers, id).value.seller == seller
  {
    hide FindOffer;
    if FindOffer(offers, id).Some? {
      var k: nat :| FirstOfferAt(log, k, id) && ParseOffer(log[k].payload) == FindOffer(offers, id);
      if j: nat :| FirstOfferAt(log, j, id) && TextAt(log[j].payload, KSeller) == Some(seller) {
        FirstIsUnique(log, j, k, id);
      }
    }
  }

  lemma {:induction false} OnlyWinner(log: seq<Event>, w: nat, v: nat)
    requires CurrentWinner(log, w) && CurrentWinner(log, v)
    ensures w == v
  {
  }

  lemma {:induction false} SelectedIsCurrent(log: seq<Event>, s: Session, x: string)
    requires FromCurrentCycle(log, s)
    ensures s.selectedSeller == Some(x) <==> CurrentSeller(log, x)
  {
    if Winner(log).Some? {
      var w := Winner(log).value;
      if v: nat :| CurrentWinner(log, v) && TextAt(log[v].payload, KSeller) == Some(x) { OnlyWinner(log, w, v); }
    }
  }

  /** All the reducer's checks look at, read off the log. */
  ghost predicate Reflects(log: seq<Event>, s: Session) {
    && log != [] && Orderly(log) && StateOfLog(log, s.state)
    && TextAt(log[0].payload, KBuyer) == Some(s.rfq.buyer)
    && (forall x :: HasOfferFrom(s.offers, x) <==> OfferedBy(log, x))
    && (forall x :: s.selectedSeller == Some(x) <==> CurrentSeller(log, x))
    && (forall id, x :: FirstOfferFrom(log, id, x) <==>
          FindOffer(s.offers, id).Some? && FindOffer(s.offers, id).value.seller == x)
  }

  lemma {:induction false} SessionReflectsLog(log: seq<Event>)
    requires Accepted(log)
    ensures Reflects(log, Derive(log).s)
  {
    hide Derive, StateOfLog, Orderly, CountsTheLog, FindOffer, OffersIn, FirstOfferFrom, FromCurrentCycle;
    hide HasOfferFrom, OfferedBy, CurrentSeller, CycleMatchesState, SelectionOnRecord, OffersParse, ParseRfq;
    var s := Derive(log).s;
    StateFromLog(log);
    SessionCountsTheLog(log);
    QuoteFieldsAreCurrent(log);
    AcceptedOffersParse(log);
    OfferersAreRecorded(log, s.offers);
    SelectedAreCurrent(log, s);
    BuyerIsNamed(log[0].payload);
  }

  lemma {:induction false} BuyerIsNamed(p: Payload)
    ensures ParseRfq(p).Some? ==> TextAt(p, KBuyer) == Some(ParseRfq(p).value.buyer)
  {
  }

  lemma {:induction false} OfferersAreRecorded(log: seq<Event>, offers: seq<RecordedOffer>)
    requires OffersParse(log) && offers == OffersIn(log)
    ensures forall x :: HasOfferFrom(offers, x) <==> OfferedBy(log, x)
    ensures forall id, x :: FirstOfferFrom(log, id, x) <==>
              FindOffer(offers, id).Some? && FindOffer(offers, id).value.seller == x
  {
    hide FindOffer, OffersIn, FirstOfferFrom, HasOfferFrom, OfferedBy, OffersParse, FindsFirst;
    forall x ensures HasOfferFrom(offers, x) <==> OfferedBy(log, x) { OffererIsRecorded(log, x); }
    forall id, x
      ensures FirstOfferFrom(log, id, x) <==> FindOffer(offers, id).Some? && FindOffer(offers, id).value.seller == x
    {
      FindIsFirst(log, id);
      FindsFrom(log, offers, id, x);
    }
  }

  lemma {:induction false} SelectedAreCurrent(log: seq<Event>, s: Session)
    requires FromCurrentCycle(log, s)
    ensures forall x :: s.selectedSeller == Some(x) <==> CurrentSeller(log, x)
  {
    hide FromCurrentCycle, CurrentSeller;
    forall x ensures s.selectedSeller == Some(x) <==> CurrentSeller(log, x) { SelectedIsCurrent(log, s, x); }
  }

  // ---- The law ----

  lemma {:induction false} ParsesIffTexts(p: Payload)
    ensures ParseRfq(p).Some? <==> HasTexts(p, RFQ_TEXTS)
    ensures ParseOffer(p).Some? <==> HasTexts(p, OFFER_TEXTS)
    ensures ParseCounter(p).Some? <==> HasTexts(p, COUNTER_TEXTS) && NumberAt(p, KRound).Some?
  {
  }

  /** Which phase of the log each state is. */
  ghost predicate Phases(log: seq<Event>, st: SessionState) {
    && log != []
    && (st == Open || st == Negotiating <==> Bargaining(log))
    && (st == Negotiating <==> Bargaining(log) && Happened(log, OfferSubmitted))
    && (st == CommitPending <==> Pending(log))
    && (st == Committed <==> Happened(log, QuoteCommitted))
    && (st == Open || st == Negotiating || st == CommitPending <==> !Over(log))
  }

  lemma {:induction false} StateIsPhase(log: seq<Event>, st: SessionState)
    requires log != [] && Orderly(log) && StateOfLog(log, st)
    ensures Phases(log, st)
  {
    hide Happened, Selecting;
  }

  lemma {:induction false} OffersHappened(log: seq<Event>)
    ensures forall x :: OfferedBy(log, x) ==> Happened(log, OfferSubmitted)
    ensures forall id, x :: FirstOfferFrom(log, id, x) ==> Happened(log, OfferSubmitted)
  {
  }

  lemma {:induction false} OfferIffAdmitted(log: seq<Event>, s: Session, e: Event)
    requires Phases(log, s.state) && e.ty == OfferSubmitted
    ensures Apply(s, e).Live? <==> Admitted(log, e)
  {
    ParsesIffTexts(e.payload);
    hide HasTexts, Over, Selecting, Happened;
  }

  lemma {:induction false} CounterIffAdmitted(log: seq<Event>, s: Session, e: Event)
    requires Reflects(log, s) && Phases(log, s.state) && e.ty == CounterSent
    ensures Apply(s, e).Live? <==> Admitted(log, e)
  {
    ParsesIffTexts(e.payload);
    OffersHappened(log);
    hide HasTexts, Over, Selecting, Happened, FirstOfferFrom, CurrentSeller, OfferedBy, FindOffer, HasOfferFrom;
    hide StateOfLog, Orderly;
  }

  lemma {:induction false} WinnerIffAdmitted(log: seq<Event>, s: Session, e: Event)
    requires Reflects(log, s) && Phases(log, s.state) && e.ty == WinnerSelected
    ensures Apply(s, e).Live? <==> Admitted(log, e)
  {
    OffersHappened(log);
    hide Over, Selecting, Happened, FirstOfferFrom, CurrentSeller, OfferedBy, FindOffer, HasOfferFrom;
    hide StateOfLog, Orderly;
  }

  lemma {:induction false} SelectionIffAdmitted(log: seq<Event>, s: Session, e: Event)
    requires Reflects(log, s) && Phases(log, s.state)
    requires Rollback(e.ty) || e.ty == QuoteSigned || e.ty == QuoteCommitted
    ensures Apply(s, e).Live? <==> Admitted(log, e)
  {
    hide Over, Selecting, Happened, FirstOfferFrom, CurrentSeller, OfferedBy, FindOffer, HasOfferFrom;
    hide StateOfLog, Orderly;
  }

  lemma {:induction false} RestIffAdmitted(log: seq<Event>, s: Session, e: Event)
    requires Phases(log, s.state)
    requires e.ty in {RfqCreated, CommitMarker, NegotiationExpired, NegotiationCancelled, SettlementConfirmed}
    ensures Apply(s, e).Live? <==> Admitted(log, e)
  {
    hide Over, Selecting, Happened;
  }

  /** A step of the reducer succeeds exactly if the log admits the event. */
  lemma {:induction false} StepIffAdmitted(log: seq<Event>, s: Session, e: Event)
    requires Reflects(log, s)
    ensures Apply(s, e).Live? <==> Admitted(log, e)
  {
    StateIsPhase(log, s.state);
    hide Apply, Admitted, Reflects, Phases;
    match e.ty
    case OfferSubmitted => OfferIffAdmitted(log, s, e);
    case CounterSent => CounterIffAdmitted(log, s, e);
    case WinnerSelected => WinnerIffAdmitted(log, s, e);
    case QuoteSigned => SelectionIffAdmitted(log, s, e);
    case QuoteCommitted => SelectionIffAdmitted(log, s, e);
    case CosignDeclined => SelectionIffAdmitted(log, s, e);
    case CosignTimeout => SelectionIffAdmitted(log, s, e);
    case _ => RestIffAdmitted(log, s, e);
  }

  /** The acceptance law: whatever was accepted so far, the next event is accepted exactly if the log admits it. */
  lemma {:induction false} AcceptedIffAdmitted(log: seq<Event>, e: Event)
    requires log == [] || Accepted(log)
    ensures Accepted(log + [e]) <==> Admitted(log, e)
  {
    DeriveSnoc(log, e);
    if log == [] {
      ParsesIffTexts(e.payload);
    } else {
      SessionReflectsLog(log);
      StepIffAdmitted(log, Derive(log).s, e);
    }
  }

  /** So a log is accepted exactly if it is not empty and each of its events was admitted by those before it. */
  lemma {:induction false} AcceptedLogs(log: seq<Event>)
    ensures Accepted(log) <==> log != [] && forall k :: 0 <= k < |log| ==> Admitted(log[..k], log[k])
  {
    if |log| > 0 {
      var before, e := log[..|log| - 1], log[|log| - 1];
      AcceptedLogs(before);
      assert log == before + [e];
      assert forall k :: 0 <= k < |before| ==> before[..k] == log[..k] && before[k] == log[k];
      if before != [] && Accepted(log) { PrefixAccepted(log, |log| - 1); }
      if before == [] || Accepted(before) { AcceptedIffAdmitted(before, e); }
    }
  }
}
