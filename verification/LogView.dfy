/** What a route reads off a session, said of the raw log. */
module LogView {
  import opened Protocol
  import opened Reducer
  import opened ReducerHistory
  import opened Routes
  import opened Admission

  predicate OfferNamed(log: seq<Event>, id: string) {
    exists k :: 0 <= k < |log| && log[k].ty == OfferSubmitted && TextAt(log[k].payload, KOfferId) == Some(id)
  }

  predicate CounterNamed(log: seq<Event>, id: string) {
    exists k :: 0 <= k < |log| && log[k].ty == CounterSent && TextAt(log[k].payload, KCounterId) == Some(id)
  }

  /** Every counter so far has a smaller round. */
  predicate RoundsBelow(log: seq<Event>, n: int) {
    forall k :: 0 <= k < |log| && log[k].ty == CounterSent && NumberAt(log[k].payload, KRound).Some? ==>
      NumberAt(log[k].payload, KRound).value < n
  }

  /** The quote stored with the current selection. */
  ghost predicate CurrentQuote(log: seq<Event>, q: Payload) {
    exists w: nat :: CurrentWinner(log, w) && DocAt(log[w].payload, KQuote) == Some(q)
  }

  /** The buyer signed since the current selection. */
  ghost predicate BuyerSigned(log: seq<Event>) {
    exists w: nat, k: nat :: CurrentWinner(log, w) && w < k < |log| && log[k].ty == QuoteSigned
  }

  predicate OfferEvent(log: seq<Event>, k: int, o: RecordedOffer) {
    0 <= k < |log| && log[k].ty == OfferSubmitted && ParseOffer(log[k].payload) == Some(o)
  }

  lemma {:induction false} RecordedIsSent(log: seq<Event>, o: RecordedOffer)
    ensures o in OffersIn(log) <==> exists k :: OfferEvent(log, k, o)
  {
    if log != [] {
      var before, e := log[..|log| - 1], log[|log| - 1];
      RecordedIsSent(before, o);
      assert log == before + [e];
      RecordsSnoc(before, e);
      if o in OffersIn(before) { var k :| OfferEvent(before, k, o); assert OfferEvent(log, k, o); }
      if o in OffersOf(e) { assert OfferEvent(log, |before|, o); }
      if k :| OfferEvent(log, k, o) { assert k < |before| ==> OfferEvent(before, k, o); }
    }
  }

  predicate CounterEvent(log: seq<Event>, k: int, c: RecordedCounter) {
    0 <= k < |log| && log[k].ty == CounterSent && ParseCounter(log[k].payload) == Some(c)
  }

  lemma {:induction false} CounterIsSent(log: seq<Event>, c: RecordedCounter)
    ensures c in CountersIn(log) <==> exists k :: CounterEvent(log, k, c)
  {
    if log != [] {
      var before, e := log[..|log| - 1], log[|log| - 1];
      CounterIsSent(before, c);
      assert log == before + [e];
      RecordsSnoc(before, e);
      if c in CountersIn(before) { var k :| CounterEvent(before, k, c); assert CounterEvent(log, k, c); }
      if c in CountersOf(e) { assert CounterEvent(log, |before|, c); }
      if k :| CounterEvent(log, k, c) { assert k < |before| ==> CounterEvent(before, k, c); }
    }
  }

  /** Every offer, counter and signature event of the log has the fields the reducer demands. */
  ghost predicate AllParse(log: seq<Event>) {
    forall k :: 0 <= k < |log| ==> Parses(log[k])
  }

  predicate Parses(e: Event) {
    && (e.ty == OfferSubmitted ==> ParseOffer(e.payload).Some?)
    && (e.ty == CounterSent ==> ParseCounter(e.payload).Some?)
    && (e.ty == QuoteSigned ==> TextAt(e.payload, KBuyerSignature).Some?)
  }

  lemma {:induction false} AdmittedParses(log: seq<Event>, e: Event)
    requires Admitted(log, e)
    ensures Parses(e)
  {
    ParsesIffTexts(e.payload);
  }

  lemma {:induction false} AcceptedParse(log: seq<Event>)
    requires Accepted(log)
    ensures AllParse(log)
  {
    AcceptedLogs(log);
    hide Accepted, Admitted, Parses;
    forall k | 0 <= k < |log| ensures Parses(log[k]) { AdmittedParses(log[..k], log[k]); }
  }

  // ---- The view ----

  /** Names, counts and rounds. */
  ghost predicate BooksView(log: seq<Event>, s: Session) {
    && s.totalOffers == CountType(log, OfferSubmitted) && s.totalAccepts == CountType(log, WinnerSelected)
    && (forall x :: CountOf(s.offerCount, x) == CountFor(log, OfferSubmitted, x))
    && (forall x :: CountOf(s.acceptCount, x) == CountFor(log, WinnerSelected, x))
    && (forall id :: HasOfferId(s.offers, id) <==> OfferNamed(log, id))
    && (forall id :: HasCounterId(s.counters, id) <==> CounterNamed(log, id))
    && (forall n: int :: n > MaxRound(s.counters) <==> n > 0 && RoundsBelow(log, n))
  }

  /** The request, the phase and the current cycle. */
  ghost predicate CycleView(log: seq<Event>, s: Session) {
    && log != [] && Phases(log, s.state) && s.lastEventId == log[|log| - 1].id
    && TextAt(log[0].payload, KBuyer) == Some(s.rfq.buyer) && TextAt(log[0].payload, KCurrency) == Some(s.rfq.currency)
    && TextAt(log[0].payload, KDeadline) == Some(s.rfq.deadline)
    && (forall x :: HasOfferFrom(s.offers, x) <==> OfferedBy(log, x))
    && (forall x :: s.selectedSeller == Some(x) <==> CurrentSeller(log, x))
    && (forall q :: s.unsignedQuote == Some(q) <==> CurrentQuote(log, q))
    && (s.buyerSignature.Some? <==> BuyerSigned(log))
    && (s.state == CommitPending || s.state == Committed ==> s.selectedSeller.Some? && s.commitPendingAt.Some?)
    && (forall t :: s.commitPendingAt == Some(t) <==> SelectedAt(log, t))
  }

  /** The instant of the current selection. */
  ghost predicate SelectedAt(log: seq<Event>, t: int) {
    exists w: nat :: CurrentWinner(log, w) && log[w].timestamp == t
  }

  lemma {:induction false} OfferNames(log: seq<Event>, offers: seq<RecordedOffer>, id: string)
    requires AllParse(log) && offers == OffersIn(log)
    ensures HasOfferId(offers, id) <==> OfferNamed(log, id)
  {
    if HasOfferId(offers, id) {
      var i :| 0 <= i < |offers| && offers[i].offerId == id;
      RecordedIsSent(log, offers[i]);
      var k :| OfferEvent(log, k, offers[i]);
      assert TextAt(log[k].payload, KOfferId) == Some(id);
    }
    if OfferNamed(log, id) {
      var k :| 0 <= k < |log| && log[k].ty == OfferSubmitted && TextAt(log[k].payload, KOfferId) == Some(id);
      assert Parses(log[k]);
      var o := ParseOffer(log[k].payload).value;
      assert OfferEvent(log, k, o);
      RecordedIsSent(log, o);
      var i :| 0 <= i < |offers| && offers[i] == o;
    }
  }

  lemma {:induction false} CounterNames(log: seq<Event>, cs: seq<RecordedCounter>, id: string)
    requires AllParse(log) && cs == CountersIn(log)
    ensures HasCounterId(cs, id) <==> CounterNamed(log, id)
  {
    if HasCounterId(cs, id) {
      var i :| 0 <= i < |cs| && cs[i].counterId == id;
      CounterIsSent(log, cs[i]);
      var k :| CounterEvent(log, k, cs[i]);
      assert TextAt(log[k].payload, KCounterId) == Some(id);
    }
    if CounterNamed(log, id) {
      var k :| 0 <= k < |log| && log[k].ty == CounterSent && TextAt(log[k].payload, KCounterId) == Some(id);
      assert Parses(log[k]);
      var c := ParseCounter(log[k].payload).value;
      assert CounterEvent(log, k, c);
      CounterIsSent(log, c);
      var i :| 0 <= i < |cs| && cs[i] == c;
    }
  }

  lemma {:induction false} RoundsRead(log: seq<Event>, cs: seq<RecordedCounter>, n: int)
    requires AllParse(log) && cs == CountersIn(log)
    ensures n > MaxRound(cs) <==> n > 0 && RoundsBelow(log, n)
  {
    hide MaxRound, CountersIn;
    if n > MaxRound(cs) {
      forall k | 0 <= k < |log| && log[k].ty == CounterSent && NumberAt(log[k].payload, KRound).Some?
        ensures NumberAt(log[k].payload, KRound).value < n
      {
        assert Parses(log[k]);
        var c := ParseCounter(log[k].payload).value;
        assert CounterEvent(log, k, c);
        CounterIsSent(log, c);
        var i :| 0 <= i < |cs| && cs[i] == c;
      }
    }
    if n > 0 && RoundsBelow(log, n) {
      forall i | 0 <= i < |cs| ensures cs[i].round < n {
        CounterIsSent(log, cs[i]);
        var k :| CounterEvent(log, k, cs[i]);
        assert NumberAt(log[k].payload, KRound) == Some(cs[i].round);
      }
    }
  }

  lemma {:induction false} BooksAreViewed(log: seq<Event>)
    requires Accepted(log)
    ensures BooksView(log, Derive(log).s)
  {
    SessionCountsTheLog(log);
    AcceptedParse(log);
    hide Derive, AllParse, HasOfferId, OfferNamed, HasCounterId, CounterNamed, RoundsBelow, OffersIn, CountersIn;
    hide MaxRound;
    var s := Derive(log).s;
    forall id
      ensures HasOfferId(s.offers, id) <==> OfferNamed(log, id)
      ensures HasCounterId(s.counters, id) <==> CounterNamed(log, id)
    {
      OfferNames(log, s.offers, id);
      CounterNames(log, s.counters, id);
    }
    forall n: int ensures n > MaxRound(s.counters) <==> n > 0 && RoundsBelow(log, n) { RoundsRead(log, s.counters, n); }
  }

  lemma {:induction false} SignedIsSince(log: seq<Event>, w: nat)
    requires CurrentWinner(log, w) && AllParse(log)
    ensures SignatureSince(log, w, QuoteSigned, KBuyerSignature).Some? <==> BuyerSigned(log)
  {
    if BuyerSigned(log) {
      var v: nat, k: nat :| CurrentWinner(log, v) && v < k < |log| && log[k].ty == QuoteSigned;
      OnlyWinner(log, w, v);
    }
    if LastSince(log, w, QuoteSigned).Some? { assert Parses(log[LastSince(log, w, QuoteSigned).value]); }
  }

  lemma {:induction false} NobodySigned(log: seq<Event>)
    requires Winner(log).None?
    ensures !BuyerSigned(log)
  {
  }

  lemma {:induction false} CycleIsCurrent(log: seq<Event>, s: Session)
    requires FromCurrentCycle(log, s) && AllParse(log)
    ensures forall q :: s.unsignedQuote == Some(q) <==> CurrentQuote(log, q)
    ensures forall t :: s.commitPendingAt == Some(t) <==> SelectedAt(log, t)
    ensures s.buyerSignature.Some? <==> BuyerSigned(log)
  {
    hide SignatureSince, AllParse, BuyerSigned;
    if Winner(log).Some? {
      var w := Winner(log).value;
      forall v: nat | CurrentWinner(log, v) ensures v == w { OnlyWinner(log, v, w); }
      SignedIsSince(log, w);
    } else {
      NobodySigned(log);
    }
  }

  lemma {:induction false} RequestIsNamed(p: Payload)
    ensures ParseRfq(p).Some? ==>
              var r := ParseRfq(p).value;
              TextAt(p, KBuyer) == Some(r.buyer) && TextAt(p, KCurrency) == Some(r.currency)
              && TextAt(p, KDeadline) == Some(r.deadline)
  {
  }

  lemma {:induction false} PendingIsSelected(log: seq<Event>, s: Session)
    requires FromCurrentCycle(log, s) && CycleMatchesState(log, s)
    ensures s.state == CommitPending || s.state == Committed ==> s.selectedSeller.Some? && s.commitPendingAt.Some?
  {
  }

  lemma {:induction false} CycleIsViewed(log: seq<Event>)
    requires Accepted(log)
    ensures CycleView(log, Derive(log).s)
  {
    hide Derive, CountsTheLog, AllParse, FromCurrentCycle, CycleMatchesState, SelectionOnRecord, Orderly, StateOfLog;
    hide CurrentSeller, CurrentQuote, BuyerSigned, SelectedAt, OfferedBy, HasOfferFrom, FirstOfferFrom, FindOffer;
    hide ParseRfq, OffersIn, CountersIn, Phases;
    var s := Derive(log).s;
    SessionReflectsLog(log);
    QuoteFieldsAreCurrent(log);
    SessionCountsTheLog(log);
    AcceptedParse(log);
    StateIsPhase(log, s.state);
    CycleIsCurrent(log, s);
    PendingIsSelected(log, s);
    RequestIsNamed(log[0].payload);
  }
}
