/**
 What the reducer's output means, stated against the raw log instead of against the reducer: which
 accept cycle is current, where quote and signatures come from, what every counter counts.
 */
module ReducerHistory {
  import opened Protocol
  import opened Reducer
  import opened Collections

  /** `w` opened the accept cycle that is still current: no later selection and no rollback. */
  ghost predicate CurrentWinner(log: seq<Event>, w: nat) {
    && w < |log| && log[w].ty == WinnerSelected
    && forall k :: w < k < |log| ==> log[k].ty != WinnerSelected && !Rollback(log[k].ty)
  }

  /** The current cycle's selection, found by reading the log backwards. */
  function Winner(log: seq<Event>): (w: Option<nat>)
    ensures w.Some? ==> CurrentWinner(log, w.value)
    ensures w.None? ==> forall k :: !CurrentWinner(log, k)
  {
    if log == [] then None
    else
      var n := |log| - 1;
      if log[n].ty == WinnerSelected then Some(n)
      else if Rollback(log[n].ty) then
        assert forall k: nat :: k < n ==> !CurrentWinner(log, k);
        None
      else
        var w := Winner(log[..n]);
        assert forall k :: CurrentWinner(log, k) ==> CurrentWinner(log[..n], k);
        w
  }

  /** The last event of type `ty` after position `w`. */
  function LastSince(log: seq<Event>, w: nat, ty: EventType): (k: Option<nat>)
    ensures k.Some? ==> w < k.value < |log| && log[k.value].ty == ty
    ensures k.Some? ==> forall j :: k.value < j < |log| ==> log[j].ty != ty
    ensures k.None? ==> forall j :: w < j < |log| ==> log[j].ty != ty
  {
    if |log| <= w + 1 then None
    else if log[|log| - 1].ty == ty then Some(|log| - 1)
    else LastSince(log[..|log| - 1], w, ty)
  }

  /** A signature counts only if its event came after the current selection. */
  function SignatureSince(log: seq<Event>, w: nat, ty: EventType, key: Key): Option<string> {
    match LastSince(log, w, ty)
    case None => None
    case Some(k) => TextAt(log[k].payload, key)
  }

  function OffersIn(log: seq<Event>): seq<RecordedOffer> {
    if log == [] then []
    else
      var e := log[|log| - 1];
      var before := OffersIn(log[..|log| - 1]);
      if e.ty == OfferSubmitted && ParseOffer(e.payload).Some? then before + [ParseOffer(e.payload).value] else before
  }

  function CountersIn(log: seq<Event>): seq<RecordedCounter> {
    if log == [] then []
    else
      var e := log[|log| - 1];
      var before := CountersIn(log[..|log| - 1]);
      if e.ty == CounterSent && ParseCounter(e.payload).Some? then before + [ParseCounter(e.payload).value] else before
  }

  function CountType(log: seq<Event>, ty: EventType): nat {
    if log == [] then 0
    else CountType(log[..|log| - 1], ty) + (if log[|log| - 1].ty == ty then 1 else 0)
  }

  /** Events of type `ty` whose payload names `seller`. */
  function CountFor(log: seq<Event>, ty: EventType, seller: string): nat {
    if log == [] then 0
    else
      var e := log[|log| - 1];
      CountFor(log[..|log| - 1], ty, seller) +
      (if e.ty == ty && TextAt(e.payload, KSeller) == Some(seller) then 1 else 0)
  }

  /** Selection, quote and signatures are exactly those of the current accept cycle. */
  ghost predicate FromCurrentCycle(log: seq<Event>, s: Session) {
    match Winner(log)
    case None =>
      s.selectedSeller.None? && s.selectedOfferId.None? && s.unsignedQuote.None? && s.commitPendingAt.None? &&
      s.buyerSignature.None? && s.sellerSignature.None?
    case Some(w) =>
      var p := log[w].payload;
      && s.selectedSeller == TextAt(p, KSeller) && s.selectedSeller.Some?
      && s.selectedOfferId == TextAt(p, KOfferId) && s.selectedOfferId.Some?
      && s.unsignedQuote == DocAt(p, KQuote)
      && s.commitPendingAt == Some(log[w].timestamp)
      && s.buyerSignature == SignatureSince(log, w, QuoteSigned, KBuyerSignature)
      && s.sellerSignature == SignatureSince(log, w, QuoteCommitted, KSellerSignature)
  }

  /** The state decides whether an accept cycle can be current; only expiry leaves both possible. */
  ghost predicate CycleMatchesState(log: seq<Event>, s: Session) {
    && (s.state in {Open, Negotiating, Cancelled} ==> Winner(log).None?)
    && (s.state in {CommitPending, Committed} ==> Winner(log).Some?)
    && (s.state == Committed <==> s.sellerSignature.Some?)
  }

  /** While a cycle is current, the selected offer is on record and belongs to the selected seller. */
  ghost predicate SelectionOnRecord(s: Session) {
    s.selectedOfferId.Some? ==>
      var o := FindOffer(s.offers, s.selectedOfferId.value);
      o.Some? && s.selectedSeller == Some(o.value.seller)
  }

  ghost predicate CycleInv(log: seq<Event>, s: Session) {
    FromCurrentCycle(log, s) && CycleMatchesState(log, s) && SelectionOnRecord(s)
  }

  lemma {:induction false} CycleKeptInside(log: seq<Event>, e: Event, s: Session)
    requires CycleInv(log, s) && Apply(s, e).Live?
    requires e.ty != WinnerSelected && !Rollback(e.ty) && e.ty != QuoteSigned && e.ty != QuoteCommitted
    ensures CycleInv(log + [e], Apply(s, e).s)
  {
    InsideSameCycle(log, e, s);
    InsideKeepsSession(s, e);
    hide Winner, SignatureSince, Apply, FindOffer;
  }

  /** An event that neither opens nor closes a cycle nor signs leaves the log's cycle as it is. */
  lemma {:induction false} InsideSameCycle(log: seq<Event>, e: Event, s: Session)
    requires e.ty != WinnerSelected && !Rollback(e.ty) && e.ty != QuoteSigned && e.ty != QuoteCommitted
    ensures Winner(log + [e]) == Winner(log)
    ensures Winner(log).Some? ==>
              forall ty, key :: ty == QuoteSigned || ty == QuoteCommitted ==>
                SignatureSince(log + [e], Winner(log).value, ty, key) == SignatureSince(log, Winner(log).value, ty, key)
  {
    var log' := log + [e];
    assert log'[..|log|] == log;
  }

  /** Such an event leaves the session's cycle fields as they are. */
  lemma {:induction false} InsideKeepsSession(s: Session, e: Event)
    requires Apply(s, e).Live?
    requires e.ty != WinnerSelected && !Rollback(e.ty) && e.ty != QuoteSigned && e.ty != QuoteCommitted
    ensures var t := Apply(s, e).s;
            && t.selectedSeller == s.selectedSeller && t.selectedOfferId == s.selectedOfferId
            && t.unsignedQuote == s.unsignedQuote && t.commitPendingAt == s.commitPendingAt
            && t.buyerSignature == s.buyerSignature && t.sellerSignature == s.sellerSignature
            && (t.state == Committed <==> s.state == Committed)
            && (t.state == CommitPending ==> s.state == CommitPending)
            && (t.state in {Open, Negotiating, Cancelled} ==> s.state in {Open, Negotiating})
            && (t.offers == s.offers || s.state in {Open, Negotiating})
  {
  }

  lemma {:induction false} CycleKeptBySignature(log: seq<Event>, e: Event, s: Session)
    requires CycleInv(log, s) && Apply(s, e).Live?
    requires e.ty == QuoteSigned || e.ty == QuoteCommitted
    ensures CycleInv(log + [e], Apply(s, e).s)
  {
    var log' := log + [e];
    assert log'[..|log|] == log;
    assert Winner(log') == Winner(log);
  }

  lemma {:induction false} CycleKeptByTurn(log: seq<Event>, e: Event, s: Session)
    requires CycleInv(log, s) && Apply(s, e).Live?
    requires e.ty == WinnerSelected || Rollback(e.ty)
    ensures CycleInv(log + [e], Apply(s, e).s)
  {
    var log' := log + [e];
    assert log'[..|log|] == log;
    assert e.ty == WinnerSelected ==> Winner(log') == Some(|log|);
  }

  lemma {:induction false} CycleStart(e: Event)
    requires Accepted([e])
    ensures Current([e])
  {
    assert [e][..0] == [];
    assert Derive([e]) == Create(e);
    assert Winner([]).None? && Winner([e]).None?;
  }

  /** What holds of every accepted first event and is kept by every accepted append holds of every accepted log. */
  lemma {:induction false} LogInduction(p: seq<Event> -> bool, log: seq<Event>)
    requires forall e :: Accepted([e]) ==> p([e])
    requires forall l, e :: Accepted(l) && p(l) && Accepted(l + [e]) ==> p(l + [e])
    requires Accepted(log)
    ensures p(log)
  {
    var before, e := log[..|log| - 1], log[|log| - 1];
    assert log == before + [e];
    if |log| > 1 {
      PrefixAccepted(log, |log| - 1);
      LogInduction(p, before);
    } else {
      assert log == [e];
    }
  }

  /** The session of a log the reducer accepts belongs to the log's current cycle. */
  ghost predicate Current(log: seq<Event>) {
    Accepted(log) ==> CycleInv(log, Derive(log).s)
  }

  lemma {:induction false} CycleAppend(log: seq<Event>, e: Event)
    requires Accepted(log) && Current(log) && Accepted(log + [e])
    ensures Current(log + [e])
  {
    DeriveSnoc(log, e);
    CycleStep(log, e, Derive(log).s);
  }

  lemma {:induction false} CycleStep(log: seq<Event>, e: Event, s: Session)
    requires CycleInv(log, s) && Apply(s, e).Live?
    ensures CycleInv(log + [e], Apply(s, e).s)
  {
    if e.ty == WinnerSelected || Rollback(e.ty) {
      CycleKeptByTurn(log, e, s);
    } else if e.ty == QuoteSigned || e.ty == QuoteCommitted {
      CycleKeptBySignature(log, e, s);
    } else {
      CycleKeptInside(log, e, s);
    }
  }

  /**
   For every log the reducer accepts, quote and signature fields come only from the current accept
   cycle, whatever cycles were rolled back before it.
   */
  lemma {:induction false} QuoteFieldsAreCurrent(log: seq<Event>)
    requires Accepted(log)
    ensures CycleInv(log, Derive(log).s)
  {
    forall e | Accepted([e]) ensures Current([e]) { CycleStart(e); }
    forall l, e | Accepted(l) && Current(l) && Accepted(l + [e]) ensures Current(l + [e]) { CycleAppend(l, e); }
    LogInduction(l => Current(l), log);
  }

  /** Offers, counters, request and last id are exactly what the log holds. */
  ghost predicate RecordsTheLog(log: seq<Event>, s: Session) {
    && log != [] && s.offers == OffersIn(log) && s.counters == CountersIn(log)
    && s.lastEventId == log[|log| - 1].id
    && ParseRfq(log[0].payload) == Some(s.rfq)
  }

  /** Totals and per-seller maps count the log's events. */
  ghost predicate CountsTheLog(log: seq<Event>, s: Session) {
    && s.totalOffers == |s.offers| == CountType(log, OfferSubmitted)
    && |s.counters| == CountType(log, CounterSent)
    && s.totalAccepts == s.quoteRevision == CountType(log, WinnerSelected)
    && (forall x :: CountOf(s.offerCount, x) == CountFor(log, OfferSubmitted, x))
    && (forall x :: CountOf(s.acceptCount, x) == CountFor(log, WinnerSelected, x))
  }

  /** What one event adds to the recorded offers and counters. */
  function OffersOf(e: Event): seq<RecordedOffer> {
    if e.ty == OfferSubmitted && ParseOffer(e.payload).Some? then [ParseOffer(e.payload).value] else []
  }

  function CountersOf(e: Event): seq<RecordedCounter> {
    if e.ty == CounterSent && ParseCounter(e.payload).Some? then [ParseCounter(e.payload).value] else []
  }

  lemma {:induction false} RecordsOfStep(s: Session, e: Event)
    requires Apply(s, e).Live?
    ensures var t := Apply(s, e).s;
            && t.offers == s.offers + OffersOf(e) && t.counters == s.counters + CountersOf(e)
            && t.lastEventId == e.id && t.rfq == s.rfq
  {
  }

  lemma {:induction false} RecordsSnoc(log: seq<Event>, e: Event)
    ensures OffersIn(log + [e]) == OffersIn(log) + OffersOf(e)
    ensures CountersIn(log + [e]) == CountersIn(log) + CountersOf(e)
  {
    assert (log + [e])[..|log|] == log;
  }

  lemma {:induction false} RecordsStep(log: seq<Event>, e: Event, s: Session)
    requires RecordsTheLog(log, s) && Apply(s, e).Live?
    ensures RecordsTheLog(log + [e], Apply(s, e).s)
  {
    RecordsOfStep(s, e);
    RecordsSnoc(log, e);
    assert (log + [e])[0] == log[0];
  }

  lemma {:induction false} CountsSnoc(log: seq<Event>, e: Event, ty: EventType, seller: string)
    ensures CountType(log + [e], ty) == CountType(log, ty) + (if e.ty == ty then 1 else 0)
    ensures CountFor(log + [e], ty, seller) ==
            CountFor(log, ty, seller) + (if e.ty == ty && TextAt(e.payload, KSeller) == Some(seller) then 1 else 0)
  {
    assert (log + [e])[..|log|] == log;
  }

  /** What one step adds to the totals. */
  lemma {:induction false} TotalsStep(s: Session, e: Event)
    requires Apply(s, e).Live?
    ensures var t := Apply(s, e).s;
            && t.totalOffers - s.totalOffers == |t.offers| - |s.offers| == (if e.ty == OfferSubmitted then 1 else 0)
            && |t.counters| - |s.counters| == (if e.ty == CounterSent then 1 else 0)
            && t.totalAccepts - s.totalAccepts == t.quoteRevision - s.quoteRevision
            && t.totalAccepts - s.totalAccepts == (if e.ty == WinnerSelected then 1 else 0)
  {
  }

  /** What one step adds to a seller's counts. */
  lemma {:induction false} SellerCountsStep(s: Session, e: Event, x: string)
    requires Apply(s, e).Live?
    ensures var t, named := Apply(s, e).s, TextAt(e.payload, KSeller) == Some(x);
            && CountOf(t.offerCount, x) == CountOf(s.offerCount, x) + (if e.ty == OfferSubmitted && named then 1 else 0)
            && CountOf(t.acceptCount, x) ==
               CountOf(s.acceptCount, x) + (if e.ty == WinnerSelected && named then 1 else 0)
  {
  }

  lemma {:induction false} CountsStep(log: seq<Event>, e: Event, s: Session)
    requires CountsTheLog(log, s) && Apply(s, e).Live?
    ensures CountsTheLog(log + [e], Apply(s, e).s)
  {
    TotalsStep(s, e);
    CountsSnoc(log, e, OfferSubmitted, "");
    CountsSnoc(log, e, CounterSent, "");
    CountsSnoc(log, e, WinnerSelected, "");
    SellersCounted(log, e, s);
  }

  lemma {:induction false} SellersCounted(log: seq<Event>, e: Event, s: Session)
    requires CountsTheLog(log, s) && Apply(s, e).Live?
    ensures forall x :: CountOf(Apply(s, e).s.offerCount, x) == CountFor(log + [e], OfferSubmitted, x)
    ensures forall x :: CountOf(Apply(s, e).s.acceptCount, x) == CountFor(log + [e], WinnerSelected, x)
  {
    var t := Apply(s, e).s;
    forall x
      ensures CountOf(t.offerCount, x) == CountFor(log + [e], OfferSubmitted, x)
      ensures CountOf(t.acceptCount, x) == CountFor(log + [e], WinnerSelected, x)
    {
      SellerCountsStep(s, e, x);
      CountsSnoc(log, e, OfferSubmitted, x);
      CountsSnoc(log, e, WinnerSelected, x);
    }
  }

  lemma {:induction false} SessionCountsTheLog(log: seq<Event>)
    requires Accepted(log)
    ensures RecordsTheLog(log, Derive(log).s)
    ensures CountsTheLog(log, Derive(log).s)
  {
    var before, e := log[..|log| - 1], log[|log| - 1];
    if |log| > 1 {
      PrefixAccepted(log, |log| - 1);
      SessionCountsTheLog(before);
      assert log == before + [e];
      RecordsStep(before, e, Derive(before).s);
      CountsStep(before, e, Derive(before).s);
    } else {
      assert before == [];
    }
  }

  lemma {:induction false} SumsStep(s: Session, e: Event)
    requires Sum(s.offerCount) == s.totalOffers && Sum(s.acceptCount) == s.totalAccepts && Apply(s, e).Live?
    ensures Sum(Apply(s, e).s.offerCount) == Apply(s, e).s.totalOffers
    ensures Sum(Apply(s, e).s.acceptCount) == Apply(s, e).s.totalAccepts
  {
    if e.ty == OfferSubmitted {
      var x := ParseOffer(e.payload).value.seller;
      SumUpdate(s.offerCount, x, CountOf(s.offerCount, x) + 1);
    } else if e.ty == WinnerSelected {
      var x := TextAt(e.payload, KSeller).value;
      SumUpdate(s.acceptCount, x, CountOf(s.acceptCount, x) + 1);
    }
  }

  /** The reducer's totals are the sums of its per-seller maps. */
  lemma {:induction false} TotalsAreSums(log: seq<Event>)
    requires Accepted(log)
    ensures Sum(Derive(log).s.offerCount) == Derive(log).s.totalOffers
    ensures Sum(Derive(log).s.acceptCount) == Derive(log).s.totalAccepts
  {
    var before, e := log[..|log| - 1], log[|log| - 1];
    if |log| > 1 {
      PrefixAccepted(log, |log| - 1);
      TotalsAreSums(before);
      assert Derive(log) == Apply(Derive(before).s, e);
      SumsStep(Derive(before).s, e);
    } else {
      assert before == [];
    }
  }

  /** The RFQ is the same and recorded offers and counters only grew. */
  predicate Grew(s: Session, t: Session) {
    t.rfq == s.rfq && s.offers <= t.offers && s.counters <= t.counters
  }

  lemma {:induction false} RecordsKept(s: Session, e: Event)
    requires Apply(s, e).Live?
    ensures Grew(s, Apply(s, e).s)
  {
  }

  lemma {:induction false} GrewTransitive(s: Session, t: Session, u: Session)
    requires Grew(s, t) && Grew(t, u)
    ensures Grew(s, u)
  {
  }

  lemma {:induction false} LastStep(log: seq<Event>)
    requires Accepted(log) && |log| > 1
    ensures var before, e := log[..|log| - 1], log[|log| - 1];
            && Accepted(before) && Apply(Derive(before).s, e).Live? && Derive(log) == Apply(Derive(before).s, e)
            && log == before + [e]
  {
    PrefixAccepted(log, |log| - 1);
  }

  lemma {:induction false} LastGrew(log: seq<Event>)
    requires Accepted(log) && |log| > 1
    ensures Accepted(log[..|log| - 1]) && Grew(Derive(log[..|log| - 1]).s, Derive(log).s)
  {
    LastStep(log);
    RecordsKept(Derive(log[..|log| - 1]).s, log[|log| - 1]);
  }

  /** The RFQ never changes and recorded offers and counters only grow. */
  lemma {:induction false} RecordsOnlyGrow(earlier: seq<Event>, log: seq<Event>)
    requires Accepted(log) && earlier != [] && earlier <= log
    ensures Accepted(earlier) && Grew(Derive(earlier).s, Derive(log).s)
  {
    hide Derive;
    if earlier != log {
      var before := log[..|log| - 1];
      LastGrew(log);
      RecordsOnlyGrow(earlier, before);
      GrewTransitive(Derive(earlier).s, Derive(before).s, Derive(log).s);
    }
  }

  /** The sessions differ at most in the last event id. */
  predicate SameButLastId(s: Session, t: Session) {
    t == s.(lastEventId := t.lastEventId)
  }

  lemma {:induction false} SameTransitive(s: Session, t: Session, u: Session)
    requires SameButLastId(s, t) && SameButLastId(t, u)
    ensures SameButLastId(s, u)
  {
  }

  lemma {:induction false} CommittedStep(s: Session, e: Event)
    requires s.state == Committed && Apply(s, e).Live?
    ensures e.ty == SettlementConfirmed && SameButLastId(s, Apply(s, e).s)
  {
  }

  lemma {:induction false} LastSettles(log: seq<Event>)
    requires Accepted(log) && |log| > 1 && Accepted(log[..|log| - 1]) && Derive(log[..|log| - 1]).s.state == Committed
    ensures log[|log| - 1].ty == SettlementConfirmed && SameButLastId(Derive(log[..|log| - 1]).s, Derive(log).s)
  {
    LastStep(log);
    CommittedStep(Derive(log[..|log| - 1]).s, log[|log| - 1]);
  }

  lemma {:induction false} AcceptedIsNotEmpty(log: seq<Event>)
    requires Accepted(log)
    ensures log != []
  {
  }

  lemma {:induction false} CommittedStays(earlier: seq<Event>, log: seq<Event>)
    requires Accepted(log) && earlier <= log && Accepted(earlier) && Derive(earlier).s.state == Committed
    ensures SameButLastId(Derive(earlier).s, Derive(log).s)
  {
    AcceptedIsNotEmpty(earlier);
    hide Derive, Apply;
    if earlier != log {
      var before := log[..|log| - 1];
      LastStep(log);
      CommittedStays(earlier, before);
      LastSettles(log);
      SameTransitive(Derive(earlier).s, Derive(before).s, Derive(log).s);
    }
  }

  /**
   COMMITTED is absorbing: every later event is a settlement record and nothing in the session
   but the last event id changes.
   */
  lemma {:induction false} CommittedIsAbsorbing(earlier: seq<Event>, log: seq<Event>)
    requires Accepted(log) && earlier <= log && Accepted(earlier) && Derive(earlier).s.state == Committed
    ensures forall k :: |earlier| <= k < |log| ==> log[k].ty == SettlementConfirmed
    ensures SameButLastId(Derive(earlier).s, Derive(log).s)
  {
    hide Derive;
    CommittedStays(earlier, log);
    forall k | |earlier| <= k < |log| ensures log[k].ty == SettlementConfirmed {
      OnlySettles(earlier, log, k);
    }
  }

  lemma {:induction false} OnlySettles(earlier: seq<Event>, log: seq<Event>, k: nat)
    requires Accepted(log) && earlier <= log && Accepted(earlier) && Derive(earlier).s.state == Committed
    requires |earlier| <= k < |log|
    ensures log[k].ty == SettlementConfirmed
  {
    AcceptedIsNotEmpty(earlier);
    hide Derive;
    PrefixAccepted(log, k);
    PrefixAccepted(log, k + 1);
    CommittedStays(earlier, log[..k]);
    NextSettles(log, k);
  }

  lemma {:induction false} NextSettles(log: seq<Event>, k: nat)
    requires 0 < k < |log| && Accepted(log[..k]) && Accepted(log[..k + 1]) && Derive(log[..k]).s.state == Committed
    ensures log[k].ty == SettlementConfirmed
  {
    hide Derive;
    var next := log[..k + 1];
    assert next[..|next| - 1] == log[..k];
    LastSettles(next);
  }

  lemma {:induction false} DeadRefuses(log: seq<Event>, e: Event)
    requires Accepted(log) && Derive(log).s.state in {Expired, Cancelled}
    ensures !Accepted(log + [e])
  {
    DeriveSnoc(log, e);
  }

  /** EXPIRED and CANCELLED admit no further event at all. */
  lemma {:induction false} DeadIsFinal(earlier: seq<Event>, log: seq<Event>)
    requires Accepted(log) && earlier <= log && Accepted(earlier)
    requires Derive(earlier).s.state in {Expired, Cancelled}
    ensures earlier == log
  {
    var n := |earlier|;
    if n < |log| {
      assert log[..n + 1] == earlier + [log[n]];
      DeadRefuses(earlier, log[n]);
      PrefixAccepted(log, n + 1);
      assert false;
    }
  }

  /** A terminal session stays terminal whatever is appended later, so skipping cleaned sessions loses nothing. */
  lemma {:induction false} TerminalIsForever(earlier: seq<Event>, log: seq<Event>)
    requires Accepted(earlier) && Accepted(log) && earlier <= log && Terminal(Derive(earlier).s.state)
    ensures Derive(log).s.state == Derive(earlier).s.state
  {
    hide Derive;
    if Derive(earlier).s.state == Committed {
      CommittedIsAbsorbing(earlier, log);
    } else {
      DeadIsFinal(earlier, log);
    }
  }
}
