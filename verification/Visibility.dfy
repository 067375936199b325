/**
 What the role-scoped filter lets a seller see, stated against the session the log derives to, and when that is
 exactly what concerns the seller.
 */
module Visibility {
  import opened Protocol
  import opened Reducer
  import opened ReducerHistory
  import opened Routes
  import opened EngineRuns

  predicate Broadcast(ty: EventType) {
    ty == RfqCreated || ty == NegotiationExpired || ty == NegotiationCancelled
  }

  /** Records the reducer does not look into, so nothing but their writer decides which seller they name. */
  predicate Audit(ty: EventType) {
    ty == CommitMarker || ty == SettlementConfirmed
  }

  /**
   The event that takes session `before` to session `after` concerns this seller: it records the seller's own
   offer, it answers that seller, or the seller is the one selected.
   */
  predicate ConcernsStep(before: Session, e: Event, after: Session, seller: string) {
    match e.ty
    case OfferSubmitted => after.offers != [] && after.offers[|after.offers| - 1].seller == seller
    case CounterSent =>
      && HasOfferFrom(before.offers, seller)
      && after.counters != [] && after.counters[|after.counters| - 1].recipient == seller
    case WinnerSelected => after.selectedSeller == Some(seller)
    case _ => before.selectedSeller == Some(seller)
  }

  /** Event `k` of the log concerns this seller. */
  ghost predicate Concerns(log: seq<Event>, k: nat, seller: string)
    requires Accepted(log) && k < |log|
  {
    || Broadcast(log[k].ty)
    || (k > 0 && Accepted(log[..k]) && Accepted(log[..k + 1])
        && ConcernsStep(Derive(log[..k]).s, log[k], Derive(log[..k + 1]).s, seller))
  }

  /** Every seller sees event `k` exactly if it concerns that seller. */
  ghost predicate SeenExactly(log: seq<Event>, k: nat)
    requires Accepted(log) && k < |log|
  {
    var buyer := Derive(log).s.rfq.buyer;
    forall seller :: seller != buyer ==> (VisibleTo(log[k], seller, buyer) <==> Concerns(log, k, seller))
  }

  /** A party as far as the filter for sellers goes: the buyer sees everything anyway. */
  function AsSeller(party: Option<string>, buyer: string): Option<string> {
    if party == Some(buyer) then None else party
  }

  /** An audit record names the seller selected when it was appended. */
  ghost predicate NamesSelected(s: Session, e: Event) {
    Audit(e.ty) ==> AsSeller(TextAt(e.payload, KSeller), s.rfq.buyer) == AsSeller(s.selectedSeller, s.rfq.buyer)
  }

  ghost predicate NamesSelectedAt(log: seq<Event>, k: nat) {
    k < |log| && Audit(log[k].ty) ==> Accepted(log[..k]) && NamesSelected(Derive(log[..k]).s, log[k])
  }

  lemma {:induction false} StepIsVisible(s: Session, e: Event, seller: string)
    requires Apply(s, e).Live? && !Broadcast(e.ty) && !Audit(e.ty) && seller != s.rfq.buyer
    ensures VisibleTo(e, seller, s.rfq.buyer) <==> ConcernsStep(s, e, Apply(s, e).s, seller)
  {
  }

  lemma {:induction false} AuditIsVisible(s: Session, e: Event)
    requires Apply(s, e).Live? && Audit(e.ty)
    ensures NamesSelected(s, e) <==> forall seller :: seller != s.rfq.buyer ==>
              (VisibleTo(e, seller, s.rfq.buyer) <==> ConcernsStep(s, e, Apply(s, e).s, seller))
  {
    var named, selected := TextAt(e.payload, KSeller), s.selectedSeller;
    if forall seller :: seller != s.rfq.buyer ==>
         (VisibleTo(e, seller, s.rfq.buyer) <==> ConcernsStep(s, e, Apply(s, e).s, seller)) {
      if named.Some? { assert VisibleTo(e, named.value, s.rfq.buyer); }
      if selected.Some? { assert ConcernsStep(s, e, Apply(s, e).s, selected.value); }
    }
  }

  /** The sessions around event `k`. */
  lemma {:induction false} SessionsAround(log: seq<Event>, k: nat)
    requires Accepted(log) && k < |log|
    ensures if k == 0 then Broadcast(log[0].ty)
            else && Accepted(log[..k]) && Accepted(log[..k + 1]) && Derive(log[..k]).s.rfq == Derive(log).s.rfq
                 && Apply(Derive(log[..k]).s, log[k]) == Derive(log[..k + 1])
  {
    PrefixAccepted(log, k + 1);
    DeriveNext(log, k);
    if k > 0 {
      PrefixAccepted(log, k);
      RecordsOnlyGrow(log[..k], log);
    }
  }

  /**
   In every accepted log, an event reaches exactly the sellers it concerns if and only if it is not an audit
   record naming another seller than the one selected.
   */
  lemma {:induction false} SellersSeeExactly(log: seq<Event>, k: nat)
    requires Accepted(log) && k < |log|
    ensures SeenExactly(log, k) <==> NamesSelectedAt(log, k)
  {
    SessionsAround(log, k);
    if !Broadcast(log[k].ty) { AroundIsExact(log, k); }
  }

  lemma {:induction false} AroundIsExact(log: seq<Event>, k: nat)
    requires Accepted(log) && 0 < k < |log| && !Broadcast(log[k].ty)
    requires Accepted(log[..k]) && Accepted(log[..k + 1]) && Derive(log[..k]).s.rfq == Derive(log).s.rfq
    requires Apply(Derive(log[..k]).s, log[k]) == Derive(log[..k + 1])
    ensures SeenExactly(log, k) <==> NamesSelectedAt(log, k)
  {
    var s, e, buyer := Derive(log[..k]).s, log[k], Derive(log).s.rfq.buyer;
    forall seller | seller != buyer
      ensures Concerns(log, k, seller) <==> ConcernsStep(s, e, Apply(s, e).s, seller)
      ensures !Audit(e.ty) ==> (VisibleTo(e, seller, buyer) <==> ConcernsStep(s, e, Apply(s, e).s, seller))
    {
      if !Audit(e.ty) { StepIsVisible(s, e, seller); }
    }
    if Audit(e.ty) { AuditIsVisible(s, e); }
  }

  /** Of one log, two sellers both read broadcasts and nothing else. */
  lemma {:induction false} SellersAreApart(log: seq<Event>, a: string, b: string, buyer: string, e: Event)
    requires a != b && a != buyer && b != buyer
    requires e in Visible(log, Sees(a, buyer)) && e in Visible(log, Sees(b, buyer))
    ensures Broadcast(e.ty)
  {
    VisiblePasses(log, Sees(a, buyer), e);
    VisiblePasses(log, Sees(b, buyer), e);
  }

  // ---- Runs of the engine ----

  /** Every settlement that /execute appends to this session has a quote naming the seller then selected. */
  ghost predicate ExecutesForSelected(env: Env, actions: seq<Action>, rfqId: string) {
    forall i :: 0 <= i < |actions| ==> ExecuteNamesSelected(env, Run(env, actions[..i]), actions[i], rfqId)
  }

  ghost predicate ExecuteNamesSelected(env: Env, logs: Logs, a: Action, rfqId: string) {
    a.rfqId == rfqId && a.request.Execute? && Appends(env, logs, a) ==>
      Accepted(LogOf(logs, rfqId)) && TextAt(a.request.quote, KSeller) == Derive(LogOf(logs, rfqId)).s.selectedSeller
  }

  ghost predicate AuditsNameSelected(log: seq<Event>) {
    forall k :: 0 <= k < |log| ==> NamesSelectedAt(log, k)
  }

  lemma {:induction false} AuditsSnoc(log: seq<Event>, e: Event)
    requires Accepted(log)
    ensures AuditsNameSelected(log + [e]) <==> AuditsNameSelected(log) && NamesSelected(Derive(log).s, e)
  {
    var longer := log + [e];
    assert longer[..|log|] == log;
    assert NamesSelectedAt(longer, |log|) <==> NamesSelected(Derive(log).s, e);
    forall k | 0 <= k < |log| ensures NamesSelectedAt(longer, k) <==> NamesSelectedAt(log, k) {
      assert longer[..k] == log[..k] && longer[k] == log[k];
    }
  }

  lemma {:induction false} ExecutedRecord(pre: Session, log: seq<Event>, a: Action)
    requires a.request.Execute? && DecideExecute(pre, log, a).Append?
    ensures TextAt(DecideExecute(pre, log, a).payload, KSeller) == TextAt(a.request.quote, KSeller)
    ensures TextAt(a.request.quote, KSeller).Some?
  {
  }

  /** Which event types come from which requests, as far as audit records go. */
  lemma {:induction false} OnlySettlementsAudit(r: Request)
    ensures Audit(AppendedType(r)) <==> r.Execute? || r.ReportSettlement?
  {
  }

  /** The event a handler appends names the selected seller, except where /execute was given another one. */
  lemma {:induction false} AppendNamesSelected(env: Env, actions: seq<Action>, a: Action)
    requires env.Valid() && Appends(env, Run(env, actions), a) && !a.request.CreateRfq?
    ensures var logs := Run(env, actions);
            var log := LogOf(logs, a.rfqId);
            && Accepted(log)
            && (NamesSelected(Derive(log).s, NewEvent(a, Decide(env, log, a))) <==>
                ExecuteNamesSelected(env, logs, a, a.rfqId))
  {
    hide Decide, Derive, AppendedType, Deal;
    var log := LogOf(Run(env, actions), a.rfqId);
    ActsOnSession(env, log, a);
    OnlySettlementsAudit(a.request);
    if a.request.ReportSettlement? {
      ReportRecordsDeal(env, actions, a);
    } else if a.request.Execute? {
      SettlementStateIsCurrent(env, log, a);
      ExecutedNames(env, log, a);
      CommittedHasSeller(env, actions, a.rfqId);
    }
  }

  lemma {:induction false} ExecutedNames(env: Env, log: seq<Event>, a: Action)
    requires a.seen <= |log| && a.request.Execute? && Decide(env, log, a).Append?
    ensures TextAt(Decide(env, log, a).payload, KSeller) == TextAt(a.request.quote, KSeller)
    ensures TextAt(a.request.quote, KSeller).Some?
  {
    hide Derive, DecideExecute;
    ActsOnSession(env, log, a);
    ExecutedRecord(Derive(log[..a.seen]).s, log, a);
  }

  lemma {:induction false} CommittedHasSeller(env: Env, actions: seq<Action>, rfqId: string)
    requires env.Valid() && Accepted(LogOf(Run(env, actions), rfqId))
    ensures var s := Derive(LogOf(Run(env, actions), rfqId)).s; s.state == Committed ==> s.selectedSeller.Some?
  {
    hide Next;
    CommittedMeansDeal(env, actions, rfqId);
  }

  lemma {:induction false} ExecutesSnoc(env: Env, actions: seq<Action>, rfqId: string)
    requires actions != []
    ensures var before, a := actions[..|actions| - 1], actions[|actions| - 1];
            ExecutesForSelected(env, actions, rfqId) <==>
            ExecutesForSelected(env, before, rfqId) && ExecuteNamesSelected(env, Run(env, before), a, rfqId)
  {
    hide ExecuteNamesSelected, Run;
    var before := actions[..|actions| - 1];
    forall i | 0 <= i < |before|
      ensures ExecuteNamesSelected(env, Run(env, actions[..i]), actions[i], rfqId) <==>
              ExecuteNamesSelected(env, Run(env, before[..i]), before[i], rfqId)
    {
      assert actions[..i] == before[..i];
    }
    assert ExecutesForSelected(env, actions, rfqId) ==>
             ExecuteNamesSelected(env, Run(env, actions[..|actions| - 1]), actions[|actions| - 1], rfqId);
  }

  /** The audit records of a session name its selected seller exactly if every /execute on it did. */
  lemma {:induction false} RunNamesSelected(env: Env, actions: seq<Action>, rfqId: string)
    requires env.Valid()
    ensures AuditsNameSelected(LogOf(Run(env, actions), rfqId)) <==> ExecutesForSelected(env, actions, rfqId)
  {
    if actions != [] {
      var before, a := actions[..|actions| - 1], actions[|actions| - 1];
      RunNamesSelected(env, before, rfqId);
      ExecutesSnoc(env, actions, rfqId);
      if a.rfqId == rfqId && Appends(env, Run(env, before), a) { AppendedNamesSelected(env, before, a); }
    }
  }

  lemma {:induction false} AppendedNamesSelected(env: Env, actions: seq<Action>, a: Action)
    requires env.Valid() && Appends(env, Run(env, actions), a)
    ensures var logs := Run(env, actions);
            AuditsNameSelected(LogOf(Next(env, logs, a), a.rfqId)) <==>
            AuditsNameSelected(LogOf(logs, a.rfqId)) && ExecuteNamesSelected(env, logs, a, a.rfqId)
  {
    var logs := Run(env, actions);
    var log := LogOf(logs, a.rfqId);
    var e := NewEvent(a, Decide(env, log, a));
    if a.request.CreateRfq? {
      assert log + [e] == [e];
    } else {
      AppendNamesSelected(env, actions, a);
      AuditsSnoc(log, e);
    }
  }

  /**
   In every run, every event of a session reaches exactly the sellers it concerns if and only if each settlement
   that /execute recorded was for the selected seller; settle-report never goes wrong.
   */
  lemma {:induction false} RunSeenExactly(env: Env, actions: seq<Action>, rfqId: string)
    requires env.Valid() && rfqId in Run(env, actions)
    ensures Accepted(Run(env, actions)[rfqId])
    ensures (forall k :: 0 <= k < |Run(env, actions)[rfqId]| ==> SeenExactly(Run(env, actions)[rfqId], k)) <==>
            ExecutesForSelected(env, actions, rfqId)
  {
    var log := Run(env, actions)[rfqId];
    CommittedMeansDeal(env, actions, rfqId);
    RunNamesSelected(env, actions, rfqId);
    forall k | 0 <= k < |log| ensures SeenExactly(log, k) <==> NamesSelectedAt(log, k) {
      SellersSeeExactly(log, k);
    }
  }

  /** Every event a seller reads, by polling or streaming, sits in the log and concerns that seller. */
  lemma {:induction false} EverythingReadConcerns(env: Env, actions: seq<Action>, rfqId: string, seller: string,
                                                  e: Event)
    requires env.Valid() && rfqId in Run(env, actions) && ExecutesForSelected(env, actions, rfqId)
    requires Accepted(Run(env, actions)[rfqId]) && seller != Derive(Run(env, actions)[rfqId]).s.rfq.buyer
    requires e in Visible(Run(env, actions)[rfqId], Sees(seller, Derive(Run(env, actions)[rfqId]).s.rfq.buyer))
    ensures var log := Run(env, actions)[rfqId];
            exists k :: 0 <= k < |log| && log[k] == e && Concerns(log, k, seller)
  {
    var log := Run(env, actions)[rfqId];
    var sees := Sees(seller, Derive(log).s.rfq.buyer);
    VisibleIsInLog(log, sees, e);
    VisiblePasses(log, sees, e);
    var k :| 0 <= k < |log| && log[k] == e;
    RunSeenExactly(env, actions, rfqId);
    assert SeenExactly(log, k);
  }

  lemma {:induction false} VisiblePasses(log: seq<Event>, sees: Event -> bool, e: Event)
    requires e in Visible(log, sees)
    ensures sees(e)
  {
    if log != [] && e in Visible(log[..|log| - 1], sees) {
      VisiblePasses(log[..|log| - 1], sees, e);
    }
  }
}
