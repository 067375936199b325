/**
 `DeadlineEnforcer`: the periodic scan. Each session is read without the lock, then acted on inside it after the
 same tests again; while the scan waits for a lock any other handlers run. Sessions whose lock cannot be had during
 this scan are skipped and retried next time.
 */
module Enforcement {
  import opened Protocol
  import opened Reducer
  import opened ReducerHistory
  import opened Routes
  import opened EventStore
  import opened SessionManagement
  import opened Collections

  const CACHE_TTL_MS := 300_000
  const MAX_CLEANED: nat := 10_000

  ghost predicate IsTerminal(logs: Logs, r: string) {
    r in logs && Accepted(logs[r]) && Terminal(Derive(logs[r]).s.state)
  }

  /** Deadline passed at `now`. */
  ghost predicate IsDue(env: Env, logs: Logs, r: string, now: int) {
    r in logs && Accepted(logs[r]) && Reached(env, now, Derive(logs[r]).s.rfq.deadline)
  }

  // ---- Logs between two points of a scan ----

  /** Sessions stay and their logs only grow. */
  ghost predicate Grown(logs: Logs, later: Logs) {
    forall r :: r in logs ==> r in later && logs[r] <= later[r]
  }

  /** The logs after these actions, starting from `logs`. */
  function RunFrom(env: Env, logs: Logs, actions: seq<Action>): Logs {
    if actions == [] then logs else Next(env, RunFrom(env, logs, actions[..|actions| - 1]), actions[|actions| - 1])
  }

  lemma {:induction false} RunFromSnoc(env: Env, logs: Logs, actions: seq<Action>, a: Action)
    ensures RunFrom(env, logs, actions + [a]) == Next(env, RunFrom(env, logs, actions), a)
  {
    hide Next;
    assert (actions + [a])[..|actions|] == actions;
  }

  lemma {:induction false} RunFromConcat(env: Env, logs: Logs, first: seq<Action>, then_: seq<Action>)
    ensures RunFrom(env, logs, first + then_) == RunFrom(env, RunFrom(env, logs, first), then_)
  {
    hide Next;
    if then_ == [] {
      assert first + then_ == first;
    } else {
      RunFromConcat(env, logs, first, then_[..|then_| - 1]);
      assert (first + then_)[..|first + then_| - 1] == first + then_[..|then_| - 1];
    }
  }

  lemma {:induction false} NextGrown(env: Env, logs: Logs, a: Action)
    ensures Grown(logs, Next(env, logs, a))
  {
    hide Decide, Persistable;
  }

  lemma {:induction false} GrownTransitive(a: Logs, b: Logs, c: Logs)
    requires Grown(a, b) && Grown(b, c)
    ensures Grown(a, c)
  {
  }

  /** An ended session stays ended, so skipping cleaned sessions loses nothing. */
  lemma {:induction false} TerminalStays(logs: Logs, later: Logs, r: string)
    requires Grown(logs, later) && AllAccepted(later) && IsTerminal(logs, r)
    ensures IsTerminal(later, r)
  {
    hide Derive;
    TerminalIsForever(logs[r], later[r]);
  }

  /** A deadline that has passed has passed for good. */
  lemma {:induction false} DueStays(env: Env, logs: Logs, later: Logs, r: string, t: int, t': int)
    requires Grown(logs, later) && AllAccepted(later) && IsDue(env, logs, r, t) && t <= t'
    ensures IsDue(env, later, r, t')
  {
    AcceptedIsNotEmpty(logs[r]);
    hide Derive;
    RecordsOnlyGrow(logs[r], later[r]);
  }

  /** Ids that are new stay new if no action uses them. */
  ghost predicate KeepsFresh(logs: Logs, later: Logs, used: set<string>) {
    forall x :: x !in used && FreshId(logs, x) ==> FreshId(later, x)
  }

  lemma {:induction false} NextKeepsFresh(env: Env, logs: Logs, a: Action)
    ensures KeepsFresh(logs, Next(env, logs, a), {a.eventId})
  {
    hide Decide, Persistable;
    if Appends(env, logs, a) {
      FreshAfterAppend(logs, a.rfqId, NewEvent(a, Decide(env, LogOf(logs, a.rfqId), a)));
    }
  }

  /** What was appended in between carries one of these ids. */
  ghost predicate NewAreFrom(logs: Logs, later: Logs, used: set<string>) {
    forall r :: NewIn(LogOf(logs, r), LogOf(later, r), used)
  }

  ghost predicate NewIn(log: seq<Event>, later: seq<Event>, used: set<string>) {
    forall i :: |log| <= i < |later| ==> later[i].id in used
  }

  lemma {:induction false} NextIsFrom(env: Env, logs: Logs, a: Action)
    ensures NewAreFrom(logs, Next(env, logs, a), {a.eventId})
  {
    hide Decide, Persistable;
  }

  lemma {:induction false} NewInOn(a: seq<Event>, b: seq<Event>, c: seq<Event>, u1: set<string>, u2: set<string>)
    requires a <= b <= c && NewIn(a, b, u1) && NewIn(b, c, u2)
    ensures NewIn(a, c, u1 + u2)
  {
    forall i | |a| <= i < |c| ensures c[i].id in u1 + u2 {
      if i < |b| { assert c[i] == b[i]; }
    }
  }

  lemma {:induction false} NewAreFromOn(a: Logs, b: Logs, c: Logs, u1: set<string>, u2: set<string>, used: set<string>)
    requires Grown(a, b) && Grown(b, c) && NewAreFrom(a, b, u1) && NewAreFrom(b, c, u2) && u1 <= used && u2 <= used
    ensures NewAreFrom(a, c, used)
  {
    forall r ensures NewIn(LogOf(a, r), LogOf(c, r), used) {
      assert NewIn(LogOf(a, r), LogOf(b, r), u1) && NewIn(LogOf(b, r), LogOf(c, r), u2);
      NewInOn(LogOf(a, r), LogOf(b, r), LogOf(c, r), u1, u2);
    }
  }

  /** None of the events appended to the session in between has one of these ids. */
  ghost predicate Alone(log: seq<Event>, later: seq<Event>, theirs: set<string>) {
    forall i :: |log| <= i < |later| ==> later[i].id !in theirs
  }

  // ---- The enforcer's locked action ----

  /** What the scan decides from its unlocked read. */
  datatype Plan = CleanUp | Act(expire: bool) | LeaveAlone

  function ScanPlan(env: Env, s: Session, now: int): (p: Plan)
    ensures p.CleanUp? <==> Terminal(s.state)
    ensures p == Act(true) <==> !Terminal(s.state) && Reached(env, now, s.rfq.deadline)
  {
    if Terminal(s.state) then CleanUp
    else if Expirable(s.state) && Reached(env, now, s.rfq.deadline) then Act(true)
    else if s.state == CommitPending && s.commitPendingAt.Some?
            && now - s.commitPendingAt.value >= CosignTimeoutMs(env) then Act(false)
    else LeaveAlone
  }

  /** The plan tells ended sessions and due ones from the rest. */
  lemma {:induction false} PlanIsRight(env: Env, logs: Logs, rfqId: string, now: int)
    ensures SessionOf(LogOf(logs, rfqId)).None? ==> !IsDue(env, logs, rfqId, now) && !IsTerminal(logs, rfqId)
    ensures var s := SessionOf(LogOf(logs, rfqId));
            s.Some? ==>
              && (ScanPlan(env, s.value, now).CleanUp? <==> IsTerminal(logs, rfqId))
              && (ScanPlan(env, s.value, now) == Act(true) <==>
                  !IsTerminal(logs, rfqId) && IsDue(env, logs, rfqId, now))
  {
    NoLogNoSession();
    hide Derive;
  }

  /** `tryExpire` or `tryCosignTimeout` after an unlocked read of `seen` events. */
  function EnforcerAction(rfqId: string, expire: bool, seen: nat, t: Times, id: string): Action {
    Action(rfqId, if expire then Expire else TimeOutCosign, true, seen, t, id)
  }

  lemma {:induction false} ExpiryDecides(env: Env, pre: Session, s: Session, log: seq<Event>, a: Action)
    requires a.request.Expire? && a.t.Ordered() && pre.rfq == s.rfq
    requires !Terminal(pre.state) && !Terminal(s.state) && Reached(env, a.t.unlocked, pre.rfq.deadline)
    ensures DecideFor(env, pre, s, log, a) == Append(NegotiationExpired, ENFORCER, map[])
  {
  }

  lemma {:induction false} ExpiredIsTerminal(log: seq<Event>, e: Event)
    requires Accepted(log) && !Terminal(Derive(log).s.state) && e.ty == NegotiationExpired
    ensures Accepted(log + [e]) && Terminal(Derive(log + [e]).s.state)
  {
    DeriveSnoc(log, e);
  }

  /** Read at some earlier length, the session was live and its deadline had passed. */
  ghost predicate PlannedExpiry(env: Env, log: seq<Event>, a: Action) {
    && a.request.Expire? && a.t.Ordered() && a.seen <= |log| && Accepted(log[..a.seen])
    && !Terminal(Derive(log[..a.seen]).s.state)
    && Reached(env, a.t.unlocked, Derive(log[..a.seen]).s.rfq.deadline)
  }

  lemma {:induction false} PlannedIsDecided(env: Env, log: seq<Event>, a: Action)
    requires PlannedExpiry(env, log, a) && Accepted(log) && !Terminal(Derive(log).s.state)
    ensures Decide(env, log, a) == Append(NegotiationExpired, ENFORCER, map[])
  {
    AcceptedIsNotEmpty(log[..a.seen]);
    hide Derive, DecideFor;
    RecordsOnlyGrow(log[..a.seen], log);
    ExpiryDecides(env, Derive(log[..a.seen]).s, Derive(log).s, log, a);
  }

  /** Whatever was appended since the scan's read, the locked expiry leaves a due session terminal. */
  lemma {:induction false} ExpiryTakesEffect(env: Env, logs: Logs, a: Action)
    requires AllAccepted(logs) && a.rfqId in logs && PlannedExpiry(env, logs[a.rfqId], a) && FreshId(logs, a.eventId)
    ensures IsTerminal(Next(env, logs, a), a.rfqId)
  {
    hide Derive, Decide, PlannedExpiry;
    if IsTerminal(logs, a.rfqId) {
      EndedIsLeftAlone(env, logs, a);
    } else {
      PlannedAppends(env, logs, a);
    }
  }

  lemma {:induction false} EndedIsLeftAlone(env: Env, logs: Logs, a: Action)
    requires AllAccepted(logs) && IsTerminal(logs, a.rfqId)
    ensures IsTerminal(Next(env, logs, a), a.rfqId)
  {
    hide Derive, Decide;
    NextGrown(env, logs, a);
    TerminalStays(logs, Next(env, logs, a), a.rfqId);
  }

  lemma {:induction false} PlannedAppends(env: Env, logs: Logs, a: Action)
    requires AllAccepted(logs) && a.rfqId in logs && PlannedExpiry(env, logs[a.rfqId], a) && FreshId(logs, a.eventId)
    requires !IsTerminal(logs, a.rfqId)
    ensures IsTerminal(Next(env, logs, a), a.rfqId)
  {
    var log := logs[a.rfqId];
    PlannedIsDecided(env, log, a);
    hide Derive, Decide;
    ExpiredIsTerminal(log, NewEvent(a, Decide(env, log, a)));
  }

  /** A live session whose deadline has passed, and an event id to say so. */
  ghost predicate MustExpire(env: Env, logs: Logs, rfqId: string, now: int, id: string) {
    IsDue(env, logs, rfqId, now) && !IsTerminal(logs, rfqId) && FreshId(logs, id)
  }

  /** Read and found due, then locked after others went on: the session ends. */
  lemma {:induction false} DueIsExpired(env: Env, logs: Logs, mid: Logs, rfqId: string, t: Times, id: string)
    requires AllAccepted(mid) && Grown(logs, mid) && t.Ordered() && FreshId(mid, id)
    requires MustExpire(env, logs, rfqId, t.unlocked, id)
    ensures var a := EnforcerAction(rfqId, true, |LogOf(logs, rfqId)|, t, id);
            a.seen <= |LogOf(mid, rfqId)| && IsTerminal(Next(env, mid, a), rfqId)
  {
    hide Derive, Next;
    var a := EnforcerAction(rfqId, true, |logs[rfqId]|, t, id);
    assert mid[rfqId][..a.seen] == logs[rfqId];
    ExpiryTakesEffect(env, mid, a);
  }

  // ---- Cosign timeouts ----

  /**
   Pending with its deadline ahead, on a selection at least the cosign timeout old, of this seller. The selection is
   the log's own current one.
   */
  ghost predicate IsStale(env: Env, log: seq<Event>, now: int, seller: string) {
    && Accepted(log) && Derive(log).s.state == CommitPending && !Reached(env, now, Derive(log).s.rfq.deadline)
    && seller != ""
    && exists w: nat :: CurrentWinner(log, w) && TextAt(log[w].payload, KSeller) == Some(seller)
                        && now - log[w].timestamp >= CosignTimeoutMs(env)
  }

  /** The log got a cosign timeout naming this seller, and its session is open to negotiation again. */
  ghost predicate TimedOut(log: seq<Event>, later: seq<Event>, seller: string) {
    && |later| == |log| + 1 && log <= later
    && later[|log|].ty == CosignTimeout && later[|log|].actor == ENFORCER
    && TextAt(later[|log|].payload, KSeller) == Some(seller)
    && Accepted(later) && Derive(later).s.state == Negotiating
  }

  /** The log got an expiry and nothing else. */
  ghost predicate Expires(log: seq<Event>, later: seq<Event>) {
    && |later| == |log| + 1 && log <= later && later[|log|].ty == NegotiationExpired
    && Accepted(later) && Derive(later).s.state == Expired
  }

  /** What the reducer's session shows of a stale selection. */
  ghost predicate ShowsStale(env: Env, s: Session, now: int, seller: string) {
    && s.state == CommitPending && !Reached(env, now, s.rfq.deadline)
    && s.selectedSeller == Some(seller) && seller != ""
    && s.commitPendingAt.Some? && now - s.commitPendingAt.value >= CosignTimeoutMs(env)
  }

  lemma {:induction false} StaleShows(env: Env, log: seq<Event>, now: int, seller: string)
    requires IsStale(env, log, now, seller)
    ensures ShowsStale(env, Derive(log).s, now, seller)
  {
    QuoteFieldsAreCurrent(log);
    hide Derive, Reached, CosignTimeoutMs, CycleMatchesState, SelectionOnRecord, SignatureSince;
    var w: nat :| CurrentWinner(log, w) && TextAt(log[w].payload, KSeller) == Some(seller)
                  && now - log[w].timestamp >= CosignTimeoutMs(env);
    assert Winner(log) == Some(w);
  }

  lemma {:induction false} StalePlan(env: Env, s: Session, now: int, seller: string)
    requires ShowsStale(env, s, now, seller)
    ensures ScanPlan(env, s, now) == Act(false)
  {
  }

  lemma {:induction false} StaleDecides(env: Env, s: Session, log: seq<Event>, a: Action, seller: string)
    requires a.request.TimeOutCosign? && a.t.Ordered() && ShowsStale(env, s, a.t.unlocked, seller)
    ensures DecideFor(env, s, s, log, a) == Append(CosignTimeout, ENFORCER, SellerField(Some(seller)))
  {
  }

  lemma {:induction false} TimeoutApplies(s: Session, e: Event, seller: string)
    requires s.state == CommitPending && s.selectedSeller == Some(seller)
    requires e.ty == CosignTimeout && TextAt(e.payload, KSeller) == Some(seller)
    ensures Apply(s, e).Live? && Apply(s, e).s.state == Negotiating
  {
  }

  /** The enforcer's action on a stale session that nobody touched since the scan read it. */
  lemma {:induction false} StaleTimesOut(env: Env, log: seq<Event>, mid: Logs, rfqId: string, t: Times, id: string,
                                         seller: string)
    requires LogOf(mid, rfqId) == log && t.Ordered() && FreshId(mid, id) && IsStale(env, log, t.unlocked, seller)
    ensures var a := EnforcerAction(rfqId, false, |log|, t, id);
            TimedOut(log, LogOf(Next(env, mid, a), rfqId), seller)
  {
    var a, s := EnforcerAction(rfqId, false, |log|, t, id), Derive(log).s;
    StaleShows(env, log, t.unlocked, seller);
    hide Derive, DecideFor, IsStale, Reached, CosignTimeoutMs;
    assert log[..a.seen] == log;
    StaleDecides(env, s, log, a, seller);
    var e := NewEvent(a, Append(CosignTimeout, ENFORCER, SellerField(Some(seller))));
    TimeoutApplies(s, e, seller);
    DeriveSnoc(log, e);
    assert Decide(env, log, a) == Append(CosignTimeout, ENFORCER, SellerField(Some(seller)));
    assert Next(env, mid, a) == mid[rfqId := log + [e]];
  }

  lemma {:induction false} ExpiryApplies(s: Session, e: Event)
    requires !Terminal(s.state) && e.ty == NegotiationExpired
    ensures Apply(s, e).Live? && Apply(s, e).s.state == Expired
  {
  }

  /** The enforcer's expiry of a session that nobody touched since the scan read it. */
  lemma {:induction false} DueExpires(env: Env, log: seq<Event>, mid: Logs, rfqId: string, t: Times, id: string)
    requires LogOf(mid, rfqId) == log && t.Ordered() && FreshId(mid, id) && Accepted(log)
    requires !Terminal(Derive(log).s.state) && Reached(env, t.unlocked, Derive(log).s.rfq.deadline)
    ensures Expires(log, LogOf(Next(env, mid, EnforcerAction(rfqId, true, |log|, t, id)), rfqId))
  {
    var a, s := EnforcerAction(rfqId, true, |log|, t, id), Derive(log).s;
    hide Derive, DecideFor;
    assert log[..a.seen] == log;
    ExpiryDecides(env, s, s, log, a);
    var e := NewEvent(a, Append(NegotiationExpired, ENFORCER, map[]));
    ExpiryApplies(s, e);
    DeriveSnoc(log, e);
    assert Decide(env, log, a) == Append(NegotiationExpired, ENFORCER, map[]);
    assert Next(env, mid, a) == mid[rfqId := log + [e]];
  }

  lemma {:induction false} TheirsShows(log: seq<Event>, now: seq<Event>, end: seq<Event>, theirs: set<string>)
    requires log <= now <= end && |log| < |now| && NewIn(log, now, theirs)
    ensures !Alone(log, end, theirs)
  {
    assert end[|log|] == now[|log|];
  }

  /** If nobody of those who moved appended to the session, its log is unchanged. */
  lemma {:induction false} AloneIsUntouched(logs: Logs, mid: Logs, later: Logs, r: string, theirs: set<string>)
    requires Grown(logs, mid) && Grown(mid, later) && NewAreFrom(logs, mid, theirs)
    requires Alone(LogOf(logs, r), LogOf(later, r), theirs)
    ensures LogOf(mid, r) == LogOf(logs, r)
  {
    var log, now, end := LogOf(logs, r), LogOf(mid, r), LogOf(later, r);
    assert NewIn(log, now, theirs) && log <= now <= end;
    if |log| < |now| { TheirsShows(log, now, end, theirs); }
  }

  /** Sessions other than the one acted on change only by the others' appends. */
  ghost predicate OnlyTouches(logs: Logs, later: Logs, rfqId: string, theirs: set<string>) {
    forall q :: q != rfqId && Alone(LogOf(logs, q), LogOf(later, q), theirs) ==> LogOf(later, q) == LogOf(logs, q)
  }

  lemma {:induction false} NothingTouched(logs: Logs, rfqId: string, theirs: set<string>)
    ensures OnlyTouches(logs, logs, rfqId, theirs)
  {
  }

  ghost predicate LiveAndDue(env: Env, log: seq<Event>, now: int) {
    Accepted(log) && !Terminal(Derive(log).s.state) && Reached(env, now, Derive(log).s.rfq.deadline)
  }

  /**
   The enforcer's turn at a session that nobody else appended to: past its deadline it expires and no more, stale it
   times out and no more.
   */
  ghost predicate TurnTaken(env: Env, log: seq<Event>, later: seq<Event>, theirs: set<string>, now: int) {
    Alone(log, later, theirs) ==>
      && (LiveAndDue(env, log, now) ==> Expires(log, later))
      && (forall seller :: IsStale(env, log, now, seller) ==> TimedOut(log, later, seller))
  }

  lemma {:induction false} TouchesOne(env: Env, logs: Logs, mid: Logs, a: Action, theirs: set<string>)
    requires Grown(logs, mid) && NewAreFrom(logs, mid, theirs)
    ensures OnlyTouches(logs, mid, a.rfqId, theirs) && OnlyTouches(logs, Next(env, mid, a), a.rfqId, theirs)
  {
    hide Appends, Alone, NewAreFrom;
    var later := Next(env, mid, a);
    forall q | q != a.rfqId && Alone(LogOf(logs, q), LogOf(mid, q), theirs) ensures LogOf(mid, q) == LogOf(logs, q) {
      AloneIsUntouched(logs, mid, mid, q, theirs);
    }
    assert forall q :: q != a.rfqId ==> LogOf(later, q) == LogOf(mid, q);
  }

  lemma {:induction false} SeenStays(logs: Logs, mid: Logs, r: string)
    requires Grown(logs, mid)
    ensures |LogOf(logs, r)| <= |LogOf(mid, r)|
  {
  }

  lemma {:induction false} DueIsNotStale(env: Env, log: seq<Event>, now: int, seller: string)
    ensures !(LiveAndDue(env, log, now) && IsStale(env, log, now, seller))
  {
  }

  /** The plan told by the tests of the unlocked read leads to the turn's outcome. */
  lemma {:induction false} TurnIsTaken(env: Env, logs: Logs, mid: Logs, rfqId: string, expire: bool, t: Times,
                                       id: string, theirs: set<string>)
    requires Grown(logs, mid) && NewAreFrom(logs, mid, theirs) && t.Ordered() && FreshId(mid, id)
    requires expire <==> LiveAndDue(env, LogOf(logs, rfqId), t.unlocked)
    ensures var a := EnforcerAction(rfqId, expire, |LogOf(logs, rfqId)|, t, id);
            TurnTaken(env, LogOf(logs, rfqId), LogOf(Next(env, mid, a), rfqId), theirs, t.unlocked)
  {
    var log := LogOf(logs, rfqId);
    var a := EnforcerAction(rfqId, expire, |log|, t, id);
    NextGrown(env, mid, a);
    hide Next, Derive, IsStale, TimedOut, Expires, NewAreFrom, Alone, FreshId;
    if Alone(log, LogOf(Next(env, mid, a), rfqId), theirs) {
      AloneIsUntouched(logs, mid, Next(env, mid, a), rfqId, theirs);
      if expire { DueExpires(env, log, mid, rfqId, t, id); }
      forall seller | IsStale(env, log, t.unlocked, seller)
        ensures TimedOut(log, LogOf(Next(env, mid, a), rfqId), seller)
      {
        DueIsNotStale(env, log, t.unlocked, seller);
        StaleTimesOut(env, log, mid, rfqId, t, id, seller);
      }
    }
  }

  ghost predicate NothingToDo(env: Env, log: seq<Event>, now: int) {
    !LiveAndDue(env, log, now) && forall seller :: !IsStale(env, log, now, seller)
  }

  lemma {:induction false} DoneIsTaken(env: Env, log: seq<Event>, theirs: set<string>, now: int)
    requires NothingToDo(env, log, now)
    ensures forall later :: TurnTaken(env, log, later, theirs, now)
  {
  }

  lemma {:induction false} EndedIsDone(env: Env, logs: Logs, rfqId: string, now: int)
    requires IsTerminal(logs, rfqId)
    ensures NothingToDo(env, LogOf(logs, rfqId), now)
  {
    hide Derive;
  }

  /** The scan acts exactly where there is something to do. */
  lemma {:induction false} PlanFindsWork(env: Env, log: seq<Event>, now: int)
    ensures SessionOf(log).None? ==> NothingToDo(env, log, now)
    ensures SessionOf(log).Some? ==>
              var p := ScanPlan(env, SessionOf(log).value, now);
              && (!p.Act? ==> NothingToDo(env, log, now))
              && (p.Act? ==> (p.expire <==> LiveAndDue(env, log, now)))
  {
    hide Derive, ScanPlan;
    if SessionOf(log).Some? {
      var s := SessionOf(log).value;
      forall seller | IsStale(env, log, now, seller) ensures ScanPlan(env, s, now) == Act(false) {
        StaleShows(env, log, now, seller);
        StalePlan(env, s, now, seller);
      }
    }
  }

  /** `later` comes from `logs` by the engine steps `trace`, which use at most these event ids. */
  ghost predicate Moved(env: Env, logs: Logs, later: Logs, trace: seq<Action>, used: set<string>) {
    && later == RunFrom(env, logs, trace) && Grown(logs, later) && KeepsFresh(logs, later, used)
    && NewAreFrom(logs, later, used)
  }

  lemma {:induction false} NotMoved(env: Env, logs: Logs, used: set<string>)
    ensures Moved(env, logs, logs, [], used)
  {
  }

  lemma {:induction false} MovedOne(env: Env, logs: Logs, a: Action)
    ensures Moved(env, logs, Next(env, logs, a), [a], {a.eventId})
  {
    hide Next;
    NextGrown(env, logs, a);
    NextKeepsFresh(env, logs, a);
    NextIsFrom(env, logs, a);
    RunFromSnoc(env, logs, [], a);
    assert [] + [a] == [a];
  }

  lemma {:induction false} MovedOn(env: Env, a: Logs, b: Logs, c: Logs, t1: seq<Action>, t2: seq<Action>,
                                   u1: set<string>, u2: set<string>, used: set<string>)
    requires Moved(env, a, b, t1, u1) && Moved(env, b, c, t2, u2) && u1 <= used && u2 <= used
    ensures Moved(env, a, c, t1 + t2, used)
  {
    hide RunFrom, FreshId, NewAreFrom;
    RunFromConcat(env, a, t1, t2);
    GrownTransitive(a, b, c);
    NewAreFromOn(a, b, c, u1, u2, used);
  }

  // ---- Progress of a scan ----

  /** The scan has dealt with the first `n` sessions. */
  ghost predicate Progress(env: Env, start: Logs, logs: Logs, ids: seq<string>, n: nat, busy: set<string>, t0: int) {
    && Grown(start, logs) && n <= |ids|
    && forall j :: 0 <= j < n && ids[j] !in busy && IsDue(env, start, ids[j], t0) ==> IsTerminal(logs, ids[j])
  }

  lemma {:induction false} ProgressStep(env: Env, start: Logs, logs: Logs, next: Logs, ids: seq<string>, n: nat,
                                        busy: set<string>, t0: int)
    requires Progress(env, start, logs, ids, n, busy, t0) && n < |ids| && Grown(logs, next) && AllAccepted(next)
    requires ids[n] !in busy && IsDue(env, start, ids[n], t0) ==> IsTerminal(next, ids[n])
    ensures Progress(env, start, next, ids, n + 1, busy, t0)
  {
    hide IsDue, IsTerminal;
    GrownTransitive(start, logs, next);
    forall j | 0 <= j < n && ids[j] !in busy && IsDue(env, start, ids[j], t0) ensures IsTerminal(next, ids[j]) {
      TerminalStays(logs, next, ids[j]);
    }
  }

  // ---- Stale sessions in a scan ----

  /** Nobody but the scan appended to the session. */
  ghost predicate AloneInScan(log: seq<Event>, later: seq<Event>, others: nat -> seq<Action>) {
    forall j :: Alone(log, later, IdsOf(others(j)))
  }

  /** The session was given its timeout, or has expired because its deadline passed during the scan. */
  ghost predicate StaleDone(env: Env, log: seq<Event>, later: seq<Event>, seller: string, end: int) {
    || TimedOut(log, later, seller)
    || (Expires(log, later) && Accepted(log) && Reached(env, end, Derive(log).s.rfq.deadline))
  }

  /** Of the sessions nobody else appended to, those visited are done and the others as they were. */
  ghost predicate Turns(env: Env, start: Logs, logs: Logs, ids: seq<string>, n: nat, busy: set<string>,
                        others: nat -> seq<Action>, t0: int, end: int)
  {
    n <= |ids| && forall r :: r !in busy && AloneInScan(LogOf(start, r), LogOf(logs, r), others) ==>
      Turn(env, LogOf(start, r), LogOf(logs, r), r in ids[..n], t0, end)
  }

  ghost predicate Turn(env: Env, log: seq<Event>, later: seq<Event>, visited: bool, t0: int, end: int) {
    if !visited then later == log
    else forall seller :: IsStale(env, log, t0, seller) ==> StaleDone(env, log, later, seller, end)
  }

  /** Every listed session stale at `t0` that was not busy and that nobody else appended to is done. */
  ghost predicate StaleAreDone(env: Env, start: Logs, logs: Logs, ids: seq<string>, busy: set<string>,
                               others: nat -> seq<Action>, t0: int, end: int)
  {
    forall r, seller ::
      (r in ids && r !in busy && AloneInScan(LogOf(start, r), LogOf(logs, r), others)
       && IsStale(env, LogOf(start, r), t0, seller)) ==>
        StaleDone(env, LogOf(start, r), LogOf(logs, r), seller, end)
  }

  lemma {:induction false} TurnsStart(env: Env, start: Logs, ids: seq<string>, busy: set<string>,
                                      others: nat -> seq<Action>, t0: int, end: int)
    ensures Turns(env, start, start, ids, 0, busy, others, t0, end)
  {
  }

  lemma {:induction false} TurnsEnd(env: Env, start: Logs, logs: Logs, ids: seq<string>, busy: set<string>,
                                    others: nat -> seq<Action>, t0: int, end: int)
    requires Turns(env, start, logs, ids, |ids|, busy, others, t0, end)
    ensures StaleAreDone(env, start, logs, ids, busy, others, t0, end)
  {
    hide AloneInScan, IsStale, StaleDone;
    assert ids[..|ids|] == ids;
  }

  lemma {:induction false} StillStale(env: Env, log: seq<Event>, t0: int, now: int, seller: string)
    requires IsStale(env, log, t0, seller) && t0 <= now
    ensures IsStale(env, log, now, seller) || LiveAndDue(env, log, now)
  {
    hide Derive;
  }

  lemma {:induction false} TurnOutcome(env: Env, log: seq<Event>, later: seq<Event>, theirs: set<string>, t0: int,
                                       now: int, end: int)
    requires TurnTaken(env, log, later, theirs, now) && Alone(log, later, theirs) && t0 <= now <= end
    ensures Turn(env, log, later, true, t0, end)
  {
    hide Derive, Alone, IsStale;
    forall seller | IsStale(env, log, t0, seller) ensures StaleDone(env, log, later, seller, end) {
      StillStale(env, log, t0, now, seller);
    }
  }

  /** Who is alone at the end was alone so far, and is alone from here on. */
  lemma {:induction false} AloneThroughout(log: seq<Event>, before: seq<Event>, now: seq<Event>,
                                           others: nat -> seq<Action>, n: nat)
    requires log <= before <= now && AloneInScan(log, now, others)
    ensures AloneInScan(log, before, others) && Alone(before, now, IdsOf(others(n)))
  {
    hide IdsOf;
    assert Alone(log, now, IdsOf(others(n)));
    forall j ensures Alone(log, before, IdsOf(others(j))) {
      assert Alone(log, now, IdsOf(others(j)));
      assert forall i :: |log| <= i < |before| ==> before[i] == now[i];
    }
  }

  lemma {:induction false} TurnsGoOn(env: Env, start: Logs, before: Logs, now: Logs, ids: seq<string>, n: nat,
                                     busy: set<string>, others: nat -> seq<Action>, clock: nat -> int)
    requires n < |ids| && Distinct(ids) && Grown(start, before) && Grown(before, now)
    requires clock(0) <= clock(2 * n) <= clock(2 * |ids|)
    requires Turns(env, start, before, ids, n, busy, others, clock(0), clock(2 * |ids|))
    requires OnlyTouches(before, now, ids[n], IdsOf(others(n)))
    requires ids[n] !in busy ==>
               TurnTaken(env, LogOf(before, ids[n]), LogOf(now, ids[n]), IdsOf(others(n)), clock(2 * n))
    ensures Turns(env, start, now, ids, n + 1, busy, others, clock(0), clock(2 * |ids|))
  {
    hide AloneInScan, TurnTaken, Turn, Alone, IdsOf, IsStale, StaleDone;
    var end := clock(2 * |ids|);
    assert ids[..n + 1] == ids[..n] + [ids[n]];
    assert ids[n] !in ids[..n];
    forall r | r !in busy && AloneInScan(LogOf(start, r), LogOf(now, r), others)
      ensures Turn(env, LogOf(start, r), LogOf(now, r), r in ids[..n + 1], clock(0), end)
    {
      AloneThroughout(LogOf(start, r), LogOf(before, r), LogOf(now, r), others, n);
      assert Turn(env, LogOf(start, r), LogOf(before, r), r in ids[..n], clock(0), end);
      if r == ids[n] {
        SameIfNotVisited(env, LogOf(start, r), LogOf(before, r), clock(0), end);
        TurnOutcome(env, LogOf(before, r), LogOf(now, r), IdsOf(others(n)), clock(0), clock(2 * n), end);
      }
    }
  }

  lemma {:induction false} SameIfNotVisited(env: Env, log: seq<Event>, later: seq<Event>, t0: int, end: int)
    requires Turn(env, log, later, false, t0, end)
    ensures later == log
  {
  }

  function IdsOf(actions: seq<Action>): set<string> {
    set i | 0 <= i < |actions| :: actions[i].eventId
  }

  class DeadlineEnforcer {
    const env: Env
    const manager: SessionManager
    var running: bool
    var cleaned: seq<string> // insertion order

    /** Only terminal sessions are ever marked as cleaned up. */
    ghost predicate Valid() reads this, manager, manager.store, manager.locks.Values {
      manager.Valid() && CleanedAreTerminal(manager.store.events)
    }

    ghost predicate CleanedAreTerminal(logs: Logs) reads this`cleaned {
      forall r :: r in cleaned ==> IsTerminal(logs, r)
    }

    constructor (env: Env, manager: SessionManager)
      requires manager.Valid()
      ensures Valid() && this.env == env && this.manager == manager && cleaned == [] && running
    {
      this.env, this.manager, running, cleaned := env, manager, true, [];
    }

    lemma {:induction false} CleanedStay(logs: Logs, later: Logs)
      requires CleanedAreTerminal(logs) && Grown(logs, later) && AllAccepted(later)
      ensures CleanedAreTerminal(later)
    {
      hide IsTerminal;
      forall r | r in cleaned ensures IsTerminal(later, r) { TerminalStays(logs, later, r); }
    }

    /** The locked section of one handler; one that cannot have the lock now, or cannot be at this point, waits. */
    method Handle(a: Action, now: int) returns (ghost trace: seq<Action>)
      requires Valid()
      modifies manager, manager.store, manager.locks.Values
      ensures Valid() && fresh(manager.locks.Values - old(manager.locks.Values))
      ensures forall r :: old(manager.Free(r)) ==> manager.Free(r)
      ensures Moved(env, old(manager.store.events), manager.store.events, trace, {a.eventId})
      ensures old(manager.Free(a.rfqId)) && a.t.Ordered() && a.seen <= |LogOf(old(manager.store.events), a.rfqId)| ==>
                manager.store.events == Next(env, old(manager.store.events), a)
    {
      hide Next, IsTerminal, Moved, Grown;
      trace := [];
      NotMoved(env, manager.store.events, {a.eventId});
      if manager.Free(a.rfqId) && a.t.Ordered() && a.seen <= |LogOf(manager.store.events, a.rfqId)| {
        ghost var logs := manager.store.events;
        MovedOne(env, logs, a);
        NextGrown(env, logs, a);
        var _ := manager.LockedSection(env, a, now);
        trace := [a];
        CleanedStay(logs, manager.store.events);
      }
    }

    /** What other handlers do while the scan waits. */
    method Interlude(others: seq<Action>, now: int) returns (ghost trace: seq<Action>)
      requires Valid()
      modifies manager, manager.store, manager.locks.Values
      ensures Valid() && fresh(manager.locks.Values - old(manager.locks.Values))
      ensures forall r :: old(manager.Free(r)) ==> manager.Free(r)
      ensures Moved(env, old(manager.store.events), manager.store.events, trace, IdsOf(others))
    {
      hide Moved, IsTerminal;
      ghost var start := manager.store.events;
      trace := [];
      NotMoved(env, start, IdsOf(others));
      for i := 0 to |others|
        invariant Valid() && fresh(manager.locks.Values - old(manager.locks.Values))
        invariant forall r :: old(manager.Free(r)) ==> manager.Free(r)
        invariant Moved(env, start, manager.store.events, trace, IdsOf(others))
      {
        ghost var before := manager.store.events;
        ghost var more := Handle(others[i], now);
        assert others[i].eventId in IdsOf(others);
        MovedOn(env, start, before, manager.store.events, trace, more, IdsOf(others), {others[i].eventId},
                IdsOf(others));
        trace := trace + more;
      }
    }

    /** Drops the lock of a terminal session, if nobody uses it, and remembers the session. */
    method CleanUpSession(rfqId: string)
      requires Valid() && IsTerminal(manager.store.events, rfqId)
      modifies this`cleaned, manager`cache, manager`locks
      ensures Valid() && manager.locks.Values <= old(manager.locks.Values)
      ensures forall r :: old(manager.Free(r)) ==> manager.Free(r)
      ensures old(manager.Free(rfqId)) ==> rfqId in cleaned && rfqId !in manager.locks
    {
      hide IsTerminal;
      var removed := manager.RemoveLock(rfqId);
      if removed { cleaned := cleaned + [rfqId]; }
    }

    /** The lock, the tests again, and the append; other handlers go first. */
    method ActLocked(rfqId: string, expire: bool, busy: bool, others: seq<Action>, t: Times, id: string)
      returns (ghost trace: seq<Action>)
      requires Valid() && t.Ordered() && (!busy ==> manager.Free(rfqId))
      modifies manager, manager.store, manager.locks.Values
      ensures Valid() && fresh(manager.locks.Values - old(manager.locks.Values))
      ensures forall r :: old(manager.Free(r)) ==> manager.Free(r)
      ensures var logs := old(manager.store.events);
              && Moved(env, logs, manager.store.events, trace, IdsOf(others) + {id})
              && (!busy && expire && MustExpire(env, logs, rfqId, t.unlocked, id) && id !in IdsOf(others) ==>
                    IsTerminal(manager.store.events, rfqId))
      ensures OnlyTouches(old(manager.store.events), manager.store.events, rfqId, IdsOf(others))
      ensures var log := LogOf(old(manager.store.events), rfqId);
              !busy && FreshId(old(manager.store.events), id) && id !in IdsOf(others)
              && (expire <==> LiveAndDue(env, log, t.unlocked)) ==>
                TurnTaken(env, log, LogOf(manager.store.events, rfqId), IdsOf(others), t.unlocked)
    {
      hide IsTerminal, MustExpire, Next, IdsOf, Moved, Grown, FreshId, OnlyTouches, TurnTaken, LiveAndDue, NewAreFrom;
      ghost var logs := manager.store.events;
      var a := EnforcerAction(rfqId, expire, |LogOf(manager.store.events, rfqId)|, t, id);
      trace := Interlude(others, t.tested);
      ghost var mid := manager.store.events;
      MovedMore(env, logs, mid, trace, IdsOf(others), id);
      TouchesOne(env, logs, mid, a, IdsOf(others));
      SeenStays(logs, mid, rfqId);
      if !busy {
        if FreshId(logs, id) && id !in IdsOf(others) && (expire <==> LiveAndDue(env, LogOf(logs, rfqId), t.unlocked)) {
          TurnIsTaken(env, logs, mid, rfqId, expire, t, id, IdsOf(others));
        }
        if expire && MustExpire(env, logs, rfqId, t.unlocked, id) && id !in IdsOf(others) {
          MustHasFreshId(env, logs, rfqId, t.unlocked, id);
          DueIsExpired(env, logs, mid, rfqId, t, id);
        }
        ghost var more := Handle(a, t.stamp);
        MovedOn(env, logs, mid, manager.store.events, trace, more, IdsOf(others), {id}, IdsOf(others) + {id});
        trace := trace + more;
      }
    }

    /** One session of the scan: clean up if terminal, else expire, else time out the cosign. */
    method Visit(rfqId: string, busy: bool, others: seq<Action>, t: Times, id: string)
      returns (ghost trace: seq<Action>)
      requires Valid() && t.Ordered() && (!busy ==> manager.Free(rfqId))
      modifies this`cleaned, manager, manager.store, manager.locks.Values
      ensures Valid() && fresh(manager.locks.Values - old(manager.locks.Values))
      ensures forall r :: old(manager.Free(r)) ==> manager.Free(r)
      ensures var logs := old(manager.store.events);
              && Moved(env, logs, manager.store.events, trace, IdsOf(others) + {id})
              && (!busy && FreshId(logs, id) && id !in IdsOf(others) && IsDue(env, logs, rfqId, t.unlocked) ==>
                    IsTerminal(manager.store.events, rfqId))
      ensures var logs, now := old(manager.store.events), manager.store.events;
              && OnlyTouches(logs, now, rfqId, IdsOf(others))
              && (!busy && FreshId(logs, id) && id !in IdsOf(others) ==>
                    TurnTaken(env, LogOf(logs, rfqId), LogOf(now, rfqId), IdsOf(others), t.unlocked))
      ensures !busy && IsTerminal(old(manager.store.events), rfqId) ==> rfqId in cleaned
    {
      hide IsTerminal, IsDue, IdsOf, Moved, FreshId, ScanPlan, SessionOf, TurnTaken, LiveAndDue, NothingToDo;
      hide OnlyTouches, Derive;
      ghost var log := LogOf(manager.store.events, rfqId);
      NothingTouched(manager.store.events, rfqId, IdsOf(others));
      NotMoved(env, manager.store.events, IdsOf(others) + {id});
      PlanIsRight(env, manager.store.events, rfqId, t.unlocked);
      PlanFindsWork(env, log, t.unlocked);
      if NothingToDo(env, log, t.unlocked) { DoneIsTaken(env, log, IdsOf(others), t.unlocked); }
      trace := [];
      if rfqId in cleaned {
        EndedIsDone(env, manager.store.events, rfqId, t.unlocked);
        DoneIsTaken(env, log, IdsOf(others), t.unlocked);
        return;
      }
      var session := manager.GetSession(rfqId, t.unlocked);
      if session.None? { return; }
      match ScanPlan(env, session.value, t.unlocked) {
        case CleanUp => CleanUpSession(rfqId);
        case LeaveAlone =>
        case Act(expire) => trace := ActLocked(rfqId, expire, busy, others, t, id);
      }
    }

    /** The loop's next visit, with what it adds to the scan. */
    method VisitNext(ghost start: Logs, ids: seq<string>, n: nat, busy: set<string>, others: nat -> seq<Action>,
                     clock: nat -> int, uuid: nat -> string)
      returns (ghost trace: seq<Action>)
      requires Valid() && n < |ids| && (ids[n] !in busy ==> manager.Free(ids[n]))
      requires Inputs(others, clock, uuid)
      requires Scanned(env, start, manager.store.events, ids, n, busy, others, clock, uuid)
      modifies this`cleaned, manager, manager.store, manager.locks.Values
      ensures Valid() && fresh(manager.locks.Values - old(manager.locks.Values))
      ensures forall r :: old(manager.Free(r)) ==> manager.Free(r)
      ensures Scanned(env, start, manager.store.events, ids, n + 1, busy, others, clock, uuid)
      ensures manager.store.events == RunFrom(env, old(manager.store.events), trace)
    {
      hide IsTerminal, IsDue, IdsOf, Moved, FreshId, RunFrom, Grown, OnlyTouches, TurnTaken, Scanned;
      ghost var before := manager.store.events;
      var t := Times(clock(2 * n), clock(2 * n + 1), clock(2 * n + 1), clock(2 * n + 1), clock(2 * n + 1));
      trace := Visit(ids[n], ids[n] in busy, others(n), t, uuid(n));
      ScanGoesOn(env, start, before, manager.store.events, trace, ids, n, busy, others, clock, uuid);
    }

    /**
     A full scan, with other handlers running whenever it waits: it is a sequence of engine steps, and unless it
     was stopped, every listed session that was not busy and whose deadline had passed when the scan started is
     terminal afterwards.
     */
    method Scan(ids: seq<string>, busy: set<string>, others: nat -> seq<Action>, clock: nat -> int, uuid: nat -> string,
                stop: nat -> bool)
      returns (ghost trace: seq<Action>)
      requires Valid() && forall r :: r !in busy ==> manager.Free(r)
      requires Inputs(others, clock, uuid) && forall i :: FreshId(manager.store.events, uuid(i))
      modifies this, manager, manager.store, manager.locks.Values
      ensures Valid() && Grown(old(manager.store.events), manager.store.events)
      ensures manager.store.events == RunFrom(env, old(manager.store.events), trace)
      ensures running ==> forall r :: r in ids && r !in busy && IsDue(env, old(manager.store.events), r, clock(0)) ==>
                            IsTerminal(manager.store.events, r)
      ensures running && Distinct(ids) ==>
                StaleAreDone(env, old(manager.store.events), manager.store.events, ids, busy, others, clock(0),
                             clock(2 * |ids|))
      ensures running <==> old(running) && forall k :: 0 < k <= |ids| ==> !stop(k)
    {
      hide IsTerminal, IsDue, IdsOf, Moved, FreshId, RunFrom, Grown, Scanned, StaleAreDone, Inputs, Distinct;
      ghost var start := manager.store.events;
      ScanStarts(env, start, ids, busy, others, clock, uuid);
      trace := [];
      var n := 0;
      while n < |ids| && running
        invariant n <= |ids| && Valid() && fresh(manager.locks.Values - old(manager.locks.Values))
        invariant forall r :: r !in busy ==> manager.Free(r)
        invariant running <==> old(running) && forall k :: 0 < k <= n ==> !stop(k)
        invariant Scanned(env, start, manager.store.events, ids, n, busy, others, clock, uuid)
        invariant manager.store.events == RunFrom(env, start, trace)
      {
        ghost var more := VisitNext(start, ids, n, busy, others, clock, uuid);
        RunFromConcat(env, start, trace, more);
        trace := trace + more;
        n := n + 1;
        if stop(n) { running := false; }
      }
      ScanEnds(env, start, manager.store.events, ids, n, busy, others, clock, uuid);
      Tidy(clock(2 * |ids|));
    }

    /** Evicts stale cache entries and forgets the older half of a long list of cleaned sessions. */
    method Tidy(now: int)
      requires Valid()
      modifies this`cleaned, manager`cache
      ensures Valid()
    {
      hide IsTerminal;
      manager.EvictStaleCache(now, CACHE_TTL_MS);
      if |cleaned| > MAX_CLEANED {
        cleaned := cleaned[|cleaned| / 2..];
      }
    }
  }

  /** Clock readings in order, event ids all different and none of the others'. */
  ghost predicate Inputs(others: nat -> seq<Action>, clock: nat -> int, uuid: nat -> string) {
    && (forall i, j :: 0 <= i <= j ==> clock(i) <= clock(j))
    && (forall i, j :: i != j ==> uuid(i) != uuid(j))
    && forall i, j :: uuid(i) !in IdsOf(others(j))
  }

  /** How far the scan has got: sessions dealt with, and ids not used yet. */
  ghost predicate Scanned(env: Env, start: Logs, logs: Logs, ids: seq<string>, n: nat, busy: set<string>,
                          others: nat -> seq<Action>, clock: nat -> int, uuid: nat -> string)
  {
    && Progress(env, start, logs, ids, n, busy, clock(0))
    && (Distinct(ids) ==> Turns(env, start, logs, ids, n, busy, others, clock(0), clock(2 * |ids|)))
    && forall k :: n <= k ==> FreshId(logs, uuid(k))
  }

  lemma {:induction false} ScanStarts(env: Env, start: Logs, ids: seq<string>, busy: set<string>,
                                      others: nat -> seq<Action>, clock: nat -> int, uuid: nat -> string)
    requires forall k :: FreshId(start, uuid(k))
    ensures Scanned(env, start, start, ids, 0, busy, others, clock, uuid) && RunFrom(env, start, []) == start
  {
    hide FreshId;
    TurnsStart(env, start, ids, busy, others, clock(0), clock(2 * |ids|));
  }

  lemma {:induction false} ScanEnds(env: Env, start: Logs, logs: Logs, ids: seq<string>, n: nat, busy: set<string>,
                                    others: nat -> seq<Action>, clock: nat -> int, uuid: nat -> string)
    requires Scanned(env, start, logs, ids, n, busy, others, clock, uuid)
    ensures Grown(start, logs)
    ensures n == |ids| ==> forall r :: r in ids && r !in busy && IsDue(env, start, r, clock(0)) ==> IsTerminal(logs, r)
    ensures n == |ids| && Distinct(ids) ==>
              StaleAreDone(env, start, logs, ids, busy, others, clock(0), clock(2 * |ids|))
  {
    hide IsDue, IsTerminal, Turns, StaleAreDone, Distinct;
    if n == |ids| && Distinct(ids) { TurnsEnd(env, start, logs, ids, busy, others, clock(0), clock(2 * |ids|)); }
  }

  /** One visit more. */
  lemma {:induction false} ScanGoesOn(env: Env, start: Logs, before: Logs, now: Logs, more: seq<Action>,
                                      ids: seq<string>, n: nat, busy: set<string>, others: nat -> seq<Action>,
                                      clock: nat -> int, uuid: nat -> string)
    requires Scanned(env, start, before, ids, n, busy, others, clock, uuid) && n < |ids|
    requires AllAccepted(before) && AllAccepted(now) && Inputs(others, clock, uuid)
    requires Moved(env, before, now, more, IdsOf(others(n)) + {uuid(n)})
    requires ids[n] !in busy && FreshId(before, uuid(n)) && uuid(n) !in IdsOf(others(n)) ==>
               && (IsDue(env, before, ids[n], clock(2 * n)) ==> IsTerminal(now, ids[n]))
               && TurnTaken(env, LogOf(before, ids[n]), LogOf(now, ids[n]), IdsOf(others(n)), clock(2 * n))
    requires OnlyTouches(before, now, ids[n], IdsOf(others(n)))
    ensures now == RunFrom(env, before, more) && Scanned(env, start, now, ids, n + 1, busy, others, clock, uuid)
  {
    hide IsDue, IsTerminal, IdsOf, Moved, FreshId, Progress, RunFrom, Grown, OnlyTouches, TurnTaken, Turns, Distinct;
    ProgressGrows(env, start, before, ids, n, busy, clock(0));
    MovedGrows(env, before, now, more, IdsOf(others(n)) + {uuid(n)});
    VisitProgresses(env, start, before, now, more, ids, n, busy, clock, uuid, IdsOf(others(n)));
    if Distinct(ids) { TurnsGoOn(env, start, before, now, ids, n, busy, others, clock); }
  }

  /** What one visit adds to the progress of the scan. */
  lemma {:induction false} VisitProgresses(env: Env, start: Logs, before: Logs, now: Logs, more: seq<Action>,
                                           ids: seq<string>,
                                           n: nat, busy: set<string>, clock: nat -> int, uuid: nat -> string,
                                           used: set<string>)
    requires Progress(env, start, before, ids, n, busy, clock(0)) && n < |ids| && AllAccepted(now) &&
             AllAccepted(before)
    requires Moved(env, before, now, more, used + {uuid(n)}) && clock(0) <= clock(2 * n)
    requires forall k :: n <= k ==> FreshId(before, uuid(k)) && uuid(k) !in used
    requires forall i, j :: i != j ==> uuid(i) != uuid(j)
    requires ids[n] !in busy && IsDue(env, before, ids[n], clock(2 * n)) ==> IsTerminal(now, ids[n])
    ensures now == RunFrom(env, before, more) && Progress(env, start, now, ids, n + 1, busy, clock(0))
    ensures forall k :: n + 1 <= k ==> FreshId(now, uuid(k))
  {
    hide IsTerminal, IsDue, FreshId, RunFrom;
    if IsDue(env, start, ids[n], clock(0)) { DueStays(env, start, before, ids[n], clock(0), clock(2 * n)); }
    ProgressStep(env, start, before, now, ids, n, busy, clock(0));
  }

  lemma {:induction false} ProgressGrows(env: Env, start: Logs, logs: Logs, ids: seq<string>, n: nat,
                                         busy: set<string>, t0: int)
    requires Progress(env, start, logs, ids, n, busy, t0)
    ensures Grown(start, logs)
  {
  }

  lemma {:induction false} MovedGrows(env: Env, logs: Logs, later: Logs, trace: seq<Action>, used: set<string>)
    requires Moved(env, logs, later, trace, used)
    ensures Grown(logs, later)
  {
  }

  lemma {:induction false} MovedMore(env: Env, logs: Logs, later: Logs, trace: seq<Action>, used: set<string>,
                                     id: string)
    requires Moved(env, logs, later, trace, used)
    ensures Moved(env, logs, later, trace, used + {id}) && Grown(logs, later) && NewAreFrom(logs, later, used)
    ensures id !in used && FreshId(logs, id) ==> FreshId(later, id)
  {
    hide RunFrom, FreshId;
  }

  lemma {:induction false} MustHasFreshId(env: Env, logs: Logs, rfqId: string, now: int, id: string)
    requires MustExpire(env, logs, rfqId, now, id)
    ensures FreshId(logs, id)
  {
  }
}
