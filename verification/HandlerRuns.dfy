/**
 Handlers interleaved at their awaits. A handler reads the session without the lock, arrives at the session's
 lock, waits or times out, is resumed, enters (reads again, through the cache), awaits, appends at most one event
 and leaves; in between any other handler may take its steps, the enforcer may drop the lock of an ended session
 and cache entries may be evicted. Every such interleaving leaves the logs of some run of `Routes`.
 */
module HandlerRuns {
  import opened Protocol
  import opened Reducer
  import opened ReducerHistory
  import opened Routes
  import opened SessionManagement
  import L = SessionLocks
  import EngineRuns

  /** A lock object: the session and how many lock objects of that session were removed before it. */
  type LockId = (string, nat)

  /** Inside holds what the handler read when it entered and how long the log was then. */
  datatype Stage = Begun | Waiting | Inside(read: Derived, count: nat) | Finished | Left

  /** A handler under way: its action, with what it read before the lock. */
  datatype Caller = Caller(a: Action, pre: Derived, lock: LockId, stage: Stage)

  datatype Engine = Engine(
    maxQueue: nat,
    logs: Logs,
    cache: map<string, CacheEntry>,
    active: set<string>, // activeLocks
    epoch: map<string, nat>, // lock objects removed, by session
    locks: map<LockId, L.Lock>,
    callers: map<nat, Caller>,
    done: seq<Action>) // history: the actions that appended, in the order of their appends

  datatype Op =
    | Begin(id: nat, a: Action, at: int)
    | Arrive(id: nat)
    | TimerFires(id: nat)
    | Resume(id: nat)
    | Enter(id: nat, at: int)
    | Finish(id: nat, at: int)
    | Leave(id: nat)
    | RemoveLock(rfqId: string)
    | Evict(cutoff: int)

  function Initial(maxQueue: nat): Engine {
    Engine(maxQueue, map[], map[], {}, map[], map[], map[], [])
  }

  function EpochOf(g: Engine, rfqId: string): nat {
    if rfqId in g.epoch then g.epoch[rfqId] else 0
  }

  function LockOf(g: Engine, l: LockId): L.Lock {
    if l in g.locks then g.locks[l] else L.Initial(g.maxQueue)
  }

  /** `getSession`: the cached session if its count is the log's length, else the fold. */
  function Read(g: Engine, rfqId: string): Derived {
    var log := LogOf(g.logs, rfqId);
    if rfqId in g.cache && g.cache[rfqId].eventCount == |log| then Live(g.cache[rfqId].session) else Derive(log)
  }

  /** The cache after a session was read or appended to. */
  function Cached(logs: Logs, cache: map<string, CacheEntry>, rfqId: string, at: int): map<string, CacheEntry> {
    match Derive(LogOf(logs, rfqId))
    case Live(s) => cache[rfqId := CacheEntry(|LogOf(logs, rfqId)|, s, at)]
    case _ => cache
  }

  function SetStage(g: Engine, id: nat, stage: Stage): Engine
    requires id in g.callers
  {
    g.(callers := g.callers[id := g.callers[id].(stage := stage)])
  }

  /** One step of the caller's own lock object. */
  function LockStep(g: Engine, l: LockId, op: L.Op): Engine {
    g.(locks := g.locks[l := L.Step(LockOf(g, l), op)])
  }

  predicate AtStage(g: Engine, id: nat, inLock: bool) {
    id in g.callers && (if inLock then g.callers[id].stage.Inside? || g.callers[id].stage.Finished?
                        else g.callers[id].stage.Waiting?)
  }

  /** The unlocked read. */
  function BeginStep(g: Engine, id: nat, a: Action, at: int): Engine {
    if id in g.callers then g
    else
      var seen := a.(seen := |LogOf(g.logs, a.rfqId)|);
      g.(callers := g.callers[id := Caller(seen, Read(g, a.rfqId), (a.rfqId, 0), Begun)],
         cache := Cached(g.logs, g.cache, a.rfqId, at))
  }

  /** `withLock`: the current lock object, created if there is none. */
  function ArriveStep(g: Engine, id: nat): Engine {
    if id !in g.callers || !g.callers[id].stage.Begun? then g
    else
      var c := g.callers[id];
      var l := (c.a.rfqId, EpochOf(g, c.a.rfqId));
      LockStep(g.(callers := g.callers[id := c.(lock := l, stage := Waiting)]), l, L.Arrive(id))
  }

  function WaitStep(g: Engine, id: nat, op: L.Op): Engine {
    if AtStage(g, id, false) then LockStep(g, g.callers[id].lock, op) else g
  }

  predicate HoldsLock(g: Engine, id: nat) {
    id in g.callers && g.callers[id].lock in g.locks &&
    var l := g.locks[g.callers[id].lock]; id in l.phase && l.phase[id] == L.Running
  }

  /** The callback starts: the session is marked active and read again. */
  function EnterStep(g: Engine, id: nat, at: int): Engine {
    if !AtStage(g, id, false) || !HoldsLock(g, id) then g
    else
      var r := g.callers[id].a.rfqId;
      SetStage(g, id, Inside(Read(g, r), |LogOf(g.logs, r)|))
        .(active := g.active + {r}, cache := Cached(g.logs, g.cache, r, at))
  }

  /** What the handler makes of what it read before the lock and on entering. */
  function Proposed(env: Env, g: Engine, id: nat): Outcome
    requires id in g.callers && g.callers[id].stage.Inside?
  {
    var c := g.callers[id];
    DecideOn(env, c.pre, c.stage.read, LogOf(g.logs, c.a.rfqId), c.a)
  }

  /** The append at the end of the callback goes through. */
  predicate CanAppend(env: Env, g: Engine, id: nat)
    requires id in g.callers && g.callers[id].stage.Inside?
  {
    var a, o := g.callers[id].a, Proposed(env, g, id);
    o.Append? && a.t.Ordered() && a.rfqId in g.active && Persistable(g.logs, a.rfqId, NewEvent(a, o))
  }

  function Appended(env: Env, g: Engine, id: nat, at: int): Engine
    requires id in g.callers && g.callers[id].stage.Inside? && CanAppend(env, g, id)
  {
    var a := g.callers[id].a;
    var logs := g.logs[a.rfqId := LogOf(g.logs, a.rfqId) + [NewEvent(a, Proposed(env, g, id))]];
    g.(logs := logs, cache := Cached(logs, g.cache, a.rfqId, at), done := g.done + [a])
  }

  function FinishStep(env: Env, g: Engine, id: nat, at: int): Engine {
    if id !in g.callers || !g.callers[id].stage.Inside? then g
    else SetStage(if CanAppend(env, g, id) then Appended(env, g, id, at) else g, id, Finished)
  }

  /** `finally`: the session is no longer marked active, even if another callback of it runs. */
  function LeaveStep(g: Engine, id: nat): Engine {
    if !AtStage(g, id, true) then g
    else
      var c := g.callers[id];
      LockStep(SetStage(g, id, Left).(active := g.active - {c.a.rfqId}), c.lock, L.Release(id))
  }

  predicate Ended(d: Derived) {
    d.Live? && Terminal(d.s.state)
  }

  /** The enforcer's clean-up of an ended session: refused while a callback runs or waiters are queued. */
  function RemoveStep(g: Engine, rfqId: string): Engine {
    var l := (rfqId, EpochOf(g, rfqId));
    if !Ended(Read(g, rfqId)) || rfqId in g.active || l !in g.locks || g.locks[l].waiters != [] then g
    else g.(epoch := g.epoch[rfqId := EpochOf(g, rfqId) + 1], cache := g.cache - {rfqId})
  }

  function Step(env: Env, g: Engine, op: Op): Engine {
    match op
    case Begin(id, a, at) => BeginStep(g, id, a, at)
    case Arrive(id) => ArriveStep(g, id)
    case TimerFires(id) => WaitStep(g, id, L.TimerFires(id))
    case Resume(id) => WaitStep(g, id, L.Resume(id))
    case Enter(id, at) => EnterStep(g, id, at)
    case Finish(id, at) => FinishStep(env, g, id, at)
    case Leave(id) => LeaveStep(g, id)
    case RemoveLock(r) => RemoveStep(g, r)
    case Evict(cutoff) => g.(cache := Recent(g.cache, cutoff))
  }

  function After(env: Env, maxQueue: nat, ops: seq<Op>): Engine {
    if ops == [] then Initial(maxQueue) else Step(env, After(env, maxQueue, ops[..|ops| - 1]), ops[|ops| - 1])
  }

  // ---- The invariant ----

  /** The logs are those of a run, and the cache is right about them. */
  ghost predicate StoreOk(env: Env, g: Engine) {
    g.logs == Routes.Run(env, g.done) && AllAccepted(g.logs) && CacheOk(g.logs, g.cache)
  }

  ghost predicate LocksOk(g: Engine) {
    forall l: LockId :: l in g.locks ==> L.Inv(g.locks[l])
  }

  /** Only an ended session ever lost a lock object. */
  ghost predicate RemovedAreEnded(g: Engine) {
    forall r :: EpochOf(g, r) > 0 ==> Ended(Derive(LogOf(g.logs, r)))
  }

  /** What was read on entering is current, or was already the end of the session. */
  ghost predicate ReadOk(log: seq<Event>, read: Derived, count: nat) {
    count <= |log| && read == Derive(log[..count]) && (count == |log| || Ended(read))
  }

  ghost predicate CallerOk(g: Engine, id: nat)
    requires id in g.callers
  {
    var c := g.callers[id];
    var log := LogOf(g.logs, c.a.rfqId);
    && c.a.seen <= |log| && c.pre == Derive(log[..c.a.seen])
    && (AtStage(g, id, true) || AtStage(g, id, false) ==>
          c.lock.0 == c.a.rfqId && c.lock.1 <= EpochOf(g, c.a.rfqId) && c.lock in g.locks)
    && (AtStage(g, id, true) ==> HoldsLock(g, id))
    && (c.stage.Inside? ==> ReadOk(log, c.stage.read, c.stage.count))
  }

  ghost predicate CallersOk(g: Engine) {
    forall id :: id in g.callers ==> CallerOk(g, id)
  }

  ghost predicate Good(env: Env, g: Engine) {
    StoreOk(env, g) && LocksOk(g) && RemovedAreEnded(g) && CallersOk(g)
  }

  // ---- Reading ----

  lemma {:induction false} ReadIsDerive(g: Engine, rfqId: string)
    requires CacheOk(g.logs, g.cache)
    ensures Read(g, rfqId) == Derive(LogOf(g.logs, rfqId))
  {
    hide Derive;
    if rfqId in g.cache {
      var log := g.logs[rfqId];
      assert log[..|log|] == log;
    }
  }

  lemma {:induction false} CachedIsOk(logs: Logs, cache: map<string, CacheEntry>, rfqId: string, at: int)
    requires CacheOk(logs, cache)
    ensures CacheOk(logs, Cached(logs, cache, rfqId, at))
  {
    var log := LogOf(logs, rfqId);
    if Derive(log).Live? {
      assert log != [];
      WholeLogEntry(log, Derive(log).s, at);
    }
  }

  // ---- A decision taken inside the lock is the decision on the current log ----

  /** On a committed session only a settlement can append, and it does not look at the locked read. */
  lemma {:induction false} CommittedDecision(env: Env, p: Session, s: Session, t: Session, log: seq<Event>, a: Action)
    requires s.state == Committed && t.state == Committed
    ensures DecideFor(env, p, s, log, a).Append? ==> DecideFor(env, p, t, log, a) == DecideFor(env, p, s, log, a)
  {
  }

  /** A session that ended and still grew was committed, and is. */
  lemma {:induction false} EndedAndGrew(log: seq<Event>, n: nat)
    requires Accepted(log) && n < |log| && Ended(Derive(log[..n]))
    ensures Derive(log[..n]).s.state == Derive(log).s.state == Committed
  {
    if Derive(log[..n]).s.state == Committed {
      CommittedIsAbsorbing(log[..n], log);
    } else {
      DeadIsFinal(log[..n], log);
      assert false;
    }
  }

  lemma {:induction false} DecisionIsCurrent(env: Env, log: seq<Event>, a: Action, read: Derived, count: nat)
    requires a.seen <= |log| && (log == [] || Accepted(log)) && ReadOk(log, read, count)
    ensures var o := DecideOn(env, Derive(log[..a.seen]), read, log, a); o.Append? ==> Decide(env, log, a) == o
  {
    hide Derive, DecideFor, DecideCreate;
    if count == |log| {
      assert log[..count] == log;
    } else {
      EndedAndGrew(log, count);
      var pre := Derive(log[..a.seen]);
      if pre.Live? { CommittedDecision(env, pre.s, read.s, Derive(log).s, log, a); }
    }
  }

  // ---- Every step keeps the invariant ----

  /** As far as caller `id` can tell, `h` is `g` with more behind it. */
  ghost predicate Frames(g: Engine, h: Engine, id: nat) {
    && id in g.callers && id in h.callers && h.callers[id] == g.callers[id]
    && var c := g.callers[id];
       var before, now := LogOf(g.logs, c.a.rfqId), LogOf(h.logs, c.a.rfqId);
       && before <= now && EpochOf(g, c.a.rfqId) <= EpochOf(h, c.a.rfqId)
       && (c.lock in g.locks ==> c.lock in h.locks)
       && (AtStage(g, id, true) && HoldsLock(g, id) ==> HoldsLock(h, id))
       && (c.stage.Inside? ==> now == before || Ended(Derive(before)))
  }

  lemma {:induction false} ReadStays(before: seq<Event>, now: seq<Event>, read: Derived, count: nat)
    requires ReadOk(before, read, count) && before <= now && (now == before || Ended(Derive(before)))
    ensures ReadOk(now, read, count)
  {
    hide Derive;
    assert now[..count] == before[..count] && before[..|before|] == before;
  }

  lemma {:induction false} CallerStays(g: Engine, h: Engine, id: nat)
    requires Frames(g, h, id) && CallerOk(g, id)
    ensures CallerOk(h, id)
  {
    hide Derive;
    var c := g.callers[id];
    var before, now := LogOf(g.logs, c.a.rfqId), LogOf(h.logs, c.a.rfqId);
    assert now[..c.a.seen] == before[..c.a.seen];
    if c.stage.Inside? { ReadStays(before, now, c.stage.read, c.stage.count); }
  }

  /** Only caller `me` changed, and it is in order. */
  lemma {:induction false} OthersStay(g: Engine, h: Engine, me: nat)
    requires CallersOk(g) && h.callers.Keys == g.callers.Keys + {me}
    requires forall id :: id in g.callers && id != me ==> Frames(g, h, id)
    requires me in h.callers && CallerOk(h, me)
    ensures CallersOk(h)
  {
    hide CallerOk, Frames;
    forall id | id in h.callers ensures CallerOk(h, id) {
      if id != me { CallerStays(g, h, id); }
    }
  }

  lemma {:induction false} BeginKeeps(env: Env, g: Engine, id: nat, a: Action, at: int)
    requires Good(env, g) && id !in g.callers
    ensures Good(env, BeginStep(g, id, a, at))
  {
    hide Derive, Routes.Run, L.Inv;
    var h, log := BeginStep(g, id, a, at), LogOf(g.logs, a.rfqId);
    ReadIsDerive(g, a.rfqId);
    CachedIsOk(g.logs, g.cache, a.rfqId, at);
    assert log[..|log|] == log;
    OthersStay(g, h, id);
  }

  lemma {:induction false} LockStepKeeps(g: Engine, l: LockId, op: L.Op)
    requires LocksOk(g)
    ensures LocksOk(LockStep(g, l, op))
  {
    hide L.Inv, L.Step;
    L.LockIsFairAndExclusive(g.maxQueue, []);
    L.StepKeeps(LockOf(g, l), op);
  }

  lemma {:induction false} OthersHold(g: Engine, l: LockId, op: L.Op, id: nat)
    requires LocksOk(g) && HoldsLock(g, id) && op.id != id
    ensures HoldsLock(LockStep(g, l, op), id)
  {
    hide L.Inv, L.Step;
    if g.callers[id].lock == l { L.HolderStays(g.locks[l], op, id); }
  }

  /** A caller takes a step of a lock: the others do not notice. */
  lemma {:induction false} LockStepFrames(g: Engine, h: Engine, l: LockId, op: L.Op, id: nat)
    requires LocksOk(g) && id in g.callers && op.id != id
    requires h.callers.Keys >= g.callers.Keys && h.callers[id] == g.callers[id]
    requires h.logs == g.logs && h.epoch == g.epoch && h.locks == LockStep(g, l, op).locks
    ensures Frames(g, h, id)
  {
    hide Derive, L.Step, L.Inv;
    if HoldsLock(g, id) { OthersHold(g, l, op, id); }
  }

  lemma {:induction false} ArrivedIsOk(g: Engine, id: nat)
    requires id in g.callers && CallerOk(g, id) && g.callers[id].stage.Begun?
    ensures id in ArriveStep(g, id).callers && CallerOk(ArriveStep(g, id), id)
  {
    hide Derive, L.Step;
  }

  lemma {:induction false} ArriveKeeps(env: Env, g: Engine, id: nat)
    requires Good(env, g)
    ensures Good(env, ArriveStep(g, id))
  {
    hide Derive, Routes.Run, L.Inv, L.Step, Frames, CallerOk, CacheOk, AllAccepted;
    var h := ArriveStep(g, id);
    if h != g {
      var c := g.callers[id];
      var l := (c.a.rfqId, EpochOf(g, c.a.rfqId));
      ArrivedIsOk(g, id);
      LockStepKeeps(g, l, L.Arrive(id));
      forall x | x in g.callers && x != id ensures Frames(g, h, x) { LockStepFrames(g, h, l, L.Arrive(id), x); }
      OthersStay(g, h, id);
    }
  }

  lemma {:induction false} WaitKeeps(env: Env, g: Engine, id: nat, op: L.Op)
    requires Good(env, g) && op.id == id
    ensures Good(env, WaitStep(g, id, op))
  {
    hide Derive, Routes.Run, L.Inv, L.Step, Frames;
    var h := WaitStep(g, id, op);
    if AtStage(g, id, false) {
      var l := g.callers[id].lock;
      LockStepKeeps(g, l, op);
      forall x | x in g.callers && x != id ensures Frames(g, h, x) { LockStepFrames(g, h, l, op, x); }
      OthersStay(g, h, id);
    }
  }

  /** A step that changes neither logs nor locks nor the lock objects removed. */
  lemma {:induction false} QuietFrames(g: Engine, h: Engine, id: nat)
    requires id in g.callers && id in h.callers && h.callers[id] == g.callers[id]
    requires h.logs == g.logs && h.epoch == g.epoch && h.locks == g.locks
    ensures Frames(g, h, id)
  {
    hide Derive;
  }

  lemma {:induction false} EnterKeeps(env: Env, g: Engine, id: nat, at: int)
    requires Good(env, g)
    ensures Good(env, EnterStep(g, id, at))
  {
    hide Derive, Routes.Run, L.Inv, Frames, CacheOk;
    var h := EnterStep(g, id, at);
    if AtStage(g, id, false) && HoldsLock(g, id) {
      var r := g.callers[id].a.rfqId;
      var log := LogOf(g.logs, r);
      ReadIsDerive(g, r);
      CachedIsOk(g.logs, g.cache, r, at);
      assert log[..|log|] == log;
      forall x | x in g.callers && x != id ensures Frames(g, h, x) { QuietFrames(g, h, x); }
      OthersStay(g, h, id);
    }
  }

  lemma {:induction false} LeftIsOk(g: Engine, id: nat)
    requires AtStage(g, id, true) && CallerOk(g, id)
    ensures id in LeaveStep(g, id).callers && CallerOk(LeaveStep(g, id), id)
  {
    hide Derive, L.Step;
  }

  lemma {:induction false} LeaveKeeps(env: Env, g: Engine, id: nat)
    requires Good(env, g)
    ensures Good(env, LeaveStep(g, id))
  {
    hide Derive, Routes.Run, L.Inv, L.Step, Frames, CallerOk, CacheOk, AllAccepted;
    var h := LeaveStep(g, id);
    if AtStage(g, id, true) {
      var l := g.callers[id].lock;
      LeftIsOk(g, id);
      LockStepKeeps(g, l, L.Release(id));
      forall x | x in g.callers && x != id ensures Frames(g, h, x) { LockStepFrames(g, h, l, L.Release(id), x); }
      OthersStay(g, h, id);
    }
  }

  lemma {:induction false} RemoveKeeps(env: Env, g: Engine, rfqId: string)
    requires Good(env, g)
    ensures Good(env, RemoveStep(g, rfqId))
  {
    hide Derive, Routes.Run, L.Inv;
    var h := RemoveStep(g, rfqId);
    ReadIsDerive(g, rfqId);
    forall id | id in g.callers ensures CallerOk(h, id) { CallerStays(g, h, id); }
  }

  lemma {:induction false} EvictKeeps(env: Env, g: Engine, cutoff: int)
    requires Good(env, g)
    ensures Good(env, g.(cache := Recent(g.cache, cutoff)))
  {
    hide Derive, Routes.Run, L.Inv;
    var h := g.(cache := Recent(g.cache, cutoff));
    forall id | id in g.callers ensures CallerOk(h, id) { CallerStays(g, h, id); }
  }

  // ---- The append ----

  /** The lock keeps handlers apart: two inside one session at once means that session has ended. */
  lemma {:induction false} TwoInsideMeansEnded(g: Engine, x: nat, y: nat)
    requires LocksOk(g) && RemovedAreEnded(g) && CallersOk(g)
    requires AtStage(g, x, true) && AtStage(g, y, true) && g.callers[x].a.rfqId == g.callers[y].a.rfqId
    ensures x == y || Ended(Derive(LogOf(g.logs, g.callers[x].a.rfqId)))
  {
    hide Derive, L.NoLostWaiter, L.FirstInFirstOut, L.Bookkeeping;
    var r := g.callers[x].a.rfqId;
    assert CallerOk(g, x) && CallerOk(g, y);
    if EpochOf(g, r) == 0 {
      var l := g.locks[(r, 0)];
      assert L.Active(l, x) && L.Active(l, y);
    }
  }

  /** The append inside the lock is the append of one engine step on the logs as they are. */
  lemma {:induction false} FinishIsNext(env: Env, g: Engine, id: nat)
    requires StoreOk(env, g) && id in g.callers && g.callers[id].stage.Inside? && CallerOk(g, id) &&
             CanAppend(env, g, id)
    ensures var a := g.callers[id].a;
            && Appends(env, g.logs, a)
            && Next(env, g.logs, a) == g.logs[a.rfqId := LogOf(g.logs, a.rfqId) + [NewEvent(a, Proposed(env, g, id))]]
  {
    hide Derive, DecideOn, Routes.Run, Persistable;
    var c := g.callers[id];
    DecisionIsCurrent(env, LogOf(g.logs, c.a.rfqId), c.a, c.stage.read, c.stage.count);
  }

  lemma {:induction false} EndedStays(log: seq<Event>, e: Event)
    requires Ended(Derive(log)) && Accepted(log + [e])
    ensures Ended(Derive(log + [e]))
  {
    TerminalIsForever(log, log + [e]);
  }

  /** The logs after an append are still accepted, and what was cached is still right. */
  lemma {:induction false} AppendKeepsStore(env: Env, g: Engine, id: nat, at: int)
    requires StoreOk(env, g) && id in g.callers && g.callers[id].stage.Inside? && CallerOk(g, id) &&
             CanAppend(env, g, id)
    ensures StoreOk(env, Appended(env, g, id, at))
  {
    hide Derive, DecideOn, Routes.Run, Next, Appends, CallerOk;
    var a := g.callers[id].a;
    var e := NewEvent(a, Proposed(env, g, id));
    FinishIsNext(env, g, id);
    EngineRuns.RunSnoc(env, g.done, a);
    AppendKeepsCache(g.logs, a.rfqId, e, g.cache);
    CachedIsOk(Appended(env, g, id, at).logs, g.cache, a.rfqId, at);
  }

  lemma {:induction false} AppendKeepsEnded(env: Env, g: Engine, id: nat, at: int)
    requires RemovedAreEnded(g) && id in g.callers && g.callers[id].stage.Inside? && CanAppend(env, g, id)
    ensures RemovedAreEnded(Appended(env, g, id, at))
  {
    hide Derive, DecideOn;
    var a := g.callers[id].a;
    var log := LogOf(g.logs, a.rfqId);
    if Ended(Derive(log)) { EndedStays(log, NewEvent(a, Proposed(env, g, id))); }
    var h := Appended(env, g, id, at);
    forall r | EpochOf(h, r) > 0 ensures Ended(Derive(LogOf(h.logs, r))) {
      assert EpochOf(g, r) > 0;
    }
  }

  lemma {:induction false} AppendFrames(env: Env, g: Engine, id: nat, at: int, x: nat)
    requires LocksOk(g) && RemovedAreEnded(g) && CallersOk(g) && id in g.callers && g.callers[id].stage.Inside?
    requires CanAppend(env, g, id) && x in g.callers && x != id
    ensures Frames(g, SetStage(Appended(env, g, id, at), id, Finished), x)
  {
    hide Derive, DecideOn, Persistable, CallerOk;
    if g.callers[x].stage.Inside? && g.callers[x].a.rfqId == g.callers[id].a.rfqId {
      TwoInsideMeansEnded(g, x, id);
    }
  }

  lemma {:induction false} AppendKeeps(env: Env, g: Engine, id: nat, at: int)
    requires Good(env, g) && id in g.callers && g.callers[id].stage.Inside? && CanAppend(env, g, id)
    ensures Good(env, SetStage(Appended(env, g, id, at), id, Finished))
  {
    hide Derive, Routes.Run, L.Inv, Frames, DecideOn, Persistable, CacheOk;
    assert CallerOk(g, id);
    var h := SetStage(Appended(env, g, id, at), id, Finished);
    AppendKeepsStore(env, g, id, at);
    AppendKeepsEnded(env, g, id, at);
    forall x | x in g.callers && x != id ensures Frames(g, h, x) { AppendFrames(env, g, id, at, x); }
    var before, now := LogOf(g.logs, g.callers[id].a.rfqId), LogOf(h.logs, g.callers[id].a.rfqId);
    assert now[..g.callers[id].a.seen] == before[..g.callers[id].a.seen];
    OthersStay(g, h, id);
  }

  lemma {:induction false} FinishKeeps(env: Env, g: Engine, id: nat, at: int)
    requires Good(env, g)
    ensures Good(env, FinishStep(env, g, id, at))
  {
    hide Good, CanAppend, Appended;
    if id in g.callers && g.callers[id].stage.Inside? {
      if CanAppend(env, g, id) {
        AppendKeeps(env, g, id, at);
      } else {
        RefusalKeeps(env, g, id);
      }
    }
  }

  lemma {:induction false} RefusalKeeps(env: Env, g: Engine, id: nat)
    requires Good(env, g) && id in g.callers && g.callers[id].stage.Inside?
    ensures Good(env, SetStage(g, id, Finished))
  {
    hide Derive, Routes.Run, L.Inv, Frames, CacheOk, AllAccepted;
    var h := SetStage(g, id, Finished);
    assert CallerOk(g, id);
    forall x | x in g.callers && x != id ensures Frames(g, h, x) { QuietFrames(g, h, x); }
    OthersStay(g, h, id);
  }

  lemma {:induction false} StepKeeps(env: Env, g: Engine, op: Op)
    requires Good(env, g)
    ensures Good(env, Step(env, g, op))
  {
    hide Good, FinishStep, ArriveStep, WaitStep, EnterStep, LeaveStep, RemoveStep;
    match op
    case Begin(id, a, at) => if id !in g.callers { BeginKeeps(env, g, id, a, at); }
    case Arrive(id) => ArriveKeeps(env, g, id);
    case TimerFires(id) => WaitKeeps(env, g, id, L.TimerFires(id));
    case Resume(id) => WaitKeeps(env, g, id, L.Resume(id));
    case Enter(id, at) => EnterKeeps(env, g, id, at);
    case Finish(id, at) => FinishKeeps(env, g, id, at);
    case Leave(id) => LeaveKeeps(env, g, id);
    case RemoveLock(r) => RemoveKeeps(env, g, r);
    case Evict(cutoff) => EvictKeeps(env, g, cutoff);
  }

  lemma {:induction false} StaysGood(env: Env, maxQueue: nat, ops: seq<Op>)
    ensures Good(env, After(env, maxQueue, ops))
  {
    if ops == [] {
      assert Good(env, Initial(maxQueue));
    } else {
      hide Good, Step;
      StaysGood(env, maxQueue, ops[..|ops| - 1]);
      StepKeeps(env, After(env, maxQueue, ops[..|ops| - 1]), ops[|ops| - 1]);
    }
  }

  // ---- Main results ----

  /**
   Every interleaving of handlers, lock waits, lock removals and cache evictions leaves exactly the logs of the run
   that takes the handlers one at a time, in the order of their appends.
   */
  lemma {:induction false} EveryInterleavingIsARun(env: Env, maxQueue: nat, ops: seq<Op>)
    ensures After(env, maxQueue, ops).logs == Routes.Run(env, After(env, maxQueue, ops).done)
  {
    StaysGood(env, maxQueue, ops);
  }

  /** While a session has not ended, at most one handler is inside its lock, and what it read there is current. */
  lemma {:induction false} LockedReadIsCurrent(env: Env, maxQueue: nat, ops: seq<Op>, x: nat, y: nat)
    requires var g := After(env, maxQueue, ops);
             && x in g.callers && g.callers[x].stage.Inside? && AtStage(g, y, true)
             && g.callers[x].a.rfqId == g.callers[y].a.rfqId
             && !Ended(Derive(LogOf(g.logs, g.callers[x].a.rfqId)))
    ensures var g := After(env, maxQueue, ops);
            x == y && g.callers[x].stage.read == Derive(LogOf(g.logs, g.callers[x].a.rfqId))
  {
    hide Derive, After, Routes.Run, L.Inv;
    var g := After(env, maxQueue, ops);
    StaysGood(env, maxQueue, ops);
    TwoInsideMeansEnded(g, x, y);
    var log, c := LogOf(g.logs, g.callers[x].a.rfqId), g.callers[x];
    assert CallerOk(g, x);
    if c.stage.count == |log| { assert log[..|log|] == log; }
    else { StillEnded(log, c.stage.count, g.logs, c.a.rfqId); }
  }

  lemma {:induction false} StillEnded(log: seq<Event>, n: nat, logs: Logs, rfqId: string)
    requires AllAccepted(logs) && log == LogOf(logs, rfqId) && n < |log| && Ended(Derive(log[..n]))
    ensures Ended(Derive(log))
  {
    EndedAndGrew(log, n);
  }

  /** A handler inside the lock of a session that has not ended finds the session marked active. */
  ghost predicate Marked(g: Engine) {
    forall x :: AtStage(g, x, true) ==> IsMarked(g, x)
  }

  ghost predicate IsMarked(g: Engine, x: nat)
    requires x in g.callers
  {
    var r := g.callers[x].a.rfqId; r in g.active || Ended(Derive(LogOf(g.logs, r)))
  }

  lemma {:induction false} FinishKeepsMarks(env: Env, g: Engine, id: nat, at: int)
    requires Marked(g)
    ensures Marked(FinishStep(env, g, id, at))
  {
    hide Derive, DecideOn, Cached;
    var h := FinishStep(env, g, id, at);
    forall x | AtStage(h, x, true) ensures IsMarked(h, x) {
      assert IsMarked(g, x);
      var log := LogOf(g.logs, h.callers[x].a.rfqId);
      if h.logs != g.logs && h.callers[x].a.rfqId == g.callers[id].a.rfqId && Ended(Derive(log)) {
        EndedStays(log, NewEvent(g.callers[id].a, Proposed(env, g, id)));
      }
    }
  }

  lemma {:induction false} LeaveKeepsMarks(g: Engine, id: nat)
    requires Marked(g) && LocksOk(g) && RemovedAreEnded(g) && CallersOk(g)
    ensures Marked(LeaveStep(g, id))
  {
    hide Derive, L.Step, L.Inv, CallerOk;
    var h := LeaveStep(g, id);
    forall x | AtStage(h, x, true) ensures IsMarked(h, x) {
      assert IsMarked(g, x);
      if AtStage(g, id, true) && g.callers[x].a.rfqId == g.callers[id].a.rfqId { TwoInsideMeansEnded(g, x, id); }
    }
  }

  lemma {:induction false} EnterKeepsMarks(g: Engine, id: nat, at: int)
    requires Marked(g)
    ensures Marked(EnterStep(g, id, at))
  {
    hide Derive, Cached, Read;
    var h := EnterStep(g, id, at);
    forall x | AtStage(h, x, true) ensures IsMarked(h, x) {
      if x != id { assert IsMarked(g, x); }
    }
  }

  /** Steps outside the callbacks: no handler enters, no mark is taken away, no log changes. */
  ghost predicate Quiet(g: Engine, h: Engine) {
    && h.active == g.active && h.logs == g.logs
    && forall x :: AtStage(h, x, true) ==> AtStage(g, x, true) && h.callers[x] == g.callers[x]
  }

  lemma {:induction false} QuietKeepsMarks(g: Engine, h: Engine)
    requires Marked(g) && Quiet(g, h)
    ensures Marked(h)
  {
    hide Derive;
    forall x | AtStage(h, x, true) ensures IsMarked(h, x) { assert IsMarked(g, x); }
  }

  lemma {:induction false} StepKeepsMarks(env: Env, g: Engine, op: Op)
    requires Marked(g) && Good(env, g)
    ensures Marked(Step(env, g, op))
  {
    hide Marked, FinishStep, LeaveStep, EnterStep, BeginStep, ArriveStep, L.Step, Read;
    hide StoreOk, LocksOk, CallersOk, RemovedAreEnded;
    match op
    case Enter(id, at) => EnterKeepsMarks(g, id, at);
    case Finish(id, at) => FinishKeepsMarks(env, g, id, at);
    case Leave(id) => LeaveKeepsMarks(g, id);
    case Begin(id, a, at) => BeginIsQuiet(g, id, a, at); QuietKeepsMarks(g, Step(env, g, op));
    case Arrive(id) => ArriveIsQuiet(g, id); QuietKeepsMarks(g, Step(env, g, op));
    case TimerFires(id) => QuietKeepsMarks(g, Step(env, g, op));
    case Resume(id) => QuietKeepsMarks(g, Step(env, g, op));
    case RemoveLock(r) => QuietKeepsMarks(g, Step(env, g, op));
    case Evict(cutoff) => QuietKeepsMarks(g, Step(env, g, op));
  }

  lemma {:induction false} BeginIsQuiet(g: Engine, id: nat, a: Action, at: int)
    ensures Quiet(g, BeginStep(g, id, a, at))
  {
    hide Read, Cached;
  }

  lemma {:induction false} ArriveIsQuiet(g: Engine, id: nat)
    ensures Quiet(g, ArriveStep(g, id))
  {
    hide L.Step;
  }

  lemma {:induction false} StaysMarked(env: Env, maxQueue: nat, ops: seq<Op>)
    ensures Marked(After(env, maxQueue, ops))
  {
    if ops != [] {
      hide Good, Step, Marked;
      StaysMarked(env, maxQueue, ops[..|ops| - 1]);
      StaysGood(env, maxQueue, ops[..|ops| - 1]);
      StepKeepsMarks(env, After(env, maxQueue, ops[..|ops| - 1]), ops[|ops| - 1]);
    }
  }

  /**
   No handler is lost either: while the session has not ended, a handler that finishes does just what it would do
   if it ran alone on the logs as they are, appending whenever it would append then.
   */
  lemma {:induction false} FinishTakesItsStep(env: Env, maxQueue: nat, ops: seq<Op>, id: nat, at: int)
    requires var g := After(env, maxQueue, ops);
             && id in g.callers && g.callers[id].stage.Inside? && g.callers[id].a.t.Ordered()
             && !Ended(Derive(LogOf(g.logs, g.callers[id].a.rfqId)))
    ensures var g := After(env, maxQueue, ops);
            After(env, maxQueue, ops + [Finish(id, at)]).logs == Next(env, g.logs, g.callers[id].a)
  {
    var g := After(env, maxQueue, ops);
    assert (ops + [Finish(id, at)])[..|ops|] == ops;
    assert After(env, maxQueue, ops + [Finish(id, at)]) == FinishStep(env, g, id, at);
    hide After;
    StaysMarked(env, maxQueue, ops);
    StaysGood(env, maxQueue, ops);
    LockedReadIsCurrent(env, maxQueue, ops, id, id);
    FinishAlone(env, g, id, at);
  }

  lemma {:induction false} FinishAlone(env: Env, g: Engine, id: nat, at: int)
    requires CallersOk(g) && Marked(g)
    requires id in g.callers && g.callers[id].stage.Inside? && g.callers[id].a.t.Ordered()
    requires !Ended(Derive(LogOf(g.logs, g.callers[id].a.rfqId)))
    requires g.callers[id].stage.read == Derive(LogOf(g.logs, g.callers[id].a.rfqId))
    ensures FinishStep(env, g, id, at).logs == Next(env, g.logs, g.callers[id].a)
  {
    hide Derive, DecideOn, Persistable, Cached;
    assert CallerOk(g, id) && AtStage(g, id, true) && IsMarked(g, id);
    assert Proposed(env, g, id) == Decide(env, LogOf(g.logs, g.callers[id].a.rfqId), g.callers[id].a);
  }

  /** The session's current lock object is free, and this caller is new to it. */
  ghost predicate FreeFor(g: Engine, rfqId: string, id: nat) {
    var l := LockOf(g, (rfqId, EpochOf(g, rfqId)));
    id !in g.callers && id !in l.phase && !l.running && l.waiters == [] && l.maxQueueSize > 0
  }

  function Alone(id: nat, a: Action, at: int): seq<Op> {
    [Begin(id, a, at), Arrive(id), Enter(id, at), Finish(id, at), Leave(id)]
  }

  lemma {:induction false} AfterFive(env: Env, maxQueue: nat, ops: seq<Op>, a: Op, b: Op, c: Op, d: Op, e: Op)
    ensures var g := After(env, maxQueue, ops);
            After(env, maxQueue, ops + [a, b, c, d, e]) ==
            Step(env, Step(env, Step(env, Step(env, Step(env, g, a), b), c), d), e)
  {
    hide Step;
    AfterSnoc(env, maxQueue, ops, a);
    AfterSnoc(env, maxQueue, ops + [a], b);
    AfterSnoc(env, maxQueue, ops + [a] + [b], c);
    AfterSnoc(env, maxQueue, ops + [a] + [b] + [c], d);
    AfterSnoc(env, maxQueue, ops + [a] + [b] + [c] + [d], e);
    assert ops + [a, b, c, d, e] == ops + [a] + [b] + [c] + [d] + [e];
  }

  lemma {:induction false} AfterSnoc(env: Env, maxQueue: nat, ops: seq<Op>, op: Op)
    ensures After(env, maxQueue, ops + [op]) == Step(env, After(env, maxQueue, ops), op)
  {
    hide Step;
    assert (ops + [op])[..|ops|] == ops;
  }

  lemma {:induction false} BeginsFresh(g: Engine, id: nat, a: Action, at: int)
    requires CacheOk(g.logs, g.cache) && FreeFor(g, a.rfqId, id)
    ensures var h, log := BeginStep(g, id, a, at), LogOf(g.logs, a.rfqId);
            && h.logs == g.logs && h.epoch == g.epoch && h.locks == g.locks && h.maxQueue == g.maxQueue
            && CacheOk(h.logs, h.cache)
            && id in h.callers && h.callers[id] == Caller(a.(seen := |log|), Derive(log), (a.rfqId, 0), Begun)
  {
    hide Derive, Cached, Read, CacheOk;
    ReadIsDerive(g, a.rfqId);
    CachedIsOk(g.logs, g.cache, a.rfqId, at);
  }

  lemma {:induction false} ArrivesFree(g: Engine, id: nat)
    requires id in g.callers && g.callers[id].stage.Begun?
    requires var r := g.callers[id].a.rfqId;
             var l := LockOf(g, (r, EpochOf(g, r)));
             id !in l.phase && !l.running && l.waiters == [] && l.maxQueueSize > 0
    ensures var c := g.callers[id];
            var h, l := ArriveStep(g, id), (c.a.rfqId, EpochOf(g, c.a.rfqId));
            && h.logs == g.logs && h.epoch == g.epoch && h.cache == g.cache
            && id in h.callers && h.callers[id] == c.(lock := l, stage := Waiting)
            && l in h.locks && h.locks[l] == L.Step(LockOf(g, l), L.Arrive(id)) && HoldsLock(h, id)
  {
    hide L.Step;
    var r := g.callers[id].a.rfqId;
    L.FreeLockIsTaken(LockOf(g, (r, EpochOf(g, r))), id);
  }

  lemma {:induction false} EntersHeld(g: Engine, id: nat, at: int)
    requires CacheOk(g.logs, g.cache) && id in g.callers && g.callers[id].stage.Waiting? && HoldsLock(g, id)
    ensures var h, r := EnterStep(g, id, at), g.callers[id].a.rfqId;
            && h.logs == g.logs && h.epoch == g.epoch && h.locks == g.locks && r in h.active && id in h.callers
            && h.callers[id] == g.callers[id].(stage := Inside(Derive(LogOf(g.logs, r)), |LogOf(g.logs, r)|))
  {
    hide Derive, Cached, Read, CacheOk;
    ReadIsDerive(g, g.callers[id].a.rfqId);
  }

  /** Through the doors: begun on a free lock, the handler is inside with two current reads. */
  lemma {:induction false} EntersFreeLock(env: Env, g: Engine, id: nat, a: Action, at: int)
    requires CacheOk(g.logs, g.cache) && FreeFor(g, a.rfqId, id)
    ensures var h := EnterStep(ArriveStep(BeginStep(g, id, a, at), id), id, at);
            var log, l := LogOf(g.logs, a.rfqId), (a.rfqId, EpochOf(g, a.rfqId));
            && id in h.callers && h.logs == g.logs && h.epoch == g.epoch && a.rfqId in h.active
            && h.callers[id] == Caller(a.(seen := |log|), Derive(log), l, Inside(Derive(log), |log|))
            && l in h.locks && h.locks[l] == L.Step(LockOf(g, l), L.Arrive(id))
  {
    hide Derive, BeginStep, ArriveStep, EnterStep, L.Step, CacheOk, HoldsLock;
    BeginsFresh(g, id, a, at);
    ArrivesFree(BeginStep(g, id, a, at), id);
    EntersHeld(ArriveStep(BeginStep(g, id, a, at), id), id, at);
  }

  lemma {:induction false} FinishesInside(env: Env, g: Engine, id: nat, at: int)
    requires id in g.callers && g.callers[id].stage.Inside? && g.callers[id].a.t.Ordered()
    requires var c := g.callers[id];
             var log := LogOf(g.logs, c.a.rfqId);
             c.a.rfqId in g.active && c.a.seen == |log| && c.pre == Derive(log) == c.stage.read
    ensures var c := g.callers[id];
            var h := FinishStep(env, g, id, at);
            && h.logs == Next(env, g.logs, c.a) && h.locks == g.locks && h.active == g.active
            && id in h.callers && h.callers[id] == c.(stage := Finished)
  {
    hide Derive, DecideOn, Persistable, Cached;
    var log := LogOf(g.logs, g.callers[id].a.rfqId);
    assert log[..|log|] == log;
    assert Proposed(env, g, id) == Decide(env, log, g.callers[id].a);
  }

  lemma {:induction false} LeavesFree(g: Engine, l: L.Lock, id: nat)
    requires id in g.callers && g.callers[id].stage.Finished? && g.callers[id].lock in g.locks
    requires g.locks[g.callers[id].lock] == L.Step(l, L.Arrive(id))
    requires id !in l.phase && !l.running && l.waiters == [] && l.maxQueueSize > 0
    ensures var h := LeaveStep(g, id);
            && h.logs == g.logs && g.callers[id].a.rfqId !in h.active
            && g.callers[id].lock in h.locks
            && var m := h.locks[g.callers[id].lock]; !m.running && m.waiters == []
  {
    L.FreeLockIsTaken(l, id);
    L.ReleaseFrees(L.Step(l, L.Arrive(id)), id);
  }

  /**
   A handler that finds the lock free and is not interrupted gets through: it takes the engine step of its action, read
   afresh, and leaves the lock free, whatever happened before.
   */
  lemma {:induction false} AloneTakesItsStep(env: Env, maxQueue: nat, ops: seq<Op>, id: nat, a: Action, at: int)
    requires a.t.Ordered() && FreeFor(After(env, maxQueue, ops), a.rfqId, id)
    ensures var g, h := After(env, maxQueue, ops), After(env, maxQueue, ops + Alone(id, a, at));
            && h.logs == Next(env, g.logs, a.(seen := |LogOf(g.logs, a.rfqId)|)) && a.rfqId !in h.active
            && var l := (a.rfqId, EpochOf(g, a.rfqId));
               l in h.locks && !h.locks[l].running && h.locks[l].waiters == []
  {
    var g := After(env, maxQueue, ops);
    StaysGood(env, maxQueue, ops);
    AfterFive(env, maxQueue, ops, Begin(id, a, at), Arrive(id), Enter(id, at), Finish(id, at), Leave(id));
    hide After, BeginStep, ArriveStep, EnterStep, FinishStep, LeaveStep, Derive, L.Step, CallersOk, LocksOk, Next;
    hide LockOf;
    EntersFreeLock(env, g, id, a, at);
    var inside := EnterStep(ArriveStep(BeginStep(g, id, a, at), id), id, at);
    FinishesInside(env, inside, id, at);
    LeavesFree(FinishStep(env, inside, id, at), LockOf(g, (a.rfqId, EpochOf(g, a.rfqId))), id);
  }

  /**
   Exclusion alone does not survive lock removal: the guard does not see a waiter that was handed the lock and has
   not entered, so a newcomer gets a new lock beside it. That only happens to ended sessions.
   */
  lemma {:induction false} RemovalSplitsLock(g: Engine, rfqId: string, x: nat, y: nat)
    requires CacheOk(g.logs, g.cache) && Ended(Derive(LogOf(g.logs, rfqId))) && rfqId !in g.active && g.maxQueue > 0
    requires x in g.callers && g.callers[x].lock == (rfqId, EpochOf(g, rfqId)) && g.callers[x].lock in g.locks
    requires L.Active(g.locks[g.callers[x].lock], x) && g.locks[g.callers[x].lock].waiters == []
    requires y in g.callers && g.callers[y].stage.Begun? && g.callers[y].a.rfqId == rfqId
    requires (rfqId, EpochOf(g, rfqId) + 1) !in g.locks && x != y
    ensures var h := ArriveStep(RemoveStep(g, rfqId), y);
            && h.callers[x].lock in h.locks && L.Active(h.locks[h.callers[x].lock], x)
            && HoldsLock(h, y) && h.callers[x].lock != h.callers[y].lock
  {
    hide Derive;
    ReadIsDerive(g, rfqId);
  }

  /** So whatever the interleaving, a committed session carries a deal signed by both parties. */
  lemma {:induction false} InterleavedCommitIsDeal(env: Env, maxQueue: nat, ops: seq<Op>, rfqId: string)
    requires env.Valid() && rfqId in After(env, maxQueue, ops).logs
    ensures Accepted(After(env, maxQueue, ops).logs[rfqId])
    ensures var s := Derive(After(env, maxQueue, ops).logs[rfqId]).s;
            s.state == Committed ==> exists i: nat :: EngineRuns.Deal(env, s, i)
  {
    hide After, EngineRuns.Deal;
    EveryInterleavingIsARun(env, maxQueue, ops);
    EngineRuns.CommittedMeansDeal(env, After(env, maxQueue, ops).done, rfqId);
  }
}
