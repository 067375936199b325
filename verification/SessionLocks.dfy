/**
 `SessionLock`: the per-session FIFO mutex. Callers arrive, time out while queued, are handed the lock by a
 release, start running later (the promise continuation), and release. `Step` is the transition system,
 the class is the object whose methods take those steps.
 */
module SessionLocks {
  import opened Collections

  /** Handed: woken by a release, continuation not started. */
  datatype Phase = Queued | Handed | Running | Done | TimedOut

  datatype Lock = Lock(
    maxQueueSize: nat,
    running: bool,
    waiters: seq<nat>,
    settled: set<nat>, // waiters whose promise is decided
    phase: map<nat, Phase>, // every caller admitted so far
    timedOut: set<nat>,
    arrived: seq<nat>, // in arrival order
    granted: seq<nat>) // in the order they got the lock

  datatype Op = Arrive(id: nat) | TimerFires(id: nat) | Resume(id: nat) | Release(id: nat)

  function Initial(maxQueueSize: nat): Lock {
    Lock(maxQueueSize, false, [], {}, map[], {}, [], [])
  }

  /** `run` up to its first wait; a full queue is refused even when nobody holds the lock. */
  function ArriveStep(l: Lock, id: nat): Lock {
    if id in l.phase || |l.waiters| >= l.maxQueueSize then l
    else if !l.running then
      l.(running := true, phase := l.phase[id := Running], arrived := l.arrived + [id], granted := l.granted + [id])
    else
      l.(waiters := l.waiters + [id], phase := l.phase[id := Queued], arrived := l.arrived + [id])
  }

  /** `indexOf` then `splice`. */
  function Splice(s: seq<nat>, id: nat): seq<nat> {
    if s == [] then [] else if s[0] == id then s[1..] else [s[0]] + Splice(s[1..], id)
  }

  /** The acquisition timer: a no-op once the waiter is settled. Callers that never queued have no timer. */
  function TimerStep(l: Lock, id: nat): Lock {
    if id !in l.phase || l.phase[id] != Queued || id in l.settled then l
    else l.(settled := l.settled + {id}, waiters := Splice(l.waiters, id), phase := l.phase[id := TimedOut],
              timedOut := l.timedOut + {id})
  }

  function ResumeStep(l: Lock, id: nat): Lock {
    if id in l.phase && l.phase[id] == Handed then l.(phase := l.phase[id := Running]) else l
  }

  /** `release`: shift the first waiter and resolve it. Resolving a settled waiter would do nothing. */
  function ReleaseStep(l: Lock, id: nat): Lock {
    if id !in l.phase || l.phase[id] != Running then l
    else
      var m := l.(phase := l.phase[id := Done]);
      if l.waiters == [] then m.(running := false)
      else
        var next := l.waiters[0];
        var n := m.(waiters := l.waiters[1..]);
        if next in l.settled then n
        else n.(settled := l.settled + {next}, phase := m.phase[next := Handed], granted := l.granted + [next])
  }

  function Step(l: Lock, op: Op): Lock {
    match op
    case Arrive(id) => ArriveStep(l, id)
    case TimerFires(id) => TimerStep(l, id)
    case Resume(id) => ResumeStep(l, id)
    case Release(id) => ReleaseStep(l, id)
  }

  function Run(maxQueueSize: nat, ops: seq<Op>): Lock {
    if ops == [] then Initial(maxQueueSize) else Step(Run(maxQueueSize, ops[..|ops| - 1]), ops[|ops| - 1])
  }

  // ---- The invariant ----

  /** Holds the lock or has been handed it. */
  predicate Active(l: Lock, id: nat) {
    id in l.phase && (l.phase[id] == Handed || l.phase[id] == Running)
  }

  predicate Waits(l: Lock, id: nat) {
    id in l.phase && l.phase[id] == Queued
  }

  ghost predicate Exclusive(l: Lock) {
    && (forall a, b :: Active(l, a) && Active(l, b) ==> a == b)
    && (l.running ==> exists a :: Active(l, a))
    && (forall a :: Active(l, a) ==> l.running)
  }

  ghost predicate NoLostWaiter(l: Lock) {
    && (forall id :: id in l.waiters <==> Waits(l, id))
    && (forall id :: id in l.waiters ==> id !in l.settled)
    && Distinct(l.waiters)
    && (l.waiters != [] ==> l.running)
    && |l.waiters| <= l.maxQueueSize
  }

  /** The callers that did not time out, in arrival order. */
  function Survivors(arrived: seq<nat>, timedOut: set<nat>): seq<nat> {
    if arrived == [] then []
    else
      var id := arrived[|arrived| - 1];
      Survivors(arrived[..|arrived| - 1], timedOut) + (if id in timedOut then [] else [id])
  }

  /** First come, first served: those granted, then those waiting, are the survivors in arrival order. */
  ghost predicate FirstInFirstOut(l: Lock) {
    l.granted + l.waiters == Survivors(l.arrived, l.timedOut)
  }

  ghost predicate Bookkeeping(l: Lock) {
    && (forall id :: id in l.arrived <==> id in l.phase)
    && (forall id :: id in l.timedOut <==> id in l.phase && l.phase[id] == TimedOut)
    && (forall id :: id in l.settled ==> id in l.phase)
    && (forall id :: id in l.granted ==> id in l.phase && l.phase[id] != Queued && l.phase[id] != TimedOut)
  }

  ghost predicate Inv(l: Lock) {
    Exclusive(l) && NoLostWaiter(l) && FirstInFirstOut(l) && Bookkeeping(l)
  }

  // ---- Lists ----

  /** Splicing removes exactly one id from a duplicate-free queue and keeps the order of the others. */
  lemma {:induction false} SpliceAt(s: seq<nat>, id: nat) returns (i: nat)
    requires Distinct(s) && id in s
    ensures i < |s| && s[i] == id && Splice(s, id) == s[..i] + s[i + 1..]
  {
    if s[0] == id {
      i := 0;
    } else {
      i := SpliceAt(s[1..], id);
      i := i + 1;
      assert s[..i] == [s[0]] + s[1..][..i - 1] && s[i + 1..] == s[1..][i..];
    }
  }

  lemma {:induction false} SpliceHas(s: seq<nat>, id: nat, x: nat)
    requires Distinct(s)
    ensures x in Splice(s, id) <==> x in s && x != id
  {
    if s != [] {
      assert x in s <==> x == s[0] || x in s[1..];
      if s[0] != id {
        SpliceHas(s[1..], id, x);
      } else if x in s[1..] {
        var k :| 0 <= k < |s[1..]| && s[1..][k] == x;
        assert s[k + 1] == x && s[0] != s[k + 1];
      }
    }
  }

  lemma {:induction false} SpliceMembers(s: seq<nat>, id: nat)
    requires Distinct(s) && id in s
    ensures Distinct(Splice(s, id)) && |Splice(s, id)| < |s|
    ensures forall x :: x in Splice(s, id) <==> x in s && x != id
  {
    var i := SpliceAt(s, id);
    forall x: nat ensures x in Splice(s, id) <==> x in s && x != id {
      SpliceHas(s, id, x);
    }
  }

  lemma {:induction false} SurvivorMembers(arrived: seq<nat>, timedOut: set<nat>)
    ensures forall x :: x in Survivors(arrived, timedOut) <==> x in arrived && x !in timedOut
  {
    if arrived != [] {
      SurvivorMembers(arrived[..|arrived| - 1], timedOut);
      assert forall x :: x in arrived <==> x in arrived[..|arrived| - 1] || x == arrived[|arrived| - 1];
    }
  }

  /** A timeout removes one id from the survivors: if it sat between `a` and `b`, these remain, in order. */
  lemma {:induction false} TimeoutSurvivors(arrived: seq<nat>, timedOut: set<nat>, id: nat, a: seq<nat>, b: seq<nat>)
    requires Survivors(arrived, timedOut) == a + [id] + b && id !in a && id !in b
    ensures Survivors(arrived, timedOut + {id}) == a + b
  {
    var n := |arrived| - 1;
    var before, last := arrived[..n], arrived[n];
    if last in timedOut {
      TimeoutSurvivors(before, timedOut, id, a, b);
    } else if b == [] {
      assert a + [id] + b == a + [id];
      SnocCancel(Survivors(before, timedOut), last, a, id);
      Untouched(before, timedOut, id);
      assert a + b == a;
    } else {
      var c, y := b[..|b| - 1], b[|b| - 1];
      assert a + [id] + b == (a + [id] + c) + [y];
      SnocCancel(Survivors(before, timedOut), last, a + [id] + c, y);
      TimeoutSurvivors(before, timedOut, id, a, c);
      assert a + b == (a + c) + [y];
    }
  }

  lemma {:induction false} SnocCancel(s: seq<nat>, x: nat, t: seq<nat>, y: nat)
    requires s + [x] == t + [y]
    ensures s == t && x == y
  {
    assert |s + [x]| == |t + [y]|;
    assert s == (s + [x])[..|s|] && t == (t + [y])[..|t|];
    assert (s + [x])[|s|] == x && (t + [y])[|t|] == y;
  }

  lemma {:induction false} Untouched(arrived: seq<nat>, timedOut: set<nat>, id: nat)
    requires id !in Survivors(arrived, timedOut)
    ensures Survivors(arrived, timedOut + {id}) == Survivors(arrived, timedOut)
  {
    if arrived != [] {
      Untouched(arrived[..|arrived| - 1], timedOut, id);
    }
  }

  // ---- Every step keeps the invariant ----

  lemma {:induction false} ReleaseKeepsBooks(l: Lock, id: nat)
    requires Bookkeeping(l) && NoLostWaiter(l)
    ensures Bookkeeping(ReleaseStep(l, id))
  {
    if l.waiters != [] { assert l.waiters[0] in l.waiters; }
  }

  lemma {:induction false} KeepsBooks(l: Lock, op: Op)
    requires Bookkeeping(l) && NoLostWaiter(l)
    ensures Bookkeeping(Step(l, op))
  {
    hide ReleaseStep, Splice;
    if op.Release? { ReleaseKeepsBooks(l, op.id); }
  }

  lemma {:induction false} KeepsExclusion(l: Lock, op: Op)
    requires Exclusive(l) && NoLostWaiter(l)
    ensures Exclusive(Step(l, op))
  {
    var m := Step(l, op);
    if m != l {
      match op
      case Arrive(id) =>
        if l.running {
          var a :| Active(l, a);
          assert Active(m, a);
          assert forall x :: Active(m, x) ==> Active(l, x);
        } else {
          assert Active(m, id);
          assert forall x :: Active(m, x) && x != id ==> Active(l, x);
        }
      case TimerFires(id) =>
        assert Waits(l, id);
        var a :| Active(l, a);
        assert Active(m, a);
        assert forall x :: Active(m, x) ==> Active(l, x);
      case Resume(id) =>
        assert Active(l, id) && Active(m, id);
        assert forall x :: Active(m, x) ==> Active(l, x);
      case Release(id) =>
        assert Active(l, id);
        if l.waiters == [] {
          assert forall x :: Active(m, x) ==> Active(l, x) && x != id;
        } else {
          var next := l.waiters[0];
          assert next in l.waiters;
          assert Active(m, next);
          assert forall x :: Active(m, x) && x != next ==> Active(l, x) && x != id;
        }
    }
  }

  lemma {:induction false} ArrivalKeepsWaiters(l: Lock, id: nat)
    requires NoLostWaiter(l) && Bookkeeping(l)
    ensures NoLostWaiter(ArriveStep(l, id))
  {
    var m := ArriveStep(l, id);
    if m != l {
      assert !Waits(l, id) && id !in l.settled;
      assert forall x :: x in m.waiters <==> x in l.waiters || (l.running && x == id);
      assert forall x :: Waits(m, x) <==> Waits(l, x) || (l.running && x == id);
    }
  }

  lemma {:induction false} TimerKeepsWaiters(l: Lock, id: nat)
    requires NoLostWaiter(l)
    ensures NoLostWaiter(TimerStep(l, id))
  {
    var m := TimerStep(l, id);
    if m != l {
      assert Waits(l, id);
      SpliceMembers(l.waiters, id);
      assert forall x :: Waits(m, x) <==> Waits(l, x) && x != id;
    }
  }

  lemma {:induction false} ReleaseKeepsWaiters(l: Lock, id: nat)
    requires NoLostWaiter(l)
    ensures NoLostWaiter(ReleaseStep(l, id))
  {
    var m := ReleaseStep(l, id);
    if m != l {
      if l.waiters == [] {
        assert forall x :: Waits(m, x) <==> Waits(l, x);
      } else {
        var next := l.waiters[0];
        assert l.waiters == [next] + l.waiters[1..];
        assert forall x :: x in m.waiters <==> x in l.waiters && x != next;
        assert forall x :: Waits(m, x) <==> Waits(l, x) && x != next;
      }
    }
  }

  lemma {:induction false} KeepsWaiters(l: Lock, op: Op)
    requires NoLostWaiter(l) && Bookkeeping(l)
    ensures NoLostWaiter(Step(l, op))
  {
    match op
    case Arrive(id) => ArrivalKeepsWaiters(l, id);
    case TimerFires(id) => TimerKeepsWaiters(l, id);
    case Resume(id) => assert forall x :: Waits(ResumeStep(l, id), x) <==> Waits(l, x);
    case Release(id) => ReleaseKeepsWaiters(l, id);
  }

  lemma {:induction false} TimerKeepsOrder(l: Lock, id: nat)
    requires FirstInFirstOut(l) && NoLostWaiter(l) && Bookkeeping(l) && Waits(l, id)
    ensures l.granted + Splice(l.waiters, id) == Survivors(l.arrived, l.timedOut + {id})
  {
    hide Survivors;
    var i := SpliceAt(l.waiters, id);
    var a, b := l.granted + l.waiters[..i], l.waiters[i + 1..];
    assert l.granted + l.waiters == a + [id] + b;
    TimeoutSurvivors(l.arrived, l.timedOut, id, a, b);
    assert l.granted + Splice(l.waiters, id) == a + b;
  }

  lemma {:induction false} SurvivorsSnoc(arrived: seq<nat>, timedOut: set<nat>, id: nat)
    requires id !in timedOut
    ensures Survivors(arrived + [id], timedOut) == Survivors(arrived, timedOut) + [id]
  {
    assert (arrived + [id])[..|arrived|] == arrived;
  }

  lemma {:induction false} ArrivalKeepsOrder(l: Lock, id: nat)
    requires FirstInFirstOut(l) && (l.waiters != [] ==> l.running) && id !in l.timedOut
    ensures FirstInFirstOut(ArriveStep(l, id))
  {
    SurvivorsSnoc(l.arrived, l.timedOut, id);
    hide Survivors;
    if l.running {
      assert l.granted + (l.waiters + [id]) == (l.granted + l.waiters) + [id];
    } else {
      assert l.granted + l.waiters == l.granted && (l.granted + [id]) + l.waiters == l.granted + [id];
    }
  }

  lemma {:induction false} ReleaseKeepsOrder(l: Lock, id: nat)
    requires FirstInFirstOut(l) && NoLostWaiter(l)
    ensures FirstInFirstOut(ReleaseStep(l, id))
  {
    hide Survivors;
    if l.waiters != [] {
      var next := l.waiters[0];
      assert next in l.waiters;
      assert l.granted + l.waiters == (l.granted + [next]) + l.waiters[1..];
    }
  }

  lemma {:induction false} KeepsOrder(l: Lock, op: Op)
    requires FirstInFirstOut(l) && NoLostWaiter(l) && Bookkeeping(l)
    ensures FirstInFirstOut(Step(l, op))
  {
    hide Survivors, ReleaseStep;
    match op
    case Arrive(id) => if id !in l.phase { ArrivalKeepsOrder(l, id); }
    case TimerFires(id) => if Waits(l, id) { TimerKeepsOrder(l, id); }
    case Resume(id) =>
    case Release(id) => ReleaseKeepsOrder(l, id);
  }

  lemma {:induction false} StepKeeps(l: Lock, op: Op)
    requires Inv(l)
    ensures Inv(Step(l, op))
  {
    KeepsBooks(l, op);
    KeepsExclusion(l, op);
    KeepsWaiters(l, op);
    KeepsOrder(l, op);
  }

  /** Whoever arrives at a free lock gets it. */
  lemma {:induction false} FreeLockIsTaken(l: Lock, id: nat)
    requires id !in l.phase && !l.running && l.waiters == [] && l.maxQueueSize > 0
    ensures var m := Step(l, Arrive(id));
            m.waiters == [] && m.phase.Keys == l.phase.Keys + {id} && m.phase[id] == Running
  {
  }

  /** A release with nobody waiting frees the lock. */
  lemma {:induction false} ReleaseFrees(l: Lock, id: nat)
    requires id in l.phase && l.phase[id] == Running && l.waiters == []
    ensures var m := Step(l, Release(id)); !m.running && m.waiters == [] && m.phase.Keys == l.phase.Keys
  {
  }

  /** Nobody else's step takes the lock away from its holder. */
  lemma {:induction false} HolderStays(l: Lock, op: Op, id: nat)
    requires Inv(l) && op.id != id && id in l.phase && l.phase[id] == Running
    ensures id in Step(l, op).phase && Step(l, op).phase[id] == Running
  {
    if op.Release? && l.waiters != [] {
      assert l.waiters[0] in l.waiters;
    }
  }

  /**
   In every run of arrivals, timeouts, hand-overs and releases: at most one caller holds or has been handed
   the lock, every queued waiter is still unsettled so no wake-up is lost, a queued waiter implies the lock is
   taken, the queue stays within its bound, and grants follow arrival order among those that did not time out.
   */
  lemma {:induction false} LockIsFairAndExclusive(maxQueueSize: nat, ops: seq<Op>)
    ensures Inv(Run(maxQueueSize, ops))
  {
    if ops != [] {
      var l, op := Run(maxQueueSize, ops[..|ops| - 1]), ops[|ops| - 1];
      LockIsFairAndExclusive(maxQueueSize, ops[..|ops| - 1]);
      StepKeeps(l, op);
    }
  }

  /** A release with somebody queued wakes the first in line, whoever timed out meanwhile. */
  lemma {:induction false} ReleaseWakesFirst(maxQueueSize: nat, ops: seq<Op>, id: nat)
    requires var l := Run(maxQueueSize, ops); id in l.phase && l.phase[id] == Running && l.waiters != []
    ensures Active(ReleaseStep(Run(maxQueueSize, ops), id), Run(maxQueueSize, ops).waiters[0])
  {
    LockIsFairAndExclusive(maxQueueSize, ops);
    var l := Run(maxQueueSize, ops);
    assert l.waiters[0] in l.waiters;
  }

  /** The queue lost exactly this caller and kept its order. */
  ghost predicate WithoutOnly(before: seq<nat>, after: seq<nat>, id: nat) {
    exists i :: 0 <= i < |before| && before[i] == id && after == before[..i] + before[i + 1..]
  }

  /**
   No caller is forgotten: in every run an arrival is refused exactly if the queue is full, runs at once if the lock is
   free and is queued last otherwise; a queued caller whose timer fires leaves the queue and nobody else does; a caller
   that was handed the lock runs when it resumes; a release with nobody queued frees the lock.
   */
  lemma {:induction false} NobodyIsForgotten(maxQueueSize: nat, ops: seq<Op>, id: nat)
    ensures var l := Run(maxQueueSize, ops);
            && (id !in l.phase ==>
                  var m := Step(l, Arrive(id));
                  if |l.waiters| >= maxQueueSize then m == l
                  else if l.running then Waits(m, id) && m.waiters == l.waiters + [id] && m.running
                  else id in m.phase && m.phase[id] == Running && m.running && m.waiters == l.waiters)
            && (Waits(l, id) ==>
                  var m := Step(l, TimerFires(id));
                  m.phase == l.phase[id := TimedOut] && WithoutOnly(l.waiters, m.waiters, id) && m.running == l.running)
            && (id in l.phase && l.phase[id] == Handed ==>
                  Step(l, Resume(id)).phase == l.phase[id := Running])
            && (id in l.phase && l.phase[id] == Running && l.waiters == [] ==>
                  !Step(l, Release(id)).running && Step(l, Release(id)).phase == l.phase[id := Done])
  {
    LockIsFairAndExclusive(maxQueueSize, ops);
    SizeIsKept(maxQueueSize, ops);
    var l := Run(maxQueueSize, ops);
    if Waits(l, id) {
      var i := SpliceAt(l.waiters, id);
    }
  }

  lemma {:induction false} SizeIsKept(maxQueueSize: nat, ops: seq<Op>)
    ensures Run(maxQueueSize, ops).maxQueueSize == maxQueueSize
  {
    if ops != [] { SizeIsKept(maxQueueSize, ops[..|ops| - 1]); }
  }

  datatype Admission = Refused | Acquired | MustWait

  /**
   The object: two real fields and the waiters' settled flags; the rest is history for the specification.
   Every method takes exactly its `Step`, so `LockIsFairAndExclusive` speaks about every use of the object.
   */
  class SessionLock {
    const maxQueueSize: nat
    var running: bool
    var waiters: seq<nat>
    var settled: set<nat>
    ghost var phase: map<nat, Phase>
    ghost var timedOut: set<nat>
    ghost var arrived: seq<nat>
    ghost var granted: seq<nat>

    ghost function State(): Lock reads this {
      Lock(maxQueueSize, running, waiters, settled, phase, timedOut, arrived, granted)
    }

    constructor (maxQueueSize: nat)
      ensures State() == Initial(maxQueueSize)
    {
      this.maxQueueSize, running, waiters, settled := maxQueueSize, false, [], {};
      phase, timedOut, arrived, granted := map[], {}, [], [];
    }

    /** `pending` */
    function Pending(): nat reads this { |waiters| }

    method Arrive(id: nat) returns (r: Admission)
      requires id !in phase
      modifies this
      ensures State() == Step(old(State()), Op.Arrive(id))
      ensures r == Refused <==> old(|waiters|) >= maxQueueSize
      ensures r == Acquired <==> old(|waiters|) < maxQueueSize && !old(running)
    {
      if |waiters| >= maxQueueSize { return Refused; }
      arrived := arrived + [id];
      if !running {
        running := true;
        phase, granted := phase[id := Running], granted + [id];
        return Acquired;
      }
      waiters := waiters + [id];
      phase := phase[id := Queued];
      r := MustWait;
    }

    /** Only a caller that was queued has a timer. */
    method TimerFires(id: nat)
      requires id in phase && (phase[id] == Queued || id in settled)
      modifies this
      ensures State() == Step(old(State()), Op.TimerFires(id))
    {
      if id in settled { return; }
      settled := settled + {id};
      waiters := Splice(waiters, id);
      phase, timedOut := phase[id := TimedOut], timedOut + {id};
    }

    /** The woken caller's continuation starts. */
    ghost method Resume(id: nat)
      requires id in phase && phase[id] == Handed
      modifies this
      ensures State() == Step(old(State()), Op.Resume(id))
    {
      phase := phase[id := Running];
    }

    method Release(id: nat)
      requires id in phase && phase[id] == Running
      modifies this
      ensures State() == Step(old(State()), Op.Release(id))
    {
      phase := phase[id := Done];
      if |waiters| > 0 {
        var next := waiters[0];
        waiters := waiters[1..];
        if next !in settled {
          settled := settled + {next};
          phase, granted := phase[next := Handed], granted + [next];
        }
      } else {
        running := false;
      }
    }
  }
}
