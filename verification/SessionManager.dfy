/**
 `SessionManager`: derived sessions through a count-keyed cache, appends after a dry run inside the lock, cache
 eviction and lock removal; and the handlers' locked sections, proved to take the steps of `Routes.Next`.
 */
module SessionManagement {
  import opened Protocol
  import opened Reducer
  import opened Routes
  import opened EventStore
  import opened SessionLocks

  const MAX_QUEUE_SIZE: nat := 10

  datatype CacheEntry = CacheEntry(eventCount: nat, session: Session, lastAccessedAt: int)

  /** What `getSession` must return for a log. */
  function SessionOf(log: seq<Event>): Option<Session> {
    match Derive(log) case Live(s) => Some(s) case _ => None
  }

  /** The entry is the session of the log prefix it was computed from. */
  ghost predicate EntryOk(log: seq<Event>, entry: CacheEntry) {
    entry.eventCount <= |log| && Derive(log[..entry.eventCount]) == Live(entry.session)
  }

  ghost predicate CacheOk(logs: Logs, cache: map<string, CacheEntry>) {
    forall r :: r in cache ==> r in logs && EntryOk(logs[r], cache[r])
  }

  /** A longer log keeps old entries true of their prefix. */
  lemma {:induction false} EntryStaysOk(log: seq<Event>, e: Event, entry: CacheEntry)
    requires EntryOk(log, entry)
    ensures EntryOk(log + [e], entry)
  {
    assert (log + [e])[..entry.eventCount] == log[..entry.eventCount];
  }

  lemma {:induction false} AppendKeepsCache(logs: Logs, rfqId: string, e: Event, cache: map<string, CacheEntry>)
    requires CacheOk(logs, cache)
    ensures CacheOk(logs[rfqId := LogOf(logs, rfqId) + [e]], cache)
  {
    if rfqId in cache {
      EntryStaysOk(logs[rfqId], e, cache[rfqId]);
    }
  }

  lemma {:induction false} WholeLogEntry(log: seq<Event>, s: Session, now: int)
    requires Derive(log) == Live(s)
    ensures EntryOk(log, CacheEntry(|log|, s, now))
  {
    assert log[..|log|] == log;
  }

  lemma {:induction false} EntryAdded(logs: Logs, cache: map<string, CacheEntry>, rfqId: string, entry: CacheEntry)
    requires CacheOk(logs, cache) && rfqId in logs && EntryOk(logs[rfqId], entry)
    ensures CacheOk(logs, cache[rfqId := entry])
  {
    hide Derive;
  }

  /** An entry as long as the log is the session of the log. */
  lemma {:induction false} EntryIsCurrent(logs: Logs, cache: map<string, CacheEntry>, rfqId: string)
    requires CacheOk(logs, cache) && rfqId in cache && cache[rfqId].eventCount == |logs[rfqId]|
    ensures Derive(logs[rfqId]) == Live(cache[rfqId].session)
  {
    hide Derive;
    assert logs[rfqId][..|logs[rfqId]|] == logs[rfqId];
  }

  lemma {:induction false} NoLogNoSession()
    ensures SessionOf([]) == None
  {
  }

  lemma {:induction false} AppendKeepsAccepted(logs: Logs, rfqId: string, e: Event)
    requires AllAccepted(logs) && Accepted(LogOf(logs, rfqId) + [e])
    ensures AllAccepted(logs[rfqId := LogOf(logs, rfqId) + [e]])
  {
    hide Derive;
  }

  function Recent(cache: map<string, CacheEntry>, cutoff: int): map<string, CacheEntry> {
    map r | r in cache && cache[r].lastAccessedAt >= cutoff :: cache[r]
  }

  lemma {:induction false} RecentIsOk(logs: Logs, cache: map<string, CacheEntry>, cutoff: int)
    requires CacheOk(logs, cache)
    ensures CacheOk(logs, Recent(cache, cutoff))
  {
    hide Derive;
  }

  /** The eviction loop. */
  method DropStale(cache: map<string, CacheEntry>, cutoff: int) returns (kept: map<string, CacheEntry>)
    ensures kept == Recent(cache, cutoff)
  {
    var rest := cache.Keys;
    kept := cache;
    while rest != {}
      invariant rest <= cache.Keys
      invariant forall r :: r in kept <==> r in cache && (r in rest || cache[r].lastAccessedAt >= cutoff)
      invariant forall r :: r in kept ==> kept[r] == cache[r]
    {
      var r :| r in rest;
      rest := rest - {r};
      if cache[r].lastAccessedAt < cutoff { kept := kept - {r}; }
    }
  }

  class SessionManager {
    const store: InMemoryEventStore
    var cache: map<string, CacheEntry>
    var activeLocks: set<string>
    var locks: map<string, SessionLock>
    var nextCaller: nat // names the callers of the locks

    /** One lock object per session, and callers not named yet are new to all of them. */
    ghost predicate LocksOk() reads this`locks, this`nextCaller, locks.Values {
      && (forall r :: r in locks ==> LockOk(locks[r]))
      && (forall r, q :: r in locks && q in locks && r != q ==> locks[r] != locks[q])
    }

    ghost predicate LockOk(lock: SessionLock) reads this`nextCaller, lock {
      lock.maxQueueSize == MAX_QUEUE_SIZE && forall id :: id in lock.phase ==> id < nextCaller
    }

    /**
     Every stored log is accepted by the reducer, and every cache entry is the session of the log prefix it
     was computed from; an entry whose count equals the log's length is therefore current.
     */
    ghost predicate Valid() reads this, store, locks.Values {
      store.Valid() && AllAccepted(store.events) && CacheOk(store.events, cache) && LocksOk()
    }

    /** Nobody runs inside the session's lock, was handed it or waits for it. */
    predicate Free(rfqId: string) reads this, if rfqId in locks then {locks[rfqId]} else {} {
      rfqId !in activeLocks && (rfqId in locks ==> !locks[rfqId].running && locks[rfqId].waiters == [])
    }

    constructor (store: InMemoryEventStore)
      requires store.Valid() && store.events == map[]
      ensures Valid() && this.store == store && activeLocks == {} && locks == map[]
    {
      this.store := store;
      cache, activeLocks, locks, nextCaller := map[], {}, map[], 0;
    }

    /** Always the session of the whole stored log, cached or not. */
    method GetSession(rfqId: string, now: int) returns (s: Option<Session>)
      requires Valid()
      modifies this`cache
      ensures Valid()
      ensures s == SessionOf(LogOf(store.events, rfqId))
      ensures forall r :: r in cache ==> r == rfqId || r in old(cache)
    {
      hide Derive, CacheOk, LocksOk;
      if rfqId !in store.events {
        NoLogNoSession();
        return None;
      }
      var log := store.events[rfqId];
      var entry: CacheEntry;
      if rfqId in cache && cache[rfqId].eventCount == |log| {
        EntryIsCurrent(store.events, cache, rfqId);
        entry := cache[rfqId].(lastAccessedAt := now);
      } else {
        var derived := DeriveState(log);
        entry := CacheEntry(|log|, derived.s, now);
      }
      WholeLogEntry(log, entry.session, now);
      EntryAdded(store.events, cache, rfqId, entry);
      cache := cache[rfqId := entry];
      s := Some(entry.session);
    }

    /**
     Appends if and only if the caller is inside the session's lock, the reducer accepts the longer log and
     the store accepts the event; otherwise the log is untouched.
     */
    method AppendEvent(rfqId: string, event: Event, now: int) returns (r: Option<Session>)
      requires Valid()
      modifies this`cache, store
      ensures Valid()
      ensures r.Some? <==> rfqId in activeLocks && Persistable(old(store.events), rfqId, event)
      ensures r.Some? ==> store.events == old(store.events)[rfqId := LogOf(old(store.events), rfqId) + [event]]
      ensures r.Some? ==> r == SessionOf(store.events[rfqId])
      ensures r.None? ==> store.events == old(store.events)
    {
      hide Derive, CacheOk, LocksOk;
      if rfqId !in activeLocks { return None; }
      var current := LogOf(store.events, rfqId);
      var candidate := DeriveState(current + [event]);
      if !candidate.Live? { return None; }
      var stored := store.Append(rfqId, event);
      if !stored { return None; }
      AppendKeepsCache(old(store.events), rfqId, event, cache);
      AppendKeepsAccepted(old(store.events), rfqId, event);
      var log := store.events[rfqId];
      WholeLogEntry(log, candidate.s, now);
      EntryAdded(store.events, cache, rfqId, CacheEntry(|log|, candidate.s, now));
      cache := cache[rfqId := CacheEntry(|log|, candidate.s, now)];
      r := Some(candidate.s);
    }

    /** Dropping entries can only cost a recomputation. */
    method EvictStaleCache(now: int, maxAgeMs: int)
      requires Valid()
      modifies this`cache
      ensures Valid()
      ensures cache == Recent(old(cache), now - maxAgeMs)
    {
      hide CacheOk, LocksOk, Recent;
      var kept := DropStale(cache, now - maxAgeMs);
      RecentIsOk(store.events, cache, now - maxAgeMs);
      cache := kept;
    }

    /** Refused while a callback runs or waiters are queued. */
    method RemoveLock(rfqId: string) returns (removed: bool)
      requires Valid()
      modifies this`cache, this`locks
      ensures Valid() && forall q :: q != rfqId ==> (Free(q) <==> old(Free(q)))
      ensures old(Free(rfqId)) ==> Free(rfqId)
      ensures removed <==> rfqId !in activeLocks && (rfqId in old(locks) ==> old(locks)[rfqId].Pending() == 0)
      ensures cache == old(cache) || cache == old(cache) - {rfqId}
      ensures locks == if removed then old(locks) - {rfqId} else old(locks)
    {
      if rfqId in activeLocks { return false; }
      if rfqId !in locks { return true; }
      if locks[rfqId].Pending() > 0 { return false; }
      locks := locks - {rfqId};
      cache := cache - {rfqId};
      removed := true;
    }

    method GetOrCreateLock(rfqId: string) returns (lock: SessionLock)
      requires Valid()
      modifies this`locks
      ensures Valid() && rfqId in locks && locks[rfqId] == lock
      ensures rfqId in old(locks) ==> locks == old(locks)
      ensures rfqId !in old(locks) ==> fresh(lock) && lock.State() == Initial(MAX_QUEUE_SIZE)
      ensures rfqId !in old(locks) ==> locks == old(locks)[rfqId := lock]
    {
      if rfqId in locks { return locks[rfqId]; }
      lock := new SessionLock(MAX_QUEUE_SIZE);
      locks := locks[rfqId := lock];
    }

    /** The callback of `withLock`: mark active, read, decide on what was read, append, unmark. */
    method Callback(env: Env, a: Action, now: int) returns (r: Option<Session>)
      requires Valid() && a.rfqId !in activeLocks
      requires a.t.Ordered() && a.seen <= |LogOf(store.events, a.rfqId)|
      modifies this`cache, this`activeLocks, store
      ensures Valid() && activeLocks == old(activeLocks)
      ensures store.events == Next(env, old(store.events), a)
      ensures r.Some? <==> Appends(env, old(store.events), a)
    {
      hide Derive, DecideOn, CacheOk, LocksOk;
      activeLocks := activeLocks + {a.rfqId};
      var log := LogOf(store.events, a.rfqId);
      var pre := DeriveState(log[..a.seen]);
      var session := GetSession(a.rfqId, now);
      var o := DecideOn(env, pre, if session.Some? then Live(session.value) else NoSession, log, a);
      ReadDecides(env, log, a, session);
      r := None;
      if o.Append? {
        r := AppendEvent(a.rfqId, NewEvent(a, o), now);
      }
      activeLocks := activeLocks - {a.rfqId};
    }

    /** The start of `run` on a free lock. */
    method Acquire(rfqId: string) returns (lock: SessionLock, me: nat)
      requires Valid() && Free(rfqId)
      modifies this`locks, this`nextCaller, if rfqId in locks then {locks[rfqId]} else {}
      ensures Valid() && rfqId in locks && locks[rfqId] == lock
      ensures me in lock.phase && lock.phase[me] == Running && lock.waiters == []
      ensures rfqId in old(locks) ==> locks == old(locks)
      ensures rfqId !in old(locks) ==> fresh(lock) && locks == old(locks)[rfqId := lock]
    {
      hide Step, CacheOk, AllAccepted;
      lock := GetOrCreateLock(rfqId);
      me := nextCaller;
      nextCaller := nextCaller + 1;
      FreeLockIsTaken(lock.State(), me);
      var _ := lock.Arrive(me);
    }

    /** A handler's locked section, lock and all: its effect on the logs is exactly `Next`. */
    method LockedSection(env: Env, a: Action, now: int) returns (r: Option<Session>)
      requires Valid() && Free(a.rfqId)
      requires a.t.Ordered() && a.seen <= |LogOf(store.events, a.rfqId)|
      modifies this`cache, this`activeLocks, this`locks, this`nextCaller, store
      modifies if a.rfqId in locks then {locks[a.rfqId]} else {}
      ensures Valid() && activeLocks == old(activeLocks) && Free(a.rfqId)
      ensures a.rfqId in locks && (a.rfqId in old(locks) ==> locks == old(locks))
      ensures a.rfqId !in old(locks) ==> fresh(locks[a.rfqId]) && locks == old(locks)[a.rfqId := locks[a.rfqId]]
      ensures store.events == Next(env, old(store.events), a)
      ensures r.Some? <==> Appends(env, old(store.events), a)
    {
      hide Derive, Appends, Next, CacheOk, Step, AllAccepted;
      var lock, me := Acquire(a.rfqId);
      r := Callback(env, a, now);
      ReleaseFrees(lock.State(), me);
      lock.Release(me);
    }
  }

  /** Deciding on what was read through the cache is deciding on the log. */
  lemma {:induction false} ReadDecides(env: Env, log: seq<Event>, a: Action, session: Option<Session>)
    requires a.seen <= |log| && (log == [] || Accepted(log)) && session == SessionOf(log)
    ensures DecideOn(env, Derive(log[..a.seen]), if session.Some? then Live(session.value) else NoSession, log, a) ==
            Decide(env, log, a)
  {
    hide DecideFor, DecideCreate;
  }
}
