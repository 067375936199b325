/**
 `ConnectionTracker`: limits on open event streams. Two maps are kept in step: connection records by id, and per
 session the insertion-ordered set of its connection ids. A connection id "conn-N" is modelled as N.

 Closing a stream calls back into its owner, who normally releases the same connection. Here a callback may
 release any connections at all: `onClose(id)` lists what the callback of connection `id` releases.
 */
module ConnectionTracking {
  import opened Protocol

  const MAX_PER_DID := 3
  const MAX_PER_SESSION := 10

  datatype Connection = Connection(rfqId: string, did: string, isBuyer: bool, openedAt: int)

  datatype Tracker = Tracker(connections: map<nat, Connection>, bySession: map<string, seq<nat>>, nextId: nat)

  const EMPTY := Tracker(map[], map[], 0)

  // ---- The operations ----

  /** `Set.delete` on an insertion-ordered set. */
  function Without(ids: seq<nat>, id: nat): seq<nat> {
    if ids == [] then []
    else if ids[0] == id then Without(ids[1..], id)
    else [ids[0]] + Without(ids[1..], id)
  }

  /** `removeRecord` */
  function Remove(t: Tracker, id: nat): Tracker {
    if id !in t.connections then t
    else
      var rfqId := t.connections[id].rfqId;
      var left := Without(SessionIds(t, rfqId), id);
      Tracker(t.connections - {id},
              if rfqId !in t.bySession then t.bySession
              else if left == [] then t.bySession - {rfqId} else t.bySession[rfqId := left],
              t.nextId)
  }

  function RemoveAll(t: Tracker, ids: seq<nat>): (r: Tracker)
    ensures r.nextId == t.nextId
  {
    if ids == [] then t else Remove(RemoveAll(t, ids[..|ids| - 1]), ids[|ids| - 1])
  }

  function SessionIds(t: Tracker, rfqId: string): seq<nat> {
    if rfqId in t.bySession then t.bySession[rfqId] else []
  }

  function CountDid(ids: seq<nat>, connections: map<nat, Connection>, did: string): nat {
    if ids == [] then 0
    else
      (if ids[0] in connections && connections[ids[0]].did == did then 1 else 0) + CountDid(ids[1..], connections, did)
  }

  function Add(t: Tracker, c: Connection): Tracker {
    var id := t.nextId + 1;
    Tracker(t.connections[id := c], t.bySession[c.rfqId := SessionIds(t, c.rfqId) + [id]], id)
  }

  /** One connection is closed: its callback runs, then its record is removed. */
  function Close(t: Tracker, id: nat, onClose: nat -> seq<nat>): Tracker {
    Remove(RemoveAll(t, onClose(id)), id)
  }

  /** `closeAll` over its snapshot of the session's ids; one already released by an earlier callback is skipped. */
  function CloseEach(t: Tracker, ids: seq<nat>, onClose: nat -> seq<nat>): Tracker {
    if ids == [] then t
    else
      var before := CloseEach(t, ids[..|ids| - 1], onClose);
      var id := ids[|ids| - 1];
      if id in before.connections then Close(before, id, onClose) else before
  }

  /** `findOldestNonBuyer`: the earliest opened, the first listed among equals. */
  function OldestIn(t: Tracker, ids: seq<nat>): (best: Option<nat>)
    ensures best.Some? ==> best.value in ids && best.value in t.connections
  {
    if ids == [] then None
    else
      var before := OldestIn(t, ids[..|ids| - 1]);
      var id := ids[|ids| - 1];
      if id in t.connections && !t.connections[id].isBuyer
         && (before.None? || t.connections[id].openedAt < t.connections[before.value].openedAt) then Some(id)
      else before
  }

  /** `acquire`: the new tracker and, when admitted, the new connection's id. */
  function Acquired(t: Tracker, c: Connection, onClose: nat -> seq<nat>): (Tracker, Option<nat>) {
    var ids := SessionIds(t, c.rfqId);
    if CountDid(ids, t.connections, c.did) >= MAX_PER_DID then (t, None)
    else if |ids| < MAX_PER_SESSION then (Add(t, c), Some(t.nextId + 1))
    else if !c.isBuyer then (t, None)
    else match OldestIn(t, ids)
      case None => (t, None)
      case Some(id) => (Add(Close(t, id, onClose), c), Some(t.nextId + 1))
  }

  predicate Evictable(t: Tracker, rfqId: string, id: nat) {
    id in SessionIds(t, rfqId) && id in t.connections && !t.connections[id].isBuyer
  }

  /** No evictable connection of the session was opened earlier, nor at the same instant with a smaller id. */
  ghost predicate OldestEvictable(t: Tracker, rfqId: string, id: nat) {
    && Evictable(t, rfqId, id)
    && forall x :: Evictable(t, rfqId, x) ==> Older(t, id, x)
  }

  // ---- What every operation keeps ----

  predicate Increasing(ids: seq<nat>) {
    forall i, j :: 0 <= i < j < |ids| ==> ids[i] < ids[j]
  }

  ghost predicate IndexEntryOk(connections: map<nat, Connection>, rfqId: string, ids: seq<nat>) {
    && 0 < |ids| <= MAX_PER_SESSION
    && Increasing(ids)
    && (forall x :: x in ids ==> x in connections && connections[x].rfqId == rfqId)
    && DidsWithinLimit(connections, ids)
  }

  ghost predicate DidsWithinLimit(connections: map<nat, Connection>, ids: seq<nat>) {
    forall did :: CountDid(ids, connections, did) <= MAX_PER_DID
  }

  /** Every connection is listed under its session. */
  ghost predicate Listed(t: Tracker) {
    forall id :: id in t.connections ==> id <= t.nextId && id in SessionIds(t, t.connections[id].rfqId)
  }

  /** The index partitions the connections, holds no empty set, and both limits hold in every session. */
  ghost predicate Valid(t: Tracker) {
    Listed(t) && forall s :: s in t.bySession ==> EntryOk(t, s)
  }

  ghost predicate EntryOk(t: Tracker, s: string) {
    s in t.bySession ==> IndexEntryOk(t.connections, s, t.bySession[s])
  }

  lemma {:induction false} WithoutIs(ids: seq<nat>, id: nat, x: nat)
    ensures x in Without(ids, id) <==> x in ids && x != id
  {
    if ids != [] {
      WithoutIs(ids[1..], id, x);
      assert x in ids <==> x == ids[0] || x in ids[1..];
    }
  }

  lemma {:induction false} WithoutKeepsOrder(ids: seq<nat>, id: nat)
    requires Increasing(ids)
    ensures Increasing(Without(ids, id)) && |Without(ids, id)| <= |ids|
  {
    if ids != [] {
      var rest := Without(ids[1..], id);
      WithoutKeepsOrder(ids[1..], id);
      forall j | 0 <= j < |rest| ensures ids[0] < rest[j] {
        WithoutIs(ids[1..], id, rest[j]);
      }
    }
  }

  lemma {:induction false} WithoutCounts(ids: seq<nat>, connections: map<nat, Connection>, id: nat, did: string)
    ensures CountDid(Without(ids, id), connections - {id}, did) <= CountDid(ids, connections, did)
  {
    if ids != [] {
      WithoutCounts(ids[1..], connections, id, did);
      if ids[0] != id {
        assert Without(ids, id)[0] == ids[0] && Without(ids, id)[1..] == Without(ids[1..], id);
      }
    }
  }

  lemma {:induction false} CountsAgree(ids: seq<nat>, a: map<nat, Connection>, b: map<nat, Connection>, did: string)
    requires forall x :: x in ids ==> x in a && x in b && a[x] == b[x]
    ensures CountDid(ids, a, did) == CountDid(ids, b, did)
  {
    if ids != [] {
      assert forall x :: x in ids[1..] ==> x in ids;
      CountsAgree(ids[1..], a, b, did);
      assert ids[0] in ids;
    }
  }

  lemma {:induction false} CountSnoc(ids: seq<nat>, connections: map<nat, Connection>, id: nat, did: string)
    ensures CountDid(ids + [id], connections, did) ==
            CountDid(ids, connections, did) + (if id in connections && connections[id].did == did then 1 else 0)
  {
    if ids != [] {
      assert (ids + [id])[1..] == ids[1..] + [id];
      CountSnoc(ids[1..], connections, id, did);
    } else {
      assert ids + [id] == [id];
    }
  }

  lemma {:induction false} EntryWithout(t: Tracker, id: nat)
    requires Valid(t) && id in t.connections && Without(SessionIds(t, t.connections[id].rfqId), id) != []
    ensures var rfqId := t.connections[id].rfqId;
            IndexEntryOk(Remove(t, id).connections, rfqId, Without(SessionIds(t, rfqId), id))
  {
    var rfqId := t.connections[id].rfqId;
    var ids := SessionIds(t, rfqId);
    WithoutKeepsOrder(ids, id);
    forall x | x in Without(ids, id)
      ensures x in Remove(t, id).connections && Remove(t, id).connections[x].rfqId == rfqId
    {
      WithoutIs(ids, id, x);
    }
    forall did ensures CountDid(Without(ids, id), Remove(t, id).connections, did) <= MAX_PER_DID {
      WithoutCounts(ids, t.connections, id, did);
    }
  }

  /** Another session's entry is as good after records that are not in it come or go. */
  lemma {:induction false} OtherEntry(a: map<nat, Connection>, b: map<nat, Connection>, s: string, ids: seq<nat>)
    requires IndexEntryOk(a, s, ids)
    requires forall x :: x in ids ==> x in b && b[x] == a[x]
    ensures IndexEntryOk(b, s, ids)
  {
    forall did ensures CountDid(ids, b, did) <= MAX_PER_DID {
      CountsAgree(ids, a, b, did);
    }
  }

  /** Removing a record, present or not, keeps the invariant and drops just that record. */
  lemma {:induction false} RemoveKeepsValid(t: Tracker, id: nat)
    requires Valid(t)
    ensures Valid(Remove(t, id)) && Remove(t, id).connections == t.connections - {id} &&
            Remove(t, id).nextId == t.nextId
  {
    if id in t.connections {
      var t', rfqId := Remove(t, id), t.connections[id].rfqId;
      forall s | s in t'.bySession ensures EntryOk(t', s) {
        if s == rfqId { EntryWithout(t, id); } else { OtherEntry(t.connections, t'.connections, s, t.bySession[s]); }
      }
      forall x | x in t'.connections ensures x <= t'.nextId && x in SessionIds(t', t'.connections[x].rfqId) {
        WithoutIs(SessionIds(t, rfqId), id, x);
      }
    } else {
      assert t.connections - {id} == t.connections;
    }
  }

  function SetOf(ids: seq<nat>): set<nat> { set x | x in ids }

  lemma {:induction false} RemoveAllKeepsValid(t: Tracker, ids: seq<nat>)
    requires Valid(t)
    ensures Valid(RemoveAll(t, ids)) && RemoveAll(t, ids).nextId == t.nextId
    ensures RemoveAll(t, ids).connections == t.connections - SetOf(ids)
  {
    if ids != [] {
      var shorter, id := ids[..|ids| - 1], ids[|ids| - 1];
      RemoveAllKeepsValid(t, shorter);
      RemoveKeepsValid(RemoveAll(t, shorter), id);
      SetOfSnoc(shorter, id);
      assert ids == shorter + [id];
      DropTwice(t.connections, SetOf(shorter), {id});
    } else {
      DropNone(t.connections);
    }
  }

  lemma {:induction false} DropTwice(m: map<nat, Connection>, a: set<nat>, b: set<nat>)
    ensures m - a - b == m - (a + b)
  {
  }

  lemma {:induction false} DropNone(m: map<nat, Connection>)
    ensures m - SetOf([]) == m
  {
  }

  lemma {:induction false} SetOfSnoc(ids: seq<nat>, id: nat)
    ensures SetOf(ids + [id]) == SetOf(ids) + {id}
  {
  }

  /** Closing drops the connection and whatever its callback released, each once, in either order. */
  lemma {:induction false} CloseKeepsValid(t: Tracker, id: nat, onClose: nat -> seq<nat>)
    requires Valid(t)
    ensures Valid(Close(t, id, onClose)) && Close(t, id, onClose).nextId == t.nextId
    ensures Close(t, id, onClose).connections == t.connections - SetOf(onClose(id)) - {id}
  {
    RemoveAllKeepsValid(t, onClose(id));
    RemoveKeepsValid(RemoveAll(t, onClose(id)), id);
  }

  // ---- The index counts what is really there ----

  ghost function InSession(t: Tracker, rfqId: string): set<nat> {
    set x | x in t.connections && t.connections[x].rfqId == rfqId
  }

  ghost function OfDid(t: Tracker, rfqId: string, did: string): set<nat> {
    set x | x in InSession(t, rfqId) && t.connections[x].did == did
  }

  lemma {:induction false} DistinctSize(ids: seq<nat>)
    requires Increasing(ids)
    ensures |SetOf(ids)| == |ids|
  {
    if ids != [] {
      var shorter, id := ids[..|ids| - 1], ids[|ids| - 1];
      DistinctSize(shorter);
      assert ids == shorter + [id];
      SetOfSnoc(shorter, id);
      assert id !in SetOf(shorter);
    }
  }

  ghost function Counted(ids: set<nat>, connections: map<nat, Connection>, did: string): set<nat> {
    set x | x in ids && x in connections && connections[x].did == did
  }

  lemma {:induction false} CountedPlus(ids: set<nat>, connections: map<nat, Connection>, did: string, id: nat)
    requires id !in ids && id in connections
    ensures |Counted(ids + {id}, connections, did)| ==
            |Counted(ids, connections, did)| + if connections[id].did == did then 1 else 0
  {
    var before := Counted(ids, connections, did);
    assert Counted(ids + {id}, connections, did) == if connections[id].did == did then before + {id} else before;
  }

  lemma {:induction false} CountIsSize(ids: seq<nat>, connections: map<nat, Connection>, did: string)
    requires Increasing(ids) && forall x :: x in ids ==> x in connections
    ensures CountDid(ids, connections, did) == |Counted(SetOf(ids), connections, did)|
  {
    if ids != [] {
      var shorter, id := ids[..|ids| - 1], ids[|ids| - 1];
      CountIsSize(shorter, connections, did);
      assert ids == shorter + [id];
      CountSnoc(shorter, connections, id, did);
      SetOfSnoc(shorter, id);
      CountedPlus(SetOf(shorter), connections, did, id);
    }
  }

  /** The two limits are measured on exactly the connections open in the session. */
  lemma {:induction false} IndexCountsConnections(t: Tracker, rfqId: string, did: string)
    requires Valid(t)
    ensures SetOf(SessionIds(t, rfqId)) == InSession(t, rfqId)
    ensures |SessionIds(t, rfqId)| == |InSession(t, rfqId)| <= MAX_PER_SESSION
    ensures CountDid(SessionIds(t, rfqId), t.connections, did) == |OfDid(t, rfqId, did)| <= MAX_PER_DID
  {
    var ids := SessionIds(t, rfqId);
    assert SetOf(ids) == InSession(t, rfqId);
    DistinctSize(ids);
    CountIsSize(ids, t.connections, did);
    assert OfDid(t, rfqId, did) == Counted(SetOf(ids), t.connections, did);
  }

  lemma {:induction false} SubsetSize(a: set<nat>, b: set<nat>)
    requires a <= b
    ensures |a| <= |b| && (a != b ==> |a| < |b|)
  {
    assert b == a + (b - a);
    if a != b {
      var x :| x in b - a;
      assert |b - a| > 0;
    }
  }

  /** Dropping connections leaves no count larger, and makes room in a session that lost one. */
  lemma {:induction false} DroppingMakesRoom(t: Tracker, t': Tracker, rfqId: string, did: string, lost: nat)
    requires Valid(t) && Valid(t') && lost in InSession(t, rfqId) && lost !in t'.connections
    requires forall x :: x in t'.connections ==> x in t.connections && t'.connections[x] == t.connections[x]
    ensures |SessionIds(t', rfqId)| < |SessionIds(t, rfqId)|
    ensures CountDid(SessionIds(t', rfqId), t'.connections, did) <= CountDid(SessionIds(t, rfqId), t.connections, did)
  {
    IndexCountsConnections(t, rfqId, did);
    IndexCountsConnections(t', rfqId, did);
    assert lost !in InSession(t', rfqId);
    SubsetSize(InSession(t', rfqId), InSession(t, rfqId));
    SubsetSize(OfDid(t', rfqId, did), OfDid(t, rfqId, did));
  }

  lemma {:induction false} AddKeepsValid(t: Tracker, c: Connection)
    requires Valid(t) && |SessionIds(t, c.rfqId)| < MAX_PER_SESSION
    requires CountDid(SessionIds(t, c.rfqId), t.connections, c.did) < MAX_PER_DID
    ensures Valid(Add(t, c))
  {
    forall s ensures EntryOk(Add(t, c), s) {
      AddKeepsEntry(t, c, s);
    }
    AddKeepsListed(t, c);
  }

  lemma {:induction false} AddKeepsEntry(t: Tracker, c: Connection, s: string)
    requires Listed(t) && EntryOk(t, s) && |SessionIds(t, c.rfqId)| < MAX_PER_SESSION
    requires CountDid(SessionIds(t, c.rfqId), t.connections, c.did) < MAX_PER_DID
    ensures EntryOk(Add(t, c), s)
  {
    if s == c.rfqId {
      EntryWithNew(t.connections, SessionIds(t, s), t.nextId + 1, c);
    } else if s in t.bySession {
      OtherAfterAdd(t, c, s);
    }
  }

  lemma {:induction false} OtherAfterAdd(t: Tracker, c: Connection, s: string)
    requires Listed(t) && s in t.bySession && s != c.rfqId && IndexEntryOk(t.connections, s, t.bySession[s])
    ensures IndexEntryOk(Add(t, c).connections, s, t.bySession[s])
  {
    OtherEntry(t.connections, Add(t, c).connections, s, t.bySession[s]);
  }

  lemma {:induction false} AddKeepsListed(t: Tracker, c: Connection)
    requires Listed(t)
    ensures Listed(Add(t, c))
  {
    var t', ids, id := Add(t, c), SessionIds(t, c.rfqId), t.nextId + 1;
    assert (ids + [id])[|ids|] == id;
    forall x | x in t'.connections ensures x <= t'.nextId && x in SessionIds(t', t'.connections[x].rfqId) {
      if x != id && t.connections[x].rfqId == c.rfqId { assert x in ids + [id]; }
    }
  }

  lemma {:induction false} EntryWithNew(connections: map<nat, Connection>, ids: seq<nat>, id: nat, c: Connection)
    requires ids == [] || IndexEntryOk(connections, c.rfqId, ids)
    requires |ids| < MAX_PER_SESSION && CountDid(ids, connections, c.did) < MAX_PER_DID
    requires forall x :: x in connections ==> x < id
    ensures IndexEntryOk(connections[id := c], c.rfqId, ids + [id])
  {
    assert forall i :: 0 <= i < |ids| ==> ids[i] in ids;
    NewWithinLimit(connections, ids, id, c);
  }

  lemma {:induction false} NewWithinLimit(connections: map<nat, Connection>, ids: seq<nat>, id: nat, c: Connection)
    requires id !in connections && (forall x :: x in ids ==> x in connections)
    requires ids == [] || DidsWithinLimit(connections, ids)
    requires CountDid(ids, connections, c.did) < MAX_PER_DID
    ensures DidsWithinLimit(connections[id := c], ids + [id])
  {
    var after, longer := connections[id := c], ids + [id];
    forall did ensures CountDid(longer, after, did) <= MAX_PER_DID {
      CountsAgree(ids, connections, after, did);
      CountSnoc(ids, after, id, did);
    }
  }

  // ---- Who is admitted, and who is evicted ----

  /** `id` is to be evicted rather than `x`. */
  predicate Older(t: Tracker, id: nat, x: nat)
    requires id in t.connections && x in t.connections
  {
    t.connections[id].openedAt < t.connections[x].openedAt ||
        (t.connections[id].openedAt == t.connections[x].openedAt && id <= x)
  }

  lemma {:induction false} OldestInIs(t: Tracker, ids: seq<nat>, x: nat)
    requires Increasing(ids)
    ensures OldestIn(t, ids).Some? ==> !t.connections[OldestIn(t, ids).value].isBuyer
    ensures x in ids && x in t.connections && !t.connections[x].isBuyer ==>
              OldestIn(t, ids).Some? && Older(t, OldestIn(t, ids).value, x)
  {
    if ids != [] {
      var shorter, id := ids[..|ids| - 1], ids[|ids| - 1];
      OldestInIs(t, shorter, x);
      assert ids == shorter + [id];
      assert x in ids <==> x in shorter || x == id;
      var before := OldestIn(t, shorter);
      if before.Some? {
        var k :| 0 <= k < |shorter| && shorter[k] == before.value;
        assert ids[k] < ids[|ids| - 1];
      }
    }
  }

  lemma {:induction false} FindsOldest(t: Tracker, rfqId: string)
    requires Valid(t)
    ensures var best := OldestIn(t, SessionIds(t, rfqId));
            if best.Some? then OldestEvictable(t, rfqId, best.value) else forall x :: !Evictable(t, rfqId, x)
  {
    var ids := SessionIds(t, rfqId);
    assert Increasing(ids);
    forall x | Evictable(t, rfqId, x) ensures OldestIn(t, ids).Some? && Older(t, OldestIn(t, ids).value, x) {
      OldestInIs(t, ids, x);
    }
    OldestInIs(t, ids, 0);
  }

  /** Admission, exactly. */
  ghost predicate Admissible(t: Tracker, c: Connection) {
    && |OfDid(t, c.rfqId, c.did)| < MAX_PER_DID
    && (|InSession(t, c.rfqId)| < MAX_PER_SESSION
        || (c.isBuyer && exists x :: x in InSession(t, c.rfqId) && !t.connections[x].isBuyer))
  }

  /** The connections a successful `acquire` leaves: all but an evicted one and what its callback released. */
  ghost predicate AdmittedState(t: Tracker, t': Tracker, c: Connection, onClose: nat -> seq<nat>) {
    var id := t.nextId + 1;
    t'.nextId == id &&
    if |InSession(t, c.rfqId)| < MAX_PER_SESSION then t'.connections == t.connections[id := c]
    else exists x: nat :: OldestEvictable(t, c.rfqId, x)
                     && t'.connections == (t.connections - SetOf(onClose(x)) - {x})[id := c]
  }

  lemma {:induction false} EvictThenAdd(t: Tracker, c: Connection, id: nat, onClose: nat -> seq<nat>)
    requires Valid(t) && id in InSession(t, c.rfqId)
    requires |SessionIds(t, c.rfqId)| <= MAX_PER_SESSION &&
             CountDid(SessionIds(t, c.rfqId), t.connections, c.did) < MAX_PER_DID
    ensures var t' := Add(Close(t, id, onClose), c);
            && Valid(t') && t'.nextId == t.nextId + 1
            && t'.connections == (t.connections - SetOf(onClose(id)) - {id})[t.nextId + 1 := c]
  {
    CloseKeepsValid(t, id, onClose);
    var t' := Close(t, id, onClose);
    DroppingMakesRoom(t, t', c.rfqId, c.did, id);
    AddKeepsValid(t', c);
  }

  lemma {:induction false} EvictableIs(t: Tracker, rfqId: string)
    requires Valid(t)
    ensures forall x :: Evictable(t, rfqId, x) <==> x in InSession(t, rfqId) && !t.connections[x].isBuyer
  {
    IndexCountsConnections(t, rfqId, "");
    assert forall x :: x in SessionIds(t, rfqId) <==> x in SetOf(SessionIds(t, rfqId));
  }

  /** What `acquire` returned is right: admitted exactly when admissible, refused without a change. */
  ghost predicate RightResult(t: Tracker, c: Connection, onClose: nat -> seq<nat>, t': Tracker, admitted: Option<nat>) {
    && Valid(t')
    && (admitted.Some? <==> Admissible(t, c))
    && (if admitted.Some? then admitted.value == t.nextId + 1 && AdmittedState(t, t', c, onClose) else t' == t)
  }

  lemma {:induction false} SomeoneToEvict(t: Tracker, rfqId: string)
    requires Valid(t)
    ensures OldestIn(t, SessionIds(t, rfqId)).Some? <==>
              exists x :: x in InSession(t, rfqId) && !t.connections[x].isBuyer
  {
    FindsOldest(t, rfqId);
    EvictableIs(t, rfqId);
    var best := OldestIn(t, SessionIds(t, rfqId));
    if best.Some? { assert Evictable(t, rfqId, best.value); }
  }

  /** Nobody to evict, or not the buyer: a full session refuses. */
  lemma {:induction false} FullAdmission(t: Tracker, c: Connection)
    requires Valid(t) && |InSession(t, c.rfqId)| == MAX_PER_SESSION && |OfDid(t, c.rfqId, c.did)| < MAX_PER_DID
    ensures Admissible(t, c) <==> c.isBuyer && OldestIn(t, SessionIds(t, c.rfqId)).Some?
  {
    SomeoneToEvict(t, c.rfqId);
  }

  lemma {:induction false} AcquireWhenFull(t: Tracker, c: Connection, onClose: nat -> seq<nat>, best: Option<nat>)
    requires Valid(t) && |InSession(t, c.rfqId)| == |SessionIds(t, c.rfqId)| == MAX_PER_SESSION
    requires CountDid(SessionIds(t, c.rfqId), t.connections, c.did) < MAX_PER_DID
    requires best == OldestIn(t, SessionIds(t, c.rfqId)) && (Admissible(t, c) <==> c.isBuyer && best.Some?)
    ensures if c.isBuyer && best.Some?
            then RightResult(t, c, onClose, Add(Close(t, best.value, onClose), c), Some(t.nextId + 1))
            else RightResult(t, c, onClose, t, None)
  {
    if c.isBuyer && best.Some? {
      EvictOldest(t, c, best.value, onClose);
    }
  }

  lemma {:induction false} EvictOldest(t: Tracker, c: Connection, id: nat, onClose: nat -> seq<nat>)
    requires Valid(t) && |InSession(t, c.rfqId)| == |SessionIds(t, c.rfqId)| == MAX_PER_SESSION
    requires CountDid(SessionIds(t, c.rfqId), t.connections, c.did) < MAX_PER_DID
    requires OldestIn(t, SessionIds(t, c.rfqId)) == Some(id)
    ensures var t' := Add(Close(t, id, onClose), c);
            Valid(t') && AdmittedState(t, t', c, onClose)
  {
    FindsOldest(t, c.rfqId);
    EvictThenAdd(t, c, id, onClose);
  }

  /** `acquire` keeps the invariant, admits exactly the admissible, and evicts only the oldest non-buyer. */
  lemma {:induction false} AcquireIsRight(t: Tracker, c: Connection, onClose: nat -> seq<nat>)
    requires Valid(t)
    ensures var (t', admitted) := Acquired(t, c, onClose); RightResult(t, c, onClose, t', admitted)
  {
    IndexCountsConnections(t, c.rfqId, c.did);
    if |OfDid(t, c.rfqId, c.did)| < MAX_PER_DID {
      if |SessionIds(t, c.rfqId)| < MAX_PER_SESSION {
        AddKeepsValid(t, c);
      } else {
        FullAdmission(t, c);
        AcquireWhenFull(t, c, onClose, OldestIn(t, SessionIds(t, c.rfqId)));
      }
    }
  }

  /** The buyer flag means what the events route makes it mean: the caller is the session's buyer. */
  ghost predicate RolesOk(t: Tracker, buyerOf: string -> string) {
    forall x :: x in t.connections ==>
          (t.connections[x].isBuyer <==> t.connections[x].did == buyerOf(t.connections[x].rfqId))
  }

  /** A buyer below its own limit is always admitted: a full session must hold someone to evict. */
  lemma {:induction false} BuyerAlwaysAdmitted(t: Tracker, c: Connection, buyerOf: string -> string)
    requires Valid(t) && RolesOk(t, buyerOf) && c.isBuyer && c.did == buyerOf(c.rfqId)
    ensures Admissible(t, c) <==> |OfDid(t, c.rfqId, c.did)| < MAX_PER_DID
  {
    if forall x :: x in InSession(t, c.rfqId) ==> t.connections[x].isBuyer {
      assert OfDid(t, c.rfqId, c.did) == InSession(t, c.rfqId);
    }
  }

  // ---- Closing a session, and whole runs ----

  /** `after` lost exactly some of `before`'s records,
      each named in `ids` or released by a callback of one named there. */
  ghost predicate Narrowed(before: map<nat, Connection>, after: map<nat, Connection>, ids: seq<nat>,
                           onClose: nat -> seq<nat>) {
    && (forall x :: x in after ==> x in before && after[x] == before[x] && x !in ids)
    && (forall x :: x in before && x !in after ==> x in ids || exists y :: y in ids && x in onClose(y))
  }

  lemma {:induction false} NarrowOnce(a: map<nat, Connection>, b: map<nat, Connection>, c: map<nat, Connection>,
                                      ids: seq<nat>, id: nat, onClose: nat -> seq<nat>)
    requires Narrowed(a, b, ids, onClose)
    requires c == (if id in b then b - SetOf(onClose(id)) - {id} else b)
    ensures Narrowed(a, c, ids + [id], onClose)
  {
    assert forall x :: x in ids + [id] <==> x in ids || x == id;
  }

  lemma {:induction false} CloseEachIsRight(t: Tracker, ids: seq<nat>, onClose: nat -> seq<nat>)
    requires Valid(t)
    ensures var t' := CloseEach(t, ids, onClose);
            Valid(t') && t'.nextId == t.nextId && Narrowed(t.connections, t'.connections, ids, onClose)
  {
    if ids != [] {
      var shorter, id := ids[..|ids| - 1], ids[|ids| - 1];
      CloseEachIsRight(t, shorter, onClose);
      var before := CloseEach(t, shorter, onClose);
      CloseKeepsValid(before, id, onClose);
      assert ids == shorter + [id];
      NarrowOnce(t.connections, before.connections, CloseEach(t, ids, onClose).connections, shorter, id, onClose);
    }
  }

  function ClosedAll(t: Tracker, rfqId: string, onClose: nat -> seq<nat>): Tracker {
    CloseEach(t, SessionIds(t, rfqId), onClose)
  }

  /** After `closeAll` the session has no connection and no index entry; others go only through a callback. */
  lemma {:induction false} CloseAllIsRight(t: Tracker, rfqId: string, onClose: nat -> seq<nat>)
    requires Valid(t)
    ensures var t' := ClosedAll(t, rfqId, onClose);
            && Valid(t') && rfqId !in t'.bySession && InSession(t', rfqId) == {}
            && Narrowed(t.connections, t'.connections, SessionIds(t, rfqId), onClose)
  {
    var t', ids := ClosedAll(t, rfqId, onClose), SessionIds(t, rfqId);
    CloseEachIsRight(t, ids, onClose);
    assert forall x :: x in InSession(t, rfqId) ==> x in ids;
    assert InSession(t', rfqId) <= InSession(t, rfqId);
    EntryMeansConnection(t', rfqId);
  }

  lemma {:induction false} EntryMeansConnection(t: Tracker, rfqId: string)
    requires Valid(t)
    ensures rfqId in t.bySession <==> InSession(t, rfqId) != {}
  {
    if rfqId in t.bySession { assert t.bySession[rfqId][0] in InSession(t, rfqId); }
  }

  datatype Op = OpAcquire(c: Connection) | OpRelease(id: nat) | OpCloseAll(rfqId: string)

  function Step(t: Tracker, op: Op, onClose: nat -> seq<nat>): Tracker {
    match op
    case OpAcquire(c) => Acquired(t, c, onClose).0
    case OpRelease(id) => Remove(t, id)
    case OpCloseAll(rfqId) => ClosedAll(t, rfqId, onClose)
  }

  function Run(ops: seq<Op>, onClose: nat -> seq<nat>): Tracker {
    if ops == [] then EMPTY else Step(Run(ops[..|ops| - 1], onClose), ops[|ops| - 1], onClose)
  }

  /** The callers pass the buyer flag the events route computes. */
  ghost predicate HonestFlags(ops: seq<Op>, buyerOf: string -> string) {
    forall i :: 0 <= i < |ops| && ops[i].OpAcquire? ==> (ops[i].c.isBuyer <==> ops[i].c.did == buyerOf(ops[i].c.rfqId))
  }

  lemma {:induction false} StepKeepsValid(t: Tracker, op: Op, onClose: nat -> seq<nat>)
    requires Valid(t)
    ensures Valid(Step(t, op, onClose))
  {
    match op {
      case OpAcquire(c) => AcquireIsRight(t, c, onClose);
      case OpRelease(id) => RemoveKeepsValid(t, id);
      case OpCloseAll(rfqId) => CloseAllIsRight(t, rfqId, onClose);
    }
  }

  /** Nothing appears in the tracker but a newly acquired connection. */
  lemma {:induction false} StepAddsOnlyNew(t: Tracker, op: Op, onClose: nat -> seq<nat>, x: nat)
    requires Valid(t) && x in Step(t, op, onClose).connections
    ensures var c := Step(t, op, onClose).connections[x];
            (x in t.connections && c == t.connections[x]) || (op.OpAcquire? && c == op.c)
  {
    match op {
      case OpAcquire(c) => AcquireAddsOnlyNew(t, c, onClose, x);
      case OpRelease(id) => RemoveKeepsValid(t, id);
      case OpCloseAll(rfqId) => CloseAllIsRight(t, rfqId, onClose);
    }
  }

  lemma {:induction false} AcquireAddsOnlyNew(t: Tracker, c: Connection, onClose: nat -> seq<nat>, x: nat)
    requires Valid(t) && x in Acquired(t, c, onClose).0.connections
    ensures var c' := Acquired(t, c, onClose).0.connections[x];
            (x in t.connections && c' == t.connections[x]) || c' == c
  {
    AcquireIsRight(t, c, onClose);
    var (t', admitted) := Acquired(t, c, onClose);
    if admitted.Some? && x != admitted.value { assert t'.connections[x] == t.connections[x]; }
  }

  /** Every run: the index partitions the connections within both limits, and the buyer flags are right. */
  lemma {:induction false} RunKeepsValid(ops: seq<Op>, onClose: nat -> seq<nat>, buyerOf: string -> string)
    requires HonestFlags(ops, buyerOf)
    ensures Valid(Run(ops, onClose)) && RolesOk(Run(ops, onClose), buyerOf)
  {
    if ops != [] {
      var shorter, op := ops[..|ops| - 1], ops[|ops| - 1];
      var t := Run(shorter, onClose);
      RunKeepsValid(shorter, onClose, buyerOf);
      StepKeepsValid(t, op, onClose);
      var t' := Step(t, op, onClose);
      forall x | x in t'.connections
        ensures t'.connections[x].isBuyer <==> t'.connections[x].did == buyerOf(t'.connections[x].rfqId)
      {
        StepAddsOnlyNew(t, op, onClose, x);
      }
    }
  }

  /** In every run, a buyer holding fewer than three streams of its session gets another one. */
  lemma {:induction false} BuyerIsServed(ops: seq<Op>, c: Connection, onClose: nat -> seq<nat>,
                                         buyerOf: string -> string)
    requires HonestFlags(ops, buyerOf) && c.isBuyer && c.did == buyerOf(c.rfqId)
    ensures var t := Run(ops, onClose);
            Acquired(t, c, onClose).1.Some? <==> |OfDid(t, c.rfqId, c.did)| < MAX_PER_DID
  {
    RunKeepsValid(ops, onClose, buyerOf);
    AcquireIsRight(Run(ops, onClose), c, onClose);
    BuyerAlwaysAdmitted(Run(ops, onClose), c, buyerOf);
  }

  // ---- The object ----

  /** The loop of `countForDid`. */
  method CountForDid(ids: seq<nat>, connections: map<nat, Connection>, did: string) returns (count: nat)
    ensures count == CountDid(ids, connections, did)
  {
    count := 0;
    for i := 0 to |ids|
      invariant count == CountDid(ids[..i], connections, did)
    {
      assert ids[..i + 1] == ids[..i] + [ids[i]];
      CountSnoc(ids[..i], connections, ids[i], did);
      if ids[i] in connections && connections[ids[i]].did == did { count := count + 1; }
    }
    assert ids[..|ids|] == ids;
  }

  class ConnectionTracker {
    var connections: map<nat, Connection>
    var bySession: map<string, seq<nat>>
    var nextId: nat

    ghost function Snapshot(): Tracker
      reads this
    {
      Tracker(connections, bySession, nextId)
    }

    constructor ()
      ensures Snapshot() == EMPTY
    {
      connections, bySession, nextId := map[], map[], 0;
    }

    /** `removeRecord`, which `release` calls: silent when the record is already gone. */
    method Release(id: nat)
      modifies this
      ensures Snapshot() == Remove(old(Snapshot()), id)
    {
      if id !in connections { return; }
      var rfqId := connections[id].rfqId;
      connections := connections - {id};
      if rfqId in bySession {
        var left := Without(bySession[rfqId], id);
        bySession := if left == [] then bySession - {rfqId} else bySession[rfqId := left];
      }
    }

    /** The callback of a closing connection, re-entering `release`. */
    method Closing(released: seq<nat>)
      modifies this
      ensures Snapshot() == RemoveAll(old(Snapshot()), released)
    {
      for i := 0 to |released|
        invariant Snapshot() == RemoveAll(old(Snapshot()), released[..i])
      {
        assert released[..i + 1][..i] == released[..i];
        Release(released[i]);
      }
      assert released[..|released|] == released;
    }

    method FindOldestNonBuyer(rfqId: string) returns (oldest: Option<nat>)
      ensures oldest == OldestIn(Snapshot(), SessionIds(Snapshot(), rfqId))
    {
      oldest := None;
      if rfqId !in bySession { return; }
      var ids := bySession[rfqId];
      for i := 0 to |ids|
        invariant oldest == OldestIn(Snapshot(), ids[..i])
      {
        assert ids[..i + 1][..i] == ids[..i];
        var id := ids[i];
        if id in connections && !connections[id].isBuyer {
          if oldest.None? || connections[id].openedAt < connections[oldest.value].openedAt { oldest := Some(id); }
        }
      }
      assert ids[..|ids|] == ids;
    }

    method Acquire(c: Connection, onClose: nat -> seq<nat>) returns (admitted: Option<nat>)
      modifies this
      ensures (Snapshot(), admitted) == Acquired(old(Snapshot()), c, onClose)
    {
      var ids := if c.rfqId in bySession then bySession[c.rfqId] else [];
      var mine := CountForDid(ids, connections, c.did);
      if mine >= MAX_PER_DID { return None; }
      if |ids| >= MAX_PER_SESSION {
        if !c.isBuyer { return None; }
        var evicted := FindOldestNonBuyer(c.rfqId);
        if evicted.None? { return None; }
        Evict(evicted.value, onClose);
      }
      Register(c);
      admitted := Some(nextId);
    }

    method Evict(id: nat, onClose: nat -> seq<nat>)
      modifies this
      ensures Snapshot() == Close(old(Snapshot()), id, onClose)
    {
      Closing(onClose(id));
      Release(id);
    }

    method Register(c: Connection)
      modifies this
      ensures Snapshot() == Add(old(Snapshot()), c)
    {
      nextId := nextId + 1;
      connections := connections[nextId := c];
      bySession := bySession[c.rfqId := (if c.rfqId in bySession then bySession[c.rfqId] else []) + [nextId]];
    }

    method CloseAll(rfqId: string, onClose: nat -> seq<nat>)
      modifies this
      ensures Snapshot() == ClosedAll(old(Snapshot()), rfqId, onClose)
    {
      if rfqId !in bySession { return; }
      var ids := bySession[rfqId];
      for i := 0 to |ids|
        invariant Snapshot() == CloseEach(old(Snapshot()), ids[..i], onClose)
      {
        assert ids[..i + 1][..i] == ids[..i];
        var id := ids[i];
        if id in connections {
          Evict(id, onClose);
        }
      }
      assert ids[..|ids|] == ids;
    }
  }
}
