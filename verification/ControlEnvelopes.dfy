/**
 Replay protection of signed control envelopes: the tombstone store with its sweep, and the temporal and
 replay checks of `validateControlEnvelope`.
 */
module ControlEnvelopes {
  import opened Protocol
  import opened Routes

  const MAX_ISSUED_AGE_MS := 60_000
  const RETENTION_MS := 3_600_000

  /** A full scan: what an unhurried sweep at `now` would keep. */
  function Kept(tombstones: map<string, int>, now: int): map<string, int> {
    map id | id in tombstones && now < tombstones[id] :: tombstones[id]
  }

  class EnvelopeTombstones {
    var tombstones: map<string, int> // id to expiry
    var nextExpiry: Option<int> // None is Infinity

    /** The fast path's key: no tombstone expires before `nextExpiry`. */
    ghost predicate Valid() reads this {
      forall id :: id in tombstones ==> nextExpiry.Some? && nextExpiry.value <= tombstones[id]
    }

    constructor ()
      ensures Valid() && tombstones == map[]
    {
      tombstones, nextExpiry := map[], None;
    }

    method Use(id: string, now: int, retentionMs: int)
      requires Valid()
      modifies this
      ensures Valid() && tombstones == old(tombstones)[id := now + retentionMs]
    {
      var expiry := now + retentionMs;
      tombstones := tombstones[id := expiry];
      if nextExpiry.None? || expiry < nextExpiry.value { nextExpiry := Some(expiry); }
    }

    /** The sweep, with its skip when nothing can have expired, removes exactly what a full scan would. */
    method Sweep(now: int)
      requires Valid()
      modifies this
      ensures Valid() && tombstones == Kept(old(tombstones), now)
    {
      if nextExpiry.None? || now < nextExpiry.value {
        return;
      }
      var minExpiry: Option<int> := None;
      var rest := tombstones.Keys;
      ghost var before := tombstones;
      while rest != {}
        invariant rest <= before.Keys
        invariant forall id :: id in tombstones <==> id in before && (id in rest || now < before[id])
        invariant forall id :: id in tombstones ==> tombstones[id] == before[id]
        invariant forall id :: id in before && id !in rest && now < before[id] ==>
                    minExpiry.Some? && minExpiry.value <= before[id]
      {
        var id :| id in rest;
        rest := rest - {id};
        var expiry := tombstones[id];
        if now >= expiry {
          tombstones := tombstones - {id};
        } else if minExpiry.None? || expiry < minExpiry.value {
          minExpiry := Some(expiry);
        }
      }
      nextExpiry := minExpiry;
    }
  }

  /** The temporal checks: issued within 60 s of now either way, and not expired. */
  predicate Timely(e: Envelope, now: int) {
    -MAX_ISSUED_AGE_MS <= now - e.issuedAt <= MAX_ISSUED_AGE_MS && e.expiresAt > now
  }

  /** Everything `validateControlEnvelope` tests before it records the id. */
  predicate Validates(env: Env, tombstones: map<string, int>, e: Envelope, action: ControlAction, rfqId: string,
                      signer: string, now: int)
  {
    e.envelopeId != "" && EnvelopeBinds(env, e, action, rfqId, signer) && Timely(e, now) && e.envelopeId !in tombstones
  }

  /** What can happen to the store afterwards: any envelope is recorded, or the enforcer sweeps. */
  datatype StoreOp = Record(id: string, at: int) | SweepAt(at: int)

  function AfterOp(m: map<string, int>, op: StoreOp): map<string, int> {
    match op
    case Record(id, at) => m[id := at + RETENTION_MS]
    case SweepAt(at) => Kept(m, at)
  }

  function AfterOps(m: map<string, int>, ops: seq<StoreOp>): map<string, int> {
    if ops == [] then m else AfterOp(AfterOps(m, ops[..|ops| - 1]), ops[|ops| - 1])
  }

  /** The operations happen between `since` and `now`, in clock order. */
  ghost predicate InOrder(since: int, ops: seq<StoreOp>, now: int) {
    && since <= now
    && (forall i :: 0 <= i < |ops| ==> since <= ops[i].at <= now)
    && (forall i, j :: 0 <= i < j < |ops| ==> ops[i].at <= ops[j].at)
  }

  lemma {:induction false} TombstoneOutlivesWindow(m: map<string, int>, id: string, recorded: int, ops: seq<StoreOp>,
                                                   now: int)
    requires InOrder(recorded, ops, now) && id in m && m[id] >= recorded + RETENTION_MS
    ensures now < recorded + RETENTION_MS ==>
              id in AfterOps(m, ops) && AfterOps(m, ops)[id] >= recorded + RETENTION_MS
  {
    if ops != [] {
      var shorter, last := ops[..|ops| - 1], ops[|ops| - 1];
      assert InOrder(recorded, shorter, last.at);
      TombstoneOutlivesWindow(m, id, recorded, shorter, last.at);
    }
  }

  /**
   An envelope that passed its checks at `checked` and was recorded at `recorded` never validates again,
   whatever is recorded or swept in between and however late it is tried: its issue window closes long
   before its tombstone is dropped.
   */
  lemma {:induction false} NeverValidatesAgain(env: Env, m: map<string, int>, e: Envelope, checked: int, recorded: int,
                                               ops: seq<StoreOp>,
                            now: int, action: ControlAction, rfqId: string, signer: string)
    requires Timely(e, checked) && checked <= recorded && InOrder(recorded, ops, now)
    ensures !Validates(env, AfterOps(AfterOp(m, Record(e.envelopeId, recorded)), ops), e, action, rfqId, signer, now)
  {
    TombstoneOutlivesWindow(AfterOp(m, Record(e.envelopeId, recorded)), e.envelopeId, recorded, ops, now);
  }

  lemma {:induction false} UnusedIsAbsent(ops: seq<StoreOp>, id: string)
    requires forall i :: 0 <= i < |ops| && ops[i].Record? ==> ops[i].id != id
    ensures id !in AfterOps(map[], ops)
  {
    if ops != [] { UnusedIsAbsent(ops[..|ops| - 1], id); }
  }

  /**
   An envelope never recorded validates exactly if it has an id, is the action asked for on this session, names a
   revision, carries the signer's signature, was issued within a minute of now and has not expired.
   */
  lemma {:induction false} FreshValidatesIff(env: Env, ops: seq<StoreOp>, e: Envelope, action: ControlAction,
                                             rfqId: string, signer: string, now: int)
    requires forall i :: 0 <= i < |ops| && ops[i].Record? ==> ops[i].id != e.envelopeId
    ensures Validates(env, AfterOps(map[], ops), e, action, rfqId, signer, now) <==>
            && e.envelopeId != "" && e.action == action && e.rfqId == rfqId && e.revision != ""
            && env.verifyEnvelope(signer, e)
            && e.issuedAt - 60_000 <= now <= e.issuedAt + 60_000 && now < e.expiresAt
  {
    UnusedIsAbsent(ops, e.envelopeId);
  }

  /** A recorded id is refused until its tombstone has run out: an hour at least. */
  lemma {:induction false} RecordedIsRefused(env: Env, m: map<string, int>, e: Envelope, recorded: int,
                                             ops: seq<StoreOp>, action: ControlAction, rfqId: string, signer: string,
                                             now: int)
    requires InOrder(recorded, ops, now) && now < recorded + 3_600_000
    ensures !Validates(env, AfterOps(AfterOp(m, Record(e.envelopeId, recorded)), ops), e, action, rfqId, signer, now)
  {
    TombstoneOutlivesWindow(AfterOp(m, Record(e.envelopeId, recorded)), e.envelopeId, recorded, ops, now);
  }
}
