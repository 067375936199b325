/**
 `subscribeFrom`: subscribe in buffering mode, replay from the cursor, then go live. One subscriber and its
 session's log are modelled as one object; `Append` is the store's append with its notification, and it may
 come at any point, also between subscribing and reading the replay. The listener neither throws nor appends.
 */
module Subscriptions {
  import opened Protocol
  import opened EventStore

  /** Subscribed: registered, replay not read yet. Buffering: replay read, not activated. */
  datatype Phase = Subscribed | Buffering | Delivering | Stopped

  predicate HasId(events: seq<Event>, id: string) {
    exists i :: 0 <= i < |events| && events[i].id == id
  }

  /** What was appended after subscribing is part of what a later replay returns. */
  lemma {:induction false} BufferIsInReplay(log: seq<Event>, start: nat, registered: nat, sees: Event -> bool)
    requires start <= registered <= |log|
    ensures forall e :: e in Visible(log[registered..], sees) ==> HasId(Visible(log[start..], sees), e.id)
  {
    var early, late := Visible(log[start..registered], sees), Visible(log[registered..], sees);
    assert log[start..] == log[start..registered] + log[registered..];
    VisibleConcat(log[start..registered], log[registered..], sees);
    forall e | e in late ensures HasId(Visible(log[start..], sees), e.id) {
      assert e in early + late;
    }
  }

  lemma {:induction false} VisibleSnoc(log: seq<Event>, n: nat, e: Event, sees: Event -> bool)
    requires n <= |log|
    ensures Visible((log + [e])[n..], sees) == Visible(log[n..], sees) + (if sees(e) then [e] else [])
  {
    var tail := (log + [e])[n..];
    assert tail[..|tail| - 1] == log[n..];
  }

  lemma {:induction false} AppendKeepsCursor(log: seq<Event>, e: Event, afterId: Option<string>)
    requires DistinctIds(log) && (forall i :: 0 <= i < |log| ==> log[i].id != e.id) && StartOf(log, afterId).Some?
    ensures DistinctIds(log + [e]) && StartOf(log + [e], afterId) == StartOf(log, afterId)
  {
    StartIsStable(log, log + [e], afterId);
  }

  /** The events whose ids a replay does not contain. */
  function Unseen(replay: seq<Event>): Event -> bool {
    (e: Event) => !HasId(replay, e.id)
  }

  lemma {:induction false} NoneUnseen(events: seq<Event>, replay: seq<Event>)
    requires forall e :: e in events ==> HasId(replay, e.id)
    ensures Visible(events, Unseen(replay)) == []
  {
    if events != [] {
      NoneUnseen(events[..|events| - 1], replay);
      assert events[|events| - 1] in events;
    }
  }

  /**
   The delivery contract. Once the replay is read, what was sent plus what waits in the buffer is exactly
   the visible log after the cursor (`due`); once live, nothing waits. Before that the buffer holds what
   was appended since registration (`since`).
   */
  ghost predicate Contract(phase: Phase, sent: seq<Event>, buffer: seq<Event>, due: seq<Event>, since: seq<Event>) {
    match phase
    case Subscribed => sent == [] && buffer == since
    case Buffering => sent + buffer == due
    case Delivering => buffer == [] && sent == due
    case Stopped => sent <= due
  }

  lemma {:induction false} ContractKept(phase: Phase, sent: seq<Event>, buffer: seq<Event>, due: seq<Event>,
                                        since: seq<Event>, extra: seq<Event>)
    requires Contract(phase, sent, buffer, due, since)
    ensures phase == Subscribed || phase == Buffering ==>
              Contract(phase, sent, buffer + extra, due + extra, since + extra)
    ensures phase == Delivering ==> Contract(phase, sent + extra, buffer, due + extra, since + extra)
    ensures phase == Stopped ==> Contract(phase, sent, buffer, due + extra, since + extra)
  {
    assert sent + (buffer + extra) == (sent + buffer) + extra;
  }

  class Subscription {
    const sees: Event -> bool
    const afterId: Option<string>
    ghost const start: nat // first log position after the cursor
    ghost const registered: nat // log length when the subscriber was registered

    var log: seq<Event>
    var phase: Phase
    var buffer: seq<Event>
    var replay: seq<Event> // sent first
    var buffered: seq<Event> // sent second
    var delivered: seq<Event> // handed to the listener, flushed and live

    /** Everything the client has been given, in the order it was given. */
    ghost function Sent(): seq<Event> reads this { replay + buffered + delivered }

    ghost function Due(): seq<Event>
      requires start <= |log|
      reads this
    {
      Visible(log[start..], sees)
    }

    ghost predicate Valid() reads this {
      && DistinctIds(log) && start <= registered <= |log| && StartOf(log, afterId) == Some(start)
      && Contract(phase, Sent(), buffer, Due(), Visible(log[registered..], sees))
      && (phase == Buffering ==> delivered == [])
    }

    /** The route has checked that the cursor, if any, is in the log (events.ts). */
    constructor (log: seq<Event>, sees: Event -> bool, afterId: Option<string>)
      requires DistinctIds(log) && StartOf(log, afterId).Some?
      ensures Valid() && phase == Subscribed && this.log == log && this.sees == sees && this.afterId == afterId
    {
      this.log, this.sees, this.afterId := log, sees, afterId;
      start, registered := StartOf(log, afterId).value, |log|;
      phase, buffer, replay, buffered, delivered := Subscribed, [], [], [], [];
    }

    /** An append, and the subscriber's reaction to it. */
    method Append(e: Event)
      requires Valid() && forall i :: 0 <= i < |log| ==> log[i].id != e.id
      modifies this
      ensures Valid() && phase == old(phase) && log == old(log) + [e]
      ensures old(Sent()) <= Sent()
    {
      hide Visible, Contract, StartOf;
      var extra := if sees(e) then [e] else [];
      VisibleSnoc(log, start, e, sees);
      VisibleSnoc(log, registered, e, sees);
      AppendKeepsCursor(log, e, afterId);
      ContractKept(phase, Sent(), buffer, Due(), Visible(log[registered..], sees), extra);
      log := log + [e];
      if phase == Subscribed || phase == Buffering {
        buffer := buffer + extra;
      } else if phase == Delivering {
        delivered := delivered + extra;
        assert Sent() == old(Sent()) + extra;
      }
    }

    /** Reads the replay, drops what the buffer shares with it, hands out the rest and empties the buffer. */
    method ReadReplay()
      requires Valid() && phase == Subscribed
      modifies this
      ensures Valid() && phase == Buffering && log == old(log)
      ensures replay + buffered == Due()
    {
      replay := EventsAfter(log, sees, afterId);
      var deduped: seq<Event> := [];
      for i := 0 to |buffer|
        invariant deduped == Visible(buffer[..i], Unseen(replay))
      {
        assert buffer[..i + 1][..i] == buffer[..i];
        if !HasId(replay, buffer[i].id) {
          deduped := deduped + [buffer[i]];
        }
      }
      assert buffer[..|buffer|] == buffer;
      BufferIsInReplay(log, start, registered, sees);
      NoneUnseen(buffer, replay);
      buffered := deduped;
      buffer := [];
      phase := Buffering;
    }

    /** Flushes what arrived since the snapshot, then goes live; a second call does nothing. */
    method Activate()
      requires Valid() && phase != Subscribed
      modifies this
      ensures Valid() && log == old(log) && old(Sent()) <= Sent()
      ensures old(phase) == Buffering ==> phase == Delivering
      ensures phase == Delivering ==> Sent() == Due()
      ensures old(phase) == Stopped ==> phase == Stopped && Sent() == old(Sent())
    {
      if phase != Buffering { return; }
      var toFlush := buffer;
      buffer := [];
      phase := Delivering;
      for i := 0 to |toFlush|
        invariant delivered == toFlush[..i]
        invariant replay == old(replay) && buffered == old(buffered) && log == old(log)
        invariant buffer == [] && phase == Delivering
      {
        delivered := delivered + [toFlush[i]];
      }
      assert toFlush[..|toFlush|] == toFlush;
      assert Sent() == old(Sent()) + toFlush;
    }

    /** Nothing is delivered after this; what was sent stays a prefix of what was due. */
    method Unsubscribe()
      requires Valid() && phase != Subscribed
      modifies this
      ensures Valid() && phase == Stopped && log == old(log) && Sent() == old(Sent())
    {
      phase := Stopped;
      buffer := [];
    }
  }

  /**
   The buyer's subscription delivers the raw log after the cursor: all of it once live, with what waits while
   buffering, the beginning of it if stopped.
   */
  lemma {:induction false} BuyerIsSentTheLog(sub: Subscription, buyer: string)
    requires sub.Valid() && sub.sees == Sees(buyer, buyer)
    ensures FollowsCursor(sub.log, sub.afterId, sub.log[sub.start..])
    ensures sub.phase == Delivering ==> sub.Sent() == sub.log[sub.start..]
    ensures sub.phase == Buffering ==> sub.Sent() + sub.buffer == sub.log[sub.start..]
    ensures sub.phase == Stopped ==> sub.Sent() <= sub.log[sub.start..]
  {
    BuyerSeesAll(sub.log[sub.start..], buyer);
    BuyerReadsTheLog(sub.log, buyer, sub.afterId);
  }
}
