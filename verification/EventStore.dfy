/**
 `InMemoryEventStore`: append with its two guards, filtered reads after a cursor, cursor polling,
 and the two-phase replay/subscribe protocol of `subscribeFrom`.
 */
module EventStore {
  import opened Protocol
  import opened Routes

  /** `findIndex` by event id. */
  function IndexOf(log: seq<Event>, id: string): (k: Option<nat>)
    ensures k.Some? ==> k.value < |log| && log[k.value].id == id
    ensures k.Some? ==> forall i :: 0 <= i < k.value ==> log[i].id != id
    ensures k.None? ==> forall i :: 0 <= i < |log| ==> log[i].id != id
  {
    if log == [] then None
    else match IndexOf(log[..|log| - 1], id)
      case Some(k) => Some(k)
      case None => if log[|log| - 1].id == id then Some(|log| - 1) else None
  }

  /** Where a read starts: after the cursor, at the beginning without one, nowhere if it is unknown. */
  function StartOf(log: seq<Event>, cursor: Option<string>): (n: Option<nat>)
    ensures n.Some? ==> n.value <= |log|
  {
    match cursor
    case None => Some(0)
    case Some(id) => match IndexOf(log, id) case Some(k) => Some(k + 1) case None => None
  }

  /** What `getEvents` must return. */
  function EventsAfter(log: seq<Event>, sees: Event -> bool, cursor: Option<string>): seq<Event> {
    match StartOf(log, cursor)
    case None => []
    case Some(n) => Visible(log[n..], sees)
  }

  /** `rest` is what follows the cursor in the raw log; nothing follows an unknown cursor. */
  ghost predicate FollowsCursor(log: seq<Event>, cursor: Option<string>, rest: seq<Event>) {
    match cursor
    case None => rest == log
    case Some(id) =>
      || (rest == [] && forall i :: 0 <= i < |log| ==> log[i].id != id)
      || exists k :: 0 <= k < |log| && log[k].id == id && (forall i :: 0 <= i < k ==> log[i].id != id)
                     && rest == log[k + 1..]
  }

  /** Nothing of a log is hidden from its buyer. */
  lemma {:induction false} BuyerSeesAll(log: seq<Event>, buyer: string)
    ensures Visible(log, Sees(buyer, buyer)) == log
  {
    if log != [] {
      BuyerSeesAll(log[..|log| - 1], buyer);
      assert log == log[..|log| - 1] + [log[|log| - 1]];
    }
  }

  /** The buyer reads the raw log after the cursor. */
  lemma {:induction false} BuyerReadsTheLog(log: seq<Event>, buyer: string, cursor: Option<string>)
    ensures FollowsCursor(log, cursor, EventsAfter(log, Sees(buyer, buyer), cursor))
  {
    if StartOf(log, cursor).Some? {
      var n := StartOf(log, cursor).value;
      BuyerSeesAll(log[n..], buyer);
      if cursor.Some? { assert log[n - 1].id == cursor.value; } else { assert log[0..] == log; }
    }
  }

  /** Logs are non-empty, without repeated ids, and hold their own session's events. */
  ghost predicate LogsSound(logs: Logs) {
    forall r :: r in logs ==> logs[r] != [] && DistinctIds(logs[r]) && OwnsEvents(r, logs[r])
  }

  ghost predicate OwnsEvents(r: string, log: seq<Event>) {
    forall i :: 0 <= i < |log| ==> log[i].rfqId == r
  }

  lemma {:induction false} AppendKeepsSound(logs: Logs, rfqId: string, e: Event)
    requires LogsSound(logs) && e.rfqId == rfqId && FreshId(logs, e.id)
    ensures LogsSound(logs[rfqId := LogOf(logs, rfqId) + [e]])
  {
    var log := LogOf(logs, rfqId);
    assert DistinctIds(log + [e]) && OwnsEvents(rfqId, log + [e]);
  }

  lemma {:induction false} VisibleNext(log: seq<Event>, start: nat, i: nat, sees: Event -> bool)
    requires start <= i < |log|
    ensures Visible(log[start..i + 1], sees) ==
            Visible(log[start..i], sees) + (if sees(log[i]) then [log[i]] else [])
  {
    assert log[start..i + 1][..i - start] == log[start..i];
  }

  class InMemoryEventStore {
    var events: Logs
    var seenEventIds: set<string>

    /** Stored logs are sound; the id set is exactly the ids stored. */
    ghost predicate Valid() reads this {
      LogsSound(events) && forall id :: id in seenEventIds <==> !FreshId(events, id)
    }

    constructor ()
      ensures Valid() && events == map[]
    {
      events, seenEventIds := map[], {};
    }

    /** Refuses a foreign or repeated event and changes nothing then; otherwise pushes at the end. */
    method Append(rfqId: string, event: Event) returns (ok: bool)
      requires Valid()
      modifies this
      ensures Valid()
      ensures ok <==> event.rfqId == rfqId && FreshId(old(events), event.id)
      ensures events == if ok then old(events)[rfqId := LogOf(old(events), rfqId) + [event]] else old(events)
    {
      if rfqId != event.rfqId { return false; }
      if event.id in seenEventIds { return false; }
      seenEventIds := seenEventIds + {event.id};
      AppendKeepsSound(events, rfqId, event);
      if rfqId in events {
        events := events[rfqId := events[rfqId] + [event]];
      } else {
        assert [] + [event] == [event];
        events := events[rfqId := [event]];
      }
      FreshAfterAppend(old(events), rfqId, event);
      ok := true;
    }

    method GetEvents(rfqId: string, caller: string, buyer: string, afterId: Option<string>) returns (result: seq<Event>)
      ensures result == EventsAfter(LogOf(events, rfqId), Sees(caller, buyer), afterId)
      ensures caller == buyer ==> FollowsCursor(LogOf(events, rfqId), afterId, result)
    {
      BuyerReadsTheLog(LogOf(events, rfqId), buyer, afterId);
      hide FollowsCursor;
      if rfqId !in events { return []; }
      var log := events[rfqId];
      var start := 0;
      if afterId.Some? {
        var cursor := IndexOf(log, afterId.value);
        if cursor.None? { return []; }
        start := cursor.value + 1;
      }
      result := [];
      for i := start to |log|
        invariant result == Visible(log[start..i], Sees(caller, buyer))
      {
        VisibleNext(log, start, i, Sees(caller, buyer));
        if VisibleTo(log[i], caller, buyer) {
          result := result + [log[i]];
        }
      }
      assert log[start..|log|] == log[start..];
    }
  }

  lemma {:induction false} FreshAfterAppend(logs: Logs, rfqId: string, e: Event)
    ensures forall id :: FreshId(logs[rfqId := LogOf(logs, rfqId) + [e]], id) <==> FreshId(logs, id) && id != e.id
  {
    var next := logs[rfqId := LogOf(logs, rfqId) + [e]];
    forall id
      ensures FreshId(next, id) <==> FreshId(logs, id) && id != e.id
    {
      if FreshId(next, id) {
        assert next[rfqId][|next[rfqId]| - 1] == e;
        forall r, i | r in logs && 0 <= i < |logs[r]| ensures logs[r][i].id != id {
          assert next[r][i] == logs[r][i];
        }
      }
    }
  }

  // ---- Polling: GET /rfqs/:id/events in JSON mode ----

  /** The cursor the route returns: the last event's id, or the cursor it was given. */
  function NextCursor(events: seq<Event>, cursor: Option<string>): Option<string> {
    if events == [] then cursor else Some(events[|events| - 1].id)
  }

  /** All events a client receives by polling once per log in `logs`, always with the last returned cursor. */
  function PollAll(logs: seq<seq<Event>>, sees: Event -> bool, cursor: Option<string>): seq<Event> {
    if logs == [] then []
    else
      var got := EventsAfter(logs[0], sees, cursor);
      got + PollAll(logs[1..], sees, NextCursor(got, cursor))
  }

  /** Successive contents of one append-only log. */
  ghost predicate Growing(logs: seq<seq<Event>>) {
    forall i, j :: 0 <= i <= j < |logs| ==> logs[i] <= logs[j]
  }

  /** After the last visible event nothing visible follows. */
  lemma {:induction false} LastVisible(log: seq<Event>, sees: Event -> bool) returns (k: nat)
    requires Visible(log, sees) != []
    ensures k < |log| && Visible(log, sees)[|Visible(log, sees)| - 1] == log[k]
    ensures Visible(log[k + 1..], sees) == []
  {
    var n := |log| - 1;
    if sees(log[n]) {
      k := n;
      assert log[k + 1..] == [];
    } else {
      assert Visible(log, sees) == Visible(log[..n], sees);
      k := LastVisible(log[..n], sees);
      assert log[k + 1..][..n - (k + 1)] == log[..n][k + 1..];
    }
  }

  lemma {:induction false} LastVisibleFrom(log: seq<Event>, n: nat, sees: Event -> bool) returns (k: nat)
    requires n <= |log| && Visible(log[n..], sees) != []
    ensures n <= k < |log| && Visible(log[n..], sees)[|Visible(log[n..], sees)| - 1] == log[k]
    ensures Visible(log[k + 1..], sees) == []
  {
    var tail := log[n..];
    var j := LastVisible(tail, sees);
    k := n + j;
    assert tail[j + 1..] == log[k + 1..];
  }

  lemma {:induction false} CursorAt(log: seq<Event>, k: nat)
    requires DistinctIds(log) && k < |log|
    ensures StartOf(log, Some(log[k].id)) == Some(k + 1)
  {
  }

  /** A cursor keeps its meaning while the log grows. */
  lemma {:induction false} StartIsStable(log: seq<Event>, longer: seq<Event>, cursor: Option<string>)
    requires log <= longer && DistinctIds(longer) && StartOf(log, cursor).Some?
    ensures StartOf(longer, cursor) == StartOf(log, cursor)
  {
    if cursor.Some? {
      CursorAt(longer, StartOf(log, cursor).value - 1);
    }
  }

  /** After a poll, the returned cursor leaves nothing visible behind in the log that was read. */
  lemma {:induction false} PollStep(log: seq<Event>, n: nat, sees: Event -> bool, cursor: Option<string>)
    returns (m: nat)
    requires DistinctIds(log) && StartOf(log, cursor) == Some(n)
    ensures StartOf(log, NextCursor(Visible(log[n..], sees), cursor)) == Some(m)
    ensures Visible(log[m..], sees) == []
  {
    if Visible(log[n..], sees) == [] {
      m := n;
    } else {
      var k := LastVisibleFrom(log, n, sees);
      m := k + 1;
      CursorAt(log, k);
    }
  }

  lemma {:induction false} VisibleFrom(first: seq<Event>, last: seq<Event>, n: nat, sees: Event -> bool)
    requires first <= last && n <= |first|
    ensures Visible(last[n..], sees) == Visible(first[n..], sees) + Visible(last[|first|..], sees)
  {
    assert last[n..] == first[n..] + last[|first|..];
    VisibleConcat(first[n..], last[|first|..], sees);
  }

  lemma {:induction false} NothingBetween(first: seq<Event>, last: seq<Event>, n: nat, m: nat, sees: Event -> bool)
    requires first <= last && n <= |first| && m <= |first| && Visible(first[m..], sees) == []
    ensures Visible(last[n..], sees) == Visible(first[n..], sees) + Visible(last[m..], sees)
  {
    var grown := Visible(last[|first|..], sees);
    assert Visible(last[n..], sees) == Visible(first[n..], sees) + grown by { VisibleFrom(first, last, n, sees); }
    assert Visible(last[m..], sees) == grown by {
      VisibleFrom(first, last, m, sees);
      assert [] + grown == grown;
    }
  }

  lemma {:induction false} DistinctPrefix(log: seq<Event>, longer: seq<Event>)
    requires log <= longer && DistinctIds(longer)
    ensures DistinctIds(log)
  {
  }

  lemma {:induction false} RestGrows(logs: seq<seq<Event>>)
    requires Growing(logs) && |logs| > 1
    ensures var rest := logs[1..];
            Growing(rest) && logs[0] <= rest[0] <= rest[|rest| - 1] == logs[|logs| - 1]
  {
    var rest := logs[1..];
    forall i, j | 0 <= i <= j < |rest| ensures rest[i] <= rest[j] {
      assert logs[i + 1] <= logs[j + 1];
    }
    assert logs[0] <= logs[1] && logs[1] <= logs[|logs| - 1];
  }

  lemma {:induction false} PollOnce(logs: seq<seq<Event>>, sees: Event -> bool, cursor: Option<string>, n: nat)
    requires logs != [] && StartOf(logs[0], cursor) == Some(n)
    ensures var got := Visible(logs[0][n..], sees);
            PollAll(logs, sees, cursor) == got + PollAll(logs[1..], sees, NextCursor(got, cursor))
  {
  }

  /** Where the next poll starts in the next log, and what the first log still owes then: nothing. */
  lemma {:induction false} NextPollStart(first: seq<Event>, second: seq<Event>, sees: Event -> bool,
                                         cursor: Option<string>, n: nat)
    returns (m: nat)
    requires first <= second && DistinctIds(second) && StartOf(first, cursor) == Some(n)
    ensures m <= |first| && Visible(first[m..], sees) == []
    ensures StartOf(second, NextCursor(Visible(first[n..], sees), cursor)) == Some(m)
  {
    DistinctPrefix(first, second);
    m := PollStep(first, n, sees, cursor);
    StartIsStable(first, second, NextCursor(Visible(first[n..], sees), cursor));
  }

  /**
   Polling any number of times, with appends between polls, delivers exactly the visible events after the
   first cursor: none lost, none twice, in log order.
   */
  lemma {:induction false} PollingIsExact(logs: seq<seq<Event>>, sees: Event -> bool, cursor: Option<string>, n: nat)
    requires logs != [] && Growing(logs) && DistinctIds(logs[|logs| - 1]) && StartOf(logs[0], cursor) == Some(n)
    ensures n <= |logs[|logs| - 1]| && PollAll(logs, sees, cursor) == Visible(logs[|logs| - 1][n..], sees)
    decreases |logs|
  {
    PollOnce(logs, sees, cursor, n);
    if |logs| > 1 {
      var first, last, rest := logs[0], logs[|logs| - 1], logs[1..];
      RestGrows(logs);
      DistinctPrefix(rest[0], last);
      var m := NextPollStart(first, rest[0], sees, cursor, n);
      PollingIsExact(rest, sees, NextCursor(Visible(first[n..], sees), cursor), m);
      NothingBetween(first, last, n, m, sees);
    }
  }

  /** A polling buyer receives the raw log after the first cursor. */
  lemma {:induction false} BuyerPollsTheLog(logs: seq<seq<Event>>, buyer: string, cursor: Option<string>)
    requires logs != [] && Growing(logs) && DistinctIds(logs[|logs| - 1])
    requires cursor.Some? ==> exists k :: 0 <= k < |logs[0]| && logs[0][k].id == cursor.value
    ensures FollowsCursor(logs[|logs| - 1], cursor, PollAll(logs, Sees(buyer, buyer), cursor))
  {
    var last := logs[|logs| - 1];
    var n := StartOf(logs[0], cursor).value;
    PollingIsExact(logs, Sees(buyer, buyer), cursor, n);
    assert logs[0] <= last;
    StartIsStable(logs[0], last, cursor);
    BuyerReadsTheLog(last, buyer, cursor);
  }
}
