/**
 `StatsCollector`: counters kept up to date event by event, either live (with the derived session at hand) or
 by replaying raw events with a simplified state machine. Both are compared with what the logs themselves say:
 every number is a sum over sessions of what that session's log contributes.

 The per-session offer, counter and seller fields of the ledger are never read and are not modelled.
 */
module StatsCollection {
  import opened Protocol
  import opened Reducer
  import opened ReducerHistory
  import opened Routes
  import opened Collections
  import EngineRuns

  datatype LedgerEntry = LedgerEntry(state: SessionState, createdAt: int)

  datatype Stats = Stats(
    byState: map<SessionState, int>,
    completedDeals: int,
    terminalSessions: int,
    totalDurationMs: int,
    totalOffers: int,
    totalCounters: int,
    buyers: set<string>,
    sellers: set<string>,
    ledger: map<string, LedgerEntry>)

  const NO_SESSIONS := Stats(
    map[Open := 0, Negotiating := 0, CommitPending := 0, Committed := 0, Expired := 0, Cancelled := 0],
    0, 0, 0, 0, 0, {}, {}, map[])

  function At(m: map<SessionState, int>, st: SessionState): int {
    if st in m then m[st] else 0
  }

  function Positive(n: int): int { if n > 0 then n else 0 }

  // ---- The two update paths ----

  function AddSession(st: Stats, e: Event, state: SessionState, buyer: string): Stats {
    st.(byState := st.byState[state := At(st.byState, state) + 1], buyers := st.buyers + {buyer},
        ledger := st.ledger[e.rfqId := LedgerEntry(state, e.timestamp)])
  }

  /** One session moves from its ledger state to `state`; the decrement is clamped at zero. */
  function MoveSession(st: Stats, e: Event, state: SessionState): Stats
    requires e.rfqId in st.ledger
  {
    var entry := st.ledger[e.rfqId];
    if entry.state == state then st
    else
      var down := st.byState[entry.state := Positive(At(st.byState, entry.state) - 1)];
      var moved := st.(byState := down[state := At(down, state) + 1],
                       ledger := st.ledger[e.rfqId := entry.(state := state)]);
      if !Terminal(state) then moved
      else moved.(terminalSessions := st.terminalSessions + 1,
                  totalDurationMs := st.totalDurationMs + Positive(e.timestamp - entry.createdAt),
                  completedDeals := st.completedDeals + (if state == Committed then 1 else 0))
  }

  /** `processEventType` */
  function CountEvent(st: Stats, e: Event): Stats {
    if e.ty == OfferSubmitted then
      st.(totalOffers := st.totalOffers + 1,
          sellers := if e.rfqId in st.ledger && TextAt(e.payload, KSeller).Some?
                     then st.sellers + {TextAt(e.payload, KSeller).value} else st.sellers)
    else if e.ty == CounterSent then st.(totalCounters := st.totalCounters + 1)
    else st
  }

  /** One event of a session that is now in `state`; `buyer` matters only for a new session. */
  function Record(st: Stats, e: Event, state: SessionState, buyer: string): Stats {
    CountEvent(if e.rfqId in st.ledger then MoveSession(st, e, state) else AddSession(st, e, state, buyer), e)
  }

  /** The live path: called after an append with the session derived from the longer log. */
  function OnEvent(st: Stats, e: Event, s: Session): Stats {
    Record(st, e, s.state, s.rfq.buyer)
  }

  /** `deriveNextState`: the simplified state machine of the replay path. */
  function DeriveNextState(current: SessionState, ty: EventType): Option<SessionState> {
    match ty
    case OfferSubmitted => if current == Open then Some(Negotiating) else None
    case WinnerSelected => Some(CommitPending)
    case QuoteCommitted => Some(Committed)
    case NegotiationExpired => Some(Expired)
    case NegotiationCancelled => Some(Cancelled)
    case CosignDeclined => if current == CommitPending then Some(Negotiating) else None
    case CosignTimeout => if current == CommitPending then Some(Negotiating) else None
    case _ => None
  }

  /** The replay path: no session at hand, the buyer is the creating event's actor. */
  function ProcessRawEvent(st: Stats, e: Event): Stats {
    var added := if e.ty == RfqCreated then AddSession(st, e, Open, e.actor) else st;
    if e.rfqId !in added.ledger then added
    else
      var next := DeriveNextState(added.ledger[e.rfqId].state, e.ty);
      CountEvent(if next.Some? then MoveSession(added, e, next.value) else added, e)
  }

  // ---- Traces: any interleaving of session logs ----

  /** The logs a sequence of appends builds. */
  function LogsOf(trace: seq<Event>): Logs {
    if trace == [] then map[]
    else
      var e := trace[|trace| - 1];
      var logs := LogsOf(trace[..|trace| - 1]);
      logs[e.rfqId := LogOf(logs, e.rfqId) + [e]]
  }

  /** Every append was accepted by the reducer. */
  ghost predicate WellFormed(trace: seq<Event>) {
    forall r :: r in LogsOf(trace) ==> Accepted(LogsOf(trace)[r])
  }

  function LiveRun(trace: seq<Event>): Stats {
    if trace == [] then NO_SESSIONS
    else
      var e := trace[|trace| - 1];
      var before := LiveRun(trace[..|trace| - 1]);
      match Derive(LogOf(LogsOf(trace), e.rfqId))
      case Live(s) => OnEvent(before, e, s)
      case _ => before
  }

  function RawRun(trace: seq<Event>): Stats {
    if trace == [] then NO_SESSIONS else ProcessRawEvent(RawRun(trace[..|trace| - 1]), trace[|trace| - 1])
  }

  /** What the collector's constructor replays: session by session. */
  function ReplayOrder(logs: Logs, ids: seq<string>): seq<Event> {
    if ids == [] then []
    else ReplayOrder(logs, ids[..|ids| - 1]) + LogOf(logs, ids[|ids| - 1])
  }

  // ---- What the logs say ----

  function StateOf(log: seq<Event>): SessionState {
    match Derive(log) case Live(s) => s.state case _ => Open
  }

  /** Milliseconds from creation to the event that ended the session; zero while it is open. */
  function DurationOf(log: seq<Event>): int {
    if |log| <= 1 then 0
    else
      var before := log[..|log| - 1];
      if Terminal(StateOf(before)) then DurationOf(before)
      else if Terminal(StateOf(log)) then Positive(log[|log| - 1].timestamp - log[0].timestamp)
      else 0
  }

  function Indicator(b: bool): int { if b then 1 else 0 }

  /** One session's contribution to one statistic. */
  datatype Measure = InState(st: SessionState) | Deals | Ended | Duration | Offers | Counters

  function Contribution(log: seq<Event>, m: Measure): int {
    match m
    case InState(st) => Indicator(StateOf(log) == st)
    case Deals => Indicator(StateOf(log) == Committed)
    case Ended => Indicator(Terminal(StateOf(log)))
    case Duration => DurationOf(log)
    case Offers => CountType(log, OfferSubmitted)
    case Counters => CountType(log, CounterSent)
  }

  ghost function Total(logs: Logs, m: Measure): int {
    Sum(map r | r in logs :: Contribution(logs[r], m))
  }

  function Reading(st: Stats, m: Measure): int {
    match m
    case InState(x) => At(st.byState, x)
    case Deals => st.completedDeals
    case Ended => st.terminalSessions
    case Duration => st.totalDurationMs
    case Offers => st.totalOffers
    case Counters => st.totalCounters
  }

  lemma {:induction false} TotalAfterAppend(logs: Logs, rfqId: string, log: seq<Event>, m: Measure)
    ensures Total(logs[rfqId := log], m) ==
            Total(logs, m) + Contribution(log, m) - (if rfqId in logs then Contribution(logs[rfqId], m) else 0)
  {
    var before := map r | r in logs :: Contribution(logs[r], m);
    var next := logs[rfqId := log];
    assert (map r | r in next :: Contribution(next[r], m)) == before[rfqId := Contribution(log, m)];
    SumUpdate(before, rfqId, Contribution(log, m));
  }

  /** The ledger knows every session's state and creation instant. */
  ghost predicate LedgerAgrees(st: Stats, logs: Logs) {
    && st.ledger.Keys == logs.Keys
    && forall r :: r in logs ==> logs[r] != [] && st.ledger[r] == LedgerEntry(StateOf(logs[r]), logs[r][0].timestamp)
  }

  ghost predicate NumbersAgree(st: Stats, logs: Logs) {
    && (forall x: SessionState :: x in st.byState)
    && forall m :: Reading(st, m) == Total(logs, m)
  }

  /** Sellers named by a log's offers. */
  function SellersOf(log: seq<Event>): set<string> {
    if log == [] then {}
    else
      var e := log[|log| - 1];
      SellersOf(log[..|log| - 1]) +
      (if e.ty == OfferSubmitted && TextAt(e.payload, KSeller).Some? then {TextAt(e.payload, KSeller).value} else {})
  }

  /** The live path takes the buyer from the payload, the replay path from the actor. */
  function BuyerOf(log: seq<Event>, raw: bool): string {
    if log == [] then ""
    else if raw then log[0].actor
    else match TextAt(log[0].payload, KBuyer) case Some(b) => b case None => ""
  }

  ghost predicate IsSeller(logs: Logs, x: string) {
    exists r :: r in logs && x in SellersOf(logs[r])
  }

  ghost predicate IsBuyer(logs: Logs, raw: bool, x: string) {
    exists r :: r in logs && x == BuyerOf(logs[r], raw)
  }

  ghost predicate PeopleAgree(st: Stats, logs: Logs, raw: bool) {
    && (forall x :: x in st.sellers <==> IsSeller(logs, x))
    && (forall x :: x in st.buyers <==> IsBuyer(logs, raw, x))
  }

  /** The collector says exactly what the logs say. */
  ghost predicate Agrees(st: Stats, logs: Logs, raw: bool) {
    LedgerAgrees(st, logs) && NumbersAgree(st, logs) && PeopleAgree(st, logs, raw)
  }

  // ---- One event ----

  /** A session in the ledger is counted under its state, so the decrement's clamp at zero never fires. */
  lemma {:induction false} ClampNeverFires(st: Stats, logs: Logs, rfqId: string)
    requires LedgerAgrees(st, logs) && NumbersAgree(st, logs) && rfqId in logs
    ensures At(st.byState, st.ledger[rfqId].state) >= 1
  {
    var m := InState(StateOf(logs[rfqId]));
    var each := map r | r in logs :: Contribution(logs[r], m);
    SumAtLeast(each, rfqId);
    assert each[rfqId] == 1;
    assert Reading(st, m) == Total(logs, m);
  }

  /** How much one event changes a measure when it takes a session from state `a` to state `b`. */
  function Delta(m: Measure, a: SessionState, b: SessionState, e: Event, createdAt: int): int {
    match m
    case InState(x) => Indicator(b == x) - Indicator(a == x)
    case Deals => Indicator(b == Committed) - Indicator(a == Committed)
    case Ended => Indicator(Terminal(b)) - Indicator(Terminal(a))
    case Duration => if a != b && Terminal(b) then Positive(e.timestamp - createdAt) else 0
    case Offers => Indicator(e.ty == OfferSubmitted)
    case Counters => Indicator(e.ty == CounterSent)
  }

  lemma {:induction false} ReadingsCount(st: Stats, e: Event, m: Measure)
    ensures Reading(CountEvent(st, e), m) ==
            Reading(st, m) + (if m.Offers? || m.Counters? then Delta(m, Open, Open, e, 0) else 0)
  {
  }

  lemma {:induction false} ReadingsOfMove(st: Stats, e: Event, b: SessionState, m: Measure)
    requires e.rfqId in st.ledger && At(st.byState, st.ledger[e.rfqId].state) >= 1
    requires Terminal(st.ledger[e.rfqId].state) ==> b == st.ledger[e.rfqId].state
    ensures var entry := st.ledger[e.rfqId];
            Reading(MoveSession(st, e, b), m) ==
            Reading(st, m) + (if m.Offers? || m.Counters? then 0 else Delta(m, entry.state, b, e, entry.createdAt))
  {
  }

  lemma {:induction false} ReadingsMove(st: Stats, e: Event, b: SessionState, m: Measure)
    requires e.rfqId in st.ledger && At(st.byState, st.ledger[e.rfqId].state) >= 1
    requires Terminal(st.ledger[e.rfqId].state) ==> b == st.ledger[e.rfqId].state
    ensures var entry := st.ledger[e.rfqId];
            Reading(CountEvent(MoveSession(st, e, b), e), m) ==
                Reading(st, m) + Delta(m, entry.state, b, e, entry.createdAt)
  {
    hide CountEvent, MoveSession, Reading;
    ReadingsOfMove(st, e, b, m);
    ReadingsCount(MoveSession(st, e, b), e, m);
  }

  lemma {:induction false} TerminalKeepsState(log: seq<Event>, e: Event)
    requires Accepted(log) && Accepted(log + [e])
    ensures Terminal(StateOf(log)) ==> StateOf(log + [e]) == StateOf(log)
  {
    DeriveSnoc(log, e);
  }

  lemma {:induction false} ContributionsMove(log: seq<Event>, e: Event, m: Measure)
    requires Accepted(log) && Accepted(log + [e])
    ensures Contribution(log + [e], m) ==
            Contribution(log, m) + Delta(m, StateOf(log), StateOf(log + [e]), e, log[0].timestamp)
  {
    assert (log + [e])[..|log|] == log && (log + [e])[0] == log[0];
    if m == Duration { DurationMoves(log, e); }
  }

  lemma {:induction false} DurationMoves(log: seq<Event>, e: Event)
    requires Accepted(log) && Accepted(log + [e])
    ensures DurationOf(log + [e]) ==
            DurationOf(log) + Delta(Duration, StateOf(log), StateOf(log + [e]), e, log[0].timestamp)
  {
    assert (log + [e])[..|log|] == log && (log + [e])[0] == log[0];
    TerminalKeepsState(log, e);
    if !Terminal(StateOf(log)) { OpenHasNoDuration(log); }
  }

  lemma {:induction false} OpenHasNoDuration(log: seq<Event>)
    requires Accepted(log) && !Terminal(StateOf(log))
    ensures DurationOf(log) == 0
  {
    hide Derive;
    if |log| > 1 {
      var before, e := log[..|log| - 1], log[|log| - 1];
      PrefixAccepted(log, |log| - 1);
      assert log == before + [e];
      TerminalKeepsState(before, e);
    }
  }

  lemma {:induction false} FirstIsCreation(e: Event)
    requires Accepted([e])
    ensures e.ty == RfqCreated && StateOf([e]) == Open && Derive([e]).s.rfq.buyer == BuyerOf([e], false)
  {
    assert [] + [e] == [e];
    DeriveSnoc([], e);
    assert Derive([e]) == Create(e);
    var named := TextAt(e.payload, KBuyer);
    assert named.Some? && ParseRfq(e.payload).value.buyer == named.value;
    assert [e][0] == e && BuyerOf([e], false) == named.value;
  }

  lemma {:induction false} NumbersStart(st: Stats, e: Event, buyer: string, m: Measure)
    requires Accepted([e])
    ensures Reading(CountEvent(AddSession(st, e, Open, buyer), e), m) == Reading(st, m) + Contribution([e], m)
  {
    FirstIsCreation(e);
    assert [e][..0] == [];
    assert CountType([e], OfferSubmitted) == CountType([e], CounterSent) == 0;
    assert DurationOf([e]) == 0;
    match m {
      case InState(x) =>
      case _ =>
    }
  }

  /** `e` can be appended to its session's log. */
  ghost predicate CanFollow(logs: Logs, e: Event) {
    AllAccepted(logs) && Accepted(LogOf(logs, e.rfqId) + [e])
  }

  function Appended(logs: Logs, e: Event): Logs {
    logs[e.rfqId := LogOf(logs, e.rfqId) + [e]]
  }

  /** What both paths do at the event `e`, given the logs before it. */
  function Recorded(st: Stats, logs: Logs, e: Event, raw: bool): Stats {
    var log := LogOf(logs, e.rfqId) + [e];
    Record(st, e, StateOf(log), BuyerOf(log, raw))
  }

  lemma {:induction false} NumbersStep(st: Stats, logs: Logs, e: Event, raw: bool, m: Measure)
    requires LedgerAgrees(st, logs) && NumbersAgree(st, logs) && CanFollow(logs, e)
    ensures Reading(Recorded(st, logs, e, raw), m) == Total(Appended(logs, e), m)
  {
    var log := LogOf(logs, e.rfqId);
    TotalAfterAppend(logs, e.rfqId, log + [e], m);
    assert Reading(st, m) == Total(logs, m);
    if e.rfqId in logs {
      ClampNeverFires(st, logs, e.rfqId);
      TerminalKeepsState(log, e);
      ReadingsMove(st, e, StateOf(log + [e]), m);
      ContributionsMove(log, e, m);
    } else {
      assert log + [e] == [e];
      FirstIsCreation(e);
      NumbersStart(st, e, BuyerOf([e], raw), m);
    }
  }

  function CreatedAt(st: Stats, e: Event): int {
    if e.rfqId in st.ledger then st.ledger[e.rfqId].createdAt else e.timestamp
  }

  lemma {:induction false} MoveEffects(st: Stats, e: Event, state: SessionState)
    requires e.rfqId in st.ledger
    ensures var next := MoveSession(st, e, state);
            && next.ledger == st.ledger[e.rfqId := LedgerEntry(state, CreatedAt(st, e))]
            && next.byState.Keys >= st.byState.Keys
            && next.sellers == st.sellers && next.buyers == st.buyers
  {
  }

  lemma {:induction false} AddEffects(st: Stats, e: Event, state: SessionState, buyer: string)
    requires e.rfqId !in st.ledger
    ensures var next := AddSession(st, e, state, buyer);
            && next.ledger == st.ledger[e.rfqId := LedgerEntry(state, CreatedAt(st, e))]
            && next.byState.Keys >= st.byState.Keys
            && next.sellers == st.sellers && next.buyers == st.buyers + {buyer}
  {
  }

  lemma {:induction false} CountEffects(st: Stats, e: Event)
    requires e.rfqId in st.ledger
    ensures var next := CountEvent(st, e);
            && next.ledger == st.ledger && next.byState == st.byState && next.buyers == st.buyers
            && next.sellers == st.sellers + NewSeller(e)
  {
  }

  /** What `Record` leaves in the ledger and in the sets, without reference to any log. */
  lemma {:induction false} RecordEffects(st: Stats, e: Event, state: SessionState, buyer: string)
    ensures var next := Record(st, e, state, buyer);
            && next.ledger == st.ledger[e.rfqId := LedgerEntry(state, CreatedAt(st, e))]
            && next.byState.Keys >= st.byState.Keys
            && next.sellers == st.sellers + NewSeller(e)
            && next.buyers == st.buyers + (if e.rfqId in st.ledger then {} else {buyer})
  {
    hide MoveSession, AddSession, CountEvent, NewSeller, CreatedAt;
    if e.rfqId in st.ledger {
      MoveEffects(st, e, state);
      CountEffects(MoveSession(st, e, state), e);
    } else {
      AddEffects(st, e, state, buyer);
      CountEffects(AddSession(st, e, state, buyer), e);
    }
  }

  lemma {:induction false} LedgerStep(st: Stats, logs: Logs, e: Event, raw: bool)
    requires LedgerAgrees(st, logs) && CanFollow(logs, e)
    ensures LedgerAgrees(Recorded(st, logs, e, raw), Appended(logs, e))
  {
    var log := LogOf(logs, e.rfqId) + [e];
    RecordEffects(st, e, StateOf(log), BuyerOf(log, raw));
    assert e.rfqId in logs ==> log[0] == logs[e.rfqId][0];
  }

  /** The seller an event adds to a log. */
  function NewSeller(e: Event): set<string> {
    if e.ty == OfferSubmitted && TextAt(e.payload, KSeller).Some? then {TextAt(e.payload, KSeller).value} else {}
  }

  lemma {:induction false} SellersSnoc(log: seq<Event>, e: Event)
    ensures SellersOf(log + [e]) == SellersOf(log) + NewSeller(e)
  {
    assert (log + [e])[..|log|] == log;
  }

  lemma {:induction false} SellersStep(logs: Logs, e: Event, x: string)
    ensures IsSeller(Appended(logs, e), x) <==> x in NewSeller(e) || IsSeller(logs, x)
  {
    var log, logs' := LogOf(logs, e.rfqId), Appended(logs, e);
    SellersSnoc(log, e);
    if IsSeller(logs', x) {
      var r :| r in logs' && x in SellersOf(logs'[r]);
      if r != e.rfqId { assert logs'[r] == logs[r]; }
    } else {
      assert x !in SellersOf(logs'[e.rfqId]);
      forall r | r in logs ensures x !in SellersOf(logs[r]) {
        assert x !in SellersOf(logs'[r]);
      }
    }
  }

  lemma {:induction false} BuyersStep(logs: Logs, e: Event, raw: bool, x: string)
    requires forall r :: r in logs ==> logs[r] != []
    ensures IsBuyer(Appended(logs, e), raw, x) <==>
              x == BuyerOf(LogOf(logs, e.rfqId) + [e], raw) || IsBuyer(logs, raw, x)
  {
    var log, logs' := LogOf(logs, e.rfqId) + [e], Appended(logs, e);
    if e.rfqId in logs { assert BuyerOf(log, raw) == BuyerOf(logs[e.rfqId], raw); }
    if x == BuyerOf(log, raw) { assert x == BuyerOf(logs'[e.rfqId], raw); }
    if r :| r in logs && x == BuyerOf(logs[r], raw) { assert x == BuyerOf(logs'[r], raw); }
  }

  lemma {:induction false} PeopleStep(st: Stats, logs: Logs, e: Event, raw: bool)
    requires PeopleAgree(st, logs, raw) && LedgerAgrees(st, logs)
    ensures PeopleAgree(Recorded(st, logs, e, raw), Appended(logs, e), raw)
  {
    var log := LogOf(logs, e.rfqId) + [e];
    var buyer := BuyerOf(log, raw);
    RecordEffects(st, e, StateOf(log), buyer);
    if e.rfqId in logs {
      assert buyer == BuyerOf(logs[e.rfqId], raw);
      assert IsBuyer(logs, raw, buyer);
    }
    forall x ensures IsSeller(Appended(logs, e), x) <==> x in st.sellers + NewSeller(e) {
      SellersStep(logs, e, x);
    }
    forall x ensures IsBuyer(Appended(logs, e), raw, x) <==> x in st.buyers + {buyer} {
      BuyersStep(logs, e, raw, x);
    }
  }

  /** After the event the collector still says exactly what the logs say. */
  lemma {:induction false} RecordedAgrees(st: Stats, logs: Logs, e: Event, raw: bool)
    requires Agrees(st, logs, raw) && CanFollow(logs, e)
    ensures Agrees(Recorded(st, logs, e, raw), Appended(logs, e), raw)
  {
    LedgerStep(st, logs, e, raw);
    PeopleStep(st, logs, e, raw);
    RecordEffects(st, e, StateOf(LogOf(logs, e.rfqId) + [e]), BuyerOf(LogOf(logs, e.rfqId) + [e], raw));
    forall m ensures Reading(Recorded(st, logs, e, raw), m) == Total(Appended(logs, e), m) {
      NumbersStep(st, logs, e, raw, m);
    }
  }

  lemma {:induction false} LiveIsRecorded(st: Stats, logs: Logs, e: Event)
    requires st.ledger.Keys == logs.Keys && CanFollow(logs, e)
    ensures OnEvent(st, e, Derive(LogOf(logs, e.rfqId) + [e]).s) == Recorded(st, logs, e, false)
  {
    if e.rfqId !in logs {
      assert LogOf(logs, e.rfqId) + [e] == [e];
      FirstIsCreation(e);
    }
  }

  /** The simplified state machine's step, as the dashboard and the admin replay walk it. */
  function WalkStep(current: SessionState, ty: EventType): SessionState {
    match DeriveNextState(current, ty) case Some(next) => next case None => current
  }

  lemma {:induction false} WalkFollowsApply(s: Session, e: Event)
    requires Apply(s, e).Live?
    ensures e.ty != RfqCreated && Apply(s, e).s.state == WalkStep(s.state, e.ty)
  {
  }

  lemma {:induction false} RawIsRecorded(st: Stats, logs: Logs, e: Event)
    requires LedgerAgrees(st, logs) && CanFollow(logs, e)
    ensures ProcessRawEvent(st, e) == Recorded(st, logs, e, true)
  {
    var log := LogOf(logs, e.rfqId);
    if e.rfqId in logs {
      DeriveSnoc(log, e);
      WalkFollowsApply(Derive(log).s, e);
      assert BuyerOf(log + [e], true) == log[0].actor;
    } else {
      assert log + [e] == [e];
      FirstIsCreation(e);
    }
  }

  // ---- Whole runs ----

  lemma {:induction false} ShorterIsWellFormed(trace: seq<Event>)
    requires WellFormed(trace) && trace != []
    ensures var e, shorter := trace[|trace| - 1], trace[..|trace| - 1];
            WellFormed(shorter) && CanFollow(LogsOf(shorter), e) && LogsOf(trace) == Appended(LogsOf(shorter), e)
  {
    var e, shorter := trace[|trace| - 1], trace[..|trace| - 1];
    var logs := LogsOf(shorter);
    LogsOwnTheirEvents(shorter);
    assert LogsOf(trace)[e.rfqId] == LogOf(logs, e.rfqId) + [e];
    forall r | r in logs ensures Accepted(logs[r]) {
      if r == e.rfqId {
        PrefixAccepted(logs[r] + [e], |logs[r]|);
        assert (logs[r] + [e])[..|logs[r]|] == logs[r];
      } else {
        assert LogsOf(trace)[r] == logs[r];
      }
    }
  }

  /** Each log is non-empty and holds only its own session's events. */
  lemma {:induction false} LogsOwnTheirEvents(trace: seq<Event>)
    ensures OwnEvents(LogsOf(trace))
  {
    if trace != [] { LogsOwnTheirEvents(trace[..|trace| - 1]); }
  }

  ghost predicate OwnEvents(logs: Logs) {
    forall r :: r in logs ==> logs[r] != [] && forall i :: 0 <= i < |logs[r]| ==> logs[r][i].rfqId == r
  }

  lemma {:induction false} NothingYet(raw: bool)
    ensures Agrees(NO_SESSIONS, map[], raw)
  {
    forall m: Measure ensures Reading(NO_SESSIONS, m) == Total(map[], m) {
      TotalOfNone(map[], m);
    }
    assert LedgerAgrees(NO_SESSIONS, map[]);
    forall x: SessionState ensures x in NO_SESSIONS.byState {
      match x { case Open => case _ => }
    }
    assert NumbersAgree(NO_SESSIONS, map[]);
    assert PeopleAgree(NO_SESSIONS, map[], raw);
  }

  lemma {:induction false} TotalOfNone(logs: Logs, m: Measure)
    ensures logs == map[] ==> Total(logs, m) == 0
  {
    var each := map r | r in logs :: Contribution(logs[r], m);
    assert each.Keys == logs.Keys;
    assert logs == map[] ==> each == map[];
  }

  /** Live statistics of any interleaving of accepted session logs. */
  lemma {:induction false} LiveRunAgrees(trace: seq<Event>)
    requires WellFormed(trace)
    ensures Agrees(LiveRun(trace), LogsOf(trace), false)
  {
    if trace == [] {
      NothingYet(false);
    } else {
      var e, shorter := trace[|trace| - 1], trace[..|trace| - 1];
      ShorterIsWellFormed(trace);
      LiveRunAgrees(shorter);
      RecordedAgrees(LiveRun(shorter), LogsOf(shorter), e, false);
      LiveIsRecorded(LiveRun(shorter), LogsOf(shorter), e);
      assert LogOf(LogsOf(trace), e.rfqId) == LogOf(LogsOf(shorter), e.rfqId) + [e];
    }
  }

  /** Replayed statistics of any interleaving of accepted session logs. */
  lemma {:induction false} RawRunAgrees(trace: seq<Event>)
    requires WellFormed(trace)
    ensures Agrees(RawRun(trace), LogsOf(trace), true)
  {
    if trace == [] {
      NothingYet(true);
    } else {
      var e, shorter := trace[|trace| - 1], trace[..|trace| - 1];
      ShorterIsWellFormed(trace);
      RawRunAgrees(shorter);
      RecordedAgrees(RawRun(shorter), LogsOf(shorter), e, true);
      RawIsRecorded(RawRun(shorter), LogsOf(shorter), e);
    }
  }

  /** The creating events' actors are, as a set, the buyers their payloads name. */
  ghost predicate ActorsAreBuyers(logs: Logs) {
    forall x :: IsBuyer(logs, true, x) <==> IsBuyer(logs, false, x)
  }

  /** Every RFQ was created by the buyer it names. */
  ghost predicate CreatedByBuyers(logs: Logs) {
    forall r :: r in logs ==> BuyerOf(logs[r], true) == BuyerOf(logs[r], false)
  }

  lemma {:induction false} CreatorsAreBuyers(logs: Logs)
    requires CreatedByBuyers(logs)
    ensures ActorsAreBuyers(logs)
  {
    forall x ensures IsBuyer(logs, true, x) <==> IsBuyer(logs, false, x) {
      if r :| r in logs && x == BuyerOf(logs[r], true) { assert x == BuyerOf(logs[r], false); }
      if r :| r in logs && x == BuyerOf(logs[r], false) { assert x == BuyerOf(logs[r], true); }
    }
  }

  /** In every run of the engine every RFQ is created by the buyer it names. */
  lemma {:induction false} EngineBuyersAgree(env: Env, actions: seq<Action>)
    requires env.Valid()
    ensures CreatedByBuyers(Run(env, actions))
  {
    hide Run, BuyerOf, EngineRuns.LogOk;
    var logs := Run(env, actions);
    EngineRuns.RunKeepsLogs(env, actions);
    forall r | r in logs ensures BuyerOf(logs[r], true) == BuyerOf(logs[r], false) {
      CreatorIsBuyer(env, r, logs[r]);
    }
  }

  lemma {:induction false} CreatorIsBuyer(env: Env, rfqId: string, log: seq<Event>)
    requires log != [] && EngineRuns.LogOk(env, rfqId, log)
    ensures BuyerOf(log, true) == BuyerOf(log, false)
  {
    SessionCountsTheLog(log);
    var named := TextAt(log[0].payload, KBuyer);
    assert named.Some? && Derive(log).s.rfq.buyer == named.value;
  }

  /** Two collectors that say what the same logs say differ at most in their buyers. */
  lemma {:induction false} SameLogsSameStats(a: Stats, b: Stats, logs: Logs)
    requires Agrees(a, logs, false) && Agrees(b, logs, true)
    ensures a.(buyers := b.buyers) == b
    ensures a.buyers == b.buyers <==> ActorsAreBuyers(logs)
  {
    SameNumbers(a, b, logs);
    assert a.sellers == b.sellers;
    assert a.ledger == b.ledger;
    assert ActorsAreBuyers(logs) <==> forall x :: x in a.buyers <==> x in b.buyers;
  }

  lemma {:induction false} SameNumbers(a: Stats, b: Stats, logs: Logs)
    requires NumbersAgree(a, logs) && NumbersAgree(b, logs)
    ensures a == b.(ledger := a.ledger, buyers := a.buyers, sellers := a.sellers)
  {
    forall m: Measure ensures Reading(a, m) == Reading(b, m) {
      assert Reading(a, m) == Total(logs, m) == Reading(b, m);
    }
    forall x: SessionState ensures a.byState[x] == b.byState[x] {
      assert Reading(a, InState(x)) == Reading(b, InState(x));
    }
    assert a.byState == b.byState;
    assert Reading(a, Deals) == Reading(b, Deals) && Reading(a, Ended) == Reading(b, Ended);
    assert Reading(a, Duration) == Reading(b, Duration);
    assert Reading(a, Offers) == Reading(b, Offers) && Reading(a, Counters) == Reading(b, Counters);
  }

  lemma {:induction false} LogsOfSnoc(trace: seq<Event>, e: Event)
    ensures LogsOf(trace + [e]) == Appended(LogsOf(trace), e)
  {
    assert (trace + [e])[..|trace|] == trace;
  }

  lemma {:induction false} AppendedTwice(logs: Logs, rfqId: string, some: seq<Event>, e: Event)
    requires e.rfqId == rfqId
    ensures Appended(logs[rfqId := LogOf(logs, rfqId) + some], e) == logs[rfqId := LogOf(logs, rfqId) + (some + [e])]
  {
    assert LogOf(logs, rfqId) + some + [e] == LogOf(logs, rfqId) + (some + [e]);
  }

  /** Appending several events of one session. */
  lemma {:induction false} LogsOfBatch(trace: seq<Event>, more: seq<Event>, rfqId: string)
    requires more != [] && forall i :: 0 <= i < |more| ==> more[i].rfqId == rfqId
    ensures LogsOf(trace + more) == LogsOf(trace)[rfqId := LogOf(LogsOf(trace), rfqId) + more]
  {
    hide LogsOf;
    var shorter, e := more[..|more| - 1], more[|more| - 1];
    assert more == shorter + [e];
    assert trace + more == (trace + shorter) + [e];
    LogsOfSnoc(trace + shorter, e);
    if shorter == [] {
      assert trace + shorter == trace;
      assert more == [e];
    } else {
      LogsOfBatch(trace, shorter, rfqId);
      AppendedTwice(LogsOf(trace), rfqId, shorter, e);
    }
  }

  function Restrict(logs: Logs, ids: seq<string>): Logs {
    map r | r in logs && r in ids :: logs[r]
  }

  lemma {:induction false} RestrictSnoc(logs: Logs, ids: seq<string>)
    requires ids != [] && ids[|ids| - 1] in logs && Distinct(ids)
    ensures var r, others := ids[|ids| - 1], ids[..|ids| - 1];
            r !in others && Restrict(logs, ids) == Restrict(logs, others)[r := logs[r]]
  {
    var r, others := ids[|ids| - 1], ids[..|ids| - 1];
    assert ids == others + [r];
  }

  /** Session by session is one of the interleavings: it rebuilds the same logs. */
  lemma {:induction false} ReplayRebuildsLogs(logs: Logs, ids: seq<string>)
    requires OwnEvents(logs) && (forall r :: r in ids ==> r in logs) && Distinct(ids)
    ensures LogsOf(ReplayOrder(logs, ids)) == Restrict(logs, ids)
  {
    if ids != [] {
      var r, others := ids[|ids| - 1], ids[..|ids| - 1];
      ReplayRebuildsLogs(logs, others);
      RestrictSnoc(logs, ids);
      LogsOfBatch(ReplayOrder(logs, others), LogOf(logs, r), r);
      assert LogOf(Restrict(logs, others), r) + logs[r] == logs[r];
    }
  }

  /** `ids` lists the sessions, each once, in whatever order the store gives them. */
  ghost predicate Lists(ids: seq<string>, logs: Logs) {
    Distinct(ids) && forall r :: r in ids <==> r in logs
  }

  lemma {:induction false} ReplayKeepsLogs(logs: Logs, ids: seq<string>)
    requires OwnEvents(logs) && Lists(ids, logs)
    ensures LogsOf(ReplayOrder(logs, ids)) == logs
  {
    ReplayRebuildsLogs(logs, ids);
    assert Restrict(logs, ids) == logs;
  }

  /**
   For every interleaving of accepted logs, the statistics kept live and those rebuilt session by session, in any
   order of the sessions, are equal in every field but possibly the buyers. They are equal altogether if every RFQ
   was created by the buyer it names; the buyers are equal exactly if creators and named buyers are the same set.
   */
  lemma {:induction false} RestartAgreesWithLive(trace: seq<Event>, ids: seq<string>)
    requires WellFormed(trace) && Lists(ids, LogsOf(trace))
    ensures var live, restarted := LiveRun(trace), RawRun(ReplayOrder(LogsOf(trace), ids));
            && live.(buyers := restarted.buyers) == restarted
            && (CreatedByBuyers(LogsOf(trace)) ==> live == restarted)
            && (live.buyers == restarted.buyers <==> ActorsAreBuyers(LogsOf(trace)))
  {
    hide LiveRun, RawRun, LogsOf, Agrees, IsBuyer;
    var replay := ReplayOrder(LogsOf(trace), ids);
    LogsOwnTheirEvents(trace);
    ReplayKeepsLogs(LogsOf(trace), ids);
    LiveRunAgrees(trace);
    RawRunAgrees(replay);
    SameLogsSameStats(LiveRun(trace), RawRun(replay), LogsOf(trace));
    if CreatedByBuyers(LogsOf(trace)) { CreatorsAreBuyers(LogsOf(trace)); }
  }

  // ---- Restarted, then live again ----

  /** A collector that stood at `st` when `earlier` had been appended, after observing `trace` live. */
  function LiveFrom(st: Stats, earlier: seq<Event>, trace: seq<Event>): Stats {
    if trace == [] then st
    else
      var e := trace[|trace| - 1];
      var before := LiveFrom(st, earlier, trace[..|trace| - 1]);
      match Derive(LogOf(LogsOf(earlier + trace), e.rfqId))
      case Live(s) => OnEvent(before, e, s)
      case _ => before
  }

  /** Having been live all along is having gone on from where live stood. */
  lemma {:induction false} LiveGoesOn(earlier: seq<Event>, trace: seq<Event>)
    ensures LiveFrom(LiveRun(earlier), earlier, trace) == LiveRun(earlier + trace)
  {
    hide OnEvent, Derive, LogsOf;
    if trace == [] {
      assert earlier + trace == earlier;
    } else {
      LiveGoesOn(earlier, trace[..|trace| - 1]);
      assert (earlier + trace)[..|earlier + trace| - 1] == earlier + trace[..|trace| - 1];
      assert (earlier + trace)[|earlier + trace| - 1] == trace[|trace| - 1];
    }
  }

  lemma {:induction false} BuyersAreNotCounted(st: Stats, buyers: set<string>, e: Event)
    ensures CountEvent(st.(buyers := buyers), e) == CountEvent(st, e).(buyers := buyers)
  {
  }

  lemma {:induction false} BuyersDoNotMove(st: Stats, buyers: set<string>, e: Event, state: SessionState)
    requires e.rfqId in st.ledger
    ensures MoveSession(st.(buyers := buyers), e, state) == MoveSession(st, e, state).(buyers := buyers)
  {
  }

  lemma {:induction false} BuyersAreNotRead(st: Stats, buyers: set<string>, e: Event, s: Session)
    ensures var a, b := OnEvent(st, e, s), OnEvent(st.(buyers := buyers), e, s); a.(buyers := b.buyers) == b
  {
    hide CountEvent, MoveSession;
    if e.rfqId in st.ledger {
      BuyersDoNotMove(st, buyers, e, s.state);
      BuyersAreNotCounted(MoveSession(st, e, s.state), buyers, e);
    } else {
      BuyersAreNotCounted(AddSession(st, e, s.state, s.rfq.buyer), buyers + {s.rfq.buyer}, e);
    }
  }

  /** The buyers a collector starts with change nothing but its buyers. */
  lemma {:induction false} OnlyBuyersDiffer(a: Stats, b: Stats, earlier: seq<Event>, trace: seq<Event>)
    requires a.(buyers := b.buyers) == b
    ensures var x, y := LiveFrom(a, earlier, trace), LiveFrom(b, earlier, trace); x.(buyers := y.buyers) == y
  {
    hide OnEvent, Derive, LogsOf;
    if trace != [] {
      var before := trace[..|trace| - 1];
      OnlyBuyersDiffer(a, b, earlier, before);
      var d := Derive(LogOf(LogsOf(earlier + trace), trace[|trace| - 1].rfqId));
      var x, y := LiveFrom(a, earlier, before), LiveFrom(b, earlier, before);
      if d.Live? { BuyersAreNotRead(x, y.buyers, trace[|trace| - 1], d.s); }
    }
  }

  lemma {:induction false} PrefixIsWellFormed(earlier: seq<Event>, trace: seq<Event>)
    requires WellFormed(earlier + trace)
    ensures WellFormed(earlier)
  {
    hide LogsOf, CanFollow;
    if trace == [] {
      assert earlier + trace == earlier;
    } else {
      ShorterIsWellFormed(earlier + trace);
      assert (earlier + trace)[..|earlier + trace| - 1] == earlier + trace[..|trace| - 1];
      PrefixIsWellFormed(earlier, trace[..|trace| - 1]);
    }
  }

  /**
   The life of a collector: rebuilt from the stored logs at any point, live afterwards. It says what one that never
   stopped says, in every field but possibly the buyers, and in those too if every RFQ stored at the restart was
   created by the buyer it names.
   */
  lemma {:induction false} RestartedThenLive(earlier: seq<Event>, trace: seq<Event>, ids: seq<string>)
    requires WellFormed(earlier + trace) && Lists(ids, LogsOf(earlier))
    ensures var st := LiveFrom(RawRun(ReplayOrder(LogsOf(earlier), ids)), earlier, trace);
            var live := LiveRun(earlier + trace);
            st.(buyers := live.buyers) == live && (CreatedByBuyers(LogsOf(earlier)) ==> st == live)
  {
    hide LiveRun, RawRun, LogsOf, LiveFrom, ReplayOrder, CreatedByBuyers, WellFormed, ActorsAreBuyers;
    PrefixIsWellFormed(earlier, trace);
    RestartAgreesWithLive(earlier, ids);
    LiveGoesOn(earlier, trace);
    OnlyBuyersDiffer(RawRun(ReplayOrder(LogsOf(earlier), ids)), LiveRun(earlier), earlier, trace);
  }

  // ---- Runs of the engine ----

  /** The event a handler appends in this state, if any. */
  function EventsOf(env: Env, logs: Logs, a: Action): seq<Event> {
    if Appends(env, logs, a) then [NewEvent(a, Decide(env, LogOf(logs, a.rfqId), a))] else []
  }

  /** The events of a run in the order they were appended, which is the order the observers are told. */
  function Trace(env: Env, actions: seq<Action>): seq<Event> {
    if actions == [] then []
    else
      var before := actions[..|actions| - 1];
      Trace(env, before) + EventsOf(env, Run(env, before), actions[|actions| - 1])
  }

  lemma {:induction false} NextIsAppended(env: Env, logs: Logs, a: Action)
    requires AllAccepted(logs)
    ensures AllAccepted(Next(env, logs, a))
    ensures var es := EventsOf(env, logs, a);
            if es == [] then Next(env, logs, a) == logs else |es| == 1 && Next(env, logs, a) == Appended(logs, es[0])
  {
    hide Decide, Derive;
  }

  /** The appended events build exactly the logs of the run. */
  lemma {:induction false} TraceBuildsRun(env: Env, actions: seq<Action>)
    ensures LogsOf(Trace(env, actions)) == Run(env, actions) && AllAccepted(Run(env, actions))
  {
    hide Next, EventsOf, LogsOf, Appended, Accepted;
    if actions == [] {
      NothingAppended();
    } else {
      var before, a := actions[..|actions| - 1], actions[|actions| - 1];
      TraceBuildsRun(env, before);
      NextIsAppended(env, Run(env, before), a);
      var es := EventsOf(env, Run(env, before), a);
      if es == [] {
        assert Trace(env, before) + es == Trace(env, before);
      } else {
        assert es == [es[0]];
        LogsOfSnoc(Trace(env, before), es[0]);
      }
    }
  }

  lemma {:induction false} NothingAppended()
    ensures LogsOf([]) == map[]
  {
  }

  lemma {:induction false} TraceGrows(env: Env, actions: seq<Action>, n: nat)
    requires n <= |actions|
    ensures Trace(env, actions[..n]) <= Trace(env, actions)
  {
    hide EventsOf, Run;
    if n == |actions| {
      assert actions[..n] == actions;
    } else {
      var before := actions[..|actions| - 1];
      assert before[..n] == actions[..n];
      TraceGrows(env, before, n);
    }
  }

  /**
   In every run, a collector rebuilt from the stored logs after any number of actions and live afterwards says
   exactly what one live from the start says: a restart loses nothing at all.
   */
  lemma {:induction false} EngineRestartLosesNothing(env: Env, actions: seq<Action>, n: nat, ids: seq<string>)
    requires env.Valid() && n <= |actions| && Lists(ids, Run(env, actions[..n]))
    ensures var earlier, all := Trace(env, actions[..n]), Trace(env, actions);
            earlier <= all
            && LiveFrom(RawRun(ReplayOrder(Run(env, actions[..n]), ids)), earlier, all[|earlier|..]) == LiveRun(all)
  {
    hide Run, Trace, LiveFrom, LiveRun, RawRun, ReplayOrder, LogsOf, CreatedByBuyers, Accepted;
    var earlier, all := Trace(env, actions[..n]), Trace(env, actions);
    TraceGrows(env, actions, n);
    assert earlier + all[|earlier|..] == all;
    TraceBuildsRun(env, actions[..n]);
    TraceBuildsRun(env, actions);
    EngineBuyersAgree(env, actions[..n]);
    RestartedThenLive(earlier, all[|earlier|..], ids);
  }

  const RELAYED := Event("e1", "r", RfqCreated, 0, "relay",
    map[KBuyer := Text("alice"), KRfqId := Text("r"), KAnchorPrice := Text("1"),
        KCurrency := Text("USDC"), KDeadline := Text("d"), KServiceType := Text("t")])

  lemma {:induction false} RelayedIsAccepted()
    ensures Accepted([RELAYED]) && StateOf([RELAYED]) == Open && Derive([RELAYED]).s.rfq.buyer == "alice"
  {
    assert [] + [RELAYED] == [RELAYED];
    DeriveSnoc([], RELAYED);
    assert ParseRfq(RELAYED.payload).Some?;
  }

  /** The buyers can differ: an accepted log whose creating actor is not the payload's buyer. */
  lemma {:induction false} BuyersCanDiffer()
    ensures WellFormed([RELAYED]) && LiveRun([RELAYED]).buyers == {"alice"} && RawRun([RELAYED]).buyers == {"relay"}
  {
    var e := RELAYED;
    RelayedIsAccepted();
    assert [e][..0] == [] && [] + [e] == [e];
    assert LogsOf([e]) == map["r" := [e]];
    assert LiveRun([e]) == OnEvent(NO_SESSIONS, e, Derive([e]).s);
    assert RawRun([e]) == ProcessRawEvent(NO_SESSIONS, e);
    RecordEffects(NO_SESSIONS, e, Open, "alice");
    RecordEffects(NO_SESSIONS, e, Open, "relay");
  }

  /** The state shown beside each replayed event. */
  function Walk(log: seq<Event>): SessionState {
    if log == [] then Open else WalkStep(Walk(log[..|log| - 1]), log[|log| - 1].ty)
  }

  /** The simplified walk equals the reducer's state on every prefix of every accepted log. */
  lemma {:induction false} WalkIsDerive(log: seq<Event>, n: nat)
    requires Accepted(log) && 0 < n <= |log|
    ensures Accepted(log[..n]) && Walk(log[..n]) == Derive(log[..n]).s.state
  {
    PrefixAccepted(log, n);
    var front, e := log[..n][..n - 1], log[n - 1];
    assert front == log[..n - 1] && log[..n] == front + [e];
    DeriveSnoc(front, e);
    if n > 1 {
      WalkIsDerive(log, n - 1);
      WalkFollowsApply(Derive(front).s, e);
    }
  }

  /** The admin stream's walk also names the state at the audit marker. */
  function AdminWalkStep(current: SessionState, ty: EventType): SessionState {
    if ty == CommitMarker then CommitPending else WalkStep(current, ty)
  }

  lemma {:induction false} MarkerKeepsState(s: Session, e: Event)
    requires Apply(s, e).Live?
    ensures AdminWalkStep(s.state, e.ty) == WalkStep(s.state, e.ty)
  {
  }

  /** `states` are the reducer's states after each of the first events. */
  ghost predicate Shown(events: seq<Event>, states: seq<SessionState>) {
    |states| <= |events| && forall i :: 0 <= i < |states| ==> states[i] == StateOf(events[..i + 1])
  }

  lemma {:induction false} ShownOneMore(events: seq<Event>, states: seq<SessionState>, state: SessionState)
    requires Shown(events, states) && |states| < |events| && state == StateOf(events[..|states| + 1])
    ensures Shown(events, states + [state])
  {
    var longer := states + [state];
    forall i | 0 <= i < |longer| ensures longer[i] == StateOf(events[..i + 1]) {
      if i < |states| { assert longer[i] == states[i]; }
    }
  }

  /** The loop behind `state_after`, in the dashboard's form or the admin stream's: both show the reducer's state. */
  method StatesAfter(events: seq<Event>, admin: bool) returns (states: seq<SessionState>)
    requires Accepted(events)
    ensures |states| == |events| && Shown(events, states)
  {
    var current := Open;
    states := [];
    for n := 0 to |events|
      invariant |states| == n && current == Walk(events[..n]) && Shown(events, states)
    {
      var ty := events[n].ty;
      WalkAdvances(events, n);
      current := if admin then AdminWalkStep(current, ty) else WalkStep(current, ty);
      ShownOneMore(events, states, current);
      states := states + [current];
    }
  }

  lemma {:induction false} WalkAdvances(log: seq<Event>, n: nat)
    requires Accepted(log) && n < |log|
    ensures Accepted(log[..n + 1]) && Walk(log[..n + 1]) == Derive(log[..n + 1]).s.state
    ensures AdminWalkStep(Walk(log[..n]), log[n].ty) == WalkStep(Walk(log[..n]), log[n].ty) == Walk(log[..n + 1])
  {
    WalkIsDerive(log, n + 1);
    DeriveNext(log, n);
    hide Derive, Apply;
    assert log[..n + 1][..n] == log[..n];
    if n > 0 {
      WalkIsDerive(log, n);
      MarkerKeepsState(Derive(log[..n]).s, log[n]);
    }
  }

  // ---- What the dashboard derives from the counters ----

  lemma {:induction false} TotalSplit(logs: Logs, r: string, m: Measure)
    requires r in logs
    ensures Total(logs, m) == Total(logs - {r}, m) + Contribution(logs[r], m)
  {
    assert logs == (logs - {r})[r := logs[r]];
    TotalAfterAppend(logs - {r}, r, logs[r], m);
  }

  /** Active sessions and ended ones. */
  ghost function AllTotal(logs: Logs): int {
    Total(logs, InState(Open)) + Total(logs, InState(Negotiating)) + Total(logs, InState(CommitPending))
    + Total(logs, Ended)
  }

  lemma {:induction false} TotalsCountSessions(logs: Logs)
    ensures AllTotal(logs) == |logs|
    decreases |logs|
  {
    if logs == map[] {
      forall m: Measure ensures Total(logs, m) == 0 { TotalOfNone(logs, m); }
    } else {
      var r :| r in logs;
      TotalsCountSessions(logs - {r});
      SessionCountsOnce(logs, r);
    }
  }

  lemma {:induction false} SessionCountsOnce(logs: Logs, r: string)
    requires r in logs
    ensures AllTotal(logs) == AllTotal(logs - {r}) + 1
  {
    TotalSplit(logs, r, InState(Open));
    TotalSplit(logs, r, InState(Negotiating));
    TotalSplit(logs, r, InState(CommitPending));
    TotalSplit(logs, r, Ended);
    var state := StateOf(logs[r]);
    assert Indicator(state == Open) + Indicator(state == Negotiating) + Indicator(state == CommitPending)
           + Indicator(Terminal(state)) == 1;
  }

  /** Conservation: the dashboard's active sessions and the ended ones are together all sessions. */
  lemma {:induction false} CountsAreConserved(st: Stats, logs: Logs)
    requires LedgerAgrees(st, logs) && NumbersAgree(st, logs)
    ensures At(st.byState, Open) + At(st.byState, Negotiating) + At(st.byState, CommitPending) + st.terminalSessions ==
            |st.ledger|
  {
    TotalsCountSessions(logs);
    assert |st.ledger| == |st.ledger.Keys| == |logs.Keys| == |logs|;
    assert Reading(st, InState(Open)) == Total(logs, InState(Open));
    assert Reading(st, InState(Negotiating)) == Total(logs, InState(Negotiating));
    assert Reading(st, InState(CommitPending)) == Total(logs, InState(CommitPending));
    assert Reading(st, Ended) == Total(logs, Ended);
  }

  // ---- The collector itself ----

  class StatsCollector {
    var byState: map<SessionState, int>
    var completedDeals: int
    var terminalSessions: int
    var totalDurationMs: int
    var totalOffers: int
    var totalCounters: int
    var uniqueBuyers: set<string>
    var uniqueSellers: set<string>
    var sessionLedger: map<string, LedgerEntry>

    ghost function Snapshot(): Stats
      reads this
    {
      Stats(byState, completedDeals, terminalSessions, totalDurationMs, totalOffers, totalCounters,
            uniqueBuyers, uniqueSellers, sessionLedger)
    }

    /** Startup: replay every stored log, session by session, in the order the store lists the sessions. */
    constructor (store: Logs, ids: seq<string>)
      ensures Snapshot() == RawRun(ReplayOrder(store, ids))
    {
      byState := NO_SESSIONS.byState;
      completedDeals, terminalSessions, totalDurationMs, totalOffers, totalCounters := 0, 0, 0, 0, 0;
      uniqueBuyers, uniqueSellers, sessionLedger := {}, {}, map[];
      new;
      for i := 0 to |ids|
        invariant Snapshot() == RawRun(ReplayOrder(store, ids[..i]))
      {
        ghost var replayed := ReplayOrder(store, ids[..i]);
        var events := LogOf(store, ids[i]);
        ReplayLog(events, replayed);
        assert ids[..i + 1][..i] == ids[..i];
      }
      assert ids[..|ids|] == ids;
    }

    method ReplayLog(events: seq<Event>, ghost replayed: seq<Event>)
      requires Snapshot() == RawRun(replayed)
      modifies this
      ensures Snapshot() == RawRun(replayed + events)
    {
      hide ProcessRawEvent;
      assert replayed + events[..0] == replayed;
      for j := 0 to |events|
        invariant Snapshot() == RawRun(replayed + events[..j])
      {
        assert (replayed + events[..j + 1])[..|replayed| + j] == replayed + events[..j];
        ProcessRaw(events[j]);
      }
      assert events[..|events|] == events;
    }

    method ProcessEventType(e: Event)
      modifies this
      ensures Snapshot() == CountEvent(old(Snapshot()), e)
    {
      if e.ty == OfferSubmitted {
        totalOffers := totalOffers + 1;
        if e.rfqId in sessionLedger {
          match TextAt(e.payload, KSeller)
          case Some(seller) => uniqueSellers := uniqueSellers + {seller};
          case None =>
        }
      } else if e.ty == CounterSent {
        totalCounters := totalCounters + 1;
      }
    }

    method Move(e: Event, state: SessionState)
      requires e.rfqId in sessionLedger
      modifies this
      ensures Snapshot() == MoveSession(old(Snapshot()), e, state)
    {
      var entry := sessionLedger[e.rfqId];
      if entry.state != state {
        byState := byState[entry.state := Positive(At(byState, entry.state) - 1)];
        byState := byState[state := At(byState, state) + 1];
        sessionLedger := sessionLedger[e.rfqId := entry.(state := state)];
        if Terminal(state) { EndSession(e.timestamp - entry.createdAt, state); }
      }
    }

    method EndSession(duration: int, state: SessionState)
      modifies this
      ensures var st := old(Snapshot());
              Snapshot() == st.(terminalSessions := st.terminalSessions + 1,
                                totalDurationMs := st.totalDurationMs + Positive(duration),
                                completedDeals := st.completedDeals + (if state == Committed then 1 else 0))
    {
      terminalSessions := terminalSessions + 1;
      if duration > 0 { totalDurationMs := totalDurationMs + duration; }
      if state == Committed { completedDeals := completedDeals + 1; }
    }

    method ProcessRaw(e: Event)
      modifies this
      ensures Snapshot() == ProcessRawEvent(old(Snapshot()), e)
    {
      if e.ty == RfqCreated {
        uniqueBuyers := uniqueBuyers + {e.actor};
        sessionLedger := sessionLedger[e.rfqId := LedgerEntry(Open, e.timestamp)];
        byState := byState[Open := At(byState, Open) + 1];
      }
      if e.rfqId !in sessionLedger { return; }
      match DeriveNextState(sessionLedger[e.rfqId].state, e.ty) {
        case Some(next) => Move(e, next);
        case None =>
      }
      ProcessEventType(e);
    }

    method Observe(e: Event, s: Session)
      modifies this
      ensures Snapshot() == OnEvent(old(Snapshot()), e, s)
    {
      if e.rfqId !in sessionLedger {
        sessionLedger := sessionLedger[e.rfqId := LedgerEntry(s.state, e.timestamp)];
        byState := byState[s.state := At(byState, s.state) + 1];
        uniqueBuyers := uniqueBuyers + {s.rfq.buyer};
      } else {
        Move(e, s.state);
      }
      ProcessEventType(e);
    }
  }
}
