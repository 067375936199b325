/**
 Vocabulary shared by the whole engine: session states, event types, payloads, events, the
 transition table and the role-scoped visibility filter.

 A payload is a JSON object. Only the property names the engine reads are listed (`Key`); a value is
 a string, a number, an object (arrays count as objects, as JavaScript's `typeof` has it) or
 something else. `timestamp` is always written by the engine, so it is the instant itself.
 */
module Protocol {
  datatype Option<+T> = None | Some(value: T)

  datatype SessionState = Open | Negotiating | CommitPending | Committed | Expired | Cancelled

  datatype EventType =
    | RfqCreated
    | OfferSubmitted
    | CounterSent
    | WinnerSelected
    | CommitMarker // the "COMMIT_PENDING" audit event
    | QuoteSigned
    | QuoteCommitted
    | CosignDeclined
    | CosignTimeout
    | NegotiationExpired
    | NegotiationCancelled
    | SettlementConfirmed

  datatype Key =
    | KBuyer | KRfqId | KAnchorPrice | KCurrency | KDeadline | KServiceType | KBudgetCommitment | KSpec
    | KOfferId | KSeller | KPrice | KValidUntil | KListingId | KPaymentEndpoint | KExtensions
    | KCounterId | KRound | KFrom | KTo
    | KQuote | KBuyerSignature | KSellerSignature
    | KQuoteId | KFinalPrice | KExpiresAt | KNonce | KMemoPolicy | KSpecHash

  datatype Value = Text(s: string) | Number(n: int) | Doc(fields: map<Key, Value>) | Other

  type Payload = map<Key, Value>

  datatype Event = Event(id: string, rfqId: string, ty: EventType, timestamp: int, actor: string, payload: Payload)

  /** `str` and `optStr`: the string stored under a key, if there is one. */
  function TextAt(p: Payload, k: Key): Option<string> {
    if k in p && p[k].Text? then Some(p[k].s) else None
  }

  /** `num`. */
  function NumberAt(p: Payload, k: Key): Option<int> {
    if k in p && p[k].Number? then Some(p[k].n) else None
  }

  /** The object stored under a key, if there is one. */
  function DocAt(p: Payload, k: Key): Option<Payload> {
    if k in p && p[k].Doc? then Some(p[k].fields) else None
  }

  /** `TRANSITION_RULES`: the next state, or None where the table has no entry. */
  function NextState(st: SessionState, ty: EventType): Option<SessionState> {
    match st
    case Open =>
      (match ty
       case OfferSubmitted => Some(Negotiating)
       case NegotiationExpired => Some(Expired)
       case NegotiationCancelled => Some(Cancelled)
       case _ => None)
    case Negotiating =>
      (match ty
       case OfferSubmitted => Some(Negotiating)
       case CounterSent => Some(Negotiating)
       case WinnerSelected => Some(CommitPending)
       case NegotiationExpired => Some(Expired)
       case NegotiationCancelled => Some(Cancelled)
       case _ => None)
    case CommitPending =>
      (match ty
       case CommitMarker => Some(CommitPending)
       case QuoteSigned => Some(CommitPending)
       case QuoteCommitted => Some(Committed)
       case CosignDeclined => Some(Negotiating)
       case CosignTimeout => Some(Negotiating)
       case NegotiationExpired => Some(Expired)
       case _ => None)
    case Committed => if ty == SettlementConfirmed then Some(Committed) else None
    case Expired => None
    case Cancelled => None
  }

  predicate Terminal(st: SessionState) {
    st == Committed || st == Expired || st == Cancelled
  }

  predicate Rollback(ty: EventType) {
    ty == CosignDeclined || ty == CosignTimeout
  }

  /** `isEventVisibleTo`: the buyer sees everything, a seller only what concerns that seller. */
  predicate VisibleTo(e: Event, caller: string, buyer: string) {
    caller == buyer ||
    match e.ty
    case RfqCreated => true
    case NegotiationExpired => true
    case NegotiationCancelled => true
    case OfferSubmitted => e.actor == caller
    case CounterSent => TextAt(e.payload, KTo) == Some(caller)
    case _ => TextAt(e.payload, KSeller) == Some(caller)
  }

  ghost predicate DistinctIds(log: seq<Event>) {
    forall i, j :: 0 <= i < j < |log| ==> log[i].id != log[j].id
  }

  /** The filter a caller reads through. */
  function Sees(caller: string, buyer: string): Event -> bool {
    (e: Event) => VisibleTo(e, caller, buyer)
  }

  /** The events of a log that pass a filter, in log order. */
  function Visible(log: seq<Event>, sees: Event -> bool): seq<Event> {
    if log == [] then []
    else
      var last := log[|log| - 1];
      Visible(log[..|log| - 1], sees) + (if sees(last) then [last] else [])
  }

  lemma {:induction false} VisibleConcat(a: seq<Event>, b: seq<Event>, sees: Event -> bool)
    ensures Visible(a + b, sees) == Visible(a, sees) + Visible(b, sees)
  {
    if b == [] {
      assert a + b == a;
    } else {
      VisibleConcat(a, b[..|b| - 1], sees);
      assert (a + b)[..|a + b| - 1] == a + b[..|b| - 1];
    }
  }

  /** Every visible event sits at a position of the log. */
  lemma {:induction false} VisibleIsInLog(log: seq<Event>, sees: Event -> bool, e: Event)
    requires e in Visible(log, sees)
    ensures e in log
  {
    if log != [] && e in Visible(log[..|log| - 1], sees) {
      VisibleIsInLog(log[..|log| - 1], sees, e);
    }
  }
}
