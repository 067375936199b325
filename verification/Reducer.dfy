/**
 `deriveState`: the session is never stored, it is a fold over the event log. `Derive` is that fold
 as a function, `DeriveState` is the loop; the loop is proved to compute the fold.
 */
module Reducer {
  import opened Protocol

  datatype Rfq = Rfq(buyer: string, rfqId: string, anchorPrice: string, currency: string, deadline: string,
                     serviceType: string, budgetCommitment: Option<string>, spec: Option<Payload>)

  datatype RecordedOffer = RecordedOffer(offerId: string, seller: string, price: string, currency: string,
                                         validUntil: string, listingId: string, paymentEndpoint: string,
                                         extensions: Option<Payload>)

  datatype RecordedCounter = RecordedCounter(counterId: string, round: int, sender: string, recipient: string,
                                             price: string)

  datatype Session = Session(
    state: SessionState,
    rfq: Rfq,
    offers: seq<RecordedOffer>,
    counters: seq<RecordedCounter>,
    selectedSeller: Option<string>,
    selectedOfferId: Option<string>,
    quoteRevision: nat,
    totalOffers: nat,
    offerCount: map<string, nat>,
    totalAccepts: nat,
    acceptCount: map<string, nat>,
    lastEventId: string,
    unsignedQuote: Option<Payload>,
    buyerSignature: Option<string>,
    sellerSignature: Option<string>,
    commitPendingAt: Option<int>)

  datatype Fault = NotRfqFirst | BadTransition | BadField | WrongActor | UnknownOffer | WrongSeller | NoOfferFrom

  /** What replaying a log gives: nothing (empty log), a session, or the error the reducer throws. */
  datatype Derived = NoSession | Live(s: Session) | Rejected(fault: Fault)

  function CountOf(m: map<string, nat>, k: string): nat {
    if k in m then m[k] else 0
  }

  /** `offers.find`: the first recorded offer with this id. */
  function FindOffer(offers: seq<RecordedOffer>, id: string): Option<RecordedOffer> {
    if offers == [] then None
    else if offers[0].offerId == id then Some(offers[0])
    else FindOffer(offers[1..], id)
  }

  predicate HasOfferFrom(offers: seq<RecordedOffer>, seller: string) {
    exists i :: 0 <= i < |offers| && offers[i].seller == seller
  }

  function ParseRfq(p: Payload): Option<Rfq> {
    match (TextAt(p, KBuyer), TextAt(p, KRfqId), TextAt(p, KAnchorPrice), TextAt(p, KCurrency),
           TextAt(p, KDeadline), TextAt(p, KServiceType))
    case (Some(b), Some(r), Some(a), Some(c), Some(d), Some(t)) =>
      Some(Rfq(b, r, a, c, d, t, TextAt(p, KBudgetCommitment), DocAt(p, KSpec)))
    case _ => None
  }

  function ParseOffer(p: Payload): Option<RecordedOffer> {
    match (TextAt(p, KOfferId), TextAt(p, KSeller), TextAt(p, KPrice), TextAt(p, KCurrency),
           TextAt(p, KValidUntil), TextAt(p, KListingId), TextAt(p, KPaymentEndpoint))
    case (Some(o), Some(s), Some(pr), Some(c), Some(v), Some(l), Some(e)) =>
      Some(RecordedOffer(o, s, pr, c, v, l, e, DocAt(p, KExtensions)))
    case _ => None
  }

  function ParseCounter(p: Payload): Option<RecordedCounter> {
    match (TextAt(p, KCounterId), NumberAt(p, KRound), TextAt(p, KFrom), TextAt(p, KTo), TextAt(p, KPrice))
    case (Some(i), Some(n), Some(f), Some(t), Some(pr)) => Some(RecordedCounter(i, n, f, t, pr))
    case _ => None
  }

  function Create(e: Event): Derived {
    if e.ty != RfqCreated then Rejected(NotRfqFirst)
    else match ParseRfq(e.payload)
      case None => Rejected(BadField)
      case Some(rfq) =>
        Live(Session(Open, rfq, [], [], None, None, 0, 0, map[], 0, map[], e.id, None, None, None, None))
  }

  function ApplyOffer(s: Session, e: Event): Derived {
    match ParseOffer(e.payload)
    case None => Rejected(BadField)
    case Some(o) =>
      if e.actor != o.seller then Rejected(WrongActor)
      else Live(s.(offers := s.offers + [o], totalOffers := s.totalOffers + 1,
                   offerCount := s.offerCount[o.seller := CountOf(s.offerCount, o.seller) + 1]))
  }

  function ApplyCounter(s: Session, e: Event): Derived {
    match ParseCounter(e.payload)
    case None => Rejected(BadField)
    case Some(c) =>
      if e.actor != c.sender then Rejected(WrongActor)
      else if c.sender != s.rfq.buyer then Rejected(WrongActor)
      else if !HasOfferFrom(s.offers, c.recipient) then Rejected(NoOfferFrom)
      else Live(s.(counters := s.counters + [c]))
  }

  function ApplyWinner(s: Session, e: Event): Derived {
    match (TextAt(e.payload, KSeller), TextAt(e.payload, KOfferId))
    case (Some(seller), Some(offerId)) =>
      if e.actor != s.rfq.buyer then Rejected(WrongActor)
      else (match FindOffer(s.offers, offerId)
        case None => Rejected(UnknownOffer)
        case Some(o) =>
          if o.seller != seller then Rejected(WrongSeller)
          else Live(s.(selectedSeller := Some(seller), selectedOfferId := Some(offerId),
                       quoteRevision := s.quoteRevision + 1, totalAccepts := s.totalAccepts + 1,
                       acceptCount := s.acceptCount[seller := CountOf(s.acceptCount, seller) + 1],
                       // an event without a quote object leaves the previous quote in place
                       unsignedQuote :=
                         if DocAt(e.payload, KQuote).Some? then DocAt(e.payload, KQuote) else s.unsignedQuote,
                       commitPendingAt := Some(e.timestamp), buyerSignature := None, sellerSignature := None)))
    case _ => Rejected(BadField)
  }

  function ApplyRollback(s: Session, e: Event): Derived {
    match TextAt(e.payload, KSeller)
    case None => Rejected(BadField)
    case Some(seller) =>
      if s.selectedSeller != Some(seller) then Rejected(WrongSeller)
      else if e.ty == CosignDeclined && s.selectedSeller != Some(e.actor) then Rejected(WrongActor)
      else Live(s.(selectedSeller := None, selectedOfferId := None, unsignedQuote := None,
                   buyerSignature := None, sellerSignature := None, commitPendingAt := None))
  }

  function ApplySigned(s: Session, e: Event): Derived {
    match TextAt(e.payload, KSeller)
    case None => Rejected(BadField)
    case Some(seller) =>
      if s.selectedSeller != Some(seller) then Rejected(WrongSeller)
      else if e.actor != s.rfq.buyer then Rejected(WrongActor)
      else match TextAt(e.payload, KBuyerSignature)
        case None => Rejected(BadField)
        case Some(sig) => Live(s.(buyerSignature := Some(sig)))
  }

  function ApplyCommitted(s: Session, e: Event): Derived {
    match TextAt(e.payload, KSeller)
    case None => Rejected(BadField)
    case Some(seller) =>
      if s.selectedSeller != Some(seller) then Rejected(WrongSeller)
      else if s.selectedSeller != Some(e.actor) then Rejected(WrongActor)
      else match TextAt(e.payload, KSellerSignature)
        case None => Rejected(BadField)
        case Some(sig) => Live(s.(sellerSignature := Some(sig)))
  }

  /** One iteration of the reducer's loop. */
  function Apply(s: Session, e: Event): Derived {
    match NextState(s.state, e.ty)
    case None => Rejected(BadTransition)
    case Some(next) =>
      var moved := s.(lastEventId := e.id, state := next);
      match e.ty
      case OfferSubmitted => ApplyOffer(moved, e)
      case CounterSent => ApplyCounter(moved, e)
      case WinnerSelected => ApplyWinner(moved, e)
      case CosignDeclined => ApplyRollback(moved, e)
      case CosignTimeout => ApplyRollback(moved, e)
      case QuoteSigned => ApplySigned(moved, e)
      case QuoteCommitted => ApplyCommitted(moved, e)
      case _ => Live(moved)
  }

  function Extend(d: Derived, e: Event): Derived {
    match d
    case NoSession => Create(e)
    case Live(s) => Apply(s, e)
    case Rejected(_) => d
  }

  function Derive(log: seq<Event>): Derived {
    if log == [] then NoSession else Extend(Derive(log[..|log| - 1]), log[|log| - 1])
  }

  predicate Accepted(log: seq<Event>) {
    Derive(log).Live?
  }

  /** Appending one event is one more reducer step. */
  lemma {:induction false} DeriveSnoc(log: seq<Event>, e: Event)
    ensures Derive(log + [e]) == Extend(Derive(log), e)
  {
    assert (log + [e])[..|log|] == log;
  }

  /** A log the reducer accepts has only accepted non-empty prefixes, and an error is never repaired. */
  lemma {:induction false} PrefixAccepted(log: seq<Event>, n: nat)
    requires Accepted(log) && 0 < n <= |log|
    ensures Accepted(log[..n])
  {
    if n == |log| {
      assert log[..n] == log;
    } else {
      var shorter := log[..|log| - 1];
      PrefixAccepted(shorter, n);
      assert shorter[..n] == log[..n];
    }
  }

  lemma {:induction false} RejectedForever(log: seq<Event>, n: nat)
    requires n <= |log| && Derive(log[..n]).Rejected?
    ensures Derive(log) == Derive(log[..n])
  {
    if n < |log| {
      var shorter := log[..|log| - 1];
      assert shorter[..n] == log[..n];
      RejectedForever(shorter, n);
    } else {
      assert log[..n] == log;
    }
  }

  lemma {:induction false} StepIsNeverEmpty(d: Derived, e: Event)
    ensures Extend(d, e) != NoSession
  {
  }

  lemma {:induction false} DeriveNext(events: seq<Event>, i: nat)
    requires i < |events|
    ensures Derive(events[..i + 1]) == Extend(Derive(events[..i]), events[i]) != NoSession
  {
    assert events[..i + 1] == events[..i] + [events[i]];
    DeriveSnoc(events[..i], events[i]);
    StepIsNeverEmpty(Derive(events[..i]), events[i]);
  }

  /** The loop: a live `r` gathers the reducer's local variables; the first bad event ends the replay. */
  method DeriveState(events: seq<Event>) returns (r: Derived)
    ensures r == Derive(events)
  {
    if |events| == 0 { return NoSession; }
    DeriveNext(events, 0);
    r := Create(events[0]);
    for i := 1 to |events|
      invariant r != NoSession && r == Derive(events[..i])
    {
      if r.Rejected? {
        RejectedForever(events, i);
        return;
      }
      DeriveNext(events, i);
      r := Apply(r.s, events[i]);
    }
    assert events[..|events|] == events;
  }
}
