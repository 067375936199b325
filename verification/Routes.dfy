/**
 The state-changing routes and the deadline enforcer's two actions, as one transition system.

 Every handler has an unlocked part, which reads some earlier prefix of the session's log (the log is
 append-only, so a stale read is a prefix: `seen` events), and a locked part, which reads the whole log,
 checks its guards in order and appends at most one event after a dry run of the reducer.
 `Next` is the effect of one handler; a run of the engine is any sequence of them.

 Clock, fresh ids, signature verification, date parsing, hashing and the listing store are inputs.
 Instants are milliseconds. A date string that does not parse compares false, as NaN does.
 */
module Routes {
  import opened Protocol
  import opened Reducer
  import Amounts

  const MAX_OFFERS_PER_SESSION: nat := 50
  const MAX_OFFERS_PER_SELLER: nat := 5
  const MAX_ACCEPTS_PER_SESSION: nat := 6
  const MAX_ACCEPTS_PER_SELLER: nat := 2
  const DEFAULT_SETTLEMENT_WINDOW_MS := 300_000
  const MIN_SETTLEMENT_WINDOW_MS := 60_000
  const MAX_SETTLEMENT_WINDOW_MS := 600_000
  const DEFAULT_COSIGN_TIMEOUT_MS := 60_000
  const MIN_COSIGN_TIMEOUT_MS := 15_000
  const MAX_COSIGN_TIMEOUT_MS := 120_000
  const ENFORCER := "engine/deadline-enforcer"
  const SETTLEMENT_VERIFIER := "system:settlement-verifier"

  datatype ControlAction = AcceptAction | DeclineAction | CancelAction

  datatype Envelope = Envelope(envelopeId: string, action: ControlAction, rfqId: string, revision: string,
                               payload: Payload, issuedAt: int, expiresAt: int, signature: string)

  /** What the engine takes from outside: configuration and foreign functions. */
  datatype Env = Env(
    parse: string -> Option<int>, // Date.parse
    iso: int -> string, // toISOString
    verifyQuote: (string, Payload, string) -> bool, // signer, quote, signature
    verifyEnvelope: (string, Envelope) -> bool, // signer, envelope
    specHash: Payload -> string,
    settlementWindowMs: Option<int>,
    cosignTimeoutMs: Option<int>)
  {
    /** `toISOString` writes a date that parses back to the same instant. */
    ghost predicate Valid() {
      forall t :: parse(iso(t)) == Some(t)
    }
  }

  /** Clock readings of one handler, in the order it takes them. */
  datatype Times = Times(unlocked: int, tested: int, checked: int, built: int, stamp: int) {
    predicate Ordered() { unlocked <= tested <= checked <= built <= stamp }
  }

  /** `valid` is the verdict of the remaining unlocked checks: schema, sizes, signature, budget proof, replay. */
  datatype Request =
    | CreateRfq(buyer: string, serviceType: string, spec: Payload, anchorPrice: string, currency: string,
                deadline: string, budgetCommitment: Option<string>)
    | SubmitOffer(offerId: string, seller: string, listingId: string, price: string, currency: string,
                  validUntil: string, extensions: Option<Payload>, endpoint: Option<string>)
    | SendCounter(counterId: string, round: int, sender: string, recipient: string, price: string, currency: string)
    | Accept(envelope: Envelope, quoteId: string, nonce: string)
    | SignQuote(signature: string)
    | Cosign(signature: string)
    | Decline(envelope: Envelope)
    | Expire
    | TimeOutCosign
    | Execute(quote: Payload) // the quote of the request's header
    | ReportSettlement(quoteId: string, reporter: string)

  datatype Action = Action(rfqId: string, request: Request, valid: bool, seen: nat, t: Times, eventId: string)

  datatype Error =
    | MalformedPayload | SessionNotFound | DuplicateObjectId | InvalidDeadline | CurrencyMismatch | InvalidAmount
    | SessionExpired | InvalidStateTransition | SessionOfferLimit | SellerOfferLimit | MissingListing
    | MissingPaymentEndpoint | UnauthorizedCounter | InvalidRound | RfqIdMismatch | InvalidSignature | SellerNotFound
    | OfferNotFound | StaleRevision | InvalidExpiry | AcceptLimitExceeded | InternalError | QuoteExpired
    | QuoteNotFound | AlreadySigned | BuyerNotSigned | QuoteMismatch | Forbidden

  datatype Outcome = Append(ty: EventType, actor: string, payload: Payload) | Nothing | Refuse(error: Error)

  function Clamp(v: int, lo: int, hi: int): int {
    if v < lo then lo else if v > hi then hi else v
  }

  /** `configured ?? fallback` */
  function OrElse(configured: Option<int>, fallback: int): int {
    if configured.Some? then configured.value else fallback
  }

  function CosignTimeoutMs(env: Env): int {
    Clamp(OrElse(env.cosignTimeoutMs, DEFAULT_COSIGN_TIMEOUT_MS), MIN_COSIGN_TIMEOUT_MS, MAX_COSIGN_TIMEOUT_MS)
  }

  function SettlementWindowMs(env: Env): int {
    Clamp(OrElse(env.settlementWindowMs, DEFAULT_SETTLEMENT_WINDOW_MS), MIN_SETTLEMENT_WINDOW_MS,
          MAX_SETTLEMENT_WINDOW_MS)
  }

  /** `now >= new Date(s).getTime()` */
  predicate Reached(env: Env, now: int, date: string) {
    env.parse(date).Some? && now >= env.parse(date).value
  }

  predicate Truthy(o: Option<string>) {
    o.Some? && o.value != ""
  }

  /** `normalizeAmount` of a price: None is the thrown error. */
  function Units(price: string): Option<nat> {
    Amounts.Normalize(price, Amounts.USDC_DECIMALS)
  }

  predicate PositiveAmount(price: string) {
    Units(price).Some? && Units(price).value > 0
  }

  // ---- POST /rfqs ----

  function DecideCreate(env: Env, log: seq<Event>, a: Action): (o: Outcome)
    requires a.request.CreateRfq?
    ensures o.Append? ==> o.ty == RfqCreated
  {
    var r := a.request;
    if !a.valid then Refuse(MalformedPayload)
    else if !(env.parse(r.deadline).Some? && env.parse(r.deadline).value > a.t.unlocked) then Refuse(InvalidDeadline)
    else if !PositiveAmount(r.anchorPrice) then Refuse(InvalidAmount)
    else if |log| > 0 then Refuse(DuplicateObjectId)
    else
      Append(RfqCreated, r.buyer, RfqPayload(r, a.rfqId))
  }

  function RfqPayload(r: Request, rfqId: string): Payload
    requires r.CreateRfq?
  {
    map[KRfqId := Text(rfqId), KBuyer := Text(r.buyer), KServiceType := Text(r.serviceType), KSpec := Doc(r.spec),
        KAnchorPrice := Text(r.anchorPrice), KCurrency := Text(r.currency), KDeadline := Text(r.deadline)]
    + (if r.budgetCommitment.Some? then map[KBudgetCommitment := Text(r.budgetCommitment.value)] else map[])
  }

  // ---- POST /rfqs/:id/offers ----

  function OfferPayload(r: Request, rfqId: string): Payload
    requires r.SubmitOffer? && r.endpoint.Some?
  {
    map[KRfqId := Text(rfqId), KOfferId := Text(r.offerId), KSeller := Text(r.seller), KPrice := Text(r.price),
        KCurrency := Text(r.currency), KValidUntil := Text(r.validUntil), KListingId := Text(r.listingId),
        KPaymentEndpoint := Text(r.endpoint.value)]
    + (if r.extensions.Some? then map[KExtensions := Doc(r.extensions.value)] else map[])
  }

  predicate HasOfferId(offers: seq<RecordedOffer>, id: string) {
    exists i :: 0 <= i < |offers| && offers[i].offerId == id
  }

  function DecideOffer(env: Env, pre: Session, s: Session, a: Action): (o: Outcome)
    requires a.request.SubmitOffer?
    ensures o.Append? ==> o.ty == OfferSubmitted
  {
    var r := a.request;
    if !a.valid then Refuse(MalformedPayload)
    else if r.currency != pre.rfq.currency then Refuse(CurrencyMismatch)
    else if !(env.parse(r.validUntil).Some? && env.parse(r.validUntil).value > a.t.unlocked) then Refuse(InvalidExpiry)
    else if !PositiveAmount(r.price) then Refuse(InvalidAmount)
    // locked
    else if Reached(env, a.t.tested, s.rfq.deadline) then Refuse(SessionExpired)
    else if s.state != Open && s.state != Negotiating then Refuse(InvalidStateTransition)
    else if HasOfferId(s.offers, r.offerId) then Refuse(DuplicateObjectId)
    else if s.totalOffers >= MAX_OFFERS_PER_SESSION then Refuse(SessionOfferLimit)
    else if CountOf(s.offerCount, r.seller) >= MAX_OFFERS_PER_SELLER then Refuse(SellerOfferLimit)
    else if r.endpoint.None? then Refuse(MissingListing)
    else if r.endpoint.value == "" then Refuse(MissingPaymentEndpoint)
    else Append(OfferSubmitted, r.seller, OfferPayload(r, a.rfqId))
  }

  // ---- POST /rfqs/:id/counter ----

  /** The reduce over `Math.max` starting from 0. */
  function MaxRound(cs: seq<RecordedCounter>): (m: int)
    ensures m >= 0 && forall i :: 0 <= i < |cs| ==> cs[i].round <= m
    ensures m == 0 || exists i :: 0 <= i < |cs| && cs[i].round == m
  {
    if cs == [] then 0
    else
      var m := MaxRound(cs[..|cs| - 1]);
      if cs[|cs| - 1].round > m then cs[|cs| - 1].round else m
  }

  function CounterPayload(r: Request, rfqId: string): Payload
    requires r.SendCounter?
  {
    map[KRfqId := Text(rfqId), KCounterId := Text(r.counterId), KRound := Number(r.round), KFrom := Text(r.sender),
        KTo := Text(r.recipient), KPrice := Text(r.price), KCurrency := Text(r.currency)]
  }

  predicate HasCounterId(counters: seq<RecordedCounter>, id: string) {
    exists i :: 0 <= i < |counters| && counters[i].counterId == id
  }

  function DecideCounter(env: Env, pre: Session, s: Session, a: Action): (o: Outcome)
    requires a.request.SendCounter?
    ensures o.Append? ==> o.ty == CounterSent
  {
    var r := a.request;
    if !a.valid then Refuse(MalformedPayload)
    else if r.round <= 0 then Refuse(InvalidRound)
    else if r.currency != pre.rfq.currency then Refuse(CurrencyMismatch)
    else if !PositiveAmount(r.price) then Refuse(InvalidAmount)
    else if r.sender != pre.rfq.buyer then Refuse(UnauthorizedCounter)
    else if !HasOfferFrom(pre.offers, r.recipient) then Refuse(UnauthorizedCounter)
    // locked
    else if Reached(env, a.t.tested, s.rfq.deadline) then Refuse(SessionExpired)
    else if s.state != Negotiating then Refuse(InvalidStateTransition)
    else if !HasOfferFrom(s.offers, r.recipient) then Refuse(UnauthorizedCounter)
    else if HasCounterId(s.counters, r.counterId) then Refuse(DuplicateObjectId)
    else if r.round <= MaxRound(s.counters) then Refuse(InvalidRound)
    else Append(CounterSent, r.sender, CounterPayload(r, a.rfqId))
  }

  // ---- POST /rfqs/:id/accept ----

  /** `expires_at = min(deadline, now + clamped window)`; None when the deadline does not parse. */
  function QuoteExpiry(env: Env, deadline: string, now: int): Option<int> {
    match env.parse(deadline)
    case None => None
    case Some(d) =>
      var end := now + SettlementWindowMs(env);
      Some(if d < end then d else end)
  }

  function QuoteTerms(env: Env, rfq: Rfq, o: RecordedOffer, expiry: int, quoteId: string, nonce: string): Payload {
    map[KQuoteId := Text(quoteId), KRfqId := Text(rfq.rfqId), KBuyer := Text(rfq.buyer), KSeller := Text(o.seller),
        KServiceType := Text(rfq.serviceType), KFinalPrice := Text(o.price), KCurrency := Text(o.currency),
        KPaymentEndpoint := Text(o.paymentEndpoint), KExpiresAt := Text(env.iso(expiry)), KNonce := Text(nonce),
        KMemoPolicy := Text("quote_id_required"), KBuyerSignature := Text(""), KSellerSignature := Text("")]
  }

  function QuoteDoc(env: Env, rfq: Rfq, o: RecordedOffer, expiry: int, quoteId: string, nonce: string): Payload {
    QuoteTerms(env, rfq, o, expiry, quoteId, nonce)
    + (if rfq.spec.Some? then map[KSpecHash := Text(env.specHash(rfq.spec.value))] else map[])
  }

  /** `buildQuoteFromSession`: looks the offer up by id alone. */
  function BuildQuote(env: Env, s: Session, offerId: string, now: int, quoteId: string, nonce: string)
    : Option<Payload>
  {
    match (FindOffer(s.offers, offerId), QuoteExpiry(env, s.rfq.deadline, now))
    case (Some(o), Some(expiry)) => Some(QuoteDoc(env, s.rfq, o, expiry, quoteId, nonce))
    case _ => None
  }

  /** `offers.find` by id and seller. */
  function FindOfferOf(offers: seq<RecordedOffer>, id: string, seller: string): Option<RecordedOffer> {
    if offers == [] then None
    else if offers[0].offerId == id && offers[0].seller == seller then Some(offers[0])
    else FindOfferOf(offers[1..], id, seller)
  }

  /** The signed-envelope checks that do not depend on time or on the replay store. */
  predicate EnvelopeBinds(env: Env, e: Envelope, action: ControlAction, rfqId: string, signer: string) {
    e.action == action && e.rfqId == rfqId && e.revision != "" && env.verifyEnvelope(signer, e)
  }

  function DecideAccept(env: Env, pre: Session, s: Session, a: Action): (o: Outcome)
    requires a.request.Accept?
    ensures o.Append? ==> o.ty == WinnerSelected
  {
    var e := a.request.envelope;
    var seller, offerId := TextAt(e.payload, KSeller), TextAt(e.payload, KOfferId);
    if !a.valid || !EnvelopeBinds(env, e, AcceptAction, a.rfqId, pre.rfq.buyer) then Refuse(InvalidSignature)
    else if seller.None? || offerId.None? then Refuse(MalformedPayload)
    // locked
    else if Reached(env, a.t.tested, s.rfq.deadline) then Refuse(SessionExpired)
    else if s.state != Negotiating then Refuse(InvalidStateTransition)
    else if !HasOfferFrom(s.offers, seller.value) then Refuse(SellerNotFound)
    else match FindOfferOf(s.offers, offerId.value, seller.value)
      case None => Refuse(OfferNotFound)
      case Some(offer) =>
        if e.revision != s.lastEventId then Refuse(StaleRevision)
        else if Reached(env, a.t.checked, offer.validUntil) then Refuse(InvalidExpiry)
        else if s.totalAccepts >= MAX_ACCEPTS_PER_SESSION then Refuse(AcceptLimitExceeded)
        else if CountOf(s.acceptCount, seller.value) >= MAX_ACCEPTS_PER_SELLER then Refuse(AcceptLimitExceeded)
        else match BuildQuote(env, s, offerId.value, a.t.built, a.request.quoteId, a.request.nonce)
          case None => Refuse(InternalError)
          case Some(quote) =>
            match TextAt(quote, KFinalPrice)
            case None => Refuse(InternalError)
            case Some(price) =>
              if !PositiveAmount(price) then Refuse(InvalidAmount)
              else Append(WinnerSelected, s.rfq.buyer, WinnerPayload(seller.value, offerId.value, quote))
  }

  function WinnerPayload(seller: string, offerId: string, quote: Payload): Payload {
    map[KSeller := Text(seller), KOfferId := Text(offerId), KQuote := Doc(quote)]
  }

  // ---- PUT /rfqs/:id/quote/sign and PUT /rfqs/:id/cosign ----

  predicate QuoteOver(env: Env, s: Session, now: int) {
    s.unsignedQuote.Some? && TextAt(s.unsignedQuote.value, KExpiresAt).Some? &&
    Reached(env, now, TextAt(s.unsignedQuote.value, KExpiresAt).value)
  }

  function DecideSign(env: Env, s: Session, a: Action): (o: Outcome)
    requires a.request.SignQuote?
    ensures o.Append? ==> o.ty == QuoteSigned
  {
    if !a.valid then Refuse(MalformedPayload)
    else if Reached(env, a.t.tested, s.rfq.deadline) then Refuse(SessionExpired)
    else if QuoteOver(env, s, a.t.checked) then Refuse(QuoteExpired)
    else if s.state != CommitPending then Refuse(InvalidStateTransition)
    else if s.unsignedQuote.None? then Refuse(QuoteNotFound)
    else if s.buyerSignature.Some? then Refuse(AlreadySigned)
    else if !env.verifyQuote(s.rfq.buyer, s.unsignedQuote.value, a.request.signature) then Refuse(InvalidSignature)
    else Append(QuoteSigned, s.rfq.buyer, SignaturePayload(s.selectedSeller, KBuyerSignature, a.request.signature))
  }

  function DecideCosign(env: Env, pre: Session, s: Session, a: Action): (o: Outcome)
    requires a.request.Cosign?
    ensures o.Append? ==> o.ty == QuoteCommitted
  {
    if !a.valid then Refuse(MalformedPayload)
    else if !Truthy(pre.selectedSeller) then Refuse(SessionNotFound)
    else if Reached(env, a.t.tested, s.rfq.deadline) then Refuse(SessionExpired)
    else if QuoteOver(env, s, a.t.checked) then Refuse(QuoteExpired)
    else if s.state != CommitPending then Refuse(InvalidStateTransition)
    else if s.unsignedQuote.None? then Refuse(QuoteNotFound)
    else if s.buyerSignature.None? then Refuse(BuyerNotSigned)
    else match s.selectedSeller
      case None => Refuse(MalformedPayload)
      case Some(seller) =>
        if !env.verifyQuote(seller, s.unsignedQuote.value, a.request.signature) then Refuse(InvalidSignature)
        else Append(QuoteCommitted, seller, SignaturePayload(s.selectedSeller, KSellerSignature, a.request.signature))
  }

  function SellerField(seller: Option<string>): Payload {
    map[KSeller := if seller.Some? then Text(seller.value) else Other]
  }

  function SignaturePayload(seller: Option<string>, key: Key, signature: string): Payload {
    SellerField(seller)[key := Text(signature)]
  }

  // ---- PUT /rfqs/:id/decline ----

  function DecideDecline(env: Env, pre: Session, s: Session, a: Action): (o: Outcome)
    requires a.request.Decline?
    ensures o.Append? ==> o.ty == CosignDeclined
  {
    var e := a.request.envelope;
    if !Truthy(pre.selectedSeller) then Refuse(SessionNotFound)
    else if !a.valid || !EnvelopeBinds(env, e, DeclineAction, a.rfqId, pre.selectedSeller.value) then
      Refuse(InvalidSignature)
    // locked
    else if Reached(env, a.t.tested, s.rfq.deadline) then Refuse(SessionExpired)
    else if s.state != CommitPending then Refuse(InvalidStateTransition)
    else if !Truthy(s.selectedSeller) then Refuse(InvalidStateTransition)
    else if s.selectedSeller != pre.selectedSeller then Refuse(StaleRevision)
    else if e.revision != s.lastEventId then Refuse(StaleRevision)
    else Append(CosignDeclined, s.selectedSeller.value, SellerField(s.selectedSeller))
  }

  // ---- Deadline enforcer: the scan reads without the lock, the action checks again inside ----

  predicate Expirable(st: SessionState) {
    st == Open || st == Negotiating || st == CommitPending
  }

  /** `tryExpire`, inside the lock. */
  function TryExpire(env: Env, s: Session, now: int): (o: Outcome)
    ensures o.Append? ==> o.ty == NegotiationExpired
  {
    if Terminal(s.state) || !Expirable(s.state) then Nothing
    else if env.parse(s.rfq.deadline).Some? && now < env.parse(s.rfq.deadline).value then Nothing
    else Append(NegotiationExpired, ENFORCER, map[])
  }

  function DecideExpire(env: Env, pre: Session, s: Session, a: Action): (o: Outcome)
    ensures o.Append? ==> o.ty == NegotiationExpired
  {
    if !Expirable(pre.state) || !Reached(env, a.t.unlocked, pre.rfq.deadline) then Nothing
    else TryExpire(env, s, a.t.tested)
  }

  /** `tryCosignTimeout`, inside the lock. */
  function TryCosignTimeout(env: Env, s: Session, now: int): (o: Outcome)
    ensures o.Append? ==> o.ty == CosignTimeout
  {
    if s.state != CommitPending || s.commitPendingAt.None? then Nothing
    else if now - s.commitPendingAt.value < CosignTimeoutMs(env) then Nothing
    else if !Truthy(s.selectedSeller) then Nothing
    else Append(CosignTimeout, ENFORCER, SellerField(s.selectedSeller))
  }

  function DecideTimeout(env: Env, pre: Session, s: Session, a: Action): (o: Outcome)
    ensures o.Append? ==> o.ty == CosignTimeout
  {
    if !(pre.state == CommitPending && pre.commitPendingAt.Some? &&
         a.t.unlocked - pre.commitPendingAt.value >= CosignTimeoutMs(env)) then Nothing
    else if Reached(env, a.t.unlocked, pre.rfq.deadline) then Nothing // this scan expires the session instead
    else TryCosignTimeout(env, s, a.t.tested)
  }

  // ---- POST /execute and POST /rfqs/:id/settle-report ----

  predicate Settled(log: seq<Event>) {
    exists i :: 0 <= i < |log| && log[i].ty == SettlementConfirmed
  }

  /** `quote.k`, whatever it holds. */
  function PropertyOf(quote: Payload, k: Key): Value {
    if k in quote then quote[k] else Other
  }

  /** The audit record: the price and the parties are those of the quote that was verified. */
  function SettlementRecord(quoteId: Value, quote: Payload): Payload {
    map[KQuoteId := quoteId, KFinalPrice := PropertyOf(quote, KFinalPrice), KBuyer := PropertyOf(quote, KBuyer),
        KSeller := PropertyOf(quote, KSeller)]
  }

  /** The committed quote has an id and it is not this one. */
  predicate QuoteDiffers(s: Session, quoteId: Option<string>) {
    s.unsignedQuote.Some? && Truthy(TextAt(s.unsignedQuote.value, KQuoteId)) &&
    TextAt(s.unsignedQuote.value, KQuoteId) != quoteId
  }

  /** Inside the lock only the at-most-once check; the state is not read again. */
  function SettleOnce(log: seq<Event>, quoteId: Value, quote: Payload): (o: Outcome)
    ensures o.Append? ==> o.ty == SettlementConfirmed
  {
    if Settled(log) then Nothing
    else Append(SettlementConfirmed, SETTLEMENT_VERIFIER, SettlementRecord(quoteId, quote))
  }

  /** POST /execute: the session is the one the header's quote names, compared by quote id alone. */
  function DecideExecute(pre: Session, log: seq<Event>, a: Action): (o: Outcome)
    requires a.request.Execute?
    ensures o.Append? ==> o.ty == SettlementConfirmed
  {
    var quote := a.request.quote;
    if !a.valid || TextAt(quote, KSeller).None? then Refuse(MalformedPayload)
    else if TextAt(quote, KRfqId) != Some(a.rfqId) then Refuse(SessionNotFound)
    else if pre.state != Committed then Refuse(InvalidStateTransition)
    else if QuoteDiffers(pre, TextAt(quote, KQuoteId)) then Refuse(QuoteMismatch)
    else SettleOnce(log, PropertyOf(quote, KQuoteId), quote)
  }

  /** POST /rfqs/:id/settle-report: only the selected seller, and the quote is the committed one. */
  function DecideReport(pre: Session, log: seq<Event>, a: Action): (o: Outcome)
    requires a.request.ReportSettlement?
    ensures o.Append? ==> o.ty == SettlementConfirmed
  {
    var r := a.request;
    if pre.state != Committed then Refuse(InvalidStateTransition)
    else if pre.selectedSeller != Some(r.reporter) then Refuse(Forbidden)
    else if !a.valid || r.quoteId == "" then Refuse(MalformedPayload)
    else if QuoteDiffers(pre, Some(r.quoteId)) then Refuse(QuoteMismatch)
    else if pre.unsignedQuote.None? then Refuse(QuoteNotFound)
    else SettleOnce(log, Text(r.quoteId), pre.unsignedQuote.value)
  }

  // ---- One handler, one run ----

  /** The event type each handler appends, if it appends. */
  function AppendedType(r: Request): EventType {
    match r
    case CreateRfq(_, _, _, _, _, _, _) => RfqCreated
    case SubmitOffer(_, _, _, _, _, _, _, _) => OfferSubmitted
    case SendCounter(_, _, _, _, _, _) => CounterSent
    case Accept(_, _, _) => WinnerSelected
    case SignQuote(_) => QuoteSigned
    case Cosign(_) => QuoteCommitted
    case Decline(_) => CosignDeclined
    case Expire => NegotiationExpired
    case TimeOutCosign => CosignTimeout
    case Execute(_) => SettlementConfirmed
    case ReportSettlement(_, _) => SettlementConfirmed
  }

  /** A handler on an existing session: `pre` is the unlocked read, `s` the locked one. */
  function DecideFor(env: Env, pre: Session, s: Session, log: seq<Event>, a: Action): (o: Outcome)
    ensures o.Append? ==> o.ty == AppendedType(a.request)
  {
    match a.request
    case CreateRfq(_, _, _, _, _, _, _) => Refuse(DuplicateObjectId)
    case SubmitOffer(_, _, _, _, _, _, _, _) => DecideOffer(env, pre, s, a)
    case SendCounter(_, _, _, _, _, _) => DecideCounter(env, pre, s, a)
    case Accept(_, _, _) => DecideAccept(env, pre, s, a)
    case SignQuote(_) => DecideSign(env, s, a)
    case Cosign(_) => DecideCosign(env, pre, s, a)
    case Decline(_) => DecideDecline(env, pre, s, a)
    case Expire => DecideExpire(env, pre, s, a)
    case TimeOutCosign => DecideTimeout(env, pre, s, a)
    case Execute(_) => DecideExecute(pre, log, a)
    case ReportSettlement(_, _) => DecideReport(pre, log, a)
  }

  /** A handler that read `pre` without the lock and `locked` inside it, deciding on this log. */
  function DecideOn(env: Env, pre: Derived, locked: Derived, log: seq<Event>, a: Action): (o: Outcome)
    ensures o.Append? ==> o.ty == AppendedType(a.request)
  {
    if a.request.CreateRfq? then DecideCreate(env, log, a)
    else match (pre, locked)
      case (Live(p), Live(s)) => DecideFor(env, p, s, log, a)
      case _ => Refuse(SessionNotFound)
  }

  function Decide(env: Env, log: seq<Event>, a: Action): (o: Outcome)
    requires a.seen <= |log|
    ensures o.Append? ==> o.ty == AppendedType(a.request)
  {
    DecideOn(env, Derive(log[..a.seen]), Derive(log), log, a)
  }

  /** The append-only logs, by session id. */
  type Logs = map<string, seq<Event>>

  function LogOf(logs: Logs, rfqId: string): seq<Event> {
    if rfqId in logs then logs[rfqId] else []
  }

  /** Every session's log is one the reducer accepts. */
  ghost predicate AllAccepted(logs: Logs) {
    forall r :: r in logs ==> Accepted(logs[r])
  }

  predicate FreshId(logs: Logs, id: string) {
    forall r, i :: r in logs && 0 <= i < |logs[r]| ==> logs[r][i].id != id
  }

  function NewEvent(a: Action, o: Outcome): Event
    requires o.Append?
  {
    Event(a.eventId, a.rfqId, o.ty, a.t.stamp, o.actor, o.payload)
  }

  /** Append after a dry run: the reducer must accept the longer log and the event id must be new. */
  predicate Persistable(logs: Logs, rfqId: string, e: Event) {
    e.rfqId == rfqId && Accepted(LogOf(logs, rfqId) + [e]) && FreshId(logs, e.id)
  }

  /** The handler appends an event in this state. */
  predicate Appends(env: Env, logs: Logs, a: Action) {
    var log := LogOf(logs, a.rfqId);
    && a.t.Ordered() && a.seen <= |log|
    && Decide(env, log, a).Append?
    && Persistable(logs, a.rfqId, NewEvent(a, Decide(env, log, a)))
  }

  /** The effect of one handler. */
  function Next(env: Env, logs: Logs, a: Action): Logs {
    if Appends(env, logs, a) then
      var log := LogOf(logs, a.rfqId);
      logs[a.rfqId := log + [NewEvent(a, Decide(env, log, a))]]
    else logs
  }

  /** The logs after a run of handlers, from an empty store. */
  function Run(env: Env, actions: seq<Action>): Logs {
    if actions == [] then map[] else Next(env, Run(env, actions[..|actions| - 1]), actions[|actions| - 1])
  }
}
