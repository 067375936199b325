/**
 One run, in full: a negotiation from the RFQ to a committed deal, and then a settlement request whose quote names
 another seller. It shows that deals are reached, and that the settlement record can reach the wrong seller.
 */
module SampleRun {
  import opened Protocol
  import opened Reducer
  import opened Routes
  import opened EngineRuns
  import opened Visibility
  import Amounts

  /** Dates are written as milliseconds. */
  function Iso(t: int): string {
    if t >= 0 then Amounts.ToDigits(t) else "-" + Amounts.ToDigits(-t)
  }

  function Millis(s: string): Option<int> {
    if s == "" then None
    else
      var n: int := Amounts.IntVal(if s[0] == '-' then s[1..] else s);
      Some(if s[0] == '-' then -n else n)
  }

  const ENV := Env(Millis, Iso, (signer, quote, signature) => true, (signer, envelope) => true, spec => "hash",
                   None, None)

  lemma {:induction false} EnvIsValid()
    ensures ENV.Valid()
  {
    forall t ensures Millis(Iso(t)) == Some(t) {
      if t < 0 { assert ("-" + Amounts.ToDigits(-t))[1..] == Amounts.ToDigits(-t); }
    }
  }

  const NOW := Times(0, 0, 0, 0, 0)
  const END := 1_000
  const R := "r"

  function Act(request: Request, seen: nat, id: string): Action {
    Action(R, request, true, seen, NOW, id)
  }

  const CREATE := Act(CreateRfq("alice", "service", map[], "1", "USDC", Iso(END), None), 0, "e0")
  const OFFER := Act(SubmitOffer("o", "bob", "listing", "1", "USDC", Iso(END), None, Some("endpoint")), 1, "e1")
  const CHOICE := map[KSeller := Text("bob"), KOfferId := Text("o")]
  const ACCEPT := Act(Accept(Envelope("v", AcceptAction, R, "e1", CHOICE, 0, 1, ""), "q", "n"), 2, "e2")
  const SIGN := Act(SignQuote("by alice"), 3, "e3")
  const COSIGN := Act(Cosign("by bob"), 4, "e4")
  const ELSEWHERE := Act(Execute(map[KRfqId := Text(R), KQuoteId := Text("q"), KSeller := Text("mallory")]), 5, "e5")

  lemma {:induction false} OneIsPositive()
    ensures PositiveAmount("1")
  {
    assert "1"[1..] == "" && ['1'] + "" == "1";
    assert Amounts.Split("1") == ("1", None);
    assert "1" + "" == "1" && "1"[..0] == "" && Amounts.IntVal("1") == 1;
    Amounts.NormalizeIsFloor("1", 6);
  }

  // ---- The sessions the run goes through ----

  const RFQ := Rfq("alice", R, "1", "USDC", Iso(END), "service", None, Some(map[]))
  const BOBS := RecordedOffer("o", "bob", "1", "USDC", Iso(END), "listing", "endpoint", None)
  const QUOTE := QuoteDoc(ENV, RFQ, BOBS, END, "q", "n")

  const CREATED := Session(Open, RFQ, [], [], None, None, 0, 0, map[], 0, map[], "e0", None, None, None, None)
  const OFFERED := CREATED.(state := Negotiating, offers := [BOBS], totalOffers := 1, offerCount := map["bob" := 1],
                            lastEventId := "e1")
  const SELECTED := OFFERED.(state := CommitPending, selectedSeller := Some("bob"), selectedOfferId := Some("o"),
                             quoteRevision := 1, totalAccepts := 1, acceptCount := map["bob" := 1], lastEventId := "e2",
                             unsignedQuote := Some(QUOTE), commitPendingAt := Some(0))
  const SIGNED := SELECTED.(buyerSignature := Some("by alice"), lastEventId := "e3")
  const DEAL := SIGNED.(state := Committed, sellerSignature := Some("by bob"), lastEventId := "e4")

  /** The log holds one event per action so far and derives to this session. */
  ghost predicate At(actions: seq<Action>, s: Session) {
    var logs := Run(ENV, actions);
    && logs.Keys == {R} && |logs[R]| == |actions| && Derive(logs[R]) == Live(s)
    && forall i :: 0 <= i < |actions| ==>
         logs[R][i].id == actions[i].eventId && logs[R][i].ty == AppendedType(actions[i].request)
  }

  /** One more action, decided on the current session, appends. */
  lemma {:induction false} Advance(actions: seq<Action>, s: Session, a: Action, o: Outcome, t: Session)
    requires At(actions, s) && a.rfqId == R && a.t == NOW && a.seen == |actions| && !a.request.CreateRfq?
    requires DecideFor(ENV, s, s, Run(ENV, actions)[R], a) == o && o.Append?
    requires Apply(s, NewEvent(a, o)) == Live(t)
    requires forall i :: 0 <= i < |actions| ==> actions[i].eventId != a.eventId
    ensures At(actions + [a], t)
    ensures Run(ENV, actions + [a])[R] == Run(ENV, actions)[R] + [NewEvent(a, o)]
  {
    var logs := Run(ENV, actions);
    var log := logs[R];
    assert log[..a.seen] == log;
    RunSnoc(ENV, actions, a);
    DeriveSnoc(log, NewEvent(a, o));
    hide DecideFor, Derive, Run, Apply;
    assert FreshId(logs, a.eventId);
    assert Next(ENV, logs, a) == logs[R := log + [NewEvent(a, o)]];
  }

  lemma {:induction false} DeadlineIsAhead()
    ensures Millis(Iso(END)) == Some(END) && !Reached(ENV, 0, Iso(END))
  {
    EnvIsValid();
    assert ENV.parse(ENV.iso(END)) == Some(END);
  }

  lemma {:induction false} Creates()
    ensures var o := DecideCreate(ENV, [], CREATE); o.Append? && Create(NewEvent(CREATE, o)) == Live(CREATED)
  {
    DeadlineIsAhead();
    OneIsPositive();
    hide PositiveAmount;
    assert DecideCreate(ENV, [], CREATE).Append?;
    CreatePayloadParses(ENV, CREATE);
  }

  lemma {:induction false} DerivesToCreated(e: Event)
    requires Create(e) == Live(CREATED)
    ensures Derive([e]) == Live(CREATED)
  {
    assert [] + [e] == [e];
    DeriveSnoc([], e);
  }

  lemma {:induction false} FirstAppends(e: Event)
    requires DecideCreate(ENV, [], CREATE).Append? && e == NewEvent(CREATE, DecideCreate(ENV, [], CREATE))
    requires Derive([e]) == Live(CREATED)
    ensures Next(ENV, map[], CREATE) == map[R := [e]]
  {
    hide DecideCreate, Derive, Iso;
    assert [] + [e] == [e];
  }

  lemma {:induction false} RunOfOne(a: Action)
    ensures Run(ENV, [a]) == Next(ENV, map[], a)
  {
    hide Next;
    assert [a][..0] == [];
  }

  lemma {:induction false} IsCreated()
    ensures At([CREATE], CREATED)
  {
    Creates();
    RunOfOne(CREATE);
    hide DecideCreate, Derive, Create, Next, Run, Iso;
    var e := NewEvent(CREATE, DecideCreate(ENV, [], CREATE));
    DerivesToCreated(e);
    FirstAppends(e);
  }

  lemma {:induction false} Offers(log: seq<Event>)
    ensures var o := Append(OfferSubmitted, "bob", OfferPayload(OFFER.request, R));
            DecideFor(ENV, CREATED, CREATED, log, OFFER) == o && Apply(CREATED, NewEvent(OFFER, o)) == Live(OFFERED)
  {
    hide DecideFor, Apply, OfferPayload;
    OfferDecides(log);
    OfferApplies();
  }

  lemma {:induction false} OfferDecides(log: seq<Event>)
    ensures DecideFor(ENV, CREATED, CREATED, log, OFFER) ==
            Append(OfferSubmitted, "bob", OfferPayload(OFFER.request, R))
  {
    DeadlineIsAhead();
    OneIsPositive();
    hide PositiveAmount, Iso, Millis, OfferPayload;
  }

  lemma {:induction false} OfferApplies()
    ensures Apply(CREATED, NewEvent(OFFER, Append(OfferSubmitted, "bob", OfferPayload(OFFER.request, R)))) ==
            Live(OFFERED)
  {
    hide Iso;
    OfferPayloadParses(OFFER.request, R);
  }

  lemma {:induction false} IsOffered()
    ensures At([CREATE, OFFER], OFFERED)
  {
    IsCreated();
    hide Run, Derive, DecideFor, Apply;
    Offers(Run(ENV, [CREATE])[R]);
    Advance([CREATE], CREATED, OFFER, Append(OfferSubmitted, "bob", OfferPayload(OFFER.request, R)), OFFERED);
    assert [CREATE] + [OFFER] == [CREATE, OFFER];
  }

  lemma {:induction false} Selects(log: seq<Event>)
    ensures var o := Append(WinnerSelected, "alice", WinnerPayload("bob", "o", QUOTE));
            DecideFor(ENV, OFFERED, OFFERED, log, ACCEPT) == o && Apply(OFFERED, NewEvent(ACCEPT, o)) == Live(SELECTED)
  {
    DeadlineIsAhead();
    OneIsPositive();
    hide PositiveAmount, Iso, Millis, QuoteDoc;
    QuoteDocFields(ENV, RFQ, BOBS, END, "q", "n");
    assert FindOffer(OFFERED.offers, "o") == Some(BOBS) && FindOfferOf(OFFERED.offers, "o", "bob") == Some(BOBS);
    assert HasOfferFrom(OFFERED.offers, "bob") by { assert OFFERED.offers[0].seller == "bob"; }
    assert BuildQuote(ENV, OFFERED, "o", 0, "q", "n") == Some(QUOTE);
  }

  lemma {:induction false} IsSelected()
    ensures At([CREATE, OFFER, ACCEPT], SELECTED)
  {
    IsOffered();
    hide Run, Derive, DecideFor, Apply, QuoteDoc;
    var before := [CREATE, OFFER];
    Selects(Run(ENV, before)[R]);
    Advance(before, OFFERED, ACCEPT, Append(WinnerSelected, "alice", WinnerPayload("bob", "o", QUOTE)), SELECTED);
    assert before + [ACCEPT] == [CREATE, OFFER, ACCEPT];
  }

  lemma {:induction false} QuoteIsOpen()
    ensures TextAt(QUOTE, KExpiresAt) == Some(Iso(END)) && TextAt(QUOTE, KQuoteId) == Some("q")
  {
  }

  lemma {:induction false} Signs(log: seq<Event>)
    ensures var o := Append(QuoteSigned, "alice", SignaturePayload(Some("bob"), KBuyerSignature, "by alice"));
            DecideFor(ENV, SELECTED, SELECTED, log, SIGN) == o && Apply(SELECTED, NewEvent(SIGN, o)) == Live(SIGNED)
  {
    DeadlineIsAhead();
    QuoteIsOpen();
    hide Iso, Millis, QuoteDoc;
  }

  lemma {:induction false} Cosigns(log: seq<Event>)
    ensures var o := Append(QuoteCommitted, "bob", SignaturePayload(Some("bob"), KSellerSignature, "by bob"));
            DecideFor(ENV, SIGNED, SIGNED, log, COSIGN) == o && Apply(SIGNED, NewEvent(COSIGN, o)) == Live(DEAL)
  {
    DeadlineIsAhead();
    QuoteIsOpen();
    hide Iso, Millis, QuoteDoc;
  }

  const TO_DEAL := [CREATE, OFFER, ACCEPT, SIGN, COSIGN]

  /** A deal is reached: this run commits. */
  lemma {:induction false} DealIsReached()
    ensures ENV.Valid() && At(TO_DEAL, DEAL)
  {
    EnvIsValid();
    IsSelected();
    hide Run, Derive, DecideFor, Apply, QuoteDoc;
    var selected := [CREATE, OFFER, ACCEPT];
    Signs(Run(ENV, selected)[R]);
    Advance(selected, SELECTED, SIGN,
            Append(QuoteSigned, "alice", SignaturePayload(Some("bob"), KBuyerSignature, "by alice")), SIGNED);
    Cosigns(Run(ENV, selected + [SIGN])[R]);
    Advance(selected + [SIGN], SIGNED, COSIGN,
            Append(QuoteCommitted, "bob", SignaturePayload(Some("bob"), KSellerSignature, "by bob")), DEAL);
    assert selected + [SIGN] + [COSIGN] == TO_DEAL;
  }

  const RECORD := SettlementRecord(Text("q"), ELSEWHERE.request.quote)

  lemma {:induction false} Settles(log: seq<Event>)
    requires !Settled(log)
    ensures var o := Append(SettlementConfirmed, SETTLEMENT_VERIFIER, RECORD);
            DecideFor(ENV, DEAL, DEAL, log, ELSEWHERE) == o
            && Apply(DEAL, NewEvent(ELSEWHERE, o)) == Live(DEAL.(lastEventId := "e5"))
  {
    QuoteIsOpen();
    hide QuoteDoc, Iso, Millis, SettlementRecord;
  }

  lemma {:induction false} NotSettledYet(actions: seq<Action>, s: Session)
    requires At(actions, s)
    requires forall i :: 0 <= i < |actions| ==> AppendedType(actions[i].request) != SettlementConfirmed
    ensures !Settled(Run(ENV, actions)[R])
  {
    hide Run, Derive, AppendedType;
  }

  lemma {:induction false} RecordReaches(e: Event)
    requires e.ty == SettlementConfirmed && e.payload == RECORD
    ensures VisibleTo(e, "mallory", "alice") && !VisibleTo(e, "bob", "alice")
  {
    assert TextAt(RECORD, KSeller) == Some("mallory");
  }

  lemma {:induction false} IsSettled()
    ensures At(TO_DEAL + [ELSEWHERE], DEAL.(lastEventId := "e5"))
    ensures Run(ENV, TO_DEAL + [ELSEWHERE])[R][5].ty == SettlementConfirmed
    ensures Run(ENV, TO_DEAL + [ELSEWHERE])[R][5].payload == RECORD
  {
    hide Run, Derive, DecideFor, Apply, QuoteDoc, SettlementRecord, Iso, Millis;
    DealIsReached();
    NotSettledYet(TO_DEAL, DEAL);
    Settles(Run(ENV, TO_DEAL)[R]);
    Advance(TO_DEAL, DEAL, ELSEWHERE, Append(SettlementConfirmed, SETTLEMENT_VERIFIER, RECORD),
            DEAL.(lastEventId := "e5"));
  }

  /**
   /execute compares the quote id alone: here a request whose quote names "mallory" settles the deal with "bob", and
   the record reaches mallory and not bob.
   */
  lemma {:induction false} ExecuteCanNameAnother()
    ensures ENV.Valid() && At(TO_DEAL + [ELSEWHERE], DEAL.(lastEventId := "e5"))
    ensures DEAL.selectedSeller == Some("bob") && DEAL.rfq.buyer == "alice"
    ensures var e := Run(ENV, TO_DEAL + [ELSEWHERE])[R][5];
            e.ty == SettlementConfirmed && VisibleTo(e, "mallory", "alice") && !VisibleTo(e, "bob", "alice")
  {
    EnvIsValid();
    IsSettled();
    hide Derive, Run, VisibleTo, QuoteDoc;
    RecordReaches(Run(ENV, TO_DEAL + [ELSEWHERE])[R][5]);
  }
}
