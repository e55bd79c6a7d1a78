/**
  The escape is real: a settlement that outlives its reservation is still recorded, so an allowance of
  one unit can see two units paid. Both requests are ones the guard authorizes and asks for, five minutes
  apart, and every hook runs to its end.
 */
module SlowSettlement {
  import opened Outcomes
  import opened BudgetLedger
  import opened SpendPolicy
  import opened AgentBudget
  import opened PaymentLifecycle

  const A := "allowance"
  const P1 := Payload(1, "key-1")
  const P2 := Payload(2, "key-2")
  const LATER := RESERVATION_WINDOW
  const VIEW := View(
    A, "network", "owner", "delegate", "mint", None, ["resource"], 1, 1, 0, 0, 2 * LATER, Active, None, Finalized)

  function Ask(now: int): Request {
    Request("owner", "delegate", "network", "mint", "recipient", "resource", 1, now)
  }

  const OPEN := Save(A, AllowanceRecord("owner", 1, None, 2 * LATER, None, None, None))
  const R1 := Reserve(SpendRequestFor(VIEW, Ask(0), "key-1", "r1"), 0, 0)
  const SWEEP := Cleanup(["r1"], LATER)
  const R2 := Reserve(SpendRequestFor(VIEW, Ask(LATER), "key-2", "r2"), LATER, LATER)

  /** The run: the first request reserves, is swept, and settles only after the second has reserved. */
  predicate Slow(events: seq<Event>) {
    && |events| == 14
    && events[0] == Background(OPEN)
    && events[1] == VerifyReserve(P1, R1) && events[2] == RememberBudget(P1, "r1")
    && events[3] == Background(SWEEP)
    && events[4] == VerifyReserve(P2, R2) && events[5] == RememberBudget(P2, "r2")
    && events[6] == SettleSave(P1, "sig-1") && events[7] == RememberSettled(P1, "sig-1")
    && events[8] == AfterSettle(P1) && events[9] == Consume(P1, "r1", "sig-1")
    && events[10] == SettleSave(P2, "sig-2") && events[11] == RememberSettled(P2, "sig-2")
    && events[12] == AfterSettle(P2) && events[13] == Consume(P2, "r2", "sig-2")
  }

  const SLOW_RUN: seq<Event> := [
    Background(OPEN),
    VerifyReserve(P1, R1), RememberBudget(P1, "r1"),
    Background(SWEEP),
    VerifyReserve(P2, R2), RememberBudget(P2, "r2"),
    SettleSave(P1, "sig-1"), RememberSettled(P1, "sig-1"), AfterSettle(P1), Consume(P1, "r1", "sig-1"),
    SettleSave(P2, "sig-2"), RememberSettled(P2, "sig-2"), AfterSettle(P2), Consume(P2, "r2", "sig-2")]

  lemma SlowRun()
    ensures Slow(SLOW_RUN)
  {
  }

  // ---------------------------------------------------------------- the ledger

  function Row(spent: int, reserved: int, status: AllowanceStatus): Allowance {
    Allowance("owner", 1, 1, spent, reserved, 2 * LATER, status, None, None)
  }

  function Hold(key: string, status: ReservationStatus, expiresAt: int): Reservation {
    Reservation(A, key, 1, status, expiresAt)
  }

  const OPENED := State(map[A := Row(0, 0, Active)], map[])
  const HELD := State(map[A := Row(0, 1, Active)], map["r1" := Hold("key-1", Reserved, LATER)])
  const SWEPT := State(map[A := Row(0, 0, Active)], map["r1" := Hold("key-1", Released, LATER)])
  const HELD_AGAIN := State(
    map[A := Row(0, 1, Active)],
    map["r1" := Hold("key-1", Released, LATER), "r2" := Hold("key-2", Reserved, 2 * LATER)])
  const CHARGED := State(
    map[A := Row(1, 0, Exhausted)],
    map["r1" := Hold("key-1", Released, LATER), "r2" := Hold("key-2", Consumed, 2 * LATER)])

  lemma OpenStep()
    ensures Apply(EMPTY, OPEN) == OPENED
  {
  }

  lemma FirstReserve()
    ensures Accepted(OPENED, R1) && Apply(OPENED, R1) == HELD
  {
  }

  lemma SweepStep()
    ensures Apply(HELD, SWEEP) == SWEPT
  {
    assert Sweepable(HELD, ["r1"], LATER);
    assert ["r1"][..0] == [];
    assert Owed(HELD.reservations, ["r1"], A) == 1;
    assert Lower(Row(0, 1, Active), 1) == Row(0, 0, Active);
  }

  lemma SecondReserve()
    ensures Accepted(SWEPT, R2) && Apply(SWEPT, R2) == HELD_AGAIN
  {
    assert !KeyTaken(SWEPT, "key-2");
  }

  lemma SecondConsume()
    ensures Finishable(HELD_AGAIN, "r2") && Apply(HELD_AGAIN, Finish("r2", true)) == CHARGED
  {
  }

  /** The guard authorizes both requests against its view. */
  lemma BothAuthorized()
    ensures ViewValid(VIEW) && GuardCode(VIEW, Ask(0)) == Authorized && GuardCode(VIEW, Ask(LATER)) == Authorized
  {
  }

  // ---------------------------------------------------------------- the hooks, for any server

  lemma DoRuns(h: Server, op: Operation)
    ensures Ledger(Do(h, op)) == Apply(Ledger(h), op)
  {
    assert (h.ops + [op])[..|h.ops|] == h.ops;
  }

  /** What is known of a server along the run. */
  predicate Knows(h: Server, payments: map<Signature, Payload>, owners: map<ReservationId, Payload>,
                  budgets: map<Payload, ReservationId>, claims: map<ReservationId, Signature>) {
    h.payments == payments && h.owners == owners && h.budgets == budgets && h.claims == claims
  }

  /** Reserve and remember. */
  lemma ReserveHook(h: Server, p: Payload, reserve: Operation, s: State)
    requires Accepted(Ledger(h), reserve) && reserve.request.paymentKey == p.paymentKey
    requires Apply(Ledger(h), reserve) == s
    ensures var id := reserve.request.reservationId;
      var t := Step(Step(h, VerifyReserve(p, reserve)), RememberBudget(p, id));
      Ledger(t) == s && Knows(t, h.payments, h.owners[id := p], h.budgets[p := id], h.claims)
  {
    DoRuns(h, reserve);
  }

  /** A settlement is stored and remembered, and its hook is about to consume. */
  lemma SettleHook(h: Server, p: Payload, signature: Signature)
    requires p in h.budgets && signature !in h.payments
    ensures var t := Step(Step(Step(h, SettleSave(p, signature)), RememberSettled(p, signature)), AfterSettle(p));
      && Ledger(t) == Ledger(h) && (p, h.budgets[p], signature) in t.consuming
      && Knows(t, h.payments[signature := p], h.owners, h.budgets, h.claims)
  {
  }

  lemma RefusedConsume(h: Server, p: Payload, id: ReservationId, signature: Signature)
    requires (p, id, signature) in h.consuming && !Finishable(Ledger(h), id)
    ensures var t := Step(h, Consume(p, id, signature));
      Ledger(t) == Ledger(h) && Knows(t, h.payments, h.owners, h.budgets, h.claims)
  {
  }

  lemma AcceptedConsume(h: Server, p: Payload, id: ReservationId, signature: Signature, s: State)
    requires (p, id, signature) in h.consuming && Finishable(Ledger(h), id) && Apply(Ledger(h), Finish(id, true)) == s
    ensures var t := Step(h, Consume(p, id, signature));
      Ledger(t) == s && Knows(t, h.payments, h.owners, h.budgets, h.claims[id := signature])
  {
    DoRuns(h, Finish(id, true));
  }

  // ---------------------------------------------------------------- the run

  /** The server after the first k events. */
  function After(events: seq<Event>, k: nat): Server
    requires k <= |events|
  {
    Exec(events[..k])
  }

  lemma AfterNext(events: seq<Event>, k: nat)
    requires k < |events|
    ensures After(events, k + 1) == Step(After(events, k), events[k])
  {
    assert events[..k + 1][..k] == events[..k];
  }

  const OWNERS1: map<ReservationId, Payload> := map["r1" := P1]
  const OWNERS2: map<ReservationId, Payload> := map["r1" := P1, "r2" := P2]
  const BUDGETS1: map<Payload, ReservationId> := map[P1 := "r1"]
  const BUDGETS2: map<Payload, ReservationId> := map[P1 := "r1", P2 := "r2"]

  predicate At(events: seq<Event>, k: nat, s: State, payments: map<Signature, Payload>,
               owners: map<ReservationId, Payload>, budgets: map<Payload, ReservationId>,
               claims: map<ReservationId, Signature>)
    requires k <= |events|
  {
    Ledger(After(events, k)) == s && Knows(After(events, k), payments, owners, budgets, claims)
  }

  lemma OpeningLeg(events: seq<Event>, op: Operation, s: State)
    requires |events| > 0 && events[0] == Background(op) && IsBackground(op) && Apply(EMPTY, op) == s
    ensures At(events, 1, s, map[], map[], map[], map[])
  {
    AfterNext(events, 0);
    assert After(events, 0) == BOOT;
    DoRuns(BOOT, op);
  }

  lemma BackgroundLeg(
    events: seq<Event>, k: nat, op: Operation, s: State, t: State, payments: map<Signature, Payload>,
    owners: map<ReservationId, Payload>, budgets: map<Payload, ReservationId>, claims: map<ReservationId, Signature>)
    requires k < |events| && events[k] == Background(op) && IsBackground(op) && Apply(s, op) == t
    requires At(events, k, s, payments, owners, budgets, claims)
    ensures At(events, k + 1, t, payments, owners, budgets, claims)
  {
    AfterNext(events, k);
    DoRuns(After(events, k), op);
  }

  lemma ReserveLeg(
    events: seq<Event>, k: nat, p: Payload, reserve: Operation, s: State, t: State, payments: map<Signature, Payload>,
    owners: map<ReservationId, Payload>, budgets: map<Payload, ReservationId>, claims: map<ReservationId, Signature>)
    requires k + 1 < |events| && events[k] == VerifyReserve(p, reserve)
    requires Accepted(s, reserve) && reserve.request.paymentKey == p.paymentKey && Apply(s, reserve) == t
    requires events[k + 1] == RememberBudget(p, reserve.request.reservationId)
    requires At(events, k, s, payments, owners, budgets, claims)
    ensures var id := reserve.request.reservationId;
      At(events, k + 2, t, payments, owners[id := p], budgets[p := id], claims)
  {
    AfterNext(events, k);
    AfterNext(events, k + 1);
    ReserveHook(After(events, k), p, reserve, t);
  }

  lemma SettleLeg(
    events: seq<Event>, k: nat, p: Payload, signature: Signature, s: State, payments: map<Signature, Payload>,
    owners: map<ReservationId, Payload>, budgets: map<Payload, ReservationId>, claims: map<ReservationId, Signature>)
    requires k + 2 < |events| && events[k] == SettleSave(p, signature)
    requires events[k + 1] == RememberSettled(p, signature) && events[k + 2] == AfterSettle(p)
    requires p in budgets && signature !in payments
    requires At(events, k, s, payments, owners, budgets, claims)
    ensures At(events, k + 3, s, payments[signature := p], owners, budgets, claims)
    ensures (p, budgets[p], signature) in After(events, k + 3).consuming
  {
    AfterNext(events, k);
    AfterNext(events, k + 1);
    AfterNext(events, k + 2);
    SettleHook(After(events, k), p, signature);
  }

  lemma RefusedLeg(
    events: seq<Event>, k: nat, p: Payload, id: ReservationId, signature: Signature, s: State,
    payments: map<Signature, Payload>, owners: map<ReservationId, Payload>, budgets: map<Payload, ReservationId>,
    claims: map<ReservationId, Signature>)
    requires k < |events| && events[k] == Consume(p, id, signature)
    requires (p, id, signature) in After(events, k).consuming && !Finishable(s, id)
    requires At(events, k, s, payments, owners, budgets, claims)
    ensures At(events, k + 1, s, payments, owners, budgets, claims)
  {
    AfterNext(events, k);
    RefusedConsume(After(events, k), p, id, signature);
  }

  lemma ConsumeLeg(
    events: seq<Event>, k: nat, p: Payload, id: ReservationId, signature: Signature, s: State, t: State,
    payments: map<Signature, Payload>, owners: map<ReservationId, Payload>, budgets: map<Payload, ReservationId>,
    claims: map<ReservationId, Signature>)
    requires k < |events| && events[k] == Consume(p, id, signature)
    requires (p, id, signature) in After(events, k).consuming && Finishable(s, id) && Apply(s, Finish(id, true)) == t
    requires At(events, k, s, payments, owners, budgets, claims)
    ensures At(events, k + 1, t, payments, owners, budgets, claims[id := signature])
  {
    AfterNext(events, k);
    AcceptedConsume(After(events, k), p, id, signature, t);
  }

  const PAID1: map<Signature, Payload> := map["sig-1" := P1]
  const PAID2: map<Signature, Payload> := map["sig-1" := P1, "sig-2" := P2]
  const CLAIMS: map<ReservationId, Signature> := map["r2" := "sig-2"]

  lemma AfterSweep(events: seq<Event>)
    requires Slow(events)
    ensures At(events, 4, SWEPT, map[], OWNERS1, BUDGETS1, map[])
  {
    OpenStep();
    OpeningLeg(events, OPEN, OPENED);
    FirstReserve();
    ReserveLeg(events, 1, P1, R1, OPENED, HELD, map[], map[], map[], map[]);
    SweepStep();
    BackgroundLeg(events, 3, SWEEP, HELD, SWEPT, map[], OWNERS1, BUDGETS1, map[]);
  }

  lemma AfterSecondReserve(events: seq<Event>)
    requires Slow(events)
    ensures At(events, 6, HELD_AGAIN, map[], OWNERS2, BUDGETS2, map[])
  {
    AfterSweep(events);
    SecondReserve();
    ReserveLeg(events, 4, P2, R2, SWEPT, HELD_AGAIN, map[], OWNERS1, BUDGETS1, map[]);
  }

  /** The consume of the late settlement is refused; nothing is charged for it. */
  lemma AfterRefusedConsume(events: seq<Event>)
    requires Slow(events)
    ensures At(events, 9, HELD_AGAIN, PAID1, OWNERS2, BUDGETS2, map[])
    ensures (P1, "r1", "sig-1") in After(events, 9).consuming && !Finishable(HELD_AGAIN, "r1")
    ensures At(events, 10, HELD_AGAIN, PAID1, OWNERS2, BUDGETS2, map[])
  {
    AfterSecondReserve(events);
    SettleLeg(events, 6, P1, "sig-1", HELD_AGAIN, map[], OWNERS2, BUDGETS2, map[]);
    RefusedLeg(events, 9, P1, "r1", "sig-1", HELD_AGAIN, PAID1, OWNERS2, BUDGETS2, map[]);
  }

  lemma AfterAll(events: seq<Event>)
    requires Slow(events)
    ensures At(events, 14, CHARGED, PAID2, OWNERS2, BUDGETS2, CLAIMS)
  {
    AfterRefusedConsume(events);
    SettleLeg(events, 10, P2, "sig-2", HELD_AGAIN, PAID1, OWNERS2, BUDGETS2, map[]);
    SecondConsume();
    ConsumeLeg(events, 13, P2, "r2", "sig-2", HELD_AGAIN, CHARGED, PAID2, OWNERS2, BUDGETS2, map[]);
  }

  lemma LateSave(events: seq<Event>)
    requires Slow(events)
    ensures EscapesAt(events, 6, "r1")
  {
    AfterSecondReserve(events);
  }

  lemma OneEach(rows: map<ReservationId, Reservation>, id: ReservationId)
    requires id in rows && rows[id].allowance == A && rows[id].amountAtomic == 1
    ensures Amounts(rows, {id}, A) == 1
  {
    assert {id} - {id} == {};
  }

  lemma BothPaid(h: Server)
    requires Ledger(h) == CHARGED && h.payments == PAID2 && h.owners == OWNERS2
    ensures PaidIds(h) == {"r1", "r2"} && EscapedIds(h) == {"r1"}
  {
    assert PaidBy(h, "sig-1", h.owners["r1"]) && PaidBy(h, "sig-2", h.owners["r2"]);
    assert Paid(h, "r1") && Paid(h, "r2");
  }

  lemma Totals(h: Server)
    requires Ledger(h) == CHARGED && PaidIds(h) == {"r1", "r2"} && EscapedIds(h) == {"r1"}
    ensures PaidTotal(h, A) == 2 && EscapedTotal(h, A) == 1
  {
    var rows := Ledger(h).reservations;
    OneEach(rows, "r1");
    OneEach(rows, "r2");
    AmountsSplit(rows, {"r1", "r2"}, {"r1"}, A);
    assert {"r1", "r2"} - {"r1"} == {"r2"};
  }

  lemma Ends(events: seq<Event>)
    requires Slow(events)
    ensures var h := Exec(events);
      Ledger(h) == CHARGED && h.payments == PAID2 && h.owners == OWNERS2 && h.claims == CLAIMS
  {
    AfterAll(events);
    assert events[..14] == events;
  }

  /**
    Two units are recorded as paid against a maximum of one: the ledger has charged one of them, and the
    other escaped when its record was stored against the released reservation.
   */
  lemma PaidTwiceTheBudget(events: seq<Event>)
    requires Slow(events)
    ensures var h := Exec(events);
      && A in Ledger(h).allowances && Ledger(h).allowances[A] == Row(1, 0, Exhausted)
      && Row(1, 0, Exhausted).maxAtomic == 1
      && h.payments == PAID2 && h.claims == CLAIMS
      && PaidTotal(h, A) == 2 && EscapedTotal(h, A) == 1
      && EscapesAt(events, 6, "r1")
  {
    Ends(events);
    LateSave(events);
    BothPaid(Exec(events));
    Totals(Exec(events));
  }
}
