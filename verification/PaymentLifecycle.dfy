/**
  The payment server's hooks driving the ledger. For any number of payloads, the verify, settle,
  failure and cancel hooks interleave at every point where the code waits, with background
  operations on the ledger, and the process may restart and lose its in-memory maps at any time.
 */
module PaymentLifecycle {
  import opened BudgetLedger
  import opened LedgerInvariants
  import opened LedgerHistory

  /** A payload object; two objects with equal content share a payment key. */
  datatype Payload = Payload(object: nat, paymentKey: string)

  type Signature = string

  datatype Server = Server(
    ops: seq<Operation>,                               // ledger operations committed so far
    payments: map<Signature, Payload>,                 // stored payment records, with the payload each was settled for
    owners: map<ReservationId, Payload>,               // the payload each reservation was made for
    reserving: set<(Payload, ReservationId)>,          // reserved, not yet remembered
    budgets: map<Payload, ReservationId>,              // budgetReservations
    saving: set<(Payload, Signature)>,                 // record stored, not yet remembered
    settled: map<Payload, Signature>,                  // settledRecords
    consuming: set<(Payload, ReservationId, Signature)>,  // after-settle hooks about to consume
    releasing: set<(Payload, ReservationId)>,          // failure and cancel hooks about to release
    claims: map<ReservationId, Signature>)             // the record behind each consumption

  const BOOT := Server([], map[], map[], {}, map[], {}, map[], {}, {}, map[])

  function Ledger(h: Server): State {
    Run(EMPTY, h.ops)
  }

  datatype Event =
    | VerifyReserve(p: Payload, reserve: Operation)
    | RememberBudget(p: Payload, id: ReservationId)
    | SettleSave(p: Payload, signature: Signature)
    | RememberSettled(p: Payload, signature: Signature)
    | AfterSettle(p: Payload)
    | Consume(p: Payload, id: ReservationId, signature: Signature)
    | FailOrCancel(p: Payload)
    | Release(p: Payload, id: ReservationId)
    | Forget(p: Payload)
    | Background(op: Operation)
    | Restart

  /** Operations of others on the ledger: everything but settling reservations and deleting rows. */
  predicate IsBackground(op: Operation) {
    op.Save? || op.Cleanup? || op.BeginRevocation? || op.Revoke? || op.Observe?
  }

  function Do(h: Server, op: Operation): Server {
    h.(ops := h.ops + [op])
  }

  /** One step of one hook, up to its next wait. A step that cannot happen changes nothing. */
  function Step(h: Server, e: Event): Server {
    match e
    case VerifyReserve(p, reserve) =>
      // The guard's store call; a refusal aborts the payment before settlement.
      if Accepted(Ledger(h), reserve) && reserve.request.paymentKey == p.paymentKey
      then
        var id := reserve.request.reservationId;
        Do(h, reserve).(owners := h.owners[id := p], reserving := h.reserving + {(p, id)})
      else h
    case RememberBudget(p, id) =>
      if (p, id) in h.reserving then h.(budgets := h.budgets[p := id], reserving := h.reserving - {(p, id)}) else h
    case SettleSave(p, signature) =>
      // A replayed signature makes the store throw inside the facilitator boundary.
      if signature in h.payments then h
      else h.(payments := h.payments[signature := p], saving := h.saving + {(p, signature)})
    case RememberSettled(p, signature) =>
      if (p, signature) in h.saving
      then h.(settled := h.settled[p := signature], saving := h.saving - {(p, signature)})
      else h
    case AfterSettle(p) =>
      if p in h.settled && p in h.budgets
      then h.(consuming := h.consuming + {(p, h.budgets[p], h.settled[p])})
      else h
    case Consume(p, id, signature) =>
      if (p, id, signature) !in h.consuming then h
      else
        var rest := h.(consuming := h.consuming - {(p, id, signature)});
        if Finishable(Ledger(h), id)
        then Do(rest, Finish(id, true)).(claims := h.claims[id := signature])
        else rest
    case FailOrCancel(p) =>
      if p in h.budgets then h.(releasing := h.releasing + {(p, h.budgets[p])}) else h
    case Release(p, id) =>
      if (p, id) in h.releasing then Do(h, Finish(id, false)).(releasing := h.releasing - {(p, id)}) else h
    case Forget(p) => h.(budgets := h.budgets - {p})
    case Background(op) => if IsBackground(op) then Do(h, op) else h
    case Restart =>
      h.(reserving := {}, budgets := map[], saving := {}, settled := map[], consuming := {}, releasing := {})
  }

  function Exec(events: seq<Event>): Server {
    if events == [] then BOOT else Step(Exec(events[..|events| - 1]), events[|events| - 1])
  }

  // ---------------------------------------------------------------- what the hooks know

  predicate Owns(h: Server, p: Payload, id: ReservationId) {
    id in h.owners && h.owners[id] == p
  }

  predicate PaidBy(h: Server, signature: Signature, p: Payload) {
    signature in h.payments && h.payments[signature] == p
  }

  ghost predicate MapsOk(h: Server) {
    && (forall p, id :: (p, id) in h.reserving ==> Owns(h, p, id))
    && (forall p :: p in h.budgets ==> Owns(h, p, h.budgets[p]))
    && (forall p, id :: (p, id) in h.releasing ==> Owns(h, p, id))
    && (forall p, signature :: (p, signature) in h.saving ==> PaidBy(h, signature, p))
    && (forall p :: p in h.settled ==> PaidBy(h, h.settled[p], p))
    && (forall p, id, signature :: (p, id, signature) in h.consuming ==>
          Owns(h, p, id) && PaidBy(h, signature, p))
  }

  /** Every reservation belongs to the payload whose key it carries. */
  ghost predicate OwnersOk(h: Server, s: State) {
    forall id :: id in h.owners ==>
      id in s.reservations && s.reservations[id].paymentKey == h.owners[id].paymentKey
  }

  /** Consumed reservations are exactly the claimed ones, each paid by a record of its own payload. */
  ghost predicate ClaimsOk(h: Server, s: State) {
    && (forall id :: id in h.claims ==> id in h.owners && PaidBy(h, h.claims[id], h.owners[id]))
    && (forall id :: id in h.claims ==> id in s.reservations)
    && (forall id :: id in s.reservations ==> (s.reservations[id].status == Consumed <==> id in h.claims))
  }

  ghost predicate HooksOk(h: Server, s: State) {
    MapsOk(h) && OwnersOk(h, s) && ClaimsOk(h, s)
  }

  ghost predicate Good(h: Server) {
    && (forall op :: op in h.ops ==> !op.Delete?)
    && Inv(Ledger(h)) && HooksOk(h, Ledger(h))
  }

  /** What an operation does to the rows as far as the hooks care: key kept, and consumed or not. */
  ghost predicate RowsKept(s: State, t: State, consumed: set<ReservationId>) {
    forall id :: id in s.reservations ==>
      && id in t.reservations
      && t.reservations[id].paymentKey == s.reservations[id].paymentKey
      && (t.reservations[id].status == Consumed <==> (s.reservations[id].status == Consumed || id in consumed))
  }

  lemma QuietRows(s: State, op: Operation)
    requires Inv(s) && !op.Delete? && !op.Reserve? && !(op.Finish? && op.consumed)
    ensures RowsKept(s, Apply(s, op), {}) && Apply(s, op).reservations.Keys == s.reservations.Keys
  {
  }

  lemma ConsumeRows(s: State, id: ReservationId)
    requires Inv(s) && Finishable(s, id)
    ensures var t := Apply(s, Finish(id, true)); RowsKept(s, t, {id}) && t.reservations.Keys == s.reservations.Keys
  {
  }

  lemma ReserveRows(s: State, op: Operation)
    requires Inv(s) && Accepted(s, op)
    ensures var t := Apply(s, op); var id := op.request.reservationId;
      && RowsKept(s, t, {}) && id !in s.reservations && t.reservations.Keys == s.reservations.Keys + {id}
      && t.reservations[id].paymentKey == op.request.paymentKey && t.reservations[id].status == Reserved
  {
  }

  lemma DoKeepsLedger(h: Server, op: Operation, t: Server)
    requires Good(h) && !op.Delete? && t.ops == h.ops + [op]
    ensures Ledger(t) == Apply(Ledger(h), op) && Inv(Ledger(t)) && forall o :: o in t.ops ==> !o.Delete?
  {
    assert t.ops[..|h.ops|] == h.ops;
    ApplyKeeps(Ledger(h), op);
  }

  lemma VerifyMaps(h: Server, p: Payload, id: ReservationId, ops: seq<Operation>)
    requires MapsOk(h) && id !in h.owners
    ensures MapsOk(h.(ops := ops, owners := h.owners[id := p], reserving := h.reserving + {(p, id)}))
  {
  }

  lemma VerifyHooks(h: Server, s: State, s': State, p: Payload, id: ReservationId, ops: seq<Operation>)
    requires HooksOk(h, s) && RowsKept(s, s', {}) && id !in s.reservations
    requires s'.reservations.Keys == s.reservations.Keys + {id}
    requires s'.reservations[id].paymentKey == p.paymentKey && s'.reservations[id].status == Reserved
    ensures HooksOk(h.(ops := ops, owners := h.owners[id := p], reserving := h.reserving + {(p, id)}), s')
  {
    assert id !in h.owners && id !in h.claims;
    VerifyMaps(h, p, id, ops);
  }

  lemma VerifyKeeps(h: Server, p: Payload, reserve: Operation)
    requires Good(h) && Accepted(Ledger(h), reserve) && reserve.request.paymentKey == p.paymentKey
    ensures Good(Step(h, VerifyReserve(p, reserve)))
  {
    DoKeepsLedger(h, reserve, Step(h, VerifyReserve(p, reserve)));
    ReserveRows(Ledger(h), reserve);
    VerifyHooks(h, Ledger(h), Apply(Ledger(h), reserve), p, reserve.request.reservationId, h.ops + [reserve]);
  }

  lemma ConsumeHooks(
    h: Server, s: State, s': State, p: Payload, id: ReservationId, signature: Signature, ops: seq<Operation>)
    requires HooksOk(h, s) && RowsKept(s, s', {id}) && id in s.reservations
        && s'.reservations.Keys == s.reservations.Keys
    requires (p, id, signature) in h.consuming
    ensures var rest := h.consuming - {(p, id, signature)};
      HooksOk(h.(ops := ops, consuming := rest, claims := h.claims[id := signature]), s')
  {
  }

  lemma ConsumeKeeps(h: Server, p: Payload, id: ReservationId, signature: Signature)
    requires Good(h) && (p, id, signature) in h.consuming && Finishable(Ledger(h), id)
    ensures Good(Step(h, Consume(p, id, signature)))
  {
    DoKeepsLedger(h, Finish(id, true), Step(h, Consume(p, id, signature)));
    ConsumeRows(Ledger(h), id);
    ConsumeHooks(h, Ledger(h), Apply(Ledger(h), Finish(id, true)), p, id, signature, h.ops + [Finish(id, true)]);
  }

  lemma QuietHooks(h: Server, s: State, s': State, ops: seq<Operation>, releasing: set<(Payload, ReservationId)>)
    requires HooksOk(h, s) && RowsKept(s, s', {}) && s'.reservations.Keys == s.reservations.Keys
        && releasing <= h.releasing
    ensures HooksOk(h.(ops := ops, releasing := releasing), s')
  {
  }

  /** Operations that consume nothing leave what the hooks know in place. */
  lemma QuietOpKeeps(h: Server, op: Operation, releasing: set<(Payload, ReservationId)>)
    requires Good(h) && !op.Delete? && !op.Reserve? && !(op.Finish? && op.consumed) && releasing <= h.releasing
    ensures Good(Do(h, op).(releasing := releasing))
  {
    DoKeepsLedger(h, op, Do(h, op).(releasing := releasing));
    QuietRows(Ledger(h), op);
    QuietHooks(h, Ledger(h), Apply(Ledger(h), op), h.ops + [op], releasing);
  }

  /** A fresh signature adds a record and disturbs no other. */
  lemma SaveKeeps(h: Server, s: State, p: Payload, signature: Signature)
    requires HooksOk(h, s)
    ensures HooksOk(Step(h, SettleSave(p, signature)), s)
  {
    var t := Step(h, SettleSave(p, signature));
    if signature !in h.payments {
      assert forall x, q :: PaidBy(h, x, q) ==> PaidBy(t, x, q);
      assert PaidBy(t, signature, p);
      assert MapsOk(t);
    }
  }

  lemma HookStepKeeps(h: Server, s: State, e: Event)
    requires HooksOk(h, s) && (e.AfterSettle? || e.FailOrCancel?)
    ensures HooksOk(Step(h, e), s)
  {
  }

  lemma MemoryStepKeeps(h: Server, s: State, e: Event)
    requires HooksOk(h, s) && (e.RememberBudget? || e.RememberSettled? || e.Forget? || e.Restart?)
    ensures HooksOk(Step(h, e), s)
  {
  }

  lemma RefusedConsumeKeeps(h: Server, s: State, consuming: set<(Payload, ReservationId, Signature)>)
    requires HooksOk(h, s) && consuming <= h.consuming
    ensures HooksOk(h.(consuming := consuming), s)
  {
  }

  /** The steps that commit a ledger operation. */
  predicate MovesLedger(h: Server, e: Event) {
    match e
    case VerifyReserve(p, reserve) => Accepted(Ledger(h), reserve) && reserve.request.paymentKey == p.paymentKey
    case Consume(p, id, signature) => (p, id, signature) in h.consuming && Finishable(Ledger(h), id)
    case Release(p, id) => (p, id) in h.releasing
    case Background(op) => IsBackground(op)
    case _ => false
  }

  lemma LedgerStepKeeps(h: Server, e: Event)
    requires Good(h) && MovesLedger(h, e)
    ensures Good(Step(h, e))
  {
    match e
    case VerifyReserve(p, reserve) => VerifyKeeps(h, p, reserve);
    case Consume(p, id, signature) => ConsumeKeeps(h, p, id, signature);
    case Release(p, id) => QuietOpKeeps(h, Finish(id, false), h.releasing - {(p, id)});
    case Background(op) => QuietOpKeeps(h, op, h.releasing);
  }

  lemma OtherStepKeeps(h: Server, s: State, e: Event)
    requires HooksOk(h, s) && s == Ledger(h) && !MovesLedger(h, e)
    ensures HooksOk(Step(h, e), s) && Step(h, e).ops == h.ops
  {
    match e
    case VerifyReserve(_, _) =>
    case Release(_, _) =>
    case Background(_) =>
    case Consume(p, id, signature) => RefusedConsumeKeeps(h, s, h.consuming - {(p, id, signature)});
    case SettleSave(p, signature) => SaveKeeps(h, s, p, signature);
    case AfterSettle(_) => HookStepKeeps(h, s, e);
    case FailOrCancel(_) => HookStepKeeps(h, s, e);
    case _ => MemoryStepKeeps(h, s, e);
  }

  lemma StepKeeps(h: Server, e: Event)
    requires Good(h)
    ensures Good(Step(h, e))
  {
    if MovesLedger(h, e) {
      LedgerStepKeeps(h, e);
    } else {
      OtherStepKeeps(h, Ledger(h), e);
    }
  }

  lemma {:induction false} ExecGood(events: seq<Event>)
    ensures Good(Exec(events))
  {
    if events != [] {
      ExecGood(events[..|events| - 1]);
      StepKeeps(Exec(events[..|events| - 1]), events[|events| - 1]);
    }
  }

  // ---------------------------------------------------------------- guarantees over every run

  predicate ConsumedIn(s: State, id: ReservationId) {
    id in s.reservations && s.reservations[id].status == Consumed
  }

  /**
    Every consumed reservation has a stored payment record of its own: the records are distinct, and
    each was settled for the very payload the reservation was made for.
   */
  lemma ConsumedHasOwnRecord(events: seq<Event>, i: ReservationId, j: ReservationId)
    requires ConsumedIn(Ledger(Exec(events)), i) && ConsumedIn(Ledger(Exec(events)), j)
    ensures var h := Exec(events);
      && i in h.claims && i in h.owners && PaidBy(h, h.claims[i], h.owners[i])
      && Ledger(h).reservations[i].paymentKey == h.owners[i].paymentKey
      && j in h.claims && (i != j ==> h.claims[i] != h.claims[j])
  {
    ExecGood(events);
  }

  /** Consumed plus outstanding never exceeds an allowance's stored maximum, and both are exact sums. */
  lemma BudgetRespected(events: seq<Event>, a: Address)
    requires a in Ledger(Exec(events)).allowances
    ensures var s := Ledger(Exec(events));
      Total(s.reservations, a, Consumed) + Total(s.reservations, a, Reserved) <= s.allowances[a].maxAtomic
  {
    ExecGood(events);
    assert RowConserved(Ledger(Exec(events)), a);
  }

  lemma {:induction false} RunAppend(s: State, xs: seq<Operation>, ys: seq<Operation>)
    ensures Run(s, xs + ys) == Run(Run(s, xs), ys)
  {
    if ys == [] {
      assert xs + ys == xs;
    } else {
      assert (xs + ys)[..|xs + ys| - 1] == xs + ys[..|ys| - 1];
      RunAppend(s, xs, ys[..|ys| - 1]);
    }
  }

  lemma RunBetween(ops: seq<Operation>, i: nat, j: nat)
    requires i < j <= |ops|
    ensures Run(EMPTY, ops[..j]) == Run(Apply(Run(EMPTY, ops[..i]), ops[i]), ops[i + 1..j])
  {
    assert ops[..j] == ops[..i + 1] + ops[i + 1..j];
    RunAppend(EMPTY, ops[..i + 1], ops[i + 1..j]);
    assert ops[..i + 1][..i] == ops[..i];
  }

  /**
    In every run a reservation is settled by at most one ledger operation, whether a hook's consume,
    a hook's release or a background sweep; so none is both consumed and released.
   */
  lemma SettledAtMostOnce(events: seq<Event>, i: nat, j: nat, id: ReservationId)
    requires i < j < |Exec(events).ops|
    requires var ops := Exec(events).ops; Settles(Run(EMPTY, ops[..i]), ops[i], id)
    ensures var ops := Exec(events).ops; !Settles(Run(EMPTY, ops[..j]), ops[j], id)
  {
    var ops := Exec(events).ops;
    ExecGood(events);
    RunKeeps(EMPTY, ops[..i]);
    RunBetween(ops, i, j);
    var between := ops[i + 1..j];
    assert forall op :: op in between ==> op in ops;
    SettledOnce(Run(EMPTY, ops[..i]), ops[i], between, ops[j], id);
  }

  // ---------------------------------------------------------------- recorded payments that are not charged

  /** The payload this reservation was made for has a stored payment record. */
  ghost predicate Paid(h: Server, id: ReservationId) {
    id in h.owners && exists signature :: PaidBy(h, signature, h.owners[id])
  }

  predicate StatusIs(s: State, id: ReservationId, status: ReservationStatus) {
    id in s.reservations && s.reservations[id].status == status
  }

  /** Recorded as paid, and yet released: the payment is charged to nobody. */
  ghost predicate Escaped(h: Server, id: ReservationId) {
    Paid(h, id) && StatusIs(Ledger(h), id, Released)
  }

  /** A new record for the payload of a reservation. */
  predicate SavesFor(h: Server, e: Event, id: ReservationId) {
    e.SettleSave? && e.signature !in h.payments && id in h.owners && h.owners[id] == e.p
  }

  predicate Releases(s: State, op: Operation, id: ReservationId) {
    || (op.Finish? && op.id == id && !op.consumed)
    || (op.Cleanup? && id in op.ids && Sweepable(s, op.ids, op.now))
  }

  /** A hook's release or a sweep that gives up a held reservation. */
  predicate ReleasesHeld(h: Server, e: Event, id: ReservationId) {
    && StatusIs(Ledger(h), id, Reserved)
    && ((e.Release? && (e.p, e.id) in h.releasing && e.id == id)
        || (e.Background? && e.op.Cleanup? && Releases(Ledger(h), e.op, id)))
  }

  /** The two ways out: a record stored after the release, or a release after the record. */
  ghost predicate Escapes(h: Server, e: Event, id: ReservationId) {
    || (SavesFor(h, e, id) && StatusIs(Ledger(h), id, Released))
    || (ReleasesHeld(h, e, id) && Paid(h, id))
  }

  lemma ReleasedByOperation(s: State, op: Operation, id: ReservationId)
    requires Inv(s) && !op.Delete? && id in s.reservations
    ensures StatusIs(Apply(s, op), id, Released) <==>
      StatusIs(s, id, Released) || (StatusIs(s, id, Reserved) && Releases(s, op, id))
  {
    RowFate(s, op, id);
    match op
    case Cleanup(ids, now) => SweepFate(s, ids, now, id);
    case _ =>
  }

  /** The ledger operation such a step commits. */
  function OperationOf(e: Event): Operation
    requires e.VerifyReserve? || e.Consume? || e.Release? || e.Background?
  {
    match e
    case VerifyReserve(_, reserve) => reserve
    case Consume(_, id, _) => Finish(id, true)
    case Release(_, id) => Finish(id, false)
    case Background(op) => op
  }

  lemma LedgerMoves(h: Server, e: Event)
    requires MovesLedger(h, e)
    ensures Step(h, e).ops == h.ops + [OperationOf(e)]
  {
  }

  lemma ReleasedExactly(h: Server, e: Event, id: ReservationId)
    requires Good(h) && id in Ledger(h).reservations
    ensures StatusIs(Ledger(Step(h, e)), id, Released) <==> StatusIs(Ledger(h), id, Released) || ReleasesHeld(h, e, id)
  {
    if MovesLedger(h, e) {
      LedgerMoves(h, e);
      DoKeepsLedger(h, OperationOf(e), Step(h, e));
      ReleasedByOperation(Ledger(h), OperationOf(e), id);
    } else {
      OtherStepKeeps(h, Ledger(h), e);
    }
  }

  lemma PaymentsStep(h: Server, e: Event)
    ensures Step(h, e).payments ==
      if e.SettleSave? && e.signature !in h.payments then h.payments[e.signature := e.p] else h.payments
  {
  }

  predicate Reserves(h: Server, e: Event) {
    e.VerifyReserve? && Accepted(Ledger(h), e.reserve) && e.reserve.request.paymentKey == e.p.paymentKey
  }

  lemma OwnersStep(h: Server, e: Event)
    ensures Step(h, e).owners ==
      if Reserves(h, e) then h.owners[e.reserve.request.reservationId := e.p] else h.owners
  {
  }

  lemma PaidBySaves(h: Server, e: Event, t: Server, id: ReservationId)
    requires id in h.owners && id in t.owners && t.owners[id] == h.owners[id]
    requires t.payments ==
      if e.SettleSave? && e.signature !in h.payments then h.payments[e.signature := e.p] else h.payments
    ensures Paid(t, id) <==> Paid(h, id) || SavesFor(h, e, id)
  {
    if SavesFor(h, e, id) {
      assert PaidBy(t, e.signature, t.owners[id]);
    }
    if Paid(h, id) {
      var signature :| PaidBy(h, signature, h.owners[id]);
      assert PaidBy(t, signature, t.owners[id]);
    }
    if Paid(t, id) {
      var signature :| PaidBy(t, signature, t.owners[id]);
      assert PaidBy(h, signature, h.owners[id]) || SavesFor(h, e, id);
    }
  }

  lemma PaidExactly(h: Server, e: Event, id: ReservationId)
    requires OwnersOk(h, Ledger(h)) && id in h.owners
    ensures Paid(Step(h, e), id) <==> Paid(h, id) || SavesFor(h, e, id)
  {
    PaymentsStep(h, e);
    OwnersStep(h, e);
    PaidBySaves(h, e, Step(h, e), id);
  }

  lemma NewcomerHeld(h: Server, e: Event, id: ReservationId)
    requires Good(h) && id !in h.owners
    ensures !Escaped(Step(h, e), id)
  {
    OwnersStep(h, e);
    if Reserves(h, e) && id == e.reserve.request.reservationId {
      LedgerMoves(h, e);
      DoKeepsLedger(h, e.reserve, Step(h, e));
      ReserveRows(Ledger(h), e.reserve);
    }
  }

  /**
    Exactly when one step lets a payment escape its charge: a record is stored for a payload whose
    reservation is already released, or a held reservation whose payload has a record is released.
   */
  lemma EscapesExactly(h: Server, e: Event, id: ReservationId)
    requires Good(h)
    ensures Escaped(Step(h, e), id) <==> Escaped(h, id) || Escapes(h, e, id)
  {
    if id in h.owners {
      assert id in Ledger(h).reservations;
      ReleasedExactly(h, e, id);
      PaidExactly(h, e, id);
    } else {
      NewcomerHeld(h, e, id);
    }
  }

  /** The k-th step of the run lets the payment escape. */
  ghost predicate EscapesAt(events: seq<Event>, k: nat, id: ReservationId)
    requires k < |events|
  {
    Escapes(Exec(events[..k]), events[k], id)
  }

  ghost predicate EscapesIn(events: seq<Event>, id: ReservationId) {
    exists k :: 0 <= k < |events| && EscapesAt(events, k, id)
  }

  lemma EscapesInPrefix(events: seq<Event>, n: nat, id: ReservationId)
    requires |events| == n + 1
    ensures EscapesIn(events, id) <==> EscapesIn(events[..n], id) || EscapesAt(events, n, id)
  {
    forall k | 0 <= k < n ensures EscapesAt(events, k, id) <==> EscapesAt(events[..n], k, id) {
      assert events[..n][..k] == events[..k];
    }
  }

  /** Over every run, a payment has escaped if and only if some step of the run let it. */
  lemma {:induction false} EscapedExactly(events: seq<Event>, id: ReservationId)
    ensures Escaped(Exec(events), id) <==> EscapesIn(events, id)
  {
    if events != [] {
      var n := |events| - 1;
      EscapedExactly(events[..n], id);
      EscapesInPrefix(events, n, id);
      ExecGood(events[..n]);
      EscapesExactly(Exec(events[..n]), events[n], id);
    }
  }

  // ---------------------------------------------------------------- recorded payments and the budget

  /** Sum of the amounts of allowance a's reservations among the given ids. */
  ghost function Amounts(rows: map<ReservationId, Reservation>, ids: set<ReservationId>, a: Address): int
    requires ids <= rows.Keys
  {
    if ids == {} then 0
    else
      var id :| id in ids;
      (if rows[id].allowance == a then rows[id].amountAtomic else 0) + Amounts(rows, ids - {id}, a)
  }

  lemma {:induction false} AmountsWithin(rows: map<ReservationId, Reservation>, ids: set<ReservationId>, a: Address)
    requires ids <= rows.Keys && forall id :: id in rows ==> rows[id].amountAtomic > 0
    requires forall id :: id in ids && rows[id].allowance == a ==> rows[id].status != Released
    ensures Amounts(rows, ids, a) <= Total(rows, a, Reserved) + Total(rows, a, Consumed)
    decreases |ids|
  {
    if ids == {} {
      TotalNonNegative(rows, a, Reserved);
      TotalNonNegative(rows, a, Consumed);
    } else {
      var id :| id in ids && Amounts(rows, ids, a)
        == (if rows[id].allowance == a then rows[id].amountAtomic else 0) + Amounts(rows, ids - {id}, a);
      TotalTake(rows, id, a, Reserved);
      TotalTake(rows, id, a, Consumed);
      var rest := rows - {id};
      assert forall k :: k in rest ==> rest[k] == rows[k];
      AmountsSame(rows, rest, ids - {id}, a);
      AmountsWithin(rest, ids - {id}, a);
    }
  }

  lemma {:induction false} AmountsSame(
    xs: map<ReservationId, Reservation>, ys: map<ReservationId, Reservation>, ids: set<ReservationId>, a: Address)
    requires ids <= xs.Keys && ids <= ys.Keys && forall id :: id in ids ==> xs[id] == ys[id]
    ensures Amounts(xs, ids, a) == Amounts(ys, ids, a)
    decreases |ids|
  {
    if ids != {} {
      var id :| id in ids && Amounts(xs, ids, a)
        == (if xs[id].allowance == a then xs[id].amountAtomic else 0) + Amounts(xs, ids - {id}, a);
      AmountsTake(ys, ids, id, a);
      AmountsSame(xs, ys, ids - {id}, a);
    }
  }

  lemma {:induction false} AmountsTake(
    rows: map<ReservationId, Reservation>, ids: set<ReservationId>, id: ReservationId, a: Address)
    requires ids <= rows.Keys && id in ids
    ensures Amounts(rows, ids, a)
         == (if rows[id].allowance == a then rows[id].amountAtomic else 0) + Amounts(rows, ids - {id}, a)
    decreases |ids|
  {
    var pick :| pick in ids && Amounts(rows, ids, a)
      == (if rows[pick].allowance == a then rows[pick].amountAtomic else 0) + Amounts(rows, ids - {pick}, a);
    if pick != id {
      AmountsTake(rows, ids - {pick}, id, a);
      AmountsTake(rows, ids - {id}, pick, a);
      assert ids - {pick} - {id} == ids - {id} - {pick};
    }
  }

  lemma {:induction false} AmountsSplit(
    rows: map<ReservationId, Reservation>, ids: set<ReservationId>, part: set<ReservationId>, a: Address)
    requires ids <= rows.Keys && part <= ids
    ensures Amounts(rows, ids, a) == Amounts(rows, part, a) + Amounts(rows, ids - part, a)
    decreases |part|
  {
    if part == {} {
      assert ids - part == ids;
    } else {
      var id :| id in part;
      AmountsTake(rows, ids, id, a);
      AmountsTake(rows, part, id, a);
      AmountsSplit(rows, ids - {id}, part - {id}, a);
      assert ids - {id} - (part - {id}) == ids - part;
    }
  }

  ghost function PaidIds(h: Server): (ids: set<ReservationId>)
    ensures ids <= Ledger(h).reservations.Keys
  {
    set id | id in Ledger(h).reservations && Paid(h, id)
  }

  ghost function EscapedIds(h: Server): (ids: set<ReservationId>)
    ensures ids <= PaidIds(h)
  {
    set id | id in Ledger(h).reservations && Escaped(h, id)
  }

  /** What has been recorded as paid against an allowance, each of its reservations counted once. */
  ghost function PaidTotal(h: Server, a: Address): int {
    Amounts(Ledger(h).reservations, PaidIds(h), a)
  }

  ghost function EscapedTotal(h: Server, a: Address): int {
    Amounts(Ledger(h).reservations, EscapedIds(h), a)
  }

  /**
    In every run, what has been recorded as paid exceeds an allowance's maximum by at most what has
    escaped: the rest is charged or held.
   */
  lemma PaidAccount(events: seq<Event>, a: Address)
    requires a in Ledger(Exec(events)).allowances
    ensures var h := Exec(events); var row := Ledger(h).allowances[a];
      PaidTotal(h, a) - EscapedTotal(h, a) <= row.spentAtomic + row.reservedAtomic <= row.maxAtomic
  {
    var h := Exec(events);
    var s := Ledger(h);
    ExecGood(events);
    AmountsSplit(s.reservations, PaidIds(h), EscapedIds(h), a);
    AmountsWithin(s.reservations, PaidIds(h) - EscapedIds(h), a);
    assert RowConserved(s, a) && AmountsOk(s.allowances[a]);
  }

  /**
    In a run that stores no record against a released reservation and releases no reservation whose
    payload has a record, everything recorded as paid stays within the maximum.
   */
  lemma PaidWithinBudget(events: seq<Event>, a: Address)
    requires a in Ledger(Exec(events)).allowances
    requires forall k, id :: 0 <= k < |events| ==> !EscapesAt(events, k, id)
    ensures PaidTotal(Exec(events), a) <= Ledger(Exec(events)).allowances[a].maxAtomic
  {
    forall id ensures !Escaped(Exec(events), id) {
      EscapedExactly(events, id);
    }
    assert EscapedIds(Exec(events)) == {};
    PaidAccount(events, a);
  }
}
