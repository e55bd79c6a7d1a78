/**
  The agent-budget spend ledger as a state and its atomic operations: allowances,
  reservations against them, and what each committed transaction does to both tables.
  Every amount is an atomic token unit; every instant is a number on one clock.
 */
module BudgetLedger {
  import opened Outcomes
  import opened Sequences

  type Address = string
  type ReservationId = string

  datatype AllowanceStatus =
    Pending | Active | Exhausted | Expired | RevocationPending | Revoked | Unknown | Failed

  datatype Allowance = Allowance(
    owner: string,
    maxAtomic: int,
    perRequestAtomic: int,
    spentAtomic: int,
    reservedAtomic: int,
    expiresAt: int,
    status: AllowanceStatus,
    revokedAt: Option<int>,
    revocationSignature: Option<string>)

  datatype ReservationStatus = Reserved | Consumed | Released

  datatype Reservation = Reservation(
    allowance: Address,
    paymentKey: string,
    amountAtomic: int,
    status: ReservationStatus,
    expiresAt: int)

  datatype State = State(
    allowances: map<Address, Allowance>,
    reservations: map<ReservationId, Reservation>)

  const EMPTY := State(map[], map[])

  /** Amounts are stored as numeric(20, 0). */
  const NUMERIC_LIMIT: int := 100_000_000_000_000_000_000

  /** Rows one sweep of expired reservations may release. */
  const SWEEP_LIMIT: nat := 500

  // ---------------------------------------------------------------- operations

  datatype SpendRequest = SpendRequest(
    reservationId: ReservationId,
    allowance: Address,
    paymentKey: string,
    amountAtomic: int,
    expiresAt: int)

  datatype AllowanceRecord = AllowanceRecord(
    owner: string,
    maxAtomic: int,
    perRequestAtomic: Option<int>,
    expiresAt: int,
    revokedAt: Option<int>,
    revocationSignature: Option<string>,
    status: Option<AllowanceStatus>)

  datatype ReserveError =
    | ReservationInvalid
    | AllowanceNotFound
    | ReservationReplayed
    | AllowanceNotActive
    | AllowanceExpired
    | PerRequestExceeded
    | AggregateExceeded

  /** One committed transaction. A reserve reads the clock twice: on entry and under the row lock. */
  datatype Operation =
    | Save(address: Address, record: AllowanceRecord)
    | Delete(owner: string, address: Address)
    | Reserve(request: SpendRequest, calledAt: int, checkedAt: int)
    | Finish(id: ReservationId, consumed: bool)
    | Cleanup(ids: seq<ReservationId>, now: int)
    | BeginRevocation(owner: string, address: Address)
    | Revoke(owner: string, address: Address, now: int, signature: Option<string>)
    | Observe(address: Address, status: AllowanceStatus)

  predicate KeyTaken(s: State, key: string) {
    exists id :: id in s.reservations && s.reservations[id].paymentKey == key
  }

  /** The checks a reserve makes on the allowance row it has locked. */
  function RowRefusal(row: Allowance, amount: int, checkedAt: int): Option<ReserveError> {
    if row.status != Active then Some(AllowanceNotActive)
    else if row.expiresAt <= checkedAt then Some(AllowanceExpired)
    else if amount > row.perRequestAtomic then Some(PerRequestExceeded)
    else if row.spentAtomic + row.reservedAtomic + amount > row.maxAtomic then Some(AggregateExceeded)
    else None
  }

  predicate RequestInvalid(request: SpendRequest, calledAt: int) {
    request.amountAtomic <= 0 || request.expiresAt <= calledAt
  }

  function ReserveRefusal(s: State, request: SpendRequest, calledAt: int, checkedAt: int): Option<ReserveError> {
    if RequestInvalid(request, calledAt) then Some(ReservationInvalid)
    else if request.allowance !in s.allowances then Some(AllowanceNotFound)
    else if KeyTaken(s, request.paymentKey) then Some(ReservationReplayed)
    else
      var refusal := RowRefusal(s.allowances[request.allowance], request.amountAtomic, checkedAt);
      if refusal.Some? then refusal
      else if request.reservationId in s.reservations then Some(ReservationReplayed)
      else None
  }

  function Charge(row: Allowance, amount: int): Allowance {
    row.(reservedAtomic := row.reservedAtomic + amount)
  }

  function NewReservation(request: SpendRequest): Reservation {
    Reservation(request.allowance, request.paymentKey, request.amountAtomic, Reserved, request.expiresAt)
  }

  function ReserveState(s: State, request: SpendRequest, calledAt: int, checkedAt: int): State {
    if ReserveRefusal(s, request, calledAt, checkedAt).Some? then s
    else
      State(
        s.allowances[request.allowance := Charge(s.allowances[request.allowance], request.amountAtomic)],
        s.reservations[request.reservationId := NewReservation(request)])
  }

  /** What consuming or releasing one reservation does to its allowance row. */
  function Settle(row: Allowance, amount: int, consumed: bool): Allowance {
    row.(
      reservedAtomic := row.reservedAtomic - amount,
      spentAtomic := row.spentAtomic + (if consumed then amount else 0),
      status := if consumed && row.spentAtomic + amount == row.maxAtomic then Exhausted else row.status)
  }

  predicate Finishable(s: State, id: ReservationId) {
    id in s.reservations && s.reservations[id].status == Reserved
  }

  function Outcome(consumed: bool): ReservationStatus {
    if consumed then Consumed else Released
  }

  function FinishState(s: State, id: ReservationId, consumed: bool): State {
    if !Finishable(s, id) then s
    else
      var r := s.reservations[id];
      State(
        if r.allowance in s.allowances
        then s.allowances[r.allowance := Settle(s.allowances[r.allowance], r.amountAtomic, consumed)]
        else s.allowances,
        s.reservations[id := r.(status := Outcome(consumed))])
  }

  /** Sum of the listed reservations that are held against allowance a. */
  function Owed(reservations: map<ReservationId, Reservation>, ids: seq<ReservationId>, a: Address): int
    requires forall id :: id in ids ==> id in reservations
  {
    if ids == [] then 0
    else
      var last := reservations[ids[|ids| - 1]];
      Owed(reservations, ids[..|ids| - 1], a) + (if last.allowance == a then last.amountAtomic else 0)
  }

  predicate HeldPast(s: State, id: ReservationId, now: int) {
    Finishable(s, id) && s.reservations[id].expiresAt <= now
  }

  /** A set of rows one sweep may release: distinct, still held, past their expiry, at most the limit. */
  predicate Sweepable(s: State, ids: seq<ReservationId>, now: int) {
    && |ids| <= SWEEP_LIMIT
    && Distinct(ids)
    && forall id :: id in ids ==> HeldPast(s, id, now)
  }

  function Lower(row: Allowance, amount: int): Allowance {
    row.(reservedAtomic := row.reservedAtomic - amount)
  }

  function MarkReleased(reservations: map<ReservationId, Reservation>, ids: seq<ReservationId>)
    : map<ReservationId, Reservation>
  {
    map id | id in reservations ::
      if id in ids then reservations[id].(status := Released) else reservations[id]
  }

  function CleanupState(s: State, ids: seq<ReservationId>, now: int): State {
    if !Sweepable(s, ids, now) then s
    else
      State(
        map a | a in s.allowances :: Lower(s.allowances[a], Owed(s.reservations, ids, a)),
        MarkReleased(s.reservations, ids))
  }

  /** The table's amounts constraint, with the numeric width of its columns. */
  predicate AmountsOk(row: Allowance) {
    && 0 < row.perRequestAtomic <= row.maxAtomic < NUMERIC_LIMIT
    && 0 <= row.spentAtomic
    && 0 <= row.reservedAtomic
    && row.spentAtomic + row.reservedAtomic <= row.maxAtomic
  }

  function SavedRow(s: State, address: Address, record: AllowanceRecord): Allowance {
    var spent := if address in s.allowances then s.allowances[address].spentAtomic else 0;
    var reserved := if address in s.allowances then s.allowances[address].reservedAtomic else 0;
    Allowance(
      record.owner,
      record.maxAtomic,
      if record.perRequestAtomic.Some? then record.perRequestAtomic.value else record.maxAtomic,
      spent,
      reserved,
      record.expiresAt,
      if record.status.Some? then record.status.value else Active,
      record.revokedAt,
      record.revocationSignature)
  }

  /** An upsert: another owner's row is left alone, and a row that breaks the constraint is refused. */
  function SaveState(s: State, address: Address, record: AllowanceRecord): State {
    if address in s.allowances && s.allowances[address].owner != record.owner then s
    else if !AmountsOk(SavedRow(s, address, record)) then s
    else s.(allowances := s.allowances[address := SavedRow(s, address, record)])
  }

  /** Deleting an allowance deletes its reservations with it. */
  function DeleteState(s: State, owner: string, address: Address): State {
    if address !in s.allowances || s.allowances[address].owner != owner then s
    else
      State(
        s.allowances - {address},
        map id | id in s.reservations && s.reservations[id].allowance != address :: s.reservations[id])
  }

  function Coalesce(first: Option<string>, second: Option<string>): Option<string> {
    if first.Some? then first else second
  }

  /** The single-statement status updates, as a function of the one row they may touch. */
  function UpdatedRow(op: Operation, row: Allowance): Allowance
    requires op.BeginRevocation? || op.Revoke? || op.Observe?
  {
    match op
    case BeginRevocation(owner, _) =>
      if row.owner == owner && row.status == Active then row.(status := RevocationPending) else row
    case Revoke(owner, _, now, signature) =>
      if row.owner == owner && row.revokedAt.None?
      then row.(
        revokedAt := Some(now), status := Revoked,
        revocationSignature := Coalesce(signature, row.revocationSignature))
      else row
    case Observe(_, status) =>
      if (row.status == Active && status in {Unknown, Failed}) || (row.status == Unknown && status in {Active, Failed})
      then row.(status := status)
      else row
  }

  function UpdateState(s: State, op: Operation): State
    requires op.BeginRevocation? || op.Revoke? || op.Observe?
  {
    if op.address !in s.allowances then s
    else s.(allowances := s.allowances[op.address := UpdatedRow(op, s.allowances[op.address])])
  }

  function Apply(s: State, op: Operation): State {
    match op
    case Save(address, record) => SaveState(s, address, record)
    case Delete(owner, address) => DeleteState(s, owner, address)
    case Reserve(request, calledAt, checkedAt) => ReserveState(s, request, calledAt, checkedAt)
    case Finish(id, consumed) => FinishState(s, id, consumed)
    case Cleanup(ids, now) => CleanupState(s, ids, now)
    case BeginRevocation(_, _) => UpdateState(s, op)
    case Revoke(_, _, _, _) => UpdateState(s, op)
    case Observe(_, _) => UpdateState(s, op)
  }

  /** The state after a whole history of committed transactions, oldest first. */
  function Run(s: State, ops: seq<Operation>): State {
    if ops == [] then s else Apply(Run(s, ops[..|ops| - 1]), ops[|ops| - 1])
  }

  predicate Accepted(s: State, op: Operation) {
    op.Reserve? && ReserveRefusal(s, op.request, op.calledAt, op.checkedAt).None?
  }
}
