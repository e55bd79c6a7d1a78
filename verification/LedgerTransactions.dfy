/**
  The ledger at the level of locks: overlapping transactions that lock rows, read, check, write
  privately and commit or abort one micro-step at a time. Row locks are kept to the end of the
  transaction, a plain read sees the last committed rows, and an insert waits for any uncommitted
  insert of the same key. Every interleaving, with aborts anywhere, is shown to commit exactly what
  the atomic ledger does for the committed transactions in commit order.
 */
module LedgerTransactions {
  import opened Sequences
  import opened BudgetLedger
  import opened LedgerInvariants

  datatype Row = AllowanceRow(address: Address) | ReservationRow(id: ReservationId)

  datatype Call =
    | ReserveCall(request: SpendRequest, calledAt: int, checkedAt: int)
    | FinishCall(id: ReservationId, consumed: bool)
    | CleanupCall(now: int)
    | UpdateCall(update: Operation)
    | SaveCall(address: Address, record: AllowanceRecord)
    | DeleteCall(owner: string, address: Address)

  /** How far a transaction has come, with what it has read so far. */
  datatype Phase =
    | Begun
    | RowRead(row: Allowance)                                         // reserve: row locked
    | KeyChecked(row: Allowance)                                      // reserve: no such payment key
    | Charged                                                         // reserve: allowance updated
    | HoldRead(hold: Reservation)                                     // finish: reservation locked
    | Settled(hold: Reservation)                                      // finish: allowance updated
    | Locking(todo: seq<ReservationId>, rows: seq<ReservationId>)     // sweep: locking its rows
    | Lowering(rows: seq<ReservationId>, done: nat)                   // sweep: updating allowances
    | Cascading                                                       // delete: deleting the reservations
    | Ready(op: Operation)                                            // all written; may commit

  /**
    An open transaction: the locks it holds, the rows it has written and the rows it has deleted, all
    uncommitted. The lock on an absent allowance is the claim of an uncommitted insert of its key.
   */
  datatype Txn = Txn(
    call: Call,
    phase: Phase,
    held: set<Row>,
    allowances: map<Address, Allowance>,
    reservations: map<ReservationId, Reservation>,
    goneAllowances: set<Address>,
    goneReservations: set<ReservationId>)

  /** Committed tables, open transactions, and the operations committed so far in commit order. */
  datatype Machine = Machine(db: State, txns: map<nat, Txn>, log: seq<Operation>)

  datatype Event =
    | Begin(t: nat, call: Call)
    | Select(t: nat, ids: seq<ReservationId>)
    | Cascade(t: nat, id: ReservationId)
    | Advance(t: nat)
    | Commit(t: nat)
    | Abort(t: nat)

  datatype Progress = Wait | Rollback | Next(txn: Txn)

  predicate Callable(call: Call) {
    match call
    case ReserveCall(request, calledAt, _) => !RequestInvalid(request, calledAt)
    case UpdateCall(op) => op.BeginRevocation? || op.Revoke? || op.Observe?
    case _ => true
  }

  predicate Free(m: Machine, t: nat, row: Row) {
    forall u :: u in m.txns && u != t ==> row !in m.txns[u].held
  }

  predicate InsertPending(m: Machine, t: nat, request: SpendRequest) {
    exists u :: u in m.txns && u != t &&
      exists id :: id in m.txns[u].reservations &&
        (id == request.reservationId || m.txns[u].reservations[id].paymentKey == request.paymentKey)
  }

  function AdvanceReserve(m: Machine, t: nat, x: Txn): Progress
    requires x.call.ReserveCall?
  {
    var ReserveCall(q, calledAt, checkedAt) := x.call;
    var a := q.allowance;
    match x.phase
    case Begun =>
      if a !in m.db.allowances then Rollback
      else if !Free(m, t, AllowanceRow(a)) then Wait
      else Next(x.(phase := RowRead(m.db.allowances[a]), held := x.held + {AllowanceRow(a)}))
    case RowRead(row) =>
      if KeyTaken(m.db, q.paymentKey) then Rollback else Next(x.(phase := KeyChecked(row)))
    case KeyChecked(row) =>
      if RowRefusal(row, q.amountAtomic, checkedAt).Some? || a !in m.db.allowances then Rollback
      else Next(x.(phase := Charged, allowances := map[a := Charge(m.db.allowances[a], q.amountAtomic)]))
    case Charged =>
      if KeyTaken(m.db, q.paymentKey) || q.reservationId in m.db.reservations then Rollback
      else if InsertPending(m, t, q) then Wait
      else Next(x.(phase := Ready(Reserve(q, calledAt, checkedAt)),
                   reservations := map[q.reservationId := NewReservation(q)]))
    case _ => Wait
  }

  function AdvanceFinish(m: Machine, t: nat, x: Txn): Progress
    requires x.call.FinishCall?
  {
    var FinishCall(id, consumed) := x.call;
    match x.phase
    case Begun =>
      if id !in m.db.reservations then Rollback
      else if !Free(m, t, ReservationRow(id)) then Wait
      else if m.db.reservations[id].status != Reserved then Rollback
      else Next(x.(phase := HoldRead(m.db.reservations[id]), held := x.held + {ReservationRow(id)}))
    case HoldRead(hold) =>
      var a := hold.allowance;
      if a !in m.db.allowances then Next(x.(phase := Settled(hold)))
      else if !Free(m, t, AllowanceRow(a)) then Wait
      else Next(x.(phase := Settled(hold), held := x.held + {AllowanceRow(a)},
                   allowances := map[a := Settle(m.db.allowances[a], hold.amountAtomic, consumed)]))
    case Settled(hold) =>
      Next(x.(phase := Ready(Finish(id, consumed)), reservations := map[id := hold.(status := Outcome(consumed))]))
    case _ => Wait
  }

  function AdvanceCleanup(m: Machine, t: nat, x: Txn): Progress
    requires x.call.CleanupCall?
  {
    var now := x.call.now;
    match x.phase
    case Locking(todo, rows) =>
      if todo == [] then Next(x.(phase := Lowering(rows, 0)))
      else if !Free(m, t, ReservationRow(todo[0])) then Wait
      else if HeldPast(m.db, todo[0], now) then
        Next(x.(phase := Locking(todo[1..], rows + [todo[0]]), held := x.held + {ReservationRow(todo[0])}))
      else Next(x.(phase := Locking(todo[1..], rows)))
    case Lowering(rows, done) =>
      if done < |rows| then
        if rows[done] !in m.db.reservations then Rollback
        else
          var hold := m.db.reservations[rows[done]];
          var a := hold.allowance;
          if a !in m.db.allowances then Next(x.(phase := Lowering(rows, done + 1)))
          else if !Free(m, t, AllowanceRow(a)) then Wait
          else
            var row := if a in x.allowances then x.allowances[a] else m.db.allowances[a];
            Next(x.(phase := Lowering(rows, done + 1), held := x.held + {AllowanceRow(a)},
                    allowances := x.allowances[a := Lower(row, hold.amountAtomic)]))
      else
        Next(x.(phase := Ready(Cleanup(rows, now)), reservations := Released(m.db, rows)))
    case _ => Wait
  }

  function Released(db: State, rows: seq<ReservationId>): map<ReservationId, Reservation> {
    map id | id in rows && id in db.reservations :: db.reservations[id].(status := ReservationStatus.Released)
  }

  function AdvanceUpdate(m: Machine, t: nat, x: Txn): Progress
    requires x.call.UpdateCall? && Callable(x.call)
  {
    var op := x.call.update;
    var a := op.address;
    match x.phase
    case Begun =>
      if a !in m.db.allowances then Rollback
      else if !Free(m, t, AllowanceRow(a)) then Wait
      else if UpdatedRow(op, m.db.allowances[a]) == m.db.allowances[a] then Rollback
      else Next(x.(phase := Ready(op), held := x.held + {AllowanceRow(a)},
                   allowances := map[a := UpdatedRow(op, m.db.allowances[a])]))
    case _ => Wait
  }

  /** The upsert takes effect: the row is absent or the owner's own, and the amounts fit. */
  predicate Savable(db: State, a: Address, record: AllowanceRecord) {
    && (a in db.allowances ==> db.allowances[a].owner == record.owner)
    && AmountsOk(SavedRow(db, a, record))
  }

  function AdvanceSave(m: Machine, t: nat, x: Txn): Progress
    requires x.call.SaveCall?
  {
    var SaveCall(a, record) := x.call;
    match x.phase
    case Begun =>
      if !Free(m, t, AllowanceRow(a)) then Wait
      else if !Savable(m.db, a, record) then Rollback
      else Next(x.(phase := Ready(Save(a, record)), held := x.held + {AllowanceRow(a)},
                   allowances := map[a := SavedRow(m.db, a, record)]))
    case _ => Wait
  }

  predicate Owned(db: State, owner: string, a: Address) {
    a in db.allowances && db.allowances[a].owner == owner
  }

  function RowsOf(db: State, a: Address): set<ReservationId> {
    set id | id in db.reservations && db.reservations[id].allowance == a
  }

  function AdvanceDelete(m: Machine, t: nat, x: Txn): Progress
    requires x.call.DeleteCall?
  {
    var DeleteCall(owner, a) := x.call;
    match x.phase
    case Begun =>
      if !Owned(m.db, owner, a) then Rollback
      else if !Free(m, t, AllowanceRow(a)) then Wait
      else Next(x.(phase := Cascading, held := x.held + {AllowanceRow(a)}))
    case Cascading =>
      if RowsOf(m.db, a) <= x.goneReservations
      then Next(x.(phase := Ready(Delete(owner, a)), goneAllowances := {a}))
      else Wait
    case _ => Wait
  }

  /** The cascade locks and deletes one more reservation of the deleted allowance. */
  predicate MayCascade(m: Machine, t: nat, id: ReservationId) {
    && t in m.txns && m.txns[t].call.DeleteCall? && m.txns[t].phase.Cascading?
    && id in RowsOf(m.db, m.txns[t].call.address) && Free(m, t, ReservationRow(id))
  }

  function Cascaded(x: Txn, id: ReservationId): Txn {
    x.(held := x.held + {ReservationRow(id)}, goneReservations := x.goneReservations + {id})
  }

  function AdvanceTxn(m: Machine, t: nat, x: Txn): Progress {
    if !Callable(x.call) then Rollback
    else
      match x.call
      case ReserveCall(_, _, _) => AdvanceReserve(m, t, x)
      case FinishCall(_, _) => AdvanceFinish(m, t, x)
      case CleanupCall(_) => AdvanceCleanup(m, t, x)
      case UpdateCall(_) => AdvanceUpdate(m, t, x)
      case SaveCall(_, _) => AdvanceSave(m, t, x)
      case DeleteCall(_, _) => AdvanceDelete(m, t, x)
  }

  function AfterCommit(db: State, x: Txn): State {
    State(db.allowances + x.allowances - x.goneAllowances, db.reservations + x.reservations - x.goneReservations)
  }

  /** One micro-step. An event that is not enabled changes nothing. */
  function Step(m: Machine, e: Event): Machine {
    match e
    case Begin(t, call) =>
      if t in m.txns || !Callable(call) then m
      else m.(txns := m.txns[t := Txn(call, Begun, {}, map[], map[], {}, {})])
    case Select(t, ids) =>
      if t in m.txns && m.txns[t].call.CleanupCall? && m.txns[t].phase.Begun?
         && Sweepable(m.db, ids, m.txns[t].call.now)
      then m.(txns := m.txns[t := m.txns[t].(phase := Locking(ids, []))])
      else m
    case Cascade(t, id) =>
      if MayCascade(m, t, id) then m.(txns := m.txns[t := Cascaded(m.txns[t], id)]) else m
    case Advance(t) =>
      if t !in m.txns then m
      else (
        match AdvanceTxn(m, t, m.txns[t])
        case Wait => m
        case Rollback => m.(txns := m.txns - {t})
        case Next(x) => m.(txns := m.txns[t := x]))
    case Commit(t) =>
      if t in m.txns && m.txns[t].phase.Ready?
      then Machine(AfterCommit(m.db, m.txns[t]), m.txns - {t}, m.log + [m.txns[t].phase.op])
      else m
    case Abort(t) => m.(txns := m.txns - {t})
  }

  function Exec(s0: State, events: seq<Event>): Machine {
    if events == [] then Machine(s0, map[], [])
    else Step(Exec(s0, events[..|events| - 1]), events[|events| - 1])
  }

  // ---------------------------------------------------------------- what an open transaction knows

  predicate Blank(x: Txn) {
    x.allowances == map[] && x.reservations == map[]
  }

  predicate NothingGone(x: Txn) {
    x.goneAllowances == {} && x.goneReservations == {}
  }

  /** A reservation row that is locked is a committed row. */
  ghost predicate HeldExist(db: State, x: Txn) {
    forall id :: ReservationRow(id) in x.held ==> id in db.reservations
  }

  predicate RowLocked(db: State, x: Txn, a: Address, row: Allowance) {
    AllowanceRow(a) in x.held && a in db.allowances && db.allowances[a] == row
  }

  predicate Admitted(db: State, x: Txn, q: SpendRequest, checkedAt: int) {
    && AllowanceRow(q.allowance) in x.held && q.allowance in db.allowances
    && RowRefusal(db.allowances[q.allowance], q.amountAtomic, checkedAt).None?
    && x.allowances == map[q.allowance := Charge(db.allowances[q.allowance], q.amountAtomic)]
  }

  predicate ReserveOk(db: State, x: Txn)
    requires x.call.ReserveCall?
  {
    var ReserveCall(q, calledAt, checkedAt) := x.call;
    match x.phase
    case Begun => Blank(x)
    case RowRead(row) => Blank(x) && RowLocked(db, x, q.allowance, row)
    case KeyChecked(row) => Blank(x) && RowLocked(db, x, q.allowance, row)
    case Charged => Admitted(db, x, q, checkedAt) && x.reservations == map[]
    case Ready(op) =>
      && op == Reserve(q, calledAt, checkedAt)
      && Admitted(db, x, q, checkedAt)
      && x.reservations == map[q.reservationId := NewReservation(q)]
      && q.reservationId !in db.reservations && !KeyTaken(db, q.paymentKey)
    case _ => false
  }

  predicate HoldLocked(db: State, x: Txn, id: ReservationId, hold: Reservation) {
    && ReservationRow(id) in x.held && id in db.reservations
    && db.reservations[id] == hold && hold.status == Reserved
  }

  predicate AllowanceSettled(db: State, x: Txn, hold: Reservation, consumed: bool) {
    && AllowanceRow(hold.allowance) in x.held && hold.allowance in db.allowances
    && x.allowances == map[hold.allowance := Settle(db.allowances[hold.allowance], hold.amountAtomic, consumed)]
  }

  predicate FinishOk(db: State, x: Txn)
    requires x.call.FinishCall?
  {
    var FinishCall(id, consumed) := x.call;
    match x.phase
    case Begun => Blank(x)
    case HoldRead(hold) => Blank(x) && HoldLocked(db, x, id, hold)
    case Settled(hold) =>
      HoldLocked(db, x, id, hold) && AllowanceSettled(db, x, hold, consumed) && x.reservations == map[]
    case Ready(op) =>
      && op == Finish(id, consumed) && id in db.reservations
      && var hold := db.reservations[id];
         && HoldLocked(db, x, id, hold) && AllowanceSettled(db, x, hold, consumed)
         && x.reservations == map[id := hold.(status := Outcome(consumed))]
    case _ => false
  }

  predicate RowsLocked(db: State, x: Txn, rows: seq<ReservationId>, now: int) {
    && Distinct(rows)
    && forall id :: id in rows ==> ReservationRow(id) in x.held && HeldPast(db, id, now)
  }

  /** The allowances of the first rows have been lowered by exactly what those rows hold against them. */
  predicate Lowered(db: State, x: Txn, rows: seq<ReservationId>)
    requires forall id :: id in rows ==> id in db.reservations
  {
    && (forall a :: a in x.allowances ==>
          && AllowanceRow(a) in x.held && a in db.allowances
          && x.allowances[a] == Lower(db.allowances[a], Owed(db.reservations, rows, a)))
    && (forall id :: id in rows ==> db.reservations[id].allowance in x.allowances)
  }

  predicate CleanupOk(db: State, x: Txn)
    requires x.call.CleanupCall?
  {
    var now := x.call.now;
    match x.phase
    case Begun => Blank(x)
    case Locking(todo, rows) =>
      && Blank(x) && RowsLocked(db, x, rows, now)
      && Distinct(rows + todo) && |rows + todo| <= SWEEP_LIMIT
    case Lowering(rows, done) =>
      && done <= |rows| <= SWEEP_LIMIT && RowsLocked(db, x, rows, now)
      && (forall id :: id in rows[..done] ==> id in db.reservations)
      && Lowered(db, x, rows[..done]) && x.reservations == map[]
    case Ready(op) =>
      && op.Cleanup? && op.now == now && |op.ids| <= SWEEP_LIMIT
      && RowsLocked(db, x, op.ids, now) && Lowered(db, x, op.ids)
      && x.reservations == Released(db, op.ids)
    case _ => false
  }

  predicate UpdateOk(db: State, x: Txn)
    requires x.call.UpdateCall? && Callable(x.call)
  {
    var op := x.call.update;
    match x.phase
    case Begun => Blank(x)
    case Ready(done) =>
      && done == op && AllowanceRow(op.address) in x.held && op.address in db.allowances
      && UpdatedRow(op, db.allowances[op.address]) != db.allowances[op.address]
      && x.allowances == map[op.address := UpdatedRow(op, db.allowances[op.address])]
      && x.reservations == map[]
    case _ => false
  }

  predicate SaveOk(db: State, x: Txn)
    requires x.call.SaveCall?
  {
    var SaveCall(a, record) := x.call;
    match x.phase
    case Begun => Blank(x)
    case Ready(op) =>
      && op == Save(a, record) && AllowanceRow(a) in x.held && Savable(db, a, record)
      && x.allowances == map[a := SavedRow(db, a, record)]
      && x.reservations == map[]
    case _ => false
  }

  predicate GoneLocked(db: State, x: Txn, a: Address) {
    x.goneReservations <= RowsOf(db, a) && forall id :: id in x.goneReservations ==> ReservationRow(id) in x.held
  }

  predicate DeleteOk(db: State, x: Txn)
    requires x.call.DeleteCall?
  {
    var DeleteCall(owner, a) := x.call;
    match x.phase
    case Begun => Blank(x) && NothingGone(x)
    case Cascading =>
      && Blank(x) && AllowanceRow(a) in x.held && Owned(db, owner, a)
      && GoneLocked(db, x, a) && x.goneAllowances == {}
    case Ready(op) =>
      && op == Delete(owner, a)
      && Blank(x) && AllowanceRow(a) in x.held && Owned(db, owner, a)
      && GoneLocked(db, x, a) && x.goneReservations == RowsOf(db, a) && x.goneAllowances == {a}
    case _ => false
  }

  ghost predicate TxnOk(db: State, x: Txn) {
    && Callable(x.call) && HeldExist(db, x) && (x.call.DeleteCall? || NothingGone(x))
    && match x.call
       case ReserveCall(_, _, _) => ReserveOk(db, x)
       case FinishCall(_, _) => FinishOk(db, x)
       case CleanupCall(_) => CleanupOk(db, x)
       case UpdateCall(_) => UpdateOk(db, x)
       case SaveCall(_, _) => SaveOk(db, x)
       case DeleteCall(_, _) => DeleteOk(db, x)
  }

  predicate Inserting(x: Txn) {
    x.call.ReserveCall? && x.phase.Ready?
  }

  /** Two open transactions never hold the same row, nor insert the same id or payment key. */
  predicate Apart(x: Txn, y: Txn) {
    && x.held !! y.held
    && (Inserting(x) && Inserting(y) ==>
          && x.call.request.reservationId != y.call.request.reservationId
          && x.call.request.paymentKey != y.call.request.paymentKey)
  }

  ghost predicate Good(s0: State, m: Machine) {
    && m.db == Run(s0, m.log) && RowsBacked(m.db)
    && (forall t :: t in m.txns ==> TxnOk(m.db, m.txns[t]))
    && (forall t, u :: t in m.txns && u in m.txns && t != u ==> Apart(m.txns[t], m.txns[u]))
  }

  // ---------------------------------------------------------------- what a commit changes

  lemma {:induction false} OwedSame(
    r1: map<ReservationId, Reservation>, r2: map<ReservationId, Reservation>, ids: seq<ReservationId>, a: Address)
    requires forall id :: id in ids ==> id in r1 && id in r2 && r1[id] == r2[id]
    ensures Owed(r1, ids, a) == Owed(r2, ids, a)
  {
    if ids != [] {
      OwedSame(r1, r2, ids[..|ids| - 1], a);
    }
  }

  lemma {:induction false} OwedUntouched(rows: map<ReservationId, Reservation>, ids: seq<ReservationId>, a: Address)
    requires forall id :: id in ids ==> id in rows && rows[id].allowance != a
    ensures Owed(rows, ids, a) == 0
  {
    if ids != [] {
      OwedUntouched(rows, ids[..|ids| - 1], a);
    }
  }

  /** A commit changes only allowances its transaction holds. */
  lemma CommitTouches(db: State, y: Txn)
    requires TxnOk(db, y) && y.phase.Ready?
    ensures forall a :: a in y.allowances || a in y.goneAllowances ==> AllowanceRow(a) in y.held
    ensures forall id :: id in y.goneReservations ==> ReservationRow(id) in y.held
  {
  }

  /** It changes only reservations it holds, and inserts at most one fresh one, against an allowance it holds. */
  lemma CommitWrites(db: State, y: Txn)
    requires TxnOk(db, y) && y.phase.Ready?
    ensures forall id :: id in y.reservations ==>
      if id in db.reservations
      then
        && ReservationRow(id) in y.held
        && y.reservations[id].paymentKey == db.reservations[id].paymentKey
        && y.reservations[id].allowance == db.reservations[id].allowance
      else
        && Inserting(y) && id == y.call.request.reservationId
        && y.reservations[id].paymentKey == y.call.request.paymentKey
        && AllowanceRow(y.reservations[id].allowance) in y.held
  {
  }

  lemma SweptAllowances(db: State, y: Txn, ids: seq<ReservationId>)
    requires forall id :: id in ids ==> id in db.reservations
    requires Lowered(db, y, ids)
    ensures db.allowances + y.allowances - {}
         == map a | a in db.allowances :: Lower(db.allowances[a], Owed(db.reservations, ids, a))
  {
    forall a | a in db.allowances && a !in y.allowances ensures Owed(db.reservations, ids, a) == 0 {
      OwedUntouched(db.reservations, ids, a);
    }
  }

  lemma SweepCommit(db: State, y: Txn)
    requires TxnOk(db, y) && y.phase.Ready? && y.call.CleanupCall?
    ensures Sweepable(db, y.phase.op.ids, y.phase.op.now)
    ensures AfterCommit(db, y) == Apply(db, y.phase.op)
  {
    var ids := y.phase.op.ids;
    assert NothingGone(y);
    SweptAllowances(db, y, ids);
    assert AfterCommit(db, y).reservations == MarkReleased(db.reservations, ids);
  }

  /** What the atomic ledger requires of an operation for it to take effect. */
  predicate Effective(s: State, op: Operation) {
    match op
    case Reserve(_, _, _) => Accepted(s, op)
    case Finish(id, _) => Finishable(s, id)
    case Cleanup(ids, now) => Sweepable(s, ids, now)
    case Save(a, record) => Savable(s, a, record)
    case Delete(owner, a) => Owned(s, owner, a)
    case _ => op.address in s.allowances && UpdatedRow(op, s.allowances[op.address]) != s.allowances[op.address]
  }

  lemma DeleteCommit(db: State, y: Txn)
    requires TxnOk(db, y) && y.phase.Ready? && y.call.DeleteCall?
    ensures AfterCommit(db, y) == Apply(db, y.phase.op)
  {
    var s, t := AfterCommit(db, y), DeleteState(db, y.call.owner, y.call.address);
    assert s.allowances == t.allowances;
    assert s.reservations == t.reservations;
  }

  lemma ReserveCommit(db: State, y: Txn)
    requires TxnOk(db, y) && y.phase.Ready? && y.call.ReserveCall?
    ensures AfterCommit(db, y) == Apply(db, y.phase.op) && Effective(db, y.phase.op)
  {
    var q := y.call.request;
    assert AfterCommit(db, y).allowances
        == db.allowances[q.allowance := Charge(db.allowances[q.allowance], q.amountAtomic)];
    assert AfterCommit(db, y).reservations == db.reservations[q.reservationId := NewReservation(q)];
  }

  lemma FinishCommit(db: State, y: Txn)
    requires TxnOk(db, y) && y.phase.Ready? && y.call.FinishCall?
    ensures AfterCommit(db, y) == Apply(db, y.phase.op) && Effective(db, y.phase.op)
  {
    var hold := db.reservations[y.call.id];
    assert AfterCommit(db, y).allowances == db.allowances[hold.allowance := y.allowances[hold.allowance]];
    assert AfterCommit(db, y).reservations == db.reservations[y.call.id := hold.(status := Outcome(y.call.consumed))];
  }

  lemma RowCommit(db: State, y: Txn)
    requires TxnOk(db, y) && y.phase.Ready? && (y.call.UpdateCall? || y.call.SaveCall?)
    ensures AfterCommit(db, y) == Apply(db, y.phase.op) && Effective(db, y.phase.op)
  {
    var a := y.phase.op.address;
    assert AfterCommit(db, y).allowances == db.allowances[a := y.allowances[a]];
    assert AfterCommit(db, y).reservations == db.reservations;
  }

  /** What a transaction has written when it is ready is what its atomic operation does at that moment. */
  lemma CommitIsAtomic(db: State, y: Txn)
    requires TxnOk(db, y) && y.phase.Ready?
    ensures AfterCommit(db, y) == Apply(db, y.phase.op)
    ensures Effective(db, y.phase.op)
  {
    match y.call
    case ReserveCall(_, _, _) => ReserveCommit(db, y);
    case FinishCall(_, _) => FinishCommit(db, y);
    case CleanupCall(_) => SweepCommit(db, y);
    case UpdateCall(_) => RowCommit(db, y);
    case SaveCall(_, _) => RowCommit(db, y);
    case DeleteCall(_, _) => DeleteCommit(db, y);
  }

  predicate SameAllowance(db: State, after: State, a: Address) {
    (a in db.allowances <==> a in after.allowances) && (a in db.allowances ==> after.allowances[a] == db.allowances[a])
  }

  predicate SameReservation(db: State, after: State, id: ReservationId) {
    id in db.reservations && id in after.reservations && after.reservations[id] == db.reservations[id]
  }

  /** The two states agree on every row the transaction holds. */
  ghost predicate SameHeld(db: State, after: State, x: Txn) {
    && (forall a :: AllowanceRow(a) in x.held ==> SameAllowance(db, after, a))
    && (forall id :: ReservationRow(id) in x.held ==> SameReservation(db, after, id))
  }

  lemma CommitKeepsHeld(db: State, y: Txn, x: Txn)
    requires TxnOk(db, y) && y.phase.Ready? && HeldExist(db, x) && x.held !! y.held
    ensures SameHeld(db, AfterCommit(db, y), x)
  {
    CommitTouches(db, y);
    CommitWrites(db, y);
    forall a | AllowanceRow(a) in x.held ensures SameAllowance(db, AfterCommit(db, y), a) {
      assert AllowanceRow(a) !in y.held;
    }
    forall id | ReservationRow(id) in x.held ensures SameReservation(db, AfterCommit(db, y), id) {
      assert ReservationRow(id) !in y.held;
    }
  }

  /** The rows of an allowance that is being deleted stay what they are. */
  lemma CommitKeepsRowsOf(db: State, y: Txn, a: Address)
    requires TxnOk(db, y) && y.phase.Ready? && AllowanceRow(a) !in y.held
    requires forall id :: id in RowsOf(db, a) ==> ReservationRow(id) !in y.held
    ensures RowsOf(AfterCommit(db, y), a) == RowsOf(db, a)
  {
    CommitTouches(db, y);
    CommitWrites(db, y);
    var after := AfterCommit(db, y);
    forall id ensures id in RowsOf(after, a) <==> id in RowsOf(db, a) {
    }
  }

  predicate InsertFresh(db: State, q: SpendRequest) {
    q.reservationId !in db.reservations && !KeyTaken(db, q.paymentKey)
  }

  lemma CommitKeepsFresh(db: State, y: Txn, q: SpendRequest)
    requires TxnOk(db, y) && y.phase.Ready? && InsertFresh(db, q)
    requires Inserting(y) ==>
      y.call.request.reservationId != q.reservationId && y.call.request.paymentKey != q.paymentKey
    ensures InsertFresh(AfterCommit(db, y), q)
  {
    CommitWrites(db, y);
    var after := AfterCommit(db, y);
    forall id | id in after.reservations
      ensures id != q.reservationId && after.reservations[id].paymentKey != q.paymentKey
    {
      assert id in db.reservations ==> db.reservations[id].paymentKey != q.paymentKey;
    }
  }

  lemma ReserveFrame(db: State, after: State, x: Txn)
    requires x.call.ReserveCall? && ReserveOk(db, x) && SameHeld(db, after, x)
    requires Inserting(x) ==> InsertFresh(after, x.call.request)
    ensures ReserveOk(after, x)
  {
    if !x.phase.Begun? {
      assert AllowanceRow(x.call.request.allowance) in x.held;
      assert SameAllowance(db, after, x.call.request.allowance);
    }
  }

  lemma FinishFrame(db: State, after: State, x: Txn)
    requires x.call.FinishCall? && FinishOk(db, x) && SameHeld(db, after, x)
    ensures FinishOk(after, x)
  {
    if !x.phase.Begun? {
      assert ReservationRow(x.call.id) in x.held;
      assert SameReservation(db, after, x.call.id);
    }
    forall a | AllowanceRow(a) in x.held ensures SameAllowance(db, after, a) {
    }
  }

  lemma UpdateFrame(db: State, after: State, x: Txn)
    requires x.call.UpdateCall? && Callable(x.call) && UpdateOk(db, x) && SameHeld(db, after, x)
    ensures UpdateOk(after, x)
  {
    if x.phase.Ready? {
      assert AllowanceRow(x.call.update.address) in x.held;
      assert SameAllowance(db, after, x.call.update.address);
    }
  }

  lemma SaveFrame(db: State, after: State, x: Txn)
    requires x.call.SaveCall? && SaveOk(db, x) && SameHeld(db, after, x)
    ensures SaveOk(after, x)
  {
    if x.phase.Ready? {
      assert AllowanceRow(x.call.address) in x.held;
      assert SameAllowance(db, after, x.call.address);
    }
  }

  lemma DeleteFrame(db: State, after: State, x: Txn)
    requires x.call.DeleteCall? && DeleteOk(db, x) && SameHeld(db, after, x)
    requires x.phase.Ready? ==> RowsOf(after, x.call.address) == RowsOf(db, x.call.address)
    ensures DeleteOk(after, x)
  {
    if !x.phase.Begun? {
      assert AllowanceRow(x.call.address) in x.held;
      assert SameAllowance(db, after, x.call.address);
      forall id | id in x.goneReservations ensures id in RowsOf(after, x.call.address) {
        assert ReservationRow(id) in x.held && SameReservation(db, after, id);
      }
    }
  }

  /** Another transaction's commit changes nothing that this one has read, locked or claimed. */
  lemma CommitFrame(db: State, y: Txn, x: Txn)
    requires TxnOk(db, y) && y.phase.Ready? && TxnOk(db, x) && Apart(x, y)
    ensures TxnOk(AfterCommit(db, y), x)
  {
    var after := AfterCommit(db, y);
    CommitKeepsHeld(db, y, x);
    if Inserting(x) {
      CommitKeepsFresh(db, y, x.call.request);
    }
    if x.call.DeleteCall? && x.phase.Ready? {
      CommitKeepsRowsOf(db, y, x.call.address);
    }
    FrameOk(db, after, x);
  }

  lemma FrameOk(db: State, after: State, x: Txn)
    requires TxnOk(db, x) && SameHeld(db, after, x)
    requires Inserting(x) ==> InsertFresh(after, x.call.request)
    requires x.call.DeleteCall? && x.phase.Ready? ==> RowsOf(after, x.call.address) == RowsOf(db, x.call.address)
    ensures TxnOk(after, x)
  {
    assert HeldExist(after, x) by {
      forall id | ReservationRow(id) in x.held ensures id in after.reservations {
        assert SameReservation(db, after, id);
      }
    }
    match x.call
    case ReserveCall(_, _, _) => ReserveFrame(db, after, x);
    case FinishCall(_, _) => FinishFrame(db, after, x);
    case CleanupCall(_) => CleanupFrame(db, after, x);
    case UpdateCall(_) => UpdateFrame(db, after, x);
    case SaveCall(_, _) => SaveFrame(db, after, x);
    case DeleteCall(_, _) => DeleteFrame(db, after, x);
  }

  lemma LoweredFrame(db: State, after: State, x: Txn, rows: seq<ReservationId>)
    requires SameHeld(db, after, x)
    requires forall id :: id in rows ==>
      ReservationRow(id) in x.held && id in db.reservations && id in after.reservations
    requires Lowered(db, x, rows)
    ensures Lowered(after, x, rows)
  {
    assert forall id :: id in rows ==> ReservationRow(id) in x.held && SameReservation(db, after, id);
    forall a | a in x.allowances
      ensures AllowanceRow(a) in x.held && SameAllowance(db, after, a)
      ensures Owed(db.reservations, rows, a) == Owed(after.reservations, rows, a)
    {
      OwedSame(db.reservations, after.reservations, rows, a);
    }
  }

  lemma RowsLockedFrame(db: State, after: State, x: Txn, rows: seq<ReservationId>, now: int)
    requires SameHeld(db, after, x) && RowsLocked(db, x, rows, now)
    ensures RowsLocked(after, x, rows, now) && Released(after, rows) == Released(db, rows)
    ensures forall id :: id in rows ==>
      ReservationRow(id) in x.held && id in db.reservations && id in after.reservations
  {
    assert forall id :: id in rows ==>
      ReservationRow(id) in x.held && HeldPast(db, id, now) && SameReservation(db, after, id);
  }

  lemma CleanupFrame(db: State, after: State, x: Txn)
    requires x.call.CleanupCall? && CleanupOk(db, x) && SameHeld(db, after, x)
    ensures CleanupOk(after, x)
  {
    match x.phase
    case Begun =>
    case Locking(_, rows) => RowsLockedFrame(db, after, x, rows, x.call.now);
    case Lowering(rows, done) =>
      RowsLockedFrame(db, after, x, rows, x.call.now);
      assert forall id :: id in rows[..done] ==> id in rows;
      LoweredFrame(db, after, x, rows[..done]);
    case Ready(op) =>
      RowsLockedFrame(db, after, x, op.ids, x.call.now);
      LoweredFrame(db, after, x, op.ids);
  }

  // ---------------------------------------------------------------- each micro-step keeps Good

  /** Lowering one more row's allowance keeps the running account exact. */
  lemma LowerOne(db: State, x: Txn, rows: seq<ReservationId>, last: ReservationId, y: Txn)
    requires forall id :: id in rows ==> id in db.reservations
    requires last in db.reservations && Lowered(db, x, rows)
    requires var hold := db.reservations[last]; var a := hold.allowance;
        && a in db.allowances
        && y.held == x.held + {AllowanceRow(a)}
        && y.allowances == x.allowances[a :=
             Lower(if a in x.allowances then x.allowances[a] else db.allowances[a], hold.amountAtomic)]
    ensures forall id :: id in rows + [last] ==> id in db.reservations
    ensures Lowered(db, y, rows + [last])
  {
    var hold, more := db.reservations[last], rows + [last];
    assert forall id :: id in more <==> id in rows || id == last;
    forall a ensures Owed(db.reservations, more, a)
                  == Owed(db.reservations, rows, a) + (if hold.allowance == a then hold.amountAtomic else 0) {
      assert more[..|more| - 1] == rows;
    }
    if hold.allowance !in x.allowances {
      OwedUntouched(db.reservations, rows, hold.allowance);
    }
  }

  lemma LoweringStep(m: Machine, t: nat, x: Txn)
    requires TxnOk(m.db, x) && RowsBacked(m.db) && x.call.CleanupCall? && x.phase.Lowering? && AdvanceTxn(m, t, x).Next?
    ensures TxnOk(m.db, AdvanceTxn(m, t, x).txn)
  {
    var rows, done := x.phase.rows, x.phase.done;
    var y := AdvanceTxn(m, t, x).txn;
    assert forall id :: id in rows ==> id in m.db.reservations;
    if done < |rows| {
      assert rows[..done + 1] == rows[..done] + [rows[done]];
      assert rows[done] in rows;
      LowerOne(m.db, x, rows[..done], rows[done], y);
    } else {
      assert rows[..done] == rows;
    }
  }

  /** The first row of the list joins the locked rows, or is dropped. */
  lemma TakeFirst(rows: seq<ReservationId>, todo: seq<ReservationId>)
    requires todo != [] && Distinct(rows + todo)
    ensures rows + todo == rows + [todo[0]] + todo[1..] && |rows + todo[1..]| < |rows + todo|
    ensures Distinct(rows + [todo[0]]) && Distinct(rows + todo[1..])
  {
    var all, more, rest := rows + todo, rows + [todo[0]], rows + todo[1..];
    assert all == more + todo[1..];
    assert forall i :: 0 <= i < |more| ==> more[i] == all[i];
    assert forall i :: 0 <= i < |rest| ==> rest[i] == all[if i < |rows| then i else i + 1];
  }

  lemma LockingStep(m: Machine, t: nat, x: Txn)
    requires TxnOk(m.db, x) && x.call.CleanupCall? && x.phase.Locking? && AdvanceTxn(m, t, x).Next?
    ensures TxnOk(m.db, AdvanceTxn(m, t, x).txn)
  {
    if x.phase.todo != [] {
      TakeFirst(x.phase.rows, x.phase.todo);
    } else {
      assert x.phase.rows + x.phase.todo == x.phase.rows;
    }
  }

  lemma ReserveStep(m: Machine, t: nat, x: Txn)
    requires TxnOk(m.db, x) && x.call.ReserveCall? && AdvanceTxn(m, t, x).Next?
    ensures TxnOk(m.db, AdvanceTxn(m, t, x).txn)
  {
  }

  lemma FinishStep(m: Machine, t: nat, x: Txn)
    requires TxnOk(m.db, x) && RowsBacked(m.db) && x.call.FinishCall? && AdvanceTxn(m, t, x).Next?
    ensures TxnOk(m.db, AdvanceTxn(m, t, x).txn)
  {
  }

  lemma RowStep(m: Machine, t: nat, x: Txn)
    requires TxnOk(m.db, x) && (x.call.UpdateCall? || x.call.SaveCall? || x.call.DeleteCall?)
    requires AdvanceTxn(m, t, x).Next?
    ensures TxnOk(m.db, AdvanceTxn(m, t, x).txn)
  {
  }

  lemma AdvanceOk(m: Machine, t: nat, x: Txn)
    requires TxnOk(m.db, x) && RowsBacked(m.db) && AdvanceTxn(m, t, x).Next?
    ensures TxnOk(m.db, AdvanceTxn(m, t, x).txn)
  {
    match x.call
    case ReserveCall(_, _, _) => ReserveStep(m, t, x);
    case FinishCall(_, _) => FinishStep(m, t, x);
    case CleanupCall(_) =>
      if x.phase.Lowering? {
        LoweringStep(m, t, x);
      } else {
        LockingStep(m, t, x);
      }
    case _ => RowStep(m, t, x);
  }

  /** A micro-step only takes locks that are free. */
  lemma AdvanceHeld(m: Machine, t: nat, x: Txn, row: Row)
    requires AdvanceTxn(m, t, x).Next? && row in AdvanceTxn(m, t, x).txn.held
    ensures row in x.held || Free(m, t, row)
  {
  }

  lemma AdvanceInsert(m: Machine, t: nat, x: Txn)
    requires AdvanceTxn(m, t, x).Next? && Inserting(AdvanceTxn(m, t, x).txn)
    ensures AdvanceTxn(m, t, x).txn.call == x.call && !InsertPending(m, t, x.call.request)
  {
  }

  lemma AdvanceApart(s0: State, m: Machine, t: nat, u: nat)
    requires Good(s0, m) && t in m.txns && u in m.txns && t != u && AdvanceTxn(m, t, m.txns[t]).Next?
    ensures Apart(AdvanceTxn(m, t, m.txns[t]).txn, m.txns[u])
  {
    var x, y := AdvanceTxn(m, t, m.txns[t]).txn, m.txns[u];
    assert Apart(m.txns[t], y);
    forall row | row in x.held ensures row !in y.held {
      AdvanceHeld(m, t, m.txns[t], row);
    }
    if Inserting(x) && Inserting(y) {
      AdvanceInsert(m, t, m.txns[t]);
      assert TxnOk(m.db, y) && y.call.request.reservationId in y.reservations;
    }
  }

  lemma AdvanceKeeps(s0: State, m: Machine, t: nat)
    requires Good(s0, m) && t in m.txns && AdvanceTxn(m, t, m.txns[t]).Next?
    ensures Good(s0, m.(txns := m.txns[t := AdvanceTxn(m, t, m.txns[t]).txn]))
  {
    AdvanceOk(m, t, m.txns[t]);
    forall u | u in m.txns && u != t ensures Apart(AdvanceTxn(m, t, m.txns[t]).txn, m.txns[u]) {
      AdvanceApart(s0, m, t, u);
    }
  }

  lemma CommitKeeps(s0: State, m: Machine, t: nat)
    requires Good(s0, m) && t in m.txns && m.txns[t].phase.Ready?
    ensures Good(s0, Step(m, Commit(t)))
  {
    var y := m.txns[t];
    CommitIsAtomic(m.db, y);
    BackedKept(m.db, y.phase.op);
    var log := m.log + [y.phase.op];
    assert log[..|log| - 1] == m.log;
    forall u | u in m.txns && u != t ensures TxnOk(AfterCommit(m.db, y), m.txns[u]) {
      CommitFrame(m.db, y, m.txns[u]);
    }
  }

  lemma CascadeKeeps(s0: State, m: Machine, t: nat, id: ReservationId)
    requires Good(s0, m) && MayCascade(m, t, id)
    ensures Good(s0, m.(txns := m.txns[t := Cascaded(m.txns[t], id)]))
  {
    var x, y := m.txns[t], Cascaded(m.txns[t], id);
    assert TxnOk(m.db, y);
    forall u | u in m.txns && u != t ensures Apart(y, m.txns[u]) {
      assert Apart(x, m.txns[u]) && ReservationRow(id) !in m.txns[u].held;
    }
  }

  lemma SelectKeeps(s0: State, m: Machine, t: nat, ids: seq<ReservationId>)
    requires Good(s0, m)
    ensures Good(s0, Step(m, Select(t, ids)))
  {
    if Step(m, Select(t, ids)) != m {
      assert [] + ids == ids;
    }
  }

  lemma DropKeeps(s0: State, m: Machine, t: nat)
    requires Good(s0, m)
    ensures Good(s0, m.(txns := m.txns - {t}))
  {
  }

  lemma BeginKeeps(s0: State, m: Machine, t: nat, call: Call)
    requires Good(s0, m)
    ensures Good(s0, Step(m, Begin(t, call)))
  {
  }

  lemma StepKeeps(s0: State, m: Machine, e: Event)
    requires Good(s0, m)
    ensures Good(s0, Step(m, e))
  {
    match e
    case Begin(t, call) => BeginKeeps(s0, m, t, call);
    case Select(t, ids) => SelectKeeps(s0, m, t, ids);
    case Cascade(t, id) =>
      if MayCascade(m, t, id) {
        CascadeKeeps(s0, m, t, id);
      }
    case Advance(t) =>
      DropKeeps(s0, m, t);
      if t in m.txns && AdvanceTxn(m, t, m.txns[t]).Next? {
        AdvanceKeeps(s0, m, t);
      }
    case Commit(t) =>
      if t in m.txns && m.txns[t].phase.Ready? {
        CommitKeeps(s0, m, t);
      }
    case Abort(t) => DropKeeps(s0, m, t);
  }

  lemma {:induction false} ExecGood(s0: State, events: seq<Event>)
    requires RowsBacked(s0)
    ensures Good(s0, Exec(s0, events))
  {
    if events != [] {
      ExecGood(s0, events[..|events| - 1]);
      StepKeeps(s0, Exec(s0, events[..|events| - 1]), events[|events| - 1]);
    }
  }

  /** Every operation of the history takes effect when its turn comes. */
  predicate AllEffective(s0: State, ops: seq<Operation>) {
    forall i :: 0 <= i < |ops| ==> Effective(Run(s0, ops[..i]), ops[i])
  }

  lemma EffectiveAppend(s0: State, ops: seq<Operation>, op: Operation)
    requires AllEffective(s0, ops) && Effective(Run(s0, ops), op)
    ensures AllEffective(s0, ops + [op])
  {
    var more := ops + [op];
    forall i | 0 <= i < |more| ensures Effective(Run(s0, more[..i]), more[i]) {
      assert more[..i] == if i < |ops| then ops[..i] else ops;
    }
  }

  predicate Commits(m: Machine, e: Event) {
    e.Commit? && e.t in m.txns && m.txns[e.t].phase.Ready?
  }

  lemma LogStep(m: Machine, e: Event)
    ensures Step(m, e).log == if Commits(m, e) then m.log + [m.txns[e.t].phase.op] else m.log
  {
  }

  /**
    Refinement. For every starting state whose reservations have their allowance, and every interleaving
    of micro-steps, with transactions aborted at any point, the committed tables are what the atomic
    ledger reaches by running the committed operations in commit order, and each of them takes effect.
   */
  lemma {:induction false} InterleavingsRefineLedger(s0: State, events: seq<Event>)
    requires RowsBacked(s0)
    ensures var m := Exec(s0, events); m.db == Run(s0, m.log) && AllEffective(s0, m.log)
  {
    ExecGood(s0, events);
    if events != [] {
      var before, e := Exec(s0, events[..|events| - 1]), events[|events| - 1];
      InterleavingsRefineLedger(s0, events[..|events| - 1]);
      LogStep(before, e);
      if Commits(before, e) {
        ExecGood(s0, events[..|events| - 1]);
        CommitIsAtomic(before.db, before.txns[e.t]);
        EffectiveAppend(s0, before.log, before.txns[e.t].phase.op);
      }
    }
  }

  /** So the amounts stay conserved and within limits however transactions interleave. */
  lemma InterleavingsKeepInvariant(s0: State, events: seq<Event>)
    requires Inv(s0)
    ensures Inv(Exec(s0, events).db)
  {
    ExecGood(s0, events);
    RunKeeps(s0, Exec(s0, events).log);
  }
}
