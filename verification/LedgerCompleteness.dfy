/**
  The converse of refinement: the lock-level machine can do everything the atomic ledger can. Each
  operation that takes effect is committed by some run of one transaction, so every history of the
  ledger is the log of an interleaving.
 */
module LedgerCompleteness {
  import opened BudgetLedger
  import opened LedgerInvariants
  import opened LedgerTransactions

  function Steps(m: Machine, events: seq<Event>): Machine {
    if events == [] then m else Step(Steps(m, events[..|events| - 1]), events[|events| - 1])
  }

  lemma {:induction false} StepsFirst(m: Machine, e: Event, events: seq<Event>)
    ensures Steps(m, [e] + events) == Steps(Step(m, e), events)
  {
    var all := [e] + events;
    if events == [] {
      assert all[..0] == [] && all[0] == e && |all| == 1;
    } else {
      var n := |events| - 1;
      StepsFirst(m, e, events[..n]);
      assert all[..n + 1] == [e] + events[..n] && all[n + 1] == events[n];
    }
  }

  lemma {:induction false} ExecThen(s0: State, first: seq<Event>, rest: seq<Event>)
    ensures Exec(s0, first + rest) == Steps(Exec(s0, first), rest)
  {
    if rest == [] {
      assert first + rest == first;
    } else {
      assert (first + rest)[..|first + rest| - 1] == first + rest[..|rest| - 1];
      ExecThen(s0, first, rest[..|rest| - 1]);
    }
  }

  function Done(m: Machine, op: Operation): Machine {
    Machine(Apply(m.db, op), map[], m.log + [op])
  }

  /** Some further micro-steps commit the operation and leave nothing open. */
  ghost predicate Completes(m: Machine, op: Operation) {
    exists events :: Steps(m, events) == Done(m, op)
  }

  lemma StepCompletes(m: Machine, e: Event, op: Operation)
    requires Step(m, e).db == m.db && Step(m, e).log == m.log && Completes(Step(m, e), op)
    ensures Completes(m, op)
  {
    var events :| Steps(Step(m, e), events) == Done(Step(m, e), op);
    StepsFirst(m, e, events);
    assert Steps(m, [e] + events) == Done(m, op);
  }

  /** The machine whose only open transaction is x. */
  function Alone(m: Machine, x: Txn): Machine {
    m.(txns := map[0 := x])
  }

  ghost predicate Ours(s0: State, m: Machine, x: Txn) {
    Good(s0, m) && m == Alone(m, x)
  }

  lemma OursKnown(s0: State, m: Machine, x: Txn)
    requires Ours(s0, m, x)
    ensures 0 in m.txns && m.txns[0] == x && TxnOk(m.db, x) && RowsBacked(m.db)
  {
  }

  lemma OneStep(m: Machine, e: Event)
    ensures Steps(m, [e]) == Step(m, e)
  {
    assert [e][..0] == [];
  }

  lemma CommitOnly(m: Machine, x: Txn)
    requires m == Alone(m, x) && x.phase.Ready?
    ensures Step(m, Commit(0)) == Machine(AfterCommit(m.db, x), map[], m.log + [x.phase.op])
  {
    assert m.txns == map[0 := x] && m.txns - {0} == map[];
  }

  lemma CommitAlone(s0: State, m: Machine, x: Txn)
    requires Ours(s0, m, x) && x.phase.Ready?
    ensures Step(m, Commit(0)) == Done(m, x.phase.op)
  {
    OursKnown(s0, m, x);
    CommitOnly(m, x);
    CommitIsAtomic(m.db, x);
  }

  lemma ReadyCompletes(s0: State, m: Machine, x: Txn)
    requires Ours(s0, m, x) && x.phase.Ready?
    ensures Completes(m, x.phase.op)
  {
    CommitAlone(s0, m, x);
    OneStep(m, Commit(0));
  }

  lemma AdvanceAlone(s0: State, m: Machine, x: Txn, y: Txn)
    requires Ours(s0, m, x) && AdvanceTxn(m, 0, x) == Next(y)
    ensures Step(m, Advance(0)) == Alone(m, y)
  {
    assert 0 in m.txns && m.txns[0] == x;
    assert m.txns[0 := y] == map[0 := y];
  }

  /** One advance of the only transaction; what completes after it completes now. */
  lemma AdvanceCompletes(s0: State, m: Machine, x: Txn, y: Txn, op: Operation)
    requires Ours(s0, m, x) && AdvanceTxn(m, 0, x) == Next(y)
    ensures Ours(s0, Alone(m, y), y)
    ensures Completes(Alone(m, y), op) ==> Completes(m, op)
  {
    AdvanceAlone(s0, m, x, y);
    StepKeeps(s0, m, Advance(0));
    if Completes(Alone(m, y), op) {
      StepCompletes(m, Advance(0), op);
    }
  }

  // ---------------------------------------------------------------- one transaction each

  lemma ReserveCompletes(s0: State, m: Machine, q: SpendRequest, calledAt: int, checkedAt: int, x: Txn)
    requires Ours(s0, m, x) && Accepted(m.db, Reserve(q, calledAt, checkedAt))
    requires x == Txn(ReserveCall(q, calledAt, checkedAt), Begun, {}, map[], map[], {}, {})
    ensures Completes(m, Reserve(q, calledAt, checkedAt))
  {
    var op := Reserve(q, calledAt, checkedAt);
    var row := m.db.allowances[q.allowance];
    var x1 := x.(phase := RowRead(row), held := x.held + {AllowanceRow(q.allowance)});
    var x2 := x1.(phase := KeyChecked(row));
    var x3 := x2.(phase := Charged, allowances := map[q.allowance := Charge(row, q.amountAtomic)]);
    var x4 := x3.(phase := Ready(op), reservations := map[q.reservationId := NewReservation(q)]);
    AdvanceCompletes(s0, m, x, x1, op);
    AdvanceCompletes(s0, Alone(m, x1), x1, x2, op);
    AdvanceCompletes(s0, Alone(m, x2), x2, x3, op);
    AdvanceCompletes(s0, Alone(m, x3), x3, x4, op);
    ReadyCompletes(s0, Alone(m, x4), x4);
  }

  lemma FinishCompletes(s0: State, m: Machine, id: ReservationId, consumed: bool, x: Txn)
    requires Ours(s0, m, x) && Finishable(m.db, id)
    requires x == Txn(FinishCall(id, consumed), Begun, {}, map[], map[], {}, {})
    ensures Completes(m, Finish(id, consumed))
  {
    var op, hold := Finish(id, consumed), m.db.reservations[id];
    var a := hold.allowance;
    var x1 := x.(phase := HoldRead(hold), held := x.held + {ReservationRow(id)});
    var x2 := x1.(
      phase := Phase.Settled(hold), held := x1.held + {AllowanceRow(a)},
      allowances := map[a := Settle(m.db.allowances[a], hold.amountAtomic, consumed)]);
    var x3 := x2.(phase := Ready(op), reservations := map[id := hold.(status := Outcome(consumed))]);
    AdvanceCompletes(s0, m, x, x1, op);
    AdvanceCompletes(s0, Alone(m, x1), x1, x2, op);
    AdvanceCompletes(s0, Alone(m, x2), x2, x3, op);
    ReadyCompletes(s0, Alone(m, x3), x3);
  }

  lemma RowCompletes(s0: State, m: Machine, call: Call, op: Operation, x: Txn)
    requires Ours(s0, m, x) && x == Txn(call, Begun, {}, map[], map[], {}, {})
    requires op.Save? || op.BeginRevocation? || op.Revoke? || op.Observe?
    requires call == if op.Save? then SaveCall(op.address, op.record) else UpdateCall(op)
    requires Effective(m.db, op)
    ensures Completes(m, op)
  {
    var a := op.address;
    var row := if op.Save? then SavedRow(m.db, a, op.record) else UpdatedRow(op, m.db.allowances[a]);
    var y := x.(phase := Ready(op), held := x.held + {AllowanceRow(a)}, allowances := map[a := row]);
    AdvanceCompletes(s0, m, x, y, op);
    ReadyCompletes(s0, Alone(m, y), y);
  }

  lemma {:induction false} LoweringCompletes(s0: State, m: Machine, x: Txn)
    requires Ours(s0, m, x) && x.call.CleanupCall? && x.phase.Lowering?
    ensures Completes(m, Cleanup(x.phase.rows, x.call.now))
    decreases if x.phase.Lowering? then |x.phase.rows| - x.phase.done else 0
  {
    var Lowering(rows, done) := x.phase;
    var op := Cleanup(rows, x.call.now);
    OursKnown(s0, m, x);
    if done < |rows| {
      assert rows[done] in rows;
      var y := AdvanceTxn(m, 0, x).txn;
      AdvanceCompletes(s0, m, x, y, op);
      LoweringCompletes(s0, Alone(m, y), y);
    } else {
      var y := AdvanceTxn(m, 0, x).txn;
      AdvanceCompletes(s0, m, x, y, op);
      ReadyCompletes(s0, Alone(m, y), y);
    }
  }

  lemma {:induction false} LockingCompletes(s0: State, m: Machine, x: Txn)
    requires Ours(s0, m, x) && x.call.CleanupCall? && x.phase.Locking?
    requires forall id :: id in x.phase.todo ==> HeldPast(m.db, id, x.call.now)
    ensures Completes(m, Cleanup(x.phase.rows + x.phase.todo, x.call.now))
    decreases if x.phase.Locking? then |x.phase.todo| else 0
  {
    var Locking(todo, rows) := x.phase;
    var op := Cleanup(rows + todo, x.call.now);
    var y := AdvanceTxn(m, 0, x).txn;
    AdvanceCompletes(s0, m, x, y, op);
    if todo == [] {
      assert rows + todo == rows;
      LoweringCompletes(s0, Alone(m, y), y);
    } else {
      assert todo[0] in todo && rows + [todo[0]] + todo[1..] == rows + todo;
      LockingCompletes(s0, Alone(m, y), y);
    }
  }

  lemma CleanupCompletes(s0: State, m: Machine, ids: seq<ReservationId>, now: int, x: Txn)
    requires Ours(s0, m, x) && Sweepable(m.db, ids, now)
    requires x == Txn(CleanupCall(now), Begun, {}, map[], map[], {}, {})
    ensures Completes(m, Cleanup(ids, now))
  {
    var y := x.(phase := Locking(ids, []));
    StepKeeps(s0, m, Select(0, ids));
    assert m.txns[0 := y] == map[0 := y];
    assert Step(m, Select(0, ids)) == Alone(m, y);
    LockingCompletes(s0, Alone(m, y), y);
    assert [] + ids == ids;
    StepCompletes(m, Select(0, ids), Cleanup(ids, now));
  }

  lemma CascadeAlone(s0: State, m: Machine, x: Txn, id: ReservationId)
    requires Ours(s0, m, x) && x.call.DeleteCall? && x.phase.Cascading? && id in RowsOf(m.db, x.call.address)
    ensures Step(m, Cascade(0, id)) == Alone(m, Cascaded(x, id))
    ensures Ours(s0, Alone(m, Cascaded(x, id)), Cascaded(x, id))
  {
    assert MayCascade(m, 0, id);
    assert m.txns[0 := Cascaded(x, id)] == map[0 := Cascaded(x, id)];
    StepKeeps(s0, m, Cascade(0, id));
  }

  lemma CascadedCompletes(s0: State, m: Machine, x: Txn)
    requires Ours(s0, m, x) && x.call.DeleteCall? && x.phase.Cascading?
    requires RowsOf(m.db, x.call.address) - x.goneReservations == {}
    ensures Completes(m, Delete(x.call.owner, x.call.address))
  {
    var DeleteCall(owner, a) := x.call;
    forall id | id in RowsOf(m.db, a) ensures id in x.goneReservations {
      assert id in x.goneReservations || id in RowsOf(m.db, a) - x.goneReservations;
    }
    var y := x.(phase := Ready(Delete(owner, a)), goneAllowances := {a});
    AdvanceCompletes(s0, m, x, y, Delete(owner, a));
    ReadyCompletes(s0, Alone(m, y), y);
  }

  lemma {:induction false} CascadingCompletes(s0: State, m: Machine, x: Txn)
    requires Ours(s0, m, x) && x.call.DeleteCall? && x.phase.Cascading?
    ensures Completes(m, Delete(x.call.owner, x.call.address))
    decreases |RowsOf(m.db, if x.call.DeleteCall? then x.call.address else "") - x.goneReservations|
  {
    var DeleteCall(owner, a) := x.call;
    var left := RowsOf(m.db, a) - x.goneReservations;
    var op := Delete(owner, a);
    if left == {} {
      CascadedCompletes(s0, m, x);
    } else {
      var id :| id in left;
      var y := Cascaded(x, id);
      CascadeAlone(s0, m, x, id);
      assert RowsOf(m.db, a) - y.goneReservations == left - {id};
      CascadingCompletes(s0, Alone(m, y), y);
      StepCompletes(m, Cascade(0, id), op);
    }
  }

  lemma DeleteCompletes(s0: State, m: Machine, owner: string, a: Address, x: Txn)
    requires Ours(s0, m, x) && Owned(m.db, owner, a)
    requires x == Txn(DeleteCall(owner, a), Begun, {}, map[], map[], {}, {})
    ensures Completes(m, Delete(owner, a))
  {
    var y := x.(phase := Cascading, held := x.held + {AllowanceRow(a)});
    AdvanceCompletes(s0, m, x, y, Delete(owner, a));
    CascadingCompletes(s0, Alone(m, y), y);
  }

  // ---------------------------------------------------------------- every history

  function CallOf(op: Operation): Call {
    match op
    case Save(a, record) => SaveCall(a, record)
    case Delete(owner, a) => DeleteCall(owner, a)
    case Reserve(q, calledAt, checkedAt) => ReserveCall(q, calledAt, checkedAt)
    case Finish(id, consumed) => FinishCall(id, consumed)
    case Cleanup(_, now) => CleanupCall(now)
    case _ => UpdateCall(op)
  }

  lemma BegunCompletes(s0: State, m: Machine, op: Operation, x: Txn)
    requires Ours(s0, m, x) && Effective(m.db, op) && x == Txn(CallOf(op), Begun, {}, map[], map[], {}, {})
    ensures Completes(m, op)
  {
    match op
    case Delete(owner, a) => DeleteCompletes(s0, m, owner, a, x);
    case Reserve(q, calledAt, checkedAt) => ReserveCompletes(s0, m, q, calledAt, checkedAt, x);
    case Finish(id, consumed) => FinishCompletes(s0, m, id, consumed, x);
    case Cleanup(ids, now) => CleanupCompletes(s0, m, ids, now, x);
    case _ => RowCompletes(s0, m, CallOf(op), op, x);
  }

  /** Whatever takes effect on the atomic ledger is committed by some run of one transaction. */
  lemma EffectiveCompletes(s0: State, m: Machine, op: Operation)
    requires Good(s0, m) && m.txns == map[] && Effective(m.db, op)
    ensures Completes(m, op)
  {
    var x := Txn(CallOf(op), Begun, {}, map[], map[], {}, {});
    StepKeeps(s0, m, Begin(0, CallOf(op)));
    assert m.txns[0 := x] == map[0 := x];
    assert Step(m, Begin(0, CallOf(op))) == Alone(m, x);
    BegunCompletes(s0, Alone(m, x), op, x);
    StepCompletes(m, Begin(0, CallOf(op)), op);
  }

  lemma EffectivePrefix(s0: State, ops: seq<Operation>, n: nat)
    requires AllEffective(s0, ops) && n <= |ops|
    ensures AllEffective(s0, ops[..n])
  {
    forall i | 0 <= i < n ensures Effective(Run(s0, ops[..n][..i]), ops[..n][i]) {
      assert ops[..n][..i] == ops[..i];
    }
  }

  predicate Logs(s0: State, events: seq<Event>, ops: seq<Operation>) {
    Exec(s0, events) == Machine(Run(s0, ops), map[], ops)
  }

  ghost predicate IsLog(s0: State, ops: seq<Operation>) {
    exists events :: Logs(s0, events, ops)
  }

  lemma LogsAfter(s0: State, first: seq<Event>, rest: seq<Event>, ops: seq<Operation>)
    requires ops != [] && Logs(s0, first, ops[..|ops| - 1])
    requires Steps(Exec(s0, first), rest) == Done(Exec(s0, first), ops[|ops| - 1])
    ensures Logs(s0, first + rest, ops)
  {
    ExecThen(s0, first, rest);
    assert ops == ops[..|ops| - 1] + [ops[|ops| - 1]];
  }

  lemma CompletesAfter(s0: State, first: seq<Event>, ops: seq<Operation>, op: Operation)
    requires RowsBacked(s0) && Logs(s0, first, ops) && Effective(Run(s0, ops), op)
    ensures Completes(Exec(s0, first), op)
  {
    ExecGood(s0, first);
    EffectiveCompletes(s0, Exec(s0, first), op);
  }

  lemma OneMoreLogged(s0: State, ops: seq<Operation>)
    requires RowsBacked(s0) && ops != [] && AllEffective(s0, ops) && IsLog(s0, ops[..|ops| - 1])
    ensures IsLog(s0, ops)
  {
    var init, op := ops[..|ops| - 1], ops[|ops| - 1];
    var first :| Logs(s0, first, init);
    CompletesAfter(s0, first, init, op);
    var rest :| Steps(Exec(s0, first), rest) == Done(Exec(s0, first), op);
    LogsAfter(s0, first, rest, ops);
  }

  /** Every such history of the atomic ledger is the log of an interleaving that leaves nothing open. */
  lemma {:induction false} EveryHistoryIsALog(s0: State, ops: seq<Operation>)
    requires RowsBacked(s0) && AllEffective(s0, ops)
    ensures IsLog(s0, ops)
  {
    if ops == [] {
      assert Logs(s0, [], ops);
    } else {
      EffectivePrefix(s0, ops, |ops| - 1);
      EveryHistoryIsALog(s0, ops[..|ops| - 1]);
      OneMoreLogged(s0, ops);
    }
  }
}
