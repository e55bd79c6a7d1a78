/**
  Properties of one allowance, one payment key or one reservation along a whole history:
  what stays true of it, and the only operations that can end that.
 */
module LedgerHistory {
  import opened Outcomes
  import opened BudgetLedger
  import opened LedgerInvariants

  // ---------------------------------------------------------------- allowances out of service

  /** Every status but these two is final for spending. */
  predicate OutOfService(status: AllowanceStatus) {
    status != Active && status != Unknown
  }

  function Committed(row: Allowance): int {
    row.spentAtomic + row.reservedAtomic
  }

  function CommittedTo(s: State, a: Address): int {
    if a in s.allowances then Committed(s.allowances[a]) else 0
  }

  /** No allowance at this address can pay: it is out of service, or deleted. */
  predicate Unusable(s: State, a: Address) {
    a in s.allowances ==> OutOfService(s.allowances[a].status)
  }

  /** A save of the row, by its owner if it exists, with amounts that fit, that leaves it active or unknown. */
  predicate Reopens(s: State, op: Operation, a: Address) {
    && op.Save? && op.address == a
    && (a in s.allowances ==> s.allowances[a].owner == op.record.owner)
    && AmountsOk(SavedRow(s, a, op.record))
    && op.record.status in {None, Some(Active), Some(Unknown)}
  }

  /** Exactly such a save ends an allowance's time out of service. */
  lemma ReopensExactly(s: State, op: Operation, a: Address)
    requires Unusable(s, a)
    ensures !Unusable(Apply(s, op), a) <==> Reopens(s, op, a)
  {
  }

  lemma {:induction false} OwedNonNegative(s: State, ids: seq<ReservationId>, a: Address)
    requires RowsBacked(s) && forall id :: id in ids ==> id in s.reservations
    ensures Owed(s.reservations, ids, a) >= 0
  {
    if ids != [] {
      OwedNonNegative(s, ids[..|ids| - 1], a);
    }
  }

  lemma CommittedStep(s: State, op: Operation, a: Address)
    requires Inv(s) && Unusable(s, a) && !Reopens(s, op, a)
    ensures !(Accepted(s, op) && op.request.allowance == a)
    ensures CommittedTo(Apply(s, op), a) <= CommittedTo(s, a)
  {
    ReopensExactly(s, op, a);
    if a in s.allowances {
      assert AmountsOk(s.allowances[a]);
    }
    if op.Finish? && Finishable(s, op.id) {
      HeldIsCounted(s, op.id);
    }
    if op.Cleanup? && Sweepable(s, op.ids, op.now) {
      OwedNonNegative(s, op.ids, a);
    }
  }

  /** Somewhere in the run an operation brings the allowance back. */
  predicate ReopenedIn(s: State, ops: seq<Operation>, a: Address) {
    exists i :: 0 <= i < |ops| && Reopens(Run(s, ops[..i]), ops[i], a)
  }

  lemma PrefixReopened(s: State, ops: seq<Operation>, a: Address, n: nat)
    requires n <= |ops| && ReopenedIn(s, ops[..n], a)
    ensures ReopenedIn(s, ops, a)
  {
    var i :| 0 <= i < n && Reopens(Run(s, ops[..n][..i]), ops[..n][i], a);
    assert ops[..n][..i] == ops[..i];
  }

  /** An allowance stays unusable through a whole run if and only if no operation of the run reopens it. */
  lemma {:induction false} UnusableThroughout(s: State, ops: seq<Operation>, a: Address)
    requires Unusable(s, a)
    ensures (forall i :: 0 <= i <= |ops| ==> Unusable(Run(s, ops[..i]), a)) <==> !ReopenedIn(s, ops, a)
  {
    if ReopenedIn(s, ops, a) {
      var i :| 0 <= i < |ops| && Reopens(Run(s, ops[..i]), ops[i], a);
      if Unusable(Run(s, ops[..i]), a) {
        ReopensExactly(Run(s, ops[..i]), ops[i], a);
        assert ops[..i + 1][..i] == ops[..i];
        assert !Unusable(Run(s, ops[..i + 1]), a);
      }
    } else {
      forall i | 0 <= i <= |ops| ensures Unusable(Run(s, ops[..i]), a) {
        UnusableAt(s, ops, a, i);
      }
    }
  }

  lemma {:induction false} UnusableAt(s: State, ops: seq<Operation>, a: Address, i: nat)
    requires Unusable(s, a) && !ReopenedIn(s, ops, a) && i <= |ops|
    ensures Unusable(Run(s, ops[..i]), a)
  {
    if i > 0 {
      UnusableAt(s, ops, a, i - 1);
      assert ops[..i][..i - 1] == ops[..i - 1];
      ReopensExactly(Run(s, ops[..i - 1]), ops[i - 1], a);
    }
  }

  /**
    Once an allowance is out of service or deleted, and until an operation reopens it, no reserve on it
    succeeds and its spending stays within what was spent or held at that moment, whatever consumes,
    releases, sweeps, revocations, observations, deletions and other saves follow.
   */
  lemma {:induction false} FrozenForever(s: State, ops: seq<Operation>, a: Address)
    requires Inv(s) && Unusable(s, a) && !ReopenedIn(s, ops, a)
    ensures forall i :: 0 <= i < |ops| && Accepted(Run(s, ops[..i]), ops[i]) ==> ops[i].request.allowance != a
    ensures var t := Run(s, ops);
      && Unusable(t, a)
      && CommittedTo(t, a) <= CommittedTo(s, a)
      && (a in t.allowances ==> t.allowances[a].spentAtomic <= CommittedTo(s, a))
  {
    UnusableThroughout(s, ops, a);
    assert ops[..|ops|] == ops;
    forall i | 0 <= i < |ops| && Accepted(Run(s, ops[..i]), ops[i]) ensures ops[i].request.allowance != a {
      RunKeeps(s, ops[..i]);
      assert Unusable(Run(s, ops[..i]), a);
    }
    CommittedRun(s, ops, a);
    RunKeeps(s, ops);
    assert a in Run(s, ops).allowances ==> AmountsOk(Run(s, ops).allowances[a]);
  }

  lemma {:induction false} CommittedRun(s: State, ops: seq<Operation>, a: Address)
    requires Inv(s) && Unusable(s, a) && !ReopenedIn(s, ops, a)
    ensures CommittedTo(Run(s, ops), a) <= CommittedTo(s, a)
  {
    if ops != [] {
      var n := |ops| - 1;
      if ReopenedIn(s, ops[..n], a) {
        PrefixReopened(s, ops, a, n);
      }
      CommittedRun(s, ops[..n], a);
      UnusableAt(s, ops, a, n);
      RunKeeps(s, ops[..n]);
      CommittedStep(Run(s, ops[..n]), ops[n], a);
    }
  }

  /** A save after which the reserve is accepted, although it was refused before. */
  predicate PaysAgain(s: State, save: Operation, reserve: Operation, a: Address) {
    && Reopens(s, save, a)
    && reserve.Reserve? && reserve.request.allowance == a
    && !Accepted(s, reserve)
    && Accepted(Apply(s, save), reserve)
  }

  /**
    When the next save can put an out-of-service allowance back to work: exactly when what it has spent
    and holds leaves room for one more unit within the column's width, for the save may raise the maximum.
   */
  lemma SaveReopens(s: State, a: Address, now: int, key: string, id: ReservationId)
    requires Inv(s) && a in s.allowances && OutOfService(s.allowances[a].status)
    requires !KeyTaken(s, key) && id !in s.reservations
    ensures (exists save: Operation, reserve: Operation :: PaysAgain(s, save, reserve, a))
      <==> Committed(s.allowances[a]) + 1 < NUMERIC_LIMIT
  {
    var row := s.allowances[a];
    assert AmountsOk(row);
    if Committed(row) + 1 < NUMERIC_LIMIT {
      var save := Save(a, AllowanceRecord(row.owner, Committed(row) + 1, None, now + 1, None, None, Some(Active)));
      var reserve := Reserve(SpendRequest(id, a, key, 1, now + 1), now, now);
      assert Apply(s, save).reservations == s.reservations;
      assert PaysAgain(s, save, reserve, a);
    }
    forall save: Operation, reserve: Operation | PaysAgain(s, save, reserve, a)
      ensures Committed(row) + 1 < NUMERIC_LIMIT
    {
      assert Apply(s, save).allowances[a] == SavedRow(s, a, save.record);
    }
  }

  // ---------------------------------------------------------------- payment keys

  predicate Holds(s: State, id: ReservationId, key: string) {
    id in s.reservations && s.reservations[id].paymentKey == key
  }

  /** The owner's delete of the allowance a reservation is held against. */
  predicate Erases(s: State, op: Operation, id: ReservationId) {
    && op.Delete?
    && id in s.reservations && s.reservations[id].allowance == op.address
    && op.address in s.allowances && s.allowances[op.address].owner == op.owner
  }

  lemma SweepFate(s: State, ids: seq<ReservationId>, now: int, id: ReservationId)
    requires id in s.reservations
    ensures var t := Apply(s, Cleanup(ids, now)); var r := s.reservations[id];
      && id in t.reservations
      && (t.reservations[id] == r || (r.status == Reserved && t.reservations[id] == r.(status := Released)))
  {
  }

  lemma FinishFate(s: State, settled: ReservationId, consumed: bool, id: ReservationId)
    requires id in s.reservations
    ensures var t := Apply(s, Finish(settled, consumed)); var r := s.reservations[id];
      && id in t.reservations
      && (t.reservations[id] == r || (r.status == Reserved && t.reservations[id] == r.(status := Outcome(consumed))))
  {
  }

  lemma DeleteFate(s: State, owner: string, a: Address, id: ReservationId)
    requires id in s.reservations
    ensures var t := Apply(s, Delete(owner, a));
      if Erases(s, Delete(owner, a), id) then id !in t.reservations
      else id in t.reservations && t.reservations[id] == s.reservations[id]
  {
  }

  lemma RowFate(s: State, op: Operation, id: ReservationId)
    requires Inv(s) && id in s.reservations
    ensures var t := Apply(s, op); var r := s.reservations[id];
      if Erases(s, op, id) then id !in t.reservations
      else
        && id in t.reservations
        && t.reservations[id].(status := r.status) == r
        && (r.status != Reserved ==> t.reservations[id] == r)
  {
    match op
    case Finish(settled, consumed) => FinishFate(s, settled, consumed, id);
    case Cleanup(ids, now) => SweepFate(s, ids, now, id);
    case Delete(owner, a) => DeleteFate(s, owner, a, id);
    case _ =>
  }

  /**
    Exactly when a payment key is taken after one more operation: it was taken before and its
    row was not erased with its allowance, or this operation is the reserve that claims it.
   */
  lemma KeyLifetime(s: State, op: Operation, key: string)
    requires Inv(s)
    ensures KeyTaken(Apply(s, op), key) <==>
      || (exists id :: Holds(s, id, key) && !Erases(s, op, id))
      || (Accepted(s, op) && op.request.paymentKey == key)
  {
    var t := Apply(s, op);
    forall id | id in s.reservations ensures Holds(s, id, key) && !Erases(s, op, id) ==> Holds(t, id, key) {
      RowFate(s, op, id);
    }
    if Accepted(s, op) && op.request.paymentKey == key {
      assert Holds(t, op.request.reservationId, key);
    }
    if KeyTaken(t, key) {
      var id :| id in t.reservations && t.reservations[id].paymentKey == key;
      if id in s.reservations {
        RowFate(s, op, id);
        assert Holds(s, id, key) && !Erases(s, op, id);
      }
    }
  }

  /** While no allowance is deleted, a row stays, keeps what it is for, and is settled at most once. */
  lemma {:induction false} RowStays(s: State, ops: seq<Operation>, id: ReservationId)
    requires Inv(s) && id in s.reservations
    requires forall op :: op in ops && op.Delete? ==> op.address != s.reservations[id].allowance
    ensures var t := Run(s, ops); var r := s.reservations[id];
      && id in t.reservations
      && t.reservations[id].(status := r.status) == r
      && (r.status != Reserved ==> t.reservations[id] == r)
  {
    if ops != [] {
      var init := ops[..|ops| - 1];
      RowStays(s, init, id);
      RunKeeps(s, init);
      RowFate(Run(s, init), ops[|ops| - 1], id);
    }
  }

  /**
    A payment key is claimed at most once: after an accepted reserve, and until the allowance it
    was claimed against is deleted, every later reserve with the same key is refused on any
    allowance, even after the first was consumed or released.
   */
  lemma ClaimedOnce(s: State, first: Operation, ops: seq<Operation>, again: Operation)
    requires Inv(s) && Accepted(s, first)
    requires again.Reserve? && again.request.paymentKey == first.request.paymentKey
    requires forall op :: op in ops && op.Delete? ==> op.address != first.request.allowance
    ensures !Accepted(Run(Apply(s, first), ops), again)
  {
    var t := Apply(s, first);
    ApplyKeeps(s, first);
    RowStays(t, ops, first.request.reservationId);
    assert KeyTaken(Run(t, ops), first.request.paymentKey);
  }

  lemma RunTwo(s: State, first: Operation, second: Operation)
    ensures Run(s, [first, second]) == Apply(Apply(s, first), second)
  {
    var ops := [first, second];
    assert ops[..1] == [first] && ops[..1][..0] == [];
    assert Run(s, ops[..1]) == Apply(s, first);
  }

  lemma ErasedKey(s: State, owner: string, a: Address, id: ReservationId, key: string)
    requires KeysDistinct(s) && Holds(s, id, key)
    requires a in s.allowances && s.allowances[a].owner == owner && s.reservations[id].allowance == a
    ensures var t := Apply(s, Delete(owner, a)); !KeyTaken(t, key) && id !in t.reservations && a !in t.allowances
  {
    var t := Apply(s, Delete(owner, a));
    forall other | other in t.reservations ensures t.reservations[other].paymentKey != key {
      assert other in s.reservations && other != id;
    }
  }

  /** Deletion does free the key: the same request is accepted a second time. */
  lemma DeleteFreesKey(s: State, first: Operation, record: AllowanceRecord)
    requires Inv(s) && Accepted(s, first)
    requires var a := first.request.allowance; var row := s.allowances[a];
      record == AllowanceRecord(
        row.owner, row.maxAtomic, Some(row.perRequestAtomic), row.expiresAt, row.revokedAt, row.revocationSignature,
        Some(row.status))
    ensures var a := first.request.allowance;
      Accepted(Run(Apply(s, first), [Delete(record.owner, a), Save(a, record)]), first)
  {
    var q := first.request;
    var t := Apply(s, first);
    ApplyKeeps(s, first);
    RunTwo(t, Delete(record.owner, q.allowance), Save(q.allowance, record));
    assert AmountsOk(s.allowances[q.allowance]);
    ErasedKey(t, record.owner, q.allowance, q.reservationId, q.paymentKey);
  }

  // ---------------------------------------------------------------- one settlement per reservation

  /** The operation that ends a reservation's hold. */
  predicate Settles(s: State, op: Operation, id: ReservationId) {
    && Finishable(s, id)
    && id in Apply(s, op).reservations
    && Apply(s, op).reservations[id].status != Reserved
  }

  /** A reservation is settled at most once in any history, and never both consumed and released. */
  lemma SettledOnce(s: State, first: Operation, ops: seq<Operation>, again: Operation, id: ReservationId)
    requires Inv(s) && Settles(s, first, id)
    requires forall op :: op in ops && op.Delete? ==> op.address != s.reservations[id].allowance
    ensures var t := Run(Apply(s, first), ops);
      !Settles(t, again, id) && id in t.reservations && t.reservations[id] == Apply(s, first).reservations[id]
  {
    ApplyKeeps(s, first);
    RowFate(s, first, id);
    RowStays(Apply(s, first), ops, id);
  }

  // ---------------------------------------------------------------- what a status says

  /** Saves as the gateway makes them: the row comes back active. */
  predicate SavesActive(op: Operation) {
    op.Save? ==> op.record.status == None || op.record.status == Some(Active)
  }

  predicate StatusOk(row: Allowance) {
    && (row.status == Exhausted ==> row.spentAtomic == row.maxAtomic && row.reservedAtomic == 0)
    && (row.status == Revoked ==> row.revokedAt.Some?)
  }

  lemma FinishStatus(s: State, id: ReservationId, consumed: bool, a: Address)
    requires Inv(s) && a in s.allowances && StatusOk(s.allowances[a])
    ensures a in FinishState(s, id, consumed).allowances && StatusOk(FinishState(s, id, consumed).allowances[a])
  {
    if Finishable(s, id) {
      HeldIsCounted(s, id);
      FinishKeeps(s, id, consumed);
      assert AmountsOk(s.allowances[a]) && AmountsOk(FinishState(s, id, consumed).allowances[a]);
    }
  }

  lemma CleanupStatus(s: State, ids: seq<ReservationId>, now: int, a: Address)
    requires Inv(s) && a in s.allowances && StatusOk(s.allowances[a])
    ensures a in CleanupState(s, ids, now).allowances && StatusOk(CleanupState(s, ids, now).allowances[a])
  {
    if Sweepable(s, ids, now) {
      OwedNonNegative(s, ids, a);
      ApplyKeeps(s, Cleanup(ids, now));
      assert AmountsOk(CleanupState(s, ids, now).allowances[a]);
    }
  }

  lemma StatusStep(s: State, op: Operation, a: Address)
    requires Inv(s) && SavesActive(op) && (a in s.allowances ==> StatusOk(s.allowances[a]))
    requires a in Apply(s, op).allowances
    ensures StatusOk(Apply(s, op).allowances[a])
  {
    match op
    case Finish(id, consumed) => FinishStatus(s, id, consumed, a);
    case Cleanup(ids, now) => CleanupStatus(s, ids, now, a);
    case Reserve(_, _, _) =>
      if a in s.allowances { assert AmountsOk(s.allowances[a]); }
    case _ =>
  }

  /**
    However revocations, observations and late consumes rewrite it, an exhausted status means the
    maximum is spent and nothing is held, and a revoked status comes with its revocation time.
   */
  lemma {:induction false} StatusMeansWhatItSays(ops: seq<Operation>, a: Address)
    requires forall op :: op in ops ==> SavesActive(op)
    requires a in Run(EMPTY, ops).allowances
    ensures StatusOk(Run(EMPTY, ops).allowances[a])
  {
    if ops != [] {
      var init := ops[..|ops| - 1];
      if a in Run(EMPTY, init).allowances {
        StatusMeansWhatItSays(init, a);
      }
      RunKeeps(EMPTY, init);
      StatusStep(Run(EMPTY, init), ops[|ops| - 1], a);
    }
  }

  /**
    A reserve is accepted exactly when its amount fits every limit of a live, active allowance and its
    key is unclaimed.
   */
  lemma AcceptedExactly(s: State, q: SpendRequest, calledAt: int, checkedAt: int)
    requires Inv(s)
    ensures Accepted(s, Reserve(q, calledAt, checkedAt)) <==>
      && 0 < q.amountAtomic && calledAt < q.expiresAt
      && q.allowance in s.allowances
      && var row := s.allowances[q.allowance];
         && row.status == Active && checkedAt < row.expiresAt
         && q.amountAtomic <= row.perRequestAtomic && q.amountAtomic <= RemainingCapacity(row)
         && q.reservationId !in s.reservations
         && forall id :: id in s.reservations ==> s.reservations[id].paymentKey != q.paymentKey
  {
  }
}
