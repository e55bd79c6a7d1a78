/**
  What every history of ledger transactions keeps: amounts are conserved between the allowance
  rows and the reservation rows, capacity is never exceeded, a payment key is claimed once,
  and an allowance that has left service never pays again.
 */
module LedgerInvariants {
  import opened BudgetLedger

  // ---------------------------------------------------------------- sums over reservation rows

  function Share(r: Reservation, a: Address, status: ReservationStatus): int {
    if r.allowance == a && r.status == status then r.amountAtomic else 0
  }

  /** Sum of the amounts of all rows of allowance a in the given status. */
  ghost function Total(rows: map<ReservationId, Reservation>, a: Address, status: ReservationStatus): int
    decreases |rows|
  {
    if rows == map[] then 0
    else
      var id :| id in rows;
      Share(rows[id], a, status) + Total(rows - {id}, a, status)
  }

  /** The sum does not depend on the order in which rows are taken. */
  lemma {:induction false} TotalTake(
    rows: map<ReservationId, Reservation>, id: ReservationId, a: Address, status: ReservationStatus)
    requires id in rows
    ensures Total(rows, a, status) == Share(rows[id], a, status) + Total(rows - {id}, a, status)
    decreases |rows|
  {
    var pick :| pick in rows &&
                Total(rows, a, status) == Share(rows[pick], a, status) + Total(rows - {pick}, a, status);
    if pick != id {
      TotalTake(rows - {pick}, id, a, status);
      TotalTake(rows - {id}, pick, a, status);
      assert rows - {pick} - {id} == rows - {id} - {pick};
    }
  }

  lemma TotalPut(
    rows: map<ReservationId, Reservation>, id: ReservationId, r: Reservation, a: Address, status: ReservationStatus)
    ensures Total(rows[id := r], a, status)
         == Total(rows, a, status) + Share(r, a, status)
            - (if id in rows then Share(rows[id], a, status) else 0)
  {
    TotalTake(rows[id := r], id, a, status);
    assert rows[id := r] - {id} == rows - {id};
    if id in rows {
      TotalTake(rows, id, a, status);
    } else {
      assert rows - {id} == rows;
    }
  }

  /** The rows that do not belong to the given allowance. */
  ghost function Without(rows: map<ReservationId, Reservation>, gone: Address): map<ReservationId, Reservation> {
    map id | id in rows && rows[id].allowance != gone :: rows[id]
  }

  lemma WithoutTake(rows: map<ReservationId, Reservation>, id: ReservationId, gone: Address)
    requires id in rows
    ensures Without(rows - {id}, gone) == Without(rows, gone) - {id}
  {
  }

  /** Dropping the rows of one allowance leaves every other allowance's sums alone. */
  lemma {:induction false} TotalWithout(
    rows: map<ReservationId, Reservation>, gone: Address, a: Address, status: ReservationStatus)
    requires a != gone
    ensures Total(Without(rows, gone), a, status) == Total(rows, a, status)
    decreases |rows|
  {
    if rows == map[] {
      assert Without(rows, gone) == map[];
    } else {
      var id :| id in rows;
      TotalTake(rows, id, a, status);
      TotalWithout(rows - {id}, gone, a, status);
      WithoutTake(rows, id, gone);
      if id in Without(rows, gone) {
        TotalTake(Without(rows, gone), id, a, status);
      } else {
        assert Without(rows, gone) - {id} == Without(rows, gone);
      }
    }
  }

  lemma {:induction false} TotalOfNone(rows: map<ReservationId, Reservation>, a: Address, status: ReservationStatus)
    requires forall id :: id in rows ==> rows[id].allowance != a
    ensures Total(rows, a, status) == 0
    decreases |rows|
  {
    if rows != map[] {
      var id :| id in rows;
      TotalTake(rows, id, a, status);
      TotalOfNone(rows - {id}, a, status);
    }
  }

  // ---------------------------------------------------------------- the invariant

  ghost predicate RowConserved(s: State, a: Address)
    requires a in s.allowances
  {
    && s.allowances[a].reservedAtomic == Total(s.reservations, a, Reserved)
    && s.allowances[a].spentAtomic == Total(s.reservations, a, Consumed)
  }

  ghost predicate Conserved(s: State) {
    forall a :: a in s.allowances ==> RowConserved(s, a)
  }

  predicate WithinLimits(s: State) {
    forall a :: a in s.allowances ==> AmountsOk(s.allowances[a])
  }

  predicate RowsBacked(s: State) {
    forall id :: id in s.reservations ==>
      s.reservations[id].amountAtomic > 0 && s.reservations[id].allowance in s.allowances
  }

  /** No operation orphans a reservation. */
  lemma BackedKept(s: State, op: Operation)
    requires RowsBacked(s)
    ensures RowsBacked(Apply(s, op))
  {
  }

  predicate KeysDistinct(s: State) {
    forall i, j ::
      (i in s.reservations && j in s.reservations && s.reservations[i].paymentKey == s.reservations[j].paymentKey)
      ==> i == j
  }

  ghost predicate Inv(s: State) {
    Conserved(s) && WithinLimits(s) && RowsBacked(s) && KeysDistinct(s)
  }

  // ---------------------------------------------------------------- each operation keeps it

  lemma ReserveKeeps(s: State, request: SpendRequest, calledAt: int, checkedAt: int)
    requires Inv(s)
    ensures Inv(ReserveState(s, request, calledAt, checkedAt))
  {
    var t := ReserveState(s, request, calledAt, checkedAt);
    if ReserveRefusal(s, request, calledAt, checkedAt).None? {
      forall a | a in t.allowances ensures RowConserved(t, a) {
        assert RowConserved(s, a);
        TotalPut(s.reservations, request.reservationId, NewReservation(request), a, Reserved);
        TotalPut(s.reservations, request.reservationId, NewReservation(request), a, Consumed);
      }
    }
  }

  /** A held reservation is part of what its allowance row holds. */
  lemma HeldIsCounted(s: State, id: ReservationId)
    requires Inv(s) && Finishable(s, id)
    ensures s.reservations[id].allowance in s.allowances
    ensures s.reservations[id].amountAtomic <= s.allowances[s.reservations[id].allowance].reservedAtomic
  {
    var r := s.reservations[id];
    assert RowConserved(s, r.allowance);
    TotalTake(s.reservations, id, r.allowance, Reserved);
    TotalNonNegative(s.reservations - {id}, r.allowance, Reserved);
  }

  lemma {:induction false} TotalNonNegative(
    rows: map<ReservationId, Reservation>, a: Address, status: ReservationStatus)
    requires forall id :: id in rows ==> rows[id].amountAtomic > 0
    ensures Total(rows, a, status) >= 0
    decreases |rows|
  {
    if rows != map[] {
      var id :| id in rows;
      TotalTake(rows, id, a, status);
      TotalNonNegative(rows - {id}, a, status);
    }
  }

  lemma FinishKeeps(s: State, id: ReservationId, consumed: bool)
    requires Inv(s)
    ensures Inv(FinishState(s, id, consumed))
  {
    var t := FinishState(s, id, consumed);
    if Finishable(s, id) {
      HeldIsCounted(s, id);
      var done := s.reservations[id].(status := Outcome(consumed));
      forall a | a in t.allowances ensures RowConserved(t, a) {
        assert RowConserved(s, a);
        TotalPut(s.reservations, id, done, a, Reserved);
        TotalPut(s.reservations, id, done, a, Consumed);
      }
    }
  }

  // ---------------------------------------------------------------- a sweep is a batch of releases

  /** Releasing the listed reservations one transaction at a time. */
  function ReleaseEach(s: State, ids: seq<ReservationId>): State {
    if ids == [] then s else FinishState(ReleaseEach(s, ids[..|ids| - 1]), ids[|ids| - 1], false)
  }

  lemma SweepablePrefix(s: State, ids: seq<ReservationId>, now: int)
    requires Sweepable(s, ids, now) && ids != []
    ensures var init, last := ids[..|ids| - 1], ids[|ids| - 1];
      Sweepable(s, init, now) && HeldPast(s, last, now) && last !in init
      && forall id :: id in ids <==> id in init || id == last
  {
    var init, last := ids[..|ids| - 1], ids[|ids| - 1];
    assert ids == init + [last];
    assert last in ids && forall id :: id in init ==> id in ids;
  }

  lemma SweepExtends(s: State, ids: seq<ReservationId>, now: int)
    requires Inv(s) && Sweepable(s, ids, now) && ids != []
    ensures CleanupState(s, ids, now) == FinishState(CleanupState(s, ids[..|ids| - 1], now), ids[|ids| - 1], false)
  {
    var init, last := ids[..|ids| - 1], ids[|ids| - 1];
    SweepablePrefix(s, ids, now);
    var before, after := CleanupState(s, init, now), CleanupState(s, ids, now);
    var next := FinishState(before, last, false);
    assert before.reservations[last] == s.reservations[last];
    assert next.reservations.Keys == after.reservations.Keys;
    assert next.reservations == after.reservations;
    assert next.allowances.Keys == after.allowances.Keys;
    forall a | a in after.allowances ensures next.allowances[a] == after.allowances[a] {
      assert Owed(s.reservations, ids, a)
          == Owed(s.reservations, init, a)
             + (if s.reservations[last].allowance == a then s.reservations[last].amountAtomic else 0);
    }
  }

  /**
    One sweep has exactly the effect of releasing its rows one by one: each allowance's
    reserved amount drops by the sum of its own released rows and nothing else changes.
   */
  lemma {:induction false} SweepIsReleases(s: State, ids: seq<ReservationId>, now: int)
    requires Inv(s) && Sweepable(s, ids, now)
    ensures CleanupState(s, ids, now) == ReleaseEach(s, ids)
  {
    if ids == [] {
      assert MarkReleased(s.reservations, []) == s.reservations;
      assert CleanupState(s, [], now).allowances == s.allowances;
    } else {
      SweepablePrefix(s, ids, now);
      SweepIsReleases(s, ids[..|ids| - 1], now);
      SweepExtends(s, ids, now);
    }
  }

  lemma {:induction false} ReleaseEachKeeps(s: State, ids: seq<ReservationId>)
    requires Inv(s)
    ensures Inv(ReleaseEach(s, ids))
  {
    if ids != [] {
      ReleaseEachKeeps(s, ids[..|ids| - 1]);
      FinishKeeps(ReleaseEach(s, ids[..|ids| - 1]), ids[|ids| - 1], false);
    }
  }

  lemma DeleteKeeps(s: State, owner: string, address: Address)
    requires Inv(s)
    ensures Inv(DeleteState(s, owner, address))
  {
    var t := DeleteState(s, owner, address);
    forall a | a in t.allowances ensures RowConserved(t, a) {
      assert RowConserved(s, a);
      if t != s {
        TotalWithout(s.reservations, address, a, Reserved);
        TotalWithout(s.reservations, address, a, Consumed);
      }
    }
  }

  lemma SaveKeeps(s: State, address: Address, record: AllowanceRecord)
    requires Inv(s)
    ensures Inv(SaveState(s, address, record))
  {
    var t := SaveState(s, address, record);
    forall a | a in t.allowances ensures RowConserved(t, a) {
      if a in s.allowances {
        assert RowConserved(s, a);
      } else {
        TotalOfNone(s.reservations, a, Reserved);
        TotalOfNone(s.reservations, a, Consumed);
      }
    }
  }

  lemma ApplyKeeps(s: State, op: Operation)
    requires Inv(s)
    ensures Inv(Apply(s, op))
  {
    match op
    case Save(address, record) => SaveKeeps(s, address, record);
    case Delete(owner, address) => DeleteKeeps(s, owner, address);
    case Reserve(request, calledAt, checkedAt) => ReserveKeeps(s, request, calledAt, checkedAt);
    case Finish(id, consumed) => FinishKeeps(s, id, consumed);
    case Cleanup(ids, now) =>
      if Sweepable(s, ids, now) {
        SweepIsReleases(s, ids, now);
        ReleaseEachKeeps(s, ids);
      }
    case BeginRevocation(_, _) => UpdateKeeps(s, op);
    case Revoke(_, _, _, _) => UpdateKeeps(s, op);
    case Observe(_, _) => UpdateKeeps(s, op);
  }

  lemma UpdateKeeps(s: State, op: Operation)
    requires Inv(s) && (op.BeginRevocation? || op.Revoke? || op.Observe?)
    ensures Inv(UpdateState(s, op))
  {
    var t := UpdateState(s, op);
    forall a | a in t.allowances ensures RowConserved(t, a) {
      assert RowConserved(s, a);
    }
  }

  /** Every history from a sound state ends in a sound state. */
  lemma {:induction false} RunKeeps(s: State, ops: seq<Operation>)
    requires Inv(s)
    ensures Inv(Run(s, ops))
  {
    if ops != [] {
      RunKeeps(s, ops[..|ops| - 1]);
      ApplyKeeps(Run(s, ops[..|ops| - 1]), ops[|ops| - 1]);
    }
  }

  /**
    In every reachable state each allowance holds exactly its reserved rows, has spent exactly its
    consumed rows, and keeps both within its maximum, so the remaining capacity shown to its owner
    is never negative; and no two reservations share a payment key.
   */
  lemma ReachableIsSound(ops: seq<Operation>, a: Address)
    requires a in Run(EMPTY, ops).allowances
    ensures var s := Run(EMPTY, ops); var row := s.allowances[a];
      && row.reservedAtomic == Total(s.reservations, a, Reserved)
      && row.spentAtomic == Total(s.reservations, a, Consumed)
      && RemainingCapacity(row) >= 0
      && KeysDistinct(s)
  {
    RunKeeps(EMPTY, ops);
    assert RowConserved(Run(EMPTY, ops), a);
  }

  /** The hosted view's remaining capacity. */
  function RemainingCapacity(row: Allowance): int {
    row.maxAtomic - row.spentAtomic - row.reservedAtomic
  }
}
