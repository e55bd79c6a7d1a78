/** The store's ledger methods, step by step on the two tables, proved against the ledger's operations. */
module PostgresLedger {
  import opened Outcomes
  import opened BudgetLedger
  import opened LedgerSweep

  datatype SaveError = AmountsViolated

  class PostgresStore {
    var allowances: map<Address, Allowance>
    var reservations: map<ReservationId, Reservation>

    ghost function Value(): State
      reads this
    {
      State(allowances, reservations)
    }

    constructor ()
      ensures Value() == EMPTY
    {
      allowances, reservations := map[], map[];
    }

    /**
      The constraint is checked on the row as proposed and again on the row as updated; a conflict with
      another owner's row is no error.
     */
    method SaveAllowance(address: Address, record: AllowanceRecord) returns (result: Result<(), SaveError>)
      modifies this
      ensures Value() == Apply(old(Value()), Save(address, record))
      ensures result.Err? <==>
        var foreign := address in old(allowances) && old(allowances)[address].owner != record.owner;
        !AmountsOk(SavedRow(if foreign then EMPTY else old(Value()), address, record))
      ensures result.Ok? && !(address in old(allowances) && old(allowances)[address].owner != record.owner) ==>
        address in allowances && allowances[address] == SavedRow(old(Value()), address, record)
    {
      var proposed := SavedRow(EMPTY, address, record);
      if !AmountsOk(proposed) {
        return Err(AmountsViolated);
      }
      if address !in allowances {
        allowances := allowances[address := proposed];
      } else if allowances[address].owner == record.owner {
        var row := proposed.(
          spentAtomic := allowances[address].spentAtomic, reservedAtomic := allowances[address].reservedAtomic);
        if !AmountsOk(row) {
          return Err(AmountsViolated);
        }
        allowances := allowances[address := row];
      }
      return Ok(());
    }

    method DeleteAllowanceMetadata(owner: string, address: Address) returns (deleted: bool)
      modifies this
      ensures Value() == Apply(old(Value()), Delete(owner, address))
      ensures deleted <==> address in old(allowances) && old(allowances)[address].owner == owner
    {
      deleted := address in allowances && allowances[address].owner == owner;
      if deleted {
        allowances := allowances - {address};
        reservations := map id | id in reservations && reservations[id].allowance != address :: reservations[id];
      }
    }

    method ReserveAllowanceSpend(request: SpendRequest, calledAt: int, checkedAt: int)
      returns (result: Result<Reservation, ReserveError>)
      modifies this
      ensures Value() == Apply(old(Value()), Reserve(request, calledAt, checkedAt))
      ensures match ReserveRefusal(old(Value()), request, calledAt, checkedAt)
        case Some(refusal) => result == Err(refusal) && Value() == old(Value())
        case None => result == Ok(NewReservation(request)) && reservations[request.reservationId] == result.value
    {
      var amount := request.amountAtomic;
      if amount <= 0 || request.expiresAt <= calledAt {
        return Err(ReservationInvalid);
      }
      if request.allowance !in allowances {
        return Err(AllowanceNotFound);
      }
      var row := allowances[request.allowance];
      if exists id :: id in reservations && reservations[id].paymentKey == request.paymentKey {
        return Err(ReservationReplayed);
      }
      if row.status != Active {
        return Err(AllowanceNotActive);
      }
      if row.expiresAt <= checkedAt {
        return Err(AllowanceExpired);
      }
      if amount > row.perRequestAtomic {
        return Err(PerRequestExceeded);
      }
      if row.spentAtomic + row.reservedAtomic + amount > row.maxAtomic {
        return Err(AggregateExceeded);
      }
      var begun := allowances;
      allowances := allowances[request.allowance := row.(reservedAtomic := row.reservedAtomic + amount)];
      if request.reservationId in reservations {
        allowances := begun;  // rollback on the primary key violation
        return Err(ReservationReplayed);
      }
      var reservation := Reservation(request.allowance, request.paymentKey, amount, Reserved, request.expiresAt);
      reservations := reservations[request.reservationId := reservation];
      return Ok(reservation);
    }

    method FinishAllowanceReservation(id: ReservationId, consumed: bool) returns (done: bool)
      modifies this
      ensures done <==> Finishable(old(Value()), id)
      ensures Value() == Apply(old(Value()), Finish(id, consumed))
    {
      if id !in reservations || reservations[id].status != Reserved {
        return false;
      }
      var r := reservations[id];
      if r.allowance in allowances {
        var row := allowances[r.allowance];
        var spent := if consumed then row.spentAtomic + r.amountAtomic else row.spentAtomic;
        var status := if consumed && row.spentAtomic + r.amountAtomic == row.maxAtomic then Exhausted else row.status;
        allowances := allowances[r.allowance :=
          row.(reservedAtomic := row.reservedAtomic - r.amountAtomic, spentAtomic := spent, status := status)];
      }
      reservations := reservations[id := r.(status := if consumed then Consumed else Released)];
      return true;
    }

    /** The sweep's query: the oldest expired rows still held, up to the limit. */
    method SelectExpired(now: int) returns (ids: seq<ReservationId>)
      ensures SelectsOldest(Value(), ids, now)
    {
      ids := [];
      var left := set id | id in reservations && reservations[id].status == Reserved
          && reservations[id].expiresAt <= now;
      ghost var all := ExpiredRows(Value(), now);
      assert left == all;
      while left != {} && |ids| < SWEEP_LIMIT
        invariant left == all - (set id | id in ids)
        invariant |left| + |ids| == |all| && |ids| <= SWEEP_LIMIT
        invariant OldestOf(reservations, all, ids)
        decreases left
      {
        ghost var oldest := OldestExists(reservations, left);
        assert Oldest(reservations, left, oldest);
        var id :| Oldest(reservations, left, id);
        PickNext(reservations, all, left, ids, id);
        left := left - {id};
        ids := ids + [id];
      }
    }

    /** The sweep's loop: each row's amount comes off its own allowance. */
    method LowerAllowances(rows: seq<ReservationId>)
      requires forall id :: id in rows ==> id in reservations
      modifies this`allowances
      ensures allowances == AllLowered(old(allowances), reservations, rows)
    {
      ghost var before := allowances;
      LoweredByNone(before, reservations);
      for k := 0 to |rows|
        invariant forall id :: id in rows[..k] ==> id in reservations
        invariant allowances == AllLowered(before, reservations, rows[..k])
      {
        assert rows[k] in rows;
        LoweredByOneMore(before, reservations, rows, k);
        var r := reservations[rows[k]];
        if r.allowance in allowances {
          var row := allowances[r.allowance];
          allowances := allowances[r.allowance := row.(reservedAtomic := row.reservedAtomic - r.amountAtomic)];
        }
      }
      assert rows[..|rows|] == rows;
    }

    method CleanupExpired(now: int) returns (released: nat, ghost ids: seq<ReservationId>)
      modifies this
      ensures SelectsOldest(old(Value()), ids, now) && released == |ids|
      ensures Value() == Apply(old(Value()), Cleanup(ids, now))
    {
      var rows := SelectExpired(now);
      ids := rows;
      SelectedIsSweepable(Value(), rows, now);
      LowerAllowances(rows);
      if |rows| > 0 {
        reservations := map id | id in reservations ::
          if id in rows then reservations[id].(status := Released) else reservations[id];
      } else {
        assert MarkReleased(reservations, rows) == reservations;
      }
      released := |rows|;
    }

    method BeginAllowanceRevocation(owner: string, address: Address) returns (changed: bool)
      modifies this
      ensures Value() == Apply(old(Value()), BeginRevocation(owner, address))
      ensures changed <==> Value() != old(Value())
    {
      changed := address in allowances && allowances[address].owner == owner && allowances[address].status == Active;
      if changed {
        allowances := allowances[address := allowances[address].(status := RevocationPending)];
      }
      RowUnchanged(old(allowances), address);
    }

    method RevokeAllowance(owner: string, address: Address, now: int, signature: Option<string>)
      returns (changed: bool)
      modifies this
      ensures Value() == Apply(old(Value()), Revoke(owner, address, now, signature))
      ensures changed <==> Value() != old(Value())
    {
      changed := address in allowances && allowances[address].owner == owner && allowances[address].revokedAt.None?;
      if changed {
        var row := allowances[address];
        var kept := if signature.Some? then signature else row.revocationSignature;
        row := row.(revokedAt := Some(now), status := Revoked, revocationSignature := kept);
        allowances := allowances[address := row];
      }
      RowUnchanged(old(allowances), address);
    }

    method SetAllowanceObservationStatus(address: Address, status: AllowanceStatus) returns (changed: bool)
      requires status in {Active, Unknown, Failed}
      modifies this
      ensures Value() == Apply(old(Value()), Observe(address, status))
      ensures changed <==> Value() != old(Value())
    {
      changed := address in allowances &&
        ((allowances[address].status == Active && status in {Unknown, Failed}) ||
         (allowances[address].status == Unknown && status in {Active, Failed}));
      if changed {
        allowances := allowances[address := allowances[address].(status := status)];
      }
      RowUnchanged(old(allowances), address);
    }
  }

  /** Every allowance less what the listed rows hold against it. */
  function AllLowered(
    allowances: map<Address, Allowance>, rows: map<ReservationId, Reservation>, ids: seq<ReservationId>)
    : map<Address, Allowance>
    requires forall id :: id in ids ==> id in rows
  {
    map a | a in allowances :: Lower(allowances[a], Owed(rows, ids, a))
  }

  lemma LoweredByNone(allowances: map<Address, Allowance>, rows: map<ReservationId, Reservation>)
    ensures AllLowered(allowances, rows, []) == allowances
  {
  }

  lemma LoweredByOneMore(
    allowances: map<Address, Allowance>, rows: map<ReservationId, Reservation>, ids: seq<ReservationId>, k: nat)
    requires k < |ids| && forall id :: id in ids ==> id in rows
    ensures forall id :: id in ids[..k] || id in ids[..k + 1] ==> id in rows
    ensures ids[k] in rows
    ensures var hold := rows[ids[k]]; var before := AllLowered(allowances, rows, ids[..k]);
      AllLowered(allowances, rows, ids[..k + 1])
        == if hold.allowance in before
           then before[hold.allowance := Lower(before[hold.allowance], hold.amountAtomic)] else before
  {
    assert ids[k] in ids && ids[..k + 1][..k] == ids[..k];
    var hold := rows[ids[k]];
    var before, after := AllLowered(allowances, rows, ids[..k]), AllLowered(allowances, rows, ids[..k + 1]);
    forall a | a in allowances
      ensures Owed(rows, ids[..k + 1], a)
           == Owed(rows, ids[..k], a) + (if hold.allowance == a then hold.amountAtomic else 0)
    {
    }
    assert after.Keys == before.Keys;
  }

  lemma RowUnchanged(rows: map<Address, Allowance>, a: Address)
    ensures a in rows ==> rows[a := rows[a]] == rows
  {
  }

  lemma SelectedIsSweepable(s: State, ids: seq<ReservationId>, now: int)
    requires SelectsOldest(s, ids, now)
    ensures Sweepable(s, ids, now)
  {
    SweepShrinks(s, ids, now);
  }

  lemma PickNext(rows: map<ReservationId, Reservation>, all: set<ReservationId>, left: set<ReservationId>,
                 ids: seq<ReservationId>, id: ReservationId)
    requires OldestOf(rows, all, ids) && left == all - (set x | x in ids)
    requires Oldest(rows, left, id)
    ensures OldestOf(rows, all, ids + [id])
    ensures left - {id} == all - (set x | x in ids + [id])
  {
    var more := ids + [id];
    assert forall x :: x in more <==> x in ids || x == id;
    forall i, j | 0 <= i < j < |more| ensures more[i] != more[j] && NoLater(rows, more[i], more[j]) {
      if j == |ids| {
        assert id in all && id !in ids && more[i] == ids[i];
      } else {
        assert more[i] == ids[i] && more[j] == ids[j];
      }
    }
    forall i, x | 0 <= i < |more| && x in all && x !in more ensures NoLater(rows, more[i], x) {
      assert x in left;
    }
  }

  predicate Oldest(rows: map<ReservationId, Reservation>, ids: set<ReservationId>, id: ReservationId) {
    id in ids && forall other :: other in ids ==> NoLater(rows, id, other)
  }

  /** One more row: it or the oldest so far is the oldest of all. */
  lemma OldestOfMore(
    rows: map<ReservationId, Reservation>, ids: set<ReservationId>, id: ReservationId, best: ReservationId)
    requires id in ids && ids <= rows.Keys && Oldest(rows, ids - {id}, best)
    ensures Oldest(rows, ids, if NoLater(rows, id, best) then id else best)
  {
    forall other | other in ids ensures NoLater(rows, if NoLater(rows, id, best) then id else best, other) {
      assert other == id || NoLater(rows, best, other);
    }
  }

  lemma {:induction false} OldestExists(rows: map<ReservationId, Reservation>, ids: set<ReservationId>)
    returns (oldest: ReservationId)
    requires ids != {} && ids <= rows.Keys
    ensures Oldest(rows, ids, oldest)
    decreases |ids|
  {
    var id :| id in ids;
    if ids == {id} {
      oldest := id;
    } else {
      var best := OldestExists(rows, ids - {id});
      OldestOfMore(rows, ids, id, best);
      oldest := if NoLater(rows, id, best) then id else best;
    }
  }
}
