/**
  What each ledger operation does to the rows it touches, in the rows' own fields, and what an owner's
  revocation achieves over every history that follows.
 */
module LedgerEffects {
  import opened Outcomes
  import opened BudgetLedger
  import opened LedgerInvariants
  import opened LedgerHistory

  // ---------------------------------------------------------------- reserve and finish

  /** An accepted reserve holds its amount and inserts its row; a refused one leaves both tables alone. */
  lemma ReserveEffect(s: State, q: SpendRequest, calledAt: int, checkedAt: int)
    ensures var t := Apply(s, Reserve(q, calledAt, checkedAt)); var a := q.allowance;
      if Accepted(s, Reserve(q, calledAt, checkedAt)) then
        && a in s.allowances
        && t.allowances == s.allowances[a :=
             s.allowances[a].(reservedAtomic := s.allowances[a].reservedAtomic + q.amountAtomic)]
        && t.reservations == s.reservations[q.reservationId :=
             Reservation(a, q.paymentKey, q.amountAtomic, Reserved, q.expiresAt)]
      else t == s
  {
  }

  predicate Claimed(s: State, key: string) {
    exists id :: id in s.reservations && s.reservations[id].paymentKey == key
  }

  /** Each refusal, by the condition that causes it and those that had to hold before it was looked at. */
  lemma RefusedExactly(s: State, q: SpendRequest, calledAt: int, checkedAt: int)
    ensures var r := ReserveRefusal(s, q, calledAt, checkedAt);
      var due := 0 < q.amountAtomic && calledAt < q.expiresAt; var found := due && q.allowance in s.allowances;
      && (r == Some(ReservationInvalid) <==> !due)
      && (r == Some(AllowanceNotFound) <==> due && !found)
      && (found ==>
            var row, unclaimed := s.allowances[q.allowance], !Claimed(s, q.paymentKey);
            var live := row.status == Active; var current := checkedAt < row.expiresAt;
            var small := q.amountAtomic <= row.perRequestAtomic;
            var room := row.spentAtomic + row.reservedAtomic + q.amountAtomic <= row.maxAtomic;
            && (r == Some(AllowanceNotActive) <==> unclaimed && !live)
            && (r == Some(AllowanceExpired) <==> unclaimed && live && !current)
            && (r == Some(PerRequestExceeded) <==> unclaimed && live && current && !small)
            && (r == Some(AggregateExceeded) <==> unclaimed && live && current && small && !room)
            && (r == Some(ReservationReplayed) <==>
                  !unclaimed || (live && current && small && room && q.reservationId in s.reservations)))
  {
    assert KeyTaken(s, q.paymentKey) <==> Claimed(s, q.paymentKey);
  }

  /**
    Consuming moves the amount from held to spent, releasing gives it back; an allowance spent to its
    maximum is exhausted.
   */
  lemma FinishEffect(s: State, id: ReservationId, consumed: bool)
    requires Inv(s)
    ensures var t := Apply(s, Finish(id, consumed));
      if id in s.reservations && s.reservations[id].status == Reserved then
        var r := s.reservations[id]; var a := r.allowance;
        && a in s.allowances
        && t.reservations == s.reservations[id := r.(status := if consumed then Consumed else Released)]
        && t.allowances.Keys == s.allowances.Keys
        && (forall other :: other in s.allowances && other != a ==> t.allowances[other] == s.allowances[other])
        && var row, after := s.allowances[a], t.allowances[a];
           && after.reservedAtomic == row.reservedAtomic - r.amountAtomic
           && after.spentAtomic == (if consumed then row.spentAtomic + r.amountAtomic else row.spentAtomic)
           && after.status == (if consumed && after.spentAtomic == row.maxAtomic then Exhausted else row.status)
           && after == row.(
                reservedAtomic := after.reservedAtomic, spentAtomic := after.spentAtomic, status := after.status)
      else t == s
  {
    if id in s.reservations && s.reservations[id].status == Reserved {
      HeldIsCounted(s, id);
    }
  }

  // ---------------------------------------------------------------- save

  /** What a save that takes effect stores: the record's limits and status, and what was spent and held before. */
  lemma SaveEffect(s: State, a: Address, record: AllowanceRecord)
    ensures var t := Apply(s, Save(a, record));
      var before := if a in s.allowances then Some(s.allowances[a]) else None;
      var row := Allowance(
        record.owner, record.maxAtomic,
        if record.perRequestAtomic == None then record.maxAtomic else record.perRequestAtomic.value,
        if before == None then 0 else before.value.spentAtomic,
        if before == None then 0 else before.value.reservedAtomic,
        record.expiresAt, if record.status == None then Active else record.status.value,
        record.revokedAt, record.revocationSignature);
      if (before == None || before.value.owner == record.owner)
         && 0 < row.perRequestAtomic <= row.maxAtomic < 100_000_000_000_000_000_000
         && 0 <= row.spentAtomic && 0 <= row.reservedAtomic && row.spentAtomic + row.reservedAtomic <= row.maxAtomic
      then t == State(s.allowances[a := row], s.reservations)
      else t == s
  {
  }

  // ---------------------------------------------------------------- status updates

  /** Only the owner, and only while the allowance is active, puts it in revocation. */
  lemma BeginRevocationEffect(s: State, owner: string, a: Address)
    ensures var t := Apply(s, BeginRevocation(owner, a));
      if a in s.allowances && s.allowances[a].owner == owner && s.allowances[a].status == Active
      then t == s.(allowances := s.allowances[a := s.allowances[a].(status := RevocationPending)])
      else t == s
  {
    if a in s.allowances {
      assert s.allowances[a := s.allowances[a]] == s.allowances;
    }
  }

  /** Only the owner, and only once, revokes it: the time is kept, and a new signature replaces an earlier one. */
  lemma RevokeEffect(s: State, owner: string, a: Address, now: int, signature: Option<string>)
    ensures var t := Apply(s, Revoke(owner, a, now, signature));
      if a in s.allowances && s.allowances[a].owner == owner && s.allowances[a].revokedAt == None
      then
        var row := s.allowances[a];
        t == s.(allowances := s.allowances[a := row.(
          status := Revoked, revokedAt := Some(now),
          revocationSignature := if signature == None then row.revocationSignature else signature)])
      else t == s
  {
    if a in s.allowances {
      assert s.allowances[a := s.allowances[a]] == s.allowances;
    }
  }

  /** An observation moves active to unknown or failed, and unknown to active or failed, and nothing else. */
  lemma ObserveEffect(s: State, a: Address, status: AllowanceStatus)
    ensures var t := Apply(s, Observe(a, status));
      if a in s.allowances
         && ((s.allowances[a].status == Active && (status == Unknown || status == Failed))
             || (s.allowances[a].status == Unknown && (status == Active || status == Failed)))
      then t == s.(allowances := s.allowances[a := s.allowances[a].(status := status)])
      else t == s
  {
    if a in s.allowances {
      assert s.allowances[a := s.allowances[a]] == s.allowances;
    }
  }

  // ---------------------------------------------------------------- leaving service

  /** The consume that spends the allowance's last unit. */
  predicate Exhausts(s: State, op: Operation, a: Address)
    requires a in s.allowances
  {
    && op.Finish? && op.consumed
    && op.id in s.reservations && s.reservations[op.id].status == Reserved && s.reservations[op.id].allowance == a
    && s.allowances[a].spentAtomic + s.reservations[op.id].amountAtomic == s.allowances[a].maxAtomic
  }

  /** Exactly these operations take an allowance in service out of it. */
  lemma LeavesServiceExactly(s: State, op: Operation, a: Address)
    requires a in s.allowances && (s.allowances[a].status == Active || s.allowances[a].status == Unknown)
    ensures var row := s.allowances[a];
      Unusable(Apply(s, op), a) <==>
        || (op == BeginRevocation(row.owner, a) && row.status == Active)
        || (op.Revoke? && op.owner == row.owner && op.address == a && row.revokedAt == None)
        || op == Observe(a, Failed)
        || Exhausts(s, op, a)
        || op == Delete(row.owner, a)
        || (op.Save? && op.address == a && op.record.owner == row.owner && AmountsOk(SavedRow(s, a, op.record))
            && op.record.status.Some? && op.record.status.value != Active && op.record.status.value != Unknown)
  {
  }

  /**
    An owner's revocation of an allowance in service stops it: from its first step, and until an
    operation reopens it, no reserve succeeds and spending stays within what was spent or held.
   */
  lemma RevocationStops(s: State, revocation: Operation, ops: seq<Operation>, a: Address)
    requires Inv(s) && a in s.allowances && s.allowances[a].revokedAt == None
    requires var owner := s.allowances[a].owner;
      || (revocation == BeginRevocation(owner, a) && s.allowances[a].status == Active)
      || (revocation.Revoke? && revocation.owner == owner && revocation.address == a)
    requires !ReopenedIn(Apply(s, revocation), ops, a)
    ensures var t := Apply(s, revocation);
      && (forall i :: 0 <= i < |ops| && Accepted(Run(t, ops[..i]), ops[i]) ==> ops[i].request.allowance != a)
      && Unusable(Run(t, ops), a)
      && CommittedTo(Run(t, ops), a) <= CommittedTo(s, a)
  {
    ApplyKeeps(s, revocation);
    FrozenForever(Apply(s, revocation), ops, a);
  }
}
