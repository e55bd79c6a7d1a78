/** Releasing expired reservations: which rows one sweep takes, and how sweeps drain the backlog. */
module LedgerSweep {
  import opened Sequences
  import opened BudgetLedger
  import opened LedgerInvariants

  function ExpiredRows(s: State, now: int): set<ReservationId> {
    set id | id in s.reservations && HeldPast(s, id, now)
  }

  function Min(a: int, b: int): int {
    if a <= b then a else b
  }

  predicate NoLater(rows: map<ReservationId, Reservation>, x: ReservationId, y: ReservationId) {
    x in rows && y in rows && rows[x].expiresAt <= rows[y].expiresAt
  }

  /** ids are distinct rows of all, oldest first, and nothing left over is older than any of them. */
  predicate OldestOf(rows: map<ReservationId, Reservation>, all: set<ReservationId>, ids: seq<ReservationId>) {
    && Distinct(ids)
    && (forall id :: id in ids ==> id in all)
    && (forall i, j :: 0 <= i < j < |ids| ==> NoLater(rows, ids[i], ids[j]))
    && (forall i, id :: 0 <= i < |ids| && id in all && id !in ids ==> NoLater(rows, ids[i], id))
  }

  /** The rows the sweep's query may return: the oldest expired ones, up to the limit, oldest first. */
  predicate SelectsOldest(s: State, ids: seq<ReservationId>, now: int) {
    && OldestOf(s.reservations, ExpiredRows(s, now), ids)
    && |ids| == Min(SWEEP_LIMIT, |ExpiredRows(s, now)|)
  }

  /** A sweep removes exactly the rows it took from the backlog. */
  lemma SweepShrinks(s: State, ids: seq<ReservationId>, now: int)
    requires SelectsOldest(s, ids, now)
    ensures Sweepable(s, ids, now)
    ensures ExpiredRows(CleanupState(s, ids, now), now) == ExpiredRows(s, now) - (set id | id in ids)
    ensures |ExpiredRows(CleanupState(s, ids, now), now)| == |ExpiredRows(s, now)| - |ids|
  {
    var t := CleanupState(s, ids, now);
    var taken := set id | id in ids;
    forall id ensures id in ExpiredRows(t, now) <==> id in ExpiredRows(s, now) && id !in taken {}
    DistinctCount(ids);
    assert taken <= ExpiredRows(s, now);
  }

  /** A series of sweeps at one fixed time, each taking what its query returned. */
  ghost predicate Drains(s: State, batches: seq<seq<ReservationId>>, now: int)
    decreases |batches|
  {
    batches != [] ==>
      SelectsOldest(s, batches[0], now) && Drains(CleanupState(s, batches[0], now), batches[1..], now)
  }

  function AfterSweeps(s: State, batches: seq<seq<ReservationId>>, now: int): State
    decreases |batches|
  {
    if batches == [] then s else AfterSweeps(CleanupState(s, batches[0], now), batches[1..], now)
  }

  /**
    However ties are ordered, k sweeps at one time leave exactly the backlog minus k full batches,
    so enough of them leave no expired reservation held.
   */
  lemma {:induction false} SweepsDrain(s: State, batches: seq<seq<ReservationId>>, now: int)
    requires Drains(s, batches, now)
    ensures var left := |ExpiredRows(s, now)| - 500 * |batches|;
      |ExpiredRows(AfterSweeps(s, batches, now), now)| == if left <= 0 then 0 else left
    ensures 500 * |batches| >= |ExpiredRows(s, now)| ==>
      forall id :: id in AfterSweeps(s, batches, now).reservations ==> !HeldPast(AfterSweeps(s, batches, now), id, now)
    decreases |batches|
  {
    if batches != [] {
      SweepShrinks(s, batches[0], now);
      SweepsDrain(CleanupState(s, batches[0], now), batches[1..], now);
    }
    var t := AfterSweeps(s, batches, now);
    if |ExpiredRows(t, now)| == 0 {
      forall id | id in t.reservations ensures !HeldPast(t, id, now) {
        assert HeldPast(t, id, now) ==> id in ExpiredRows(t, now);
      }
    }
  }

  /** What one sweep does to each allowance row: only the reserved amount moves, by its own released rows. */
  lemma SweepAccounts(s: State, ids: seq<ReservationId>, now: int, a: Address)
    requires Inv(s) && SelectsOldest(s, ids, now) && a in s.allowances
    ensures var t := CleanupState(s, ids, now); var row := s.allowances[a];
      && a in t.allowances
      && t.allowances[a] == row.(reservedAtomic := t.allowances[a].reservedAtomic)
      && row.reservedAtomic - t.allowances[a].reservedAtomic
         == Total(t.reservations, a, Released) - Total(s.reservations, a, Released)
      && Total(t.reservations, a, Consumed) == Total(s.reservations, a, Consumed)
  {
    SweepShrinks(s, ids, now);
    SweepIsReleases(s, ids, now);
    ReleaseEachAccounts(s, ids, a);
    ReleaseEachKeeps(s, ids);
    assert RowConserved(s, a) && RowConserved(ReleaseEach(s, ids), a);
  }

  lemma {:induction false} ReleaseEachAccounts(s: State, ids: seq<ReservationId>, a: Address)
    requires Inv(s) && a in s.allowances
    ensures var t := ReleaseEach(s, ids);
      && a in t.allowances
      && s.allowances[a].reservedAtomic - t.allowances[a].reservedAtomic
         == Total(t.reservations, a, Released) - Total(s.reservations, a, Released)
      && t.allowances[a].spentAtomic == s.allowances[a].spentAtomic
  {
    if ids != [] {
      var init, last := ids[..|ids| - 1], ids[|ids| - 1];
      ReleaseEachAccounts(s, init, a);
      var mid := ReleaseEach(s, init);
      if Finishable(mid, last) {
        TotalPut(mid.reservations, last, mid.reservations[last].(status := Released), a, Released);
      }
    }
  }

  /** What a sweep takes, in the rows' own fields: held rows past their expiry, the oldest ones first, at most 500. */
  lemma TakenExactly(s: State, ids: seq<ReservationId>, now: int)
    requires SelectsOldest(s, ids, now)
    ensures forall i :: 0 <= i < |ids| ==>
      ids[i] in s.reservations && s.reservations[ids[i]].status == Reserved && s.reservations[ids[i]].expiresAt <= now
    ensures forall i, j :: 0 <= i < j < |ids| ==>
      ids[i] != ids[j] && s.reservations[ids[i]].expiresAt <= s.reservations[ids[j]].expiresAt
    ensures forall i, id ::
      (0 <= i < |ids| && id in s.reservations && id !in ids
       && s.reservations[id].status == Reserved && s.reservations[id].expiresAt <= now)
      ==> s.reservations[ids[i]].expiresAt <= s.reservations[id].expiresAt
    ensures var due := set id | id in s.reservations
        && s.reservations[id].status == Reserved && s.reservations[id].expiresAt <= now;
      |ids| == if |due| <= 500 then |due| else 500
  {
    assert ExpiredRows(s, now) == set id | id in s.reservations
      && s.reservations[id].status == Reserved && s.reservations[id].expiresAt <= now;
    forall i | 0 <= i < |ids| ensures ids[i] in ExpiredRows(s, now) {
      assert ids[i] in ids;
    }
    forall i, id | 0 <= i < |ids| && id in s.reservations && id !in ids
        && s.reservations[id].status == Reserved && s.reservations[id].expiresAt <= now
      ensures s.reservations[ids[i]].expiresAt <= s.reservations[id].expiresAt
    {
      assert id in ExpiredRows(s, now) && NoLater(s.reservations, ids[i], id);
    }
    forall i, j | 0 <= i < j < |ids| ensures s.reservations[ids[i]].expiresAt <= s.reservations[ids[j]].expiresAt {
      assert NoLater(s.reservations, ids[i], ids[j]);
    }
  }
}
