/**
  What the payment server's hooks achieve, not only what they avoid: a settled payment is charged, a
  failed or cancelled one gives its reservation back, and only forgetting or a restart ends that duty.
 */
module HookEffects {
  import opened BudgetLedger
  import opened LedgerInvariants
  import opened LedgerHistory
  import opened LedgerEffects
  import opened PaymentLifecycle

  lemma LedgerDo(h: Server, op: Operation, t: Server)
    requires t.ops == h.ops + [op]
    ensures Ledger(t) == Apply(Ledger(h), op)
  {
    assert t.ops[..|h.ops|] == h.ops;
  }

  /** The row of a held reservation and its allowance after the reservation ended. */
  predicate Ended(s: State, t: State, id: ReservationId, consumed: bool)
    requires id in s.reservations
  {
    var r := s.reservations[id];
    && r.allowance in s.allowances && r.allowance in t.allowances
    && t.reservations == s.reservations[id := r.(status := if consumed then Consumed else Released)]
    && t.allowances[r.allowance].reservedAtomic == s.allowances[r.allowance].reservedAtomic - r.amountAtomic
    && t.allowances[r.allowance].spentAtomic
       == s.allowances[r.allowance].spentAtomic + (if consumed then r.amountAtomic else 0)
  }

  lemma FinishEnds(s: State, id: ReservationId, consumed: bool)
    requires Inv(s) && id in s.reservations && s.reservations[id].status == Reserved
    ensures Ended(s, Apply(s, Finish(id, consumed)), id, consumed)
  {
    FinishEffect(s, id, consumed);
  }

  // ---------------------------------------------------------------- verify

  /** An accepted reserve is committed and remembered for its payload; a refused one leaves the server as it was. */
  lemma VerifyEffect(h: Server, p: Payload, reserve: Operation)
    requires reserve.Reserve? && reserve.request.paymentKey == p.paymentKey
    ensures var id := reserve.request.reservationId; var t := Step(h, VerifyReserve(p, reserve));
      if Accepted(Ledger(h), reserve) then
        var u := Step(t, RememberBudget(p, id));
        && Ledger(u) == Ledger(t) == Apply(Ledger(h), reserve)
        && u.budgets == h.budgets[p := id] && u.owners == h.owners[id := p] && u.payments == h.payments
      else t == h
  {
    if Accepted(Ledger(h), reserve) {
      LedgerDo(h, reserve, Step(h, VerifyReserve(p, reserve)));
    }
  }

  // ---------------------------------------------------------------- settle

  /** The settlement is stored, remembered, and its hook entered. */
  function Settling(h: Server, p: Payload, signature: Signature): Server {
    Step(Step(Step(h, SettleSave(p, signature)), RememberSettled(p, signature)), AfterSettle(p))
  }

  /** A stored settlement that is remembered leaves its hook about to consume what its payload holds. */
  lemma SettleDue(h: Server, p: Payload, signature: Signature)
    requires p in h.budgets && signature !in h.payments
    ensures var t := Settling(h, p, signature);
      && t.payments == h.payments[signature := p] && t.ops == h.ops && t.budgets == h.budgets
      && (p, h.budgets[p], signature) in t.consuming
  {
  }

  /** A replayed signature is refused: nothing is stored, and nothing becomes due. */
  lemma ReplayRefused(h: Server, p: Payload, signature: Signature)
    requires signature in h.payments
    ensures Step(h, SettleSave(p, signature)) == h
  {
  }

  /** Consuming a held reservation charges it to the allowance and ties it to its record. */
  lemma ConsumeEffect(h: Server, p: Payload, id: ReservationId, signature: Signature)
    requires Inv(Ledger(h)) && (p, id, signature) in h.consuming && id in Ledger(h).reservations
    ensures var t := Step(h, Consume(p, id, signature));
      if Ledger(h).reservations[id].status == Reserved
      then Ended(Ledger(h), Ledger(t), id, true) && t.claims == h.claims[id := signature]
      else Ledger(t) == Ledger(h) && t.claims == h.claims
  {
    if Ledger(h).reservations[id].status == Reserved {
      LedgerDo(h, Finish(id, true), Step(h, Consume(p, id, signature)));
      FinishEnds(Ledger(h), id, true);
    }
  }

  /** From a remembered, held reservation and a new signature, the settle hooks charge the payment. */
  lemma SettlementCharges(h: Server, p: Payload, signature: Signature)
    requires Inv(Ledger(h)) && p in h.budgets && signature !in h.payments
    requires StatusIs(Ledger(h), h.budgets[p], Reserved)
    ensures var id := h.budgets[p]; var due := Settling(h, p, signature);
      && Ended(Ledger(h), Ledger(Step(due, Consume(p, id, signature))), id, true)
      && Step(due, Consume(p, id, signature)).claims == due.claims[id := signature]
      && due.payments == h.payments[signature := p]
  {
    SettleDue(h, p, signature);
    ConsumeEffect(Settling(h, p, signature), p, h.budgets[p], signature);
  }

  // ---------------------------------------------------------------- failure and cancellation

  lemma ReleaseEffect(h: Server, p: Payload, id: ReservationId)
    requires Inv(Ledger(h)) && (p, id) in h.releasing && id in Ledger(h).reservations
    ensures var t := Step(h, Release(p, id));
      if Ledger(h).reservations[id].status == Reserved then Ended(Ledger(h), Ledger(t), id, false)
      else Ledger(t) == Ledger(h)
  {
    LedgerDo(h, Finish(id, false), Step(h, Release(p, id)));
    if Ledger(h).reservations[id].status == Reserved {
      FinishEnds(Ledger(h), id, false);
    }
  }

  lemma FailureDue(h: Server, p: Payload)
    requires p in h.budgets
    ensures var t := Step(h, FailOrCancel(p));
      && t.ops == h.ops && t.payments == h.payments && t.budgets == h.budgets && t.claims == h.claims
      && (p, h.budgets[p]) in t.releasing
  {
  }

  /** The failure and cancel hooks give back what their payload holds, and nothing else changes in the ledger. */
  lemma FailureReleases(h: Server, p: Payload)
    requires Inv(Ledger(h)) && p in h.budgets && StatusIs(Ledger(h), h.budgets[p], Reserved)
    ensures var id := h.budgets[p]; var t := Step(Step(h, FailOrCancel(p)), Release(p, id));
      Ended(Ledger(h), Ledger(t), id, false) && StatusIs(Ledger(t), id, Released)
  {
    FailureDue(h, p);
    ReleaseEffect(Step(h, FailOrCancel(p)), p, h.budgets[p]);
  }

  /** Without a remembered reservation these hooks, and the settle hook, have nothing to do. */
  lemma NothingRemembered(h: Server, p: Payload)
    requires p !in h.budgets
    ensures Step(h, FailOrCancel(p)) == h && Step(h, AfterSettle(p)) == h
  {
  }

  /** A release that is due stays due until it is made or the process restarts. */
  lemma ReleaseStaysDue(h: Server, e: Event, p: Payload, id: ReservationId)
    requires (p, id) in h.releasing && e != Release(p, id) && e != Restart
    ensures (p, id) in Step(h, e).releasing
  {
  }

  function Steps(h: Server, events: seq<Event>): Server {
    if events == [] then h else Step(Steps(h, events[..|events| - 1]), events[|events| - 1])
  }

  lemma {:induction false} StepsGood(h: Server, events: seq<Event>)
    requires Good(h)
    ensures Good(Steps(h, events))
  {
    if events != [] {
      StepsGood(h, events[..|events| - 1]);
      StepKeeps(Steps(h, events[..|events| - 1]), events[|events| - 1]);
    }
  }

  lemma {:induction false} StaysDue(h: Server, events: seq<Event>, p: Payload, id: ReservationId)
    requires (p, id) in h.releasing && Release(p, id) !in events && Restart !in events
    ensures (p, id) in Steps(h, events).releasing
  {
    if events != [] {
      var n := |events| - 1;
      assert events[n] in events && forall e :: e in events[..n] ==> e in events;
      StaysDue(h, events[..n], p, id);
      ReleaseStaysDue(Steps(h, events[..n]), events[n], p, id);
    }
  }

  lemma DueIsRow(h: Server, p: Payload, id: ReservationId)
    requires Good(h) && (p, id) in h.releasing
    ensures Inv(Ledger(h)) && id in Ledger(h).reservations
  {
    assert Owns(h, p, id);
  }

  /**
    Whatever other hooks and background operations come between a failure and its release, short of a
    restart, the release leaves the reservation no longer held.
   */
  lemma FailureNeverHolds(h: Server, p: Payload, events: seq<Event>)
    requires Good(h) && p in h.budgets
    requires Release(p, h.budgets[p]) !in events && Restart !in events
    ensures var id := h.budgets[p]; var t := Step(Steps(Step(h, FailOrCancel(p)), events), Release(p, id));
      id in Ledger(t).reservations && Ledger(t).reservations[id].status != Reserved
  {
    var id, due := h.budgets[p], Step(h, FailOrCancel(p));
    StepKeeps(h, FailOrCancel(p));
    FailureDue(h, p);
    StepsGood(due, events);
    StaysDue(due, events, p, id);
    DueIsRow(Steps(due, events), p, id);
    ReleaseEffect(Steps(due, events), p, id);
  }

  // ---------------------------------------------------------------- memory and background

  /** Forgetting ends the hooks' hold on a payload and touches neither ledger nor records. */
  lemma ForgetEffect(h: Server, p: Payload)
    ensures var t := Step(h, Forget(p));
      && p !in t.budgets && (forall q :: q in h.budgets && q != p ==> q in t.budgets && t.budgets[q] == h.budgets[q])
      && t == h.(budgets := t.budgets)
      && Step(t, FailOrCancel(p)) == t && Step(t, AfterSettle(p)) == t
  {
  }

  /** A restart loses what was only in memory, and nothing that was stored. */
  lemma RestartEffect(h: Server)
    ensures var t := Step(h, Restart);
      && Ledger(t) == Ledger(h) && t.payments == h.payments && t.owners == h.owners && t.claims == h.claims
      && t.budgets == map[] && t.settled == map[] && t.reserving == {} && t.saving == {}
      && t.consuming == {} && t.releasing == {}
  {
  }

  /** The sweep, the saves and the status updates of others go straight to the ledger. */
  lemma BackgroundEffect(h: Server, op: Operation)
    requires op.Save? || op.Cleanup? || op.BeginRevocation? || op.Revoke? || op.Observe?
    ensures Ledger(Step(h, Background(op))) == Apply(Ledger(h), op)
  {
    LedgerDo(h, op, Step(h, Background(op)));
  }
}
