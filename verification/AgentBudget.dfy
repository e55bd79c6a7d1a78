/** The budget guard in front of the ledger, and how its policy relates to the evaluator's. */
module AgentBudget {
  import opened Outcomes
  import opened BudgetLedger
  import opened LedgerInvariants
  import opened LedgerHistory
  import opened SpendPolicy
  import opened StableJson
  import opened JsonCanonical
  import PostgresLedger

  const RESERVATION_WINDOW: int := 5 * 60_000

  datatype GuardRefusal = PolicyRefused(code: Code) | LedgerRefused(error: ReserveError)

  /** The ledger request of an accepted guard call. */
  function SpendRequestFor(v: View, q: Request, paymentKey: string, reservationId: string): SpendRequest {
    var limit := q.now + RESERVATION_WINDOW;
    var expiresAt := if v.expiresAt <= limit then v.expiresAt else limit;
    SpendRequest(reservationId, v.address, paymentKey, q.amountAtomic, expiresAt)
  }

  function PaymentKey(fingerprint: string -> string, collate: Collation, payload: Json): string {
    fingerprint(StableText(collate, payload))
  }

  class AgentBudgetGuard {
    const authorization: View
    const delegate: string
    const store: PostgresLedger.PostgresStore
    const fingerprint: string -> string
    const collate: Collation

    constructor (authorization: View, delegate: string, store: PostgresLedger.PostgresStore,
                 fingerprint: string -> string, collate: Collation)
      requires ViewValid(authorization)
      ensures this.authorization == authorization && this.delegate == delegate && this.store == store
      ensures this.fingerprint == fingerprint && this.collate == collate
    {
      this.authorization, this.delegate, this.store := authorization, delegate, store;
      this.fingerprint, this.collate := fingerprint, collate;
    }

    /**
      A policy refusal never reaches the store; past the policy, the ledger decides. The delegate is the
      guard's own.
     */
    method Reserve(q: Request, payload: Json, reservationId: string, calledAt: int, checkedAt: int)
      returns (result: Result<string, GuardRefusal>)
      modifies store
      ensures var key := PaymentKey(fingerprint, collate, payload);
        var request := SpendRequestFor(authorization, q, key, reservationId);
        var operation := BudgetLedger.Reserve(request, calledAt, checkedAt);
        var code := GuardCode(authorization, q.(delegate := delegate));
        if code != Authorized
        then result == Err(PolicyRefused(code)) && store.Value() == old(store.Value())
        else
          && store.Value() == Apply(old(store.Value()), operation)
          && (result == Ok(reservationId) <==> Accepted(old(store.Value()), operation))
          && (result.Ok? || (result.error.LedgerRefused? && store.Value() == old(store.Value())))
    {
      var code := GuardCode(authorization, q.(delegate := delegate));
      if code != Authorized {
        return Err(PolicyRefused(code));
      }
      var request := SpendRequestFor(authorization, q, PaymentKey(fingerprint, collate, payload), reservationId);
      var reserved := store.ReserveAllowanceSpend(request, calledAt, checkedAt);
      match reserved
      case Ok(_) => return Ok(reservationId);
      case Err(error) => return Err(LedgerRefused(error));
    }

    method Consume(reservationId: string) returns (done: bool)
      modifies store
      ensures store.Value() == Apply(old(store.Value()), Finish(reservationId, true))
      ensures done <==> Finishable(old(store.Value()), reservationId)
    {
      done := store.FinishAllowanceReservation(reservationId, true);
    }

    method Release(reservationId: string) returns (done: bool)
      modifies store
      ensures store.Value() == Apply(old(store.Value()), Finish(reservationId, false))
      ensures done <==> Finishable(old(store.Value()), reservationId)
    {
      done := store.FinishAllowanceReservation(reservationId, false);
    }
  }

  /**
    The two implementations of the policy accept the same requests, except that the evaluator does
    not look at a status of expired; an authorization leaves a nonnegative, exact remainder, and for
    an active view even the refusal codes coincide.
   */
  lemma PoliciesAgree(v: View, q: Request)
    requires ViewValid(v)
    ensures GuardCode(v, q) == Authorized <==> EvaluateAgentSpend(v, q).code == Authorized && v.status != Expired
    ensures v.status == Active ==> EvaluateAgentSpend(v, q).code == GuardCode(v, q)
    ensures EvaluateAgentSpend(v, q).code == Authorized ==>
      EvaluateAgentSpend(v, q).remainingAtomic == v.aggregateLimitAtomic - v.spentAtomic - q.amountAtomic >= 0
    ensures EvaluateAgentSpend(v, q).remainingAtomic >= 0
  {
  }

  /** The disagreement is real: an expired status with time left is authorized by one and not the other. */
  lemma ExpiredStatusDisagreement(v: View, q: Request)
    requires ViewValid(v) && GuardCode(v, q) == Authorized
    ensures var w := v.(status := Expired);
      && ViewValid(w) && q.now < w.expiresAt
      && EvaluateAgentSpend(w, q).code == Authorized
      && GuardCode(w, q) == StatusRejected(Expired)
  {
  }

  /**
    A reservation the guard asks for lives at most five minutes and never past the authorization,
    and the ledger calls it invalid exactly when the store's clock has already reached its expiry.
   */
  lemma ReservationWindow(v: View, q: Request, key: string, id: string, calledAt: int)
    requires GuardCode(v, q) == Authorized
    ensures var r := SpendRequestFor(v, q, key, id);
      && r.allowance == v.address && r.amountAtomic == q.amountAtomic && r.paymentKey == key && r.reservationId == id
      && q.now < r.expiresAt <= v.expiresAt && r.expiresAt <= q.now + 300_000
      && (RequestInvalid(r, calledAt) <==> v.expiresAt <= calledAt || q.now + 300_000 <= calledAt)
  {
  }

  /**
    Payloads equal up to key order claim one slot: once one of them holds a reservation, and until
    that allowance is deleted, the other is refused by every guard whatever has happened since.
   */
  lemma OneSlotPerMeaning(
    s: State, fingerprint: string -> string, collate: Collation, p1: Json, p2: Json,
    first: Operation, ops: seq<Operation>, again: Operation)
    requires WellFormed(p1) && WellFormed(p2) && Untied(collate, p1) && Meaning(p1) == Meaning(p2)
    requires Inv(s) && Accepted(s, first) && first.request.paymentKey == PaymentKey(fingerprint, collate, p1)
    requires again.Reserve? && again.request.paymentKey == PaymentKey(fingerprint, collate, p2)
    requires forall op :: op in ops && op.Delete? ==> op.address != first.request.allowance
    ensures !Accepted(Run(Apply(s, first), ops), again)
  {
    StableTextDecidesMeaning(collate, p1, p2);
    ClaimedOnce(s, first, ops, again);
  }

  /** With a fingerprint that separates texts, different payloads never share a slot. */
  lemma KeysMatchMeaning(fingerprint: string -> string, collate: Collation, p1: Json, p2: Json)
    requires WellFormed(p1) && WellFormed(p2) && Untied(collate, p1)
    requires forall s, t :: fingerprint(s) == fingerprint(t) ==> s == t
    ensures PaymentKey(fingerprint, collate, p1) == PaymentKey(fingerprint, collate, p2) <==> Meaning(p1) == Meaning(p2)
  {
    StableTextDecidesMeaning(collate, p1, p2);
  }

  // ---------------------------------------------------------------- the hosted view of a ledger row

  /** The status shown to the owner: revocation and expiry come before the stored status. */
  function HostedStatus(row: Allowance, now: int): AllowanceStatus {
    if row.revokedAt.Some? then Revoked else if row.expiresAt <= now then Expired else row.status
  }

  /** A revocation shows first, then an expiry that has passed, and then the status as stored. */
  lemma HostedStatusExactly(row: Allowance, now: int, described: View)
    ensures var shown := HostedView(row, now, described);
      && (row.revokedAt != None ==> shown.status == Revoked)
      && (row.revokedAt == None && row.expiresAt <= now ==> shown.status == Expired)
      && (row.revokedAt == None && now < row.expiresAt ==> shown.status == row.status)
      && shown.spentAtomic == row.spentAtomic && shown.aggregateLimitAtomic == row.maxAtomic
      && shown.perRequestLimitAtomic == row.perRequestAtomic && shown.expiresAt == row.expiresAt
      && RemainingCapacity(row) + row.spentAtomic + row.reservedAtomic == row.maxAtomic
  {
  }

  /** The row's amounts, expiry, status and revocation laid over the descriptive fields of a view. */
  function HostedView(row: Allowance, now: int, described: View): View {
    described.(
      perRequestLimitAtomic := row.perRequestAtomic, aggregateLimitAtomic := row.maxAtomic,
      spentAtomic := row.spentAtomic, expiresAt := row.expiresAt, status := HostedStatus(row, now),
      revocationTransaction := row.revocationSignature)
  }

  /**
    Whatever the history, the hosted remaining capacity of a row is at least zero, and its view passes
    the schema exactly when it starts before it ends and a revocation has left its transaction.
   */
  lemma HostedViewValid(ops: seq<Operation>, a: Address, now: int, described: View)
    requires forall op :: op in ops ==> SavesActive(op)
    requires a in Run(EMPTY, ops).allowances
    ensures var row := Run(EMPTY, ops).allowances[a];
      && RemainingCapacity(row) >= 0
      && (ViewValid(HostedView(row, now, described)) <==>
            described.startsAt < row.expiresAt && (row.revokedAt.Some? ==> row.revocationSignature.Some?))
  {
    ReachableIsSound(ops, a);
    RunKeeps(EMPTY, ops);
    StatusMeansWhatItSays(ops, a);
    assert AmountsOk(Run(EMPTY, ops).allowances[a]);
  }

  /**
    The guard's own limit check uses the view it was built with, so it alone does not bound spending:
    the ledger may refuse what the guard accepts, and then only for a row that has moved on since.
   */
  lemma GuardThenLedger(s: State, v: View, q: Request, key: string, id: string, calledAt: int, checkedAt: int)
    requires Inv(s) && v.address in s.allowances && GuardCode(v, q) == Authorized
    requires var row := s.allowances[v.address];
      row.perRequestAtomic == v.perRequestLimitAtomic && row.maxAtomic == v.aggregateLimitAtomic
      && row.expiresAt == v.expiresAt
    requires !KeyTaken(s, key) && id !in s.reservations && calledAt < SpendRequestFor(v, q, key, id).expiresAt
    ensures var row := s.allowances[v.address];
      Accepted(s, BudgetLedger.Reserve(SpendRequestFor(v, q, key, id), calledAt, checkedAt)) <==>
        row.status == Active && checkedAt < v.expiresAt
        && q.amountAtomic <= v.aggregateLimitAtomic - row.spentAtomic - row.reservedAtomic
  {
    AcceptedExactly(s, SpendRequestFor(v, q, key, id), calledAt, checkedAt);
  }
}
