/**
  The spend policy, implemented twice: the guard that runs inside the payment server and the
  evaluator offered to agents. Both start from a schema-valid authorization view.
 */
module SpendPolicy {
  import opened Outcomes
  import opened BudgetLedger

  datatype Commitment = Processed | Confirmed | Finalized | UnknownCommitment

  datatype View = View(
    address: string,
    network: string,
    owner: string,
    delegate: string,
    assetMint: string,
    recipientScope: Option<string>,
    resourceScopes: seq<string>,
    perRequestLimitAtomic: int,
    aggregateLimitAtomic: int,
    spentAtomic: int,
    startsAt: int,
    expiresAt: int,
    status: AllowanceStatus,
    revocationTransaction: Option<string>,
    observedCommitment: Commitment)

  /** The cross-field rules of the view's schema. */
  predicate ViewValid(v: View) {
    && 0 < v.perRequestLimitAtomic <= v.aggregateLimitAtomic
    && 0 <= v.spentAtomic <= v.aggregateLimitAtomic
    && v.startsAt < v.expiresAt
    && (v.status == Exhausted ==> v.spentAtomic == v.aggregateLimitAtomic)
    && (v.status == Revoked ==> v.revocationTransaction.Some?)
  }

  /** One request, with its resource already normalised (the empty string when it is not acceptable). */
  datatype Request = Request(
    payer: string,
    delegate: string,
    network: string,
    assetMint: string,
    recipient: string,
    resource: string,
    amountAtomic: int,
    now: int)

  datatype Code =
    | Authorized
    | FinalityRequired
    | StatusRejected(status: AllowanceStatus)
    | OwnerMismatch
    | DelegateMismatch
    | NetworkMismatch
    | AssetMismatch
    | RecipientMismatch
    | ResourceOutOfScope
    | AuthorizationExpired
    | AuthorizationNotStarted
    | AmountInvalid
    | PerRequestLimitExceeded
    | AggregateLimitExceeded

  predicate OutsideRecipientScope(v: View, recipient: string) {
    v.recipientScope.Some? && v.recipientScope.value != "" && v.recipientScope.value != recipient
  }

  /** The guard's checks, in its order. */
  function GuardCode(v: View, q: Request): Code {
    if v.observedCommitment != Finalized || v.status == Unknown then FinalityRequired
    else if v.status != Active then StatusRejected(v.status)
    else if v.owner != q.payer then OwnerMismatch
    else if v.delegate != q.delegate then DelegateMismatch
    else if v.network != q.network then NetworkMismatch
    else if v.assetMint != q.assetMint then AssetMismatch
    else if OutsideRecipientScope(v, q.recipient) then RecipientMismatch
    else if q.resource !in v.resourceScopes then ResourceOutOfScope
    else if v.expiresAt <= q.now then AuthorizationExpired
    else if v.startsAt > q.now then AuthorizationNotStarted
    else if q.amountAtomic <= 0 then AmountInvalid
    else if q.amountAtomic > v.perRequestLimitAtomic then PerRequestLimitExceeded
    else if v.spentAtomic + q.amountAtomic > v.aggregateLimitAtomic then AggregateLimitExceeded
    else Authorized
  }

  datatype Decision = Decision(code: Code, remainingAtomic: int)

  /** The evaluator's checks, in its order; a refusal reports what is left unspent. */
  function EvaluateAgentSpend(v: View, q: Request): Decision {
    var remaining := v.aggregateLimitAtomic - v.spentAtomic;
    if v.observedCommitment != Finalized || v.status == Unknown || v.status == Pending
    then Decision(FinalityRequired, remaining)
    else if v.status == Revoked || v.status == RevocationPending then Decision(StatusRejected(Revoked), remaining)
    else if v.status == Failed then Decision(StatusRejected(Failed), remaining)
    else if v.owner != q.payer then Decision(OwnerMismatch, remaining)
    else if v.delegate != q.delegate then Decision(DelegateMismatch, remaining)
    else if v.network != q.network then Decision(NetworkMismatch, remaining)
    else if v.assetMint != q.assetMint then Decision(AssetMismatch, remaining)
    else if OutsideRecipientScope(v, q.recipient) then Decision(RecipientMismatch, remaining)
    else if q.resource !in v.resourceScopes then Decision(ResourceOutOfScope, remaining)
    else if v.expiresAt <= q.now then Decision(AuthorizationExpired, remaining)
    else if v.startsAt > q.now then Decision(AuthorizationNotStarted, remaining)
    else if q.amountAtomic <= 0 then Decision(AmountInvalid, remaining)
    else if q.amountAtomic > v.perRequestLimitAtomic then Decision(PerRequestLimitExceeded, remaining)
    else if q.amountAtomic > remaining || v.status == Exhausted then Decision(AggregateLimitExceeded, remaining)
    else Decision(Authorized, remaining - q.amountAtomic)
  }

  // ---------------------------------------------------------------- what the two policies mean

  /** Who, what, where, when and how much: what both policies ask of a request. */
  predicate InScope(v: View, q: Request) {
    && q.payer == v.owner && q.delegate == v.delegate && q.network == v.network && q.assetMint == v.assetMint
    && (v.recipientScope == None || v.recipientScope.value == "" || v.recipientScope.value == q.recipient)
    && q.resource in v.resourceScopes
    && v.startsAt <= q.now < v.expiresAt
    && 0 < q.amountAtomic <= v.perRequestLimitAtomic
    && v.spentAtomic + q.amountAtomic <= v.aggregateLimitAtomic
  }

  /** The requests each policy authorizes, in the fields of the view and the request. */
  lemma AuthorizedExactly(v: View, q: Request)
    ensures GuardCode(v, q) == Authorized <==> v.observedCommitment == Finalized && v.status == Active && InScope(v, q)
    ensures EvaluateAgentSpend(v, q).code == Authorized <==>
      v.observedCommitment == Finalized && (v.status == Active || v.status == Expired) && InScope(v, q)
  {
  }

  /** A rule of a policy, and the refusal of a request that breaks it. */
  datatype Rule = Rule(holds: bool, refusal: Code)

  predicate FirstBroken(rules: seq<Rule>, k: nat) {
    k < |rules| && !rules[k].holds && forall i :: 0 <= i < k ==> rules[i].holds
  }

  function GuardRules(v: View, q: Request): seq<Rule> {
    [Rule(v.observedCommitment == Finalized && v.status != Unknown, FinalityRequired),
     Rule(v.status == Active, StatusRejected(v.status)),
     Rule(q.payer == v.owner, OwnerMismatch),
     Rule(q.delegate == v.delegate, DelegateMismatch),
     Rule(q.network == v.network, NetworkMismatch),
     Rule(q.assetMint == v.assetMint, AssetMismatch),
     Rule(
       v.recipientScope == None || v.recipientScope.value == "" || v.recipientScope.value == q.recipient,
       RecipientMismatch),
     Rule(q.resource in v.resourceScopes, ResourceOutOfScope),
     Rule(q.now < v.expiresAt, AuthorizationExpired),
     Rule(v.startsAt <= q.now, AuthorizationNotStarted),
     Rule(0 < q.amountAtomic, AmountInvalid),
     Rule(q.amountAtomic <= v.perRequestLimitAtomic, PerRequestLimitExceeded),
     Rule(v.spentAtomic + q.amountAtomic <= v.aggregateLimitAtomic, AggregateLimitExceeded)]
  }

  function EvaluatorRules(v: View, q: Request): seq<Rule> {
    [Rule(v.observedCommitment == Finalized && v.status != Unknown && v.status != Pending, FinalityRequired),
     Rule(v.status != Revoked && v.status != RevocationPending, StatusRejected(Revoked)),
     Rule(v.status != Failed, StatusRejected(Failed)),
     Rule(q.payer == v.owner, OwnerMismatch),
     Rule(q.delegate == v.delegate, DelegateMismatch),
     Rule(q.network == v.network, NetworkMismatch),
     Rule(q.assetMint == v.assetMint, AssetMismatch),
     Rule(
       v.recipientScope == None || v.recipientScope.value == "" || v.recipientScope.value == q.recipient,
       RecipientMismatch),
     Rule(q.resource in v.resourceScopes, ResourceOutOfScope),
     Rule(q.now < v.expiresAt, AuthorizationExpired),
     Rule(v.startsAt <= q.now, AuthorizationNotStarted),
     Rule(0 < q.amountAtomic, AmountInvalid),
     Rule(q.amountAtomic <= v.perRequestLimitAtomic, PerRequestLimitExceeded),
     Rule(v.spentAtomic + q.amountAtomic <= v.aggregateLimitAtomic && v.status != Exhausted, AggregateLimitExceeded)]
  }

  /** All rules before the first broken one hold, one by one. */
  lemma HeldBefore(rules: seq<Rule>, k: nat)
    requires FirstBroken(rules, k) && |rules| <= 14
    ensures k > 0 ==> rules[0].holds
    ensures k > 1 ==> rules[1].holds
    ensures k > 2 ==> rules[2].holds
    ensures k > 3 ==> rules[3].holds
    ensures k > 4 ==> rules[4].holds
    ensures k > 5 ==> rules[5].holds
    ensures k > 6 ==> rules[6].holds
    ensures k > 7 ==> rules[7].holds
    ensures k > 8 ==> rules[8].holds
    ensures k > 9 ==> rules[9].holds
    ensures k > 10 ==> rules[10].holds
    ensures k > 11 ==> rules[11].holds
    ensures k > 12 ==> rules[12].holds
    ensures k == 0 || k == 1 || k == 2 || k == 3 || k == 4 || k == 5 || k == 6
         || k == 7 || k == 8 || k == 9 || k == 10 || k == 11 || k == 12 || k == 13
  {
  }

  lemma GuardRefusal(v: View, q: Request, k: nat)
    requires FirstBroken(GuardRules(v, q), k)
    ensures GuardCode(v, q) == GuardRules(v, q)[k].refusal
  {
    var rules := GuardRules(v, q);
    HeldBefore(rules, k);
  }

  lemma EvaluatorRefusal(v: View, q: Request, k: nat)
    requires FirstBroken(EvaluatorRules(v, q), k)
    ensures var left := v.aggregateLimitAtomic - v.spentAtomic;
      EvaluateAgentSpend(v, q) == Decision(EvaluatorRules(v, q)[k].refusal, left)
  {
    var rules := EvaluatorRules(v, q);
    HeldBefore(rules, k);
  }

  /** A request is refused with the code of the first rule it breaks. */
  lemma RefusedByFirstBroken(v: View, q: Request, k: nat)
    ensures FirstBroken(GuardRules(v, q), k) ==> GuardCode(v, q) == GuardRules(v, q)[k].refusal
    ensures FirstBroken(EvaluatorRules(v, q), k) ==>
      EvaluateAgentSpend(v, q) == Decision(EvaluatorRules(v, q)[k].refusal, v.aggregateLimitAtomic - v.spentAtomic)
  {
    if FirstBroken(GuardRules(v, q), k) {
      GuardRefusal(v, q, k);
    }
    if FirstBroken(EvaluatorRules(v, q), k) {
      EvaluatorRefusal(v, q, k);
    }
  }

  /**
    One request's limit is positive and within the whole; an exhausted view has nothing left, and a
    revoked one names its transaction.
   */
  lemma FinalViews(v: View, q: Request)
    requires ViewValid(v)
    ensures 0 < v.perRequestLimitAtomic <= v.aggregateLimitAtomic
    ensures v.status == Exhausted ==> EvaluateAgentSpend(v, q).remainingAtomic == 0
    ensures v.status == Revoked ==> v.revocationTransaction.Some?
    ensures v.status == Exhausted ==> GuardCode(v, q) != Authorized && EvaluateAgentSpend(v, q).code != Authorized
  {
  }
}
