/** Confirming a settlement against the chain: a bounded retry and the balance changes it accepts. */
module SettlementValidation {
  import opened Outcomes

  datatype Balance = Balance(mint: string, owner: Option<string>, amount: nat)

  datatype RpcAnswer =
    | Unusable                                             // transport or format error
    | NotFound
    | Found(failed: bool, before: seq<Balance>, after: seq<Balance>)

  datatype Transfer = Transfer(payer: string, payTo: string, mint: string, amountAtomic: int)

  datatype Refusal = RpcError | TransactionNotFound | TransactionFailed | TransferMismatch | PayerMismatch

  function Held(balances: seq<Balance>, owner: string, mint: string): int {
    if balances == [] then 0
    else
      var last := balances[|balances| - 1];
      Held(balances[..|balances| - 1], owner, mint)
      + (if last.owner == Some(owner) && last.mint == mint then last.amount else 0)
  }

  function OwnerMintDelta(before: seq<Balance>, after: seq<Balance>, owner: string, mint: string): int {
    Held(after, owner, mint) - Held(before, owner, mint)
  }

  /** The recipient gained exactly the amount and the payer lost at least it. */
  predicate Settles(a: RpcAnswer, t: Transfer) {
    && a.Found? && !a.failed
    && OwnerMintDelta(a.before, a.after, t.payTo, t.mint) == t.amountAtomic
    && OwnerMintDelta(a.before, a.after, t.payer, t.mint) <= -t.amountAtomic
  }

  /** The reduction over balances, as a loop. */
  method SumBalances(balances: seq<Balance>, owner: string, mint: string) returns (total: int)
    ensures total == Held(balances, owner, mint)
  {
    total := 0;
    for k := 0 to |balances|
      invariant total == Held(balances[..k], owner, mint)
    {
      assert balances[..k + 1][..k] == balances[..k];
      if balances[k].owner == Some(owner) && balances[k].mint == mint {
        total := total + balances[k].amount;
      }
    }
    assert balances[..|balances|] == balances;
  }

  function FirstAnswer(answers: seq<RpcAnswer>): (k: nat)
    ensures k <= |answers|
    ensures forall i :: 0 <= i < k ==> answers[i].NotFound?
    ensures k < |answers| ==> !answers[k].NotFound?
  {
    if answers == [] || !answers[0].NotFound? then 0 else 1 + FirstAnswer(answers[1..])
  }

  /**
    Asks up to attempts times while the transaction is not found, then judges the first answer. With
    no attempts at all nothing is asked and nothing is refused.
   */
  method Validate(t: Transfer, attempts: nat, answers: seq<RpcAnswer>) returns (refusal: Option<Refusal>)
    requires |answers| == attempts
    ensures var k := FirstAnswer(answers);
      refusal.None? <==> attempts == 0 || (k < attempts && Settles(answers[k], t))
    ensures refusal == Some(TransactionNotFound) <==> attempts > 0 && FirstAnswer(answers) == attempts
    ensures var k := FirstAnswer(answers); k < attempts ==>
      match answers[k]
      case Unusable => refusal == Some(RpcError)
      case NotFound => false
      case Found(failed, before, after) =>
        var gained := Held(after, t.payTo, t.mint) - Held(before, t.payTo, t.mint);
        var lost := Held(before, t.payer, t.mint) - Held(after, t.payer, t.mint);
        refusal ==
          if failed then Some(TransactionFailed)
          else if gained != t.amountAtomic then Some(TransferMismatch)
          else if lost < t.amountAtomic then Some(PayerMismatch)
          else None
  {
    for attempt := 0 to attempts
      invariant FirstAnswer(answers) >= attempt
      invariant attempt > 0 ==> attempt < attempts
    {
      match answers[attempt] {
        case Unusable => return Some(RpcError);
        case NotFound =>
          if attempt + 1 == attempts {
            return Some(TransactionNotFound);
          }
        case Found(failed, before, after) =>
          if failed {
            return Some(TransactionFailed);
          }
          var received := SumBalances(after, t.payTo, t.mint);
          var held := SumBalances(before, t.payTo, t.mint);
          if received - held != t.amountAtomic {
            return Some(TransferMismatch);
          }
          var left := SumBalances(after, t.payer, t.mint);
          var had := SumBalances(before, t.payer, t.mint);
          if left - had > -t.amountAtomic {
            return Some(PayerMismatch);
          }
          return None;
      }
    }
    return None;
  }

  /** A payment to oneself is never a settlement. */
  lemma SelfPaymentNeverSettles(a: RpcAnswer, t: Transfer)
    requires t.payer == t.payTo && t.amountAtomic > 0
    ensures !Settles(a, t)
  {
  }

  /** Splitting one account's balance over several entries changes nothing. */
  lemma {:induction false} HeldConcat(xs: seq<Balance>, ys: seq<Balance>, owner: string, mint: string)
    ensures Held(xs + ys, owner, mint) == Held(xs, owner, mint) + Held(ys, owner, mint)
  {
    if ys == [] {
      assert xs + ys == xs;
    } else {
      assert (xs + ys)[..|xs + ys| - 1] == xs + ys[..|ys| - 1];
      HeldConcat(xs, ys[..|ys| - 1], owner, mint);
    }
  }

  /** One entry counts with its full amount, exactly for its own owner and mint. */
  lemma HeldOne(b: Balance, owner: string, mint: string)
    ensures Held([b], owner, mint) == if b.owner == Some(owner) && b.mint == mint then b.amount else 0
  {
    assert [b][..0] == [];
  }

  /** The balances of the payer and the recipient, in one mint. */
  function Pair(t: Transfer, payerHas: nat, recipientHas: nat): seq<Balance> {
    [Balance(t.mint, Some(t.payer), payerHas), Balance(t.mint, Some(t.payTo), recipientHas)]
  }

  /** A transfer between two accounts settles exactly when it moves the amount to the recipient from the payer. */
  lemma TransferSettlesExactly(t: Transfer, paid: nat, got: nat, payerHad: nat, recipientHad: nat)
    requires t.payer != t.payTo && paid <= payerHad
    ensures var before, after := Pair(t, payerHad, recipientHad), Pair(t, payerHad - paid, recipientHad + got);
      Settles(Found(false, before, after), t) <==> got == t.amountAtomic && paid >= t.amountAtomic
  {
    var before, after := Pair(t, payerHad, recipientHad), Pair(t, payerHad - paid, recipientHad + got);
    HeldTwo(before, t.payer, t.mint);
    HeldTwo(before, t.payTo, t.mint);
    HeldTwo(after, t.payer, t.mint);
    HeldTwo(after, t.payTo, t.mint);
  }

  lemma HeldTwo(balances: seq<Balance>, owner: string, mint: string)
    requires |balances| == 2
    ensures Held(balances, owner, mint) == Held([balances[0]], owner, mint) + Held([balances[1]], owner, mint)
    ensures forall b :: b in balances ==>
      Held([b], owner, mint) == if b.owner == Some(owner) && b.mint == mint then b.amount else 0
  {
    assert balances == [balances[0]] + [balances[1]];
    HeldConcat([balances[0]], [balances[1]], owner, mint);
    forall b | b in balances
      ensures Held([b], owner, mint) == if b.owner == Some(owner) && b.mint == mint then b.amount else 0
    {
      HeldOne(b, owner, mint);
    }
  }
}
