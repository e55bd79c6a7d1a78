/** Reconciling confirmed payments against whatever the chain's nodes answer. */
module Finality {
  import opened Outcomes

  type Signature = string

  datatype PaymentStatus = Confirmed | Finalized | Failed

  datatype Level = ProcessedLevel | ConfirmedLevel | FinalizedLevel

  /** A status's error field: null, missing from the answer, or an error. */
  datatype ErrorField = NoError | Missing | AnError

  datatype TxStatus = Absent | Known(level: Option<Level>, err: ErrorField)

  datatype Verdict = MarkFinalized | MarkFailed | CountMiss | ClearMiss

  function Judge(status: TxStatus): Verdict {
    match status
    case Absent => CountMiss
    case Known(level, err) =>
      if level == Some(FinalizedLevel) && err == NoError then MarkFinalized
      else if err == AnError then MarkFailed
      else ClearMiss
  }

  /** A status update only ever leaves confirmed. */
  function Mark(payments: map<Signature, PaymentStatus>, s: Signature, to: PaymentStatus)
    : map<Signature, PaymentStatus>
  {
    if Moves(payments, s) then payments[s := to] else payments
  }

  predicate Moves(payments: map<Signature, PaymentStatus>, s: Signature) {
    s in payments && payments[s] == Confirmed
  }

  datatype Counts = Counts(finalized: nat, failed: nat, unknown: nat)

  const NONE := Counts(0, 0, 0)

  /** Tables and counters after one answer; an answer without a signature at its index is ignored. */
  datatype Progress = Progress(payments: map<Signature, PaymentStatus>, misses: map<Signature, nat>, counts: Counts)

  function SignatureAt(signatures: seq<Signature>, index: nat): Signature {
    if index < |signatures| then signatures[index] else ""
  }

  function Absorb(p: Progress, s: Signature, status: TxStatus): Progress {
    if s == "" then p
    else
      match Judge(status)
      case MarkFinalized =>
        var moved := if Moves(p.payments, s) then 1 else 0;
        Progress(Mark(p.payments, s, Finalized), p.misses - {s}, p.counts.(finalized := p.counts.finalized + moved))
      case MarkFailed =>
        var moved := if Moves(p.payments, s) then 1 else 0;
        Progress(Mark(p.payments, s, Failed), p.misses - {s}, p.counts.(failed := p.counts.failed + moved))
      case CountMiss =>
        var misses := (if s in p.misses then p.misses[s] else 0) + 1;
        Progress(p.payments, p.misses[s := misses], p.counts.(unknown := p.counts.unknown + 1))
      case ClearMiss => p.(misses := p.misses - {s})
  }

  function AbsorbAll(p: Progress, signatures: seq<Signature>, values: seq<TxStatus>): Progress {
    if values == [] then p
    else
      var n := |values| - 1;
      Absorb(AbsorbAll(p, signatures, values[..n]), SignatureAt(signatures, n), values[n])
  }

  // ---------------------------------------------------------------- the reconciler

  /** One node's reply: a list of statuses, or the reason there is none. */
  datatype Reply = Statuses(values: seq<TxStatus>) | Unusable(reason: string)

  datatype Source = Skipped | Primary | Recovered | Unavailable

  datatype Evidence = Evidence(outcome: Source, attempts: nat, fallbackUsed: bool)

  datatype Report = Report(checked: nat, counts: Counts)

  function FirstUsable(replies: seq<Reply>): (k: nat)
    ensures k <= |replies| && (k < |replies| ==> replies[k].Statuses?)
    ensures forall i :: 0 <= i < k ==> replies[i].Unusable?
  {
    if replies == [] || replies[0].Statuses? then 0 else 1 + FirstUsable(replies[1..])
  }

  predicate AllReasons(replies: seq<Reply>, errors: seq<string>) {
    |errors| == |replies| && forall i :: 0 <= i < |replies| ==> replies[i] == Unusable(errors[i])
  }

  class FinalityStore {
    var payments: map<Signature, PaymentStatus>

    method UpdateStatus(s: Signature, to: PaymentStatus) returns (moved: bool)
      modifies this
      ensures moved <==> Moves(old(payments), s)
      ensures payments == Mark(old(payments), s, to)
    {
      moved := s in payments && payments[s] == Confirmed;
      if moved {
        payments := payments[s := to];
      }
    }
  }

  class Reconciler {
    const store: FinalityStore
    const nodes: nat
    var misses: map<Signature, nat>
    var lastEvidence: Option<Evidence>

    constructor (store: FinalityStore, nodes: nat)
      requires nodes > 0
      ensures this.store == store && this.nodes == nodes && misses == map[] && lastEvidence == None
    {
      this.store, this.nodes, misses, lastEvidence := store, nodes, map[], None;
    }

    /** Asks the nodes in turn: the first usable reply wins, and the errors before it are counted. */
    method GetStatuses(replies: seq<Reply>) returns (result: Result<seq<TxStatus>, seq<string>>, attempts: nat)
      ensures var k := FirstUsable(replies);
        if k < |replies|
        then result == Ok(replies[k].values) && attempts == k + 1
        else result.Err? && attempts == |result.error| == |replies| && AllReasons(replies, result.error)
    {
      var errors: seq<string> := [];
      for k := 0 to |replies|
        invariant |errors| == k && AllReasons(replies[..k], errors)
        invariant FirstUsable(replies) >= k
      {
        match replies[k] {
          case Statuses(values) => return Ok(values), |errors| + 1;
          case Unusable(reason) =>
            assert replies[..k + 1] == replies[..k] + [replies[k]];
            errors := errors + [reason];
        }
      }
      assert replies[..|replies|] == replies;
      return Err(errors), |errors|;
    }

    /** Works through the answers in order, updating the store, the misses and the counters. */
    method ApplyAnswers(signatures: seq<Signature>, values: seq<TxStatus>) returns (counts: Counts)
      modifies this`misses, store
      ensures Progress(store.payments, misses, counts)
           == AbsorbAll(Progress(old(store.payments), old(misses), NONE), signatures, values)
    {
      var finalized, failed, unknown := 0, 0, 0;
      ghost var begun := Progress(store.payments, misses, NONE);
      for index := 0 to |values|
        invariant AbsorbAll(begun, signatures, values[..index])
               == Progress(store.payments, misses, Counts(finalized, failed, unknown))
      {
        var s := if index < |signatures| then signatures[index] else "";
        var status := values[index];
        assert values[..index + 1][..index] == values[..index];
        if s != "" && status.Known? && status.level == Some(FinalizedLevel) && status.err == NoError {
          misses := misses - {s};
          var moved := store.UpdateStatus(s, Finalized);
          if moved { finalized := finalized + 1; }
        } else if s != "" && status.Known? && status.err == AnError {
          misses := misses - {s};
          var moved := store.UpdateStatus(s, Failed);
          if moved { failed := failed + 1; }
        } else if s != "" && status.Absent? {
          var count := (if s in misses then misses[s] else 0) + 1;
          misses := misses[s := count];
          unknown := unknown + 1;
        } else if s != "" {
          misses := misses - {s};
        }
      }
      assert values[..|values|] == values;
      return Counts(finalized, failed, unknown);
    }

    /** One reconciliation of the listed signatures, running alone; without a usable reply nothing moves. */
    method Reconcile(signatures: seq<Signature>, replies: seq<Reply>) returns (result: Result<Report, seq<string>>)
      requires |replies| == nodes
      modifies this, store
      ensures var k := FirstUsable(replies);
        var before := Progress(old(store.payments), old(misses), NONE);
        var after := if signatures != [] && k < nodes then AbsorbAll(before, signatures, replies[k].values) else before;
        && store.payments == after.payments && misses == after.misses
        && (result.Err? <==> signatures != [] && k == nodes)
        && (result.Ok? ==> result.value == Report(|signatures|, after.counts))
        && lastEvidence == Some(
             if signatures == [] then Evidence(Skipped, 0, false)
             else if k == nodes then Evidence(Unavailable, nodes, nodes > 1)
             else Evidence(if k > 0 then Recovered else Primary, k + 1, k > 0))
    {
      if signatures == [] {
        lastEvidence := Some(Evidence(Skipped, 0, false));
        return Ok(Report(0, NONE));
      }
      var statuses, attempts := GetStatuses(replies);
      if statuses.Err? {
        lastEvidence := Some(Evidence(Unavailable, nodes, nodes > 1));
        return Err(statuses.error);
      }
      lastEvidence := Some(Evidence(if attempts > 1 then Recovered else Primary, attempts, attempts > 1));
      var counts := ApplyAnswers(signatures, statuses.value);
      return Ok(Report(|signatures|, counts));
    }
  }
}
