/** Overlapping reconciliations of one store, each with its own snapshot, answers and counters. */
module FinalityRuns {
  import opened Outcomes
  import opened Finality

  /** A reconciliation under way: what it listed, what it was told, and how far it has come. */
  datatype Call = Call(signatures: seq<Signature>, values: seq<TxStatus>, index: nat, counts: Counts)

  datatype World = World(payments: map<Signature, PaymentStatus>, misses: map<Signature, nat>, calls: seq<Call>)

  datatype Event =
    | NewPayment(s: Signature)
    | Begin(signatures: seq<Signature>, values: seq<TxStatus>)
    | Entry(c: nat)

  predicate Active(w: World, c: nat) {
    c < |w.calls| && w.calls[c].index < |w.calls[c].values|
  }

  function EntrySignature(call: Call): Signature {
    SignatureAt(call.signatures, call.index)
  }

  function Step(w: World, e: Event): World {
    match e
    case NewPayment(s) => if s in w.payments then w else w.(payments := w.payments[s := Confirmed])
    case Begin(signatures, values) => w.(calls := w.calls + [Call(signatures, values, 0, NONE)])
    case Entry(c) =>
      if !Active(w, c) then w
      else
        var call := w.calls[c];
        var p := Absorb(Progress(w.payments, w.misses, call.counts), EntrySignature(call), call.values[call.index]);
        World(p.payments, p.misses, w.calls[c := call.(index := call.index + 1, counts := p.counts)])
  }

  function Run(w: World, events: seq<Event>): World {
    if events == [] then w else Step(Run(w, events[..|events| - 1]), events[|events| - 1])
  }

  // ---------------------------------------------------------------- one payment

  /** A payment leaves confirmed only on an answer at its own index that says so. */
  lemma LeavesOnOwnAnswer(w: World, e: Event, s: Signature)
    requires s in w.payments && w.payments[s] == Confirmed
    requires Step(w, e).payments[s] != Confirmed
    ensures e.Entry? && Active(w, e.c)
    ensures var call := w.calls[e.c];
      && call.index < |call.signatures| && call.signatures[call.index] == s
      && var status := call.values[call.index];
         if Step(w, e).payments[s] == Finalized then status == Known(Some(FinalizedLevel), NoError)
         else status.Known? && status.err == AnError
  {
  }

  /** Once a payment is finalized or failed, no reconciliation ever changes it again. */
  lemma {:induction false} SettledStays(w: World, events: seq<Event>, s: Signature)
    requires s in w.payments
    ensures s in Run(w, events).payments
    ensures w.payments[s] != Confirmed ==> Run(w, events).payments[s] == w.payments[s]
  {
    if events != [] {
      SettledStays(w, events[..|events| - 1], s);
    }
  }

  // ---------------------------------------------------------------- the counters

  function Count(payments: map<Signature, PaymentStatus>, status: PaymentStatus): nat {
    |set s | s in payments && payments[s] == status|
  }

  function Finals(calls: seq<Call>): nat {
    if calls == [] then 0 else Finals(calls[..|calls| - 1]) + calls[|calls| - 1].counts.finalized
  }

  function Fails(calls: seq<Call>): nat {
    if calls == [] then 0 else Fails(calls[..|calls| - 1]) + calls[|calls| - 1].counts.failed
  }

  lemma {:induction false} SumsUpdate(calls: seq<Call>, c: nat, call: Call)
    requires c < |calls|
    ensures Finals(calls[c := call]) == Finals(calls) - calls[c].counts.finalized + call.counts.finalized
    ensures Fails(calls[c := call]) == Fails(calls) - calls[c].counts.failed + call.counts.failed
  {
    var n := |calls| - 1;
    if c == n {
      assert calls[c := call][..n] == calls[..n];
    } else {
      assert calls[c := call][..n] == calls[..n][c := call];
      SumsUpdate(calls[..n], c, call);
    }
  }

  lemma CountMark(payments: map<Signature, PaymentStatus>, s: Signature, to: PaymentStatus, status: PaymentStatus)
    requires to != Confirmed && status != Confirmed
    ensures Count(Mark(payments, s, to), status)
         == Count(payments, status) + (if Moves(payments, s) && to == status then 1 else 0)
  {
    var before := set x | x in payments && payments[x] == status;
    var marked := Mark(payments, s, to);
    var after := set x | x in marked && marked[x] == status;
    if Moves(payments, s) && to == status {
      assert after == before + {s};
    } else {
      assert after == before;
    }
  }

  /** Payments that have moved match the counters of all calls together, from any earlier total. */
  ghost predicate Balanced(w: World, finalsBefore: int, failsBefore: int) {
    Count(w.payments, Finalized) - Finals(w.calls) == finalsBefore
        && Count(w.payments, Failed) - Fails(w.calls) == failsBefore
  }

  lemma EntryBalanced(w: World, c: nat, finalsBefore: int, failsBefore: int)
    requires Balanced(w, finalsBefore, failsBefore) && Active(w, c)
    ensures Balanced(Step(w, Entry(c)), finalsBefore, failsBefore)
  {
    SumsUpdate(w.calls, c, Step(w, Entry(c)).calls[c]);
    var s := EntrySignature(w.calls[c]);
    match Judge(w.calls[c].values[w.calls[c].index])
    case MarkFinalized =>
      CountMark(w.payments, s, Finalized, Finalized);
      CountMark(w.payments, s, Finalized, Failed);
    case MarkFailed =>
      CountMark(w.payments, s, Failed, Finalized);
      CountMark(w.payments, s, Failed, Failed);
    case _ =>
  }

  lemma NewPaymentCounts(payments: map<Signature, PaymentStatus>, s: Signature, status: PaymentStatus)
    requires s !in payments && status != Confirmed
    ensures Count(payments[s := Confirmed], status) == Count(payments, status)
  {
    var more := payments[s := Confirmed];
    assert (set x | x in more && more[x] == status) == (set x | x in payments && payments[x] == status);
  }

  lemma FreshCall(calls: seq<Call>, call: Call)
    requires call.counts == NONE
    ensures Finals(calls + [call]) == Finals(calls) && Fails(calls + [call]) == Fails(calls)
  {
    assert (calls + [call])[..|calls|] == calls;
  }

  lemma StepBalanced(w: World, e: Event, finalsBefore: int, failsBefore: int)
    requires Balanced(w, finalsBefore, failsBefore)
    ensures Balanced(Step(w, e), finalsBefore, failsBefore)
  {
    match e
    case NewPayment(s) =>
      if s !in w.payments {
        NewPaymentCounts(w.payments, s, Finalized);
        NewPaymentCounts(w.payments, s, Failed);
      }
    case Begin(signatures, values) => FreshCall(w.calls, Call(signatures, values, 0, NONE));
    case Entry(c) =>
      if Active(w, c) {
        EntryBalanced(w, c, finalsBefore, failsBefore);
      }
  }

  /**
    Over any overlapping reconciliations with arbitrary answers, the finalized and failed counters of
    all calls add up to exactly the payments that were finalized and failed.
   */
  lemma {:induction false} CountersMatchMoves(w: World, events: seq<Event>)
    ensures var t := Run(w, events);
      && Count(t.payments, Finalized) - Count(w.payments, Finalized) == Finals(t.calls) - Finals(w.calls)
      && Count(t.payments, Failed) - Count(w.payments, Failed) == Fails(t.calls) - Fails(w.calls)
  {
    if events != [] {
      CountersMatchMoves(w, events[..|events| - 1]);
      var mid := Run(w, events[..|events| - 1]);
      StepBalanced(mid, events[|events| - 1],
        Count(mid.payments, Finalized) - Finals(mid.calls), Count(mid.payments, Failed) - Fails(mid.calls));
    }
  }

  // ---------------------------------------------------------------- one call's report

  predicate Within(call: Call) {
    var n := call.counts.finalized + call.counts.failed + call.counts.unknown;
    call.index <= |call.values| && n <= call.index && n <= |call.signatures|
  }

  /** A call never reports more outcomes than it checked, however long the answer. */
  lemma {:induction false} ReportWithinChecked(events: seq<Event>, c: nat)
    requires c < |Run(World(map[], map[], []), events).calls|
    ensures Within(Run(World(map[], map[], []), events).calls[c])
  {
    var w := Run(World(map[], map[], []), events);
    var before := Run(World(map[], map[], []), events[..|events| - 1]);
    if c < |before.calls| {
      ReportWithinChecked(events[..|events| - 1], c);
    }
  }

  /** A listed signature beyond the answer, or whose answer is neither final nor failed, keeps its status. */
  lemma {:induction false} UnansweredStay(p: Progress, signatures: seq<Signature>, values: seq<TxStatus>, s: Signature)
    requires s in p.payments
    requires forall k :: 0 <= k < |values| && SignatureAt(signatures, k) == s ==>
      Judge(values[k]) == CountMiss || Judge(values[k]) == ClearMiss
    ensures s in AbsorbAll(p, signatures, values).payments
    ensures AbsorbAll(p, signatures, values).payments[s] == p.payments[s]
  {
    if values != [] {
      UnansweredStay(p, signatures, values[..|values| - 1], s);
    }
  }

  // ---------------------------------------------------------------- what an answer does

  predicate SaysFinal(status: TxStatus) {
    status == Known(Some(FinalizedLevel), NoError)
  }

  predicate SaysFailed(status: TxStatus) {
    status.Known? && status.err == AnError
  }

  /** The status a confirmed payment has after its own answer. */
  function Decided(status: TxStatus): PaymentStatus {
    if SaysFinal(status) then Finalized else if SaysFailed(status) then Failed else Confirmed
  }

  function One(b: bool): nat {
    if b then 1 else 0
  }

  /**
    One entry of one call, exactly: its own payment, if still confirmed, becomes what the answer says;
    each counter rises by one exactly on its own outcome; a miss is counted exactly on an absent answer
    and forgotten on any other; nothing else changes.
   */
  lemma EntryExactly(w: World, c: nat)
    requires Active(w, c)
    ensures var call := w.calls[c]; var t := Step(w, Entry(c)); var s := EntrySignature(call);
      var status := call.values[call.index];
      var named := s != ""; var open := named && s in w.payments && w.payments[s] == Confirmed;
      && t.payments.Keys == w.payments.Keys
      && (forall x :: x in w.payments ==> t.payments[x] == if open && x == s then Decided(status) else w.payments[x])
      && t.calls == w.calls[c := call.(
           index := call.index + 1,
           counts := Counts(
             call.counts.finalized + One(open && SaysFinal(status)),
             call.counts.failed + One(open && SaysFailed(status)),
             call.counts.unknown + One(named && status == Absent)))]
      && t.misses == (if !named then w.misses
                      else if status == Absent then w.misses[s := (if s in w.misses then w.misses[s] else 0) + 1]
                      else w.misses - {s})
  {
  }

  /** A new payment starts confirmed, and a new call starts at the beginning with all counters at zero. */
  lemma BeginningsExactly(w: World, s: Signature, signatures: seq<Signature>, values: seq<TxStatus>)
    ensures Step(w, NewPayment(s)).payments == if s in w.payments then w.payments else w.payments[s := Confirmed]
    ensures Step(w, Begin(signatures, values)).calls == w.calls + [Call(signatures, values, 0, Counts(0, 0, 0))]
    ensures Step(w, Begin(signatures, values)).payments == w.payments
  {
  }

  // ---------------------------------------------------------------- one whole reconciliation

  /** The answer at the signature's own place, or none. */
  function AnswerFor(signatures: seq<Signature>, values: seq<TxStatus>, s: Signature): Option<TxStatus> {
    if values == [] then None
    else
      var n := |values| - 1;
      if n < |signatures| && signatures[n] == s then Some(values[n]) else AnswerFor(signatures, values[..n], s)
  }

  predicate NoRepeats(signatures: seq<Signature>) {
    forall i, j :: 0 <= i < j < |signatures| ==> signatures[i] != signatures[j]
  }

  lemma {:induction false} AnswerForPlace(signatures: seq<Signature>, values: seq<TxStatus>, k: nat)
    requires NoRepeats(signatures) && k < |signatures| && k < |values|
    ensures AnswerFor(signatures, values, signatures[k]) == Some(values[k])
  {
    if k < |values| - 1 {
      assert |values| - 1 < |signatures| ==> signatures[|values| - 1] != signatures[k];
      AnswerForPlace(signatures, values[..|values| - 1], k);
    }
  }

  lemma {:induction false} AnswerForLater(signatures: seq<Signature>, values: seq<TxStatus>, s: Signature)
    requires forall k :: 0 <= k < |signatures| && k < |values| ==> signatures[k] != s
    ensures AnswerFor(signatures, values, s) == None
  {
    if values != [] {
      AnswerForLater(signatures, values[..|values| - 1], s);
    }
  }

  lemma AbsorbOne(p: Progress, x: Signature, status: TxStatus, s: Signature)
    requires s != "" && s in p.payments
    ensures var t := Absorb(p, x, status);
      s in t.payments
      && t.payments[s] == if x == s && p.payments[s] == Confirmed then Decided(status) else p.payments[s]
  {
  }

  /** After one reconciliation each listed confirmed payment has exactly the status its own answer gives it. */
  lemma {:induction false} AnswersDecide(p: Progress, signatures: seq<Signature>, values: seq<TxStatus>, s: Signature)
    requires NoRepeats(signatures) && s != "" && s in p.payments && p.payments[s] == Confirmed
    ensures var t := AbsorbAll(p, signatures, values); var answer := AnswerFor(signatures, values, s);
      s in t.payments && t.payments[s] == if answer == None then Confirmed else Decided(answer.value)
  {
    if values != [] {
      var n := |values| - 1;
      AnswersDecide(p, signatures, values[..n], s);
      AbsorbOne(AbsorbAll(p, signatures, values[..n]), SignatureAt(signatures, n), values[n], s);
      if n < |signatures| && signatures[n] == s {
        AnswerForLater(signatures, values[..n], s);
      }
    }
  }

  /** And each payment that is not confirmed, or not listed, is left alone. */
  lemma {:induction false} OthersStay(p: Progress, signatures: seq<Signature>, values: seq<TxStatus>, s: Signature)
    requires s in p.payments && (p.payments[s] != Confirmed || s !in signatures || s == "")
    ensures s in AbsorbAll(p, signatures, values).payments
    ensures AbsorbAll(p, signatures, values).payments[s] == p.payments[s]
  {
    if values != [] {
      OthersStay(p, signatures, values[..|values| - 1], s);
    }
  }
}
