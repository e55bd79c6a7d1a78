/**
  The payment middleware as overlapping requests that share one durable store. Each request settles,
  asks the store whether the signature is known, saves its record, notifies, and only then hands the
  request on. Requests interleave at every wait, the facilitator answers anything, and the process
  may restart. The store's key of a signature may be the signature itself or any hash of it.
 */
module ReplayGate {
  type Signature = string

  const DEVNET := "solana:EtWTRABZaYq6iMfeYKouRu166VU2xqa1"

  /** Whatever the facilitator says; absent fields are empty. */
  datatype Settlement = Settlement(success: bool, transaction: Signature, payer: string, network: string)

  datatype Response = PaymentInvalid | WrongNetwork | Replayed | Malformed | Handled

  datatype Phase =
    | Settling
    | Checking(signature: Signature)
    | Saving(signature: Signature)
    | Notifying(signature: Signature)
    | Passing(signature: Signature)
    | Done(response: Response)

  /** handled lists the signatures for which the protected handler ran, in order. */
  datatype Gate = Gate(stored: set<string>, requests: map<nat, Phase>, handled: seq<Signature>)

  datatype Event =
    | Arrive(r: nat, wellFormed: bool)
    | Answer(r: nat, settlement: Settlement)
    | Has(r: nat)
    | Save(r: nat, storeFails: bool)
    | Notify(r: nat, throws: bool)
    | Next(r: nat)
    | Restart

  function Judge(s: Settlement): Phase {
    if !s.success || s.transaction == "" || s.payer == "" then Done(PaymentInvalid)
    else if s.network != "" && s.network != DEVNET then Done(WrongNetwork)
    else Checking(s.transaction)
  }

  function Move(g: Gate, r: nat, phase: Phase): Gate {
    g.(requests := g.requests[r := phase])
  }

  function Step(key: Signature -> string, g: Gate, e: Event): Gate {
    match e
    case Arrive(r, wellFormed) =>
      if r in g.requests then g else Move(g, r, if wellFormed then Settling else Done(Malformed))
    case Answer(r, settlement) =>
      if r in g.requests && g.requests[r] == Settling then Move(g, r, Judge(settlement)) else g
    case Has(r) =>
      if r in g.requests && g.requests[r].Checking? then
        var signature := g.requests[r].signature;
        Move(g, r, if key(signature) in g.stored then Done(Replayed) else Saving(signature))
      else g
    case Save(r, storeFails) =>
      if r in g.requests && g.requests[r].Saving? then
        var signature := g.requests[r].signature;
        if storeFails then Move(g, r, Done(Malformed))
        else if key(signature) in g.stored then Move(g, r, Done(Replayed))
        else Move(g, r, Notifying(signature)).(stored := g.stored + {key(signature)})
      else g
    case Notify(r, throws) =>
      if r in g.requests && g.requests[r].Notifying?
      then Move(g, r, if throws then Done(Malformed) else Passing(g.requests[r].signature))
      else g
    case Next(r) =>
      if r in g.requests && g.requests[r].Passing?
      then Move(g, r, Done(Handled)).(handled := g.handled + [g.requests[r].signature])
      else g
    case Restart => g.(requests := map[])
  }

  function Exec(key: Signature -> string, events: seq<Event>): Gate {
    if events == [] then Gate({}, map[], [])
    else Step(key, Exec(key, events[..|events| - 1]), events[|events| - 1])
  }

  /** The request has stored its record and may still reach the handler. */
  predicate Cleared(phase: Phase) {
    phase.Notifying? || phase.Passing?
  }

  /** No handled signature has this key. */
  predicate Unhandled(key: Signature -> string, g: Gate, k: string) {
    forall i :: 0 <= i < |g.handled| ==> key(g.handled[i]) != k
  }

  ghost predicate HandledOk(key: Signature -> string, g: Gate) {
    && (forall i :: 0 <= i < |g.handled| ==> key(g.handled[i]) in g.stored)
    && (forall i, j :: 0 <= i < j < |g.handled| ==> key(g.handled[i]) != key(g.handled[j]))
  }

  ghost predicate ClearedOk(key: Signature -> string, g: Gate) {
    && (forall r :: r in g.requests && Cleared(g.requests[r]) ==>
          key(g.requests[r].signature) in g.stored && Unhandled(key, g, key(g.requests[r].signature)))
    && (forall r, q ::
          (r in g.requests && q in g.requests && r != q && Cleared(g.requests[r]) && Cleared(g.requests[q]))
          ==> key(g.requests[r].signature) != key(g.requests[q].signature))
  }

  ghost predicate Good(key: Signature -> string, g: Gate) {
    HandledOk(key, g) && ClearedOk(key, g)
  }

  /** Moving a request without clearing it, or along while it stays cleared, disturbs nothing. */
  lemma MoveKeeps(key: Signature -> string, g: Gate, r: nat, phase: Phase)
    requires Good(key, g)
    requires Cleared(phase) ==> r in g.requests && Cleared(g.requests[r]) && g.requests[r].signature == phase.signature
    ensures Good(key, Move(g, r, phase))
  {
    assert forall k :: Unhandled(key, g, k) ==> Unhandled(key, Move(g, r, phase), k);
  }

  lemma StoreKeeps(key: Signature -> string, g: Gate, r: nat, signature: Signature)
    requires Good(key, g) && key(signature) !in g.stored
    ensures Good(key, Move(g, r, Notifying(signature)).(stored := g.stored + {key(signature)}))
  {
    var t := Move(g, r, Notifying(signature)).(stored := g.stored + {key(signature)});
    assert forall k :: Unhandled(key, g, k) ==> Unhandled(key, t, k);
    assert Unhandled(key, t, key(signature));
  }

  lemma HandleKeeps(key: Signature -> string, g: Gate, r: nat)
    requires Good(key, g) && r in g.requests && g.requests[r].Passing?
    ensures Good(key, Step(key, g, Next(r)))
  {
    var t := Step(key, g, Next(r));
    var k := key(g.requests[r].signature);
    assert forall o :: Unhandled(key, g, o) && o != k ==> Unhandled(key, t, o);
    assert Unhandled(key, g, k);
  }

  lemma StepKeeps(key: Signature -> string, g: Gate, e: Event)
    requires Good(key, g)
    ensures Good(key, Step(key, g, e))
  {
    match e
    case Arrive(r, wellFormed) =>
      MoveKeeps(key, g, r, if wellFormed then Settling else Done(Malformed));
    case Answer(r, settlement) =>
      MoveKeeps(key, g, r, Judge(settlement));
    case Has(r) =>
      MoveKeeps(key, g, r, Done(Replayed));
      if r in g.requests && g.requests[r].Checking? { MoveKeeps(key, g, r, Saving(g.requests[r].signature)); }
    case Save(r, _) =>
      MoveKeeps(key, g, r, Done(Malformed));
      MoveKeeps(key, g, r, Done(Replayed));
      if r in g.requests && g.requests[r].Saving? && key(g.requests[r].signature) !in g.stored {
        StoreKeeps(key, g, r, g.requests[r].signature);
      }
    case Notify(r, _) =>
      MoveKeeps(key, g, r, Done(Malformed));
      if r in g.requests && g.requests[r].Notifying? { MoveKeeps(key, g, r, Passing(g.requests[r].signature)); }
    case Next(r) =>
      if r in g.requests && g.requests[r].Passing? { HandleKeeps(key, g, r); }
    case Restart =>
  }

  lemma {:induction false} ExecGood(key: Signature -> string, events: seq<Event>)
    ensures Good(key, Exec(key, events))
  {
    if events != [] {
      ExecGood(key, events[..|events| - 1]);
      StepKeeps(key, Exec(key, events[..|events| - 1]), events[|events| - 1]);
    }
  }

  /**
    Whatever interleaving, facilitator answers, failures and restarts, the protected handler runs at
    most once per settled signature, and only once that signature's record is in the store.
   */
  lemma HandledOncePerSignature(key: Signature -> string, events: seq<Event>, i: nat, j: nat)
    requires i < |Exec(key, events).handled| && j < |Exec(key, events).handled|
    ensures var g := Exec(key, events);
      && key(g.handled[i]) in g.stored
      && (i != j ==> g.handled[i] != g.handled[j])
  {
    ExecGood(key, events);
  }

  predicate GoodSettlement(s: Settlement) {
    s.success && s.transaction != "" && s.payer != "" && (s.network == "" || s.network == DEVNET)
  }

  /** Some request was answered with a good settlement for this signature. */
  predicate AnsweredFor(events: seq<Event>, signature: Signature) {
    exists k :: 0 <= k < |events| && events[k].Answer? && GoodSettlement(events[k].settlement)
      && events[k].settlement.transaction == signature
  }

  predicate Carries(phase: Phase, signature: Signature) {
    (phase.Checking? || phase.Saving? || phase.Notifying? || phase.Passing?) && phase.signature == signature
  }

  /** Nothing is handled, and no request gets past settling, without a settlement on the right network. */
  lemma {:induction false} OnlySettledHandled(key: Signature -> string, events: seq<Event>, signature: Signature)
    ensures signature in Exec(key, events).handled ==> AnsweredFor(events, signature)
    ensures forall r :: r in Exec(key, events).requests && Carries(Exec(key, events).requests[r], signature) ==>
      AnsweredFor(events, signature)
  {
    if events != [] {
      var init, e := events[..|events| - 1], events[|events| - 1];
      OnlySettledHandled(key, init, signature);
      if AnsweredFor(init, signature) {
        var k :| 0 <= k < |init| && init[k].Answer? && GoodSettlement(init[k].settlement)
            && init[k].settlement.transaction == signature;
        assert events[k] == init[k];
      } else if e.Answer? && GoodSettlement(e.settlement) && e.settlement.transaction == signature {
        assert events[|events| - 1] == e;
      }
    }
  }

  /** The record is there before the handler runs, not only afterwards. */
  lemma StoredBeforeHandled(key: Signature -> string, events: seq<Event>, r: nat)
    requires var g := Exec(key, events); r in g.requests && g.requests[r].Passing?
    ensures var g := Exec(key, events); var signature := g.requests[r].signature;
      && Step(key, g, Next(r)).handled == g.handled + [signature]
      && key(signature) in g.stored && signature !in g.handled
  {
    ExecGood(key, events);
    var g := Exec(key, events);
    assert Unhandled(key, g, key(g.requests[r].signature));
  }

  /** No other step hands a request on. */
  lemma OnlyNextHandles(key: Signature -> string, g: Gate, e: Event)
    requires Step(key, g, e).handled != g.handled
    ensures e.Next? && e.r in g.requests && g.requests[e.r].Passing?
  {
  }

  /** The k-th event runs the handler for the i-th time, for this signature, whose record is already stored. */
  ghost predicate HandsOn(key: Signature -> string, events: seq<Event>, k: nat, i: nat, signature: Signature)
    requires k < |events|
  {
    var g, e := Exec(key, events[..k]), events[k];
    && |g.handled| == i && e.Next? && e.r in g.requests && g.requests[e.r] == Passing(signature)
    && key(signature) in g.stored && signature !in g.handled
  }

  ghost predicate HandedOn(key: Signature -> string, events: seq<Event>, i: nat, signature: Signature) {
    exists k :: 0 <= k < |events| && HandsOn(key, events, k, i, signature)
  }

  lemma HandedOnBefore(key: Signature -> string, events: seq<Event>, n: nat, i: nat, signature: Signature)
    requires n <= |events| && HandedOn(key, events[..n], i, signature)
    ensures HandedOn(key, events, i, signature)
  {
    var k :| 0 <= k < n && HandsOn(key, events[..n], k, i, signature);
    assert events[..n][..k] == events[..k];
    assert HandsOn(key, events, k, i, signature);
  }

  /** In every run each handler call has its own moment, and by then its record was stored and new. */
  lemma {:induction false} HandledAfterStored(key: Signature -> string, events: seq<Event>, i: nat)
    requires i < |Exec(key, events).handled|
    ensures HandedOn(key, events, i, Exec(key, events).handled[i])
  {
    var n := |events| - 1;
    var before, e := Exec(key, events[..n]), events[n];
    if i < |before.handled| {
      HandledAfterStored(key, events[..n], i);
      HandedOnBefore(key, events, n, i, before.handled[i]);
    } else {
      OnlyNextHandles(key, before, e);
      StoredBeforeHandled(key, events[..n], e.r);
      assert HandsOn(key, events, n, i, before.requests[e.r].signature);
    }
  }

  /** A settled payment whose key is not stored is handled: the gate refuses no fresh signature. */
  lemma FreshIsHandled(key: Signature -> string, g: Gate, r: nat, s: Settlement)
    requires r !in g.requests && GoodSettlement(s) && key(s.transaction) !in g.stored
    ensures var g1 := Step(key, Step(key, Step(key, g, Arrive(r, true)), Answer(r, s)), Has(r));
      var g2 := Step(key, Step(key, Step(key, g1, Save(r, false)), Notify(r, false)), Next(r));
      g2.handled == g.handled + [s.transaction] && g2.requests[r] == Done(Handled)
  {
  }

  function RacingEvents(s: Settlement): seq<Event> {
    [Arrive(0, true), Arrive(1, true), Answer(0, s), Answer(1, s), Has(0), Has(1)]
  }

  lemma ExecNext(key: Signature -> string, events: seq<Event>, k: nat)
    requires k < |events|
    ensures Exec(key, events[..k + 1]) == Step(key, Exec(key, events[..k]), events[k])
  {
    assert events[..k + 1][..k] == events[..k];
  }

  lemma RacingArrive(key: Signature -> string, s: Settlement)
    ensures Exec(key, RacingEvents(s)[..2]) == Gate({}, map[0 := Settling, 1 := Settling], [])
  {
    var events := RacingEvents(s);
    ExecNext(key, events, 0);
    ExecNext(key, events, 1);
    assert events[..0] == [];
  }

  lemma RacingAnswer(key: Signature -> string, s: Settlement)
    requires GoodSettlement(s)
    ensures Exec(key, RacingEvents(s)[..4])
        == Gate({}, map[0 := Checking(s.transaction), 1 := Checking(s.transaction)], [])
  {
    var events := RacingEvents(s);
    RacingArrive(key, s);
    ExecNext(key, events, 2);
    ExecNext(key, events, 3);
    assert Judge(s) == Checking(s.transaction);
  }

  /**
    The membership check alone would not do: two requests with one signature can both pass it, and
    only the save tells them apart.
   */
  lemma HasIsRacy(key: Signature -> string, s: Settlement)
    requires GoodSettlement(s)
    ensures var g := Exec(key, RacingEvents(s));
      && g == Gate({}, map[0 := Saving(s.transaction), 1 := Saving(s.transaction)], [])
      && Step(key, Step(key, g, Save(0, false)), Save(1, false)).requests[1] == Done(Replayed)
  {
    var events := RacingEvents(s);
    RacingAnswer(key, s);
    ExecNext(key, events, 4);
    ExecNext(key, events, 5);
    assert events[..6] == events;
  }

  // ---------------------------------------------------------------- what each request is answered

  predicate Waits(g: Gate, r: nat, phase: Phase) {
    r in g.requests && g.requests[r] == phase
  }

  /** How a settlement's answer is taken: refused, on the wrong network, or checked for replay. */
  lemma AnswerExactly(key: Signature -> string, g: Gate, r: nat, s: Settlement)
    requires Waits(g, r, Settling)
    ensures var t := Step(key, g, Answer(r, s));
      && t == g.(requests := g.requests[r := t.requests[r]])
      && t.requests[r] ==
           if !s.success || s.transaction == "" || s.payer == "" then Done(PaymentInvalid)
           else if s.network != "" && s.network != "solana:EtWTRABZaYq6iMfeYKouRu166VU2xqa1" then Done(WrongNetwork)
           else Checking(s.transaction)
  {
  }

  /** A known signature is answered as replayed, by the check or else by the save. */
  lemma ReplayExactly(key: Signature -> string, g: Gate, r: nat, signature: Signature, fails: bool)
    ensures Waits(g, r, Checking(signature)) ==>
      Step(key, g, Has(r)) ==
        g.(requests := g.requests[r := if key(signature) in g.stored then Done(Replayed) else Saving(signature)])
    ensures Waits(g, r, Saving(signature)) && fails ==>
      Step(key, g, Save(r, fails)) == g.(requests := g.requests[r := Done(Malformed)])
    ensures Waits(g, r, Saving(signature)) && !fails ==>
      Step(key, g, Save(r, fails)) ==
        if key(signature) in g.stored then g.(requests := g.requests[r := Done(Replayed)])
        else g.(requests := g.requests[r := Notifying(signature)], stored := g.stored + {key(signature)})
  {
  }

  /** A failing notification withholds the handler although the record is stored; otherwise the handler follows. */
  lemma NotifyExactly(key: Signature -> string, g: Gate, r: nat, signature: Signature, throws: bool)
    requires Waits(g, r, Notifying(signature))
    ensures Step(key, g, Notify(r, throws)) ==
      g.(requests := g.requests[r := if throws then Done(Malformed) else Passing(signature)])
  {
  }

  /** Requests begin by settling, or end as malformed; a restart loses the requests and keeps the records. */
  lemma EdgesExactly(key: Signature -> string, g: Gate, r: nat, wellFormed: bool)
    ensures r !in g.requests ==>
      Step(key, g, Arrive(r, wellFormed)) ==
        g.(requests := g.requests[r := if wellFormed then Settling else Done(Malformed)])
    ensures Step(key, g, Restart) == Gate(g.stored, map[], g.handled)
  {
  }
}
