/**
  Idempotent product creation as overlapping transactions. A transaction inserts the key first; a
  second one with the same key waits for it, then reads the stored response under a row lock. Any
  transaction may roll back at any point, and a committed key may be cleaned up when no reader has it.
 */
module Idempotency {
  import opened Outcomes

  type Key = string

  /** A request's product: the conflict target, the fields an upsert replaces, and those it keeps. */
  datatype Product = Product(owner: string, id: string, mutable: string, fixed: string)

  datatype Persisted = Persisted(uid: string, product: Product)

  datatype KeyRow = KeyRow(hash: string, response: Option<Persisted>)

  datatype Phase =
    | Begun
    | Inserted                       // key row written, no response yet
    | Upserted(created: Persisted)   // product written
    | Written(created: Persisted)    // response written; may commit
    | Conflicted                     // key row already there
    | Answered(row: KeyRow)          // key row locked and read; may commit

  datatype Txn = Txn(key: Key, hash: string, product: Product, phase: Phase)

  /** What a successful call with its own request hash returned, and in which lifetime of its key. */
  datatype Answer = Answer(key: Key, lifetime: nat, hash: string, created: Persisted)

  /** A committed insert: the key, its lifetime, the request that made it, and the product it upserted. */
  datatype Made = Made(key: Key, lifetime: nat, hash: string, created: Persisted)

  datatype Store = Store(
    keys: map<Key, KeyRow>,
    products: map<(string, string), Persisted>,
    txns: map<nat, Txn>,
    lifetimes: map<Key, nat>,          // how often each key has been cleaned up
    answers: seq<Answer>,
    upserts: seq<Made>,                // committed inserts, with their upserts
    incomplete: nat)                   // calls refused as incomplete

  const EMPTY := Store(map[], map[], map[], map[], [], [], 0)

  datatype Event =
    | Begin(t: nat, key: Key, hash: string, product: Product)
    | Insert(t: nat)
    | Upsert(t: nat, newUid: string)
    | WriteResponse(t: nat)
    | Read(t: nat)
    | Commit(t: nat)
    | Abort(t: nat)
    | Cleanup(key: Key)

  function Lifetime(s: Store, key: Key): nat {
    if key in s.lifetimes then s.lifetimes[key] else 0
  }

  predicate Inserting(phase: Phase) {
    phase.Inserted? || phase.Upserted? || phase.Written?
  }

  predicate InsertPending(s: Store, t: nat, key: Key) {
    exists u :: u in s.txns && u != t && s.txns[u].key == key && Inserting(s.txns[u].phase)
  }

  predicate ReadLocked(s: Store, t: nat, key: Key) {
    exists u :: u in s.txns && u != t && s.txns[u].key == key && s.txns[u].phase.Answered?
  }

  predicate Reading(s: Store, key: Key) {
    exists u :: u in s.txns && s.txns[u].key == key && s.txns[u].phase.Answered?
  }

  predicate ProductLocked(s: Store, t: nat, product: Product) {
    exists u :: u in s.txns && u != t && (s.txns[u].phase.Upserted? || s.txns[u].phase.Written?)
      && s.txns[u].product.owner == product.owner && s.txns[u].product.id == product.id
  }

  /** The upsert: a new product, or the stored one with its replaceable fields replaced. */
  function UpsertedRow(s: Store, product: Product, newUid: string): Persisted {
    var slot := (product.owner, product.id);
    if slot in s.products
    then s.products[slot].(product := s.products[slot].product.(mutable := product.mutable))
    else Persisted(newUid, product)
  }

  function Put(s: Store, t: nat, phase: Phase): Store
    requires t in s.txns
  {
    s.(txns := s.txns[t := s.txns[t].(phase := phase)])
  }

  function Drop(s: Store, t: nat): Store {
    s.(txns := s.txns - {t})
  }

  function CommitTxn(s: Store, t: nat): Store
    requires t in s.txns
  {
    var x := s.txns[t];
    match x.phase
    case Written(created) =>
      Drop(s, t).(
        keys := s.keys[x.key := KeyRow(x.hash, Some(created))],
        products := s.products[(x.product.owner, x.product.id) := created],
        answers := s.answers + [Answer(x.key, Lifetime(s, x.key), x.hash, created)],
        upserts := s.upserts + [Made(x.key, Lifetime(s, x.key), x.hash, created)])
    case Answered(row) =>
      if row.response.None? then Drop(s, t)
      else Drop(s, t).(answers := s.answers + [Answer(x.key, Lifetime(s, x.key), x.hash, row.response.value)])
    case _ => s
  }

  function Step(s: Store, e: Event): Store {
    match e
    case Begin(t, key, hash, product) =>
      if t in s.txns then s else s.(txns := s.txns[t := Txn(key, hash, product, Begun)])
    case Insert(t) =>
      if t !in s.txns || s.txns[t].phase != Begun || InsertPending(s, t, s.txns[t].key) then s
      else Put(s, t, if s.txns[t].key in s.keys then Conflicted else Inserted)
    case Upsert(t, newUid) =>
      if t !in s.txns || s.txns[t].phase != Inserted || ProductLocked(s, t, s.txns[t].product) then s
      else Put(s, t, Upserted(UpsertedRow(s, s.txns[t].product, newUid)))
    case WriteResponse(t) =>
      if t !in s.txns || !s.txns[t].phase.Upserted? then s else Put(s, t, Written(s.txns[t].phase.created))
    case Read(t) =>
      if t !in s.txns || s.txns[t].phase != Conflicted || ReadLocked(s, t, s.txns[t].key) then s
      else
        var x := s.txns[t];
        if x.key !in s.keys || s.keys[x.key].hash != x.hash then Drop(s, t)
        else if s.keys[x.key].response.None? then Drop(s, t).(incomplete := s.incomplete + 1)
        else Put(s, t, Answered(s.keys[x.key]))
    case Commit(t) => if t in s.txns then CommitTxn(s, t) else s
    case Abort(t) => Drop(s, t)
    case Cleanup(key) =>
      if key !in s.keys || Reading(s, key) then s
      else s.(keys := s.keys - {key}, lifetimes := s.lifetimes[key := Lifetime(s, key) + 1])
  }

  function Run(events: seq<Event>): Store {
    if events == [] then EMPTY else Step(Run(events[..|events| - 1]), events[|events| - 1])
  }

  // ---------------------------------------------------------------- the invariant

  predicate KeysComplete(s: Store) {
    && s.incomplete == 0
    && forall key :: key in s.keys ==> s.keys[key].response.Some?
  }

  ghost predicate TxnsOk(s: Store) {
    && (forall t :: t in s.txns && Inserting(s.txns[t].phase) ==> s.txns[t].key !in s.keys)
    && (forall t, u ::
          (t in s.txns && u in s.txns && t != u && Inserting(s.txns[t].phase) && Inserting(s.txns[u].phase))
          ==> s.txns[t].key != s.txns[u].key)
    && (forall t :: t in s.txns && s.txns[t].phase.Answered? ==>
          && s.txns[t].key in s.keys && s.keys[s.txns[t].key] == s.txns[t].phase.row
          && s.txns[t].phase.row.hash == s.txns[t].hash)
  }

  /** An answer of the key's current lifetime is the stored response; earlier lifetimes are over. */
  predicate AnswerOk(s: Store, a: Answer) {
    && a.lifetime <= Lifetime(s, a.key)
    && (a.lifetime == Lifetime(s, a.key) ==>
          a.key in s.keys && s.keys[a.key] == KeyRow(a.hash, Some(a.created)))
    && Made(a.key, a.lifetime, a.hash, a.created) in s.upserts
  }

  ghost predicate AnswersOk(s: Store) {
    && (forall a :: a in s.answers ==> AnswerOk(s, a))
    && (forall a, b :: a in s.answers && b in s.answers && a.key == b.key && a.lifetime == b.lifetime ==> a == b)
  }

  ghost predicate UpsertsOk(s: Store) {
    && (forall i, j :: 0 <= i < j < |s.upserts| ==>
          s.upserts[i].key != s.upserts[j].key || s.upserts[i].lifetime != s.upserts[j].lifetime)
    && (forall u :: u in s.upserts ==> MadeOk(s, u))
    && (forall key :: key in s.keys ==>
          && s.keys[key].response.Some?
          && Made(key, Lifetime(s, key), s.keys[key].hash, s.keys[key].response.value) in s.upserts)
  }

  predicate MadeOk(s: Store, u: Made) {
    u.lifetime <= Lifetime(s, u.key) && (u.lifetime == Lifetime(s, u.key) ==> u.key in s.keys)
  }

  ghost predicate Good(s: Store) {
    KeysComplete(s) && TxnsOk(s) && AnswersOk(s) && UpsertsOk(s)
  }

  lemma CommitInsertTxns(s: Store, t: nat)
    requires TxnsOk(s) && t in s.txns && s.txns[t].phase.Written?
    ensures TxnsOk(CommitTxn(s, t))
  {
  }

  lemma CommitInsertUpserts(s: Store, t: nat)
    requires UpsertsOk(s) && t in s.txns && s.txns[t].phase.Written? && s.txns[t].key !in s.keys
    ensures UpsertsOk(CommitTxn(s, t))
  {
    var x, after := s.txns[t], CommitTxn(s, t);
    var u := Made(x.key, Lifetime(s, x.key), x.hash, x.phase.created);
    assert after.upserts == s.upserts + [u];
    assert forall v :: v in after.upserts <==> v in s.upserts || v == u;
    assert forall key :: Lifetime(after, key) == Lifetime(s, key);
    forall v | v in s.upserts ensures MadeOk(after, v) && (v.key != u.key || v.lifetime != u.lifetime) {
      assert MadeOk(s, v);
    }
  }

  lemma CommitInsertAnswers(s: Store, t: nat)
    requires AnswersOk(s) && t in s.txns && s.txns[t].phase.Written? && s.txns[t].key !in s.keys
    ensures AnswersOk(CommitTxn(s, t))
  {
    var x, after := s.txns[t], CommitTxn(s, t);
    var made := Answer(x.key, Lifetime(s, x.key), x.hash, x.phase.created);
    assert after.answers == s.answers + [made];
    assert forall a :: a in after.answers <==> a in s.answers || a == made;
    assert forall v :: v in s.upserts ==> v in after.upserts;
    assert Made(made.key, made.lifetime, made.hash, made.created) in after.upserts;
    assert forall key :: Lifetime(after, key) == Lifetime(s, key);
    forall a | a in s.answers ensures AnswerOk(after, a) && !(a.key == made.key && a.lifetime == made.lifetime) {
      assert AnswerOk(s, a);
    }
    assert AnswerOk(after, made);
  }

  lemma CommitInsertKeeps(s: Store, t: nat)
    requires Good(s) && t in s.txns && s.txns[t].phase.Written?
    ensures Good(CommitTxn(s, t))
  {
    CommitInsertTxns(s, t);
    CommitInsertUpserts(s, t);
    CommitInsertAnswers(s, t);
  }

  lemma CommitAnswerKeeps(s: Store, t: nat)
    requires Good(s) && t in s.txns && s.txns[t].phase.Answered?
    ensures Good(CommitTxn(s, t))
  {
    var x, after := s.txns[t], CommitTxn(s, t);
    assert s.keys[x.key] == x.phase.row && x.phase.row.response.Some?;
    var made := Answer(x.key, Lifetime(s, x.key), x.hash, x.phase.row.response.value);
    assert forall a :: a in after.answers <==> a in s.answers || a == made;
    assert AnswerOk(after, made);
    forall a | a in s.answers
      ensures AnswerOk(after, a) && (a.key == made.key && a.lifetime == made.lifetime ==> a == made)
    {
      assert AnswerOk(s, a);
    }
  }

  lemma CleanupAnswers(s: Store, key: Key)
    requires AnswersOk(s)
    ensures AnswersOk(Step(s, Cleanup(key)))
  {
    var after := Step(s, Cleanup(key));
    forall a | a in s.answers ensures AnswerOk(after, a) {
      assert AnswerOk(s, a);
    }
  }

  lemma CleanupUpserts(s: Store, key: Key)
    requires UpsertsOk(s)
    ensures UpsertsOk(Step(s, Cleanup(key)))
  {
    var after := Step(s, Cleanup(key));
    if after != s {
      assert forall k :: k in after.keys ==> k in s.keys && Lifetime(after, k) == Lifetime(s, k);
    }
  }

  lemma CleanupTxns(s: Store, key: Key)
    requires TxnsOk(s)
    ensures TxnsOk(Step(s, Cleanup(key)))
  {
  }

  lemma CleanupKeeps(s: Store, key: Key)
    requires Good(s)
    ensures Good(Step(s, Cleanup(key)))
  {
    CleanupAnswers(s, key);
    CleanupUpserts(s, key);
    CleanupTxns(s, key);
  }

  lemma SameTablesKeep(s: Store, after: Store)
    requires Good(s) && TxnsOk(after)
    requires after.keys == s.keys && after.lifetimes == s.lifetimes && after.answers == s.answers
    requires after.upserts == s.upserts && after.incomplete == s.incomplete
    ensures Good(after)
  {
    forall a | a in s.answers ensures AnswerOk(after, a) {
      assert AnswerOk(s, a);
    }
  }

  /** A transaction moves on within its locks: it may start inserting only when no one else is. */
  lemma PutTxns(s: Store, t: nat, phase: Phase)
    requires TxnsOk(s) && t in s.txns
    requires Inserting(phase) && !Inserting(s.txns[t].phase) ==>
      s.txns[t].key !in s.keys && !InsertPending(s, t, s.txns[t].key)
    requires phase.Answered? ==>
      s.txns[t].key in s.keys && s.keys[s.txns[t].key] == phase.row && phase.row.hash == s.txns[t].hash
    ensures TxnsOk(Put(s, t, phase))
  {
  }

  lemma InsertKeeps(s: Store, t: nat)
    requires Good(s)
    ensures Good(Step(s, Insert(t)))
  {
    if Step(s, Insert(t)) != s {
      var phase := if s.txns[t].key in s.keys then Conflicted else Inserted;
      PutTxns(s, t, phase);
      SameTablesKeep(s, Put(s, t, phase));
    }
  }

  lemma UpsertKeeps(s: Store, t: nat, newUid: string)
    requires Good(s)
    ensures Good(Step(s, Upsert(t, newUid)))
  {
    if Step(s, Upsert(t, newUid)) != s {
      var phase := Upserted(UpsertedRow(s, s.txns[t].product, newUid));
      PutTxns(s, t, phase);
      SameTablesKeep(s, Put(s, t, phase));
    }
  }

  lemma WriteResponseKeeps(s: Store, t: nat)
    requires Good(s)
    ensures Good(Step(s, WriteResponse(t)))
  {
    if Step(s, WriteResponse(t)) != s {
      var phase := Written(s.txns[t].phase.created);
      PutTxns(s, t, phase);
      SameTablesKeep(s, Put(s, t, phase));
    }
  }

  lemma DropTxns(s: Store, t: nat)
    requires TxnsOk(s)
    ensures TxnsOk(Drop(s, t))
  {
  }

  lemma ReadKeeps(s: Store, t: nat)
    requires Good(s)
    ensures Good(Step(s, Read(t)))
  {
    var after := Step(s, Read(t));
    if after != s {
      DropTxns(s, t);
      SameTablesKeep(s, Drop(s, t));
      var x := s.txns[t];
      if x.key in s.keys && s.keys[x.key].hash == x.hash {
        PutTxns(s, t, Answered(s.keys[x.key]));
        SameTablesKeep(s, Put(s, t, Answered(s.keys[x.key])));
      }
    }
  }

  lemma BeginTxns(s: Store, t: nat, key: Key, hash: string, product: Product)
    requires TxnsOk(s)
    ensures TxnsOk(Step(s, Begin(t, key, hash, product)))
  {
  }

  lemma StepKeeps(s: Store, e: Event)
    requires Good(s)
    ensures Good(Step(s, e))
  {
    match e
    case Begin(t, key, hash, product) =>
      BeginTxns(s, t, key, hash, product);
      SameTablesKeep(s, Step(s, e));
    case Insert(t) => InsertKeeps(s, t);
    case Upsert(t, newUid) => UpsertKeeps(s, t, newUid);
    case WriteResponse(t) => WriteResponseKeeps(s, t);
    case Read(t) => ReadKeeps(s, t);
    case Abort(t) =>
      DropTxns(s, t);
      SameTablesKeep(s, Drop(s, t));
    case Cleanup(key) => CleanupKeeps(s, key);
    case Commit(t) =>
      if t in s.txns && s.txns[t].phase.Written? {
        CommitInsertKeeps(s, t);
      } else if t in s.txns && s.txns[t].phase.Answered? {
        CommitAnswerKeeps(s, t);
      }
  }

  lemma {:induction false} RunGood(events: seq<Event>)
    ensures Good(Run(events))
  {
    if events != [] {
      RunGood(events[..|events| - 1]);
      StepKeeps(Run(events[..|events| - 1]), events[|events| - 1]);
    }
  }

  // ---------------------------------------------------------------- guarantees over every run

  /** Every committed key carries a response, so no call is ever refused as incomplete. */
  lemma NeverIncomplete(events: seq<Event>, key: Key)
    ensures Run(events).incomplete == 0
    ensures key in Run(events).keys ==> Run(events).keys[key].response.Some?
  {
    RunGood(events);
  }

  /** How often a key's lifetime was opened by a committed insert. */
  function Openings(upserts: seq<Made>, key: Key, lifetime: nat): nat {
    if upserts == [] then 0
    else
      var last := upserts[|upserts| - 1];
      Openings(upserts[..|upserts| - 1], key, lifetime)
      + (if last.key == key && last.lifetime == lifetime then 1 else 0)
  }

  lemma {:induction false} NeverOpened(upserts: seq<Made>, key: Key, lifetime: nat)
    requires forall u :: u in upserts ==> u.key != key || u.lifetime != lifetime
    ensures Openings(upserts, key, lifetime) == 0
  {
    if upserts != [] {
      NeverOpened(upserts[..|upserts| - 1], key, lifetime);
    }
  }

  lemma {:induction false} OpenedOnce(upserts: seq<Made>, u: Made)
    requires forall i, j :: 0 <= i < j < |upserts| ==>
      upserts[i].key != upserts[j].key || upserts[i].lifetime != upserts[j].lifetime
    requires u in upserts
    ensures Openings(upserts, u.key, u.lifetime) == 1
  {
    var n := |upserts| - 1;
    assert upserts == upserts[..n] + [upserts[n]];
    if upserts[n] == u {
      NeverOpened(upserts[..n], u.key, u.lifetime);
    } else {
      var i :| 0 <= i < n && upserts[i] == u;
      assert upserts[..n][i] == u;
      OpenedOnce(upserts[..n], u);
    }
  }

  /**
    Until a key is cleaned up, all successful calls with it carry the request hash of the one insert that
    created it, and are answered with the one product that insert upserted.
   */
  lemma OneProductPerKey(events: seq<Event>, i: nat, j: nat)
    requires i < |Run(events).answers| && j < |Run(events).answers|
    requires Run(events).answers[i].key == Run(events).answers[j].key
    requires Run(events).answers[i].lifetime == Run(events).answers[j].lifetime
    ensures var s := Run(events); var a := s.answers[i];
      && s.answers[j].created == a.created && s.answers[j].hash == a.hash
      && Made(a.key, a.lifetime, a.hash, a.created) in s.upserts
      && Openings(s.upserts, a.key, a.lifetime) == 1
  {
    RunGood(events);
    var s := Run(events);
    assert s.answers[i] in s.answers && s.answers[j] in s.answers && AnswerOk(s, s.answers[i]);
    var a := s.answers[i];
    OpenedOnce(s.upserts, Made(a.key, a.lifetime, a.hash, a.created));
  }

  // ---------------------------------------------------------------- what each call gets

  predicate NoReader(s: Store, t: nat, key: Key) {
    forall u :: u in s.txns && u != t && s.txns[u].phase.Answered? ==> s.txns[u].key != key
  }

  lemma ReadSettles(s: Store, t: nat)
    requires t in s.txns && s.txns[t].phase == Conflicted && s.txns[t].key in s.keys
    requires NoReader(s, t, s.txns[t].key) && s.keys[s.txns[t].key].response.Some?
    ensures Step(s, Read(t)) ==
      if s.txns[t].hash == s.keys[s.txns[t].key].hash then Put(s, t, Answered(s.keys[s.txns[t].key])) else Drop(s, t)
  {
    assert !ReadLocked(s, t, s.txns[t].key);
  }

  lemma AnswerCommits(s: Store, t: nat, row: KeyRow)
    requires t in s.txns && row.response.Some?
    ensures var after := Step(Put(s, t, Answered(row)), Commit(t)); var x := s.txns[t];
      && after.txns == s.txns - {t} && after.keys == s.keys && after.products == s.products
      && after.answers == s.answers + [Answer(x.key, Lifetime(s, x.key), x.hash, row.response.value)]
  {
    assert s.txns[t := s.txns[t].(phase := Answered(row))] - {t} == s.txns - {t};
  }

  /**
    A call that finds its key committed, and is not kept waiting, is answered with the stored response
    exactly when its request hash is the stored one; otherwise it ends without an answer.
   */
  lemma ReadExactly(events: seq<Event>, t: nat)
    requires var s := Run(events);
      && t in s.txns && s.txns[t].phase == Conflicted && s.txns[t].key in s.keys
      && forall u :: u in s.txns && u != t && s.txns[u].phase.Answered? ==> s.txns[u].key != s.txns[t].key
    ensures var s := Run(events); var x, row := s.txns[t], s.keys[s.txns[t].key];
      var after := Step(Step(s, Read(t)), Commit(t));
      && row.response.Some? && t !in after.txns && after.keys == s.keys && after.products == s.products
      && after.answers == if x.hash == row.hash
           then s.answers + [Answer(x.key, Lifetime(s, x.key), x.hash, row.response.value)] else s.answers
  {
    var s := Run(events);
    NeverIncomplete(events, s.txns[t].key);
    ReadSettles(s, t);
    AnswerCommits(s, t, s.keys[s.txns[t].key]);
  }

  /** A call whose key was cleaned up after its conflict ends without an answer too. */
  lemma GoneKeyRefused(s: Store, t: nat)
    requires t in s.txns && s.txns[t].phase == Conflicted && s.txns[t].key !in s.keys
    requires forall u :: u in s.txns && u != t && s.txns[u].phase.Answered? ==> s.txns[u].key != s.txns[t].key
    ensures Step(s, Read(t)) == s.(txns := s.txns - {t})
  {
  }

  /** The product a new key stores: the stored one with the request's replaceable fields, or the request's own. */
  function Upserting(s: Store, product: Product, newUid: string): Persisted {
    if (product.owner, product.id) in s.products then
      var before := s.products[(product.owner, product.id)];
      Persisted(before.uid, Product(before.product.owner, before.product.id, product.mutable, before.product.fixed))
    else Persisted(newUid, product)
  }

  function Started(s: Store, t: nat, key: Key, hash: string, product: Product): Store {
    Step(Step(s, Begin(t, key, hash, product)), Insert(t))
  }

  function Completed(s: Store, t: nat, newUid: string): Store {
    Step(Step(Step(s, Upsert(t, newUid)), WriteResponse(t)), Commit(t))
  }

  lemma NewKeyStarts(s: Store, t: nat, key: Key, hash: string, product: Product)
    requires t !in s.txns
    requires forall u :: u in s.txns && s.txns[u].key == key ==>
      !s.txns[u].phase.Inserted? && !s.txns[u].phase.Upserted? && !s.txns[u].phase.Written?
    ensures Started(s, t, key, hash, product)
         == s.(txns := s.txns[t := Txn(key, hash, product, if key in s.keys then Conflicted else Inserted)])
  {
    var begun := Step(s, Begin(t, key, hash, product));
    assert begun.txns[t] == Txn(key, hash, product, Begun);
    assert forall u :: u in begun.txns && u != t ==> begun.txns[u] == s.txns[u];
    assert !InsertPending(begun, t, key);
  }

  /** An inserting call that is not kept waiting upserts the product, stores it as the key's response and returns it. */
  lemma InsertCompletes(s: Store, t: nat, newUid: string)
    requires t in s.txns && s.txns[t].phase == Inserted
    requires forall u :: u in s.txns && u != t && (s.txns[u].phase.Upserted? || s.txns[u].phase.Written?) ==>
      s.txns[u].product.owner != s.txns[t].product.owner || s.txns[u].product.id != s.txns[t].product.id
    ensures var x := s.txns[t]; var created := Upserting(s, x.product, newUid); var after := Completed(s, t, newUid);
      && t !in after.txns
      && after.keys == s.keys[x.key := KeyRow(x.hash, Some(created))]
      && after.products == s.products[(x.product.owner, x.product.id) := created]
      && after.answers == s.answers + [Answer(x.key, Lifetime(s, x.key), x.hash, created)]
  {
    var x, created := s.txns[t], Upserting(s, s.txns[t].product, newUid);
    assert Step(s, Upsert(t, newUid)) == Put(s, t, Upserted(created));
    var upserted := Put(s, t, Upserted(created));
    assert Step(upserted, WriteResponse(t)) == Put(upserted, t, Written(created));
  }

  /** A rollback leaves no trace, and a cleanup opens the key's next lifetime unless a reader holds it. */
  lemma EndingsExactly(s: Store, t: nat, key: Key)
    ensures Step(s, Abort(t)) == s.(txns := s.txns - {t})
    ensures var after := Step(s, Cleanup(key));
      if key in s.keys && forall u :: u in s.txns && s.txns[u].phase.Answered? ==> s.txns[u].key != key
      then key !in after.keys && Lifetime(after, key) == Lifetime(s, key) + 1 && after.products == s.products
      else after == s
  {
  }
}
