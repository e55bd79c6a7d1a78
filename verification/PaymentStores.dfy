/** The two replay stores: one keyed by signature in memory, one keyed by its hash in a table. */
module PaymentStores {
  import opened Outcomes

  type Signature = string

  datatype PaymentRecord = PaymentRecord(productId: string, payTo: string, amountAtomic: string, signature: Signature)

  datatype SaveError = PaymentReplayed

  class MemoryPaymentStore {
    var records: map<Signature, PaymentRecord>
    var authorizations: set<string>

    constructor ()
      ensures records == map[] && authorizations == {}
    {
      records, authorizations := map[], {};
    }

    method Has(signature: Signature) returns (found: bool)
      ensures found <==> signature in records
    {
      found := signature in records;
    }

    /** The insert is the gate: exactly the first save of a signature succeeds. */
    method Save(record: PaymentRecord) returns (result: Result<(), SaveError>)
      modifies this
      ensures result.Ok? <==> record.signature !in old(records)
      ensures records == if result.Ok? then old(records)[record.signature := record] else old(records)
      ensures authorizations == old(authorizations)
    {
      if record.signature in records {
        return Err(PaymentReplayed);
      }
      records := records[record.signature := record];
      return Ok(());
    }

    method ReserveAuthorization(fingerprint: string) returns (reserved: bool)
      modifies this
      ensures reserved <==> fingerprint !in old(authorizations)
      ensures authorizations == old(authorizations) + {fingerprint} && records == old(records)
    {
      if fingerprint in authorizations {
        return false;
      }
      authorizations := authorizations + {fingerprint};
      return true;
    }
  }

  datatype ConsumedPayment = ConsumedPayment(productId: string, recipient: string, amountAtomic: string)

  datatype FingerprintError = PaymentFingerprintInvalid

  predicate HexDigest(fingerprint: string) {
    |fingerprint| == 64 && forall c :: c in fingerprint ==> 'a' <= c <= 'f' || '0' <= c <= '9'
  }

  class StandalonePaymentStore {
    const hash: Signature -> string
    var consumed: map<string, ConsumedPayment>
    var reservations: set<string>

    constructor (hash: Signature -> string)
      ensures this.hash == hash && consumed == map[] && reservations == {}
    {
      this.hash, consumed, reservations := hash, map[], {};
    }

    method Has(signature: Signature) returns (found: bool)
      ensures found <==> hash(signature) in consumed
    {
      found := hash(signature) in consumed;
    }

    method Save(record: PaymentRecord) returns (result: Result<(), SaveError>)
      modifies this
      ensures result.Ok? <==> hash(record.signature) !in old(consumed)
      ensures consumed == if result.Ok?
        then old(consumed)[
          hash(record.signature) := ConsumedPayment(record.productId, record.payTo, record.amountAtomic)]
        else old(consumed)
      ensures reservations == old(reservations)
    {
      var key := hash(record.signature);
      if key in consumed {
        return Err(PaymentReplayed);  // unique violation
      }
      consumed := consumed[key := ConsumedPayment(record.productId, record.payTo, record.amountAtomic)];
      return Ok(());
    }

    method ReserveAuthorization(fingerprint: string) returns (result: Result<bool, FingerprintError>)
      modifies this
      ensures result.Err? <==>
        !(|fingerprint| == 64 && forall c :: c in fingerprint ==> 'a' <= c <= 'f' || '0' <= c <= '9')
      ensures result.Ok? ==> (result.value <==> fingerprint !in old(reservations))
      ensures reservations == if result.Ok? then old(reservations) + {fingerprint} else old(reservations)
      ensures consumed == old(consumed)
    {
      if !HexDigest(fingerprint) {
        return Err(PaymentFingerprintInvalid);
      }
      var isNew := fingerprint !in reservations;
      reservations := reservations + {fingerprint};
      return Ok(isNew);
    }
  }

  // ---------------------------------------------------------------- the two stores answer alike

  /** The keys under which the records' signatures are stored. */
  function Stored(key: Signature -> string, records: seq<PaymentRecord>): set<string> {
    set r | r in records :: key(r.signature)
  }

  /** What a store that keys signatures in this way answers to each of a series of saves. */
  function Answers(key: Signature -> string, records: seq<PaymentRecord>): (answers: seq<bool>)
    ensures |answers| == |records|
  {
    if records == [] then []
    else
      var init, last := records[..|records| - 1], records[|records| - 1];
      Answers(key, init) + [key(last.signature) !in Stored(key, init)]
  }

  function Plain(signature: Signature): string {
    signature
  }

  lemma OneMoreSave(key: Signature -> string, records: seq<PaymentRecord>, k: nat)
    requires k < |records|
    ensures var before, added := Stored(key, records[..k]), key(records[k].signature);
      && Stored(key, records[..k + 1]) == before + {added}
      && Answers(key, records[..k + 1]) == Answers(key, records[..k]) + [added !in before]
  {
    assert records[..k + 1] == records[..k] + [records[k]] && records[..k + 1][..k] == records[..k];
  }

  /** A new in-memory store is given a series of saves. */
  method SaveInMemory(records: seq<PaymentRecord>) returns (store: MemoryPaymentStore, answers: seq<bool>)
    ensures answers == Answers(Plain, records)
    ensures fresh(store) && store.records.Keys == Stored(Plain, records)
  {
    store := new MemoryPaymentStore();
    answers := [];
    for k := 0 to |records|
      invariant fresh(store) && store.records.Keys == Stored(Plain, records[..k])
      invariant answers == Answers(Plain, records[..k])
    {
      OneMoreSave(Plain, records, k);
      var result := store.Save(records[k]);
      answers := answers + [result.Ok?];
    }
    assert records[..|records|] == records;
  }

  /** A new store keyed by hash is given a series of saves. */
  method SaveByHash(hash: Signature -> string, records: seq<PaymentRecord>)
    returns (store: StandalonePaymentStore, answers: seq<bool>)
    ensures answers == Answers(hash, records)
    ensures fresh(store) && store.consumed.Keys == Stored(hash, records)
  {
    store := new StandalonePaymentStore(hash);
    answers := [];
    for k := 0 to |records|
      invariant fresh(store) && store.hash == hash && store.consumed.Keys == Stored(hash, records[..k])
      invariant answers == Answers(hash, records[..k])
    {
      OneMoreSave(hash, records, k);
      var result := store.Save(records[k]);
      answers := answers + [result.Ok?];
    }
    assert records[..|records|] == records;
  }

  lemma StoredAt(key: Signature -> string, records: seq<PaymentRecord>, stored: string)
    ensures stored in Stored(key, records) <==> exists i :: 0 <= i < |records| && key(records[i].signature) == stored
  {
    if stored in Stored(key, records) {
      var r :| r in records && key(r.signature) == stored;
      var i :| 0 <= i < |records| && records[i] == r;
    }
  }

  lemma {:induction false} AnswerAt(key: Signature -> string, records: seq<PaymentRecord>, k: nat)
    requires k < |records|
    ensures Answers(key, records)[k] <==>
      forall i :: 0 <= i < k ==> key(records[i].signature) != key(records[k].signature)
  {
    var n := |records| - 1;
    if k < n {
      AnswerAt(key, records[..n], k);
    } else {
      StoredAt(key, records[..n], key(records[n].signature));
    }
  }

  /** No two different signatures of the series have the same hash. */
  predicate NoCollision(hash: Signature -> string, records: seq<PaymentRecord>) {
    forall i, j ::
      (0 <= i < |records| && 0 <= j < |records| && hash(records[i].signature) == hash(records[j].signature))
      ==> records[i].signature == records[j].signature
  }

  /** The first record with a given signature. */
  lemma {:induction false} FirstWith(records: seq<PaymentRecord>, k: nat) returns (i: nat)
    requires k < |records|
    ensures i <= k && records[i].signature == records[k].signature
    ensures forall j :: 0 <= j < i ==> records[j].signature != records[i].signature
  {
    i := k;
    if j :| 0 <= j < k && records[j].signature == records[k].signature {
      i := FirstWith(records, j);
    }
  }

  lemma CollisionShows(hash: Signature -> string, records: seq<PaymentRecord>, i: nat, j: nat)
    requires i < |records| && j < |records|
    requires hash(records[i].signature) == hash(records[j].signature) && records[i].signature != records[j].signature
    ensures Answers(hash, records) != Answers(Plain, records)
  {
    var a := FirstWith(records, i);
    var b := FirstWith(records, j);
    var later := if a < b then b else a;
    AnswerAt(Plain, records, later);
    AnswerAt(hash, records, later);
  }

  /**
    The hashed store never accepts a save the in-memory store refuses, and the two answer a series of
    saves alike exactly when no two different signatures in it have the same hash.
   */
  lemma StoresAgree(hash: Signature -> string, records: seq<PaymentRecord>)
    ensures forall k :: 0 <= k < |records| && Answers(hash, records)[k] ==> Answers(Plain, records)[k]
    ensures Answers(hash, records) == Answers(Plain, records) <==> NoCollision(hash, records)
  {
    forall k | 0 <= k < |records|
      ensures Answers(hash, records)[k] ==> Answers(Plain, records)[k]
      ensures NoCollision(hash, records) ==> Answers(hash, records)[k] == Answers(Plain, records)[k]
    {
      AnswerAt(hash, records, k);
      AnswerAt(Plain, records, k);
    }
    forall i: nat, j: nat | i < |records| && j < |records|
        && hash(records[i].signature) == hash(records[j].signature) && records[i].signature != records[j].signature
      ensures Answers(hash, records) != Answers(Plain, records)
    {
      CollisionShows(hash, records, i, j);
    }
  }
}
