/** Self-service evidence records and the append-only ledger they are kept in. */
module Evidence {
  import opened Outcomes
  import opened Sequences

  datatype ParticipantClass =
    InternalMaintainer | Synthetic | ExternalIndependent | ExternalCompensated | ExternalOther

  datatype Milestone =
    InitializerStarted | First402 | SettlementFinalized | ProtectedResponse | ReplayRejected | DaySevenRetained

  datatype Result = Passed | NotPassed | Undetermined | Abandoned

  datatype ConsentStatus = Granted | Denied | Withdrawn

  datatype Consents = Consents(
    technicalParticipation: ConsentStatus,
    privateEvidenceRetention: ConsentStatus,
    daySevenFollowup: ConsentStatus,
    aggregateReporting: ConsentStatus)

  datatype Record = Record(
    evidenceId: string,
    engagementId: string,
    classification: ParticipantClass,
    milestone: Milestone,
    outcome: Result,
    interventionCount: nat,
    durationMs: Option<nat>,
    consents: Consents)

  datatype AppendError = EvidenceIdAlreadyRecorded | ClassificationImmutable

  /** The first record of an engagement: the only one an append compares with. */
  function FirstOf(records: seq<Record>, engagementId: string): Option<Record> {
    if records == [] then None
    else if records[0].engagementId == engagementId then Some(records[0])
    else FirstOf(records[1..], engagementId)
  }

  function AppendRefusal(records: seq<Record>, r: Record): Option<AppendError> {
    if exists other :: other in records && other.evidenceId == r.evidenceId then Some(EvidenceIdAlreadyRecorded)
    else
      var prior := FirstOf(records, r.engagementId);
      if prior.Some? && prior.value.classification != r.classification then Some(ClassificationImmutable) else None
  }

  class EvidenceLedger {
    var records: seq<Record>

    constructor ()
      ensures records == []
    {
      records := [];
    }

    method Append(r: Record) returns (refusal: Option<AppendError>)
      modifies this
      ensures refusal == AppendRefusal(old(records), r)
      ensures records == if refusal.None? then old(records) + [r] else old(records)
    {
      if exists other :: other in records && other.evidenceId == r.evidenceId {
        return Some(EvidenceIdAlreadyRecorded);
      }
      var prior := FirstOf(records, r.engagementId);
      if prior.Some? && prior.value.classification != r.classification {
        return Some(ClassificationImmutable);
      }
      records := records + [r];
      return None;
    }
  }

  /** The ledger after a series of attempted appends. */
  function Ledger(attempts: seq<Record>): seq<Record> {
    if attempts == [] then []
    else
      var before, r := Ledger(attempts[..|attempts| - 1]), attempts[|attempts| - 1];
      if AppendRefusal(before, r).None? then before + [r] else before
  }

  predicate IdsDistinct(records: seq<Record>) {
    forall i, j :: 0 <= i < j < |records| ==> records[i].evidenceId != records[j].evidenceId
  }

  predicate OneClassEach(records: seq<Record>) {
    forall i, j :: (0 <= i < |records| && 0 <= j < |records| && records[i].engagementId == records[j].engagementId)
      ==> records[i].classification == records[j].classification
  }

  lemma {:induction false} FirstIsFirst(records: seq<Record>, engagementId: string)
    ensures match FirstOf(records, engagementId)
      case Some(r) => r in records && r.engagementId == engagementId
      case None => forall r :: r in records ==> r.engagementId != engagementId
  {
    if records != [] && records[0].engagementId != engagementId {
      FirstIsFirst(records[1..], engagementId);
      assert records == [records[0]] + records[1..];
    }
  }

  /** In a sound ledger comparing with the first record is comparing with all of them. */
  lemma AppendKeepsExactly(records: seq<Record>, r: Record)
    requires IdsDistinct(records) && OneClassEach(records)
    ensures AppendRefusal(records, r).None? <==> IdsDistinct(records + [r]) && OneClassEach(records + [r])
  {
    FirstIsFirst(records, r.engagementId);
    var more := records + [r];
    assert more[|records|] == r && forall i :: 0 <= i < |records| ==> more[i] == records[i] && records[i] in records;
    if AppendRefusal(records, r).None? {
      var prior := FirstOf(records, r.engagementId);
      forall i | 0 <= i < |records| && records[i].engagementId == r.engagementId
        ensures records[i].classification == r.classification
      {
        var k :| 0 <= k < |records| && records[k] == prior.value;
      }
    } else {
      var other :| other in records &&
        (other.evidenceId == r.evidenceId
            || (other.engagementId == r.engagementId && other.classification != r.classification));
      var k :| 0 <= k < |records| && records[k] == other;
      assert more[k] == other;
    }
  }

  /** Over any series of appends, evidence ids stay distinct and an engagement keeps one classification. */
  lemma {:induction false} LedgerSound(attempts: seq<Record>)
    ensures IdsDistinct(Ledger(attempts)) && OneClassEach(Ledger(attempts))
  {
    if attempts != [] {
      LedgerSound(attempts[..|attempts| - 1]);
      AppendKeepsExactly(Ledger(attempts[..|attempts| - 1]), attempts[|attempts| - 1]);
    }
  }

  // ---------------------------------------------------------------- overlapping appends

  /** An append whose read of the file saw its first records only: others may have written since. */
  datatype Attempt = Attempt(record: Record, seen: nat)

  function Read(file: seq<Record>, seen: nat): seq<Record> {
    if seen <= |file| then file[..seen] else file
  }

  predicate Written(file: seq<Record>, attempt: Attempt) {
    AppendRefusal(Read(file, attempt.seen), attempt.record).None?
  }

  /** The file after a series of writes, each decided by what its own append had read. */
  function File(attempts: seq<Attempt>): seq<Record> {
    if attempts == [] then []
    else
      var file, last := File(attempts[..|attempts| - 1]), attempts[|attempts| - 1];
      if Written(file, last) then file + [last.record] else file
  }

  predicate Sound(records: seq<Record>) {
    IdsDistinct(records) && OneClassEach(records)
  }

  /** A record that was written would also pass the check against the file it was written to. */
  predicate Rechecks(attempts: seq<Attempt>, k: nat)
    requires k < |attempts|
  {
    var file := File(attempts[..k]);
    Written(file, attempts[k]) ==> AppendRefusal(file, attempts[k].record).None?
  }

  lemma SoundPrefix(records: seq<Record>, r: Record)
    requires Sound(records + [r])
    ensures Sound(records)
  {
    assert forall i :: 0 <= i < |records| ==> (records + [r])[i] == records[i];
  }

  lemma WriteSoundExactly(file: seq<Record>, last: Attempt)
    ensures Sound(if Written(file, last) then file + [last.record] else file) <==>
      Sound(file) && (Written(file, last) ==> AppendRefusal(file, last.record).None?)
  {
    if Written(file, last) && Sound(file + [last.record]) {
      SoundPrefix(file, last.record);
    }
    if Sound(file) {
      AppendKeepsExactly(file, last.record);
    }
  }

  predicate AllRecheck(attempts: seq<Attempt>) {
    forall k :: 0 <= k < |attempts| ==> Rechecks(attempts, k)
  }

  lemma RecheckSame(attempts: seq<Attempt>, n: nat, k: nat)
    requires k < n <= |attempts|
    ensures Rechecks(attempts[..n], k) <==> Rechecks(attempts, k)
  {
    assert attempts[..n][..k] == attempts[..k];
  }

  lemma RecheckPrefix(attempts: seq<Attempt>)
    requires attempts != []
    ensures AllRecheck(attempts) <==> AllRecheck(attempts[..|attempts| - 1]) && Rechecks(attempts, |attempts| - 1)
  {
    var n := |attempts| - 1;
    forall k | 0 <= k < n ensures Rechecks(attempts, k) <==> Rechecks(attempts[..n], k) {
      RecheckSame(attempts, n, k);
    }
  }

  /**
    However appends overlap, the file stays sound exactly as long as every record that is written would
    pass the check again at the moment of its write.
   */
  lemma {:induction false} OverlapsSoundExactly(attempts: seq<Attempt>)
    ensures Sound(File(attempts)) <==> AllRecheck(attempts)
  {
    if attempts != [] {
      var init := attempts[..|attempts| - 1];
      OverlapsSoundExactly(init);
      RecheckPrefix(attempts);
      WriteSoundExactly(File(init), attempts[|attempts| - 1]);
    }
  }

  function Records(attempts: seq<Attempt>): seq<Record> {
    if attempts == [] then [] else Records(attempts[..|attempts| - 1]) + [attempts[|attempts| - 1].record]
  }

  /** Every append read the whole file as it was at its write. */
  predicate ReadWhole(attempts: seq<Attempt>) {
    forall k :: 0 <= k < |attempts| ==> |File(attempts[..k])| <= attempts[k].seen
  }

  lemma ReadWholePrefix(attempts: seq<Attempt>, n: nat)
    requires ReadWhole(attempts) && n <= |attempts|
    ensures ReadWhole(attempts[..n])
  {
    forall k | 0 <= k < n ensures |File(attempts[..n][..k])| <= attempts[..n][k].seen {
      assert attempts[..n][..k] == attempts[..k];
    }
  }

  lemma LedgerAppend(records: seq<Record>, r: Record)
    ensures Ledger(records + [r]) ==
      if AppendRefusal(Ledger(records), r).None? then Ledger(records) + [r] else Ledger(records)
  {
    assert (records + [r])[..|records|] == records;
  }

  /** Appends that do not overlap read the whole file; their file is the ledger. */
  lemma {:induction false} WithoutOverlap(attempts: seq<Attempt>)
    requires ReadWhole(attempts)
    ensures File(attempts) == Ledger(Records(attempts))
  {
    if attempts != [] {
      var n := |attempts| - 1;
      ReadWholePrefix(attempts, n);
      WithoutOverlap(attempts[..n]);
      LedgerAppend(Records(attempts[..n]), attempts[n].record);
      assert Read(File(attempts[..n]), attempts[n].seen) == File(attempts[..n]);
    }
  }

  /** Two overlapping appends of one record are both written and leave a duplicate id. */
  lemma OverlappingAppendsBreak(r: Record)
    ensures var file := File([Attempt(r, 0), Attempt(r, 0)]);
      file == [r, r] && !IdsDistinct(file)
  {
    var attempts := [Attempt(r, 0), Attempt(r, 0)];
    assert attempts[..1] == [Attempt(r, 0)] && attempts[..1][..0] == [];
    assert File(attempts[..1]) == [r];
    assert Read([r], 0) == [];
    assert File(attempts)[0].evidenceId == File(attempts)[1].evidenceId;
  }

  // ---------------------------------------------------------------- the aggregate

  predicate Consented(r: Record) {
    && r.consents.technicalParticipation == Granted
    && r.consents.privateEvidenceRetention == Granted
    && r.consents.aggregateReporting == Granted
  }

  function Engagements(records: seq<Record>): set<string> {
    set r | r in records :: r.engagementId
  }

  datatype Aggregate = Aggregate(externalEngagements: nat, syntheticEngagements: nat)

  function External(records: seq<Record>): seq<Record> {
    Select(Select(records, Consented), (r: Record) => r.classification == ExternalIndependent)
  }

  function NotExternal(records: seq<Record>): seq<Record> {
    Select(Select(records, Consented), (r: Record) => r.classification != ExternalIndependent)
  }

  function AggregateSelfServiceLedger(records: seq<Record>): Aggregate {
    Aggregate(|Engagements(External(records))|, |Engagements(NotExternal(records))|)
  }

  /**
    For every ledger that appends can produce, the aggregate's two engagement sets are disjoint and
    their sizes add up to the number of distinct consented engagements.
   */
  lemma AggregatePartitions(attempts: seq<Record>)
    ensures var records := Ledger(attempts); var a := AggregateSelfServiceLedger(records);
      && Engagements(External(records)) !! Engagements(NotExternal(records))
      && a.externalEngagements + a.syntheticEngagements == |Engagements(Select(records, Consented))|
  {
    var records := Ledger(attempts);
    LedgerSound(attempts);
    var e, n, all := External(records), NotExternal(records), Select(records, Consented);
    forall x, y | x in e && y in n ensures x.engagementId != y.engagementId {
      var i :| 0 <= i < |records| && records[i] == x;
      var j :| 0 <= j < |records| && records[j] == y;
    }
    assert Engagements(all) == Engagements(e) + Engagements(n) by {
      forall id ensures id in Engagements(all) <==> id in Engagements(e) || id in Engagements(n) {
        if id in Engagements(all) {
          var r :| r in all && r.engagementId == id;
          assert r in e || r in n;
        }
      }
    }
  }

  // ---------------------------------------------------------------- refusals and selections in fields

  /** An append is refused for a repeated id first, and then for another class of the same engagement. */
  lemma RefusedExactly(records: seq<Record>, r: Record)
    requires OneClassEach(records)
    ensures var repeated := exists o :: o in records && o.evidenceId == r.evidenceId;
      var reclassed := exists o ::
        o in records && o.engagementId == r.engagementId && o.classification != r.classification;
      && (AppendRefusal(records, r) == Some(EvidenceIdAlreadyRecorded) <==> repeated)
      && (AppendRefusal(records, r) == Some(ClassificationImmutable) <==> !repeated && reclassed)
  {
    FirstIsFirst(records, r.engagementId);
    var prior := FirstOf(records, r.engagementId);
    if prior.Some? {
      forall o | o in records && o.engagementId == r.engagementId
        ensures o.classification == prior.value.classification
      {
        var i :| 0 <= i < |records| && records[i] == o;
        var j :| 0 <= j < |records| && records[j] == prior.value;
      }
    }
  }

  /** The three consents and the class that decide on which side of the aggregate a record is counted. */
  lemma SelectedExactly(records: seq<Record>, r: Record)
    ensures var consented := r.consents.technicalParticipation == Granted
        && r.consents.privateEvidenceRetention == Granted && r.consents.aggregateReporting == Granted;
      && (r in External(records) <==> r in records && consented && r.classification == ExternalIndependent)
      && (r in NotExternal(records) <==> r in records && consented && r.classification != ExternalIndependent)
  {
  }
}
