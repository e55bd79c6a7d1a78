/** The commercial gate over evidence records: grouped and counted in loops, and what that amounts to. */
module CommercialGate {
  import opened Outcomes
  import opened Sequences
  import opened Evidence
  import opened StableSort

  datatype Gate = Gate(
    starts: nat, completed: nat, medianFirst402Ms: Option<nat>, externalSettlementAndReplay: bool, eligible: bool)

  const TEN_MINUTES_MS: nat := 600_000

  // ---------------------------------------------------------------- what the gate means

  predicate Counts(r: Record) {
    r.classification == ExternalIndependent && Consented(r)
  }

  predicate Starts(r: Record) {
    r.milestone == InitializerStarted && r.outcome == Passed
  }

  predicate Reaches(r: Record, m: Milestone) {
    r.milestone == m && r.outcome == Passed && r.interventionCount == 0
  }

  predicate Timed(r: Record) {
    r.milestone == First402 && r.outcome == Passed && r.durationMs.Some?
  }

  /** Engagements with a passed start. */
  function Started(records: seq<Record>): set<string> {
    set r | r in records && Counts(r) && Starts(r) :: r.engagementId
  }

  predicate HasReached(records: seq<Record>, id: string, m: Milestone) {
    exists r :: r in records && Counts(r) && r.engagementId == id && Reaches(r, m)
  }

  /** Started engagements that finished every step without an intervention. */
  function Completed(records: seq<Record>): set<string> {
    set id | id in Started(records)
      && HasReached(records, id, SettlementFinalized)
      && HasReached(records, id, ProtectedResponse)
      && HasReached(records, id, ReplayRejected)
  }

  /** First-402 durations of the given engagements, in record order. */
  function Durations(records: seq<Record>, ids: set<string>): seq<nat> {
    if records == [] then []
    else
      var last := records[|records| - 1];
      Durations(records[..|records| - 1], ids)
      + (if Counts(last) && Timed(last) && last.engagementId in ids then [last.durationMs.value] else [])
  }

  function Rank(x: nat): real {
    x as real
  }

  function Median(durations: seq<nat>): Option<nat> {
    var sorted := Sort(Rank, durations);
    assert |multiset(sorted)| == |multiset(durations)|;
    if durations == [] then None else Some(sorted[|sorted| / 2])
  }

  function Verdict(starts: nat, completed: nat, median: Option<nat>): Gate {
    Gate(starts, completed, median, completed > 0,
         starts >= 3 && completed >= 2 && median.Some? && median.value < TEN_MINUTES_MS && completed > 0)
  }

  function GateOf(records: seq<Record>): Gate {
    Verdict(|Started(records)|, |Completed(records)|, Median(Durations(records, Started(records))))
  }

  // ---------------------------------------------------------------- the loops

  function GroupOf(records: seq<Record>, id: string): seq<Record> {
    Select(records, (r: Record) => r.engagementId == id)
  }

  /** A map from engagement to its records, with its keys in order of insertion. */
  ghost predicate Grouped(records: seq<Record>, order: seq<string>, engagements: map<string, seq<Record>>) {
    && Distinct(order)
    && (forall id :: id in order <==> id in engagements)
    && (forall id :: id in engagements ==> engagements[id] == GroupOf(records, id))
    && (forall r :: r in records ==> r.engagementId in engagements)
  }

  method GroupByEngagement(records: seq<Record>) returns (order: seq<string>, engagements: map<string, seq<Record>>)
    ensures Grouped(records, order, engagements)
  {
    order, engagements := [], map[];
    for k := 0 to |records|
      invariant Grouped(records[..k], order, engagements)
    {
      var r := records[k];
      assert records[..k + 1] == records[..k] + [r];
      var items := if r.engagementId in engagements then engagements[r.engagementId] else [];
      GroupStep(records[..k], order, engagements, r);
      if r.engagementId !in engagements {
        order := order + [r.engagementId];
      }
      engagements := engagements[r.engagementId := items + [r]];
    }
    assert records[..|records|] == records;
  }

  lemma GroupAppend(records: seq<Record>, r: Record, id: string)
    ensures GroupOf(records + [r], id) == GroupOf(records, id) + (if r.engagementId == id then [r] else [])
  {
    assert (records + [r])[..|records|] == records;
  }

  lemma OrderStep(order: seq<string>, id: string)
    requires Distinct(order)
    ensures var next := if id in order then order else order + [id];
      Distinct(next) && forall x :: x in next <==> x in order || x == id
  {
  }

  lemma GroupsStep(records: seq<Record>, engagements: map<string, seq<Record>>, r: Record)
    requires forall id :: id in engagements ==> engagements[id] == GroupOf(records, id)
    requires r.engagementId !in engagements ==> GroupOf(records, r.engagementId) == []
    ensures var id := r.engagementId;
      var next := engagements[id := (if id in engagements then engagements[id] else []) + [r]];
      forall x :: x in next ==> next[x] == GroupOf(records + [r], x)
  {
    forall x ensures GroupOf(records + [r], x) == GroupOf(records, x) + (if r.engagementId == x then [r] else []) {
      GroupAppend(records, r, x);
    }
  }

  lemma GroupStep(records: seq<Record>, order: seq<string>, engagements: map<string, seq<Record>>, r: Record)
    requires Grouped(records, order, engagements)
    ensures var id := r.engagementId;
      Grouped(records + [r],
        if id in engagements then order else order + [id],
        engagements[id := (if id in engagements then engagements[id] else []) + [r]])
  {
    GroupAbsent(records, order, engagements, r.engagementId);
    OrderStep(order, r.engagementId);
    GroupsStep(records, engagements, r);
  }

  lemma GroupAbsent(records: seq<Record>, order: seq<string>, engagements: map<string, seq<Record>>, id: string)
    requires Grouped(records, order, engagements)
    ensures GroupOf(records, id) == if id in engagements then engagements[id] else []
  {
    if id !in engagements {
      SelectNone(records, (r: Record) => r.engagementId == id);
    }
  }

  function TimedDurations(items: seq<Record>): seq<nat> {
    if items == [] then []
    else
      var last := items[|items| - 1];
      TimedDurations(items[..|items| - 1]) + (if Timed(last) then [last.durationMs.value] else [])
  }

  function StartedKeys(order: seq<string>, engagements: map<string, seq<Record>>): seq<string> {
    Select(order, (id: string) => id in engagements && exists r :: r in engagements[id] && Starts(r))
  }

  predicate GroupReaches(items: seq<Record>, m: Milestone) {
    exists r :: r in items && Reaches(r, m)
  }

  function CompletedKeys(starts: seq<string>, engagements: map<string, seq<Record>>): seq<string> {
    Select(starts, (id: string) => id in engagements
      && GroupReaches(engagements[id], SettlementFinalized)
      && GroupReaches(engagements[id], ProtectedResponse)
      && GroupReaches(engagements[id], ReplayRejected))
  }

  /** The durations of the started engagements, group by group. */
  method CollectFirst402(records: seq<Record>, starts: seq<string>, engagements: map<string, seq<Record>>)
    returns (first402: seq<nat>)
    requires Distinct(starts)
    requires forall id :: id in starts ==> id in engagements && engagements[id] == GroupOf(Select(records, Counts), id)
    ensures multiset(first402) == multiset(Durations(records, Elements(starts)))
  {
    first402 := [];
    DurationsOfNone(records);
    assert Elements(starts[..0]) == {};
    for k := 0 to |starts|
      invariant multiset(first402) == multiset(Durations(records, Elements(starts[..k])))
    {
      assert starts[k] in starts;
      var id := starts[k];
      ElementsGrow(starts, k);
      DurationsSplit(records, Elements(starts[..k]), id);
      GroupDurations(records, id);
      first402 := first402 + TimedDurations(engagements[id]);
    }
    assert starts[..|starts|] == starts;
  }

  lemma ElementsGrow(ids: seq<string>, k: nat)
    requires Distinct(ids) && k < |ids|
    ensures Elements(ids[..k + 1]) == Elements(ids[..k]) + {ids[k]} && ids[k] !in Elements(ids[..k])
  {
    assert ids[..k + 1] == ids[..k] + [ids[k]];
  }

  /** The gate as it is computed: filter, group, count keys, collect and sort durations. */
  method QualifiesForCommercialGate(records: seq<Record>) returns (gate: Gate)
    ensures gate == GateOf(records)
  {
    var external := Select(records, Counts);
    var order, engagements := GroupByEngagement(external);
    var starts := StartedKeys(order, engagements);
    var completed := CompletedKeys(starts, engagements);
    KeysAreSets(records, order, engagements);
    var first402 := CollectFirst402(records, starts, engagements);
    MedianPermuted(first402, Durations(records, Started(records)));
    gate := Verdict(|starts|, |completed|, Median(first402));
  }

  function Elements(ids: seq<string>): set<string> {
    set id | id in ids
  }

  lemma DurationsOfNone(records: seq<Record>)
    ensures Durations(records, {}) == []
  {
  }

  lemma KeysAreSets(records: seq<Record>, order: seq<string>, engagements: map<string, seq<Record>>)
    requires Grouped(Select(records, Counts), order, engagements)
    ensures var starts := StartedKeys(order, engagements);
      && Distinct(starts) && Elements(starts) == Started(records) && |starts| == |Started(records)|
      && |CompletedKeys(starts, engagements)| == |Completed(records)|
  {
    var external := Select(records, Counts);
    var starts := StartedKeys(order, engagements);
    SelectDistinct(order, (id: string) => id in engagements && exists r :: r in engagements[id] && Starts(r));
    forall id ensures id in starts <==> id in Started(records) {
      if id in Started(records) {
        var r :| r in records && Counts(r) && Starts(r) && r.engagementId == id;
        assert r in external && r in engagements[id];
      }
    }
    DistinctCount(starts);
    assert Elements(starts) == Started(records);
    CompletedAreSet(records, starts, engagements);
  }

  lemma CompletedAreSet(records: seq<Record>, starts: seq<string>, engagements: map<string, seq<Record>>)
    requires Distinct(starts) && Elements(starts) == Started(records)
    requires forall id :: id in starts ==> id in engagements && engagements[id] == GroupOf(Select(records, Counts), id)
    ensures |CompletedKeys(starts, engagements)| == |Completed(records)|
  {
    var completed := CompletedKeys(starts, engagements);
    SelectDistinct(starts, (id: string) => id in engagements
      && GroupReaches(engagements[id], SettlementFinalized)
      && GroupReaches(engagements[id], ProtectedResponse)
      && GroupReaches(engagements[id], ReplayRejected));
    forall id, m | id in starts ensures GroupReaches(engagements[id], m) <==> HasReached(records, id, m) {
      if HasReached(records, id, m) {
        var r :| r in records && Counts(r) && r.engagementId == id && Reaches(r, m);
        assert r in engagements[id];
      }
    }
    forall id ensures id in completed <==> id in Completed(records) {
      assert id in starts <==> id in Started(records);
    }
    assert Elements(completed) == Completed(records);
    DistinctCount(completed);
  }

  lemma {:induction false} DurationsSplit(records: seq<Record>, ids: set<string>, id: string)
    requires id !in ids
    ensures multiset(Durations(records, ids + {id}))
        == multiset(Durations(records, ids)) + multiset(Durations(records, {id}))
  {
    if records != [] {
      DurationsSplit(records[..|records| - 1], ids, id);
    }
  }

  lemma CountsLast(records: seq<Record>)
    requires records != []
    ensures var init, last := records[..|records| - 1], records[|records| - 1];
      Select(records, Counts) == if Counts(last) then Select(init, Counts) + [last] else Select(init, Counts)
  {
  }

  lemma TimedAppend(items: seq<Record>, r: Record)
    ensures TimedDurations(items + [r]) == TimedDurations(items) + (if Timed(r) then [r.durationMs.value] else [])
  {
    assert (items + [r])[..|items|] == items;
  }

  lemma {:induction false} GroupDurations(records: seq<Record>, id: string)
    ensures TimedDurations(GroupOf(Select(records, Counts), id)) == Durations(records, {id})
  {
    if records != [] {
      var init, last := records[..|records| - 1], records[|records| - 1];
      GroupDurations(init, id);
      CountsLast(records);
      GroupAppend(Select(init, Counts), last, id);
      TimedAppend(GroupOf(Select(init, Counts), id), last);
    }
  }

  // ---------------------------------------------------------------- order does not matter

  ghost function Any(): (nat, nat) -> bool {
    (a, b) => true
  }

  lemma RankAntisymmetric(xs: seq<nat>)
    ensures AntisymmetricOn(Then(Rank, Any()), xs)
  {
    var le := Then(Rank, Any());
    forall a: nat, b: nat | a in xs && b in xs && le(a, b) && le(b, a) ensures a == b {
      assert Rank(a) == Rank(b);
    }
  }

  /** Sorting forgets the order of the durations, so the median depends only on which they are. */
  lemma MedianPermuted(xs: seq<nat>, ys: seq<nat>)
    requires multiset(xs) == multiset(ys)
    ensures Median(xs) == Median(ys)
  {
    SortPairwise(Rank, Any(), xs);
    SortPairwise(Rank, Any(), ys);
    RankAntisymmetric(Sort(Rank, xs));
    StrictOrderUnique(Then(Rank, Any()), Sort(Rank, xs), Sort(Rank, ys));
    SameLength(xs, ys);
  }

  lemma {:induction false} DurationsConcat(xs: seq<Record>, ys: seq<Record>, ids: set<string>)
    ensures Durations(xs + ys, ids) == Durations(xs, ids) + Durations(ys, ids)
  {
    if ys == [] {
      assert xs + ys == xs;
    } else {
      assert (xs + ys)[..|xs + ys| - 1] == xs + ys[..|ys| - 1];
      DurationsConcat(xs, ys[..|ys| - 1], ids);
    }
  }

  lemma RemoveOne(xs: seq<Record>, x: Record, a: seq<Record>, b: seq<Record>)
    requires multiset(xs + [x]) == multiset(a + ([x] + b))
    ensures multiset(xs) == multiset(a + b)
  {
    assert multiset(xs + [x]) == multiset(xs) + multiset{x};
    assert multiset(a + ([x] + b)) == multiset(a + b) + multiset{x};
    forall e ensures multiset(xs)[e] == multiset(a + b)[e] {
      assert multiset(xs + [x])[e] == multiset(a + ([x] + b))[e];
    }
  }

  lemma {:induction false} DurationsPermuted(xs: seq<Record>, ys: seq<Record>, ids: set<string>)
    requires multiset(xs) == multiset(ys)
    ensures multiset(Durations(xs, ids)) == multiset(Durations(ys, ids))
  {
    SameLength(xs, ys);
    if xs != [] {
      var init, last := xs[..|xs| - 1], xs[|xs| - 1];
      assert xs == init + [last];
      assert last in multiset(ys);
      var k :| 0 <= k < |ys| && ys[k] == last;
      var a, b := ys[..k], ys[k + 1..];
      assert ys == a + ([last] + b);
      RemoveOne(init, last, a, b);
      DurationsPermuted(init, a + b, ids);
      DurationsConcat(init, [last], ids);
      DurationsConcat(a, b, ids);
      DurationsConcat(a, [last] + b, ids);
      DurationsConcat([last], b, ids);
    }
  }

  /** The gate is the same for every order of the records. */
  lemma GatePermuted(xs: seq<Record>, ys: seq<Record>)
    requires multiset(xs) == multiset(ys)
    ensures GateOf(xs) == GateOf(ys)
  {
    assert forall r :: r in xs <==> r in multiset(xs);
    assert forall r :: r in ys <==> r in multiset(ys);
    assert Started(xs) == Started(ys);
    forall id, m ensures HasReached(xs, id, m) <==> HasReached(ys, id, m) {
    }
    assert Completed(xs) == Completed(ys);
    DurationsPermuted(xs, ys, Started(xs));
    MedianPermuted(Durations(xs, Started(xs)), Durations(ys, Started(ys)));
  }

  /** One more record never lowers the counts, and completions never exceed starts. */
  lemma GateGrows(records: seq<Record>, r: Record)
    ensures GateOf(records).starts <= GateOf(records + [r]).starts
    ensures GateOf(records).completed <= GateOf(records + [r]).completed
    ensures GateOf(records).completed <= GateOf(records).starts
  {
    var more := records + [r];
    assert forall x :: x in records ==> x in more;
    SubsetSize(Started(records), Started(more));
    forall id, m | HasReached(records, id, m) ensures HasReached(more, id, m) {
      var x :| x in records && Counts(x) && x.engagementId == id && Reaches(x, m);
      assert x in more;
    }
    SubsetSize(Completed(records), Completed(more));
    SubsetSize(Completed(records), Started(records));
  }

  lemma SortAscends(xs: seq<nat>, i: nat, j: nat)
    requires i < j < |Sort(Rank, xs)|
    ensures Sort(Rank, xs)[i] <= Sort(Rank, xs)[j]
  {
    var sorted := Sort(Rank, xs);
    SortPairwise(Rank, Any(), xs);
    assert Then(Rank, Any())(sorted[i], sorted[j]);
    assert Rank(sorted[i]) <= Rank(sorted[j]);
  }

  /** The median has rank floor(n / 2) among the sorted durations of the started engagements. */
  lemma MedianHasRank(records: seq<Record>)
    ensures var durations := Durations(records, Started(records)); var median := GateOf(records).medianFirst402Ms;
      (durations == [] <==> median.None?)
      && (durations != [] ==> exists sorted: seq<nat> ::
            && multiset(sorted) == multiset(durations) && |sorted| == |durations|
            && (forall i, j :: 0 <= i < j < |sorted| ==> sorted[i] <= sorted[j])
            && median == Some(sorted[|sorted| / 2]))
  {
    var durations := Durations(records, Started(records));
    var sorted := Sort(Rank, durations);
    SameLength(sorted, durations);
    forall i, j | 0 <= i < j < |sorted| ensures sorted[i] <= sorted[j] {
      SortAscends(durations, i, j);
    }
  }

  lemma {:induction false} DurationsOfSelected(records: seq<Record>, ids: set<string>)
    ensures Durations(External(records), ids) == Durations(records, ids)
  {
    if records != [] {
      var init, last := records[..|records| - 1], records[|records| - 1];
      DurationsOfSelected(init, ids);
      var consented := Select(init, Consented);
      var kept := External(init);
      if Consented(last) {
        assert (consented + [last])[..|consented|] == consented;
        assert (kept + [last])[..|kept|] == kept;
      }
    }
  }

  /** The aggregate's gate over its own external selection is the gate over the whole ledger. */
  lemma AggregateGate(records: seq<Record>)
    ensures GateOf(External(records)) == GateOf(records)
  {
    assert forall r :: r in External(records) <==> r in records && Counts(r);
    assert Started(External(records)) == Started(records);
    forall id, m ensures HasReached(External(records), id, m) <==> HasReached(records, id, m) {
      if HasReached(records, id, m) {
        var x :| x in records && Counts(x) && x.engagementId == id && Reaches(x, m);
        assert x in External(records);
      }
    }
    assert Completed(External(records)) == Completed(records);
    DurationsOfSelected(records, Started(records));
  }

  // ---------------------------------------------------------------- the gate in the records' own fields

  /** A consented record of an independent external participant, for one engagement and milestone, that passed. */
  predicate PassedFor(r: Record, id: string, m: Milestone) {
    && r.engagementId == id && r.milestone == m && r.outcome == Passed
    && r.classification == ExternalIndependent
    && r.consents.technicalParticipation == Granted && r.consents.privateEvidenceRetention == Granted
    && r.consents.aggregateReporting == Granted
  }

  lemma StartedExactly(records: seq<Record>, id: string)
    ensures id in Started(records) <==> exists r :: r in records && PassedFor(r, id, InitializerStarted)
  {
    if r :| r in records && PassedFor(r, id, InitializerStarted) {
      assert Counts(r) && Starts(r);
    }
  }

  lemma CompletedExactly(records: seq<Record>, id: string)
    ensures id in Completed(records) <==>
      && (exists r :: r in records && PassedFor(r, id, InitializerStarted))
      && (exists r :: r in records && PassedFor(r, id, SettlementFinalized) && r.interventionCount == 0)
      && (exists r :: r in records && PassedFor(r, id, ProtectedResponse) && r.interventionCount == 0)
      && (exists r :: r in records && PassedFor(r, id, ReplayRejected) && r.interventionCount == 0)
  {
    StartedExactly(records, id);
    ReachedExactly(records, id, SettlementFinalized);
    ReachedExactly(records, id, ProtectedResponse);
    ReachedExactly(records, id, ReplayRejected);
  }

  lemma ReachedExactly(records: seq<Record>, id: string, m: Milestone)
    ensures HasReached(records, id, m) <==> exists r :: r in records && PassedFor(r, id, m) && r.interventionCount == 0
  {
    if HasReached(records, id, m) {
      var r :| r in records && Counts(r) && r.engagementId == id && Reaches(r, m);
      assert PassedFor(r, id, m);
    }
    if r :| r in records && PassedFor(r, id, m) && r.interventionCount == 0 {
      assert Counts(r) && Reaches(r, m);
    }
  }

  /** The durations that count are those of passed first-402 records of the given engagements. */
  lemma {:induction false} DurationsExactly(records: seq<Record>, ids: set<string>, d: nat)
    ensures d in Durations(records, ids) <==>
      exists r :: r in records
        && PassedFor(r, r.engagementId, First402) && r.engagementId in ids && r.durationMs == Some(d)
  {
    if records != [] {
      var init, last := records[..|records| - 1], records[|records| - 1];
      DurationsExactly(init, ids, d);
      assert records == init + [last];
      assert Counts(last) && Timed(last) <==> PassedFor(last, last.engagementId, First402) && last.durationMs.Some?;
    }
  }

  /** What makes a pilot eligible: three starts, two completions, and a median below ten minutes. */
  lemma EligibleExactly(records: seq<Record>)
    ensures var g := GateOf(records);
      && g.starts == |Started(records)| && g.completed == |Completed(records)|
      && (g.externalSettlementAndReplay <==> Completed(records) != {})
      && (g.eligible <==>
            g.starts >= 3 && g.completed >= 2 && g.medianFirst402Ms.Some? && g.medianFirst402Ms.value < 600_000)
  {
  }
}
