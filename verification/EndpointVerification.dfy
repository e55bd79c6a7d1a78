/** The external endpoint check: a linear search over offered payment methods, and what it decides. */
module EndpointVerification {
  import opened Outcomes
  import opened Sequences
  import opened StableJson

  const DEVNET := "solana:EtWTRABZaYq6iMfeYKouRu166VU2xqa1"
  const DEVNET_USDC := "4zMMC9srt5Ri5X14GAgXhaHii3GnPAEERYPJgZJDncDU"
  const SUPPORTED_VERSION: int := 2

  /** One entry of the challenge as received: a field is None when it is missing or not a string. */
  datatype Entry = Entry(
    network: Option<string>, asset: Option<string>, amount: Option<string>, payTo: Option<string>,
    scheme: Option<string>)

  datatype Accepts = NotGiven | NotAList | Listed(entries: seq<Entry>)

  datatype Challenge = Challenge(x402Version: Option<int>, accepts: Accepts)

  /** The payment-required header: absent or empty, not decodable, or a decoded challenge. */
  datatype Header = NoHeader | Undecodable | Decoded(challenge: Challenge)

  datatype Response = Response(status: int, header: Header)

  datatype Requirement = Requirement(
    network: string, mint: string, amountAtomic: string, recipient: string, scheme: string)

  /** A policy's maximum: absent or empty, a text that denotes no integer, or the integer it denotes. */
  datatype Maximum = NotSet | Malformed | Limit(atomic: int)

  datatype Policy = Policy(
    network: Option<string>, mint: Option<string>, recipient: Option<string>, maxAmountAtomic: Maximum)

  datatype Check = Check(name: string, ok: bool)

  datatype Report = Report(passed: bool, checks: seq<Check>, requirement: Option<Requirement>)

  predicate IsText(f: Option<string>) {
    f.Some? && f.value != ""
  }

  predicate AtomicText(s: string) {
    s != "" && (forall c :: c in s ==> IsDigit(c)) && Decimal(s) > 0
  }

  predicate Base58(c: char) {
    ('1' <= c <= '9' || 'A' <= c <= 'Z' || 'a' <= c <= 'z') && c !in {'I', 'O', 'l'}
  }

  predicate AddressText(s: string) {
    32 <= |s| <= 44 && forall c :: c in s ==> Base58(c)
  }

  predicate EntryOk(e: Entry) {
    && IsText(e.network) && IsText(e.asset) && IsText(e.scheme)
    && e.amount.Some? && AtomicText(e.amount.value)
    && e.payTo.Some? && AddressText(e.payTo.value)
  }

  function ParseRequirement(e: Entry): Requirement
    requires EntryOk(e)
  {
    Requirement(e.network.value, e.asset.value, e.amount.value, e.payTo.value, e.scheme.value)
  }

  /** Well-formed entries in order; the others are skipped. */
  function Candidates(entries: seq<Entry>): (rs: seq<Requirement>)
    ensures forall r :: r in rs ==> AtomicText(r.amountAtomic)
    ensures forall r :: r in rs <==> exists e :: e in entries && EntryOk(e) && ParseRequirement(e) == r
  {
    if entries == [] then []
    else
      var init, last := entries[..|entries| - 1], entries[|entries| - 1];
      assert forall e :: e in entries <==> e in init || e == last;
      Candidates(init) + (if EntryOk(last) then [ParseRequirement(last)] else [])
  }

  predicate Permits(wanted: Option<string>, actual: string) {
    IsText(wanted) ==> actual == wanted.value
  }

  /** The candidate passes the search's conditions up to its amount. */
  predicate Compared(r: Requirement, p: Policy) {
    r.scheme == "exact" && Permits(p.network, r.network) && Permits(p.mint, r.mint) && Permits(p.recipient, r.recipient)
  }

  predicate Wanted(r: Requirement, p: Policy) {
    && Compared(r, p) && !p.maxAmountAtomic.Malformed?
    && (p.maxAmountAtomic.Limit? ==> AtomicText(r.amountAtomic) && Decimal(r.amountAtomic) <= p.maxAmountAtomic.atomic)
  }

  /**
    The first exact candidate within policy, else the first exact one, else the first. Comparing an
    amount with a malformed maximum throws, and then nothing is selected.
   */
  function SelectRequirement(rs: seq<Requirement>, p: Policy): (r: Option<Requirement>)
    requires rs != []
    ensures r.None? <==> p.maxAmountAtomic.Malformed? && exists c :: c in rs && Compared(c, p)
    ensures r.Some? ==> r.value in rs && (Wanted(r.value, p) <==> exists c :: c in rs && Wanted(c, p))
  {
    var compared := Select(rs, (r: Requirement) => Compared(r, p));
    var wanted := Select(rs, (r: Requirement) => Wanted(r, p));
    var exact := Select(rs, (r: Requirement) => r.scheme == "exact");
    if p.maxAmountAtomic.Malformed? && compared != [] then assert compared[0] in compared; None
    else
      assert forall c :: c in rs && Compared(c, p) ==> c in compared;
      if wanted != [] then assert wanted[0] in wanted; Some(wanted[0])
      else
        assert forall c :: c in rs ==> !(c in wanted);
        if exact != [] then assert exact[0] in exact; Some(exact[0]) else Some(rs[0])
  }

  /** An unset or empty policy value fails its check. */
  predicate PolicyCheck(expected: Option<string>, actual: string) {
    IsText(expected) && expected.value == actual
  }

  predicate MaximumCheck(maximum: Maximum, actual: string) {
    maximum.Limit? && AtomicText(actual) && Decimal(actual) <= maximum.atomic
  }

  predicate AllOk(checks: seq<Check>) {
    forall i :: 0 <= i < |checks| ==> checks[i].ok
  }

  function MakeReport(checks: seq<Check>, requirement: Option<Requirement>): (report: Report)
    ensures report.passed <==> |checks| > 0 && forall c :: c in checks ==> c.ok
  {
    assert (forall c :: c in checks ==> c.ok) <==> forall i :: 0 <= i < |checks| ==> checks[i].ok;
    Report(checks != [] && AllOk(checks), checks, requirement)
  }

  /**
    The readiness the report stands for: a complete devnet USDC policy, a 402 reply with a decodable
    challenge of a supported version, and somewhere in it an exact offer that the policy allows.
   */
  predicate Ready(response: Response, p: Policy) {
    && p.network == Some(DEVNET) && p.mint == Some(DEVNET_USDC)
    && IsText(p.recipient) && p.maxAmountAtomic.Limit?
    && response.status == 402 && response.header.Decoded?
    && response.header.challenge.x402Version == Some(SUPPORTED_VERSION)
    && response.header.challenge.accepts.Listed?
    && exists e :: e in response.header.challenge.accepts.entries && Offers(e, p)
  }

  predicate Offers(e: Entry, p: Policy) {
    && EntryOk(e)
    && e.scheme.value == "exact"
    && e.network == p.network && e.asset == p.mint && e.payTo == p.recipient
    && p.maxAmountAtomic.Limit? && Decimal(e.amount.value) <= p.maxAmountAtomic.atomic
  }

  const UNSAFE := Check("endpoint can be verified safely", false)

  /** The check as it runs; an unsafe endpoint or a failed request arrives as no response. */
  method VerifyEndpoint(response: Option<Response>, p: Policy) returns (report: Report)
    ensures report.passed <==> response.Some? && Ready(response.value, p)
    ensures report.passed ==> report.requirement.Some? && Wanted(report.requirement.value, p)
    ensures report.passed ==>
      && p.network == Some("solana:EtWTRABZaYq6iMfeYKouRu166VU2xqa1")
      && p.mint == Some("4zMMC9srt5Ri5X14GAgXhaHii3GnPAEERYPJgZJDncDU")
      && response.value.header.challenge.x402Version == Some(2)
  {
    var checks: seq<Check> := [];
    if response.None? {
      checks := checks + [UNSAFE];
      assert !checks[0].ok;
      return MakeReport(checks, None);
    }
    var reply := response.value;
    checks := checks + [Check("unpaid request returns HTTP 402", reply.status == 402)];
    checks := checks + [Check("PAYMENT-REQUIRED header is present", reply.header != NoHeader)];
    if reply.header == NoHeader {
      assert !checks[1].ok;
      return MakeReport(checks, None);
    }
    if reply.header == Undecodable || reply.header.challenge.accepts.NotAList? {
      checks := checks + [UNSAFE];
      assert !checks[2].ok;
      return MakeReport(checks, None);
    }
    var challenge := reply.header.challenge;
    var entries := if challenge.accepts.Listed? then challenge.accepts.entries else [];
    var candidates := Candidates(entries);
    if candidates == [] {
      checks := checks + [UNSAFE];
      assert !checks[2].ok;
      NoCandidates(entries, p);
      return MakeReport(checks, None);
    }
    var selected := SelectRequirement(candidates, p);
    if selected.None? {
      checks := checks + [UNSAFE];
      assert !checks[2].ok;
      NoneSelected(reply, entries, p);
      return MakeReport(checks, None);
    }
    assert AllOk(checks) <==> reply.status == 402 by { assert checks[0].ok == (reply.status == 402) && checks[1].ok; }
    assert challenge.accepts == Listed(entries);
    ChecksDecide(reply, entries, checks, selected.value, p);
    checks := checks + RequirementChecks(challenge.x402Version, selected.value, p);
    return MakeReport(checks, Some(selected.value));
  }

  /** The checks on the selected requirement; with a malformed maximum the last one throws. */
  function RequirementChecks(version: Option<int>, r: Requirement, p: Policy): (checks: seq<Check>)
    ensures AllOk(checks) <==>
      && version == Some(SUPPORTED_VERSION) && r.scheme == "exact"
      && r.network == DEVNET && r.mint == DEVNET_USDC
      && PolicyCheck(p.network, r.network) && PolicyCheck(p.mint, r.mint) && PolicyCheck(p.recipient, r.recipient)
      && MaximumCheck(p.maxAmountAtomic, r.amountAtomic)
  {
    var last :=
      if p.maxAmountAtomic.Malformed? then UNSAFE
      else Check("amount is within policy", MaximumCheck(p.maxAmountAtomic, r.amountAtomic));
    var checks := [
      Check("x402 protocol version is supported", version == Some(SUPPORTED_VERSION)),
      Check("payment scheme is exact", r.scheme == "exact"),
      Check("network is supported Solana devnet", r.network == DEVNET),
      Check("asset is supported devnet USDC", r.mint == DEVNET_USDC),
      Check("network matches policy", PolicyCheck(p.network, r.network)),
      Check("USDC mint matches policy", PolicyCheck(p.mint, r.mint)),
      Check("recipient matches policy", PolicyCheck(p.recipient, r.recipient)),
      last];
    assert AllOk(checks) ==>
      && checks[0].ok && checks[1].ok && checks[2].ok && checks[3].ok
      && checks[4].ok && checks[5].ok && checks[6].ok && checks[7].ok;
    checks
  }

  lemma AllOkSplit(xs: seq<Check>, ys: seq<Check>)
    ensures AllOk(xs + ys) <==> AllOk(xs) && AllOk(ys)
  {
    if AllOk(xs + ys) {
      assert forall i :: 0 <= i < |xs| ==> (xs + ys)[i] == xs[i];
      assert forall i :: 0 <= i < |ys| ==> (xs + ys)[|xs| + i] == ys[i];
    }
  }

  lemma NoCandidates(entries: seq<Entry>, p: Policy)
    requires Candidates(entries) == []
    ensures !exists e :: e in entries && Offers(e, p)
  {
    if e :| e in entries && Offers(e, p) {
      OfferIsWanted(entries, e, p);
    }
  }

  /** An entry the policy allows is one the search wants. */
  lemma OfferIsWanted(entries: seq<Entry>, e: Entry, p: Policy)
    requires e in entries && Offers(e, p)
    ensures EntryOk(e) && ParseRequirement(e) in Candidates(entries) && Wanted(ParseRequirement(e), p)
  {
  }

  predicate CompletePolicy(p: Policy) {
    p.network == Some(DEVNET) && p.mint == Some(DEVNET_USDC) && IsText(p.recipient) && p.maxAmountAtomic.Limit?
  }

  /** The one selected requirement passes its checks exactly when some entry anywhere would. */
  lemma SelectionDecides(entries: seq<Entry>, p: Policy)
    requires Candidates(entries) != []
    ensures var r := SelectRequirement(Candidates(entries), p);
      (r.Some? && AllOk(RequirementChecks(Some(SUPPORTED_VERSION), r.value, p))) <==>
        CompletePolicy(p) && exists e :: e in entries && Offers(e, p)
  {
    var rs := Candidates(entries);
    var r := SelectRequirement(rs, p);
    if r.Some? && AllOk(RequirementChecks(Some(SUPPORTED_VERSION), r.value, p)) {
      var e :| e in entries && EntryOk(e) && ParseRequirement(e) == r.value;
      assert Offers(e, p);
    }
    if CompletePolicy(p) {
      forall e | e in entries && Offers(e, p)
        ensures r.Some? && AllOk(RequirementChecks(Some(SUPPORTED_VERSION), r.value, p))
      {
        OfferIsWanted(entries, e, p);
      }
    }
  }

  /** With the opening checks that ran before it, the selected requirement decides readiness. */
  lemma ChecksDecide(reply: Response, entries: seq<Entry>, opening: seq<Check>, r: Requirement, p: Policy)
    requires reply.header.Decoded? && reply.header.challenge.accepts == Listed(entries)
    requires AllOk(opening) <==> reply.status == 402
    requires Candidates(entries) != [] && SelectRequirement(Candidates(entries), p) == Some(r)
    ensures var all := opening + RequirementChecks(reply.header.challenge.x402Version, r, p);
      (AllOk(all) <==> Ready(reply, p)) && (AllOk(all) ==> Wanted(r, p))
  {
    SelectionDecides(entries, p);
    AllOkSplit(opening, RequirementChecks(reply.header.challenge.x402Version, r, p));
  }

  /** A malformed maximum leaves nothing selected, and is never ready. */
  lemma NoneSelected(reply: Response, entries: seq<Entry>, p: Policy)
    requires Candidates(entries) != [] && SelectRequirement(Candidates(entries), p).None?
    ensures !Ready(reply, p)
  {
  }

  lemma {:induction false} PositiveExactly(s: string)
    requires forall c :: c in s ==> IsDigit(c)
    ensures Decimal(s) > 0 <==> exists c :: c in s && c != '0'
  {
    if s != "" {
      var init, last := s[..|s| - 1], s[|s| - 1];
      assert s == init + [last] && last in s;
      PositiveExactly(init);
      assert forall c :: c in s <==> c in init || c == last;
      assert DigitValue(last) > 0 <==> last != '0';
      assert Decimal(s) == Decimal(init) * 10 + DigitValue(last);
    }
  }

  /** An atomic amount is a run of digits that are not all zero. */
  lemma AtomicExactly(s: string)
    ensures AtomicText(s) <==> (forall c :: c in s ==> '0' <= c <= '9') && exists c :: c in s && c != '0'
  {
    if forall c :: c in s ==> IsDigit(c) {
      PositiveExactly(s);
    }
  }

  /** A requirement is a candidate exactly if some entry offers it with every field present and well formed. */
  lemma CandidateExactly(entries: seq<Entry>, r: Requirement)
    ensures r in Candidates(entries) <==>
      && r.network != "" && r.mint != "" && r.scheme != ""
      && (forall c :: c in r.amountAtomic ==> '0' <= c <= '9') && (exists c :: c in r.amountAtomic && c != '0')
      && 32 <= |r.recipient| <= 44
      && (forall c :: c in r.recipient ==>
            ('1' <= c <= '9' || 'A' <= c <= 'Z' || 'a' <= c <= 'z') && c != 'I' && c != 'O' && c != 'l')
      && Entry(Some(r.network), Some(r.mint), Some(r.amountAtomic), Some(r.recipient), Some(r.scheme)) in entries
  {
    var e := Entry(Some(r.network), Some(r.mint), Some(r.amountAtomic), Some(r.recipient), Some(r.scheme));
    AtomicExactly(r.amountAtomic);
    if EntryOk(e) {
      assert ParseRequirement(e) == r;
    }
    if r in Candidates(entries) {
      var found :| found in entries && EntryOk(found) && ParseRequirement(found) == r;
      assert found == e;
    }
  }

  // ---------------------------------------------------------------- which requirement is shown

  /** The k-th requirement is the first with the given property. */
  ghost predicate FirstWith(rs: seq<Requirement>, has: Requirement -> bool, k: nat) {
    k < |rs| && has(rs[k]) && forall i :: 0 <= i < k ==> !has(rs[i])
  }

  lemma {:induction false} FirstSelected(rs: seq<Requirement>, has: Requirement -> bool, k: nat)
    requires FirstWith(rs, has, k)
    ensures Select(rs, has) != [] && Select(rs, has)[0] == rs[k]
  {
    var n := |rs| - 1;
    if k < n {
      FirstSelected(rs[..n], has, k);
    } else {
      assert forall r :: r in rs[..n] ==> !has(r);
      SelectNone(rs[..n], has);
    }
  }

  /**
    The report shows the first exact requirement within policy; without one the first exact requirement,
    and without any exact one the first requirement.
   */
  lemma SelectsFirst(rs: seq<Requirement>, p: Policy, k: nat)
    requires rs != [] && !p.maxAmountAtomic.Malformed?
    ensures FirstWith(rs, (r: Requirement) => Wanted(r, p), k) ==> SelectRequirement(rs, p) == Some(rs[k])
    ensures (forall r :: r in rs ==> !Wanted(r, p)) && FirstWith(rs, (r: Requirement) => r.scheme == "exact", k) ==>
      SelectRequirement(rs, p) == Some(rs[k])
    ensures (forall r :: r in rs ==> r.scheme != "exact") ==> SelectRequirement(rs, p) == Some(rs[0])
  {
    var wanted, exact := (r: Requirement) => Wanted(r, p), (r: Requirement) => r.scheme == "exact";
    if FirstWith(rs, wanted, k) {
      FirstSelected(rs, wanted, k);
    }
    if forall r :: r in rs ==> !Wanted(r, p) {
      SelectNone(rs, wanted);
      if FirstWith(rs, exact, k) {
        FirstSelected(rs, exact, k);
      }
    }
    if forall r :: r in rs ==> r.scheme != "exact" {
      SelectNone(rs, wanted);
      SelectNone(rs, exact);
    }
  }
}
