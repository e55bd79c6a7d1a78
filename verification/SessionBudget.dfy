/**
  The budgeted client: calls are chained on one promise queue, and each call that pays filters the
  offered requirements against the session budget, creates the payment, then adds it to the total.
 */
module SessionBudget {
  import opened Outcomes

  datatype Requirement = Requirement(network: string, asset: string, payTo: string, amount: int)

  datatype Options = Options(
    network: string, expectedAsset: string, expectedPayTo: string, maxPerRequest: int, maxSession: int)

  /** The policy a requirement must pass to be offered for payment. */
  predicate Payable(o: Options, authorized: int, r: Requirement) {
    && r.network == o.network && r.asset == o.expectedAsset && r.payTo == o.expectedPayTo
    && r.amount <= o.maxPerRequest && authorized + r.amount <= o.maxSession
  }

  /** A call from submission to settlement. */
  datatype Phase =
    | Queued                              // chained behind the call before it
    | Running                             // request sent, not yet paying
    | Chosen(requirement: Requirement)    // filtered and selected, payment being created
    | Paid                                // payment reported, request being retried
    | Settled(fulfilled: bool)

  datatype Promise = Pending | Fulfilled | Rejected

  /** What a chained promise becomes: the arm for the source's outcome answers, or the rejection passes on. */
  function Then(source: Promise, onFulfilled: Promise, onRejected: Option<Promise>): Promise {
    match source
    case Pending => Pending
    case Fulfilled => onFulfilled
    case Rejected => if onRejected.Some? then onRejected.value else Rejected
  }

  /**
    Submitted calls, and the queue promise each was chained on: queues[i] is the one before call i, and
    the last one is the current queue. Also the session total, the payments, and the calls started.
   */
  datatype Client = Client(
    calls: seq<Phase>, queues: seq<Promise>, authorized: int, payments: seq<Requirement>, started: seq<nat>)

  const NEW := Client([], [Fulfilled], 0, [], [])

  datatype Event =
    | Submit
    | Dequeue(i: nat)    // the queue promise before call i has settled
    | Choose(i: nat, requirement: Requirement, resourceAllowed: bool)
    | Created(i: nat)
    | Finish(i: nat, fulfilled: bool)
    | Chain(i: nat)      // call i has settled, and the queue promise after it follows

  /** The promise a call returned to its caller. */
  function Returned(phase: Phase): Promise {
    match phase
    case Settled(fulfilled) => if fulfilled then Fulfilled else Rejected
    case _ => Pending
  }

  /** The handler that sends the call has no arm for a rejection: a rejected queue would reject the call unsent. */
  function Dequeued(queue: Promise): Phase {
    if queue == Fulfilled then Running
    else if Then(queue, Pending, None) == Rejected then Settled(false)
    else Queued
  }

  /** The queue after a call: both arms swallow the outcome. */
  function QueueAfter(phase: Phase): Promise {
    Then(Returned(phase), Fulfilled, Some(Fulfilled))
  }

  function Put(c: Client, i: nat, phase: Phase): Client
    requires i < |c.calls|
  {
    c.(calls := c.calls[i := phase])
  }

  function Step(o: Options, c: Client, e: Event): Client {
    match e
    case Submit => c.(calls := c.calls + [Queued], queues := c.queues + [Pending])
    case Dequeue(i) =>
      if i < |c.calls| && i < |c.queues| && c.calls[i] == Queued then
        var next := Put(c, i, Dequeued(c.queues[i]));
        if Dequeued(c.queues[i]) == Running then next.(started := c.started + [i]) else next
      else c
    case Choose(i, r, resourceAllowed) =>
      if i >= |c.calls| || c.calls[i] != Running || !Payable(o, c.authorized, r) then c
      else if !resourceAllowed then Put(c, i, Settled(false))
      else Put(c, i, Chosen(r))
    case Created(i) =>
      if i < |c.calls| && c.calls[i].Chosen? then
        var amount := c.calls[i].requirement.amount;
        Put(c, i, Paid).(authorized := c.authorized + amount, payments := c.payments + [c.calls[i].requirement])
      else c
    case Finish(i, fulfilled) =>
      if i < |c.calls| && Active(c.calls[i]) then Put(c, i, Settled(fulfilled)) else c
    case Chain(i) =>
      if i < |c.calls| && i + 1 < |c.queues| && c.queues[i + 1] == Pending
      then c.(queues := c.queues[i + 1 := QueueAfter(c.calls[i])])
      else c
  }

  predicate Active(phase: Phase) {
    phase.Running? || phase.Chosen? || phase.Paid?
  }

  function Run(o: Options, events: seq<Event>): Client {
    if events == [] then NEW else Step(o, Run(o, events[..|events| - 1]), events[|events| - 1])
  }

  // ---------------------------------------------------------------- what every run keeps

  function Sum(payments: seq<Requirement>): int {
    if payments == [] then 0 else Sum(payments[..|payments| - 1]) + payments[|payments| - 1].amount
  }

  lemma SumAppend(payments: seq<Requirement>, r: Requirement)
    ensures Sum(payments + [r]) == Sum(payments) + r.amount
  {
    assert (payments + [r])[..|payments|] == payments;
  }

  /** A call was sent on a fulfilled queue, and the queue after it is fulfilled only once it has settled. */
  predicate LinkOk(c: Client, k: nat) {
    && k < |c.calls| && k + 1 < |c.queues|
    && c.queues[k] != Rejected && c.queues[k + 1] != Rejected
    && (c.calls[k] != Queued ==> c.queues[k] == Fulfilled)
    && (c.queues[k + 1] == Fulfilled ==> c.calls[k].Settled?)
  }

  predicate ChainOk(c: Client) {
    && |c.queues| == |c.calls| + 1 && c.queues[0] == Fulfilled
    && forall k :: 0 <= k < |c.calls| ==> LinkOk(c, k)
  }

  /** Behind a call that has started, every earlier one has settled; the started ones are the first ones. */
  predicate OrderOk(c: Client) {
    && (forall i, j :: 0 <= i < j < |c.calls| && c.calls[j] != Queued ==> c.calls[i].Settled?)
    && |c.started| <= |c.calls|
    && (forall i :: 0 <= i < |c.started| ==> c.started[i] == i)
    && (forall i :: 0 <= i < |c.calls| ==> (c.calls[i] != Queued <==> i < |c.started|))
  }

  predicate QueueOk(c: Client) {
    ChainOk(c) && OrderOk(c)
  }

  /** The request's own terms: where, what, to whom, and how much at once. */
  predicate Allowed(o: Options, r: Requirement) {
    r.network == o.network && r.asset == o.expectedAsset && r.payTo == o.expectedPayTo && r.amount <= o.maxPerRequest
  }

  predicate BudgetOk(o: Options, c: Client) {
    && c.authorized == Sum(c.payments)
    && (c.payments == [] || c.authorized <= o.maxSession)
    && (forall i :: 0 <= i < |c.payments| ==> Allowed(o, c.payments[i]))
    && (forall i :: 0 <= i < |c.calls| && c.calls[i].Chosen? ==> Payable(o, c.authorized, c.calls[i].requirement))
  }

  /** A call moves on without ever returning to the queue. */
  lemma PutKeeps(c: Client, i: nat, phase: Phase)
    requires QueueOk(c) && i < |c.calls| && Active(c.calls[i]) && phase != Queued
    ensures QueueOk(Put(c, i, phase))
  {
    assert LinkOk(c, i);
    forall k | 0 <= k < |c.calls| ensures LinkOk(Put(c, i, phase), k) {
      assert LinkOk(c, k);
    }
  }

  lemma DequeueKeeps(o: Options, c: Client, i: nat)
    requires QueueOk(c) && i < |c.calls| && c.calls[i] == Queued && c.queues[i] == Fulfilled
    ensures i == |c.started| && QueueOk(Step(o, c, Dequeue(i)))
  {
    if i > 0 {
      assert LinkOk(c, i - 1);
    }
    assert LinkOk(c, i);
    forall k | 0 <= k < |c.calls| ensures LinkOk(Step(o, c, Dequeue(i)), k) {
      assert LinkOk(c, k);
    }
  }

  lemma SubmitKeeps(o: Options, c: Client)
    requires QueueOk(c)
    ensures QueueOk(Step(o, c, Submit))
  {
    var d := Step(o, c, Submit);
    forall k | 0 <= k < |d.calls| ensures LinkOk(d, k) {
      if k < |c.calls| {
        assert LinkOk(c, k);
      } else if k > 0 {
        assert LinkOk(c, k - 1);
      }
    }
  }

  lemma BothArmsSwallow(phase: Phase)
    ensures QueueAfter(phase) == if phase.Settled? then Fulfilled else Pending
  {
  }

  lemma FollowKeeps(c: Client, i: nat)
    requires QueueOk(c) && i < |c.calls| && c.queues[i + 1] == Pending && c.calls[i].Settled?
    ensures QueueOk(c.(queues := c.queues[i + 1 := Fulfilled]))
  {
    var d := c.(queues := c.queues[i + 1 := Fulfilled]);
    forall k | 0 <= k < |c.calls| ensures LinkOk(d, k) {
      assert LinkOk(c, k);
    }
  }

  lemma ChainKeeps(o: Options, c: Client, i: nat)
    requires QueueOk(c)
    ensures QueueOk(Step(o, c, Chain(i)))
  {
    if i < |c.calls| && c.queues[i + 1] == Pending {
      BothArmsSwallow(c.calls[i]);
      if c.calls[i].Settled? {
        FollowKeeps(c, i);
      } else {
        assert c.queues[i + 1 := Pending] == c.queues;
      }
    }
  }

  /** The steps of a call that has been sent. */
  predicate Moves(c: Client, e: Event) {
    (e.Choose? || e.Created? || e.Finish?) && e.i < |c.calls| && Active(c.calls[e.i])
  }

  lemma MoveKeeps(o: Options, c: Client, e: Event)
    requires QueueOk(c) && Moves(c, e)
    ensures QueueOk(Step(o, c, e))
  {
    var d := Step(o, c, e);
    if d != c {
      var moved := Put(c, e.i, d.calls[e.i]);
      PutKeeps(c, e.i, d.calls[e.i]);
      forall k | 0 <= k < |c.calls| ensures LinkOk(d, k) {
        assert LinkOk(moved, k);
      }
    }
  }

  lemma QueueKeeps(o: Options, c: Client, e: Event)
    requires QueueOk(c)
    ensures QueueOk(Step(o, c, e))
  {
    if Moves(c, e) {
      MoveKeeps(o, c, e);
    } else if e.Submit? {
      SubmitKeeps(o, c);
    } else if e.Chain? {
      ChainKeeps(o, c, e.i);
    } else if e.Dequeue? && e.i < |c.calls| && c.calls[e.i] == Queued && c.queues[e.i] == Fulfilled {
      DequeueKeeps(o, c, e.i);
    } else if e.Dequeue? && e.i < |c.calls| && c.calls[e.i] == Queued {
      assert LinkOk(c, e.i);
      assert c.calls[e.i := Queued] == c.calls;
    }
  }

  /** The one call that has chosen a requirement is the only one: paying it may use the budget up. */
  lemma OnlyChosen(c: Client, i: nat)
    requires QueueOk(c) && i < |c.calls| && c.calls[i].Chosen?
    ensures forall j :: 0 <= j < |c.calls| && j != i ==> !c.calls[j].Chosen?
  {
    forall j | 0 <= j < |c.calls| && j != i ensures !c.calls[j].Chosen? {
      assert j < i ==> c.calls[j].Settled?;
      assert j > i ==> c.calls[j] == Queued;
    }
  }

  lemma CreatedKeeps(o: Options, c: Client, i: nat)
    requires QueueOk(c) && BudgetOk(o, c) && i < |c.calls| && c.calls[i].Chosen?
    ensures BudgetOk(o, Step(o, c, Created(i)))
  {
    SumAppend(c.payments, c.calls[i].requirement);
    OnlyChosen(c, i);
    assert Payable(o, c.authorized, c.calls[i].requirement);
  }

  lemma BudgetKeeps(o: Options, c: Client, e: Event)
    requires QueueOk(c) && BudgetOk(o, c)
    ensures BudgetOk(o, Step(o, c, e))
  {
    if e.Created? && e.i < |c.calls| && c.calls[e.i].Chosen? {
      CreatedKeeps(o, c, e.i);
    } else {
      ChosenKept(o, c, e);
      var d := Step(o, c, e);
      forall i | 0 <= i < |d.calls| && d.calls[i].Chosen? ensures Payable(o, d.authorized, d.calls[i].requirement) {
      }
    }
  }

  /** Before it pays, a call has chosen what the policy allows at the current total. */
  lemma ChosenKept(o: Options, c: Client, e: Event)
    requires !(e.Created? && e.i < |c.calls| && c.calls[e.i].Chosen?)
    ensures var d := Step(o, c, e);
      && d.payments == c.payments && d.authorized == c.authorized
      && forall i :: 0 <= i < |d.calls| && d.calls[i].Chosen? ==>
           (i < |c.calls| && d.calls[i] == c.calls[i]) || Payable(o, c.authorized, d.calls[i].requirement)
  {
  }

  lemma {:induction false} RunOk(o: Options, events: seq<Event>)
    ensures QueueOk(Run(o, events)) && BudgetOk(o, Run(o, events))
  {
    if events != [] {
      RunOk(o, events[..|events| - 1]);
      QueueKeeps(o, Run(o, events[..|events| - 1]), events[|events| - 1]);
      BudgetKeeps(o, Run(o, events[..|events| - 1]), events[|events| - 1]);
    }
  }

  /** Calls run one at a time and start in the order in which they were submitted. */
  lemma OneAtATimeInOrder(o: Options, events: seq<Event>, i: nat, j: nat)
    ensures var c := Run(o, events);
      && (i < |c.calls| && j < |c.calls| && Active(c.calls[i]) && Active(c.calls[j]) ==> i == j)
      && (i < |c.started| ==> c.started[i] == i)
  {
    RunOk(o, events);
  }

  /** Both arms of the chained promise are needed for this: no failure ever reaches the queue. */
  lemma QueueNeverRejected(o: Options, events: seq<Event>, k: nat)
    ensures var c := Run(o, events); k < |c.queues| ==> c.queues[k] != Rejected
  {
    RunOk(o, events);
    var c := Run(o, events);
    if 0 < k < |c.queues| {
      assert LinkOk(c, k - 1);
    }
  }

  /** The call is sent if its queue promise is looked at now. */
  predicate MayStart(o: Options, c: Client, i: nat) {
    i < |c.calls| && c.calls[i] == Queued && i < |Step(o, c, Dequeue(i)).calls|
        && Step(o, c, Dequeue(i)).calls[i] == Running
  }

  lemma StartsWhenFulfilled(o: Options, c: Client, i: nat)
    requires i < |c.calls| < |c.queues| && c.calls[i] == Queued
    ensures MayStart(o, c, i) <==> c.queues[i] == Fulfilled
  {
  }

  /** Exactly the first waiting call may start, and exactly when the queue after the call before it has settled. */
  lemma TurnExactly(o: Options, events: seq<Event>, i: nat)
    ensures var c := Run(o, events);
      && |c.queues| == |c.calls| + 1
      && (MayStart(o, c, i) <==> i == |c.started| < |c.calls| && c.queues[i] != Pending)
      && (MayStart(o, c, i) && i > 0 ==> c.calls[i - 1].Settled?)
  {
    RunOk(o, events);
    var c := Run(o, events);
    if i < |c.calls| && c.calls[i] == Queued {
      StartsWhenFulfilled(o, c, i);
      assert LinkOk(c, i) && (i > 0 ==> LinkOk(c, i - 1));
      if c.queues[i] == Fulfilled {
        DequeueKeeps(o, c, i);
      }
    }
  }

  lemma ChainThenStart(o: Options, c: Client, i: nat)
    requires i + 1 < |c.calls| < |c.queues| && c.calls[i].Settled? && c.calls[i + 1] == Queued
    requires c.queues[i + 1] == Pending
    ensures MayStart(o, Step(o, c, Chain(i)), i + 1)
  {
    StartsWhenFulfilled(o, Step(o, c, Chain(i)), i + 1);
  }

  /** However a running call ends, fulfilled or rejected, the queue then lets the next one start. */
  lemma FailureIsForgotten(o: Options, events: seq<Event>, i: nat, fulfilled: bool)
    requires var c := Run(o, events); i + 1 < |c.calls| && Active(c.calls[i])
    ensures var c := Run(o, events); var next := Step(o, Step(o, c, Finish(i, fulfilled)), Chain(i));
      && MayStart(o, next, i + 1)
      && |c.queues| == |c.calls| + 1
      && next.queues == c.queues[i + 1 := Fulfilled] && next.authorized == c.authorized
  {
    RunOk(o, events);
    var c := Run(o, events);
    assert LinkOk(c, i) && LinkOk(c, i + 1);
    var ended := Step(o, c, Finish(i, fulfilled));
    assert ended.calls[i + 1] == Queued && ended.queues == c.queues;
    ChainThenStart(o, ended, i);
    BothArmsSwallow(ended.calls[i]);
  }

  lemma FirstWaiting(o: Options, c: Client)
    requires QueueOk(c) && |c.started| < |c.calls|
    ensures var n := |c.started|;
      || (n > 0 && Active(c.calls[n - 1]))
      || MayStart(o, c, n)
      || (n > 0 && MayStart(o, Step(o, c, Chain(n - 1)), n))
  {
    var n := |c.started|;
    assert c.calls[n] == Queued && LinkOk(c, n);
    StartsWhenFulfilled(o, c, n);
    if n > 0 && c.calls[n - 1].Settled? && c.queues[n] == Pending {
      ChainThenStart(o, c, n - 1);
    }
  }

  /**
    No call is ever stuck: whenever one is waiting, a call is under way, or the first waiting call may
    start, or it may once the queue promise behind the last settled call has followed it.
   */
  lemma NeverStuck(o: Options, events: seq<Event>)
    ensures var c := Run(o, events); var n := |c.started|;
      (exists i :: 0 <= i < |c.calls| && c.calls[i] == Queued) ==>
        || (exists i :: 0 <= i < |c.calls| && Active(c.calls[i]))
        || MayStart(o, c, n)
        || (n > 0 && MayStart(o, Step(o, c, Chain(n - 1)), n))
  {
    RunOk(o, events);
    var c := Run(o, events);
    if i :| 0 <= i < |c.calls| && c.calls[i] == Queued {
      FirstWaiting(o, c);
    }
  }

  /**
    In every run, however calls overlap and fail, everything authorized in the session adds up to at
    most the session maximum, and each payment is within the request maximum and goes to the expected
    recipient, in the expected asset and network.
   */
  lemma SessionWithinBudget(o: Options, events: seq<Event>, k: nat)
    requires k < |Run(o, events).payments|
    ensures var c := Run(o, events);
      && Sum(c.payments) == c.authorized <= o.maxSession
      && var r := c.payments[k];
         && r.amount <= o.maxPerRequest
         && r.network == o.network && r.asset == o.expectedAsset && r.payTo == o.expectedPayTo
  {
    RunOk(o, events);
  }

  // ---------------------------------------------------------------- what a call may pay

  /**
    A running call takes a requirement that the policy offers exactly when its terms are the expected
    ones, it fits what is left of the session, and the resource is allowed; a disallowed resource ends
    the call, and a requirement that is not offered changes nothing.
   */
  lemma ChooseExactly(o: Options, c: Client, i: nat, r: Requirement, resourceAllowed: bool)
    requires i < |c.calls| && c.calls[i] == Running
    ensures var offered := r.network == o.network && r.asset == o.expectedAsset && r.payTo == o.expectedPayTo
        && r.amount <= o.maxPerRequest && c.authorized + r.amount <= o.maxSession;
      var t := Step(o, c, Choose(i, r, resourceAllowed));
      t == if !offered then c
           else c.(calls := c.calls[i := if resourceAllowed then Chosen(r) else Settled(false)])
  {
  }

  /** Every submission joins the queue behind the calls before it. */
  lemma SubmitExactly(o: Options, c: Client)
    ensures Step(o, c, Submit) == c.(calls := c.calls + [Queued], queues := c.queues + [Pending])
  {
  }

  /** A created payment is added to the session's total at once. */
  lemma CreatedExactly(o: Options, c: Client, i: nat, r: Requirement)
    requires i < |c.calls| && c.calls[i] == Chosen(r)
    ensures Step(o, c, Created(i)) == c.(
      calls := c.calls[i := Paid], authorized := c.authorized + r.amount, payments := c.payments + [r])
  {
  }

  predicate Takes(e: Event, r: Requirement) {
    e.Choose? && e.requirement == r && e.resourceAllowed
  }

  /** Some call took this requirement for a resource that was allowed. */
  predicate TakenFor(events: seq<Event>, r: Requirement) {
    exists k :: 0 <= k < |events| && Takes(events[k], r)
  }

  lemma TakenLater(events: seq<Event>, n: nat, r: Requirement)
    requires n <= |events| && TakenFor(events[..n], r)
    ensures TakenFor(events, r)
  {
    var k :| 0 <= k < n && Takes(events[..n][k], r);
    assert Takes(events[k], r);
  }

  /** Nothing is chosen, hence nothing paid, for a resource that is not allowed. */
  lemma {:induction false} PaidForAllowedResource(o: Options, events: seq<Event>, r: Requirement)
    ensures var c := Run(o, events);
      r in c.payments || Chosen(r) in c.calls ==> TakenFor(events, r)
  {
    if events != [] {
      var n := |events| - 1;
      var before, after := Run(o, events[..n]), Run(o, events);
      PaidForAllowedResource(o, events[..n], r);
      if r in before.payments || Chosen(r) in before.calls {
        TakenLater(events, n, r);
      } else if r in after.payments || Chosen(r) in after.calls {
        NewlyChosen(o, before, events[n], r);
      }
    }
  }

  lemma NewlyChosen(o: Options, c: Client, e: Event, r: Requirement)
    requires r !in c.payments && Chosen(r) !in c.calls
    requires r in Step(o, c, e).payments || Chosen(r) in Step(o, c, e).calls
    ensures Takes(e, r)
  {
    if e.Created? && e.i < |c.calls| && c.calls[e.i].Chosen? {
      assert c.calls[e.i] in c.calls;
    }
    var d := Step(o, c, e);
    if Chosen(r) in d.calls {
      var k :| 0 <= k < |d.calls| && d.calls[k] == Chosen(r);
      assert k < |c.calls| ==> c.calls[k] in c.calls;
    }
  }

  // ---------------------------------------------------------------- resource scope

  /** The path without its trailing slashes, or the root. */
  method NormalizePathname(pathname: string) returns (normal: string)
    ensures normal == Normalized(pathname)
  {
    var end := |pathname|;
    assert pathname[..end] == pathname;
    while end > 0 && pathname[end - 1] == '/'
      invariant 0 <= end <= |pathname|
      invariant Normalized(pathname) == Normalized(pathname[..end])
    {
      end := end - 1;
      assert pathname[..end + 1][..end] == pathname[..end];
    }
    normal := if end == 0 then "/" else pathname[..end];
  }

  function Normalized(pathname: string): string {
    if pathname == "" then "/"
    else if pathname[|pathname| - 1] == '/' then Normalized(pathname[..|pathname| - 1])
    else pathname
  }

  /** Normalising forgets exactly the trailing slashes. */
  lemma {:induction false} NormalizedExactly(pathname: string)
    ensures var n := Normalized(pathname);
      && n != "" && (n == "/" || n[|n| - 1] != '/') && Normalized(n) == n
      && (n != "/" ==> n <= pathname)
      && forall k :: (if n == "/" then 0 else |n|) <= k < |pathname| ==> pathname[k] == '/'
  {
    if pathname != "" && pathname[|pathname| - 1] == '/' {
      NormalizedExactly(pathname[..|pathname| - 1]);
    }
  }

  datatype Url = Url(protocol: string, username: string, password: string, origin: string, pathname: string)

  predicate IsResourceAllowed(candidate: Url, allowed: Url, allowSubpaths: bool) {
    if (candidate.protocol != "https:" && candidate.protocol != "http:")
       || candidate.username != "" || candidate.password != "" || candidate.origin != allowed.origin
    then false
    else
      var candidatePath, allowedPath := Normalized(candidate.pathname), Normalized(allowed.pathname);
      candidatePath == allowedPath || (allowSubpaths && allowedPath != "/" && allowedPath + "/" <= candidatePath)
  }

  /**
    A path that merely continues the allowed one with other characters is never allowed: past the
    allowed path, an allowed candidate ends or goes on with a slash.
   */
  lemma NoSiblingAllowed(candidate: Url, allowed: Url, allowSubpaths: bool)
    requires IsResourceAllowed(candidate, allowed, allowSubpaths)
    ensures var c, a := Normalized(candidate.pathname), Normalized(allowed.pathname);
      && candidate.origin == allowed.origin && a <= c
      && (|c| > |a| ==> allowSubpaths && a != "/" && c[|a|] == '/' && a <= candidate.pathname)
  {
    NormalizedExactly(candidate.pathname);
    var c, a := Normalized(candidate.pathname), Normalized(allowed.pathname);
    if c != a {
      assert c[|a|] == (a + "/")[|a|];
    }
  }

  /** Exactly the candidates that are allowed: same origin, no credentials, and the allowed path or one below it. */
  lemma AllowedExactly(candidate: Url, allowed: Url, allowSubpaths: bool)
    ensures var c, a := Normalized(candidate.pathname), Normalized(allowed.pathname);
      IsResourceAllowed(candidate, allowed, allowSubpaths) <==>
        && (candidate.protocol == "https:" || candidate.protocol == "http:")
        && candidate.username == "" && candidate.password == "" && candidate.origin == allowed.origin
        && (c == a || (allowSubpaths && a != "/" && |a| < |c| && c[..|a|] == a && c[|a|] == '/'))
  {
    var c, a := Normalized(candidate.pathname), Normalized(allowed.pathname);
    if |a| < |c| && c[..|a|] == a && c[|a|] == '/' {
      assert c[..|a| + 1] == a + "/";
    }
    if a + "/" <= c {
      assert c[|a|] == (a + "/")[|a|];
    }
  }
}
