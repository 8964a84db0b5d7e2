/** The block download over whole runs: what storage gets, how far ahead it reads, why it ends. */
module DownloadProgress {
  import opened Division
  import opened Extremes
  import opened DownloadSpec
  import opened DownloadProofs
  import opened DownloadRuns

  // ----- runs

  ghost predicate Legal(s: Sys, es: seq<Event>)
    decreases |es|
  {
    es == [] || (AllSane(s) && Enabled(s, es[0]) && Legal(Step(s, es[0]), es[1..]))
  }

  ghost function Run(s: Sys, es: seq<Event>): Sys
    requires Legal(s, es)
    decreases |es|
  {
    if es == [] then s else Run(Step(s, es[0]), es[1..])
  }

  lemma {:induction false} RunKeeps(s: Sys, es: seq<Event>)
    requires Inv(s) && Legal(s, es)
    ensures Inv(Run(s, es))
    ensures Run(s, es).base == s.base && Run(s, es).ht == s.ht && |Run(s, es).tasks| == |s.tasks|
    ensures Run(s, es).nClients == s.nClients && Run(s, es).consumer.bad == s.consumer.bad
    ensures Run(s, es).net == s.net && Run(s, es).segWit == s.segWit
    decreases |es|
  {
    hide Inv;
    if es != [] {
      StepKeeps(s, es[0]);
      StepFrame(s, es[0]);
      RunKeeps(Step(s, es[0]), es[1..]);
    }
  }

  lemma {:induction false} DrainFrame(c: Consumer)
    ensures Drain(c).bad == c.bad
    decreases |c.dlResults|
  {
    if c.htNext in c.dlResults {
      var c1 := c.(dlResults := c.dlResults - {c.htNext}, htNext := c.htNext + 1);
      assert |c1.dlResults| < |c.dlResults|;
      if c.htNext !in c.bad && c1.htNext <= c1.endHeight { DrainFrame(c1.(stored := c.stored + [c.htNext])); }
    }
  }

  lemma {:induction false} StepFrame(s: Sys, e: Event)
    requires AllSane(s) && Enabled(s, e)
    ensures var s' := Step(s, e);
      && s'.base == s.base && s'.ht == s.ht && |s'.tasks| == |s.tasks| && s'.nClients == s.nClients && s'.consumer.bad == s.consumer.bad
      && s'.net == s.net && s'.segWit == s.segWit
  {
    hide Process, Reply, DoGet, Drain, Throttled;
    if e.PutBlock? { DrainFrame(s.consumer.(dlResults := s.consumer.dlResults + {e.h})); }
  }

  lemma {:induction false} RunInv(base: Height, ht: Height, concurrency: nat, nClients: nat, net: Net, segWit: bool,
                                  bad: set<Height>, es: seq<Event>)
    requires base <= ht && concurrency > 0
    requires Legal(Start(base, ht, concurrency, nClients, net, segWit, bad), es)
    ensures Inv(Run(Start(base, ht, concurrency, nClients, net, segWit, bad), es))
    ensures Run(Start(base, ht, concurrency, nClients, net, segWit, bad), es).nClients == nClients
  {
    hide Inv, Legal, Run;
    StartInv(base, ht, concurrency, nClients, net, segWit, bad);
    RunKeeps(Start(base, ht, concurrency, nClients, net, segWit, bad), es);
  }

  // ----- safety

  /** After any run: storage got base, base+1, ... in order, none twice and none beyond ht. */
  lemma {:induction false} StoredInOrder(base: Height, ht: Height, concurrency: nat, nClients: nat, net: Net, segWit: bool,
                                         bad: set<Height>, es: seq<Event>)
    requires base <= ht && concurrency > 0
    requires Legal(Start(base, ht, concurrency, nClients, net, segWit, bad), es)
    ensures var s := Run(Start(base, ht, concurrency, nClients, net, segWit, bad), es);
      && |s.consumer.stored| <= ht - base + 1
      && (forall k :: 0 <= k < |s.consumer.stored| ==> s.consumer.stored[k] == base + k && s.consumer.stored[k] !in bad)
      && (s.consumer.state == FinishedDL ==> |s.consumer.stored| == ht - base + 1)
      && (s.consumer.state == Retry ==> base + |s.consumer.stored| <= ht && base + |s.consumer.stored| in bad)
  {
    hide Drain, TasksInv, Shape, Near, Legal, Run;
    var s0 := Start(base, ht, concurrency, nClients, net, segWit, bad);
    StartInv(base, ht, concurrency, nClients, net, segWit, bad);
    RunKeeps(s0, es);
    var s := Run(s0, es);
    ShapeEnd(s);
  }

  lemma {:induction false} ShapeEnd(s: Sys)
    requires Shape(s)
    ensures s.consumer.endHeight == s.ht
  {
  }

  /** Task i has asked for height h, or is about to ask again, and has no answer yet. */
  ghost predicate Outstanding(s: Sys, i: nat, h: Height)
    requires i < |s.tasks|
  {
    h in s.tasks[i].waiting + s.tasks[i].inFlight
  }

  lemma {:induction false} RequestsApart(s: Sys, i: nat, j: nat, h: Height)
    requires Inv(s) && i < |s.tasks| && j < |s.tasks|
    ensures Out(s.tasks[i]) <= s.nClients + 1
    ensures Outstanding(s, i, h) && Outstanding(s, j, h) ==> i == j
  {
    hide NToDL, Index2Height, Places;
    assert TaskInv(s.tasks[i], s.consumer, s.puts) && TaskInv(s.tasks[j], s.consumer, s.puts);
    if Outstanding(s, i, h) && Outstanding(s, j, h) {
      PlacedMine(s.tasks[i], s.consumer, s.puts, h);
      PlacedMine(s.tasks[j], s.consumer, s.puts, h);
      OneOwner(s.base, |s.tasks|, i, j, h);
    }
  }

  /** After any run no task has more than nClients + 1 requests out, and no height is with two tasks. */
  lemma {:induction false} RequestsBounded(base: Height, ht: Height, concurrency: nat, nClients: nat, net: Net, segWit: bool,
                                           bad: set<Height>, es: seq<Event>)
    requires base <= ht && concurrency > 0
    requires Legal(Start(base, ht, concurrency, nClients, net, segWit, bad), es)
    ensures var s := Run(Start(base, ht, concurrency, nClients, net, segWit, bad), es);
      && (forall i :: 0 <= i < |s.tasks| ==> Out(s.tasks[i]) <= nClients + 1)
      && (forall i: nat, j: nat, h :: i < |s.tasks| && j < |s.tasks| && Outstanding(s, i, h) && Outstanding(s, j, h) ==> i == j)
  {
    hide Inv, Legal, Run, Start;
    RunInv(base, ht, concurrency, nClients, net, segWit, bad, es);
    var s := Run(Start(base, ht, concurrency, nClients, net, segWit, bad), es);
    forall i | 0 <= i < |s.tasks| ensures Out(s.tasks[i]) <= nClients + 1 { RequestsApart(s, i, i, 0); }
    forall i: nat, j: nat, h | i < |s.tasks| && j < |s.tasks| && Outstanding(s, i, h) && Outstanding(s, j, h)
      ensures i == j
    {
      RequestsApart(s, i, j, h);
    }
  }

  // ----- the back-log

  lemma {:induction false} IntervalSize(hs: set<Height>, lo: Height, n: nat)
    requires forall h :: h in hs ==> lo <= h < lo + n
    ensures |hs| <= n
    decreases n
  {
    if n == 0 {
      if h :| h in hs { assert false; }
    } else {
      var top := lo + n - 1;
      IntervalSize(hs - {top}, lo, n - 1);
      if top in hs { assert |hs - {top}| == |hs| - 1; } else { assert hs - {top} == hs; }
    }
  }

  lemma {:induction false} BacklogNear(s: Sys)
    requires Inv(s)
    ensures forall h :: h in s.consumer.dlResults + s.puts ==> h <= s.consumer.htNext + 1000
    ensures s.consumer.state == DownloadingBlocks ==> |s.consumer.dlResults| <= 1000
  {
    hide TasksInv, InOrder, Shape;
    if s.consumer.state == DownloadingBlocks {
      IntervalSize(s.consumer.dlResults, s.consumer.htNext + 1, 1000);
    }
  }

  /** After any run the blocks held in memory for storage number at most 1000, and none that has arrived is
      more than 1000 ahead of the one storage waits for. */
  lemma {:induction false} BacklogBounded(base: Height, ht: Height, concurrency: nat, nClients: nat, net: Net, segWit: bool,
                                          bad: set<Height>, es: seq<Event>)
    requires base <= ht && concurrency > 0
    requires Legal(Start(base, ht, concurrency, nClients, net, segWit, bad), es)
    ensures var c := Run(Start(base, ht, concurrency, nClients, net, segWit, bad), es).consumer;
      && (forall h :: h in c.dlResults + Run(Start(base, ht, concurrency, nClients, net, segWit, bad), es).puts ==> h <= c.htNext + 1000)
      && (c.state == DownloadingBlocks ==> |c.dlResults| <= 1000)
  {
    hide Inv, Legal, Run, Start;
    RunInv(base, ht, concurrency, nClients, net, segWit, bad, es);
    BacklogNear(Run(Start(base, ht, concurrency, nClients, net, segWit, bad), es));
  }

  /** All of hs is within the limit of the net. */
  ghost predicate AllWithin(s: Sys, hs: set<Height>) {
    forall h :: h in hs ==> WithinLimit(s.net, s.segWit, h, h - s.consumer.htNext)
  }

  /** So is whatever has been asked for and is not stored yet. */
  ghost predicate Ahead(s: Sys) {
    && AllWithin(s, s.consumer.dlResults) && AllWithin(s, s.puts)
    && (forall i :: 0 <= i < |s.tasks| ==> AllWithin(s, s.tasks[i].inFlight))
  }

  lemma {:induction false} DrainOnward(c: Consumer)
    ensures Drain(c).htNext >= c.htNext && Drain(c).dlResults <= c.dlResults
    decreases |c.dlResults|
  {
    if c.htNext in c.dlResults {
      var c1 := c.(dlResults := c.dlResults - {c.htNext}, htNext := c.htNext + 1);
      assert |c1.dlResults| < |c.dlResults|;
      if c.htNext !in c.bad && c1.htNext <= c1.endHeight { DrainOnward(c1.(stored := c.stored + [c.htNext])); }
    }
  }

  /** The limit only gets looser for a block as storage moves on. */
  lemma {:induction false} WithinLater(s: Sys, s': Sys, hs: set<Height>, hs': set<Height>)
    requires AllWithin(s, hs) && hs' <= hs
    requires s'.net == s.net && s'.segWit == s.segWit && s'.consumer.htNext >= s.consumer.htNext
    ensures AllWithin(s', hs')
  {
  }

  lemma {:induction false} AskedWithin(s: Sys, i: nat, h: Height)
    requires Ahead(s) && i < |s.tasks|
    ensures AllWithin(s, DoGet(s.tasks[i], h, Throttled(s, h)).inFlight)
  {
    hide ThrottleMsec, WithinLimit;
    NetLimits(s.net, s.segWit, h, s.consumer.htNext, 0);
  }

  lemma {:induction false} AheadStep(s: Sys, e: Event)
    requires AllSane(s) && Enabled(s, e) && Ahead(s)
    ensures Ahead(Step(s, e))
  {
    hide NToDL, Throttled, Drain, WithinLimit, Min, Max;
    StepFrame(s, e);
    var s' := Step(s, e);
    match e
    case Again(i) => AskedWithin(s, i, s.tasks[i].next);
    case Wake(i, h) => AskedWithin(s, i, h);
    case Arrive(i, h) => assert h in s.tasks[i].inFlight && AllWithin(s, s.tasks[i].inFlight);
    case PutBlock(h) =>
      var c1 := s.consumer.(dlResults := s.consumer.dlResults + {h});
      DrainOnward(c1);
      WithinLater(s, s', s.puts, s'.puts);
      WithinLater(s, s', s.consumer.dlResults + {h}, s'.consumer.dlResults);
      forall j | 0 <= j < |s.tasks| ensures AllWithin(s', s'.tasks[j].inFlight) {
        WithinLater(s, s', s.tasks[j].inFlight, s'.tasks[j].inFlight);
      }
    case Fail(i) =>
  }

  lemma {:induction false} AheadAlways(s: Sys, es: seq<Event>)
    requires Inv(s) && Ahead(s) && Legal(s, es)
    ensures Ahead(Run(s, es))
    decreases |es|
  {
    hide Inv, Ahead, Step, Enabled;
    if es != [] {
      StepKeeps(s, es[0]);
      AheadStep(s, es[0]);
      AheadAlways(Step(s, es[0]), es[1..]);
    }
  }

  /** After any run each block that is asked for, on its way or held for storage is within the limit that
      its net sets for its height, counted from the block storage waits for. */
  lemma {:induction false} BacklogWithinLimits(base: Height, ht: Height, concurrency: nat, nClients: nat, net: Net, segWit: bool,
                                               bad: set<Height>, es: seq<Event>, h: Height)
    requires base <= ht && concurrency > 0
    requires Legal(Start(base, ht, concurrency, nClients, net, segWit, bad), es)
    ensures var s := Run(Start(base, ht, concurrency, nClients, net, segWit, bad), es);
      h in s.puts || h in s.consumer.dlResults || (exists i :: 0 <= i < |s.tasks| && h in s.tasks[i].inFlight) ==>
        WithinLimit(net, segWit, h, h - s.consumer.htNext)
  {
    hide Inv, Legal, Run, WithinLimit;
    var s0 := Start(base, ht, concurrency, nClients, net, segWit, bad);
    StartInv(base, ht, concurrency, nClients, net, segWit, bad);
    assert Ahead(s0);
    AheadAlways(s0, es);
    RunKeeps(s0, es);
  }

  /** Once the controller has left the download, storage gets nothing more. */
  lemma {:induction false} NothingStoredAfter(s: Sys, es: seq<Event>)
    requires Inv(s) && Legal(s, es) && s.consumer.state != DownloadingBlocks
    ensures Run(s, es).consumer.stored == s.consumer.stored && Run(s, es).consumer.state != DownloadingBlocks
    decreases |es|
  {
    hide Inv, Process, Reply, DoGet, Throttled;
    if es != [] {
      StepKeeps(s, es[0]);
      NothingStoredAfter(Step(s, es[0]), es[1..]);
    }
  }

  // ----- every height is asked for exactly once

  /** Some task has already asked the node for height h. */
  ghost predicate Asked(s: Sys, h: Height)
    requires |s.tasks| > 0 && s.base <= h
  {
    var t := s.tasks[Owner(s.base, |s.tasks|, h)];
    h < t.next && h !in t.waiting
  }

  /** The event sends the request for height h. */
  ghost predicate Requests(s: Sys, e: Event, h: Height)
    requires Enabled(s, e)
  {
    match e
    case Again(i) => s.tasks[i].next == h && h <= s.tasks[i].to && !Throttled(s, h)
    case Wake(i, g) => g == h && !Throttled(s, h)
    case _ => false
  }

  ghost function RequestCount(s: Sys, es: seq<Event>, h: Height): nat
    requires Legal(s, es)
    decreases |es|
  {
    if es == [] then 0 else One(Requests(s, es[0], h)) + RequestCount(Step(s, es[0]), es[1..], h)
  }

  lemma {:induction false} AskedAgain(s: Sys, i: nat, h: Height)
    requires Inv(s) && s.base <= h <= s.ht && Enabled(s, Again(i))
    ensures One(Asked(Step(s, Again(i)), h)) == One(Asked(s, h)) + One(Requests(s, Again(i), h))
  {
    hide NToDL, Index2Height, Min, Max, Throttled, Places, Counted;
    var t := s.tasks[i];
    assert TaskInv(t, s.consumer, s.puts);
    NextIsMine(t);
    OwnerOwns(s.base, |s.tasks|, h);
    var o := Owner(s.base, |s.tasks|, h);
    if o == i {
      NextOnStride(t.from, t.stride, t.next, h);
    } else if t.next == h {
      OneOwner(s.base, |s.tasks|, i, o, h);
    }
  }

  lemma {:induction false} AskedWake(s: Sys, i: nat, g: Height, h: Height)
    requires Inv(s) && s.base <= h <= s.ht && Enabled(s, Wake(i, g))
    ensures One(Asked(Step(s, Wake(i, g)), h)) == One(Asked(s, h)) + One(Requests(s, Wake(i, g), h))
  {
    hide NToDL, Index2Height, Min, Max, Throttled, Places, Counted;
    var t := s.tasks[i];
    assert TaskInv(t, s.consumer, s.puts);
    PlacedMine(t, s.consumer, s.puts, g);
    OwnerOwns(s.base, |s.tasks|, h);
    var o := Owner(s.base, |s.tasks|, h);
    if o != i && g == h { OneOwner(s.base, |s.tasks|, i, o, h); }
  }

  lemma {:induction false} AskedStep(s: Sys, e: Event, h: Height)
    requires Inv(s) && s.base <= h <= s.ht && Enabled(s, e)
    ensures One(Asked(Step(s, e), h)) == One(Asked(s, h)) + One(Requests(s, e, h))
  {
    hide TasksInv, ConsumerInv, Throttled, Put;
    match e
    case Again(i) => AskedAgain(s, i, h);
    case Wake(i, g) => AskedWake(s, i, g, h);
    case Arrive(i, g) =>
    case PutBlock(g) =>
    case Fail(i) =>
  }

  /** Over any run the node is asked for each height at most once, and once the download is
      finished exactly once. */
  lemma {:induction false} AskedOnce(s: Sys, es: seq<Event>, h: Height)
    requires Inv(s) && Legal(s, es) && s.base <= h <= s.ht
    ensures Inv(Run(s, es)) && Run(s, es).base == s.base && |Run(s, es).tasks| == |s.tasks|
    ensures One(Asked(Run(s, es), h)) == One(Asked(s, h)) + RequestCount(s, es, h)
    decreases |es|
  {
    hide Inv, Requests, Asked;
    RunKeeps(s, es);
    if es != [] {
      StepKeeps(s, es[0]);
      StepFrame(s, es[0]);
      AskedStep(s, es[0], h);
      AskedOnce(Step(s, es[0]), es[1..], h);
    }
  }

  lemma {:induction false} FinishedAsked(s: Sys, h: Height)
    requires Inv(s) && s.consumer.state == FinishedDL && s.base <= h <= s.ht
    ensures Asked(s, h)
  {
    hide NToDL, Index2Height, Counted;
    FinishedQuiet(s);
    OwnerOwns(s.base, |s.tasks|, h);
    var t := s.tasks[Owner(s.base, |s.tasks|, h)];
    assert TaskInv(t, s.consumer, s.puts);
    assert Mine(t, h) && Places(t, s.consumer, s.puts, h) == One(h < t.next);
  }

  lemma {:induction false} RequestedExactlyOnce(base: Height, ht: Height, concurrency: nat, nClients: nat, net: Net, segWit: bool,
                                                bad: set<Height>, es: seq<Event>, h: Height)
    requires base <= h <= ht && concurrency > 0
    requires Legal(Start(base, ht, concurrency, nClients, net, segWit, bad), es)
    ensures var s0 := Start(base, ht, concurrency, nClients, net, segWit, bad);
      RequestCount(s0, es, h) <= 1 && (Run(s0, es).consumer.state == FinishedDL ==> RequestCount(s0, es, h) == 1)
  {
    hide Inv, Legal, Run, RequestCount;
    var s0 := Start(base, ht, concurrency, nClients, net, segWit, bad);
    StartInv(base, ht, concurrency, nClients, net, segWit, bad);
    AskedOnce(s0, es, h);
    RunKeeps(s0, es);
    assert !Asked(s0, h) by {
      OwnerOwns(base, |s0.tasks|, h);
      var o := Owner(base, |s0.tasks|, h);
      assert s0.tasks[o] == StartTask(base, ht, concurrency, nClients, o);
    }
    if Run(s0, es).consumer.state == FinishedDL { FinishedAsked(Run(s0, es), h); }
  }

  // ----- success

  /** A task reports success exactly when its last expected block has arrived and been counted, and then
      every one of its heights has reached the controller; "missing blocks" is never reported. */
  lemma {:induction false} SuccessMeansAllArrived(s: Sys, i: nat, h: Height)
    requires Inv(s) && Active(s.consumer) && i < |s.tasks|
    ensures s.tasks[i].status != Errored
    ensures s.tasks[i].status == Succeeded ==> s.tasks[i].goodCt == Expected(s.tasks[i])
    ensures s.tasks[i].goodCt == Expected(s.tasks[i]) && Mine(s.tasks[i], h) ==>
              h in s.puts || h in s.consumer.dlResults || h < s.consumer.htNext
  {
    hide Index2Height, NToDL;
    var t := s.tasks[i];
    assert TaskInv(t, s.consumer, s.puts);
    if t.goodCt == Expected(t) && Mine(t, h) {
      ExpectedCounts(t.from, t.to, t.stride, t.goodCt + Out(t));
      assert h < t.next;
      assert Places(t, s.consumer, s.puts, h) == 1;
    }
  }

  /** When storage is complete every task has succeeded or is about to. */
  lemma {:induction false} FinishedMeansSuccess(s: Sys, i: nat)
    requires Inv(s) && s.consumer.state == FinishedDL && i < |s.tasks|
    ensures s.tasks[i].goodCt == Expected(s.tasks[i])
    ensures s.tasks[i].status == Succeeded
         || (s.tasks[i].again == 1 && Process(s.tasks[i], false).status == Succeeded)
  {
    hide Index2Height, NToDL;
    FinishedQuiet(s);
    var t := s.tasks[i];
    assert TaskInv(t, s.consumer, s.puts);
    var k := t.goodCt + Out(t);
    ExpectedCounts(t.from, t.to, t.stride, k);
    NextIsMine(t);
    forall g: Height | Mine(t, g) ensures g < t.next {
      assert Places(t, s.consumer, s.puts, g) == One(g < t.next);
    }
    assert !Mine(t, t.next);
  }

  // ----- progress

  /** Steps that get on with the work: not failures, and not a back-off that is renewed. */
  ghost predicate Productive(s: Sys, e: Event) {
    Enabled(s, e) && !e.Fail? && (e.Wake? ==> !Throttled(s, e.h))
  }

  /** While downloading, the owner of the height that storage waits for can act. */
  lemma {:induction false} OwnerCanAct(s: Sys) returns (e: Event)
    requires Inv(s) && s.consumer.state == DownloadingBlocks
    ensures Productive(s, e)
  {
    hide Index2Height, NToDL, OnStride, ThrottleMsec;
    var h, n := s.consumer.htNext, |s.tasks|;
    OwnerOwns(s.base, n, h);
    var i := Owner(s.base, n, h);
    var t := s.tasks[i];
    assert TaskInv(t, s.consumer, s.puts);
    assert Mine(t, h) && Places(t, s.consumer, s.puts, h) == One(h < t.next);
    ThrottleRange(s, h);
    if h in t.waiting {
      assert Out(t) > 0;
      e := Wake(i, h);
    } else if h in t.inFlight {
      assert Out(t) > 0;
      e := Arrive(i, h);
    } else if h in s.puts {
      e := PutBlock(h);
    } else {
      assert t.next <= h;
      ExpectedCounts(t.from, t.to, t.stride, t.goodCt + Out(t));
      NothingBehind(s, i);
      e := Again(i);
    }
  }

  /** A task that has not asked for the height storage waits for has no request out. */
  lemma {:induction false} NothingBehind(s: Sys, i: nat)
    requires Inv(s) && s.consumer.state == DownloadingBlocks && i < |s.tasks|
    requires s.tasks[i].next <= s.consumer.htNext
    ensures Out(s.tasks[i]) == 0
  {
    hide Index2Height, NToDL, OnStride;
    var t := s.tasks[i];
    assert TaskInv(t, s.consumer, s.puts);
    forall g: Height | Mine(t, g) ensures g !in t.waiting && g !in t.inFlight {
      assert Places(t, s.consumer, s.puts, g) == One(g < t.next);
    }
    assert t.waiting == {} && t.inFlight == {};
  }

  /** No deadlock: after any run that is still downloading, some productive step is enabled. */
  lemma {:induction false} NoDeadlock(base: Height, ht: Height, concurrency: nat, nClients: nat, net: Net, segWit: bool,
                                      bad: set<Height>, es: seq<Event>) returns (e: Event)
    requires base <= ht && concurrency > 0
    requires Legal(Start(base, ht, concurrency, nClients, net, segWit, bad), es)
    requires Run(Start(base, ht, concurrency, nClients, net, segWit, bad), es).consumer.state == DownloadingBlocks
    ensures Productive(Run(Start(base, ht, concurrency, nClients, net, segWit, bad), es), e)
  {
    hide Inv, Legal, Run, Start, Productive;
    RunInv(base, ht, concurrency, nClients, net, segWit, bad, es);
    e := OwnerCanAct(Run(Start(base, ht, concurrency, nClients, net, segWit, bad), es));
  }

  ghost function TaskWork(t: Task): int
    requires Sane(t)
  {
    4 * (Expected(t) - t.goodCt - Out(t)) + 3 * |t.waiting| + 2 * |t.inFlight| + One(t.status == Running)
  }

  ghost function TasksWork(ts: seq<Task>): int
    requires forall i :: 0 <= i < |ts| ==> Sane(ts[i])
  {
    if ts == [] then 0 else TaskWork(ts[0]) + TasksWork(ts[1..])
  }

  /** The work left. */
  ghost function Work(s: Sys): int
    requires AllSane(s)
  {
    TasksWork(s.tasks) + |s.puts|
  }

  lemma {:induction false} WorkUpdate(ts: seq<Task>, i: nat, t: Task)
    requires forall j :: 0 <= j < |ts| ==> Sane(ts[j])
    requires i < |ts| && Sane(t)
    ensures TasksWork(ts[i := t]) == TasksWork(ts) - TaskWork(ts[i]) + TaskWork(t)
    decreases i
  {
    hide TaskWork;
    if i == 0 {
      assert ts[0 := t][1..] == ts[1..];
    } else {
      assert ts[i := t][1..] == ts[1..][i - 1 := t];
      WorkUpdate(ts[1..], i - 1, t);
    }
  }

  lemma {:induction false} WorkLeft(ts: seq<Task>)
    requires forall i :: 0 <= i < |ts| ==> Sane(ts[i]) && Counted(ts[i])
    ensures TasksWork(ts) >= 0
  {
    hide Index2Height, NToDL, Min;
    if ts != [] { WorkLeft(ts[1..]); }
  }

  lemma {:induction false} ProcessWork(t: Task, throttled: bool)
    requires Sane(t) && Counted(t) && Apart(t) && t.status == Running && t.again > 0
    ensures TaskWork(Process(t, throttled)) < TaskWork(t)
  {
    ProcessKeeps(t, throttled);
    hide Index2Height, NToDL, Min, Max;
    if t.next <= t.to { assert t.next !in t.waiting && t.next !in t.inFlight; }
  }

  lemma {:induction false} ReplyWork(t: Task, h: Height)
    requires Sane(t) && Counted(t) && Apart(t) && h in t.inFlight
    ensures TaskWork(Reply(t, h)) <= TaskWork(t) - 2
  {
    hide Index2Height, NToDL, Min, Max, Counted;
    assert |t.inFlight - {h}| == |t.inFlight| - 1;
  }

  lemma {:induction false} WakeWork(t: Task, h: Height)
    requires Sane(t) && Apart(t) && h in t.waiting
    ensures TaskWork(DoGet(t, h, false)) < TaskWork(t)
  {
    hide Index2Height, NToDL;
    assert h !in t.inFlight;
  }

  /** Every productive step leaves less work, so a run has finitely many of them. */
  lemma {:induction false} WorkDecreases(s: Sys, e: Event)
    requires Inv(s) && Productive(s, e)
    ensures 0 <= Work(Step(s, e)) < Work(s)
  {
    hide TaskWork, Placed, Put, ConsumerInv;
    StepKeeps(s, e);
    var s' := Step(s, e);
    WorkLeft(s'.tasks);
    if e.PutBlock? {
      assert |s.puts - {e.h}| == |s.puts| - 1;
    } else {
      var t := s.tasks[e.i];
      assert TaskInv(t, s.consumer, s.puts);
      WorkUpdate(s.tasks, e.i, s'.tasks[e.i]);
      match e
      case Again(i) => ProcessWork(t, Throttled(s, t.next));
      case Wake(i, h) => WakeWork(t, h);
      case Arrive(i, h) => ReplyWork(t, h);
    }
  }

  lemma {:induction false} FailWork(t: Task)
    requires Sane(t)
    ensures TaskWork(t.(status := Errored)) <= TaskWork(t)
  {
    hide NToDL;
  }

  lemma {:induction false} BackOffWork(t: Task, h: Height)
    requires Sane(t) && h in t.waiting
    ensures TaskWork(DoGet(t, h, true)) == TaskWork(t)
  {
    hide NToDL;
    assert t.waiting + {h} == t.waiting;
  }

  /** The other steps, which are failures and renewed back-offs, leave no more work. */
  lemma {:induction false} WorkNeverGrows(s: Sys, e: Event)
    requires Inv(s) && AllSane(s) && Enabled(s, e) && !Productive(s, e)
    ensures AllSane(Step(s, e)) && Work(Step(s, e)) <= Work(s)
  {
    hide TaskWork, Placed, Put, ConsumerInv, Throttled;
    StepKeeps(s, e);
    var s' := Step(s, e);
    forall i | 0 <= i < |s'.tasks| ensures Sane(s'.tasks[i]) { assert Sane(s.tasks[i]); }
    match e
    case Wake(i, h) =>
      BackOffWork(s.tasks[i], h);
      WorkUpdate(s.tasks, i, s'.tasks[i]);
    case Fail(i) =>
      FailWork(s.tasks[i]);
      WorkUpdate(s.tasks, i, s'.tasks[i]);
  }

  ghost function ProductiveCount(s: Sys, es: seq<Event>): nat
    requires Legal(s, es)
    decreases |es|
  {
    if es == [] then 0 else One(Productive(s, es[0])) + ProductiveCount(Step(s, es[0]), es[1..])
  }

  lemma {:induction false} CountedByWork(s: Sys, es: seq<Event>)
    requires Inv(s) && AllSane(s) && Legal(s, es)
    ensures ProductiveCount(s, es) <= Work(s)
    decreases |es|
  {
    hide Inv, Productive, Work;
    if es == [] {
      WorkIsThere(s);
    } else {
      StepKeeps(s, es[0]);
      if Productive(s, es[0]) { WorkDecreases(s, es[0]); } else { WorkNeverGrows(s, es[0]); }
      InvSane(Step(s, es[0]));
      CountedByWork(Step(s, es[0]), es[1..]);
    }
  }

  lemma {:induction false} InvSane(s: Sys)
    requires Inv(s)
    ensures AllSane(s)
  {
    forall i | 0 <= i < |s.tasks| ensures Sane(s.tasks[i]) { assert TaskInv(s.tasks[i], s.consumer, s.puts); }
  }

  lemma {:induction false} WorkIsThere(s: Sys)
    requires Inv(s) && AllSane(s)
    ensures Work(s) >= 0
  {
    hide TaskWork, Counted;
    forall i | 0 <= i < |s.tasks| ensures Counted(s.tasks[i]) { assert TaskInv(s.tasks[i], s.consumer, s.puts); }
    WorkLeft(s.tasks);
  }

  /** The i-th of n tasks has a fair share of the blocks: none has two more than another. */
  lemma {:induction false} FairShare(base: Height, ht: Height, n: nat, i: nat)
    requires base + i <= ht && i < n
    ensures NToDL(base + i, ht, n) == (ht - base + 1) / n + One(i < (ht - base + 1) % n)
  {
    var num := ht - base + 1;
    var q, r := num / n, num % n;
    assert num == q * n + r;
    if i < r {
      DivModUnique(num - i + n - 1, n, q + 1, r - i - 1);
    } else {
      DivModUnique(num - i + n - 1, n, q, r - i + n - 1);
    }
  }

  lemma {:induction false} NewTaskWork(base: Height, ht: Height, concurrency: nat, nClients: nat, i: nat)
    requires base <= ht && i < NTasks(base, ht, concurrency)
    ensures var num, n := ht - base + 1, NTasks(base, ht, concurrency);
      TaskWork(StartTask(base, ht, concurrency, nClients, i)) == 4 * (num / n) + 1 + 4 * One(i < num % n)
  {
    FairShare(base, ht, NTasks(base, ht, concurrency), i);
    hide NToDL;
  }

  lemma {:induction false} SharesAddUp(ts: seq<Task>, share: int, extra: nat)
    requires forall k :: 0 <= k < |ts| ==> Sane(ts[k]) && TaskWork(ts[k]) == share + 4 * One(k < extra)
    requires extra <= |ts|
    ensures TasksWork(ts) == |ts| * share + 4 * extra
    decreases |ts|
  {
    hide TaskWork;
    if ts != [] {
      assert forall k :: 0 <= k < |ts[1..]| ==> ts[1..][k] == ts[k + 1];
      SharesAddUp(ts[1..], share, Max(extra - 1, 0));
      assert |ts| * share == |ts[1..]| * share + share;
    }
  }

  lemma {:induction false} SharesTotal(num: nat, n: nat) returns (share: int, extra: nat)
    requires n > 0
    ensures share == 4 * (num / n) + 1 && extra == num % n && extra < n
    ensures n * share + 4 * extra == 4 * num + n
  {
    share, extra := 4 * (num / n) + 1, num % n;
    assert num == n * (num / n) + num % n;
    assert n * (4 * (num / n) + 1) == 4 * (n * (num / n)) + n;
  }

  /** Four steps for each block, and one more for each task. */
  lemma {:induction false} StartWork(base: Height, ht: Height, concurrency: nat, nClients: nat, net: Net, segWit: bool, bad: set<Height>)
    requires base <= ht && concurrency > 0
    ensures var s0 := Start(base, ht, concurrency, nClients, net, segWit, bad);
      AllSane(s0) && Work(s0) == 4 * (ht - base + 1) + NTasks(base, ht, concurrency)
  {
    var s0 := Start(base, ht, concurrency, nClients, net, segWit, bad);
    var n := NTasks(base, ht, concurrency);
    var share, extra := SharesTotal(ht - base + 1, n);
    forall k | 0 <= k < n ensures Sane(s0.tasks[k]) && TaskWork(s0.tasks[k]) == share + 4 * One(k < extra) {
      NewTaskWork(base, ht, concurrency, nClients, k);
    }
    hide TaskWork;
    SharesAddUp(s0.tasks, share, extra);
  }

  /** No livelock: in no run, however long, are there more productive steps than four for each block and one
      for each task. */
  lemma {:induction false} ProductiveStepsBounded(base: Height, ht: Height, concurrency: nat, nClients: nat, net: Net, segWit: bool,
                                                  bad: set<Height>, es: seq<Event>)
    requires base <= ht && concurrency > 0
    requires Legal(Start(base, ht, concurrency, nClients, net, segWit, bad), es)
    ensures ProductiveCount(Start(base, ht, concurrency, nClients, net, segWit, bad), es)
         <= 4 * (ht - base + 1) + NTasks(base, ht, concurrency)
  {
    hide Inv, Legal, Work, Start, NTasks;
    StartInv(base, ht, concurrency, nClients, net, segWit, bad);
    StartWork(base, ht, concurrency, nClients, net, segWit, bad);
    CountedByWork(Start(base, ht, concurrency, nClients, net, segWit, bad), es);
  }

  /** From every reachable state that is still downloading, the download can be completed: to the end of
      the range, or to the first block that storage refuses. */
  lemma {:induction false} CanFinish(s: Sys) returns (es: seq<Event>)
    requires Inv(s) && s.consumer.state != Failure
    ensures Legal(s, es) && Inv(Run(s, es))
    ensures Run(s, es).consumer.state == FinishedDL || Run(s, es).consumer.state == Retry
    decreases Work(s)
  {
    hide Inv, Productive, Work;
    if s.consumer.state == DownloadingBlocks {
      var e := OwnerCanAct(s);
      NotFailing(s, e);
      StepKeeps(s, e);
      WorkDecreases(s, e);
      var rest := CanFinish(Step(s, e));
      es := [e] + rest;
      assert es[1..] == rest;
    } else {
      es := [];
    }
  }

  lemma {:induction false} NotFailing(s: Sys, e: Event)
    requires Inv(s) && s.consumer.state == DownloadingBlocks && Productive(s, e)
    ensures AllSane(s) && Enabled(s, e) && Step(s, e).consumer.state != Failure
  {
    hide Placed, Counted, Throttled, Drain;
    if e.PutBlock? {
      PutPlaces(s, e.h);
      DrainKeeps(s.consumer.(dlResults := s.consumer.dlResults + {e.h}), s.base);
    }
    forall i | 0 <= i < |s.tasks| ensures Sane(s.tasks[i]) { assert TaskInv(s.tasks[i], s.consumer, s.puts); }
  }

  /** A run without failures whose blocks are all acceptable ends only with everything stored. */
  lemma {:induction false} CompletesFromStart(base: Height, ht: Height, concurrency: nat, nClients: nat, net: Net, segWit: bool, bad: set<Height>)
      returns (es: seq<Event>)
    requires base <= ht && concurrency > 0
    requires forall h :: base <= h <= ht ==> h !in bad
    ensures var s0 := Start(base, ht, concurrency, nClients, net, segWit, bad);
      Legal(s0, es) && Run(s0, es).consumer.state == FinishedDL && |Run(s0, es).consumer.stored| == ht - base + 1
  {
    hide Inv, Legal, Run, Start;
    var s0 := Start(base, ht, concurrency, nClients, net, segWit, bad);
    StartInv(base, ht, concurrency, nClients, net, segWit, bad);
    StartState(base, ht, concurrency, nClients, net, segWit, bad);
    es := CanFinish(s0);
    StoredInOrder(base, ht, concurrency, nClients, net, segWit, bad, es);
  }

  lemma {:induction false} StartState(base: Height, ht: Height, concurrency: nat, nClients: nat, net: Net, segWit: bool, bad: set<Height>)
    requires base <= ht
    ensures Start(base, ht, concurrency, nClients, net, segWit, bad).consumer.state == DownloadingBlocks
  {
  }
}
