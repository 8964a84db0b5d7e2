/** The block download over whole runs: safety under every interleaving, bounded backlog, progress. */
module DownloadRuns {
  import opened Extremes
  import opened DownloadSpec
  import opened DownloadProofs

  // ----- the invariant

  /** Height h among a task's requests, the blocks on their way, and the consumer. */
  ghost function Places(t: Task, c: Consumer, puts: set<Height>, h: Height): nat {
    One(h in t.waiting) + One(h in t.inFlight) + One(h in puts) + Taken(c, h)
  }

  predicate Active(c: Consumer) {
    c.state == DownloadingBlocks || c.state == FinishedDL
  }

  ghost predicate Mine(t: Task, h: Height)
    requires t.stride > 0
  {
    OnStride(t.from, t.stride, h) && h <= t.to
  }

  /** Each height the task has asked for is in exactly one place; the others are nowhere yet. */
  ghost predicate Placed(t: Task, c: Consumer, puts: set<Height>)
    requires t.stride > 0
  {
    && (forall h :: h in t.waiting ==> Mine(t, h))
    && (forall h :: h in t.inFlight ==> Mine(t, h))
    && (forall h: Height :: Mine(t, h) ==> Places(t, c, puts, h) <= One(h < t.next))
    && (Active(c) ==> forall h: Height :: Mine(t, h) ==> Places(t, c, puts, h) == One(h < t.next))
  }

  /** Nothing under way is more than 1000 blocks ahead of storage. */
  ghost predicate Near(c: Consumer, hs: set<Height>) {
    forall h :: h in hs ==> h <= c.htNext + 1000
  }

  ghost predicate TaskInv(t: Task, c: Consumer, puts: set<Height>) {
    && Sane(t) && Counted(t) && Apart(t) && Placed(t, c, puts) && Near(c, t.inFlight)
    && (t.status == Errored ==> c.state == Failure)
  }

  ghost predicate Shape(s: Sys) {
    && |s.tasks| >= 1 && s.base + |s.tasks| - 1 <= s.ht
    && s.consumer.endHeight == s.ht
    && (forall i :: 0 <= i < |s.tasks| ==>
          s.tasks[i].from == s.base + i && s.tasks[i].to == s.ht && s.tasks[i].stride == |s.tasks|
          && s.tasks[i].maxQ == s.nClients + 1)
  }

  ghost predicate ConsumerInv(s: Sys) {
    && InOrder(s.consumer, s.base) && Queued(s.consumer, s.base)
    && (s.consumer.state == DownloadingBlocks ==> s.consumer.htNext !in s.consumer.dlResults)
    && Near(s.consumer, s.consumer.dlResults) && Near(s.consumer, s.puts)
    && (forall h :: h in s.puts ==> s.base <= h <= s.ht)
  }

  ghost predicate TasksInv(s: Sys) {
    forall i :: 0 <= i < |s.tasks| ==> TaskInv(s.tasks[i], s.consumer, s.puts)
  }

  ghost predicate Inv(s: Sys) {
    Shape(s) && ConsumerInv(s) && TasksInv(s)
  }

  // ----- back-pressure

  lemma {:induction false} ThrottleRange(s: Sys, h: Height)
    ensures !Throttled(s, h) ==> h <= s.consumer.htNext + 1000
    ensures h <= s.consumer.htNext + 10 ==> !Throttled(s, h)
  {
  }

  /** A request for height h may go out this far ahead of the block that storage waits for.  (On the main
      net the limit of 100 for blocks above 550000 is never used.) */
  ghost predicate WithinLimit(net: Net, segWit: bool, h: Height, ahead: int) {
    && ahead <= 1000
    && (net == MainNet && h > 150_000 ==> ahead <= 250)
    && (net == ScaleNet && h > 10_000 ==> ahead <= 10)
    && (net == OtherNet && h > 1_300_000 ==> ahead <= if segWit then 250 else 100)
  }

  /** Requests wait exactly when they are beyond the limit of their net and height: 10 ms at one block
      beyond, 5 ms more for each further block, and never more than 50 ms. */
  lemma {:induction false} NetLimits(net: Net, segWit: bool, h: Height, htNext: Height, beyond: nat)
    ensures ThrottleMsec(net, segWit, h, htNext) > 0 <==> !WithinLimit(net, segWit, h, h - htNext)
    ensures beyond > 0 && WithinLimit(net, segWit, h, h - htNext - beyond) && !WithinLimit(net, segWit, h, h - htNext - beyond + 1) ==>
              ThrottleMsec(net, segWit, h, htNext) == if beyond <= 9 then 5 + 5 * beyond else 50
  {
  }

  // ----- each event keeps the invariant

  lemma {:induction false} StartInv(base: Height, ht: Height, concurrency: nat, nClients: nat, net: Net, segWit: bool, bad: set<Height>)
    requires base <= ht && concurrency > 0
    ensures Inv(Start(base, ht, concurrency, nClients, net, segWit, bad))
    ensures var n := |Start(base, ht, concurrency, nClients, net, segWit, bad).tasks|;
      n <= concurrency && n <= ht - base + 1 && (n == concurrency || n == ht - base + 1)
  {
    hide NToDL, Index2Height;
    var s := Start(base, ht, concurrency, nClients, net, segWit, bad);
    forall i | 0 <= i < |s.tasks| ensures TaskInv(s.tasks[i], s.consumer, s.puts) {
      var t := s.tasks[i];
      assert t == StartTask(base, ht, concurrency, nClients, i);
      ExpectedCounts(t.from, t.to, t.stride, 0);
      IndexStep(t.from, t.stride, 0);
      forall h: Height | Mine(t, h) ensures Places(t, s.consumer, s.puts, h) == One(h < t.next) {}
    }
  }

  /** A step that moves heights between places, and counts the newly asked for ones. */
  lemma {:induction false} PlacedMove(t: Task, c: Consumer, puts: set<Height>, t': Task, c': Consumer, puts': set<Height>)
    requires t.stride > 0 && Placed(t, c, puts)
    requires t'.from == t.from && t'.to == t.to && t'.stride == t.stride
    requires forall h :: h in t'.waiting || h in t'.inFlight ==> Mine(t, h)
    requires forall h: Height :: Mine(t, h) ==>
               Places(t', c', puts', h) - Places(t, c, puts, h) == One(h < t'.next) - One(h < t.next)
    requires Active(c') ==> Active(c)
    ensures Placed(t', c', puts')
  {
    hide OnStride, Places, One;
    forall h: Height ensures Mine(t', h) == Mine(t, h) {}
  }

  /** Asking for the next height moves just that height from nowhere to the task. */
  lemma {:induction false} ProcessPlace(t: Task, c: Consumer, puts: set<Height>, throttled: bool, h: Height)
    requires Sane(t) && Apart(t) && t.again > 0 && t.next <= t.to && Mine(t, t.next) && Mine(t, h)
    requires Places(t, c, puts, t.next) == 0
    ensures var t' := Process(t, throttled);
      Places(t', c, puts, h) - Places(t, c, puts, h) == One(h < t'.next) - One(h < t.next)
  {
    hide NToDL, Taken;
    NextOnStride(t.from, t.stride, t.next, h);
  }

  lemma {:induction false} NextIsMine(t: Task)
    requires Sane(t) && Counted(t)
    ensures OnStride(t.from, t.stride, t.next)
  {
    hide NToDL, Index2Height, OnStride;
    IndexStep(t.from, t.stride, t.goodCt + Out(t));
  }

  lemma {:induction false} ProcessPlaces(t: Task, c: Consumer, puts: set<Height>, throttled: bool)
    requires Sane(t) && Counted(t) && Apart(t) && Placed(t, c, puts) && t.again > 0 && t.status == Running
    ensures Placed(Process(t, throttled), c, puts)
  {
    NextIsMine(t);
    hide NToDL, OnStride, Taken, Counted;
    var t' := Process(t, throttled);
    forall h: Height | Mine(t, h)
      ensures Places(t', c, puts, h) - Places(t, c, puts, h) == One(h < t'.next) - One(h < t.next)
    {
      if t.next <= t.to { ProcessPlace(t, c, puts, throttled, h); }
    }
    PlacedMove(t, c, puts, t', c, puts);
  }

  lemma {:induction false} AgainKeeps(s: Sys, i: nat)
    requires Inv(s) && Enabled(s, Again(i))
    ensures Inv(Step(s, Again(i)))
  {
    hide NToDL, Index2Height, Min, Max, Placed, Counted, Throttled;
    var t := s.tasks[i];
    var b := Throttled(s, t.next);
    ProcessKeeps(t, b);
    ProcessPlaces(t, s.consumer, s.puts, b);
    ThrottleRange(s, t.next);
    assert TaskInv(Process(t, b), s.consumer, s.puts);
  }

  lemma {:induction false} WakeKeepsInv(s: Sys, i: nat, h: Height)
    requires Inv(s) && Enabled(s, Wake(i, h))
    ensures Inv(Step(s, Wake(i, h)))
  {
    hide NToDL, Index2Height, Min, Max, Counted, Throttled, OnStride, Taken;
    var t, b := s.tasks[i], Throttled(s, h);
    WakeKeeps(t, h, b);
    ThrottleRange(s, h);
    var t' := DoGet(t, h, b);
    forall g: Height | Mine(t, g)
      ensures Mine(t', g) && Places(t', s.consumer, s.puts, g) == Places(t, s.consumer, s.puts, g) {}
    assert TaskInv(t', s.consumer, s.puts);
  }

  lemma {:induction false} PlacedMine(t: Task, c: Consumer, puts: set<Height>, h: Height)
    requires t.stride > 0 && Placed(t, c, puts) && (h in t.waiting || h in t.inFlight)
    ensures Mine(t, h) && h >= t.from
  {
  }

  /** A change that leaves every height of the task where it was. */
  lemma {:induction false} PlacedAlike(t: Task, c: Consumer, puts: set<Height>, c': Consumer, puts': set<Height>)
    requires t.stride > 0 && Placed(t, c, puts)
    requires forall h: Height :: Mine(t, h) ==> Places(t, c', puts', h) == Places(t, c, puts, h)
    requires Active(c') ==> Active(c)
    ensures Placed(t, c', puts')
  {
    hide OnStride, Taken;
  }

  lemma {:induction false} ReplyPlaces(t: Task, c: Consumer, puts: set<Height>, h: Height)
    requires Sane(t) && Placed(t, c, puts) && Apart(t) && h in t.inFlight
    ensures Placed(Reply(t, h), c, puts + {h})
  {
    hide NToDL, Min, Max, OnStride, Taken;
    var t' := Reply(t, h);
    assert Mine(t, h) && Places(t, c, puts, h) <= 1;
    forall g: Height | Mine(t, g)
      ensures Mine(t', g) && Places(t', c, puts + {h}, g) == Places(t, c, puts, g) {}
  }

  /** A block another task asked for changes nothing for this one. */
  lemma {:induction false} ArriveElsewhere(s: Sys, i: nat, h: Height, j: nat)
    requires Inv(s) && i < |s.tasks| && h in s.tasks[i].inFlight && j < |s.tasks| && j != i
    ensures TaskInv(s.tasks[j], s.consumer, s.puts + {h})
  {
    hide NToDL, Index2Height, Min, Max, Counted, Taken;
    var t, u := s.tasks[i], s.tasks[j];
    assert TaskInv(t, s.consumer, s.puts) && TaskInv(u, s.consumer, s.puts);
    assert Mine(t, h);
    forall g: Height | Mine(u, g) ensures Places(u, s.consumer, s.puts + {h}, g) == Places(u, s.consumer, s.puts, g) {
      if g == h { OneOwner(s.base, |s.tasks|, i, j, h); }
    }
    PlacedAlike(u, s.consumer, s.puts, s.consumer, s.puts + {h});
  }

  lemma {:induction false} ArriveKeeps(s: Sys, i: nat, h: Height)
    requires Inv(s) && Enabled(s, Arrive(i, h))
    ensures Inv(Step(s, Arrive(i, h)))
  {
    hide NToDL, Index2Height, Min, Max, Counted, Placed;
    var s' := Step(s, Arrive(i, h));
    var t := s.tasks[i];
    assert TaskInv(t, s.consumer, s.puts);
    ReplyKeeps(t, h);
    ReplyPlaces(t, s.consumer, s.puts, h);
    assert TaskInv(s'.tasks[i], s'.consumer, s'.puts);
    forall j | 0 <= j < |s.tasks| && j != i ensures TaskInv(s'.tasks[j], s'.consumer, s'.puts) {
      ArriveElsewhere(s, i, h, j);
    }
    assert Mine(t, h) by { PlacedMine(t, s.consumer, s.puts, h); }
  }

  /** Receiving a block leaves every height where it was, while downloading. */
  lemma {:induction false} PutPlaces(s: Sys, h: Height)
    requires Inv(s) && h in s.puts && s.consumer.state == DownloadingBlocks
    ensures s.consumer.htNext <= h <= s.ht && h !in s.consumer.dlResults
  {
    hide NToDL, Index2Height, Min, Max, OnStride, Counted;
    var n := |s.tasks|;
    OwnerOwns(s.base, n, h);
    var t := s.tasks[Owner(s.base, n, h)];
    assert TaskInv(t, s.consumer, s.puts);
    assert Mine(t, h) && Places(t, s.consumer, s.puts, h) <= 1;
  }

  lemma {:induction false} PutTask(t: Task, c: Consumer, puts: set<Height>, h: Height, d: Consumer)
    requires TaskInv(t, c, puts) && h in puts && h !in c.dlResults && h >= c.htNext
    requires c.state == DownloadingBlocks && d.state != Failure && c.htNext <= d.htNext
    requires forall g :: Taken(d, g) == Taken(c.(dlResults := c.dlResults + {h}), g)
    ensures TaskInv(t, d, puts - {h})
  {
    hide NToDL, Index2Height, Min, Max, OnStride, Counted;
    forall g: Height | Mine(t, g) ensures Places(t, d, puts - {h}, g) == Places(t, c, puts, g) {
      assert Taken(d, g) == Taken(c.(dlResults := c.dlResults + {h}), g);
    }
    PlacedAlike(t, c, puts, d, puts - {h});
  }

  /** A block that comes after the download was given up is dropped. */
  lemma {:induction false} DropTask(t: Task, c: Consumer, puts: set<Height>, h: Height)
    requires TaskInv(t, c, puts) && !Active(c)
    ensures TaskInv(t, c, puts - {h})
  {
    hide NToDL, Index2Height, Min, Max, OnStride, Counted, Taken;
    forall g: Height | Mine(t, g) ensures Places(t, c, puts - {h}, g) <= Places(t, c, puts, g) {}
  }

  /** After the last height was stored no block can still be on its way. */
  lemma {:induction false} FinishedQuiet(s: Sys)
    requires Inv(s) && s.consumer.state == FinishedDL
    ensures s.puts == {} && s.consumer.dlResults == {}
    ensures forall i :: 0 <= i < |s.tasks| ==> s.tasks[i].waiting == {} && s.tasks[i].inFlight == {}
  {
    hide NToDL, Index2Height, Min, Max, OnStride, Counted;
    forall h: Height | s.base <= h <= s.ht ensures h !in s.puts && h !in s.consumer.dlResults {
      var n := |s.tasks|;
      OwnerOwns(s.base, n, h);
      var t := s.tasks[Owner(s.base, n, h)];
      assert TaskInv(t, s.consumer, s.puts);
      assert Mine(t, h) && Places(t, s.consumer, s.puts, h) <= 1;
    }
    forall i | 0 <= i < |s.tasks| ensures s.tasks[i].waiting == {} && s.tasks[i].inFlight == {} {
      var t := s.tasks[i];
      assert TaskInv(t, s.consumer, s.puts);
      forall h: Height | Mine(t, h) ensures h !in t.waiting && h !in t.inFlight {
        assert Places(t, s.consumer, s.puts, h) <= 1;
      }
    }
  }

  lemma {:induction false} PutKeeps(s: Sys, h: Height)
    requires Inv(s) && Enabled(s, PutBlock(h))
    ensures Inv(Step(s, PutBlock(h)))
  {
    hide NToDL, Index2Height, Min, Max, OnStride, Counted, Drain, Taken, TaskInv;
    var s' := Step(s, PutBlock(h));
    var c := s.consumer;
    if c.state == DownloadingBlocks {
      PutPlaces(s, h);
      var c1 := c.(dlResults := c.dlResults + {h});
      assert InOrder(c1, s.base) && Queued(c1, s.base);
      DrainKeeps(c1, s.base);
      forall i | 0 <= i < |s.tasks| ensures TaskInv(s'.tasks[i], s'.consumer, s'.puts) {
        PutTask(s.tasks[i], c, s.puts, h, s'.consumer);
      }
    } else if c.state == FinishedDL {
      FinishedQuiet(s);
      assert false;
    } else {
      forall i | 0 <= i < |s.tasks| ensures TaskInv(s'.tasks[i], s'.consumer, s'.puts) {
        DropTask(s.tasks[i], c, s.puts, h);
      }
    }
  }

  lemma {:induction false} FailPlaces(t: Task, c: Consumer, puts: set<Height>)
    requires Sane(t) && Placed(t, c, puts)
    ensures Placed(t, c.(state := Failure), puts)
    ensures Placed(t.(status := Errored), c.(state := Failure), puts)
  {
    hide OnStride;
    var c', t' := c.(state := Failure), t.(status := Errored);
    forall g: Height
      ensures Places(t, c', puts, g) == Places(t, c, puts, g) == Places(t', c', puts, g) {}
    PlacedMove(t, c, puts, t, c', puts);
    PlacedMove(t, c, puts, t', c', puts);
  }

  lemma {:induction false} FailKeeps(s: Sys, i: nat)
    requires Inv(s) && Enabled(s, Fail(i))
    ensures Inv(Step(s, Fail(i)))
  {
    hide NToDL, Index2Height, Min, Max, OnStride, Placed;
    var s' := Step(s, Fail(i));
    forall j | 0 <= j < |s.tasks| ensures TaskInv(s'.tasks[j], s'.consumer, s'.puts) {
      assert TaskInv(s.tasks[j], s.consumer, s.puts);
      FailPlaces(s.tasks[j], s.consumer, s.puts);
    }
  }

  lemma {:induction false} StepKeeps(s: Sys, e: Event)
    requires Inv(s) && Enabled(s, e)
    ensures Inv(Step(s, e))
  {
    hide Inv, Step;
    match e
    case Again(i) => AgainKeeps(s, i);
    case Wake(i, h) => WakeKeepsInv(s, i, h);
    case Arrive(i, h) => ArriveKeeps(s, i, h);
    case PutBlock(h) => PutKeeps(s, h);
    case Fail(i) => FailKeeps(s, i);
  }
}
