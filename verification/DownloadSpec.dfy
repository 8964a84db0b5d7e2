/**
  The parallel block download of src/Controller.cpp as a state machine: N strided download tasks,
  each with a window of requests and subject to back-pressure, feed one consumer that must store
  blocks strictly by height.  One step is one callback on some thread; steps interleave freely.
*/
module DownloadSpec {
  import opened Extremes

  type Height = nat

  // ----- one download task

  datatype Status = Running | Succeeded | Errored

  /** DownloadBlocksTask with its pending callbacks: `again` scheduled calls of process(), heights
      whose do_get waits for the controller to catch up, and heights requested from the node. */
  datatype Task = Task(
    from: Height, to: Height, stride: nat, maxQ: nat,
    next: Height, goodCt: nat, qCt: nat, maybeDone: bool,
    again: nat, waiting: set<Height>, inFlight: set<Height>, status: Status)

  /** The task was built with sane bounds. */
  predicate Sane(t: Task) {
    t.from <= t.to && t.stride > 0
  }

  /** nToDL: how many heights from, from + stride, ... are at most `to`. */
  function NToDL(from: Height, to: Height, stride: nat): nat
    requires from <= to && stride > 0
  {
    (to - from + 1 + stride - 1) / stride
  }

  function Expected(t: Task): nat
    requires Sane(t)
  {
    NToDL(t.from, t.to, t.stride)
  }

  /** index2Height */
  function Index2Height(from: Height, stride: nat, index: nat): Height {
    from + index * stride
  }

  function NewTask(from: Height, to: Height, stride: nat, nClients: nat): Task {
    Task(from, to, stride, nClients + 1, from, 0, 0, false, 1, {}, {}, Running)
  }

  /** do_get: ask the node for the block, unless the controller says to back off. */
  function DoGet(t: Task, h: Height, throttled: bool): Task {
    if throttled then t.(waiting := t.waiting + {h})
    else t.(waiting := t.waiting - {h}, inFlight := t.inFlight + {h})
  }

  /** process(): request the next height, or finish. */
  function Process(t: Task, throttled: bool): Task
    requires Sane(t) && t.again > 0
  {
    var t1 := t.(again := t.again - 1);
    if t.next > t.to then
      if t.maybeDone then t1.(status := if t.goodCt >= Expected(t) then Succeeded else Errored) else t1
    else DoGet(t1, t.next, throttled).(next := t.next + t.stride)
  }

  /** The block at height h arrived: count it and top up the window of requests. */
  function Reply(t: Task, h: Height): Task
    requires Sane(t)
  {
    var good := t.goodCt + 1;
    var q := Max(t.qCt - 1, 0);
    var t1 := t.(inFlight := t.inFlight - {h}, goodCt := good);
    if good >= Expected(t) then t1.(qCt := q, maybeDone := true, again := t.again + 1)
    else
      var q' := Max(q, Min(t.maxQ, Expected(t) - good));
      t1.(qCt := q', again := t.again + (q' - q))
  }

  // ----- the consumer

  datatype State = DownloadingBlocks | FinishedDL | Retry | Failure

  /** The controller's state machine: blocks waiting for their turn, the height whose turn it is, and
      the heights handed to storage so far, in order.  Storage refuses the heights in `bad`. */
  datatype Consumer = Consumer(state: State, dlResults: set<Height>, htNext: Height, endHeight: Height,
                               stored: seq<Height>, bad: set<Height>)

  /** process_DownloadingBlocks: hand over blocks for as long as the next one is there. */
  function Drain(c: Consumer): Consumer
    decreases |c.dlResults|
  {
    if c.htNext !in c.dlResults then c
    else
      var c1 := c.(dlResults := c.dlResults - {c.htNext}, htNext := c.htNext + 1);
      if c.htNext in c.bad then c1.(state := Retry)
      else
        var c2 := c1.(stored := c.stored + [c.htNext]);
        if c2.htNext > c.endHeight then c2.(state := FinishedDL) else Drain(c2)
  }

  /** on_putCommon: blocks are taken only while downloading. */
  function Put(c: Consumer, h: Height): Consumer {
    if c.state != DownloadingBlocks then c else Drain(c.(dlResults := c.dlResults + {h}))
  }

  // ----- back-pressure

  datatype Net = MainNet | ScaleNet | TestNet4 | ChipNet | OtherNet

  /** How far ahead of storage the block at height bnum may be requested. */
  function MaxBackLog(net: Net, segWit: bool, bnum: Height): int {
    match net
    case MainNet => if bnum > 150_000 then 250 else if bnum > 550_000 && !segWit then 100 else 1000
    case ScaleNet => if bnum > 10_000 then 10 else 1000
    case TestNet4 | ChipNet => 1000
    case OtherNet => if bnum > 1_300_000 then (if segWit then 250 else 100) else 1000
  }

  /** downloadTaskRecommendedThrottleTimeMsec: 0 means go ahead, otherwise wait that long. */
  function ThrottleMsec(net: Net, segWit: bool, bnum: Height, htNext: Height): int {
    var maxBackLog := MaxBackLog(net, segWit, bnum);
    var diff := bnum - htNext;
    if diff > maxBackLog then Min(10 + 5 * (diff - maxBackLog - 1), 50) else 0
  }

  // ----- the system

  datatype Sys = Sys(base: Height, ht: Height, net: Net, segWit: bool, nClients: nat,
                     tasks: seq<Task>, consumer: Consumer, puts: set<Height>)

  datatype Event =
    | Again(i: nat)                 // a scheduled process() of task i runs
    | Wake(i: nat, h: Height)       // the back-off timer of task i for height h fires
    | Arrive(i: nat, h: Height)     // the node answers task i's request for height h
    | PutBlock(h: Height)           // the controller receives the block of height h
    | Fail(i: nat)                  // a request of task i fails

  function Throttled(s: Sys, h: Height): bool {
    ThrottleMsec(s.net, s.segWit, h, s.consumer.htNext) > 0
  }

  predicate Live(s: Sys, i: nat) {
    i < |s.tasks| && s.tasks[i].status == Running
  }

  predicate Enabled(s: Sys, e: Event) {
    match e
    case Again(i) => Live(s, i) && s.tasks[i].again > 0
    case Wake(i, h) => Live(s, i) && h in s.tasks[i].waiting
    case Arrive(i, h) => Live(s, i) && h in s.tasks[i].inFlight
    case PutBlock(h) => h in s.puts
    case Fail(i) => Live(s, i) && s.tasks[i].inFlight != {}
  }

  predicate AllSane(s: Sys) {
    forall i :: 0 <= i < |s.tasks| ==> Sane(s.tasks[i])
  }

  function Step(s: Sys, e: Event): Sys
    requires AllSane(s) && Enabled(s, e)
  {
    match e
    case Again(i) =>
      s.(tasks := s.tasks[i := Process(s.tasks[i], Throttled(s, s.tasks[i].next))])
    case Wake(i, h) =>
      s.(tasks := s.tasks[i := DoGet(s.tasks[i], h, Throttled(s, h))])
    case Arrive(i, h) =>
      s.(tasks := s.tasks[i := Reply(s.tasks[i], h)], puts := s.puts + {h})
    case PutBlock(h) =>
      s.(consumer := Put(s.consumer, h), puts := s.puts - {h})
    case Fail(i) =>
      s.(tasks := s.tasks[i := s.tasks[i].(status := Errored)], consumer := s.consumer.(state := Failure))
  }

  function NTasks(base: Height, ht: Height, concurrency: nat): nat
    requires base <= ht
  {
    Min(ht - base + 1, concurrency)
  }

  function StartTask(base: Height, ht: Height, concurrency: nat, nClients: nat, i: nat): Task
    requires base <= ht
  {
    NewTask(base + i, ht, NTasks(base, ht, concurrency), nClients)
  }

  /** The GetBlocks state: min(num, concurrency) tasks, the i-th starting i blocks in. */
  function Start(base: Height, ht: Height, concurrency: nat, nClients: nat, net: Net, segWit: bool, bad: set<Height>): Sys
    requires base <= ht
  {
    Sys(base, ht, net, segWit, nClients,
        seq(NTasks(base, ht, concurrency), i requires 0 <= i => StartTask(base, ht, concurrency, nClients, i)),
        Consumer(DownloadingBlocks, {}, base, ht, [], bad), {})
  }
}
