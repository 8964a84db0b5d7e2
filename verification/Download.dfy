/** The objects of the block download, each method proved to make the step of DownloadSpec. */
module Download {
  import opened Extremes
  import opened DownloadSpec

  /** StateMachine, as far as the download uses it. */
  class StateMachine {
    const net: Net
    const segWit: bool
    const endHeight: Height
    ghost const bad: set<Height>
    var state: State
    var dlResults: set<Height>
    var dlResultsHtNext: Height
    var stored: seq<Height>

    constructor (startHeight: Height, endHeight: Height, net: Net, segWit: bool, ghost bad: set<Height>)
      ensures View() == Consumer(DownloadingBlocks, {}, startHeight, endHeight, [], bad)
      ensures this.net == net && this.segWit == segWit
    {
      this.net, this.segWit, this.endHeight, this.bad := net, segWit, endHeight, bad;
      state, dlResults, dlResultsHtNext, stored := DownloadingBlocks, {}, startHeight, [];
    }

    ghost function View(): Consumer
      reads this
    {
      Consumer(state, dlResults, dlResultsHtNext, endHeight, stored, bad)
    }

    function RecommendedThrottleTimeMsec(bnum: Height): int
      reads this
    {
      ThrottleMsec(net, segWit, bnum, dlResultsHtNext)
    }

    /** process_VerifyAndAddBlock, where storage's verdict on the block is an input. */
    method VerifyAndAddBlock(h: Height, refused: bool) returns (ok: bool)
      requires refused == (h in bad)
      modifies this`state, this`stored
      ensures ok == !refused
      ensures stored == if ok then old(stored) + [h] else old(stored)
      ensures state == if ok then old(state) else Retry
    {
      if refused {
        state := Retry;
        return false;
      }
      stored := stored + [h];
      return true;
    }

    /** process_DownloadingBlocks */
    method ProcessDownloadingBlocks(verdict: Height -> bool)
      requires forall h :: verdict(h) == (h in bad)
      modifies this
      ensures View() == Drain(old(View()))
    {
      while dlResultsHtNext in dlResults
        invariant Drain(View()) == Drain(old(View()))
        decreases |dlResults|
      {
        ghost var before := View();
        var h := dlResultsHtNext;
        dlResultsHtNext := dlResultsHtNext + 1;
        dlResults := dlResults - {h};
        assert |before.dlResults| == |dlResults| + 1;
        var ok := VerifyAndAddBlock(h, verdict(h));
        if !ok { return; }
        if dlResultsHtNext > endHeight {
          state := FinishedDL;
          return;
        }
        assert Drain(before) == Drain(View());
      }
    }

    /** on_putCommon */
    method OnPut(h: Height, verdict: Height -> bool)
      requires forall g :: verdict(g) == (g in bad)
      modifies this
      ensures View() == Put(old(View()), h)
    {
      if state == Failure { return; }
      if state != DownloadingBlocks { return; }
      dlResults := dlResults + {h};
      ProcessDownloadingBlocks(verdict);
    }
  }

  class DownloadBlocksTask {
    const from: Height
    const to: Height
    const stride: nat
    const expectedCt: nat
    const maxQ: nat
    const ctl: StateMachine
    var next: Height
    var goodCt: nat
    var qCt: nat
    var maybeDone: bool
    var again: nat
    var waiting: set<Height>
    var inFlight: set<Height>
    var status: Status

    constructor (from: Height, to: Height, stride: nat, nClients: nat, ctl: StateMachine)
      requires from <= to && stride > 0
      ensures Valid() && this.ctl == ctl
      ensures View() == NewTask(from, to, stride, nClients)
    {
      this.from, this.to, this.stride, this.ctl := from, to, stride, ctl;
      expectedCt, maxQ := NToDL(from, to, stride), nClients + 1;
      next, goodCt, qCt, maybeDone := from, 0, 0, false;
      again, waiting, inFlight, status := 1, {}, {}, Running;
    }

    ghost predicate Valid() {
      from <= to && stride > 0 && expectedCt == NToDL(from, to, stride)
    }

    ghost function View(): Task
      reads this
    {
      Task(from, to, stride, maxQ, next, goodCt, qCt, maybeDone, again, waiting, inFlight, status)
    }

    /** AGAIN(): schedule one more call of Process. */
    method ScheduleAgain()
      modifies this`again
      ensures again == old(again) + 1
    {
      again := again + 1;
    }

    /** do_get */
    method Get(bnum: Height)
      modifies this`waiting, this`inFlight
      ensures View() == DoGet(old(View()), bnum, ctl.RecommendedThrottleTimeMsec(bnum) > 0)
    {
      var msec := ctl.RecommendedThrottleTimeMsec(bnum);
      if msec > 0 {
        waiting := waiting + {bnum};
        return;
      }
      waiting := waiting - {bnum};
      inFlight := inFlight + {bnum};
    }

    /** process(): the call that the event loop takes off its queue. */
    method Work()
      requires Valid() && again > 0
      modifies this
      ensures View() == Process(old(View()), ctl.RecommendedThrottleTimeMsec(old(next)) > 0)
    {
      again := again - 1;
      if next > to {
        if maybeDone {
          if goodCt >= expectedCt { status := Succeeded; } else { status := Errored; }
        }
        return;
      }
      Get(next);
      next := next + stride;
    }

    /** The reply to the getblock request for height bnum, when the block is good. */
    method OnBlock(bnum: Height)
      requires Valid() && bnum in inFlight
      modifies this
      ensures View() == Reply(old(View()), bnum)
    {
      inFlight := inFlight - {bnum};
      goodCt := goodCt + 1;
      qCt := Max(qCt - 1, 0);
      if goodCt >= expectedCt {
        maybeDone := true;
        ScheduleAgain();
        return;
      }
      ghost var q, a := qCt, again;
      while goodCt + qCt < expectedCt && qCt < maxQ
        invariant q <= qCt && again == a + (qCt - q)
        invariant qCt == q || qCt <= Min(maxQ, expectedCt - goodCt)
        invariant View() == old(View()).(inFlight := old(inFlight) - {bnum}, goodCt := old(goodCt) + 1, qCt := qCt, again := again)
        decreases maxQ - qCt
      {
        ScheduleAgain();
        qCt := qCt + 1;
      }
    }
  }

  /** The controller with its tasks: one call of Handle is one callback. */
  class Controller {
    const base: Height
    const ht: Height
    const nClients: nat
    const sm: StateMachine
    var tasks: seq<DownloadBlocksTask>
    var puts: set<Height>

    /** The GetBlocks state. */
    constructor (base: Height, ht: Height, concurrency: nat, nClients: nat, net: Net, segWit: bool, ghost bad: set<Height>)
      requires base <= ht && concurrency > 0
      ensures Valid()
      ensures View() == Start(base, ht, concurrency, nClients, net, segWit, bad)
    {
      this.base, this.ht, this.nClients := base, ht, nClients;
      sm := new StateMachine(base, ht, net, segWit, bad);
      tasks, puts := [], {};
      new;
      var nTasks := NTasks(base, ht, concurrency);
      var i := 0;
      while i < nTasks
        invariant 0 <= i <= nTasks && |tasks| == i && Valid()
        invariant forall j :: 0 <= j < i ==> fresh(tasks[j]) && tasks[j].View() == StartTask(base, ht, concurrency, nClients, j)
        invariant sm.View() == Consumer(DownloadingBlocks, {}, base, ht, [], bad) && sm.net == net && sm.segWit == segWit
        invariant puts == {} && this.base == base && this.ht == ht && this.nClients == nClients
      {
        var t := new DownloadBlocksTask(base + i, ht, nTasks, nClients, sm);
        tasks := tasks + [t];
        i := i + 1;
      }
      assert View().tasks == Start(base, ht, concurrency, nClients, net, segWit, bad).tasks;
    }

    ghost predicate Valid()
      reads this
    {
      && (forall i :: 0 <= i < |tasks| ==> tasks[i].Valid() && tasks[i].ctl == sm)
      && (forall i, j :: 0 <= i < j < |tasks| ==> tasks[i] != tasks[j])
    }

    ghost function View(): Sys
      reads this, sm, tasks
    {
      Sys(base, ht, sm.net, sm.segWit, nClients, TaskViews(tasks), sm.View(), puts)
    }

    /** Run one pending callback. */
    method Handle(e: Event, verdict: Height -> bool)
      requires Valid() && AllSane(View()) && Enabled(View(), e)
      requires forall h :: verdict(h) == (h in sm.bad)
      modifies this`puts, sm, tasks
      ensures Valid() && View() == Step(old(View()), e)
    {
      hide Drain, Put, Process, Reply, DoGet;
      ghost var before := View();
      match e
      case Again(i) => tasks[i].Work();
      case Wake(i, h) => tasks[i].Get(h);
      case Arrive(i, h) =>
        tasks[i].OnBlock(h);
        puts := puts + {h};
      case PutBlock(h) =>
        puts := puts - {h};
        sm.OnPut(h, verdict);
      case Fail(i) =>
        tasks[i].status := Errored;
        sm.state := Failure;
      assert View().tasks == Step(before, e).tasks;
    }
  }

  ghost function TaskViews(tasks: seq<DownloadBlocksTask>): seq<Task>
    reads tasks
  {
    seq(|tasks|, i requires 0 <= i < |tasks| reads tasks => tasks[i].View())
  }
}
