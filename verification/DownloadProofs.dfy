/** What every interleaving of the block download keeps, and why it always gets to the end. */
module DownloadProofs {
  import opened Division
  import opened Extremes
  import opened DownloadSpec

  // ----- strides

  /** h is one of the heights from + k * stride. */
  ghost predicate OnStride(from: Height, stride: nat, h: Height)
    requires stride > 0
  {
    h >= from && (h - from) % stride == 0
  }

  /** The next height on the stride is one stride away. */
  lemma {:induction false} NextOnStride(from: Height, stride: nat, next: Height, h: Height)
    requires stride > 0 && OnStride(from, stride, next)
    ensures OnStride(from, stride, next + stride)
    ensures next < h < next + stride ==> !OnStride(from, stride, h)
  {
    var q := (next - from) / stride;
    assert next - from == q * stride;
    DivModUnique(next + stride - from, stride, q + 1, 0);
    if next < h < next + stride {
      DivModUnique(h - from, stride, q, h - next);
    }
  }

  /** expectedCt counts the heights of a task: the k-th is within range iff k < expectedCt. */
  lemma {:induction false} ExpectedCounts(from: Height, to: Height, stride: nat, k: nat)
    requires from <= to && stride > 0
    ensures k < NToDL(from, to, stride) <==> Index2Height(from, stride, k) <= to
  {
    var n := to - from + stride;
    var e := n / stride;
    assert n == e * stride + n % stride;
    Ordered(k, e, stride);
    Ordered(e, k, stride);
  }

  lemma {:induction false} IndexStep(from: Height, stride: nat, k: nat)
    requires stride > 0
    ensures Index2Height(from, stride, 0) == from
    ensures Index2Height(from, stride, k + 1) == Index2Height(from, stride, k) + stride
    ensures OnStride(from, stride, Index2Height(from, stride, k))
  {
    assert k * stride >= 0;
    DivModUnique(k * stride, stride, k, 0);
  }

  /** Two tasks never share a height. */
  lemma {:induction false} OneOwner(base: Height, n: nat, i: nat, j: nat, h: Height)
    requires i < n && j < n && base + i <= h && base + j <= h
    requires OnStride(base + i, n, h) && OnStride(base + j, n, h)
    ensures i == j
  {
    var p, q := (h - (base + i)) / n, (h - (base + j)) / n;
    assert h - base == p * n + i && h - base == q * n + j;
    assert (p - q) * n == j - i;
    Multiple(p - q, n);
  }

  /** Every height of the range has a task. */
  function Owner(base: Height, n: nat, h: Height): nat
    requires n > 0 && base <= h
  {
    (h - base) % n
  }

  lemma {:induction false} OwnerOwns(base: Height, n: nat, h: Height)
    requires n > 0 && base <= h
    ensures Owner(base, n, h) < n && base + Owner(base, n, h) <= h && OnStride(base + Owner(base, n, h), n, h)
  {
    var q, r := (h - base) / n, (h - base) % n;
    assert h - base == q * n + r;
    Multiple(q, n);
    assert q >= 0;
    DivModUnique(h - (base + r), n, q, 0);
  }

  // ----- one task's counters

  ghost function Out(t: Task): nat {
    |t.waiting| + |t.inFlight|
  }

  /** The window: after the first block, exactly min(maxQ, blocks missing) requests are under way or
      about to be made; the task is done exactly when the last expected block has arrived. */
  ghost predicate Counted(t: Task)
    requires Sane(t)
  {
    var e := Expected(t);
    && t.maxQ >= 1
    && t.goodCt + Out(t) <= e
    && t.next == Index2Height(t.from, t.stride, t.goodCt + Out(t))
    && (t.maybeDone <==> t.goodCt == e)
    && (t.goodCt == e || t.goodCt == 0 ==> t.qCt == 0)
    && (t.goodCt == 0 ==> t.again + Out(t) == 1)
    && (0 < t.goodCt < e ==> t.again + Out(t) == t.qCt == Min(t.maxQ, e - t.goodCt))
    && (t.goodCt == e ==> Out(t) == 0 && t.status != Errored && t.again == if t.status == Running then 1 else 0)
    && (t.status == Succeeded ==> t.goodCt == e)
  }

  ghost predicate Apart(t: Task) {
    && t.waiting !! t.inFlight
    && (forall h :: h in t.waiting ==> h < t.next)
    && (forall h :: h in t.inFlight ==> h < t.next)
  }

  lemma {:induction false} PastTheEnd(t: Task)
    requires Sane(t) && Counted(t) && t.again > 0
    ensures t.next > t.to <==> t.goodCt == Expected(t)
    ensures t.next <= t.to ==> t.goodCt + Out(t) < Expected(t)
    ensures Index2Height(t.from, t.stride, t.goodCt + Out(t) + 1) == t.next + t.stride
  {
    hide Index2Height, NToDL, Max, Out;
    var k := t.goodCt + Out(t);
    ExpectedCounts(t.from, t.to, t.stride, k);
    ExpectedCounts(t.from, t.to, t.stride, 0);
    IndexStep(t.from, t.stride, k);
  }

  lemma {:induction false} RequestKeeps(t: Task, throttled: bool)
    requires Sane(t) && Counted(t) && Apart(t) && t.status == Running && t.again > 0 && t.next <= t.to
    ensures Counted(Process(t, throttled)) && Process(t, throttled).status != Errored
  {
    PastTheEnd(t);
    RequestCounts(t, throttled);
    hide Index2Height, NToDL, Min, Max, Out, Apart;
  }

  lemma {:induction false} ProcessKeeps(t: Task, throttled: bool)
    requires Sane(t) && Counted(t) && Apart(t) && t.status == Running && t.again > 0
    ensures Counted(Process(t, throttled)) && Apart(Process(t, throttled))
    ensures t.next > t.to <==> t.goodCt == Expected(t)
    ensures Process(t, throttled).status != Errored
  {
    PastTheEnd(t);
    hide Index2Height, NToDL, Min, Max;
    if t.next <= t.to {
      RequestCounts(t, throttled);
      RequestKeeps(t, throttled);
    }
  }

  lemma {:induction false} RequestCounts(t: Task, throttled: bool)
    requires Sane(t) && Apart(t) && t.again > 0 && t.next <= t.to
    ensures Out(Process(t, throttled)) == Out(t) + 1 && Apart(Process(t, throttled))
  {
    hide Index2Height, NToDL, Min, Max, Out;
    assert t.next !in t.waiting && t.next !in t.inFlight;
    OutIs(t);
    OutIs(Process(t, throttled));
    OneLarger(t.waiting, t.next);
    OneLarger(t.inFlight, t.next);
  }

  lemma {:induction false} OutIs(t: Task)
    ensures Out(t) == |t.waiting| + |t.inFlight|
  {
  }

  lemma {:induction false} OneLarger(s: set<Height>, h: Height)
    requires h !in s
    ensures |s + {h}| == |s| + 1 && s - {h} == s
  {
  }

  lemma {:induction false} WakeKeeps(t: Task, h: Height, throttled: bool)
    requires Sane(t) && Counted(t) && Apart(t) && t.status == Running && h in t.waiting
    ensures Counted(DoGet(t, h, throttled)) && Apart(DoGet(t, h, throttled))
  {
    hide Index2Height, NToDL, Min, Max;
    if throttled { assert t.waiting + {h} == t.waiting; }
    assert Out(DoGet(t, h, throttled)) == Out(t);
  }

  lemma {:induction false} ReplyKeeps(t: Task, h: Height)
    requires Sane(t) && Counted(t) && Apart(t) && t.status == Running && h in t.inFlight
    ensures Counted(Reply(t, h)) && Apart(Reply(t, h))
    ensures Reply(t, h).next == t.next
  {
    hide Index2Height, NToDL;
    assert Out(Reply(t, h)) == Out(t) - 1;
  }

  // ----- the consumer

  /** Blocks are stored strictly by height, from base on, none skipped and none twice. */
  ghost predicate InOrder(c: Consumer, base: Height) {
    && (forall k :: 0 <= k < |c.stored| ==> c.stored[k] == base + k)
    && (forall k :: 0 <= k < |c.stored| ==> c.stored[k] !in c.bad)
    && (if c.state == Retry then c.htNext == base + |c.stored| + 1 && c.htNext - 1 in c.bad
        else if c.state == Failure then base + |c.stored| <= c.htNext <= base + |c.stored| + 1
        else c.htNext == base + |c.stored|)
  }

  ghost predicate Queued(c: Consumer, base: Height) {
    && base <= c.htNext <= c.endHeight + 1
    && (forall h :: h in c.dlResults ==> c.htNext <= h <= c.endHeight)
    && (c.state == DownloadingBlocks ==> c.htNext <= c.endHeight)
    && (c.state == FinishedDL ==> c.htNext == c.endHeight + 1)
  }

  ghost function One(b: bool): nat {
    if b then 1 else 0
  }

  /** How often the consumer holds, or has passed, height h. */
  ghost function Taken(c: Consumer, h: Height): nat {
    One(h in c.dlResults) + One(h < c.htNext)
  }

  lemma {:induction false} DrainKeeps(c: Consumer, base: Height)
    requires InOrder(c, base) && Queued(c, base) && c.state == DownloadingBlocks
    ensures var d := Drain(c);
      && InOrder(d, base) && Queued(d, base)
      && d.endHeight == c.endHeight && d.bad == c.bad && c.htNext <= d.htNext && d.state != Failure
      && d.dlResults <= c.dlResults && (d.state == DownloadingBlocks ==> d.htNext !in d.dlResults)
      && forall h :: Taken(d, h) == Taken(c, h)
    decreases |c.dlResults|
  {
    if c.htNext in c.dlResults {
      var c1 := c.(dlResults := c.dlResults - {c.htNext}, htNext := c.htNext + 1);
      assert |c1.dlResults| < |c.dlResults|;
      forall h ensures Taken(c1, h) == Taken(c, h) {}
      if c.htNext !in c.bad {
        var c2 := c1.(stored := c.stored + [c.htNext]);
        if c2.htNext <= c2.endHeight {
          assert InOrder(c2, base);
          DrainKeeps(c2, base);
          var d := Drain(c2);
          forall h ensures Taken(d, h) == Taken(c, h) {
            assert Taken(d, h) == Taken(c2, h) == Taken(c1, h);
          }
        }
      }
    }
  }
}
