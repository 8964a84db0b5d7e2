/** The compact fee histogram of src/Mempool.cpp (calcCompactFeeHistogram). */
module FeeHistogram {
  import opened Extremes
  import opened Ids
  import opened Sums
  import opened Wrappers

  /** What the histogram needs of a pool transaction. */
  datatype PoolTx = PoolTx(fee: int, vsizeBytes: nat)

  datatype Bin = Bin(feeRate: nat, size: nat)

  /** unsigned arithmetic */
  function Wrap(n: int): nat {
    n % 0x1_0000_0000
  }

  /** Satoshis per virtual byte, as unsigned division of the fee cut down to 32 bits. */
  function FeeRate(tx: PoolTx): nat {
    Wrap(tx.fee) / if tx.vsizeBytes > 1 then tx.vsizeBytes else 1
  }

  /** The rate is the fee per virtual byte exactly when the fee fits in 32 bits (about 43 coins). */
  lemma {:induction false} RateIsFeePerByte(tx: PoolTx)
    requires 0 <= tx.fee && tx.vsizeBytes < 0x1_0000_0000
    ensures var v := if tx.vsizeBytes > 1 then tx.vsizeBytes else 1;
      FeeRate(tx) == tx.fee / v <==> tx.fee < 0x1_0000_0000
  {
    var v := if tx.vsizeBytes > 1 then tx.vsizeBytes else 1;
    var low := Wrap(tx.fee);
    if tx.fee >= 0x1_0000_0000 {
      assert tx.fee - low >= v;
      QuotientGrows(low, tx.fee, v);
    }
  }

  lemma {:induction false} QuotientGrows(a: nat, b: nat, v: nat)
    requires v > 0 && a + v <= b
    ensures a / v < b / v
  {
    var p, q := a / v, b / v;
    assert a == p * v + a % v && b == q * v + b % v;
    ProductMonotone(q, p, v);
  }

  lemma {:induction false} ProductMonotone(p: int, q: int, v: nat)
    ensures p <= q ==> p * v <= q * v
  {
    if p <= q { assert (q - p) * v >= 0; }
  }

  // ----- what the histogram is about

  ghost function Bytes(txs: map<TxHash, PoolTx>, hash: TxHash): int {
    if hash in txs then txs[hash].vsizeBytes else 0
  }

  /** The transactions that pay a fee, at this rate or a better one. */
  ghost function AtLeast(txs: map<TxHash, PoolTx>, rate: int): set<TxHash> {
    set h | h in txs && txs[h].fee >= 0 && FeeRate(txs[h]) >= rate
  }

  ghost function AtRate(txs: map<TxHash, PoolTx>, done: set<TxHash>, rate: nat): set<TxHash> {
    set h | h in txs && h in done && txs[h].fee >= 0 && FeeRate(txs[h]) == rate
  }

  ghost function Total(txs: map<TxHash, PoolTx>, hs: set<TxHash>): int {
    Sum(hs, (h: TxHash) => Bytes(txs, h))
  }

  ghost function BytesAtLeast(txs: map<TxHash, PoolTx>, rate: int): int {
    Total(txs, AtLeast(txs, rate))
  }

  /** Nothing wraps around while the pool is smaller than 4 GiB. */
  ghost predicate Fits(txs: map<TxHash, PoolTx>) {
    BytesAtLeast(txs, 0) < 0x1_0000_0000
  }

  lemma {:induction false} TotalNonNegative(txs: map<TxHash, PoolTx>, hs: set<TxHash>)
    ensures Total(txs, hs) >= 0
    decreases |hs|
  {
    var f := (h: TxHash) => Bytes(txs, h);
    if hs != {} {
      var h :| h in hs;
      SumRemove(hs, f, h);
      TotalNonNegative(txs, hs - {h});
    }
  }

  lemma {:induction false} TotalUnion(txs: map<TxHash, PoolTx>, a: set<TxHash>, b: set<TxHash>)
    requires a !! b
    ensures Total(txs, a + b) == Total(txs, a) + Total(txs, b)
  {
    hide Sum;
    SumUnion(a, b, (h: TxHash) => Bytes(txs, h));
  }

  lemma {:induction false} TotalMonotone(txs: map<TxHash, PoolTx>, a: set<TxHash>, b: set<TxHash>)
    requires a <= b
    ensures Total(txs, a) <= Total(txs, b)
  {
    hide Total;
    assert a + (b - a) == b;
    TotalUnion(txs, a, b - a);
    TotalNonNegative(txs, b - a);
  }

  // ----- sizes by fee rate

  function Get(histogram: map<nat, nat>, rate: nat): nat {
    if rate in histogram then histogram[rate] else 0
  }

  /** The histogram of the transactions done so far. */
  ghost predicate Counts(txs: map<TxHash, PoolTx>, done: set<TxHash>, histogram: map<nat, nat>) {
    && (forall rate: nat :: Get(histogram, rate) == Total(txs, AtRate(txs, done, rate)))
    && (forall rate: nat :: rate in histogram <==> AtRate(txs, done, rate) != {})
  }

  lemma {:induction false} CountsNext(txs: map<TxHash, PoolTx>, done: set<TxHash>, histogram: map<nat, nat>, h: TxHash)
    requires Counts(txs, done, histogram) && h in txs && h !in done && Fits(txs)
    ensures var tx := txs[h];
      Counts(txs, done + {h}, if tx.fee < 0 then histogram
        else histogram[FeeRate(tx) := Wrap(Get(histogram, FeeRate(tx)) + tx.vsizeBytes)])
  {
    hide Total;
    var tx := txs[h];
    forall rate: nat
      ensures AtRate(txs, done + {h}, rate) ==
        if tx.fee >= 0 && rate == FeeRate(tx) then AtRate(txs, done, rate) + {h} else AtRate(txs, done, rate) {}
    if tx.fee >= 0 {
      var rate := FeeRate(tx);
      TotalUnion(txs, AtRate(txs, done, rate), {h});
      TotalOne(txs, h);
      TotalMonotone(txs, AtRate(txs, done + {h}, rate), AtLeast(txs, 0));
    }
  }

  lemma {:induction false} TotalOne(txs: map<TxHash, PoolTx>, h: TxHash)
    requires h in txs
    ensures Total(txs, {h}) == txs[h].vsizeBytes
  {
    var f := (h: TxHash) => Bytes(txs, h);
    SumRemove({h}, f, h);
    assert {h} - {h} == {};
  }

  /** The first loop: in whatever order the transactions come. */
  method SizesByRate(txs: map<TxHash, PoolTx>) returns (histogram: map<nat, nat>)
    ensures Fits(txs) ==> Counts(txs, txs.Keys, histogram)
  {
    hide Counts, Fits;
    histogram := map[];
    var todo := txs.Keys;
    NothingCounted(txs, todo);
    while todo != {}
      invariant todo <= txs.Keys
      invariant Fits(txs) ==> Counts(txs, txs.Keys - todo, histogram)
      decreases |todo|
    {
      var h :| h in todo;
      if Fits(txs) { CountsNext(txs, txs.Keys - todo, histogram, h); }
      assert txs.Keys - todo + {h} == txs.Keys - (todo - {h});
      todo := todo - {h};
      var tx := txs[h];
      if tx.fee < 0 { continue; }
      var feeRate := FeeRate(tx);
      histogram := histogram[feeRate := Wrap(Get(histogram, feeRate) + tx.vsizeBytes)];
    }
    assert txs.Keys - todo == txs.Keys;
  }

  lemma {:induction false} NothingCounted(txs: map<TxHash, PoolTx>, todo: set<TxHash>)
    requires todo == txs.Keys
    ensures Counts(txs, txs.Keys - todo, map[])
  {
    forall rate: nat ensures AtRate(txs, txs.Keys - todo, rate) == {} {}
  }

  // ----- the sorted map

  ghost predicate Descending(items: seq<(nat, nat)>) {
    forall i, j :: 0 <= i < j < |items| ==> items[i].0 > items[j].0
  }

  ghost predicate Lists(items: seq<(nat, nat)>, histogram: map<nat, nat>) {
    && (forall i :: 0 <= i < |items| ==> items[i].0 in histogram && histogram[items[i].0] == items[i].1)
    && (forall rate :: rate in histogram ==> exists i :: 0 <= i < |items| && items[i].0 == rate)
  }

  /** Walk the map as std::map with std::greater does. */
  method InOrder(histogram: map<nat, nat>) returns (items: seq<(nat, nat)>)
    ensures Descending(items) && Lists(items, histogram)
  {
    items := [];
    var todo := histogram.Keys;
    while todo != {}
      invariant Walked(items, histogram, todo)
      decreases |todo|
    {
      ghost var m := Highest(todo);
      var rate :| rate in todo && forall x :: x in todo ==> x <= rate;
      WalkOne(items, histogram, todo, rate);
      items := items + [(rate, histogram[rate])];
      todo := todo - {rate};
    }
  }

  /** The rates that are done come before the ones still to do. */
  ghost predicate Walked(items: seq<(nat, nat)>, histogram: map<nat, nat>, todo: set<nat>) {
    && todo <= histogram.Keys && Descending(items)
    && (forall i, r :: 0 <= i < |items| && r in todo ==> items[i].0 > r)
    && (forall i :: 0 <= i < |items| ==> items[i].0 in histogram && histogram[items[i].0] == items[i].1)
    && (forall r :: r in histogram && r !in todo ==> exists i :: 0 <= i < |items| && items[i].0 == r)
  }

  lemma {:induction false} WalkOne(items: seq<(nat, nat)>, histogram: map<nat, nat>, todo: set<nat>, rate: nat)
    requires Walked(items, histogram, todo) && rate in todo && forall x :: x in todo ==> x <= rate
    ensures Walked(items + [(rate, histogram[rate])], histogram, todo - {rate})
  {
    var items' := items + [(rate, histogram[rate])];
    forall r | r in histogram && r !in todo - {rate} ensures exists i :: 0 <= i < |items'| && items'[i].0 == r {
      if r == rate {
        assert items'[|items|].0 == r;
      } else {
        var i :| 0 <= i < |items| && items[i].0 == r;
        assert items'[i].0 == r;
      }
    }
  }

  ghost function Prefix(items: seq<(nat, nat)>, n: nat): nat
    requires n <= |items|
  {
    if n == 0 then 0 else Prefix(items, n - 1) + items[n - 1].1
  }

  lemma {:induction false} PrefixNext(items: seq<(nat, nat)>, n: nat)
    requires n < |items|
    ensures Prefix(items, n + 1) == Prefix(items, n) + items[n].1
  {
  }

  lemma {:induction false} PrefixMonotone(items: seq<(nat, nat)>, m: nat, n: nat)
    requires m <= n <= |items|
    ensures Prefix(items, m) <= Prefix(items, n)
    decreases n
  {
    if m < n { PrefixMonotone(items, m, n - 1); }
  }

  /** Those that pay at least the n-th rate pay it exactly, or at least the rate before. */
  lemma {:induction false} RateLayers(txs: map<TxHash, PoolTx>, histogram: map<nat, nat>, items: seq<(nat, nat)>, n: nat)
    requires Counts(txs, txs.Keys, histogram) && Descending(items) && Lists(items, histogram) && 0 < n <= |items|
    ensures var above := if n == 1 then {} else AtLeast(txs, items[n - 2].0);
      var here := AtRate(txs, txs.Keys, items[n - 1].0);
      AtLeast(txs, items[n - 1].0) == above + here && above !! here
    ensures items[n - 1].1 == Total(txs, AtRate(txs, txs.Keys, items[n - 1].0))
  {
    hide Total;
    var rate := items[n - 1].0;
    var here := AtRate(txs, txs.Keys, rate);
    assert items[n - 1].1 == Get(histogram, rate) == Total(txs, here);
    var above := if n == 1 then {} else AtLeast(txs, items[n - 2].0);
    forall h | h in AtLeast(txs, rate) ensures h in here || h in above {
      var r := FeeRate(txs[h]);
      assert h in AtRate(txs, txs.Keys, r);
      var i :| 0 <= i < |items| && items[i].0 == r;
      if i < n - 1 { assert n >= 2 && items[i].0 >= items[n - 2].0; }
    }
  }

  /** The first n rates hold just the transactions that pay at least the n-th rate. */
  lemma {:induction false} PrefixMeans(txs: map<TxHash, PoolTx>, histogram: map<nat, nat>, items: seq<(nat, nat)>, n: nat)
    requires Counts(txs, txs.Keys, histogram) && Descending(items) && Lists(items, histogram) && 0 < n <= |items|
    ensures Prefix(items, n) == BytesAtLeast(txs, items[n - 1].0)
    decreases n
  {
    hide Total, AtRate, AtLeast, Counts, Lists, Descending;
    RateLayers(txs, histogram, items, n);
    var above := if n == 1 then {} else AtLeast(txs, items[n - 2].0);
    TotalUnion(txs, above, AtRate(txs, txs.Keys, items[n - 1].0));
    if n > 1 {
      PrefixMeans(txs, histogram, items, n - 1);
    } else {
      TotalNone(txs);
    }
  }

  lemma {:induction false} TotalNone(txs: map<TxHash, PoolTx>)
    ensures Total(txs, {}) == 0
  {
  }

  /** All rates together hold all the transactions that pay a fee. */
  lemma {:induction false} PrefixAll(txs: map<TxHash, PoolTx>, histogram: map<nat, nat>, items: seq<(nat, nat)>)
    requires Counts(txs, txs.Keys, histogram) && Descending(items) && Lists(items, histogram)
    ensures Prefix(items, |items|) == BytesAtLeast(txs, 0)
  {
    hide Total;
    var n := |items|;
    forall h | h in AtLeast(txs, 0) ensures n > 0 && h in AtLeast(txs, items[n - 1].0) {
      assert h in AtRate(txs, txs.Keys, FeeRate(txs[h]));
    }
    if n > 0 {
      PrefixMeans(txs, histogram, items, n);
      assert AtLeast(txs, 0) == AtLeast(txs, items[n - 1].0);
    } else {
      assert AtLeast(txs, 0) == {};
      TotalNone(txs);
    }
  }

  // ----- compaction

  /** The loop variables of the second loop. */
  datatype Acc = Acc(ret: seq<Bin>, cumSize: nat, binSize: real, prevFeeRate: Option<nat>)

  function Flush(acc: Acc, feeRate: nat): Acc {
    acc.(ret := acc.ret + [Bin(feeRate, acc.cumSize)], cumSize := 0, binSize := acc.binSize * 1.1)
  }

  /** A big lump at the next rate closes the bin that is open. */
  function Before(acc: Acc, size: nat): Acc {
    if size as real > 2.0 * acc.binSize && acc.prevFeeRate.Some? && acc.cumSize > 0 then Flush(acc, acc.prevFeeRate.value) else acc
  }

  function AddItem(acc: Acc, feeRate: nat, size: nat): Acc {
    var acc1 := acc.(cumSize := acc.cumSize + size);
    (if acc1.cumSize as real > acc1.binSize then Flush(acc1, feeRate) else acc1).(prevFeeRate := Some(feeRate))
  }

  ghost function Emitted(ret: seq<Bin>, n: nat): nat
    requires n <= |ret|
  {
    if n == 0 then 0 else Emitted(ret, n - 1) + ret[n - 1].size
  }

  ghost function Power(n: nat): real {
    if n == 0 then 1.0 else Power(n - 1) * 1.1
  }

  /** The sum of the bin sizes aimed at: b * 1.1^k for k below n. */
  ghost function Aimed(b: real, n: nat): real {
    if n == 0 then 0.0 else Aimed(b, n - 1) + b * Power(n - 1)
  }

  /** Each bin ends at one of the first n items, later bins at later items, and all bins up to it hold
      just the sizes of the items up to it. */
  ghost predicate Cuts(items: seq<(nat, nat)>, n: nat, ret: seq<Bin>, ends: seq<nat>)
    requires n <= |items|
  {
    && |ends| == |ret|
    && (forall k :: 0 <= k < |ends| ==> 0 < ends[k] <= n)
    && (forall k, l :: 0 <= k < l < |ends| ==> ends[k] < ends[l])
    && (forall k :: 0 <= k < |ends| ==> ret[k].feeRate == items[ends[k] - 1].0)
    && (forall k :: 0 <= k < |ends| ==> Emitted(ret, k + 1) == Prefix(items, ends[k]))
  }

  /** What holds of the loop variables after n items. */
  ghost predicate AccInv(items: seq<(nat, nat)>, n: nat, b: real, acc: Acc, ends: seq<nat>)
    requires n <= |items|
  {
    && Cuts(items, n, acc.ret, ends)
    && acc.prevFeeRate == (if n == 0 then None else Some(items[n - 1].0))
    && Emitted(acc.ret, |acc.ret|) + acc.cumSize == Prefix(items, n)
    && acc.binSize == b * Power(|acc.ret|)
    && (acc.ret != [] ==> Emitted(acc.ret, |acc.ret|) as real > 20.0 / 21.0 * Aimed(b, |acc.ret|))
  }

  lemma {:induction false} EmittedPrefix(ret: seq<Bin>, bin: Bin, n: nat)
    requires n <= |ret|
    ensures Emitted(ret + [bin], n) == Emitted(ret, n)
  {
    if n > 0 { EmittedPrefix(ret, bin, n - 1); }
  }

  lemma {:induction false} CutMore(items: seq<(nat, nat)>, n: nat, m: nat, acc: Acc, ends: seq<nat>)
    requires 0 < m <= n <= |items| && Cuts(items, m, acc.ret, ends)
    requires ends != [] ==> ends[|ends| - 1] < m
    requires Emitted(acc.ret, |acc.ret|) + acc.cumSize == Prefix(items, m)
    ensures var ret := Flush(acc, items[m - 1].0).ret;
      Cuts(items, n, ret, ends + [m]) && Emitted(ret, |ret|) == Prefix(items, m)
  {
    hide Prefix;
    var bin := Bin(items[m - 1].0, acc.cumSize);
    forall k | 0 <= k <= |acc.ret| ensures Emitted(acc.ret + [bin], k) == Emitted(acc.ret, k) { EmittedPrefix(acc.ret, bin, k); }
  }

  lemma {:induction false} CutsLater(items: seq<(nat, nat)>, n: nat, m: nat, ret: seq<Bin>, ends: seq<nat>)
    requires m <= n <= |items| && Cuts(items, m, ret, ends)
    ensures Cuts(items, n, ret, ends)
  {
    hide Prefix, Emitted;
  }

  /** An open bin has something in it exactly when the last cut lies behind. */
  lemma {:induction false} OpenBin(items: seq<(nat, nat)>, n: nat, acc: Acc, ends: seq<nat>)
    requires n <= |items| && Cuts(items, n, acc.ret, ends) && acc.cumSize > 0
    requires Emitted(acc.ret, |acc.ret|) + acc.cumSize == Prefix(items, n)
    ensures n > 0 && (ends != [] ==> ends[|ends| - 1] < n)
  {
    if ends != [] { assert Emitted(acc.ret, |ends|) == Prefix(items, ends[|ends| - 1]); }
  }

  lemma {:induction false} NextAim(b: real, n: nat, binSize: real)
    requires binSize == b * Power(n)
    ensures binSize * 1.1 == b * Power(n + 1) && Aimed(b, n + 1) == Aimed(b, n) + binSize
  {
    assert b * (Power(n) * 1.1) == b * Power(n) * 1.1;
  }

  /** Closing a bin that has outgrown the size aimed at. */
  lemma {:induction false} CloseFull(items: seq<(nat, nat)>, n: nat, b: real, acc: Acc, ends: seq<nat>)
    requires 0 < n <= |items| && AccInv(items, n, b, acc, ends) && acc.cumSize as real > acc.binSize >= 0.0
    ensures AccInv(items, n, b, Flush(acc, items[n - 1].0), ends + [n])
  {
    hide Cuts, Aimed, Power;
    OpenBin(items, n, acc, ends);
    CutMore(items, n, n, acc, ends);
    NextAim(b, |acc.ret|, acc.binSize);
    Slack(acc.cumSize as real, acc.binSize);
    NoAim(b);
  }

  lemma {:induction false} Slack(size: real, binSize: real)
    requires size > binSize >= 0.0
    ensures size > 20.0 / 21.0 * binSize
  {
  }

  lemma {:induction false} NoAim(b: real)
    ensures Aimed(b, 0) == 0.0
  {
  }

  /** A lump of more than twice the size aimed at closes the open bin and then fills one of its own. */
  lemma {:induction false} CloseForLump(items: seq<(nat, nat)>, n: nat, b: real, acc: Acc, ends: seq<nat>)
    requires n < |items| && AccInv(items, n, b, acc, ends) && acc.binSize >= 0.0
    requires items[n].1 as real > 2.0 * acc.binSize && n > 0 && acc.cumSize > 0
    ensures var acc' := AddItem(Flush(acc, items[n - 1].0), items[n].0, items[n].1);
      AccInv(items, n + 1, b, acc', ends + [n] + [n + 1]) && acc'.cumSize == 0 && acc'.binSize >= 0.0
  {
    hide Cuts, Aimed, Power, Emitted;
    var (feeRate, size) := items[n];
    OpenBin(items, n, acc, ends);
    CutMore(items, n + 1, n, acc, ends);
    var acc1 := Flush(acc, items[n - 1].0);
    var acc2 := acc1.(cumSize := size);
    assert Prefix(items, n + 1) == Prefix(items, n) + size;
    CutMore(items, n + 1, n + 1, acc2, ends + [n]);
    NextAim(b, |acc.ret|, acc.binSize);
    NextAim(b, |acc.ret| + 1, acc1.binSize);
    NoAim(b);
    TwoBins(Emitted(acc.ret, |acc.ret|) as real, Aimed(b, |acc.ret|), acc.binSize, acc.cumSize as real, size as real);
  }

  lemma {:induction false} TwoBins(emitted: real, aimed: real, binSize: real, open: real, lump: real)
    requires emitted >= 20.0 / 21.0 * aimed && open > 0.0 && lump > 2.0 * binSize
    ensures emitted + open + lump > 20.0 / 21.0 * (aimed + binSize + binSize * 1.1)
  {
  }

  // ----- where a bin ends

  /** Bin k, aimed at b * 1.1^k, is closed by the item that makes it exceed its aim, and holds that item alone if the item is
      more than twice the aim; or it has not reached its aim, and the next item is more than twice the aim and alone in the next bin. */
  ghost predicate BinOk(items: seq<(nat, nat)>, b: real, ret: seq<Bin>, ends: seq<nat>, k: nat)
    requires |ends| == |ret| && k < |ret|
  {
    var aim := b * Power(k);
    && 0 < ends[k] <= |items|
    && var last := items[ends[k] - 1].1;
       if ret[k].size as real > aim
       then (ret[k].size - last) as real <= aim && (last as real > 2.0 * aim ==> ret[k].size == last)
       else && ret[k].size > 0 && k + 1 < |ret| && ends[k + 1] == ends[k] + 1 <= |items|
            && ret[k + 1].size == items[ends[k]].1 && ret[k + 1].size as real > 2.0 * aim
  }

  ghost predicate BinsOk(items: seq<(nat, nat)>, b: real, ret: seq<Bin>, ends: seq<nat>) {
    |ends| == |ret| && forall k :: 0 <= k < |ret| ==> BinOk(items, b, ret, ends, k)
  }

  lemma {:induction false} BinOkStays(items: seq<(nat, nat)>, b: real, ret: seq<Bin>, ends: seq<nat>, bin: Bin, end: nat, k: nat)
    requires |ends| == |ret| && k < |ret| && BinOk(items, b, ret, ends, k)
    ensures BinOk(items, b, ret + [bin], ends + [end], k)
  {
  }

  /** A bin that exceeds its aim is added. */
  lemma {:induction false} FullBin(items: seq<(nat, nat)>, b: real, ret: seq<Bin>, ends: seq<nat>, bin: Bin, n: nat)
    requires BinsOk(items, b, ret, ends) && n < |items|
    requires var aim := b * Power(|ret|);
      && bin.size as real > aim && (bin.size - items[n].1) as real <= aim
      && (items[n].1 as real > 2.0 * aim ==> bin.size == items[n].1)
    ensures BinsOk(items, b, ret + [bin], ends + [n + 1])
  {
    hide BinOk, Power;
    var ret1, ends1 := ret + [bin], ends + [n + 1];
    forall k | 0 <= k < |ret| ensures BinOk(items, b, ret1, ends1, k) { BinOkStays(items, b, ret, ends, bin, n + 1, k); }
    FullBinOk(items, b, ret1, ends1);
  }

  lemma {:induction false} FullBinOk(items: seq<(nat, nat)>, b: real, ret: seq<Bin>, ends: seq<nat>)
    requires ret != [] && |ends| == |ret| && 0 < ends[|ret| - 1] <= |items|
    requires var aim, size, last := b * Power(|ret| - 1), ret[|ret| - 1].size, items[ends[|ret| - 1] - 1].1;
      size as real > aim && (size - last) as real <= aim && (last as real > 2.0 * aim ==> size == last)
    ensures BinOk(items, b, ret, ends, |ret| - 1)
  {
  }

  /** An open bin is closed for a lump, and the lump has the next bin. */
  lemma {:induction false} LumpBins(items: seq<(nat, nat)>, b: real, ret: seq<Bin>, ends: seq<nat>, open: Bin, lump: Bin, n: nat)
    requires BinsOk(items, b, ret, ends) && 0 < n < |items| && b >= 0.0
    requires open.size > 0 && open.size as real <= b * Power(|ret|)
    requires lump.size == items[n].1 && lump.size as real > 2.0 * (b * Power(|ret|))
    ensures BinsOk(items, b, ret + [open] + [lump], ends + [n] + [n + 1])
  {
    hide BinOk, Power;
    var ret1, ends1 := ret + [open], ends + [n];
    var ret2, ends2 := ret1 + [lump], ends1 + [n + 1];
    NextAim(b, |ret|, b * Power(|ret|));
    AimNonNegative(b, |ret|);
    OpenBinOk(items, b, ret2, ends2);
    FullBinOk(items, b, ret2, ends2);
    forall k | 0 <= k < |ret| ensures BinOk(items, b, ret2, ends2, k) {
      BinOkStays(items, b, ret, ends, open, n, k);
      BinOkStays(items, b, ret1, ends1, lump, n + 1, k);
    }
  }

  lemma {:induction false} OpenBinOk(items: seq<(nat, nat)>, b: real, ret: seq<Bin>, ends: seq<nat>)
    requires |ret| >= 2 && |ends| == |ret| && 0 < ends[|ret| - 2] < |items| && ends[|ret| - 1] == ends[|ret| - 2] + 1
    requires var aim := b * Power(|ret| - 2);
      && 0 < ret[|ret| - 2].size && ret[|ret| - 2].size as real <= aim
      && ret[|ret| - 1].size == items[ends[|ret| - 2]].1 && ret[|ret| - 1].size as real > 2.0 * aim
    ensures BinOk(items, b, ret, ends, |ret| - 2)
  {
    hide Power;
  }

  lemma {:induction false} AimNonNegative(b: real, n: nat)
    requires b >= 0.0
    ensures b * Power(n) >= 0.0
  {
    if n > 0 {
      AimNonNegative(b, n - 1);
      assert b * Power(n) == b * Power(n - 1) * 1.1;
    }
  }

  /** One turn of the second loop. */
  lemma {:induction false} TurnKeeps(items: seq<(nat, nat)>, n: nat, b: real, acc: Acc, ends: seq<nat>) returns (ends': seq<nat>)
    requires n < |items| && AccInv(items, n, b, acc, ends) && 0.0 <= acc.binSize && acc.cumSize as real <= acc.binSize
    requires b >= 0.0 && BinsOk(items, b, acc.ret, ends)
    ensures var acc' := AddItem(Before(acc, items[n].1), items[n].0, items[n].1);
      AccInv(items, n + 1, b, acc', ends') && 0.0 <= acc'.binSize && acc'.cumSize as real <= acc'.binSize
      && BinsOk(items, b, acc'.ret, ends')
  {
    hide Cuts, Aimed, Power, BinsOk, Emitted, Prefix;
    var (feeRate, size) := items[n];
    if size as real > 2.0 * acc.binSize && acc.prevFeeRate.Some? && acc.cumSize > 0 {
      CloseForLump(items, n, b, acc, ends);
      LumpBins(items, b, acc.ret, ends, Bin(acc.prevFeeRate.value, acc.cumSize), Bin(feeRate, size), n);
      ends' := ends + [n] + [n + 1];
    } else {
      ends' := AddKeeps(items, n, b, acc, ends);
    }
  }

  /** The turn of an item for which nothing is closed first. */
  lemma {:induction false} AddKeeps(items: seq<(nat, nat)>, n: nat, b: real, acc: Acc, ends: seq<nat>) returns (ends': seq<nat>)
    requires n < |items| && AccInv(items, n, b, acc, ends) && 0.0 <= acc.binSize && acc.cumSize as real <= acc.binSize
    requires BinsOk(items, b, acc.ret, ends)
    requires items[n].1 as real > 2.0 * acc.binSize ==> acc.prevFeeRate.None? || acc.cumSize == 0
    ensures var acc' := AddItem(acc, items[n].0, items[n].1);
      AccInv(items, n + 1, b, acc', ends') && 0.0 <= acc'.binSize && acc'.cumSize as real <= acc'.binSize
      && BinsOk(items, b, acc'.ret, ends')
  {
    hide Cuts, Aimed, Power, BinsOk, Emitted, Prefix;
    var (feeRate, size) := items[n];
    var acc1 := acc.(cumSize := acc.cumSize + size, prevFeeRate := Some(feeRate));
    CutsLater(items, n + 1, n, acc.ret, ends);
    assert Prefix(items, n + 1) == Prefix(items, n) + size by { PrefixNext(items, n); }
    assert AccInv(items, n + 1, b, acc1, ends);
    if acc1.cumSize as real > acc1.binSize {
      CloseFull(items, n + 1, b, acc1, ends);
      if acc.cumSize > 0 { OpenBin(items, n, acc, ends); }
      FullBin(items, b, acc.ret, ends, Bin(feeRate, acc1.cumSize), n);
      ends' := ends + [n + 1];
    } else {
      ends' := ends;
    }
  }

  /** The bytes that pay exactly this rate. */
  ghost function BytesAt(txs: map<TxHash, PoolTx>, rate: nat): int {
    Total(txs, AtRate(txs, txs.Keys, rate))
  }

  /** Bin k is aimed at b * 1.1^k and ends with a rate that some transaction pays.  It exceeds its aim only by
      what pays that rate, and holds nothing else if that alone is more than twice the aim.  A bin that does not
      exceed its aim makes way for a rate that alone is more than twice the aim and has the next bin for itself. */
  ghost predicate BinMeans(txs: map<TxHash, PoolTx>, b: real, ret: seq<Bin>, k: nat)
    requires k < |ret|
  {
    var aim, last := b * Power(k), BytesAt(txs, ret[k].feeRate);
    && AtRate(txs, txs.Keys, ret[k].feeRate) != {}
    && if ret[k].size as real > aim
       then (ret[k].size - last) as real <= aim && (last as real > 2.0 * aim ==> ret[k].size == last)
       else && ret[k].size > 0 && k + 1 < |ret| && ret[k + 1].size == BytesAt(txs, ret[k + 1].feeRate)
            && ret[k + 1].size as real > 2.0 * aim
  }

  lemma {:induction false} BinOkMeans(txs: map<TxHash, PoolTx>, histogram: map<nat, nat>, items: seq<(nat, nat)>, n: nat, b: real,
                                      ret: seq<Bin>, ends: seq<nat>, k: nat)
    requires Counts(txs, txs.Keys, histogram) && Lists(items, histogram) && n <= |items|
    requires Cuts(items, n, ret, ends) && k < |ret| && BinOk(items, b, ret, ends, k)
    ensures BinMeans(txs, b, ret, k)
  {
    hide Total, Power, Emitted, Prefix;
    var m := ends[k] - 1;
    assert items[m].0 in histogram && items[m].1 == Get(histogram, items[m].0);
    if k + 1 < |ret| {
      var m' := ends[k + 1] - 1;
      assert items[m'].0 in histogram && items[m'].1 == Get(histogram, items[m'].0);
    }
  }

  /** The bins say, for each of the fee rates in them, how much pays at least that, and end where they should;
      what is left over pays less than all of them and would not fill the next bin. */
  ghost predicate Compacts(txs: map<TxHash, PoolTx>, b: real, ret: seq<Bin>) {
    && (forall k :: 0 <= k < |ret| ==> Emitted(ret, k + 1) == BytesAtLeast(txs, ret[k].feeRate))
    && (forall k, l :: 0 <= k < l < |ret| ==> ret[k].feeRate > ret[l].feeRate)
    && 0 <= BytesAtLeast(txs, 0) - Emitted(ret, |ret|)
    && (BytesAtLeast(txs, 0) - Emitted(ret, |ret|)) as real <= b * Power(|ret|)
    && (ret != [] ==> Emitted(ret, |ret|) as real > 20.0 / 21.0 * Aimed(b, |ret|))
    && (forall k :: 0 <= k < |ret| ==> BinMeans(txs, b, ret, k))
  }

  lemma {:induction false} CutsMean(txs: map<TxHash, PoolTx>, histogram: map<nat, nat>, items: seq<(nat, nat)>, b: real, acc: Acc, ends: seq<nat>)
    requires Counts(txs, txs.Keys, histogram) && Descending(items) && Lists(items, histogram)
    requires AccInv(items, |items|, b, acc, ends) && acc.cumSize as real <= acc.binSize && BinsOk(items, b, acc.ret, ends)
    ensures Compacts(txs, b, acc.ret)
  {
    hide BytesAtLeast, Counts, Lists, Emitted, Prefix, Aimed, Power, BinOk, BinMeans;
    PrefixAll(txs, histogram, items);
    forall k | 0 <= k < |acc.ret| ensures BinMeans(txs, b, acc.ret, k) {
      BinOkMeans(txs, histogram, items, |items|, b, acc.ret, ends, k);
    }
    forall k | 0 <= k < |acc.ret| ensures Emitted(acc.ret, k + 1) == BytesAtLeast(txs, acc.ret[k].feeRate) {
      PrefixMeans(txs, histogram, items, ends[k]);
    }
  }

  method CalcCompactFeeHistogram(txs: map<TxHash, PoolTx>, binSizeBytes: nat) returns (ret: seq<Bin>)
    ensures Fits(txs) ==> Compacts(txs, binSizeBytes as real, ret)
  {
    hide Counts, Fits, AccInv, Compacts, Descending, Lists, Emitted, Prefix, Aimed, Power;
    var histogram := SizesByRate(txs);
    var items := InOrder(histogram);
    ret := Compact(items, binSizeBytes, txs, histogram);
  }

  /** The second loop. */
  method Compact(items: seq<(nat, nat)>, binSizeBytes: nat, ghost txs: map<TxHash, PoolTx>, ghost histogram: map<nat, nat>) returns (ret: seq<Bin>)
    requires Descending(items) && Lists(items, histogram) && (Fits(txs) ==> Counts(txs, txs.Keys, histogram))
    ensures Fits(txs) ==> Compacts(txs, binSizeBytes as real, ret)
  {
    hide Counts, Fits, AccInv, BinsOk, Compacts, Descending, Lists, Emitted, Prefix, Aimed, Power;
    ret := [];
    var cumSize: nat, binSize, prevFeeRate: Option<nat> := 0, binSizeBytes as real, None;
    var n := 0;
    ghost var b, fits, ends: seq<nat> := binSizeBytes as real, Fits(txs), [];
    AccStart(items, b);
    if fits { SmallPrefix(txs, histogram, items); }
    while n < |items|
      invariant 0 <= n <= |items|
      invariant fits ==> AccInv(items, n, b, Acc(ret, cumSize, binSize, prevFeeRate), ends) && 0.0 <= binSize && cumSize as real <= binSize
      invariant fits ==> BinsOk(items, b, ret, ends)
    {
      var (feeRate, size) := items[n];
      ghost var acc := Acc(ret, cumSize, binSize, prevFeeRate);
      if fits {
        Small(items, n, b, acc, ends);
        ends := TurnKeeps(items, n, b, acc, ends);
      }
      if size as real > 2.0 * binSize && prevFeeRate.Some? && cumSize > 0 {
        ret := ret + [Bin(prevFeeRate.value, cumSize)];
        cumSize := 0;
        binSize := binSize * 1.1;
      }
      cumSize := Wrap(cumSize + size);
      if cumSize as real > binSize {
        ret := ret + [Bin(feeRate, cumSize)];
        cumSize := 0;
        binSize := binSize * 1.1;
      }
      prevFeeRate := Some(feeRate);
      n := n + 1;
      assert fits ==> Acc(ret, cumSize, binSize, prevFeeRate) == AddItem(Before(acc, size), feeRate, size);
    }
    if fits { CutsMean(txs, histogram, items, b, Acc(ret, cumSize, binSize, prevFeeRate), ends); }
  }

  lemma {:induction false} AccStart(items: seq<(nat, nat)>, b: real)
    ensures AccInv(items, 0, b, Acc([], 0, b, None), []) && BinsOk(items, b, [], [])
  {
  }

  lemma {:induction false} SmallPrefix(txs: map<TxHash, PoolTx>, histogram: map<nat, nat>, items: seq<(nat, nat)>)
    requires Fits(txs) && Counts(txs, txs.Keys, histogram) && Descending(items) && Lists(items, histogram)
    ensures Prefix(items, |items|) < 0x1_0000_0000
  {
    hide BytesAtLeast, Counts, Lists, Descending;
    PrefixAll(txs, histogram, items);
  }

  /** Nothing that is added up wraps around. */
  lemma {:induction false} Small(items: seq<(nat, nat)>, n: nat, b: real, acc: Acc, ends: seq<nat>)
    requires n < |items| && AccInv(items, n, b, acc, ends) && Prefix(items, |items|) < 0x1_0000_0000
    ensures Wrap(acc.cumSize + items[n].1) == acc.cumSize + items[n].1 && Wrap(items[n].1) == items[n].1
  {
    hide Cuts, Emitted, Aimed, Power;
    PrefixMonotone(items, n + 1, |items|);
    assert Prefix(items, n + 1) == Prefix(items, n) + items[n].1;
  }
}
