/**
  The header Merkle cache of src/Merkle.cpp: a middle row of the tree over the block ids of the
  stored chain, extended and cut back in place, from which (branch, root) queries for any prefix
  of the chain are answered.

  The header store the cache reads through its callback is passed to every operation as the
  sequence of block ids it holds at that moment, so it may grow or be reorganised in between.
*/
module MerkleCache {
  import opened Extremes
  import opened Wrappers
  import opened Shifts
  import opened MerkleTree
  import opened MerkleLevel

  /** Block ids by height.  Heights are signed 32-bit integers in the store, so no shift or sum below wraps. */
  type Chain = c: seq<Hash> | |c| < 0x8000_0000 witness []

  /** Cache::getHashes over the header store: an empty or out-of-range request is an error. */
  function GetHashes(chain: Chain, from: nat, count: nat): (r: Result<seq<Hash>>) {
    if count == 0 || from + count > |chain| then Err(InternalError) else Ok(chain[from..from + count])
  }

  // ----- what the cache is for: the same answers as a plain computation

  /** All a caller needs to know about a cache: whether it was initialised, how many leaves it
      covers and how high its row is. */
  datatype View = View(initialized: bool, length: nat, depth: nat)

  /** The answer to a query: the plain one, except for bad arguments, an uninitialised cache, a chain
      that is too short, and a length below the cached one that ends exactly on a segment boundary. */
  ghost function Answer(h: HashTwo, v: View, chain: Chain, length: nat, index: nat): (r: Result<BranchAndRoot>) {
    if length == 0 || index >= length then Err(BadArgs)
    else if !v.initialized then Err(InternalError)
    else if length > |chain| then Err(InternalError)
    else if length < v.length && Aligned(length, v.depth) then Err(InternalError)
    else Plain(h, chain[..length], index, None)
  }

  /** That answer, spelled out: which queries fail and how; otherwise a branch as long as the tree over the
      first `length` block ids is high, which takes the queried id to the root of that tree. */
  ghost predicate AnswerMeans(h: HashTwo, v: View, chain: Chain, length: nat, index: nat, r: Result<BranchAndRoot>) {
    && (r == Err(BadArgs) <==> index >= length)
    && (r == Err(InternalError) <==>
          index < length && (!v.initialized || length > |chain| || (length < v.length && length % Pow2(v.depth) == 0)))
    && (r.Err? ==> r.error == BadArgs || r.error == InternalError)
    && (r.Ok? ==> index < length <= |chain| && Proves(h, chain[..length], index, r.value.branch, r.value.root))
  }

  ghost predicate Proves(h: HashTwo, s: seq<Hash>, index: nat, branch: seq<Hash>, root: Hash)
    requires index < |s|
  {
    && |s| <= Pow2(|branch|) && (|branch| > 0 ==> Pow2(|branch| - 1) < |s|)
    && Row(h, s, |branch|) == [root]
    && FoldBranch(h, s[index], index, branch) == root
  }

  lemma {:induction false} AnswerSpelledOut(h: HashTwo, v: View, chain: Chain, length: nat, index: nat)
    ensures AnswerMeans(h, v, chain, length, index, Answer(h, v, chain, length, index))
  {
    hide Row, Branch, Shr, Shl, Pow2, Aligned, CeilShr, FoldBranch;
    AlignedMeans(length, v.depth);
    if Answer(h, v, chain, length, index).Ok? {
      var s := chain[..length];
      var n := BranchLength(length);
      BranchProvesLeaf(h, s, index, None);
      SegmentRow(h, s, n);
      assert Row(h, s, n) == [Row(h, s, n)[0]];
    }
  }

  /** A query for more leaves than are covered extends the cache, if the chain has them. */
  function AfterQuery(v: View, chain: Chain, length: nat, index: nat): View {
    if index < length && v.initialized && v.length < length <= |chain| then v.(length := length) else v
  }

  /** Truncation keeps whole segments only. */
  function AfterTruncate(v: View, length: nat): View {
    if v.initialized && 0 < length < v.length then v.(length := LeafStart(length, v.depth)) else v
  }

  /** The row is half-way up the tree over the initial leaves, and stays at that height. */
  function AfterInitialize(v: View, count: nat): View {
    if count == 0 then v.(length := 0) else View(true, count, TreeDepth(count) / 2)
  }

  /** The row height chosen at initialisation is far below the limit Level accepts. */
  lemma {:induction false} DepthInRange(count: nat)
    requires count < 0x8000_0000
    ensures TreeDepth(count) / 2 <= MAX_DEPTH
  {
    Pow2Values();
    BranchLengthAtMost(count, 31);
  }

  /** That height is the least d with count <= 4^d, the ceiling of half the logarithm. */
  lemma {:induction false} HalfWayUp(v: View, count: nat)
    requires count > 0
    ensures var d := AfterInitialize(v, count).depth;
            && count <= Pow2(2 * d)
            && (d > 0 ==> Pow2(2 * (d - 1)) < count)
  {
    var k := BranchLength(count);
    var d := AfterInitialize(v, count).depth;
    Pow2Monotone(k, 2 * d);
    if d > 0 { Pow2Monotone(2 * (d - 1), k - 1); }
  }

  class Cache {
    const h: HashTwo
    var length: nat
    var depthHigher: nat
    var level: seq<Hash>
    var initialized: bool

    constructor (h: HashTwo)
      ensures this.h == h && GetView() == View(false, 0, 0)
      ensures forall chain: Chain :: Agrees(chain)
    {
      this.h := h;
      length, depthHigher, level, initialized := 0, 0, [], false;
    }

    function GetView(): View
      reads this
    {
      View(initialized, length, depthHigher)
    }

    /** The cached row is the row of the tree over the first `length` block ids of `chain`.
        With length 0 (after a truncation into the first segment) the row is about to be rebuilt. */
    ghost predicate Agrees(chain: Chain)
      reads this
    {
      && depthHigher <= MAX_DEPTH
      && (!initialized ==> length == 0)
      && length <= |chain|
      && (length > 0 ==> level == Row(h, chain[..length], depthHigher))
    }

    /** Agreement looks at the covered prefix only, so the chain may change above it. */
    lemma {:induction false} AgreesAboveIsFree(chain: Chain, chain': Chain)
      requires Agrees(chain)
      requires length <= |chain'| && chain[..length] == chain'[..length]
      ensures Agrees(chain')
    {
    }

    /** Cache::initialize over a given vector of hashes (the first ones of the chain). */
    method InitializeFrom(chain: Chain, hashes: seq<Hash>) returns (r: Result<()>)
      requires Agrees(chain) && hashes <= chain
      modifies this
      ensures Agrees(chain)
      ensures GetView() == AfterInitialize(old(GetView()), |hashes|)
      ensures r == if hashes == [] then Err(BadArgs) else Ok(())
      ensures length == |hashes|
      ensures r.Ok? ==> initialized
      ensures r.Err? ==> initialized == old(initialized) && depthHigher == old(depthHigher)
      ensures r.Ok? ==> length <= Pow2(2 * depthHigher) && (depthHigher > 0 ==> Pow2(2 * (depthHigher - 1)) < length)
    {
      length := |hashes|;
      if length == 0 {
        return Err(BadArgs);
      }
      depthHigher := TreeDepth(length) / 2;
      DepthInRange(length);
      var lv := Level(h, hashes, depthHigher);
      level := lv.value;
      initialized := true;
      assert chain[..length] == hashes;
      HalfWayUp(old(GetView()), length);
      return Ok(());
    }

    /** Cache::initialize to the first `count` hashes of the store. */
    method Initialize(chain: Chain, count: nat) returns (r: Result<()>)
      requires Agrees(chain)
      modifies this
      ensures Agrees(chain)
      ensures r == if 0 < count <= |chain| then Ok(()) else Err(InternalError)
      ensures GetView() == if r.Ok? then AfterInitialize(old(GetView()), count) else old(GetView())
      ensures r.Ok? ==> initialized && length == count
      ensures r.Ok? ==> length <= Pow2(2 * depthHigher) && (depthHigher > 0 ==> Pow2(2 * (depthHigher - 1)) < length)
    {
      var hashes := GetHashes(chain, 0, count);
      if hashes.Err? {
        return Err(hashes.error);
      }
      r := InitializeFrom(chain, hashes.value);
    }

    /** Cache::extendTo: rebuild from the start of the last segment on. */
    method ExtendTo(chain: Chain, l: nat) returns (r: Result<()>)
      requires Agrees(chain) && initialized
      modifies this`length, this`level
      ensures Agrees(chain)
      ensures r == if length < l then Err(InternalError) else Ok(())
      ensures length == if old(length) < l <= |chain| then l else old(length)
    {
      hide Row, Shr, Shl, Pow2, Aligned, CeilShr;
      if l <= length {
        return Ok(());
      }
      var start := LeafStart(length, depthHigher);
      var hashes := GetHashes(chain, start, l - start);
      if hashes.Err? {
        return Err(hashes.error);
      }
      var limit := Shr(start, depthHigher);
      LeafStartAligned(length, depthHigher);
      assert limit <= |level| && level[..limit] == Row(h, chain[..start], depthHigher) by {
        if length > 0 {
          RowCut(h, chain[..length], length, depthHigher);
          assert chain[..length][..start] == chain[..start];
        } else {
          EmptyRow(h, depthHigher);
          ShrZero(depthHigher);
        }
      }
      if limit > |level| {
        return Err(InternalError);
      }
      level := level[..limit];
      var vec := Level(h, hashes.value, depthHigher);
      level := level + vec.value;
      length := l;
      assert chain[..l] == chain[..start] + hashes.value;
      RowConcat(h, chain[..start], hashes.value, depthHigher);
      return Ok(());
    }

    /** Cache::levelFor: the row for the first `l` leaves, cut from the cached one.  The size check
        never fails, and the only error is a length that leaves no leaves for the last segment. */
    method LevelFor(chain: Chain, l: nat) returns (r: Result<seq<Hash>>)
      requires Agrees(chain) && 0 < l <= length
      ensures r == if l < length && Aligned(l, depthHigher) then Err(InternalError)
                   else Ok(Row(h, chain[..l], depthHigher))
    {
      hide Row, Shr, Shl, Pow2, Aligned, CeilShr;
      if l == length {
        return Ok(level);
      }
      var limit := Shr(l, depthHigher);
      RowIndex(h, chain[..length], l, depthHigher);
      if limit >= |level| {
        return Err(InternalError);
      }
      RowCut(h, chain[..length], l, depthHigher);
      var ret := level[..limit];
      var leafstart := LeafStart(l, depthHigher);
      var count := Min(Pow2(depthHigher), l - leafstart);
      AlignDown(l, depthHigher);
      var hashes := GetHashes(chain, leafstart, count);
      if hashes.Err? {
        return Err(hashes.error);
      }
      var vec := Level(h, hashes.value, depthHigher);
      if vec.Err? {
        return vec;
      }
      LeafStartAligned(l, depthHigher);
      assert chain[..length][..leafstart] == chain[..leafstart];
      assert chain[..l] == chain[..leafstart] + hashes.value;
      RowConcat(h, chain[..leafstart], hashes.value, depthHigher);
      return Ok(ret + vec.value);
    }

    /** Cache::branchAndRoot gives the plain answer for the first `len` block ids of the current chain. */
    method BranchAndRootFor(chain: Chain, len: nat, index: nat) returns (r: Result<BranchAndRoot>)
      requires Agrees(chain)
      modifies this`length, this`level
      ensures Agrees(chain)
      ensures GetView() == AfterQuery(old(GetView()), chain, len, index)
      ensures r == Answer(h, old(GetView()), chain, len, index)
      ensures AnswerMeans(h, old(GetView()), chain, len, index, r)
    {
      hide Row, Branch, Shr, Shl, Pow2, Aligned, CeilShr, Plain, FromLevel, BranchLength, AnswerMeans;
      AnswerSpelledOut(h, GetView(), chain, len, index);
      if len == 0 {
        return Err(BadArgs);
      }
      if index >= len {
        return Err(BadArgs);
      }
      if !initialized {
        return Err(InternalError);
      }
      var ext := ExtendTo(chain, len);
      if ext.Err? {
        return Err(ext.error);
      }
      if len > length {
        return Err(InternalError);
      }
      var ls := LeafStart(index, depthHigher);
      var count := Min(Pow2(depthHigher), len - ls);
      var leafHashes := GetHashes(chain, ls, count);
      if leafHashes.Err? {
        return Err(InternalError);
      }
      if len < Pow2(depthHigher) {
        SmallLeafStart(index, depthHigher);
        NotAlignedBelowSegment(len, depthHigher);
        assert chain[0..len] == chain[..len];
        r := ComputeBranchAndRoot(h, leafHashes.value, index, None);
        return;
      }
      var lv := LevelFor(chain, len);
      if lv.Err? {
        return Err(lv.error);
      }
      SliceOfPrefix(chain, len, ls, ls + count);
      r := ComputeFromLevel(h, lv.value, leafHashes.value, index, depthHigher);
      FromLevelIsPlain(h, chain[..len], index, depthHigher);
      WideEnough(len, depthHigher);
    }

    /** Cache::truncate: forget everything from the segment of leaf `len` on. */
    method Truncate(chain: Chain, len: nat) returns (r: Result<()>)
      requires Agrees(chain)
      modifies this`length, this`level
      ensures Agrees(chain)
      ensures GetView() == AfterTruncate(old(GetView()), len)
      ensures initialized && 0 < len < old(length) ==> length <= len < length + Pow2(depthHigher) && length % Pow2(depthHigher) == 0
      ensures !(initialized && 0 < len < old(length)) ==> length == old(length)
      ensures r == if initialized && len == 0 then Err(BadArgs) else Ok(())
    {
      hide Row, Shr, Shl, Pow2, Aligned, CeilShr;
      if !initialized {
        return Ok(());
      }
      if len == 0 {
        return Err(BadArgs);
      }
      if length <= len {
        return Ok(());
      }
      var l := LeafStart(len, depthHigher);
      var limit := Shr(l, depthHigher);
      LeafStartAligned(len, depthHigher);
      AlignedMeans(l, depthHigher);
      RowCut(h, chain[..length], len, depthHigher);
      assert chain[..length][..l] == chain[..l];
      length := l;
      if limit > |level| {
        limit := |level|;
      }
      level := level[..limit];
      return Ok(());
    }
  }

  lemma {:induction false} SliceOfPrefix(s: seq<Hash>, n: nat, a: nat, b: nat)
    requires a <= b <= n <= |s|
    ensures s[..n][a..b] == s[a..b]
  {
  }

  lemma {:induction false} ShrZero(d: nat)
    ensures Shr(0, d) == 0
  {
  }

  lemma {:induction false} SmallLeafStart(i: nat, d: nat)
    requires i < Pow2(d)
    ensures LeafStart(i, d) == 0
  {
    SmallShr(i, d);
    ShlZero(d);
  }

  lemma {:induction false} NotAlignedBelowSegment(n: nat, d: nat)
    requires 0 < n < Pow2(d)
    ensures !Aligned(n, d)
  {
    SmallLeafStart(n, d);
    AlignDown(n, d);
  }

  lemma {:induction false} WideEnough(n: nat, d: nat)
    requires n >= Pow2(d)
    ensures d == 0 || n > Pow2(d - 1)
  {
  }

  // ----- whole runs

  /** What can happen to the cache and to the header store behind it. */
  datatype Event =
    | Grow(ids: seq<Hash>)                  // blocks are appended
    | Reorg(keep: nat, ids: seq<Hash>)      // truncate(keep), then the chain is replaced above it
    | InitializeCount(count: nat)
    | InitializeVector(count: nat)
    | Query(length: nat, index: nat)

  function Append(chain: Chain, ids: seq<Hash>): Chain {
    if |chain| + |ids| < 0x8000_0000 then chain + ids else chain
  }

  function NextChain(chain: Chain, e: Event): Chain {
    match e
    case Grow(ids) => Append(chain, ids)
    case Reorg(keep, ids) => if 0 < keep <= |chain| then Append(chain[..keep], ids) else chain
    case _ => chain
  }

  function NextView(v: View, chain: Chain, e: Event): View {
    match e
    case Grow(_) => v
    case Reorg(keep, _) => if 0 < keep <= |chain| then AfterTruncate(v, keep) else v
    case InitializeCount(n) => if 0 < n <= |chain| then AfterInitialize(v, n) else v
    case InitializeVector(n) => if n <= |chain| then AfterInitialize(v, n) else v
    case Query(l, i) => AfterQuery(v, chain, l, i)
  }

  /** The answers of a run, each from a plain computation over the chain of that moment. */
  ghost function Answers(h: HashTwo, v: View, chain: Chain, events: seq<Event>): seq<Result<BranchAndRoot>>
    decreases |events|
  {
    if events == [] then []
    else
      var e := events[0];
      var rest := Answers(h, NextView(v, chain, e), NextChain(chain, e), events[1..]);
      if e.Query? then [Answer(h, v, chain, e.length, e.index)] + rest else rest
  }

  /** One event, applied to a cache that agrees with the chain. */
  method Apply(cache: Cache, chain: Chain, e: Event) returns (chain': Chain, answers: seq<Result<BranchAndRoot>>)
    requires cache.Agrees(chain)
    modifies cache
    ensures chain' == NextChain(chain, e)
    ensures cache.Agrees(chain') && cache.GetView() == NextView(old(cache.GetView()), chain, e)
    ensures answers == if e.Query? then [Answer(cache.h, old(cache.GetView()), chain, e.length, e.index)] else []
  {
    hide Row, LeafStart, Answer, TreeDepth;
    chain', answers := NextChain(chain, e), [];
    match e {
      case Grow(ids) =>
        assert chain'[..cache.length] == chain[..cache.length];
      case Reorg(keep, ids) =>
        if 0 < keep <= |chain| {
          var _ := cache.Truncate(chain, keep);
          assert chain'[..cache.length] == chain[..cache.length];
        }
      case InitializeCount(n) =>
        var _ := cache.Initialize(chain, n);
      case InitializeVector(n) =>
        if n <= |chain| {
          var _ := cache.InitializeFrom(chain, chain[..n]);
        }
      case Query(l, i) =>
        var a := cache.BranchAndRootFor(chain, l, i);
        answers := [a];
    }
  }

  /** Over every run from a new cache, every answer is the plain one for the chain of that moment. */
  method Replay(h: HashTwo, start: Chain, events: seq<Event>) returns (answers: seq<Result<BranchAndRoot>>)
    ensures answers == Answers(h, View(false, 0, 0), start, events)
  {
    hide Answer, NextChain, NextView;
    var cache := new Cache(h);
    var chain := start;
    answers := [];
    for i := 0 to |events|
      invariant fresh(cache) && cache.h == h && cache.Agrees(chain)
      invariant answers + Answers(h, cache.GetView(), chain, events[i..]) == Answers(h, View(false, 0, 0), start, events)
    {
      ghost var before := Answers(h, cache.GetView(), chain, events[i..]);
      var out;
      chain, out := Apply(cache, chain, events[i]);
      assert events[i..][1..] == events[i + 1..];
      assert before == out + Answers(h, cache.GetView(), chain, events[i + 1..]);
      answers := answers + out;
    }
  }

  /** The boundary error is real: after initialising with four block ids, the first two cannot be
      queried, though the plain computation answers. */
  lemma {:induction false} BoundaryQueryFails(h: HashTwo, chain: Chain)
    requires |chain| == 4
    ensures var v := AfterInitialize(View(false, 0, 0), 4);
            && Answer(h, v, chain, 2, 0) == Err(InternalError)
            && Answer(h, v, chain, 4, 0).Ok? && Answer(h, v, chain, 3, 0).Ok?
            && Plain(h, chain[..2], 0, None).Ok?
  {
    assert BranchLength(4) == 2 by { assert Pow2(1) == 2 && Pow2(2) == 4; BranchLengthUnique(4, 2); }
    assert Shr(2, 0) == 2 && Shr(3, 0) == 3;
    assert Aligned(2, 1) && !Aligned(3, 1);
  }
}
