/**
  A cached middle row of a Merkle tree: Merkle::level builds it from segments of 2^d leaves and
  Merkle::branchAndRootFromLevel answers from it, reading only one segment of leaves.
*/
module MerkleLevel {
  import opened Extremes
  import opened Wrappers
  import opened Shifts
  import opened MerkleTree

  const MAX_DEPTH := 28

  /** The first leaf of the segment that leaf `i` is in. */
  function LeafStart(i: nat, d: nat): (r: nat)
    ensures r <= i < r + Pow2(d)
  {
    AlignDown(i, d);
    Shl(Shr(i, d), d)
  }

  /** The leaves of the segment that leaf `i` is in. */
  ghost function Segment(s: seq<Hash>, i: nat, d: nat): (r: seq<Hash>)
    requires i < |s|
  {
    s[LeafStart(i, d)..Min(LeafStart(i, d) + Pow2(d), |s|)]
  }

  lemma {:induction false} LeafStartAligned(i: nat, d: nat)
    ensures Aligned(LeafStart(i, d), d)
    ensures Shr(LeafStart(i, d), d) == Shr(i, d)
  {
    ShrOfShl(Shr(i, d), d);
  }

  lemma {:induction false} EmptyRow(h: HashTwo, d: nat)
    ensures Row(h, [], d) == []
  {
    if d > 0 { EmptyRow(h, d - 1); }
  }

  /** A row of at most one segment is a single node. */
  lemma {:induction false} SegmentRow(h: HashTwo, s: seq<Hash>, d: nat)
    requires 1 <= |s| <= Pow2(d)
    ensures |Row(h, s, d)| == 1
    ensures Plain(h, s, 0, Some(d)) == Ok(BranchAndRoot(Branch(h, s, 0, d), Row(h, s, d)[0]))
  {
    hide Row, Branch, CeilShr, BranchLength;
    RowLength(h, s, d);
    CeilBound(|s|, d, 0);
    BranchLengthAtMost(|s|, d);
  }

  /** Cutting a tree at leaf n: the whole segments before n keep their nodes, and the rest follows. */
  lemma {:induction false} RowCut(h: HashTwo, s: seq<Hash>, n: nat, d: nat)
    requires n <= |s|
    ensures Shr(n, d) <= |Row(h, s, d)|
    ensures Row(h, s, d)[..Shr(n, d)] == Row(h, s[..LeafStart(n, d)], d)
    ensures Row(h, s, d) == Row(h, s[..LeafStart(n, d)], d) + Row(h, s[LeafStart(n, d)..], d)
  {
    var k := LeafStart(n, d);
    LeafStartAligned(n, d);
    assert s == s[..k] + s[k..];
    RowConcat(h, s[..k], s[k..], d);
    AlignedRow(h, s[..k], d);
  }

  /** Merkle::level equals d rounds of pad-and-pair over the whole vector, short last segment or not. */
  method Level(h: HashTwo, hashes: seq<Hash>, depthHigher: nat) returns (r: Result<seq<Hash>>)
    ensures r == if depthHigher > MAX_DEPTH || hashes == [] then Err(BadArgs) else Ok(Row(h, hashes, depthHigher))
  {
    hide Row, Branch, Shr, Shl, Pow2, BranchLength;
    if depthHigher > MAX_DEPTH {
      return Err(BadArgs);
    }
    if |hashes| == 0 {
      return Err(BadArgs);
    }
    var size := Pow2(depthHigher);
    var ret: seq<Hash> := [];
    var i := 0;
    ghost var j := 0;
    EmptyRow(h, depthHigher);
    ShlZero(depthHigher);
    while i < |hashes|
      invariant i == Shl(j, depthHigher)
      invariant ret == Row(h, hashes[..Min(i, |hashes|)], depthHigher)
    {
      var endIndex := Min(i + size, |hashes|);
      LevelStep(h, hashes, j, depthHigher);
      var root := ComputeBranchAndRoot(h, hashes[i..endIndex], 0, Some(depthHigher));
      ret := ret + [root.value.root];
      i, j := i + size, j + 1;
    }
    assert hashes[..|hashes|] == hashes;
    return Ok(ret);
  }

  /** The j-th segment adds one node, its root, to the row. */
  lemma {:induction false} LevelStep(h: HashTwo, hashes: seq<Hash>, j: nat, d: nat)
    requires Shl(j, d) < |hashes|
    ensures Shl(j + 1, d) == Shl(j, d) + Pow2(d)
    ensures var i := Shl(j, d);
            var e := Min(i + Pow2(d), |hashes|);
            var r := Plain(h, hashes[i..e], 0, Some(d));
            r.Ok? && Row(h, hashes[..e], d) == Row(h, hashes[..i], d) + [r.value.root]
  {
    hide Row, Branch, Shr, Shl, Pow2, BranchLength, Plain;
    var i := Shl(j, d);
    var e := Min(i + Pow2(d), |hashes|);
    var segment := hashes[i..e];
    ShlScale(j, d);
    ShrOfShl(j, d);
    SegmentRow(h, segment, d);
    assert hashes[..e] == hashes[..i] + segment;
    RowConcat(h, hashes[..i], segment, d);
  }

  /** What branchAndRootFromLevel returns, argument checks included. */
  ghost function FromLevel(h: HashTwo, level: seq<Hash>, leafHashes: seq<Hash>, index: nat, d: nat)
    : (r: Result<BranchAndRoot>)
  {
    var lower := Plain(h, leafHashes, index - LeafStart(index, d), Some(d));
    var upper := Plain(h, level, Shr(index, d), None);
    if level == [] || leafHashes == [] || d > MAX_DEPTH then Err(BadArgs)
    else if lower.Err? then lower
    else if upper.Err? then upper
    else if lower.value.root != level[Shr(index, d)] then Err(InternalError)
    else Ok(BranchAndRoot(lower.value.branch + upper.value.branch, upper.value.root))
  }

  method ComputeFromLevel(h: HashTwo, level: seq<Hash>, leafHashes: seq<Hash>, index: nat, depthHigher: nat)
    returns (r: Result<BranchAndRoot>)
    ensures r == FromLevel(h, level, leafHashes, index, depthHigher)
  {
    if level == [] || leafHashes == [] || depthHigher > MAX_DEPTH {
      return Err(BadArgs);
    }
    var leafIndex := LeafStart(index, depthHigher);
    var leafPair := ComputeBranchAndRoot(h, leafHashes, index - leafIndex, Some(depthHigher));
    if leafPair.Err? {
      return leafPair;
    }
    var idx := Shr(index, depthHigher);
    var levelPair := ComputeBranchAndRoot(h, level, idx, None);
    if levelPair.Err? {
      return levelPair;
    }
    if leafPair.value.root != level[idx] {
      return Err(InternalError);
    }
    return Ok(BranchAndRoot(leafPair.value.branch + levelPair.value.branch, levelPair.value.root));
  }

  /** Leaf i's segment b, with what lies before (a) and after it (c). */
  lemma {:induction false} SplitAt(s: seq<Hash>, i: nat, d: nat) returns (a: seq<Hash>, b: seq<Hash>, c: seq<Hash>)
    requires i < |s|
    ensures s == a + b + c && b == Segment(s, i, d) && |a| == LeafStart(i, d)
    ensures Aligned(|a|, d) && Shr(|a|, d) == Shr(i, d)
    ensures i - |a| < |b| <= Pow2(d)
    ensures c == [] || Aligned(|b|, d)
  {
    var k := LeafStart(i, d);
    var e := Min(k + Pow2(d), |s|);
    a, b, c := s[..k], s[k..e], s[e..];
    LeafStartAligned(i, d);
    AlignedPow2(d);
    if c != [] { assert |b| == Pow2(d); }
  }

  lemma {:induction false} SegmentNode(h: HashTwo, a: seq<Hash>, b: seq<Hash>, c: seq<Hash>, d: nat)
    requires Aligned(|a|, d) && 1 <= |b| <= Pow2(d)
    requires c == [] || Aligned(|b|, d)
    ensures |Row(h, b, d)| == 1 && Shr(|a|, d) < |Row(h, a + b + c, d)|
    ensures Row(h, b, d)[0] == Row(h, a + b + c, d)[Shr(|a|, d)]
  {
    SegmentRow(h, b, d);
    assert a + b + c == a + (b + c);
    RowConcat(h, a, b + c, d);
    AlignedRow(h, a, d);
    if c == [] {
      assert b + c == b;
    } else {
      RowConcat(h, b, c, d);
    }
  }

  /** A segment's node in row d, and the lower part of a branch, come from the segment alone. */
  lemma {:induction false} SegmentFacts(h: HashTwo, s: seq<Hash>, i: nat, d: nat)
    requires i < |s|
    ensures i - LeafStart(i, d) < |Segment(s, i, d)| <= Pow2(d)
    ensures Shr(i, d) < |Row(h, s, d)|
    ensures |Row(h, Segment(s, i, d), d)| == 1
    ensures Row(h, Segment(s, i, d), d)[0] == Row(h, s, d)[Shr(i, d)]
    ensures Branch(h, Segment(s, i, d), i - LeafStart(i, d), d) == Branch(h, s, i, d)
  {
    hide Row, Branch, Shr, Pow2, Aligned;
    var a, b, c := SplitAt(s, i, d);
    var k := i - |a|;
    assert i == |a| + k;
    SegmentNode(h, a, b, c, d);
    BranchInSegment(h, a, b, c, k, d);
  }

  lemma {:induction false} FromLevelJoins(h: HashTwo, level: seq<Hash>, leafHashes: seq<Hash>, index: nat, d: nat,
                                          lower: BranchAndRoot, upper: BranchAndRoot)
    requires Plain(h, leafHashes, index - LeafStart(index, d), Some(d)) == Ok(lower)
    requires Plain(h, level, Shr(index, d), None) == Ok(upper)
    requires d <= MAX_DEPTH && lower.root == level[Shr(index, d)]
    ensures FromLevel(h, level, leafHashes, index, d) == Ok(BranchAndRoot(lower.branch + upper.branch, upper.root))
  {
  }

  lemma {:induction false} PlainOk(h: HashTwo, s: seq<Hash>, i: nat, optLen: Option<nat>, n: nat)
    requires i < |s| && BranchLength(|s|) <= n
    requires n == if optLen.Some? then optLen.value else BranchLength(|s|)
    ensures Plain(h, s, i, optLen) == Ok(BranchAndRoot(Branch(h, s, i, n), Row(h, s, n)[0]))
  {
  }

  /** Answering from the right row and segment never hits the consistency error, and gives the
      branch of d lower levels plus the natural height of the row. */
  lemma {:induction false} FromLevelAnswer(h: HashTwo, s: seq<Hash>, i: nat, d: nat, n: nat)
    requires i < |s| && d <= MAX_DEPTH && n == BranchLength(CeilShr(|s|, d))
    ensures FromLevel(h, Row(h, s, d), Segment(s, i, d), i, d)
         == Ok(BranchAndRoot(Branch(h, s, i, d + n), Row(h, s, d + n)[0]))
  {
    hide FromLevel, Plain, Branch, Row, BranchLength, CeilShr, Pow2, Shr, Segment;
    var row, seg, k := Row(h, s, d), Segment(s, i, d), i - LeafStart(i, d);
    SegmentFacts(h, s, i, d);
    RowLength(h, s, d);
    BranchLengthAtMost(|seg|, d);
    PlainOk(h, seg, k, Some(d), d);
    PlainOk(h, row, Shr(i, d), None, n);
    BranchCompose(h, s, i, d, n);
    RowCompose(h, s, d, n);
    FromLevelJoins(h, row, seg, i, d, BranchAndRoot(Branch(h, seg, k, d), Row(h, seg, d)[0]),
                   BranchAndRoot(Branch(h, row, Shr(i, d), n), Row(h, row, n)[0]));
  }

  /** ... which is the plain answer exactly when the tree is more than half a segment wide. */
  lemma {:induction false} FromLevelIsPlain(h: HashTwo, s: seq<Hash>, i: nat, d: nat)
    requires i < |s| && d <= MAX_DEPTH
    ensures FromLevel(h, Row(h, s, d), Segment(s, i, d), i, d) == Plain(h, s, i, None) <==> d == 0 || |s| > Pow2(d - 1)
  {
    hide FromLevel, Plain, Branch, Row, BranchLength, CeilShr, Pow2, Shr, Segment;
    var n := BranchLength(CeilShr(|s|, d));
    FromLevelAnswer(h, s, i, d, n);
    BranchLengthSplit(|s|, d);
    PlainOk(h, s, i, None, BranchLength(|s|));
    assert |Branch(h, s, i, d + n)| == d + n;
    assert |Branch(h, s, i, BranchLength(|s|))| == BranchLength(|s|);
  }
}
