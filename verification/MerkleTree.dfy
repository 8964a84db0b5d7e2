/**
  Merkle trees over a row of hashes, as bitcoin pairs them: a row of odd length is padded
  with a copy of its last hash, then neighbours are hashed together.

  `Row` and `Branch` are the reference definitions; the methods are the loops of
  src/Merkle.cpp, proved against them.  The hash of two hashes is an arbitrary function.
*/
module MerkleTree {
  import opened Wrappers
  import opened Shifts

  /** A 32-byte hash. */
  type Hash(==, !new)

  /** SHA256d of the concatenation of two hashes. */
  type HashTwo = (Hash, Hash) -> Hash

  datatype BranchAndRoot = BranchAndRoot(branch: seq<Hash>, root: Hash)

  // ----- reference definitions

  /** The i-th node of the next row: the i-th pair, the last hash standing in for a missing one. */
  ghost function PairAt(h: HashTwo, s: seq<Hash>, i: nat): Hash
    requires 2 * i < |s|
  {
    h(s[2 * i], if 2 * i + 1 < |s| then s[2 * i + 1] else s[2 * i])
  }

  ghost function FirstPairs(h: HashTwo, s: seq<Hash>, n: nat): (r: seq<Hash>)
    requires n <= (|s| + 1) / 2
    ensures |r| == n
    ensures forall i :: 0 <= i < n ==> r[i] == PairAt(h, s, i)
  {
    if n == 0 then [] else FirstPairs(h, s, n - 1) + [PairAt(h, s, n - 1)]
  }

  /** One level up: pad to even length by repeating the last hash, then hash the pairs. */
  ghost function Up(h: HashTwo, s: seq<Hash>): (r: seq<Hash>)
    ensures |r| == (|s| + 1) / 2
    ensures forall i :: 0 <= i < |r| ==> r[i] == PairAt(h, s, i)
  {
    FirstPairs(h, s, (|s| + 1) / 2)
  }

  /** The row `d` levels above `s`. */
  ghost function Row(h: HashTwo, s: seq<Hash>, d: nat): (r: seq<Hash>)
    ensures s != [] ==> r != []
  {
    if d == 0 then s else Up(h, Row(h, s, d - 1))
  }

  /** The hash that `s[i]` is paired with. */
  ghost function Sibling(s: seq<Hash>, i: nat): Hash
    requires i < |s|
  {
    if i % 2 == 1 then s[i - 1] else if i + 1 < |s| then s[i + 1] else s[i]
  }

  /** The sibling of the ancestor of `s[i]` in row `j`. */
  ghost function SiblingAt(h: HashTwo, s: seq<Hash>, i: nat, j: nat): Hash
    requires i < |s|
  {
    RowIndex(h, s, i, j);
    Sibling(Row(h, s, j), Shr(i, j))
  }

  /** The siblings met on the way up from `s[i]`, over `n` levels. */
  ghost function Branch(h: HashTwo, s: seq<Hash>, i: nat, n: nat): (r: seq<Hash>)
    requires i < |s|
    ensures |r| == n
    ensures forall j :: 0 <= j < n ==> r[j] == SiblingAt(h, s, i, j)
  {
    if n == 0 then [] else Branch(h, s, i, n - 1) + [SiblingAt(h, s, i, n - 1)]
  }

  /** Hash a node with its sibling, on the side the low bit of its index says. */
  function FoldStep(h: HashTwo, node: Hash, i: nat, sibling: Hash): Hash {
    if i % 2 == 1 then h(sibling, node) else h(node, sibling)
  }

  /** What a client computes from a leaf, its index and its branch. */
  ghost function FoldBranch(h: HashTwo, leaf: Hash, i: nat, branch: seq<Hash>): Hash
    decreases |branch|
  {
    if branch == [] then leaf
    else
      var n := |branch| - 1;
      FoldStep(h, FoldBranch(h, leaf, i, branch[..n]), Shr(i, n), branch[n])
  }

  // ----- rows

  lemma {:induction false} RowLength(h: HashTwo, s: seq<Hash>, d: nat)
    ensures |Row(h, s, d)| == CeilShr(|s|, d)
  {
    if d > 0 { RowLength(h, s, d - 1); }
  }

  lemma {:induction false} RowIndex(h: HashTwo, s: seq<Hash>, i: nat, d: nat)
    requires i < |s|
    ensures Shr(i, d) < |Row(h, s, d)|
  {
    RowLength(h, s, d);
    ShrBelowCeil(i, |s|, d);
  }

  lemma {:induction false} UpConcat(h: HashTwo, a: seq<Hash>, b: seq<Hash>)
    requires |a| % 2 == 0
    ensures Up(h, a + b) == Up(h, a) + Up(h, b)
  {
    var l, r := Up(h, a + b), Up(h, a) + Up(h, b);
    assert |l| == |r|;
    forall i | 0 <= i < |l|
      ensures l[i] == r[i]
    {
      if i >= |a| / 2 {
        var j := i - |a| / 2;
        assert r[i] == Up(h, b)[j];
        assert (a + b)[2 * i] == b[2 * j];
      }
    }
  }

  lemma {:induction false} AlignedRow(h: HashTwo, s: seq<Hash>, d: nat)
    requires Aligned(|s|, d)
    ensures |Row(h, s, d)| == Shr(|s|, d)
  {
    RowLength(h, s, d);
    AlignedCeil(|s|, d);
  }

  /** Rows of a concatenation, when the left part fills whole subtrees. */
  lemma {:induction false} RowConcat(h: HashTwo, a: seq<Hash>, b: seq<Hash>, d: nat)
    requires Aligned(|a|, d)
    ensures Row(h, a + b, d) == Row(h, a, d) + Row(h, b, d)
  {
    if d > 0 {
      RowConcat(h, a, b, d - 1);
      AlignedRow(h, a, d - 1);
      UpConcat(h, Row(h, a, d - 1), Row(h, b, d - 1));
    }
  }

  /** Going up `a` levels and then `b` more. */
  lemma {:induction false} RowCompose(h: HashTwo, s: seq<Hash>, a: nat, b: nat)
    ensures Row(h, s, a + b) == Row(h, Row(h, s, a), b)
  {
    if b > 0 {
      RowCompose(h, s, a, b - 1);
      assert a + b - 1 == a + (b - 1);
    }
  }

  // ----- branches

  /** A branch is the part below an inner row followed by the part above it. */
  lemma {:induction false} BranchCompose(h: HashTwo, s: seq<Hash>, i: nat, a: nat, b: nat)
    requires i < |s|
    ensures Shr(i, a) < |Row(h, s, a)|
    ensures Branch(h, s, i, a + b) == Branch(h, s, i, a) + Branch(h, Row(h, s, a), Shr(i, a), b)
  {
    RowIndex(h, s, i, a);
    var row, k := Row(h, s, a), Shr(i, a);
    forall j | 0 <= j < b
      ensures SiblingAt(h, s, i, a + j) == SiblingAt(h, row, k, j)
    {
      RowCompose(h, s, a, j);
      ShrCompose(i, a, j);
    }
    var l, r := Branch(h, s, i, a + b), Branch(h, s, i, a) + Branch(h, row, k, b);
    forall j | 0 <= j < a + b
      ensures l[j] == r[j]
    {
      if j >= a { assert l[j] == SiblingAt(h, s, i, a + (j - a)); }
    }
  }

  /** Hashing a node with its sibling gives its parent. */
  lemma {:induction false} ParentOf(h: HashTwo, s: seq<Hash>, i: nat)
    requires i < |s|
    ensures FoldStep(h, s[i], i, Sibling(s, i)) == Up(h, s)[i / 2]
  {
    assert Up(h, s)[i / 2] == PairAt(h, s, i / 2);
  }

  lemma {:induction false} SiblingConcat(a: seq<Hash>, b: seq<Hash>, c: seq<Hash>, k: nat)
    requires |a| % 2 == 0 && k < |b|
    requires c == [] || |b| % 2 == 0
    ensures Sibling(a + (b + c), |a| + k) == Sibling(b, k)
  {
    assert (|a| + k) % 2 == k % 2;
  }

  /** Padding a row to even length changes neither the siblings nor the next row. */
  lemma {:induction false} PadFacts(h: HashTwo, s: seq<Hash>, i: nat)
    requires i < |s| && |s| % 2 == 1
    ensures var p := s + [s[|s| - 1]];
            && Sibling(p, i) == Sibling(s, i)
            && Up(h, p) == Up(h, s)
  {
    var p := s + [s[|s| - 1]];
    forall j | 0 <= j < |Up(h, s)|
      ensures Up(h, p)[j] == Up(h, s)[j]
    {
      assert PairAt(h, p, j) == PairAt(h, s, j);
    }
  }

  lemma {:induction false} SiblingIs(h: HashTwo, s: seq<Hash>, i: nat, j: nat)
    requires i < |s|
    ensures Shr(i, j) < |Row(h, s, j)| && SiblingAt(h, s, i, j) == Sibling(Row(h, s, j), Shr(i, j))
  {
    RowIndex(h, s, i, j);
  }

  lemma {:induction false} EvenRow(h: HashTwo, s: seq<Hash>, j: nat)
    requires Aligned(|s|, j + 1)
    ensures Aligned(|s|, j) && |Row(h, s, j)| == Shr(|s|, j) && |Row(h, s, j)| % 2 == 0
  {
    hide Row;
    AlignedRow(h, s, j);
  }

  /** The row over three stretches of leaves, the first filling whole pairs of subtrees, and the second too
      if there is a third. */
  lemma {:induction false} RowOfThree(h: HashTwo, a: seq<Hash>, b: seq<Hash>, c: seq<Hash>, j: nat) returns (rest: seq<Hash>)
    requires Aligned(|a|, j + 1) && (c == [] || Aligned(|b|, j + 1))
    ensures Row(h, a + b + c, j) == Row(h, a, j) + (Row(h, b, j) + rest)
    ensures |Row(h, a, j)| == Shr(|a|, j) && |Row(h, a, j)| % 2 == 0
    ensures rest == [] || |Row(h, b, j)| % 2 == 0
  {
    hide Row, Aligned;
    EvenRow(h, a, j);
    assert a + b + c == a + (b + c);
    RowConcat(h, a, b + c, j);
    if c == [] {
      rest := [];
      assert b + c == b && Row(h, b, j) + [] == Row(h, b, j);
    } else {
      rest := Row(h, c, j);
      EvenRow(h, b, j);
      RowConcat(h, b, c, j);
    }
  }

  lemma {:induction false} SiblingInRow(h: HashTwo, a: seq<Hash>, b: seq<Hash>, c: seq<Hash>, j: nat, k: nat)
    requires Aligned(|a|, j + 1) && (c == [] || Aligned(|b|, j + 1)) && k < |Row(h, b, j)|
    ensures Shr(|a|, j) + k < |Row(h, a + b + c, j)|
    ensures Sibling(Row(h, a + b + c, j), Shr(|a|, j) + k) == Sibling(Row(h, b, j), k)
  {
    hide Row, Aligned, Shr;
    var rest := RowOfThree(h, a, b, c, j);
    SiblingConcat(Row(h, a, j), Row(h, b, j), rest, k);
  }

  /** In every row below d, a leaf's ancestor has the sibling it has in the leaf's own segment `b`. */
  lemma {:induction false} SiblingInSegment(h: HashTwo, a: seq<Hash>, b: seq<Hash>, c: seq<Hash>, k: nat, j: nat)
    requires Aligned(|a|, j + 1)
    requires k < |b|
    requires c == [] || Aligned(|b|, j + 1)
    ensures SiblingAt(h, a + b + c, |a| + k, j) == SiblingAt(h, b, k, j)
  {
    hide Aligned, Shr, Row, Sibling, SiblingAt;
    ShrAfterAligned(|a|, k, j);
    SiblingIs(h, a + b + c, |a| + k, j);
    SiblingIs(h, b, k, j);
    SiblingInRow(h, a, b, c, j, Shr(k, j));
  }

  lemma {:induction false} ShrAfterAligned(n: nat, k: nat, j: nat)
    requires Aligned(n, j + 1)
    ensures Shr(n + k, j) == Shr(n, j) + Shr(k, j)
  {
    AlignedShr(n, k, j);
  }

  /** The part of a branch below row d depends only on the leaf's own segment `b`. */
  lemma {:induction false} BranchInSegment(h: HashTwo, a: seq<Hash>, b: seq<Hash>, c: seq<Hash>, k: nat, d: nat)
    requires Aligned(|a|, d)
    requires k < |b|
    requires c == [] || Aligned(|b|, d)
    ensures Branch(h, a + b + c, |a| + k, d) == Branch(h, b, k, d)
  {
    forall j | 0 <= j < d
      ensures SiblingAt(h, a + b + c, |a| + k, j) == SiblingAt(h, b, k, j)
    {
      AlignedBelow(|a|, j + 1, d);
      if c != [] { AlignedBelow(|b|, j + 1, d); }
      SiblingInSegment(h, a, b, c, k, j);
    }
  }

  lemma {:induction false} FoldRowStep(h: HashTwo, s: seq<Hash>, i: nat, n: nat)
    requires i < |s| && Shr(i, n) < |Row(h, s, n)|
    requires FoldBranch(h, s[i], i, Branch(h, s, i, n)) == Row(h, s, n)[Shr(i, n)]
    ensures Shr(i, n + 1) < |Row(h, s, n + 1)|
    ensures FoldBranch(h, s[i], i, Branch(h, s, i, n + 1)) == Row(h, s, n + 1)[Shr(i, n + 1)]
  {
    RowIndex(h, s, i, n + 1);
    var b := Branch(h, s, i, n + 1);
    assert b[..n] == Branch(h, s, i, n);
    ParentOf(h, Row(h, s, n), Shr(i, n));
  }

  /** Folding a leaf with its branch climbs to the leaf's ancestor in row n. */
  lemma {:induction false} FoldReachesRow(h: HashTwo, s: seq<Hash>, i: nat, n: nat)
    requires i < |s|
    ensures Shr(i, n) < |Row(h, s, n)|
    ensures FoldBranch(h, s[i], i, Branch(h, s, i, n)) == Row(h, s, n)[Shr(i, n)]
  {
    for j := 0 to n
      invariant Shr(i, j) < |Row(h, s, j)|
      invariant FoldBranch(h, s[i], i, Branch(h, s, i, j)) == Row(h, s, j)[Shr(i, j)]
    {
      FoldRowStep(h, s, i, j);
    }
  }

  // ----- the answer of a plain computation

  /** (branch, root) of leaf `index` of `s`, with the natural branch length unless one is given. */
  ghost function Plain(h: HashTwo, s: seq<Hash>, index: nat, optLen: Option<nat>): (r: Result<BranchAndRoot>)
  {
    var natLen := BranchLength(|s|);
    var length := if optLen.Some? then optLen.value else natLen;
    if index >= |s| || length < natLen then Err(BadArgs)
    else Ok(BranchAndRoot(Branch(h, s, index, length), Row(h, s, length)[0]))
  }

  /** Every branch a plain computation returns proves its leaf: it folds to the root. */
  lemma {:induction false} BranchProvesLeaf(h: HashTwo, s: seq<Hash>, index: nat, optLen: Option<nat>)
    requires Plain(h, s, index, optLen).Ok?
    ensures var r := Plain(h, s, index, optLen).value;
            FoldBranch(h, s[index], index, r.branch) == r.root
  {
    var n := if optLen.Some? then optLen.value else BranchLength(|s|);
    Pow2Monotone(BranchLength(|s|), n);
    FoldReachesRow(h, s, index, n);
    SmallShr(index, n);
  }

  /** The tree over three leaves, from the middle one. */
  lemma {:induction false} ThreeLeaves(h: HashTwo, a: Hash, b: Hash, c: Hash)
    ensures Plain(h, [a, b, c], 1, None) == Ok(BranchAndRoot([a, h(c, c)], h(h(a, b), h(c, c))))
  {
    var s := [a, b, c];
    assert BranchLength(3) == 2 by { assert Pow2(1) == 2 && Pow2(2) == 4; BranchLengthUnique(3, 2); }
    assert Row(h, s, 1) == [h(a, b), h(c, c)];
    assert Row(h, s, 2) == [h(h(a, b), h(c, c))];
    assert Branch(h, s, 1, 1) == [a];
    assert Branch(h, s, 1, 2) == [a, h(c, c)];
  }

  /** Merkle::branchAndRoot: halve a working row `length` times, noting the sibling each time. */
  method ComputeBranchAndRoot(h: HashTwo, hashVec: seq<Hash>, index: nat, optLen: Option<nat>)
    returns (r: Result<BranchAndRoot>)
    ensures r == Plain(h, hashVec, index, optLen)
  {
    if |hashVec| == 0 || index >= |hashVec| {
      return Err(BadArgs);
    }
    var natLen := BranchLength(|hashVec|);
    var length := if optLen.Some? then optLen.value else natLen;
    if length < natLen {
      return Err(BadArgs);
    }
    var branch, hashes := Climb(h, hashVec, index, length);
    return Ok(BranchAndRoot(branch, hashes[0]));
  }

  /** The loop of branchAndRoot: after `length` turns the working row is `Row` and the notes are `Branch`. */
  method Climb(h: HashTwo, hashVec: seq<Hash>, index: nat, length: nat)
    returns (branch: seq<Hash>, hashes: seq<Hash>)
    requires index < |hashVec|
    ensures branch == Branch(h, hashVec, index, length)
    ensures hashes == Row(h, hashVec, length)
  {
    branch, hashes := [], hashVec;
    var idx := index;
    for i := 0 to length
      invariant hashes == Row(h, hashVec, i)
      invariant idx == Shr(index, i)
      invariant branch == Branch(h, hashVec, index, i)
    {
      RowIndex(h, hashVec, index, i);
      var sibling;
      sibling, hashes := ClimbOne(h, hashes, idx);
      branch := branch + [sibling];
      idx := idx / 2;
    }
  }

  /** One turn of the loop: pad, note the sibling, pair up. */
  method ClimbOne(h: HashTwo, row: seq<Hash>, idx: nat) returns (sibling: Hash, next: seq<Hash>)
    requires idx < |row|
    ensures sibling == Sibling(row, idx)
    ensures next == Up(h, row)
  {
    var hashes := row;
    if |hashes| % 2 == 1 {
      PadFacts(h, hashes, idx);
      hashes := hashes + [hashes[|hashes| - 1]];
    }
    sibling := hashes[if idx % 2 == 1 then idx - 1 else idx + 1];
    next := RecomputeHashes(h, hashes);
  }

  /** One round of pairing on a row of even length. */
  method RecomputeHashes(h: HashTwo, hashes: seq<Hash>) returns (hv: seq<Hash>)
    requires |hashes| % 2 == 0
    ensures hv == Up(h, hashes)
  {
    hv := [];
    var i := 0;
    while i < |hashes|
      invariant 0 <= i <= |hashes| && i % 2 == 0
      invariant hv == Up(h, hashes)[..i / 2]
    {
      hv := hv + [h(hashes[i], hashes[i + 1])];
      i := i + 2;
    }
  }

  /** calculateRootFromMerkleBranch: the verifier's loop computes the fold. */
  method CalculateRootFromBranch(h: HashTwo, leaf: Hash, index: nat, branch: seq<Hash>) returns (root: Hash)
    ensures root == FoldBranch(h, leaf, index, branch)
  {
    root := leaf;
    var idx := index;
    for i := 0 to |branch|
      invariant idx == Shr(index, i)
      invariant root == FoldBranch(h, leaf, index, branch[..i])
    {
      root := FoldStep(h, root, idx, branch[i]);
      idx := idx / 2;
      assert branch[..i + 1][..i] == branch[..i];
    }
    assert branch[..|branch|] == branch;
  }
}
