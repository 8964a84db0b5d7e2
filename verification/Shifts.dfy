/** Shifts and powers of two on natural numbers, as the Merkle code uses them. */
module Shifts {
  import opened Division

  function Pow2(d: nat): (p: nat)
    ensures p >= 1
  {
    if d == 0 then 1 else 2 * Pow2(d - 1)
  }

  /** Merkle::branchLength, the ceiling of log2: the least k with 2^k >= count. */
  function BranchLength(count: nat): (k: nat)
    ensures count <= Pow2(k)
    ensures k > 0 ==> Pow2(k - 1) < count
  {
    if count <= 1 then 0 else
      var k := 1 + BranchLength((count + 1) / 2);
      assert k > 1 ==> Pow2(k - 1) == 2 * Pow2(k - 2);
      k
  }

  function TreeDepth(count: nat): (k: nat)
    ensures k >= 1
  {
    BranchLength(count) + 1
  }

  /** n >> d */
  function Shr(n: nat, d: nat): (r: nat)
    ensures r <= n
  {
    if d == 0 then n else Shr(n, d - 1) / 2
  }

  /** n << d */
  function Shl(n: nat, d: nat): (r: nat)
    ensures n <= r
  {
    if d == 0 then n else 2 * Shl(n, d - 1)
  }

  /** The number of segments of 2^d that cover n items. */
  ghost function CeilShr(n: nat, d: nat): (r: nat)
    ensures n > 0 ==> r > 0
  {
    if d == 0 then n else (CeilShr(n, d - 1) + 1) / 2
  }

  /** n is a multiple of 2^d. */
  ghost predicate Aligned(n: nat, d: nat) {
    d > 0 ==> Aligned(n, d - 1) && Shr(n, d - 1) % 2 == 0
  }

  lemma {:induction false} Pow2Monotone(a: nat, b: nat)
    requires a <= b
    ensures Pow2(a) <= Pow2(b)
    decreases b
  {
    if a < b { Pow2Monotone(a, b - 1); }
  }

  lemma {:induction false} ShlScale(n: nat, d: nat)
    ensures Shl(2 * n, d) == 2 * Shl(n, d)
    ensures Shl(n + 1, d) == Shl(n, d) + Pow2(d)
  {
    if d > 0 { ShlScale(n, d - 1); }
  }

  /** (n >> d) << d clears the low d bits. */
  lemma {:induction false} AlignDown(n: nat, d: nat)
    ensures Shl(Shr(n, d), d) <= n < Shl(Shr(n, d), d) + Pow2(d)
    ensures Aligned(n, d) <==> Shl(Shr(n, d), d) == n
  {
    if d > 0 {
      AlignDown(n, d - 1);
      var k := Shr(n, d - 1);
      ShlScale(k / 2, d - 1);
      ShlScale(2 * (k / 2), d - 1);
      assert k == 2 * (k / 2) || k == 2 * (k / 2) + 1;
    }
  }

  lemma {:induction false} ShlTimes(n: nat, d: nat)
    ensures Shl(n, d) == n * Pow2(d)
  {
    if d > 0 { ShlTimes(n, d - 1); }
  }

  lemma {:induction false} AlignedMeans(n: nat, d: nat)
    ensures Aligned(n, d) <==> n % Pow2(d) == 0
    ensures n == Shl(Shr(n, d), d) + n % Pow2(d)
  {
    AlignDown(n, d);
    ShlTimes(Shr(n, d), d);
    DivModUnique(n, Pow2(d), Shr(n, d), n - Shl(Shr(n, d), d));
  }

  lemma {:induction false} ShrOfShl(n: nat, d: nat)
    ensures Shr(Shl(n, d), d) == n
    ensures Aligned(Shl(n, d), d)
    decreases d
  {
    if d > 0 {
      ShlScale(n, d - 1);
      ShrOfShl(2 * n, d - 1);
    }
  }

  lemma {:induction false} ShrCompose(n: nat, a: nat, b: nat)
    ensures Shr(Shr(n, a), b) == Shr(n, a + b)
    ensures CeilShr(CeilShr(n, a), b) == CeilShr(n, a + b)
  {
    if b > 0 {
      ShrCompose(n, a, b - 1);
      assert a + b - 1 == a + (b - 1);
    }
  }

  lemma {:induction false} ShrBelowCeil(i: nat, n: nat, d: nat)
    requires i < n
    ensures Shr(i, d) < CeilShr(n, d)
  {
    if d > 0 { ShrBelowCeil(i, n, d - 1); }
  }

  lemma {:induction false} AlignedCeil(n: nat, d: nat)
    requires Aligned(n, d)
    ensures CeilShr(n, d) == Shr(n, d)
  {
    if d > 0 { AlignedCeil(n, d - 1); }
  }

  lemma {:induction false} AlignedBelow(n: nat, c: nat, d: nat)
    requires Aligned(n, d) && c <= d
    ensures Aligned(n, c)
    decreases d
  {
    if c < d { AlignedBelow(n, c, d - 1); }
  }

  /** Below an aligned offset the shift of a sum is the sum of the shifts. */
  lemma {:induction false} AlignedShr(n: nat, k: nat, d: nat)
    requires Aligned(n, d)
    ensures Shr(n + k, d) == Shr(n, d) + Shr(k, d)
    ensures CeilShr(n + k, d) == Shr(n, d) + CeilShr(k, d)
  {
    if d > 0 { AlignedShr(n, k, d - 1); }
  }

  lemma {:induction false} SmallShr(n: nat, d: nat)
    ensures n < Pow2(d) ==> Shr(n, d) == 0
    ensures n >= Pow2(d) ==> Shr(n, d) > 0
  {
    AlignDown(n, d);
    if Shr(n, d) > 0 {
      ShlScale(Shr(n, d) - 1, d);
    } else {
      ShlZero(d);
    }
  }

  lemma ShlZero(d: nat)
    ensures Shl(0, d) == 0
  {
    if d > 0 { ShlZero(d - 1); }
  }

  /** n items fit 2^(d+e) leaves exactly when their segments of 2^d fit 2^e. */
  lemma {:induction false} CeilBound(n: nat, d: nat, e: nat)
    ensures n <= Pow2(d + e) <==> CeilShr(n, d) <= Pow2(e)
    decreases d
  {
    if d > 0 {
      CeilBound(n, d - 1, e + 1);
      assert (d - 1) + (e + 1) == d + e;
      assert Pow2(e + 1) == 2 * Pow2(e);
    }
  }

  lemma {:induction false} BranchLengthUnique(n: nat, k: nat)
    requires n <= Pow2(k) && (k > 0 ==> Pow2(k - 1) < n)
    ensures BranchLength(n) == k
  {
    var b := BranchLength(n);
    if b < k { Pow2Monotone(b, k - 1); }
    if k < b { Pow2Monotone(k, b - 1); }
  }

  lemma {:induction false} BranchLengthAtMost(n: nat, k: nat)
    requires n <= Pow2(k)
    ensures BranchLength(n) <= k
  {
    var b := BranchLength(n);
    if k < b { Pow2Monotone(k, b - 1); }
  }

  /** The height of a tree is the height of its segments plus that of the row above them,
      exactly when the tree is more than half a segment wide. */
  lemma {:induction false} BranchLengthSplit(n: nat, d: nat)
    requires n > 0
    ensures BranchLength(n) == d + BranchLength(CeilShr(n, d)) <==> d == 0 || n > Pow2(d - 1)
    ensures BranchLength(n) <= d + BranchLength(CeilShr(n, d))
  {
    var k := BranchLength(CeilShr(n, d));
    CeilBound(n, d, k);
    BranchLengthAtMost(n, d + k);
    if d > 0 && n <= Pow2(d - 1) {
      BranchLengthAtMost(n, d - 1);
    } else {
      BranchLengthSplitWide(n, d, k);
    }
  }

  lemma {:induction false} BranchLengthSplitWide(n: nat, d: nat, k: nat)
    requires n > 0 && (d == 0 || n > Pow2(d - 1))
    requires k == BranchLength(CeilShr(n, d))
    ensures BranchLength(n) == d + k
  {
    CeilBound(n, d, k);
    if k > 0 {
      CeilBound(n, d, k - 1);
      assert d + (k - 1) == d + k - 1;
    }
    BranchLengthUnique(n, d + k);
  }

  lemma {:induction false} AlignedPow2(d: nat)
    ensures Aligned(Pow2(d), d)
  {
    ShlZero(d);
    ShlScale(0, d);
    ShrOfShl(1, d);
  }

  lemma {:induction false} Pow2Values()
    ensures Pow2(16) == 0x1_0000 && Pow2(28) == 0x1000_0000 && Pow2(31) == 0x8000_0000
  {
    assert Pow2(4) == 16;
    assert Pow2(8) == 256;
    assert Pow2(12) == 4096;
    assert Pow2(16) == 0x1_0000;
    assert Pow2(20) == 0x10_0000;
    assert Pow2(24) == 0x100_0000;
    assert Pow2(28) == 0x1000_0000;
    assert Pow2(31) == 0x8000_0000;
  }
}
