/**
  Following the node's chain through reorganisations: the header link check (src/BTC.cpp), the part of
  storage that appends and undoes blocks (src/Storage.cpp), and the poll / download / undo loop
  (src/Controller.cpp), which is shown to end on the node's chain.
*/
module Reorg {
  import opened Wrappers

  type BlockId = nat

  /** What the synchroniser reads of a serialized header.  `id` is the proof-of-work hash. */
  datatype Header = BadSize | Header(id: BlockId, prev: BlockId, isNull: bool)

  predicate Good(h: Header) {
    h.Header? && !h.isNull
  }

  /** Headers that pass the link check one after the other. */
  predicate GoodChain(c: seq<Header>) {
    && (forall k :: 0 <= k < |c| ==> Good(c[k]))
    && (forall k {:trigger c[k].prev} :: 0 < k < |c| ==> c[k].prev == c[k - 1].id)
  }

  /** The block id is a hash without collisions among these headers. */
  ghost predicate NoCollisions(a: seq<Header>, b: seq<Header>) {
    forall x, y :: (x in a || x in b) && (y in a || y in b) && x.Header? && y.Header? && x.id == y.id ==> x == y
  }

  lemma {:induction false} SameId(a: seq<Header>, b: seq<Header>, k: nat)
    requires NoCollisions(a, b) && k < |a| && k < |b|
    requires a[k].Header? && b[k].Header? && a[k].id == b[k].id
    ensures a[k] == b[k]
  {
  }

  /** How many blocks two chains share from the genesis block on. */
  function Common(a: seq<Header>, b: seq<Header>): nat {
    if a == [] || b == [] || a[0] != b[0] then 0 else 1 + Common(a[1..], b[1..])
  }

  lemma {:induction false} CommonPrefix(a: seq<Header>, b: seq<Header>)
    ensures Common(a, b) <= |a| && Common(a, b) <= |b|
    ensures a[..Common(a, b)] == b[..Common(a, b)]
    ensures Common(a, b) < |a| && Common(a, b) < |b| ==> a[Common(a, b)] != b[Common(a, b)]
  {
    if a != [] && b != [] && a[0] == b[0] {
      CommonPrefix(a[1..], b[1..]);
      var n := Common(a[1..], b[1..]);
      assert a[..n + 1] == [a[0]] + a[1..][..n];
      assert b[..n + 1] == [b[0]] + b[1..][..n];
    }
  }

  lemma {:induction false} CommonAtLeast(a: seq<Header>, b: seq<Header>, n: nat)
    requires n <= |a| && n <= |b| && a[..n] == b[..n]
    ensures Common(a, b) >= n
  {
    if n > 0 {
      assert a[0] == a[..n][0] && b[0] == b[..n][0];
      assert a[1..][..n - 1] == a[..n][1..] && b[1..][..n - 1] == b[..n][1..];
      CommonAtLeast(a[1..], b[1..], n - 1);
    }
  }

  lemma {:induction false} CommonAtMost(a: seq<Header>, b: seq<Header>, n: nat)
    requires n < |a| && n < |b| && a[n] != b[n]
    ensures Common(a, b) <= n
  {
    if n > 0 && a[0] == b[0] { CommonAtMost(a[1..], b[1..], n - 1); }
  }

  /** Undoing a block that is not shared leaves the shared part. */
  lemma {:induction false} CommonOfPrefix(a: seq<Header>, b: seq<Header>, n: nat)
    requires Common(a, b) <= n <= |a|
    ensures Common(a[..n], b) == Common(a, b)
  {
    var c := Common(a, b);
    CommonPrefix(a, b);
    assert a[..n][..c] == a[..c];
    CommonAtLeast(a[..n], b, c);
    CommonPrefix(a[..n], b);
    var d := Common(a[..n], b);
    assert a[..n][..d] == a[..d];
    CommonAtLeast(a, b, d);
  }

  /** Equal ids at one height mean equal chains up to there: the link check pins down the past. */
  lemma {:induction false} SameIdSamePast(a: seq<Header>, b: seq<Header>, k: nat)
    requires GoodChain(a) && GoodChain(b) && NoCollisions(a, b)
    requires k < |a| && k < |b| && a[k].id == b[k].id
    ensures a[..k + 1] == b[..k + 1]
    decreases k
  {
    hide NoCollisions;
    SameId(a, b, k);
    if k > 0 {
      assert a[k].prev == a[k - 1].id && b[k].prev == b[k - 1].id;
      SameIdSamePast(a, b, k - 1);
      assert a[..k + 1] == a[..k] + [a[k]];
      assert b[..k + 1] == b[..k] + [b[k]];
    }
  }

  // ----- src/BTC.cpp

  class HeaderVerifier {
    var prev: Option<Header>
    var prevHeight: int

    constructor ()
      ensures prev == None && prevHeight == -1
    {
      prev, prevHeight := None, -1;
    }

    /** operator(): accept the header if it is well formed and links to the one before, if any. */
    method Check(header: Header) returns (ok: bool)
      modifies this
      ensures ok <==> Good(header) && (old(prev).Some? && old(prev).value.Header? ==> header.prev == old(prev).value.id)
      ensures ok ==> prev == Some(header) && prevHeight == old(prevHeight) + 1
      ensures !ok ==> prev == old(prev) && prevHeight == old(prevHeight)
    {
      if header.BadSize? { return false; }
      if header.isNull { return false; }
      if prev.Some? && prev.value.Header? && prev.value.id != header.prev { return false; }
      prevHeight := prevHeight + 1;
      prev := Some(header);
      return true;
    }

    /** reset */
    method Reset(nextHeight: nat, prevHeader: Header)
      modifies this
      ensures prev == Some(prevHeader) && prevHeight == nextHeight - 1
    {
      prevHeight := nextHeight - 1;
      prev := Some(prevHeader);
    }
  }

  // ----- src/Storage.cpp

  /** The header chain in the database, with the heights that undo information is kept for. */
  class Storage {
    const undoDepth: nat
    const verifier: HeaderVerifier
    var headers: seq<Header>
    var undo: set<nat>

    constructor (undoDepth: nat)
      ensures Valid() && headers == [] && undo == {} && this.undoDepth == undoDepth
      ensures fresh(verifier)
    {
      this.undoDepth := undoDepth;
      verifier := new HeaderVerifier();
      headers, undo := [], {};
    }

    /** The stored headers are one linked chain, and the verifier stands at its end. */
    ghost predicate Valid()
      reads this, verifier
    {
      && GoodChain(headers)
      && verifier.prevHeight == |headers| - 1
      && verifier.prev == (if headers == [] then None else Some(headers[|headers| - 1]))
      && (forall h :: h in undo ==> h < |headers|)
    }

    /** The last undoDepth blocks can be undone. */
    ghost predicate Covered()
      reads this
    {
      CoveredFrom(|headers| - undoDepth)
    }

    ghost predicate CoveredFrom(lo: int)
      reads this
    {
      Window(|headers|, undo, lo)
    }

    /** The header extends the stored chain. */
    ghost predicate Fits(h: Header)
      requires Valid()
      reads this, verifier
    {
      Good(h) && (headers != [] ==> h.prev == headers[|headers| - 1].id)
    }

    /** addBlock: fails exactly when the header does not extend the chain. */
    method AddBlock(h: Header, saveUndo: bool) returns (ok: bool)
      requires Valid()
      modifies this, verifier
      ensures Valid() && ok == old(Fits(h))
      ensures ok ==> headers == old(headers) + [h]
      ensures ok ==> undo == (if saveUndo then old(undo) + {|old(headers)|} else old(undo)) - Expired(|old(headers)|, undoDepth)
      ensures !ok ==> headers == old(headers) && undo == old(undo)
    {
      ok := verifier.Check(h);
      if !ok { return; }
      var height := |headers|;
      headers := headers + [h];
      if saveUndo { undo := undo + {height}; }
      undo := undo - Expired(height, undoDepth);
    }

    /** undoLatestBlock: takes the last block off, if it is not the genesis block and can be undone. */
    method UndoLatestBlock() returns (ok: bool)
      requires Valid()
      modifies this, verifier
      ensures Valid() && (ok <==> |old(headers)| > 1 && |old(headers)| - 1 in old(undo))
      ensures ok ==> headers == old(headers)[..|old(headers)| - 1] && undo == old(undo) - {|old(headers)| - 1}
      ensures !ok ==> headers == old(headers) && undo == old(undo)
    {
      var tip := verifier.prevHeight;
      if tip <= 0 { return false; }
      if tip !in undo { return false; }
      var prevHeight := tip - 1;
      verifier.Reset(prevHeight + 1, headers[prevHeight]);
      headers := headers[..prevHeight + 1];
      undo := undo - {tip};
      return true;
    }
  }

  /** The undo information given up when the block at this height is added. */
  function Expired(height: nat, undoDepth: nat): set<nat> {
    if height >= undoDepth then {height - undoDepth} else {}
  }

  /** Height h has undo information after the blocks from base to height - 1 were added on the way to a
      chain of length target: new ones near the end are saved, and each block added expires one. */
  ghost predicate Keeps(u: set<nat>, base: nat, height: nat, target: nat, undoDepth: nat, saving: bool, h: nat) {
    (h in u || (saving && base <= h < height && h >= target - undoDepth)) && !(base <= h + undoDepth < height)
  }

  ghost function Added(u: set<nat>, base: nat, height: nat, target: nat, undoDepth: nat, saving: bool): (r: set<nat>) {
    set h: nat | h in u + Heights(base, height) && Keeps(u, base, height, target, undoDepth, saving, h)
  }

  ghost function Heights(base: nat, height: nat): (r: set<nat>)
    ensures forall h: nat :: h in r <==> base <= h < height
  {
    if height <= base then {} else Heights(base, height - 1) + {height - 1}
  }

  ghost function Below(u: set<nat>, n: nat): set<nat> {
    set h | h in u && h < n
  }

  /** The undo information after following the node: what lies above the fork at c is gone, then the
      node's blocks from c on are added. */
  ghost function UndoAfter(u: set<nat>, c: nat, len: nat, undoDepth: nat, saving: bool): set<nat> {
    Added(Below(u, c), c, len, len, undoDepth, saving)
  }

  lemma {:induction false} AddedIs(u: set<nat>, base: nat, height: nat, target: nat, undoDepth: nat, saving: bool, h: nat)
    ensures h in Added(u, base, height, target, undoDepth, saving) <==> Keeps(u, base, height, target, undoDepth, saving, h)
  {
  }

  lemma {:induction false} AddedNone(u: set<nat>, base: nat, target: nat, undoDepth: nat, saving: bool)
    ensures Added(u, base, base, target, undoDepth, saving) == u
  {
    forall h: nat ensures h in Added(u, base, base, target, undoDepth, saving) <==> h in u {
      AddedIs(u, base, base, target, undoDepth, saving, h);
    }
  }

  /** One block more. */
  lemma {:induction false} AddedNext(u: set<nat>, base: nat, height: nat, target: nat, undoDepth: nat, saving: bool)
    requires base <= height && forall h :: h in u ==> h < base
    ensures var r := Added(u, base, height, target, undoDepth, saving);
      Added(u, base, height + 1, target, undoDepth, saving)
        == (if saving && height >= target - undoDepth then r + {height} else r) - Expired(height, undoDepth)
  {
    var r := Added(u, base, height, target, undoDepth, saving);
    var r' := (if saving && height >= target - undoDepth then r + {height} else r) - Expired(height, undoDepth);
    forall h: nat ensures h in Added(u, base, height + 1, target, undoDepth, saving) <==> h in r' {
      AddedIs(u, base, height, target, undoDepth, saving, h);
      AddedIs(u, base, height + 1, target, undoDepth, saving, h);
    }
  }

  lemma {:induction false} SliceNext(a: seq<Header>, c: seq<Header>, lo: nat, hi: nat)
    requires lo <= hi < |c|
    ensures a + c[lo..hi + 1] == a + c[lo..hi] + [c[hi]]
  {
    assert c[lo..hi + 1] == c[lo..hi] + [c[hi]];
  }

  // ----- how far back undoing reaches

  /** The blocks from height lo on, of n stored ones, can be undone. */
  ghost predicate Window(n: nat, u: set<nat>, lo: int) {
    forall h :: 0 <= h < n && lo <= h ==> h in u
  }

  /** The least height from which on all n stored blocks can be undone. */
  function Floor(n: nat, u: set<nat>): (f: nat)
    ensures f <= n
  {
    if n == 0 then 0 else if n - 1 in u then Floor(n - 1, u) else n
  }

  lemma {:induction false} FloorFacts(n: nat, u: set<nat>)
    ensures forall h :: Floor(n, u) <= h < n ==> h in u
    ensures Floor(n, u) > 0 ==> Floor(n, u) - 1 !in u
  {
    if n > 0 && n - 1 in u {
      FloorFacts(n - 1, u);
    } else {
      NoneAbove(n, u);
    }
  }

  lemma {:induction false} NoneAbove(n: nat, u: set<nat>)
    requires n == 0 || n - 1 !in u
    ensures Floor(n, u) == n
  {
  }

  lemma {:induction false} FloorIs(n: nat, u: set<nat>, f: nat)
    requires f <= n && (forall h :: f <= h < n ==> h in u) && (f > 0 ==> f - 1 !in u)
    ensures Floor(n, u) == f
  {
    if f < n { FloorIs(n - 1, u, f); }
  }

  /** How the floor moves when the node replaces the blocks from c on by blocks up to length len. */
  function NextFloor(f: nat, c: nat, len: nat, undoDepth: nat): nat {
    if c < len && f < len - undoDepth then len - undoDepth else f
  }

  lemma {:induction false} FloorAfter(n: nat, u: set<nat>, c: nat, len: nat, undoDepth: nat)
    requires Floor(n, u) <= c <= n && c <= len
    ensures Floor(len, UndoAfter(u, c, len, undoDepth, true)) == NextFloor(Floor(n, u), c, len, undoDepth)
  {
    FloorFacts(n, u);
    var f, u' := NextFloor(Floor(n, u), c, len, undoDepth), UndoAfter(u, c, len, undoDepth, true);
    hide Floor, Added;
    forall h: nat ensures h in u' <==> Keeps(Below(u, c), c, len, len, undoDepth, true, h) {
      AddedIs(Below(u, c), c, len, len, undoDepth, true, h);
    }
    FloorIs(len, u', f);
  }

  /** The last undoDepth of n blocks can be undone iff the floor is no higher than that. */
  lemma {:induction false} FloorCovers(n: nat, u: set<nat>, lo: int)
    requires lo <= n
    ensures Floor(n, u) <= lo || Floor(n, u) == 0 <==> Window(n, u, lo)
  {
    FloorFacts(n, u);
    if 0 < Floor(n, u) && lo < Floor(n, u) { assert Floor(n, u) - 1 !in u; }
  }

  // ----- src/Controller.cpp

  /** getblockchaininfo, and the chain behind it. */
  datatype Node = Node(chain: seq<Header>, ibd: bool, nHeaders: int)

  datatype Outcome =
    | UpToDate          // storage holds the node's chain
    | InIBD             // likewise, but the node is still downloading itself
    | HeaderDL          // the node has nothing yet
    | WrongGenesis      // fatal: not the chain this database is for
    | Again             // one block undone, or blocks added: poll again
    | Failed            // a block could not be undone

  /** The stored blocks that are not the node's can all be undone. */
  ghost predicate CanRewind(headers: seq<Header>, undo: set<nat>, chain: seq<Header>) {
    forall h :: Common(headers, chain) <= h < |headers| ==> h in undo
  }

  /** The last block, and nothing else, is gone. */
  ghost predicate Popped(headers: seq<Header>, undo: set<nat>, headers': seq<Header>, undo': set<nat>) {
    headers != [] && headers' == headers[..|headers| - 1] && undo' == undo - {|headers| - 1}
  }

  /** The database holds another network's chain. */
  ghost predicate Foreign(headers: seq<Header>, chain: seq<Header>) {
    headers != [] && chain != [] && headers[0] != chain[0]
  }

  /** The last block is not the node's and can be undone. */
  ghost predicate Rewinds(headers: seq<Header>, undo: set<nat>, chain: seq<Header>) {
    0 < Common(headers, chain) < |headers| && |headers| - 1 in undo
  }

  /** The last block is not the node's and cannot be undone. */
  ghost predicate Stuck(headers: seq<Header>, undo: set<nat>, chain: seq<Header>) {
    0 < Common(headers, chain) < |headers| && |headers| - 1 !in undo
  }

  /** All that was stored is the node's, and now the rest is stored too. */
  ghost predicate Caught(headers: seq<Header>, chain: seq<Header>, headers': seq<Header>) {
    headers < chain && headers' == chain
  }

  predicate NotReady(node: Node) {
    |node.chain| < 2 && node.ibd
  }

  /** Whether saving undo information is suppressed for the blocks about to be downloaded. */
  predicate Suppresses(undo: set<nat>, node: Node, undoDepth: nat) {
    var ht := |node.chain| - 1;
    node.ibd && undo == {} && node.nHeaders > 0 && ht > 0 && node.nHeaders >= ht && node.nHeaders - ht > undoDepth
  }

  ghost function UndoArrived(u: set<nat>, c: nat, node: Node, undoDepth: nat): set<nat> {
    UndoAfter(u, c, |node.chain|, undoDepth, !Suppresses(Below(u, c), node, undoDepth))
  }

  /** What one round leaves behind, by outcome. */
  ghost predicate Round(headers: seq<Header>, undo: set<nat>, headers': seq<Header>, undo': set<nat>, node: Node, undoDepth: nat, outcome: Outcome) {
    && (outcome == HeaderDL <==> NotReady(node))
    && (outcome == WrongGenesis <==> !NotReady(node) && Foreign(headers, node.chain))
    && (outcome != Again ==> headers' == headers && undo' == undo)
    && (outcome == UpToDate ==> headers == node.chain && !node.ibd)
    && (outcome == InIBD ==> headers == node.chain && node.ibd)
    && (outcome == Failed ==> Stuck(headers, undo, node.chain))
    && (outcome == Again && Caught(headers, node.chain, headers') ==>
          undo' == Added(undo, |headers|, |node.chain|, |node.chain|, undoDepth, !Suppresses(undo, node, undoDepth)))
    && (outcome == Again ==>
          Caught(headers, node.chain, headers') || (Popped(headers, undo, headers', undo') && Rewinds(headers, undo, node.chain)))
  }

  /** On the way from st to the node's chain: `undone` blocks above the fork are gone, nothing else is. */
  ghost predicate Partway(st: seq<Header>, u: set<nat>, headers: seq<Header>, undo: set<nat>, node: Node, undone: nat) {
    var n := |headers|;
    && Common(st, node.chain) <= n <= |st| && headers == st[..n] && undone == |st| - n
    && undo == Below(u, n) && (n == |st| ==> undo == u)
    && (forall h :: n <= h < |st| ==> h in u)
    && (n < |st| ==> !NotReady(node) && !Foreign(st, node.chain))
  }

  /** Arrived on the node's chain. */
  ghost predicate Arrived(st: seq<Header>, u: set<nat>, headers: seq<Header>, undo: set<nat>, node: Node, undoDepth: nat, undone: nat) {
    && headers == node.chain && undone == |st| - Common(st, node.chain) && CanRewind(st, u, node.chain)
    && undo == UndoArrived(u, Common(st, node.chain), node, undoDepth)
    && !NotReady(node) && !Foreign(st, node.chain)
  }

  ghost predicate Progress(st: seq<Header>, u: set<nat>, headers: seq<Header>, undo: set<nat>, node: Node, undoDepth: nat, undone: nat, outcome: Outcome) {
    match outcome
    case HeaderDL => NotReady(node) && headers == st && undo == u && undone == 0
    case WrongGenesis => !NotReady(node) && Foreign(st, node.chain) && headers == st && undo == u && undone == 0
    case UpToDate => Arrived(st, u, headers, undo, node, undoDepth, undone) && !node.ibd
    case InIBD => Arrived(st, u, headers, undo, node, undoDepth, undone) && node.ibd
    case Failed => Partway(st, u, headers, undo, node, undone) && Stuck(headers, undo, node.chain) && !NotReady(node) && !Foreign(st, node.chain)
    case Again => Partway(st, u, headers, undo, node, undone) || Arrived(st, u, headers, undo, node, undoDepth, undone)
  }

  /** Below the fork at c, undo information is what it was, except for what adding blocks has expired.  From
      the fork on, the last undoDepth blocks have it, unless the node is in its initial download, no block below
      the fork has any, and the node knows of more than undoDepth further headers. */
  ghost predicate UndoMeans(u: set<nat>, u': set<nat>, c: nat, node: Node, undoDepth: nat) {
    var len := |node.chain|;
    forall h: nat :: h in u' <==>
      if h < c then h in u && !(c <= h + undoDepth < len)
      else len - undoDepth <= h < len && !(node.ibd && (forall g :: g in u ==> c <= g) && node.nHeaders - (len - 1) > undoDepth)
  }

  lemma {:induction false} SuppressesMeans(u: set<nat>, c: nat, node: Node, undoDepth: nat)
    requires |node.chain| >= 2
    ensures Suppresses(Below(u, c), node, undoDepth) <==>
      node.ibd && (forall g :: g in u ==> c <= g) && node.nHeaders - (|node.chain| - 1) > undoDepth
  {
    if g :| g in u && g < c { assert g in Below(u, c); }
  }

  lemma {:induction false} UndoSpelledOut(u: set<nat>, c: nat, node: Node, undoDepth: nat)
    requires c <= |node.chain| && !NotReady(node) && node.chain != []
    ensures UndoMeans(u, UndoArrived(u, c, node, undoDepth), c, node, undoDepth)
  {
    var len := |node.chain|;
    if len >= 2 { SuppressesMeans(u, c, node, undoDepth); }
    forall h: nat ensures h in UndoArrived(u, c, node, undoDepth) <==>
      Keeps(Below(u, c), c, len, len, undoDepth, !Suppresses(Below(u, c), node, undoDepth), h)
    {
      AddedIs(Below(u, c), c, len, len, undoDepth, !Suppresses(Below(u, c), node, undoDepth), h);
    }
    hide UndoArrived, Suppresses;
  }

  lemma {:induction false} ArrivedMeans(st: seq<Header>, u: set<nat>, headers: seq<Header>, undo: set<nat>, node: Node, undoDepth: nat, undone: nat)
    requires Progress(st, u, headers, undo, node, undoDepth, undone, UpToDate) || Progress(st, u, headers, undo, node, undoDepth, undone, InIBD)
    requires node.chain != []
    ensures UndoMeans(u, undo, Common(st, node.chain), node, undoDepth)
  {
    CommonPrefix(st, node.chain);
    hide Common, UndoMeans, UndoArrived, CanRewind, Foreign;
    UndoSpelledOut(u, Common(st, node.chain), node, undoDepth);
  }

  /** A round takes the synchroniser forward. */
  lemma {:induction false} AfterRound(st: seq<Header>, u: set<nat>, headers: seq<Header>, undo: set<nat>,
                                      headers': seq<Header>, undo': set<nat>, node: Node, undoDepth: nat, undone: nat, outcome: Outcome)
    requires Progress(st, u, headers, undo, node, undoDepth, undone, Again)
    requires Round(headers, undo, headers', undo', node, undoDepth, outcome) && node.chain != []
    ensures Progress(st, u, headers', undo', node, undoDepth, if |headers'| < |headers| then undone + 1 else undone, outcome)
    ensures outcome == Again ==> headers != node.chain && (headers' == node.chain || |headers'| < |headers|)
  {
    if Partway(st, u, headers, undo, node, undone) {
      PartwayRound(st, u, headers, undo, headers', undo', node, undoDepth, undone, outcome);
    } else {
      hide Common;
      assert node.chain[..|node.chain|] == node.chain;
      CommonAtLeast(node.chain, node.chain, |node.chain|);
      CommonPrefix(node.chain, node.chain);
    }
  }

  lemma {:induction false} PartwayRound(st: seq<Header>, u: set<nat>, headers: seq<Header>, undo: set<nat>,
                                        headers': seq<Header>, undo': set<nat>, node: Node, undoDepth: nat, undone: nat, outcome: Outcome)
    requires Partway(st, u, headers, undo, node, undone)
    requires Round(headers, undo, headers', undo', node, undoDepth, outcome) && node.chain != []
    ensures Progress(st, u, headers', undo', node, undoDepth, if |headers'| < |headers| then undone + 1 else undone, outcome)
    ensures outcome == Again ==> headers != node.chain && (headers' == node.chain || |headers'| < |headers|)
  {
    hide Common;
    var n := |headers|;
    CommonOfPrefix(st, node.chain, n);
    CommonPrefix(st, node.chain);
    AddedNone(undo, n, n, undoDepth, !Suppresses(undo, node, undoDepth));
    hide Added;
    assert Foreign(headers, node.chain) ==> Foreign(st, node.chain);
    if headers <= node.chain {
      assert headers[..n] == headers && node.chain[..n] == headers;
      CommonAtLeast(headers, node.chain, n);
      assert CanRewind(st, u, node.chain);
    }
    SharedGenesis(st, node.chain);
    if n > 0 { assert st[0] == headers[0]; }
  }

  /** The node's next block fits exactly when everything stored is on the node's chain. */
  lemma {:induction false} LinkedMeansShared(storage: Storage, chain: seq<Header>)
    requires storage.Valid() && GoodChain(chain) && NoCollisions(storage.headers, chain)
    requires |storage.headers| < |chain|
    ensures storage.Fits(chain[|storage.headers|]) <==> storage.headers <= chain
    ensures storage.headers <= chain <==> Common(storage.headers, chain) == |storage.headers|
  {
    hide Common, NoCollisions;
    var st := storage.headers;
    CommonPrefix(st, chain);
    assert st[..|st|] == st;
    if st != [] {
      var k := |st| - 1;
      assert chain[k + 1].prev == chain[k].id;
      if st[k].id == chain[k].id { SameIdSamePast(st, chain, k); }
    }
    if st <= chain { CommonAtLeast(st, chain, |st|); }
  }

  class Controller {
    const storage: Storage

    constructor (storage: Storage)
      ensures this.storage == storage
    {
      this.storage := storage;
    }

    /** process_VerifyAndAddBlock for the block at this height, the ones from base on having been added. */
    method AddNext(node: Node, height: nat, ghost base: nat, ghost h0: seq<Header>, suppressSaveUndo: bool, ghost u0: set<nat>) returns (ok: bool)
      requires storage.Valid() && GoodChain(node.chain)
      requires |h0| == base <= height < |node.chain| && storage.headers == h0 + node.chain[base..height]
      requires forall h :: h in u0 ==> h < base
      requires storage.undo == Added(u0, base, height, |node.chain|, storage.undoDepth, !suppressSaveUndo)
      modifies storage, storage.verifier
      ensures storage.Valid() && ok == old(storage.Fits(node.chain[height])) && (height > base ==> ok)
      ensures ok ==> storage.headers == h0 + node.chain[base..height + 1]
      ensures ok ==> storage.undo == Added(u0, base, height + 1, |node.chain|, storage.undoDepth, !suppressSaveUndo)
      ensures !ok ==> storage.headers == old(storage.headers) && storage.undo == old(storage.undo)
    {
      AddedNext(u0, base, height, |node.chain|, storage.undoDepth, !suppressSaveUndo);
      hide Added;
      var ht := |node.chain| - 1;
      if height > base {
        assert storage.headers[|storage.headers| - 1] == node.chain[height - 1];
        assert node.chain[height].prev == node.chain[height - 1].id;
      }
      ok := storage.AddBlock(node.chain[height], !suppressSaveUndo && height > ht - storage.undoDepth);
      SliceNext(h0, node.chain, base, height);
    }

    /** State GetBlocks and what follows: blocks are added in order up to the node's tip; the first that
        does not fit makes the controller undo one block. */
    method GetBlocks(node: Node, suppressSaveUndo: bool) returns (ok: bool)
      requires storage.Valid() && GoodChain(node.chain) && |storage.headers| < |node.chain|
      modifies storage, storage.verifier
      ensures storage.Valid()
      ensures old(storage.Fits(node.chain[|storage.headers|])) ==>
                ok && storage.headers == old(storage.headers) + node.chain[|old(storage.headers)|..]
                && storage.undo == Added(old(storage.undo), |old(storage.headers)|, |node.chain|, |node.chain|, storage.undoDepth, !suppressSaveUndo)
      ensures !old(storage.Fits(node.chain[|storage.headers|])) ==>
                ok == (|old(storage.headers)| > 1 && |old(storage.headers)| - 1 in old(storage.undo))
                && (if ok then Popped(old(storage.headers), old(storage.undo), storage.headers, storage.undo)
                    else storage.headers == old(storage.headers) && storage.undo == old(storage.undo))
    {
      hide GoodChain, Added;
      var base := |storage.headers|;
      var ht := |node.chain| - 1;
      var height := base;
      ghost var h0, u0, fits0 := storage.headers, storage.undo, storage.Fits(node.chain[base]);
      AddedNone(u0, base, |node.chain|, storage.undoDepth, !suppressSaveUndo);
      while height <= ht
        invariant base <= height <= ht + 1
        invariant storage.Valid() && storage.headers == h0 + node.chain[base..height]
        invariant height == base ==> storage.undo == u0
        invariant height > base ==> fits0
        invariant storage.undo == Added(u0, base, height, |node.chain|, storage.undoDepth, !suppressSaveUndo)
      {
        var ok' := AddNext(node, height, base, h0, suppressSaveUndo, u0);
        if !ok' {
          assert storage.headers == h0;
          ok := storage.UndoLatestBlock();
          return;
        }
        height := height + 1;
      }
      assert node.chain[base..] == node.chain[base..ht + 1];
      return true;
    }

    /** One round of process(), from asking for the chain info to the end of what that leads to. */
    method Poll(node: Node) returns (outcome: Outcome)
      requires storage.Valid() && GoodChain(node.chain) && node.chain != [] && NoCollisions(storage.headers, node.chain)
      modifies storage, storage.verifier
      ensures storage.Valid()
      ensures Round(old(storage.headers), old(storage.undo), storage.headers, storage.undo, node, storage.undoDepth, outcome)
    {
      hide Common, Round, NoCollisions;
      var tip, ht := |storage.headers| - 1, |node.chain| - 1;
      if tip >= ht { SameTip(storage.headers, node.chain); }
      FirstIds(storage.headers, node.chain);
      if ht < 1 && node.ibd {
        outcome := HeaderDL;
        RoundRests(storage.headers, storage.undo, node, storage.undoDepth, outcome);
      } else if storage.headers != [] && storage.headers[0].id != node.chain[0].id {
        outcome := WrongGenesis;
        RoundRests(storage.headers, storage.undo, node, storage.undoDepth, outcome);
      } else if tip == ht {
        if storage.headers[tip].id == node.chain[ht].id {
          outcome := if node.ibd then InIBD else UpToDate;
          RoundRests(storage.headers, storage.undo, node, storage.undoDepth, outcome);
        } else {
          outcome := Rewind(node);
        }
      } else if tip > ht {
        outcome := Rewind(node);
      } else {
        outcome := Fetch(node);
      }
    }

    /** process_DoUndoAndRetry, reached with a block at the tip that the node does not have. */
    method Rewind(node: Node) returns (outcome: Outcome)
      requires storage.Valid() && 0 < Common(storage.headers, node.chain) < |storage.headers|
      requires !NotReady(node) && !Foreign(storage.headers, node.chain)
      modifies storage, storage.verifier
      ensures storage.Valid()
      ensures Round(old(storage.headers), old(storage.undo), storage.headers, storage.undo, node, storage.undoDepth, outcome)
    {
      hide Common;
      CommonPrefix(storage.headers, node.chain);
      var ok := storage.UndoLatestBlock();
      outcome := if ok then Again else Failed;
    }

    /** The node is ahead: download, or rewind when the download does not fit. */
    method Fetch(node: Node) returns (outcome: Outcome)
      requires storage.Valid() && GoodChain(node.chain) && NoCollisions(storage.headers, node.chain)
      requires |storage.headers| < |node.chain| && !Foreign(storage.headers, node.chain) && !NotReady(node)
      modifies storage, storage.verifier
      ensures storage.Valid()
      ensures Round(old(storage.headers), old(storage.undo), storage.headers, storage.undo, node, storage.undoDepth, outcome)
    {
      hide Common, GoodChain, NoCollisions;
      ghost var st := storage.headers;
      LinkedMeansShared(storage, node.chain);
      SharedGenesis(st, node.chain);
      CommonPrefix(st, node.chain);
      var ok := GetBlocks(node, Suppresses(storage.undo, node, storage.undoDepth));
      outcome := if ok then Again else Failed;
      assert st <= node.chain ==> st + node.chain[|st|..] == node.chain;
    }

    /** process(), called again and again while the node keeps its chain: ends on the node's chain, having
        undone just the blocks above the fork, if and only if all of those can be undone. */
    method Synchronise(node: Node) returns (outcome: Outcome, undone: nat)
      requires storage.Valid() && GoodChain(node.chain) && node.chain != [] && NoCollisions(storage.headers, node.chain)
      modifies storage, storage.verifier
      ensures storage.Valid() && outcome != Again
      ensures outcome == HeaderDL <==> |node.chain| < 2 && node.ibd
      ensures outcome == WrongGenesis <==>
        !(|node.chain| < 2 && node.ibd) && old(storage.headers) != [] && old(storage.headers)[0] != node.chain[0]
      ensures outcome == HeaderDL || outcome == WrongGenesis ==> undone == 0 && storage.headers == old(storage.headers) && storage.undo == old(storage.undo)
      ensures outcome == UpToDate || outcome == InIBD ==>
        storage.headers == node.chain && undone == |old(storage.headers)| - Common(old(storage.headers), node.chain)
      ensures outcome != HeaderDL && outcome != WrongGenesis ==>
        outcome == (if !CanRewind(old(storage.headers), old(storage.undo), node.chain) then Failed else if node.ibd then InIBD else UpToDate)
      ensures outcome == Failed ==> undone == |old(storage.headers)| - |storage.headers| && storage.headers <= old(storage.headers)
      ensures outcome == Failed ==>
        Stuck(storage.headers, old(storage.undo), node.chain) && storage.undo == Below(old(storage.undo), |storage.headers|)
      ensures outcome == UpToDate || outcome == InIBD ==>
        && storage.undo == UndoArrived(old(storage.undo), Common(old(storage.headers), node.chain), node, storage.undoDepth)
        && UndoMeans(old(storage.undo), storage.undo, Common(old(storage.headers), node.chain), node, storage.undoDepth)
      ensures outcome == UpToDate ==> (old(storage.CoveredFrom(|node.chain| - storage.undoDepth)) <==> storage.Covered())
    {
      StartsPartway(storage.headers, storage.undo, node, storage.undoDepth);
      hide Common, GoodChain, NoCollisions, Storage.Valid, Round, Progress, UndoAfter, UndoArrived, UndoMeans, CanRewind, Window, Stuck,
           Foreign, NotReady, Below;
      ghost var st, u := storage.headers, storage.undo;
      undone, outcome := 0, Again;
      while outcome == Again
        invariant storage.Valid() && NoCollisions(storage.headers, node.chain)
        invariant Progress(st, u, storage.headers, storage.undo, node, storage.undoDepth, undone, outcome)
        decreases if outcome != Again then 0 else if storage.headers == node.chain then 1 else |storage.headers| + 2
      {
        ghost var h0, u0, n := storage.headers, storage.undo, undone;
        var before := |storage.headers|;
        outcome := Poll(node);
        if |storage.headers| < before { undone := undone + 1; }
        AfterRound(st, u, h0, u0, storage.headers, storage.undo, node, storage.undoDepth, n, outcome);
        RoundShrinks(h0, u0, storage.headers, storage.undo, node, storage.undoDepth, outcome);
        StaysCollisionFree(h0, node.chain, storage.headers);
      }
      EndsWell(st, u, storage.headers, storage.undo, node, storage.undoDepth, undone, outcome);
      if outcome == UpToDate || outcome == InIBD { ArrivedMeans(st, u, storage.headers, storage.undo, node, storage.undoDepth, undone); }
      if outcome == UpToDate { WindowArrived(st, u, node, storage.undoDepth); }
    }

    /** The node shows one chain after the other, and storage follows until it cannot: it reaches the last of
        them if and only if no reorganisation reaches below the floor that the earlier ones left. */
    method Follow(nodes: seq<Node>) returns (outcome: Outcome)
      requires storage.Valid() && Offered(storage.headers, nodes)
      modifies storage, storage.verifier
      ensures storage.Valid() && (outcome == UpToDate || outcome == Failed)
      ensures outcome == UpToDate <==>
        Followable(old(storage.headers), Floor(|old(storage.headers)|, old(storage.undo)), nodes, storage.undoDepth)
      ensures outcome == UpToDate ==> storage.headers == if nodes == [] then old(storage.headers) else nodes[|nodes| - 1].chain
    {
      hide Common, Storage.Valid, UndoAfter, Floor, NextFloor;
      outcome := UpToDate;
      ghost var h0 := storage.headers;
      ghost var goal := Followable(h0, Floor(|h0|, storage.undo), nodes, storage.undoDepth);
      assert nodes[0..] == nodes;
      var i := 0;
      while i < |nodes|
        invariant 0 <= i <= |nodes| && outcome == UpToDate
        invariant storage.Valid() && Offered(storage.headers, nodes[i..])
        invariant storage.headers == if i == 0 then h0 else nodes[i - 1].chain
        invariant goal <==> Followable(storage.headers, Floor(|storage.headers|, storage.undo), nodes[i..], storage.undoDepth)
      {
        assert nodes[i..][0] == nodes[i] && nodes[i..][1..] == nodes[i + 1..];
        FloorDecides(storage.headers, storage.undo, nodes[i].chain, storage.undoDepth);
        var undone;
        outcome, undone := Synchronise(nodes[i]);
        if outcome != UpToDate { return; }
        i := i + 1;
      }
    }
  }

  /** Chains of one network, from a node that is not in its initial download. */
  ghost predicate Offered(a: seq<Header>, nodes: seq<Node>)
    decreases |nodes|
  {
    nodes != [] ==>
      var b := nodes[0].chain;
      && GoodChain(b) && b != [] && !nodes[0].ibd && !Foreign(a, b) && NoCollisions(a, b)
      && Offered(b, nodes[1..])
  }

  /** Each chain forks from the one before no lower than undoing reaches at that point. */
  ghost predicate Followable(a: seq<Header>, floor: nat, nodes: seq<Node>, undoDepth: nat)
    decreases |nodes|
  {
    nodes != [] ==>
      var b := nodes[0].chain;
      floor <= Common(a, b) && Followable(b, NextFloor(floor, Common(a, b), |b|, undoDepth), nodes[1..], undoDepth)
  }

  lemma {:induction false} FloorDecides(st: seq<Header>, u: set<nat>, chain: seq<Header>, undoDepth: nat)
    ensures CanRewind(st, u, chain) <==> Floor(|st|, u) <= Common(st, chain)
    ensures CanRewind(st, u, chain) ==>
      Floor(|chain|, UndoAfter(u, Common(st, chain), |chain|, undoDepth, true)) == NextFloor(Floor(|st|, u), Common(st, chain), |chain|, undoDepth)
  {
    CommonPrefix(st, chain);
    FloorFacts(|st|, u);
    hide Common, Floor, UndoAfter, NextFloor;
    if Floor(|st|, u) <= Common(st, chain) { FloorAfter(|st|, u, Common(st, chain), |chain|, undoDepth); }
  }

  /** The last undoDepth blocks can be undone afterwards iff those of them that were stored before could be. */
  lemma {:induction false} WindowKept(st: seq<Header>, u: set<nat>, chain: seq<Header>, undoDepth: nat)
    requires CanRewind(st, u, chain)
    ensures Window(|st|, u, |chain| - undoDepth) <==>
      Window(|chain|, UndoAfter(u, Common(st, chain), |chain|, undoDepth, true), |chain| - undoDepth)
  {
    CommonPrefix(st, chain);
    hide Common;
    var c, len := Common(st, chain), |chain|;
    var u' := UndoAfter(u, c, len, undoDepth, true);
    forall h: nat | len - undoDepth <= h < len ensures h in u' <==> c <= h || h in u {
      AddedIs(Below(u, c), c, len, len, undoDepth, true, h);
    }
  }

  lemma {:induction false} WindowArrived(st: seq<Header>, u: set<nat>, node: Node, undoDepth: nat)
    requires CanRewind(st, u, node.chain) && !node.ibd
    ensures Window(|st|, u, |node.chain| - undoDepth) <==>
      Window(|node.chain|, UndoArrived(u, Common(st, node.chain), node, undoDepth), |node.chain| - undoDepth)
  {
    hide Window, CanRewind, Common, UndoAfter;
    WindowKept(st, u, node.chain, undoDepth);
  }

  /** The node's chain replaces at most undoDepth blocks of a, and is not shorter. */
  ghost predicate ReorgWithin(a: seq<Header>, b: seq<Header>, undoDepth: nat) {
    |a| <= |b| && |a| - Common(a, b) <= undoDepth
  }

  ghost predicate WithinDepth(a: seq<Header>, nodes: seq<Node>, undoDepth: nat)
    decreases |nodes|
  {
    nodes != [] ==> ReorgWithin(a, nodes[0].chain, undoDepth) && WithinDepth(nodes[0].chain, nodes[1..], undoDepth)
  }

  /** Reorganisations of at most undoDepth blocks are followed for ever, provided none shortens the chain
      and the last undoDepth blocks can be undone at the start. */
  lemma {:induction false} DepthSuffices(a: seq<Header>, u: set<nat>, nodes: seq<Node>, undoDepth: nat)
    requires WithinDepth(a, nodes, undoDepth)
    requires Window(|a|, u, |a| - undoDepth)
    ensures Followable(a, Floor(|a|, u), nodes, undoDepth)
  {
    hide Floor, Followable, WithinDepth;
    FloorCovers(|a|, u, |a| - undoDepth);
    FloorSuffices(a, Floor(|a|, u), nodes, undoDepth);
  }

  lemma {:induction false} FloorSuffices(a: seq<Header>, floor: nat, nodes: seq<Node>, undoDepth: nat)
    requires WithinDepth(a, nodes, undoDepth) && (floor == 0 || floor <= |a| - undoDepth)
    ensures Followable(a, floor, nodes, undoDepth)
    decreases |nodes|
  {
    hide Common;
    if nodes != [] {
      var b := nodes[0].chain;
      CommonPrefix(a, b);
      FloorSuffices(b, NextFloor(floor, Common(a, b), |b|, undoDepth), nodes[1..], undoDepth);
    }
  }

  /** That proviso is needed, at every depth: when the last undoDepth blocks can be undone, and no others, a
      chain that loses its last block and then forks undoDepth blocks lower cannot be followed. */
  lemma {:induction false} ShorterThenForked(a: seq<Header>, b: seq<Header>, u: set<nat>, undoDepth: nat, nHeaders: int)
    requires 1 <= undoDepth && undoDepth + 2 <= |a| == |b|
    requires forall h: nat :: h in u <==> |a| - undoDepth <= h < |a|
    requires a[..|a| - 1 - undoDepth] == b[..|a| - 1 - undoDepth] && a[|a| - 1 - undoDepth] != b[|a| - 1 - undoDepth]
    ensures |a| - Common(a, a[..|a| - 1]) == 1 && |a| - 1 - Common(a[..|a| - 1], b) == undoDepth
    ensures Floor(|a|, u) == |a| - undoDepth
    ensures !Followable(a, Floor(|a|, u), [Node(a[..|a| - 1], false, nHeaders), Node(b, false, nHeaders)], undoDepth)
  {
    var n, c := |a|, |a| - 1 - undoDepth;
    var a' := a[..n - 1];
    FloorIs(n, u, n - undoDepth);
    assert a'[..n - 1] == a[..n - 1] && a'[..c] == b[..c];
    CommonAtLeast(a, a', n - 1);
    CommonPrefix(a, a');
    CommonAtLeast(a', b, c);
    CommonPrefix(a', b);
    CommonAtMost(a', b, c);
    hide Common, Floor;
    var nodes := [Node(a', false, nHeaders), Node(b, false, nHeaders)];
    assert nodes[1..] == [nodes[1]] && nodes[0].chain == a' && nodes[1].chain == b;
    assert !Followable(a', n - undoDepth, nodes[1..], undoDepth);
  }

  /** No block the synchroniser undoes is on the node's chain: all of them lie above the fork. */
  lemma {:induction false} AboveFork(st: seq<Header>, chain: seq<Header>, h: nat)
    requires GoodChain(st) && GoodChain(chain) && NoCollisions(st, chain)
    requires Common(st, chain) <= h < |st| && h < |chain|
    ensures st[h].id != chain[h].id
  {
    if st[h].id == chain[h].id {
      SameIdSamePast(st, chain, h);
      CommonAtLeast(st, chain, h + 1);
      assert false;
    }
  }

  lemma {:induction false} StartsPartway(st: seq<Header>, u: set<nat>, node: Node, undoDepth: nat)
    requires forall h :: h in u ==> h < |st|
    ensures Progress(st, u, st, u, node, undoDepth, 0, Again)
  {
    CommonPrefix(st, node.chain);
    hide Common;
    assert st[..|st|] == st;
  }

  lemma {:induction false} StaysCollisionFree(headers: seq<Header>, chain: seq<Header>, headers': seq<Header>)
    requires NoCollisions(headers, chain) && (headers' == chain || headers' <= headers)
    ensures NoCollisions(headers', chain)
  {
    forall x | x in headers' ensures x in headers || x in chain {}
  }

  lemma {:induction false} RoundShrinks(headers: seq<Header>, undo: set<nat>, headers': seq<Header>, undo': set<nat>, node: Node, undoDepth: nat, outcome: Outcome)
    requires Round(headers, undo, headers', undo', node, undoDepth, outcome)
    ensures headers' == node.chain || headers' <= headers
  {
  }

  /** What the end of the synchronisation says about its beginning. */
  lemma {:induction false} EndsWell(st: seq<Header>, u: set<nat>, headers: seq<Header>, undo: set<nat>, node: Node, undoDepth: nat, undone: nat, outcome: Outcome)
    requires Progress(st, u, headers, undo, node, undoDepth, undone, outcome) && outcome != Again
    ensures outcome == HeaderDL <==> NotReady(node)
    ensures outcome == WrongGenesis <==> !NotReady(node) && Foreign(st, node.chain)
    ensures outcome == HeaderDL || outcome == WrongGenesis ==> undone == 0 && headers == st && undo == u
    ensures outcome == UpToDate || outcome == InIBD ==> headers == node.chain && undone == |st| - Common(st, node.chain)
    ensures outcome != HeaderDL && outcome != WrongGenesis ==>
      outcome == (if !CanRewind(st, u, node.chain) then Failed else if node.ibd then InIBD else UpToDate)
    ensures outcome == Failed ==> undone == |st| - |headers| && headers <= st && Stuck(headers, u, node.chain) && undo == Below(u, |headers|)
    ensures outcome == UpToDate || outcome == InIBD ==> undo == UndoArrived(u, Common(st, node.chain), node, undoDepth)
  {
    if outcome == Failed {
      CommonOfPrefix(st, node.chain, |headers|);
      hide Common;
      assert !CanRewind(st, u, node.chain) by { assert |headers| - 1 !in u; }
    }
  }

  /** A round that changes nothing. */
  lemma {:induction false} RoundRests(headers: seq<Header>, undo: set<nat>, node: Node, undoDepth: nat, outcome: Outcome)
    requires outcome == HeaderDL <==> NotReady(node)
    requires outcome == WrongGenesis <==> !NotReady(node) && Foreign(headers, node.chain)
    requires outcome == UpToDate || outcome == InIBD ==> headers == node.chain && (outcome == InIBD <==> node.ibd)
    requires outcome != Again && outcome != Failed
    ensures Round(headers, undo, headers, undo, node, undoDepth, outcome)
  {
  }

  lemma {:induction false} FirstIds(a: seq<Header>, b: seq<Header>)
    requires GoodChain(a) && GoodChain(b) && NoCollisions(a, b)
    ensures a != [] && b != [] ==> (Foreign(a, b) <==> a[0].id != b[0].id)
  {
    hide NoCollisions;
    if a != [] && b != [] && a[0].id == b[0].id { SameId(a, b, 0); }
  }

  lemma {:induction false} SharedGenesis(a: seq<Header>, b: seq<Header>)
    ensures a != [] && b != [] && a[0] == b[0] ==> Common(a, b) > 0
  {
  }

  /** At equal heights, or with storage ahead, the tips tell whether all is shared. */
  lemma {:induction false} SameTip(a: seq<Header>, b: seq<Header>)
    requires GoodChain(a) && GoodChain(b) && NoCollisions(a, b) && b != [] && |a| >= |b|
    ensures !Foreign(a, b) ==> Common(a, b) > 0
    ensures |a| == |b| && a[|a| - 1].id == b[|b| - 1].id ==> a == b
    ensures |a| > |b| || a[|a| - 1].id != b[|b| - 1].id ==> Common(a, b) < |a|
  {
    hide Common, NoCollisions;
    CommonPrefix(a, b);
    SharedGenesis(a, b);
    FirstIds(a, b);
    if |a| == |b| && a[|a| - 1].id == b[|b| - 1].id {
      SameIdSamePast(a, b, |a| - 1);
      assert a[..|a|] == a && b[..|b|] == b;
    }
    if Common(a, b) == |a| { assert a[..|a|] == a && b[..|b|] == b; }
  }
}
