/**
  While the node is still downloading itself, undo information is not saved for blocks far below the
  headers the node knows of.  When that does no harm.
*/
module InitialDownload {
  import opened Reorg

  /** Chains of one network, each extending the one before. */
  ghost predicate Extending(a: seq<Header>, nodes: seq<Node>)
    decreases |nodes|
  {
    nodes != [] ==>
      var b := nodes[0].chain;
      a <= b && b != [] && GoodChain(b) && NoCollisions(b, b) && Extending(b, nodes[1..])
  }

  /** Every chain whose new blocks are stored without undo information, n blocks having been stored before
      with the undo information u, ends at least undoDepth blocks below the end of a chain of length total. */
  ghost predicate Buried(n: nat, u: set<nat>, nodes: seq<Node>, undoDepth: nat, total: nat)
    decreases |nodes|
  {
    nodes != [] ==>
      var node, len := nodes[0], |nodes[0].chain|;
      if NotReady(node) then Buried(n, u, nodes[1..], undoDepth, total)
      else
        && (n < len && Suppresses(u, node, undoDepth) ==> len + undoDepth <= total)
        && Buried(len, UndoArrived(u, n, node, undoDepth), nodes[1..], undoDepth, total)
  }

  lemma {:induction false} CommonOfExtension(a: seq<Header>, b: seq<Header>)
    requires a <= b
    ensures Common(a, b) == |a|
  {
    assert a[..|a|] == a && b[..|a|] == a;
    CommonAtLeast(a, b, |a|);
    CommonPrefix(a, b);
  }

  /** One chain: the window at the end is covered iff it was before and the new blocks in it are saved. */
  lemma {:induction false} WindowStep(n: nat, u: set<nat>, node: Node, undoDepth: nat, total: nat)
    requires n <= |node.chain| <= total && forall h :: h in u ==> h < n
    ensures Window(|node.chain|, UndoArrived(u, n, node, undoDepth), total - undoDepth) <==>
      && Window(n, u, total - undoDepth)
      && (n < |node.chain| && Suppresses(u, node, undoDepth) ==> |node.chain| + undoDepth <= total)
  {
    var len, lo := |node.chain|, total - undoDepth;
    var saving := !Suppresses(u, node, undoDepth);
    assert Below(u, n) == u;
    var u' := UndoArrived(u, n, node, undoDepth);
    hide Suppresses;
    forall h: nat | lo <= h < len ensures h in u' <==> if h < n then h in u else saving {
      AddedIs(u, n, len, len, undoDepth, saving, h);
    }
    hide UndoArrived;
    if !saving && n < len && lo < len {
      assert 0 <= len - 1 < len && len - 1 !in u';
    }
  }

  /** All blocks stored without undo information end up deep enough when the last chain is as high as the
      headers each node in its initial download announced. */
  lemma {:induction false} AnnouncedReached(n: nat, u: set<nat>, nodes: seq<Node>, undoDepth: nat, total: nat)
    requires forall i :: 0 <= i < |nodes| && nodes[i].ibd ==> nodes[i].nHeaders < total
    ensures Buried(n, u, nodes, undoDepth, total)
    decreases |nodes|
  {
    if nodes != [] {
      assert nodes[0].ibd ==> nodes[0].nHeaders < total;
      assert forall i :: 0 <= i < |nodes[1..]| ==> nodes[1..][i] == nodes[i + 1];
      hide UndoArrived;
      AnnouncedReached(n, u, nodes[1..], undoDepth, total);
      AnnouncedReached(|nodes[0].chain|, UndoArrived(u, n, nodes[0], undoDepth), nodes[1..], undoDepth, total);
    }
  }

  lemma {:induction false} ExtendingStill(a: seq<Header>, nodes: seq<Node>)
    requires nodes != [] && Extending(a, nodes)
    ensures Extending(a, nodes[1..])
  {
    hide GoodChain, NoCollisions;
    if nodes[1..] != [] { assert a <= nodes[0].chain <= nodes[1..][0].chain; }
  }

  lemma {:induction false} LengthsGrow(a: seq<Header>, nodes: seq<Node>)
    requires nodes != [] && Extending(a, nodes)
    ensures |a| <= |nodes[0].chain| <= |nodes[|nodes| - 1].chain|
    decreases |nodes|
  {
    hide GoodChain, NoCollisions;
    if |nodes| > 1 {
      assert nodes[1..][|nodes| - 2] == nodes[|nodes| - 1];
      LengthsGrow(nodes[0].chain, nodes[1..]);
    }
  }

  lemma {:induction false} ReadyToSynchronise(a: seq<Header>, b: seq<Header>, u: set<nat>)
    requires a <= b && b != [] && NoCollisions(b, b)
    ensures NoCollisions(a, b) && !Foreign(a, b) && CanRewind(a, u, b)
  {
    CommonOfExtension(a, b);
    hide Common;
    forall x | x in a ensures x in b {
      var i :| 0 <= i < |a| && a[i] == x;
      assert b[i] == x;
    }
  }

  /** What storage needs of the next chain, and what is left for the ones after it. */
  lemma {:induction false} NextChain(a: seq<Header>, u: set<nat>, nodes: seq<Node>)
    requires nodes != [] && Extending(a, nodes)
    ensures var b := nodes[0].chain;
      && b != [] && GoodChain(b) && NoCollisions(a, b) && !Foreign(a, b) && CanRewind(a, u, b) && Common(a, b) == |a|
      && |a| <= |b| <= |nodes[|nodes| - 1].chain|
    ensures Extending(a, nodes[1..]) && Extending(nodes[0].chain, nodes[1..])
  {
    hide Common, CanRewind, Foreign, GoodChain, NoCollisions;
    ExtendingStill(a, nodes);
    LengthsGrow(a, nodes);
    CommonOfExtension(a, nodes[0].chain);
    ReadyToSynchronise(a, nodes[0].chain, u);
  }

  /** Storage catches up with a node whose chain only grows: it always gets there, and at the end the last
      undoDepth blocks can be undone if and only if the blocks stored without undo information end below. */
  method CatchUp(c: Controller, nodes: seq<Node>)
    requires c.storage.Valid() && Extending(c.storage.headers, nodes)
    requires nodes != [] && !NotReady(nodes[|nodes| - 1])
    modifies c.storage, c.storage.verifier
    ensures c.storage.Valid() && c.storage.headers == nodes[|nodes| - 1].chain
    ensures var total := |nodes[|nodes| - 1].chain|;
      c.storage.Covered() <==>
        && old(c.storage.CoveredFrom(total - c.storage.undoDepth))
        && Buried(old(|c.storage.headers|), old(c.storage.undo), nodes, c.storage.undoDepth, total)
  {
    hide Extending, GoodChain, NoCollisions, Common, UndoArrived, UndoMeans, Suppresses, Window, CanRewind, Stuck, Below;
    var storage := c.storage;
    ghost var d, total := storage.undoDepth, |nodes[|nodes| - 1].chain|;
    ghost var goal := Window(|storage.headers|, storage.undo, total - d) && Buried(|storage.headers|, storage.undo, nodes, d, total);
    assert nodes[0..] == nodes;
    var i := 0;
    while i < |nodes|
      invariant 0 <= i <= |nodes| && storage.Valid() && Extending(storage.headers, nodes[i..])
      invariant i == |nodes| ==> storage.headers == nodes[|nodes| - 1].chain
      invariant goal <==> Window(|storage.headers|, storage.undo, total - d) && Buried(|storage.headers|, storage.undo, nodes[i..], d, total)
    {
      ghost var h0, u0 := storage.headers, storage.undo;
      var node := nodes[i];
      assert nodes[i..][0] == node && nodes[i..][1..] == nodes[i + 1..];
      assert nodes[i..][|nodes[i..]| - 1] == nodes[|nodes| - 1];
      NextChain(h0, u0, nodes[i..]);
      var outcome, undone := c.Synchronise(node);
      if outcome != HeaderDL {
        WindowStep(|h0|, u0, node, d, total);
      }
      i := i + 1;
    }
    assert nodes[i..] == [];
  }

  /** From an empty database: once the chain is as high as every announcement made in the initial download,
      reorganisations of at most undoDepth blocks are followed, provided none shortens the chain. */
  method CatchUpThenFollow(c: Controller, first: seq<Node>, later: seq<Node>) returns (outcome: Outcome)
    requires c.storage.Valid() && c.storage.headers == [] && Extending([], first)
    requires first != [] && !NotReady(first[|first| - 1])
    requires forall i :: 0 <= i < |first| && first[i].ibd ==> first[i].nHeaders < |first[|first| - 1].chain|
    requires Offered(first[|first| - 1].chain, later) && WithinDepth(first[|first| - 1].chain, later, c.storage.undoDepth)
    modifies c.storage, c.storage.verifier
    ensures c.storage.Valid() && outcome == UpToDate
    ensures c.storage.headers == (first + later)[|first + later| - 1].chain
  {
    hide Extending, Offered, WithinDepth, NotReady, Buried;
    AnnouncedReached(0, c.storage.undo, first, c.storage.undoDepth, |first[|first| - 1].chain|);
    CatchUp(c, first);
    DepthSuffices(c.storage.headers, c.storage.undo, later, c.storage.undoDepth);
    outcome := c.Follow(later);
  }
}
