/**
  How new mempool transactions inherit double-spend proofs: a transaction is affected by every
  proof that affects one of its in-pool parents.
*/
module MempoolDsps {
  import opened Ids
  import opened MempoolSpec
  import opened DSProofs

  type NewParents = map<TxHash, set<TxHash>>

  ghost function LinksOf(links: Links, t: TxHash): set<DspHash> {
    if t in links then links[t] else {}
  }

  /** The same proofs, though they may affect other transactions. */
  ghost predicate SameProofs(proofs: Proofs, proofs': Proofs) {
    proofs'.Keys == proofs.Keys && forall d :: d in proofs ==> proofs'[d] == proofs[d].(descendants := proofs'[d].descendants)
  }

  ghost function ParentIds(ins: seq<TXO>): set<TxHash> {
    set txo | txo in ins :: txo.txHash
  }

  /** Transaction t has every proof of its parents in `seen` that were in the pool before; parents
      from its own batch are noted for later. */
  ghost predicate SeenLinked(links: Links, newParents: NewParents, batch: set<TxHash>, t: TxHash, seen: set<TxHash>) {
    forall p :: p in seen ==>
      if p in batch then t in newParents && p in newParents[t] else LinksOf(links, p) <= LinksOf(links, t)
  }

  /** Only links of t have been added to. */
  ghost predicate LinksGrowAt(links: Links, links': Links, t: TxHash) {
    && (forall x :: x != t ==> LinksOf(links', x) == LinksOf(links, x))
    && LinksOf(links, t) <= LinksOf(links', t)
  }

  /** Exactly the transactions that gained a link are reported. */
  ghost predicate Reports(links: Links, links': Links, reported: set<TxHash>) {
    forall x :: x in reported <==> LinksOf(links', x) != LinksOf(links, x)
  }

  // ----- links come from parents only

  /** A set that contains the pool transactions spending from its members. */
  ghost predicate ClosedUnderSpends(pool: Pool, s: set<TxHash>) {
    forall c, txo :: c in pool && txo in pool[c].ins && txo.txHash in pool && txo.txHash in s ==> c in s
  }

  /** s is the least set with the ids that contains the pool transactions spending from its members. */
  ghost predicate DescendantsOf(pool: Pool, txids: set<TxHash>, s: set<TxHash>) {
    && txids <= s && ClosedUnderSpends(pool, s)
    && (forall s' :: txids <= s' && ClosedUnderSpends(pool, s') ==> s <= s')
  }

  ghost predicate IsParent(pool: Pool, t: TxHash, p: TxHash) {
    t in pool && p in pool && SpendsFrom(pool[t], p)
  }

  ghost predicate NotedAreParents(pool: Pool, newParents: NewParents) {
    forall t, p :: t in newParents && p in newParents[t] ==> IsParent(pool, t, p)
  }

  ghost predicate LinkedWithin(links: Links, d: DspHash, s: set<TxHash>) {
    forall t :: d in LinksOf(links, t) ==> t in s
  }

  /** Every set that is closed under spends and had all transactions linked to a proof still has. */
  ghost predicate NoStrays(pool: Pool, links: Links, links': Links) {
    forall d, s :: ClosedUnderSpends(pool, s) && LinkedWithin(links, d, s) ==> LinkedWithin(links', d, s)
  }

  lemma {:induction false} NoStraysNow(pool: Pool, links: Links)
    ensures NoStrays(pool, links, links)
  {
  }

  lemma {:induction false} NoStraysTrans(pool: Pool, a: Links, b: Links, c: Links)
    requires NoStrays(pool, a, b) && NoStrays(pool, b, c)
    ensures NoStrays(pool, a, c)
  {
    hide ClosedUnderSpends, LinkedWithin;
  }

  /** A transaction gets links of a parent. */
  lemma {:induction false} NoStraysFromParent(pool: Pool, links: Links, links': Links, t: TxHash, p: TxHash)
    requires LinksGrowAt(links, links', t) && LinksOf(links', t) == LinksOf(links, t) + LinksOf(links, p) && IsParent(pool, t, p)
    ensures NoStrays(pool, links, links')
  {
    hide LinksOf;
    forall d, s | ClosedUnderSpends(pool, s) && LinkedWithin(links, d, s) ensures LinkedWithin(links', d, s) {
      if d in LinksOf(links, p) {
        var txo :| txo in pool[t].ins && txo.txHash == p;
        assert t in s;
      }
    }
  }

  // ----- the old parents

  /** Linked proofs exist, and with no proofs there are no links. */
  lemma {:induction false} LinksAreProofs(links: Links, proofs: Proofs, t: TxHash)
    requires TwoWay(links, proofs, {})
    ensures LinksOf(links, t) <= proofs.Keys
  {
    forall d | d in LinksOf(links, t)
      ensures d in proofs
    {
      assert Linked(links, t, d);
      assert Affects(proofs, d, t);
    }
  }

  lemma {:induction false} SeenLinkedStays(links: Links, links': Links, newParents: NewParents, newParents': NewParents,
                                           batch: set<TxHash>, t: TxHash, seen: set<TxHash>, u: TxHash)
    requires SeenLinked(links, newParents, batch, t, seen) && LinksGrowAt(links, links', u)
    requires u != t && u in batch
    requires t in newParents ==> t in newParents' && newParents'[t] == newParents[t]
    ensures SeenLinked(links', newParents', batch, t, seen)
  {
  }

  /** Links that addTx could still add among the noted transactions. */
  ghost function Missing(proofs: Proofs, ts: set<TxHash>): set<(DspHash, TxHash)> {
    set d, t | d in proofs && t in ts && t !in proofs[d].descendants :: (d, t)
  }

  lemma {:induction false} MissingShrinks(proofs: Proofs, ts: set<TxHash>, d: DspHash, t: TxHash)
    requires d in proofs && t in ts
    ensures var proofs' := proofs[d := proofs[d].(descendants := proofs[d].descendants + {t})];
            && Missing(proofs', ts) == Missing(proofs, ts) - {(d, t)}
            && (t !in proofs[d].descendants ==> (d, t) in Missing(proofs, ts))
  {
  }

  /** The loop of addNewTxs that gives transaction t the proofs of one parent. */
  method LinkAll(dsps: DSPs, dspHashes: set<DspHash>, t: TxHash, ghost ts: set<TxHash>) returns (added: nat)
    requires dsps.Valid() && dspHashes <= dsps.dsproofs.Keys && t in ts
    modifies dsps
    ensures dsps.Valid() && SameProofs(old(dsps.dsproofs), dsps.dsproofs)
    ensures LinksGrowAt(old(dsps.txDspsMap), dsps.txDspsMap, t)
    ensures LinksOf(dsps.txDspsMap, t) == LinksOf(old(dsps.txDspsMap), t) + dspHashes
    ensures added == 0 <==> dspHashes <= LinksOf(old(dsps.txDspsMap), t)
    ensures added == 0 ==> dsps.dsproofs == old(dsps.dsproofs)
    ensures Missing(dsps.dsproofs, ts) <= Missing(old(dsps.dsproofs), ts)
    ensures added > 0 ==> Missing(dsps.dsproofs, ts) < Missing(old(dsps.dsproofs), ts)
  {
    hide Missing, TwoWay, ProofsOk;
    ghost var links0, proofs0 := dsps.txDspsMap, dsps.dsproofs;
    added := 0;
    var todo := dspHashes;
    ghost var done := {};
    while todo != {}
      invariant done !! todo && done + todo == dspHashes
      invariant dsps.Valid() && SameProofs(proofs0, dsps.dsproofs)
      invariant forall x :: LinksOf(dsps.txDspsMap, x) == LinksOf(links0, x) + if x == t then done else {}
      invariant added == 0 <==> done <= LinksOf(links0, t)
      invariant added == 0 ==> dsps.dsproofs == proofs0
      invariant Missing(dsps.dsproofs, ts) <= Missing(proofs0, ts)
      invariant added > 0 ==> Missing(dsps.dsproofs, ts) < Missing(proofs0, ts)
    {
      var d :| d in todo;
      todo := todo - {d};
      MissingShrinks(dsps.dsproofs, ts, d, t);
      LinkedAffects(dsps, d, t);
      ghost var before := dsps.dsproofs;
      var b := dsps.AddTx(d, t);
      assert !b ==> before[d].descendants + {t} == before[d].descendants;
      forall x
        ensures LinksOf(dsps.txDspsMap, x) == LinksOf(links0, x) + if x == t then done + {d} else {}
      {
        assert dsps.DspHashesForTx(x) == LinksOf(dsps.txDspsMap, x);
      }
      done := done + {d};
      if b {
        added := added + 1;
      }
    }
    assert done == dspHashes;
  }

  lemma {:induction false} LinkedAffects(dsps: DSPs, d: DspHash, t: TxHash)
    requires dsps.Valid()
    ensures d in LinksOf(dsps.txDspsMap, t) <==> d in dsps.dsproofs && t in dsps.dsproofs[d].descendants
  {
    assert Linked(dsps.txDspsMap, t, d) <==> Affects(dsps.dsproofs, d, t);
  }

  // ----- parents within the batch

  /** The links of transactions outside `ts` are as before, the others have at least theirs. */
  ghost predicate LinksGrow(links: Links, links': Links, ts: set<TxHash>) {
    && (forall x :: x !in ts ==> LinksOf(links', x) == LinksOf(links, x))
    && (forall x :: LinksOf(links, x) <= LinksOf(links', x))
  }

  ghost predicate Inherits(links: Links, newParents: NewParents, t: TxHash) {
    t in newParents ==> forall p :: p in newParents[t] ==> LinksOf(links, p) <= LinksOf(links, t)
  }

  /** Give t the proofs of each of its noted parents. */
  method LinkParents(dsps: DSPs, parents: set<TxHash>, t: TxHash, ghost ts: set<TxHash>, ghost pool: Pool) returns (addCt: nat)
    requires dsps.Valid() && t in ts && forall p :: p in parents ==> IsParent(pool, t, p)
    modifies dsps
    ensures dsps.Valid() && SameProofs(old(dsps.dsproofs), dsps.dsproofs)
    ensures LinksGrowAt(old(dsps.txDspsMap), dsps.txDspsMap, t) && NoStrays(pool, old(dsps.txDspsMap), dsps.txDspsMap)
    ensures addCt == 0 <==> LinksOf(dsps.txDspsMap, t) == LinksOf(old(dsps.txDspsMap), t)
    ensures addCt == 0 ==> dsps.dsproofs == old(dsps.dsproofs)
    ensures addCt == 0 ==> forall p :: p in parents ==> LinksOf(dsps.txDspsMap, p) <= LinksOf(dsps.txDspsMap, t)
    ensures Missing(dsps.dsproofs, ts) <= Missing(old(dsps.dsproofs), ts)
    ensures addCt > 0 ==> Missing(dsps.dsproofs, ts) < Missing(old(dsps.dsproofs), ts)
  {
    hide Missing, TwoWay, ProofsOk, IsParent, NoStrays;
    ghost var links0, proofs0 := dsps.txDspsMap, dsps.dsproofs;
    NoStraysNow(pool, links0);
    addCt := 0;
    var todo := parents;
    while todo != {}
      invariant todo <= parents
      invariant dsps.Valid() && SameProofs(proofs0, dsps.dsproofs)
      invariant LinksGrowAt(links0, dsps.txDspsMap, t) && NoStrays(pool, links0, dsps.txDspsMap)
      invariant addCt == 0 <==> LinksOf(dsps.txDspsMap, t) == LinksOf(links0, t)
      invariant addCt == 0 ==> dsps.dsproofs == proofs0
      invariant addCt == 0 ==> forall p :: p in parents - todo ==> LinksOf(dsps.txDspsMap, p) <= LinksOf(dsps.txDspsMap, t)
      invariant Missing(dsps.dsproofs, ts) <= Missing(proofs0, ts)
      invariant addCt > 0 ==> Missing(dsps.dsproofs, ts) < Missing(proofs0, ts)
    {
      var p :| p in todo;
      todo := todo - {p};
      LinksAreProofs(dsps.txDspsMap, dsps.dsproofs, p);
      ghost var links1 := dsps.txDspsMap;
      var added := LinkAll(dsps, dsps.DspHashesForTx(p), t, ts);
      NoStraysFromParent(pool, links1, dsps.txDspsMap, t, p);
      NoStraysTrans(pool, links0, links1, dsps.txDspsMap);
      assert added == 0 ==> LinksOf(dsps.txDspsMap, t) == LinksOf(links1, t);
      addCt := addCt + added;
    }
  }

  /** What a number of rounds keep: they only add links that come from parents, and report who gained one. */
  ghost predicate Spreads(pool: Pool, links: Links, links': Links, ts: set<TxHash>, affected: set<TxHash>) {
    LinksGrow(links, links', ts) && Reports(links, links', affected) && NoStrays(pool, links, links')
  }

  lemma {:induction false} NothingSpread(pool: Pool, links: Links, ts: set<TxHash>)
    ensures Spreads(pool, links, links, ts, {})
  {
    NoStraysNow(pool, links);
  }

  lemma {:induction false} SpreadsTrans(pool: Pool, a: Links, b: Links, c: Links, ts: set<TxHash>, first: set<TxHash>, more: set<TxHash>)
    requires Spreads(pool, a, b, ts, first) && Spreads(pool, b, c, ts, more)
    ensures Spreads(pool, a, c, ts, first + more)
  {
    hide LinksOf, NoStrays;
    forall x ensures LinksOf(a, x) <= LinksOf(b, x) <= LinksOf(c, x) {}
    NoStraysTrans(pool, a, b, c);
    ReportsAgain(a, b, c, first, more);
  }

  lemma {:induction false} SpreadsAt(pool: Pool, links: Links, links': Links, ts: set<TxHash>, t: TxHash)
    requires LinksGrowAt(links, links', t) && NoStrays(pool, links, links') && t in ts
    ensures Spreads(pool, links, links', ts, if LinksOf(links', t) == LinksOf(links, t) then {} else {t})
  {
    hide LinksOf, NoStrays;
  }

  /** One round of the do-while loop over all noted transactions. */
  method PropagateRound(dsps: DSPs, newParents: NewParents, ghost pool: Pool) returns (addCt: nat, affected: set<TxHash>)
    requires dsps.Valid() && NotedAreParents(pool, newParents)
    modifies dsps
    ensures dsps.Valid() && SameProofs(old(dsps.dsproofs), dsps.dsproofs)
    ensures Spreads(pool, old(dsps.txDspsMap), dsps.txDspsMap, newParents.Keys, affected)
    ensures addCt == 0 ==> forall t :: t in newParents ==> Inherits(dsps.txDspsMap, newParents, t)
    ensures addCt > 0 ==> Missing(dsps.dsproofs, newParents.Keys) < Missing(old(dsps.dsproofs), newParents.Keys)
  {
    hide Missing, TwoWay, ProofsOk, Spreads, LinksGrowAt, NoStrays, IsParent;
    ghost var links0, proofs0, ts := dsps.txDspsMap, dsps.dsproofs, newParents.Keys;
    addCt, affected := 0, {};
    NothingSpread(pool, links0, ts);
    var todo := newParents.Keys;
    while todo != {}
      invariant todo <= ts
      invariant dsps.Valid() && SameProofs(proofs0, dsps.dsproofs)
      invariant Spreads(pool, links0, dsps.txDspsMap, ts, affected)
      invariant addCt == 0 ==> dsps.dsproofs == proofs0
      invariant addCt == 0 ==> forall t :: t in ts - todo ==> Inherits(dsps.txDspsMap, newParents, t)
      invariant Missing(dsps.dsproofs, ts) <= Missing(proofs0, ts)
      invariant addCt > 0 ==> Missing(dsps.dsproofs, ts) < Missing(proofs0, ts)
    {
      var t :| t in todo;
      todo := todo - {t};
      ghost var links1, affected1 := dsps.txDspsMap, affected;
      var added := LinkParents(dsps, newParents[t], t, ts, pool);
      SpreadsAt(pool, links1, dsps.txDspsMap, ts, t);
      SpreadsTrans(pool, links0, links1, dsps.txDspsMap, ts, affected, if added == 0 then {} else {t});
      if added == 0 {
        LinksUnique(links1, dsps.txDspsMap, dsps.dsproofs);
      } else {
        affected := affected + {t};
      }
      assert added == 0 ==> affected1 + {} == affected;
      addCt := addCt + added;
    }
  }

  /** The do-while loop.  It ends because every round but the last uses up missing links, and then
      every noted transaction has all proofs of its noted parents. */
  method Propagate(dsps: DSPs, newParents: NewParents, ghost pool: Pool) returns (affected: set<TxHash>)
    requires dsps.Valid() && NotedAreParents(pool, newParents)
    modifies dsps
    ensures dsps.Valid() && SameProofs(old(dsps.dsproofs), dsps.dsproofs)
    ensures Spreads(pool, old(dsps.txDspsMap), dsps.txDspsMap, newParents.Keys, affected)
    ensures forall t :: t in newParents ==> Inherits(dsps.txDspsMap, newParents, t)
  {
    hide Missing, TwoWay, ProofsOk, Inherits, Spreads, NotedAreParents;
    affected := {};
    NothingSpread(pool, dsps.txDspsMap, newParents.Keys);
    var addCt: nat := 1;
    while addCt > 0
      invariant dsps.Valid() && SameProofs(old(dsps.dsproofs), dsps.dsproofs)
      invariant Spreads(pool, old(dsps.txDspsMap), dsps.txDspsMap, newParents.Keys, affected)
      invariant addCt == 0 ==> forall t :: t in newParents ==> Inherits(dsps.txDspsMap, newParents, t)
      decreases addCt > 0, Missing(dsps.dsproofs, newParents.Keys)
    {
      var more;
      ghost var links1 := dsps.txDspsMap;
      addCt, more := PropagateRound(dsps, newParents, pool);
      SpreadsTrans(pool, old(dsps.txDspsMap), links1, dsps.txDspsMap, newParents.Keys, affected, more);
      affected := affected + more;
    }
  }

  // ----- transactions leave the pool

  /** All proofs, after the transactions ts are gone. */
  ghost function WithoutTxs(proofs: Proofs, ts: set<TxHash>): Proofs {
    map d | d in proofs && proofs[d].txHash !in ts :: proofs[d].(descendants := proofs[d].descendants - ts)
  }

  lemma {:induction false} WithoutNone(proofs: Proofs)
    ensures WithoutTxs(proofs, {}) == proofs
  {
    forall d | d in proofs
      ensures proofs[d].descendants - {} == proofs[d].descendants
    {
    }
  }

  lemma {:induction false} WithoutOneMore(proofs: Proofs, ts: set<TxHash>, t: TxHash)
    ensures WithoutTxs(proofs, ts + {t}) == WithoutTx(WithoutTxs(proofs, ts), t)
  {
    forall d | d in proofs
      ensures proofs[d].descendants - (ts + {t}) == proofs[d].descendants - ts - {t}
    {
    }
  }

  lemma {:induction false} WithoutMoreIsEmpty(proofs: Proofs, ts: set<TxHash>, more: set<TxHash>)
    requires ts <= more && |WithoutTxs(proofs, ts)| == 0
    ensures WithoutTxs(proofs, more) == WithoutTxs(proofs, ts)
  {
    forall d | d in proofs
      ensures proofs[d].txHash in ts
    {
      assert d in WithoutTxs(proofs, ts) || proofs[d].txHash in ts;
    }
  }

  /** Transactions without links can be left alone. */
  lemma {:induction false} WithoutUnlinked(links: Links, proofs: Proofs, ts: set<TxHash>, linked: set<TxHash>)
    requires ProofsOk(proofs) && TwoWay(links, proofs, {}) && linked <= ts
    requires |proofs| == 0 || forall t :: t in ts && t !in linked ==> LinksOf(links, t) == {}
    ensures WithoutTxs(proofs, ts) == WithoutTxs(proofs, linked)
  {
    forall d | d in proofs
      ensures proofs[d].descendants - ts == proofs[d].descendants - linked
      ensures proofs[d].txHash in ts <==> proofs[d].txHash in linked
    {
      forall t | t in proofs[d].descendants && t in ts
        ensures t in linked
      {
        assert Affects(proofs, d, t) && Linked(links, t, d);
      }
    }
  }

  // ----- who is told

  lemma {:induction false} SharesThroughLinks(links: Links, proofs: Proofs, ts: set<TxHash>, linked: set<TxHash>)
    requires TwoWay(links, proofs, {}) && linked <= ts
    requires |proofs| > 0 ==> forall t :: t in ts && LinksOf(links, t) != {} ==> t in linked
    ensures forall x :: SharesProof(proofs, ts, x) <==> SharesProof(proofs, linked, x)
  {
    forall x | SharesProof(proofs, ts, x) ensures SharesProof(proofs, linked, x) {
      var t, d :| t in ts && Affects(proofs, d, t) && Affects(proofs, d, x);
      assert Linked(links, t, d);
      assert d in proofs;
      assert t in linked;
    }
  }

  /** Exactly those who share a proof with a transaction that gained one are reported. */
  ghost predicate NewLinksReported(links: Links, links': Links, proofs: Proofs, reported: set<TxHash>) {
    forall y :: y in reported <==>
      exists x, d :: LinksOf(links', x) != LinksOf(links, x) && Affects(proofs, d, x) && Affects(proofs, d, y)
  }

  lemma {:induction false} ReportsSpread(links: Links, links': Links, proofs: Proofs, changed: set<TxHash>, reported: set<TxHash>)
    requires Reports(links, links', changed)
    requires if changed == {} then reported == {} else forall y :: y in reported <==> SharesProof(proofs, changed, y)
    ensures NewLinksReported(links, links', proofs, reported)
  {
    hide LinksOf;
  }

  lemma {:induction false} NothingToReport(links: Links)
    ensures Reports(links, links, {})
  {
  }

  lemma {:induction false} ReportsAgain(a: Links, b: Links, c: Links, first: set<TxHash>, more: set<TxHash>)
    requires Reports(a, b, first) && Reports(b, c, more)
    requires forall x :: LinksOf(a, x) <= LinksOf(b, x) <= LinksOf(c, x)
    ensures Reports(a, c, first + more)
  {
    hide LinksOf;
  }
}
