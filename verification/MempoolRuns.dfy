/**
  Whole runs of the mempool: whatever batches arrive, whatever is dropped or confirmed, the result
  equals what one addNewTxs on an empty mempool would build from the transactions that are left; and
  whatever double-spend proofs arrive, they stay tied to the pool.
*/
module MempoolRuns {
  import opened Ids
  import opened MempoolMeaning
  import opened MempoolSpec
  import opened MempoolAdd
  import opened MempoolDrop
  import opened MempoolConfirm
  import opened MempoolLedger
  import opened MempoolDsps
  import opened DSProofs
  import opened MempoolModel
  import opened SynchDsps

  /** The transactions in the pool and the confirmed outputs in the database. */
  datatype World = World(pool: Pool, db: Confirmed)

  datatype Event =
    | Add(txsNew: Pool, db: Confirmed)
    | Drop(txids: set<TxHash>)
    | Confirm(block: BlockTxs, height: nat)
    | Clear(db: Confirmed)
    | Prove(downloaded: Proofs)

  /** What every event keeps of the pool: each outpoint has one spender, and none spends its own outputs. */
  ghost predicate OneSpender(pool: Pool) {
    SpentOnce(pool) && forall t, txo :: t in pool && txo in pool[t].ins ==> txo.txHash != t
  }

  /** What the node and the database guarantee about each event, and what it does to the world. */
  ghost predicate Legal(w: World, e: Event, w': World) {
    match e
    case Add(txsNew, db) =>
      && db == w.db && NewBatch(w.pool, txsNew) && w' == World(w.pool + txsNew, db)
      && SpentOnce(w'.pool)
      && (forall t, txo :: t in txsNew && txo in txsNew[t].ins ==> Found(Settled(w'.pool, db), txo))
    case Drop(txids) =>
      exists s :: DescendantsOf(w.pool, txids, s) && w' == World(w.pool - s, w.db)
    case Confirm(block, height) =>
      && ClosedUnderParents(w.pool, block.Keys) && AfterBlock(w.pool, w.db, w'.db, block, height)
      && w'.pool == w.pool - block.Keys
    case Clear(db) => w' == World(map[], db)
    case Prove(downloaded) =>
      && ProofsOk(downloaded) && w' == w
      && (forall d :: d in downloaded && downloaded[d].txHash in w.pool ==> Tied(w.pool, Known(w.pool, downloaded[d])))
  }

  lemma {:induction false} SpendsAreChildren(pool: Pool, db: Confirmed, s: set<TxHash>)
    ensures ClosedUnderChildren(Entries(pool, db), s) <==> ClosedUnderSpends(pool, s)
  {
    var f := Settled(pool, db);
    if ClosedUnderChildren(Entries(pool, db), s) {
      forall c, txo | c in pool && txo in pool[c].ins && txo.txHash in pool && txo.txHash in s
        ensures c in s
      {
        assert SpendsFrom(pool[c], txo.txHash);
        assert c in Children(f, txo.txHash);
        assert Entries(pool, db)[txo.txHash].children <= s;
      }
    }
    if ClosedUnderSpends(pool, s) {
      forall t | t in s && t in Entries(pool, db)
        ensures Entries(pool, db)[t].children <= s
      {
        assert Entries(pool, db)[t].children == Children(f, t);
      }
    }
  }

  lemma {:induction false} DropIsLegal(w: World, txids: set<TxHash>, s: set<TxHash>, w': World)
    requires txids <= s && ClosedUnderChildren(Entries(w.pool, w.db), s)
    requires forall s' :: txids <= s' && ClosedUnderChildren(Entries(w.pool, w.db), s') ==> s <= s'
    requires Legal(w, Drop(txids), w')
    ensures w' == World(w.pool - s, w.db) && ClosedUnderSpends(w.pool, s)
  {
    hide Entries, ClosedUnderChildren, ClosedUnderSpends;
    var r :| DescendantsOf(w.pool, txids, r) && w' == World(w.pool - r, w.db);
    SpendsAreChildren(w.pool, w.db, s);
    SpendsAreChildren(w.pool, w.db, r);
    assert r == s;
  }

  lemma {:induction false} LegalKeepsOneSpender(w: World, e: Event, w': World)
    requires OneSpender(w.pool) && Legal(w, e, w')
    ensures OneSpender(w'.pool)
  {
    hide DescendantsOf, ClosedUnderParents, AfterBlock, Found, Settled;
  }

  /** A mempool that is canonical for its world, with proofs tied to its pool. */
  ghost predicate Fits(m: Mempool, w: World)
    reads m, m.dsps
  {
    && Canonical(m.txs, m.hashXTxs, w.pool, w.db) && OneSpender(w.pool)
    && m.dsps.Valid() && AllTied(w.pool, m.dsps.dsproofs)
  }

  lemma {:induction false} NewAreUnlinked(pool: Pool, proofs: Proofs, links: Links, txsNew: Pool)
    requires AllTied(pool, proofs) && TwoWay(links, proofs, {}) && NewBatch(pool, txsNew)
    ensures forall t :: t in txsNew ==> LinksOf(links, t) == {}
  {
    hide AllTied, TwoWay, LinksOf;
    forall t | t in txsNew ensures LinksOf(links, t) == {} {
      if LinksOf(links, t) != {} { LinkedIsInPool(pool, proofs, links, t); }
    }
  }

  method ApplyAdd(m: Mempool, txsNew: Pool, db: Confirmed, ghost w: World, ghost w': World)
    requires Fits(m, w) && Legal(w, Add(txsNew, db), w')
    modifies m`txs, m`hashXTxs, m.dsps
    ensures Fits(m, w')
  {
    LegalKeepsOneSpender(w, Add(txsNew, db), w');
    ghost var proofs, links := m.dsps.dsproofs, m.dsps.txDspsMap;
    hide Canonical, OneSpender, SpentOnce, NewBatch, Found, Settled, OnlyAffected, AffectedBy, NewLinksReported, LinksGrow,
         ParentsProofsInherited, NoStrays, AllTied, TwoWay, ProofsOk, LinksOf, Spendable;
    FoundMeans(w'.pool, db);
    NewAreUnlinked(w.pool, proofs, links, txsNew);
    var r, dsps := m.AddNewTxs({}, txsNew, db, w.pool);
    CanonicalParts(m.txs, m.hashXTxs, w'.pool, w'.db);
    BatchTied(w.pool, txsNew, db, m.txs, proofs, links, m.dsps.dsproofs, m.dsps.txDspsMap);
  }

  method ApplyDrop(m: Mempool, txids: set<TxHash>, ghost w: World, ghost w': World)
    requires Fits(m, w) && Legal(w, Drop(txids), w')
    modifies m`txs, m`hashXTxs, m.dsps
    ensures Fits(m, w')
  {
    CanonicalParts(m.txs, m.hashXTxs, w.pool, w.db);
    LegalKeepsOneSpender(w, Drop(txids), w');
    ghost var proofs := m.dsps.dsproofs;
    hide Canonical, Entries, ClosedUnderChildren, OneSpender, SpentOnce, DescendantsOf, ListsMatch, ListsSorted, Resolved,
         SharesProof, Involves, WithoutTxs, TwoWay, ProofsOk, AllTied, Legal;
    var s, affected, dsps := m.DropTxs(txids, w.pool, w.db);
    DropIsLegal(w, txids, s, w');
    DropTied(w.pool, proofs, s);
  }

  lemma {:induction false} ConfirmIsLegal(w: World, block: BlockTxs, height: nat, w': World)
    requires Legal(w, Confirm(block, height), w')
    ensures ClosedUnderParents(w.pool, block.Keys) && ClosedUnderParents(w.pool, block.Keys * w.pool.Keys)
    ensures AfterBlock(w.pool, w.db, w'.db, block, height)
    ensures w'.pool == w.pool - block.Keys == w.pool - block.Keys * w.pool.Keys
  {
    hide AfterBlock;
    assert w.pool - block.Keys == w.pool - block.Keys * w.pool.Keys;
  }

  method ApplyConfirm(m: Mempool, block: BlockTxs, height: nat, ghost w: World, ghost w': World)
    requires Fits(m, w) && Legal(w, Confirm(block, height), w')
    modifies m`txs, m`hashXTxs, m.dsps
    ensures Fits(m, w')
  {
    hide Canonical, Entries, OneSpender, SpentOnce, AfterBlock, ClosedUnderParents, SharesProof, Involves, WithoutTxs, NewlyParentless,
         TwoWay, ProofsOk, AllTied, Legal, SpendsConfirmedBy;
    ConfirmIsLegal(w, block, height, w');
    LegalKeepsOneSpender(w, Confirm(block, height), w');
    ghost var proofs := m.dsps.dsproofs;
    var affected, dsps := m.ConfirmedInBlock(block, height, w.pool, w.db, w'.db);
    ConfirmTied(w.pool, proofs, block.Keys * w.pool.Keys);
  }

  method ApplyProve(m: Mempool, downloaded: Proofs, ghost w: World)
    requires Fits(m, w) && Legal(w, Prove(downloaded), w)
    modifies m.dsps
    ensures Fits(m, w)
  {
    CanonicalParts(m.txs, m.hashXTxs, w.pool, w.db);
    EntriesKeys(w.pool, w.db);
    ghost var proofs := m.dsps.dsproofs;
    hide Canonical, Entries, OneSpender, SpentOnce, ListsMatch, ListsSorted, Resolved, WithDownloads, TwoWay, ProofsOk, AllTied,
         ClosedUnderSpends, Concerned;
    var affected := ProcessDownloads(m, downloaded, w.pool);
    DownloadsTied(w.pool, proofs, downloaded);
  }

  lemma {:induction false} NoProofsTied(pool: Pool)
    ensures AllTied(pool, map[])
  {
  }

  lemma {:induction false} WorldStays(w: World, downloaded: Proofs, w': World)
    requires Legal(w, Prove(downloaded), w')
    ensures w' == w
  {
  }

  method ApplyClear(m: Mempool, db: Confirmed, ghost w: World, ghost w': World)
    requires Fits(m, w) && Legal(w, Clear(db), w')
    modifies m`txs, m`hashXTxs, m.dsps
    ensures Fits(m, w')
  {
    LegalKeepsOneSpender(w, Clear(db), w');
    hide Canonical, OneSpender, AllTied, TwoWay, ProofsOk;
    m.Clear(db);
    NoProofsTied(w'.pool);
  }

  /** One event. */
  method Apply(m: Mempool, e: Event, ghost w: World, ghost w': World)
    requires Fits(m, w) && Legal(w, e, w')
    modifies m`txs, m`hashXTxs, m.dsps
    ensures Fits(m, w')
  {
    hide Legal, Fits;
    match e {
      case Add(txsNew, db) => ApplyAdd(m, txsNew, db, w, w');
      case Drop(txids) => ApplyDrop(m, txids, w, w');
      case Confirm(block, height) => ApplyConfirm(m, block, height, w, w');
      case Prove(downloaded) =>
        WorldStays(w, downloaded, w');
        ApplyProve(m, downloaded, w);
      case Clear(db) => ApplyClear(m, db, w, w');
    }
  }

  /** Over every legal run from an empty mempool the mempool stays canonical, its value balances, and its
      proofs are linked to pool transactions only, and to all that spend from linked ones. */
  method Replay(events: seq<Event>, ghost worlds: seq<World>) returns (m: Mempool)
    requires |worlds| == |events| + 1 && worlds[0].pool == map[]
    requires forall i :: 0 <= i < |events| ==> Legal(worlds[i], events[i], worlds[i + 1])
    ensures fresh(m) && fresh(m.dsps) && m.dsps.Valid()
    ensures var w := worlds[|events|];
      && Canonical(m.txs, m.hashXTxs, w.pool, w.db) && OneSpender(w.pool) && Balances(m.txs, w.pool, w.db)
      && AllTied(w.pool, m.dsps.dsproofs) && Means(m.txs, m.hashXTxs, w.pool, w.db)
  {
    hide Canonical, Legal, TwoWay, ProofsOk, AllTied, Means;
    m := new Mempool();
    NoProofsTied(map[]);
    for i := 0 to |events|
      invariant fresh(m) && fresh(m.dsps) && Fits(m, worlds[i])
    {
      Apply(m, events[i], worlds[i], worlds[i + 1]);
    }
    LedgerBalances(m.txs, m.hashXTxs, worlds[|events|].pool, worlds[|events|].db);
    CanonicalMeans(m.txs, m.hashXTxs, worlds[|events|].pool, worlds[|events|].db);
  }

  /** The check the repository's own bench makes: a second mempool built at once from the transactions
      that are left is equal, entry by entry and list by list. */
  method RebuildAgrees(m: Mempool, pool: Pool, db: Confirmed) returns (m2: Mempool)
    requires Canonical(m.txs, m.hashXTxs, pool, db)
    requires NewBatch(map[], pool)
    ensures fresh(m2) && fresh(m2.dsps) && m2.txs == m.txs && m2.hashXTxs == m.hashXTxs
    ensures m2.dsps.Valid() && m2.dsps.dsproofs == map[]
  {
    hide ListsMatch, ListsSorted, Entries;
    FoundMeans(pool, db);
    m2 := new Mempool();
    var r, dsps := m2.AddNewTxs({}, pool, db, map[]);
    assert map[] + pool == pool;
    CanonicalUnique(m.txs, m.hashXTxs, m2.txs, m2.hashXTxs, pool, db);
  }

  lemma {:induction false} FitsFacts(m: Mempool, pool: Pool, db: Confirmed)
    requires Fits(m, World(pool, db))
    ensures Canonical(m.txs, m.hashXTxs, pool, db) && m.txs.Keys == pool.Keys && NewBatch(map[], pool)
    ensures m.dsps.Valid() && AllTied(pool, m.dsps.dsproofs)
  {
    hide SpentOnce, TwoWay, ProofsOk, AllTied;
    CanonicalParts(m.txs, m.hashXTxs, pool, db);
    EntriesKeys(pool, db);
  }

  /** After a clear: when the same transactions and the same proofs are downloaded again, all is as it was,
      the index of double-spend proofs included. */
  method ResyncAgrees(m: Mempool, downloaded: Proofs, pool: Pool, db: Confirmed) returns (m2: Mempool)
    requires Fits(m, World(pool, db)) && ProofsOk(downloaded) && SameProofs(m.dsps.dsproofs, downloaded)
    requires forall d :: d in downloaded && downloaded[d].txHash in pool ==> Tied(pool, Known(pool, downloaded[d]))
    ensures fresh(m2) && m2.txs == m.txs && m2.hashXTxs == m.hashXTxs
    ensures m2.dsps.dsproofs == m.dsps.dsproofs && m2.dsps.txDspsMap == m.dsps.txDspsMap
  {
    hide Fits, Canonical, NewBatch, WithDownloads, TwoWay, ProofsOk, AllTied, Tied, SameProofs, Concerned, Known;
    FitsFacts(m, pool, db);
    NoProofsTied(pool);
    DownloadsTied(pool, map[], downloaded);
    SameDownloads(pool, m.dsps.dsproofs, downloaded);
    m2 := RebuildAgrees(m, pool, db);
    var affected := ProcessDownloads(m2, downloaded, pool);
    TiedUnique(pool, m.dsps.dsproofs, m2.dsps.dsproofs);
    LinksUnique(m.dsps.txDspsMap, m2.dsps.txDspsMap, m.dsps.dsproofs);
  }

  /** After any legal run, a second mempool built by one addNewTxs from the transactions that are left is equal. */
  method RunThenRebuild(events: seq<Event>, ghost worlds: seq<World>, pool: Pool, db: Confirmed) returns (m: Mempool, m2: Mempool)
    requires |worlds| == |events| + 1 && worlds[0].pool == map[] && worlds[|events|] == World(pool, db)
    requires forall i :: 0 <= i < |events| ==> Legal(worlds[i], events[i], worlds[i + 1])
    ensures fresh(m) && fresh(m2) && Canonical(m.txs, m.hashXTxs, pool, db)
    ensures m2.txs == m.txs && m2.hashXTxs == m.hashXTxs
  {
    hide Canonical, Legal, Balances, SpentOnce;
    m := Replay(events, worlds);
    m2 := RebuildAgrees(m, pool, db);
  }
}
