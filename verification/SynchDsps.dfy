/**
  The last step of src/Controller/SynchDSPsTask.cpp, which enters downloaded double-spend proofs, and what
  the proofs and the pool have to do with each other at all times.
*/
module SynchDsps {
  import opened Wrappers
  import opened Ids
  import opened MempoolSpec
  import opened MempoolLists
  import opened MempoolAdd
  import opened MempoolConfirm
  import opened DSProofs
  import opened MempoolDsps
  import opened MempoolModel

  /** A proof is of a pool transaction, and affects exactly that one and the pool transactions that spend
      from it, directly or through others. */
  ghost predicate Tied(pool: Pool, dsp: DSProof) {
    dsp.descendants <= pool.Keys && DescendantsOf(pool, {dsp.txHash}, dsp.descendants)
  }

  ghost predicate AllTied(pool: Pool, proofs: Proofs) {
    forall d :: d in proofs ==> Tied(pool, proofs[d])
  }

  /** The proof, as far as its descendants are known. */
  ghost function Known(pool: Pool, dsp: DSProof): DSProof {
    dsp.(descendants := dsp.descendants * pool.Keys)
  }

  /** The proofs after those of the downloads ds whose transactions are in the pool have been entered. */
  ghost function WithDownloads(pool: Pool, proofs: Proofs, downloaded: Proofs, ds: set<DspHash>): Proofs {
    map d | d in proofs.Keys + downloaded.Keys && (d in proofs || (d in ds && downloaded[d].txHash in pool)) ::
      if d in proofs then proofs[d] else Known(pool, downloaded[d])
  }

  /** Transaction t is affected by one of the downloads ds that have their transaction in the pool. */
  ghost predicate Concerned(pool: Pool, downloaded: Proofs, ds: set<DspHash>, t: TxHash) {
    t in pool && exists d :: d in ds && d in downloaded && downloaded[d].txHash in pool && t in downloaded[d].descendants
  }

  lemma {:induction false} NoDownloads(pool: Pool, proofs: Proofs, downloaded: Proofs)
    ensures WithDownloads(pool, proofs, downloaded, {}) == proofs
  {
  }

  lemma {:induction false} OneMoreDownload(pool: Pool, proofs: Proofs, downloaded: Proofs, ds: set<DspHash>, d: DspHash)
    requires d in downloaded && d !in ds
    ensures var before := WithDownloads(pool, proofs, downloaded, ds);
      && (d in before <==> d in proofs)
      && WithDownloads(pool, proofs, downloaded, ds + {d})
         == if d in before || downloaded[d].txHash !in pool then before else before[d := Known(pool, downloaded[d])]
  {
  }

  lemma {:induction false} OneMoreConcerned(pool: Pool, downloaded: Proofs, ds: set<DspHash>, d: DspHash, t: TxHash)
    requires d in downloaded
    ensures Concerned(pool, downloaded, ds + {d}, t) <==>
      Concerned(pool, downloaded, ds, t) || (downloaded[d].txHash in pool && t in Known(pool, downloaded[d]).descendants)
  {
    if Concerned(pool, downloaded, ds, t) {
      var e :| e in ds && e in downloaded && downloaded[e].txHash in pool && t in downloaded[e].descendants;
      assert e in ds + {d};
    }
    if downloaded[d].txHash in pool && t in pool && t in downloaded[d].descendants { assert d in ds + {d}; }
  }

  /** SynchDSPsTask::doProcessDownloads: proofs of transactions not in the pool are skipped, the others are
      entered with those of their descendants that are in the pool. */
  method ProcessDownloads(m: Mempool, downloaded: Proofs, ghost pool: Pool) returns (txsAffected: set<TxHash>)
    requires m.dsps.Valid() && m.txs.Keys == pool.Keys && ProofsOk(downloaded)
    modifies m.dsps
    ensures m.dsps.Valid() && m.dsps.dsproofs == WithDownloads(pool, old(m.dsps.dsproofs), downloaded, downloaded.Keys)
    ensures forall t :: t in txsAffected <==> Concerned(pool, downloaded, downloaded.Keys, t)
  {
    hide WithDownloads, Concerned, TwoWay;
    txsAffected := {};
    ghost var proofs0, done := m.dsps.dsproofs, {};
    NoDownloads(pool, proofs0, downloaded);
    NoneConcerned(pool, downloaded);
    var todo := downloaded.Keys;
    while todo != {}
      invariant done !! todo && done + todo == downloaded.Keys
      invariant m.dsps.Valid() && m.dsps.dsproofs == WithDownloads(pool, proofs0, downloaded, done)
      invariant forall t :: t in txsAffected <==> Concerned(pool, downloaded, done, t)
    {
      var d :| d in todo;
      todo := todo - {d};
      OneMoreDownload(pool, proofs0, downloaded, done, d);
      ghost var flagged := txsAffected;
      var proof := downloaded[d];
      if proof.txHash in m.txs {
        var known := set t | t in proof.descendants && t in m.txs;
        assert known == proof.descendants * pool.Keys;
        txsAffected := txsAffected + known;
        var r := m.dsps.Add(proof.(descendants := known));
      }
      forall t ensures t in txsAffected <==> Concerned(pool, downloaded, done + {d}, t) {
        OneMoreConcerned(pool, downloaded, done, d, t);
      }
      done := done + {d};
    }
    assert done == downloaded.Keys;
  }

  lemma {:induction false} NoneConcerned(pool: Pool, downloaded: Proofs)
    ensures forall t :: !Concerned(pool, downloaded, {}, t)
  {
  }

  // ----- what all events keep

  /** With the same proofs, and the same pool, the index is the same. */
  lemma {:induction false} TiedUnique(pool: Pool, proofs: Proofs, proofs': Proofs)
    requires AllTied(pool, proofs) && AllTied(pool, proofs') && SameProofs(proofs, proofs')
    ensures proofs' == proofs
  {
    forall d | d in proofs ensures proofs'[d] == proofs[d] {
      assert Tied(pool, proofs[d]) && Tied(pool, proofs'[d]);
    }
  }

  lemma {:induction false} SameDownloads(pool: Pool, proofs: Proofs, downloaded: Proofs)
    requires AllTied(pool, proofs) && SameProofs(proofs, downloaded)
    ensures SameProofs(proofs, WithDownloads(pool, map[], downloaded, downloaded.Keys))
  {
    forall d | d in proofs ensures downloaded[d].txHash in pool { assert Tied(pool, proofs[d]); }
  }

  lemma {:induction false} DownloadsTied(pool: Pool, proofs: Proofs, downloaded: Proofs)
    requires AllTied(pool, proofs)
    requires forall d :: d in downloaded && downloaded[d].txHash in pool ==> Tied(pool, Known(pool, downloaded[d]))
    ensures AllTied(pool, WithDownloads(pool, proofs, downloaded, downloaded.Keys))
  {
    hide Tied, Known;
  }

  /** Transactions that are gone with all that spend from them leave the proofs. */
  lemma {:induction false} DropTied(pool: Pool, proofs: Proofs, gone: set<TxHash>)
    requires AllTied(pool, proofs) && ClosedUnderSpends(pool, gone)
    ensures AllTied(pool - gone, WithoutTxs(proofs, gone))
  {
    var rest := pool - gone;
    forall d | d in proofs && proofs[d].txHash !in gone
      ensures Tied(rest, proofs[d].(descendants := proofs[d].descendants - gone))
    {
      assert Tied(pool, proofs[d]);
      forall s | {proofs[d].txHash} <= s && ClosedUnderSpends(rest, s) ensures proofs[d].descendants - gone <= s {
        assert ClosedUnderSpends(pool, s + gone);
        assert proofs[d].descendants <= s + gone;
      }
    }
    hide Tied;
  }

  /** A proof whose transaction stays affects none of the transactions that are gone with their parents. */
  lemma {:induction false} NoneConfirmed(pool: Pool, dsp: DSProof, gone: set<TxHash>)
    requires Tied(pool, dsp) && ClosedUnderParents(pool, gone) && dsp.txHash !in gone
    ensures dsp.descendants - gone == dsp.descendants
  {
    assert ClosedUnderSpends(pool, dsp.descendants - gone);
  }

  /** Transactions that are gone with their parents leave the proofs. */
  lemma {:induction false} ConfirmTied(pool: Pool, proofs: Proofs, gone: set<TxHash>)
    requires AllTied(pool, proofs) && ClosedUnderParents(pool, gone)
    ensures AllTied(pool - gone, WithoutTxs(proofs, gone))
  {
    var rest := pool - gone;
    forall d | d in proofs && proofs[d].txHash !in gone
      ensures Tied(rest, proofs[d].(descendants := proofs[d].descendants - gone))
    {
      assert Tied(pool, proofs[d]);
      NoneConfirmed(pool, proofs[d], gone);
      forall s | {proofs[d].txHash} <= s && ClosedUnderSpends(rest, s) ensures proofs[d].descendants <= s {
        assert ClosedUnderSpends(pool, s - gone);
        assert proofs[d].descendants <= s - gone;
      }
    }
    hide Tied;
  }

  /** No transaction outside the pool is linked to a proof. */
  lemma {:induction false} LinkedIsInPool(pool: Pool, proofs: Proofs, links: Links, t: TxHash)
    requires AllTied(pool, proofs) && TwoWay(links, proofs, {}) && LinksOf(links, t) != {}
    ensures t in pool
  {
    var d :| d in LinksOf(links, t);
    assert Linked(links, t, d);
    assert Affects(proofs, d, t) && Tied(pool, proofs[d]);
  }

  /** A batch that inherits the proofs of its parents and no others, the links of older transactions being as before. */
  lemma {:induction false} BatchTied(pool: Pool, txsNew: Pool, db: Confirmed, txs: TxMap, proofs: Proofs, links: Links, proofs': Proofs, links': Links)
    requires AllTied(pool, proofs) && TwoWay(links, proofs, {}) && TwoWay(links', proofs', {}) && SameProofs(proofs, proofs')
    requires NewBatch(pool, txsNew) && txs == Entries(pool + txsNew, db)
    requires LinksGrow(links, links', txsNew.Keys) && ParentsProofsInherited(links', txs, txsNew.Keys)
    requires NoStrays(pool + txsNew, links, links')
    ensures AllTied(pool + txsNew, proofs')
  {
    hide Entries, ParentsProofsInherited, LinksGrow, NewBatch, TwoWay, LinksOf, Tied, ClosedUnderSpends, NoStrays;
    forall d | d in proofs' ensures Tied(pool + txsNew, proofs'[d]) {
      assert Tied(pool, proofs[d]);
      AffectedIsLinked(links, proofs, d);
      AffectedIsLinked(links', proofs', d);
      forall c, txo | c in txsNew && txo in txsNew[c].ins && txo.txHash in pool + txsNew && d in LinksOf(links', txo.txHash)
        ensures d in LinksOf(links', c)
      {
        SpenderInherits(pool, txsNew, db, txs, links', c, txo);
      }
      GrownClosed(pool, txsNew, links, links', d, proofs[d], proofs'[d]);
      GrownLeast(pool, txsNew, links, links', d, proofs[d], proofs'[d]);
      TiedFrom(pool + txsNew, proofs'[d]);
    }
  }

  lemma {:induction false} TiedFrom(pool: Pool, dsp: DSProof)
    requires dsp.descendants <= pool.Keys && dsp.txHash in dsp.descendants && ClosedUnderSpends(pool, dsp.descendants)
    requires forall s :: {dsp.txHash} <= s && ClosedUnderSpends(pool, s) ==> dsp.descendants <= s
    ensures Tied(pool, dsp)
  {
  }

  lemma {:induction false} AffectedIsLinked(links: Links, proofs: Proofs, d: DspHash)
    requires TwoWay(links, proofs, {}) && d in proofs
    ensures forall t :: t in proofs[d].descendants <==> d in LinksOf(links, t)
  {
    forall t ensures t in proofs[d].descendants <==> d in LinksOf(links, t) {
      assert Linked(links, t, d) <==> Affects(proofs, d, t);
    }
  }

  lemma {:induction false} GrownClosed(pool: Pool, txsNew: Pool, links: Links, links': Links, d: DspHash, dsp: DSProof, dsp': DSProof)
    requires Tied(pool, dsp) && NewBatch(pool, txsNew) && LinksGrow(links, links', txsNew.Keys) && dsp'.txHash == dsp.txHash
    requires forall t :: t in dsp.descendants <==> d in LinksOf(links, t)
    requires forall t :: t in dsp'.descendants <==> d in LinksOf(links', t)
    requires forall c, txo :: c in txsNew && txo in txsNew[c].ins && txo.txHash in pool + txsNew && d in LinksOf(links', txo.txHash) ==>
               d in LinksOf(links', c)
    ensures dsp'.descendants <= (pool + txsNew).Keys && dsp'.txHash in dsp'.descendants
    ensures ClosedUnderSpends(pool + txsNew, dsp'.descendants)
  {
    hide LinksOf;
    assert LinksOf(links, dsp.txHash) <= LinksOf(links', dsp.txHash);
    forall t | t in dsp'.descendants ensures t in pool + txsNew {
      assert t in txsNew.Keys || LinksOf(links', t) == LinksOf(links, t);
    }
    forall c, txo | c in pool && txo in pool[c].ins && txo.txHash in pool + txsNew && txo.txHash in dsp'.descendants
      ensures c in dsp'.descendants
    {
      assert txo.txHash !in txsNew;
      assert LinksOf(links', txo.txHash) == LinksOf(links, txo.txHash);
      assert c in dsp.descendants && LinksOf(links, c) <= LinksOf(links', c);
    }
  }

  lemma {:induction false} GrownLeast(pool: Pool, txsNew: Pool, links: Links, links': Links, d: DspHash, dsp: DSProof, dsp': DSProof)
    requires Tied(pool, dsp) && NewBatch(pool, txsNew) && NoStrays(pool + txsNew, links, links') && dsp'.txHash == dsp.txHash
    requires forall t :: t in dsp.descendants <==> d in LinksOf(links, t)
    requires forall t :: t in dsp'.descendants <==> d in LinksOf(links', t)
    ensures forall s :: {dsp'.txHash} <= s && ClosedUnderSpends(pool + txsNew, s) ==> dsp'.descendants <= s
  {
    hide LinksOf;
    forall s | {dsp'.txHash} <= s && ClosedUnderSpends(pool + txsNew, s) ensures dsp'.descendants <= s {
      assert ClosedUnderSpends(pool, s);
      assert LinkedWithin(links, d, s);
      assert LinkedWithin(links', d, s);
    }
  }

  lemma {:induction false} SpenderInherits(pool: Pool, txsNew: Pool, db: Confirmed, txs: TxMap, links: Links, c: TxHash, txo: TXO)
    requires txs == Entries(pool + txsNew, db) && ParentsProofsInherited(links, txs, txsNew.Keys)
    requires c in txsNew && txo in txsNew[c].ins && txo.txHash in pool + txsNew
    ensures LinksOf(links, txo.txHash) <= LinksOf(links, c)
  {
    EntryAt(pool + txsNew, db, c);
    assert SpendsFrom((pool + txsNew)[c], txo.txHash);
    assert txo.txHash in txs[c].parents;
  }
}
