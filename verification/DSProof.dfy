/**
  The double-spend-proof index of src/DSProof.cpp: proofs by id, and the proofs linked to each
  transaction.  The two maps must always say the same thing.
*/
module DSProofs {
  import opened Wrappers
  import opened Ids
  import opened Sums

  type DspHash(==, !new)

  /** A proof: the transaction that double-spent, and all transactions affected by it. */
  datatype DSProof = DSProof(hash: DspHash, txHash: TxHash, descendants: set<TxHash>)

  type Proofs = map<DspHash, DSProof>
  type Links = map<TxHash, set<DspHash>>

  ghost predicate Linked(links: Links, t: TxHash, d: DspHash) {
    t in links && d in links[t]
  }

  ghost predicate Affects(proofs: Proofs, d: DspHash, t: TxHash) {
    d in proofs && t in proofs[d].descendants
  }

  /** Some proof affects x and one of the transactions ts. */
  ghost predicate SharesProof(proofs: Proofs, ts: set<TxHash>, x: TxHash) {
    exists t, d :: t in ts && Affects(proofs, d, t) && Affects(proofs, d, x)
  }

  /** Each proof is stored under its own id and its own transaction is among its descendants. */
  ghost predicate ProofsOk(proofs: Proofs) {
    forall d :: d in proofs ==> proofs[d].hash == d && proofs[d].txHash in proofs[d].descendants
  }

  /** The two maps agree on every transaction outside `gone`, and have forgotten those in `gone`. */
  ghost predicate TwoWay(links: Links, proofs: Proofs, gone: set<TxHash>) {
    && (forall t, d :: t !in gone ==> (Linked(links, t, d) <==> Affects(proofs, d, t)))
    && (forall t :: t in links ==> t !in gone && links[t] != {})
  }

  /** The links are determined by the proofs. */
  lemma {:induction false} LinksUnique(links: Links, links': Links, proofs: Proofs)
    requires TwoWay(links, proofs, {}) && TwoWay(links', proofs, {})
    ensures links == links'
  {
    forall t
      ensures t in links <==> t in links'
      ensures t in links ==> links[t] == links'[t]
    {
      forall d
        ensures Linked(links, t, d) <==> Linked(links', t, d)
      {
        assert Affects(proofs, d, t) <==> Linked(links, t, d);
        assert Affects(proofs, d, t) <==> Linked(links', t, d);
      }
      if t in links {
        var d :| d in links[t];
        assert Linked(links, t, d);
      }
      if t in links' {
        var d :| d in links'[t];
        assert Linked(links', t, d);
      }
      if t in links {
        forall d
          ensures d in links[t] <==> d in links'[t]
        {
          assert Linked(links, t, d) <==> Linked(links', t, d);
        }
      }
    }
  }

  /** Erase one link, and the transaction's entry with its last link. */
  function Unlink(links: Links, t: TxHash, d: DspHash): Links
    requires t in links
  {
    if links[t] - {d} == {} then links - {t} else links[t := links[t] - {d}]
  }

  /** Erase the links of `ts` to d. */
  ghost function UnlinkAll(links: Links, ts: set<TxHash>, d: DspHash): Links {
    map t | t in links && (t in ts ==> links[t] - {d} != {}) :: if t in ts then links[t] - {d} else links[t]
  }

  lemma {:induction false} UnlinkOneMore(links: Links, ts: set<TxHash>, t: TxHash, d: DspHash)
    requires t !in ts
    ensures t in UnlinkAll(links, ts, d) <==> t in links
    ensures UnlinkAll(links, ts + {t}, d)
         == if t in links then Unlink(UnlinkAll(links, ts, d), t, d) else UnlinkAll(links, ts, d)
  {
    if t !in links {
      assert UnlinkAll(links, ts + {t}, d) == UnlinkAll(links, ts, d);
    } else {
      assert UnlinkAll(links, ts + {t}, d) == Unlink(UnlinkAll(links, ts, d), t, d);
    }
  }

  /** Erasing all links to a proof and the proof itself keeps the two maps in step. */
  lemma {:induction false} UnlinkedTwoWay(links: Links, proofs: Proofs, d: DspHash, gone: set<TxHash>)
    requires TwoWay(links, proofs, gone) && d in proofs
    ensures TwoWay(UnlinkAll(links, proofs[d].descendants, d), proofs - {d}, gone)
    ensures forall t :: t in proofs[d].descendants ==> (t in links <==> t !in gone)
  {
    var links', proofs' := UnlinkAll(links, proofs[d].descendants, d), proofs - {d};
    forall t: TxHash, e: DspHash | t !in gone
      ensures Linked(links', t, e) <==> Affects(proofs', e, t)
    {
      assert Linked(links, t, e) <==> Affects(proofs, e, t);
      assert Linked(links, t, d) <==> Affects(proofs, d, t);
    }
    forall t | t in proofs[d].descendants
      ensures t in links <==> t !in gone
    {
      if t !in gone { assert Affects(proofs, d, t) && Linked(links, t, d); }
    }
  }

  /** The number of links, counted at the transactions. */
  ghost function LinkCount(links: Links): int {
    Sum(links.Keys, (t: TxHash) => if t in links then |links[t]| else 0)
  }

  /** The number of links, counted at the proofs. */
  ghost function DescendantCount(proofs: Proofs): int {
    Sum(proofs.Keys, (d: DspHash) => if d in proofs then |proofs[d].descendants| else 0)
  }

  /** All proofs, after transaction t is gone: its own proofs vanish, the others forget it. */
  ghost function WithoutTx(proofs: Proofs, t: TxHash): Proofs {
    map d | d in proofs && proofs[d].txHash != t :: proofs[d].(descendants := proofs[d].descendants - {t})
  }

  class DSPs {
    var txDspsMap: Links
    var dsproofs: Proofs

    ghost predicate Valid()
      reads this
    {
      ProofsOk(dsproofs) && TwoWay(txDspsMap, dsproofs, {})
    }

    constructor ()
      ensures Valid() && dsproofs == map[] && txDspsMap == map[]
    {
      txDspsMap, dsproofs := map[], map[];
    }

    method Clear()
      modifies this
      ensures Valid() && dsproofs == map[] && txDspsMap == map[]
    {
      txDspsMap, dsproofs := map[], map[];
    }

    predicate Empty()
      reads this
    {
      |dsproofs| == 0
    }

    /** DSPs::dspHashesForTx, with no links as the empty set. */
    function DspHashesForTx(t: TxHash): set<DspHash>
      reads this
    {
      if t in txDspsMap then txDspsMap[t] else {}
    }

    /** DSPs::add */
    method Add(dsp: DSProof) returns (r: Result<bool>)
      requires Valid()
      modifies this
      ensures Valid()
      ensures r == if dsp.txHash !in dsp.descendants then Err(BadArgs) else Ok(dsp.hash !in old(dsproofs))
      ensures dsproofs == if r == Ok(true) then old(dsproofs)[dsp.hash := dsp] else old(dsproofs)
    {
      if dsp.txHash !in dsp.descendants {
        return Err(BadArgs);
      }
      if dsp.hash in dsproofs {
        return Ok(false);
      }
      ghost var links0 := txDspsMap;
      dsproofs := dsproofs[dsp.hash := dsp];
      var todo := dsp.descendants;
      while todo != {}
        invariant todo <= dsp.descendants
        invariant forall t, d :: Linked(txDspsMap, t, d) <==>
                    Linked(links0, t, d) || (d == dsp.hash && t in dsp.descendants - todo)
        invariant forall t :: t in txDspsMap ==> txDspsMap[t] != {}
        invariant dsproofs == old(dsproofs)[dsp.hash := dsp]
      {
        var txHash :| txHash in todo;
        todo := todo - {txHash};
        ghost var before := txDspsMap;
        txDspsMap := txDspsMap[txHash := DspHashesForTx(txHash) + {dsp.hash}];
        assert forall t, d :: Linked(txDspsMap, t, d) <==> Linked(before, t, d) || (t == txHash && d == dsp.hash);
      }
      return Ok(true);
    }

    /** DSPs::rm.  While rmTx runs, the transaction it removes is already out of the links (`gone`). */
    method Rm(hash: DspHash, ghost gone: set<TxHash>) returns (ret: nat)
      requires ProofsOk(dsproofs) && TwoWay(txDspsMap, dsproofs, gone)
      modifies this
      ensures ProofsOk(dsproofs) && TwoWay(txDspsMap, dsproofs, gone)
      ensures dsproofs == old(dsproofs) - {hash}
      ensures ret == if hash in old(dsproofs) then |old(dsproofs)[hash].descendants - gone| else 0
    {
      if hash !in dsproofs {
        return 0;
      }
      var dsp := dsproofs[hash];
      UnlinkedTwoWay(txDspsMap, dsproofs, hash, gone);
      hide UnlinkAll, TwoWay, ProofsOk;
      txDspsMap, ret := EraseLinks(txDspsMap, dsp.descendants, hash, gone);
      dsproofs := dsproofs - {hash};
      ProofsOkWithout(old(dsproofs), hash);
    }

    /** DSPs::addTx.  The result says whether a link was added; it is never half there. */
    method AddTx(dspHash: DspHash, txHash: TxHash) returns (added: bool)
      requires Valid()
      modifies this
      ensures Valid()
      ensures added <==> dspHash in old(dsproofs) && txHash !in old(dsproofs)[dspHash].descendants
      ensures dsproofs == if dspHash !in old(dsproofs) then old(dsproofs)
                          else old(dsproofs)[dspHash := old(dsproofs)[dspHash].(descendants := old(dsproofs)[dspHash].descendants + {txHash})]
      ensures forall t :: DspHashesForTx(t) == old(DspHashesForTx(t)) + if t == txHash && dspHash in old(dsproofs) then {dspHash} else {}
    {
      if dspHash !in dsproofs {
        return false;
      }
      var dsp := dsproofs[dspHash];
      assert Linked(txDspsMap, txHash, dspHash) <==> Affects(dsproofs, dspHash, txHash);
      var ct := 0;
      if dspHash !in DspHashesForTx(txHash) {
        ct := ct + 1;
      }
      txDspsMap := txDspsMap[txHash := DspHashesForTx(txHash) + {dspHash}];
      if txHash !in dsp.descendants {
        ct := ct + 1;
      }
      dsproofs := dsproofs[dspHash := dsp.(descendants := dsp.descendants + {txHash})];
      assert ct != 1;   // the "invariant violated" warning is unreachable
      assert forall t, d :: Linked(txDspsMap, t, d) <==> Linked(old(txDspsMap), t, d) || (t == txHash && d == dspHash);
      assert forall t, d :: Affects(dsproofs, d, t) <==> Affects(old(dsproofs), d, t) || (t == txHash && d == dspHash);
      return ct > 0;
    }

    /** DSPs::rmTx */
    method RmTx(txHash: TxHash) returns (ret: nat)
      requires Valid()
      modifies this
      ensures Valid()
      ensures dsproofs == WithoutTx(old(dsproofs), txHash)
      ensures ret == |old(DspHashesForTx(txHash))|
    {
      hide TwoWay, ProofsOk, WithoutTx, RmTxProgress, Affects;
      if txHash !in txDspsMap {
        UnlinkedTx(txDspsMap, dsproofs, txHash);
        return 0;
      }
      ghost var proofs0 := dsproofs;
      RmTxStarts(txDspsMap, dsproofs, txHash);
      var dspHashes := txDspsMap[txHash];
      txDspsMap := txDspsMap - {txHash};
      var todo := dspHashes;
      ghost var done := {};
      ret := 0;
      while todo != {}
        invariant done !! todo && done + todo == dspHashes && ret == |done|
        invariant RmTxProgress(txDspsMap, dsproofs, proofs0, txHash, done)
      {
        var dspHash :| dspHash in todo;
        Counted(done, todo, dspHashes, dspHash);
        todo := todo - {dspHash};
        ForgetTx(txHash, dspHash, proofs0, dspHashes, done);
        done := done + {dspHash};
        ret := ret + 1;
      }
      assert done == dspHashes;
      RmTxDone(txDspsMap, dsproofs, proofs0, txHash, dspHashes);
    }

    /** One turn of rmTx's loop: a proof of the transaction itself goes, any other forgets the transaction. */
    method ForgetTx(txHash: TxHash, dspHash: DspHash, ghost proofs0: Proofs, ghost dspHashes: set<DspHash>, ghost done: set<DspHash>)
      requires RmTxProgress(txDspsMap, dsproofs, proofs0, txHash, done) && dspHash in dspHashes && dspHash !in done
      requires forall d :: d in dspHashes <==> Affects(proofs0, d, txHash)
      modifies this
      ensures RmTxProgress(txDspsMap, dsproofs, proofs0, txHash, done + {dspHash})
    {
      RmTxStands(txDspsMap, dsproofs, proofs0, txHash, dspHashes, done, dspHash);
      hide TwoWay, ProofsOk, RmTxProgress, Affects;
      var dsp := dsproofs[dspHash];
      if dsp.txHash == txHash {
        ghost var before := dsproofs;
        var _ := Rm(dspHash, {txHash});
        RmTxRemoves(txDspsMap, before, proofs0, txHash, done, dspHash);
      } else {
        RmTxForgets(txDspsMap, dsproofs, proofs0, txHash, done, dspHash);
        dsproofs := dsproofs[dspHash := dsp.(descendants := dsp.descendants - {txHash})];
      }
    }

    /** DSPs::numTxDspLinks counts links from the transactions' side; it is also the proofs' side. */
    method NumTxDspLinks() returns (ret: int)
      requires Valid()
      ensures ret == LinkCount(txDspsMap) == DescendantCount(dsproofs)
    {
      ret := 0;
      var todo := txDspsMap.Keys;
      ghost var links := txDspsMap;
      ghost var size := (t: TxHash) => if t in links then |links[t]| else 0;
      while todo != {}
        invariant todo <= txDspsMap.Keys
        invariant ret == Sum(txDspsMap.Keys - todo, size)
      {
        var t :| t in todo;
        SumAdd(txDspsMap.Keys - todo, size, t);
        assert txDspsMap.Keys - (todo - {t}) == txDspsMap.Keys - todo + {t};
        todo := todo - {t};
        ret := ret + |txDspsMap[t]|;
      }
      assert txDspsMap.Keys - {} == txDspsMap.Keys;
      CountBothSides(txDspsMap, dsproofs);
    }

    /** DSPs::bestProofForTx: a proof of the transaction itself if there is one, else one with fewest descendants. */
    method BestProofForTx(txHash: TxHash) returns (r: Option<DSProof>)
      requires Valid()
      ensures r.None? <==> forall d :: !Affects(dsproofs, d, txHash)
      ensures r.Some? ==> Affects(dsproofs, r.value.hash, txHash) && dsproofs[r.value.hash] == r.value
      ensures r.Some? ==> forall d :: Affects(dsproofs, d, txHash) ==>
                r.value.txHash == txHash
                || (dsproofs[d].txHash != txHash && |r.value.descendants| <= |dsproofs[d].descendants|)
    {
      r := None;
      var todo := DspHashesForTx(txHash);
      ghost var all := todo;
      assert forall d :: d in all <==> Affects(dsproofs, d, txHash) by {
        assert forall d :: Linked(txDspsMap, txHash, d) <==> Affects(dsproofs, d, txHash);
      }
      while todo != {}
        invariant todo <= all
        invariant r.None? <==> all == todo
        invariant r.Some? ==> r.value.hash in all - todo && dsproofs[r.value.hash] == r.value
        invariant r.Some? ==> forall d :: d in all - todo ==>
                    dsproofs[d].txHash != txHash && |r.value.descendants| <= |dsproofs[d].descendants|
      {
        var hash :| hash in todo;
        todo := todo - {hash};
        var dsp := dsproofs[hash];
        if dsp.txHash == txHash {
          return Some(dsp);
        } else if r.None? || |dsp.descendants| < |r.value.descendants| {
          r := Some(dsp);
        }
      }
    }

    /** DSPs::txsLinkedToTxs: everything that shares a proof with one of the transactions. */
    method TxsLinkedToTxs(txids: set<TxHash>) returns (ret: set<TxHash>)
      requires Valid()
      ensures forall x :: x in ret <==> SharesProof(dsproofs, txids, x)
    {
      var linkedDspHashes: set<DspHash> := {};
      var todo := txids;
      while todo != {}
        invariant todo <= txids
        invariant forall d :: d in linkedDspHashes <==> exists t :: t in txids - todo && Affects(dsproofs, d, t)
      {
        var t :| t in todo;
        ghost var done, linked := txids - todo, linkedDspHashes;
        todo := todo - {t};
        linkedDspHashes := linkedDspHashes + DspHashesForTx(t);
        assert txids - todo == done + {t};
        forall d
          ensures d in linkedDspHashes <==> exists u :: u in done + {t} && Affects(dsproofs, d, u)
        {
          assert Linked(txDspsMap, t, d) <==> Affects(dsproofs, d, t);
          if d in linked {
            var u :| u in done && Affects(dsproofs, d, u);
            assert u in done + {t};
          }
          if d in DspHashesForTx(t) { assert t in done + {t}; }
        }
      }
      ret := {};
      var todo2 := linkedDspHashes;
      while todo2 != {}
        invariant todo2 <= linkedDspHashes
        invariant forall x :: x in ret <==> exists d :: d in linkedDspHashes - todo2 && Affects(dsproofs, d, x)
      {
        var d :| d in todo2;
        todo2 := todo2 - {d};
        if d in dsproofs {
          assert forall x :: Affects(dsproofs, d, x) <==> x in dsproofs[d].descendants;
          ret := ret + dsproofs[d].descendants;
        }
      }
    }
  }

  lemma {:induction false} CountOneMore(done: set<TxHash>, gone: set<TxHash>, t: TxHash)
    requires t !in done
    ensures |done + {t} - gone| == |done - gone| + if t in gone then 0 else 1
  {
    if t in gone {
      assert done + {t} - gone == done - gone;
    } else {
      assert done + {t} - gone == (done - gone) + {t};
    }
  }

  lemma {:induction false} TakeOne(done: set<TxHash>, todo: set<TxHash>, all: set<TxHash>, t: TxHash)
    requires done !! todo && done + todo == all && t in todo
    ensures t in all && t !in done && done + {t} !! todo - {t} && (done + {t}) + (todo - {t}) == all
  {
  }

  lemma {:induction false} Counted(done: set<DspHash>, todo: set<DspHash>, all: set<DspHash>, d: DspHash)
    requires done !! todo && done + todo == all && d in todo
    ensures d in all && d !in done && done + {d} !! todo - {d} && (done + {d}) + (todo - {d}) == all
    ensures |done + {d}| == |done| + 1
  {
  }

  /** The loop of DSPs::rm over a proof's descendants. */
  method EraseLinks(links: Links, descendants: set<TxHash>, hash: DspHash, ghost gone: set<TxHash>)
    returns (links': Links, ret: nat)
    requires forall t :: t in descendants ==> (t in links <==> t !in gone)
    ensures links' == UnlinkAll(links, descendants, hash)
    ensures ret == |descendants - gone|
  {
    hide Unlink, UnlinkAll;
    NothingUnlinked(links, hash);
    links', ret := links, 0;
    ghost var done := {};
    var todo := descendants;
    while todo != {}
      invariant done !! todo && done + todo == descendants
      invariant links' == UnlinkAll(links, done, hash)
      invariant ret == |done - gone|
    {
      var txHash :| txHash in todo;
      TakeOne(done, todo, descendants, txHash);
      todo := todo - {txHash};
      UnlinkOneMore(links, done, txHash, hash);
      CountOneMore(done, gone, txHash);
      if txHash in links' {
        links', ret := Unlink(links', txHash, hash), ret + 1;
      }
      done := done + {txHash};
    }
    assert done == descendants;
  }

  lemma {:induction false} NothingUnlinked(links: Links, d: DspHash)
    ensures UnlinkAll(links, {}, d) == links
  {
  }

  lemma {:induction false} ProofsOkWithout(proofs: Proofs, d: DspHash)
    requires ProofsOk(proofs)
    ensures ProofsOk(proofs - {d})
  {
  }

  /** Where rmTx stands when it has dealt with the proofs in `done`. */
  ghost predicate RmTxProgress(links: Links, proofs: Proofs, proofs0: Proofs, t: TxHash, done: set<DspHash>) {
    && ProofsOk(proofs) && TwoWay(links, proofs, {t})
    && (forall d :: d in proofs <==> d in proofs0 && !(d in done && proofs0[d].txHash == t))
    && (forall d :: d in proofs ==>
          proofs[d] == if d in done then proofs0[d].(descendants := proofs0[d].descendants - {t}) else proofs0[d])
  }

  lemma {:induction false} RmTxForgets(links: Links, proofs: Proofs, proofs0: Proofs, t: TxHash, done: set<DspHash>, d: DspHash)
    requires RmTxProgress(links, proofs, proofs0, t, done) && d in proofs && d !in done && proofs[d].txHash != t
    ensures RmTxProgress(links, proofs[d := proofs[d].(descendants := proofs[d].descendants - {t})], proofs0, t, done + {d})
  {
    var proofs' := proofs[d := proofs[d].(descendants := proofs[d].descendants - {t})];
    assert forall x: TxHash, e: DspHash :: x != t ==> (Affects(proofs', e, x) <==> Affects(proofs, e, x));
  }

  lemma {:induction false} RmTxRemoves(links: Links, proofs: Proofs, proofs0: Proofs, t: TxHash, done: set<DspHash>, d: DspHash)
    requires d in proofs && d !in done && proofs[d].txHash == t
    requires ProofsOk(proofs - {d}) && TwoWay(links, proofs - {d}, {t})
    requires forall e :: e in proofs <==> e in proofs0 && !(e in done && proofs0[e].txHash == t)
    requires forall e :: e in proofs ==>
               proofs[e] == if e in done then proofs0[e].(descendants := proofs0[e].descendants - {t}) else proofs0[e]
    ensures RmTxProgress(links, proofs - {d}, proofs0, t, done + {d})
  {
    hide TwoWay, ProofsOk;
  }

  lemma {:induction false} RmTxStands(links: Links, proofs: Proofs, proofs0: Proofs, t: TxHash, all: set<DspHash>,
                                      done: set<DspHash>, d: DspHash)
    requires RmTxProgress(links, proofs, proofs0, t, done) && d !in done && d in all
    requires forall e :: e in all <==> Affects(proofs0, e, t)
    ensures ProofsOk(proofs) && TwoWay(links, proofs, {t}) && d in proofs
    ensures forall e :: e in proofs <==> e in proofs0 && !(e in done && proofs0[e].txHash == t)
    ensures forall e :: e in proofs ==>
              proofs[e] == if e in done then proofs0[e].(descendants := proofs0[e].descendants - {t}) else proofs0[e]
  {
    assert Affects(proofs0, d, t);
  }

  lemma {:induction false} UnlinkedTx(links: Links, proofs: Proofs, t: TxHash)
    requires ProofsOk(proofs) && TwoWay(links, proofs, {}) && t !in links
    ensures WithoutTx(proofs, t) == proofs
  {
    forall d | d in proofs
      ensures proofs[d].txHash != t && proofs[d].descendants - {t} == proofs[d].descendants
    {
      assert !Linked(links, t, d);
      assert !Affects(proofs, d, t);
    }
  }

  lemma {:induction false} RmTxStarts(links: Links, proofs: Proofs, t: TxHash)
    requires ProofsOk(proofs) && TwoWay(links, proofs, {}) && t in links
    ensures RmTxProgress(links - {t}, proofs, proofs, t, {})
    ensures forall d :: d in links[t] <==> Affects(proofs, d, t)
  {
    assert forall d :: Linked(links, t, d) <==> Affects(proofs, d, t);
    assert forall x: TxHash, e: DspHash :: x != t ==> (Linked(links - {t}, x, e) <==> Linked(links, x, e));
  }

  lemma {:induction false} RmTxDone(links: Links, proofs: Proofs, proofs0: Proofs, t: TxHash, dspHashes: set<DspHash>)
    requires ProofsOk(proofs0) && RmTxProgress(links, proofs, proofs0, t, dspHashes)
    requires forall d :: d in dspHashes <==> Affects(proofs0, d, t)
    ensures proofs == WithoutTx(proofs0, t)
    ensures ProofsOk(proofs) && TwoWay(links, proofs, {})
  {
    forall d
      ensures d in proofs <==> d in proofs0 && proofs0[d].txHash != t
      ensures d in proofs ==> proofs[d] == proofs0[d].(descendants := proofs0[d].descendants - {t})
      ensures !Affects(proofs, d, t)
    {
      assert d in dspHashes <==> Affects(proofs0, d, t);
      if d in proofs0 && d !in dspHashes {
        assert proofs0[d].descendants - {t} == proofs0[d].descendants;
      }
    }
  }

  /** Counting links transaction by transaction or proof by proof gives the same number. */
  lemma {:induction false} CountBothSides(links: Links, proofs: Proofs)
    requires TwoWay(links, proofs, {})
    ensures LinkCount(links) == DescendantCount(proofs)
  {
    var one := (p: (TxHash, DspHash)) => 1;
    var one' := (p: (DspHash, TxHash)) => 1;
    var ofTx := (t: TxHash) => if t in links then LinkPairsOf(links, t) else {};
    var ofProof := (d: DspHash) => if d in proofs then ProofPairsOf(proofs, d) else {};
    forall t | t in links
      ensures |links[t]| == Sum(ofTx(t), one)
    {
      var f := (d: DspHash) => 1;
      SumOnes(links[t], f);
      SumBijection(links[t], ofTx(t), d => (t, d), f, one);
    }
    forall d | d in proofs
      ensures |proofs[d].descendants| == Sum(ofProof(d), one')
    {
      var f := (t: TxHash) => 1;
      SumOnes(proofs[d].descendants, f);
      SumBijection(proofs[d].descendants, ofProof(d), t => (d, t), f, one');
    }
    SumGroups(links.Keys, ofTx, one, (t: TxHash) => if t in links then |links[t]| else 0);
    SumGroups(proofs.Keys, ofProof, one', (d: DspHash) => if d in proofs then |proofs[d].descendants| else 0);
    var a, b := Union(links.Keys, ofTx), Union(proofs.Keys, ofProof);
    forall t: TxHash, d: DspHash
      ensures (t, d) in a <==> (d, t) in b
    {
      assert Linked(links, t, d) <==> Affects(proofs, d, t);
      if (t, d) in a { assert (d, t) in ofProof(d); }
      if (d, t) in b { assert (t, d) in ofTx(t); }
    }
    SumBijection(a, b, (p: (TxHash, DspHash)) => (p.1, p.0), one, one');
  }

  ghost function LinkPairsOf(links: Links, t: TxHash): set<(TxHash, DspHash)>
    requires t in links
  {
    set d | d in links[t] :: (t, d)
  }

  ghost function ProofPairsOf(proofs: Proofs, d: DspHash): set<(DspHash, TxHash)>
    requires d in proofs
  {
    set t | t in proofs[d].descendants :: (d, t)
  }
}
