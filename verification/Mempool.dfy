/**
  The mempool of src/Mempool.cpp.  Its three mutators update entries and per-script lists in
  place, in whatever order their hash tables are iterated; each is proved to take the canonical
  mempool of one set of transactions to the canonical mempool of the next.

  TxRefs are transaction ids here: all references to a transaction share one entry of `txs`.
*/
module MempoolModel {
  import opened Wrappers
  import opened Ids
  import opened MempoolMeaning
  import opened MempoolSpec
  import opened MempoolSteps
  import opened MempoolLists
  import opened MempoolAdd
  import opened MempoolDrop
  import opened MempoolConfirm
  import opened DSProofs
  import opened MempoolDsps

  class Mempool {
    var txs: TxMap
    var hashXTxs: Lists
    const dsps: DSPs

    constructor ()
      ensures txs == map[] && hashXTxs == map[]
      ensures forall db :: Canonical(txs, hashXTxs, map[], db)
      ensures fresh(dsps) && dsps.Valid() && dsps.dsproofs == map[]
    {
      txs, hashXTxs := map[], map[];
      dsps := new DSPs();
    }

    /** Mempool::clear */
    method Clear(ghost db: Confirmed)
      modifies this`txs, this`hashXTxs, dsps
      ensures Canonical(txs, hashXTxs, map[], db)
      ensures dsps.Valid() && dsps.dsproofs == map[]
    {
      txs, hashXTxs := map[], map[];
      dsps.Clear();
    }

    // ----- addNewTxs

    /** Mempool::addNewTxs for a batch of new transactions.  Fails exactly when some input spends an
        output that is neither in the pool nor confirmed; otherwise the result is canonical.  If no
        transaction of the batch was linked to a proof before, each now has all proofs of its parents. */
    method AddNewTxs(scriptHashesAffected: set<HashX>, txsNew: Pool, db: Confirmed, ghost pool: Pool)
      returns (r: Result<set<HashX>>, dspTxsAffected: set<TxHash>)
      requires Canonical(txs, hashXTxs, pool, db) && NewBatch(pool, txsNew)
      requires dsps.Valid()
      modifies this`txs, this`hashXTxs, dsps
      ensures r.Ok? <==> forall t, txo :: t in txsNew && txo in txsNew[t].ins ==> Spendable(pool + txsNew, db, txo)
      ensures r.Err? ==> r.error == ConsistencyError
      ensures r.Ok? ==> Canonical(txs, hashXTxs, pool + txsNew, db)
      ensures r.Ok? ==> OnlyAffected(old(hashXTxs), hashXTxs, r.value)
      ensures r.Ok? ==> AffectedBy(txs, txsNew.Keys, scriptHashesAffected, r.value)
      ensures r.Ok? ==> NewLinksReported(old(dsps.txDspsMap), dsps.txDspsMap, dsps.dsproofs, dspTxsAffected)
      ensures dsps.Valid() && SameProofs(old(dsps.dsproofs), dsps.dsproofs)
      ensures LinksGrow(old(dsps.txDspsMap), dsps.txDspsMap, txsNew.Keys)
      ensures NoStrays(pool + txsNew, old(dsps.txDspsMap), dsps.txDspsMap)
      ensures r.Ok? && (forall t :: t in txsNew ==> LinksOf(old(dsps.txDspsMap), t) == {}) ==>
                ParentsProofsInherited(dsps.txDspsMap, txs, txsNew.Keys)
    {
      hide Canonical, Found, NewBatch, TwoWay, ProofsOk, LinksGrow, NoStrays, BatchNoted, BatchLinked, LinksOf, Settled, ParentsProofsInherited,
           OnlyAffected, AffectedBy, Reports, NewLinksReported, SharesProof, Spendable;
      FoundMeans(pool + txsNew, db);
      ghost var links0 := dsps.txDspsMap;
      dspTxsAffected := {};
      var ok, affected, newParents, dspTxs := AddCore(scriptHashesAffected, txsNew, db, pool);
      if !ok {
        GrowthOnly(pool + txsNew, links0, dsps.txDspsMap, newParents, txsNew, dspTxs);
        return Err(ConsistencyError), {};
      }
      dspTxs := FinishDsps(newParents, dspTxs, txsNew, pool + txsNew, db, links0);
      if dspTxs != {} {
        dspTxsAffected := dsps.TxsLinkedToTxs(dspTxs);
      }
      ReportsSpread(links0, dsps.txDspsMap, dsps.dsproofs, dspTxs, dspTxsAffected);
      return Ok(affected), dspTxsAffected;
    }

    /** The three passes over entries and lists; the first two also collect what the proofs need. */
    method AddCore(scriptHashesAffected: set<HashX>, txsNew: Pool, db: Confirmed, ghost pool: Pool)
      returns (ok: bool, affected: set<HashX>, newParents: NewParents, dspTxs: set<TxHash>)
      requires Canonical(txs, hashXTxs, pool, db) && NewBatch(pool, txsNew)
      requires dsps.Valid()
      modifies this`txs, this`hashXTxs, dsps
      ensures ok <==> forall t, txo :: t in txsNew && txo in txsNew[t].ins ==> Found(Settled(pool + txsNew, db), txo)
      ensures ok ==> Canonical(txs, hashXTxs, pool + txsNew, db) && txs == Entries(pool + txsNew, db)
      ensures ok ==> OnlyAffected(old(hashXTxs), hashXTxs, affected)
      ensures ok ==> AffectedBy(txs, txsNew.Keys, scriptHashesAffected, affected)
      ensures dsps.Valid() && SameProofs(old(dsps.dsproofs), dsps.dsproofs)
      ensures BatchNoted(pool + txsNew, old(dsps.txDspsMap), dsps.txDspsMap, newParents, txsNew, dspTxs)
      ensures ok && !dsps.Empty() ==>
                BatchLinked(dsps.txDspsMap, newParents, txsNew, txsNew.Keys, pool.Keys + txsNew.Keys)
    {
      CanonicalParts(txs, hashXTxs, pool, db);
      hide Entries, Canonical, Found, Resolved, ListsMatch, StrictlySorted, OnlyAffected, NewBatch, AffectedBy, TwoWay,
           ProofsOk, BatchNoted, BatchLinked, OutputsPool, Settled;
      ghost var txs0, lists0 := txs, hashXTxs;
      affected := AddOutputs(scriptHashesAffected, txsNew, pool, db);
      ghost var lists1, affected1 := hashXTxs, affected;
      ok, affected, newParents, dspTxs := AddInputs(affected, txsNew, db, pool, scriptHashesAffected);
      if ok {
        OnlyAffectedTrans(lists0, lists1, hashXTxs, affected1, affected);
        ghost var lists2 := hashXTxs;
        SortAffected(affected);
        OnlyAffectedTrans(lists0, lists2, hashXTxs, affected, affected);
        AddDone(pool, db, txsNew, txs0, lists0, txs, hashXTxs, scriptHashesAffected, affected);
      }
    }

    /** The double-spend-proof handling at the end of addNewTxs. */
    method FinishDsps(newParents: NewParents, dspTxs0: set<TxHash>, ghost txsNew: Pool, ghost full: Pool, ghost db: Confirmed,
                      ghost links0: Links)
      returns (dspTxs: set<TxHash>)
      requires dsps.Valid() && txs == Entries(full, db)
      requires forall t :: t in txsNew ==> t in full && full[t] == txsNew[t]
      requires BatchNoted(full, links0, dsps.txDspsMap, newParents, txsNew, dspTxs0)
      requires !dsps.Empty() ==> BatchLinked(dsps.txDspsMap, newParents, txsNew, txsNew.Keys, full.Keys)
      modifies dsps
      ensures dsps.Valid() && SameProofs(old(dsps.dsproofs), dsps.dsproofs)
      ensures LinksGrow(links0, dsps.txDspsMap, txsNew.Keys) && Reports(links0, dsps.txDspsMap, dspTxs)
      ensures NoStrays(full, links0, dsps.txDspsMap)
      ensures (forall t :: t in txsNew ==> LinksOf(links0, t) == {}) ==>
                ParentsProofsInherited(dsps.txDspsMap, txs, txsNew.Keys)
    {
      hide Entries, TwoWay, ProofsOk, LinksGrow, NoStrays, BatchNoted, BatchLinked, Inherits, LinksOf, ParentsProofsInherited, NotedAreParents;
      BatchNotesParents(full, links0, dsps.txDspsMap, newParents, txsNew, dspTxs0);
      NoStraysNow(full, dsps.txDspsMap);
      dspTxs := dspTxs0;
      var more := {};
      NothingToReport(dsps.txDspsMap);
      ghost var links1, propagated := dsps.txDspsMap, false;
      if !dsps.Empty() && newParents != map[] && dspTxs != {} {
        more := Propagate(dsps, newParents, full);
        dspTxs := dspTxs + more;
        propagated := true;
      }
      SameSize(old(dsps.dsproofs), dsps.dsproofs);
      if dsps.Empty() {
        NoProofsNoLinks(dsps.txDspsMap, dsps.dsproofs);
      }
      DspDone(full, db, txsNew, txs, newParents, links0, links1, dsps.txDspsMap, dspTxs0, dsps.Empty(), propagated);
    }

    /** First pass: put every new transaction into the pool and read its outputs. */
    method AddOutputs(scriptHashesAffected: set<HashX>, txsNew: Pool, ghost pool: Pool, ghost db: Confirmed)
      returns (affected: set<HashX>)
      requires txs == Entries(pool, db) && ListsMatch(txs, hashXTxs)
      requires Resolved(pool, db) && NewBatch(pool, txsNew)
      modifies this`txs, this`hashXTxs
      ensures txs == Entries(OutputsPool(pool, txsNew), db) && ListsMatch(txs, hashXTxs)
      ensures scriptHashesAffected <= affected && OnlyAffected(old(hashXTxs), hashXTxs, affected)
      ensures AffectedBy(txs, txsNew.Keys, scriptHashesAffected, affected)
    {
      hide Entries, ListsMatch, Resolved, NewBatch, OnlyAffected, Unreferenced, AffectedBy, OutputsRead, OutputsPool;
      affected := scriptHashesAffected;
      NothingAffected(hashXTxs, affected);
      OutputsReadStart(pool, txsNew);
      NoneUsed(txs, {}, affected);
      ghost var q, done := pool, {};
      var todo := txsNew.Keys;
      while todo != {}
        invariant done !! todo && done + todo == txsNew.Keys
        invariant OutputsRead(q, pool, txsNew, done)
        invariant txs == Entries(q, db) && ListsMatch(txs, hashXTxs)
        invariant scriptHashesAffected <= affected && OnlyAffected(old(hashXTxs), hashXTxs, affected)
        invariant AffectedBy(txs, done, scriptHashesAffected, affected)
      {
        var t :| t in todo;
        todo := todo - {t};
        OutputsReadStep(q, pool, db, txsNew, done, t);
        OutputsReadUnreferenced(q, pool, db, txsNew, done, t);
        ghost var txs1, lists1, affected1 := txs, hashXTxs, affected;
        affected := AddTxOutputs(t, txsNew[t].outs, affected, q, db);
        OnlyAffectedTrans(old(hashXTxs), lists1, hashXTxs, affected1, affected);
        OneMoreAffects(txs1, txs, done, t, scriptHashesAffected, affected1, affected);
        q := q[t := RawTx([], txsNew[t].outs)];
        done := done + {t};
      }
      OutputsReadDone(q, pool, db, txsNew, done);
    }

    /** `txs[hash] = tx`, then the outputs of that transaction. */
    method AddTxOutputs(t: TxHash, outs: seq<TxOut>, affected0: set<HashX>, ghost q: Pool, ghost db: Confirmed)
      returns (affected: set<HashX>)
      requires t !in q && Unreferenced(q, t)
      requires txs == Entries(q, db) && ListsMatch(txs, hashXTxs)
      modifies this`txs, this`hashXTxs
      ensures txs == Entries(q[t := RawTx([], outs)], db) && ListsMatch(txs, hashXTxs)
      ensures affected0 <= affected && OnlyAffected(old(hashXTxs), hashXTxs, affected)
      ensures AffectedBy(txs, {t}, affected0, affected) && forall x :: x in old(txs) ==> x in txs && txs[x] == old(txs)[x]
    {
      hide Entries, ListsMatch, OnlyAffected, Unreferenced, AffectedBy, AffectedByOne;
      InsertStep(q, db, t, |outs|);
      ListsMatchInsert(txs, hashXTxs, t, NewTx(|outs|));
      txs := txs[t := NewTx(|outs|)];
      ghost var q' := q[t := RawTx([], Blanks(|outs|))];
      BlankUnreferenced(q, t, |outs|);
      affected := ReadOutputs(t, outs, affected0, q', db);
      assert q'[t := RawTx([], outs)] == q[t := RawTx([], outs)];
      OneUsed(txs, t, affected0, affected);
    }

    /** The outputs of one new transaction. */
    method ReadOutputs(t: TxHash, outs: seq<TxOut>, affected0: set<HashX>, ghost q0: Pool, ghost db: Confirmed)
      returns (affected: set<HashX>)
      requires t in q0 && q0[t] == RawTx([], Blanks(|outs|)) && Unreferenced(q0, t)
      requires txs == Entries(q0, db) && ListsMatch(txs, hashXTxs) && txs[t].hashXs == map[]
      modifies this`txs, this`hashXTxs
      ensures txs == Entries(q0[t := RawTx([], outs)], db) && ListsMatch(txs, hashXTxs)
      ensures affected0 <= affected && OnlyAffected(old(hashXTxs), hashXTxs, affected)
      ensures t in txs && AffectedByOne(txs[t], affected0, affected)
      ensures forall x :: x in old(txs) && x != t ==> x in txs && txs[x] == old(txs)[x]
    {
      hide Entries, Entry, Settled, ListsMatch, Unreferenced, OnlyAffected, AffectedByOne;
      affected := affected0;
      NothingAffected(hashXTxs, affected);
      OneUnused(txs[t], affected);
      ghost var q := q0;
      assert [] + Blanks(|outs|) == Blanks(|outs|);
      for n := 0 to |outs|
        invariant q == q0[t := RawTx([], outs[..n] + Blanks(|outs| - n))] && Unreferenced(q, t)
        invariant txs == Entries(q, db) && ListsMatch(txs, hashXTxs)
        invariant affected0 <= affected && OnlyAffected(old(hashXTxs), hashXTxs, affected)
        invariant t in txs && AffectedByOne(txs[t], affected0, affected)
        invariant forall x :: x in old(txs) && x != t ==> x in txs && txs[x] == old(txs)[x]
      {
        var o := outs[n];
        BlanksStep(outs, n);
        OutputStep(q, db, t, n, o);
        EntryOutputs(q, db, t);
        var tx' := WithOutput(txs[t], n, o);
        if o.script.Some? {
          var sh := o.script.value;
          ListsMatchAppend(txs, hashXTxs, t, tx', sh);
          AppendAffects(old(hashXTxs), hashXTxs, t, sh, affected);
          OneGrows(txs[t], tx', affected0, affected, {sh});
          hashXTxs := hashXTxs[sh := ListFor(hashXTxs, sh) + [t]];
          affected := affected + {sh};
        } else {
          ListsMatchInsert(txs, hashXTxs, t, tx');
          OneGrows(txs[t], tx', affected0, affected, {});
          assert affected + {} == affected;
        }
        txs := txs[t := tx'];
        ghost var outs' := q[t].outs[n := o];
        OutputUnreferenced(q, t, RawTx([], outs'));
        q := q[t := RawTx([], outs')];
      }
      assert outs[..|outs|] + Blanks(0) == outs;
    }

    /** One input of a new transaction.  Fails when the spent output cannot be found. */
    method ReadInput(t: TxHash, txo: TXO, affected0: set<HashX>, db: Confirmed, ghost q: Pool)
      returns (ok: bool, affected: set<HashX>)
      requires t in q && txo.txHash != t
      requires txs == Entries(q, db) && ListsMatch(txs, hashXTxs)
      modifies this`txs, this`hashXTxs
      ensures ok <==> Found(Settled(q, db), txo)
      ensures ok ==> txs == Entries(WithInput(q, t, txo), db) && ListsMatch(txs, hashXTxs)
      ensures ok ==> affected0 <= affected && OnlyAffected(old(hashXTxs), hashXTxs, affected)
      ensures ok ==> KeysGrow(old(txs), txs, t, affected0, affected)
    {
      hide Entries, Entry, ListsMatch, OnlyAffected, Found, Info, KeysGrow, WithUnconfirmedSpend, WithSpentOutput, WithConfirmedSpend;
      affected := affected0;
      var info;
      FoundInEntries(txs, q, db, txo);
      if txo.txHash in txs {
        var prev := txs[txo.txHash];
        if txo.outN >= |prev.txos| || prev.txos[txo.outN].None? {
          return false, affected;
        }
        info := prev.txos[txo.outN].value;
        UnconfirmedApplied(txs, hashXTxs, q, db, t, txo, affected);
        txs := txs[t := WithUnconfirmedSpend(txs[t], txo, info)];
        if info.hashX !in prev.hashXs {
          return false, affected;
        }
        txs := txs[txo.txHash := WithSpentOutput(txs[txo.txHash], txo.outN, info.hashX, t)];
      } else {
        if txo !in db {
          return false, affected;
        }
        info := db[txo];
        ConfirmedApplied(txs, hashXTxs, q, db, t, txo, affected);
        txs := txs[t := WithConfirmedSpend(txs[t], txo, info)];
      }
      NothingAffected(hashXTxs, affected);
      AppendAffects(hashXTxs, hashXTxs, t, info.hashX, affected);
      hashXTxs := hashXTxs[info.hashX := ListFor(hashXTxs, info.hashX) + [t]];
      affected := affected + {info.hashX};
      ok := true;
    }

    /** Second pass: read the inputs of every new transaction. */
    method AddInputs(affected0: set<HashX>, txsNew: Pool, db: Confirmed, ghost pool: Pool, ghost base: set<HashX>)
      returns (ok: bool, affected: set<HashX>, newParents: NewParents, dspTxs: set<TxHash>)
      requires txs == Entries(OutputsPool(pool, txsNew), db) && ListsMatch(txs, hashXTxs)
      requires NewBatch(pool, txsNew) && AffectedBy(txs, txsNew.Keys, base, affected0)
      requires dsps.Valid()
      modifies this`txs, this`hashXTxs, dsps
      ensures ok <==> forall t, txo :: t in txsNew && txo in txsNew[t].ins ==> Found(Settled(pool + txsNew, db), txo)
      ensures ok ==> txs == Entries(pool + txsNew, db) && ListsMatch(txs, hashXTxs)
      ensures ok ==> affected0 <= affected && OnlyAffected(old(hashXTxs), hashXTxs, affected)
      ensures ok ==> AffectedBy(txs, txsNew.Keys, base, affected)
      ensures dsps.Valid() && SameProofs(old(dsps.dsproofs), dsps.dsproofs)
      ensures BatchNoted(pool + txsNew, old(dsps.txDspsMap), dsps.txDspsMap, newParents, txsNew, dspTxs)
      ensures ok && !dsps.Empty() ==>
                BatchLinked(dsps.txDspsMap, newParents, txsNew, txsNew.Keys, pool.Keys + txsNew.Keys)
    {
      hide Entries, ListsMatch, OnlyAffected, Found, AffectedBy, TwoWay, ProofsOk, KeysGrow, NewBatch, LinksGrowAt, SeenLinked,
           InputsProgress, NoStrays, IsParent, BatchNoted, BatchLinked, ParentIds, OutputsPool, Settled, LinksOf, AllFound;
      ghost var q, links0, full := OutputsPool(pool, txsNew), dsps.txDspsMap, pool + txsNew;
      affected, newParents, dspTxs := affected0, map[], {};
      ghost var done: set<TxHash> := {};
      var todo := txsNew.Keys;
      NothingAffected(hashXTxs, affected);
      InputsStart(pool, db, txsNew, links0);
      while todo != {}
        invariant done !! todo && done + todo == txsNew.Keys
        invariant InputsProgress(q, pool, db, txsNew, done)
        invariant txs == Entries(q, db) && ListsMatch(txs, hashXTxs)
        invariant affected0 <= affected && OnlyAffected(old(hashXTxs), hashXTxs, affected)
        invariant AffectedBy(txs, txsNew.Keys, base, affected)
        invariant dsps.Valid() && SameProofs(old(dsps.dsproofs), dsps.dsproofs)
        invariant newParents.Keys <= done && BatchNoted(full, links0, dsps.txDspsMap, newParents, txsNew, dspTxs)
        invariant !dsps.Empty() ==> BatchLinked(dsps.txDspsMap, newParents, txsNew, done, pool.Keys + txsNew.Keys)
      {
        var t :| t in todo;
        MoveOne(done, todo, txsNew.Keys, t);
        todo := todo - {t};
        ghost var txs1, lists1, affected1, links1, np1, dspTxs1 := txs, hashXTxs, affected, dsps.txDspsMap, newParents, dspTxs;
        InputsNext(q, pool, db, txsNew, done, t);
        var dspAdded;
        ok, affected, newParents, dspAdded := AddTxInputs(t, txsNew[t].ins, affected, db, txsNew.Keys, newParents, q, full);
        if dspAdded {
          dspTxs := dspTxs + {t};
        }
        BatchNotedStep(full, links0, links1, dsps.txDspsMap, np1, newParents, txsNew, t, dspTxs1, dspTxs);
        if !ok {
          return;
        }
        OnlyAffectedTrans(old(hashXTxs), lists1, hashXTxs, affected1, affected);
        BatchAffects(txs1, txs, txsNew.Keys, t, base, affected1, affected);
        if !dsps.Empty() {
          BatchLinkedStep(links1, dsps.txDspsMap, np1, newParents, txsNew, done, t, pool.Keys + txsNew.Keys);
        }
        q := q[t := txsNew[t]];
        done := done + {t};
      }
      ok := true;
      InputsDone(q, pool, db, txsNew, done);
    }

    /** Second pass, one transaction: read its inputs, linking parents and their proofs. */
    method AddTxInputs(t: TxHash, ins: seq<TXO>, affected0: set<HashX>, db: Confirmed, batch: set<TxHash>,
                       newParents0: NewParents, ghost q0: Pool, ghost full: Pool)
      returns (ok: bool, affected: set<HashX>, newParents: NewParents, dspAdded: bool)
      requires t in q0 && q0[t].ins == [] && t in batch && forall txo :: txo in ins ==> txo.txHash != t
      requires q0.Keys <= full.Keys && full[t].ins == ins
      requires txs == Entries(q0, db) && ListsMatch(txs, hashXTxs)
      requires dsps.Valid() && t !in newParents0
      modifies this`txs, this`hashXTxs, dsps
      ensures ok <==> AllFound(q0, db, ins)
      ensures ok ==> txs == Entries(q0[t := RawTx(ins, q0[t].outs)], db) && ListsMatch(txs, hashXTxs)
      ensures ok ==> affected0 <= affected && OnlyAffected(old(hashXTxs), hashXTxs, affected)
      ensures ok ==> KeysGrow(old(txs), txs, t, affected0, affected)
      ensures dsps.Valid() && SameProofs(old(dsps.dsproofs), dsps.dsproofs)
      ensures LinksGrowAt(old(dsps.txDspsMap), dsps.txDspsMap, t) && NoStrays(full, old(dsps.txDspsMap), dsps.txDspsMap)
      ensures t in newParents ==> forall p :: p in newParents[t] ==> IsParent(full, t, p)
      ensures dspAdded <==> LinksOf(dsps.txDspsMap, t) != LinksOf(old(dsps.txDspsMap), t)
      ensures newParents == newParents0 || (t in newParents && newParents == newParents0[t := newParents[t]])
      ensures ok && !dsps.Empty() ==> SeenLinked(dsps.txDspsMap, newParents, batch, t, ParentIds(ins) * q0.Keys)
    {
      hide Reading;
      affected, newParents, dspAdded := affected0, newParents0, false;
      var seenParents: set<TxHash> := {};
      ghost var b := Begin(txs, hashXTxs, dsps.txDspsMap, dsps.dsproofs, affected0, newParents0, full);
      ReadingStarts(b, q0, db, t, ins, batch);
      for i := 0 to |ins|
        invariant Reading(b, q0, db, t, ins, batch, i, txs, hashXTxs, dsps.txDspsMap, dsps.dsproofs,
                          affected, newParents, seenParents, dspAdded)
      {
        ok, affected, newParents, seenParents, dspAdded :=
          AddTxInput(t, ins, i, affected, db, batch, newParents, seenParents, dspAdded, q0, b);
        if !ok {
          return;
        }
      }
      ok := true;
      ReadingEnds(b, q0, db, t, ins, batch, txs, hashXTxs, dsps.txDspsMap, dsps.dsproofs, affected, newParents, seenParents, dspAdded);
    }

    /** One turn of that loop. */
    method AddTxInput(t: TxHash, ins: seq<TXO>, i: nat, affected0: set<HashX>, db: Confirmed, batch: set<TxHash>,
                      newParents0: NewParents, seenParents0: set<TxHash>, dspAdded0: bool, ghost q0: Pool, ghost b: Begin)
      returns (ok: bool, affected: set<HashX>, newParents: NewParents, seenParents: set<TxHash>, dspAdded: bool)
      requires i < |ins| && ins[i].txHash != t && q0.Keys <= b.full.Keys && t in b.full && b.full[t].ins == ins
      requires Reading(b, q0, db, t, ins, batch, i, txs, hashXTxs, dsps.txDspsMap, dsps.dsproofs,
                       affected0, newParents0, seenParents0, dspAdded0)
      modifies this`txs, this`hashXTxs, dsps
      ensures ok ==> Reading(b, q0, db, t, ins, batch, i + 1, txs, hashXTxs, dsps.txDspsMap, dsps.dsproofs,
                             affected, newParents, seenParents, dspAdded)
      ensures !ok ==> !AllFound(q0, db, ins)
      ensures !ok ==> ProofsPart(b, t, batch, dsps.txDspsMap, dsps.dsproofs, newParents, seenParents, dspAdded)
    {
      hide Entries, ListsMatch, OnlyAffected, Found, KeysGrow, AllFound, Settled, ParentIds, ProofsPart;
      newParents, seenParents, dspAdded := newParents0, seenParents0, dspAdded0;
      var txo := ins[i];
      ghost var txs1, lists1 := txs, hashXTxs;
      ghost var q := q0[t := RawTx(ins[..i], q0[t].outs)];
      FoundByOutputs(q, q0, db, txo);
      AllFoundStep(q0, db, ins, i);
      ok, affected := ReadInput(t, txo, affected0, db, q);
      if !ok {
        return;
      }
      OnlyAffectedTrans(b.lists, lists1, hashXTxs, affected0, affected);
      KeysGrowTrans(b.txs, txs1, txs, t, b.affected, affected0, affected);
      SomeInputs(q0, t, ins, i);
      ParentIdsStep(ins[..i], txo, q0.Keys);
      EntriesKeys(WithInput(q, t, txo), db);
      if txo.txHash in txs {
        assert SpendsFrom(b.full[t], txo.txHash);
        newParents, seenParents, dspAdded := NoteParent(t, txo.txHash, batch, newParents, seenParents, dspAdded, b);
      }
    }

    /** The double-spend-proof part of an unconfirmed input: proofs of an older parent are inherited
        at once, a parent from the same batch is noted. */
    method NoteParent(t: TxHash, p: TxHash, batch: set<TxHash>, newParents0: NewParents, seenParents0: set<TxHash>,
                      dspAdded0: bool, ghost b: Begin)
      returns (newParents: NewParents, seenParents: set<TxHash>, dspAdded: bool)
      requires p != t && IsParent(b.full, t, p)
      requires ProofsPart(b, t, batch, dsps.txDspsMap, dsps.dsproofs, newParents0, seenParents0, dspAdded0)
      modifies dsps
      ensures ProofsPart(b, t, batch, dsps.txDspsMap, dsps.dsproofs, newParents, seenParents, dspAdded)
      ensures seenParents == if |b.proofs| == 0 then seenParents0 else seenParents0 + {p}
    {
      SameSize(b.proofs, dsps.dsproofs);
      hide SeenLinked, TwoWay, ProofsOk, NoStrays, IsParent;
      newParents, seenParents, dspAdded := newParents0, seenParents0, dspAdded0;
      if !dsps.Empty() && p !in seenParents {
        ghost var links1 := dsps.txDspsMap;
        if p !in batch {
          LinksAreProofs(dsps.txDspsMap, dsps.dsproofs, p);
          var added := LinkAll(dsps, dsps.DspHashesForTx(p), t, {t});
          dspAdded := dspAdded || added > 0;
          NoStraysFromParent(b.full, links1, dsps.txDspsMap, t, p);
          NoStraysTrans(b.full, b.links, links1, dsps.txDspsMap);
          SeenOld(links1, dsps.txDspsMap, newParents, batch, t, seenParents, p);
        } else {
          SeenNew(dsps.txDspsMap, newParents, batch, t, seenParents, p);
          newParents := newParents[t := (if t in newParents then newParents[t] else {}) + {p}];
        }
        seenParents := seenParents + {p};
      }
    }

    /** Third pass: sort and de-duplicate the lists that the first two left out of order. */
    method SortAffected(affected: set<HashX>)
      requires ListsMatch(txs, hashXTxs)
      modifies this`hashXTxs
      ensures ListsMatch(txs, hashXTxs) && OnlyAffected(old(hashXTxs), hashXTxs, affected)
      ensures forall sh :: sh in affected && sh in hashXTxs ==> StrictlySorted(txs, hashXTxs[sh]) && ParentlessFirst(txs, hashXTxs[sh])
    {
      hide StrictlySorted, ParentlessFirst;
      var todo := affected;
      while todo != {}
        invariant todo <= affected
        invariant ListsMatch(txs, hashXTxs) && OnlyAffected(old(hashXTxs), hashXTxs, affected)
        invariant forall sh :: sh in affected - todo && sh in hashXTxs ==>
                    StrictlySorted(txs, hashXTxs[sh]) && ParentlessFirst(txs, hashXTxs[sh])
      {
        var sh :| sh in todo;
        todo := todo - {sh};
        if sh in hashXTxs {
          var list := SortAndUniqueify(txs, hashXTxs[sh]);
          SameElementsMatch(txs, hashXTxs, sh, list);
          hashXTxs := hashXTxs[sh := list];
        }
      }
    }

    // ----- dropTxs

    /** Mempool::growTxHashSetToIncludeDescendants: the least superset closed under pool children,
        and how many transactions it has more. */
    method GrowToDescendants(txids: set<TxHash>) returns (all: set<TxHash>, numAdds: nat)
      ensures txids <= all && ClosedUnderChildren(txs, all)
      ensures forall s :: txids <= s && ClosedUnderChildren(txs, s) ==> all <= s
      ensures numAdds == |all| - |txids|
    {
      hide ClosedUnderChildren, AllChildren;
      all, numAdds := txids, 0;
      var workQueue := txids;
      ghost var universe := txids + AllChildren(txs);
      while workQueue != {}
        invariant Growing(txs, txids, all, workQueue) && all <= universe
        invariant numAdds == |all| - |txids|
        decreases universe - all, workQueue
      {
        var txid :| txid in workQueue;
        GrowOne(txs, txids, all, workQueue, txid);
        workQueue := workQueue - {txid};
        if txid in txs {
          var ct;
          all, workQueue, ct := AddChildren(txs[txid].children, all, workQueue);
          numAdds := numAdds + ct;
        }
      }
      Grown(txs, txids, all);
    }

    /** The loop over one transaction's children: those not yet seen are added and queued. */
    method AddChildren(children: set<TxHash>, all0: set<TxHash>, queue0: set<TxHash>)
        returns (all: set<TxHash>, workQueue: set<TxHash>, numAdds: nat)
      ensures all == all0 + children && workQueue == queue0 + (children - all0) && numAdds == |all| - |all0|
    {
      hide ChildrenAdded;
      all, workQueue, numAdds := all0, queue0, 0;
      var todo := children;
      NoChildrenAdded(children, todo, all0, queue0);
      while todo != {}
        invariant todo <= children && ChildrenAdded(children - todo, all0, queue0, all, workQueue, numAdds)
      {
        var childTxid :| childTxid in todo;
        OneChildMore(children - todo, all0, queue0, all, workQueue, numAdds, childTxid);
        assert children - (todo - {childTxid}) == children - todo + {childTxid};
        todo := todo - {childTxid};
        if childTxid !in all {
          all := all + {childTxid};
          workQueue := workQueue + {childTxid};
          numAdds := numAdds + 1;
        }
      }
      assert children - todo == children;
      AllChildrenAdded(children, all0, queue0, all, workQueue, numAdds);
    }

    /** Mempool::dropTxs: the ids and all their descendants leave the pool, and what is left is canonical. */
    method DropTxs(txids0: set<TxHash>, ghost pool: Pool, ghost db: Confirmed)
      returns (txids: set<TxHash>, affected: set<HashX>, dspTxsAffected: set<TxHash>)
      requires Canonical(txs, hashXTxs, pool, db) && NoDoubleSpends(pool)
      requires dsps.Valid()
      modifies this`txs, this`hashXTxs, dsps
      ensures txids0 <= txids && ClosedUnderChildren(old(txs), txids)
      ensures forall s :: txids0 <= s && ClosedUnderChildren(old(txs), s) ==> txids <= s
      ensures Canonical(txs, hashXTxs, pool - txids, db)
      ensures forall sh :: sh in affected <==> Involves(pool, db, txids * pool.Keys, sh)
      ensures dsps.Valid() && dsps.dsproofs == WithoutTxs(old(dsps.dsproofs), txids)
      ensures forall x :: x in dspTxsAffected <==> SharesProof(old(dsps.dsproofs), txids, x)
    {
      CanonicalParts(txs, hashXTxs, pool, db);
      hide Canonical, Resolved, NoDoubleSpends, Entries, ListsMatch, ListsSorted, ClosedUnderChildren, RemovalFits, Removed,
           TwoWay, ProofsOk, WithoutTxs, SharesProof, Involves;
      var numAdds;
      txids, numAdds := GrowToDescendants(txids0);
      ghost var txs0, lists0 := txs, hashXTxs;
      affected := EraseTxs(txids, pool, db);
      hashXTxs := RemoveFromLists(txs, hashXTxs, txids, affected, {}, txs0);
      DropFits(pool, db, txids, affected);
      ListsAfterRemoval(txs0, txs, lists0, hashXTxs, txids, affected, {});
      ResolvedAfterDrop(pool, db, txids);
      CanonicalFrom(txs, hashXTxs, pool - txids, db);
      dspTxsAffected := RmDspTxs(txids);
    }

    /** The main loop of dropTxs: credit, unlink and erase each transaction. */
    method EraseTxs(txids: set<TxHash>, ghost pool: Pool, ghost db: Confirmed) returns (affected: set<HashX>)
      requires txs == Entries(pool, db) && Resolved(pool, db) && NoDoubleSpends(pool) && ClosedUnderChildren(txs, txids)
      modifies this`txs
      ensures txs == Entries(pool - txids, db)
      ensures Touches(pool, db, txids * pool.Keys, {}, affected)
    {
      hide Entries, Entry, Resolved, NoDoubleSpends, ClosedUnderChildren, Dropping, AllIns, AllCredits, Credits, Erased, Touches;
      DroppingStarts(txs, pool, db, txids);
      affected := {};
      NoCredits(pool, txids);
      TouchesNone(pool, db);
      ghost var gone, done: set<TxHash> := {}, {};
      var todo := txids;
      while todo != {}
        invariant done !! todo && done + todo == txids && gone == done * pool.Keys
        invariant Dropping(txs, pool, db, txids, AllIns(pool) - AllCredits(pool, txids, gone), gone)
        invariant Touches(pool, db, gone, {}, affected)
      {
        var txid :| txid in todo;
        MoveOne(done, todo, txids, txid);
        todo := todo - {txid};
        DroppingKeys(txs, pool, db, txids, AllIns(pool) - AllCredits(pool, txids, gone), gone);
        if txid in txs {
          ghost var before := affected;
          affected := affected + txs[txid].hashXs.Keys;
          EraseTx(txid, txids, pool, db, gone);
          TouchesMore(pool, db, gone, {}, before, txid);
          gone := gone + {txid};
        }
        done := done + {txid};
      }
      assert gone == txids * pool.Keys;
      DroppingEnds(txs, pool, db, txids, gone);
    }

    /** One turn of that loop. */
    method EraseTx(txid: TxHash, txids: set<TxHash>, ghost pool: Pool, ghost db: Confirmed, ghost gone: set<TxHash>)
      requires Dropping(txs, pool, db, txids, AllIns(pool) - AllCredits(pool, txids, gone), gone)
      requires txid in txs && txid in txids && Resolved(pool, db)
      modifies this`txs
      ensures Dropping(txs, pool, db, txids, AllIns(pool) - AllCredits(pool, txids, gone + {txid}), gone + {txid})
      ensures txid in pool && Entries(pool, db)[txid].hashXs.Keys == old(txs)[txid].hashXs.Keys
    {
      hide Entries, Entry, Resolved, Dropping, AllIns, AllCredits, Credits, Erased;
      ghost var spent := AllIns(pool) - AllCredits(pool, txids, gone);
      DoomedKeys(txs, pool, db, txids, spent, gone, txid);
      CreditBack(txid, txids, pool, db, spent, gone);
      UnlinkStep(txs, pool, db, txids, spent - Credits(pool, txids, txid), gone, txid);
      AllCreditsNext(pool, txids, gone, txid);
      SubtractTwice(AllIns(pool), AllCredits(pool, txids, gone), Credits(pool, txids, txid));
      UnlinkAndErase(txid);
    }

    /** Tx::unlinkFromParentsAndChildren and the erasure of the transaction itself. */
    method UnlinkAndErase(t: TxHash)
      requires t in txs
      modifies this`txs
      ensures txs == Erased(old(txs), t)
    {
      var parents, children := txs[t].parents, txs[t].children;
      UnlinkFromParents(t, parents);
      UnlinkFromChildren(t, children);
      txs := txs - {t};
    }

    method UnlinkFromParents(t: TxHash, parents: set<TxHash>)
      modifies this`txs
      ensures txs.Keys == old(txs).Keys
      ensures forall x :: x in txs ==>
                txs[x] == old(txs)[x].(children := if x in parents then old(txs)[x].children - {t} else old(txs)[x].children)
    {
      var todo := parents;
      while todo != {}
        invariant todo <= parents && txs.Keys == old(txs).Keys
        invariant forall x :: x in txs ==>
                    txs[x] == if x in parents - todo then old(txs)[x].(children := old(txs)[x].children - {t}) else old(txs)[x]
      {
        var p :| p in todo;
        todo := todo - {p};
        if p in txs {
          txs := txs[p := txs[p].(children := txs[p].children - {t})];
        }
      }
    }

    method UnlinkFromChildren(t: TxHash, children: set<TxHash>)
      modifies this`txs
      ensures txs.Keys == old(txs).Keys
      ensures forall x :: x in txs ==>
                txs[x] == old(txs)[x].(parents := if x in children then old(txs)[x].parents - {t} else old(txs)[x].parents)
    {
      var todo := children;
      while todo != {}
        invariant todo <= children && txs.Keys == old(txs).Keys
        invariant forall x :: x in txs ==>
                    txs[x] == if x in children - todo then old(txs)[x].(parents := old(txs)[x].parents - {t}) else old(txs)[x]
      {
        var c :| c in todo;
        todo := todo - {c};
        if c in txs {
          txs := txs[c := txs[c].(parents := txs[c].parents - {t})];
        }
      }
    }

    /** Undo the unconfirmed spends of one transaction: outputs of transactions that stay are unspent again. */
    method CreditBack(t: TxHash, txids: set<TxHash>, ghost pool: Pool, ghost db: Confirmed, ghost spent: set<TXO>, ghost gone: set<TxHash>)
      requires Dropping(txs, pool, db, txids, spent, gone) && t in txs && t in txids && t in pool && Resolved(pool, db)
      modifies this`txs
      ensures t in txs && Dropping(txs, pool, db, txids, spent - Credits(pool, txids, t), gone)
    {
      hide Dropping, Resolved, CreditsFor, Credits, Touched, Info, StillThere;
      DoomedSpends(txs, pool, db, txids, spent, gone, t);
      CreditsForAll(pool, db, txids, t);
      var tx := txs[t];
      var todo := tx.hashXs.Keys;
      ghost var done: set<HashX> := {};
      assert spent - {} == spent;
      while todo != {}
        invariant done !! todo && done + todo == tx.hashXs.Keys
        invariant t in txs && Dropping(txs, pool, db, txids, spent - CreditsFor(pool, db, txids, t, done), gone)
      {
        var hashX :| hashX in todo;
        todo := todo - {hashX};
        var spends := tx.hashXs[hashX].unconfirmedSpends.Keys;
        ghost var base := spent - CreditsFor(pool, db, txids, t, done);
        CreditSpends(t, hashX, spends, txids, pool, db, base, gone);
        CreditsForNext(pool, db, txids, t, done, hashX, spends);
        SubtractTwice(spent, CreditsFor(pool, db, txids, t, done), StillThere(spends, txids));
        done := done + {hashX};
      }
      assert done == tx.hashXs.Keys;
    }

    /** The unconfirmed spends of one script. */
    method CreditSpends(t: TxHash, hashX: HashX, spends: set<TXO>, txids: set<TxHash>,
                        ghost pool: Pool, ghost db: Confirmed, ghost base: set<TXO>, ghost gone: set<TxHash>)
      requires Dropping(txs, pool, db, txids, base, gone) && t in txs && t in txids && t in pool && Resolved(pool, db)
      requires forall txo :: txo in spends ==>
                 txo in pool[t].ins && txo.txHash in pool && Info(Settled(pool, db), txo).hashX == hashX
      modifies this`txs
      ensures t in txs && Dropping(txs, pool, db, txids, base - StillThere(spends, txids), gone)
    {
      hide Dropping, Resolved, Info, WithCredit;
      var left := spends;
      ghost var credited: set<TXO> := {};
      assert base - {} == base;
      assert spends - left == {};
      while left != {}
        invariant left <= spends && credited == StillThere(spends - left, txids)
        invariant t in txs && Dropping(txs, pool, db, txids, base - credited, gone)
      {
        var txo :| txo in left;
        left := left - {txo};
        if txo.txHash !in txids {
          SpendIsOfScript(pool, db, t, txo);
          CreditStep(txs, pool, db, txids, base - credited, gone, txo);
          SurvivorOutputs(txs, pool, db, txids, base - credited, gone, txo.txHash);
          if txo.txHash in txs {
            var prev := txs[txo.txHash];
            if txo.outN < |prev.txos| && hashX in prev.hashXs {
              txs := txs[txo.txHash := WithCredit(prev, txo.outN, hashX)];
            }
          }
          SubtractTwice(base, credited, {txo});
          credited := credited + {txo};
        }
      }
      assert spends - {} == spends;
    }

    /** Forget the removed transactions in the double-spend-proof index, and report all transactions that
        shared a proof with one of them. */
    method RmDspTxs(txids: set<TxHash>) returns (dspTxsAffected: set<TxHash>)
      requires dsps.Valid()
      modifies dsps
      ensures dsps.Valid() && dsps.dsproofs == WithoutTxs(old(dsps.dsproofs), txids)
      ensures forall x :: x in dspTxsAffected <==> SharesProof(old(dsps.dsproofs), txids, x)
    {
      dspTxsAffected := {};
      ghost var proofs0 := dsps.dsproofs;
      var txids2rm: set<TxHash> := {};
      if !dsps.Empty() {
        txids2rm := set txid | txid in txids && dsps.DspHashesForTx(txid) != {};
        if txids2rm != {} {
          dspTxsAffected := dsps.TxsLinkedToTxs(txids2rm);
        }
      }
      SharesThroughLinks(dsps.txDspsMap, proofs0, txids, txids2rm);
      WithoutUnlinked(dsps.txDspsMap, proofs0, txids, txids2rm);
      WithoutNone(proofs0);
      hide WithoutTx, WithoutTxs, TwoWay, ProofsOk, SharesProof;
      var todo := txids2rm;
      ghost var done: set<TxHash> := {};
      while todo != {} && !dsps.Empty()
        invariant done !! todo && done + todo == txids2rm
        invariant dsps.Valid() && dsps.dsproofs == WithoutTxs(proofs0, done)
      {
        var txid :| txid in todo;
        MoveOne(done, todo, txids2rm, txid);
        todo := todo - {txid};
        WithoutOneMore(proofs0, done, txid);
        var _ := dsps.RmTx(txid);
        done := done + {txid};
      }
      if todo != {} {
        WithoutMoreIsEmpty(proofs0, done, txids2rm);
      }
    }

    // ----- confirmedInBlock

    /** Mempool::confirmedInBlock: the block's transactions leave the pool, what they paid to others becomes
        confirmed, and the rest is canonical for the confirmed outputs after the block. */
    method ConfirmedInBlock(block: BlockTxs, height: nat, ghost pool: Pool, ghost db: Confirmed, ghost db': Confirmed)
      returns (affected: set<HashX>, dspTxsAffected: set<TxHash>)
      requires Canonical(txs, hashXTxs, pool, db)
      requires ClosedUnderParents(pool, block.Keys) && AfterBlock(pool, db, db', block, height)
      requires dsps.Valid()
      modifies this`txs, this`hashXTxs, dsps
      ensures Canonical(txs, hashXTxs, pool - block.Keys, db') && SpendsConfirmedBy(txs, pool, block, height)
      ensures forall sh :: sh in affected <==> Involves(pool, db, block.Keys * pool.Keys, sh) || NewlyParentless(old(txs), txs, sh)
      ensures dsps.Valid() && dsps.dsproofs == WithoutTxs(old(dsps.dsproofs), block.Keys * pool.Keys)
      ensures forall x :: x in dspTxsAffected <==> SharesProof(old(dsps.dsproofs), block.Keys * pool.Keys, x)
    {
      CanonicalParts(txs, hashXTxs, pool, db);
      EntriesKeys(pool, db);
      hide Canonical, Resolved, Entries, ListsMatch, ListsSorted, RemovalFits, Removed, ClosedUnderParents, AfterBlock,
           TwoWay, ProofsOk, WithoutTxs, SharesProof, Touches, Involves, NewlyParentless, Flagged, RecatComplete,
           SpendsConfirmedBy;
      ghost var txs0, lists0 := txs, hashXTxs;
      var inPool := set t | t in block.Keys && t in txs;
      assert inPool == block.Keys * pool.Keys;
      var needSort;
      ghost var recat;
      affected, needSort, recat := ConfirmTxs(block, height, pool, db, db');
      hashXTxs := RemoveFromLists(txs, hashXTxs, block.Keys, affected, needSort, txs0);
      ConfirmFits(pool, db, db', block, height, recat, affected, needSort);
      ReportedAfterBlock(pool, db, db', block, height, recat, affected, needSort);
      ListsAfterRemoval(txs0, txs, lists0, hashXTxs, block.Keys, affected, needSort);
      ResolvedAfterBlock(pool, db, db', block, height);
      CanonicalFrom(txs, hashXTxs, pool - block.Keys, db');
      SpendsAreConfirmed(txs, hashXTxs, pool, db, db', block, height);
      dspTxsAffected := RmDspTxs(inPool);
    }

    /** The main loop: recategorise the children of each confirmed transaction, unlink it and erase it. */
    method ConfirmTxs(block: BlockTxs, height: nat, ghost pool: Pool, ghost db: Confirmed, ghost db': Confirmed)
      returns (affected: set<HashX>, needSort: set<HashX>, ghost recat: set<TxHash>)
      requires txs == Entries(pool, db) && Resolved(pool, db)
      requires ClosedUnderParents(pool, block.Keys) && AfterBlock(pool, db, db', block, height)
      modifies this`txs
      ensures txs == Entries(pool - block.Keys, db')
      ensures RecatComplete(pool, block.Keys, block.Keys * pool.Keys, recat) && recat <= pool.Keys - block.Keys
      ensures Touches(pool, db, block.Keys * pool.Keys, needSort, affected) && needSort <= affected
      ensures Flagged(pool, db, block.Keys, recat, needSort)
    {
      hide Entries, Resolved, ClosedUnderParents, AfterBlock, Confirming, RecatComplete, Touches, Flagged;
      ConfirmingStarts(txs, pool, db, db', block.Keys);
      RecatCompleteNone(pool, block.Keys);
      TouchesNone(pool, db);
      FlaggedNone(pool, db, block.Keys);
      affected, needSort, recat := {}, {}, {};
      var recategorized: set<TxHash> := {};
      ghost var gone, done: set<TxHash> := {}, {};
      var todo := block.Keys;
      while todo != {}
        invariant done !! todo && done + todo == block.Keys && gone == done * pool.Keys
        invariant recat == recategorized
        invariant Confirming(txs, pool, db, db', block.Keys, gone, recat)
        invariant RecatComplete(pool, block.Keys, gone, recat)
        invariant Touches(pool, db, gone, needSort, affected) && needSort <= affected
        invariant Flagged(pool, db, block.Keys, recat, needSort)
      {
        var txid :| txid in todo;
        MoveOne(done, todo, block.Keys, txid);
        todo := todo - {txid};
        ConfirmingFacts(txs, pool, db, db', block.Keys, gone, recat, txid);
        if txid in txs {
          affected, needSort, recategorized :=
            ConfirmTx(txid, block, height, affected, needSort, recategorized, pool, db, db', gone);
          recat := recategorized;
          gone := gone + {txid};
        }
        done := done + {txid};
      }
      assert gone == block.Keys * pool.Keys;
      ConfirmingEnds(txs, pool, db, db', block, height, gone, recat);
    }

    /** One turn of that loop. */
    method ConfirmTx(txid: TxHash, block: BlockTxs, height: nat, affected0: set<HashX>, needSort0: set<HashX>, recat0: set<TxHash>,
                     ghost pool: Pool, ghost db: Confirmed, ghost db': Confirmed, ghost gone: set<TxHash>)
      returns (affected: set<HashX>, needSort: set<HashX>, recat: set<TxHash>)
      requires txid in txs && txid in block && txid in pool && txid !in gone && gone <= block.Keys
      requires Resolved(pool, db) && AfterBlock(pool, db, db', block, height)
      requires Confirming(txs, pool, db, db', block.Keys, gone, recat0) && RecatComplete(pool, block.Keys, gone, recat0)
      requires Touches(pool, db, gone, needSort0, affected0) && needSort0 <= affected0 && Flagged(pool, db, block.Keys, recat0, needSort0)
      modifies this`txs
      ensures Confirming(txs, pool, db, db', block.Keys, gone + {txid}, recat)
      ensures RecatComplete(pool, block.Keys, gone + {txid}, recat)
      ensures Touches(pool, db, gone + {txid}, needSort, affected) && needSort <= affected
      ensures Flagged(pool, db, block.Keys, recat, needSort)
    {
      hide Entries, Resolved, AfterBlock, Confirming, RecatComplete, Touches, Flagged, Erased;
      ConfirmingFacts(txs, pool, db, db', block.Keys, gone, recat0, txid);
      var tx := txs[txid];
      affected := affected0 + tx.hashXs.Keys;
      TouchesMore(pool, db, gone, needSort0, affected0, txid);
      RecatCompleteStep(pool, block.Keys, gone, recat0, txid, tx.children);
      ghost var affected1 := affected;
      affected, needSort, recat := RecategorizeChildren(tx.children, block, height, affected, needSort0, recat0, pool, db, db', gone);
      TouchesFurther(pool, db, gone + {txid}, needSort0, affected1, needSort);
      ConfirmingFacts(txs, pool, db, db', block.Keys, gone, recat, txid);
      EraseConfirmed(txs, pool, db, db', block.Keys, gone, recat, txid);
      UnlinkAndErase(txid);
    }

    /** The children of one confirmed transaction that stay in the pool, each once. */
    method RecategorizeChildren(children: set<TxHash>, block: BlockTxs, height: nat, affected0: set<HashX>, needSort0: set<HashX>,
                                recat0: set<TxHash>, ghost pool: Pool, ghost db: Confirmed, ghost db': Confirmed, ghost gone: set<TxHash>)
      returns (affected: set<HashX>, needSort: set<HashX>, recat: set<TxHash>)
      requires Resolved(pool, db) && AfterBlock(pool, db, db', block, height) && children <= pool.Keys - gone
      requires Confirming(txs, pool, db, db', block.Keys, gone, recat0)
      requires needSort0 <= affected0 && Flagged(pool, db, block.Keys, recat0, needSort0)
      modifies this`txs
      ensures recat == recat0 + (children - block.Keys) && affected == affected0 + needSort && needSort0 <= needSort
      ensures Confirming(txs, pool, db, db', block.Keys, gone, recat)
      ensures Flagged(pool, db, block.Keys, recat, needSort)
    {
      hide Entries, Resolved, AfterBlock, Confirming, Flagged, Disjoint, NoUnconfirmedSpends, Recategorized, LostAllParents;
      affected, needSort, recat := affected0, needSort0, recat0;
      var todo := children;
      while todo != {}
        invariant todo <= children && affected == affected0 + needSort && needSort0 <= needSort
        invariant recat == recat0 + (children - todo - block.Keys)
        invariant Confirming(txs, pool, db, db', block.Keys, gone, recat)
        invariant Flagged(pool, db, block.Keys, recat, needSort)
      {
        var c :| c in todo;
        todo := todo - {c};
        ConfirmingFacts(txs, pool, db, db', block.Keys, gone, recat, c);
        if c !in block && c !in recat {
          RecatStep(txs, pool, db, db', block, height, gone, recat, c);
          FlaggedStep(pool, db, block.Keys, recat, needSort, c);
          assert needSort + {} == needSort;
          var r, nUnconfs := RecategorizeSpends(txs[c], block, height);
          if nUnconfs == 0 {
            affected := affected + txs[c].hashXs.Keys;
            needSort := needSort + txs[c].hashXs.Keys;
          }
          LostAll(pool, block.Keys, c);
          txs := txs[c := r];
          recat := recat + {c};
        }
      }
      assert children - {} - block.Keys == children - block.Keys;
    }
  }
}
