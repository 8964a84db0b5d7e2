/** Facts about the steps of Mempool::addNewTxs. */
module MempoolAdd {
  import opened Wrappers
  import opened Ids
  import opened MempoolSpec
  import opened MempoolSteps
  import opened MempoolLists
  import opened DSProofs
  import opened MempoolDsps

  /** Only the lists of affected scripts have changed. */
  ghost predicate OnlyAffected(before: Lists, after: Lists, affected: set<HashX>) {
    forall sh :: sh !in affected ==>
      && (sh in before <==> sh in after)
      && (sh in before ==> before[sh] == after[sh])
  }

  /** The script is in the entry of one of these transactions. */
  ghost predicate Uses(txs: TxMap, ts: set<TxHash>, sh: HashX) {
    exists t :: t in ts && t in txs && sh in txs[t].hashXs
  }

  /** The affected scripts are those at the beginning and exactly the ones of these transactions. */
  ghost predicate AffectedBy(txs: TxMap, ts: set<TxHash>, affected0: set<HashX>, affected: set<HashX>) {
    forall sh :: sh in affected <==> sh in affected0 || Uses(txs, ts, sh)
  }

  /** The node never sends a transaction twice, one that spends itself, or one that is spent by a
      transaction that arrived before it. */
  ghost predicate NewBatch(pool: Pool, txsNew: Pool) {
    && txsNew.Keys !! pool.Keys
    && (forall x, txo :: x in pool && txo in pool[x].ins ==> txo.txHash !in txsNew)
    && (forall t, txo :: t in txsNew && txo in txsNew[t].ins ==> txo.txHash != t)
  }

  /** The pool while outputs of the batch are read: `done` completely, nothing of the others. */
  ghost predicate OutputsRead(q: Pool, pool: Pool, txsNew: Pool, done: set<TxHash>) {
    && q.Keys == pool.Keys + done && done <= txsNew.Keys
    && (forall x :: x in pool ==> q[x] == pool[x])
    && (forall t :: t in done ==> q[t] == RawTx([], txsNew[t].outs))
  }

  /** The pool while inputs of the batch are read. */
  ghost predicate InputsRead(q: Pool, pool: Pool, txsNew: Pool, todo: set<TxHash>) {
    && q.Keys == pool.Keys + txsNew.Keys
    && (forall x :: x in pool ==> q[x] == pool[x])
    && (forall t :: t in txsNew ==> q[t].outs == txsNew[t].outs)
    && (forall t :: t in todo && t in txsNew ==> q[t].ins == [])
  }

  /** No transaction of a resolved pool spends from the new batch. */
  lemma {:induction false} OldInputElsewhere(pool: Pool, db: Confirmed, txsNew: Pool, x: TxHash, txo: TXO)
    requires Resolved(pool, db) && NewBatch(pool, txsNew) && x in pool && txo in pool[x].ins
    ensures txo.txHash !in txsNew
  {
    assert Found(Settled(pool, db), txo);
  }

  lemma {:induction false} BatchUnreferenced(pool: Pool, db: Confirmed, txsNew: Pool, t: TxHash)
    requires Resolved(pool, db) && NewBatch(pool, txsNew) && t in txsNew
    ensures Unreferenced(pool, t)
  {
    forall c, txo | c in pool && txo in pool[c].ins
      ensures txo.txHash != t
    {
      OldInputElsewhere(pool, db, txsNew, c, txo);
    }
  }

  lemma {:induction false} OutputsReadUnreferenced(q: Pool, pool: Pool, db: Confirmed, txsNew: Pool, done: set<TxHash>, t: TxHash)
    requires Resolved(pool, db) && NewBatch(pool, txsNew) && t in txsNew
    requires OutputsRead(q, pool, txsNew, done)
    ensures Unreferenced(q, t)
  {
    BatchUnreferenced(pool, db, txsNew, t);
    forall c | c in q
      ensures !SpendsFrom(q[c], t)
    {
      if c in pool { assert q[c] == pool[c]; }
    }
  }

  /** Whether an input is found depends on the outputs in the pool only. */
  lemma {:induction false} FoundByOutputs(q: Pool, full: Pool, db: Confirmed, txo: TXO)
    requires q.Keys == full.Keys && forall x :: x in q ==> q[x].outs == full[x].outs
    ensures Found(Settled(q, db), txo) <==> Found(Settled(full, db), txo)
  {
  }

  lemma {:induction false} BatchComplete(q: Pool, pool: Pool, txsNew: Pool)
    requires InputsRead(q, pool, txsNew, {}) && pool.Keys !! txsNew.Keys
    requires forall t :: t in txsNew ==> q[t] == txsNew[t]
    ensures q == pool + txsNew
  {
    forall x | x in q
      ensures q[x] == (pool + txsNew)[x]
    {
    }
  }

  /** Transactions that were there before keep their parents. */
  lemma {:induction false} OldParentsStay(pool: Pool, db: Confirmed, txsNew: Pool, x: TxHash)
    requires Resolved(pool, db) && NewBatch(pool, txsNew) && x in pool
    ensures Entries(pool + txsNew, db)[x].parents == Entries(pool, db)[x].parents
  {
    var f, g := Settled(pool, db), Settled(pool + txsNew, db);
    forall txo | txo in pool[x].ins
      ensures txo.txHash in f.links <==> txo.txHash in g.links
    {
      OldInputElsewhere(pool, db, txsNew, x, txo);
    }
    assert Parents(f, x) == Parents(g, x);
  }

  /** Lists of unaffected scripts hold old transactions only and stay sorted. */
  lemma {:induction false} UnaffectedSorted(pool: Pool, db: Confirmed, txsNew: Pool, txs: TxMap, lists: Lists, txs': TxMap, lists': Lists,
                                            affected0: set<HashX>, affected: set<HashX>, sh: HashX)
    requires Canonical(txs, lists, pool, db) && NewBatch(pool, txsNew)
    requires txs' == Entries(pool + txsNew, db) && ListsMatch(txs', lists')
    requires OnlyAffected(lists, lists', affected)
    requires AffectedBy(txs', txsNew.Keys, affected0, affected)
    requires sh in lists' && sh !in affected
    ensures StrictlySorted(txs', lists'[sh])
  {
    hide Entries, Resolved;
    var list := lists'[sh];
    assert sh in lists && lists[sh] == list;
    forall t | t in list
      ensures t in txs && t in txs' && (txs[t].parents != {} <==> txs'[t].parents != {})
    {
      assert t in txs' && sh in txs'[t].hashXs;
      assert t !in txsNew by { assert t in txsNew.Keys ==> Uses(txs', txsNew.Keys, sh); }
      OldParentsStay(pool, db, txsNew, t);
    }
    SortedTransfers(txs, txs', list);
  }

  /** A resolved pool plus a batch all of whose inputs are found is resolved. */
  lemma {:induction false} ResolvedWithBatch(pool: Pool, db: Confirmed, txsNew: Pool)
    requires Resolved(pool, db) && NewBatch(pool, txsNew)
    requires forall t, txo :: t in txsNew && txo in txsNew[t].ins ==> Found(Settled(pool + txsNew, db), txo)
    ensures Resolved(pool + txsNew, db)
  {
    var full := pool + txsNew;
    forall t, txo | t in full && txo in full[t].ins
      ensures Found(Settled(full, db), txo)
    {
      if t in pool {
        OldInputElsewhere(pool, db, txsNew, t, txo);
        assert Found(Settled(pool, db), txo);
      }
    }
  }

  lemma {:induction false} EntriesKeys(q: Pool, db: Confirmed)
    ensures Entries(q, db).Keys == q.Keys
  {
  }

  lemma {:induction false} ParentIdsStep(ins: seq<TXO>, txo: TXO, mem: set<TxHash>)
    ensures ParentIds(ins + [txo]) * mem == ParentIds(ins) * mem + if txo.txHash in mem then {txo.txHash} else {}
  {
    assert forall y :: y in ins + [txo] <==> y in ins || y == txo;
  }

  /** The inputs of `done` have been read and all were found; none of the others' has. */
  ghost predicate InputsProgress(q: Pool, pool: Pool, db: Confirmed, txsNew: Pool, done: set<TxHash>) {
    && InputsRead(q, pool, txsNew, txsNew.Keys - done)
    && (forall t :: t in done ==> t in txsNew && q[t] == txsNew[t])
    && (forall t, txo :: t in done && txo in txsNew[t].ins ==> Found(Settled(pool + txsNew, db), txo))
  }

  lemma {:induction false} InputsStart(pool: Pool, db: Confirmed, txsNew: Pool, links: Links)
    requires NewBatch(pool, txsNew)
    ensures InputsProgress(OutputsPool(pool, txsNew), pool, db, txsNew, {})
    ensures BatchNoted(pool + txsNew, links, links, map[], txsNew, {})
    ensures BatchLinked(links, map[], txsNew, {}, pool.Keys + txsNew.Keys)
  {
    NothingSpread(pool + txsNew, links, txsNew.Keys);
    hide NoStrays;
  }

  lemma {:induction false} InputsNext(q: Pool, pool: Pool, db: Confirmed, txsNew: Pool, done: set<TxHash>, t: TxHash)
    requires InputsProgress(q, pool, db, txsNew, done) && NewBatch(pool, txsNew) && t in txsNew && t !in done
    ensures q.Keys == pool.Keys + txsNew.Keys && q[t] == RawTx([], txsNew[t].outs)
    ensures forall txo :: txo in txsNew[t].ins ==> txo.txHash != t
    ensures AllFound(q, db, txsNew[t].ins) ==> InputsProgress(q[t := txsNew[t]], pool, db, txsNew, done + {t})
    ensures !AllFound(q, db, txsNew[t].ins) ==>
              !forall t, txo :: t in txsNew && txo in txsNew[t].ins ==> Found(Settled(pool + txsNew, db), txo)
  {
    forall txo
      ensures Found(Settled(q, db), txo) <==> Found(Settled(pool + txsNew, db), txo)
    {
      FoundByOutputs(q, pool + txsNew, db, txo);
    }
  }

  lemma {:induction false} InputsDone(q: Pool, pool: Pool, db: Confirmed, txsNew: Pool, done: set<TxHash>)
    requires InputsProgress(q, pool, db, txsNew, done) && NewBatch(pool, txsNew) && done == txsNew.Keys
    ensures q == pool + txsNew
    ensures forall t, txo :: t in txsNew && txo in txsNew[t].ins ==> Found(Settled(pool + txsNew, db), txo)
  {
    BatchComplete(q, pool, txsNew);
  }

  lemma {:induction false} BatchAffects(txs: TxMap, txs': TxMap, batch: set<TxHash>, t: TxHash,
                                        affected0: set<HashX>, affected: set<HashX>, affected': set<HashX>)
    requires AffectedBy(txs, batch, affected0, affected) && t in batch && t in txs
    requires KeysGrow(txs, txs', t, affected, affected') && batch <= txs.Keys
    ensures AffectedBy(txs', batch, affected0, affected')
  {
    forall sh | Uses(txs, batch, sh) ensures Uses(txs', batch, sh) {
      var x :| x in batch && x in txs && sh in txs[x].hashXs;
      assert x in txs' && sh in txs'[x].hashXs;
    }
    forall sh | Uses(txs', batch, sh) && !Uses(txs, batch, sh) ensures sh in txs'[t].hashXs && sh in affected' {
      var x :| x in batch && x in txs' && sh in txs'[x].hashXs;
      assert x == t;
    }
    assert forall sh :: sh in txs[t].hashXs ==> Uses(txs, batch, sh);
    assert forall sh :: sh in txs'[t].hashXs ==> Uses(txs', batch, sh);
  }

  /** Links outside the batch are untouched, inside they only grow, from parents, and a growth is reported. */
  ghost predicate BatchNoted(full: Pool, links0: Links, links: Links, np: NewParents, txsNew: Pool, dspTxs: set<TxHash>) {
    Spreads(full, links0, links, txsNew.Keys, dspTxs) && np.Keys <= txsNew.Keys && NotedAreParents(full, np)
  }

  lemma {:induction false} BatchNotedStep(full: Pool, links0: Links, links: Links, links': Links, np: NewParents, np': NewParents, txsNew: Pool,
                                          t: TxHash, dspTxs: set<TxHash>, dspTxs': set<TxHash>)
    requires BatchNoted(full, links0, links, np, txsNew, dspTxs) && t in txsNew
    requires LinksGrowAt(links, links', t) && NoStrays(full, links, links')
    requires np' == np || (t in np' && np' == np[t := np'[t]])
    requires t in np' ==> forall p :: p in np'[t] ==> IsParent(full, t, p)
    requires dspTxs' == if LinksOf(links', t) == LinksOf(links, t) then dspTxs else dspTxs + {t}
    ensures BatchNoted(full, links0, links', np', txsNew, dspTxs')
  {
    hide Spreads, NoStrays, LinksGrowAt, LinksOf, IsParent;
    SpreadsAt(full, links, links', txsNew.Keys, t);
    var more := if LinksOf(links', t) == LinksOf(links, t) then {} else {t};
    SpreadsTrans(full, links0, links, links', txsNew.Keys, dspTxs, more);
    assert dspTxs' == dspTxs + more;
  }

  ghost predicate BatchLinked(links: Links, np: NewParents, txsNew: Pool, done: set<TxHash>, mem: set<TxHash>) {
    forall t :: t in done && t in txsNew ==> SeenLinked(links, np, txsNew.Keys, t, ParentIds(txsNew[t].ins) * mem)
  }

  lemma {:induction false} BatchLinkedStep(links: Links, links': Links, np: NewParents, np': NewParents, txsNew: Pool,
                                           done: set<TxHash>, t: TxHash, mem: set<TxHash>)
    requires BatchLinked(links, np, txsNew, done, mem) && LinksGrowAt(links, links', t) && t in txsNew && t !in done
    requires np' == np || (t in np' && np' == np[t := np'[t]])
    requires SeenLinked(links', np', txsNew.Keys, t, ParentIds(txsNew[t].ins) * mem)
    ensures BatchLinked(links', np', txsNew, done + {t}, mem)
  {
    hide SeenLinked, LinksGrowAt;
    forall u | u in done && u in txsNew
      ensures SeenLinked(links', np', txsNew.Keys, u, ParentIds(txsNew[u].ins) * mem)
    {
      SeenLinkedStays(links, links', np, np', txsNew.Keys, u, ParentIds(txsNew[u].ins) * mem, t);
    }
  }

  /** The batch is in and the affected lists are sorted: the pool is canonical again. */
  lemma {:induction false} AddDone(pool: Pool, db: Confirmed, txsNew: Pool, txs: TxMap, lists: Lists, txs': TxMap, lists': Lists,
                                   affected0: set<HashX>, affected: set<HashX>)
    requires Canonical(txs, lists, pool, db) && NewBatch(pool, txsNew)
    requires txs' == Entries(pool + txsNew, db) && ListsMatch(txs', lists')
    requires OnlyAffected(lists, lists', affected)
    requires AffectedBy(txs', txsNew.Keys, affected0, affected)
    requires forall sh :: sh in affected && sh in lists' ==> StrictlySorted(txs', lists'[sh])
    requires forall t, txo :: t in txsNew && txo in txsNew[t].ins ==> Found(Settled(pool + txsNew, db), txo)
    ensures Canonical(txs', lists', pool + txsNew, db)
  {
    hide Entries, ListsMatch, OnlyAffected, StrictlySorted, Resolved, AffectedBy, Found;
    ResolvedWithBatch(pool, db, txsNew);
    forall sh | sh in lists'
      ensures StrictlySorted(txs', lists'[sh])
    {
      if sh !in affected {
        UnaffectedSorted(pool, db, txsNew, txs, lists, txs', lists', affected0, affected, sh);
      }
    }
  }

  /** After the batch, every new transaction has the proofs of its parents. */
  lemma {:induction false} ParentsInherited(full: Pool, db: Confirmed, txsNew: Pool, links: Links, np: NewParents, t: TxHash, p: TxHash)
    requires t in txsNew && t in full && full[t] == txsNew[t] && p in Entries(full, db)[t].parents
    requires BatchLinked(links, np, txsNew, txsNew.Keys, full.Keys)
    requires forall u :: u in np ==> Inherits(links, np, u)
    ensures LinksOf(links, p) <= LinksOf(links, t)
  {
    EntryAt(full, db, t);
    assert p in ParentIds(txsNew[t].ins) * full.Keys;
    assert SeenLinked(links, np, txsNew.Keys, t, ParentIds(txsNew[t].ins) * full.Keys);
    if p in txsNew {
      assert Inherits(links, np, t);
    }
  }

  /** Every transaction of the batch is linked to every proof linked to one of its parents. */
  ghost predicate ParentsProofsInherited(links: Links, txs: TxMap, batch: set<TxHash>) {
    forall t, p :: t in batch && t in txs && p in txs[t].parents ==> LinksOf(links, p) <= LinksOf(links, t)
  }

  lemma {:induction false} BatchNotesParents(full: Pool, links0: Links, links: Links, np: NewParents, txsNew: Pool, dspTxs: set<TxHash>)
    requires BatchNoted(full, links0, links, np, txsNew, dspTxs)
    ensures NotedAreParents(full, np)
  {
  }

  lemma {:induction false} GrowthOnly(full: Pool, links0: Links, links: Links, np: NewParents, txsNew: Pool, dspTxs: set<TxHash>)
    requires BatchNoted(full, links0, links, np, txsNew, dspTxs)
    ensures LinksGrow(links0, links, txsNew.Keys) && NoStrays(full, links0, links)
  {
  }

  lemma {:induction false} CanonicalParts(txs: TxMap, lists: Lists, pool: Pool, db: Confirmed)
    requires Canonical(txs, lists, pool, db)
    ensures Resolved(pool, db) && txs == Entries(pool, db) && ListsMatch(txs, lists) && ListsSorted(txs, lists)
  {
  }

  lemma {:induction false} NoProofsNoLinks(links: Links, proofs: Proofs)
    requires TwoWay(links, proofs, {}) && |proofs| == 0
    ensures forall x :: LinksOf(links, x) == {}
  {
    forall x
      ensures LinksOf(links, x) == {}
    {
      LinksAreProofs(links, proofs, x);
    }
  }

  lemma {:induction false} DspDone(full: Pool, db: Confirmed, txsNew: Pool, txs: TxMap, np: NewParents,
                                   links0: Links, links1: Links, links2: Links, dspTxs: set<TxHash>, empty: bool, propagated: bool)
    requires txs == Entries(full, db) && forall t :: t in txsNew ==> t in full && full[t] == txsNew[t]
    requires BatchNoted(full, links0, links1, np, txsNew, dspTxs) && NoStrays(full, links1, links2)
    requires !empty ==> BatchLinked(links1, np, txsNew, txsNew.Keys, full.Keys)
    requires empty ==> forall x :: LinksOf(links2, x) == {}
    requires if propagated then LinksGrow(links1, links2, np.Keys) && forall u :: u in np ==> Inherits(links2, np, u)
             else links2 == links1 && (empty || np == map[] || dspTxs == {})
    ensures LinksGrow(links0, links2, txsNew.Keys) && NoStrays(full, links0, links2)
    ensures forall more :: Reports(links1, links2, more) ==> Reports(links0, links2, dspTxs + more)
    ensures (forall t :: t in txsNew ==> LinksOf(links0, t) == {}) ==>
              ParentsProofsInherited(links2, txs, txsNew.Keys)
  {
    hide Entries, NoStrays, NotedAreParents;
    NoStraysTrans(full, links0, links1, links2);
    GrowAgain(links0, links1, links2, np.Keys, txsNew.Keys, propagated);
    forall more | Reports(links1, links2, more)
      ensures Reports(links0, links2, dspTxs + more)
    {
      ReportsAgain(links0, links1, links2, dspTxs, more);
    }
    if !empty && forall t :: t in txsNew ==> LinksOf(links0, t) == {} {
      StillLinked(links1, links2, np, txsNew, full.Keys, propagated);
      forall t, p | t in txsNew && t in txs && p in txs[t].parents
        ensures LinksOf(links2, p) <= LinksOf(links2, t)
      {
        if propagated || np == map[] {
          ParentsInherited(full, db, txsNew, links2, np, t, p);
        } else {
          SilentBatch(full, db, txsNew, links2, np, t, p);
        }
      }
    }
  }

  lemma {:induction false} GrowAgain(links0: Links, links1: Links, links2: Links, ts: set<TxHash>, batch: set<TxHash>, propagated: bool)
    requires LinksGrow(links0, links1, batch) && ts <= batch
    requires if propagated then LinksGrow(links1, links2, ts) else links2 == links1
    ensures LinksGrow(links0, links2, batch)
  {
    hide LinksOf;
    forall x
      ensures x !in batch ==> LinksOf(links2, x) == LinksOf(links0, x)
      ensures LinksOf(links0, x) <= LinksOf(links2, x)
    {
      assert LinksOf(links0, x) <= LinksOf(links1, x) <= LinksOf(links2, x);
    }
  }

  lemma {:induction false} StillLinked(links1: Links, links2: Links, np: NewParents, txsNew: Pool, mem: set<TxHash>, propagated: bool)
    requires BatchLinked(links1, np, txsNew, txsNew.Keys, mem) && np.Keys <= txsNew.Keys
    requires if propagated then LinksGrow(links1, links2, np.Keys) else links2 == links1
    ensures BatchLinked(links2, np, txsNew, txsNew.Keys, mem)
  {
    hide LinksOf, ParentIds;
    if propagated {
      forall t | t in txsNew
        ensures SeenLinked(links2, np, txsNew.Keys, t, ParentIds(txsNew[t].ins) * mem)
      {
        assert SeenLinked(links1, np, txsNew.Keys, t, ParentIds(txsNew[t].ins) * mem);
        assert LinksOf(links1, t) <= LinksOf(links2, t);
      }
    }
  }

  /** When nothing in the batch got a link, parents from the batch have nothing to pass on. */
  lemma {:induction false} SilentBatch(full: Pool, db: Confirmed, txsNew: Pool, links: Links, np: NewParents, t: TxHash, p: TxHash)
    requires t in txsNew && t in full && full[t] == txsNew[t] && p in Entries(full, db)[t].parents
    requires BatchLinked(links, np, txsNew, txsNew.Keys, full.Keys)
    requires forall x :: x in txsNew ==> LinksOf(links, x) == {}
    ensures LinksOf(links, p) <= LinksOf(links, t)
  {
    EntryAt(full, db, t);
    assert p in ParentIds(txsNew[t].ins) * full.Keys;
    assert SeenLinked(links, np, txsNew.Keys, t, ParentIds(txsNew[t].ins) * full.Keys);
  }

  /** The state when the inputs of a transaction begin to be read. */
  datatype Begin = Begin(txs: TxMap, lists: Lists, links: Links, proofs: Proofs, affected: set<HashX>, np: NewParents, full: Pool)

  ghost predicate ProofsPart(b: Begin, t: TxHash, batch: set<TxHash>, links: Links, proofs: Proofs,
                             np: NewParents, seen: set<TxHash>, added: bool)
  {
    && ProofsOk(proofs) && TwoWay(links, proofs, {}) && SameProofs(b.proofs, proofs)
    && Noted(b.full, b.links, links, b.np, np, batch, t, seen, added)
  }

  /** Where the reading of t's inputs stands after i of them. */
  ghost predicate Reading(b: Begin, q0: Pool, db: Confirmed, t: TxHash, ins: seq<TXO>, batch: set<TxHash>, i: nat,
                          txs: TxMap, lists: Lists, links: Links, proofs: Proofs,
                          affected: set<HashX>, np: NewParents, seen: set<TxHash>, added: bool)
  {
    && i <= |ins| && t in q0
    && txs == Entries(q0[t := RawTx(ins[..i], q0[t].outs)], db) && ListsMatch(txs, lists)
    && b.affected <= affected && OnlyAffected(b.lists, lists, affected)
    && KeysGrow(b.txs, txs, t, b.affected, affected)
    && AllFound(q0, db, ins[..i])
    && ProofsPart(b, t, batch, links, proofs, np, seen, added)
    && (|b.proofs| != 0 ==> seen == ParentIds(ins[..i]) * q0.Keys)
  }

  lemma {:induction false} SameSize(a: Proofs, b: Proofs)
    ensures a.Keys == b.Keys ==> |a| == |b|
  {
    assert |a| == |a.Keys| && |b| == |b.Keys|;
  }

  lemma {:induction false} ReadingStarts(b: Begin, q0: Pool, db: Confirmed, t: TxHash, ins: seq<TXO>, batch: set<TxHash>)
    requires t in q0 && q0[t].ins == [] && b.txs == Entries(q0, db) && ListsMatch(b.txs, b.lists)
    requires ProofsOk(b.proofs) && TwoWay(b.links, b.proofs, {}) && t !in b.np
    ensures Reading(b, q0, db, t, ins, batch, 0, b.txs, b.lists, b.links, b.proofs, b.affected, b.np, {}, false)
  {
    hide Entries, ListsMatch, OnlyAffected, KeysGrow, AllFound, TwoWay, ProofsOk, ParentIds, Noted;
    NothingAffected(b.lists, b.affected);
    NoKeys(b.txs, t, b.affected);
    NothingNoted(b.full, b.links, b.np, batch, t);
    SomeInputs(q0, t, ins, 0);
    NoParents(ins);
    NothingToFind(q0, db, ins);
  }

  lemma {:induction false} ReadingEnds(b: Begin, q0: Pool, db: Confirmed, t: TxHash, ins: seq<TXO>, batch: set<TxHash>,
                                       txs: TxMap, lists: Lists, links: Links, proofs: Proofs,
                                       affected: set<HashX>, np: NewParents, seen: set<TxHash>, added: bool)
    requires Reading(b, q0, db, t, ins, batch, |ins|, txs, lists, links, proofs, affected, np, seen, added)
    ensures AllFound(q0, db, ins)
    ensures txs == Entries(q0[t := RawTx(ins, q0[t].outs)], db) && ListsMatch(txs, lists)
    ensures b.affected <= affected && OnlyAffected(b.lists, lists, affected)
    ensures KeysGrow(b.txs, txs, t, b.affected, affected)
    ensures ProofsPart(b, t, batch, links, proofs, np, seen, added)
    ensures |b.proofs| != 0 ==> seen == ParentIds(ins) * q0.Keys
  {
    hide Entries, ListsMatch, OnlyAffected, KeysGrow, AllFound, TwoWay, ProofsOk, ParentIds, Noted;
    assert ins[..|ins|] == ins;
  }

  ghost predicate AllFound(q: Pool, db: Confirmed, ins: seq<TXO>) {
    forall txo :: txo in ins ==> Found(Settled(q, db), txo)
  }

  lemma {:induction false} NothingToFind(q: Pool, db: Confirmed, ins: seq<TXO>)
    ensures AllFound(q, db, ins[..0])
  {
  }

  lemma {:induction false} AllFoundStep(q: Pool, db: Confirmed, ins: seq<TXO>, i: nat)
    requires i < |ins| && AllFound(q, db, ins[..i])
    ensures Found(Settled(q, db), ins[i]) ==> AllFound(q, db, ins[..i + 1])
    ensures !Found(Settled(q, db), ins[i]) ==> !AllFound(q, db, ins)
  {
    hide Found;
    assert ins[..i + 1] == ins[..i] + [ins[i]];
  }

  lemma {:induction false} MoveOne(done: set<TxHash>, todo: set<TxHash>, all: set<TxHash>, t: TxHash)
    requires done !! todo && done + todo == all && t in todo
    ensures (done + {t}) !! (todo - {t}) && (done + {t}) + (todo - {t}) == all
  {
  }

  lemma {:induction false} NoParents(ins: seq<TXO>)
    ensures forall mem: set<TxHash> :: ParentIds(ins[..0]) * mem == {}
  {
  }

  lemma {:induction false} SomeInputs(q0: Pool, t: TxHash, ins: seq<TXO>, i: nat)
    requires t in q0 && i <= |ins|
    ensures q0[t].ins == [] && i == 0 ==> q0[t := RawTx(ins[..i], q0[t].outs)] == q0
    ensures i < |ins| ==> WithInput(q0[t := RawTx(ins[..i], q0[t].outs)], t, ins[i]) == q0[t := RawTx(ins[..i + 1], q0[t].outs)]
    ensures i < |ins| ==> ins[..i + 1] == ins[..i] + [ins[i]]
  {
    if i < |ins| { assert ins[..i + 1] == ins[..i] + [ins[i]]; }
  }

  /** Where the proof bookkeeping for transaction t stands. */
  ghost predicate Noted(full: Pool, links0: Links, links: Links, np0: NewParents, np: NewParents, batch: set<TxHash>, t: TxHash,
                        seen: set<TxHash>, added: bool)
  {
    && LinksGrowAt(links0, links, t) && NoStrays(full, links0, links)
    && (t in np ==> forall p :: p in np[t] ==> IsParent(full, t, p))
    && (added <==> LinksOf(links, t) != LinksOf(links0, t))
    && (np == np0 || (t in np && np == np0[t := np[t]]))
    && t !in seen && SeenLinked(links, np, batch, t, seen)
  }

  lemma {:induction false} NothingNoted(full: Pool, links: Links, np: NewParents, batch: set<TxHash>, t: TxHash)
    requires t !in np
    ensures Noted(full, links, links, np, np, batch, t, {}, false)
  {
    NoStraysNow(full, links);
    NothingSeen(links, np, batch, t);
  }

  lemma {:induction false} NothingSeen(links: Links, newParents: NewParents, batch: set<TxHash>, t: TxHash)
    ensures SeenLinked(links, newParents, batch, t, {})
  {
  }

  lemma {:induction false} SeenOld(links: Links, links': Links, newParents: NewParents, batch: set<TxHash>, t: TxHash,
                                   seen: set<TxHash>, p: TxHash)
    requires SeenLinked(links, newParents, batch, t, seen) && LinksGrowAt(links, links', t)
    requires t !in seen && p != t && p !in batch && LinksOf(links, p) <= LinksOf(links', t)
    ensures SeenLinked(links', newParents, batch, t, seen + {p})
  {
  }

  lemma {:induction false} SeenNew(links: Links, newParents: NewParents, batch: set<TxHash>, t: TxHash, seen: set<TxHash>, p: TxHash)
    requires SeenLinked(links, newParents, batch, t, seen) && p in batch
    ensures SeenLinked(links, newParents[t := (if t in newParents then newParents[t] else {}) + {p}], batch, t, seen + {p})
  {
  }

  lemma {:induction false} NoKeys(txs: TxMap, t: TxHash, affected: set<HashX>)
    ensures KeysGrow(txs, txs, t, affected, affected)
  {
  }

  lemma {:induction false} KeysGrowTrans(a: TxMap, b: TxMap, c: TxMap, t: TxHash, affA: set<HashX>, affB: set<HashX>, affC: set<HashX>)
    requires KeysGrow(a, b, t, affA, affB) && KeysGrow(b, c, t, affB, affC)
    ensures KeysGrow(a, c, t, affA, affC)
  {
  }

  /** Only t's entry shows new scripts, and these are the newly affected ones. */
  ghost predicate KeysGrow(txs: TxMap, txs': TxMap, t: TxHash, affected: set<HashX>, affected': set<HashX>) {
    && (forall x :: x in txs ==> x in txs' && (x != t ==> txs'[x].hashXs.Keys == txs[x].hashXs.Keys))
    && affected <= affected'
    && (t in txs ==>
          && txs[t].hashXs.Keys <= txs'[t].hashXs.Keys
          && affected' + txs[t].hashXs.Keys == affected + txs'[t].hashXs.Keys)
  }

  /** Looking up an input in the entries and the database finds it exactly when it is there. */
  lemma {:induction false} FoundInEntries(txs: TxMap, q: Pool, db: Confirmed, txo: TXO)
    requires txs == Entries(q, db)
    ensures txs.Keys == q.Keys
    ensures txo.txHash in txs ==>
              (Found(Settled(q, db), txo) <==> txo.outN < |txs[txo.txHash].txos| && txs[txo.txHash].txos[txo.outN].Some?)
    ensures txo.txHash in txs && Found(Settled(q, db), txo) ==>
              txs[txo.txHash].txos[txo.outN] == Some(Info(Settled(q, db), txo))
    ensures txo.txHash !in txs ==> (Found(Settled(q, db), txo) <==> txo in db)
  {
    if txo.txHash in q {
      EntryAt(q, db, txo.txHash);
    }
  }

  /** One entry gains a script, another keeps its scripts: the list of that script gains the entry. */
  lemma {:induction false} SpendListed(txs: TxMap, lists: Lists, t: TxHash, e: Tx, p: TxHash, e': Tx, sh: HashX, affected: set<HashX>)
    requires ListsMatch(txs, lists) && t in txs && p in txs && t != p
    requires e.hashXs.Keys == txs[t].hashXs.Keys + {sh} && e'.hashXs.Keys == txs[p].hashXs.Keys
    ensures var txs' := txs[t := e][p := e'];
            && ListsMatch(txs', lists[sh := ListFor(lists, sh) + [t]])
            && KeysGrow(txs, txs', t, affected, affected + {sh})
  {
    hide ListsMatch;
    ListsMatchInsert(txs, lists, p, e');
    ListsMatchAppend(txs[p := e'], lists, t, e, sh);
    assert txs[t := e][p := e'] == txs[p := e'][t := e];
  }

  lemma {:induction false} UnconfirmedApplied(txs: TxMap, lists: Lists, q: Pool, db: Confirmed, t: TxHash, txo: TXO, affected: set<HashX>)
    requires txs == Entries(q, db) && ListsMatch(txs, lists)
    requires t in q && txo.txHash in q && txo.txHash != t && Found(Settled(q, db), txo)
    ensures var p, info := txo.txHash, Info(Settled(q, db), txo);
            && info.hashX in txs[p].hashXs
            && (var txs' := txs[t := WithUnconfirmedSpend(txs[t], txo, info)]
                               [p := WithSpentOutput(txs[p], txo.outN, info.hashX, t)];
                && txs' == Entries(WithInput(q, t, txo), db)
                && ListsMatch(txs', lists[info.hashX := ListFor(lists, info.hashX) + [t]])
                && KeysGrow(txs, txs', t, affected, affected + {info.hashX}))
  {
    hide Entries, ListsMatch, Found, Info;
    var p, info := txo.txHash, Info(Settled(q, db), txo);
    EntryAt(q, db, p);
    EntryAt(q, db, t);
    UnconfirmedInputStep(q, db, t, txo);
    hide Entry, Settled, WithInput, Txos, KeysGrow;
    var e, e' := WithUnconfirmedSpend(txs[t], txo, info), WithSpentOutput(txs[p], txo.outN, info.hashX, t);
    SpendListed(txs, lists, t, e, p, e', info.hashX, affected);
  }

  lemma {:induction false} ConfirmedApplied(txs: TxMap, lists: Lists, q: Pool, db: Confirmed, t: TxHash, txo: TXO, affected: set<HashX>)
    requires txs == Entries(q, db) && ListsMatch(txs, lists)
    requires t in q && txo.txHash !in q && txo in db
    ensures var info := db[txo];
            var txs' := txs[t := WithConfirmedSpend(txs[t], txo, info)];
            && txs' == Entries(WithInput(q, t, txo), db)
            && ListsMatch(txs', lists[info.hashX := ListFor(lists, info.hashX) + [t]])
            && KeysGrow(txs, txs', t, affected, affected + {info.hashX})
  {
    hide Entries, ListsMatch;
    EntryAt(q, db, t);
    ConfirmedInputStep(q, db, t, txo);
    hide Entry;
    ListsMatchAppend(txs, lists, t, WithConfirmedSpend(txs[t], txo, db[txo]), db[txo].hashX);
  }

  lemma {:induction false} SameElementsMatch(txs: TxMap, lists: Lists, sh: HashX, list: seq<TxHash>)
    requires ListsMatch(txs, lists) && sh in lists && forall t :: t in list <==> t in lists[sh]
    ensures ListsMatch(txs, lists[sh := list])
  {
    assert lists[sh][0] in list;
    var lists' := lists[sh := list];
    forall s, t | s in lists' && t in lists'[s]
      ensures t in txs && s in txs[t].hashXs
    {
      assert t in lists[s];
    }
    forall t, s | t in txs && s in txs[t].hashXs
      ensures s in lists' && t in lists'[s]
    {
      assert t in lists[s];
    }
  }

  /** What an entry shows of its transaction's outputs. */
  lemma {:induction false} EntryAt(q: Pool, db: Confirmed, t: TxHash)
    requires t in q
    ensures t in Entries(q, db) && Entries(q, db)[t] == Entry(Settled(q, db), t)
    ensures Entries(q, db)[t].txos == Txos(q[t])
  {
  }

  ghost function OutputsPool(pool: Pool, txsNew: Pool): Pool {
    pool + map t | t in txsNew :: RawTx([], txsNew[t].outs)
  }

  lemma {:induction false} OutputsReadStart(pool: Pool, txsNew: Pool)
    ensures OutputsRead(pool, pool, txsNew, {})
  {
  }

  lemma {:induction false} OutputsReadStep(q: Pool, pool: Pool, db: Confirmed, txsNew: Pool, done: set<TxHash>, t: TxHash)
    requires OutputsRead(q, pool, txsNew, done) && NewBatch(pool, txsNew) && t in txsNew && t !in done
    ensures t !in q && done <= q.Keys
    ensures OutputsRead(q[t := RawTx([], txsNew[t].outs)], pool, txsNew, done + {t})
  {
  }

  lemma {:induction false} OutputsReadDone(q: Pool, pool: Pool, db: Confirmed, txsNew: Pool, done: set<TxHash>)
    requires OutputsRead(q, pool, txsNew, done) && NewBatch(pool, txsNew) && done == txsNew.Keys
    ensures q == OutputsPool(pool, txsNew)
  {
  }

  lemma {:induction false} BlanksStep(outs: seq<TxOut>, n: nat)
    requires n < |outs|
    ensures (outs[..n] + Blanks(|outs| - n))[n] == BLANK
    ensures (outs[..n] + Blanks(|outs| - n))[n := outs[n]] == outs[..n + 1] + Blanks(|outs| - (n + 1))
  {
  }

  lemma {:induction false} EntryOutputs(q: Pool, db: Confirmed, t: TxHash)
    requires t in q
    ensures Entries(q, db)[t] == Entry(Settled(q, db), t)
    ensures |Entries(q, db)[t].txos| == |q[t].outs|
  {
  }

  lemma {:induction false} OutputUnreferenced(q: Pool, t: TxHash, r: RawTx)
    requires Unreferenced(q, t) && t in q && r.ins == []
    ensures Unreferenced(q[t := r], t)
  {
    assert !SpendsFrom(r, t);
  }

  lemma {:induction false} BlankUnreferenced(q: Pool, t: TxHash, k: nat)
    requires Unreferenced(q, t)
    ensures Unreferenced(q[t := RawTx([], Blanks(k))], t)
  {
    assert !SpendsFrom(RawTx([], Blanks(k)), t);
  }

  // ----- which lists have changed

  lemma {:induction false} NothingAffected(lists: Lists, affected: set<HashX>)
    ensures OnlyAffected(lists, lists, affected)
  {
  }

  lemma {:induction false} OnlyAffectedTrans(a: Lists, b: Lists, c: Lists, affected: set<HashX>, affected': set<HashX>)
    requires OnlyAffected(a, b, affected) && OnlyAffected(b, c, affected') && affected <= affected'
    ensures OnlyAffected(a, c, affected')
  {
  }

  lemma {:induction false} AppendAffects(a: Lists, b: Lists, t: TxHash, sh: HashX, affected: set<HashX>)
    requires OnlyAffected(a, b, affected)
    ensures OnlyAffected(a, b[sh := ListFor(b, sh) + [t]], affected + {sh})
  {
  }

  lemma {:induction false} NoneUsed(txs: TxMap, ts: set<TxHash>, affected: set<HashX>)
    requires forall t :: t in ts && t in txs ==> txs[t].hashXs == map[]
    ensures AffectedBy(txs, ts, affected, affected)
  {
  }

  /** The same for a single entry. */
  ghost predicate AffectedByOne(tx: Tx, affected0: set<HashX>, affected: set<HashX>) {
    affected == affected0 + tx.hashXs.Keys
  }

  lemma {:induction false} OneUnused(tx: Tx, affected: set<HashX>)
    requires tx.hashXs == map[]
    ensures AffectedByOne(tx, affected, affected)
  {
  }

  lemma {:induction false} OneGrows(tx: Tx, tx': Tx, affected0: set<HashX>, affected: set<HashX>, more: set<HashX>)
    requires AffectedByOne(tx, affected0, affected) && tx'.hashXs.Keys == tx.hashXs.Keys + more
    ensures AffectedByOne(tx', affected0, affected + more)
  {
  }

  lemma {:induction false} OneUsed(txs: TxMap, t: TxHash, affected0: set<HashX>, affected: set<HashX>)
    requires t in txs && AffectedByOne(txs[t], affected0, affected)
    ensures AffectedBy(txs, {t}, affected0, affected)
  {
    assert forall sh :: sh in txs[t].hashXs ==> t in {t} && Uses(txs, {t}, sh);
  }

  /** One transaction more. */
  lemma {:induction false} OneMoreAffects(txs: TxMap, txs': TxMap, ts: set<TxHash>, t: TxHash,
                                          affected0: set<HashX>, affected: set<HashX>, affected': set<HashX>)
    requires AffectedBy(txs, ts, affected0, affected) && AffectedBy(txs', {t}, affected, affected')
    requires forall x :: x in ts ==> x in txs && x in txs' && txs'[x].hashXs.Keys == txs[x].hashXs.Keys
    ensures AffectedBy(txs', ts + {t}, affected0, affected')
  {
    forall sh ensures Uses(txs', ts + {t}, sh) <==> Uses(txs, ts, sh) || Uses(txs', {t}, sh) {
      if Uses(txs', ts + {t}, sh) {
        var x :| x in ts + {t} && x in txs' && sh in txs'[x].hashXs;
        assert x in ts || x in {t};
      }
      if Uses(txs, ts, sh) {
        var x :| x in ts && x in txs && sh in txs[x].hashXs;
        assert x in ts + {t};
      }
      if Uses(txs', {t}, sh) { assert t in ts + {t}; }
    }
  }
}
