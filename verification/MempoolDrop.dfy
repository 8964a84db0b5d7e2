/** Facts about Mempool::dropTxs: removing a set of transactions that is closed under children. */
module MempoolDrop {
  import opened Wrappers
  import opened Ids
  import opened MempoolSpec
  import opened MempoolSteps
  import opened MempoolLists

  // ----- growing a set to its descendants

  ghost predicate ClosedUnderChildren(txs: TxMap, s: set<TxHash>) {
    forall t :: t in s && t in txs ==> txs[t].children <= s
  }

  /** While the ids are being grown: `all` is no more than it has to be, and only the queued ids may
      have children outside it. */
  ghost predicate Growing(txs: TxMap, txids: set<TxHash>, all: set<TxHash>, queue: set<TxHash>) {
    && txids <= all && queue <= all
    && (forall t :: t in all && t !in queue && t in txs ==> txs[t].children <= all)
    && (forall s :: txids <= s && ClosedUnderChildren(txs, s) ==> all <= s)
  }

  lemma {:induction false} GrowOne(txs: TxMap, txids: set<TxHash>, all: set<TxHash>, queue: set<TxHash>, t: TxHash)
    requires Growing(txs, txids, all, queue) && t in queue
    ensures t !in txs ==> Growing(txs, txids, all, queue - {t})
    ensures t in txs ==>
      Growing(txs, txids, all + txs[t].children, queue - {t} + (txs[t].children - all)) && txs[t].children <= AllChildren(txs)
  {
    if t in txs {
      forall s | txids <= s && ClosedUnderChildren(txs, s) ensures all + txs[t].children <= s { assert t in s; }
    }
  }

  /** Some children have been gone through: the new ones among them were added and queued. */
  ghost predicate ChildrenAdded(seen: set<TxHash>, all0: set<TxHash>, queue0: set<TxHash>, all: set<TxHash>, queue: set<TxHash>, numAdds: int) {
    all == all0 + seen && queue == queue0 + (seen - all0) && numAdds == |all| - |all0|
  }

  lemma {:induction false} NoChildrenAdded(children: set<TxHash>, todo: set<TxHash>, all0: set<TxHash>, queue0: set<TxHash>)
    requires todo == children
    ensures ChildrenAdded(children - todo, all0, queue0, all0, queue0, 0)
  {
    assert children - todo == {} && all0 + {} == all0;
    assert queue0 + ({} - all0) == queue0;
  }

  lemma {:induction false} AllChildrenAdded(children: set<TxHash>, all0: set<TxHash>, queue0: set<TxHash>,
                                            all: set<TxHash>, queue: set<TxHash>, numAdds: int)
    requires ChildrenAdded(children, all0, queue0, all, queue, numAdds)
    ensures all == all0 + children && queue == queue0 + (children - all0) && numAdds == |all| - |all0|
  {
  }

  lemma {:induction false} OneChildMore(seen: set<TxHash>, all0: set<TxHash>, queue0: set<TxHash>, all: set<TxHash>,
                                        queue: set<TxHash>, numAdds: int, c: TxHash)
    requires ChildrenAdded(seen, all0, queue0, all, queue, numAdds)
    ensures c in all ==> ChildrenAdded(seen + {c}, all0, queue0, all, queue, numAdds)
    ensures c !in all ==> ChildrenAdded(seen + {c}, all0, queue0, all + {c}, queue + {c}, numAdds + 1)
  {
    if c in all {
      assert all0 + (seen + {c}) == all;
      if c in all0 { assert seen + {c} - all0 == seen - all0; } else { assert seen + {c} == seen; }
    } else {
      assert all0 + (seen + {c}) == all + {c};
      assert seen + {c} - all0 == seen - all0 + {c};
    }
  }

  lemma {:induction false} Grown(txs: TxMap, txids: set<TxHash>, all: set<TxHash>)
    requires Growing(txs, txids, all, {})
    ensures txids <= all && ClosedUnderChildren(txs, all)
    ensures forall s :: txids <= s && ClosedUnderChildren(txs, s) ==> all <= s
  {
  }

  ghost function AllChildren(txs: TxMap): set<TxHash> {
    set t, c | t in txs && c in txs[t].children :: c
  }

  // ----- the pool while `gone` of the `doomed` transactions have been erased

  /** Each outpoint is spent by at most one pool transaction. */
  ghost predicate NoDoubleSpends(pool: Pool) {
    forall a, b, txo :: a in pool && b in pool && txo in pool[a].ins && txo in pool[b].ins ==> a == b
  }

  ghost function DropFrame(pool: Pool, db: Confirmed, spent: set<TXO>, gone: set<TxHash>): Frame {
    Frame(pool, db, pool.Keys, spent, pool.Keys - gone)
  }

  /** An entry apart from its unspent sets, which nobody looks at again in a doomed transaction. */
  ghost function Forget(tx: Tx): Tx {
    tx.(hashXs := map sh | sh in tx.hashXs :: tx.hashXs[sh].(utxo := {}))
  }

  ghost predicate Dropping(txs: TxMap, pool: Pool, db: Confirmed, doomed: set<TxHash>, spent: set<TXO>, gone: set<TxHash>) {
    var f := DropFrame(pool, db, spent, gone);
    && txs.Keys == pool.Keys - gone && gone <= doomed
    && (forall x :: x in pool && x !in doomed ==> txs[x] == Entry(f, x))
    && (forall x :: x in pool && x in doomed && x !in gone ==> Forget(txs[x]) == Forget(Entry(f, x)))
  }

  lemma {:induction false} DroppingStarts(txs: TxMap, pool: Pool, db: Confirmed, doomed: set<TxHash>)
    requires txs == Entries(pool, db)
    ensures Dropping(txs, pool, db, doomed, AllIns(pool), {})
  {
    assert DropFrame(pool, db, AllIns(pool), {}) == Settled(pool, db);
    hide Entry, Forget;
  }

  /** `previoinfo.utxo.insert(txo.outN)`: an output of a surviving transaction is unspent again. */
  function WithCredit(prev: Tx, n: nat, sh: HashX): Tx
    requires sh in prev.hashXs
  {
    var io := prev.hashXs[sh];
    prev.(hashXs := prev.hashXs[sh := io.(utxo := io.utxo + {n})])
  }

  lemma {:induction false} CreditEntry(f: Frame, g: Frame, txo: TXO)
    requires var p := txo.txHash;
             && p in f.pool && txo.outN < |f.pool[p].outs| && f.pool[p].outs[txo.outN].script.Some?
             && g == f.(spent := f.spent - {txo})
    ensures var sh := f.pool[txo.txHash].outs[txo.outN].script.value;
            && sh in Entry(f, txo.txHash).hashXs
            && Entry(g, txo.txHash) == WithCredit(Entry(f, txo.txHash), txo.outN, sh)
  {
    hide Info, Touched, IO;
    var p, n := txo.txHash, txo.outN;
    var sh := f.pool[p].outs[n].script.value;
    InfoIgnoresSpent(f, f.spent - {txo});
    SumInsSame(f, g, f.pool[p].ins);
    CreditTouched(f, g, txo);
    var e := WithCredit(Entry(f, p), n, sh);
    forall s | s in Touched(f, p)
      ensures IO(g, p, s) == e.hashXs[s]
    {
      CreditIO(f, g, txo, s);
    }
    assert HashXs(g, p) == e.hashXs;
    assert Parents(g, p) == Parents(f, p);
    assert Children(g, p) == Children(f, p);
  }

  lemma {:induction false} CreditTouched(f: Frame, g: Frame, txo: TXO)
    requires var p := txo.txHash;
             && p in f.pool && txo.outN < |f.pool[p].outs| && f.pool[p].outs[txo.outN].script.Some?
             && g == f.(spent := f.spent - {txo})
    ensures Touched(f, txo.txHash) == Touched(g, txo.txHash)
    ensures f.pool[txo.txHash].outs[txo.outN].script.value in Touched(f, txo.txHash)
  {
    hide Info;
    InfoIgnoresSpent(f, f.spent - {txo});
  }

  lemma {:induction false} CreditIO(f: Frame, g: Frame, txo: TXO, s: HashX)
    requires var p := txo.txHash;
             && p in f.pool && txo.outN < |f.pool[p].outs| && f.pool[p].outs[txo.outN].script.Some?
             && g == f.(spent := f.spent - {txo})
    ensures var p, io := txo.txHash, IO(f, txo.txHash, s);
            IO(g, p, s) == if f.pool[p].outs[txo.outN].script.value == s then io.(utxo := io.utxo + {txo.outN}) else io
  {
    hide Info;
    var p, n := txo.txHash, txo.outN;
    InfoIgnoresSpent(f, f.spent - {txo});
    assert ConfirmedSpends(f, p, s) == ConfirmedSpends(g, p, s);
    assert UnconfirmedSpends(f, p, s) == UnconfirmedSpends(g, p, s);
    assert Utxo(g, p, s) == if f.pool[p].outs[n].script.value == s then Utxo(f, p, s) + {n} else Utxo(f, p, s);
  }

  lemma {:induction false} InfoIgnoresSpent(f: Frame, spent: set<TXO>)
    ensures forall y :: Info(f.(spent := spent), y) == Info(f, y)
  {
  }

  /** Entries of other transactions do not look at this outpoint. */
  lemma {:induction false} CreditBystander(f: Frame, txo: TXO, x: TxHash)
    requires x in f.pool && x != txo.txHash
    ensures Entry(f.(spent := f.spent - {txo}), x) == Entry(f, x)
  {
    var g := f.(spent := f.spent - {txo});
    InfoIgnoresSpent(f, f.spent - {txo});
    assert Children(f, x) == Children(g, x);
    SameEntry(f, g, x);
  }

  lemma {:induction false} ForgetIgnoresSpent(f: Frame, spent: set<TXO>, x: TxHash)
    requires x in f.pool
    ensures Forget(Entry(f.(spent := spent), x)) == Forget(Entry(f, x))
  {
    hide Info;
    var g := f.(spent := spent);
    InfoIgnoresSpent(f, spent);
    SumInsSame(f, g, f.pool[x].ins);
    assert Touched(f, x) == Touched(g, x);
    forall s | s in Touched(f, x)
      ensures IO(f, x, s).(utxo := {}) == IO(g, x, s).(utxo := {})
    {
      assert ConfirmedSpends(f, x, s) == ConfirmedSpends(g, x, s);
      assert UnconfirmedSpends(f, x, s) == UnconfirmedSpends(g, x, s);
    }
    assert Parents(g, x) == Parents(f, x);
    assert Children(g, x) == Children(f, x);
  }

  /** One credit: the outpoint leaves the spent set. */
  lemma {:induction false} CreditStep(txs: TxMap, pool: Pool, db: Confirmed, doomed: set<TxHash>, spent: set<TXO>, gone: set<TxHash>, txo: TXO)
    requires Dropping(txs, pool, db, doomed, spent, gone)
    requires var p := txo.txHash;
             p in pool && p !in doomed && txo.outN < |pool[p].outs| && pool[p].outs[txo.outN].script.Some?
    ensures var p, sh := txo.txHash, pool[txo.txHash].outs[txo.outN].script.value;
            && p in txs && sh in txs[p].hashXs
            && Dropping(txs[p := WithCredit(txs[p], txo.outN, sh)], pool, db, doomed, spent - {txo}, gone)
  {
    hide Entry, Forget, WithCredit;
    var p, sh := txo.txHash, pool[txo.txHash].outs[txo.outN].script.value;
    var f, g := DropFrame(pool, db, spent, gone), DropFrame(pool, db, spent - {txo}, gone);
    CreditEntry(f, g, txo);
    assert txs[p] == Entry(f, p);
    var txs' := txs[p := WithCredit(txs[p], txo.outN, sh)];
    forall x | x in pool && x !in doomed
      ensures txs'[x] == Entry(g, x)
    {
      if x != p { CreditBystander(f, txo, x); }
    }
    forall x | x in pool && x in doomed && x !in gone
      ensures Forget(txs'[x]) == Forget(Entry(g, x))
    {
      ForgetIgnoresSpent(f, spent - {txo}, x);
    }
  }

  // ----- unlinking

  /** The entry of x after t unlinked itself from its parents and children. */
  function Unlinked(tx: Tx, t: TxHash): Tx {
    tx.(parents := tx.parents - {t}, children := tx.children - {t})
  }

  lemma {:induction false} UnlinkEntry(f: Frame, t: TxHash, x: TxHash)
    requires x in f.pool
    ensures Entry(f.(links := f.links - {t}), x) == Unlinked(Entry(f, x), t)
  {
    hide Info;
    var g := f.(links := f.links - {t});
    InfoIgnoresLinks(f, f.links - {t});
    SumInsSame(f, g, f.pool[x].ins);
    assert Touched(f, x) == Touched(g, x);
    forall s | s in Touched(f, x)
      ensures IO(f, x, s) == IO(g, x, s)
    {
      assert ConfirmedSpends(f, x, s) == ConfirmedSpends(g, x, s);
      assert UnconfirmedSpends(f, x, s) == UnconfirmedSpends(g, x, s);
      assert Utxo(f, x, s) == Utxo(g, x, s);
    }
    assert HashXs(f, x) == HashXs(g, x);
    assert Parents(g, x) == Parents(f, x) - {t};
    assert Children(g, x) == Children(f, x) - {t};
  }

  lemma {:induction false} InfoIgnoresLinks(f: Frame, links: set<TxHash>)
    ensures forall y :: Info(f.(links := links), y) == Info(f, y)
  {
  }

  /** Parents and children are the two ends of the same links. */
  lemma {:induction false} LinksSymmetric(f: Frame, t: TxHash, x: TxHash)
    requires t in f.pool && x in f.pool && t in f.links && x in f.links
    ensures t in Entry(f, x).children <==> x in Entry(f, t).parents
  {
    hide Info;
    if t in Children(f, x) {
      var txo :| txo in f.pool[t].ins && txo.txHash == x;
      assert x in Parents(f, t);
    }
    if x in Parents(f, t) {
      var txo :| txo in f.pool[t].ins && txo.txHash == x;
      assert SpendsFrom(f.pool[t], x);
    }
  }

  /** Erasing t from the tables of its parents and children erases it everywhere. */
  function Erased(txs: TxMap, t: TxHash): TxMap
    requires t in txs
  {
    map x | x in txs && x != t ::
      var tx := txs[x];
      tx.(children := if x in txs[t].parents then tx.children - {t} else tx.children,
          parents := if x in txs[t].children then tx.parents - {t} else tx.parents)
  }

  lemma {:induction false} UnlinkStep(txs: TxMap, pool: Pool, db: Confirmed, doomed: set<TxHash>, spent: set<TXO>, gone: set<TxHash>, t: TxHash)
    requires Dropping(txs, pool, db, doomed, spent, gone) && t in txs && t in doomed
    ensures Dropping(Erased(txs, t), pool, db, doomed, spent, gone + {t})
  {
    var f, g := DropFrame(pool, db, spent, gone), DropFrame(pool, db, spent, gone + {t});
    assert g == f.(links := f.links - {t});
    var txs' := Erased(txs, t);
    assert txs'.Keys == pool.Keys - (gone + {t});
    forall x | x in txs'
      ensures x !in doomed ==> txs'[x] == Entry(g, x)
      ensures x in doomed ==> Forget(txs'[x]) == Forget(Entry(g, x))
    {
      UnlinkOne(txs, f, doomed, t, x);
      UnlinkEntry(f, t, x);
    }
  }

  lemma {:induction false} UnlinkOne(txs: TxMap, f: Frame, doomed: set<TxHash>, t: TxHash, x: TxHash)
    requires t in txs && x in txs && x != t && t in f.pool && x in f.pool && t in f.links && x in f.links && t in doomed
    requires Forget(txs[t]) == Forget(Entry(f, t))
    requires if x in doomed then Forget(txs[x]) == Forget(Entry(f, x)) else txs[x] == Entry(f, x)
    ensures x !in doomed ==> Erased(txs, t)[x] == Unlinked(Entry(f, x), t)
    ensures x in doomed ==> Forget(Erased(txs, t)[x]) == Forget(Unlinked(Entry(f, x), t))
  {
    LinksSymmetric(f, t, x);
    LinksSymmetric(f, x, t);
    var e, ex := Erased(txs, t)[x], Entry(f, x);
    hide Entry;
    assert txs[t].parents == Entry(f, t).parents && txs[t].children == Entry(f, t).children;
    assert txs[x].parents == ex.parents && txs[x].children == ex.children;
    assert e.children == ex.children - {t};
    assert e.parents == ex.parents - {t};
  }

  // ----- all the credits of one transaction

  /** The outpoints of survivors that t spends, for scripts in `shs`. */
  ghost function CreditsFor(pool: Pool, db: Confirmed, doomed: set<TxHash>, t: TxHash, shs: set<HashX>): set<TXO>
    requires t in pool
  {
    set txo | txo in pool[t].ins && txo.txHash in pool && txo.txHash !in doomed && Info(Settled(pool, db), txo).hashX in shs
  }

  /** The outpoints of survivors that t spends. */
  ghost function Credits(pool: Pool, doomed: set<TxHash>, t: TxHash): set<TXO>
    requires t in pool
  {
    set txo | txo in pool[t].ins && txo.txHash in pool && txo.txHash !in doomed
  }

  lemma {:induction false} InfoOfFrames(pool: Pool, db: Confirmed, spent: set<TXO>, gone: set<TxHash>, txo: TXO)
    ensures Info(DropFrame(pool, db, spent, gone), txo) == Info(Settled(pool, db), txo)
    ensures Found(DropFrame(pool, db, spent, gone), txo) <==> Found(Settled(pool, db), txo)
  {
  }

  /** A doomed entry still shows exactly the unconfirmed spends of its transaction. */
  lemma {:induction false} DoomedSpends(txs: TxMap, pool: Pool, db: Confirmed, doomed: set<TxHash>, spent: set<TXO>, gone: set<TxHash>, t: TxHash)
    requires Dropping(txs, pool, db, doomed, spent, gone) && t in txs && t in doomed && Resolved(pool, db)
    ensures txs[t].hashXs.Keys == Touched(Settled(pool, db), t)
    ensures forall sh, txo :: sh in txs[t].hashXs ==>
              (txo in txs[t].hashXs[sh].unconfirmedSpends <==>
                txo in pool[t].ins && txo.txHash in pool && Info(Settled(pool, db), txo).hashX == sh)
  {
    var f := DropFrame(pool, db, spent, gone);
    var e := Entry(f, t);
    forall txo ensures Info(f, txo) == Info(Settled(pool, db), txo) {
      InfoOfFrames(pool, db, spent, gone, txo);
    }
    hide Info;
    assert Touched(f, t) == Touched(Settled(pool, db), t);
    assert Forget(txs[t]).hashXs == Forget(e).hashXs;
    assert Forget(txs[t]).hashXs.Keys == txs[t].hashXs.Keys && Forget(e).hashXs.Keys == e.hashXs.Keys;
    forall sh, txo | sh in txs[t].hashXs
      ensures txo in txs[t].hashXs[sh].unconfirmedSpends <==>
                txo in pool[t].ins && txo.txHash in pool && Info(Settled(pool, db), txo).hashX == sh
    {
      assert Forget(txs[t]).hashXs[sh] == Forget(e).hashXs[sh];
      assert txs[t].hashXs[sh].unconfirmedSpends == UnconfirmedSpends(f, t, sh);
    }
  }

  /** An unconfirmed spend found under script sh spends an output of that script. */
  lemma {:induction false} SpendIsOfScript(pool: Pool, db: Confirmed, t: TxHash, txo: TXO)
    requires Resolved(pool, db) && t in pool && txo in pool[t].ins && txo.txHash in pool
    ensures var outs := pool[txo.txHash].outs;
            txo.outN < |outs| && outs[txo.outN].script == Some(Info(Settled(pool, db), txo).hashX)
  {
    assert Found(Settled(pool, db), txo);
  }

  ghost function StillThere(spends: set<TXO>, doomed: set<TxHash>): set<TXO> {
    set txo | txo in spends && txo.txHash !in doomed
  }

  lemma {:induction false} CreditsForNext(pool: Pool, db: Confirmed, doomed: set<TxHash>, t: TxHash, shs: set<HashX>, sh: HashX, spends: set<TXO>)
    requires t in pool
    requires forall txo :: txo in spends <==> txo in pool[t].ins && txo.txHash in pool && Info(Settled(pool, db), txo).hashX == sh
    ensures CreditsFor(pool, db, doomed, t, shs + {sh}) == CreditsFor(pool, db, doomed, t, shs) + StillThere(spends, doomed)
  {
    hide Info;
  }

  lemma {:induction false} CreditsForAll(pool: Pool, db: Confirmed, doomed: set<TxHash>, t: TxHash)
    requires t in pool
    ensures CreditsFor(pool, db, doomed, t, Touched(Settled(pool, db), t)) == Credits(pool, doomed, t)
    ensures CreditsFor(pool, db, doomed, t, {}) == {}
  {
    hide Info;
    forall txo | txo in pool[t].ins
      ensures Info(Settled(pool, db), txo).hashX in Touched(Settled(pool, db), t)
    {
    }
  }

  // ----- all doomed transactions are gone

  ghost function AllCredits(pool: Pool, doomed: set<TxHash>, gone: set<TxHash>): set<TXO> {
    set t, txo | t in gone && t in pool && txo in pool[t].ins && txo.txHash in pool && txo.txHash !in doomed :: txo
  }

  lemma {:induction false} AllCreditsNext(pool: Pool, doomed: set<TxHash>, gone: set<TxHash>, t: TxHash)
    requires t in pool
    ensures AllCredits(pool, doomed, gone + {t}) == AllCredits(pool, doomed, gone) + Credits(pool, doomed, t)
  {
  }

  /** No survivor spends from a dropped transaction. */
  lemma {:induction false} SurvivorsSpendSurvivors(pool: Pool, db: Confirmed, doomed: set<TxHash>, x: TxHash, txo: TXO)
    requires ClosedUnderChildren(Entries(pool, db), doomed)
    requires x in pool && x !in doomed && txo in pool[x].ins && txo.txHash in pool
    ensures txo.txHash !in doomed
  {
    var p := txo.txHash;
    assert SpendsFrom(pool[x], p);
    assert x in Children(Settled(pool, db), p);
    assert x in Entries(pool, db)[p].children;
  }

  lemma {:induction false} SpentBySurvivors(pool: Pool, doomed: set<TxHash>, x: TxHash, n: nat)
    requires NoDoubleSpends(pool) && x in pool && x !in doomed
    ensures TXO(x, n) in AllIns(pool) - AllCredits(pool, doomed, doomed * pool.Keys) <==> TXO(x, n) in AllIns(pool - doomed)
  {
    var txo := TXO(x, n);
    if txo in AllIns(pool - doomed) {
      var s :| s in pool - doomed && txo in (pool - doomed)[s].ins;
      assert txo in AllIns(pool);
    }
    if txo in AllIns(pool) && txo !in AllCredits(pool, doomed, doomed * pool.Keys) {
      var s :| s in pool && txo in pool[s].ins;
      assert s !in doomed;
      assert s in pool - doomed && txo in (pool - doomed)[s].ins;
    }
  }

  lemma {:induction false} SurvivorEntry(pool: Pool, db: Confirmed, doomed: set<TxHash>, x: TxHash)
    requires Resolved(pool, db) && NoDoubleSpends(pool) && ClosedUnderChildren(Entries(pool, db), doomed)
    requires x in pool && x !in doomed
    ensures Entry(DropFrame(pool, db, AllIns(pool) - AllCredits(pool, doomed, doomed * pool.Keys), doomed * pool.Keys), x)
         == Entry(Settled(pool - doomed, db), x)
  {
    hide Info, Children, AllIns, AllCredits, Entry, Entries, ClosedUnderChildren, Resolved, NoDoubleSpends;
    var spent := AllIns(pool) - AllCredits(pool, doomed, doomed * pool.Keys);
    var f, g := DropFrame(pool, db, spent, doomed * pool.Keys), Settled(pool - doomed, db);
    forall txo | txo in pool[x].ins
      ensures txo.txHash in f.mem <==> txo.txHash in g.mem
      ensures txo.txHash in f.links <==> txo.txHash in g.links
      ensures Info(f, txo) == Info(g, txo)
    {
      SurvivorInput(pool, db, spent, doomed, x, txo);
    }
    forall n | 0 <= n < |pool[x].outs|
      ensures TXO(x, n) in f.spent <==> TXO(x, n) in g.spent
    {
      SpentBySurvivors(pool, doomed, x, n);
    }
    SurvivorChildren(pool, db, spent, doomed, x);
    SameEntry(f, g, x);
  }

  lemma {:induction false} SurvivorInput(pool: Pool, db: Confirmed, spent: set<TXO>, doomed: set<TxHash>, x: TxHash, txo: TXO)
    requires ClosedUnderChildren(Entries(pool, db), doomed)
    requires x in pool && x !in doomed && txo in pool[x].ins
    ensures var f, g := DropFrame(pool, db, spent, doomed * pool.Keys), Settled(pool - doomed, db);
            && (txo.txHash in f.mem <==> txo.txHash in g.mem)
            && (txo.txHash in f.links <==> txo.txHash in g.links)
            && Info(f, txo) == Info(g, txo)
  {
    if txo.txHash in pool { SurvivorsSpendSurvivors(pool, db, doomed, x, txo); }
    hide Entries, ClosedUnderChildren, AllIns;
  }

  lemma {:induction false} SurvivorChildren(pool: Pool, db: Confirmed, spent: set<TXO>, doomed: set<TxHash>, x: TxHash)
    ensures Children(DropFrame(pool, db, spent, doomed * pool.Keys), x) == Children(Settled(pool - doomed, db), x)
  {
  }

  lemma {:induction false} ResolvedAfterDrop(pool: Pool, db: Confirmed, doomed: set<TxHash>)
    requires Resolved(pool, db) && ClosedUnderChildren(Entries(pool, db), doomed)
    ensures Resolved(pool - doomed, db)
  {
    forall x, txo | x in pool - doomed && txo in (pool - doomed)[x].ins
      ensures Found(Settled(pool - doomed, db), txo)
    {
      assert Found(Settled(pool, db), txo);
      if txo.txHash in pool { SurvivorsSpendSurvivors(pool, db, doomed, x, txo); }
    }
  }

  /** With all doomed transactions erased and their spends credited, the entries are those of the rest. */
  lemma {:induction false} DroppingEnds(txs: TxMap, pool: Pool, db: Confirmed, doomed: set<TxHash>, gone: set<TxHash>)
    requires Dropping(txs, pool, db, doomed, AllIns(pool) - AllCredits(pool, doomed, gone), gone) && gone == doomed * pool.Keys
    requires Resolved(pool, db) && NoDoubleSpends(pool) && ClosedUnderChildren(Entries(pool, db), doomed)
    ensures txs == Entries(pool - doomed, db)
  {
    hide Entry, ClosedUnderChildren, Resolved, NoDoubleSpends, AllIns, AllCredits;
    forall x | x in pool && x !in doomed
      ensures txs[x] == Entry(Settled(pool - doomed, db), x)
    {
      SurvivorEntry(pool, db, doomed, x);
    }
    assert txs.Keys == (pool - doomed).Keys;
  }

  /** Survivors keep their scripts and their parents. */
  lemma {:induction false} SurvivorKeeps(pool: Pool, db: Confirmed, doomed: set<TxHash>, x: TxHash)
    requires Resolved(pool, db) && ClosedUnderChildren(Entries(pool, db), doomed)
    requires x in pool && x !in doomed
    ensures Entries(pool - doomed, db)[x].hashXs.Keys == Entries(pool, db)[x].hashXs.Keys
    ensures Entries(pool - doomed, db)[x].parents == Entries(pool, db)[x].parents
  {
    var f, g := Settled(pool, db), Settled(pool - doomed, db);
    forall txo | txo in pool[x].ins
      ensures txo.txHash in f.links <==> txo.txHash in g.links
      ensures Info(f, txo) == Info(g, txo)
    {
      if txo.txHash in pool { SurvivorsSpendSurvivors(pool, db, doomed, x, txo); }
    }
    hide Info;
    assert Touched(f, x) == Touched(g, x);
    assert Parents(f, x) == Parents(g, x);
  }

  // ----- small facts for the loops

  lemma {:induction false} NoCredits(pool: Pool, doomed: set<TxHash>)
    ensures AllIns(pool) - AllCredits(pool, doomed, {}) == AllIns(pool)
  {
  }

  lemma {:induction false} SubtractTwice(a: set<TXO>, b: set<TXO>, c: set<TXO>)
    ensures a - b - c == a - (b + c)
  {
  }

  lemma {:induction false} DroppingKeys(txs: TxMap, pool: Pool, db: Confirmed, doomed: set<TxHash>, spent: set<TXO>, gone: set<TxHash>)
    requires Dropping(txs, pool, db, doomed, spent, gone)
    ensures txs.Keys == pool.Keys - gone
  {
  }

  lemma {:induction false} DoomedKeys(txs: TxMap, pool: Pool, db: Confirmed, doomed: set<TxHash>, spent: set<TXO>, gone: set<TxHash>, t: TxHash)
    requires Dropping(txs, pool, db, doomed, spent, gone) && t in txs && t in doomed && Resolved(pool, db)
    ensures t in pool && Entries(pool, db)[t].hashXs.Keys == txs[t].hashXs.Keys
  {
    DoomedSpends(txs, pool, db, doomed, spent, gone, t);
  }

  lemma {:induction false} SurvivorOutputs(txs: TxMap, pool: Pool, db: Confirmed, doomed: set<TxHash>, spent: set<TXO>, gone: set<TxHash>, p: TxHash)
    requires Dropping(txs, pool, db, doomed, spent, gone) && p in pool && p !in doomed
    ensures p in txs && |txs[p].txos| == |pool[p].outs|
  {
  }

  /** The script is one of the transactions ts. */
  ghost predicate Involves(pool: Pool, db: Confirmed, ts: set<TxHash>, sh: HashX) {
    exists t :: t in ts && t in pool && sh in Entries(pool, db)[t].hashXs
  }

  /** The affected scripts are exactly those of the transactions ts and the further ones. */
  ghost predicate Touches(pool: Pool, db: Confirmed, ts: set<TxHash>, further: set<HashX>, affected: set<HashX>) {
    forall sh :: sh in affected <==> Involves(pool, db, ts, sh) || sh in further
  }

  lemma {:induction false} TouchesNone(pool: Pool, db: Confirmed)
    ensures Touches(pool, db, {}, {}, {})
  {
  }

  lemma {:induction false} TouchesMore(pool: Pool, db: Confirmed, ts: set<TxHash>, further: set<HashX>, affected: set<HashX>, t: TxHash)
    requires Touches(pool, db, ts, further, affected) && t in pool
    ensures Touches(pool, db, ts + {t}, further, affected + Entries(pool, db)[t].hashXs.Keys)
  {
    hide Entries;
    forall sh
      ensures Involves(pool, db, ts + {t}, sh) <==> Involves(pool, db, ts, sh) || sh in Entries(pool, db)[t].hashXs
    {
      if sh in Entries(pool, db)[t].hashXs { assert t in ts + {t}; }
      if Involves(pool, db, ts, sh) {
        var u :| u in ts && u in pool && sh in Entries(pool, db)[u].hashXs;
        assert u in ts + {t};
      }
    }
  }

  lemma {:induction false} DropFits(pool: Pool, db: Confirmed, doomed: set<TxHash>, affected: set<HashX>)
    requires Resolved(pool, db) && ClosedUnderChildren(Entries(pool, db), doomed)
    requires Touches(pool, db, doomed * pool.Keys, {}, affected)
    ensures RemovalFits(Entries(pool, db), Entries(pool - doomed, db), doomed, affected, {})
  {
    var a, b := Entries(pool, db), Entries(pool - doomed, db);
    forall t | t in b
      ensures b[t].hashXs.Keys == a[t].hashXs.Keys && b[t].parents == a[t].parents
    {
      SurvivorKeeps(pool, db, doomed, t);
    }
    hide Entries, Resolved, ClosedUnderChildren;
  }

  lemma {:induction false} CanonicalFrom(txs: TxMap, lists: Lists, pool: Pool, db: Confirmed)
    requires Resolved(pool, db) && txs == Entries(pool, db) && ListsMatch(txs, lists) && ListsSorted(txs, lists)
    ensures Canonical(txs, lists, pool, db)
  {
  }
}
