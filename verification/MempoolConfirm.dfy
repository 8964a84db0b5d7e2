/**
  Facts about Mempool::confirmedInBlock: transactions leave the pool because a block confirmed
  them, and what their surviving children spend becomes confirmed.
*/
module MempoolConfirm {
  import opened Wrappers
  import opened Ids
  import opened MempoolMeaning
  import opened MempoolSpec
  import opened MempoolSteps
  import opened MempoolLists
  import opened MempoolDrop

  /** Transaction ids of a block, with their numbers in the database. */
  type BlockTxs = map<TxHash, nat>

  /** A spent output of a transaction the block confirmed. */
  function NowConfirmed(info: TXOInfo, height: nat, txNum: nat): TXOInfo {
    info.(confirmedHeight := Some(height), txNum := txNum)
  }

  /** A block contains the in-pool parents of its transactions. */
  ghost predicate ClosedUnderParents(pool: Pool, ids: set<TxHash>) {
    forall t, txo :: t in pool && t in ids && txo in pool[t].ins && txo.txHash in pool ==> txo.txHash in ids
  }

  /** The confirmed outputs after the block, as far as the surviving transactions spend them: outputs
      of confirmed pool transactions are there, and the block spent none of the others. */
  ghost predicate AfterBlock(pool: Pool, db: Confirmed, db': Confirmed, block: BlockTxs, height: nat) {
    forall x, txo :: x in pool && x !in block && txo in pool[x].ins ==>
      if txo.txHash in pool
      then txo.txHash in block ==>
        var info := Info(Settled(pool, db), txo);
        txo in db' && db'[txo] == TXOInfo(info.amount, info.hashX, Some(height), block[txo.txHash])
      else txo in db && txo in db' && db'[txo] == db[txo]
  }

  /** Entries whose spends are still categorised as before the block ... */
  ghost function Before(pool: Pool, db: Confirmed, gone: set<TxHash>): Frame {
    Frame(pool, db, pool.Keys, AllIns(pool), pool.Keys - gone)
  }

  /** ... and as after it. */
  ghost function After(pool: Pool, db': Confirmed, ids: set<TxHash>, gone: set<TxHash>): Frame {
    Frame(pool, db', pool.Keys - ids, AllIns(pool), pool.Keys - gone)
  }

  // ----- recategorising the spends of one child

  ghost predicate Disjoint(tx: Tx) {
    forall sh :: sh in tx.hashXs ==> tx.hashXs[sh].confirmedSpends.Keys !! tx.hashXs[sh].unconfirmedSpends.Keys
  }

  ghost function RecategorizedIO(io: IOInfo, block: BlockTxs, height: nat): IOInfo {
    IOInfo(
      io.confirmedSpends + (map txo | txo in io.unconfirmedSpends && txo.txHash in block ::
                              NowConfirmed(io.unconfirmedSpends[txo], height, block[txo.txHash])),
      map txo | txo in io.unconfirmedSpends && txo.txHash !in block :: io.unconfirmedSpends[txo],
      io.utxo)
  }

  ghost function Recategorized(tx: Tx, block: BlockTxs, height: nat): Tx {
    tx.(hashXs := map sh | sh in tx.hashXs :: RecategorizedIO(tx.hashXs[sh], block, height))
  }

  ghost predicate NoUnconfirmedSpends(tx: Tx) {
    forall sh :: sh in tx.hashXs ==> tx.hashXs[sh].unconfirmedSpends == map[]
  }

  /** Info, before and after. */
  lemma {:induction false} InfoAfter(pool: Pool, db: Confirmed, db': Confirmed, block: BlockTxs, height: nat, gone: set<TxHash>, x: TxHash, txo: TXO)
    requires Resolved(pool, db) && AfterBlock(pool, db, db', block, height)
    requires x in pool && x !in block && txo in pool[x].ins
    ensures var f, g := Before(pool, db, gone), After(pool, db', block.Keys, gone);
            && Found(f, txo) && Found(g, txo)
            && Info(g, txo) == if txo.txHash in pool && txo.txHash in block
                               then NowConfirmed(Info(f, txo), height, block[txo.txHash]) else Info(f, txo)
  {
    assert Found(Settled(pool, db), txo);
  }

  /** f is the frame before and g after the block, as the inputs of x see them. */
  ghost predicate Recats(f: Frame, g: Frame, block: BlockTxs, height: nat, x: TxHash) {
    && x in f.pool && g.pool == f.pool && g.spent == f.spent && g.links == f.links
    && g.mem == f.mem - block.Keys
    && (forall txo :: txo in f.pool[x].ins ==>
          Info(g, txo) == if txo.txHash in f.mem && txo.txHash in block
                          then NowConfirmed(Info(f, txo), height, block[txo.txHash]) else Info(f, txo))
  }

  lemma {:induction false} RecatConfirmedAt(f: Frame, g: Frame, block: BlockTxs, height: nat, x: TxHash, sh: HashX, txo: TXO)
    requires Recats(f, g, block, height, x)
    ensures var a, b := ConfirmedSpends(g, x, sh), RecategorizedIO(IO(f, x, sh), block, height).confirmedSpends;
            && (txo in a <==> txo in b)
            && (txo in a ==> a[txo] == b[txo])
  {
    hide Info, Utxo;
    var mine := UnconfirmedSpends(f, x, sh);
    if txo in f.pool[x].ins && txo.txHash in f.mem && txo.txHash in block {
      assert Info(g, txo) == NowConfirmed(Info(f, txo), height, block[txo.txHash]);
      assert Info(f, txo).hashX == sh <==> txo in mine;
    }
  }

  lemma {:induction false} RecatConfirmed(f: Frame, g: Frame, block: BlockTxs, height: nat, x: TxHash, sh: HashX)
    requires Recats(f, g, block, height, x)
    ensures ConfirmedSpends(g, x, sh) == RecategorizedIO(IO(f, x, sh), block, height).confirmedSpends
  {
    hide Info, ConfirmedSpends, RecategorizedIO, IO;
    var a, b := ConfirmedSpends(g, x, sh), RecategorizedIO(IO(f, x, sh), block, height).confirmedSpends;
    forall txo
      ensures txo in a <==> txo in b
      ensures txo in a ==> a[txo] == b[txo]
    {
      RecatConfirmedAt(f, g, block, height, x, sh, txo);
    }
  }

  lemma {:induction false} RecatUnconfirmedAt(f: Frame, g: Frame, block: BlockTxs, height: nat, x: TxHash, sh: HashX, txo: TXO)
    requires Recats(f, g, block, height, x)
    ensures var a, b := UnconfirmedSpends(g, x, sh), RecategorizedIO(IO(f, x, sh), block, height).unconfirmedSpends;
            && (txo in a <==> txo in b)
            && (txo in a ==> a[txo] == b[txo])
  {
    hide Info, ConfirmedSpends, Utxo;
    if txo in f.pool[x].ins && txo.txHash in f.mem && txo.txHash !in block {
      assert Info(g, txo) == Info(f, txo);
    }
  }

  lemma {:induction false} RecatUnconfirmed(f: Frame, g: Frame, block: BlockTxs, height: nat, x: TxHash, sh: HashX)
    requires Recats(f, g, block, height, x)
    ensures UnconfirmedSpends(g, x, sh) == RecategorizedIO(IO(f, x, sh), block, height).unconfirmedSpends
  {
    hide Info, UnconfirmedSpends, RecategorizedIO, IO;
    var a, b := UnconfirmedSpends(g, x, sh), RecategorizedIO(IO(f, x, sh), block, height).unconfirmedSpends;
    forall txo
      ensures txo in a <==> txo in b
      ensures txo in a ==> a[txo] == b[txo]
    {
      RecatUnconfirmedAt(f, g, block, height, x, sh, txo);
    }
  }

  lemma {:induction false} RecatIO(f: Frame, g: Frame, block: BlockTxs, height: nat, x: TxHash, sh: HashX)
    requires Recats(f, g, block, height, x)
    ensures IO(g, x, sh) == RecategorizedIO(IO(f, x, sh), block, height)
  {
    RecatConfirmed(f, g, block, height, x, sh);
    RecatUnconfirmed(f, g, block, height, x, sh);
    hide Info, ConfirmedSpends, UnconfirmedSpends;
    assert Utxo(g, x, sh) == Utxo(f, x, sh);
  }

  lemma {:induction false} RecatEntry(f: Frame, g: Frame, block: BlockTxs, height: nat, x: TxHash)
    requires Recats(f, g, block, height, x)
    ensures Entry(g, x) == Recategorized(Entry(f, x), block, height)
    ensures Touched(g, x) == Touched(f, x)
  {
    hide Info, RecategorizedIO, IO;
    SumInsSame(f, g, f.pool[x].ins);
    assert Touched(f, x) == Touched(g, x);
    forall sh | sh in Touched(f, x)
      ensures IO(g, x, sh) == RecategorizedIO(IO(f, x, sh), block, height)
    {
      RecatIO(f, g, block, height, x, sh);
    }
    assert HashXs(g, x) == Recategorized(Entry(f, x), block, height).hashXs;
    assert Parents(g, x) == Parents(f, x);
    assert Children(g, x) == Children(f, x);
  }

  /** Confirmed and unconfirmed spends of an entry are different outpoints. */
  lemma {:induction false} EntryDisjoint(f: Frame, x: TxHash)
    requires x in f.pool
    ensures Disjoint(Entry(f, x))
  {
  }

  /** The entry of a recategorised child shows no unconfirmed spends iff no surviving pool transaction is its parent. */
  lemma {:induction false} NoUnconfirmedIff(g: Frame, x: TxHash)
    requires x in g.pool
    ensures NoUnconfirmedSpends(Entry(g, x)) <==> forall txo :: txo in g.pool[x].ins ==> txo.txHash !in g.mem
  {
    hide Info;
    if NoUnconfirmedSpends(Entry(g, x)) {
      forall txo | txo in g.pool[x].ins
        ensures txo.txHash !in g.mem
      {
        var sh := Info(g, txo).hashX;
        assert sh in Touched(g, x);
        assert Entry(g, x).hashXs[sh].unconfirmedSpends == map[];
        assert txo !in UnconfirmedSpends(g, x, sh);
      }
    }
    if forall txo :: txo in g.pool[x].ins ==> txo.txHash !in g.mem {
      forall sh | sh in Entry(g, x).hashXs
        ensures Entry(g, x).hashXs[sh].unconfirmedSpends == map[]
      {
      }
    }
  }

  // ----- the pool while `gone` of the block's transactions have been erased

  ghost predicate Confirming(txs: TxMap, pool: Pool, db: Confirmed, db': Confirmed, ids: set<TxHash>, gone: set<TxHash>, recat: set<TxHash>) {
    && txs.Keys == pool.Keys - gone && gone <= ids && recat <= pool.Keys - ids
    && (forall x :: x in txs ==> txs[x] == if x in recat then Entry(After(pool, db', ids, gone), x) else Entry(Before(pool, db, gone), x))
  }

  lemma {:induction false} ConfirmingStarts(txs: TxMap, pool: Pool, db: Confirmed, db': Confirmed, ids: set<TxHash>)
    requires txs == Entries(pool, db)
    ensures Confirming(txs, pool, db, db', ids, {}, {})
  {
    assert Before(pool, db, {}) == Settled(pool, db);
    hide Entry;
  }

  lemma {:induction false} RecatStep(txs: TxMap, pool: Pool, db: Confirmed, db': Confirmed, block: BlockTxs, height: nat,
                                     gone: set<TxHash>, recat: set<TxHash>, c: TxHash)
    requires Confirming(txs, pool, db, db', block.Keys, gone, recat)
    requires Resolved(pool, db) && AfterBlock(pool, db, db', block, height)
    requires c in txs && c !in block && c !in recat
    ensures Disjoint(txs[c])
    ensures Confirming(txs[c := Recategorized(txs[c], block, height)], pool, db, db', block.Keys, gone, recat + {c})
    ensures NoUnconfirmedSpends(Recategorized(txs[c], block, height)) <==>
              forall txo :: txo in pool[c].ins ==> txo.txHash !in pool.Keys - block.Keys
    ensures txs[c].hashXs.Keys == Entries(pool, db)[c].hashXs.Keys
  {
    hide Entry, Recategorized, AfterBlock, Resolved, Info, NoUnconfirmedSpends, Disjoint, Entries, Recats;
    var f, g := Before(pool, db, gone), After(pool, db', block.Keys, gone);
    RecatFrames(pool, db, db', block, height, gone, c);
    RecatEntry(f, g, block, height, c);
    EntryDisjoint(f, c);
    NoUnconfirmedIff(g, c);
    KeysAreTouched(pool, db, gone, c);
  }

  lemma {:induction false} RecatFrames(pool: Pool, db: Confirmed, db': Confirmed, block: BlockTxs, height: nat, gone: set<TxHash>, c: TxHash)
    requires Resolved(pool, db) && AfterBlock(pool, db, db', block, height) && c in pool && c !in block
    ensures Recats(Before(pool, db, gone), After(pool, db', block.Keys, gone), block, height, c)
  {
    hide Info, AfterBlock, Resolved, AllIns;
    var f, g := Before(pool, db, gone), After(pool, db', block.Keys, gone);
    forall txo | txo in pool[c].ins
      ensures Info(g, txo) == if txo.txHash in f.mem && txo.txHash in block
                              then NowConfirmed(Info(f, txo), height, block[txo.txHash]) else Info(f, txo)
    {
      InfoAfter(pool, db, db', block, height, gone, c, txo);
    }
  }

  lemma {:induction false} KeysAreTouched(pool: Pool, db: Confirmed, gone: set<TxHash>, x: TxHash)
    requires x in pool
    ensures Entry(Before(pool, db, gone), x).hashXs.Keys == Entries(pool, db)[x].hashXs.Keys
  {
    var f, g := Before(pool, db, gone), Settled(pool, db);
    forall txo
      ensures Info(f, txo) == Info(g, txo)
    {
    }
    hide Info;
    assert Touched(f, x) == Touched(g, x);
  }

  // ----- unlinking a confirmed transaction

  lemma {:induction false} SameLinks(pool: Pool, db: Confirmed, db': Confirmed, ids: set<TxHash>, gone: set<TxHash>, x: TxHash)
    requires x in pool
    ensures var e, e' := Entry(Before(pool, db, gone), x), Entry(After(pool, db', ids, gone), x);
            e.parents == e'.parents && e.children == e'.children
  {
    hide Info;
    var f, g := Before(pool, db, gone), After(pool, db', ids, gone);
    assert Parents(f, x) == Parents(g, x);
    assert Children(f, x) == Children(g, x);
  }

  lemma {:induction false} EraseConfirmed(txs: TxMap, pool: Pool, db: Confirmed, db': Confirmed, ids: set<TxHash>,
                                          gone: set<TxHash>, recat: set<TxHash>, t: TxHash)
    requires Confirming(txs, pool, db, db', ids, gone, recat) && t in txs && t in ids
    ensures Confirming(Erased(txs, t), pool, db, db', ids, gone + {t}, recat)
  {
    var f, g := Before(pool, db, gone), After(pool, db', ids, gone);
    var f', g' := Before(pool, db, gone + {t}), After(pool, db', ids, gone + {t});
    assert f' == f.(links := f.links - {t}) && g' == g.(links := g.links - {t});
    var txs' := Erased(txs, t);
    forall x | x in txs'
      ensures txs'[x] == if x in recat then Entry(g', x) else Entry(f', x)
    {
      UnlinkEntry(f, t, x);
      UnlinkEntry(g, t, x);
      LinksSymmetric(f, t, x);
      LinksSymmetric(f, x, t);
      SameLinks(pool, db, db', ids, gone, x);
      ErasedAt(txs, f, g, recat, t, x);
    }
    hide Entry;
  }

  lemma {:induction false} ErasedAt(txs: TxMap, f: Frame, g: Frame, recat: set<TxHash>, t: TxHash, x: TxHash)
    requires t in txs && x in txs && x != t && t !in recat && t in f.pool && x in f.pool && x in g.pool
    requires txs[t] == Entry(f, t) && txs[x] == if x in recat then Entry(g, x) else Entry(f, x)
    requires Entry(f, x).parents == Entry(g, x).parents && Entry(f, x).children == Entry(g, x).children
    requires t in Entry(f, x).children <==> x in Entry(f, t).parents
    requires x in Entry(f, t).children <==> t in Entry(f, x).parents
    ensures Erased(txs, t)[x] == Unlinked(if x in recat then Entry(g, x) else Entry(f, x), t)
  {
    hide Entry;
    var e := Erased(txs, t)[x];
    assert e.children == txs[x].children - {t};
    assert e.parents == txs[x].parents - {t};
  }

  // ----- all confirmed transactions are gone

  /** Surviving transactions that spend from one that is gone. */
  ghost predicate RecatComplete(pool: Pool, ids: set<TxHash>, gone: set<TxHash>, recat: set<TxHash>) {
    forall x :: x in pool && x !in ids ==> (x in recat <==> exists p :: p in gone && SpendsFrom(pool[x], p))
  }

  lemma {:induction false} ConfirmedSpent(pool: Pool, ids: set<TxHash>, x: TxHash, n: nat)
    requires ClosedUnderParents(pool, ids) && x in pool && x !in ids
    ensures TXO(x, n) in AllIns(pool) <==> TXO(x, n) in AllIns(pool - ids)
  {
    var txo := TXO(x, n);
    if txo in AllIns(pool) {
      var s :| s in pool && txo in pool[s].ins;
      assert s !in ids;
      assert s in pool - ids && txo in (pool - ids)[s].ins;
    }
    if txo in AllIns(pool - ids) {
      var s :| s in pool - ids && txo in (pool - ids)[s].ins;
      assert txo in pool[s].ins;
    }
  }

  lemma {:induction false} ConfirmedChildren(pool: Pool, db: Confirmed, db': Confirmed, ids: set<TxHash>, x: TxHash)
    ensures Children(Before(pool, db, ids * pool.Keys), x) == Children(Settled(pool - ids, db'), x)
    ensures Children(After(pool, db', ids, ids * pool.Keys), x) == Children(Settled(pool - ids, db'), x)
  {
  }

  /** Whether recategorised or not needing it, a survivor's entry is the one of the pool without the block. */
  lemma {:induction false} SurvivorConfirmed(pool: Pool, db: Confirmed, db': Confirmed, block: BlockTxs, height: nat, recat: set<TxHash>, x: TxHash)
    requires Resolved(pool, db) && AfterBlock(pool, db, db', block, height) && ClosedUnderParents(pool, block.Keys)
    requires RecatComplete(pool, block.Keys, block.Keys * pool.Keys, recat)
    requires x in pool && x !in block
    ensures (if x in recat then Entry(After(pool, db', block.Keys, block.Keys * pool.Keys), x)
             else Entry(Before(pool, db, block.Keys * pool.Keys), x))
         == Entry(Settled(pool - block.Keys, db'), x)
  {
    hide Info, AfterBlock, Resolved, AllIns, Children, Entry, ClosedUnderParents, RecatComplete, SpendsFrom;
    var ids, gone := block.Keys, block.Keys * pool.Keys;
    var f := if x in recat then After(pool, db', ids, gone) else Before(pool, db, gone);
    var g := Settled(pool - ids, db');
    forall txo | txo in pool[x].ins
      ensures txo.txHash in f.mem <==> txo.txHash in g.mem
      ensures txo.txHash in f.links <==> txo.txHash in g.links
      ensures Info(f, txo) == Info(g, txo)
    {
      SurvivorInfo(pool, db, db', block, height, recat, x, txo);
    }
    forall n | 0 <= n < |pool[x].outs|
      ensures TXO(x, n) in f.spent <==> TXO(x, n) in g.spent
    {
      ConfirmedSpent(pool, ids, x, n);
    }
    ConfirmedChildren(pool, db, db', ids, x);
    SameEntry(f, g, x);
  }

  lemma {:induction false} SurvivorInfo(pool: Pool, db: Confirmed, db': Confirmed, block: BlockTxs, height: nat, recat: set<TxHash>, x: TxHash, txo: TXO)
    requires Resolved(pool, db) && AfterBlock(pool, db, db', block, height)
    requires RecatComplete(pool, block.Keys, block.Keys * pool.Keys, recat)
    requires x in pool && x !in block && txo in pool[x].ins
    ensures var gone := block.Keys * pool.Keys;
            var f := if x in recat then After(pool, db', block.Keys, gone) else Before(pool, db, gone);
            var g := Settled(pool - block.Keys, db');
            && (txo.txHash in f.mem <==> txo.txHash in g.mem)
            && (txo.txHash in f.links <==> txo.txHash in g.links)
            && Info(f, txo) == Info(g, txo)
  {
    assert Found(Settled(pool, db), txo);
    if txo.txHash in pool && txo.txHash in block {
      assert SpendsFrom(pool[x], txo.txHash);
      assert x in recat;
    }
    hide AllIns, RecatComplete, Resolved;
  }

  lemma {:induction false} ResolvedAfterBlock(pool: Pool, db: Confirmed, db': Confirmed, block: BlockTxs, height: nat)
    requires Resolved(pool, db) && AfterBlock(pool, db, db', block, height)
    ensures Resolved(pool - block.Keys, db')
  {
    forall x, txo | x in pool - block.Keys && txo in (pool - block.Keys)[x].ins
      ensures Found(Settled(pool - block.Keys, db'), txo)
    {
      assert Found(Settled(pool, db), txo);
    }
  }

  lemma {:induction false} ConfirmingEnds(txs: TxMap, pool: Pool, db: Confirmed, db': Confirmed, block: BlockTxs, height: nat,
                                          gone: set<TxHash>, recat: set<TxHash>)
    requires Confirming(txs, pool, db, db', block.Keys, gone, recat) && gone == block.Keys * pool.Keys
    requires Resolved(pool, db) && AfterBlock(pool, db, db', block, height) && ClosedUnderParents(pool, block.Keys)
    requires RecatComplete(pool, block.Keys, gone, recat)
    ensures recat <= pool.Keys - block.Keys
    ensures txs == Entries(pool - block.Keys, db')
  {
    hide Entry, AfterBlock, Resolved, ClosedUnderParents, RecatComplete, AllIns;
    forall x | x in pool && x !in block
      ensures txs[x] == Entry(Settled(pool - block.Keys, db'), x)
    {
      SurvivorConfirmed(pool, db, db', block, height, recat, x);
    }
    assert txs.Keys == (pool - block.Keys).Keys;
  }

  // ----- which lists must be sorted again

  ghost predicate LostAllParents(pool: Pool, ids: set<TxHash>, x: TxHash)
    requires x in pool
  {
    forall txo :: txo in pool[x].ins ==> txo.txHash !in pool.Keys - ids
  }

  /** The script is one of a recategorised transaction that lost its last unconfirmed parent. */
  ghost predicate Rises(pool: Pool, db: Confirmed, ids: set<TxHash>, recat: set<TxHash>, sh: HashX) {
    exists x :: x in recat && x in pool && LostAllParents(pool, ids, x) && sh in Entries(pool, db)[x].hashXs
  }

  /** Exactly those scripts are flagged. */
  ghost predicate Flagged(pool: Pool, db: Confirmed, ids: set<TxHash>, recat: set<TxHash>, needSort: set<HashX>) {
    forall sh :: sh in needSort <==> Rises(pool, db, ids, recat, sh)
  }

  lemma {:induction false} ConfirmKeeps(pool: Pool, db: Confirmed, db': Confirmed, block: BlockTxs, height: nat, recat: set<TxHash>, x: TxHash)
    requires Resolved(pool, db) && AfterBlock(pool, db, db', block, height)
    requires RecatComplete(pool, block.Keys, block.Keys * pool.Keys, recat)
    requires x in pool && x !in block
    ensures Entries(pool - block.Keys, db')[x].hashXs.Keys == Entries(pool, db)[x].hashXs.Keys
    ensures Entries(pool - block.Keys, db')[x].parents != {} ==> Entries(pool, db)[x].parents != {}
    ensures Entries(pool - block.Keys, db')[x].parents == {} && Entries(pool, db)[x].parents != {} ==>
              x in recat && LostAllParents(pool, block.Keys, x)
  {
    hide AfterBlock, Resolved, RecatComplete, AllIns;
    var f, g := Settled(pool, db), Settled(pool - block.Keys, db');
    forall txo | txo in pool[x].ins
      ensures Info(f, txo).hashX == Info(g, txo).hashX
    {
      SameScript(pool, db, db', block, height, x, txo);
    }
    assert Touched(f, x) == Touched(g, x) by { hide Info; }
    hide Info, Touched;
    assert Parents(g, x) <= Parents(f, x);
    if Parents(g, x) == {} && Parents(f, x) != {} {
      var p :| p in Parents(f, x);
      assert SpendsFrom(pool[x], p);
      InputsAreParents(g, x);
      LostParentIsGone(pool, block, recat, x, p);
    }
  }

  lemma {:induction false} RecatLost(pool: Pool, db: Confirmed, db': Confirmed, block: BlockTxs, recat: set<TxHash>, x: TxHash)
    requires RecatComplete(pool, block.Keys, block.Keys * pool.Keys, recat)
    requires x in pool && x !in block && x in recat && LostAllParents(pool, block.Keys, x)
    ensures Entries(pool - block.Keys, db')[x].parents == {} && Entries(pool, db)[x].parents != {}
  {
    var p :| p in block.Keys * pool.Keys && SpendsFrom(pool[x], p);
    assert p in Parents(Settled(pool, db), x);
  }

  /** The script is one of a transaction that had unconfirmed parents and has none left. */
  ghost predicate NewlyParentless(txs: TxMap, txs': TxMap, sh: HashX) {
    exists x :: x in txs && x in txs' && txs[x].parents != {} && txs'[x].parents == {} && sh in txs[x].hashXs
  }

  lemma {:induction false} ReportedAfterBlock(pool: Pool, db: Confirmed, db': Confirmed, block: BlockTxs, height: nat, recat: set<TxHash>,
                                              affected: set<HashX>, needSort: set<HashX>)
    requires Resolved(pool, db) && AfterBlock(pool, db, db', block, height) && recat <= pool.Keys - block.Keys
    requires RecatComplete(pool, block.Keys, block.Keys * pool.Keys, recat)
    requires Touches(pool, db, block.Keys * pool.Keys, needSort, affected) && Flagged(pool, db, block.Keys, recat, needSort)
    ensures forall sh :: sh in affected <==>
              Involves(pool, db, block.Keys * pool.Keys, sh) || NewlyParentless(Entries(pool, db), Entries(pool - block.Keys, db'), sh)
  {
    var a, b := Entries(pool, db), Entries(pool - block.Keys, db');
    assert a.Keys == pool.Keys && b.Keys == pool.Keys - block.Keys;
    hide Resolved, AfterBlock, Involves, Entries, LostAllParents, RecatComplete;
    forall x | x in pool && x !in block
      ensures a[x].parents != {} && b[x].parents == {} <==> x in recat && LostAllParents(pool, block.Keys, x)
    {
      ConfirmKeeps(pool, db, db', block, height, recat, x);
      if x in recat && LostAllParents(pool, block.Keys, x) { RecatLost(pool, db, db', block, recat, x); }
    }
    forall sh ensures Rises(pool, db, block.Keys, recat, sh) <==> NewlyParentless(a, b, sh) {
      if Rises(pool, db, block.Keys, recat, sh) {
        var x :| x in recat && x in pool && LostAllParents(pool, block.Keys, x) && sh in a[x].hashXs;
        assert x in b && a[x].parents != {} && b[x].parents == {};
      }
    }
  }

  lemma {:induction false} InputsAreParents(g: Frame, x: TxHash)
    requires x in g.pool
    ensures forall txo :: txo in g.pool[x].ins && txo.txHash in g.links ==> txo.txHash in Parents(g, x)
  {
  }

  lemma {:induction false} LostParentIsGone(pool: Pool, block: BlockTxs, recat: set<TxHash>, x: TxHash, p: TxHash)
    requires RecatComplete(pool, block.Keys, block.Keys * pool.Keys, recat)
    requires x in pool && x !in block && p in pool && SpendsFrom(pool[x], p) && LostAllParents(pool, block.Keys, x)
    ensures x in recat
  {
    var txo :| txo in pool[x].ins && txo.txHash == p;
    assert p in block.Keys * pool.Keys;
  }

  lemma {:induction false} SameScript(pool: Pool, db: Confirmed, db': Confirmed, block: BlockTxs, height: nat, x: TxHash, txo: TXO)
    requires Resolved(pool, db) && AfterBlock(pool, db, db', block, height)
    requires x in pool && x !in block && txo in pool[x].ins
    ensures Info(Settled(pool, db), txo).hashX == Info(Settled(pool - block.Keys, db'), txo).hashX
  {
    assert Found(Settled(pool, db), txo);
  }

  lemma {:induction false} ConfirmFits(pool: Pool, db: Confirmed, db': Confirmed, block: BlockTxs, height: nat, recat: set<TxHash>,
                                       affected: set<HashX>, needSort: set<HashX>)
    requires Resolved(pool, db) && AfterBlock(pool, db, db', block, height)
    requires RecatComplete(pool, block.Keys, block.Keys * pool.Keys, recat)
    requires Touches(pool, db, block.Keys * pool.Keys, needSort, affected)
    requires Flagged(pool, db, block.Keys, recat, needSort)
    ensures RemovalFits(Entries(pool, db), Entries(pool - block.Keys, db'), block.Keys, affected, needSort)
  {
    hide Entries, AfterBlock, Resolved, RecatComplete, LostAllParents;
    var a, b := Entries(pool, db), Entries(pool - block.Keys, db');
    forall t | t in b
      ensures b[t].hashXs.Keys == a[t].hashXs.Keys
      ensures (b[t].parents != {} <==> a[t].parents != {}) || a[t].hashXs.Keys <= needSort
    {
      ConfirmKeeps(pool, db, db', block, height, recat, t);
    }
  }

  // ----- what becomes of the spends

  /** In the entry of each transaction that stays, what it spends of the block's transactions is confirmed, with
      the height of the block and the number of the transaction. */
  ghost predicate SpendsConfirmedBy(txs: TxMap, pool: Pool, block: BlockTxs, height: nat) {
    forall x, txo :: x in pool && x !in block && txo in pool[x].ins && txo.txHash in pool && txo.txHash in block ==>
      && x in txs && txo.outN < |pool[txo.txHash].outs| && pool[txo.txHash].outs[txo.outN].script.Some?
      && var sh := pool[txo.txHash].outs[txo.outN].script.value;
         && sh in txs[x].hashXs && txo in txs[x].hashXs[sh].confirmedSpends
         && txs[x].hashXs[sh].confirmedSpends[txo]
            == TXOInfo(pool[txo.txHash].outs[txo.outN].amount, sh, Some(height), block[txo.txHash])
  }

  lemma {:induction false} SpentFromBlock(pool: Pool, db: Confirmed, db': Confirmed, block: BlockTxs, height: nat, x: TxHash, txo: TXO)
    requires Resolved(pool, db) && AfterBlock(pool, db, db', block, height)
    requires x in pool && x !in block && txo in pool[x].ins && txo.txHash in pool && txo.txHash in block
    ensures txo.outN < |pool[txo.txHash].outs| && pool[txo.txHash].outs[txo.outN].script.Some? && txo in db'
    ensures var o := pool[txo.txHash].outs[txo.outN];
      db'[txo] == TXOInfo(o.amount, o.script.value, Some(height), block[txo.txHash])
  {
    assert Found(Settled(pool, db), txo);
  }

  lemma {:induction false} SpendInEntry(tx: Tx, pool: Pool, db: Confirmed, x: TxHash, txo: TXO)
    requires x in pool && EntryMeans(tx, pool, db, x) && txo in pool[x].ins && txo.txHash !in pool && txo in db
    ensures var sh := db[txo].hashX;
      sh in tx.hashXs && txo in tx.hashXs[sh].confirmedSpends && tx.hashXs[sh].confirmedSpends[txo] == db[txo]
  {
    hide LinksMean, OutputsMean, PaysTo;
    assert SpendsConfirmed(pool, db, txo, db[txo].hashX);
    assert IOMeans(tx.hashXs[db[txo].hashX], pool, db, x, db[txo].hashX);
  }

  lemma {:induction false} SpendsAreConfirmed(txs: TxMap, lists: Lists, pool: Pool, db: Confirmed, db': Confirmed, block: BlockTxs, height: nat)
    requires Resolved(pool, db) && AfterBlock(pool, db, db', block, height)
    requires Canonical(txs, lists, pool - block.Keys, db')
    ensures SpendsConfirmedBy(txs, pool, block, height)
  {
    hide Canonical, ListsMean, EntryMeans, Resolved, AfterBlock;
    CanonicalMeans(txs, lists, pool - block.Keys, db');
    forall x, txo | x in pool && x !in block && txo in pool[x].ins && txo.txHash in pool && txo.txHash in block
      ensures txo.outN < |pool[txo.txHash].outs| && pool[txo.txHash].outs[txo.outN].script.Some?
      ensures var o := pool[txo.txHash].outs[txo.outN];
        && o.script.value in txs[x].hashXs && txo in txs[x].hashXs[o.script.value].confirmedSpends
        && txs[x].hashXs[o.script.value].confirmedSpends[txo] == TXOInfo(o.amount, o.script.value, Some(height), block[txo.txHash])
    {
      SpentFromBlock(pool, db, db', block, height, x, txo);
      SpendInEntry(txs[x], pool - block.Keys, db', x, txo);
    }
  }

  // ----- small facts for the loops

  lemma {:induction false} ConfirmingFacts(txs: TxMap, pool: Pool, db: Confirmed, db': Confirmed, ids: set<TxHash>, gone: set<TxHash>,
                                           recat: set<TxHash>, t: TxHash)
    requires Confirming(txs, pool, db, db', ids, gone, recat)
    ensures txs.Keys == pool.Keys - gone
    ensures t in txs && t in ids ==>
              && txs[t].hashXs.Keys == Entries(pool, db)[t].hashXs.Keys
              && (forall x :: x in pool && x !in gone ==> (x in txs[t].children <==> SpendsFrom(pool[x], t)))
              && txs[t].children <= pool.Keys - gone
  {
    if t in txs && t in ids {
      KeysAreTouched(pool, db, gone, t);
    }
  }

  lemma {:induction false} RecatCompleteStep(pool: Pool, ids: set<TxHash>, gone: set<TxHash>, recat: set<TxHash>, t: TxHash, children: set<TxHash>)
    requires RecatComplete(pool, ids, gone, recat) && gone <= ids
    requires forall x :: x in pool && x !in ids ==> (x in children <==> SpendsFrom(pool[x], t))
    ensures RecatComplete(pool, ids, gone + {t}, recat + (children - ids))
  {
    hide SpendsFrom;
    forall x | x in pool && x !in ids
      ensures x in recat + (children - ids) <==> exists p :: p in gone + {t} && SpendsFrom(pool[x], p)
    {
      if x in recat {
        var p :| p in gone && SpendsFrom(pool[x], p);
        assert p in gone + {t};
      }
      if x in children { assert t in gone + {t}; }
    }
  }

  lemma {:induction false} RecatCompleteNone(pool: Pool, ids: set<TxHash>)
    ensures RecatComplete(pool, ids, {}, {})
  {
  }

  lemma {:induction false} FlaggedNone(pool: Pool, db: Confirmed, ids: set<TxHash>)
    ensures Flagged(pool, db, ids, {}, {})
  {
  }

  lemma {:induction false} FlaggedStep(pool: Pool, db: Confirmed, ids: set<TxHash>, recat: set<TxHash>, needSort: set<HashX>, c: TxHash)
    requires Flagged(pool, db, ids, recat, needSort) && c in pool
    ensures Flagged(pool, db, ids, recat + {c}, needSort + if LostAllParents(pool, ids, c) then Entries(pool, db)[c].hashXs.Keys else {})
  {
    hide Entries, LostAllParents;
    forall sh
      ensures Rises(pool, db, ids, recat + {c}, sh) <==>
        Rises(pool, db, ids, recat, sh) || (LostAllParents(pool, ids, c) && sh in Entries(pool, db)[c].hashXs)
    {
      if Rises(pool, db, ids, recat, sh) {
        var x :| x in recat && x in pool && LostAllParents(pool, ids, x) && sh in Entries(pool, db)[x].hashXs;
        assert x in recat + {c};
      }
      if LostAllParents(pool, ids, c) && sh in Entries(pool, db)[c].hashXs { assert c in recat + {c}; }
    }
  }

  lemma {:induction false} LostAll(pool: Pool, ids: set<TxHash>, x: TxHash)
    requires x in pool
    ensures LostAllParents(pool, ids, x) <==> forall txo :: txo in pool[x].ins ==> txo.txHash !in pool.Keys - ids
  {
  }

  lemma {:induction false} TouchesFurther(pool: Pool, db: Confirmed, ts: set<TxHash>, further: set<HashX>, affected: set<HashX>, further': set<HashX>)
    requires Touches(pool, db, ts, further, affected) && further <= further'
    ensures Touches(pool, db, ts, further', affected + further')
  {
    hide Involves;
  }

  /** The loop over one script's spends: moved so far are those outside `left`. */
  ghost function MovedTo(io: IOInfo, block: BlockTxs, height: nat, left: set<TXO>): map<TXO, TXOInfo> {
    io.confirmedSpends + (map txo | txo in io.unconfirmedSpends && txo.txHash in block && txo !in left ::
                            NowConfirmed(io.unconfirmedSpends[txo], height, block[txo.txHash]))
  }

  ghost function MovedFrom(io: IOInfo, block: BlockTxs, left: set<TXO>): map<TXO, TXOInfo> {
    map txo | txo in io.unconfirmedSpends && (txo.txHash !in block || txo in left) :: io.unconfirmedSpends[txo]
  }

  lemma {:induction false} MovedEnds(io: IOInfo, block: BlockTxs, height: nat)
    ensures MovedTo(io, block, height, io.unconfirmedSpends.Keys) == io.confirmedSpends
    ensures MovedFrom(io, block, io.unconfirmedSpends.Keys) == io.unconfirmedSpends
    ensures MovedTo(io, block, height, {}) == RecategorizedIO(io, block, height).confirmedSpends
    ensures MovedFrom(io, block, {}) == RecategorizedIO(io, block, height).unconfirmedSpends
  {
  }

  lemma {:induction false} MovedToNext(io: IOInfo, block: BlockTxs, height: nat, left: set<TXO>, txo: TXO)
    requires io.confirmedSpends.Keys !! io.unconfirmedSpends.Keys && txo in left && txo in io.unconfirmedSpends
    ensures var m := MovedTo(io, block, height, left);
            && txo !in m
            && MovedTo(io, block, height, left - {txo}) ==
               if txo.txHash in block then m[txo := NowConfirmed(io.unconfirmedSpends[txo], height, block[txo.txHash])] else m
  {
    var m, m' := MovedTo(io, block, height, left), MovedTo(io, block, height, left - {txo});
    if txo.txHash in block {
      assert m' == m[txo := NowConfirmed(io.unconfirmedSpends[txo], height, block[txo.txHash])];
    } else {
      assert m' == m;
    }
  }

  lemma {:induction false} MovedFromNext(io: IOInfo, block: BlockTxs, left: set<TXO>, txo: TXO)
    requires txo in left && txo in io.unconfirmedSpends
    ensures var m := MovedFrom(io, block, left);
            && txo in m && m[txo] == io.unconfirmedSpends[txo]
            && MovedFrom(io, block, left - {txo}) == if txo.txHash in block then m - {txo} else m
  {
    var m, m' := MovedFrom(io, block, left), MovedFrom(io, block, left - {txo});
    if txo.txHash in block {
      assert m' == m - {txo};
    } else {
      assert m' == m;
    }
  }

  /** `confirmedSpends.insert(unconfirmedSpends.extract(it))` for every spend of a confirmed transaction. */
  method MoveSpends(io: IOInfo, block: BlockTxs, height: nat) returns (r: IOInfo)
    requires io.confirmedSpends.Keys !! io.unconfirmedSpends.Keys
    ensures r == RecategorizedIO(io, block, height)
  {
    MovedEnds(io, block, height);
    assert RecategorizedIO(io, block, height).utxo == io.utxo;
    hide MovedTo, MovedFrom, RecategorizedIO, NowConfirmed;
    r := io;
    var left := io.unconfirmedSpends.Keys;
    while left != {}
      invariant left <= io.unconfirmedSpends.Keys && r.utxo == io.utxo
      invariant r.confirmedSpends == MovedTo(io, block, height, left)
      invariant r.unconfirmedSpends == MovedFrom(io, block, left)
    {
      var txo :| txo in left;
      MovedToNext(io, block, height, left, txo);
      MovedFromNext(io, block, left, txo);
      left := left - {txo};
      if txo.txHash in block && txo !in r.confirmedSpends {
        var info := NowConfirmed(r.unconfirmedSpends[txo], height, block[txo.txHash]);
        r := r.(unconfirmedSpends := r.unconfirmedSpends - {txo},
                confirmedSpends := r.confirmedSpends[txo := info]);
      }
    }
  }

  /** recategorizeSpendsForChild: all scripts of a child, and how many unconfirmed spends are left. */
  method RecategorizeSpends(child: Tx, block: BlockTxs, height: nat) returns (r: Tx, nUnconfs: nat)
    requires Disjoint(child)
    ensures r == Recategorized(child, block, height)
    ensures nUnconfs == 0 <==> NoUnconfirmedSpends(r)
  {
    hide RecategorizedIO;
    r, nUnconfs := child, 0;
    var todo := child.hashXs.Keys;
    while todo != {}
      invariant todo <= child.hashXs.Keys && r == child.(hashXs := r.hashXs) && r.hashXs.Keys == child.hashXs.Keys
      invariant forall sh :: sh in child.hashXs ==>
                  r.hashXs[sh] == if sh in todo then child.hashXs[sh] else RecategorizedIO(child.hashXs[sh], block, height)
      invariant nUnconfs == 0 <==> forall sh :: sh in child.hashXs.Keys - todo ==> r.hashXs[sh].unconfirmedSpends == map[]
    {
      var sh :| sh in todo;
      todo := todo - {sh};
      var io := MoveSpends(r.hashXs[sh], block, height);
      r := r.(hashXs := r.hashXs[sh := io]);
      nUnconfs := nUnconfs + |io.unconfirmedSpends|;
    }
    assert r.hashXs == Recategorized(child, block, height).hashXs;
  }
}
