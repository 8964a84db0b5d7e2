/**
  Conservation of value in the mempool: what pool transactions spend from the confirmed set is
  their unspent outputs, their fees and what they burn in OP_RETURN outputs.
*/
module MempoolLedger {
  import opened Wrappers
  import opened Ids
  import opened Sums
  import opened MempoolSpec
  import opened MempoolSteps
  import opened MempoolDrop

  /** Each outpoint is spent at most once, by one input of one transaction. */
  ghost predicate SpentOnce(pool: Pool) {
    && NoDoubleSpends(pool)
    && (forall t, i, j :: t in pool && 0 <= i < j < |pool[t].ins| ==> pool[t].ins[i] != pool[t].ins[j])
  }

  // ----- what the entries show

  /** All unspent outputs of pool transactions. */
  ghost function PoolUtxos(txs: map<TxHash, Tx>): set<TXO> {
    set t, sh, n | t in txs && sh in txs[t].hashXs && n in txs[t].hashXs[sh].utxo :: TXO(t, n)
  }

  /** All confirmed outputs that pool transactions spend. */
  ghost function PoolConfirmedSpends(txs: map<TxHash, Tx>): set<TXO> {
    set t, sh, txo | t in txs && sh in txs[t].hashXs && txo in txs[t].hashXs[sh].confirmedSpends :: txo
  }

  /** The value of an output of a pool transaction. */
  ghost function OutAmount(pool: Pool, txo: TXO): int {
    if txo.txHash in pool && txo.outN < |pool[txo.txHash].outs| then pool[txo.txHash].outs[txo.outN].amount else 0
  }

  ghost function OutsOf(pool: Pool, t: TxHash): set<TXO> {
    if t in pool then set n | 0 <= n < |pool[t].outs| :: TXO(t, n) else {}
  }

  ghost function InsOf(pool: Pool, t: TxHash): set<TXO> {
    if t in pool then set txo | txo in pool[t].ins else {}
  }

  /** All outputs of pool transactions, and those that are OP_RETURN. */
  ghost function AllOuts(pool: Pool): set<TXO> {
    set t, n | t in pool && 0 <= n < |pool[t].outs| :: TXO(t, n)
  }

  ghost predicate IsOpReturn(pool: Pool, txo: TXO) {
    txo.txHash in pool && txo.outN < |pool[txo.txHash].outs| && pool[txo.txHash].outs[txo.outN].script.None?
  }

  ghost function OpReturns(pool: Pool): set<TXO> {
    set txo | txo in AllOuts(pool) && IsOpReturn(pool, txo)
  }

  ghost function FeeOf(txs: map<TxHash, Tx>, t: TxHash): int {
    if t in txs then txs[t].fee else 0
  }

  // ----- sums over sequences are sums over sets

  lemma {:induction false} SumInsIsSum(f: Frame, ins: seq<TXO>, all: set<TXO>, g: TXO -> int)
    requires forall i, j :: 0 <= i < j < |ins| ==> ins[i] != ins[j]
    requires forall txo :: txo in all <==> txo in ins
    requires forall txo :: txo in ins ==> g(txo) == Info(f, txo).amount
    ensures SumIns(f, ins) == Sum(all, g)
    decreases |ins|
  {
    hide Info, Sum;
    if ins == [] {
      assert all == {};
      SumZero(all, g);
    } else {
      var n := |ins| - 1;
      var last := ins[n];
      assert ins == ins[..n] + [last];
      SumRemove(all, g, last);
      SumInsIsSum(f, ins[..n], all - {last}, g);
    }
  }

  lemma {:induction false} SumOutsIsSum(pool: Pool, t: TxHash, n: nat, all: set<TXO>, g: TXO -> int)
    requires t in pool && n <= |pool[t].outs|
    requires forall txo :: txo in all <==> txo.txHash == t && txo.outN < n
    requires forall k :: 0 <= k < n ==> g(TXO(t, k)) == pool[t].outs[k].amount
    ensures SumOuts(pool[t].outs[..n]) == Sum(all, g)
    decreases n
  {
    hide Sum;
    if n == 0 {
      assert all == {};
      SumZero(all, g);
    } else {
      assert pool[t].outs[..n][..n - 1] == pool[t].outs[..n - 1];
      SumRemove(all, g, TXO(t, n - 1));
      SumOutsIsSum(pool, t, n - 1, all - {TXO(t, n - 1)}, g);
    }
  }

  /** The fee of a transaction, as sums over the sets of its inputs and outputs. */
  lemma {:induction false} FeeIsSums(pool: Pool, db: Confirmed, t: TxHash, g: TXO -> int, h: TXO -> int)
    requires SpentOnce(pool) && t in pool
    requires forall txo :: g(txo) == Info(Settled(pool, db), txo).amount
    requires forall txo :: h(txo) == OutAmount(pool, txo)
    ensures Entries(pool, db)[t].fee == Sum(InsOf(pool, t), g) - Sum(OutsOf(pool, t), h)
  {
    var f := Settled(pool, db);
    SumInsIsSum(f, pool[t].ins, InsOf(pool, t), g);
    assert pool[t].outs[..|pool[t].outs|] == pool[t].outs;
    forall txo
      ensures txo in OutsOf(pool, t) <==> txo.txHash == t && txo.outN < |pool[t].outs|
    {
      assert txo == TXO(txo.txHash, txo.outN);
    }
    SumOutsIsSum(pool, t, |pool[t].outs|, OutsOf(pool, t), h);
  }

  // ----- the four totals

  lemma {:induction false} UnionOfOuts(pool: Pool, outs: TxHash -> set<TXO>)
    requires forall t :: outs(t) == OutsOf(pool, t)
    ensures Union(pool.Keys, outs) == AllOuts(pool)
    ensures forall a, b :: a in pool && b in pool && a != b ==> outs(a) !! outs(b)
  {
    forall txo | txo in AllOuts(pool)
      ensures txo in Union(pool.Keys, outs)
    {
      var t, n :| t in pool && 0 <= n < |pool[t].outs| && txo == TXO(t, n);
      assert txo in outs(t);
    }
    forall txo | txo in Union(pool.Keys, outs)
      ensures txo in AllOuts(pool)
    {
      var t :| t in pool && txo in outs(t);
    }
  }

  lemma {:induction false} UnionOfIns(pool: Pool, ins: TxHash -> set<TXO>)
    requires SpentOnce(pool) && forall t :: ins(t) == InsOf(pool, t)
    ensures Union(pool.Keys, ins) == AllIns(pool)
    ensures forall a, b :: a in pool && b in pool && a != b ==> ins(a) !! ins(b)
  {
    forall txo | txo in AllIns(pool)
      ensures txo in Union(pool.Keys, ins)
    {
      var t :| t in pool && txo in pool[t].ins;
      assert txo in ins(t);
    }
    forall txo | txo in Union(pool.Keys, ins)
      ensures txo in AllIns(pool)
    {
      var t :| t in pool && txo in ins(t);
    }
  }

  lemma {:induction false} FeesTotal(pool: Pool, db: Confirmed, g: TXO -> int, h: TXO -> int, fee: TxHash -> int)
    requires SpentOnce(pool)
    requires forall txo :: g(txo) == Info(Settled(pool, db), txo).amount
    requires forall txo :: h(txo) == OutAmount(pool, txo)
    requires forall t :: t in pool ==> fee(t) == Entries(pool, db)[t].fee
    ensures Sum(pool.Keys, fee) == Sum(AllIns(pool), g) - Sum(AllOuts(pool), h)
  {
    hide Sum, Entries, Info, OutAmount, InsOf, OutsOf, SpentOnce, Union, AllIns, AllOuts;
    var ins, outs := (t: TxHash) => InsOf(pool, t), (t: TxHash) => OutsOf(pool, t);
    var inSum, outSum := (t: TxHash) => Sum(InsOf(pool, t), g), (t: TxHash) => Sum(OutsOf(pool, t), h);
    forall t | t in pool
      ensures inSum(t) == fee(t) + outSum(t)
    {
      FeeIsSums(pool, db, t, g, h);
    }
    UnionOfIns(pool, ins);
    UnionOfOuts(pool, outs);
    SumPlus(pool.Keys, fee, outSum, inSum);
    SumGroups(pool.Keys, ins, g, inSum);
    SumGroups(pool.Keys, outs, h, outSum);
  }

  ghost function UnconfirmedIns(pool: Pool): set<TXO> {
    set txo | txo in AllIns(pool) && txo.txHash in pool
  }

  ghost function ConfirmedIns(pool: Pool): set<TXO> {
    set txo | txo in AllIns(pool) && txo.txHash !in pool
  }

  ghost function Unspent(pool: Pool): set<TXO> {
    set txo | txo in AllOuts(pool) && !IsOpReturn(pool, txo) && txo !in AllIns(pool)
  }

  lemma {:induction false} IsOut(pool: Pool, txo: TXO)
    ensures txo in AllOuts(pool) <==> txo.txHash in pool && txo.outN < |pool[txo.txHash].outs|
  {
    assert txo == TXO(txo.txHash, txo.outN);
  }

  /** The inputs split by where they spend from, the outputs by whether and how they are spent. */
  lemma {:induction false} Splits(pool: Pool, db: Confirmed)
    requires Resolved(pool, db)
    ensures AllIns(pool) == ConfirmedIns(pool) + UnconfirmedIns(pool) && ConfirmedIns(pool) !! UnconfirmedIns(pool)
    ensures AllOuts(pool) == OpReturns(pool) + (UnconfirmedIns(pool) + Unspent(pool))
    ensures OpReturns(pool) !! (UnconfirmedIns(pool) + Unspent(pool)) && UnconfirmedIns(pool) !! Unspent(pool)
    ensures forall txo :: txo in UnconfirmedIns(pool) ==> Info(Settled(pool, db), txo).amount == OutAmount(pool, txo)
  {
    forall txo | txo in UnconfirmedIns(pool)
      ensures txo in AllOuts(pool) && !IsOpReturn(pool, txo)
      ensures Info(Settled(pool, db), txo).amount == OutAmount(pool, txo)
    {
      var t :| t in pool && txo in pool[t].ins;
      assert Found(Settled(pool, db), txo);
      IsOut(pool, txo);
    }
    forall txo | txo in AllOuts(pool)
      ensures txo in OpReturns(pool) + (UnconfirmedIns(pool) + Unspent(pool))
    {
      IsOut(pool, txo);
    }
  }

  lemma {:induction false} UtxosAreUnspent(pool: Pool, db: Confirmed)
    ensures PoolUtxos(Entries(pool, db)) == Unspent(pool)
  {
    var f, txs := Settled(pool, db), Entries(pool, db);
    forall txo | txo in PoolUtxos(txs)
      ensures txo in Unspent(pool)
    {
      var t, sh, n :| t in txs && sh in txs[t].hashXs && n in txs[t].hashXs[sh].utxo && txo == TXO(t, n);
      assert n in Utxo(f, t, sh);
      IsOut(pool, txo);
    }
    forall txo | txo in Unspent(pool)
      ensures txo in PoolUtxos(txs)
    {
      IsOut(pool, txo);
      var t, n := txo.txHash, txo.outN;
      var sh := pool[t].outs[n].script.value;
      assert n in Utxo(f, t, sh);
      UtxoTouched(f, t, sh);
      assert sh in txs[t].hashXs && n in txs[t].hashXs[sh].utxo;
      assert txo == TXO(t, n);
    }
  }

  lemma {:induction false} SpendsAreConfirmedIns(pool: Pool, db: Confirmed)
    ensures PoolConfirmedSpends(Entries(pool, db)) == ConfirmedIns(pool)
  {
    var f, txs := Settled(pool, db), Entries(pool, db);
    hide Info;
    forall txo | txo in PoolConfirmedSpends(txs)
      ensures txo in ConfirmedIns(pool)
    {
      var t, sh :| t in txs && sh in txs[t].hashXs && txo in txs[t].hashXs[sh].confirmedSpends;
      assert txo in ConfirmedSpends(f, t, sh);
    }
    forall txo | txo in ConfirmedIns(pool)
      ensures txo in PoolConfirmedSpends(txs)
    {
      var t :| t in pool && txo in pool[t].ins;
      var sh := Info(f, txo).hashX;
      assert sh in Touched(f, t);
      assert txo in ConfirmedSpends(f, t, sh);
      assert sh in txs[t].hashXs && txo in txs[t].hashXs[sh].confirmedSpends;
    }
  }

  /** Unspent outputs + fees + OP_RETURN value = value spent from the confirmed set. */
  ghost predicate Balances(txs: map<TxHash, Tx>, pool: Pool, db: Confirmed) {
    Sum(PoolUtxos(txs), txo => OutAmount(pool, txo))
      == Sum(PoolConfirmedSpends(txs), txo => Info(Settled(pool, db), txo).amount)
         - Sum(pool.Keys, t => FeeOf(txs, t))
         - Sum(OpReturns(pool), txo => OutAmount(pool, txo))
  }

  /** Every canonical mempool balances. */
  lemma {:induction false} LedgerBalances(txs: map<TxHash, Tx>, lists: map<HashX, seq<TxHash>>, pool: Pool, db: Confirmed)
    requires Canonical(txs, lists, pool, db) && SpentOnce(pool)
    ensures Balances(txs, pool, db)
  {
    hide Sum, Info, ListsMatch, ListsSorted, Entries, OutAmount;
    var g, h := (txo: TXO) => Info(Settled(pool, db), txo).amount, (txo: TXO) => OutAmount(pool, txo);
    var fee := (t: TxHash) => FeeOf(txs, t);
    UtxosAreUnspent(pool, db);
    SpendsAreConfirmedIns(pool, db);
    FeesTotal(pool, db, g, h, fee);
    Splits(pool, db);
    hide AllIns, AllOuts, ConfirmedIns, UnconfirmedIns, Unspent, OpReturns, PoolUtxos, PoolConfirmedSpends, Resolved;
    var u, c, o, s := UnconfirmedIns(pool), ConfirmedIns(pool), OpReturns(pool), Unspent(pool);
    SumUnion(c, u, g);
    SumUnion(o, u + s, h);
    SumUnion(u, s, h);
    SumSame(u, g, h);
  }
}
