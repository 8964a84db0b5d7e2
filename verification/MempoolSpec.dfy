/**
  What a mempool entry is, as a function of the transactions in the pool and the confirmed
  outputs: the reference definition the incremental mutators of src/Mempool.cpp must agree with.
*/
module MempoolSpec {
  import opened Wrappers
  import opened Ids

  datatype TXO = TXO(txHash: TxHash, outN: nat)

  datatype TXOInfo = TXOInfo(amount: nat, hashX: HashX, confirmedHeight: Option<nat>, txNum: nat)

  // ----- transactions as the node sends them

  /** An output; no script hash means OP_RETURN. */
  datatype TxOut = TxOut(amount: nat, script: Option<HashX>)

  datatype RawTx = RawTx(ins: seq<TXO>, outs: seq<TxOut>)

  type Pool = map<TxHash, RawTx>

  /** Confirmed outputs by outpoint, as the database returns them. */
  type Confirmed = map<TXO, TXOInfo>

  // ----- mempool entries

  datatype IOInfo = IOInfo(
    confirmedSpends: map<TXO, TXOInfo>,
    unconfirmedSpends: map<TXO, TXOInfo>,
    utxo: set<nat>)

  const NO_IO := IOInfo(map[], map[], {})

  datatype Tx = Tx(
    fee: int,
    txos: seq<Option<TXOInfo>>,   // None is an entry that is not valid (OP_RETURN)
    hashXs: map<HashX, IOInfo>,
    parents: set<TxHash>,
    children: set<TxHash>)

  // ----- the reference definition

  function OutInfo(o: TxOut): Option<TXOInfo> {
    if o.script.Some? then Some(TXOInfo(o.amount, o.script.value, None, 0)) else None
  }

  function Txos(r: RawTx): (s: seq<Option<TXOInfo>>)
    ensures |s| == |r.outs|
    ensures forall i :: 0 <= i < |s| ==> s[i] == OutInfo(r.outs[i])
  {
    seq(|r.outs|, i requires 0 <= i < |r.outs| => OutInfo(r.outs[i]))
  }

  /**
    The point of view an entry is computed from.  In a settled mempool `mem` and `links` are all
    pool transactions and `spent` all their inputs; while a mutator runs they lag behind.
  */
  datatype Frame = Frame(
    pool: Pool,
    db: Confirmed,
    mem: set<TxHash>,      // whose outputs count as unconfirmed
    spent: set<TXO>,       // outpoints that count as spent
    links: set<TxHash>)    // who can be a parent or a child

  /** The output an input spends can be found. */
  predicate Found(f: Frame, txo: TXO) {
    if txo.txHash in f.mem
    then txo.txHash in f.pool && txo.outN < |f.pool[txo.txHash].outs| && f.pool[txo.txHash].outs[txo.outN].script.Some?
    else txo in f.db
  }

  const NO_INFO := TXOInfo(0, 0, None, 0)

  /** The spent output of an input. */
  function Info(f: Frame, txo: TXO): TXOInfo {
    if !Found(f, txo) then NO_INFO
    else if txo.txHash in f.mem then OutInfo(f.pool[txo.txHash].outs[txo.outN]).value
    else f.db[txo]
  }

  function SumIns(f: Frame, ins: seq<TXO>): int {
    if ins == [] then 0 else SumIns(f, ins[..|ins| - 1]) + Info(f, ins[|ins| - 1]).amount
  }

  function SumOuts(outs: seq<TxOut>): int {
    if outs == [] then 0 else SumOuts(outs[..|outs| - 1]) + outs[|outs| - 1].amount
  }

  /** The scripts a transaction pays to or spends from. */
  ghost function Touched(f: Frame, t: TxHash): set<HashX>
    requires t in f.pool
  {
    (set n | 0 <= n < |f.pool[t].outs| && f.pool[t].outs[n].script.Some? :: f.pool[t].outs[n].script.value)
    + (set txo | txo in f.pool[t].ins :: Info(f, txo).hashX)
  }

  ghost function ConfirmedSpends(f: Frame, t: TxHash, sh: HashX): map<TXO, TXOInfo>
    requires t in f.pool
  {
    map txo | txo in f.pool[t].ins && txo.txHash !in f.mem && Info(f, txo).hashX == sh :: Info(f, txo)
  }

  ghost function UnconfirmedSpends(f: Frame, t: TxHash, sh: HashX): map<TXO, TXOInfo>
    requires t in f.pool
  {
    map txo | txo in f.pool[t].ins && txo.txHash in f.mem && Info(f, txo).hashX == sh :: Info(f, txo)
  }

  /** An output is in its script's unspent set iff it is valid and no pool transaction spends it. */
  ghost function Utxo(f: Frame, t: TxHash, sh: HashX): set<nat>
    requires t in f.pool
  {
    set n | 0 <= n < |f.pool[t].outs| && f.pool[t].outs[n].script == Some(sh) && TXO(t, n) !in f.spent
  }

  ghost function IO(f: Frame, t: TxHash, sh: HashX): IOInfo
    requires t in f.pool
  {
    IOInfo(ConfirmedSpends(f, t, sh), UnconfirmedSpends(f, t, sh), Utxo(f, t, sh))
  }

  ghost predicate SpendsFrom(r: RawTx, p: TxHash) {
    exists txo :: txo in r.ins && txo.txHash == p
  }

  ghost function HashXs(f: Frame, t: TxHash): map<HashX, IOInfo>
    requires t in f.pool
  {
    map sh | sh in Touched(f, t) :: IO(f, t, sh)
  }

  ghost function Parents(f: Frame, t: TxHash): set<TxHash>
    requires t in f.pool
  {
    set txo | txo in f.pool[t].ins && txo.txHash in f.links :: txo.txHash
  }

  ghost function Children(f: Frame, t: TxHash): set<TxHash> {
    set c | c in f.links && c in f.pool && SpendsFrom(f.pool[c], t)
  }

  ghost function Fee(f: Frame, t: TxHash): int
    requires t in f.pool
  {
    SumIns(f, f.pool[t].ins) - SumOuts(f.pool[t].outs)
  }

  /** The entry of transaction t. */
  ghost function Entry(f: Frame, t: TxHash): Tx
    requires t in f.pool
  {
    Tx(Fee(f, t), Txos(f.pool[t]), HashXs(f, t), Parents(f, t), Children(f, t))
  }

  ghost function AllIns(pool: Pool): set<TXO> {
    set t, txo | t in pool && txo in pool[t].ins :: txo
  }

  ghost function Settled(pool: Pool, db: Confirmed): Frame {
    Frame(pool, db, pool.Keys, AllIns(pool), pool.Keys)
  }

  /** All entries of a settled mempool. */
  ghost function Entries(pool: Pool, db: Confirmed): (m: map<TxHash, Tx>)
    ensures m.Keys == pool.Keys
  {
    var f := Settled(pool, db);
    map t | t in pool :: Entry(f, t)
  }

  /** Every input of the pool finds the output it spends. */
  ghost predicate Resolved(pool: Pool, db: Confirmed) {
    forall t, txo :: t in pool && txo in pool[t].ins ==> Found(Settled(pool, db), txo)
  }

  // ----- the per-script transaction lists

  /** Tx::operator<: transactions without unconfirmed parents first, then by hash. */
  predicate Before(txs: map<TxHash, Tx>, a: TxHash, b: TxHash) {
    var pa := a in txs && txs[a].parents != {};
    var pb := b in txs && txs[b].parents != {};
    (!pa && pb) || (pa == pb && a < b)
  }

  predicate StrictlySorted(txs: map<TxHash, Tx>, list: seq<TxHash>) {
    forall i, j :: 0 <= i < j < |list| ==> Before(txs, list[i], list[j])
  }

  /** The lists hold exactly the transactions touching each script; no list is empty. */
  ghost predicate ListsMatch(txs: map<TxHash, Tx>, lists: map<HashX, seq<TxHash>>) {
    && (forall sh :: sh in lists ==> lists[sh] != [])
    && (forall sh, t :: sh in lists && t in lists[sh] ==> t in txs && sh in txs[t].hashXs)
    && (forall t, sh :: t in txs && sh in txs[t].hashXs ==> sh in lists && t in lists[sh])
  }

  ghost predicate ListsSorted(txs: map<TxHash, Tx>, lists: map<HashX, seq<TxHash>>) {
    forall sh :: sh in lists ==> StrictlySorted(txs, lists[sh])
  }

  /** The mempool is the one and only mempool for these transactions and confirmed outputs. */
  ghost predicate Canonical(txs: map<TxHash, Tx>, lists: map<HashX, seq<TxHash>>, pool: Pool, db: Confirmed) {
    && Resolved(pool, db)
    && txs == Entries(pool, db)
    && ListsMatch(txs, lists)
    && ListsSorted(txs, lists)
  }

  /** Two strictly sorted lists of the same transactions are the same list. */
  lemma {:induction false} SortedListUnique(txs: map<TxHash, Tx>, a: seq<TxHash>, b: seq<TxHash>)
    requires StrictlySorted(txs, a) && StrictlySorted(txs, b)
    requires forall t :: t in a <==> t in b
    ensures a == b
    decreases |a|
  {
    if a == [] {
      if b != [] {
        HeadIn(b);
        assert false;
      }
    } else {
      HeadIn(a);
      HeadIn(b);
      HeadFirst(txs, b, a[0]);
      HeadFirst(txs, a, b[0]);
      var x := a[0];
      assert a == [x] + a[1..] && b == [x] + b[1..];
      HeadOnce(txs, a);
      HeadOnce(txs, b);
      forall t
        ensures t in a[1..] <==> t in b[1..]
      {
        assert t in a <==> t == x || t in a[1..];
        assert t in b <==> t == x || t in b[1..];
      }
      SortedListUnique(txs, a[1..], b[1..]);
    }
  }

  lemma {:induction false} HeadIn(a: seq<TxHash>)
    requires a != []
    ensures a[0] in a
  {
  }

  lemma {:induction false} HeadFirst(txs: map<TxHash, Tx>, a: seq<TxHash>, t: TxHash)
    requires StrictlySorted(txs, a) && t in a
    ensures t == a[0] || Before(txs, a[0], t)
  {
    var i :| 0 <= i < |a| && a[i] == t;
    if i > 0 { assert Before(txs, a[0], a[i]); }
  }

  lemma {:induction false} HeadOnce(txs: map<TxHash, Tx>, a: seq<TxHash>)
    requires StrictlySorted(txs, a) && a != []
    ensures a[0] !in a[1..]
  {
    forall j | 0 <= j < |a| - 1
      ensures a[1..][j] != a[0]
    {
      assert Before(txs, a[0], a[j + 1]);
    }
  }

  lemma {:induction false} ListsUnique(txs: map<TxHash, Tx>, lists: map<HashX, seq<TxHash>>, lists': map<HashX, seq<TxHash>>)
    requires ListsMatch(txs, lists) && ListsMatch(txs, lists')
    requires ListsSorted(txs, lists) && ListsSorted(txs, lists')
    ensures lists == lists'
  {
    assert lists.Keys <= lists'.Keys by {
      forall sh | sh in lists
        ensures sh in lists'
      {
        var t := lists[sh][0];
        assert t in lists[sh];
        assert sh in txs[t].hashXs;
      }
    }
    assert lists'.Keys <= lists.Keys by {
      forall sh | sh in lists'
        ensures sh in lists
      {
        var t := lists'[sh][0];
        assert t in lists'[sh];
        assert sh in txs[t].hashXs;
      }
    }
    forall sh | sh in lists
      ensures lists[sh] == lists'[sh]
    {
      forall t
        ensures t in lists[sh] <==> t in lists'[sh]
      {
        if t in lists[sh] { assert sh in txs[t].hashXs; }
        if t in lists'[sh] { assert sh in txs[t].hashXs; }
      }
      SortedListUnique(txs, lists[sh], lists'[sh]);
    }
  }

  /** A canonical mempool is determined by its transactions and the confirmed outputs. */
  lemma {:induction false} CanonicalUnique(txs: map<TxHash, Tx>, lists: map<HashX, seq<TxHash>>,
                                           txs': map<TxHash, Tx>, lists': map<HashX, seq<TxHash>>,
                                           pool: Pool, db: Confirmed)
    requires Canonical(txs, lists, pool, db) && Canonical(txs', lists', pool, db)
    ensures txs == txs' && lists == lists'
  {
    ListsUnique(txs, lists, lists');
  }
}
