/** What a canonical mempool says, spelled out over the transactions and the confirmed outputs. */
module MempoolMeaning {
  import opened Wrappers
  import opened Ids
  import opened MempoolSpec

  /** In the lists transactions with unconfirmed parents come last, and otherwise the ids rise. */
  ghost predicate ParentlessFirst(txs: map<TxHash, Tx>, list: seq<TxHash>) {
    forall i, j :: 0 <= i < j < |list| && list[i] in txs && list[j] in txs ==>
      && (txs[list[i]].parents != {} ==> txs[list[j]].parents != {})
      && ((txs[list[i]].parents == {} <==> txs[list[j]].parents == {}) ==> list[i] < list[j])
  }

  lemma {:induction false} SortedMeans(txs: map<TxHash, Tx>, list: seq<TxHash>)
    requires StrictlySorted(txs, list)
    ensures ParentlessFirst(txs, list)
  {
    forall i, j | 0 <= i < j < |list| && list[i] in txs && list[j] in txs
      ensures txs[list[i]].parents != {} ==> txs[list[j]].parents != {}
      ensures (txs[list[i]].parents == {} <==> txs[list[j]].parents == {}) ==> list[i] < list[j]
    {
      assert Before(txs, list[i], list[j]);
    }
  }

  /** The list of a script holds each transaction that pays to it or spends from it, in order. */
  ghost predicate ListsMean(txs: map<TxHash, Tx>, lists: map<HashX, seq<TxHash>>, pool: Pool, db: Confirmed) {
    forall sh ::
      && (sh in lists ==> lists[sh] != [] && ParentlessFirst(txs, lists[sh]))
      && (forall t :: (sh in lists && t in lists[sh]) <==> (PaysTo(pool, t, sh) || SpendsOf(pool, db, t, sh)))
  }

  ghost predicate PaysTo(pool: Pool, t: TxHash, sh: HashX) {
    t in pool && exists n :: 0 <= n < |pool[t].outs| && pool[t].outs[n].script == Some(sh)
  }

  ghost predicate SpendsOf(pool: Pool, db: Confirmed, t: TxHash, sh: HashX) {
    t in pool && exists txo :: txo in pool[t].ins && (SpendsPool(pool, txo, sh) || SpendsConfirmed(pool, db, txo, sh))
  }

  /** The outpoint is an output of a pool transaction that pays to the script. */
  ghost predicate SpendsPool(pool: Pool, txo: TXO, sh: HashX) {
    txo.txHash in pool && txo.outN < |pool[txo.txHash].outs| && pool[txo.txHash].outs[txo.outN].script == Some(sh)
  }

  /** The outpoint is a confirmed output that pays to the script. */
  ghost predicate SpendsConfirmed(pool: Pool, db: Confirmed, txo: TXO, sh: HashX) {
    txo.txHash !in pool && txo in db && db[txo].hashX == sh
  }

  /** An input can spend this outpoint: of a pool transaction any output that is not OP_RETURN, of others any
      confirmed output. */
  ghost predicate Spendable(pool: Pool, db: Confirmed, txo: TXO) {
    if txo.txHash in pool then txo.outN < |pool[txo.txHash].outs| && pool[txo.txHash].outs[txo.outN].script != None
    else txo in db
  }

  lemma {:induction false} FoundMeans(pool: Pool, db: Confirmed)
    ensures forall txo :: Found(Settled(pool, db), txo) <==> Spendable(pool, db, txo)
  {
  }

  /** The entry of transaction t: its outputs, its links, and for each script its spends and unspent outputs. */
  ghost predicate EntryMeans(tx: Tx, pool: Pool, db: Confirmed, t: TxHash)
    requires t in pool
  {
    OutputsMean(tx.txos, pool[t].outs) && LinksMean(tx, pool, t) && ScriptsMean(tx.hashXs, pool, db, t)
  }

  ghost predicate OutputsMean(txos: seq<Option<TXOInfo>>, outs: seq<TxOut>) {
    && |txos| == |outs|
    && (forall n :: 0 <= n < |txos| ==>
          txos[n] == match outs[n].script
                     case None => None
                     case Some(sh) => Some(TXOInfo(outs[n].amount, sh, None, 0)))
  }

  ghost predicate LinksMean(tx: Tx, pool: Pool, t: TxHash)
    requires t in pool
  {
    && (forall p :: p in tx.parents <==> p in pool && exists n :: TXO(p, n) in pool[t].ins)
    && (forall c :: c in tx.children <==> c in pool && exists n :: TXO(t, n) in pool[c].ins)
  }

  ghost predicate ScriptsMean(hashXs: map<HashX, IOInfo>, pool: Pool, db: Confirmed, t: TxHash)
    requires t in pool
  {
    && (forall sh :: sh in hashXs <==> PaysTo(pool, t, sh) || SpendsOf(pool, db, t, sh))
    && (forall sh :: sh in hashXs ==> IOMeans(hashXs[sh], pool, db, t, sh))
  }

  ghost predicate IOMeans(io: IOInfo, pool: Pool, db: Confirmed, t: TxHash, sh: HashX)
    requires t in pool
  {
    && (forall txo :: txo in io.confirmedSpends <==> txo in pool[t].ins && SpendsConfirmed(pool, db, txo, sh))
    && (forall txo :: txo in io.confirmedSpends ==> txo in db && io.confirmedSpends[txo] == db[txo])
    && (forall txo :: txo in io.unconfirmedSpends <==> txo in pool[t].ins && SpendsPool(pool, txo, sh))
    && (forall txo :: txo in io.unconfirmedSpends ==>
          && SpendsPool(pool, txo, sh)
          && io.unconfirmedSpends[txo] == TXOInfo(pool[txo.txHash].outs[txo.outN].amount, sh, None, 0))
    && (forall n: nat :: n in io.utxo <==>
          n < |pool[t].outs| && pool[t].outs[n].script == Some(sh) && forall c :: c in pool ==> TXO(t, n) !in pool[c].ins)
  }

  lemma {:induction false} SpendMeans(pool: Pool, db: Confirmed, t: TxHash, txo: TXO, sh: HashX)
    requires Resolved(pool, db) && t in pool && txo in pool[t].ins
    ensures Info(Settled(pool, db), txo).hashX == sh <==> SpendsPool(pool, txo, sh) || SpendsConfirmed(pool, db, txo, sh)
    ensures SpendsPool(pool, txo, sh) ==>
              Info(Settled(pool, db), txo) == TXOInfo(pool[txo.txHash].outs[txo.outN].amount, sh, None, 0)
    ensures SpendsConfirmed(pool, db, txo, sh) ==> Info(Settled(pool, db), txo) == db[txo]
  {
    assert Found(Settled(pool, db), txo);
  }

  lemma {:induction false} TouchedMeans(pool: Pool, db: Confirmed, t: TxHash, sh: HashX)
    requires Resolved(pool, db) && t in pool
    ensures sh in Touched(Settled(pool, db), t) <==> PaysTo(pool, t, sh) || SpendsOf(pool, db, t, sh)
  {
    var f := Settled(pool, db);
    forall txo | txo in pool[t].ins
      ensures Info(f, txo).hashX == sh <==> SpendsPool(pool, txo, sh) || SpendsConfirmed(pool, db, txo, sh)
    {
      SpendMeans(pool, db, t, txo, sh);
    }
    hide Info, SpendsPool, SpendsConfirmed;
  }

  lemma {:induction false} IOSpelledOut(pool: Pool, db: Confirmed, t: TxHash, sh: HashX)
    requires Resolved(pool, db) && t in pool
    ensures IOMeans(IO(Settled(pool, db), t, sh), pool, db, t, sh)
  {
    var f := Settled(pool, db);
    forall txo | txo in pool[t].ins
      ensures Info(f, txo).hashX == sh <==> SpendsPool(pool, txo, sh) || SpendsConfirmed(pool, db, txo, sh)
      ensures SpendsPool(pool, txo, sh) ==> Info(f, txo) == TXOInfo(pool[txo.txHash].outs[txo.outN].amount, sh, None, 0)
      ensures SpendsConfirmed(pool, db, txo, sh) ==> Info(f, txo) == db[txo]
    {
      SpendMeans(pool, db, t, txo, sh);
    }
    UtxoMeans(pool, db, t, sh);
    hide Info, Resolved, Utxo;
  }

  lemma {:induction false} UtxoMeans(pool: Pool, db: Confirmed, t: TxHash, sh: HashX)
    requires t in pool
    ensures forall n: nat :: n in Utxo(Settled(pool, db), t, sh) <==>
              n < |pool[t].outs| && pool[t].outs[n].script == Some(sh) && forall c :: c in pool ==> TXO(t, n) !in pool[c].ins
  {
  }

  lemma {:induction false} LinksSpelledOut(pool: Pool, db: Confirmed, t: TxHash)
    requires t in pool
    ensures LinksMean(Entry(Settled(pool, db), t), pool, t)
  {
    forall p ensures p in Parents(Settled(pool, db), t) <==> p in pool && exists n :: TXO(p, n) in pool[t].ins {
      if p in Parents(Settled(pool, db), t) {
        var txo :| txo in pool[t].ins && txo.txHash == p;
        assert TXO(p, txo.outN) in pool[t].ins;
      }
    }
    forall c ensures c in Children(Settled(pool, db), t) <==> c in pool && exists n :: TXO(t, n) in pool[c].ins {
      if c in pool && SpendsFrom(pool[c], t) {
        var txo :| txo in pool[c].ins && txo.txHash == t;
        assert TXO(t, txo.outN) in pool[c].ins;
      }
    }
    hide Parents, Children, HashXs, Fee;
  }

  lemma {:induction false} ScriptsSpelledOut(pool: Pool, db: Confirmed, t: TxHash)
    requires Resolved(pool, db) && t in pool
    ensures ScriptsMean(HashXs(Settled(pool, db), t), pool, db, t)
  {
    hide Touched, IO, IOMeans, PaysTo, SpendsOf, Resolved;
    forall sh
      ensures sh in Touched(Settled(pool, db), t) <==> PaysTo(pool, t, sh) || SpendsOf(pool, db, t, sh)
      ensures IOMeans(IO(Settled(pool, db), t, sh), pool, db, t, sh)
    {
      TouchedMeans(pool, db, t, sh);
      IOSpelledOut(pool, db, t, sh);
    }
  }

  lemma {:induction false} EntrySpelledOut(pool: Pool, db: Confirmed, t: TxHash)
    requires Resolved(pool, db) && t in pool
    ensures t in Entries(pool, db) && EntryMeans(Entries(pool, db)[t], pool, db, t)
  {
    hide Resolved, ScriptsMean, LinksMean, HashXs, Parents, Children, Fee;
    LinksSpelledOut(pool, db, t);
    ScriptsSpelledOut(pool, db, t);
  }

  lemma {:induction false} ScriptInEntry(pool: Pool, db: Confirmed, t: TxHash, sh: HashX)
    requires Resolved(pool, db)
    ensures (t in pool && sh in Entries(pool, db)[t].hashXs) <==> PaysTo(pool, t, sh) || SpendsOf(pool, db, t, sh)
  {
    if t in pool {
      EntrySpelledOut(pool, db, t);
      hide Entries, Resolved, PaysTo, SpendsOf, IOMeans, LinksMean, OutputsMean;
    }
  }

  lemma {:induction false} ListSpelledOut(txs: map<TxHash, Tx>, lists: map<HashX, seq<TxHash>>, pool: Pool, db: Confirmed, sh: HashX)
    requires Canonical(txs, lists, pool, db)
    ensures sh in lists ==> lists[sh] != [] && ParentlessFirst(txs, lists[sh])
    ensures forall t :: (sh in lists && t in lists[sh]) <==> (PaysTo(pool, t, sh) || SpendsOf(pool, db, t, sh))
  {
    hide Entries, Resolved, ParentlessFirst, PaysTo, SpendsOf;
    if sh in lists { SortedMeans(txs, lists[sh]); }
    forall t ensures (t in txs && sh in txs[t].hashXs) <==> PaysTo(pool, t, sh) || SpendsOf(pool, db, t, sh) {
      ScriptInEntry(pool, db, t, sh);
    }
  }

  ghost predicate Means(txs: map<TxHash, Tx>, lists: map<HashX, seq<TxHash>>, pool: Pool, db: Confirmed) {
    && txs.Keys == pool.Keys && (forall t :: t in pool ==> EntryMeans(txs[t], pool, db, t))
    && ListsMean(txs, lists, pool, db)
  }

  /** Everything a canonical mempool says. */
  lemma {:induction false} CanonicalMeans(txs: map<TxHash, Tx>, lists: map<HashX, seq<TxHash>>, pool: Pool, db: Confirmed)
    requires Canonical(txs, lists, pool, db)
    ensures Means(txs, lists, pool, db)
  {
    hide ParentlessFirst, PaysTo, SpendsOf, EntryMeans, ListsSorted, ListsMatch, Entries, Resolved;
    forall sh
      ensures sh in lists ==> lists[sh] != [] && ParentlessFirst(txs, lists[sh])
      ensures forall t :: (sh in lists && t in lists[sh]) <==> (PaysTo(pool, t, sh) || SpendsOf(pool, db, t, sh))
    {
      ListSpelledOut(txs, lists, pool, db, sh);
    }
    forall t | t in pool ensures EntryMeans(txs[t], pool, db, t) { EntrySpelledOut(pool, db, t); }
  }
}
