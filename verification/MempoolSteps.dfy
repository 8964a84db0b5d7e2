/**
  The single updates the mempool mutators make to entries, and what each does to the reference
  definition: one more output, one more input, one less transaction.
*/
module MempoolSteps {
  import opened Wrappers
  import opened Ids
  import opened MempoolSpec

  // ----- the updates, as the code makes them

  /** operator[] on the script map: a missing entry is created empty. */
  function IOFor(tx: Tx, sh: HashX): IOInfo {
    if sh in tx.hashXs then tx.hashXs[sh] else NO_IO
  }

  /** Output n of a new transaction is read: credit it unless it is OP_RETURN. */
  function WithOutput(tx: Tx, n: nat, o: TxOut): Tx
    requires n < |tx.txos|
  {
    var credited :=
      if o.script.Some? then
        var io := IOFor(tx, o.script.value);
        tx.(txos := tx.txos[n := OutInfo(o)],
            hashXs := tx.hashXs[o.script.value := io.(utxo := io.utxo + {n})])
      else tx;
    credited.(fee := credited.fee - o.amount)
  }

  /** An input of a new transaction that spends a confirmed output. */
  function WithConfirmedSpend(tx: Tx, txo: TXO, info: TXOInfo): Tx {
    var io := IOFor(tx, info.hashX);
    tx.(hashXs := tx.hashXs[info.hashX := io.(confirmedSpends := io.confirmedSpends[txo := info])],
        fee := tx.fee + info.amount)
  }

  /** An input of a new transaction that spends an output of another pool transaction. */
  function WithUnconfirmedSpend(tx: Tx, txo: TXO, info: TXOInfo): Tx {
    var io := IOFor(tx, info.hashX);
    tx.(hashXs := tx.hashXs[info.hashX := io.(unconfirmedSpends := io.unconfirmedSpends[txo := info])],
        fee := tx.fee + info.amount,
        parents := tx.parents + {txo.txHash})
  }

  /** The other side of an unconfirmed spend: the output is no longer unspent and there is a child. */
  function WithSpentOutput(prev: Tx, n: nat, sh: HashX, child: TxHash): Tx
    requires sh in prev.hashXs
  {
    var io := prev.hashXs[sh];
    prev.(hashXs := prev.hashXs[sh := io.(utxo := io.utxo - {n})],
          children := prev.children + {child})
  }

  // ----- when an entry does not change

  lemma {:induction false} SumInsSame(f: Frame, g: Frame, ins: seq<TXO>)
    requires forall txo :: txo in ins ==> Info(f, txo).amount == Info(g, txo).amount
    ensures SumIns(f, ins) == SumIns(g, ins)
    decreases |ins|
  {
    hide Info;
    if ins != [] {
      var init := ins[..|ins| - 1];
      assert ins == init + [ins[|ins| - 1]];
      SumInsSame(f, g, init);
    }
  }

  /** f and g agree on everything the entry of x looks at. */
  ghost predicate Agree(f: Frame, g: Frame, x: TxHash) {
    && x in f.pool && x in g.pool && f.pool[x] == g.pool[x]
    && (forall txo :: txo in f.pool[x].ins ==>
          && (txo.txHash in f.mem <==> txo.txHash in g.mem)
          && (txo.txHash in f.links <==> txo.txHash in g.links)
          && Info(f, txo) == Info(g, txo))
    && (forall n :: 0 <= n < |f.pool[x].outs| ==> (TXO(x, n) in f.spent <==> TXO(x, n) in g.spent))
    && Children(f, x) == Children(g, x)
  }

  lemma {:induction false} SameIO(f: Frame, g: Frame, x: TxHash, sh: HashX)
    requires Agree(f, g, x)
    ensures IO(f, x, sh) == IO(g, x, sh)
  {
    hide Info, Children;
    assert ConfirmedSpends(f, x, sh) == ConfirmedSpends(g, x, sh);
    assert UnconfirmedSpends(f, x, sh) == UnconfirmedSpends(g, x, sh);
    assert Utxo(f, x, sh) == Utxo(g, x, sh);
  }

  lemma {:induction false} SameEntry(f: Frame, g: Frame, x: TxHash)
    requires Agree(f, g, x)
    ensures Entry(f, x) == Entry(g, x)
  {
    hide Info, Children, IO;
    SumInsSame(f, g, f.pool[x].ins);
    assert Touched(f, x) == Touched(g, x);
    forall sh | sh in Touched(f, x)
      ensures IO(f, x, sh) == IO(g, x, sh)
    {
      SameIO(f, g, x, sh);
    }
    assert HashXs(f, x) == HashXs(g, x);
    assert Parents(f, x) == Parents(g, x);
  }

  // ----- a new transaction arrives, bit by bit

  /** An output that has not been read yet counts for nothing, like an OP_RETURN of no value. */
  const BLANK := TxOut(0, None)

  function Blanks(k: nat): (s: seq<TxOut>)
    ensures |s| == k && forall i :: 0 <= i < k ==> s[i] == BLANK
  {
    seq(k, i => BLANK)
  }

  /** A transaction none of whose inputs and outputs has been read. */
  function NewTx(k: nat): Tx {
    Tx(0, seq(k, i => None), map[], {}, {})
  }

  ghost predicate Unreferenced(pool: Pool, t: TxHash) {
    forall c :: c in pool ==> !SpendsFrom(pool[c], t)
  }

  lemma {:induction false} SumBlanks(k: nat)
    ensures SumOuts(Blanks(k)) == 0
  {
    if k > 0 {
      assert Blanks(k)[..k - 1] == Blanks(k - 1);
      SumBlanks(k - 1);
    }
  }

  lemma {:induction false} SumOutsUpdate(outs: seq<TxOut>, n: nat, o: TxOut)
    requires n < |outs|
    ensures SumOuts(outs[n := o]) == SumOuts(outs) - outs[n].amount + o.amount
    decreases |outs|
  {
    var l := |outs| - 1;
    if n < l {
      SumOutsUpdate(outs[..l], n, o);
      assert outs[n := o][..l] == outs[..l][n := o];
    } else {
      assert outs[n := o][..l] == outs[..l];
    }
  }

  /** Entries agree with an update of one entry when all others stay. */
  lemma {:induction false} OneEntryChanges(pool: Pool, pool': Pool, db: Confirmed, t: TxHash, e: Tx)
    requires t in pool' && pool'.Keys == pool.Keys + {t}
    requires Entry(Settled(pool', db), t) == e
    requires forall x :: x in pool && x != t ==> Entry(Settled(pool', db), x) == Entry(Settled(pool, db), x)
    ensures Entries(pool', db) == Entries(pool, db)[t := e]
  {
    hide Entry, Settled;
  }

  /** A change to transaction t that x does not look at. */
  lemma {:induction false} BystanderEntry(pool: Pool, pool': Pool, db: Confirmed, t: TxHash, x: TxHash)
    requires x in pool && x != t && t in pool' && pool' == pool[t := pool'[t]]
    requires t !in pool ==> !SpendsFrom(pool[x], t)
    requires t in pool ==> pool[t].outs == pool'[t].outs || !SpendsFrom(pool[x], t)
    requires SpendsFrom(pool'[t], x) <==> t in pool && SpendsFrom(pool[t], x)
    requires forall n :: TXO(x, n) in pool'[t].ins <==> t in pool && TXO(x, n) in pool[t].ins
    ensures Entry(Settled(pool', db), x) == Entry(Settled(pool, db), x)
  {
    var f, g := Settled(pool, db), Settled(pool', db);
    forall txo | txo in pool[x].ins
      ensures txo.txHash in f.mem <==> txo.txHash in g.mem
      ensures Info(f, txo) == Info(g, txo)
    {
      if txo.txHash == t { assert SpendsFrom(pool[x], t); }
    }
    forall n
      ensures TXO(x, n) in f.spent <==> TXO(x, n) in g.spent
    {
      SpentSame(pool, pool', t, TXO(x, n));
    }
    assert Children(f, x) == Children(g, x);
    SameEntry(f, g, x);
  }

  lemma {:induction false} SpentSame(pool: Pool, pool': Pool, t: TxHash, txo: TXO)
    requires t in pool' && pool' == pool[t := pool'[t]]
    requires txo in pool'[t].ins <==> t in pool && txo in pool[t].ins
    ensures txo in AllIns(pool) <==> txo in AllIns(pool')
  {
    if txo in AllIns(pool) {
      var c :| c in pool && txo in pool[c].ins;
      assert txo in pool'[c].ins;
    }
    if txo in AllIns(pool') {
      var c :| c in pool' && txo in pool'[c].ins;
      assert c in pool && txo in pool[c].ins;
    }
  }

  lemma {:induction false} NotSpent(pool: Pool, t: TxHash)
    requires Unreferenced(pool, t)
    ensures forall k :: TXO(t, k) !in AllIns(pool)
    ensures forall x, txo :: x in pool && txo in pool[x].ins ==> txo.txHash != t
  {
    forall x, txo | x in pool && txo in pool[x].ins
      ensures txo.txHash != t
    {
      assert !SpendsFrom(pool[x], t);
    }
  }

  /** `txs[hash] = tx`, with the outputs vector sized. */
  lemma {:induction false} InsertStep(pool: Pool, db: Confirmed, t: TxHash, k: nat)
    requires t !in pool && Unreferenced(pool, t)
    ensures Entries(pool[t := RawTx([], Blanks(k))], db) == Entries(pool, db)[t := NewTx(k)]
  {
    var pool' := pool[t := RawTx([], Blanks(k))];
    forall x | x in pool && x != t
      ensures Entry(Settled(pool', db), x) == Entry(Settled(pool, db), x)
    {
      hide Entry, Settled, Blanks;
      BystanderEntry(pool, pool', db, t, x);
    }
    NewEntry(Settled(pool', db), t, k);
    OneEntryChanges(pool, pool', db, t, NewTx(k));
  }

  lemma {:induction false} NewEntry(g: Frame, t: TxHash, k: nat)
    requires t in g.pool && g.pool[t] == RawTx([], Blanks(k))
    requires Unreferenced(g.pool, t)
    ensures Entry(g, t) == NewTx(k)
  {
    SumBlanks(k);
    assert Txos(g.pool[t]) == NewTx(k).txos;
    assert Touched(g, t) == {};
    assert HashXs(g, t) == map[];
    assert Parents(g, t) == {};
    assert Children(g, t) == {};
  }

  /** Output n of t is read. */
  lemma {:induction false} OutputStep(pool: Pool, db: Confirmed, t: TxHash, n: nat, o: TxOut)
    requires t in pool && Unreferenced(pool, t)
    requires pool[t].ins == [] && n < |pool[t].outs| && pool[t].outs[n] == BLANK
    ensures var pool' := pool[t := RawTx([], pool[t].outs[n := o])];
            Entries(pool', db) == Entries(pool, db)[t := WithOutput(Entry(Settled(pool, db), t), n, o)]
  {
    var pool' := pool[t := RawTx([], pool[t].outs[n := o])];
    var f, g := Settled(pool, db), Settled(pool', db);
    forall x | x in pool && x != t
      ensures Entry(g, x) == Entry(f, x)
    {
      hide Entry, Settled;
      BystanderEntry(pool, pool', db, t, x);
    }
    NotSpent(pool, t);
    SameIns(pool, pool', db, t);
    OutputEntry(f, g, t, n, o);
    hide Entry, Settled, WithOutput;
    OneEntryChanges(pool, pool', db, t, WithOutput(Entry(f, t), n, o));
  }

  lemma {:induction false} SameIns(pool: Pool, pool': Pool, db: Confirmed, t: TxHash)
    requires t in pool && t in pool' && pool' == pool[t := pool'[t]] && pool'[t].ins == pool[t].ins
    ensures AllIns(pool') == AllIns(pool)
    ensures Children(Settled(pool, db), t) == Children(Settled(pool', db), t)
  {
    hide Info;
    forall txo
      ensures txo in AllIns(pool) <==> txo in AllIns(pool')
    {
      SpentSame(pool, pool', t, txo);
    }
  }

  lemma {:induction false} OutputTouched(f: Frame, g: Frame, t: TxHash, n: nat, o: TxOut, s: HashX)
    requires t in f.pool && t in g.pool && f.pool[t].ins == [] && g.pool[t].ins == []
    requires n < |f.pool[t].outs| && f.pool[t].outs[n] == BLANK && g.pool[t].outs == f.pool[t].outs[n := o]
    ensures s in Touched(g, t) <==> s in Touched(f, t) || o.script == Some(s)
  {
    hide Info;
    var a, b := f.pool[t].outs, g.pool[t].outs;
    if s in Touched(f, t) {
      var m :| 0 <= m < |a| && a[m].script == Some(s);
      assert b[m].script == Some(s);
    }
    if o.script == Some(s) {
      assert b[n].script == Some(s);
    }
    if s in Touched(g, t) {
      var m :| 0 <= m < |b| && b[m].script == Some(s);
      assert m == n || a[m].script == Some(s);
    }
  }

  lemma {:induction false} OutputEntry(f: Frame, g: Frame, t: TxHash, n: nat, o: TxOut)
    requires t in f.pool && t in g.pool && f.pool[t].ins == [] && g.pool[t].ins == []
    requires n < |f.pool[t].outs| && f.pool[t].outs[n] == BLANK && g.pool[t].outs == f.pool[t].outs[n := o]
    requires f.spent == g.spent && forall k :: TXO(t, k) !in f.spent
    requires Children(f, t) == Children(g, t)
    ensures Entry(g, t) == WithOutput(Entry(f, t), n, o)
  {
    hide Info, Children, Touched, IO;
    var e := WithOutput(Entry(f, t), n, o);
    SumOutsUpdate(f.pool[t].outs, n, o);
    assert e.txos == Txos(g.pool[t]);
    assert Parents(g, t) == Parents(f, t) == {};
    forall s
      ensures s in Touched(g, t) <==> s in e.hashXs
      ensures s in Touched(g, t) ==> IO(g, t, s) == e.hashXs[s]
    {
      OutputTouched(f, g, t, n, o, s);
      OutputIO(f, g, t, n, o, s);
    }
    assert HashXs(g, t) == e.hashXs;
  }

  lemma {:induction false} OutputIO(f: Frame, g: Frame, t: TxHash, n: nat, o: TxOut, s: HashX)
    requires t in f.pool && t in g.pool && f.pool[t].ins == [] && g.pool[t].ins == []
    requires n < |f.pool[t].outs| && f.pool[t].outs[n] == BLANK && g.pool[t].outs == f.pool[t].outs[n := o]
    requires f.spent == g.spent && forall k :: TXO(t, k) !in f.spent
    ensures IO(f, t, s).confirmedSpends == map[] == IO(f, t, s).unconfirmedSpends
    ensures IO(g, t, s) == IOInfo(map[], map[], IO(f, t, s).utxo + if o.script == Some(s) then {n} else {})
    ensures s !in Touched(f, t) ==> IO(f, t, s) == NO_IO
  {
    hide Info;
    assert ConfirmedSpends(g, t, s) == ConfirmedSpends(f, t, s) == map[];
    assert UnconfirmedSpends(g, t, s) == UnconfirmedSpends(f, t, s) == map[];
    assert Utxo(g, t, s) == Utxo(f, t, s) + if o.script == Some(s) then {n} else {};
  }

  /** The pool in which transaction t has one more input read. */
  ghost function WithInput(pool: Pool, t: TxHash, txo: TXO): Pool
    requires t in pool
  {
    pool[t := RawTx(pool[t].ins + [txo], pool[t].outs)]
  }

  lemma {:induction false} SumInsStep(f: Frame, g: Frame, ins: seq<TXO>, txo: TXO)
    requires forall y :: Info(f, y) == Info(g, y)
    ensures SumIns(g, ins + [txo]) == SumIns(f, ins) + Info(f, txo).amount
  {
    hide Info;
    assert (ins + [txo])[..|ins|] == ins;
    SumInsSame(f, g, ins);
  }

  /** f becomes g by reading one more input of t. */
  ghost predicate InputRead(f: Frame, g: Frame, t: TxHash, txo: TXO) {
    && t in f.pool && t in g.pool
    && g.pool[t] == RawTx(f.pool[t].ins + [txo], f.pool[t].outs)
    && f.mem == g.mem && f.links == g.links
    && txo.txHash != t
    && (forall y :: Info(f, y) == Info(g, y))
    && (forall n :: TXO(t, n) in f.spent <==> TXO(t, n) in g.spent)
    && Children(f, t) == Children(g, t)
  }

  lemma {:induction false} InputTouched(f: Frame, g: Frame, t: TxHash, txo: TXO, s: HashX)
    requires InputRead(f, g, t, txo)
    ensures s in Touched(g, t) <==> s in Touched(f, t) || Info(f, txo).hashX == s
  {
    hide Info, Children;
    var a, b := f.pool[t].ins, g.pool[t].ins;
    assert forall y :: y in b <==> y in a || y == txo;
  }

  lemma {:induction false} UtxoTouched(f: Frame, t: TxHash, s: HashX)
    requires t in f.pool
    ensures Utxo(f, t, s) == {} || s in Touched(f, t)
  {
    if n :| n in Utxo(f, t, s) {
      assert f.pool[t].outs[n].script.value in Touched(f, t);
    }
  }

  lemma {:induction false} InputIO(f: Frame, g: Frame, t: TxHash, txo: TXO, s: HashX)
    requires InputRead(f, g, t, txo)
    ensures var info := Info(f, txo);
            var io := IO(f, t, s);
            IO(g, t, s) == if info.hashX != s then io
                           else if txo.txHash in f.mem then io.(unconfirmedSpends := io.unconfirmedSpends[txo := info])
                           else io.(confirmedSpends := io.confirmedSpends[txo := info])
    ensures s !in Touched(f, t) ==> IO(f, t, s) == NO_IO
  {
    hide Info, Children;
    var a, b := f.pool[t].ins, g.pool[t].ins;
    assert forall y :: y in b <==> y in a || y == txo;
    var info := Info(f, txo);
    assert Utxo(g, t, s) == Utxo(f, t, s);
    var cf, uf := ConfirmedSpends(f, t, s), UnconfirmedSpends(f, t, s);
    assert ConfirmedSpends(g, t, s) == if info.hashX == s && txo.txHash !in f.mem then cf[txo := info] else cf;
    assert UnconfirmedSpends(g, t, s) == if info.hashX == s && txo.txHash in f.mem then uf[txo := info] else uf;
    if s !in Touched(f, t) {
      assert cf == map[] && uf == map[];
      UtxoTouched(f, t, s);
    }
  }

  /** The spending side of an input: Entry as the code updates it. */
  lemma {:induction false} InputEntry(f: Frame, g: Frame, t: TxHash, txo: TXO)
    requires InputRead(f, g, t, txo)
    requires txo.txHash in f.mem <==> txo.txHash in f.links
    ensures Entry(g, t) == if txo.txHash in f.mem then WithUnconfirmedSpend(Entry(f, t), txo, Info(f, txo))
                           else WithConfirmedSpend(Entry(f, t), txo, Info(f, txo))
  {
    hide Info, Children, Touched, IO;
    var info := Info(f, txo);
    var e := if txo.txHash in f.mem then WithUnconfirmedSpend(Entry(f, t), txo, info)
             else WithConfirmedSpend(Entry(f, t), txo, info);
    SumInsStep(f, g, f.pool[t].ins, txo);
    forall s
      ensures s in Touched(g, t) <==> s in e.hashXs
      ensures s in Touched(g, t) ==> IO(g, t, s) == e.hashXs[s]
    {
      InputTouched(f, g, t, txo, s);
      InputIO(f, g, t, txo, s);
    }
    assert HashXs(g, t) == e.hashXs;
    assert Parents(g, t) == e.parents by {
      assert forall y :: y in g.pool[t].ins <==> y in f.pool[t].ins || y == txo;
    }
  }

  lemma {:induction false} SpentIO(f: Frame, g: Frame, p: TxHash, n: nat, s: HashX)
    requires p in f.pool && p in g.pool && f.pool[p] == g.pool[p] && n < |f.pool[p].outs| && f.pool[p].outs[n].script.Some?
    requires f.mem == g.mem && forall y :: Info(f, y) == Info(g, y)
    requires forall m :: TXO(p, m) in g.spent <==> TXO(p, m) in f.spent || m == n
    ensures var io := IO(f, p, s);
      IO(g, p, s) == if Some(s) == f.pool[p].outs[n].script then io.(utxo := io.utxo - {n}) else io
  {
    hide Info;
    assert ConfirmedSpends(f, p, s) == ConfirmedSpends(g, p, s);
    assert UnconfirmedSpends(f, p, s) == UnconfirmedSpends(g, p, s);
    assert Utxo(g, p, s) == if Some(s) == f.pool[p].outs[n].script then Utxo(f, p, s) - {n} else Utxo(f, p, s);
  }

  /** The spent side of an unconfirmed input. */
  lemma {:induction false} SpentEntry(f: Frame, g: Frame, t: TxHash, txo: TXO)
    requires var p := txo.txHash;
             && p in f.pool && p in g.pool && f.pool[p] == g.pool[p]
             && txo.outN < |f.pool[p].outs| && f.pool[p].outs[txo.outN].script.Some?
             && f.mem == g.mem && f.links == g.links
             && Children(g, p) == Children(f, p) + {t}
    requires forall y :: Info(f, y) == Info(g, y)
    requires forall n :: TXO(txo.txHash, n) in g.spent <==> TXO(txo.txHash, n) in f.spent || n == txo.outN
    ensures var sh := f.pool[txo.txHash].outs[txo.outN].script.value;
            && sh in Entry(f, txo.txHash).hashXs
            && Entry(g, txo.txHash) == WithSpentOutput(Entry(f, txo.txHash), txo.outN, sh, t)
  {
    hide Info, Children;
    var p, n := txo.txHash, txo.outN;
    var sh := f.pool[p].outs[n].script.value;
    SumInsSame(f, g, f.pool[p].ins);
    assert Touched(f, p) == Touched(g, p);
    assert f.pool[p].outs[n].script.value in Touched(f, p);
    var e := WithSpentOutput(Entry(f, p), n, sh, t);
    forall s | s in Touched(f, p)
      ensures IO(g, p, s) == e.hashXs[s]
    {
      SpentIO(f, g, p, n, s);
    }
    hide IO, Touched;
    assert HashXs(g, p) == e.hashXs;
    assert Parents(g, p) == Parents(f, p);
  }

  /** Reading an input of t relates the settled frames before and after. */
  lemma {:induction false} InputFrames(pool: Pool, db: Confirmed, t: TxHash, txo: TXO)
    requires t in pool && txo.txHash != t
    ensures InputRead(Settled(pool, db), Settled(WithInput(pool, t, txo), db), t, txo)
    ensures AllIns(WithInput(pool, t, txo)) == AllIns(pool) + {txo}
    ensures forall x :: SpendsFrom(WithInput(pool, t, txo)[t], x) <==> SpendsFrom(pool[t], x) || x == txo.txHash
  {
    var pool' := WithInput(pool, t, txo);
    var f, g := Settled(pool, db), Settled(pool', db);
    assert forall y :: y in pool'[t].ins <==> y in pool[t].ins || y == txo;
    forall x
      ensures SpendsFrom(pool'[t], x) <==> SpendsFrom(pool[t], x) || x == txo.txHash
    {
      if SpendsFrom(pool[t], x) {
        var y :| y in pool[t].ins && y.txHash == x;
        assert y in pool'[t].ins;
      }
    }
    forall y
      ensures y in AllIns(pool') <==> y in AllIns(pool) || y == txo
    {
      if y in AllIns(pool) {
        var c :| c in pool && y in pool[c].ins;
        assert y in pool'[c].ins;
      }
      if y == txo { assert y in pool'[t].ins; }
      if y in AllIns(pool') {
        var c :| c in pool' && y in pool'[c].ins;
        assert y == txo || y in pool[c].ins;
      }
    }
    assert Children(f, t) == Children(g, t);
  }

  /** One input of t that spends a confirmed output. */
  lemma {:induction false} ConfirmedInputStep(pool: Pool, db: Confirmed, t: TxHash, txo: TXO)
    requires t in pool && txo.txHash !in pool && txo in db
    ensures Entries(WithInput(pool, t, txo), db)
         == Entries(pool, db)[t := WithConfirmedSpend(Entry(Settled(pool, db), t), txo, db[txo])]
  {
    var pool' := WithInput(pool, t, txo);
    InputFrames(pool, db, t, txo);
    InputEntry(Settled(pool, db), Settled(pool', db), t, txo);
    forall x | x in pool && x != t
      ensures Entry(Settled(pool', db), x) == Entry(Settled(pool, db), x)
    {
      hide Entry, Settled, Children, AllIns, Info;
      BystanderEntry(pool, pool', db, t, x);
    }
    hide Entry, Settled, Entries;
    OneEntryChanges(pool, pool', db, t, WithConfirmedSpend(Entry(Settled(pool, db), t), txo, db[txo]));
  }

  /** One input of t that spends an output of another pool transaction. */
  lemma {:induction false} UnconfirmedInputStep(pool: Pool, db: Confirmed, t: TxHash, txo: TXO)
    requires t in pool && txo.txHash in pool && txo.txHash != t && Found(Settled(pool, db), txo)
    ensures var f := Settled(pool, db);
            var p, info := txo.txHash, Info(f, txo);
            && info.hashX in Entry(f, p).hashXs
            && Entries(WithInput(pool, t, txo), db)
            == Entries(pool, db)[t := WithUnconfirmedSpend(Entry(f, t), txo, info)]
                                [p := WithSpentOutput(Entry(f, p), txo.outN, info.hashX, t)]
  {
    var pool', p := WithInput(pool, t, txo), txo.txHash;
    var f, g := Settled(pool, db), Settled(pool', db);
    InputFrames(pool, db, t, txo);
    InputEntry(f, g, t, txo);
    NewChild(pool, pool', db, t, p);
    assert g.spent == f.spent + {txo};
    SpentEntry(f, g, t, txo);
    forall x | x in pool && x != t && x != p
      ensures Entry(g, x) == Entry(f, x)
    {
      hide Entry, Settled, Children, AllIns, Info;
      BystanderEntry(pool, pool', db, t, x);
    }
    hide Entry, Settled, Entries;
    var info := Info(f, txo);
    TwoEntriesChange(pool, pool', db, t, WithUnconfirmedSpend(Entry(f, t), txo, info),
                     p, WithSpentOutput(Entry(f, p), txo.outN, info.hashX, t));
  }

  lemma {:induction false} NewChild(pool: Pool, pool': Pool, db: Confirmed, t: TxHash, p: TxHash)
    requires t in pool && t in pool' && pool' == pool[t := pool'[t]] && SpendsFrom(pool'[t], p)
    ensures Children(Settled(pool', db), p) == Children(Settled(pool, db), p) + {t}
  {
  }

  lemma {:induction false} TwoEntriesChange(pool: Pool, pool': Pool, db: Confirmed, t: TxHash, e: Tx, p: TxHash, e': Tx)
    requires t in pool && p in pool && p != t && pool'.Keys == pool.Keys
    requires Entry(Settled(pool', db), t) == e && Entry(Settled(pool', db), p) == e'
    requires forall x :: x in pool && x != t && x != p ==> Entry(Settled(pool', db), x) == Entry(Settled(pool, db), x)
    ensures Entries(pool', db) == Entries(pool, db)[t := e][p := e']
  {
    hide Entry, Settled;
  }
}
