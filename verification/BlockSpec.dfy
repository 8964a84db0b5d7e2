/**
  What the block pre-processor of src/BlockProc.cpp computes, straight from the block: the flat lists of
  outputs and inputs, which inputs spend outputs of the same block, and what each script has to do with it.
*/
module BlockSpec {
  import opened Wrappers
  import opened Ids
  import opened MempoolSpec

  datatype BlockTx = BlockTx(hash: TxHash, raw: RawTx)

  type Block = seq<BlockTx>

  /** The n-th output or input of a transaction. */
  datatype Ref = Ref(tx: nat, n: nat)

  function TxRefs(t: nat, k: nat): (r: seq<Ref>)
    ensures |r| == k && forall n :: 0 <= n < k ==> r[n] == Ref(t, n)
  {
    if k == 0 then [] else TxRefs(t, k - 1) + [Ref(t, k - 1)]
  }

  /** All outputs of the first t transactions, in block order. */
  function OutRefs(b: Block, t: nat): seq<Ref>
    requires t <= |b|
  {
    if t == 0 then [] else OutRefs(b, t - 1) + TxRefs(t - 1, |b[t - 1].raw.outs|)
  }

  function InRefs(b: Block, t: nat): seq<Ref>
    requires t <= |b|
  {
    if t == 0 then [] else InRefs(b, t - 1) + TxRefs(t - 1, |b[t - 1].raw.ins|)
  }

  predicate OutRef(b: Block, r: Ref) {
    r.tx < |b| && r.n < |b[r.tx].raw.outs|
  }

  predicate InRef(b: Block, r: Ref) {
    r.tx < |b| && r.n < |b[r.tx].raw.ins|
  }

  function Out(b: Block, r: Ref): TxOut
    requires OutRef(b, r)
  {
    b[r.tx].raw.outs[r.n]
  }

  function In(b: Block, r: Ref): TXO
    requires InRef(b, r)
  {
    b[r.tx].raw.ins[r.n]
  }

  lemma {:induction false} OutRefsAre(b: Block, t: nat)
    requires t <= |b|
    ensures forall i :: 0 <= i < |OutRefs(b, t)| ==> OutRef(b, OutRefs(b, t)[i]) && OutRefs(b, t)[i].tx < t
    ensures forall i :: 0 <= i < |OutRefs(b, t)| ==> i == |OutRefs(b, OutRefs(b, t)[i].tx)| + OutRefs(b, t)[i].n
  {
    if t > 0 { OutRefsAre(b, t - 1); }
  }

  lemma {:induction false} InRefsAre(b: Block, t: nat)
    requires t <= |b|
    ensures forall i :: 0 <= i < |InRefs(b, t)| ==> InRef(b, InRefs(b, t)[i]) && InRefs(b, t)[i].tx < t
    ensures forall i :: 0 <= i < |InRefs(b, t)| ==> i == |InRefs(b, InRefs(b, t)[i].tx)| + InRefs(b, t)[i].n
  {
    if t > 0 { InRefsAre(b, t - 1); }
  }

  /** Where the n-th output of a transaction stands in the flat list. */
  lemma {:induction false} OutRefAt(b: Block, t: nat, r: Ref)
    requires t <= |b| && OutRef(b, r) && r.tx < t
    ensures |OutRefs(b, r.tx)| + r.n < |OutRefs(b, t)|
    ensures OutRefs(b, t)[|OutRefs(b, r.tx)| + r.n] == r
  {
    if r.tx < t - 1 { OutRefAt(b, t - 1, r); }
  }

  // ----- spends inside the block

  /** The transaction with this hash, if the block has one; the last, should there be several. */
  function TxIndex(b: Block, t: nat, hash: TxHash): (r: Option<nat>)
    requires t <= |b|
    ensures r.Some? ==> r.value < t && b[r.value].hash == hash
  {
    if t == 0 then None else if b[t - 1].hash == hash then Some(t - 1) else TxIndex(b, t - 1, hash)
  }

  /** The flat index of the output that an input spends, if that output is in this block. */
  function Parent(b: Block, txo: TXO): Option<nat> {
    match TxIndex(b, |b|, txo.txHash)
    case None => None
    case Some(t) => Some(|OutRefs(b, t)| + txo.outN)
  }

  lemma {:induction false} TxIndexIs(b: Block, t: nat, hash: TxHash)
    requires t <= |b|
    ensures TxIndex(b, t, hash).None? ==> forall k :: 0 <= k < t ==> b[k].hash != hash
    ensures TxIndex(b, t, hash).Some? ==> forall k :: TxIndex(b, t, hash).value < k < t ==> b[k].hash != hash
  {
    if t > 0 && b[t - 1].hash != hash { TxIndexIs(b, t - 1, hash); }
  }

  /** An input that spends from a transaction of this block names one of its outputs, or a transaction
      without outputs (which fill refuses). */
  ghost predicate SpendsExist(b: Block) {
    forall t, n :: 0 <= t < |b| && 0 <= n < |b[t].raw.ins| ==>
      var p := TxIndex(b, |b|, b[t].raw.ins[n].txHash);
      p.Some? && b[p.value].raw.outs != [] ==> b[t].raw.ins[n].outN < |b[p.value].raw.outs|
  }

  ghost predicate SpendsFromNothing(b: Block, r: Ref)
    requires InRef(b, r)
  {
    var p := TxIndex(b, |b|, In(b, r).txHash);
    p.Some? && b[p.value].raw.outs == []
  }

  // ----- scripts

  predicate AllOut(b: Block, refs: seq<Ref>) {
    forall i :: 0 <= i < |refs| ==> OutRef(b, refs[i])
  }

  predicate AllIn(b: Block, refs: seq<Ref>) {
    forall i :: 0 <= i < |refs| ==> InRef(b, refs[i])
  }

  /** Flat indices of the outputs to this script, among the first refs. */
  function OutsOf(b: Block, refs: seq<Ref>, hx: HashX): seq<nat>
    requires AllOut(b, refs)
  {
    if refs == [] then []
    else
      var n := |refs| - 1;
      OutsOf(b, refs[..n], hx) + if Out(b, refs[n]).script == Some(hx) then [n] else []
  }

  /** The script that an input spends from, where that is known from this block. */
  function SpentScript(b: Block, r: Ref): Option<HashX>
    requires InRef(b, r)
  {
    var p := Parent(b, In(b, r));
    var outs := OutRefs(b, |b|);
    if p.Some? && p.value < |outs| && OutRef(b, outs[p.value]) then Out(b, outs[p.value]).script else None
  }

  /** Flat indices of the inputs that spend from this script, among the first refs. */
  function InsOf(b: Block, refs: seq<Ref>, hx: HashX): seq<nat>
    requires AllIn(b, refs)
  {
    if refs == [] then []
    else
      var n := |refs| - 1;
      InsOf(b, refs[..n], hx) + if SpentScript(b, refs[n]) == Some(hx) then [n] else []
  }

  /** The transactions with an output to this script. */
  function OutTxs(b: Block, refs: seq<Ref>, hx: HashX): set<nat>
    requires AllOut(b, refs)
  {
    if refs == [] then {}
    else
      var n := |refs| - 1;
      OutTxs(b, refs[..n], hx) + if Out(b, refs[n]).script == Some(hx) then {refs[n].tx} else {}
  }

  /** The transactions with an input that spends from this script. */
  function InTxs(b: Block, refs: seq<Ref>, hx: HashX): set<nat>
    requires AllIn(b, refs)
  {
    if refs == [] then {}
    else
      var n := |refs| - 1;
      InTxs(b, refs[..n], hx) + if SpentScript(b, refs[n]) == Some(hx) then {refs[n].tx} else {}
  }

  ghost predicate Increasing(list: seq<nat>) {
    forall i, j :: 0 <= i < j < |list| ==> list[i] < list[j]
  }

  lemma {:induction false} IncreasingNone()
    ensures Increasing([])
  {
  }

  lemma {:induction false} Appended(list: seq<nat>, n: nat, add: bool)
    requires Increasing(list) && forall x :: x in list ==> x < n
    ensures var r := list + if add then [n] else [];
      Increasing(r) && forall x: nat :: x in r <==> x in list || (add && x == n)
  {
    assert forall i :: 0 <= i < |list| ==> list[i] in list;
  }

  lemma {:induction false} OutsOfMember(b: Block, refs: seq<Ref>, hx: HashX, k: nat)
    requires AllOut(b, refs)
    ensures k in OutsOf(b, refs, hx) <==> k < |refs| && Out(b, refs[k]).script == Some(hx)
  {
    hide Out;
    if refs != [] {
      var n := |refs| - 1;
      OutsOfMember(b, refs[..n], hx, k);
      if k < n { assert refs[..n][k] == refs[k]; }
    }
  }

  lemma {:induction false} OutsOfIncreasing(b: Block, refs: seq<Ref>, hx: HashX)
    requires AllOut(b, refs)
    ensures Increasing(OutsOf(b, refs, hx)) && forall x :: x in OutsOf(b, refs, hx) ==> x < |refs|
  {
    hide Out, Increasing;
    IncreasingNone();
    if refs != [] {
      var n := |refs| - 1;
      OutsOfIncreasing(b, refs[..n], hx);
      Appended(OutsOf(b, refs[..n], hx), n, Out(b, refs[n]).script == Some(hx));
    }
  }

  lemma {:induction false} InsOfMember(b: Block, refs: seq<Ref>, hx: HashX, k: nat)
    requires AllIn(b, refs)
    ensures k in InsOf(b, refs, hx) <==> k < |refs| && SpentScript(b, refs[k]) == Some(hx)
  {
    hide SpentScript;
    if refs != [] {
      var n := |refs| - 1;
      InsOfMember(b, refs[..n], hx, k);
      if k < n { assert refs[..n][k] == refs[k]; }
    }
  }

  lemma {:induction false} InsOfIncreasing(b: Block, refs: seq<Ref>, hx: HashX)
    requires AllIn(b, refs)
    ensures Increasing(InsOf(b, refs, hx)) && forall x :: x in InsOf(b, refs, hx) ==> x < |refs|
  {
    hide SpentScript, Increasing;
    IncreasingNone();
    if refs != [] {
      var n := |refs| - 1;
      InsOfIncreasing(b, refs[..n], hx);
      Appended(InsOf(b, refs[..n], hx), n, SpentScript(b, refs[n]) == Some(hx));
    }
  }
}
