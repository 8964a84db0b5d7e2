/** PreProcessedBlock::fill of src/BlockProc.cpp: the loops, proved against BlockSpec. */
module BlockProc {
  import opened Wrappers
  import opened Ids
  import opened MempoolSpec
  import opened BlockSpec

  const IO_NUM_MAX: nat := 0xFF_FFFF

  datatype TxInfo = TxInfo(hash: TxHash, nInputs: nat, nOutputs: nat, input0Index: Option<nat>, output0Index: Option<nat>)
  datatype OutPt = OutPt(txIdx: nat, outN: nat, amount: nat, spentInInputIndex: Option<nat>)
  datatype InputPt = InputPt(txIdx: nat, prevoutHash: TxHash, prevoutN: nat, parentTxOutIdx: Option<nat>)
  datatype AggregatedOutsIns = AggregatedOutsIns(outs: seq<nat>, ins: seq<nat>, txNumsInvolvingHashX: seq<nat>)

  type Aggregated = map<HashX, AggregatedOutsIns>

  ghost function Elems(list: seq<nat>): set<nat> {
    set x | x in list
  }

  function Get(agg: Aggregated, hx: HashX): AggregatedOutsIns {
    if hx in agg then agg[hx] else AggregatedOutsIns([], [], [])
  }

  /** Note that transaction t has to do with a script: no immediate repetition. */
  function Note(txNums: seq<nat>, t: nat): seq<nat> {
    if txNums == [] || txNums[|txNums| - 1] != t then txNums + [t] else txNums
  }

  lemma {:induction false} NoteElems(txNums: seq<nat>, t: nat)
    ensures Elems(Note(txNums, t)) == Elems(txNums) + {t}
    ensures Increasing(txNums) && (forall x :: x in Elems(txNums) ==> x <= t) ==> Increasing(Note(txNums, t))
  {
    if txNums != [] { assert txNums[|txNums| - 1] in Elems(txNums); }
    assert forall i :: 0 <= i < |txNums| ==> txNums[i] in Elems(txNums);
  }

  // ----- the first loop

  function NewOutPt(b: Block, r: Ref): OutPt
    requires OutRef(b, r)
  {
    OutPt(r.tx, r.n, Out(b, r).amount, None)
  }

  function NewInputPt(b: Block, r: Ref): InputPt
    requires InRef(b, r)
  {
    InputPt(r.tx, In(b, r).txHash, In(b, r).outN, None)
  }

  /** What has been gathered for one script from the outputs so far. */
  ghost predicate OutsFor(agg: Aggregated, b: Block, refs: seq<Ref>, hx: HashX)
    requires AllOut(b, refs)
  {
    && (hx in agg <==> OutsOf(b, refs, hx) != [])
    && Get(agg, hx).outs == OutsOf(b, refs, hx) && Get(agg, hx).ins == []
    && Increasing(Get(agg, hx).txNumsInvolvingHashX) && Elems(Get(agg, hx).txNumsInvolvingHashX) == OutTxs(b, refs, hx)
  }

  ghost predicate OutputsDone(outputs: seq<OutPt>, agg: Aggregated, b: Block, refs: seq<Ref>) {
    && AllOut(b, refs)
    && |outputs| == |refs| && (forall i :: 0 <= i < |refs| ==> outputs[i] == NewOutPt(b, refs[i]))
    && (forall hx :: OutsFor(agg, b, refs, hx))
  }

  ghost predicate InputsDone(inputs: seq<InputPt>, b: Block, refs: seq<Ref>) {
    && AllIn(b, refs)
    && |inputs| == |refs| && (forall i :: 0 <= i < |refs| ==> inputs[i] == NewInputPt(b, refs[i]))
  }

  /** All the transactions seen so far come before transaction t, or are it. */
  ghost predicate UpTo(refs: seq<Ref>, t: nat) {
    forall i :: 0 <= i < |refs| ==> refs[i].tx <= t
  }

  lemma {:induction false} OutTxsBound(b: Block, refs: seq<Ref>, hx: HashX, t: nat)
    requires AllOut(b, refs) && UpTo(refs, t)
    ensures forall x :: x in OutTxs(b, refs, hx) ==> x <= t
  {
    if refs != [] { OutTxsBound(b, refs[..|refs| - 1], hx, t); }
  }

  /** The next output, entered for its script unless it is OP_RETURN. */
  function AddOut(agg: Aggregated, o: TxOut, idx: nat, t: nat): Aggregated {
    match o.script
    case None => agg
    case Some(hx) =>
      var ag := Get(agg, hx);
      agg[hx := ag.(outs := ag.outs + [idx], txNumsInvolvingHashX := Note(ag.txNumsInvolvingHashX, t))]
  }

  lemma {:induction false} NothingToEnter(agg: Aggregated, o: TxOut, idx: nat, t: nat)
    ensures o.script == None ==> AddOut(agg, o, idx, t) == agg
  {
  }

  lemma {:induction false} OutsForNext(agg: Aggregated, b: Block, refs: seq<Ref>, r: Ref, hx: HashX)
    requires AllOut(b, refs) && OutRef(b, r) && UpTo(refs, r.tx) && OutsFor(agg, b, refs, hx)
    ensures AllOut(b, refs + [r]) && OutsFor(AddOut(agg, Out(b, r), |refs|, r.tx), b, refs + [r], hx)
  {
    hide Increasing, Elems, Note;
    assert (refs + [r])[..|refs|] == refs;
    if Out(b, r).script == Some(hx) {
      OutTxsBound(b, refs, hx, r.tx);
      NoteElems(Get(agg, hx).txNumsInvolvingHashX, r.tx);
    }
  }

  lemma {:induction false} OutputsNext(outputs: seq<OutPt>, agg: Aggregated, b: Block, refs: seq<Ref>, r: Ref)
    requires OutputsDone(outputs, agg, b, refs) && OutRef(b, r) && UpTo(refs, r.tx)
    ensures OutputsDone(outputs + [NewOutPt(b, r)], AddOut(agg, Out(b, r), |refs|, r.tx), b, refs + [r])
  {
    hide OutsFor, AddOut;
    forall hx ensures OutsFor(AddOut(agg, Out(b, r), |refs|, r.tx), b, refs + [r], hx) {
      OutsForNext(agg, b, refs, r, hx);
    }
  }

  // ----- the second loop

  /** Output o is marked as spent exactly if one of the first i inputs spends it, and then by such an input. */
  ghost predicate SpentMark(spent: Option<nat>, o: nat, b: Block, refs: seq<Ref>)
    requires AllIn(b, refs)
  {
    && (spent.Some? ==> spent.value < |refs| && Parent(b, In(b, refs[spent.value])) == Some(o))
    && (spent.None? ==> forall i :: 0 <= i < |refs| ==> Parent(b, In(b, refs[i])) != Some(o))
  }

  ghost predicate InsFor(agg: Aggregated, b: Block, refs: seq<Ref>, hx: HashX)
    requires AllIn(b, refs)
  {
    var all := OutRefs(b, |b|);
    && AllOut(b, all)
    && (hx in agg <==> OutsOf(b, all, hx) != [])
    && Get(agg, hx).outs == OutsOf(b, all, hx) && Get(agg, hx).ins == InsOf(b, refs, hx)
    && Elems(Get(agg, hx).txNumsInvolvingHashX) == OutTxs(b, all, hx) + InTxs(b, refs, hx)
  }

  function ResolvedInput(b: Block, r: Ref): InputPt
    requires InRef(b, r)
  {
    NewInputPt(b, r).(parentTxOutIdx := Parent(b, In(b, r)))
  }

  /** After the inputs in refs, which are the first of all of them. */
  ghost predicate LinkedUpTo(outputs: seq<OutPt>, inputs: seq<InputPt>, agg: Aggregated, b: Block, refs: seq<Ref>) {
    var all, ins := OutRefs(b, |b|), InRefs(b, |b|);
    && AllOut(b, all) && AllIn(b, ins) && refs <= ins && AllIn(b, refs)
    && |inputs| == |ins| && (forall i :: 0 <= i < |refs| ==> inputs[i] == ResolvedInput(b, ins[i]))
    && (forall i :: |refs| <= i < |ins| ==> inputs[i] == NewInputPt(b, ins[i]))
    && |outputs| == |all| && (forall o :: 0 <= o < |all| ==>
          outputs[o].(spentInInputIndex := None) == NewOutPt(b, all[o]) && SpentMark(outputs[o].spentInInputIndex, o, b, refs))
    && (forall hx :: InsFor(agg, b, refs, hx))
  }

  function AddIn(agg: Aggregated, script: Option<HashX>, idx: nat, t: nat): Aggregated {
    match script
    case None => agg
    case Some(hx) =>
      var ag := Get(agg, hx);
      agg[hx := ag.(ins := ag.ins + [idx], txNumsInvolvingHashX := Note(ag.txNumsInvolvingHashX, t))]
  }

  lemma {:induction false} InsForNext(agg: Aggregated, b: Block, refs: seq<Ref>, r: Ref, hx: HashX)
    requires AllIn(b, refs) && InRef(b, r) && InsFor(agg, b, refs, hx)
    ensures AllIn(b, refs + [r]) && InsFor(AddIn(agg, SpentScript(b, r), |refs|, r.tx), b, refs + [r], hx)
  {
    hide Increasing, Elems, Note, SpentScript, OutsOf, OutTxs, OutRefs;
    InsNext(b, refs, r, hx);
    hide InsOf, InTxs, InRef;
    if SpentScript(b, r) == Some(hx) {
      NoteElems(Get(agg, hx).txNumsInvolvingHashX, r.tx);
      SpentIsListed(b, r, hx);
    }
  }

  lemma {:induction false} InsNext(b: Block, refs: seq<Ref>, r: Ref, hx: HashX)
    requires AllIn(b, refs) && InRef(b, r)
    ensures AllIn(b, refs + [r])
    ensures InsOf(b, refs + [r], hx) == InsOf(b, refs, hx) + if SpentScript(b, r) == Some(hx) then [|refs|] else []
    ensures InTxs(b, refs + [r], hx) == InTxs(b, refs, hx) + if SpentScript(b, r) == Some(hx) then {r.tx} else {}
  {
    hide SpentScript;
    assert (refs + [r])[..|refs|] == refs;
  }

  /** A script that is spent from in the block is paid to in the block. */
  lemma {:induction false} SpentIsListed(b: Block, r: Ref, hx: HashX)
    requires InRef(b, r) && SpentScript(b, r) == Some(hx)
    ensures AllOut(b, OutRefs(b, |b|)) && OutsOf(b, OutRefs(b, |b|), hx) != []
  {
    OutRefsAre(b, |b|);
    var all := OutRefs(b, |b|);
    OutsOfMember(b, all, hx, Parent(b, In(b, r)).value);
  }

  lemma {:induction false} SpentMarkNext(spent: Option<nat>, o: nat, b: Block, refs: seq<Ref>, r: Ref)
    requires AllIn(b, refs) && InRef(b, r) && SpentMark(spent, o, b, refs)
    ensures AllIn(b, refs + [r])
    ensures SpentMark(if Parent(b, In(b, r)) == Some(o) then Some(|refs|) else spent, o, b, refs + [r])
  {
    hide Parent;
    assert (refs + [r])[|refs|] == r;
  }

  /** The next input is looked up, and its parent, if there is one, is marked. */
  lemma {:induction false} ResolvedNext(outputs: seq<OutPt>, inputs: seq<InputPt>, agg: Aggregated, b: Block, n: nat)
    requires n < |InRefs(b, |b|)| && LinkedUpTo(outputs, inputs, agg, b, InRefs(b, |b|)[..n])
    ensures var ins := InRefs(b, |b|);
      var p := Parent(b, In(b, ins[n]));
      (p.Some? ==> p.value < |outputs|) ==>
        LinkedUpTo(if p.Some? then outputs[p.value := outputs[p.value].(spentInInputIndex := Some(n))] else outputs,
                 inputs[n := inputs[n].(parentTxOutIdx := p)], AddIn(agg, SpentScript(b, ins[n]), n, ins[n].tx), b, ins[..n + 1])
  {
    hide Parent, SpentScript, InsFor, AddIn, OutRefs, InRefs, SpentMark;
    var all, ins := OutRefs(b, |b|), InRefs(b, |b|);
    var r, refs := ins[n], ins[..n];
    var p := Parent(b, In(b, r));
    assert ins[..n + 1] == refs + [r];
    if p.Some? ==> p.value < |outputs| {
      var outputs' := if p.Some? then outputs[p.value := outputs[p.value].(spentInInputIndex := Some(n))] else outputs;
      forall o | 0 <= o < |all|
        ensures outputs'[o].(spentInInputIndex := None) == NewOutPt(b, all[o]) && SpentMark(outputs'[o].spentInInputIndex, o, b, refs + [r])
      {
        SpentMarkNext(outputs[o].spentInInputIndex, o, b, refs, r);
      }
      forall hx ensures InsFor(AddIn(agg, SpentScript(b, r), n, r.tx), b, refs + [r], hx) { InsForNext(agg, b, refs, r, hx); }
    }
  }

  lemma {:induction false} ResolvedStart(outputs: seq<OutPt>, inputs: seq<InputPt>, agg: Aggregated, b: Block)
    requires OutputsDone(outputs, agg, b, OutRefs(b, |b|)) && InputsDone(inputs, b, InRefs(b, |b|))
    ensures LinkedUpTo(outputs, inputs, agg, b, InRefs(b, |b|)[..0])
  {
    hide OutsOf, OutTxs, Increasing, Parent, OutRefs, InRefs;
    forall hx ensures InsFor(agg, b, [], hx) { assert OutsFor(agg, b, OutRefs(b, |b|), hx); }
    assert InRefs(b, |b|)[..0] == [];
  }

  // ----- the last loop

  ghost predicate Sorted(list: seq<nat>) {
    forall i, j :: 0 <= i < j < |list| ==> list[i] <= list[j]
  }

  method Insert(list: seq<nat>, x: nat) returns (r: seq<nat>)
    requires Sorted(list)
    ensures Sorted(r) && Elems(r) == Elems(list) + {x}
    ensures (forall i :: 0 <= i < |list| ==> list[i] <= x) ==> r == list + [x]
  {
    hide Elems;
    var k := |list|;
    while k > 0 && list[k - 1] > x
      invariant 0 <= k <= |list| && forall i :: k <= i < |list| ==> list[i] > x
    {
      k := k - 1;
    }
    r := list[..k] + [x] + list[k..];
    ElemsInsert(list, k, x);
  }

  lemma {:induction false} ElemsInsert(list: seq<nat>, k: nat, x: nat)
    requires k <= |list|
    ensures Elems(list[..k] + [x] + list[k..]) == Elems(list) + {x}
  {
    hide Elems;
    assert list == list[..k] + list[k..];
    ElemsConcat(list[..k], list[k..]);
    ElemsConcat(list[..k] + [x], list[k..]);
    ElemsConcat(list[..k], [x]);
    ElemsOne(x);
  }

  lemma {:induction false} ElemsConcat(a: seq<nat>, b: seq<nat>)
    ensures Elems(a + b) == Elems(a) + Elems(b)
  {
  }

  lemma {:induction false} ElemsOne(x: nat)
    ensures Elems([x]) == {x} && Elems([]) == {}
  {
  }

  lemma {:induction false} ElemsNext(list: seq<nat>, i: nat)
    requires i < |list|
    ensures list[..i + 1] == list[..i] + [list[i]]
    ensures Elems(list[..i + 1]) == Elems(list[..i]) + {list[i]}
    ensures i > 0 ==> list[i - 1] in Elems(list[..i])
  {
    assert list[..i + 1] == list[..i] + [list[i]];
    ElemsConcat(list[..i], [list[i]]);
    ElemsOne(list[i]);
    if i > 0 { assert list[..i][i - 1] == list[i - 1]; }
  }

  /** std::sort */
  method Sort(list: seq<nat>) returns (r: seq<nat>)
    ensures Sorted(r) && Elems(r) == Elems(list)
    ensures Increasing(list) ==> r == list
  {
    hide Elems;
    r := [];
    ElemsOne(0);
    for i := 0 to |list|
      invariant Sorted(r) && Elems(r) == Elems(list[..i])
      invariant Increasing(list) ==> r == list[..i]
    {
      ElemsNext(list, i);
      r := Insert(r, list[i]);
    }
    assert list[..|list|] == list;
  }

  /** std::unique and erase */
  method Unique(list: seq<nat>) returns (r: seq<nat>)
    requires Sorted(list)
    ensures Increasing(r) && Elems(r) == Elems(list)
  {
    hide Elems;
    r := [];
    ElemsOne(0);
    for i := 0 to |list|
      invariant Increasing(r) && Elems(r) == Elems(list[..i])
      invariant if i == 0 then r == [] else r != [] && r[|r| - 1] == list[i - 1]
    {
      ElemsNext(list, i);
      if i == 0 || list[i] != list[i - 1] {
        ElemsConcat(r, [list[i]]);
        ElemsOne(list[i]);
        r := r + [list[i]];
      }
    }
    assert list[..|list|] == list;
  }

  /** What fill leaves for one script: its outputs, the inputs known to spend from it, and the transactions
      with any of these, each in increasing order. */
  ghost predicate Aggregates(agg: Aggregated, b: Block, hx: HashX) {
    var all, ins := OutRefs(b, |b|), InRefs(b, |b|);
    && AllOut(b, all) && AllIn(b, ins)
    && (hx in agg <==> OutsOf(b, all, hx) != [])
    && Get(agg, hx).outs == OutsOf(b, all, hx) && Get(agg, hx).ins == InsOf(b, ins, hx)
    && Increasing(Get(agg, hx).txNumsInvolvingHashX)
    && Elems(Get(agg, hx).txNumsInvolvingHashX) == OutTxs(b, all, hx) + InTxs(b, ins, hx)
  }

  method SortAll(agg: Aggregated, ghost b: Block) returns (r: Aggregated)
    requires AllIn(b, InRefs(b, |b|)) && forall hx :: InsFor(agg, b, InRefs(b, |b|), hx)
    ensures forall hx :: Aggregates(r, b, hx)
  {
    hide Increasing, OutTxs, InTxs, OutsOf, InsOf, OutRefs, InRefs, Elems;
    r := agg;
    var todo := agg.Keys;
    while todo != {}
      invariant r.Keys == agg.Keys && todo <= agg.Keys
      invariant forall hx :: hx in todo ==> r[hx] == agg[hx]
      invariant forall hx :: hx in agg && hx !in todo ==> Aggregates(r, b, hx)
      decreases |todo|
    {
      var hx :| hx in todo;
      todo := todo - {hx};
      var ag := r[hx];
      assert InsFor(agg, b, InRefs(b, |b|), hx);
      Ascending(b, hx);
      var ins := Sort(ag.ins);
      var outs := Sort(ag.outs);
      var txNums := Sort(ag.txNumsInvolvingHashX);
      txNums := Unique(txNums);
      ghost var before := r;
      r := r[hx := AggregatedOutsIns(outs, ins, txNums)];
      assert Aggregates(r, b, hx);
      forall h | h in agg && h !in todo ensures Aggregates(r, b, h) {
        if h != hx { assert Aggregates(before, b, h) && Get(r, h) == Get(before, h); }
      }
    }
    forall hx ensures Aggregates(r, b, hx) {
      assert InsFor(agg, b, InRefs(b, |b|), hx);
      if hx !in agg { assert Get(agg, hx).txNumsInvolvingHashX == []; IncreasingNone(); }
    }
  }

  lemma {:induction false} Ascending(b: Block, hx: HashX)
    ensures AllOut(b, OutRefs(b, |b|)) && Increasing(OutsOf(b, OutRefs(b, |b|), hx))
    ensures AllIn(b, InRefs(b, |b|)) && Increasing(InsOf(b, InRefs(b, |b|), hx))
  {
    OutRefsAre(b, |b|);
    InRefsAre(b, |b|);
    OutsOfIncreasing(b, OutRefs(b, |b|), hx);
    InsOfIncreasing(b, InRefs(b, |b|), hx);
  }

  // ----- the block object

  /** More outputs, or a higher output number spent, than the database format can hold. */
  ghost predicate TooBig(b: Block, t: nat)
    requires t < |b|
  {
    || |b[t].raw.outs| > IO_NUM_MAX + 1
    || (t > 0 && exists n :: 0 <= n < |b[t].raw.ins| && b[t].raw.ins[n].outN > IO_NUM_MAX)
  }

  function InfoOf(b: Block, t: nat): TxInfo
    requires t < |b|
  {
    TxInfo(b[t].hash, |b[t].raw.ins|, |b[t].raw.outs|,
           if b[t].raw.ins == [] then None else Some(|InRefs(b, t)|),
           if b[t].raw.outs == [] then None else Some(|OutRefs(b, t)|))
  }

  /** The transactions of the block that fill accepts. */
  ghost predicate Acceptable(b: Block) {
    && (forall t :: 0 <= t < |b| ==> !TooBig(b, t))
    && (forall r :: InRef(b, r) ==> !SpendsFromNothing(b, r))
  }

  /** The flat lists, and the links between them. */
  ghost predicate Linked(txInfos: seq<TxInfo>, outputs: seq<OutPt>, inputs: seq<InputPt>, b: Block) {
    var all, ins := OutRefs(b, |b|), InRefs(b, |b|);
    && AllOut(b, all) && AllIn(b, ins)
    && |txInfos| == |b| && (forall t :: 0 <= t < |b| ==> txInfos[t] == InfoOf(b, t))
    && |inputs| == |ins| && (forall i :: 0 <= i < |ins| ==> inputs[i] == ResolvedInput(b, ins[i]))
    && |outputs| == |all| && (forall o :: 0 <= o < |all| ==>
          outputs[o].(spentInInputIndex := None) == NewOutPt(b, all[o]) && SpentMark(outputs[o].spentInInputIndex, o, b, ins))
  }

  /** txHashToIndex for the first t transactions. */
  ghost predicate Indexed(b: Block, t: nat, index: map<TxHash, nat>)
    requires t <= |b|
  {
    forall h: TxHash :: TxIndex(b, t, h) == if h in index then Some(index[h]) else None
  }

  class PreProcessedBlock {
    var txInfos: seq<TxInfo>
    var outputs: seq<OutPt>
    var inputs: seq<InputPt>
    var hashXAggregated: Aggregated

    constructor ()
      ensures txInfos == [] && outputs == [] && inputs == [] && hashXAggregated == map[]
    {
      txInfos, outputs, inputs, hashXAggregated := [], [], [], map[];
    }

    /** Enter an output for its script. */
    method EnterOutput(out: TxOut, outputIdx: nat, txIdx: nat)
      requires out.script.Some?
      modifies this`hashXAggregated
      ensures hashXAggregated == AddOut(old(hashXAggregated), out, outputIdx, txIdx)
    {
      var hashX := out.script.value;
      var ag := Get(hashXAggregated, hashX);
      ag := ag.(outs := ag.outs + [outputIdx]);
      if ag.txNumsInvolvingHashX == [] || ag.txNumsInvolvingHashX[|ag.txNumsInvolvingHashX| - 1] != txIdx {
        ag := ag.(txNumsInvolvingHashX := ag.txNumsInvolvingHashX + [txIdx]);
      }
      hashXAggregated := hashXAggregated[hashX := ag];
    }

    /** One transaction's outputs. */
    method AddOutputs(b: Block, t: nat) returns (ok: bool)
      requires t < |b| && OutputsDone(outputs, hashXAggregated, b, OutRefs(b, t))
      modifies this`outputs, this`hashXAggregated
      ensures ok == (|b[t].raw.outs| <= IO_NUM_MAX + 1)
      ensures OutputsDone(outputs, hashXAggregated, b, OutRefs(b, t + 1))
    {
      hide OutsFor, OutRefs, AddOut;
      ghost var refs := OutRefs(b, t);
      EarlierTxs(b, t);
      var outN, maxOutNSeen := 0, 0;
      assert refs + TxRefs(t, 0) == refs;
      while outN < |b[t].raw.outs|
        invariant 0 <= outN <= |b[t].raw.outs| && maxOutNSeen == if outN == 0 then 0 else outN - 1
        invariant OutputsDone(outputs, hashXAggregated, b, refs + TxRefs(t, outN))
      {
        var out := b[t].raw.outs[outN];
        OutputsNext(outputs, hashXAggregated, b, refs + TxRefs(t, outN), Ref(t, outN));
        NothingToEnter(hashXAggregated, out, |outputs|, t);
        assert refs + TxRefs(t, outN) + [Ref(t, outN)] == refs + TxRefs(t, outN + 1);
        outputs := outputs + [OutPt(t, outN, out.amount, None)];
        var outputIdx := |outputs| - 1;
        if out.script.Some? { EnterOutput(out, outputIdx, t); }
        maxOutNSeen := outN;
        outN := outN + 1;
      }
      MoreOuts(b, t);
      ok := maxOutNSeen <= IO_NUM_MAX;
    }

    /** One transaction's inputs. */
    method AddInputs(b: Block, t: nat) returns (ok: bool)
      requires t < |b| && InputsDone(inputs, b, InRefs(b, t))
      modifies this`inputs
      ensures ok <==> (t > 0 ==> forall n :: 0 <= n < |b[t].raw.ins| ==> b[t].raw.ins[n].outN <= IO_NUM_MAX)
      ensures InputsDone(inputs, b, InRefs(b, t + 1))
    {
      hide InRefs;
      ghost var refs := InRefs(b, t);
      assert refs + TxRefs(t, 0) == refs;
      var maxIONumSeen := 0;
      var n := 0;
      while n < |b[t].raw.ins|
        invariant 0 <= n <= |b[t].raw.ins|
        invariant InputsDone(inputs, b, refs + TxRefs(t, n))
        invariant maxIONumSeen <= IO_NUM_MAX <==> (t > 0 ==> forall k :: 0 <= k < n ==> b[t].raw.ins[k].outN <= IO_NUM_MAX)
      {
        var prevout := b[t].raw.ins[n];
        assert refs + TxRefs(t, n) + [Ref(t, n)] == refs + TxRefs(t, n + 1);
        inputs := inputs + [InputPt(t, prevout.txHash, prevout.outN, None)];
        if t > 0 {
          if prevout.outN > maxIONumSeen { maxIONumSeen := prevout.outN; }
        }
        n := n + 1;
      }
      MoreIns(b, t);
      ok := maxIONumSeen <= IO_NUM_MAX;
    }

    method Clear()
      modifies this
      ensures txInfos == [] && outputs == [] && inputs == [] && hashXAggregated == map[]
    {
      txInfos, outputs, inputs, hashXAggregated := [], [], [], map[];
    }

    /** The first loop of fill. */
    method AddTxs(b: Block) returns (r: Result<()>, txHashToIndex: map<TxHash, nat>)
      requires txInfos == [] && outputs == [] && inputs == [] && hashXAggregated == map[]
      modifies this
      ensures r.Ok? <==> forall t :: 0 <= t < |b| ==> !TooBig(b, t)
      ensures r.Ok? ==> OutputsDone(outputs, hashXAggregated, b, OutRefs(b, |b|)) && InputsDone(inputs, b, InRefs(b, |b|))
      ensures r.Ok? ==> |txInfos| == |b| && forall t :: 0 <= t < |b| ==> txInfos[t] == InfoOf(b, t)
      ensures r.Ok? ==> Indexed(b, |b|, txHashToIndex)
    {
      hide OutputsDone, InputsDone, TooBig, OutRefs, InRefs, Indexed;
      txHashToIndex := map[];
      var t := 0;
      StartEmpty(b, t, txHashToIndex);
      while t < |b|
        invariant 0 <= t <= |b| && |txInfos| == t
        invariant OutputsDone(outputs, hashXAggregated, b, OutRefs(b, t)) && InputsDone(inputs, b, InRefs(b, t))
        invariant |outputs| == |OutRefs(b, t)| && |inputs| == |InRefs(b, t)|
        invariant forall k :: 0 <= k < t ==> txInfos[k] == InfoOf(b, k) && !TooBig(b, k)
        invariant Indexed(b, t, txHashToIndex)
      {
        var tx := b[t];
        var info := TxInfo(tx.hash, |tx.raw.ins|, |tx.raw.outs|, None, None);
        IndexedNext(b, t, txHashToIndex);
        txHashToIndex := txHashToIndex[tx.hash := t];
        if tx.raw.outs != [] { info := info.(output0Index := Some(|outputs|)); }
        var ok := AddOutputs(b, t);
        BigTx(b, t);
        if !ok { return Err(InternalError), txHashToIndex; }
        if tx.raw.ins != [] { info := info.(input0Index := Some(|inputs|)); }
        ok := AddInputs(b, t);
        if !ok { return Err(InternalError), txHashToIndex; }
        txInfos := txInfos + [info];
        t := t + 1;
        Sizes(outputs, inputs, hashXAggregated, b, t);
      }
      return Ok(()), txHashToIndex;
    }

    /** Look up the output that an input spends, and its script, among the transactions of the block. */
    method FindParent(b: Block, inIdx: nat, inp: InputPt, txHashToIndex: map<TxHash, nat>)
        returns (ok: bool, parent: Option<nat>, script: Option<HashX>)
      requires |txInfos| == |b| && (forall t :: 0 <= t < |b| ==> txInfos[t] == InfoOf(b, t)) && SpendsExist(b)
      requires Indexed(b, |b|, txHashToIndex)
      requires inIdx < |InRefs(b, |b|)| && InRef(b, InRefs(b, |b|)[inIdx]) && inp == NewInputPt(b, InRefs(b, |b|)[inIdx])
      ensures ok == !SpendsFromNothing(b, InRefs(b, |b|)[inIdx])
      ensures ok ==> parent == Parent(b, In(b, InRefs(b, |b|)[inIdx])) && script == SpentScript(b, InRefs(b, |b|)[inIdx])
      ensures ok && parent.Some? ==> parent.value < |OutRefs(b, |b|)|
    {
      LookUp(txInfos, b, inIdx, inp, txHashToIndex);
      hide Indexed, OutRefs, InRefs, SpendsExist, Parent, SpentScript, SpendsFromNothing, InfoOf, NewInputPt;
      if inp.prevoutHash !in txHashToIndex { return true, None, None; }
      var prevTxIdx := txHashToIndex[inp.prevoutHash];
      var prevInfo := txInfos[prevTxIdx];
      if prevInfo.output0Index.None? { return false, None, None; }
      return true, Some(prevInfo.output0Index.value + inp.prevoutN), b[prevTxIdx].raw.outs[inp.prevoutN].script;
    }

    /** One turn of the second loop. */
    method ResolveInput(b: Block, inIdx: nat, txHashToIndex: map<TxHash, nat>) returns (ok: bool)
      requires |txInfos| == |b| && (forall t :: 0 <= t < |b| ==> txInfos[t] == InfoOf(b, t)) && SpendsExist(b)
      requires Indexed(b, |b|, txHashToIndex)
      requires inIdx < |InRefs(b, |b|)| && LinkedUpTo(outputs, inputs, hashXAggregated, b, InRefs(b, |b|)[..inIdx])
      modifies this`outputs, this`inputs, this`hashXAggregated
      ensures ok == !SpendsFromNothing(b, InRefs(b, |b|)[inIdx])
      ensures ok ==> LinkedUpTo(outputs, inputs, hashXAggregated, b, InRefs(b, |b|)[..inIdx + 1])
    {
      ResolvedNext(outputs, inputs, hashXAggregated, b, inIdx);
      NotYet(outputs, inputs, hashXAggregated, b, inIdx);
      hide Indexed, LinkedUpTo, OutRefs, InRefs, SpendsExist, TxIndex, Parent, SpentScript, SpendsFromNothing, InfoOf;
      var inp := inputs[inIdx];
      var parent, script;
      ok, parent, script := FindParent(b, inIdx, inp, txHashToIndex);
      if ok && parent.Some? {
        var o := parent.value;
        inputs := inputs[inIdx := inp.(parentTxOutIdx := parent)];
        outputs := outputs[o := outputs[o].(spentInInputIndex := Some(inIdx))];
        if script.Some? { EnterInput(script.value, inIdx, inp.txIdx); }
      } else if ok {
        ScriptNeedsParent(b, InRefs(b, |b|)[inIdx]);
        assert inputs[inIdx := inp.(parentTxOutIdx := None)] == inputs;
      }
    }

    /** Enter an input for the script it spends from. */
    method EnterInput(hashX: HashX, inIdx: nat, txIdx: nat)
      modifies this`hashXAggregated
      ensures hashXAggregated == AddIn(old(hashXAggregated), Some(hashX), inIdx, txIdx)
    {
      var ag := Get(hashXAggregated, hashX);
      ag := ag.(ins := ag.ins + [inIdx]);
      if ag.txNumsInvolvingHashX == [] || ag.txNumsInvolvingHashX[|ag.txNumsInvolvingHashX| - 1] != txIdx {
        ag := ag.(txNumsInvolvingHashX := ag.txNumsInvolvingHashX + [txIdx]);
      }
      hashXAggregated := hashXAggregated[hashX := ag];
    }

    /** fill: the flat lists, the links inside the block, and the index by script. */
    method Fill(b: Block) returns (r: Result<()>)
      requires SpendsExist(b)
      modifies this
      ensures r.Ok? <==> Acceptable(b)
      ensures r.Ok? ==> Linked(txInfos, outputs, inputs, b) && forall hx :: Aggregates(hashXAggregated, b, hx)
    {
      hide OutputsDone, InputsDone, TooBig, LinkedUpTo, SpendsFromNothing, SpendsExist, OutRefs, InRefs, Aggregates, SpentMark, Indexed;
      Clear();
      var txHashToIndex;
      r, txHashToIndex := AddTxs(b);
      if r.Err? { return; }
      ResolvedStart(outputs, inputs, hashXAggregated, b);
      ResolvedSizes(outputs, inputs, hashXAggregated, b, InRefs(b, |b|)[..0]);
      var inIdx := 0;
      while inIdx < |inputs|
        invariant 0 <= inIdx <= |inputs| == |InRefs(b, |b|)| && AllIn(b, InRefs(b, |b|))
        invariant |txInfos| == |b| && forall t :: 0 <= t < |b| ==> txInfos[t] == InfoOf(b, t)
        invariant LinkedUpTo(outputs, inputs, hashXAggregated, b, InRefs(b, |b|)[..inIdx])
        invariant forall i :: 0 <= i < inIdx ==> !SpendsFromNothing(b, InRefs(b, |b|)[i])
      {
        var ok := ResolveInput(b, inIdx, txHashToIndex);
        if !ok { return Err(InternalError); }
        inIdx := inIdx + 1;
        ResolvedSizes(outputs, inputs, hashXAggregated, b, InRefs(b, |b|)[..inIdx]);
      }
      assert InRefs(b, |b|)[..inIdx] == InRefs(b, |b|);
      EveryInput(b);
      ResolvedAll(outputs, inputs, hashXAggregated, b);
      hashXAggregated := SortAll(hashXAggregated, b);
    }
  }

  // ----- steps of the loops

  lemma {:induction false} EarlierTxs(b: Block, t: nat)
    requires t < |b|
    ensures UpTo(OutRefs(b, t), t)
  {
    OutRefsAre(b, t);
  }

  lemma {:induction false} MoreOuts(b: Block, t: nat)
    requires t < |b|
    ensures OutRefs(b, t + 1) == OutRefs(b, t) + TxRefs(t, |b[t].raw.outs|)
  {
  }

  lemma {:induction false} MoreIns(b: Block, t: nat)
    requires t < |b|
    ensures InRefs(b, t + 1) == InRefs(b, t) + TxRefs(t, |b[t].raw.ins|)
  {
  }

  lemma {:induction false} ScriptNeedsParent(b: Block, r: Ref)
    requires InRef(b, r) && Parent(b, In(b, r)) == None
    ensures SpentScript(b, r) == None
  {
  }

  lemma {:induction false} StartEmpty(b: Block, t: nat, index: map<TxHash, nat>)
    requires t == 0 && index == map[]
    ensures OutRefs(b, t) == [] && InRefs(b, t) == [] && Indexed(b, t, index)
    ensures OutputsDone([], map[], b, OutRefs(b, t)) && InputsDone([], b, InRefs(b, t))
  {
    ElemsOne(0);
    IncreasingNone();
  }

  lemma {:induction false} BigTx(b: Block, t: nat)
    requires t < |b|
    ensures !TooBig(b, t) ==> |b[t].raw.outs| <= IO_NUM_MAX + 1
    ensures !TooBig(b, t) && t > 0 ==> forall n :: 0 <= n < |b[t].raw.ins| ==> b[t].raw.ins[n].outN <= IO_NUM_MAX
    ensures TooBig(b, t) && |b[t].raw.outs| <= IO_NUM_MAX + 1 ==>
      t > 0 && exists n :: 0 <= n < |b[t].raw.ins| && b[t].raw.ins[n].outN > IO_NUM_MAX
  {
  }

  lemma {:induction false} Sizes(outputs: seq<OutPt>, inputs: seq<InputPt>, agg: Aggregated, b: Block, t: nat)
    requires t <= |b| && OutputsDone(outputs, agg, b, OutRefs(b, t)) && InputsDone(inputs, b, InRefs(b, t))
    ensures |outputs| == |OutRefs(b, t)| && |inputs| == |InRefs(b, t)|
  {
  }

  lemma {:induction false} ResolvedSizes(outputs: seq<OutPt>, inputs: seq<InputPt>, agg: Aggregated, b: Block, refs: seq<Ref>)
    requires LinkedUpTo(outputs, inputs, agg, b, refs)
    ensures |inputs| == |InRefs(b, |b|)| && AllIn(b, InRefs(b, |b|))
  {
  }

  /** The input whose turn it is is as the first loop left it. */
  lemma {:induction false} NotYet(outputs: seq<OutPt>, inputs: seq<InputPt>, agg: Aggregated, b: Block, i: nat)
    requires i < |InRefs(b, |b|)| && LinkedUpTo(outputs, inputs, agg, b, InRefs(b, |b|)[..i])
    ensures |inputs| == |InRefs(b, |b|)| && |outputs| == |OutRefs(b, |b|)|
    ensures InRef(b, InRefs(b, |b|)[i]) && inputs[i] == NewInputPt(b, InRefs(b, |b|)[i])
  {
    hide OutRefs, InRefs;
  }

  lemma {:induction false} IndexedNext(b: Block, t: nat, index: map<TxHash, nat>)
    requires t < |b| && Indexed(b, t, index)
    ensures Indexed(b, t + 1, index[b[t].hash := t])
  {
    var index' := index[b[t].hash := t];
    forall h: TxHash ensures TxIndex(b, t + 1, h) == if h in index' then Some(index'[h]) else None {
      assert TxIndex(b, t + 1, h) == if b[t].hash == h then Some(t) else TxIndex(b, t, h);
    }
  }

  lemma {:induction false} IndexedAt(b: Block, t: nat, index: map<TxHash, nat>, h: TxHash)
    requires t <= |b| && Indexed(b, t, index)
    ensures TxIndex(b, t, h) == if h in index then Some(index[h]) else None
  {
  }

  /** What the lookup of an input's parent comes to. */
  lemma {:induction false} WhereSpent(b: Block, i: nat)
    requires i < |InRefs(b, |b|)| && SpendsExist(b)
    ensures var r := InRefs(b, |b|)[i];
      && InRef(b, r)
      && var k := TxIndex(b, |b|, In(b, r).txHash);
         if k.None? then Parent(b, In(b, r)) == None && SpentScript(b, r) == None && !SpendsFromNothing(b, r)
         else if b[k.value].raw.outs == [] then SpendsFromNothing(b, r)
         else !SpendsFromNothing(b, r) && In(b, r).outN < |b[k.value].raw.outs|
              && Parent(b, In(b, r)) == Some(|OutRefs(b, k.value)| + In(b, r).outN)
              && Parent(b, In(b, r)).value < |OutRefs(b, |b|)|
              && SpentScript(b, r) == b[k.value].raw.outs[In(b, r).outN].script
  {
    InRefsAre(b, |b|);
    var r := InRefs(b, |b|)[i];
    var k := TxIndex(b, |b|, In(b, r).txHash);
    if k.Some? && b[k.value].raw.outs != [] {
      assert b[r.tx].raw.ins[r.n] == In(b, r);
      OutRefAt(b, |b|, Ref(k.value, In(b, r).outN));
    }
  }

  /** What fill finds out about an input through its two tables. */
  lemma {:induction false} LookUp(txInfos: seq<TxInfo>, b: Block, i: nat, inp: InputPt, index: map<TxHash, nat>)
    requires |txInfos| == |b| && (forall t :: 0 <= t < |b| ==> txInfos[t] == InfoOf(b, t)) && SpendsExist(b)
    requires Indexed(b, |b|, index)
    requires i < |InRefs(b, |b|)| && InRef(b, InRefs(b, |b|)[i]) && inp == NewInputPt(b, InRefs(b, |b|)[i])
    ensures var r := InRefs(b, |b|)[i];
      if inp.prevoutHash !in index then Parent(b, In(b, r)) == None && SpentScript(b, r) == None && !SpendsFromNothing(b, r)
      else
        var k := index[inp.prevoutHash];
        && k < |b| && SpendsFromNothing(b, r) == txInfos[k].output0Index.None?
        && (txInfos[k].output0Index.Some? ==>
              && inp.prevoutN < |b[k].raw.outs| && SpentScript(b, r) == b[k].raw.outs[inp.prevoutN].script
              && Parent(b, In(b, r)) == Some(txInfos[k].output0Index.value + inp.prevoutN)
              && Parent(b, In(b, r)).value < |OutRefs(b, |b|)|)
  {
    hide Indexed, OutRefs, InRefs, SpendsExist, Parent, SpentScript, SpendsFromNothing, TxIndex;
    WhereSpent(b, i);
    IndexedAt(b, |b|, index, inp.prevoutHash);
  }

  lemma {:induction false} EveryInput(b: Block)
    ensures forall r :: InRef(b, r) ==> r in InRefs(b, |b|)
  {
    forall r | InRef(b, r) ensures r in InRefs(b, |b|) { InRefAt(b, |b|, r); }
  }

  lemma {:induction false} InRefAt(b: Block, t: nat, r: Ref)
    requires t <= |b| && InRef(b, r) && r.tx < t
    ensures r in InRefs(b, t)
  {
    if r.tx < t - 1 {
      InRefAt(b, t - 1, r);
    } else {
      assert TxRefs(t - 1, |b[t - 1].raw.ins|)[r.n] == r;
    }
  }

  lemma {:induction false} ResolvedAll(outputs: seq<OutPt>, inputs: seq<InputPt>, agg: Aggregated, b: Block)
    requires LinkedUpTo(outputs, inputs, agg, b, InRefs(b, |b|))
    ensures AllIn(b, InRefs(b, |b|)) && forall hx :: InsFor(agg, b, InRefs(b, |b|), hx)
    ensures forall txInfos :: |txInfos| == |b| && (forall t :: 0 <= t < |b| ==> txInfos[t] == InfoOf(b, t)) ==> Linked(txInfos, outputs, inputs, b)
  {
    hide OutRefs, InRefs, SpentMark;
  }

  // ----- what the result means

  /** No two inputs of the block spend the same output of the block. */
  ghost predicate SpentOnce(b: Block) {
    var ins := InRefs(b, |b|);
    forall i, j :: 0 <= i < j < |ins| && InRef(b, ins[i]) && InRef(b, ins[j]) ==>
      In(b, ins[i]) != In(b, ins[j]) || Parent(b, In(b, ins[i])) == None
  }

  /** A link names the same outpoint from both ends, and an input without one spends from outside. */
  lemma {:induction false} SameOutpoint(txInfos: seq<TxInfo>, outputs: seq<OutPt>, inputs: seq<InputPt>, b: Block, i: nat)
    requires Linked(txInfos, outputs, inputs, b) && SpendsExist(b) && Acceptable(b) && i < |inputs|
    ensures match inputs[i].parentTxOutIdx
      case Some(o) =>
        && o < |outputs| && outputs[o].txIdx < |txInfos|
        && txInfos[outputs[o].txIdx].hash == inputs[i].prevoutHash && outputs[o].outN == inputs[i].prevoutN
        && (forall t :: outputs[o].txIdx < t < |b| ==> b[t].hash != inputs[i].prevoutHash)
      case None => forall t :: 0 <= t < |b| ==> b[t].hash != inputs[i].prevoutHash
  {
    hide OutRefs, InRefs, SpendsExist, TxIndex, InsFor, SpentMark, SpentScript;
    WhereSpent(b, i);
    var r := InRefs(b, |b|)[i];
    var k := TxIndex(b, |b|, In(b, r).txHash);
    TxIndexIs(b, |b|, In(b, r).txHash);
    if k.Some? { OutRefAt(b, |b|, Ref(k.value, In(b, r).outN)); }
  }

  lemma {:induction false} ParentInjective(b: Block, i: nat, j: nat)
    requires SpendsExist(b) && Acceptable(b) && i < |InRefs(b, |b|)| && j < |InRefs(b, |b|)|
    requires AllIn(b, InRefs(b, |b|))
    requires Parent(b, In(b, InRefs(b, |b|)[i])).Some?
    requires Parent(b, In(b, InRefs(b, |b|)[i])) == Parent(b, In(b, InRefs(b, |b|)[j]))
    ensures In(b, InRefs(b, |b|)[i]) == In(b, InRefs(b, |b|)[j])
  {
    WhereSpent(b, i);
    WhereSpent(b, j);
    var p, q := In(b, InRefs(b, |b|)[i]), In(b, InRefs(b, |b|)[j]);
    var s, t := TxIndex(b, |b|, p.txHash).value, TxIndex(b, |b|, q.txHash).value;
    OutRefAt(b, |b|, Ref(s, p.outN));
    OutRefAt(b, |b|, Ref(t, q.outN));
    assert Ref(s, p.outN) == Ref(t, q.outN);
  }

  /** The links inputs -> outputs and outputs -> inputs are each other's inverse. */
  lemma {:induction false} LinksInverse(txInfos: seq<TxInfo>, outputs: seq<OutPt>, inputs: seq<InputPt>, b: Block, i: nat, o: nat)
    requires Linked(txInfos, outputs, inputs, b) && SpendsExist(b) && Acceptable(b) && SpentOnce(b) && i < |inputs| && o < |outputs|
    ensures inputs[i].parentTxOutIdx == Some(o) <==> outputs[o].spentInInputIndex == Some(i)
  {
    var ins := InRefs(b, |b|);
    hide SpendsExist, Acceptable, Parent, OutRefs, InRefs;
    assert SpentMark(outputs[o].spentInInputIndex, o, b, ins);
    if inputs[i].parentTxOutIdx == Some(o) {
      assert Parent(b, In(b, ins[i])) == Some(o);
      var j := outputs[o].spentInInputIndex.value;
      ParentInjective(b, i, j);
    }
  }

  /** Input i is the numForInputIdx-th input of its transaction. */
  lemma {:induction false} InputPosition(txInfos: seq<TxInfo>, outputs: seq<OutPt>, inputs: seq<InputPt>, b: Block, i: nat)
    requires Linked(txInfos, outputs, inputs, b) && i < |inputs|
    ensures inputs[i].txIdx < |b| && txInfos[inputs[i].txIdx].input0Index.Some?
    ensures var first := txInfos[inputs[i].txIdx].input0Index.value;
      && first <= i < first + |b[inputs[i].txIdx].raw.ins|
      && b[inputs[i].txIdx].raw.ins[i - first] == TXO(inputs[i].prevoutHash, inputs[i].prevoutN)
  {
    InRefsAre(b, |b|);
  }

  /** Output o is the outN-th output of its transaction. */
  lemma {:induction false} OutputPosition(txInfos: seq<TxInfo>, outputs: seq<OutPt>, inputs: seq<InputPt>, b: Block, o: nat)
    requires Linked(txInfos, outputs, inputs, b) && o < |outputs|
    ensures outputs[o].txIdx < |b| && txInfos[outputs[o].txIdx].output0Index == Some(o - outputs[o].outN)
    ensures outputs[o].outN < |b[outputs[o].txIdx].raw.outs| && b[outputs[o].txIdx].raw.outs[outputs[o].outN].amount == outputs[o].amount
  {
    OutRefsAre(b, |b|);
  }

  /** What is kept about each transaction: its hash, how many inputs and outputs it has, and where its
      first ones stand in the flat lists, if it has any. */
  lemma {:induction false} InfoIs(txInfos: seq<TxInfo>, outputs: seq<OutPt>, inputs: seq<InputPt>, b: Block, t: nat)
    requires Linked(txInfos, outputs, inputs, b) && t < |b|
    ensures |txInfos| == |b| && txInfos[t].hash == b[t].hash
    ensures txInfos[t].nInputs == |b[t].raw.ins| && txInfos[t].nOutputs == |b[t].raw.outs|
    ensures match txInfos[t].input0Index
      case None => b[t].raw.ins == []
      case Some(i) => i < |inputs| && inputs[i].txIdx == t && (i > 0 ==> inputs[i - 1].txIdx < t)
    ensures match txInfos[t].output0Index
      case None => b[t].raw.outs == []
      case Some(o) => o < |outputs| && outputs[o].txIdx == t && outputs[o].outN == 0
  {
    InRefsAre(b, t);
    OutRefsAre(b, t);
    if b[t].raw.ins != [] { InPlace(b, |b|, Ref(t, 0)); }
    if b[t].raw.outs != [] { OutRefAt(b, |b|, Ref(t, 0)); }
  }

  lemma {:induction false} InPlace(b: Block, t: nat, r: Ref)
    requires t <= |b| && InRef(b, r) && r.tx < t
    ensures |InRefs(b, r.tx)| + r.n < |InRefs(b, t)|
    ensures InRefs(b, t)[|InRefs(b, r.tx)| + r.n] == r
    ensures InRefs(b, r.tx) <= InRefs(b, t)
  {
    if r.tx < t - 1 { InPlace(b, t - 1, r); }
  }

  /** What fill refuses for its size: more than 2^24 outputs in any transaction, or an output number of 2^24
      or more in an input, except in the first transaction, the coinbase. */
  lemma {:induction false} TooBigIs(b: Block)
    ensures (forall t :: 0 <= t < |b| ==> !TooBig(b, t)) <==>
      && (forall t :: 0 <= t < |b| ==> |b[t].raw.outs| <= 16_777_216)
      && (forall t, n :: 1 <= t < |b| && 0 <= n < |b[t].raw.ins| ==> b[t].raw.ins[n].outN < 16_777_216)
  {
    if forall t :: 0 <= t < |b| ==> !TooBig(b, t) {
      forall t | 0 <= t < |b| ensures |b[t].raw.outs| <= 16_777_216 { assert !TooBig(b, t); }
      forall t, n | 1 <= t < |b| && 0 <= n < |b[t].raw.ins| ensures b[t].raw.ins[n].outN < 16_777_216 { assert !TooBig(b, t); }
    }
  }

  lemma {:induction false} OutTxsAre(b: Block, refs: seq<Ref>, hx: HashX, t: nat)
    requires AllOut(b, refs)
    ensures t in OutTxs(b, refs, hx) <==> exists k :: 0 <= k < |refs| && refs[k].tx == t && Out(b, refs[k]).script == Some(hx)
  {
    if refs != [] {
      var n := |refs| - 1;
      OutTxsAre(b, refs[..n], hx, t);
      if t in OutTxs(b, refs[..n], hx) {
        var k :| 0 <= k < n && refs[..n][k].tx == t && Out(b, refs[..n][k]).script == Some(hx);
        assert refs[k].tx == t;
      }
      if k :| 0 <= k < |refs| && refs[k].tx == t && Out(b, refs[k]).script == Some(hx) {
        if k < n { assert refs[..n][k].tx == t; }
      }
    }
  }

  lemma {:induction false} InTxsAre(b: Block, refs: seq<Ref>, hx: HashX, t: nat)
    requires AllIn(b, refs)
    ensures t in InTxs(b, refs, hx) <==> exists k :: 0 <= k < |refs| && refs[k].tx == t && SpentScript(b, refs[k]) == Some(hx)
  {
    hide SpentScript;
    if refs != [] {
      var n := |refs| - 1;
      InTxsAre(b, refs[..n], hx, t);
      if t in InTxs(b, refs[..n], hx) {
        var k :| 0 <= k < n && refs[..n][k].tx == t && SpentScript(b, refs[..n][k]) == Some(hx);
        assert refs[k].tx == t;
      }
      if k :| 0 <= k < |refs| && refs[k].tx == t && SpentScript(b, refs[k]) == Some(hx) {
        if k < n { assert refs[..n][k].tx == t; }
      }
    }
  }

  lemma {:induction false} TxNumsAre(txNums: seq<nat>, outTxs: set<nat>, inTxs: set<nat>, k: nat)
    requires Elems(txNums) == outTxs + inTxs
    ensures k in txNums <==> k in outTxs || k in inTxs
  {
    assert k in txNums <==> k in Elems(txNums);
  }

  /** The index of a script lists, each once and in block order, exactly the outputs to it, the inputs that
      spend such outputs of this block, and the transactions that any of these belong to. */
  lemma {:induction false} IndexIsNaive(agg: Aggregated, b: Block, hx: HashX, k: nat)
    requires Aggregates(agg, b, hx)
    ensures AllOut(b, OutRefs(b, |b|)) && AllIn(b, InRefs(b, |b|))
    ensures var ag := Get(agg, hx);
      && Increasing(ag.outs) && Increasing(ag.ins) && Increasing(ag.txNumsInvolvingHashX)
      && (k in ag.outs <==> k < |OutRefs(b, |b|)| && Out(b, OutRefs(b, |b|)[k]).script == Some(hx))
      && (k in ag.ins <==> k < |InRefs(b, |b|)| && SpentScript(b, InRefs(b, |b|)[k]) == Some(hx))
    ensures k in Get(agg, hx).txNumsInvolvingHashX <==>
      || (exists o :: 0 <= o < |OutRefs(b, |b|)| && OutRefs(b, |b|)[o].tx == k && Out(b, OutRefs(b, |b|)[o]).script == Some(hx))
      || (exists i :: 0 <= i < |InRefs(b, |b|)| && InRefs(b, |b|)[i].tx == k && SpentScript(b, InRefs(b, |b|)[i]) == Some(hx))
  {
    var all, ins := OutRefs(b, |b|), InRefs(b, |b|);
    Ascending(b, hx);
    OutsOfMember(b, all, hx, k);
    InsOfMember(b, ins, hx, k);
    OutTxsAre(b, all, hx, k);
    InTxsAre(b, ins, hx, k);
    TxNumsAre(Get(agg, hx).txNumsInvolvingHashX, OutTxs(b, all, hx), InTxs(b, ins, hx), k);
    hide OutRefs, InRefs, OutTxs, InTxs, OutsOf, InsOf, SpentScript, Out, Increasing, Elems;
  }

  /** The script that an output of the flat list pays to. */
  ghost function ScriptOf(b: Block, outputs: seq<OutPt>, o: nat): Option<HashX>
    requires o < |outputs|
  {
    var out := outputs[o];
    if out.txIdx < |b| && out.outN < |b[out.txIdx].raw.outs| then b[out.txIdx].raw.outs[out.outN].script else None
  }

  lemma {:induction false} ScriptFound(txInfos: seq<TxInfo>, outputs: seq<OutPt>, inputs: seq<InputPt>, b: Block, o: nat)
    requires Linked(txInfos, outputs, inputs, b) && o < |outputs|
    ensures |OutRefs(b, |b|)| == |outputs| && OutRef(b, OutRefs(b, |b|)[o])
    ensures ScriptOf(b, outputs, o) == Out(b, OutRefs(b, |b|)[o]).script && outputs[o].txIdx == OutRefs(b, |b|)[o].tx
  {
    hide OutRefs, InRefs;
  }

  lemma {:induction false} SpentFound(txInfos: seq<TxInfo>, outputs: seq<OutPt>, inputs: seq<InputPt>, b: Block, i: nat)
    requires Linked(txInfos, outputs, inputs, b) && i < |inputs|
    ensures |InRefs(b, |b|)| == |inputs| && InRef(b, InRefs(b, |b|)[i]) && inputs[i].txIdx == InRefs(b, |b|)[i].tx
    ensures SpentScript(b, InRefs(b, |b|)[i]) == match inputs[i].parentTxOutIdx
      case Some(o) => if o < |outputs| then ScriptOf(b, outputs, o) else None
      case None => None
  {
    var p := Parent(b, In(b, InRefs(b, |b|)[i]));
    if p.Some? && p.value < |outputs| { ScriptFound(txInfos, outputs, inputs, b, p.value); }
    hide OutRefs, InRefs, Parent;
  }

  /** The index in terms of the flat lists and their links alone: the outputs that pay to the script, the
      inputs linked to such an output, and the transactions of both. */
  lemma {:induction false} IndexByLinks(txInfos: seq<TxInfo>, outputs: seq<OutPt>, inputs: seq<InputPt>, agg: Aggregated, b: Block,
                                        hx: HashX, k: nat)
    requires Linked(txInfos, outputs, inputs, b) && Aggregates(agg, b, hx)
    ensures k in Get(agg, hx).outs <==> k < |outputs| && ScriptOf(b, outputs, k) == Some(hx)
    ensures k in Get(agg, hx).ins <==>
      k < |inputs| && inputs[k].parentTxOutIdx.Some? && inputs[k].parentTxOutIdx.value in Get(agg, hx).outs
  {
    var all, ins := OutRefs(b, |b|), InRefs(b, |b|);
    OutsOfMember(b, all, hx, k);
    InsOfMember(b, ins, hx, k);
    if k < |outputs| { ScriptFound(txInfos, outputs, inputs, b, k); }
    if k < |inputs| {
      SpentFound(txInfos, outputs, inputs, b, k);
      var p := inputs[k].parentTxOutIdx;
      if p.Some? {
        OutsOfMember(b, all, hx, p.value);
        if p.value < |outputs| { ScriptFound(txInfos, outputs, inputs, b, p.value); }
      }
    }
    hide OutRefs, InRefs, OutsOf, InsOf, OutTxs, InTxs, SpentScript, ScriptOf, Out, Increasing, Elems, ResolvedInput, SpentMark;
  }

  lemma {:induction false} TxNumsByLinks(txInfos: seq<TxInfo>, outputs: seq<OutPt>, inputs: seq<InputPt>, agg: Aggregated, b: Block,
                                         hx: HashX, t: nat)
    requires Linked(txInfos, outputs, inputs, b) && Aggregates(agg, b, hx)
    ensures t in Get(agg, hx).txNumsInvolvingHashX <==>
      || (exists o :: o in Get(agg, hx).outs && o < |outputs| && outputs[o].txIdx == t)
      || (exists i :: i in Get(agg, hx).ins && i < |inputs| && inputs[i].txIdx == t)
  {
    var all, ins := OutRefs(b, |b|), InRefs(b, |b|);
    OutTxsAre(b, all, hx, t);
    InTxsAre(b, ins, hx, t);
    TxNumsAre(Get(agg, hx).txNumsInvolvingHashX, OutTxs(b, all, hx), InTxs(b, ins, hx), t);
    forall o: nat | o < |outputs|
      ensures o in Get(agg, hx).outs <==> Out(b, all[o]).script == Some(hx)
      ensures outputs[o].txIdx == all[o].tx
    {
      OutsOfMember(b, all, hx, o);
      ScriptFound(txInfos, outputs, inputs, b, o);
    }
    forall i: nat | i < |inputs|
      ensures i in Get(agg, hx).ins <==> SpentScript(b, ins[i]) == Some(hx)
      ensures inputs[i].txIdx == ins[i].tx
    {
      InsOfMember(b, ins, hx, i);
      SpentFound(txInfos, outputs, inputs, b, i);
    }
    hide OutRefs, InRefs, OutsOf, InsOf, OutTxs, InTxs, SpentScript, Out, Increasing, Elems, ResolvedInput, SpentMark;
  }
}
