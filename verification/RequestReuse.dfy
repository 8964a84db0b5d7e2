/** What can go wrong when a request id is used again, and exactly when. */
module RequestReuse {
  import opened Wrappers
  import opened RequestSpec
  import opened RequestProofs

  // ----- runs with any use of ids

  ghost predicate Plausible(s: Sys, es: seq<Event>)
    decreases |es|
  {
    es == [] || (Enabled(s, es[0]) && Faithful(s, es[0]) && Plausible(Step(s, es[0]), es[1..]))
  }

  ghost function After(s: Sys, es: seq<Event>): Sys
    requires Plausible(s, es)
    decreases |es|
  {
    if es == [] then s else After(Step(s, es[0]), es[1..])
  }

  lemma {:induction false} Prepend(s: Sys, e: Event, t: Sys, es: seq<Event>)
    requires Enabled(s, e) && Faithful(s, e) && Step(s, e) == t && Plausible(t, es)
    ensures Plausible(s, [e] + es) && After(s, [e] + es) == After(t, es)
  {
    hide Step, Enabled, Faithful;
    assert ([e] + es)[1..] == es;
  }

  /** What holds of every state, however ids are used. */
  ghost predicate Sound(s: Sys) {
    && (forall rid :: rid in s.table ==> s.table[rid] < |s.ctxs| && s.ctxs[s.table[rid]].rid == rid)
    && (forall i :: i in s.sent ==> i < |s.ctxs|)
    && (forall i :: 0 <= i < |s.ctxs| && s.ctxs[i].queued ==> !s.ctxs[i].installed)
    && (forall i :: 0 <= i < |s.ctxs| ==> |s.ctxs[i].calls| == (if s.ctxs[i].replied then 1 else 0))
  }

  /** How one context changes in a step that does not enter it in the table. */
  ghost predicate Steady(c: Ctx, c': Ctx) {
    && c'.rid == c.rid && (c'.queued ==> c.queued) && (c.destroyed ==> c'.destroyed) && (c'.installed ==> c.installed)
    && (|c.calls| == (if c.replied then 1 else 0) ==> |c'.calls| == if c'.replied then 1 else 0)
  }

  lemma {:induction false} EmitAlone(c: Ctx, sig: Signal)
    ensures Steady(c, Emit(c, sig))
    ensures c.connected && !c.inSlot ==> Emit(c, sig).signals != []
  {
  }

  lemma {:induction false} LoseSteady(c: Ctx, bd: Bd)
    ensures Steady(c, LoseCtx(c, bd))
    ensures LoseCtx(c, bd).signals != [] || LoseCtx(c, bd) == c || !c.connected
  {
  }

  lemma {:induction false} TimeoutSteady(c: Ctx, now: int)
    ensures Steady(c, TimeoutCtx(c, now))
    ensures TimeoutCtx(c, now).signals != [] || TimeoutCtx(c, now) == c || !c.connected
  {
  }

  lemma {:induction false} DeliverSteady(c: Ctx)
    requires c.signals != []
    ensures Steady(c, DeliverCtx(c))
  {
  }

  lemma {:induction false} ManageSteady(c: Ctx, good: Option<Bd>, now: int, taken: bool)
    ensures good.None? || taken ==> Steady(c, ManageCtx(c, good, now, taken))
    ensures var c' := ManageCtx(c, good, now, taken);
      c'.rid == c.rid && !c'.queued && c'.destroyed == c.destroyed && c'.calls == c.calls && c'.replied == c.replied
  {
  }

  ghost predicate Moves(s: Sys, e: Event, i: nat, c: Ctx, c': Ctx) {
    && c'.rid == c.rid && (c'.queued ==> c.queued) && (c.destroyed ==> c'.destroyed)
    && (c'.installed ==> !c'.queued || c.installed)
    && (c'.installed ==> c.installed || (e.Manage? && e.i == i && c.queued && e.good.Some? && !Taken(s, c.rid)))
    && (|c.calls| == (if c.replied then 1 else 0) ==> |c'.calls| == if c'.replied then 1 else 0)
  }

  lemma {:induction false} CtxMoves(s: Sys, e: Event, i: nat)
    requires Enabled(s, e) && i < |s.ctxs|
    ensures |Step(s, e).ctxs| >= |s.ctxs| && Moves(s, e, i, s.ctxs[i], Step(s, e).ctxs[i])
  {
    hide Emit, LoseCtx, TimeoutCtx, DeliverCtx, ManageCtx, InTable, Alive;
    var c := s.ctxs[i];
    match e
    case Manage(j, good, now) => ManageSteady(c, good, now, Taken(s, c.rid));
    case Receive(msg, o) => if Taken(s, msg.rid) && s.table[msg.rid] == i { EmitAlone(c, msg); }
    case LostBitcoinD(bd) => LoseSteady(c, bd);
    case CheckTimeouts(now) => TimeoutSteady(c, now);
    case Deliver(j) => if j == i { DeliverSteady(c); }
    case _ =>
  }

  lemma {:induction false} NewCtxs(s: Sys, e: Event, i: nat)
    requires Enabled(s, e) && |s.ctxs| <= i < |Step(s, e).ctxs|
    ensures i == |s.ctxs| && !Step(s, e).ctxs[i].installed && Step(s, e).ctxs[i].calls == [] && !Step(s, e).ctxs[i].replied
  {
  }

  lemma {:induction false} TableStays(s: Sys, e: Event, rid: Id)
    requires Enabled(s, e) && rid in Step(s, e).table
    ensures (rid in s.table && Step(s, e).table[rid] == s.table[rid])
         || (e.Manage? && rid == s.ctxs[e.i].rid && Step(s, e).table[rid] == e.i)
  {
  }

  lemma {:induction false} SoundStays(s: Sys, e: Event)
    requires Sound(s) && Enabled(s, e)
    ensures Sound(Step(s, e))
  {
    var s' := Step(s, e);
    forall i | 0 <= i < |s'.ctxs|
      ensures i < |s.ctxs| ==> Moves(s, e, i, s.ctxs[i], s'.ctxs[i])
      ensures i >= |s.ctxs| ==> !s'.ctxs[i].installed && s'.ctxs[i].calls == [] && !s'.ctxs[i].replied
    {
      if i < |s.ctxs| { CtxMoves(s, e, i); } else { NewCtxs(s, e, i); }
    }
    forall rid | rid in s'.table ensures s'.table[rid] < |s.ctxs| && s.ctxs[s'.table[rid]].rid == rid { TableStays(s, e, rid); }
    NoneLost(s, e);
    hide Step;
  }

  lemma {:induction false} NoneLost(s: Sys, e: Event)
    requires Enabled(s, e)
    ensures |Step(s, e).ctxs| >= |s.ctxs|
  {
  }

  lemma {:induction false} SoundAlways(s: Sys, es: seq<Event>)
    requires Sound(s) && Plausible(s, es)
    ensures Sound(After(s, es))
    decreases |es|
  {
    hide Step, Enabled, Faithful, Sound;
    if es != [] {
      SoundStays(s, es[0]);
      SoundAlways(Step(s, es[0]), es[1..]);
    }
  }

  // ----- a request that just got into the table

  ghost predicate Waiting(s: Sys, i: nat) {
    && InTable(s, i) && i < |s.ctxs|
    && s.ctxs[i].connected && s.ctxs[i].installed && !s.ctxs[i].queued && !s.ctxs[i].inSlot && !s.ctxs[i].replied
    && s.ctxs[i].signals == [] && s.ctxs[i].calls == []
  }

  /** Another request with the same id was in the table, and its object is still there. */
  ghost predicate Rival(s: Sys, i: nat, j: nat) {
    && i < |s.ctxs| && j < |s.ctxs| && j != i && s.ctxs[j].rid == s.ctxs[i].rid
    && s.ctxs[j].installed && !s.ctxs[j].destroyed
  }

  /** bitcoind has still to answer another request with the same id. */
  ghost predicate Owed(s: Sys, i: nat, j: nat) {
    i < |s.ctxs| && j < |s.ctxs| && j != i && s.ctxs[j].rid == s.ctxs[i].rid && j in s.sent
  }

  lemma {:induction false} CurrentHasNeither(s: Sys, i: nat, j: nat)
    requires Inv(s) && Waiting(s, i)
    ensures !Rival(s, i, j) && !Owed(s, i, j)
  {
    assert CtxInv(s.ctxs[i], i, InTable(s, i), i in s.sent, s.log);
    if j < |s.ctxs| && j != i && s.ctxs[j].rid == s.ctxs[i].rid {
      OnlyCurrent(s, i, j);
      assert CtxInv(s.ctxs[j], j, InTable(s, j), j in s.sent, s.log);
      hide CtxInv;
      if i < j { OnlyCurrent(s, i, j); }
    }
  }

  /** After any run that uses ids again only when earlier requests with them are past, there is neither. */
  lemma {:induction false} FreshMeansNeither(es: seq<Event>, i: nat, j: nat)
    requires Legal(INITIAL, es) && Waiting(Run(INITIAL, es), i)
    ensures !Rival(Run(INITIAL, es), i, j) && !Owed(Run(INITIAL, es), i, j)
  {
    hide Legal, Run, Waiting, Rival, Owed;
    RunKeeps(INITIAL, es);
    hide Inv;
    CurrentHasNeither(Run(INITIAL, es), i, j);
  }

  // ----- requests that are never answered

  /** Nothing can answer request i any more, though its sender waits. */
  ghost predicate Stranded(s: Sys, i: nat) {
    && i < |s.ctxs|
    && s.ctxs[i].calls == [] && s.ctxs[i].signals == [] && !s.ctxs[i].queued && !s.ctxs[i].inSlot
    && (forall rid :: rid in s.table ==> s.table[rid] != i)
  }

  lemma {:induction false} StrandedForGood(s: Sys, i: nat, e: Event)
    requires Stranded(s, i) && Enabled(s, e)
    ensures Stranded(Step(s, e), i)
  {
  }

  lemma {:induction false} StrandedStays(s: Sys, i: nat, es: seq<Event>)
    requires Stranded(s, i) && Plausible(s, es)
    ensures Stranded(After(s, es), i)
    decreases |es|
  {
    hide Step, Stranded, Enabled, Faithful;
    if es != [] {
      StrandedForGood(s, i, es[0]);
      StrandedStays(Step(s, es[0]), i, es[1..]);
    }
  }

  ghost predicate Outlives(es: seq<Event>, i: nat) {
    forall k :: 0 <= k < |es| ==> es[k] != SenderDies(i)
  }

  ghost predicate StrandedAfter(s: Sys, es: seq<Event>, i: nat) {
    Plausible(s, es) && Outlives(es, i) && Stranded(After(s, es), i)
  }

  /** Answered, about to be, or in the table with nobody to take the entry away. */
  ghost predicate Safe(s: Sys, i: nat) {
    && i < |s.ctxs|
    && (s.ctxs[i].calls != [] || s.ctxs[i].signals != []
        || (InTable(s, i) && s.ctxs[i].connected && !s.ctxs[i].inSlot && forall j: nat :: !Rival(s, i, j)))
  }

  lemma {:induction false} NoNewRival(s: Sys, e: Event, i: nat, j: nat)
    requires Sound(s) && Enabled(s, e) && i < |s.ctxs| && Taken(s, s.ctxs[i].rid) && s.table[s.ctxs[i].rid] == i
    requires !s.ctxs[i].queued && !Rival(s, i, j)
    ensures i < |Step(s, e).ctxs| && !Rival(Step(s, e), i, j)
  {
    NoneLost(s, e);
    CtxMoves(s, e, i);
    if j < |s.ctxs| { CtxMoves(s, e, j); } else if j < |Step(s, e).ctxs| { NewCtxs(s, e, j); }
    hide Step;
  }

  /** The waiting request itself, while nobody takes its entry away. */
  lemma {:induction false} WaitsOrGets(s: Sys, e: Event, i: nat)
    requires Sound(s) && Enabled(s, e) && e != SenderDies(i) && InTable(s, i) && i < |s.ctxs|
    requires s.ctxs[i].connected && !s.ctxs[i].inSlot && !s.ctxs[i].queued && s.ctxs[i].signals == []
    requires e.Destroy? ==> !Rival(s, i, e.dead)
    ensures var s' := Step(s, e);
      i < |s'.ctxs| && (s'.ctxs[i].signals != [] || (InTable(s', i) && s'.ctxs[i].connected && !s'.ctxs[i].inSlot))
  {
    var c := s.ctxs[i];
    assert Taken(s, c.rid) && Alive(c);
    hide Emit, LoseCtx, TimeoutCtx, DeliverCtx, Sound;
    match e
    case Manage(j, good, now) => if j != i { assert s.ctxs[j].rid == c.rid ==> Taken(s, s.ctxs[j].rid); }
    case Receive(msg, o) => EmitAlone(c, msg);
    case LostBitcoinD(bd) => LoseSteady(c, bd);
    case CheckTimeouts(now) => TimeoutSteady(c, now);
    case _ =>
  }

  lemma {:induction false} HasItsAnswer(s: Sys, e: Event, i: nat)
    requires Sound(s) && Enabled(s, e) && e != SenderDies(i) && i < |s.ctxs|
    requires s.ctxs[i].calls != [] || s.ctxs[i].signals != []
    ensures i < |Step(s, e).ctxs| && (Step(s, e).ctxs[i].calls != [] || Step(s, e).ctxs[i].signals != [])
  {
  }

  lemma {:induction false} SafeStep(s: Sys, e: Event, i: nat)
    requires Sound(s) && Safe(s, i) && Enabled(s, e) && e != SenderDies(i)
    requires !s.ctxs[i].queued
    ensures Safe(Step(s, e), i) && !Step(s, e).ctxs[i].queued
  {
    CtxMoves(s, e, i);
    if s.ctxs[i].calls == [] && s.ctxs[i].signals == [] {
      WaitsOrGets(s, e, i);
      assert Taken(s, s.ctxs[i].rid);
      hide Step;
      forall j: nat ensures !Rival(Step(s, e), i, j) { NoNewRival(s, e, i, j); }
    } else {
      HasItsAnswer(s, e, i);
      hide Step;
    }
  }

  lemma {:induction false} SafeStays(s: Sys, es: seq<Event>, i: nat)
    requires Sound(s) && Safe(s, i) && !s.ctxs[i].queued && Plausible(s, es) && Outlives(es, i)
    ensures Safe(After(s, es), i)
    decreases |es|
  {
    hide Step, Enabled, Faithful, Sound, Rival, InTable;
    if es != [] {
      SafeStep(s, es[0], i);
      SoundStays(s, es[0]);
      assert forall k :: 0 <= k < |es[1..]| ==> es[1..][k] == es[k + 1];
      SafeStays(Step(s, es[0]), es[1..], i);
    }
  }

  /** A rival that goes away takes the table entry with it. */
  lemma {:induction false} RivalStrands(s: Sys, i: nat, j: nat) returns (es: seq<Event>)
    requires Sound(s) && Waiting(s, i) && Rival(s, i, j)
    ensures Plausible(s, es) && Outlives(es, i) && Stranded(After(s, es), i)
  {
    var s1 := if s.ctxs[j].inSlot then Step(s, Disconnect(j)) else s;
    var s2 := Step(s1, SenderDies(j));
    var s3 := Step(s2, Destroy(j));
    assert Stranded(s3, i);
    Prepend(s2, Destroy(j), s3, []);
    Prepend(s1, SenderDies(j), s2, [Destroy(j)]);
    es := [SenderDies(j)] + [Destroy(j)];
    if s.ctxs[j].inSlot {
      Prepend(s, Disconnect(j), s1, es);
      es := [Disconnect(j)] + es;
    }
  }

  lemma {:induction false} RivalDecides(s: Sys, i: nat)
    requires Sound(s) && Waiting(s, i)
    ensures (exists es :: StrandedAfter(s, es, i)) <==> (exists j: nat :: Rival(s, i, j))
  {
    if j: nat :| Rival(s, i, j) {
      var es := RivalStrands(s, i, j);
      assert StrandedAfter(s, es, i);
    } else {
      assert Safe(s, i);
      forall es ensures !StrandedAfter(s, es, i) {
        if Plausible(s, es) && Outlives(es, i) { SafeStays(s, es, i); }
      }
    }
  }

  /** After any run, a request in the table can be left unanswered for ever, its sender living on, if and only
      if another request with its id was in the table too and has an object that is still to be deleted. */
  lemma {:induction false} StrandedIffRival(es0: seq<Event>, i: nat)
    requires Plausible(INITIAL, es0) && Waiting(After(INITIAL, es0), i)
    ensures (exists es :: StrandedAfter(After(INITIAL, es0), es, i)) <==> (exists j: nat :: Rival(After(INITIAL, es0), i, j))
  {
    hide Plausible, After, Waiting, StrandedAfter, Rival;
    SoundAlways(INITIAL, es0);
    RivalDecides(After(INITIAL, es0), i);
  }

  /** Such a run from the start, with no sender dying: the second request with the id is submitted before
      the object of the first, which was answered, is deleted. */
  lemma {:induction false} StrandedFromStart(rid: Id, bd: Bd, payload: Payload) returns (es: seq<Event>)
    ensures Plausible(INITIAL, es) && Stranded(After(INITIAL, es), 1)
    ensures forall e :: e in es ==> !e.SenderDies?
  {
    var msg := Results(rid, payload);
    var s1 := Step(INITIAL, Submit(rid, 1));
    var s2 := Step(s1, Manage(0, Some(bd), 0));
    var s3 := Step(s2, Receive(msg, 0));
    var s4 := Step(s3, Deliver(0));
    var s5 := Step(s4, Disconnect(0));
    es := StrandedTail(s5, rid, bd);
    hide Step, Plausible, After, Stranded;
    Prepend(s4, Disconnect(0), s5, es);
    es := [Disconnect(0)] + es;
    Prepend(s3, Deliver(0), s4, es);
    es := [Deliver(0)] + es;
    Prepend(s2, Receive(msg, 0), s3, es);
    es := [Receive(msg, 0)] + es;
    Prepend(s1, Manage(0, Some(bd), 0), s2, es);
    es := [Manage(0, Some(bd), 0)] + es;
    Prepend(INITIAL, Submit(rid, 1), s1, es);
    es := [Submit(rid, 1)] + es;
  }

  lemma {:induction false} StrandedTail(s: Sys, rid: Id, bd: Bd) returns (es: seq<Event>)
    requires |s.ctxs| == 1 && s.ctxs[0].rid == rid && !Alive(s.ctxs[0]) && !s.ctxs[0].destroyed && s.ctxs[0].installed
    requires s.table == map[]
    ensures Plausible(s, es) && Stranded(After(s, es), 1)
    ensures forall e :: e in es ==> !e.SenderDies?
  {
    var s1 := Step(s, Submit(rid, 1));
    var s2 := Step(s1, Manage(1, Some(bd), 0));
    var s3 := Step(s2, Destroy(0));
    assert Stranded(s3, 1);
    hide Step, Plausible, After, Stranded;
    EmptyRun(s3);
    Prepend(s2, Destroy(0), s3, []);
    es := [Destroy(0)] + [];
    Prepend(s1, Manage(1, Some(bd), 0), s2, es);
    es := [Manage(1, Some(bd), 0)] + es;
    Prepend(s, Submit(rid, 1), s1, es);
    es := [Submit(rid, 1)] + es;
  }

  lemma {:induction false} EmptyRun(s: Sys)
    ensures Plausible(s, []) && After(s, []) == s
  {
  }

  // ----- requests that get another request's answer

  /** bitcoind's answer to request o is passed to the sender of request i. */
  ghost predicate Misanswers(s: Sys, msg: Signal, o: nat, i: nat) {
    && Enabled(s, Receive(msg, o)) && Faithful(s, Receive(msg, o)) && o != i
    && Taken(s, msg.rid) && s.table[msg.rid] == i
  }

  ghost predicate MisanswersAfter(s: Sys, es: seq<Event>, msg: Signal, o: nat, i: nat) {
    Plausible(s, es) && Misanswers(After(s, es), msg, o, i)
  }

  /** While request i waits in the table, no other answer with its id can come. */
  ghost predicate Undisputed(s: Sys, i: nat) {
    && i < |s.ctxs| && !s.ctxs[i].queued
    && (InTable(s, i) && Alive(s.ctxs[i]) ==> forall o: nat :: !Owed(s, i, o))
  }

  lemma {:induction false} SentStays(s: Sys, e: Event, o: nat)
    requires Enabled(s, e) && o in Step(s, e).sent
    ensures o in s.sent || (e.Manage? && o == e.i && e.good.Some? && !Taken(s, s.ctxs[o].rid))
  {
    hide ManageCtx, LoseCtx, TimeoutCtx, DeliverCtx, Emit;
  }

  /** A request that has left the table, or is done with, does not come back. */
  lemma {:induction false} StaysOut(s: Sys, e: Event, i: nat)
    requires Sound(s) && Enabled(s, e) && i < |s.ctxs| && !s.ctxs[i].queued
    requires InTable(Step(s, e), i) && Alive(Step(s, e).ctxs[i])
    ensures InTable(s, i) && Alive(s.ctxs[i])
  {
  }

  lemma {:induction false} UndisputedStep(s: Sys, e: Event, i: nat)
    requires Sound(s) && Undisputed(s, i) && Enabled(s, e)
    ensures Undisputed(Step(s, e), i)
  {
    var s' := Step(s, e);
    CtxMoves(s, e, i);
    if InTable(s', i) && Alive(s'.ctxs[i]) {
      StaysOut(s, e, i);
      forall o: nat ensures !Owed(s', i, o) {
        assert !Owed(s, i, o);
        if o in s'.sent {
          SentStays(s, e, o);
          if o < |s.ctxs| { CtxMoves(s, e, o); }
        }
        hide Step;
      }
    }
    hide Step;
  }

  lemma {:induction false} UndisputedStays(s: Sys, es: seq<Event>, i: nat)
    requires Sound(s) && Undisputed(s, i) && Plausible(s, es)
    ensures Undisputed(After(s, es), i) && Sound(After(s, es))
    decreases |es|
  {
    hide Step, Undisputed, Enabled, Faithful, Sound;
    if es != [] {
      UndisputedStep(s, es[0], i);
      SoundStays(s, es[0]);
      UndisputedStays(Step(s, es[0]), es[1..], i);
    }
  }

  lemma {:induction false} NotMisanswered(s: Sys, msg: Signal, o: nat, i: nat)
    requires Sound(s) && Undisputed(s, i)
    ensures !Misanswers(s, msg, o, i)
  {
    assert InTable(s, i) && Alive(s.ctxs[i]) ==> !Owed(s, i, o);
  }

  lemma {:induction false} OwedDecides(s: Sys, i: nat, payload: Payload)
    requires Sound(s) && Waiting(s, i)
    ensures (exists es, msg, o: nat :: MisanswersAfter(s, es, msg, o, i)) <==> (exists o: nat :: Owed(s, i, o))
  {
    if o: nat :| Owed(s, i, o) {
      var msg := Results(s.ctxs[i].rid, payload);
      var es: seq<Event> := [];
      assert Plausible(s, es) && After(s, es) == s;
      assert MisanswersAfter(s, es, msg, o, i);
    } else {
      forall es, msg, o: nat ensures !MisanswersAfter(s, es, msg, o, i) {
        if Plausible(s, es) {
          UndisputedStays(s, es, i);
          NotMisanswered(After(s, es), msg, o, i);
        }
      }
    }
  }

  /** After any run, a request in the table can be given the answer to another one if and only if bitcoind
      still owes an answer to another request with its id. */
  lemma {:induction false} MisansweredIffOwed(es0: seq<Event>, i: nat, payload: Payload)
    requires Plausible(INITIAL, es0) && Waiting(After(INITIAL, es0), i)
    ensures (exists es, msg, o: nat :: MisanswersAfter(After(INITIAL, es0), es, msg, o, i)) <==>
            (exists o: nat :: Owed(After(INITIAL, es0), i, o))
  {
    hide Plausible, After, Waiting, MisanswersAfter, Owed;
    SoundAlways(INITIAL, es0);
    OwedDecides(After(INITIAL, es0), i, payload);
  }

  /** Such a run from the start: the first request times out and its object is deleted, its id is used again,
      and bitcoind has not answered it yet. */
  lemma {:induction false} OwedFromStart(rid: Id, bd: Bd) returns (es: seq<Event>)
    ensures Plausible(INITIAL, es) && Sound(After(INITIAL, es)) && Waiting(After(INITIAL, es), 1) && Owed(After(INITIAL, es), 1, 0)
    ensures forall j: nat :: !Rival(After(INITIAL, es), 1, j)
    ensures forall e :: e in es ==> !e.SenderDies?
  {
    var s1 := Step(INITIAL, Submit(rid, 1));
    var s2 := Step(s1, Manage(0, Some(bd), 0));
    var s3 := Step(s2, CheckTimeouts(5));
    es := OwedMiddle(s3, rid, bd);
    hide Step, Plausible, After, Sound, Waiting, Rival, Owed;
    Prepend(s2, CheckTimeouts(5), s3, es);
    es := [CheckTimeouts(5)] + es;
    Prepend(s1, Manage(0, Some(bd), 0), s2, es);
    es := [Manage(0, Some(bd), 0)] + es;
    Prepend(INITIAL, Submit(rid, 1), s1, es);
    es := [Submit(rid, 1)] + es;
  }

  /** The timeout has been signalled: it is delivered and the object goes. */
  lemma {:induction false} OwedMiddle(s: Sys, rid: Id, bd: Bd) returns (es: seq<Event>)
    requires |s.ctxs| == 1 && s.table == map[rid := 0] && s.sent == {0}
    requires var c := s.ctxs[0];
      c.rid == rid && c.signals == [Failed(rid, TimedOut)] && c.installed && !c.destroyed && !c.queued && !c.inSlot && !c.replied && c.calls == []
    ensures Plausible(s, es) && Sound(After(s, es)) && Waiting(After(s, es), 1) && Owed(After(s, es), 1, 0)
    ensures forall j: nat :: !Rival(After(s, es), 1, j)
    ensures forall e :: e in es ==> !e.SenderDies?
  {
    var s1 := Step(s, Deliver(0));
    var s2 := Step(s1, Disconnect(0));
    var s3 := Step(s2, Destroy(0));
    OwedTail(s3, rid, bd);
    hide Step, Plausible, After, Sound, Waiting, Rival, Owed;
    es := [Submit(rid, 1), Manage(1, Some(bd), 0)];
    Prepend(s2, Destroy(0), s3, es);
    es := [Destroy(0)] + es;
    Prepend(s1, Disconnect(0), s2, es);
    es := [Disconnect(0)] + es;
    Prepend(s, Deliver(0), s1, es);
    es := [Deliver(0)] + es;
  }

  lemma {:induction false} OwedTail(s: Sys, rid: Id, bd: Bd)
    requires |s.ctxs| == 1 && s.ctxs[0].rid == rid && s.ctxs[0].destroyed && !s.ctxs[0].queued && |s.ctxs[0].calls| == 1 && s.ctxs[0].replied
    requires s.table == map[] && s.sent == {0}
    ensures var es := [Submit(rid, 1), Manage(1, Some(bd), 0)];
      && Plausible(s, es) && Sound(After(s, es)) && Waiting(After(s, es), 1) && Owed(After(s, es), 1, 0)
      && (forall j: nat :: !Rival(After(s, es), 1, j))
  {
    var s1 := Step(s, Submit(rid, 1));
    var s2 := Step(s1, Manage(1, Some(bd), 0));
    assert Sound(s2) && Waiting(s2, 1) && Owed(s2, 1, 0) && forall j: nat :: !Rival(s2, 1, j);
    EmptyRun(s2);
    Prepend(s1, Manage(1, Some(bd), 0), s2, []);
    assert [Manage(1, Some(bd), 0)] + [] == [Manage(1, Some(bd), 0)];
    Prepend(s, Submit(rid, 1), s1, [Manage(1, Some(bd), 0)]);
    assert [Submit(rid, 1)] + [Manage(1, Some(bd), 0)] == [Submit(rid, 1), Manage(1, Some(bd), 0)];
  }
}
