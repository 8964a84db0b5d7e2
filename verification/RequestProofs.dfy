/**
  Every request is answered exactly once, whatever the interleaving, as long as an id is used again only when
  all earlier requests with it are past.
*/
module RequestProofs {
  import opened Wrappers
  import opened RequestSpec

  // ----- the invariant

  /** Answered at most once; and while unanswered, an answer is still on its way to the sender. */
  ghost predicate CtxInv(c: Ctx, i: nat, inTable: bool, sent: bool, log: set<(nat, Signal)>) {
    && |c.calls| == (if c.replied then 1 else 0)
    && (c.inSlot ==> c.replied)
    && (!c.replied && !c.senderGone ==> c.signals != [] || (c.connected && (c.queued || inTable)))
    && (!c.replied && !c.senderGone && c.timedOut ==> c.signals != [])
    && (c.queued ==> !inTable && !c.installed && c.signals == [] && !c.replied)
    && (inTable ==> c.installed && !c.destroyed) && (sent ==> c.installed)
    && (c.destroyed ==> !Alive(c)) && TimesOutOnce(c)
    && Genuine(i, c.rid, c.signals, log) && Genuine(i, c.rid, c.calls, log)
  }

  predicate IsTimeout(sig: Signal) {
    sig.Failed? && sig.reason == TimedOut
  }

  /** At most one timeout is pending, and only for a request that has been flagged. */
  ghost predicate TimesOutOnce(c: Ctx) {
    && (!c.timedOut ==> forall k :: 0 <= k < |c.signals| ==> !IsTimeout(c.signals[k]))
    && (forall j, k :: 0 <= j < k < |c.signals| ==> !IsTimeout(c.signals[j]) || !IsTimeout(c.signals[k]))
  }

  /** Signals are about this request, and replies among them are bitcoind's answer to this very request. */
  ghost predicate Genuine(i: nat, rid: Id, sigs: seq<Signal>, log: set<(nat, Signal)>) {
    forall k :: 0 <= k < |sigs| ==> sigs[k].rid == rid && (sigs[k].Failed? || (i, sigs[k]) in log)
  }

  /** Of several requests with one id all but the last are past. */
  ghost predicate Distinct(s: Sys) {
    forall i, j :: 0 <= i < j < |s.ctxs| && s.ctxs[i].rid == s.ctxs[j].rid ==> Past(s.ctxs[i], i, s.sent)
  }

  ghost predicate TableInv(s: Sys) {
    && (forall rid :: rid in s.table ==> s.table[rid] < |s.ctxs| && s.ctxs[s.table[rid]].rid == rid)
    && (forall i :: i in s.sent ==> i < |s.ctxs|)
  }

  ghost predicate Inv(s: Sys) {
    && Distinct(s) && TableInv(s)
    && forall i :: 0 <= i < |s.ctxs| ==> CtxInv(s.ctxs[i], i, InTable(s, i), i in s.sent, s.log)
  }

  // ----- one context at a time

  lemma {:induction false} EmitKeeps(c: Ctx, i: nat, sent: bool, sent': bool, inTable': bool, sig: Signal, log: set<(nat, Signal)>)
    requires CtxInv(c, i, true, sent, log) && sig.rid == c.rid && (sig.Failed? || (i, sig) in log) && !IsTimeout(sig)
    requires Alive(c) && (sent' ==> sent)
    ensures CtxInv(Emit(c, sig), i, inTable', sent', log)
  {
  }

  lemma {:induction false} ManageCtxKeeps(c: Ctx, i: nat, good: Option<Bd>, now: int, log: set<(nat, Signal)>)
    requires CtxInv(c, i, false, false, log) && c.queued
    ensures CtxInv(ManageCtx(c, good, now, false), i, good.Some?, good.Some?, log)
  {
  }

  lemma {:induction false} LogGrows(c: Ctx, i: nat, inTable: bool, sent: bool, sent': bool, log: set<(nat, Signal)>, log': set<(nat, Signal)>)
    requires CtxInv(c, i, inTable, sent, log) && log <= log' && (sent' ==> sent)
    ensures CtxInv(c, i, inTable, sent', log')
  {
  }

  // ----- each event

  /** A request that is not past is the only one with its id that matters to the table and to bitcoind. */
  lemma {:induction false} OnlyCurrent(s: Sys, i: nat, j: nat)
    requires Inv(s) && i < |s.ctxs| && j < |s.ctxs| && i != j && s.ctxs[i].rid == s.ctxs[j].rid
    requires !Past(s.ctxs[i], i, s.sent)
    ensures !InTable(s, j) && j !in s.sent
  {
    hide Genuine, TimesOutOnce, Alive;
    assert CtxInv(s.ctxs[j], j, InTable(s, j), j in s.sent, s.log);
    assert j < i;
  }

  lemma {:induction false} SubmitKeeps(s: Sys, c: Ctx, log': set<(nat, Signal)>)
    requires Inv(s) && s.log <= log' && CtxInv(c, |s.ctxs|, false, false, log')
    requires forall i :: 0 <= i < |s.ctxs| && s.ctxs[i].rid == c.rid ==> Past(s.ctxs[i], i, s.sent)
    ensures Inv(Sys(s.ctxs + [c], s.table, s.sent, log'))
  {
    hide CtxInv, Past;
    var s' := Sys(s.ctxs + [c], s.table, s.sent, log');
    forall i | 0 <= i < |s'.ctxs| ensures CtxInv(s'.ctxs[i], i, InTable(s', i), i in s'.sent, s'.log) {
      if i < |s.ctxs| { LogGrows(s.ctxs[i], i, InTable(s, i), i in s.sent, i in s.sent, s.log, log'); }
    }
  }

  /** A step that changes one context, and perhaps its own entries in the tables. */
  lemma {:induction false} OneChanges(s: Sys, i: nat, c: Ctx, table': map<Id, nat>, sent': set<nat>, log': set<(nat, Signal)>)
    requires Inv(s) && i < |s.ctxs| && c.rid == s.ctxs[i].rid && s.log <= log'
    requires table' == s.table || ((table' == s.table - {c.rid} || table' == s.table[c.rid := i]) && !Past(s.ctxs[i], i, s.sent))
    requires sent' == s.sent || sent' == s.sent - {i} || (sent' == s.sent + {i} && !Past(s.ctxs[i], i, s.sent))
    requires Past(s.ctxs[i], i, s.sent) ==> Past(c, i, sent')
    requires CtxInv(c, i, c.rid in table' && table'[c.rid] == i, i in sent', log')
    ensures Inv(Sys(s.ctxs[i := c], table', sent', log'))
  {
    hide CtxInv;
    var s' := Sys(s.ctxs[i := c], table', sent', log');
    forall j | 0 <= j < |s'.ctxs| ensures CtxInv(s'.ctxs[j], j, InTable(s', j), j in s'.sent, s'.log) {
      if j != i {
        if s.ctxs[j].rid == c.rid && !Past(s.ctxs[i], i, s.sent) { OnlyCurrent(s, i, j); }
        assert InTable(s', j) == InTable(s, j);
        LogGrows(s.ctxs[j], j, InTable(s, j), j in s.sent, j in s.sent, s.log, log');
      }
    }
    DistinctStays(s, i, c, sent');
  }

  lemma {:induction false} DistinctStays(s: Sys, i: nat, c: Ctx, sent': set<nat>)
    requires Distinct(s) && i < |s.ctxs| && c.rid == s.ctxs[i].rid
    requires sent' == s.sent || sent' == s.sent - {i} || (sent' == s.sent + {i} && !Past(s.ctxs[i], i, s.sent))
    requires Past(s.ctxs[i], i, s.sent) ==> Past(c, i, sent')
    ensures Distinct(Sys(s.ctxs[i := c], s.table, sent', s.log))
  {
  }

  lemma {:induction false} StepManage(s: Sys, i: nat, good: Option<Bd>, now: int)
    requires Inv(s) && Enabled(s, Manage(i, good, now))
    ensures Inv(Step(s, Manage(i, good, now)))
  {
    var c := s.ctxs[i];
    assert CtxInv(c, i, InTable(s, i), i in s.sent, s.log);
    if c.rid in s.table && s.table[c.rid] != i { OnlyCurrent(s, i, s.table[c.rid]); }
    assert !Taken(s, c.rid);
    ManageCtxKeeps(c, i, good, now, s.log);
    hide CtxInv;
    var table' := if good.Some? then s.table[c.rid := i] else s.table;
    var sent' := if good.Some? then s.sent + {i} else s.sent;
    OneChanges(s, i, ManageCtx(c, good, now, false), table', sent', s.log);
  }

  /** The table entry for an answer's id is that of the request it answers. */
  lemma {:induction false} AnswersItsOwn(s: Sys, msg: Signal, origin: nat)
    requires Inv(s) && Faithful(s, Receive(msg, origin))
    ensures msg.rid in s.table ==> s.table[msg.rid] == origin
  {
    hide CtxInv;
    if msg.rid in s.table && s.table[msg.rid] != origin { OnlyCurrent(s, origin, s.table[msg.rid]); }
  }

  lemma {:induction false} StepReceive(s: Sys, msg: Signal, origin: nat)
    requires Inv(s) && Enabled(s, Receive(msg, origin)) && Faithful(s, Receive(msg, origin))
    ensures Inv(Step(s, Receive(msg, origin)))
  {
    AnswersItsOwn(s, msg, origin);
    var log', c := s.log + {(origin, msg)}, s.ctxs[origin];
    assert CtxInv(c, origin, InTable(s, origin), origin in s.sent, s.log);
    LogGrows(c, origin, InTable(s, origin), true, false, s.log, log');
    var c' := if Taken(s, msg.rid) then Emit(c, msg) else c;
    if Taken(s, msg.rid) { EmitKeeps(c, origin, true, false, false, msg, log'); }
    assert CtxInv(c', origin, false, false, log');
    hide CtxInv;
    OneChanges(s, origin, c', s.table - {msg.rid}, s.sent - {origin}, log');
    assert s.ctxs[origin := c] == s.ctxs;
  }

  lemma {:induction false} LoseCtxKeeps(c: Ctx, i: nat, bd: Bd, sent: bool, log: set<(nat, Signal)>)
    requires CtxInv(c, i, true, sent, log)
    ensures CtxInv(LoseCtx(c, bd), i, true, sent, log)
    ensures LoseCtx(c, bd).rid == c.rid && LoseCtx(c, bd).installed == c.installed && LoseCtx(c, bd).destroyed == c.destroyed
    ensures LoseCtx(c, bd).queued == c.queued
  {
  }

  lemma {:induction false} StepLost(s: Sys, bd: Bd)
    requires Inv(s)
    ensures Inv(Step(s, LostBitcoinD(bd)))
  {
    hide CtxInv, LoseCtx;
    var s' := Step(s, LostBitcoinD(bd));
    forall i | 0 <= i < |s.ctxs|
      ensures CtxInv(s'.ctxs[i], i, InTable(s', i), i in s'.sent, s'.log)
      ensures s'.ctxs[i].rid == s.ctxs[i].rid && Past(s'.ctxs[i], i, s'.sent) == Past(s.ctxs[i], i, s.sent)
    {
      if InTable(s, i) { LoseCtxKeeps(s.ctxs[i], i, bd, i in s.sent, s.log); }
    }
  }

  lemma {:induction false} TimeoutCtxKeeps(c: Ctx, i: nat, now: int, sent: bool, log: set<(nat, Signal)>)
    requires CtxInv(c, i, true, sent, log)
    ensures CtxInv(TimeoutCtx(c, now), i, true, sent, log)
    ensures TimeoutCtx(c, now).rid == c.rid && TimeoutCtx(c, now).installed == c.installed
    ensures TimeoutCtx(c, now).destroyed == c.destroyed && TimeoutCtx(c, now).queued == c.queued
  {
  }

  lemma {:induction false} StepTimeouts(s: Sys, now: int)
    requires Inv(s)
    ensures Inv(Step(s, CheckTimeouts(now)))
  {
    hide CtxInv, TimeoutCtx;
    var s' := Step(s, CheckTimeouts(now));
    forall i | 0 <= i < |s.ctxs|
      ensures CtxInv(s'.ctxs[i], i, InTable(s', i), i in s'.sent, s'.log)
      ensures s'.ctxs[i].rid == s.ctxs[i].rid && Past(s'.ctxs[i], i, s'.sent) == Past(s.ctxs[i], i, s.sent)
    {
      if InTable(s, i) { TimeoutCtxKeeps(s.ctxs[i], i, now, i in s.sent, s.log); }
    }
  }

  lemma {:induction false} StepSender(s: Sys, e: Event)
    requires Inv(s) && Enabled(s, e) && (e.Deliver? || e.Disconnect? || e.SenderDies?)
    ensures Inv(Step(s, e))
  {
    var i := match e case Deliver(i) => i case Disconnect(i) => i case SenderDies(i) => i;
    var c' := Step(s, e).ctxs[i];
    assert CtxInv(s.ctxs[i], i, InTable(s, i), i in s.sent, s.log);
    assert CtxInv(c', i, InTable(s, i), i in s.sent, s.log);
    hide CtxInv;
    OneChanges(s, i, c', s.table, s.sent, s.log);
  }

  lemma {:induction false} StepDestroy(s: Sys, i: nat)
    requires Inv(s) && Enabled(s, Destroy(i))
    ensures Inv(Step(s, Destroy(i)))
  {
    var c := s.ctxs[i];
    assert CtxInv(c, i, InTable(s, i), i in s.sent, s.log);
    var c' := c.(destroyed := true);
    var table' := if c.installed then s.table - {c.rid} else s.table;
    assert CtxInv(c', i, false, i in s.sent, s.log);
    hide CtxInv;
    OneChanges(s, i, c', table', s.sent, s.log);
  }

  lemma {:induction false} StepKeeps(s: Sys, e: Event)
    requires Inv(s) && Enabled(s, e) && FreshId(s, e) && Faithful(s, e)
    ensures Inv(Step(s, e))
  {
    match e
    case Submit(rid, timeout) => SubmitKeeps(s, NewCtx(rid, timeout), s.log);
    case SubmitCached(rid, payload) => SubmitKeeps(s, CachedCtx(rid, payload), s.log + {(|s.ctxs|, Results(rid, payload))});
    case Manage(i, good, now) => StepManage(s, i, good, now);
    case Receive(msg, origin) => StepReceive(s, msg, origin);
    case LostBitcoinD(bd) => StepLost(s, bd);
    case CheckTimeouts(now) => StepTimeouts(s, now);
    case Destroy(i) => StepDestroy(s, i);
    case _ => StepSender(s, e);
  }

  // ----- runs

  ghost predicate Legal(s: Sys, es: seq<Event>)
    decreases |es|
  {
    es == [] || (Enabled(s, es[0]) && FreshId(s, es[0]) && Faithful(s, es[0]) && Legal(Step(s, es[0]), es[1..]))
  }

  ghost function Run(s: Sys, es: seq<Event>): Sys
    requires Legal(s, es)
    decreases |es|
  {
    if es == [] then s else Run(Step(s, es[0]), es[1..])
  }

  lemma {:induction false} RunKeeps(s: Sys, es: seq<Event>)
    requires Inv(s) && Legal(s, es)
    ensures Inv(Run(s, es))
    decreases |es|
  {
    hide Inv;
    if es != [] {
      StepKeeps(s, es[0]);
      RunKeeps(Step(s, es[0]), es[1..]);
    }
  }

  /** A signal queued for the sender of request i, or a call of the manager or a table entry that will
      lead to one. */
  ghost predicate OnItsWay(s: Sys, i: nat)
    requires i < |s.ctxs|
  {
    s.ctxs[i].signals != [] || (s.ctxs[i].connected && (s.ctxs[i].queued || (InTable(s, i) && !s.ctxs[i].timedOut)))
  }

  /** In every run, each request's callbacks are run at most once, with a message that is about that
      request and, unless it is a failure, is bitcoind's answer to that very request; and as long as none has been run and the
      sender lives, an answer is on its way.  At most one timeout is ever pending. */
  lemma {:induction false} ExactlyOnce(es: seq<Event>, i: nat)
    requires Legal(INITIAL, es) && i < |Run(INITIAL, es).ctxs|
    ensures var s := Run(INITIAL, es);
      && |s.ctxs[i].calls| <= 1
      && (s.ctxs[i].calls != [] ==> s.ctxs[i].calls[0].rid == s.ctxs[i].rid)
      && (s.ctxs[i].calls != [] && !s.ctxs[i].calls[0].Failed? ==> (i, s.ctxs[i].calls[0]) in s.log)
      && (s.ctxs[i].calls == [] && !s.ctxs[i].senderGone ==> OnItsWay(s, i))
      && TimesOutOnce(s.ctxs[i])
  {
    hide Legal, Run;
    RunKeeps(INITIAL, es);
    var s := Run(INITIAL, es);
    assert CtxInv(s.ctxs[i], i, InTable(s, i), i in s.sent, s.log);
  }

  /** From any such state the answer can be brought about by letting the manager run its queued call, the
      timeout checker run late enough, and the sender run the signal: nothing else is needed. */
  lemma {:induction false} CanBeAnswered(s: Sys, i: nat) returns (es: seq<Event>)
    requires Inv(s) && i < |s.ctxs| && !s.ctxs[i].replied && !s.ctxs[i].senderGone
    ensures |es| <= 3 && Legal(s, es) && i < |Run(s, es).ctxs| && |Run(s, es).ctxs[i].calls| == 1
    ensures forall e :: e in es ==> e.Manage? || e.CheckTimeouts? || e.Deliver?
  {
    var c := s.ctxs[i];
    assert CtxInv(c, i, InTable(s, i), i in s.sent, s.log);
    if c.signals != [] {
      es := [Deliver(i)];
      assert Run(s, es) == Step(s, Deliver(i)) by { RunOne(s, Deliver(i)); }
    } else {
      var e: Event;
      if c.queued {
        e := Manage(i, None, 0);
      } else {
        e := CheckTimeouts(c.ts + c.timeout + 1);
      }
      StepKeeps(s, e);
      var s1 := Step(s, e);
      assert s1.ctxs[i].signals != [] && !s1.ctxs[i].inSlot;
      es := [e, Deliver(i)];
      assert es[1..] == [Deliver(i)];
      RunOne(s1, Deliver(i));
    }
  }

  lemma {:induction false} RunOne(s: Sys, e: Event)
    requires Enabled(s, e) && FreshId(s, e) && Faithful(s, e)
    ensures Legal(s, [e]) && Run(s, [e]) == Step(s, e)
  {
    assert [e][1..] == [];
  }

  lemma {:induction false} TabledIsThere(s: Sys, rid: Id)
    requires Inv(s) && rid in s.table
    ensures s.table[rid] < |s.ctxs| && s.ctxs[s.table[rid]].rid == rid && !s.ctxs[s.table[rid]].destroyed
  {
    var i := s.table[rid];
    assert i < |s.ctxs| && s.ctxs[i].rid == rid;
    assert CtxInv(s.ctxs[i], i, InTable(s, i), i in s.sent, s.log);
  }

  /** Nothing is left behind: after any run each table entry is for a request with that id whose object is
      still there, so deleted objects leave no entries. */
  lemma {:induction false} NoLeaks(es: seq<Event>)
    requires Legal(INITIAL, es)
    ensures var s := Run(INITIAL, es);
      forall rid :: rid in s.table ==> s.table[rid] < |s.ctxs| && s.ctxs[s.table[rid]].rid == rid && !s.ctxs[s.table[rid]].destroyed
  {
    RunKeeps(INITIAL, es);
    hide Legal, Run, Inv;
    var s := Run(INITIAL, es);
    forall rid | rid in s.table
      ensures s.table[rid] < |s.ctxs| && s.ctxs[s.table[rid]].rid == rid && !s.ctxs[s.table[rid]].destroyed
    {
      TabledIsThere(s, rid);
    }
  }
}
