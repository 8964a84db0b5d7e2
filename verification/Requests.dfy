/** The objects of the request manager, each method proved to make the step of RequestSpec. */
module Requests {
  import opened Wrappers
  import opened RequestSpec
  import opened RequestMeaning

  class ReqCtxObj {
    const rid: Id
    const timeout: nat
    var bd: Option<Bd>
    var ts: int
    var replied: bool
    var timedOut: bool
    var connected: bool
    var installed: bool
    var destroyed: bool
    var senderGone: bool
    var queued: bool
    var inSlot: bool
    var signals: seq<Signal>
    var calls: seq<Signal>

    constructor (rid: Id, timeout: int)
      ensures View() == NewCtx(rid, timeout)
    {
      this.rid, this.timeout := rid, if timeout > 0 then timeout else 0;
      bd, ts, replied, timedOut := None, 0, false, false;
      connected, installed, destroyed, senderGone := true, false, false, false;
      queued, inSlot, signals, calls := true, false, [], [];
    }

    constructor Cached(rid: Id, payload: Payload)
      ensures View() == CachedCtx(rid, payload)
    {
      this.rid, this.timeout := rid, 0;
      bd, ts, replied, timedOut := None, 0, false, false;
      connected, installed, destroyed, senderGone := false, false, false, false;
      queued, inSlot, signals, calls := false, false, [Results(rid, payload)], [];
    }

    ghost function View(): (c: Ctx)
      reads this
      ensures c.rid == rid && c.queued == queued
    {
      Ctx(rid, timeout, bd, ts, replied, timedOut, connected, installed, destroyed, senderGone, queued, inSlot, signals, calls)
    }

    predicate IsAlive()
      reads this
      ensures IsAlive() == Alive(View())
    {
      connected || queued || inSlot || signals != []
    }

    method EmitSignal(sig: Signal)
      modifies this`signals
      ensures View() == Emit(old(View()), sig)
    {
      if connected { signals := signals + [sig]; }
    }

    /** What the manager's queued call does to the request. */
    method Start(good: Option<Bd>, now: int, taken: bool)
      modifies this
      ensures View() == ManageCtx(old(View()), good, now, taken)
    {
      queued := false;
      if good.None? {
        EmitSignal(Failed(rid, NoBitcoinD));
        return;
      }
      bd := good;
      if taken {
        EmitSignal(Failed(rid, IdInUse));
        return;
      }
      ts := now;
      installed := true;
    }

    /** Fail if this request is with that bitcoind. */
    method FailIfWith(lost: Bd)
      modifies this`signals
      ensures View() == LoseCtx(old(View()), lost)
    {
      if IsAlive() && bd == Some(lost) { EmitSignal(Failed(rid, Lost)); }
    }

    /** Fail once if this request has waited too long. */
    method FailIfLate(now: int)
      modifies this`signals, this`timedOut
      ensures View() == TimeoutCtx(old(View()), now)
    {
      if IsAlive() && !timedOut && now - ts > timeout {
        timedOut := true;
        EmitSignal(Failed(rid, TimedOut));
      }
    }

    /** The slot for a result, error or failure, up to running the callback. */
    method RunSlot()
      requires signals != []
      modifies this
      ensures View() == DeliverCtx(old(View()))
    {
      var sig := signals[0];
      signals := signals[1..];
      inSlot := true;
      var was := replied;
      replied := true;
      if !was { calls := calls + [sig]; }
    }
  }

  class BitcoinDMgr {
    var ctxs: seq<ReqCtxObj>
    var reqContextTable: map<Id, nat>
    ghost var sent: set<nat>
    ghost var log: set<(nat, Signal)>

    constructor ()
      ensures Valid() && View() == INITIAL
    {
      ctxs, reqContextTable, sent, log := [], map[], {}, {};
    }

    ghost predicate Valid()
      reads this
    {
      && (forall i, j :: 0 <= i < j < |ctxs| ==> ctxs[i] != ctxs[j])
      && (forall rid :: rid in reqContextTable ==>
            reqContextTable[rid] < |ctxs| && ctxs[reqContextTable[rid]].rid == rid)
    }

    ghost function View(): Sys
      reads this, ctxs
    {
      Sys(Views(ctxs), reqContextTable, sent, log)
    }

    /** Look up a live context by request id. */
    predicate Holds(rid: Id)
      requires Valid()
      reads this, ctxs
      ensures Holds(rid) == Taken(View(), rid)
    {
      rid in reqContextTable && ctxs[reqContextTable[rid]].IsAlive()
    }

    /** submitRequest.  A result from the cache, if one is good enough, is passed in. */
    method SubmitRequest(rid: Id, timeout: int, cached: Option<Payload>)
      requires Valid()
      modifies this
      ensures Valid() && fresh(set c | c in ctxs && c !in old(ctxs))
      ensures View() == Step(old(View()), if cached.Some? then SubmitCached(rid, cached.value) else Submit(rid, timeout))
    {
      if cached.Some? {
        var c := new ReqCtxObj.Cached(rid, cached.value);
        log := log + {(|ctxs|, Results(rid, cached.value))};
        ctxs := ctxs + [c];
      } else {
        var c := new ReqCtxObj(rid, timeout);
        ctxs := ctxs + [c];
      }
    }

    /** The call that submitRequest schedules in the manager's thread. */
    method RunQueued(i: nat, good: Option<Bd>, now: int)
      requires Valid() && i < |ctxs| && ctxs[i].queued
      modifies this`reqContextTable, this`sent, ctxs[i]
      ensures Valid() && View() == Step(old(View()), Manage(i, good, now))
      ensures EnteredOrTold(old(View()), View(), i, good, now)
    {
      hide Alive, ManageCtx, ReqCtxObj.View, EnteredOrTold;
      ManageMeans(View(), i, good, now);
      var context := ctxs[i];
      var taken := Holds(context.rid);
      context.Start(good, now, taken);
      if good.Some? && !taken {
        reqContextTable := reqContextTable[context.rid := i];
        sent := sent + {i};
      }
      assert View().ctxs == Step(old(View()), Manage(i, good, now)).ctxs;
    }

    /** handleMessageCommon: take the context out of the table and pass the message on. */
    method HandleMessage(msg: Signal, ghost origin: nat)
      requires Valid() && !msg.Failed?
      modifies this, if msg.rid in reqContextTable then {ctxs[reqContextTable[msg.rid]]} else {}
      ensures Valid() && View() == Step(old(View()), Receive(msg, origin))
      ensures PassedOn(old(View()), View(), msg)
    {
      hide PassedOn;
      ReceiveMeans(View(), msg, origin);
      sent, log := sent - {origin}, log + {(origin, msg)};
      if msg.rid in reqContextTable {
        var context := ctxs[reqContextTable[msg.rid]];
        reqContextTable := reqContextTable - {msg.rid};
        if context.IsAlive() { context.EmitSignal(msg); }
      }
      assert View().ctxs == Step(old(View()), Receive(msg, origin)).ctxs;
    }

    method FailIfWithAt(k: nat, lost: Bd)
      requires Valid() && k < |ctxs|
      modifies ctxs[k]
      ensures Views(ctxs) == old(Views(ctxs))[k := LoseCtx(old(ctxs[k].View()), lost)]
    {
      hide LoseCtx, ReqCtxObj.View;
      ctxs[k].FailIfWith(lost);
    }

    method FailIfLateAt(k: nat, now: int)
      requires Valid() && k < |ctxs|
      modifies ctxs[k]
      ensures Views(ctxs) == old(Views(ctxs))[k := TimeoutCtx(old(ctxs[k].View()), now)]
    {
      hide TimeoutCtx, ReqCtxObj.View;
      ctxs[k].FailIfLate(now);
    }

    /** notifyFailForRequestsMatchingBitcoinD */
    method NotifyFail(lost: Bd)
      requires Valid()
      modifies ctxs
      ensures Valid() && View() == Step(old(View()), LostBitcoinD(lost))
      ensures OnlyLostFail(old(View()), View(), lost)
    {
      hide LoseCtx, ReqCtxObj.View, OnlyLostFail;
      LostMeans(View(), lost);
      ghost var before := View();
      ghost var f := (c: Ctx) => LoseCtx(c, lost);
      var todo := reqContextTable.Keys;
      while todo != {}
        invariant todo <= reqContextTable.Keys && Swept(before, todo, f, Views(ctxs))
        decreases |todo|
      {
        var rid :| rid in todo;
        Sweep(before, todo, f, Views(ctxs), rid);
        todo := todo - {rid};
        FailIfWithAt(reqContextTable[rid], lost);
      }
    }

    /** requestTimeoutChecker */
    method RequestTimeoutChecker(now: int)
      requires Valid()
      modifies ctxs
      ensures Valid() && View() == Step(old(View()), CheckTimeouts(now))
      ensures OnlyLateFail(old(View()), View(), now)
    {
      hide TimeoutCtx, ReqCtxObj.View, OnlyLateFail;
      CheckTimeoutsMeans(View(), now);
      ghost var before := View();
      ghost var f := (c: Ctx) => TimeoutCtx(c, now);
      var todo := reqContextTable.Keys;
      while todo != {}
        invariant todo <= reqContextTable.Keys && Swept(before, todo, f, Views(ctxs))
        decreases |todo|
      {
        var rid :| rid in todo;
        Sweep(before, todo, f, Views(ctxs), rid);
        todo := todo - {rid};
        FailIfLateAt(reqContextTable[rid], now);
      }
    }

    /** The handler for `destroyed`. */
    method OnDestroyed(i: nat)
      requires Valid() && i < |ctxs| && !Alive(ctxs[i].View()) && !ctxs[i].destroyed
      modifies this`reqContextTable, ctxs[i]
      ensures Valid() && View() == Step(old(View()), Destroy(i))
      ensures EntryGoes(old(View()), View(), i)
    {
      DestroyMeans(View(), i);
      hide EntryGoes;
      ctxs[i].destroyed := true;
      if ctxs[i].installed { reqContextTable := reqContextTable - {ctxs[i].rid}; }
      assert View().ctxs == Step(old(View()), Destroy(i)).ctxs;
    }
  }

  /** The loops over the table: the contexts whose ids are no longer to do have had f applied. */
  ghost predicate Swept(s: Sys, todo: set<Id>, f: Ctx -> Ctx, vs: seq<Ctx>) {
    |vs| == |s.ctxs| && forall i :: 0 <= i < |vs| ==>
      vs[i] == if InTable(s, i) && s.ctxs[i].rid !in todo then f(s.ctxs[i]) else s.ctxs[i]
  }

  lemma {:induction false} Sweep(s: Sys, todo: set<Id>, f: Ctx -> Ctx, vs: seq<Ctx>, rid: Id)
    requires Swept(s, todo, f, vs) && rid in todo && rid in s.table
    requires s.table[rid] < |s.ctxs| && s.ctxs[s.table[rid]].rid == rid
    ensures vs[s.table[rid]] == s.ctxs[s.table[rid]]
    ensures Swept(s, todo - {rid}, f, vs[s.table[rid] := f(s.ctxs[s.table[rid]])])
  {
  }

  ghost function Views(ctxs: seq<ReqCtxObj>): seq<Ctx>
    reads ctxs
  {
    seq(|ctxs|, i requires 0 <= i < |ctxs| reads ctxs => ctxs[i].View())
  }
}
