/**
  The request manager of src/BitcoinD.cpp: requests to bitcoind are handed to the manager's thread, kept in
  a table of weak references while they wait, and answered by a signal to the sender's thread.  One step is
  one callback on some thread; steps interleave freely.
*/
module RequestSpec {
  import opened Wrappers

  type Id(==, !new)
  type Bd(==, !new)
  type Payload(==, !new)

  datatype Reason = NoBitcoinD | IdInUse | TimedOut | Lost

  /** What the sender is told, through the result, the error or the failure callback. */
  datatype Signal =
    | Results(rid: Id, payload: Payload)
    | ErrorReply(rid: Id, payload: Payload)
    | Failed(rid: Id, reason: Reason)

  /** ReqCtxObj, together with what is pending for it: the manager's queued call, the signals queued for
      the sender, the slot that is running, and the callbacks that have been run. */
  datatype Ctx = Ctx(
    rid: Id, timeout: nat, bd: Option<Bd>, ts: int,
    replied: bool, timedOut: bool,
    connected: bool, installed: bool, destroyed: bool, senderGone: bool,
    queued: bool, inSlot: bool, signals: seq<Signal>, calls: seq<Signal>)

  /** All requests so far, the table by request id, the requests that bitcoind has still to answer, and
      its answers, each with the request it answers. */
  datatype Sys = Sys(ctxs: seq<Ctx>, table: map<Id, nat>, sent: set<nat>, log: set<(nat, Signal)>)

  datatype Event =
    | Submit(rid: Id, timeout: int)                       // submitRequest, no usable cached result
    | SubmitCached(rid: Id, payload: Payload)             // submitRequest, answered from the cache
    | Manage(i: nat, good: Option<Bd>, now: int)          // the call queued for the manager runs
    | Receive(msg: Signal, origin: nat)                   // a reply or error from bitcoind, to that request
    | LostBitcoinD(lost: Bd)                              // notifyFailForRequestsMatchingBitcoinD
    | CheckTimeouts(time: int)                            // requestTimeoutChecker
    | Deliver(to: nat)                                    // the sender runs the slot for a queued signal
    | Disconnect(at: nat)                                 // ... and that slot drops the connections
    | Destroy(dead: nat)                                  // the object is deleted: destroyed is emitted
    | SenderDies(orphan: nat)                             // the sender is deleted

  /** Some strong reference to the context is left. */
  predicate Alive(c: Ctx) {
    c.connected || c.queued || c.inSlot || c.signals != []
  }

  /** emit: queued for the sender while the connections stand. */
  function Emit(c: Ctx, sig: Signal): Ctx {
    if c.connected then c.(signals := c.signals + [sig]) else c
  }

  function NewCtx(rid: Id, timeout: int): Ctx {
    Ctx(rid, if timeout > 0 then timeout else 0, None, 0, false, false, true, false, false, false, true, false, [], [])
  }

  function CachedCtx(rid: Id, payload: Payload): Ctx {
    Ctx(rid, 0, None, 0, false, false, false, false, false, false, false, false, [Results(rid, payload)], [])
  }

  predicate InTable(s: Sys, i: nat) {
    i < |s.ctxs| && s.ctxs[i].rid in s.table && s.table[s.ctxs[i].rid] == i
  }

  /** The table holds an entry for this id whose context is still there. */
  predicate Taken(s: Sys, rid: Id) {
    rid in s.table && s.table[rid] < |s.ctxs| && Alive(s.ctxs[s.table[rid]])
  }

  function ManageCtx(c: Ctx, good: Option<Bd>, now: int, taken: bool): Ctx {
    var c1 := c.(queued := false);
    if good.None? then Emit(c1, Failed(c.rid, NoBitcoinD))
    else
      var c2 := c1.(bd := good);
      if taken then Emit(c2, Failed(c.rid, IdInUse)) else c2.(ts := now, installed := true)
  }

  function LoseCtx(c: Ctx, lost: Bd): Ctx {
    if Alive(c) && c.bd == Some(lost) then Emit(c, Failed(c.rid, Lost)) else c
  }

  function TimeoutCtx(c: Ctx, now: int): Ctx {
    if Alive(c) && !c.timedOut && now - c.ts > c.timeout then Emit(c.(timedOut := true), Failed(c.rid, TimedOut)) else c
  }

  function DeliverCtx(c: Ctx): Ctx
    requires c.signals != []
  {
    var c1 := c.(signals := c.signals[1..], inSlot := true);
    if c.replied then c1 else c1.(replied := true, calls := c.calls + [c.signals[0]])
  }

  predicate Enabled(s: Sys, e: Event) {
    match e
    case Submit(_, _) => true
    case SubmitCached(_, _) => true
    case Manage(i, _, _) => i < |s.ctxs| && s.ctxs[i].queued
    case Receive(msg, _) => !msg.Failed?
    case LostBitcoinD(_) => true
    case CheckTimeouts(_) => true
    case Deliver(i) => i < |s.ctxs| && s.ctxs[i].signals != [] && !s.ctxs[i].inSlot
    case Disconnect(i) => i < |s.ctxs| && s.ctxs[i].inSlot
    case Destroy(i) => i < |s.ctxs| && !Alive(s.ctxs[i]) && !s.ctxs[i].destroyed
    case SenderDies(i) => i < |s.ctxs| && !s.ctxs[i].inSlot
  }

  function Step(s: Sys, e: Event): Sys
    requires Enabled(s, e)
  {
    match e
    case Submit(rid, timeout) => s.(ctxs := s.ctxs + [NewCtx(rid, timeout)])
    case SubmitCached(rid, payload) => s.(ctxs := s.ctxs + [CachedCtx(rid, payload)], log := s.log + {(|s.ctxs|, Results(rid, payload))})
    case Manage(i, good, now) =>
      var c := s.ctxs[i];
      var taken := Taken(s, c.rid);
      s.(ctxs := s.ctxs[i := ManageCtx(c, good, now, taken)],
         table := if good.Some? && !taken then s.table[c.rid := i] else s.table,
         sent := if good.Some? && !taken then s.sent + {i} else s.sent)
    case Receive(msg, origin) =>
      var s1 := s.(table := s.table - {msg.rid}, sent := s.sent - {origin}, log := s.log + {(origin, msg)});
      if Taken(s, msg.rid) then
        var i := s.table[msg.rid];
        s1.(ctxs := s.ctxs[i := Emit(s.ctxs[i], msg)])
      else s1
    case LostBitcoinD(bd) =>
      s.(ctxs := seq(|s.ctxs|, i requires 0 <= i < |s.ctxs| => if InTable(s, i) then LoseCtx(s.ctxs[i], bd) else s.ctxs[i]))
    case CheckTimeouts(now) =>
      s.(ctxs := seq(|s.ctxs|, i requires 0 <= i < |s.ctxs| => if InTable(s, i) then TimeoutCtx(s.ctxs[i], now) else s.ctxs[i]))
    case Deliver(i) => s.(ctxs := s.ctxs[i := DeliverCtx(s.ctxs[i])])
    case Disconnect(i) => s.(ctxs := s.ctxs[i := s.ctxs[i].(connected := false, inSlot := false)])
    case Destroy(i) =>
      var c := s.ctxs[i];
      s.(ctxs := s.ctxs[i := c.(destroyed := true)], table := if c.installed then s.table - {c.rid} else s.table)
    case SenderDies(i) => s.(ctxs := s.ctxs[i := s.ctxs[i].(connected := false, signals := [], senderGone := true)])
  }

  /** bitcoind answers only what it was sent, and each request once, though perhaps late. */
  ghost predicate Faithful(s: Sys, e: Event) {
    e.Receive? ==> e.origin in s.sent && e.origin < |s.ctxs| && s.ctxs[e.origin].rid == e.msg.rid
  }

  /** Request i can no longer interfere with a new request of the same id: it never got into the table, or
      its object is gone; and bitcoind owes it no answer. */
  ghost predicate Past(c: Ctx, i: nat, sent: set<nat>) {
    !c.queued && (c.installed ==> c.destroyed) && i !in sent
  }

  /** An id may be used again when all earlier requests with it are past. */
  ghost predicate FreshId(s: Sys, e: Event) {
    e.Submit? || e.SubmitCached? ==> forall i :: 0 <= i < |s.ctxs| && s.ctxs[i].rid == e.rid ==> Past(s.ctxs[i], i, s.sent)
  }

  const INITIAL := Sys([], map[], {}, {})
}
