/**
  The callbacks of the request manager in terms of the fields they change, and why a sender is told what
  it is told: every failure has its cause in the run.
*/
module RequestMeaning {
  import opened Wrappers
  import opened RequestSpec
  import opened RequestProofs
  import opened RequestReuse

  // ----- what each callback changes

  /** The manager's queued call: without a bitcoind, or while a live request holds the id, the sender is told;
      otherwise the request is entered in the table and stamped with the time. */
  ghost predicate EnteredOrTold(s: Sys, s': Sys, i: nat, good: Option<Bd>, now: int)
    requires i < |s.ctxs|
  {
    var c, rid := s.ctxs[i], s.ctxs[i].rid;
    var held := rid in s.table && s.table[rid] < |s.ctxs|
                && var d := s.ctxs[s.table[rid]]; d.connected || d.queued || d.inSlot || d.signals != [];
    var entered := good.Some? && !held;
    && s'.log == s.log && s'.table == (if entered then s.table[rid := i] else s.table)
    && s'.sent == (if entered then s.sent + {i} else s.sent)
    && s'.ctxs == s.ctxs[i := c.(
         queued := false,
         bd := if good.Some? then good else c.bd,
         ts := if entered then now else c.ts,
         installed := c.installed || entered,
         signals := c.signals + if !entered && c.connected then [Failed(rid, if good.None? then NoBitcoinD else IdInUse)] else [])]
  }

  /** A reply takes the entry out of the table and is passed to the request that was there. */
  ghost predicate PassedOn(s: Sys, s': Sys, msg: Signal) {
    && s'.table == s.table - {msg.rid} && |s'.ctxs| == |s.ctxs|
    && (forall i :: 0 <= i < |s.ctxs| ==>
          var c := s.ctxs[i];
          var here := msg.rid in s.table && s.table[msg.rid] == i;
          s'.ctxs[i] == c.(signals := c.signals + if here && c.connected then [msg] else []))
  }

  /** Exactly the tabled requests with that bitcoind fail. */
  ghost predicate OnlyLostFail(s: Sys, s': Sys, lost: Bd) {
    && s'.table == s.table && s'.sent == s.sent && s'.log == s.log && |s'.ctxs| == |s.ctxs|
    && (forall i :: 0 <= i < |s.ctxs| ==>
          var c := s.ctxs[i];
          var fails := c.rid in s.table && s.table[c.rid] == i && c.bd == Some(lost);
          s'.ctxs[i] == c.(signals := c.signals + if fails && c.connected then [Failed(c.rid, Lost)] else []))
  }

  /** Exactly the tabled requests that have waited longer than their timeout fail, each once. */
  ghost predicate OnlyLateFail(s: Sys, s': Sys, now: int) {
    && s'.table == s.table && s'.sent == s.sent && s'.log == s.log && |s'.ctxs| == |s.ctxs|
    && (forall i :: 0 <= i < |s.ctxs| ==>
          var c := s.ctxs[i];
          var alive := c.connected || c.queued || c.inSlot || c.signals != [];
          var late := c.rid in s.table && s.table[c.rid] == i && alive && !c.timedOut && now > c.ts + c.timeout;
          s'.ctxs[i] == c.(timedOut := c.timedOut || late,
                           signals := c.signals + if late && c.connected then [Failed(c.rid, TimedOut)] else []))
  }

  /** A deleted object that was entered takes the entry with its id, whosever that is now. */
  ghost predicate EntryGoes(s: Sys, s': Sys, i: nat)
    requires i < |s.ctxs|
  {
    && s'.table == (if s.ctxs[i].installed then s.table - {s.ctxs[i].rid} else s.table)
    && s'.ctxs == s.ctxs[i := s.ctxs[i].(destroyed := true)]
  }

  lemma {:induction false} ManageMeans(s: Sys, i: nat, good: Option<Bd>, now: int)
    requires Enabled(s, Manage(i, good, now))
    ensures EnteredOrTold(s, Step(s, Manage(i, good, now)), i, good, now)
  {
    assert s.ctxs[i].signals + [] == s.ctxs[i].signals;
    var c := ManageCtx(s.ctxs[i], good, now, Taken(s, s.ctxs[i].rid));
    assert Step(s, Manage(i, good, now)).ctxs == s.ctxs[i := c];
  }

  lemma {:induction false} ReceiveMeans(s: Sys, msg: Signal, origin: nat)
    requires Enabled(s, Receive(msg, origin))
    ensures PassedOn(s, Step(s, Receive(msg, origin)), msg)
  {
  }

  lemma {:induction false} LostMeans(s: Sys, lost: Bd)
    ensures OnlyLostFail(s, Step(s, LostBitcoinD(lost)), lost)
  {
  }

  lemma {:induction false} CheckTimeoutsMeans(s: Sys, now: int)
    ensures OnlyLateFail(s, Step(s, CheckTimeouts(now)), now)
  {
  }

  lemma {:induction false} DestroyMeans(s: Sys, i: nat)
    requires Enabled(s, Destroy(i))
    ensures EntryGoes(s, Step(s, Destroy(i)), i)
  {
  }

  // ----- why a sender is told of a failure

  /** The sender of this request has been told so, or is about to be. */
  ghost predicate Told(c: Ctx, reason: Reason) {
    Failed(c.rid, reason) in c.signals || Failed(c.rid, reason) in c.calls
  }

  /** The event is what makes request i, given to that bitcoind and stamped with that time, fail so. */
  ghost predicate Cause(e: Event, i: nat, c: Ctx, reason: Reason) {
    match reason
    case NoBitcoinD => e.Manage? && e.i == i && e.good.None?
    case IdInUse => e.Manage? && e.i == i && e.good == c.bd && c.bd.Some? && !c.installed
    case TimedOut => e.CheckTimeouts? && c.installed && e.time > c.ts + c.timeout
    case Lost => e.LostBitcoinD? && c.installed && c.bd == Some(e.lost)
  }

  ghost predicate CausedIn(es: seq<Event>, i: nat, c: Ctx, reason: Reason) {
    exists k :: 0 <= k < |es| && Cause(es[k], i, c, reason)
  }

  /** What is fixed of a request once the manager's call for it has run. */
  ghost predicate SameStamp(c: Ctx, c': Ctx) {
    c'.rid == c.rid && c'.timeout == c.timeout && c'.bd == c.bd && c'.ts == c.ts && c'.installed == c.installed && !c'.queued
  }

  /** A request that is in the table has been through the manager. */
  ghost predicate TabledAreManaged(s: Sys) {
    forall i :: 0 <= i < |s.ctxs| && InTable(s, i) ==> s.ctxs[i].installed && !s.ctxs[i].queued
  }

  ghost predicate Quiet(c: Ctx) {
    c.signals == [] && c.calls == [] && !c.inSlot
  }

  /** A request that is still with the manager has been told nothing. */
  ghost predicate QueuedAreQuiet(s: Sys) {
    forall i :: 0 <= i < |s.ctxs| && s.ctxs[i].queued ==> Quiet(s.ctxs[i])
  }

  ghost predicate Orderly(s: Sys) {
    Sound(s) && TabledAreManaged(s) && QueuedAreQuiet(s)
  }

  /** One request in one step: it keeps its stamp once the manager is done with it, and what is new about it
      has the step as its cause. */
  ghost predicate Follows(c: Ctx, c': Ctx, e: Event, i: nat) {
    && (!c.queued ==> SameStamp(c, c'))
    && (c'.queued ==> c.queued && (Quiet(c) ==> Quiet(c')))
    && (forall reason :: Told(c', reason) ==> Told(c, reason) || Cause(e, i, c', reason))
    && (c'.installed && !c.installed ==> c'.bd.Some? && e == Manage(i, c'.bd, c'.ts))
    && c'.timeout == c.timeout
  }

  lemma {:induction false} ManagedFollows(c: Ctx, i: nat, good: Option<Bd>, now: int, taken: bool)
    requires c.queued && !c.installed
    ensures Follows(c, ManageCtx(c, good, now, taken), Manage(i, good, now), i)
    ensures ManageCtx(c, good, now, taken).installed <==> good.Some? && !taken
  {
  }

  lemma {:induction false} EmittedFollows(c: Ctx, msg: Signal, e: Event, i: nat)
    requires !c.queued && !msg.Failed?
    ensures Follows(c, Emit(c, msg), e, i)
  {
  }

  lemma {:induction false} LostFollows(c: Ctx, i: nat, lost: Bd)
    requires !c.queued && c.installed
    ensures Follows(c, LoseCtx(c, lost), LostBitcoinD(lost), i)
  {
  }

  lemma {:induction false} CheckedFollows(c: Ctx, i: nat, now: int)
    requires !c.queued && c.installed
    ensures Follows(c, TimeoutCtx(c, now), CheckTimeouts(now), i)
  {
  }

  lemma {:induction false} DeliveredFollows(c: Ctx, i: nat)
    requires !c.queued && c.signals != []
    ensures Follows(c, DeliverCtx(c), Deliver(i), i)
  {
    assert c.signals[0] in c.signals;
  }

  lemma {:induction false} OrderlyFacts(s: Sys, i: nat)
    requires Orderly(s) && i < |s.ctxs|
    ensures s.ctxs[i].queued ==> !s.ctxs[i].installed && s.ctxs[i].signals == [] && !s.ctxs[i].inSlot
    ensures InTable(s, i) ==> s.ctxs[i].installed && !s.ctxs[i].queued
    ensures forall msg: Signal :: Taken(s, msg.rid) && s.table[msg.rid] == i ==> InTable(s, i)
  {
    assert s.ctxs[i].queued ==> Quiet(s.ctxs[i]);
  }

  lemma {:induction false} DeadIsManaged(c: Ctx)
    requires !Alive(c)
    ensures !c.queued
  {
  }

  lemma {:induction false} ManagerStepFollows(s: Sys, e: Event, i: nat)
    requires Orderly(s) && Enabled(s, e) && i < |s.ctxs| && (e.Manage? || e.Receive? || e.LostBitcoinD? || e.CheckTimeouts?)
    ensures i < |Step(s, e).ctxs| && Follows(s.ctxs[i], Step(s, e).ctxs[i], e, i)
  {
    hide ManageCtx, Emit, LoseCtx, TimeoutCtx, Follows, Alive, Orderly;
    var c := s.ctxs[i];
    OrderlyFacts(s, i);
    NothingFollows(c, e, i);
    match e
    case Manage(j, good, now) => if j == i { ManagedFollows(c, i, good, now, Taken(s, c.rid)); }
    case Receive(msg, o) => if Taken(s, msg.rid) && s.table[msg.rid] == i { EmittedFollows(c, msg, e, i); }
    case LostBitcoinD(lost) => if InTable(s, i) { LostFollows(c, i, lost); }
    case CheckTimeouts(now) => if InTable(s, i) { CheckedFollows(c, i, now); }
  }

  lemma {:induction false} SenderStepFollows(s: Sys, e: Event, i: nat)
    requires Orderly(s) && Enabled(s, e) && i < |s.ctxs| && !(e.Manage? || e.Receive? || e.LostBitcoinD? || e.CheckTimeouts?)
    ensures i < |Step(s, e).ctxs| && Follows(s.ctxs[i], Step(s, e).ctxs[i], e, i)
  {
    hide DeliverCtx, Follows, Alive, Orderly, NewCtx, CachedCtx;
    var c := s.ctxs[i];
    OrderlyFacts(s, i);
    NothingFollows(c, e, i);
    match e
    case Deliver(j) => if j == i { DeliveredFollows(c, i); }
    case Disconnect(j) => if j == i { SilentFollows(c, c.(connected := false, inSlot := false), e, i); }
    case Destroy(j) => if j == i { DeadIsManaged(c); SilentFollows(c, c.(destroyed := true), e, i); }
    case SenderDies(j) => if j == i { DeadFollows(c, i); }
    case _ =>
  }

  lemma {:induction false} StepFollows(s: Sys, e: Event, i: nat)
    requires Orderly(s) && Enabled(s, e) && i < |s.ctxs|
    ensures i < |Step(s, e).ctxs| && Follows(s.ctxs[i], Step(s, e).ctxs[i], e, i)
  {
    hide Step, Enabled, Orderly, Follows;
    if e.Manage? || e.Receive? || e.LostBitcoinD? || e.CheckTimeouts? {
      ManagerStepFollows(s, e, i);
    } else {
      SenderStepFollows(s, e, i);
    }
  }

  lemma {:induction false} NothingFollows(c: Ctx, e: Event, i: nat)
    ensures Follows(c, c, e, i)
  {
  }

  lemma {:induction false} SilentFollows(c: Ctx, c': Ctx, e: Event, i: nat)
    requires !c.queued && SameStamp(c, c') && c'.signals == c.signals && c'.calls == c.calls
    ensures Follows(c, c', e, i)
  {
  }

  lemma {:induction false} DeadFollows(c: Ctx, i: nat)
    ensures Follows(c, c.(connected := false, signals := [], senderGone := true), SenderDies(i), i)
  {
  }

  lemma {:induction false} NewIsQuiet(s: Sys, e: Event, i: nat)
    requires Enabled(s, e) && |s.ctxs| <= i < |Step(s, e).ctxs|
    ensures var c := Step(s, e).ctxs[i];
      !c.installed && !InTable(s, i) && (c.queued ==> Quiet(c)) && forall reason :: !Told(c, reason)
  {
  }

  lemma {:induction false} TableGrows(s: Sys, e: Event, i: nat)
    requires Sound(s) && Enabled(s, e) && InTable(Step(s, e), i)
    ensures InTable(s, i) || (e.Manage? && e.i == i && e.good.Some? && !Taken(s, s.ctxs[i].rid))
  {
  }

  lemma {:induction false} ManagedIsInstalled(s: Sys, i: nat, good: Option<Bd>, now: int)
    requires Enabled(s, Manage(i, good, now)) && good.Some? && !Taken(s, s.ctxs[i].rid)
    ensures Step(s, Manage(i, good, now)).ctxs[i].installed && !Step(s, Manage(i, good, now)).ctxs[i].queued
  {
  }

  lemma {:induction false} OrderlyStays(s: Sys, e: Event)
    requires Orderly(s) && Enabled(s, e)
    ensures Orderly(Step(s, e))
  {
    SoundStays(s, e);
    var s' := Step(s, e);
    hide Step, Sound, Quiet, Told, Cause, Taken, Enabled;
    forall i | 0 <= i < |s'.ctxs|
      ensures s'.ctxs[i].queued ==> Quiet(s'.ctxs[i])
      ensures InTable(s', i) ==> s'.ctxs[i].installed && !s'.ctxs[i].queued
    {
      if i < |s.ctxs| { StepFollows(s, e, i); } else { NewIsQuiet(s, e, i); }
      if InTable(s', i) {
        TableGrows(s, e, i);
        if !InTable(s, i) { ManagedIsInstalled(s, i, e.good, e.now); }
      }
    }
  }

  /** From then on the stamp of a request stays. */
  lemma {:induction false} StampStays(s: Sys, es: seq<Event>, i: nat)
    requires Orderly(s) && Plausible(s, es) && i < |s.ctxs| && !s.ctxs[i].queued
    ensures i < |After(s, es).ctxs| && SameStamp(s.ctxs[i], After(s, es).ctxs[i])
    decreases |es|
  {
    hide Step, Enabled, Faithful, Orderly, Told, Cause;
    if es != [] {
      StepFollows(s, es[0], i);
      OrderlyStays(s, es[0]);
      StampStays(Step(s, es[0]), es[1..], i);
    }
  }

  lemma {:induction false} CauseKeeps(e: Event, i: nat, c: Ctx, c': Ctx, reason: Reason)
    requires Cause(e, i, c, reason) && SameStamp(c, c')
    ensures Cause(e, i, c', reason)
  {
  }

  lemma {:induction false} CausedLater(es: seq<Event>, i: nat, c: Ctx, reason: Reason)
    requires es != [] && (Cause(es[0], i, c, reason) || CausedIn(es[1..], i, c, reason))
    ensures CausedIn(es, i, c, reason)
  {
    hide Cause;
    if !Cause(es[0], i, c, reason) {
      var k :| 0 <= k < |es[1..]| && Cause(es[1..][k], i, c, reason);
      assert Cause(es[k + 1], i, c, reason);
    }
  }

  /** In one run, from a state in which i was not told: what it is told has a cause in the run. */
  lemma {:induction false} CausesFrom(s: Sys, es: seq<Event>, i: nat, reason: Reason)
    requires Orderly(s) && Plausible(s, es) && i < |After(s, es).ctxs| && Told(After(s, es).ctxs[i], reason)
    ensures (i < |s.ctxs| && Told(s.ctxs[i], reason)) || CausedIn(es, i, After(s, es).ctxs[i], reason)
    decreases |es|
  {
    hide Step, Enabled, Faithful, Orderly, Told, Cause, CausedIn, SameStamp;
    if es != [] {
      var e, rest := es[0], es[1..];
      OrderlyStays(s, e);
      var s1, c' := Step(s, e), After(s, es).ctxs[i];
      CausesFrom(s1, rest, i, reason);
      if CausedIn(rest, i, c', reason) {
        CausedLater(es, i, c', reason);
      } else {
        if i < |s.ctxs| { StepFollows(s, e, i); } else { NewIsQuiet(s, e, i); }
        if !(i < |s.ctxs| && Told(s.ctxs[i], reason)) {
          ToldIsManaged(s1, i, reason);
          StampStays(s1, rest, i);
          CauseKeeps(e, i, s1.ctxs[i], c', reason);
          CausedLater(es, i, c', reason);
        }
      }
    }
  }

  lemma {:induction false} ToldIsManaged(s: Sys, i: nat, reason: Reason)
    requires Orderly(s) && i < |s.ctxs| && Told(s.ctxs[i], reason)
    ensures !s.ctxs[i].queued
  {
    assert s.ctxs[i].queued ==> Quiet(s.ctxs[i]);
  }

  /** After any run, however ids are used, a sender that is told that its request failed is told so because it
      did: no bitcoind was there, the id was in use, the checker ran later than the timeout allows after the request was
      entered, or the bitcoind that the request was given to was lost. */
  lemma {:induction false} FailuresHaveCauses(es: seq<Event>, i: nat, reason: Reason)
    requires Plausible(INITIAL, es) && i < |After(INITIAL, es).ctxs| && Told(After(INITIAL, es).ctxs[i], reason)
    ensures CausedIn(es, i, After(INITIAL, es).ctxs[i], reason)
  {
    hide Plausible, After, Told, CausedIn;
    CausesFrom(INITIAL, es, i, reason);
  }

  /** A request is stamped with the time at which it was entered, and the bitcoind it was given to. */
  lemma {:induction false} StampsFrom(s: Sys, es: seq<Event>, i: nat)
    requires Orderly(s) && Plausible(s, es) && i < |After(s, es).ctxs| && After(s, es).ctxs[i].installed
    ensures var c := After(s, es).ctxs[i];
      (i < |s.ctxs| && s.ctxs[i].installed) || (c.bd.Some? && Manage(i, c.bd, c.ts) in es)
    decreases |es|
  {
    hide Step, Enabled, Faithful, Orderly, Told, Cause;
    if es != [] {
      var e, rest := es[0], es[1..];
      OrderlyStays(s, e);
      var s1, c := Step(s, e), After(s, es).ctxs[i];
      StampsFrom(s1, rest, i);
      if i < |s1.ctxs| && s1.ctxs[i].installed {
        if i < |s.ctxs| { StepFollows(s, e, i); } else { NewIsQuiet(s, e, i); }
        InstalledIsManaged(s1, i);
        StampStays(s1, rest, i);
      }
    }
  }

  lemma {:induction false} InstalledIsManaged(s: Sys, i: nat)
    requires Orderly(s) && i < |s.ctxs| && s.ctxs[i].installed
    ensures !s.ctxs[i].queued
  {
  }

  /** After any run, a request that was ever in the table was entered by the manager at its stamp's time. */
  lemma {:induction false} StampsAreTrue(es: seq<Event>, i: nat)
    requires Plausible(INITIAL, es) && i < |After(INITIAL, es).ctxs| && After(INITIAL, es).ctxs[i].installed
    ensures var c := After(INITIAL, es).ctxs[i];
      c.bd.Some? && Manage(i, c.bd, c.ts) in es
  {
    hide Plausible, After;
    StampsFrom(INITIAL, es, i);
  }

  // ----- senders that are gone

  ghost predicate Gone(c: Ctx) {
    c.senderGone && !c.connected && c.signals == []
  }

  lemma {:induction false} GoneStays(s: Sys, e: Event, i: nat)
    requires Enabled(s, e) && i < |s.ctxs| && Gone(s.ctxs[i])
    ensures i < |Step(s, e).ctxs| && Gone(Step(s, e).ctxs[i]) && Step(s, e).ctxs[i].calls == s.ctxs[i].calls
  {
  }

  lemma {:induction false} GoneForGood(s: Sys, es: seq<Event>, i: nat)
    requires Plausible(s, es) && i < |s.ctxs| && Gone(s.ctxs[i])
    ensures i < |After(s, es).ctxs| && After(s, es).ctxs[i].calls == s.ctxs[i].calls
    decreases |es|
  {
    hide Step, Enabled, Faithful, Gone;
    if es != [] {
      GoneStays(s, es[0], i);
      GoneForGood(Step(s, es[0]), es[1..], i);
    }
  }

  /** Once the sender is deleted, none of its callbacks is run any more. */
  lemma {:induction false} SilentAfterDeath(s: Sys, es: seq<Event>, i: nat)
    requires Enabled(s, SenderDies(i)) && Plausible(Step(s, SenderDies(i)), es)
    ensures i < |After(Step(s, SenderDies(i)), es).ctxs|
    ensures After(Step(s, SenderDies(i)), es).ctxs[i].calls == s.ctxs[i].calls
  {
    GoneForGood(Step(s, SenderDies(i)), es, i);
  }
}
