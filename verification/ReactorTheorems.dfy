/** What holds in every reachable state of a reactor, under every interleaving. */
module ReactorTheorems {
  import opened ReactorProtocol

  ghost predicate Inv(s: Core) {
    WakeInv(s) && DeliveryInv(s) && ThreadInv(s) && ModeInv(s) && NestInv(s)
  }

  lemma FreshInv(s: Core)
    requires Fresh(s)
    ensures Inv(s)
  {
    assert s.threads + [] == s.threads;
    forall t ensures t !in Gone([], []) { }
    KeepAll(s.threads);
    assert Gone([], []) == {};
  }

  lemma {:induction false} KeepAll(s: seq<Thread>)
    ensures Keep(s, {}) == s
  {
    if s != [] { KeepAll(s[..|s| - 1]); }
  }

  lemma InvStep(s: Core, st: Step)
    requires Inv(s) && Allowed(s, st)
    ensures Inv(Do(s, st))
  {
    hide WakeInv, DeliveryInv, ThreadInv, ModeInv, NestInv, Do, Allowed;
    WakeStep(s, st);
    DeliveryStep(s, st);
    ThreadStep(s, st);
    ModeStep(s, st);
    NestStep(s, st);
  }

  lemma {:induction false} RunInv(s: Core, steps: seq<Step>, end: Core)
    requires Inv(s) && IsRun(s, steps, end)
    ensures Inv(end)
    decreases |steps|
  {
    hide Inv, Do, Allowed;
    if steps != [] {
      InvStep(s, steps[0]);
      RunInv(Do(s, steps[0]), steps[1..], end);
    }
  }

  lemma ReachableInv(s: Core)
    requires Reachable(s)
    ensures Inv(s)
  {
    hide Inv, Do, Allowed;
    var s0, steps :| Fresh(s0) && IsRun(s0, steps, s);
    FreshInv(s0);
    RunInv(s0, steps, s);
  }

  /** No lost wakeup: whenever a reactor is blocked in its wait, every future in its channel and every
      thread in its incoming queue has the eventfd raised, or its own sender still about to raise it.
      The only exception are threads scheduled on the reactor's own core before its loop started. */
  lemma NoLostWakeup(s: Core)
    requires Reachable(s) && s.pc.Waiting?
    ensures forall f :: f in s.channel ==> s.eventfd > 0 || ForFuture(f) in s.owed
    ensures forall t :: t in s.incoming ==> t in s.bootLocal || s.eventfd > 0 || ForThread(t) in s.owed
  {
    ReachableInv(s);
    forall f | f in s.channel ensures s.eventfd > 0 || ForFuture(f) in s.owed { assert FutureSafe(s, f); }
    forall t | t in s.incoming ensures t in s.bootLocal || s.eventfd > 0 || ForThread(t) in s.owed {
      assert ThreadSafe(s, t);
    }
  }

  /** Whoever still owes a write has pushed: so nothing is pushed, or written, twice. */
  ghost predicate OwedKnown(s: Core) {
    && (forall f :: ForFuture(f) in s.owed ==> f in s.sent)
    && (forall t :: ForThread(t) in s.owed ==> t in s.scheduled)
  }

  lemma OwedKnownStep(s: Core, st: Step)
    requires OwedKnown(s) && Allowed(s, st)
    ensures OwedKnown(Do(s, st))
  {
    hide FdSet, Keep, Bump;
  }

  lemma HistoryGrows(s: Core, st: Step)
    requires Allowed(s, st)
    ensures var r := Do(s, st); r.enabled == s.enabled && s.sent <= r.sent && s.scheduled <= r.scheduled
  {
    hide FdSet, Keep, Bump;
  }

  lemma {:induction false} PushedOnce(s: Core, steps: seq<Step>, end: Core)
    requires IsRun(s, steps, end)
    ensures forall f :: f in s.sent ==> SendPush(f) !in steps
    ensures forall t :: t in s.scheduled ==> ScheduleRemote(t) !in steps
    decreases |steps|
  {
    hide Do;
    if steps != [] {
      HistoryGrows(s, steps[0]);
      PushedOnce(Do(s, steps[0]), steps[1..], end);
      assert steps == [steps[0]] + steps[1..];
    }
  }

  /** A write is owed exactly for what was pushed and not yet written, in interrupt mode. */
  lemma {:induction false} OwedRun(s: Core, steps: seq<Step>, end: Core)
    requires OwedKnown(s) && IsRun(s, steps, end)
    ensures forall f :: ForFuture(f) in end.owed
              <==> (ForFuture(f) in s.owed || (s.enabled && SendPush(f) in steps)) && SendWrite(f) !in steps
    ensures forall t :: ForThread(t) in end.owed
              <==> (ForThread(t) in s.owed || (s.enabled && ScheduleRemote(t) in steps)) && ScheduleWrite(t) !in steps
    decreases |steps|
  {
    hide Do;
    if steps != [] {
      var r, tail := Do(s, steps[0]), steps[1..];
      OwedKnownStep(s, steps[0]);
      OwedRun(r, tail, end);
      PushedOnce(r, tail, end);
      assert steps == [steps[0]] + tail;
      OwedStep(s, steps[0]);
      HistoryGrows(s, steps[0]);
    }
  }

  lemma OwedStep(s: Core, st: Step)
    requires Allowed(s, st)
    ensures Do(s, st).owed == match st
              case SendPush(f) => if s.enabled then s.owed + {ForFuture(f)} else s.owed
              case SendWrite(f) => s.owed - {ForFuture(f)}
              case ScheduleRemote(t) => if s.enabled then s.owed + {ForThread(t)} else s.owed
              case ScheduleWrite(t) => s.owed - {ForThread(t)}
              case _ => s.owed
  {
    hide FdSet, Keep, Bump;
  }

  /** The thread was scheduled on the reactor's own core before its loop started. */
  ghost predicate BeforeLoop(steps: seq<Step>, t: Thread) {
    exists p :: 0 <= p < |steps| && steps[p] == ScheduleLocal(t) && Start !in steps[..p]
  }

  lemma {:induction false} BootLocalRun(s: Core, steps: seq<Step>, end: Core, t: Thread)
    requires IsRun(s, steps, end) && t in end.bootLocal && t !in s.bootLocal
    ensures s.pc.Boot? && BeforeLoop(steps, t)
    decreases |steps|
  {
    hide Do, Allowed;
    var r, tail := Do(s, steps[0]), steps[1..];
    BootLocalStep(s, steps[0]);
    if t in r.bootLocal {
      assert steps[0] == ScheduleLocal(t) && Start !in steps[..0];
    } else {
      BootLocalRun(r, tail, end, t);
      var p :| 0 <= p < |tail| && tail[p] == ScheduleLocal(t) && Start !in tail[..p];
      assert steps[..p + 1] == [steps[0]] + tail[..p];
      assert steps[p + 1] == ScheduleLocal(t) && Start !in steps[..p + 1];
    }
  }

  lemma BootLocalStep(s: Core, st: Step)
    requires Allowed(s, st)
    ensures Do(s, st).bootLocal == if s.pc.Boot? && st.ScheduleLocal? then s.bootLocal + {st.t} else s.bootLocal
    ensures Do(s, st).pc.Boot? ==> s.pc.Boot? && st != Start
  {
    hide FdSet, Keep, Bump;
    if st.ScheduleLocal? {
    } else {
      assert Do(s, st).bootLocal == s.bootLocal;
    }
  }

  /** The same said of the run alone: whenever a reactor is blocked in its wait, every future waiting for it has the
      eventfd raised, or was pushed by a sender that has not come to its own write yet; and so has every waiting thread,
      unless it was scheduled on the reactor's own core before its loop started. */
  lemma NoLostWakeupInRun(s0: Core, steps: seq<Step>, s: Core)
    requires Fresh(s0) && IsRun(s0, steps, s) && s.pc.Waiting?
    ensures forall f :: f in s.channel ==> s.eventfd > 0 || (SendPush(f) in steps && SendWrite(f) !in steps)
    ensures forall t :: t in s.incoming ==>
              s.eventfd > 0 || (ScheduleRemote(t) in steps && ScheduleWrite(t) !in steps) || BeforeLoop(steps, t)
  {
    hide IsRun, BeforeLoop;
    NoLostWakeup(s);
    OwedRun(s0, steps, s);
    forall t | t in s.bootLocal ensures BeforeLoop(steps, t) { BootLocalRun(s0, steps, s, t); }
  }

  /** Whenever a reactor sleeps, every thread it owns that has an fd_group is nested under the group it
      sleeps on; outside a failed nest's fallback the same holds throughout interrupt mode, and in poll
      mode nothing is nested. */
  lemma NestingMatchesMode(s: Core)
    requires Reachable(s)
    ensures s.pc.Waiting? ==> s.nested == FdSet(s.threads)
    ensures s.mode == Interrupt && !InFallback(s) ==> forall t :: t in s.threads && t.hasFd ==> t in s.nested
    ensures s.mode in {Running, Delayed} && !s.pc.Nesting? ==> s.nested == {}
  {
    ReachableInv(s);
  }

  /** Entering interrupt mode nests all threads or none, whichever nest fails. */
  lemma EnterAllOrNone(s: Core, ok: bool)
    requires Reachable(s) && s.pc.Nesting? && Allowed(s, NestNext(ok))
    ensures var r := Do(s, NestNext(ok));
            r.pc.Head? ==> if r.mode == Interrupt then r.nested == FdSet(r.threads) else r.nested == {}
  {
    ReachableInv(s);
    InvStep(s, NestNext(ok));
    assert s.threads + [] == s.threads;
    assert s.threads[..|s.threads|] == s.threads;
    assert s.nested - FdSet(s.threads[..s.pc.k]) == {};
  }

  /** Draining the incoming queue ends in interrupt mode with everything nested, or leads to poll mode with
      nothing nested (unless a shutdown was requested meanwhile). */
  lemma DrainAllOrNone(s: Core)
    requires Reachable(s)
    ensures s.pc.Draining? && Allowed(s, EndDrain) && !s.pc.failed && s.mode == Interrupt ==>
              Do(s, EndDrain).nested == FdSet(s.threads)
    ensures s.pc.Leaving? ==> Do(s, Leave).mode == Running && Do(s, Leave).nested == {}
  {
    ReachableInv(s);
    assert s.threads + [] == s.threads;
    if s.pc.Leaving? { assert s.nested - FdSet(s.threads) == {}; }
  }

  /** Every scheduled thread is in exactly one place; the queues keep the order of scheduling; a thread
      about to be destroyed, or destroyed, is not nested. */
  lemma ThreadsConserved(s: Core, t: Thread)
    requires Reachable(s) && t in s.scheduled
    ensures (if t in s.incoming then 1 else 0) + (if t in s.threads then 1 else 0)
            + (if t in Removed(s) then 1 else 0) + (if t in s.destroyed then 1 else 0) == 1
    ensures s.drained + s.incoming == s.scheduled && s.threads == Keep(s.drained, Gone(Removed(s), s.destroyed))
    ensures t in s.destroyed ==> t !in s.nested
    ensures Allowed(s, DestroyOne) ==> s.pc.removed[0] !in s.nested
  {
    ReachableInv(s);
    ExactlyOnePlace(s, t);
    if Allowed(s, DestroyOne) { DestroyNested(s); }
    if t in s.destroyed { assert t !in Owned(s); }
  }

  // ------------------------------------------------------------ from wakeup to sleep

  /** Futures sent and threads scheduled before a wakeup are all picked up before the reactor sleeps again. */
  lemma WakeupDelivers(s: Core, steps: seq<Step>, end: Core)
    requires Reachable(s) && s.pc.Woken? && IsRun(s, steps, end) && end.pc.Waiting?
    ensures s.sent <= end.received && s.scheduled <= end.drained
  {
    ReachableInv(s);
    PickedUp(s, s, steps, end);
  }

  predicate Pending(mark: Core, s: Core) {
    && mark.sent <= s.sent && mark.scheduled <= s.scheduled
    && (WillReceive(s) || mark.sent <= s.received)
    && (WillDrain(s) || mark.scheduled <= s.drained)
  }

  lemma {:induction false} PickedUp(mark: Core, s: Core, steps: seq<Step>, end: Core)
    requires Inv(s) && Pending(mark, s) && IsRun(s, steps, end)
    ensures Pending(mark, end)
    decreases |steps|
  {
    if steps != [] {
      InvStep(s, steps[0]);
      PendingStep(mark, s, steps[0]);
      PickedUp(mark, Do(s, steps[0]), steps[1..], end);
    }
  }

  lemma PendingStep(mark: Core, s: Core, st: Step)
    requires Inv(s) && Pending(mark, s) && Allowed(s, st)
    ensures Pending(mark, Do(s, st))
  {
    hide WakeInv, ModeInv, NestInv, Keep, FdSet;
    DeliveryStep(s, st);
    var r := Do(s, st);
    assert s.scheduled <= r.scheduled && s.drained <= r.drained;
    if st.EndReceive? { assert s.received + [] == s.received; }
    if st.EndDrain? { assert s.drained + [] == s.drained; }
  }

  // --------------------------------------------------------------- what does not hold

  lemma Extend(s: Core, st: Step)
    requires Reachable(s) && Allowed(s, st)
    ensures Reachable(Do(s, st))
  {
    var s0, steps :| Fresh(s0) && IsRun(s0, steps, s);
    Append(s0, steps, s, st);
  }

  lemma {:induction false} Append(s0: Core, steps: seq<Step>, s: Core, st: Step)
    requires IsRun(s0, steps, s) && Allowed(s, st)
    ensures IsRun(s0, steps + [st], Do(s, st))
    decreases |steps|
  {
    hide Do, Allowed;
    if steps == [] {
      assert (steps + [st])[1..] == [];
    } else {
      Append(Do(s0, steps[0]), steps[1..], s, st);
      assert (steps + [st])[1..] == steps[1..] + [st];
    }
  }

  function Blank(enabled: bool): Core {
    Core(enabled, false, Init, Boot, [], [], [], 0, {}, {}, [], [], [], [], [], {})
  }

  lemma BlankReachable(enabled: bool)
    ensures Reachable(Blank(enabled))
  {
    var s := Blank(enabled);
    assert IsRun(s, [], s);
  }

  /** The exception in NoLostWakeup is real: a thread scheduled on the reactor's own core before its loop
      started can sit in the queue of a sleeping reactor with nothing to wake it. Only launch_master starts
      the loop on a core that may have scheduled threads for itself, and nothing in the engine calls it. */
  lemma BootThreadCanBeStranded(t: Thread) returns (s: Core)
    ensures Reachable(s) && s.pc.Waiting? && s.incoming == [t] && s.eventfd == 0 && s.owed == {}
  {
    hide Reachable;
    var a := Blank(true);
    BlankReachable(true);
    Extend(a, ScheduleLocal(t));
    var b := Do(a, ScheduleLocal(t));
    Extend(b, Start);
    var c := Do(b, Start);
    Extend(c, NestNext(true));
    var d := Do(c, NestNext(true));
    Extend(d, LookAtMode);
    s := Do(d, LookAtMode);
  }

  /** A shutdown requested while a failed nest is being handled is lost. */
  lemma ShutdownCanBeLost(t: Thread) returns (s: Core, r: Core)
    requires t.hasFd
    ensures Reachable(s) && s.mode == Shutdown && s.pc.Leaving?
    ensures r == Do(s, Leave) && r.mode == Running && !r.pc.Stopped?
  {
    hide Reachable, Keep;
    var f := DrainingReachable(t);
    Extend(f, DrainOne(false));
    var g := Do(f, DrainOne(false));
    Extend(g, RequestShutdown);
    var h := Do(g, RequestShutdown);
    Extend(h, EndDrain);
    s := Do(h, EndDrain);
    r := Do(s, Leave);
  }

  /** A thread was scheduled to a sleeping reactor, which is now about to drain it. */
  lemma DrainingReachable(t: Thread) returns (s: Core)
    ensures Reachable(s) && s.enabled && s.mode == Interrupt && s.pc == Draining(true, false) && s.incoming == [t]
  {
    hide Reachable, Keep, FdSet;
    var c := WokenReachable(t);
    Extend(c, BeginReceive);
    var d := Do(c, BeginReceive);
    Extend(d, EndReceive);
    var e := Do(d, EndReceive);
    Extend(e, BeginDrain);
    s := Do(e, BeginDrain);
  }

  lemma WokenReachable(t: Thread) returns (s: Core)
    ensures Reachable(s) && s.enabled && s.mode == Interrupt && s.pc == Woken && s.incoming == [t] && s.channel == []
  {
    hide Reachable, Keep, FdSet;
    var a := AsleepReachable();
    Extend(a, ScheduleRemote(t));
    var b := Do(a, ScheduleRemote(t));
    Extend(b, WaitReturn(true));
    s := Do(b, WaitReturn(true));
  }

  /** A reactor with no threads, asleep in interrupt mode. */
  lemma AsleepReachable() returns (s: Core)
    ensures Reachable(s) && s == Blank(true).(mode := Interrupt, pc := Waiting)
  {
    hide Reachable;
    var a := Blank(true);
    BlankReachable(true);
    Extend(a, Start);
    var b := Do(a, Start);
    Extend(b, NestNext(true));
    var c := Do(b, NestNext(true));
    Extend(c, LookAtMode);
    s := Do(c, LookAtMode);
  }
}
