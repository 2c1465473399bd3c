/** The reactor object: its queues, its state and its fd_group, changed step by step by the methods of
    the poll loop. A ghost copy of the protocol state follows every change, so each method is a run of
    the protocol and inherits what holds in all runs. */
module Reactor {
  import opened ReactorProtocol
  import opened ReactorTheorems

  ghost predicate Ran(a: Core, b: Core) { exists steps :: IsRun(a, steps, b) }

  lemma RanNothing(a: Core)
    ensures Ran(a, a)
  {
    assert IsRun(a, [], a);
  }

  lemma Advance(a: Core, b: Core, st: Step)
    requires Ran(a, b) && Inv(b) && Allowed(b, st)
    ensures Ran(a, Do(b, st)) && Inv(Do(b, st))
  {
    var steps :| IsRun(a, steps, b);
    Append(a, steps, b, st);
    InvStep(b, st);
  }

  /** Futures not sent before and threads not scheduled before, all different. */
  predicate New(s: Core, sent: seq<nat>, threads: seq<Thread>) {
    && (forall i, j :: 0 <= i < j < |sent| ==> sent[i] != sent[j]) && (forall f :: f in sent ==> f !in s.sent)
    && NoDup(threads) && forall t :: t in threads ==> t !in s.scheduled
  }

  lemma NewSame(s: Core, r: Core, sent: seq<nat>, threads: seq<Thread>)
    requires New(s, sent, threads) && r.sent == s.sent && r.scheduled == s.scheduled
    ensures New(r, sent, threads)
  {
  }

  lemma NewFront(s: Core, sent: seq<nat>, newcomers: seq<Thread>, called: seq<Thread>)
    requires New(s, sent, newcomers + called)
    ensures New(s, sent, newcomers)
  {
    assert forall i :: 0 <= i < |newcomers| ==> newcomers[i] == (newcomers + called)[i];
  }

  lemma NewRest(s: Core, r: Core, sent: seq<nat>, newcomers: seq<Thread>, called: seq<Thread>)
    requires New(s, sent, newcomers + called) && r.scheduled == s.scheduled + newcomers
    ensures New(r, [], called)
  {
    var all := newcomers + called;
    assert forall i :: 0 <= i < |called| ==> called[i] == all[|newcomers| + i];
    assert forall i :: 0 <= i < |newcomers| ==> newcomers[i] == all[i];
  }

  class Reactor {
    const enabled: bool
    const developerDelay: bool
    var flags: Mode
    var threads: seq<Thread>
    var incoming: seq<Thread>
    var channel: seq<nat>
    var eventfd: nat
    /** Thread fd_groups nested in the reactor's own. */
    var nested: set<Thread>
    /** Futures handed to the local queue. */
    var spawned: seq<nat>
    ghost var core: Core

    ghost predicate Valid()
      reads this
    {
      && Inv(core) && core.enabled == enabled && core.delay == developerDelay && core.mode == flags
      && core.threads == threads && core.incoming == incoming && core.channel == channel
      && core.eventfd == eventfd && core.nested == nested && core.received == spawned
    }

    constructor (interruptMode: bool, developerDelay: bool)
      ensures Valid() && core == Blank(interruptMode).(delay := developerDelay) && Fresh(core)
    {
      enabled, this.developerDelay := interruptMode, developerDelay;
      flags, threads, incoming, channel, eventfd, nested, spawned := Init, [], [], [], 0, {}, [];
      core := Blank(interruptMode).(delay := developerDelay);
      new;
      FreshInv(core);
    }

    /** Puts a future in the channel, then raises the eventfd of a reactor that may be asleep. */
    method SendFuture(f: nat)
      requires Valid() && f !in core.sent
      modifies this
      ensures Valid() && Ran(old(core), core) && core.pc == old(core.pc)
      ensures channel == old(channel) + [f] && threads == old(threads) && incoming == old(incoming)
      ensures flags == old(flags) && nested == old(nested) && spawned == old(spawned)
      ensures core.sent == old(core.sent) + [f] && core.scheduled == old(core.scheduled)
      ensures enabled && old(eventfd) < EVENTFD_MAX ==> eventfd == old(eventfd) + 1
    {
      hide Inv, IsRun, Ran;
      RanNothing(core);
      channel := channel + [f];
      Advance(old(core), core, SendPush(f));
      core := Do(core, SendPush(f));
      if enabled {
        eventfd := Bump(eventfd);
        Advance(old(core), core, SendWrite(f));
        core := Do(core, SendWrite(f));
      }
    }

    /** Another core schedules a thread here: queued first, then the eventfd is raised. */
    method ScheduleThread(t: Thread)
      requires Valid() && t !in core.scheduled
      modifies this
      ensures Valid() && Ran(old(core), core) && core.pc == old(core.pc)
      ensures incoming == old(incoming) + [t] && threads == old(threads) && channel == old(channel)
      ensures flags == old(flags) && nested == old(nested) && spawned == old(spawned)
      ensures core.sent == old(core.sent) && core.scheduled == old(core.scheduled) + [t]
      ensures enabled && old(eventfd) < EVENTFD_MAX ==> eventfd == old(eventfd) + 1
    {
      hide Inv, IsRun, Ran;
      RanNothing(core);
      incoming := incoming + [t];
      Advance(old(core), core, ScheduleRemote(t));
      core := Do(core, ScheduleRemote(t));
      if enabled {
        eventfd := Bump(eventfd);
        Advance(old(core), core, ScheduleWrite(t));
        core := Do(core, ScheduleWrite(t));
      }
    }

    /** What other cores send and schedule, in some order, while the reactor sleeps or polls. */
    method Arrive(sent: seq<nat>, newcomers: seq<Thread>, ghost start: Core)
      requires Valid() && Ran(start, core) && New(core, sent, newcomers)
      modifies this
      ensures Valid() && Ran(start, core) && core.pc == old(core.pc)
      ensures channel == old(channel) + sent && incoming == old(incoming) + newcomers && threads == old(threads)
      ensures flags == old(flags) && nested == old(nested) && spawned == old(spawned)
      ensures core.scheduled == old(core.scheduled) + newcomers
    {
      hide Inv, IsRun, Ran;
      for i := 0 to |sent|
        invariant Valid() && Ran(start, core) && core.pc == old(core.pc)
        invariant channel == old(channel) + sent[..i] && incoming == old(incoming) && threads == old(threads)
        invariant flags == old(flags) && nested == old(nested) && spawned == old(spawned)
        invariant core.sent == old(core.sent) + sent[..i] && core.scheduled == old(core.scheduled)
      {
        ghost var mid := core;
        SendFuture(sent[i]);
        RanJoin(start, mid, core);
        assert sent[..i + 1] == sent[..i] + [sent[i]];
      }
      assert sent[..|sent|] == sent;
      for i := 0 to |newcomers|
        invariant Valid() && Ran(start, core) && core.pc == old(core.pc)
        invariant channel == old(channel) + sent && threads == old(threads)
        invariant incoming == old(incoming) + newcomers[..i]
        invariant flags == old(flags) && nested == old(nested) && spawned == old(spawned)
        invariant core.scheduled == old(core.scheduled) + newcomers[..i]
      {
        ghost var mid := core;
        ScheduleThread(newcomers[i]);
        RanJoin(start, mid, core);
        assert newcomers[..i + 1] == newcomers[..i] + [newcomers[i]];
      }
      assert newcomers[..|newcomers|] == newcomers;
    }

    /** Callbacks, futures and polled threads schedule threads on the reactor's own core, without a wakeup. */
    method ScheduleHere(called: seq<Thread>, ghost start: Core)
      requires Valid() && Ran(start, core) && (core.pc == Woken || core.pc == Futures) && New(core, [], called)
      modifies this
      ensures Valid() && Ran(start, core) && core.pc == old(core.pc)
      ensures incoming == old(incoming) + called && threads == old(threads) && channel == old(channel)
      ensures flags == old(flags) && nested == old(nested) && spawned == old(spawned)
    {
      hide Inv, IsRun, Ran;
      for i := 0 to |called|
        invariant Valid() && Ran(start, core) && core.pc == old(core.pc)
        invariant incoming == old(incoming) + called[..i] && threads == old(threads) && channel == old(channel)
        invariant flags == old(flags) && nested == old(nested) && spawned == old(spawned)
        invariant core.scheduled == old(core.scheduled) + called[..i]
      {
        Advance(start, core, ScheduleLocal(called[i]));
        core := Do(core, ScheduleLocal(called[i]));
        incoming := incoming + [called[i]];
        assert called[..i + 1] == called[..i] + [called[i]];
      }
      assert called[..|called|] == called;
    }

    /** Starting the loop: the configured poll state, then interrupt mode if it is configured. */
    method EnterLoop()
      requires Valid() && core.pc == Boot
      modifies this
      ensures Valid() && Ran(old(core), core) && core.pc == Head
      ensures threads == old(threads) && incoming == old(incoming) && channel == old(channel)
      ensures flags == Interrupt ==> enabled && nested == FdSet(threads)
      ensures flags != Interrupt ==> flags == (if developerDelay then Delayed else Running) && nested == {}
    {
      hide Inv, IsRun, Ran, FdSet;
      RanNothing(core);
      assert nested == {} by { BootNothingNested(core); }
      flags := if developerDelay then Delayed else Running;
      Advance(old(core), core, Start);
      core := Do(core, Start);
      if enabled {
        label Entering:
        ghost var mid := core;
        EnterInterruptMode();
        RanJoin(old(core), mid, core);
      }
    }

    /** Nests every thread's fd_group; undoes them all when one fails. */
    method EnterInterruptMode()
      requires Valid() && core.pc == Nesting(0) && enabled && nested == {}
      modifies this
      ensures Valid() && Ran(old(core), core) && core.pc == Head
      ensures threads == old(threads) && incoming == old(incoming) && channel == old(channel)
      ensures || (flags == Interrupt && nested == FdSet(threads))
              || (flags == old(flags) && nested == {})
    {
      hide Inv, IsRun, Ran, FdSet;
      RanNothing(core);
      NoFds();
      var done: set<Thread> := {};
      var k := 0;
      assert threads[..0] == [];
      while k < |threads|
        invariant 0 <= k <= |threads| && Valid() && Ran(old(core), core) && core.pc == Nesting(k)
        invariant threads == old(threads) && incoming == old(incoming) && channel == old(channel) && flags == old(flags)
        invariant nested == done == FdSet(threads[..k])
      {
        var t := threads[k];
        var ok: bool := *;
        assert threads[..k + 1] == threads[..k] + [t];
        FdSetSnoc(threads[..k], t);
        Advance(old(core), core, NestNext(ok));
        core := Do(core, NestNext(ok));
        if t.hasFd {
          if !ok {
            nested := nested - done;
            return;
          }
          nested := nested + {t};
          done := done + {t};
        }
        k := k + 1;
      }
      assert threads[..k] == threads;
      Advance(old(core), core, NestNext(true));
      core := Do(core, NestNext(true));
      flags := Interrupt;
    }

    /** Hands every future in the channel to the local queue, in order. */
    method ReceiveFutures()
      requires Valid() && core.pc == Receiving
      modifies this
      ensures Valid() && Ran(old(core), core) && core.pc == Futures
      ensures channel == [] && spawned == old(spawned) + old(channel) && core.scheduled == old(core.scheduled)
      ensures threads == old(threads) && incoming == old(incoming) && flags == old(flags) && nested == old(nested)
    {
      hide Inv, IsRun, Ran, FdSet;
      RanNothing(core);
      while channel != []
        invariant Valid() && Ran(old(core), core) && core.pc == Receiving
        invariant spawned + channel == old(spawned) + old(channel) && core.scheduled == old(core.scheduled)
        invariant threads == old(threads) && incoming == old(incoming) && flags == old(flags) && nested == old(nested)
        decreases |channel|
      {
        Advance(old(core), core, ReceiveOne);
        core := Do(core, ReceiveOne);
        spawned := spawned + [channel[0]];
        channel := channel[1..];
      }
      Advance(old(core), core, EndReceive);
      core := Do(core, EndReceive);
    }

    /** Moves the next incoming thread to the list, nesting it unless an earlier nest failed. */
    method DrainNext(nest: bool, failed: bool) returns (nowFailed: bool)
      requires Valid() && core.pc == Draining(nest, failed) && incoming != []
      requires nest && !failed ==> nested == FdSet(threads)
      modifies this
      ensures Valid() && Ran(old(core), core) && core.pc == Draining(nest, nowFailed)
      ensures threads == old(threads) + [old(incoming)[0]] && incoming == old(incoming)[1..]
      ensures channel == old(channel) && flags == old(flags) && spawned == old(spawned)
      ensures (failed ==> nowFailed) && (nowFailed ==> nest || failed)
      ensures nest && !nowFailed ==> nested == FdSet(threads)
      ensures !nest ==> nested == old(nested)
    {
      hide Inv, IsRun, Ran, FdSet;
      RanNothing(core);
      var i := incoming[0];
      var ok: bool := *;
      Advance(old(core), core, DrainOne(ok));
      core := Do(core, DrainOne(ok));
      FdSetSnoc(threads, i);
      nowFailed := failed;
      if !failed && nest && i.hasFd {
        if ok { nested := nested + {i}; } else { nowFailed := true; }
      }
      incoming := incoming[1..];
      threads := threads + [i];
    }

    /** Drains the incoming queue in order. In interrupt mode each thread is nested; after a failed nest
        the rest is drained without nesting and the reactor falls back to poll mode. */
    method AddIncoming()
      requires Valid() && core.pc == Futures
      modifies this
      ensures Valid() && Ran(old(core), core) && core.pc == Reaping([])
      ensures incoming == [] && threads == old(threads) + old(incoming) && channel == old(channel)
      ensures spawned == old(spawned)
      ensures old(flags) == Interrupt ==>
                || (flags == Interrupt && nested == FdSet(threads))
                || (flags == Running && nested == {})
      ensures old(flags) != Interrupt ==> flags == old(flags) && nested == old(nested)
    {
      hide Inv, IsRun, Ran, FdSet;
      RanNothing(core);
      InterruptNested(core);
      var nest, failed := flags == Interrupt && enabled, false;
      Advance(old(core), core, BeginDrain);
      core := Do(core, BeginDrain);
      hide Do;
      while incoming != []
        invariant Valid() && Ran(old(core), core) && core.pc == Draining(nest, failed) && (failed ==> nest)
        invariant threads + incoming == old(threads) + old(incoming) && channel == old(channel) && flags == old(flags)
        invariant spawned == old(spawned)
        invariant nest && !failed ==> nested == FdSet(threads)
        invariant !nest ==> nested == old(nested)
        decreases |incoming|
      {
        ghost var mid := core;
        failed := DrainNext(nest, failed);
        RanJoin(old(core), mid, core);
      }
      EndDraining(nest, failed, old(core));
    }

    /** The end of the drain: straight on, or back to poll mode first. */
    method EndDraining(nest: bool, failed: bool, ghost start: Core)
      requires Valid() && core.pc == Draining(nest, failed) && incoming == [] && Ran(start, core)
      modifies this
      ensures Valid() && Ran(start, core) && core.pc == Reaping([])
      ensures threads == old(threads) && incoming == [] && channel == old(channel) && spawned == old(spawned)
      ensures if failed then flags == Running && nested == {} else flags == old(flags) && nested == old(nested)
    {
      hide Inv, IsRun, Ran, FdSet;
      Advance(start, core, EndDrain);
      core := Do(core, EndDrain);
      if failed {
        ghost var mid := core;
        LeaveInterruptMode();
        RanJoin(start, mid, core);
      }
    }

    /** Unnests every thread and returns to poll mode. */
    method LeaveInterruptMode()
      requires Valid() && core.pc == Leaving
      modifies this
      ensures Valid() && Ran(old(core), core) && core.pc == Reaping([])
      ensures flags == Running && nested == {} && spawned == old(spawned)
      ensures threads == old(threads) && incoming == old(incoming) && channel == old(channel)
    {
      hide IsRun, Ran, Inv, FdSet;
      RanNothing(core);
      LeaveNested(core);
      NoFds();
      Advance(old(core), core, Leave);
      core := Do(core, Leave);
      var k := 0;
      assert threads[..0] == [];
      ghost var was := nested;
      while k < |threads|
        invariant 0 <= k <= |threads| && threads == old(threads) && incoming == old(incoming) && channel == old(channel)
        invariant core == Do(old(core), Leave) && eventfd == old(eventfd) && spawned == old(spawned)
        invariant nested == was - FdSet(threads[..k])
      {
        assert threads[..k + 1] == threads[..k] + [threads[k]];
        FdSetSnoc(threads[..k], threads[k]);
        if threads[k].hasFd { nested := nested - {threads[k]}; }
        k := k + 1;
      }
      assert threads[..k] == threads;
      flags := Running;
    }

    /** Unnests and destroys the first of the removed threads. */
    method DestroyNext(removed: seq<Thread>)
      requires Valid() && core.pc == Reaping(removed) && removed != []
      modifies this
      ensures Valid() && Ran(old(core), core) && core.pc == Reaping(removed[1..])
      ensures threads == old(threads) && incoming == old(incoming) && flags == old(flags)
      ensures channel == old(channel) && spawned == old(spawned)
      ensures core.destroyed == old(core.destroyed) + [removed[0]]
    {
      hide Inv, IsRun, Ran;
      RanNothing(core);
      var t := removed[0];
      Advance(old(core), core, UnnestOne);
      core := Do(core, UnnestOne);
      if enabled && t.hasFd { nested := nested - {t}; }
      Advance(old(core), core, DestroyOne);
      core := Do(core, DestroyOne);
    }

    /** Takes the exited threads out of the list, unnests each and destroys it. */
    method DestroyExited(exited: set<Thread>)
      requires Valid() && core.pc == Reaping([])
      modifies this
      ensures Valid() && Ran(old(core), core) && core.pc == Head
      ensures threads == Keep(old(threads), exited) && incoming == old(incoming) && flags == old(flags)
      ensures channel == old(channel) && spawned == old(spawned)
      ensures core.destroyed == old(core.destroyed) + Keep(old(threads), (set t | t in old(threads)) - exited)
      ensures forall t :: t in core.destroyed ==> t !in nested
    {
      hide Inv, IsRun, Ran, FdSet, Keep;
      RanNothing(core);
      var removed := Keep(threads, (set t | t in threads) - exited);
      threads := Keep(threads, exited);
      Advance(old(core), core, Reap(exited));
      core := Do(core, Reap(exited));
      ghost var all := removed;
      assert core.destroyed + removed == old(core.destroyed) + all;
      hide Do;
      while removed != []
        invariant Valid() && Ran(old(core), core) && core.pc == Reaping(removed)
        invariant threads == Keep(old(threads), exited) && incoming == old(incoming) && flags == old(flags)
        invariant channel == old(channel) && spawned == old(spawned)
        invariant core.destroyed + removed == old(core.destroyed) + all
        decreases |removed|
      {
        ghost var mid := core;
        DestroyNext(removed);
        RanJoin(old(core), mid, core);
        removed := removed[1..];
      }
      EndReaping(old(core));
    }

    /** Blocks until the eventfd or another event fires, while other cores send and schedule; an eventfd that
        fired is drained, and the callbacks of the wait may schedule threads here themselves. */
    method WaitForEvents(sent: seq<nat>, newcomers: seq<Thread>, called: seq<Thread>, ghost start: Core)
      requires Valid() && core.pc == Waiting && Ran(start, core) && New(core, sent, newcomers + called)
      modifies this
      ensures Valid() && Ran(start, core) && core.pc == Receiving
      ensures threads == old(threads) && channel == old(channel) + sent
      ensures incoming == old(incoming) + newcomers + called
      ensures flags == old(flags) && nested == old(nested) && spawned == old(spawned)
    {
      hide Inv, IsRun, Ran, New;
      NewFront(core, sent, newcomers, called);
      Arrive(sent, newcomers, start);
      var drained: bool := *;
      if drained { eventfd := 0; }
      Advance(start, core, WaitReturn(drained));
      core := Do(core, WaitReturn(drained));
      NewRest(old(core), core, sent, newcomers, called);
      ScheduleHere(called, start);
      Advance(start, core, BeginReceive);
      core := Do(core, BeginReceive);
    }

    /** The part of a turn before the drain: asleep in interrupt mode, then the futures are received and run. */
    method TakeIn(sent: seq<nat>, newcomers: seq<Thread>, called: seq<Thread>, ghost start: Core)
      requires Valid() && Ran(start, core) && New(core, sent, newcomers + called)
      requires core.pc == if flags == Interrupt then Waiting else Receiving
      modifies this
      ensures Valid() && Ran(start, core) && core.pc == Futures
      ensures channel == [] && spawned == old(spawned) + old(channel) + sent
      ensures threads == old(threads) && incoming == old(incoming) + newcomers + called
      ensures flags == old(flags) && nested == old(nested)
    {
      hide Inv, IsRun, Ran, New;
      var mode := flags;
      if mode == Interrupt {
        WaitForEvents(sent, newcomers, called, start);
      } else {
        NewFront(core, sent, newcomers, called);
        Arrive(sent, newcomers, start);
      }
      ghost var mid := core;
      ReceiveFutures();
      RanJoin(start, mid, core);
      if mode != Interrupt {
        NewRest(old(core), core, sent, newcomers, called);
        ScheduleHere(called, start);
      }
    }

    /** One turn of poll_reactor's loop, during which other cores send futures and schedule threads, and so does
        what runs on its own. Unless it stops, every future and every thread that was waiting or came in is
        picked up in order, and exactly the exited threads are gone. It stops exactly when it finds a
        shutdown request, with nothing nested. */
    method Turn(sent: seq<nat>, newcomers: seq<Thread>, called: seq<Thread>, exited: set<Thread>) returns (stop: bool)
      requires Valid() && core.pc == Head && flags != Init && New(core, sent, newcomers + called)
      modifies this
      ensures Valid() && Ran(old(core), core)
      ensures stop <==> old(flags) == Shutdown
      ensures stop ==> core.pc == Stopped && nested == {} && threads == old(threads)
      ensures !stop ==> core.pc == Head && channel == [] && incoming == []
                        && spawned == old(spawned) + old(channel) + sent
                        && threads == Keep(old(threads) + old(incoming) + newcomers + called, exited)
    {
      hide Inv, IsRun, Ran, FdSet, Keep, New;
      RanNothing(core);
      ghost var start := core;
      var mode := flags;
      if mode == Shutdown {
        StopNested(core);
        Advance(start, core, LookAtMode);
        core := Do(core, LookAtMode);
        if enabled { nested := nested - FdSet(threads); flags := Running; }
        return true;
      }
      Advance(start, core, LookAtMode);
      core := Do(core, LookAtMode);
      NewSame(start, core, sent, newcomers + called);
      hide Do;
      TakeIn(sent, newcomers, called, start);
      assert threads + incoming == old(threads) + old(incoming) + newcomers + called;
      ghost var mid := core;
      AddIncoming();
      RanJoin(start, mid, core);
      mid := core;
      DestroyExited(exited);
      RanJoin(start, mid, core);
      return false;
    }

    ghost method EndReaping(start: Core)
      requires Valid() && core.pc == Reaping([]) && Ran(start, core)
      modifies this`core
      ensures Valid() && Ran(start, core) && core.pc == Head && core.destroyed == old(core.destroyed)
      ensures forall t :: t in core.destroyed ==> t !in nested
    {
      hide Inv, IsRun, Ran;
      Advance(start, core, EndReap);
      core := Do(core, EndReap);
      forall t | t in core.destroyed ensures t !in nested { DestroyedNotNested(core, t); }
    }
  }

  lemma RanJoin(a: Core, b: Core, c: Core)
    requires Ran(a, b) && Ran(b, c)
    ensures Ran(a, c)
  {
    var s1 :| IsRun(a, s1, b);
    var s2 :| IsRun(b, s2, c);
    RunJoin(a, s1, b, s2, c);
  }

  lemma {:induction false} RunJoin(a: Core, s1: seq<Step>, b: Core, s2: seq<Step>, c: Core)
    requires IsRun(a, s1, b) && IsRun(b, s2, c)
    ensures IsRun(a, s1 + s2, c)
    decreases |s1|
  {
    hide Do, Allowed;
    if s1 == [] {
      assert s1 + s2 == s2;
    } else {
      RunJoin(Do(a, s1[0]), s1[1..], b, s2, c);
      assert (s1 + s2)[1..] == s1[1..] + s2;
    }
  }

  lemma BootNothingNested(s: Core)
    requires Inv(s) && s.pc.Boot?
    ensures s.nested == {}
  {
  }

  lemma LeaveNested(s: Core)
    requires Inv(s) && s.pc.Leaving?
    ensures s.enabled && s.nested - FdSet(s.threads) == {}
  {
    assert s.threads + [] == s.threads;
  }

  lemma StopNested(s: Core)
    requires Inv(s) && s.pc.Head?
    ensures if s.enabled then s.nested - FdSet(s.threads) == {} else s.nested == {}
  {
    assert s.threads + [] == s.threads;
  }

  lemma InterruptNested(s: Core)
    requires Inv(s) && s.pc.Futures?
    ensures s.mode == Interrupt ==> s.enabled && s.nested == FdSet(s.threads)
  {
    assert s.threads + [] == s.threads;
  }

  lemma DestroyedNotNested(s: Core, t: Thread)
    requires Inv(s) && t in s.destroyed
    ensures t !in s.nested
  {
    KeepIn(s.drained, Gone(Removed(s), s.destroyed), t);
    assert t !in Owned(s);
  }
}
