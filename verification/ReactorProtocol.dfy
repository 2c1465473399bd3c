/** One reactor and the cores around it as a state machine. The reactor's own steps follow its poll
    loop; senders, schedulers and the shutdown request run on other cores and interleave freely. */
module ReactorProtocol {
  /** An SPDK thread, and whether it has an interrupt fd_group. */
  datatype Thread = Thread(id: nat, hasFd: bool)

  datatype Mode = Init | Running | Shutdown | Delayed | Interrupt

  /** Where the reactor's core is in its loop. */
  datatype Pc =
    | Boot                                   // before poll_reactor
    | Nesting(k: nat)                        // enter_interrupt_mode, at thread k
    | Head                                   // looking at its state
    | Waiting                                // blocked in fd_group_wait
    | Woken                                  // the wait returned and ran its callbacks
    | Receiving                              // receive_futures
    | Futures                                // run_futures, and polling threads in poll mode
    | Draining(nest: bool, failed: bool)     // add_incoming
    | Leaving                                // falling back to poll mode
    | Reaping(removed: seq<Thread>)          // destroy_exited
    | Destroying(removed: seq<Thread>)       // with the first of the removed threads unnested
    | Stopped

  /** A write to the wakeup eventfd that a sender or a scheduler still has to do. */
  datatype Wake = ForFuture(f: nat) | ForThread(t: Thread)

  const EVENTFD_MAX := 0xffff_ffff_ffff_fffe

  datatype Core = Core(
    enabled: bool,                           // interrupt mode configured: fd_group and eventfd exist
    delay: bool,
    mode: Mode, pc: Pc,
    threads: seq<Thread>, incoming: seq<Thread>, channel: seq<nat>,
    eventfd: nat, owed: set<Wake>, nested: set<Thread>,
    // history
    scheduled: seq<Thread>, drained: seq<Thread>, destroyed: seq<Thread>,
    sent: seq<nat>, received: seq<nat>, bootLocal: set<Thread>)

  datatype Step =
    // other cores
    | SendPush(f: nat) | SendWrite(f: nat)
    | ScheduleRemote(t: Thread) | ScheduleWrite(t: Thread) | RequestShutdown
    // the reactor's own core
    | ScheduleLocal(t: Thread)
    | Start | NestNext(ok: bool) | LookAtMode | WaitReturn(drain: bool)
    | BeginReceive | ReceiveOne | EndReceive | BeginDrain | DrainOne(ok: bool) | EndDrain
    | Leave | Reap(exited: set<Thread>) | UnnestOne | DestroyOne | EndReap

  function FdSet(ts: seq<Thread>): set<Thread> { set t | t in ts && t.hasFd }

  /** The elements of s outside `gone`, in order. */
  function Keep(s: seq<Thread>, gone: set<Thread>): seq<Thread> {
    if s == [] then []
    else Keep(s[..|s| - 1], gone) + if s[|s| - 1] in gone then [] else [s[|s| - 1]]
  }

  predicate Allowed(s: Core, st: Step) {
    match st
    case SendPush(f) => f !in s.sent
    case SendWrite(f) => ForFuture(f) in s.owed
    case ScheduleRemote(t) => t !in s.scheduled
    case ScheduleWrite(t) => ForThread(t) in s.owed
    case RequestShutdown => true
    case ScheduleLocal(t) => t !in s.scheduled && (s.pc.Boot? || s.pc.Woken? || s.pc.Futures?)
    case Start => s.pc.Boot?
    case NestNext(_) => s.pc.Nesting? && s.pc.k <= |s.threads|
    case LookAtMode => s.pc.Head? && s.mode != Init
    case WaitReturn(_) => s.pc.Waiting?
    case BeginReceive => s.pc.Woken?
    case ReceiveOne => s.pc.Receiving? && s.channel != []
    case EndReceive => s.pc.Receiving? && s.channel == []
    case BeginDrain => s.pc.Futures?
    case DrainOne(_) => s.pc.Draining? && s.incoming != []
    case EndDrain => s.pc.Draining? && s.incoming == []
    case Leave => s.pc.Leaving?
    case Reap(_) => s.pc.Reaping? && s.pc.removed == []
    case UnnestOne => s.pc.Reaping? && s.pc.removed != []
    case DestroyOne => s.pc.Destroying? && s.pc.removed != []
    case EndReap => s.pc.Reaping? && s.pc.removed == []
  }

  function Bump(n: nat): nat { if n >= EVENTFD_MAX then n else n + 1 }

  function Do(s: Core, st: Step): Core
    requires Allowed(s, st)
  {
    match st
    case SendPush(f) =>
      s.(channel := s.channel + [f], sent := s.sent + [f],
         owed := if s.enabled then s.owed + {ForFuture(f)} else s.owed)
    case SendWrite(f) => s.(owed := s.owed - {ForFuture(f)}, eventfd := Bump(s.eventfd))
    case ScheduleRemote(t) =>
      s.(incoming := s.incoming + [t], scheduled := s.scheduled + [t],
         owed := if s.enabled then s.owed + {ForThread(t)} else s.owed)
    case ScheduleWrite(t) => s.(owed := s.owed - {ForThread(t)}, eventfd := Bump(s.eventfd))
    case RequestShutdown => s.(mode := Shutdown)
    case ScheduleLocal(t) =>
      s.(incoming := s.incoming + [t], scheduled := s.scheduled + [t],
         bootLocal := if s.pc.Boot? then s.bootLocal + {t} else s.bootLocal)
    case Start =>
      s.(mode := if s.delay then Delayed else Running, pc := if s.enabled then Nesting(0) else Head)
    case NestNext(ok) =>
      if s.pc.k == |s.threads| then s.(mode := Interrupt, pc := Head)
      else if !s.threads[s.pc.k].hasFd then s.(pc := Nesting(s.pc.k + 1))
      else if ok then s.(nested := s.nested + {s.threads[s.pc.k]}, pc := Nesting(s.pc.k + 1))
      else s.(nested := s.nested - FdSet(s.threads[..s.pc.k]), pc := Head)
    case LookAtMode =>
      (match s.mode
       case Interrupt => s.(pc := Waiting)
       case Shutdown =>
         if s.enabled then s.(nested := s.nested - FdSet(s.threads), mode := Running, pc := Stopped)
         else s.(pc := Stopped)
       case _ => s.(pc := Receiving))
    case WaitReturn(drain) => s.(eventfd := if drain then 0 else s.eventfd, pc := Woken)
    case BeginReceive => s.(pc := Receiving)
    case ReceiveOne => s.(channel := s.channel[1..], received := s.received + [s.channel[0]])
    case EndReceive => s.(pc := Futures)
    case BeginDrain => s.(pc := Draining(s.mode == Interrupt && s.enabled, false))
    case DrainOne(ok) =>
      var t := s.incoming[0];
      var tries := s.pc.nest && !s.pc.failed && t.hasFd;
      s.(incoming := s.incoming[1..], drained := s.drained + [t], threads := s.threads + [t],
         nested := if tries && ok then s.nested + {t} else s.nested,
         pc := if tries && !ok then Draining(true, true) else s.pc)
    case EndDrain => s.(pc := if s.pc.failed then Leaving else Reaping([]))
    case Leave =>
      s.(nested := if s.enabled then s.nested - FdSet(s.threads) else s.nested, mode := Running, pc := Reaping([]))
    case Reap(exited) =>
      s.(threads := Keep(s.threads, exited), pc := Reaping(Keep(s.threads, (set t | t in s.threads) - exited)))
    case UnnestOne =>
      var t := s.pc.removed[0];
      s.(nested := if s.enabled && t.hasFd then s.nested - {t} else s.nested, pc := Destroying(s.pc.removed))
    case DestroyOne => s.(destroyed := s.destroyed + [s.pc.removed[0]], pc := Reaping(s.pc.removed[1..]))
    case EndReap => s.(pc := Head)
  }

  predicate NoDup(s: seq<Thread>) { forall i, j :: 0 <= i < j < |s| ==> s[i] != s[j] }

  /** A reactor before its loop: whatever threads it already has are its own and none is nested. */
  predicate Fresh(s: Core) {
    && s.mode == Init && s.pc == Boot && s.channel == [] && s.incoming == [] && s.eventfd == 0 && s.owed == {}
    && s.nested == {} && s.scheduled == s.drained == s.threads && NoDup(s.threads) && s.destroyed == []
    && s.sent == [] && s.received == [] && s.bootLocal == {}
  }

  ghost predicate IsRun(s: Core, steps: seq<Step>, end: Core)
    decreases |steps|
  {
    if steps == [] then s == end
    else Allowed(s, steps[0]) && IsRun(Do(s, steps[0]), steps[1..], end)
  }

  ghost predicate Reachable(s: Core) {
    exists s0, steps :: Fresh(s0) && IsRun(s0, steps, s)
  }

  // ----------------------------------------------------------------- no lost wakeup

  /** Has the reactor yet to look at its channel, and at its incoming queue, before it can block again? */
  predicate WillReceive(s: Core) { s.pc.Woken? || s.pc.Receiving? }

  predicate WillDrain(s: Core) { s.pc.Woken? || s.pc.Receiving? || s.pc.Futures? || s.pc.Draining? }

  predicate FutureSafe(s: Core, f: nat) { s.eventfd > 0 || ForFuture(f) in s.owed || WillReceive(s) }

  predicate ThreadSafe(s: Core, t: Thread) {
    t in s.bootLocal || s.eventfd > 0 || ForThread(t) in s.owed || WillDrain(s)
  }

  predicate WakeInv(s: Core) {
    s.enabled ==>
      (forall f :: f in s.channel ==> FutureSafe(s, f)) && (forall t :: t in s.incoming ==> ThreadSafe(s, t))
  }

  lemma WakeStep(s: Core, st: Step)
    requires WakeInv(s) && Allowed(s, st)
    ensures WakeInv(Do(s, st))
  {
    var r := Do(s, st);
    if s.enabled {
      forall f | f in r.channel ensures FutureSafe(r, f) {
        if f in s.channel { assert FutureSafe(s, f); }
      }
      forall t | t in r.incoming ensures ThreadSafe(r, t) {
        if t in s.incoming { assert ThreadSafe(s, t); }
      }
    }
  }

  // ------------------------------------------------------------- delivery of futures

  /** Futures are received in the order they were sent, each once, and none is lost. */
  predicate DeliveryInv(s: Core) { s.received + s.channel == s.sent }

  lemma DeliveryStep(s: Core, st: Step)
    requires DeliveryInv(s) && Allowed(s, st)
    ensures DeliveryInv(Do(s, st))
    ensures s.received <= Do(s, st).received && s.sent <= Do(s, st).sent
  {
    if st.SendPush? {
      assert s.received + (s.channel + [st.f]) == (s.received + s.channel) + [st.f];
    } else if st.ReceiveOne? {
      assert (s.received + [s.channel[0]]) + s.channel[1..] == s.received + s.channel;
    }
  }

  // --------------------------------------------------------- conservation of threads

  function Removed(s: Core): seq<Thread> { if s.pc.Reaping? || s.pc.Destroying? then s.pc.removed else [] }

  /** The reactor drains threads in the order they were scheduled, keeps them in that order, and gives
      up exactly those it removed as exited, each of which it destroys once. */
  ghost predicate Places(scheduled: seq<Thread>, drained: seq<Thread>, incoming: seq<Thread>, threads: seq<Thread>,
                         removed: seq<Thread>, destroyed: seq<Thread>)
  {
    && NoDup(scheduled) && drained + incoming == scheduled
    && NoDup(removed) && NoDup(destroyed) && (forall t :: t in removed ==> t in drained && t !in destroyed)
    && (forall t :: t in destroyed ==> t in drained)
    && threads == Keep(drained, Gone(removed, destroyed))
  }

  ghost function Gone(removed: seq<Thread>, destroyed: seq<Thread>): set<Thread> {
    (set t | t in removed) + (set t | t in destroyed)
  }

  ghost predicate ThreadInv(s: Core) {
    Places(s.scheduled, s.drained, s.incoming, s.threads, Removed(s), s.destroyed)
  }

  lemma {:induction false} KeepIn(s: seq<Thread>, gone: set<Thread>, t: Thread)
    ensures t in Keep(s, gone) <==> t in s && t !in gone
  {
    if s != [] { KeepIn(s[..|s| - 1], gone, t); }
  }

  lemma KeepSnoc(s: seq<Thread>, t: Thread, gone: set<Thread>)
    ensures Keep(s + [t], gone) == Keep(s, gone) + if t in gone then [] else [t]
  {
    assert (s + [t])[..|s|] == s;
  }

  lemma {:induction false} KeepKeep(s: seq<Thread>, a: set<Thread>, b: set<Thread>)
    ensures Keep(Keep(s, a), b) == Keep(s, a + b)
  {
    if s != [] {
      var n := |s| - 1;
      KeepKeep(s[..n], a, b);
      KeepSnoc(Keep(s[..n], a), s[n], b);
      assert Keep(s[..n], a) + [] == Keep(s[..n], a);
    }
  }

  lemma {:induction false} KeepSame(s: seq<Thread>, a: set<Thread>, b: set<Thread>)
    requires forall t :: t in s ==> (t in a <==> t in b)
    ensures Keep(s, a) == Keep(s, b)
  {
    if s != [] { KeepSame(s[..|s| - 1], a, b); }
  }

  lemma {:induction false} KeepNoDup(s: seq<Thread>, gone: set<Thread>)
    requires NoDup(s)
    ensures NoDup(Keep(s, gone))
  {
    if s != [] {
      var n := |s| - 1;
      KeepNoDup(s[..n], gone);
      KeepIn(s[..n], gone, s[n]);
    }
  }

  lemma PlacesSchedule(sc: seq<Thread>, dr: seq<Thread>, inc: seq<Thread>, th: seq<Thread>, re: seq<Thread>,
                       de: seq<Thread>, t: Thread)
    requires Places(sc, dr, inc, th, re, de) && t !in sc
    ensures Places(sc + [t], dr, inc + [t], th, re, de)
  {
    hide Keep, Gone;
    assert dr + (inc + [t]) == sc + [t];
  }

  lemma PlacesDrain(sc: seq<Thread>, dr: seq<Thread>, inc: seq<Thread>, th: seq<Thread>, re: seq<Thread>,
                    de: seq<Thread>)
    requires Places(sc, dr, inc, th, re, de) && inc != []
    ensures Places(sc, dr + [inc[0]], inc[1..], th + [inc[0]], re, de)
  {
    hide Keep;
    var t := inc[0];
    assert (dr + [t]) + inc[1..] == dr + inc;
    forall i | 0 <= i < |dr| ensures dr[i] != t { assert sc[i] == dr[i] && sc[|dr|] == t; }
    KeepSnoc(dr, t, Gone(re, de));
  }

  lemma PlacesReap(sc: seq<Thread>, dr: seq<Thread>, inc: seq<Thread>, th: seq<Thread>, de: seq<Thread>,
                   exited: set<Thread>)
    requires Places(sc, dr, inc, th, [], de)
    ensures var stay := (set t | t in th) - exited;
            Places(sc, dr, inc, Keep(th, exited), Keep(th, stay), de)
  {
    hide Keep;
    var stay := (set t | t in th) - exited;
    var re := Keep(th, stay);
    var gone := Gone([], de);
    assert NoDup(dr) by {
      assert forall i :: 0 <= i < |dr| ==> dr[i] == sc[i];
    }
    KeepNoDup(dr, gone);
    KeepNoDup(th, stay);
    forall t ensures t in th <==> t in dr && t !in gone { KeepIn(dr, gone, t); }
    forall t ensures t in re <==> t in th && t !in stay { KeepIn(th, stay, t); }
    KeepKeep(dr, gone, exited);
    KeepSame(dr, gone + exited, Gone(re, de));
  }

  lemma PlacesDestroy(sc: seq<Thread>, dr: seq<Thread>, inc: seq<Thread>, th: seq<Thread>, re: seq<Thread>,
                      de: seq<Thread>)
    requires Places(sc, dr, inc, th, re, de) && re != []
    ensures Places(sc, dr, inc, th, re[1..], de + [re[0]])
  {
    hide Keep;
    var t := re[0];
    assert re == [t] + re[1..];
    forall i | 0 <= i < |re[1..]| ensures re[1..][i] != t { assert re[1..][i] == re[i + 1]; }
    assert t in re && t !in de;
    assert forall u :: u in de + [t] <==> u in de || u == t;
    assert NoDup(re[1..]) && NoDup(de + [t]);
    assert Gone(re[1..], de + [t]) == Gone(re, de);
  }

  lemma ThreadStep(s: Core, st: Step)
    requires ThreadInv(s) && Allowed(s, st)
    ensures ThreadInv(Do(s, st))
  {
    hide Places, Keep, FdSet;
    match st
    case ScheduleRemote(t) => PlacesSchedule(s.scheduled, s.drained, s.incoming, s.threads, Removed(s), s.destroyed, t);
    case ScheduleLocal(t) => PlacesSchedule(s.scheduled, s.drained, s.incoming, s.threads, Removed(s), s.destroyed, t);
    case DrainOne(_) => PlacesDrain(s.scheduled, s.drained, s.incoming, s.threads, Removed(s), s.destroyed);
    case Reap(exited) => PlacesReap(s.scheduled, s.drained, s.incoming, s.threads, s.destroyed, exited);
    case DestroyOne => PlacesDestroy(s.scheduled, s.drained, s.incoming, s.threads, Removed(s), s.destroyed);
    case _ =>
  }

  /** A scheduled thread is in exactly one place. */
  lemma ExactlyOnePlace(s: Core, t: Thread)
    requires ThreadInv(s) && t in s.scheduled
    ensures (if t in s.incoming then 1 else 0) + (if t in s.threads then 1 else 0)
            + (if t in Removed(s) then 1 else 0) + (if t in s.destroyed then 1 else 0) == 1
  {
    hide Keep;
    KeepIn(s.drained, Gone(Removed(s), s.destroyed), t);
    SplitNoDup(s.drained, s.incoming, t);
  }

  lemma SplitNoDup(a: seq<Thread>, b: seq<Thread>, t: Thread)
    requires NoDup(a + b) && t in a + b
    ensures t in a <==> t !in b
  {
    assert forall k :: 0 <= k < |a| ==> a[k] == (a + b)[k];
    assert forall k :: 0 <= k < |b| ==> b[k] == (a + b)[|a| + k];
  }

  // ------------------------------------------------------------------ interrupt mode

  /** Threads the reactor owns, including exited ones it has yet to unnest. */
  function Owned(s: Core): seq<Thread> {
    s.threads + if s.pc.Destroying? && s.pc.removed != [] then s.pc.removed[1..] else Removed(s)
  }

  /** In interrupt mode every owned thread with an fd_group is nested, in poll mode none is; the only
      exceptions are the windows inside enter_interrupt_mode and behind a failed nest. */
  predicate NestInv(s: Core) {
    && s.nested <= FdSet(Owned(s))
    && (s.mode == Interrupt && !InFallback(s) ==> s.nested == FdSet(Owned(s)))
    && (s.pc.Waiting? ==> s.nested == FdSet(s.threads))
    && (s.mode in {Running, Delayed} && !s.pc.Nesting? ==> s.nested == {})
    && (s.pc.Boot? || !s.enabled ==> s.nested == {})
    && (s.pc.Nesting? ==> s.pc.k <= |s.threads| && s.nested == FdSet(s.threads[..s.pc.k]))
    && (s.pc.Draining? && s.pc.nest && !s.pc.failed ==> s.nested == FdSet(s.threads))
  }

  /** The reactor's state at each point of its loop. */
  predicate ModeInv(s: Core) {
    && (s.mode == Interrupt ==> s.enabled)
    && (s.pc.Boot? ==> s.mode in {Init, Shutdown}) && (s.mode == Init ==> s.pc.Boot?)
    && (s.pc.Nesting? ==> s.enabled && s.mode != Interrupt)
    && (s.pc.Waiting? ==> s.mode in {Interrupt, Shutdown} && s.enabled)
    && (s.pc.Draining? ==> (s.pc.nest ==> s.enabled && s.mode in {Interrupt, Shutdown})
                           && (s.pc.failed ==> s.pc.nest) && (s.mode == Interrupt ==> s.pc.nest))
    && (s.pc.Leaving? ==> s.enabled && s.mode in {Interrupt, Shutdown})
    && (s.pc.Destroying? ==> s.pc.removed != [])
  }

  /** A nest failed and the reactor has not yet left interrupt mode. */
  predicate InFallback(s: Core) { (s.pc.Draining? && s.pc.failed) || s.pc.Leaving? }

  lemma ModeStep(s: Core, st: Step)
    requires ModeInv(s) && Allowed(s, st)
    ensures ModeInv(Do(s, st))
  {
    hide FdSet, Keep;
  }

  lemma FdSetSnoc(ts: seq<Thread>, t: Thread)
    ensures FdSet(ts + [t]) == FdSet(ts) + if t.hasFd then {t} else {}
  {
  }

  lemma NestStep(s: Core, st: Step)
    requires NestInv(s) && ModeInv(s) && ThreadInv(s) && Allowed(s, st)
    ensures NestInv(Do(s, st))
  {
    hide FdSet, Keep, Places;
    assert s.threads + [] == s.threads;
    match st
    case Start => StartNested(s);
    case NestNext(_) => NestNextKeeps(s, st);
    case LookAtMode => LookNested(s);
    case DrainOne(_) => DrainNested(s, st);
    case Reap(exited) => ReapNested(s, exited);
    case UnnestOne => UnnestKeeps(s);
    case _ => assert Owned(Do(s, st)) == Owned(s);
  }

  lemma StartNested(s: Core)
    requires NestInv(s) && ModeInv(s) && Allowed(s, Start)
    ensures NestInv(Do(s, Start))
  {
    hide FdSet;
    assert s.threads + [] == s.threads;
    assert s.threads[..0] == [] && FdSet([]) == {} by { NoFds(); }
  }

  lemma LookNested(s: Core)
    requires NestInv(s) && ModeInv(s) && Allowed(s, LookAtMode)
    ensures NestInv(Do(s, LookAtMode))
  {
    hide FdSet;
    assert s.threads + [] == s.threads;
    assert s.nested - FdSet(s.threads) == {};
  }

  lemma DrainNested(s: Core, st: Step)
    requires NestInv(s) && ModeInv(s) && Allowed(s, st) && st.DrainOne?
    ensures NestInv(Do(s, st))
  {
    hide FdSet;
    assert s.threads + [] == s.threads;
    FdSetSnoc(s.threads, s.incoming[0]);
    assert Owned(Do(s, st)) == s.threads + [s.incoming[0]];
  }

  lemma NoFds()
    ensures FdSet([]) == {}
  {
  }

  lemma NestNextKeeps(s: Core, st: Step)
    requires NestInv(s) && ModeInv(s) && Allowed(s, st) && st.NestNext?
    ensures NestInv(Do(s, st))
  {
    hide FdSet;
    assert s.threads + [] == s.threads;
    if s.pc.k < |s.threads| {
      assert s.threads[..s.pc.k + 1] == s.threads[..s.pc.k] + [s.threads[s.pc.k]];
      FdSetSnoc(s.threads[..s.pc.k], s.threads[s.pc.k]);
      assert s.nested - FdSet(s.threads[..s.pc.k]) == {};
      InFdSet(s.threads, s.pc.k);
    } else {
      assert s.threads[..s.pc.k] == s.threads;
    }
  }

  lemma InFdSet(ts: seq<Thread>, k: nat)
    requires k < |ts|
    ensures ts[k].hasFd ==> ts[k] in FdSet(ts)
  {
  }

  lemma ReapNested(s: Core, exited: set<Thread>)
    requires NestInv(s) && ModeInv(s) && Allowed(s, Reap(exited))
    ensures NestInv(Do(s, Reap(exited)))
  {
    hide Keep;
    var r := Do(s, Reap(exited));
    forall t ensures t in Owned(r) <==> t in s.threads {
      KeepIn(s.threads, exited, t);
      KeepIn(s.threads, (set u | u in s.threads) - exited, t);
    }
    assert FdSet(Owned(r)) == FdSet(Owned(s));
  }

  lemma UnnestKeeps(s: Core)
    requires NestInv(s) && ThreadInv(s) && Allowed(s, UnnestOne)
    ensures NestInv(Do(s, UnnestOne))
  {
    hide Keep;
    var r, t := Do(s, UnnestOne), s.pc.removed[0];
    FirstRemoved(s);
    assert s.pc.removed == [t] + s.pc.removed[1..];
    forall u ensures u in Owned(r) <==> u in Owned(s) && u != t { }
    assert FdSet(Owned(r)) == FdSet(Owned(s)) - {t};
  }

  lemma FirstRemoved(s: Core)
    requires ThreadInv(s) && Removed(s) != []
    ensures Removed(s)[0] !in s.threads && Removed(s)[0] !in Removed(s)[1..]
  {
    hide Keep;
    KeepIn(s.drained, Gone(Removed(s), s.destroyed), Removed(s)[0]);
  }

  /** A thread that is about to be destroyed is not nested. */
  lemma DestroyNested(s: Core)
    requires NestInv(s) && ThreadInv(s) && Allowed(s, DestroyOne)
    ensures s.pc.removed[0] !in s.nested
  {
    FirstRemoved(s);
    assert s.pc.removed[0] !in Owned(s);
  }
}
