/** When a shutdown request is honoured: exactly from where in its loop the reactor can no longer overwrite it. */
module ReactorShutdown {
  import opened ReactorProtocol
  import opened ReactorTheorems

  /** Where a request can still be overwritten: before the loop, on the way into interrupt mode, and between
      the start of a drain in interrupt mode and the fallback to poll mode. */
  predicate AtRisk(pc: Pc) { pc.Boot? || pc.Nesting? || pc.Leaving? || (pc.Draining? && pc.nest) }

  /** In every run the request stands until the reactor has stopped. */
  ghost predicate Honoured(s: Core) {
    forall steps, end :: IsRun(s, steps, end) ==> end.mode == Shutdown || end.pc.Stopped?
  }

  // ---------------------------------------------------------------- it is honoured

  predicate Standing(s: Core) { s.pc.Stopped? || (s.mode == Shutdown && !AtRisk(s.pc)) }

  lemma StandingStep(s: Core, st: Step)
    requires Inv(s) && Standing(s) && Allowed(s, st)
    ensures Standing(Do(s, st)) && (Do(s, st).pc.Waiting? ==> s.pc.Waiting?)
  {
    hide FdSet, Keep, WakeInv, DeliveryInv, ThreadInv, NestInv;
  }

  /** Once it stands, a request is never overwritten, and the reactor does not go back to sleep. */
  lemma {:induction false} StandingRun(s: Core, steps: seq<Step>, end: Core)
    requires Inv(s) && Standing(s) && IsRun(s, steps, end)
    ensures Standing(end) && (end.pc.Waiting? ==> s.pc.Waiting?)
    decreases |steps|
  {
    hide Inv, Do, Allowed, Standing;
    if steps != [] {
      InvStep(s, steps[0]);
      StandingStep(s, steps[0]);
      StandingRun(Do(s, steps[0]), steps[1..], end);
    }
  }

  /** The reactor's own next step on the way to the head of its loop, where it acts on the request. */
  function Next(s: Core): Step {
    match s.pc
    case Waiting => WaitReturn(false)
    case Woken => BeginReceive
    case Receiving => if s.channel == [] then EndReceive else ReceiveOne
    case Futures => BeginDrain
    case Draining(_, _) => if s.incoming == [] then EndDrain else DrainOne(true)
    case Reaping(removed) => if removed == [] then EndReap else UnnestOne
    case Destroying(_) => DestroyOne
    case _ => LookAtMode
  }

  /** How far the head is, in stages and in steps of a stage. */
  function Stages(pc: Pc): nat {
    match pc
    case Waiting => 7
    case Woken => 6
    case Receiving => 5
    case Futures => 4
    case Draining(_, _) => 3
    case Reaping(_) => 2
    case Destroying(_) => 2
    case Head => 1
    case _ => 0
  }

  function Steps(s: Core): nat {
    match s.pc
    case Receiving => |s.channel|
    case Draining(_, _) => |s.incoming|
    case Reaping(removed) => 2 * |removed| + 1
    case Destroying(removed) => 2 * |removed|
    case _ => 0
  }

  /** Its own steps alone take the reactor to a stop. */
  lemma {:induction false} Stops(s: Core) returns (steps: seq<Step>, end: Core)
    requires Inv(s) && Standing(s)
    ensures IsRun(s, steps, end) && end.pc.Stopped?
    decreases Stages(s.pc), Steps(s)
  {
    if s.pc.Stopped? {
      steps, end := [], s;
    } else {
      hide IsRun, Inv;
      NextStep(s);
      InvStep(s, Next(s));
      StandingStep(s, Next(s));
      steps, end := Stops(Do(s, Next(s)));
      FirstStep(s, Next(s), steps, end);
      steps := [Next(s)] + steps;
    }
  }

  lemma NextStep(s: Core)
    requires Inv(s) && Standing(s) && !s.pc.Stopped?
    ensures Allowed(s, Next(s))
    ensures var r := Do(s, Next(s));
            Stages(r.pc) < Stages(s.pc) || (Stages(r.pc) == Stages(s.pc) && Steps(r) < Steps(s))
  {
    hide FdSet, Keep, WakeInv, DeliveryInv, ThreadInv, NestInv;
  }

  // --------------------------------------------------------------------- it is lost

  ghost predicate Lost(s: Core) { s.mode != Shutdown && !s.pc.Stopped? }

  lemma FirstStep(s: Core, st: Step, steps: seq<Step>, end: Core)
    requires Allowed(s, st) && IsRun(Do(s, st), steps, end)
    ensures IsRun(s, [st] + steps, end)
  {
    hide Do, Allowed;
    assert ([st] + steps)[1..] == steps;
  }

  lemma OneStep(s: Core, st: Step)
    requires Allowed(s, st)
    ensures IsRun(s, [st], Do(s, st))
  {
    hide Do, Allowed;
    assert [st][1..] == [];
  }

  /** Nesting every thread that is left completes the entry into interrupt mode. */
  lemma {:induction false} LoseNesting(s: Core) returns (steps: seq<Step>, end: Core)
    requires s.pc.Nesting? && s.pc.k <= |s.threads|
    ensures IsRun(s, steps, end) && Lost(end)
    decreases |s.threads| - s.pc.k
  {
    hide IsRun, FdSet;
    var st := NestNext(true);
    var r := Do(s, st);
    if s.pc.k == |s.threads| {
      OneStep(s, st);
      steps, end := [st], r;
    } else {
      steps, end := LoseNesting(r);
      FirstStep(s, st, steps, end);
      steps := [st] + steps;
    }
  }

  lemma LoseLeaving(s: Core) returns (steps: seq<Step>, end: Core)
    requires s.pc.Leaving?
    ensures IsRun(s, steps, end) && Lost(end)
  {
    hide FdSet;
    OneStep(s, Leave);
    steps, end := [Leave], Do(s, Leave);
  }

  /** A drain in which a nest failed, or will fail, ends in the fallback to poll mode. */
  lemma {:induction false} LoseDraining(s: Core) returns (steps: seq<Step>, end: Core)
    requires s.pc.Draining? && s.pc.nest && (s.pc.failed || exists t :: t in s.incoming && t.hasFd)
    ensures IsRun(s, steps, end) && Lost(end)
    decreases |s.incoming|
  {
    hide IsRun;
    var st := if s.incoming == [] then EndDrain else DrainOne(false);
    var r := Do(s, st);
    if s.incoming == [] {
      steps, end := LoseLeaving(r);
    } else {
      assert s.incoming == [s.incoming[0]] + s.incoming[1..];
      steps, end := LoseDraining(r);
    }
    FirstStep(s, st, steps, end);
    steps := [st] + steps;
  }

  function Above(ts: seq<Thread>): (n: nat)
    ensures forall t :: t in ts ==> t.id < n
  {
    if ts == [] then 0 else
      var n, t := Above(ts[1..]), ts[0];
      assert ts == [t] + ts[1..];
      if t.id < n then n else t.id + 1
  }

  lemma LoseAtRisk(s: Core) returns (steps: seq<Step>, end: Core)
    requires Inv(s) && s.mode == Shutdown && AtRisk(s.pc)
    ensures IsRun(s, steps, end) && Lost(end)
  {
    hide IsRun, Keep, FdSet, WakeInv, DeliveryInv, ThreadInv;
    if s.pc.Boot? {
      OneStep(s, Start);
      steps, end := [Start], Do(s, Start);
    } else if s.pc.Nesting? {
      steps, end := LoseNesting(s);
    } else if s.pc.Leaving? {
      steps, end := LoseLeaving(s);
    } else {
      var t := Thread(Above(s.scheduled), true);
      var r := Do(s, ScheduleRemote(t));
      assert t in r.incoming;
      steps, end := LoseDraining(r);
      FirstStep(s, ScheduleRemote(t), steps, end);
      steps := [ScheduleRemote(t)] + steps;
    }
  }

  /** For every reachable state of a reactor that was asked to shut down and has not stopped: the request is
      safe in every run from there if and only if the reactor is not where it can be overwritten; from
      everywhere else the reactor never falls asleep again, and its own steps take it to a stop. */
  lemma ShutdownHonouredIff(s: Core)
    requires Reachable(s) && s.mode == Shutdown && !s.pc.Stopped?
    ensures Honoured(s) <==> !AtRisk(s.pc)
    ensures !AtRisk(s.pc) ==> forall steps, end :: IsRun(s, steps, end) && end.pc.Waiting? ==> s.pc.Waiting?
    ensures !AtRisk(s.pc) ==> exists steps, end :: IsRun(s, steps, end) && end.pc.Stopped?
  {
    hide Reachable, Inv, IsRun;
    ReachableInv(s);
    if AtRisk(s.pc) {
      var steps, end := LoseAtRisk(s);
    } else {
      var way, stop := Stops(s);
      forall steps, end | IsRun(s, steps, end)
        ensures (end.mode == Shutdown || end.pc.Stopped?) && (end.pc.Waiting? ==> s.pc.Waiting?)
      {
        StandingRun(s, steps, end);
      }
    }
  }
}
