/** All reactors together: where schedule puts a thread, and that it is in one place of one reactor ever after. */
module ReactorSystem {
  import opened Bytes
  import opened ReactorProtocol
  import opened ReactorTheorems

  datatype System = System(lcores: seq<nat>, cores: seq<Core>)

  datatype SysStep =
    | OnCore(i: nat, st: Step)
    | Schedule(current: nat, mask: set<nat>, t: Thread)

  /** The first reactor whose core is in the mask. */
  function Pick(lcores: seq<nat>, mask: set<nat>): (r: Option<nat>)
    ensures r.Some? ==>
              && r.value < |lcores| && lcores[r.value] in mask
              && forall j :: 0 <= j < r.value ==> lcores[j] !in mask
    ensures r.None? ==> forall j :: 0 <= j < |lcores| ==> lcores[j] !in mask
  {
    if lcores == [] then None
    else if lcores[0] in mask then Some(0)
    else match Pick(lcores[1..], mask)
      case None => None
      case Some(i) => Some(i + 1)
  }

  /** The search itself, one reactor after the other. */
  method PickReactor(lcores: seq<nat>, mask: set<nat>) returns (r: Option<nat>)
    ensures r == Pick(lcores, mask)
  {
    for i := 0 to |lcores|
      invariant forall j :: 0 <= j < i ==> lcores[j] !in mask
    {
      if lcores[i] in mask { return Some(i); }
    }
    return None;
  }

  predicate Idle(pc: Pc) { pc.Boot? || pc.Woken? || pc.Futures? }

  /** A thread is scheduled once, from a core that is not blocked in its own wait. */
  predicate SysAllowed(s: System, a: SysStep) {
    match a
    case OnCore(i, st) => i < |s.cores| && !st.ScheduleRemote? && !st.ScheduleLocal? && Allowed(s.cores[i], st)
    case Schedule(current, mask, t) =>
      && |s.lcores| == |s.cores|
      && (forall i :: 0 <= i < |s.cores| ==> t !in s.cores[i].scheduled)
      && (forall i :: 0 <= i < |s.cores| && s.lcores[i] == current ==> Idle(s.cores[i].pc))
  }

  /** schedule pushes to the first core of the mask and wakes it when it is another one; with no core in
      the mask the thread is rejected. */
  function SysDo(s: System, a: SysStep): System
    requires SysAllowed(s, a)
  {
    match a
    case OnCore(i, st) => s.(cores := s.cores[i := Do(s.cores[i], st)])
    case Schedule(current, mask, t) =>
      match Pick(s.lcores, mask)
      case None => s
      case Some(i) =>
        var st := if s.lcores[i] != current then ScheduleRemote(t) else ScheduleLocal(t);
        s.(cores := s.cores[i := Do(s.cores[i], st)])
  }

  ghost predicate Apart(s: System) {
    forall i, j, t :: 0 <= i < |s.cores| && 0 <= j < |s.cores| ==>
      t in s.cores[i].scheduled && t in s.cores[j].scheduled ==> i == j
  }

  ghost predicate SysInv(s: System) {
    |s.lcores| == |s.cores| && Apart(s) && forall i :: 0 <= i < |s.cores| ==> Inv(s.cores[i])
  }

  ghost predicate SysFresh(s: System) {
    |s.lcores| == |s.cores| && Apart(s) && forall i :: 0 <= i < |s.cores| ==> Fresh(s.cores[i])
  }

  ghost predicate IsSysRun(s: System, steps: seq<SysStep>, end: System)
    decreases |steps|
  {
    if steps == [] then s == end
    else SysAllowed(s, steps[0]) && IsSysRun(SysDo(s, steps[0]), steps[1..], end)
  }

  lemma ScheduledBy(s: Core, st: Step)
    requires Allowed(s, st)
    ensures Do(s, st).scheduled == s.scheduled + if st.ScheduleRemote? || st.ScheduleLocal? then [st.t] else []
  {
    hide FdSet, Keep, Bump;
    var r := Do(s, st).scheduled;
    assert st.ScheduleRemote? || st.ScheduleLocal? || r == s.scheduled;
    assert s.scheduled + [] == s.scheduled;
  }

  lemma SysStepKeeps(s: System, a: SysStep)
    requires SysInv(s) && SysAllowed(s, a)
    ensures SysInv(SysDo(s, a))
  {
    hide Inv, Do;
    match a
    case OnCore(i, st) =>
      InvStep(s.cores[i], st);
      ScheduledBy(s.cores[i], st);
    case Schedule(current, mask, t) =>
      var p := Pick(s.lcores, mask);
      if p.Some? {
        var st := if s.lcores[p.value] != current then ScheduleRemote(t) else ScheduleLocal(t);
        InvStep(s.cores[p.value], st);
        ScheduledBy(s.cores[p.value], st);
      }
  }

  lemma {:induction false} SysRunKeeps(s: System, steps: seq<SysStep>, end: System)
    requires SysInv(s) && IsSysRun(s, steps, end)
    ensures SysInv(end)
    decreases |steps|
  {
    hide SysInv, SysDo, SysAllowed;
    if steps != [] {
      SysStepKeeps(s, steps[0]);
      SysRunKeeps(SysDo(s, steps[0]), steps[1..], end);
    }
  }

  /** In how many places of a reactor a thread is. */
  function Count(s: Core, t: Thread): nat {
    (if t in s.incoming then 1 else 0) + (if t in s.threads then 1 else 0)
    + (if t in Removed(s) then 1 else 0) + (if t in s.destroyed then 1 else 0)
  }

  lemma Elsewhere(s: Core, t: Thread)
    requires Inv(s) && t !in s.scheduled
    ensures Count(s, t) == 0
  {
    KeepIn(s.drained, Gone(Removed(s), s.destroyed), t);
  }

  lemma OnePlace(s: System, i: nat, t: Thread)
    requires SysInv(s) && i < |s.cores| && t in s.cores[i].scheduled
    ensures Count(s.cores[i], t) == 1
    ensures forall j :: 0 <= j < |s.cores| && j != i ==> Count(s.cores[j], t) == 0
  {
    ExactlyOnePlace(s.cores[i], t);
    forall j | 0 <= j < |s.cores| && j != i ensures Count(s.cores[j], t) == 0 { Elsewhere(s.cores[j], t); }
  }

  lemma FreshSysInv(s: System)
    requires SysFresh(s)
    ensures SysInv(s)
  {
    forall k | 0 <= k < |s.cores| ensures Inv(s.cores[k]) { FreshInv(s.cores[k]); }
  }

  /** In every run of all reactors, a thread accepted by one of them is in exactly one place of exactly
      that reactor. */
  lemma AcceptedThreadInOnePlace(s0: System, steps: seq<SysStep>, s: System, i: nat, t: Thread)
    requires SysFresh(s0) && IsSysRun(s0, steps, s) && i < |s.cores| && t in s.cores[i].scheduled
    ensures Count(s.cores[i], t) == 1
    ensures forall j :: 0 <= j < |s.cores| && j != i ==> Count(s.cores[j], t) == 0
  {
    hide IsSysRun, Count, SysInv, SysFresh;
    FreshSysInv(s0);
    SysRunKeeps(s0, steps, s);
    OnePlace(s, i, t);
  }

  /** A thread is accepted exactly when some reactor's core is in its mask, and then by the first such reactor. */
  lemma ScheduleAccepts(s: System, current: nat, mask: set<nat>, t: Thread, i: nat)
    requires SysInv(s) && SysAllowed(s, Schedule(current, mask, t)) && i < |s.cores|
    ensures |SysDo(s, Schedule(current, mask, t)).cores| == |s.cores|
    ensures t in SysDo(s, Schedule(current, mask, t)).cores[i].scheduled
            <==> s.lcores[i] in mask && forall j :: 0 <= j < i ==> s.lcores[j] !in mask
  {
    hide Inv, Do;
    var p := Pick(s.lcores, mask);
    if p.Some? {
      var st := if s.lcores[p.value] != current then ScheduleRemote(t) else ScheduleLocal(t);
      ScheduledBy(s.cores[p.value], st);
    }
  }

  lemma StepStays(s: System, a: SysStep, i: nat, t: Thread)
    requires SysAllowed(s, a) && i < |s.cores| && t in s.cores[i].scheduled
    ensures i < |SysDo(s, a).cores| && t in SysDo(s, a).cores[i].scheduled
  {
    hide Do;
    match a
    case OnCore(k, st) => ScheduledBy(s.cores[k], st);
    case Schedule(current, mask, u) =>
      var p := Pick(s.lcores, mask);
      if p.Some? {
        var st := if s.lcores[p.value] != current then ScheduleRemote(u) else ScheduleLocal(u);
        ScheduledBy(s.cores[p.value], st);
      }
  }

  lemma {:induction false} ScheduledStays(s: System, steps: seq<SysStep>, end: System, i: nat, t: Thread)
    requires IsSysRun(s, steps, end) && i < |s.cores| && t in s.cores[i].scheduled
    ensures i < |end.cores| && t in end.cores[i].scheduled
    decreases |steps|
  {
    hide SysDo, SysAllowed;
    if steps != [] {
      StepStays(s, steps[0], i, t);
      ScheduledStays(SysDo(s, steps[0]), steps[1..], end, i, t);
    }
  }

  /** A thread scheduled at any point of any run is, at every later point, in exactly one place of the first reactor
      whose core is in its mask, and on no other reactor, wherever it was scheduled from. */
  lemma RoutedToFirstInMask(s0: System, before: seq<SysStep>, s1: System, current: nat, mask: set<nat>, t: Thread,
                            after: seq<SysStep>, s: System, i: nat)
    requires SysFresh(s0) && IsSysRun(s0, before, s1) && SysAllowed(s1, Schedule(current, mask, t))
    requires IsSysRun(SysDo(s1, Schedule(current, mask, t)), after, s)
    requires i < |s1.cores| && s1.lcores[i] in mask && forall j :: 0 <= j < i ==> s1.lcores[j] !in mask
    ensures i < |s.cores| && Count(s.cores[i], t) == 1
    ensures forall j :: 0 <= j < |s.cores| && j != i ==> Count(s.cores[j], t) == 0
  {
    hide IsSysRun, SysInv, Count, SysDo, SysFresh;
    var a := Schedule(current, mask, t);
    FreshSysInv(s0);
    SysRunKeeps(s0, before, s1);
    SysStepKeeps(s1, a);
    ScheduleAccepts(s1, current, mask, t, i);
    ScheduledStays(SysDo(s1, a), after, s, i, t);
    SysRunKeeps(SysDo(s1, a), after, s);
    OnePlace(s, i, t);
  }

  // ------------------------------------------------------------- the system, core by core

  /** What a step of the system is to core i: its own step, or the schedule of a thread whose mask it is the first
      in, remote unless it comes from this core. */
  ghost function StepsOn(s: System, a: SysStep, i: nat): seq<Step>
    requires |s.lcores| == |s.cores| && i < |s.cores|
  {
    match a
    case OnCore(j, st) => if i == j then [st] else []
    case Schedule(current, mask, t) =>
      if s.lcores[i] in mask && forall j :: 0 <= j < i ==> s.lcores[j] !in mask
      then [if s.lcores[i] == current then ScheduleLocal(t) else ScheduleRemote(t)]
      else []
  }

  ghost function RunOn(s: System, steps: seq<SysStep>, i: nat): seq<Step>
    requires |s.lcores| == |s.cores| && i < |s.cores|
    decreases |steps|
  {
    if steps == [] || !SysAllowed(s, steps[0]) then []
    else StepsOn(s, steps[0], i) + RunOn(SysDo(s, steps[0]), steps[1..], i)
  }

  lemma StepOfCore(s: System, a: SysStep, i: nat)
    requires |s.lcores| == |s.cores| && i < |s.cores| && SysAllowed(s, a) && SysInv(s)
    ensures var r, own := SysDo(s, a), StepsOn(s, a, i);
            && r.lcores == s.lcores && |r.cores| == |s.cores|
            && (own == [] ==> r.cores[i] == s.cores[i])
            && (own != [] ==> |own| == 1 && Allowed(s.cores[i], own[0]) && r.cores[i] == Do(s.cores[i], own[0]))
  {
    hide Do, Inv;
  }

  /** Every run of all reactors is, core by core, a run of that core: its own steps and the schedules it is the first to
      match, in order. So everything proved of one reactor holds of each. */
  lemma {:induction false} RunOfCore(s: System, steps: seq<SysStep>, end: System, i: nat)
    requires SysInv(s) && IsSysRun(s, steps, end) && i < |s.cores|
    ensures |end.cores| == |s.cores| && IsRun(s.cores[i], RunOn(s, steps, i), end.cores[i])
    decreases |steps|
  {
    hide Do, Allowed, SysDo, SysAllowed, StepsOn, Inv;
    if steps != [] {
      var r, own := SysDo(s, steps[0]), StepsOn(s, steps[0], i);
      SysStepKeeps(s, steps[0]);
      StepOfCore(s, steps[0], i);
      RunOfCore(r, steps[1..], end, i);
      var rest := RunOn(r, steps[1..], i);
      assert RunOn(s, steps, i) == own + rest;
      if own == [] {
        assert own + rest == rest;
      } else {
        assert (own + rest)[1..] == rest && (own + rest)[0] == own[0];
      }
    }
  }
}
