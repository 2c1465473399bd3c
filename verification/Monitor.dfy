/** The reactor health monitor: a heartbeat future per reactor and second, counters advanced by the
    futures that resolved, and a reactor declared frozen when too many are missing. Futures resolve at
    any moment on their own cores. */
module Monitor {
  import opened Bytes

  const DEFAULT_TIMEOUT := 3

  datatype Event = Freeze | Unfreeze

  /** One monitored reactor: its flag, its heartbeat counter, the heartbeats sent but not resolved, and
      the events reported for it. */
  datatype Record = Record(frozen: bool, counter: nat, outstanding: nat, events: seq<Event>)

  /** The monitor loop: sending to reactor `at`, sleeping, or checking reactor `at`. */
  datatype Phase = Sending(at: nat) | Sleeping | Checking(at: nat)

  datatype State = State(timeout: nat, tick: nat, phase: Phase, recs: seq<Record>)

  datatype Step = SendNext | Tick | CheckNext | Resolve(i: nat)

  function Max(a: nat, b: nat): nat { if a >= b then a else b }

  /** The most heartbeats a reactor can miss. */
  function Limit(s: State): nat { Max(1, s.timeout) }

  function Send(r: Record): Record {
    if r.frozen then r.(counter := r.counter + 1) else r.(outstanding := r.outstanding + 1)
  }

  function Check(r: Record, tick: nat, timeout: nat): Record {
    if r.frozen then
      if tick - r.counter == 0 then r.(frozen := false, events := r.events + [Unfreeze]) else r
    else
      if tick - r.counter >= timeout then r.(frozen := true, events := r.events + [Freeze]) else r
  }

  predicate Allowed(s: State, st: Step) {
    match st
    case SendNext => s.phase.Sending?
    case Tick => s.phase.Sleeping?
    case CheckNext => s.phase.Checking?
    case Resolve(i) => i < |s.recs| && s.recs[i].outstanding > 0
  }

  function Do(s: State, st: Step): State
    requires Allowed(s, st)
  {
    match st
    case SendNext =>
      var k := s.phase.at;
      if k >= |s.recs| then s.(phase := Sleeping)
      else s.(recs := s.recs[k := Send(s.recs[k])], phase := Sending(k + 1))
    case Tick => s.(tick := s.tick + 1, phase := Checking(0))
    case CheckNext =>
      var k := s.phase.at;
      if k >= |s.recs| then s.(phase := Sending(0))
      else s.(recs := s.recs[k := Check(s.recs[k], s.tick, s.timeout)], phase := Checking(k + 1))
    case Resolve(i) =>
      s.(recs := s.recs[i := s.recs[i].(outstanding := s.recs[i].outstanding - 1, counter := s.recs[i].counter + 1)])
  }

  predicate Fresh(s: State) {
    s.tick == 0 && s.phase == Sending(0) && forall i :: 0 <= i < |s.recs| ==> s.recs[i] == Record(false, 0, 0, [])
  }

  /** Has reactor i got its heartbeat of this round, and has it been checked this round? */
  predicate Sent(s: State, i: nat) { s.phase.Sleeping? || (s.phase.Sending? && i < s.phase.at) }

  predicate Due(s: State, i: nat) { (s.phase.Sending? && i >= s.phase.at) || (s.phase.Checking? && i < s.phase.at) }

  /** Freeze and Unfreeze take turns, beginning with Freeze. */
  predicate Alternates(es: seq<Event>) {
    forall k :: 0 <= k < |es| ==> es[k] == if k % 2 == 0 then Freeze else Unfreeze
  }

  predicate RecordOk(s: State, i: nat)
    requires i < |s.recs|
  {
    var r := s.recs[i];
    && r.counter + r.outstanding == s.tick + (if Sent(s, i) then 1 else 0)
    && r.outstanding <= Limit(s) && (Due(s, i) && !r.frozen ==> r.outstanding < Limit(s))
    && Alternates(r.events) && (r.frozen <==> |r.events| % 2 == 1)
  }

  /** Resolved and outstanding heartbeats always add up to the tick, so the age of a reactor never
      underflows and is the number of its missing heartbeats; never more than the limit are missing; and
      events alternate. */
  predicate Inv(s: State) {
    forall i :: 0 <= i < |s.recs| ==> RecordOk(s, i)
  }

  lemma InvStep(s: State, st: Step)
    requires Inv(s) && Allowed(s, st)
    ensures Inv(Do(s, st))
  {
    var r := Do(s, st);
    forall i | 0 <= i < |r.recs| ensures RecordOk(r, i) { assert RecordOk(s, i); }
  }

  ghost predicate IsRun(s: State, steps: seq<Step>, end: State)
    decreases |steps|
  {
    if steps == [] then s == end
    else Allowed(s, steps[0]) && IsRun(Do(s, steps[0]), steps[1..], end)
  }

  lemma {:induction false} RunInv(s: State, steps: seq<Step>, end: State)
    requires Inv(s) && IsRun(s, steps, end)
    ensures Inv(end)
    decreases |steps|
  {
    hide Do, Inv;
    if steps != [] {
      InvStep(s, steps[0]);
      RunInv(Do(s, steps[0]), steps[1..], end);
    }
  }

  /** In every run: when reactor i is checked, its age is exactly its missing heartbeats, which are at most
      the limit; it is declared frozen exactly when at least `timeout` are missing, and healthy again
      exactly when none is. */
  lemma CheckExact(s0: State, steps: seq<Step>, s: State)
    requires Fresh(s0) && IsRun(s0, steps, s) && s.phase.Checking? && s.phase.at < |s.recs|
    ensures var r, r' := s.recs[s.phase.at], Do(s, CheckNext).recs[s.phase.at];
            && s.tick - r.counter == r.outstanding <= Limit(s)
            && r'.frozen == (if r.frozen then r.outstanding != 0 else r.outstanding >= s.timeout)
            && r'.events == r.events
                            + (if r'.frozen == r.frozen then [] else if r'.frozen then [Freeze] else [Unfreeze])
            && Alternates(r'.events)
  {
    assert Inv(s0);
    RunInv(s0, steps, s);
    InvStep(s, CheckNext);
    assert RecordOk(s, s.phase.at) && RecordOk(Do(s, CheckNext), s.phase.at);
  }

  // ------------------------------------------------------------------- detection

  /** Reactor i resolves nothing in these steps. */
  predicate Stalled(steps: seq<Step>, i: nat) { Resolve(i) !in steps }

  /** While reactor i is stalled it either stays frozen with heartbeats missing, or misses one more with
      every round. */
  predicate StallInv(start: State, s: State, i: nat)
    requires i < |start.recs| && i < |s.recs|
  {
    var r := s.recs[i];
    if r.frozen then r.outstanding >= 1
    else s.tick >= start.tick
         && r.outstanding == start.recs[i].outstanding + (s.tick - start.tick) + (if Sent(s, i) then 1 else 0)
  }

  lemma {:induction false} StallRun(start: State, s: State, steps: seq<Step>, end: State, i: nat)
    requires Inv(s) && IsRun(s, steps, end) && Stalled(steps, i)
    requires i < |start.recs| == |s.recs| && start.timeout == s.timeout && start.tick <= s.tick
    requires s.phase.Checking? ==> start.tick < s.tick
    requires StallInv(start, s, i)
    ensures |end.recs| == |s.recs| && StallInv(start, end, i) && end.timeout == s.timeout
    decreases |steps|
  {
    if steps != [] {
      InvStep(s, steps[0]);
      assert RecordOk(s, i);
      assert steps[0] in steps;
      var r := Do(s, steps[0]);
      assert StallInv(start, r, i);
      StallRun(start, r, steps[1..], end, i);
    }
  }

  /** A reactor that stops resolving heartbeats is reported frozen after at most as many rounds as the
      timeout (one round if the timeout is zero). */
  lemma StalledReactorIsFrozen(s: State, steps: seq<Step>, end: State, i: nat)
    requires Inv(s) && s.phase == Sending(0) && i < |s.recs| && !s.recs[i].frozen
    requires IsRun(s, steps, end) && Stalled(steps, i) && end.phase == Sending(0) && end.tick >= s.tick + Limit(s)
    ensures |end.recs| == |s.recs| && end.recs[i].frozen
  {
    StallRun(s, s, steps, end, i);
    RunInv(s, steps, end);
    assert RecordOk(end, i);
  }

  // -------------------------------------------------------------------- counting

  function Resolves(steps: seq<Step>, i: nat): nat {
    if steps == [] then 0 else (if steps[0] == Resolve(i) then 1 else 0) + Resolves(steps[1..], i)
  }

  function Ticks(steps: seq<Step>): nat {
    if steps == [] then 0 else (if steps[0] == Tick then 1 else 0) + Ticks(steps[1..])
  }

  /** The step is the check of reactor i. */
  predicate Checks(s: State, st: Step, i: nat) { st == CheckNext && s.phase == Checking(i) }

  /** The heartbeats sent to reactor i in these steps, that is, while it was healthy. */
  function Sends(s: State, steps: seq<Step>, i: nat): nat
    requires i < |s.recs|
    decreases |steps|
  {
    if steps == [] || !Allowed(s, steps[0]) then 0
    else (if steps[0] == SendNext && s.phase == Sending(i) && !s.recs[i].frozen then 1 else 0)
         + Sends(Do(s, steps[0]), steps[1..], i)
  }

  /** In every run, what is missing at the end is what was missing at the start and what was sent, less what
      resolved. */
  lemma {:induction false} Balance(s: State, steps: seq<Step>, end: State, i: nat)
    requires IsRun(s, steps, end) && i < |s.recs|
    ensures |end.recs| == |s.recs|
    ensures end.recs[i].outstanding + Resolves(steps, i) == s.recs[i].outstanding + Sends(s, steps, i)
    decreases |steps|
  {
    if steps != [] { Balance(Do(s, steps[0]), steps[1..], end, i); }
  }

  /** Every check of reactor i in the run finds fewer than `timeout` ticks without a resolved heartbeat, of which
      there are `late` to begin with. */
  predicate OnTime(s: State, steps: seq<Step>, i: nat, late: int)
    decreases |steps|
  {
    steps == []
    || (&& Allowed(s, steps[0])
        && (Checks(s, steps[0], i) ==> late < s.timeout)
        && OnTime(Do(s, steps[0]), steps[1..], i,
                  late + (if steps[0] == Tick then 1 else if steps[0] == Resolve(i) then -1 else 0)))
  }

  lemma {:induction false} EventsGrow(s: State, steps: seq<Step>, end: State, i: nat)
    requires IsRun(s, steps, end) && i < |s.recs|
    ensures |end.recs| == |s.recs| && s.recs[i].events <= end.recs[i].events
    decreases |steps|
  {
    if steps != [] { EventsGrow(Do(s, steps[0]), steps[1..], end, i); }
  }

  lemma {:induction false} HealthyRun(s: State, steps: seq<Step>, end: State, i: nat)
    requires IsRun(s, steps, end) && i < |s.recs| && !s.recs[i].frozen
    ensures |end.recs| == |s.recs|
    ensures end.recs[i].events == s.recs[i].events <==> OnTime(s, steps, i, s.tick - s.recs[i].counter)
    decreases |steps|
  {
    if steps != [] {
      var r := Do(s, steps[0]);
      EventsGrow(r, steps[1..], end, i);
      if !r.recs[i].frozen { HealthyRun(r, steps[1..], end, i); }
    }
  }

  /** In every run of the monitor: a reactor is never reported exactly when each of its checks finds fewer than
      `timeout` more ticks than heartbeats it has resolved. */
  lemma NeverFrozenIff(s0: State, steps: seq<Step>, end: State, i: nat)
    requires Fresh(s0) && IsRun(s0, steps, end) && i < |s0.recs|
    ensures |end.recs| == |s0.recs|
    ensures end.recs[i].events == [] <==> OnTime(s0, steps, i, 0)
  {
    HealthyRun(s0, steps, end, i);
  }

  /** Every heartbeat of reactor i resolves before the tick that follows it. */
  predicate Prompt(steps: seq<Step>, i: nat, ahead: int) {
    forall p :: 0 <= p < |steps| && steps[p] == Tick ==>
      Resolves(steps[..p], i) + ahead == Ticks(steps[..p]) + 1
  }

  lemma {:induction false} PromptRun(s: State, steps: seq<Step>, end: State, i: nat, ahead: int)
    requires IsRun(s, steps, end) && s.timeout >= 1 && Prompt(steps, i, ahead) && ahead >= 0
    ensures OnTime(s, steps, i, -ahead)
    decreases |steps|
  {
    if steps != [] {
      var ahead' := ahead + (if steps[0] == Tick then -1 else if steps[0] == Resolve(i) then 1 else 0);
      assert steps[0] == Tick ==> ahead == 1 by { assert steps[..0] == []; }
      var tail := steps[1..];
      forall p | 0 <= p < |tail| && tail[p] == Tick
        ensures Resolves(tail[..p], i) + ahead' == Ticks(tail[..p]) + 1
      {
        assert steps[..p + 1][1..] == tail[..p] && steps[p + 1] == Tick;
      }
      PromptRun(Do(s, steps[0]), tail, end, i, ahead');
    }
  }

  /** So a reactor that resolves every heartbeat before the next tick is never reported. */
  lemma PromptNeverFrozen(s0: State, steps: seq<Step>, end: State, i: nat)
    requires Fresh(s0) && s0.timeout >= 1 && IsRun(s0, steps, end) && i < |s0.recs| && Prompt(steps, i, 0)
    ensures |end.recs| == |s0.recs| && end.recs[i].events == [] && !end.recs[i].frozen
  {
    PromptRun(s0, steps, end, i, 0);
    NeverFrozenIff(s0, steps, end, i);
    RunInv(s0, steps, end);
    assert RecordOk(end, i);
  }

  /** Every check of reactor i in the run comes while fewer than k of its heartbeats have resolved. */
  predicate ChecksEarly(s: State, steps: seq<Step>, i: nat, k: int)
    decreases |steps|
  {
    steps == []
    || (&& Allowed(s, steps[0])
        && (Checks(s, steps[0], i) ==> k > 0)
        && ChecksEarly(Do(s, steps[0]), steps[1..], i, if steps[0] == Resolve(i) then k - 1 else k))
  }

  lemma {:induction false} FrozenRun(s: State, steps: seq<Step>, end: State, i: nat)
    requires Inv(s) && IsRun(s, steps, end) && i < |s.recs| && s.recs[i].frozen
    requires ChecksEarly(s, steps, i, s.recs[i].outstanding)
    ensures |end.recs| == |s.recs| && Inv(end)
    ensures end.recs[i].frozen && end.recs[i].events == s.recs[i].events
    ensures end.recs[i].outstanding + Resolves(steps, i) == s.recs[i].outstanding
    decreases |steps|
  {
    if steps != [] {
      InvStep(s, steps[0]);
      assert RecordOk(s, i);
      FrozenRun(Do(s, steps[0]), steps[1..], end, i);
    }
  }

  /** A frozen reactor with k heartbeats missing stays frozen at every check that comes before the k-th of them has
      resolved, and is healthy again at the first check behind it. */
  lemma RecoveryExact(s: State, steps: seq<Step>, end: State, i: nat)
    requires Inv(s) && IsRun(s, steps, end) && i < |s.recs| && s.recs[i].frozen
    requires ChecksEarly(s, steps, i, s.recs[i].outstanding) && end.phase == Checking(i)
    ensures |end.recs| == |s.recs|
    ensures var r, k := Do(end, CheckNext).recs[i], s.recs[i].outstanding;
            if Resolves(steps, i) < k then r.frozen && r.events == s.recs[i].events
            else !r.frozen && r.events == s.recs[i].events + [Unfreeze]
  {
    FrozenRun(s, steps, end, i);
    assert RecordOk(end, i);
  }

  // ------------------------------------------------------------------- the loop

  lemma {:induction false} RunSnoc(s: State, steps: seq<Step>, mid: State, st: Step)
    requires IsRun(s, steps, mid) && Allowed(mid, st)
    ensures IsRun(s, steps + [st], Do(mid, st))
    decreases |steps|
  {
    hide Do, Allowed;
    if steps == [] {
      assert steps + [st] == [st] && [st][1..] == [];
    } else {
      assert (steps + [st])[1..] == steps[1..] + [st];
      RunSnoc(Do(s, steps[0]), steps[1..], mid, st);
    }
  }

  /** The monitor loop as it updates its records in place. Every method is a run of the state machine. */
  class ReactorMonitor {
    const timeout: nat
    var tick: nat
    const recs: array<Record>
    ghost var phase: Phase

    ghost function Now(): State
      reads this, recs
    {
      State(timeout, tick, phase, recs[..])
    }

    constructor (cores: nat, freezeTimeout: Option<nat>)
      ensures Fresh(Now()) && Inv(Now()) && fresh(recs) && recs.Length == cores
      ensures timeout == if freezeTimeout.Some? then freezeTimeout.value else 3
    {
      timeout := match freezeTimeout case Some(t) => t case None => DEFAULT_TIMEOUT;
      tick, phase := 0, Sending(0);
      recs := new Record[cores](_ => Record(false, 0, 0, []));
    }

    /** Sends every healthy reactor one heartbeat and keeps the deficit of every frozen one. */
    method SendHeartbeats() returns (ghost steps: seq<Step>)
      requires phase == Sending(0)
      modifies recs, `phase
      ensures phase == Sleeping && IsRun(old(Now()), steps, Now())
      ensures forall i :: 0 <= i < recs.Length ==> recs[i] == Send(old(recs[i]))
      ensures old(Inv(Now())) ==> Inv(Now())
    {
      var k := 0;
      steps := [];
      while k < recs.Length
        invariant k <= recs.Length && phase == Sending(k) && IsRun(old(Now()), steps, Now())
        invariant forall i :: 0 <= i < k ==> recs[i] == Send(old(recs[i]))
        invariant forall i :: k <= i < recs.Length ==> recs[i] == old(recs[i])
      {
        ghost var was := Now();
        recs[k] := Send(recs[k]);
        k := k + 1;
        phase := Sending(k);
        assert Now() == Do(was, SendNext);
        RunSnoc(old(Now()), steps, was, SendNext);
        steps := steps + [SendNext];
      }
      ghost var was := Now();
      phase := Sleeping;
      assert Now() == Do(was, SendNext);
      RunSnoc(old(Now()), steps, was, SendNext);
      steps := steps + [SendNext];
      if old(Inv(Now())) { RunInv(old(Now()), steps, Now()); }
    }

    /** The interval elapses, and every reactor is checked against the new tick. */
    method CheckReactors() returns (ghost steps: seq<Step>)
      requires phase == Sleeping
      modifies recs, `phase, `tick
      ensures phase == Sending(0) && tick == old(tick) + 1 && IsRun(old(Now()), steps, Now())
      ensures forall i :: 0 <= i < recs.Length ==> recs[i] == Check(old(recs[i]), tick, timeout)
      ensures old(Inv(Now())) ==> Inv(Now())
    {
      ghost var s0 := Now();
      tick, phase := tick + 1, Checking(0);
      assert Now() == Do(s0, Tick);
      RunSnoc(s0, [], s0, Tick);
      steps := [Tick];
      var k := 0;
      while k < recs.Length
        invariant k <= recs.Length && phase == Checking(k) && tick == old(tick) + 1 && IsRun(s0, steps, Now())
        invariant forall i :: 0 <= i < k ==> recs[i] == Check(old(recs[i]), tick, timeout)
        invariant forall i :: k <= i < recs.Length ==> recs[i] == old(recs[i])
      {
        ghost var was := Now();
        recs[k] := Check(recs[k], tick, timeout);
        k := k + 1;
        phase := Checking(k);
        assert Now() == Do(was, CheckNext);
        RunSnoc(s0, steps, was, CheckNext);
        steps := steps + [CheckNext];
      }
      ghost var was := Now();
      phase := Sending(0);
      assert Now() == Do(was, CheckNext);
      RunSnoc(s0, steps, was, CheckNext);
      steps := steps + [CheckNext];
      if Inv(s0) { RunInv(s0, steps, Now()); }
    }

    /** A heartbeat future resolves on reactor i. */
    method ResolveOne(i: nat)
      requires i < recs.Length && recs[i].outstanding > 0
      modifies recs
      ensures Now() == Do(old(Now()), Resolve(i))
      ensures recs[i].counter == old(recs[i]).counter + 1 && recs[i].outstanding == old(recs[i]).outstanding - 1
      ensures old(Inv(Now())) ==> Inv(Now())
    {
      ghost var was := Now();
      recs[i] := recs[i].(outstanding := recs[i].outstanding - 1, counter := recs[i].counter + 1);
      assert recs[..] == was.recs[i := recs[i]];
      if Inv(was) { InvStep(was, Resolve(i)); }
    }
  }
}
