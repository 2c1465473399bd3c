/** A rebuild can always be brought to its end: from every state that a run without a failure reaches, the I/O under
    way can end and the rebuild's own steps lead to its completion. */
module RebuildProgress {
  import opened Rebuild
  import opened RebuildLimits

  /** Steps that bring in no new host I/O and do not fail. */
  predicate Own(t: Step) {
    !(t.LogWrite? || t.LogUnmap? || t.HostWrite? || t.HostUnmap? || t.Fail? || t.Allocate? || t.Release?)
  }

  predicate AllOwn(ts: seq<Step>) { forall i :: 0 <= i < |ts| ==> Own(ts[i]) }

  // ----------------------------------------------------------------- reachable

  /** Tasks exist only during the rebuild, behind the walk, with a full buffer once loaded. */
  ghost predicate TasksSane(c: Config, s: State)
    requires c.Ok()
  {
    forall blk :: blk in s.tasks ==>
      && s.rebuilding && blk < c.end && blk < s.walk
      && (s.tasks[blk].Loaded? ==> |s.tasks[blk].buf| == CopyLen(c, blk))
  }

  ghost predicate Unmapping(s: State, b: nat) { b in s.inflight && s.inflight[b].unmap }

  /** All I/O under way is to the data, and unmaps cover whole segments. */
  ghost predicate IosSane(c: Config, s: State)
    requires c.Ok()
  {
    && (forall b :: b in s.inflight ==> InData(c, b))
    && (forall b, b' :: Unmapping(s, b) && InData(c, b') && Seg(c.n, b') == Seg(c.n, b) ==> Unmapping(s, b'))
  }

  ghost predicate Sane(c: Config, s: State)
    requires c.Ok()
  {
    Sized(c, s) && IosSane(c, s) && TasksSane(c, s) && CoresSane(s)
  }

  /** The rebuild runs only once every core writes to the child again. */
  predicate CoresSane(s: State) { s.rebuilding ==> forall i :: 0 <= i < |s.logs| ==> i in s.joined }

  lemma CoresSaneStep(c: Config, s: State, t: Step)
    requires c.Ok() && Sized(c, s) && CoresSane(s) && Allowed(c, s, t)
    ensures CoresSane(Do(c, s, t))
  {
    hide Seg, Rem, MergeAll, Allocated, Free, CopyLen;
  }

  lemma TasksSaneStep(c: Config, s: State, t: Step)
    requires c.Ok() && Sized(c, s) && TasksSane(c, s) && Allowed(c, s, t)
    ensures TasksSane(c, Do(c, s, t))
  {
    hide Seg, Rem, MergeAll, Allocated, Free;
  }

  lemma IosSaneStep(c: Config, s: State, t: Step)
    requires c.Ok() && Sized(c, s) && IosSane(c, s) && Allowed(c, s, t)
    ensures IosSane(c, Do(c, s, t))
  {
    hide Seg, Rem, MergeAll, Allocated, Free;
    var r := Do(c, s, t);
    forall b, b' | Unmapping(r, b) && InData(c, b') && Seg(c.n, b') == Seg(c.n, b) ensures Unmapping(r, b') {
      if Unmapping(s, b) { assert Unmapping(s, b'); }
    }
  }

  lemma SaneStep(c: Config, s: State, t: Step)
    requires c.Ok() && Sane(c, s) && Allowed(c, s, t)
    ensures Sane(c, Do(c, s, t))
  {
    hide Do, Allowed, TasksSane, IosSane, CoresSane;
    CoresSaneStep(c, s, t);
    TasksSaneStep(c, s, t);
    IosSaneStep(c, s, t);
  }

  lemma {:induction false} SaneRun(c: Config, s: State, ts: seq<Step>, end: State)
    requires c.Ok() && Sane(c, s) && IsRun(c, s, ts, end)
    ensures Sane(c, end)
    decreases |ts|
  {
    hide Do, Allowed, Sane;
    if ts != [] {
      assert Sized(c, s) by { SaneSized(c, s); }
      SaneStep(c, s, ts[0]);
      SaneRun(c, Do(c, s, ts[0]), ts[1..], end);
    }
  }

  lemma SaneSized(c: Config, s: State)
    requires c.Ok() && Sane(c, s)
    ensures Sized(c, s)
  {
  }

  // ------------------------------------------------------------------- leading

  ghost predicate Leads(c: Config, s: State, r: State)
    requires c.Ok()
  {
    exists ts :: IsRun(c, s, ts, r) && AllOwn(ts)
  }

  lemma LeadsSelf(c: Config, s: State)
    requires c.Ok()
    ensures Leads(c, s, s)
  {
    EmptyRun(c, s);
    assert AllOwn([]);
  }

  lemma LeadsOn(c: Config, s: State, m: State, r: State)
    requires c.Ok() && Leads(c, s, m) && Leads(c, m, r)
    ensures Leads(c, s, r)
  {
    hide IsRun;
    var a :| IsRun(c, s, a, m) && AllOwn(a);
    var b :| IsRun(c, m, b, r) && AllOwn(b);
    Joined(c, s, a, m, b, r);
    assert AllOwn(a + b);
  }

  lemma LeadsStep(c: Config, s: State, t: Step)
    requires c.Ok() && Sane(c, s) && Allowed(c, s, t) && Own(t)
    ensures Leads(c, s, Do(c, s, t)) && Sane(c, Do(c, s, t))
  {
    hide Allowed, Do, Own, Sane;
    assert Sized(c, s) by { SaneSized(c, s); }
    SaneStep(c, s, t);
    EmptyRun(c, Do(c, s, t));
    Prepend(c, s, t, [], Do(c, s, t));
    assert AllOwn([t] + []);
  }

  /** Nothing but the I/O under way, and what it writes, is different. */
  predicate SameRest(s: State, r: State) {
    && r.tasks == s.tasks && r.walk == s.walk && r.rebuilding == s.rebuilding && r.failed == s.failed
    && r.joined == s.joined && r.logs == s.logs
  }

  // ------------------------------------------------------------ I/O comes to an end

  /** A write or unmap under way to a block reaches every side it goes to. */
  lemma Applied(c: Config, s: State, b: nat) returns (r: State)
    requires c.Ok() && Sane(c, s) && b in s.inflight
    ensures Leads(c, s, r) && Sane(c, r) && SameRest(s, r) && r.inflight.Keys == s.inflight.Keys
    ensures Done(r.inflight[b]) && r.inflight[b].unmap == s.inflight[b].unmap
    ensures forall x :: x in s.inflight && x != b ==> r.inflight[x] == s.inflight[x]
  {
    hide Leads, Sane;
    assert Sized(c, s) && InData(c, b) by { SaneAt(c, s, b); }
    var m := Do(c, s, ApplySrc(b));
    LeadsStep(c, s, ApplySrc(b));
    if m.inflight[b].toDst {
      r := Do(c, m, ApplyDst(b));
      LeadsStep(c, m, ApplyDst(b));
      LeadsOn(c, s, m, r);
    } else {
      r := m;
    }
  }

  lemma SaneAt(c: Config, s: State, b: nat)
    requires c.Ok() && Sane(c, s) && b in s.inflight
    ensures Sized(c, s) && InData(c, b)
  {
  }

  lemma {:induction false} AllApplied(c: Config, s: State, todo: set<nat>) returns (r: State)
    requires c.Ok() && Sane(c, s) && todo <= s.inflight.Keys
    ensures Leads(c, s, r) && Sane(c, r) && SameRest(s, r) && r.inflight.Keys == s.inflight.Keys
    ensures forall x :: x in s.inflight ==> r.inflight[x].unmap == s.inflight[x].unmap
    ensures forall x :: x in todo ==> Done(r.inflight[x])
    ensures forall x :: x in s.inflight && x !in todo ==> r.inflight[x] == s.inflight[x]
    decreases |todo|
  {
    hide Leads, Sane, Done;
    if todo == {} {
      r := s;
      LeadsSelf(c, s);
    } else {
      var b :| b in todo;
      var m := AllApplied(c, s, todo - {b});
      r := Applied(c, m, b);
      LeadsOn(c, s, m, r);
    }
  }

  /** One write, or the unmap of one segment, ends. */
  lemma OneEnds(c: Config, s: State, b: nat) returns (r: State)
    requires c.Ok() && Sane(c, s) && b in s.inflight
    ensures Leads(c, s, r) && Sane(c, r) && SameRest(s, r) && r.inflight.Keys < s.inflight.Keys
  {
    hide Leads, Sane, Done;
    assert Sized(c, s) && InData(c, b) by { SaneAt(c, s, b); }
    var m, t;
    if s.inflight[b].unmap {
      var k := Seg(c.n, b);
      assert forall x :: x in Blocks(c, k) ==> Unmapping(s, x) by { WholeSegment(c, s, b); }
      m := AllApplied(c, s, Blocks(c, k));
      t := EndUnmap(k);
      assert b in Blocks(c, k);
    } else {
      m := Applied(c, s, b);
      t := EndWrite(b);
    }
    SaneSized(c, m);
    r := Do(c, m, t);
    LeadsStep(c, m, t);
    LeadsOn(c, s, m, r);
    assert b !in r.inflight;
  }

  lemma WholeSegment(c: Config, s: State, b: nat)
    requires c.Ok() && Sane(c, s) && Unmapping(s, b)
    ensures forall x :: x in Blocks(c, Seg(c.n, b)) ==> Unmapping(s, x)
  {
    hide Seg;
  }

  lemma {:induction false} AllEnd(c: Config, s: State) returns (r: State)
    requires c.Ok() && Sane(c, s)
    ensures Leads(c, s, r) && Sane(c, r) && SameRest(s, r) && r.inflight == map[]
    decreases |s.inflight.Keys|
  {
    hide Leads, Sane;
    if s.inflight == map[] {
      r := s;
      LeadsSelf(c, s);
    } else {
      var b :| b in s.inflight;
      var m := OneEnds(c, s, b);
      Fewer(m.inflight.Keys, s.inflight.Keys);
      r := AllEnd(c, m);
      LeadsOn(c, s, m, r);
    }
  }

  lemma Fewer(a: set<nat>, b: set<nat>)
    requires a < b
    ensures |a| < |b|
  {
    var x :| x in b && x !in a;
    Subset(a, b - {x});
  }

  lemma {:induction false} Subset(a: set<nat>, b: set<nat>)
    requires a <= b
    ensures |a| <= |b|
  {
    if a != {} {
      var x :| x in a;
      Subset(a - {x}, b - {x});
    }
  }

  // -------------------------------------------------------------- the rebuild starts

  lemma {:induction false} AllJoin(c: Config, s: State, n: nat) returns (r: State)
    requires c.Ok() && Sane(c, s) && !s.rebuilding && n <= |s.logs|
    ensures Leads(c, s, r) && Sane(c, r) && r == s.(joined := r.joined) && forall i :: 0 <= i < n ==> i in r.joined
    decreases n
  {
    hide Leads, Sane;
    SaneSized(c, s);
    if n == 0 {
      r := s;
      LeadsSelf(c, s);
    } else {
      var m := AllJoin(c, s, n - 1);
      SaneSized(c, m);
      r := Do(c, m, Join(n - 1));
      LeadsStep(c, m, Join(n - 1));
      LeadsOn(c, s, m, r);
    }
  }

  lemma Started(c: Config, s: State) returns (r: State)
    requires c.Ok() && Sane(c, s) && s.inflight == map[]
    ensures Leads(c, s, r) && Sane(c, r) && r.rebuilding && r.failed == s.failed && r.inflight == map[]
  {
    hide Leads, Sane;
    if s.rebuilding {
      r := s;
      LeadsSelf(c, s);
    } else {
      SaneSized(c, s);
      var m := AllJoin(c, s, |s.logs|);
      SaneSized(c, m);
      r := Do(c, m, StartRebuild);
      LeadsStep(c, m, StartRebuild);
      LeadsOn(c, s, m, r);
    }
  }

  // ----------------------------------------------------------------- tasks and walk

  function Rank(stage: Stage): nat {
    match stage
    case Fresh => 6
    case Waiting => 5
    case Locked => 4
    case Loaded(_) => 3
    case Copied => 2
    case Unlocked => 1
  }

  /** What a task does next, when no I/O is under way. */
  function NextOf(c: Config, s: State, blk: nat): Step
    requires c.Ok() && Sane(c, s) && blk in s.tasks
  {
    match s.tasks[blk]
    case Fresh => if s.dirty[Seg(c.n, blk)] then NeedCopy(blk) else SkipClean(blk)
    case Waiting => Lock(blk)
    case Locked => if Allocated(c, s, blk) then Load(blk) else LoadUnwritten(blk)
    case Loaded(_) => Store(blk)
    case Copied => Unlock(blk)
    case Unlocked => MarkClean(blk)
  }

  lemma TaskStep(c: Config, s: State, blk: nat) returns (r: State)
    requires c.Ok() && Sane(c, s) && s.inflight == map[] && blk in s.tasks
    ensures Leads(c, s, r) && Sane(c, r) && r.inflight == map[] && r.rebuilding == s.rebuilding && r.failed == s.failed
    ensures r.walk == s.walk && r.tasks - {blk} == s.tasks - {blk} && r.joined == s.joined && r.logs == s.logs
    ensures blk in r.tasks ==> Rank(r.tasks[blk]) < Rank(s.tasks[blk])
  {
    hide Leads, Seg, Rem, Allocated;
    var t := NextOf(c, s, blk);
    r := Do(c, s, t);
    LeadsStep(c, s, t);
  }

  lemma {:induction false} TaskEnds(c: Config, s: State, blk: nat) returns (r: State)
    requires c.Ok() && Sane(c, s) && s.inflight == map[] && blk in s.tasks
    ensures Leads(c, s, r) && Sane(c, r) && r.inflight == map[] && r.rebuilding == s.rebuilding && r.failed == s.failed
    ensures r.walk == s.walk && r.tasks == s.tasks - {blk} && r.joined == s.joined && r.logs == s.logs
    decreases Rank(s.tasks[blk])
  {
    hide Leads, Sane, Rank;
    r := TaskStep(c, s, blk);
    if blk in r.tasks {
      var m := r;
      r := TaskEnds(c, m, blk);
      LeadsOn(c, s, m, r);
    } else {
      assert r.tasks == r.tasks - {blk};
    }
  }

  lemma {:induction false} TasksEnd(c: Config, s: State) returns (r: State)
    requires c.Ok() && Sane(c, s) && s.inflight == map[]
    ensures Leads(c, s, r) && Sane(c, r) && r.inflight == map[] && r.rebuilding == s.rebuilding && r.failed == s.failed
    ensures r.walk == s.walk && r.tasks == map[] && r.joined == s.joined && r.logs == s.logs
    decreases |s.tasks.Keys|
  {
    hide Leads, Sane;
    if s.tasks == map[] {
      r := s;
      LeadsSelf(c, s);
    } else {
      var blk :| blk in s.tasks;
      var m := TaskEnds(c, s, blk);
      assert m.tasks.Keys == s.tasks.Keys - {blk};
      r := TasksEnd(c, m);
      LeadsOn(c, s, m, r);
    }
  }

  lemma {:induction false} WalkEnds(c: Config, s: State) returns (r: State)
    requires c.Ok() && Sane(c, s) && s.inflight == map[] && s.tasks == map[] && s.rebuilding && !s.failed
    ensures Leads(c, s, r) && r.inflight == map[] && Completed(c, r)
    decreases c.end - s.walk
  {
    hide Leads, Sane;
    if s.walk >= c.end {
      r := s;
      LeadsSelf(c, s);
    } else {
      SaneSized(c, s);
      var m := Do(c, s, Schedule);
      LeadsStep(c, s, Schedule);
      var m' := TasksEnd(c, m);
      LeadsOn(c, s, m, m');
      r := WalkEnds(c, m');
      LeadsOn(c, s, m', r);
    }
  }

  /** From every state that a run reaches without a failure, whatever is under way, a completed rebuild with no I/O left
      can be reached without new host I/O: nothing the protocol does can block it for good. */
  lemma CanComplete(c: Config, s0: State, ts: seq<Step>, s: State) returns (end: State)
    requires c.Ok() && Init(c, s0) && IsRun(c, s0, ts, s) && !s.failed
    ensures Leads(c, s, end) && Completed(c, end) && end.inflight == map[]
  {
    hide Leads, IsRun;
    assert Sane(c, s0);
    SaneRun(c, s0, ts, s);
    var s1 := AllEnd(c, s);
    var s2 := Started(c, s1);
    LeadsOn(c, s, s1, s2);
    var s3 := TasksEnd(c, s2);
    LeadsOn(c, s, s2, s3);
    end := WalkEnds(c, s3);
    LeadsOn(c, s, s3, end);
  }

  /** Nor can it block a host write or unmap for good: from every such state one is reached, without new host I/O, in
      which the core may write the block or unmap the segment, to both children if it has joined and logged if not. */
  lemma HostNeverBlocked(c: Config, s0: State, ts: seq<Step>, s: State, core: nat, b: nat, v: Val) returns (r: State)
    requires c.Ok() && Init(c, s0) && IsRun(c, s0, ts, s) && core < |s.logs| && InData(c, b)
    ensures Leads(c, s, r) && Sized(c, r)
    ensures core in s.joined ==> Allowed(c, r, HostWrite(core, b, v)) && Allowed(c, r, HostUnmap(core, Seg(c.n, b)))
    ensures core !in s.joined ==> Allowed(c, r, LogWrite(core, b, v)) && Allowed(c, r, LogUnmap(core, Seg(c.n, b)))
  {
    hide Leads, IsRun, Seg;
    assert Sane(c, s0);
    SaneRun(c, s0, ts, s);
    var m := AllEnd(c, s);
    r := TasksEnd(c, m);
    LeadsOn(c, s, m, r);
  }
}
