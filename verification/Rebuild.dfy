/** A nexus child that missed writes is brought back with a partial rebuild: writes it missed are
    logged per core in dirty maps, the cores add the child as a writer one by one, the maps are merged,
    and the dirty segments are copied from a healthy child under range locks while the host keeps
    writing. The healthy child may be thinly provisioned: a segment it has not allocated is not copied.
    Every interleaving is a run of the steps below. */
module Rebuild {
  import opened SegmentMaps

  type Val = int

  /** Segment of a block, and the block's place in it, counted in blocks of n to a segment. */
  function Seg(n: nat, b: nat): nat
    requires n >= 1
    decreases b, n
  {
    if b < n then 0 else 1 + Seg(n, b - n)
  }

  function Rem(n: nat, b: nat): (r: nat)
    requires n >= 1
    ensures r < n
    decreases b, n
  {
    if b < n then b else Rem(n, b - n)
  }

  /** Blocks to a segment, segments in a map, the blocks [start, end) of a child that hold data, and
      whether the healthy child gives up the allocation of a segment that is unmapped. */
  datatype Config = Config(n: nat, segs: nat, numBlocks: nat, start: nat, end: nat, releases: bool) {
    ghost predicate Ok() {
      && n >= 1 && start <= end <= numBlocks
      && forall b: nat :: b < numBlocks ==> Seg(n, b) < segs
    }

    /** The data starts on a segment boundary, or lies in a single segment. */
    predicate Aligned()
      requires n >= 1
    {
      Rem(n, start) == 0 || start == end || (start < end && Seg(n, start) == Seg(n, end - 1))
    }
  }

  /** A host write or unmap under way to a block: whether it also goes to the rebuilt child, and which
      sides have it. */
  datatype Write = Write(v: Val, toDst: bool, srcDone: bool, dstDone: bool, unmap: bool)

  /** Progress of one segment task. */
  datatype Stage = Fresh | Waiting | Locked | Loaded(buf: seq<Val>) | Copied | Unlocked {
    predicate HoldsLock() { Locked? || Loaded? || Copied? }
  }

  datatype State = State(
    rebuilding: bool, src: seq<Val>, dst: seq<Val>,
    alloc: seq<bool>,            // the segments the healthy child has allocated
    joined: set<nat>,            // the cores that write to the child again
    logs: seq<seq<bool>>,        // per core, while the child is away
    dirty: seq<bool>,            // the merged map, during the rebuild
    inflight: map<nat, Write>,
    walk: nat,                   // next block to schedule
    tasks: map<nat, Stage>,      // running tasks by first block
    failed: bool)

  datatype Step =
    | LogWrite(core: nat, b: nat, v: Val) | LogUnmap(core: nat, k: nat)
    | HostWrite(core: nat, b: nat, v: Val) | HostUnmap(core: nat, k: nat)
    | ApplySrc(b: nat) | ApplyDst(b: nat) | EndWrite(b: nat) | EndUnmap(k: nat)
    | Allocate(k: nat) | Release(k: nat)
    | Join(core: nat) | StartRebuild | Schedule
    | SkipClean(blk: nat) | NeedCopy(blk: nat) | Lock(blk: nat) | Load(blk: nat) | LoadUnwritten(blk: nat)
    | Store(blk: nat) | Unlock(blk: nat) | MarkClean(blk: nat) | Fail(blk: nat, torn: seq<Val>)

  predicate InData(c: Config, b: nat) { c.start <= b < c.end }

  /** Length of the copy that starts at blk. */
  function CopyLen(c: Config, blk: nat): nat
    requires c.Ok() && blk <= c.end
  {
    if blk + c.n > c.end then c.end - blk else c.n
  }

  /** Merging the per-core maps one after the other. */
  function MergeAll(logs: seq<seq<bool>>, n: nat): (m: seq<bool>)
    requires logs != [] && forall i :: 0 <= i < |logs| ==> |logs[i]| == n
    ensures |m| == n
  {
    if |logs| == 1 then logs[0] else Or(MergeAll(logs[..|logs| - 1], n), logs[|logs| - 1])
  }

  predicate Sized(c: Config, s: State)
    requires c.Ok()
  {
    && |s.src| == c.numBlocks && |s.dst| == c.numBlocks
    && |s.logs| > 0 && (forall i :: 0 <= i < |s.logs| ==> |s.logs[i]| == c.segs)
    && |s.dirty| == c.segs && |s.alloc| == c.segs
  }

  /** The data blocks of segment k. */
  function Blocks(c: Config, k: nat): set<nat>
    requires c.n >= 1
  {
    set b: nat | c.start <= b < c.end && Seg(c.n, b) == k
  }

  /** The source has allocated everything the copy at blk reads. */
  predicate Allocated(c: Config, s: State, blk: nat)
    requires c.Ok() && Sized(c, s) && blk <= c.end
  {
    forall b: nat :: blk <= b < blk + CopyLen(c, blk) ==> s.alloc[Seg(c.n, b)]
  }

  predicate Free(c: Config, s: State, b: nat)
    requires c.Ok()
  {
    forall blk :: blk in s.tasks && s.tasks[blk].HoldsLock() ==> !(blk <= b < blk + c.n)
  }

  predicate Allowed(c: Config, s: State, t: Step)
    requires c.Ok() && Sized(c, s)
  {
    match t
    case LogWrite(core, b, _) =>
      !s.rebuilding && core < |s.logs| && core !in s.joined && InData(c, b) && b !in s.inflight
    case LogUnmap(core, k) =>
      && !s.rebuilding && core < |s.logs| && core !in s.joined && k < c.segs
      && forall b :: b in Blocks(c, k) ==> b !in s.inflight
    case HostWrite(core, b, _) => core in s.joined && InData(c, b) && b !in s.inflight && Free(c, s, b)
    case HostUnmap(core, k) =>
      core in s.joined && k < c.segs && forall b :: b in Blocks(c, k) ==> b !in s.inflight && Free(c, s, b)
    case ApplySrc(b) => b in s.inflight && InData(c, b)
    case ApplyDst(b) => b in s.inflight && s.inflight[b].toDst && InData(c, b)
    case EndWrite(b) => b in s.inflight && !s.inflight[b].unmap && Done(s.inflight[b])
    case EndUnmap(k) => forall b :: b in Blocks(c, k) ==> b in s.inflight && s.inflight[b].unmap && Done(s.inflight[b])
    case Allocate(k) => k < c.segs
    case Release(k) =>
      c.releases && k < c.segs && forall b :: b in Blocks(c, k) ==> b in s.inflight && s.inflight[b].unmap
    case Join(core) => !s.rebuilding && core < |s.logs|
    case StartRebuild => !s.rebuilding && forall i :: 0 <= i < |s.logs| ==> i in s.joined
    case Schedule => s.rebuilding && s.walk < c.end && s.walk !in s.tasks
    case SkipClean(blk) => blk in s.tasks && s.tasks[blk].Fresh? && blk < c.end && !s.dirty[Seg(c.n, blk)]
    case NeedCopy(blk) => blk in s.tasks && s.tasks[blk].Fresh? && blk < c.end && s.dirty[Seg(c.n, blk)]
    case Lock(blk) => && blk in s.tasks && s.tasks[blk].Waiting? && blk <= c.end
                      && forall b :: b in s.inflight ==> !(blk <= b < blk + CopyLen(c, blk))
    case Load(blk) => blk in s.tasks && s.tasks[blk].Locked? && blk <= c.end && Allocated(c, s, blk)
    case LoadUnwritten(blk) => blk in s.tasks && s.tasks[blk].Locked? && blk <= c.end && !Allocated(c, s, blk)
    case Store(blk) => blk in s.tasks && s.tasks[blk].Loaded? && blk <= c.end && |s.tasks[blk].buf| == CopyLen(c, blk)
    case Unlock(blk) => blk in s.tasks && s.tasks[blk].Copied?
    case MarkClean(blk) => blk in s.tasks && s.tasks[blk].Unlocked? && blk < c.end
    case Fail(blk, torn) => blk in s.tasks && |torn| == |s.dst|
  }

  /** Every side the write goes to has it. */
  predicate Done(w: Write) { w.srcDone && (w.toDst ==> w.dstDone) }

  /** An unmap of segment k, as what it does to each of its blocks. */
  function Unmaps(c: Config, k: nat, toDst: bool): map<nat, Write>
    requires c.n >= 1
  {
    map b | b in Blocks(c, k) :: Write(0, toDst, false, false, true)
  }

  function Do(c: Config, s: State, t: Step): (r: State)
    requires c.Ok() && Sized(c, s) && Allowed(c, s, t)
    ensures Sized(c, r)
  {
    match t
    case LogWrite(core, b, v) =>
      s.(inflight := s.inflight[b := Write(v, false, false, false, false)],
         logs := s.logs[core := s.logs[core][Seg(c.n, b) := true]])
    case LogUnmap(core, k) =>
      s.(inflight := s.inflight + Unmaps(c, k, false), logs := s.logs[core := s.logs[core][k := true]])
    case HostWrite(_, b, v) => s.(inflight := s.inflight[b := Write(v, true, false, false, false)])
    case HostUnmap(_, k) => s.(inflight := s.inflight + Unmaps(c, k, true))
    case ApplySrc(b) =>
      s.(src := s.src[b := s.inflight[b].v], inflight := s.inflight[b := s.inflight[b].(srcDone := true)],
         alloc := if s.inflight[b].unmap then s.alloc else s.alloc[Seg(c.n, b) := true])
    case ApplyDst(b) =>
      s.(dst := s.dst[b := s.inflight[b].v], inflight := s.inflight[b := s.inflight[b].(dstDone := true)])
    case EndWrite(b) => s.(inflight := s.inflight - {b})
    case EndUnmap(k) => s.(inflight := s.inflight - Blocks(c, k))
    case Allocate(k) => s.(alloc := s.alloc[k := true])
    case Release(k) =>
      s.(src := seq(|s.src|, b requires 0 <= b < |s.src| => if b in Blocks(c, k) then 0 else s.src[b]),
         inflight := map b | b in s.inflight ::
           if b in Blocks(c, k) then s.inflight[b].(srcDone := true) else s.inflight[b],
         alloc := s.alloc[k := false])
    case Join(core) => s.(joined := s.joined + {core})
    case StartRebuild => s.(rebuilding := true, dirty := MergeAll(s.logs, c.segs))
    case Schedule => s.(tasks := s.tasks[s.walk := Fresh], walk := s.walk + c.n)
    case SkipClean(blk) => s.(tasks := s.tasks - {blk})
    case NeedCopy(blk) => s.(tasks := s.tasks[blk := Waiting])
    case Lock(blk) => s.(tasks := s.tasks[blk := Locked])
    case Load(blk) => s.(tasks := s.tasks[blk := Loaded(s.src[blk..blk + CopyLen(c, blk)])])
    case LoadUnwritten(blk) => s.(tasks := s.tasks[blk := Copied])
    case Store(blk) =>
      s.(dst := s.dst[..blk] + s.tasks[blk].buf + s.dst[blk + CopyLen(c, blk)..], tasks := s.tasks[blk := Copied])
    case Unlock(blk) => s.(tasks := s.tasks[blk := Unlocked])
    case MarkClean(blk) => s.(dirty := s.dirty[Seg(c.n, blk) := false], tasks := s.tasks - {blk})
    case Fail(blk, torn) => s.(dst := torn, tasks := s.tasks - {blk}, failed := true)
  }

  /** The child leaves in sync; every core has a clean log; what the source has not allocated reads zero. */
  predicate Init(c: Config, s: State)
    requires c.Ok()
  {
    && Sized(c, s) && !s.rebuilding && !s.failed && s.walk == c.start
    && s.inflight == map[] && s.tasks == map[] && s.joined == {}
    && (forall b :: c.start <= b < c.end ==> s.src[b] == s.dst[b])
    && (forall b :: c.start <= b < c.end && !s.alloc[Seg(c.n, b)] ==> s.src[b] == 0)
    && (forall i, k :: 0 <= i < |s.logs| && 0 <= k < |s.logs[i]| ==> !s.logs[i][k])
  }

  /** The walk is over, every task has ended and none failed. */
  predicate Completed(c: Config, s: State) {
    s.rebuilding && !s.failed && s.walk >= c.end && s.tasks == map[]
  }

  // -------------------------------------------------------------- the invariant

  /** The block is dirty in the merged map, or while the child is away in some core's log. */
  ghost predicate DirtyAt(c: Config, s: State, b: nat)
    requires c.Ok()
  {
    var k := Seg(c.n, b);
    if s.rebuilding then k < |s.dirty| && s.dirty[k]
    else exists i :: 0 <= i < |s.logs| && k < |s.logs[i]| && s.logs[i][k]
  }

  ghost predicate TasksOk(c: Config, s: State)
    requires c.Ok()
  {
    && c.Aligned() && !c.releases && s.walk >= c.start && Rem(c.n, s.walk - c.start) == 0
    && (!s.rebuilding ==> s.tasks == map[] && s.walk == c.start)
    && forall blk :: blk in s.tasks ==> c.start <= blk < c.end && blk < s.walk && Rem(c.n, blk - c.start) == 0
  }

  ghost predicate WritesOk(c: Config, s: State)
    requires c.Ok() && Sized(c, s)
  {
    forall b :: b in s.inflight ==>
      && InData(c, b)
      && (s.inflight[b].srcDone ==> s.src[b] == s.inflight[b].v)
      && (s.inflight[b].dstDone ==> s.dst[b] == s.inflight[b].v)
      && (!s.inflight[b].toDst ==> DirtyAt(c, s, b))
  }

  /** Every block on which the children differ is dirty or has a write under way. */
  ghost predicate Tracked(c: Config, s: State)
    requires c.Ok() && Sized(c, s)
  {
    forall b {:trigger s.src[b]} {:trigger s.dst[b]} ::
      c.start <= b < c.end && b !in s.inflight && s.src[b] != s.dst[b] ==> DirtyAt(c, s, b)
  }

  /** What a task at its stage knows about a block of its segment. */
  ghost predicate StageOk(c: Config, s: State, blk: nat, b: nat)
    requires c.Ok() && Sized(c, s) && InData(c, b) && blk in s.tasks
  {
    var stage := s.tasks[blk];
    && (stage.HoldsLock() ==> b !in s.inflight)
    && (stage.Loaded? ==> blk <= b < blk + |stage.buf| && stage.buf[b - blk] == s.src[b])
    && (stage.Copied? ==> s.src[b] == s.dst[b])
    && (stage.Unlocked? ==> if b in s.inflight then s.inflight[b].toDst else s.src[b] == s.dst[b])
  }

  ghost predicate StagesOk(c: Config, s: State)
    requires c.Ok() && Sized(c, s)
  {
    forall blk, b :: blk in s.tasks && c.start <= b < c.end && Seg(c.n, b) == Seg(c.n, blk) ==> StageOk(c, s, blk, b)
  }

  /** Behind the walk a segment is clean or still has its task. */
  ghost predicate WalkOk(c: Config, s: State)
    requires c.Ok() && Sized(c, s)
  {
    s.rebuilding ==>
      forall b: nat :: c.start <= b < c.end && b < s.walk ==>
        !DirtyAt(c, s, b) || exists blk :: blk in s.tasks && Seg(c.n, blk) == Seg(c.n, b)
  }

  ghost predicate Inv(c: Config, s: State)
    requires c.Ok()
  {
    && Sized(c, s)
    && (s.failed || (TasksOk(c, s) && WritesOk(c, s) && Tracked(c, s) && StagesOk(c, s) && WalkOk(c, s)))
  }

  /** Nothing was ever stored where the source has not allocated: it reads zero, and so does the rebuilt
      child but for a write that reached it first. */
  ghost predicate ThinAt(c: Config, s: State, b: nat)
    requires c.Ok() && Sized(c, s) && InData(c, b)
  {
    && (!s.alloc[Seg(c.n, b)] ==>
          && s.src[b] == 0
          && (s.dst[b] == 0 || (b in s.inflight && s.inflight[b].toDst && s.inflight[b].dstDone)))
    && (b in s.inflight && s.inflight[b].unmap ==> s.inflight[b].v == 0)
    && (b in s.inflight && s.inflight[b].srcDone && !s.inflight[b].unmap ==> s.alloc[Seg(c.n, b)])
  }

  ghost predicate Thin(c: Config, s: State)
    requires c.Ok() && Sized(c, s)
  {
    s.failed || forall b :: c.start <= b < c.end ==> ThinAt(c, s, b)
  }

  /** The segment of a block on a boundary is the n blocks from it. */
  lemma {:induction false} SegmentFrom(n: nat, blk: nat, b: nat)
    requires n >= 1 && Rem(n, blk) == 0
    ensures Seg(n, b) == Seg(n, blk) <==> blk <= b < blk + n
    decreases blk
  {
    if blk >= n && b >= n { SegmentFrom(n, blk - n, b - n); }
  }

  lemma {:induction false} RemAdd(n: nat, a: nat, b: nat)
    requires n >= 1 && Rem(n, a) == 0
    ensures Rem(n, a + b) == Rem(n, b)
    decreases a
  {
    if a >= n { RemAdd(n, a - n, b); }
  }

  lemma {:induction false} SegOrder(n: nat, a: nat, b: nat)
    requires n >= 1 && a <= b
    ensures Seg(n, a) <= Seg(n, b)
    ensures Seg(n, a) == Seg(n, b) ==> b < a + n
    decreases b
  {
    if a >= n { SegOrder(n, a - n, b - n); }
  }

  /** In an aligned configuration, the segment of a task's first block is exactly what it copies. */
  lemma SegmentOfTask(c: Config, blk: nat, b: nat)
    requires c.Ok() && c.Aligned() && c.start <= blk < c.end && Rem(c.n, blk - c.start) == 0 && c.start <= b < c.end
    ensures Seg(c.n, b) == Seg(c.n, blk) <==> blk <= b < blk + c.n
  {
    if Rem(c.n, c.start) == 0 {
      RemAdd(c.n, c.start, blk - c.start);
      SegmentFrom(c.n, blk, b);
    } else {
      SegOrder(c.n, c.start, b); SegOrder(c.n, b, c.end - 1);
      SegOrder(c.n, c.start, blk); SegOrder(c.n, blk, c.end - 1);
      assert blk - c.start < c.n;
    }
  }

  lemma SegmentsOfTasks(c: Config, s: State)
    requires c.Ok() && TasksOk(c, s)
    ensures forall blk, b: nat :: blk in s.tasks && c.start <= b < c.end ==>
              (Seg(c.n, b) == Seg(c.n, blk) <==> blk <= b < blk + c.n)
  {
    forall blk, b: nat | blk in s.tasks && c.start <= b < c.end
      ensures Seg(c.n, b) == Seg(c.n, blk) <==> blk <= b < blk + c.n
    {
      SegmentOfTask(c, blk, b);
    }
  }

  lemma {:induction false} MergeAllIff(logs: seq<seq<bool>>, n: nat, k: nat)
    requires logs != [] && (forall i :: 0 <= i < |logs| ==> |logs[i]| == n) && k < n
    ensures MergeAll(logs, n)[k] <==> exists i :: 0 <= i < |logs| && logs[i][k]
  {
    if |logs| > 1 {
      var last := |logs| - 1;
      MergeAllIff(logs[..last], n, k);
      assert forall i :: 0 <= i < last ==> logs[..last][i] == logs[i];
      if logs[last][k] { assert MergeAll(logs, n)[k]; }
    }
  }

  lemma InitInv(c: Config, s: State)
    requires c.Ok() && c.Aligned() && !c.releases && Init(c, s)
    ensures Inv(c, s) && Thin(c, s)
  {
  }

  lemma LogWriteKeeps(c: Config, s: State, t: Step)
    requires c.Ok() && Inv(c, s) && !s.failed && Allowed(c, s, t) && t.LogWrite?
    ensures Inv(c, Do(c, s, t))
  {
    hide Seg, Rem;
    var r := Do(c, s, t);
    assert r.logs[t.core][Seg(c.n, t.b)];
    assert DirtyAt(c, r, t.b);
    forall b: nat | DirtyAt(c, s, b) ensures DirtyAt(c, r, b) {
      var i :| 0 <= i < |s.logs| && Seg(c.n, b) < |s.logs[i]| && s.logs[i][Seg(c.n, b)];
      assert r.logs[i][Seg(c.n, b)];
    }
  }

  /** An unmap the child misses puts all blocks of its segment under way, and is logged. */
  lemma LogUnmapKeeps(c: Config, s: State, t: Step)
    requires c.Ok() && Inv(c, s) && !s.failed && Allowed(c, s, t) && t.LogUnmap?
    ensures Inv(c, Do(c, s, t))
  {
    hide Seg, Rem, DirtyAt;
    var r := Do(c, s, t);
    forall b: nat
      ensures DirtyAt(c, s, b) || b in Blocks(c, t.k) ==> DirtyAt(c, r, b)
    {
      UnmapDirt(c, s, t, b);
    }
    assert WritesOk(c, r);
    assert Tracked(c, r);
  }

  /** An unmap that also reaches the child meets no copy. */
  lemma HostUnmapKeeps(c: Config, s: State, t: Step)
    requires c.Ok() && Inv(c, s) && !s.failed && Allowed(c, s, t) && t.HostUnmap?
    ensures Inv(c, Do(c, s, t))
  {
    hide Seg, Rem, DirtyAt, StageOk, WritesOk, Tracked, WalkOk;
    SegmentsOfTasks(c, s);
    var r := Do(c, s, t);
    forall blk, b | blk in r.tasks && c.start <= b < c.end && Seg(c.n, b) == Seg(c.n, blk)
      ensures StageOk(c, r, blk, b)
    {
      HostUnmapStage(c, s, t, blk, b);
    }
    HostUnmapRest(c, s, t);
  }

  lemma HostUnmapRest(c: Config, s: State, t: Step)
    requires c.Ok() && Sized(c, s) && Allowed(c, s, t) && t.HostUnmap?
    requires WritesOk(c, s) && Tracked(c, s) && WalkOk(c, s)
    ensures var r := Do(c, s, t); WritesOk(c, r) && Tracked(c, r) && WalkOk(c, r)
  {
    hide Seg, Rem, DirtyAt, Free;
    var r := Do(c, s, t);
    forall b: nat ensures DirtyAt(c, r, b) == DirtyAt(c, s, b) { SameDirt(c, s, r, b); }
  }

  lemma HostUnmapStage(c: Config, s: State, t: Step, blk: nat, b: nat)
    requires c.Ok() && Sized(c, s) && Allowed(c, s, t) && t.HostUnmap? && blk in s.tasks && InData(c, b)
    requires StageOk(c, s, blk, b) && blk <= b < blk + c.n
    ensures StageOk(c, Do(c, s, t), blk, b)
  {
    hide Seg, Rem;
    if b in Blocks(c, t.k) { assert Free(c, s, b); }
  }

  lemma UnmapDirt(c: Config, s: State, t: Step, b: nat)
    requires c.Ok() && Sized(c, s) && Allowed(c, s, t) && t.LogUnmap?
    ensures DirtyAt(c, s, b) || b in Blocks(c, t.k) ==> DirtyAt(c, Do(c, s, t), b)
  {
    hide Seg, Rem;
    var r := Do(c, s, t);
    assert r.logs[t.core][t.k];
    if DirtyAt(c, s, b) {
      var i :| 0 <= i < |s.logs| && Seg(c.n, b) < |s.logs[i]| && s.logs[i][Seg(c.n, b)];
      assert r.logs[i][Seg(c.n, b)];
    }
  }

  /** The steps in which neither the logs nor the map change: a core joins, something is allocated, and the life of a
      write or unmap from the moment it is under way. */
  predicate LeavesLogs(t: Step) {
    t.Join? || t.Allocate? || t.HostWrite? || t.ApplySrc? || t.ApplyDst? || t.EndWrite? || t.EndUnmap?
  }

  lemma SameLogsKeeps(c: Config, s: State, t: Step)
    requires c.Ok() && Inv(c, s) && !s.failed && Allowed(c, s, t) && LeavesLogs(t)
    ensures Inv(c, Do(c, s, t))
  {
    hide Seg, Rem, StageOk, WritesOk, Tracked, WalkOk;
    SegmentsOfTasks(c, s);
    var r := Do(c, s, t);
    forall blk, b | blk in r.tasks && c.start <= b < c.end && Seg(c.n, b) == Seg(c.n, blk)
      ensures StageOk(c, r, blk, b)
    {
      SameLogsStage(c, s, t, blk, b);
    }
    SameLogsRest(c, s, t);
  }

  lemma SameLogsStage(c: Config, s: State, t: Step, blk: nat, b: nat)
    requires c.Ok() && Sized(c, s) && Allowed(c, s, t) && LeavesLogs(t) && blk in s.tasks && InData(c, b)
    requires WritesOk(c, s) && StageOk(c, s, blk, b) && blk <= b < blk + c.n
    ensures StageOk(c, Do(c, s, t), blk, b)
  {
    hide Seg, Rem;
  }

  lemma SameLogsRest(c: Config, s: State, t: Step)
    requires c.Ok() && Sized(c, s) && Allowed(c, s, t) && LeavesLogs(t)
    requires WritesOk(c, s) && Tracked(c, s) && WalkOk(c, s)
    ensures var r := Do(c, s, t); WritesOk(c, r) && Tracked(c, r) && WalkOk(c, r)
  {
    hide Seg, Rem, DirtyAt;
    var r := Do(c, s, t);
    forall b: nat ensures DirtyAt(c, r, b) == DirtyAt(c, s, b) { SameDirt(c, s, r, b); }
  }

  lemma SameDirt(c: Config, s: State, r: State, b: nat)
    requires c.n >= 1 && c.Ok() && s.rebuilding == r.rebuilding && s.logs == r.logs && s.dirty == r.dirty
    ensures DirtyAt(c, r, b) == DirtyAt(c, s, b)
  {
  }

  /** Merging the logs loses no dirty block. */
  lemma StartKeeps(c: Config, s: State, t: Step)
    requires c.Ok() && Inv(c, s) && !s.failed && Allowed(c, s, t) && t.StartRebuild?
    ensures Inv(c, Do(c, s, t))
  {
    hide Seg, Rem, MergeAll;
    var r := Do(c, s, t);
    forall b: nat | b < c.numBlocks ensures DirtyAt(c, r, b) == DirtyAt(c, s, b) {
      MergeAllIff(s.logs, c.segs, Seg(c.n, b));
      if DirtyAt(c, r, b) {
        var i :| 0 <= i < |s.logs| && s.logs[i][Seg(c.n, b)];
      }
    }
  }

  lemma ScheduleKeeps(c: Config, s: State, t: Step)
    requires c.Ok() && Inv(c, s) && !s.failed && Allowed(c, s, t) && t.Schedule?
    ensures Inv(c, Do(c, s, t))
  {
    hide Seg, DirtyAt;
    var r := Do(c, s, t);
    forall b: nat ensures DirtyAt(c, r, b) == DirtyAt(c, s, b) { SameDirt(c, s, r, b); }
    assert Rem(c.n, r.walk - c.start) == Rem(c.n, s.walk - c.start);
    assert s.walk in r.tasks;
    assert WritesOk(c, r);
    assert Tracked(c, r);
    forall blk, b | blk in r.tasks && c.start <= b < c.end && Seg(c.n, b) == Seg(c.n, blk)
      ensures StageOk(c, r, blk, b)
    {
      if blk != s.walk { assert StageOk(c, s, blk, b); }
    }
    forall b: nat | c.start <= b < c.end && b < r.walk && DirtyAt(c, r, b)
      ensures exists blk :: blk in r.tasks && Seg(c.n, blk) == Seg(c.n, b)
    {
      SegmentOfTask(c, s.walk, b);
      if b < s.walk {
        var blk :| blk in s.tasks && Seg(c.n, blk) == Seg(c.n, b);
        assert blk in r.tasks;
      }
    }
  }

  /** Moving one task to a stage whose knowledge holds keeps the invariant. */
  lemma StageChange(c: Config, s: State, blk: nat, stage: Stage)
    requires c.Ok() && Inv(c, s) && !s.failed && blk in s.tasks
    requires var r := s.(tasks := s.tasks[blk := stage]);
             forall b :: c.start <= b < c.end && Seg(c.n, b) == Seg(c.n, blk) ==> StageOk(c, r, blk, b)
    ensures Inv(c, s.(tasks := s.tasks[blk := stage]))
  {
    hide Seg, Rem, WritesOk, Tracked, WalkOk;
    var r := s.(tasks := s.tasks[blk := stage]);
    assert r.tasks.Keys == s.tasks.Keys;
    assert WritesOk(c, r) && Tracked(c, r) && WalkOk(c, r) by { StageChangeRest(c, s, blk, stage); }
    forall blk', b | blk' in r.tasks && c.start <= b < c.end && Seg(c.n, b) == Seg(c.n, blk')
      ensures StageOk(c, r, blk', b)
    {
      assert StageOk(c, s, blk', b);
    }
  }

  lemma StageChangeRest(c: Config, s: State, blk: nat, stage: Stage)
    requires c.Ok() && Sized(c, s) && blk in s.tasks && WritesOk(c, s) && Tracked(c, s) && WalkOk(c, s)
    ensures var r := s.(tasks := s.tasks[blk := stage]); WritesOk(c, r) && Tracked(c, r) && WalkOk(c, r)
  {
    hide Seg, Rem, DirtyAt;
    var r := s.(tasks := s.tasks[blk := stage]);
    assert r.tasks.Keys == s.tasks.Keys;
    forall b: nat ensures DirtyAt(c, r, b) == DirtyAt(c, s, b) { SameDirt(c, s, r, b); }
  }

  /** The copy itself: check, lock, read, unlock. */
  lemma TaskKeeps(c: Config, s: State, t: Step)
    requires c.Ok() && Inv(c, s) && !s.failed && Allowed(c, s, t)
    requires t.NeedCopy? || t.Lock? || t.Load? || t.Unlock?
    ensures Inv(c, Do(c, s, t))
  {
    hide Seg, Rem, DirtyAt, WritesOk, WalkOk, Tracked;
    SegmentsOfTasks(c, s);
    var r := Do(c, s, t);
    forall b | c.start <= b < c.end && Seg(c.n, b) == Seg(c.n, t.blk) ensures StageOk(c, r, t.blk, b) {
      assert StageOk(c, s, t.blk, b);
    }
    StageChange(c, s, t.blk, r.tasks[t.blk]);
  }

  /** A segment the source never allocated may be taken as copied: nothing was stored there on either side. */
  lemma UnwrittenKeeps(c: Config, s: State, t: Step)
    requires c.Ok() && Inv(c, s) && Thin(c, s) && !s.failed && Allowed(c, s, t) && t.LoadUnwritten?
    ensures Inv(c, Do(c, s, t))
  {
    hide Seg, Rem, DirtyAt, WritesOk, WalkOk, Tracked;
    SegmentsOfTasks(c, s);
    var hole: nat :| t.blk <= hole < t.blk + CopyLen(c, t.blk) && !s.alloc[Seg(c.n, hole)];
    var r := Do(c, s, t);
    forall b | c.start <= b < c.end && Seg(c.n, b) == Seg(c.n, t.blk) ensures StageOk(c, r, t.blk, b) {
      assert StageOk(c, s, t.blk, b);
      assert Seg(c.n, hole) == Seg(c.n, t.blk);
      assert ThinAt(c, s, b);
    }
    StageChange(c, s, t.blk, Copied);
  }

  /** Every step that releases nothing leaves unallocated segments untouched on both sides. */
  lemma ThinKeeps(c: Config, s: State, t: Step)
    requires c.Ok() && Inv(c, s) && Thin(c, s) && Allowed(c, s, t)
    ensures Thin(c, Do(c, s, t))
  {
    hide Seg, Rem, DirtyAt, Tracked, StagesOk, WalkOk, WritesOk, ThinAt;
    var r := Do(c, s, t);
    if !r.failed {
      forall b | c.start <= b < c.end ensures ThinAt(c, r, b) {
        if t.Store? { StoreEffect(c, s, t, b); }
        if b in s.inflight { WriteAtBlock(c, s, b); }
        ThinStep(c, s, t, b);
      }
    }
  }

  lemma ThinStep(c: Config, s: State, t: Step, b: nat)
    requires c.Ok() && Sized(c, s) && Allowed(c, s, t) && InData(c, b) && ThinAt(c, s, b) && !t.Fail? && !c.releases
    requires t.Store? ==> Do(c, s, t).dst[b] in {s.src[b], s.dst[b]}
    requires b in s.inflight && s.inflight[b].dstDone ==> s.dst[b] == s.inflight[b].v
    ensures ThinAt(c, Do(c, s, t), b)
  {
    hide Seg, Rem, MergeAll, Allocated;
  }

  lemma WriteAtBlock(c: Config, s: State, b: nat)
    requires c.Ok() && Inv(c, s) && !s.failed && b in s.inflight
    ensures s.inflight[b].dstDone && b < |s.dst| ==> s.dst[b] == s.inflight[b].v
  {
    hide Seg, Rem, DirtyAt, Tracked, StagesOk, WalkOk;
  }

  /** Storing the buffer makes the children agree on the segment and touches no block with a write. */
  lemma StoreEffect(c: Config, s: State, t: Step, b: nat)
    requires c.Ok() && Inv(c, s) && !s.failed && Allowed(c, s, t) && t.Store? && c.start <= b < c.end
    ensures var r := Do(c, s, t);
            if Seg(c.n, b) == Seg(c.n, t.blk) then r.dst[b] == s.src[b] && b !in s.inflight else r.dst[b] == s.dst[b]
  {
    hide Seg, Rem, DirtyAt, WritesOk, Tracked, WalkOk;
    SegmentOfTask(c, t.blk, b);
    if Seg(c.n, b) == Seg(c.n, t.blk) { assert StageOk(c, s, t.blk, b); }
  }

  lemma StoreKeeps(c: Config, s: State, t: Step)
    requires c.Ok() && Inv(c, s) && !s.failed && Allowed(c, s, t) && t.Store?
    ensures Inv(c, Do(c, s, t))
  {
    hide Seg, Rem, DirtyAt, WritesOk, Tracked, StagesOk, WalkOk;
    var r := Do(c, s, t);
    forall b: nat | c.start <= b < c.end
      ensures if Seg(c.n, b) == Seg(c.n, t.blk) then r.dst[b] == s.src[b] && b !in s.inflight else r.dst[b] == s.dst[b]
    {
      StoreEffect(c, s, t, b);
    }
    StoredStages(c, s, r, t.blk);
    StoredRest(c, s, r, t.blk);
  }

  /** The segment of blk was stored and nothing else changed. */
  ghost predicate Stored(c: Config, s: State, r: State, blk: nat)
    requires c.Ok() && Sized(c, s) && Sized(c, r)
  {
    && r == s.(dst := r.dst, tasks := r.tasks) && blk in s.tasks && r.tasks == s.tasks[blk := Copied]
    && forall b: nat :: c.start <= b < c.end ==>
         if Seg(c.n, b) == Seg(c.n, blk) then r.dst[b] == s.src[b] && b !in s.inflight else r.dst[b] == s.dst[b]
  }

  lemma StoredStages(c: Config, s: State, r: State, blk: nat)
    requires c.Ok() && Sized(c, s) && Sized(c, r) && Stored(c, s, r, blk) && StagesOk(c, s)
    ensures StagesOk(c, r)
  {
    hide Seg, Rem;
    forall blk', b | blk' in r.tasks && c.start <= b < c.end && Seg(c.n, b) == Seg(c.n, blk')
      ensures StageOk(c, r, blk', b)
    {
      assert StageOk(c, s, blk', b);
    }
  }

  lemma StoredRest(c: Config, s: State, r: State, blk: nat)
    requires c.Ok() && Sized(c, s) && Sized(c, r) && Stored(c, s, r, blk)
    requires WritesOk(c, s) && Tracked(c, s) && WalkOk(c, s)
    ensures WritesOk(c, r) && Tracked(c, r) && WalkOk(c, r)
  {
    hide Seg, Rem, DirtyAt;
    assert r.tasks.Keys == s.tasks.Keys;
    forall b: nat ensures DirtyAt(c, r, b) == DirtyAt(c, s, b) { SameDirt(c, s, r, b); }
  }

  /** A task may end at once when its segment is clean. */
  lemma SkipCleanKeeps(c: Config, s: State, t: Step)
    requires c.Ok() && Inv(c, s) && !s.failed && Allowed(c, s, t) && t.SkipClean?
    ensures Inv(c, Do(c, s, t))
  {
    hide Seg, Rem, DirtyAt;
    var r := Do(c, s, t);
    forall b: nat ensures DirtyAt(c, r, b) == DirtyAt(c, s, b) { SameDirt(c, s, r, b); }
    assert TasksOk(c, r) && WritesOk(c, r) && Tracked(c, r);
    forall blk, b | blk in r.tasks && c.start <= b < c.end && Seg(c.n, b) == Seg(c.n, blk)
      ensures StageOk(c, r, blk, b)
    {
      assert StageOk(c, s, blk, b);
    }
    forall b: nat | c.start <= b < c.end && b < r.walk && DirtyAt(c, r, b)
      ensures exists blk :: blk in r.tasks && Seg(c.n, blk) == Seg(c.n, b)
    {
      var blk :| blk in s.tasks && Seg(c.n, blk) == Seg(c.n, b);
      CleanTask(c, s, t, b);
      assert blk in r.tasks;
    }
  }

  lemma CleanTask(c: Config, s: State, t: Step, b: nat)
    requires c.Ok() && Sized(c, s) && TasksOk(c, s) && Allowed(c, s, t) && t.SkipClean? && DirtyAt(c, s, b)
    ensures Seg(c.n, b) != Seg(c.n, t.blk)
  {
    hide Seg, Rem;
  }

  /** A copied segment may be marked clean: its blocks agree, or a write under way reaches both sides. */
  lemma MarkCleanKeeps(c: Config, s: State, t: Step)
    requires c.Ok() && Inv(c, s) && !s.failed && Allowed(c, s, t) && t.MarkClean?
    ensures Inv(c, Do(c, s, t))
  {
    hide Seg, Rem, DirtyAt;
    var r := Do(c, s, t);
    forall b: nat | c.start <= b < c.end
      ensures DirtyAt(c, r, b) <==> DirtyAt(c, s, b) && Seg(c.n, b) != Seg(c.n, t.blk)
    {
      ClearedDirt(c, s, t, b);
    }
    forall b: nat | c.start <= b < c.end && Seg(c.n, b) == Seg(c.n, t.blk) ensures StageOk(c, s, t.blk, b) {
    }
    assert TasksOk(c, r) && WritesOk(c, r) && Tracked(c, r);
    forall blk, b | blk in r.tasks && c.start <= b < c.end && Seg(c.n, b) == Seg(c.n, blk)
      ensures StageOk(c, r, blk, b)
    {
      assert StageOk(c, s, blk, b);
    }
    forall b: nat | c.start <= b < c.end && b < r.walk && DirtyAt(c, r, b)
      ensures exists blk :: blk in r.tasks && Seg(c.n, blk) == Seg(c.n, b)
    {
      var blk :| blk in s.tasks && Seg(c.n, blk) == Seg(c.n, b);
      assert blk in r.tasks;
    }
  }

  lemma ClearedDirt(c: Config, s: State, t: Step, b: nat)
    requires c.Ok() && Inv(c, s) && !s.failed && Allowed(c, s, t) && t.MarkClean? && c.start <= b < c.end
    ensures DirtyAt(c, Do(c, s, t), b) <==> DirtyAt(c, s, b) && Seg(c.n, b) != Seg(c.n, t.blk)
  {
    hide Seg, Rem, WritesOk, Tracked, StagesOk, WalkOk;
  }

  /** Every step of a rebuild of aligned data from a source that releases nothing keeps the invariant. */
  lemma StepKeeps(c: Config, s: State, t: Step)
    requires c.Ok() && Inv(c, s) && Thin(c, s) && Allowed(c, s, t)
    ensures Inv(c, Do(c, s, t)) && Thin(c, Do(c, s, t))
  {
    hide Seg, Rem, WritesOk, Tracked, StagesOk, WalkOk, Thin;
    ThinKeeps(c, s, t);
    if !s.failed {
      match t
      case LogWrite(_, _, _) => LogWriteKeeps(c, s, t);
      case LogUnmap(_, _) => LogUnmapKeeps(c, s, t);
      case HostWrite(_, _, _) => SameLogsKeeps(c, s, t);
      case HostUnmap(_, _) => HostUnmapKeeps(c, s, t);
      case ApplySrc(_) => SameLogsKeeps(c, s, t);
      case ApplyDst(_) => SameLogsKeeps(c, s, t);
      case EndWrite(_) => SameLogsKeeps(c, s, t);
      case EndUnmap(_) => SameLogsKeeps(c, s, t);
      case Allocate(_) => SameLogsKeeps(c, s, t);
      case Release(_) =>
      case Join(_) => SameLogsKeeps(c, s, t);
      case StartRebuild => StartKeeps(c, s, t);
      case Schedule => ScheduleKeeps(c, s, t);
      case SkipClean(_) => SkipCleanKeeps(c, s, t);
      case LoadUnwritten(_) => UnwrittenKeeps(c, s, t);
      case Store(_) => StoreKeeps(c, s, t);
      case MarkClean(_) => MarkCleanKeeps(c, s, t);
      case Fail(_, _) =>
      case _ => TaskKeeps(c, s, t);
    }
  }

  // ------------------------------------------------------------------ whole runs

  /** A run: every step is allowed where it is taken. */
  ghost predicate IsRun(c: Config, s: State, ts: seq<Step>, end: State)
    requires c.Ok()
    decreases |ts|
  {
    if ts == [] then s == end
    else Sized(c, s) && Allowed(c, s, ts[0]) && IsRun(c, Do(c, s, ts[0]), ts[1..], end)
  }

  lemma {:induction false} RunKeeps(c: Config, s: State, ts: seq<Step>, end: State)
    requires c.Ok() && Inv(c, s) && Thin(c, s) && IsRun(c, s, ts, end)
    ensures Inv(c, end)
    decreases |ts|
  {
    hide Thin, Do, Allowed, Seg, Rem, TasksOk, WritesOk, Tracked, StagesOk, WalkOk;
    if ts != [] {
      assert Sized(c, s);
      StepKeeps(c, s, ts[0]);
      RunKeeps(c, Do(c, s, ts[0]), ts[1..], end);
    }
  }

  /** Whatever the host wrote or unmapped, on whichever cores it was logged, in whatever order the cores
      joined, and however the copies and the writes interleaved: when the rebuild of aligned data from a
      source that releases nothing completes, the rebuilt child equals the healthy one on every block
      without a write still under way. */
  lemma RebuildSound(c: Config, s: State, ts: seq<Step>, end: State)
    requires c.Ok() && c.Aligned() && !c.releases && Init(c, s) && IsRun(c, s, ts, end) && Completed(c, end)
    ensures Sized(c, end)
    ensures forall b :: c.start <= b < c.end && b !in end.inflight ==> end.src[b] == end.dst[b]
  {
    hide Seg, Rem, Do, Allowed;
    InitInv(c, s);
    RunKeeps(c, s, ts, end);
  }
}
