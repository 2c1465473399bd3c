/** When a partial rebuild is sound: exactly for data that starts on a segment boundary or lies in one
    segment, copied from a source that keeps what it has allocated. And how the rebuild's segments relate
    to the dirty map's. */
module RebuildLimits {
  import opened Bytes
  import opened Arith
  import opened SegmentMaps
  import opened Rebuild
  import GptLabels
  import GptGenerated

  /** Every completed rebuild leaves the children equal where no write is under way. */
  ghost predicate Sound(c: Config)
    requires c.Ok()
  {
    forall s, ts, end :: Init(c, s) && IsRun(c, s, ts, end) && Completed(c, end) ==> Synced(c, end)
  }

  ghost predicate Synced(c: Config, s: State)
    requires c.Ok()
  {
    Sized(c, s) && forall b :: c.start <= b < c.end && b !in s.inflight ==> s.src[b] == s.dst[b]
  }

  lemma Prepend(c: Config, s: State, t: Step, ts: seq<Step>, end: State)
    requires c.Ok() && Sized(c, s) && Allowed(c, s, t) && IsRun(c, Do(c, s, t), ts, end)
    ensures IsRun(c, s, [t] + ts, end)
  {
    hide Allowed, Do;
    assert ([t] + ts)[1..] == ts;
  }

  /** Nothing runs but the walk, which is past block b. */
  ghost predicate Idle(c: Config, s: State, b: nat)
    requires c.Ok()
  {
    && Sized(c, s) && s.rebuilding && !s.failed && s.tasks == map[] && s.inflight == map[]
    && c.start <= b < s.walk && b < c.end
  }

  ghost predicate SameAt(s: State, r: State, b: nat)
    requires b < |s.src| && b < |s.dst| && b < |r.src| && b < |r.dst|
  {
    r.src[b] == s.src[b] && r.dst[b] == s.dst[b]
  }

  lemma {:induction false} Joined(c: Config, s: State, a: seq<Step>, mid: State, b: seq<Step>, end: State)
    requires c.Ok() && IsRun(c, s, a, mid) && IsRun(c, mid, b, end)
    ensures IsRun(c, s, a + b, end)
    decreases |a|
  {
    hide Allowed, Do;
    if a == [] {
      assert a + b == b;
    } else {
      Joined(c, Do(c, s, a[0]), a[1..], mid, b, end);
      assert (a + b)[1..] == a[1..] + b;
    }
  }

  /** A locked task can run to its end; blocks before it are left alone. */
  lemma CopyLocked(c: Config, s: State, w: nat, b: nat) returns (ts: seq<Step>, s': State)
    requires c.Ok() && Sized(c, s) && s.rebuilding && !s.failed && s.inflight == map[] && s.tasks == map[w := Locked]
    requires c.start <= b < w < c.end && w < s.walk
    ensures IsRun(c, s, ts, s') && Idle(c, s', b) && s'.walk == s.walk && SameAt(s, s', b)
  {
    hide Seg, Rem, MergeAll, IsRun;
    if Allocated(c, s, w) {
      var s1 := Do(c, s, Load(w));
      var s2 := Do(c, s1, Store(w));
      assert s2.tasks == map[w := Copied];
      var rest;
      rest, s' := FinishCopied(c, s2, w, b);
      Prepend(c, s1, Store(w), rest, s');
      ts := [Store(w)] + rest;
      Prepend(c, s, Load(w), ts, s');
      ts := [Load(w)] + ts;
    } else {
      var s1 := Do(c, s, LoadUnwritten(w));
      assert s1.tasks == map[w := Copied];
      var rest;
      rest, s' := FinishCopied(c, s1, w, b);
      Prepend(c, s, LoadUnwritten(w), rest, s');
      ts := [LoadUnwritten(w)] + rest;
    }
  }

  /** A copied task unlocks, marks its segment clean and ends. */
  lemma FinishCopied(c: Config, s: State, w: nat, b: nat) returns (ts: seq<Step>, s': State)
    requires c.Ok() && Sized(c, s) && s.rebuilding && !s.failed && s.inflight == map[] && s.tasks == map[w := Copied]
    requires c.start <= b <= w < c.end && w < s.walk
    ensures IsRun(c, s, ts, s') && Idle(c, s', b) && s'.walk == s.walk && SameAt(s, s', b)
  {
    hide Seg, Rem, MergeAll, IsRun;
    var s1 := Do(c, s, Unlock(w));
    s' := Do(c, s1, MarkClean(w));
    EmptyRun(c, s');
    Prepend(c, s1, MarkClean(w), [], s');
    ts := [MarkClean(w)] + [];
    Prepend(c, s, Unlock(w), ts, s');
    ts := [Unlock(w)] + ts;
  }

  /** A scheduled task whose segment is dirty can run to its end; blocks before it are left alone. */
  lemma CopyDirty(c: Config, s: State, w: nat, b: nat) returns (ts: seq<Step>, s': State)
    requires c.Ok() && Sized(c, s) && s.rebuilding && !s.failed && s.inflight == map[] && s.tasks == map[w := Fresh]
    requires c.start <= b < w < c.end && w < s.walk && s.dirty[Seg(c.n, w)]
    ensures IsRun(c, s, ts, s') && Idle(c, s', b) && s'.walk == s.walk && SameAt(s, s', b)
  {
    hide Seg, Rem, MergeAll, IsRun;
    var s1 := Do(c, s, NeedCopy(w));
    var s2 := Do(c, s1, Lock(w));
    assert s2.tasks == map[w := Locked];
    ts, s' := CopyLocked(c, s2, w, b);
    Prepend(c, s1, Lock(w), ts, s');
    ts := [Lock(w)] + ts;
    Prepend(c, s, NeedCopy(w), ts, s');
    ts := [NeedCopy(w)] + ts;
  }

  /** One more segment: copied if it is dirty, skipped otherwise; block b, behind the walk, is left alone. */
  lemma OneSegment(c: Config, s: State, b: nat) returns (ts: seq<Step>, s': State)
    requires c.Ok() && Idle(c, s, b) && s.walk < c.end
    ensures IsRun(c, s, ts, s') && Idle(c, s', b) && s'.walk == s.walk + c.n && SameAt(s, s', b)
  {
    hide Seg, Rem, MergeAll, IsRun;
    var w := s.walk;
    var s1 := Do(c, s, Schedule);
    if !s1.dirty[Seg(c.n, w)] {
      s' := Do(c, s1, SkipClean(w));
      EmptyRun(c, s');
      Prepend(c, s1, SkipClean(w), [], s');
      ts := [SkipClean(w)] + [];
    } else {
      ts, s' := CopyDirty(c, s1, w, b);
    }
    Prepend(c, s, Schedule, ts, s');
    ts := [Schedule] + ts;
  }

  /** The walk can be finished without touching a block behind it. */
  lemma {:induction false} Finish(c: Config, s: State, b: nat) returns (ts: seq<Step>, end: State)
    requires c.Ok() && Idle(c, s, b)
    ensures IsRun(c, s, ts, end) && Completed(c, end) && Idle(c, end, b) && SameAt(s, end, b)
    decreases c.end - s.walk
  {
    hide IsRun, Do, Allowed, Seg, Rem;
    if s.walk >= c.end {
      ts, end := [], s;
      EmptyRun(c, s);
    } else {
      var first, s' := OneSegment(c, s, b);
      var more;
      more, end := Finish(c, s', b);
      Joined(c, s, first, s', more, end);
      ts := first + more;
    }
  }

  lemma EmptyRun(c: Config, s: State)
    requires c.Ok()
    ensures IsRun(c, s, [], s)
  {
  }

  lemma {:induction false} RemSplit(n: nat, a: nat)
    requires n >= 1
    ensures Rem(n, a) <= a && Rem(n, a - Rem(n, a)) == 0
    decreases a
  {
    if a >= n { RemSplit(n, a - n); }
  }

  /** Data that starts inside a segment and reaches into the next: the first block of the next segment
      is copied together with the start, but belongs to another segment. */
  lemma Straddled(c: Config) returns (b: nat)
    requires c.Ok() && !c.Aligned()
    ensures c.start < b < c.end && b < c.start + c.n && Seg(c.n, b) != Seg(c.n, c.start)
  {
    var r := Rem(c.n, c.start);
    RemSplit(c.n, c.start);
    b := c.start - r + c.n;
    SegmentFrom(c.n, c.start - r, b);
    SegmentFrom(c.n, c.start - r, c.start);
    SegmentFrom(c.n, c.start - r, c.end - 1);
  }

  /** A child in sync on one core, every block holding v and every segment allocated. */
  function Uniform(c: Config, v: Val): State
    requires c.n >= 1
  {
    var blank, clean := seq(c.numBlocks, _ => v), seq(c.segs, _ => false);
    State(false, blank, blank, seq(c.segs, _ => true), {}, [clean], clean, map[], c.start, map[], false)
  }

  lemma UniformInit(c: Config, v: Val)
    requires c.Ok()
    ensures Init(c, Uniform(c, v))
  {
    hide Rem;
  }

  /** The only core joins and the rebuild starts; its dirty map is the core's log. */
  lemma Starts(c: Config, s: State) returns (s': State)
    requires c.Ok() && Sized(c, s) && !s.rebuilding && |s.logs| == 1
    ensures s' == s.(rebuilding := true, joined := s.joined + {0}, dirty := s.logs[0])
    ensures IsRun(c, s, [Join(0), StartRebuild], s')
  {
    hide Seg, Rem;
    var s1 := Do(c, s, Join(0));
    s' := Do(c, s1, StartRebuild);
    assert [Join(0), StartRebuild][1..] == [StartRebuild] && [StartRebuild][1..] == [];
  }

  /** A write to the straddled block, missed by the child and logged, and the walk's first task skipping
      it because the segment it looks at is clean. */
  lemma MissedWrite(c: Config, b: nat) returns (s: State, ts: seq<Step>, end: State)
    requires c.Ok() && c.start < b < c.end && b < c.start + c.n && Seg(c.n, b) != Seg(c.n, c.start)
    ensures Init(c, s) && IsRun(c, s, ts, end) && Completed(c, end) && !Synced(c, end)
  {
    hide Rem, MergeAll, IsRun;
    s := Uniform(c, 0);
    UniformInit(c, 0);
    var s1 := Do(c, s, LogWrite(0, b, 1));
    var s2 := Do(c, s1, ApplySrc(b));
    var s3 := Do(c, s2, EndWrite(b));
    var s4 := Starts(c, s3);
    var s5 := Do(c, s4, Schedule);
    var s6 := Do(c, s5, SkipClean(c.start));
    assert s6.src[b] == 1 && s6.dst[b] == 0;
    ts, end := Finish(c, s6, b);
    Prepend(c, s5, SkipClean(c.start), ts, end);
    ts := [SkipClean(c.start)] + ts;
    Prepend(c, s4, Schedule, ts, end);
    ts := [Schedule] + ts;
    Joined(c, s3, [Join(0), StartRebuild], s4, ts, end);
    ts := [Join(0), StartRebuild] + ts;
    Prepend(c, s2, EndWrite(b), ts, end);
    ts := [EndWrite(b)] + ts;
    Prepend(c, s1, ApplySrc(b), ts, end);
    ts := [ApplySrc(b)] + ts;
    Prepend(c, s, LogWrite(0, b, 1), ts, end);
    ts := [LogWrite(0, b, 1)] + ts;
  }

  /** The first segment is unmapped while the child is away, and released by the source. */
  lemma Unmapped(c: Config) returns (s: State, ts: seq<Step>, s': State)
    requires c.Ok() && c.start < c.end && c.releases
    ensures var k := Seg(c.n, c.start);
            && Init(c, s) && IsRun(c, s, ts, s') && Sized(c, s') && !s'.rebuilding && !s'.failed && |s'.logs| == 1
            && s'.inflight == map[] && s'.tasks == map[] && s'.walk == c.start
            && s'.src[c.start] == 0 && s'.dst[c.start] == 5 && s'.logs[0][k] && !s'.alloc[k]
  {
    hide Rem, IsRun, Seg;
    var k := Seg(c.n, c.start);
    s := Uniform(c, 5);
    UniformInit(c, 5);
    assert c.start in Blocks(c, k);
    var s1 := Do(c, s, LogUnmap(0, k));
    var s2 := Do(c, s1, Release(k));
    s' := Do(c, s2, EndUnmap(k));
    assert s'.inflight == map[];
    EmptyRun(c, s');
    Prepend(c, s2, EndUnmap(k), [], s');
    ts := [EndUnmap(k)] + [];
    Prepend(c, s1, Release(k), ts, s');
    ts := [Release(k)] + ts;
    Prepend(c, s, LogUnmap(0, k), ts, s');
    ts := [LogUnmap(0, k)] + ts;
  }

  /** The rebuild then finds the segment unwritten, skips the copy and marks it clean: it completes although
      the child still holds what was unmapped. */
  lemma ReleasedUnmap(c: Config) returns (s: State, ts: seq<Step>, end: State)
    requires c.Ok() && c.start < c.end && c.releases
    ensures Init(c, s) && IsRun(c, s, ts, end) && Completed(c, end) && !Synced(c, end)
  {
    hide Rem, IsRun, Seg;
    var w := c.start;
    var first, s1;
    s, first, s1 := Unmapped(c);
    var s2 := Starts(c, s1);
    var s3 := Do(c, s2, Schedule);
    var s4 := Do(c, s3, NeedCopy(w));
    var s5 := Do(c, s4, Lock(w));
    assert !Allocated(c, s5, w);
    var s6 := Do(c, s5, LoadUnwritten(w));
    assert s6.tasks == map[w := Copied];
    var mid, s7 := FinishCopied(c, s6, w, w);
    ts, end := Finish(c, s7, w);
    Joined(c, s6, mid, s7, ts, end);
    ts := mid + ts;
    Prepend(c, s5, LoadUnwritten(w), ts, end);
    ts := [LoadUnwritten(w)] + ts;
    Prepend(c, s4, Lock(w), ts, end);
    ts := [Lock(w)] + ts;
    Prepend(c, s3, NeedCopy(w), ts, end);
    ts := [NeedCopy(w)] + ts;
    Prepend(c, s2, Schedule, ts, end);
    ts := [Schedule] + ts;
    Joined(c, s1, [Join(0), StartRebuild], s2, ts, end);
    ts := [Join(0), StartRebuild] + ts;
    Joined(c, s, first, s1, ts, end);
    ts := first + ts;
  }

  /** A partial rebuild can be relied on exactly when there is no data, or the data starts on a segment
      boundary or fits in one segment and the source does not release what is unmapped. */
  lemma RebuildSoundIff(c: Config)
    requires c.Ok()
    ensures Sound(c) <==> c.start == c.end || (c.Aligned() && !c.releases)
  {
    hide Init, IsRun, Completed;
    if c.start == c.end {
      forall s, ts, end | Init(c, s) && IsRun(c, s, ts, end) && Completed(c, end) ensures Synced(c, end) {
        InitSized(c, s);
        RunSized(c, s, ts, end);
      }
    } else if c.releases {
      var s, ts, end := ReleasedUnmap(c);
    } else if c.Aligned() {
      forall s, ts, end | Init(c, s) && IsRun(c, s, ts, end) && Completed(c, end) ensures Synced(c, end) {
        RebuildSound(c, s, ts, end);
      }
    } else {
      var b := Straddled(c);
      var s, ts, end := MissedWrite(c, b);
    }
  }

  lemma InitSized(c: Config, s: State)
    requires c.Ok() && Init(c, s)
    ensures Sized(c, s)
  {
  }

  lemma {:induction false} RunSized(c: Config, s: State, ts: seq<Step>, end: State)
    requires c.Ok() && Sized(c, s) && IsRun(c, s, ts, end)
    ensures Sized(c, end)
    decreases |ts|
  {
    hide Do, Allowed, Seg, Rem;
    if ts != [] { RunSized(c, Do(c, s, ts[0]), ts[1..], end); }
  }

  // ------------------------------------------------- segments of the dirty map

  lemma {:induction false} SegQuotient(n: nat, b: nat)
    requires n >= 1
    ensures Seg(n, b) * n + Rem(n, b) == b
    decreases b
  {
    if b >= n {
      SegQuotient(n, b - n);
      assert (1 + Seg(n, b - n)) * n == n + Seg(n, b - n) * n;
    }
  }

  /** The rebuild's segments are the map's, and its single-block updates are the map's own. */
  lemma MapAgrees(g: Geometry, m: seq<bool>, b: nat, value: bool)
    requires WholeBlocks(g) && |m| == g.NumSegments() && b < g.numBlocks
    ensures var k := Seg(BlocksPerSegment(g), b);
            && k == g.Seg(b) && k < |m|
            && Assign(g, m, b, 1, value) == m[k := value]
            && Read(g, m, b) == Some(m[k])
  {
    var n := BlocksPerSegment(g);
    SegQuotient(n, b);
    var k := Seg(n, b);
    assert (k + 1) * n == k * n + n;
    DivUnique(b, n, k);
    SegIsQuotient(g, b);
    SegInRange(g, b);
  }

  /** What the rebuild's steps do to the log is what the map does when the I/O is logged: a missed write of block b
      marks the range of that block, and a missed unmap of segment k any range of blocks of that segment. */
  lemma LogStepsAgree(g: Geometry, c: Config, s: State, t: Step, lbn: nat, cnt: nat)
    requires WholeBlocks(g) && c.n == BlocksPerSegment(g) && c.segs == g.NumSegments() && c.numBlocks == g.numBlocks
    requires c.Ok() && Sized(c, s) && Allowed(c, s, t) && cnt >= 1 && lbn + cnt <= g.numBlocks
    requires (t.LogWrite? && lbn == t.b && cnt == 1)
             || (t.LogUnmap? && Seg(c.n, lbn) == t.k && Seg(c.n, lbn + cnt - 1) == t.k)
    ensures var r := Do(c, s, t);
            && r.logs == s.logs[t.core := Assign(g, s.logs[t.core], lbn, cnt, true)]
            && r.dirty == s.dirty && r.src == s.src && r.dst == s.dst
  {
    var m := s.logs[t.core];
    MapAgrees(g, m, lbn, true);
    MapAgrees(g, m, lbn + cnt - 1, true);
    var k := Seg(c.n, lbn);
    assert Assign(g, m, lbn, cnt, true) == m[k := true];
  }

  /** A rebuild over any child with whole-block segments is a configuration of the model. */
  lemma ChildConfig(g: Geometry, start: nat, end: nat, releases: bool)
    requires WholeBlocks(g) && start <= end <= g.numBlocks
    ensures Config(BlocksPerSegment(g), g.NumSegments(), g.numBlocks, start, end, releases).Ok()
  {
    forall b: nat | b < g.numBlocks ensures Seg(BlocksPerSegment(g), b) < g.NumSegments() {
      MapAgrees(g, seq(g.NumSegments(), _ => false), b, false);
    }
  }

  /** Bytes of a rebuild segment. */
  const SEGMENT_SIZE := 0x1_0000

  lemma GetBlocksExact(k: nat, bs: nat)
    requires bs > 0
    ensures GptLabels.GetBlocks(k * bs, bs) == k
  {
    MulMod(k, bs);
  }

  lemma {:induction false} RemMultiple(n: nat, k: nat)
    requires n >= 1
    ensures k * n >= 0 && Rem(n, k * n) == 0
    decreases k
  {
    if k > 0 {
      RemMultiple(n, k - 1);
      assert k * n == (k - 1) * n + n;
      MulLe(0, k - 1, n);
    }
  }

  lemma LabelDataIsAligned(bs: nat)
    requires bs > 0 && SEGMENT_SIZE % bs == 0
    ensures SEGMENT_SIZE / bs >= 1 && Rem(SEGMENT_SIZE / bs, GptGenerated.DataStart(bs)) == 0
  {
    QuotientPositive(SEGMENT_SIZE, bs);
    var n := SEGMENT_SIZE / bs;
    assert (16 * n) * bs == GptLabels.DATA_OFFSET && (64 * n) * bs == GptLabels.METADATA_PARTITION_SIZE;
    GetBlocksExact(16 * n, bs);
    GetBlocksExact(64 * n, bs);
    RemMultiple(n, 80);
  }

  /** The MayaData partition of a label starts on a segment boundary whenever a segment is a whole number
      of blocks, so its rebuilds can be relied on exactly when the source does not release. */
  lemma LabelRebuildSoundIff(bs: nat, end: nat, segs: nat, numBlocks: nat, releases: bool)
    requires bs > 0 && SEGMENT_SIZE % bs == 0
    requires Config(SEGMENT_SIZE / bs, segs, numBlocks, GptGenerated.DataStart(bs), end, releases).Ok()
    ensures var c := Config(SEGMENT_SIZE / bs, segs, numBlocks, GptGenerated.DataStart(bs), end, releases);
            Sound(c) <==> c.start == c.end || !releases
  {
    hide Sound, Rem, Seg, GptGenerated.DataStart;
    LabelDataIsAligned(bs);
    RebuildSoundIff(Config(SEGMENT_SIZE / bs, segs, numBlocks, GptGenerated.DataStart(bs), end, releases));
  }
}
