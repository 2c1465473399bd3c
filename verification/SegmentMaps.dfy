/** The rebuild dirty map: one bit per segment of a device, addressed by block. */
module SegmentMaps {
  import opened Bytes
  import opened Arith

  datatype Geometry = Geometry(numBlocks: nat, blockLen: nat, segmentSize: nat) {
    predicate Ok() { blockLen > 0 && segmentSize > 0 }

    /** Segment of a block. */
    function Seg(lbn: nat): nat
      requires Ok()
    {
      (lbn * blockLen) / segmentSize
    }

    function NumSegments(): nat
      requires Ok()
    {
      var bytes := numBlocks * blockLen;
      if bytes % segmentSize == 0 then bytes / segmentSize else bytes / segmentSize + 1
    }
  }

  lemma SegMonotone(g: Geometry, a: nat, b: nat)
    requires g.Ok() && a <= b
    ensures g.Seg(a) <= g.Seg(b)
  {
    MulLe(a, b, g.blockLen);
    var x, y := a * g.blockLen, b * g.blockLen;
    DivMod(x, g.segmentSize); DivMod(y, g.segmentSize);
    if x / g.segmentSize > y / g.segmentSize { MulLe(y / g.segmentSize + 1, x / g.segmentSize, g.segmentSize); }
  }

  /** Every block of the device has its segment in the map. */
  lemma SegInRange(g: Geometry, lbn: nat)
    requires g.Ok() && lbn < g.numBlocks
    ensures g.Seg(lbn) < g.NumSegments()
  {
    var x, y := lbn * g.blockLen, g.numBlocks * g.blockLen;
    assert x < y by { MulLe(lbn + 1, g.numBlocks, g.blockLen); }
    CeilDiv(y, g.segmentSize, g.NumSegments());
    DivBelow(x, y, g.segmentSize, g.NumSegments());
  }

  class SegmentMap {
    const geo: Geometry
    const segments: array<bool>

    ghost predicate Valid()
    {
      geo.Ok() && segments.Length == geo.NumSegments()
    }

    constructor (numBlocks: nat, blockLen: nat, segmentSize: nat)
      requires blockLen > 0 && segmentSize > 0
      ensures Valid() && geo == Geometry(numBlocks, blockLen, segmentSize) && fresh(segments)
      ensures forall i :: 0 <= i < segments.Length ==> !segments[i]
    {
      geo := Geometry(numBlocks, blockLen, segmentSize);
      segments := new bool[Geometry(numBlocks, blockLen, segmentSize).NumSegments()](_ => false);
    }

    /** Bitwise or with a map of the same size. */
    method Merge(other: SegmentMap)
      requires Valid() && other.Valid() && segments.Length == other.segments.Length
      modifies segments
      ensures segments[..] == Or(old(segments[..]), old(other.segments[..]))
    {
      ghost var a, b := segments[..], other.segments[..];
      for i := 0 to segments.Length
        invariant forall k :: 0 <= k < segments.Length ==> segments[k] == if k < i then a[k] || b[k] else a[k]
        invariant segments != other.segments ==> other.segments[..] == b
      {
        segments[i] := segments[i] || other.segments[i];
      }
    }

    /** Sets the bit of every segment from that of the first block to that of the last. */
    method Set(lbn: nat, lbnCnt: nat, value: bool)
      requires Valid() && geo.numBlocks != 0 && lbn + lbnCnt >= 1 && geo.Seg(lbn + lbnCnt - 1) < geo.NumSegments()
      modifies segments
      ensures segments[..] == Assign(geo, old(segments[..]), lbn, lbnCnt, value)
    {
      var startSeg := geo.Seg(lbn);
      var endSeg := geo.Seg(lbn + lbnCnt - 1);
      ghost var was := segments[..];
      var i := startSeg;
      while i <= endSeg
        invariant startSeg <= i && (i <= endSeg + 1 || i == startSeg)
        invariant forall k :: 0 <= k < segments.Length ==>
                    segments[k] == if startSeg <= k < i && k <= endSeg then value else was[k]
      {
        segments[i] := value;
        i := i + 1;
      }
    }

    /** The bit of a block's segment, or nothing behind the end of the map. */
    method Get(lbn: nat) returns (r: Option<bool>)
      requires Valid()
      ensures r == Read(geo, segments[..], lbn)
    {
      var seg := geo.Seg(lbn);
      return if seg < segments.Length then Some(segments[seg]) else None;
    }

    method CountOnes() returns (n: nat)
      ensures n == Ones(segments[..])
    {
      n := 0;
      for i := 0 to segments.Length
        invariant n == Ones(segments[..i])
      {
        assert segments[..i + 1][..i] == segments[..i];
        if segments[i] { n := n + 1; }
      }
      assert segments[..segments.Length] == segments[..];
    }

    method CountDirtyBlks() returns (n: nat)
      requires Valid()
      ensures n == DirtyBlks(geo, segments[..])
    {
      var ones := CountOnes();
      n := ones * geo.segmentSize / geo.blockLen;
    }
  }

  // ---------------------------------------------------------- the map as values

  function Or(a: seq<bool>, b: seq<bool>): (r: seq<bool>)
    requires |a| == |b|
    ensures |r| == |a|
  {
    seq(|a|, i requires 0 <= i < |a| => a[i] || b[i])
  }

  function Assign(g: Geometry, m: seq<bool>, lbn: nat, cnt: nat, value: bool): (r: seq<bool>)
    requires g.Ok() && lbn + cnt >= 1
    ensures |r| == |m|
  {
    seq(|m|, i requires 0 <= i < |m| => if g.Seg(lbn) <= i <= g.Seg(lbn + cnt - 1) then value else m[i])
  }

  function Read(g: Geometry, m: seq<bool>, lbn: nat): Option<bool>
    requires g.Ok()
  {
    if g.Seg(lbn) < |m| then Some(m[g.Seg(lbn)]) else None
  }

  function Ones(m: seq<bool>): (n: nat)
    ensures n <= |m|
  {
    if m == [] then 0 else Ones(m[..|m| - 1]) + if m[|m| - 1] then 1 else 0
  }

  function DirtyBlks(g: Geometry, m: seq<bool>): nat
    requires g.Ok()
  {
    Ones(m) * g.segmentSize / g.blockLen
  }

  // ------------------------------------------------------------- runs of a map

  /** A change to a map: a range set dirty or clean, or the bits of another map merged in. */
  datatype Change = SetRange(lbn: nat, cnt: nat, value: bool) | MergeIn(other: seq<bool>)

  predicate Legal(g: Geometry, c: Change)
    requires g.Ok()
  {
    match c
    case SetRange(lbn, cnt, _) => cnt >= 1 && g.Seg(lbn + cnt - 1) < g.NumSegments()
    case MergeIn(other) => |other| == g.NumSegments()
  }

  predicate AllLegal(g: Geometry, cs: seq<Change>)
    requires g.Ok()
  {
    forall i :: 0 <= i < |cs| ==> Legal(g, cs[i])
  }

  function Run(g: Geometry, m: seq<bool>, cs: seq<Change>): (r: seq<bool>)
    requires g.Ok() && |m| == g.NumSegments() && AllLegal(g, cs)
    ensures |r| == |m|
  {
    if cs == [] then m
    else
      var n := |cs| - 1;
      var before := Run(g, m, cs[..n]);
      assert Legal(g, cs[n]);
      match cs[n]
      case SetRange(lbn, cnt, value) => Assign(g, before, lbn, cnt, value)
      case MergeIn(other) => Or(before, other)
  }

  /** The range has a block in the same segment as b. */
  ghost predicate Shares(g: Geometry, lbn: nat, cnt: nat, b: nat)
    requires g.Ok()
  {
    exists x: nat :: lbn <= x < lbn + cnt && g.Seg(x) == g.Seg(b)
  }

  /** The segments a range covers are, for every block, exactly the segments of its blocks. */
  lemma CoverIff(g: Geometry, lbn: nat, cnt: nat, b: nat)
    requires g.Ok() && cnt >= 1
    ensures g.Seg(lbn) <= g.Seg(b) <= g.Seg(lbn + cnt - 1) <==> Shares(g, lbn, cnt, b)
  {
    var last := lbn + cnt - 1;
    if g.Seg(lbn) <= g.Seg(b) <= g.Seg(last) {
      if b < lbn {
        SegMonotone(g, b, lbn);
        assert g.Seg(lbn) == g.Seg(b);
      } else if b > last {
        SegMonotone(g, last, b);
        assert g.Seg(last) == g.Seg(b);
      }
    }
    forall x: nat | lbn <= x < lbn + cnt ensures g.Seg(lbn) <= g.Seg(x) <= g.Seg(last) {
      SegMonotone(g, lbn, x);
      SegMonotone(g, x, last);
    }
  }

  /** Step i of a run marks b dirty: it sets a range sharing b's segment, or merges in a map where b is dirty. */
  ghost predicate Marks(g: Geometry, c: Change, b: nat)
    requires g.Ok() && Legal(g, c) && b < g.numBlocks
  {
    SegInRange(g, b);
    match c
    case SetRange(lbn, cnt, value) => value && Shares(g, lbn, cnt, b)
    case MergeIn(other) => other[g.Seg(b)]
  }

  ghost predicate Clears(g: Geometry, c: Change, b: nat)
    requires g.Ok()
  {
    c.SetRange? && !c.value && Shares(g, c.lbn, c.cnt, b)
  }

  /** What a block reads after any run of changes: dirty exactly when it was marked by some step, or
      dirty to begin with, and no later clearing range shared its segment. */
  lemma {:induction false} RunReads(g: Geometry, m: seq<bool>, cs: seq<Change>, b: nat)
    requires g.Ok() && |m| == g.NumSegments() && AllLegal(g, cs) && b < g.numBlocks
    ensures Read(g, Run(g, m, cs), b).Some?
    ensures Read(g, Run(g, m, cs), b).value
            <==> || (exists i :: 0 <= i < |cs| && Marks(g, cs[i], b)
                                 && forall j :: i < j < |cs| ==> !Clears(g, cs[j], b))
                 || (Read(g, m, b) == Some(true) && forall j :: 0 <= j < |cs| ==> !Clears(g, cs[j], b))
  {
    SegInRange(g, b);
    if cs != [] {
      var n := |cs| - 1;
      var before := cs[..n];
      RunReads(g, m, before, b);
      assert Legal(g, cs[n]);
      if cs[n].SetRange? { CoverIff(g, cs[n].lbn, cs[n].cnt, b); }
      assert forall j :: 0 <= j < n ==> before[j] == cs[j];
      if Marks(g, cs[n], b) {
        assert Read(g, Run(g, m, cs), b).value;
      } else if Clears(g, cs[n], b) {
        assert !Read(g, Run(g, m, cs), b).value;
      } else {
        assert Read(g, Run(g, m, cs), b).value == Read(g, Run(g, m, before), b).value;
      }
    }
  }

  // ------------------------------------------------------------------ counting

  /** Segments are a whole number of blocks. */
  predicate WholeBlocks(g: Geometry) { g.Ok() && g.segmentSize % g.blockLen == 0 && g.segmentSize >= g.blockLen }

  function BlocksPerSegment(g: Geometry): (n: nat)
    requires WholeBlocks(g)
    ensures n >= 1 && g.segmentSize == n * g.blockLen
  {
    QuotientPositive(g.segmentSize, g.blockLen);
    g.segmentSize / g.blockLen
  }

  lemma QuotientPositive(a: nat, b: nat)
    requires b > 0 && a >= b && a % b == 0
    ensures a / b >= 1 && a == (a / b) * b
  {
    DivMod(a, b);
    if a / b <= 0 { MulLe(a / b, 0, b); }
  }

  lemma SegIsQuotient(g: Geometry, lbn: nat)
    requires WholeBlocks(g)
    ensures g.Seg(lbn) == lbn / BlocksPerSegment(g)
  {
    var n, bl := BlocksPerSegment(g), g.blockLen;
    DivMod(lbn, n);
    var q, r := lbn / n, lbn % n;
    assert lbn * bl == q * (n * bl) + r * bl by { assert (q * n + r) * bl == q * n * bl + r * bl; }
    MulLe(0, r, bl);
    MulLe(r + 1, n, bl);
    assert (q + 1) * (n * bl) == q * (n * bl) + n * bl;
    DivUnique(lbn * bl, n * bl, q);
  }

  /** How many of the first n blocks read dirty. */
  function Dirty(g: Geometry, m: seq<bool>, n: nat): nat
    requires g.Ok()
  {
    if n == 0 then 0 else Dirty(g, m, n - 1) + if Read(g, m, n - 1) == Some(true) then 1 else 0
  }

  /** Inside one segment, all blocks up to the i-th count alike. */
  lemma {:induction false} DirtyInSegment(g: Geometry, m: seq<bool>, k: nat, i: nat)
    requires WholeBlocks(g) && k < |m| && i <= BlocksPerSegment(g)
    ensures k * BlocksPerSegment(g) >= 0
    ensures Dirty(g, m, k * BlocksPerSegment(g) + i)
            == Dirty(g, m, k * BlocksPerSegment(g)) + if m[k] then i else 0
  {
    var n := BlocksPerSegment(g);
    MulLe(0, k, n);
    if i > 0 {
      DirtyInSegment(g, m, k, i - 1);
      var b := k * n + i - 1;
      assert (k + 1) * n == k * n + n;
      DivUnique(b, n, k);
      SegIsQuotient(g, b);
    }
  }

  lemma OneMore(a: nat, n: nat)
    ensures (a + 1) * n == a * n + n && a * n >= 0
  {
    MulLe(0, a, n);
  }

  lemma OnesSnoc(m: seq<bool>, k: nat)
    requires 0 < k <= |m|
    ensures Ones(m[..k]) == Ones(m[..k - 1]) + if m[k - 1] then 1 else 0
  {
    assert m[..k][..k - 1] == m[..k - 1];
  }

  lemma {:induction false} DirtySegments(g: Geometry, m: seq<bool>, k: nat)
    requires WholeBlocks(g) && k <= |m|
    ensures k * BlocksPerSegment(g) >= 0
    ensures Dirty(g, m, k * BlocksPerSegment(g)) == Ones(m[..k]) * BlocksPerSegment(g)
  {
    hide Dirty, Ones, BlocksPerSegment;
    var n := BlocksPerSegment(g);
    OneMore(k, n);
    if k == 0 {
      DirtyNone(g, m);
      OnesNone();
      assert m[..0] == [];
    } else {
      OneMore(k - 1, n);
      OneMore(Ones(m[..k - 1]), n);
      DirtySegments(g, m, k - 1);
      DirtyInSegment(g, m, k - 1, n);
      OnesSnoc(m, k);
    }
  }

  lemma OnesNone()
    ensures Ones([]) == 0
  {
  }

  lemma SegmentCount(g: Geometry)
    requires WholeBlocks(g)
    ensures var n, segs := BlocksPerSegment(g), g.NumSegments();
            g.numBlocks <= segs * n && (segs > 0 ==> (segs - 1) * n < g.numBlocks)
  {
    var n, segs, bl := BlocksPerSegment(g), g.NumSegments(), g.blockLen;
    CeilDiv(g.numBlocks * bl, g.segmentSize, segs);
    assert segs * (n * bl) == (segs * n) * bl;
    assert (segs - 1) * (n * bl) == ((segs - 1) * n) * bl;
    if segs * n < g.numBlocks { MulLe(segs * n + 1, g.numBlocks, bl); }
    if segs > 0 { MulLtInv((segs - 1) * n, g.numBlocks, bl); }
  }

  lemma DirtyBlksProduct(g: Geometry, m: seq<bool>)
    requires WholeBlocks(g)
    ensures DirtyBlks(g, m) == Ones(m) * BlocksPerSegment(g)
  {
    Cancels(Ones(m), BlocksPerSegment(g), g.blockLen);
  }

  lemma Cancels(a: nat, n: nat, k: nat)
    requires k > 0
    ensures a * (n * k) / k == a * n
  {
    assert a * (n * k) == (a * n) * k;
    MulLe(0, a, n);
    MulMod(a * n, k);
  }

  lemma DirtyNone(g: Geometry, m: seq<bool>)
    requires g.Ok()
    ensures Dirty(g, m, 0) == 0
  {
  }

  /** The reported number of dirty blocks exceeds the number of blocks that read dirty by exactly the
      part of a dirty last segment that lies behind the device; so the two agree if and only if the
      last segment is clean or ends with the device, and never differ by a whole segment. */
  lemma DirtyCountExact(g: Geometry, m: seq<bool>)
    requires WholeBlocks(g) && |m| == g.NumSegments()
    ensures var n, behind := BlocksPerSegment(g), g.NumSegments() * BlocksPerSegment(g) - g.numBlocks;
            && DirtyBlks(g, m) == Dirty(g, m, g.numBlocks) + (if |m| > 0 && m[|m| - 1] then behind else 0)
            && (|m| > 0 ==> 0 <= behind < n)
            && (DirtyBlks(g, m) == Dirty(g, m, g.numBlocks) <==> |m| == 0 || !m[|m| - 1] || behind == 0)
  {
    hide DirtyBlks, Dirty;
    var n := BlocksPerSegment(g);
    SegmentCount(g);
    DirtyBlksProduct(g, m);
    if |m| == 0 {
      assert Dirty(g, m, 0) == 0 by { DirtyNone(g, m); }
    } else {
      var k := |m| - 1;
      assert (k + 1) * n == k * n + n;
      DirtySegments(g, m, k);
      DirtyInSegment(g, m, k, g.numBlocks - k * n);
      assert (Ones(m[..k]) + 1) * n == Ones(m[..k]) * n + n;
    }
  }
}
