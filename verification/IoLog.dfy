/** Per-core logs of the writes a child misses, and their merge into a rebuild map. */
module IoLog {
  import opened Bytes
  import SM = SegmentMaps
  import Rebuild

  datatype IoType = ReadIo | WriteIo | WriteZeros | UnmapIo | OtherIo

  /** log_io: a write, a write of zeroes and an unmap mark the segments of their blocks dirty; anything else leaves the
      map alone. */
  method LogIo(segments: SM.SegmentMap, t: IoType, lbn: nat, cnt: nat)
    requires segments.Valid()
    requires t != ReadIo && t != OtherIo ==>
               && segments.geo.numBlocks != 0 && lbn + cnt >= 1
               && segments.geo.Seg(lbn + cnt - 1) < segments.geo.NumSegments()
    modifies segments.segments
    ensures t == WriteIo || t == WriteZeros || t == UnmapIo ==>
              && segments.segments[..] == SM.Assign(segments.geo, old(segments.segments[..]), lbn, cnt, true)
              && forall b: nat :: lbn <= b < lbn + cnt ==>
                   SM.Read(segments.geo, segments.segments[..], b) == Some(true)
    ensures (t == WriteIo || t == WriteZeros || t == UnmapIo) && cnt >= 1 ==>
              forall b: nat :: !SM.Shares(segments.geo, lbn, cnt, b) ==>
                SM.Read(segments.geo, segments.segments[..], b)
                == SM.Read(segments.geo, old(segments.segments[..]), b)
    ensures t == ReadIo || t == OtherIo ==> segments.segments[..] == old(segments.segments[..])
  {
    if t.WriteIo? || t.WriteZeros? || t.UnmapIo? {
      segments.Set(lbn, cnt, true);
      Marked(segments.geo, old(segments.segments[..]), lbn, cnt);
    }
  }

  lemma Marked(g: SM.Geometry, m: seq<bool>, lbn: nat, cnt: nat)
    requires g.Ok() && lbn + cnt >= 1 && g.Seg(lbn + cnt - 1) < |m|
    ensures var r := SM.Assign(g, m, lbn, cnt, true);
            && (forall b: nat :: lbn <= b < lbn + cnt ==> SM.Read(g, r, b) == Some(true))
            && (cnt >= 1 ==> forall b: nat :: !SM.Shares(g, lbn, cnt, b) ==> SM.Read(g, r, b) == SM.Read(g, m, b))
  {
    var r := SM.Assign(g, m, lbn, cnt, true);
    if cnt >= 1 {
      forall b: nat ensures g.Seg(lbn) <= g.Seg(b) <= g.Seg(lbn + cnt - 1) <==> SM.Shares(g, lbn, cnt, b) {
        SM.CoverIff(g, lbn, cnt, b);
      }
    }
  }

  ghost function Maps(channels: seq<SM.SegmentMap>): (ms: seq<seq<bool>>)
    reads set i | 0 <= i < |channels| :: channels[i].segments
    ensures |ms| == |channels| && forall i :: 0 <= i < |channels| ==> ms[i] == channels[i].segments[..]
  {
    if channels == [] then []
    else Maps(channels[..|channels| - 1]) + [channels[|channels| - 1].segments[..]]
  }

  /** finalize: the maps of all cores, merged into the first. */
  method Finalize(channels: seq<SM.SegmentMap>) returns (m: SM.SegmentMap)
    requires channels != []
    requires forall i :: 0 <= i < |channels| ==> channels[i].Valid() && channels[i].geo == channels[0].geo
    requires forall i, j :: 0 <= i < j < |channels| ==> channels[i].segments != channels[j].segments
    modifies channels[0].segments
    ensures m == channels[0] && m.Valid()
    ensures forall i :: 0 <= i < |channels| ==> |old(Maps(channels))[i]| == m.geo.NumSegments()
    ensures m.segments[..] == Rebuild.MergeAll(old(Maps(channels)), m.geo.NumSegments())
  {
    m := channels[0];
    ghost var was, n := Maps(channels), channels[0].geo.NumSegments();
    assert was[..1] == [was[0]];
    for i := 1 to |channels|
      invariant m.segments[..] == Rebuild.MergeAll(was[..i], n)
      invariant forall k :: i <= k < |channels| ==> channels[k].segments[..] == was[k]
    {
      m.Merge(channels[i]);
      assert was[..i + 1][..i] == was[..i];
    }
    assert was[..|channels|] == was;
  }
}
