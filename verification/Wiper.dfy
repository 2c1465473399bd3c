/** The wiper itself: the chunk iterator, the single wipe, and the streamed wipe that splits large
    chunks, reports progress and can be aborted or fail at any I/O. */
module Wiper {
  import opened Bytes
  import opened WipePlan
  import opened WipeTheorems
  import Crc

  datatype WipeMethod = NoWipe | WriteZeroes | Unmap | WritePattern(pattern: u32) | CkSum

  predicate Supported(m: WipeMethod) { m.NoWipe? || m.WriteZeroes? || m.CkSum? }

  // -------------------------------------------------------- effect of the I/Os

  predicate Inside(rs: seq<Range>, size: nat) {
    forall i :: 0 <= i < |rs| ==> rs[i].off + rs[i].len <= size
  }

  function ZeroRange(data: seq<u8>, r: Range): (d: seq<u8>)
    requires r.off + r.len <= |data|
    ensures |d| == |data|
    ensures forall x :: 0 <= x < |d| ==> d[x] == if r.off <= x < r.off + r.len then 0 else data[x]
  {
    data[..r.off] + Zeros(r.len) + data[r.off + r.len..]
  }

  /** A device is left with zeroes exactly where it was touched. */
  predicate ZeroedExactly(was: seq<u8>, now: seq<u8>, rs: seq<Range>) {
    |now| == |was| && forall x :: 0 <= x < |was| ==> now[x] == if Touched(rs, x) then 0 else was[x]
  }

  predicate SameOutside(was: seq<u8>, now: seq<u8>, rs: seq<Range>) {
    |now| == |was| && forall x :: 0 <= x < |was| && !Touched(rs, x) ==> now[x] == was[x]
  }

  /** Device and checksum register after the given I/Os all succeeded. */
  predicate After(m: WipeMethod, was: seq<u8>, crcWas: u32, now: seq<u8>, crc: u32, rs: seq<Range>)
    requires Inside(rs, |was|)
  {
    match m
    case WriteZeroes => ZeroedExactly(was, now, rs) && crc == crcWas
    case CkSum => now == was && crc == Crc.Raw(Crc.CASTAGNOLI, crcWas, Gather(was, rs))
    case _ => now == was && crc == crcWas
  }

  lemma AfterNone(m: WipeMethod, data: seq<u8>, crc: u32)
    ensures After(m, data, crc, data, crc, [])
  {
  }

  lemma TouchedOne(r: Range, x: int)
    ensures Touched([r], x) <==> r.off <= x < r.off + r.len
  {
    assert [r][0] == r;
  }

  lemma GatherOne(data: seq<u8>, r: Range)
    requires r.off + r.len <= |data|
    ensures Gather(data, [r]) == data[r.off..r.off + r.len]
  {
    assert [r][..0] == [] && [r][0] == r;
    assert Gather(data, [r]) == Gather(data, []) + data[r.off..r.off + r.len];
  }

  lemma {:induction false} GatherConcat(data: seq<u8>, a: seq<Range>, b: seq<Range>)
    requires Inside(a, |data|) && Inside(b, |data|) && Inside(a + b, |data|)
    ensures Gather(data, a + b) == Gather(data, a) + Gather(data, b)
  {
    if b == [] {
      assert a + b == a;
    } else {
      hide Gather;
      var n := |b| - 1;
      GatherConcat(data, a, b[..n]);
      GatherLast(data, b);
      GatherLast(data, a + b);
      assert (a + b)[..|a| + n] == a + b[..n];
    }
  }

  lemma GatherLast(data: seq<u8>, rs: seq<Range>)
    requires Inside(rs, |data|) && rs != []
    ensures var n := |rs| - 1;
            Gather(data, rs) == Gather(data, rs[..n]) + data[rs[n].off..rs[n].off + rs[n].len]
  {
  }

  /** The effects of two runs of I/Os, one after the other, are the effect of both together. */
  lemma AfterCompose(m: WipeMethod, d0: seq<u8>, c0: u32, d1: seq<u8>, c1: u32, d2: seq<u8>, c2: u32,
                     a: seq<Range>, b: seq<Range>)
    requires |d0| == |d1| && Inside(a, |d0|) && Inside(b, |d0|) && Inside(a + b, |d0|)
    requires After(m, d0, c0, d1, c1, a) && After(m, d1, c1, d2, c2, b)
    ensures After(m, d0, c0, d2, c2, a + b)
  {
    hide Touched;
    match m {
      case WriteZeroes =>
        forall x | 0 <= x < |d0| ensures d2[x] == if Touched(a + b, x) then 0 else d0[x] {
          TouchedConcat(a, b, x);
        }
      case CkSum =>
        GatherConcat(d0, a, b);
        Crc.RawConcat(Crc.CASTAGNOLI, c0, Gather(d0, a), Gather(d0, b));
      case _ =>
    }
  }

  lemma SameOutsideCompose(d0: seq<u8>, d1: seq<u8>, d2: seq<u8>, a: seq<Range>, b: seq<Range>)
    requires SameOutside(d0, d1, a) && SameOutside(d1, d2, b)
    ensures SameOutside(d0, d2, a + b)
  {
    hide Touched;
    forall x | 0 <= x < |d0| && !Touched(a + b, x) ensures d2[x] == d0[x] { TouchedConcat(a, b, x); }
  }

  // ------------------------------------------------------------- the iterator

  class WipeIterator {
    const startOffset: nat
    const totalBytes: nat
    const chunkSizeBytes: nat
    const extraChunkSizeBytes: Option<nat>
    const totalChunks: nat
    var wipedChunks: nat
    var wipedBytes: nat
    var remainingChunks: nat
    var cksum: Option<u32>

    function AsPlan(): Plan {
      Plan(startOffset, totalBytes, chunkSizeBytes, extraChunkSizeBytes, totalChunks)
    }

    /** Wiped and remaining chunks add up, and the wiped bytes are exactly those before the next chunk. */
    ghost predicate Valid(blockLen: nat)
      reads this
    {
      && PlanOk(AsPlan(), blockLen)
      && wipedChunks + remainingChunks == totalChunks
      && startOffset + wipedBytes == Mark(AsPlan(), wipedChunks)
    }

    constructor (p: Plan)
      ensures AsPlan() == p && wipedChunks == 0 && wipedBytes == 0 && remainingChunks == p.chunks && cksum == None
    {
      startOffset, totalBytes, chunkSizeBytes := p.start, p.total, p.chunk;
      extraChunkSizeBytes, totalChunks := p.extra, p.chunks;
      wipedChunks, wipedBytes, remainingChunks := 0, 0, p.chunks;
      cksum := None;
    }

    /** The next range to wipe, if any is left. */
    method Next(ghost blockLen: nat) returns (r: Option<Range>)
      requires Valid(blockLen)
      ensures r.None? <==> remainingChunks == 0
      ensures r.Some? ==> r.value == ChunkAt(AsPlan(), wipedChunks)
      ensures r.None? ==> wipedBytes == totalBytes && wipedChunks == totalChunks
    {
      if wipedChunks >= totalChunks {
        r := None;
      } else {
        var offset := startOffset + wipedChunks * chunkSizeBytes;
        if extraChunkSizeBytes.Some? && remainingChunks == 1 {
          r := Some(Range(offset, extraChunkSizeBytes.value));
        } else {
          r := Some(Range(offset, chunkSizeBytes));
        }
      }
    }

    method CompleteChunk(size: nat, ghost blockLen: nat)
      requires Valid(blockLen) && remainingChunks > 0 && size == ChunkAt(AsPlan(), wipedChunks).len
      modifies this`wipedChunks, this`wipedBytes, this`remainingChunks
      ensures Valid(blockLen)
      ensures wipedChunks == old(wipedChunks) + 1 && wipedBytes == old(wipedBytes) + size
      ensures remainingChunks == old(remainingChunks) - 1
    {
      MarkStep(AsPlan(), blockLen, wipedChunks);
      wipedChunks := wipedChunks + 1;
      wipedBytes := wipedBytes + size;
      remainingChunks := remainingChunks - 1;
    }
  }

  /** WipeIterator::new. */
  method NewIterator(start: nat, bytes: nat, chunkSize: nat, blockLen: nat) returns (r: Result<WipeIterator>)
    requires blockLen > 0
    ensures r.Ok? <==> NewPlan(start, bytes, chunkSize, blockLen).Ok?
    ensures r.Err? ==> r.error == NewPlan(start, bytes, chunkSize, blockLen).error
    ensures r.Ok? ==> fresh(r.value) && r.value.Valid(blockLen) && r.value.wipedChunks == 0
                      && r.value.AsPlan() == NewPlan(start, bytes, chunkSize, blockLen).value
  {
    var p := NewPlan(start, bytes, chunkSize, blockLen);
    if p.Err? { return Err(p.error); }
    NewPlanShape(start, bytes, chunkSize, blockLen);
    var it := new WipeIterator(p.value);
    return Ok(it);
  }

  // ------------------------------------------------------------ streamed wipe

  class StreamedWiper {
    const wipeMethod: WipeMethod
    const blockLen: nat
    const stats: WipeIterator
    /** Content of the device, and the running checksum. */
    var data: seq<u8>
    var crc: u32
    /** Ranges handed to the single wipe so far. */
    ghost var issued: seq<Range>

    ghost predicate Valid()
      reads this, stats
    {
      && blockLen > 0 && stats.Valid(blockLen)
      && StartsInside() && Inside(issued, |data|)
    }

    ghost predicate StartsInside()
      reads this
    {
      stats.startOffset + stats.totalBytes <= |data|
    }

    constructor (m: WipeMethod, blockLen: nat, stats: WipeIterator, data: seq<u8>)
      ensures this.wipeMethod == m && this.blockLen == blockLen && this.stats == stats
      ensures this.data == data && crc == CRC_INITIAL && issued == []
    {
      wipeMethod, this.blockLen, this.stats, this.data := m, blockLen, stats, data;
      crc, issued := CRC_INITIAL, [];
    }

    /** Wiper::wipe on one range; the device may fail any I/O, leaving the range itself in any state. */
    method WipeOne(r: Range) returns (res: Result<()>)
      requires r.off + r.len <= |data|
      modifies this`data, this`crc, this`issued
      ensures issued == old(issued) + [r] && |data| == |old(data)| && SameOutside(old(data), data, [r])
      ensures res.Ok? ==> After(wipeMethod, old(data), old(crc), data, crc, [r])
    {
      hide Touched;
      issued := issued + [r];
      forall x { TouchedOne(r, x); }
      GatherOne(data, r);
      var fails: bool := *;
      match wipeMethod {
        case NoWipe => res := Ok(());
        case WriteZeroes =>
          if fails {
            var torn: seq<u8> := *;
            if |torn| == r.len { data := data[..r.off] + torn + data[r.off + r.len..]; }
            res := Err(WipeIoFailed);
          } else {
            data := ZeroRange(data, r);
            res := Ok(());
          }
        case Unmap => res := Err(MethodUnimplemented);
        case WritePattern(_) => res := Err(MethodUnimplemented);
        case CkSum =>
          if fails { return Err(WipeIoFailed); }
          crc := Crc.Raw(Crc.CASTAGNOLI, crc, data[r.off..r.off + r.len]);
          res := Ok(());
      }
    }

    /** The I/Os issued since the device held d0 and the register c0, and what they did: outside of
        them nothing changed, and if all succeeded the device and the register are as After says. */
    ghost predicate Did(d0: seq<u8>, c0: u32, done: seq<Range>, all: bool)
      reads this
    {
      && issued == done && |data| == |d0| && Inside(done, |d0|)
      && SameOutside(d0, data, done) && (all ==> After(wipeMethod, d0, c0, data, crc, done))
    }

    /** One more I/O on top of a list of completed ones. */
    method WipeNext(r: Range, ghost d0: seq<u8>, ghost c0: u32, ghost done: seq<Range>) returns (res: Result<()>)
      requires r.off + r.len <= |data| && Did(d0, c0, done, true)
      modifies this`data, this`crc, this`issued
      ensures Did(d0, c0, done + [r], res.Ok?) && |data| == |old(data)|
    {
      hide After, SameOutside;
      ghost var d1, c1 := data, crc;
      res := WipeOne(r);
      SameOutsideCompose(d0, d1, data, done, [r]);
      if res.Ok? { AfterCompose(wipeMethod, d0, c0, d1, c1, data, crc, done, [r]); }
    }

    /** Issues the pieces of a split chunk, checking for a closed client after each. */
    method WipePieces(pieces: WipeIterator, ghost d0: seq<u8>, ghost c0: u32, ghost done: seq<Range>)
      returns (res: Result<()>, ghost k: nat)
      requires blockLen > 0 && pieces.Valid(blockLen) && pieces.wipedChunks == 0
      requires pieces.startOffset + pieces.totalBytes <= |data| && Did(d0, c0, done, true)
      modifies this`data, this`crc, this`issued, pieces
      ensures k <= pieces.totalChunks && (res.Ok? ==> k == pieces.totalChunks)
      ensures Did(d0, c0, done + Chunks(pieces.AsPlan(), k), res.Ok?) && |data| == |old(data)|
    {
      hide After, SameOutside, Inside;
      var p := pieces.AsPlan();
      k := 0;
      assert done + Chunks(p, 0) == done;
      while true
        invariant pieces.Valid(blockLen) && |data| == |old(data)| && k == pieces.wipedChunks
        invariant Did(d0, c0, done + Chunks(p, k), true)
        decreases pieces.remainingChunks
      {
        var next := pieces.Next(blockLen);
        if next.None? { return Ok(()), k; }
        MarkStep(p, blockLen, k);
        MarkBelow(p, blockLen, k + 1);
        assert done + Chunks(p, k) + [next.value] == done + Chunks(p, k + 1);
        res := WipeNext(next.value, d0, c0, done + Chunks(p, k));
        k := k + 1;
        if res.Err? { return; }
        pieces.CompleteChunk(next.value.len, blockLen);
        var closed: bool := *;
        if closed { return Err(WipeAborted), k; }
      }
    }

    /** Issues one chunk: in one I/O up to 8 MiB, otherwise in pieces. */
    method WipeWithAbort(r: Range, ghost d0: seq<u8>, ghost c0: u32, ghost done: seq<Range>)
      returns (res: Result<()>, ghost cut: seq<Range>)
      requires blockLen > 0 && r.len > 0 && r.off + r.len <= |data| && Did(d0, c0, done, true)
      modifies this`data, this`crc, this`issued
      ensures Did(d0, c0, done + cut, res.Ok?) && |data| == |old(data)|
      ensures res.Ok? ==> ChunkIos(r, blockLen).Ok? && cut == ChunkIos(r, blockLen).value
      ensures if ChunkIos(r, blockLen).Ok? then cut <= ChunkIos(r, blockLen).value else cut == []
    {
      hide After, SameOutside, Inside;
      if r.len > MAX_IO {
        var it := NewIterator(r.off, r.len, MAX_IO, blockLen);
        if it.Err? {
          assert done + [] == done;
          return Err(it.error), [];
        }
        KeptBlocks(r.len, blockLen);
        NewPlanShape(r.off, r.len, MAX_IO, blockLen);
        ghost var p := it.value.AsPlan();
        ghost var k;
        res, k := WipePieces(it.value, d0, c0, done);
        cut := Chunks(p, k);
        ChunksPrefix(p, k, p.chunks);
      } else {
        res := WipeNext(r, d0, c0, done);
        cut := [r];
      }
    }

    /** StreamedWiper::complete_chunk: progress first, then the checksum, inverted behind the last chunk. */
    method CompleteChunk(size: nat)
      requires stats.Valid(blockLen) && stats.remainingChunks > 0
      requires size == ChunkAt(stats.AsPlan(), stats.wipedChunks).len
      modifies this`crc, stats
      ensures stats.Valid(blockLen) && stats.wipedChunks == old(stats.wipedChunks) + 1
      ensures crc == if wipeMethod.CkSum? && stats.remainingChunks == 0 then Crc.Not32(old(crc)) else old(crc)
      ensures stats.cksum == if wipeMethod.CkSum? then Some(crc) else old(stats.cksum)
    {
      stats.CompleteChunk(size, blockLen);
      if wipeMethod.CkSum? {
        if stats.remainingChunks == 0 { crc := Crc.Not32(crc); }
        stats.cksum := Some(crc);
      }
    }

    /** StreamedWiper::notify on a stream that may refuse and may be closed. */
    method Notify() returns (res: Result<()>)
      ensures res.Err? ==> res.error == WipeAborted || res.error == ChunkNotifyFailed
    {
      var refused: bool, closed: bool := *, *;
      if refused { return Err(if closed then WipeAborted else ChunkNotifyFailed); }
      return Ok(());
    }

    /** A whole streamed wipe. If it succeeds, the I/Os issued are exactly those of the plan, in order,
        every chunk was issued, all bytes of the plan are accounted as wiped, a zeroing wipe has zeroed
        exactly the bytes touched, and a checksum wipe reports the checksum of everything it read,
        inverted once. If it fails, the I/Os issued are a prefix of the plan's, and nothing outside of
        them changed. */
    method Wipe() returns (res: Result<()>)
      requires Valid() && issued == [] && crc == CRC_INITIAL && stats.wipedChunks == 0 && stats.startOffset == 0
      modifies this, stats
      ensures |data| == |old(data)| && SameOutside(old(data), data, issued)
      ensures issued <= Ios(stats.AsPlan(), blockLen, stats.totalChunks)
      ensures res.Ok? ==>
                && AllIssued(stats.AsPlan(), blockLen, stats.totalChunks)
                && issued == Ios(stats.AsPlan(), blockLen, stats.totalChunks)
                && stats.wipedChunks == stats.totalChunks && stats.remainingChunks == 0
                && stats.wipedBytes == stats.totalBytes
      ensures res.Ok? ==> match wipeMethod
              case WriteZeroes => ZeroedExactly(old(data), data, issued)
              case CkSum => data == old(data)
                            && stats.cksum == Some(FinalCrc(old(data), stats.AsPlan(), blockLen))
              case _ => data == old(data)
    {
      hide SameOutside, Inside, Tiles, Touched, Ios, ChunkIos, Crc.Raw;
      var p := stats.AsPlan();
      ghost var d0 := data;
      NothingIssued(d0);
      NoIos(p, blockLen);
      IosPrefix(p, blockLen, 0, p.chunks);
      res := Notify();
      if res.Err? { return; }
      while true
        invariant stats.Valid(blockLen) && StartsInside() && |data| == |d0|
        invariant AllIssued(p, blockLen, stats.wipedChunks)
        invariant Did(d0, CRC_INITIAL, Ios(p, blockLen, stats.wipedChunks), stats.remainingChunks > 0)
        invariant stats.remainingChunks == 0 ==> Finished(d0, p)
        decreases stats.remainingChunks
      {
        ghost var k := stats.wipedChunks;
        IosPrefix(p, blockLen, k, p.chunks);
        var next := stats.Next(blockLen);
        if next.None? { return Ok(()); }
        MarkStep(p, blockLen, k);
        MarkBelow(p, blockLen, k + 1);
        ghost var cut;
        res, cut := WipeWithAbort(next.value, d0, CRC_INITIAL, Ios(p, blockLen, k));
        IosStep(p, blockLen, k, cut);
        IosPrefix(p, blockLen, k + 1, p.chunks);
        if res.Err? { return; }
        assert AllIssued(p, blockLen, k + 1);
        CompleteChunk(next.value.len);
        res := Notify();
        if res.Err? { return; }
      }
    }

    /** Device and reported checksum at the end of a wipe. */
    ghost predicate Finished(d0: seq<u8>, p: Plan)
      requires PlanOk(p, blockLen) && p.start + p.total <= |d0|
      reads this, stats
    {
      match wipeMethod
      case WriteZeroes => ZeroedExactly(d0, data, issued)
      case CkSum => data == d0 && stats.cksum == Some(FinalCrc(d0, p, blockLen))
      case _ => data == d0
    }
  }

  /** Wiper::new and StreamedWiper::new: the method must be supported, the chunk no larger than the
      device, the plan possible and its chunks fewer than the limit. */
  method NewStreamedWiper(m: WipeMethod, data: seq<u8>, chunkSize: nat, maxChunks: nat, blockLen: nat)
    returns (r: Result<StreamedWiper>)
    requires blockLen > 0
    ensures r.Ok? <==> && !m.Unmap? && !m.WritePattern? && chunkSize <= |data|
                       && NewPlan(0, |data|, chunkSize, blockLen).Ok?
                       && NewPlan(0, |data|, chunkSize, blockLen).value.chunks < maxChunks
    ensures m.Unmap? || m.WritePattern? ==> r == Err(MethodUnimplemented)
    ensures !m.Unmap? && !m.WritePattern? && chunkSize > |data| ==> r == Err(ChunkTooLarge)
    ensures !m.Unmap? && !m.WritePattern? && chunkSize <= |data| && r.Err? ==>
              var p := NewPlan(0, |data|, chunkSize, blockLen);
              r.error == if p.Err? then p.error else TooManyChunks
    ensures r.Ok? ==> var w := r.value;
              && fresh(w) && fresh(w.stats) && w.Valid() && w.issued == [] && w.crc == CRC_INITIAL
              && w.data == data && w.wipeMethod == m && w.blockLen == blockLen && w.stats.wipedChunks == 0
              && w.stats.AsPlan() == NewPlan(0, |data|, chunkSize, blockLen).value
  {
    if !Supported(m) { return Err(MethodUnimplemented); }
    if chunkSize > |data| { return Err(ChunkTooLarge); }
    var it := NewIterator(0, |data|, chunkSize, blockLen);
    if it.Err? { return Err(it.error); }
    if it.value.totalChunks >= maxChunks { return Err(TooManyChunks); }
    NewPlanShape(0, |data|, chunkSize, blockLen);
    KeptBlocks(|data|, blockLen);
    var w := new StreamedWiper(m, blockLen, it.value, data);
    return Ok(w);
  }

  lemma NothingIssued(data: seq<u8>)
    ensures SameOutside(data, data, []) && Inside([], |data|)
    ensures forall m, c :: After(m, data, c, data, c, [])
  {
    forall m, c ensures After(m, data, c, data, c, []) { AfterNone(m, data, c); }
  }

  lemma NoIos(p: Plan, blockLen: nat)
    requires blockLen > 0
    ensures Ios(p, blockLen, 0) == []
  {
  }

  lemma {:induction false} IosPrefix(p: Plan, blockLen: nat, j: nat, k: nat)
    requires blockLen > 0 && j <= k <= p.chunks
    ensures Ios(p, blockLen, j) <= Ios(p, blockLen, k)
  {
    if j < k { IosPrefix(p, blockLen, j, k - 1); }
  }

  lemma IosStep(p: Plan, blockLen: nat, k: nat, cut: seq<Range>)
    requires blockLen > 0 && k < p.chunks
    requires var c := ChunkIos(ChunkAt(p, k), blockLen); if c.Ok? then cut <= c.value else cut == []
    ensures Ios(p, blockLen, k) + cut <= Ios(p, blockLen, k + 1)
    ensures ChunkIos(ChunkAt(p, k), blockLen).Ok? && cut == ChunkIos(ChunkAt(p, k), blockLen).value
            ==> Ios(p, blockLen, k) + cut == Ios(p, blockLen, k + 1)
  {
  }

  lemma {:induction false} ChunksPrefix(p: Plan, j: nat, k: nat)
    requires j <= k <= p.chunks
    ensures Chunks(p, j) <= Chunks(p, k)
  {
    if j < k { ChunksPrefix(p, j, k - 1); }
  }
}
