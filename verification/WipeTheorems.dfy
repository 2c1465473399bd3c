/** Coverage and checksum of whole wipes, over every device and chunk size. */
module WipeTheorems {
  import opened Bytes
  import opened Arith
  import opened WipePlan
  import Crc
  import CrcValues
  import GptCodec
  import GptLabels

  /** Chunks that lose nothing when they are issued: at most 8 MiB, or fewer than 33 blocks. */
  predicate WholeChunks(p: Plan, blockLen: nat)
    requires blockLen > 0
  {
    p.chunk <= 8388608 || p.chunk / blockLen < 33
  }

  lemma SmallerQuotient(a: nat, b: nat, k: nat)
    requires k > 0 && a <= b
    ensures a / k <= b / k
  {
    DivMod(a, k); DivMod(b, k);
    var x, y := a / k, b / k;
    if x > y { MulLe(y + 1, x, k); }
  }

  lemma ReachWhole(p: Plan, blockLen: nat, k: nat)
    requires PlanOk(p, blockLen) && k < p.chunks && WholeChunks(p, blockLen)
    ensures Reach(ChunkAt(p, k).len, blockLen) == ChunkAt(p, k).len
  {
    MarkStep(p, blockLen, k);
    var len := ChunkAt(p, k).len;
    SmallerQuotient(len, p.chunk, blockLen);
    KeptBlocks(len, blockLen);
  }

  /** Every I/O of a run, complete or cut short, stays inside the range of its plan. */
  lemma {:induction false} IosInside(p: Plan, blockLen: nat, k: nat, i: nat)
    requires PlanOk(p, blockLen) && k <= p.chunks && i < |Ios(p, blockLen, k)|
    ensures var r := Ios(p, blockLen, k)[i]; p.start <= r.off && r.off + r.len <= Mark(p, k)
  {
    if i < |Ios(p, blockLen, k - 1)| {
      IosInside(p, blockLen, k - 1, i);
      MarkStep(p, blockLen, k - 1);
    } else {
      var c := ChunkAt(p, k - 1);
      var ios := ChunkIos(c, blockLen).value;
      var j := i - |Ios(p, blockLen, k - 1)|;
      assert Ios(p, blockLen, k)[i] == ios[j];
      MarkStep(p, blockLen, k - 1);
      ChunkIosExact(c, blockLen);
      KeptBlocks(c.len, blockLen);
      TilesInside(ios, c.off, c.off + Reach(c.len, blockLen), j);
    }
  }

  /** Whatever the chunk size: no I/O of a wipe is larger than 8 MiB, and every one is a whole number of blocks. */
  lemma {:induction false} IosBounded(p: Plan, blockLen: nat, k: nat, i: nat)
    requires PlanOk(p, blockLen) && k <= p.chunks && i < |Ios(p, blockLen, k)|
    ensures var r := Ios(p, blockLen, k)[i]; 0 < r.len <= 8388608 && r.len % blockLen == 0
  {
    hide ChunkIos;
    if i < |Ios(p, blockLen, k - 1)| {
      IosBounded(p, blockLen, k - 1, i);
    } else {
      MarkStep(p, blockLen, k - 1);
      ChunkIosSizes(ChunkAt(p, k - 1), blockLen, i - |Ios(p, blockLen, k - 1)|);
    }
  }

  lemma {:induction false} TilesInside(rs: seq<Range>, lo: nat, hi: nat, i: nat)
    requires Tiles(rs, lo, hi) && i < |rs|
    ensures lo <= rs[i].off && rs[i].off + rs[i].len <= hi
  {
    TilesTouch(rs[1..], lo + rs[0].len, hi, 0);
    if i > 0 { TilesInside(rs[1..], lo + rs[0].len, hi, i - 1); }
  }

  lemma WholeChunksCover(p: Plan, blockLen: nat, x: int)
    requires PlanOk(p, blockLen) && AllIssued(p, blockLen, p.chunks) && WholeChunks(p, blockLen)
    requires p.start <= x < p.start + p.total
    ensures Touched(Ios(p, blockLen, p.chunks), x)
  {
    hide Reach, ChunkIos, Ios, WholeChunks, PlanOk;
    var rs := Chunks(p, p.chunks);
    ChunksTile(p, blockLen, p.chunks);
    TilesTouch(rs, p.start, Mark(p, p.chunks), x);
    var i :| 0 <= i < |rs| && rs[i].off <= x < rs[i].off + rs[i].len;
    ReachWhole(p, blockLen, i);
    IosTouch(p, blockLen, p.chunks, x);
  }

  /** The first byte behind the reach of the first chunk is never touched. */
  lemma SplitChunksMiss(p: Plan, blockLen: nat)
    requires PlanOk(p, blockLen) && AllIssued(p, blockLen, p.chunks) && !WholeChunks(p, blockLen)
    ensures var x := p.start + Reach(p.chunk, blockLen);
            p.start <= x < p.start + p.total && !Touched(Ios(p, blockLen, p.chunks), x)
  {
    var x := p.start + Reach(p.chunk, blockLen);
    KeptBlocks(p.chunk, blockLen);
    FirstChunk(p, blockLen);
    IosTouch(p, blockLen, p.chunks, x);
    forall i | 0 <= i < p.chunks
      ensures !(ChunkAt(p, i).off <= x < ChunkAt(p, i).off + Reach(ChunkAt(p, i).len, blockLen))
    {
      if i > 0 { MulLe(1, i, p.chunk); }
    }
  }

  /** A wipe whose chunks were all issued covers its whole range exactly when its chunks lose nothing. */
  lemma FullCoverageIff(p: Plan, blockLen: nat)
    requires PlanOk(p, blockLen) && AllIssued(p, blockLen, p.chunks)
    ensures (forall x :: p.start <= x < p.start + p.total ==> Touched(Ios(p, blockLen, p.chunks), x))
            <==> WholeChunks(p, blockLen)
  {
    hide Reach, ChunkIos, Ios, WholeChunks, AllIssued;
    if WholeChunks(p, blockLen) {
      forall x | p.start <= x < p.start + p.total ensures Touched(Ios(p, blockLen, p.chunks), x) {
        WholeChunksCover(p, blockLen, x);
      }
    } else {
      SplitChunksMiss(p, blockLen);
    }
  }

  lemma FirstChunk(p: Plan, blockLen: nat)
    requires PlanOk(p, blockLen)
    ensures ChunkAt(p, 0) == Range(p.start, p.chunk) && p.chunk <= p.total
  {
    if p.extra.Some? {
      MulLe(1, p.chunks - 1, p.chunk);
    } else {
      MulLe(1, p.chunks, p.chunk);
    }
  }

  // ------------------------------------------------------------------ checksum

  /** The bytes read by a list of I/Os, in the order they are read. */
  function Gather(data: seq<u8>, rs: seq<Range>): seq<u8>
    requires forall i :: 0 <= i < |rs| ==> rs[i].off + rs[i].len <= |data|
  {
    if rs == [] then []
    else Gather(data, rs[..|rs| - 1]) + data[rs[|rs| - 1].off..rs[|rs| - 1].off + rs[|rs| - 1].len]
  }

  /** Reading a tiling reads the stretch it tiles. */
  lemma {:induction false} GatherTiles(data: seq<u8>, rs: seq<Range>, lo: nat, hi: nat)
    requires Tiles(rs, lo, hi) && hi <= |data|
    requires forall i :: 0 <= i < |rs| ==> rs[i].off + rs[i].len <= |data|
    ensures lo <= hi && Gather(data, rs) == data[lo..hi]
  {
    hide Tiles, Touched;
    TilesTouch(rs, lo, hi, 0);
    if rs == [] {
      assert lo == hi by { NoTiles(lo, hi); }
    } else {
      var n := |rs| - 1;
      TilesSplit(rs, lo, hi);
      GatherTiles(data, rs[..n], lo, rs[n].off);
      SliceJoin(data, lo, rs[n].off, hi);
    }
  }

  lemma NoTiles(lo: nat, hi: nat)
    requires Tiles([], lo, hi)
    ensures lo == hi
  {
  }

  lemma SliceJoin<T>(s: seq<T>, a: nat, b: nat, c: nat)
    requires a <= b <= c <= |s|
    ensures s[a..b] + s[b..c] == s[a..c]
  {
  }

  lemma {:induction false} TilesSplit(rs: seq<Range>, lo: nat, hi: nat)
    requires rs != [] && Tiles(rs, lo, hi)
    ensures var n := |rs| - 1; Tiles(rs[..n], lo, rs[n].off) && rs[n].off + rs[n].len == hi
  {
    var n := |rs| - 1;
    if n == 0 {
      assert rs[1..] == [];
    } else {
      TilesSplit(rs[1..], lo + rs[0].len, hi);
      assert rs[1..][..n - 1] == rs[..n][1..] && rs[1..][n - 1] == rs[n];
    }
  }

  lemma {:induction false} WholeChunksTile(p: Plan, blockLen: nat, k: nat)
    requires PlanOk(p, blockLen) && k <= p.chunks && AllIssued(p, blockLen, k) && WholeChunks(p, blockLen)
    ensures Tiles(Ios(p, blockLen, k), p.start, Mark(p, k))
  {
    hide WholeChunks, ChunkIos;
    if k > 0 {
      WholeChunksTile(p, blockLen, k - 1);
      OneMoreChunk(p, blockLen, k - 1, Ios(p, blockLen, k - 1));
    }
  }

  lemma OneMoreChunk(p: Plan, blockLen: nat, k: nat, ios: seq<Range>)
    requires PlanOk(p, blockLen) && k < p.chunks && WholeChunks(p, blockLen) && ChunkIos(ChunkAt(p, k), blockLen).Ok?
    requires Tiles(ios, p.start, Mark(p, k))
    ensures Tiles(ios + ChunkIos(ChunkAt(p, k), blockLen).value, p.start, Mark(p, k + 1))
  {
    hide WholeChunks, Reach, Issuable, ChunkIos, Tiles, Mark;
    var c := ChunkAt(p, k);
    MarkStep(p, blockLen, k);
    ChunkIosExact(c, blockLen);
    ReachWhole(p, blockLen, k);
    TilesConcat(ios, ChunkIos(c, blockLen).value, p.start, Mark(p, k), Mark(p, k + 1));
  }

  lemma IosReadable(p: Plan, blockLen: nat, k: nat, size: nat)
    requires PlanOk(p, blockLen) && k <= p.chunks && p.start + p.total <= size
    ensures forall i :: 0 <= i < |Ios(p, blockLen, k)| ==>
              Ios(p, blockLen, k)[i].off + Ios(p, blockLen, k)[i].len <= size
  {
    forall i | 0 <= i < |Ios(p, blockLen, k)|
      ensures Ios(p, blockLen, k)[i].off + Ios(p, blockLen, k)[i].len <= size
    {
      IosInside(p, blockLen, k, i);
      if k < p.chunks { MarkBelow(p, blockLen, k); }
    }
  }

  lemma {:induction false} MarkBelow(p: Plan, blockLen: nat, k: nat)
    requires PlanOk(p, blockLen) && k <= p.chunks
    ensures Mark(p, k) <= p.start + p.total
    decreases p.chunks - k
  {
    if k < p.chunks {
      MarkStep(p, blockLen, k);
      MarkBelow(p, blockLen, k + 1);
    }
  }

  /** Everything a complete wipe reads, in order. */
  function AllRead(data: seq<u8>, p: Plan, blockLen: nat): seq<u8>
    requires PlanOk(p, blockLen) && p.start + p.total <= |data|
  {
    IosReadable(p, blockLen, p.chunks, |data|);
    Gather(data, Ios(p, blockLen, p.chunks))
  }

  /** The checksum register of a fresh checksum wipe, and the one reported at its end: everything
      read, inverted once. */
  const CRC_INITIAL: u32 := U32_MAX

  function FinalCrc(data: seq<u8>, p: Plan, blockLen: nat): u32
    requires PlanOk(p, blockLen) && p.start + p.total <= |data|
  {
    Crc.Not32(Crc.Raw(Crc.CASTAGNOLI, CRC_INITIAL, AllRead(data, p, blockLen)))
  }

  /** The reported checksum by value: everything read, followed by it, leaves the residue of CRC-32C in the
      register. */
  lemma FinalCrcResidue(data: seq<u8>, p: Plan, blockLen: nat)
    requires PlanOk(p, blockLen) && p.start + p.total <= |data|
    ensures Crc.Raw(0x82f6_3b78, 0xffff_ffff, AllRead(data, p, blockLen) + ToLE(FinalCrc(data, p, blockLen), 4))
            == 0xb798_b438
  {
    hide Crc.Raw, ToLE, AllRead;
    CrcValues.InvertedResidue(AllRead(data, p, blockLen));
  }

  /** Without losing chunks the reported checksum is the one-shot checksum of everything but the
      backup blocks; so any two such chunk sizes report the same checksum of a device. */
  lemma ChecksumIndependent(data: seq<u8>, chunk1: nat, chunk2: nat, blockLen: nat)
    requires blockLen > 0
    requires NewPlan(0, |data|, chunk1, blockLen).Ok? && NewPlan(0, |data|, chunk2, blockLen).Ok?
    requires var p := NewPlan(0, |data|, chunk1, blockLen).value;
             AllIssued(p, blockLen, p.chunks) && WholeChunks(p, blockLen)
    requires var p := NewPlan(0, |data|, chunk2, blockLen).value;
             AllIssued(p, blockLen, p.chunks) && WholeChunks(p, blockLen)
    ensures var p1, p2 := NewPlan(0, |data|, chunk1, blockLen).value, NewPlan(0, |data|, chunk2, blockLen).value;
            && PlanOk(p1, blockLen) && PlanOk(p2, blockLen)
            && p1.total == p2.total == Kept(|data|, blockLen) <= |data|
            && FinalCrc(data, p1, blockLen) == FinalCrc(data, p2, blockLen)
               == Crc.Not32(Crc.Raw(Crc.CASTAGNOLI, CRC_INITIAL, data[..Kept(|data|, blockLen)]))
  {
    hide WholeChunks, AllIssued, NewPlan, Kept, Crc.Raw;
    KeptBlocks(|data|, blockLen);
    OneShot(data, chunk1, blockLen);
    OneShot(data, chunk2, blockLen);
  }

  lemma OneShot(data: seq<u8>, chunk: nat, blockLen: nat)
    requires blockLen > 0 && NewPlan(0, |data|, chunk, blockLen).Ok?
    requires var p := NewPlan(0, |data|, chunk, blockLen).value;
             AllIssued(p, blockLen, p.chunks) && WholeChunks(p, blockLen)
    ensures var p := NewPlan(0, |data|, chunk, blockLen).value;
            && PlanOk(p, blockLen) && p.start == 0 && p.total == Kept(|data|, blockLen) <= |data|
            && FinalCrc(data, p, blockLen)
               == Crc.Not32(Crc.Raw(Crc.CASTAGNOLI, CRC_INITIAL, data[..Kept(|data|, blockLen)]))
            && Crc.Raw(0x82f6_3b78, 0xffff_ffff, data[..p.total] + ToLE(FinalCrc(data, p, blockLen), 4)) == 0xb798_b438
  {
    hide WholeChunks, AllIssued, NewPlan, Kept, Crc.Raw;
    var p := NewPlan(0, |data|, chunk, blockLen).value;
    NewPlanShape(0, |data|, chunk, blockLen);
    KeptBlocks(|data|, blockLen);
    WholeChunksTile(p, blockLen, p.chunks);
    IosReadable(p, blockLen, p.chunks, |data|);
    GatherTiles(data, Ios(p, blockLen, p.chunks), 0, p.total);
    assert data[0..p.total] == data[..p.total];
    FinalCrcResidue(data, p, blockLen);
  }

  // ------------------------------------------------------------ backup label

  lemma KeptDevice(blockLen: nat, numBlocks: nat)
    requires blockLen > 0 && numBlocks >= 33
    ensures Kept(blockLen * numBlocks, blockLen) == (numBlocks - 33) * blockLen
  {
    MulMod(numBlocks, blockLen);
  }

  /** No I/O of any wipe of a device of more than 33 blocks, whatever its chunk size, reaches the last
      33 blocks. */
  lemma LastBlocksSpared(blockLen: nat, numBlocks: nat, chunkSize: nat, i: nat)
    requires blockLen > 0 && numBlocks > 33
    requires NewPlan(0, blockLen * numBlocks, chunkSize, blockLen).Ok?
    requires var p := NewPlan(0, blockLen * numBlocks, chunkSize, blockLen).value;
             i < |Ios(p, blockLen, p.chunks)|
    ensures var p := NewPlan(0, blockLen * numBlocks, chunkSize, blockLen).value;
            var r := Ios(p, blockLen, p.chunks)[i];
            r.off + r.len <= (numBlocks - 33) * blockLen
  {
    hide NewPlan, Ios, Kept;
    var p := NewPlan(0, blockLen * numBlocks, chunkSize, blockLen).value;
    NewPlanShape(0, blockLen * numBlocks, chunkSize, blockLen);
    KeptDevice(blockLen, numBlocks);
    IosInside(p, blockLen, p.chunks, i);
  }

  /** The last 33 blocks hold the whole backup table and header of a label on the device exactly when
      blocks are at least 512 bytes. */
  lemma BackupWithinLastBlocks(guid: GptCodec.GptGuid, blockLen: u64, numBlocks: u64)
    requires blockLen > 0 && numBlocks > 33 && numBlocks >= GptLabels.TableBlocks(blockLen) + 2
    ensures var s := GptLabels.AsSecondary(GptLabels.NewHeader(guid, blockLen, numBlocks));
            && numBlocks - 33 <= s.lbaTable <==> blockLen >= 512
    ensures GptLabels.AsSecondary(GptLabels.NewHeader(guid, blockLen, numBlocks)).lbaSelf == numBlocks - 1
  {
    hide GptLabels.WithChecksum, GptLabels.GetBlocks;
    var t := GptLabels.TableBlocks(blockLen);
    if blockLen >= 512 {
      if t > 32 { MulLe(32, t - 1, blockLen); }
    } else if t <= 32 {
      MulLe(t, 32, blockLen);
    }
  }
}
