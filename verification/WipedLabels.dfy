/** What a zeroing wipe leaves of a label: the disk no longer probes, but the backup copy survives whole. */
module WipedLabels {
  import opened Bytes
  import opened Arith
  import opened GptCodec
  import opened GptLabels
  import opened GptHeaderLaws
  import opened GptRoundTrip
  import opened GptTheorems
  import opened GptProbeSound
  import GptGenerated
  import opened WipePlan
  import opened WipeTheorems
  import Wiper

  /** A zeroing wipe of the whole device that came to its end, as Wiper.StreamedWiper.Wipe leaves it. */
  predicate Wiped(was: seq<u8>, now: seq<u8>, chunkSize: nat, bs: nat)
    requires bs > 0
  {
    var plan := NewPlan(0, |was|, chunkSize, bs);
    && plan.Ok? && AllIssued(plan.value, bs, plan.value.chunks)
    && Wiper.ZeroedExactly(was, now, Ios(plan.value, bs, plan.value.chunks))
  }

  /** The two agree from byte k on. */
  predicate SameFrom(a: seq<u8>, b: seq<u8>, k: nat) { |a| == |b| && k <= |a| && a[k..] == b[k..] }

  /** Every wipe reaches the first two blocks, whatever its chunks lose. */
  lemma FrontTouched(p: Plan, bs: nat, x: nat)
    requires PlanOk(p, bs) && AllIssued(p, bs, p.chunks) && p.start == 0
    requires 2 * bs <= MAX_IO && x < 2 * bs && x < p.total
    ensures Touched(Ios(p, bs, p.chunks), x)
  {
    hide Ios, Touched, Kept;
    if WholeChunks(p, bs) {
      WholeChunksCover(p, bs, x);
    } else {
      FirstChunk(p, bs);
      assert ChunkIos(ChunkAt(p, 0), bs).Ok?;
      ChunkIosExact(ChunkAt(p, 0), bs);
      IosTouch(p, bs, p.chunks, x);
    }
  }

  /** What a wipe does to the two ends of a device. */
  lemma WipedEnds(was: seq<u8>, now: seq<u8>, chunkSize: nat, bs: nat, nb: nat)
    requires bs > 0 && |was| == bs * nb && nb >= 33 + 2 && 2 * bs <= MAX_IO && Wiped(was, now, chunkSize, bs)
    ensures Holds(now, 0, Zeros(2 * bs)) && SameFrom(now, was, Off(nb - 33, bs))
  {
    hide NewPlan, Ios, Kept, AllIssued;
    var p := NewPlan(0, |was|, chunkSize, bs).value;
    NewPlanShape(0, |was|, chunkSize, bs);
    KeptDevice(bs, nb);
    MulLe(nb - 33, nb, bs);
    MulLe(2, nb - 33, bs);
    forall x: nat | x < 2 * bs ensures now[x] == 0 { FrontTouched(p, bs, x); }
    forall x | (nb - 33) * bs <= x < |was| ensures now[x] == was[x] {
      forall i | 0 <= i < |Ios(p, bs, p.chunks)|
        ensures Ios(p, bs, p.chunks)[i].off + Ios(p, bs, p.chunks)[i].len <= x
      {
        LastBlocksSpared(bs, nb, chunkSize, i);
      }
    }
  }

  /** A disk whose first block is zero has no label. */
  lemma ZeroBlockHasNoMbr(d: seq<u8>, bs: u64, nb: u64)
    requires Device(d, bs, nb) && Holds(d, 0, Zeros(bs))
    ensures Probe(d, bs, nb) == GptLabels.Err(InvalidLabel(MbrSignature))
  {
    hide ReadMbr, EncodeMbr, PrimaryRead, SecondaryRead, ReadTable, ChooseHeaders, Block;
    var b := Block(d, bs, nb, 0);
    BlockSlice(d, bs, nb, 0, 510, 512);
    assert d[510] == d[0..bs][510] == 0;
    assert b[510..512][0] == 0;
    MbrVerdict(b);
  }

  /** On any labelled disk whose backup table lies in the last 33 blocks: after a zeroing wipe of the whole
      device, with any chunk size, no label is found; and once the MBR is written again the probe finds the
      label through its backup copy. */
  lemma WipeSparesBackup(disk: seq<u8>, l: GptLabel, now: seq<u8>, chunkSize: nat, bs: u64, nb: u64)
    requires Device(disk, bs, nb) && WellFormed(l, bs, nb)
    requires nb >= 33 + 2 && 2 * bs <= MAX_IO && l.secondary.lbaTable >= nb - 33
    requires WriteLabel(disk, l).Some? && Wiped(WriteLabel(disk, l).value, now, chunkSize, bs)
    ensures Device(now, bs, nb) && Probe(now, bs, nb) == GptLabels.Err(InvalidLabel(MbrSignature))
    ensures var again := WriteAt(now, 440, EncodeMbr(l.mbr));
            again.Some? && Probe(again.value, bs, nb) == GptLabels.Ok(FromSecondary(l))
  {
    hide WellFormed, Wiped, WriteLabel, WriteAt, Probe, EncodeMbr, PrimaryRead, SecondaryRead, HeaderOnDisk,
      TableOnDisk, Holds, Off, AsPrimary, AsSecondary, SecondaryBuffer, SecondaryOffset;
    var was := WriteLabel(disk, l).value;
    WipedEnds(was, now, chunkSize, bs, nb);
    FrontHolds(now, bs);
    ZeroBlockHasNoMbr(now, bs, nb);
    LabelWritten(disk, l, bs, nb);
    MbrRoundTrip(l.mbr, []);
    ZerosLength(now, bs);
    WriteAtHolds(now, 440, EncodeMbr(l.mbr));
    var d := WriteAt(now, 440, EncodeMbr(l.mbr)).value;
    BackupKept(was, now, d, l, bs, nb);
    SecondaryReads(d, l, bs, nb);
    PrimaryGone(d, now, bs, nb);
    DerivedWellFormed(l, bs, nb);
    SameTableOnDisk(d, l, bs);
    ProbesAs(d, FromSecondary(l), bs, nb, Secondary);
  }

  /** Every generated label that can be written keeps its backup table there, and comes back exactly as it was. */
  lemma WipeSparesGenerated(disk: seq<u8>, guid: GptGuid, bs: u64, nb: u64, dataSize: Option<u64>, metaGuid: GptGuid,
                            now: seq<u8>, chunkSize: nat)
    requires Device(disk, bs, nb) && nb >= 33 + 2 && GptGenerated.Writable(bs, nb, dataSize)
    requires GenerateLabel(guid, bs, nb, dataSize, metaGuid).Ok?
    requires var r := WriteLabel(disk, GenerateLabel(guid, bs, nb, dataSize, metaGuid).value);
             r.Some? && Wiped(r.value, now, chunkSize, bs)
    ensures var l := GenerateLabel(guid, bs, nb, dataSize, metaGuid).value;
            var again := WriteAt(now, 440, EncodeMbr(l.mbr));
            && Device(now, bs, nb) && Probe(now, bs, nb) == GptLabels.Err(InvalidLabel(MbrSignature))
            && again.Some? && Probe(again.value, bs, nb) == GptLabels.Ok(l.(status := Secondary))
  {
    hide GenerateLabel, WriteLabel, WriteAt, Wiped, Probe, EncodeMbr, WellFormed, TableBlocks, GetBlocks, Readable;
    var l := GenerateLabel(guid, bs, nb, dataSize, metaGuid).value;
    GptGenerated.GeneratedWellFormed(guid, bs, nb, dataSize, metaGuid);
    GptGenerated.GeneratedHeaders(guid, bs, nb, dataSize, metaGuid);
    GptGenerated.GeneratedLayout(guid, bs, nb, dataSize, metaGuid);
    GptGenerated.BlockCounts(bs);
    WipeSparesBackup(disk, l, now, chunkSize, bs, nb);
    Derived(l, bs, nb);
  }

  lemma SameTableOnDisk(d: seq<u8>, l: GptLabel, bs: u64)
    requires TableOnDisk(d, l, l.secondary.lbaTable, bs) && AsPrimary(l.secondary).numEntries == l.primary.numEntries
    ensures TableOnDisk(d, FromSecondary(l), l.secondary.lbaTable, bs)
  {
    hide AsPrimary;
  }

  lemma ZerosLength(now: seq<u8>, bs: nat)
    requires Holds(now, 0, Zeros(2 * bs))
    ensures 2 * bs <= |now|
  {
  }

  /** The backup copy is still on a disk that agrees with the labelled one in the last 33 blocks. */
  lemma BackupKept(was: seq<u8>, now: seq<u8>, d: seq<u8>, l: GptLabel, bs: u64, nb: u64)
    requires Device(was, bs, nb) && WellFormed(l, bs, nb)
    requires nb >= 33 + 2 && l.secondary.lbaTable >= nb - 33
    requires SameFrom(d, now, 512) && SameFrom(now, was, Off(nb - 33, bs))
    requires HeaderOnDisk(was, l.secondary, bs) && TableOnDisk(was, l, l.secondary.lbaTable, bs)
    ensures HeaderOnDisk(d, l.secondary, bs) && TableOnDisk(d, l, l.secondary.lbaTable, bs)
  {
    hide WellFormed, EncodeHeader, EncodeEntries, Holds, Off, Padded, TableBlocks, TableBytes;
    Geometry(l, bs, nb);
    TableLength(l, bs, nb);
    HeaderRoundTrip(l.secondary, []);
    var keep := Off(nb - 33, bs);
    BackupOffsets(l.secondary.lbaTable, bs, nb);
    SuffixSame(d, now, was, 512, keep);
    HoldsBehind(was, d, keep, Off(l.secondary.lbaTable, bs), EncodeEntries(Padded(l.partitions, l.primary.numEntries)));
    HoldsBehind(was, d, keep, Off(l.secondary.lbaSelf, bs), EncodeHeader(l.secondary));
  }

  lemma BackupOffsets(lba: nat, bs: nat, nb: nat)
    requires bs >= 512 && nb >= 33 + 2 && nb - 33 <= lba <= nb - 1
    ensures 512 <= Off(nb - 33, bs) <= Off(lba, bs) <= Off(nb - 1, bs)
  {
    MulLe(2, nb - 33, bs);
    MulLe(nb - 33, lba, bs);
    MulLe(lba, nb - 1, bs);
  }

  lemma FrontHolds(now: seq<u8>, bs: nat)
    requires Holds(now, 0, Zeros(2 * bs))
    ensures Holds(now, 0, Zeros(bs))
  {
    assert now[0..bs] == now[0..2 * bs][..bs];
  }

  lemma SuffixSame(d: seq<u8>, now: seq<u8>, was: seq<u8>, a: nat, b: nat)
    requires SameFrom(d, now, a) && SameFrom(now, was, b) && a <= b
    ensures SameFrom(d, was, b)
  {
    assert d[b..] == d[a..][b - a..] && now[b..] == now[a..][b - a..];
  }

  /** Block 1 of a wiped disk is no header. */
  lemma PrimaryGone(d: seq<u8>, now: seq<u8>, bs: u64, nb: u64)
    requires Device(d, bs, nb) && nb >= 2 && SameFrom(d, now, 512) && Holds(now, 0, Zeros(2 * bs))
    ensures PrimaryRead(d, bs, nb).Err?
  {
    hide HeaderFromSlice, Block, ValidatePrimary;
    BlockSlice(d, bs, nb, 1, 0, bs);
    assert d[bs] == d[512..][bs - 512] == now[bs] == now[0..2 * bs][bs] == 0;
    assert Block(d, bs, nb, 1)[0] == Block(d, bs, nb, 1)[0..bs][0] == d[bs];
    ZeroBlockIsNoHeader(Block(d, bs, nb, 1));
  }
}
