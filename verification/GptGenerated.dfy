/** Labels made by generate_label: their layout, and exactly when they survive a write and a probe. */
module GptGenerated {
  import opened Bytes
  import opened Arith
  import opened GptCodec
  import opened GptLabels
  import opened GptHeaderLaws
  import opened GptRoundTrip
  import opened GptTheorems
  import opened GptProbeSound
  import Utf16

  lemma {:induction false} PlainLength(s: string)
    requires forall i :: 0 <= i < |s| ==> s[i] as int < 0x1_0000
    ensures |Utf16.Encode(s)| == |s|
  {
    if s != [] { PlainLength(s[1..]); }
  }

  lemma NamesFit()
    ensures NameFits(META_NAME) && NameFits(DATA_NAME)
  {
    hide Utf16.Encode;
    PlainLength(META_NAME);
    PlainLength(DATA_NAME);
  }

  /** What a caller can check before generating a label: blocks under 512 KiB, room for both tables
      and headers, and a data size other than zero. */
  predicate Writable(bs: u64, nb: u64, dataSize: Option<u64>)
    requires bs > 0
  {
    bs < 524288 && nb >= TableBlocks(bs) + 2 && dataSize != Some(0)
  }

  predicate Sizes(bs: u64, nb: u64) { bs >= 512 && nb >= 1 && bs * nb < U64_MODULUS }

  /** Blocks of the MayaMeta partition, and the first block of MayaData. */
  function MetaBlocks(bs: nat): nat requires bs > 0 { GetBlocks(METADATA_PARTITION_SIZE, bs) }

  function DataStart(bs: nat): nat requires bs > 0 { GetBlocks(DATA_OFFSET, bs) + MetaBlocks(bs) }

  lemma BlockCounts(bs: nat)
    requires bs >= 512
    ensures 1 <= TableBlocks(bs) <= 32 && 1 <= GetBlocks(DATA_OFFSET, bs) <= 2048 && 1 <= MetaBlocks(bs) <= 8192
  {
    if TableBlocks(bs) > 32 { MulLe(32, TableBlocks(bs) - 1, bs); }
    if GetBlocks(DATA_OFFSET, bs) > 2048 { MulLe(2048, GetBlocks(DATA_OFFSET, bs) - 1, bs); }
    if MetaBlocks(bs) > 8192 { MulLe(8192, MetaBlocks(bs) - 1, bs); }
  }

  lemma DataBlocks(bs: nat, nb: nat, size: nat)
    requires bs > 0 && size <= bs * nb
    ensures GetBlocks(size, bs) <= nb && (size > 0 ==> GetBlocks(size, bs) >= 1)
  {
    if GetBlocks(size, bs) > nb { MulLe(nb, GetBlocks(size, bs) - 1, bs); }
  }

  /** The placement of an accepted label, block by block: MBR in block 0, primary header in block 1,
      primary table, MayaMeta, MayaData, secondary table and secondary header follow in this order,
      without overlapping, and all end inside the device. */
  lemma GeneratedLayout(guid: GptGuid, bs: u64, nb: u64, dataSize: Option<u64>, metaGuid: GptGuid)
    requires Sizes(bs, nb) && Writable(bs, nb, dataSize)
    requires GenerateLabel(guid, bs, nb, dataSize, metaGuid).Ok?
    ensures var l := GenerateLabel(guid, bs, nb, dataSize, metaGuid).value;
            var p, s, t := l.primary, l.secondary, TableBlocks(bs);
            && |l.partitions| == 2 && p.lbaSelf == 1 && p.lbaTable == 2 && s.lbaSelf == nb - 1
            && var meta, data := l.partitions[0], l.partitions[1];
               && p.lbaTable + t <= p.lbaStart == meta.entStart <= meta.entEnd
               && meta.entEnd + 1 == data.entStart == DataStart(bs) <= data.entEnd <= p.lbaEnd
               && p.lbaEnd + 1 == s.lbaTable && s.lbaTable + t == s.lbaSelf
               && s.lbaSelf + 1 == nb
               && meta.entName == META_NAME && data.entName == DATA_NAME
               && meta.entType == META_TYPE && data.entType == DATA_TYPE
  {
    hide WithChecksum, TableChecksum, TableBlocks, GetBlocks;
    BlockCounts(bs);
    TableFitsBeforeData(bs);
    SmallBlocks(bs, nb);
    var size := if dataSize.Some? then dataSize.value else bs * nb;
    MulLe(1, nb, bs);
    if size <= bs * nb { DataBlocks(bs, nb, size); }
  }

  /** Exactly when a label is generated, and why not otherwise: MayaMeta and one more block must fit before
      the last usable block, and the data must fit on the device. On a device too small even for the tables
      the last usable block wraps, and a label is generated that no write accepts. */
  lemma GeneratedOkIff(guid: GptGuid, bs: u64, nb: u64, dataSize: Option<u64>, metaGuid: GptGuid)
    requires Sizes(bs, nb)
    ensures var r, t := GenerateLabel(guid, bs, nb, dataSize, metaGuid), TableBlocks(bs);
            if t + 2 <= nb < t + 2 + DataStart(bs) then r == Err(DeviceTooSmall)
            else if dataSize.Some? && dataSize.value > bs * nb then r == Err(LabelTooLarge)
            else r.Ok?
  {
    hide WithChecksum, TableChecksum, TableBlocks, GetBlocks;
    BlockCounts(bs);
    SmallBlocks(bs, nb);
  }

  /** MayaMeta takes the least number of blocks that holds its 4 MiB; MayaData the least number that holds the
      requested size, cut at the last usable block. */
  lemma GeneratedSizes(guid: GptGuid, bs: u64, nb: u64, dataSize: Option<u64>, metaGuid: GptGuid)
    requires Sizes(bs, nb) && Writable(bs, nb, dataSize)
    requires GenerateLabel(guid, bs, nb, dataSize, metaGuid).Ok?
    ensures var l := GenerateLabel(guid, bs, nb, dataSize, metaGuid).value;
            var size := if dataSize.Some? then dataSize.value else bs * nb;
            && |l.partitions| == 2
            && var meta, data := l.partitions[0], l.partitions[1];
               && meta.entGuid == metaGuid && data.entGuid == guid && meta.entAttr == 0 && data.entAttr == 0
               && (meta.entEnd - meta.entStart) * bs < METADATA_PARTITION_SIZE <= (meta.entEnd + 1 - meta.entStart) * bs
               && (data.entEnd - data.entStart) * bs < size
               && (size <= (data.entEnd + 1 - data.entStart) * bs || data.entEnd == l.primary.lbaEnd)
  {
    hide WithChecksum, TableChecksum, TableBlocks, GetBlocks;
    BlockCounts(bs);
    TableFitsBeforeData(bs);
    SmallBlocks(bs, nb);
    var size := if dataSize.Some? then dataSize.value else bs * nb;
    MulLe(1, nb, bs);
    if size <= bs * nb {
      DataBlocks(bs, nb, size);
      var data := GenerateLabel(guid, bs, nb, dataSize, metaGuid).value.partitions[1];
      var n := GetBlocks(size, bs);
      assert data.entEnd - data.entStart <= n - 1;
      MulLe(data.entEnd - data.entStart, n - 1, bs);
    }
  }

  /** The header fields of a generated label that the layout does not mention. */
  lemma GeneratedHeaders(guid: GptGuid, bs: u64, nb: u64, dataSize: Option<u64>, metaGuid: GptGuid)
    requires Sizes(bs, nb) && GenerateLabel(guid, bs, nb, dataSize, metaGuid).Ok?
    ensures var l := GenerateLabel(guid, bs, nb, dataSize, metaGuid).value;
            && Readable(l.primary) && Readable(l.secondary) && l.secondary == AsSecondary(l.primary)
            && l.primary.reserved == l.secondary.reserved && l.primary.numEntries == 128
            && l.primary.entrySize == ENTRY_BYTES && l.primary.lbaAlt == nb - 1
            && l.primary.lbaSelf == 1 && l.primary.lbaTable == 2
            && l.primary.lbaStart == GetBlocks(DATA_OFFSET, bs)
            && l.primary.tableCrc == TableChecksum(l.partitions, 128)
            && l.primary.guid == guid && l.secondary.guid == guid && l.status == Neither
            && l.primary.reserved == [0, 0, 0, 0] && l.blockSize == bs
            && l.mbr == ProtectiveMbr(nb)
  {
    hide WithChecksum, TableChecksum, CreatePartitions, GetBlocks, TableBlocks;
    var l := GenerateLabel(guid, bs, nb, dataSize, metaGuid).value;
    var h := NewHeader(guid, bs, nb).(tableCrc := TableChecksum(l.partitions, 128));
    ChecksumIgnoresField(h, WithChecksum(h).selfChecksum);
    var s := l.primary.(lbaSelf := l.primary.lbaAlt, lbaAlt := 1, lbaTable := Add64(l.primary.lbaEnd, 1));
    ChecksumIgnoresField(s, WithChecksum(s).selfChecksum);
  }

  /** The protective MBR of a generated label: one protective partition from block 1 over the rest of the device, or
      over as many blocks as 32 bits can say, three empty entries, and the signature. */
  lemma GeneratedMbr(guid: GptGuid, bs: u64, nb: u64, dataSize: Option<u64>, metaGuid: GptGuid)
    requires Sizes(bs, nb) && GenerateLabel(guid, bs, nb, dataSize, metaGuid).Ok?
    ensures var m := GenerateLabel(guid, bs, nb, dataSize, metaGuid).value.mbr;
            && m.diskSignature == 0 && m.reserved == 0 && m.signature == [0x55, 0xaa] && |m.entries| == 4
            && m.entries[0] == MbrEntry(0, [0x00, 0x02, 0x00], 0xee, [0xff, 0xff, 0xff], 1,
                                        if nb - 1 < 0xffff_ffff then nb - 1 else 0xffff_ffff)
            && forall i :: 1 <= i < 4 ==> m.entries[i] == MbrEntry(0, [0, 0, 0], 0, [0, 0, 0], 0, 0)
  {
    hide WithChecksum, TableChecksum, CreatePartitions, GetBlocks, TableBlocks;
  }

  lemma GeneratedHeadersValid(guid: GptGuid, bs: u64, nb: u64, dataSize: Option<u64>, metaGuid: GptGuid)
    requires Sizes(bs, nb) && Writable(bs, nb, dataSize)
    requires GenerateLabel(guid, bs, nb, dataSize, metaGuid).Ok?
    ensures var l := GenerateLabel(guid, bs, nb, dataSize, metaGuid).value;
            && ValidatePrimary(l.primary, bs, nb).Ok? && ValidateSecondary(l.secondary, bs, nb).Ok?
            && ConsistencyCheck(l.primary, l.secondary).Ok? && MbrMatches(l.mbr, l.primary)
  {
    hide WithChecksum, TableChecksum, GenerateLabel, GetBlocks, TableBlocks, Checksummed;
    GeneratedLayout(guid, bs, nb, dataSize, metaGuid);
    GeneratedHeaders(guid, bs, nb, dataSize, metaGuid);
    BlockCounts(bs);
    SmallBlocks(bs, nb);
  }

  /** The generated partitions are acceptable entries with names that read back. */
  lemma GeneratedPartitions(guid: GptGuid, bs: u64, nb: u64, dataSize: Option<u64>, metaGuid: GptGuid)
    requires Sizes(bs, nb) && Writable(bs, nb, dataSize)
    requires GenerateLabel(guid, bs, nb, dataSize, metaGuid).Ok?
    ensures var l := GenerateLabel(guid, bs, nb, dataSize, metaGuid).value;
            GoodEntries(l.partitions, l.primary)
  {
    hide WithChecksum, TableChecksum, GenerateLabel, GetBlocks, TableBlocks, NameFits, Checksummed;
    GeneratedLayout(guid, bs, nb, dataSize, metaGuid);
    NamesFit();
  }

  /** The generated label passes the check for the MayaMeta and MayaData partitions. */
  lemma GeneratedCheckPasses(guid: GptGuid, bs: u64, nb: u64, dataSize: Option<u64>, metaGuid: GptGuid)
    requires Sizes(bs, nb) && Writable(bs, nb, dataSize)
    requires GenerateLabel(guid, bs, nb, dataSize, metaGuid).Ok?
    ensures var l := GenerateLabel(guid, bs, nb, dataSize, metaGuid).value;
            CheckPartitions(l) && CheckPartitions(l.(status := Both))
  {
    hide WithChecksum, TableChecksum, GenerateLabel, GetBlocks, TableBlocks, FindPartition, Checksummed, NameFits;
    GeneratedLayout(guid, bs, nb, dataSize, metaGuid);
    GeneratedHeaders(guid, bs, nb, dataSize, metaGuid);
    BlockCounts(bs);
    var ps := GenerateLabel(guid, bs, nb, dataSize, metaGuid).value.partitions;
    FindFirstTwo(ps);
  }

  predicate FirstNamed(es: seq<GptEntry>, name: string, i: int) {
    0 <= i < |es| && es[i].entName == name && forall j :: 0 <= j < i ==> es[j].entName != name
  }

  lemma {:induction false} FindIsFirst(es: seq<GptEntry>, name: string)
    ensures FindPartition(es, name).None? <==> forall i :: 0 <= i < |es| ==> es[i].entName != name
    ensures FindPartition(es, name).Some? ==>
              exists i :: FirstNamed(es, name, i) && FindPartition(es, name) == Some(es[i])
    ensures forall i :: FirstNamed(es, name, i) ==> FindPartition(es, name) == Some(es[i])
  {
    if es != [] {
      if es[0].entName == name {
        assert FirstNamed(es, name, 0);
      } else {
        var tail := es[1..];
        FindIsFirst(tail, name);
        if FindPartition(tail, name).Some? {
          var i :| FirstNamed(tail, name, i) && FindPartition(tail, name) == Some(tail[i]);
          assert es[i + 1] == tail[i];
          assert FirstNamed(es, name, i + 1);
        }
        forall i | FirstNamed(es, name, i) ensures FindPartition(es, name) == Some(es[i]) {
          assert FirstNamed(tail, name, i - 1);
        }
      }
    }
  }

  /** n is the least number of blocks that holds the bytes. */
  predicate Least(n: int, bytes: nat, bs: nat) { (n - 1) * bs < bytes <= n * bs }

  lemma LeastIs(n: int, bytes: nat, bs: nat)
    requires bs > 0 && bytes > 0
    ensures Least(n, bytes, bs) <==> n == GetBlocks(bytes, bs)
  {
    hide GetBlocks;
    var g := GetBlocks(bytes, bs);
    if n < g { MulLe(n, g - 1, bs); }
    if g < n { MulLe(g, n - 1, bs); }
  }

  /** The layout of a Mayastor disk: the usable blocks begin with the first one at or behind 1 MiB; the first entry
      named MayaMeta has its type and takes the least number of blocks that holds 4 MiB from there; the first entry
      named MayaData has its type and starts right behind, before the last usable block or on it. */
  ghost predicate MayaLayout(l: GptLabel) {
    var ps, bs := l.partitions, l.blockSize;
    && Least(l.primary.lbaStart, 0x10_0000, bs)
    && (exists i :: FirstNamed(ps, "MayaMeta", i) && MetaEntry(ps[i], l.primary.lbaStart, bs))
    && (exists i :: FirstNamed(ps, "MayaData", i) && DataEntry(ps[i], l.primary, bs))
  }

  predicate MetaEntry(e: GptEntry, start: u64, bs: u64) {
    && e.entType == GptGuid(0x27663382, 0xe5e6, 0x11e9, [0x81, 0xb4, 0xca, 0x5c, 0xa5, 0xca, 0x5c, 0xa5])
    && e.entStart == start && Least(e.entEnd + 1 - start, 0x40_0000, bs)
  }

  predicate DataEntry(e: GptEntry, h: GptHeader, bs: u64) {
    && e.entType == GptGuid(0x27663382, 0xe5e6, 0x11e9, [0x81, 0xb4, 0xca, 0x5c, 0xa5, 0xca, 0x5c, 0xa6])
    && Least(e.entStart - h.lbaStart, 0x40_0000, bs) && e.entStart <= h.lbaEnd
  }

  lemma MetaFound(l: GptLabel)
    requires l.blockSize > 0
    ensures var ps, bs, h := l.partitions, l.blockSize, l.primary;
            var e := FindPartition(ps, META_NAME);
            (exists i :: FirstNamed(ps, "MayaMeta", i) && MetaEntry(ps[i], h.lbaStart, bs))
            <==> && e.Some? && e.value.entType == META_TYPE && e.value.entStart == h.lbaStart
                 && e.value.entEnd + 1 - h.lbaStart == GetBlocks(METADATA_PARTITION_SIZE, bs)
  {
    hide GetBlocks, FindPartition, Least, FirstNamed;
    var ps, bs, h := l.partitions, l.blockSize, l.primary;
    FindIsFirst(ps, "MayaMeta");
    var e := FindPartition(ps, META_NAME);
    if e.Some? { LeastIs(e.value.entEnd + 1 - h.lbaStart, 0x40_0000, bs); }
  }

  lemma DataFound(l: GptLabel)
    requires l.blockSize > 0
    ensures var ps, bs, h := l.partitions, l.blockSize, l.primary;
            var e := FindPartition(ps, DATA_NAME);
            (exists i :: FirstNamed(ps, "MayaData", i) && DataEntry(ps[i], h, bs))
            <==> && e.Some? && e.value.entType == DATA_TYPE && e.value.entStart <= h.lbaEnd
                 && e.value.entStart - h.lbaStart == GetBlocks(METADATA_PARTITION_SIZE, bs)
  {
    hide GetBlocks, FindPartition, Least, FirstNamed;
    var ps, bs, h := l.partitions, l.blockSize, l.primary;
    FindIsFirst(ps, "MayaData");
    var e := FindPartition(ps, DATA_NAME);
    if e.Some? { LeastIs(e.value.entStart - h.lbaStart, 0x40_0000, bs); }
  }

  /** For every label, whoever made it: check_partitions accepts it exactly when it has this layout. */
  lemma CheckPartitionsIff(l: GptLabel)
    requires l.blockSize > 0
    ensures CheckPartitions(l) <==> MayaLayout(l)
  {
    hide GetBlocks, FindPartition, Least, FirstNamed, MetaEntry, DataEntry;
    LeastIs(l.primary.lbaStart, 0x10_0000, l.blockSize);
    MetaFound(l);
    DataFound(l);
  }

  lemma FindFirstTwo(ps: seq<GptEntry>)
    requires |ps| == 2 && ps[0].entName == META_NAME && ps[1].entName == DATA_NAME
    ensures FindPartition(ps, META_NAME) == Some(ps[0]) && FindPartition(ps, DATA_NAME) == Some(ps[1])
  {
    assert META_NAME[4] != DATA_NAME[4];
    assert ps[1..][0] == ps[1];
  }

  /** An accepted label within the limits is well formed. */
  lemma GeneratedWellFormed(guid: GptGuid, bs: u64, nb: u64, dataSize: Option<u64>, metaGuid: GptGuid)
    requires Sizes(bs, nb) && Writable(bs, nb, dataSize)
    requires GenerateLabel(guid, bs, nb, dataSize, metaGuid).Ok?
    ensures WellFormed(GenerateLabel(guid, bs, nb, dataSize, metaGuid).value, bs, nb)
  {
    hide WithChecksum, TableChecksum, GenerateLabel, GetBlocks, TableBlocks, NameFits, Checksummed,
      ValidatePrimary, ValidateSecondary, ConsistencyCheck, GoodEntries, MbrMatches;
    GeneratedLayout(guid, bs, nb, dataSize, metaGuid);
    GeneratedHeaders(guid, bs, nb, dataSize, metaGuid);
    GeneratedHeadersValid(guid, bs, nb, dataSize, metaGuid);
    GeneratedPartitions(guid, bs, nb, dataSize, metaGuid);
  }

  /** The label comes back from the disk it was written to. */
  predicate RoundTrips(disk: seq<u8>, l: GptLabel, bs: u64, nb: u64)
    requires Device(disk, bs, nb)
  {
    var r := WriteLabel(disk, l);
    r.Some? && Probe(r.value, bs, nb) == Ok(l.(status := Both))
  }

  lemma LargeBlocksCannotBeWritten(disk: seq<u8>, guid: GptGuid, bs: u64, nb: u64, dataSize: Option<u64>,
                                   metaGuid: GptGuid)
    requires Sizes(bs, nb) && bs >= 524288
    requires GenerateLabel(guid, bs, nb, dataSize, metaGuid).Ok?
    ensures PrimaryBuffer(GenerateLabel(guid, bs, nb, dataSize, metaGuid).value).None?
  {
    hide WithChecksum, TableChecksum, GenerateLabel, GetBlocks, EncodeHeader, EncodeMbr, EncodeEntries, Checksummed,
      PutAt, ThenPutAt, Mul64;
    var l := GenerateLabel(guid, bs, nb, dataSize, metaGuid).value;
    GeneratedHeaders(guid, bs, nb, dataSize, metaGuid);
    TwoPartitions(guid, bs, nb, dataSize, metaGuid);
    HeaderRoundTrip(l.primary, []);
    EncodeEntriesLength(l.partitions);
    LargeBlocks(bs, nb);
    NoRoom(Mul64(l.primary.lbaStart, bs), EncodeMbr(l.mbr), Mul64(1, bs), EncodeHeader(l.primary),
           Mul64(2, bs), EncodeEntries(l.partitions));
  }

  lemma LargeBlocks(bs: u64, nb: u64)
    requires Sizes(bs, nb) && bs >= 524288
    ensures var n := GetBlocks(DATA_OFFSET, bs);
            && n in {1, 2} && Mul64(1, bs) == bs && Mul64(n, bs) == n * bs && (n == 2 ==> Mul64(2, bs) == 2 * bs)
  {
    var n := GetBlocks(DATA_OFFSET, bs);
    if n > 2 { MulLe(2, n - 1, bs); }
    MulLe(1, nb, bs);
  }

  lemma NoRoom(len: nat, b1: seq<u8>, o2: nat, b2: seq<u8>, o3: nat, b3: seq<u8>)
    requires b2 != [] && b3 != [] && (len <= o2 || len <= o3)
    ensures ThenPutAt(ThenPutAt(PutAt(Zeros(len), 440, b1), o2, b2), o3, b3).None?
  {
  }

  lemma TwoPartitions(guid: GptGuid, bs: u64, nb: u64, dataSize: Option<u64>, metaGuid: GptGuid)
    requires Sizes(bs, nb) && GenerateLabel(guid, bs, nb, dataSize, metaGuid).Ok?
    ensures var l := GenerateLabel(guid, bs, nb, dataSize, metaGuid).value;
            && |l.partitions| == 2
            && (dataSize == Some(0) ==> l.partitions[1].entStart > l.partitions[1].entEnd)
  {
    hide WithChecksum, TableChecksum, GetBlocks;
    BlockCounts(bs);
  }

  lemma SmallDevicesCannotBeWritten(disk: seq<u8>, guid: GptGuid, bs: u64, nb: u64, dataSize: Option<u64>,
                                    metaGuid: GptGuid)
    requires Device(disk, bs, nb) && bs < 524288 && nb < TableBlocks(bs) + 2
    requires GenerateLabel(guid, bs, nb, dataSize, metaGuid).Ok?
    ensures WritePrimary(disk, GenerateLabel(guid, bs, nb, dataSize, metaGuid).value).None?
  {
    hide WithChecksum, TableChecksum, GenerateLabel, GetBlocks, TableBlocks, EncodeHeader, EncodeMbr, EncodeEntries,
      Checksummed;
    var l := GenerateLabel(guid, bs, nb, dataSize, metaGuid).value;
    GeneratedHeaders(guid, bs, nb, dataSize, metaGuid);
    TableFitsBeforeData(bs);
    BlockCounts(bs);
    TooLong(l.primary.lbaStart, bs, nb);
  }

  lemma TooLong(n: nat, bs: nat, nb: nat)
    requires nb < n <= 2048 && bs < 524288
    ensures n * bs >= bs * nb + bs && n * bs < U64_MODULUS
  {
    MulLe(nb + 1, n, bs);
    MulLe(n, 2048, bs);
  }

  /** For every device, every disk content and every label generate_label accepts: writing the label
      and probing the disk gives the same label back if and only if blocks are smaller than 512 KiB,
      the device has room for both headers and tables, and the requested data size is not zero. */
  lemma GeneratedRoundTripIff(disk: seq<u8>, guid: GptGuid, bs: u64, nb: u64, dataSize: Option<u64>, metaGuid: GptGuid)
    requires Device(disk, bs, nb)
    requires GenerateLabel(guid, bs, nb, dataSize, metaGuid).Ok?
    ensures RoundTrips(disk, GenerateLabel(guid, bs, nb, dataSize, metaGuid).value, bs, nb)
            <==> Writable(bs, nb, dataSize)
  {
    hide WithChecksum, TableChecksum, GenerateLabel, PrimaryBuffer, SecondaryBuffer, WritePrimary, Probe, Checksummed;
    var l := GenerateLabel(guid, bs, nb, dataSize, metaGuid).value;
    if Writable(bs, nb, dataSize) {
      GeneratedWellFormed(guid, bs, nb, dataSize, metaGuid);
      WriteProbeRoundTrip(disk, l, bs, nb);
    } else if bs >= 524288 {
      LargeBlocksCannotBeWritten(disk, guid, bs, nb, dataSize, metaGuid);
      assert WritePrimary(disk, l).None? by { NoBufferNoWrite(disk, l); }
    } else if nb < TableBlocks(bs) + 2 {
      SmallDevicesCannotBeWritten(disk, guid, bs, nb, dataSize, metaGuid);
    } else if RoundTrips(disk, l, bs, nb) {
      TwoPartitions(guid, bs, nb, dataSize, metaGuid);
      ProbeSound(WriteLabel(disk, l).value, bs, nb);
      assert false;
    }
  }

  lemma NoBufferNoWrite(disk: seq<u8>, l: GptLabel)
    requires PrimaryBuffer(l).None?
    ensures WritePrimary(disk, l).None?
  {
    hide PrimaryBuffer;
  }
}
