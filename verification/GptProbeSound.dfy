/** What an accepted label guarantees, whatever was on the disk. */
module GptProbeSound {
  import opened Bytes
  import opened Arith
  import opened GptCodec
  import opened GptLabels
  import opened GptHeaderLaws
  import opened GptRoundTrip
  import opened GptTable
  import Crc

  lemma {:induction false} RetainKeeps(es: seq<GptEntry>, e: GptEntry)
    ensures e in Retain(es) <==> e in es && (e.entStart != 0 || e.entEnd != 0)
  {
    if es != [] { RetainKeeps(es[1..], e); }
  }

  /** On every device the checks of the primary header mean what they say, free of overflow. */
  lemma ValidPrimaryIff(h: GptHeader, bs: u64, nb: u64)
    requires bs >= 512 && nb >= 1 && bs * nb < U64_MODULUS
    ensures ValidatePrimary(h, bs, nb).Ok?
            <==> && h.lbaSelf == 1 && h.lbaTable == 2 && h.lbaAlt == nb - 1 && h.lbaEnd < nb - 1
                 && TableBytes(h) <= PARTITION_TABLE_SIZE && 2 + TableBlocks(bs) <= h.lbaStart
    ensures ValidatePrimary(h, bs, nb).Err? ==>
              ValidatePrimary(h, bs, nb).error
              == if h.lbaSelf != 1 then PrimaryLocation
                 else if h.lbaAlt != nb - 1 then SecondaryLocation
                 else if h.lbaEnd >= nb - 1 then LastUsableBlock
                 else if h.lbaTable != 2 then PartitionTableLocation
                 else if TableBytes(h) > PARTITION_TABLE_SIZE then PartitionTableSize
                 else PartitionTableSpace
  {
    hide TableBlocks, TableBytes;
    SmallBlocks(bs, nb);
  }

  /** Those of the secondary header do as long as the last usable block and a table together stay below
      2^64; beyond that the sum wraps and the table may be anywhere the wrapped sum points to. */
  lemma ValidSecondaryIff(h: GptHeader, bs: u64, nb: u64)
    requires bs >= 512 && nb >= 1 && bs * nb < U64_MODULUS
    ensures ValidateSecondary(h, bs, nb).Ok?
            <==> && h.lbaAlt == 1 && h.lbaSelf == nb - 1 && 1 < h.lbaStart && TableBytes(h) <= PARTITION_TABLE_SIZE
                 && if h.lbaEnd == U64_MODULUS - 1 then h.lbaTable == 0 && TableBlocks(bs) <= nb - 1
                    else && h.lbaTable == h.lbaEnd + 1
                         && (h.lbaTable + TableBlocks(bs) <= nb - 1
                             || 0 <= h.lbaTable + TableBlocks(bs) - U64_MODULUS <= nb - 1)
    ensures ValidateSecondary(h, bs, nb).Err? ==>
              ValidateSecondary(h, bs, nb).error
              == if h.lbaAlt != 1 then PrimaryLocation
                 else if h.lbaSelf != nb - 1 then SecondaryLocation
                 else if h.lbaStart <= 1 then FirstUsableBlock
                 else if h.lbaTable != (h.lbaEnd + 1) % U64_MODULUS then PartitionTableLocation
                 else if TableBytes(h) > PARTITION_TABLE_SIZE then PartitionTableSize
                 else PartitionTableSpace
  {
    hide TableBlocks, TableBytes;
    SmallBlocks(bs, nb);
  }

  /** Both headers of an accepted label sit where they belong, and each passed its own checks if it
      was read from the disk. */
  lemma HeadersChosen(d: seq<u8>, bs: u64, nb: u64)
    requires Device(d, bs, nb) && nb >= 2
    requires ChooseHeaders(PrimaryRead(d, bs, nb), SecondaryRead(d, bs, nb)).Ok?
    ensures var hs := ChooseHeaders(PrimaryRead(d, bs, nb), SecondaryRead(d, bs, nb)).value;
            && hs.primary.lbaSelf == hs.secondary.lbaAlt == 1
            && hs.primary.lbaAlt == hs.secondary.lbaSelf == nb - 1
            && hs.primary.lbaStart == hs.secondary.lbaStart && hs.primary.lbaEnd == hs.secondary.lbaEnd
            && hs.status in {Both, Primary, Secondary}
            && (hs.status != Secondary ==> ValidatePrimary(hs.primary, bs, nb).Ok?)
            && (hs.status != Primary ==> ValidateSecondary(hs.secondary, bs, nb).Ok?)
  {
    hide WithChecksum, HeaderFromSlice, Block;
  }

  /** For every disk content: an accepted label has its headers in block 1 and the last block, and
      every partition it keeps has a non-negative size. A label accepted through its primary header
      keeps only partitions that end before the last block; one accepted through both headers keeps
      only partitions that, unless they start at block 0, lie between the two tables. One accepted
      through its secondary header alone has the same end bound unless the sum behind its last
      usable block overflows 64 bits. */
  lemma ProbeSound(d: seq<u8>, bs: u64, nb: u64)
    requires Device(d, bs, nb) && Probe(d, bs, nb).Ok?
    ensures nb >= 2
    ensures var l := Probe(d, bs, nb).value;
            && l.blockSize == bs && l.status in {Both, Primary, Secondary}
            && l.primary.lbaSelf == 1 && l.secondary.lbaSelf == nb - 1
    ensures var l := Probe(d, bs, nb).value;
            forall e :: e in l.partitions ==>
              && e.entEnd != 0 && e.entStart <= e.entEnd <= l.primary.lbaEnd
              && (e.entStart > 0 ==> l.primary.lbaStart <= e.entStart)
    ensures var l := Probe(d, bs, nb).value;
            && (l.status == Both ==> 2 + TableBlocks(bs) <= l.primary.lbaStart
                                     && l.primary.lbaEnd + 1 + TableBlocks(bs) <= nb - 1)
            && (l.status == Primary ==> 2 + TableBlocks(bs) <= l.primary.lbaStart && l.primary.lbaEnd < nb - 1)
            && (l.status == Secondary && l.primary.lbaEnd + 1 + TableBlocks(bs) < U64_MODULUS ==>
                  1 < l.primary.lbaStart && l.primary.lbaEnd + 1 + TableBlocks(bs) <= nb - 1)
  {
    hide WithChecksum, PrimaryRead, SecondaryRead, ChooseHeaders, ReadMbr, Block, TableChecksum,
      DecodeEntries, TableBlocks;
    var hs := ChooseHeaders(PrimaryRead(d, bs, nb), SecondaryRead(d, bs, nb)).value;
    HeadersChosen(d, bs, nb);
    SmallBlocks(bs, nb);
    var es := ReadTable(d, hs.Active(), bs).value;
    ValidateEntriesAll(es, hs.Active());
    forall e | e in Retain(es) ensures Used(e) && e in es { RetainKeeps(es, e); }
  }

  lemma HeaderWasRead(d: seq<u8>, bs: u64, nb: u64, lba: nat, h: GptHeader)
    requires Device(d, bs, nb) && lba < nb && HeaderFromSlice(Block(d, bs, nb, lba)) == Ok(h)
    ensures Readable(h) && Holds(d, Off(lba, bs), EncodeHeader(h))
  {
    hide EncodeHeader, WithChecksum, HeaderFromSlice, Block, Off, Readable;
    HeaderBlock(h, Block(d, bs, nb, lba));
    HeaderRoundTrip(h, []);
    BlockSlice(d, bs, nb, lba, 0, HEADER_BYTES);
    assert Block(d, bs, nb, lba)[..HEADER_BYTES] == Block(d, bs, nb, lba)[0..HEADER_BYTES];
  }

  lemma MbrWasRead(d: seq<u8>, bs: u64, nb: u64, m: Pmbr)
    requires Device(d, bs, nb) && ReadMbr(Block(d, bs, nb, 0)) == Ok(m)
    ensures m.signature == PMBR_SIGNATURE && Holds(d, 440, EncodeMbr(m))
  {
    hide EncodeMbr, ReadMbr, Block;
    MbrBlock(m, Block(d, bs, nb, 0));
    MbrRoundTrip(m, []);
    BlockSlice(d, bs, nb, 0, 440, 512);
  }

  /** For every disk content: the MBR and the headers an accepted label claims to have read are on the disk,
      bit for bit, signed and checksummed; the MBR names the disk's size or the largest it can; and a header
      that was not read is the derivation of the one that was. */
  lemma ProbeReadsDisk(d: seq<u8>, bs: u64, nb: u64)
    requires Device(d, bs, nb) && Probe(d, bs, nb).Ok?
    ensures var m := Probe(d, bs, nb).value.mbr;
            && m.signature == PMBR_SIGNATURE && Holds(d, 440, EncodeMbr(m))
            && m.entries[0].numSectors in {U32_MAX, nb - 1}
    ensures var l := Probe(d, bs, nb).value;
            if l.status == Secondary then l.primary == AsPrimary(l.secondary)
            else Readable(l.primary) && Holds(d, Off(1, bs), EncodeHeader(l.primary))
    ensures var l := Probe(d, bs, nb).value;
            if l.status == Primary then l.secondary == AsSecondary(l.primary)
            else Readable(l.secondary) && Holds(d, Off(nb - 1, bs), EncodeHeader(l.secondary))
  {
    hide EncodeHeader, EncodeMbr, WithChecksum, HeaderFromSlice, ReadMbr, ReadTable, Block, Off, Readable, Holds,
      ValidatePrimary, ValidateSecondary, ConsistencyCheck;
    ProbeSound(d, bs, nb);
    HeadersChosen(d, bs, nb);
    var l := Probe(d, bs, nb).value;
    MbrWasRead(d, bs, nb, l.mbr);
    if l.status != Secondary { HeaderWasRead(d, bs, nb, 1, l.primary); }
    if l.status != Primary { HeaderWasRead(d, bs, nb, nb - 1, l.secondary); }
  }

  /** The partitions of an accepted label are the used entries of a table that was read from where its header
      says, in the blocks that the header's sizes need, as many entries as the header says; these entries, encoded
      again, have the checksum the header says, and so do the bytes of the table themselves if its names are
      clean. */
  lemma ProbeReadsTable(d: seq<u8>, bs: u64, nb: u64) returns (table: seq<u8>, es: seq<GptEntry>)
    requires Device(d, bs, nb) && Probe(d, bs, nb).Ok?
    ensures var l := Probe(d, bs, nb).value;
            var h := if l.status == Secondary then l.secondary else l.primary;
            && Holds(d, Mul64(h.lbaTable, bs), table) && |table| == Off(GetBlocks(TableBytes(h), bs), bs)
            && DecodeEntries(table, h.numEntries) == Some(es) && |es| == h.numEntries && l.partitions == Retain(es)
            && h.tableCrc == TableChecksum(es, h.numEntries)
            && (CleanTable(table, h.numEntries) ==>
                  && ENTRY_BYTES * h.numEntries <= |table|
                  && h.tableCrc == Crc.ChecksumIeee(table[..ENTRY_BYTES * h.numEntries]))
  {
    hide WithChecksum, PrimaryRead, SecondaryRead, ChooseHeaders, ReadMbr, Block, TableChecksum, DecodeEntries,
      TableBlocks, GetBlocks, Retain, CleanTable, Crc.ChecksumIeee;
    var l := Probe(d, bs, nb).value;
    HeadersChosen(d, bs, nb);
    var h := if l.status == Secondary then l.secondary else l.primary;
    var off, len := Mul64(h.lbaTable, bs), Off(GetBlocks(TableBytes(h), bs), bs);
    table := d[off..off + len];
    es := DecodeEntries(table, h.numEntries).value;
    CountRead(table, h.numEntries);
    if CleanTable(table, h.numEntries) {
      CleanLength(table, h.numEntries);
      CleanTableChecksum(table, h);
    }
  }

  // ------------------------------------------------ the overflowing secondary header

  lemma NegativeOffset(k: nat, bs: nat)
    requires 1 <= k && 1 <= bs && k * bs <= U64_MODULUS
    ensures (U64_MODULUS - k) * bs >= 0 && ((U64_MODULUS - k) * bs) % U64_MODULUS == U64_MODULUS - k * bs
  {
    assert (U64_MODULUS - k) * bs == (bs - 1) * U64_MODULUS + (U64_MODULUS - k * bs);
    MulLe(1, k, bs);
    DivUnique((U64_MODULUS - k) * bs, U64_MODULUS, bs - 1);
  }

  /** The end bound of a label accepted through its secondary header alone fails only for one value of its
      last usable block, the largest 64-bit number, or on a device that comes within a table and a block of
      2^64 bytes, where the wrapped table can still be read. */
  lemma SecondaryEndBound(d: seq<u8>, bs: u64, nb: u64)
    requires Device(d, bs, nb)
    requires Probe(d, bs, nb).Ok? && Probe(d, bs, nb).value.status == Secondary
    ensures var e := Probe(d, bs, nb).value.secondary.lbaEnd;
            || e + 1 + TableBlocks(bs) <= nb - 1
            || e == U64_MODULUS - 1
            || (e + 1 + TableBlocks(bs) >= U64_MODULUS && |d| + PARTITION_TABLE_SIZE + bs > U64_MODULUS)
  {
    hide WithChecksum, PrimaryRead, SecondaryRead, ChooseHeaders, ReadMbr, Block, ReadPartitions, TableBlocks;
    ProbeSound(d, bs, nb);
    HeadersChosen(d, bs, nb);
    var h := Probe(d, bs, nb).value.secondary;
    SmallBlocks(bs, nb);
    if h.lbaEnd + 1 + TableBlocks(bs) >= U64_MODULUS && h.lbaEnd < U64_MODULUS - 1
       && |d| + PARTITION_TABLE_SIZE + bs <= U64_MODULUS {
      var k := U64_MODULUS - h.lbaTable;
      assert k * bs < 16384 + bs by { TableRoom(k, bs); }
      NegativeOffset(k, bs);
      MulLe(1, k, bs);
      assert false;
    }
  }

  lemma TableRoom(k: nat, bs: nat)
    requires bs > 0 && k <= TableBlocks(bs)
    ensures k * bs < PARTITION_TABLE_SIZE + bs
  {
    MulLe(k, TableBlocks(bs), bs);
  }

  lemma ZeroBlockIsNoHeader(block: seq<u8>)
    requires |block| >= HEADER_BYTES && block[0] == 0
    ensures HeaderFromSlice(block).Err?
  {
    hide WithChecksum, HeaderFromSlice;
    if HeaderFromSlice(block).Ok? {
      var h := HeaderFromSlice(block).value;
      HeaderBlock(h, block);
      FirstByte(h);
      assert false;
    }
  }

  lemma FirstByte(h: GptHeader)
    ensures |EncodeHeader(h)| == HEADER_BYTES && EncodeHeader(h)[0] == h.signature[0]
  {
    hide EncodeHeader;
    HeaderRoundTrip(h, []);
    HeaderOffsets(h);
    assert EncodeHeader(h)[0..8][0] == h.signature[0];
  }

  /** And it does fail there: a 64-block disk whose secondary header has that last usable block, and so
      its table at block 0, is accepted with a partition that ends at block 1000. */
  lemma OverflowingEndAccepted(bs: u64, nb: u64) returns (d: seq<u8>, e: GptEntry)
    requires bs == 512 && nb == 64
    ensures Device(d, bs, nb) && Probe(d, bs, nb).Ok?
    ensures Probe(d, bs, nb).value.status == Secondary && Probe(d, bs, nb).value.partitions == [e] && e.entEnd >= nb
  {
    hide EncodeEntries, EncodeHeader, EncodeMbr, WithChecksum, TableChecksum, PutAt, NameFits, Holds, HeaderFromSlice,
      Block, ReadMbr, ReadTable, GetBlocks;
    e := DEFAULT_ENTRY.(entStart := 2, entEnd := 1000);
    assert NameFits(e.entName) by { DefaultEntryIsZero(); }
    var h := GptHeader(HEADER_SIGNATURE, HEADER_REVISION, HEADER_BYTES, 0, [0, 0, 0, 0],
                       nb - 1, 1, 2, U64_MODULUS - 1, ZERO_GUID, 0, 1, ENTRY_BYTES, TableChecksum([e], 1));
    var s := WithChecksum(h);
    assert Readable(s) by { ChecksumIgnoresField(h, s.selfChecksum); }
    var mbr := ProtectiveMbr(nb);
    MbrRoundTrip(mbr, []);
    HeaderRoundTrip(s, []);
    EncodeEntriesLength([e]);
    d := OverflowingDisk(EncodeEntries([e]), EncodeMbr(mbr), EncodeHeader(s));
    ReadsMbr(d, bs, nb, mbr);
    OverflowingHeaders(d, bs, nb, s);
    OneEntryTable(d, bs, nb, e, s);
    ProbesSecondary(d, bs, nb, mbr, s, [e]);
  }

  lemma OverflowingDisk(es: seq<u8>, mbr: seq<u8>, head: seq<u8>) returns (d: seq<u8>)
    requires |es| == ENTRY_BYTES && |mbr| == MBR_BYTES && |head| == HEADER_BYTES
    ensures |d| == 32768 && d[512] == 0 && Holds(d, 0, es) && Holds(d, 440, mbr) && Holds(d, 32256, head)
  {
    hide PutAt;
    PutAtSlices(Zeros(32768), 0, es, 512, 1024);
    var d1 := PutAt(Zeros(32768), 0, es).value;
    PutAtSlices(d1, 440, mbr, 512, 1024);
    PutAtSlices(d1, 440, mbr, 0, 128);
    var d2 := PutAt(d1, 440, mbr).value;
    PutAtSlices(d2, 32256, head, 512, 1024);
    PutAtSlices(d2, 32256, head, 0, 128);
    PutAtSlices(d2, 32256, head, 440, 512);
    d := PutAt(d2, 32256, head).value;
    assert d[512] == d[512..1024][0] == Zeros(32768)[512..1024][0];
  }

  lemma OverflowingHeaders(d: seq<u8>, bs: u64, nb: u64, s: GptHeader)
    requires bs == 512 && nb == 64 && |d| == 32768 && d[512] == 0
    requires Readable(s) && s.lbaSelf == nb - 1 && s.lbaAlt == 1 && s.lbaStart == 2 && s.lbaEnd == U64_MODULUS - 1
    requires s.lbaTable == 0 && TableBytes(s) <= PARTITION_TABLE_SIZE && Holds(d, 32256, EncodeHeader(s))
    ensures PrimaryRead(d, bs, nb).Err? && SecondaryRead(d, bs, nb) == Ok(s)
  {
    hide EncodeHeader, WithChecksum, Holds, HeaderFromSlice, Block, Checksummed;
    ReadsHeader(d, bs, nb, nb - 1, s);
    assert TableBlocks(bs) <= 33;
    assert ValidateSecondary(s, bs, nb).Ok?;
    BlockSlice(d, bs, nb, 1, 0, bs);
    assert Block(d, bs, nb, 1)[0] == Block(d, bs, nb, 1)[0..bs][0] == d[512..1024][0];
    ZeroBlockIsNoHeader(Block(d, bs, nb, 1));
  }

  lemma OneEntryTable(d: seq<u8>, bs: u64, nb: u64, e: GptEntry, s: GptHeader)
    requires Device(d, bs, nb) && NameFits(e.entName) && Used(e) && s.lbaStart <= e.entStart <= e.entEnd <= s.lbaEnd
    requires s.lbaTable == 0 && s.numEntries == 1 && s.entrySize == ENTRY_BYTES && s.tableCrc == TableChecksum([e], 1)
    requires TableBlocks(bs) <= nb && Holds(d, 0, EncodeEntries([e]))
    ensures ReadTable(d, s, bs) == Ok([e]) && Retain([e]) == [e]
  {
    hide EncodeEntries, TableChecksum, NameFits, Holds, ReadTable, TableBlocks, Retain;
    assert Padded([e], 1) == [e] + Defaults(0) == [e];
    assert GoodEntries([e], s);
    ReadsTable(d, [e], bs, nb, s);
    RetainUsed([e]);
  }

  /** A device whose primary header is unreadable is probed through its secondary header. */
  lemma ProbesSecondary(d: seq<u8>, bs: u64, nb: u64, mbr: Pmbr, s: GptHeader, es: seq<GptEntry>)
    requires Device(d, bs, nb) && nb >= 2 && ReadMbr(Block(d, bs, nb, 0)) == Ok(mbr)
    requires PrimaryRead(d, bs, nb).Err? && SecondaryRead(d, bs, nb) == Ok(s)
    requires MbrMatches(mbr, AsPrimary(s)) && ReadTable(d, s, bs) == Ok(es)
    ensures Probe(d, bs, nb) == Ok(GptLabel(Secondary, bs, mbr, AsPrimary(s), Retain(es), s))
  {
    hide ReadMbr, Block, PrimaryRead, SecondaryRead, ReadTable, MbrMatches, AsPrimary, Retain;
  }
}
