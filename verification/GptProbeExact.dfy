/** Exactly which disks are accepted, and as which label, said of the bytes on the disk. */
module GptProbeExact {
  import opened Bytes
  import opened Arith
  import opened GptCodec
  import opened GptLabels
  import opened GptHeaderLaws
  import opened GptRoundTrip
  import opened GptProbeSound
  import GptTable
  import Crc

  // -------------------------------------------------------------------- headers

  /** The block begins with the 92 bytes of header h, which carry the prefix and their own checksum. */
  predicate ImageOf(b: seq<u8>, h: GptHeader) {
    && |b| >= 92 && EncodeHeader(h) == b[..92]
    && b[..16] == PREFIX && b[16..20] == ToLE(ImageChecksum(b), 4)
  }

  lemma HeaderReadIff(b: seq<u8>, h: GptHeader)
    ensures HeaderFromSlice(b) == Ok(h) <==> ImageOf(b, h)
  {
    hide EncodeHeader, HeaderFromSlice, ImageChecksum, Crc.ChecksumIeee;
    HeaderVerdict(b);
    if |b| >= 92 {
      var c := b[..16];
      assert c == b[..8] + b[8..12] + b[12..16];
      assert c[..8] == b[..8] && c[8..12] == b[8..12] && c[12..16] == b[12..16];
      assert PREFIX == PREFIX[..8] + PREFIX[8..12] + PREFIX[12..16];
      if HeaderFromSlice(b).Ok? && EncodeHeader(h) == b[..92] {
        HeaderInjective(h, HeaderFromSlice(b).value);
      }
    }
  }

  lemma HeaderInjective(h: GptHeader, h': GptHeader)
    requires EncodeHeader(h) == EncodeHeader(h')
    ensures h == h'
  {
    hide EncodeHeader;
    HeaderRoundTrip(h, []);
    HeaderRoundTrip(h', []);
  }

  /** Room for a table of 16 KiB in n blocks. */
  predicate Room(n: int, bs: nat) { n * bs >= 16384 }

  lemma RoomIff(n: int, bs: nat)
    requires bs > 0
    ensures Room(n, bs) <==> TableBlocks(bs) <= n
  {
    hide GetBlocks;
    var t := GetBlocks(PARTITION_TABLE_SIZE, bs);
    if t <= n { MulLe(t, n, bs); } else { MulLe(n, t - 1, bs); }
  }

  /** Block 1 holds header h, which describes this device: backup header in the last block, table in block 2 with 16
      KiB before the first usable block, and the last usable block before the backup header. */
  predicate PrimaryAt(d: seq<u8>, bs: u64, nb: u64, h: GptHeader)
    requires Device(d, bs, nb) && nb >= 2
  {
    && ImageOf(Block(d, bs, nb, 1), h)
    && h.lbaSelf == 1 && h.lbaAlt == nb - 1 && h.lbaTable == 2 && h.lbaEnd < nb - 1
    && h.numEntries * h.entrySize % 0x1_0000_0000 <= 16384 && Room(h.lbaStart - 2, bs)
  }

  /** The last block holds header h, which describes this device: primary header in block 1 and a table right behind the
      last usable block with 16 KiB before the header, in arithmetic modulo 2^64. */
  predicate SecondaryAt(d: seq<u8>, bs: u64, nb: u64, h: GptHeader)
    requires Device(d, bs, nb)
  {
    && ImageOf(Block(d, bs, nb, nb - 1), h)
    && h.lbaSelf == nb - 1 && h.lbaAlt == 1 && h.lbaStart > 1
    && h.numEntries * h.entrySize % 0x1_0000_0000 <= 16384
    && if h.lbaEnd == 0xffff_ffff_ffff_ffff then h.lbaTable == 0 && Room(nb - 1, bs)
       else && h.lbaTable == h.lbaEnd + 1
            && (Room(nb - 1 - h.lbaTable, bs)
                || (Room(nb - 1 - h.lbaTable + U64_MODULUS, bs) && !Room(U64_MODULUS - 1 - h.lbaTable, bs)))
  }

  lemma PrimaryReadIff(d: seq<u8>, bs: u64, nb: u64, h: GptHeader)
    requires Device(d, bs, nb) && nb >= 2
    ensures PrimaryRead(d, bs, nb) == Ok(h) <==> PrimaryAt(d, bs, nb, h)
  {
    hide ImageOf, HeaderFromSlice, Block, Room, TableBlocks;
    HeaderReadIff(Block(d, bs, nb, 1), h);
    ValidPrimaryIff(h, bs, nb);
    RoomIff(h.lbaStart - 2, bs);
  }

  lemma SecondaryReadIff(d: seq<u8>, bs: u64, nb: u64, h: GptHeader)
    requires Device(d, bs, nb) && nb >= 2
    ensures SecondaryRead(d, bs, nb) == Ok(h) <==> SecondaryAt(d, bs, nb, h)
  {
    hide ImageOf, HeaderFromSlice, Block, Room, TableBlocks;
    HeaderReadIff(Block(d, bs, nb, nb - 1), h);
    ValidSecondaryIff(h, bs, nb);
    RoomIff(nb - 1, bs);
    RoomIff(nb - 1 - h.lbaTable, bs);
    RoomIff(nb - 1 - h.lbaTable + U64_MODULUS, bs);
    RoomIff(U64_MODULUS - 1 - h.lbaTable, bs);
    SmallBlocks(bs, nb);
  }

  predicate Agree(p: GptHeader, s: GptHeader) {
    && p.lbaStart == s.lbaStart && p.lbaEnd == s.lbaEnd && p.guid == s.guid
    && p.numEntries == s.numEntries && p.entrySize == s.entrySize && p.tableCrc == s.tableCrc
  }

  /** Header m is h for the other place: it differs in its own block, the other's and its table's, and carries its own
      checksum. */
  predicate MirrorOf(h: GptHeader, m: GptHeader, self: nat, alt: nat, table: nat) {
    && m.lbaSelf == self && m.lbaAlt == alt && m.lbaTable == table
    && m == h.(lbaSelf := m.lbaSelf, lbaAlt := m.lbaAlt, lbaTable := m.lbaTable, selfChecksum := m.selfChecksum)
    && |EncodeHeader(m)| == 92 && m.selfChecksum == ImageChecksum(EncodeHeader(m))
  }

  lemma Mirrored(h: GptHeader, m: GptHeader)
    ensures m == WithChecksum(h.(lbaSelf := m.lbaSelf, lbaAlt := m.lbaAlt, lbaTable := m.lbaTable))
            <==> MirrorOf(h, m, m.lbaSelf, m.lbaAlt, m.lbaTable)
  {
    hide EncodeHeader, ImageChecksum, Crc.ChecksumIeee;
    PrefixOf(m);
    var x := h.(lbaSelf := m.lbaSelf, lbaAlt := m.lbaAlt, lbaTable := m.lbaTable);
    assert x.(selfChecksum := 0) == m.(selfChecksum := 0)
      <==> m == h.(lbaSelf := m.lbaSelf, lbaAlt := m.lbaAlt, lbaTable := m.lbaTable, selfChecksum := m.selfChecksum);
  }

  // ---------------------------------------------------------------------- table

  predicate EntryOk(e: GptEntry, h: GptHeader) {
    (e.entStart == 0 || h.lbaStart <= e.entStart) && e.entStart <= e.entEnd <= h.lbaEnd
  }

  /** The blocks from h.lbaTable on, modulo 2^64 bytes, as many as the table needs, decode to these entries, which lie
      inside the usable range and encode to bytes with the header's checksum. */
  predicate TableAt(d: seq<u8>, bs: u64, h: GptHeader, es: seq<GptEntry>)
    requires bs > 0
  {
    var off, len := h.lbaTable * bs % U64_MODULUS, GetBlocks(h.numEntries * h.entrySize % 0x1_0000_0000, bs) * bs;
    && off + len <= |d| && DecodeEntries(d[off..off + len], h.numEntries) == Some(es)
    && (forall i :: 0 <= i < |es| ==> EntryOk(es[i], h))
    && h.tableCrc == Crc.ChecksumIeee(EncodeEntries(es))
  }

  lemma TableReadIff(d: seq<u8>, bs: u64, h: GptHeader, es: seq<GptEntry>)
    requires bs > 0
    ensures ReadTable(d, h, bs) == Ok(es) <==> TableAt(d, bs, h, es)
  {
    hide DecodeEntries, EncodeEntries, Crc.ChecksumIeee, GetBlocks, Padded;
    var off, len := h.lbaTable * bs % U64_MODULUS, GetBlocks(h.numEntries * h.entrySize % 0x1_0000_0000, bs) * bs;
    if off + len <= |d| && DecodeEntries(d[off..off + len], h.numEntries) == Some(es) {
      GptTable.CountRead(d[off..off + len], h.numEntries);
      FullTable(es);
      ValidateEntriesAll(es, h);
    }
  }

  lemma FullTable(es: seq<GptEntry>)
    ensures Padded(es, |es|) == es
  {
  }

  // ---------------------------------------------------------------------- probe

  /** Both headers are on the disk and agree; or one is and the other is its mirror, since its block holds none. */
  ghost predicate HeadersAre(d: seq<u8>, bs: u64, nb: u64, hs: Headers)
    requires Device(d, bs, nb) && nb >= 2
  {
    match hs.status
    case Both =>
      PrimaryAt(d, bs, nb, hs.primary) && SecondaryAt(d, bs, nb, hs.secondary) && Agree(hs.primary, hs.secondary)
    case Primary =>
      && PrimaryAt(d, bs, nb, hs.primary) && (forall h :: !SecondaryAt(d, bs, nb, h))
      && MirrorOf(hs.primary, hs.secondary, nb - 1, 1, hs.primary.lbaEnd + 1)
    case Secondary =>
      && SecondaryAt(d, bs, nb, hs.secondary) && (forall h :: !PrimaryAt(d, bs, nb, h))
      && MirrorOf(hs.secondary, hs.primary, 1, nb - 1, 2)
    case Neither => false
  }

  lemma HeadersIff(d: seq<u8>, bs: u64, nb: u64, hs: Headers)
    requires Device(d, bs, nb) && nb >= 2
    ensures ChooseHeaders(PrimaryRead(d, bs, nb), SecondaryRead(d, bs, nb)) == Ok(hs) <==> HeadersAre(d, bs, nb, hs)
    ensures HeadersAre(d, bs, nb, hs) ==> hs.primary.lbaAlt == nb - 1
  {
    hide PrimaryRead, SecondaryRead, PrimaryAt, SecondaryAt, WithChecksum, MirrorOf;
    var p, s := PrimaryRead(d, bs, nb), SecondaryRead(d, bs, nb);
    forall h ensures p == Ok(h) <==> PrimaryAt(d, bs, nb, h) { PrimaryReadIff(d, bs, nb, h); }
    forall h ensures s == Ok(h) <==> SecondaryAt(d, bs, nb, h) { SecondaryReadIff(d, bs, nb, h); }
    if p.Ok? { PrimaryPlaces(d, bs, nb, p.value); }
    if s.Ok? { SecondaryPlaces(d, bs, nb, s.value); }
    if p.Ok? && s.Err? { Mirrored(p.value, hs.secondary); MirrorPlaces(p.value, hs.secondary); }
    if p.Err? && s.Ok? { Mirrored(s.value, hs.primary); MirrorPlaces(s.value, hs.primary); }
  }

  lemma PrimaryPlaces(d: seq<u8>, bs: u64, nb: u64, h: GptHeader)
    requires Device(d, bs, nb) && nb >= 2 && PrimaryAt(d, bs, nb, h)
    ensures h.lbaSelf == 1 && h.lbaAlt == nb - 1 && h.lbaEnd < nb - 1
  {
    hide ImageOf, Room;
  }

  lemma SecondaryPlaces(d: seq<u8>, bs: u64, nb: u64, h: GptHeader)
    requires Device(d, bs, nb) && nb >= 2 && SecondaryAt(d, bs, nb, h)
    ensures h.lbaSelf == nb - 1 && h.lbaAlt == 1
  {
    hide ImageOf, Room;
  }

  lemma MirrorPlaces(h: GptHeader, m: GptHeader)
    ensures forall self, alt, table ::
              MirrorOf(h, m, self, alt, table)
              <==> && MirrorOf(h, m, m.lbaSelf, m.lbaAlt, m.lbaTable)
                   && m.lbaSelf == self && m.lbaAlt == alt && m.lbaTable == table
  {
    hide EncodeHeader, ImageChecksum;
  }

  predicate MbrAt(d: seq<u8>, m: Pmbr) {
    |d| >= 512 && d[510..512] == [0x55, 0xaa] && EncodeMbr(m) == d[440..512]
  }

  lemma MbrReadIff(d: seq<u8>, bs: u64, nb: u64, m: Pmbr)
    requires Device(d, bs, nb)
    ensures ReadMbr(Block(d, bs, nb, 0)) == Ok(m) <==> MbrAt(d, m)
  {
    hide ReadMbr, EncodeMbr;
    var b := Block(d, bs, nb, 0);
    MulLe(1, nb, bs);
    assert b[510..512] == d[510..512] && b[440..512] == d[440..512];
    MbrVerdict(b);
    if ReadMbr(b).Ok? && EncodeMbr(m) == EncodeMbr(ReadMbr(b).value) {
      MbrRoundTrip(m, []);
      MbrRoundTrip(ReadMbr(b).value, []);
    }
  }

  /** The disk carries label l: its MBR, which covers the device or as much of it as 32 bits can say, its headers, and
      the table of the header in use, of which the label keeps the used entries. */
  ghost predicate Carries(d: seq<u8>, bs: u64, nb: u64, l: GptLabel)
    requires Device(d, bs, nb)
  {
    && nb >= 2 && l.blockSize == bs && MbrAt(d, l.mbr)
    && (l.mbr.entries[0].numSectors == 0xffff_ffff || l.mbr.entries[0].numSectors == nb - 1)
    && HeadersAre(d, bs, nb, Headers(l.status, l.primary, l.secondary))
    && exists es :: TableAt(d, bs, if l.status == Secondary then l.secondary else l.primary, es)
                    && l.partitions == Retain(es)
  }

  /** For every disk and every label: the probe yields the label exactly when the disk carries it. */
  lemma ProbeOkIff(d: seq<u8>, bs: u64, nb: u64, l: GptLabel)
    requires Device(d, bs, nb)
    ensures Probe(d, bs, nb) == Ok(l) <==> Carries(d, bs, nb, l)
  {
    hide ReadMbr, Block, PrimaryRead, SecondaryRead, HeadersAre, ReadTable, TableAt, Retain, MbrAt, ChooseHeaders;
    MbrReadIff(d, bs, nb, l.mbr);
    if nb >= 2 {
      var hs := Headers(l.status, l.primary, l.secondary);
      HeadersIff(d, bs, nb, hs);
      var h := hs.Active();
      forall es ensures ReadTable(d, h, bs) == Ok(es) <==> TableAt(d, bs, h, es) { TableReadIff(d, bs, h, es); }
    }
  }

  // ------------------------------------------------------------------- refusals

  /** What the first field in which two headers disagree is called. */
  function Disagreement(p: GptHeader, s: GptHeader): ProbeError {
    if p.lbaStart != s.lbaStart then FirstUsableBlock
    else if p.lbaEnd != s.lbaEnd then LastUsableBlock
    else if p.guid != s.guid then CompareDiskGuid
    else if p.numEntries != s.numEntries then ComparePartitionEntryCount
    else if p.entrySize != s.entrySize then ComparePartitionEntrySize
    else ComparePartitionTableChecksum
  }

  /** Why a table is refused: it reaches behind the disk; a name in it has no end; the first entry out of range starts
      before the usable blocks, ends before it starts, or ends behind them; or the checksum differs. */
  lemma TableRefusal(d: seq<u8>, bs: u64, h: GptHeader)
    requires bs > 0 && ReadTable(d, h, bs).Err?
    ensures var off := h.lbaTable * bs % U64_MODULUS;
            var len := GetBlocks(h.numEntries * h.entrySize % 0x1_0000_0000, bs) * bs;
            var e := ReadTable(d, h, bs).error;
            if off + len > |d| then e == ReadError
            else match DecodeEntries(d[off..off + len], h.numEntries)
              case None => e == InvalidLabel(Deserialize)
              case Some(es) =>
                if AllOk(es, h) then e == InvalidLabel(PartitionTableChecksum)
                else exists i :: FirstBad(es, h, i) && e == InvalidLabel(EntryFault(es[i], h))
  {
    hide DecodeEntries, GetBlocks, ReadPartitions, AllOk, FirstBad, EntryFault;
    var off, len := h.lbaTable * bs % U64_MODULUS, GetBlocks(h.numEntries * h.entrySize % 0x1_0000_0000, bs) * bs;
    if off + len <= |d| { PartitionsRefusal(d[off..off + len], h); }
  }

  lemma PartitionsRefusal(b: seq<u8>, h: GptHeader)
    ensures ReadPartitions(b, h).Err? ==>
              var e := ReadPartitions(b, h).error;
              match DecodeEntries(b, h.numEntries)
              case None => e == Deserialize
              case Some(es) =>
                if AllOk(es, h) then e == PartitionTableChecksum
                else exists i :: FirstBad(es, h, i) && e == EntryFault(es[i], h)
  {
    hide DecodeEntries, TableChecksum, AllOk, FirstBad, EntryFault;
    if DecodeEntries(b, h.numEntries).Some? { EntriesRefusal(DecodeEntries(b, h.numEntries).value, h); }
  }

  predicate AllOk(es: seq<GptEntry>, h: GptHeader) { forall i :: 0 <= i < |es| ==> EntryOk(es[i], h) }

  predicate FirstBad(es: seq<GptEntry>, h: GptHeader, i: int) {
    0 <= i < |es| && !EntryOk(es[i], h) && forall j :: 0 <= j < i ==> EntryOk(es[j], h)
  }

  function EntryFault(e: GptEntry, h: GptHeader): ProbeError {
    if e.entStart != 0 && e.entStart < h.lbaStart then PartitionStart
    else if e.entEnd < e.entStart then NegativePartitionSize
    else PartitionEnd
  }

  lemma {:induction false} EntriesRefusal(es: seq<GptEntry>, h: GptHeader)
    ensures ValidateEntries(es, h).Ok? <==> AllOk(es, h)
    ensures ValidateEntries(es, h).Err? ==>
              exists i :: FirstBad(es, h, i) && ValidateEntries(es, h).error == EntryFault(es[i], h)
  {
    if es != [] {
      var tail := es[1..];
      EntriesRefusal(tail, h);
      if !EntryOk(es[0], h) {
        assert FirstBad(es, h, 0);
      } else if ValidateEntries(tail, h).Err? {
        var i :| FirstBad(tail, h, i) && ValidateEntries(tail, h).error == EntryFault(tail[i], h);
        assert es[i + 1] == tail[i];
        assert FirstBad(es, h, i + 1);
      }
    }
  }

  /** Why a disk is refused, in this order: no signature in its MBR; a single block; no header that reads, for the
      reason the primary does not; headers that disagree; an MBR of another size; the table of the header in use. */
  lemma ProbeRefusal(d: seq<u8>, bs: u64, nb: u64)
    requires Device(d, bs, nb) && Probe(d, bs, nb).Err?
    ensures var e := Probe(d, bs, nb).error;
            if |d| < 512 || d[510..512] != [0x55, 0xaa] then e == InvalidLabel(MbrSignature)
            else if nb < 2 then e == ReadError
            else
              var p, s := PrimaryRead(d, bs, nb), SecondaryRead(d, bs, nb);
              if p.Err? && s.Err? then e == InvalidLabel(p.error)
              else if p.Ok? && s.Ok? && !Agree(p.value, s.value) then e == InvalidLabel(Disagreement(p.value, s.value))
              else if forall m :: MbrAt(d, m) ==> m.entries[0].numSectors !in {0xffff_ffff, nb - 1}
              then e == InvalidLabel(MbrSize)
              else
                var t := ReadTable(d, if p.Ok? then p.value else s.value, bs);
                t.Err? && e == t.error
  {
    hide ReadMbr, Block, PrimaryRead, SecondaryRead, ReadTable, MbrAt, ChooseHeaders, Agree, Disagreement;
    var r := ReadMbr(Block(d, bs, nb, 0));
    assert |d| >= 512 by { MulLe(1, nb, bs); }
    MbrSigned(d, bs, nb);
    forall m ensures r == Ok(m) <==> MbrAt(d, m) { MbrReadIff(d, bs, nb, m); }
    if nb >= 2 { HeadersRefusal(d, bs, nb); }
  }

  lemma HeadersRefusal(d: seq<u8>, bs: u64, nb: u64)
    requires Device(d, bs, nb) && nb >= 2
    ensures var p, s := PrimaryRead(d, bs, nb), SecondaryRead(d, bs, nb);
            match ChooseHeaders(p, s)
            case Err(e) =>
              if p.Err? then s.Err? && e == p.error
              else s.Ok? && !Agree(p.value, s.value) && e == Disagreement(p.value, s.value)
            case Ok(hs) =>
              && (p.Ok? || s.Ok?) && (p.Ok? && s.Ok? ==> Agree(p.value, s.value))
              && hs.Active() == (if p.Ok? then p.value else s.value) && hs.primary.lbaAlt == nb - 1
  {
    hide PrimaryRead, SecondaryRead, AsPrimary, AsSecondary, PrimaryAt, SecondaryAt;
    var p, s := PrimaryRead(d, bs, nb), SecondaryRead(d, bs, nb);
    if p.Ok? { PrimaryReadIff(d, bs, nb, p.value); PrimaryPlaces(d, bs, nb, p.value); }
    if s.Ok? { SecondaryReadIff(d, bs, nb, s.value); SecondaryPlaces(d, bs, nb, s.value); DerivedSize(s.value); }
  }

  lemma DerivedSize(s: GptHeader)
    ensures AsPrimary(s).lbaAlt == s.lbaSelf
  {
    hide WithChecksum;
  }

  lemma MbrSigned(d: seq<u8>, bs: u64, nb: u64)
    requires Device(d, bs, nb) && |d| >= 512
    ensures d[510..512] == [0x55, 0xaa] <==> ReadMbr(Block(d, bs, nb, 0)).Ok?
    ensures d[510..512] != [0x55, 0xaa] ==> ReadMbr(Block(d, bs, nb, 0)) == Err(MbrSignature)
  {
    hide ReadMbr, EncodeMbr;
    var b := Block(d, bs, nb, 0);
    assert b[510..512] == d[510..512];
    MbrVerdict(b);
  }
}
