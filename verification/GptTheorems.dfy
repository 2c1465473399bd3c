/** The promises of the label code, over every label, device and disk content. */
module GptTheorems {
  import opened Bytes
  import opened Arith
  import opened GptCodec
  import opened GptLabels
  import opened GptHeaderLaws
  import opened GptRoundTrip

  // ------------------------------------------------------- what a disk may hold

  predicate MbrOnDisk(d: seq<u8>, l: GptLabel) { Holds(d, 440, EncodeMbr(l.mbr)) }

  /** The label's table, padded to its entry count, starts at the given block. */
  predicate TableOnDisk(d: seq<u8>, l: GptLabel, lba: u64, bs: u64) {
    Holds(d, Off(lba, bs), EncodeEntries(Padded(l.partitions, l.primary.numEntries)))
  }

  predicate HeaderOnDisk(d: seq<u8>, h: GptHeader, bs: u64) {
    Holds(d, Off(h.lbaSelf, bs), EncodeHeader(h))
  }

  lemma HoldsInside(d: seq<u8>, off: nat, buf: seq<u8>, o: nat, b: seq<u8>)
    requires Holds(d, off, buf) && Holds(buf, o, b)
    ensures Holds(d, off + o, b)
  {
    SliceSlice(d, off, off + |buf|, o, o + |b|);
  }

  lemma WriteAtHolds(disk: seq<u8>, off: nat, buf: seq<u8>)
    requires off + |buf| <= |disk|
    ensures WriteAt(disk, off, buf).Some? && Holds(WriteAt(disk, off, buf).value, off, buf)
    ensures WriteAt(disk, off, buf).value[..off] == disk[..off]
    ensures WriteAt(disk, off, buf).value[off + |buf|..] == disk[off + |buf|..]
  {
  }

  lemma HoldsBefore(d: seq<u8>, d': seq<u8>, end: nat, o: nat, b: seq<u8>)
    requires end <= |d| && end <= |d'| && d[..end] == d'[..end] && o + |b| <= end
    ensures Holds(d, o, b) <==> Holds(d', o, b)
  {
    assert d[o..o + |b|] == d[..end][o..o + |b|] && d'[o..o + |b|] == d'[..end][o..o + |b|];
  }

  lemma HoldsBehind(d: seq<u8>, d': seq<u8>, start: nat, o: nat, b: seq<u8>)
    requires |d| == |d'| && start <= |d| && d[start..] == d'[start..] && start <= o && o + |b| <= |d|
    ensures Holds(d, o, b) <==> Holds(d', o, b)
  {
    SliceSlice(d, start, |d|, o - start, o - start + |b|);
    SliceSlice(d', start, |d|, o - start, o - start + |b|);
    assert d[start..|d|] == d'[start..|d|];
  }

  // ---------------------------------------------------------------- the writes

  /** The primary write puts the MBR, the primary header and the primary table in place, and
      touches nothing from the first usable block on. */
  lemma PrimaryWritten(disk: seq<u8>, l: GptLabel, bs: u64, nb: u64)
    requires Device(disk, bs, nb) && WellFormed(l, bs, nb)
    ensures var r := WritePrimary(disk, l);
            && r.Some? && MbrOnDisk(r.value, l) && HeaderOnDisk(r.value, l.primary, bs)
            && TableOnDisk(r.value, l, l.primary.lbaTable, bs)
            && Off(l.primary.lbaStart, bs) <= |disk|
            && r.value[Off(l.primary.lbaStart, bs)..] == disk[Off(l.primary.lbaStart, bs)..]
  {
    hide EncodeMbr, EncodeHeader, EncodeEntries, PrimaryBuffer, WriteAt, Holds, WithChecksum, TableChecksum, Off,
      NameFits;
    Geometry(l, bs, nb);
    PrimaryBufferHolds(l, bs, l.primary.numEntries);
    var buf := PrimaryBuffer(l).value;
    WriteAtHolds(disk, 0, buf);
    var d := WriteAt(disk, 0, buf).value;
    HoldsInside(d, 0, buf, 440, EncodeMbr(l.mbr));
    HoldsInside(d, 0, buf, bs, EncodeHeader(l.primary));
    HoldsInside(d, 0, buf, 2 * bs, EncodeEntries(Padded(l.partitions, l.primary.numEntries)));
  }

  /** Both writes succeed, put everything in place, end exactly at the end of the device, and leave
      every byte between the first usable block and the last one as it was. */
  lemma LabelWritten(disk: seq<u8>, l: GptLabel, bs: u64, nb: u64)
    requires Device(disk, bs, nb) && WellFormed(l, bs, nb)
    ensures SecondaryBuffer(l).Some? && SecondaryOffset(l) + |SecondaryBuffer(l).value| == |disk|
    ensures Off(l.primary.lbaStart, bs) <= Off(l.primary.lbaEnd + 1, bs) <= |disk|
    ensures var r := WriteLabel(disk, l);
            && r.Some? && MbrOnDisk(r.value, l)
            && TableOnDisk(r.value, l, l.primary.lbaTable, bs) && TableOnDisk(r.value, l, l.secondary.lbaTable, bs)
            && HeaderOnDisk(r.value, l.primary, bs) && HeaderOnDisk(r.value, l.secondary, bs)
            && r.value[Off(l.primary.lbaStart, bs)..Off(l.primary.lbaEnd + 1, bs)]
               == disk[Off(l.primary.lbaStart, bs)..Off(l.primary.lbaEnd + 1, bs)]
  {
    hide EncodeMbr, EncodeHeader, EncodeEntries, WritePrimary, SecondaryBuffer, WriteAt, Holds, WithChecksum,
      TableChecksum, Off, NameFits, Mul64;
    Geometry(l, bs, nb);
    PrimaryWritten(disk, l, bs, nb);
    SecondaryBufferHolds(l, bs, l.primary.numEntries);
    assert SecondaryOffset(l) == Off(l.secondary.lbaTable, bs) by { OffFits(l.secondary.lbaTable, bs, nb); }
    MbrRoundTrip(l.mbr, []);
    HeaderRoundTrip(l.primary, []);
    var table := Padded(l.partitions, l.primary.numEntries);
    EncodeEntriesLength(table);
    SecondWrite(WritePrimary(disk, l).value, EncodeMbr(l.mbr), Off(1, bs), EncodeHeader(l.primary),
                Off(2, bs), EncodeEntries(table), Off(l.secondary.lbaTable, bs), SecondaryBuffer(l).value,
                Off(l.secondary.lbaSelf, bs) - Off(l.secondary.lbaTable, bs), EncodeHeader(l.secondary));
    var lo, hi := Off(l.primary.lbaStart, bs), Off(l.primary.lbaEnd + 1, bs);
    var d1, d := WritePrimary(disk, l).value, WriteLabel(disk, l).value;
    assert d[lo..hi] == d[..hi][lo..hi] && d1[lo..hi] == d1[..hi][lo..hi];
    assert d1[lo..hi] == d1[lo..][..hi - lo] && disk[lo..hi] == disk[lo..][..hi - lo];
  }

  lemma OffFits(lba: u64, bs: u64, nb: u64)
    requires bs * nb < U64_MODULUS && lba <= nb
    ensures Mul64(lba, bs) == Off(lba, bs)
  {
    MulLe(lba, nb, bs);
  }

  /** A write keeps what lies before it and puts its own pieces in place. */
  lemma SecondWrite(d1: seq<u8>, mbr: seq<u8>, o1: nat, head: seq<u8>, o2: nat, table: seq<u8>,
                    off: nat, buf: seq<u8>, before: nat, head': seq<u8>)
    requires off + |buf| <= |d1| && 440 + |mbr| <= off && o1 + |head| <= off && o2 + |table| <= off
    requires Holds(d1, 440, mbr) && Holds(d1, o1, head) && Holds(d1, o2, table)
    requires Holds(buf, 0, table) && Holds(buf, before, head')
    ensures var r := WriteAt(d1, off, buf);
            && r.Some? && r.value[..off] == d1[..off]
            && Holds(r.value, 440, mbr) && Holds(r.value, o1, head) && Holds(r.value, o2, table)
            && Holds(r.value, off, table) && Holds(r.value, off + before, head')
  {
    hide WriteAt, Holds;
    WriteAtHolds(d1, off, buf);
    var d := WriteAt(d1, off, buf).value;
    HoldsInside(d, off, buf, 0, table);
    HoldsInside(d, off, buf, before, head');
    HoldsBefore(d, d1, off, 440, mbr);
    HoldsBefore(d, d1, off, o1, head);
    HoldsBefore(d, d1, off, o2, table);
  }

  // --------------------------------------------------------------- the probing

  /** Probing a disk that holds the MBR of a label and the table of the header in use, and whose header blocks yield the
      label's headers, yields the label. */
  lemma ProbesAs(d: seq<u8>, l: GptLabel, bs: u64, nb: u64, status: LabelStatus)
    requires Device(d, bs, nb) && nb >= 2 && WellFormed(l, bs, nb) && MbrOnDisk(d, l)
    requires TableOnDisk(d, l, (if status == Secondary then l.secondary else l.primary).lbaTable, bs)
    requires ChooseHeaders(PrimaryRead(d, bs, nb), SecondaryRead(d, bs, nb))
             == Ok(Headers(status, l.primary, l.secondary))
    ensures Probe(d, bs, nb) == Ok(l.(status := status))
  {
    hide EncodeEntries, EncodeMbr, WithChecksum, TableChecksum, ReadTable, ReadMbr, ChooseHeaders, PrimaryRead,
      SecondaryRead, Block, Holds, Off, NameFits;
    Geometry(l, bs, nb);
    ReadsMbr(d, bs, nb, l.mbr);
    var h := if status == Secondary then l.secondary else l.primary;
    assert GoodEntries(l.partitions, h);
    ReadsTable(d, l.partitions, bs, nb, h);
    PaddedTable(l.partitions, h.numEntries);
  }

  lemma PrimaryReads(d: seq<u8>, l: GptLabel, bs: u64, nb: u64)
    requires Device(d, bs, nb) && nb >= 2 && WellFormed(l, bs, nb) && HeaderOnDisk(d, l.primary, bs)
    ensures PrimaryRead(d, bs, nb) == Ok(l.primary)
  {
    hide EncodeHeader, WithChecksum, TableChecksum, Block, Holds, Off, NameFits, HeaderFromSlice;
    ReadsHeader(d, bs, nb, 1, l.primary);
  }

  lemma SecondaryReads(d: seq<u8>, l: GptLabel, bs: u64, nb: u64)
    requires Device(d, bs, nb) && nb >= 2 && WellFormed(l, bs, nb) && HeaderOnDisk(d, l.secondary, bs)
    ensures SecondaryRead(d, bs, nb) == Ok(l.secondary)
  {
    hide EncodeHeader, WithChecksum, TableChecksum, Block, Holds, Off, NameFits, HeaderFromSlice;
    ReadsHeader(d, bs, nb, nb - 1, l.secondary);
  }

  /** Writing a well-formed label to any device of its size and probing the device gives the same
      label, now known to be in sync on both ends. */
  lemma WriteProbeRoundTrip(disk: seq<u8>, l: GptLabel, bs: u64, nb: u64)
    requires Device(disk, bs, nb) && WellFormed(l, bs, nb)
    ensures var r := WriteLabel(disk, l);
            r.Some? && Probe(r.value, bs, nb) == Ok(l.(status := Both))
  {
    hide EncodeHeader, EncodeEntries, EncodeMbr, WithChecksum, TableChecksum, WriteLabel, PrimaryRead,
      SecondaryRead, Probe, NameFits, Off, MbrOnDisk, TableOnDisk, HeaderOnDisk;
    Geometry(l, bs, nb);
    LabelWritten(disk, l, bs, nb);
    var d := WriteLabel(disk, l).value;
    PrimaryReads(d, l, bs, nb);
    SecondaryReads(d, l, bs, nb);
    ProbesAs(d, l, bs, nb, Both);
  }

  // --------------------------------------------------------------- the recovery

  /** d and d' have the same size and agree outside bytes lo up to hi. */
  predicate SameOutside(d: seq<u8>, d': seq<u8>, lo: nat, hi: nat) {
    |d| == |d'| && lo <= hi <= |d| && d[..lo] == d'[..lo] && d[hi..] == d'[hi..]
  }

  lemma TableLength(l: GptLabel, bs: u64, nb: u64)
    requires WellFormed(l, bs, nb)
    ensures |EncodeEntries(Padded(l.partitions, l.primary.numEntries))| == ENTRY_BYTES * l.primary.numEntries
  {
    hide WithChecksum, TableChecksum, NameFits, EncodeEntries;
    EncodeEntriesLength(Padded(l.partitions, l.primary.numEntries));
  }

  /** The label as it is read through one of its headers, the other derived from it. */
  function FromSecondary(l: GptLabel): GptLabel { l.(status := Secondary, primary := AsPrimary(l.secondary)) }

  function FromPrimary(l: GptLabel): GptLabel { l.(status := Primary, secondary := AsSecondary(l.primary)) }

  /** A label read through one header is the written one, but for the reserved bytes of the derived header and
      the checksum over them; and it is exactly the written one if and only if these agreed. */
  lemma Derived(l: GptLabel, bs: u64, nb: u64)
    requires WellFormed(l, bs, nb)
    ensures FromSecondary(l) == l.(status := Secondary) <==> l.primary.reserved == l.secondary.reserved
    ensures FromPrimary(l) == l.(status := Primary) <==> l.primary.reserved == l.secondary.reserved
    ensures AsPrimary(l.secondary).(selfChecksum := 0)
            == l.primary.(selfChecksum := 0, reserved := l.secondary.reserved)
    ensures AsSecondary(l.primary).(selfChecksum := 0)
            == l.secondary.(selfChecksum := 0, reserved := l.primary.reserved)
  {
    hide WithChecksum, AsPrimary, AsSecondary, TableChecksum, NameFits;
    ConsistentHeadersDeriveEachOther(l.primary, l.secondary, bs, nb);
  }

  lemma DerivedWellFormed(l: GptLabel, bs: u64, nb: u64)
    requires WellFormed(l, bs, nb)
    ensures WellFormed(FromSecondary(l), bs, nb) && WellFormed(FromPrimary(l), bs, nb)
    ensures AsPrimary(l.secondary).numEntries == l.primary.numEntries
  {
    hide WithChecksum, AsPrimary, AsSecondary, TableChecksum, NameFits, TableBlocks, TableBytes;
    Derived(l, bs, nb);
    DerivedReadable(l.primary, l.secondary);
    var p, s := AsPrimary(l.secondary), AsSecondary(l.primary);
    assert p.(selfChecksum := 0).lbaTable == p.lbaTable && s.(selfChecksum := 0).lbaTable == s.lbaTable;
    SameTable(p, l.primary);
    SameTable(s, l.secondary);
    assert GoodEntries(l.partitions, p);
  }

  lemma SameTable(a: GptHeader, b: GptHeader)
    requires a.numEntries == b.numEntries && a.entrySize == b.entrySize
    ensures TableBytes(a) == TableBytes(b)
  {
  }

  lemma DerivedReadable(p: GptHeader, s: GptHeader)
    requires Readable(p) && Readable(s)
    ensures Readable(AsPrimary(s)) && Readable(AsSecondary(p))
  {
    hide WithChecksum;
    var a := s.(lbaSelf := s.lbaAlt, lbaAlt := s.lbaSelf, lbaTable := Add64(s.lbaAlt, 1));
    var b := p.(lbaSelf := p.lbaAlt, lbaAlt := p.lbaSelf, lbaTable := Add64(p.lbaEnd, 1));
    ChecksumIgnoresField(a, WithChecksum(a).selfChecksum);
    ChecksumIgnoresField(b, WithChecksum(b).selfChecksum);
  }

  /** A label survives the loss of its primary copy: whatever the blocks between the MBR and the first
      usable block were overwritten with, if block 1 no longer reads as a primary header the probe derives
      the header from the secondary and takes the table behind the last usable block. */
  lemma PrimaryHeaderLost(disk: seq<u8>, d': seq<u8>, l: GptLabel, bs: u64, nb: u64)
    requires Device(disk, bs, nb) && WellFormed(l, bs, nb)
    requires nb >= 2 && WriteLabel(disk, l).Some?
    requires SameOutside(WriteLabel(disk, l).value, d', Off(1, bs), Off(l.primary.lbaStart, bs))
    requires PrimaryRead(d', bs, nb).Err?
    ensures Probe(d', bs, nb) == Ok(FromSecondary(l))
  {
    hide WellFormed, EncodeHeader, EncodeEntries, EncodeMbr, WithChecksum, TableChecksum, WriteLabel, PrimaryRead,
      SecondaryRead, Probe, NameFits, Off, Holds, AsPrimary, AsSecondary, SecondaryBuffer, SecondaryOffset, Padded;
    TableLength(l, bs, nb);
    Geometry(l, bs, nb);
    LabelWritten(disk, l, bs, nb);
    var d := WriteLabel(disk, l).value;
    MbrRoundTrip(l.mbr, []);
    HeaderRoundTrip(l.secondary, []);
    HoldsBefore(d, d', Off(1, bs), 440, EncodeMbr(l.mbr));
    HoldsBehind(d, d', Off(l.primary.lbaStart, bs), Off(l.secondary.lbaTable, bs),
                EncodeEntries(Padded(l.partitions, l.primary.numEntries)));
    HoldsBehind(d, d', Off(l.primary.lbaStart, bs), Off(l.secondary.lbaSelf, bs), EncodeHeader(l.secondary));
    SecondaryReads(d', l, bs, nb);
    DerivedWellFormed(l, bs, nb);
    ProbesAs(d', FromSecondary(l), bs, nb, Secondary);
  }

  /** The same for everything behind the last usable block. */
  lemma SecondaryHeaderLost(disk: seq<u8>, d': seq<u8>, l: GptLabel, bs: u64, nb: u64)
    requires Device(disk, bs, nb) && WellFormed(l, bs, nb)
    requires nb >= 2 && WriteLabel(disk, l).Some?
    requires SameOutside(WriteLabel(disk, l).value, d', Off(l.primary.lbaEnd + 1, bs), |disk|)
    requires SecondaryRead(d', bs, nb).Err?
    ensures Probe(d', bs, nb) == Ok(FromPrimary(l))
  {
    hide WellFormed, EncodeHeader, EncodeEntries, EncodeMbr, WithChecksum, TableChecksum, WriteLabel, PrimaryRead,
      SecondaryRead, Probe, NameFits, Off, Holds, AsPrimary, AsSecondary, SecondaryBuffer, SecondaryOffset, Padded;
    TableLength(l, bs, nb);
    Geometry(l, bs, nb);
    LabelWritten(disk, l, bs, nb);
    var d := WriteLabel(disk, l).value;
    MbrRoundTrip(l.mbr, []);
    HeaderRoundTrip(l.primary, []);
    HoldsBefore(d, d', Off(l.primary.lbaEnd + 1, bs), 440, EncodeMbr(l.mbr));
    HoldsBefore(d, d', Off(l.primary.lbaEnd + 1, bs), Off(1, bs), EncodeHeader(l.primary));
    var table := EncodeEntries(Padded(l.partitions, l.primary.numEntries));
    HoldsBefore(d, d', Off(l.primary.lbaEnd + 1, bs), Off(2, bs), table);
    PrimaryReads(d', l, bs, nb);
    DerivedWellFormed(l, bs, nb);
    ProbesAs(d', FromPrimary(l), bs, nb, Primary);
  }

  /** Whatever change of up to four consecutive bytes the primary header suffers, beside its checksum or inside
      it, the label comes back from the secondary. */
  lemma PrimaryDamaged(disk: seq<u8>, d': seq<u8>, l: GptLabel, bs: u64, nb: u64, i: nat, w: nat)
    requires Device(disk, bs, nb) && WellFormed(l, bs, nb)
    requires nb >= 2 && WriteLabel(disk, l).Some? && w <= 4 && i + w <= HEADER_BYTES && BesideChecksum(i, w)
    requires SameBut(WriteLabel(disk, l).value, d', Off(1, bs) + i, w) && WriteLabel(disk, l).value != d'
    ensures Probe(d', bs, nb) == Ok(FromSecondary(l))
  {
    hide WellFormed, WriteLabel, PrimaryRead, Off, HeaderOnDisk, MbrOnDisk, TableOnDisk, Probe, SameBut, TableBlocks,
      TableBytes, SecondaryBuffer, SecondaryOffset, BesideChecksum;
    Geometry(l, bs, nb);
    LabelWritten(disk, l, bs, nb);
    var d := WriteLabel(disk, l).value;
    PrimaryReadLost(d, d', l, bs, nb, i, w);
    ChangedInside(d, d', Off(1, bs) + i, w, Off(1, bs), Off(l.primary.lbaStart, bs));
    PrimaryHeaderLost(disk, d', l, bs, nb);
  }

  lemma PrimaryReadLost(d: seq<u8>, d': seq<u8>, l: GptLabel, bs: u64, nb: u64, i: nat, w: nat)
    requires Device(d, bs, nb) && nb >= 2 && WellFormed(l, bs, nb) && HeaderOnDisk(d, l.primary, bs)
    requires w <= 4 && i + w <= HEADER_BYTES && BesideChecksum(i, w) && SameBut(d, d', Off(1, bs) + i, w) && d != d'
    ensures |d'| == |d| && PrimaryRead(d', bs, nb).Err?
  {
    hide WellFormed, HeaderOnDisk, HeaderFromSlice, Block, Off, ValidatePrimary, BesideChecksum;
    PrimaryReads(d, l, bs, nb);
    BlockChanged(d, d', bs, nb, 1, i, w);
    DamageDetected(Block(d, bs, nb, 1), Block(d', bs, nb, 1), i, w);
  }

  /** And whatever such change the secondary header suffers, from the primary. */
  lemma SecondaryDamaged(disk: seq<u8>, d': seq<u8>, l: GptLabel, bs: u64, nb: u64, i: nat, w: nat)
    requires Device(disk, bs, nb) && WellFormed(l, bs, nb)
    requires nb >= 2 && WriteLabel(disk, l).Some? && w <= 4 && i + w <= HEADER_BYTES && BesideChecksum(i, w)
    requires SameBut(WriteLabel(disk, l).value, d', Off(nb - 1, bs) + i, w) && WriteLabel(disk, l).value != d'
    ensures Probe(d', bs, nb) == Ok(FromPrimary(l))
  {
    hide WellFormed, WriteLabel, SecondaryRead, Off, HeaderOnDisk, MbrOnDisk, TableOnDisk, Probe, SameBut, TableBlocks,
      TableBytes, SecondaryBuffer, SecondaryOffset, BesideChecksum;
    Geometry(l, bs, nb);
    LabelWritten(disk, l, bs, nb);
    var d := WriteLabel(disk, l).value;
    SecondaryReadLost(d, d', l, bs, nb, i, w);
    ChangedInside(d, d', Off(nb - 1, bs) + i, w, Off(l.primary.lbaEnd + 1, bs), |disk|);
    SecondaryHeaderLost(disk, d', l, bs, nb);
  }

  lemma SecondaryReadLost(d: seq<u8>, d': seq<u8>, l: GptLabel, bs: u64, nb: u64, i: nat, w: nat)
    requires Device(d, bs, nb) && nb >= 2 && WellFormed(l, bs, nb) && HeaderOnDisk(d, l.secondary, bs)
    requires w <= 4 && i + w <= HEADER_BYTES && BesideChecksum(i, w)
    requires SameBut(d, d', Off(nb - 1, bs) + i, w) && d != d'
    ensures |d'| == |d| && SecondaryRead(d', bs, nb).Err?
  {
    hide WellFormed, HeaderOnDisk, HeaderFromSlice, Block, Off, ValidateSecondary, BesideChecksum;
    SecondaryReads(d, l, bs, nb);
    BlockChanged(d, d', bs, nb, nb - 1, i, w);
    DamageDetected(Block(d, bs, nb, nb - 1), Block(d', bs, nb, nb - 1), i, w);
  }

  lemma ChangedInside(d: seq<u8>, d': seq<u8>, k: nat, w: nat, lo: nat, hi: nat)
    requires SameBut(d, d', k, w) && lo <= k && k + w <= hi <= |d|
    ensures SameOutside(d, d', lo, hi)
  {
    SameElsewhere(d, d', k, w);
  }

  lemma BlockChanged(d: seq<u8>, d': seq<u8>, bs: u64, nb: u64, lba: nat, i: nat, w: nat)
    requires Device(d, bs, nb) && |d'| == |d| && lba < nb && i + w <= bs
    requires SameBut(d, d', Off(lba, bs) + i, w) && d != d'
    ensures SameBut(Block(d, bs, nb, lba), Block(d', bs, nb, lba), i, w)
    ensures Block(d, bs, nb, lba) != Block(d', bs, nb, lba)
  {
    hide Off;
    BlockInside(bs, nb, lba);
    var o, b, b' := Off(lba, bs), Block(d, bs, nb, lba), Block(d', bs, nb, lba);
    SameElsewhere(d, d', o + i, w);
    assert forall j :: 0 <= j < bs ==> b[j] == d[o + j] && b'[j] == d'[o + j];
    var k :| 0 <= k < |d| && d[k] != d'[k];
    assert b[k - o] != b'[k - o];
  }

  /** The primary write leaves the last block alone. */
  lemma LastBlockKept(disk: seq<u8>, l: GptLabel, bs: u64, nb: u64)
    requires Device(disk, bs, nb) && WellFormed(l, bs, nb)
    ensures var r := WritePrimary(disk, l);
            r.Some? && Block(r.value, bs, nb, nb - 1) == Block(disk, bs, nb, nb - 1)
  {
    hide EncodeHeader, EncodeEntries, EncodeMbr, WithChecksum, TableChecksum, WritePrimary, NameFits, Off, MbrOnDisk,
      TableOnDisk, HeaderOnDisk;
    Geometry(l, bs, nb);
    PrimaryWritten(disk, l, bs, nb);
    var d := WritePrimary(disk, l).value;
    var start, last := Off(l.primary.lbaStart, bs), Off(nb - 1, bs);
    SliceSlice(d, start, |d|, last - start, |d| - start);
    SliceSlice(disk, start, |d|, last - start, |d| - start);
    assert d[start..|d|] == disk[start..|d|];
  }

  /** What a primary write on its own leaves behind, on every device: without a readable secondary header in the
      last block, the label; with one that is consistent with the new primary, the label with that header; with
      one that is not, nothing that can be probed. */
  lemma PrimaryWriteAlone(disk: seq<u8>, l: GptLabel, bs: u64, nb: u64)
    requires Device(disk, bs, nb) && WellFormed(l, bs, nb)
    ensures WritePrimary(disk, l).Some?
    ensures var after, found := Probe(WritePrimary(disk, l).value, bs, nb), SecondaryRead(disk, bs, nb);
            if found.Err? then after == Ok(FromPrimary(l))
            else if ConsistencyCheck(l.primary, found.value).Ok?
            then after == Ok(l.(status := Both, secondary := found.value))
            else after == Err(InvalidLabel(ConsistencyCheck(l.primary, found.value).error))
  {
    hide WellFormed, WritePrimary, PrimaryRead, ReadSecondaryHeader, Probe, Off, MbrOnDisk, TableOnDisk, HeaderOnDisk,
      ConsistencyCheck, Block, AsPrimary, AsSecondary;
    Geometry(l, bs, nb);
    PrimaryWritten(disk, l, bs, nb);
    LastBlockKept(disk, l, bs, nb);
    var d := WritePrimary(disk, l).value;
    PrimaryReads(d, l, bs, nb);
    ReadsMbrOf(d, l, bs, nb);
    var found := SecondaryRead(disk, bs, nb);
    assert SecondaryRead(d, bs, nb) == found;
    if found.Err? {
      DerivedWellFormed(l, bs, nb);
      SameOnDisk(d, l, FromPrimary(l), bs);
      ProbesAs(d, FromPrimary(l), bs, nb, Primary);
    } else if ConsistencyCheck(l.primary, found.value).Ok? {
      ReadWellFormed(disk, l, bs, nb);
      SameOnDisk(d, l, l.(secondary := found.value), bs);
      ProbesAs(d, l.(secondary := found.value), bs, nb, Both);
    } else {
      ProbesInconsistent(d, bs, nb, l.mbr, l.primary, found.value);
    }
  }

  lemma ReadsMbrOf(d: seq<u8>, l: GptLabel, bs: u64, nb: u64)
    requires Device(d, bs, nb) && WellFormed(l, bs, nb) && MbrOnDisk(d, l)
    ensures ReadMbr(Block(d, bs, nb, 0)) == Ok(l.mbr)
  {
    hide ReadMbr, Block, TableChecksum, WithChecksum, NameFits;
    ReadsMbr(d, bs, nb, l.mbr);
  }

  lemma SameOnDisk(d: seq<u8>, l: GptLabel, l': GptLabel, bs: u64)
    requires MbrOnDisk(d, l) && TableOnDisk(d, l, l.primary.lbaTable, bs)
    requires l' == l.(status := l'.status, secondary := l'.secondary)
    ensures MbrOnDisk(d, l') && TableOnDisk(d, l', l'.primary.lbaTable, bs)
  {
  }

  /** A secondary header that was read and agrees with the primary makes a well-formed label with it. */
  lemma ReadWellFormed(disk: seq<u8>, l: GptLabel, bs: u64, nb: u64)
    requires Device(disk, bs, nb) && WellFormed(l, bs, nb) && SecondaryRead(disk, bs, nb).Ok?
    requires ConsistencyCheck(l.primary, SecondaryRead(disk, bs, nb).value).Ok?
    ensures WellFormed(l.(secondary := SecondaryRead(disk, bs, nb).value), bs, nb)
  {
    hide WithChecksum, TableChecksum, NameFits, HeaderFromSlice, Block, Readable;
    HeaderBlock(SecondaryRead(disk, bs, nb).value, Block(disk, bs, nb, nb - 1));
  }

  lemma ProbesInconsistent(d: seq<u8>, bs: u64, nb: u64, mbr: Pmbr, p: GptHeader, s: GptHeader)
    requires Device(d, bs, nb) && nb >= 2 && ReadMbr(Block(d, bs, nb, 0)) == Ok(mbr)
    requires PrimaryRead(d, bs, nb) == Ok(p) && SecondaryRead(d, bs, nb) == Ok(s) && ConsistencyCheck(p, s).Err?
    ensures Probe(d, bs, nb) == Err(InvalidLabel(ConsistencyCheck(p, s).error))
  {
    hide PrimaryRead, SecondaryRead, ReadMbr, ConsistencyCheck, Block;
  }

  /** Re-labelling a labelled device: if it is interrupted between the two writes, a label is found if and only
      if the new primary header is consistent with the old secondary one, although both copies are intact. */
  lemma InterruptedRelabel(disk: seq<u8>, l0: GptLabel, l: GptLabel, bs: u64, nb: u64)
    requires Device(disk, bs, nb) && WellFormed(l0, bs, nb) && WellFormed(l, bs, nb) && WriteLabel(disk, l0).Some?
    ensures WritePrimary(WriteLabel(disk, l0).value, l).Some?
    ensures Probe(WritePrimary(WriteLabel(disk, l0).value, l).value, bs, nb).Ok?
            <==> ConsistencyCheck(l.primary, l0.secondary).Ok?
  {
    hide WellFormed, WriteLabel, WritePrimary, Probe, SecondaryRead, ConsistencyCheck, Off, HeaderOnDisk, MbrOnDisk,
      TableOnDisk, SecondaryBuffer, SecondaryOffset;
    Geometry(l, bs, nb);
    LabelWritten(disk, l0, bs, nb);
    var d := WriteLabel(disk, l0).value;
    SecondaryReads(d, l0, bs, nb);
    PrimaryWriteAlone(d, l, bs, nb);
  }

  /** There is no fallback for the table alone: when block 1 reads as a primary header, whichever, whose table
      is unreadable, the probe fails although the secondary copy is complete; the label is recovered exactly
      when the primary header is lost as well. */
  lemma TableLossNeedsHeaderLoss(disk: seq<u8>, d': seq<u8>, l: GptLabel, bs: u64, nb: u64)
    requires Device(disk, bs, nb) && WellFormed(l, bs, nb)
    requires nb >= 2 && WriteLabel(disk, l).Some?
    requires SameOutside(WriteLabel(disk, l).value, d', Off(1, bs), Off(l.primary.lbaStart, bs))
    requires PrimaryRead(d', bs, nb).Ok? ==> ReadTable(d', PrimaryRead(d', bs, nb).value, bs).Err?
    ensures Probe(d', bs, nb) == Ok(FromSecondary(l)) <==> PrimaryRead(d', bs, nb).Err?
    ensures PrimaryRead(d', bs, nb).Ok? ==> Probe(d', bs, nb).Err?
  {
    hide WithChecksum, WriteLabel, PrimaryRead, SecondaryRead, ReadTable, NameFits, TableChecksum, Off, Probe;
    if PrimaryRead(d', bs, nb).Err? {
      PrimaryHeaderLost(disk, d', l, bs, nb);
    } else {
      PrimaryTableDecides(d', bs, nb, PrimaryRead(d', bs, nb).value);
    }
  }

  lemma PrimaryTableDecides(d: seq<u8>, bs: u64, nb: u64, p: GptHeader)
    requires Device(d, bs, nb) && nb >= 2 && PrimaryRead(d, bs, nb) == Ok(p) && ReadTable(d, p, bs).Err?
    ensures Probe(d, bs, nb).Err?
  {
    hide PrimaryRead, SecondaryRead, ReadTable, ReadMbr, WithChecksum;
  }
}
