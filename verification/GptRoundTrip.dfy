/** Writing a label and probing it back: the round trip, recovery of a lost header, and the
    placement of everything on the device. */
module GptRoundTrip {
  import opened Bytes
  import opened Arith
  import opened GptCodec
  import opened GptLabels
  import opened GptHeaderLaws

  /** A label that can be written to a device of numBlocks blocks. */
  predicate WellFormed(l: GptLabel, blockSize: u64, numBlocks: u64) {
    var p, s := l.primary, l.secondary;
    && blockSize >= 512 && numBlocks >= 1 && blockSize * numBlocks < U64_MODULUS
    && l.blockSize == blockSize
    && l.mbr.signature == PMBR_SIGNATURE && MbrMatches(l.mbr, p)
    && Readable(p) && ValidatePrimary(p, blockSize, numBlocks).Ok?
    && Readable(s) && ValidateSecondary(s, blockSize, numBlocks).Ok?
    && ConsistencyCheck(p, s).Ok?
    && p.entrySize == ENTRY_BYTES && |l.partitions| <= p.numEntries <= 128
    && p.lbaStart <= p.lbaEnd + 1
    && p.tableCrc == TableChecksum(l.partitions, p.numEntries)
    && GoodEntries(l.partitions, p)
  }

  predicate GoodEntries(es: seq<GptEntry>, h: GptHeader) {
    && AllNamesFit(es)
    && forall i :: 0 <= i < |es| ==> Used(es[i]) && ValidateEntry(es[i], h).Ok?
  }

  /** Where the pieces of a well-formed label lie, in blocks and in bytes. */
  lemma Geometry(l: GptLabel, blockSize: u64, numBlocks: u64)
    requires WellFormed(l, blockSize, numBlocks)
    ensures var p, s, bs, nb, t := l.primary, l.secondary, blockSize, numBlocks, TableBlocks(blockSize);
            && p.lbaSelf == 1 && p.lbaTable == 2 && p.lbaAlt == nb - 1
            && s.lbaSelf == nb - 1 && s.lbaTable == p.lbaEnd + 1
            && 2 + t <= p.lbaStart <= p.lbaEnd + 1 && p.lbaEnd + 1 + t <= nb - 1
            && TableBytes(p) == TableBytes(s) == ENTRY_BYTES * p.numEntries <= PARTITION_TABLE_SIZE <= Off(t, bs)
            && Off(2, bs) + Off(t, bs) <= Off(p.lbaStart, bs) <= Off(p.lbaEnd + 1, bs)
            && Off(p.lbaEnd + 1, bs) + Off(t, bs) <= Off(nb - 1, bs)
            && Off(1, bs) == bs && Off(2, bs) == 2 * bs && Off(nb - 1, bs) + bs == bs * nb
  {
    hide WithChecksum, TableChecksum, ValidateEntry, NameFits, Off, TableBlocks;
    var p, bs, nb := l.primary, blockSize, numBlocks;
    SmallBlocks(bs, nb);
    assert 2 + TableBlocks(bs) <= p.lbaStart && p.lbaEnd + 1 + TableBlocks(bs) <= nb - 1;
    BlocksToBytes(p.lbaStart, p.lbaEnd + 1, bs, nb);
  }

  lemma SmallBlocks(bs: nat, nb: nat)
    requires bs >= 512 && bs * nb < U64_MODULUS
    ensures nb < 0x80_0000_0000_0000 && TableBlocks(bs) <= PARTITION_TABLE_SIZE
  {
    MulLe(512, bs, nb);
  }

  lemma BlocksToBytes(start: nat, end: nat, bs: nat, nb: nat)
    requires bs >= 512 && 2 + TableBlocks(bs) <= start <= end && end + TableBlocks(bs) <= nb - 1
    ensures Off(2, bs) + Off(TableBlocks(bs), bs) <= Off(start, bs) <= Off(end, bs)
    ensures Off(end, bs) + Off(TableBlocks(bs), bs) <= Off(nb - 1, bs)
    ensures PARTITION_TABLE_SIZE <= Off(TableBlocks(bs), bs)
    ensures Off(1, bs) == bs && Off(2, bs) == 2 * bs && Off(nb - 1, bs) + bs == bs * nb
  {
    var t := TableBlocks(bs);
    MulLe(2 + t, start, bs);
    MulLe(start, end, bs);
    MulLe(end + t, nb - 1, bs);
  }

  // ------------------------------------------------------------------ reading

  lemma BlockSlice(disk: seq<u8>, blockSize: u64, numBlocks: u64, lba: nat, lo: nat, hi: nat)
    requires Device(disk, blockSize, numBlocks) && lba < numBlocks && lo <= hi <= blockSize
    ensures Off(lba, blockSize) + blockSize <= |disk|
    ensures Block(disk, blockSize, numBlocks, lba)[lo..hi]
            == disk[Off(lba, blockSize) + lo..Off(lba, blockSize) + hi]
  {
    hide Off;
    BlockInside(blockSize, numBlocks, lba);
    SliceSlice(disk, Off(lba, blockSize), Off(lba, blockSize) + blockSize, lo, hi);
  }

  lemma ReadsMbr(disk: seq<u8>, blockSize: u64, numBlocks: u64, m: Pmbr)
    requires Device(disk, blockSize, numBlocks) && m.signature == PMBR_SIGNATURE
    requires Holds(disk, 440, EncodeMbr(m))
    ensures ReadMbr(Block(disk, blockSize, numBlocks, 0)) == Ok(m)
  {
    hide EncodeMbr, DecodeMbr, Block;
    MbrRoundTrip(m, []);
    BlockSlice(disk, blockSize, numBlocks, 0, 440, 512);
    assert EncodeMbr(m) + [] == EncodeMbr(m);
  }

  lemma ReadsHeader(disk: seq<u8>, blockSize: u64, numBlocks: u64, lba: nat, h: GptHeader)
    requires Device(disk, blockSize, numBlocks) && lba < numBlocks && Readable(h)
    requires Holds(disk, Off(lba, blockSize), EncodeHeader(h))
    ensures HeaderFromSlice(Block(disk, blockSize, numBlocks, lba)) == Ok(h)
  {
    hide EncodeHeader, DecodeHeader, WithChecksum, Block, Off, HeaderFromSlice;
    HeaderRoundTrip(h, []);
    BlockSlice(disk, blockSize, numBlocks, lba, 0, HEADER_BYTES);
    var b := Block(disk, blockSize, numBlocks, lba);
    assert b[..HEADER_BYTES] == b[0..HEADER_BYTES];
    HeaderBlock(h, b);
  }

  lemma {:induction false} ValidateEntriesAll(es: seq<GptEntry>, h: GptHeader)
    ensures ValidateEntries(es, h).Ok? <==> forall i :: 0 <= i < |es| ==> ValidateEntry(es[i], h).Ok?
  {
    hide ValidateEntry;
    if es != [] {
      ValidateEntriesAll(es[1..], h);
      if ValidateEntries(es, h).Ok? {
        forall i | 0 <= i < |es| ensures ValidateEntry(es[i], h).Ok? {
          if i > 0 { assert es[i] == es[1..][i - 1]; }
        }
      }
    }
  }

  lemma {:induction false} RetainConcat(a: seq<GptEntry>, b: seq<GptEntry>)
    ensures Retain(a + b) == Retain(a) + Retain(b)
  {
    if a == [] {
      assert a + b == b;
    } else {
      assert (a + b)[1..] == a[1..] + b;
      RetainConcat(a[1..], b);
    }
  }

  lemma {:induction false} RetainUsed(es: seq<GptEntry>)
    requires forall i :: 0 <= i < |es| ==> Used(es[i])
    ensures Retain(es) == es
  {
    if es != [] { RetainUsed(es[1..]); }
  }

  lemma {:induction false} RetainDefaults(n: nat)
    ensures Retain(Defaults(n)) == []
  {
    if n > 0 {
      assert Defaults(n)[1..] == Defaults(n - 1);
      RetainDefaults(n - 1);
    }
  }

  /** Dropping the unused entries of a padded table leaves the list it was padded from, and padding
      that list again gives the same table and so the same checksum. */
  lemma PaddedTable(es: seq<GptEntry>, n: nat)
    requires |es| <= n && forall i :: 0 <= i < |es| ==> Used(es[i])
    ensures Retain(Padded(es, n)) == es
    ensures TableChecksum(Padded(es, n), n) == TableChecksum(es, n)
    ensures EncodeEntries(Padded(es, n)) == EncodeEntries(es) + Zeros(ENTRY_BYTES * (n - |es|))
  {
    hide EncodeEntries;
    RetainConcat(es, Defaults(n - |es|));
    RetainUsed(es);
    RetainDefaults(n - |es|);
    assert Padded(Padded(es, n), n) == Padded(es, n);
    EncodeEntriesConcat(es, Defaults(n - |es|));
    DefaultsAreZero(n - |es|);
  }

  lemma ParsesTable(es: seq<GptEntry>, h: GptHeader, b: seq<u8>, rest: seq<u8>)
    requires |es| <= h.numEntries && GoodEntries(es, h)
    requires h.tableCrc == TableChecksum(es, h.numEntries)
    requires b == EncodeEntries(Padded(es, h.numEntries)) + rest
    ensures ReadPartitions(b, h) == Ok(Padded(es, h.numEntries))
  {
    hide EncodeEntries, DecodeEntries, NameFits, TableChecksum;
    var t := Padded(es, h.numEntries);
    assert DEFAULT_ENTRY.entName == "" && NameFits("") by { DefaultEntryIsZero(); }
    EntriesRoundTripIff(t, rest);
    ValidateEntriesAll(t, h);
    PaddedTable(es, h.numEntries);
  }

  lemma TableInside(size: nat, lba: nat, bs: nat, nb: nat)
    requires bs > 0 && size <= PARTITION_TABLE_SIZE && lba + TableBlocks(bs) <= nb
    ensures size <= Off(GetBlocks(size, bs), bs)
    ensures Off(lba, bs) + Off(GetBlocks(size, bs), bs) <= bs * nb
    ensures Off(lba, bs) == lba * bs
  {
    var n := GetBlocks(size, bs);
    if n > TableBlocks(bs) { MulLe(TableBlocks(bs), n - 1, bs); }
    MulLe(lba + n, nb, bs);
  }

  /** A table of `h` that lies on the device reads back, together with its padding. */
  lemma ReadsTable(disk: seq<u8>, es: seq<GptEntry>, blockSize: u64, numBlocks: u64, h: GptHeader)
    requires Device(disk, blockSize, numBlocks)
    requires |es| <= h.numEntries && GoodEntries(es, h) && h.tableCrc == TableChecksum(es, h.numEntries)
    requires TableBytes(h) == ENTRY_BYTES * h.numEntries <= PARTITION_TABLE_SIZE
    requires h.lbaTable + TableBlocks(blockSize) <= numBlocks
    requires Holds(disk, Off(h.lbaTable, blockSize), EncodeEntries(Padded(es, h.numEntries)))
    ensures ReadTable(disk, h, blockSize) == Ok(Padded(es, h.numEntries))
  {
    hide EncodeEntries, TableChecksum, GoodEntries, ReadPartitions, Off, GetBlocks, TableBlocks, TableBytes;
    var t := Padded(es, h.numEntries);
    EncodeEntriesLength(t);
    var off := Off(h.lbaTable, blockSize);
    var len := Off(GetBlocks(TableBytes(h), blockSize), blockSize);
    TableInside(TableBytes(h), h.lbaTable, blockSize, numBlocks);
    var b := disk[off..off + len];
    assert b == EncodeEntries(t) + b[|EncodeEntries(t)|..];
    ParsesTable(es, h, b, b[|EncodeEntries(t)|..]);
  }

  // ------------------------------------------------------------------ writing

  lemma PutAtSlices(buf: seq<u8>, off: nat, bytes: seq<u8>, lo: nat, hi: nat)
    requires off + |bytes| <= |buf| && lo <= hi <= |buf|
    ensures PutAt(buf, off, bytes).Some? && Holds(PutAt(buf, off, bytes).value, off, bytes)
    ensures hi <= off || off + |bytes| <= lo ==> PutAt(buf, off, bytes).value[lo..hi] == buf[lo..hi]
  {
    var r := PutAt(buf, off, bytes).value;
    assert r[off..off + |bytes|] == bytes;
    if hi <= off || off + |bytes| <= lo { assert r[lo..hi] == buf[lo..hi]; }
  }

  /** The primary buffer holds the MBR, the header and the table, zero-padded to n entries. */
  lemma PrimaryBufferHolds(l: GptLabel, bs: u64, n: nat)
    requires bs >= 512 && l.blockSize == bs && l.primary.lbaSelf == 1 && l.primary.lbaTable == 2
    requires |l.partitions| <= n && forall i :: 0 <= i < |l.partitions| ==> Used(l.partitions[i])
    requires 2 * bs + ENTRY_BYTES * n <= Off(l.primary.lbaStart, bs) < U64_MODULUS
    ensures var r := PrimaryBuffer(l);
            && r.Some? && |r.value| == Off(l.primary.lbaStart, bs)
            && Holds(r.value, 440, EncodeMbr(l.mbr))
            && Holds(r.value, bs, EncodeHeader(l.primary))
            && Holds(r.value, 2 * bs, EncodeEntries(Padded(l.partitions, n)))
  {
    hide EncodeMbr, EncodeHeader, EncodeEntries, PutAt, ThenPutAt, Holds, Used;
    var mbr, head, es := EncodeMbr(l.mbr), EncodeHeader(l.primary), EncodeEntries(l.partitions);
    MbrRoundTrip(l.mbr, []);
    HeaderRoundTrip(l.primary, []);
    EncodeEntriesLength(l.partitions);
    PaddedTable(l.partitions, n);
    assert Off(l.primary.lbaStart, bs) == l.primary.lbaStart * bs;
    ThreePuts(Off(l.primary.lbaStart, bs), mbr, bs, head, 2 * bs, es, ENTRY_BYTES * (n - |l.partitions|));
  }

  lemma ThreePuts(len: nat, b1: seq<u8>, o2: nat, b2: seq<u8>, o3: nat, b3: seq<u8>, pad: nat)
    requires 440 + |b1| <= o2 && o2 + |b2| <= o3 && o3 + |b3| + pad <= len
    ensures var r := ThenPutAt(ThenPutAt(PutAt(Zeros(len), 440, b1), o2, b2), o3, b3);
            && r.Some? && |r.value| == len
            && Holds(r.value, 440, b1) && Holds(r.value, o2, b2) && Holds(r.value, o3, b3 + Zeros(pad))
  {
    hide PutAt;
    PutAtSlices(Zeros(len), 440, b1, o3 + |b3|, o3 + |b3| + pad);
    var r1 := PutAt(Zeros(len), 440, b1).value;
    PutAtSlices(r1, o2, b2, 440, 440 + |b1|);
    PutAtSlices(r1, o2, b2, o3 + |b3|, o3 + |b3| + pad);
    var r2 := PutAt(r1, o2, b2).value;
    PutAtSlices(r2, o3, b3, 440, 440 + |b1|);
    PutAtSlices(r2, o3, b3, o2, o2 + |b2|);
    PutAtSlices(r2, o3, b3, o3 + |b3|, o3 + |b3| + pad);
    var r3 := PutAt(r2, o3, b3).value;
    assert Zeros(len)[o3 + |b3|..o3 + |b3| + pad] == Zeros(pad);
    assert r3[o3..o3 + |b3| + pad] == r3[o3..o3 + |b3|] + r3[o3 + |b3|..o3 + |b3| + pad];
  }

  /** The secondary buffer holds the table from its start and the header in its last block. */
  lemma SecondaryBufferHolds(l: GptLabel, bs: u64, n: nat)
    requires bs >= 512 && l.blockSize == bs && l.secondary.lbaTable <= l.secondary.lbaSelf
    requires |l.partitions| <= n && forall i :: 0 <= i < |l.partitions| ==> Used(l.partitions[i])
    requires Off(l.secondary.lbaTable, bs) + ENTRY_BYTES * n <= Off(l.secondary.lbaSelf, bs)
    requires Off(l.secondary.lbaSelf, bs) + bs < U64_MODULUS
    ensures var r, before := SecondaryBuffer(l), Off(l.secondary.lbaSelf, bs) - Off(l.secondary.lbaTable, bs);
            && r.Some? && |r.value| == before + bs
            && Holds(r.value, 0, EncodeEntries(Padded(l.partitions, n)))
            && Holds(r.value, before, EncodeHeader(l.secondary))
  {
    hide EncodeHeader, EncodeEntries, PutAt, ThenPutAt, Holds, Used, Off, Mul64;
    var h := l.secondary;
    var head, es := EncodeHeader(h), EncodeEntries(l.partitions);
    HeaderRoundTrip(h, []);
    EncodeEntriesLength(l.partitions);
    PaddedTable(l.partitions, n);
    SecondaryOffsets(h.lbaSelf, h.lbaTable, bs);
    var before := Off(h.lbaSelf, bs) - Off(h.lbaTable, bs);
    TwoPuts(before + bs, es, ENTRY_BYTES * (n - |l.partitions|), before, head);
  }

  lemma SecondaryOffsets(self: u64, table: u64, bs: u64)
    requires bs > 0 && table <= self && Off(self, bs) + bs < U64_MODULUS
    ensures Mul64(Sub64(self, table), bs) == Off(self, bs) - Off(table, bs)
    ensures Mul64(Add64(Sub64(self, table), 1), bs) == Off(self, bs) - Off(table, bs) + bs
  {
    var blocks := self - table;
    assert blocks * bs == self * bs - table * bs && (blocks + 1) * bs == blocks * bs + bs;
    MulLe(1, bs, self);
    MulLe(0, table, bs);
    assert Sub64(self, table) == blocks && Add64(blocks, 1) == blocks + 1;
  }

  lemma TwoPuts(len: nat, b1: seq<u8>, pad: nat, o2: nat, b2: seq<u8>)
    requires |b1| + pad <= o2 && o2 + |b2| <= len
    ensures var r := ThenPutAt(PutAt(Zeros(len), 0, b1), o2, b2);
            && r.Some? && |r.value| == len
            && Holds(r.value, 0, b1 + Zeros(pad)) && Holds(r.value, o2, b2)
  {
    hide PutAt;
    PutAtSlices(Zeros(len), 0, b1, |b1|, |b1| + pad);
    var r1 := PutAt(Zeros(len), 0, b1).value;
    PutAtSlices(r1, o2, b2, 0, |b1| + pad);
    var r2 := PutAt(r1, o2, b2).value;
    assert Zeros(len)[|b1|..|b1| + pad] == Zeros(pad);
    assert r1[0..|b1| + pad] == r1[0..|b1|] + r1[|b1|..|b1| + pad];
  }
}
