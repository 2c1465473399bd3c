/** The step-by-step code behind the label functions: the loops over units, entries and partitions,
    the write cursor, and the probe with its early exits. Each is proved against its function. */
module GptIo {
  import opened Bytes
  import opened GptCodec
  import opened GptLabels
  import Crc

  /** visit_seq: collect units up to the first NUL, stop at the first unit behind it. */
  method VisitSeq(b: seq<u8>) returns (r: Read<seq<u16>>)
    ensures r == VisitName(b, NAME_UNITS, [], false)
  {
    var out: seq<u16>, end, rest, left := [], false, b, NAME_UNITS;
    while left > 0
      invariant 0 <= left <= NAME_UNITS
      invariant VisitName(rest, left, out, end) == VisitName(b, NAME_UNITS, [], false)
    {
      if |rest| < 2 { return Malformed; }
      var u := Unit(rest[..2]);
      rest := rest[2..];
      left := left - 1;
      if u == 0 {
        end := true;
      } else if !end {
        out := out + [u];
      } else {
        return Read(out, rest);
      }
    }
    return if end then Read(out, rest) else Malformed;
  }

  function Prepend(es: seq<GptEntry>, r: Option<seq<GptEntry>>): Option<seq<GptEntry>> {
    if r.None? then None else Some(es + r.value)
  }

  /** GptEntry::from_slice: read `count` entries one after the other. */
  method EntriesFromSlice(slice: seq<u8>, count: u32) returns (r: Option<seq<GptEntry>>)
    ensures r == DecodeEntries(slice, count)
  {
    hide DecodeEntry;
    var rest, partitions: seq<GptEntry> := slice, [];
    assert DecodeEntries(slice, count).Some?
      ==> [] + DecodeEntries(slice, count).value == DecodeEntries(slice, count).value;
    for i := 0 to count
      invariant |partitions| == i
      invariant DecodeEntries(slice, count) == Prepend(partitions, DecodeEntries(rest, count - i))
    {
      match DecodeEntry(rest) {
        case Malformed => return None;
        case Read(e, tail) =>
          ghost var more := DecodeEntries(tail, count - i - 1);
          if more.Some? { assert partitions + ([e] + more.value) == (partitions + [e]) + more.value; }
          partitions, rest := partitions + [e], tail;
      }
    }
    assert partitions + [] == partitions;
    return Some(partitions);
  }

  lemma {:induction false} EncodeEntriesSnoc(es: seq<GptEntry>, i: nat)
    requires i < |es|
    ensures EncodeEntries(es[..i + 1]) == EncodeEntries(es[..i]) + EncodeEntry(es[i])
  {
    assert es[..i + 1] == es[..i] + [es[i]];
    EncodeEntriesConcat(es[..i], [es[i]]);
    assert EncodeEntries([es[i]]) == EncodeEntry(es[i]) + EncodeEntries([]);
    assert EncodeEntry(es[i]) + [] == EncodeEntry(es[i]);
  }

  /** GptEntry::checksum: feed every entry to the digest, then the padding entries. */
  method EntryChecksum(partitions: seq<GptEntry>, size: u32) returns (crc: u32)
    ensures crc == TableChecksum(partitions, size)
  {
    hide EncodeEntry, Crc.Update, EncodeEntries;
    var digest: u32 := 0;
    ghost var all := Padded(partitions, size);
    assert Crc.Update(0, []) == 0 by { EmptyUpdate(); }
    assert EncodeEntries([]) == [] by { EmptyEntries(); }
    for i := 0 to |partitions|
      invariant digest == Crc.Update(0, EncodeEntries(all[..i]))
    {
      Crc.UpdateConcat(0, EncodeEntries(all[..i]), EncodeEntry(all[i]));
      EncodeEntriesSnoc(all, i);
      digest := Crc.Update(digest, EncodeEntry(partitions[i]));
    }
    if |partitions| < size {
      var pad := EncodeEntry(DEFAULT_ENTRY);
      for i := |partitions| to size
        invariant digest == Crc.Update(0, EncodeEntries(all[..i]))
      {
        Crc.UpdateConcat(0, EncodeEntries(all[..i]), EncodeEntry(all[i]));
        EncodeEntriesSnoc(all, i);
        digest := Crc.Update(digest, pad);
      }
    }
    assert all[..|all|] == all;
    return digest;
  }

  lemma EmptyUpdate()
    ensures Crc.Update(0, []) == 0
  {
  }

  lemma EmptyEntries()
    ensures EncodeEntries([]) == []
  {
  }

  /** validate_partitions: the first offending entry decides, the table checksum comes last. */
  method ValidatePartitionList(partitions: seq<GptEntry>, header: GptHeader) returns (r: Check)
    ensures r == ValidatePartitions(partitions, header)
  {
    hide TableChecksum;
    for i := 0 to |partitions|
      invariant ValidateEntries(partitions, header) == ValidateEntries(partitions[i..], header)
    {
      var entry := partitions[i];
      assert partitions[i..][0] == entry && partitions[i..][1..] == partitions[i + 1..];
      if 0 < entry.entStart && entry.entStart < header.lbaStart { return Err(PartitionStart); }
      if entry.entStart > entry.entEnd { return Err(NegativePartitionSize); }
      if entry.entEnd > header.lbaEnd { return Err(PartitionEnd); }
    }
    var crc := EntryChecksum(partitions, header.numEntries);
    if header.tableCrc != crc { return Err(PartitionTableChecksum); }
    return Ok(());
  }

  /** A write cursor over a fixed buffer. */
  class Cursor {
    const buf: array<u8>
    var pos: nat

    constructor (buf: array<u8>)
      ensures this.buf == buf && pos == 0
    {
      this.buf := buf;
      pos := 0;
    }

    method Seek(to: nat)
      modifies this
      ensures pos == to
    {
      pos := to;
    }

    /** Writes what fits; fails when not everything does. */
    method SerializeInto(bytes: seq<u8>) returns (ok: bool)
      modifies this, buf
      ensures ok <==> PutAt(old(buf[..]), old(pos), bytes).Some?
      ensures ok ==> PutAt(old(buf[..]), old(pos), bytes) == Some(buf[..]) && pos == old(pos) + |bytes|
    {
      ghost var was, start := buf[..], pos;
      var n := if pos >= buf.Length then 0 else if |bytes| <= buf.Length - pos then |bytes| else buf.Length - pos;
      for i := 0 to n
        invariant pos == start + i
        invariant forall k :: 0 <= k < buf.Length ==>
                    buf[k] == if start <= k < start + i then bytes[k - start] else was[k]
      {
        buf[pos] := bytes[i];
        pos := pos + 1;
      }
      ok := n == |bytes|;
      if ok && bytes != [] {
        assert buf[..] == was[..start] + bytes + was[start + |bytes|..];
      } else if ok {
        assert buf[..] == was;
      }
    }

    /** Writes a partition list entry by entry. */
    method SerializeEntries(es: seq<GptEntry>) returns (ok: bool)
      modifies this, buf
      ensures ok <==> PutAt(old(buf[..]), old(pos), EncodeEntries(es)).Some?
      ensures ok ==> PutAt(old(buf[..]), old(pos), EncodeEntries(es)) == Some(buf[..])
    {
      hide EncodeEntries, EncodeEntry, PutAt;
      ghost var was, start := buf[..], pos;
      EmptyEntries();
      PutNothing(was, start);
      for i := 0 to |es|
        invariant pos == start + ENTRY_BYTES * i
        invariant PutAt(was, start, EncodeEntries(es[..i])) == Some(buf[..])
      {
        EntryRoundTripIff(es[i], []);
        EncodeEntriesSnoc(es, i);
        EncodeEntriesLength(es[..i]);
        PutAppend(was, start, EncodeEntries(es[..i]), EncodeEntry(es[i]));
        var done := SerializeInto(EncodeEntry(es[i]));
        if !done {
          EncodeEntriesLength(es);
          EncodeEntriesLength(es[..i + 1]);
          PutTooLong(was, start, EncodeEntries(es[..i + 1]), EncodeEntries(es));
          return false;
        }
      }
      assert es[..|es|] == es;
      return true;
    }
  }

  lemma PutNothing(buf: seq<u8>, off: nat)
    ensures PutAt(buf, off, []) == Some(buf)
  {
  }

  /** Writing one piece behind another is writing both. */
  lemma PutAppend(buf: seq<u8>, off: nat, a: seq<u8>, b: seq<u8>)
    requires PutAt(buf, off, a).Some?
    ensures PutAt(buf, off, a + b) == PutAt(PutAt(buf, off, a).value, off + |a|, b)
  {
    var r := PutAt(buf, off, a).value;
    if a == [] {
      assert a + b == b;
    } else if b == [] {
      assert a + b == a;
    } else if off + |a + b| <= |buf| {
      assert buf[..off] + (a + b) + buf[off + |a + b|..]
          == r[..off + |a|] + b + r[off + |a| + |b|..];
    }
  }

  lemma PutTooLong(buf: seq<u8>, off: nat, a: seq<u8>, b: seq<u8>)
    requires PutAt(buf, off, a).None? && |a| <= |b|
    ensures PutAt(buf, off, b).None?
  {
  }

  /** primary_data: MBR at byte 440, header at its block, table at its block. */
  method PrimaryData(lbl: GptLabel) returns (r: Option<array<u8>>)
    ensures r.Some? <==> PrimaryBuffer(lbl).Some?
    ensures r.Some? ==> fresh(r.value) && r.value[..] == PrimaryBuffer(lbl).value
  {
    hide EncodeEntries, EncodeHeader, EncodeMbr, PutAt, Mul64;
    var buf := new u8[Mul64(lbl.primary.lbaStart, lbl.blockSize)](_ => 0);
    assert buf[..] == Zeros(Mul64(lbl.primary.lbaStart, lbl.blockSize));
    var writer := new Cursor(buf);
    writer.Seek(440);
    var ok := writer.SerializeInto(EncodeMbr(lbl.mbr));
    if !ok { return None; }
    writer.Seek(Mul64(lbl.primary.lbaSelf, lbl.blockSize));
    ok := writer.SerializeInto(EncodeHeader(lbl.primary));
    if !ok { return None; }
    writer.Seek(Mul64(lbl.primary.lbaTable, lbl.blockSize));
    ok := writer.SerializeEntries(lbl.partitions);
    if !ok { return None; }
    return Some(buf);
  }

  /** secondary_data: the table from the front, the header in the last block. */
  method SecondaryData(lbl: GptLabel) returns (r: Option<array<u8>>, offset: u64)
    ensures r.Some? <==> SecondaryBuffer(lbl).Some?
    ensures r.Some? ==> fresh(r.value) && r.value[..] == SecondaryBuffer(lbl).value && offset == SecondaryOffset(lbl)
  {
    hide EncodeEntries, EncodeHeader, PutAt, Mul64;
    offset := SecondaryOffset(lbl);
    var before := Sub64(lbl.secondary.lbaSelf, lbl.secondary.lbaTable);
    var len := Mul64(Add64(before, 1), lbl.blockSize);
    var buf := new u8[len](_ => 0);
    assert buf[..] == Zeros(len);
    var writer := new Cursor(buf);
    var ok := writer.SerializeEntries(lbl.partitions);
    if !ok { return None, offset; }
    writer.Seek(Mul64(before, lbl.blockSize));
    ok := writer.SerializeInto(EncodeHeader(lbl.secondary));
    if !ok { return None, offset; }
    return Some(buf), offset;
  }

  /** probe_label: read the blocks in order and leave at the first failure. */
  method ProbeLabel(disk: seq<u8>, blockSize: u64, numBlocks: u64) returns (r: Result<GptLabel, LabelError>)
    requires Device(disk, blockSize, numBlocks)
    ensures r == Probe(disk, blockSize, numBlocks)
  {
    hide HeaderFromSlice, ValidatePrimary, ValidateSecondary, WithChecksum, DecodeEntries, ValidatePartitions,
      ReadMbr, DecodeMbr, Mul64, TableChecksum, Block, ReadPrimaryHeader, ReadSecondaryHeader, GetBlocks;
    var mbr := ReadMbr(Block(disk, blockSize, numBlocks, 0));
    if mbr.Err? { return Err(InvalidLabel(mbr.error)); }
    if numBlocks < 2 { return Err(ReadError); }

    var status, primary, secondary, active;
    var p := ReadPrimaryHeader(Block(disk, blockSize, numBlocks, 1), blockSize, numBlocks);
    var s := ReadSecondaryHeader(Block(disk, blockSize, numBlocks, numBlocks - 1), blockSize, numBlocks);
    if p.Ok? {
      primary, active := p.value, p.value;
      if s.Ok? {
        var c := ConsistencyCheck(primary, s.value);
        if c.Err? { return Err(InvalidLabel(c.error)); }
        secondary, status := s.value, Both;
      } else {
        secondary, status := AsSecondary(primary), Primary;
      }
    } else if s.Ok? {
      secondary, active := s.value, s.value;
      primary, status := AsPrimary(secondary), Secondary;
    } else {
      return Err(InvalidLabel(p.error));
    }

    if mbr.value.entries[0].numSectors != U32_MAX && mbr.value.entries[0].numSectors != primary.lbaAlt {
      return Err(InvalidLabel(MbrSize));
    }

    var blocks := GetBlocks(TableBytes(active), blockSize);
    var buf := ReadAt(disk, Mul64(active.lbaTable, blockSize), Off(blocks, blockSize));
    if buf.None? { return Err(ReadError); }
    var partitions := EntriesFromSlice(buf.value, active.numEntries);
    if partitions.None? { return Err(InvalidLabel(Deserialize)); }
    var check := ValidatePartitionList(partitions.value, active);
    if check.Err? { return Err(InvalidLabel(check.error)); }
    return Ok(GptLabel(status, blockSize, mbr.value, primary, Retain(partitions.value), secondary));
  }
}
