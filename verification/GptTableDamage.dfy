/** Which damage to a table on a labelled disk the probe notices, and which it does not. */
module GptTableDamage {
  import opened Bytes
  import opened GptCodec
  import opened GptLabels
  import opened GptHeaderLaws
  import opened GptRoundTrip
  import opened GptTheorems
  import opened GptTable
  import Crc
  import Utf16

  // ---------------------------------------------------------- reading the table

  /** The stretch of the disk that is read for the table of the primary header. */
  function TableLen(l: GptLabel, bs: u64): nat
    requires bs > 0
  {
    Off(GetBlocks(TableBytes(l.primary), bs), bs)
  }

  lemma TableRead(d: seq<u8>, l: GptLabel, bs: u64, nb: u64)
    requires Device(d, bs, nb) && WellFormed(l, bs, nb)
    ensures ENTRY_BYTES * l.primary.numEntries <= TableLen(l, bs) && Off(2, bs) + TableLen(l, bs) <= |d|
    ensures var r := ReadPartitions(d[Off(2, bs)..Off(2, bs) + TableLen(l, bs)], l.primary);
            ReadTable(d, l.primary, bs) == if r.Ok? then Ok(r.value) else Err(InvalidLabel(r.error))
  {
    hide WellFormed, ReadPartitions, Off, GetBlocks, TableBlocks, TableBytes;
    Geometry(l, bs, nb);
    TableInside(TableBytes(l.primary), 2, bs, nb);
  }

  /** The bytes of the table on a labelled disk, and of what the disk became. */
  function Table(d: seq<u8>, l: GptLabel, bs: u64): seq<u8>
    requires bs > 0 && Off(2, bs) + ENTRY_BYTES * l.primary.numEntries <= |d|
  {
    d[Off(2, bs)..Off(2, bs) + ENTRY_BYTES * l.primary.numEntries]
  }

  /** A labelled disk whose primary table was changed in w bytes from byte k of the table on. */
  predicate Damaged(disk: seq<u8>, d': seq<u8>, l: GptLabel, bs: u64, nb: u64, k: nat, w: nat) {
    && Device(disk, bs, nb) && WellFormed(l, bs, nb) && WriteLabel(disk, l).Some?
    && k + w <= ENTRY_BYTES * l.primary.numEntries
    && SameBut(WriteLabel(disk, l).value, d', Off(2, bs) + k, w) && WriteLabel(disk, l).value != d'
  }

  lemma DamagedTable(disk: seq<u8>, d': seq<u8>, l: GptLabel, bs: u64, nb: u64, k: nat, w: nat)
    requires Damaged(disk, d', l, bs, nb, k, w)
    ensures Device(d', bs, nb) && nb >= 2 && Off(2, bs) + ENTRY_BYTES * l.primary.numEntries <= |d'|
    ensures var t, t' := EncodeEntries(Padded(l.partitions, l.primary.numEntries)), Table(d', l, bs);
            |t| == ENTRY_BYTES * l.primary.numEntries && SameBut(t, t', k, w) && t != t'
  {
    hide WellFormed, WriteLabel, EncodeEntries, EncodeMbr, EncodeHeader, Padded, Off, TableBlocks, TableBytes,
      SecondaryBuffer, SecondaryOffset;
    Geometry(l, bs, nb);
    LabelWritten(disk, l, bs, nb);
    TableLength(l, bs, nb);
    Window(WriteLabel(disk, l).value, d', Off(2, bs), ENTRY_BYTES * l.primary.numEntries, k, w);
  }

  lemma Window(d: seq<u8>, d': seq<u8>, o: nat, len: nat, k: nat, w: nat)
    requires SameBut(d, d', o + k, w) && d != d' && k + w <= len && o + len <= |d|
    ensures SameBut(d[o..o + len], d'[o..o + len], k, w) && d[o..o + len] != d'[o..o + len]
  {
    SameElsewhere(d, d', o + k, w);
    var b, b' := d[o..o + len], d'[o..o + len];
    assert forall j :: 0 <= j < len ==> b[j] == d[o + j] && b'[j] == d'[o + j];
    var x :| 0 <= x < |d| && d[x] != d'[x];
    assert b[x - o] != b'[x - o];
  }

  /** The headers and the MBR are not affected. */
  lemma DamagedRest(disk: seq<u8>, d': seq<u8>, l: GptLabel, bs: u64, nb: u64, k: nat, w: nat)
    requires Damaged(disk, d', l, bs, nb, k, w)
    ensures Device(d', bs, nb) && nb >= 2
    ensures ReadMbr(Block(d', bs, nb, 0)) == Ok(l.mbr)
    ensures PrimaryRead(d', bs, nb) == Ok(l.primary) && SecondaryRead(d', bs, nb) == Ok(l.secondary)
  {
    hide WellFormed, WriteLabel, EncodeEntries, EncodeMbr, EncodeHeader, Padded, Off, TableBlocks, TableBytes, Holds,
      SecondaryBuffer, SecondaryOffset, PrimaryRead, SecondaryRead, ReadMbr, Block;
    Geometry(l, bs, nb);
    LabelWritten(disk, l, bs, nb);
    var d := WriteLabel(disk, l).value;
    MbrRoundTrip(l.mbr, []);
    HeaderRoundTrip(l.primary, []);
    HeaderRoundTrip(l.secondary, []);
    ChangedInside(d, d', Off(2, bs) + k, w, Off(2, bs), Off(l.primary.lbaStart, bs));
    HoldsBefore(d, d', Off(2, bs), 440, EncodeMbr(l.mbr));
    HoldsBefore(d, d', Off(2, bs), Off(1, bs), EncodeHeader(l.primary));
    HoldsBehind(d, d', Off(l.primary.lbaStart, bs), Off(nb - 1, bs), EncodeHeader(l.secondary));
    ReadsMbrOf(d', l, bs, nb);
    PrimaryReads(d', l, bs, nb);
    SecondaryReads(d', l, bs, nb);
  }

  // ------------------------------------------------------------- what is noticed

  /** Entries with another encoding within four bytes do not pass for the table's. */
  lemma ChecksumApart(es: seq<GptEntry>, l: GptLabel, bs: u64, nb: u64, k: nat, w: nat)
    requires WellFormed(l, bs, nb) && |es| == l.primary.numEntries && w <= 4
    requires var t := EncodeEntries(Padded(l.partitions, l.primary.numEntries));
             SameBut(t, EncodeEntries(es), k, w) && t != EncodeEntries(es)
    ensures ValidatePartitions(es, l.primary).Err?
  {
    hide EncodeEntries, WithChecksum, NameFits, ValidateEntries, Crc.Update;
    assert Padded(es, l.primary.numEntries) == es;
    Crc.BurstDetected(0, EncodeEntries(Padded(l.partitions, l.primary.numEntries)), EncodeEntries(es), k, w);
  }

  /** Whatever change of up to four consecutive bytes the primary table suffers: if it leaves all names clean, the
      probe notices it and fails, although the backup copy is intact. */
  lemma TableDamageNoticed(disk: seq<u8>, d': seq<u8>, l: GptLabel, bs: u64, nb: u64, k: nat, w: nat)
    requires Damaged(disk, d', l, bs, nb, k, w) && w <= 4
    requires Off(2, bs) + ENTRY_BYTES * l.primary.numEntries <= |d'|
    requires CleanTable(Table(d', l, bs), l.primary.numEntries)
    ensures Device(d', bs, nb) && nb >= 2 && PrimaryRead(d', bs, nb) == Ok(l.primary)
    ensures ReadTable(d', l.primary, bs).Err? && Probe(d', bs, nb).Err?
  {
    hide WellFormed, WriteLabel, EncodeEntries, DecodeEntries, Padded, Off, Holds, PrimaryRead, SecondaryRead,
      ReadTable, Probe, CleanTable, SameBut, ValidatePartitions, TableBytes, GetBlocks, TableLen, Damaged, Device;
    var n := l.primary.numEntries;
    DamagedGives(disk, d', l, bs, nb, k, w);
    DamagedTable(disk, d', l, bs, nb, k, w);
    DamagedRest(disk, d', l, bs, nb, k, w);
    TableRead(d', l, bs, nb);
    var b, t' := d'[Off(2, bs)..Off(2, bs) + TableLen(l, bs)], Table(d', l, bs);
    assert b == t' + b[ENTRY_BYTES * n..] && b[..ENTRY_BYTES * n] == t';
    CleanPrefix(t', b[ENTRY_BYTES * n..], n);
    EntriesReencodeIff(b, n);
    CountRead(b, n);
    ChecksumApart(DecodeEntries(b, n).value, l, bs, nb, k, w);
    PrimaryTableDecides(d', bs, nb, l.primary);
  }

  lemma DamagedGives(disk: seq<u8>, d': seq<u8>, l: GptLabel, bs: u64, nb: u64, k: nat, w: nat)
    requires Damaged(disk, d', l, bs, nb, k, w)
    ensures WellFormed(l, bs, nb) && bs > 0
  {
    hide WellFormed;
  }

  lemma PaddedNamesFit(l: GptLabel, bs: u64, nb: u64)
    requires WellFormed(l, bs, nb)
    ensures AllNamesFit(Padded(l.partitions, l.primary.numEntries))
    ensures |Padded(l.partitions, l.primary.numEntries)| == l.primary.numEntries
    ensures |l.partitions| <= l.primary.numEntries
  {
    hide WithChecksum, TableChecksum, NameFits, Padded, TableBytes, TableBlocks;
    PaddedFit(l.partitions, l.primary.numEntries);
  }

  lemma PaddedFit(ps: seq<GptEntry>, n: nat)
    requires AllNamesFit(ps) && |ps| <= n
    ensures AllNamesFit(Padded(ps, n)) && |Padded(ps, n)| == n
  {
    hide NameFits, EncodeEntry;
    DefaultEntryIsZero();
    var p := Padded(ps, n);
    forall i | 0 <= i < |p| ensures NameFits(p[i].entName) {
      assert p[i] == if i < |ps| then ps[i] else DEFAULT_ENTRY;
    }
  }

  /** A change in the fixed fields of a slot leaves the names alone. */
  lemma NamesKept(t: seq<u8>, t': seq<u8>, n: nat, i: nat, o: nat, w: nat)
    requires |t| == ENTRY_BYTES * n && i < n && o + w <= 56 && SameBut(t, t', ENTRY_BYTES * i + o, w)
    requires CleanTable(t, n)
    ensures CleanTable(t', n)
  {
    hide CleanTable, CleanUnits, Units;
    SameElsewhere(t, t', ENTRY_BYTES * i + o, w);
    CleanSlots(t, n);
    CleanSlots(t', n);
    forall j | 0 <= j < n ensures CleanSlot(Slot(t', j)) {
      assert CleanSlot(Slot(t, j));
      assert Slot(t', j)[56..] == Slot(t, j)[56..];
    }
  }

  /** So every change of up to four consecutive bytes in the fixed fields of any slot, used or not, is noticed. */
  lemma FixedFieldsNoticed(disk: seq<u8>, d': seq<u8>, l: GptLabel, bs: u64, nb: u64, i: nat, o: nat, w: nat)
    requires Damaged(disk, d', l, bs, nb, ENTRY_BYTES * i + o, w) && i < l.primary.numEntries && o + w <= 56 && w <= 4
    ensures Device(d', bs, nb) && nb >= 2 && PrimaryRead(d', bs, nb) == Ok(l.primary)
    ensures ReadTable(d', l.primary, bs).Err? && Probe(d', bs, nb).Err?
  {
    hide WellFormed, Padded, EncodeEntries, CleanTable, Damaged, SameBut, Table, Device, PrimaryRead, ReadTable,
      Probe, Off;
    var n, k := l.primary.numEntries, ENTRY_BYTES * i + o;
    DamagedGives(disk, d', l, bs, nb, k, w);
    DamagedTable(disk, d', l, bs, nb, k, w);
    PaddedNamesFit(l, bs, nb);
    WrittenIsClean(Padded(l.partitions, n));
    NamesKept(EncodeEntries(Padded(l.partitions, n)), Table(d', l, bs), n, i, o, w);
    TableDamageNoticed(disk, d', l, bs, nb, k, w);
  }

  // ---------------------------------------------------------- what is not noticed

  lemma {:induction false} UnitBytesUpdate(us: seq<u16>, p: nat, v: u8) returns (u: u16)
    requires p < 2 * |us|
    ensures UnitBytes(us)[p := v] == UnitBytes(us[p / 2 := u])
    ensures us[p / 2] == 0 && v != 0 ==> u != 0
  {
    hide FromLE, Pow256;
    Pow256Values();
    var head, tail := ToLE(us[0], 2), UnitBytes(us[1..]);
    assert UnitBytes(us) == head + tail;
    if p < 2 {
      var b := head[p := v];
      ToFromLE(b);
      u := FromLE(b);
      assert UnitBytes(us)[p := v] == b + tail;
      assert us[0 := u][1..] == us[1..];
      assert ToLE(u, 2)[p] == v;
      if us[0] == 0 && v != 0 && u == 0 {
        ZeroLE(2);
        assert false;
      }
    } else {
      u := UnitBytesUpdate(us[1..], p - 2, v);
      assert UnitBytes(us)[p := v] == head + tail[p - 2 := v];
      assert us[p / 2 := u][1..] == us[1..][(p - 2) / 2 := u];
    }
  }

  lemma {:induction false} NulRunIs(us: seq<u16>, m: nat)
    requires m < |us| && us[m] != 0 && forall j :: 0 <= j < m ==> us[j] == 0
    ensures NulRun(us) == m
  {
    if m > 0 { NulRunIs(us[1..], m - 1); }
  }

  /** A byte changed behind the NUL that ends a name: the name reads the same, and the rest of it stays in the
      stream. */
  lemma SpoiltName(name: string, p: nat, v: u8, rest: seq<u8>)
    requires NameFits(name) && 2 * (|Utf16.Encode(name)| + 1) <= p < 2 * NAME_UNITS && v != 0
    ensures DecodeName(EncodeName(name)[p := v] + rest) == Read(name, Zeros(2 * NAME_UNITS - 2 * (p / 2 + 1)) + rest)
  {
    hide UnitBytes, Utf16.Encode, Utf16.DecodeLossy, TextRun, NulRun, DecodeName;
    var us, full, j := NameUnits(name), Utf16.Encode(name), p / 2;
    var n := |full|;
    var u := UnitBytesUpdate(us, p, v);
    var us' := us[j := u];
    NameMeaning(us', rest);
    Utf16.EncodeNul(name);
    Utf16.DecodeEncode(name);
    assert us'[..n] == full;
    TextRunAt(us', n);
    NulRunIs(us'[n..], j - n);
    ZeroUnits(us'[j + 1..]);
  }

  lemma SpoiltSlot(e: GptEntry, o: nat, v: u8, rest: seq<u8>)
    requires NameFits(e.entName) && 58 + 2 * |Utf16.Encode(e.entName)| <= o < ENTRY_BYTES && v != 0
    ensures |EncodeEntry(e)| == ENTRY_BYTES
    ensures DecodeEntry(EncodeEntry(e)[o := v] + rest) == Read(e, Zeros(ENTRY_BYTES - 58 - 2 * ((o - 56) / 2)) + rest)
  {
    hide PutAll, GetAll, AllFit, Size, EntryFields, EntryOf, EncodeName, DecodeName, NameFits, Utf16.Encode;
    EntrySize();
    EntryOfFields(e);
    var fixed, name := PutAll(ENTRY_LAYOUT, EntryFields(e)), EncodeName(e.entName);
    var tail := name[o - 56 := v] + rest;
    assert EncodeEntry(e)[o := v] + rest == fixed + tail;
    GetAllPutAll(ENTRY_LAYOUT, EntryFields(e), tail);
    SpoiltName(e.entName, o - 56, v, rest);
  }

  lemma {:induction false} DecodePrefix(es: seq<GptEntry>, rest: seq<u8>, m: nat)
    requires AllNamesFit(es) && DecodeEntries(rest, m).Some?
    ensures DecodeEntries(EncodeEntries(es) + rest, |es| + m) == Some(es + DecodeEntries(rest, m).value)
  {
    hide EncodeEntry, DecodeEntry, NameFits;
    if es == [] {
      assert EncodeEntries(es) + rest == rest;
      assert es + DecodeEntries(rest, m).value == DecodeEntries(rest, m).value;
    } else {
      var tail := EncodeEntries(es[1..]) + rest;
      assert EncodeEntries(es) + rest == EncodeEntry(es[0]) + tail;
      EntryRoundTripIff(es[0], tail);
      DecodePrefix(es[1..], rest, m);
      FirstEntry(EncodeEntries(es) + rest, |es| - 1 + m, es[0], tail);
      var more := DecodeEntries(rest, m).value;
      assert es + more == [es[0]] + (es[1..] + more);
    }
  }

  lemma ZerosDecode(m: nat, rest: seq<u8>)
    ensures DecodeEntries(Zeros(ENTRY_BYTES * m) + rest, m) == Some(Defaults(m))
  {
    hide EncodeEntries, DecodeEntries, NameFits;
    DefaultsAreZero(m);
    DefaultEntryIsZero();
    EntriesRoundTripIff(Defaults(m), rest);
  }

  lemma ZerosSwap(a: nat, b: nat, rest: seq<u8>)
    ensures Zeros(a) + (Zeros(b) + rest) == Zeros(b) + (Zeros(a) + rest)
  {
  }

  lemma FirstEntry(b: seq<u8>, m: nat, e: GptEntry, rest: seq<u8>)
    requires DecodeEntry(b) == Read(e, rest) && DecodeEntries(rest, m).Some?
    ensures DecodeEntries(b, m + 1) == Some([e] + DecodeEntries(rest, m).value)
  {
    hide DecodeEntry;
  }

  /** With only unused slots behind the spoilt one, the whole table reads the same. */
  lemma SpoiltTable(pre: seq<GptEntry>, e: GptEntry, o: nat, v: u8, m: nat, rest: seq<u8>)
    requires AllNamesFit(pre) && NameFits(e.entName) && 58 + 2 * |Utf16.Encode(e.entName)| <= o < ENTRY_BYTES && v != 0
    requires |EncodeEntry(e)| == ENTRY_BYTES
    ensures var b := EncodeEntries(pre) + (EncodeEntry(e)[o := v] + (Zeros(ENTRY_BYTES * m) + rest));
            DecodeEntries(b, |pre| + (m + 1)) == Some(pre + ([e] + Defaults(m)))
  {
    hide EncodeEntry, DecodeEntry, EncodeEntries, DecodeEntries, NameFits, Utf16.Encode, AllNamesFit;
    var after := Zeros(ENTRY_BYTES * m) + rest;
    var left := ENTRY_BYTES - 58 - 2 * ((o - 56) / 2);
    SpoiltSlot(e, o, v, after);
    ZerosSwap(left, ENTRY_BYTES * m, rest);
    ZerosDecode(m, Zeros(left) + rest);
    FirstEntry(EncodeEntry(e)[o := v] + after, m, e, Zeros(left) + after);
    DecodePrefix(pre, EncodeEntry(e)[o := v] + after, m + 1);
  }

  lemma {:induction false} SplitTable(es: seq<GptEntry>, i: nat)
    requires i < |es|
    ensures |EncodeEntries(es[..i])| == ENTRY_BYTES * i && |EncodeEntry(es[i])| == ENTRY_BYTES
    ensures EncodeEntries(es) == EncodeEntries(es[..i]) + (EncodeEntry(es[i]) + EncodeEntries(es[i + 1..]))
  {
    hide EncodeEntry;
    EncodeEntriesLength(es[..i]);
    EntryRoundTripIff(es[i], []);
    assert es == es[..i] + es[i..] && es[i..][1..] == es[i + 1..];
    EncodeEntriesConcat(es[..i], es[i..]);
  }

  /** The table of ps with one byte of slot i changed, where all slots behind are unused. */
  lemma SpoiltBytes(ps: seq<GptEntry>, n: nat, i: nat, o: nat, t': seq<u8>)
    requires |ps| <= n && |ps| <= i + 1 && i < n && o < ENTRY_BYTES
    requires SameBut(EncodeEntries(Padded(ps, n)), t', ENTRY_BYTES * i + o, 1) && EncodeEntries(Padded(ps, n)) != t'
    ensures |Padded(ps, n)| == n && |EncodeEntry(Padded(ps, n)[i])| == ENTRY_BYTES && ENTRY_BYTES * i + o < |t'|
    ensures var pre, e, v := Padded(ps, n)[..i], Padded(ps, n)[i], t'[ENTRY_BYTES * i + o];
            && t' == EncodeEntries(pre) + (EncodeEntry(e)[o := v] + Zeros(ENTRY_BYTES * (n - i - 1)))
            && v != EncodeEntry(e)[o] && Padded(ps, n) == pre + ([e] + Defaults(n - i - 1))
  {
    hide EncodeEntry, EncodeEntries;
    var all := Padded(ps, n);
    var k, t, e := ENTRY_BYTES * i + o, EncodeEntries(all), all[i];
    SplitTable(all, i);
    assert all[i + 1..] == Defaults(n - i - 1);
    DefaultsAreZero(n - i - 1);
    assert t[k] == EncodeEntry(e)[o];
    OneByte(t, t', k);
    assert t[k := t'[k]] == EncodeEntries(all[..i]) + (EncodeEntry(e)[o := t'[k]] + Zeros(ENTRY_BYTES * (n - i - 1)));
  }

  lemma OneByte(t: seq<u8>, t': seq<u8>, k: nat)
    requires SameBut(t, t', k, 1) && t != t'
    ensures t' == t[k := t'[k]] && t'[k] != t[k]
  {
    SameElsewhere(t, t', k, 1);
  }

  lemma {:induction false} UnitByteZero(us: seq<u16>, p: nat)
    requires p < 2 * |us| && us[p / 2] == 0
    ensures UnitBytes(us)[p] == 0
  {
    if p < 2 {
      ZeroLE(2);
    } else {
      UnitByteZero(us[1..], p - 2);
    }
  }

  /** Behind its text a name is written as zeroes. */
  lemma PaddingIsZero(e: GptEntry, o: nat)
    requires NameFits(e.entName) && 56 + 2 * |Utf16.Encode(e.entName)| <= o < ENTRY_BYTES
    ensures |EncodeEntry(e)| == ENTRY_BYTES && EncodeEntry(e)[o] == 0
  {
    hide PutAll, UnitBytes, Utf16.Encode, EntryFields, Size;
    EntrySize();
    UnitByteZero(NameUnits(e.entName), o - 56);
  }

  /** The table of a well-formed label passes the checks of its own header. */
  lemma PaddedValid(l: GptLabel, bs: u64, nb: u64)
    requires WellFormed(l, bs, nb)
    ensures ValidatePartitions(Padded(l.partitions, l.primary.numEntries), l.primary).Ok?
  {
    hide WithChecksum, TableChecksum, NameFits, EncodeEntries, DecodeEntries, TableBytes, TableBlocks,
      ValidatePartitions, Padded;
    var t := EncodeEntries(Padded(l.partitions, l.primary.numEntries));
    assert t + [] == t;
    ParsesTable(l.partitions, l.primary, t, []);
  }

  lemma ProbesBoth(d: seq<u8>, bs: u64, nb: u64, mbr: Pmbr, p: GptHeader, s: GptHeader, es: seq<GptEntry>)
    requires Device(d, bs, nb) && nb >= 2 && ReadMbr(Block(d, bs, nb, 0)) == Ok(mbr) && MbrMatches(mbr, p)
    requires PrimaryRead(d, bs, nb) == Ok(p) && SecondaryRead(d, bs, nb) == Ok(s) && ConsistencyCheck(p, s).Ok?
    requires ReadTable(d, p, bs) == Ok(es)
    ensures Probe(d, bs, nb) == Ok(GptLabel(Both, bs, mbr, p, Retain(es), s))
  {
    hide ReadMbr, Block, PrimaryRead, SecondaryRead, ReadTable, MbrMatches, ConsistencyCheck, Retain;
  }

  /** A disk whose blocks yield a label's headers and whose table yields its entries probes as the label. */
  lemma ProbesTable(d: seq<u8>, l: GptLabel, bs: u64, nb: u64)
    requires Device(d, bs, nb) && nb >= 2 && WellFormed(l, bs, nb) && ReadMbr(Block(d, bs, nb, 0)) == Ok(l.mbr)
    requires PrimaryRead(d, bs, nb) == Ok(l.primary) && SecondaryRead(d, bs, nb) == Ok(l.secondary)
    requires ReadTable(d, l.primary, bs) == Ok(Padded(l.partitions, l.primary.numEntries))
    ensures Probe(d, bs, nb) == Ok(l.(status := Both))
  {
    hide Device, Probe, ReadMbr, Block, PrimaryRead, SecondaryRead, ReadTable, WithChecksum, TableChecksum, NameFits,
      TableBytes, TableBlocks, Padded, Retain, EncodeEntries;
    PaddedTable(l.partitions, l.primary.numEntries);
    ProbesBoth(d, bs, nb, l.mbr, l.primary, l.secondary, Padded(l.partitions, l.primary.numEntries));
  }

  /** Bytes that decode to these entries, whatever stands behind them. */
  ghost predicate ReadsAs(t: seq<u8>, n: nat, es: seq<GptEntry>) {
    forall rest :: DecodeEntries(t + rest, n) == Some(es)
  }

  /** Whatever entries the bytes on the disk decode to, the table reads as these if they pass the checks. */
  lemma TableReadsAs(d: seq<u8>, l: GptLabel, bs: u64, nb: u64, es: seq<GptEntry>)
    requires Device(d, bs, nb) && WellFormed(l, bs, nb) && Off(2, bs) + ENTRY_BYTES * l.primary.numEntries <= |d|
    requires ReadsAs(Table(d, l, bs), l.primary.numEntries, es)
    ensures ReadTable(d, l.primary, bs)
            == if ValidatePartitions(es, l.primary).Ok? then Ok(es)
               else Err(InvalidLabel(ValidatePartitions(es, l.primary).error))
  {
    hide WellFormed, Off, ReadTable, ReadPartitions, ReadsAs, ValidatePartitions, TableBytes, GetBlocks, TableLen;
    TableRead(d, l, bs, nb);
    Halves(d, Off(2, bs), ENTRY_BYTES * l.primary.numEntries, TableLen(l, bs));
    var o, n := Off(2, bs), ENTRY_BYTES * l.primary.numEntries;
    PartitionsReadAs(Table(d, l, bs), d[o + n..o + TableLen(l, bs)], l.primary, es);
  }

  lemma PartitionsReadAs(t: seq<u8>, rest: seq<u8>, h: GptHeader, es: seq<GptEntry>)
    requires ReadsAs(t, h.numEntries, es)
    ensures ReadPartitions(t + rest, h)
            == if ValidatePartitions(es, h).Ok? then Ok(es) else Err(ValidatePartitions(es, h).error)
  {
    hide ValidatePartitions, DecodeEntries;
  }

  lemma Halves(d: seq<u8>, o: nat, n: nat, m: nat)
    requires n <= m && o + m <= |d|
    ensures d[o..o + m] == d[o..o + n] + d[o + n..o + m]
  {
  }

  /** On every labelled disk: changing any byte behind the NUL that ends the name of a slot, with only unused slots
      behind it, changes nothing the probe sees, although the bytes of the table no longer have the header's
      checksum. */
  lemma PaddingUnnoticed(disk: seq<u8>, d': seq<u8>, l: GptLabel, bs: u64, nb: u64, i: nat, o: nat)
    requires |l.partitions| <= i + 1 && i < l.primary.numEntries
    requires |Padded(l.partitions, l.primary.numEntries)| == l.primary.numEntries
    requires 58 + 2 * |Utf16.Encode(Padded(l.partitions, l.primary.numEntries)[i].entName)| <= o < ENTRY_BYTES
    requires Damaged(disk, d', l, bs, nb, ENTRY_BYTES * i + o, 1)
    ensures Device(d', bs, nb) && Probe(d', bs, nb) == Ok(l.(status := Both))
    ensures Off(2, bs) + ENTRY_BYTES * l.primary.numEntries <= |d'|
    ensures Crc.ChecksumIeee(Table(d', l, bs)) != l.primary.tableCrc
  {
    hide WellFormed, Padded, EncodeEntries, EncodeEntry, DecodeEntries, Damaged, SameBut, Table, Device, PrimaryRead,
      SecondaryRead, ReadTable, Probe, Off, ValidatePartitions, ReadMbr, Block, Utf16.Encode, NameFits, Crc.Update;
    var n, k := l.primary.numEntries, ENTRY_BYTES * i + o;
    var all := Padded(l.partitions, n);
    DamagedGives(disk, d', l, bs, nb, k, 1);
    DamagedTable(disk, d', l, bs, nb, k, 1);
    DamagedRest(disk, d', l, bs, nb, k, 1);
    PaddedNamesFit(l, bs, nb);
    var t' := Table(d', l, bs);
    SpoiltBytes(l.partitions, n, i, o, t');
    PaddingIsZero(all[i], o);
    forall rest: seq<u8> ensures DecodeEntries(t' + rest, n) == Some(all) {
      SpoiltTable(all[..i], all[i], o, t'[k], n - i - 1, rest);
      Regroup(EncodeEntries(all[..i]), EncodeEntry(all[i])[o := t'[k]], Zeros(ENTRY_BYTES * (n - i - 1)), rest);
    }
    TableReadsAs(d', l, bs, nb, all);
    PaddedValid(l, bs, nb);
    ProbesTable(d', l, bs, nb);
    Crc.BurstDetected(0, EncodeEntries(all), t', k, 1);
    TableCrc(l, bs, nb);
  }

  lemma Regroup(a: seq<u8>, b: seq<u8>, c: seq<u8>, rest: seq<u8>)
    ensures (a + (b + c)) + rest == a + (b + (c + rest))
  {
  }

  lemma TableCrc(l: GptLabel, bs: u64, nb: u64)
    requires WellFormed(l, bs, nb)
    ensures l.primary.tableCrc == Crc.Update(0, EncodeEntries(Padded(l.partitions, l.primary.numEntries)))
  {
    hide WithChecksum, NameFits, Padded, EncodeEntries, Crc.Update;
  }

  // ------------------------------------------------------------ an unused slot

  /** One unit in an otherwise empty name reads as a name of one unit. */
  lemma OneUnit(u: u16, rest: seq<u8>)
    requires u != 0
    ensures DecodeName(UnitBytes(NameUnits("")[0 := u]) + rest) == Read(Utf16.DecodeLossy([u]), rest)
  {
    hide UnitBytes, DecodeName, Utf16.DecodeLossy, TextRun, NulRun;
    var us := NameUnits("")[0 := u];
    NameMeaning(us, rest);
    TextRunAt(us, 1);
    NulRunZeros(us[1..]);
    assert us[..1] == [u];
    assert UnitBytes([]) + rest == rest;
  }

  lemma OneUnitWritten(name: string)
    requires |Utf16.Encode(name)| == 1 && NameFits(name)
    ensures SameBut(EncodeName(""), EncodeName(name), 0, 2) && EncodeName("") != EncodeName(name)
  {
    hide ToLE, FromLE;
    var x, none := NameUnits(name), NameUnits("");
    Utf16.EncodeNul(name);
    assert Utf16.Encode(name)[0] in Utf16.Encode(name);
    assert x[1..] == none[1..];
    assert UnitBytes(x) == ToLE(x[0], 2) + UnitBytes(x[1..]);
    assert UnitBytes(none) == ToLE(0, 2) + UnitBytes(x[1..]);
    Pow256Values();
    FromToLE(x[0], 2);
    FromToLE(0, 2);
    assert UnitBytes(x)[..2] == ToLE(x[0], 2) && UnitBytes(none)[..2] == ToLE(0, 2);
  }

  /** The unused slot, with a name of one unit. */
  function Named(u: u16): GptEntry {
    DEFAULT_ENTRY.(entName := Utf16.DecodeLossy([u]))
  }

  lemma NamedSlot(o: nat, v: u8, u: u16, rest: seq<u8>)
    requires 56 <= o < 58 && u != 0 && UnitBytes(NameUnits(""))[o - 56 := v] == UnitBytes(NameUnits("")[0 := u])
    ensures |EncodeEntry(DEFAULT_ENTRY)| == ENTRY_BYTES
    ensures DecodeEntry(EncodeEntry(DEFAULT_ENTRY)[o := v] + rest) == Read(Named(u), rest)
  {
    hide PutAll, GetAll, AllFit, Size, EntryFields, EntryOf, UnitBytes, DecodeName, NameUnits, Utf16.DecodeLossy;
    EntrySize();
    SameFields(u);
    EntryOfFields(Named(u));
    var fixed, name := PutAll(ENTRY_LAYOUT, EntryFields(DEFAULT_ENTRY)), EncodeName("");
    var tail := name[o - 56 := v] + rest;
    assert EncodeEntry(DEFAULT_ENTRY)[o := v] + rest == fixed + tail;
    GetAllPutAll(ENTRY_LAYOUT, EntryFields(DEFAULT_ENTRY), tail);
    OneUnit(u, rest);
  }

  lemma SameFields(u: u16)
    ensures EntryFields(Named(u)) == EntryFields(DEFAULT_ENTRY)
  {
    hide Utf16.DecodeLossy;
  }

  lemma NamedWritten(u: u16)
    requires u != 0
    ensures |EncodeEntry(DEFAULT_ENTRY)| == ENTRY_BYTES
    ensures SameBut(EncodeEntry(DEFAULT_ENTRY), EncodeEntry(Named(u)), 56, 2)
    ensures EncodeEntry(DEFAULT_ENTRY) != EncodeEntry(Named(u))
  {
    hide PutAll, AllFit, Size, EntryFields, EncodeName, SameBut, Utf16.Encode, Utf16.DecodeLossy;
    EntrySize();
    SameFields(u);
    Utf16.EncodeDecodeLength([u]);
    var fixed := PutAll(ENTRY_LAYOUT, EntryFields(DEFAULT_ENTRY));
    var name, name' := EncodeName(""), EncodeName(Named(u).entName);
    OneUnitWritten(Named(u).entName);
    SameButBehind(fixed, name, name', 0, 2);
    assert (fixed + name)[56..] == name && (fixed + name')[56..] == name';
  }

  /** Two tables that differ in one entry differ as its two encodings do. */
  lemma {:induction false} SlotSwapped(pre: seq<GptEntry>, e: GptEntry, e': GptEntry, post: seq<GptEntry>,
                                       o: nat, w: nat)
    requires SameBut(EncodeEntry(e), EncodeEntry(e'), o, w) && EncodeEntry(e) != EncodeEntry(e')
    ensures SameBut(EncodeEntries(pre + ([e] + post)), EncodeEntries(pre + ([e'] + post)), ENTRY_BYTES * |pre| + o, w)
    ensures EncodeEntries(pre + ([e] + post)) != EncodeEntries(pre + ([e'] + post))
  {
    hide EncodeEntry, EncodeEntries, SameBut;
    EncodedAround(pre, e, post);
    EncodedAround(pre, e', post);
    var a, b, b', c := EncodeEntries(pre), EncodeEntry(e), EncodeEntry(e'), EncodeEntries(post);
    SwappedBytes(a, b, b', c, o, w);
  }

  lemma {:induction false} EncodedAround(pre: seq<GptEntry>, e: GptEntry, post: seq<GptEntry>)
    ensures |EncodeEntries(pre)| == ENTRY_BYTES * |pre|
    ensures EncodeEntries(pre + ([e] + post)) == EncodeEntries(pre) + (EncodeEntry(e) + EncodeEntries(post))
  {
    hide EncodeEntry, EncodeEntries;
    var es, i := pre + ([e] + post), |pre|;
    SplitTable(es, i);
    assert es[..i] == pre && es[i] == e && es[i + 1..] == post;
  }

  lemma SwappedBytes(head: seq<u8>, b: seq<u8>, b': seq<u8>, tail: seq<u8>, o: nat, w: nat)
    requires SameBut(b, b', o, w) && b != b'
    ensures SameBut(head + (b + tail), head + (b' + tail), |head| + o, w) && head + (b + tail) != head + (b' + tail)
  {
    SameElsewhere(b, b', o, w);
    var t, t' := head + (b + tail), head + (b' + tail);
    assert t[|head|..|head| + |b|] == b && t'[|head|..|head| + |b|] == b';
  }

  lemma {:induction false} NamedTable(pre: seq<GptEntry>, o: nat, v: u8, u: u16, m: nat)
    requires AllNamesFit(pre) && |EncodeEntry(DEFAULT_ENTRY)| == ENTRY_BYTES
    requires 56 <= o < 58 && u != 0 && UnitBytes(NameUnits(""))[o - 56 := v] == UnitBytes(NameUnits("")[0 := u])
    ensures ReadsAs(EncodeEntries(pre) + (EncodeEntry(DEFAULT_ENTRY)[o := v] + Zeros(ENTRY_BYTES * m)), |pre| + (m + 1),
                    pre + ([Named(u)] + Defaults(m)))
  {
    hide EncodeEntry, DecodeEntry, EncodeEntries, DecodeEntries, NameFits, AllNamesFit, Named, UnitBytes, NameUnits;
    var b := EncodeEntry(DEFAULT_ENTRY)[o := v];
    forall rest: seq<u8>
      ensures DecodeEntries((EncodeEntries(pre) + (b + Zeros(ENTRY_BYTES * m))) + rest, |pre| + (m + 1))
              == Some(pre + ([Named(u)] + Defaults(m)))
    {
      var after := Zeros(ENTRY_BYTES * m) + rest;
      Regroup(EncodeEntries(pre), b, Zeros(ENTRY_BYTES * m), rest);
      NamedSlot(o, v, u, after);
      ZerosDecode(m, rest);
      FirstEntry(b + after, m, Named(u), after);
      DecodePrefix(pre, b + after, m + 1);
    }
  }

  /** The first unit of an unused slot's name: its change is noticed. */
  lemma UnusedNameNoticed(disk: seq<u8>, d': seq<u8>, l: GptLabel, bs: u64, nb: u64, i: nat, o: nat)
    requires |l.partitions| <= i < l.primary.numEntries && 56 <= o < 58
    requires Damaged(disk, d', l, bs, nb, ENTRY_BYTES * i + o, 1)
    ensures Device(d', bs, nb) && Probe(d', bs, nb).Err?
  {
    hide WellFormed, Padded, EncodeEntries, EncodeEntry, Damaged, SameBut, Table, Device, PrimaryRead, SecondaryRead,
      ReadTable, Probe, Off, ValidatePartitions, ReadMbr, Block, NameFits, ReadsAs, Named, UnitBytes, NameUnits;
    var n, k := l.primary.numEntries, ENTRY_BYTES * i + o;
    var all := Padded(l.partitions, n);
    DamagedGives(disk, d', l, bs, nb, k, 1);
    DamagedTable(disk, d', l, bs, nb, k, 1);
    DamagedRest(disk, d', l, bs, nb, k, 1);
    PaddedNamesFit(l, bs, nb);
    var t' := Table(d', l, bs);
    SpoiltBytes(l.partitions, n, i, o, t');
    UnusedEntry(l.partitions, n, i);
    DefaultEntryIsZero();
    EmptyUnits();
    var u := UnitBytesUpdate(NameUnits(""), o - 56, t'[k]);
    NamedTable(all[..i], o, t'[k], u, n - i - 1);
    var es := all[..i] + ([Named(u)] + Defaults(n - i - 1));
    TableReadsAs(d', l, bs, nb, es);
    NamedWritten(u);
    SlotSwapped(all[..i], DEFAULT_ENTRY, Named(u), Defaults(n - i - 1), 56, 2);
    ChecksumApart(es, l, bs, nb, ENTRY_BYTES * i + 56, 2);
    PrimaryTableDecides(d', bs, nb, l.primary);
  }

  lemma UnusedEntry(ps: seq<GptEntry>, n: nat, i: nat)
    requires |ps| <= i < n
    ensures |Padded(ps, n)| == n && Padded(ps, n)[i] == DEFAULT_ENTRY
  {
  }

  lemma EmptyUnits()
    ensures forall j :: 0 <= j < NAME_UNITS ==> NameUnits("")[j] == 0
  {
  }

  /** Which changed bytes of an unused slot the probe notices: exactly those before byte 58 of the slot, the fixed
      fields and the first unit of the name. */
  lemma UnusedSlotByteIff(disk: seq<u8>, d': seq<u8>, l: GptLabel, bs: u64, nb: u64, i: nat, o: nat)
    requires |l.partitions| <= i < l.primary.numEntries && o < ENTRY_BYTES
    requires Damaged(disk, d', l, bs, nb, ENTRY_BYTES * i + o, 1)
    ensures Device(d', bs, nb)
    ensures Probe(d', bs, nb) == Ok(l.(status := Both)) <==> 58 <= o
    ensures Probe(d', bs, nb).Err? <==> o < 58
  {
    hide WellFormed, Padded, Damaged, Device, Probe, PrimaryRead, ReadTable, EncodeEntry, Table, NameFits;
    if o < 56 {
      FixedFieldsNoticed(disk, d', l, bs, nb, i, o, 1);
    } else if o < 58 {
      UnusedNameNoticed(disk, d', l, bs, nb, i, o);
    } else {
      UnusedEntry(l.partitions, l.primary.numEntries, i);
      PaddingUnnoticed(disk, d', l, bs, nb, i, o);
    }
  }

  /** While both headers are intact the probe reads the primary table only: whatever happens to the partitions and to
      the backup table, from the first usable block to the last but one, it yields the label unchanged. */
  lemma BackupTableUnread(disk: seq<u8>, d': seq<u8>, l: GptLabel, bs: u64, nb: u64)
    requires Device(disk, bs, nb) && WellFormed(l, bs, nb) && WriteLabel(disk, l).Some? && nb >= 1
    requires SameOutside(WriteLabel(disk, l).value, d', Off(l.primary.lbaStart, bs), Off(nb - 1, bs))
    ensures Device(d', bs, nb) && Probe(d', bs, nb) == Ok(l.(status := Both))
  {
    hide WellFormed, WriteLabel, EncodeEntries, EncodeMbr, EncodeHeader, Padded, Off, TableBlocks, TableBytes, Holds,
      SecondaryBuffer, SecondaryOffset, PrimaryRead, SecondaryRead, Probe;
    Geometry(l, bs, nb);
    LabelWritten(disk, l, bs, nb);
    var d, lo, hi := WriteLabel(disk, l).value, Off(l.primary.lbaStart, bs), Off(nb - 1, bs);
    MbrRoundTrip(l.mbr, []);
    HeaderRoundTrip(l.primary, []);
    HeaderRoundTrip(l.secondary, []);
    TableLength(l, bs, nb);
    HoldsBefore(d, d', lo, 440, EncodeMbr(l.mbr));
    HoldsBefore(d, d', lo, Off(1, bs), EncodeHeader(l.primary));
    HoldsBefore(d, d', lo, Off(2, bs), EncodeEntries(Padded(l.partitions, l.primary.numEntries)));
    HoldsBehind(d, d', hi, Off(nb - 1, bs), EncodeHeader(l.secondary));
    PrimaryReads(d', l, bs, nb);
    SecondaryReads(d', l, bs, nb);
    Consistent(l, bs, nb);
    ProbesAs(d', l, bs, nb, Both);
  }

  lemma Consistent(l: GptLabel, bs: u64, nb: u64)
    requires WellFormed(l, bs, nb)
    ensures ConsistencyCheck(l.primary, l.secondary).Ok?
  {
    hide WithChecksum, TableChecksum, NameFits;
  }
}
