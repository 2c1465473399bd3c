/** On-disk records of a GPT label and their encoding: every integer fixed-width
    little-endian, records without padding, names as 36 UTF-16 units. */
module GptCodec {
  import opened Bytes
  import Utf16

  type Bytes2 = s: seq<u8> | |s| == 2 witness [0, 0]
  type Bytes3 = s: seq<u8> | |s| == 3 witness [0, 0, 0]
  type Bytes4 = s: seq<u8> | |s| == 4 witness [0, 0, 0, 0]
  type Bytes8 = s: seq<u8> | |s| == 8 witness [0, 0, 0, 0, 0, 0, 0, 0]

  const HEADER_BYTES := 92
  const ENTRY_BYTES := 128
  const MBR_BYTES := 72
  const NAME_UNITS := 36

  datatype GptGuid = GptGuid(timeLow: u32, timeMid: u16, timeHigh: u16, node: Bytes8)

  const ZERO_GUID := GptGuid(0, 0, 0, [0, 0, 0, 0, 0, 0, 0, 0])

  datatype GptHeader = GptHeader(
    signature: Bytes8, revision: Bytes4, headerSize: u32, selfChecksum: u32, reserved: Bytes4,
    lbaSelf: u64, lbaAlt: u64, lbaStart: u64, lbaEnd: u64, guid: GptGuid,
    lbaTable: u64, numEntries: u32, entrySize: u32, tableCrc: u32)

  datatype GptEntry = GptEntry(
    entType: GptGuid, entGuid: GptGuid, entStart: u64, entEnd: u64, entAttr: u64, entName: string)

  const DEFAULT_ENTRY := GptEntry(ZERO_GUID, ZERO_GUID, 0, 0, 0, "")

  datatype MbrEntry = MbrEntry(
    attributes: u8, chsStart: Bytes3, entType: u8, chsLast: Bytes3, lbaStart: u32, numSectors: u32)

  const DEFAULT_MBR_ENTRY := MbrEntry(0, [0, 0, 0], 0, [0, 0, 0], 0, 0)

  type MbrEntries = s: seq<MbrEntry> | |s| == 4
    witness [DEFAULT_MBR_ENTRY, DEFAULT_MBR_ENTRY, DEFAULT_MBR_ENTRY, DEFAULT_MBR_ENTRY]

  datatype Pmbr = Pmbr(diskSignature: u32, reserved: u16, entries: MbrEntries, signature: Bytes2)

  /** What a record reader returns: the record and the bytes behind it. */
  datatype Read<+T> = Malformed | Read(value: T, rest: seq<u8>)

  // ------------------------------------------------------------------ header

  const HEADER_LAYOUT: seq<Kind> :=
    [KRaw(8), KRaw(4), KInt(4), KInt(4), KRaw(4), KInt(8), KInt(8), KInt(8), KInt(8),
     KInt(4), KInt(2), KInt(2), KRaw(8), KInt(8), KInt(4), KInt(4), KInt(4)]

  lemma HeaderSize()
    ensures Size(HEADER_LAYOUT) == HEADER_BYTES
  {
    hide Size;
    SizeSteps(HEADER_LAYOUT);
  }

  function HeaderFields(h: GptHeader): (fs: seq<Field>)
    ensures AllFit(HEADER_LAYOUT, fs)
  {
    Pow256Values();
    [Raw(h.signature), Raw(h.revision), Int(h.headerSize), Int(h.selfChecksum), Raw(h.reserved),
     Int(h.lbaSelf), Int(h.lbaAlt), Int(h.lbaStart), Int(h.lbaEnd),
     Int(h.guid.timeLow), Int(h.guid.timeMid), Int(h.guid.timeHigh), Raw(h.guid.node),
     Int(h.lbaTable), Int(h.numEntries), Int(h.entrySize), Int(h.tableCrc)]
  }

  lemma HeaderSlots(fs: seq<Field>)
    requires AllFit(HEADER_LAYOUT, fs)
    ensures |fs| == 17
    ensures forall i :: i in {0, 12} ==> fs[i].Raw? && |fs[i].b| == 8
    ensures forall i :: i in {1, 4} ==> fs[i].Raw? && |fs[i].b| == 4
    ensures forall i :: i in {2, 3, 9, 14, 15, 16} ==> fs[i].Int? && fs[i].v < U32_MODULUS
    ensures forall i :: i in {10, 11} ==> fs[i].Int? && fs[i].v < 0x1_0000
    ensures forall i :: i in {5, 6, 7, 8, 13} ==> fs[i].Int? && fs[i].v < U64_MODULUS
  {
    hide Pow256;
    Pow256Values();
    assert forall i :: 0 <= i < 17 ==> Fits(HEADER_LAYOUT[i], fs[i]);
  }

  function HeaderOf(fs: seq<Field>): GptHeader
    requires AllFit(HEADER_LAYOUT, fs)
  {
    HeaderSlots(fs);
    GptHeader(fs[0].b, fs[1].b, fs[2].v, fs[3].v, fs[4].b, fs[5].v, fs[6].v, fs[7].v, fs[8].v,
              GptGuid(fs[9].v, fs[10].v, fs[11].v, fs[12].b),
              fs[13].v, fs[14].v, fs[15].v, fs[16].v)
  }

  function EncodeHeader(h: GptHeader): seq<u8> { PutAll(HEADER_LAYOUT, HeaderFields(h)) }

  function DecodeHeader(b: seq<u8>): Read<GptHeader> {
    match GetAll(HEADER_LAYOUT, b)
    case Short => Malformed
    case Fields(fs, rest) => Read(HeaderOf(fs), rest)
  }

  lemma HeaderOfFields(h: GptHeader)
    ensures HeaderOf(HeaderFields(h)) == h
  {
    hide AllFit;
  }

  lemma HeaderFieldsOf(fs: seq<Field>)
    requires AllFit(HEADER_LAYOUT, fs)
    ensures HeaderFields(HeaderOf(fs)) == fs
  {
    hide AllFit;
    HeaderSlots(fs);
  }

  /** A header takes 92 bytes and reads back as itself, whatever follows it. */
  lemma HeaderRoundTrip(h: GptHeader, rest: seq<u8>)
    ensures |EncodeHeader(h)| == HEADER_BYTES
    ensures DecodeHeader(EncodeHeader(h) + rest) == Read(h, rest)
  {
    hide PutAll, GetAll, AllFit, HeaderFields, HeaderOf, Size;
    HeaderSize();
    GetAllPutAll(HEADER_LAYOUT, HeaderFields(h), rest);
    HeaderOfFields(h);
  }

  const HEADER_OFFSETS: seq<nat> := [0, 8, 12, 16, 20, 24, 32, 40, 48, 56, 60, 62, 64, 72, 80, 84, 88]

  /** Every field of the header stands at the byte offset that section 5.3.2 of the UEFI Specification gives it. */
  lemma HeaderOffsets(h: GptHeader)
    ensures var b := EncodeHeader(h);
            && Holds(b, 0, h.signature) && Holds(b, 8, h.revision) && Holds(b, 12, ToLE(h.headerSize, 4))
            && Holds(b, 16, ToLE(h.selfChecksum, 4)) && Holds(b, 20, h.reserved)
            && Holds(b, 24, ToLE(h.lbaSelf, 8)) && Holds(b, 32, ToLE(h.lbaAlt, 8))
            && Holds(b, 40, ToLE(h.lbaStart, 8)) && Holds(b, 48, ToLE(h.lbaEnd, 8))
            && Holds(b, 56, ToLE(h.guid.timeLow, 4)) && Holds(b, 60, ToLE(h.guid.timeMid, 2))
            && Holds(b, 62, ToLE(h.guid.timeHigh, 2)) && Holds(b, 64, h.guid.node)
            && Holds(b, 72, ToLE(h.lbaTable, 8)) && Holds(b, 80, ToLE(h.numEntries, 4))
            && Holds(b, 84, ToLE(h.entrySize, 4)) && Holds(b, 88, ToLE(h.tableCrc, 4))
  {
    hide PutAll, Size, AllFit, Fits, Holds, ToLE;
    var offs := HEADER_OFFSETS;
    Offsets(HEADER_LAYOUT, HeaderFields(h), offs);
    assert offs[1] == 8 && offs[2] == 12 && offs[3] == 16 && offs[4] == 20;
    assert offs[5] == 24 && offs[6] == 32 && offs[7] == 40 && offs[8] == 48;
    assert offs[9] == 56 && offs[10] == 60 && offs[11] == 62 && offs[12] == 64;
    assert offs[13] == 72 && offs[14] == 80 && offs[15] == 84 && offs[16] == 88;
  }

  /** Any 92 bytes are the encoding of exactly the header they decode to. */
  lemma HeaderDecodesAll(b: seq<u8>)
    ensures DecodeHeader(b).Malformed? <==> |b| < HEADER_BYTES
    ensures DecodeHeader(b).Read? ==>
              && EncodeHeader(DecodeHeader(b).value) == b[..HEADER_BYTES]
              && DecodeHeader(b).rest == b[HEADER_BYTES..]
  {
    hide PutAll, GetAll, AllFit, HeaderFields, HeaderOf, Size;
    HeaderSize();
    if GetAll(HEADER_LAYOUT, b).Fields? { HeaderFieldsOf(GetAll(HEADER_LAYOUT, b).fields); }
    PutAllGetAll(HEADER_LAYOUT, b);
  }

  // --------------------------------------------------------------------- MBR

  const MBR_ENTRY_LAYOUT: seq<Kind> := [KInt(1), KRaw(3), KInt(1), KRaw(3), KInt(4), KInt(4)]
  const MBR_LAYOUT: seq<Kind> :=
    [KInt(4), KInt(2), KRaw(16), KRaw(16), KRaw(16), KRaw(16), KRaw(2)]

  lemma MbrSize()
    ensures Size(MBR_ENTRY_LAYOUT) == 16 && Size(MBR_LAYOUT) == MBR_BYTES
  {
    hide Size;
    SizeSteps(MBR_ENTRY_LAYOUT);
    SizeSteps(MBR_LAYOUT);
  }

  function MbrEntryFields(e: MbrEntry): (fs: seq<Field>)
    ensures AllFit(MBR_ENTRY_LAYOUT, fs)
  {
    Pow256Values();
    [Int(e.attributes), Raw(e.chsStart), Int(e.entType), Raw(e.chsLast),
     Int(e.lbaStart), Int(e.numSectors)]
  }

  function MbrEntryOf(fs: seq<Field>): (e: MbrEntry)
    requires AllFit(MBR_ENTRY_LAYOUT, fs)
  {
    Pow256Values();
    assert forall i :: 0 <= i < 6 ==> Fits(MBR_ENTRY_LAYOUT[i], fs[i]);
    MbrEntry(fs[0].v, fs[1].b, fs[2].v, fs[3].b, fs[4].v, fs[5].v)
  }

  function EncodeMbrEntry(e: MbrEntry): (b: seq<u8>)
    ensures |b| == 16
  {
    MbrSize();
    PutAll(MBR_ENTRY_LAYOUT, MbrEntryFields(e))
  }

  function DecodeMbrEntry(b: seq<u8>): MbrEntry
    requires |b| == 16
  {
    MbrSize();
    PutAllGetAll(MBR_ENTRY_LAYOUT, b);
    MbrEntryOf(GetAll(MBR_ENTRY_LAYOUT, b).fields)
  }

  lemma MbrEntryOfFields(e: MbrEntry)
    ensures MbrEntryOf(MbrEntryFields(e)) == e
  {
  }

  lemma MbrEntryRoundTrip(e: MbrEntry)
    ensures DecodeMbrEntry(EncodeMbrEntry(e)) == e
  {
    hide PutAll, GetAll, AllFit, Size, MbrEntryFields, MbrEntryOf;
    GetAllPutAll(MBR_ENTRY_LAYOUT, MbrEntryFields(e), []);
    assert EncodeMbrEntry(e) + [] == EncodeMbrEntry(e);
    MbrEntryOfFields(e);
  }

  function MbrFields(m: Pmbr): (fs: seq<Field>)
    ensures AllFit(MBR_LAYOUT, fs)
  {
    Pow256Values();
    [Int(m.diskSignature), Int(m.reserved),
     Raw(EncodeMbrEntry(m.entries[0])), Raw(EncodeMbrEntry(m.entries[1])),
     Raw(EncodeMbrEntry(m.entries[2])), Raw(EncodeMbrEntry(m.entries[3])),
     Raw(m.signature)]
  }

  function MbrOf(fs: seq<Field>): Pmbr
    requires AllFit(MBR_LAYOUT, fs)
  {
    Pow256Values();
    assert forall i :: 0 <= i < 7 ==> Fits(MBR_LAYOUT[i], fs[i]);
    Pmbr(fs[0].v, fs[1].v,
         [DecodeMbrEntry(fs[2].b), DecodeMbrEntry(fs[3].b),
          DecodeMbrEntry(fs[4].b), DecodeMbrEntry(fs[5].b)],
         fs[6].b)
  }

  function EncodeMbr(m: Pmbr): seq<u8> { PutAll(MBR_LAYOUT, MbrFields(m)) }

  function DecodeMbr(b: seq<u8>): Read<Pmbr> {
    match GetAll(MBR_LAYOUT, b)
    case Short => Malformed
    case Fields(fs, rest) => Read(MbrOf(fs), rest)
  }

  lemma MbrOfFields(m: Pmbr)
    ensures MbrOf(MbrFields(m)) == m
  {
    hide EncodeMbrEntry, DecodeMbrEntry, Pow256;
    Pow256Values();
    MbrEntryRoundTrip(m.entries[0]); MbrEntryRoundTrip(m.entries[1]);
    MbrEntryRoundTrip(m.entries[2]); MbrEntryRoundTrip(m.entries[3]);
    assert MbrOf(MbrFields(m)).entries == m.entries;
  }

  /** A protective MBR takes 72 bytes and reads back as itself. */
  lemma MbrRoundTrip(m: Pmbr, rest: seq<u8>)
    ensures |EncodeMbr(m)| == MBR_BYTES
    ensures DecodeMbr(EncodeMbr(m) + rest) == Read(m, rest)
  {
    hide PutAll, GetAll, AllFit, Size, MbrFields, MbrOf;
    MbrSize();
    GetAllPutAll(MBR_LAYOUT, MbrFields(m), rest);
    MbrOfFields(m);
  }

  const MBR_ENTRY_OFFSETS: seq<nat> := [0, 1, 4, 5, 8, 12]
  const MBR_OFFSETS: seq<nat> := [0, 4, 6, 22, 38, 54, 70]

  /** The MBR's fields stand where section 5.2.3 of the UEFI Specification puts them, counted from byte 440. */
  lemma MbrOffsets(m: Pmbr)
    ensures var b := EncodeMbr(m);
            && Holds(b, 0, ToLE(m.diskSignature, 4)) && Holds(b, 4, ToLE(m.reserved, 2)) && Holds(b, 70, m.signature)
            && Holds(b, 6, EncodeMbrEntry(m.entries[0])) && Holds(b, 22, EncodeMbrEntry(m.entries[1]))
            && Holds(b, 38, EncodeMbrEntry(m.entries[2])) && Holds(b, 54, EncodeMbrEntry(m.entries[3]))
  {
    hide PutAll, Size, AllFit, Fits, Holds, ToLE, EncodeMbrEntry;
    var offs := MBR_OFFSETS;
    Offsets(MBR_LAYOUT, MbrFields(m), offs);
    assert offs[1] == 4 && offs[2] == 6 && offs[3] == 22 && offs[4] == 38 && offs[5] == 54 && offs[6] == 70;
  }

  lemma MbrEntryOffsets(e: MbrEntry)
    ensures var b := EncodeMbrEntry(e);
            && Holds(b, 0, ToLE(e.attributes, 1)) && Holds(b, 1, e.chsStart) && Holds(b, 4, ToLE(e.entType, 1))
            && Holds(b, 5, e.chsLast) && Holds(b, 8, ToLE(e.lbaStart, 4)) && Holds(b, 12, ToLE(e.numSectors, 4))
  {
    hide PutAll, Size, AllFit, Fits, Holds, ToLE;
    var offs := MBR_ENTRY_OFFSETS;
    Offsets(MBR_ENTRY_LAYOUT, MbrEntryFields(e), offs);
    assert offs[1] == 1 && offs[2] == 4 && offs[3] == 5 && offs[4] == 8 && offs[5] == 12;
  }

  lemma MbrEntryFieldsOf(fs: seq<Field>)
    requires AllFit(MBR_ENTRY_LAYOUT, fs)
    ensures MbrEntryFields(MbrEntryOf(fs)) == fs
  {
    Pow256Values();
    assert forall i :: 0 <= i < 6 ==> Fits(MBR_ENTRY_LAYOUT[i], fs[i]);
  }

  lemma MbrEntryDecodesAll(b: seq<u8>)
    requires |b| == 16
    ensures EncodeMbrEntry(DecodeMbrEntry(b)) == b
  {
    hide PutAll, GetAll, AllFit, Size, MbrEntryFields, MbrEntryOf;
    MbrSize();
    PutAllGetAll(MBR_ENTRY_LAYOUT, b);
    MbrEntryFieldsOf(GetAll(MBR_ENTRY_LAYOUT, b).fields);
    assert b[..16] == b;
  }

  lemma MbrFieldsOf(fs: seq<Field>)
    requires AllFit(MBR_LAYOUT, fs)
    ensures MbrFields(MbrOf(fs)) == fs
  {
    hide EncodeMbrEntry, DecodeMbrEntry;
    Pow256Values();
    assert forall i :: 0 <= i < 7 ==> Fits(MBR_LAYOUT[i], fs[i]);
    MbrEntryDecodesAll(fs[2].b); MbrEntryDecodesAll(fs[3].b);
    MbrEntryDecodesAll(fs[4].b); MbrEntryDecodesAll(fs[5].b);
  }

  /** Any 72 bytes are the encoding of exactly the MBR they decode to. */
  lemma MbrDecodesAll(b: seq<u8>)
    ensures DecodeMbr(b).Malformed? <==> |b| < MBR_BYTES
    ensures DecodeMbr(b).Read? ==> EncodeMbr(DecodeMbr(b).value) == b[..MBR_BYTES]
  {
    hide PutAll, GetAll, AllFit, MbrFields, MbrOf, Size;
    MbrSize();
    PutAllGetAll(MBR_LAYOUT, b);
    if GetAll(MBR_LAYOUT, b).Fields? { MbrFieldsOf(GetAll(MBR_LAYOUT, b).fields); }
  }

  // -------------------------------------------------------------------- name

  /** The 36 units written for a name: cut off at 36, padded with NUL. */
  function NameUnits(name: string): (us: seq<u16>)
    ensures |us| == NAME_UNITS
  {
    var us := Utf16.Encode(name);
    if |us| >= NAME_UNITS then us[..NAME_UNITS] else us + seq(NAME_UNITS - |us|, _ => 0)
  }

  function UnitBytes(us: seq<u16>): (b: seq<u8>)
    ensures |b| == 2 * |us|
  {
    if us == [] then [] else ToLE(us[0], 2) + UnitBytes(us[1..])
  }

  function Unit(b: seq<u8>): u16
    requires |b| == 2
  {
    Pow256Values();
    FromLE(b)
  }

  /** The name visitor with `left` units to go, the units kept so far, and whether a
      NUL was seen. It leaves the sequence at the first non-NUL unit behind a NUL. */
  function VisitName(b: seq<u8>, left: nat, out: seq<u16>, end: bool): Read<seq<u16>>
    decreases left, |b|
  {
    if left == 0 then (if end then Read(out, b) else Malformed)
    else if |b| < 2 then Malformed
    else
      var u := Unit(b[..2]);
      if u == 0 then VisitName(b[2..], left - 1, out, true)
      else if !end then VisitName(b[2..], left - 1, out + [u], end)
      else Read(out, b[2..])
  }

  function DecodeName(b: seq<u8>): Read<string> {
    match VisitName(b, NAME_UNITS, [], false)
    case Malformed => Malformed
    case Read(us, rest) => Read(Utf16.DecodeLossy(us), rest)
  }

  /** How many leading units of us are NUL, and how many are not. */
  function NulRun(us: seq<u16>): (n: nat)
    ensures n <= |us|
  {
    if us == [] || us[0] != 0 then 0 else 1 + NulRun(us[1..])
  }

  function TextRun(us: seq<u16>): (n: nat)
    ensures n <= |us|
    ensures 0 in us <==> n < |us|
    ensures 0 !in us[..n]
  {
    if us == [] || us[0] == 0 then 0 else
      var n := 1 + TextRun(us[1..]);
      assert us[..n] == [us[0]] + us[1..][..n - 1];
      n
  }

  lemma UnitBytesStep(us: seq<u16>, rest: seq<u8>)
    requires us != []
    ensures var b := UnitBytes(us) + rest;
            Unit(b[..2]) == us[0] && b[2..] == UnitBytes(us[1..]) + rest
  {
    hide ToLE, Unit;
    FirstUnit(us[0], UnitBytes(us[1..]), rest);
  }

  lemma FirstUnit(u: u16, mid: seq<u8>, rest: seq<u8>)
    ensures var b := (ToLE(u, 2) + mid) + rest; Unit(b[..2]) == u && b[2..] == mid + rest
  {
    hide ToLE, FromLE, Pow256;
    Pow256Values();
    FromToLE(u, 2);
    assert (ToLE(u, 2) + mid) + rest == ToLE(u, 2) + (mid + rest);
    Halves(ToLE(u, 2), mid + rest);
  }

  lemma {:induction false} VisitTail(us: seq<u16>, rest: seq<u8>, out: seq<u16>)
    ensures VisitName(UnitBytes(us) + rest, |us|, out, true)
            == Read(out, UnitBytes(us[if NulRun(us) < |us| then NulRun(us) + 1 else |us|..]) + rest)
  {
    if us == [] {
      assert UnitBytes(us) + rest == rest;
    } else {
      UnitBytesStep(us, rest);
      if us[0] == 0 {
        VisitTail(us[1..], rest, out);
        var n := NulRun(us);
        assert us[1..][if n - 1 < |us| - 1 then n else |us| - 1..] == us[if n < |us| then n + 1 else |us|..];
      }
    }
  }

  lemma {:induction false} VisitText(us: seq<u16>, n: nat, rest: seq<u8>)
    requires n <= |us| && forall i :: 0 <= i < n ==> us[i] != 0
    ensures VisitName(UnitBytes(us) + rest, |us|, [], false)
            == VisitName(UnitBytes(us[n..]) + rest, |us| - n, us[..n], false)
  {
    hide UnitBytes, Unit;
    if n == 0 {
      assert us[0..] == us && us[..0] == [];
    } else {
      VisitText(us, n - 1, rest);
      var t := us[n - 1..];
      UnitBytesStep(t, rest);
      assert t[1..] == us[n..] && us[..n - 1] + [t[0]] == us[..n];
    }
  }

  /** What the visitor makes of any 36 units: without a NUL the name is refused; otherwise the
      name is the text before the first NUL, and when another unit follows the run of NULs the
      reader stops right behind that unit, leaving the rest of the 72 bytes in the stream. */
  lemma NameMeaning(us: seq<u16>, rest: seq<u8>)
    requires |us| == NAME_UNITS
    ensures var n := TextRun(us);
            DecodeName(UnitBytes(us) + rest)
            == if n == NAME_UNITS then Malformed
               else var m := n + NulRun(us[n..]);
                    Read(Utf16.DecodeLossy(us[..n]),
                         UnitBytes(us[if m < NAME_UNITS then m + 1 else NAME_UNITS..]) + rest)
  {
    hide UnitBytes, Unit, Utf16.DecodeLossy, TextRun;
    var n := TextRun(us);
    assert forall i :: 0 <= i < n ==> us[i] == us[..n][i];
    VisitText(us, n, rest);
    if n < |us| {
      TextStops(us);
      var t := us[n..];
      assert t[0] == 0;
      UnitBytesStep(t, rest);
      VisitTail(t[1..], rest, us[..n]);
      var k := NulRun(t[1..]);
      assert NulRun(t) == 1 + k;
      assert t[1..][if k < |t| - 1 then k + 1 else |t| - 1..]
          == us[if n + 1 + k < NAME_UNITS then n + 1 + k + 1 else NAME_UNITS..];
    }
  }

  lemma {:induction false} TextStops(us: seq<u16>)
    requires TextRun(us) < |us|
    ensures us[TextRun(us)] == 0
  {
    if us[0] != 0 { TextStops(us[1..]); }
  }

  predicate NameFits(name: string) {
    |Utf16.Encode(name)| < NAME_UNITS && '\0' !in name
  }

  function EncodeName(name: string): (b: seq<u8>)
    ensures |b| == 2 * NAME_UNITS
  {
    UnitBytes(NameUnits(name))
  }

  lemma {:induction false} NulRunZeros(us: seq<u16>)
    requires forall i :: 0 <= i < |us| ==> us[i] == 0
    ensures NulRun(us) == |us|
  {
    if us != [] { NulRunZeros(us[1..]); }
  }

  lemma {:induction false} TextRunAt(us: seq<u16>, n: nat)
    requires n < |us| && us[n] == 0 && 0 !in us[..n]
    ensures TextRun(us) == n
  {
    if n > 0 {
      assert us[0] == us[..n][0];
      assert us[1..][..n - 1] == us[..n][1..];
      TextRunAt(us[1..], n - 1);
    }
  }

  /** A name reads back as itself, with the stream left right behind it, exactly when it has
      at most 35 UTF-16 units and no NUL. */
  lemma NameRoundTripIff(name: string, rest: seq<u8>)
    ensures DecodeName(EncodeName(name) + rest) == Read(name, rest) <==> NameFits(name)
    ensures DecodeName(EncodeName(name) + rest).Read? && DecodeName(EncodeName(name) + rest).value == name
            ==> NameFits(name)
  {
    var us := NameUnits(name);
    var full := Utf16.Encode(name);
    NameMeaning(us, rest);
    Utf16.EncodeNul(name);
    if NameFits(name) {
      assert us[..|full|] == full;
      TextRunAt(us, |full|);
      NulRunZeros(us[|full|..]);
      Utf16.DecodeEncode(name);
      assert us[NAME_UNITS..] == [] && UnitBytes([]) + rest == rest;
    } else if DecodeName(EncodeName(name) + rest).Read? && DecodeName(EncodeName(name) + rest).value == name {
      var n := TextRun(us);
      Utf16.EncodeDecodeLength(us[..n]);
      assert false;
    }
  }

  // ------------------------------------------------------------------- entry

  const ENTRY_LAYOUT: seq<Kind> :=
    [KInt(4), KInt(2), KInt(2), KRaw(8), KInt(4), KInt(2), KInt(2), KRaw(8),
     KInt(8), KInt(8), KInt(8)]

  lemma EntrySize()
    ensures Size(ENTRY_LAYOUT) + 2 * NAME_UNITS == ENTRY_BYTES
  {
    hide Size;
    SizeSteps(ENTRY_LAYOUT);
  }

  function EntryFields(e: GptEntry): (fs: seq<Field>)
    ensures AllFit(ENTRY_LAYOUT, fs)
  {
    Pow256Values();
    [Int(e.entType.timeLow), Int(e.entType.timeMid), Int(e.entType.timeHigh), Raw(e.entType.node),
     Int(e.entGuid.timeLow), Int(e.entGuid.timeMid), Int(e.entGuid.timeHigh), Raw(e.entGuid.node),
     Int(e.entStart), Int(e.entEnd), Int(e.entAttr)]
  }

  function EntryOf(fs: seq<Field>, name: string): GptEntry
    requires AllFit(ENTRY_LAYOUT, fs)
  {
    Pow256Values();
    assert forall i :: 0 <= i < 11 ==> Fits(ENTRY_LAYOUT[i], fs[i]);
    GptEntry(GptGuid(fs[0].v, fs[1].v, fs[2].v, fs[3].b), GptGuid(fs[4].v, fs[5].v, fs[6].v, fs[7].b),
             fs[8].v, fs[9].v, fs[10].v, name)
  }

  function EncodeEntry(e: GptEntry): seq<u8> {
    PutAll(ENTRY_LAYOUT, EntryFields(e)) + EncodeName(e.entName)
  }

  function DecodeEntry(b: seq<u8>): Read<GptEntry> {
    match GetAll(ENTRY_LAYOUT, b)
    case Short => Malformed
    case Fields(fs, rest) =>
      match DecodeName(rest)
      case Malformed => Malformed
      case Read(name, rest') => Read(EntryOf(fs, name), rest')
  }

  lemma EntryOfFields(e: GptEntry)
    ensures EntryOf(EntryFields(e), e.entName) == e
    ensures forall name :: EntryOf(EntryFields(e), name).entName == name
  {
  }

  const ENTRY_OFFSETS: seq<nat> := [0, 4, 6, 8, 16, 20, 22, 24, 32, 40, 48]

  /** An entry's fields stand where section 5.3.3 of the UEFI Specification puts them. */
  lemma EntryOffsets(e: GptEntry)
    ensures var b := EncodeEntry(e);
            && Holds(b, 0, ToLE(e.entType.timeLow, 4)) && Holds(b, 4, ToLE(e.entType.timeMid, 2))
            && Holds(b, 6, ToLE(e.entType.timeHigh, 2)) && Holds(b, 8, e.entType.node)
            && Holds(b, 16, ToLE(e.entGuid.timeLow, 4)) && Holds(b, 20, ToLE(e.entGuid.timeMid, 2))
            && Holds(b, 22, ToLE(e.entGuid.timeHigh, 2)) && Holds(b, 24, e.entGuid.node)
            && Holds(b, 32, ToLE(e.entStart, 8)) && Holds(b, 40, ToLE(e.entEnd, 8)) && Holds(b, 48, ToLE(e.entAttr, 8))
            && Holds(b, 56, EncodeName(e.entName))
  {
    hide PutAll, Size, AllFit, Fits, Holds, ToLE, EncodeName;
    EntrySize();
    var offs := ENTRY_OFFSETS;
    var front, name := PutAll(ENTRY_LAYOUT, EntryFields(e)), EncodeName(e.entName);
    Offsets(ENTRY_LAYOUT, EntryFields(e), offs);
    forall off, bytes | Holds(front, off, bytes) ensures Holds(front + name, off, bytes) {
      HoldsBeforeSuffix(front, name, off, bytes);
    }
    assert offs[1] == 4 && offs[2] == 6 && offs[3] == 8 && offs[4] == 16 && offs[5] == 20;
    assert offs[6] == 22 && offs[7] == 24 && offs[8] == 32 && offs[9] == 40 && offs[10] == 48;
    assert Holds(front + name, 56, name) by { HoldsAtEnd(front, name); }
  }

  /** An entry takes 128 bytes and reads back as itself, without shifting the stream, exactly
      when its name fits. */
  lemma EntryRoundTripIff(e: GptEntry, rest: seq<u8>)
    ensures |EncodeEntry(e)| == ENTRY_BYTES
    ensures DecodeEntry(EncodeEntry(e) + rest) == Read(e, rest) <==> NameFits(e.entName)
    ensures DecodeEntry(EncodeEntry(e) + rest).Read? && DecodeEntry(EncodeEntry(e) + rest).value == e
            ==> NameFits(e.entName)
  {
    hide PutAll, GetAll, AllFit, Size, EntryFields, EntryOf, EncodeName, DecodeName, NameFits;
    EntrySize();
    EntryOfFields(e);
    var fixed, tail := PutAll(ENTRY_LAYOUT, EntryFields(e)), EncodeName(e.entName) + rest;
    assert EncodeEntry(e) + rest == fixed + tail;
    GetAllPutAll(ENTRY_LAYOUT, EntryFields(e), tail);
    NameRoundTripIff(e.entName, rest);
  }

  // ------------------------------------------------------------------- table

  function EncodeEntries(es: seq<GptEntry>): seq<u8> {
    if es == [] then [] else EncodeEntry(es[0]) + EncodeEntries(es[1..])
  }

  function DecodeEntries(b: seq<u8>, count: nat): Option<seq<GptEntry>>
    decreases count, |b|
  {
    if count == 0 then Some([])
    else match DecodeEntry(b)
      case Malformed => None
      case Read(e, rest) =>
        match DecodeEntries(rest, count - 1)
        case None => None
        case Some(es) => Some([e] + es)
  }

  function Defaults(n: nat): (es: seq<GptEntry>) ensures |es| == n {
    seq(n, _ => DEFAULT_ENTRY)
  }

  /** A short list of partitions padded to the table's entry count. */
  function Padded(es: seq<GptEntry>, size: nat): seq<GptEntry> {
    es + Defaults(if |es| < size then size - |es| else 0)
  }

  predicate AllNamesFit(es: seq<GptEntry>) {
    forall i :: 0 <= i < |es| ==> NameFits(es[i].entName)
  }

  /** A list of entries reads back, one after the other, exactly when all their names fit. */
  lemma {:induction false} EntriesRoundTripIff(es: seq<GptEntry>, rest: seq<u8>)
    ensures DecodeEntries(EncodeEntries(es) + rest, |es|) == Some(es) <==> AllNamesFit(es)
  {
    hide EncodeEntry, DecodeEntry, NameFits;
    if es != [] {
      var tail := EncodeEntries(es[1..]) + rest;
      assert EncodeEntries(es) + rest == EncodeEntry(es[0]) + tail;
      EntryRoundTripIff(es[0], tail);
      EntriesRoundTripIff(es[1..], rest);
      assert es == [es[0]] + es[1..];
    }
  }

  lemma {:induction false} EncodeEntriesConcat(a: seq<GptEntry>, b: seq<GptEntry>)
    ensures EncodeEntries(a + b) == EncodeEntries(a) + EncodeEntries(b)
  {
    if a == [] {
      assert a + b == b;
    } else {
      assert (a + b)[1..] == a[1..] + b;
      EncodeEntriesConcat(a[1..], b);
    }
  }

  lemma {:induction false} EncodeEntriesLength(es: seq<GptEntry>)
    ensures |EncodeEntries(es)| == ENTRY_BYTES * |es|
  {
    if es != [] {
      EncodeEntriesLength(es[1..]);
      EntryRoundTripIff(es[0], []);
    }
  }

  lemma {:induction false} ZeroUnits(us: seq<u16>)
    requires forall i :: 0 <= i < |us| ==> us[i] == 0
    ensures UnitBytes(us) == Zeros(2 * |us|)
  {
    if us != [] {
      ZeroUnits(us[1..]);
      assert ToLE(0, 2) == [0] + ToLE(0, 1);
      assert UnitBytes(us) == [0, 0] + Zeros(2 * (|us| - 1));
    }
  }

  lemma {:induction false} ZeroLE(n: nat)
    ensures ToLE(0, n) == Zeros(n)
  {
    if n > 0 { ZeroLE(n - 1); }
  }

  lemma {:induction false} ZeroFields(ks: seq<Kind>, fs: seq<Field>)
    requires AllFit(ks, fs)
    requires forall i :: 0 <= i < |fs| ==> fs[i] == Int(0) || fs[i] == Raw(Zeros(ks[i].width))
    ensures PutAll(ks, fs) == Zeros(Size(ks))
  {
    if ks != [] {
      ZeroFields(ks[1..], fs[1..]);
      ZeroLE(ks[0].width);
    }
  }

  /** An unused slot is written as 128 zero bytes, so a zero-filled table is a table of defaults. */
  lemma DefaultEntryIsZero()
    ensures EncodeEntry(DEFAULT_ENTRY) == Zeros(ENTRY_BYTES)
    ensures NameFits(DEFAULT_ENTRY.entName)
  {
    hide PutAll, AllFit, Size, UnitBytes, ToLE;
    EntrySize();
    ZeroFields(ENTRY_LAYOUT, EntryFields(DEFAULT_ENTRY));
    ZeroUnits(NameUnits(""));
    assert EncodeEntry(DEFAULT_ENTRY) == Zeros(56) + Zeros(72);
  }

  lemma {:induction false} DefaultsAreZero(n: nat)
    ensures EncodeEntries(Defaults(n)) == Zeros(ENTRY_BYTES * n)
  {
    hide EncodeEntry, NameFits;
    if n > 0 {
      DefaultsAreZero(n - 1);
      DefaultEntryIsZero();
      assert Defaults(n)[1..] == Defaults(n - 1);
    }
  }
}
