/** What the bytes of a partition table mean. The table's checksum is taken over the entries encoded again, not
    over the bytes; the two agree exactly for a table whose names are clean. */
module GptTable {
  import opened Bytes
  import opened GptCodec
  import opened GptLabels
  import Crc
  import Utf16

  // -------------------------------------------------------------------- names

  function Units(b: seq<u8>): (us: seq<u16>)
    requires |b| % 2 == 0
    ensures |us| == |b| / 2
  {
    if b == [] then [] else [Unit(b[..2])] + Units(b[2..])
  }

  lemma {:induction false} UnitsOfBytes(us: seq<u16>)
    ensures Units(UnitBytes(us)) == us
  {
    hide Unit;
    if us != [] {
      UnitBytesStep(us, []);
      var b := UnitBytes(us);
      assert b + [] == b && UnitBytes(us[1..]) + [] == UnitBytes(us[1..]);
      UnitsOfBytes(us[1..]);
      assert us == [us[0]] + us[1..];
    }
  }

  lemma {:induction false} BytesOfUnits(b: seq<u8>)
    requires |b| % 2 == 0
    ensures UnitBytes(Units(b)) == b
    decreases |b|
  {
    hide ToLE, FromLE;
    if b != [] {
      BytesOfUnits(b[2..]);
      ToFromLE(b[..2]);
      assert Units(b)[1..] == Units(b[2..]);
      assert b == b[..2] + b[2..];
    }
  }

  /** A text without NUL and without unpaired surrogates, and nothing but NULs behind it. */
  ghost predicate CleanUnits(us: seq<u16>) {
    exists n: nat :: n < |us| && 0 !in us[..n] && Utf16.Paired(us[..n]) && forall j :: n <= j < |us| ==> us[j] == 0
  }

  /** Where the text of clean units ends, and what is behind it. */
  lemma CleanText(us: seq<u16>)
    requires |us| == NAME_UNITS && CleanUnits(us)
    ensures var n := TextRun(us);
            && n < NAME_UNITS && Utf16.Paired(us[..n]) && NulRun(us[n..]) == NAME_UNITS - n
            && us == us[..n] + seq(NAME_UNITS - n, _ => 0)
  {
    hide Utf16.Paired;
    var k: nat :| k < |us| && 0 !in us[..k] && Utf16.Paired(us[..k]) && forall j :: k <= j < |us| ==> us[j] == 0;
    TextRunAt(us, k);
    NulRunZeros(us[k..]);
  }

  lemma UnitsReencodeIff(us: seq<u16>)
    requires |us| == NAME_UNITS && TextRun(us) < NAME_UNITS
    ensures NameUnits(Utf16.DecodeLossy(us[..TextRun(us)])) == us <==> CleanUnits(us)
  {
    hide Utf16.Encode, Utf16.DecodeLossy, Utf16.Paired, NulRun;
    var n := TextRun(us);
    var full := Utf16.Encode(Utf16.DecodeLossy(us[..n]));
    Utf16.EncodeDecodeLength(us[..n]);
    Utf16.EncodeDecodeIff(us[..n]);
    var again := NameUnits(Utf16.DecodeLossy(us[..n]));
    assert again == full + seq(NAME_UNITS - n, _ => 0);
    if CleanUnits(us) { CleanText(us); }
    if again == us {
      assert again[..n] == full;
      assert forall j :: n <= j < |us| ==> us[j] == 0;
    }
  }

  /** A name that was read encodes to the bytes it was read from exactly when these are clean; a clean name is
      always read, and the stream is left right behind it. */
  lemma NameReencodesIff(us: seq<u16>, rest: seq<u8>)
    requires |us| == NAME_UNITS
    ensures var r := DecodeName(UnitBytes(us) + rest);
            && (r.Read? ==> (EncodeName(r.value) == UnitBytes(us) <==> CleanUnits(us)))
            && (CleanUnits(us) ==> r.Read? && r.rest == rest)
  {
    hide UnitBytes, Utf16.Encode, Utf16.DecodeLossy, Utf16.Paired, NulRun, TextRun, NameUnits, CleanUnits, DecodeName;
    NameMeaning(us, rest);
    var n := TextRun(us);
    if n < NAME_UNITS {
      UnitsReencodeIff(us);
      UnitsOfBytes(us);
      UnitsOfBytes(NameUnits(Utf16.DecodeLossy(us[..n])));
    }
    if CleanUnits(us) {
      CleanText(us);
      NoUnits(rest);
      assert us[NAME_UNITS..] == [];
    }
  }

  lemma NoUnits(rest: seq<u8>)
    ensures UnitBytes([]) + rest == rest
  {
  }

  // -------------------------------------------------------------------- slots

  ghost predicate CleanSlot(slot: seq<u8>)
    requires |slot| == ENTRY_BYTES
  {
    CleanUnits(Units(slot[56..]))
  }

  lemma EntryFieldsOf(fs: seq<Field>, name: string)
    requires AllFit(ENTRY_LAYOUT, fs)
    ensures EntryFields(EntryOf(fs, name)) == fs
  {
    hide Pow256;
    assert forall i :: 0 <= i < 11 ==> Fits(ENTRY_LAYOUT[i], fs[i]);
  }

  lemma SlotReencodesIff(b: seq<u8>)
    requires |b| >= ENTRY_BYTES
    ensures var r := DecodeEntry(b);
            && (r.Read? ==> (EncodeEntry(r.value) == b[..ENTRY_BYTES] <==> CleanSlot(b[..ENTRY_BYTES])))
            && (CleanSlot(b[..ENTRY_BYTES]) ==> r.Read? && r.rest == b[ENTRY_BYTES..])
  {
    hide PutAll, GetAll, AllFit, Size, EntryFields, EntryOf, EncodeName, DecodeName, Units, UnitBytes, CleanUnits;
    EntrySize();
    PutAllGetAll(ENTRY_LAYOUT, b);
    var fs, tail := GetAll(ENTRY_LAYOUT, b).fields, b[56..];
    var name, rest := b[56..ENTRY_BYTES], b[ENTRY_BYTES..];
    assert b[..ENTRY_BYTES][56..] == name && b[..ENTRY_BYTES] == b[..56] + name && tail == name + rest;
    BytesOfUnits(name);
    NameReencodesIff(Units(name), rest);
    var r := DecodeName(tail);
    if r.Read? {
      EntryFieldsOf(fs, r.value);
      EntryNameOf(fs, r.value);
      var again := EncodeName(r.value);
      assert (b[..56] + again)[56..] == again && (b[..56] + name)[56..] == name;
    }
  }

  lemma EntryNameOf(fs: seq<Field>, name: string)
    requires AllFit(ENTRY_LAYOUT, fs)
    ensures EntryOf(fs, name).entName == name
  {
    hide Pow256, AllFit;
  }

  // -------------------------------------------------------------------- table

  /** Every one of the first n slots has a clean name. */
  ghost predicate CleanTable(b: seq<u8>, n: nat)
    decreases n, |b|
  {
    n == 0 || (|b| >= ENTRY_BYTES && CleanSlot(b[..ENTRY_BYTES]) && CleanTable(b[ENTRY_BYTES..], n - 1))
  }

  lemma {:induction false} CleanLength(b: seq<u8>, n: nat)
    requires CleanTable(b, n)
    ensures ENTRY_BYTES * n <= |b|
    decreases n
  {
    if n > 0 { CleanLength(b[ENTRY_BYTES..], n - 1); }
  }

  lemma {:induction false} CountRead(b: seq<u8>, n: nat)
    ensures DecodeEntries(b, n).Some? ==> |DecodeEntries(b, n).value| == n
    decreases n
  {
    hide DecodeEntry;
    if n > 0 && DecodeEntry(b).Read? { CountRead(DecodeEntry(b).rest, n - 1); }
  }

  /** For all bytes that hold n slots: they read as n entries that encode to the same bytes again if and only if
      every slot has a clean name; in particular such bytes always read. */
  lemma {:induction false} EntriesReencodeIff(b: seq<u8>, n: nat)
    requires |b| >= ENTRY_BYTES * n
    ensures var r := DecodeEntries(b, n);
            r.Some? && EncodeEntries(r.value) == b[..ENTRY_BYTES * n] <==> CleanTable(b, n)
    decreases n
  {
    hide DecodeEntry, EncodeEntry, CleanSlot;
    if n == 0 {
      assert b[..0] == [];
    } else {
      var head, tail, m := b[..ENTRY_BYTES], b[ENTRY_BYTES..], ENTRY_BYTES * (n - 1);
      SlotReencodesIff(b);
      EntriesReencodeIff(tail, n - 1);
      assert b[..ENTRY_BYTES * n] == head + tail[..m];
      var r := DecodeEntry(b);
      if r.Read? {
        EntryRoundTripIff(r.value, []);
        var more := DecodeEntries(r.rest, n - 1);
        if more.Some? {
          var again, rest := EncodeEntry(r.value), EncodeEntries(more.value);
          assert DecodeEntries(b, n) == Some([r.value] + more.value);
          assert ([r.value] + more.value)[1..] == more.value;
          assert (again + rest)[..ENTRY_BYTES] == again && (head + tail[..m])[..ENTRY_BYTES] == head;
          assert (again + rest)[ENTRY_BYTES..] == rest && (head + tail[..m])[ENTRY_BYTES..] == tail[..m];
        }
      }
    }
  }

  /** An accepted table of clean names has the header's checksum over its bytes. */
  lemma CleanTableChecksum(b: seq<u8>, h: GptHeader)
    requires |b| >= ENTRY_BYTES * h.numEntries && ReadPartitions(b, h).Ok? && CleanTable(b, h.numEntries)
    ensures Crc.ChecksumIeee(b[..ENTRY_BYTES * h.numEntries]) == h.tableCrc
  {
    hide DecodeEntries, EncodeEntries, CleanTable, ValidateEntries, Crc.ChecksumIeee;
    EntriesReencodeIff(b, h.numEntries);
    CountRead(b, h.numEntries);
    var es := DecodeEntries(b, h.numEntries).value;
    assert Padded(es, h.numEntries) == es;
  }

  function Slot(b: seq<u8>, i: nat): (s: seq<u8>)
    requires ENTRY_BYTES * (i + 1) <= |b|
    ensures |s| == ENTRY_BYTES
  {
    b[ENTRY_BYTES * i..ENTRY_BYTES * (i + 1)]
  }

  lemma {:induction false} CleanSlots(b: seq<u8>, n: nat)
    requires |b| >= ENTRY_BYTES * n
    ensures CleanTable(b, n) <==> forall i :: 0 <= i < n ==> CleanSlot(Slot(b, i))
    decreases n
  {
    hide CleanSlot;
    if n > 0 {
      var tail := b[ENTRY_BYTES..];
      CleanSlots(tail, n - 1);
      assert Slot(b, 0) == b[..ENTRY_BYTES];
      assert forall i: nat :: i < n - 1 ==> Slot(tail, i) == Slot(b, i + 1);
      if CleanTable(b, n) {
        forall i | 0 <= i < n ensures CleanSlot(Slot(b, i)) {
          if i > 0 { assert Slot(tail, i - 1) == Slot(b, i); }
        }
      }
    }
  }

  /** Only the first n slots matter. */
  lemma CleanPrefix(b: seq<u8>, rest: seq<u8>, n: nat)
    requires |b| == ENTRY_BYTES * n
    ensures CleanTable(b + rest, n) <==> CleanTable(b, n)
  {
    CleanSlots(b, n);
    CleanSlots(b + rest, n);
    forall i | 0 <= i < n ensures Slot(b + rest, i) == Slot(b, i) { }
  }

  /** What is written is clean. */
  lemma WrittenIsClean(es: seq<GptEntry>)
    requires AllNamesFit(es)
    ensures |EncodeEntries(es)| == ENTRY_BYTES * |es| && CleanTable(EncodeEntries(es), |es|)
  {
    hide EncodeEntries, DecodeEntries, CleanTable, AllNamesFit;
    var b := EncodeEntries(es);
    EncodeEntriesLength(es);
    EntriesRoundTripIff(es, []);
    assert b + [] == b && b[..|b|] == b;
    EntriesReencodeIff(b, |es|);
  }
}
