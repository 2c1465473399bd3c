/** How the primary and the secondary header determine each other. */
module GptHeaderLaws {
  import opened Bytes
  import opened Arith
  import opened GptCodec
  import opened GptLabels
  import Crc

  lemma ChecksumIgnoresField(h: GptHeader, c: u32)
    ensures WithChecksum(h.(selfChecksum := c)) == WithChecksum(h)
  {
    assert h.(selfChecksum := c).(selfChecksum := 0) == h.(selfChecksum := 0);
  }

  /** Deriving the secondary and coming back gives the same header, bit for bit, exactly when the
      header carries its own checksum and its table sits right behind it. */
  lemma PrimaryThereAndBack(h: GptHeader)
    ensures AsPrimary(AsSecondary(h)) == h <==> Checksummed(h) && h.lbaTable == Add64(h.lbaSelf, 1)
  {
    hide WithChecksum;
    var moved := h.(lbaSelf := h.lbaAlt, lbaAlt := h.lbaSelf, lbaTable := Add64(h.lbaEnd, 1));
    var back := h.(lbaTable := Add64(h.lbaSelf, 1));
    var c := WithChecksum(moved).selfChecksum;
    assert WithChecksum(moved) == moved.(selfChecksum := c);
    assert AsPrimary(AsSecondary(h)) == WithChecksum(back.(selfChecksum := c));
    ChecksumIgnoresField(back, c);
  }

  /** The other way round the table must sit right behind the last usable block. */
  lemma SecondaryThereAndBack(h: GptHeader)
    ensures AsSecondary(AsPrimary(h)) == h <==> Checksummed(h) && h.lbaTable == Add64(h.lbaEnd, 1)
  {
    hide WithChecksum;
    var moved := h.(lbaSelf := h.lbaAlt, lbaAlt := h.lbaSelf, lbaTable := Add64(h.lbaAlt, 1));
    var back := h.(lbaTable := Add64(h.lbaEnd, 1));
    var c := WithChecksum(moved).selfChecksum;
    assert WithChecksum(moved) == moved.(selfChecksum := c);
    assert AsSecondary(AsPrimary(h)) == WithChecksum(back.(selfChecksum := c));
    ChecksumIgnoresField(back, c);
  }

  /** What reading a header block establishes. */
  predicate Readable(h: GptHeader) {
    && h.headerSize == HEADER_BYTES && h.signature == HEADER_SIGNATURE && h.revision == HEADER_REVISION
    && Checksummed(h)
  }

  /** A block reads as a header exactly when it starts with the bytes of a readable header. */
  lemma HeaderBlock(h: GptHeader, block: seq<u8>)
    requires |block| >= HEADER_BYTES
    ensures HeaderFromSlice(block) == Ok(h) <==> Readable(h) && block[..HEADER_BYTES] == EncodeHeader(h)
  {
    hide EncodeHeader, DecodeHeader, WithChecksum;
    HeaderDecodesAll(block);
    var d := DecodeHeader(block).value;
    HeaderRoundTrip(d, []);
    HeaderRoundTrip(h, []);
  }

  /** The checksum field is bytes 16 to 19, and nothing else depends on it. */
  lemma ChecksumField(h: GptHeader, c: u32)
    ensures var b, b' := EncodeHeader(h), EncodeHeader(h.(selfChecksum := c));
            && |b| == |b'| == HEADER_BYTES && b[..16] == b'[..16] && b[20..] == b'[20..]
            && b'[16..20] == ToLE(c, 4)
  {
    hide PutAll, Size, AllFit, ToLE, HeaderFields;
    HeaderRoundTrip(h, []);
    HeaderRoundTrip(h.(selfChecksum := c), []);
    assert Holds(EncodeHeader(h.(selfChecksum := c)), 16, ToLE(c, 4)) by { HeaderOffsets(h.(selfChecksum := c)); }
    ChecksumSlot(h, c);
    PutAllUpdate(HEADER_LAYOUT, HeaderFields(h), 3, Int(c));
  }

  /** What stands in the first 16 bytes of every header: the signature "EFI PART", revision 1.0, and the size 92. */
  const PREFIX: seq<u8> :=
    [0x45, 0x46, 0x49, 0x20, 0x50, 0x41, 0x52, 0x54, 0x00, 0x00, 0x01, 0x00, 0x5c, 0x00, 0x00, 0x00]

  /** The CRC-32 of the first 92 bytes with the checksum field taken as zero. */
  function ImageChecksum(b: seq<u8>): u32
    requires |b| >= 92
  {
    Crc.ChecksumIeee(b[..16] + [0, 0, 0, 0] + b[20..92])
  }

  lemma PrefixOf(h: GptHeader)
    ensures var b := EncodeHeader(h);
            && |b| == 92 && b[..8] == h.signature && b[8..12] == h.revision && b[12..16] == ToLE(h.headerSize, 4)
            && b[16..20] == ToLE(h.selfChecksum, 4)
            && ImageChecksum(b) == Crc.ChecksumIeee(EncodeHeader(h.(selfChecksum := 0)))
  {
    hide EncodeHeader, Crc.ChecksumIeee, ToLE;
    HeaderRoundTrip(h, []);
    HeaderOffsets(h);
    ChecksumField(h, 0);
    ZeroLE(4);
    ZeroedImage(EncodeHeader(h), EncodeHeader(h.(selfChecksum := 0)));
  }

  lemma ZeroedImage(b: seq<u8>, z: seq<u8>)
    requires |b| == |z| == 92 && b[..16] == z[..16] && b[20..] == z[20..] && z[16..20] == [0, 0, 0, 0]
    ensures b[..16] + [0, 0, 0, 0] + b[20..92] == z
  {
    assert z == z[..16] + z[16..20] + z[20..];
  }

  lemma SizeField(n: u32)
    ensures ToLE(n, 4) == [0x5c, 0, 0, 0] <==> n == 92
  {
    Pow256Values();
    FromToLE(n, 4);
    var b := [0x5c, 0, 0, 0];
    assert FromLE(b) == 92 by { assert b[1..] == [0, 0, 0] && b[1..][1..] == [0, 0] && b[1..][1..][1..] == [0]; }
    FromToLE(92, 4);
    ToFromLE(b);
  }

  lemma SamePieces(b: seq<u8>, e: seq<u8>)
    requires |b| >= 92 && e == b[..92]
    ensures b[..8] == e[..8] && b[8..12] == e[8..12] && b[12..16] == e[12..16] && b[16..20] == e[16..20]
    ensures ImageChecksum(b) == ImageChecksum(e)
  {
    hide Crc.ChecksumIeee;
    assert b[..16] == e[..16] && b[20..92] == e[20..92];
  }

  /** Every block, by its bytes alone: what it reads as, and why it is refused otherwise. */
  lemma HeaderVerdict(b: seq<u8>)
    ensures |b| < 92 ==> HeaderFromSlice(b) == Err(Deserialize)
    ensures |b| >= 92 ==>
              var r := HeaderFromSlice(b);
              if b[12..16] != PREFIX[12..16] then r == Err(GptHeaderSize)
              else if b[..8] != PREFIX[..8] then r == Err(GptSignature)
              else if b[8..12] != PREFIX[8..12] then r == Err(GptRevision)
              else if b[16..20] != ToLE(ImageChecksum(b), 4) then r == Err(GptChecksum)
              else r.Ok? && EncodeHeader(r.value) == b[..92]
  {
    hide EncodeHeader, DecodeHeader, Crc.ChecksumIeee, ImageChecksum, ToLE, FromLE;
    HeaderDecodesAll(b);
    if |b| >= 92 {
      var h := DecodeHeader(b).value;
      PrefixOf(h);
      SizeField(h.headerSize);
      SamePieces(b, EncodeHeader(h));
      Pow256Values();
      FromToLE(h.selfChecksum, 4);
      FromToLE(ImageChecksum(b), 4);
    }
  }

  lemma ChecksumSlot(h: GptHeader, c: u32)
    ensures |HEADER_LAYOUT| == |HeaderFields(h)| == 17 && HEADER_LAYOUT[3] == KInt(4) && Fits(KInt(4), Int(c))
    ensures HeaderFields(h)[3 := Int(c)] == HeaderFields(h.(selfChecksum := c))
    ensures Size(HEADER_LAYOUT) - Size(HEADER_LAYOUT[3..]) == 16
  {
    hide AllFit, Size;
    Pow256Values();
    assert HEADER_OFFSETS[3] == 16;
    OffsetIs(HEADER_LAYOUT, HEADER_OFFSETS, 3);
  }

  /** A stretch of a header that does not cross an edge of the checksum field. */
  predicate BesideChecksum(i: nat, w: nat) { i + w <= 16 || 20 <= i || (16 <= i && i + w <= 20) }

  lemma Zeroed(e: seq<u8>, e': seq<u8>, z: seq<u8>, z': seq<u8>, i: nat, w: nat)
    requires |e| == |e'| == |z| == |z'| == HEADER_BYTES && SameBut(e, e', i, w) && BesideChecksum(i, w)
    requires e[..16] == z[..16] && e[20..] == z[20..] && e'[..16] == z'[..16] && e'[20..] == z'[20..]
    requires z[16..20] == z'[16..20]
    ensures if 16 <= i && i + w <= 20 then z == z' else SameBut(z, z', i, w) && e[16..20] == e'[16..20]
    ensures z == z' && e[16..20] == e'[16..20] ==> e == e'
  {
    SameElsewhere(e, e', i, w);
    Joined(e, z);
    Joined(e', z');
    assert forall j :: 16 <= j < 20 ==> z[j] == z[16..20][j - 16] && z'[j] == z'[16..20][j - 16];
    if e[16..20] == e'[16..20] {
      assert forall j :: 16 <= j < 20 ==> e[j] == e[16..20][j - 16] && e'[j] == e'[16..20][j - 16];
    }
  }

  lemma Joined(e: seq<u8>, z: seq<u8>)
    requires |e| == |z| == HEADER_BYTES && e[..16] == z[..16] && e[20..] == z[20..]
    ensures forall j :: 0 <= j < HEADER_BYTES && !(16 <= j < 20) ==> e[j] == z[j]
  {
    forall j | 0 <= j < HEADER_BYTES && !(16 <= j < 20) ensures e[j] == z[j] {
      if j < 16 { assert e[..16][j] == z[..16][j]; } else { assert e[20..][j - 20] == z[20..][j - 20]; }
    }
  }

  lemma SameElsewhere(a: seq<u8>, b: seq<u8>, i: nat, w: nat)
    requires SameBut(a, b, i, w)
    ensures forall j :: 0 <= j < |a| && !(i <= j < i + w) ==> a[j] == b[j]
  {
    forall j | 0 <= j < |a| && !(i <= j < i + w) ensures a[j] == b[j] {
      if j < i { assert a[..i][j] == b[..i][j]; } else { assert a[i + w..][j - i - w] == b[i + w..][j - i - w]; }
    }
  }

  /** Two readable headers never differ in four consecutive bytes beside the checksum alone. */
  lemma ReadableApart(h: GptHeader, h': GptHeader, i: nat, w: nat)
    requires Readable(h) && Readable(h') && w <= 4 && BesideChecksum(i, w)
    requires SameBut(EncodeHeader(h), EncodeHeader(h'), i, w)
    ensures EncodeHeader(h) == EncodeHeader(h')
  {
    hide EncodeHeader, ToLE, Crc.Update, SameBut, BesideChecksum;
    var e, z := EncodeHeader(h), EncodeHeader(h.(selfChecksum := 0));
    var e', z' := EncodeHeader(h'), EncodeHeader(h'.(selfChecksum := 0));
    ChecksumField(h, 0);
    ChecksumField(h', 0);
    ChecksumField(h, h.selfChecksum);
    ChecksumField(h', h'.selfChecksum);
    Zeroed(e, e', z, z', i, w);
    FromToLE(h.selfChecksum, 4);
    FromToLE(h'.selfChecksum, 4);
    if z != z' { Crc.BurstDetected(0, z, z', i, w); }
  }

  /** Whatever change of up to four consecutive bytes a header suffers, beside its checksum or inside it, and so
      whatever single byte is changed: the block no longer reads as a header. */
  lemma DamageDetected(block: seq<u8>, block': seq<u8>, i: nat, w: nat)
    requires |block| >= HEADER_BYTES && SameBut(block, block', i, w) && block != block'
    requires w <= 4 && i + w <= HEADER_BYTES && BesideChecksum(i, w) && HeaderFromSlice(block).Ok?
    ensures HeaderFromSlice(block').Err?
  {
    hide EncodeHeader, HeaderFromSlice, Readable, BesideChecksum;
    var n := HEADER_BYTES;
    SameElsewhere(block, block', i, w);
    assert SameBut(block[..n], block'[..n], i, w);
    assert block[..n] != block'[..n] by {
      if block[..n] == block'[..n] {
        assert forall j :: 0 <= j < n ==> block[j] == block[..n][j] && block'[j] == block'[..n][j];
        assert false;
      }
    }
    if HeaderFromSlice(block').Ok? {
      var h, h' := HeaderFromSlice(block).value, HeaderFromSlice(block').value;
      HeaderBlock(h, block);
      HeaderBlock(h', block');
      ReadableApart(h, h', i, w);
      assert false;
    }
  }

  /** A block reads as a protective MBR exactly when its last 72 of 512 bytes are those of a signed one. */
  lemma MbrBlock(m: Pmbr, block: seq<u8>)
    requires |block| >= 512
    ensures ReadMbr(block) == Ok(m) <==> m.signature == PMBR_SIGNATURE && block[440..512] == EncodeMbr(m)
  {
    hide EncodeMbr, DecodeMbr;
    var b := block[440..512];
    MbrDecodesAll(b);
    MbrRoundTrip(m, []);
    assert EncodeMbr(m) + [] == EncodeMbr(m);
    assert b[..MBR_BYTES] == b;
  }

  /** A block reads as an MBR exactly when it ends with 55 aa. */
  lemma MbrVerdict(block: seq<u8>)
    requires |block| >= 512
    ensures if block[510..512] == [0x55, 0xaa]
            then ReadMbr(block).Ok? && EncodeMbr(ReadMbr(block).value) == block[440..512]
            else ReadMbr(block) == Err(MbrSignature)
  {
    hide EncodeMbr, DecodeMbr;
    var b := block[440..512];
    MbrDecodesAll(b);
    var m := DecodeMbr(b).value;
    MbrOffsets(m);
    assert b[..MBR_BYTES] == b;
    assert block[510..512] == b[70..72];
  }

  /** Two headers that are valid on the same device and pass the consistency check agree in
      everything but the reserved bytes and the checksum over them; so each is exactly what the
      other derives if and only if their reserved bytes agree. */
  lemma ConsistentHeadersDeriveEachOther(p: GptHeader, s: GptHeader, blockSize: u64, numBlocks: u64)
    requires blockSize > 0 && Readable(p) && Readable(s)
    requires ValidatePrimary(p, blockSize, numBlocks).Ok? && ValidateSecondary(s, blockSize, numBlocks).Ok?
    requires ConsistencyCheck(p, s).Ok?
    ensures s.(selfChecksum := 0, reserved := p.reserved) == AsSecondary(p).(selfChecksum := 0)
    ensures p.(selfChecksum := 0, reserved := s.reserved) == AsPrimary(s).(selfChecksum := 0)
    ensures s == AsSecondary(p) <==> p.reserved == s.reserved
    ensures p == AsPrimary(s) <==> p.reserved == s.reserved
  {
    hide WithChecksum;
    var s' := p.(lbaSelf := p.lbaAlt, lbaAlt := p.lbaSelf, lbaTable := Add64(p.lbaEnd, 1));
    var p' := s.(lbaSelf := s.lbaAlt, lbaAlt := s.lbaSelf, lbaTable := Add64(s.lbaAlt, 1));
    assert s.(reserved := p.reserved) == s'.(selfChecksum := s.selfChecksum);
    assert p.(reserved := s.reserved) == p'.(selfChecksum := p.selfChecksum);
    ChecksumIgnoresField(s', s.selfChecksum);
    ChecksumIgnoresField(p', p.selfChecksum);
  }

  // ------------------------------------------------------------------ geometry

  /** The first usable block leaves room for the MBR, the header and the whole table exactly when
      blocks are smaller than 512 KiB. */
  lemma TableFitsBeforeData(blockSize: nat)
    requires blockSize > 0
    ensures 2 + TableBlocks(blockSize) <= GetBlocks(DATA_OFFSET, blockSize) <==> blockSize < 524288
  {
    var t, n := TableBlocks(blockSize), GetBlocks(DATA_OFFSET, blockSize);
    if blockSize >= 524288 {
      if n >= 3 { MulLe(2, n - 1, blockSize); }
    } else if n <= t + 1 {
      MulLe(n, t + 1, blockSize);
      assert (t + 1) * blockSize == (t - 1) * blockSize + 2 * blockSize;
      if t >= 2 { MulLe(1, t - 1, blockSize); }
    }
  }
}
