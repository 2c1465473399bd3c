/** GPT headers and labels as values: construction, validation, the two buffers
    written to disk, and probing a disk. */
module GptLabels {
  import opened Bytes
  import opened GptCodec
  import opened Arith
  import Crc

  const PARTITION_TABLE_SIZE := 128 * 128
  const DATA_OFFSET := 1024 * 1024
  const METADATA_PARTITION_SIZE := 4 * 1024 * 1024
  const HEADER_SIGNATURE: Bytes8 := [0x45, 0x46, 0x49, 0x20, 0x50, 0x41, 0x52, 0x54]
  const HEADER_REVISION: Bytes4 := [0, 0, 1, 0]
  const PMBR_SIGNATURE: Bytes2 := [0x55, 0xaa]
  const META_TYPE := GptGuid(0x27663382, 0xe5e6, 0x11e9, [0x81, 0xb4, 0xca, 0x5c, 0xa5, 0xca, 0x5c, 0xa5])
  const DATA_TYPE := GptGuid(0x27663382, 0xe5e6, 0x11e9, [0x81, 0xb4, 0xca, 0x5c, 0xa5, 0xca, 0x5c, 0xa6])
  const META_NAME := "MayaMeta"
  const DATA_NAME := "MayaData"

  datatype Result<+T, +E> = Ok(value: T) | Err(error: E)

  datatype ProbeError =
    | Deserialize | MbrSignature | MbrSize | GptSignature | GptRevision | GptHeaderSize | GptChecksum
    | PartitionTableChecksum | CompareDiskGuid | ComparePartitionTableChecksum | PartitionTableLocation
    | PrimaryLocation | SecondaryLocation | FirstUsableBlock | LastUsableBlock | PartitionTableSize
    | PartitionTableSpace | PartitionStart | PartitionEnd | NegativePartitionSize | CompareHeaderLocation
    | ComparePartitionEntryCount | ComparePartitionEntrySize

  datatype LabelError =
    | InvalidLabel(source: ProbeError) | ReadError | DeviceTooSmall | LabelTooLarge

  datatype LabelStatus = Both | Primary | Secondary | Neither

  datatype GptLabel = GptLabel(
    status: LabelStatus, blockSize: u64, mbr: Pmbr,
    primary: GptHeader, partitions: seq<GptEntry>, secondary: GptHeader)

  type Check = Result<(), ProbeError>

  function Wrap64(x: nat): (r: u64)
    ensures x < U64_MODULUS ==> r == x
  {
    x % U64_MODULUS
  }

  function Mul64(a: u64, b: u64): u64 { Wrap64(a * b) }

  /** Blocks needed for `size` bytes. */
  function GetBlocks(size: nat, blockSize: nat): (n: nat)
    requires blockSize > 0
    ensures n * blockSize >= size
    ensures n > 0 ==> (n - 1) * blockSize < size
    ensures n <= size
  {
    var n := if size % blockSize == 0 then size / blockSize else size / blockSize + 1;
    CeilDiv(size, blockSize, n);
    n
  }

  /** Byte offset of a block. */
  function Off(lba: nat, blockSize: nat): nat { lba * blockSize }

  function TableBlocks(blockSize: nat): nat
    requires blockSize > 0
  {
    GetBlocks(PARTITION_TABLE_SIZE, blockSize)
  }

  // ----------------------------------------------------------------- headers

  function WithChecksum(h: GptHeader): (r: GptHeader)
    ensures r.(selfChecksum := 0) == h.(selfChecksum := 0)
  {
    h.(selfChecksum := Crc.ChecksumIeee(EncodeHeader(h.(selfChecksum := 0))))
  }

  function NewHeader(guid: GptGuid, blockSize: u64, numBlocks: u64): GptHeader
    requires blockSize > 0
  {
    GptHeader(HEADER_SIGNATURE, HEADER_REVISION, HEADER_BYTES, 0, [0, 0, 0, 0],
              1, Sub64(numBlocks, 1), GetBlocks(DATA_OFFSET, blockSize),
              Sub64(Sub64(numBlocks, TableBlocks(blockSize)), 2),
              guid, 2, 128, 128, 0)
  }

  function AsSecondary(h: GptHeader): GptHeader {
    WithChecksum(h.(lbaSelf := h.lbaAlt, lbaAlt := h.lbaSelf, lbaTable := Add64(h.lbaEnd, 1)))
  }

  function AsPrimary(h: GptHeader): GptHeader {
    WithChecksum(h.(lbaSelf := h.lbaAlt, lbaAlt := h.lbaSelf, lbaTable := Add64(h.lbaAlt, 1)))
  }

  predicate Checksummed(h: GptHeader) { WithChecksum(h) == h }

  function HeaderFromSlice(b: seq<u8>): Result<GptHeader, ProbeError> {
    match DecodeHeader(b)
    case Malformed => Err(Deserialize)
    case Read(h, _) =>
      if h.headerSize != HEADER_BYTES then Err(GptHeaderSize)
      else if h.signature != HEADER_SIGNATURE then Err(GptSignature)
      else if h.revision != HEADER_REVISION then Err(GptRevision)
      else if !Checksummed(h) then Err(GptChecksum)
      else Ok(h)
  }

  function TableBytes(h: GptHeader): u32 { Mul32(h.numEntries, h.entrySize) }

  function ValidatePrimary(h: GptHeader, blockSize: u64, numBlocks: u64): Check
    requires blockSize > 0
  {
    if h.lbaSelf != 1 then Err(PrimaryLocation)
    else if Add64(h.lbaAlt, 1) != numBlocks then Err(SecondaryLocation)
    else if h.lbaEnd >= h.lbaAlt then Err(LastUsableBlock)
    else if h.lbaTable != Add64(h.lbaSelf, 1) then Err(PartitionTableLocation)
    else if TableBytes(h) > PARTITION_TABLE_SIZE then Err(PartitionTableSize)
    else if Add64(h.lbaTable, TableBlocks(blockSize)) > h.lbaStart then Err(PartitionTableSpace)
    else Ok(())
  }

  function ValidateSecondary(h: GptHeader, blockSize: u64, numBlocks: u64): Check
    requires blockSize > 0
  {
    if h.lbaAlt != 1 then Err(PrimaryLocation)
    else if Add64(h.lbaSelf, 1) != numBlocks then Err(SecondaryLocation)
    else if h.lbaAlt >= h.lbaStart then Err(FirstUsableBlock)
    else if h.lbaTable != Add64(h.lbaEnd, 1) then Err(PartitionTableLocation)
    else if TableBytes(h) > PARTITION_TABLE_SIZE then Err(PartitionTableSize)
    else if Add64(h.lbaTable, TableBlocks(blockSize)) > h.lbaSelf then Err(PartitionTableSpace)
    else Ok(())
  }

  function ConsistencyCheck(p: GptHeader, s: GptHeader): Check {
    if p.lbaSelf != s.lbaAlt then Err(CompareHeaderLocation)
    else if p.lbaAlt != s.lbaSelf then Err(CompareHeaderLocation)
    else if p.lbaStart != s.lbaStart then Err(FirstUsableBlock)
    else if p.lbaEnd != s.lbaEnd then Err(LastUsableBlock)
    else if p.guid != s.guid then Err(CompareDiskGuid)
    else if p.numEntries != s.numEntries then Err(ComparePartitionEntryCount)
    else if p.entrySize != s.entrySize then Err(ComparePartitionEntrySize)
    else if p.tableCrc != s.tableCrc then Err(ComparePartitionTableChecksum)
    else Ok(())
  }

  // --------------------------------------------------------------- partitions

  /** Checksum of a partition list, padded with default entries up to `size` entries. */
  function TableChecksum(es: seq<GptEntry>, size: nat): u32 {
    Crc.ChecksumIeee(EncodeEntries(Padded(es, size)))
  }

  function ValidateEntry(e: GptEntry, h: GptHeader): Check {
    if 0 < e.entStart < h.lbaStart then Err(PartitionStart)
    else if e.entStart > e.entEnd then Err(NegativePartitionSize)
    else if e.entEnd > h.lbaEnd then Err(PartitionEnd)
    else Ok(())
  }

  function ValidateEntries(es: seq<GptEntry>, h: GptHeader): Check {
    if es == [] then Ok(())
    else if ValidateEntry(es[0], h).Err? then ValidateEntry(es[0], h)
    else ValidateEntries(es[1..], h)
  }

  function ValidatePartitions(es: seq<GptEntry>, h: GptHeader): Check {
    if ValidateEntries(es, h).Err? then ValidateEntries(es, h)
    else if h.tableCrc != TableChecksum(es, h.numEntries) then Err(PartitionTableChecksum)
    else Ok(())
  }

  predicate Used(e: GptEntry) { e.entStart > 0 || e.entEnd > 0 }

  /** The entries that define partitions, in table order. */
  function Retain(es: seq<GptEntry>): seq<GptEntry> {
    if es == [] then []
    else if Used(es[0]) then [es[0]] + Retain(es[1..])
    else Retain(es[1..])
  }

  function ReadPartitions(b: seq<u8>, h: GptHeader): Result<seq<GptEntry>, ProbeError> {
    match DecodeEntries(b, h.numEntries)
    case None => Err(Deserialize)
    case Some(es) => if ValidatePartitions(es, h).Err? then Err(ValidatePartitions(es, h).error) else Ok(es)
  }

  // --------------------------------------------------------------- generation

  function Protect(numBlocks: u64): MbrEntry
    requires numBlocks >= 1
  {
    MbrEntry(0, [0, 2, 0], 0xee, [0xff, 0xff, 0xff], 1,
             if numBlocks > U32_MAX then U32_MAX else numBlocks - 1)
  }

  function ProtectiveMbr(numBlocks: u64): Pmbr
    requires numBlocks >= 1
  {
    Pmbr(0, 0, [Protect(numBlocks), DEFAULT_MBR_ENTRY, DEFAULT_MBR_ENTRY, DEFAULT_MBR_ENTRY], PMBR_SIGNATURE)
  }

  function Min(a: u64, b: u64): u64 { if a <= b then a else b }

  /** The MayaMeta and MayaData entries; `metaGuid` stands for the random one. */
  function CreatePartitions(h: GptHeader, blockSize: u64, devSize: u64, dataSize: u64, metaGuid: GptGuid)
    : Result<seq<GptEntry>, LabelError>
    requires blockSize > 0
  {
    var dataStart: u64 := Add64(h.lbaStart, GetBlocks(METADATA_PARTITION_SIZE, blockSize));
    if dataStart > h.lbaEnd then Err(DeviceTooSmall)
    else if dataSize > devSize then Err(LabelTooLarge)
    else
      var dataBlocks: u64 := GetBlocks(dataSize, blockSize);
      Ok([GptEntry(META_TYPE, metaGuid, h.lbaStart, Sub64(dataStart, 1), 0, META_NAME),
          GptEntry(DATA_TYPE, h.guid, dataStart, Min(Sub64(Add64(dataStart, dataBlocks), 1), h.lbaEnd), 0, DATA_NAME)])
  }

  function GenerateLabel(guid: GptGuid, blockSize: u64, numBlocks: u64, dataSize: Option<u64>, metaGuid: GptGuid)
    : Result<GptLabel, LabelError>
    requires blockSize > 0 && numBlocks >= 1
  {
    var h := NewHeader(guid, blockSize, numBlocks);
    var devSize := Mul64(blockSize, numBlocks);
    var size := if dataSize.Some? then dataSize.value else devSize;
    match CreatePartitions(h, blockSize, devSize, size, metaGuid)
    case Err(e) => Err(e)
    case Ok(ps) =>
      var primary := WithChecksum(h.(tableCrc := TableChecksum(ps, h.numEntries)));
      Ok(GptLabel(Neither, blockSize, ProtectiveMbr(numBlocks), primary, ps, AsSecondary(primary)))
  }

  function FindPartition(es: seq<GptEntry>, name: string): Option<GptEntry> {
    if es == [] then None
    else if es[0].entName == name then Some(es[0])
    else FindPartition(es[1..], name)
  }

  predicate CheckPartitions(lbl: GptLabel)
    requires lbl.blockSize > 0
  {
    var metaStart: u64 := GetBlocks(DATA_OFFSET, lbl.blockSize);
    var dataStart: u64 := Add64(metaStart, GetBlocks(METADATA_PARTITION_SIZE, lbl.blockSize));
    var meta := FindPartition(lbl.partitions, META_NAME);
    var data := FindPartition(lbl.partitions, DATA_NAME);
    && metaStart == lbl.primary.lbaStart
    && dataStart <= lbl.primary.lbaEnd
    && meta.Some? && meta.value.entType == META_TYPE
    && meta.value.entStart == metaStart && meta.value.entEnd == Sub64(dataStart, 1)
    && data.Some? && data.value.entType == DATA_TYPE && data.value.entStart == dataStart
  }

  // ------------------------------------------------------------------ writing

  /** Writing bytes into a fixed buffer at an offset; fails when they do not fit. */
  function PutAt(buf: seq<u8>, off: nat, bytes: seq<u8>): (r: Option<seq<u8>>)
    ensures r.Some? ==> |r.value| == |buf|
  {
    if bytes == [] then Some(buf)
    else if off + |bytes| > |buf| then None
    else Some(buf[..off] + bytes + buf[off + |bytes|..])
  }

  function ThenPutAt(r: Option<seq<u8>>, off: nat, bytes: seq<u8>): Option<seq<u8>> {
    if r.None? then None else PutAt(r.value, off, bytes)
  }

  /** The buffer of the primary write, which goes to offset 0. */
  function PrimaryBuffer(lbl: GptLabel): Option<seq<u8>> {
    var h, bs := lbl.primary, lbl.blockSize;
    var b1 := PutAt(Zeros(Mul64(h.lbaStart, bs)), 440, EncodeMbr(lbl.mbr));
    var b2 := ThenPutAt(b1, Mul64(h.lbaSelf, bs), EncodeHeader(h));
    ThenPutAt(b2, Mul64(h.lbaTable, bs), EncodeEntries(lbl.partitions))
  }

  function SecondaryOffset(lbl: GptLabel): u64 { Mul64(lbl.secondary.lbaTable, lbl.blockSize) }

  /** The buffer of the secondary write: the table from its first block, the header in the last block. */
  function SecondaryBuffer(lbl: GptLabel): Option<seq<u8>> {
    var h, bs := lbl.secondary, lbl.blockSize;
    var before := Sub64(h.lbaSelf, h.lbaTable);
    var b1 := PutAt(Zeros(Mul64(Add64(before, 1), bs)), 0, EncodeEntries(lbl.partitions));
    ThenPutAt(b1, Mul64(before, bs), EncodeHeader(h))
  }

  /** A device write; fails when it would pass the end of the device. */
  function WriteAt(disk: seq<u8>, off: nat, buf: seq<u8>): (r: Option<seq<u8>>)
    ensures r.Some? ==> |r.value| == |disk|
  {
    if off + |buf| > |disk| then None else Some(disk[..off] + buf + disk[off + |buf|..])
  }

  function WritePrimary(disk: seq<u8>, lbl: GptLabel): (r: Option<seq<u8>>)
    ensures r.Some? ==> |r.value| == |disk|
  {
    match PrimaryBuffer(lbl)
    case None => None
    case Some(buf) => WriteAt(disk, 0, buf)
  }

  function WriteLabel(disk: seq<u8>, lbl: GptLabel): (r: Option<seq<u8>>)
    ensures r.Some? ==> |r.value| == |disk|
  {
    match (WritePrimary(disk, lbl), SecondaryBuffer(lbl))
    case (Some(d), Some(buf)) => WriteAt(d, SecondaryOffset(lbl), buf)
    case _ => None
  }

  // ------------------------------------------------------------------ probing

  /** A device the block layer can present: at least 512 bytes a block, sizes in 64 bits. */
  predicate Device(disk: seq<u8>, blockSize: u64, numBlocks: u64) {
    blockSize >= 512 && numBlocks >= 1 && |disk| == blockSize * numBlocks < U64_MODULUS
  }

  function ReadAt(disk: seq<u8>, off: nat, len: nat): (r: Option<seq<u8>>)
    ensures r.Some? ==> |r.value| == len
  {
    if off + len > |disk| then None else Some(disk[off..off + len])
  }

  function ReadMbr(block: seq<u8>): Result<Pmbr, ProbeError>
    requires |block| >= 512
  {
    match DecodeMbr(block[440..512])
    case Malformed => Err(Deserialize)
    case Read(m, _) => if m.signature != PMBR_SIGNATURE then Err(MbrSignature) else Ok(m)
  }

  function ReadPrimaryHeader(block: seq<u8>, blockSize: u64, numBlocks: u64): Result<GptHeader, ProbeError>
    requires blockSize > 0
  {
    match HeaderFromSlice(block)
    case Err(e) => Err(e)
    case Ok(h) =>
      match ValidatePrimary(h, blockSize, numBlocks)
      case Err(e) => Err(e)
      case Ok(_) => Ok(h)
  }

  function ReadSecondaryHeader(block: seq<u8>, blockSize: u64, numBlocks: u64): Result<GptHeader, ProbeError>
    requires blockSize > 0
  {
    match HeaderFromSlice(block)
    case Err(e) => Err(e)
    case Ok(h) =>
      match ValidateSecondary(h, blockSize, numBlocks)
      case Err(e) => Err(e)
      case Ok(_) => Ok(h)
  }

  datatype Headers = Headers(status: LabelStatus, primary: GptHeader, secondary: GptHeader) {
    /** The header that was read from disk and whose table is used. */
    function Active(): GptHeader { if status == Secondary then secondary else primary }
  }

  /** Picks the headers from the two header blocks, rebuilding a lost one from the other. */
  function ChooseHeaders(p: Result<GptHeader, ProbeError>, s: Result<GptHeader, ProbeError>)
    : Result<Headers, ProbeError>
  {
    match (p, s)
    case (Ok(primary), Ok(secondary)) =>
      if ConsistencyCheck(primary, secondary).Err? then Err(ConsistencyCheck(primary, secondary).error)
      else Ok(Headers(Both, primary, secondary))
    case (Ok(primary), Err(_)) => Ok(Headers(Primary, primary, AsSecondary(primary)))
    case (Err(_), Ok(secondary)) => Ok(Headers(Secondary, AsPrimary(secondary), secondary))
    case (Err(e), Err(_)) => Err(e)
  }

  predicate MbrMatches(mbr: Pmbr, primary: GptHeader) {
    mbr.entries[0].numSectors == U32_MAX || mbr.entries[0].numSectors == primary.lbaAlt
  }

  function ReadTable(disk: seq<u8>, h: GptHeader, blockSize: u64): Result<seq<GptEntry>, LabelError>
    requires blockSize > 0
  {
    var len := Off(GetBlocks(TableBytes(h), blockSize), blockSize);
    match ReadAt(disk, Mul64(h.lbaTable, blockSize), len)
    case None => Err(ReadError)
    case Some(b) =>
      match ReadPartitions(b, h)
      case Err(e) => Err(InvalidLabel(e))
      case Ok(es) => Ok(es)
  }

  /** The primary header, from block 1, and the secondary, from the last block. */
  function PrimaryRead(disk: seq<u8>, blockSize: u64, numBlocks: u64): Result<GptHeader, ProbeError>
    requires Device(disk, blockSize, numBlocks) && numBlocks >= 2
  {
    ReadPrimaryHeader(Block(disk, blockSize, numBlocks, 1), blockSize, numBlocks)
  }

  function SecondaryRead(disk: seq<u8>, blockSize: u64, numBlocks: u64): Result<GptHeader, ProbeError>
    requires Device(disk, blockSize, numBlocks)
  {
    ReadSecondaryHeader(Block(disk, blockSize, numBlocks, numBlocks - 1), blockSize, numBlocks)
  }

  function Probe(disk: seq<u8>, blockSize: u64, numBlocks: u64): Result<GptLabel, LabelError>
    requires Device(disk, blockSize, numBlocks)
  {
    match ReadMbr(Block(disk, blockSize, numBlocks, 0))
    case Err(e) => Err(InvalidLabel(e))
    case Ok(mbr) =>
      if numBlocks < 2 then Err(ReadError)
      else
        match ChooseHeaders(PrimaryRead(disk, blockSize, numBlocks), SecondaryRead(disk, blockSize, numBlocks))
        case Err(e) => Err(InvalidLabel(e))
        case Ok(hs) =>
          if !MbrMatches(mbr, hs.primary) then Err(InvalidLabel(MbrSize))
          else
            match ReadTable(disk, hs.Active(), blockSize)
            case Err(e) => Err(e)
            case Ok(es) => Ok(GptLabel(hs.status, blockSize, mbr, hs.primary, Retain(es), hs.secondary))
  }

  function Block(disk: seq<u8>, blockSize: u64, numBlocks: u64, lba: nat): (b: seq<u8>)
    requires Device(disk, blockSize, numBlocks) && lba < numBlocks
    ensures |b| == blockSize
  {
    BlockInside(blockSize, numBlocks, lba);
    disk[Off(lba, blockSize)..Off(lba, blockSize) + blockSize]
  }

  lemma BlockInside(blockSize: nat, numBlocks: nat, lba: nat)
    requires lba < numBlocks
    ensures Off(lba, blockSize) + blockSize <= blockSize * numBlocks
  {
    MulLe(lba + 1, numBlocks, blockSize);
  }
}
