# Mayastor io-engine: labels, wiping, rebuild maps and reactors

This project models four parts of the Mayastor I/O engine, and the partial rebuild that builds on one of
them, and proves what they promise for all inputs and over all runs.

* **Partition labels.** The protective MBR, the two GPT headers and the partition table (sections 5.2.3,
  5.3.2 and 5.3.3 of the UEFI Specification), their byte-exact encodings, the two disk writes, and the probe
  that reads a label back and rebuilds a lost header from the surviving one. A disk is a sequence of bytes.
* **Wiping.** The chunk plan, the split of large chunks, progress accounting, and the running CRC-32C, on a
  device that may fail any I/O and a client that may close its stream at any time.
* **Dirty maps and partial rebuild.** The segment map, the per-core I/O log, and the rebuild of a child that
  missed writes from a possibly thin source: copies under range locks interleave with host writes and unmaps in
  every possible order.
* **Reactors.** The poll loop with its interrupt mode, nesting and fallback, the futures channel and the
  incoming thread queue with their eventfd wakeup, thread scheduling over several cores, and the heartbeat
  monitor.

Code that computes is a function; code that updates buffers, counters or queues is a method or a class whose
contract ties it to such a function or to a run of a state machine. Integers are unbounded; the 64-bit and
32-bit sums and products of the label code wrap explicitly, as they do in the release profile.

| files | content |
|---|---|
| Arith, Bytes, Crc, CrcValues, Utf16 | arithmetic, little-endian fields, checksums and their values, UTF-16 |
| GptCodec, GptLabels, GptIo | encodings, label operations, and the same as loops over buffers |
| GptHeaderLaws, GptRoundTrip, GptTheorems, GptProbeSound, GptGenerated | what labels promise |
| GptProbeExact | exactly which disks are accepted |
| GptTable, GptTableDamage | the bytes of a table against its entries, and which damage to it is noticed |
| WipePlan, WipeTheorems, Wiper, WipedLabels | plan, coverage and checksum, the wiper itself, what it leaves of a label |
| SegmentMaps, IoLog, Rebuild, RebuildLimits, RebuildData, RebuildProgress | dirty map, log, rebuild, its exact limit, what the children hold, and that it can end |
| ReactorProtocol, ReactorTheorems, ReactorShutdown, Reactor, ReactorSystem, Monitor | one reactor, its shutdown, its loop, all reactors, the monitor |

## Exact limits

Where a promise does not hold on all inputs, the project proves the condition under which it does, in both
directions unless said otherwise.

* A partition name survives exactly when it has at most 35 UTF-16 units and no NUL: a name of 36 units is
  written without terminator and refused on reading.
* A generated label survives writing and probing exactly when blocks are under 512 KiB, the device holds both
  tables and headers, and the requested data size is not zero.
* A label is generated when MayaMeta and one more block fit, but also on devices too small for the two tables,
  where the last usable block wraps; such a label cannot be written.
* A lost primary table is recovered exactly when the primary header is lost with it.
* The table's checksum is taken over its entries encoded again, not over the bytes on the disk. The two agree when every
  name on the disk holds a NUL with only NULs behind it and no unpaired surrogate before it, which is exactly when the
  bytes survive decoding and encoding. Every written table is such a table; damage to up to four consecutive bytes of a
  slot's fixed fields is always noticed, but to a byte behind the NUL of the last used name it is not, and in an unused slot
  exactly damage before byte 58 is.
* A header rebuilt from the other equals the lost one exactly when their reserved bytes agreed, as they do in
  every generated label.
* Re-labelling a device and stopping between the two writes leaves a label that can be found exactly when the new
  primary header is consistent with the old secondary one.
* A label accepted through its secondary header alone may claim blocks behind the device only if its last
  usable block is 2^64-1, where the check wraps, or on devices close to 2^64 bytes; a disk that does so is given.
* A wipe covers its range exactly when its chunks are at most 8 MiB or have fewer than 33 blocks: the split of
  a larger chunk drops the last 33 blocks of every chunk. It can come to its end exactly when the chunk size and
  the size of its short last chunk can be issued; otherwise it may fail after all but the last chunk.
* The 33 spared blocks contain the backup label exactly when blocks have at least 512 bytes.
* The reported number of dirty blocks is exact when no dirty segment reaches behind the device.
* A partial rebuild of any data is reliable exactly when it starts on a segment boundary or lies in one segment and the
  source does not release what is unmapped. A segment that was unmapped while the child was away, and released, is
  skipped as unwritten and marked clean, so the child keeps its old data. The data partition of a label starts on a
  boundary when a segment is a whole number of blocks, so there only the release matters.
* No wakeup is lost except for a thread scheduled on the reactor's own core before its loop starts. Only
  `Reactors::launch_master` runs the loop on a core that may have done so, and nothing in the engine calls it.
* A shutdown request is honoured in every run exactly when the reactor is neither before its loop, nor entering
  interrupt mode, nor draining in it, nor leaving it. A sleeping reactor acts on it once something else wakes it.

The comment at `Reactors::schedule` says threads go to the current core; the code takes the first core of the
thread's mask, and the model follows the code.

## Model

| member | source | states |
|---|---|---|
| Utf16.DecodeEncode | io-engine/src/bdev/gpt_labels.rs:391-437 | every string survives UTF-16 encoding and lossy decoding |
| Utf16.EncodeDecodeLength | io-engine/src/bdev/gpt_labels.rs:414-437 | any units, paired or not, decode to a string that encodes to as many units, and stays free of NUL |
| Utf16.EncodeDecodeIff | io-engine/src/bdev/gpt_labels.rs:414-437 | units survive decoding and encoding if and only if no surrogate among them is unpaired |
| Crc.RawConcat | io-engine/src/core/wiper.rs:184-209 | feeding the checksum register a block in two parts is feeding it whole, for every polynomial and register |
| Crc.UpdateConcat | io-engine/src/bdev/gpt_labels.rs:485-498 | writing to the table digest entry by entry is one checksum of the concatenation |
| Crc.BurstDetected | io-engine/src/bdev/gpt_labels.rs:305-309 | every change within four consecutive bytes changes the checksum, whatever the rest |
| CrcValues.ChecksumResidue | io-engine/src/bdev/gpt_labels.rs:305-309 | for every message: the message followed by its own checksum leaves 0xdebb20e3, the residue of CRC-32, in a register that starts with all ones |
| CrcValues.InvertedResidue | io-engine/src/core/wiper.rs:280-289 | for every message: the same of the Castagnoli register inverted once, with the residue 0xb798b438 of CRC-32C |
| CrcValues.IeeeCheck | io-engine/src/bdev/gpt_labels.rs:305-309 | the checksum of "123456789" is 0xcbf43926, the check value of CRC-32 |
| CrcValues.CastagnoliCheck | io-engine/src/core/wiper.rs:280-289 | the inverted register of "123456789" is 0xe3069283, the check value of CRC-32C |
| GptCodec.HeaderOffsets | io-engine/src/bdev/gpt_labels.rs:226-255 | every header field stands at the byte offset of section 5.3.2 of the UEFI Specification |
| GptCodec.MbrOffsets | io-engine/src/bdev/gpt_labels.rs:508-518 | every MBR field stands at its offset of section 5.2.3, counted from byte 440 |
| GptCodec.MbrEntryOffsets | io-engine/src/bdev/gpt_labels.rs:520-535 | so does every field of an MBR entry |
| GptCodec.EntryOffsets | io-engine/src/bdev/gpt_labels.rs:451-466 | every field of a partition entry stands at its offset of section 5.3.3 |
| GptCodec.HeaderRoundTrip | io-engine/src/bdev/gpt_labels.rs:275-309 | a header takes 92 bytes and reads back as itself, whatever follows it |
| GptCodec.HeaderDecodesAll | io-engine/src/bdev/gpt_labels.rs:275-302 | a slice decodes unless it has fewer than 92 bytes, and those bytes are exactly the encoding of what they decode to |
| GptCodec.MbrEntryRoundTrip | io-engine/src/bdev/gpt_labels.rs:520-535 | a 16-byte MBR entry reads back as itself |
| GptCodec.MbrRoundTrip | io-engine/src/bdev/gpt_labels.rs:566-576 | a protective MBR takes 72 bytes and reads back as itself, whatever follows it |
| GptCodec.MbrDecodesAll | io-engine/src/bdev/gpt_labels.rs:566-576 | a slice decodes unless it has fewer than 72 bytes, and those bytes are exactly the encoding of what they decode to |
| GptCodec.NameMeaning | io-engine/src/bdev/gpt_labels.rs:414-437 | what any 36 units of a name mean: refused without a NUL, otherwise the text before the first NUL, with the stream left early when a unit follows the NULs |
| GptCodec.NameRoundTripIff | io-engine/src/bdev/gpt_labels.rs:382-437 | a name reads back, with the stream right behind it, if and only if it has at most 35 UTF-16 units and no NUL |
| GptCodec.EntryRoundTripIff | io-engine/src/bdev/gpt_labels.rs:451-477 | an entry takes 128 bytes and reads back without shifting the stream if and only if its name does |
| GptCodec.EntriesRoundTripIff | io-engine/src/bdev/gpt_labels.rs:470-477 | a list of entries reads back one after the other, as itself, if and only if all its names are such |
| GptCodec.DefaultEntryIsZero | io-engine/src/bdev/gpt_labels.rs:485-498 | an unused slot is 128 zero bytes |
| GptLabels.GetBlocks | io-engine/src/bdev/gpt_labels.rs:1296-1304 | the least number of blocks that holds a given number of bytes |
| GptHeaderLaws.PrimaryThereAndBack | io-engine/src/bdev/gpt_labels.rs:341-364 | secondary and back is the identity if and only if the header is checksummed and its table lies right behind it |
| GptHeaderLaws.SecondaryThereAndBack | io-engine/src/bdev/gpt_labels.rs:341-364 | primary and back is the identity if and only if the header is checksummed and its table lies right behind the last usable block |
| GptHeaderLaws.HeaderBlock | io-engine/src/bdev/gpt_labels.rs:275-302 | a block reads as a header if and only if it starts with the bytes of a checksummed header of the right size, signature and revision |
| GptHeaderLaws.HeaderVerdict | io-engine/src/bdev/gpt_labels.rs:275-302 | for every block, by its bytes alone: refused for its size, signature, revision or checksum, named in this order, or read as the header whose encoding its first 92 bytes are |
| GptHeaderLaws.MbrBlock | io-engine/src/bdev/gpt_labels.rs:566-576 | a block reads as a protective MBR if and only if bytes 440 to 511 are those of a signed one |
| GptHeaderLaws.MbrVerdict | io-engine/src/bdev/gpt_labels.rs:566-576 | for every block: read as the MBR whose encoding bytes 440 to 511 are if it ends with 55 aa, refused for its signature otherwise |
| GptHeaderLaws.ChecksumField | io-engine/src/bdev/gpt_labels.rs:305-309 | the checksum is bytes 16 to 19 and no other byte depends on it |
| GptHeaderLaws.DamageDetected | io-engine/src/bdev/gpt_labels.rs:275-302 | whatever up to four consecutive bytes of a readable header are changed, all outside or all inside its checksum, and so whatever single byte: the block no longer reads as a header |
| GptHeaderLaws.ConsistentHeadersDeriveEachOther | io-engine/src/bdev/gpt_labels.rs:1094-1120 | two valid headers that pass the consistency check agree with each other's derivation in all but reserved bytes and checksum, and entirely if and only if the reserved bytes agree |
| GptHeaderLaws.TableFitsBeforeData | io-engine/src/bdev/gpt_labels.rs:312-333 | the first usable block leaves room for MBR, header and table if and only if blocks are smaller than 512 KiB |
| GptProbeSound.ValidPrimaryIff | io-engine/src/bdev/gpt_labels.rs:1012-1038 | on every device the primary header checks accept exactly the headers whose fields meet the bounds in unbounded arithmetic, and name the first that fails otherwise |
| GptProbeSound.ValidSecondaryIff | io-engine/src/bdev/gpt_labels.rs:1041-1067 | exactly what the secondary header checks accept, including the sums that wrap at 2^64, and which check is named otherwise |
| GptProbeSound.HeadersChosen | io-engine/src/bdev/gpt_labels.rs:717-763 | the chosen headers point at block 1, the last block and each other, share the usable range, and those read from disk passed their checks |
| GptProbeSound.ProbeSound | io-engine/src/bdev/gpt_labels.rs:688-803 | for every disk content, an accepted label has its headers in place and keeps only used partitions that end inside the usable range and, unless they start at block 0, start inside it; the range is bounded by the two tables for a label in sync, by the table and the last block through the primary header, and through the secondary header alone by its table unless the sum behind the last usable block wraps |
| GptProbeSound.ProbeReadsDisk | io-engine/src/bdev/gpt_labels.rs:688-803 | for every disk content, the MBR and headers an accepted label claims to have read are on the disk bit for bit, signed and checksummed, and a header not read is derived from the one that was |
| GptProbeSound.ProbeReadsTable | io-engine/src/bdev/gpt_labels.rs:773-793 | its partitions are the used entries of a table read from the place its header gives, in as many blocks as the header needs, as many entries as it says; encoded again the entries have the header's checksum, and so have the bytes on the disk when the names are clean |
| GptProbeSound.SecondaryEndBound | io-engine/src/bdev/gpt_labels.rs:1041-1067 | a label accepted through its secondary header ends before its secondary table, unless its last usable block is 2^64-1 or the device comes within a table and a block of 2^64 bytes |
| GptProbeSound.OverflowingEndAccepted | io-engine/src/bdev/gpt_labels.rs:1041-1067 | a concrete disk where that exception is accepted with a partition behind the device |
| GptProbeSound.RetainKeeps | io-engine/src/bdev/gpt_labels.rs:790-793 | exactly the used entries of a table are kept |
| GptProbeExact.PrimaryReadIff | io-engine/src/bdev/gpt_labels.rs:980-989 | block 1 is read as a primary header if and only if its bytes are those of one, with its own checksum, that describes this device |
| GptProbeExact.SecondaryReadIff | io-engine/src/bdev/gpt_labels.rs:991-1000 | the same for the last block and the secondary header, with the sums that wrap |
| GptProbeExact.HeadersIff | io-engine/src/bdev/gpt_labels.rs:717-763 | which pair of headers is chosen: both blocks' if they agree, one and its mirror, with its own checksum, if and only if the other block holds none |
| GptProbeExact.TableReadIff | io-engine/src/bdev/gpt_labels.rs:773-788 | a table is read if and only if its blocks lie on the disk and decode to entries inside the usable range whose encoding has the header's checksum |
| GptProbeExact.ProbeOkIff | io-engine/src/bdev/gpt_labels.rs:688-803 | for every disk and every label: the probe yields the label if and only if the disk carries its MBR, with the device's size or the largest 32 bits can say, such headers, and such a table whose used entries are its partitions |
| GptProbeExact.ProbeRefusal | io-engine/src/bdev/gpt_labels.rs:688-803 | why every other disk is refused, in order: MBR signature, a single block, no readable header, the first field in which the headers disagree, the size in the MBR, the table in use |
| GptProbeExact.TableRefusal | io-engine/src/bdev/gpt_labels.rs:1070-1092 | why a table is refused: it reaches behind the disk, a name has no end, the first entry out of range and what is wrong with it, or the checksum |
| GptRoundTrip.ValidateEntriesAll | io-engine/src/bdev/gpt_labels.rs:1070-1091 | a table passes if and only if every entry does |
| GptRoundTrip.PaddedTable | io-engine/src/bdev/gpt_labels.rs:485-498 | dropping the unused entries of a padded table gives back the list; padding again gives the same table, the same checksum, and zero bytes behind the list |
| GptRoundTrip.ReadsTable | io-engine/src/bdev/gpt_labels.rs:1002-1009 | a table lying where its header says reads back with its padding |
| GptRoundTrip.PrimaryBufferHolds | io-engine/src/bdev/gpt_labels.rs:1215-1246 | the primary buffer ends at the first usable block and holds MBR, header and zero-padded table |
| GptRoundTrip.SecondaryBufferHolds | io-engine/src/bdev/gpt_labels.rs:1249-1275 | the secondary buffer holds the zero-padded table at its start and the header in its last block |
| GptTheorems.PrimaryWritten | io-engine/src/bdev/gpt_labels.rs:1215-1246 | the primary write puts its pieces in place and changes nothing from the first usable block on |
| GptTheorems.LabelWritten | io-engine/src/bdev/gpt_labels.rs:1215-1275 | both writes succeed, put every piece in place, end at the end of the device and change no byte of the usable range |
| GptTheorems.WriteProbeRoundTrip | io-engine/src/bdev/gpt_labels.rs:688-803 | for every device content and every well-formed label, writing and probing gives the label back, in sync |
| GptTheorems.Derived | io-engine/src/bdev/gpt_labels.rs:341-364 | a label read through one header differs from the written one at most in the reserved bytes of the derived header and the checksum over them, and in nothing if and only if these agreed |
| GptTheorems.PrimaryHeaderLost | io-engine/src/bdev/gpt_labels.rs:717-763 | whatever overwrites the blocks before the usable range, if block 1 no longer reads as a primary header the label comes back with the primary derived from the secondary |
| GptTheorems.SecondaryHeaderLost | io-engine/src/bdev/gpt_labels.rs:717-763 | the same for everything behind the usable range and the primary |
| GptTheorems.PrimaryDamaged | io-engine/src/bdev/gpt_labels.rs:717-763 | whatever up to four consecutive bytes of the primary header are changed on a labelled disk, outside or inside its checksum, the label comes back from the secondary |
| GptTheorems.SecondaryDamaged | io-engine/src/bdev/gpt_labels.rs:717-763 | the same for the secondary header and the primary |
| GptTheorems.PrimaryWriteAlone | io-engine/src/bdev/gpt_labels.rs:717-763 | what the primary write alone leaves on any device: the label if no secondary header is readable, the label with the old secondary header if that is consistent, and a failed probe with the exact error otherwise |
| GptTheorems.InterruptedRelabel | io-engine/src/bdev/gpt_labels.rs:717-735 | re-labelling a labelled device and stopping between the two writes leaves a label that can be found if and only if the new primary header is consistent with the old secondary one |
| GptTheorems.TableLossNeedsHeaderLoss | io-engine/src/bdev/gpt_labels.rs:773-788 | when the table of whichever primary header is read is unreadable, the label is recovered if and only if no primary header is read |
| GptTable.NameReencodesIff | io-engine/src/bdev/gpt_labels.rs:382-437 | the 72 bytes of a name decode to a name that is written as the same bytes if and only if they hold a NUL, only NULs behind it, and no unpaired surrogate before it |
| GptTable.SlotReencodesIff | io-engine/src/bdev/gpt_labels.rs:451-477 | the same for a slot of the table, for every content of its fixed fields |
| GptTable.EntriesReencodeIff | io-engine/src/bdev/gpt_labels.rs:470-498 | for every buffer: the entries decoded from a table encode to the bytes they came from if and only if all its slots are so |
| GptTable.CleanTableChecksum | io-engine/src/bdev/gpt_labels.rs:485-498 | so the checksum of such entries is the checksum of the bytes on the disk |
| GptTable.WrittenIsClean | io-engine/src/bdev/gpt_labels.rs:391-408 | every table the label writer writes for names that fit is such a table |
| GptTableDamage.TableDamageNoticed | io-engine/src/bdev/gpt_labels.rs:1070-1092 | a change of up to four consecutive bytes anywhere in the primary table that leaves the names clean: the header still reads, the table does not, and the probe fails |
| GptTableDamage.FixedFieldsNoticed | io-engine/src/bdev/gpt_labels.rs:1070-1092 | so every such change in the fixed fields of any slot, used or not, is noticed |
| GptTableDamage.PaddingUnnoticed | io-engine/src/bdev/gpt_labels.rs:414-437 | changing any byte behind the NUL of the name of the last used slot or of an unused one: the probe yields the unchanged label, although the table no longer has the checksum in the header |
| GptTableDamage.UnusedSlotByteIff | io-engine/src/bdev/gpt_labels.rs:773-793 | a changed byte of an unused slot is noticed if and only if it stands before byte 58 of the slot |
| GptTableDamage.BackupTableUnread | io-engine/src/bdev/gpt_labels.rs:688-803 | while both headers are intact, whatever happens between the first usable block and the last one, backup table included, the probe yields the unchanged label |
| GptGenerated.GeneratedOkIff | io-engine/src/bdev/gpt_labels.rs:806-829 | exactly when a label is generated and with which error it is refused otherwise, in unbounded arithmetic |
| GptGenerated.GeneratedSizes | io-engine/src/bdev/gpt_labels.rs:831-849 | MayaMeta has the fewest blocks that hold 4 MiB, MayaData the fewest that hold the requested size, cut at the last usable block; their GUIDs are the random and the given one, their attributes zero |
| GptGenerated.GeneratedLayout | io-engine/src/bdev/gpt_labels.rs:806-850 | MBR, primary header, primary table, MayaMeta, MayaData, secondary table and secondary header of a generated label follow in this order without overlap inside the device |
| GptGenerated.GeneratedHeaders | io-engine/src/bdev/gpt_labels.rs:312-333 | both generated headers are readable, carry the given GUID, reserved zeroes, 128 entries of 128 bytes and the checksum of the padded table, the secondary derived from the primary |
| GptGenerated.GeneratedMbr | io-engine/src/bdev/gpt_labels.rs:539-558 | the MBR of every generated label: one partition of type 0xee from block 1 over the rest of the device, or 2^32-1 blocks if it is larger, three zero entries, signature 55 aa |
| GptGenerated.GeneratedHeadersValid | io-engine/src/bdev/gpt_labels.rs:1012-1120 | the generated headers and MBR pass every check of the probe |
| GptGenerated.GeneratedPartitions | io-engine/src/bdev/gpt_labels.rs:806-850 | the generated partitions are entries the probe accepts and whose names read back |
| GptGenerated.GeneratedCheckPasses | io-engine/src/bdev/gpt_labels.rs:853-894 | a generated label passes the check for the MayaMeta and MayaData partitions, before and after a probe |
| GptGenerated.CheckPartitionsIff | io-engine/src/bdev/gpt_labels.rs:853-894 | for every label, whoever made it: the check passes if and only if the usable blocks begin with the first at 1 MiB or behind, the first entry named MayaMeta has its type and the fewest blocks that hold 4 MiB from there, and the first named MayaData has its type and starts right behind, inside the usable range |
| GptGenerated.GeneratedWellFormed | io-engine/src/bdev/gpt_labels.rs:647-685 | every generated label within the limits is well formed, so all label theorems apply to it |
| GptGenerated.LargeBlocksCannotBeWritten | io-engine/src/bdev/gpt_labels.rs:1215-1246 | with blocks of 512 KiB or more the primary buffer is too small for its pieces |
| GptGenerated.SmallDevicesCannotBeWritten | io-engine/src/bdev/gpt_labels.rs:1215-1246 | on a device without room for both tables the primary write passes the end of the device |
| GptGenerated.GeneratedRoundTripIff | io-engine/src/bdev/gpt_labels.rs:647-803 | for every device, content and accepted label: writing and probing gives it back if and only if blocks are under 512 KiB, there is room for both tables, and the data size is not zero |
| GptIo.VisitSeq | io-engine/src/bdev/gpt_labels.rs:414-437 | the unit-collecting loop computes the name visitor |
| GptIo.EntriesFromSlice | io-engine/src/bdev/gpt_labels.rs:470-477 | the reading loop computes the decoding of the table |
| GptIo.EntryChecksum | io-engine/src/bdev/gpt_labels.rs:485-498 | the digest loops compute the checksum of the padded table |
| GptIo.ValidatePartitionList | io-engine/src/bdev/gpt_labels.rs:1070-1091 | the checking loop reports the first offending entry, then the table checksum |
| GptIo.Cursor.SerializeInto | io-engine/src/bdev/gpt_labels.rs:1215-1246 | a cursor write replaces exactly its bytes and advances, or fails when they do not fit |
| GptIo.Cursor.SerializeEntries | io-engine/src/bdev/gpt_labels.rs:1241-1243 | writing the list entry by entry is one write of its encoding |
| GptIo.PutAppend | io-engine/src/bdev/gpt_labels.rs:1241-1243 | writing two pieces one behind the other is writing them together |
| GptIo.PrimaryData | io-engine/src/bdev/gpt_labels.rs:1215-1246 | the fresh buffer filled through the cursor is the primary buffer, and fails exactly when that does not exist |
| GptIo.SecondaryData | io-engine/src/bdev/gpt_labels.rs:1249-1275 | the same for the secondary buffer and its offset |
| GptIo.ProbeLabel | io-engine/src/bdev/gpt_labels.rs:688-803 | reading block by block and leaving at the first failure is the probe |
| WipePlan.NewPlanOkIff | io-engine/src/core/wiper.rs:360-407 | a wipe can be planned if and only if there are bytes and the chunk is a positive multiple of the block size not above what is kept; each error has its exact condition |
| WipePlan.NewPlanShape | io-engine/src/core/wiper.rs:360-407 | every plan keeps whole blocks without the last 33 and counts its full and short chunks |
| WipePlan.KeptBlocks | io-engine/src/core/wiper.rs:366-374 | the kept bytes are whole blocks, and at least 33 blocks less than a device that has as many |
| WipePlan.ChunksTile | io-engine/src/core/wiper.rs:417-431 | the chunks, in order, lie end to end from the start of the plan with no gap and no overlap |
| WipePlan.MarkStep | io-engine/src/core/wiper.rs:417-431 | every chunk is non-empty, block-aligned, at most the chunk size and starts where the last one ended |
| WipePlan.TilesTouch | io-engine/src/core/wiper.rs:417-431 | a tiling touches exactly the bytes between its ends |
| WipePlan.ChunkIosExact | io-engine/src/core/wiper.rs:294-309 | exactly when a chunk can be issued, and that its I/Os tile it up to its reach: all of it up to 8 MiB, without its last 33 blocks above |
| WipePlan.ChunkIosSizes | io-engine/src/core/wiper.rs:294-309 | every I/O of a chunk is at most 8388608 bytes and whole blocks; of a split chunk all but the last are exactly that |
| WipePlan.AllIssuedIff | io-engine/src/core/wiper.rs:294-309 | a wipe can come to its end if and only if its chunk size and the size of its short last chunk can both be issued |
| WipePlan.LateFailure | io-engine/src/core/wiper.rs:294-309 | where only the short last chunk cannot be issued, all chunks before it are, and the wipe fails with ChunkTooLarge behind them |
| WipePlan.LateFailureAccepted | io-engine/src/core/wiper.rs:225-248 | a wipe that is accepted and fails so |
| WipePlan.IosTouch | io-engine/src/core/wiper.rs:252-309 | exactly the bytes a run touches |
| WipeTheorems.IosInside | io-engine/src/core/wiper.rs:252-309 | every I/O of every run stays inside the plan |
| WipeTheorems.IosBounded | io-engine/src/core/wiper.rs:294-309 | so no I/O of any wipe is larger than 8 MiB |
| WipeTheorems.SplitChunksMiss | io-engine/src/core/wiper.rs:294-309 | a chunk above 8 MiB of at least 33 blocks leaves a byte of the range untouched |
| WipeTheorems.FullCoverageIff | io-engine/src/core/wiper.rs:294-309 | an issued plan covers its whole range if and only if its chunks are at most 8 MiB or under 33 blocks |
| WipeTheorems.GatherTiles | io-engine/src/core/wiper.rs:184-209 | reading a tiling reads the stretch it tiles |
| WipeTheorems.OneShot | io-engine/src/core/wiper.rs:280-289 | the final checksum is the checksum of all kept bytes in one go, inverted once: those bytes and it leave the residue of CRC-32C |
| WipeTheorems.FinalCrcResidue | io-engine/src/core/wiper.rs:280-289 | for every plan: everything read, followed by the reported checksum, leaves the residue of CRC-32C |
| WipeTheorems.ChecksumIndependent | io-engine/src/core/wiper.rs:252-289 | any two chunk sizes that lose nothing report the same checksum for every content |
| WipeTheorems.LastBlocksSpared | io-engine/src/core/wiper.rs:360-407 | no I/O of any wipe of a device of more than 33 blocks reaches its last 33 blocks |
| WipeTheorems.BackupWithinLastBlocks | io-engine/src/bdev/gpt_labels.rs:312-333 | those 33 blocks hold the backup table and header if and only if blocks have at least 512 bytes |
| WipedLabels.ZeroBlockHasNoMbr | io-engine/src/bdev/gpt_labels.rs:697-702 | a disk whose first block is zero is refused for its MBR signature |
| WipedLabels.WipedEnds | io-engine/src/core/wiper.rs:252-309 | every finished zeroing wipe of the device zeroes its first two blocks and leaves its last 33 alone |
| WipedLabels.WipeSparesBackup | io-engine/src/core/wiper.rs:366-374 | after a zeroing wipe of a labelled disk, with any chunk size, no label is found; with the MBR written again the label is found through its backup copy |
| WipedLabels.WipeSparesGenerated | io-engine/src/core/wiper.rs:366-374 | every generated label that can be written comes back so exactly as it was |
| Wiper.AfterCompose | io-engine/src/core/wiper.rs:252-309 | the effects of two runs of I/Os compose to the effect of both |
| Wiper.NewIterator | io-engine/src/core/wiper.rs:360-407 | the iterator holds exactly the plan or fails with its error |
| Wiper.WipeIterator.Next | io-engine/src/core/wiper.rs:417-431 | the next range is the next chunk of the plan, and there is none exactly when all bytes are wiped |
| Wiper.WipeIterator.CompleteChunk | io-engine/src/core/wiper.rs:408-412 | wiped and remaining keep adding up to the total |
| Wiper.NewStreamedWiper | io-engine/src/core/wiper.rs:225-248 | exactly when a wiper is created, and with which error it is refused |
| Wiper.StreamedWiper.WipeOne | io-engine/src/core/wiper.rs:184-209 | one I/O zeroes exactly its range or feeds exactly its bytes to the checksum; a failed one changes nothing outside its range |
| Wiper.StreamedWiper.WipePieces | io-engine/src/core/wiper.rs:294-309 | the pieces of a split chunk are issued in order up to a failure or a closed stream |
| Wiper.StreamedWiper.WipeWithAbort | io-engine/src/core/wiper.rs:294-309 | one chunk issues exactly its I/Os, or a prefix of them if it fails |
| Wiper.StreamedWiper.CompleteChunk | io-engine/src/core/wiper.rs:280-289 | the checksum is inverted exactly behind the last chunk and then reported |
| Wiper.StreamedWiper.Wipe | io-engine/src/core/wiper.rs:252-263 | a finished wipe issued exactly the plan's I/Os, accounted for all bytes, zeroed exactly what it touched or reports the checksum of what it read; a failed one issued a prefix and changed nothing else |
| SegmentMaps.SegInRange | io-engine/src/core/segment_map.rs:77-79 | every block of the device has its segment in the map |
| SegmentMaps.CoverIff | io-engine/src/core/segment_map.rs:58-67 | the segments between those of the first and last block of a range are exactly those of its blocks |
| SegmentMaps.RunReads | io-engine/src/core/segment_map.rs:51-73 | after any run of set and merge a block reads dirty if and only if something marked its segment and nothing cleared it since |
| SegmentMaps.SegIsQuotient | io-engine/src/core/segment_map.rs:77-79 | with segments of whole blocks the segment of a block is its quotient |
| SegmentMaps.DirtyCountExact | io-engine/src/core/segment_map.rs:82-89 | the reported dirty blocks exceed those that read dirty by exactly the part of a dirty last segment behind the device, so they agree if and only if there is none |
| SegmentMaps.SegmentMap.constructor | io-engine/src/core/segment_map.rs:37-48 | a new map has all segments clean |
| SegmentMaps.SegmentMap.Merge | io-engine/src/core/segment_map.rs:51-54 | the bits become the or of both maps |
| SegmentMaps.SegmentMap.Set | io-engine/src/core/segment_map.rs:58-67 | the loop sets exactly the bits of the segments of the range, for every range that ends in a segment of the map |
| SegmentMaps.SegmentMap.Get | io-engine/src/core/segment_map.rs:70-73 | the bit of the block's segment, or nothing behind the map |
| SegmentMaps.SegmentMap.CountDirtyBlks | io-engine/src/core/segment_map.rs:87-89 | the number of set bits in blocks |
| IoLog.LogIo | io-engine/src/bdev/nexus/nexus_io_log.rs:58-67 | after a write, a write of zeroes or an unmap every block of its range reads dirty and every block sharing no segment with it reads as before; a read or any other I/O changes nothing |
| IoLog.Finalize | io-engine/src/bdev/nexus/nexus_io_log.rs:174-184 | the maps of all cores are merged into one |
| Rebuild.MergeAllIff | io-engine/src/bdev/nexus/nexus_io_log.rs:174-184 | a segment is dirty in the merged map if and only if it is in some core's |
| Rebuild.SegmentOfTask | io-engine/src/rebuild/rebuilders.rs:140-147 | with aligned data, the segment of a task's first block is exactly what it copies |
| Rebuild.StoreEffect | io-engine/src/rebuild/nexus_rebuild.rs:316-345 | storing a segment makes the children agree on it and overwrites no write under way |
| Rebuild.UnwrittenKeeps | io-engine/src/rebuild/rebuild_task.rs:61-67 | taking a segment as copied because the source has not allocated it is right while the source has released nothing |
| Rebuild.ThinKeeps | io-engine/src/rebuild/rebuild_descriptor.rs:203-233 | every step but a release keeps: an unallocated segment reads zero on both sides, but for a write that reached the child first |
| Rebuild.MarkCleanKeeps | io-engine/src/rebuild/rebuilders.rs:194-197 | marking a segment clean that was copied, or skipped as unwritten, loses no difference between the children |
| Rebuild.StartKeeps | io-engine/src/bdev/nexus/nexus_bdev_rebuild.rs:112-131 | starting from the merged logs, once every core writes to the child again, loses no difference between the children |
| Rebuild.StepKeeps | io-engine/src/rebuild/rebuilders.rs:205-221 | every step keeps: a block on which the children differ is dirty or has a write under way, every dirty segment behind the walk still has its task, and unallocated segments are untouched |
| Rebuild.RebuildSound | io-engine/src/rebuild/rebuilders.rs:130-221 | in every interleaving of writes, unmaps, cores joining and copies, a completed rebuild of aligned data from a source that releases nothing leaves the children equal wherever no write is under way |
| RebuildLimits.MissedWrite | io-engine/src/rebuild/rebuilders.rs:205-221 | with data starting inside a segment and reaching the next, a run that completes with a missed write never copied |
| RebuildLimits.ReleasedUnmap | io-engine/src/rebuild/rebuild_task.rs:61-67 | with a source that releases unmapped segments, for any data a run that completes although the child still holds what was unmapped |
| RebuildLimits.RebuildSoundIff | io-engine/src/rebuild/rebuilders.rs:130-221 | a completed rebuild can be relied on if and only if there is no data, or the data starts on a segment boundary or lies in one segment and the source does not release what is unmapped |
| RebuildLimits.MapAgrees | io-engine/src/rebuild/rebuild_map.rs:39-59 | looking up and cleaning one block of the rebuild map is reading and clearing the bit of its segment |
| RebuildLimits.LogStepsAgree | io-engine/src/bdev/nexus/nexus_io_log.rs:58-67 | the rebuild's missed writes and unmaps change the core's log exactly as logging the I/O does, and nothing else |
| RebuildLimits.ChildConfig | io-engine/src/rebuild/rebuild_descriptor.rs:121-131 | every range within a child with segments of whole blocks is a configuration of the rebuild model |
| RebuildLimits.LabelRebuildSoundIff | io-engine/src/bdev/gpt_labels.rs:806-850 | a rebuild of MayaData, with segments of whole blocks, can be relied on if and only if the source does not release or there is no data |
| RebuildData.SourceHoldsLastValue | io-engine/src/rebuild/rebuilders.rs:130-221 | in every run of every configuration, where no write is under way, the source holds what the host last wrote to the block, or zero where it last unmapped |
| RebuildData.ChildHoldsLastValue | io-engine/src/rebuild/rebuilders.rs:130-221 | so does the rebuilt child after a completed rebuild of aligned data from a source that releases nothing |
| RebuildProgress.CanComplete | io-engine/src/rebuild/rebuilders.rs:130-221 | from every state that a run without failure reaches, a completed rebuild with no I/O left can be reached without new host I/O |
| RebuildProgress.HostNeverBlocked | io-engine/src/rebuild/rebuilders.rs:130-221 | from every state that a run reaches, one can be reached without new host I/O in which any core may write any block, or unmap its segment |
| ReactorProtocol.WakeStep | io-engine/src/core/reactor.rs:416-432 | every step keeps: what is queued has the eventfd raised, its sender about to raise it, or the reactor about to look |
| ReactorProtocol.DeliveryStep | io-engine/src/core/reactor.rs:409-413 | every step keeps received plus queued futures equal to those sent, in order |
| ReactorProtocol.ThreadStep | io-engine/src/core/reactor.rs:764-864 | every step keeps the order and the places of all scheduled threads |
| ReactorProtocol.ExactlyOnePlace | io-engine/src/core/reactor.rs:764-864 | a scheduled thread is queued, owned, about to be destroyed or destroyed, and only one of these |
| ReactorProtocol.ModeStep | io-engine/src/core/reactor.rs:498-536 | every step keeps the reactor state matched to its place in the loop |
| ReactorProtocol.NestStep | io-engine/src/core/reactor.rs:646-726 | every step keeps the nested fd_groups matched to the reactor state |
| ReactorProtocol.DestroyNested | io-engine/src/core/reactor.rs:851-863 | a thread about to be destroyed is not nested: its unnesting is a step of its own before |
| ReactorTheorems.ReachableInv | io-engine/src/core/reactor.rs:554-616 | all of these hold in every reachable state |
| ReactorTheorems.NoLostWakeup | io-engine/src/core/reactor.rs:416-432 | whenever the reactor sleeps, every queued future and every remotely scheduled thread has the eventfd raised or its own sender about to raise it |
| ReactorTheorems.NoLostWakeupInRun | io-engine/src/core/reactor.rs:416-432 | in every run: while a reactor is blocked, every waiting future and thread has the eventfd raised, or was pushed by a sender or scheduler that has not come to its own write yet, or is a thread scheduled on the reactor's own core before its loop started |
| ReactorTheorems.BootThreadCanBeStranded | io-engine/src/core/reactor.rs:204-235 | the exception is real: a thread scheduled locally before the loop can sit unnoticed in front of a sleeping reactor |
| ReactorTheorems.WakeupDelivers | io-engine/src/core/reactor.rs:554-616 | everything sent or scheduled before a wakeup is picked up before the reactor sleeps again |
| ReactorTheorems.NestingMatchesMode | io-engine/src/core/reactor.rs:646-814 | in interrupt mode every owned thread with an fd_group is nested, in poll mode none is |
| ReactorTheorems.EnterAllOrNone | io-engine/src/core/reactor.rs:646-703 | entering interrupt mode nests all threads or none, whichever nest fails |
| ReactorTheorems.DrainAllOrNone | io-engine/src/core/reactor.rs:764-814 | draining ends with all nested, or falls back to poll mode with none |
| ReactorTheorems.ThreadsConserved | io-engine/src/core/reactor.rs:764-864 | no thread is lost or duplicated, order is kept, and no thread is nested when it is destroyed or after |
| ReactorShutdown.ShutdownHonouredIff | io-engine/src/core/reactor.rs:554-616 | for every reachable state with a shutdown request: the request stands in every run until the reactor stops if and only if the reactor is not before its loop, entering interrupt mode, draining in it or leaving it; and then it never falls asleep again and its own steps take it to a stop |
| ReactorShutdown.StandingRun | io-engine/src/core/reactor.rs:554-616 | once out of danger a request is never overwritten, in every run |
| ReactorShutdown.Stops | io-engine/src/core/reactor.rs:554-616 | from there the reactor's own steps alone reach a stop |
| ReactorShutdown.LoseAtRisk | io-engine/src/core/reactor.rs:646-726 | from every other place a run that loses the request and goes on |
| ReactorTheorems.ShutdownCanBeLost | io-engine/src/core/reactor.rs:709-726 | a reachable state in which leaving interrupt mode drops the request and the loop goes on |
| Reactor.Reactor.SendFuture | io-engine/src/core/reactor.rs:416-432 | pushes the future, then raises the eventfd; a run of the protocol |
| Reactor.Reactor.ScheduleThread | io-engine/src/core/reactor.rs:204-235 | queues the thread, then raises the eventfd; a run of the protocol |
| Reactor.Reactor.ScheduleHere | io-engine/src/core/reactor.rs:204-235 | threads scheduled on the reactor's own core are queued in order, without a wakeup |
| Reactor.Reactor.EnterLoop | io-engine/src/core/reactor.rs:554-563 | reaches the loop in interrupt mode with all nested, or in the configured poll state with none |
| Reactor.Reactor.ReceiveFutures | io-engine/src/core/reactor.rs:409-413 | hands over exactly the queued futures in order |
| Reactor.Reactor.AddIncoming | io-engine/src/core/reactor.rs:764-814 | appends the queue in order, and ends with all nested or in poll mode with none |
| Reactor.Reactor.LeaveInterruptMode | io-engine/src/core/reactor.rs:709-726 | unnests everything and returns to poll mode |
| Reactor.Reactor.DestroyExited | io-engine/src/core/reactor.rs:833-864 | removes and destroys exactly the exited threads, in order, none of them nested |
| Reactor.Reactor.WaitForEvents | io-engine/src/core/reactor.rs:737-741 | a wait during which other cores send and schedule, and callbacks schedule threads; nothing else changes but the eventfd |
| Reactor.Reactor.Turn | io-engine/src/core/reactor.rs:565-605 | one turn picks up all futures and threads, waiting or arriving meanwhile, in order and drops exactly the exited; it stops exactly on a shutdown request, with nothing nested |
| ReactorSystem.Pick | io-engine/src/core/reactor.rs:204-235 | the first reactor whose core is in the mask, or none if no core is |
| ReactorSystem.PickReactor | io-engine/src/core/reactor.rs:204-235 | the search computes it |
| ReactorSystem.SysStepKeeps | io-engine/src/core/reactor.rs:204-235 | every step of the whole system keeps each reactor's invariants and the reactors' threads apart |
| ReactorSystem.ScheduleAccepts | io-engine/src/core/reactor.rs:204-235 | a reactor accepts a scheduled thread if and only if it is the first whose core is in the mask |
| ReactorSystem.AcceptedThreadInOnePlace | io-engine/src/core/reactor.rs:204-235 | in every run of all reactors an accepted thread is in exactly one place of exactly one reactor |
| ReactorSystem.RoutedToFirstInMask | io-engine/src/core/reactor.rs:204-235 | a thread scheduled at any point of any run is, at every later point, in exactly one place of the first reactor whose core is in its mask, and on no other |
| ReactorSystem.RunOfCore | io-engine/src/core/reactor.rs:204-235 | every run of all reactors is, core by core, a run of that reactor: its own steps and the schedules whose mask it is the first in, so all that is proved of one holds of each |
| Monitor.InvStep | io-engine/src/core/reactor.rs:1053-1095 | every step keeps: resolved and missing heartbeats add up to the tick, at most max(1, timeout) are missing, freeze and unfreeze alternate |
| Monitor.RunInv | io-engine/src/core/reactor.rs:1053-1095 | so does every run |
| Monitor.CheckExact | io-engine/src/core/reactor.rs:1078-1094 | in every run the age compared with the timeout is exactly the missing heartbeats; frozen if and only if at least timeout are missing, healthy again if and only if none is |
| Monitor.StalledReactorIsFrozen | io-engine/src/core/reactor.rs:1053-1095 | a reactor that stops resolving is reported within max(1, timeout) rounds |
| Monitor.Balance | io-engine/src/core/reactor.rs:1053-1069 | in every run the missing heartbeats of a reactor are those missing at the start and those sent while it was healthy, less those resolved |
| Monitor.NeverFrozenIff | io-engine/src/core/reactor.rs:1071-1094 | a reactor is never reported if and only if each of its checks finds fewer than timeout more ticks than heartbeats it has resolved |
| Monitor.PromptNeverFrozen | io-engine/src/core/reactor.rs:1053-1095 | so a reactor that resolves every heartbeat before the next tick is never reported |
| Monitor.RecoveryExact | io-engine/src/core/reactor.rs:1071-1082 | a frozen reactor with k heartbeats missing stays frozen at every check before the k-th of them resolves, and is unfrozen at the first check behind it |
| Monitor.ReactorMonitor.constructor | io-engine/src/core/reactor.rs:1012-1051 | all counters start at zero, the timeout defaults to three |
| Monitor.ReactorMonitor.SendHeartbeats | io-engine/src/core/reactor.rs:1053-1069 | the loop sends every healthy reactor one heartbeat, keeps the deficit of the frozen, and is a run of the state machine |
| Monitor.ReactorMonitor.CheckReactors | io-engine/src/core/reactor.rs:1071-1094 | the loop checks every reactor once against the new tick, and is a run of the state machine |
| Monitor.ReactorMonitor.ResolveOne | io-engine/src/core/reactor.rs:1065-1067 | a resolved heartbeat adds one to the counter and takes one from the missing |

## Left out

- SPDK, DPDK, DMA buffers and descriptors: only their effect is kept (bytes read or written, a nest that succeeds or fails, an eventfd counter); allocation failures are not modelled.
- Random GUIDs, clocks, sleeps, latency figures and log output: GUIDs are parameters, the rest is absent.
- Label display, partition lookups by offset and size, and the versioned labels built on top: easy members over the modelled ones.
- GptLabels.WriteLabel: the primary buffer is written before the secondary one, as the label tool does; a write torn inside one buffer is not modelled.
- GptTheorems.PrimaryDamaged: changes that cross an edge of the header's own checksum are not covered, nor in GptTheorems.SecondaryDamaged and GptHeaderLaws.DamageDetected.
- GptTableDamage.PaddingUnnoticed: of a change in the text of a name, or behind the name of a slot that used slots follow, it does not say whether it is noticed; the entries behind it are then read shifted, and their checksum may or may not collide.
- GptProbeSound.SecondaryEndBound: on devices within one table and one block of 2^64 bytes it does not say which wrapped tables can be read.
- Wiper.StreamedWiper.Wipe: offsets and sizes do not wrap at 64 bits, which no device reaches; the chunk counter is a natural number.
- Wiper.StreamedWiper.Notify: the notification's content is not modelled, only that it may be refused and that a closed stream then aborts the wipe.
- The unmap and write-pattern wipe methods, which the engine refuses as well.
- WipePlan.NewPlanOkIff: a zero divisor, on which the engine panics, is an error value of the model.
- SegmentMaps.SegmentMap.Set: a range whose last block has no segment in the map, on which the bit vector panics, and an empty range at block 0, where the subtraction wraps, are excluded; products do not wrap at 64 bits.
- IoLog.Finalize: the maps of different cores are different objects, as the engine's ownership guarantees.
- Rebuild.Do: an unmap, released by the source or not, is taken to make every child that completes it read zero; a device that keeps the old data after an unmap, or leaves it undefined, is not modelled.
- Rebuild.RebuildSound: a write is one block, so a long write is several, and writes to the same block do not overlap in time; an unmap is of whole segments, one of part of a segment being a write of zeroes; the verify mode is not modelled; a failed task ends the claim.
- Full rebuilds, rebuild pause, resume, cancellation, history and statistics.
- Reactor.Reactor.Turn: what arrives during a turn arrives before the futures are received, or for the reactor's own core before the drain; every other interleaving, and shutdown requests, are runs of ReactorProtocol, of which every method is one.
- Reactor.Reactor.WaitForEvents: of the fd_group callbacks only the threads they schedule are kept.
- The master core's own polling through its future, its shutdown path, and the interrupt flag of single threads.
- Monitor.ReactorMonitor.SendHeartbeats: heartbeats resolve between the methods of the class; the state machine lets them resolve between any two records.
- Monitor.ReactorMonitor.CheckReactors: the same; the diagnosis printed for a frozen reactor is absent.
- Nexus I/O paths, replica stores, LVM, gRPC, persistent store, command-line tools and device URIs.
