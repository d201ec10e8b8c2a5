# Forensic pipeline: a verified model

The repository is a forensic workbench. It copies evidence into a controlled directory, decodes
Windows artefacts from it, turns the decoded records into a timeline and correlates the timeline
events. This project models the parts of `backend/app` where a mistake would silently lose,
invent or corrupt an observation, and proves what they promise for all inputs, all runs and all
points of failure. `dafny verify dfyconfig.toml` checks everything.

Loops and updated objects are methods and classes, each proved equal to a specification
function. What the source promises is then proved of those functions; the modules named `..Laws` and
`Provenance` say it of the input's own fields, bytes and identifiers, without those functions.

| files | what they model |
|---|---|
| `WindowsBinary` | little-endian integers, UTF-16LE and code page 1252, terminated strings, FILETIME |
| `DataRuns`, `MftFixup`, `MftAttributes`, `MftFormat`, `MftRecord`, `MftScan`, `MftScanProperties`, `LayoutLaws` | the NTFS MFT parser, the on-disk format it inverts, and where in a volume or stream it looks |
| `ByteLayout`, `MftWriter`, `LnkWriter` | writers: whatever fits the fields has bytes in those formats |
| `Lnk`, `LnkFormat`, `LinkLaws` | the Shell Link parser, the format of [MS-SHLLINK] section 2, and what is made of each part |
| `Prefetch`, `PrefetchLaws` | execution slots and volume entries |
| `RegistryWalk`, `RegistryLaws` | the explicit-stack traversal of a hive, and the order it goes in |
| `Ordering`, `CorrelationRules`, `JoinProperties`, `CorrelationCandidates`, `CandidateLaws`, `MatchKey` | the four rules and their hash join, and what makes two events a candidate |
| `CorrelationStore`, `CorrelationInvariants`, `FindingLaws` | correlation runs and finding updates over the database |
| `ParserRecords`, `DictionaryLaws` | the dictionaries the parsers write, and what the timeline reads of them |
| `TimelineNormalizer`, `EventLaws`, `TimelineService`, `Provenance`, `Observations` | timeline generation, where its rows come from, and what reaches its table from the bytes |
| `Workbench` | timeline and correlation on one database: the events of the rules are the rows of the timeline |
| `FileTree`, `EvidenceStorage`, `EvidenceService` | evidence registration and verification on a file system that can fail or stop at any call |

Conventions: datetimes are microseconds since 1601; SHA-256 is a function parameter, taken to be
collision-free where that matters; `casefold` and `ntpath` are function parameters; UTF-16 text is a
sequence of 16-bit units; a database commit is atomic; `uuid4` values are unused identifiers; warnings
are tagged values. Rows of the correlation tables are identified by their position.

## Where the code and its promises part

- A record whose first $STANDARD_INFORMATION or any $FILE_NAME attribute is non-resident raises a
  KeyError that the scan does not catch (`ntfs_mft.py` 217-221), so one such record loses the whole
  MFT, against `rules.md` 724-741. `MftScanProperties.OneBadRecordLosesAll` gives a file;
  `ParseRaisesIff` says exactly which files do this.
- `store` cleans up also when the destination already exists, and then deletes the file that was
  there. `EvidenceStorage.ExistingDestinationIsDeleted` gives a tree; `BareIff` with the contract of
  `Store` says exactly when a refusal leaves the tree alone. A fresh identifier avoids it.
- An exception of the caller's stream that is neither OSError nor ValueError leaves the temporary
  file behind: no handler of `store` names it, and `register` then has nothing to clean up.
  `EvidenceStorage.StreamExceptionLeavesTemporary` gives a stream and the contract of `Store` the
  exact leftover; `AsExpected` in the contract of `Register` says for every request when a failed
  registration leaves the tree as it was: exactly when it is not `Disturbing`.
- `docs/development.md` 155 promises every nonzero execution time of a Prefetch file. A read that
  fails, that of the run count included, discards all slots read before it, and the parse still
  completes (`prefetch.py` 124-129). `Prefetch.TruncatedFileLosesTimes` gives a file;
  `Observations.NoExecutionTimeLost` says of all bytes when the promise is kept: exactly when the file
  is `Complete` or no readable slot is set.
- The IDList warning speaks of exceeding the limit but appears at exactly 4096 items too, when
  nothing is dropped (`LnkFormat.LimitWarningIff`; `LnkFormat.FullListIsReportedAsCut` gives a list).
- A Shell Link without its terminal block is reported if and only if one to three bytes remain after
  the last well-formed block (`LnkFormat.ExtraTiles`, for all bytes);
  `LnkFormat.MissingTerminatorIsSilent` gives extra data without the block and without a warning.
- The Registry rule always adds a limitation, so over every history each correlation run ends with
  warnings (`CorrelationInvariants.EveryRunWarns`).

## Model

| member | source | states |
|---|---|---|
| `WindowsBinary.LeUndoesLeBytes` | backend/app/forensic/windows_binary.py:13-29 | an unsigned integer written little-endian in n bytes reads back as itself |
| `WindowsBinary.LeBytesUndoesLe` | backend/app/forensic/windows_binary.py:13-29 | every n-byte string is the encoding of the value it reads as, which is below 256^n |
| `WindowsBinary.UintReadsWhatIsHeld` | backend/app/forensic/windows_binary.py:13-29 | a checked read succeeds with v if and only if the bytes at that offset exist and encode v |
| `WindowsBinary.LeSignedUndoesSignedBytes` | backend/app/forensic/ntfs_mft.py:385-391 | a signed delta that fits n bytes reads back as itself |
| `WindowsBinary.SignedBytesUndoesLeSigned` | backend/app/forensic/ntfs_mft.py:385-391 | every n-byte string is the encoding of the signed value it reads as |
| `WindowsBinary.FileTimeExact` | backend/app/forensic/windows_binary.py:32-39 | the raw text is absent only for zero; a time exists exactly for 0 < ticks < 2650467744000000000; at most nine ticks are truncated |
| `WindowsBinary.FileTimePreservesOrder` | backend/app/forensic/windows_binary.py:32-39 | conversion never reverses the order of two representable tick values |
| `WindowsBinary.Utf16UndoesUtf16Bytes` | backend/app/forensic/windows_binary.py:42-48 | units stored as UTF-16LE decode to themselves exactly when their surrogates pair up, and are refused otherwise |
| `WindowsBinary.Utf16BytesUndoesUtf16` | backend/app/forensic/windows_binary.py:42-48 | decoded text determines the bytes it came from |
| `WindowsBinary.Utf16Fixed` | backend/app/forensic/windows_binary.py:42-48 | the loop stops at the first aligned NUL pair, or at the end of the field, and decodes what lies before it |
| `WindowsBinary.ReadCString` | backend/app/forensic/windows_binary.py:51-62 | the loop returns the specified string: none for offset 0 or out of range, otherwise the text up to its terminator or, without one, to the end of the data; ill-formed UTF-16 is refused |
| `WindowsBinary.CharsUndoesOctets` | backend/app/forensic/windows_binary.py:59-62 | text of code page 1252 stored as octets decodes to itself, in strict and in replacing mode |
| `WindowsBinary.OctetsUndoesChars` | backend/app/forensic/lnk.py:188-193 | octets decode strictly only if all are defined, and are then recovered from the text |
| `WindowsBinary.CStringReadsStoredText` | backend/app/forensic/windows_binary.py:51-62 | a terminated string, of UTF-16 or of characters in code page 1252, stored at an offset is read back exactly |
| `DataRuns.ReadDataRuns` | backend/app/forensic/ntfs_mft.py:368-404 | the cursor loop computes the recursive decoding of the whole run list |
| `DataRuns.HeadUndoesEncodeRun` | backend/app/forensic/ntfs_mft.py:374-391 | one run in any sufficient field widths is read back with its count, delta and size |
| `DataRuns.EncodeRunUndoesHead` | backend/app/forensic/ntfs_mft.py:374-391 | whatever run is accepted, its bytes are the encoding of a storable run |
| `DataRuns.PositionIsPrefixSum` | backend/app/forensic/ntfs_mft.py:388-401 | each position is the signed prefix sum of the deltas; a sparse run has none and does not move it |
| `DataRuns.DecodeUndoesEncode` | backend/app/forensic/ntfs_mft.py:368-404 | decoding any stored run list followed by a zero byte and any suffix returns those runs up to 16384 of them, and an error beyond |
| `DataRuns.DecodedWasEncoded` | backend/app/forensic/ntfs_mft.py:368-404 | every accepted byte string is the encoding of some storable run list, so decoding is onto and loses nothing |
| `MftFixup.SectorSizeAtLeastThree` | backend/app/forensic/ntfs_mft.py:185-194 | the header checks alone force sectors of at least three bytes that tile the record |
| `MftFixup.ApplyFixup` | backend/app/forensic/ntfs_mft.py:184-203 | the in-place loop over the bytearray computes the simultaneous substitution, or fails exactly when a trailer differs |
| `MftFixup.AcceptedByteByByte` | backend/app/forensic/ntfs_mft.py:184-203 | on acceptance every trailer byte equalled the sequence number and is replaced by its saved byte, which lies inside the USA; every other byte is unchanged |
| `MftFixup.SavedAtInUsa` | backend/app/forensic/ntfs_mft.py:197-202 | the saved positions lie in the USA behind the sequence number, and the trailer position is recovered from the saved one |
| `MftFixup.SavedFromInTrailer` | backend/app/forensic/ntfs_mft.py:197-202 | conversely every saved position belongs to exactly one trailer byte inside the record |
| `MftFixup.SuppliedSectorSizeForcesCount` | backend/app/forensic/ntfs_mft.py:185-194 | with a layout sector size, acceptance forces a USA count of record size / sector size + 1 |
| `MftFixup.FixupUndoesProtect` | backend/app/forensic/ntfs_mft.py:184-203 | protecting the sectors of any record with a separate USA and applying the fixup gives the record back outside the USA |
| `MftFixup.ProtectUndoesFixup` | backend/app/forensic/ntfs_mft.py:184-203 | protecting an accepted record again with its own sequence number gives the input back bit for bit |
| `MftWriter.CanBeStored` | backend/app/forensic/ntfs_mft.py:270-365 | every attribute whose numbers fit their fields, resident or not, has bytes in the on-disk layout |
| `MftWriter.RecordCanBeStored` | backend/app/forensic/ntfs_mft.py:184-257 | every list of such attributes makes up a record of any sector size and USA position whose USA stays clear of the trailers, of the header fields that are read and of the attributes, so the round trip speaks of all of them |
| `MftAttributes.ReadAttributes` | backend/app/forensic/ntfs_mft.py:259-307 | the offset loop over the record computes the recursive chain decoding, and its warnings in order |
| `MftAttributes.AttributeIsLocal` | backend/app/forensic/ntfs_mft.py:270-304 | an attribute is decoded from its own bytes alone: name and resident value never reach outside it |
| `MftFormat.AttributeDecodes` | backend/app/forensic/ntfs_mft.py:270-365 | any attribute stored in the on-disk layout decodes to the same type, name, times, sizes and runs |
| `MftFormat.AttributeWasStored` | backend/app/forensic/ntfs_mft.py:270-365 | every attribute that decodes is stored in that layout |
| `MftFormat.ClustersDecode` | backend/app/forensic/ntfs_mft.py:352-365 | a non-resident header with its run list decodes to the stored VCNs, sizes and runs |
| `MftFormat.ChainDecodes` | backend/app/forensic/ntfs_mft.py:259-307 | any list of stored attributes closed by the end marker decodes to that list up to 1024 attributes, and to an error beyond |
| `MftFormat.ChainWasStored` | backend/app/forensic/ntfs_mft.py:259-307 | an accepted attribute area is tiled by at most 1024 stored attributes, each of at least 24 bytes, up to the end marker |
| `MftRecord.ReadRecord` | backend/app/forensic/ntfs_mft.py:205-257 | the record reader computes the specified record and its warnings |
| `MftRecord.ChainFaultIsRecoverable` | backend/app/forensic/ntfs_mft.py:259-307 | the attribute decoder raises only the errors the scan recovers from |
| `MftRecord.KeyErrorIff` | backend/app/forensic/ntfs_mft.py:217-221 | a KeyError escapes exactly when the chain decodes and the first 0x10 or any 0x30 attribute is non-resident |
| `Observations.ResidentIff` | backend/app/forensic/ntfs_mft.py:217-221 | the timestamped values of stored attributes can be found if and only if the first 0x10 and every 0x30 attribute are resident; a later 0x10 attribute may be anything |
| `MftRecord.RecordRoundTrip` | backend/app/forensic/ntfs_mft.py:184-257 | storing attributes in a record, protecting its sectors, applying the fixup and decoding returns the attributes |
| `MftRecord.DecodedRecordWasStored` | backend/app/forensic/ntfs_mft.py:205-257 | the attributes of every decoded record tile [first attribute, used size) up to the end marker |
| `MftScan.SlotFits` | backend/app/forensic/ntfs_mft.py:78-80 | the loop guard holds at slot k exactly when k is below the slot count |
| `MftScan.ReadSlot` | backend/app/forensic/ntfs_mft.py:83-105 | one iteration classifies a slot as zeroed, wrongly signed, rejected, parsed or raising |
| `MftScan.ScanSlots` | backend/app/forensic/ntfs_mft.py:78-106 | the loop collects exactly the records and warnings of all slots, ending at the first offset past them |
| `MftScan.Scan` | backend/app/forensic/ntfs_mft.py:55-131 | parse as a whole computes the specified result or escaping KeyError; where it looks and what it returns is said by LayoutLaws |
| `LayoutLaws.VolumeIff` | backend/app/forensic/ntfs_mft.py:134-164 | for bytes that hold the fields of an NTFS boot sector: accepted if and only if sector and cluster sizes are powers of two in range, the record size is 512 to 65536 and 80 bytes are there; then the first record is at cluster * sectors per cluster * bytes per sector, and record size, sector size, limit and boot record are those of the sector |
| `LayoutLaws.StreamIff` | backend/app/forensic/ntfs_mft.py:165-182 | for a stream with these size and count fields: accepted if and only if the size is 512 to 65536 and the count less one divides it, in sectors of that quotient, from offset zero |
| `LayoutLaws.OtherInputs` | backend/app/forensic/ntfs_mft.py:55-75 | bytes that are neither are reported as unsupported, and a stream of less than 32 bytes as broken |
| `LayoutLaws.VolumeOutcome` | backend/app/forensic/ntfs_mft.py:76-131 | an accepted volume whose one record parses gives the boot record and that record with its warnings and status; any other one fails, or raises |
| `LayoutLaws.StoredVolumeParses` | backend/app/forensic/ntfs_mft.py:134-257 | a volume that keeps a stored and protected record where its boot sector says gives the boot record and that record, with all its attributes |
| `LayoutLaws.StreamOutcome` | backend/app/forensic/ntfs_mft.py:76-131 | a stream gives the records of its parsed slots with their warnings, the trailing bytes reported exactly when the record size does not divide the length; without a parsed slot it fails |
| `LayoutLaws.StreamSlots` | backend/app/forensic/ntfs_mft.py:78-84 | slot k of a stream is judged on its k-th record |
| `LayoutLaws.WarningsTell` | backend/app/forensic/ntfs_mft.py:83-105 | a warning is given if and only if some slot deserves it, named by its byte offset |
| `LayoutLaws.RecordWarningsIff` | backend/app/forensic/ntfs_mft.py:310-350 | a record is warned of exactly the slots of its standard informations and file names whose tick count has no datetime |
| `MftScanProperties.EveryResultMeetsContract` | backend/app/forensic/parser.py:47-64 | every result parse returns satisfies the status contract, so building it never raises |
| `MftScanProperties.StreamConservation` | backend/app/forensic/ntfs_mft.py:78-106 | a stream has floor(size / record size) slots, and zeroed + wrongly signed + rejected + parsed = slots |
| `MftScanProperties.CountsSplit` | backend/app/forensic/ntfs_mft.py:83-106 | over any slots none of which raises, the four outcomes partition them and records are the parsed ones |
| `MftScanProperties.WarningsCount` | backend/app/forensic/ntfs_mft.py:83-105 | there is one warning for each wrongly signed or rejected slot and none for a zeroed one, besides those of the parsed records themselves |
| `MftScanProperties.OffsetsIncrease` | backend/app/forensic/ntfs_mft.py:78-105 | both record offsets are whole records from the first, and a later one is at least one record further, so no source identifier repeats |
| `MftScanProperties.TrailingWarningIff` | backend/app/forensic/ntfs_mft.py:106-114 | the trailing-bytes warning appears exactly for a stream with a remainder and some parsed record |
| `MftScanProperties.EscapesIffPoisoned` | backend/app/forensic/ntfs_mft.py:94-103 | a slot raises exactly when its signature, fixup, header and attributes are accepted and the first 0x10 attribute or some 0x30 attribute is non-resident; a record without such attributes does not raise |
| `MftScanProperties.ParseRaisesIff` | backend/app/forensic/ntfs_mft.py:55-131 | the whole parse raises exactly when some slot of an acceptable layout is of that kind |
| `MftScanProperties.OneBadRecordLosesAll` | rules.md:724-741 | the rule that one malformed record must not lose the rest is false of the code: a good record alone is returned, followed by one bad record the parse raises |
| `Lnk.ReadIdList` | backend/app/forensic/lnk.py:196-237 | the item loop computes the specified items and warnings, limit included |
| `Lnk.ReadExtraData` | backend/app/forensic/lnk.py:314-339 | the block loop computes the last acceptable tracker and the warnings |
| `Lnk.ReadStrings` | backend/app/forensic/lnk.py:117-130 | the five flagged strings are read in order, each starting where the previous one ended |
| `Lnk.ReadLink` | backend/app/forensic/lnk.py:95-174 | the section cursor computes the specified link or error; its target path is said by LinkLaws.ParsedLinkPoints |
| `Lnk.SeamHasOneBackslash` | backend/app/forensic/lnk.py:342-358 | joining a base path and a suffix drops backslashes at the seam only and puts exactly one there |
| `LnkFormat.IdListDecodes` | backend/app/forensic/lnk.py:196-237 | a terminated list of well-formed items gives back its items, up to the limit, whatever follows |
| `LnkFormat.ItemsAreCells` | backend/app/forensic/lnk.py:196-237 | below the limit the i-th item read is the i-th item stored |
| `LnkFormat.LimitWarningIff` | backend/app/forensic/lnk.py:231-233 | the limit warning appears as soon as there are 4096 items, also when there are exactly 4096 and nothing is dropped |
| `LnkFormat.FullListIsReportedAsCut` | backend/app/forensic/lnk.py:231-233 | a list of exactly 4096 items gives all 4096 of them, and the warning that the limit was exceeded |
| `LnkFormat.VolumeDecodes` | backend/app/forensic/lnk.py:277-290 | a stored VolumeID structure decodes to its fields and label, ANSI or Unicode |
| `LnkFormat.NetworkDecodes` | backend/app/forensic/lnk.py:293-311 | a stored CommonNetworkRelativeLink decodes to its names |
| `LnkFormat.InfoDecodes` | backend/app/forensic/lnk.py:240-274 | a stored LinkInfo block decodes to itself without warnings |
| `LnkFormat.StringsDecode` | backend/app/forensic/lnk.py:185-193 | the flagged strings are read back exactly, and the cursor ends where they end |
| `LnkFormat.StringsWereEncoded` | backend/app/forensic/lnk.py:185-193 | conversely the bytes consumed are exactly the encoding of the strings returned |
| `LnkFormat.ExtraDecodes` | backend/app/forensic/lnk.py:314-339 | over any blocks of at least eight bytes, the tracker returned is that of the last tracker block of at least 96 bytes |
| `LnkFormat.ExtraTiles` | backend/app/forensic/lnk.py:314-339 | any bytes at all are well-formed blocks and a rest that starts none, the last large enough tracker block wins, and a missing terminal block is reported if and only if one to three bytes remain |
| `LnkFormat.MissingTerminatorIsSilent` | backend/app/forensic/lnk.py:337-338 | one block of eight bytes with nothing after it, so without its terminal block, gives no warning |
| `LnkFormat.ParseUndoesPrint` | backend/app/forensic/lnk.py:95-174 | parsing a file in which these sections lie end to end returns them, with the times of the header, and warns of nothing but what the items, the times and the extra data call for |
| `LinkLaws.ParsedLinkPoints` | backend/app/forensic/lnk.py:342-358 | for the link parsed from any bytes: a local path wins, as it is if the suffix is absent, empty or already its end; otherwise the share wins, with any suffix; the two are joined by exactly one backslash; only without both is it the relative path, the string of flag bit 3 |
| `LinkLaws.StoredLinkPoints` | backend/app/forensic/lnk.py:342-358 | the same of the parts that were stored, for every link laid out as a file |
| `LinkLaws.CStringIff` | backend/app/forensic/windows_binary.py:51-62 | a string field reads as the given text if and only if the bytes up to its first terminator, or to the end, spell it; absent exactly at offset zero or out of range |
| `LinkLaws.VolumeIff` | backend/app/forensic/lnk.py:277-290 | a VolumeID is read with these fields if and only if they stand there, the label at its ANSI or its Unicode offset |
| `LinkLaws.NetworkIff` | backend/app/forensic/lnk.py:293-311 | a network link is read with these fields if and only if they stand there |
| `LinkLaws.InfoRecovers` | backend/app/forensic/lnk.py:240-274 | a volume or network part is kept if its flag and offset announce it and it can be read, and otherwise costs its own warning and nothing else |
| `LinkLaws.InfoFailsIff` | backend/app/forensic/lnk.py:240-274 | a LinkInfo block with a sound header fails if and only if one of its two paths is ill-formed UTF-16 |
| `LinkLaws.IdListTiles` | backend/app/forensic/lnk.py:196-237 | any IDList bytes are well-formed items and a rest that starts none; below the limit the rest alone decides the last warning |
| `LinkLaws.ItemsWarn` | backend/app/forensic/lnk.py:196-237 | items are warned of by their index exactly if their class group has no name, and the limit is reported exactly at item 4096 |
| `LinkLaws.ItemKeeps` | backend/app/forensic/lnk.py:216-230 | of an item the size, the third byte and at most sixteen bytes from there are kept |
| `LinkLaws.TrackerKeeps` | backend/app/forensic/lnk.py:324-335 | of a tracker block the machine name up to its first NUL and the four identifiers are kept |
| `LinkLaws.TrackerIsLast` | backend/app/forensic/lnk.py:314-339 | the tracker is the last block with the signature and at least 96 bytes, or none |
| `LinkLaws.LinkWarnsOfTimes` | backend/app/forensic/lnk.py:176-182 | a link is warned of exactly the header times whose tick count has no datetime |
| `LnkWriter.LinkCanBeStored` | backend/app/forensic/lnk.py:95-174 | every link whose numbers and texts fit their fields and whose flags agree with its sections has a file in the stored layout |
| `LnkWriter.SomeFileParsesBack` | backend/app/forensic/lnk.py:95-174 | so every such link is the parse of some file, with exactly the expected warnings |
| `LnkFormat.AcceptedFileTiles` | backend/app/forensic/lnk.py:95-174 | the sections of every accepted file lie end to end, as the flags announce, and cover it |
| `Prefetch.ReadVolumes` | backend/app/forensic/prefetch.py:149-181 | the volume loop computes the specified volumes and warnings |
| `Prefetch.VolumesConserved` | backend/app/forensic/prefetch.py:159-181 | each entry gives exactly one volume or one warning naming its index |
| `Prefetch.ObservedAreNonZero` | backend/app/forensic/prefetch.py:82-87 | the kept execution times are the conversions of the nonzero slots, in slot order |
| `Prefetch.LoadExecution` | backend/app/forensic/prefetch.py:118-132 | the reads in the try block give all slots and the run count or, as soon as one of them fails, nothing but the truncation warning |
| `PrefetchLaws.ExecutionReads` | backend/app/forensic/prefetch.py:118-132 | for slots and a run count stored at the offsets of the version: they are read back in order, with a warning exactly if one has no datetime |
| `PrefetchLaws.TruncatedIff` | backend/app/forensic/prefetch.py:118-132 | nothing is read if and only if the file ends before its slots or before its run count |
| `PrefetchLaws.EntryIff` | backend/app/forensic/prefetch.py:160-176 | a volume entry is read with these fields if and only if they stand there, the path at its offset from the section and of its length in units |
| `PrefetchLaws.SectionTells` | backend/app/forensic/prefetch.py:149-181 | the whole section: none for a count of zero, refused beyond 128 entries or outside the file, otherwise entry by entry at the entry size of the version |
| `Prefetch.TruncatedFileLosesTimes` | backend/app/forensic/prefetch.py:124-129 | a file of 192 bytes with all eight slots readable and one of them set, of which no execution time is left |
| `RegistryWalk.WalkHive` | backend/app/forensic/registry_hive.py:82-143 | the explicit-stack walk returns exactly the recursive preorder: its records, warnings and counts up to the first unreadable key, and whether one raised |
| `RegistryWalk.VisitKey` | backend/app/forensic/registry_hive.py:91-141 | one key gives its record, then its values, then at most one warning for each listing that failed |
| `RegistryWalk.ReadValues` | backend/app/forensic/registry_hive.py:121-130 | the value loop emits records and warnings in value order |
| `RegistryWalk.ChildrenAreSorted` | backend/app/forensic/registry_hive.py:132-137 | with distinct sibling names the children are visited in (casefold, name) order |
| `RegistryLaws.ChildrenAscend` | backend/app/forensic/registry_hive.py:131-141 | the subkeys are visited each once, by folded name and then by name, letter by letter |
| `RegistryLaws.KeyTells` | backend/app/forensic/registry_hive.py:91-142 | a readable key writes its own record and then those of the values that can be normalised, in that order, and one warning for each thing that cannot be read |
| `RegistryLaws.WalkTours` | backend/app/forensic/registry_hive.py:82-143 | every key whose ancestors can be listed is reached once, parents before what is below them and siblings in their order, told by its place in the hive |
| `RegistryWalk.EachReachedOnce` | backend/app/forensic/registry_hive.py:82-143 | each key whose ancestors could be listed is reached exactly once |
| `RegistryWalk.PreorderIsOwnParts` | backend/app/forensic/registry_hive.py:82-143 | the output is the own parts of the reached keys, key after key, and nothing else |
| `RegistryWalk.OwnCounts` | backend/app/forensic/registry_hive.py:91-141 | a key contributes one key record followed by its value records; every value not recorded costs one warning |
| `RegistryWalk.WalkCounts` | backend/app/forensic/registry_hive.py:82-143 | records number key_count + value_count, key_count is the number of keys reached, and the one way to raise is an unreadable key among them |
| `RegistryWalk.SortExchange` | backend/app/forensic/registry_hive.py:132-137 | exchanging a sibling for one of the same name keeps its place in the visiting order |
| `RegistryWalk.ExchangeIsLocal` | backend/app/forensic/registry_hive.py:91-141 | replacing the subtree at one key, failures included, changes the output of that subtree and nothing around it |
| `Ordering.SortedIsUnique` | backend/app/correlation/rules.py:293-316 | a sorted permutation is unique when keys tell elements apart |
| `Ordering.SortForgetsOrder` | backend/app/correlation/rules.py:353-361 | sorting by the event key gives the same list for every permutation of the input |
| `CorrelationRules.IdentityTimePairs` | backend/app/correlation/rules.py:293-316 | the hash join computes the specified join |
| `CorrelationRules.GroupByIdentity` | backend/app/correlation/rules.py:301-307 | the dict holds, for each identity, the right events that have it and a time, in input order |
| `CorrelationRules.MatchInBucket` | backend/app/correlation/rules.py:313-315 | the inner loop keeps the events of the bucket in the same case and inside the window |
| `JoinProperties.JoinRefinesNestedLoop` | backend/app/correlation/rules.py:293-322 | as a multiset the join equals the nested loop over equal identities, same case and distance at most the window |
| `JoinProperties.JoinMembers` | backend/app/correlation/rules.py:293-322 | a triple is returned if and only if its events qualify |
| `JoinProperties.JoinAscends` | backend/app/correlation/rules.py:293-316 | the triples come in strictly ascending lexicographic order of the two sort keys |
| `JoinProperties.JoinForgetsOrder` | backend/app/correlation/rules.py:293-316 | permuting either input leaves the list of triples identical |
| `JoinProperties.WiderWindowKeepsPairs` | backend/app/correlation/rules.py:319-322 | widening the window only adds triples |
| `CorrelationCandidates.EvaluateRule` | backend/app/correlation/rules.py:62-277 | the loop over the pairs of a rule computes the specified candidates; what they are is said by CandidateLaws.CandidateIff |
| `CorrelationCandidates.EvaluateRules` | backend/app/services/correlation_service.py:72-79 | the loop over the rules collects the candidates of all of them, sorted, and all their warnings |
| `CorrelationCandidates.RunForgetsOrder` | backend/app/services/correlation_service.py:75-79 | the sorted candidates of a run do not depend on the order in which the events were returned |
| `CorrelationCandidates.AllCandidatesMembers` | backend/app/correlation/rules.py:62-277 | the candidates of a run are those that some rule makes of a joined pair it does not veto, and no others |
| `CorrelationCandidates.WiderWindowKeepsCandidates` | backend/app/correlation/rules.py:319-322 | a wider window keeps every candidate, whole |
| `CorrelationCandidates.CandidateEvents` | backend/app/correlation/rules.py:62-290 | a candidate joins a process creation with another kind of event of the same case |
| `CorrelationCandidates.CandidateIsDetermined` | backend/app/services/correlation_service.py:394-404 | within a run, rule and events determine the candidate |
| `CorrelationCandidates.AllCandidatesNoRepeats` | backend/app/services/correlation_service.py:72-79 | no candidate occurs twice among those of a run |
| `CandidateLaws.CandidateIff` | backend/app/correlation/rules.py:62-350 | over the fields of the events alone: (a, b) is a candidate if and only if both are events of the run and of one case, a is a timed Security 4688 creation, b a timed event of the kind of the rule, the folded names of the two entries of the rule agree, the times lie at most the window apart and, for a link, no two absolute paths differ; basis, identity and signed delta are determined, by the paths where the rule compares them |
| `CandidateLaws.LinkIff` | backend/app/correlation/rules.py:117-188 | the shell link rule in full: target name equal, absolute paths equal or not both there, exact match with the path as identity exactly when they are |
| `CandidateLaws.NtfsIff` | backend/app/correlation/rules.py:190-258 | the NTFS rule in full: file name equal, exact match exactly when the two paths are equal, and paths that differ do no harm |
| `CandidateLaws.CandidatesInOrder` | backend/app/services/correlation_service.py:394-404 | the candidates of a run come strictly by rule name, then the two times, the two sources, the identity and the two identifiers, texts compared letter by letter |
| `CandidateLaws.PairsInOrder` | backend/app/correlation/rules.py:293-362 | joined pairs come strictly by their left events and then by their right ones, events by time, source, time source, ordinal and identifier |
| `CorrelationCandidates.CandidatesAscend` | backend/app/services/correlation_service.py:394-404 | the candidates of a run come in strictly ascending order of the sort key: no two tie |
| `CorrelationCandidates.MoreEventsKeepCandidates` | backend/app/correlation/rules.py:293-322 | a candidate stays as long as process creations and events of other kinds stay, whatever is appended or done to the rest |
| `MatchKey.JoinBarsIsInjective` | backend/app/services/correlation_service.py:379-391 | joining with bars loses nothing as long as only the last part contains one |
| `MatchKey.KeyTextIdentifies` | backend/app/services/correlation_service.py:379-391 | key texts agree if and only if case, rule, unordered event pair, basis and identity agree, even when the identity contains a bar |
| `MatchKey.KeyTextSpells` | backend/app/services/correlation_service.py:379-391 | the text that is hashed, letter by letter: case, rule name, version 1.0.0, the two event identifiers with the one that sorts first in front, basis name and identity |
| `FindingLaws.MatchKeySpells` | backend/app/services/correlation_service.py:379-391 | and the key of a match is the digest of that text |
| `MatchKey.RunKeysAreDistinct` | backend/app/services/correlation_service.py:379-391 | two candidates of one run with the same key text are the same candidate |
| `CorrelationStore.CorrelationService.Run` | backend/app/services/correlation_service.py:48-223 | a run commits the whole effect of all its candidates, or nothing when a statement or the commit fails |
| `FindingLaws.RunTells` | backend/app/services/correlation_service.py:101-223 | a run writes its own row with what it saw, and for each new match a finding that is open, without notes, medium for the Prefetch rule and low for the others, of high confidence exactly for exact paths outside the Prefetch rule; the last audit carries the counts |
| `CorrelationStore.CorrelationService.UpdateFinding` | backend/app/services/correlation_service.py:318-371 | an update commits fields and audits together; a refused, unknown or failed one changes nothing |
| `FindingLaws.UpdateTells` | backend/app/services/correlation_service.py:318-371 | a status is refused exactly if it is sent, differs and is not one of the four moves; any other update sets exactly the fields sent, null clears the notes alone, and the audits name the fields and the change of status |
| `CorrelationInvariants.RunKeepsConsistent` | backend/app/services/correlation_service.py:75-219 | one run keeps the store consistent: unique keys, matches and findings one to one, two ordered links, one audit each, each match the key, basis and identity of a candidate of the events it links, counts that add up |
| `CorrelationInvariants.ConsistentAlways` | backend/app/services/correlation_service.py:48-223 | the store is consistent after every history of appended events, enriched events, runs and finding updates |
| `CorrelationInvariants.LinkOutlivesChange` | backend/app/services/correlation_service.py:103-151 | the candidate behind a match is still found in its window, with the same key, basis and identity, after events have been appended or enriched |
| `CorrelationInvariants.EmptyIsConsistent` | backend/app/services/correlation_service.py:48-223 | the invariant holds of a database with cases and nothing else |
| `CorrelationInvariants.MatchesAreCovered` | backend/app/services/correlation_service.py:103-109 | after any history the match keys are the union of the candidate keys of all its runs |
| `CorrelationInvariants.RunCreatesNewKeys` | backend/app/services/correlation_service.py:101-196 | a run creates one match for each candidate key not seen before, and records that number |
| `CorrelationInvariants.RunKeysDiffer` | backend/app/services/correlation_service.py:379-391 | the digests of any two candidates of one run differ, given that SHA-256 does not collide |
| `CorrelationInvariants.RunMatchesEachNewCandidate` | backend/app/services/correlation_service.py:103-196 | the recorded match count is the number of candidates of the run whose key is new: none is dropped as a duplicate of another |
| `CorrelationInvariants.EveryRunWarns` | backend/app/services/correlation_service.py:190-194 | over every history each run ends COMPLETED_WITH_WARNINGS |
| `CorrelationInvariants.RepeatedRunAddsNothing` | backend/app/services/correlation_service.py:103-109 | repeating a run, with the same or a narrower window, adds only the run and its audit |
| `CorrelationInvariants.RunsAreConfluent` | backend/app/services/correlation_service.py:103-109 | any sequence of runs over fixed events ends with the keys of its largest window, in whatever order they ran |
| `CorrelationInvariants.RunKeepsFindings` | backend/app/services/correlation_service.py:75-219 | a run never alters an existing finding |
| `CorrelationInvariants.TracedAlways` | backend/app/services/correlation_service.py:318-371 | over any history the status audits of each finding chain from OPEN to its present status along allowed transitions |
| `CorrelationInvariants.TraceIsShort` | backend/app/services/correlation_service.py:39-44 | such a chain has at most two changes |
| `CorrelationInvariants.ClosedStaysClosed` | backend/app/services/correlation_service.py:39-44 | RESOLVED and DISMISSED are never left, whatever happens afterwards |
| `TimelineNormalizer.RunPrefetch` | backend/app/services/timeline_normalizer.py:114-158 | the paired-list loop emits exactly the specified events and empty-slot warnings |
| `TimelineNormalizer.RunLnk` | backend/app/services/timeline_normalizer.py:160-210 | the three header times give the specified events |
| `TimelineNormalizer.RunFamily` | backend/app/services/timeline_normalizer.py:247-304 | the four times of one attribute give the specified events |
| `TimelineNormalizer.RunNtfs` | backend/app/services/timeline_normalizer.py:212-244 | standard information and all file names give the specified events in order |
| `TimelineNormalizer.RunNormalizer` | backend/app/services/timeline_normalizer.py:37-112 | the dispatch by artifact type computes the specified events and warnings |
| `EventLaws.EvtxEventsIff` | backend/app/services/timeline_normalizer.py:49-84 | the one event of an EVTX record, entry by entry: it exists if and only if the record has a timestamp, its own time wins over the text, and only a process creation adds identity entries |
| `EventLaws.CreationIdentity` | backend/app/services/timeline_normalizer.py:307-331 | the identity comes from the first dictionary of the event data that names the new process, and is none if that value has no file name in it |
| `EventLaws.RegistryEventsIff` | backend/app/services/timeline_normalizer.py:86-112 | the one event of a Registry key, entry by entry |
| `EventLaws.PrefetchEventsIff` | backend/app/services/timeline_normalizer.py:114-158 | an event is one of a Prefetch record if and only if it tells a place of the two lists that is dated at all, with that place as its ordinal |
| `EventLaws.LinkEventsIff` | backend/app/services/timeline_normalizer.py:160-210 | an event is one of a link if and only if it tells its creation, access or modification time, under that name and ordinal |
| `EventLaws.NtfsEventsIff` | backend/app/services/timeline_normalizer.py:212-304 | an event is one of an MFT record if and only if it tells one of the four times of the standard information or of a file name, with its family, field, name and parent |
| `EventLaws.WarningsIff` | backend/app/services/timeline_normalizer.py:49-158 | a record without a timestamp is warned of exactly for EVTX, Registry and Prefetch, and an empty slot exactly for Prefetch, by its index |
| `TimelineNormalizer.RecordKeysDistinct` | backend/app/services/timeline_normalizer.py:49-304 | the events of one record, whatever its JSON, differ in type, time source or ordinal, so none is dropped as a duplicate |
| `TimelineService.Timeline.Generate` | backend/app/services/timeline_service.py:36-160 | a generation commits the specified rows and audit or nothing; where each row comes from is said by Provenance |
| `TimelineService.CollectValues` | backend/app/services/timeline_service.py:77-116 | the loop over the records collects the rows of all their events and counts the silent records |
| `TimelineService.InsertRows` | backend/app/services/timeline_service.py:118-127 | the insert keeps existing rows and adds each value whose key is new |
| `TimelineService.Backfill` | backend/app/services/timeline_service.py:163-180 | the loop adds process identity to the rows of one case and changes no other |
| `TimelineService.GenuineIsEnriched` | backend/app/services/timeline_service.py:163-180 | a row made by the current normaliser already carries its identity |
| `TimelineService.BackfillTwice` | backend/app/services/timeline_service.py:163-180 | on any rows the backfill may set the three identity entries of the metadata and leaves every other entry and every other field alone, keeps keys and is idempotent |
| `TimelineService.RepairedIff` | backend/app/services/timeline_service.py:163-180 | the backfill makes a row what the present normaliser yields if and only if the row differs from that in identity entries at most |
| `TimelineService.GenerationRepairs` | backend/app/services/timeline_service.py:77-129 | one generation makes every row of its case genuine that is so up to its identity entries, and spoils no row of another case |
| `TimelineService.AllCasesGenuine` | backend/app/services/timeline_service.py:163-180 | the table is exact if and only if the rows of every case are genuine |
| `TimelineService.RepairedAlways` | backend/app/services/timeline_service.py:36-160 | over every history on rows of any age, the rows of a case are genuine once it has been generated, and stay so |
| `TimelineService.GenerateKeepsExact` | backend/app/services/timeline_service.py:77-129 | a generation keeps the table exact: keys unique, and every row what one of the records yields |
| `TimelineService.ExactAlways` | backend/app/services/timeline_service.py:36-160 | after every history the rows are exact and their number is the sum of all created counts |
| `Provenance.TraceableAlways` | backend/app/services/timeline_service.py:77-129 | over every history each row names a record, its artifact, the evidence and type of that artifact and the case of that evidence, and tells one of the events of the record |
| `Provenance.NearlyTraceableAlways` | backend/app/services/timeline_service.py:36-180 | the same for rows of any age up to their identity entries, and in full once their case has been generated |
| `Provenance.CaseIsTold` | backend/app/services/timeline_service.py:77-129 | after a generation a row is in the case if and only if it is traceable in that sense |
| `Provenance.KeyedAlways` | backend/app/services/timeline_service.py:36-80 | over every history artifacts are stored under their own identifiers |
| `Provenance.AuditTells` | backend/app/services/timeline_service.py:117-147 | the audit of a generation counts the records and artifacts of the case and the rows it added; parsed rows are untouched |
| `TimelineService.EmptyIsExact` | backend/app/services/timeline_service.py:36-160 | the invariant holds of the empty tables |
| `TimelineService.NothingLostNothingInvented` | backend/app/services/timeline_service.py:77-129 | after a generation the rows of the case are exactly its normalised events, also when older rows were there before |
| `TimelineService.RegenerateCreatesNothing` | backend/app/services/timeline_service.py:117-129 | generating again without new records creates nothing and changes no row, also when the first generation repaired older rows |
| `TimelineService.GenerationConserves` | backend/app/services/timeline_service.py:77-129 | created + skipped = normalised events + records with none, and the table grows by created |
| `ParserRecords.TimeEntriesCarry` | backend/app/forensic/ntfs_mft.py:338-349 | the four time entries of an attribute hold the times and the raw ticks of its slots |
| `ParserRecords.LinkDataIsLink` | backend/app/forensic/lnk.py:136-160 | from the dictionary the LNK parser writes, the timeline reads the three header times and raw ticks of the link |
| `DictionaryLaws.RecordHeaderTells` | backend/app/forensic/ntfs_mft.py:205-257 | the numbers of a decoded record are those at their places in the record header |
| `DictionaryLaws.ReferenceTells` | backend/app/forensic/ntfs_mft.py:407-409 | the first six bytes of a file reference number the record and the last two are its sequence |
| `DictionaryLaws.RecordEntries` | backend/app/forensic/ntfs_mft.py:228-257 | the dictionary of an MFT record, entry by entry |
| `DictionaryLaws.TimesTold` | backend/app/forensic/ntfs_mft.py:338-350 | the dictionary of an attribute value holds its four tick counts and their times, each under its own name |
| `DictionaryLaws.SummaryTells` | backend/app/forensic/ntfs_mft.py:270-304 | what the summary of every attribute says, its type name and lengths included |
| `DictionaryLaws.ClustersTell` | backend/app/forensic/ntfs_mft.py:352-404 | what the summary of a non-resident attribute adds, run by run |
| `DictionaryLaws.LinkDictionaryTells` | backend/app/forensic/lnk.py:131-174 | the dictionary of a parsed link, entry by entry: no part of it hides an entry of another |
| `DictionaryLaws.FlagNamesIff` | backend/app/forensic/lnk.py:21-48 | a flag is in the written list under its name if and only if its bit is set, for all 25 named bits |
| `DictionaryLaws.PrefetchTells` | backend/app/forensic/prefetch.py:63-116 | the dictionary of a Prefetch file: kept times and raw values place by place, run count, version and volumes |
| `Observations.NoMftTimestampLost` | backend/app/services/timeline_normalizer.py:212-304 | from the bytes of any record the parser accepts through the written dictionary to events: its attribute area is a list of stored attributes, and there is one event, in order, for each nonzero tick of the first standard information and of every file name among them, with the exact value; its time is null exactly when unrepresentable |
| `Observations.StoredMftTimestampsKept` | backend/app/forensic/ntfs_mft.py:184-257 | the same for any attributes stored in a record and protected: what was stored is what the events tell |
| `Observations.NoLinkTimestampLost` | backend/app/services/timeline_normalizer.py:160-210 | from the bytes of any link the parser accepts, damaged sections included, through the written dictionary to events: exactly the nonzero ticks at offsets 28, 36 and 44 of the header |
| `Observations.StoredLinkTimestampsKept` | backend/app/forensic/lnk.py:95-174 | the same for any link laid out as a file: what was stored is what the events tell |
| `Observations.NoExecutionTimeLost` | docs/development.md:155 | every nonzero execution time that can be read from the bytes has its event if and only if the file reaches to the end of its slots and of its run count, or no readable slot is set |
| `Observations.ExecutionTimesAreKept` | backend/app/forensic/prefetch.py:118-132 | from any bytes through the written dictionary to events: one event for each nonzero slot of a complete file, in slot order, and none for an incomplete one |
| `Observations.RecordReachesTable` | backend/app/services/timeline_service.py:77-129 | after a generation a record's rows in the table are exactly the rows of its events, on a table whose rows may be older than the identity entries |
| `Observations.MftTicksReachTable` | backend/app/services/timeline_service.py:77-129 | the rows of any accepted MFT record tell exactly the nonzero ticks of its stored attributes |
| `Observations.StoredMftTicksReachTable` | backend/app/services/timeline_service.py:77-129 | the rows of a stored MFT record tell exactly the ticks that were stored |
| `Observations.LinkTicksReachTable` | backend/app/services/timeline_service.py:77-129 | the rows of any accepted link tell exactly its nonzero header ticks |
| `Observations.StoredLinkTicksReachTable` | backend/app/services/timeline_service.py:77-129 | the rows of a link laid out as a file tell exactly the ticks that were stored |
| `Observations.ExecutionTicksReachTable` | backend/app/services/timeline_service.py:77-129 | the rows of any Prefetch file tell exactly the nonzero slots of a complete file, and nothing of an incomplete one |
| `Observations.WindowOnTicks` | backend/app/correlation/rules.py:319-322 | events whose tick values lie within the window always match in time, and a match is less than ten ticks further apart than the window |
| `Workbench.UnstampedIsIrrelevant` | backend/app/correlation/rules.py:280-290 | a row that the backfill can still change takes no part in any candidate |
| `Workbench.GenerationKeepsRelevant` | backend/app/services/timeline_service.py:117-129 | a generation appends events and rewrites only such rows, so to the rules it takes nothing away |
| `Workbench.StepKeepsInStep` | backend/app/services/correlation_service.py:58-71 | each ingestion, generation, run or edit keeps the events of the rules equal to the rows of the timeline, and both invariants |
| `Workbench.InStepAlways` | backend/app/services/correlation_service.py:48-223 | over every joint history both invariants hold, and what happens to the correlation store is one of its own histories |
| `Workbench.EmptyIsInStep` | backend/app/services/correlation_service.py:48-223 | the joint invariant holds of an empty database with cases |
| `Workbench.EveryMatchHasRecords` | backend/app/services/correlation_service.py:108-151 | every match links two different rows of its case, each exactly what normalising a record of the case yields |
| `Workbench.RunSeesTheCase` | backend/app/services/correlation_service.py:58-71 | after a generation, the events a run of the case reads are exactly the normalised events of its records |
| `Workbench.RowReads` | backend/app/correlation/rules.py:62-290 | what the rules read of a row of the timeline, entry by entry |
| `FileTree.ShrunkUndoesGrown` | backend/app/services/evidence_storage.py:110-118 | removing the made directories last to first restores the tree, each being empty when its turn comes |
| `FileTree.DroppedGrown` | backend/app/services/evidence_storage.py:110-118 | dropping a name commutes with making directories that do not include it |
| `EvidenceStorage.CleanupPaths` | backend/app/services/evidence_storage.py:110-118 | clean-up computes the two removals in order when the calls work, and at every moment has removed nothing else |
| `EvidenceStorage.EnsureDirectory` | backend/app/services/evidence_storage.py:132-141 | one part of the path is a directory afterwards, or the call fails having made at most that one |
| `EvidenceStorage.CreateGeneratedDirectories` | backend/app/services/evidence_storage.py:130-141 | the list returned is exactly what was made, in order, also on failure; without faults it fails exactly when a file is in the way |
| `EvidenceStorage.CopyInto` | backend/app/services/evidence_storage.py:57-64 | the chunk loop leaves what the stream hands out in the temporary file, with its count, and touches nothing else at any moment; what that is, is said by ReadsAllChunks |
| `EvidenceStorage.ReadsAllChunks` | backend/app/services/evidence_storage.py:57-64 | a stream that hands out any non-empty chunks and then ends, fails or throws is read as those chunks laid end to end, with that ending |
| `EvidenceStorage.EveryStreamGives` | backend/app/services/evidence_storage.py:57-64 | every stream is of this kind |
| `EvidenceStorage.Publish` | backend/app/services/evidence_storage.py:65-68 | the final name appears at once with the whole content, and the temporary name goes |
| `EvidenceStorage.BareIff` | backend/app/services/evidence_storage.py:54-79 | the tree a refusal leaves equals the tree before the call if and only if neither of the two names was already a file |
| `EvidenceStorage.ExistingDestinationIsDeleted` | backend/app/services/evidence_storage.py:54-73 | a tree on which the "already exists" branch deletes the file that was there |
| `EvidenceStorage.StreamExceptionLeavesTemporary` | backend/app/services/evidence_storage.py:71-79 | a stream whose exception no handler names: on the bare root the call raises it, and the temporary file stays |
| `EvidenceStorage.CleanUpRestores` | backend/app/services/evidence_storage.py:74-79 | whatever the try block got done, clean-up leaves the old tree without the two names |
| `EvidenceStorage.UndoingRestores` | backend/app/services/evidence_storage.py:106-118 | cleaning up a finished copy restores the tree exactly |
| `EvidenceStorage.CleanUp` | backend/app/services/evidence_storage.py:71-79 | seen from the tree before the call, clean-up restores it up to the two names, and at every moment has touched nothing else |
| `EvidenceStorage.Transfer` | backend/app/services/evidence_storage.py:54-70 | the body of the try block: finished copy, failure or escaping exception, each with the exact tree or its bounds |
| `EvidenceStorage.Store` | backend/app/services/evidence_storage.py:44-79 | finished copy with true size and digest, or clean-up, or an escaping exception with the temporary file left; a refusal whose clean-up works leaves the old tree exactly when neither name was a file; at every moment nothing else has changed and the final name holds no partial copy; without faults the request alone decides |
| `EvidenceStorage.CalculateSha256` | backend/app/services/evidence_storage.py:94-104 | the chunk loop digests and counts the whole file |
| `EvidenceService.FilesOfOthersStay` | backend/app/services/evidence_service.py:40-46 | no moment of a registration alters the file of another evidence row |
| `EvidenceService.UnderwayKeepsConsistent` | backend/app/services/evidence_service.py:40-106 | any moment before the commit keeps every committed row pointing to its complete file |
| `EvidenceService.CompletedKeepsConsistent` | backend/app/services/evidence_service.py:40-106 | so does the committed registration, the new row included |
| `EvidenceService.Withdraw` | backend/app/services/evidence_storage.py:106-118 | cleaning up after a rollback restores the tree before the registration |
| `EvidenceService.EvidenceService.CommitOrWithdraw` | backend/app/services/evidence_service.py:46-106 | the rows are committed for the complete file, or the file goes again |
| `EvidenceService.EvidenceService.Register` | backend/app/services/evidence_service.py:24-106 | registered in full or not at all: the chunks of the stream lie end to end under case/evidence/id/original, the row has their length, and the new hash, custody and audit rows belong to it with the digest of those bytes; crash-safe at every moment; a failure whose clean-up works leaves no trace if the names were free; without faults, for an open case, registered exactly when the request is storable, and a failure leaves the tree unchanged exactly when it meets no name that is taken and no unhandled exception |
| `EvidenceService.StorableIff` | backend/app/services/evidence_storage.py:44-79 | a request is storable if and only if no file is in the way of case/evidence/id, both names are free and the stream hands out chunks and ends |
| `EvidenceService.MomentMeans` | backend/app/services/evidence_service.py:40-106 | at any moment, and so after a crash, only the temporary name, the final name with all chunks of a stream that ends well, and directories on the way can be new, and only the two names can be gone |
| `EvidenceService.HealthyFailure` | backend/app/services/evidence_service.py:40-46 | a store that keeps nothing under working calls has left the tree changed exactly when a name was already a file or the stream threw what no handler names |
| `EvidenceService.EvidenceService.Verify` | backend/app/services/evidence_service.py:160-209 | a match is reported exactly when the digest of the present bytes is the acquisition digest; one hash row and one audit record it, and no other table changes |
| `EvidenceService.MatchesIffUnaltered` | backend/app/services/evidence_service.py:174-178 | verification matches if and only if the bytes are those that were acquired |
| `EvidenceService.RecheckedKeepsConsistent` | backend/app/services/evidence_service.py:179-198 | recording a verification never changes the acquisition digest of any evidence |
| `EvidenceService.EpisodeKeeps` | backend/app/services/evidence_service.py:24-209 | one registration, crashed, failed or completed, or one verification keeps all committed evidence |
| `EvidenceService.CommittedEvidenceIsForever` | backend/app/services/evidence_service.py:24-209 | over every run with crashes anywhere no committed row is lost, its bytes never change and its size and digest stay true |

## Left out

- UTF-16 text is kept as 16-bit units with the surrogate check; combining pairs to code points is not modelled.
- `isoformat`, `fromisoformat`, decimal text and UUID text are function parameters; precision, time semantics, titles and description texts are not modelled.
- Prefetch header, string section and referenced paths, and the LNK wrapper's signature and size checks: one-branch checks and field copying; the dictionary entries the Prefetch header gives are passed through as given.
- `evtx.py` and the decoding inside the `Registry` library: the hive is a given tree whose listings may fail; the JSON form of values is not modelled.
- Dates from a record's own time field enter as given; the window is compared in exact microseconds, while the reported delta in float seconds is not modelled.
- Path resolution, symbolic links and file-name validation: dependent on the operating system.
- A hard link is a second name with the same bytes; no code writes through either name afterwards, so sharing is not observable.
- Loss of power after a system call returned: the trail of trees holds what the calls have done, not what the disk cached.
- A commit that succeeds but is reported as failed: commits are atomic and their report is believed.
- Workbench.InStepAlways: starts from rows that carry all of their identity entries or none, because completing a partial identity may veto a match made before.
- Concurrent registrations: one case is serialised by its row lock and other cases use other directories; the model runs one call at a time.
- The correlation and timeline services are given the point at which a statement fails; which statement fails is not chosen by them.
- Case lifecycle beyond the OPEN gate, listing and filtering queries, settings, parser registry, API, schemas, migrations and the React frontend.
- Timeline rows: parser name and version and the identifiers merged into the provenance JSON are not modelled beyond the identifier columns.
- Report snapshots and HTML, PDF and JSON rendering.
