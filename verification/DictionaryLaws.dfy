/** The parsers' dictionaries, entry by entry, from the bytes of the file. */
module DictionaryLaws {
  import opened Wrappers
  import opened WindowsBinary
  import opened TimelineNormalizer
  import opened ParserRecords
  import MftAttributes
  import MftFormat
  import MftRecord
  import DataRuns
  import Lnk
  import LinkLaws
  import Prefetch
  import PrefetchLaws

  predicate Has(d: Object, key: string, value: Json) {
    key in d && d[key] == value
  }

  // ----- file references

  lemma {:induction false} LeSplits(bs: Bytes, n: nat)
    requires n <= |bs|
    ensures Le(bs) == Le(bs[..n]) + Pow256(n) * Le(bs[n..])
  {
    if n > 0 {
      LeSplits(bs[1..], n - 1);
      assert bs[1..][..n - 1] == bs[..n][1..] && bs[1..][n - 1..] == bs[n..];
      var low, high := Le(bs[..n][1..]), Le(bs[n..]);
      assert 256 * (low + Pow256(n - 1) * high) == 256 * low + Pow256(n) * high by {
        Spread(low, Pow256(n - 1), high);
      }
    } else {
      assert bs[0..] == bs;
    }
  }

  lemma Spread(a: int, p: int, b: int)
    ensures 256 * (a + p * b) == 256 * a + (256 * p) * b
  {
  }

  /** The first six bytes number the record and the last two are its sequence. */
  lemma ReferenceTells(data: Bytes, at: nat, v: nat)
    requires Holds(data, at, 8, v)
    ensures var r := MftAttributes.DecodeReference(v);
      Holds(data, at, 6, r.record) && Holds(data, at + 6, 2, r.sequence)
  {
    hide LeBytes, Pow256, Le;
    UintReadsWhatIsHeld(data, at, 8, v);
    var bs := data[at..at + 8];
    LeSplits(bs, 6);
    assert bs[..6] == data[at..at + 6] && bs[6..] == data[at + 6..at + 8];
    SixPowers();
    LeBelow(bs[..6]);
    UintReadsWhatIsHeld(data, at, 6, Le(bs[..6]));
    UintReadsWhatIsHeld(data, at + 6, 2, Le(bs[6..]));
    Divides(v, Le(bs[..6]), Le(bs[6..]));
  }

  lemma LeBelow(bs: Bytes)
    ensures Le(bs) < Pow256(|bs|)
  {
    LeBytesUndoesLe(bs);
  }

  lemma SixPowers()
    ensures Pow256(6) == 0x1_0000_0000_0000
  {
    assert Pow256(3) == 0x100_0000;
  }

  lemma Divides(v: nat, low: nat, high: nat)
    requires v == low + 0x1_0000_0000_0000 * high && low < 0x1_0000_0000_0000
    ensures v % 0x1_0000_0000_0000 == low && v / 0x1_0000_0000_0000 == high
  {
  }

  // ----- the header of an MFT record

  /** The fields of the record header, and where they stand. */
  ghost predicate HeaderShows(fixed: Bytes, rec: MftRecord.FileRecord) {
    && Holds(fixed, 16, 2, rec.sequence) && Holds(fixed, 18, 2, rec.hardLinks) && Holds(fixed, 22, 2, rec.flags)
    && Holds(fixed, 24, 4, rec.usedSize) && Holds(fixed, 28, 4, rec.allocatedSize) && Holds(fixed, 44, 4, rec.number)
    && Holds(fixed, 32, 6, rec.baseRecord.record) && Holds(fixed, 38, 2, rec.baseRecord.sequence)
  }

  lemma RecordHeaderTells(fixed: Bytes, offset: nat)
    requires |fixed| >= 48 && MftRecord.DecodeRecord(fixed, offset).Ok?
    ensures HeaderShows(fixed, MftRecord.DecodeRecord(fixed, offset).value)
    ensures MftRecord.DecodeRecord(fixed, offset).value.offset == offset
  {
    hide Le, LeBytes, Pow256, MftRecord.ChainOf, MftRecord.StandardOf, MftRecord.FileNamesOf;
    var rec := MftRecord.DecodeRecord(fixed, offset).value;
    FieldIsHeld(fixed, 16, 2, rec.sequence);
    FieldIsHeld(fixed, 18, 2, rec.hardLinks);
    FieldIsHeld(fixed, 22, 2, rec.flags);
    FieldIsHeld(fixed, 24, 4, rec.usedSize);
    FieldIsHeld(fixed, 28, 4, rec.allocatedSize);
    FieldIsHeld(fixed, 44, 4, rec.number);
    FieldIsHeld(fixed, 32, 8, Field(fixed, 0, 32, 8));
    ReferenceTells(fixed, 32, Field(fixed, 0, 32, 8));
    hide Holds, Field, MftAttributes.DecodeReference;
  }

  // ----- the dictionary of an MFT record

  predicate IsReference(j: Json, r: MftAttributes.Reference) {
    && j.Dict? && |j.entries| == 2 && Has(j.entries, "record_number", Number(r.record))
    && Has(j.entries, "sequence_number", Number(r.sequence))
  }

  /** The header entries of the dictionary. */
  predicate HeaderEntries(d: Object, rec: MftRecord.FileRecord) {
    && Has(d, "artifact_type", Text("NTFS_MFT")) && Has(d, "record_number", Number(rec.number))
    && Has(d, "sequence_number", Number(rec.sequence)) && Has(d, "hard_link_count", Number(rec.hardLinks))
    && Has(d, "flags_raw", Number(rec.flags)) && Has(d, "allocated_in_use", Bool(rec.flags % 2 == 1))
    && Has(d, "directory", Bool(rec.flags / 2 % 2 == 1))
  }

  predicate SizeEntries(d: Object, rec: MftRecord.FileRecord) {
    && Has(d, "used_record_size", Number(rec.usedSize)) && Has(d, "allocated_record_size", Number(rec.allocatedSize))
    && Has(d, "source_record_offset", Number(rec.offset))
    && "base_record_reference" in d && IsReference(d["base_record_reference"], rec.baseRecord)
  }

  lemma RecordEntries(w: Writer, rec: MftRecord.FileRecord)
    ensures HeaderEntries(MftData(w, rec), rec) && SizeEntries(MftData(w, rec), rec)
    ensures Has(MftData(w, rec), "attributes", List(AttributesJson(w, rec.attributes)))
    ensures Has(MftData(w, rec), "data_attributes", List(AttributesJson(w, DataAttributes(rec.attributes))))
  {
    RecordHeaderEntries(w, rec);
    RecordSizeEntries(w, rec);
    RecordListEntries(w, rec);
    hide MftData, HeaderEntries, SizeEntries;
  }

  /** Names with different codes are different: length and first two characters. */
  function Code(key: string): int
    requires |key| >= 2
  {
    |key| * 65536 + key[0] as int * 256 + key[1] as int
  }

  lemma RecordNames()
    ensures Code("artifact_type") == 876914 && Code("record_number") == 881253
    ensures Code("sequence_number") == 1012581 && Code("hard_link_count") == 1009761
    ensures Code("flags_raw") == 616044 && Code("allocated_in_use") == 1073516
    ensures Code("directory") == 615529 && Code("base_record_reference") == 1401441
    ensures Code("used_record_size") == 1078643 && Code("allocated_record_size") == 1401196
    ensures Code("data_attributes") == 1008737 && Code("attributes") == 680308
    ensures Code("source_record_offset") == 1340271 && Code("standard_information") == 1340276
    ensures Code("file_names") == 681577
  {
  }

  lemma RecordHeaderEntries(w: Writer, rec: MftRecord.FileRecord)
    ensures HeaderEntries(MftData(w, rec), rec)
  {
    RecordNumbers(w, rec);
    RecordFlags(w, rec);
    hide MftData;
  }

  lemma RecordNumbers(w: Writer, rec: MftRecord.FileRecord)
    ensures var d := MftData(w, rec);
      && Has(d, "artifact_type", Text("NTFS_MFT")) && Has(d, "record_number", Number(rec.number))
      && Has(d, "sequence_number", Number(rec.sequence)) && Has(d, "hard_link_count", Number(rec.hardLinks))
  {
    RecordNames();
    hide ValueJson, NameValues, AttributesJson, DataAttributes, ReferenceJson, Code;
  }

  lemma RecordFlags(w: Writer, rec: MftRecord.FileRecord)
    ensures var d := MftData(w, rec);
      && Has(d, "flags_raw", Number(rec.flags)) && Has(d, "allocated_in_use", Bool(rec.flags % 2 == 1))
      && Has(d, "directory", Bool(rec.flags / 2 % 2 == 1))
  {
    RecordNames();
    hide ValueJson, NameValues, AttributesJson, DataAttributes, ReferenceJson, Code;
  }

  lemma RecordSizeEntries(w: Writer, rec: MftRecord.FileRecord)
    ensures SizeEntries(MftData(w, rec), rec)
  {
    RecordSizes(w, rec);
    RecordBase(w, rec);
    hide MftData, IsReference;
  }

  lemma RecordSizes(w: Writer, rec: MftRecord.FileRecord)
    ensures var d := MftData(w, rec);
      && Has(d, "used_record_size", Number(rec.usedSize)) && Has(d, "allocated_record_size", Number(rec.allocatedSize))
      && Has(d, "source_record_offset", Number(rec.offset))
  {
    RecordNames();
    hide ValueJson, NameValues, AttributesJson, DataAttributes, ReferenceJson, Code;
  }

  lemma RecordBase(w: Writer, rec: MftRecord.FileRecord)
    ensures var d := MftData(w, rec);
      "base_record_reference" in d && IsReference(d["base_record_reference"], rec.baseRecord)
  {
    assert IsReference(ReferenceJson(rec.baseRecord), rec.baseRecord);
    RecordNames();
    hide ValueJson, NameValues, AttributesJson, DataAttributes, ReferenceJson, IsReference, Code;
  }

  lemma RecordListEntries(w: Writer, rec: MftRecord.FileRecord)
    ensures Has(MftData(w, rec), "attributes", List(AttributesJson(w, rec.attributes)))
    ensures Has(MftData(w, rec), "data_attributes", List(AttributesJson(w, DataAttributes(rec.attributes))))
  {
    RecordNames();
    hide ValueJson, NameValues, AttributesJson, DataAttributes, ReferenceJson, Code;
  }

  /** Only the data attributes, and all of them, in order. */
  lemma {:induction false} DataAttributesKept(items: seq<MftAttributes.Attribute>, a: MftAttributes.Attribute)
    ensures a in DataAttributes(items) <==> a in items && a.typeCode == 0x80
  {
    if |items| > 0 {
      DataAttributesKept(items[1..], a);
      assert items == [items[0]] + items[1..];
    }
  }

  /** The names of the type codes 0x10, 0x20 and so on up to 0x100; one of them has none. */
  const TYPE_NAMES: seq<string> := [
    "$STANDARD_INFORMATION", "$ATTRIBUTE_LIST", "$FILE_NAME", "$OBJECT_ID", "$SECURITY_DESCRIPTOR", "$VOLUME_NAME",
    "$VOLUME_INFORMATION", "$DATA", "$INDEX_ROOT", "$INDEX_ALLOCATION", "$BITMAP", "$REPARSE_POINT", "$EA_INFORMATION",
    "$EA", "UNKNOWN", "$LOGGED_UTILITY_STREAM"]

  predicate TypeNamed(code: nat, name: string) {
    if code % 16 == 0 && 0 < code / 16 <= 16 then name == TYPE_NAMES[code / 16 - 1] else name == "UNKNOWN"
  }

  lemma TypeIsNamed(code: nat)
    ensures TypeNamed(code, AttributeName(code))
  {
    if code % 16 == 0 && code / 16 <= 16 {
      assert code == 16 * (code / 16);
    }
  }

  /** What every attribute's summary says. */
  lemma SummaryTells(w: Writer, a: MftAttributes.Attribute)
    ensures var j := AttributeJson(w, a);
      && j.Dict? && Has(j.entries, "type_code", Text("0x" + w.hex8(a.typeCode)))
      && "type" in j.entries && j.entries["type"].Text? && TypeNamed(a.typeCode, j.entries["type"].s)
      && Has(j.entries, "attribute_id", Number(a.id))
      && Has(j.entries, "name", UnitsJson(w.codec, a.name)) && Has(j.entries, "flags", Number(a.flags))
      && Has(j.entries, "non_resident", Bool(a.body.NonResident?))
      && (a.body.Resident? ==> Has(j.entries, "resident_value_length", Number(a.body.length)))
      && (a.body.Resident? ==> ("resident_data_length" in j.entries <==> a.typeCode == 0x80))
      && (a.body.Resident? && a.typeCode == 0x80 ==> Has(j.entries, "resident_data_length", Number(a.body.length)))
  {
    TypeIsNamed(a.typeCode);
    hide UnitsJson, AttributeName, TypeNamed;
    CommonNames();
    if a.body.NonResident? {
      hide RunJson;
    }
  }

  lemma CommonNames()
    ensures |"type_code"| == 9 && |"type"| == 4 && |"attribute_id"| == 12 && |"name"| == 4 && |"non_resident"| == 12
    ensures |"flags"| == 5 && |"resident_value_length"| == 21 && |"resident_data_length"| == 20
    ensures "type"[0] == 't' && "name"[0] == 'n' && "attribute_id"[0] == 'a' && "non_resident"[0] == 'n'
    ensures |"start_vcn"| == 9 && "start_vcn"[0] == 's' && "type_code"[0] == 't' && |"last_vcn"| == 8
    ensures |"allocated_size"| == 14 && |"logical_size"| == 12 && "logical_size"[0] == 'l'
    ensures |"initialized_size"| == 16 && |"data_runs"| == 9 && "data_runs"[0] == 'd'
  {
  }

  /** What a non-resident attribute's summary adds. */
  lemma ClustersTell(w: Writer, a: MftAttributes.Attribute)
    requires a.body.NonResident?
    ensures var d := AttributeJson(w, a).entries; var runs := a.body.runs;
      && Has(d, "start_vcn", Number(a.body.startVcn)) && Has(d, "last_vcn", Number(a.body.lastVcn))
      && Has(d, "allocated_size", Number(a.body.allocatedSize)) && Has(d, "logical_size", Number(a.body.logicalSize))
      && Has(d, "initialized_size", Number(a.body.initializedSize))
      && "data_runs" in d && d["data_runs"].List? && |d["data_runs"].items| == |runs|
      && forall i :: 0 <= i < |runs| ==> IsRun(d["data_runs"].items[i], runs[i])
  {
    hide UnitsJson, AttributeName;
    CommonNames();
    forall i | 0 <= i < |a.body.runs|
      ensures IsRun(RunJson(a.body.runs[i]), a.body.runs[i])
    {
      RunTells(a.body.runs[i]);
    }
    hide RunJson, IsRun;
  }

  predicate IsRun(j: Json, run: DataRuns.Run) {
    && j.Dict? && Has(j.entries, "cluster_count", Number(run.count))
    && Has(j.entries, "lcn", if run.lcn.Some? then Number(run.lcn.value) else Null)
    && Has(j.entries, "lcn_delta", if run.delta.Some? then Number(run.delta.value) else Null)
    && Has(j.entries, "sparse", Bool(run.delta.None?))
  }

  lemma RunTells(run: DataRuns.Run)
    ensures IsRun(RunJson(run), run)
  {
  }

  // ----- parsed values

  predicate TimeTold(c: Codec, d: Object, name: string, raw: string, ticks: nat) {
    && Has(d, name, if 0 < ticks < 2650467744000000000 then Text(c.formatIso(ticks / 10)) else Null)
    && Has(d, raw, if ticks == 0 then Null else Text(c.decimal(ticks)))
  }

  /** The four times of either family, under their names. */
  lemma TimesTold(c: Codec, v: MftAttributes.Value, ticks: seq<nat>)
    requires !v.Plain? && |ticks| == 4 && v.times == MftFormat.StampsOf(ticks)
    ensures var d := ValueJson(c, v);
      && TimeTold(c, d, "creation_time", "creation_time_filetime", ticks[0])
      && TimeTold(c, d, "modification_time", "modification_time_filetime", ticks[1])
      && TimeTold(c, d, "mft_change_time", "mft_change_time_filetime", ticks[2])
      && TimeTold(c, d, "access_time", "access_time_filetime", ticks[3])
  {
    var d := ValueJson(c, v);
    FieldNames();
    forall i | 0 <= i < 4
      ensures TimeTold(c, d, NTFS_FIELDS[i], NTFS_FIELDS[i] + "_filetime", ticks[i])
    {
      OneTimeTold(c, v, ticks, i);
    }
    hide ValueJson, TimeTold;
    assert TimeTold(c, d, NTFS_FIELDS[0], NTFS_FIELDS[0] + "_filetime", ticks[0]);
    assert TimeTold(c, d, NTFS_FIELDS[1], NTFS_FIELDS[1] + "_filetime", ticks[1]);
    assert TimeTold(c, d, NTFS_FIELDS[2], NTFS_FIELDS[2] + "_filetime", ticks[2]);
    assert TimeTold(c, d, NTFS_FIELDS[3], NTFS_FIELDS[3] + "_filetime", ticks[3]);
  }

  lemma FieldNames()
    ensures NTFS_FIELDS[0] == "creation_time" && NTFS_FIELDS[0] + "_filetime" == "creation_time_filetime"
    ensures NTFS_FIELDS[1] == "modification_time" && NTFS_FIELDS[1] + "_filetime" == "modification_time_filetime"
    ensures NTFS_FIELDS[2] == "mft_change_time" && NTFS_FIELDS[2] + "_filetime" == "mft_change_time_filetime"
    ensures NTFS_FIELDS[3] == "access_time" && NTFS_FIELDS[3] + "_filetime" == "access_time_filetime"
  {
  }

  lemma OneTimeTold(c: Codec, v: MftAttributes.Value, ticks: seq<nat>, i: nat)
    requires !v.Plain? && |ticks| == 4 && v.times == MftFormat.StampsOf(ticks) && i < 4
    ensures TimeTold(c, ValueJson(c, v), NTFS_FIELDS[i], NTFS_FIELDS[i] + "_filetime", ticks[i])
  {
    hide TimeEntries, OtherEntries;
    TimeEntriesThere(c, v.times, OtherEntries(c, v), 4, i);
    TimeEntriesCarry(c, v.times, OtherEntries(c, v), 4, i);
    FileTimeExact(ticks[i]);
    TextsOfTicks(c, ticks[i]);
    hide FileTime;
  }

  lemma TextsOfTicks(c: Codec, ticks: nat)
    ensures TimeText(c, FileTime(ticks))
         == if 0 < ticks < 2650467744000000000 then Some(c.formatIso(ticks / 10)) else None
    ensures RawText(c, FileTime(ticks)) == if ticks == 0 then None else Some(c.decimal(ticks))
  {
  }

  lemma {:induction false} TimeEntriesThere(c: Codec, times: seq<Stamp>, other: Object, n: nat, i: nat)
    requires |times| == 4 && i < n <= 4
    ensures NTFS_FIELDS[i] in TimeEntries(c, times, other, n)
    ensures NTFS_FIELDS[i] + "_filetime" in TimeEntries(c, times, other, n)
  {
    hide TimeText, RawText, OptionalText;
    if i < n - 1 {
      TimeEntriesThere(c, times, other, n - 1, i);
    }
  }

  /** No time entry hides another one. */
  lemma {:induction false} OthersThere(c: Codec, times: seq<Stamp>, other: Object, n: nat, key: string)
    requires n <= |times| && n <= 4 && key in other
    requires forall i :: 0 <= i < 4 ==> key != NTFS_FIELDS[i] && key != NTFS_FIELDS[i] + "_filetime"
    ensures Has(TimeEntries(c, times, other, n), key, other[key])
  {
    hide TimeText, RawText, OptionalText;
    if n > 0 {
      OthersThere(c, times, other, n - 1, key);
    }
  }

  lemma NotATime(key: string)
    requires |key| !in {11, 13, 15, 17, 20, 22, 24, 26}
    ensures forall i :: 0 <= i < 4 ==> key != NTFS_FIELDS[i] && key != NTFS_FIELDS[i] + "_filetime"
  {
    forall i | 0 <= i < 4 {
      FieldNamesDiffer(i, i);
    }
  }

  lemma ParentIsNoTime()
    ensures forall i :: 0 <= i < 4 ==>
      "parent_directory_reference" != NTFS_FIELDS[i] && "parent_directory_reference" != NTFS_FIELDS[i] + "_filetime"
    ensures forall i :: 0 <= i < 4 ==>
      "file_attributes" != NTFS_FIELDS[i] && "file_attributes" != NTFS_FIELDS[i] + "_filetime"
  {
    assert NTFS_FIELDS[0][0] == 'c' && NTFS_FIELDS[1][0] == 'm' && NTFS_FIELDS[2][0] == 'm' && NTFS_FIELDS[3][0] == 'a';
    assert forall i :: 0 <= i < 4 ==> (NTFS_FIELDS[i] + "_filetime")[0] == NTFS_FIELDS[i][0];
    assert "parent_directory_reference"[0] == 'p' && "file_attributes"[0] == 'f';
  }

  /** The other entries of a $STANDARD_INFORMATION and of a $FILE_NAME. */
  lemma ValueTells(c: Codec, v: MftAttributes.Value)
    requires !v.Plain? && |v.times| == 4
    ensures Has(ValueJson(c, v), "file_attributes", Number(v.fileAttributes))
    ensures v.FileName? ==>
      var d := ValueJson(c, v);
      && Has(d, "filename", Text(c.textOf(v.name))) && Has(d, "allocated_size", Number(v.allocatedSize))
      && Has(d, "logical_size", Number(v.logicalSize))
      && "parent_directory_reference" in d && IsReference(d["parent_directory_reference"], v.parent)
      && Has(d, "namespace", Text(match v.namespace case 0 => "POSIX" case 1 => "WIN32" case 2 => "DOS"
                                  case 3 => "WIN32_AND_DOS" case _ => "UNKNOWN_" + c.decimal(v.namespace)))
  {
    ParentIsNoTime();
    var other := OtherEntries(c, v);
    OthersThere(c, v.times, other, 4, "file_attributes");
    if v.FileName? {
      FileNameEntries(c, v);
      NotATime("filename");
      NotATime("allocated_size");
      NotATime("logical_size");
      NotATime("namespace");
      OthersThere(c, v.times, other, 4, "filename");
      OthersThere(c, v.times, other, 4, "allocated_size");
      OthersThere(c, v.times, other, 4, "logical_size");
      OthersThere(c, v.times, other, 4, "parent_directory_reference");
      OthersThere(c, v.times, other, 4, "namespace");
    }
    hide TimeEntries, OtherEntries, IsReference;
  }

  lemma FileNameEntries(c: Codec, v: MftAttributes.Value)
    requires v.FileName?
    ensures var d := OtherEntries(c, v);
      && Has(d, "filename", Text(c.textOf(v.name))) && Has(d, "allocated_size", Number(v.allocatedSize))
      && Has(d, "logical_size", Number(v.logicalSize)) && Has(d, "file_attributes", Number(v.fileAttributes))
      && "parent_directory_reference" in d && IsReference(d["parent_directory_reference"], v.parent)
      && Has(d, "namespace", Text(match v.namespace case 0 => "POSIX" case 1 => "WIN32" case 2 => "DOS"
                                  case 3 => "WIN32_AND_DOS" case _ => "UNKNOWN_" + c.decimal(v.namespace)))
  {
    assert |"filename"| == 8 && |"allocated_size"| == 14 && |"logical_size"| == 12 && |"file_attributes"| == 15;
    assert |"parent_directory_reference"| == 26 && |"namespace"| == 9;
    assert |"record_number"| == 13 && |"sequence_number"| == 15;
  }

  // ----- the dictionary of a Shell Link

  predicate IsText(j: Json, c: Codec, text: Option<seq<Unit>>) {
    if text.Some? then j == Text(c.textOf(text.value)) else j == Null
  }

  predicate HasText(d: Object, key: string, c: Codec, text: Option<seq<Unit>>) {
    key in d && IsText(d[key], c, text)
  }

  /** The numbers of the header, as they stand in the file. */
  lemma LinkNumbers(data: Bytes)
    requires Lnk.Normalize(data).Ok?
    ensures var link := Lnk.Normalize(data).value.link;
      && Holds(data, 20, 4, link.flags) && Holds(data, 24, 4, link.attributes) && Holds(data, 52, 4, link.fileSize)
      && Holds(data, 56, 4, link.iconIndex) && Holds(data, 60, 4, link.showCommand)
  {
    hide Le, LeBytes, Pow256, Lnk.Bit, Lnk.DecodeIdSection, Lnk.DecodeInfoSection, Lnk.Strings, Lnk.ExtraData,
      Lnk.HeaderTimes, Lnk.BadTimes, Lnk.TargetPath;
    var link := Lnk.Normalize(data).value.link;
    FieldIsHeld(data, 20, 4, link.flags);
    FieldIsHeld(data, 24, 4, link.attributes);
    FieldIsHeld(data, 52, 4, link.fileSize);
    FieldIsHeld(data, 56, 4, link.iconIndex);
    FieldIsHeld(data, 60, 4, link.showCommand);
    hide Holds, Field;
  }

  predicate LinkHeaderEntries(d: Object, link: Lnk.Link) {
    && Has(d, "artifact_type", Text("LNK")) && Has(d, "link_flags_raw", Number(link.flags))
    && Has(d, "file_attributes", Number(link.attributes)) && Has(d, "target_file_size", Number(link.fileSize))
    && Has(d, "icon_index", Number(link.iconIndex)) && Has(d, "show_command", Number(link.showCommand))
  }

  predicate LinkTextEntries(d: Object, c: Codec, link: Lnk.Link)
    requires |link.strings| == 5
  {
    && HasText(d, "description", c, link.strings[0]) && HasText(d, "relative_path", c, link.strings[1])
    && HasText(d, "working_directory", c, link.strings[2]) && HasText(d, "command_line_arguments", c, link.strings[3])
    && HasText(d, "icon_location", c, link.strings[4])
    && HasText(d, "local_path", c, LinkLaws.LocalOf(link.info))
    && HasText(d, "common_path_suffix", c, LinkLaws.SuffixOf(link.info))
  }

  predicate IsVolume(j: Json, w: Writer, v: Option<Lnk.Volume>) {
    if v.None? then j == Null
    else
      && j.Dict? && Has(j.entries, "drive_type", Number(v.value.driveType))
      && Has(j.entries, "drive_serial_number", Text(w.hex8(v.value.serial)))
      && HasText(j.entries, "volume_label", w.codec, v.value.driveLabel)
  }

  predicate IsNetwork(j: Json, w: Writer, n: Option<Lnk.Network>) {
    if n.None? then j == Null
    else
      && j.Dict? && Has(j.entries, "flags", Number(n.value.flags))
      && HasText(j.entries, "network_share_name", w.codec, n.value.share)
      && HasText(j.entries, "device_name", w.codec, n.value.device)
      && Has(j.entries, "network_provider_type", Number(n.value.provider))
  }

  predicate IsTracker(j: Json, w: Writer, t: Option<Lnk.Tracker>) {
    if t.None? then j == Null
    else
      && |t.value.droids| == 4 && j.Dict? && Has(j.entries, "machine_id", Text(w.codec.textOf(t.value.machine)))
      && Has(j.entries, "droid_volume_identifier", Text(w.uuidOf(t.value.droids[0])))
      && Has(j.entries, "droid_file_identifier", Text(w.uuidOf(t.value.droids[1])))
      && Has(j.entries, "birth_droid_volume_identifier", Text(w.uuidOf(t.value.droids[2])))
      && Has(j.entries, "birth_droid_file_identifier", Text(w.uuidOf(t.value.droids[3])))
  }

  lemma PartsTell(w: Writer, v: Option<Lnk.Volume>, n: Option<Lnk.Network>, t: Option<Lnk.Tracker>)
    requires t.Some? ==> |t.value.droids| == 4
    ensures IsVolume(VolumeJson(w, v), w, v) && IsNetwork(NetworkJson(w, n), w, n) && IsTracker(TrackerJson(w, t), w, t)
  {
    VolumePartTells(w, v);
    NetworkPartTells(w, n);
    hide VolumeJson, NetworkJson, IsVolume, IsNetwork, UnitsJson;
  }

  lemma VolumePartTells(w: Writer, v: Option<Lnk.Volume>)
    ensures IsVolume(VolumeJson(w, v), w, v)
  {
    if v.Some? {
      TextsTold(w.codec, v.value.driveLabel);
    }
    hide UnitsJson, IsText;
  }

  lemma NetworkPartTells(w: Writer, n: Option<Lnk.Network>)
    ensures IsNetwork(NetworkJson(w, n), w, n)
  {
    if n.Some? {
      TextsTold(w.codec, n.value.share);
      TextsTold(w.codec, n.value.device);
    }
    hide UnitsJson, IsText;
  }

  predicate LinkPartEntries(d: Object, w: Writer, link: Lnk.Link) {
    var info := link.info;
    && "volume_information" in d && "network_information" in d && "tracker_information" in d
    && IsVolume(d["volume_information"], w, if info.Some? then info.value.volume else None)
    && IsNetwork(d["network_information"], w, if info.Some? then info.value.network else None)
    && IsTracker(d["tracker_information"], w, link.tracker)
  }

  /** Item i of the list says what is kept of it. */
  predicate IsItem(j: Json, w: Writer, item: Lnk.ShellItem, i: nat) {
    && j.Dict? && Has(j.entries, "index", Number(i)) && Has(j.entries, "size", Number(item.size))
    && Has(j.entries, "class_type", if item.classType.Some? then Number(item.classType.value) else Null)
    && Has(j.entries, "class_name",
           if item.classType.None? then Null
           else match item.classType.value / 16 % 8
                case 1 => Text("ROOT_FOLDER") case 2 => Text("VOLUME") case 3 => Text("FILE_ENTRY")
                case 4 => Text("NETWORK_LOCATION") case 6 => Text("URI") case _ => Null)
    && Has(j.entries, "bounded_header_hex", Text(w.hexOf(item.header)))
  }

  lemma ItemTells(w: Writer, item: Lnk.ShellItem, i: nat)
    ensures IsItem(ItemJson(w, item, i), w, item, i)
  {
  }

  /** A flag is named if and only if its bit is set. */
  lemma {:induction false} FlagsNamed(flags: nat, n: nat, j: Json)
    requires n <= |LINK_FLAGS|
    ensures j in FlagNames(flags, n) <==>
      exists k :: 0 <= k < n && j == Text(LINK_FLAGS[k].1) && flags / LINK_FLAGS[k].0 % 2 == 1
  {
    hide LINK_FLAGS;
    if n > 0 {
      FlagsNamed(flags, n - 1, j);
    }
  }

  /** The names of bits 0 to 26 ([MS-SHLLINK] section 2.1.1); two bits have none. */
  const BIT_NAMES: seq<string> := [
    "HAS_LINK_TARGET_ID_LIST", "HAS_LINK_INFO", "HAS_NAME", "HAS_RELATIVE_PATH", "HAS_WORKING_DIR", "HAS_ARGUMENTS",
    "HAS_ICON_LOCATION", "IS_UNICODE", "FORCE_NO_LINK_INFO", "HAS_EXP_STRING", "RUN_IN_SEPARATE_PROCESS", "",
    "HAS_DARWIN_ID", "RUN_AS_USER", "HAS_EXP_ICON", "NO_PIDL_ALIAS", "", "RUN_WITH_SHIM_LAYER", "FORCE_NO_LINK_TRACK",
    "ENABLE_TARGET_METADATA", "DISABLE_LINK_PATH_TRACKING", "DISABLE_KNOWN_FOLDER_TRACKING",
    "DISABLE_KNOWN_FOLDER_ALIAS", "ALLOW_LINK_TO_LINK", "UNALIAS_ON_SAVE", "PREFER_ENVIRONMENT_PATH",
    "KEEP_LOCAL_ID_LIST_FOR_UNC_TARGET"]

  function TwoTo(b: nat): (p: nat)
    ensures p > 0
  {
    if b == 0 then 1 else 2 * TwoTo(b - 1)
  }

  predicate BitNamed(flags: nat, b: nat, name: string) {
    b < 27 && BIT_NAMES[b] == name && name != "" && flags / TwoTo(b) % 2 == 1
  }

  /** The bit that entry i of the table stands for. */
  function BitOf(i: nat): nat {
    if i < 11 then i else if i < 15 then i + 1 else i + 2
  }

  lemma TableBits(i: nat)
    requires i < 25
    ensures |LINK_FLAGS| == 25 && LINK_FLAGS[i].0 == TwoTo(BitOf(i))
  {
    assert TwoTo(4) == 16;
    assert TwoTo(8) == 256;
    assert TwoTo(12) == 4096;
    assert TwoTo(16) == 65536;
    assert TwoTo(20) == 1048576;
    assert TwoTo(24) == 16777216;
  }

  lemma TableNames(i: nat)
    requires i < 25
    ensures |LINK_FLAGS| == 25 && |BIT_NAMES| == 27 && LINK_FLAGS[i].1 == BIT_NAMES[BitOf(i)] != ""
    ensures BIT_NAMES[11] == BIT_NAMES[16] == ""
  {
  }

  /** A flag is in the list of a link under its name if and only if its bit is set. */
  lemma FlagNamesIff(flags: nat, name: string)
    ensures Text(name) in FlagNames(flags, |LINK_FLAGS|) <==> exists b: nat :: BitNamed(flags, b, name)
  {
    forall i: nat | i < 25
      ensures |LINK_FLAGS| == 25 && |BIT_NAMES| == 27
      ensures LINK_FLAGS[i].0 == TwoTo(BitOf(i)) && LINK_FLAGS[i].1 == BIT_NAMES[BitOf(i)] != ""
      ensures BIT_NAMES[11] == BIT_NAMES[16] == ""
    {
      TableBits(i);
      TableNames(i);
    }
    hide LINK_FLAGS, BIT_NAMES, TwoTo, FlagNames;
    FlagsNamed(flags, |LINK_FLAGS|, Text(name));
    forall i: nat | i < 25 && name == LINK_FLAGS[i].1 && flags / LINK_FLAGS[i].0 % 2 == 1
      ensures BitNamed(flags, BitOf(i), name)
    {
    }
    forall b: nat | BitNamed(flags, b, name)
      ensures Text(name) in FlagNames(flags, |LINK_FLAGS|)
    {
      var i: nat := if b < 11 then b else if b < 16 then b - 1 else b - 2;
      assert BitOf(i) == b;
    }
  }

  /** The names of the entries, part by part. */
  const START_KEYS: set<string> :=
    {"artifact_type", "source_identifier", "source_lnk_filename", "link_flags", "link_flags_raw",
     "file_attributes", "target_file_size", "icon_index", "show_command", "target_id_list",
     "tracker_information"}

  const TEXT_KEYS: set<string> :=
    {"description", "relative_path", "working_directory", "command_line_arguments", "icon_location",
     "volume_information", "local_path", "common_path_suffix", "network_information"}

  const LAST_KEYS: set<string> :=
    {"target_path", "creation_time", "creation_time_filetime", "access_time", "access_time_filetime",
     "modification_time", "modification_time_filetime"}

  lemma StartCodes()
    ensures forall k :: k in START_KEYS ==>
              |k| >= 2 && Code(k) in
                {876914, 1143663, 1274735, 683113, 945257, 1009257, 1078369, 682339, 815976, 947297, 1274994}
  {
  }

  lemma TextCodes()
    ensures forall k :: k in TEXT_KEYS ==>
              |k| >= 2 && Code(k) in
                {746597, 881253, 1144687, 1467247, 878947, 1209967, 683119, 1205103, 1273445}
  {
  }

  lemma LastCodes()
    ensures forall k :: k in LAST_KEYS ==>
              |k| >= 2 && Code(k) in
                {750689, 877426, 1467250, 745827, 1335651, 1142127, 1731951}
  {
  }

  /** No part hides an entry of another. */
  lemma KeysApart()
    ensures START_KEYS !! TEXT_KEYS && START_KEYS !! LAST_KEYS && TEXT_KEYS !! LAST_KEYS
  {
    StartCodes();
    TextCodes();
    LastCodes();
    hide START_KEYS, TEXT_KEYS, LAST_KEYS, Code;
  }

  lemma PartKeys(w: Writer, name: Option<string>, id: string, link: Lnk.Link)
    requires |link.strings| == 5 && |link.times| == 3
    ensures LinkStart(w, name, id, link).Keys == START_KEYS && LinkTexts(w, link).Keys == TEXT_KEYS
    ensures TargetAndTimes(w, link).Keys == LAST_KEYS
  {
    hide FlagNames, ItemJson, TrackerJson, TimeText, RawText, OptionalText, UnitsJson, VolumeJson, NetworkJson,
      LINK_FLAGS;
  }

  /** Each part's entries are the dictionary's. */
  lemma PartsStand(w: Writer, name: Option<string>, id: string, link: Lnk.Link, key: string)
    requires |link.strings| == 5 && |link.times| == 3
    ensures key in LinkStart(w, name, id, link)
          ==> Has(LinkData(w, name, id, link), key, LinkStart(w, name, id, link)[key])
    ensures key in LinkTexts(w, link) ==> Has(LinkData(w, name, id, link), key, LinkTexts(w, link)[key])
    ensures key in TargetAndTimes(w, link) ==> Has(LinkData(w, name, id, link), key, TargetAndTimes(w, link)[key])
  {
    PartKeys(w, name, id, link);
    KeysApart();
    hide LinkStart, LinkTexts, TargetAndTimes, START_KEYS, TEXT_KEYS, LAST_KEYS;
  }

  lemma LinkStartEntries(w: Writer, name: Option<string>, id: string, link: Lnk.Link)
    requires link.tracker.Some? ==> |link.tracker.value.droids| == 4
    ensures var d := LinkStart(w, name, id, link);
      && LinkHeaderEntries(d, link) && Has(d, "source_identifier", Text(id))
      && Has(d, "source_lnk_filename", if name.Some? then Text(name.value) else Null)
      && Has(d, "link_flags", List(FlagNames(link.flags, |LINK_FLAGS|)))
      && Has(d, "tracker_information", TrackerJson(w, link.tracker))
  {
    TextOrNull(name);
    StartNames();
    hide FlagNames, ItemJson, TrackerJson, OptionalText, LINK_FLAGS, Code;
  }

  lemma TextOrNull(s: Option<string>)
    ensures OptionalText(s) == if s.Some? then Text(s.value) else Null
  {
  }

  lemma StartNames()
    ensures Code("artifact_type") == 876914 && Code("source_identifier") == 1143663
    ensures Code("source_lnk_filename") == 1274735 && Code("link_flags") == 683113
    ensures Code("link_flags_raw") == 945257 && Code("file_attributes") == 1009257
    ensures Code("target_file_size") == 1078369 && Code("icon_index") == 682339
    ensures Code("show_command") == 815976 && Code("target_id_list") == 947297
    ensures Code("tracker_information") == 1274994
  {
  }

  lemma LinkItemEntries(w: Writer, name: Option<string>, id: string, link: Lnk.Link)
    ensures var d := LinkStart(w, name, id, link);
      && "target_id_list" in d && d["target_id_list"].List? && |d["target_id_list"].items| == |link.items|
      && forall i :: 0 <= i < |link.items| ==> IsItem(d["target_id_list"].items[i], w, link.items[i], i)
  {
    forall i | 0 <= i < |link.items|
      ensures IsItem(ItemJson(w, link.items[i], i), w, link.items[i], i)
    {
      ItemTells(w, link.items[i], i);
    }
    StartNames();
    hide FlagNames, ItemJson, TrackerJson, OptionalText, LINK_FLAGS, Code, IsItem;
  }

  lemma TextNames()
    ensures Code("description") == 746597 && Code("relative_path") == 881253
    ensures Code("working_directory") == 1144687 && Code("command_line_arguments") == 1467247
    ensures Code("icon_location") == 878947 && Code("volume_information") == 1209967
    ensures Code("local_path") == 683119 && Code("common_path_suffix") == 1205103
    ensures Code("network_information") == 1273445
  {
  }

  lemma TextsTold(c: Codec, text: Option<seq<Unit>>)
    ensures IsText(UnitsJson(c, text), c, text)
  {
  }

  lemma LinkTextsTell(w: Writer, link: Lnk.Link)
    requires |link.strings| == 5
    ensures var d := LinkTexts(w, link); var info := link.info;
      && LinkTextEntries(d, w.codec, link)
      && Has(d, "volume_information", VolumeJson(w, if info.Some? then info.value.volume else None))
      && Has(d, "network_information", NetworkJson(w, if info.Some? then info.value.network else None))
  {
    LinkStringsTell(w, link);
    LinkPathsTell(w, link);
    LinkInfoTells(w, link);
    hide LinkTexts, IsText, VolumeJson, NetworkJson;
  }

  lemma LinkStringsTell(w: Writer, link: Lnk.Link)
    requires |link.strings| == 5
    ensures var d := LinkTexts(w, link); var c := w.codec;
      && HasText(d, "description", c, link.strings[0]) && HasText(d, "relative_path", c, link.strings[1])
      && HasText(d, "working_directory", c, link.strings[2]) && HasText(d, "command_line_arguments", c, link.strings[3])
      && HasText(d, "icon_location", c, link.strings[4])
  {
    FirstStringsTell(w, link);
    LastStringsTell(w, link);
    hide LinkTexts, IsText;
  }

  lemma FirstStringsTell(w: Writer, link: Lnk.Link)
    requires |link.strings| == 5
    ensures var d := LinkTexts(w, link);
      && HasText(d, "description", w.codec, link.strings[0]) && HasText(d, "relative_path", w.codec, link.strings[1])
  {
    TextsTold(w.codec, link.strings[0]);
    TextsTold(w.codec, link.strings[1]);
    TextNames();
    hide UnitsJson, VolumeJson, NetworkJson, IsText, Code;
  }

  lemma LastStringsTell(w: Writer, link: Lnk.Link)
    requires |link.strings| == 5
    ensures var d := LinkTexts(w, link); var c := w.codec;
      && HasText(d, "working_directory", c, link.strings[2]) && HasText(d, "command_line_arguments", c, link.strings[3])
      && HasText(d, "icon_location", c, link.strings[4])
  {
    TextsTold(w.codec, link.strings[2]);
    TextsTold(w.codec, link.strings[3]);
    TextsTold(w.codec, link.strings[4]);
    TextNames();
    hide UnitsJson, VolumeJson, NetworkJson, IsText, Code;
  }

  lemma LinkPathsTell(w: Writer, link: Lnk.Link)
    requires |link.strings| == 5
    ensures var d := LinkTexts(w, link); var c := w.codec;
      && HasText(d, "local_path", c, LinkLaws.LocalOf(link.info))
      && HasText(d, "common_path_suffix", c, LinkLaws.SuffixOf(link.info))
  {
    TextsTold(w.codec, LinkLaws.LocalOf(link.info));
    TextsTold(w.codec, LinkLaws.SuffixOf(link.info));
    TextNames();
    hide UnitsJson, VolumeJson, NetworkJson, IsText, Code;
  }

  lemma LinkInfoTells(w: Writer, link: Lnk.Link)
    requires |link.strings| == 5
    ensures var d := LinkTexts(w, link); var info := link.info;
      && Has(d, "volume_information", VolumeJson(w, if info.Some? then info.value.volume else None))
      && Has(d, "network_information", NetworkJson(w, if info.Some? then info.value.network else None))
  {
    TextNames();
    hide UnitsJson, VolumeJson, NetworkJson, Code;
  }

  /** What is said of a dictionary that has the entries of these parts. */
  lemma LinkParts(d: Object, w: Writer, start: Object, texts: Object, link: Lnk.Link)
    requires |link.strings| == 5 && start.Keys == START_KEYS && texts.Keys == TEXT_KEYS
    requires forall key :: (key in start ==> Has(d, key, start[key])) && (key in texts ==> Has(d, key, texts[key]))
    ensures LinkHeaderEntries(start, link) ==> LinkHeaderEntries(d, link)
    ensures LinkTextEntries(texts, w.codec, link) ==> LinkTextEntries(d, w.codec, link)
  {
    hide IsText, START_KEYS, TEXT_KEYS;
  }

  /** The whole dictionary of a parsed link. */
  lemma LinkDictionaryTells(w: Writer, name: Option<string>, id: string, link: Lnk.Link)
    requires |link.strings| == 5 && |link.times| == 3
    requires link.tracker.Some? ==> |link.tracker.value.droids| == 4
    ensures var d := LinkData(w, name, id, link);
      && LinkHeaderEntries(d, link) && LinkTextEntries(d, w.codec, link) && LinkPartEntries(d, w, link)
      && Has(d, "link_flags", List(FlagNames(link.flags, |LINK_FLAGS|)))
      && "target_path" in d && IsText(d["target_path"], w.codec, link.targetPath)
      && "target_id_list" in d && d["target_id_list"].List? && |d["target_id_list"].items| == |link.items|
      && forall i :: 0 <= i < |link.items| ==> IsItem(d["target_id_list"].items[i], w, link.items[i], i)
  {
    LinkStartEntries(w, name, id, link);
    LinkItemEntries(w, name, id, link);
    LinkTextsTell(w, link);
    TextsTold(w.codec, link.targetPath);
    PartsTell(w, if link.info.Some? then link.info.value.volume else None,
              if link.info.Some? then link.info.value.network else None, link.tracker);
    PartKeys(w, name, id, link);
    assert TargetAndTimes(w, link)["target_path"] == UnitsJson(w.codec, link.targetPath) by {
      TargetAndTimesHold(w, link);
    }
    hide FlagNames, ItemJson, TrackerJson, OptionalText, LINK_FLAGS, Code, IsItem, IsVolume, IsNetwork, IsTracker,
      LinkHeaderEntries, LinkTextEntries, UnitsJson, IsText, VolumeJson, NetworkJson, LinkStart, LinkTexts,
      TargetAndTimes, LinkData, START_KEYS, TEXT_KEYS;
    forall key
      ensures key in LinkStart(w, name, id, link) ==>
                Has(LinkData(w, name, id, link), key, LinkStart(w, name, id, link)[key])
      ensures key in LinkTexts(w, link) ==> Has(LinkData(w, name, id, link), key, LinkTexts(w, link)[key])
    {
      PartsStand(w, name, id, link, key);
    }
    PartsStand(w, name, id, link, "target_path");
    LinkParts(LinkData(w, name, id, link), w, LinkStart(w, name, id, link), LinkTexts(w, link), link);
  }

  // ----- the dictionary of a Prefetch file

  /** Times and raw values of the kept slots, the run count and the version. */
  lemma PrefetchTells(w: Writer, header: Object, v: Prefetch.Version, e: Prefetch.Execution,
                      volumes: seq<Prefetch.Volume>)
    ensures var d := PrefetchData(w, header, v, e, volumes);
      && Has(d, "artifact_type", Text("PREFETCH"))
      && Has(d, "prefetch_version",
             Number(match v case V17 => 17 case V23 => 23 case V26 => 26 case V30 => 30 case V31 => 31))
      && Has(d, "run_count", if e.runCount.Some? then Number(e.runCount.value) else Null)
      && "volume_information" in d && d["volume_information"].List? && |d["volume_information"].items| == |volumes|
      && (forall i :: 0 <= i < |volumes| ==> IsPrefetchVolume(d["volume_information"].items[i], w, volumes[i]))
      && forall key :: key in header && key !in {"artifact_type", "prefetch_version", "run_count", "volume_information",
                                                 "execution_times", "execution_time_filetime_values"} ==>
           Has(d, key, header[key])
  {
    PrefetchKeys();
    forall i | 0 <= i < |volumes|
      ensures IsPrefetchVolume(PrefetchVolumeJson(w, volumes[i]), w, volumes[i])
    {
      VolumeTells(w, volumes[i]);
    }
    hide PrefetchVolumeJson, TimesJson, RawsJson, Prefetch.Observed, IsPrefetchVolume;
  }

  lemma PrefetchKeys()
    ensures |"artifact_type"| == 13 && |"prefetch_version"| == 16 && |"run_count"| == 9 && |"volume_information"| == 18
    ensures |"execution_times"| == 15 && |"execution_time_filetime_values"| == 30
  {
  }

  predicate IsPrefetchVolume(j: Json, w: Writer, v: Prefetch.Volume) {
    && j.Dict? && Has(j.entries, "device_path", Text(w.codec.textOf(v.path)))
    && Has(j.entries, "serial_number", Text(w.hex8(v.serial)))
    && Has(j.entries, "creation_time", if v.created.time.Some? then Text(w.codec.formatIso(v.created.time.value))
           else Null)
    && Has(j.entries, "creation_time_filetime",
           if v.created.raw.Some? then Text(w.codec.decimal(v.created.raw.value)) else Null)
  }

  lemma VolumeTells(w: Writer, v: Prefetch.Volume)
    ensures IsPrefetchVolume(PrefetchVolumeJson(w, v), w, v)
  {
    assert |"device_path"| == 11 && |"serial_number"| == 13 && |"creation_time"| == 13;
    assert "serial_number"[0] != "creation_time"[0];
  }
}
