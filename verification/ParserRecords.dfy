/** The dictionaries that the binary parsers hand to the database, and what the timeline reads of them. */
module ParserRecords {
  import opened Wrappers
  import opened WindowsBinary
  import opened TimelineNormalizer
  import DataRuns
  import MftAttributes
  import MftRecord
  import Lnk
  import Prefetch

  /** The host's text forms: eight hexadecimal digits, bytes.hex() and str(uuid.UUID(bytes_le=..)). */
  datatype Writer = Writer(codec: Codec, hex8: nat -> string, hexOf: Bytes -> string, uuidOf: Bytes -> string)

  // ----- converted FILETIMEs

  function TimeText(c: Codec, s: Stamp): Option<string> {
    if s.time.Some? then Some(c.formatIso(s.time.value)) else None
  }

  function RawText(c: Codec, s: Stamp): Option<string> {
    if s.raw.Some? then Some(c.decimal(s.raw.value)) else None
  }

  lemma StringBack(s: Option<string>)
    ensures StringOf(OptionalText(s)) == s
  {
  }

  function UnitsJson(c: Codec, text: Option<seq<Unit>>): Json {
    if text.Some? then Text(c.textOf(text.value)) else Null
  }

  function OptionalNumber(n: Option<int>): Json {
    if n.Some? then Number(n.value) else Null
  }

  // ----- NTFS: parsed attribute values

  /** The four names and values, added to whatever other entries the parser writes. */
  function TimeEntries(c: Codec, times: seq<Stamp>, other: Object, n: nat): Object
    requires n <= |times| && n <= 4
  {
    if n == 0 then other
    else TimeEntries(c, times, other, n - 1)[NTFS_FIELDS[n - 1] := OptionalText(TimeText(c, times[n - 1]))]
                                            [NTFS_FIELDS[n - 1] + "_filetime" := OptionalText(RawText(c, times[n - 1]))]
  }

  /** The eight entry names differ, by length. */
  lemma FieldNamesDiffer(i: nat, j: nat)
    requires i < 4 && j < 4
    ensures |NTFS_FIELDS[i]| == [13, 17, 15, 11][i] && |NTFS_FIELDS[i] + "_filetime"| == [22, 26, 24, 20][i]
    ensures i != j ==> NTFS_FIELDS[i] != NTFS_FIELDS[j] && NTFS_FIELDS[i] + "_filetime" != NTFS_FIELDS[j] + "_filetime"
    ensures NTFS_FIELDS[i] != NTFS_FIELDS[j] + "_filetime"
  {
    assert |NTFS_FIELDS[0]| == 13 && |NTFS_FIELDS[1]| == 17 && |NTFS_FIELDS[2]| == 15 && |NTFS_FIELDS[3]| == 11;
    assert |NTFS_FIELDS[j]| == [13, 17, 15, 11][j];
  }

  lemma {:induction false} TimeEntriesCarry(c: Codec, times: seq<Stamp>, other: Object, n: nat, i: nat)
    requires |times| == 4 && i < n <= 4
    ensures Get(TimeEntries(c, times, other, n), NTFS_FIELDS[i]) == OptionalText(TimeText(c, times[i]))
    ensures Get(TimeEntries(c, times, other, n), NTFS_FIELDS[i] + "_filetime") == OptionalText(RawText(c, times[i]))
  {
    hide TimeText, RawText, OptionalText;
    FieldNamesDiffer(i, n - 1);
    FieldNamesDiffer(n - 1, i);
    if i < n - 1 {
      TimeEntriesCarry(c, times, other, n - 1, i);
    }
  }

  function ReferenceJson(r: MftAttributes.Reference): Json {
    Dict(map["record_number" := Number(r.record), "sequence_number" := Number(r.sequence)])
  }

  function NamespaceText(c: Codec, namespace: Byte): string {
    match namespace
    case 0 => "POSIX"
    case 1 => "WIN32"
    case 2 => "DOS"
    case 3 => "WIN32_AND_DOS"
    case _ => "UNKNOWN_" + c.decimal(namespace)
  }

  /** The entries of a parsed value other than its times. */
  function OtherEntries(c: Codec, v: MftAttributes.Value): Object {
    match v
    case Plain => map[]
    case StandardInformation(_, attributes) => map["file_attributes" := Number(attributes)]
    case FileName(parent, _, allocatedSize, logicalSize, attributes, namespace, name) =>
      map["parent_directory_reference" := ReferenceJson(parent), "allocated_size" := Number(allocatedSize),
          "logical_size" := Number(logicalSize), "file_attributes" := Number(attributes),
          "namespace" := Text(NamespaceText(c, namespace)), "filename" := Text(c.textOf(name))]
  }

  /** The dictionary stored for a parsed attribute value. */
  function ValueJson(c: Codec, v: MftAttributes.Value): Object {
    if v.Plain? then map[]
    else TimeEntries(c, v.times, OtherEntries(c, v), if |v.times| < 4 then |v.times| else 4)
  }

  /** The entries the timeline reads of either family. */
  predicate Carries(c: Codec, times: Object, stamps: seq<Stamp>) {
    |stamps| == 4 && forall i :: 0 <= i < 4 ==>
      && Get(times, NTFS_FIELDS[i]) == OptionalText(TimeText(c, stamps[i]))
      && Get(times, NTFS_FIELDS[i] + "_filetime") == OptionalText(RawText(c, stamps[i]))
  }

  lemma ValueCarries(c: Codec, v: MftAttributes.Value)
    requires !v.Plain? && |v.times| == 4
    ensures Carries(c, ValueJson(c, v), v.times)
    ensures |ValueJson(c, v)| > 0
  {
    hide TimeText, RawText, OptionalText, TimeEntries, Get, OtherEntries;
    var other := OtherEntries(c, v);
    forall i | 0 <= i < 4
      ensures Get(ValueJson(c, v), NTFS_FIELDS[i]) == OptionalText(TimeText(c, v.times[i]))
      ensures Get(ValueJson(c, v), NTFS_FIELDS[i] + "_filetime") == OptionalText(RawText(c, v.times[i]))
    {
      TimeEntriesCarry(c, v.times, other, 4, i);
    }
    TimeEntriesSome(c, v.times, other);
  }

  lemma TimeEntriesSome(c: Codec, times: seq<Stamp>, other: Object)
    requires |times| == 4
    ensures |TimeEntries(c, times, other, 4)| > 0
  {
    hide TimeText, RawText, OptionalText;
    var m := TimeEntries(c, times, other, 4);
    assert NTFS_FIELDS[3] + "_filetime" in m;
    assert |m.Keys| == |m|;
  }

  // ----- NTFS: attributes and the record

  function AttributeName(typeCode: nat): string {
    match typeCode
    case 0x10 => "$STANDARD_INFORMATION"
    case 0x20 => "$ATTRIBUTE_LIST"
    case 0x30 => "$FILE_NAME"
    case 0x40 => "$OBJECT_ID"
    case 0x50 => "$SECURITY_DESCRIPTOR"
    case 0x60 => "$VOLUME_NAME"
    case 0x70 => "$VOLUME_INFORMATION"
    case 0x80 => "$DATA"
    case 0x90 => "$INDEX_ROOT"
    case 0xA0 => "$INDEX_ALLOCATION"
    case 0xB0 => "$BITMAP"
    case 0xC0 => "$REPARSE_POINT"
    case 0xD0 => "$EA_INFORMATION"
    case 0xE0 => "$EA"
    case 0x100 => "$LOGGED_UTILITY_STREAM"
    case _ => "UNKNOWN"
  }

  function RunJson(run: DataRuns.Run): Json {
    Dict(map["cluster_count" := Number(run.count), "lcn" := OptionalNumber(run.lcn),
             "lcn_delta" := OptionalNumber(run.delta), "sparse" := Bool(run.delta.None?)])
  }

  /** An attribute's summary: everything but its parsed value. */
  function AttributeJson(w: Writer, a: MftAttributes.Attribute): Json {
    var common := map["type_code" := Text("0x" + w.hex8(a.typeCode)), "type" := Text(AttributeName(a.typeCode)),
                      "attribute_id" := Number(a.id), "name" := UnitsJson(w.codec, a.name),
                      "non_resident" := Bool(a.body.NonResident?), "flags" := Number(a.flags)];
    match a.body
    case Resident(length, _) =>
      var resident := common["resident_value_length" := Number(length)];
      Dict(if a.typeCode == 0x80 then resident["resident_data_length" := Number(length)] else resident)
    case NonResident(startVcn, lastVcn, allocatedSize, logicalSize, initializedSize, runs) =>
      Dict(common + map["start_vcn" := Number(startVcn), "last_vcn" := Number(lastVcn),
                        "allocated_size" := Number(allocatedSize), "logical_size" := Number(logicalSize),
                        "initialized_size" := Number(initializedSize),
                        "data_runs" := List(seq(|runs|, i requires 0 <= i < |runs| => RunJson(runs[i])))])
  }

  function AttributesJson(w: Writer, items: seq<MftAttributes.Attribute>): seq<Json> {
    seq(|items|, i requires 0 <= i < |items| => AttributeJson(w, items[i]))
  }

  function DataAttributes(items: seq<MftAttributes.Attribute>): seq<MftAttributes.Attribute> {
    if |items| == 0 then [] else (if items[0].typeCode == 0x80 then [items[0]] else []) + DataAttributes(items[1..])
  }

  function NameValues(c: Codec, vs: seq<MftAttributes.Value>): seq<Json> {
    seq(|vs|, i requires 0 <= i < |vs| => Dict(ValueJson(c, vs[i])))
  }

  /** The data of an MFT record. */
  function MftData(w: Writer, rec: MftRecord.FileRecord): Object {
    map["artifact_type" := Text("NTFS_MFT"), "record_number" := Number(rec.number),
        "sequence_number" := Number(rec.sequence), "hard_link_count" := Number(rec.hardLinks),
        "flags_raw" := Number(rec.flags), "allocated_in_use" := Bool(rec.flags % 2 == 1),
        "directory" := Bool(rec.flags / 2 % 2 == 1), "base_record_reference" := ReferenceJson(rec.baseRecord),
        "used_record_size" := Number(rec.usedSize), "allocated_record_size" := Number(rec.allocatedSize),
        "data_attributes" := List(AttributesJson(w, DataAttributes(rec.attributes))),
        "attributes" := List(AttributesJson(w, rec.attributes)), "source_record_offset" := Number(rec.offset)]
    + map["standard_information" := (if rec.standard.Some? then Dict(ValueJson(w.codec, rec.standard.value)) else Null),
          "file_names" := List(NameValues(w.codec, rec.fileNames))]
  }

  /** What the timeline reads of an MFT record. */
  predicate IsRecordOf(c: Codec, r: ArtifactRecord, rec: MftRecord.FileRecord) {
    && r.recordType == "NTFS_MFT_RECORD"
    && Get(r.data, "standard_information")
       == (if rec.standard.Some? then Dict(ValueJson(c, rec.standard.value)) else Null)
    && Get(r.data, "file_names") == List(NameValues(c, rec.fileNames))
  }

  lemma MftDataIsRecord(w: Writer, r: ArtifactRecord, rec: MftRecord.FileRecord)
    requires r.recordType == "NTFS_MFT_RECORD" && r.data == MftData(w, rec)
    ensures IsRecordOf(w.codec, r, rec)
  {
    hide ValueJson, NameValues, AttributesJson, DataAttributes, ReferenceJson;
    assert "standard_information"[0] != "file_names"[0];
  }

  // ----- Shell Link

  type Mask = m: nat | m > 0 witness 1

  const LINK_FLAGS: seq<(Mask, string)> := [
    (1, "HAS_LINK_TARGET_ID_LIST"),
    (2, "HAS_LINK_INFO"),
    (4, "HAS_NAME"),
    (8, "HAS_RELATIVE_PATH"),
    (16, "HAS_WORKING_DIR"),
    (32, "HAS_ARGUMENTS"),
    (64, "HAS_ICON_LOCATION"),
    (128, "IS_UNICODE"),
    (256, "FORCE_NO_LINK_INFO"),
    (512, "HAS_EXP_STRING"),
    (1024, "RUN_IN_SEPARATE_PROCESS"),
    (4096, "HAS_DARWIN_ID"),
    (8192, "RUN_AS_USER"),
    (16384, "HAS_EXP_ICON"),
    (32768, "NO_PIDL_ALIAS"),
    (131072, "RUN_WITH_SHIM_LAYER"),
    (262144, "FORCE_NO_LINK_TRACK"),
    (524288, "ENABLE_TARGET_METADATA"),
    (1048576, "DISABLE_LINK_PATH_TRACKING"),
    (2097152, "DISABLE_KNOWN_FOLDER_TRACKING"),
    (4194304, "DISABLE_KNOWN_FOLDER_ALIAS"),
    (8388608, "ALLOW_LINK_TO_LINK"),
    (16777216, "UNALIAS_ON_SAVE"),
    (33554432, "PREFER_ENVIRONMENT_PATH"),
    (67108864, "KEEP_LOCAL_ID_LIST_FOR_UNC_TARGET")]

  function FlagNames(flags: nat, n: nat): seq<Json>
    requires n <= |LINK_FLAGS|
  {
    if n == 0 then []
    else
      FlagNames(flags, n - 1)
      + if flags / LINK_FLAGS[n - 1].0 % 2 == 1 then [Text(LINK_FLAGS[n - 1].1)] else []
  }

  function ClassName(item: Lnk.ShellItem): Json {
    if item.classType.None? then Null
    else match item.classType.value / 16 % 8
      case 1 => Text("ROOT_FOLDER")
      case 2 => Text("VOLUME")
      case 3 => Text("FILE_ENTRY")
      case 4 => Text("NETWORK_LOCATION")
      case 6 => Text("URI")
      case _ => Null
  }

  function ItemJson(w: Writer, item: Lnk.ShellItem, index: nat): Json {
    Dict(map["index" := Number(index), "size" := Number(item.size),
             "class_type" := (if item.classType.Some? then Number(item.classType.value) else Null),
             "class_name" := ClassName(item), "bounded_header_hex" := Text(w.hexOf(item.header))])
  }

  function VolumeJson(w: Writer, v: Option<Lnk.Volume>): Json {
    if v.None? then Null
    else Dict(map["drive_type" := Number(v.value.driveType), "drive_serial_number" := Text(w.hex8(v.value.serial)),
                  "volume_label" := UnitsJson(w.codec, v.value.driveLabel)])
  }

  function NetworkJson(w: Writer, n: Option<Lnk.Network>): Json {
    if n.None? then Null
    else Dict(map["flags" := Number(n.value.flags), "network_share_name" := UnitsJson(w.codec, n.value.share),
                  "device_name" := UnitsJson(w.codec, n.value.device),
                  "network_provider_type" := Number(n.value.provider)])
  }

  function TrackerJson(w: Writer, t: Option<Lnk.Tracker>): Json {
    if t.None? || |t.value.droids| != 4 then Null
    else Dict(map["machine_id" := Text(w.codec.textOf(t.value.machine)),
                  "droid_volume_identifier" := Text(w.uuidOf(t.value.droids[0])),
                  "droid_file_identifier" := Text(w.uuidOf(t.value.droids[1])),
                  "birth_droid_volume_identifier" := Text(w.uuidOf(t.value.droids[2])),
                  "birth_droid_file_identifier" := Text(w.uuidOf(t.value.droids[3]))])
  }

  /** The optional strings under their names, and the parts of LinkInfo. */
  function LinkTexts(w: Writer, link: Lnk.Link): Object
    requires |link.strings| == 5
  {
    var info := if link.info.Some? then link.info.value else Lnk.LinkInfo(0, None, None, None, None);
    map["description" := UnitsJson(w.codec, link.strings[0]), "relative_path" := UnitsJson(w.codec, link.strings[1]),
        "working_directory" := UnitsJson(w.codec, link.strings[2]),
        "command_line_arguments" := UnitsJson(w.codec, link.strings[3]),
        "icon_location" := UnitsJson(w.codec, link.strings[4]), "volume_information" := VolumeJson(w, info.volume),
        "local_path" := UnitsJson(w.codec, info.localPath), "common_path_suffix" := UnitsJson(w.codec, info.suffix),
        "network_information" := NetworkJson(w, info.network)]
  }

  /** The data of a Shell Link record; the source name is that of the file, or the evidence identifier. */
  function LinkData(w: Writer, sourceName: Option<string>, sourceId: string, link: Lnk.Link): Object
    requires |link.strings| == 5 && |link.times| == 3
  {
    LinkStart(w, sourceName, sourceId, link) + LinkTexts(w, link) + TargetAndTimes(w, link)
  }

  function LinkStart(w: Writer, sourceName: Option<string>, sourceId: string, link: Lnk.Link): Object {
    map["artifact_type" := Text("LNK"), "source_identifier" := Text(sourceId),
        "source_lnk_filename" := OptionalText(sourceName), "link_flags" := List(FlagNames(link.flags, |LINK_FLAGS|)),
        "link_flags_raw" := Number(link.flags), "file_attributes" := Number(link.attributes),
        "target_file_size" := Number(link.fileSize), "icon_index" := Number(link.iconIndex),
        "show_command" := Number(link.showCommand),
        "target_id_list" := List(seq(|link.items|, i requires 0 <= i < |link.items| => ItemJson(w, link.items[i], i))),
        "tracker_information" := TrackerJson(w, link.tracker)]
  }

  /** The composed target and the three header times, with their raw values. */
  function TargetAndTimes(w: Writer, link: Lnk.Link): Object
    requires |link.times| == 3
  {
    map["target_path" := UnitsJson(w.codec, link.targetPath),
        "creation_time" := OptionalText(TimeText(w.codec, link.times[0])),
        "creation_time_filetime" := OptionalText(RawText(w.codec, link.times[0])),
        "access_time" := OptionalText(TimeText(w.codec, link.times[1])),
        "access_time_filetime" := OptionalText(RawText(w.codec, link.times[1])),
        "modification_time" := OptionalText(TimeText(w.codec, link.times[2])),
        "modification_time_filetime" := OptionalText(RawText(w.codec, link.times[2]))]
  }

  /** What the timeline reads of a Shell Link. */
  predicate IsLinkOf(c: Codec, r: ArtifactRecord, stamps: seq<Stamp>) {
    && r.recordType == "SHELL_LINK" && |stamps| == 3
    && forall i :: 0 <= i < 3 ==>
         && Get(r.data, LNK_FIELDS[i] + "_time") == OptionalText(TimeText(c, stamps[i]))
         && Get(r.data, LNK_FIELDS[i] + "_time_filetime") == OptionalText(RawText(c, stamps[i]))
  }

  /** The seven entry names at the end differ, by length or first letter. */
  lemma LinkNames()
    ensures "creation" + "_time" == "creation_time" && "creation" + "_time_filetime" == "creation_time_filetime"
    ensures "access" + "_time" == "access_time" && "access" + "_time_filetime" == "access_time_filetime"
    ensures "modification" + "_time" == "modification_time"
            && "modification" + "_time_filetime" == "modification_time_filetime"
    ensures |"creation_time"| == 13 && |"creation_time_filetime"| == 22 && |"access_time"| == 11
    ensures |"access_time_filetime"| == 20 && |"modification_time"| == 17 && |"modification_time_filetime"| == 26
    ensures "target_path"[0] == 't' && "access_time"[0] == 'a' && |"target_path"| == 11
  {
  }

  lemma LinkDataIsLink(w: Writer, sourceName: Option<string>, sourceId: string, r: ArtifactRecord, link: Lnk.Link)
    requires |link.strings| == 5 && |link.times| == 3
    requires r.recordType == "SHELL_LINK" && r.data == LinkData(w, sourceName, sourceId, link)
    ensures IsLinkOf(w.codec, r, link.times)
    ensures Get(r.data, "target_path") == UnitsJson(w.codec, link.targetPath)
  {
    TargetAndTimesHold(w, link);
    hide FlagNames, ItemJson, TrackerJson, LinkTexts, UnitsJson, TimeText, RawText, OptionalText, TargetAndTimes;
    var last := TargetAndTimes(w, link);
    var first := LinkStart(w, sourceName, sourceId, link);
    assert r.data == first + LinkTexts(w, link) + last;
    hide LinkStart;
    forall i | 0 <= i < 3
      ensures Get(r.data, LNK_FIELDS[i] + "_time") == OptionalText(TimeText(w.codec, link.times[i]))
      ensures Get(r.data, LNK_FIELDS[i] + "_time_filetime") == OptionalText(RawText(w.codec, link.times[i]))
    {
      assert LNK_FIELDS[i] + "_time" in last && LNK_FIELDS[i] + "_time_filetime" in last;
    }
  }

  lemma TargetAndTimesHold(w: Writer, link: Lnk.Link)
    requires |link.times| == 3
    ensures var last := TargetAndTimes(w, link);
      && "target_path" in last && last["target_path"] == UnitsJson(w.codec, link.targetPath)
      && forall i :: 0 <= i < 3 ==>
           && LNK_FIELDS[i] + "_time" in last && LNK_FIELDS[i] + "_time_filetime" in last
           && last[LNK_FIELDS[i] + "_time"] == OptionalText(TimeText(w.codec, link.times[i]))
           && last[LNK_FIELDS[i] + "_time_filetime"] == OptionalText(RawText(w.codec, link.times[i]))
  {
    hide UnitsJson, TimeText, RawText, OptionalText;
    LinkNames();
    assert LNK_FIELDS[0] == "creation" && LNK_FIELDS[1] == "access" && LNK_FIELDS[2] == "modification";
  }

  // ----- Prefetch

  function TimesJson(c: Codec, stamps: seq<Stamp>): Json {
    List(seq(|stamps|, i requires 0 <= i < |stamps| => OptionalText(TimeText(c, stamps[i]))))
  }

  function RawsJson(c: Codec, stamps: seq<Stamp>): Json {
    List(seq(|stamps|, i requires 0 <= i < |stamps| => OptionalText(RawText(c, stamps[i]))))
  }

  function PrefetchVolumeJson(w: Writer, v: Prefetch.Volume): Json {
    Dict(map["device_path" := Text(w.codec.textOf(v.path)),
             "creation_time" := OptionalText(TimeText(w.codec, v.created)),
             "creation_time_filetime" := OptionalText(RawText(w.codec, v.created)),
             "serial_number" := Text(w.hex8(v.serial))])
  }

  function VersionNumber(v: Prefetch.Version): int {
    match v case V17 => 17 case V23 => 23 case V26 => 26 case V30 => 30 case V31 => 31
  }

  /** The data of a Prefetch record; `header` holds the entries read from its header and path sections. */
  function PrefetchData(w: Writer, header: Object, v: Prefetch.Version, e: Prefetch.Execution,
                        volumes: seq<Prefetch.Volume>): Object {
    var observed := Prefetch.Observed(e.stamps);
    header
    + map["artifact_type" := Text("PREFETCH"), "prefetch_version" := Number(VersionNumber(v)),
          "run_count" := OptionalNumber(e.runCount),
          "volume_information" := List(seq(|volumes|,
                                           i requires 0 <= i < |volumes| => PrefetchVolumeJson(w, volumes[i])))]
    + map["execution_times" := TimesJson(w.codec, observed),
          "execution_time_filetime_values" := RawsJson(w.codec, observed)]
  }

  /** What the timeline reads of a Prefetch record. */
  predicate IsPrefetchOf(c: Codec, r: ArtifactRecord, stamps: seq<Stamp>) {
    && r.recordType == "PREFETCH_FILE"
    && Get(r.data, "execution_times") == TimesJson(c, stamps)
    && Get(r.data, "execution_time_filetime_values") == RawsJson(c, stamps)
  }

  lemma PrefetchDataIsPrefetch(w: Writer, header: Object, v: Prefetch.Version, e: Prefetch.Execution,
                               volumes: seq<Prefetch.Volume>, r: ArtifactRecord)
    requires r.recordType == "PREFETCH_FILE" && r.data == PrefetchData(w, header, v, e, volumes)
    ensures IsPrefetchOf(w.codec, r, Prefetch.Observed(e.stamps))
  {
    hide TimesJson, RawsJson, PrefetchVolumeJson;
    assert |"execution_times"| != |"execution_time_filetime_values"|;
  }
}
