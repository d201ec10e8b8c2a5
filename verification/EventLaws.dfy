/** The timeline events of a record, entry by entry as the record's dictionary has them. */
module EventLaws {
  import opened Wrappers
  import opened TimelineNormalizer
  import Ordering
  import CorrelationRules

  // ----- one event

  function TextOf(j: Json): Option<string> {
    if j.Text? then Some(j.s) else None
  }

  /** An event for a time entry and its raw form, at least one of which is text. */
  predicate Dates(c: Codec, r: ArtifactRecord, e: TimelineEvent, entry: Json, raw: Json) {
    && (entry.Text? || raw.Text?) && e.raw == TextOf(raw)
    && e.time == (if entry.Text? then c.parseIso(entry.s) else None)
    && e.sourceId == r.sourceId && e.provenance == r.provenance
  }

  lemma SlotDates(c: Codec, r: ArtifactRecord, t: EventType, entry: Json, raw: Json, source: string, ordinal: nat,
                  m: Object, e: TimelineEvent)
    ensures SlotEvent(c, r, t, StringOf(entry), StringOf(raw), source, ordinal, m) == Some(e) <==>
      && Dates(c, r, e, entry, raw) && e.eventType == t && e.timeSource == source && e.ordinal == ordinal
      && e.metadata == m
  {
  }

  lemma {:induction false} CollectedIff(n: nat, slot: nat -> Option<TimelineEvent>, e: TimelineEvent)
    ensures e in Collect(n, slot) <==> exists i: nat :: i < n && slot(i) == Some(e)
  {
    if n > 0 {
      CollectedIff(n - 1, slot, e);
    }
  }

  // ----- Shell Link

  predicate LinkMetadata(r: ArtifactRecord, m: Object) {
    m == map["target_path" := Get(r.data, "target_path"), "relative_path" := Get(r.data, "relative_path"),
             "source_lnk_filename" := Get(r.data, "source_lnk_filename")]
  }

  predicate CreationOf(c: Codec, r: ArtifactRecord, e: TimelineEvent) {
    && Dates(c, r, e, Get(r.data, "creation_time"), Get(r.data, "creation_time_filetime"))
    && e.eventType == CorrelationRules.LnkCreation && e.ordinal == 0 && e.timeSource == "lnk.header.creation_time"
  }

  predicate AccessOf(c: Codec, r: ArtifactRecord, e: TimelineEvent) {
    && Dates(c, r, e, Get(r.data, "access_time"), Get(r.data, "access_time_filetime"))
    && e.eventType == CorrelationRules.LnkAccess && e.ordinal == 1 && e.timeSource == "lnk.header.access_time"
  }

  predicate ModificationOf(c: Codec, r: ArtifactRecord, e: TimelineEvent) {
    && Dates(c, r, e, Get(r.data, "modification_time"), Get(r.data, "modification_time_filetime"))
    && e.eventType == CorrelationRules.LnkModification && e.ordinal == 2
    && e.timeSource == "lnk.header.modification_time"
  }

  lemma LinkNames()
    ensures LNK_FIELDS[0] + "_time" == "creation_time" && LNK_FIELDS[0] + "_time_filetime" == "creation_time_filetime"
    ensures LNK_FIELDS[1] + "_time" == "access_time" && LNK_FIELDS[1] + "_time_filetime" == "access_time_filetime"
    ensures LNK_FIELDS[2] + "_time" == "modification_time"
    ensures LNK_FIELDS[2] + "_time_filetime" == "modification_time_filetime"
    ensures "lnk.header." + LNK_FIELDS[0] + "_time" == "lnk.header.creation_time"
    ensures "lnk.header." + LNK_FIELDS[1] + "_time" == "lnk.header.access_time"
    ensures "lnk.header." + LNK_FIELDS[2] + "_time" == "lnk.header.modification_time"
  {
  }

  /** The events of a Shell Link record: creation, access and modification, each if it is dated at all. */
  lemma LinkEventsIff(c: Codec, r: ArtifactRecord, e: TimelineEvent)
    ensures e in Normalize(c, ShellLink, r).events <==>
      && r.recordType == "SHELL_LINK" && LinkMetadata(r, e.metadata)
      && (CreationOf(c, r, e) || AccessOf(c, r, e) || ModificationOf(c, r, e))
  {
    hide Collect, SlotEvent, Dates, Get, StringOf;
    CollectedIff(3, LnkSlot(c, r), e);
    LinkNames();
    LinkSlotIff(c, r, 0, e);
    LinkSlotIff(c, r, 1, e);
    LinkSlotIff(c, r, 2, e);
    assert LnkSlot(c, r)(0) == LnkEvent(c, r, 0) && LnkSlot(c, r)(1) == LnkEvent(c, r, 1);
    assert LnkSlot(c, r)(2) == LnkEvent(c, r, 2);
    hide LnkEvent, LnkMetadata;
  }

  lemma LinkSlotIff(c: Codec, r: ArtifactRecord, i: nat, e: TimelineEvent)
    requires i < 3
    ensures LnkEvent(c, r, i) == Some(e) <==>
      && Dates(c, r, e, Get(r.data, LNK_FIELDS[i] + "_time"), Get(r.data, LNK_FIELDS[i] + "_time_filetime"))
      && e.eventType == LnkType(i) && e.ordinal == i && e.timeSource == "lnk.header." + LNK_FIELDS[i] + "_time"
      && LinkMetadata(r, e.metadata)
  {
    SlotDates(c, r, LnkType(i), Get(r.data, LNK_FIELDS[i] + "_time"), Get(r.data, LNK_FIELDS[i] + "_time_filetime"),
              "lnk.header." + LNK_FIELDS[i] + "_time", i, LnkMetadata(r.data), e);
    hide SlotEvent, Dates, Get, StringOf;
  }

  // ----- Prefetch

  function ItemAt(j: Json, i: nat): Json {
    if j.List? && i < |j.items| then j.items[i] else Null
  }

  predicate HasItem(j: Json, i: nat) {
    j.List? && i < |j.items|
  }

  predicate ExecutionOf(c: Codec, r: ArtifactRecord, e: TimelineEvent) {
    var times, raws := Get(r.data, "execution_times"), Get(r.data, "execution_time_filetime_values");
    && (HasItem(times, e.ordinal) || HasItem(raws, e.ordinal))
    && Dates(c, r, e, ItemAt(times, e.ordinal), ItemAt(raws, e.ordinal))
    && e.eventType == CorrelationRules.PrefetchExecution
    && e.timeSource == "prefetch.execution_time[" + c.decimal(e.ordinal) + "]"
    && e.metadata == map["application_name" := Get(r.data, "application_name"),
                         "executable_hash" := Get(r.data, "executable_hash"),
                         "prefetch_filename" := Get(r.data, "source_prefetch_filename"),
                         "run_count" := Get(r.data, "run_count")]
  }

  lemma PrefetchSlotIff(c: Codec, r: ArtifactRecord, i: nat, e: TimelineEvent)
    ensures var times, raws := Get(r.data, "execution_times"), Get(r.data, "execution_time_filetime_values");
      i < Max(|ListOf(times)|, |ListOf(raws)|) && PrefetchSlot(c, r)(i) == Some(e) <==>
        e.ordinal == i && ExecutionOf(c, r, e)
  {
    var times, raws := Get(r.data, "execution_times"), Get(r.data, "execution_time_filetime_values");
    assert TextAt(ListOf(times), i) == StringOf(ItemAt(times, i));
    assert TextAt(ListOf(raws), i) == StringOf(ItemAt(raws, i));
    assert PrefetchSlot(c, r)(i) == PrefetchEvent(c, r, i);
    SlotDates(c, r, CorrelationRules.PrefetchExecution, ItemAt(times, i), ItemAt(raws, i),
              "prefetch.execution_time[" + c.decimal(i) + "]", i, PrefetchMetadata(r.data), e);
    hide SlotEvent, Dates, Get, StringOf, TextAt;
  }

  /** The events of a Prefetch record: one for each place of the two lists that is dated at all. */
  lemma PrefetchEventsIff(c: Codec, r: ArtifactRecord, e: TimelineEvent)
    ensures e in Normalize(c, Prefetch, r).events <==> r.recordType == "PREFETCH_FILE" && ExecutionOf(c, r, e)
  {
    var times, raws := Get(r.data, "execution_times"), Get(r.data, "execution_time_filetime_values");
    var n := Max(|ListOf(times)|, |ListOf(raws)|);
    CollectedIff(n, PrefetchSlot(c, r), e);
    PrefetchSlotIff(c, r, e.ordinal, e);
    forall i: nat
      ensures i < n && PrefetchSlot(c, r)(i) == Some(e) <==> e.ordinal == i && ExecutionOf(c, r, e)
    {
      PrefetchSlotIff(c, r, i, e);
    }
    hide Collect, PrefetchSlot, ExecutionOf, Get;
  }

  // ----- NTFS

  predicate NtfsTells(r: ArtifactRecord, e: TimelineEvent, filename: Option<string>, parent: Json, family: string,
                      field: string) {
    e.metadata == map["record_number" := Get(r.data, "record_number"), "filename" := OptionalText(filename),
                      "parent_directory_reference" := parent,
                      "source_record_offset" := Get(r.data, "source_record_offset"),
                      "timestamp_family" := Text(family), "timestamp_field" := Text(field)]
  }

  /** One of the four times of an attribute's dictionary, under this name and at this place. */
  predicate FieldOf(c: Codec, r: ArtifactRecord, e: TimelineEvent, times: Object, field: string, i: nat, si: bool) {
    && Dates(c, r, e, Get(times, field), Get(times, field + "_filetime"))
    && e.eventType == (if si then CorrelationRules.NtfsSi(i) else CorrelationRules.NtfsFn(i))
    && e.timeSource == (if si then "$STANDARD_INFORMATION." else "$FILE_NAME.") + field
  }

  predicate AnyFieldOf(c: Codec, r: ArtifactRecord, e: TimelineEvent, times: Object, si: bool, filename: Option<string>,
                       parent: Json) {
    var family := if si then "$STANDARD_INFORMATION" else "$FILE_NAME";
    || (FieldOf(c, r, e, times, "creation_time", 0, si) && NtfsTells(r, e, filename, parent, family, "creation_time"))
    || (FieldOf(c, r, e, times, "modification_time", 1, si)
        && NtfsTells(r, e, filename, parent, family, "modification_time"))
    || (FieldOf(c, r, e, times, "mft_change_time", 2, si)
        && NtfsTells(r, e, filename, parent, family, "mft_change_time"))
    || (FieldOf(c, r, e, times, "access_time", 3, si) && NtfsTells(r, e, filename, parent, family, "access_time"))
  }

  lemma FamilyNames(f: Family)
    ensures FamilyText(f) + "." == if f == StandardFamily then "$STANDARD_INFORMATION." else "$FILE_NAME."
    ensures NTFS_FIELDS == ["creation_time", "modification_time", "mft_change_time", "access_time"]
  {
  }

  lemma FamilySlotIff(c: Codec, r: ArtifactRecord, times: Object, f: Family, filename: Option<string>, parent: Json,
                      ordinal: nat, i: nat, e: TimelineEvent)
    requires i < 4
    ensures FamilyEvent(c, r, times, f, filename, parent, ordinal, i) == Some(e) <==>
      && FieldOf(c, r, e, times, NTFS_FIELDS[i], i, f == StandardFamily) && e.ordinal == ordinal
      && NtfsTells(r, e, filename, parent, FamilyText(f), NTFS_FIELDS[i])
  {
    FamilyNames(f);
    SlotDates(c, r, NtfsType(f, i), Get(times, NTFS_FIELDS[i]), Get(times, NTFS_FIELDS[i] + "_filetime"),
              FamilyText(f) + "." + NTFS_FIELDS[i], ordinal, NtfsMetadata(r.data, f, filename, parent, i), e);
    hide SlotEvent, Dates, Get, StringOf;
  }

  /** Field i of the family, as the event tells it. */
  predicate FieldTold(c: Codec, r: ArtifactRecord, e: TimelineEvent, times: Object, f: Family, filename: Option<string>,
                      parent: Json, i: nat) {
    && i < 4 && FieldOf(c, r, e, times, NTFS_FIELDS[i], i, f == StandardFamily)
    && NtfsTells(r, e, filename, parent, FamilyText(f), NTFS_FIELDS[i])
  }

  lemma AnyFieldIff(c: Codec, r: ArtifactRecord, e: TimelineEvent, times: Object, f: Family, filename: Option<string>,
                    parent: Json)
    ensures AnyFieldOf(c, r, e, times, f == StandardFamily, filename, parent) <==>
      || FieldTold(c, r, e, times, f, filename, parent, 0) || FieldTold(c, r, e, times, f, filename, parent, 1)
      || FieldTold(c, r, e, times, f, filename, parent, 2) || FieldTold(c, r, e, times, f, filename, parent, 3)
  {
    FamilyNames(f);
    hide FieldOf, NtfsTells;
  }

  lemma FamilyIff(c: Codec, r: ArtifactRecord, times: Object, f: Family, filename: Option<string>, parent: Json,
                  ordinal: nat, e: TimelineEvent)
    ensures e in FamilyEvents(c, r, times, f, filename, parent, ordinal) <==>
      e.ordinal == ordinal && AnyFieldOf(c, r, e, times, f == StandardFamily, filename, parent)
  {
    AnyFieldIff(c, r, e, times, f, filename, parent);
    hide Collect, FieldOf, NtfsTells, FamilyEvent, Get, AnyFieldOf;
    var slot := FamilySlot(c, r, times, f, filename, parent, ordinal);
    CollectedIff(4, slot, e);
    forall i: nat | i < 4
      ensures slot(i) == Some(e) <==> e.ordinal == ordinal && FieldTold(c, r, e, times, f, filename, parent, i)
    {
      FamilySlotIff(c, r, times, f, filename, parent, ordinal, i, e);
      assert slot(i) == FamilyEvent(c, r, times, f, filename, parent, ordinal, i);
    }
    hide FieldTold, FamilySlot;
    assert slot(0) == Some(e) || slot(1) == Some(e) || slot(2) == Some(e) || slot(3) == Some(e) <==>
      exists i: nat :: i < 4 && slot(i) == Some(e);
  }

  /** The dictionaries in a list, in order. */
  function Names(r: ArtifactRecord): seq<Json> {
    DictList(Get(r.data, "file_names"))
  }

  lemma {:induction false} NameEventsIff(c: Codec, r: ArtifactRecord, names: seq<Json>, e: TimelineEvent)
    ensures e in AllNameEvents(c, r, names) <==>
      && e.ordinal < |names|
      && var name := DictOf(names[e.ordinal]);
         AnyFieldOf(c, r, e, name, false, TextOf(Get(name, "filename")), Get(name, "parent_directory_reference"))
  {
    hide FamilyEvents, AnyFieldOf, Get, DictOf;
    if |names| > 0 {
      var n := |names| - 1;
      NameEventsIff(c, r, names[..n], e);
      var name := DictOf(names[n]);
      FamilyIff(c, r, name, FileNameFamily, StringOf(Get(name, "filename")), Get(name, "parent_directory_reference"), n,
                e);
    }
  }

  /** The name the standard information goes under: that of the first file name. */
  function FirstName(r: ArtifactRecord): Option<string> {
    if |Names(r)| > 0 then TextOf(Get(DictOf(Names(r)[0]), "filename")) else None
  }

  /** The events of an MFT record: four of the standard information, and four of each file name. */
  lemma NtfsEventsIff(c: Codec, r: ArtifactRecord, e: TimelineEvent)
    ensures e in Normalize(c, NtfsMft, r).events <==>
      && r.recordType == "NTFS_MFT_RECORD"
      && (|| (e.ordinal == 0 && Get(r.data, "standard_information").Dict?
              && AnyFieldOf(c, r, e, Get(r.data, "standard_information").entries, true, FirstName(r), Null))
          || (e.ordinal < |Names(r)|
              && var name := DictOf(Names(r)[e.ordinal]);
                 AnyFieldOf(c, r, e, name, false, TextOf(Get(name, "filename")),
                            Get(name, "parent_directory_reference"))))
  {
    hide FamilyEvents, AnyFieldOf, AllNameEvents, DictList;
    var standard := DictOf(Get(r.data, "standard_information"));
    FamilyIff(c, r, standard, StandardFamily, FirstFilename(r.data), Null, 0, e);
    NameEventsIff(c, r, Names(r), e);
    NoTimesNoEvents(c, r, e);
    assert FirstFilename(r.data) == FirstName(r);
  }

  lemma NoTimesNoEvents(c: Codec, r: ArtifactRecord, e: TimelineEvent)
    ensures !AnyFieldOf(c, r, e, map[], true, FirstName(r), Null)
    ensures forall d: Object :: |d| == 0 ==> d == map[]
  {
    hide NtfsTells, FirstName;
  }

  // ----- EVTX

  /** A list item that names the new process. */
  predicate NamesProcess(item: Json) {
    item.Dict? && Get(item.entries, "name") == Text("NewProcessName")
  }

  /** Item k is the first of the list that names the new process, and has this value. */
  predicate FirstNaming(items: seq<Json>, k: nat, value: Json) {
    && k < |items| && NamesProcess(items[k]) && (forall j :: 0 <= j < k ==> !NamesProcess(items[j]))
    && value == Get(items[k].entries, "value")
  }

  /** The identity entries for this value: none unless it is text with a file name in it. */
  function EntriesFor(c: Codec, value: Json): Object {
    if !value.Text? || c.strip(value.s) == "" then map[]
    else
      var path := CorrelationRules.Backslashed(c.strip(value.s));
      if c.windowsName(path) == "" then map[]
      else map["process_path" := Text(path), "process_name" := Text(c.windowsName(path)),
               "process_identity_source" :=
                 Dict(map["field" := Text("NewProcessName"), "value" := value, "event_id" := Number(4688)])]
  }

  lemma {:induction false} IdentityIff(c: Codec, items: seq<Json>)
    requires AllDicts(items)
    ensures (forall k :: 0 <= k < |items| ==> !NamesProcess(items[k])) ==> IdentityFrom(c, items) == map[]
    ensures forall k: nat, value :: FirstNaming(items, k, value) ==> IdentityFrom(c, items) == EntriesFor(c, value)
  {
    hide EntriesFor, Get;
    if |items| > 0 {
      IdentityIff(c, items[1..]);
      IdentityEntries(c, Get(items[0].entries, "value"));
      forall k: nat, value | FirstNaming(items, k, value) && k > 0
        ensures FirstNaming(items[1..], k - 1, value)
      {
        assert forall j :: 0 <= j < k - 1 ==> items[1..][j] == items[j + 1];
      }
    }
  }

  lemma IdentityEntries(c: Codec, value: Json)
    ensures IdentityOf(c, StringOf(value)) == EntriesFor(c, value)
  {
  }

  /** Only Security records of event 4688 have an identity. */
  predicate IsCreation(c: Codec, data: Object) {
    && Get(data, "event_id") == Number(4688) && Get(data, "channel").Text?
    && c.casefold(Get(data, "channel").s) == "security"
  }

  predicate EvtxTells(c: Codec, r: ArtifactRecord, e: TimelineEvent, identity: Object) {
    && Get(r.data, "event_timestamp").Text? && e.raw == Some(Get(r.data, "event_timestamp").s)
    && e.time == (if r.time.Some? then r.time else c.parseIso(Get(r.data, "event_timestamp").s))
    && e.eventType == CorrelationRules.EvtxEvent && e.timeSource == "evtx.system.time_created" && e.ordinal == 0
    && e.sourceId == r.sourceId && e.provenance == r.provenance
    && e.metadata == map["event_record_id" := OptionalText(r.sourceId), "provider" := Get(r.data, "provider"),
                         "event_id" := Get(r.data, "event_id"), "channel" := Get(r.data, "channel"),
                         "computer" := Get(r.data, "computer"), "level" := Get(r.data, "level")] + identity
  }

  /** The one event of an EVTX record, if it is dated; only a process creation adds an identity. */
  lemma EvtxEventsIff(c: Codec, r: ArtifactRecord, e: TimelineEvent)
    ensures e in Normalize(c, Evtx, r).events <==>
      && r.recordType == "EVTX_EVENT"
      && EvtxTells(c, r, e, ProcessIdentity(c, r.data))
    ensures !IsCreation(c, r.data) ==> ProcessIdentity(c, r.data) == map[]
  {
    hide IdentityFrom;
    if r.recordType == "EVTX_EVENT" && Get(r.data, "event_timestamp").Text? {
      hide ProcessIdentity, DictList;
    }
  }

  /** Where the identity comes from: the first dictionary of the event data that names the new process. */
  lemma CreationIdentity(c: Codec, data: Object)
    requires IsCreation(c, data)
    ensures var items := DictList(Get(data, "event_data"));
      && ((forall k :: 0 <= k < |items| ==> !NamesProcess(items[k])) ==> ProcessIdentity(c, data) == map[])
      && forall k: nat, value :: FirstNaming(items, k, value) ==> ProcessIdentity(c, data) == EntriesFor(c, value)
  {
    hide IdentityFrom, EntriesFor;
    var items := DictList(Get(data, "event_data"));
    DictsOnly(ListOf(Get(data, "event_data")));
    IdentityIff(c, items);
  }

  predicate AllDicts(items: seq<Json>) {
    forall i :: 0 <= i < |items| ==> items[i].Dict?
  }

  lemma {:induction false} DictsOnly(items: seq<Json>)
    ensures AllDicts(Ordering.Filter(items, (item: Json) => item.Dict?))
  {
    if |items| > 0 {
      DictsOnly(items[..|items| - 1]);
    }
  }

  // ----- Registry

  /** The one event of a Registry key: its last write. */
  lemma RegistryEventsIff(c: Codec, r: ArtifactRecord, e: TimelineEvent)
    ensures e in Normalize(c, Registry, r).events <==>
      && r.recordType == "REGISTRY_KEY" && Get(r.data, "key_last_write_time").Text?
      && e.raw == Some(Get(r.data, "key_last_write_time").s)
      && e.time == (if r.time.Some? then r.time else c.parseIso(Get(r.data, "key_last_write_time").s))
      && e.eventType == CorrelationRules.RegistryKeyLastWrite && e.timeSource == "registry.key_last_write"
      && e.ordinal == 0 && e.sourceId == r.sourceId && e.provenance == r.provenance
      && e.metadata == map["hive" := Get(r.data, "hive_type"), "key_path" := Get(r.data, "key_path")]
  {
  }

  // ----- warnings

  /** A record is warned of exactly when its type dates it and nothing does, or slot by slot for Prefetch. */
  lemma WarningsIff(c: Codec, t: ArtifactType, r: ArtifactRecord)
    ensures var n := Normalize(c, t, r);
      && (NoTimestamp in n.warnings <==>
            || (t == Evtx && r.recordType == "EVTX_EVENT" && !Get(r.data, "event_timestamp").Text?)
            || (t == Registry && r.recordType == "REGISTRY_KEY" && !Get(r.data, "key_last_write_time").Text?)
            || (t == Prefetch && r.recordType == "PREFETCH_FILE" && !HasItem(Get(r.data, "execution_times"), 0)
                && !HasItem(Get(r.data, "execution_time_filetime_values"), 0)))
      && forall i: nat :: EmptySlot(i) in n.warnings <==> t == Prefetch && SlotIsEmpty(r, i)
  {
    hide NormalizeEvtx, NormalizeRegistry, NormalizePrefetch, NormalizeLnk, NormalizeNtfs, SlotIsEmpty, Get;
    match t
    case Evtx => EvtxWarnings(c, r);
    case Registry => RegistryWarnings(c, r);
    case Prefetch => PrefetchWarnings(c, r);
    case ShellLink => QuietTypes(c, r);
    case NtfsMft => QuietTypes(c, r);
    case Unsupported =>
  }

  predicate SlotIsEmpty(r: ArtifactRecord, i: nat) {
    var times, raws := Get(r.data, "execution_times"), Get(r.data, "execution_time_filetime_values");
    && r.recordType == "PREFETCH_FILE" && (HasItem(times, i) || HasItem(raws, i))
    && !ItemAt(times, i).Text? && !ItemAt(raws, i).Text?
  }

  lemma EvtxWarnings(c: Codec, r: ArtifactRecord)
    ensures NormalizeEvtx(c, r).warnings
         == if r.recordType == "EVTX_EVENT" && !Get(r.data, "event_timestamp").Text? then [NoTimestamp] else []
  {
    hide ProcessIdentity;
  }

  lemma RegistryWarnings(c: Codec, r: ArtifactRecord)
    ensures NormalizeRegistry(c, r).warnings
         == if r.recordType == "REGISTRY_KEY" && !Get(r.data, "key_last_write_time").Text? then [NoTimestamp] else []
  {
  }

  lemma QuietTypes(c: Codec, r: ArtifactRecord)
    ensures NormalizeLnk(c, r).warnings == [] && NormalizeNtfs(c, r).warnings == []
  {
    hide Collect, StandardEvents, AllNameEvents;
  }

  lemma {:induction false} EmptySlotsIff(n: nat, slot: nat -> Option<TimelineEvent>)
    ensures forall i: nat :: EmptySlot(i) in EmptySlots(n, slot) <==> i < n && slot(i).None?
    ensures NoTimestamp !in EmptySlots(n, slot)
  {
    if n > 0 {
      EmptySlotsIff(n - 1, slot);
    }
  }

  lemma PrefetchWarnings(c: Codec, r: ArtifactRecord)
    ensures var ws := NormalizePrefetch(c, r).warnings;
      && (NoTimestamp in ws <==>
            && r.recordType == "PREFETCH_FILE" && !HasItem(Get(r.data, "execution_times"), 0)
            && !HasItem(Get(r.data, "execution_time_filetime_values"), 0))
      && forall i: nat :: EmptySlot(i) in ws <==> SlotIsEmpty(r, i)
  {
    hide PrefetchMetadata, Collect;
    var times, raws := Get(r.data, "execution_times"), Get(r.data, "execution_time_filetime_values");
    var n := Max(|ListOf(times)|, |ListOf(raws)|);
    EmptySlotsIff(n, PrefetchSlot(c, r));
    hide EmptySlots;
    if r.recordType == "PREFETCH_FILE" {
      forall i: nat
        ensures i < n && PrefetchSlot(c, r)(i).None? <==> SlotIsEmpty(r, i)
      {
        assert PrefetchSlot(c, r)(i) == PrefetchEvent(c, r, i);
        assert TextAt(ListOf(times), i) == StringOf(ItemAt(times, i));
        assert TextAt(ListOf(raws), i) == StringOf(ItemAt(raws, i));
      }
    }
  }
}
