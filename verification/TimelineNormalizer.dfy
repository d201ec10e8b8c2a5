/** From one parser record to its timeline events. */
module TimelineNormalizer {
  import opened Wrappers
  import opened Ordering
  import CorrelationRules

  type EventType = CorrelationRules.EventType

  /** JSON as the database stores it. */
  datatype Json =
    | Null
    | Bool(b: bool)
    | Number(n: int)
    | Text(s: string)
    | List(items: seq<Json>)
    | Dict(entries: Object)

  type Object = map<string, Json>

  function Get(d: Object, key: string): Json {
    if key in d then d[key] else Null
  }

  function StringOf(j: Json): Option<string> {
    if j.Text? then Some(j.s) else None
  }

  function ListOf(j: Json): seq<Json> {
    if j.List? then j.items else []
  }

  function DictOf(j: Json): Object {
    if j.Dict? then j.entries else map[]
  }

  /** The dictionaries of a list; other items are passed over. */
  function DictList(j: Json): seq<Json> {
    Filter(ListOf(j), (item: Json) => item.Dict?)
  }

  function OptionalText(s: Option<string>): Json {
    if s.Some? then Text(s.value) else Null
  }

  /** Text conversions of the host: ISO timestamps with a zone (in microseconds), decimals, UTF-16. */
  datatype Codec = Codec(
    parseIso: string -> Option<int>, formatIso: int -> string, decimal: nat -> string, textOf: seq<int> -> string,
    casefold: string -> string, strip: string -> string, windowsName: string -> string)

  function ParseTime(c: Codec, text: Option<string>): Option<int> {
    if text.Some? then c.parseIso(text.value) else None
  }

  datatype ArtifactType = Evtx | Registry | Prefetch | ShellLink | NtfsMft | Unsupported

  datatype ArtifactRecord = ArtifactRecord(
    id: string, artifactId: string, recordType: string, sourceId: Option<string>, time: Option<int>,
    data: Object, provenance: Object)

  datatype TimelineEvent = TimelineEvent(
    eventType: EventType, time: Option<int>, raw: Option<string>, timeSource: string, ordinal: nat,
    sourceId: Option<string>, metadata: Object, provenance: Object)

  datatype Warning = NoTimestamp | EmptySlot(index: nat)

  datatype Normalized = Normalized(events: seq<TimelineEvent>, warnings: seq<Warning>)

  const NOTHING: Normalized := Normalized([], [])

  // ----- slots that may hold an event

  /** The events of slots 0..n-1, skipping empty ones. */
  function Collect(n: nat, slot: nat -> Option<TimelineEvent>): seq<TimelineEvent> {
    if n == 0 then [] else Collect(n - 1, slot) + OneOrNone(slot(n - 1))
  }

  function OneOrNone(e: Option<TimelineEvent>): seq<TimelineEvent> {
    if e.Some? then [e.value] else []
  }

  /** An event exists when either form of its timestamp does. */
  function SlotEvent(c: Codec, r: ArtifactRecord, t: EventType, text: Option<string>, raw: Option<string>,
                     timeSource: string, ordinal: nat, metadata: Object): Option<TimelineEvent> {
    if text.None? && raw.None? then None
    else Some(TimelineEvent(t, ParseTime(c, text), raw, timeSource, ordinal, r.sourceId, metadata, r.provenance))
  }

  // ----- EVTX and Registry

  const NEW_PROCESS_NAME := "NewProcessName"

  /** extract_evtx_process_identity: Security 4688 only, from the first NewProcessName entry. */
  function ProcessIdentity(c: Codec, data: Object): Object {
    var channel := StringOf(Get(data, "channel"));
    if Get(data, "event_id") != Number(4688) || channel.None? || c.casefold(channel.value) != "security" then map[]
    else IdentityFrom(c, DictList(Get(data, "event_data")))
  }

  function IdentityFrom(c: Codec, items: seq<Json>): Object {
    if |items| == 0 then map[]
    else if Get(DictOf(items[0]), "name") != Text(NEW_PROCESS_NAME) then IdentityFrom(c, items[1..])
    else IdentityOf(c, StringOf(Get(DictOf(items[0]), "value")))
  }

  function IdentityOf(c: Codec, value: Option<string>): Object {
    if value.None? || c.strip(value.value) == "" then map[]
    else
      var path := CorrelationRules.Backslashed(c.strip(value.value));
      if c.windowsName(path) == "" then map[]
      else map["process_path" := Text(path), "process_name" := Text(c.windowsName(path)),
               "process_identity_source" := Dict(map["field" := Text(NEW_PROCESS_NAME), "value" := Text(value.value),
                                                     "event_id" := Number(4688)])]
  }

  function FirstOf(a: Option<int>, b: Option<int>): Option<int> {
    if a.Some? then a else b
  }

  function NormalizeEvtx(c: Codec, r: ArtifactRecord): Normalized {
    var raw := StringOf(Get(r.data, "event_timestamp"));
    if r.recordType != "EVTX_EVENT" then NOTHING
    else if raw.None? then Normalized([], [NoTimestamp])
    else
      var metadata := map["event_record_id" := OptionalText(r.sourceId), "provider" := Get(r.data, "provider"),
                          "event_id" := Get(r.data, "event_id"), "channel" := Get(r.data, "channel"),
                          "computer" := Get(r.data, "computer"), "level" := Get(r.data, "level")];
      Normalized([TimelineEvent(CorrelationRules.EvtxEvent, FirstOf(r.time, ParseTime(c, raw)), raw,
                                "evtx.system.time_created", 0, r.sourceId, metadata + ProcessIdentity(c, r.data),
                                r.provenance)], [])
  }

  function NormalizeRegistry(c: Codec, r: ArtifactRecord): Normalized {
    var raw := StringOf(Get(r.data, "key_last_write_time"));
    if r.recordType != "REGISTRY_KEY" then NOTHING
    else if raw.None? then Normalized([], [NoTimestamp])
    else
      var metadata := map["hive" := Get(r.data, "hive_type"), "key_path" := Get(r.data, "key_path")];
      Normalized([TimelineEvent(CorrelationRules.RegistryKeyLastWrite, FirstOf(r.time, ParseTime(c, raw)), raw,
                                "registry.key_last_write", 0, r.sourceId, metadata, r.provenance)], [])
  }

  // ----- Prefetch

  function TextAt(items: seq<Json>, i: nat): Option<string> {
    if i < |items| then StringOf(items[i]) else None
  }

  function PrefetchMetadata(data: Object): Object {
    map["application_name" := Get(data, "application_name"), "executable_hash" := Get(data, "executable_hash"),
        "prefetch_filename" := Get(data, "source_prefetch_filename"), "run_count" := Get(data, "run_count")]
  }

  function PrefetchEvent(c: Codec, r: ArtifactRecord, i: nat): Option<TimelineEvent> {
    SlotEvent(c, r, CorrelationRules.PrefetchExecution, TextAt(ListOf(Get(r.data, "execution_times")), i),
              TextAt(ListOf(Get(r.data, "execution_time_filetime_values")), i),
              "prefetch.execution_time[" + c.decimal(i) + "]", i, PrefetchMetadata(r.data))
  }

  function PrefetchSlot(c: Codec, r: ArtifactRecord): nat -> Option<TimelineEvent> {
    (i: nat) => PrefetchEvent(c, r, i)
  }

  function EmptySlots(n: nat, slot: nat -> Option<TimelineEvent>): seq<Warning> {
    if n == 0 then [] else EmptySlots(n - 1, slot) + if slot(n - 1).None? then [EmptySlot(n - 1)] else []
  }

  function Max(a: nat, b: nat): nat {
    if a < b then b else a
  }

  /** The specification of _prefetch. */
  function NormalizePrefetch(c: Codec, r: ArtifactRecord): Normalized {
    var times, raws := ListOf(Get(r.data, "execution_times")), ListOf(Get(r.data, "execution_time_filetime_values"));
    if r.recordType != "PREFETCH_FILE" then NOTHING
    else if |times| == 0 && |raws| == 0 then Normalized([], [NoTimestamp])
    else Normalized(Collect(Max(|times|, |raws|), PrefetchSlot(c, r)),
                    EmptySlots(Max(|times|, |raws|), PrefetchSlot(c, r)))
  }

  method RunPrefetch(c: Codec, r: ArtifactRecord) returns (n: Normalized)
    ensures n == NormalizePrefetch(c, r)
  {
    if r.recordType != "PREFETCH_FILE" {
      return NOTHING;
    }
    var times, raws := ListOf(Get(r.data, "execution_times")), ListOf(Get(r.data, "execution_time_filetime_values"));
    if |raws| == 0 && |times| == 0 {
      return Normalized([], [NoTimestamp]);
    }
    hide PrefetchMetadata;
    var events, warnings := [], [];
    for index := 0 to Max(|times|, |raws|)
      invariant events == Collect(index, PrefetchSlot(c, r))
      invariant warnings == EmptySlots(index, PrefetchSlot(c, r))
    {
      var text, raw := TextAt(times, index), TextAt(raws, index);
      assert PrefetchSlot(c, r)(index) == PrefetchEvent(c, r, index);
      if text.None? && raw.None? {
        warnings := warnings + [EmptySlot(index)];
        continue;
      }
      events := events + [TimelineEvent(CorrelationRules.PrefetchExecution, ParseTime(c, text), raw,
                                        "prefetch.execution_time[" + c.decimal(index) + "]", index, r.sourceId,
                                        PrefetchMetadata(r.data), r.provenance)];
    }
    return Normalized(events, warnings);
  }

  // ----- Shell Link

  const LNK_FIELDS: seq<string> := ["creation", "access", "modification"]

  function LnkType(i: nat): EventType {
    if i == 0 then CorrelationRules.LnkCreation else if i == 1 then CorrelationRules.LnkAccess
       else CorrelationRules.LnkModification
  }

  function LnkMetadata(data: Object): Object {
    map["target_path" := Get(data, "target_path"), "relative_path" := Get(data, "relative_path"),
        "source_lnk_filename" := Get(data, "source_lnk_filename")]
  }

  function LnkEvent(c: Codec, r: ArtifactRecord, i: nat): Option<TimelineEvent>
    requires i < 3
  {
    SlotEvent(c, r, LnkType(i), StringOf(Get(r.data, LNK_FIELDS[i] + "_time")),
              StringOf(Get(r.data, LNK_FIELDS[i] + "_time_filetime")), "lnk.header." + LNK_FIELDS[i] + "_time", i,
                  LnkMetadata(r.data))
  }

  function LnkSlot(c: Codec, r: ArtifactRecord): nat -> Option<TimelineEvent> {
    (i: nat) => if i < 3 then LnkEvent(c, r, i) else None
  }

  function NormalizeLnk(c: Codec, r: ArtifactRecord): Normalized {
    if r.recordType != "SHELL_LINK" then NOTHING else Normalized(Collect(3, LnkSlot(c, r)), [])
  }

  method RunLnk(c: Codec, r: ArtifactRecord) returns (n: Normalized)
    ensures n == NormalizeLnk(c, r)
  {
    if r.recordType != "SHELL_LINK" {
      return NOTHING;
    }
    var events := [];
    for ordinal := 0 to 3
      invariant events == Collect(ordinal, LnkSlot(c, r))
    {
      var field := LNK_FIELDS[ordinal];
      var text, raw := StringOf(Get(r.data, field + "_time")), StringOf(Get(r.data, field + "_time_filetime"));
      if text.None? && raw.None? {
        continue;
      }
      events := events + [TimelineEvent(LnkType(ordinal), ParseTime(c, text), raw, "lnk.header." + field + "_time",
                                        ordinal, r.sourceId, LnkMetadata(r.data), r.provenance)];
    }
    return Normalized(events, []);
  }

  // ----- NTFS

  const NTFS_FIELDS: seq<string> := ["creation_time", "modification_time", "mft_change_time", "access_time"]

  datatype Family = StandardFamily | FileNameFamily

  function FamilyText(f: Family): string {
    if f == StandardFamily then "$STANDARD_INFORMATION" else "$FILE_NAME"
  }

  function NtfsType(f: Family, i: nat): EventType {
    if f == StandardFamily then CorrelationRules.NtfsSi(i) else CorrelationRules.NtfsFn(i)
  }

  function NtfsMetadata(data: Object, f: Family, filename: Option<string>, parent: Json, i: nat): Object
    requires i < 4
  {
    map["record_number" := Get(data, "record_number"), "filename" := OptionalText(filename),
        "parent_directory_reference" := parent, "source_record_offset" := Get(data, "source_record_offset"),
        "timestamp_family" := Text(FamilyText(f)), "timestamp_field" := Text(NTFS_FIELDS[i])]
  }

  function FamilyEvent(c: Codec, r: ArtifactRecord, times: Object, f: Family, filename: Option<string>, parent: Json,
                       ordinal: nat, i: nat)
    : Option<TimelineEvent>
    requires i < 4
  {
    SlotEvent(c, r, NtfsType(f, i), StringOf(Get(times, NTFS_FIELDS[i])),
              StringOf(Get(times, NTFS_FIELDS[i] + "_filetime")), FamilyText(f) + "." + NTFS_FIELDS[i], ordinal,
                  NtfsMetadata(r.data, f, filename, parent, i))
  }

  function FamilySlot(c: Codec, r: ArtifactRecord, times: Object, f: Family, filename: Option<string>, parent: Json,
                      ordinal: nat)
    : nat -> Option<TimelineEvent>
  {
    (i: nat) => if i < 4 then FamilyEvent(c, r, times, f, filename, parent, ordinal, i) else None
  }

  function FamilyEvents(c: Codec, r: ArtifactRecord, times: Object, f: Family, filename: Option<string>, parent: Json,
                        ordinal: nat)
    : seq<TimelineEvent>
  {
    Collect(4, FamilySlot(c, r, times, f, filename, parent, ordinal))
  }

  function FirstFilename(data: Object): Option<string> {
    var names := DictList(Get(data, "file_names"));
    if |names| > 0 then StringOf(Get(DictOf(names[0]), "filename")) else None
  }

  function StandardEvents(c: Codec, r: ArtifactRecord): seq<TimelineEvent> {
    var standard := DictOf(Get(r.data, "standard_information"));
    if |standard| == 0 then [] else FamilyEvents(c, r, standard, StandardFamily, FirstFilename(r.data), Null, 0)
  }

  function NameEvents(c: Codec, r: ArtifactRecord, name: Object, ordinal: nat): seq<TimelineEvent> {
    FamilyEvents(c, r, name, FileNameFamily, StringOf(Get(name, "filename")), Get(name, "parent_directory_reference"),
                 ordinal)
  }

  function AllNameEvents(c: Codec, r: ArtifactRecord, names: seq<Json>): seq<TimelineEvent> {
    if |names| == 0 then []
    else AllNameEvents(c, r, names[..|names| - 1]) + NameEvents(c, r, DictOf(names[|names| - 1]), |names| - 1)
  }

  /** The specification of _ntfs. */
  function NormalizeNtfs(c: Codec, r: ArtifactRecord): Normalized {
    if r.recordType != "NTFS_MFT_RECORD" then NOTHING
    else Normalized(StandardEvents(c, r) + AllNameEvents(c, r, DictList(Get(r.data, "file_names"))), [])
  }

  method RunFamily(c: Codec, r: ArtifactRecord, times: Object, f: Family, filename: Option<string>, parent: Json,
                   ordinal: nat)
      returns (events: seq<TimelineEvent>)
    ensures events == FamilyEvents(c, r, times, f, filename, parent, ordinal)
  {
    hide StringOf, Get, ParseTime, NtfsMetadata, NtfsType, FamilyText;
    events := [];
    for i := 0 to 4
      invariant events == Collect(i, FamilySlot(c, r, times, f, filename, parent, ordinal))
    {
      var field := NTFS_FIELDS[i];
      var text, raw := StringOf(Get(times, field)), StringOf(Get(times, field + "_filetime"));
      if text.None? && raw.None? {
        continue;
      }
      events := events + [TimelineEvent(NtfsType(f, i), ParseTime(c, text), raw, FamilyText(f) + "." + field, ordinal,
                                        r.sourceId, NtfsMetadata(r.data, f, filename, parent, i), r.provenance)];
    }
  }

  method RunNtfs(c: Codec, r: ArtifactRecord) returns (n: Normalized)
    ensures n == NormalizeNtfs(c, r)
  {
    hide FamilyEvents, AllNameEvents, DictList, DictOf, StringOf, Get, FirstFilename;
    if r.recordType != "NTFS_MFT_RECORD" {
      return NOTHING;
    }
    var events := [];
    var standard := DictOf(Get(r.data, "standard_information"));
    if |standard| > 0 {
      events := RunFamily(c, r, standard, StandardFamily, FirstFilename(r.data), Null, 0);
    }
    var names := DictList(Get(r.data, "file_names"));
    AllNamesGrow(c, r, names, 0);
    assert events + [] == events;
    for ordinal := 0 to |names|
      invariant events == StandardEvents(c, r) + AllNameEvents(c, r, names[..ordinal])
    {
      var name := DictOf(names[ordinal]);
      AllNamesGrow(c, r, names, ordinal);
      var more := RunFamily(c, r, name, FileNameFamily, StringOf(Get(name, "filename")),
                            Get(name, "parent_directory_reference"), ordinal);
      JoinAssociates(StandardEvents(c, r), AllNameEvents(c, r, names[..ordinal]), more);
      events := events + more;
    }
    assert names[..|names|] == names;
    return Normalized(events, []);
  }

  lemma JoinAssociates(a: seq<TimelineEvent>, b: seq<TimelineEvent>, d: seq<TimelineEvent>)
    ensures a + b + d == a + (b + d)
  {
  }

  lemma AllNamesGrow(c: Codec, r: ArtifactRecord, names: seq<Json>, i: nat)
    requires i <= |names|
    ensures AllNameEvents(c, r, names[..0]) == []
    ensures i < |names| ==>
      AllNameEvents(c, r, names[..i + 1]) == AllNameEvents(c, r, names[..i]) + NameEvents(c, r, DictOf(names[i]), i)
  {
    hide NameEvents;
    if i < |names| {
      assert names[..i + 1][..i] == names[..i];
    }
  }

  // ----- the dispatcher

  function Normalize(c: Codec, t: ArtifactType, r: ArtifactRecord): Normalized {
    match t
    case Evtx => NormalizeEvtx(c, r)
    case Registry => NormalizeRegistry(c, r)
    case Prefetch => NormalizePrefetch(c, r)
    case ShellLink => NormalizeLnk(c, r)
    case NtfsMft => NormalizeNtfs(c, r)
    case Unsupported => NOTHING
  }

  method RunNormalizer(c: Codec, t: ArtifactType, r: ArtifactRecord) returns (n: Normalized)
    ensures n == Normalize(c, t, r)
  {
    match t
    case Evtx => n := NormalizeEvtx(c, r);
    case Registry => n := NormalizeRegistry(c, r);
    case Prefetch => n := RunPrefetch(c, r);
    case ShellLink => n := RunLnk(c, r);
    case NtfsMft => n := RunNtfs(c, r);
    case Unsupported => n := NOTHING;
  }

  // ----- nothing is lost as a duplicate

  /** The part of the unique key that tells the events of one record apart. */
  datatype LocalKey = LocalKey(eventType: EventType, timeSource: string, ordinal: nat)

  function KeyOf(e: TimelineEvent): LocalKey {
    LocalKey(e.eventType, e.timeSource, e.ordinal)
  }

  ghost predicate KeysDistinctLocal(events: seq<TimelineEvent>) {
    forall i, j :: 0 <= i < j < |events| ==> KeyOf(events[i]) != KeyOf(events[j])
  }

  /** Slots with pairwise different keys. */
  ghost predicate SlotKeysDiffer(n: nat, slot: nat -> Option<TimelineEvent>) {
    forall i, j :: 0 <= i < j < n && slot(i).Some? && slot(j).Some? ==> KeyOf(slot(i).value) != KeyOf(slot(j).value)
  }

  lemma {:induction false} CollectedFrom(n: nat, slot: nat -> Option<TimelineEvent>, e: TimelineEvent)
    requires e in Collect(n, slot)
    ensures exists i :: 0 <= i < n && slot(i) == Some(e)
  {
    if e !in Collect(n - 1, slot) {
      assert slot(n - 1) == Some(e);
    } else {
      CollectedFrom(n - 1, slot, e);
    }
  }

  lemma {:induction false} CollectedDistinct(n: nat, slot: nat -> Option<TimelineEvent>)
    requires SlotKeysDiffer(n, slot)
    ensures KeysDistinctLocal(Collect(n, slot))
  {
    if n > 0 {
      CollectedDistinct(n - 1, slot);
      var done := Collect(n - 1, slot);
      forall k | 0 <= k < |done| && slot(n - 1).Some?
        ensures KeyOf(done[k]) != KeyOf(slot(n - 1).value)
      {
        CollectedFrom(n - 1, slot, done[k]);
      }
    }
  }

  lemma FamilyDistinct(c: Codec, r: ArtifactRecord, times: Object, f: Family, filename: Option<string>, parent: Json,
                       ordinal: nat)
    ensures KeysDistinctLocal(FamilyEvents(c, r, times, f, filename, parent, ordinal))
    ensures forall e :: e in FamilyEvents(c, r, times, f, filename, parent, ordinal) ==>
      e.ordinal == ordinal && (if f == StandardFamily then e.eventType.NtfsSi? else e.eventType.NtfsFn?)
  {
    hide Collect, NtfsMetadata, Get, StringOf, ParseTime, FamilyText;
    var slot := FamilySlot(c, r, times, f, filename, parent, ordinal);
    forall i: nat | i < 4
      ensures slot(i).Some? ==> slot(i).value.ordinal == ordinal && slot(i).value.eventType == NtfsType(f, i)
    {
      assert slot(i) == FamilyEvent(c, r, times, f, filename, parent, ordinal, i);
    }
    CollectedDistinct(4, slot);
    forall e | e in Collect(4, slot)
      ensures e.ordinal == ordinal && (if f == StandardFamily then e.eventType.NtfsSi? else e.eventType.NtfsFn?)
    {
      CollectedFrom(4, slot, e);
    }
  }

  lemma {:induction false} NamesDistinct(c: Codec, r: ArtifactRecord, names: seq<Json>)
    ensures KeysDistinctLocal(AllNameEvents(c, r, names))
    ensures forall e :: e in AllNameEvents(c, r, names) ==> e.ordinal < |names| && e.eventType.NtfsFn?
  {
    hide FamilyEvents;
    if |names| > 0 {
      var n := |names| - 1;
      var name := DictOf(names[n]);
      NamesDistinct(c, r, names[..n]);
      FamilyDistinct(c, r, name, FileNameFamily, StringOf(Get(name, "filename")),
                     Get(name, "parent_directory_reference"), n);
      DisjointKeys(AllNameEvents(c, r, names[..n]), NameEvents(c, r, name, n));
    }
  }

  lemma DisjointKeys(a: seq<TimelineEvent>, b: seq<TimelineEvent>)
    requires KeysDistinctLocal(a) && KeysDistinctLocal(b)
    requires forall x, y :: x in a && y in b ==> KeyOf(x) != KeyOf(y)
    ensures KeysDistinctLocal(a + b)
  {
    forall i, j | 0 <= i < j < |a + b|
      ensures KeyOf((a + b)[i]) != KeyOf((a + b)[j])
    {
      if i < |a| <= j {
        assert (a + b)[i] in a && (a + b)[j] in b;
      }
    }
  }

  /** Only EVTX events carry a process identity; the names of all other entries have other lengths. */
  predicate PlainNames(m: Object) {
    forall key :: key in m ==> |key| != 12 && |key| != 23
  }

  lemma OthersArePlain(c: Codec, t: ArtifactType, r: ArtifactRecord, e: TimelineEvent)
    requires t != Evtx && e in Normalize(c, t, r).events
    ensures PlainNames(e.metadata)
  {
    hide NormalizeRegistry, NormalizePrefetch, NormalizeLnk, NormalizeNtfs, PlainNames;
    match t
    case Registry => RegistryIsPlain(c, r, e);
    case Prefetch => PrefetchIsPlain(c, r, e);
    case ShellLink => LnkIsPlain(c, r, e);
    case NtfsMft => NtfsArePlain(c, r, e);
    case _ =>
  }

  lemma RegistryIsPlain(c: Codec, r: ArtifactRecord, e: TimelineEvent)
    requires e in NormalizeRegistry(c, r).events
    ensures PlainNames(e.metadata)
  {
  }

  lemma PrefetchIsPlain(c: Codec, r: ArtifactRecord, e: TimelineEvent)
    requires e in NormalizePrefetch(c, r).events
    ensures PlainNames(e.metadata)
  {
    hide Collect, ListOf, TextAt;
    var n := Max(|ListOf(Get(r.data, "execution_times"))|, |ListOf(Get(r.data, "execution_time_filetime_values"))|);
    CollectedFrom(n, PrefetchSlot(c, r), e);
  }

  lemma LnkIsPlain(c: Codec, r: ArtifactRecord, e: TimelineEvent)
    requires e in NormalizeLnk(c, r).events
    ensures PlainNames(e.metadata)
  {
    hide Collect;
    CollectedFrom(3, LnkSlot(c, r), e);
  }

  lemma NtfsArePlain(c: Codec, r: ArtifactRecord, e: TimelineEvent)
    requires e in NormalizeNtfs(c, r).events
    ensures PlainNames(e.metadata)
  {
    hide FamilyEvents, AllNameEvents, PlainNames;
    var standard := DictOf(Get(r.data, "standard_information"));
    if e in StandardEvents(c, r) {
      FamilyIsPlain(c, r, standard, StandardFamily, FirstFilename(r.data), Null, 0, e);
    } else {
      NamesArePlain(c, r, DictList(Get(r.data, "file_names")), e);
    }
  }

  lemma FamilyIsPlain(c: Codec, r: ArtifactRecord, times: Object, f: Family, filename: Option<string>, parent: Json,
                      ordinal: nat, e: TimelineEvent)
    requires e in FamilyEvents(c, r, times, f, filename, parent, ordinal)
    ensures PlainNames(e.metadata)
  {
    hide Collect;
    CollectedFrom(4, FamilySlot(c, r, times, f, filename, parent, ordinal), e);
  }

  lemma {:induction false} NamesArePlain(c: Codec, r: ArtifactRecord, names: seq<Json>, e: TimelineEvent)
    requires e in AllNameEvents(c, r, names)
    ensures PlainNames(e.metadata)
  {
    hide FamilyEvents, PlainNames;
    var n := |names| - 1;
    if e in AllNameEvents(c, r, names[..n]) {
      NamesArePlain(c, r, names[..n], e);
    } else {
      var name := DictOf(names[n]);
      FamilyIsPlain(c, r, name, FileNameFamily, StringOf(Get(name, "filename")),
                    Get(name, "parent_directory_reference"), n, e);
    }
  }

  /** For any JSON record whatever, its events differ in type, time source or ordinal. */
  lemma RecordKeysDistinct(c: Codec, t: ArtifactType, r: ArtifactRecord)
    ensures KeysDistinctLocal(Normalize(c, t, r).events)
  {
    hide Collect, FamilyEvents, AllNameEvents;
    match t
    case Prefetch =>
      PrefetchDistinct(c, r, Max(|ListOf(Get(r.data, "execution_times"))|,
                                 |ListOf(Get(r.data, "execution_time_filetime_values"))|));
    case ShellLink =>
      LnkDistinct(c, r);
    case NtfsMft =>
      NtfsDistinct(c, r);
    case _ =>
  }

  lemma PrefetchDistinct(c: Codec, r: ArtifactRecord, n: nat)
    ensures KeysDistinctLocal(Collect(n, PrefetchSlot(c, r)))
  {
    hide Collect, PrefetchMetadata, Get, ListOf, TextAt, ParseTime;
    var slot := PrefetchSlot(c, r);
    forall i: nat
      ensures slot(i).Some? ==> slot(i).value.ordinal == i
    {
      assert slot(i) == PrefetchEvent(c, r, i);
    }
    CollectedDistinct(n, slot);
  }

  lemma LnkDistinct(c: Codec, r: ArtifactRecord)
    ensures KeysDistinctLocal(Collect(3, LnkSlot(c, r)))
  {
    hide Collect, LnkMetadata, Get, StringOf, ParseTime;
    var slot := LnkSlot(c, r);
    forall i: nat | i < 3
      ensures slot(i).Some? ==> slot(i).value.ordinal == i
    {
      assert slot(i) == LnkEvent(c, r, i);
    }
    CollectedDistinct(3, slot);
  }

  lemma NtfsDistinct(c: Codec, r: ArtifactRecord)
    ensures KeysDistinctLocal(NormalizeNtfs(c, r).events)
  {
    hide FamilyEvents, AllNameEvents, KeysDistinctLocal, DictList, DictOf;
    FamilyDistinct(c, r, DictOf(Get(r.data, "standard_information")), StandardFamily, FirstFilename(r.data), Null, 0);
    NamesDistinct(c, r, DictList(Get(r.data, "file_names")));
    NothingDistinct();
    DisjointKeys(StandardEvents(c, r), AllNameEvents(c, r, DictList(Get(r.data, "file_names"))));
  }

  lemma NothingDistinct()
    ensures KeysDistinctLocal([])
  {
  }
}
