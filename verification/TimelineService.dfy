/** The timeline table: insert-if-absent under a unique key, then the identity backfill. */
module TimelineService {
  import opened Wrappers
  import opened Ordering
  import opened TimelineNormalizer
  import CorrelationRules

  datatype Artifact = Artifact(id: string, evidenceId: string, kind: ArtifactType, warnings: nat)

  /** The unique constraint of the table. */
  datatype RowKey = RowKey(recordId: string, local: LocalKey)

  datatype Row = Row(recordId: string, artifactId: string, evidenceId: string, caseId: string, kind: ArtifactType,
                     event: TimelineEvent)

  function KeyOfRow(r: Row): RowKey {
    RowKey(r.recordId, KeyOf(r.event))
  }

  datatype GenerationAudit = GenerationAudit(caseId: string, artifacts: nat, records: nat, created: nat, skipped: int)

  /** Evidence belongs to a case, artifacts to evidence and records to artifacts; parsed rows never change. */
  datatype Tables = Tables(caseOf: map<string, string>, artifacts: map<string, Artifact>, records: seq<ArtifactRecord>,
                           rows: seq<Row>, audits: seq<GenerationAudit>)

  // ----- what a generation would insert

  predicate BelongsTo(s: Tables, r: ArtifactRecord, caseId: string) {
    && r.artifactId in s.artifacts
    && var evidenceId := s.artifacts[r.artifactId].evidenceId;
       evidenceId in s.caseOf && s.caseOf[evidenceId] == caseId
  }

  function RecordsOf(s: Tables, caseId: string): seq<ArtifactRecord> {
    Filter(s.records, (r: ArtifactRecord) => BelongsTo(s, r, caseId))
  }

  function RowOf(s: Tables, caseId: string, r: ArtifactRecord, e: TimelineEvent): Row
    requires r.artifactId in s.artifacts
  {
    var a := s.artifacts[r.artifactId];
    Row(r.id, a.id, a.evidenceId, caseId, a.kind, e)
  }

  function EventsOf(c: Codec, s: Tables, r: ArtifactRecord): seq<TimelineEvent> {
    if r.artifactId in s.artifacts then Normalize(c, s.artifacts[r.artifactId].kind, r).events else []
  }

  function RowsOfRecord(c: Codec, s: Tables, caseId: string, r: ArtifactRecord): (rows: seq<Row>)
    ensures |rows| == |EventsOf(c, s, r)|
  {
    var events := EventsOf(c, s, r);
    seq(|events|, i requires 0 <= i < |events| => RowOf(s, caseId, r, events[i]))
  }

  function ValuesOf(c: Codec, s: Tables, caseId: string): seq<Row> {
    FlatMap(RecordsOf(s, caseId), (r: ArtifactRecord) => RowsOfRecord(c, s, caseId, r))
  }

  function Silent(c: Codec, s: Tables, rs: seq<ArtifactRecord>): nat {
    if |rs| == 0 then 0 else Silent(c, s, rs[..|rs| - 1]) + if |EventsOf(c, s, rs[|rs| - 1])| == 0 then 1 else 0
  }

  // ----- INSERT .. ON CONFLICT DO NOTHING

  predicate HasRow(rows: seq<Row>, key: RowKey) {
    exists i :: 0 <= i < |rows| && KeyOfRow(rows[i]) == key
  }

  function InsertRow(rows: seq<Row>, value: Row): seq<Row> {
    if HasRow(rows, KeyOfRow(value)) then rows else rows + [value]
  }

  function InsertAll(rows: seq<Row>, values: seq<Row>): (r: seq<Row>)
    ensures |rows| <= |r| && r[..|rows|] == rows
  {
    if |values| == 0 then rows else InsertRow(InsertAll(rows, values[..|values| - 1]), values[|values| - 1])
  }

  // ----- backfill

  function RecordWithId(records: seq<ArtifactRecord>, id: string): Option<ArtifactRecord> {
    if |records| == 0 then None
    else if records[0].id == id then Some(records[0])
    else RecordWithId(records[1..], id)
  }

  predicate NeedsIdentity(row: Row, caseId: string) {
    row.caseId == caseId && row.kind == Evtx && row.event.eventType == CorrelationRules.EvtxEvent
  }

  function Enriched(c: Codec, records: seq<ArtifactRecord>, row: Row, caseId: string): Row {
    var record := RecordWithId(records, row.recordId);
    if !NeedsIdentity(row, caseId) || record.None? then row
    else row.(event := row.event.(metadata := row.event.metadata + ProcessIdentity(c, record.value.data)))
  }

  function Backfilled(c: Codec, records: seq<ArtifactRecord>, rows: seq<Row>, caseId: string): (r: seq<Row>)
    ensures |r| == |rows|
  {
    seq(|rows|, i requires 0 <= i < |rows| => Enriched(c, records, rows[i], caseId))
  }

  /** The whole effect of a successful generation. */
  function AfterGenerate(c: Codec, s: Tables, caseId: string): Tables {
    var values := ValuesOf(c, s, caseId);
    var inserted := InsertAll(s.rows, values);
    var created := |inserted| - |s.rows|;
    s.(rows := Backfilled(c, s.records, inserted, caseId),
       audits := s.audits + [GenerationAudit(caseId, ArtifactCount(s, caseId), |RecordsOf(s, caseId)|, created,
                                             |values| - created + Silent(c, s, RecordsOf(s, caseId)))])
  }

  function ArtifactCount(s: Tables, caseId: string): nat {
    |set id | id in s.artifacts && s.artifacts[id].evidenceId in s.caseOf
       && s.caseOf[s.artifacts[id].evidenceId] == caseId|
  }

  datatype GenerateOutcome = Generated(created: nat, skipped: int) | CaseNotFound | NotPersisted

  class Timeline {
    const codec: Codec
    var cases: set<string>
    var tables: Tables

    constructor (codec: Codec)
      ensures this.codec == codec && cases == {} && tables == Tables(map[], map[], [], [], [])
    {
      this.codec, cases := codec, {};
      tables := Tables(map[], map[], [], [], []);
    }

    method Generate(caseId: string, fails: bool) returns (r: GenerateOutcome)
      modifies this`tables
      ensures r.CaseNotFound? <==> caseId !in cases
      ensures r.NotPersisted? <==> caseId in cases && fails
      ensures !r.Generated? ==> tables == old(tables)
      ensures r.Generated? ==>
        && tables == AfterGenerate(codec, old(tables), caseId)
        && r.created == tables.audits[|old(tables).audits|].created
        && r.skipped == tables.audits[|old(tables).audits|].skipped
    {
      hide InsertAll, Backfilled, ArtifactCount, Silent, FlatMap, RecordsOf;
      if caseId !in cases {
        return CaseNotFound;
      }
      var before := tables;
      var records := RecordsOf(before, caseId);
      var values, recordsWithoutEvents := CollectValues(codec, before, caseId, records);
      var rows := InsertRows(before.rows, values);
      var created: nat := |rows| - |before.rows|;
      rows := Backfill(codec, before.records, rows, caseId);
      var skipped := |values| - created + recordsWithoutEvents;
      if fails {
        return NotPersisted;
      }
      tables := before.(rows := rows,
                        audits := before.audits + [GenerationAudit(caseId, ArtifactCount(before, caseId), |records|,
                                                                   created, skipped)]);
      return Generated(created, skipped);
    }
  }

  /** The loop that normalises every record. */
  method CollectValues(c: Codec, s: Tables, caseId: string, records: seq<ArtifactRecord>)
      returns (values: seq<Row>, silent: nat)
    ensures values == FlatMap(records, (r: ArtifactRecord) => RowsOfRecord(c, s, caseId, r))
    ensures silent == Silent(c, s, records)
  {
    hide RowOf, EventsOf;
    var f := (r: ArtifactRecord) => RowsOfRecord(c, s, caseId, r);
    values, silent := [], 0;
    CorrelationRules.FlatMapGrows(records, 0, f);
    for i := 0 to |records|
      invariant values == FlatMap(records[..i], f)
      invariant silent == Silent(c, s, records[..i])
    {
      CorrelationRules.FlatMapGrows(records, i, f);
      assert records[..i + 1][..i] == records[..i];
      var rows := RowsOfRecord(c, s, caseId, records[i]);
      if |rows| == 0 {
        silent := silent + 1;
      }
      values := values + rows;
    }
    assert records[..|records|] == records;
  }

  /** The loop of the backfill. */
  method Backfill(c: Codec, records: seq<ArtifactRecord>, before: seq<Row>, caseId: string) returns (rows: seq<Row>)
    ensures rows == Backfilled(c, records, before, caseId)
  {
    rows := before;
    for i := 0 to |before|
      invariant |rows| == |before|
      invariant forall j :: 0 <= j < i ==> rows[j] == Enriched(c, records, before[j], caseId)
      invariant forall j :: i <= j < |rows| ==> rows[j] == before[j]
    {
      var record := RecordWithId(records, rows[i].recordId);
      if !NeedsIdentity(rows[i], caseId) || record.None? {
        continue;
      }
      var identity := ProcessIdentity(c, record.value.data);
      if |identity| == 0 {
        assert rows[i].event.metadata + identity == rows[i].event.metadata;
        continue;
      }
      var enriched := rows[i].event.metadata + identity;
      if enriched != rows[i].event.metadata {
        rows := rows[i := rows[i].(event := rows[i].event.(metadata := enriched))];
      }
    }
  }

  /** The multi-row INSERT. */
  method InsertRows(before: seq<Row>, values: seq<Row>) returns (rows: seq<Row>)
    ensures rows == InsertAll(before, values)
  {
    hide InsertRow;
    rows := before;
    for i := 0 to |values|
      invariant rows == InsertAll(before, values[..i])
    {
      assert values[..i + 1][..i] == values[..i];
      rows := InsertRow(rows, values[i]);
    }
    assert values[..|values|] == values;
  }

  // ----- the table is an exact image of the records

  ghost predicate RecordIdsDistinct(records: seq<ArtifactRecord>) {
    forall i, j :: 0 <= i < j < |records| ==> records[i].id != records[j].id
  }

  predicate RowKeysUnique(rows: seq<Row>) {
    forall i, j :: 0 <= i < j < |rows| ==> KeyOfRow(rows[i]) != KeyOfRow(rows[j])
  }

  /** Row is what event e of record r becomes in the case. */
  predicate Yields(c: Codec, s: Tables, caseId: string, r: ArtifactRecord, e: TimelineEvent, row: Row) {
    r in s.records && BelongsTo(s, r, caseId) && e in EventsOf(c, s, r) && row == RowOf(s, caseId, r, e)
  }

  /** The row is what normalising one of the records yields, with that record's true ancestry. */
  ghost predicate Genuine(c: Codec, s: Tables, row: Row) {
    exists r, e :: Yields(c, s, row.caseId, r, e, row)
  }

  ghost predicate Exact(c: Codec, s: Tables) {
    RecordIdsDistinct(s.records) && RowKeysUnique(s.rows) && forall i :: 0 <= i < |s.rows| ==> Genuine(c, s, s.rows[i])
  }

  lemma {:induction false} RecordFound(records: seq<ArtifactRecord>, r: ArtifactRecord)
    requires RecordIdsDistinct(records) && r in records
    ensures RecordWithId(records, r.id) == Some(r)
  {
    if records[0] != r {
      assert r in records[1..];
      var i :| 0 <= i < |records[1..]| && records[1..][i] == r;
      assert records[0].id != records[i + 1].id;
      RecordFound(records[1..], r);
    }
  }

  /** A row made by the current normaliser already carries its identity. */
  lemma GenuineIsEnriched(c: Codec, s: Tables, row: Row, caseId: string)
    requires RecordIdsDistinct(s.records) && Genuine(c, s, row)
    ensures Enriched(c, s.records, row, caseId) == row
  {
    hide NormalizePrefetch, NormalizeLnk, NormalizeNtfs, ProcessIdentity, BelongsTo, RecordWithId;
    var r, e :| Yields(c, s, row.caseId, r, e, row);
    RecordFound(s.records, r);
    if NeedsIdentity(row, caseId) {
      var identity := ProcessIdentity(c, r.data);
      assert e.metadata + identity == e.metadata;
    }
  }

  lemma BackfillIsIdle(c: Codec, s: Tables, rows: seq<Row>, caseId: string)
    requires RecordIdsDistinct(s.records) && forall i :: 0 <= i < |rows| ==> Genuine(c, s, rows[i])
    ensures Backfilled(c, s.records, rows, caseId) == rows
  {
    hide Genuine, Enriched;
    forall i | 0 <= i < |rows|
      ensures Enriched(c, s.records, rows[i], caseId) == rows[i]
    {
      GenuineIsEnriched(c, s, rows[i], caseId);
    }
  }

  /** The metadata entries a backfill may write. */
  const IDENTITY_ENTRIES: set<string> := {"process_path", "process_name", "process_identity_source"}

  /** Apart from the identity entries, nothing about the row has changed. */
  predicate OnlyIdentityAdded(before: Row, after: Row) {
    && after == before.(event := before.event.(metadata := after.event.metadata))
    && before.event.metadata.Keys <= after.event.metadata.Keys <= before.event.metadata.Keys + IDENTITY_ENTRIES
    && forall key :: key in before.event.metadata && key !in IDENTITY_ENTRIES ==>
         after.event.metadata[key] == before.event.metadata[key]
  }

  lemma {:induction false} IdentityEntries(c: Codec, items: seq<Json>)
    ensures IdentityFrom(c, items).Keys <= IDENTITY_ENTRIES
  {
    if |items| > 0 {
      IdentityEntries(c, items[1..]);
    }
  }

  lemma EnrichedOnlyAdds(c: Codec, records: seq<ArtifactRecord>, row: Row, caseId: string)
    ensures OnlyIdentityAdded(row, Enriched(c, records, row, caseId))
    ensures Enriched(c, records, Enriched(c, records, row, caseId), caseId) == Enriched(c, records, row, caseId)
  {
    var record := RecordWithId(records, row.recordId);
    hide RecordWithId, IdentityFrom;
    if record.Some? {
      IdentityEntries(c, DictList(Get(record.value.data, "event_data")));
      var m, d := row.event.metadata, ProcessIdentity(c, record.value.data);
      hide ProcessIdentity;
      assert m + d + d == m + d;
    }
  }

  /** On any rows, also older ones, the backfill writes identity entries and nothing else, and is idempotent. */
  lemma BackfillTwice(c: Codec, records: seq<ArtifactRecord>, rows: seq<Row>, caseId: string)
    ensures var once := Backfilled(c, records, rows, caseId);
      && Backfilled(c, records, once, caseId) == once
      && forall i :: 0 <= i < |rows| ==> OnlyIdentityAdded(rows[i], once[i]) && KeyOfRow(once[i]) == KeyOfRow(rows[i])
  {
    hide Enriched;
    var once := Backfilled(c, records, rows, caseId);
    forall i | 0 <= i < |rows|
      ensures Enriched(c, records, once[i], caseId) == once[i] && OnlyIdentityAdded(rows[i], once[i])
    {
      EnrichedOnlyAdds(c, records, rows[i], caseId);
    }
    assert Backfilled(c, records, once, caseId) == once;
  }

  lemma ValuesMembers(c: Codec, s: Tables, caseId: string, row: Row)
    ensures row in ValuesOf(c, s, caseId)
       <==> exists r, e :: Yields(c, s, caseId, r, e, row)
  {
    hide Filter, FlatMap, EventsOf;
    var f := (r: ArtifactRecord) => RowsOfRecord(c, s, caseId, r);
    FlatMapMembers(RecordsOf(s, caseId), f, row);
    var p := (r: ArtifactRecord) => BelongsTo(s, r, caseId);
    if row in ValuesOf(c, s, caseId) {
      var r :| r in RecordsOf(s, caseId) && row in f(r);
      FilterMembers(s.records, p, r);
      hide BelongsTo;
      var i :| 0 <= i < |f(r)| && f(r)[i] == row;
      assert Yields(c, s, caseId, r, EventsOf(c, s, r)[i], row);
    }
    if exists r, e :: Yields(c, s, caseId, r, e, row) {
      var r, e :| Yields(c, s, caseId, r, e, row);
      FilterMembers(s.records, p, r);
      hide BelongsTo;
      var events := EventsOf(c, s, r);
      var i :| 0 <= i < |events| && events[i] == e;
      assert f(r)[i] == row;
    }
  }

  lemma {:induction false} InsertAllFacts(rows: seq<Row>, values: seq<Row>)
    requires RowKeysUnique(rows)
    ensures RowKeysUnique(InsertAll(rows, values))
    ensures forall row :: row in InsertAll(rows, values) ==> row in rows || row in values
    ensures forall v :: v in values ==> HasRow(InsertAll(rows, values), KeyOfRow(v))
  {
    hide KeyOfRow, InsertRow, HasRow, RowKeysUnique;
    if |values| > 0 {
      var n := |values| - 1;
      InsertAllFacts(rows, values[..n]);
      var t := InsertAll(rows, values[..n]);
      InsertRowFacts(t, values[n]);
      assert values == values[..n] + [values[n]];
      forall v | v in values
        ensures HasRow(InsertRow(t, values[n]), KeyOfRow(v))
      {
        InsertRowKeeps(t, values[n], KeyOfRow(v));
      }
    }
  }

  lemma InsertRowFacts(t: seq<Row>, v: Row)
    requires RowKeysUnique(t)
    ensures RowKeysUnique(InsertRow(t, v)) && HasRow(InsertRow(t, v), KeyOfRow(v))
    ensures forall row :: row in InsertRow(t, v) ==> row in t || row == v
  {
    hide KeyOfRow;
    if !HasRow(t, KeyOfRow(v)) {
      assert (t + [v])[|t|] == v;
    }
  }

  lemma InsertRowKeeps(t: seq<Row>, v: Row, key: RowKey)
    ensures HasRow(t, key) ==> HasRow(InsertRow(t, v), key)
  {
    hide KeyOfRow;
    if HasRow(t, key) {
      var i :| 0 <= i < |t| && KeyOfRow(t[i]) == key;
      assert InsertRow(t, v)[i] == t[i];
    }
  }

  lemma InsertedAreGenuine(c: Codec, s: Tables, caseId: string)
    requires Exact(c, s)
    ensures RowKeysUnique(InsertAll(s.rows, ValuesOf(c, s, caseId)))
    ensures var rows := InsertAll(s.rows, ValuesOf(c, s, caseId));
      forall i :: 0 <= i < |rows| ==> Genuine(c, s, rows[i])
  {
    hide ValuesOf, InsertAll, EventsOf, BelongsTo, RowKeysUnique, HasRow;
    InsertAllFacts(s.rows, ValuesOf(c, s, caseId));
    var inserted := InsertAll(s.rows, ValuesOf(c, s, caseId));
    forall i | 0 <= i < |inserted|
      ensures Genuine(c, s, inserted[i])
    {
      if inserted[i] in s.rows {
        var j :| 0 <= j < |s.rows| && s.rows[j] == inserted[i];
      } else {
        assert inserted[i] in ValuesOf(c, s, caseId);
        ValuesMembers(c, s, caseId, inserted[i]);
      }
    }
  }

  /** Provenance: every row names its true record, artifact, evidence and case, and tells what was recorded. */
  lemma GenerateKeepsExact(c: Codec, s: Tables, caseId: string)
    requires Exact(c, s)
    ensures Exact(c, AfterGenerate(c, s, caseId))
    ensures AfterGenerate(c, s, caseId).rows == InsertAll(s.rows, ValuesOf(c, s, caseId))
  {
    hide ValuesOf, InsertAll, BelongsTo, RowKeysUnique, Normalize;
    InsertedAreGenuine(c, s, caseId);
    BackfillIsIdle(c, s, InsertAll(s.rows, ValuesOf(c, s, caseId)), caseId);
    var t := AfterGenerate(c, s, caseId);
    forall i | 0 <= i < |t.rows|
      ensures Genuine(c, t, t.rows[i])
    {
      GenuineElsewhere(c, s, t, t.rows[i]);
    }
  }

  /** Evidence, artifacts and records are all still there. */
  ghost predicate Extends(s: Tables, t: Tables) {
    && (forall id :: id in s.caseOf ==> id in t.caseOf && t.caseOf[id] == s.caseOf[id])
    && (forall id :: id in s.artifacts ==> id in t.artifacts && t.artifacts[id] == s.artifacts[id])
    && (forall r :: r in s.records ==> r in t.records)
  }

  lemma GenuineElsewhere(c: Codec, s: Tables, t: Tables, row: Row)
    requires Genuine(c, s, row) && Extends(s, t)
    ensures Genuine(c, t, row)
  {
    hide Normalize;
    var r, e :| Yields(c, s, row.caseId, r, e, row);
    assert Yields(c, t, row.caseId, r, e, row);
  }

  lemma SameRow(c: Codec, s: Tables, row: Row, value: Row)
    requires RecordIdsDistinct(s.records) && Genuine(c, s, row) && Genuine(c, s, value)
             && KeyOfRow(row) == KeyOfRow(value)
    ensures row == value
  {
    hide Normalize;
    var r, e :| Yields(c, s, row.caseId, r, e, row);
    var q, d :| Yields(c, s, value.caseId, q, d, value);
    RecordFound(s.records, r);
    RecordFound(s.records, q);
    assert r == q;
    RecordKeysDistinct(c, s.artifacts[r.artifactId].kind, r);
    KeyFindsEvent(EventsOf(c, s, r), e, d);
  }

  lemma KeyFindsEvent(events: seq<TimelineEvent>, e: TimelineEvent, d: TimelineEvent)
    requires KeysDistinctLocal(events) && e in events && d in events && KeyOf(e) == KeyOf(d)
    ensures e == d
  {
    hide KeyOf;
    var i :| 0 <= i < |events| && events[i] == e;
    var j :| 0 <= j < |events| && events[j] == d;
  }

  // ----- rows that an older normaliser wrote

  /** The present normaliser makes `now` of the record that the row came from, and differs in identity entries only. */
  ghost predicate AgedFrom(c: Codec, s: Tables, row: Row, now: Row) {
    Genuine(c, s, now) && OnlyIdentityAdded(row, now)
  }

  ghost predicate Aged(c: Codec, s: Tables, row: Row) {
    exists now :: AgedFrom(c, s, row, now)
  }

  /** Every row is genuine up to its identity entries. */
  ghost predicate Upgradable(c: Codec, s: Tables) {
    RecordIdsDistinct(s.records) && RowKeysUnique(s.rows) && forall i :: 0 <= i < |s.rows| ==> Aged(c, s, s.rows[i])
  }

  ghost predicate CaseGenuine(c: Codec, s: Tables, caseId: string) {
    forall i :: 0 <= i < |s.rows| && s.rows[i].caseId == caseId ==> Genuine(c, s, s.rows[i])
  }

  lemma GenuineIsAged(c: Codec, s: Tables, row: Row)
    requires Genuine(c, s, row)
    ensures Aged(c, s, row)
  {
    hide Genuine;
    assert AgedFrom(c, s, row, row);
  }

  lemma ExactIsUpgradable(c: Codec, s: Tables)
    requires Exact(c, s)
    ensures Upgradable(c, s)
  {
    hide Genuine, Aged, RowKeysUnique;
    forall i | 0 <= i < |s.rows|
      ensures Aged(c, s, s.rows[i])
    {
      GenuineIsAged(c, s, s.rows[i]);
    }
  }

  lemma IdentityOfEvtx(c: Codec, r: ArtifactRecord, e: TimelineEvent, m: Object)
    requires e in NormalizeEvtx(c, r).events
    requires m.Keys <= e.metadata.Keys <= m.Keys + IDENTITY_ENTRIES
    requires forall key :: key in m && key !in IDENTITY_ENTRIES ==> e.metadata[key] == m[key]
    ensures m + ProcessIdentity(c, r.data) == e.metadata && e.eventType == CorrelationRules.EvtxEvent
  {
    var base := EvtxMetadata(c, r, e);
    IdentityEntries(c, DictList(Get(r.data, "event_data")));
    assert ProcessIdentity(c, r.data).Keys <= IDENTITY_ENTRIES;
    hide NormalizeEvtx, ProcessIdentity, IdentityFrom, IDENTITY_ENTRIES;
    Completed(m, base, ProcessIdentity(c, r.data));
  }

  lemma EvtxMetadata(c: Codec, r: ArtifactRecord, e: TimelineEvent) returns (base: Object)
    requires e in NormalizeEvtx(c, r).events
    ensures e.metadata == base + ProcessIdentity(c, r.data) && base.Keys !! IDENTITY_ENTRIES
    ensures e.eventType == CorrelationRules.EvtxEvent
  {
    hide ProcessIdentity, ParseTime, StringOf, OptionalText, Get;
    base := map["event_record_id" := OptionalText(r.sourceId), "provider" := Get(r.data, "provider"),
                "event_id" := Get(r.data, "event_id"), "channel" := Get(r.data, "channel"),
                "computer" := Get(r.data, "computer"), "level" := Get(r.data, "level")];
    PlainKeys(base.Keys);
  }

  /** Entries of a full dictionary, all but perhaps some of the identity, are completed by the identity. */
  lemma Completed(m: Object, base: Object, identity: Object)
    requires base.Keys !! IDENTITY_ENTRIES && identity.Keys <= IDENTITY_ENTRIES
    requires m.Keys <= (base + identity).Keys <= m.Keys + IDENTITY_ENTRIES
    requires forall key :: key in m && key !in IDENTITY_ENTRIES ==> (base + identity)[key] == m[key]
    ensures m + identity == base + identity
  {
    hide IDENTITY_ENTRIES;
  }

  /** Names of other lengths are no identity entries. */
  lemma PlainKeys(keys: set<string>)
    requires forall key :: key in keys ==> |key| != 12 && |key| != 23
    ensures keys !! IDENTITY_ENTRIES
  {
  }

  /** Only EVTX rows age. */
  lemma OnlyEvtxAges(c: Codec, s: Tables, row: Row, now: Row)
    requires AgedFrom(c, s, row, now)
    ensures row == now || (row.kind == Evtx && row.event.eventType == CorrelationRules.EvtxEvent)
  {
    hide NormalizeRegistry, NormalizePrefetch, NormalizeLnk, NormalizeNtfs, ProcessIdentity, BelongsTo;
    var r, e :| Yields(c, s, now.caseId, r, e, now);
    if now.kind != Evtx {
      OthersArePlain(c, now.kind, r, e);
      PlainKeys(e.metadata.Keys);
      assert row.event.metadata == e.metadata;
    }
  }

  /** The backfill completes any row that is genuine up to its identity entries. */
  lemma AgedIsRepaired(c: Codec, s: Tables, row: Row, now: Row)
    requires RecordIdsDistinct(s.records) && AgedFrom(c, s, row, now)
    ensures Enriched(c, s.records, row, row.caseId) == now
  {
    OnlyEvtxAges(c, s, row, now);
    hide NormalizeEvtx, NormalizeRegistry, NormalizePrefetch, NormalizeLnk, NormalizeNtfs, ProcessIdentity, BelongsTo,
      RecordWithId;
    var r, e :| Yields(c, s, now.caseId, r, e, now);
    RecordFound(s.records, r);
    if now.kind == Evtx {
      IdentityOfEvtx(c, r, e, row.event.metadata);
    }
  }

  /** The backfill repairs a row if and only if it is genuine up to its identity entries. */
  lemma RepairedIff(c: Codec, s: Tables, row: Row)
    requires RecordIdsDistinct(s.records)
    ensures Genuine(c, s, Enriched(c, s.records, row, row.caseId)) <==> Aged(c, s, row)
  {
    hide Genuine, Enriched, OnlyIdentityAdded;
    if Aged(c, s, row) {
      var now :| AgedFrom(c, s, row, now);
      AgedIsRepaired(c, s, row, now);
    }
    if Genuine(c, s, Enriched(c, s.records, row, row.caseId)) {
      EnrichedOnlyAdds(c, s.records, row, row.caseId);
      assert AgedFrom(c, s, row, Enriched(c, s.records, row, row.caseId));
    }
  }

  lemma OthersAreLeft(c: Codec, records: seq<ArtifactRecord>, row: Row, caseId: string)
    ensures row.caseId != caseId ==> Enriched(c, records, row, caseId) == row
    ensures Enriched(c, records, row, caseId).caseId == row.caseId
    ensures KeyOfRow(Enriched(c, records, row, caseId)) == KeyOfRow(row)
  {
    hide ProcessIdentity, RecordWithId;
  }

  lemma InsertedAreAged(c: Codec, s: Tables, caseId: string, row: Row)
    requires Upgradable(c, s) && row in InsertAll(s.rows, ValuesOf(c, s, caseId))
    ensures Aged(c, s, row)
    ensures row in s.rows || (row.caseId == caseId && Genuine(c, s, row))
  {
    hide ValuesOf, InsertAll, RowKeysUnique, Aged;
    InsertAllFacts(s.rows, ValuesOf(c, s, caseId));
    if row in s.rows {
      var j :| 0 <= j < |s.rows| && s.rows[j] == row;
    } else {
      ValuesMembers(c, s, caseId, row);
      assert Genuine(c, s, row) && row.caseId == caseId by {
        var r, e :| Yields(c, s, caseId, r, e, row);
        hide EventsOf, BelongsTo;
      }
      GenuineIsAged(c, s, row);
    }
  }

  lemma AgedElsewhere(c: Codec, s: Tables, t: Tables, row: Row)
    requires Aged(c, s, row) && Extends(s, t)
    ensures Aged(c, t, row)
  {
    hide Genuine, Extends, OnlyIdentityAdded;
    var now :| AgedFrom(c, s, row, now);
    GenuineElsewhere(c, s, t, now);
    assert AgedFrom(c, t, row, now);
  }

  /** One row of the table after a generation: repaired if it is of the case, and left alone otherwise. */
  lemma RowAfterGenerate(c: Codec, s: Tables, caseId: string, row: Row)
    requires Upgradable(c, s) && row in InsertAll(s.rows, ValuesOf(c, s, caseId))
    ensures var t := AfterGenerate(c, s, caseId); var after := Enriched(c, s.records, row, caseId);
      && Aged(c, t, after) && (row.caseId == caseId ==> Genuine(c, t, after))
      && (Genuine(c, s, row) ==> after == row && Genuine(c, t, after))
  {
    hide InsertAll, ValuesOf, Aged, Genuine, Enriched, RowKeysUnique, Backfilled, Silent;
    var t := AfterGenerate(c, s, caseId);
    InsertedAreAged(c, s, caseId, row);
    assert Extends(s, t);
    hide AfterGenerate, Extends;
    OthersAreLeft(c, s.records, row, caseId);
    if Genuine(c, s, row) {
      GenuineIsEnriched(c, s, row, caseId);
      GenuineElsewhere(c, s, t, row);
      GenuineIsAged(c, t, row);
    } else if row.caseId == caseId {
      var now := Repaired(c, s, row);
      GenuineElsewhere(c, s, t, now);
      GenuineIsAged(c, t, now);
    } else {
      AgedElsewhere(c, s, t, row);
    }
  }

  lemma Repaired(c: Codec, s: Tables, row: Row) returns (now: Row)
    requires RecordIdsDistinct(s.records) && Aged(c, s, row)
    ensures now == Enriched(c, s.records, row, row.caseId) && Genuine(c, s, now) && KeyOfRow(now) == KeyOfRow(row)
  {
    hide Genuine, Enriched;
    now :| AgedFrom(c, s, row, now);
    AgedIsRepaired(c, s, row, now);
  }

  /**
   What the backfill is for: one generation makes every row of its case genuine, however old the
   normaliser that wrote it, and spoils no row of any other case.
   */
  lemma GenerationRepairs(c: Codec, s: Tables, caseId: string)
    requires Upgradable(c, s)
    ensures var t := AfterGenerate(c, s, caseId);
      && Upgradable(c, t) && CaseGenuine(c, t, caseId)
      && forall other :: CaseGenuine(c, s, other) ==> CaseGenuine(c, t, other)
  {
    hide InsertAll, ValuesOf, Aged, Genuine, Enriched, Silent, KeyOfRow;
    var t, inserted := AfterGenerate(c, s, caseId), InsertAll(s.rows, ValuesOf(c, s, caseId));
    InsertAllFacts(s.rows, ValuesOf(c, s, caseId));
    forall i | 0 <= i < |t.rows|
      ensures Aged(c, t, t.rows[i]) && KeyOfRow(t.rows[i]) == KeyOfRow(inserted[i])
      ensures t.rows[i].caseId == caseId ==> Genuine(c, t, t.rows[i])
      ensures CaseGenuine(c, s, t.rows[i].caseId) ==> Genuine(c, t, t.rows[i])
    {
      assert inserted[i] in inserted;
      RowAfterGenerate(c, s, caseId, inserted[i]);
      OthersAreLeft(c, s.records, inserted[i], caseId);
      InsertedAreAged(c, s, caseId, inserted[i]);
    }
  }

  /** When every case is genuine the table is exact. */
  lemma AllCasesGenuine(c: Codec, s: Tables)
    requires Upgradable(c, s)
    ensures (forall caseId :: CaseGenuine(c, s, caseId)) <==> Exact(c, s)
  {
    hide Genuine, Aged, RowKeysUnique;
    if forall caseId :: CaseGenuine(c, s, caseId) {
      forall i | 0 <= i < |s.rows|
        ensures Genuine(c, s, s.rows[i])
      {
        assert CaseGenuine(c, s, s.rows[i].caseId);
      }
    }
  }

  lemma ValueIsThere(c: Codec, s: Tables, caseId: string, value: Row)
    requires Upgradable(c, s) && value in ValuesOf(c, s, caseId)
    ensures value in AfterGenerate(c, s, caseId).rows
  {
    hide ValuesOf, InsertAll, EventsOf, BelongsTo, Aged, Enriched, KeyOfRow, Silent;
    InsertAllFacts(s.rows, ValuesOf(c, s, caseId));
    ValuesMembers(c, s, caseId, value);
    var inserted := InsertAll(s.rows, ValuesOf(c, s, caseId));
    var i :| 0 <= i < |inserted| && KeyOfRow(inserted[i]) == KeyOfRow(value);
    assert inserted[i] in inserted && Genuine(c, s, value);
    InsertedAreAged(c, s, caseId, inserted[i]);
    var now := Repaired(c, s, inserted[i]);
    SameRow(c, s, now, value);
    assert inserted[i].caseId == caseId by { OthersAreLeft(c, s.records, inserted[i], inserted[i].caseId); }
    assert AfterGenerate(c, s, caseId).rows[i] == value;
  }

  /** No observation is lost: after a generation the case's rows are exactly its normalised events. */
  lemma NothingLostNothingInvented(c: Codec, s: Tables, caseId: string, row: Row)
    requires Upgradable(c, s) && row.caseId == caseId
    ensures row in AfterGenerate(c, s, caseId).rows <==> row in ValuesOf(c, s, caseId)
  {
    hide ValuesOf, InsertAll, EventsOf, BelongsTo, Backfilled, RowKeysUnique, Aged, Enriched, KeyOfRow;
    GenerationRepairs(c, s, caseId);
    ValuesMembers(c, s, caseId, row);
    var t := AfterGenerate(c, s, caseId);
    assert Extends(t, s);
    hide AfterGenerate, Silent, Extends;
    if row in t.rows {
      var i :| 0 <= i < |t.rows| && t.rows[i] == row;
      GenuineElsewhere(c, t, s, row);
    }
    if row in ValuesOf(c, s, caseId) {
      ValueIsThere(c, s, caseId, row);
    }
  }

  lemma {:induction false} InsertKnown(rows: seq<Row>, values: seq<Row>)
    requires forall v :: v in values ==> HasRow(rows, KeyOfRow(v))
    ensures InsertAll(rows, values) == rows
  {
    hide HasRow;
    if |values| > 0 {
      InsertKnown(rows, values[..|values| - 1]);
    }
  }

  /** Generating again without new records creates nothing and changes no row. */
  lemma RegenerateCreatesNothing(c: Codec, s: Tables, caseId: string)
    requires Upgradable(c, s)
    ensures var t := AfterGenerate(c, s, caseId); var u := AfterGenerate(c, t, caseId);
      u.rows == t.rows && |u.audits| == |t.audits| + 1 && u.audits[|t.audits|].created == 0
  {
    hide ValuesOf, InsertAll, Genuine, Silent, Aged, Enriched, RowKeysUnique;
    var t := AfterGenerate(c, s, caseId);
    GenerationRepairs(c, s, caseId);
    ValuesUnchanged(c, s, t, caseId);
    forall v | v in ValuesOf(c, t, caseId)
      ensures HasRow(t.rows, KeyOfRow(v))
    {
      ValueIsThere(c, s, caseId, v);
    }
    InsertKnown(t.rows, ValuesOf(c, t, caseId));
    forall i | 0 <= i < |t.rows|
      ensures Enriched(c, t.records, t.rows[i], caseId) == t.rows[i]
    {
      OthersAreLeft(c, t.records, t.rows[i], caseId);
      if t.rows[i].caseId == caseId {
        GenuineIsEnriched(c, t, t.rows[i], caseId);
      }
    }
    assert Backfilled(c, t.records, t.rows, caseId) == t.rows;
  }

  lemma ValuesUnchanged(c: Codec, s: Tables, t: Tables, caseId: string)
    requires t == s.(rows := t.rows, audits := t.audits)
    ensures ValuesOf(c, t, caseId) == ValuesOf(c, s, caseId)
  {
    hide Filter, FlatMap;
    assert forall r :: RowsOfRecord(c, t, caseId, r) == RowsOfRecord(c, s, caseId, r);
    FilterCong(s.records, (r: ArtifactRecord) => BelongsTo(s, r, caseId),
               (r: ArtifactRecord) => BelongsTo(t, r, caseId));
    FlatMapCong(RecordsOf(s, caseId), (r: ArtifactRecord) => RowsOfRecord(c, s, caseId, r),
                (r: ArtifactRecord) => RowsOfRecord(c, t, caseId, r));
  }

  lemma {:induction false} FilterCong<T>(xs: seq<T>, p: T -> bool, q: T -> bool)
    requires forall x :: x in xs ==> p(x) == q(x)
    ensures Filter(xs, p) == Filter(xs, q)
  {
    if |xs| > 0 {
      FilterCong(xs[..|xs| - 1], p, q);
    }
  }

  // ----- whole histories

  datatype Op =
    | AddEvidence(evidenceId: string, caseId: string)
    | AddArtifact(artifact: Artifact)
    | AddRecord(record: ArtifactRecord)
    | GenerateCase(caseId: string)

  /** Rows are only added, under fresh identifiers. */
  predicate Enabled(s: Tables, op: Op) {
    match op
    case AddEvidence(id, _) => id !in s.caseOf
    case AddArtifact(a) => a.id !in s.artifacts
    case AddRecord(r) => forall i :: 0 <= i < |s.records| ==> s.records[i].id != r.id
    case GenerateCase(_) => true
  }

  function Step(c: Codec, s: Tables, op: Op): Tables {
    match op
    case AddEvidence(id, caseId) => s.(caseOf := s.caseOf[id := caseId])
    case AddArtifact(a) => s.(artifacts := s.artifacts[a.id := a])
    case AddRecord(r) => s.(records := s.records + [r])
    case GenerateCase(caseId) => AfterGenerate(c, s, caseId)
  }

  function Exec(c: Codec, s: Tables, ops: seq<Op>): Tables {
    if |ops| == 0 then s else Step(c, Exec(c, s, ops[..|ops| - 1]), ops[|ops| - 1])
  }

  ghost predicate AllEnabled(c: Codec, s: Tables, ops: seq<Op>) {
    |ops| > 0 ==> AllEnabled(c, s, ops[..|ops| - 1]) && Enabled(Exec(c, s, ops[..|ops| - 1]), ops[|ops| - 1])
  }

  function TotalCreated(audits: seq<GenerationAudit>): nat {
    if |audits| == 0 then 0 else TotalCreated(audits[..|audits| - 1]) + audits[|audits| - 1].created
  }

  lemma AddKeepsExact(c: Codec, s: Tables, op: Op)
    requires Exact(c, s) && Enabled(s, op) && !op.GenerateCase?
    ensures Exact(c, Step(c, s, op))
  {
    var t := Step(c, s, op);
    assert Extends(s, t) && t.rows == s.rows && RecordIdsDistinct(t.records);
    hide Extends, Genuine, Step, RowKeysUnique, Enabled;
    forall i | 0 <= i < |t.rows|
      ensures Genuine(c, t, t.rows[i])
    {
      GenuineElsewhere(c, s, t, s.rows[i]);
    }
  }

  /** Over every history the table stays exact and its size is the sum of all created counts. */
  lemma {:induction false} ExactAlways(c: Codec, s: Tables, ops: seq<Op>)
    requires Exact(c, s) && TotalCreated(s.audits) == |s.rows| && AllEnabled(c, s, ops)
    ensures var t := Exec(c, s, ops); Exact(c, t) && TotalCreated(t.audits) == |t.rows|
  {
    hide Exact, ValuesOf, InsertAll, Backfilled, Silent, ArtifactCount;
    if |ops| > 0 {
      var n := |ops| - 1;
      ExactAlways(c, s, ops[..n]);
      var t := Exec(c, s, ops[..n]);
      if ops[n].GenerateCase? {
        GenerateKeepsExact(c, t, ops[n].caseId);
        var u := AfterGenerate(c, t, ops[n].caseId);
        assert u.audits[..|t.audits|] == t.audits;
      } else {
        AddKeepsExact(c, t, ops[n]);
      }
    }
  }

  lemma AddKeepsUpgradable(c: Codec, s: Tables, op: Op)
    requires Upgradable(c, s) && Enabled(s, op) && !op.GenerateCase?
    ensures Upgradable(c, Step(c, s, op))
    ensures forall caseId :: CaseGenuine(c, s, caseId) ==> CaseGenuine(c, Step(c, s, op), caseId)
  {
    var t := Step(c, s, op);
    assert Extends(s, t) && t.rows == s.rows && RecordIdsDistinct(t.records);
    hide Extends, Genuine, Aged, Step, RowKeysUnique, Enabled;
    forall i | 0 <= i < |t.rows|
      ensures Aged(c, t, t.rows[i]) && (Genuine(c, s, t.rows[i]) ==> Genuine(c, t, t.rows[i]))
    {
      AgedElsewhere(c, s, t, s.rows[i]);
      if Genuine(c, s, s.rows[i]) {
        GenuineElsewhere(c, s, t, s.rows[i]);
      }
    }
  }

  /** Over every history on rows of any age: a case once generated is genuine and stays so. */
  lemma {:induction false} RepairedAlways(c: Codec, s: Tables, ops: seq<Op>)
    requires Upgradable(c, s) && AllEnabled(c, s, ops)
    ensures Upgradable(c, Exec(c, s, ops))
    ensures forall caseId :: CaseGenuine(c, s, caseId) || GenerateCase(caseId) in ops ==>
      CaseGenuine(c, Exec(c, s, ops), caseId)
  {
    hide Upgradable, CaseGenuine, AfterGenerate;
    if |ops| > 0 {
      var n := |ops| - 1;
      RepairedAlways(c, s, ops[..n]);
      var t := Exec(c, s, ops[..n]);
      assert ops == ops[..n] + [ops[n]];
      if ops[n].GenerateCase? {
        GenerationRepairs(c, t, ops[n].caseId);
      } else {
        AddKeepsUpgradable(c, t, ops[n]);
      }
    }
  }

  lemma EmptyIsExact(c: Codec)
    ensures Exact(c, Tables(map[], map[], [], [], []))
  {
  }

  // ----- conservation

  lemma {:induction false} NewRowsCounted(rows: seq<Row>, values: seq<Row>)
    requires RowKeysUnique(values)
    ensures |InsertAll(rows, values)| == |rows| + |Filter(values, (v: Row) => !HasRow(rows, KeyOfRow(v)))|
    ensures forall key :: HasRow(InsertAll(rows, values), key) <==>
      HasRow(rows, key) || exists i :: 0 <= i < |values| && KeyOfRow(values[i]) == key
  {
    hide KeyOfRow;
    if |values| > 0 {
      var n := |values| - 1;
      NewRowsCounted(rows, values[..n]);
      var t := InsertAll(rows, values[..n]);
      InsertedKeys(t, values[n]);
      assert forall i :: 0 <= i < n ==> values[..n][i] == values[i];
    }
  }

  lemma InsertedKeys(rows: seq<Row>, v: Row)
    ensures forall key :: HasRow(InsertRow(rows, v), key) <==> HasRow(rows, key) || KeyOfRow(v) == key
  {
    hide KeyOfRow;
    forall key
      ensures HasRow(InsertRow(rows, v), key) <==> HasRow(rows, key) || KeyOfRow(v) == key
    {
      if !HasRow(rows, KeyOfRow(v)) {
        assert KeyOfRow(InsertRow(rows, v)[|rows|]) == KeyOfRow(v);
        if HasRow(rows, key) {
          var i :| 0 <= i < |rows| && KeyOfRow(rows[i]) == key;
          assert KeyOfRow(InsertRow(rows, v)[i]) == key;
        }
      }
    }
  }

  lemma RecordRowsUnique(c: Codec, s: Tables, caseId: string, r: ArtifactRecord)
    ensures RowKeysUnique(RowsOfRecord(c, s, caseId, r))
    ensures forall row :: row in RowsOfRecord(c, s, caseId, r) ==> row.recordId == r.id
  {
    hide Normalize;
    if r.artifactId in s.artifacts {
      RecordKeysDistinct(c, s.artifacts[r.artifactId].kind, r);
    }
  }

  /** Lists of rows that belong to their records, laid end to end. */
  lemma {:induction false} FlatRowsUnique(rs: seq<ArtifactRecord>, f: ArtifactRecord -> seq<Row>)
    requires RecordIdsDistinct(rs)
    requires forall r :: RowKeysUnique(f(r)) && forall row :: row in f(r) ==> row.recordId == r.id
    ensures RowKeysUnique(FlatMap(rs, f))
    ensures forall row :: row in FlatMap(rs, f) ==> exists i :: 0 <= i < |rs| && rs[i].id == row.recordId
  {
    if |rs| > 0 {
      var n := |rs| - 1;
      FlatRowsUnique(rs[..n], f);
      var done, last := FlatMap(rs[..n], f), f(rs[n]);
      forall i, j | 0 <= i < |done| && 0 <= j < |last|
        ensures KeyOfRow(done[i]) != KeyOfRow(last[j])
      {
        assert done[i] in done && last[j] in last;
        var k :| 0 <= k < n && rs[..n][k].id == done[i].recordId;
        assert rs[k].id != rs[n].id;
      }
    }
  }

  lemma {:induction false} FilterKeepsRecordIds(rs: seq<ArtifactRecord>, p: ArtifactRecord -> bool)
    requires RecordIdsDistinct(rs)
    ensures RecordIdsDistinct(Filter(rs, p))
  {
    if |rs| > 0 {
      var n := |rs| - 1;
      FilterKeepsRecordIds(rs[..n], p);
      var kept := Filter(rs[..n], p);
      forall i | 0 <= i < |kept|
        ensures kept[i].id != rs[n].id
      {
        FilterMembers(rs[..n], p, kept[i]);
        var k :| 0 <= k < n && rs[..n][k] == kept[i];
      }
    }
  }

  /**
   Each call creates one row for every event whose key is new, and accounts for the rest: no
   event is dropped because another event of the same call has its key.
   */
  lemma GenerationConserves(c: Codec, s: Tables, caseId: string)
    requires RecordIdsDistinct(s.records)
    ensures var values := ValuesOf(c, s, caseId); var t := AfterGenerate(c, s, caseId);
            var audit := t.audits[|s.audits|];
      && audit.created == |Filter(values, (v: Row) => !HasRow(s.rows, KeyOfRow(v)))|
      && audit.created + audit.skipped == |values| + Silent(c, s, RecordsOf(s, caseId))
      && |t.rows| == |s.rows| + audit.created
  {
    hide InsertAll, Backfilled, Silent, FlatMap, Filter, ArtifactCount, RowsOfRecord;
    FilterKeepsRecordIds(s.records, (r: ArtifactRecord) => BelongsTo(s, r, caseId));
    forall r {
      RecordRowsUnique(c, s, caseId, r);
    }
    FlatRowsUnique(RecordsOf(s, caseId), (r: ArtifactRecord) => RowsOfRecord(c, s, caseId, r));
    NewRowsCounted(s.rows, ValuesOf(c, s, caseId));
  }
}
