/** Timeline and correlation on one database: the events that the rules read are the rows of the timeline. */
module Workbench {
  import opened Wrappers
  import opened TimelineNormalizer
  import opened TimelineService
  import CorrelationRules
  import CorrelationCandidates
  import JoinProperties
  import MatchKey
  import Provenance
  import Store = CorrelationStore
  import Histories = CorrelationInvariants

  datatype Host = Host(codec: Codec, env: Store.Env)

  // ----- a timeline row as the rules read it

  function MetaOf(m: Object): CorrelationRules.Meta {
    CorrelationRules.Meta(
      if Get(m, "event_id").Number? then Some(Get(m, "event_id").n) else None, StringOf(Get(m, "channel")),
      StringOf(Get(m, "process_name")), StringOf(Get(m, "process_path")), StringOf(Get(m, "application_name")),
      StringOf(Get(m, "target_path")), StringOf(Get(m, "filename")), StringOf(Get(m, "full_path")))
  }

  function EventOf(id: string, row: Row): CorrelationRules.Event {
    var e := row.event;
    CorrelationRules.Event(id, row.caseId, e.eventType, e.time, e.sourceId, e.timeSource, e.ordinal, MetaOf(e.metadata))
  }

  function EventsSeen(ids: seq<string>, rows: seq<Row>): (events: seq<CorrelationRules.Event>)
    requires |ids| == |rows|
    ensures |events| == |rows|
  {
    seq(|rows|, i requires 0 <= i < |rows| => EventOf(ids[i], rows[i]))
  }

  /** Row i of the timeline has the identifier ids[i]. */
  datatype State = State(tables: Tables, ids: seq<string>, store: Store.Store)

  /** What the rules read of a row, entry by entry. */
  lemma RowReads(id: string, row: Row)
    ensures var e, m := EventOf(id, row), row.event.metadata;
      && e.id == id && e.caseId == row.caseId && e.eventType == row.event.eventType && e.time == row.event.time
      && e.sourceId == row.event.sourceId && e.timeSource == row.event.timeSource && e.ordinal == row.event.ordinal
      && (forall n :: e.meta.eventId == Some(n) <==> "event_id" in m && m["event_id"] == Number(n))
      && forall s ::
           && (e.meta.channel == Some(s) <==> "channel" in m && m["channel"] == Text(s))
           && (e.meta.processName == Some(s) <==> "process_name" in m && m["process_name"] == Text(s))
           && (e.meta.processPath == Some(s) <==> "process_path" in m && m["process_path"] == Text(s))
           && (e.meta.applicationName == Some(s) <==> "application_name" in m && m["application_name"] == Text(s))
           && (e.meta.targetPath == Some(s) <==> "target_path" in m && m["target_path"] == Text(s))
           && (e.meta.filename == Some(s) <==> "filename" in m && m["filename"] == Text(s))
           && (e.meta.fullPath == Some(s) <==> "full_path" in m && m["full_path"] == Text(s))
  {
  }

  // ----- the joint invariant

  /** The row is genuine, or was written before there were identity entries and has none of them. */
  ghost predicate Whole(c: Codec, s: Tables, row: Row) {
    Genuine(c, s, row) || (Aged(c, s, row) && row.event.metadata.Keys !! IDENTITY_ENTRIES)
  }

  predicate GoodIds(ids: seq<string>) {
    && (forall i, j :: 0 <= i < j < |ids| ==> ids[i] != ids[j])
    && forall i :: 0 <= i < |ids| ==> MatchKey.BarFree(ids[i])
  }

  ghost predicate RowsWhole(c: Codec, s: Tables) {
    forall i :: 0 <= i < |s.rows| ==> Whole(c, s, s.rows[i])
  }

  ghost predicate InStep(h: Host, w: State) {
    && Upgradable(h.codec, w.tables) && RowsWhole(h.codec, w.tables) && Provenance.Keyed(w.tables)
    && |w.ids| == |w.tables.rows| && GoodIds(w.ids)
    && w.store.events == EventsSeen(w.ids, w.tables.rows)
    && Histories.Consistent(h.env, w.store)
  }

  // ----- steps

  datatype Op =
    | Ingest(op: TimelineService.Op)
    | Generate(caseId: string, drawn: seq<string>)
    | Correlate(caseId: string, window: int)
    | Edit(findingId: nat, payload: Store.Payload)

  /** A generation draws one unused identifier for each row it creates. */
  ghost predicate Enabled(h: Host, w: State, op: Op) {
    match op
    case Ingest(t) => !t.GenerateCase? && TimelineService.Enabled(w.tables, t)
    case Generate(caseId, drawn) =>
      |w.ids + drawn| == |AfterGenerate(h.codec, w.tables, caseId).rows| && GoodIds(w.ids + drawn)
    case Correlate(caseId, _) => caseId in w.store.cases && MatchKey.BarFree(caseId)
    case Edit(_, _) => true
  }

  function Step(h: Host, w: State, op: Op): State {
    match op
    case Ingest(t) => w.(tables := TimelineService.Step(h.codec, w.tables, t))
    case Generate(caseId, drawn) =>
      var tables := AfterGenerate(h.codec, w.tables, caseId);
      if |w.ids + drawn| != |tables.rows| then w
      else State(tables, w.ids + drawn, w.store.(events := EventsSeen(w.ids + drawn, tables.rows)))
    case Correlate(caseId, window) => w.(store := Store.RunCase(h.env, w.store, caseId, window))
    case Edit(findingId, payload) => w.(store := Store.UpdateOne(w.store, findingId, payload))
  }

  /** What the step is for the store alone. */
  function StoreOp(h: Host, w: State, op: Op): seq<Histories.Op> {
    match op
    case Ingest(_) => []
    case Generate(_, _) => [Histories.Enrich(Step(h, w, op).store.events)]
    case Correlate(caseId, window) => [Histories.Run(caseId, window)]
    case Edit(findingId, payload) => [Histories.Update(findingId, payload)]
  }

  // ----- a generation, as the rules see it

  /** A row that a backfill can still change takes no part in any candidate. */
  lemma UnstampedIsIrrelevant(h: Host, s: Tables, row: Row, id: string)
    requires Whole(h.codec, s, row) && !Genuine(h.codec, s, row)
    ensures !CorrelationCandidates.Relevant(h.env.lib, EventOf(id, row))
  {
    hide Genuine, OnlyIdentityAdded;
    var now :| AgedFrom(h.codec, s, row, now);
    OnlyEvtxAges(h.codec, s, row, now);
    assert "process_name" in IDENTITY_ENTRIES;
    assert EventOf(id, row).meta.processName == None;
  }

  lemma GenerationKeepsRelevant(h: Host, w: State, caseId: string, drawn: seq<string>)
    requires InStep(h, w) && Enabled(h, w, Generate(caseId, drawn))
    ensures var events := EventsSeen(w.ids + drawn, AfterGenerate(h.codec, w.tables, caseId).rows);
      Histories.KeepsRelevant(h.env, w.store.events, events) && MatchKey.Identified(events)
  {
    hide Genuine, Whole, Enriched, EventOf, Silent, ValuesOf, InsertAll, Histories.Consistent, Aged, RowKeysUnique,
      MatchKey.BarFree, CorrelationCandidates.Relevant;
    var t, ids := AfterGenerate(h.codec, w.tables, caseId), w.ids + drawn;
    var events := EventsSeen(ids, t.rows);
    forall i | 0 <= i < |w.store.events| && CorrelationCandidates.Relevant(h.env.lib, w.store.events[i])
      ensures events[i] == w.store.events[i]
    {
      var row := w.tables.rows[i];
      assert InsertAll(w.tables.rows, ValuesOf(h.codec, w.tables, caseId))[i] == row;
      if !Genuine(h.codec, w.tables, row) {
        UnstampedIsIrrelevant(h, w.tables, row, w.ids[i]);
      }
      GenuineIsEnriched(h.codec, w.tables, row, caseId);
    }
    IdsOfEvents(ids, t.rows);
  }

  lemma IdsOfEvents(ids: seq<string>, rows: seq<Row>)
    requires |ids| == |rows| && GoodIds(ids)
    ensures MatchKey.Identified(EventsSeen(ids, rows))
  {
    hide MatchKey.BarFree;
  }

  lemma GenerationKeepsWhole(h: Host, s: Tables, caseId: string)
    requires Upgradable(h.codec, s) && RowsWhole(h.codec, s)
    ensures Upgradable(h.codec, AfterGenerate(h.codec, s, caseId))
    ensures RowsWhole(h.codec, AfterGenerate(h.codec, s, caseId))
  {
    hide Genuine, Enriched, Silent, ValuesOf, InsertAll, Aged, RowKeysUnique;
    GenerationRepairs(h.codec, s, caseId);
    var t, inserted := AfterGenerate(h.codec, s, caseId), InsertAll(s.rows, ValuesOf(h.codec, s, caseId));
    forall i | 0 <= i < |t.rows|
      ensures Whole(h.codec, t, t.rows[i])
    {
      assert inserted[i] in inserted;
      InsertedAreAged(h.codec, s, caseId, inserted[i]);
      RowAfterGenerate(h.codec, s, caseId, inserted[i]);
      OthersAreLeft(h.codec, s.records, inserted[i], caseId);
    }
  }

  lemma IngestKeepsWhole(h: Host, s: Tables, op: TimelineService.Op)
    requires Upgradable(h.codec, s) && RowsWhole(h.codec, s) && TimelineService.Enabled(s, op) && !op.GenerateCase?
    ensures var t := TimelineService.Step(h.codec, s, op);
      Upgradable(h.codec, t) && RowsWhole(h.codec, t) && t.rows == s.rows
  {
    var t := TimelineService.Step(h.codec, s, op);
    AddKeepsUpgradable(h.codec, s, op);
    assert Extends(s, t) && t.rows == s.rows;
    hide TimelineService.Step, Extends, Genuine, Aged, Upgradable;
    forall i | 0 <= i < |t.rows|
      ensures Whole(h.codec, t, t.rows[i])
    {
      if Genuine(h.codec, s, s.rows[i]) {
        GenuineElsewhere(h.codec, s, t, s.rows[i]);
      } else {
        AgedElsewhere(h.codec, s, t, s.rows[i]);
      }
    }
  }

  lemma GenerateIsStep(h: Host, s: Tables, caseId: string)
    ensures TimelineService.Step(h.codec, s, GenerateCase(caseId)) == AfterGenerate(h.codec, s, caseId)
  {
    hide AfterGenerate;
  }

  /** Each step keeps both services in step with each other, and is an enabled step of the store. */
  lemma StepKeepsInStep(h: Host, w: State, op: Op)
    requires InStep(h, w) && Enabled(h, w, op)
    ensures InStep(h, Step(h, w, op))
    ensures forall o :: o in StoreOp(h, w, op) ==>
      Histories.Enabled(h.env, w.store, o) && Step(h, w, op).store == Histories.Step(h.env, w.store, o)
    ensures StoreOp(h, w, op) == [] ==> Step(h, w, op).store == w.store
  {
    hide Upgradable, RowsWhole, GoodIds, Histories.Consistent, AfterGenerate, TimelineService.Step, Store.RunCase,
      TimelineService.Enabled, Histories.KeepsRelevant, MatchKey.Identified, EventOf, Provenance.Keyed;
    match op
    case Ingest(t) =>
      IngestKeepsWhole(h, w.tables, t);
      Provenance.StepKeepsKeyed(h.codec, w.tables, t);
    case Generate(caseId, drawn) =>
      Provenance.StepKeepsKeyed(h.codec, w.tables, GenerateCase(caseId));
      GenerateIsStep(h, w.tables, caseId);
      GenerationKeepsWhole(h, w.tables, caseId);
      GenerationKeepsRelevant(h, w, caseId, drawn);
      Histories.ChangeKeepsConsistent(h.env, w.store, Step(h, w, op).store.events);
    case Correlate(caseId, window) =>
      Histories.RunKeepsConsistent(h.env, w.store, caseId, window);
      Histories.RunKeepsEvents(h.env, w.store, caseId, window);
    case Edit(findingId, payload) =>
      Histories.UpdateKeepsConsistent(h.env, w.store, findingId, payload);
  }

  // ----- whole histories

  function Exec(h: Host, w: State, ops: seq<Op>): State {
    if |ops| == 0 then w else Step(h, Exec(h, w, ops[..|ops| - 1]), ops[|ops| - 1])
  }

  ghost predicate AllEnabled(h: Host, w: State, ops: seq<Op>) {
    |ops| > 0 ==>
      AllEnabled(h, w, ops[..|ops| - 1]) && Enabled(h, Exec(h, w, ops[..|ops| - 1]), ops[|ops| - 1])
  }

  /** The history of the store inside a history of the workbench. */
  function StoreOps(h: Host, w: State, ops: seq<Op>): seq<Histories.Op> {
    if |ops| == 0 then []
    else
      var n := |ops| - 1;
      StoreOps(h, w, ops[..n]) + StoreOp(h, Exec(h, w, ops[..n]), ops[n])
  }

  lemma StoreOneMore(env: Store.Env, s: Store.Store, ops: seq<Histories.Op>, op: Histories.Op)
    requires Histories.AllEnabled(env, s, ops) && Histories.Enabled(env, Histories.Exec(env, s, ops), op)
    ensures Histories.AllEnabled(env, s, ops + [op])
    ensures Histories.Exec(env, s, ops + [op]) == Histories.Step(env, Histories.Exec(env, s, ops), op)
  {
    hide Histories.Step, Histories.Enabled;
    assert (ops + [op])[..|ops|] == ops;
    forall i | 0 <= i < |ops + [op]|
      ensures Histories.Enabled(env, Histories.Exec(env, s, (ops + [op])[..i]), (ops + [op])[i])
    {
      if i < |ops| {
        assert (ops + [op])[..i] == ops[..i];
      }
    }
  }

  /**
   Over every history of ingestion, generation, correlation and editing, with rows of any age to
   start from, the events the rules read are the rows of the timeline and both invariants hold;
   and what happens to the store is a history of the store, so all that is true of those is true
   of it.
   */
  lemma {:induction false} InStepAlways(h: Host, w: State, ops: seq<Op>)
    requires InStep(h, w) && AllEnabled(h, w, ops)
    ensures InStep(h, Exec(h, w, ops))
    ensures Histories.AllEnabled(h.env, w.store, StoreOps(h, w, ops))
    ensures Exec(h, w, ops).store == Histories.Exec(h.env, w.store, StoreOps(h, w, ops))
  {
    hide InStep, Step, Enabled, StoreOp, Histories.AllEnabled, Histories.Enabled, Histories.Step;
    if |ops| == 0 {
      NoStoreOps(h.env, w.store);
    } else {
      var n := |ops| - 1;
      InStepAlways(h, w, ops[..n]);
      var v := Exec(h, w, ops[..n]);
      StepKeepsInStep(h, v, ops[n]);
      var done, more := StoreOps(h, w, ops[..n]), StoreOp(h, v, ops[n]);
      AtMostOne(h, v, ops[n]);
      hide Exec;
      if |more| == 0 {
        assert done + more == done;
      } else {
        StoreOneMore(h.env, w.store, done, more[0]);
        assert more == [more[0]];
      }
    }
  }

  lemma AtMostOne(h: Host, w: State, op: Op)
    ensures |StoreOp(h, w, op)| <= 1
  {
  }

  lemma NoStoreOps(env: Store.Env, s: Store.Store)
    ensures Histories.AllEnabled(env, s, []) && Histories.Exec(env, s, []) == s
  {
  }

  lemma EmptyIsInStep(h: Host, cases: set<string>)
    ensures InStep(h, State(Tables(map[], map[], [], [], []), [], Store.Store(cases, [], [], [], [], [], [])))
  {
    EmptyIsExact(h.codec);
    ExactIsUpgradable(h.codec, Tables(map[], map[], [], [], []));
    hide Upgradable;
    Histories.EmptyIsConsistent(h.env, cases);
    hide Histories.Consistent;
  }

  // ----- from a match back to the records

  /** Row k has this identifier, belongs to the case, and is what normalising one of the records of the case yields. */
  ghost predicate RowBehind(h: Host, w: State, k: nat, id: string, caseId: string)
    requires |w.ids| == |w.tables.rows|
  {
    && k < |w.ids| && w.ids[k] == id && w.tables.rows[k].caseId == caseId
    && Provenance.Traceable(h.codec, w.tables, w.tables.rows[k])
  }

  /** Every match, and so every finding, rests on two rows that their records account for in full. */
  lemma EveryMatchHasRecords(h: Host, w: State, i: nat) returns (p: nat, q: nat)
    requires InStep(h, w) && i < |w.store.matches|
    ensures |w.store.links| == 2 * |w.store.matches| && p != q
    ensures RowBehind(h, w, p, w.store.links[2 * i].eventId, w.store.matches[i].caseId)
    ensures RowBehind(h, w, q, w.store.links[2 * i + 1].eventId, w.store.matches[i].caseId)
  {
    hide Upgradable, Histories.Paired, Histories.CreatedAudits, Histories.KeysUnique, Store.RunCandidates, Genuine,
      EventOf, Store.KeyOf, CorrelationCandidates.Relevant, Whole, Histories.TotalMatched, MatchKey.Identified, GoodIds;
    var m := w.store.matches[i];
    assert Histories.LinkedAt(h.env, w.store, i);
    var c :| Histories.Found(h.env, w.store, m.caseId, m.window, c) && Histories.Tells(h.env, w.store, i, c);
    CandidateIsRelevant(h, w.store, m.caseId, m.window, c);
    p := GenuineRow(h, w, c.a);
    q := GenuineRow(h, w, c.b);
  }

  lemma CandidateIsRelevant(h: Host, s: Store.Store, caseId: string, window: int, c: CorrelationCandidates.Candidate)
    requires c in Store.RunCandidates(h.env, s, caseId, window)
    ensures CorrelationCandidates.Relevant(h.env.lib, c.a) && CorrelationCandidates.Relevant(h.env.lib, c.b)
  {
    CorrelationCandidates.CandidateEvents(h.env.lib, Store.EventsOf(s, caseId), window, c);
    Histories.ProcessesAreRelevant(h.env, c.a);
  }

  lemma GenuineRow(h: Host, w: State, e: CorrelationRules.Event) returns (k: nat)
    requires InStep(h, w) && e in w.store.events && CorrelationCandidates.Relevant(h.env.lib, e)
    ensures k < |w.ids| && EventOf(w.ids[k], w.tables.rows[k]) == e && w.ids[k] == e.id
    ensures RowBehind(h, w, k, e.id, e.caseId)
  {
    hide Upgradable, Genuine, Whole, Histories.Consistent, CorrelationCandidates.Relevant, GoodIds, MetaOf;
    k :| 0 <= k < |w.store.events| && w.store.events[k] == e;
    if !Genuine(h.codec, w.tables, w.tables.rows[k]) {
      UnstampedIsIrrelevant(h, w.tables, w.tables.rows[k], w.ids[k]);
    }
    Provenance.GenuineIsTraceable(h.codec, w.tables, w.tables.rows[k]);
  }

  // ----- from the records to the matches

  /** The event is row k as the rules read it, and the row comes from normalising the case as it stood in s. */
  predicate Presents(h: Host, s: Tables, v: State, caseId: string, k: nat, e: CorrelationRules.Event)
    requires |v.ids| == |v.tables.rows|
  {
    k < |v.ids| && v.tables.rows[k] in ValuesOf(h.codec, s, caseId) && e == EventOf(v.ids[k], v.tables.rows[k])
  }

  /** After a generation, what a run of the case reads is exactly what normalising the records of the case yields. */
  lemma RunSeesTheCase(h: Host, w: State, caseId: string, drawn: seq<string>, e: CorrelationRules.Event)
    requires InStep(h, w) && Enabled(h, w, Generate(caseId, drawn))
    ensures var v := Step(h, w, Generate(caseId, drawn));
      && |v.ids| == |v.tables.rows|
      && (e in Store.EventsOf(v.store, caseId) <==> exists k: nat :: Presents(h, w.tables, v, caseId, k, e))
  {
    hide ValuesOf, MetaOf, AfterGenerate, Histories.Consistent, RowsWhole, Upgradable, GoodIds, MatchKey.Identified;
    var v := Step(h, w, Generate(caseId, drawn));
    StepKeepsInStep(h, w, Generate(caseId, drawn));
    IdsOfEvents(v.ids, v.tables.rows);
    Histories.EventsOfMembers(v.store, caseId);
    hide Store.EventsOf, InStep, Enabled;
    forall k: nat | k < |v.ids|
      ensures v.tables.rows[k] in ValuesOf(h.codec, w.tables, caseId) <==> v.tables.rows[k].caseId == caseId
    {
      ValuesAreOfTheCase(h.codec, w.tables, caseId, v.tables.rows[k]);
      if v.tables.rows[k].caseId == caseId {
        NothingLostNothingInvented(h.codec, w.tables, caseId, v.tables.rows[k]);
      }
    }
    if e in Store.EventsOf(v.store, caseId) {
      var k: nat :| k < |v.store.events| && v.store.events[k] == e;
      assert Presents(h, w.tables, v, caseId, k, e);
    }
    if k: nat :| Presents(h, w.tables, v, caseId, k, e) {
      assert v.store.events[k] == e && e.caseId == caseId;
    }
  }

  lemma ValuesAreOfTheCase(c: Codec, s: Tables, caseId: string, row: Row)
    ensures row in ValuesOf(c, s, caseId) ==> row.caseId == caseId
  {
    hide EventsOf, ValuesOf, BelongsTo;
    ValuesMembers(c, s, caseId, row);
  }
}
