/** Where each row of the timeline comes from, identifier by identifier. */
module Provenance {
  import opened Wrappers
  import opened Ordering
  import opened TimelineNormalizer
  import opened TimelineService
  import CorrelationRules

  /** Artifacts are found under their own identifiers. */
  predicate Keyed(s: Tables) {
    forall id :: id in s.artifacts ==> s.artifacts[id].id == id
  }

  /** The row names this record, its artifact, the artifact's evidence and type, and the evidence's case. */
  predicate NamesOrigin(s: Tables, row: Row, r: ArtifactRecord) {
    && r in s.records && r.artifactId in s.artifacts
    && row.recordId == r.id && row.artifactId == r.artifactId
    && row.evidenceId == s.artifacts[r.artifactId].evidenceId && row.kind == s.artifacts[r.artifactId].kind
    && row.evidenceId in s.caseOf && s.caseOf[row.evidenceId] == row.caseId
  }

  /** And it tells one of the events that normalising the record yields. */
  predicate TellsOf(c: Codec, s: Tables, row: Row, r: ArtifactRecord) {
    NamesOrigin(s, row, r) && row.event in Normalize(c, row.kind, r).events
  }

  ghost predicate Traceable(c: Codec, s: Tables, row: Row) {
    exists r :: TellsOf(c, s, row, r)
  }

  /** Up to the three identity entries of its metadata. */
  ghost predicate NearlyTraceable(c: Codec, s: Tables, row: Row) {
    exists r, e :: NamesOrigin(s, row, r) && e in Normalize(c, row.kind, r).events && SameButIdentity(row.event, e)
  }

  predicate SameButIdentity(d: TimelineEvent, e: TimelineEvent) {
    var identity := {"process_path", "process_name", "process_identity_source"};
    && d == e.(metadata := d.metadata)
    && d.metadata.Keys <= e.metadata.Keys <= d.metadata.Keys + identity
    && forall key :: key in d.metadata && key !in identity ==> d.metadata[key] == e.metadata[key]
  }

  lemma GenuineIsTraceable(c: Codec, s: Tables, row: Row)
    requires Keyed(s)
    ensures Genuine(c, s, row) <==> Traceable(c, s, row)
  {
    hide Normalize;
    if Genuine(c, s, row) {
      var r, e :| Yields(c, s, row.caseId, r, e, row);
      assert TellsOf(c, s, row, r);
    }
    if r :| TellsOf(c, s, row, r) {
      assert Yields(c, s, row.caseId, r, row.event, row);
    }
  }

  lemma AgedIsNearlyTraceable(c: Codec, s: Tables, row: Row)
    requires Keyed(s) && Aged(c, s, row)
    ensures NearlyTraceable(c, s, row)
  {
    hide Normalize, Genuine;
    var now :| AgedFrom(c, s, row, now);
    GenuineIsTraceable(c, s, now);
    var r :| TellsOf(c, s, now, r);
    assert NamesOrigin(s, row, r) && SameButIdentity(row.event, now.event);
  }

  lemma StepKeepsKeyed(c: Codec, s: Tables, op: Op)
    requires Keyed(s)
    ensures Keyed(Step(c, s, op))
  {
    hide InsertAll, ValuesOf, Backfilled, Silent, ArtifactCount;
  }

  lemma {:induction false} KeyedAlways(c: Codec, s: Tables, ops: seq<Op>)
    requires Keyed(s)
    ensures Keyed(Exec(c, s, ops))
  {
    hide Step, Keyed;
    if |ops| > 0 {
      KeyedAlways(c, s, ops[..|ops| - 1]);
      StepKeepsKeyed(c, Exec(c, s, ops[..|ops| - 1]), ops[|ops| - 1]);
    }
  }

  /** Over every history each row can be traced to its record, artifact, evidence and case. */
  lemma TraceableAlways(c: Codec, s: Tables, ops: seq<Op>)
    requires Keyed(s) && Exact(c, s) && TotalCreated(s.audits) == |s.rows| && AllEnabled(c, s, ops)
    ensures var t := Exec(c, s, ops); forall i :: 0 <= i < |t.rows| ==> Traceable(c, t, t.rows[i])
  {
    hide Genuine, Traceable, Exec, Keyed;
    ExactAlways(c, s, ops);
    KeyedAlways(c, s, ops);
    var t := Exec(c, s, ops);
    forall i | 0 <= i < |t.rows|
      ensures Traceable(c, t, t.rows[i])
    {
      GenuineIsTraceable(c, t, t.rows[i]);
    }
  }

  /** The same on rows of any age, up to their identity entries, and in full once their case has been generated. */
  lemma NearlyTraceableAlways(c: Codec, s: Tables, ops: seq<Op>)
    requires Keyed(s) && Upgradable(c, s) && AllEnabled(c, s, ops)
    ensures var t := Exec(c, s, ops);
      forall i :: 0 <= i < |t.rows| ==>
        && NearlyTraceable(c, t, t.rows[i])
        && (GenerateCase(t.rows[i].caseId) in ops ==> Traceable(c, t, t.rows[i]))
  {
    hide Genuine, Traceable, NearlyTraceable, Aged, Exec, Keyed;
    RepairedAlways(c, s, ops);
    KeyedAlways(c, s, ops);
    var t := Exec(c, s, ops);
    forall i | 0 <= i < |t.rows|
      ensures NearlyTraceable(c, t, t.rows[i])
      ensures GenerateCase(t.rows[i].caseId) in ops ==> Traceable(c, t, t.rows[i])
    {
      AgedIsNearlyTraceable(c, t, t.rows[i]);
      GenuineIsTraceable(c, t, t.rows[i]);
      assert CaseGenuine(c, t, t.rows[i].caseId) ==> Genuine(c, t, t.rows[i]);
    }
  }

  /** After a generation the case's rows are exactly what its records, artifacts and evidence make of its events. */
  lemma CaseIsTold(c: Codec, s: Tables, caseId: string, row: Row)
    requires Keyed(s) && Upgradable(c, s) && row.caseId == caseId
    ensures row in AfterGenerate(c, s, caseId).rows <==> Traceable(c, s, row)
  {
    hide Normalize, AfterGenerate, ValuesOf;
    NothingLostNothingInvented(c, s, caseId, row);
    ValuesMembers(c, s, caseId, row);
    GenuineIsTraceable(c, s, row);
    if Genuine(c, s, row) {
      var r, e :| Yields(c, s, row.caseId, r, e, row);
    }
  }

  // ----- the counts

  /** The records of the case, counted, and those that yield nothing. */
  lemma {:induction false} SilentCounted(c: Codec, s: Tables, rs: seq<ArtifactRecord>)
    ensures Silent(c, s, rs) == |Filter(rs, (r: ArtifactRecord) => |EventsOf(c, s, r)| == 0)|
  {
    if |rs| > 0 {
      SilentCounted(c, s, rs[..|rs| - 1]);
    }
  }

  /** One record of the case. */
  predicate InCase(s: Tables, r: ArtifactRecord, caseId: string) {
    && r.artifactId in s.artifacts && s.artifacts[r.artifactId].evidenceId in s.caseOf
    && s.caseOf[s.artifacts[r.artifactId].evidenceId] == caseId
  }

  /** What the audit of a generation says, and that one is written. */
  lemma AuditTells(c: Codec, s: Tables, caseId: string)
    requires RecordIdsDistinct(s.records)
    ensures var t := AfterGenerate(c, s, caseId); var n := |s.audits|;
      && |t.audits| == n + 1 && t.audits[..n] == s.audits && t.audits[n].caseId == caseId
      && t.audits[n].records == |Filter(s.records, (r: ArtifactRecord) => InCase(s, r, caseId))|
      && t.audits[n].artifacts
         == |set id | id in s.artifacts && s.artifacts[id].evidenceId in s.caseOf
                     && s.caseOf[s.artifacts[id].evidenceId] == caseId|
      && t.audits[n].created == |t.rows| - |s.rows|
      && t.caseOf == s.caseOf && t.artifacts == s.artifacts && t.records == s.records
  {
    hide InsertAll, ValuesOf, Backfilled, Silent, Filter;
    FilterCong(s.records, (r: ArtifactRecord) => BelongsTo(s, r, caseId), (r: ArtifactRecord) => InCase(s, r, caseId));
  }
}
