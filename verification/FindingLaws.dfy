/** What a run writes for each new match, and what an update of a finding may change. */
module FindingLaws {
  import opened Wrappers
  import opened Ordering
  import opened CorrelationRules
  import opened CorrelationCandidates
  import opened CorrelationStore
  import opened CorrelationInvariants
  import opened MatchKey

  // ----- updates

  /** The four moves that the life of a finding allows. */
  predicate Allowed(from: Status, to: Status) {
    || (from == Open && to in {Reviewed, Dismissed})
    || (from == Reviewed && to in {Resolved, Dismissed})
  }

  /** A status is refused only if it is sent, is another one, and is not one move away. */
  predicate Refuses(f: Finding, p: Payload) {
    p.status.Given? && p.status.value != f.status && !Allowed(f.status, p.status.value)
  }

  /** Each field is what was sent, if something was; null clears the notes and nothing else. */
  predicate Edited(f: Finding, p: Payload, g: Finding) {
    && g.status == (if p.status.Given? then p.status.value else f.status)
    && g.severity == (if p.severity.Given? then p.severity.value else f.severity)
    && g.confidence == (if p.confidence.Given? then p.confidence.value else f.confidence)
    && g.notes == (if p.notes.Given? then Some(p.notes.value) else if p.notes.Null? then None else f.notes)
    && g.caseId == f.caseId && g.runId == f.runId && g.matchId == f.matchId && g.rule == f.rule && g.key == f.key
  }

  /** The audits name the fields sent, and the change of status if there was one. */
  predicate Recorded(f: Finding, p: Payload, g: Finding, findingId: nat, before: seq<Audit>, after: seq<Audit>) {
    && |after| == |before| + (if f.status != g.status then 2 else 1) && after[..|before|] == before
    && Names(after[|before|], f, p, findingId)
    && (f.status != g.status ==> after[|before| + 1] == StatusChanged(f.caseId, findingId, f.status, g.status))
  }

  predicate Names(a: Audit, f: Finding, p: Payload, findingId: nat) {
    && a.FindingUpdated? && a.caseId == f.caseId && a.findingId == findingId
    && (StatusField in a.fields <==> !p.status.Absent?) && (SeverityField in a.fields <==> !p.severity.Absent?)
    && (ConfidenceField in a.fields <==> !p.confidence.Absent?) && (NotesField in a.fields <==> !p.notes.Absent?)
  }

  lemma ConflictIff(f: Finding, p: Payload)
    ensures Conflicts(f, p) <==> Refuses(f, p)
  {
  }

  /** The whole of an update: a refused one does nothing, any other edits one finding and records it. */
  lemma UpdateTells(s: Store, findingId: nat, p: Payload)
    requires findingId < |s.findings|
    ensures var t := UpdateOne(s, findingId, p);
      if Refuses(s.findings[findingId], p) then t == s
      else
        && t == s.(findings := t.findings, audits := t.audits) && |t.findings| == |s.findings|
        && (forall i :: 0 <= i < |s.findings| && i != findingId ==> t.findings[i] == s.findings[i])
        && Edited(s.findings[findingId], p, t.findings[findingId])
        && Recorded(s.findings[findingId], p, t.findings[findingId], findingId, s.audits, t.audits)
  {
    ConflictIff(s.findings[findingId], p);
    hide Conflicts, Transitions;
  }

  // ----- new findings

  /** The key of a match is the digest of a text that names the case, the rule, the two events and how they matched. */
  lemma MatchKeySpells(env: Env, caseId: string, c: Candidate, rule: string, basis: string, first: string,
                       second: string)
    requires KnownAs(c.rule, rule, c.basis, basis) && InOrder(c.a.id, c.b.id, first, second)
    ensures var text := rule + "|" + ("1.0.0" + "|" + (first + "|" + (second + "|" + (basis + "|" + c.identity))));
      KeyOf(env, caseId, c) == env.digest(caseId + "|" + text)
  {
    KeyTextSpells(caseId, c, rule, basis, first, second);
  }

  /** A new finding is open, without notes, and graded by its rule and by how it matched. */
  predicate Fresh(f: Finding, m: Match, caseId: string, runId: nat) {
    && f.caseId == m.caseId == caseId && f.runId == m.runId == runId && f.rule == m.rule
    && f.status == Open && f.notes == None
    && f.severity == (if m.rule == EvtxPrefetch then Medium else Low)
    && f.confidence == (if m.rule in {LnkEvtx, NtfsEvtx, RegistryEvtx} && m.basis == ExactPathMatch
                        then HighConfidence else MediumConfidence)
  }

  ghost predicate FreshFrom(s: Store, t: Store, caseId: string, runId: nat, window: int) {
    && |s.findings| == |s.matches| <= |t.matches| == |t.findings| && t.matches[..|s.matches|] == s.matches
    && t.findings[..|s.findings|] == s.findings
    && forall i :: |s.matches| <= i < |t.matches| ==>
         Fresh(t.findings[i], t.matches[i], caseId, runId) && t.matches[i].window == window
  }

  lemma {:induction false} AddedAreFresh(env: Env, s: Store, runId: nat, caseId: string, window: int,
                                         cs: seq<Candidate>)
    requires |s.findings| == |s.matches|
    ensures FreshFrom(s, AddAll(env, s, runId, caseId, window, cs), caseId, runId, window)
  {
    hide KeyOf, HasKey;
    if |cs| > 0 {
      AddedAreFresh(env, s, runId, caseId, window, cs[..|cs| - 1]);
    }
  }

  /** What a run writes: its own row with what it saw, one audit, and fresh findings for its new matches. */
  lemma RunTells(env: Env, s: Store, caseId: string, window: int)
    requires |s.findings| == |s.matches|
    ensures var t := RunCase(env, s, caseId, window); var n := |s.runs|;
      && FreshFrom(s, t, caseId, n, window)
      && t.cases == s.cases && t.events == s.events
      && |t.runs| == n + 1 && t.runs[..n] == s.runs
      && t.runs[n].caseId == caseId && t.runs[n].window == window
      && t.runs[n].eventCount == |Filter(s.events, (e: Event) => e.caseId == caseId)|
      && t.runs[n].matchedCount == t.runs[n].findingCount == |t.matches| - |s.matches|
      && |t.audits| > |s.audits|
      && t.audits[|t.audits| - 1]
         == CorrelationRan(caseId, n, t.runs[n].eventCount, t.runs[n].matchedCount, t.runs[n].findingCount)
  {
    hide AddAll, RunCandidates, Filter;
    var started, cs := StartRun(s, caseId, window, AllWarnings()), RunCandidates(env, s, caseId, window);
    AddedAreFresh(env, started, |s.runs|, caseId, window, cs);
    AddAllKeeps(env, started, |s.runs|, caseId, window, cs);
    AddAllAudits(env, started, |s.runs|, caseId, window, cs);
  }

  lemma {:induction false} AddAllAudits(env: Env, s: Store, runId: nat, caseId: string, window: int, cs: seq<Candidate>)
    ensures |AddAll(env, s, runId, caseId, window, cs).audits| >= |s.audits|
  {
    hide KeyOf, HasKey;
    if |cs| > 0 {
      AddAllAudits(env, s, runId, caseId, window, cs[..|cs| - 1]);
    }
  }
}
