/** The persistent side of correlation: runs, matches, links, findings and audits. */
module CorrelationStore {
  import opened Wrappers
  import opened Ordering
  import opened CorrelationRules
  import opened JoinProperties
  import opened CorrelationCandidates
  import opened MatchKey

  // ----- rows; a row's identifier is its position in its table

  datatype Role = ProcessCreation | Observation(rule: Rule)
  datatype Status = Open | Reviewed | Resolved | Dismissed
  datatype Severity = Info | Low | Medium | High | Critical
  datatype Confidence = LowConfidence | MediumConfidence | HighConfidence
  datatype RunStatus = Running | CompletedRun | CompletedRunWithWarnings

  datatype Match = Match(runId: nat, caseId: string, rule: Rule, key: string, basis: Basis, identity: string,
                         window: int, signedDelta: int)
  datatype Link = Link(matchId: nat, eventId: string, role: Role, order: nat)
  datatype Finding = Finding(caseId: string, runId: nat, matchId: nat, rule: Rule, status: Status, severity: Severity,
                             confidence: Confidence, key: string, notes: Option<string>)
  datatype RunRow = RunRow(caseId: string, window: int, eventCount: nat, matchedCount: nat, findingCount: nat,
                           status: RunStatus, warnings: seq<RuleWarning>)

  datatype FieldName = StatusField | SeverityField | ConfidenceField | NotesField

  datatype Audit =
    | FindingCreated(caseId: string, findingId: nat, matchId: nat, rule: Rule)
    | CorrelationRan(caseId: string, runId: nat, eventCount: nat, matchCount: nat, findingCount: nat)
    | FindingUpdated(caseId: string, findingId: nat, fields: set<FieldName>)
    | StatusChanged(caseId: string, findingId: nat, before: Status, after: Status)

  datatype Store = Store(cases: set<string>, events: seq<Event>, runs: seq<RunRow>, matches: seq<Match>,
                         links: seq<Link>, findings: seq<Finding>, audits: seq<Audit>)

  /** The host's text functions and SHA-256. */
  datatype Env = Env(lib: TextLib, digest: string -> string)

  // ----- run

  function EventsOf(s: Store, caseId: string): seq<Event> {
    Filter(s.events, (e: Event) => e.caseId == caseId)
  }

  function RunCandidates(env: Env, s: Store, caseId: string, window: int): seq<Candidate> {
    AllCandidates(env.lib, EventsOf(s, caseId), window)
  }

  function KeyOf(env: Env, caseId: string, c: Candidate): string {
    env.digest(KeyText(caseId, c))
  }

  predicate HasKey(matches: seq<Match>, key: string) {
    exists i :: 0 <= i < |matches| && matches[i].key == key
  }

  function SeverityOf(rule: Rule): Severity {
    if rule == EvtxPrefetch then Medium else Low
  }

  function ConfidenceOf(c: Candidate): Confidence {
    if c.rule != EvtxPrefetch && c.basis == ExactPathMatch then HighConfidence else MediumConfidence
  }

  /** A candidate whose key is new adds a match, its two links, a finding and an audit. */
  function AddOne(env: Env, s: Store, runId: nat, caseId: string, window: int, c: Candidate): Store {
    var key := KeyOf(env, caseId, c);
    if HasKey(s.matches, key) then s
    else
      var id := |s.matches|;
      s.(matches := s.matches + [Match(runId, caseId, c.rule, key, c.basis, c.identity, window, c.signedDelta)],
         links := s.links + [Link(id, c.a.id, ProcessCreation, 0), Link(id, c.b.id, Observation(c.rule), 1)],
         findings := s.findings + [Finding(caseId, runId, id, c.rule, Open, SeverityOf(c.rule), ConfidenceOf(c),
                                           env.digest("finding|" + key), None)],
         audits := s.audits + [FindingCreated(caseId, |s.findings|, id, c.rule)])
  }

  function AddAll(env: Env, s: Store, runId: nat, caseId: string, window: int, cs: seq<Candidate>): Store {
    if |cs| == 0 then s
    else AddOne(env, AddAll(env, s, runId, caseId, window, cs[..|cs| - 1]), runId, caseId, window, cs[|cs| - 1])
  }

  function StartRun(s: Store, caseId: string, window: int, warnings: seq<RuleWarning>): Store {
    s.(runs := s.runs + [RunRow(caseId, window, |EventsOf(s, caseId)|, 0, 0, Running, warnings)])
  }

  /** The counts are filled in, and the status follows from the warnings. */
  function FinishRun(s: Store, runId: nat, created: nat): Store
    requires runId < |s.runs|
  {
    var run := s.runs[runId];
    var status := if |run.warnings| > 0 then CompletedRunWithWarnings else CompletedRun;
    s.(runs := s.runs[runId := run.(matchedCount := created, findingCount := created, status := status)],
       audits := s.audits + [CorrelationRan(run.caseId, runId, run.eventCount, created, created)])
  }

  lemma {:induction false} AddAllKeeps(env: Env, s: Store, runId: nat, caseId: string, window: int, cs: seq<Candidate>)
    ensures var r := AddAll(env, s, runId, caseId, window, cs);
      && r.cases == s.cases && r.events == s.events && r.runs == s.runs
      && |s.matches| <= |r.matches| && r.matches[..|s.matches|] == s.matches
  {
    hide KeyOf, HasKey;
    if |cs| > 0 {
      AddAllKeeps(env, s, runId, caseId, window, cs[..|cs| - 1]);
    }
  }

  /** The whole effect of a successful run. */
  function RunCase(env: Env, s: Store, caseId: string, window: int): (t: Store)
    ensures |t.runs| == |s.runs| + 1
  {
    var runId := |s.runs|;
    var added := AddAll(env, StartRun(s, caseId, window, AllWarnings()), runId, caseId, window,
                        RunCandidates(env, s, caseId, window));
    AddAllKeeps(env, StartRun(s, caseId, window, AllWarnings()), runId, caseId, window,
                RunCandidates(env, s, caseId, window));
    FinishRun(added, runId, |added.matches| - |s.matches|)
  }

  // ----- update

  /** A request field: not sent, sent as null, or sent with a value. */
  datatype Sent<+T> = Absent | Null | Given(value: T)

  datatype Payload = Payload(status: Sent<Status>, severity: Sent<Severity>, confidence: Sent<Confidence>,
                             notes: Sent<string>)

  function FieldsSent(p: Payload): set<FieldName> {
    (if p.status.Absent? then {} else {StatusField}) + (if p.severity.Absent? then {} else {SeverityField})
    + (if p.confidence.Absent? then {} else {ConfidenceField}) + (if p.notes.Absent? then {} else {NotesField})
  }

  function Transitions(from: Status): set<Status> {
    match from
    case Open => {Reviewed, Dismissed}
    case Reviewed => {Resolved, Dismissed}
    case Resolved => {}
    case Dismissed => {}
  }

  /** A status that is sent, differs, and is not reachable in one transition. */
  predicate Conflicts(f: Finding, p: Payload) {
    p.status.Given? && p.status.value != f.status && p.status.value !in Transitions(f.status)
  }

  function Applied(f: Finding, p: Payload): Finding {
    f.(status := if p.status.Given? then p.status.value else f.status,
       severity := if p.severity.Given? then p.severity.value else f.severity,
       confidence := if p.confidence.Given? then p.confidence.value else f.confidence,
       notes := match p.notes case Absent => f.notes case Null => None case Given(text) => Some(text))
  }

  predicate Accepts(s: Store, findingId: nat, p: Payload) {
    findingId < |s.findings| && !Conflicts(s.findings[findingId], p)
  }

  /** The effect of an accepted update; a rejected one changes nothing. */
  function UpdateOne(s: Store, findingId: nat, p: Payload): Store {
    if !Accepts(s, findingId, p) then s
    else
      var f := s.findings[findingId];
      var g := Applied(f, p);
      s.(findings := s.findings[findingId := g],
         audits := s.audits + [FindingUpdated(f.caseId, findingId, FieldsSent(p))]
                   + if g.status != f.status then [StatusChanged(f.caseId, findingId, f.status, g.status)] else [])
  }

  // ----- the service

  datatype RunOutcome = Ran(runId: nat) | CaseNotFound | RunNotPersisted
  datatype UpdateOutcome = Updated | FindingNotFound | TransitionRefused | UpdateNotPersisted

  /** The correlation service over the committed tables.  A failed statement rolls back. */
  class CorrelationService {
    const env: Env
    var cases: set<string>
    var events: seq<Event>
    var runs: seq<RunRow>
    var matches: seq<Match>
    var links: seq<Link>
    var findings: seq<Finding>
    var audits: seq<Audit>

    constructor (env: Env)
      ensures this.env == env && Contents() == Store({}, [], [], [], [], [], [])
    {
      this.env := env;
      cases, events, runs, matches, links, findings, audits := {}, [], [], [], [], [], [];
    }

    function Contents(): Store
      reads this
    {
      Store(cases, events, runs, matches, links, findings, audits)
    }

    method Commit(s: Store)
      modifies this
      ensures Contents() == s
    {
      cases, events, runs, matches, links, findings, audits := s.cases, s.events, s.runs, s.matches, s.links,
        s.findings, s.audits;
    }

    /** failAt is the candidate at which a statement fails, or any later number for the commit itself. */
    method Run(caseId: string, window: int, failAt: Option<nat>) returns (r: RunOutcome)
      modifies this
      ensures r.CaseNotFound? <==> caseId !in old(cases)
      ensures r.RunNotPersisted? <==> caseId in old(cases) && failAt.Some?
      ensures !r.Ran? ==> Contents() == old(Contents())
      ensures r.Ran? ==> r.runId == |old(runs)| && Contents() == RunCase(env, old(Contents()), caseId, window)
    {
      hide AllCandidates, AddOne;
      if caseId !in cases {
        return CaseNotFound;
      }
      var before := Contents();
      var candidates, warnings := EvaluateRules(env.lib, EventsOf(before, caseId), window);
      var runId := |runs|;
      var session := StartRun(before, caseId, window, warnings);
      ghost var started := session;
      var matchesCreated := 0;
      for i := 0 to |candidates|
        invariant session == AddAll(env, started, runId, caseId, window, candidates[..i])
        invariant matchesCreated == |session.matches| - |matches|
        invariant Contents() == before
      {
        if failAt == Some(i) {
          return RunNotPersisted;
        }
        assert candidates[..i + 1][..i] == candidates[..i];
        AddOneGrows(env, session, runId, caseId, window, candidates[i]);
        if !HasKey(session.matches, KeyOf(env, caseId, candidates[i])) {
          matchesCreated := matchesCreated + 1;
        }
        session := AddOne(env, session, runId, caseId, window, candidates[i]);
      }
      assert candidates[..|candidates|] == candidates;
      AddAllKeeps(env, started, runId, caseId, window, candidates);
      session := FinishRun(session, runId, matchesCreated);
      if failAt.Some? {
        return RunNotPersisted;
      }
      Commit(session);
      return Ran(runId);
    }

    method UpdateFinding(findingId: nat, payload: Payload, fails: bool) returns (r: UpdateOutcome)
      modifies this
      ensures r.FindingNotFound? <==> findingId >= |old(findings)|
      ensures r.TransitionRefused? <==> findingId < |old(findings)| && Conflicts(old(findings)[findingId], payload)
      ensures r.UpdateNotPersisted? <==> Accepts(old(Contents()), findingId, payload) && fails
      ensures r.Updated? ==> Contents() == UpdateOne(old(Contents()), findingId, payload)
      ensures !r.Updated? ==> Contents() == old(Contents())
    {
      if findingId >= |findings| {
        return FindingNotFound;
      }
      var finding := findings[findingId];
      var oldStatus := finding.status;
      if payload.status.Given? && payload.status.value != finding.status {
        if payload.status.value !in Transitions(finding.status) {
          return TransitionRefused;
        }
        finding := finding.(status := payload.status.value);
      }
      if payload.severity.Given? {
        finding := finding.(severity := payload.severity.value);
      }
      if payload.confidence.Given? {
        finding := finding.(confidence := payload.confidence.value);
      }
      if !payload.notes.Absent? {
        finding := finding.(notes := if payload.notes.Given? then Some(payload.notes.value) else None);
      }
      var trail := [FindingUpdated(finding.caseId, findingId, FieldsSent(payload))];
      if finding.status != oldStatus {
        trail := trail + [StatusChanged(finding.caseId, findingId, oldStatus, finding.status)];
      }
      if fails {
        return UpdateNotPersisted;
      }
      findings, audits := findings[findingId := finding], audits + trail;
      return Updated;
    }
  }

  lemma AddOneGrows(env: Env, s: Store, runId: nat, caseId: string, window: int, c: Candidate)
    ensures |AddOne(env, s, runId, caseId, window, c).matches|
         == |s.matches| + if HasKey(s.matches, KeyOf(env, caseId, c)) then 0 else 1
  {
  }
}
