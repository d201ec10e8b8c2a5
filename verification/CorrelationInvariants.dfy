/** What every interleaving of appends, runs and updates keeps, and what runs add up to. */
module CorrelationInvariants {
  import opened Wrappers
  import opened Ordering
  import opened CorrelationRules
  import opened JoinProperties
  import opened CorrelationCandidates
  import opened MatchKey
  import opened CorrelationStore

  // ----- the invariant

  predicate KeysUnique(matches: seq<Match>) {
    forall i, j :: 0 <= i < j < |matches| ==> matches[i].key != matches[j].key
  }

  /** Match i and finding i belong together. */
  predicate OneToOne(env: Env, s: Store) {
    |s.findings| == |s.matches| && forall i :: 0 <= i < |s.matches| ==> Paired(env, s.matches[i], s.findings[i], i)
  }

  predicate Paired(env: Env, m: Match, f: Finding, i: nat) {
    f.matchId == i && f.key == env.digest("finding|" + m.key) && f.caseId == m.caseId && f.runId == m.runId
       && f.rule == m.rule
  }

  /**
   Each match has exactly two links, in order, to the two events of a candidate that its rule
   finds in its window, and carries that candidate's key, basis and identity.
   */
  ghost predicate Linked(env: Env, s: Store) {
    |s.links| == 2 * |s.matches| && forall i :: 0 <= i < |s.matches| ==> LinkedAt(env, s, i)
  }

  ghost predicate LinkedAt(env: Env, s: Store, i: nat)
    requires i < |s.matches| && |s.links| == 2 * |s.matches|
  {
    exists c :: Found(env, s, s.matches[i].caseId, s.matches[i].window, c) && Tells(env, s, i, c)
  }

  /** A candidate of the events now in the store, between two different ones of the case. */
  predicate Found(env: Env, s: Store, caseId: string, window: int, c: Candidate) {
    && c in RunCandidates(env, s, caseId, window)
    && c.a in s.events && c.b in s.events && c.a != c.b && c.a.caseId == c.b.caseId == caseId
  }

  predicate Tells(env: Env, s: Store, i: nat, c: Candidate)
    requires i < |s.matches| && |s.links| == 2 * |s.matches|
  {
    var m := s.matches[i];
    && m.key == KeyOf(env, m.caseId, c) && m.rule == c.rule && m.basis == c.basis && m.identity == c.identity
    && m.signedDelta == c.signedDelta
    && s.links[2 * i] == Link(i, c.a.id, ProcessCreation, 0)
    && s.links[2 * i + 1] == Link(i, c.b.id, Observation(c.rule), 1)
  }

  function TotalMatched(runs: seq<RunRow>): nat {
    if |runs| == 0 then 0 else TotalMatched(runs[..|runs| - 1]) + runs[|runs| - 1].matchedCount
  }

  function CreatedAudits(audits: seq<Audit>): seq<Audit> {
    Filter(audits, (a: Audit) => a.FindingCreated?)
  }

  /** Every match was created by one recorded run and audited once, in order. */
  predicate Accounted(s: Store) {
    && TotalMatched(s.runs) == |s.matches| == |CreatedAudits(s.audits)|
    && (forall i :: 0 <= i < |s.matches| ==> s.matches[i].runId < |s.runs| && CreatedAudits(s.audits)[i].FindingCreated?
                                             && CreatedAudits(s.audits)[i].findingId == i
                                             && CreatedAudits(s.audits)[i].matchId == i)
    && (forall k :: 0 <= k < |s.runs| ==> s.runs[k].findingCount == s.runs[k].matchedCount)
  }

  ghost predicate Consistent(env: Env, s: Store) {
    KeysUnique(s.matches) && OneToOne(env, s) && Linked(env, s) && Accounted(s) && Identified(s.events)
  }

  // ----- one candidate

  lemma AddOneKeysUnique(env: Env, s: Store, runId: nat, caseId: string, window: int, c: Candidate)
    requires KeysUnique(s.matches)
    ensures KeysUnique(AddOne(env, s, runId, caseId, window, c).matches)
  {
    hide KeyOf;
  }

  lemma AddOneOneToOne(env: Env, s: Store, runId: nat, caseId: string, window: int, c: Candidate)
    requires OneToOne(env, s)
    ensures OneToOne(env, AddOne(env, s, runId, caseId, window, c))
  {
    hide KeyOf, HasKey;
  }

  lemma AddOneLinked(env: Env, s: Store, runId: nat, caseId: string, window: int, c: Candidate)
    requires Linked(env, s) && Found(env, s, caseId, window, c)
    ensures Linked(env, AddOne(env, s, runId, caseId, window, c))
  {
    var r := AddOne(env, s, runId, caseId, window, c);
    hide RunCandidates, KeyOf, HasKey;
    if |r.matches| > |s.matches| {
      var n := |s.matches|;
      forall i | 0 <= i < |r.matches|
        ensures LinkedAt(env, r, i)
      {
        if i < n {
          LinkStays(env, s, r, i);
        } else {
          SameEventsSameCandidates(env, s, r, caseId);
          assert Found(env, r, caseId, window, c) && Tells(env, r, n, c);
        }
      }
    }
  }

  /** A linked match stays linked while the rows are only added to. */
  lemma LinkStays(env: Env, s: Store, r: Store, i: nat)
    requires i < |s.matches| <= |r.matches| && |s.links| == 2 * |s.matches| && |r.links| == 2 * |r.matches|
    requires LinkedAt(env, s, i) && r.matches[i] == s.matches[i] && r.links[..|s.links|] == s.links
             && r.events == s.events
    ensures LinkedAt(env, r, i)
  {
    hide RunCandidates, KeyOf;
    var m := s.matches[i];
    var c :| Found(env, s, m.caseId, m.window, c) && Tells(env, s, i, c);
    SameEventsSameCandidates(env, s, r, m.caseId);
    assert r.links[2 * i] == r.links[..|s.links|][2 * i] && r.links[2 * i + 1] == r.links[..|s.links|][2 * i + 1];
    assert Found(env, r, m.caseId, m.window, c) && Tells(env, r, i, c);
  }

  /** Creation audits, one per match, as the adding loop leaves them. */
  predicate Audited(s: Store) {
    && |s.findings| == |s.matches| == |CreatedAudits(s.audits)|
    && forall i :: 0 <= i < |s.matches| ==> CreatedAudits(s.audits)[i].FindingCreated?
                                            && CreatedAudits(s.audits)[i].findingId == i
                                            && CreatedAudits(s.audits)[i].matchId == i
  }

  lemma CreatedAppends(audits: seq<Audit>, a: Audit)
    ensures CreatedAudits(audits + [a]) == CreatedAudits(audits) + if a.FindingCreated? then [a] else []
  {
    assert (audits + [a])[..|audits|] == audits;
  }

  lemma AddOneAudited(env: Env, s: Store, runId: nat, caseId: string, window: int, c: Candidate)
    requires Audited(s)
    ensures Audited(AddOne(env, s, runId, caseId, window, c))
  {
    hide KeyOf, HasKey, CreatedAudits;
    CreatedAppends(s.audits, FindingCreated(caseId, |s.findings|, |s.matches|, c.rule));
  }

  lemma AddOneRuns(env: Env, s: Store, runId: nat, caseId: string, window: int, c: Candidate)
    requires forall i :: 0 <= i < |s.matches| ==> s.matches[i].runId <= runId
    ensures var r := AddOne(env, s, runId, caseId, window, c);
      forall i :: 0 <= i < |r.matches| ==> r.matches[i].runId <= runId
  {
    hide KeyOf, HasKey;
  }

  // ----- all candidates of a run

  ghost predicate AddingKeeps(env: Env, s: Store, runId: nat) {
    && KeysUnique(s.matches) && OneToOne(env, s) && Linked(env, s) && Audited(s)
    && forall i :: 0 <= i < |s.matches| ==> s.matches[i].runId <= runId
  }

  ghost predicate Suitable(env: Env, s: Store, caseId: string, window: int, cs: seq<Candidate>) {
    forall c :: c in cs ==> Found(env, s, caseId, window, c)
  }

  lemma {:induction false} AddAllAddingKeeps(env: Env, s: Store, runId: nat, caseId: string, window: int,
                                             cs: seq<Candidate>)
    requires AddingKeeps(env, s, runId) && Suitable(env, s, caseId, window, cs)
    ensures AddingKeeps(env, AddAll(env, s, runId, caseId, window, cs), runId)
  {
    hide AddOne, KeysUnique, OneToOne, Linked, Audited, RunCandidates;
    if |cs| > 0 {
      var n := |cs| - 1;
      AddAllAddingKeeps(env, s, runId, caseId, window, cs[..n]);
      AddAllKeeps(env, s, runId, caseId, window, cs[..n]);
      var t := AddAll(env, s, runId, caseId, window, cs[..n]);
      assert cs[n] in cs;
      SameEventsSameCandidates(env, s, t, caseId);
      AddOneKeysUnique(env, t, runId, caseId, window, cs[n]);
      AddOneOneToOne(env, t, runId, caseId, window, cs[n]);
      AddOneLinked(env, t, runId, caseId, window, cs[n]);
      AddOneAudited(env, t, runId, caseId, window, cs[n]);
      AddOneRuns(env, t, runId, caseId, window, cs[n]);
    }
  }

  lemma EventsOfMembers(s: Store, caseId: string)
    requires Identified(s.events)
    ensures Identified(EventsOf(s, caseId))
    ensures forall e :: e in EventsOf(s, caseId) <==> e in s.events && e.caseId == caseId
  {
    hide Filter, BarFree;
    var p := (e: Event) => e.caseId == caseId;
    FilterKeepsIds(s.events, p);
    forall e
      ensures e in Filter(s.events, p) <==> e in s.events && p(e)
    {
      FilterMembers(s.events, p, e);
    }
  }

  lemma RunCandidatesSuit(env: Env, s: Store, caseId: string, window: int)
    requires Identified(s.events)
    ensures Suitable(env, s, caseId, window, RunCandidates(env, s, caseId, window))
  {
    hide EventsOf, AllCandidates;
    EventsOfMembers(s, caseId);
    forall c | c in RunCandidates(env, s, caseId, window)
      ensures Found(env, s, caseId, window, c)
    {
      CandidateEvents(env.lib, EventsOf(s, caseId), window, c);
    }
  }

  lemma FinishAccounts(s: Store, runId: nat, created: nat)
    requires Audited(s) && |s.runs| == runId + 1 && s.runs[runId].matchedCount == s.runs[runId].findingCount == 0
    requires TotalMatched(s.runs[..runId]) + created == |s.matches|
    requires forall i :: 0 <= i < |s.matches| ==> s.matches[i].runId <= runId
    requires forall k :: 0 <= k < runId ==> s.runs[k].findingCount == s.runs[k].matchedCount
    ensures Accounted(FinishRun(s, runId, created))
  {
    hide CreatedAudits;
    var r := FinishRun(s, runId, created);
    CreatedAppends(s.audits, r.audits[|s.audits|]);
    assert r.runs[..runId] == s.runs[..runId];
  }

  lemma RunKeepsConsistent(env: Env, s: Store, caseId: string, window: int)
    requires Consistent(env, s)
    ensures Consistent(env, RunCase(env, s, caseId, window))
  {
    hide AddAll, RunCandidates, KeysUnique, CreatedAudits, Paired, Identified, LinkedAt, TotalMatched;
    var runId, started, cs := |s.runs|, StartRun(s, caseId, window, AllWarnings()),
      RunCandidates(env, s, caseId, window);
    RunCandidatesSuit(env, s, caseId, window);
    SameEventsSameCandidates(env, s, started, caseId);
    assert AddingKeeps(env, started, runId) by { StartedLinked(env, s, started); }
    AddAllAddingKeeps(env, started, runId, caseId, window, cs);
    AddAllKeeps(env, started, runId, caseId, window, cs);
    var added := AddAll(env, started, runId, caseId, window, cs);
    assert added.runs[..runId] == s.runs;
    FinishAccounts(added, runId, |added.matches| - |s.matches|);
    StartedLinked(env, added, FinishRun(added, runId, |added.matches| - |s.matches|));
  }

  lemma StartedLinked(env: Env, s: Store, t: Store)
    requires Linked(env, s) && t.links == s.links && t.matches == s.matches && t.events == s.events
    ensures Linked(env, t)
  {
    hide LinkedAt;
    forall i | 0 <= i < |t.matches|
      ensures LinkedAt(env, t, i)
    {
      LinkStays(env, s, t, i);
    }
  }

  // ----- appends, enrichment and updates

  /** The events that can be part of a candidate are all still there. */
  ghost predicate KeepsRelevant(env: Env, events: seq<Event>, events': seq<Event>) {
    forall e :: e in events && Relevant(env.lib, e) ==> e in events'
  }

  /** The candidate behind a match is still one when events are appended or enriched. */
  lemma LinkOutlivesChange(env: Env, s: Store, events: seq<Event>, i: nat)
    requires i < |s.matches| && |s.links| == 2 * |s.matches| && LinkedAt(env, s, i)
    requires Identified(s.events) && Identified(events) && KeepsRelevant(env, s.events, events)
    ensures LinkedAt(env, s.(events := events), i)
  {
    var m, t := s.matches[i], s.(events := events);
    hide AllCandidates, EventsOf, KeyOf, Identified, Relevant;
    var c :| Found(env, s, m.caseId, m.window, c) && Tells(env, s, i, c);
    EventsOfMembers(s, m.caseId);
    EventsOfMembers(t, m.caseId);
    MoreEventsKeepCandidates(env.lib, EventsOf(s, m.caseId), EventsOf(t, m.caseId), m.window, c);
    CandidateEvents(env.lib, EventsOf(s, m.caseId), m.window, c);
    ProcessesAreRelevant(env, c.a);
    assert Found(env, t, m.caseId, m.window, c) && Tells(env, t, i, c);
  }

  lemma ProcessesAreRelevant(env: Env, e: Event)
    ensures IsProcessEvent(env.lib, e) ==> Relevant(env.lib, e)
  {
  }

  lemma ChangeKeepsConsistent(env: Env, s: Store, events: seq<Event>)
    requires Consistent(env, s) && Identified(events) && KeepsRelevant(env, s.events, events)
    ensures Consistent(env, s.(events := events))
  {
    hide KeysUnique, Paired, CreatedAudits, Identified, TotalMatched, LinkedAt, KeepsRelevant;
    var t := s.(events := events);
    forall i | 0 <= i < |t.matches|
      ensures LinkedAt(env, t, i)
    {
      LinkOutlivesChange(env, s, events, i);
    }
  }

  lemma UpdateKeepsConsistent(env: Env, s: Store, findingId: nat, p: Payload)
    requires Consistent(env, s)
    ensures Consistent(env, UpdateOne(s, findingId, p))
  {
    hide KeysUnique, CreatedAudits, Identified, TotalMatched, LinkedAt, Conflicts;
    var t := UpdateOne(s, findingId, p);
    StartedLinked(env, s, t);
    if Accepts(s, findingId, p) {
      var f := s.findings[findingId];
      var first := FindingUpdated(f.caseId, findingId, FieldsSent(p));
      CreatedAppends(s.audits, first);
      CreatedAppends(s.audits + [first], StatusChanged(f.caseId, findingId, f.status, Applied(f, p).status));
      assert s.audits + [first] + [] == s.audits + [first];
    }
  }

  // ----- every interleaving

  datatype Op =
    | Append(events: seq<Event>)
    | Enrich(events: seq<Event>)
    | Run(caseId: string, window: int)
    | Update(findingId: nat, payload: Payload)

  /**
   New event rows have fresh identifiers, enrichment rewrites events that could not be part of a
   candidate so far, and runs are for existing cases.
   */
  ghost predicate Enabled(env: Env, s: Store, op: Op) {
    match op
    case Append(events) => Identified(s.events + events)
    case Enrich(events) => Identified(events) && KeepsRelevant(env, s.events, events)
    case Run(caseId, _) => caseId in s.cases && BarFree(caseId)
    case Update(_, _) => true
  }

  function Step(env: Env, s: Store, op: Op): Store {
    match op
    case Append(events) => s.(events := s.events + events)
    case Enrich(events) => s.(events := events)
    case Run(caseId, window) => RunCase(env, s, caseId, window)
    case Update(findingId, payload) => UpdateOne(s, findingId, payload)
  }

  function Exec(env: Env, s: Store, ops: seq<Op>): Store {
    if |ops| == 0 then s else Step(env, Exec(env, s, ops[..|ops| - 1]), ops[|ops| - 1])
  }

  ghost predicate AllEnabled(env: Env, s: Store, ops: seq<Op>) {
    forall i :: 0 <= i < |ops| ==> Enabled(env, Exec(env, s, ops[..i]), ops[i])
  }

  lemma AllEnabledPrefix(env: Env, s: Store, ops: seq<Op>, n: nat)
    requires AllEnabled(env, s, ops) && n <= |ops|
    ensures AllEnabled(env, s, ops[..n])
  {
    hide Exec, Enabled;
    forall i | 0 <= i < n
      ensures Enabled(env, Exec(env, s, ops[..n][..i]), ops[..n][i])
    {
      assert ops[..n][..i] == ops[..i];
    }
  }

  /** Safety over whole histories. */
  lemma {:induction false} ConsistentAlways(env: Env, s: Store, ops: seq<Op>)
    requires Consistent(env, s) && AllEnabled(env, s, ops)
    ensures Consistent(env, Exec(env, s, ops))
  {
    hide Consistent, RunCase, UpdateOne;
    if |ops| > 0 {
      var n := |ops| - 1;
      AllEnabledPrefix(env, s, ops, n);
      ConsistentAlways(env, s, ops[..n]);
      var t := Exec(env, s, ops[..n]);
      match ops[n]
      case Append(events) =>
        assert KeepsRelevant(env, t.events, t.events + events);
        ChangeKeepsConsistent(env, t, t.events + events);
      case Enrich(events) => ChangeKeepsConsistent(env, t, events);
      case Run(caseId, window) => RunKeepsConsistent(env, t, caseId, window);
      case Update(findingId, payload) => UpdateKeepsConsistent(env, t, findingId, payload);
    }
  }

  lemma EmptyIsConsistent(env: Env, cases: set<string>)
    ensures Consistent(env, Store(cases, [], [], [], [], [], []))
  {
  }

  // ----- the match keys are exactly the candidate keys of the runs so far

  function KeySet(matches: seq<Match>): set<string> {
    set i | 0 <= i < |matches| :: matches[i].key
  }

  function CandidateKeySet(env: Env, caseId: string, cs: seq<Candidate>): set<string> {
    set i | 0 <= i < |cs| :: KeyOf(env, caseId, cs[i])
  }

  lemma AddOneKeySet(env: Env, s: Store, runId: nat, caseId: string, window: int, c: Candidate)
    ensures KeySet(AddOne(env, s, runId, caseId, window, c).matches) == KeySet(s.matches) + {KeyOf(env, caseId, c)}
  {
    hide KeyOf;
    var r := AddOne(env, s, runId, caseId, window, c);
    if !HasKey(s.matches, KeyOf(env, caseId, c)) {
      assert r.matches[|s.matches|].key == KeyOf(env, caseId, c);
      assert forall i :: 0 <= i < |s.matches| ==> r.matches[i] == s.matches[i];
    }
  }

  lemma {:induction false} AddAllKeySet(env: Env, s: Store, runId: nat, caseId: string, window: int, cs: seq<Candidate>)
    ensures KeySet(AddAll(env, s, runId, caseId, window, cs).matches)
         == KeySet(s.matches) + CandidateKeySet(env, caseId, cs)
  {
    hide KeyOf, AddOne, KeySet;
    if |cs| > 0 {
      var n := |cs| - 1;
      AddAllKeySet(env, s, runId, caseId, window, cs[..n]);
      AddOneKeySet(env, AddAll(env, s, runId, caseId, window, cs[..n]), runId, caseId, window, cs[n]);
      assert CandidateKeySet(env, caseId, cs) == CandidateKeySet(env, caseId, cs[..n]) + {KeyOf(env, caseId, cs[n])};
    }
  }

  lemma RunKeySet(env: Env, s: Store, caseId: string, window: int)
    ensures KeySet(RunCase(env, s, caseId, window).matches)
         == KeySet(s.matches) + CandidateKeySet(env, caseId, RunCandidates(env, s, caseId, window))
  {
    hide AddAll, RunCandidates, KeySet, CandidateKeySet;
    AddAllKeySet(env, StartRun(s, caseId, window, AllWarnings()), |s.runs|, caseId, window,
                 RunCandidates(env, s, caseId, window));
  }

  /** The candidate keys of every run of a history, each on the events present at the time. */
  function Covered(env: Env, s: Store, ops: seq<Op>): set<string> {
    if |ops| == 0 then {}
    else
      var before := Exec(env, s, ops[..|ops| - 1]);
      Covered(env, s, ops[..|ops| - 1])
      + match ops[|ops| - 1]
        case Append(_) => {}
        case Enrich(_) => {}
        case Run(caseId, window) => CandidateKeySet(env, caseId, RunCandidates(env, before, caseId, window))
        case Update(_, _) => {}
  }

  /** Nothing is matched that no run found, and nothing a run found is lost. */
  lemma {:induction false} MatchesAreCovered(env: Env, s: Store, ops: seq<Op>)
    ensures KeySet(Exec(env, s, ops).matches) == KeySet(s.matches) + Covered(env, s, ops)
  {
    hide RunCase, KeySet, CandidateKeySet, RunCandidates;
    if |ops| > 0 {
      var n := |ops| - 1;
      MatchesAreCovered(env, s, ops[..n]);
      var t := Exec(env, s, ops[..n]);
      if ops[n].Run? {
        RunKeySet(env, t, ops[n].caseId, ops[n].window);
      }
    }
  }

  // ----- repeating a run

  lemma {:induction false} AddAllOfKnown(env: Env, s: Store, runId: nat, caseId: string, window: int,
                                         cs: seq<Candidate>)
    requires CandidateKeySet(env, caseId, cs) <= KeySet(s.matches)
    ensures AddAll(env, s, runId, caseId, window, cs) == s
  {
    hide KeyOf;
    if |cs| > 0 {
      var n := |cs| - 1;
      assert CandidateKeySet(env, caseId, cs[..n]) <= CandidateKeySet(env, caseId, cs) by {
        assert forall i :: 0 <= i < n ==> cs[..n][i] == cs[i];
      }
      AddAllOfKnown(env, s, runId, caseId, window, cs[..n]);
      assert KeyOf(env, caseId, cs[n]) in CandidateKeySet(env, caseId, cs);
    }
  }

  lemma CandidateKeySetGrows(env: Env, events: seq<Event>, caseId: string, w1: int, w2: int)
    requires w1 <= w2
    ensures CandidateKeySet(env, caseId, AllCandidates(env.lib, events, w1))
         <= CandidateKeySet(env, caseId, AllCandidates(env.lib, events, w2))
  {
    hide KeyOf, AllCandidates;
    var cs, ds := AllCandidates(env.lib, events, w1), AllCandidates(env.lib, events, w2);
    forall key | key in CandidateKeySet(env, caseId, cs)
      ensures key in CandidateKeySet(env, caseId, ds)
    {
      var i :| 0 <= i < |cs| && KeyOf(env, caseId, cs[i]) == key;
      WiderWindowKeepsCandidates(env.lib, events, w1, w2, cs[i]);
      var j :| 0 <= j < |ds| && ds[j] == cs[i];
    }
  }

  /** Running again on the same events, with the same or a narrower window, adds no row but the run and its audit. */
  lemma RepeatedRunAddsNothing(env: Env, s: Store, caseId: string, w1: int, w2: int)
    requires w2 <= w1
    ensures var t := RunCase(env, s, caseId, w1); var u := RunCase(env, t, caseId, w2);
      && u.matches == t.matches && u.findings == t.findings && u.links == t.links && u.events == t.events
      && |u.runs| == |t.runs| + 1 && u.runs[|t.runs|].matchedCount == 0
      && |u.audits| == |t.audits| + 1
  {
    hide AddAll, RunCandidates, KeySet, CandidateKeySet;
    var t := RunCase(env, s, caseId, w1);
    RunKeySet(env, s, caseId, w1);
    RunKeepsEvents(env, s, caseId, w1);
    SameEventsSameCandidates(env, s, t, caseId);
    SameEventsSameCandidates(env, t, StartRun(t, caseId, w2, AllWarnings()), caseId);
    NarrowerIsCovered(env, s, caseId, w1, w2);
    AddAllOfKnown(env, StartRun(t, caseId, w2, AllWarnings()), |t.runs|, caseId, w2, RunCandidates(env, t, caseId, w2));
  }

  lemma NarrowerIsCovered(env: Env, s: Store, caseId: string, w1: int, w2: int)
    requires w2 <= w1
    ensures CandidateKeySet(env, caseId, RunCandidates(env, s, caseId, w2))
         <= CandidateKeySet(env, caseId, RunCandidates(env, s, caseId, w1))
  {
    CandidateKeySetGrows(env, EventsOf(s, caseId), caseId, w2, w1);
  }

  lemma RunKeepsEvents(env: Env, s: Store, caseId: string, window: int)
    ensures RunCase(env, s, caseId, window).events == s.events && RunCase(env, s, caseId, window).cases == s.cases
  {
    hide AddAll, RunCandidates;
    AddAllKeeps(env, StartRun(s, caseId, window, AllWarnings()), |s.runs|, caseId, window,
                RunCandidates(env, s, caseId, window));
  }

  lemma SameEventsSameCandidates(env: Env, s: Store, t: Store, caseId: string)
    requires s.events == t.events
    ensures forall w :: RunCandidates(env, s, caseId, w) == RunCandidates(env, t, caseId, w)
  {
    hide AllCandidates;
  }

  // ----- confluence over windows

  function RunsOf(caseId: string, windows: seq<int>): (ops: seq<Op>)
    ensures |ops| == |windows|
  {
    seq(|windows|, i requires 0 <= i < |windows| => Run(caseId, windows[i]))
  }

  predicate Largest(windows: seq<int>, w: int) {
    w in windows && forall v :: v in windows ==> v <= w
  }

  lemma {:induction false} RunsKeepEvents(env: Env, s: Store, caseId: string, windows: seq<int>)
    ensures Exec(env, s, RunsOf(caseId, windows)).events == s.events
  {
    hide RunCase;
    if |windows| > 0 {
      var n := |windows| - 1;
      assert RunsOf(caseId, windows)[..n] == RunsOf(caseId, windows[..n]);
      RunsKeepEvents(env, s, caseId, windows[..n]);
      RunKeepsEvents(env, Exec(env, s, RunsOf(caseId, windows[..n])), caseId, windows[n]);
    }
  }

  /** However runs over fixed events are ordered, they end with the keys of the largest window. */
  lemma {:induction false} RunsAreConfluent(env: Env, s: Store, caseId: string, windows: seq<int>, w: int)
    requires Largest(windows, w)
    ensures KeySet(Exec(env, s, RunsOf(caseId, windows)).matches)
         == KeySet(s.matches) + CandidateKeySet(env, caseId, RunCandidates(env, s, caseId, w))
    decreases |windows|
  {
    hide RunCase, KeySet, CandidateKeySet, RunCandidates;
    var n := |windows| - 1;
    var t := Exec(env, s, RunsOf(caseId, windows[..n]));
    assert RunsOf(caseId, windows)[..n] == RunsOf(caseId, windows[..n]);
    assert windows == windows[..n] + [windows[n]];
    RunsKeepEvents(env, s, caseId, windows[..n]);
    SameEventsSameCandidates(env, s, t, caseId);
    RunKeySet(env, t, caseId, windows[n]);
    if n == 0 {
      assert windows[0] == w;
    } else {
      var v := LargestOf(windows[..n]);
      RunsAreConfluent(env, s, caseId, windows[..n], v);
      assert windows[n] in windows && v in windows;
      assert w == windows[n] || w in windows[..n];
      if v <= windows[n] {
        NarrowerIsCovered(env, s, caseId, windows[n], v);
        assert windows[n] == w;
      } else {
        NarrowerIsCovered(env, s, caseId, v, windows[n]);
        assert v == w;
      }
    }
  }

  lemma {:induction false} LargestOf(windows: seq<int>) returns (w: int)
    requires |windows| > 0
    ensures Largest(windows, w)
  {
    var n := |windows| - 1;
    assert windows == windows[..n] + [windows[n]];
    w := windows[n];
    if n > 0 {
      var v := LargestOf(windows[..n]);
      w := if v > w then v else w;
    }
  }

  // ----- how many matches a run creates

  lemma {:induction false} KeySetSize(matches: seq<Match>)
    requires KeysUnique(matches)
    ensures |KeySet(matches)| == |matches|
  {
    if |matches| > 0 {
      var n := |matches| - 1;
      KeySetSize(matches[..n]);
      assert KeySet(matches) == KeySet(matches[..n]) + {matches[n].key};
      assert matches[n].key !in KeySet(matches[..n]);
    }
  }

  /** A run creates one match for each candidate key not seen before: none is lost, none repeated. */
  lemma RunCreatesNewKeys(env: Env, s: Store, caseId: string, window: int)
    requires Consistent(env, s)
    ensures var t := RunCase(env, s, caseId, window);
      t.runs[|s.runs|].matchedCount == |t.matches| - |s.matches|
        == |CandidateKeySet(env, caseId, RunCandidates(env, s, caseId, window)) - KeySet(s.matches)|
  {
    hide RunCandidates, KeySet, CandidateKeySet, AddAll;
    var t := RunCase(env, s, caseId, window);
    RunKeySet(env, s, caseId, window);
    RunKeepsConsistent(env, s, caseId, window);
    KeySetSize(s.matches);
    KeySetSize(t.matches);
    var found := CandidateKeySet(env, caseId, RunCandidates(env, s, caseId, window));
    assert KeySet(t.matches) == KeySet(s.matches) + (found - KeySet(s.matches));
    AddAllKeeps(env, StartRun(s, caseId, window, AllWarnings()), |s.runs|, caseId, window,
                RunCandidates(env, s, caseId, window));
  }

  /** The candidates whose key the store does not know yet. */
  function NewCandidates(env: Env, s: Store, caseId: string, cs: seq<Candidate>): seq<Candidate> {
    Filter(cs, (c: Candidate) => KeyOf(env, caseId, c) !in KeySet(s.matches))
  }

  lemma {:induction false} NewKeysCounted(env: Env, s: Store, caseId: string, cs: seq<Candidate>)
    requires forall i, j :: 0 <= i < j < |cs| ==> KeyOf(env, caseId, cs[i]) != KeyOf(env, caseId, cs[j])
    ensures |CandidateKeySet(env, caseId, cs) - KeySet(s.matches)| == |NewCandidates(env, s, caseId, cs)|
  {
    hide KeyOf, KeySet, CandidateKeySet;
    if |cs| == 0 {
      NoKeys(env, caseId, cs);
    } else {
      var n := |cs| - 1;
      NewKeysCounted(env, s, caseId, cs[..n]);
      LastKeyIsNew(env, caseId, cs);
      OneMoreKey(CandidateKeySet(env, caseId, cs[..n]), KeySet(s.matches), KeyOf(env, caseId, cs[n]));
    }
  }

  lemma NoKeys(env: Env, caseId: string, cs: seq<Candidate>)
    requires |cs| == 0
    ensures CandidateKeySet(env, caseId, cs) == {}
  {
  }

  lemma LastKeyIsNew(env: Env, caseId: string, cs: seq<Candidate>)
    requires |cs| > 0
    requires forall i :: 0 <= i < |cs| - 1 ==> KeyOf(env, caseId, cs[i]) != KeyOf(env, caseId, cs[|cs| - 1])
    ensures var n := |cs| - 1;
      && CandidateKeySet(env, caseId, cs) == CandidateKeySet(env, caseId, cs[..n]) + {KeyOf(env, caseId, cs[n])}
      && KeyOf(env, caseId, cs[n]) !in CandidateKeySet(env, caseId, cs[..n])
  {
    hide KeyOf;
  }

  lemma OneMoreKey(found: set<string>, known: set<string>, key: string)
    requires key !in found
    ensures |found + {key} - known| == |found - known| + if key in known then 0 else 1
  {
    assert found + {key} - known == if key in known then found - known else found - known + {key};
  }

  /** Different candidates of one run have different keys, given that SHA-256 does not collide. */
  lemma RunKeysDiffer(env: Env, s: Store, caseId: string, window: int, i: nat, j: nat)
    requires Injective(env.digest) && Identified(s.events) && BarFree(caseId)
    requires i < j < |RunCandidates(env, s, caseId, window)|
    ensures var cs := RunCandidates(env, s, caseId, window);
      KeyOf(env, caseId, cs[i]) != KeyOf(env, caseId, cs[j])
  {
    hide AllCandidates, KeyText, BarFree, KeyLess, CandidateKey;
    EventsOfMembers(s, caseId);
    var events, cs := EventsOf(s, caseId), RunCandidates(env, s, caseId, window);
    CandidatesAscend(env.lib, events, window, i, j);
    if KeyText(caseId, cs[i]) == KeyText(caseId, cs[j]) {
      RunKeysAreDistinct(env.lib, events, window, caseId, cs[i], cs[j]);
    }
  }

  /** A run creates one match for each candidate not yet known: it never drops one as a duplicate of another. */
  lemma RunMatchesEachNewCandidate(env: Env, s: Store, caseId: string, window: int)
    requires Injective(env.digest) && Consistent(env, s) && BarFree(caseId)
    ensures RunCase(env, s, caseId, window).runs[|s.runs|].matchedCount
         == |NewCandidates(env, s, caseId, RunCandidates(env, s, caseId, window))|
  {
    hide RunCandidates, KeyOf, RunCase, NewCandidates, CandidateKeySet, KeySet;
    var cs := RunCandidates(env, s, caseId, window);
    forall i, j | 0 <= i < j < |cs|
      ensures KeyOf(env, caseId, cs[i]) != KeyOf(env, caseId, cs[j])
    {
      RunKeysDiffer(env, s, caseId, window, i, j);
    }
    NewKeysCounted(env, s, caseId, cs);
    RunCreatesNewKeys(env, s, caseId, window);
  }

  // ----- how runs end

  /** The registry rule never finds anything and always says so; hence every run ends with warnings. */
  lemma {:induction false} EveryRunWarns(env: Env, s: Store, ops: seq<Op>)
    requires forall run :: run in s.runs ==> run.status == CompletedRunWithWarnings
    ensures forall run :: run in Exec(env, s, ops).runs ==> run.status == CompletedRunWithWarnings
  {
    hide RunCase;
    if |ops| > 0 {
      var n := |ops| - 1;
      EveryRunWarns(env, s, ops[..n]);
      match ops[n]
      case Run(caseId, window) => RunWarns(env, Exec(env, s, ops[..n]), caseId, window);
      case _ =>
    }
  }

  lemma RunWarns(env: Env, s: Store, caseId: string, window: int)
    ensures var runs := RunCase(env, s, caseId, window).runs;
      && |runs| == |s.runs| + 1 && runs[..|s.runs|] == s.runs
      && runs[|s.runs|].status == CompletedRunWithWarnings
  {
    hide RunCandidates, AddAll;
    AddAllKeeps(env, StartRun(s, caseId, window, AllWarnings()), |s.runs|, caseId, window,
                RunCandidates(env, s, caseId, window));
    RegistryAlwaysWarns();
  }

  lemma RegistryAlwaysWarns()
    ensures NoRegistryIdentity in AllWarnings()
  {
    FlatMapMembers(RULES, (rule: Rule) => RuleWarnings(rule), NoRegistryIdentity);
    EveryRuleRuns(RegistryEvtx);
  }

  // ----- the life of a finding

  /** The status changes audited for a finding, oldest first. */
  function Changes(audits: seq<Audit>, findingId: nat): seq<Audit> {
    Filter(audits, (a: Audit) => a.StatusChanged? && a.findingId == findingId)
  }

  /** The changes lead from one status to another by permitted transitions. */
  predicate Leads(changes: seq<Audit>, from: Status, to: Status) {
    if |changes| == 0 then from == to
    else
      var last := changes[|changes| - 1];
      last.StatusChanged? && last.after == to && to in Transitions(last.before)
         && Leads(changes[..|changes| - 1], from, last.before)
  }

  ghost predicate Traced(s: Store) {
    && (forall i :: 0 <= i < |s.findings| ==> Leads(Changes(s.audits, i), Open, s.findings[i].status))
    && (forall i: nat :: i >= |s.findings| ==> Changes(s.audits, i) == [])
  }

  lemma ChangesAppend(audits: seq<Audit>, a: Audit, findingId: nat)
    ensures Changes(audits + [a], findingId)
         == Changes(audits, findingId) + if a.StatusChanged? && a.findingId == findingId then [a] else []
  {
    assert (audits + [a])[..|audits|] == audits;
  }

  lemma AddOneTraced(env: Env, s: Store, runId: nat, caseId: string, window: int, c: Candidate)
    requires Traced(s)
    ensures Traced(AddOne(env, s, runId, caseId, window, c))
  {
    hide KeyOf, HasKey, Changes;
    forall i: nat
      ensures Changes(s.audits + [FindingCreated(caseId, |s.findings|, |s.matches|, c.rule)], i) == Changes(s.audits, i)
    {
      ChangesAppend(s.audits, FindingCreated(caseId, |s.findings|, |s.matches|, c.rule), i);
    }
  }

  lemma {:induction false} AddAllTraced(env: Env, s: Store, runId: nat, caseId: string, window: int, cs: seq<Candidate>)
    requires Traced(s)
    ensures Traced(AddAll(env, s, runId, caseId, window, cs))
  {
    hide AddOne, Traced;
    if |cs| > 0 {
      var n := |cs| - 1;
      AddAllTraced(env, s, runId, caseId, window, cs[..n]);
      AddOneTraced(env, AddAll(env, s, runId, caseId, window, cs[..n]), runId, caseId, window, cs[n]);
    }
  }

  lemma RunTraced(env: Env, s: Store, caseId: string, window: int)
    requires Traced(s)
    ensures Traced(RunCase(env, s, caseId, window))
  {
    hide AddAll, RunCandidates, Changes, Leads;
    var started, cs := StartRun(s, caseId, window, AllWarnings()), RunCandidates(env, s, caseId, window);
    assert Traced(started);
    AddAllTraced(env, started, |s.runs|, caseId, window, cs);
    AddAllKeeps(env, started, |s.runs|, caseId, window, cs);
    var added := AddAll(env, started, |s.runs|, caseId, window, cs);
    var t := RunCase(env, s, caseId, window);
    forall i: nat
      ensures Changes(t.audits, i) == Changes(added.audits, i)
    {
      ChangesAppend(added.audits, t.audits[|added.audits|], i);
    }
  }

  lemma UpdateTraced(s: Store, findingId: nat, p: Payload)
    requires Traced(s)
    ensures Traced(UpdateOne(s, findingId, p))
  {
    hide Changes, Leads;
    if Accepts(s, findingId, p) {
      var f, g := s.findings[findingId], Applied(s.findings[findingId], p);
      var first, change := FindingUpdated(f.caseId, findingId, FieldsSent(p)),
        StatusChanged(f.caseId, findingId, f.status, g.status);
      forall i: nat
        ensures Changes(s.audits + [first], i) == Changes(s.audits, i)
        ensures Changes(s.audits + [first] + [change], i)
             == Changes(s.audits, i) + (if i == findingId then [change] else [])
      {
        ChangesAppend(s.audits, first, i);
        ChangesAppend(s.audits + [first], change, i);
      }
      assert s.audits + [first] + [] == s.audits + [first];
      LeadsOn(Changes(s.audits, findingId), f.status, change);
      var t := UpdateOne(s, findingId, p);
      assert t.audits == if g.status != f.status then s.audits + [first] + [change] else s.audits + [first];
      forall i | 0 <= i < |t.findings|
        ensures Leads(Changes(t.audits, i), Open, t.findings[i].status)
      {
        assert Leads(Changes(s.audits, i), Open, s.findings[i].status);
        assert Changes(s.audits, i) + [] == Changes(s.audits, i);
      }
    }
  }

  lemma LeadsOn(changes: seq<Audit>, status: Status, change: Audit)
    requires Leads(changes, Open, status) && change.StatusChanged? && change.before == status
    ensures change.after in Transitions(status) ==> Leads(changes + [change], Open, change.after)
  {
    assert (changes + [change])[..|changes|] == changes;
  }

  /** Over any history the audits of each finding trace it from OPEN to its present status. */
  lemma {:induction false} TracedAlways(env: Env, s: Store, ops: seq<Op>)
    requires Traced(s)
    ensures Traced(Exec(env, s, ops))
  {
    hide Traced, RunCase, UpdateOne;
    if |ops| > 0 {
      var n := |ops| - 1;
      TracedAlways(env, s, ops[..n]);
      var t := Exec(env, s, ops[..n]);
      match ops[n]
      case Append(events) => ChangeTraced(t, t.events + events);
      case Enrich(events) => ChangeTraced(t, events);
      case Run(caseId, window) => RunTraced(env, t, caseId, window);
      case Update(findingId, payload) => UpdateTraced(t, findingId, payload);
    }
  }

  lemma ChangeTraced(s: Store, events: seq<Event>)
    requires Traced(s)
    ensures Traced(s.(events := events))
  {
    hide Changes, Leads;
  }

  /** A trace has at most two changes; one that ends in REVIEWED has one. */
  lemma {:induction false} TraceIsShort(changes: seq<Audit>, to: Status)
    requires Leads(changes, Open, to)
    ensures |changes| <= 2
    ensures to == Open ==> |changes| == 0
    ensures to == Reviewed ==> |changes| == 1
  {
    if |changes| > 0 {
      TraceIsShort(changes[..|changes| - 1], changes[|changes| - 1].before);
    }
  }

  /** RESOLVED and DISMISSED are never left, whatever happens afterwards. */
  lemma {:induction false} ClosedStaysClosed(env: Env, s: Store, ops: seq<Op>, i: nat)
    requires i < |s.findings| && s.findings[i].status in {Resolved, Dismissed}
    ensures var t := Exec(env, s, ops); i < |t.findings| && t.findings[i].status == s.findings[i].status
  {
    hide RunCase;
    if |ops| > 0 {
      var n := |ops| - 1;
      ClosedStaysClosed(env, s, ops[..n], i);
      var t := Exec(env, s, ops[..n]);
      if ops[n].Run? {
        RunKeepsFindings(env, t, ops[n].caseId, ops[n].window);
        var u := RunCase(env, t, ops[n].caseId, ops[n].window);
        assert u.findings[i] == u.findings[..|t.findings|][i];
      }
    }
  }

  lemma {:induction false} AddAllKeepsFindings(env: Env, s: Store, runId: nat, caseId: string, window: int,
                                               cs: seq<Candidate>)
    ensures var r := AddAll(env, s, runId, caseId, window, cs);
      |s.findings| <= |r.findings| && r.findings[..|s.findings|] == s.findings
  {
    hide KeyOf, HasKey;
    if |cs| > 0 {
      AddAllKeepsFindings(env, s, runId, caseId, window, cs[..|cs| - 1]);
    }
  }

  /** A run never touches an existing finding. */
  lemma RunKeepsFindings(env: Env, s: Store, caseId: string, window: int)
    ensures var t := RunCase(env, s, caseId, window);
      |s.findings| <= |t.findings| && t.findings[..|s.findings|] == s.findings
  {
    hide AddAll, RunCandidates;
    AddAllKeepsFindings(env, StartRun(s, caseId, window, AllWarnings()), |s.runs|, caseId, window,
                        RunCandidates(env, s, caseId, window));
  }
}
