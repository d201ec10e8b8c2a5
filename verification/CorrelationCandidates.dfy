/** From joined pairs to candidates: the four registered rules and their match keys. */
module CorrelationCandidates {
  import opened Wrappers
  import opened Ordering
  import opened CorrelationRules
  import opened JoinProperties

  datatype Rule = EvtxPrefetch | LnkEvtx | NtfsEvtx | RegistryEvtx

  /** The registry hands the rules out in the order of their identifiers. */
  const RULES: seq<Rule> := [EvtxPrefetch, LnkEvtx, NtfsEvtx, RegistryEvtx]
  const RULE_VERSION: string := "1.0.0"

  function RuleId(rule: Rule): string {
    match rule
    case EvtxPrefetch => "CORR-EVTX-PREFETCH-001"
    case LnkEvtx => "CORR-LNK-EVTX-001"
    case NtfsEvtx => "CORR-NTFS-EVTX-001"
    case RegistryEvtx => "CORR-REGISTRY-EVTX-001"
  }

  datatype Basis = BasenameMatch | ExactPathMatch

  function BasisText(b: Basis): string {
    match b
    case BasenameMatch => "basename_match"
    case ExactPathMatch => "exact_path_match"
  }

  /** Roles, titles, severity and confidence follow from the rule and the basis. */
  datatype Candidate = Candidate(rule: Rule, a: Event, b: Event, basis: Basis, identity: string, signedDelta: int)

  // ----- rule evaluation

  predicate IsRightEvent(rule: Rule, e: Event) {
    match rule
    case EvtxPrefetch => e.eventType == PrefetchExecution
    case LnkEvtx => e.eventType.LnkCreation? || e.eventType.LnkAccess? || e.eventType.LnkModification?
    case NtfsEvtx => e.eventType.NtfsSi? || e.eventType.NtfsFn?
    case RegistryEvtx => false
  }

  function RightEvents(rule: Rule, events: seq<Event>): seq<Event> {
    Filter(events, (e: Event) => IsRightEvent(rule, e))
  }

  function LeftIdentity(t: TextLib): Identity {
    (e: Event) => NameOf(t, e.meta.processName)
  }

  function RightIdentity(t: TextLib, rule: Rule): Identity {
    (e: Event) => match rule
      case EvtxPrefetch => NameOf(t, e.meta.applicationName)
      case LnkEvtx => BasenameOf(t, e.meta.targetPath)
      case NtfsEvtx => BasenameOf(t, e.meta.filename)
      case RegistryEvtx => None
  }

  /** The paths whose equality makes a match exact. */
  function ProcessPath(t: TextLib, rule: Rule, e: Event): Option<string> {
    match rule
    case LnkEvtx => FullPathOf(t, e.meta.processPath)
    case NtfsEvtx => PathOf(t, e.meta.processPath)
    case _ => None
  }

  function ObservedPath(t: TextLib, rule: Rule, e: Event): Option<string> {
    match rule
    case LnkEvtx => FullPathOf(t, e.meta.targetPath)
    case NtfsEvtx => PathOf(t, e.meta.fullPath)
    case _ => None
  }

  /** Two full paths that disagree veto a shell link match; the other rules have no veto. */
  predicate Vetoed(t: TextLib, rule: Rule, p: Pair) {
    rule == LnkEvtx && ProcessPath(t, rule, p.left).Some? && ObservedPath(t, rule, p.right).Some?
    && ProcessPath(t, rule, p.left) != ObservedPath(t, rule, p.right)
  }

  predicate Exact(t: TextLib, rule: Rule, p: Pair) {
    ProcessPath(t, rule, p.left).Some? && ProcessPath(t, rule, p.left) == ObservedPath(t, rule, p.right)
  }

  function CandidateOf(t: TextLib, rule: Rule, p: Pair): Candidate
    requires p.left.time.Some? && p.right.time.Some?
  {
    var exact := Exact(t, rule, p);
    Candidate(rule, p.left, p.right, if exact then ExactPathMatch else BasenameMatch,
              if exact then ProcessPath(t, rule, p.left).value else p.identity,
              p.right.time.value - p.left.time.value)
  }

  function Candidates(t: TextLib, rule: Rule): Pair -> seq<Candidate> {
    (p: Pair) =>
      if p.left.time.Some? && p.right.time.Some? && !Vetoed(t, rule, p) then [CandidateOf(t, rule, p)] else []
  }

  function RulePairs(t: TextLib, rule: Rule, events: seq<Event>, window: int): seq<Pair> {
    Join(ProcessEvents(t, events), RightEvents(rule, events), LeftIdentity(t), RightIdentity(t, rule), window)
  }

  /** What one rule finds.  The registry rule never reads the events. */
  function Evaluate(t: TextLib, rule: Rule, events: seq<Event>, window: int): seq<Candidate> {
    if rule == RegistryEvtx then [] else FlatMap(RulePairs(t, rule, events, window), Candidates(t, rule))
  }

  /** The registry rule says that it cannot match anything yet; the others never warn. */
  datatype RuleWarning = NoRegistryIdentity

  function RuleWarnings(rule: Rule): seq<RuleWarning> {
    if rule == RegistryEvtx then [NoRegistryIdentity] else []
  }

  method EvaluateRule(t: TextLib, rule: Rule, events: seq<Event>, window: int)
      returns (candidates: seq<Candidate>, warnings: seq<RuleWarning>)
    ensures candidates == Evaluate(t, rule, events, window) && warnings == RuleWarnings(rule)
    ensures warnings == [] <==> rule in {EvtxPrefetch, LnkEvtx, NtfsEvtx}
  {
    hide Join, Vetoed, Exact, ProcessPath, ObservedPath, NameOf, FlatMap;
    candidates, warnings := [], [];
    if rule == RegistryEvtx {
      return [], [NoRegistryIdentity];
    }
    var processes := ProcessEvents(t, events);
    ProcessEventsAreTimed(t, events);
    var pairs := IdentityTimePairs(processes, RightEvents(rule, events), LeftIdentity(t), RightIdentity(t, rule),
                                   window);
    var f := Candidates(t, rule);
    FlatMapGrows(pairs, 0, f);
    for i := 0 to |pairs|
      invariant candidates == FlatMap(pairs[..i], f)
    {
      var p := pairs[i];
      FlatMapGrows(pairs, i, f);
      PairsAreTimed(t, rule, events, window, p);
      if Vetoed(t, rule, p) {
        assert candidates + [] == candidates;
        continue;
      }
      candidates := candidates + [CandidateOf(t, rule, p)];
    }
    assert pairs[..|pairs|] == pairs;
  }

  lemma ProcessEventsAreTimed(t: TextLib, events: seq<Event>)
    ensures forall e :: e in ProcessEvents(t, events) ==> e in events && IsProcessEvent(t, e)
  {
    forall e | e in ProcessEvents(t, events)
      ensures e in events && IsProcessEvent(t, e)
    {
      FilterMembers(events, x => IsProcessEvent(t, x), e);
    }
  }

  lemma PairsAreTimed(t: TextLib, rule: Rule, events: seq<Event>, window: int, p: Pair)
    requires p in RulePairs(t, rule, events, window)
    ensures p.left.time.Some? && p.right.time.Some? && p.left in events && p.right in events
    ensures IsProcessEvent(t, p.left) && IsRightEvent(rule, p.right) && p.left.caseId == p.right.caseId
  {
    hide Join, Filter, NameOf;
    JoinMembers(ProcessEvents(t, events), RightEvents(rule, events), LeftIdentity(t), RightIdentity(t, rule), window,
                p);
    ProcessEventsAreTimed(t, events);
    FilterMembers(events, (e: Event) => IsRightEvent(rule, e), p.right);
  }

  // ----- all rules, in the order the store processes them

  /** _candidate_sort_key. */
  function CandidateKey(c: Candidate): seq<Atom> {
    [Str(RuleId(c.rule)), Num(c.a.time.GetOr(0)), Num(c.b.time.GetOr(0)), Str(c.a.sourceId.GetOr("")),
     Str(c.b.sourceId.GetOr("")), Str(c.identity), Str(c.a.id), Str(c.b.id)]
  }

  function ByCandidateKey(): Candidate -> seq<Atom> {
    (c: Candidate) => CandidateKey(c)
  }

  function AllCandidates(t: TextLib, events: seq<Event>, window: int): seq<Candidate> {
    Sort(FlatMap(RULES, (rule: Rule) => Evaluate(t, rule, events, window)), ByCandidateKey())
  }

  function AllWarnings(): seq<RuleWarning> {
    FlatMap(RULES, (rule: Rule) => RuleWarnings(rule))
  }

  /** Every registered rule in turn, and the sort. */
  method EvaluateRules(t: TextLib, events: seq<Event>, window: int)
      returns (candidates: seq<Candidate>, warnings: seq<RuleWarning>)
    ensures candidates == AllCandidates(t, events, window) && warnings == AllWarnings()
  {
    hide Evaluate, RuleWarnings, FlatMap, Sort;
    var found, warned := (rule: Rule) => Evaluate(t, rule, events, window), (rule: Rule) => RuleWarnings(rule);
    candidates, warnings := [], [];
    FlatMapGrows(RULES, 0, found);
    FlatMapGrows(RULES, 0, warned);
    for i := 0 to |RULES|
      invariant candidates == FlatMap(RULES[..i], found) && warnings == FlatMap(RULES[..i], warned)
    {
      FlatMapGrows(RULES, i, found);
      FlatMapGrows(RULES, i, warned);
      var more, limits := EvaluateRule(t, RULES[i], events, window);
      candidates, warnings := candidates + more, warnings + limits;
    }
    assert RULES[..|RULES|] == RULES;
    candidates := Sort(candidates, ByCandidateKey());
  }

  lemma EvaluateForgetsOrder(t: TextLib, rule: Rule, events: seq<Event>, events': seq<Event>, window: int)
    requires multiset(events) == multiset(events') && IdsDistinct(events)
    ensures Evaluate(t, rule, events, window) == Evaluate(t, rule, events', window)
  {
    hide Join, FlatMap, Filter, NameOf;
    var isRight := (e: Event) => IsRightEvent(rule, e);
    FilterPermutes(events, events', e => IsProcessEvent(t, e));
    FilterPermutes(events, events', isRight);
    FilterKeepsIds(events, e => IsProcessEvent(t, e));
    FilterKeepsIds(events, isRight);
    JoinForgetsOrder(ProcessEvents(t, events), ProcessEvents(t, events'), RightEvents(rule, events),
                     RightEvents(rule, events'), LeftIdentity(t), RightIdentity(t, rule), window);
  }

  /** The order in which the database returns the events does not change a run. */
  lemma RunForgetsOrder(t: TextLib, events: seq<Event>, events': seq<Event>, window: int)
    requires multiset(events) == multiset(events') && IdsDistinct(events)
    ensures AllCandidates(t, events, window) == AllCandidates(t, events', window)
  {
    hide Evaluate, Sort, FlatMap;
    var f := (rule: Rule) => Evaluate(t, rule, events, window);
    var g := (rule: Rule) => Evaluate(t, rule, events', window);
    forall rule
      ensures f(rule) == g(rule)
    {
      EvaluateForgetsOrder(t, rule, events, events', window);
    }
    FlatMapCong(RULES, f, g);
  }

  /** What a candidate is: a qualifying pair of the run's events that its rule does not veto. */
  ghost predicate Arises(t: TextLib, events: seq<Event>, window: int, c: Candidate, p: Pair) {
    && c.rule != RegistryEvtx && p in RulePairs(t, c.rule, events, window)
    && p.left.time.Some? && p.right.time.Some? && !Vetoed(t, c.rule, p) && c == CandidateOf(t, c.rule, p)
  }

  lemma EvaluateMembers(t: TextLib, rule: Rule, events: seq<Event>, window: int, c: Candidate)
    ensures c in Evaluate(t, rule, events, window) <==> c.rule == rule && exists p :: Arises(t, events, window, c, p)
  {
    hide RulePairs, FlatMap, Vetoed, Exact, ProcessPath, ObservedPath;
    if rule != RegistryEvtx {
      var f := Candidates(t, rule);
      FlatMapMembers(RulePairs(t, rule, events, window), f, c);
      if c in Evaluate(t, rule, events, window) {
        var p :| p in RulePairs(t, rule, events, window) && c in f(p);
        assert Arises(t, events, window, c, p);
      }
      if c.rule == rule && exists p :: Arises(t, events, window, c, p) {
        var p :| Arises(t, events, window, c, p);
        assert c in f(p);
      }
    }
  }

  lemma AllCandidatesMembers(t: TextLib, events: seq<Event>, window: int, c: Candidate)
    ensures c in AllCandidates(t, events, window) <==> exists p :: Arises(t, events, window, c, p)
  {
    hide Evaluate, FlatMap, Sort, Arises;
    var f := (rule: Rule) => Evaluate(t, rule, events, window);
    var found := FlatMap(RULES, f);
    SortFacts(found, ByCandidateKey());
    SameElements(Sort(found, ByCandidateKey()), found);
    FlatMapMembers(RULES, f, c);
    forall rule
      ensures c in f(rule) <==> c.rule == rule && exists p :: Arises(t, events, window, c, p)
    {
      EvaluateMembers(t, rule, events, window, c);
    }
    EveryRuleRuns(c.rule);
  }

  lemma EveryRuleRuns(rule: Rule)
    ensures rule in RULES
  {
    assert RULES[0] == EvtxPrefetch && RULES[1] == LnkEvtx && RULES[2] == NtfsEvtx && RULES[3] == RegistryEvtx;
  }

  /** A wider window keeps every candidate. */
  lemma WiderWindowKeepsCandidates(t: TextLib, events: seq<Event>, w1: int, w2: int, c: Candidate)
    requires w1 <= w2 && c in AllCandidates(t, events, w1)
    ensures c in AllCandidates(t, events, w2)
  {
    hide AllCandidates, Join, Filter, Vetoed, Exact, NameOf;
    AllCandidatesMembers(t, events, w1, c);
    AllCandidatesMembers(t, events, w2, c);
    var p :| Arises(t, events, w1, c, p);
    WiderWindowKeepsPairs(ProcessEvents(t, events), RightEvents(c.rule, events), LeftIdentity(t),
                          RightIdentity(t, c.rule), w1, w2, p);
    assert Arises(t, events, w2, c, p);
  }

  /** An event that some rule may put on either side of a candidate. */
  predicate Relevant(t: TextLib, e: Event) {
    IsProcessEvent(t, e) || e.eventType != EvtxEvent
  }

  /** A candidate stays as long as the events that can be part of one stay. */
  lemma MoreEventsKeepCandidates(t: TextLib, events: seq<Event>, events': seq<Event>, window: int, c: Candidate)
    requires c in AllCandidates(t, events, window) && forall e :: e in events && Relevant(t, e) ==> e in events'
    ensures c in AllCandidates(t, events', window)
  {
    hide AllCandidates, Join, Filter, Vetoed, Exact, NameOf;
    AllCandidatesMembers(t, events, window, c);
    AllCandidatesMembers(t, events', window, c);
    var p :| Arises(t, events, window, c, p);
    PairsAreTimed(t, c.rule, events, window, p);
    FilterMembers(events', e => IsProcessEvent(t, e), p.left);
    FilterMembers(events', (e: Event) => IsRightEvent(c.rule, e), p.right);
    JoinMembers(ProcessEvents(t, events), RightEvents(c.rule, events), LeftIdentity(t), RightIdentity(t, c.rule),
                window, p);
    JoinMembers(ProcessEvents(t, events'), RightEvents(c.rule, events'), LeftIdentity(t), RightIdentity(t, c.rule),
                window, p);
    assert Arises(t, events', window, c, p);
  }

  /** Both events of a candidate belong to the run; the first is a process creation, the second is not. */
  lemma CandidateEvents(t: TextLib, events: seq<Event>, window: int, c: Candidate)
    requires c in AllCandidates(t, events, window)
    ensures c.a in events && c.b in events && c.a.eventType == EvtxEvent && c.b.eventType != EvtxEvent
    ensures c.a.caseId == c.b.caseId && c.a != c.b && IsProcessEvent(t, c.a) && Relevant(t, c.b)
  {
    hide AllCandidates, RulePairs, Vetoed, Exact, NameOf;
    AllCandidatesMembers(t, events, window, c);
    var p :| Arises(t, events, window, c, p);
    PairsAreTimed(t, c.rule, events, window, p);
  }

  /** Within a run, rule and events determine the candidate. */
  lemma CandidateIsDetermined(t: TextLib, events: seq<Event>, window: int, c: Candidate, d: Candidate)
    requires c in AllCandidates(t, events, window) && d in AllCandidates(t, events, window)
    requires c.rule == d.rule && c.a == d.a && c.b == d.b
    ensures c == d
  {
    hide AllCandidates, Join, Filter, NameOf, Vetoed, Exact;
    AllCandidatesMembers(t, events, window, c);
    AllCandidatesMembers(t, events, window, d);
    var p :| Arises(t, events, window, c, p);
    var q :| Arises(t, events, window, d, q);
    JoinMembers(ProcessEvents(t, events), RightEvents(c.rule, events), LeftIdentity(t), RightIdentity(t, c.rule),
                window, p);
    JoinMembers(ProcessEvents(t, events), RightEvents(c.rule, events), LeftIdentity(t), RightIdentity(t, c.rule),
                window, q);
    assert p == q;
  }

  // ----- the candidates of a run are distinct and strictly ordered

  lemma RuleIdsDiffer(r: Rule, s: Rule)
    ensures RuleId(r) == RuleId(s) ==> r == s
  {
    assert RuleId(EvtxPrefetch)[5] == 'E' && RuleId(LnkEvtx)[5] == 'L' && RuleId(NtfsEvtx)[5] == 'N'
           && RuleId(RegistryEvtx)[5] == 'R';
  }

  lemma CandidatesDiffer(t: TextLib, rule: Rule, p: Pair, q: Pair, c: Candidate)
    requires PairLess(p, q) && c in Candidates(t, rule)(p)
    ensures c !in Candidates(t, rule)(q)
  {
    hide KeyLess, Vetoed, Exact, ProcessPath;
    KeysAreOrdered(EventKey(p.left), EventKey(p.left), EventKey(p.left));
    KeysAreOrdered(EventKey(p.right), EventKey(p.right), EventKey(p.right));
  }

  lemma EvaluateNoRepeats(t: TextLib, rule: Rule, events: seq<Event>, window: int)
    requires IdsDistinct(events)
    ensures NoRepeats(Evaluate(t, rule, events, window))
  {
    hide Join, Filter, FlatMap, PairLess, NameOf, Vetoed, Exact, ProcessPath;
    if rule != RegistryEvtx {
      var pairs, f := RulePairs(t, rule, events, window), Candidates(t, rule);
      FilterKeepsIds(events, e => IsProcessEvent(t, e));
      FilterKeepsIds(events, (e: Event) => IsRightEvent(rule, e));
      JoinAscends(ProcessEvents(t, events), RightEvents(rule, events), LeftIdentity(t), RightIdentity(t, rule), window);
      forall i, j, c | 0 <= i < j < |pairs| && c in f(pairs[i])
        ensures c !in f(pairs[j])
      {
        CandidatesDiffer(t, rule, pairs[i], pairs[j], c);
      }
      FlatMapNoRepeats(pairs, f);
    }
  }

  lemma AllCandidatesNoRepeats(t: TextLib, events: seq<Event>, window: int)
    requires IdsDistinct(events)
    ensures NoRepeats(AllCandidates(t, events, window))
  {
    hide Evaluate, FlatMap, Sort, Arises;
    var f := (rule: Rule) => Evaluate(t, rule, events, window);
    forall rule
      ensures NoRepeats(f(rule))
    {
      EvaluateNoRepeats(t, rule, events, window);
    }
    forall i, j, c | 0 <= i < j < |RULES| && c in f(RULES[i])
      ensures c !in f(RULES[j])
    {
      EvaluateMembers(t, RULES[i], events, window, c);
      EvaluateMembers(t, RULES[j], events, window, c);
    }
    FlatMapNoRepeats(RULES, f);
    SortFacts(FlatMap(RULES, f), ByCandidateKey());
    NoRepeatsPermute(FlatMap(RULES, f), AllCandidates(t, events, window));
  }

  lemma CandidateKeysDiffer(t: TextLib, events: seq<Event>, window: int)
    requires IdsDistinct(events)
    ensures KeysDistinct(AllCandidates(t, events, window), ByCandidateKey())
  {
    hide AllCandidates, RuleId;
    var cs := AllCandidates(t, events, window);
    forall c, d | c in cs && d in cs && CandidateKey(c) == CandidateKey(d)
      ensures c == d
    {
      assert CandidateKey(c)[0] == CandidateKey(d)[0] && CandidateKey(c)[6] == CandidateKey(d)[6]
             && CandidateKey(c)[7] == CandidateKey(d)[7];
      RuleIdsDiffer(c.rule, d.rule);
      CandidateEvents(t, events, window, c);
      CandidateEvents(t, events, window, d);
      SameId(events, c.a, d.a);
      SameId(events, c.b, d.b);
      CandidateIsDetermined(t, events, window, c, d);
    }
  }

  /** The sort key orders the candidates of a run strictly: no two of them tie or coincide. */
  lemma CandidatesAscend(t: TextLib, events: seq<Event>, window: int, i: nat, j: nat)
    requires IdsDistinct(events) && i < j < |AllCandidates(t, events, window)|
    ensures var cs := AllCandidates(t, events, window);
      cs[i] != cs[j] && KeyLess(CandidateKey(cs[i]), CandidateKey(cs[j]))
  {
    hide Evaluate, FlatMap, Sort, KeyLess, CandidateKey;
    SortFacts(FlatMap(RULES, (rule: Rule) => Evaluate(t, rule, events, window)), ByCandidateKey());
    AllCandidatesNoRepeats(t, events, window);
    CandidateKeysDiffer(t, events, window);
    SortedStrictly(AllCandidates(t, events, window), ByCandidateKey(), i, j);
  }
}
