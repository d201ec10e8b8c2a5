/** What makes two events a candidate, said of the events' own fields and of nothing else. */
module CandidateLaws {
  import opened Wrappers
  import opened Ordering
  import opened CorrelationRules
  import opened JoinProperties
  import opened CorrelationCandidates

  // ----- names and paths in metadata entries

  /** s with each slash turned. */
  predicate Turned(s: string, turned: string) {
    |turned| == |s| && forall i :: 0 <= i < |s| ==> turned[i] == if s[i] == '/' then '\\' else s[i]
  }

  /** The entry is text that is not blank; trimmed and turned it is s. */
  predicate Reads(t: TextLib, entry: Option<string>, s: string) {
    entry.Some? && t.strip(entry.value) != "" && Turned(t.strip(entry.value), s)
  }

  /** The folded last part of the entry. */
  ghost predicate HasName(t: TextLib, entry: Option<string>, name: string) {
    exists s :: Reads(t, entry, s) && name == t.casefold(t.basename(s))
  }

  /** The folded normal form of the entry. */
  ghost predicate HasPath(t: TextLib, entry: Option<string>, path: string) {
    exists s :: Reads(t, entry, s) && path == t.casefold(t.normpath(s))
  }

  ghost predicate HasAbsolutePath(t: TextLib, entry: Option<string>, path: string) {
    HasPath(t, entry, path) && t.isAbs(path)
  }

  /** The last part of the folded normal form. */
  ghost predicate EndsIn(t: TextLib, entry: Option<string>, name: string) {
    exists path :: HasPath(t, entry, path) && path != "" && name == t.basename(path)
  }

  lemma TurnedIsBackslashed(s: string, turned: string)
    ensures Turned(s, turned) <==> turned == Backslashed(s)
  {
  }

  lemma EntryIff(t: TextLib, entry: Option<string>, text: string)
    ensures HasName(t, entry, text) <==> NameOf(t, entry) == Some(text)
    ensures HasPath(t, entry, text) <==> PathOf(t, entry) == Some(text)
  {
    if entry.Some? {
      var s := t.strip(entry.value);
      forall turned
        ensures Turned(s, turned) <==> turned == Backslashed(s)
      {
        TurnedIsBackslashed(s, turned);
      }
      assert Turned(s, Backslashed(s));
      assert s != "" ==> Reads(t, entry, Backslashed(s));
    }
  }

  lemma EndsInIff(t: TextLib, entry: Option<string>, name: string)
    ensures EndsIn(t, entry, name) <==> BasenameOf(t, entry) == Some(name)
  {
    hide HasPath, PathOf;
    forall path
      ensures HasPath(t, entry, path) <==> PathOf(t, entry) == Some(path)
    {
      EntryIff(t, entry, path);
    }
  }

  // ----- candidates

  /** A Security 4688 record of a process of this name, at a known time. */
  ghost predicate Creates(t: TextLib, e: Event, name: string) {
    && e.eventType == EvtxEvent && e.meta.eventId == Some(4688) && e.time.Some?
    && e.meta.channel.Some? && t.casefold(e.meta.channel.value) == "security"
    && HasName(t, e.meta.processName, name)
  }

  /** Same case, and at most the window of seconds apart, either way. */
  predicate Together(a: Event, b: Event, window: int) {
    && a.caseId == b.caseId && a.time.Some? && b.time.Some?
    && -window * 1_000_000 <= b.time.value - a.time.value <= window * 1_000_000
  }

  /** Prefetch: the executable's name, and never more than the name. */
  ghost predicate JoinsPrefetch(t: TextLib, c: Candidate, name: string) {
    && c.b.eventType == PrefetchExecution && HasName(t, c.b.meta.applicationName, name)
    && c.basis == BasenameMatch && c.identity == name
  }

  /** Shell links: the target's name; two absolute paths must agree, and then they are the identity. */
  ghost predicate JoinsLink(t: TextLib, c: Candidate, name: string) {
    var path, target := c.a.meta.processPath, c.b.meta.targetPath;
    && c.b.eventType in {LnkCreation, LnkAccess, LnkModification} && EndsIn(t, target, name)
    && (forall p, q :: HasAbsolutePath(t, path, p) && HasAbsolutePath(t, target, q) ==> p == q)
    && if exists p :: HasAbsolutePath(t, path, p) && HasAbsolutePath(t, target, p)
       then c.basis == ExactPathMatch && HasAbsolutePath(t, path, c.identity)
       else c.basis == BasenameMatch && c.identity == name
  }

  /** NTFS: the file's name; two equal paths are the identity, and different ones do no harm. */
  ghost predicate JoinsNtfs(t: TextLib, c: Candidate, name: string) {
    var path, full := c.a.meta.processPath, c.b.meta.fullPath;
    && (c.b.eventType.NtfsSi? || c.b.eventType.NtfsFn?) && EndsIn(t, c.b.meta.filename, name)
    && if exists p :: HasPath(t, path, p) && HasPath(t, full, p)
       then c.basis == ExactPathMatch && HasPath(t, path, c.identity)
       else c.basis == BasenameMatch && c.identity == name
  }

  ghost predicate Joins(t: TextLib, c: Candidate, name: string) {
    match c.rule
    case EvtxPrefetch => JoinsPrefetch(t, c, name)
    case LnkEvtx => JoinsLink(t, c, name)
    case NtfsEvtx => JoinsNtfs(t, c, name)
    case RegistryEvtx => false
  }

  /** The candidate is justified by its two events. */
  ghost predicate Justified(t: TextLib, c: Candidate, window: int) {
    && Together(c.a, c.b, window) && c.signedDelta == c.b.time.value - c.a.time.value
    && exists name :: Creates(t, c.a, name) && Joins(t, c, name)
  }

  lemma CreatesIff(t: TextLib, e: Event, name: string)
    ensures Creates(t, e, name) <==> IsProcessEvent(t, e) && LeftIdentity(t)(e) == Some(name)
  {
    EntryIff(t, e.meta.processName, name);
    hide NameOf, HasName;
  }

  lemma AbsoluteIff(t: TextLib, entry: Option<string>, path: string)
    ensures HasAbsolutePath(t, entry, path) <==> FullPathOf(t, entry) == Some(path)
  {
    EntryIff(t, entry, path);
    hide HasPath, PathOf;
  }

  /** One rule, one pair: joining is having the pair's identity, no veto, and the outcome of the rule. */
  lemma JoinsIff(t: TextLib, c: Candidate, name: string)
    requires c.a.time.Some? && c.b.time.Some? && c.signedDelta == c.b.time.value - c.a.time.value
    ensures Joins(t, c, name) <==>
      && c.rule != RegistryEvtx && IsRightEvent(c.rule, c.b) && RightIdentity(t, c.rule)(c.b) == Some(name)
      && !Vetoed(t, c.rule, Pair(c.a, c.b, name)) && c == CandidateOf(t, c.rule, Pair(c.a, c.b, name))
  {
    match c.rule
    case EvtxPrefetch =>
      EntryIff(t, c.b.meta.applicationName, name);
      hide NameOf, HasName;
    case LnkEvtx => LinkIff(t, c, name);
    case NtfsEvtx => NtfsIff(t, c, name);
    case RegistryEvtx =>
  }

  lemma LinkIff(t: TextLib, c: Candidate, name: string)
    requires c.rule == LnkEvtx && c.a.time.Some? && c.b.time.Some?
    requires c.signedDelta == c.b.time.value - c.a.time.value
    ensures JoinsLink(t, c, name) <==>
      && IsRightEvent(c.rule, c.b) && RightIdentity(t, c.rule)(c.b) == Some(name)
      && !Vetoed(t, c.rule, Pair(c.a, c.b, name)) && c == CandidateOf(t, c.rule, Pair(c.a, c.b, name))
  {
    hide HasAbsolutePath, FullPathOf, EndsIn, BasenameOf;
    EndsInIff(t, c.b.meta.targetPath, name);
    forall p
      ensures HasAbsolutePath(t, c.a.meta.processPath, p) <==> FullPathOf(t, c.a.meta.processPath) == Some(p)
      ensures HasAbsolutePath(t, c.b.meta.targetPath, p) <==> FullPathOf(t, c.b.meta.targetPath) == Some(p)
    {
      AbsoluteIff(t, c.a.meta.processPath, p);
      AbsoluteIff(t, c.b.meta.targetPath, p);
    }
    var own := FullPathOf(t, c.a.meta.processPath);
    assert own.Some? ==> HasAbsolutePath(t, c.a.meta.processPath, own.value);
  }

  lemma NtfsIff(t: TextLib, c: Candidate, name: string)
    requires c.rule == NtfsEvtx && c.a.time.Some? && c.b.time.Some?
    requires c.signedDelta == c.b.time.value - c.a.time.value
    ensures JoinsNtfs(t, c, name) <==>
      && IsRightEvent(c.rule, c.b) && RightIdentity(t, c.rule)(c.b) == Some(name)
      && !Vetoed(t, c.rule, Pair(c.a, c.b, name)) && c == CandidateOf(t, c.rule, Pair(c.a, c.b, name))
  {
    hide HasPath, PathOf, EndsIn, BasenameOf;
    EndsInIff(t, c.b.meta.filename, name);
    forall p
      ensures HasPath(t, c.a.meta.processPath, p) <==> PathOf(t, c.a.meta.processPath) == Some(p)
      ensures HasPath(t, c.b.meta.fullPath, p) <==> PathOf(t, c.b.meta.fullPath) == Some(p)
    {
      EntryIff(t, c.a.meta.processPath, p);
      EntryIff(t, c.b.meta.fullPath, p);
    }
    var own := PathOf(t, c.a.meta.processPath);
    assert own.Some? ==> HasPath(t, c.a.meta.processPath, own.value);
  }

  /** A run finds exactly the candidates that two of its events justify. */
  lemma CandidateIff(t: TextLib, events: seq<Event>, window: int, c: Candidate)
    ensures c in AllCandidates(t, events, window) <==> c.a in events && c.b in events && Justified(t, c, window)
  {
    hide AllCandidates, Join, Joins, Creates, IsProcessEvent, IsRightEvent, Vetoed, CandidateOf, RightIdentity, NameOf;
    AllCandidatesMembers(t, events, window, c);
    if c in AllCandidates(t, events, window) {
      var p :| Arises(t, events, window, c, p);
      PairOfCandidate(t, c, p);
      PairMembers(t, c.rule, events, window, p);
      CreatesIff(t, c.a, p.identity);
      JoinsIff(t, c, p.identity);
    }
    if c.a in events && c.b in events && Justified(t, c, window) {
      var name :| Creates(t, c.a, name) && Joins(t, c, name);
      CreatesIff(t, c.a, name);
      JoinsIff(t, c, name);
      PairMembers(t, c.rule, events, window, Pair(c.a, c.b, name));
      assert Arises(t, events, window, c, Pair(c.a, c.b, name));
    }
  }

  lemma PairOfCandidate(t: TextLib, c: Candidate, p: Pair)
    requires p.left.time.Some? && p.right.time.Some? && c == CandidateOf(t, c.rule, p)
    ensures p == Pair(c.a, c.b, p.identity) && c.signedDelta == c.b.time.value - c.a.time.value
  {
  }

  lemma PairMembers(t: TextLib, rule: Rule, events: seq<Event>, window: int, p: Pair)
    ensures p in RulePairs(t, rule, events, window) <==>
      && p.left in events && IsProcessEvent(t, p.left) && p.right in events && IsRightEvent(rule, p.right)
      && LeftIdentity(t)(p.left) == Some(p.identity) && RightIdentity(t, rule)(p.right) == Some(p.identity)
      && Together(p.left, p.right, window)
  {
    hide Join, Filter, NameOf, IsProcessEvent, IsRightEvent, BasenameOf;
    JoinMembers(ProcessEvents(t, events), RightEvents(rule, events), LeftIdentity(t), RightIdentity(t, rule), window,
                p);
    FilterMembers(events, e => IsProcessEvent(t, e), p.left);
    FilterMembers(events, (e: Event) => IsRightEvent(rule, e), p.right);
  }

  // ----- the order of a run's candidates

  /** By rule, then by the two times, the two sources, the identity and the two identifiers. */
  ghost predicate Precedes(c: Candidate, d: Candidate) {
    || TextBefore(RuleId(c.rule), RuleId(d.rule))
    || (c.rule == d.rule && TimesPrecede(c, d))
  }

  ghost predicate TimesPrecede(c: Candidate, d: Candidate) {
    var x, y := c.a.time.GetOr(0), d.a.time.GetOr(0);
    var u, v := c.b.time.GetOr(0), d.b.time.GetOr(0);
    x < y || (x == y && (u < v || (u == v && SourcesPrecede(c, d))))
  }

  ghost predicate SourcesPrecede(c: Candidate, d: Candidate) {
    var x, y := c.a.sourceId.GetOr(""), d.a.sourceId.GetOr("");
    var u, v := c.b.sourceId.GetOr(""), d.b.sourceId.GetOr("");
    TextBefore(x, y) || (x == y && (TextBefore(u, v) || (u == v && IdentitiesPrecede(c, d))))
  }

  ghost predicate IdentitiesPrecede(c: Candidate, d: Candidate) {
    || TextBefore(c.identity, d.identity)
    || (c.identity == d.identity && (TextBefore(c.a.id, d.a.id) || (c.a.id == d.a.id && TextBefore(c.b.id, d.b.id))))
  }

  lemma IdentitiesIff(c: Candidate, d: Candidate)
    ensures KeyLess([Str(c.identity), Str(c.a.id), Str(c.b.id)], [Str(d.identity), Str(d.a.id), Str(d.b.id)])
       <==> IdentitiesPrecede(c, d)
  {
    hide KeyLess, AtomLess, TextBefore;
    NothingBefore();
    assert [Str(c.b.id)] == [Str(c.b.id)] + [] && [Str(d.b.id)] == [Str(d.b.id)] + [];
    KeySteps(Str(c.b.id), [], Str(d.b.id), []);
    assert [Str(c.a.id), Str(c.b.id)] == [Str(c.a.id)] + [Str(c.b.id)];
    assert [Str(d.a.id), Str(d.b.id)] == [Str(d.a.id)] + [Str(d.b.id)];
    KeySteps(Str(c.a.id), [Str(c.b.id)], Str(d.a.id), [Str(d.b.id)]);
    assert [Str(c.identity), Str(c.a.id), Str(c.b.id)] == [Str(c.identity)] + [Str(c.a.id), Str(c.b.id)];
    assert [Str(d.identity), Str(d.a.id), Str(d.b.id)] == [Str(d.identity)] + [Str(d.a.id), Str(d.b.id)];
    KeySteps(Str(c.identity), [Str(c.a.id), Str(c.b.id)], Str(d.identity), [Str(d.a.id), Str(d.b.id)]);
    AtomBefore(Str(c.identity), Str(d.identity));
    AtomBefore(Str(c.a.id), Str(d.a.id));
    AtomBefore(Str(c.b.id), Str(d.b.id));
  }

  /** The last n entries of the sort key. */
  function LastKey(c: Candidate): seq<Atom> {
    [Str(c.identity), Str(c.a.id), Str(c.b.id)]
  }

  lemma SourcesIff(c: Candidate, d: Candidate)
    ensures KeyLess([Str(c.a.sourceId.GetOr("")), Str(c.b.sourceId.GetOr(""))] + LastKey(c),
                    [Str(d.a.sourceId.GetOr("")), Str(d.b.sourceId.GetOr(""))] + LastKey(d))
       <==> SourcesPrecede(c, d)
  {
    hide KeyLess, AtomLess, TextBefore, IdentitiesPrecede;
    IdentitiesIff(c, d);
    var x, u := Str(c.a.sourceId.GetOr("")), Str(c.b.sourceId.GetOr(""));
    var y, v := Str(d.a.sourceId.GetOr("")), Str(d.b.sourceId.GetOr(""));
    KeySteps(u, LastKey(c), v, LastKey(d));
    KeySteps(x, [u] + LastKey(c), y, [v] + LastKey(d));
    assert [x, u] + LastKey(c) == [x] + ([u] + LastKey(c)) && [y, v] + LastKey(d) == [y] + ([v] + LastKey(d));
    AtomBefore(x, y);
    AtomBefore(u, v);
  }

  function LaterKey(c: Candidate): seq<Atom> {
    [Str(c.a.sourceId.GetOr("")), Str(c.b.sourceId.GetOr(""))] + LastKey(c)
  }

  lemma PrecedesIff(c: Candidate, d: Candidate)
    ensures KeyLess(CandidateKey(c), CandidateKey(d)) <==> Precedes(c, d)
  {
    hide KeyLess, AtomLess, TextBefore, SourcesPrecede;
    SourcesIff(c, d);
    var r, x, u := Str(RuleId(c.rule)), Num(c.a.time.GetOr(0)), Num(c.b.time.GetOr(0));
    var q, y, v := Str(RuleId(d.rule)), Num(d.a.time.GetOr(0)), Num(d.b.time.GetOr(0));
    assert CandidateKey(c) == [r] + ([x] + ([u] + LaterKey(c)));
    assert CandidateKey(d) == [q] + ([y] + ([v] + LaterKey(d)));
    KeySteps(u, LaterKey(c), v, LaterKey(d));
    KeySteps(x, [u] + LaterKey(c), y, [v] + LaterKey(d));
    KeySteps(r, [x] + ([u] + LaterKey(c)), q, [y] + ([v] + LaterKey(d)));
    AtomBefore(r, q);
    AtomBefore(x, y);
    AtomBefore(u, v);
    RuleIdsDiffer(c.rule, d.rule);
  }

  lemma RuleIdsDiffer(r: Rule, s: Rule)
    ensures RuleId(r) == RuleId(s) ==> r == s
  {
    assert RuleId(EvtxPrefetch)[5] == 'E' && RuleId(LnkEvtx)[5] == 'L' && RuleId(NtfsEvtx)[5] == 'N'
           && RuleId(RegistryEvtx)[5] == 'R';
  }

  /** The candidates of a run come in that order, strictly. */
  lemma CandidatesInOrder(t: TextLib, events: seq<Event>, window: int, i: nat, j: nat)
    requires IdsDistinct(events) && i < j < |AllCandidates(t, events, window)|
    ensures Precedes(AllCandidates(t, events, window)[i], AllCandidates(t, events, window)[j])
  {
    hide AllCandidates, KeyLess, CandidateKey, Precedes;
    CandidatesAscend(t, events, window, i, j);
    PrecedesIff(AllCandidates(t, events, window)[i], AllCandidates(t, events, window)[j]);
  }

  // ----- the order of the events that a rule joins

  /** By time, source, time source, ordinal and identifier; an event without a time counts as one at zero. */
  ghost predicate EventPrecedes(e: Event, f: Event) {
    var x, y := e.time.GetOr(0), f.time.GetOr(0);
    x < y || (x == y && ObservationPrecedes(e, f))
  }

  ghost predicate ObservationPrecedes(e: Event, f: Event) {
    var x, y := e.sourceId.GetOr(""), f.sourceId.GetOr("");
    TextBefore(x, y) || (x == y && (TextBefore(e.timeSource, f.timeSource)
                                    || (e.timeSource == f.timeSource && OrdinalPrecedes(e, f))))
  }

  ghost predicate OrdinalPrecedes(e: Event, f: Event) {
    e.ordinal < f.ordinal || (e.ordinal == f.ordinal && TextBefore(e.id, f.id))
  }

  lemma OrdinalIff(e: Event, f: Event)
    ensures KeyLess([Num(e.ordinal), Str(e.id)], [Num(f.ordinal), Str(f.id)]) <==> OrdinalPrecedes(e, f)
  {
    hide KeyLess, AtomLess, TextBefore;
    NothingBefore();
    assert [Str(e.id)] == [Str(e.id)] + [] && [Str(f.id)] == [Str(f.id)] + [];
    KeySteps(Str(e.id), [], Str(f.id), []);
    assert [Num(e.ordinal), Str(e.id)] == [Num(e.ordinal)] + [Str(e.id)];
    assert [Num(f.ordinal), Str(f.id)] == [Num(f.ordinal)] + [Str(f.id)];
    KeySteps(Num(e.ordinal), [Str(e.id)], Num(f.ordinal), [Str(f.id)]);
    AtomBefore(Num(e.ordinal), Num(f.ordinal));
    AtomBefore(Str(e.id), Str(f.id));
  }

  lemma EventPrecedesIff(e: Event, f: Event)
    ensures KeyLess(EventKey(e), EventKey(f)) <==> EventPrecedes(e, f)
  {
    hide KeyLess, AtomLess, TextBefore, OrdinalPrecedes;
    OrdinalIff(e, f);
    var last, end := [Num(e.ordinal), Str(e.id)], [Num(f.ordinal), Str(f.id)];
    var x, y := Num(e.time.GetOr(0)), Num(f.time.GetOr(0));
    var s, r := Str(e.sourceId.GetOr("")), Str(f.sourceId.GetOr(""));
    var u, v := Str(e.timeSource), Str(f.timeSource);
    assert EventKey(e) == [x] + ([s] + ([u] + last)) && EventKey(f) == [y] + ([r] + ([v] + end));
    KeySteps(u, last, v, end);
    KeySteps(s, [u] + last, r, [v] + end);
    KeySteps(x, [s] + ([u] + last), y, [r] + ([v] + end));
    AtomBefore(x, y);
    AtomBefore(s, r);
    AtomBefore(u, v);
  }

  /** The joined pairs come by their left events, and under one left event by their right ones. */
  lemma PairsInOrder(left: seq<Event>, right: seq<Event>, leftId: Identity, rightId: Identity, window: int, i: nat,
                     j: nat)
    requires IdsDistinct(left) && IdsDistinct(right) && i < j < |Join(left, right, leftId, rightId, window)|
    ensures var p, q := Join(left, right, leftId, rightId, window)[i], Join(left, right, leftId, rightId, window)[j];
      EventPrecedes(p.left, q.left) || (p.left == q.left && EventPrecedes(p.right, q.right))
  {
    hide Join, KeyLess, EventPrecedes;
    JoinAscends(left, right, leftId, rightId, window);
    var p, q := Join(left, right, leftId, rightId, window)[i], Join(left, right, leftId, rightId, window)[j];
    EventPrecedesIff(p.left, q.left);
    EventPrecedesIff(p.right, q.right);
  }
}
