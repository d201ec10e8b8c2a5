/** The deterministic key of a match: what it identifies and what it forgets. */
module MatchKey {
  import opened Wrappers
  import opened Ordering
  import opened CorrelationRules
  import opened JoinProperties
  import opened CorrelationCandidates

  predicate BarFree(s: string) {
    '|' !in s
  }

  /** "|".join(parts). */
  function JoinBars(parts: seq<string>): string
    requires |parts| > 0
  {
    if |parts| == 1 then parts[0] else parts[0] + "|" + JoinBars(parts[1..])
  }

  function IdPair(a: string, b: string): (string, string) {
    if Lex(b, a, CharLess()) then (b, a) else (a, b)
  }

  function KeyParts(caseId: string, c: Candidate): (parts: seq<string>)
    ensures |parts| == 7
  {
    var ids := IdPair(c.a.id, c.b.id);
    [caseId, RuleId(c.rule), RULE_VERSION, ids.0, ids.1, BasisText(c.basis), c.identity]
  }

  /** The text that _match_key hashes. */
  function KeyText(caseId: string, c: Candidate): string {
    JoinBars(KeyParts(caseId, c))
  }

  lemma FirstBar(x: string, xs: string, y: string, ys: string)
    requires BarFree(x) && BarFree(y) && x + "|" + xs == y + "|" + ys
    ensures x == y && xs == ys
  {
    var s, t := x + "|" + xs, y + "|" + ys;
    assert s[|x|] == '|' && t[|y|] == '|';
    assert s[..|x|] == x && t[..|y|] == y;
    assert s[|x| + 1..] == xs && t[|y| + 1..] == ys;
  }

  /** Joining loses nothing as long as only the last part may contain a bar. */
  lemma {:induction false} JoinBarsIsInjective(xs: seq<string>, ys: seq<string>)
    requires |xs| == |ys| > 0 && JoinBars(xs) == JoinBars(ys)
    requires forall i :: 0 <= i < |xs| - 1 ==> BarFree(xs[i]) && BarFree(ys[i])
    ensures xs == ys
  {
    if |xs| > 1 {
      FirstBar(xs[0], JoinBars(xs[1..]), ys[0], JoinBars(ys[1..]));
      JoinBarsIsInjective(xs[1..], ys[1..]);
      assert xs == [xs[0]] + xs[1..] && ys == [ys[0]] + ys[1..];
    }
  }

  lemma IdPairForgetsOrder(a: string, b: string, c: string, d: string)
    ensures IdPair(a, b) == IdPair(c, d) <==> (a == c && b == d) || (a == d && b == c)
  {
    assert StrictTotal(CharLess());
    LexTrichotomy(a, b, CharLess());
    LexTrichotomy(b, a, CharLess());
    LexTrichotomy(c, d, CharLess());
    if Lex(a, b, CharLess()) && Lex(b, a, CharLess()) {
      LexTransitive(a, b, a, CharLess());
    }
    if Lex(c, d, CharLess()) && Lex(d, c, CharLess()) {
      LexTransitive(c, d, c, CharLess());
    }
  }

  /** The constant parts of a key are free of bars. */
  lemma NamesAreBarFree(r: Rule, b: Basis)
    ensures BarFree(RuleId(r)) && BarFree(RULE_VERSION) && BarFree(BasisText(b))
  {
  }

  /** Different rules and different bases have different names. */
  lemma NamesDiffer(r: Rule, s: Rule, b: Basis, c: Basis)
    ensures RuleId(r) == RuleId(s) <==> r == s
    ensures BasisText(b) == BasisText(c) <==> b == c
  {
    assert RuleId(r)[5]
        == match r case EvtxPrefetch => 'E' case LnkEvtx => 'L' case NtfsEvtx => 'N' case RegistryEvtx => 'R';
    assert RuleId(s)[5]
        == match s case EvtxPrefetch => 'E' case LnkEvtx => 'L' case NtfsEvtx => 'N' case RegistryEvtx => 'R';
    assert BasisText(b)[0] == if b == BasenameMatch then 'b' else 'e';
    assert BasisText(c)[0] == if c == BasenameMatch then 'b' else 'e';
  }

  /** Key texts agree exactly when case, rule, unordered event pair, basis and identity agree. */
  lemma KeyTextIdentifies(case1: string, c: Candidate, case2: string, d: Candidate)
    requires BarFree(case1) && BarFree(case2)
    requires BarFree(c.a.id) && BarFree(c.b.id) && BarFree(d.a.id) && BarFree(d.b.id)
    ensures KeyText(case1, c) == KeyText(case2, d)
       <==> case1 == case2 && c.rule == d.rule && c.basis == d.basis && c.identity == d.identity
            && ((c.a.id == d.a.id && c.b.id == d.b.id) || (c.a.id == d.b.id && c.b.id == d.a.id))
  {
    hide JoinBars, RuleId, BasisText, BarFree, IdPair;
    var xs, ys := KeyParts(case1, c), KeyParts(case2, d);
    NamesAreBarFree(c.rule, c.basis);
    NamesAreBarFree(d.rule, d.basis);
    NamesDiffer(c.rule, d.rule, c.basis, d.basis);
    IdPairForgetsOrder(c.a.id, c.b.id, d.a.id, d.b.id);
    IdPairChooses(c.a.id, c.b.id);
    IdPairChooses(d.a.id, d.b.id);
    if KeyText(case1, c) == KeyText(case2, d) {
      JoinBarsIsInjective(xs, ys);
      assert xs[0] == ys[0] && xs[1] == ys[1] && xs[3] == ys[3] && xs[4] == ys[4] && xs[5] == ys[5] && xs[6] == ys[6];
    }
  }

  lemma IdPairChooses(a: string, b: string)
    ensures IdPair(a, b) == (a, b) || IdPair(a, b) == (b, a)
  {
  }

  // ----- what the text says

  /** The names under which rules and kinds of match are known outside. */
  predicate KnownAs(rule: Rule, ruleName: string, basis: Basis, basisName: string) {
    && (rule == EvtxPrefetch ==> ruleName == "CORR-EVTX-PREFETCH-001")
    && (rule == LnkEvtx ==> ruleName == "CORR-LNK-EVTX-001")
    && (rule == NtfsEvtx ==> ruleName == "CORR-NTFS-EVTX-001")
    && (rule == RegistryEvtx ==> ruleName == "CORR-REGISTRY-EVTX-001")
    && (basis == BasenameMatch ==> basisName == "basename_match")
    && (basis == ExactPathMatch ==> basisName == "exact_path_match")
  }

  /** Two identifiers, the one that sorts first in front. */
  ghost predicate InOrder(a: string, b: string, first: string, second: string) {
    (first, second) == (if TextBefore(b, a) then (b, a) else (a, b))
  }

  /** Case, rule, version, the two events by identifier, basis and identity, in this order. */
  lemma KeyTextSpells(caseId: string, c: Candidate, rule: string, basis: string, first: string, second: string)
    requires KnownAs(c.rule, rule, c.basis, basis) && InOrder(c.a.id, c.b.id, first, second)
    ensures KeyText(caseId, c)
         == caseId + "|" + (rule + "|" + ("1.0.0" + "|" + (first + "|" + (second + "|" + (basis + "|" + c.identity)))))
  {
    LexIsTextBefore(c.b.id, c.a.id);
    assert KnownAs(c.rule, RuleId(c.rule), c.basis, BasisText(c.basis));
    hide KnownAs, InOrder;
    BarsUnfold(KeyParts(caseId, c));
  }

  lemma BarsUnfold(p: seq<string>)
    requires |p| == 7
    ensures JoinBars(p)
         == p[0] + "|" + (p[1] + "|" + (p[2] + "|" + (p[3] + "|" + (p[4] + "|" + (p[5] + "|" + p[6])))))
  {
    assert JoinBars(p[5..]) == p[5] + "|" + p[6];
    assert JoinBars(p[4..]) == p[4] + "|" + JoinBars(p[5..]);
    assert JoinBars(p[3..]) == p[3] + "|" + JoinBars(p[4..]);
    assert JoinBars(p[2..]) == p[2] + "|" + JoinBars(p[3..]);
    assert JoinBars(p[1..]) == p[1] + "|" + JoinBars(p[2..]);
  }

  /** Identifiers as the database makes them: distinct and free of bars. */
  ghost predicate Identified(events: seq<Event>) {
    IdsDistinct(events) && forall e :: e in events ==> BarFree(e.id)
  }

  /** Candidates of one run with the same key text are the same candidate. */
  lemma RunKeysAreDistinct(t: TextLib, events: seq<Event>, window: int, caseId: string, c: Candidate, d: Candidate)
    requires Identified(events) && BarFree(caseId)
    requires c in AllCandidates(t, events, window) && d in AllCandidates(t, events, window)
    requires KeyText(caseId, c) == KeyText(caseId, d)
    ensures c == d
  {
    hide AllCandidates, KeyText, BarFree;
    CandidateEvents(t, events, window, c);
    CandidateEvents(t, events, window, d);
    KeyTextIdentifies(caseId, c, caseId, d);
    SameId(events, c.a, d.a);
    SameId(events, c.b, d.b);
    SameId(events, c.a, d.b);
    SameId(events, c.b, d.a);
    CandidateIsDetermined(t, events, window, c, d);
  }
}
