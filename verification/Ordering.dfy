/**
 Sorting by keys, as Python's sorted does it: tuples and strings compare lexicographically,
 and the sort is a stable permutation.  Where the keys order the elements strictly and totally
 the sorted list is unique, whatever order the input came in.
 */
module Ordering {

  // ----- strict total orders

  ghost predicate StrictTotal<T(!new)>(less: (T, T) -> bool) {
    && (forall x :: !less(x, x))
    && (forall x, y, z :: less(x, y) && less(y, z) ==> less(x, z))
    && (forall x, y :: less(x, y) || x == y || less(y, x))
  }

  function Lex<T(==)>(a: seq<T>, b: seq<T>, less: (T, T) -> bool): bool {
    if |b| == 0 then false
    else if |a| == 0 then true
    else less(a[0], b[0]) || (a[0] == b[0] && Lex(a[1..], b[1..], less))
  }

  function LexOrder<T(==)>(less: (T, T) -> bool): (seq<T>, seq<T>) -> bool {
    (a, b) => Lex(a, b, less)
  }

  lemma {:induction false} LexTrichotomy<T(!new)>(a: seq<T>, b: seq<T>, less: (T, T) -> bool)
    requires StrictTotal(less)
    ensures !Lex(a, a, less) && (Lex(a, b, less) || a == b || Lex(b, a, less))
  {
    if |a| > 0 && |b| > 0 {
      LexTrichotomy(a[1..], b[1..], less);
      assert a == [a[0]] + a[1..] && b == [b[0]] + b[1..];
    } else if |a| > 0 {
      LexTrichotomy(a[1..], b, less);
    }
  }

  lemma {:induction false} LexTransitive<T(!new)>(a: seq<T>, b: seq<T>, c: seq<T>, less: (T, T) -> bool)
    requires StrictTotal(less) && Lex(a, b, less) && Lex(b, c, less)
    ensures Lex(a, c, less)
  {
    if |a| > 0 && a[0] == b[0] == c[0] {
      LexTransitive(a[1..], b[1..], c[1..], less);
    }
  }

  /** Lexicographic order on sequences is a strict total order if the order on elements is. */
  lemma LexIsStrictTotal<T(!new)>(less: (T, T) -> bool)
    requires StrictTotal(less)
    ensures StrictTotal(LexOrder(less))
  {
    forall a, b
      ensures !LexOrder(less)(a, a) && (LexOrder(less)(a, b) || a == b || LexOrder(less)(b, a))
    {
      LexTrichotomy(a, b, less);
    }
    forall a, b, c | LexOrder(less)(a, b) && LexOrder(less)(b, c)
      ensures LexOrder(less)(a, c)
    {
      LexTransitive(a, b, c, less);
    }
  }

  /** A component of a sort key: a number (or instant) or a string. */
  datatype Atom = Num(n: int) | Str(s: string)

  function CharLess(): (char, char) -> bool {
    (a, b) => a < b
  }

  function AtomLess(): (Atom, Atom) -> bool {
    (a: Atom, b: Atom) =>
      if a.Num? then b.Str? || a.n < b.n
      else b.Str? && Lex(a.s, b.s, CharLess())
  }

  lemma AtomLessIsStrictTotal()
    ensures StrictTotal(AtomLess())
  {
    assert StrictTotal(CharLess());
    forall s: string, t: string
      ensures !Lex(s, s, CharLess()) && (Lex(s, t, CharLess()) || s == t || Lex(t, s, CharLess()))
    {
      LexTrichotomy(s, t, CharLess());
    }
    forall s: string, t: string, u: string | Lex(s, t, CharLess()) && Lex(t, u, CharLess())
      ensures Lex(s, u, CharLess())
    {
      LexTransitive(s, t, u, CharLess());
    }
  }

  // ----- the order of texts, said directly

  /** Up to place k the texts agree; there a has the smaller character, or ends. */
  predicate PartsAt(a: string, b: string, k: nat) {
    k <= |a| && k < |b| && a[..k] == b[..k] && (k < |a| ==> a[k] < b[k])
  }

  ghost predicate TextBefore(a: string, b: string) {
    exists k: nat :: PartsAt(a, b, k)
  }

  lemma PartsLater(a: string, b: string, k: nat)
    requires PartsAt(a, b, k) && k > 0
    ensures |a| > 0 && a[0] == b[0] && PartsAt(a[1..], b[1..], k - 1)
  {
    assert a[..k][0] == b[..k][0];
    assert a[1..][..k - 1] == a[..k][1..] && b[1..][..k - 1] == b[..k][1..];
  }

  lemma PartsSooner(x: char, a: string, b: string, k: nat)
    requires PartsAt(a, b, k)
    ensures PartsAt([x] + a, [x] + b, k + 1)
  {
    assert ([x] + a)[..k + 1] == [x] + a[..k] && ([x] + b)[..k + 1] == [x] + b[..k];
  }

  lemma {:induction false} LexIsTextBefore(a: string, b: string)
    ensures Lex(a, b, CharLess()) <==> TextBefore(a, b)
  {
    if Lex(a, b, CharLess()) {
      if |a| == 0 || a[0] < b[0] {
        assert PartsAt(a, b, 0);
      } else {
        LexIsTextBefore(a[1..], b[1..]);
        var k: nat :| PartsAt(a[1..], b[1..], k);
        PartsSooner(a[0], a[1..], b[1..], k);
        assert a == [a[0]] + a[1..] && b == [a[0]] + b[1..];
      }
    }
    if k: nat :| PartsAt(a, b, k) {
      if k > 0 {
        PartsLater(a, b, k);
        LexIsTextBefore(a[1..], b[1..]);
      }
    }
  }

  /** The order of key tuples. */
  function KeyLess(a: seq<Atom>, b: seq<Atom>): bool {
    LexOrder(AtomLess())(a, b)
  }

  lemma KeyHead(a: seq<Atom>, b: seq<Atom>)
    requires |a| == |b| > 0
    ensures KeyLess(a, b) <==> AtomLess()(a[0], b[0]) || (a[0] == b[0] && KeyLess(a[1..], b[1..]))
  {
    hide AtomLess;
  }

  lemma AtomBefore(x: Atom, y: Atom)
    ensures x.Num? && y.Num? ==> (AtomLess()(x, y) <==> x.n < y.n)
    ensures x.Str? && y.Str? ==> (AtomLess()(x, y) <==> TextBefore(x.s, y.s))
  {
    if x.Str? && y.Str? {
      LexIsTextBefore(x.s, y.s);
    }
  }

  lemma NothingBefore()
    ensures !KeyLess([], [])
  {
  }

  lemma KeyTail(k: seq<Atom>, x: Atom, rest: seq<Atom>)
    requires k == [x] + rest
    ensures k[1..] == rest && k[0] == x
  {
  }

  lemma KeySteps(x: Atom, a: seq<Atom>, y: Atom, b: seq<Atom>)
    requires |a| == |b|
    ensures KeyLess([x] + a, [y] + b) <==> AtomLess()(x, y) || (x == y && KeyLess(a, b))
  {
    hide KeyLess, AtomLess;
    KeyHead([x] + a, [y] + b);
    KeyTail([x] + a, x, a);
    KeyTail([y] + b, y, b);
  }

  lemma KeysAreOrdered(a: seq<Atom>, b: seq<Atom>, c: seq<Atom>)
    ensures !KeyLess(a, a) && (KeyLess(a, b) || a == b || KeyLess(b, a))
    ensures KeyLess(a, b) && KeyLess(b, c) ==> KeyLess(a, c)
  {
    AtomLessIsStrictTotal();
    LexIsStrictTotal(AtomLess());
  }

  // ----- stable insertion sort by key

  function Insert<T>(x: T, xs: seq<T>, key: T -> seq<Atom>): seq<T> {
    if |xs| > 0 && KeyLess(key(xs[0]), key(x)) then [xs[0]] + Insert(x, xs[1..], key) else [x] + xs
  }

  /** sorted(xs, key=key). */
  function Sort<T>(xs: seq<T>, key: T -> seq<Atom>): seq<T> {
    if |xs| == 0 then [] else Insert(xs[0], Sort(xs[1..], key), key)
  }

  ghost predicate Sorted<T>(xs: seq<T>, key: T -> seq<Atom>) {
    forall i, j :: 0 <= i < j < |xs| ==> !KeyLess(key(xs[j]), key(xs[i]))
  }

  /** What is below nothing behind it may be put in front. */
  lemma SortedFrom<T>(head: T, rest: seq<T>, key: T -> seq<Atom>)
    requires Sorted(rest, key) && forall j :: 0 <= j < |rest| ==> !KeyLess(key(rest[j]), key(head))
    ensures Sorted([head] + rest, key) && multiset([head] + rest) == multiset{head} + multiset(rest)
  {
    hide KeyLess;
  }

  lemma NoneBelowHead<T>(x: T, xs: seq<T>, rest: seq<T>, key: T -> seq<Atom>)
    requires |xs| > 0 && Sorted(xs, key) && KeyLess(key(xs[0]), key(x))
             && multiset(rest) == multiset{x} + multiset(xs[1..])
    ensures forall j :: 0 <= j < |rest| ==> !KeyLess(key(rest[j]), key(xs[0]))
  {
    hide KeyLess;
    KeysAreOrdered(key(xs[0]), key(x), key(xs[0]));
    forall j | 0 <= j < |rest|
      ensures !KeyLess(key(rest[j]), key(xs[0]))
    {
      assert rest[j] in multiset(rest);
      if rest[j] != x {
        assert rest[j] in multiset(xs[1..]);
        var k :| 0 <= k < |xs[1..]| && xs[1..][k] == rest[j];
        assert rest[j] == xs[k + 1];
      }
    }
  }

  lemma NoneBelowNew<T>(x: T, xs: seq<T>, key: T -> seq<Atom>)
    requires Sorted(xs, key) && (|xs| > 0 ==> !KeyLess(key(xs[0]), key(x)))
    ensures forall j :: 0 <= j < |xs| ==> !KeyLess(key(xs[j]), key(x))
  {
    hide KeyLess;
    forall j | 0 <= j < |xs|
      ensures !KeyLess(key(xs[j]), key(x))
    {
      KeysAreOrdered(key(xs[j]), key(x), key(xs[0]));
      KeysAreOrdered(key(xs[0]), key(xs[j]), key(x));
    }
  }

  lemma {:induction false} InsertFacts<T>(x: T, xs: seq<T>, key: T -> seq<Atom>)
    requires Sorted(xs, key)
    ensures multiset(Insert(x, xs, key)) == multiset{x} + multiset(xs)
    ensures Sorted(Insert(x, xs, key), key)
  {
    hide KeyLess;
    if |xs| > 0 && KeyLess(key(xs[0]), key(x)) {
      assert Sorted(xs[1..], key);
      InsertFacts(x, xs[1..], key);
      var rest := Insert(x, xs[1..], key);
      TailOfSet(xs);
      NoneBelowHead(x, xs, rest, key);
      hide Sorted;
      SortedFrom(xs[0], rest, key);
    } else {
      NoneBelowNew(x, xs, key);
      hide Sorted;
      SortedFrom(x, xs, key);
    }
  }

  /** The result is sorted and a permutation of the input. */
  lemma {:induction false} SortFacts<T>(xs: seq<T>, key: T -> seq<Atom>)
    ensures multiset(Sort(xs, key)) == multiset(xs) && Sorted(Sort(xs, key), key)
  {
    if |xs| > 0 {
      SortFacts(xs[1..], key);
      InsertFacts(xs[0], Sort(xs[1..], key), key);
      hide Insert, Sorted;
      TailOfSet(xs);
    }
  }

  /** Different elements of the list have different keys. */
  ghost predicate KeysDistinct<T>(xs: seq<T>, key: T -> seq<Atom>) {
    forall x, y | x in xs && y in xs :: key(x) == key(y) ==> x == y
  }

  lemma HeadIsLeast<T>(xs: seq<T>, ys: seq<T>, key: T -> seq<Atom>)
    requires multiset(xs) == multiset(ys) && |xs| > 0 && |ys| > 0
    requires Sorted(xs, key) && Sorted(ys, key) && KeysDistinct(xs, key)
    ensures xs[0] == ys[0]
  {
    hide KeyLess;
    assert xs[0] in multiset(ys) && ys[0] in multiset(xs);
    var i :| 0 <= i < |ys| && ys[i] == xs[0];
    var j :| 0 <= j < |xs| && xs[j] == ys[0];
    KeysAreOrdered(key(xs[0]), key(ys[0]), key(xs[0]));
  }

  /** A sorted permutation is unique when keys tell elements apart. */
  lemma {:induction false} SortedIsUnique<T>(xs: seq<T>, ys: seq<T>, key: T -> seq<Atom>)
    requires multiset(xs) == multiset(ys) && KeysDistinct(xs, key)
    requires Sorted(xs, key) && Sorted(ys, key)
    ensures xs == ys
  {
    hide KeyLess;
    assert |xs| == |multiset(xs)| == |multiset(ys)| == |ys|;
    if |xs| > 0 {
      HeadIsLeast(xs, ys, key);
      TailOfSet(xs);
      TailOfSet(ys);
      assert KeysDistinct(xs[1..], key) && Sorted(xs[1..], key) && Sorted(ys[1..], key);
      hide KeysDistinct, Sorted;
      SortedIsUnique(xs[1..], ys[1..], key);
    }
  }

  lemma TailOfSet<T>(xs: seq<T>)
    requires |xs| > 0
    ensures xs == [xs[0]] + xs[1..] && multiset(xs) == multiset{xs[0]} + multiset(xs[1..])
    ensures multiset(xs[1..]) == multiset(xs) - multiset{xs[0]}
  {
    assert xs == [xs[0]] + xs[1..];
  }

  /** Sorting forgets the input order. */
  lemma SortForgetsOrder<T>(xs: seq<T>, ys: seq<T>, key: T -> seq<Atom>)
    requires multiset(xs) == multiset(ys) && KeysDistinct(xs, key)
    ensures Sort(xs, key) == Sort(ys, key)
  {
    hide Sort, Sorted, KeyLess;
    var a, b := Sort(xs, key), Sort(ys, key);
    SortFacts(xs, key);
    SortFacts(ys, key);
    SameElements(a, xs);
    assert KeysDistinct(a, key);
    SortedIsUnique(a, b, key);
  }

  lemma SameElements<T>(xs: seq<T>, ys: seq<T>)
    requires multiset(xs) == multiset(ys)
    ensures forall x :: x in xs <==> x in ys
    ensures |xs| == |ys|
  {
    forall x
      ensures x in xs <==> x in ys
    {
      assert x in xs <==> x in multiset(xs);
      assert x in ys <==> x in multiset(ys);
    }
    assert |multiset(xs)| == |xs|;
  }

  /** An element of one permutation can be taken out of the other. */
  lemma TakeOut<T>(xs: seq<T>, i: nat, ys: seq<T>) returns (j: nat)
    requires multiset(xs) == multiset(ys) && i < |xs|
    ensures j < |ys| && ys[j] == xs[i]
    ensures multiset(ys[..j] + ys[j + 1..]) == multiset(xs[..i] + xs[i + 1..])
  {
    SameElements(xs, ys);
    assert xs[i] in ys;
    j :| 0 <= j < |ys| && ys[j] == xs[i];
    Without(xs, i);
    Without(ys, j);
  }

  lemma Without<T>(xs: seq<T>, i: nat)
    requires i < |xs|
    ensures multiset(xs[..i] + xs[i + 1..]) == multiset(xs) - multiset{xs[i]}
  {
    AroundOne(xs, i);
  }

  // ----- filtering and flattening

  function Filter<T>(xs: seq<T>, p: T -> bool): seq<T> {
    if |xs| == 0 then [] else Filter(xs[..|xs| - 1], p) + if p(xs[|xs| - 1]) then [xs[|xs| - 1]] else []
  }

  lemma {:induction false} FilterCounts<T>(xs: seq<T>, p: T -> bool, x: T)
    ensures multiset(Filter(xs, p))[x] == if p(x) then multiset(xs)[x] else 0
  {
    if |xs| > 0 {
      FilterCounts(xs[..|xs| - 1], p, x);
      assert xs == xs[..|xs| - 1] + [xs[|xs| - 1]];
    }
  }

  lemma FilterPermutes<T(!new)>(xs: seq<T>, ys: seq<T>, p: T -> bool)
    requires multiset(xs) == multiset(ys)
    ensures multiset(Filter(xs, p)) == multiset(Filter(ys, p))
  {
    hide Filter;
    var a, b := multiset(Filter(xs, p)), multiset(Filter(ys, p));
    forall x
      ensures a[x] == b[x]
    {
      FilterCounts(xs, p, x);
      FilterCounts(ys, p, x);
    }
    assert a == b;
  }

  lemma FilterMembers<T>(xs: seq<T>, p: T -> bool, x: T)
    ensures x in Filter(xs, p) <==> x in xs && p(x)
  {
    FilterCounts(xs, p, x);
    assert x in Filter(xs, p) <==> x in multiset(Filter(xs, p));
    assert x in xs <==> x in multiset(xs);
  }

  function FlatMap<T, U>(xs: seq<T>, f: T -> seq<U>): seq<U> {
    if |xs| == 0 then [] else FlatMap(xs[..|xs| - 1], f) + f(xs[|xs| - 1])
  }

  lemma {:induction false} FlatMapJoins<T, U>(xs: seq<T>, ys: seq<T>, f: T -> seq<U>)
    ensures FlatMap(xs + ys, f) == FlatMap(xs, f) + FlatMap(ys, f)
  {
    if |ys| == 0 {
      assert xs + ys == xs;
    } else {
      var n := |ys| - 1;
      assert (xs + ys)[..|xs + ys| - 1] == xs + ys[..n];
      FlatMapJoins(xs, ys[..n], f);
    }
  }

  /** Taking one element out of a list takes its image out of the flattening. */
  lemma FlatMapRemoves<T, U>(xs: seq<T>, i: nat, f: T -> seq<U>)
    requires i < |xs|
    ensures multiset(FlatMap(xs, f)) == multiset(f(xs[i])) + multiset(FlatMap(xs[..i] + xs[i + 1..], f))
  {
    FlatMapOne(xs[i], f);
    hide FlatMap;
    var front, back := xs[..i], xs[i + 1..];
    AroundOne(xs, i);
    FlatMapJoins(front, [xs[i]] + back, f);
    FlatMapJoins([xs[i]], back, f);
    FlatMapJoins(front, back, f);
  }

  lemma AroundOne<T>(xs: seq<T>, i: nat)
    requires i < |xs|
    ensures xs == xs[..i] + ([xs[i]] + xs[i + 1..])
  {
  }

  lemma FlatMapOne<T, U>(x: T, f: T -> seq<U>)
    ensures FlatMap([x], f) == f(x)
  {
    assert [x][..0] == [];
    assert FlatMap([x][..0], f) == [];
  }

  lemma {:induction false} FlatMapPermutes<T, U>(xs: seq<T>, ys: seq<T>, f: T -> seq<U>, g: T -> seq<U>)
    requires multiset(xs) == multiset(ys)
    requires forall x :: x in xs ==> multiset(f(x)) == multiset(g(x))
    ensures multiset(FlatMap(xs, f)) == multiset(FlatMap(ys, g))
  {
    SameElements(xs, ys);
    if |xs| > 0 {
      var n := |xs| - 1;
      var j := TakeOut(xs, n, ys);
      assert xs[..n] + xs[n + 1..] == xs[..n];
      FlatMapPermutes(xs[..n], ys[..j] + ys[j + 1..], f, g);
      FlatMapRemoves(ys, j, g);
    }
  }

  lemma {:induction false} FlatMapMembers<T, U>(xs: seq<T>, f: T -> seq<U>, u: U)
    ensures u in FlatMap(xs, f) <==> exists x :: x in xs && u in f(x)
  {
    if |xs| > 0 {
      FlatMapMembers(xs[..|xs| - 1], f, u);
      assert xs == xs[..|xs| - 1] + [xs[|xs| - 1]];
    }
  }

  lemma {:induction false} FlatMapCong<T, U>(xs: seq<T>, f: T -> seq<U>, g: T -> seq<U>)
    requires forall x :: x in xs ==> f(x) == g(x)
    ensures FlatMap(xs, f) == FlatMap(xs, g)
  {
    if |xs| > 0 {
      FlatMapCong(xs[..|xs| - 1], f, g);
    }
  }

  // ----- lists without repetition

  predicate NoRepeats<T(==)>(xs: seq<T>) {
    forall i, j :: 0 <= i < j < |xs| ==> xs[i] != xs[j]
  }

  lemma RepeatsCount<T>(xs: seq<T>, i: nat, j: nat)
    requires i < j < |xs|
    ensures xs[i] == xs[j] ==> multiset(xs)[xs[i]] >= 2
  {
    assert xs == xs[..i] + [xs[i]] + xs[i + 1..j] + [xs[j]] + xs[j + 1..];
  }

  lemma {:induction false} OnceEach<T>(xs: seq<T>, x: T)
    requires NoRepeats(xs)
    ensures multiset(xs)[x] <= 1
  {
    if |xs| > 0 {
      var n := |xs| - 1;
      OnceEach(xs[..n], x);
      assert xs == xs[..n] + [xs[n]];
      if x == xs[n] {
        assert x !in xs[..n];
      }
    }
  }

  lemma NoRepeatsPermute<T>(xs: seq<T>, ys: seq<T>)
    requires NoRepeats(xs) && multiset(xs) == multiset(ys)
    ensures NoRepeats(ys)
  {
    forall i, j | 0 <= i < j < |ys|
      ensures ys[i] != ys[j]
    {
      OnceEach(xs, ys[i]);
      RepeatsCount(ys, i, j);
    }
  }

  /** Images without repetition and without common elements, laid end to end. */
  lemma {:induction false} FlatMapNoRepeats<T, U>(xs: seq<T>, f: T -> seq<U>)
    requires forall x :: x in xs ==> NoRepeats(f(x))
    requires forall i, j, u :: 0 <= i < j < |xs| && u in f(xs[i]) ==> u !in f(xs[j])
    ensures NoRepeats(FlatMap(xs, f))
  {
    if |xs| > 0 {
      var n := |xs| - 1;
      var done, last := FlatMap(xs[..n], f), f(xs[n]);
      FlatMapNoRepeats(xs[..n], f);
      forall i, j | 0 <= i < |done| && 0 <= j < |last|
        ensures done[i] != last[j]
      {
        FlatMapMembers(xs[..n], f, done[i]);
        var x :| x in xs[..n] && done[i] in f(x);
        var k :| 0 <= k < n && xs[k] == x;
        assert last[j] in f(xs[n]);
      }
    }
  }

  /** Distinct elements with distinct keys are sorted strictly. */
  lemma SortedStrictly<T>(xs: seq<T>, key: T -> seq<Atom>, i: nat, j: nat)
    requires Sorted(xs, key) && NoRepeats(xs) && KeysDistinct(xs, key) && i < j < |xs|
    ensures KeyLess(key(xs[i]), key(xs[j]))
  {
    hide KeyLess;
    assert xs[i] in xs && xs[j] in xs;
    KeysAreOrdered(key(xs[i]), key(xs[j]), key(xs[i]));
  }
}
