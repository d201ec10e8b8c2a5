/** What the walk writes for one key, and in which order it takes values and subkeys. */
module RegistryLaws {
  import opened Wrappers
  import opened Ordering
  import opened RegistryWalk

  // ----- order

  /** By folded name, then by name. */
  ghost predicate NameBefore(fold: string -> string, a: string, b: string) {
    TextBefore(fold(a), fold(b)) || (fold(a) == fold(b) && TextBefore(a, b))
  }

  lemma NameKeyIff(fold: string -> string, a: string, b: string)
    ensures KeyLess(NameKey(fold, a), NameKey(fold, b)) <==> NameBefore(fold, a, b)
  {
    hide TextBefore, KeyLess, AtomLess;
    AtomBefore(Str(fold(a)), Str(fold(b)));
    AtomBefore(Str(a), Str(b));
    NothingBefore();
    assert [Str(a)] == [Str(a)] + [] && [Str(b)] == [Str(b)] + [];
    KeySteps(Str(a), [], Str(b), []);
    assert NameKey(fold, a) == [Str(fold(a))] + [Str(a)] && NameKey(fold, b) == [Str(fold(b))] + [Str(b)];
    KeySteps(Str(fold(a)), [Str(a)], Str(fold(b)), [Str(b)]);
  }

  /** No later name stands before an earlier one. */
  ghost predicate NamesAscend(fold: string -> string, names: seq<string>) {
    forall i, j :: 0 <= i < j < |names| ==> !NameBefore(fold, names[j], names[i])
  }

  function KeyNames(ks: seq<Key>): (names: seq<string>)
    ensures |names| == |ks|
  {
    seq(|ks|, i requires 0 <= i < |ks| => ks[i].name)
  }

  function ValueNames(vs: seq<Value>): (names: seq<string>)
    ensures |names| == |vs|
  {
    seq(|vs|, i requires 0 <= i < |vs| => vs[i].name)
  }

  /** The subkeys are taken in that order, each once. */
  lemma ChildrenAscend(fold: string -> string, k: Key)
    requires k.subkeys.Listed?
    ensures multiset(Children(fold, k)) == multiset(k.subkeys.keys)
    ensures NamesAscend(fold, KeyNames(Children(fold, k)))
  {
    hide Sort, KeyLess, NameKey, NameBefore, Reverse;
    ChildrenPermute(fold, k);
    SortFacts(Reverse(k.subkeys.keys), ByKeyName(fold));
    var cs := Children(fold, k);
    forall i, j | 0 <= i < j < |cs|
      ensures !NameBefore(fold, KeyNames(cs)[j], KeyNames(cs)[i])
    {
      NameKeyIff(fold, cs[j].name, cs[i].name);
    }
  }

  // ----- the output of one key

  predicate Readable(v: Value) {
    v.data.Some?
  }

  /** The records of the values that can be normalised, in their order. */
  function RecordsFor(path: string, vs: seq<Value>): seq<Record>
    requires forall i :: 0 <= i < |vs| ==> vs[i].data.Some?
  {
    seq(|vs|, i requires 0 <= i < |vs| => ValueRecord(path, vs[i].name, vs[i].data.value))
  }

  lemma {:induction false} GoodValues(vs: seq<Value>)
    ensures forall i :: 0 <= i < |Filter(vs, Readable)| ==> Filter(vs, Readable)[i].data.Some?
    ensures |Filter(vs, Readable)| <= |vs|
  {
    if |vs| > 0 {
      GoodValues(vs[..|vs| - 1]);
    }
  }

  lemma {:induction false} ValuesTell(path: string, vs: seq<Value>)
    ensures forall i :: 0 <= i < |Filter(vs, Readable)| ==> Filter(vs, Readable)[i].data.Some?
    ensures var good := Filter(vs, Readable); var w := ValuesWalk(path, vs);
      && |good| <= |vs| && w.records == RecordsFor(path, good)
      && w.warnings == seq(|vs| - |good|, i => ValueRejected(path))
      && w.keys == 0 && w.values == |good| && !w.raised
  {
    GoodValues(vs);
    if |vs| > 0 {
      ValuesTell(path, vs[..|vs| - 1]);
    }
  }

  /** The values of the key in that order, each once. */
  ghost predicate InOrder(fold: string -> string, k: Key, vs: seq<Value>) {
    k.values.Some? && multiset(vs) == multiset(k.values.value) && NamesAscend(fold, ValueNames(vs))
  }

  /** A key that can be read writes its own record, those of its good values in order, and its warnings. */
  lemma KeyTells(fold: string -> string, k: Key) returns (vs: seq<Value>)
    requires k.readable
    ensures k.values.Some? ==> InOrder(fold, k, vs)
    ensures k.values.None? ==> vs == []
    ensures forall i :: 0 <= i < |Filter(vs, Readable)| ==> Filter(vs, Readable)[i].data.Some?
    ensures var good := Filter(vs, Readable); var w := Own(fold, k);
      && |good| <= |vs| && w.records == [KeyRecord(k.path)] + RecordsFor(k.path, good)
      && w.warnings == (if k.values.None? then [ValuesUnreadable(k.path)]
                        else seq(|vs| - |good|, i => ValueRejected(k.path)))
                       + (if k.subkeys.Unlisted? then [SubkeysUnreadable(k.path)] else [])
      && w.keys == 1 && w.values == |good| && !w.raised
  {
    hide Sort, KeyLess, NameKey, NameBefore;
    if k.values.None? {
      vs := [];
    } else {
      vs := Sort(k.values.value, ByValueName(fold));
      SortFacts(k.values.value, ByValueName(fold));
      forall i, j | 0 <= i < j < |vs|
        ensures !NameBefore(fold, ValueNames(vs)[j], ValueNames(vs)[i])
      {
        NameKeyIff(fold, vs[j].name, vs[i].name);
      }
      ValuesTell(k.path, vs);
      hide ValuesWalk, Filter, RecordsFor;
    }
  }

  // ----- the order of keys

  /** The place of a key below the roots: which root, which child of it, and so on, in visiting order. */
  type Place = seq<nat>

  predicate Stands(fold: string -> string, ks: seq<Key>, at: Place, k: Key)
    decreases |at|
  {
    && |at| > 0 && at[0] < |ks|
    && if |at| == 1 then ks[at[0]] == k else Stands(fold, Children(fold, ks[at[0]]), at[1..], k)
  }

  /** Up to step n the places agree; there a goes to the left, or ends. */
  predicate ForksAt(a: Place, b: Place, n: nat) {
    n <= |a| && n < |b| && a[..n] == b[..n] && (n < |a| ==> a[n] < b[n])
  }

  /** A place comes before those below it and those beside it to the right. */
  ghost predicate PlaceBefore(a: Place, b: Place) {
    exists n: nat :: ForksAt(a, b, n)
  }

  function Below(p: Place): Place {
    [0] + p
  }

  function Beside(p: Place): Place
    requires |p| > 0
  {
    [p[0] + 1] + p[1..]
  }

  lemma BelowKeeps(fold: string -> string, ks: seq<Key>, p: Place, q: Place, k: Key)
    requires |ks| > 0
    ensures |p| > 0 ==> (Stands(fold, Children(fold, ks[0]), p, k) <==> Stands(fold, ks, Below(p), k))
    ensures PlaceBefore(p, q) ==> PlaceBefore(Below(p), Below(q))
    ensures |q| > 0 ==> PlaceBefore([0], Below(q))
  {
    assert Below(p)[1..] == p;
    if n: nat :| ForksAt(p, q, n) {
      assert Below(p)[..n + 1] == [0] + p[..n] && Below(q)[..n + 1] == [0] + q[..n];
      assert ForksAt(Below(p), Below(q), n + 1);
    }
    if |q| > 0 {
      assert Below(q)[..1] == [0];
      assert ForksAt([0], Below(q), 1);
    }
  }

  lemma BesideKeeps(fold: string -> string, ks: seq<Key>, p: Place, q: Place, k: Key)
    requires |ks| > 0 && |p| > 0 && |q| > 0
    ensures Stands(fold, ks[1..], p, k) <==> Stands(fold, ks, Beside(p), k)
    ensures PlaceBefore(p, q) ==> PlaceBefore(Beside(p), Beside(q))
    ensures forall r: Place :: PlaceBefore(Below(r), Beside(q))
  {
    assert Beside(p)[1..] == p[1..];
    if n: nat :| ForksAt(p, q, n) {
      if n > 0 {
        assert p[0] == p[..n][0] == q[..n][0] == q[0];
        assert p[1..][..n - 1] == p[..n][1..] && q[1..][..n - 1] == q[..n][1..];
        assert Beside(p)[..n] == [p[0] + 1] + p[1..][..n - 1] && Beside(q)[..n] == [q[0] + 1] + q[1..][..n - 1];
      }
      assert ForksAt(Beside(p), Beside(q), n);
    }
    forall r: Place
      ensures PlaceBefore(Below(r), Beside(q))
    {
      assert ForksAt(Below(r), Beside(q), 0);
    }
  }

  predicate AllStand(fold: string -> string, ks: seq<Key>, reached: seq<Key>, places: seq<Place>) {
    && |places| == |reached|
    && forall i :: 0 <= i < |places| ==> |places[i]| > 0 && Stands(fold, ks, places[i], reached[i])
  }

  ghost predicate PlacesAscend(places: seq<Place>) {
    forall i, j :: 0 <= i < j < |places| ==> PlaceBefore(places[i], places[j])
  }

  ghost predicate NoneMissing(fold: string -> string, ks: seq<Key>, places: seq<Place>) {
    forall p: Place, k :: Stands(fold, ks, p, k) ==> p in places
  }

  /** The places of the keys reached, in the order in which they are reached. */
  ghost predicate Tours(fold: string -> string, ks: seq<Key>, reached: seq<Key>, places: seq<Place>) {
    AllStand(fold, ks, reached, places) && PlacesAscend(places) && NoneMissing(fold, ks, places)
  }

  function BelowAll(ps: seq<Place>): (qs: seq<Place>)
    ensures |qs| == |ps|
  {
    seq(|ps|, i requires 0 <= i < |ps| => Below(ps[i]))
  }

  function BesideAll(ps: seq<Place>): (qs: seq<Place>)
    requires forall i :: 0 <= i < |ps| ==> |ps[i]| > 0
    ensures |qs| == |ps|
  {
    seq(|ps|, i requires 0 <= i < |ps| => Beside(ps[i]))
  }

  /** Each key is reached at its place, parents before children, siblings in their order, and no place is left out. */
  lemma {:induction false} WalkTours(fold: string -> string, ks: seq<Key>) returns (places: seq<Place>)
    ensures Tours(fold, ks, Reached(fold, ks), places)
    decreases Sizes(ks)
  {
    if |ks| == 0 {
      places := [];
    } else {
      Smaller(fold, ks);
      var kids, rest := Children(fold, ks[0]), ks[1..];
      var below := WalkTours(fold, kids);
      var beside := WalkTours(fold, rest);
      places := [[0]] + BelowAll(below) + BesideAll(beside);
      assert Reached(fold, ks) == [ks[0]] + Reached(fold, kids) + Reached(fold, rest);
      Assembles(fold, ks, Reached(fold, kids), below, Reached(fold, rest), beside);
    }
  }

  lemma Assembles(fold: string -> string, ks: seq<Key>, under: seq<Key>, below: seq<Place>, next: seq<Key>,
                  beside: seq<Place>)
    requires |ks| > 0 && Tours(fold, Children(fold, ks[0]), under, below) && Tours(fold, ks[1..], next, beside)
    ensures Tours(fold, ks, [ks[0]] + under + next, [[0]] + BelowAll(below) + BesideAll(beside))
  {
    StandTogether(fold, ks, under, below, next, beside);
    AscendTogether(fold, ks, below, beside);
    hide Children, PlacesAscend, Stands;
    forall p: Place, k | Stands(fold, ks, p, k)
      ensures p in [[0]] + BelowAll(below) + BesideAll(beside)
    {
      PlaceFound(fold, ks, p, k, below, beside);
    }
  }

  lemma StandTogether(fold: string -> string, ks: seq<Key>, under: seq<Key>, below: seq<Place>, next: seq<Key>,
                      beside: seq<Place>)
    requires |ks| > 0 && AllStand(fold, Children(fold, ks[0]), under, below) && AllStand(fold, ks[1..], next, beside)
    ensures AllStand(fold, ks, [ks[0]] + under + next, [[0]] + BelowAll(below) + BesideAll(beside))
  {
    assert AllStand(fold, ks, [ks[0]], [[0]]);
    StandBelow(fold, ks, under, below);
    StandBeside(fold, ks, next, beside);
    StandOn(fold, ks, [ks[0]], [[0]], under, BelowAll(below));
    StandOn(fold, ks, [ks[0]] + under, [[0]] + BelowAll(below), next, BesideAll(beside));
    hide Children, Stands, AllStand;
  }

  lemma StandOn(fold: string -> string, ks: seq<Key>, reached: seq<Key>, places: seq<Place>, more: seq<Key>,
                further: seq<Place>)
    requires AllStand(fold, ks, reached, places) && AllStand(fold, ks, more, further)
    ensures AllStand(fold, ks, reached + more, places + further)
  {
    hide Stands;
  }

  lemma StandBelow(fold: string -> string, ks: seq<Key>, under: seq<Key>, below: seq<Place>)
    requires |ks| > 0 && AllStand(fold, Children(fold, ks[0]), under, below)
    ensures AllStand(fold, ks, under, BelowAll(below))
  {
    hide Children, PlaceBefore, Stands;
    forall i | 0 <= i < |below|
      ensures |BelowAll(below)[i]| > 0 && Stands(fold, ks, BelowAll(below)[i], under[i])
    {
      BelowKeeps(fold, ks, below[i], below[i], under[i]);
    }
  }

  lemma StandBeside(fold: string -> string, ks: seq<Key>, next: seq<Key>, beside: seq<Place>)
    requires |ks| > 0 && AllStand(fold, ks[1..], next, beside)
    ensures AllStand(fold, ks, next, BesideAll(beside))
  {
    hide Children, PlaceBefore, Stands;
    forall i | 0 <= i < |beside|
      ensures |BesideAll(beside)[i]| > 0 && Stands(fold, ks, BesideAll(beside)[i], next[i])
    {
      BesideKeeps(fold, ks, beside[i], beside[i], next[i]);
    }
  }

  lemma AscendTogether(fold: string -> string, ks: seq<Key>, below: seq<Place>, beside: seq<Place>)
    requires |ks| > 0 && PlacesAscend(below) && PlacesAscend(beside)
    requires (forall p :: p in below ==> |p| > 0) && forall i :: 0 <= i < |beside| ==> |beside[i]| > 0
    ensures PlacesAscend([[0]] + BelowAll(below) + BesideAll(beside))
  {
    hide Children, PlaceBefore, Stands;
    var places := [[0]] + BelowAll(below) + BesideAll(beside);
    var n := 1 + |below|;
    forall i, j | 0 <= i < j < |places|
      ensures PlaceBefore(places[i], places[j])
    {
      if j < n {
        assert below[j - 1] in below;
        BelowKeeps(fold, ks, if i == 0 then [] else below[i - 1], below[j - 1], ks[0]);
      } else {
        BesideKeeps(fold, ks, if i < n then beside[j - n] else beside[i - n], beside[j - n], ks[0]);
        assert i == 0 ==> places[i] == Below([]);
      }
    }
  }

  lemma PlaceFound(fold: string -> string, ks: seq<Key>, p: Place, k: Key, below: seq<Place>, beside: seq<Place>)
    requires |ks| > 0 && Stands(fold, ks, p, k)
    requires forall q: Place, l :: Stands(fold, Children(fold, ks[0]), q, l) ==> q in below
    requires forall q: Place, l :: Stands(fold, ks[1..], q, l) ==> q in beside
    requires forall i :: 0 <= i < |beside| ==> |beside[i]| > 0
    ensures p in [[0]] + BelowAll(below) + BesideAll(beside)
  {
    hide Children;
    if p[0] == 0 {
      if |p| == 1 {
        assert p == [0];
      } else {
        assert p == Below(p[1..]);
        var i :| 0 <= i < |below| && below[i] == p[1..];
        assert BelowAll(below)[i] == p;
      }
    } else {
      var q := [p[0] - 1] + p[1..];
      assert q[1..] == p[1..] && Beside(q) == p;
      BesideKeeps(fold, ks, q, q, k);
      var i :| 0 <= i < |beside| && beside[i] == q;
      assert BesideAll(beside)[i] == p;
    }
  }
}
