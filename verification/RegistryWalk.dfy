/** The traversal of a Registry hive with an explicit stack, against the recursive preorder. */
module RegistryWalk {
  import opened Wrappers
  import opened Ordering

  /** A value; normalising it may fail. */
  datatype Value = Value(name: string, data: Option<string>)

  /**
   A key as the library presents it.  Listing its values or its subkeys may fail, and so may
   reading its path and timestamp, which is the one failure the walk does not survive.
   */
  datatype Key = Key(name: string, path: string, readable: bool, values: Option<seq<Value>>, subkeys: Listing)

  datatype Listing = Unlisted | Listed(keys: seq<Key>)

  datatype Record = KeyRecord(path: string) | ValueRecord(path: string, name: string, data: string)

  datatype Warning = ValuesUnreadable(path: string) | ValueRejected(path: string) | SubkeysUnreadable(path: string)

  /** What a traversal has produced; raised means an exception ended it. */
  datatype Walked = Walked(records: seq<Record>, warnings: seq<Warning>, keys: nat, values: nat, raised: bool)

  const NOTHING: Walked := Walked([], [], 0, 0, false)

  function Then(a: Walked, b: Walked): Walked {
    if a.raised then a
    else Walked(a.records + b.records, a.warnings + b.warnings, a.keys + b.keys, a.values + b.values, b.raised)
  }

  lemma ThenAssociates(a: Walked, b: Walked, c: Walked)
    ensures Then(Then(a, b), c) == Then(a, Then(b, c))
    ensures Then(NOTHING, a) == a == Then(a, NOTHING)
  {
    assert a.records + b.records + c.records == a.records + (b.records + c.records);
    assert a.warnings + b.warnings + c.warnings == a.warnings + (b.warnings + c.warnings);
    assert [] + a.records == a.records == a.records + [];
    assert [] + a.warnings == a.warnings == a.warnings + [];
  }

  // ----- sizes and order

  function Size(k: Key): (n: nat)
    ensures n > 0
  {
    1 + if k.subkeys.Listed? then Sizes(k.subkeys.keys) else 0
  }

  function Sizes(ks: seq<Key>): nat {
    if |ks| == 0 then 0 else Size(ks[0]) + Sizes(ks[1..])
  }

  lemma {:induction false} SizesJoin(a: seq<Key>, b: seq<Key>)
    ensures Sizes(a + b) == Sizes(a) + Sizes(b)
  {
    if |a| == 0 {
      assert a + b == b;
    } else {
      assert (a + b)[1..] == a[1..] + b;
      SizesJoin(a[1..], b);
    }
  }

  lemma SizesWithout(b: seq<Key>, j: nat)
    requires j < |b|
    ensures Sizes(b) == Size(b[j]) + Sizes(b[..j] + b[j + 1..])
  {
    SizesJoin(b[..j], [b[j]] + b[j + 1..]);
    SizesJoin(b[..j], b[j + 1..]);
    SizesOfOne(b[j], b[j + 1..]);
    hide Sizes, Size;
    AroundOne(b, j);
  }

  lemma SizesOfOne(k: Key, ks: seq<Key>)
    ensures Sizes([k] + ks) == Size(k) + Sizes(ks)
  {
    hide Size;
    assert ([k] + ks)[1..] == ks;
  }

  lemma {:induction false} SizesPermute(a: seq<Key>, b: seq<Key>)
    requires multiset(a) == multiset(b)
    ensures Sizes(a) == Sizes(b)
    decreases |a|
  {
    hide Sizes, Size;
    SameElements(a, b);
    if |a| == 0 {
      assert a == b;
    } else {
      var j := TakeOut(a, 0, b);
      SizesPermute(a[..0] + a[1..], b[..j] + b[j + 1..]);
      SizesWithout(a, 0);
      SizesWithout(b, j);
    }
  }

  /** The sort key of keys and values: folded name, then name. */
  function NameKey(fold: string -> string, name: string): seq<Atom> {
    [Str(fold(name)), Str(name)]
  }

  function ByKeyName(fold: string -> string): Key -> seq<Atom> {
    (k: Key) => NameKey(fold, k.name)
  }

  function ByValueName(fold: string -> string): Value -> seq<Atom> {
    (v: Value) => NameKey(fold, v.name)
  }

  function Reverse<T>(xs: seq<T>): (r: seq<T>)
    ensures |r| == |xs|
  {
    seq(|xs|, i requires 0 <= i < |xs| => xs[|xs| - 1 - i])
  }

  lemma ReverseFacts<T>(xs: seq<T>, ys: seq<T>)
    ensures Reverse(Reverse(xs)) == xs
    ensures Reverse(xs + ys) == Reverse(ys) + Reverse(xs)
  {
  }

  lemma {:induction false} ReversePermutes<T>(xs: seq<T>)
    ensures multiset(Reverse(xs)) == multiset(xs)
  {
    if |xs| > 0 {
      ReversePermutes(xs[1..]);
      assert xs == [xs[0]] + xs[1..];
      ReverseFacts([xs[0]], xs[1..]);
      assert Reverse([xs[0]]) == [xs[0]];
    }
  }

  /** sorted(.., reverse=True), which like Python's keeps equal elements in their given order. */
  function SortDescending(fold: string -> string, ks: seq<Key>): seq<Key> {
    Reverse(Sort(Reverse(ks), ByKeyName(fold)))
  }

  /** The subkeys in the order they are visited. */
  function Children(fold: string -> string, k: Key): seq<Key> {
    if k.subkeys.Unlisted? then [] else Sort(Reverse(k.subkeys.keys), ByKeyName(fold))
  }

  lemma ChildrenPermute(fold: string -> string, k: Key)
    requires k.subkeys.Listed?
    ensures multiset(Children(fold, k)) == multiset(k.subkeys.keys)
    ensures Sizes(Children(fold, k)) + 1 == Size(k)
  {
    hide Sort, Reverse;
    SortFacts(Reverse(k.subkeys.keys), ByKeyName(fold));
    ReversePermutes(k.subkeys.keys);
    SizesPermute(Children(fold, k), k.subkeys.keys);
  }

  ghost predicate NamesDistinct(ks: seq<Key>) {
    forall i, j :: 0 <= i < j < |ks| ==> ks[i].name != ks[j].name
  }

  /** With distinct sibling names the visiting order is simply the sorted order. */
  lemma ChildrenAreSorted(fold: string -> string, k: Key)
    requires k.subkeys.Listed? && NamesDistinct(k.subkeys.keys)
    ensures Children(fold, k) == Sort(k.subkeys.keys, ByKeyName(fold))
  {
    hide Sort, Reverse;
    var ks := k.subkeys.keys;
    ReversePermutes(ks);
    NamesTellApart(fold, ks);
    SortForgetsOrder(ks, Reverse(ks), ByKeyName(fold));
  }

  lemma NamesTellApart(fold: string -> string, ks: seq<Key>)
    requires NamesDistinct(ks)
    ensures KeysDistinct(ks, ByKeyName(fold))
  {
    forall x, y | x in ks && y in ks && NameKey(fold, x.name) == NameKey(fold, y.name)
      ensures x == y
    {
      assert NameKey(fold, x.name)[1] == NameKey(fold, y.name)[1];
      var i :| 0 <= i < |ks| && ks[i] == x;
      var j :| 0 <= j < |ks| && ks[j] == y;
    }
  }

  // ----- one key

  function ValuesWalk(path: string, vs: seq<Value>): Walked {
    if |vs| == 0 then NOTHING
    else
      var last := vs[|vs| - 1];
      Then(ValuesWalk(path, vs[..|vs| - 1]),
           if last.data.Some? then Walked([ValueRecord(path, last.name, last.data.value)], [], 0, 1, false)
           else Walked([], [ValueRejected(path)], 0, 0, false))
  }

  /** The part of the output that belongs to one key alone. */
  function Own(fold: string -> string, k: Key): Walked {
    if !k.readable then Walked([], [], 0, 0, true)
    else
      Then(Walked([KeyRecord(k.path)], [], 1, 0, false),
           Then(if k.values.None? then Walked([], [ValuesUnreadable(k.path)], 0, 0, false)
                else ValuesWalk(k.path, Sort(k.values.value, ByValueName(fold))),
                Walked([], if k.subkeys.Unlisted? then [SubkeysUnreadable(k.path)] else [], 0, 0, false)))
  }

  // ----- the recursive preorder

  /** Each tree in turn: the key itself, then its children in order. */
  function Preorder(fold: string -> string, ks: seq<Key>): Walked
    decreases Sizes(ks)
  {
    if |ks| == 0 then NOTHING
    else
      Smaller(fold, ks);
      Then(Own(fold, ks[0]), Then(Preorder(fold, Children(fold, ks[0])), Preorder(fold, ks[1..])))
  }

  lemma Smaller(fold: string -> string, ks: seq<Key>)
    requires |ks| > 0
    ensures Sizes(Children(fold, ks[0])) < Sizes(ks) && Sizes(ks[1..]) < Sizes(ks)
  {
    if ks[0].subkeys.Listed? {
      ChildrenPermute(fold, ks[0]);
    }
  }

  lemma {:induction false} PreorderJoins(fold: string -> string, a: seq<Key>, b: seq<Key>)
    ensures Preorder(fold, a + b) == Then(Preorder(fold, a), Preorder(fold, b))
    decreases |a|
  {
    hide Own, Children, Then, Sizes;
    if |a| == 0 {
      assert a + b == b;
      ThenAssociates(Preorder(fold, b), NOTHING, NOTHING);
    } else {
      assert (a + b)[1..] == a[1..] + b;
      PreorderJoins(fold, a[1..], b);
      ThenAssociates(Preorder(fold, Children(fold, a[0])), Preorder(fold, a[1..]), Preorder(fold, b));
      ThenAssociates(Own(fold, a[0]), Then(Preorder(fold, Children(fold, a[0])), Preorder(fold, a[1..])),
                     Preorder(fold, b));
    }
  }

  // ----- the walk

  method WalkHive(fold: string -> string, root: Key) returns (w: Walked)
    ensures w == Preorder(fold, [root])
  {
    hide Own, Children, Sizes, SortDescending, Then;
    w := NOTHING;
    var pending := [root];
    ghost var all := Preorder(fold, [root]);
    assert Reverse([root]) == [root];
    ThenAssociates(all, all, all);
    while |pending| > 0
      invariant !w.raised
      invariant all == Then(w, Preorder(fold, Reverse(pending)))
      decreases Sizes(Reverse(pending))
    {
      var key := pending[|pending| - 1];
      ghost var stack := Reverse(pending);
      pending := pending[..|pending| - 1];
      PopFacts(fold, stack, pending, key);
      if !key.readable {
        RaisesHere(fold, w, key, stack);
        return Walked(w.records, w.warnings, w.keys, w.values, true);
      }
      var own := VisitKey(fold, key);
      OwnSurvives(fold, key);
      ghost var before := w;
      w := Then(w, own);
      ThenSurvives(before, own);
      if key.subkeys.Listed? {
        pending := pending + SortDescending(fold, key.subkeys.keys);
      }
      PushFacts(fold, key, stack, pending);
      ThenAssociates(before, own, Preorder(fold, Reverse(pending)));
    }
    ThenAssociates(w, w, w);
  }

  /** The body of the loop for one key: its record, its values, its warnings. */
  method VisitKey(fold: string -> string, key: Key) returns (w: Walked)
    requires key.readable
    ensures w == Own(fold, key)
  {
    hide Sort, ValuesWalk;
    w := Walked([KeyRecord(key.path)], [], 1, 0, false);
    if key.values.Some? {
      ValuesSurvive(key.path, Sort(key.values.value, ByValueName(fold)));
      var listed := ReadValues(key.path, Sort(key.values.value, ByValueName(fold)));
      w := Walked(w.records + listed.records, w.warnings + listed.warnings, 1, listed.values, false);
    } else {
      w := w.(warnings := w.warnings + [ValuesUnreadable(key.path)]);
    }
    if key.subkeys.Unlisted? {
      w := w.(warnings := w.warnings + [SubkeysUnreadable(key.path)]);
    }
  }

  /** The inner loop over the sorted values of a key. */
  method ReadValues(path: string, values: seq<Value>) returns (w: Walked)
    ensures w == ValuesWalk(path, values)
  {
    var records, warnings, valueCount := [], [], 0;
    for i := 0 to |values|
      invariant Walked(records, warnings, 0, valueCount, false) == ValuesWalk(path, values[..i])
    {
      assert values[..i + 1][..i] == values[..i];
      if values[i].data.Some? {
        records := records + [ValueRecord(path, values[i].name, values[i].data.value)];
        valueCount := valueCount + 1;
      } else {
        warnings := warnings + [ValueRejected(path)];
      }
    }
    assert values[..|values|] == values;
    w := Walked(records, warnings, 0, valueCount, false);
  }

  lemma PopFacts(fold: string -> string, stack: seq<Key>, pending: seq<Key>, key: Key)
    requires |stack| > 0 && stack == Reverse(pending + [key])
    ensures stack[0] == key && stack[1..] == Reverse(pending)
  {
    ReverseFacts(pending, [key]);
    assert Reverse([key]) == [key];
  }

  lemma PushFacts(fold: string -> string, key: Key, stack: seq<Key>, pending: seq<Key>)
    requires |stack| > 0 && stack[0] == key
    requires pending == Reverse(stack[1..]) + if key.subkeys.Listed? then SortDescending(fold, key.subkeys.keys) else []
    ensures Reverse(pending) == Children(fold, key) + stack[1..]
    ensures Preorder(fold, stack) == Then(Own(fold, key), Preorder(fold, Reverse(pending)))
    ensures Sizes(Reverse(pending)) < Sizes(stack)
  {
    hide Sort, Own;
    var sorted := Children(fold, key);
    ReverseFacts(stack[1..], []);
    ReverseFacts(Reverse(stack[1..]), Reverse(sorted));
    ReverseFacts(sorted, []);
    assert Reverse(stack[1..]) + [] == Reverse(stack[1..]) && [] + stack[1..] == stack[1..];
    PreorderJoins(fold, sorted, stack[1..]);
    SizesJoin(sorted, stack[1..]);
    if key.subkeys.Listed? {
      ChildrenPermute(fold, key);
    }
  }

  lemma RaisesHere(fold: string -> string, w: Walked, key: Key, stack: seq<Key>)
    requires !w.raised && |stack| > 0 && stack[0] == key && !key.readable
    ensures Then(w, Preorder(fold, stack)) == Walked(w.records, w.warnings, w.keys, w.values, true)
  {
    OwnRaises(fold, key);
    hide Own, Children, Sizes, Then;
    var below := Then(Preorder(fold, Children(fold, key)), Preorder(fold, stack[1..]));
    assert Preorder(fold, stack) == Then(Own(fold, key), below) by { Smaller(fold, stack); }
    ThenRaised(w, Own(fold, key), below);
  }

  lemma ThenRaised(w: Walked, a: Walked, b: Walked)
    requires !w.raised && a == Walked([], [], 0, 0, true)
    ensures Then(w, Then(a, b)) == Walked(w.records, w.warnings, w.keys, w.values, true)
  {
    assert w.records + [] == w.records && w.warnings + [] == w.warnings;
  }

  lemma OwnSurvives(fold: string -> string, key: Key)
    requires key.readable
    ensures !Own(fold, key).raised && Own(fold, key).keys == 1
  {
    hide Sort;
    if key.values.Some? {
      ValuesSurvive(key.path, Sort(key.values.value, ByValueName(fold)));
    }
  }

  lemma {:induction false} ValuesSurvive(path: string, vs: seq<Value>)
    ensures !ValuesWalk(path, vs).raised && ValuesWalk(path, vs).keys == 0
    ensures |ValuesWalk(path, vs).records| == ValuesWalk(path, vs).values
    ensures ValuesWalk(path, vs).values + |ValuesWalk(path, vs).warnings| == |vs|
    ensures forall r :: r in ValuesWalk(path, vs).records ==> r.ValueRecord?
  {
    if |vs| > 0 {
      ValuesSurvive(path, vs[..|vs| - 1]);
    }
  }

  lemma ThenSurvives(a: Walked, b: Walked)
    requires !a.raised
    ensures Then(a, b).raised <==> b.raised
  {
  }

  // ----- what a complete walk contains

  /** The keys reached from a list of trees, in visiting order. */
  function Reached(fold: string -> string, ks: seq<Key>): seq<Key>
    decreases Sizes(ks)
  {
    if |ks| == 0 then []
    else
      Smaller(fold, ks);
      [ks[0]] + Reached(fold, Children(fold, ks[0])) + Reached(fold, ks[1..])
  }

  /** All keys of the trees whose ancestors could be listed, without regard to order. */
  function Nodes(ks: seq<Key>): multiset<Key>
    decreases Sizes(ks)
  {
    if |ks| == 0 then multiset{}
    else
      assert Sizes(ks) == Size(ks[0]) + Sizes(ks[1..]);
      multiset{ks[0]} + (if ks[0].subkeys.Listed? then Nodes(ks[0].subkeys.keys) else multiset{}) + Nodes(ks[1..])
  }

  lemma {:induction false} NodesJoin(a: seq<Key>, b: seq<Key>)
    ensures Nodes(a + b) == Nodes(a) + Nodes(b)
    decreases |a|
  {
    hide Sizes, Size;
    if |a| == 0 {
      assert a + b == b;
    } else {
      assert (a + b)[1..] == a[1..] + b;
      NodesJoin(a[1..], b);
    }
  }

  /** The tree at one position contributes its nodes wherever it stands. */
  lemma NodesWithout(b: seq<Key>, j: nat)
    requires j < |b|
    ensures Nodes(b) == Nodes([b[j]]) + Nodes(b[..j] + b[j + 1..])
  {
    hide Nodes, Sizes, Size;
    assert b == b[..j] + ([b[j]] + b[j + 1..]);
    NodesJoin(b[..j], [b[j]] + b[j + 1..]);
    NodesJoin([b[j]], b[j + 1..]);
    NodesJoin(b[..j], b[j + 1..]);
  }

  lemma {:induction false} NodesPermute(a: seq<Key>, b: seq<Key>)
    requires multiset(a) == multiset(b)
    ensures Nodes(a) == Nodes(b)
    decreases |a|
  {
    hide Nodes, Sizes, Size;
    SameElements(a, b);
    if |a| == 0 {
      assert a == b;
    } else {
      var j := TakeOut(a, 0, b);
      NodesPermute(a[..0] + a[1..], b[..j] + b[j + 1..]);
      NodesWithout(a, 0);
      NodesWithout(b, j);
    }
  }

  /** Every key is reached exactly once. */
  lemma {:induction false} EachReachedOnce(fold: string -> string, ks: seq<Key>)
    ensures multiset(Reached(fold, ks)) == Nodes(ks)
    decreases Sizes(ks)
  {
    hide Children, Size;
    if |ks| > 0 {
      Smaller(fold, ks);
      EachReachedOnce(fold, Children(fold, ks[0]));
      EachReachedOnce(fold, ks[1..]);
      if ks[0].subkeys.Listed? {
        ChildrenPermute(fold, ks[0]);
        NodesPermute(Children(fold, ks[0]), ks[0].subkeys.keys);
      } else {
        NoChildren(fold, ks[0]);
      }
    }
  }

  lemma NoChildren(fold: string -> string, k: Key)
    requires k.subkeys.Unlisted?
    ensures Children(fold, k) == []
  {
  }

  /** The output is the keys' own parts, key after key, in the order reached. */
  function OwnParts(fold: string -> string, ks: seq<Key>): Walked {
    if |ks| == 0 then NOTHING else Then(Own(fold, ks[0]), OwnParts(fold, ks[1..]))
  }

  lemma {:induction false} OwnPartsJoin(fold: string -> string, a: seq<Key>, b: seq<Key>)
    ensures OwnParts(fold, a + b) == Then(OwnParts(fold, a), OwnParts(fold, b))
  {
    hide Own, Then;
    if |a| == 0 {
      assert a + b == b;
      ThenAssociates(OwnParts(fold, b), NOTHING, NOTHING);
    } else {
      assert (a + b)[1..] == a[1..] + b;
      OwnPartsJoin(fold, a[1..], b);
      ThenAssociates(Own(fold, a[0]), OwnParts(fold, a[1..]), OwnParts(fold, b));
    }
  }

  /** Each reached key contributes its record followed by its values, and nothing else is emitted. */
  lemma {:induction false} PreorderIsOwnParts(fold: string -> string, ks: seq<Key>)
    ensures Preorder(fold, ks) == OwnParts(fold, Reached(fold, ks))
    decreases Sizes(ks)
  {
    hide Own, Then, Children, Size;
    if |ks| > 0 {
      Smaller(fold, ks);
      PreorderIsOwnParts(fold, Children(fold, ks[0]));
      PreorderIsOwnParts(fold, ks[1..]);
      var below, beside := Reached(fold, Children(fold, ks[0])), Reached(fold, ks[1..]);
      OwnPartsJoin(fold, below, beside);
      assert Reached(fold, ks) == [ks[0]] + (below + beside);
      assert ([ks[0]] + (below + beside))[1..] == below + beside;
    }
  }

  lemma {:induction false} OwnPartsCounts(fold: string -> string, ks: seq<Key>)
    ensures OwnParts(fold, ks).raised <==> exists i :: 0 <= i < |ks| && !ks[i].readable
    ensures var w := OwnParts(fold, ks); !w.raised ==> w.keys == |ks| && |w.records| == w.keys + w.values
  {
    hide Own;
    if |ks| > 0 {
      OwnPartsCounts(fold, ks[1..]);
      if ks[0].readable {
        OwnCounts(fold, ks[0]);
        OwnSurvives(fold, ks[0]);
      } else {
        OwnRaises(fold, ks[0]);
      }
      assert forall i :: 0 < i < |ks| ==> ks[i] == ks[1..][i - 1];
    }
  }

  lemma OwnRaises(fold: string -> string, k: Key)
    requires !k.readable
    ensures Own(fold, k) == Walked([], [], 0, 0, true)
  {
  }

  lemma OwnCounts(fold: string -> string, k: Key)
    requires k.readable
    ensures |Own(fold, k).records| == 1 + Own(fold, k).values
    ensures Own(fold, k).records[0] == KeyRecord(k.path)
    ensures forall i :: 0 < i < |Own(fold, k).records| ==> Own(fold, k).records[i].ValueRecord?
    ensures |Own(fold, k).warnings| == (if k.values.Some? then |k.values.value| - Own(fold, k).values else 1)
                                       + (if k.subkeys.Unlisted? then 1 else 0)
  {
    hide Sort;
    if k.values.Some? {
      var vs := Sort(k.values.value, ByValueName(fold));
      SortFacts(k.values.value, ByValueName(fold));
      SameElements(vs, k.values.value);
      ValuesSurvive(k.path, vs);
      forall i | 0 <= i < |ValuesWalk(k.path, vs).records|
        ensures ValuesWalk(k.path, vs).records[i].ValueRecord?
      {
        assert ValuesWalk(k.path, vs).records[i] in ValuesWalk(k.path, vs).records;
      }
    }
  }

  /** Conservation, and the one way to fail: the counts match the records, each reached key counts once. */
  lemma WalkCounts(fold: string -> string, root: Key)
    ensures var w := Preorder(fold, [root]);
      && (w.raised <==> exists k :: k in Nodes([root]) && !k.readable)
      && (!w.raised ==> w.keys == |Nodes([root])| && |w.records| == w.keys + w.values)
  {
    hide Preorder, Nodes, Reached, OwnParts;
    var reached := Reached(fold, [root]);
    PreorderIsOwnParts(fold, [root]);
    EachReachedOnce(fold, [root]);
    OwnPartsCounts(fold, reached);
    assert |multiset(reached)| == |reached|;
    forall k
      ensures k in Nodes([root]) <==> k in reached
    {
      assert k in reached <==> k in multiset(reached);
    }
    assert forall i :: 0 <= i < |reached| ==> reached[i] in reached;
  }

  // ----- a change below one key is seen nowhere else

  /** The key at a path of subkey positions. */
  predicate ValidAt(k: Key, at: seq<nat>)
    decreases |at|
  {
    |at| == 0 || (k.subkeys.Listed? && at[0] < |k.subkeys.keys| && ValidAt(k.subkeys.keys[at[0]], at[1..]))
  }

  function KeyAt(k: Key, at: seq<nat>): Key
    requires ValidAt(k, at)
    decreases |at|
  {
    if |at| == 0 then k else KeyAt(k.subkeys.keys[at[0]], at[1..])
  }

  /** The tree with the key at the path exchanged for another. */
  function Exchange(k: Key, at: seq<nat>, other: Key): Key
    requires ValidAt(k, at)
    decreases |at|
  {
    if |at| == 0 then other
    else k.(subkeys := Listed(k.subkeys.keys[at[0] := Exchange(k.subkeys.keys[at[0]], at[1..], other)]))
  }

  /** Sibling names are distinct along the path. */
  ghost predicate DistinctAlong(k: Key, at: seq<nat>)
    requires ValidAt(k, at)
    decreases |at|
  {
    |at| == 0 || (NamesDistinct(k.subkeys.keys) && DistinctAlong(k.subkeys.keys[at[0]], at[1..]))
  }

  lemma {:induction false} ExchangeKeepsName(k: Key, at: seq<nat>, other: Key)
    requires ValidAt(k, at) && other.name == KeyAt(k, at).name
    ensures Exchange(k, at, other).name == k.name
    ensures |at| > 0 ==> Exchange(k, at, other) == k.(subkeys := Exchange(k, at, other).subkeys)
    decreases |at|
  {
  }

  lemma MultisetUpdate(ks: seq<Key>, i: nat, x: Key)
    requires i < |ks|
    ensures multiset(ks[i := x]) == multiset(ks) - multiset{ks[i]} + multiset{x}
  {
    assert ks == ks[..i] + [ks[i]] + ks[i + 1..];
    assert ks[i := x] == ks[..i] + [x] + ks[i + 1..];
  }

  /** Exchanging a sibling for one of the same name keeps its place in the order. */
  lemma SortExchange(fold: string -> string, ks: seq<Key>, i: nat, x: Key) returns (j: nat)
    requires i < |ks| && NamesDistinct(ks) && x.name == ks[i].name
    ensures j < |Sort(ks, ByKeyName(fold))| && Sort(ks, ByKeyName(fold))[j] == ks[i]
    ensures Sort(ks[i := x], ByKeyName(fold)) == Sort(ks, ByKeyName(fold))[j := x]
  {
    hide Sort, KeyLess;
    var sorted := Sort(ks, ByKeyName(fold));
    SortFacts(ks, ByKeyName(fold));
    SortFacts(ks[i := x], ByKeyName(fold));
    SameElements(ks, sorted);
    assert ks[i] in sorted;
    j :| 0 <= j < |sorted| && sorted[j] == ks[i];
    MultisetUpdate(ks, i, x);
    MultisetUpdate(sorted, j, x);
    assert ByKeyName(fold)(x) == ByKeyName(fold)(sorted[j]);
    SameElements(sorted[j := x], ks[i := x]);
    NamesTellApart(fold, ks[i := x]);
    assert KeysDistinct(sorted[j := x], ByKeyName(fold));
    SortedIsUnique(sorted[j := x], Sort(ks[i := x], ByKeyName(fold)), ByKeyName(fold));
  }

  /** The visiting order of the children, before and after one of them is exchanged. */
  lemma ChildrenExchange(fold: string -> string, k: Key, i: nat, x: Key) returns (j: nat)
    requires k.subkeys.Listed? && i < |k.subkeys.keys| && NamesDistinct(k.subkeys.keys)
             && x.name == k.subkeys.keys[i].name
    ensures j < |Children(fold, k)| && Children(fold, k)[j] == k.subkeys.keys[i]
    ensures Children(fold, k.(subkeys := Listed(k.subkeys.keys[i := x]))) == Children(fold, k)[j := x]
  {
    hide Sort, Children;
    ChildrenAreSorted(fold, k);
    ChildrenAreSorted(fold, k.(subkeys := Listed(k.subkeys.keys[i := x])));
    j := SortExchange(fold, k.subkeys.keys, i, x);
  }

  lemma OwnIgnoresSubkeys(fold: string -> string, k: Key, ks: seq<Key>)
    requires k.subkeys.Listed?
    ensures Own(fold, k.(subkeys := Listed(ks))) == Own(fold, k)
  {
  }

  lemma PreorderOne(fold: string -> string, k: Key)
    ensures Preorder(fold, [k]) == Then(Own(fold, k), Preorder(fold, Children(fold, k)))
  {
    hide Own, Children, Then, Sizes;
    assert [k][1..] == [];
    ThenAssociates(Preorder(fold, Children(fold, k)), NOTHING, NOTHING);
  }

  lemma PreorderAround(fold: string -> string, ks: seq<Key>, j: nat, x: Key)
    requires j < |ks|
    ensures Preorder(fold, ks[j := x])
         == Then(Preorder(fold, ks[..j]), Then(Preorder(fold, [x]), Preorder(fold, ks[j + 1..])))
  {
    hide Preorder, Then;
    assert ks[j := x] == ks[..j] + ([x] + ks[j + 1..]);
    PreorderJoins(fold, ks[..j], [x] + ks[j + 1..]);
    PreorderJoins(fold, [x], ks[j + 1..]);
  }

  /** Output with a hole: what comes before and after one key's subtree. */
  datatype Context = Context(before: Walked, after: Walked)

  function Fill(c: Context, w: Walked): Walked {
    Then(c.before, Then(w, c.after))
  }

  /**
   Failure containment: whatever the subtree at a path does, also when its listings fail, the
   output is the same fixed surroundings with that subtree's own output in the middle.
   */
  lemma {:induction false} ExchangeIsLocal(fold: string -> string, root: Key, at: seq<nat>, x: Key) returns (c: Context)
    requires ValidAt(root, at) && DistinctAlong(root, at) && x.name == KeyAt(root, at).name
    ensures Preorder(fold, [Exchange(root, at, x)]) == Fill(c, Preorder(fold, [x]))
    ensures Preorder(fold, [root]) == Fill(c, Preorder(fold, [KeyAt(root, at)]))
    decreases |at|
  {
    hide Preorder, Own, Children, Then, NamesDistinct, Sizes;
    if |at| == 0 {
      c := Context(NOTHING, NOTHING);
      ThenAssociates(Preorder(fold, [x]), NOTHING, NOTHING);
      ThenAssociates(Preorder(fold, [root]), NOTHING, NOTHING);
    } else {
      var i, child := at[0], root.subkeys.keys[at[0]];
      var inner := ExchangeIsLocal(fold, child, at[1..], x);
      var changed := Exchange(child, at[1..], x);
      ExchangeKeepsName(child, at[1..], x);
      var j := ChildrenExchange(fold, root, i, changed);
      var kids := Children(fold, root);
      assert kids[j := child] == kids;
      OwnIgnoresSubkeys(fold, root, root.subkeys.keys[i := changed]);
      PreorderOne(fold, root);
      PreorderOne(fold, Exchange(root, at, x));
      PreorderAround(fold, kids, j, child);
      PreorderAround(fold, kids, j, changed);
      c := Wrap(Own(fold, root), Preorder(fold, kids[..j]), inner, Preorder(fold, kids[j + 1..]));
      WrapFills(Own(fold, root), Preorder(fold, kids[..j]), inner, Preorder(fold, kids[j + 1..]), Preorder(fold, [x]));
      WrapFills(Own(fold, root), Preorder(fold, kids[..j]), inner, Preorder(fold, kids[j + 1..]),
                Preorder(fold, [KeyAt(root, at)]));
    }
  }

  function Wrap(own: Walked, left: Walked, c: Context, right: Walked): Context {
    Context(Then(own, Then(left, c.before)), Then(c.after, right))
  }

  lemma WrapFills(own: Walked, left: Walked, c: Context, right: Walked, w: Walked)
    ensures Fill(Wrap(own, left, c, right), w) == Then(own, Then(left, Then(Fill(c, w), right)))
  {
    hide Then;
    ThenAssociates(own, Then(left, c.before), Then(w, Then(c.after, right)));
    ThenAssociates(left, c.before, Then(w, Then(c.after, right)));
    ThenAssociates(w, c.after, right);
    ThenAssociates(c.before, Then(w, c.after), right);
  }
}
