/** The hash join against its nested-loop reference: contents, order, and independence of input order. */
module JoinProperties {
  import opened Wrappers
  import opened Ordering
  import opened CorrelationRules

  // ----- the reference: two nested loops over the unsorted inputs

  predicate Qualifies(l: Event, r: Event, leftId: Identity, rightId: Identity, window: int) {
    && leftId(l).Some? && rightId(r) == leftId(l)
    && r.time.Some? && l.caseId == r.caseId && WithinWindow(l, r, window)
  }

  function NestedFor(right: seq<Event>, leftId: Identity, rightId: Identity, window: int): Event -> seq<Pair> {
    (l: Event) =>
      if leftId(l).None? then []
      else PairUp(l, Filter(right, (r: Event) => Qualifies(l, r, leftId, rightId, window)), leftId(l).value)
  }

  function NestedLoop(left: seq<Event>, right: seq<Event>, leftId: Identity, rightId: Identity,
                      window: int): seq<Pair> {
    FlatMap(left, NestedFor(right, leftId, rightId, window))
  }

  // ----- the two compute the same multiset

  lemma {:induction false} PairUpCounts(e: Event, others: seq<Event>, identity: string, p: Pair)
    ensures multiset(PairUp(e, others, identity))[p]
         == if p.left == e && p.identity == identity then multiset(others)[p.right] else 0
  {
    var ps := PairUp(e, others, identity);
    if |others| > 0 {
      var n := |others| - 1;
      PairUpCounts(e, others[..n], identity, p);
      assert ps == PairUp(e, others[..n], identity) + [Pair(e, others[n], identity)];
      assert others == others[..n] + [others[n]];
    }
  }

  lemma PairUpPermutes(e: Event, xs: seq<Event>, ys: seq<Event>, identity: string)
    requires multiset(xs) == multiset(ys)
    ensures multiset(PairUp(e, xs, identity)) == multiset(PairUp(e, ys, identity))
  {
    hide PairUp;
    var a, b := multiset(PairUp(e, xs, identity)), multiset(PairUp(e, ys, identity));
    forall p
      ensures a[p] == b[p]
    {
      PairUpCounts(e, xs, identity, p);
      PairUpCounts(e, ys, identity, p);
    }
    assert a == b;
  }

  lemma FilterTwiceCounts(xs: seq<Event>, p: Event -> bool, q: Event -> bool, ys: seq<Event>, x: Event)
    requires multiset(ys) == multiset(Filter(xs, p))
    ensures multiset(Filter(ys, q))[x] == if p(x) && q(x) then multiset(xs)[x] else 0
  {
    FilterCounts(ys, q, x);
    FilterCounts(xs, p, x);
  }

  lemma BucketFilterIsQualified(l: Event, right: seq<Event>, leftId: Identity, rightId: Identity, window: int)
    requires leftId(l).Some?
    ensures multiset(Filter(Sort(Bucket(right, rightId, leftId(l).value), ByEventKey()), Near(l, window)))
         == multiset(Filter(right, (r: Event) => Qualifies(l, r, leftId, rightId, window)))
  {
    hide Filter, Sort, KeyLess, WithinWindow;
    var bucket := Bucket(right, rightId, leftId(l).value);
    SortFacts(bucket, ByEventKey());
    var sorted := Sort(bucket, ByEventKey());
    var q := (r: Event) => Qualifies(l, r, leftId, rightId, window);
    var a, b := multiset(Filter(sorted, Near(l, window))), multiset(Filter(right, q));
    forall x
      ensures a[x] == b[x]
    {
      FilterTwiceCounts(right, InBucket(rightId, leftId(l).value), Near(l, window), sorted, x);
      FilterCounts(right, q, x);
    }
    assert a == b;
  }

  /** The join returns exactly the triples of the nested loop, with the same multiplicities. */
  lemma JoinRefinesNestedLoop(left: seq<Event>, right: seq<Event>, leftId: Identity, rightId: Identity, window: int)
    ensures multiset(Join(left, right, leftId, rightId, window))
         == multiset(NestedLoop(left, right, leftId, rightId, window))
  {
    hide FlatMap, Sort, KeyLess, Filter, WithinWindow, PairUp;
    SortFacts(left, ByEventKey());
    var f, g := PairsFor(right, leftId, rightId, window), NestedFor(right, leftId, rightId, window);
    forall l | l in Sort(left, ByEventKey())
      ensures multiset(f(l)) == multiset(g(l))
    {
      if leftId(l).Some? {
        BucketFilterIsQualified(l, right, leftId, rightId, window);
        PairUpPermutes(l, Filter(Sort(Bucket(right, rightId, leftId(l).value), ByEventKey()), Near(l, window)),
                       Filter(right, (r: Event) => Qualifies(l, r, leftId, rightId, window)), leftId(l).value);
      }
    }
    FlatMapPermutes(Sort(left, ByEventKey()), left, f, g);
  }

  /** Membership: a triple is returned exactly when its events qualify. */
  lemma JoinMembers(left: seq<Event>, right: seq<Event>, leftId: Identity, rightId: Identity, window: int, p: Pair)
    ensures p in Join(left, right, leftId, rightId, window)
       <==> p.left in left && p.right in right && Qualifies(p.left, p.right, leftId, rightId, window)
            && leftId(p.left) == Some(p.identity)
  {
    hide FlatMap, Sort, KeyLess, Filter, WithinWindow, PairUp, Qualifies;
    JoinRefinesNestedLoop(left, right, leftId, rightId, window);
    SameElements(Join(left, right, leftId, rightId, window), NestedLoop(left, right, leftId, rightId, window));
    FlatMapMembers(left, NestedFor(right, leftId, rightId, window), p);
    forall l
      ensures p in NestedFor(right, leftId, rightId, window)(l)
         <==> (l == p.left && p.right in right && Qualifies(l, p.right, leftId, rightId, window)
               && leftId(l) == Some(p.identity))
    {
      NestedMembers(l, right, leftId, rightId, window, p);
    }
  }

  lemma NestedMembers(l: Event, right: seq<Event>, leftId: Identity, rightId: Identity, window: int, p: Pair)
    ensures p in NestedFor(right, leftId, rightId, window)(l)
       <==> (l == p.left && p.right in right && Qualifies(l, p.right, leftId, rightId, window)
             && leftId(l) == Some(p.identity))
  {
    hide Filter, WithinWindow;
    if leftId(l).Some? {
      var q := (r: Event) => Qualifies(l, r, leftId, rightId, window);
      FilterMembers(right, q, p.right);
      var others := Filter(right, q);
      var ps := PairUp(l, others, leftId(l).value);
      if p.right in others {
        var i :| 0 <= i < |others| && others[i] == p.right;
        assert ps[i] == Pair(l, p.right, leftId(l).value);
      }
      if p in ps {
        var i :| 0 <= i < |ps| && ps[i] == p;
        assert others[i] == p.right;
      }
    }
  }

  /** Widening the window only adds triples. */
  lemma WiderWindowKeepsPairs(left: seq<Event>, right: seq<Event>, leftId: Identity, rightId: Identity, w1: int,
                              w2: int, p: Pair)
    requires w1 <= w2 && p in Join(left, right, leftId, rightId, w1)
    ensures p in Join(left, right, leftId, rightId, w2)
  {
    hide Join, Abs;
    JoinMembers(left, right, leftId, rightId, w1, p);
    JoinMembers(left, right, leftId, rightId, w2, p);
  }

  // ----- order

  ghost predicate IdsDistinct(events: seq<Event>) {
    forall i, j :: 0 <= i < j < |events| ==> events[i].id != events[j].id
  }

  lemma KeysFollowIds(events: seq<Event>)
    requires IdsDistinct(events)
    ensures KeysDistinct(events, ByEventKey())
  {
    forall x, y | x in events && y in events && EventKey(x) == EventKey(y)
      ensures x == y
    {
      assert EventKey(x)[4] == EventKey(y)[4];
      var i :| 0 <= i < |events| && events[i] == x;
      var j :| 0 <= j < |events| && events[j] == y;
    }
  }

  predicate EventLess(a: Event, b: Event) {
    KeyLess(EventKey(a), EventKey(b))
  }

  predicate PairLess(p: Pair, q: Pair) {
    EventLess(p.left, q.left) || (p.left == q.left && EventLess(p.right, q.right))
  }

  ghost predicate Ascending(ps: seq<Pair>) {
    forall i, j :: 0 <= i < j < |ps| ==> PairLess(ps[i], ps[j])
  }

  /** Strictly ascending event keys. */
  ghost predicate Increasing(events: seq<Event>) {
    forall i, j :: 0 <= i < j < |events| ==> EventLess(events[i], events[j])
  }

  lemma SortIncreases(events: seq<Event>)
    requires IdsDistinct(events)
    ensures Increasing(Sort(events, ByEventKey()))
  {
    hide Sort, KeyLess;
    var s := Sort(events, ByEventKey());
    SortFacts(events, ByEventKey());
    SameElements(s, events);
    NoRepeatsPermute(events, s);
    forall i, j | 0 <= i < j < |s|
      ensures EventLess(s[i], s[j])
    {
      SameId(events, s[i], s[j]);
      assert EventKey(s[i])[4] != EventKey(s[j])[4];
      KeysAreOrdered(EventKey(s[i]), EventKey(s[j]), EventKey(s[i]));
    }
  }

  lemma SameId(events: seq<Event>, x: Event, y: Event)
    requires IdsDistinct(events) && x in events && y in events
    ensures x.id == y.id ==> x == y
  {
  }

  lemma {:induction false} FilterIncreases(events: seq<Event>, p: Event -> bool)
    requires Increasing(events)
    ensures Increasing(Filter(events, p))
  {
    hide KeyLess;
    if |events| > 0 {
      var n := |events| - 1;
      FilterIncreases(events[..n], p);
      var kept := Filter(events[..n], p);
      forall i | 0 <= i < |kept|
        ensures EventLess(kept[i], events[n])
      {
        FilterMembers(events[..n], p, kept[i]);
      }
    }
  }

  lemma {:induction false} FlatMapAscends(events: seq<Event>, f: Event -> seq<Pair>)
    requires Increasing(events)
    requires forall e :: e in events ==> Ascending(f(e)) && forall p :: p in f(e) ==> p.left == e
    ensures Ascending(FlatMap(events, f))
    ensures forall p :: p in FlatMap(events, f) ==> p.left in events
  {
    hide EventLess;
    if |events| > 0 {
      var n := |events| - 1;
      var done, last := FlatMap(events[..n], f), f(events[n]);
      FlatMapAscends(events[..n], f);
      forall i, j | 0 <= i < |done| && 0 <= j < |last|
        ensures PairLess(done[i], last[j])
      {
        assert done[i].left in events[..n] && last[j] in last;
        var k :| 0 <= k < n && events[k] == done[i].left;
      }
    }
  }

  lemma FilterKeepsIds(events: seq<Event>, p: Event -> bool)
    requires IdsDistinct(events)
    ensures IdsDistinct(Filter(events, p))
  {
    if |events| > 0 {
      var n := |events| - 1;
      FilterKeepsIds(events[..n], p);
      forall i | 0 <= i < |Filter(events[..n], p)|
        ensures Filter(events[..n], p)[i].id != events[n].id
      {
        FilterMembers(events[..n], p, Filter(events[..n], p)[i]);
      }
    }
  }

  /** The triples come in strictly ascending lexicographic order of the two sort keys. */
  lemma JoinAscends(left: seq<Event>, right: seq<Event>, leftId: Identity, rightId: Identity, window: int)
    requires IdsDistinct(left) && IdsDistinct(right)
    ensures Ascending(Join(left, right, leftId, rightId, window))
  {
    hide Filter, Sort, FlatMap, EventLess;
    SortIncreases(left);
    var f := PairsFor(right, leftId, rightId, window);
    forall e | leftId(e).Some?
      ensures Ascending(f(e))
    {
      var bucket := Bucket(right, rightId, leftId(e).value);
      FilterKeepsIds(right, InBucket(rightId, leftId(e).value));
      SortIncreases(bucket);
      FilterIncreases(Sort(bucket, ByEventKey()), Near(e, window));
    }
    FlatMapAscends(Sort(left, ByEventKey()), f);
  }

  /** Permuting either input leaves the list of triples identical. */
  lemma JoinForgetsOrder(left: seq<Event>, left': seq<Event>, right: seq<Event>, right': seq<Event>,
                         leftId: Identity, rightId: Identity, window: int)
    requires multiset(left) == multiset(left') && multiset(right) == multiset(right')
    requires IdsDistinct(left) && IdsDistinct(right)
    ensures Join(left, right, leftId, rightId, window) == Join(left', right', leftId, rightId, window)
  {
    hide Filter, Sort, KeyLess, WithinWindow, PairUp;
    KeysFollowIds(left);
    SortForgetsOrder(left, left', ByEventKey());
    var f, g := PairsFor(right, leftId, rightId, window), PairsFor(right', leftId, rightId, window);
    forall e
      ensures f(e) == g(e)
    {
      if leftId(e).Some? {
        var p := InBucket(rightId, leftId(e).value);
        FilterKeepsIds(right, p);
        KeysFollowIds(Filter(right, p));
        FilterPermutes(right, right', p);
        SortForgetsOrder(Filter(right, p), Filter(right', p), ByEventKey());
      }
    }
    FlatMapCong(Sort(left, ByEventKey()), f, g);
  }
}
