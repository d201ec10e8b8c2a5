/** The evidence directory and the operating-system calls made on it, each of which may fail. */
module FileTree {
  import opened Wrappers
  import opened WindowsBinary

  /** A name below the evidence root, part by part; [] is the root itself. */
  type Path = seq<string>
  datatype Node = Directory | File(content: Bytes)
  type Tree = map<Path, Node>

  function Parent(p: Path): Path
    requires |p| > 0
  {
    p[..|p| - 1]
  }

  predicate IsDirectory(t: Tree, p: Path) {
    p in t && t[p].Directory?
  }

  predicate IsFile(t: Tree, p: Path) {
    p in t && t[p].File?
  }

  ghost predicate Rooted(t: Tree) {
    && IsDirectory(t, [])
    && forall p :: p in t && |p| > 0 ==> IsDirectory(t, Parent(p))
  }

  predicate Vacant(t: Tree, d: Path) {
    forall p | p in t :: |p| > 0 ==> Parent(p) != d
  }

  // ----- removing names, and making directories, as functions on trees

  /** unlink with missing_ok, its error suppressed: only a file goes away. */
  function Dropped(t: Tree, p: Path): Tree {
    if IsFile(t, p) then t - {p} else t
  }

  function DroppedAll(t: Tree, ps: seq<Path>): Tree {
    if |ps| == 0 then t else Dropped(DroppedAll(t, ps[..|ps| - 1]), ps[|ps| - 1])
  }

  /** rmdir with its error suppressed: only an empty directory goes away. */
  function Shrunk(t: Tree, d: Path): Tree {
    if IsDirectory(t, d) && Vacant(t, d) then t - {d} else t
  }

  /** The directories removed last to first. */
  function ShrunkAll(t: Tree, ds: seq<Path>): Tree {
    if |ds| == 0 then t else ShrunkAll(Shrunk(t, ds[|ds| - 1]), ds[..|ds| - 1])
  }

  function Grown(t: Tree, ds: seq<Path>): Tree {
    if |ds| == 0 then t else Grown(t, ds[..|ds| - 1])[ds[|ds| - 1] := Directory]
  }

  /** Each directory in turn is new and has a parent to stand in. */
  ghost predicate Makeable(t: Tree, ds: seq<Path>) {
    |ds| > 0 ==>
      var last, others := ds[|ds| - 1], ds[..|ds| - 1];
      Makeable(t, others) && last !in Grown(t, others) && |last| > 0 && IsDirectory(Grown(t, others), Parent(last))
  }

  // ----- what the functions keep and undo

  lemma DroppedStaysRooted(t: Tree, p: Path)
    requires Rooted(t)
    ensures Rooted(Dropped(t, p))
  {
  }

  lemma {:induction false} DroppedAllStaysRooted(t: Tree, ps: seq<Path>)
    requires Rooted(t)
    ensures Rooted(DroppedAll(t, ps))
  {
    hide Rooted, Dropped;
    if |ps| > 0 {
      DroppedAllStaysRooted(t, ps[..|ps| - 1]);
      DroppedStaysRooted(DroppedAll(t, ps[..|ps| - 1]), ps[|ps| - 1]);
    }
  }

  lemma {:induction false} GrownStaysRooted(t: Tree, ds: seq<Path>)
    requires Rooted(t) && Makeable(t, ds)
    ensures Rooted(Grown(t, ds))
  {
    if |ds| > 0 {
      GrownStaysRooted(t, ds[..|ds| - 1]);
    }
  }

  lemma {:induction false} GrownHolds(t: Tree, ds: seq<Path>, p: Path)
    ensures p in Grown(t, ds) <==> p in t || p in ds
    ensures p in ds ==> IsDirectory(Grown(t, ds), p)
    ensures p in t && p !in ds ==> Grown(t, ds)[p] == t[p]
  {
    if |ds| > 0 {
      GrownHolds(t, ds[..|ds| - 1], p);
      assert ds == ds[..|ds| - 1] + [ds[|ds| - 1]];
    }
  }

  /** Removing the made directories last to first undoes making them. */
  lemma {:induction false} ShrunkUndoesGrown(t: Tree, ds: seq<Path>)
    requires Rooted(t) && Makeable(t, ds)
    ensures ShrunkAll(Grown(t, ds), ds) == t
  {
    if |ds| > 0 {
      var last, others := ds[|ds| - 1], ds[..|ds| - 1];
      var before := Grown(t, others);
      GrownStaysRooted(t, others);
      assert Vacant(Grown(t, ds), last) by {
        forall p | p in Grown(t, ds) && |p| > 0 ensures Parent(p) != last {
          assert p == last || p in before;
        }
      }
      assert Shrunk(Grown(t, ds), last) == before;
      ShrunkUndoesGrown(t, others);
    }
  }

  /** Dropping names that are not among the directories commutes with making them. */
  lemma {:induction false} DroppedGrown(t: Tree, ds: seq<Path>, p: Path)
    requires p !in ds
    ensures Dropped(Grown(t, ds), p) == Grown(Dropped(t, p), ds)
  {
    GrownHolds(t, ds, p);
    forall q ensures q in Grown(Dropped(t, p), ds) <==> q in Grown(t, ds) && (q == p ==> !IsFile(t, p)) {
      GrownHolds(Dropped(t, p), ds, q);
      GrownHolds(t, ds, q);
    }
    forall q | q in Grown(Dropped(t, p), ds) ensures Grown(Dropped(t, p), ds)[q] == Dropped(Grown(t, ds), p)[q] {
      GrownHolds(Dropped(t, p), ds, q);
      GrownHolds(t, ds, q);
    }
    assert Dropped(Grown(t, ds), p).Keys == Grown(Dropped(t, p), ds).Keys;
  }

  lemma {:induction false} MakeableWithout(t: Tree, ds: seq<Path>, p: Path)
    requires Makeable(t, ds) && p !in ds
    ensures Makeable(Dropped(t, p), ds)
  {
    hide Dropped;
    if |ds| > 0 {
      var last, others := ds[|ds| - 1], ds[..|ds| - 1];
      MakeableWithout(t, others, p);
      DroppedGrown(t, others, p);
      DroppedKeepsOthers(Grown(t, others), p);
    }
  }

  lemma DroppedKeepsOthers(t: Tree, p: Path)
    ensures forall q :: q !in t ==> q !in Dropped(t, p)
    ensures forall q :: IsDirectory(t, q) ==> IsDirectory(Dropped(t, p), q)
  {
  }

  // ----- the operating system

  datatype Operation =
    Inspect | MakeDirectory | Create | Write | Synchronise | LinkName | Unlink | RemoveDirectory | Open | Read

  /** The file system; `faults` says which of its calls fail, and how many bytes a failing write still puts down. */
  class Disk {
    const faults: (Operation, nat) -> Option<nat>
    var tree: Tree
    var clock: nat
    /** Every tree the disk has held, ending with the present one: where a crash can leave it. */
    ghost var trail: seq<Tree>

    constructor (faults: (Operation, nat) -> Option<nat>)
      ensures Valid() && fresh(this)
      ensures this.faults == faults && tree == map[[] := Directory] && trail == [tree]
    {
      this.faults := faults;
      tree := map[[] := Directory];
      clock := 0;
      trail := [map[[] := Directory]];
    }

    ghost predicate Valid()
      reads this
    {
      Rooted(tree) && |trail| > 0 && trail[|trail| - 1] == tree
    }

    /** unlink and rmdir never fail of themselves. */
    ghost predicate Tidy() {
      forall n :: faults(Unlink, n).None? && faults(RemoveDirectory, n).None?
    }

    ghost predicate Faultless() {
      forall op, n :: faults(op, n).None?
    }

    method Look(p: Path) returns (ok: bool, found: Option<Node>)
      requires Valid()
      modifies this`clock
      ensures Valid()
      ensures ok ==> found == if p in tree then Some(tree[p]) else None
      ensures ok <==> faults(Inspect, old(clock)).None?
    {
      ok := faults(Inspect, clock).None?;
      found := if p in tree then Some(tree[p]) else None;
      clock := clock + 1;
    }

    method Mkdir(p: Path) returns (ok: bool)
      requires Valid() && |p| > 0
      modifies this
      ensures Valid()
      ensures ok <==> faults(MakeDirectory, old(clock)).None? && p !in old(tree) && IsDirectory(old(tree), Parent(p))
      ensures tree == if ok then old(tree)[p := Directory] else old(tree)
      ensures trail == if ok then old(trail) + [tree] else old(trail)
    {
      ok := faults(MakeDirectory, clock).None? && p !in tree && IsDirectory(tree, Parent(p));
      clock := clock + 1;
      if ok {
        tree := tree[p := Directory];
        trail := trail + [tree];
      }
    }

    /** open(p, "xb") */
    method CreateFile(p: Path) returns (ok: bool)
      requires Valid() && |p| > 0
      modifies this
      ensures Valid()
      ensures ok <==> faults(Create, old(clock)).None? && p !in old(tree) && IsDirectory(old(tree), Parent(p))
      ensures tree == if ok then old(tree)[p := File([])] else old(tree)
      ensures trail == if ok then old(trail) + [tree] else old(trail)
    {
      ok := faults(Create, clock).None? && p !in tree && IsDirectory(tree, Parent(p));
      clock := clock + 1;
      if ok {
        tree := tree[p := File([])];
        trail := trail + [tree];
      }
    }

    /** A write reaches the file byte by byte, and one that fails leaves some of its bytes behind. */
    method Append(p: Path, chunk: Bytes) returns (ok: bool)
      requires Valid() && IsFile(tree, p)
      modifies this
      ensures Valid() && IsFile(tree, p)
      ensures ok <==> faults(Write, old(clock)).None?
      ensures tree == Holding(old(tree), p, chunk[..BytesDown(faults(Write, old(clock)), chunk)])
      ensures trail == old(trail) + Writings(old(tree), p, chunk[..BytesDown(faults(Write, old(clock)), chunk)])
    {
      var down := chunk[..BytesDown(faults(Write, clock), chunk)];
      ok := faults(Write, clock).None?;
      clock := clock + 1;
      HoldingFacts(tree, p, down);
      hide Rooted, Holding, Writings, BytesDown;
      trail := trail + Writings(tree, p, down);
      tree := Holding(tree, p, down);
    }

    /** A call that leaves the tree as it is: flushing, opening or reading. */
    method Attempted(op: Operation) returns (ok: bool)
      requires Valid()
      modifies this`clock
      ensures Valid()
      ensures ok <==> faults(op, old(clock)).None?
    {
      ok := faults(op, clock).None?;
      clock := clock + 1;
    }

    /** os.link: the second name appears at once, with all the bytes. */
    method Link(from: Path, to: Path) returns (ok: bool)
      requires Valid() && IsFile(tree, from) && |to| > 0
      modifies this
      ensures Valid()
      ensures ok <==> faults(LinkName, old(clock)).None? && to !in old(tree) && IsDirectory(old(tree), Parent(to))
      ensures tree == if ok then old(tree)[to := old(tree)[from]] else old(tree)
      ensures trail == if ok then old(trail) + [tree] else old(trail)
    {
      ok := faults(LinkName, clock).None? && to !in tree && IsDirectory(tree, Parent(to));
      clock := clock + 1;
      if ok {
        tree := tree[to := tree[from]];
        trail := trail + [tree];
      }
    }

    method Remove(p: Path) returns (ok: bool)
      requires Valid()
      modifies this
      ensures Valid()
      ensures ok <==> faults(Unlink, old(clock)).None? && IsFile(old(tree), p)
      ensures tree == if ok then old(tree) - {p} else old(tree)
      ensures trail == if ok then old(trail) + [tree] else old(trail)
    {
      ok := faults(Unlink, clock).None? && IsFile(tree, p);
      clock := clock + 1;
      if ok {
        DroppedStaysRooted(tree, p);
        tree := tree - {p};
        trail := trail + [tree];
      }
    }

    method Rmdir(p: Path) returns (ok: bool)
      requires Valid() && |p| > 0
      modifies this
      ensures Valid()
      ensures ok <==> faults(RemoveDirectory, old(clock)).None? && IsDirectory(old(tree), p) && Vacant(old(tree), p)
      ensures tree == if ok then old(tree) - {p} else old(tree)
      ensures trail == if ok then old(trail) + [tree] else old(trail)
    {
      ok := faults(RemoveDirectory, clock).None? && IsDirectory(tree, p) && Vacant(tree, p);
      clock := clock + 1;
      if ok {
        tree := tree - {p};
        trail := trail + [tree];
      }
    }
  }

  /** How much of a chunk a write puts down. */
  function BytesDown(fault: Option<nat>, chunk: Bytes): (n: nat)
    ensures n <= |chunk|
  {
    if fault.Some? && fault.value < |chunk| then fault.value else |chunk|
  }

  function Holding(t: Tree, p: Path, more: Bytes): Tree
    requires IsFile(t, p)
  {
    t[p := File(t[p].content + more)]
  }

  /** The trees a write passes through, one byte more in each. */
  ghost function Writings(t: Tree, p: Path, more: Bytes): seq<Tree>
    requires IsFile(t, p)
  {
    seq(|more|, i requires 0 <= i < |more| => Holding(t, p, more[..i + 1]))
  }

  lemma HoldingFacts(t: Tree, p: Path, more: Bytes)
    requires Rooted(t) && IsFile(t, p)
    ensures OnlyAt(t, Holding(t, p, more), p) && Rooted(Holding(t, p, more)) && |Writings(t, p, more)| == |more|
    ensures if |more| == 0 then Holding(t, p, more) == t else Writings(t, p, more)[|more| - 1] == Holding(t, p, more)
  {
    assert more[..|more|] == more;
    assert |more| == 0 ==> t[p].content + more == t[p].content;
  }

  lemma WritingsOnlyAt(trail: seq<Tree>, t: Tree, p: Path, more: Bytes)
    requires IsFile(t, p)
    ensures WritingSince(trail + Writings(t, p, more), |trail|, t, p)
  {
  }

  /** `now` differs from `before` at most in the bytes of one file. */
  ghost predicate OnlyAt(before: Tree, now: Tree, p: Path) {
    IsFile(now, p) && now == before[p := now[p]]
  }

  ghost predicate WritingSince(trail: seq<Tree>, n: nat, before: Tree, p: Path) {
    forall k :: n <= k < |trail| ==> OnlyAt(before, trail[k], p)
  }
}
