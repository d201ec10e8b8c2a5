/** Copying evidence into the controlled directory: temporary file, hard link, clean-up on failure. */
module EvidenceStorage {
  import opened Wrappers
  import opened WindowsBinary
  import opened FileTree

  // ----- the uploaded stream

  /** What successive reads of the caller's stream give; an empty chunk or running out ends it. */
  datatype ReadStep =
    | Chunk(bytes: Bytes)
    | StreamError        // OSError or ValueError
    | OtherException     // anything else the stream object raises

  datatype Reading =
    | Whole(content: Bytes)
    | Interrupted(content: Bytes)
    | Thrown(content: Bytes)

  /** The bytes read, and how reading ends. */
  function ReadAll(source: seq<ReadStep>): Reading {
    if |source| == 0 || source[0] == Chunk([]) then Whole([])
    else match source[0]
      case StreamError => Interrupted([])
      case OtherException => Thrown([])
      case Chunk(bytes) => After(bytes, ReadAll(source[1..]))
  }

  function After(bytes: Bytes, r: Reading): Reading {
    r.(content := bytes + r.content)
  }

  datatype Ending = Exhausted | Failing | Throwing

  /** The stream hands out these chunks, none of them empty, and then ends in this way. */
  ghost predicate Gives(source: seq<ReadStep>, cs: seq<Bytes>, end: Ending) {
    && |cs| <= |source| && (forall i :: 0 <= i < |cs| ==> |cs[i]| > 0 && source[i] == Chunk(cs[i]))
    && match end
       case Exhausted => |source| == |cs| || source[|cs|] == Chunk([])
       case Failing => |source| > |cs| && source[|cs|] == StreamError
       case Throwing => |source| > |cs| && source[|cs|] == OtherException
  }

  /** Reading gives all chunks, one after the other, and ends as the stream does. */
  lemma {:induction false} ReadsAllChunks(source: seq<ReadStep>, cs: seq<Bytes>, end: Ending)
    requires Gives(source, cs, end)
    ensures ReadAll(source) == match end
                               case Exhausted => Whole(Concat(cs))
                               case Failing => Interrupted(Concat(cs))
                               case Throwing => Thrown(Concat(cs))
  {
    if |cs| > 0 {
      ReadsAllChunks(source[1..], cs[1..], end);
    }
  }

  /** Every stream is of this kind. */
  lemma {:induction false} EveryStreamGives(source: seq<ReadStep>) returns (cs: seq<Bytes>, end: Ending)
    ensures Gives(source, cs, end)
  {
    cs := [];
    if |source| == 0 || source[0] == Chunk([]) {
      end := Exhausted;
    } else if source[0].StreamError? {
      end := Failing;
    } else if source[0].OtherException? {
      end := Throwing;
    } else {
      var later;
      later, end := EveryStreamGives(source[1..]);
      cs := [source[0].bytes] + later;
    }
  }

  // ----- names

  function Folder(caseId: string, evidenceId: string): Path {
    [caseId, "evidence", evidenceId]
  }

  function FinalPath(caseId: string, evidenceId: string): Path {
    Folder(caseId, evidenceId) + ["original"]
  }

  function TempPath(caseId: string, evidenceId: string, hex: string): Path {
    Folder(caseId, evidenceId) + [".original." + hex + ".partial"]
  }

  lemma NamesDiffer(caseId: string, evidenceId: string, hex: string)
    ensures TempPath(caseId, evidenceId, hex) != FinalPath(caseId, evidenceId)
    ensures Parent(TempPath(caseId, evidenceId, hex)) == Folder(caseId, evidenceId)
    ensures Parent(FinalPath(caseId, evidenceId)) == Folder(caseId, evidenceId)
  {
    var name := ".original." + hex + ".partial";
    assert name[0] == '.' && "original"[0] == 'o';
    assert TempPath(caseId, evidenceId, hex)[3] == name && FinalPath(caseId, evidenceId)[3] == "original";
  }

  /** Where one registration works: its folder, temporary name, final name and the bytes it is given. */
  datatype Job = Job(folder: Path, temp: Path, final: Path, reading: Reading)

  function JobOf(caseId: string, evidenceId: string, hex: string, source: seq<ReadStep>): Job {
    Job(Folder(caseId, evidenceId), TempPath(caseId, evidenceId, hex), FinalPath(caseId, evidenceId), ReadAll(source))
  }

  ghost predicate Sound(j: Job) {
    && |j.temp| == |j.folder| + 1 && |j.final| == |j.folder| + 1 && j.temp != j.final
    && Parent(j.temp) == j.folder && Parent(j.final) == j.folder
  }

  // ----- what a job may do to the tree, at any moment

  /** A directory on the way to the evidence file. */
  predicate OnTheWay(folder: Path, p: Path) {
    p <= folder && p != []
  }

  /** An entry that this job can have put there; the final name only ever holds the whole content. */
  predicate MayAdd(j: Job, p: Path, node: Node) {
    || (p == j.temp && node.File?)
    || (p == j.final && j.reading.Whole? && node == File(j.reading.content))
    || (OnTheWay(j.folder, p) && node.Directory?)
  }

  /** From `before` to `now`: nothing altered, nothing but the two file names removed, nothing else added. */
  ghost predicate Within(j: Job, before: Tree, now: Tree) {
    && (forall p :: p in before && p in now ==> now[p] == before[p])
    && (forall p :: p in before && p !in now ==> p == j.temp || p == j.final)
    && (forall p :: p in now && p !in before ==> MayAdd(j, p, now[p]))
  }

  /** As Within, but nothing is removed and no directory is made. */
  ghost predicate Transferring(j: Job, before: Tree, now: Tree) {
    && (forall p :: p in before ==> p in now && now[p] == before[p])
    && (forall p :: p in now && p !in before ==> now[p].File? && (p == j.temp || p == j.final) && MayAdd(j, p, now[p]))
  }

  ghost predicate Building(folder: Path, before: Tree, now: Tree) {
    && (forall p :: p in before ==> p in now && now[p] == before[p])
    && (forall p :: p in now && p !in before ==> now[p].Directory? && OnTheWay(folder, p))
  }

  /** Names removed and nothing else. */
  ghost predicate Pruned(before: Tree, now: Tree, names: set<Path>) {
    && (forall p :: p in now ==> p in before && now[p] == before[p])
    && (forall p :: p in before && p !in now ==> p in names)
  }

  lemma ChainsToWithin(j: Job, before: Tree, built: Tree, moved: Tree)
    requires Sound(j)
    requires Building(j.folder, before, built) && Transferring(j, built, moved)
    ensures Within(j, before, moved)
  {
  }

  lemma PruningStaysWithin(j: Job, before: Tree, now: Tree, pruned: Tree, names: set<Path>)
    requires Within(j, before, now) && Pruned(now, pruned, names)
    requires forall p :: p in names && p in before ==> p == j.temp || p == j.final
    ensures Within(j, before, pruned)
  {
  }

  // ----- clean-up

  /** Both names gone, as clean-up leaves them. */
  function Bare(j: Job, t: Tree): Tree {
    Dropped(Dropped(t, j.temp), j.final)
  }

  lemma BareIgnoresTransfer(j: Job, before: Tree, now: Tree)
    requires Sound(j) && Transferring(j, before, now)
    ensures Bare(j, now) == Bare(j, before)
  {
    assert Bare(j, now).Keys == Bare(j, before).Keys;
  }

  /** A file already has one of the two names. */
  predicate Occupied(j: Job, t: Tree) {
    IsFile(t, j.temp) || IsFile(t, j.final)
  }

  /** A clean-up leaves a tree as it found it exactly when neither name was a file. */
  lemma BareIff(j: Job, t: Tree)
    requires Sound(j)
    ensures Bare(j, t) == t <==> !Occupied(j, t)
  {
    if IsFile(t, j.temp) {
      assert j.temp !in Bare(j, t);
    } else if IsFile(t, j.final) {
      assert j.final !in Bare(j, t);
    }
  }

  lemma PrunedFurther(before: Tree, now: Tree, names: set<Path>, p: Path)
    requires Pruned(before, now, names) && p in names
    ensures Pruned(before, now - {p}, names)
  {
  }

  /** Every tree since moment n has only lost some of the names. */
  ghost predicate PrunedSince(trail: seq<Tree>, n: nat, before: Tree, names: set<Path>) {
    forall k :: n <= k < |trail| ==> Pruned(before, trail[k], names)
  }

  lemma PrunedSinceFurther(trail: seq<Tree>, n: nat, before: Tree, now: Tree, names: set<Path>)
    requires PrunedSince(trail, n, before, names) && Pruned(before, now, names)
    ensures PrunedSince(trail + [now], n, before, names)
  {
  }

  method DropFiles(disk: Disk, files: seq<Path>, ghost names: set<Path>)
    requires disk.Valid() && forall p :: p in files ==> p in names
    modifies disk
    ensures disk.Valid()
    ensures disk.Tidy() ==> disk.tree == DroppedAll(old(disk.tree), files)
    ensures old(disk.trail) <= disk.trail
    ensures Pruned(old(disk.tree), disk.tree, names)
    ensures PrunedSince(disk.trail, |old(disk.trail)|, old(disk.tree), names)
  {
    ghost var before := disk.tree;
    assert Pruned(before, before, names);
    assert PrunedSince(disk.trail, |disk.trail|, before, names);
    hide Pruned, PrunedSince, Rooted;
    for i := 0 to |files|
      invariant disk.Valid()
      invariant disk.Tidy() ==> disk.tree == DroppedAll(before, files[..i])
      invariant old(disk.trail) <= disk.trail
      invariant Pruned(before, disk.tree, names)
      invariant PrunedSince(disk.trail, |old(disk.trail)|, before, names)
    {
      PrunedFurther(before, disk.tree, names, files[i]);
      PrunedSinceFurther(disk.trail, |old(disk.trail)|, before, disk.tree - {files[i]}, names);
      var _ := disk.Remove(files[i]);
      assert files[..i + 1][..i] == files[..i];
    }
    assert files[..|files|] == files;
  }

  method DropDirectories(disk: Disk, directories: seq<Path>, ghost names: set<Path>)
    requires disk.Valid() && forall d :: d in directories ==> d in names && |d| > 0
    modifies disk
    ensures disk.Valid()
    ensures disk.Tidy() ==> disk.tree == ShrunkAll(old(disk.tree), directories)
    ensures old(disk.trail) <= disk.trail
    ensures Pruned(old(disk.tree), disk.tree, names)
    ensures PrunedSince(disk.trail, |old(disk.trail)|, old(disk.tree), names)
  {
    ghost var before := disk.tree;
    assert Pruned(before, before, names);
    assert PrunedSince(disk.trail, |disk.trail|, before, names);
    hide Pruned, PrunedSince, Rooted, Vacant, ShrunkAll;
    var n := |directories|;
    assert directories[..n] == directories;
    while n > 0
      invariant 0 <= n <= |directories|
      invariant disk.Valid()
      invariant disk.Tidy() ==> ShrunkAll(disk.tree, directories[..n]) == ShrunkAll(before, directories)
      invariant old(disk.trail) <= disk.trail
      invariant Pruned(before, disk.tree, names)
      invariant PrunedSince(disk.trail, |old(disk.trail)|, before, names)
    {
      n := n - 1;
      PrunedFurther(before, disk.tree, names, directories[n]);
      PrunedSinceFurther(disk.trail, |old(disk.trail)|, before, disk.tree - {directories[n]}, names);
      ShrunkLast(disk.tree, directories, n);
      var _ := disk.Rmdir(directories[n]);
    }
    NothingShrunk(disk.tree, directories);
  }

  lemma ShrunkLast(t: Tree, ds: seq<Path>, n: nat)
    requires n < |ds|
    ensures ShrunkAll(t, ds[..n + 1]) == ShrunkAll(Shrunk(t, ds[n]), ds[..n])
  {
    hide Shrunk;
    assert ds[..n + 1][..n] == ds[..n];
  }

  lemma NothingShrunk(t: Tree, ds: seq<Path>)
    ensures ShrunkAll(t, ds[..0]) == t
  {
  }

  /** cleanup_paths: drops the files, then the directories last to first, suppressing every OSError. */
  method CleanupPaths(disk: Disk, files: seq<Path>, directories: seq<Path>)
    requires disk.Valid()
    requires forall d :: d in directories ==> |d| > 0
    modifies disk
    ensures disk.Valid()
    ensures disk.Tidy() ==> disk.tree == ShrunkAll(DroppedAll(old(disk.tree), files), directories)
    ensures old(disk.trail) <= disk.trail
    ensures PrunedSince(disk.trail, |old(disk.trail)|, old(disk.tree), Names(files, directories))
    ensures Pruned(old(disk.tree), disk.tree, Names(files, directories))
  {
    ghost var before, names := disk.tree, Names(files, directories);
    DropFiles(disk, files, names);
    ghost var between, length := disk.tree, |disk.trail|;
    DropDirectories(disk, directories, names);
    forall k | |old(disk.trail)| <= k < |disk.trail| ensures Pruned(before, disk.trail[k], names) {
      if k >= length {
        assert Pruned(between, disk.trail[k], names);
      }
    }
  }

  ghost function Names(files: seq<Path>, directories: seq<Path>): set<Path> {
    (set p | p in files) + (set d | d in directories)
  }

  // ----- directories

  /** A file stands where a directory is needed. */
  predicate Blocked(t: Tree, folder: Path) {
    exists k | 0 < k <= |folder| :: IsFile(t, folder[..k])
  }

  lemma BlockedAt(t: Tree, folder: Path, i: nat)
    requires i < |folder|
    ensures Blocked(t, folder[..i]) ==> Blocked(t, folder)
    ensures IsFile(t, folder[..i + 1]) ==> Blocked(t, folder)
    ensures Blocked(t, folder[..i + 1]) ==> Blocked(t, folder[..i]) || IsFile(t, folder[..i + 1])
  {
    assert forall k :: 0 <= k <= i ==> folder[..i][..k] == folder[..k];
    assert forall k :: 0 <= k <= i + 1 ==> folder[..i + 1][..k] == folder[..k];
    if Blocked(t, folder[..i]) {
      var k :| 0 < k <= i && IsFile(t, folder[..i][..k]);
      assert IsFile(t, folder[..k]);
    }
    if Blocked(t, folder[..i + 1]) {
      var k :| 0 < k <= i + 1 && IsFile(t, folder[..i + 1][..k]);
      assert k <= i ==> IsFile(t, folder[..i][..k]);
    }
  }

  ghost predicate BuiltSince(trail: seq<Tree>, n: nat, folder: Path, before: Tree) {
    forall k :: n <= k < |trail| ==> Building(folder, before, trail[k])
  }

  /** One part of the path: it must be a directory, or be made one and still resolve afterwards. */
  method EnsureDirectory(disk: Disk, current: Path) returns (ok: bool, made: bool)
    requires disk.Valid() && |current| > 0 && IsDirectory(disk.tree, Parent(current))
    modifies disk
    ensures disk.Valid()
    ensures made ==> current !in old(disk.tree)
    ensures disk.tree == if made then old(disk.tree)[current := Directory] else old(disk.tree)
    ensures disk.trail == if made then old(disk.trail) + [disk.tree] else old(disk.trail)
    ensures ok ==> IsDirectory(disk.tree, current) && !IsFile(old(disk.tree), current)
    ensures disk.Faultless() && !ok ==> IsFile(old(disk.tree), current)
  {
    made := false;
    var looked, found := disk.Look(current);
    if !looked {
      return false, made;
    }
    if found.Some? {
      if !found.value.Directory? {
        return false, made;
      }
    } else {
      made := disk.Mkdir(current);
      if !made {
        return false, made;
      }
    }
    var resolved, _ := disk.Look(current);
    ok := resolved;
  }

  /** The directories made so far, and the tree they give. */
  ghost predicate Made(folder: Path, before: Tree, now: Tree, created: seq<Path>) {
    && Makeable(before, created) && now == Grown(before, created)
    && (forall d :: d in created ==> OnTheWay(folder, d))
    && Building(folder, before, now)
  }

  lemma NothingMade(folder: Path, before: Tree)
    ensures Made(folder, before, before, [])
  {
  }

  lemma OneMoreMade(folder: Path, before: Tree, now: Tree, created: seq<Path>, p: Path)
    requires Made(folder, before, now, created)
    requires p !in now && OnTheWay(folder, p) && IsDirectory(now, Parent(p))
    ensures Made(folder, before, now[p := Directory], created + [p]) && p !in before
  {
    assert (created + [p])[..|created|] == created;
  }

  lemma MadeKeepsFiles(folder: Path, before: Tree, now: Tree, created: seq<Path>, p: Path)
    requires Made(folder, before, now, created)
    ensures IsFile(now, p) <==> IsFile(before, p)
    ensures Building(folder, before, now)
  {
  }

  lemma BuiltFurther(trail: seq<Tree>, n: nat, folder: Path, before: Tree, now: Tree)
    requires n <= |trail| && BuiltSince(trail, n, folder, before) && Building(folder, before, now)
    ensures BuiltSince(trail + [now], n, folder, before)
  {
  }

  lemma NothingBuilt(trail: seq<Tree>, folder: Path, before: Tree)
    ensures BuiltSince(trail, |trail|, folder, before)
  {
  }

  /** _create_generated_directories: `created` lists the directories this call made, outermost first. */
  method CreateGeneratedDirectories(disk: Disk, folder: Path) returns (ok: bool, created: seq<Path>)
    requires disk.Valid()
    modifies disk
    ensures disk.Valid()
    ensures Made(folder, old(disk.tree), disk.tree, created)
    ensures ok ==> IsDirectory(disk.tree, folder) && !Blocked(old(disk.tree), folder)
    ensures disk.Faultless() && !ok ==> Blocked(old(disk.tree), folder)
    ensures old(disk.trail) <= disk.trail
    ensures BuiltSince(disk.trail, |old(disk.trail)|, folder, old(disk.tree))
  {
    ghost var before := disk.tree;
    created := [];
    NothingMade(folder, before);
    NothingBuilt(disk.trail, folder, before);
    assert !Blocked(before, folder[..0]);
    hide Made, Building, BuiltSince, Blocked, Rooted;
    for i := 0 to |folder|
      invariant disk.Valid()
      invariant Made(folder, before, disk.tree, created)
      invariant IsDirectory(disk.tree, folder[..i])
      invariant !Blocked(before, folder[..i])
      invariant old(disk.trail) <= disk.trail
      invariant BuiltSince(disk.trail, |old(disk.trail)|, folder, before)
    {
      var current := folder[..i + 1];
      ghost var now, trail := disk.tree, disk.trail;
      assert Parent(current) == folder[..i];
      MadeKeepsFiles(folder, before, now, created, current);
      BlockedAt(before, folder, i);
      var fine, made := EnsureDirectory(disk, current);
      if made {
        OneMoreMade(folder, before, now, created, current);
        created := created + [current];
        MadeKeepsFiles(folder, before, disk.tree, created, current);
        BuiltFurther(trail, |old(disk.trail)|, folder, before, disk.tree);
      }
      if !fine {
        return false, created;
      }
    }
    assert folder[..|folder|] == folder;
    ok := true;
  }

  // ----- the copy

  datatype Copying =
    | Copied(hashed: Bytes, size: nat)
    | CopyFailed
    | CopyThrown

  lemma AfterAfter(a: Bytes, b: Bytes, r: Reading)
    ensures After(a, After(b, r)) == After(a + b, r)
  {
    assert a + (b + r.content) == a + b + r.content;
  }

  lemma ReadAllChunk(source: seq<ReadStep>, i: nat)
    requires i < |source| && source[i].Chunk? && source[i].bytes != []
    ensures ReadAll(source[i..]) == After(source[i].bytes, ReadAll(source[i + 1..]))
  {
    var rest := source[i..];
    assert rest[0] == source[i] && rest[1..] == source[i + 1..];
    hide After;
  }

  lemma ReadAllStep(source: seq<ReadStep>, i: nat, done: Bytes)
    requires i < |source| && source[i].Chunk? && source[i].bytes != []
    requires ReadAll(source) == After(done, ReadAll(source[i..]))
    ensures ReadAll(source) == After(done + source[i].bytes, ReadAll(source[i + 1..]))
  {
    hide ReadAll, After;
    ReadAllChunk(source, i);
    AfterAfter(done, source[i].bytes, ReadAll(source[i + 1..]));
  }

  lemma OnlyAtAgain(before: Tree, now: Tree, later: Tree, p: Path)
    requires OnlyAt(before, now, p) && OnlyAt(now, later, p)
    ensures OnlyAt(before, later, p)
  {
  }

  lemma WritingFurther(trail: seq<Tree>, n: nat, earlier: seq<Tree>, before: Tree, now: Tree, p: Path)
    requires n <= |earlier| && earlier <= trail && OnlyAt(before, now, p)
    requires WritingSince(earlier, n, before, p)
    requires WritingSince(trail, |earlier|, now, p)
    ensures WritingSince(trail, n, before, p)
  {
    hide OnlyAt;
    forall k | n <= k < |trail| ensures OnlyAt(before, trail[k], p) {
      if k < |earlier| {
        assert trail[k] == earlier[k];
      } else {
        OnlyAtAgain(before, now, trail[k], p);
      }
    }
  }

  /** Copies the stream into the temporary file, chunk by chunk, feeding the digest on the way. */
  method CopyInto(disk: Disk, source: seq<ReadStep>, temp: Path) returns (r: Copying)
    requires disk.Valid() && IsFile(disk.tree, temp) && disk.tree[temp] == File([])
    modifies disk
    ensures disk.Valid() && OnlyAt(old(disk.tree), disk.tree, temp)
    ensures r.Copied? ==>
              ReadAll(source) == Whole(r.hashed) && r.size == |r.hashed| && disk.tree[temp] == File(r.hashed)
    ensures r.CopyThrown? ==> ReadAll(source).Thrown? && disk.tree[temp] == File(ReadAll(source).content)
    ensures disk.Faultless() && r.CopyFailed? ==> ReadAll(source).Interrupted?
    ensures old(disk.trail) <= disk.trail
    ensures WritingSince(disk.trail, |old(disk.trail)|, old(disk.tree), temp)
  {
    hide Rooted;
    ghost var before := disk.tree;
    var hashed: Bytes, size, i := [], 0, 0;
    assert source[0..] == source;
    while i < |source| && source[i] != Chunk([])
      invariant 0 <= i <= |source|
      invariant disk.Valid() && OnlyAt(before, disk.tree, temp)
      invariant disk.tree[temp] == File(hashed) && size == |hashed|
      invariant ReadAll(source) == After(hashed, ReadAll(source[i..]))
      invariant old(disk.trail) <= disk.trail
      invariant WritingSince(disk.trail, |old(disk.trail)|, before, temp)
    {
      match source[i] {
        case StreamError =>
          return CopyFailed;
        case OtherException =>
          assert hashed + [] == hashed;
          return CopyThrown;
        case Chunk(chunk) =>
          ReadAllStep(source, i, hashed);
          hide ReadAll;
          hashed := hashed + chunk;
          ghost var now, trail, down := disk.tree, disk.trail,
            chunk[..BytesDown(disk.faults(Write, disk.clock), chunk)];
          var written := disk.Append(temp, chunk);
          assert written ==> down == chunk;
          HoldingFacts(now, temp, down);
          WritingsOnlyAt(trail, now, temp, down);
          OnlyAtAgain(before, now, disk.tree, temp);
          WritingFurther(disk.trail, |old(disk.trail)|, trail, before, now, temp);
          hide OnlyAt, WritingSince;
          if !written {
            return CopyFailed;
          }
          size := size + |chunk|;
          i := i + 1;
      }
    }
    assert hashed + [] == hashed;
    r := Copied(hashed, size);
  }

  // ----- from the free names to the finished file

  ghost predicate TransferringSince(trail: seq<Tree>, n: nat, j: Job, before: Tree) {
    forall k :: n <= k < |trail| ==> Transferring(j, before, trail[k])
  }

  predicate Free(j: Job, t: Tree) {
    j.temp !in t && j.final !in t
  }

  function WithTemp(j: Job, t: Tree, content: Bytes): Tree {
    t[j.temp := File(content)]
  }

  function WithFinal(j: Job, t: Tree): Tree {
    t[j.final := File(j.reading.content)]
  }

  lemma TempTransfers(j: Job, before: Tree, content: Bytes)
    requires Sound(j) && Free(j, before)
    ensures Transferring(j, before, WithTemp(j, before, content))
  {
  }

  lemma WritingTransfers(j: Job, before: Tree, now: Tree)
    requires Sound(j) && Free(j, before) && OnlyAt(WithTemp(j, before, []), now, j.temp)
    ensures Transferring(j, before, now)
    ensures now[j.temp].File? && now == WithTemp(j, before, now[j.temp].content)
  {
    assert now == before[j.temp := now[j.temp]];
  }

  lemma FinalTransfers(j: Job, before: Tree, content: Bytes)
    requires Sound(j) && Free(j, before) && j.reading == Whole(content)
    ensures Transferring(j, before, WithFinal(j, WithTemp(j, before, content)))
    ensures Transferring(j, before, WithFinal(j, before))
    ensures WithFinal(j, WithTemp(j, before, content)) - {j.temp} == WithFinal(j, before)
  {
  }

  lemma TransferringFurther(trail: seq<Tree>, n: nat, j: Job, before: Tree, now: Tree)
    requires n <= |trail| && TransferringSince(trail, n, j, before) && Transferring(j, before, now)
    ensures TransferringSince(trail + [now], n, j, before)
  {
  }

  lemma WritingTransfersSince(trail: seq<Tree>, n: nat, earlier: seq<Tree>, j: Job, before: Tree)
    requires Sound(j) && Free(j, before) && n <= |earlier| && earlier <= trail
    requires TransferringSince(earlier, n, j, before)
    requires WritingSince(trail, |earlier|, WithTemp(j, before, []), j.temp)
    ensures TransferringSince(trail, n, j, before)
  {
    hide Transferring, OnlyAt, WithTemp;
    forall k | n <= k < |trail| ensures Transferring(j, before, trail[k]) {
      if k < |earlier| {
        assert trail[k] == earlier[k];
      } else {
        WritingTransfers(j, before, trail[k]);
      }
    }
  }

  /** Creates the temporary file, unless either name is taken. */
  method Reserve(disk: Disk, j: Job) returns (ok: bool)
    requires disk.Valid() && Sound(j) && IsDirectory(disk.tree, j.folder)
    modifies disk
    ensures disk.Valid()
    ensures ok ==> Free(j, old(disk.tree))
    ensures disk.tree == if ok then WithTemp(j, old(disk.tree), []) else old(disk.tree)
    ensures disk.trail == if ok then old(disk.trail) + [disk.tree] else old(disk.trail)
    ensures disk.Faultless() && !ok ==> !Free(j, old(disk.tree))
  {
    var looked, found := disk.Look(j.final);
    if !looked || found.Some? {
      return false;
    }
    looked, found := disk.Look(j.temp);
    if !looked || found.Some? {
      return false;
    }
    ok := disk.CreateFile(j.temp);
  }

  /** Gives the finished temporary file its final name, drops the temporary one, and looks at the result. */
  method Publish(disk: Disk, j: Job, ghost before: Tree) returns (ok: bool)
    requires disk.Valid() && Sound(j) && IsDirectory(before, j.folder) && Free(j, before)
    requires j.reading.Whole? && disk.tree == WithTemp(j, before, j.reading.content)
    modifies disk
    ensures disk.Valid()
    ensures ok ==> disk.tree == WithFinal(j, before)
    ensures Transferring(j, before, disk.tree)
    ensures old(disk.trail) <= disk.trail
    ensures TransferringSince(disk.trail, |old(disk.trail)|, j, before)
    ensures disk.Faultless() ==> ok
  {
    ghost var trail := disk.trail;
    TempTransfers(j, before, j.reading.content);
    FinalTransfers(j, before, j.reading.content);
    assert TransferringSince(trail, |trail|, j, before);
    hide Transferring, TransferringSince, Rooted;
    ok := disk.Link(j.temp, j.final);
    if !ok {
      return;
    }
    TransferringFurther(trail, |trail|, j, before, disk.tree);
    ghost var linked := disk.trail;
    ok := disk.Remove(j.temp);
    if !ok {
      return;
    }
    TransferringFurther(linked, |trail|, j, before, disk.tree);
    var looked, found := disk.Look(j.final);
    ok := looked && found.Some? && found.value.File?;
  }

  datatype Transferred =
    | Finished(digest: string, size: nat)
    | Failed
    | Raised

  /** Creates the temporary file, fills it from the stream and forces it to the disk. */
  method Fill(disk: Disk, source: seq<ReadStep>, j: Job) returns (r: Copying)
    requires disk.Valid() && Sound(j) && IsDirectory(disk.tree, j.folder) && j.reading == ReadAll(source)
    modifies disk
    ensures disk.Valid()
    ensures !r.CopyFailed? ==> Free(j, old(disk.tree)) && disk.tree == WithTemp(j, old(disk.tree), j.reading.content)
    ensures r.Copied? ==> j.reading == Whole(r.hashed) && r.size == |r.hashed|
    ensures r.CopyThrown? ==> j.reading.Thrown?
    ensures Transferring(j, old(disk.tree), disk.tree)
    ensures old(disk.trail) <= disk.trail
    ensures TransferringSince(disk.trail, |old(disk.trail)|, j, old(disk.tree))
    ensures disk.Faultless() && r.CopyFailed? ==> !Free(j, old(disk.tree)) || j.reading.Interrupted?
  {
    ghost var before, trail0 := disk.tree, disk.trail;
    assert Transferring(j, before, before);
    assert TransferringSince(trail0, |trail0|, j, before);
    hide Transferring, TransferringSince, WritingSince, Rooted, ReadAll;
    var reserved := Reserve(disk, j);
    if !reserved {
      return CopyFailed;
    }
    TempTransfers(j, before, []);
    TransferringFurther(trail0, |trail0|, j, before, disk.tree);
    ghost var trail1 := disk.trail;
    r := CopyInto(disk, source, j.temp);
    WritingTransfers(j, before, disk.tree);
    WritingTransfersSince(disk.trail, |trail0|, trail1, j, before);
    hide OnlyAt, WithTemp;
    if r.Copied? {
      var synced := disk.Attempted(Synchronise);
      if !synced {
        r := CopyFailed;
      }
    }
  }

  /** The body of store's try block once the directories are there. */
  method Transfer(disk: Disk, source: seq<ReadStep>, j: Job, sha256: Bytes -> string) returns (r: Transferred)
    requires disk.Valid() && Sound(j) && IsDirectory(disk.tree, j.folder) && j.reading == ReadAll(source)
    modifies disk
    ensures disk.Valid()
    ensures r.Finished? ==> Free(j, old(disk.tree)) && j.reading.Whole? && disk.tree == WithFinal(j, old(disk.tree))
    ensures r.Finished? ==> r.digest == sha256(j.reading.content) && r.size == |j.reading.content|
    ensures r.Raised? ==> Free(j, old(disk.tree)) && j.reading.Thrown?
    ensures r.Raised? ==> disk.tree == WithTemp(j, old(disk.tree), j.reading.content)
    ensures Transferring(j, old(disk.tree), disk.tree)
    ensures old(disk.trail) <= disk.trail
    ensures TransferringSince(disk.trail, |old(disk.trail)|, j, old(disk.tree))
    ensures disk.Faultless() && r.Failed? ==> !Free(j, old(disk.tree)) || j.reading.Interrupted?
  {
    hide Transferring, TransferringSince, Rooted, ReadAll, WithTemp, WithFinal;
    ghost var before := disk.tree;
    var copy := Fill(disk, source, j);
    match copy {
      case CopyFailed =>
        r := Failed;
      case CopyThrown =>
        r := Raised;
      case Copied(hashed, size) =>
        ghost var earlier := disk.trail;
        var published := Publish(disk, j, before);
        TransferringOn(disk.trail, |old(disk.trail)|, earlier, j, before);
        r := if published then Finished(sha256(hashed), size) else Failed;
    }
  }

  lemma TransferringOn(trail: seq<Tree>, n: nat, earlier: seq<Tree>, j: Job, before: Tree)
    requires n <= |earlier| && earlier <= trail
    requires TransferringSince(earlier, n, j, before) && TransferringSince(trail, |earlier|, j, before)
    ensures TransferringSince(trail, n, j, before)
  {
    hide Transferring;
    forall k | n <= k < |trail| ensures Transferring(j, before, trail[k]) {
      assert k < |earlier| ==> trail[k] == earlier[k];
    }
  }

  // ----- store

  datatype Stored = Stored(path: Path, digest: string, size: nat, created: seq<Path>)

  datatype StoreResult =
    | Kept(stored: Stored)
    | Refused       // InfrastructureError, after clean-up
    | Unavailable   // InfrastructureError before anything was touched
    | Escaped       // an exception the handlers do not name: no clean-up

  ghost predicate WithinSince(trail: seq<Tree>, n: nat, j: Job, before: Tree) {
    forall k :: n <= k < |trail| ==> Within(j, before, trail[k])
  }

  lemma {:induction false} MadeAreNew(t: Tree, ds: seq<Path>, d: Path)
    requires Makeable(t, ds) && d in ds
    ensures d !in t
  {
    var last, others := ds[|ds| - 1], ds[..|ds| - 1];
    if d == last {
      GrownHolds(t, others, d);
    } else {
      assert ds == others + [last];
      MadeAreNew(t, others, d);
    }
  }

  /** Whatever the body of store got done, a clean-up that works leaves the old tree without the two names. */
  lemma CleanUpRestores(j: Job, before: Tree, built: Tree, moved: Tree, created: seq<Path>)
    requires Sound(j) && Rooted(before)
    requires Made(j.folder, before, built, created) && Transferring(j, built, moved)
    ensures ShrunkAll(DroppedAll(moved, [j.temp, j.final]), created) == Bare(j, before)
  {
    BareIsDroppedAll(j, moved);
    BareIgnoresTransfer(j, built, moved);
    assert j.temp !in created && j.final !in created;
    DroppedGrown(before, created, j.temp);
    MakeableWithout(before, created, j.temp);
    DroppedStaysRooted(before, j.temp);
    var half := Dropped(before, j.temp);
    DroppedGrown(half, created, j.final);
    MakeableWithout(half, created, j.final);
    DroppedStaysRooted(half, j.final);
    ShrunkUndoesGrown(Bare(j, before), created);
  }

  lemma BareIsDroppedAll(j: Job, t: Tree)
    ensures DroppedAll(t, [j.temp, j.final]) == Bare(j, t)
  {
    var ps := [j.temp, j.final];
    assert ps[..1] == [j.temp] && ps[..1][..0] == [];
    assert DroppedAll(t, ps[..1]) == Dropped(DroppedAll(t, []), j.temp);
  }

  /** Undoing a finished copy whose names were free restores the old tree. */
  lemma UndoingRestores(j: Job, before: Tree, built: Tree, created: seq<Path>)
    requires Sound(j) && Rooted(before) && Made(j.folder, before, built, created) && j.final !in built
    ensures ShrunkAll(DroppedAll(WithFinal(j, built), [j.final]), created) == before
  {
    var ps := [j.final];
    assert ps[..0] == [];
    assert DroppedAll(WithFinal(j, built), ps) == Dropped(WithFinal(j, built), j.final) == built;
    ShrunkUndoesGrown(before, created);
  }

  lemma BuildingSinceWithin(trail: seq<Tree>, n: nat, j: Job, before: Tree)
    requires BuiltSince(trail, n, j.folder, before)
    ensures WithinSince(trail, n, j, before)
  {
  }

  lemma TransferringSinceWithin(trail: seq<Tree>, n: nat, earlier: seq<Tree>, j: Job, before: Tree, built: Tree)
    requires Sound(j) && n <= |earlier| && earlier <= trail && Building(j.folder, before, built)
    requires WithinSince(earlier, n, j, before) && TransferringSince(trail, |earlier|, j, built)
    ensures WithinSince(trail, n, j, before)
  {
    hide Within, Building, Transferring;
    forall k | n <= k < |trail| ensures Within(j, before, trail[k]) {
      if k < |earlier| {
        assert trail[k] == earlier[k];
      } else {
        ChainsToWithin(j, before, built, trail[k]);
      }
    }
  }

  lemma PrunedSinceWithin(trail: seq<Tree>, n: nat, earlier: seq<Tree>, j: Job, before: Tree, now: Tree,
                          files: seq<Path>, created: seq<Path>)
    requires Sound(j) && n <= |earlier| && earlier <= trail && Within(j, before, now)
    requires Makeable(before, created) && forall p :: p in files ==> p == j.temp || p == j.final
    requires WithinSince(earlier, n, j, before) && PrunedSince(trail, |earlier|, now, Names(files, created))
    ensures WithinSince(trail, n, j, before)
  {
    hide Within, Pruned, Makeable, Names;
    forall k | n <= k < |trail| ensures Within(j, before, trail[k]) {
      if k < |earlier| {
        assert trail[k] == earlier[k];
      } else {
        PrunedNowWithin(j, before, now, trail[k], files, created);
      }
    }
  }

  /** Makes the directories and transfers the bytes: the try block of store. */
  method Attempt(disk: Disk, source: seq<ReadStep>, j: Job, sha256: Bytes -> string)
      returns (r: Transferred, created: seq<Path>, ghost built: Tree)
    requires disk.Valid() && Sound(j) && j.reading == ReadAll(source)
    modifies disk
    ensures disk.Valid()
    ensures Made(j.folder, old(disk.tree), built, created) && Transferring(j, built, disk.tree)
    ensures r.Finished? ==> Free(j, built) && j.reading.Whole? && disk.tree == WithFinal(j, built)
    ensures r.Finished? ==> r.digest == sha256(j.reading.content) && r.size == |j.reading.content|
    ensures r.Raised? ==> Free(j, built) && j.reading.Thrown? && disk.tree == WithTemp(j, built, j.reading.content)
    ensures old(disk.trail) <= disk.trail
    ensures WithinSince(disk.trail, |old(disk.trail)|, j, old(disk.tree))
    ensures disk.Faultless() && r.Failed? ==>
      Blocked(old(disk.tree), j.folder) || !Free(j, built) || j.reading.Interrupted?
    ensures r.Finished? || r.Raised? ==> !Blocked(old(disk.tree), j.folder)
  {
    ghost var before, trail0 := disk.tree, disk.trail;
    var ok: bool;
    ok, created := CreateGeneratedDirectories(disk, j.folder);
    built := disk.tree;
    ghost var trail1 := disk.trail;
    MadeKeepsFiles(j.folder, before, built, created, j.final);
    BuildingSinceWithin(trail1, |trail0|, j, before);
    if !ok {
      assert Transferring(j, built, built);
      return Failed, created, built;
    }
    hide Made, Transferring, TransferringSince, WithinSince, BuiltSince, Building, Rooted, ReadAll, Blocked, WithFinal,
      WithTemp, Free;
    r := Transfer(disk, source, j, sha256);
    TransferringSinceWithin(disk.trail, |trail0|, trail1, j, before, built);
  }

  /** Kept: complete, at its final name, with true size and digest.  Escaped: the temporary file stays behind. */
  ghost predicate StoredAs(r: StoreResult, j: Job, before: Tree, built: Tree, now: Tree, sha256: Bytes -> string) {
    match r
    case Kept(stored) =>
      && Made(j.folder, before, built, stored.created) && Free(j, built) && j.reading.Whole?
      && now == WithFinal(j, built)
      && stored.path == j.final && stored.digest == sha256(j.reading.content) && stored.size == |j.reading.content|
    case Refused => true
    case Unavailable => now == before
    case Escaped =>
      && (exists created :: Made(j.folder, before, built, created))
      && Free(j, built) && j.reading.Thrown? && now == WithTemp(j, built, j.reading.content)
  }

  /** What becomes of a request when no disk operation fails. */
  predicate Decided(r: StoreResult, before: Tree, j: Job) {
    if Blocked(before, j.folder) || !Free(j, before) then r.Refused?
    else match j.reading
      case Whole(_) => r.Kept?
      case Interrupted(_) => r.Refused?
      case Thrown(_) => r.Escaped?
  }

  lemma FinishedIsKept(j: Job, before: Tree, built: Tree, now: Tree, stored: Stored, sha256: Bytes -> string)
    requires Sound(j) && Made(j.folder, before, built, stored.created) && Free(j, built) && j.reading.Whole?
    requires now == WithFinal(j, built) && !Blocked(before, j.folder)
    requires stored.path == j.final && stored.digest == sha256(j.reading.content) && stored.size == |j.reading.content|
    ensures StoredAs(Kept(stored), j, before, built, now, sha256) && Decided(Kept(stored), before, j)
  {
    DirectoriesLeaveNamesFree(j, before, built, stored.created);
  }

  lemma RaisedEscapes(j: Job, before: Tree, built: Tree, now: Tree, created: seq<Path>, sha256: Bytes -> string)
    requires Sound(j) && Made(j.folder, before, built, created) && Free(j, built) && j.reading.Thrown?
    requires now == WithTemp(j, built, j.reading.content) && !Blocked(before, j.folder)
    ensures StoredAs(Escaped, j, before, built, now, sha256) && Decided(Escaped, before, j)
  {
    DirectoriesLeaveNamesFree(j, before, built, created);
  }

  lemma FailedIsRefused(j: Job, before: Tree, built: Tree, now: Tree, created: seq<Path>, sha256: Bytes -> string)
    requires Sound(j) && Made(j.folder, before, built, created)
    ensures StoredAs(Refused, j, before, built, now, sha256)
    ensures Blocked(before, j.folder) || !Free(j, built) || j.reading.Interrupted? ==> Decided(Refused, before, j)
  {
    DirectoriesLeaveNamesFree(j, before, built, created);
  }

  lemma UntouchedIsUnavailable(j: Job, before: Tree, built: Tree, sha256: Bytes -> string)
    ensures StoredAs(Unavailable, j, before, built, before, sha256)
  {
  }

  lemma DirectoriesLeaveNamesFree(j: Job, before: Tree, built: Tree, created: seq<Path>)
    requires Sound(j) && Made(j.folder, before, built, created)
    ensures Free(j, built) <==> Free(j, before)
  {
  }

  lemma WithinItself(j: Job, before: Tree, trail: seq<Tree>)
    ensures Within(j, before, before) && WithinSince(trail, |trail|, j, before)
  {
  }

  lemma NowWithin(j: Job, before: Tree, built: Tree, now: Tree, created: seq<Path>)
    requires Sound(j) && Made(j.folder, before, built, created) && Transferring(j, built, now)
    ensures Within(j, before, now)
  {
    ChainsToWithin(j, before, built, now);
  }

  /** What clean-up starts from, and what it will lead to. */
  lemma BeforeCleanUp(j: Job, before: Tree, built: Tree, moved: Tree, created: seq<Path>)
    requires Sound(j) && Rooted(before)
    requires Made(j.folder, before, built, created) && Transferring(j, built, moved)
    ensures ShrunkAll(DroppedAll(moved, [j.temp, j.final]), created) == Bare(j, before)
    ensures Bare(j, before) == before <==> !Occupied(j, before)
    ensures Makeable(before, created) && (forall d :: d in created ==> |d| > 0) && Within(j, before, moved)
  {
    BareIff(j, before);
    CleanUpRestores(j, before, built, moved, created);
    MadeIsMakeable(j.folder, before, built, created);
    NowWithin(j, before, built, moved, created);
  }

  /** The clean-up of a failed store, seen from the tree before the call. */
  method CleanUp(disk: Disk, j: Job, created: seq<Path>, ghost before: Tree, ghost built: Tree, ghost n: nat)
    requires disk.Valid() && Sound(j) && Rooted(before)
    requires n <= |disk.trail| && WithinSince(disk.trail, n, j, before)
    requires Made(j.folder, before, built, created) && Transferring(j, built, disk.tree)
    modifies disk
    ensures disk.Valid()
    ensures disk.Tidy() ==> disk.tree == Bare(j, before) && (disk.tree == before <==> !Occupied(j, before))
    ensures old(disk.trail) <= disk.trail
    ensures WithinSince(disk.trail, n, j, before)
    ensures Within(j, before, disk.tree)
  {
    hide Made, Transferring, WithinSince, Within, Rooted, Bare, Pruned, PrunedSince, Names, DroppedAll, ShrunkAll,
      Makeable, Occupied;
    ghost var moved, trail := disk.tree, disk.trail;
    BeforeCleanUp(j, before, built, moved, created);
    CleanupPaths(disk, [j.temp, j.final], created);
    PrunedSinceWithin(disk.trail, n, trail, j, before, moved, [j.temp, j.final], created);
    PrunedNowWithin(j, before, moved, disk.tree, [j.temp, j.final], created);
  }

  /** store: the call as a whole, with its handlers. */
  method Store(disk: Disk, source: seq<ReadStep>, caseId: string, evidenceId: string, hex: string,
               sha256: Bytes -> string)
      returns (r: StoreResult, ghost built: Tree)
    requires disk.Valid()
    modifies disk
    ensures disk.Valid()
    ensures old(disk.trail) <= disk.trail
    // at every moment, and so after a crash at any point
    ensures WithinSince(disk.trail, |old(disk.trail)|, JobOf(caseId, evidenceId, hex, source), old(disk.tree))
    ensures Within(JobOf(caseId, evidenceId, hex, source), old(disk.tree), disk.tree)
    // a finished copy, or what a failed one leaves
    ensures StoredAs(r, JobOf(caseId, evidenceId, hex, source), old(disk.tree), built, disk.tree, sha256)
    ensures r.Refused? && disk.Tidy() ==> disk.tree == Bare(JobOf(caseId, evidenceId, hex, source), old(disk.tree))
    ensures r.Refused? && disk.Tidy() ==>
      (disk.tree == old(disk.tree) <==> !Occupied(JobOf(caseId, evidenceId, hex, source), old(disk.tree)))
    // when nothing on the disk fails, the request alone decides
    ensures disk.Faultless() ==> Decided(r, old(disk.tree), JobOf(caseId, evidenceId, hex, source))
  {
    var j := JobOf(caseId, evidenceId, hex, source);
    NamesDiffer(caseId, evidenceId, hex);
    ghost var before, trail0 := disk.tree, disk.trail;
    WithinItself(j, before, trail0);
    built := disk.tree;
    UntouchedIsUnavailable(j, before, built, sha256);
    hide Made, Transferring, WithinSince, Within, Rooted, ReadAll, Blocked, WithFinal, WithTemp, Free, JobOf, Bare,
      Occupied, StoredAs, Decided;
    var prepared, _ := disk.Look([]);
    if !prepared {
      return Unavailable, built;
    }
    var t, created;
    t, created, built := Attempt(disk, source, j, sha256);
    NowWithin(j, before, built, disk.tree, created);
    match t {
      case Finished(digest, size) =>
        r := Kept(Stored(j.final, digest, size, created));
        FinishedIsKept(j, before, built, disk.tree, r.stored, sha256);
      case Raised =>
        r := Escaped;
        RaisedEscapes(j, before, built, disk.tree, created, sha256);
      case Failed =>
        CleanUp(disk, j, created, before, built, |trail0|);
        r := Refused;
        FailedIsRefused(j, before, built, disk.tree, created, sha256);
    }
  }

  lemma MadeIsMakeable(folder: Path, before: Tree, built: Tree, created: seq<Path>)
    requires Made(folder, before, built, created)
    ensures Makeable(before, created) && forall d :: d in created ==> |d| > 0
  {
  }

  lemma PrunedNowWithin(j: Job, before: Tree, now: Tree, pruned: Tree, files: seq<Path>, created: seq<Path>)
    requires Sound(j) && Within(j, before, now) && Makeable(before, created)
    requires forall p :: p in files ==> p == j.temp || p == j.final
    requires Pruned(now, pruned, Names(files, created))
    ensures Within(j, before, pruned)
  {
    forall p | p in Names(files, created) && p in before ensures p == j.temp || p == j.final {
      if p in created {
        MadeAreNew(before, created, p);
      }
    }
    PruningStaysWithin(j, before, now, pruned, Names(files, created));
  }

  // ----- the branch that destroys

  /** A refused registration deletes a file that already had the final name: one such tree. */
  lemma ExistingDestinationIsDeleted()
    ensures
      var j := JobOf("case", "id", "0", []);
      var before: Tree := map[[] := Directory, ["case"] := Directory, ["case", "evidence"] := Directory,
                              j.folder := Directory, j.final := File([7])];
      && Rooted(before) && (forall r :: Decided(r, before, j) <==> r.Refused?)
      && j.final in before && j.final !in Bare(j, before)
  {
    var j := JobOf("case", "id", "0", []);
    var before: Tree := map[[] := Directory, ["case"] := Directory, ["case", "evidence"] := Directory,
                            j.folder := Directory, j.final := File([7])];
    NamesDiffer("case", "id", "0");
    assert Parent(["case"]) == [] && Parent(["case", "evidence"]) == ["case"]
           && Parent(j.folder) == ["case", "evidence"];
    assert !Free(j, before);
    assert IsFile(before, j.final) && IsFile(Dropped(before, j.temp), j.final);
  }

  /** An exception of the stream that no handler names leaves the temporary file behind: one such stream. */
  lemma StreamExceptionLeavesTemporary(r: StoreResult, built: Tree, now: Tree, sha256: Bytes -> string)
    ensures
      var j := JobOf("case", "id", "0", [OtherException]);
      var before: Tree := map[[] := Directory];
      && Rooted(before) && (Decided(r, before, j) <==> r.Escaped?)
      && (r.Escaped? && StoredAs(r, j, before, built, now, sha256) ==> j.temp in now && j.temp !in before)
  {
    var j := JobOf("case", "id", "0", [OtherException]);
    var before: Tree := map[[] := Directory];
    assert j.temp != [] && j.final != [];
    assert Free(j, before) && !Blocked(before, j.folder);
  }

  // ----- reading a stored file back

  const COPY_CHUNK_SIZE := 1024 * 1024

  /** calculate_sha256: None when the file cannot be opened or read. */
  method CalculateSha256(disk: Disk, path: Path, sha256: Bytes -> string) returns (r: Option<(string, nat)>)
    requires disk.Valid() && IsFile(disk.tree, path)
    modifies disk`clock
    ensures disk.Valid()
    ensures r.Some? ==> r.value == (sha256(disk.tree[path].content), |disk.tree[path].content|)
    ensures disk.Faultless() ==> r.Some?
  {
    var content := disk.tree[path].content;
    var begun := disk.Attempted(Open);
    if !begun {
      return None;
    }
    var hashed: Bytes, size, position := [], 0, 0;
    while position < |content|
      invariant position <= |content| && disk.Valid()
      invariant hashed == content[..position] && size == position
    {
      var next := if position + COPY_CHUNK_SIZE < |content| then position + COPY_CHUNK_SIZE else |content|;
      var got := disk.Attempted(Read);
      if !got {
        return None;
      }
      var chunk := content[position..next];
      hashed := hashed + chunk;
      size := size + |chunk|;
      position := next;
    }
    assert content[..|content|] == content;
    r := Some((sha256(hashed), size));
  }
}
