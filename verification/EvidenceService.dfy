/** Registering and verifying evidence: a file is stored first, its rows are committed after. */
module EvidenceService {
  import opened Wrappers
  import opened WindowsBinary
  import opened FileTree
  import opened EvidenceStorage

  // ----- rows

  datatype CaseStatus = OpenCase | ClosedCase | ArchivedCase
  datatype Purpose = Acquisition | Verification

  datatype Evidence = Evidence(id: string, caseId: string, number: nat, name: string, path: Path, size: nat)
  datatype HashRow = HashRow(evidenceId: string, digest: string, purpose: Purpose)
  datatype CustodyRow = CustodyRow(evidenceId: string, person: string)
  datatype AuditRow =
    | EvidenceRegistered(caseId: string, evidenceId: string, number: nat, size: nat)
    | EvidenceVerified(caseId: string, evidenceId: string, matched: bool, size: nat)

  datatype Tables = Tables(evidence: seq<Evidence>, hashes: seq<HashRow>, custody: seq<CustodyRow>,
                           audits: seq<AuditRow>)

  /** The evidence directory and the committed rows together. */
  datatype World = World(tree: Tree, tables: Tables)

  datatype Request = Request(caseId: string, name: string, source: seq<ReadStep>, person: string, evidenceId: string,
                             hex: string)

  function JobFor(q: Request): Job {
    JobOf(q.caseId, q.evidenceId, q.hex, q.source)
  }

  // ----- lookups

  function Acquisitions(hashes: seq<HashRow>): seq<HashRow> {
    if |hashes| == 0 then []
    else
      var last := hashes[|hashes| - 1];
      Acquisitions(hashes[..|hashes| - 1]) + if last.purpose.Acquisition? then [last] else []
  }

  /** The digest of the first acquisition row of this evidence. */
  function RecordedDigest(hashes: seq<HashRow>, id: string): Option<string> {
    FirstDigest(Acquisitions(hashes), id)
  }

  function FirstDigest(rows: seq<HashRow>, id: string): Option<string> {
    if |rows| == 0 then None
    else if rows[0].evidenceId == id then Some(rows[0].digest)
    else FirstDigest(rows[1..], id)
  }

  function FindEvidence(rows: seq<Evidence>, id: string): (r: Option<Evidence>)
    ensures r.Some? ==> r.value in rows && r.value.id == id
    ensures r.None? ==> forall e :: e in rows ==> e.id != id
  {
    if |rows| == 0 then None else if rows[0].id == id then Some(rows[0]) else FindEvidence(rows[1..], id)
  }

  // ----- what the tables and the files promise each other

  /** One acquisition digest and one custody entry per evidence row, in the same order. */
  ghost predicate Aligned(t: Tables) {
    && |Acquisitions(t.hashes)| == |t.evidence| && |t.custody| == |t.evidence|
    && (forall i :: 0 <= i < |t.evidence| ==>
      && Acquisitions(t.hashes)[i].evidenceId == t.evidence[i].id
      && t.custody[i].evidenceId == t.evidence[i].id
      && t.evidence[i].path == FinalPath(t.evidence[i].caseId, t.evidence[i].id))
    && (forall i, j :: 0 <= i < j < |t.evidence| ==>
      t.evidence[i].id != t.evidence[j].id && t.evidence[i].number < t.evidence[j].number)
  }

  /** The evidence row's file is there, complete, with the recorded size and digest. */
  ghost predicate Intact(sha256: Bytes -> string, tree: Tree, e: Evidence, digest: string) {
    IsFile(tree, e.path) && |tree[e.path].content| == e.size && sha256(tree[e.path].content) == digest
  }

  ghost predicate Consistent(sha256: Bytes -> string, w: World) {
    && Aligned(w.tables)
    && forall i :: 0 <= i < |w.tables.evidence| ==>
      Intact(sha256, w.tree, w.tables.evidence[i], Acquisitions(w.tables.hashes)[i].digest)
  }

  ghost predicate NumbersBelow(t: Tables, number: nat) {
    forall i :: 0 <= i < |t.evidence| ==> t.evidence[i].number < number
  }

  ghost predicate Unused(t: Tables, id: string) {
    forall i :: 0 <= i < |t.evidence| ==> t.evidence[i].id != id
  }

  // ----- what one registration may do to the world, at any moment

  function Recorded(t: Tables, e: Evidence, digest: string, person: string): Tables {
    Tables(t.evidence + [e], t.hashes + [HashRow(e.id, digest, Acquisition)], t.custody + [CustodyRow(e.id, person)],
           t.audits + [EvidenceRegistered(e.caseId, e.id, e.number, e.size)])
  }

  function NewEvidence(q: Request, number: nat): Evidence {
    Evidence(q.evidenceId, q.caseId, number, q.name, FinalPath(q.caseId, q.evidenceId), |ReadAll(q.source).content|)
  }

  /** Only the tree has moved. */
  ghost predicate Underway(q: Request, w: World, v: World) {
    Within(JobFor(q), w.tree, v.tree) && v.tables == w.tables
  }

  /** The rows are committed, and the whole content has the final name. */
  ghost predicate Completed(sha256: Bytes -> string, q: Request, number: nat, w: World, v: World) {
    && Within(JobFor(q), w.tree, v.tree) && ReadAll(q.source).Whole?
    && JobFor(q).final in v.tree && v.tree[JobFor(q).final] == File(ReadAll(q.source).content)
    && v.tables == Recorded(w.tables, NewEvidence(q, number), sha256(ReadAll(q.source).content), q.person)
  }

  lemma FilesOfOthersStay(sha256: Bytes -> string, q: Request, before: Tree, now: Tree, e: Evidence, digest: string)
    requires Within(JobFor(q), before, now) && Intact(sha256, before, e, digest)
    requires e.path == FinalPath(e.caseId, e.id) && e.id != q.evidenceId
    ensures Intact(sha256, now, e, digest)
  {
    assert e.path[2] == e.id && JobFor(q).temp[2] == q.evidenceId && JobFor(q).final[2] == q.evidenceId;
  }

  /** Every moment of a registration under a fresh identifier keeps every committed row's file intact. */
  lemma UnderwayKeepsConsistent(sha256: Bytes -> string, q: Request, w: World, v: World)
    requires Consistent(sha256, w) && Unused(w.tables, q.evidenceId) && Underway(q, w, v)
    ensures Consistent(sha256, v)
  {
    hide Intact, Within;
    forall i | 0 <= i < |v.tables.evidence|
      ensures Intact(sha256, v.tree, v.tables.evidence[i], Acquisitions(v.tables.hashes)[i].digest)
    {
      FilesOfOthersStay(sha256, q, w.tree, v.tree, w.tables.evidence[i], Acquisitions(w.tables.hashes)[i].digest);
    }
  }

  lemma RecordedStaysAligned(t: Tables, e: Evidence, digest: string, person: string)
    requires Aligned(t) && Unused(t, e.id) && e.path == FinalPath(e.caseId, e.id)
    requires forall i :: 0 <= i < |t.evidence| ==> t.evidence[i].number < e.number
    ensures Aligned(Recorded(t, e, digest, person))
    ensures Acquisitions(Recorded(t, e, digest, person).hashes)
         == Acquisitions(t.hashes) + [HashRow(e.id, digest, Acquisition)]
  {
    hide FinalPath;
    var hashes := Recorded(t, e, digest, person).hashes;
    assert hashes[..|hashes| - 1] == t.hashes;
  }

  lemma CompletedKeepsConsistent(sha256: Bytes -> string, q: Request, number: nat, w: World, v: World)
    requires Consistent(sha256, w) && Unused(w.tables, q.evidenceId) && Completed(sha256, q, number, w, v)
    requires NumbersBelow(w.tables, number)
    ensures Consistent(sha256, v)
  {
    var e, digest := NewEvidence(q, number), sha256(ReadAll(q.source).content);
    RecordedStaysAligned(w.tables, e, digest, q.person);
    assert Intact(sha256, v.tree, e, digest);
    hide Intact, Within, Aligned, FinalPath, NewEvidence;
    assert v.tables.evidence == w.tables.evidence + [e];
    forall i | 0 <= i < |v.tables.evidence|
      ensures Intact(sha256, v.tree, v.tables.evidence[i], Acquisitions(v.tables.hashes)[i].digest)
    {
      if i < |w.tables.evidence| {
        OldRow(w.tables, i);
        FilesOfOthersStay(sha256, q, w.tree, v.tree, w.tables.evidence[i], Acquisitions(w.tables.hashes)[i].digest);
      }
    }
  }

  lemma CompletedAddsOne(sha256: Bytes -> string, q: Request, number: nat, w: World, v: World)
    requires Completed(sha256, q, number, w, v)
    ensures v.tables.evidence == w.tables.evidence + [NewEvidence(q, number)] && NewEvidence(q, number).number == number
  {
  }

  lemma OldRow(t: Tables, i: nat)
    requires Aligned(t) && i < |t.evidence|
    ensures |Acquisitions(t.hashes)| == |t.evidence|
    ensures t.evidence[i].path == FinalPath(t.evidence[i].caseId, t.evidence[i].id)
  {
  }

  // ----- what a registration leaves, said without reference to how it gets there

  /**
   The chunks of the stream, one after the other, lie under the final name; the evidence row has
   their length; the new rows of the other tables belong to it, with the digest of those bytes.
   */
  ghost predicate Preserved(sha256: Bytes -> string, q: Request, number: nat, e: Evidence, cs: seq<Bytes>,
                            before: Tables, now: Tree, after: Tables) {
    var path, content := [q.caseId, "evidence", q.evidenceId, "original"], Concat(cs);
    && Gives(q.source, cs, Exhausted)
    && path in now && now[path] == File(content)
    && e.id == q.evidenceId && e.caseId == q.caseId && e.number == number && e.name == q.name
    && e.path == path && e.size == |content|
    && after.evidence == before.evidence + [e]
    && after.hashes == before.hashes + [HashRow(q.evidenceId, sha256(content), Acquisition)]
    && after.custody == before.custody + [CustodyRow(q.evidenceId, q.person)]
    && after.audits == before.audits + [EvidenceRegistered(q.caseId, q.evidenceId, number, |content|)]
  }

  lemma CompletedIsPreserved(sha256: Bytes -> string, q: Request, number: nat, w: World, v: World)
    requires Completed(sha256, q, number, w, v)
    ensures exists cs :: Preserved(sha256, q, number, NewEvidence(q, number), cs, w.tables, v.tree, v.tables)
  {
    hide Within, Gives;
    var cs, end := EveryStreamGives(q.source);
    ReadsAllChunks(q.source, cs, end);
    hide ReadAll;
    assert JobFor(q).final == [q.caseId, "evidence", q.evidenceId, "original"];
    assert Preserved(sha256, q, number, NewEvidence(q, number), cs, w.tables, v.tree, v.tables);
  }

  /** A request is storable exactly if no file is in the way of its folder, its names are free and its stream ends. */
  lemma StorableIff(q: Request, t: Tree)
    ensures Storable(q, t) <==>
      && !IsFile(t, [q.caseId]) && !IsFile(t, [q.caseId, "evidence"])
      && !IsFile(t, [q.caseId, "evidence", q.evidenceId])
      && [q.caseId, "evidence", q.evidenceId, "original"] !in t
      && [q.caseId, "evidence", q.evidenceId, ".original." + q.hex + ".partial"] !in t
      && exists cs :: Gives(q.source, cs, Exhausted)
  {
    EndsWellIff(q.source);
    BlockedIff(t, q.caseId, q.evidenceId);
    var folder := [q.caseId, "evidence", q.evidenceId];
    assert JobFor(q).final == [q.caseId, "evidence", q.evidenceId, "original"];
    assert JobFor(q).temp == [q.caseId, "evidence", q.evidenceId, ".original." + q.hex + ".partial"];
    assert Folder(q.caseId, q.evidenceId) == folder;
    hide ReadAll, Gives, Blocked, JobFor;
  }

  lemma EndsWellIff(source: seq<ReadStep>)
    ensures ReadAll(source).Whole? <==> exists cs :: Gives(source, cs, Exhausted)
  {
    hide ReadAll, Gives;
    var cs, end := EveryStreamGives(source);
    ReadsAllChunks(source, cs, end);
    if ds :| Gives(source, ds, Exhausted) {
      ReadsAllChunks(source, ds, Exhausted);
    }
  }

  lemma BlockedIff(t: Tree, caseId: string, evidenceId: string)
    ensures Blocked(t, Folder(caseId, evidenceId)) <==>
      || IsFile(t, [caseId]) || IsFile(t, [caseId, "evidence"]) || IsFile(t, [caseId, "evidence", evidenceId])
  {
    var folder := Folder(caseId, evidenceId);
    assert folder[..1] == [caseId] && folder[..2] == [caseId, "evidence"] && folder[..3] == folder;
  }

  /**
   What any moment of a registration, and so a crash, can have changed: the temporary name may
   hold a file, the final name only the whole of a stream that ends well, and nothing else has
   changed but for new directories on the way.
   */
  lemma MomentMeans(q: Request, before: Tree, now: Tree, p: Path)
    requires Within(JobFor(q), before, now)
    ensures var folder := [q.caseId, "evidence", q.evidenceId];
      && (p in before && p in now ==> now[p] == before[p])
      && (p in before && p !in now ==>
            p in {folder + ["original"], folder + [".original." + q.hex + ".partial"]})
      && (p in now && p !in before ==>
            || (p == folder + [".original." + q.hex + ".partial"] && now[p].File?)
            || (p == folder + ["original"] && exists cs :: Gives(q.source, cs, Exhausted) && now[p] == File(Concat(cs)))
            || (p in {[q.caseId], [q.caseId, "evidence"], folder} && now[p].Directory?))
  {
    var folder := [q.caseId, "evidence", q.evidenceId];
    assert JobFor(q).final == folder + ["original"] && JobFor(q).temp == folder + [".original." + q.hex + ".partial"];
    assert folder[..1] == [q.caseId] && folder[..2] == [q.caseId, "evidence"] && folder[..3] == folder;
    if p in now && p !in before {
      assert MayAdd(JobFor(q), p, now[p]);
      var cs, end := EveryStreamGives(q.source);
      ReadsAllChunks(q.source, cs, end);
      assert OnTheWay(folder, p) ==> p == folder[..|p|];
    }
  }

  // ----- the service

  datatype RegisterResult =
    | Registered(evidence: Evidence)
    | CaseNotFound
    | CaseNotOpen
    | RegistrationFailed      // an InfrastructureError or a database error
    | Propagated  // an exception of the caller's stream that no handler names

  datatype VerifyResult =
    | Compared(recorded: string, calculated: string, matched: bool)
    | EvidenceNotFound
    | NoAcquisitionRecord
    | FileUnavailable
    | NotRecorded

  /** Either the evidence is registered in full, or no row is written. */
  ghost predicate Settled(sha256: Bytes -> string, q: Request, number: nat, r: RegisterResult, w: World, v: World) {
    if r.Registered? then r.evidence == NewEvidence(q, number) && Completed(sha256, q, number, w, v)
    else Underway(q, w, v)
  }

  /** A registration that fails leaves the tree as it was. */
  ghost predicate Traceless(q: Request, r: RegisterResult, before: Tree, now: Tree) {
    !r.Registered? && !ReadAll(q.source).Thrown? && Free(JobFor(q), before) ==> now == before
  }

  /** The names are free, the way to them is clear, and the stream can be read to its end. */
  predicate Storable(q: Request, t: Tree) {
    !Blocked(t, Folder(q.caseId, q.evidenceId)) && Free(JobFor(q), t) && ReadAll(q.source).Whole?
  }

  /** A file has one of the names, or the stream will throw what no handler names once the copying has begun. */
  predicate Disturbing(q: Request, t: Tree) {
    || Occupied(JobFor(q), t)
    || (!Blocked(t, Folder(q.caseId, q.evidenceId)) && Free(JobFor(q), t) && ReadAll(q.source).Thrown?)
  }

  /**
   With nothing failing underneath: registered exactly when the request is storable, and a
   registration that fails leaves the tree as it was exactly when the request is not disturbing.
   */
  ghost predicate AsExpected(q: Request, r: RegisterResult, before: Tree, now: Tree) {
    && (r.Registered? <==> Storable(q, before))
    && (!r.Registered? ==> (now == before <==> !Disturbing(q, before)))
  }

  lemma SettledIsPreserved(sha256: Bytes -> string, q: Request, number: nat, r: RegisterResult, w: World, v: World)
    requires Settled(sha256, q, number, r, w, v)
    ensures r.Registered? ==>
      exists cs :: Preserved(sha256, q, number, r.evidence, cs, w.tables, v.tree, v.tables)
  {
    hide Completed, Underway, Preserved, NewEvidence;
    if r.Registered? {
      CompletedIsPreserved(sha256, q, number, w, v);
    }
  }

  lemma HealthyFailure(q: Request, s: StoreResult, r: RegisterResult, before: Tree, built: Tree, now: Tree,
                       sha256: Bytes -> string)
    requires !s.Kept? && !r.Registered?
    requires Decided(s, before, JobFor(q)) && StoredAs(s, JobFor(q), before, built, now, sha256)
    requires s.Refused? ==> now == Bare(JobFor(q), before)
    ensures AsExpected(q, r, before, now)
  {
    var j := JobFor(q);
    FreeIsBare(q, before);
    BareIff(j, before);
    assert j.reading == ReadAll(q.source) && j.folder == Folder(q.caseId, q.evidenceId);
    hide JobOf, ReadAll, Bare, Blocked, Folder;
    if s.Escaped? {
      assert j.temp !in before && j.temp in now;
    }
  }

  lemma NothingSettled(sha256: Bytes -> string, q: Request, number: nat, r: RegisterResult, w: World)
    ensures !r.Registered? ==> Settled(sha256, q, number, r, w, w)
    ensures Traceless(q, r, w.tree, w.tree)
  {
  }

  /** A request refused at the case gate leaves everything as it was. */
  lemma NothingHappens(sha256: Bytes -> string, q: Request, number: nat, r: RegisterResult, w: World, trail: seq<Tree>)
    requires !r.Registered? && Consistent(sha256, w) && Unused(w.tables, q.evidenceId) && Rooted(w.tree)
    ensures Settled(sha256, q, number, r, w, w) && Traceless(q, r, w.tree, w.tree)
    ensures ConsistentSince(trail, |trail|, sha256, w.tables) && WithinSince(trail, |trail|, JobFor(q), w.tree)
  {
    NothingSettled(sha256, q, number, r, w);
    WithinItself(JobFor(q), w.tree, trail);
    UnderwaySinceConsistent(trail, |trail|, sha256, q, w);
  }

  lemma SettledKeepsConsistent(sha256: Bytes -> string, q: Request, number: nat, r: RegisterResult, w: World, v: World)
    requires Settled(sha256, q, number, r, w, v)
    requires Consistent(sha256, w) && Unused(w.tables, q.evidenceId) && NumbersBelow(w.tables, number)
    ensures Consistent(sha256, v) && NumbersBelow(v.tables, number + 1)
  {
    hide Consistent, Within, Unused, Recorded;
    if r.Registered? {
      CompletedKeepsConsistent(sha256, q, number, w, v);
      CompletedAddsOne(sha256, q, number, w, v);
    } else {
      UnderwayKeepsConsistent(sha256, q, w, v);
    }
  }

  ghost predicate ConsistentSince(trail: seq<Tree>, n: nat, sha256: Bytes -> string, tables: Tables) {
    forall k :: n <= k < |trail| ==> Consistent(sha256, World(trail[k], tables))
  }

  lemma UnderwaySinceConsistent(trail: seq<Tree>, n: nat, sha256: Bytes -> string, q: Request, w: World)
    requires Consistent(sha256, w) && Unused(w.tables, q.evidenceId)
    requires WithinSince(trail, n, JobFor(q), w.tree)
    ensures ConsistentSince(trail, n, sha256, w.tables)
  {
    hide Consistent, Within, Unused, JobFor;
    forall k | n <= k < |trail| ensures Consistent(sha256, World(trail[k], w.tables)) {
      UnderwayKeepsConsistent(sha256, q, w, World(trail[k], w.tables));
    }
  }

  /** What store leaves behind when it succeeds, seen from the tree before it. */
  ghost predicate StoredFrom(q: Request, before: Tree, built: Tree, now: Tree, stored: Stored,
                             sha256: Bytes -> string) {
    var j := JobFor(q);
    && Sound(j) && Rooted(before) && Made(j.folder, before, built, stored.created) && Free(j, built)
    && j.reading.Whole? && now == WithFinal(j, built)
    && stored.path == j.final && stored.digest == sha256(j.reading.content) && stored.size == |j.reading.content|
  }

  /** cleanup of a stored file whose rows were rolled back. */
  method Withdraw(disk: Disk, q: Request, stored: Stored, sha256: Bytes -> string, ghost before: Tree,
                  ghost built: Tree)
    requires disk.Valid() && StoredFrom(q, before, built, disk.tree, stored, sha256)
    requires Within(JobFor(q), before, disk.tree)
    modifies disk
    ensures disk.Valid()
    ensures disk.Tidy() ==> disk.tree == before
    ensures old(disk.trail) <= disk.trail
    ensures PrunedSince(disk.trail, |old(disk.trail)|, old(disk.tree), Names([stored.path], stored.created))
    ensures Makeable(before, stored.created)
    ensures Within(JobFor(q), before, disk.tree)
  {
    ghost var j, now := JobFor(q), disk.tree;
    MadeIsMakeable(j.folder, before, built, stored.created);
    UndoingRestores(j, before, built, stored.created);
    hide Made, Within, Rooted, Pruned, Makeable, JobOf, Names, DroppedAll, ShrunkAll, WithFinal;
    CleanupPaths(disk, [stored.path], stored.created);
    PrunedNowWithin(j, before, now, disk.tree, [stored.path], stored.created);
  }

  lemma FreeIsBare(q: Request, t: Tree)
    ensures Sound(JobFor(q)) && (Free(JobFor(q), t) ==> Bare(JobFor(q), t) == t)
  {
    NamesDiffer(q.caseId, q.evidenceId, q.hex);
  }

  lemma StoreKept(q: Request, before: Tree, built: Tree, now: Tree, stored: Stored, sha256: Bytes -> string)
    requires Rooted(before) && StoredAs(Kept(stored), JobFor(q), before, built, now, sha256)
    ensures StoredFrom(q, before, built, now, stored, sha256)
  {
    FreeIsBare(q, before);
  }

  /** A store that keeps nothing settles the registration as failed. */
  lemma FailureSettles(sha256: Bytes -> string, q: Request, number: nat, s: StoreResult, r: RegisterResult,
                       w: World, built: Tree, now: Tree, tidy: bool, faultless: bool)
    requires !s.Kept? && !r.Registered?
    requires Within(JobFor(q), w.tree, now) && StoredAs(s, JobFor(q), w.tree, built, now, sha256)
    requires s.Refused? && tidy ==> now == Bare(JobFor(q), w.tree)
    requires faultless ==> tidy && Decided(s, w.tree, JobFor(q))
    ensures Settled(sha256, q, number, r, w, World(now, w.tables))
    ensures tidy ==> Traceless(q, r, w.tree, now)
    ensures faultless ==> AsExpected(q, r, w.tree, now)
  {
    FreeIsBare(q, w.tree);
    if faultless {
      HealthyFailure(q, s, r, w.tree, built, now, sha256);
    }
  }

  lemma RegisteredSettles(sha256: Bytes -> string, q: Request, number: nat, evidence: Evidence, w: World, v: World)
    requires evidence == NewEvidence(q, number) && Completed(sha256, q, number, w, v)
    ensures Settled(sha256, q, number, Registered(evidence), w, v)
    ensures Traceless(q, Registered(evidence), w.tree, v.tree)
  {
  }

  lemma WithdrawnSettles(sha256: Bytes -> string, q: Request, number: nat, w: World, now: Tree, tidy: bool)
    requires Within(JobFor(q), w.tree, now) && (tidy ==> now == w.tree)
    ensures Settled(sha256, q, number, RegistrationFailed, w, World(now, w.tables))
    ensures tidy ==> Traceless(q, RegistrationFailed, w.tree, now)
  {
  }

  lemma StoredIsCompleted(q: Request, number: nat, w: World, built: Tree, now: Tree, stored: Stored,
                          sha256: Bytes -> string)
    requires StoredFrom(q, w.tree, built, now, stored, sha256) && Within(JobFor(q), w.tree, now)
    ensures Completed(sha256, q, number, w,
                      World(now, Recorded(w.tables, NewEvidence(q, number), stored.digest, q.person)))
  {
  }

  lemma StoredIsNew(q: Request, number: nat, before: Tree, built: Tree, now: Tree, stored: Stored,
                    sha256: Bytes -> string)
    requires StoredFrom(q, before, built, now, stored, sha256)
    ensures Evidence(q.evidenceId, q.caseId, number, q.name, stored.path, stored.size) == NewEvidence(q, number)
    ensures Makeable(before, stored.created) && Sound(JobFor(q)) && stored.path == JobFor(q).final
  {
  }

  lemma KeptIsExpected(q: Request, s: StoreResult, r: RegisterResult, before: Tree, now: Tree, healthy: bool)
    requires s.Kept? && (healthy ==> r.Registered? && Decided(s, before, JobFor(q)))
    ensures healthy ==> AsExpected(q, r, before, now)
  {
  }

  class EvidenceService {
    const disk: Disk
    const sha256: Bytes -> string
    /** Which of the successive database calls fail. */
    const sqlFails: nat -> bool
    var calls: nat
    /** The evidence number sequence; a value drawn is never given back. */
    var nextNumber: nat
    var cases: map<string, CaseStatus>
    var tables: Tables

    constructor (disk: Disk, sha256: Bytes -> string, sqlFails: nat -> bool)
      requires disk.Valid()
      ensures this.disk == disk && this.sha256 == sha256 && this.sqlFails == sqlFails
      ensures Valid() && cases == map[] && tables == Tables([], [], [], [])
    {
      this.disk, this.sha256, this.sqlFails := disk, sha256, sqlFails;
      calls, nextNumber, cases, tables := 0, 1, map[], Tables([], [], [], []);
    }

    ghost predicate Valid()
      reads this, disk
    {
      && disk.Valid() && Consistent(sha256, World(disk.tree, tables))
      && NumbersBelow(tables, nextNumber)
    }

    /** Neither the disk nor the database fails. */
    ghost predicate Healthy() {
      disk.Faultless() && forall n :: !sqlFails(n)
    }

    method Sql() returns (ok: bool)
      modifies this`calls
      ensures ok <==> !sqlFails(old(calls))
    {
      ok := !sqlFails(calls);
      calls := calls + 1;
    }

    /** Two flushes, a refresh and the commit: all of them, or a rollback. */
    method CommitRows(rows: Tables) returns (ok: bool)
      modifies this`calls, this`tables
      ensures tables == if ok then rows else old(tables)
      ensures (forall n :: !sqlFails(n)) ==> ok
    {
      ok := Sql();
      if ok {
        ok := Sql();
      }
      if ok {
        ok := Sql();
      }
      if ok {
        ok := Sql();
      }
      if ok {
        tables := rows;
      }
    }

    /** Adds the rows for a stored file, or withdraws the file when they are rolled back. */
    method CommitOrWithdraw(q: Request, number: nat, stored: Stored, ghost before: Tree, ghost built: Tree,
                            ghost n: nat)
        returns (r: RegisterResult)
      requires disk.Valid() && StoredFrom(q, before, built, disk.tree, stored, sha256)
      requires n <= |disk.trail| && WithinSince(disk.trail, n, JobFor(q), before)
      requires Within(JobFor(q), before, disk.tree)
      modifies this`calls, this`tables, disk
      ensures disk.Valid() && (r.Registered? || r.RegistrationFailed?)
      ensures old(disk.trail) <= disk.trail
      ensures WithinSince(disk.trail, n, JobFor(q), before)
      ensures Settled(sha256, q, number, r, World(before, old(tables)), World(disk.tree, tables))
      ensures disk.Tidy() ==> Traceless(q, r, before, disk.tree)
      ensures Healthy() ==> r.Registered?
    {
      ghost var now, trail, w := disk.tree, disk.trail, World(before, tables);
      hide Within, WithinSince, ReadAll, Rooted, JobOf, JobFor, PrunedSince, Makeable, Completed, StoredFrom, Recorded,
        Names, Settled, Traceless, Underway, NewEvidence, Sound, Made;
      StoredIsCompleted(q, number, w, built, now, stored, sha256);
      StoredIsNew(q, number, before, built, now, stored, sha256);
      var evidence := Evidence(q.evidenceId, q.caseId, number, q.name, stored.path, stored.size);
      var committed := CommitRows(Recorded(tables, evidence, stored.digest, q.person));
      if committed {
        r := Registered(evidence);
        RegisteredSettles(sha256, q, number, evidence, w, World(disk.tree, tables));
        return;
      }
      Withdraw(disk, q, stored, sha256, before, built);
      PrunedSinceWithin(disk.trail, n, trail, JobFor(q), before, now, [stored.path], stored.created);
      r := RegistrationFailed;
      WithdrawnSettles(sha256, q, number, w, disk.tree, disk.Tidy());
    }

    /** The try block of register. */
    method StoreAndCommit(q: Request, number: nat) returns (r: RegisterResult)
      requires disk.Valid()
      modifies this`calls, this`tables, disk
      ensures disk.Valid()
      ensures !r.CaseNotFound? && !r.CaseNotOpen?
      ensures old(disk.trail) <= disk.trail
      ensures WithinSince(disk.trail, |old(disk.trail)|, JobFor(q), old(disk.tree))
      ensures Settled(sha256, q, number, r, World(old(disk.tree), old(tables)), World(disk.tree, tables))
      ensures disk.Tidy() ==> Traceless(q, r, old(disk.tree), disk.tree)
      ensures Healthy() ==> AsExpected(q, r, old(disk.tree), disk.tree)
    {
      ghost var w, trail0 := World(disk.tree, tables), disk.trail;
      assert JobFor(q) == JobOf(q.caseId, q.evidenceId, q.hex, q.source);
      hide Within, WithinSince, ReadAll, Made, Rooted, Completed, Underway, NewEvidence, Settled, Traceless, AsExpected,
        Decided, StoredAs, StoredFrom, Bare, Occupied, JobOf, JobFor;
      var stored, built := Store(disk, q.source, q.caseId, q.evidenceId, q.hex, sha256);
      if !stored.Kept? {
        r := if stored.Escaped? then Propagated else RegistrationFailed;
        FailureSettles(sha256, q, number, stored, r, w, built, disk.tree, disk.Tidy(), disk.Faultless());
      } else {
        StoreKept(q, w.tree, built, disk.tree, stored.stored, sha256);
        r := CommitOrWithdraw(q, number, stored.stored, w.tree, built, |trail0|);
        KeptIsExpected(q, stored, r, w.tree, disk.tree, Healthy());
      }
    }

    /** The case row is locked and read, and an evidence number is drawn. */
    method Admit(q: Request) returns (refusal: Option<RegisterResult>, number: nat)
      modifies this`calls, this`nextNumber
      ensures refusal.Some? ==>
                refusal.value in {RegistrationFailed, CaseNotFound, CaseNotOpen} && nextNumber == old(nextNumber)
      ensures refusal == Some(CaseNotFound) ==> q.caseId !in cases
      ensures refusal == Some(CaseNotOpen) ==> q.caseId in cases && !cases[q.caseId].OpenCase?
      ensures refusal.None? ==> q.caseId in cases && cases[q.caseId].OpenCase?
      ensures refusal.None? ==> number == old(nextNumber) && nextNumber == number + 1
      ensures Healthy() && q.caseId in cases && cases[q.caseId].OpenCase? ==> refusal.None?
    {
      number := nextNumber;
      var selected := Sql();
      if !selected {
        return Some(RegistrationFailed), number;
      }
      if q.caseId !in cases {
        return Some(CaseNotFound), number;
      }
      if !cases[q.caseId].OpenCase? {
        return Some(CaseNotOpen), number;
      }
      var drawn := Sql();
      if !drawn {
        return Some(RegistrationFailed), number;
      }
      nextNumber := nextNumber + 1;
      refusal := None;
    }

    method Register(q: Request) returns (r: RegisterResult)
      requires Valid() && Unused(tables, q.evidenceId)
      modifies this`calls, this`nextNumber, this`tables, disk
      ensures Valid()
      ensures r.CaseNotFound? ==> q.caseId !in cases
      ensures r.CaseNotOpen? ==> q.caseId in cases && !cases[q.caseId].OpenCase?
      // every moment up to the commit, and so a crash at any of them, leaves every committed row's file intact
      ensures old(disk.trail) <= disk.trail
      ensures ConsistentSince(disk.trail, |old(disk.trail)|, sha256, old(tables))
      ensures WithinSince(disk.trail, |old(disk.trail)|, JobFor(q), old(disk.tree))
      // the end of the call: all of it or, once a clean-up that works has run, none of it
      ensures Settled(sha256, q, old(nextNumber), r, World(old(disk.tree), old(tables)), World(disk.tree, tables))
      ensures r.Registered? ==>
        exists cs :: Preserved(sha256, q, old(nextNumber), r.evidence, cs, old(tables), disk.tree, tables)
      ensures disk.Tidy() ==> Traceless(q, r, old(disk.tree), disk.tree)
      ensures q.caseId !in cases || !cases[q.caseId].OpenCase? ==> !r.Registered? && disk.tree == old(disk.tree)
      ensures Healthy() && q.caseId in cases && cases[q.caseId].OpenCase?
            ==> AsExpected(q, r, old(disk.tree), disk.tree)
    {
      ghost var trail0, w, n0 := disk.trail, World(disk.tree, tables), nextNumber;
      assert Rooted(disk.tree);
      hide Consistent, ConsistentSince, Within, WithinSince, Unused, Rooted, Settled, Traceless, AsExpected,
        NumbersBelow, JobFor, JobOf, FinalPath, TempPath, Folder, ReadAll, Free, Blocked, Made, Acquisitions, Aligned,
        Intact, Preserved;
      var refusal, number := Admit(q);
      if refusal.Some? {
        NothingHappens(sha256, q, n0, refusal.value, w, trail0);
        return refusal.value;
      }
      r := StoreAndCommit(q, number);
      UnderwaySinceConsistent(disk.trail, |trail0|, sha256, q, w);
      SettledKeepsConsistent(sha256, q, number, r, w, World(disk.tree, tables));
      SettledIsPreserved(sha256, q, number, r, w, World(disk.tree, tables));
    }

    /** Digests the stored file, which may have been altered meanwhile, and records whether it still matches. */
    method Verify(evidenceId: string) returns (r: VerifyResult)
      requires disk.Valid()
      modifies this`calls, this`tables, disk`clock
      ensures disk.Valid()
      ensures r.EvidenceNotFound? <==> Unused(tables, evidenceId)
      ensures !r.Compared? ==> tables == old(tables)
      ensures r.Compared? ==>
        var found := FindEvidence(old(tables).evidence, evidenceId);
        && found.Some? && IsFile(disk.tree, found.value.path)
        && Some(r.recorded) == RecordedDigest(old(tables).hashes, evidenceId)
        && r.calculated == sha256(disk.tree[found.value.path].content)
        && (r.matched <==> r.calculated == r.recorded)
        && (r.matched <==> Matches(sha256, old(tables), disk.tree, evidenceId))
        && tables == Rechecked(old(tables), found.value, r.calculated, r.matched, |disk.tree[found.value.path].content|)
      // what is recorded, table by table
      ensures r.Compared? ==>
        exists e :: e in old(tables).evidence && e.id == evidenceId && IsFile(disk.tree, e.path)
          && r.calculated == sha256(disk.tree[e.path].content)
          && tables.evidence == old(tables).evidence && tables.custody == old(tables).custody
          && tables.hashes == old(tables).hashes + [HashRow(evidenceId, r.calculated, Verification)]
          && tables.audits == old(tables).audits
             + [EvidenceVerified(e.caseId, evidenceId, r.calculated == r.recorded, |disk.tree[e.path].content|)]
      ensures Healthy() ==> !r.NotRecorded?
    {
      var found := FindEvidence(tables.evidence, evidenceId);
      if found.None? {
        return EvidenceNotFound;
      }
      var evidence := found.value;
      var recorded := RecordedDigest(tables.hashes, evidenceId);
      if recorded.None? {
        return NoAcquisitionRecord;
      }
      var looked, node := disk.Look(evidence.path);
      if !looked || node.None? || !node.value.File? {
        return FileUnavailable;
      }
      var calculated := CalculateSha256(disk, evidence.path, sha256);
      if calculated.None? {
        return FileUnavailable;
      }
      var matched := calculated.value.0 == recorded.value;
      var committed := Sql();
      if !committed {
        return NotRecorded;
      }
      tables := Rechecked(tables, evidence, calculated.value.0, matched, calculated.value.1);
      r := Compared(recorded.value, calculated.value.0, matched);
    }
  }

  function Rechecked(t: Tables, e: Evidence, digest: string, matched: bool, size: nat): Tables {
    t.(hashes := t.hashes + [HashRow(e.id, digest, Verification)],
       audits := t.audits + [EvidenceVerified(e.caseId, e.id, matched, size)])
  }

  // ----- what verification means

  lemma {:induction false} FirstDigestAt(rows: seq<HashRow>, i: nat)
    requires i < |rows| && forall k :: 0 <= k < i ==> rows[k].evidenceId != rows[i].evidenceId
    ensures FirstDigest(rows, rows[i].evidenceId) == Some(rows[i].digest)
  {
    if i > 0 {
      assert rows[1..][i - 1] == rows[i];
      FirstDigestAt(rows[1..], i - 1);
    }
  }

  lemma {:induction false} FindEvidenceAt(rows: seq<Evidence>, i: nat)
    requires i < |rows| && forall k :: 0 <= k < i ==> rows[k].id != rows[i].id
    ensures FindEvidence(rows, rows[i].id) == Some(rows[i])
  {
    if i > 0 {
      assert rows[1..][i - 1] == rows[i];
      FindEvidenceAt(rows[1..], i - 1);
    }
  }

  /** The comparison that Verify makes, for one evidence id, once the tree has become `tampered`. */
  predicate Matches(sha256: Bytes -> string, t: Tables, tampered: Tree, id: string) {
    var found := FindEvidence(t.evidence, id);
    && found.Some? && IsFile(tampered, found.value.path)
    && Some(sha256(tampered[found.value.path].content)) == RecordedDigest(t.hashes, id)
  }

  /** Verification of a file reports a match exactly when its bytes are the ones that were acquired. */
  lemma MatchesIffUnaltered(sha256: Bytes -> string, w: World, tampered: Tree, i: nat)
    requires Injective(sha256) && Consistent(sha256, w) && i < |w.tables.evidence|
    ensures
      var e := w.tables.evidence[i];
      && e.path in w.tree
      && (Matches(sha256, w.tables, tampered, e.id) <==> e.path in tampered && tampered[e.path] == w.tree[e.path])
  {
    var t := w.tables;
    var e, row := t.evidence[i], Acquisitions(t.hashes)[i];
    FindEvidenceAt(t.evidence, i);
    forall k | 0 <= k < i ensures Acquisitions(t.hashes)[k].evidenceId != row.evidenceId {
      assert t.evidence[k].id != t.evidence[i].id;
    }
    FirstDigestAt(Acquisitions(t.hashes), i);
    assert Intact(sha256, w.tree, e, row.digest);
    hide Consistent, Aligned, FinalPath;
    if IsFile(tampered, e.path) {
      assert tampered[e.path] == w.tree[e.path] <==> tampered[e.path].content == w.tree[e.path].content;
    }
  }

  lemma RecheckedKeepsConsistent(sha256: Bytes -> string, w: World, e: Evidence, digest: string, matched: bool,
                                 size: nat)
    requires Consistent(sha256, w)
    ensures Consistent(sha256, w.(tables := Rechecked(w.tables, e, digest, matched, size)))
  {
    var hashes := Rechecked(w.tables, e, digest, matched, size).hashes;
    assert hashes[..|hashes| - 1] == w.tables.hashes;
    assert Acquisitions(hashes) == Acquisitions(w.tables.hashes) + [];
  }

  // ----- whole runs, crashes included

  /**
   What happens between two moments at which the service is idle: a registration, under an unused identifier, that
   got as far as some moment before its commit or was completed, or a verification.
   */
  datatype Episode =
    | Unfinished(q: Request)
    | Finished(q: Request, number: nat)
    | Checked(e: Evidence, digest: string, matched: bool, size: nat)

  ghost predicate Leads(sha256: Bytes -> string, w: World, x: Episode, v: World) {
    match x
    case Unfinished(q) => Unused(w.tables, q.evidenceId) && Underway(q, w, v)
    case Finished(q, number) =>
      Unused(w.tables, q.evidenceId) && NumbersBelow(w.tables, number) && Completed(sha256, q, number, w, v)
    case Checked(e, digest, matched, size) => v == w.(tables := Rechecked(w.tables, e, digest, matched, size))
  }

  lemma EpisodeKeeps(sha256: Bytes -> string, w: World, x: Episode, v: World)
    requires Consistent(sha256, w) && Leads(sha256, w, x, v)
    ensures Consistent(sha256, v) && w.tables.evidence <= v.tables.evidence
    ensures forall i :: 0 <= i < |w.tables.evidence| ==>
      && w.tables.evidence[i].path in w.tree && w.tables.evidence[i].path in v.tree
      && v.tree[w.tables.evidence[i].path] == w.tree[w.tables.evidence[i].path]
  {
    match x {
      case Unfinished(q) =>
        UnderwayKeepsConsistent(sha256, q, w, v);
        FilesStay(sha256, q, w, v);
      case Finished(q, number) =>
        CompletedKeepsConsistent(sha256, q, number, w, v);
        CompletedAddsOne(sha256, q, number, w, v);
        FilesStay(sha256, q, w, v);
      case Checked(e, digest, matched, size) =>
        RecheckedKeepsConsistent(sha256, w, e, digest, matched, size);
        ConsistentHasFiles(sha256, w);
    }
  }

  lemma ConsistentHasFiles(sha256: Bytes -> string, w: World)
    requires Consistent(sha256, w)
    ensures forall i :: 0 <= i < |w.tables.evidence| ==> w.tables.evidence[i].path in w.tree
  {
    forall i | 0 <= i < |w.tables.evidence| ensures w.tables.evidence[i].path in w.tree {
      assert Intact(sha256, w.tree, w.tables.evidence[i], Acquisitions(w.tables.hashes)[i].digest);
    }
  }

  lemma FilesStay(sha256: Bytes -> string, q: Request, w: World, v: World)
    requires Consistent(sha256, w) && Unused(w.tables, q.evidenceId) && Within(JobFor(q), w.tree, v.tree)
    ensures forall i :: 0 <= i < |w.tables.evidence| ==>
      && w.tables.evidence[i].path in w.tree && w.tables.evidence[i].path in v.tree
      && v.tree[w.tables.evidence[i].path] == w.tree[w.tables.evidence[i].path]
  {
    forall i | 0 <= i < |w.tables.evidence|
      ensures
        && w.tables.evidence[i].path in w.tree && w.tables.evidence[i].path in v.tree
        && v.tree[w.tables.evidence[i].path] == w.tree[w.tables.evidence[i].path]
    {
      var e := w.tables.evidence[i];
      assert Intact(sha256, w.tree, e, Acquisitions(w.tables.hashes)[i].digest);
      assert e.path[2] == e.id && JobFor(q).temp[2] == q.evidenceId && JobFor(q).final[2] == q.evidenceId;
    }
  }

  ghost predicate Run(sha256: Bytes -> string, ws: seq<World>, xs: seq<Episode>) {
    |ws| == |xs| + 1 && forall i :: 0 <= i < |xs| ==> Leads(sha256, ws[i], xs[i], ws[i + 1])
  }

  /** Over every run: no committed row is lost, its bytes never change, and its size and digest stay true. */
  lemma {:induction false} CommittedEvidenceIsForever(sha256: Bytes -> string, ws: seq<World>, xs: seq<Episode>)
    requires Run(sha256, ws, xs) && Consistent(sha256, ws[0])
    ensures
      var first, last := ws[0], ws[|xs|];
      && Consistent(sha256, last) && first.tables.evidence <= last.tables.evidence
      && forall i :: 0 <= i < |first.tables.evidence| ==>
        && first.tables.evidence[i].path in first.tree && first.tables.evidence[i].path in last.tree
        && last.tree[first.tables.evidence[i].path] == first.tree[first.tables.evidence[i].path]
    decreases |xs|
  {
    ConsistentHasFiles(sha256, ws[0]);
    hide Consistent, Leads;
    if |xs| > 0 {
      var n := |xs| - 1;
      CommittedEvidenceIsForever(sha256, ws[..n + 1], xs[..n]);
      assert ws[..n + 1][n] == ws[n] && ws[..n + 1][0] == ws[0];
      EpisodeKeeps(sha256, ws[n], xs[n], ws[n + 1]);
      forall i | 0 <= i < |ws[0].tables.evidence|
        ensures ws[n + 1].tables.evidence[i] == ws[n].tables.evidence[i] == ws[0].tables.evidence[i]
      {
      }
    }
  }
}
