/**
 The update sequence of an MFT record.  On disk the last two bytes of every sector hold a
 sequence number; the bytes they displaced are kept in the update sequence array (USA).
 */
module MftFixup {
  import opened Wrappers
  import opened WindowsBinary

  datatype Geometry = Geometry(usaOffset: nat, sectors: nat, sectorSize: nat)

  /** What acceptance of the header establishes about a record of the given size. */
  ghost predicate Sound(g: Geometry, size: nat) {
    && g.sectors >= 1 && g.sectorSize >= 3 && g.sectors * g.sectorSize == size
    && 8 <= g.usaOffset && g.usaOffset + 2 + 2 * g.sectors <= size
  }

  lemma MulMonotone(a: int, b: int, s: nat)
    ensures a <= b ==> a * s <= b * s
  {
  }

  lemma SectorSizeAtLeastThree(size: nat, sectors: nat)
    requires sectors >= 1 && size % sectors == 0 && size >= 10 + 2 * sectors
    ensures size / sectors >= 3 && sectors * (size / sectors) == size
  {
    MulMonotone(size / sectors, 2, sectors);
  }

  function ReadGeometry(record: Bytes, sectorSize: Option<nat>): (r: Result<Geometry>)
    ensures r.Ok? ==> Sound(r.value, |record|)
  {
    var usaOffset :- Uint(record, 4, 2);
    var usaCount :- Uint(record, 6, 2);
    if usaCount < 2 || usaOffset < 8 || usaOffset + usaCount * 2 > |record| then Err(Structure)
    else
      var sectors := usaCount - 1;
      var derived := if |record| % sectors == 0 then |record| / sectors else 0;
      if derived == 0 || (sectorSize.Some? && derived != sectorSize.value) then Err(Structure)
      else
        SectorSizeAtLeastThree(|record|, sectors);
        Ok(Geometry(usaOffset, sectors, derived))
  }

  /** Where the trailer of sector k begins. */
  function TrailerStart(g: Geometry, k: nat): nat
    requires g.sectorSize >= 3
  {
    assert (k + 1) * g.sectorSize >= g.sectorSize by { MulMonotone(1, k + 1, g.sectorSize); }
    (k + 1) * g.sectorSize - 2
  }

  /** Byte i is one of the last two of its sector. */
  predicate InTrailer(g: Geometry, i: nat)
    requires g.sectorSize >= 3
  {
    i % g.sectorSize >= g.sectorSize - 2
  }

  /** Where the USA keeps the byte displaced from trailer position i. */
  function SavedAt(g: Geometry, i: nat): nat
    requires g.sectorSize >= 3 && InTrailer(g, i)
  {
    g.usaOffset + 2 + 2 * (i / g.sectorSize) + (i % g.sectorSize - (g.sectorSize - 2))
  }

  /** The trailer position whose byte the USA keeps at p: the inverse of SavedAt. */
  function SavedFrom(g: Geometry, p: nat): nat
    requires g.sectorSize >= 3 && p >= g.usaOffset + 2
  {
    ((p - g.usaOffset - 2) / 2 + 1) * g.sectorSize - 2 + (p - g.usaOffset) % 2
  }

  predicate InUsa(g: Geometry, i: nat) {
    g.usaOffset <= i < g.usaOffset + 2 + 2 * g.sectors
  }

  lemma SectorOf(i: nat, k: nat, s: nat)
    requires s > 0 && k * s <= i < (k + 1) * s
    ensures i / s == k && i % s == i - k * s
  {
    var q, m := i / s, i % s;
    assert q * s + m == i;
    MulMonotone(q + 1, k, s);
    MulMonotone(k + 1, q, s);
  }

  lemma ExactQuotient(q: nat, d: nat)
    requires d > 0
    ensures (d * q) / d == q && (d * q) % d == 0
  {
    assert (q + 1) * d == q * d + d && q * d == d * q;
    SectorOf(q * d, q, d);
  }

  lemma SectorIndexBound(i: nat, n: nat, s: nat)
    requires s > 0 && i < n * s
    ensures i / s < n && i == (i / s) * s + i % s
  {
    MulMonotone(n, i / s, s);
  }

  /** SavedAt lands in the USA, past the sequence number, and SavedFrom inverts it. */
  lemma SavedAtInUsa(g: Geometry, size: nat, i: nat)
    requires Sound(g, size) && i < size && InTrailer(g, i)
    ensures g.usaOffset + 2 <= SavedAt(g, i) && InUsa(g, SavedAt(g, i)) && SavedAt(g, i) < size
    ensures SavedFrom(g, SavedAt(g, i)) == i
  {
    hide SavedFrom;
    var k, j := TrailerIndex(g, size, i);
    assert g.usaOffset + 2 + 2 * g.sectors <= size;
    hide SavedAt, InTrailer, Sound;
    FoundAgain(g, k, j);
    NextMultiple(k, g.sectorSize);
  }

  /** A trailer byte is byte j of the trailer of sector k. */
  lemma TrailerIndex(g: Geometry, size: nat, i: nat) returns (k: nat, j: nat)
    requires Sound(g, size) && i < size && InTrailer(g, i)
    ensures k < g.sectors && j < 2 && i == k * g.sectorSize + (g.sectorSize - 2 + j)
    ensures SavedAt(g, i) == g.usaOffset + 2 + 2 * k + j
  {
    SectorIndexBound(i, g.sectors, g.sectorSize);
    k, j := i / g.sectorSize, i % g.sectorSize - (g.sectorSize - 2);
  }

  lemma NextMultiple(k: nat, s: nat)
    ensures (k + 1) * s == k * s + s
  {
  }

  lemma FoundAgain(g: Geometry, k: nat, j: nat)
    requires g.sectorSize >= 3 && j < 2
    ensures SavedFrom(g, g.usaOffset + 2 + 2 * k + j) == (k + 1) * g.sectorSize - 2 + j
  {
    assert (2 * k + j) / 2 == k && (2 * k + j + 2) % 2 == j;
  }

  lemma SavedFromInTrailer(g: Geometry, size: nat, p: nat)
    requires Sound(g, size) && InUsa(g, p) && p >= g.usaOffset + 2
    ensures SavedFrom(g, p) < size && InTrailer(g, SavedFrom(g, p)) && SavedAt(g, SavedFrom(g, p)) == p
  {
    var k, j := (p - g.usaOffset - 2) / 2, (p - g.usaOffset) % 2;
    TrailerPosition(k, j, g.sectorSize, g.sectors);
    assert p - g.usaOffset - 2 == 2 * k + j;
  }

  lemma TrailerPosition(k: nat, j: nat, s: nat, n: nat)
    requires s >= 3 && j < 2 && k < n
    ensures var i := (k + 1) * s - 2 + j; 0 <= i < n * s && i / s == k && i % s == s - 2 + j
  {
    assert (k + 1) * s == k * s + s;
    MulMonotone(k + 1, n, s);
    SectorOf((k + 1) * s - 2 + j, k, s);
  }

  lemma TrailerFits(g: Geometry, size: nat, k: nat)
    requires Sound(g, size) && k < g.sectors
    ensures TrailerStart(g, k) + 2 <= size
  {
    MulMonotone(k + 1, g.sectors, g.sectorSize);
  }

  // ----- applying the fixup

  /** Every sector ends in the sequence number at the head of the USA. */
  predicate TrailersMatch(record: Bytes, g: Geometry)
    requires Sound(g, |record|)
  {
    forall i :: 0 <= i < |record| && InTrailer(g, i) ==> record[i] == Tag(record, g, i)
  }

  function Tag(record: Bytes, g: Geometry, i: nat): Byte
    requires Sound(g, |record|) && InTrailer(g, i)
  {
    record[g.usaOffset + (i % g.sectorSize - (g.sectorSize - 2))]
  }

  /** The record with every trailer byte replaced, all at once, by the byte saved for it. */
  function Restored(record: Bytes, g: Geometry): (fixed: Bytes)
    requires Sound(g, |record|)
    ensures |fixed| == |record|
  {
    seq(|record|, i requires 0 <= i < |record| =>
      if InTrailer(g, i) then (SavedAtInUsa(g, |record|, i); record[SavedAt(g, i)]) else record[i])
  }

  /** The specification of _apply_fixup. */
  function Fixup(record: Bytes, sectorSize: Option<nat>): (r: Result<Bytes>) {
    var g :- ReadGeometry(record, sectorSize);
    if TrailersMatch(record, g) then Ok(Restored(record, g)) else Err(Structure)
  }

  /** bytearray(data): a mutable copy. */
  method ByteArray(data: Bytes) returns (a: array<Byte>)
    ensures fresh(a) && a[..] == data
  {
    a := new Byte[|data|](i requires 0 <= i < |data| => data[i]);
  }

  /** Slice assignment of two bytes. */
  method PutTwo(fixed: array<Byte>, at: nat, first: Byte, second: Byte)
    requires at + 2 <= fixed.Length
    modifies fixed
    ensures fixed[..] == old(fixed[..])[at := first][at + 1 := second]
  {
    fixed[at], fixed[at + 1] := first, second;
  }

  method ApplyFixup(record: Bytes, sectorSize: Option<nat>) returns (r: Result<Bytes>)
    ensures r == Fixup(record, sectorSize)
  {
    var geometry := ReadGeometry(record, sectorSize);
    if geometry.Err? {
      return Err(geometry.fault);
    }
    hide ReadGeometry;
    var g := geometry.value;
    var n := |record|;
    var fixed := ByteArray(record);
    var index := 0;
    ProgressStart(record, g);
    hide Progress, TrailersMatch, Restored, TrailerStart;
    while index < g.sectors
      invariant 0 <= index <= g.sectors
      invariant Progress(record, g, fixed[..], index)
    {
      TrailerFits(g, n, index);
      var end := TrailerStart(g, index);
      if record[end..end + 2] != record[g.usaOffset..g.usaOffset + 2] {
        MismatchRefutes(record, g, index);
        return Err(Structure);
      }
      ghost var before: Bytes := fixed[..];
      ProgressStep(record, g, before, index);
      PutTwo(fixed, end, record[g.usaOffset + 2 + index * 2], record[g.usaOffset + 3 + index * 2]);
      index := index + 1;
    }
    ProgressDone(record, g, fixed[..]);
    return Ok(fixed[..]);
  }

  /** The first k sectors are checked and restored; the rest is untouched. */
  ghost predicate Progress(record: Bytes, g: Geometry, fixed: Bytes, k: nat)
    requires Sound(g, |record|)
  {
    && |fixed| == |record| && k * g.sectorSize <= |record|
    && (forall i :: 0 <= i < k * g.sectorSize ==> fixed[i] == Restored(record, g)[i])
    && (forall i :: k * g.sectorSize <= i < |record| ==> fixed[i] == record[i])
    && (forall i :: 0 <= i < k * g.sectorSize && InTrailer(g, i) ==> record[i] == Tag(record, g, i))
  }

  lemma ProgressStart(record: Bytes, g: Geometry)
    requires Sound(g, |record|)
    ensures Progress(record, g, record, 0)
  {
  }

  lemma ProgressDone(record: Bytes, g: Geometry, fixed: Bytes)
    requires Sound(g, |record|) && Progress(record, g, fixed, g.sectors)
    ensures TrailersMatch(record, g) && fixed == Restored(record, g)
  {
  }

  lemma ProgressStep(record: Bytes, g: Geometry, fixed: Bytes, k: nat)
    requires Sound(g, |record|) && k < g.sectors && Progress(record, g, fixed, k)
    requires TrailerStart(g, k) + 2 <= |record|
    requires var end := TrailerStart(g, k);
      record[end..end + 2] == record[g.usaOffset..g.usaOffset + 2]
    ensures var end := TrailerStart(g, k);
      Progress(record, g, fixed[end := record[g.usaOffset + 2 + k * 2]][end + 1 := record[g.usaOffset + 3 + k * 2]],
               k + 1)
  {
    SectorRestored(record, g, k);
    hide InTrailer, Restored, Tag, TrailerStart;
  }

  /** What the fixup does to one sector whose trailer matches. */
  lemma SectorRestored(record: Bytes, g: Geometry, k: nat)
    requires Sound(g, |record|) && k < g.sectors && TrailerStart(g, k) + 2 <= |record|
    requires var end := TrailerStart(g, k); record[end..end + 2] == record[g.usaOffset..g.usaOffset + 2]
    ensures var low, end, next := k * g.sectorSize, TrailerStart(g, k), (k + 1) * g.sectorSize;
      && low < end == next - 2 && next <= |record|
      && Restored(record, g)[end] == record[g.usaOffset + 2 + k * 2]
      && Restored(record, g)[end + 1] == record[g.usaOffset + 3 + k * 2]
      && (forall i :: low <= i < end ==> Restored(record, g)[i] == record[i])
      && (forall i :: low <= i < next && InTrailer(g, i) ==> record[i] == Tag(record, g, i))
  {
    TrailerTagged(record, g, k);
    hide InTrailer, SavedAt, Tag;
    SectorEnd(g, |record|, k);
  }

  lemma TrailerTagged(record: Bytes, g: Geometry, k: nat)
    requires Sound(g, |record|) && k < g.sectors && TrailerStart(g, k) + 2 <= |record|
    requires var end := TrailerStart(g, k); record[end..end + 2] == record[g.usaOffset..g.usaOffset + 2]
    ensures forall i :: k * g.sectorSize <= i < (k + 1) * g.sectorSize && InTrailer(g, i) ==>
      i < |record| && record[i] == Tag(record, g, i)
  {
    SectorEnd(g, |record|, k);
    hide InTrailer, SavedAt;
    var end := TrailerStart(g, k);
    assert record[end] == record[end..end + 2][0] == record[g.usaOffset];
    assert record[end + 1] == record[end..end + 2][1] == record[g.usaOffset + 1];
  }

  lemma MismatchRefutes(record: Bytes, g: Geometry, k: nat)
    requires Sound(g, |record|) && k < g.sectors
    requires TrailerStart(g, k) + 2 <= |record|
    requires var end := TrailerStart(g, k);
      record[end..end + 2] != record[g.usaOffset..g.usaOffset + 2]
    ensures !TrailersMatch(record, g)
  {
    SectorEnd(g, |record|, k);
    var end := TrailerStart(g, k);
    assert InTrailer(g, end) && InTrailer(g, end + 1);
    assert record[end] != Tag(record, g, end) || record[end + 1] != Tag(record, g, end + 1);
  }

  /** Which bytes of sector k are its trailer, and where they are saved. */
  lemma SectorEnd(g: Geometry, size: nat, k: nat)
    requires Sound(g, size) && k < g.sectors
    ensures (k + 1) * g.sectorSize == k * g.sectorSize + g.sectorSize <= size
    ensures forall i :: k * g.sectorSize <= i < (k + 1) * g.sectorSize ==>
      (InTrailer(g, i) <==> i >= (k + 1) * g.sectorSize - 2)
    ensures var end := (k + 1) * g.sectorSize - 2;
      && end % g.sectorSize == g.sectorSize - 2 && (end + 1) % g.sectorSize == g.sectorSize - 1
      && SavedAt(g, end) == g.usaOffset + 2 + 2 * k
      && SavedAt(g, end + 1) == g.usaOffset + 3 + 2 * k
  {
    var s, low := g.sectorSize, k * g.sectorSize;
    assert (k + 1) * s == low + s;
    MulMonotone(k + 1, g.sectors, s);
    forall i | low <= i < low + s
      ensures i / s == k && i % s == i - low
    {
      SectorOf(i, k, s);
    }
  }

  /** A sector size supplied by the layout forces the number of USA entries. */
  lemma SuppliedSectorSizeForcesCount(record: Bytes, sectorSize: nat)
    requires Fixup(record, Some(sectorSize)).Ok?
    ensures sectorSize >= 3 && |record| % sectorSize == 0
    ensures Uint(record, 6, 2) == Ok(|record| / sectorSize + 1)
  {
    var g := ReadGeometry(record, Some(sectorSize)).value;
    SectorIndexBound(0, g.sectors, sectorSize);
    assert g.sectors * sectorSize == |record|;
    SectorOf(|record|, g.sectors, sectorSize);
  }

  /** Acceptance, byte by byte: what holds of the input and what the output is. */
  lemma AcceptedByteByByte(record: Bytes, sectorSize: Option<nat>, i: nat)
    requires Fixup(record, sectorSize).Ok? && i < |record|
    ensures var g := ReadGeometry(record, sectorSize).value; var out := Fixup(record, sectorSize).value;
      && |out| == |record| && g.sectorSize >= 3
      && (InTrailer(g, i) ==>
            && record[i] == record[g.usaOffset + (i % g.sectorSize - (g.sectorSize - 2))]
            && g.usaOffset + 2 <= SavedAt(g, i) < g.usaOffset + 2 + 2 * g.sectors <= |record|
            && out[i] == record[SavedAt(g, i)])
      && (!InTrailer(g, i) ==> out[i] == record[i])
  {
    var g := ReadGeometry(record, sectorSize).value;
    if InTrailer(g, i) {
      SavedAtInUsa(g, |record|, i);
    }
  }

  // ----- protecting sectors: the writer's side

  /** The USA lies outside all trailers, and so does the header that locates it. */
  ghost predicate Separate(g: Geometry)
    requires g.sectorSize >= 3
  {
    && (forall i: nat :: InUsa(g, i) ==> !InTrailer(g, i))
    && (forall i: nat :: 4 <= i < 8 ==> !InTrailer(g, i))
  }

  /** Saves every trailer in the USA and stamps the sequence number over it. */
  function Protect(plain: Bytes, g: Geometry, tag: (Byte, Byte)): (r: Bytes)
    requires Sound(g, |plain|)
    ensures |r| == |plain|
  {
    seq(|plain|, i requires 0 <= i < |plain| => ProtectedByte(plain, g, tag, i))
  }

  function ProtectedByte(plain: Bytes, g: Geometry, tag: (Byte, Byte), i: nat): Byte
    requires Sound(g, |plain|) && i < |plain|
  {
    if InTrailer(g, i) then (if i % g.sectorSize == g.sectorSize - 2 then tag.0 else tag.1)
    else if i == g.usaOffset then tag.0
    else if i == g.usaOffset + 1 then tag.1
    else if InUsa(g, i) then (SavedFromInTrailer(g, |plain|, i); plain[SavedFrom(g, i)])
    else plain[i]
  }

  /** The header of a plain record announces the geometry. */
  predicate Announces(plain: Bytes, g: Geometry) {
    Holds(plain, 4, 2, g.usaOffset) && Holds(plain, 6, 2, g.sectors + 1)
  }

  lemma GeometryIsAnnounced(record: Bytes, g: Geometry, sectorSize: Option<nat>)
    requires Sound(g, |record|) && Announces(record, g)
    requires sectorSize.Some? ==> sectorSize.value == g.sectorSize
    ensures ReadGeometry(record, sectorSize) == Ok(g)
  {
    UintReadsWhatIsHeld(record, 4, 2, g.usaOffset);
    UintReadsWhatIsHeld(record, 6, 2, g.sectors + 1);
    ExactQuotient(g.sectorSize, g.sectors);
    hide Uint, Holds;
  }

  lemma ProtectKeepsHeader(plain: Bytes, g: Geometry, tag: (Byte, Byte))
    requires Sound(g, |plain|) && Separate(g) && Announces(plain, g)
    ensures Announces(Protect(plain, g, tag), g)
  {
    var r := Protect(plain, g, tag);
    assert forall i :: 4 <= i < 8 ==> r[i] == plain[i];
    assert r[4..6] == plain[4..6] && r[6..8] == plain[6..8];
  }

  /** Fixup undoes protection everywhere outside the USA itself. */
  lemma FixupUndoesProtect(plain: Bytes, g: Geometry, tag: (Byte, Byte), sectorSize: Option<nat>)
    requires Sound(g, |plain|) && Separate(g) && Announces(plain, g)
    requires sectorSize.Some? ==> sectorSize.value == g.sectorSize
    ensures Fixup(Protect(plain, g, tag), sectorSize).Ok?
    ensures var out := Fixup(Protect(plain, g, tag), sectorSize).value;
      |out| == |plain| && forall i :: 0 <= i < |plain| && !InUsa(g, i) ==> out[i] == plain[i]
  {
    var r := Protect(plain, g, tag);
    ProtectKeepsHeader(plain, g, tag);
    GeometryIsAnnounced(r, g, sectorSize);
    assert InUsa(g, g.usaOffset) && InUsa(g, g.usaOffset + 1);
    assert r[g.usaOffset] == tag.0 && r[g.usaOffset + 1] == tag.1;
    var out := Restored(r, g);
    forall i | 0 <= i < |plain| && !InUsa(g, i)
      ensures out[i] == plain[i]
    {
      if InTrailer(g, i) {
        SavedAtInUsa(g, |plain|, i);
      }
    }
  }

  /** Protecting the restored record with its own sequence number gives the input back. */
  lemma ProtectUndoesFixup(record: Bytes, sectorSize: Option<nat>)
    requires Fixup(record, sectorSize).Ok? && Separate(ReadGeometry(record, sectorSize).value)
    ensures var g := ReadGeometry(record, sectorSize).value;
      Protect(Fixup(record, sectorSize).value, g, (record[g.usaOffset], record[g.usaOffset + 1])) == record
  {
    var g := ReadGeometry(record, sectorSize).value;
    var out := Fixup(record, sectorSize).value;
    var tag := (record[g.usaOffset], record[g.usaOffset + 1]);
    hide ReadGeometry;
    forall i | 0 <= i < |record|
      ensures ProtectedByte(out, g, tag, i) == record[i]
    {
      if !InTrailer(g, i) && InUsa(g, i) && i >= g.usaOffset + 2 {
        SavedFromInTrailer(g, |record|, i);
      }
    }
    assert Protect(out, g, tag) == record;
  }
}
