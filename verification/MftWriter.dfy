/** A writer for attributes and records: everything that fits the fields has bytes in the on-disk layout. */
module MftWriter {
  import opened Wrappers
  import opened WindowsBinary
  import opened ByteLayout
  import opened DataRuns
  import opened MftFixup
  import opened MftAttributes
  import opened MftFormat
  import opened MftRecord

  // ----- what fits

  predicate TicksFit(ticks: seq<nat>) {
    |ticks| == 4 && forall i :: 0 <= i < 4 ==> ticks[i] < Pow256(8)
  }

  /** The content agrees with the type code, and each number with its field. */
  predicate ContentFits(c: Content, typeCode: nat) {
    match c
    case Other(_) => typeCode != STANDARD_INFORMATION && typeCode != FILE_NAME
    case Standard(length, ticks, attributes) =>
      typeCode == STANDARD_INFORMATION && length >= 36 && TicksFit(ticks) && attributes < Pow256(4)
    case Named(length, parent, ticks, allocatedSize, logicalSize, attributes, _, name) =>
      && typeCode == FILE_NAME && |name| < 256 && WellFormed(name) && length >= 66 + 2 * |name|
      && parent < Pow256(8) && TicksFit(ticks) && allocatedSize < Pow256(8) && logicalSize < Pow256(8)
      && attributes < Pow256(4)
    case Clusters(startVcn, lastVcn, allocatedSize, logicalSize, initializedSize, runs) =>
      && startVcn < Pow256(8) && lastVcn < Pow256(8) && allocatedSize < Pow256(8) && logicalSize < Pow256(8)
      && initializedSize < Pow256(8) && AllStorable(runs) && |runs| <= MAX_DATA_RUNS
  }

  /** The size of the attribute as this writer lays it out: header, name, body. */
  function SizeOf(x: Source): nat
    requires ContentFits(x.content, x.typeCode)
  {
    if x.content.Clusters? then 64 + 2 * |x.name| + |EncodeRuns(x.content.runs)| + 1
    else 24 + 2 * |x.name| + LengthOf(x.content)
  }

  predicate Fits(x: Source) {
    && x.typeCode < TERMINATOR && x.id < Pow256(2) && x.flags < Pow256(2) && |x.name| < 256 && WellFormed(x.name)
    && ContentFits(x.content, x.typeCode) && SizeOf(x) < Pow256(4)
  }

  // ----- values

  function TickPieces(at: nat, ticks: seq<nat>): seq<Piece>
    requires |ticks| == 4
  {
    [Number(at, 8, ticks[0]), Number(at + 8, 8, ticks[1]), Number(at + 16, 8, ticks[2]), Number(at + 24, 8, ticks[3])]
  }

  function ValuePieces(c: Content): seq<Piece>
    requires (c.Standard? || c.Named?) && |c.ticks| == 4
  {
    if c.Standard? then TickPieces(0, c.ticks) + [Number(32, 4, c.fileAttributes)]
    else
      [Number(0, 8, c.parent)] + TickPieces(8, c.ticks)
      + [Number(40, 8, c.allocatedSize), Number(48, 8, c.logicalSize), Number(56, 4, c.fileAttributes)]
      + [Piece(64, [|c.name| % 256, c.namespace]), Piece(66, Utf16Bytes(c.name))]
  }

  lemma ValuePiecesOrdered(c: Content, typeCode: nat)
    requires ContentFits(c, typeCode) && (c.Standard? || c.Named?)
    ensures Ordered(ValuePieces(c), 0, c.length)
  {
    hide Utf16Bytes, LeBytes, Pow256;
    OrderedByNeighbours(ValuePieces(c), 0, c.length);
  }

  function ValueBytes(c: Content, typeCode: nat): (value: Bytes)
    requires ContentFits(c, typeCode) && !c.Clusters?
    ensures |value| == LengthOf(c)
  {
    if c.Other? then c.value
    else
      ValuePiecesOrdered(c, typeCode);
      Assemble(ValuePieces(c), 0, c.length)
  }

  lemma ValueIsStored(c: Content, typeCode: nat)
    requires ContentFits(c, typeCode) && !c.Clusters?
    ensures ValueStored(ValueBytes(c, typeCode), typeCode, c)
  {
    match c
    case Other(_) =>
    case Standard(_, _, _) => StandardIsStored(c, typeCode);
    case Named(_, _, _, _, _, _, _, _) => NamedIsStored(c, typeCode);
  }

  lemma StandardIsStored(c: Content, typeCode: nat)
    requires ContentFits(c, typeCode) && c.Standard?
    ensures ValueStored(ValueBytes(c, typeCode), typeCode, c)
  {
    hide Holds, Assemble, Ordered, LeBytes, Pow256;
    var pieces, n := ValuePieces(c), c.length;
    ValuePiecesOrdered(c, typeCode);
    forall k | 0 <= k < 4
      ensures Holds(Assemble(pieces, 0, n), 8 * k, 8, c.ticks[k])
    {
      NumberStands(pieces, n, k, 8 * k, 8, c.ticks[k]);
    }
    NumberStands(pieces, n, 4, 32, 4, c.fileAttributes);
  }

  lemma NamedIsStored(c: Content, typeCode: nat)
    requires ContentFits(c, typeCode) && c.Named?
    ensures ValueStored(ValueBytes(c, typeCode), typeCode, c)
  {
    hide Holds, Assemble, Ordered, LeBytes, Pow256, Utf16Bytes, WellFormed;
    var pieces, n := ValuePieces(c), c.length;
    ValuePiecesOrdered(c, typeCode);
    NumberStands(pieces, n, 0, 0, 8, c.parent);
    forall k | 0 <= k < 4
      ensures Holds(Assemble(pieces, 0, n), 8 + 8 * k, 8, c.ticks[k])
    {
      NumberStands(pieces, n, 1 + k, 8 + 8 * k, 8, c.ticks[k]);
    }
    NumberStands(pieces, n, 5, 40, 8, c.allocatedSize);
    NumberStands(pieces, n, 6, 48, 8, c.logicalSize);
    NumberStands(pieces, n, 7, 56, 4, c.fileAttributes);
    PieceStands(pieces, n, 8);
    PieceStands(pieces, n, 9);
    var value := Assemble(pieces, 0, n);
    assert value[64] == value[64..66][0] && value[65] == value[64..66][1];
  }

  // ----- attributes

  function HeadPieces(x: Source, size: nat, nonResident: Byte, nameAt: nat): seq<Piece> {
    [Number(0, 4, x.typeCode), Number(4, 4, size), Piece(8, [nonResident, |x.name| % 256]), Number(10, 2, nameAt),
     Number(12, 2, x.flags), Number(14, 2, x.id)]
  }

  function ResidentPieces(x: Source, value: Bytes): seq<Piece> {
    HeadPieces(x, 24 + 2 * |x.name| + |value|, 0, 24)
    + [Number(16, 4, |value|), Number(20, 2, 24 + 2 * |x.name|), Piece(24, Utf16Bytes(x.name)),
       Piece(24 + 2 * |x.name|, value)]
  }

  function ClusterPieces(x: Source, runs: Bytes): seq<Piece>
    requires x.content.Clusters?
  {
    HeadPieces(x, 64 + 2 * |x.name| + |runs| + 1, 1, 64)
    + [Number(16, 8, x.content.startVcn), Number(24, 8, x.content.lastVcn), Number(32, 2, 64 + 2 * |x.name|),
       Number(40, 8, x.content.allocatedSize), Number(48, 8, x.content.logicalSize),
       Number(56, 8, x.content.initializedSize), Piece(64, Utf16Bytes(x.name)), Piece(64 + 2 * |x.name|, runs + [0])]
  }

  /** The common header, as the layout asks for it. */
  predicate HeadStands(a: Bytes, x: Source, nonResident: Byte, nameAt: nat) {
    && |a| >= 24 && Holds(a, 0, 4, x.typeCode) && Holds(a, 4, 4, |a|) && Holds(a, 10, 2, nameAt)
    && Holds(a, 12, 2, x.flags) && Holds(a, 14, 2, x.id) && a[8] == nonResident && a[9] == |x.name|
  }

  /** The six pieces of the common header make it up. */
  lemma HeadIsStored(x: Source, pieces: seq<Piece>, size: nat, nonResident: Byte, nameAt: nat)
    requires Fits(x) && Ordered(pieces, 0, size) && 24 <= size < Pow256(4) && nameAt < Pow256(2)
    requires |pieces| >= 6 && pieces[..6] == HeadPieces(x, size, nonResident, nameAt)
    ensures HeadStands(Assemble(pieces, 0, size), x, nonResident, nameAt)
  {
    Pow256Values();
    hide Holds, Assemble, Ordered, LeBytes, Pow256, ContentFits, WellFormed, SizeOf;
    var head := HeadPieces(x, size, nonResident, nameAt);
    forall i | 0 <= i < 6
      ensures pieces[i] == head[i]
    {
      assert pieces[..6][i] == pieces[i];
    }
    NumberStands(pieces, size, 0, 0, 4, x.typeCode);
    NumberStands(pieces, size, 1, 4, 4, size);
    NumberStands(pieces, size, 3, 10, 2, nameAt);
    NumberStands(pieces, size, 4, 12, 2, x.flags);
    NumberStands(pieces, size, 5, 14, 2, x.id);
    PieceStands(pieces, size, 2);
    var a := Assemble(pieces, 0, size);
    assert a[8] == a[8..10][0] && a[9] == a[8..10][1];
  }

  lemma ResidentOrdered(x: Source, value: Bytes, size: nat)
    requires size == 24 + 2 * |x.name| + |value|
    ensures var pieces := ResidentPieces(x, value);
      && Ordered(pieces, 0, size) && |pieces| == 10 && pieces[..6] == HeadPieces(x, size, 0, 24)
      && pieces[6] == Number(16, 4, |value|) && pieces[7] == Number(20, 2, 24 + 2 * |x.name|)
      && pieces[8] == Piece(24, Utf16Bytes(x.name)) && pieces[9] == Piece(24 + 2 * |x.name|, value)
  {
    hide LeBytes, Utf16Bytes;
    var pieces := ResidentPieces(x, value);
    OrderedByNeighbours(pieces, 0, size);
    assert pieces[..6] == HeadPieces(x, size, 0, 24);
  }

  /** The block of a resident attribute, field by field. */
  lemma ResidentBlock(x: Source, value: Bytes, size: nat) returns (a: Bytes)
    requires Fits(x) && size == 24 + 2 * |x.name| + |value| < Pow256(4)
    ensures |a| == size && HeadStands(a, x, 0, 24)
    ensures Holds(a, 16, 4, |value|) && Holds(a, 20, 2, 24 + 2 * |x.name|)
    ensures a[24..24 + 2 * |x.name|] == Utf16Bytes(x.name) && a[24 + 2 * |x.name|..] == value
  {
    Pow256Values();
    ResidentOrdered(x, value, size);
    var pieces := ResidentPieces(x, value);
    hide Holds, Assemble, Ordered, LeBytes, Pow256, Utf16Bytes, WellFormed, ContentFits, SizeOf, ResidentPieces,
      HeadPieces, Number, HeadStands;
    HeadIsStored(x, pieces, size, 0, 24);
    NumberStands(pieces, size, 6, 16, 4, |value|);
    NumberStands(pieces, size, 7, 20, 2, 24 + 2 * |x.name|);
    PieceStands(pieces, size, 8);
    PieceStands(pieces, size, 9);
    a := Assemble(pieces, 0, size);
  }

  lemma ResidentIsStored(x: Source) returns (a: Bytes, p: Placement)
    requires Fits(x) && !x.content.Clusters?
    ensures Stored(a, x, p) && |a| == SizeOf(x)
  {
    hide Holds, Pow256, Utf16Bytes, WellFormed, ValueStored, ValueBytes, ContentFits, LengthOf;
    ValueIsStored(x.content, x.typeCode);
    var value := ValueBytes(x.content, x.typeCode);
    a := ResidentBlock(x, value, SizeOf(x));
    p := Placement(24, 24 + 2 * |x.name|);
    ResidentFromParts(a, x, 24 + 2 * |x.name|, value);
    hide ResidentStored;
  }

  lemma ResidentFromParts(a: Bytes, x: Source, bodyAt: nat, value: Bytes)
    requires |a| >= 24 && a[8] == 0 && Holds(a, 20, 2, bodyAt) && 24 <= bodyAt <= |a| && a[bodyAt..] == value
    requires Holds(a, 16, 4, |value|) && ValueStored(value, x.typeCode, x.content)
    ensures ResidentStored(a, x.typeCode, x.content, bodyAt)
  {
    hide Holds, ValueStored;
    assert a[bodyAt..|a|] == value && |a| - bodyAt == |value|;
  }

  lemma ClustersOrdered(x: Source, runs: Bytes, size: nat)
    requires x.content.Clusters? && size == 64 + 2 * |x.name| + |runs| + 1
    ensures var pieces, c := ClusterPieces(x, runs), x.content;
      && Ordered(pieces, 0, size) && |pieces| == 14 && pieces[..6] == HeadPieces(x, size, 1, 64)
      && pieces[6] == Number(16, 8, c.startVcn) && pieces[7] == Number(24, 8, c.lastVcn)
      && pieces[8] == Number(32, 2, 64 + 2 * |x.name|) && pieces[9] == Number(40, 8, c.allocatedSize)
      && pieces[10] == Number(48, 8, c.logicalSize) && pieces[11] == Number(56, 8, c.initializedSize)
      && pieces[12] == Piece(64, Utf16Bytes(x.name)) && pieces[13] == Piece(64 + 2 * |x.name|, runs + [0])
  {
    hide LeBytes, Utf16Bytes;
    var pieces := ClusterPieces(x, runs);
    OrderedByNeighbours(pieces, 0, size);
    assert pieces[..6] == HeadPieces(x, size, 1, 64);
  }

  /** The block of a non-resident attribute, field by field. */
  lemma ClusterBlock(x: Source, runs: Bytes, size: nat) returns (a: Bytes)
    requires Fits(x) && x.content.Clusters? && size == 64 + 2 * |x.name| + |runs| + 1 < Pow256(4)
    ensures var c := x.content;
      && |a| == size && HeadStands(a, x, 1, 64) && Holds(a, 16, 8, c.startVcn) && Holds(a, 24, 8, c.lastVcn)
      && Holds(a, 32, 2, 64 + 2 * |x.name|) && Holds(a, 40, 8, c.allocatedSize) && Holds(a, 48, 8, c.logicalSize)
      && Holds(a, 56, 8, c.initializedSize)
      && a[64..64 + 2 * |x.name|] == Utf16Bytes(x.name) && a[64 + 2 * |x.name|..] == runs + [0]
  {
    Pow256Values();
    var c := x.content;
    ClustersOrdered(x, runs, size);
    var pieces := ClusterPieces(x, runs);
    hide Holds, Assemble, Ordered, LeBytes, Pow256, Utf16Bytes, WellFormed, SizeOf, ClusterPieces, HeadPieces, Number,
      AllStorable, HeadStands;
    HeadIsStored(x, pieces, size, 1, 64);
    NumberStands(pieces, size, 6, 16, 8, c.startVcn);
    NumberStands(pieces, size, 7, 24, 8, c.lastVcn);
    NumberStands(pieces, size, 8, 32, 2, 64 + 2 * |x.name|);
    NumberStands(pieces, size, 9, 40, 8, c.allocatedSize);
    NumberStands(pieces, size, 10, 48, 8, c.logicalSize);
    NumberStands(pieces, size, 11, 56, 8, c.initializedSize);
    PieceStands(pieces, size, 12);
    PieceStands(pieces, size, 13);
    a := Assemble(pieces, 0, size);
  }

  lemma ClustersAreStored(x: Source) returns (a: Bytes, p: Placement)
    requires Fits(x) && x.content.Clusters?
    ensures Stored(a, x, p) && |a| == SizeOf(x)
  {
    var runs, c, at := EncodeRuns(x.content.runs), x.content, 64 + 2 * |x.name|;
    hide Holds, Pow256, Utf16Bytes, WellFormed, EncodeRuns, AllStorable;
    assert AllStorable(c.runs) && |c.runs| <= MAX_DATA_RUNS;
    a := ClusterBlock(x, runs, SizeOf(x));
    p := Placement(64, at);
    hide ContentFits;
    RunsEnd(a, at, runs);
    assert ClustersStored(a, c, at);
    hide ClustersStored;
  }

  lemma RunsEnd(a: Bytes, at: nat, runs: Bytes)
    requires at + |runs| + 1 == |a| && a[at..] == runs + [0]
    ensures exists n :: at <= n <= |a| && a[at..n] == runs && (n < |a| ==> a[n] == 0)
  {
    var n := at + |runs|;
    assert a[at..n] == a[at..][..|runs|] == runs;
    assert a[n] == a[at..][|runs|];
  }

  /** Every attribute that fits can be stored. */
  lemma CanBeStored(x: Source) returns (a: Bytes, p: Placement)
    requires Fits(x)
    ensures Stored(a, x, p) && |a| == SizeOf(x)
  {
    if x.content.Clusters? {
      a, p := ClustersAreStored(x);
    } else {
      a, p := ResidentIsStored(x);
    }
  }

  // ----- chains and records

  predicate AllFit(xs: seq<Source>) {
    forall i :: 0 <= i < |xs| ==> Fits(xs[i])
  }

  function TotalSize(xs: seq<Source>): nat
    requires AllFit(xs)
  {
    if |xs| == 0 then 0 else SizeOf(xs[0]) + TotalSize(xs[1..])
  }

  lemma {:induction false} ListCanBeStored(xs: seq<Source>) returns (cells: seq<Bytes>, ps: seq<Placement>)
    requires AllFit(xs)
    ensures AllStored(cells, xs, ps) && |Concat(cells)| == TotalSize(xs)
  {
    hide Stored, Fits, SizeOf;
    if |xs| == 0 {
      cells, ps := [], [];
    } else {
      var a, p := CanBeStored(xs[0]);
      var later, places := ListCanBeStored(xs[1..]);
      cells, ps := [a] + later, [p] + places;
      ConcatOne(a, later);
    }
  }

  /** A place for the chain: sectors, USA and header as decoding asks for, with room for n bytes from `first` on. */
  ghost predicate Roomy(g: Geometry, first: nat, n: nat) {
    && Sound(g, g.sectors * g.sectorSize) && Separate(g) && UsaOutside(g, 20, 28) && UsaOutside(g, first, first + n)
    && 48 <= first && first + n <= g.sectors * g.sectorSize < Pow256(4)
    && g.usaOffset < Pow256(2) && g.sectors + 1 < Pow256(2) && first < Pow256(2)
  }

  /** The geometry fields, the bounds of the attributes, and the attributes. */
  function RecordPieces(g: Geometry, first: nat, chain: Bytes): seq<Piece> {
    [Number(4, 2, g.usaOffset), Number(6, 2, g.sectors + 1), Number(20, 2, first),
     Number(24, 4, first + |chain|), Piece(first, chain)]
  }

  lemma RecordIsStored(g: Geometry, first: nat, chain: Bytes)
    requires Roomy(g, first, |chain|)
    ensures Ordered(RecordPieces(g, first, chain), 0, g.sectors * g.sectorSize)
    ensures var plain := Assemble(RecordPieces(g, first, chain), 0, g.sectors * g.sectorSize);
      RecordHead(plain, g, first, |chain|) && plain[first..first + |chain|] == chain
  {
    hide Holds, Assemble, Ordered, LeBytes, Pow256, Separate;
    var pieces, size := RecordPieces(g, first, chain), g.sectors * g.sectorSize;
    OrderedByNeighbours(pieces, 0, size);
    NumberStands(pieces, size, 0, 4, 2, g.usaOffset);
    NumberStands(pieces, size, 1, 6, 2, g.sectors + 1);
    NumberStands(pieces, size, 2, 20, 2, first);
    NumberStands(pieces, size, 3, 24, 4, first + |chain|);
    PieceStands(pieces, size, 4);
  }

  /** Every attribute list makes up a record of any geometry that has room for it. */
  lemma RecordCanBeStored(xs: seq<Source>, g: Geometry, first: nat)
      returns (plain: Bytes, used: nat, cells: seq<Bytes>, ps: seq<Placement>, rest: Bytes)
    requires AllFit(xs) && |xs| <= MAX_ATTRIBUTES && Roomy(g, first, TotalSize(xs) + 8)
    ensures PlainRecord(plain, g, first, used, cells, xs, ps, rest) && |plain| == g.sectors * g.sectorSize
  {
    hide AllStored, Concat, AllFit, TotalSize, ClosesChain, PlainRecord, RecordHead, Roomy, Assemble, RecordPieces,
      Ordered;
    cells, ps := ListCanBeStored(xs);
    rest := EndMarker();
    var chain := Concat(cells) + rest;
    assert |chain| == TotalSize(xs) + 8;
    RecordIsStored(g, first, chain);
    plain := Assemble(RecordPieces(g, first, chain), 0, g.sectors * g.sectorSize);
    used := first + |chain|;
    PlainFromParts(plain, g, first, cells, xs, ps, rest);
  }

  predicate RecordHead(plain: Bytes, g: Geometry, first: nat, n: nat) {
    && Holds(plain, 4, 2, g.usaOffset) && Holds(plain, 6, 2, g.sectors + 1) && Holds(plain, 20, 2, first)
    && Holds(plain, 24, 4, first + n)
  }

  lemma PlainFromParts(plain: Bytes, g: Geometry, first: nat, cells: seq<Bytes>, xs: seq<Source>, ps: seq<Placement>,
                       rest: Bytes)
    requires var n := |Concat(cells) + rest|;
      && Roomy(g, first, n) && |plain| == g.sectors * g.sectorSize && RecordHead(plain, g, first, n)
      && plain[first..first + n] == Concat(cells) + rest
    requires AllStored(cells, xs, ps) && ClosesChain(rest) && |xs| <= MAX_ATTRIBUTES
    ensures PlainRecord(plain, g, first, first + |Concat(cells) + rest|, cells, xs, ps, rest)
  {
    hide Holds, AllStored, Concat, Separate, Sound, Pow256;
    assert |rest| >= 8;
  }

  /** The usual layout has the room: sectors of 512 bytes, up to 128 of them, and the USA at 48. */
  lemma UsualIsRoomy(sectors: nat, n: nat)
    requires 0 < sectors <= 128 && 50 + 2 * sectors + n <= sectors * 512
    ensures Roomy(Geometry(48, sectors, 512), 50 + 2 * sectors, n)
  {
    Pow256Values();
    hide Pow256;
    UsaIsSeparate(sectors);
    hide Separate, Sound;
  }

  /** The USA at 48 stays clear of all trailers of 512-byte sectors. */
  lemma UsaIsSeparate(sectors: nat)
    requires 0 < sectors <= 128
    ensures Sound(Geometry(48, sectors, 512), sectors * 512) && Separate(Geometry(48, sectors, 512))
  {
  }

  lemma EndMarker() returns (rest: Bytes)
    ensures |rest| == 8 && ClosesChain(rest)
  {
    Pow256Values();
    hide LeBytes, Pow256;
    rest := LeBytes(TERMINATOR, 4) + Zeros(4);
    assert rest[0..4] == LeBytes(TERMINATOR, 4);
  }
}
