/** A printer for Shell Links: everything that fits the fields has a file, and parsing that file gives it back. */
module LnkWriter {
  import opened Wrappers
  import opened WindowsBinary
  import opened ByteLayout
  import opened Lnk
  import opened LnkFormat

  // ----- what fits

  /** Text that a terminated Unicode field can hold. */
  predicate TextFits(t: Option<Text>) {
    t.Some? ==> 0 !in t.value && WellFormed(t.value) && |t.value| < 0x1_0000
  }

  predicate VolumeFits(v: Volume) {
    v.driveType < Pow256(4) && v.serial < Pow256(4) && TextFits(v.driveLabel)
  }

  predicate NetworkFits(n: Network) {
    n.flags < Pow256(4) && n.provider < Pow256(4) && TextFits(n.share) && TextFits(n.device)
  }

  predicate InfoFits(info: LinkInfo) {
    && info.flags < Pow256(4) && TextFits(info.localPath) && TextFits(info.suffix)
    && (info.volume.Some? ==> Bit(info.flags, 0) && VolumeFits(info.volume.value))
    && (info.network.Some? ==> Bit(info.flags, 1) && NetworkFits(info.network.value))
  }

  /** The flags agree with the sections present, and each number with its field. */
  predicate LinkFits(x: Source) {
    && x.flags < Pow256(4) && x.attributes < Pow256(4) && x.fileSize < Pow256(4) && x.iconIndex < Pow256(4)
    && x.showCommand < Pow256(4) && |x.ticks| == 3 && (forall i :: 0 <= i < 3 ==> x.ticks[i] < Pow256(8))
    && ItemCells(x.items) && |Concat(x.items)| < 0xFFFE && (!Bit(x.flags, 0) ==> |x.items| == 0)
    && (x.info.Some? <==> Bit(x.flags, 1)) && (x.info.Some? ==> InfoFits(x.info.value))
    && StringsEncodable(x.strings, x.flags, 2) && ExtraCells(x.extra)
  }

  // ----- terminated Unicode strings

  function WideBytes(t: Option<Text>): Bytes {
    if t.Some? then Utf16Bytes(t.value) + [0, 0] else []
  }

  /** Where a string that starts at `at` is, or 0 if there is none. */
  function WhereIs(t: Option<Text>, at: nat): nat {
    if t.Some? then at else 0
  }

  lemma WideIsStored(block: Bytes, at: nat, t: Option<Text>, ansiAt: nat)
    requires TextFits(t) && at > 0 && at + |WideBytes(t)| <= |block| && block[at..at + |WideBytes(t)|] == WideBytes(t)
    requires t.None? ==> ansiAt == 0 || ansiAt >= |block|
    ensures StringStored(block, ansiAt, WhereIs(t, at), t)
  {
    if t.Some? {
      var bs := Utf16Bytes(t.value);
      hide Utf16Bytes, WellFormed;
      var cell := block[at..at + |WideBytes(t)|];
      assert block[at..at + |bs|] == cell[..|bs|] == bs;
      assert block[at + |bs|] == cell[|bs|] == 0 && block[at + |bs| + 1] == cell[|bs| + 1] == 0;
    }
  }

  // ----- section 2.3.1: VolumeID

  function VolumeSize(v: Volume): nat {
    20 + |WideBytes(v.driveLabel)|
  }

  function VolumePieces(v: Volume): seq<Piece> {
    [Number(0, 4, VolumeSize(v)), Number(4, 4, v.driveType), Number(8, 4, v.serial),
     Number(12, 4, WhereIs(v.driveLabel, 0x14)), Number(16, 4, WhereIs(v.driveLabel, 20)),
     Piece(20, WideBytes(v.driveLabel))]
  }

  lemma VolumeIsStored(v: Volume) returns (cell: Bytes)
    requires VolumeFits(v)
    ensures |cell| == VolumeSize(v)
    ensures VolumeStored(cell, 0, |cell|, WhereIs(v.driveLabel, 0x14), WhereIs(v.driveLabel, 20), v)
  {
    Pow256Values();
    var pieces, n := VolumePieces(v), VolumeSize(v);
    hide Holds, Assemble, Ordered, LeBytes, Pow256, WideBytes, StringStored, WellFormed;
    assert |WideBytes(v.driveLabel)| < 0x4_0000 by { WideLength(v.driveLabel); }
    OrderedByNeighbours(pieces, 0, n);
    NumberStands(pieces, n, 0, 0, 4, n);
    NumberStands(pieces, n, 1, 4, 4, v.driveType);
    NumberStands(pieces, n, 2, 8, 4, v.serial);
    NumberStands(pieces, n, 3, 12, 4, WhereIs(v.driveLabel, 0x14));
    NumberStands(pieces, n, 4, 16, 4, WhereIs(v.driveLabel, 20));
    PieceStands(pieces, n, 5);
    cell := Assemble(pieces, 0, n);
    WideIsStored(cell, 20, v.driveLabel, WhereIs(v.driveLabel, 0x14));
    assert cell[0..0 + n] == cell;
  }

  lemma WideLength(t: Option<Text>)
    requires TextFits(t)
    ensures |WideBytes(t)| < 0x4_0000
  {
  }

  // ----- section 2.3.2: CommonNetworkRelativeLink

  function NetworkSize(n: Network): nat {
    28 + |WideBytes(n.share)| + |WideBytes(n.device)|
  }

  /** An absent share name is past the end: only an offset above 0x14 makes room for those of Unicode names. */
  function ShareAt(n: Network): nat {
    if n.share.Some? then 28 else NetworkSize(n)
  }

  function DeviceAt(n: Network): nat {
    WhereIs(n.device, 28 + |WideBytes(n.share)|)
  }

  function NetworkPieces(n: Network): seq<Piece> {
    [Number(0, 4, NetworkSize(n)), Number(4, 4, n.flags), Number(8, 4, ShareAt(n)), Number(12, 4, DeviceAt(n)),
     Number(16, 4, n.provider), Number(20, 4, WhereIs(n.share, 28)), Number(24, 4, DeviceAt(n)),
     Piece(28, WideBytes(n.share)), Piece(28 + |WideBytes(n.share)|, WideBytes(n.device))]
  }

  lemma NetworkOrdered(n: Network)
    ensures Ordered(NetworkPieces(n), 0, NetworkSize(n))
  {
    hide LeBytes, WideBytes;
    OrderedByNeighbours(NetworkPieces(n), 0, NetworkSize(n));
  }

  /** The fixed part of the structure. */
  lemma NetworkHeaderStands(n: Network)
    requires NetworkFits(n) && Ordered(NetworkPieces(n), 0, NetworkSize(n))
    ensures var cell := Assemble(NetworkPieces(n), 0, NetworkSize(n));
      && Holds(cell, 0, 4, NetworkSize(n)) && Holds(cell, 4, 4, n.flags) && Holds(cell, 8, 4, ShareAt(n))
      && Holds(cell, 12, 4, DeviceAt(n)) && Holds(cell, 16, 4, n.provider) && Holds(cell, 20, 4, WhereIs(n.share, 28))
      && Holds(cell, 24, 4, DeviceAt(n))
  {
    Pow256Values();
    var pieces, size := NetworkPieces(n), NetworkSize(n);
    WideLength(n.share);
    WideLength(n.device);
    hide Holds, Assemble, Ordered, LeBytes, Pow256, WideBytes, WellFormed;
    NumberStands(pieces, size, 0, 0, 4, size);
    NumberStands(pieces, size, 1, 4, 4, n.flags);
    NumberStands(pieces, size, 2, 8, 4, ShareAt(n));
    NumberStands(pieces, size, 3, 12, 4, DeviceAt(n));
    NumberStands(pieces, size, 4, 16, 4, n.provider);
    NumberStands(pieces, size, 5, 20, 4, WhereIs(n.share, 28));
    NumberStands(pieces, size, 6, 24, 4, DeviceAt(n));
  }

  /** The two names behind it. */
  lemma NetworkNamesStand(n: Network)
    requires Ordered(NetworkPieces(n), 0, NetworkSize(n))
    ensures var cell := Assemble(NetworkPieces(n), 0, NetworkSize(n)); var deviceAt := 28 + |WideBytes(n.share)|;
      cell[28..deviceAt] == WideBytes(n.share)
         && cell[deviceAt..deviceAt + |WideBytes(n.device)|] == WideBytes(n.device)
  {
    hide Assemble, Ordered, LeBytes, WideBytes;
    PieceStands(NetworkPieces(n), NetworkSize(n), 7);
    PieceStands(NetworkPieces(n), NetworkSize(n), 8);
  }

  lemma NetworkIsStored(n: Network) returns (cell: Bytes)
    requires NetworkFits(n)
    ensures |cell| == NetworkSize(n)
    ensures NetworkStored(cell, 0, |cell|, ShareAt(n), DeviceAt(n), WhereIs(n.share, 28), DeviceAt(n), n)
  {
    NetworkOrdered(n);
    NetworkHeaderStands(n);
    NetworkNamesStand(n);
    hide Holds, Assemble, Ordered, LeBytes, WideBytes, StringStored, WellFormed, NetworkPieces;
    cell := Assemble(NetworkPieces(n), 0, NetworkSize(n));
    WideIsStored(cell, 28, n.share, ShareAt(n));
    WideIsStored(cell, 28 + |WideBytes(n.share)|, n.device, DeviceAt(n));
    assert cell[0..0 + |cell|] == cell;
  }

  /** The same structure inside a larger block. */
  lemma VolumeInside(block: Bytes, at: nat, cell: Bytes, labelAt: nat, wideAt: nat, v: Volume)
    requires at + |cell| <= |block| && block[at..at + |cell|] == cell
             && VolumeStored(cell, 0, |cell|, labelAt, wideAt, v)
    ensures VolumeStored(block, at, |cell|, labelAt, wideAt, v)
  {
    hide Holds, StringStored;
    assert cell[0..0 + |cell|] == cell;
  }

  lemma NetworkInside(block: Bytes, at: nat, cell: Bytes, shareAt: nat, deviceAt: nat, shareWide: nat, deviceWide: nat,
                      n: Network)
    requires at + |cell| <= |block| && block[at..at + |cell|] == cell
    requires NetworkStored(cell, 0, |cell|, shareAt, deviceAt, shareWide, deviceWide, n)
    ensures NetworkStored(block, at, |cell|, shareAt, deviceAt, shareWide, deviceWide, n)
  {
    hide Holds, StringStored;
    assert cell[0..0 + |cell|] == cell;
  }

  // ----- section 2.3: LinkInfo

  /** The two nested structures, empty when absent. */
  lemma NestedAreStored(info: LinkInfo) returns (volume: Bytes, network: Bytes)
    requires InfoFits(info)
    ensures |volume| < 0x10_0000 && |network| < 0x10_0000
    ensures info.volume.Some? ==>
      VolumeStored(volume, 0, |volume|, WhereIs(info.volume.value.driveLabel, 0x14),
                   WhereIs(info.volume.value.driveLabel, 20), info.volume.value)
    ensures info.network.Some? ==>
      var n := info.network.value;
      NetworkStored(network, 0, |network|, ShareAt(n), DeviceAt(n), WhereIs(n.share, 28), DeviceAt(n), n)
  {
    hide VolumeStored, NetworkStored, WideBytes, DeviceAt, ShareAt;
    volume, network := [], [];
    if info.volume.Some? {
      WideLength(info.volume.value.driveLabel);
      volume := VolumeIsStored(info.volume.value);
    }
    if info.network.Some? {
      WideLength(info.network.value.share);
      WideLength(info.network.value.device);
      network := NetworkIsStored(info.network.value);
    }
  }

  /** Offsets of the four parts behind the header of 0x24 bytes. */
  function PlacesOf(info: LinkInfo, volume: Bytes, network: Bytes): InfoPlaces {
    var suffixAt := 0x24 + |WideBytes(info.localPath)|;
    var volumeAt := suffixAt + |WideBytes(info.suffix)|;
    var driveLabel := if info.volume.Some? then info.volume.value.driveLabel else None;
    var n := if info.network.Some? then info.network.value else Network(0, None, None, 0);
    InfoPlaces(
      0x24, if info.volume.Some? then volumeAt else 0, 0, if info.network.Some? then volumeAt + |volume| else 0, 0,
      WhereIs(info.localPath, 0x24), WhereIs(info.suffix, suffixAt),
      |volume|, WhereIs(driveLabel, 0x14), WhereIs(driveLabel, 20),
      |network|, ShareAt(n), DeviceAt(n), WhereIs(n.share, 28), DeviceAt(n))
  }

  function InfoPieces(info: LinkInfo, p: InfoPlaces, size: nat, volume: Bytes, network: Bytes): seq<Piece> {
    var local, suffix := WideBytes(info.localPath), WideBytes(info.suffix);
    [Number(0, 4, size), Number(4, 4, p.headerSize), Number(8, 4, info.flags), Number(12, 4, p.volumeAt),
     Number(16, 4, 0), Number(20, 4, p.networkAt), Number(24, 4, 0), Number(28, 4, p.localWide),
     Number(32, 4, p.suffixWide), Piece(0x24, local), Piece(0x24 + |local|, suffix),
     Piece(0x24 + |local| + |suffix|, volume), Piece(0x24 + |local| + |suffix| + |volume|, network)]
  }

  function InfoSize(info: LinkInfo, volume: Bytes, network: Bytes): nat {
    0x24 + |WideBytes(info.localPath)| + |WideBytes(info.suffix)| + |volume| + |network|
  }

  lemma InfoPiecesOrdered(info: LinkInfo, p: InfoPlaces, volume: Bytes, network: Bytes)
    ensures Ordered(InfoPieces(info, p, InfoSize(info, volume, network), volume, network), 0,
                    InfoSize(info, volume, network))
  {
    hide LeBytes, WideBytes;
    OrderedByNeighbours(InfoPieces(info, p, InfoSize(info, volume, network), volume, network), 0,
                        InfoSize(info, volume, network));
  }

  lemma InfoNumbersListed(info: LinkInfo, p: InfoPlaces, size: nat, volume: Bytes, network: Bytes)
    ensures var pieces := InfoPieces(info, p, size, volume, network);
      && |pieces| == 13 && pieces[0] == Number(0, 4, size) && pieces[1] == Number(4, 4, p.headerSize)
      && pieces[2] == Number(8, 4, info.flags) && pieces[3] == Number(12, 4, p.volumeAt)
      && pieces[4] == Number(16, 4, 0) && pieces[5] == Number(20, 4, p.networkAt) && pieces[6] == Number(24, 4, 0)
      && pieces[7] == Number(28, 4, p.localWide) && pieces[8] == Number(32, 4, p.suffixWide)
  {
    hide Number, WideBytes;
  }

  lemma InfoNumbersFit(info: LinkInfo, volume: Bytes, network: Bytes)
    requires InfoFits(info) && |volume| < 0x10_0000 && |network| < 0x10_0000
    ensures var p := PlacesOf(info, volume, network);
      && 0 < Pow256(4) && 0x24 <= InfoSize(info, volume, network) < Pow256(4) && info.flags < Pow256(4)
      && p.headerSize == 0x24 < Pow256(4) && p.localAt == 0 && p.suffixAt == 0
      && p.volumeAt < Pow256(4) && p.networkAt < Pow256(4) && p.localWide < Pow256(4) && p.suffixWide < Pow256(4)
  {
    Pow256Values();
    hide Pow256, WideBytes, DeviceAt, ShareAt, VolumeFits, NetworkFits, Bit;
    WideLength(info.localPath);
    WideLength(info.suffix);
  }

  /** The fixed part of the block. */
  lemma InfoHeaderIsStored(info: LinkInfo, volume: Bytes, network: Bytes)
    requires InfoFits(info) && |volume| < 0x10_0000 && |network| < 0x10_0000
    requires var p, size := PlacesOf(info, volume, network), InfoSize(info, volume, network);
      Ordered(InfoPieces(info, p, size, volume, network), 0, size)
    ensures var p, size := PlacesOf(info, volume, network), InfoSize(info, volume, network);
      InfoHeader(Assemble(InfoPieces(info, p, size, volume, network), 0, size), info, p)
  {
    InfoNumbersFit(info, volume, network);
    var p, size := PlacesOf(info, volume, network), InfoSize(info, volume, network);
    InfoNumbersListed(info, p, size, volume, network);
    hide Holds, Assemble, Ordered, Number, Pow256, WideBytes, InfoFits, PlacesOf, InfoPieces, InfoSize;
    var pieces := InfoPieces(info, p, size, volume, network);
    NumberStands(pieces, size, 0, 0, 4, size);
    NumberStands(pieces, size, 1, 4, 4, p.headerSize);
    NumberStands(pieces, size, 2, 8, 4, info.flags);
    NumberStands(pieces, size, 3, 12, 4, p.volumeAt);
    NumberStands(pieces, size, 4, 16, 4, 0);
    NumberStands(pieces, size, 5, 20, 4, p.networkAt);
    NumberStands(pieces, size, 6, 24, 4, 0);
    NumberStands(pieces, size, 7, 28, 4, p.localWide);
    NumberStands(pieces, size, 8, 32, 4, p.suffixWide);
  }

  /** The four parts behind it. */
  lemma InfoPartsStand(info: LinkInfo, p: InfoPlaces, volume: Bytes, network: Bytes)
    requires var size := InfoSize(info, volume, network); Ordered(InfoPieces(info, p, size, volume, network), 0, size)
    ensures var size := InfoSize(info, volume, network);
            var block := Assemble(InfoPieces(info, p, size, volume, network), 0, size);
      var suffixAt := 0x24 + |WideBytes(info.localPath)|; var volumeAt := suffixAt + |WideBytes(info.suffix)|;
      && block[0x24..suffixAt] == WideBytes(info.localPath) && block[suffixAt..volumeAt] == WideBytes(info.suffix)
      && block[volumeAt..volumeAt + |volume|] == volume
      && block[volumeAt + |volume|..volumeAt + |volume| + |network|] == network
  {
    var size := InfoSize(info, volume, network);
    hide Assemble, Ordered, LeBytes, WideBytes;
    var pieces := InfoPieces(info, p, size, volume, network);
    PieceStands(pieces, size, 9);
    PieceStands(pieces, size, 10);
    PieceStands(pieces, size, 11);
    PieceStands(pieces, size, 12);
  }

  /** The block, its fixed part and its four parts. */
  lemma InfoBlock(info: LinkInfo, volume: Bytes, network: Bytes) returns (block: Bytes)
    requires InfoFits(info) && |volume| < 0x10_0000 && |network| < 0x10_0000
    ensures InfoHeader(block, info, PlacesOf(info, volume, network)) && |block| == InfoSize(info, volume, network)
    ensures var suffixAt := 0x24 + |WideBytes(info.localPath)|; var volumeAt := suffixAt + |WideBytes(info.suffix)|;
      && block[0x24..suffixAt] == WideBytes(info.localPath) && block[suffixAt..volumeAt] == WideBytes(info.suffix)
      && block[volumeAt..volumeAt + |volume|] == volume
      && block[volumeAt + |volume|..volumeAt + |volume| + |network|] == network
  {
    var size, p := InfoSize(info, volume, network), PlacesOf(info, volume, network);
    InfoPiecesOrdered(info, p, volume, network);
    InfoHeaderIsStored(info, volume, network);
    InfoPartsStand(info, p, volume, network);
    hide Assemble, Ordered, WideBytes, InfoPieces, InfoHeader, PlacesOf, InfoFits;
    block := Assemble(InfoPieces(info, p, size, volume, network), 0, size);
  }

  lemma InfoTextsStand(block: Bytes, info: LinkInfo, suffixAt: nat, volumeAt: nat)
    requires InfoFits(info)
    requires suffixAt == 0x24 + |WideBytes(info.localPath)|
             && volumeAt == suffixAt + |WideBytes(info.suffix)| <= |block|
    requires block[0x24..suffixAt] == WideBytes(info.localPath) && block[suffixAt..volumeAt] == WideBytes(info.suffix)
    ensures StringStored(block, 0, WhereIs(info.localPath, 0x24), info.localPath)
    ensures StringStored(block, 0, WhereIs(info.suffix, suffixAt), info.suffix)
  {
    hide WideBytes, StringStored, TextFits, VolumeFits, NetworkFits, Bit;
    WideIsStored(block, 0x24, info.localPath, 0);
    WideIsStored(block, suffixAt, info.suffix, 0);
  }

  lemma InfoCanBeStored(info: LinkInfo) returns (block: Bytes, p: InfoPlaces)
    requires InfoFits(info)
    ensures InfoStored(block, info, p)
  {
    hide Holds, WideBytes, DeviceAt, ShareAt, WhereIs, InfoHeader, StringStored, VolumeStored, NetworkStored, Bit,
      VolumeFits, NetworkFits, TextFits;
    var volume, network := NestedAreStored(info);
    p := PlacesOf(info, volume, network);
    block := InfoBlock(info, volume, network);
    var suffixAt := 0x24 + |WideBytes(info.localPath)|;
    var volumeAt := suffixAt + |WideBytes(info.suffix)|;
    InfoTextsStand(block, info, suffixAt, volumeAt);
    if info.volume.Some? {
      VolumeInside(block, volumeAt, volume, p.labelAt, p.labelWide, info.volume.value);
    }
    if info.network.Some? {
      NetworkInside(block, volumeAt + |volume|, network, p.shareAt, p.deviceAt, p.shareWide, p.deviceWide,
                    info.network.value);
    }
  }

  // ----- the file

  function HeaderPieces(x: Source): seq<Piece>
    requires |x.ticks| == 3
  {
    [Number(0, 4, HEADER_SIZE), Number(20, 4, x.flags), Number(24, 4, x.attributes), Number(28, 8, x.ticks[0]),
     Number(36, 8, x.ticks[1]), Number(44, 8, x.ticks[2]), Number(52, 4, x.fileSize), Number(56, 4, x.iconIndex),
     Number(60, 4, x.showCommand)]
  }

  lemma HeaderCanBeStored(x: Source) returns (header: Bytes)
    requires LinkFits(x)
    ensures HeaderStored(header, x)
  {
    Pow256Values();
    hide Holds, Assemble, Ordered, LeBytes, Pow256, InfoFits, ItemCells, ExtraCells, StringsEncodable, Bit, Concat;
    var pieces, n := HeaderPieces(x), HEADER_SIZE;
    OrderedByNeighbours(pieces, 0, n);
    NumberStands(pieces, n, 0, 0, 4, n);
    NumberStands(pieces, n, 1, 20, 4, x.flags);
    NumberStands(pieces, n, 2, 24, 4, x.attributes);
    NumberStands(pieces, n, 3, 28, 8, x.ticks[0]);
    NumberStands(pieces, n, 4, 36, 8, x.ticks[1]);
    NumberStands(pieces, n, 5, 44, 8, x.ticks[2]);
    NumberStands(pieces, n, 6, 52, 4, x.fileSize);
    NumberStands(pieces, n, 7, 56, 4, x.iconIndex);
    NumberStands(pieces, n, 8, 60, 4, x.showCommand);
    header := Assemble(pieces, 0, n);
  }

  lemma IdSectionCanBeStored(x: Source) returns (section: Bytes)
    requires LinkFits(x)
    ensures IdSectionStored(section, x)
  {
    Pow256Values();
    hide LeBytes, Pow256, InfoFits, ItemCells, ExtraCells, StringsEncodable, Bit, Concat;
    section := [];
    if Bit(x.flags, 0) {
      var list := Concat(x.items) + [0, 0];
      section := LeBytes(|list|, 2) + list;
      assert section[0..2] == LeBytes(|list|, 2) && section[2..] == list;
    }
  }

  lemma InfoSectionCanBeStored(x: Source) returns (section: Bytes, p: InfoPlaces)
    requires LinkFits(x)
    ensures InfoSectionStored(section, x, p)
  {
    hide InfoFits, ItemCells, ExtraCells, StringsEncodable, Bit, Concat, InfoStored, Pow256;
    section, p := [], InfoPlaces(0, 0, 0, 0, 0, 0, 0, 0, 0, 0, 0, 0, 0, 0, 0);
    if x.info.Some? {
      section, p := InfoCanBeStored(x.info.value);
    }
  }

  /** Every link that fits can be stored. */
  lemma LinkCanBeStored(x: Source) returns (f: Pieces, p: InfoPlaces)
    requires LinkFits(x)
    ensures LinkStored(f, x, p)
  {
    var header := HeaderCanBeStored(x);
    var ids := IdSectionCanBeStored(x);
    var info;
    info, p := InfoSectionCanBeStored(x);
    FourZeros();
    hide HeaderStored, IdSectionStored, InfoSectionStored, Holds, EncodeStrings, Concat, InfoFits, ItemCells, Bit,
      Pow256;
    var end: Bytes := [0, 0, 0, 0];
    f := LnkFormat.Pieces(header, ids, info, EncodeStrings(x.strings, Bit(x.flags, 7)), Concat(x.extra) + end);
    assert f.extra[..|Concat(x.extra)|] == Concat(x.extra) && f.extra[|Concat(x.extra)|..] == end;
  }

  lemma FourZeros()
    ensures Holds([0, 0, 0, 0], 0, 4, 0)
  {
    assert LeBytes(0, 1) == [0] && LeBytes(0, 2) == [0, 0] && LeBytes(0, 3) == [0, 0, 0];
  }

  /** Print and parse: for any link that fits there is a file from which parsing recovers it. */
  lemma SomeFileParsesBack(x: Source) returns (data: Bytes)
    requires LinkFits(x)
    ensures ItemCells(x.items) && ExtraCells(x.extra) && |x.strings| == 5
    ensures Normalize(data) == Ok(LinkResult(LinkOf(x), ExpectedWarnings(x)))
  {
    hide LinkFits, LinkStored, Normalize, LinkOf, ExpectedWarnings;
    var f, p := LinkCanBeStored(x);
    ParseUndoesPrint(f, x, p);
    data := FileOf(f);
  }
}
