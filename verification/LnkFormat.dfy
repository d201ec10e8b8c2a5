/**
 The Shell Link layout of [MS-SHLLINK] section 2 as a relation between link sources and bytes,
 and the proof that parsing recovers the source from any bytes so laid out.
 */
module LnkFormat {
  import opened Wrappers
  import opened WindowsBinary
  import opened Lnk

  // ----- section 2.2: LinkTargetIDList

  /** Shell items: each cell starts with its own size. */
  predicate ItemCells(cells: seq<Bytes>) {
    forall i :: 0 <= i < |cells| ==> |cells[i]| >= 2 && Holds(cells[i], 0, 2, |cells[i]|)
  }

  /** What a list of cells stands for: at most MAX_IDLIST_ITEMS items, numbered from index. */
  function ItemsOf(cells: seq<Bytes>, index: nat): ItemList
    requires ItemCells(cells)
  {
    if |cells| == 0 then ItemList([], [])
    else
      var one := ItemList([ItemOf(cells[0])], ItemWarnings(ItemOf(cells[0]), index));
      if index + 1 >= MAX_IDLIST_ITEMS then one else Append(one, ItemsOf(cells[1..], index + 1))
  }

  lemma ItemHead(cell: Bytes, rest: Bytes, index: nat)
    requires |cell| >= 2 && Holds(cell, 0, 2, |cell|)
    ensures var one := ItemList([ItemOf(cell)], ItemWarnings(ItemOf(cell), index));
      IdList(cell + rest, index) == if index + 1 >= MAX_IDLIST_ITEMS then one else Append(one, IdList(rest, index + 1))
  {
    hide Field, ItemOf, ItemWarnings, Append;
    var data := cell + rest;
    assert data[0..0 + |cell|] == data[..|cell|] == cell && data[|cell|..] == rest;
    FieldIsLocal(data, 0, |cell|, 0, 2);
    FieldIsHeld(cell, 0, 2, |cell|);
  }

  /** Every item comes back, up to the limit, whatever follows the terminator. */
  lemma {:induction false} IdListDecodes(cells: seq<Bytes>, rest: Bytes, index: nat)
    requires ItemCells(cells) && |rest| >= 2 && Holds(rest, 0, 2, 0)
    ensures IdList(Concat(cells) + rest, index) == ItemsOf(cells, index)
  {
    hide Field, ItemOf, ItemWarnings, Append;
    if |cells| == 0 {
      assert Concat(cells) + rest == rest;
      FieldIsHeld(rest, 0, 2, 0);
    } else {
      assert Concat(cells) + rest == cells[0] + (Concat(cells[1..]) + rest);
      ItemHead(cells[0], Concat(cells[1..]) + rest, index);
      IdListDecodes(cells[1..], rest, index + 1);
    }
  }

  /** Below the limit all items come back in order; the items are the cells' own. */
  lemma {:induction false} ItemsAreCells(cells: seq<Bytes>, index: nat, i: nat)
    requires ItemCells(cells) && index < MAX_IDLIST_ITEMS && i < |cells| && index + i < MAX_IDLIST_ITEMS
    ensures i < |ItemsOf(cells, index).items| && ItemsOf(cells, index).items[i] == ItemOf(cells[i])
  {
    if i > 0 {
      ItemsAreCells(cells[1..], index + 1, i - 1);
    }
  }

  /**
   The limit warning says the list exceeded 4096 items, but it is raised from exactly 4096 on:
   a complete list of that length is reported as cut although nothing was lost.
   */
  lemma {:induction false} LimitWarningIff(cells: seq<Bytes>, index: nat)
    requires ItemCells(cells) && index < MAX_IDLIST_ITEMS
    ensures ItemLimit in ItemsOf(cells, index).warnings <==> index + |cells| >= MAX_IDLIST_ITEMS
    ensures |ItemsOf(cells, index).items|
         == if index + |cells| > MAX_IDLIST_ITEMS then MAX_IDLIST_ITEMS - index else |cells|
  {
    hide KnownClass, ItemOf;
    if |cells| > 0 && index + 1 < MAX_IDLIST_ITEMS {
      LimitWarningIff(cells[1..], index + 1);
    }
  }

  /** One such list: 4096 cells of three bytes give all 4096 items, and the warning. */
  lemma FullListIsReportedAsCut()
    ensures var cells: seq<Bytes> := seq(MAX_IDLIST_ITEMS, i => [3, 0, 0x1F]);
      && ItemCells(cells) && |ItemsOf(cells, 0).items| == |cells|
      && (forall i :: 0 <= i < |cells| ==> ItemsOf(cells, 0).items[i] == ItemOf(cells[i]))
      && ItemLimit in ItemsOf(cells, 0).warnings
  {
    var cells: seq<Bytes> := seq(MAX_IDLIST_ITEMS, i => [3, 0, 0x1F]);
    var cell: Bytes := [3, 0, 0x1F];
    assert LeBytes(3, 1) == [3] && LeBytes(0, 1) == [0];
    assert LeBytes(3, 2) == [3, 0];
    assert cell[0..2] == LeBytes(3, 2) && 3 < Pow256(2);
    assert Holds(cell, 0, 2, 3);
    hide Holds, ItemOf, ItemsOf, LeBytes, Pow256;
    assert ItemCells(cells);
    LimitWarningIff(cells, 0);
    forall i | 0 <= i < |cells|
      ensures ItemsOf(cells, 0).items[i] == ItemOf(cells[i])
    {
      ItemsAreCells(cells, 0, i);
    }
  }

  // ----- section 2.3: LinkInfo

  /** A string present at one of two offsets, or absent: the offset in use is zero or past the end. */
  predicate StringStored(block: Bytes, ansiAt: nat, wideAt: nat, text: Option<Text>) {
    match text
    case None => if wideAt > 0 then wideAt >= |block| else ansiAt == 0 || ansiAt >= |block|
    case Some(t) =>
      && Terminable(t, wideAt > 0)
      && if wideAt > 0 then StoredText(block, wideAt, t, true) else ansiAt > 0 && StoredText(block, ansiAt, t, false)
  }

  lemma StringDecodes(block: Bytes, ansiAt: nat, wideAt: nat, text: Option<Text>)
    requires StringStored(block, ansiAt, wideAt, text)
    ensures EitherString(block, ansiAt, wideAt) == Ok(text)
  {
    if text.Some? {
      CStringReadsStoredText(block, if wideAt > 0 then wideAt else ansiAt, text.value, wideAt > 0);
    }
  }

  /** Section 2.3.1: VolumeID.  A label offset of 0x14 announces a Unicode offset. */
  predicate VolumeStored(block: Bytes, at: nat, size: nat, labelAt: nat, wideAt: nat, v: Volume) {
    && at + size <= |block| && size >= 16
    && var cell := block[at..at + size];
       && Holds(cell, 0, 4, size) && Holds(cell, 4, 4, v.driveType) && Holds(cell, 8, 4, v.serial)
       && Holds(cell, 12, 4, labelAt)
       && (if labelAt == 0x14 then Holds(cell, 16, 4, wideAt) else wideAt == 0)
       && StringStored(cell, labelAt, wideAt, v.driveLabel)
  }

  lemma VolumeDecodes(block: Bytes, at: nat, size: nat, labelAt: nat, wideAt: nat, v: Volume)
    requires VolumeStored(block, at, size, labelAt, wideAt, v)
    ensures DecodeVolume(block, at) == Ok(v)
  {
    hide Le, LeBytes, Pow256, EitherString, StringStored;
    var cell := block[at..at + size];
    FieldIsLocal(block, at, size, 0, 4);
    assert block[at..at + 4] == block[at + 0..at + 0 + 4];
    FieldIsHeld(cell, 0, 4, size);
    FieldIsHeld(cell, 4, 4, v.driveType);
    FieldIsHeld(cell, 8, 4, v.serial);
    FieldIsHeld(cell, 12, 4, labelAt);
    UintReadsWhatIsHeld(cell, 16, 4, wideAt);
    StringDecodes(cell, labelAt, wideAt, v.driveLabel);
  }

  /** Section 2.3.2: CommonNetworkRelativeLink, with Unicode offsets when the name starts past 0x14. */
  predicate NetworkStored(block: Bytes, at: nat, size: nat, shareAt: nat, deviceAt: nat, shareWide: nat,
                          deviceWide: nat, n: Network) {
    && at + size <= |block| && size >= 20
    && var cell := block[at..at + size];
       && Holds(cell, 0, 4, size) && Holds(cell, 4, 4, n.flags) && Holds(cell, 16, 4, n.provider)
       && Holds(cell, 8, 4, shareAt) && Holds(cell, 12, 4, deviceAt)
       && (if shareAt > 0x14 && size >= 28 then Holds(cell, 20, 4, shareWide) && Holds(cell, 24, 4, deviceWide)
           else shareWide == 0 && deviceWide == 0)
       && StringStored(cell, shareAt, shareWide, n.share)
       && StringStored(cell, deviceAt, deviceWide, n.device)
  }

  lemma NetworkDecodes(block: Bytes, at: nat, size: nat, shareAt: nat, deviceAt: nat, shareWide: nat, deviceWide: nat,
                       n: Network)
    requires NetworkStored(block, at, size, shareAt, deviceAt, shareWide, deviceWide, n)
    ensures DecodeNetwork(block, at) == Ok(n)
  {
    hide Le, LeBytes, Pow256, EitherString, StringStored;
    var cell := block[at..at + size];
    FieldIsLocal(block, at, size, 0, 4);
    assert block[at..at + 4] == block[at + 0..at + 0 + 4];
    FieldIsHeld(cell, 0, 4, size);
    FieldIsHeld(cell, 4, 4, n.flags);
    FieldIsHeld(cell, 8, 4, shareAt);
    FieldIsHeld(cell, 12, 4, deviceAt);
    FieldIsHeld(cell, 16, 4, n.provider);
    if shareAt > 0x14 && size >= 28 {
      FieldIsHeld(cell, 20, 4, shareWide);
      FieldIsHeld(cell, 24, 4, deviceWide);
    }
    StringDecodes(cell, shareAt, shareWide, n.share);
    StringDecodes(cell, deviceAt, deviceWide, n.device);
  }

  /** The offsets a writer chooses inside a LinkInfo block. */
  datatype InfoPlaces = InfoPlaces(
    headerSize: nat, volumeAt: nat, localAt: nat, networkAt: nat, suffixAt: nat, localWide: nat, suffixWide: nat,
    volumeSize: nat, labelAt: nat, labelWide: nat,
    networkSize: nat, shareAt: nat, deviceAt: nat, shareWide: nat, deviceWide: nat)

  /** The fixed part of the block: sizes, flags and offsets. */
  predicate InfoHeader(block: Bytes, info: LinkInfo, p: InfoPlaces) {
    && 0x1C <= p.headerSize <= |block| && Holds(block, 0, 4, |block|) && Holds(block, 4, 4, p.headerSize)
    && Holds(block, 8, 4, info.flags)
    && Holds(block, 12, 4, p.volumeAt) && Holds(block, 16, 4, p.localAt)
    && Holds(block, 20, 4, p.networkAt) && Holds(block, 24, 4, p.suffixAt)
    && if p.headerSize >= 0x24 then Holds(block, 28, 4, p.localWide) && Holds(block, 32, 4, p.suffixWide)
       else p.localWide == 0 && p.suffixWide == 0
  }

  predicate InfoStored(block: Bytes, info: LinkInfo, p: InfoPlaces) {
    && InfoHeader(block, info, p)
    && StringStored(block, p.localAt, p.localWide, info.localPath)
    && StringStored(block, p.suffixAt, p.suffixWide, info.suffix)
    && (info.volume.Some? <==> Bit(info.flags, 0) && p.volumeAt != 0)
    && (info.network.Some? <==> Bit(info.flags, 1) && p.networkAt != 0)
    && (info.volume.Some? ==> VolumeStored(block, p.volumeAt, p.volumeSize, p.labelAt, p.labelWide, info.volume.value))
    && (info.network.Some? ==>
          NetworkStored(block, p.networkAt, p.networkSize, p.shareAt, p.deviceAt, p.shareWide, p.deviceWide,
                        info.network.value))
  }

  lemma InfoHeaderReads(block: Bytes, info: LinkInfo, p: InfoPlaces)
    requires InfoHeader(block, info, p)
    ensures Field(block, 0, 4, 4) == p.headerSize && Field(block, 0, 8, 4) == info.flags
    ensures Field(block, 0, 12, 4) == p.volumeAt && Field(block, 0, 16, 4) == p.localAt
    ensures Field(block, 0, 20, 4) == p.networkAt && Field(block, 0, 24, 4) == p.suffixAt
    ensures p.localWide == if p.headerSize >= 0x24 then Field(block, 0, 28, 4) else 0
    ensures p.suffixWide == if p.headerSize >= 0x24 then Field(block, 0, 32, 4) else 0
  {
    hide Field, Holds;
    FieldIsHeld(block, 4, 4, p.headerSize);
    FieldIsHeld(block, 8, 4, info.flags);
    FieldIsHeld(block, 12, 4, p.volumeAt);
    FieldIsHeld(block, 16, 4, p.localAt);
    FieldIsHeld(block, 20, 4, p.networkAt);
    FieldIsHeld(block, 24, 4, p.suffixAt);
    if p.headerSize >= 0x24 {
      FieldIsHeld(block, 28, 4, p.localWide);
      FieldIsHeld(block, 32, 4, p.suffixWide);
    }
  }

  /** A stored LinkInfo decodes to itself, without warnings. */
  lemma InfoDecodes(block: Bytes, info: LinkInfo, p: InfoPlaces)
    requires InfoStored(block, info, p)
    ensures |block| >= 0x1C && DecodeInfoBlock(block) == Ok((info, []))
  {
    hide Field, Holds, EitherString, StringStored, DecodeVolume, DecodeNetwork, VolumeStored, NetworkStored, Bit;
    InfoHeaderReads(block, info, p);
    StringDecodes(block, p.localAt, p.localWide, info.localPath);
    StringDecodes(block, p.suffixAt, p.suffixWide, info.suffix);
    if info.volume.Some? {
      VolumeDecodes(block, p.volumeAt, p.volumeSize, p.labelAt, p.labelWide, info.volume.value);
    }
    if info.network.Some? {
      NetworkDecodes(block, p.networkAt, p.networkSize, p.shareAt, p.deviceAt, p.shareWide, p.deviceWide,
                     info.network.value);
    }
    var none: seq<LinkWarning> := [];
    assert none + none == none;
  }

  // ----- section 2.4: StringData

  predicate Encodable(text: Text, unicode: bool) {
    |text| < 0x1_0000 && if unicode then WellFormed(text) else InCodePage(text)
  }

  function EncodeText(text: Text, unicode: bool): (bs: Bytes)
    requires Encodable(text, unicode)
    ensures |bs| == if unicode then 2 * |text| else |text|
  {
    if unicode then Utf16Bytes(text) else Octets(text)
  }

  function EncodeString(text: Text, unicode: bool): Bytes
    requires Encodable(text, unicode)
  {
    LeBytes(|text|, 2) + EncodeText(text, unicode)
  }

  lemma TextDecodes(text: Text, unicode: bool)
    requires Encodable(text, unicode)
    ensures DecodeText(EncodeText(text, unicode), unicode) == Ok(text)
  {
    if unicode {
      Utf16UndoesUtf16Bytes(text);
    } else {
      CharsUndoesOctets(text);
    }
  }

  lemma StringDataDecodes(pre: Bytes, text: Text, post: Bytes, unicode: bool)
    requires Encodable(text, unicode)
    ensures StringData(pre + EncodeString(text, unicode) + post, |pre|, unicode)
         == Ok(StringResult(text, |pre| + |EncodeString(text, unicode)|))
  {
    TextDecodes(text, unicode);
    Pow256Values();
    hide LeBytes, EncodeText, DecodeText, Encodable, Pow256;
    var body := EncodeText(text, unicode);
    var data, at := pre + EncodeString(text, unicode) + post, |pre|;
    CountAndBody(pre, LeBytes(|text|, 2), body, post);
    UintReadsWhatIsHeld(data, at, 2, |text|);
  }

  lemma CountAndBody(pre: Bytes, count: Bytes, body: Bytes, post: Bytes)
    requires |count| == 2
    ensures var data, at := pre + (count + body) + post, |pre|;
      data[at..at + 2] == count && data[at + 2..at + 2 + |body|] == body
  {
  }

  predicate StringsEncodable(strings: seq<Option<Text>>, flags: nat, bit: nat)
    requires 2 <= bit <= 7
  {
    && |strings| == 7 - bit
    && forall i :: 0 <= i < |strings| ==>
         && (strings[i].Some? <==> Bit(flags, bit + i))
         && (strings[i].Some? ==> Encodable(strings[i].value, Bit(flags, 7)))
  }

  function EncodeStrings(strings: seq<Option<Text>>, unicode: bool): Bytes
    requires AllEncodable(strings, unicode)
  {
    if |strings| == 0 then [] else EncodeOptional(strings[0], unicode) + EncodeStrings(strings[1..], unicode)
  }

  predicate AllEncodable(strings: seq<Option<Text>>, unicode: bool) {
    forall i :: 0 <= i < |strings| && strings[i].Some? ==> Encodable(strings[i].value, unicode)
  }

  /** The bytes of one optional string. */
  function EncodeOptional(text: Option<Text>, unicode: bool): Bytes
    requires text.Some? ==> Encodable(text.value, unicode)
  {
    if text.Some? then EncodeString(text.value, unicode) else []
  }

  lemma StringsStep(pre: Bytes, text: Option<Text>, post: Bytes, flags: nat, bit: nat)
    requires 2 <= bit < 7 && (text.Some? <==> Bit(flags, bit))
    requires text.Some? ==> Encodable(text.value, Bit(flags, 7))
    ensures var head := EncodeOptional(text, Bit(flags, 7)); var data := pre + head + post;
      Strings(data, |pre|, flags, bit) == Then([text], Strings(data, |pre + head|, flags, bit + 1))
  {
    hide StringData, EncodeString, Bit, Encodable;
    if text.Some? {
      StringDataDecodes(pre, text.value, post, Bit(flags, 7));
    }
  }

  lemma {:induction false} StringsDecode(pre: Bytes, strings: seq<Option<Text>>, post: Bytes, flags: nat, bit: nat)
    requires 2 <= bit <= 7 && StringsEncodable(strings, flags, bit)
    ensures var body := EncodeStrings(strings, Bit(flags, 7));
      Strings(pre + body + post, |pre|, flags, bit) == Ok(StringsResult(strings, |pre| + |body|))
    decreases |strings|
  {
    hide StringData, EncodeOptional, Bit, Encodable;
    if |strings| == 0 {
      assert EncodeStrings(strings, Bit(flags, 7)) == [];
    } else {
      var unicode := Bit(flags, 7);
      FirstEncodable(strings, flags, bit);
      var head, rest := EncodeOptional(strings[0], unicode), EncodeStrings(strings[1..], unicode);
      FourPieces(pre, head, rest, post);
      StringsStep(pre, strings[0], rest + post, flags, bit);
      StringsDecode(pre + head, strings[1..], post, flags, bit + 1);
      hide Strings, StringsEncodable, AllEncodable, Then;
      ThenOne(strings, |pre + head| + |rest|);
    }
  }

  lemma ThenOne(strings: seq<Option<Text>>, end: nat)
    requires |strings| > 0
    ensures Then([strings[0]], Ok(StringsResult(strings[1..], end))) == Ok(StringsResult(strings, end))
  {
    assert strings == [strings[0]] + strings[1..];
  }

  lemma FirstEncodable(strings: seq<Option<Text>>, flags: nat, bit: nat)
    requires 2 <= bit <= 7 && |strings| > 0 && StringsEncodable(strings, flags, bit)
    ensures bit < 7 && StringsEncodable(strings[1..], flags, bit + 1)
    ensures (strings[0].Some? <==> Bit(flags, bit)) && (strings[0].Some? ==> Encodable(strings[0].value, Bit(flags, 7)))
  {
    hide Bit, Encodable;
    assert bit + 0 == bit;
    forall i | 0 <= i < |strings| - 1
      ensures strings[1..][i].Some? <==> Bit(flags, bit + 1 + i)
      ensures strings[1..][i].Some? ==> Encodable(strings[1..][i].value, Bit(flags, 7))
    {
      assert strings[1..][i] == strings[i + 1] && bit + (i + 1) == bit + 1 + i;
    }
  }

  lemma FourPieces(a: Bytes, b: Bytes, c: Bytes, d: Bytes)
    ensures a + (b + c) + d == a + b + (c + d) == (a + b) + c + d
    ensures |a + b| + |c| == |a| + |b + c|
  {
  }

  // ----- section 2.5: ExtraData

  predicate ExtraCells(cells: seq<Bytes>) {
    forall i :: 0 <= i < |cells| ==> |cells[i]| >= 8 && Holds(cells[i], 0, 4, |cells[i]|)
  }

  /** The last tracker block of at least 96 bytes (section 2.5.10). */
  function LastTracker(cells: seq<Bytes>, before: Option<Tracker>): Option<Tracker>
    requires ExtraCells(cells)
  {
    if |cells| == 0 then before
    else
      var last := cells[|cells| - 1];
      if Holds(last, 4, 4, TRACKER_SIGNATURE) && |last| >= 96 then Some(TrackerOf(last))
      else LastTracker(cells[..|cells| - 1], before)
  }

  lemma {:induction false} LastTrackerFromFront(cells: seq<Bytes>, before: Option<Tracker>)
    requires ExtraCells(cells) && |cells| > 0
    ensures LastTracker(cells, before) == LastTracker(cells[1..], Track(before, cells[0]))
  {
    hide Field, Holds, TrackerOf;
    var n := |cells| - 1;
    FieldIsHeld(cells[0], 4, 4, TRACKER_SIGNATURE);
    if n > 0 {
      LastTrackerFromFront(cells[..n], before);
      assert cells[..n][1..] == cells[1..][..n - 1];
    }
  }

  /** The extra data ends at a terminal block, or at the end of the file. */
  predicate ClosesExtra(rest: Bytes) {
    |rest| == 0 || Holds(rest, 0, 4, 0)
  }

  lemma FirstCell(cells: seq<Bytes>, rest: Bytes)
    requires |cells| > 0
    ensures var data, cell, tail := Concat(cells) + rest, cells[0], Concat(cells[1..]) + rest;
      data == cell + tail && data[0..0 + |cell|] == data[..|cell|] == cell && data[|cell|..] == tail
  {
  }

  lemma {:induction false} ExtraDecodes(cells: seq<Bytes>, rest: Bytes, before: Option<Tracker>)
    requires ExtraCells(cells) && ClosesExtra(rest)
    ensures ExtraData(Concat(cells) + rest, before) == ExtraResult(LastTracker(cells, before), [])
  {
    hide Field, Track, LastTracker;
    if |cells| == 0 {
      assert Concat(cells) + rest == rest;
      if |rest| > 0 {
        FieldIsHeld(rest, 0, 4, 0);
      }
      NoTracker(before);
    } else {
      var data, cell := Concat(cells) + rest, cells[0];
      var tail := Concat(cells[1..]) + rest;
      FirstCell(cells, rest);
      FieldIsLocal(data, 0, |cell|, 0, 4);
      FieldIsHeld(cell, 0, 4, |cell|);
      hide Concat, Holds;
      ExtraDecodes(cells[1..], rest, Track(before, cell));
      LastTrackerFromFront(cells, before);
    }
  }

  lemma NoTracker(before: Option<Tracker>)
    ensures LastTracker([], before) == before
  {
  }

  /** No block follows: too little is left for a size field, or it is 0, below 8 or beyond the end. */
  predicate NoBlock(rest: Bytes) {
    |rest| < 4 || Field(rest, 0, 0, 4) < 8 || Field(rest, 0, 0, 4) > |rest|
  }

  /** A missing terminal block is reported when one to three bytes are left, and at no other end. */
  function ExtraWarnings(rest: Bytes): seq<LinkWarning>
    requires NoBlock(rest)
  {
    if 1 <= |rest| <= 3 then [NoTerminator]
    else if |rest| == 0 || Field(rest, 0, 0, 4) == 0 then []
    else [MalformedBlock]
  }

  /** Any bytes at all are well-formed blocks up to something that is none; the last tracker among them wins. */
  lemma {:induction false} ExtraTiles(data: Bytes, before: Option<Tracker>) returns (cells: seq<Bytes>, rest: Bytes)
    ensures ExtraCells(cells) && data == Concat(cells) + rest && NoBlock(rest)
    ensures ExtraData(data, before) == ExtraResult(LastTracker(cells, before), ExtraWarnings(rest))
    ensures NoTerminator in ExtraData(data, before).warnings <==> 1 <= |rest| <= 3
    decreases |data|
  {
    hide Field, Track, LastTracker, ExtraData, ExtraCells, NoBlock, ExtraWarnings;
    if NoBlock(data) {
      cells, rest := [], data;
      ExtraEnds(data, before);
    } else {
      var cell, tail := ExtraStep(data, before);
      var later;
      later, rest := ExtraTiles(tail, Track(before, cell));
      cells := [cell] + later;
      BlockBefore(cell, later, before);
      ConcatOne(cell, later);
      assert data == cell + tail == cell + (Concat(later) + rest) == cell + Concat(later) + rest;
    }
    EndWarns(rest);
  }

  lemma ExtraEnds(data: Bytes, before: Option<Tracker>)
    requires NoBlock(data)
    ensures ExtraCells([]) && Concat([]) + data == data
    ensures ExtraData(data, before) == ExtraResult(LastTracker([], before), ExtraWarnings(data))
  {
    hide Field;
  }

  lemma EndWarns(rest: Bytes)
    requires NoBlock(rest)
    ensures NoTerminator in ExtraWarnings(rest) <==> 1 <= |rest| <= 3
  {
    hide Field;
  }

  lemma ExtraStep(data: Bytes, before: Option<Tracker>) returns (cell: Bytes, tail: Bytes)
    requires !NoBlock(data)
    ensures data == cell + tail && |cell| >= 8 && Holds(cell, 0, 4, |cell|)
    ensures ExtraData(data, before) == ExtraData(tail, Track(before, cell))
  {
    hide Track;
    var size := Field(data, 0, 0, 4);
    hide Field, Holds;
    cell, tail := data[..size], data[size..];
    assert data[0..0 + size] == cell;
    FieldIsLocal(data, 0, size, 0, 4);
    FieldIsHeld(cell, 0, 4, size);
  }

  lemma BlockBefore(cell: Bytes, later: seq<Bytes>, before: Option<Tracker>)
    requires |cell| >= 8 && Holds(cell, 0, 4, |cell|) && ExtraCells(later)
    ensures ExtraCells([cell] + later)
    ensures LastTracker([cell] + later, before) == LastTracker(later, Track(before, cell))
  {
    hide Field, Holds, Track, LastTracker;
    assert ([cell] + later)[1..] == later;
    LastTrackerFromFront([cell] + later, before);
  }

  /** One eight-byte block and nothing after it: the terminal block is missing and no warning says so. */
  lemma MissingTerminatorIsSilent()
    ensures
      var data: Bytes := [8, 0, 0, 0, 0, 0, 0, 0];
      ExtraCells([data]) && ExtraData(data, None) == ExtraResult(None, [])
  {
    var data: Bytes := [8, 0, 0, 0, 0, 0, 0, 0];
    EightAndZero(data);
    FieldIsHeld(data, 4, 4, 0);
    FieldIsHeld(data, 0, 4, 8);
    hide Field, Holds, ExtraData, ExtraWarnings, TrackerOf, LastTracker;
    var cell, tail := ExtraStep(data, None);
    ExtraEnds(tail, Track(None, data));
    EndWarns(tail);
    NoTracker(Track(None, data));
  }

  lemma EightAndZero(data: Bytes)
    requires data == [8, 0, 0, 0, 0, 0, 0, 0]
    ensures Holds(data, 0, 4, 8) && Holds(data, 4, 4, 0)
  {
    assert LeBytes(0, 1) == [0] && LeBytes(0, 2) == [0, 0] && LeBytes(0, 3) == [0, 0, 0]
           && LeBytes(0, 4) == [0, 0, 0, 0];
    assert LeBytes(8, 4) == [8, 0, 0, 0];
    hide LeBytes;
    assert data[0..4] == [8, 0, 0, 0] && data[4..8] == [0, 0, 0, 0];
  }

  // ----- the whole file

  /** A link to be stored. */
  datatype Source = Source(
    flags: nat, attributes: nat, ticks: seq<nat>, fileSize: nat, iconIndex: nat, showCommand: nat,
    items: seq<Bytes>, info: Option<LinkInfo>, strings: seq<Option<Text>>, extra: seq<Bytes>)

  /** Section 2.1: ShellLinkHeader. */
  predicate HeaderStored(header: Bytes, x: Source) {
    && |header| == 76 && |x.ticks| == 3
    && Holds(header, 0, 4, 76) && Holds(header, 20, 4, x.flags) && Holds(header, 24, 4, x.attributes)
    && Holds(header, 28, 8, x.ticks[0]) && Holds(header, 36, 8, x.ticks[1]) && Holds(header, 44, 8, x.ticks[2])
    && Holds(header, 52, 4, x.fileSize) && Holds(header, 56, 4, x.iconIndex) && Holds(header, 60, 4, x.showCommand)
  }

  predicate IdSectionStored(section: Bytes, x: Source) {
    ItemCells(x.items)
    && if Bit(x.flags, 0) then
         && |section| >= 4 && Holds(section, 0, 2, |section| - 2)
         && section[2..] == Concat(x.items) + [0, 0]
       else |section| == 0 && |x.items| == 0
  }

  predicate InfoSectionStored(section: Bytes, x: Source, p: InfoPlaces) {
    && (Bit(x.flags, 1) <==> x.info.Some?)
    && if x.info.Some? then InfoStored(section, x.info.value, p) else |section| == 0
  }

  /** The five pieces of a file, each laid out as its section of the standard says. */
  datatype Pieces = Pieces(header: Bytes, ids: Bytes, info: Bytes, strings: Bytes, extra: Bytes)

  predicate LinkStored(f: Pieces, x: Source, p: InfoPlaces) {
    && HeaderStored(f.header, x) && IdSectionStored(f.ids, x) && InfoSectionStored(f.info, x, p)
    && StringsEncodable(x.strings, x.flags, 2) && f.strings == EncodeStrings(x.strings, Bit(x.flags, 7))
    && ExtraCells(x.extra)
    && |Concat(x.extra)| <= |f.extra| && f.extra[..|Concat(x.extra)|] == Concat(x.extra)
    && ClosesExtra(f.extra[|Concat(x.extra)|..])
  }

  function FileOf(f: Pieces): Bytes {
    f.header + f.ids + f.info + f.strings + f.extra
  }

  function LinkOf(x: Source): Link
    requires ItemCells(x.items) && ExtraCells(x.extra) && |x.strings| == 5
  {
    Link(x.flags, x.attributes, seq(|x.ticks|, i requires 0 <= i < |x.ticks| => FileTime(x.ticks[i])),
         x.fileSize, x.iconIndex, x.showCommand,
         ItemsOf(x.items, 0).items, x.info, x.strings, LastTracker(x.extra, None), TargetPath(x.info, x.strings))
  }

  /** The unrepresentable times, then what the item list deserves; nothing else. */
  function ExpectedWarnings(x: Source): seq<LinkWarning>
    requires ItemCells(x.items) && ExtraCells(x.extra) && |x.strings| == 5
  {
    BadTimes(LinkOf(x).times) + ItemsOf(x.items, 0).warnings
  }

  lemma StoredLinkShape(f: Pieces, x: Source, p: InfoPlaces)
    requires LinkStored(f, x, p)
    ensures ItemCells(x.items) && ExtraCells(x.extra) && |x.strings| == 5 && |x.ticks| == 3
  {
    hide InfoSectionStored, Holds, Bit;
  }

  /** The three tick values in the header of a file. */
  function HeaderTicks(data: Bytes): (ticks: seq<nat>)
    requires |data| >= HEADER_SIZE
    ensures |ticks| == 3
  {
    [Field(data, 0, 28, 8), Field(data, 0, 36, 8), Field(data, 0, 44, 8)]
  }

  /** A stored file carries its source's ticks where the header has them. */
  lemma StoredTicks(f: Pieces, x: Source, p: InfoPlaces)
    requires LinkStored(f, x, p)
    ensures |FileOf(f)| >= HEADER_SIZE && HeaderTicks(FileOf(f)) == x.ticks
  {
    hide HeaderTicks, IdSectionStored, InfoSectionStored, Bit, Holds;
    Bracketed(f.header, f.ids, f.info, f.strings, f.extra);
    HeaderReads(FileOf(f), f.header, x);
  }

  lemma HeaderReads(data: Bytes, header: Bytes, x: Source)
    requires HeaderStored(header, x) && |data| >= HEADER_SIZE && data[..HEADER_SIZE] == header
    ensures Field(data, 0, 0, 4) == HEADER_SIZE && Field(data, 0, 20, 4) == x.flags
            && Field(data, 0, 24, 4) == x.attributes
    ensures Field(data, 0, 52, 4) == x.fileSize && Field(data, 0, 56, 4) == x.iconIndex
            && Field(data, 0, 60, 4) == x.showCommand
    ensures HeaderTicks(data) == x.ticks
    ensures HeaderTimes(data) == [FileTime(x.ticks[0]), FileTime(x.ticks[1]), FileTime(x.ticks[2])]
  {
    hide Field, Holds, FileTime;
    assert data[0..0 + HEADER_SIZE] == header;
    HeaderFieldReads(data, header, 0, 4, HEADER_SIZE);
    HeaderFieldReads(data, header, 20, 4, x.flags);
    HeaderFieldReads(data, header, 24, 4, x.attributes);
    HeaderFieldReads(data, header, 28, 8, x.ticks[0]);
    HeaderFieldReads(data, header, 36, 8, x.ticks[1]);
    HeaderFieldReads(data, header, 44, 8, x.ticks[2]);
    HeaderFieldReads(data, header, 52, 4, x.fileSize);
    HeaderFieldReads(data, header, 56, 4, x.iconIndex);
    HeaderFieldReads(data, header, 60, 4, x.showCommand);
  }

  lemma HeaderFieldReads(data: Bytes, header: Bytes, k: nat, w: nat, v: nat)
    requires |header| == HEADER_SIZE <= |data| && data[0..0 + HEADER_SIZE] == header && k + w <= HEADER_SIZE
    requires Holds(header, k, w, v)
    ensures Field(data, 0, k, w) == v
  {
    hide Field, Holds;
    FieldIsLocal(data, 0, HEADER_SIZE, k, w);
    FieldIsHeld(header, k, w, v);
  }

  lemma IdSectionDecodes(pre: Bytes, section: Bytes, post: Bytes, x: Source)
    requires IdSectionStored(section, x)
    ensures DecodeIdSection(pre + section + post, |pre|, Bit(x.flags, 0))
         == Ok(IdSection(ItemsOf(x.items, 0), |pre| + |section|))
  {
    hide Bit, ItemsOf, IdList, LeBytes, Le, Pow256;
    var data, at := pre + section + post, |pre|;
    if Bit(x.flags, 0) {
      assert data[at..at + 2] == section[0..2];
      UintReadsWhatIsHeld(data, at, 2, |section| - 2);
      assert data[at + 2..at + |section|] == section[2..];
      TwoZeros();
      IdListDecodes(x.items, [0, 0], 0);
    } else {
      NoItems(x.items);
    }
  }

  lemma TwoZeros()
    ensures Holds([0, 0], 0, 2, 0)
  {
    assert LeBytes(0, 1) == [0];
    assert LeBytes(0, 2) == [0, 0];
  }

  lemma NoItems(cells: seq<Bytes>)
    requires |cells| == 0
    ensures ItemsOf(cells, 0) == ItemList([], [])
  {
  }

  lemma InfoSectionDecodes(pre: Bytes, section: Bytes, post: Bytes, x: Source, p: InfoPlaces)
    requires InfoSectionStored(section, x, p)
    ensures DecodeInfoSection(pre + section + post, |pre|, Bit(x.flags, 1))
         == Ok(InfoSection(x.info, [], |pre| + |section|))
  {
    hide Bit, DecodeInfoBlock, LeBytes, Le, Pow256, StringStored, VolumeStored, NetworkStored;
    if x.info.Some? {
      var data, at := pre + section + post, |pre|;
      InfoDecodes(section, x.info.value, p);
      assert data[at..at + |section|] == section;
      assert data[at..at + 4] == section[0..4];
      UintReadsWhatIsHeld(data, at, 4, |section|);
    }
  }

  /** Parsing undoes storing: the link comes back whole, and the warnings are exactly the expected ones. */
  lemma ParseUndoesPrint(f: Pieces, x: Source, p: InfoPlaces)
    requires LinkStored(f, x, p)
    ensures ItemCells(x.items) && ExtraCells(x.extra) && |x.strings| == 5
    ensures Normalize(FileOf(f)) == Ok(LinkResult(LinkOf(x), ExpectedWarnings(x)))
  {
    hide Bit, Field, DecodeIdSection, DecodeInfoSection, Strings, ExtraData, ItemsOf, EncodeStrings, HeaderTimes,
      BadTimes;
    hide LastTracker, HeaderStored, IdSectionStored, InfoSectionStored, StringsEncodable, ClosesExtra;
    var data := FileOf(f);
    StoredShape(f.header, f.ids, x);
    Bracketed(f.header, f.ids, f.info, f.strings, f.extra);
    HeaderReads(data, f.header, x);
    IdSectionDecodes(f.header, f.ids, f.info + f.strings + f.extra, x);
    InfoSectionDecodes(f.header + f.ids, f.info, f.strings + f.extra, x, p);
    StringsDecode(f.header + f.ids + f.info, x.strings, f.extra, x.flags, 2);
    var n := |Concat(x.extra)|;
    assert f.extra == Concat(x.extra) + f.extra[n..];
    ExtraDecodes(x.extra, f.extra[n..], None);
    WarningsJoin(BadTimes(HeaderTimes(data)), ItemsOf(x.items, 0).warnings);
    assert LinkOf(x).times == HeaderTimes(data);
  }

  lemma StoredShape(header: Bytes, section: Bytes, x: Source)
    requires HeaderStored(header, x) && IdSectionStored(section, x)
    ensures |header| == HEADER_SIZE && |x.ticks| == 3 && ItemCells(x.items)
  {
  }

  /** The file seen from each of its sections. */
  lemma Bracketed(a: Bytes, b: Bytes, c: Bytes, d: Bytes, e: Bytes)
    ensures (a + b + c + d + e)[..|a|] == a
    ensures a + b + c + d + e == a + b + (c + d + e) == (a + b) + c + (d + e) == (a + b + c) + d + e
    ensures (a + b + c + d + e)[|a + b + c + d|..] == e
  {
  }

  lemma WarningsJoin(a: seq<LinkWarning>, b: seq<LinkWarning>)
    ensures a + b + [] + [] == a + b
  {
  }

  // ----- the converse, for arbitrary accepted bytes

  lemma TextWasEncoded(bs: Bytes, unicode: bool)
    requires DecodeText(bs, unicode).Ok? && |bs| < (if unicode then 0x2_0000 else 0x1_0000)
    ensures var text := DecodeText(bs, unicode).value;
      Encodable(text, unicode) && EncodeText(text, unicode) == bs
  {
    if unicode {
      Utf16BytesUndoesUtf16(bs);
      Utf16UndoesUtf16Bytes(DecodeText(bs, unicode).value);
    } else {
      OctetsUndoesChars(bs);
    }
  }

  lemma StringWasEncoded(data: Bytes, offset: nat, unicode: bool)
    requires StringData(data, offset, unicode).Ok?
    ensures var r := StringData(data, offset, unicode).value;
      Encodable(r.text, unicode) && data[offset..r.end] == EncodeString(r.text, unicode)
  {
    hide Le, LeBytes, Pow256, DecodeText, EncodeText, Encodable;
    var r := StringData(data, offset, unicode).value;
    var count := Uint(data, offset, 2).value;
    UintReadsWhatIsHeld(data, offset, 2, count);
    Pow256Values();
    TextWasEncoded(data[offset + 2..r.end], unicode);
    hide StringData, Uint;
    TwoPieces(data, offset, offset + 2, r.end);
  }

  lemma {:induction false} StringsWereEncoded(data: Bytes, offset: nat, flags: nat, bit: nat)
    requires 2 <= bit <= 7 && offset <= |data| && Strings(data, offset, flags, bit).Ok?
    ensures var r := Strings(data, offset, flags, bit).value;
      StringsEncodable(r.strings, flags, bit) && data[offset..r.end] == EncodeStrings(r.strings, Bit(flags, 7))
    decreases 7 - bit
  {
    hide StringData, EncodeString, Encodable, Bit;
    var r := Strings(data, offset, flags, bit).value;
    if bit < 7 {
      var next := offset;
      if Bit(flags, bit) {
        StringWasEncoded(data, offset, Bit(flags, 7));
        next := StringData(data, offset, Bit(flags, 7)).value.end;
      }
      StringsWereEncoded(data, next, flags, bit + 1);
      var rest := Strings(data, next, flags, bit + 1).value;
      hide EncodeStrings, StringsEncodable;
      assert r.strings == [r.strings[0]] + rest.strings && r.end == rest.end;
      assert data[offset..next] == EncodeOptional(r.strings[0], Bit(flags, 7));
      hide Strings, EncodeOptional;
      StringsPrepend(r.strings[0], rest.strings, flags, bit);
      TwoPieces(data, offset, next, r.end);
    }
  }

  lemma TwoPieces(data: Bytes, a: nat, b: nat, c: nat)
    requires a <= b <= c <= |data|
    ensures data[a..c] == data[a..b] + data[b..c]
  {
  }

  lemma StringsPrepend(head: Option<Text>, rest: seq<Option<Text>>, flags: nat, bit: nat)
    requires 2 <= bit < 7 && StringsEncodable(rest, flags, bit + 1)
    requires (head.Some? <==> Bit(flags, bit)) && (head.Some? ==> Encodable(head.value, Bit(flags, 7)))
    ensures StringsEncodable([head] + rest, flags, bit)
    ensures EncodeStrings([head] + rest, Bit(flags, 7))
         == EncodeOptional(head, Bit(flags, 7)) + EncodeStrings(rest, Bit(flags, 7))
  {
    hide Bit, Encodable;
    var all := [head] + rest;
    assert all[1..] == rest;
    forall i | 0 <= i < |all|
      ensures (all[i].Some? <==> Bit(flags, bit + i)) && (all[i].Some? ==> Encodable(all[i].value, Bit(flags, 7)))
    {
      if i > 0 {
        assert all[i] == rest[i - 1] && bit + i == (bit + 1) + (i - 1);
      }
    }
  }

  /** The IDList and LinkInfo sections announce their own sizes; absent ones take no room. */
  predicate Announced(f: Pieces, flags: nat) {
    && |f.header| == HEADER_SIZE
    && (if Bit(flags, 0) then Uint(f.ids, 0, 2) == Ok(|f.ids| - 2) else |f.ids| == 0)
    && (if Bit(flags, 1) then Uint(f.info, 0, 4) == Ok(|f.info|) else |f.info| == 0)
  }

  /**
   Tiling: any accepted file is its sections laid end to end, in order, without gaps; the
   strings re-encode to the very bytes they came from.
   */
  lemma AcceptedFileTiles(data: Bytes) returns (f: Pieces)
    requires Normalize(data).Ok?
    ensures data == FileOf(f) && Announced(f, Normalize(data).value.link.flags)
    ensures var link := Normalize(data).value.link;
      AllEncodable(link.strings, Bit(link.flags, 7)) && f.strings == EncodeStrings(link.strings, Bit(link.flags, 7))
    ensures ExtraData(f.extra, None).tracker == Normalize(data).value.link.tracker
  {
    hide Bit, IdList, DecodeInfoBlock, Strings, ExtraData, EncodeStrings, HeaderTimes, BadTimes, Le;
    var flags := Field(data, 0, 20, 4);
    var a := DecodeIdSection(data, HEADER_SIZE, Bit(flags, 0)).value.end;
    var b := DecodeInfoSection(data, a, Bit(flags, 1)).value.end;
    var c := Strings(data, b, flags, 2).value.end;
    f := Pieces(data[..HEADER_SIZE], data[HEADER_SIZE..a], data[a..b], data[b..c], data[c..]);
    StringsWereEncoded(data, b, flags, 2);
    assert data == FileOf(f) by { FivePieces(data, HEADER_SIZE, a, b, c); }
    assert Bit(flags, 0) ==> f.ids[0..2] == data[HEADER_SIZE..HEADER_SIZE + 2];
    assert Bit(flags, 1) ==> f.info[0..4] == data[a..a + 4];
  }

  lemma FivePieces(data: Bytes, a: nat, b: nat, c: nat, d: nat)
    requires a <= b <= c <= d <= |data|
    ensures data == data[..a] + data[a..b] + data[b..c] + data[c..d] + data[d..]
  {
  }
}
