/**
 The Shell Link parser: a cursor that moves over the header and the optional sections named
 by the link flags ([MS-SHLLINK] section 2).
 */
module Lnk {
  import opened Wrappers
  import opened WindowsBinary

  const HEADER_SIZE: nat := 0x4C
  const MAX_IDLIST_ITEMS: nat := 4096
  const TRACKER_SIGNATURE: nat := 0xA000_0003

  datatype LinkWarning =
    | BadTime(slot: nat)
    | MalformedItem
    | UnsupportedItem(index: nat)
    | ItemLimit
    | TrailingItemBytes
    | BadVolume
    | BadNetwork
    | MalformedBlock
    | NoTerminator

  /** Flag b of a flag word. */
  predicate Bit(flags: nat, b: nat)
    requires b < 8
  {
    flags / [1, 2, 4, 8, 16, 32, 64, 128][b] % 2 == 1
  }

  // ----- LinkTargetIDList

  datatype ShellItem = ShellItem(size: nat, classType: Option<Byte>, header: Bytes)

  /** The class groups (type & 0x70) that have a name. */
  predicate KnownClass(item: ShellItem) {
    item.classType.Some? && item.classType.value / 16 % 8 in {1, 2, 3, 4, 6}
  }

  function ItemOf(cell: Bytes): ShellItem
    requires |cell| >= 2
  {
    ShellItem(|cell|, if |cell| > 2 then Some(cell[2]) else None, if |cell| < 18 then cell[2..] else cell[2..18])
  }

  datatype ItemList = ItemList(items: seq<ShellItem>, warnings: seq<LinkWarning>)

  function ItemWarnings(item: ShellItem, index: nat): seq<LinkWarning> {
    (if KnownClass(item) then [] else [UnsupportedItem(index)])
    + (if index + 1 >= MAX_IDLIST_ITEMS then [ItemLimit] else [])
  }

  /** The items at the head of data, numbered from index. */
  function IdList(data: Bytes, index: nat): ItemList
    decreases |data|
  {
    if |data| < 2 then ItemList([], if |data| > 0 then [TrailingItemBytes] else [])
    else
      var size := Field(data, 0, 0, 2);
      if size == 0 then ItemList([], [])
      else if size < 2 || size > |data| then ItemList([], [MalformedItem])
      else
        var item := ItemOf(data[..size]);
        if index + 1 >= MAX_IDLIST_ITEMS then ItemList([item], ItemWarnings(item, index))
        else Append(ItemList([item], ItemWarnings(item, index)), IdList(data[size..], index + 1))
  }

  function Append(a: ItemList, b: ItemList): ItemList {
    ItemList(a.items + b.items, a.warnings + b.warnings)
  }

  lemma AppendAssociates(a: ItemList, b: ItemList, c: ItemList)
    ensures Append(Append(a, b), c) == Append(a, Append(b, c))
    ensures Append(ItemList([], []), a) == a == Append(a, ItemList([], []))
  {
    assert a.items + b.items + c.items == a.items + (b.items + c.items);
    assert a.warnings + b.warnings + c.warnings == a.warnings + (b.warnings + c.warnings);
    assert [] + a.items == a.items == a.items + [];
    assert [] + a.warnings == a.warnings == a.warnings + [];
  }

  method ReadIdList(data: Bytes) returns (r: ItemList)
    ensures r == IdList(data, 0)
  {
    hide Field, ItemOf, Append, ItemWarnings;
    var list := ItemList([], []);
    var offset := 0;
    ghost var all := IdList(data, 0);
    AppendAssociates(all, all, all);
    assert data[0..] == data;
    while offset + 2 <= |data|
      invariant offset <= |data| && |list.items| < MAX_IDLIST_ITEMS
      invariant all == Append(list, IdList(data[offset..], |list.items|))
    {
      ghost var rest := data[offset..];
      var size := Field(data, offset, 0, 2);
      FieldOfSuffix(data, offset, 0, 2);
      if size == 0 {
        AppendAssociates(list, list, list);
        return list;
      }
      if size < 2 || offset + size > |data| {
        return Append(list, ItemList([], [MalformedItem]));
      }
      var item := ItemOf(data[offset..offset + size]);
      assert rest[..size] == data[offset..offset + size];
      var one := ItemList([item], ItemWarnings(item, |list.items|));
      ghost var before := list;
      AppendGrows(list, one);
      list := Append(list, one);
      if |list.items| >= MAX_IDLIST_ITEMS {
        return list;
      }
      offset := offset + size;
      assert rest[size..] == data[offset..];
      AppendAssociates(before, one, IdList(data[offset..], |list.items|));
    }
    if offset != |data| {
      return Append(list, ItemList([], [TrailingItemBytes]));
    }
    AppendAssociates(list, list, list);
    return list;
  }

  lemma AppendGrows(a: ItemList, b: ItemList)
    ensures |Append(a, b).items| == |a.items| + |b.items|
  {
  }

  // ----- LinkInfo

  datatype Volume = Volume(driveType: nat, serial: nat, driveLabel: Option<Text>)

  datatype Network = Network(flags: nat, share: Option<Text>, device: Option<Text>, provider: nat)

  datatype LinkInfo = LinkInfo(flags: nat, localPath: Option<Text>, suffix: Option<Text>,
                               volume: Option<Volume>, network: Option<Network>)

  /** A string with an ANSI and a Unicode offset: the Unicode one wins when it is not zero. */
  function EitherString(block: Bytes, ansiAt: nat, wideAt: nat): Result<Option<Text>> {
    CString(block, if wideAt != 0 then wideAt else ansiAt, wideAt != 0)
  }

  function DecodeVolume(block: Bytes, offset: nat): Result<Volume> {
    var size :- Uint(block, offset, 4);
    if size < 16 || offset + size > |block| then Err(Structure)
    else
      var volume := block[offset..offset + size];
      var labelAt := Field(volume, 0, 12, 4);
      var wideAt :- if labelAt == 0x14 then Uint(volume, 16, 4) else Ok(0);
      var text :- EitherString(volume, labelAt, wideAt);
      Ok(Volume(Field(volume, 0, 4, 4), Field(volume, 0, 8, 4), text))
  }

  function DecodeNetwork(block: Bytes, offset: nat): Result<Network> {
    var size :- Uint(block, offset, 4);
    if size < 20 || offset + size > |block| then Err(Structure)
    else
      var network := block[offset..offset + size];
      var shareAt, deviceAt := Field(network, 0, 8, 4), Field(network, 0, 12, 4);
      var wide := shareAt > 0x14 && size >= 28;
      var share :- EitherString(network, shareAt, if wide then Field(network, 0, 20, 4) else 0);
      var device :- EitherString(network, deviceAt, if wide then Field(network, 0, 24, 4) else 0);
      Ok(Network(Field(network, 0, 4, 4), share, device, Field(network, 0, 16, 4)))
  }

  /** What a part that may fail contributes: its value, or one warning. */
  function Recovered<T>(present: bool, part: Result<T>): Option<T> {
    if present && part.Ok? then Some(part.value) else None
  }

  function RecoveryWarning<T>(present: bool, part: Result<T>, warning: LinkWarning): seq<LinkWarning> {
    if present && part.Err? then [warning] else []
  }

  datatype InfoResult = InfoResult(info: LinkInfo, warnings: seq<LinkWarning>, end: nat)

  /** The specification of _link_info on the block at offset. */
  function DecodeLinkInfo(data: Bytes, offset: nat): (r: Result<InfoResult>)
    ensures r.Ok? ==> offset + 0x1C <= r.value.end <= |data|
  {
    var size :- Uint(data, offset, 4);
    if size < 0x1C || offset + size > |data| then Err(Structure)
    else
      var decoded :- DecodeInfoBlock(data[offset..offset + size]);
      Ok(InfoResult(decoded.0, decoded.1, offset + size))
  }

  function DecodeInfoBlock(block: Bytes): Result<(LinkInfo, seq<LinkWarning>)>
    requires |block| >= 0x1C
  {
    var headerSize, flags := Field(block, 0, 4, 4), Field(block, 0, 8, 4);
    if headerSize < 0x1C || headerSize > |block| then Err(Structure)
    else
      var localWide := if headerSize >= 0x24 then Field(block, 0, 28, 4) else 0;
      var suffixWide := if headerSize >= 0x24 then Field(block, 0, 32, 4) else 0;
      var localPath :- EitherString(block, Field(block, 0, 16, 4), localWide);
      var suffix :- EitherString(block, Field(block, 0, 24, 4), suffixWide);
      var volumeAt, networkAt := Field(block, 0, 12, 4), Field(block, 0, 20, 4);
      var hasVolume, hasNetwork := Bit(flags, 0) && volumeAt != 0, Bit(flags, 1) && networkAt != 0;
      var volume, network := DecodeVolume(block, volumeAt), DecodeNetwork(block, networkAt);
      Ok((LinkInfo(flags, localPath, suffix, Recovered(hasVolume, volume), Recovered(hasNetwork, network)),
          RecoveryWarning(hasVolume, volume, BadVolume) + RecoveryWarning(hasNetwork, network, BadNetwork)))
  }

  // ----- StringData

  datatype StringResult = StringResult(text: Text, end: nat)

  function DecodeText(bs: Bytes, unicode: bool): Result<Text> {
    if unicode then Utf16(bs) else Cp1252(bs)
  }

  function StringData(data: Bytes, offset: nat, unicode: bool): (r: Result<StringResult>)
    ensures r.Ok? ==> offset + 2 <= r.value.end <= |data|
  {
    var characters :- Uint(data, offset, 2);
    var end := offset + 2 + if unicode then 2 * characters else characters;
    if end > |data| then Err(Structure)
    else
      var text :- DecodeText(data[offset + 2..end], unicode);
      Ok(StringResult(text, end))
  }

  datatype StringsResult = StringsResult(strings: seq<Option<Text>>, end: nat)

  /** The strings of flag bits bit..6, each present only if its bit is set. */
  function Strings(data: Bytes, offset: nat, flags: nat, bit: nat): (r: Result<StringsResult>)
    requires 2 <= bit <= 7 && offset <= |data|
    ensures r.Ok? ==> |r.value.strings| == 7 - bit && offset <= r.value.end <= |data|
    decreases 7 - bit
  {
    if bit == 7 then Ok(StringsResult([], offset))
    else if Bit(flags, bit) then
      var head :- StringData(data, offset, Bit(flags, 7));
      Then([Some(head.text)], Strings(data, head.end, flags, bit + 1))
    else Then([None], Strings(data, offset, flags, bit + 1))
  }

  function Then(done: seq<Option<Text>>, r: Result<StringsResult>): Result<StringsResult> {
    if r.Ok? then Ok(StringsResult(done + r.value.strings, r.value.end)) else r
  }

  // ----- ExtraData

  datatype Tracker = Tracker(machine: Text, droids: seq<Bytes>)

  /** The bytes before the first NUL. */
  function UpToNul(bs: Bytes): Bytes {
    bs[..AnsiEnd(bs, 0)]
  }

  function TrackerOf(cell: Bytes): Tracker
    requires |cell| >= 96
  {
    Tracker(Chars(UpToNul(cell[16..32])), [cell[32..48], cell[48..64], cell[64..80], cell[80..96]])
  }

  /** A tracker block replaces the one found before it. */
  function Track(tracker: Option<Tracker>, cell: Bytes): Option<Tracker>
    requires |cell| >= 8
  {
    if Field(cell, 0, 4, 4) == TRACKER_SIGNATURE && |cell| >= 96 then Some(TrackerOf(cell)) else tracker
  }

  datatype ExtraResult = ExtraResult(tracker: Option<Tracker>, warnings: seq<LinkWarning>)

  function ExtraData(data: Bytes, tracker: Option<Tracker>): ExtraResult
    decreases |data|
  {
    if |data| < 4 then ExtraResult(tracker, if |data| > 0 then [NoTerminator] else [])
    else
      var size := Field(data, 0, 0, 4);
      if size == 0 then ExtraResult(tracker, [])
      else if size < 8 || size > |data| then ExtraResult(tracker, [MalformedBlock])
      else ExtraData(data[size..], Track(tracker, data[..size]))
  }

  method ReadExtraData(data: Bytes, start: nat) returns (r: ExtraResult)
    requires start <= |data|
    ensures r == ExtraData(data[start..], None)
  {
    hide Field, Track;
    var tracker: Option<Tracker> := None;
    var offset := start;
    while offset + 4 <= |data|
      invariant start <= offset <= |data|
      invariant ExtraData(data[start..], None) == ExtraData(data[offset..], tracker)
    {
      var size := Field(data, offset, 0, 4);
      FieldOfSuffix(data, offset, 0, 4);
      if size == 0 {
        return ExtraResult(tracker, []);
      }
      if size < 8 || offset + size > |data| {
        return ExtraResult(tracker, [MalformedBlock]);
      }
      var cell := data[offset..offset + size];
      assert data[offset..][..size] == cell && data[offset..][size..] == data[offset + size..];
      tracker := Track(tracker, cell);
      offset := offset + size;
    }
    return ExtraResult(tracker, if offset != |data| then [NoTerminator] else []);
  }

  // ----- the composed target path

  const BACKSLASH: Unit := 0x5C

  /** str.rstrip of backslashes. */
  function TrimEnd(t: Text): (r: Text)
    ensures |r| > 0 ==> r[|r| - 1] != BACKSLASH
  {
    if |t| > 0 && t[|t| - 1] == BACKSLASH then TrimEnd(t[..|t| - 1]) else t
  }

  /** str.lstrip of backslashes. */
  function TrimStart(t: Text): (r: Text)
    ensures |r| > 0 ==> r[0] != BACKSLASH
  {
    if |t| > 0 && t[0] == BACKSLASH then TrimStart(t[1..]) else t
  }

  predicate EndsWith(t: Text, suffix: Text) {
    |suffix| <= |t| && t[|t| - |suffix|..] == suffix
  }

  function JoinPaths(front: Text, back: Text): Text {
    TrimEnd(front) + [BACKSLASH] + TrimStart(back)
  }

  /** _target_path: the local path, else the network share, else the relative path. */
  function TargetPath(info: Option<LinkInfo>, strings: seq<Option<Text>>): Option<Text>
    requires |strings| == 5
  {
    if info.None? then strings[1]
    else
      var suffix := info.value.suffix.GetOr([]);
      if info.value.localPath.Some? then
        var front := info.value.localPath.value;
        Some(if |suffix| > 0 && !EndsWith(front, suffix) then JoinPaths(front, suffix) else front)
      else if info.value.network.Some? && info.value.network.value.share.Some? then
        var front := info.value.network.value.share.value;
        Some(if |suffix| > 0 then JoinPaths(front, suffix) else front)
      else strings[1]
  }

  predicate Backslashes(t: Text) {
    forall i :: 0 <= i < |t| ==> t[i] == BACKSLASH
  }

  /** Nothing but backslashes at the seam is dropped, and exactly one is put there. */
  lemma SeamHasOneBackslash(front: Text, back: Text) returns (head: Text, tail: Text)
    ensures JoinPaths(front, back) == head + [BACKSLASH] + tail
    ensures head <= front && Backslashes(front[|head|..])
    ensures |tail| <= |back| && back[|back| - |tail|..] == tail && Backslashes(back[..|back| - |tail|])
    ensures (|head| > 0 ==> head[|head| - 1] != BACKSLASH) && (|tail| > 0 ==> tail[0] != BACKSLASH)
  {
    head, tail := TrimEnd(front), TrimStart(back);
    TrimmedEnd(front);
    TrimmedStart(back);
  }

  lemma {:induction false} TrimmedEnd(t: Text)
    ensures TrimEnd(t) <= t && Backslashes(t[|TrimEnd(t)|..])
  {
    if |t| > 0 && t[|t| - 1] == BACKSLASH {
      TrimmedEnd(t[..|t| - 1]);
      var n := |TrimEnd(t)|;
      assert t[n..] == t[..|t| - 1][n..] + [BACKSLASH];
    }
  }

  lemma {:induction false} TrimmedStart(t: Text)
    ensures var r := TrimStart(t);
      |r| <= |t| && t[|t| - |r|..] == r && Backslashes(t[..|t| - |r|])
  {
    if |t| > 0 && t[0] == BACKSLASH {
      TrimmedStart(t[1..]);
      var n := |t| - |TrimStart(t)|;
      assert t[..n] == [BACKSLASH] + t[1..][..n - 1];
      assert t[n..] == t[1..][n - 1..];
    }
  }

  // ----- the whole link

  datatype Link = Link(
    flags: nat, attributes: nat, times: seq<Stamp>, fileSize: nat, iconIndex: nat, showCommand: nat,
    items: seq<ShellItem>, info: Option<LinkInfo>, strings: seq<Option<Text>>, tracker: Option<Tracker>,
    targetPath: Option<Text>)

  datatype LinkResult = LinkResult(link: Link, warnings: seq<LinkWarning>)

  /** Creation, access and modification, in header order. */
  function HeaderTimes(data: Bytes): (times: seq<Stamp>)
    requires |data| >= HEADER_SIZE
    ensures |times| == 3
  {
    [FileTime(Field(data, 0, 28, 8)), FileTime(Field(data, 0, 36, 8)), FileTime(Field(data, 0, 44, 8))]
  }

  function BadTimes(times: seq<Stamp>): seq<LinkWarning> {
    if |times| == 0 then []
    else BadTimes(times[..|times| - 1])
         + if times[|times| - 1].time.None? && times[|times| - 1].raw.Some? then [BadTime(|times| - 1)] else []
  }

  datatype IdSection = IdSection(list: ItemList, end: nat)

  function DecodeIdSection(data: Bytes, offset: nat, present: bool): (r: Result<IdSection>)
    requires offset <= |data|
    ensures r.Ok? ==> offset <= r.value.end <= |data|
  {
    if !present then Ok(IdSection(ItemList([], []), offset))
    else
      var size :- Uint(data, offset, 2);
      var end := offset + 2 + size;
      if end > |data| then Err(Structure) else Ok(IdSection(IdList(data[offset + 2..end], 0), end))
  }

  datatype InfoSection = InfoSection(info: Option<LinkInfo>, warnings: seq<LinkWarning>, end: nat)

  function DecodeInfoSection(data: Bytes, offset: nat, present: bool): (r: Result<InfoSection>)
    requires offset <= |data|
    ensures r.Ok? ==> offset <= r.value.end <= |data|
  {
    if !present then Ok(InfoSection(None, [], offset))
    else
      var r :- DecodeLinkInfo(data, offset);
      Ok(InfoSection(Some(r.info), r.warnings, r.end))
  }

  /** The specification of _normalize: every section starts where the previous one ended. */
  function Normalize(data: Bytes): (r: Result<LinkResult>)
    ensures r.Ok? ==> |r.value.link.strings| == 5 && |r.value.link.times| == 3
  {
    if |data| < HEADER_SIZE || Field(data, 0, 0, 4) != HEADER_SIZE then Err(Structure)
    else
      var flags := Field(data, 0, 20, 4);
      var ids :- DecodeIdSection(data, HEADER_SIZE, Bit(flags, 0));
      var info :- DecodeInfoSection(data, ids.end, Bit(flags, 1));
      var strings :- Strings(data, info.end, flags, 2);
      var extra := ExtraData(data[strings.end..], None);
      Ok(LinkResult(
        Link(flags, Field(data, 0, 24, 4), HeaderTimes(data), Field(data, 0, 52, 4), Field(data, 0, 56, 4),
             Field(data, 0, 60, 4), ids.list.items, info.info, strings.strings, extra.tracker,
             TargetPath(info.info, strings.strings)),
        BadTimes(HeaderTimes(data)) + ids.list.warnings + info.warnings + extra.warnings))
  }

  method ReadLink(data: Bytes) returns (r: Result<LinkResult>)
    ensures r == Normalize(data)
  {
    hide Field, IdList, DecodeLinkInfo, StringData, ExtraData, Bit, HeaderTimes, BadTimes, TargetPath;
    if |data| < HEADER_SIZE || Field(data, 0, 0, 4) != HEADER_SIZE {
      return Err(Structure);
    }
    var flags, times := Field(data, 0, 20, 4), HeaderTimes(data);
    var warnings := BadTimes(times);
    var offset := HEADER_SIZE;
    var items: seq<ShellItem> := [];
    if Bit(flags, 0) {
      var size := Uint(data, offset, 2);
      if size.Err? {
        return Err(size.fault);
      }
      offset := offset + 2;
      var end := offset + size.value;
      if end > |data| {
        return Err(Structure);
      }
      var list := ReadIdList(data[offset..end]);
      items, warnings := list.items, warnings + list.warnings;
      offset := end;
    } else {
      assert warnings + [] == warnings;
    }
    ghost var ids := DecodeIdSection(data, HEADER_SIZE, Bit(flags, 0));
    assert ids.Ok? && items == ids.value.list.items && offset == ids.value.end;
    var info: Option<LinkInfo> := None;
    if Bit(flags, 1) {
      var decoded := DecodeLinkInfo(data, offset);
      if decoded.Err? {
        return Err(decoded.fault);
      }
      info, warnings, offset := Some(decoded.value.info), warnings + decoded.value.warnings, decoded.value.end;
    } else {
      assert warnings + [] == warnings;
    }
    var strings := ReadStrings(data, offset, flags);
    if strings.Err? {
      return Err(strings.fault);
    }
    var extra := ReadExtraData(data, strings.value.end);
    warnings := warnings + extra.warnings;
    return Ok(LinkResult(
      Link(flags, Field(data, 0, 24, 4), times, Field(data, 0, 52, 4), Field(data, 0, 56, 4), Field(data, 0, 60, 4),
           items, info, strings.value.strings, extra.tracker, TargetPath(info, strings.value.strings)),
      warnings));
  }

  /** The loop over the five string flags. */
  method ReadStrings(data: Bytes, start: nat, flags: nat) returns (r: Result<StringsResult>)
    requires start <= |data|
    ensures r == Strings(data, start, flags, 2)
  {
    hide StringData, Bit;
    var strings: seq<Option<Text>> := [];
    var offset := start;
    ghost var all := Strings(data, start, flags, 2);
    ThenJoins([], [], all);
    for bit := 2 to 7
      invariant start <= offset <= |data| && |strings| == bit - 2
      invariant all == Then(strings, Strings(data, offset, flags, bit))
    {
      ghost var at, before := offset, strings;
      if Bit(flags, bit) {
        var head := StringData(data, offset, Bit(flags, 7));
        if head.Err? {
          return Err(head.fault);
        }
        strings := strings + [Some(head.value.text)];
        offset := head.value.end;
      } else {
        strings := strings + [None];
      }
      ThenJoins(before, [strings[|strings| - 1]], Strings(data, offset, flags, bit + 1));
    }
    assert strings + [] == strings;
    return Ok(StringsResult(strings, offset));
  }

  lemma ThenJoins(a: seq<Option<Text>>, b: seq<Option<Text>>, r: Result<StringsResult>)
    ensures Then(a + b, r) == Then(a, Then(b, r)) && Then([], r) == r
  {
    if r.Ok? {
      assert a + b + r.value.strings == a + (b + r.value.strings);
      assert [] + r.value.strings == r.value.strings;
    }
  }
}
