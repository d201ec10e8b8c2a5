/** What a parsed Shell Link says of the bytes it came from, damaged sections included. */
module LinkLaws {
  import opened Wrappers
  import opened WindowsBinary
  import opened Lnk
  import opened LnkFormat

  // ----- strings, terminated or not

  /** The field that starts at `from` ends at its first terminator, or where the bytes run out. */
  predicate Spans(data: Bytes, from: nat, to: nat, unicode: bool) {
    && from <= to <= |data|
    && if unicode
       then && (to - from) % 2 == 0 && (to + 1 < |data| ==> data[to] == 0 && data[to + 1] == 0)
            && forall k :: 0 <= k < (to - from) / 2 ==> data[from + 2 * k] != 0 || data[from + 2 * k + 1] != 0
       else && (to < |data| ==> data[to] == 0) && forall k :: from <= k < to ==> data[k] != 0
  }

  /** The text of the bytes: pairs of bytes, low byte first and surrogates paired, or characters of the code page. */
  predicate Spells(bs: Bytes, unicode: bool, text: Text) {
    if unicode
    then |bs| == 2 * |text| && WellFormed(text)
         && forall k :: 0 <= k < |text| ==> text[k] == bs[2 * k] + 256 * (bs[2 * k + 1] as int)
    else |bs| == |text| && forall k :: 0 <= k < |text| ==> text[k] == Char1252(bs[k])
  }

  /** A string field: absent at offset zero or past the end, or the text of its bytes. */
  ghost predicate Shows(data: Bytes, offset: nat, unicode: bool, text: Option<Text>) {
    if offset == 0 || offset >= |data| then text.None?
    else
      text.Some?
      && exists to: nat :: Spans(data, offset, to, unicode) && Spells(data[offset..to], unicode, text.value)
  }

  lemma {:induction false} WideSpans(data: Bytes, from: nat)
    requires from <= |data|
    ensures Spans(data, from, WideEnd(data, from), true)
    decreases |data| - from
  {
    if from + 1 < |data| && !NulPair(data, from) {
      WideSpans(data, from + 2);
      var to := WideEnd(data, from);
      forall k | 0 <= k < (to - from) / 2
        ensures data[from + 2 * k] != 0 || data[from + 2 * k + 1] != 0
      {
        if k > 0 {
          assert data[from + 2 + 2 * (k - 1)] != 0 || data[from + 2 + 2 * (k - 1) + 1] != 0;
        }
      }
    }
  }

  lemma {:induction false} AnsiSpans(data: Bytes, from: nat)
    requires from <= |data|
    ensures Spans(data, from, AnsiEnd(data, from), false)
    decreases |data| - from
  {
    if from < |data| && data[from] != 0 {
      AnsiSpans(data, from + 1);
    }
  }

  /** Where a field ends is determined. */
  lemma {:induction false} WideEndsThere(data: Bytes, from: nat, to: nat)
    requires Spans(data, from, to, true)
    ensures to == WideEnd(data, from)
    decreases |data| - from
  {
    if from < to {
      assert data[from + 2 * 0] != 0 || data[from + 2 * 0 + 1] != 0;
      forall k | 0 <= k < (to - (from + 2)) / 2
        ensures data[from + 2 + 2 * k] != 0 || data[from + 2 + 2 * k + 1] != 0
      {
        assert data[from + 2 * (k + 1)] != 0 || data[from + 2 * (k + 1) + 1] != 0;
      }
      WideEndsThere(data, from + 2, to);
    }
  }

  lemma {:induction false} AnsiEndsThere(data: Bytes, from: nat, to: nat)
    requires Spans(data, from, to, false)
    ensures to == AnsiEnd(data, from)
    decreases |data| - from
  {
    if from < to {
      AnsiEndsThere(data, from + 1, to);
    }
  }

  lemma SpellsIff(bs: Bytes, unicode: bool, text: Text)
    requires unicode ==> |bs| % 2 == 0
    ensures Spells(bs, unicode, text) <==> (if unicode then Utf16(bs) == Ok(text) else Chars(bs) == text)
  {
    if unicode {
      hide WellFormed;
      if Spells(bs, true, text) {
        assert Units(bs) == text;
      }
    }
  }

  /** A string field is read as it shows, and only ill-formed UTF-16 is refused. */
  lemma CStringIff(data: Bytes, offset: nat, unicode: bool, text: Option<Text>)
    ensures CString(data, offset, unicode) == Ok(text) <==> Shows(data, offset, unicode, text)
  {
    if 0 < offset < |data| {
      var to := if unicode then WideEnd(data, offset) else AnsiEnd(data, offset);
      WideSpans(data, offset);
      AnsiSpans(data, offset);
      if text.Some? {
        SpellsIff(data[offset..to], unicode, text.value);
        forall b: nat | Spans(data, offset, b, unicode)
          ensures b == to
        {
          if unicode {
            WideEndsThere(data, offset, b);
          } else {
            AnsiEndsThere(data, offset, b);
          }
        }
      }
      hide Spans, Spells, WideEnd, AnsiEnd, Utf16, Chars;
    }
  }

  // ----- the target path

  /** Backslashes at the seam are dropped, and one is put there. */
  predicate SeamAt(front: Text, back: Text, path: Text, m: nat, n: nat) {
    && m <= |front| && n <= |back| && path == front[..m] + [0x5C] + back[n..]
    && (forall i :: m <= i < |front| ==> front[i] == 0x5C) && (m > 0 ==> front[m - 1] != 0x5C)
    && (forall i :: 0 <= i < n ==> back[i] == 0x5C) && (n < |back| ==> back[n] != 0x5C)
  }

  ghost predicate Joined(front: Text, back: Text, path: Text) {
    exists m: nat, n: nat :: SeamAt(front, back, path, m, n)
  }

  predicate HasEnd(t: Text, end: Text) {
    exists k | 0 <= k <= |t| :: t[k..] == end
  }

  /** The local path, then the share, then the relative path: the first that is there, with the suffix it lacks. */
  ghost predicate Points(local: Option<Text>, share: Option<Text>, suffix: Option<Text>, relative: Option<Text>,
                         path: Option<Text>) {
    if local.Some? then
      && path.Some?
      && if suffix.None? || |suffix.value| == 0 || HasEnd(local.value, suffix.value) then path == local
         else Joined(local.value, suffix.value, path.value)
    else if share.Some? then
      && path.Some?
      && if suffix.None? || |suffix.value| == 0 then path == share else Joined(share.value, suffix.value, path.value)
    else path == relative
  }

  function LocalOf(info: Option<LinkInfo>): Option<Text> {
    if info.Some? then info.value.localPath else None
  }

  function ShareOf(info: Option<LinkInfo>): Option<Text> {
    if info.Some? && info.value.network.Some? then info.value.network.value.share else None
  }

  function SuffixOf(info: Option<LinkInfo>): Option<Text> {
    if info.Some? then info.value.suffix else None
  }

  lemma JoinedPaths(front: Text, back: Text)
    ensures Joined(front, back, JoinPaths(front, back))
  {
    var head, tail := SeamHasOneBackslash(front, back);
    var m, n := |head|, |back| - |tail|;
    assert front[..m] == head;
    assert forall i :: m <= i < |front| ==> front[i] == front[m..][i - m];
    assert forall i :: 0 <= i < n ==> back[i] == back[..n][i];
    hide JoinPaths;
    assert SeamAt(front, back, JoinPaths(front, back), m, n);
  }

  lemma EndIff(t: Text, end: Text)
    ensures HasEnd(t, end) <==> EndsWith(t, end)
  {
  }

  lemma TargetPoints(info: Option<LinkInfo>, strings: seq<Option<Text>>)
    requires |strings| == 5
    ensures Points(LocalOf(info), ShareOf(info), SuffixOf(info), strings[1], TargetPath(info, strings))
  {
    hide EndsWith, HasEnd, JoinPaths, Joined;
    if info.Some? {
      var suffix := info.value.suffix.GetOr([]);
      if info.value.localPath.Some? {
        EndIff(info.value.localPath.value, suffix);
        JoinedPaths(info.value.localPath.value, suffix);
      } else if info.value.network.Some? && info.value.network.value.share.Some? {
        JoinedPaths(info.value.network.value.share.value, suffix);
      }
    }
  }

  /** The bits of the flag word that decide which sections there are, and how strings are written. */
  lemma BitIff(flags: nat)
    ensures Bit(flags, 0) <==> flags % 2 == 1
    ensures Bit(flags, 1) <==> flags / 2 % 2 == 1
    ensures Bit(flags, 2) <==> flags / 4 % 2 == 1
    ensures Bit(flags, 3) <==> flags / 8 % 2 == 1
    ensures Bit(flags, 4) <==> flags / 16 % 2 == 1
    ensures Bit(flags, 5) <==> flags / 32 % 2 == 1
    ensures Bit(flags, 6) <==> flags / 64 % 2 == 1
    ensures Bit(flags, 7) <==> flags / 128 % 2 == 1
  {
  }

  /** Every parsed link points where its parts say; the relative path is the string of flag bit 3. */
  lemma ParsedLinkPoints(data: Bytes)
    requires Normalize(data).Ok?
    ensures var link := Normalize(data).value.link;
      Points(LocalOf(link.info), ShareOf(link.info), SuffixOf(link.info), link.strings[1], link.targetPath)
    ensures Normalize(data).value.link.strings[1].Some? <==> Normalize(data).value.link.flags / 8 % 2 == 1
  {
    hide Field, Bit, DecodeIdSection, DecodeInfoSection, ExtraData, HeaderTimes, BadTimes, TargetPath, Points, Strings;
    var link := Normalize(data).value.link;
    TargetPoints(link.info, link.strings);
    var flags := Field(data, 0, 20, 4);
    BitIff(flags);
    var a := DecodeIdSection(data, HEADER_SIZE, Bit(flags, 0)).value.end;
    var b := DecodeInfoSection(data, a, Bit(flags, 1)).value.end;
    StringsWereEncoded(data, b, flags, 2);
  }

  /** And a stored link points where its source says. */
  lemma StoredLinkPoints(f: Pieces, x: Source, p: InfoPlaces)
    requires LinkStored(f, x, p)
    ensures |x.strings| == 5 && Normalize(FileOf(f)).Ok?
    ensures Points(LocalOf(x.info), ShareOf(x.info), SuffixOf(x.info), x.strings[1],
                   Normalize(FileOf(f)).value.link.targetPath)
  {
    hide LinkStored, Normalize, TargetPath, Points, ExpectedWarnings, FileOf;
    ParseUndoesPrint(f, x, p);
    TargetPoints(x.info, x.strings);
  }

  // ----- items

  /** What is kept of an item: its size, its third byte, and at most sixteen bytes from there. */
  lemma ItemKeeps(cell: Bytes)
    requires |cell| >= 2
    ensures var item := ItemOf(cell);
      && item.size == |cell| && (item.classType.Some? <==> |cell| > 2)
      && (|cell| > 2 ==> item.classType == Some(cell[2]))
      && |item.header| == (if |cell| < 18 then |cell| - 2 else 16)
      && forall k :: 0 <= k < |item.header| ==> item.header[k] == cell[2 + k]
  {
  }

  /** The warnings of a list of cells: one for each item whose class group has no name, and the limit. */
  lemma {:induction false} ItemsWarn(cells: seq<Bytes>, index: nat, w: LinkWarning)
    requires ItemCells(cells) && index < MAX_IDLIST_ITEMS
    ensures w in ItemsOf(cells, index).warnings <==>
      || (w == ItemLimit && index + |cells| >= 4096)
      || (w.UnsupportedItem? && index <= w.index < index + |cells| && w.index < 4096
          && Nameless(cells[w.index - index]))
  {
    hide ItemOf, KnownClass, Nameless;
    if |cells| > 0 {
      NamelessIff(cells[0]);
      if index + 1 < MAX_IDLIST_ITEMS {
        ItemsWarn(cells[1..], index + 1, w);
        assert w.UnsupportedItem? && index < w.index < index + |cells| ==>
          cells[1..][w.index - (index + 1)] == cells[w.index - index];
      }
    }
  }

  /** Three bits of the class byte, 0x70, tell the group; 0x10 to 0x40 and 0x60 have names. */
  predicate Nameless(cell: Bytes) {
    |cell| <= 2 || cell[2] / 16 % 8 == 0 || cell[2] / 16 % 8 == 5 || cell[2] / 16 % 8 == 7
  }

  lemma NamelessIff(cell: Bytes)
    requires |cell| >= 2
    ensures Nameless(cell) <==> !KnownClass(ItemOf(cell))
  {
  }

  /** What can follow the last well-formed cell, and what is said about it. */
  function ItemsEnd(rest: Bytes): seq<LinkWarning> {
    if |rest| == 0 then [] else if |rest| == 1 then [TrailingItemBytes]
    else if rest[0] == 0 && rest[1] == 0 then [] else [MalformedItem]
  }

  predicate NoCell(rest: Bytes) {
    |rest| < 2 || forall size: nat :: Holds(rest, 0, 2, size) ==> size < 2 || size > |rest|
  }

  /** Any IDList is well-formed cells and a rest that starts none; below the limit the rest decides the last warning. */
  lemma {:induction false} IdListTiles(data: Bytes, index: nat) returns (cells: seq<Bytes>, rest: Bytes)
    requires index < MAX_IDLIST_ITEMS
    ensures ItemCells(cells) && data == Concat(cells) + rest && index + |cells| <= 4096
    ensures index + |cells| < 4096 ==>
      NoCell(rest) && IdList(data, index) == Append(ItemsOf(cells, index), ItemList([], ItemsEnd(rest)))
    ensures index + |cells| == 4096 ==> IdList(data, index) == ItemsOf(cells, index)
    decreases |data|
  {
    hide Field, Holds, ItemOf, ItemWarnings, Append, NoCell, ItemsEnd;
    var size := if |data| < 2 then 0 else Field(data, 0, 0, 2);
    if |data| < 2 || size < 2 || size > |data| {
      cells, rest := [], data;
      IdListStops(data, index);
    } else {
      var cell, tail := data[..size], data[size..];
      FirstCellHolds(data, size);
      if index + 1 >= MAX_IDLIST_ITEMS {
        cells, rest := [cell], tail;
        assert Concat([]) == [];
        ConcatOne(cell, []);
        assert cell + [] == cell;
        assert data == cell + tail;
      } else {
        var later;
        later, rest := IdListTiles(tail, index + 1);
        cells := [cell] + later;
        ConcatOne(cell, later);
        CellsBefore(cell, later, index);
        assert data == cell + tail == cell + (Concat(later) + rest) == cell + Concat(later) + rest;
        AppendAssociates(ItemList([ItemOf(cell)], ItemWarnings(ItemOf(cell), index)), ItemsOf(later, index + 1),
                         ItemList([], ItemsEnd(rest)));
      }
    }
  }

  lemma FirstCellHolds(data: Bytes, size: nat)
    requires |data| >= 2 && size == Field(data, 0, 0, 2) && 2 <= size <= |data|
    ensures Holds(data[..size], 0, 2, |data[..size]|)
  {
    assert data[..size][0..2] == data[0..2];
    FieldIsHeld(data[..size], 0, 2, size);
    hide Holds, Le;
  }

  lemma CellsBefore(cell: Bytes, later: seq<Bytes>, index: nat)
    requires |cell| >= 2 && Holds(cell, 0, 2, |cell|) && ItemCells(later) && index + 1 < MAX_IDLIST_ITEMS
    ensures ItemCells([cell] + later)
    ensures ItemsOf([cell] + later, index)
         == Append(ItemList([ItemOf(cell)], ItemWarnings(ItemOf(cell), index)), ItemsOf(later, index + 1))
  {
    hide Holds, ItemOf, ItemWarnings, Append;
    assert ([cell] + later)[1..] == later;
  }

  lemma IdListStops(data: Bytes, index: nat)
    requires index < MAX_IDLIST_ITEMS
    requires |data| < 2 || Field(data, 0, 0, 2) < 2 || Field(data, 0, 0, 2) > |data|
    ensures NoCell(data) && ItemCells([]) && Concat([]) + data == data
    ensures IdList(data, index) == Append(ItemsOf([], index), ItemList([], ItemsEnd(data)))
  {
    hide ItemOf, ItemWarnings;
    if |data| >= 2 {
      forall size: nat | Holds(data, 0, 2, size)
        ensures size < 2 || size > |data|
      {
        FieldIsHeld(data, 0, 2, size);
      }
      ZeroField(data);
    }
    hide Field, Holds;
  }

  lemma ZeroField(data: Bytes)
    requires |data| >= 2
    ensures Field(data, 0, 0, 2) == 0 <==> data[0] == 0 && data[1] == 0
  {
    var bs := data[0..2];
    assert Le(bs) == bs[0] + 256 * Le(bs[1..]);
    assert Le(bs[1..]) == bs[1] + 256 * Le(bs[1..][1..]);
  }

  // ----- the tracker

  /** Of a tracker block: the machine name up to its first NUL, and the four identifiers. */
  lemma TrackerKeeps(cell: Bytes)
    requires |cell| >= 96
    ensures var t := TrackerOf(cell); var n := |t.machine|;
      && n <= 16 && (forall k :: 0 <= k < n ==> cell[16 + k] != 0 && t.machine[k] == Char1252(cell[16 + k]))
      && (n < 16 ==> cell[16 + n] == 0)
      && t.droids == [cell[32..48], cell[48..64], cell[64..80], cell[80..96]]
  {
    var field := cell[16..32];
    AnsiSpans(field, 0);
    var to := AnsiEnd(field, 0);
    assert Spans(field, 0, to, false);
    assert |field| == 16 && forall k :: 0 <= k < 16 ==> field[k] == cell[16 + k];
    hide AnsiEnd, Spans;
  }

  /** A block with the signature of a tracker, long enough to hold one. */
  predicate IsTracker(cell: Bytes) {
    Holds(cell, 4, 4, 0xA000_0003) && |cell| >= 96
  }

  predicate LastAt(cells: seq<Bytes>, k: nat) {
    k < |cells| && IsTracker(cells[k]) && forall m :: k < m < |cells| ==> !IsTracker(cells[m])
  }

  /** The last such block is the tracker, and without one there is none but the one before. */
  lemma {:induction false} TrackerIsLast(cells: seq<Bytes>, before: Option<Tracker>)
    requires ExtraCells(cells)
    ensures (forall k :: 0 <= k < |cells| ==> !IsTracker(cells[k])) ==> LastTracker(cells, before) == before
    ensures forall k: nat :: LastAt(cells, k) ==> LastTracker(cells, before) == Some(TrackerOf(cells[k]))
  {
    if |cells| > 0 {
      var n := |cells| - 1;
      TrackerIsLast(cells[..n], before);
      LastCellDecides(cells, before);
      hide IsTracker, LastTracker, TrackerOf, Holds;
      if !IsTracker(cells[n]) {
        forall k: nat | LastAt(cells, k)
          ensures LastAt(cells[..n], k)
        {
        }
      }
    }
  }

  lemma LastCellDecides(cells: seq<Bytes>, before: Option<Tracker>)
    requires |cells| > 0 && ExtraCells(cells)
    ensures var n := |cells| - 1;
      LastTracker(cells, before) == if IsTracker(cells[n]) then Some(TrackerOf(cells[n]))
                                    else LastTracker(cells[..n], before)
  {
    hide Holds, TrackerOf;
  }

  // ----- times

  lemma {:induction false} BadTimesIff(times: seq<Stamp>, w: LinkWarning)
    ensures w in BadTimes(times) <==>
      w.BadTime? && w.slot < |times| && times[w.slot].time.None? && times[w.slot].raw.Some?
  {
    if |times| > 0 {
      var n := |times| - 1;
      BadTimesIff(times[..n], w);
    }
  }

  /** A link warns of exactly the header times that have no datetime. */
  lemma LinkWarnsOfTimes(data: Bytes, slot: nat)
    requires Normalize(data).Ok? && slot < 3
    ensures |data| >= 76
    ensures BadTime(slot) in Normalize(data).value.warnings <==>
      forall ticks :: Holds(data, [28, 36, 44][slot], 8, ticks) ==> ticks >= 2650467744000000000
  {
    hide Bit, DecodeIdSection, DecodeInfoSection, Strings, ExtraData, BadTimes, Le, LeBytes, Pow256, TargetPath;
    var times := HeaderTimes(data);
    BadTimesIff(times, BadTime(slot));
    var ticks := Field(data, 0, [28, 36, 44][slot], 8);
    FieldIsHeld(data, [28, 36, 44][slot], 8, ticks);
    FileTimeExact(ticks);
    forall v | Holds(data, [28, 36, 44][slot], 8, v)
      ensures v == ticks
    {
      FieldIsHeld(data, [28, 36, 44][slot], 8, v);
    }
    OthersAreSilent(data, slot);
    assert times[slot] == FileTime(ticks);
    hide FileTime, Field, Holds, HeaderTimes;
  }

  lemma OthersAreSilent(data: Bytes, slot: nat)
    requires Normalize(data).Ok?
    ensures |data| >= 76
    ensures BadTime(slot) in Normalize(data).value.warnings <==> BadTime(slot) in BadTimes(HeaderTimes(data))
  {
    hide Field, Bit, HeaderTimes, BadTimes, Strings, TargetPath, IdList, ExtraData, DecodeLinkInfo;
    var flags := Field(data, 0, 20, 4);
    var ids := DecodeIdSection(data, HEADER_SIZE, Bit(flags, 0)).value;
    var info := DecodeInfoSection(data, ids.end, Bit(flags, 1)).value;
    var strings := Strings(data, info.end, flags, 2).value;
    if Bit(flags, 0) {
      ItemsSilent(data[HEADER_SIZE + 2..ids.end], slot);
    }
    if Bit(flags, 1) {
      InfoSilent(data, ids.end, slot);
    }
    ExtraSilent(data[strings.end..], slot);
  }

  lemma ItemsSilent(data: Bytes, slot: nat)
    ensures BadTime(slot) !in IdList(data, 0).warnings
  {
    hide ItemsOf, IdList;
    var cells, rest := IdListTiles(data, 0);
    ItemsWarn(cells, 0, BadTime(slot));
  }

  lemma InfoSilent(data: Bytes, offset: nat, slot: nat)
    requires DecodeLinkInfo(data, offset).Ok?
    ensures BadTime(slot) !in DecodeLinkInfo(data, offset).value.warnings
  {
    hide Field, Bit, EitherString, DecodeVolume, DecodeNetwork, Le;
  }

  lemma ExtraSilent(data: Bytes, slot: nat)
    ensures BadTime(slot) !in ExtraData(data, None).warnings
  {
    hide ExtraData, Field;
    var cells, rest := ExtraTiles(data, None);
  }

  // ----- LinkInfo, with its recoverable parts

  /** A field with an ANSI and a Unicode offset, of which the latter counts unless it is zero. */
  ghost predicate ShownAt(block: Bytes, ansiAt: nat, wideAt: nat, text: Option<Text>) {
    Shows(block, if wideAt != 0 then wideAt else ansiAt, wideAt != 0, text)
  }

  ghost predicate VolumeShows(block: Bytes, at: nat, size: nat, labelAt: nat, wideAt: nat, v: Volume) {
    && Holds(block, at, 4, size) && 16 <= size && at + size <= |block|
    && var cell := block[at..at + size];
       && Holds(cell, 4, 4, v.driveType) && Holds(cell, 8, 4, v.serial) && Holds(cell, 12, 4, labelAt)
       && (if labelAt == 0x14 then Holds(cell, 16, 4, wideAt) else wideAt == 0)
       && ShownAt(cell, labelAt, wideAt, v.driveLabel)
  }

  ghost predicate NetworkShows(block: Bytes, at: nat, size: nat, shareAt: nat, deviceAt: nat, shareWide: nat,
                               deviceWide: nat, n: Network) {
    && Holds(block, at, 4, size) && 20 <= size && at + size <= |block|
    && var cell := block[at..at + size];
       && Holds(cell, 4, 4, n.flags) && Holds(cell, 16, 4, n.provider)
       && Holds(cell, 8, 4, shareAt) && Holds(cell, 12, 4, deviceAt)
       && (if shareAt > 0x14 && size >= 28 then Holds(cell, 20, 4, shareWide) && Holds(cell, 24, 4, deviceWide)
           else shareWide == 0 && deviceWide == 0)
       && ShownAt(cell, shareAt, shareWide, n.share) && ShownAt(cell, deviceAt, deviceWide, n.device)
  }

  lemma EitherIff(block: Bytes, ansiAt: nat, wideAt: nat, text: Option<Text>)
    ensures EitherString(block, ansiAt, wideAt) == Ok(text) <==> ShownAt(block, ansiAt, wideAt, text)
  {
    CStringIff(block, if wideAt != 0 then wideAt else ansiAt, wideAt != 0, text);
    hide CString, Shows;
  }

  /** A VolumeID is read exactly as it stands. */
  lemma VolumeIff(block: Bytes, at: nat, v: Volume)
    ensures DecodeVolume(block, at) == Ok(v) <==>
      exists size: nat, labelAt: nat, wideAt: nat :: VolumeShows(block, at, size, labelAt, wideAt, v)
  {
    hide EitherString, ShownAt, Le, LeBytes, Pow256;
    if DecodeVolume(block, at) == Ok(v) {
      VolumeShown(block, at, v);
    }
    if size: nat, labelAt: nat, wideAt: nat :| VolumeShows(block, at, size, labelAt, wideAt, v) {
      VolumeRead(block, at, size, labelAt, wideAt, v);
    }
  }

  lemma VolumeRead(block: Bytes, at: nat, size: nat, labelAt: nat, wideAt: nat, v: Volume)
    requires VolumeShows(block, at, size, labelAt, wideAt, v)
    ensures DecodeVolume(block, at) == Ok(v)
  {
    var cell := block[at..at + size];
    UintReadsWhatIsHeld(block, at, 4, size);
    FieldIsHeld(cell, 4, 4, v.driveType);
    FieldIsHeld(cell, 8, 4, v.serial);
    FieldIsHeld(cell, 12, 4, labelAt);
    UintReadsWhatIsHeld(cell, 16, 4, wideAt);
    EitherIff(cell, labelAt, wideAt, v.driveLabel);
    hide EitherString, ShownAt, Le, LeBytes, Pow256, Holds, Field;
  }

  lemma VolumeShown(block: Bytes, at: nat, v: Volume)
    requires DecodeVolume(block, at) == Ok(v)
    ensures exists size: nat, labelAt: nat, wideAt: nat :: VolumeShows(block, at, size, labelAt, wideAt, v)
  {
    hide Le, LeBytes, Pow256, EitherString, Shows;
    var size := Uint(block, at, 4).value;
    var cell := block[at..at + size];
    var labelAt := Field(cell, 0, 12, 4);
    var wideAt := if labelAt == 0x14 then Uint(cell, 16, 4).value else 0;
    UintReadsWhatIsHeld(block, at, 4, size);
    FieldIsHeld(cell, 4, 4, v.driveType);
    FieldIsHeld(cell, 8, 4, v.serial);
    FieldIsHeld(cell, 12, 4, labelAt);
    UintReadsWhatIsHeld(cell, 16, 4, wideAt);
    EitherIff(cell, labelAt, wideAt, v.driveLabel);
    hide Holds, Field, Uint;
    assert VolumeShows(block, at, size, labelAt, wideAt, v);
  }

  /** A network link is read exactly as it stands. */
  lemma NetworkIff(block: Bytes, at: nat, n: Network)
    ensures DecodeNetwork(block, at) == Ok(n) <==>
      exists size: nat, shareAt: nat, deviceAt: nat, shareWide: nat, deviceWide: nat ::
        NetworkShows(block, at, size, shareAt, deviceAt, shareWide, deviceWide, n)
  {
    hide DecodeNetwork, NetworkShows;
    if DecodeNetwork(block, at) == Ok(n) {
      NetworkShown(block, at, n);
    }
    if size: nat, shareAt: nat, deviceAt: nat, shareWide: nat, deviceWide: nat :|
      NetworkShows(block, at, size, shareAt, deviceAt, shareWide, deviceWide, n)
    {
      NetworkRead(block, at, size, shareAt, deviceAt, shareWide, deviceWide, n);
    }
  }

  lemma NetworkRead(block: Bytes, at: nat, size: nat, shareAt: nat, deviceAt: nat, shareWide: nat, deviceWide: nat,
                    n: Network)
    requires NetworkShows(block, at, size, shareAt, deviceAt, shareWide, deviceWide, n)
    ensures DecodeNetwork(block, at) == Ok(n)
  {
    hide EitherString, ShownAt, Le, LeBytes, Pow256;
    var cell := block[at..at + size];
    UintReadsWhatIsHeld(block, at, 4, size);
    FieldIsHeld(cell, 4, 4, n.flags);
    FieldIsHeld(cell, 8, 4, shareAt);
    FieldIsHeld(cell, 12, 4, deviceAt);
    FieldIsHeld(cell, 16, 4, n.provider);
    if shareAt > 0x14 && size >= 28 {
      FieldIsHeld(cell, 20, 4, shareWide);
      FieldIsHeld(cell, 24, 4, deviceWide);
    }
    EitherIff(cell, shareAt, shareWide, n.share);
    EitherIff(cell, deviceAt, deviceWide, n.device);
    hide Holds, Field, Uint;
  }

  lemma NetworkShown(block: Bytes, at: nat, n: Network)
    requires DecodeNetwork(block, at) == Ok(n)
    ensures exists size: nat, shareAt: nat, deviceAt: nat, shareWide: nat, deviceWide: nat ::
      NetworkShows(block, at, size, shareAt, deviceAt, shareWide, deviceWide, n)
  {
    hide EitherString, ShownAt, Le, LeBytes, Pow256;
    var size := Uint(block, at, 4).value;
    var cell := block[at..at + size];
    var shareAt, deviceAt := Field(cell, 0, 8, 4), Field(cell, 0, 12, 4);
    var wide := shareAt > 0x14 && size >= 28;
    var shareWide, deviceWide := if wide then Field(cell, 0, 20, 4) else 0, if wide then Field(cell, 0, 24, 4) else 0;
    UintReadsWhatIsHeld(block, at, 4, size);
    FieldIsHeld(cell, 4, 4, n.flags);
    FieldIsHeld(cell, 8, 4, shareAt);
    FieldIsHeld(cell, 12, 4, deviceAt);
    FieldIsHeld(cell, 16, 4, n.provider);
    if wide {
      FieldIsHeld(cell, 20, 4, shareWide);
      FieldIsHeld(cell, 24, 4, deviceWide);
    }
    EitherIff(cell, shareAt, shareWide, n.share);
    EitherIff(cell, deviceAt, deviceWide, n.device);
    hide Holds, Field, Uint;
    assert NetworkShows(block, at, size, shareAt, deviceAt, shareWide, deviceWide, n);
  }

  /** The offsets in the header of a LinkInfo block. */
  datatype InfoOffsets = InfoOffsets(headerSize: nat, volumeAt: nat, localAt: nat, networkAt: nat, suffixAt: nat,
                                     localWide: nat, suffixWide: nat)

  ghost predicate InfoHeads(block: Bytes, flags: nat, o: InfoOffsets) {
    && Holds(block, 4, 4, o.headerSize) && Holds(block, 8, 4, flags) && Holds(block, 12, 4, o.volumeAt)
    && Holds(block, 16, 4, o.localAt) && Holds(block, 20, 4, o.networkAt) && Holds(block, 24, 4, o.suffixAt)
    && 0x1C <= o.headerSize <= |block|
    && if o.headerSize >= 0x24 then Holds(block, 28, 4, o.localWide) && Holds(block, 32, 4, o.suffixWide)
       else o.localWide == 0 && o.suffixWide == 0
  }

  /** A part is there if its flag and its offset say so and it can be read; if it cannot, that is the warning. */
  lemma InfoRecovers(block: Bytes, flags: nat, o: InfoOffsets)
    requires |block| >= 0x1C && InfoHeads(block, flags, o) && DecodeInfoBlock(block).Ok?
    ensures var info := DecodeInfoBlock(block).value.0; var ws := DecodeInfoBlock(block).value.1;
      && info.flags == flags
      && ShownAt(block, o.localAt, o.localWide, info.localPath)
      && ShownAt(block, o.suffixAt, o.suffixWide, info.suffix)
      && (info.volume.Some? ==> DecodeVolume(block, o.volumeAt) == Ok(info.volume.value))
      && (info.volume.Some? || BadVolume in ws <==> flags % 2 == 1 && o.volumeAt != 0)
      && (BadVolume in ws ==> info.volume.None? && DecodeVolume(block, o.volumeAt).Err?)
      && (info.network.Some? ==> DecodeNetwork(block, o.networkAt) == Ok(info.network.value))
      && (info.network.Some? || BadNetwork in ws <==> flags / 2 % 2 == 1 && o.networkAt != 0)
      && (BadNetwork in ws ==> info.network.None? && DecodeNetwork(block, o.networkAt).Err?)
  {
    hide EitherString, ShownAt, Le, LeBytes, Pow256, DecodeVolume, DecodeNetwork;
    InfoHeadReads(block, flags, o);
    var info := DecodeInfoBlock(block).value.0;
    hide Holds, Field;
    EitherIff(block, o.localAt, o.localWide, info.localPath);
    EitherIff(block, o.suffixAt, o.suffixWide, info.suffix);
  }

  lemma InfoHeadReads(block: Bytes, flags: nat, o: InfoOffsets)
    requires |block| >= 0x1C && InfoHeads(block, flags, o)
    ensures Field(block, 0, 4, 4) == o.headerSize && Field(block, 0, 8, 4) == flags
    ensures Field(block, 0, 12, 4) == o.volumeAt && Field(block, 0, 16, 4) == o.localAt
    ensures Field(block, 0, 20, 4) == o.networkAt && Field(block, 0, 24, 4) == o.suffixAt
    ensures o.headerSize >= 0x24 ==>
      |block| >= 0x24 && Field(block, 0, 28, 4) == o.localWide && Field(block, 0, 32, 4) == o.suffixWide
  {
    FieldIsHeld(block, 4, 4, o.headerSize);
    FieldIsHeld(block, 8, 4, flags);
    FieldIsHeld(block, 12, 4, o.volumeAt);
    FieldIsHeld(block, 16, 4, o.localAt);
    FieldIsHeld(block, 20, 4, o.networkAt);
    FieldIsHeld(block, 24, 4, o.suffixAt);
    if o.headerSize >= 0x24 {
      FieldIsHeld(block, 28, 4, o.localWide);
      FieldIsHeld(block, 32, 4, o.suffixWide);
    }
    hide Holds, Field;
  }

  /** The one way for a LinkInfo block with a sound header to fail: a path that is ill-formed UTF-16. */
  lemma InfoFailsIff(block: Bytes, flags: nat, o: InfoOffsets)
    requires |block| >= 0x1C && InfoHeads(block, flags, o)
    ensures DecodeInfoBlock(block).Ok? <==>
      && (exists t :: ShownAt(block, o.localAt, o.localWide, t))
      && (exists t :: ShownAt(block, o.suffixAt, o.suffixWide, t))
  {
    InfoHeadReads(block, flags, o);
    StringOkIff(block, o.localAt, o.localWide);
    StringOkIff(block, o.suffixAt, o.suffixWide);
    hide EitherString, ShownAt, Holds, Field, DecodeVolume, DecodeNetwork, Bit;
  }

  lemma StringOkIff(block: Bytes, ansiAt: nat, wideAt: nat)
    ensures EitherString(block, ansiAt, wideAt).Ok? <==> exists t :: ShownAt(block, ansiAt, wideAt, t)
  {
    hide EitherString, ShownAt;
    if EitherString(block, ansiAt, wideAt).Ok? {
      EitherIff(block, ansiAt, wideAt, EitherString(block, ansiAt, wideAt).value);
    }
    if t :| ShownAt(block, ansiAt, wideAt, t) {
      EitherIff(block, ansiAt, wideAt, t);
    }
  }
}
