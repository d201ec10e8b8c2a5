/**
 What an attribute list looks like on disk, stated as a relation between attribute sources
 and bytes: any name and body placement, any padding, any data-run field widths.  The decoder
 of MftAttributes is proved to accept exactly the related bytes and to return their meaning.
 */
module MftFormat {
  import opened Wrappers
  import opened WindowsBinary
  import opened DataRuns
  import opened MftAttributes

  datatype Content =
    | Other(value: Bytes)
    | Standard(length: nat, ticks: seq<nat>, fileAttributes: nat)
    | Named(length: nat, parent: nat, ticks: seq<nat>, allocatedSize: nat, logicalSize: nat,
            fileAttributes: nat, namespace: Byte, name: seq<Unit>)
    | Clusters(startVcn: nat, lastVcn: nat, allocatedSize: nat, logicalSize: nat, initializedSize: nat,
               runs: seq<RunCode>)

  /** An attribute to be stored. */
  datatype Source = Source(typeCode: nat, id: nat, name: seq<Unit>, flags: nat, content: Content)

  /** Where a writer puts the name and the value or run list. */
  datatype Placement = Placement(nameAt: nat, bodyAt: nat)

  // ----- the layout

  predicate TicksStored(value: Bytes, offset: nat, ticks: seq<nat>) {
    |ticks| == 4 && forall k :: 0 <= k < 4 ==> Holds(value, offset + 8 * k, 8, ticks[k])
  }

  predicate TextStored(data: Bytes, offset: nat, us: seq<Unit>) {
    offset + 2 * |us| <= |data| && data[offset..offset + 2 * |us|] == Utf16Bytes(us) && WellFormed(us)
  }

  predicate NamedStored(value: Bytes, c: Content)
    requires c.Named?
  {
    && |value| == c.length && |value| >= 66
    && Holds(value, 0, 8, c.parent) && TicksStored(value, 8, c.ticks)
    && Holds(value, 40, 8, c.allocatedSize) && Holds(value, 48, 8, c.logicalSize)
    && Holds(value, 56, 4, c.fileAttributes)
    && value[64] == |c.name| && value[65] == c.namespace && TextStored(value, 66, c.name)
  }

  predicate ValueStored(value: Bytes, typeCode: nat, c: Content) {
    match c
    case Other(v) => typeCode != 0x10 && typeCode != 0x30 && value == v
    case Standard(length, ticks, attributes) =>
      && typeCode == 0x10 && |value| == length && |value| >= 36
      && TicksStored(value, 0, ticks) && Holds(value, 32, 4, attributes)
    case Named(_, _, _, _, _, _, _, _) => typeCode == 0x30 && NamedStored(value, c)
    case Clusters(_, _, _, _, _, _) => false
  }

  predicate NameStored(a: Bytes, name: seq<Unit>, at: nat) {
    && |a| >= 24 && a[9] == |name|
    && (|name| > 0 ==> Holds(a, 10, 2, at) && 16 <= at && TextStored(a, at, name))
  }

  predicate ResidentStored(a: Bytes, typeCode: nat, c: Content, at: nat) {
    && |a| >= 24 && a[8] == 0 && Holds(a, 20, 2, at) && 24 <= at
    && exists n :: at <= n <= |a| && Holds(a, 16, 4, n - at) && ValueStored(a[at..n], typeCode, c)
  }

  predicate ClustersStored(a: Bytes, c: Content, at: nat)
    requires c.Clusters?
  {
    && |a| >= 64 && a[8] != 0 && Holds(a, 32, 2, at) && 64 <= at < |a|
    && Holds(a, 16, 8, c.startVcn) && Holds(a, 24, 8, c.lastVcn) && Holds(a, 40, 8, c.allocatedSize)
    && Holds(a, 48, 8, c.logicalSize) && Holds(a, 56, 8, c.initializedSize)
    && AllStorable(c.runs) && |c.runs| <= 16384
    && exists n :: at <= n <= |a| && a[at..n] == EncodeRuns(c.runs) && (n < |a| ==> a[n] == 0)
  }

  /** The bytes a are one whole attribute, storing x at the given places. */
  predicate Stored(a: Bytes, x: Source, p: Placement) {
    && |a| >= 24 && Holds(a, 4, 4, |a|)
    && Holds(a, 0, 4, x.typeCode) && x.typeCode != 0xFFFF_FFFF
    && Holds(a, 12, 2, x.flags) && Holds(a, 14, 2, x.id)
    && NameStored(a, x.name, p.nameAt)
    && if x.content.Clusters? then ClustersStored(a, x.content, p.bodyAt)
       else ResidentStored(a, x.typeCode, x.content, p.bodyAt)
  }

  // ----- the meaning

  function StampsOf(ticks: seq<nat>): seq<Stamp> {
    seq(|ticks|, k requires 0 <= k < |ticks| => FileTime(ticks[k]))
  }

  function ValueOf(c: Content): Value {
    match c
    case Other(_) => Plain
    case Standard(_, ticks, attributes) => StandardInformation(StampsOf(ticks), attributes)
    case Named(_, parent, ticks, allocatedSize, logicalSize, attributes, namespace, name) =>
      FileName(DecodeReference(parent), StampsOf(ticks), allocatedSize, logicalSize, attributes, namespace, name)
    case Clusters(_, _, _, _, _, _) => Plain
  }

  function LengthOf(c: Content): nat {
    match c
    case Other(v) => |v|
    case Standard(n, _, _) => n
    case Named(n, _, _, _, _, _, _, _) => n
    case Clusters(_, _, _, _, _, _) => 0
  }

  function AttributeOf(x: Source): Attribute {
    Attribute(x.typeCode, x.id, if |x.name| == 0 then None else Some(x.name), x.flags,
      if x.content.Clusters? then
        NonResident(x.content.startVcn, x.content.lastVcn, x.content.allocatedSize, x.content.logicalSize,
                    x.content.initializedSize, Meaning(x.content.runs, 0))
      else Resident(LengthOf(x.content), ValueOf(x.content)))
  }

  // ----- one attribute: decoding undoes storing

  lemma TicksDecode(value: Bytes, offset: nat, ticks: seq<nat>)
    requires TicksStored(value, offset, ticks) && offset + 32 <= |value|
    ensures Times(value, offset) == StampsOf(ticks)
  {
    hide Le, LeBytes, Pow256;
    forall k | 0 <= k < 4
      ensures Times(value, offset)[k] == FileTime(ticks[k])
    {
      UintReadsWhatIsHeld(value, offset + 8 * k, 8, ticks[k]);
    }
  }

  lemma ValueDecodes(value: Bytes, typeCode: nat, c: Content)
    requires ValueStored(value, typeCode, c)
    ensures |value| == LengthOf(c)
    ensures DecodeValue(typeCode, value) == Ok(ValueOf(c))
  {
    match c
    case Other(_) =>
    case Standard(_, ticks, attributes) =>
      TicksDecode(value, 0, ticks);
      FieldIsHeld(value, 32, 4, attributes);
    case Named(_, parent, ticks, _, _, _, _, name) =>
      NamedDecodes(value, c);
    case Clusters(_, _, _, _, _, _) =>
  }

  lemma NamedDecodes(value: Bytes, c: Content)
    requires c.Named? && NamedStored(value, c)
    ensures DecodeValue(FILE_NAME, value) == Ok(ValueOf(c))
  {
    hide Field, Holds, Times, Utf16, StampsOf, Utf16Bytes;
    TicksDecode(value, 8, c.ticks);
    FieldIsHeld(value, 0, 8, c.parent);
    FieldIsHeld(value, 40, 8, c.allocatedSize);
    FieldIsHeld(value, 48, 8, c.logicalSize);
    FieldIsHeld(value, 56, 4, c.fileAttributes);
    Utf16UndoesUtf16Bytes(c.name);
  }

  lemma NameDecodes(a: Bytes, name: seq<Unit>, at: nat)
    requires NameStored(a, name, at)
    ensures DecodeName(a, 0, |a|) == Ok(if |name| == 0 then None else Some(name))
  {
    hide Field, Holds, TextStored;
    if |name| > 0 {
      FieldIsHeld(a, 10, 2, at);
      TextDecodes(a, at, name);
      hide Utf16;
    }
  }

  lemma TextDecodes(a: Bytes, at: nat, name: seq<Unit>)
    requires TextStored(a, at, name)
    ensures at + 2 * |name| <= |a| && Utf16(a[at..at + 2 * |name|]) == Ok(name)
  {
    Utf16UndoesUtf16Bytes(name);
    hide Utf16, Utf16Bytes, WellFormed;
  }

  lemma ResidentDecodes(a: Bytes, typeCode: nat, c: Content, at: nat)
    requires ResidentStored(a, typeCode, c, at)
    ensures DecodeResident(a, 0, |a|, typeCode) == Ok(Resident(LengthOf(c), ValueOf(c)))
  {
    hide Field, DecodeValue, ValueStored, ValueOf;
    var n :| at <= n <= |a| && Holds(a, 16, 4, n - at) && ValueStored(a[at..n], typeCode, c);
    FieldIsHeld(a, 16, 4, n - at);
    FieldIsHeld(a, 20, 2, at);
    ValueDecodes(a[at..n], typeCode, c);
  }

  lemma ClustersDecode(a: Bytes, c: Content, at: nat)
    requires c.Clusters? && ClustersStored(a, c, at)
    ensures DecodeNonResident(a, 0, |a|)
         == Ok(NonResident(c.startVcn, c.lastVcn, c.allocatedSize, c.logicalSize, c.initializedSize,
                           Meaning(c.runs, 0)))
  {
    hide Field, DecodeRuns, EncodeRuns, Meaning, Storable;
    var n :| at <= n <= |a| && a[at..n] == EncodeRuns(c.runs) && (n < |a| ==> a[n] == 0);
    assert a[at..] == EncodeRuns(c.runs) + a[n..];
    DecodeUndoesEncode(c.runs, a[n..], 0, 0);
    FieldIsHeld(a, 32, 2, at);
    FieldIsHeld(a, 16, 8, c.startVcn);
    FieldIsHeld(a, 24, 8, c.lastVcn);
    FieldIsHeld(a, 40, 8, c.allocatedSize);
    FieldIsHeld(a, 48, 8, c.logicalSize);
    FieldIsHeld(a, 56, 8, c.initializedSize);
    assert a[0 + at..0 + |a|] == a[at..];
  }

  lemma AttributeDecodes(a: Bytes, x: Source, p: Placement)
    requires Stored(a, x, p)
    ensures DecodeAttribute(a, 0, |a|) == Ok(AttributeOf(x))
  {
    NameDecodes(a, x.name, p.nameAt);
    FieldIsHeld(a, 0, 4, x.typeCode);
    FieldIsHeld(a, 12, 2, x.flags);
    FieldIsHeld(a, 14, 2, x.id);
    if x.content.Clusters? {
      ClustersDecode(a, x.content, p.bodyAt);
    } else {
      ResidentDecodes(a, x.typeCode, x.content, p.bodyAt);
    }
    hide Field, DecodeName, DecodeResident, DecodeNonResident, ValueOf, LengthOf, NameStored;
  }

  // ----- the chain

  predicate AllStored(cells: seq<Bytes>, xs: seq<Source>, ps: seq<Placement>) {
    |cells| == |xs| == |ps| && forall i :: 0 <= i < |xs| ==> Stored(cells[i], xs[i], ps[i])
  }

  /** The rest of the used area once the attributes are read: the end marker and four bytes more. */
  predicate ClosesChain(rest: Bytes) {
    |rest| >= 8 && Holds(rest, 0, 4, 0xFFFF_FFFF)
  }

  function AttributesOf(xs: seq<Source>): (items: seq<Attribute>)
    ensures |items| == |xs|
  {
    seq(|xs|, i requires 0 <= i < |xs| => AttributeOf(xs[i]))
  }

  lemma ChainHead(a: Bytes, x: Source, p: Placement, rest: Bytes, seen: nat)
    requires Stored(a, x, p)
    ensures DecodeChain(a + rest, seen)
         == if seen >= MAX_ATTRIBUTES then Err(Structure) else Extend([AttributeOf(x)], DecodeChain(rest, seen + 1))
  {
    hide Field, DecodeAttribute, AttributeOf, NameStored, ClustersStored, ResidentStored;
    var data := a + rest;
    AttributeDecodes(a, x, p);
    assert data[0..0 + |a|] == a && data[|a|..] == rest;
    AttributeIsLocal(data, 0, |a|);
    FieldIsLocal(data, 0, |a|, 0, 4);
    FieldIsLocal(data, 0, |a|, 4, 4);
    FieldIsHeld(a, 0, 4, x.typeCode);
    FieldIsHeld(a, 4, 4, |a|);
  }

  /** Decoding the chain undoes storing it, up to and including the limit of 1024. */
  lemma {:induction false} ChainDecodes(cells: seq<Bytes>, xs: seq<Source>, ps: seq<Placement>, rest: Bytes, seen: nat)
    requires AllStored(cells, xs, ps) && ClosesChain(rest) && seen <= 1024
    ensures DecodeChain(Concat(cells) + rest, seen)
         == if seen + |xs| <= 1024 then Ok(AttributesOf(xs)) else Err(Structure)
  {
    hide Stored, AttributeOf, DecodeAttribute;
    if |cells| == 0 {
      assert Concat(cells) + rest == rest;
      FieldIsHeld(rest, 0, 4, TERMINATOR);
    } else {
      var tail := Concat(cells[1..]) + rest;
      assert Concat(cells) + rest == cells[0] + tail;
      ChainHead(cells[0], xs[0], ps[0], tail, seen);
      if seen < MAX_ATTRIBUTES {
        ChainDecodes(cells[1..], xs[1..], ps[1..], rest, seen + 1);
        assert AttributesOf(xs) == [AttributeOf(xs[0])] + AttributesOf(xs[1..]);
      }
    }
  }

  // ----- the converse: whatever decodes was stored

  lemma ValueWasStored(value: Bytes, typeCode: nat) returns (c: Content)
    requires DecodeValue(typeCode, value).Ok?
    ensures !c.Clusters? && ValueStored(value, typeCode, c)
  {
    if typeCode == STANDARD_INFORMATION {
      var ticks := TicksOf(value, 0);
      c := Standard(|value|, ticks, Field(value, 0, 32, 4));
      FieldIsHeld(value, 32, 4, c.fileAttributes);
    } else if typeCode == FILE_NAME {
      c := NamedWasStored(value);
    } else {
      c := Other(value);
    }
  }

  lemma TicksOf(value: Bytes, offset: nat) returns (ticks: seq<nat>)
    requires offset + 32 <= |value|
    ensures TicksStored(value, offset, ticks)
  {
    hide Le, LeBytes, Pow256;
    ticks := seq(4, k requires 0 <= k < 4 => Le(value[offset + 8 * k..offset + 8 * k + 8]));
    forall k | 0 <= k < 4
      ensures Holds(value, offset + 8 * k, 8, ticks[k])
    {
      UintReadsWhatIsHeld(value, offset + 8 * k, 8, ticks[k]);
    }
  }

  lemma NamedWasStored(value: Bytes) returns (c: Content)
    requires DecodeValue(FILE_NAME, value).Ok?
    ensures c.Named? && NamedStored(value, c)
  {
    hide Le, LeBytes, Pow256, Holds, TicksStored, Times;
    var ticks := TicksOf(value, 8);
    var name := Units(value[66..66 + 2 * (value[64] as nat)]);
    Utf16BytesUndoesUtf16(value[66..66 + 2 * (value[64] as nat)]);
    c := Named(|value|, Field(value, 0, 0, 8), ticks, Field(value, 0, 40, 8), Field(value, 0, 48, 8),
               Field(value, 0, 56, 4), value[65], name);
    FieldIsHeld(value, 0, 8, c.parent);
    FieldIsHeld(value, 40, 8, c.allocatedSize);
    FieldIsHeld(value, 48, 8, c.logicalSize);
    FieldIsHeld(value, 56, 4, c.fileAttributes);
  }

  lemma NameWasStored(a: Bytes) returns (name: seq<Unit>, at: nat)
    requires |a| >= 24 && DecodeName(a, 0, |a|).Ok?
    ensures NameStored(a, name, at)
  {
    hide Le, LeBytes, Pow256;
    at := Field(a, 0, 10, 2);
    var n: nat := a[9];
    if n == 0 {
      name := [];
    } else {
      name := Units(a[at..at + 2 * n]);
      Utf16BytesUndoesUtf16(a[at..at + 2 * n]);
      FieldIsHeld(a, 10, 2, at);
    }
  }

  lemma ResidentWasStored(a: Bytes, typeCode: nat) returns (c: Content, at: nat)
    requires |a| >= 24 && a[8] == 0 && DecodeResident(a, 0, |a|, typeCode).Ok?
    ensures !c.Clusters? && ResidentStored(a, typeCode, c, at)
  {
    hide Field, DecodeValue, ValueStored;
    at := Field(a, 0, 20, 2);
    var n := at + Field(a, 0, 16, 4);
    c := ValueWasStored(a[at..n], typeCode);
    FieldIsHeld(a, 20, 2, at);
    FieldIsHeld(a, 16, 4, n - at);
  }

  lemma ClustersWereStored(a: Bytes) returns (c: Content, at: nat)
    requires |a| >= 24 && a[8] != 0 && DecodeNonResident(a, 0, |a|).Ok?
    ensures c.Clusters? && ClustersStored(a, c, at)
  {
    hide Le, LeBytes, Pow256, DecodeRuns, EncodeRuns, Meaning, Storable;
    at := Field(a, 0, 32, 2);
    var codes, rest := DecodedWasEncoded(a[at..|a|], 0, 0);
    c := Clusters(Field(a, 0, 16, 8), Field(a, 0, 24, 8), Field(a, 0, 40, 8), Field(a, 0, 48, 8), Field(a, 0, 56, 8),
                  codes);
    FieldIsHeld(a, 32, 2, at);
    FieldIsHeld(a, 16, 8, c.startVcn);
    FieldIsHeld(a, 24, 8, c.lastVcn);
    FieldIsHeld(a, 40, 8, c.allocatedSize);
    FieldIsHeld(a, 48, 8, c.logicalSize);
    FieldIsHeld(a, 56, 8, c.initializedSize);
    RunListEnds(a, at, EncodeRuns(codes), rest);
  }

  lemma RunListEnds(a: Bytes, at: nat, runs: Bytes, rest: Bytes)
    requires at <= |a| && a[at..] == runs + rest && (|rest| > 0 ==> rest[0] == 0)
    ensures exists n :: at <= n <= |a| && a[at..n] == runs && (n < |a| ==> a[n] == 0)
  {
    var n := at + |runs|;
    assert a[at..n] == a[at..][..|runs|] == runs;
    if n < |a| {
      assert a[n] == a[at..][|runs|] == rest[0];
    }
  }

  lemma AttributeWasStored(a: Bytes) returns (x: Source, p: Placement)
    requires |a| >= 24 && Holds(a, 4, 4, |a|) && !Holds(a, 0, 4, TERMINATOR)
    requires DecodeAttribute(a, 0, |a|).Ok?
    ensures Stored(a, x, p)
  {
    hide Le, LeBytes, Pow256, DecodeName, DecodeResident, DecodeNonResident, NameStored, ClustersStored, ResidentStored;
    var name, nameAt := NameWasStored(a);
    var typeCode := Field(a, 0, 0, 4);
    var c, at;
    if a[8] != 0 {
      c, at := ClustersWereStored(a);
    } else {
      c, at := ResidentWasStored(a, typeCode);
    }
    x := Source(typeCode, Field(a, 0, 14, 2), name, Field(a, 0, 12, 2), c);
    p := Placement(nameAt, at);
    FieldIsHeld(a, 0, 4, typeCode);
    FieldIsHeld(a, 12, 2, x.flags);
    FieldIsHeld(a, 14, 2, x.id);
  }

  lemma ChainLink(data: Bytes, seen: nat) returns (a: Bytes, x: Source, p: Placement)
    requires DecodeChain(data, seen).Ok? && Field(data, 0, 0, 4) != TERMINATOR
    ensures Stored(a, x, p) && |a| <= |data| && data == a + data[|a|..] && seen < MAX_ATTRIBUTES
    ensures DecodeChain(data, seen) == Extend([AttributeOf(x)], DecodeChain(data[|a|..], seen + 1))
  {
    hide Field, DecodeAttribute, Stored, AttributeOf;
    var n := Field(data, 0, 4, 4);
    a := data[0..0 + n];
    AttributeIsLocal(data, 0, n);
    FieldIsLocal(data, 0, n, 0, 4);
    FieldIsLocal(data, 0, n, 4, 4);
    FieldIsHeld(a, 4, 4, n);
    FieldIsHeld(a, 0, 4, TERMINATOR);
    x, p := AttributeWasStored(a);
    AttributeDecodes(a, x, p);
  }

  /**
   Tiling: on success the used area is exactly the attributes, end to end, then the end marker.
   Each cell is at least 24 bytes and announces its own size, and holds its own name and value.
   */
  lemma {:induction false} ChainWasStored(data: Bytes, seen: nat)
      returns (cells: seq<Bytes>, xs: seq<Source>, ps: seq<Placement>, rest: Bytes)
    requires DecodeChain(data, seen).Ok? && seen <= 1024
    ensures AllStored(cells, xs, ps) && seen + |xs| <= 1024
    ensures ClosesChain(rest) && data == Concat(cells) + rest
    ensures DecodeChain(data, seen) == Ok(AttributesOf(xs))
    decreases |data|
  {
    hide Field, DecodeAttribute, Stored, AttributeOf;
    if Field(data, 0, 0, 4) == TERMINATOR {
      FieldIsHeld(data, 0, 4, TERMINATOR);
      cells, xs, ps, rest := [], [], [], data;
    } else {
      hide Holds, Pow256, LeBytes, Le, Concat, AllStored, AttributesOf, ClosesChain;
      var a, x, p := ChainLink(data, seen);
      StoredIsNotEmpty(a, x, p);
      var cells', xs', ps';
      cells', xs', ps', rest := ChainWasStored(data[|a|..], seen + 1);
      cells, xs, ps := [a] + cells', [x] + xs', [p] + ps';
      hide DecodeChain;
      Prepended(a, x, p, cells', xs', ps');
      assert data == a + data[|a|..];
    }
  }

  lemma Prepended(a: Bytes, x: Source, p: Placement, cells: seq<Bytes>, xs: seq<Source>, ps: seq<Placement>)
    requires Stored(a, x, p) && AllStored(cells, xs, ps)
    ensures AllStored([a] + cells, [x] + xs, [p] + ps)
    ensures Concat([a] + cells) == a + Concat(cells)
    ensures AttributesOf([x] + xs) == [AttributeOf(x)] + AttributesOf(xs)
  {
    ConcatOne(a, cells);
    hide Stored, AttributeOf, Concat;
    var us, blocks := [x] + xs, [a] + cells;
    forall i | 0 <= i < |us|
      ensures Stored(blocks[i], us[i], ([p] + ps)[i])
    {
      if i > 0 {
        assert us[i] == xs[i - 1] && blocks[i] == cells[i - 1];
      }
    }
    AttributesGrow(x, xs);
  }

  lemma AttributesGrow(x: Source, xs: seq<Source>)
    ensures AttributesOf([x] + xs) == [AttributeOf(x)] + AttributesOf(xs)
  {
    hide AttributeOf;
  }

  lemma StoredIsNotEmpty(a: Bytes, x: Source, p: Placement)
    requires Stored(a, x, p)
    ensures |a| >= 24
  {
  }
}
