/** The attribute list of an MFT record: a chain of length-prefixed attributes. */
module MftAttributes {
  import opened Wrappers
  import opened WindowsBinary
  import opened DataRuns

  const MAX_ATTRIBUTES: nat := 1024
  const STANDARD_INFORMATION: nat := 0x10
  const FILE_NAME: nat := 0x30
  const TERMINATOR: nat := 0xFFFF_FFFF
  const TWO_48: nat := 0x1_0000_0000_0000

  datatype Family = StandardFamily | FileNameFamily

  /** The FILETIME in a slot (creation, modification, MFT change, access) has no datetime. */
  datatype Warning = UnrepresentableTime(family: Family, slot: nat)

  /** A file reference: the low 48 bits number the record, the rest is its sequence. */
  datatype Reference = Reference(record: nat, sequence: nat)

  datatype Value =
    | Plain
    | StandardInformation(times: seq<Stamp>, fileAttributes: nat)
    | FileName(parent: Reference, times: seq<Stamp>, allocatedSize: nat, logicalSize: nat,
               fileAttributes: nat, namespace: Byte, name: seq<Unit>)

  datatype Body =
    | Resident(length: nat, value: Value)
    | NonResident(startVcn: nat, lastVcn: nat, allocatedSize: nat, logicalSize: nat, initializedSize: nat,
                  runs: seq<Run>)

  datatype Attribute = Attribute(typeCode: nat, id: nat, name: Option<seq<Unit>>, flags: nat, body: Body)

  // ----- the decoder

  function DecodeReference(v: nat): Reference {
    Reference(v % TWO_48, v / TWO_48)
  }

  /** The four consecutive FILETIME slots at offset. */
  function Times(value: Bytes, offset: nat): (times: seq<Stamp>)
    requires offset + 32 <= |value|
    ensures |times| == 4
  {
    seq(4, k requires 0 <= k < 4 => FileTime(Field(value, offset, 8 * k, 8)))
  }

  function TimeWarnings(family: Family, times: seq<Stamp>, slot: nat): seq<Warning>
    requires slot <= |times|
    decreases |times| - slot
  {
    if slot == |times| then []
    else (if times[slot].time.None? && times[slot].raw.Some? then [UnrepresentableTime(family, slot)] else [])
         + TimeWarnings(family, times, slot + 1)
  }

  function ValueWarnings(v: Value): seq<Warning> {
    match v
    case Plain => []
    case StandardInformation(times, _) => TimeWarnings(StandardFamily, times, 0)
    case FileName(_, times, _, _, _, _, _) => TimeWarnings(FileNameFamily, times, 0)
  }

  function BodyWarnings(b: Body): seq<Warning> {
    if b.Resident? then ValueWarnings(b.value) else []
  }

  /** The parsed part of a resident value: only two attribute types have one. */
  function DecodeValue(typeCode: nat, value: Bytes): Result<Value> {
    if typeCode == STANDARD_INFORMATION then
      if |value| < 36 then Err(Structure)
      else Ok(StandardInformation(Times(value, 0), Field(value, 0, 32, 4)))
    else if typeCode == FILE_NAME then
      if |value| < 66 || 66 + 2 * (value[64] as nat) > |value| then Err(Structure)
      else
        var name :- Utf16(value[66..66 + 2 * (value[64] as nat)]);
        Ok(FileName(DecodeReference(Field(value, 0, 0, 8)), Times(value, 8), Field(value, 0, 40, 8),
                    Field(value, 0, 48, 8), Field(value, 0, 56, 4), value[65], name))
    else Ok(Plain)
  }

  function DecodeName(data: Bytes, offset: nat, length: nat): Result<Option<seq<Unit>>>
    requires length >= 24 && offset + length <= |data|
  {
    var nameLength: nat, nameOffset: nat := data[offset + 9], Field(data, offset, 10, 2);
    if nameLength == 0 then Ok(None)
    else if nameOffset < 16 || nameOffset + 2 * nameLength > length then Err(Structure)
    else
      var name :- Utf16(data[offset + nameOffset..offset + nameOffset + 2 * nameLength]);
      Ok(Some(name))
  }

  function DecodeResident(data: Bytes, offset: nat, length: nat, typeCode: nat): Result<Body>
    requires length >= 24 && offset + length <= |data|
  {
    var valueLength, valueOffset := Field(data, offset, 16, 4), Field(data, offset, 20, 2);
    if valueOffset < 24 || valueOffset + valueLength > length then Err(Structure)
    else
      var value :- DecodeValue(typeCode, data[offset + valueOffset..offset + valueOffset + valueLength]);
      Ok(Resident(valueLength, value))
  }

  function DecodeNonResident(data: Bytes, offset: nat, length: nat): Result<Body>
    requires length >= 24 && offset + length <= |data|
  {
    if length < 64 then Err(Structure)
    else
      var runOffset := Field(data, offset, 32, 2);
      if runOffset < 64 || runOffset >= length then Err(Structure)
      else
        var runs :- DecodeRuns(data[offset + runOffset..offset + length], 0, 0);
        Ok(NonResident(Field(data, offset, 16, 8), Field(data, offset, 24, 8), Field(data, offset, 40, 8),
                       Field(data, offset, 48, 8), Field(data, offset, 56, 8), runs))
  }

  function DecodeAttribute(data: Bytes, offset: nat, length: nat): Result<Attribute>
    requires length >= 24 && offset + length <= |data|
  {
    var typeCode := Field(data, offset, 0, 4);
    var name :- DecodeName(data, offset, length);
    var body :- if data[offset + 8] != 0 then DecodeNonResident(data, offset, length)
                else DecodeResident(data, offset, length, typeCode);
    Ok(Attribute(typeCode, Field(data, offset, 14, 2), name, Field(data, offset, 12, 2), body))
  }

  /** The attributes from the head of data up to the terminator. */
  function DecodeChain(data: Bytes, seen: nat): Result<seq<Attribute>>
    decreases |data|
  {
    if |data| < 8 then Err(Structure)
    else if Field(data, 0, 0, 4) == TERMINATOR then Ok([])
    else
      var length := Field(data, 0, 4, 4);
      if length < 24 || length > |data| then Err(Structure)
      else
        var item :- DecodeAttribute(data, 0, length);
        if seen >= MAX_ATTRIBUTES then Err(Structure)
        else Extend([item], DecodeChain(data[length..], seen + 1))
  }

  /** One link of the chain. */
  lemma ChainStep(data: Bytes, seen: nat, item: Attribute)
    requires |data| >= 8 && Field(data, 0, 0, 4) != TERMINATOR
    requires 24 <= Field(data, 0, 4, 4) <= |data|
    requires DecodeAttribute(data, 0, Field(data, 0, 4, 4)) == Ok(item)
    ensures DecodeChain(data, seen) == if seen >= MAX_ATTRIBUTES then Err(Structure)
                                       else Extend([item], DecodeChain(data[Field(data, 0, 4, 4)..], seen + 1))
  {
    hide Field, DecodeAttribute;
  }

  function Extend(items: seq<Attribute>, r: Result<seq<Attribute>>): Result<seq<Attribute>> {
    if r.Ok? then Ok(items + r.value) else r
  }

  function WarningsOf(items: seq<Attribute>): seq<Warning> {
    if |items| == 0 then [] else WarningsOf(items[..|items| - 1]) + BodyWarnings(items[|items| - 1].body)
  }

  /** Decoding an attribute reads nothing outside it. */
  lemma AttributeIsLocal(data: Bytes, offset: nat, length: nat)
    requires length >= 24 && offset + length <= |data|
    ensures DecodeAttribute(data, offset, length) == DecodeAttribute(data[offset..offset + length], 0, length)
  {
    var a := data[offset..offset + length];
    NameIsLocal(data, offset, length);
    BodyIsLocal(data, offset, length);
    FieldIsLocal(data, offset, length, 0, 4);
    FieldIsLocal(data, offset, length, 12, 2);
    FieldIsLocal(data, offset, length, 14, 2);
    hide DecodeName, DecodeResident, DecodeNonResident, Field;
  }

  lemma NameIsLocal(data: Bytes, offset: nat, length: nat)
    requires length >= 24 && offset + length <= |data|
    ensures DecodeName(data, offset, length) == DecodeName(data[offset..offset + length], 0, length)
  {
    hide Field, Utf16;
    FieldIsLocal(data, offset, length, 10, 2);
    var n: nat, at := data[offset + 9], Field(data, offset, 10, 2);
    if at + 2 * n <= length {
      SliceOfSlice(data, offset, length, at, at + 2 * n);
    }
  }

  lemma BodyIsLocal(data: Bytes, offset: nat, length: nat)
    requires length >= 24 && offset + length <= |data|
    ensures forall t ::
              DecodeResident(data, offset, length, t) == DecodeResident(data[offset..offset + length], 0, length, t)
    ensures DecodeNonResident(data, offset, length) == DecodeNonResident(data[offset..offset + length], 0, length)
  {
    hide Field, DecodeRuns, DecodeValue;
    FieldIsLocal(data, offset, length, 16, 4);
    FieldIsLocal(data, offset, length, 20, 2);
    var n, at := Field(data, offset, 16, 4), Field(data, offset, 20, 2);
    if at + n <= length {
      SliceOfSlice(data, offset, length, at, at + n);
    }
    if length >= 64 {
      FieldIsLocal(data, offset, length, 32, 2);
      FieldIsLocal(data, offset, length, 16, 8);
      FieldIsLocal(data, offset, length, 24, 8);
      FieldIsLocal(data, offset, length, 40, 8);
      FieldIsLocal(data, offset, length, 48, 8);
      FieldIsLocal(data, offset, length, 56, 8);
      var runs := Field(data, offset, 32, 2);
      if runs < length {
        SliceOfSlice(data, offset, length, runs, length);
      }
    }
  }

  /** The loop of _attributes, over the record in place. */
  method ReadAttributes(record: Bytes, first: nat, used: nat)
      returns (r: Result<seq<Attribute>>, warnings: seq<Warning>)
    requires first <= used <= |record|
    ensures r == DecodeChain(record[first..used], 0)
    ensures r.Ok? ==> warnings == WarningsOf(r.value)
  {
    hide DecodeAttribute, Field;
    var attributes: seq<Attribute>;
    attributes, warnings := [], [];
    var offset := first;
    ExtendNone(DecodeChain(record[first..used], 0));
    while offset + 8 <= used
      invariant first <= offset <= used && |attributes| <= MAX_ATTRIBUTES
      invariant DecodeChain(record[first..used], 0)
             == Extend(attributes, DecodeChain(record[offset..used], |attributes|))
      invariant warnings == WarningsOf(attributes)
    {
      var typeCode := Field(record, offset, 0, 4);
      FieldIsLocal(record, offset, used - offset, 0, 4);
      if typeCode == TERMINATOR {
        assert attributes + [] == attributes;
        return Ok(attributes), warnings;
      }
      var length := Field(record, offset, 4, 4);
      FieldIsLocal(record, offset, used - offset, 4, 4);
      if length < 24 || offset + length > used {
        return Err(Structure), warnings;
      }
      AttributeAtHead(record, offset, used, length);
      var item := DecodeAttribute(record, offset, length);
      if item.Err? {
        return Err(item.fault), warnings;
      }
      ghost var done := attributes;
      attributes := attributes + [item.value];
      assert attributes[..|attributes| - 1] == done;
      warnings := warnings + BodyWarnings(item.value.body);
      if |attributes| > MAX_ATTRIBUTES {
        return Err(Structure), warnings;
      }
      offset := offset + length;
      ExtendOne(done, item.value, DecodeChain(record[offset..used], |attributes|));
    }
    return Err(Structure), warnings;
  }

  lemma AttributeAtHead(record: Bytes, offset: nat, used: nat, length: nat)
    requires 24 <= length && offset + length <= used <= |record|
    ensures DecodeAttribute(record[offset..used], 0, length) == DecodeAttribute(record, offset, length)
    ensures record[offset..used][length..] == record[offset + length..used]
  {
    hide DecodeAttribute;
    AttributeIsLocal(record, offset, length);
    AttributeIsLocal(record[offset..used], 0, length);
    assert record[offset..used][0..0 + length] == record[offset..offset + length];
  }

  lemma ExtendNone(r: Result<seq<Attribute>>)
    ensures Extend([], r) == r
  {
    if r.Ok? {
      assert [] + r.value == r.value;
    }
  }

  lemma ExtendOne(items: seq<Attribute>, item: Attribute, r: Result<seq<Attribute>>)
    ensures Extend(items + [item], r) == Extend(items, Extend([item], r))
  {
    if r.Ok? {
      assert items + [item] + r.value == items + ([item] + r.value);
    }
  }
}
