/** One MFT record: header checks, attributes, and the parts the timeline reads. */
module MftRecord {
  import opened Wrappers
  import opened WindowsBinary
  import opened DataRuns
  import opened MftFixup
  import opened MftAttributes
  import opened MftFormat

  datatype FileRecord = FileRecord(
    number: nat, sequence: nat, hardLinks: nat, flags: nat, baseRecord: Reference, usedSize: nat, allocatedSize: nat,
    standard: Option<Value>, fileNames: seq<Value>, attributes: seq<Attribute>, offset: nat)

  /** The parsed value of the first $STANDARD_INFORMATION; a non-resident one has no such key. */
  function StandardOf(items: seq<Attribute>): Result<Option<Value>> {
    if |items| == 0 then Ok(None)
    else if items[0].typeCode != STANDARD_INFORMATION then StandardOf(items[1..])
    else if items[0].body.Resident? then Ok(Some(items[0].body.value))
    else Err(MissingKey)
  }

  /** The parsed values of all $FILE_NAME attributes. */
  function FileNamesOf(items: seq<Attribute>): Result<seq<Value>> {
    if |items| == 0 then Ok([])
    else if items[0].typeCode != FILE_NAME then FileNamesOf(items[1..])
    else if items[0].body.NonResident? then Err(MissingKey)
    else
      var rest :- FileNamesOf(items[1..]);
      Ok([items[0].body.value] + rest)
  }

  predicate HeaderInBounds(record: Bytes)
    requires |record| >= 48
  {
    48 <= Field(record, 0, 20, 2) < Field(record, 0, 24, 4) <= |record|
  }

  function ChainOf(record: Bytes): Result<seq<Attribute>>
    requires |record| >= 48 && HeaderInBounds(record)
  {
    DecodeChain(record[Field(record, 0, 20, 2)..Field(record, 0, 24, 4)], 0)
  }

  /** The specification of _record, on a record whose fixup has been applied. */
  function DecodeRecord(record: Bytes, offset: nat): Result<FileRecord>
    requires |record| >= 48
  {
    if !HeaderInBounds(record) then Err(Structure)
    else
      var items :- ChainOf(record);
      var standard :- StandardOf(items);
      var fileNames :- FileNamesOf(items);
      Ok(FileRecord(Field(record, 0, 44, 4), Field(record, 0, 16, 2), Field(record, 0, 18, 2), Field(record, 0, 22, 2),
                    DecodeReference(Field(record, 0, 32, 8)), Field(record, 0, 24, 4), Field(record, 0, 28, 4),
                    standard, fileNames, items, offset))
  }

  method ReadRecord(record: Bytes, offset: nat) returns (r: Result<FileRecord>, warnings: seq<Warning>)
    requires |record| >= 48
    ensures r == DecodeRecord(record, offset)
    ensures r.Ok? ==> warnings == WarningsOf(r.value.attributes)
  {
    hide Field, DecodeChain;
    var first, used := Field(record, 0, 20, 2), Field(record, 0, 24, 4);
    if first < 48 || used > |record| || first >= used {
      return Err(Structure), [];
    }
    var items;
    items, warnings := ReadAttributes(record, first, used);
    if items.Err? {
      return Err(items.fault), warnings;
    }
    var standard, fileNames := StandardOf(items.value), FileNamesOf(items.value);
    if standard.Err? {
      return Err(standard.fault), warnings;
    }
    if fileNames.Err? {
      return Err(fileNames.fault), warnings;
    }
    r := Ok(FileRecord(
      Field(record, 0, 44, 4), Field(record, 0, 16, 2), Field(record, 0, 18, 2), Field(record, 0, 22, 2),
      DecodeReference(Field(record, 0, 32, 8)), used, Field(record, 0, 28, 4),
      standard.value, fileNames.value, items.value, offset));
  }

  // ----- when a KeyError escapes

  predicate LacksStandard(items: seq<Attribute>, i: nat) {
    && i < |items| && items[i].typeCode == 0x10 && items[i].body.NonResident?
    && forall j :: 0 <= j < i ==> items[j].typeCode != 0x10
  }

  predicate LacksFileName(items: seq<Attribute>, i: nat) {
    i < |items| && items[i].typeCode == 0x30 && items[i].body.NonResident?
  }

  /** Some attribute whose "parsed" entry is read was not resident, so has none. */
  ghost predicate LacksParsed(items: seq<Attribute>) {
    exists i: nat :: LacksStandard(items, i) || LacksFileName(items, i)
  }

  lemma {:induction false} StandardLacking(items: seq<Attribute>)
    ensures StandardOf(items).Err? ==> StandardOf(items).fault == MissingKey
    ensures StandardOf(items).Err? <==> exists i: nat :: LacksStandard(items, i)
  {
    if |items| > 0 {
      var rest := items[1..];
      StandardLacking(rest);
      if items[0].typeCode == STANDARD_INFORMATION {
        assert items[0].body.NonResident? ==> LacksStandard(items, 0);
      } else {
        assert forall i: nat :: LacksStandard(items, i) ==> i > 0 && LacksStandard(rest, i - 1);
        assert forall i: nat :: LacksStandard(rest, i) ==> LacksStandard(items, i + 1);
      }
    }
  }

  lemma {:induction false} FileNameLacking(items: seq<Attribute>)
    ensures FileNamesOf(items).Err? ==> FileNamesOf(items).fault == MissingKey
    ensures FileNamesOf(items).Err? <==> exists i: nat :: LacksFileName(items, i)
  {
    if |items| > 0 {
      var rest := items[1..];
      FileNameLacking(rest);
      assert forall i: nat :: LacksFileName(items, i) ==> i == 0 || LacksFileName(rest, i - 1);
      assert forall i: nat :: LacksFileName(rest, i) ==> LacksFileName(items, i + 1);
      assert items[0].typeCode == FILE_NAME && items[0].body.NonResident? ==> LacksFileName(items, 0);
    }
  }

  /** The attribute decoder itself raises only the two faults the scan recovers from. */
  lemma {:induction false} ChainFaultIsRecoverable(data: Bytes, seen: nat)
    ensures DecodeChain(data, seen) != Err(MissingKey)
    decreases |data|
  {
    hide Field, Le;
    if |data| >= 8 && Field(data, 0, 0, 4) != TERMINATOR {
      var length := Field(data, 0, 4, 4);
      if 24 <= length <= |data| {
        AttributeFaultIsRecoverable(data, length);
        ChainFaultIsRecoverable(data[length..], seen + 1);
      }
    }
  }

  lemma AttributeFaultIsRecoverable(data: Bytes, length: nat)
    requires 24 <= length <= |data|
    ensures DecodeAttribute(data, 0, length) != Err(MissingKey)
  {
    hide Field, DecodeRuns;
    if length >= 64 {
      var at := Field(data, 0, 32, 2);
      if at < length {
        RunFaultIsRecoverable(data[0 + at..0 + length], 0, 0);
      }
    }
  }

  lemma {:induction false} RunFaultIsRecoverable(data: Bytes, lcn: int, seen: nat)
    ensures DecodeRuns(data, lcn, seen) != Err(MissingKey)
    decreases |data|
  {
    hide Le, LeSigned;
    if |data| > 0 && data[0] != 0 && ReadHead(data).Ok? {
      var head := ReadHead(data).value;
      RunFaultIsRecoverable(data[head.size..], Advance(lcn, head.delta), seen + 1);
    }
  }

  /** The exact condition under which decoding a record raises a KeyError. */
  lemma KeyErrorIff(record: Bytes, offset: nat)
    requires |record| >= 48
    ensures DecodeRecord(record, offset) == Err(MissingKey)
       <==> HeaderInBounds(record) && ChainOf(record).Ok? && LacksParsed(ChainOf(record).value)
  {
    hide Field, DecodeChain;
    if HeaderInBounds(record) {
      ChainFaultIsRecoverable(record[Field(record, 0, 20, 2)..Field(record, 0, 24, 4)], 0);
      if ChainOf(record).Ok? {
        StandardLacking(ChainOf(record).value);
        FileNameLacking(ChainOf(record).value);
      }
    }
  }

  // ----- from sources to bytes and back

  /** The USA has no byte in [low, high). */
  predicate UsaOutside(g: Geometry, low: nat, high: nat) {
    high <= g.usaOffset || g.usaOffset + 2 + 2 * g.sectors <= low
  }

  /** A record before protection: geometry header, the USA apart from what is decoded, and the chain. */
  ghost predicate PlainRecord(plain: Bytes, g: Geometry, first: nat, used: nat,
                              cells: seq<Bytes>, xs: seq<Source>, ps: seq<Placement>, rest: Bytes) {
    && Sound(g, |plain|) && Separate(g) && Announces(plain, g)
    && UsaOutside(g, 20, 28) && UsaOutside(g, first, used)
    && 48 <= first < used <= |plain| && Holds(plain, 20, 2, first) && Holds(plain, 24, 4, used)
    && AllStored(cells, xs, ps) && ClosesChain(rest) && |xs| <= 1024
    && plain[first..used] == Concat(cells) + rest
  }

  /**
   Storing any attributes, protecting the sectors with any sequence number, applying the fixup
   and decoding returns exactly the stored attributes.
   */
  lemma RecordRoundTrip(plain: Bytes, g: Geometry, tag: (Byte, Byte), first: nat, used: nat,
                        cells: seq<Bytes>, xs: seq<Source>, ps: seq<Placement>, rest: Bytes)
    requires PlainRecord(plain, g, first, used, cells, xs, ps, rest)
    ensures Fixup(Protect(plain, g, tag), Some(g.sectorSize)).Ok?
    ensures var fixed := Fixup(Protect(plain, g, tag), Some(g.sectorSize)).value;
      |fixed| == |plain| && HeaderInBounds(fixed) && ChainOf(fixed) == Ok(AttributesOf(xs))
  {
    hide Field, DecodeChain, Fixup, Protect, Concat, AllStored, Separate, AttributesOf, ClosesChain;
    FixupUndoesProtect(plain, g, tag, Some(g.sectorSize));
    var fixed := Fixup(Protect(plain, g, tag), Some(g.sectorSize)).value;
    assert fixed[20..22] == plain[20..22] && fixed[24..28] == plain[24..28];
    assert Holds(fixed, 20, 2, first) && Holds(fixed, 24, 4, used);
    FieldIsHeld(fixed, 20, 2, first);
    FieldIsHeld(fixed, 24, 4, used);
    assert fixed[first..used] == plain[first..used];
    ChainDecodes(cells, xs, ps, rest, 0);
  }

  /** Every accepted record arises this way: its attribute area is a stored chain. */
  lemma DecodedRecordWasStored(record: Bytes, offset: nat)
      returns (cells: seq<Bytes>, xs: seq<Source>, ps: seq<Placement>, rest: Bytes)
    requires |record| >= 48 && DecodeRecord(record, offset).Ok?
    ensures AllStored(cells, xs, ps) && |xs| <= 1024 && ClosesChain(rest)
    ensures record[Field(record, 0, 20, 2)..Field(record, 0, 24, 4)] == Concat(cells) + rest
    ensures DecodeRecord(record, offset).value.attributes == AttributesOf(xs)
  {
    hide Field, DecodeChain, Concat, AllStored, ClosesChain;
    cells, xs, ps, rest := ChainWasStored(record[Field(record, 0, 20, 2)..Field(record, 0, 24, 4)], 0);
  }
}
