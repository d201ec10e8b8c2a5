/** What every scan keeps, and the one case in which a bad record is not contained. */
module MftScanProperties {
  import opened Wrappers
  import opened WindowsBinary
  import opened MftFixup
  import opened MftAttributes
  import opened MftRecord
  import opened MftScan

  /** The contract every parser result is validated against. */
  predicate StatusContract(r: ParserResult) {
    && (r.status == Completed ==> |r.warnings| == 0 && |r.errors| == 0)
    && (r.status == CompletedWithWarnings ==> |r.warnings| > 0 && |r.errors| == 0)
    && (r.status == Failed || r.status == Unsupported ==> |r.errors| > 0 && |r.records| == 0)
  }

  lemma EveryResultMeetsContract(source: Bytes)
    requires Parse(source).Returned?
    ensures StatusContract(Parse(source).result)
    ensures Parse(source).result.status in {Completed, CompletedWithWarnings} ==> |Parse(source).result.records| > 0
  {
    hide LayoutOf, Slots, RecordsOf, WarningsUpTo;
  }

  // ----- conservation

  function CountIf(slots: seq<Slot>, p: Slot -> bool): nat {
    if |slots| == 0 then 0 else CountIf(slots[..|slots| - 1], p) + if p(slots[|slots| - 1]) then 1 else 0
  }

  lemma {:induction false} CountsSplit(slots: seq<Slot>)
    requires NoneEscaped(slots)
    ensures CountIf(slots, (s: Slot) => s.Zeroed?) + CountIf(slots, (s: Slot) => s.BadSignature?)
          + CountIf(slots, (s: Slot) => s.Rejected?) + CountIf(slots, (s: Slot) => s.Parsed?) == |slots|
    ensures |RecordsOf(slots)| == CountIf(slots, (s: Slot) => s.Parsed?)
  {
    if |slots| > 0 {
      CountsSplit(slots[..|slots| - 1]);
      assert slots[|slots| - 1] != Escaped;
    }
  }

  /** How many warnings the parsed records carry themselves. */
  function RecordWarnings(slots: seq<Slot>): nat {
    if |slots| == 0 then 0
    else
      var last := slots[|slots| - 1];
      RecordWarnings(slots[..|slots| - 1]) + if last.Parsed? then |WarningsOf(last.record.attributes)| else 0
  }

  /** One warning for each wrongly signed or rejected slot, besides the parsed records' own; zeroed slots cost none. */
  lemma {:induction false} WarningsCount(slots: seq<Slot>, layout: Layout)
    ensures |WarningsUpTo(slots, layout)|
         == CountIf(slots, (s: Slot) => s.BadSignature?) + CountIf(slots, (s: Slot) => s.Rejected?)
            + RecordWarnings(slots)
  {
    hide WarningsOf;
    if |slots| > 0 {
      WarningsCount(slots[..|slots| - 1], layout);
    }
  }

  /** In a stream the slots number exactly the whole records, and each is accounted for once. */
  lemma StreamConservation(source: Bytes, layout: Layout)
    requires LayoutOf(source) == Laid(layout) && layout.limit.None? && Parse(source).Returned?
    ensures var slots := Slots(source, layout);
      && |slots| == |source| / layout.recordSize
      && CountIf(slots, (s: Slot) => s.Zeroed?) + CountIf(slots, (s: Slot) => s.BadSignature?)
         + CountIf(slots, (s: Slot) => s.Rejected?) + |RecordsOf(slots)| == |slots|
  {
    LayoutFacts(source);
    hide RecordsOf, CountIf, LayoutOf, WarningsUpTo;
    assert NoneEscaped(Slots(source, layout));
    hide Parse, Slots;
    CountsSplit(Slots(source, layout));
  }

  // ----- identifiers

  lemma ParsedCarriesOffset(source: Bytes, layout: Layout, k: nat)
    requires layout.recordSize >= 512 && k < |Slots(source, layout)| && Slots(source, layout)[k].Parsed?
    ensures Slots(source, layout)[k].record.offset == OffsetOf(layout, k)
  {
    hide Fixup, Field, ChainOf, HeaderInBounds, StandardOf, FileNamesOf, SlotCount;
    SlotFits(|source|, layout, k);
  }

  /** The slots that parsed, in order: records come out in slot order, one for each. */
  ghost predicate Origins(slots: seq<Slot>, ks: seq<nat>) {
    && |ks| == |RecordsOf(slots)|
    && (forall i :: 0 <= i < |ks| ==>
          ks[i] < |slots| && slots[ks[i]].Parsed? && RecordsOf(slots)[i] == MftRecord(slots[ks[i]].record))
    && (forall i, j :: 0 <= i < j < |ks| ==> ks[i] < ks[j])
    && (forall k :: 0 <= k < |slots| && slots[k].Parsed? ==> k in ks)
  }

  lemma {:induction false} RecordsHaveOrigins(slots: seq<Slot>) returns (ks: seq<nat>)
    ensures Origins(slots, ks)
  {
    if |slots| == 0 {
      ks := [];
    } else {
      var n := |slots| - 1;
      ks := RecordsHaveOrigins(slots[..n]);
      if slots[n].Parsed? {
        ks := ks + [n];
      }
    }
  }

  /** Record offsets strictly increase by whole records, so "mft:number@offset" never repeats. */
  lemma OffsetsIncrease(source: Bytes, layout: Layout, i: nat, j: nat)
    requires LayoutOf(source) == Laid(layout) && i < j < |RecordsOf(Slots(source, layout))|
    ensures var records := RecordsOf(Slots(source, layout));
      && records[i].MftRecord? && records[j].MftRecord?
      && layout.first <= records[i].record.offset
      && records[i].record.offset + layout.recordSize <= records[j].record.offset
      && (records[i].record.offset - layout.first) % layout.recordSize == 0
      && (records[j].record.offset - layout.first) % layout.recordSize == 0
      && (layout.limit.None? ==>
            records[i].record.offset % layout.recordSize == 0 && records[j].record.offset % layout.recordSize == 0)
  {
    hide Slots, RecordsOf, OffsetOf, LayoutOf;
    LayoutFacts(source);
    var slots := Slots(source, layout);
    var ks := RecordsHaveOrigins(slots);
    ParsedCarriesOffset(source, layout, ks[i]);
    ParsedCarriesOffset(source, layout, ks[j]);
    OffsetIsWhole(layout, ks[i]);
    OffsetIsWhole(layout, ks[j]);
    OffsetGap(layout, ks[i], ks[j]);
  }

  lemma OffsetIsWhole(layout: Layout, k: nat)
    requires layout.recordSize > 0
    ensures layout.first <= OffsetOf(layout, k) && (OffsetOf(layout, k) - layout.first) % layout.recordSize == 0
  {
    ExactQuotient(k, layout.recordSize);
  }

  lemma OffsetGap(layout: Layout, a: nat, b: nat)
    requires a < b && layout.recordSize > 0
    ensures OffsetOf(layout, a) + layout.recordSize <= OffsetOf(layout, b)
  {
    MulMonotone(a + 1, b, layout.recordSize);
    assert (a + 1) * layout.recordSize == a * layout.recordSize + layout.recordSize;
  }

  // ----- trailing bytes

  lemma {:induction false} SlotsNeverWarnOfTrailing(slots: seq<Slot>, layout: Layout)
    ensures TrailingBytes !in WarningsUpTo(slots, layout)
  {
    hide WarningsOf;
    if |slots| > 0 {
      SlotsNeverWarnOfTrailing(slots[..|slots| - 1], layout);
    }
  }

  /** The trailing-bytes warning appears exactly when a stream leaves a remainder and something parsed. */
  lemma TrailingWarningIff(source: Bytes, layout: Layout)
    requires LayoutOf(source) == Laid(layout) && Parse(source).Returned?
    ensures TrailingBytes in Parse(source).result.warnings
       <==> layout.limit.None? && |source| % layout.recordSize != 0 && |RecordsOf(Slots(source, layout))| > 0
  {
    hide LayoutOf, Slots, RecordsOf, WarningsUpTo;
    SlotsNeverWarnOfTrailing(Slots(source, layout), layout);
    assert layout.limit.None? ==> layout.first == 0 by { LayoutFacts(source); }
  }

  lemma LayoutFacts(source: Bytes)
    requires LayoutOf(source).Laid?
    ensures 512 <= LayoutOf(source).layout.recordSize <= MAX_RECORD_SIZE
    ensures LayoutOf(source).layout.limit.None? ==> LayoutOf(source).layout.first == 0
  {
  }

  // ----- the exception that is not contained

  /** A slot whose attributes decode but lack a "parsed" entry that is read unconditionally. */
  ghost predicate Poisoned(raw: Bytes, sectorSize: nat) {
    && |raw| >= 512 && raw[..4] == FILE_SIGNATURE && Fixup(raw, Some(sectorSize)).Ok?
    && |Fixup(raw, Some(sectorSize)).value| >= 48
    && var fixed := Fixup(raw, Some(sectorSize)).value;
       HeaderInBounds(fixed) && ChainOf(fixed).Ok? && LacksParsed(ChainOf(fixed).value)
  }

  lemma EscapesIffPoisoned(raw: Bytes, sectorSize: nat, offset: nat)
    requires |raw| >= 512
    ensures Classify(raw, sectorSize, offset) == Escaped <==> Poisoned(raw, sectorSize)
  {
    FixupFaultIsRecoverable(raw, Some(sectorSize));
    if Fixup(raw, Some(sectorSize)).Ok? {
      KeyErrorIff(Fixup(raw, Some(sectorSize)).value, offset);
    }
    hide Fixup, DecodeRecord, ChainOf, HeaderInBounds, LacksParsed;
  }

  ghost predicate PoisonedSlot(source: Bytes, layout: Layout, k: nat) {
    && OffsetOf(layout, k) + layout.recordSize <= |source|
    && Poisoned(source[OffsetOf(layout, k)..OffsetOf(layout, k) + layout.recordSize], layout.sectorSize)
  }

  /**
   Parsing raises exactly when some slot is poisoned; otherwise it returns a result.  So one
   record decides the fate of all, where every other kind of bad record costs one warning.
   */
  lemma ParseRaisesIff(source: Bytes)
    ensures Parse(source) == KeyErrorRaised
       <==> LayoutOf(source).Laid? && exists k: nat ::
              k < SlotCount(|source|, LayoutOf(source).layout) && PoisonedSlot(source, LayoutOf(source).layout, k)
  {
    hide LayoutOf, PoisonedSlot, SlotCount, SlotAt;
    if LayoutOf(source).Laid? {
      var layout := LayoutOf(source).layout;
      LayoutFacts(source);
      var slots := Slots(source, layout);
      forall k: nat | k < |slots|
        ensures slots[k] == Escaped <==> PoisonedSlot(source, layout, k)
      {
        SlotEscapesIff(source, layout, k);
      }
    }
  }

  lemma SlotIs(source: Bytes, layout: Layout, k: nat)
    requires layout.recordSize >= 512 && k < |Slots(source, layout)|
    ensures OffsetOf(layout, k) + layout.recordSize <= |source| && Slots(source, layout)[k] == SlotAt(source, layout, k)
  {
    hide Classify, SlotAt;
    SlotFits(|source|, layout, k);
  }

  lemma SlotEscapesIff(source: Bytes, layout: Layout, k: nat)
    requires layout.recordSize >= 512 && k < |Slots(source, layout)|
    ensures Slots(source, layout)[k] == Escaped <==> PoisonedSlot(source, layout, k)
  {
    hide Classify, Poisoned, SlotCount, OffsetOf, Slots;
    SlotIs(source, layout, k);
    var at := OffsetOf(layout, k);
    EscapesIffPoisoned(source[at..at + layout.recordSize], layout.sectorSize, at);
  }

  // ----- a concrete input on which the recovery fails

  /** A 512-byte record, one sector long: empty, or with a non-resident $STANDARD_INFORMATION. */
  function ExampleByte(i: nat, poisoned: bool): Byte {
    if i < 4 then FILE_SIGNATURE[i]
    else if i == 4 then 48           // update sequence array at 48
    else if i == 6 then 2            // one sector
    else if i == 20 then 56          // attributes from 56
    else if i == 24 then (if poisoned then 136 else 64)
    else if i == 29 then 2           // 512 bytes
    else if !poisoned then (if 56 <= i < 60 then 0xFF else 0)
    else if i == 56 then 0x10
    else if i == 60 then 72          // attribute length
    else if i == 64 then 1           // non-resident
    else if i == 88 then 64          // run list at 64 of the attribute
    else if 128 <= i < 132 then 0xFF
    else 0
  }

  function ExampleRecord(poisoned: bool): (r: Bytes)
    ensures |r| == 512
  {
    seq(512, i requires 0 <= i < 512 => ExampleByte(i, poisoned))
  }

  lemma FieldOfTwo(data: Bytes, offset: nat, k: nat)
    requires offset + k + 2 <= |data|
    ensures Field(data, offset, k, 2) == data[offset + k] + 256 * (data[offset + k + 1] as nat)
  {
    var bs := data[offset + k..offset + k + 2];
    assert Le(bs[1..]) == bs[1] + 256 * Le(bs[1..][1..]);
  }

  lemma FieldOfFour(data: Bytes, offset: nat, k: nat)
    requires offset + k + 4 <= |data|
    ensures Field(data, offset, k, 4) == Field(data, offset, k, 2) + 65536 * Field(data, offset, k + 2, 2)
  {
    FieldOfTwo(data, offset, k);
    FieldOfTwo(data, offset, k + 2);
    var bs := data[offset + k..offset + k + 4];
    assert Le(bs) == bs[0] + 256 * Le(bs[1..]);
    assert Le(bs[1..]) == bs[1] + 256 * Le(bs[1..][1..]);
    assert bs[1..][1..] == data[offset + k + 2..offset + k + 4];
  }

  lemma ExampleFixup(poisoned: bool)
    ensures Fixup(ExampleRecord(poisoned), Some(512)) == Ok(ExampleRecord(poisoned))
  {
    var r, g := ExampleRecord(poisoned), Geometry(48, 1, 512);
    ExampleGeometry(poisoned);
    hide Field, ReadGeometry;
    assert Restored(r, g) == r;
  }

  lemma ExampleGeometry(poisoned: bool)
    ensures ReadGeometry(ExampleRecord(poisoned), Some(512)) == Ok(Geometry(48, 1, 512))
  {
    var r := ExampleRecord(poisoned);
    FieldOfTwo(r, 0, 4);
    FieldOfTwo(r, 0, 6);
    assert r[4] == 48 && r[5] == 0 && r[6] == 2 && r[7] == 0;
    hide Field, ExampleRecord;
  }

  lemma ExampleHeader(poisoned: bool)
    ensures HeaderInBounds(ExampleRecord(poisoned))
    ensures Field(ExampleRecord(poisoned), 0, 20, 2) == 56
    ensures Field(ExampleRecord(poisoned), 0, 24, 4) == if poisoned then 136 else 64
    ensures Field(ExampleRecord(poisoned), 0, 28, 4) == 512
    ensures Field(ExampleRecord(poisoned), 0, 6, 2) == 2
  {
    var r := ExampleRecord(poisoned);
    hide Field;
    FieldOfTwo(r, 0, 6);
    FieldOfTwo(r, 0, 20);
    FieldOfTwo(r, 0, 24);
    FieldOfTwo(r, 0, 26);
    FieldOfTwo(r, 0, 28);
    FieldOfTwo(r, 0, 30);
    FieldOfFour(r, 0, 24);
    FieldOfFour(r, 0, 28);
  }

  lemma EndMarkerAt(r: Bytes, offset: nat, used: nat, seen: nat)
    requires offset + 8 <= used <= |r| && forall i :: offset <= i < offset + 4 ==> r[i] == 0xFF
    ensures DecodeChain(r[offset..used], seen) == Ok([])
  {
    var data := r[offset..used];
    FieldOfTwo(data, 0, 0);
    FieldOfTwo(data, 0, 2);
    FieldOfFour(data, 0, 0);
    hide Field;
  }

  lemma ExampleEmptyChain()
    ensures HeaderInBounds(ExampleRecord(false)) && ChainOf(ExampleRecord(false)) == Ok([])
  {
    ExampleHeader(false);
    hide Field;
    EndMarkerAt(ExampleRecord(false), 56, 64, 0);
  }

  lemma ExamplePoisonedAttribute()
    ensures DecodeAttribute(ExampleRecord(true), 56, 72).Ok?
    ensures DecodeAttribute(ExampleRecord(true), 56, 72).value.typeCode == STANDARD_INFORMATION
    ensures DecodeAttribute(ExampleRecord(true), 56, 72).value.body.NonResident?
  {
    var r := ExampleRecord(true);
    hide Field;
    FieldOfTwo(r, 56, 0);
    FieldOfTwo(r, 56, 2);
    FieldOfFour(r, 56, 0);
    FieldOfTwo(r, 56, 32);
  }

  lemma ExamplePoisonedHead()
    ensures var data := ExampleRecord(true)[56..136];
      Field(data, 0, 0, 4) == STANDARD_INFORMATION && Field(data, 0, 4, 4) == 72
  {
    hide Field, ExampleByte;
    var r := ExampleRecord(true);
    PoisonedType(r);
    PoisonedLength(r);
    hide ExampleRecord;
    FieldIsLocal(r, 56, 80, 0, 4);
    FieldIsLocal(r, 56, 80, 4, 4);
  }

  lemma PoisonedType(r: Bytes)
    requires r == ExampleRecord(true)
    ensures Field(r, 56, 0, 4) == STANDARD_INFORMATION
  {
    hide Field;
    FieldOfTwo(r, 56, 0);
    FieldOfTwo(r, 56, 2);
    FieldOfFour(r, 56, 0);
  }

  lemma PoisonedLength(r: Bytes)
    requires r == ExampleRecord(true)
    ensures Field(r, 56, 4, 4) == 72
  {
    hide Field;
    FieldOfTwo(r, 56, 4);
    FieldOfTwo(r, 56, 6);
    FieldOfFour(r, 56, 4);
  }

  lemma ExamplePoisonedTail()
    ensures DecodeChain(ExampleRecord(true)[128..136], 1) == Ok([])
  {
    EndMarkerAt(ExampleRecord(true), 128, 136, 1);
  }

  lemma ExamplePoisonedChain()
    ensures HeaderInBounds(ExampleRecord(true)) && ChainOf(ExampleRecord(true)).Ok?
    ensures LacksParsed(ChainOf(ExampleRecord(true)).value)
  {
    hide Field, DecodeAttribute, ExampleByte, DecodeChain, HeaderInBounds;
    var r := ExampleRecord(true);
    ExampleHeader(true);
    ExamplePoisonedHead();
    ExamplePoisonedAttribute();
    AttributeAtHead(r, 56, 136, 72);
    ExamplePoisonedTail();
    var items := [DecodeAttribute(r, 56, 72).value];
    ChainStep(r[56..136], 0, items[0]);
    assert items + [] == items;
    assert LacksStandard(items, 0);
  }

  lemma ExampleLayout(source: Bytes)
    requires |source| >= 512 && source[..512] == ExampleRecord(false)
    ensures LayoutOf(source) == Laid(Layout(0, 512, 512, None, None))
  {
    ExampleHeader(false);
    var r := ExampleRecord(false);
    assert |source| == 512 ==> source == source[..512];
    assert r[..4] == FILE_SIGNATURE;
    assert r[3..11][0] == r[3];
    hide Field;
  }

  lemma ExampleSlots()
    ensures Slots(ExampleRecord(false), Layout(0, 512, 512, None, None))
         == [SlotAt(ExampleRecord(false), Layout(0, 512, 512, None, None), 0)]
    ensures SlotAt(ExampleRecord(false), Layout(0, 512, 512, None, None), 0).Parsed?
  {
    hide Classify, ExampleByte;
    var r, layout := ExampleRecord(false), Layout(0, 512, 512, None, None);
    ExampleClassifies(false, 0);
    assert SlotAt(r, layout, 0) == Classify(r, 512, 0) by { assert r[0..512] == r; }
    assert SlotCount(512, layout) == 1;
    SlotIs(r, layout, 0);
    hide Slots, SlotAt, SlotCount, ExampleRecord;
  }

  lemma ExampleClassifies(poisoned: bool, offset: nat)
    ensures var slot := Classify(ExampleRecord(poisoned), 512, offset); if poisoned then slot.Escaped? else slot.Parsed?
  {
    var r := ExampleRecord(poisoned);
    assert r[..4] == FILE_SIGNATURE;
    ExampleFixup(poisoned);
    ExampleHeader(poisoned);
    if poisoned {
      ExamplePoisonedChain();
      EscapesIffPoisoned(r, 512, offset);
    } else {
      ExampleEmptyChain();
    }
    hide Field, Fixup, ChainOf;
  }

  /**
   The partial-parsing promise fails: a good record alone is returned, and the same record
   followed by one with a non-resident $STANDARD_INFORMATION is lost with the whole parse.
   */
  lemma OneBadRecordLosesAll()
    ensures Parse(ExampleRecord(false)).Returned?
    ensures |Parse(ExampleRecord(false)).result.records| == 1
    ensures Parse(ExampleRecord(false) + ExampleRecord(true)) == KeyErrorRaised
  {
    hide ExampleByte, LayoutOf, Slots, Field, SlotAt, Fixup, ChainOf, LacksParsed, HeaderInBounds, Restored;
    var one, two := ExampleRecord(false), ExampleRecord(false) + ExampleRecord(true);
    var layout := Layout(0, 512, 512, None, None);
    assert one[..512] == one && two[..512] == one;
    ExampleLayout(one);
    ExampleLayout(two);
    ExampleSlots();
    ExampleConcludes(SlotAt(one, layout, 0));
    ExamplePoisons(two);
    ParseRaisesIff(two);
  }

  lemma ExamplePoisons(two: Bytes)
    requires two == ExampleRecord(false) + ExampleRecord(true)
    ensures PoisonedSlot(two, Layout(0, 512, 512, None, None), 1)
  {
    hide Field, Fixup, ChainOf, LacksParsed, HeaderInBounds, Restored;
    ExamplePoisonedChain();
    ExampleFixup(true);
    assert ExampleRecord(true)[..4] == FILE_SIGNATURE;
    assert two[512..1024] == ExampleRecord(true);
  }

  lemma ExampleConcludes(slot: Slot)
    requires slot.Parsed?
    ensures var layout := Layout(0, 512, 512, None, None); |Conclude(layout, [slot], 512).records| == 1
    ensures NoneEscaped([slot])
  {
    hide WarningsUpTo, Trailing, OffsetOf;
    OneSlotRecords(slot);
    hide RecordsOf;
  }

  lemma OneSlotRecords(slot: Slot)
    requires slot.Parsed?
    ensures RecordsOf([slot]) == [MftScan.MftRecord(slot.record)]
  {
    assert [slot][..0] == [];
    assert RecordsOf([slot][..0]) == [];
  }
}
