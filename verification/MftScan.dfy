/** Locating the MFT, and the scan over its fixed-size slots with per-record recovery. */
module MftScan {
  import opened Wrappers
  import opened WindowsBinary
  import opened MftFixup
  import opened MftAttributes
  import opened MftRecord

  const MAX_RECORD_SIZE: nat := 65536
  const FILE_SIGNATURE: Bytes := [0x46, 0x49, 0x4C, 0x45]
  const NTFS_SIGNATURE: Bytes := [0x4E, 0x54, 0x46, 0x53, 0x20, 0x20, 0x20, 0x20]

  // ----- layout

  datatype Boot = Boot(bytesPerSector: nat, sectorsPerCluster: nat, mftCluster: nat, recordSize: nat, serial: nat)

  /** A volume has a boot record and a limit of one slot; a stream has neither. */
  datatype Layout = Layout(first: nat, recordSize: nat, sectorSize: nat, limit: Option<nat>, boot: Option<Boot>)

  datatype LayoutResult = Laid(layout: Layout) | Refused(unsupported: bool)

  predicate PowerOfTwo(b: nat) {
    b == 1 || (b > 0 && b % 2 == 0 && PowerOfTwo(b / 2))
  }

  function Pow2(n: nat): (p: nat)
    ensures p > 0
  {
    if n == 0 then 1 else 2 * Pow2(n - 1)
  }

  function RecordSize(encoded: int, clusterSize: nat): int {
    if encoded < 0 then Pow2(-encoded) else encoded * clusterSize
  }

  function VolumeLayout(prefix: Bytes): LayoutResult
    requires |prefix| >= 72
  {
    var bytesPerSector, sectorsPerCluster: nat := Field(prefix, 0, 11, 2), prefix[13];
    if bytesPerSector < 256 || !PowerOfTwo(bytesPerSector) || !PowerOfTwo(sectorsPerCluster) then Refused(false)
    else
      var clusterSize := BytesIn(sectorsPerCluster, bytesPerSector);
      var recordSize := RecordSize(LeSigned(prefix[64..65]), clusterSize);
      if recordSize < 512 || recordSize > MAX_RECORD_SIZE || |prefix| < 80 then Refused(false)
      else
        var lcn := Field(prefix, 0, 48, 8);
        Laid(Layout(BytesIn(lcn, clusterSize), recordSize, bytesPerSector, Some(1),
                    Some(Boot(bytesPerSector, sectorsPerCluster, lcn, recordSize, Field(prefix, 0, 72, 8)))))
  }

  /** So many units of so many bytes. */
  function BytesIn(count: nat, unit: nat): nat {
    count * unit
  }

  function StreamLayout(prefix: Bytes): LayoutResult {
    if |prefix| < 32 then Refused(false)
    else
      var size, count := Field(prefix, 0, 28, 4), Field(prefix, 0, 6, 2);
      if size < 512 || size > MAX_RECORD_SIZE || count < 2 || size % (count - 1) != 0 then Refused(false)
      else Laid(Layout(0, size, size / (count - 1), None, None))
  }

  /** The specification of _layout. */
  function LayoutOf(source: Bytes): (r: LayoutResult)
    ensures r.Laid? ==> 512 <= r.layout.recordSize <= MAX_RECORD_SIZE
    ensures r.Laid? ==>
              (r.layout.limit.None? <==> r.layout.boot.None?) && (r.layout.limit.None? ==> r.layout.first == 0)
  {
    var prefix := if |source| < 512 then source else source[..512];
    if |prefix| >= 72 && prefix[3..11] == NTFS_SIGNATURE then VolumeLayout(prefix)
    else if |prefix| < 4 || prefix[..4] != FILE_SIGNATURE then Refused(true)
    else StreamLayout(prefix)
  }

  // ----- slots

  datatype Slot = Zeroed | BadSignature | Rejected(fault: Fault) | Parsed(record: FileRecord) | Escaped

  /** What one slot turns into; a KeyError is not among the exceptions the scan recovers from. */
  function Classify(raw: Bytes, sectorSize: nat, offset: nat): Slot
    requires |raw| >= 512
  {
    if raw[..4] == [0, 0, 0, 0] then Zeroed
    else if raw[..4] != FILE_SIGNATURE then BadSignature
    else
      var fixed := Fixup(raw, Some(sectorSize));
      if fixed.Err? then (if fixed.fault == MissingKey then Escaped else Rejected(fixed.fault))
      else if |fixed.value| < 48 then Rejected(Structure)
      else
        var record := DecodeRecord(fixed.value, offset);
        if record.Ok? then Parsed(record.value)
        else if record.fault == MissingKey then Escaped
        else Rejected(record.fault)
  }

  function SlotCount(size: nat, layout: Layout): (n: nat)
    requires layout.recordSize > 0
    ensures n == 0 || layout.first + n * layout.recordSize <= size
  {
    var room := if layout.first > size then 0 else (size - layout.first) / layout.recordSize;
    if layout.limit.Some? && layout.limit.value < room then
      assert layout.limit.value * layout.recordSize <= room * layout.recordSize;
      layout.limit.value
    else room
  }

  function OffsetOf(layout: Layout, k: nat): nat {
    layout.first + k * layout.recordSize
  }

  function SlotAt(source: Bytes, layout: Layout, k: nat): Slot
    requires layout.recordSize >= 512 && OffsetOf(layout, k) + layout.recordSize <= |source|
  {
    Classify(source[OffsetOf(layout, k)..OffsetOf(layout, k) + layout.recordSize], layout.sectorSize,
             OffsetOf(layout, k))
  }

  lemma SlotFits(size: nat, layout: Layout, k: nat)
    requires layout.recordSize > 0
    ensures (OffsetOf(layout, k) + layout.recordSize <= size && (layout.limit.Some? ==> k < layout.limit.value))
       <==> k < SlotCount(size, layout)
  {
    var n := layout.recordSize;
    if layout.first <= size {
      var room := (size - layout.first) / n;
      assert room * n <= size - layout.first < (room + 1) * n by {
        assert size - layout.first == room * n + (size - layout.first) % n;
      }
      MulMonotone(k + 1, room, n);
      MulMonotone(room + 1, k + 1, n);
      assert (k + 1) * n == k * n + n;
    }
  }

  function Slots(source: Bytes, layout: Layout): (slots: seq<Slot>)
    requires layout.recordSize >= 512
    ensures |slots| == SlotCount(|source|, layout)
  {
    seq(SlotCount(|source|, layout), k requires 0 <= k < SlotCount(|source|, layout) =>
      (SlotFits(|source|, layout, k); SlotAt(source, layout, k)))
  }

  // ----- results

  datatype ScanWarning =
    | NoSignature(offset: nat)
    | Skipped(offset: nat, fault: Fault)
    | InRecord(warning: Warning)
    | TrailingBytes

  datatype Record = BootRecord(boot: Boot) | MftRecord(record: FileRecord)

  datatype Status = Completed | CompletedWithWarnings | Failed | Unsupported

  datatype ParseError = UnsupportedInput | InvalidLayout | NoValidRecords

  datatype ParserResult = ParserResult(status: Status, records: seq<Record>, warnings: seq<ScanWarning>,
                                       errors: seq<ParseError>)

  /** A parse returns a result, or a KeyError leaves it. */
  datatype Outcome = Returned(result: ParserResult) | KeyErrorRaised

  function RecordsOf(slots: seq<Slot>): seq<Record> {
    if |slots| == 0 then []
    else RecordsOf(slots[..|slots| - 1])
         + (var last := slots[|slots| - 1]; if last.Parsed? then [MftRecord(last.record)] else [])
  }

  function Lift(ws: seq<Warning>): seq<ScanWarning> {
    seq(|ws|, i requires 0 <= i < |ws| => InRecord(ws[i]))
  }

  function SlotWarnings(slot: Slot, offset: nat): seq<ScanWarning> {
    match slot
    case Zeroed => []
    case BadSignature => [NoSignature(offset)]
    case Rejected(fault) => [Skipped(offset, fault)]
    case Parsed(record) => Lift(WarningsOf(record.attributes))
    case Escaped => []
  }

  function WarningsUpTo(slots: seq<Slot>, layout: Layout): seq<ScanWarning> {
    if |slots| == 0 then []
    else WarningsUpTo(slots[..|slots| - 1], layout) + SlotWarnings(slots[|slots| - 1], OffsetOf(layout, |slots| - 1))
  }

  predicate NoneEscaped(slots: seq<Slot>) {
    forall k :: 0 <= k < |slots| ==> slots[k] != Escaped
  }

  function BootRecords(layout: Layout): seq<Record> {
    if layout.boot.Some? then [BootRecord(layout.boot.value)] else []
  }

  function Trailing(layout: Layout, size: nat): seq<ScanWarning>
    requires layout.recordSize > 0
  {
    if layout.limit.None? && OffsetOf(layout, SlotCount(size, layout)) != size then [TrailingBytes] else []
  }

  function Conclude(layout: Layout, slots: seq<Slot>, size: nat): ParserResult
    requires layout.recordSize > 0
  {
    var warnings := WarningsUpTo(slots, layout) + Trailing(layout, size);
    if |RecordsOf(slots)| == 0 then ParserResult(Failed, [], [], [NoValidRecords])
    else ParserResult(if |warnings| > 0 then CompletedWithWarnings else Completed,
                      BootRecords(layout) + RecordsOf(slots), warnings, [])
  }

  /** The specification of parse. */
  function Parse(source: Bytes): Outcome {
    match LayoutOf(source)
    case Refused(unsupported) =>
      Returned(if unsupported then ParserResult(Unsupported, [], [], [UnsupportedInput])
               else ParserResult(Failed, [], [], [InvalidLayout]))
    case Laid(layout) =>
      var slots := Slots(source, layout);
      if NoneEscaped(slots) then Returned(Conclude(layout, slots, |source|)) else KeyErrorRaised
  }

  lemma FixupFaultIsRecoverable(raw: Bytes, sectorSize: Option<nat>)
    ensures Fixup(raw, sectorSize) != Err(MissingKey)
    ensures Fixup(raw, sectorSize).Ok? ==> |Fixup(raw, sectorSize).value| == |raw|
  {
  }

  lemma PrefixStart(slots: seq<Slot>, layout: Layout)
    ensures RecordsOf(slots[..0]) == [] && WarningsUpTo(slots[..0], layout) == [] && NoneEscaped(slots[..0])
  {
  }

  lemma PrefixStep(slots: seq<Slot>, layout: Layout, k: nat)
    requires k < |slots|
    ensures RecordsOf(slots[..k + 1])
         == RecordsOf(slots[..k]) + if slots[k].Parsed? then [MftRecord(slots[k].record)] else []
    ensures WarningsUpTo(slots[..k + 1], layout)
         == WarningsUpTo(slots[..k], layout) + SlotWarnings(slots[k], OffsetOf(layout, k))
    ensures NoneEscaped(slots[..k + 1]) <==> NoneEscaped(slots[..k]) && slots[k] != Escaped
    ensures NoneEscaped(slots) ==> slots[k] != Escaped
  {
    assert slots[..k + 1][..k] == slots[..k];
    assert slots[..k + 1][k] == slots[k];
    PrefixEscapes(slots, k);
    hide NoneEscaped;
  }

  lemma PrefixEscapes(slots: seq<Slot>, k: nat)
    requires k < |slots|
    ensures NoneEscaped(slots[..k + 1]) <==> NoneEscaped(slots[..k]) && slots[k] != Escaped
    ensures NoneEscaped(slots) ==> slots[k] != Escaped
  {
    assert slots[..k + 1] == slots[..k] + [slots[k]];
  }

  lemma OffsetStep(layout: Layout, k: nat)
    ensures OffsetOf(layout, 0) == layout.first
    ensures OffsetOf(layout, k + 1) == OffsetOf(layout, k) + layout.recordSize
  {
  }

  method Scan(source: Bytes) returns (o: Outcome)
    ensures o == Parse(source)
  {
    var located := LayoutOf(source);
    if located.Refused? {
      return Returned(if located.unsupported then ParserResult(Unsupported, [], [], [UnsupportedInput])
                      else ParserResult(Failed, [], [], [InvalidLayout]));
    }
    hide LayoutOf, Slots, SlotCount, RecordsOf, WarningsUpTo;
    var layout := located.layout;
    var escaped, records, warnings, offset := ScanSlots(source, layout);
    if escaped {
      return KeyErrorRaised;
    }
    if |records| == 0 {
      return Returned(ParserResult(Failed, [], [], [NoValidRecords]));
    }
    if layout.limit.None? && offset != |source| {
      warnings := warnings + [TrailingBytes];
    } else {
      assert warnings + [] == warnings;
    }
    return Returned(ParserResult(if |warnings| > 0 then CompletedWithWarnings else Completed,
                                 BootRecords(layout) + records, warnings, []));
  }

  /** The loop of parse: examines every slot in order until one raises. */
  method ScanSlots(source: Bytes, layout: Layout)
      returns (escaped: bool, records: seq<Record>, warnings: seq<ScanWarning>, offset: nat)
    requires layout.recordSize >= 512
    ensures escaped <==> !NoneEscaped(Slots(source, layout))
    ensures !escaped ==> records == RecordsOf(Slots(source, layout))
    ensures !escaped ==> warnings == WarningsUpTo(Slots(source, layout), layout)
    ensures !escaped ==> offset == OffsetOf(layout, SlotCount(|source|, layout))
  {
    hide SlotCount, Classify, RecordsOf, WarningsUpTo, SlotWarnings, OffsetOf, NoneEscaped;
    escaped, records, warnings, offset := false, [], [], layout.first;
    var examined := 0;
    ghost var slots := Slots(source, layout);
    PrefixStart(slots, layout);
    OffsetStep(layout, 0);
    while offset + layout.recordSize <= |source| && (layout.limit.None? || examined < layout.limit.value)
      invariant offset == OffsetOf(layout, examined) && examined <= |slots|
      invariant NoneEscaped(slots[..examined])
      invariant records == RecordsOf(slots[..examined])
      invariant warnings == WarningsUpTo(slots[..examined], layout)
      decreases |slots| - examined
    {
      SlotFits(|source|, layout, examined);
      OffsetStep(layout, examined);
      PrefixStep(slots, layout, examined);
      var slot := ReadSlot(source[offset..offset + layout.recordSize], layout.sectorSize, offset);
      assert slot == slots[examined];
      if slot.Escaped? {
        escaped := true;
        return;
      }
      if slot.Parsed? {
        records := records + [MftRecord(slot.record)];
      }
      warnings := warnings + SlotWarnings(slot, offset);
      offset := offset + layout.recordSize;
      examined := examined + 1;
    }
    SlotFits(|source|, layout, examined);
    assert slots[..examined] == slots;
  }

  /** One iteration of the scan, with the exceptions it recovers from. */
  method ReadSlot(raw: Bytes, sectorSize: nat, offset: nat) returns (slot: Slot)
    requires |raw| >= 512
    ensures slot == Classify(raw, sectorSize, offset)
  {
    if raw[..4] == [0, 0, 0, 0] {
      return Zeroed;
    }
    if raw[..4] != FILE_SIGNATURE {
      return BadSignature;
    }
    hide Fixup, DecodeRecord;
    FixupFaultIsRecoverable(raw, Some(sectorSize));
    var fixed := ApplyFixup(raw, Some(sectorSize));
    if fixed.Err? {
      return Rejected(fixed.fault);
    }
    var record, warnings := ReadRecord(fixed.value, offset);
    match record
    case Ok(parsed) => return Parsed(parsed);
    case Err(fault) => return if fault == MissingKey then Escaped else Rejected(fault);
  }
}
