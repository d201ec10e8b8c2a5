/** Where the scan looks: volumes and record streams as they lie on the disk, and what becomes of them. */
module LayoutLaws {
  import opened Wrappers
  import opened WindowsBinary
  import opened MftFixup
  import opened MftAttributes
  import opened MftFormat
  import opened MftRecord
  import opened MftScan

  // ----- powers of two, counted out

  const SECTOR_SIZES: set<nat> := {256, 512, 1024, 2048, 4096, 8192, 16384, 32768}
  const CLUSTER_SIZES: set<nat> := {1, 2, 4, 8, 16, 32, 64, 128}
  const RECORD_SIZES: seq<nat> := [512, 1024, 2048, 4096, 8192, 16384, 32768, 65536]

  lemma {:induction false} PowersCounted(b: nat)
    requires b < 65536
    ensures PowerOfTwo(b) <==> b in CLUSTER_SIZES || b in SECTOR_SIZES
  {
    if b > 1 && b % 2 == 0 {
      PowersCounted(b / 2);
    }
  }

  lemma {:induction false} Pow2Grows(m: nat, n: nat)
    requires m <= n
    ensures Pow2(m) <= Pow2(n)
  {
    if m < n {
      Pow2Grows(m, n - 1);
    }
  }

  lemma Pow2Counted()
    ensures Pow2(8) == 256 && Pow2(17) == 131072
    ensures forall k :: 0 <= k < 8 ==> Pow2(9 + k) == RECORD_SIZES[k]
  {
    assert Pow2(4) == 16;
    assert Pow2(8) == 256;
    assert Pow2(9) == 512 && Pow2(10) == 1024 && Pow2(11) == 2048 && Pow2(12) == 4096;
    assert Pow2(13) == 8192 && Pow2(14) == 16384 && Pow2(15) == 32768 && Pow2(16) == 65536 && Pow2(17) == 131072;
  }

  // ----- boot sectors

  /** The fields of an NTFS boot sector that matter; the record size is a signed byte. */
  datatype BootSector = BootSector(bytesPerSector: nat, sectorsPerCluster: Byte, mftCluster: nat, sizeByte: int)

  ghost predicate BootStored(source: Bytes, b: BootSector) {
    && |source| >= 72 && source[3..11] == [0x4E, 0x54, 0x46, 0x53, 0x20, 0x20, 0x20, 0x20]
    && Holds(source, 11, 2, b.bytesPerSector) && source[13] == b.sectorsPerCluster && Holds(source, 48, 8, b.mftCluster)
    && -128 <= b.sizeByte < 128 && source[64] as int == b.sizeByte % 256
  }

  /** A negative size byte gives the size as a power of two, any other one as a number of clusters. */
  predicate Acceptable(b: BootSector) {
    && b.bytesPerSector in SECTOR_SIZES && b.sectorsPerCluster in CLUSTER_SIZES
    && if b.sizeByte < 0 then -16 <= b.sizeByte <= -9
       else 512 <= b.sizeByte * b.sectorsPerCluster * b.bytesPerSector <= 65536
  }

  function SizeOfRecords(b: BootSector): nat
    requires Acceptable(b)
  {
    if b.sizeByte < 0 then RECORD_SIZES[-b.sizeByte - 9] else b.sizeByte * b.sectorsPerCluster * b.bytesPerSector
  }

  /** The first byte of the MFT. */
  function MftStart(b: BootSector): nat {
    b.mftCluster * b.sectorsPerCluster * b.bytesPerSector
  }

  lemma SizeByteReads(source: Bytes, b: BootSector)
    requires BootStored(source, b)
    ensures LeSigned(source[64..65]) == b.sizeByte
  {
    hide Holds;
    assert source[64..65] == [source[64]];
    assert Le([source[64]]) == source[64] + 256 * Le([source[64]][1..]);
    assert Pow256(1) == 256;
  }

  lemma RecordSizeIff(b: BootSector, cluster: nat)
    requires cluster == b.bytesPerSector * b.sectorsPerCluster && -128 <= b.sizeByte < 128
    requires b.bytesPerSector in SECTOR_SIZES && b.sectorsPerCluster in CLUSTER_SIZES
    ensures 512 <= RecordSize(b.sizeByte, cluster) <= 65536 <==> Acceptable(b)
    ensures Acceptable(b) ==> RecordSize(b.sizeByte, cluster) == SizeOfRecords(b)
  {
    if b.sizeByte < 0 {
      Pow2Counted();
      if b.sizeByte < -16 {
        Pow2Grows(17, -b.sizeByte);
      } else if b.sizeByte > -9 {
        Pow2Grows(-b.sizeByte, 8);
      }
    } else {
      ProductTurned(b.sizeByte, b.sectorsPerCluster as nat, b.bytesPerSector);
    }
  }

  lemma ProductTurned(x: int, y: int, z: int)
    ensures x * (z * y) == x * y * z
  {
    assert z * y == y * z;
    assert x * (y * z) == (x * y) * z by { Associates(x, y, z); }
  }

  lemma Associates(x: int, y: int, z: int)
    ensures x * (y * z) == (x * y) * z
  {
  }

  /** Exactly which volumes are accepted, and where their one record is looked for. */
  lemma VolumeIff(source: Bytes, b: BootSector)
    requires BootStored(source, b)
    ensures LayoutOf(source).Laid? <==> Acceptable(b) && |source| >= 80
    ensures !LayoutOf(source).Laid? ==> LayoutOf(source) == Refused(false)
    ensures LayoutOf(source).Laid? ==>
      var layout := LayoutOf(source).layout;
      && layout.first == MftStart(b) && layout.recordSize == SizeOfRecords(b) && layout.sectorSize == b.bytesPerSector
      && layout.limit == Some(1) && layout.boot.Some?
      && layout.boot.value.bytesPerSector == b.bytesPerSector
      && layout.boot.value.sectorsPerCluster == b.sectorsPerCluster
      && layout.boot.value.mftCluster == b.mftCluster && layout.boot.value.recordSize == SizeOfRecords(b)
      && Holds(source, 72, 8, layout.boot.value.serial)
  {
    var prefix := if |source| < 512 then source else source[..512];
    BootReads(source, prefix, b);
    hide BootStored, Field, Holds, LeSigned, SizeOfRecords, Acceptable, VolumeLayout, MftStart;
    PrefixLayout(prefix, b);
  }

  /** The boot sector as the first 512 bytes show it. */
  predicate BootRead(prefix: Bytes, b: BootSector) {
    && |prefix| >= 72 && Field(prefix, 0, 11, 2) == b.bytesPerSector < 65536 && prefix[13] == b.sectorsPerCluster
    && LeSigned(prefix[64..65]) == b.sizeByte && -128 <= b.sizeByte < 128 && Field(prefix, 0, 48, 8) == b.mftCluster
  }

  lemma BootReads(source: Bytes, prefix: Bytes, b: BootSector)
    requires BootStored(source, b) && prefix == if |source| < 512 then source else source[..512]
    ensures BootRead(prefix, b) && prefix[3..11] == NTFS_SIGNATURE
    ensures |source| >= 80 ==> |prefix| >= 80 && Holds(source, 72, 8, Field(prefix, 0, 72, 8))
    ensures |prefix| >= 80 ==> |source| >= 80
  {
    SmallBytes(source, b);
    SizeByteReads(source, b);
    assert prefix[3..11] == source[3..11] && prefix[64..65] == source[64..65];
    PrefixField(source, prefix, 11, 2, b.bytesPerSector);
    PrefixField(source, prefix, 48, 8, b.mftCluster);
    if |source| >= 80 {
      PrefixField(source, prefix, 72, 8, Field(prefix, 0, 72, 8));
    }
    hide Field, Holds, LeSigned;
  }

  lemma PrefixLayout(prefix: Bytes, b: BootSector)
    requires BootRead(prefix, b)
    ensures VolumeLayout(prefix) ==
      if Acceptable(b) && |prefix| >= 80
      then Laid(Layout(MftStart(b), SizeOfRecords(b), b.bytesPerSector, Some(1),
                       Some(Boot(b.bytesPerSector, b.sectorsPerCluster as nat, b.mftCluster, SizeOfRecords(b),
                                 Field(prefix, 0, 72, 8)))))
      else Refused(false)
  {
    hide Field, LeSigned, PowerOfTwo, RecordSize, SizeOfRecords, Acceptable;
    PowersCounted(b.bytesPerSector);
    PowersCounted(b.sectorsPerCluster as nat);
    AcceptableSizes(b);
    if b.bytesPerSector in SECTOR_SIZES && b.sectorsPerCluster in CLUSTER_SIZES {
      RecordSizeIff(b, BytesIn(b.sectorsPerCluster as nat, b.bytesPerSector));
      ProductTurned(b.mftCluster, b.bytesPerSector, b.sectorsPerCluster as int);
      Associates(b.mftCluster, b.sectorsPerCluster as int, b.bytesPerSector);
    }
  }

  lemma AcceptableSizes(b: BootSector)
    ensures Acceptable(b) ==> b.bytesPerSector in SECTOR_SIZES && b.sectorsPerCluster in CLUSTER_SIZES
  {
  }

  lemma SmallBytes(source: Bytes, b: BootSector)
    requires BootStored(source, b)
    ensures b.bytesPerSector < 65536
  {
    Pow256Values();
    hide LeBytes, Pow256;
  }

  /** A field within the first 512 bytes is read from them as from the whole. */
  lemma PrefixField(source: Bytes, prefix: Bytes, k: nat, w: nat, v: nat)
    requires prefix == if |source| < 512 then source else source[..512]
    requires k + w <= |source| && k + w <= 512
    ensures Holds(source, k, w, v) <==> Field(prefix, 0, k, w) == v
  {
    hide LeBytes, Pow256, Le;
    assert prefix[k..k + w] == source[k..k + w];
    FieldIsHeld(prefix, k, w, v);
  }

  // ----- record streams

  /** Exactly which record streams are accepted, and in what records and sectors they are cut. */
  lemma StreamIff(source: Bytes, size: nat, count: nat)
    requires |source| >= 32 && source[..4] == [0x46, 0x49, 0x4C, 0x45]
    requires Holds(source, 28, 4, size) && Holds(source, 6, 2, count)
    ensures LayoutOf(source) ==
      if 512 <= size <= 65536 && count >= 2 && size % (count - 1) == 0
      then Laid(Layout(0, size, size / (count - 1), None, None)) else Refused(false)
  {
    var prefix := if |source| < 512 then source else source[..512];
    assert prefix[..4] == source[..4];
    assert |prefix| >= 72 ==> prefix[3..11][0] == source[..4][3];
    PrefixField(source, prefix, 28, 4, size);
    PrefixField(source, prefix, 6, 2, count);
    hide Field, Holds;
  }

  /** Everything else is refused: streams cut short as broken, and all other bytes as not supported. */
  lemma OtherInputs(source: Bytes)
    requires !(|source| >= 72 && source[3..11] == [0x4E, 0x54, 0x46, 0x53, 0x20, 0x20, 0x20, 0x20])
    ensures |source| < 4 || source[..4] != [0x46, 0x49, 0x4C, 0x45] ==>
      Parse(source) == Returned(ParserResult(Unsupported, [], [], [UnsupportedInput]))
    ensures 4 <= |source| < 32 && source[..4] == [0x46, 0x49, 0x4C, 0x45] ==>
      Parse(source) == Returned(ParserResult(Failed, [], [], [InvalidLayout]))
  {
    var prefix := if |source| < 512 then source else source[..512];
    assert |source| >= 4 ==> prefix[..4] == source[..4];
    assert |source| >= 72 ==> prefix[3..11] == source[3..11];
    hide VolumeLayout, Slots;
  }

  // ----- what becomes of a volume

  /** The bytes of the one slot that a volume has. */
  function VolumeSlot(source: Bytes, b: BootSector): Bytes
    requires Acceptable(b) && MftStart(b) + SizeOfRecords(b) <= |source|
  {
    source[MftStart(b)..MftStart(b) + SizeOfRecords(b)]
  }

  lemma OneSlot(source: Bytes, b: BootSector)
    requires BootStored(source, b) && Acceptable(b) && |source| >= 80
    ensures LayoutOf(source).Laid?
    ensures var layout := LayoutOf(source).layout;
      if MftStart(b) + SizeOfRecords(b) <= |source|
      then 512 <= SizeOfRecords(b)
           && Slots(source, layout) == [Classify(VolumeSlot(source, b), b.bytesPerSector, MftStart(b))]
      else Slots(source, layout) == []
  {
    hide BootStored, Acceptable, SizeOfRecords, MftStart, Classify, SlotCount, LayoutOf;
    VolumeIff(source, b);
    var layout := LayoutOf(source).layout;
    SlotFits(|source|, layout, 0);
    SlotFits(|source|, layout, 1);
    OffsetOfFirst(layout);
    SlotsBelow(|source|, layout);
  }

  lemma OffsetOfFirst(layout: Layout)
    ensures OffsetOf(layout, 0) == layout.first
  {
  }

  lemma SlotsBelow(size: nat, layout: Layout)
    requires layout.recordSize > 0 && layout.limit == Some(1)
    ensures SlotCount(size, layout) <= 1
  {
  }

  /** A volume whose record parses gives its boot record and that record; any other one gives nothing or raises. */
  lemma VolumeOutcome(source: Bytes, b: BootSector)
    requires BootStored(source, b) && Acceptable(b) && |source| >= 80
    ensures MftStart(b) + SizeOfRecords(b) > |source| ==>
      Parse(source) == Returned(ParserResult(Failed, [], [], [NoValidRecords]))
    ensures MftStart(b) + SizeOfRecords(b) <= |source| ==>
      && 512 <= SizeOfRecords(b)
      && match Classify(VolumeSlot(source, b), b.bytesPerSector, MftStart(b))
         case Parsed(rec) =>
           && Parse(source).Returned?
           && var r := Parse(source).result;
              && |r.records| == 2 && r.records[1] == MftScan.MftRecord(rec)
              && r.records[0].BootRecord? && LayoutOf(source).Laid?
              && Some(r.records[0].boot) == LayoutOf(source).layout.boot
              && r.errors == [] && r.warnings == Lift(WarningsOf(rec.attributes))
              && r.status == if |WarningsOf(rec.attributes)| > 0 then CompletedWithWarnings else Completed
         case Escaped => Parse(source) == KeyErrorRaised
         case _ => Parse(source) == Returned(ParserResult(Failed, [], [], [NoValidRecords]))
  {
    hide BootStored, Acceptable, SizeOfRecords, MftStart, Classify, SlotCount, LayoutOf, Slots, WarningsOf;
    VolumeIff(source, b);
    OneSlot(source, b);
    if MftStart(b) + SizeOfRecords(b) <= |source| {
      var slot := Classify(VolumeSlot(source, b), b.bytesPerSector, MftStart(b));
      SingleSlot(slot, LayoutOf(source).layout);
    }
  }

  lemma SingleSlot(slot: Slot, layout: Layout)
    requires layout.recordSize > 0
    ensures RecordsOf([slot]) == if slot.Parsed? then [MftScan.MftRecord(slot.record)] else []
    ensures WarningsUpTo([slot], layout) == SlotWarnings(slot, layout.first)
    ensures NoneEscaped([slot]) <==> !slot.Escaped?
  {
    OffsetOfFirst(layout);
    hide WarningsOf, OffsetOf, SlotWarnings;
    assert [slot][..0] == [];
    assert RecordsOf([slot][..0]) == [] && WarningsUpTo([slot][..0], layout) == [];
  }

  /** A volume that keeps a stored record where its boot sector says gives that record. */
  lemma StoredVolumeParses(source: Bytes, b: BootSector, plain: Bytes, g: Geometry, tag: (Byte, Byte), first: nat,
                           used: nat, cells: seq<Bytes>, xs: seq<Source>, ps: seq<Placement>, rest: Bytes)
    requires BootStored(source, b) && Acceptable(b) && |source| >= 80
    requires PlainRecord(plain, g, first, used, cells, xs, ps, rest) && !LacksParsed(AttributesOf(xs))
    requires g.sectorSize == b.bytesPerSector && |plain| == SizeOfRecords(b) && MftStart(b) + |plain| <= |source|
    requires VolumeSlot(source, b) == Protect(plain, g, tag)
    requires VolumeSlot(source, b)[..4] == [0x46, 0x49, 0x4C, 0x45]
    ensures Parse(source).Returned? && |Parse(source).result.records| == 2
    ensures Parse(source).result.records[0].BootRecord? && Parse(source).result.records[1].MftRecord?
    ensures Parse(source).result.records[1].record.attributes == AttributesOf(xs)
    ensures Parse(source).result.records[1].record.offset == MftStart(b)
  {
    hide BootStored, Acceptable, SizeOfRecords, MftStart, LayoutOf, Fixup, Protect, PlainRecord, LacksParsed,
      AttributesOf, ChainOf, HeaderInBounds, Field, Parse, VolumeSlot, StandardOf, FileNamesOf;
    PlainIsLong(plain, g, first, used, cells, xs, ps, rest);
    VolumeOutcome(source, b);
    RecordRoundTrip(plain, g, tag, first, used, cells, xs, ps, rest);
    LackingIff(AttributesOf(xs));
  }

  lemma PlainIsLong(plain: Bytes, g: Geometry, first: nat, used: nat, cells: seq<Bytes>, xs: seq<Source>,
                    ps: seq<Placement>, rest: Bytes)
    requires PlainRecord(plain, g, first, used, cells, xs, ps, rest)
    ensures |plain| >= 49 && Sound(g, |plain|)
  {
  }

  lemma LackingIff(items: seq<Attribute>)
    ensures LacksParsed(items) <==> StandardOf(items).Err? || FileNamesOf(items).Err?
  {
    StandardLacking(items);
    FileNameLacking(items);
    hide LacksStandard, LacksFileName, StandardOf, FileNamesOf;
  }

  // ----- which warnings a scan gives

  /** Every warning names its slot by its byte offset, and every slot that deserves one has it. */
  lemma {:induction false} WarningsTell(slots: seq<Slot>, layout: Layout, w: ScanWarning)
    ensures w in WarningsUpTo(slots, layout) <==>
      exists k: nat :: k < |slots| && Tells(slots[k], layout.first + k * layout.recordSize, w)
  {
    hide WarningsOf, Lift;
    if |slots| > 0 {
      var n := |slots| - 1;
      WarningsTell(slots[..n], layout, w);
      assert OffsetOf(layout, n) == layout.first + n * layout.recordSize;
      SlotTells(slots[n], OffsetOf(layout, n), w);
      hide OffsetOf, SlotWarnings, Tells;
      assert forall k: nat :: k < n ==> slots[..n][k] == slots[k];
    }
  }

  predicate Tells(slot: Slot, offset: nat, w: ScanWarning) {
    match w
    case NoSignature(at) => slot.BadSignature? && at == offset
    case Skipped(at, fault) => slot == Rejected(fault) && at == offset
    case InRecord(inner) => slot.Parsed? && inner in WarningsOf(slot.record.attributes)
    case TrailingBytes => false
  }

  lemma SlotTells(slot: Slot, offset: nat, w: ScanWarning)
    ensures w in SlotWarnings(slot, offset) <==> Tells(slot, offset, w)
  {
    if slot.Parsed? {
      var ws := WarningsOf(slot.record.attributes);
      hide WarningsOf;
      if w in Lift(ws) {
        var i :| 0 <= i < |ws| && Lift(ws)[i] == w;
        assert ws[i] in ws;
      }
      if Tells(slot, offset, w) {
        var i :| 0 <= i < |ws| && ws[i] == w.warning;
        assert Lift(ws)[i] == w;
      }
    }
  }

  // ----- what becomes of a stream

  /** How one slot is judged, from its first four bytes on. */
  lemma SlotIff(raw: Bytes, sectorSize: nat, offset: nat)
    requires |raw| >= 512
    ensures var slot := Classify(raw, sectorSize, offset);
      && (slot.Zeroed? <==> raw[..4] == [0, 0, 0, 0])
      && (slot.BadSignature? <==> raw[..4] != [0, 0, 0, 0] && raw[..4] != [0x46, 0x49, 0x4C, 0x45])
      && (forall rec :: slot == Parsed(rec) <==>
            && raw[..4] == [0x46, 0x49, 0x4C, 0x45] && Fixup(raw, Some(sectorSize)).Ok?
            && |Fixup(raw, Some(sectorSize)).value| >= 48
            && DecodeRecord(Fixup(raw, Some(sectorSize)).value, offset) == Ok(rec))
      && (slot.Rejected? ==> slot.fault != MissingKey)
  {
    FixupFaultIsRecoverable(raw, Some(sectorSize));
    hide Fixup, DecodeRecord;
  }

  /** Slot k of a stream is its k-th record, and there are as many as fit. */
  lemma StreamSlots(source: Bytes, size: nat, sectorSize: nat, k: nat)
    requires size >= 512 && (k + 1) * size <= |source|
    ensures var layout := Layout(0, size, sectorSize, None, None);
      && k < |Slots(source, layout)| && k * size + size == (k + 1) * size
      && Slots(source, layout)[k] == Classify(source[k * size..k * size + size], sectorSize, k * size)
  {
    hide Classify;
    var layout := Layout(0, size, sectorSize, None, None);
    assert (k + 1) * size == k * size + size;
    SlotFits(|source|, layout, k);
    assert OffsetOf(layout, k) == k * size;
  }

  lemma StreamSlotCount(source: Bytes, size: nat, sectorSize: nat)
    requires size >= 512
    ensures |Slots(source, Layout(0, size, sectorSize, None, None))| == |source| / size
  {
  }

  /** The records of the parsed slots, and nothing else; a stream without one has failed. */
  lemma StreamOutcome(source: Bytes, size: nat, sectorSize: nat)
    requires LayoutOf(source) == Laid(Layout(0, size, sectorSize, None, None))
    ensures var slots := Slots(source, Layout(0, size, sectorSize, None, None));
      && (Parse(source) == KeyErrorRaised <==> Escaped in slots)
      && (Escaped !in slots && (forall slot :: slot in slots ==> !slot.Parsed?) ==>
            Parse(source) == Returned(ParserResult(Failed, [], [], [NoValidRecords])))
      && (Escaped !in slots && (exists slot :: slot in slots && slot.Parsed?) ==>
            && Parse(source).Returned?
            && var r := Parse(source).result;
               && r.errors == [] && r.status == (if |r.warnings| > 0 then CompletedWithWarnings else Completed)
               && r.records == RecordsOf(slots)
               && r.warnings == WarningsUpTo(slots, Layout(0, size, sectorSize, None, None))
                                + if |source| % size != 0 then [TrailingBytes] else [])
  {
    hide LayoutOf, Slots, WarningsUpTo, RecordsOf, Trailing;
    var layout := Layout(0, size, sectorSize, None, None);
    var slots := Slots(source, layout);
    assert NoneEscaped(slots) <==> Escaped !in slots;
    ParsedOnes(slots);
    TrailingIff(source, layout);
  }

  lemma TrailingIff(source: Bytes, layout: Layout)
    requires layout.first == 0 && layout.limit.None? && layout.recordSize > 0
    ensures Trailing(layout, |source|) == if |source| % layout.recordSize != 0 then [TrailingBytes] else []
  {
    assert |source| == (|source| / layout.recordSize) * layout.recordSize + |source| % layout.recordSize;
  }

  lemma {:induction false} ParsedOnes(slots: seq<Slot>)
    ensures |RecordsOf(slots)| > 0 <==> exists slot :: slot in slots && slot.Parsed?
  {
    if |slots| > 0 {
      ParsedOnes(slots[..|slots| - 1]);
      assert slots == slots[..|slots| - 1] + [slots[|slots| - 1]];
    }
  }

  // ----- the warnings of one record

  /** Slot k of the times of this value holds a tick count that has no datetime. */
  predicate Unrepresentable(v: Value, family: Family, k: nat) {
    && (if family == StandardFamily then v.StandardInformation? else v.FileName?)
    && k < |v.times| && v.times[k].raw.Some? && v.times[k].raw.value >= 2650467744000000000
  }

  lemma {:induction false} TimeWarningsIff(family: Family, times: seq<Stamp>, slot: nat, w: Warning)
    requires slot <= |times|
    ensures w in TimeWarnings(family, times, slot) <==>
      w.family == family && slot <= w.slot < |times| && times[w.slot].time.None? && times[w.slot].raw.Some?
    decreases |times| - slot
  {
    if slot < |times| {
      TimeWarningsIff(family, times, slot + 1, w);
    }
  }

  /** A record is warned of exactly the unrepresentable times of its parsed values. */
  lemma {:induction false} RecordWarningsIff(items: seq<Attribute>, w: Warning)
    requires forall a :: a in items && a.body.Resident? && !a.body.value.Plain? ==> Converted(a.body.value.times)
    ensures w in WarningsOf(items) <==>
      exists a :: a in items && a.body.Resident? && Unrepresentable(a.body.value, w.family, w.slot)
  {
    if |items| > 0 {
      var n := |items| - 1;
      assert items == items[..n] + [items[n]];
      RecordWarningsIff(items[..n], w);
      if items[n].body.Resident? && !items[n].body.value.Plain? {
        var v := items[n].body.value;
        assert items[n] in items;
        ConvertedIff(v.times, w.slot);
        TimeWarningsIff(if v.FileName? then FileNameFamily else StandardFamily, v.times, 0, w);
      }
      hide TimeWarnings, Converted;
    }
  }

  /** Times that come from tick counts. */
  predicate Converted(times: seq<Stamp>) {
    forall k :: 0 <= k < |times| ==> times[k] == FileTime(times[k].raw.GetOr(0))
  }

  lemma ConvertedIff(times: seq<Stamp>, k: nat)
    requires Converted(times)
    ensures k < |times| ==>
      (times[k].time.None? && times[k].raw.Some? <==> times[k].raw.Some? && times[k].raw.value >= 2650467744000000000)
  {
    if k < |times| {
      FileTimeExact(times[k].raw.GetOr(0));
    }
  }
}
