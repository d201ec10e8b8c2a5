/** From the bytes of a record to the rows of the timeline: which timestamps arrive, and that none is invented. */
module Observations {
  import opened Wrappers
  import opened WindowsBinary
  import opened ParserRecords
  import opened TimelineNormalizer
  import CorrelationRules
  import MftAttributes
  import MftFormat
  import MftFixup
  import MftRecord
  import Lnk
  import LnkFormat
  import Prefetch
  import TimelineService

  // ----- what a timeline event says about a time

  datatype Fact = Fact(eventType: EventType, ordinal: nat, raw: Option<string>, time: Option<int>)

  function FactOf(e: TimelineEvent): Fact {
    Fact(e.eventType, e.ordinal, e.raw, e.time)
  }

  function Facts(events: seq<TimelineEvent>): seq<Fact> {
    seq(|events|, i requires 0 <= i < |events| => FactOf(events[i]))
  }

  lemma FactsJoin(a: seq<TimelineEvent>, b: seq<TimelineEvent>)
    ensures Facts(a + b) == Facts(a) + Facts(b)
  {
  }

  /** The fact a tick value must give rise to: its exact decimal, and its instant if it has one. */
  function TickFact(c: Codec, t: EventType, ordinal: nat, ticks: nat): Fact {
    Fact(t, ordinal, Some(c.decimal(ticks)), if ticks < FIRST_UNREPRESENTABLE then Some(ticks / 10) else None)
  }

  /** Zero means "not set" and gives rise to nothing. */
  function TickFacts(c: Codec, t: EventType, ordinal: nat, ticks: nat): seq<Fact> {
    if ticks == 0 then [] else [TickFact(c, t, ordinal, ticks)]
  }

  /** ISO text of any instant the parsers can write reads back as that instant. */
  ghost predicate ReadsBack(c: Codec) {
    forall t: nat :: t < FIRST_UNREPRESENTABLE / 10 ==> c.parseIso(c.formatIso(t)) == Some(t)
  }

  lemma SlotFact(c: Codec, r: ArtifactRecord, t: EventType, ticks: nat, timeSource: string, ordinal: nat,
                 metadata: Object)
    requires ReadsBack(c)
    ensures Facts(OneOrNone(SlotEvent(c, r, t, TimeText(c, FileTime(ticks)), RawText(c, FileTime(ticks)), timeSource,
                                      ordinal, metadata)))
         == TickFacts(c, t, ordinal, ticks)
  {
    FileTimeExact(ticks);
  }

  // ----- NTFS

  function FamilyFacts(c: Codec, f: Family, ticks: seq<nat>, ordinal: nat, n: nat): seq<Fact>
    requires n <= |ticks|
  {
    if n == 0 then []
    else FamilyFacts(c, f, ticks, ordinal, n - 1) + TickFacts(c, NtfsType(f, n - 1), ordinal, ticks[n - 1])
  }

  lemma {:induction false} FamilyCarries(c: Codec, r: ArtifactRecord, times: Object, f: Family,
                                         filename: Option<string>, parent: Json, ordinal: nat, ticks: seq<nat>, n: nat)
    requires ReadsBack(c) && |ticks| == 4 && n <= 4 && Carries(c, times, MftFormat.StampsOf(ticks))
    ensures Facts(Collect(n, FamilySlot(c, r, times, f, filename, parent, ordinal)))
         == FamilyFacts(c, f, ticks, ordinal, n)
  {
    hide TickFacts, FileTime, NtfsMetadata, ReadsBack, SlotEvent, Get, TimeText, RawText;
    if n > 0 {
      var i := n - 1;
      var slot := FamilySlot(c, r, times, f, filename, parent, ordinal);
      FamilyCarries(c, r, times, f, filename, parent, ordinal, ticks, i);
      var stamp := FileTime(ticks[i]);
      StringBack(TimeText(c, stamp));
      StringBack(RawText(c, stamp));
      SlotFact(c, r, NtfsType(f, i), ticks[i], FamilyText(f) + "." + NTFS_FIELDS[i], ordinal,
               NtfsMetadata(r.data, f, filename, parent, i));
      assert slot(i) == FamilyEvent(c, r, times, f, filename, parent, ordinal, i);
      FactsJoin(Collect(i, slot), OneOrNone(slot(i)));
    }
  }

  // ----- the ticks a stored attribute list holds

  /** The facts owed to the first $STANDARD_INFORMATION. */
  function StandardFacts(c: Codec, xs: seq<MftFormat.Source>): seq<Fact> {
    if |xs| == 0 then []
    else if xs[0].content.Standard? && |xs[0].content.ticks| == 4 then
      FamilyFacts(c, StandardFamily, xs[0].content.ticks, 0, 4)
    else StandardFacts(c, xs[1..])
  }

  /** The tick lists of all $FILE_NAME attributes, in order. */
  function NameTicks(xs: seq<MftFormat.Source>): seq<seq<nat>> {
    if |xs| == 0 then []
    else (if xs[0].content.Named? then [xs[0].content.ticks] else []) + NameTicks(xs[1..])
  }

  function NameFacts(c: Codec, ts: seq<seq<nat>>): seq<Fact> {
    if |ts| == 0 then []
    else
      var n := |ts| - 1;
      NameFacts(c, ts[..n]) + if |ts[n]| == 4 then FamilyFacts(c, FileNameFamily, ts[n], n, 4) else []
  }

  /** All facts owed to a stored attribute list. */
  function MftFacts(c: Codec, xs: seq<MftFormat.Source>): seq<Fact> {
    StandardFacts(c, xs) + NameFacts(c, NameTicks(xs))
  }

  predicate FirstStandardAway(xs: seq<MftFormat.Source>, i: nat) {
    && i < |xs| && xs[i].content.Clusters? && xs[i].typeCode == 0x10
    && forall j :: 0 <= j < i ==> xs[j].typeCode != 0x10
  }

  /** The first $STANDARD_INFORMATION and every $FILE_NAME are resident: what decoding a record asks for. */
  ghost predicate Resident(xs: seq<MftFormat.Source>) {
    && (forall i: nat :: !FirstStandardAway(xs, i))
    && forall i :: 0 <= i < |xs| && xs[i].content.Clusters? ==> xs[i].typeCode != 0x30
  }

  /** Residency in this sense is exactly what lets the timestamped values be found. */
  lemma ResidentIff(xs: seq<MftFormat.Source>)
    ensures Resident(xs) <==> !MftRecord.LacksParsed(MftFormat.AttributesOf(xs))
    ensures Resident(xs) <==>
      && MftRecord.StandardOf(MftFormat.AttributesOf(xs)).Ok?
      && MftRecord.FileNamesOf(MftFormat.AttributesOf(xs)).Ok?
  {
    var items := MftFormat.AttributesOf(xs);
    assert forall i :: 0 <= i < |xs| ==> items[i] == MftFormat.AttributeOf(xs[i]);
    MftRecord.StandardLacking(items);
    MftRecord.FileNameLacking(items);
    hide MftFormat.AttributesOf;
    forall i: nat
      ensures MftRecord.LacksFileName(items, i)
         <==> i < |xs| && xs[i].content.Clusters? && xs[i].typeCode == 0x30
      ensures MftRecord.LacksStandard(items, i) <==> FirstStandardAway(xs, i)
    {
    }
  }

  /** Type codes and contents go together, with four times each. */
  predicate Typed(x: MftFormat.Source) {
    && (x.content.Standard? ==> x.typeCode == 0x10 && |x.content.ticks| == 4)
    && (x.content.Named? ==> x.typeCode == 0x30 && |x.content.ticks| == 4)
    && (x.content.Other? ==> x.typeCode != 0x10 && x.typeCode != 0x30)
  }

  predicate AllTyped(xs: seq<MftFormat.Source>) {
    forall i :: 0 <= i < |xs| ==> Typed(xs[i])
  }

  lemma StoredIsTyped(cells: seq<Bytes>, xs: seq<MftFormat.Source>, ps: seq<MftFormat.Placement>)
    requires MftFormat.AllStored(cells, xs, ps)
    ensures AllTyped(xs)
  {
    hide Holds, MftFormat.NameStored, MftFormat.ClustersStored;
    forall i | 0 <= i < |xs|
      ensures Typed(xs[i])
    {
      assert MftFormat.Stored(cells[i], xs[i], ps[i]);
    }
  }

  /** The parsed standard information is that of the first such source. */
  lemma {:induction false} StandardOfSources(c: Codec, xs: seq<MftFormat.Source>)
    requires AllTyped(xs) && MftRecord.StandardOf(MftFormat.AttributesOf(xs)).Ok?
    ensures var v := MftRecord.StandardOf(MftFormat.AttributesOf(xs)).value;
      if v.None? then StandardFacts(c, xs) == []
      else exists ticks: seq<nat> ::
        && |ticks| == 4 && v.value.StandardInformation? && v.value.times == MftFormat.StampsOf(ticks)
        && StandardFacts(c, xs) == FamilyFacts(c, StandardFamily, ticks, 0, 4)
  {
    hide FamilyFacts;
    if |xs| > 0 {
      var items := MftFormat.AttributesOf(xs);
      assert items[1..] == MftFormat.AttributesOf(xs[1..]);
      assert items[0] == MftFormat.AttributeOf(xs[0]);
      if !xs[0].content.Standard? {
        StandardOfSources(c, xs[1..]);
      }
    }
  }

  predicate NamesHold(vs: seq<MftAttributes.Value>, ts: seq<seq<nat>>) {
    && |vs| == |ts|
    && forall i :: 0 <= i < |ts| ==> |ts[i]| == 4 && vs[i].FileName? && vs[i].times == MftFormat.StampsOf(ts[i])
  }

  lemma {:induction false} NamesOfSources(xs: seq<MftFormat.Source>)
    requires AllTyped(xs) && MftRecord.FileNamesOf(MftFormat.AttributesOf(xs)).Ok?
    ensures NamesHold(MftRecord.FileNamesOf(MftFormat.AttributesOf(xs)).value, NameTicks(xs))
  {
    if |xs| > 0 {
      var items := MftFormat.AttributesOf(xs);
      assert items[1..] == MftFormat.AttributesOf(xs[1..]);
      assert items[0] == MftFormat.AttributeOf(xs[0]);
      NamesOfSources(xs[1..]);
    }
  }

  // ----- facts of a normalised record

  lemma AllDicts(items: seq<Json>)
    requires forall i :: 0 <= i < |items| ==> items[i].Dict?
    ensures DictList(List(items)) == items
  {
    AllKept(items);
  }

  lemma {:induction false} AllKept(items: seq<Json>)
    requires forall i :: 0 <= i < |items| ==> items[i].Dict?
    ensures Ordering.Filter(items, (item: Json) => item.Dict?) == items
  {
    if |items| > 0 {
      AllKept(items[..|items| - 1]);
    }
  }

  lemma {:induction false} NameEventFacts(c: Codec, r: ArtifactRecord, vs: seq<MftAttributes.Value>, ts: seq<seq<nat>>)
    requires ReadsBack(c) && NamesHold(vs, ts)
    ensures Facts(AllNameEvents(c, r, NameValues(c, vs))) == NameFacts(c, ts)
  {
    hide FamilyFacts, Collect, ValueJson, ReadsBack, FamilySlot, Carries;
    if |vs| > 0 {
      var n := |vs| - 1;
      var name := ValueJson(c, vs[n]);
      assert NameValues(c, vs)[..n] == NameValues(c, vs[..n]);
      NameEventFacts(c, r, vs[..n], ts[..n]);
      ValueCarries(c, vs[n]);
      FamilyCarries(c, r, name, FileNameFamily, StringOf(Get(name, "filename")),
                    Get(name, "parent_directory_reference"), n, ts[n], 4);
      FactsJoin(AllNameEvents(c, r, NameValues(c, vs[..n])), NameEvents(c, r, name, n));
    }
  }

  /** The first $STANDARD_INFORMATION, if there is one, gives the first events. */
  lemma StandardEventFacts(c: Codec, r: ArtifactRecord, rec: MftRecord.FileRecord, xs: seq<MftFormat.Source>)
    requires ReadsBack(c) && AllTyped(xs)
    requires MftRecord.StandardOf(MftFormat.AttributesOf(xs)) == Ok(rec.standard)
    requires IsRecordOf(c, r, rec)
    ensures Facts(StandardEvents(c, r)) == StandardFacts(c, xs)
  {
    hide FamilyFacts, ValueJson, ReadsBack, Collect, FamilySlot, AllTyped, NameValues;
    StandardOfSources(c, xs);
    if rec.standard.Some? {
      var ticks: seq<nat> :|
        && |ticks| == 4 && rec.standard.value.StandardInformation?
        && rec.standard.value.times == MftFormat.StampsOf(ticks)
        && StandardFacts(c, xs) == FamilyFacts(c, StandardFamily, ticks, 0, 4);
      ValueCarries(c, rec.standard.value);
      FamilyCarries(c, r, ValueJson(c, rec.standard.value), StandardFamily, FirstFilename(r.data), Null, 0, ticks, 4);
    }
  }

  lemma NtfsEventsOf(c: Codec, r: ArtifactRecord, rec: MftRecord.FileRecord)
    requires IsRecordOf(c, r, rec)
    ensures Normalize(c, NtfsMft, r).events == StandardEvents(c, r) + AllNameEvents(c, r, NameValues(c, rec.fileNames))
  {
    hide ValueJson, StandardEvents, AllNameEvents;
    AllDicts(NameValues(c, rec.fileNames));
  }

  lemma RecordFacts(c: Codec, r: ArtifactRecord, rec: MftRecord.FileRecord, xs: seq<MftFormat.Source>)
    requires ReadsBack(c) && AllTyped(xs)
    requires MftRecord.StandardOf(MftFormat.AttributesOf(xs)) == Ok(rec.standard)
    requires MftRecord.FileNamesOf(MftFormat.AttributesOf(xs)) == Ok(rec.fileNames)
    requires IsRecordOf(c, r, rec)
    ensures Facts(Normalize(c, NtfsMft, r).events) == MftFacts(c, xs)
  {
    StandardEventFacts(c, r, rec, xs);
    NamesOfSources(xs);
    NtfsEventsOf(c, r, rec);
    hide NameFacts, AllNameEvents, ValueJson, NameValues, ReadsBack, AllTyped, StandardEvents, StandardFacts,
      Facts, Normalize, IsRecordOf;
    NameEventFacts(c, r, rec.fileNames, NameTicks(xs));
    FactsJoin(StandardEvents(c, r), AllNameEvents(c, r, NameValues(c, rec.fileNames)));
  }

  /** A record as it lies on the disk, fixed up and decoded. */
  function FromDisk(raw: Bytes, sectorSize: nat, offset: nat): Result<MftRecord.FileRecord> {
    var fixed :- MftFixup.Fixup(raw, Some(sectorSize));
    if |fixed| < 48 then Err(Structure) else MftRecord.DecodeRecord(fixed, offset)
  }

  lemma DecodedFacts(w: Writer, fixed: Bytes, offset: nat, xs: seq<MftFormat.Source>, r: ArtifactRecord)
    requires ReadsBack(w.codec) && AllTyped(xs) && |fixed| >= 48 && MftRecord.DecodeRecord(fixed, offset).Ok?
    requires MftRecord.DecodeRecord(fixed, offset).value.attributes == MftFormat.AttributesOf(xs)
    requires r.recordType == "NTFS_MFT_RECORD" && r.data == MftData(w, MftRecord.DecodeRecord(fixed, offset).value)
    ensures Facts(Normalize(w.codec, NtfsMft, r).events) == MftFacts(w.codec, xs)
  {
    hide Normalize, MftFacts, MftFormat.AttributesOf, MftRecord.ChainOf, Field, IsRecordOf, MftData, ReadsBack,
      MftRecord.StandardOf, MftRecord.FileNamesOf, AllTyped;
    var rec := MftRecord.DecodeRecord(fixed, offset).value;
    MftDataIsRecord(w, r, rec);
    RecordFacts(w.codec, r, rec, xs);
  }

  /** The attribute area of a fixed-up record. */
  function AttributeArea(fixed: Bytes): Bytes
    requires |fixed| >= 48 && MftRecord.HeaderInBounds(fixed)
  {
    fixed[Field(fixed, 0, 20, 2)..Field(fixed, 0, 24, 4)]
  }

  /**
   End to end, for every record the parser accepts: its attribute area is a list of stored
   attributes, and the timeline holds, in order, one event for each nonzero tick of the first
   $STANDARD_INFORMATION and of every $FILE_NAME among them, with the exact tick value.
   */
  lemma NoMftTimestampLost(raw: Bytes, sectorSize: nat, offset: nat, w: Writer, r: ArtifactRecord)
      returns (cells: seq<Bytes>, xs: seq<MftFormat.Source>, ps: seq<MftFormat.Placement>, rest: Bytes)
    requires ReadsBack(w.codec) && FromDisk(raw, sectorSize, offset).Ok?
    requires r.recordType == "NTFS_MFT_RECORD" && r.data == MftData(w, FromDisk(raw, sectorSize, offset).value)
    ensures MftFormat.AllStored(cells, xs, ps) && MftFormat.ClosesChain(rest) && Resident(xs)
    ensures var fixed := MftFixup.Fixup(raw, Some(sectorSize)).value;
      |fixed| >= 48 && MftRecord.HeaderInBounds(fixed) && AttributeArea(fixed) == Concat(cells) + rest
    ensures Facts(Normalize(w.codec, NtfsMft, r).events) == MftFacts(w.codec, xs)
  {
    hide MftFixup.Fixup, Normalize, MftFacts, Resident, MftFormat.AttributesOf, MftRecord.ChainOf, Field, MftData,
      ReadsBack, MftRecord.StandardOf, MftRecord.FileNamesOf, AllTyped, MftFormat.AllStored, Concat,
      MftFormat.ClosesChain;
    var fixed := MftFixup.Fixup(raw, Some(sectorSize)).value;
    cells, xs, ps, rest := MftRecord.DecodedRecordWasStored(fixed, offset);
    StoredIsTyped(cells, xs, ps);
    ResidentIff(xs);
    DecodedFacts(w, fixed, offset, xs, r);
  }

  /** The same from the other side: store any such attributes in a record, protect its sectors and read it back. */
  lemma StoredMftTimestampsKept(plain: Bytes, g: MftFixup.Geometry, tag: (Byte, Byte), first: nat, used: nat,
                                cells: seq<Bytes>, xs: seq<MftFormat.Source>, ps: seq<MftFormat.Placement>,
                                rest: Bytes, offset: nat, w: Writer, r: ArtifactRecord)
    requires ReadsBack(w.codec) && MftRecord.PlainRecord(plain, g, first, used, cells, xs, ps, rest) && Resident(xs)
    requires var decoded := FromDisk(MftFixup.Protect(plain, g, tag), g.sectorSize, offset);
      decoded.Ok? ==> r.recordType == "NTFS_MFT_RECORD" && r.data == MftData(w, decoded.value)
    ensures FromDisk(MftFixup.Protect(plain, g, tag), g.sectorSize, offset).Ok?
    ensures Facts(Normalize(w.codec, NtfsMft, r).events) == MftFacts(w.codec, xs)
  {
    hide MftFixup.Fixup, MftFixup.Protect, Normalize, MftFacts, Resident, MftFormat.AttributesOf, MftRecord.ChainOf,
      MftRecord.HeaderInBounds, Field, MftData, ReadsBack, MftRecord.StandardOf, MftRecord.FileNamesOf, AllTyped;
    StoredIsTyped(cells, xs, ps);
    MftRecord.RecordRoundTrip(plain, g, tag, first, used, cells, xs, ps, rest);
    ResidentIff(xs);
    DecodedFacts(w, MftFixup.Fixup(MftFixup.Protect(plain, g, tag), Some(g.sectorSize)).value, offset, xs, r);
  }

  // ----- Shell Link

  function LinkFacts(c: Codec, ticks: seq<nat>, n: nat): seq<Fact>
    requires n <= |ticks|
  {
    if n == 0 then [] else LinkFacts(c, ticks, n - 1) + TickFacts(c, LnkType(n - 1), n - 1, ticks[n - 1])
  }

  lemma {:induction false} LinkSlots(c: Codec, r: ArtifactRecord, ticks: seq<nat>, n: nat)
    requires ReadsBack(c) && |ticks| == 3 && n <= 3 && IsLinkOf(c, r, MftFormat.StampsOf(ticks))
    ensures Facts(Collect(n, LnkSlot(c, r))) == LinkFacts(c, ticks, n)
  {
    hide TickFacts, FileTime, LnkMetadata, ReadsBack, SlotEvent, Get, TimeText, RawText;
    if n > 0 {
      var i := n - 1;
      LinkSlots(c, r, ticks, i);
      var stamp := FileTime(ticks[i]);
      StringBack(TimeText(c, stamp));
      StringBack(RawText(c, stamp));
      SlotFact(c, r, LnkType(i), ticks[i], "lnk.header." + LNK_FIELDS[i] + "_time", i, LnkMetadata(r.data));
      assert LnkSlot(c, r)(i) == LnkEvent(c, r, i);
      FactsJoin(Collect(i, LnkSlot(c, r)), OneOrNone(LnkSlot(c, r)(i)));
    }
  }

  /** End to end for links, damaged ones included: the events are exactly the nonzero header times of the file. */
  lemma NoLinkTimestampLost(data: Bytes, w: Writer, sourceName: Option<string>, sourceId: string, r: ArtifactRecord)
    requires ReadsBack(w.codec) && Lnk.Normalize(data).Ok? && r.recordType == "SHELL_LINK"
    requires r.data == LinkData(w, sourceName, sourceId, Lnk.Normalize(data).value.link)
    ensures |data| >= Lnk.HEADER_SIZE
    ensures Facts(Normalize(w.codec, ShellLink, r).events) == LinkFacts(w.codec, LnkFormat.HeaderTicks(data), 3)
  {
    AcceptedTimes(data);
    hide Lnk.Normalize, LinkData, LnkFormat.HeaderTicks;
    LinkDataIsLink(w, sourceName, sourceId, r, Lnk.Normalize(data).value.link);
    LinkRecordFacts(w.codec, r, LnkFormat.HeaderTicks(data));
  }

  /** The times of an accepted link are its header ticks, converted. */
  lemma AcceptedTimes(data: Bytes)
    requires Lnk.Normalize(data).Ok?
    ensures |data| >= Lnk.HEADER_SIZE
    ensures Lnk.Normalize(data).value.link.times == MftFormat.StampsOf(LnkFormat.HeaderTicks(data))
  {
    hide FileTime, Field, Lnk.Bit, Lnk.DecodeIdSection, Lnk.DecodeInfoSection, Lnk.Strings, Lnk.ExtraData, Lnk.BadTimes,
      Lnk.TargetPath;
  }

  /** The same from the other side: a link laid out as a file keeps its three times. */
  lemma StoredLinkTimestampsKept(f: LnkFormat.Pieces, x: LnkFormat.Source, p: LnkFormat.InfoPlaces, w: Writer,
                                 sourceName: Option<string>, sourceId: string, r: ArtifactRecord)
    requires ReadsBack(w.codec) && LnkFormat.LinkStored(f, x, p) && r.recordType == "SHELL_LINK"
    requires var parsed := Lnk.Normalize(LnkFormat.FileOf(f));
      parsed.Ok? ==> r.data == LinkData(w, sourceName, sourceId, parsed.value.link)
    ensures |x.ticks| == 3 && Facts(Normalize(w.codec, ShellLink, r).events) == LinkFacts(w.codec, x.ticks, 3)
  {
    hide Lnk.Normalize, LnkFormat.FileOf, LnkFormat.LinkStored, LnkFormat.LinkOf, LnkFormat.ExpectedWarnings, LinkData,
      LnkFormat.HeaderTicks;
    LnkFormat.ParseUndoesPrint(f, x, p);
    LnkFormat.StoredTicks(f, x, p);
    NoLinkTimestampLost(LnkFormat.FileOf(f), w, sourceName, sourceId, r);
  }

  lemma LinkRecordFacts(c: Codec, r: ArtifactRecord, ticks: seq<nat>)
    requires ReadsBack(c) && |ticks| == 3 && IsLinkOf(c, r, MftFormat.StampsOf(ticks))
    ensures Facts(Normalize(c, ShellLink, r).events) == LinkFacts(c, ticks, 3)
  {
    LinkIsLink(c, r, MftFormat.StampsOf(ticks));
    hide IsLinkOf, Collect, LinkFacts, FileTime;
    LinkSlots(c, r, ticks, 3);
  }

  lemma LinkIsLink(c: Codec, r: ArtifactRecord, stamps: seq<Stamp>)
    requires IsLinkOf(c, r, stamps)
    ensures r.recordType == "SHELL_LINK"
  {
  }

  // ----- Prefetch

  function PrefetchFacts(c: Codec, ticks: seq<nat>, n: nat): seq<Fact>
    requires n <= |ticks|
  {
    if n == 0 then []
    else PrefetchFacts(c, ticks, n - 1) + TickFacts(c, CorrelationRules.PrefetchExecution, n - 1, ticks[n - 1])
  }

  lemma {:induction false} PrefetchSlots(c: Codec, r: ArtifactRecord, ticks: seq<nat>, n: nat)
    requires ReadsBack(c) && n <= |ticks| && IsPrefetchOf(c, r, MftFormat.StampsOf(ticks))
    ensures Facts(Collect(n, PrefetchSlot(c, r))) == PrefetchFacts(c, ticks, n)
  {
    hide TickFacts, FileTime, PrefetchMetadata, ReadsBack, SlotEvent, Get, TimeText, RawText;
    if n > 0 {
      var i := n - 1;
      PrefetchSlots(c, r, ticks, i);
      var stamp := FileTime(ticks[i]);
      StringBack(TimeText(c, stamp));
      StringBack(RawText(c, stamp));
      SlotFact(c, r, CorrelationRules.PrefetchExecution, ticks[i], "prefetch.execution_time[" + c.decimal(i) + "]", i,
               PrefetchMetadata(r.data));
      assert PrefetchSlot(c, r)(i) == PrefetchEvent(c, r, i);
      FactsJoin(Collect(i, PrefetchSlot(c, r)), OneOrNone(PrefetchSlot(c, r)(i)));
    }
  }

  lemma {:induction false} NoneSkipped(c: Codec, ticks: seq<nat>, n: nat)
    requires n <= |ticks| && forall i :: 0 <= i < n ==> ticks[i] != 0
    ensures PrefetchFacts(c, ticks, n)
         == seq(n, i requires 0 <= i < n => TickFact(c, CorrelationRules.PrefetchExecution, i, ticks[i]))
  {
    hide TickFact;
    if n > 0 {
      NoneSkipped(c, ticks, n - 1);
    }
  }

  function ExecutionFacts(c: Codec, ticks: seq<nat>): seq<Fact> {
    seq(|ticks|, i requires 0 <= i < |ticks| => TickFact(c, CorrelationRules.PrefetchExecution, i, ticks[i]))
  }

  /** End to end for Prefetch, whatever the bytes: one event for each execution tick that is kept, in slot order. */
  lemma ExecutionTimesAreKept(data: Bytes, v: Prefetch.Version, w: Writer, header: Object,
                              volumes: seq<Prefetch.Volume>, r: ArtifactRecord)
    requires ReadsBack(w.codec) && r.recordType == "PREFETCH_FILE"
    requires r.data == PrefetchData(w, header, v, Prefetch.ReadExecution(data, v), volumes)
    ensures Facts(Normalize(w.codec, Prefetch, r).events) == ExecutionFacts(w.codec, Prefetch.KeptTicks(data, v))
  {
    hide TickFact, FileTime, Field, Collect, PrefetchFacts, Prefetch.KeptTicks, Prefetch.Observed, TimeText, RawText,
      PrefetchData, Prefetch.ReadExecution;
    PrefetchDataIsPrefetch(w, header, v, Prefetch.ReadExecution(data, v), volumes, r);
    var kept := Prefetch.KeptTicks(data, v);
    Prefetch.ObservedAreKept(data, v);
    assert Prefetch.Observed(Prefetch.ReadExecution(data, v).stamps) == MftFormat.StampsOf(kept);
    PrefetchSlots(w.codec, r, kept, |kept|);
    KeptHasNoZero(data, v);
    NoneSkipped(w.codec, kept, |kept|);
    NoSlotsNoEvents(w.codec, r);
  }

  lemma KeptHasNoZero(data: Bytes, v: Prefetch.Version)
    ensures forall i :: 0 <= i < |Prefetch.KeptTicks(data, v)| ==> Prefetch.KeptTicks(data, v)[i] != 0
  {
    hide Prefetch.NonZero, Prefetch.ReadableTicks;
    Prefetch.NonZeroMembers(Prefetch.ReadableTicks(data, v));
    var kept := Prefetch.KeptTicks(data, v);
    assert forall i :: 0 <= i < |kept| ==> kept[i] in kept;
  }

  /**
   Every nonzero execution time that can be read from the file has its event if and only if the
   file reaches to the end of its slots and of its run count, or no readable slot is set.
   */
  lemma NoExecutionTimeLost(data: Bytes, v: Prefetch.Version, w: Writer, header: Object,
                            volumes: seq<Prefetch.Volume>, r: ArtifactRecord)
    requires ReadsBack(w.codec) && r.recordType == "PREFETCH_FILE"
    requires r.data == PrefetchData(w, header, v, Prefetch.ReadExecution(data, v), volumes)
    ensures Facts(Normalize(w.codec, Prefetch, r).events)
            == ExecutionFacts(w.codec, Prefetch.NonZero(Prefetch.ReadableTicks(data, v)))
       <==> Prefetch.Complete(data, v) || forall t :: t in Prefetch.ReadableTicks(data, v) ==> t == 0
  {
    ExecutionTimesAreKept(data, v, w, header, volumes, r);
    var ticks := Prefetch.ReadableTicks(data, v);
    Prefetch.NonZeroMembers(ticks);
    hide Normalize, PrefetchData, Prefetch.NonZero, Prefetch.ReadableTicks, ReadsBack, Prefetch.Complete, Facts,
      TickFact;
    var found := Prefetch.NonZero(ticks);
    assert |ExecutionFacts(w.codec, found)| == |found|;
    assert |found| == 0 <==> forall t :: t in ticks ==> t == 0 by {
      assert |found| > 0 ==> found[0] in found;
    }
  }

  lemma NoSlotsNoEvents(c: Codec, r: ArtifactRecord)
    ensures Collect(0, PrefetchSlot(c, r)) == []
  {
  }

  // ----- from events to rows of the table

  /** The rows of this record are exactly the given facts, each once and with the record's true ancestry. */
  ghost predicate RowsTell(s: TimelineService.Tables, rows: seq<TimelineService.Row>, caseId: string, r: ArtifactRecord,
                           facts: seq<Fact>)
    requires r.artifactId in s.artifacts
  {
    exists events ::
      && Facts(events) == facts && KeysDistinctLocal(events)
      && forall row: TimelineService.Row :: row.recordId == r.id && row.caseId == caseId ==>
           (row in rows <==> exists e :: e in events && row == TimelineService.RowOf(s, caseId, r, e))
  }

  /** A generation puts the events of every record of the case into the table, and no others under its name. */
  lemma RecordReachesTable(c: Codec, s: TimelineService.Tables, caseId: string, r: ArtifactRecord)
    requires TimelineService.Upgradable(c, s) && r in s.records && TimelineService.BelongsTo(s, r, caseId)
    ensures RowsTell(s, TimelineService.AfterGenerate(c, s, caseId).rows, caseId, r,
                     Facts(Normalize(c, s.artifacts[r.artifactId].kind, r).events))
  {
    var events := Normalize(c, s.artifacts[r.artifactId].kind, r).events;
    hide Normalize, TimelineService.AfterGenerate, TimelineService.ValuesOf, TimelineService.BelongsTo, Facts,
      KeysDistinctLocal;
    RecordKeysDistinct(c, s.artifacts[r.artifactId].kind, r);
    forall row: TimelineService.Row | row.recordId == r.id && row.caseId == caseId
      ensures row in TimelineService.AfterGenerate(c, s, caseId).rows
         <==> exists e :: e in events && row == TimelineService.RowOf(s, caseId, r, e)
    {
      TimelineService.NothingLostNothingInvented(c, s, caseId, row);
      TimelineService.ValuesMembers(c, s, caseId, row);
      OnlyItsRecord(c, s, caseId, r, row);
    }
  }

  lemma OnlyItsRecord(c: Codec, s: TimelineService.Tables, caseId: string, r: ArtifactRecord, row: TimelineService.Row)
    requires TimelineService.RecordIdsDistinct(s.records) && r in s.records && TimelineService.BelongsTo(s, r, caseId)
    requires row.recordId == r.id
    ensures (exists q, e :: TimelineService.Yields(c, s, caseId, q, e, row))
       <==> exists e ::
              && e in Normalize(c, s.artifacts[r.artifactId].kind, r).events
              && row == TimelineService.RowOf(s, caseId, r, e)
  {
    hide Normalize;
    if q, e :| TimelineService.Yields(c, s, caseId, q, e, row) {
      TimelineService.RecordFound(s.records, q);
      TimelineService.RecordFound(s.records, r);
    }
    if e :|
      e in Normalize(c, s.artifacts[r.artifactId].kind, r).events && row == TimelineService.RowOf(s, caseId, r, e)
    {
      assert TimelineService.Yields(c, s, caseId, r, e, row);
    }
  }

  /** From the bytes of any accepted MFT record to the table. */
  lemma MftTicksReachTable(raw: Bytes, sectorSize: nat, offset: nat, w: Writer, s: TimelineService.Tables,
                           caseId: string, r: ArtifactRecord)
      returns (cells: seq<Bytes>, xs: seq<MftFormat.Source>, ps: seq<MftFormat.Placement>, rest: Bytes)
    requires ReadsBack(w.codec) && FromDisk(raw, sectorSize, offset).Ok?
    requires r.recordType == "NTFS_MFT_RECORD" && r.data == MftData(w, FromDisk(raw, sectorSize, offset).value)
    requires TimelineService.Upgradable(w.codec, s) && r in s.records && TimelineService.BelongsTo(s, r, caseId)
    requires s.artifacts[r.artifactId].kind == NtfsMft
    ensures MftFormat.AllStored(cells, xs, ps) && MftFormat.ClosesChain(rest) && Resident(xs)
    ensures var fixed := MftFixup.Fixup(raw, Some(sectorSize)).value;
      |fixed| >= 48 && MftRecord.HeaderInBounds(fixed) && AttributeArea(fixed) == Concat(cells) + rest
    ensures RowsTell(s, TimelineService.AfterGenerate(w.codec, s, caseId).rows, caseId, r, MftFacts(w.codec, xs))
  {
    hide FromDisk, MftFixup.Fixup, MftData, MftFacts, Resident, MftFormat.AllStored, MftFormat.ClosesChain, Facts,
      TimelineService.AfterGenerate, RowsTell, TimelineService.Upgradable, ReadsBack, Normalize, Field, Concat;
    cells, xs, ps, rest := NoMftTimestampLost(raw, sectorSize, offset, w, r);
    RecordReachesTable(w.codec, s, caseId, r);
  }

  /** From stored attributes to the table. */
  lemma StoredMftTicksReachTable(plain: Bytes, g: MftFixup.Geometry, tag: (Byte, Byte), first: nat, used: nat,
                                 cells: seq<Bytes>, xs: seq<MftFormat.Source>, ps: seq<MftFormat.Placement>,
                                 rest: Bytes, offset: nat, w: Writer, s: TimelineService.Tables, caseId: string,
                                 r: ArtifactRecord)
    requires ReadsBack(w.codec) && MftRecord.PlainRecord(plain, g, first, used, cells, xs, ps, rest) && Resident(xs)
    requires var decoded := FromDisk(MftFixup.Protect(plain, g, tag), g.sectorSize, offset);
      decoded.Ok? ==> r.recordType == "NTFS_MFT_RECORD" && r.data == MftData(w, decoded.value)
    requires TimelineService.Upgradable(w.codec, s) && r in s.records && TimelineService.BelongsTo(s, r, caseId)
    requires s.artifacts[r.artifactId].kind == NtfsMft
    ensures RowsTell(s, TimelineService.AfterGenerate(w.codec, s, caseId).rows, caseId, r, MftFacts(w.codec, xs))
  {
    StoredMftTimestampsKept(plain, g, tag, first, used, cells, xs, ps, rest, offset, w, r);
    RecordReachesTable(w.codec, s, caseId, r);
  }

  /** From the bytes of any accepted Shell Link to the table. */
  lemma LinkTicksReachTable(data: Bytes, w: Writer, sourceName: Option<string>, sourceId: string,
                            s: TimelineService.Tables, caseId: string, r: ArtifactRecord)
    requires ReadsBack(w.codec) && Lnk.Normalize(data).Ok? && r.recordType == "SHELL_LINK"
    requires r.data == LinkData(w, sourceName, sourceId, Lnk.Normalize(data).value.link)
    requires TimelineService.Upgradable(w.codec, s) && r in s.records && TimelineService.BelongsTo(s, r, caseId)
    requires s.artifacts[r.artifactId].kind == ShellLink
    ensures |data| >= Lnk.HEADER_SIZE
    ensures RowsTell(s, TimelineService.AfterGenerate(w.codec, s, caseId).rows, caseId, r,
                     LinkFacts(w.codec, LnkFormat.HeaderTicks(data), 3))
  {
    hide Lnk.Normalize, LinkData, Facts, TimelineService.AfterGenerate, RowsTell, TimelineService.Upgradable, ReadsBack,
      Normalize, LinkFacts, LnkFormat.HeaderTicks;
    NoLinkTimestampLost(data, w, sourceName, sourceId, r);
    RecordReachesTable(w.codec, s, caseId, r);
  }

  /** From a link laid out as a file to the table. */
  lemma StoredLinkTicksReachTable(f: LnkFormat.Pieces, x: LnkFormat.Source, p: LnkFormat.InfoPlaces, w: Writer,
                                  sourceName: Option<string>, sourceId: string, s: TimelineService.Tables,
                                  caseId: string, r: ArtifactRecord)
    requires ReadsBack(w.codec) && LnkFormat.LinkStored(f, x, p) && r.recordType == "SHELL_LINK"
    requires var parsed := Lnk.Normalize(LnkFormat.FileOf(f));
      parsed.Ok? ==> r.data == LinkData(w, sourceName, sourceId, parsed.value.link)
    requires TimelineService.Upgradable(w.codec, s) && r in s.records && TimelineService.BelongsTo(s, r, caseId)
    requires s.artifacts[r.artifactId].kind == ShellLink
    ensures |x.ticks| == 3
    ensures RowsTell(s, TimelineService.AfterGenerate(w.codec, s, caseId).rows, caseId, r,
                     LinkFacts(w.codec, x.ticks, 3))
  {
    StoredLinkTimestampsKept(f, x, p, w, sourceName, sourceId, r);
    RecordReachesTable(w.codec, s, caseId, r);
  }

  /** From the execution slots of any Prefetch file to the table. */
  lemma ExecutionTicksReachTable(data: Bytes, v: Prefetch.Version, w: Writer, header: Object,
                                 volumes: seq<Prefetch.Volume>, s: TimelineService.Tables, caseId: string,
                                 r: ArtifactRecord)
    requires ReadsBack(w.codec) && r.recordType == "PREFETCH_FILE"
    requires r.data == PrefetchData(w, header, v, Prefetch.ReadExecution(data, v), volumes)
    requires TimelineService.Upgradable(w.codec, s) && r in s.records && TimelineService.BelongsTo(s, r, caseId)
    requires s.artifacts[r.artifactId].kind == Prefetch
    ensures RowsTell(s, TimelineService.AfterGenerate(w.codec, s, caseId).rows, caseId, r,
                     ExecutionFacts(w.codec, Prefetch.KeptTicks(data, v)))
  {
    ExecutionTimesAreKept(data, v, w, header, volumes, r);
    RecordReachesTable(w.codec, s, caseId, r);
  }

  // ----- correlation on converted times

  /** Two events dated from FILETIMEs at most the window apart match in time; a match is never ten ticks further. */
  lemma WindowOnTicks(l: CorrelationRules.Event, r: CorrelationRules.Event, a: nat, b: nat, seconds: int)
    requires FileTime(a).time.Some? && FileTime(b).time.Some?
    requires l.time == Some(FileTime(a).time.value) && r.time == Some(FileTime(b).time.value)
    ensures CorrelationRules.Abs(b - a) <= seconds * 10_000_000 ==> CorrelationRules.WithinWindow(l, r, seconds)
    ensures CorrelationRules.WithinWindow(l, r, seconds) ==> CorrelationRules.Abs(b - a) < seconds * 10_000_000 + 10
  {
    FileTimeExact(a);
    FileTimeExact(b);
  }
}
