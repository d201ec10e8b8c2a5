/** The Prefetch parser's fields by their offsets, version by version. */
module PrefetchLaws {
  import opened Wrappers
  import opened WindowsBinary
  import opened Prefetch

  /** Offset and number of the execution slots, offset of the run count, size of a volume entry. */
  datatype Shape = Shape(slots: nat, slotCount: nat, runCount: nat, entry: nat)

  predicate HasShape(v: Version, s: Shape) {
    match v
    case V17 => s == Shape(120, 1, 144, 40)
    case V23 => s == Shape(128, 1, 152, 104)
    case V26 => s == Shape(128, 8, 208, 96)
    case V30 => s == Shape(128, 8, 208, 96)
    case V31 => s == Shape(128, 8, 208, 96)
  }

  // ----- executions

  ghost predicate ExecutionStored(data: Bytes, s: Shape, ticks: seq<nat>, runs: nat) {
    && |ticks| == s.slotCount && (forall i :: 0 <= i < |ticks| ==> Holds(data, s.slots + 8 * i, 8, ticks[i]))
    && Holds(data, s.runCount, 4, runs)
  }

  /** Stored slots and run count are read back, with a warning exactly if some time has no datetime. */
  lemma ExecutionReads(data: Bytes, v: Version, s: Shape, ticks: seq<nat>, runs: nat)
    requires HasShape(v, s) && ExecutionStored(data, s, ticks, runs)
    ensures var e := ReadExecution(data, v);
      && |e.stamps| == |ticks| && (forall i :: 0 <= i < |ticks| ==> e.stamps[i] == FileTime(ticks[i]))
      && e.runCount == Some(runs)
      && e.warnings == if exists i :: 0 <= i < |ticks| && ticks[i] >= 2650467744000000000
                       then [UnrepresentableExecution] else []
  {
    hide Holds, Field, FileTime;
    assert Holds(data, s.slots + 8 * (s.slotCount - 1), 8, ticks[s.slotCount - 1]);
    HeldInside(data, s.slots + 8 * (s.slotCount - 1), 8, ticks[s.slotCount - 1]);
    HeldInside(data, s.runCount, 4, runs);
    FieldIsHeld(data, s.runCount, 4, runs);
    var stamps := ReadExecution(data, v).stamps;
    forall i | 0 <= i < |ticks|
      ensures Field(data, s.slots, 8 * i, 8) == ticks[i]
      ensures FileTime(ticks[i]).time.None? && FileTime(ticks[i]).raw.Some? <==> ticks[i] >= 2650467744000000000
    {
      HeldAhead(data, s.slots, 8 * i, ticks[i]);
      FileTimeExact(ticks[i]);
    }
  }

  lemma HeldInside(data: Bytes, at: nat, w: nat, value: nat)
    requires Holds(data, at, w, value)
    ensures at + w <= |data|
  {
  }

  lemma HeldAhead(data: Bytes, from: nat, k: nat, ticks: nat)
    requires Holds(data, from + k, 8, ticks)
    ensures from + k + 8 <= |data| && Field(data, from, k, 8) == ticks
  {
    hide LeBytes, Pow256, Le;
    FieldIsHeld(data, from + k, 8, ticks);
  }

  /** Nothing is read exactly if the file is too short for a slot or for the run count. */
  lemma TruncatedIff(data: Bytes, v: Version, s: Shape)
    requires HasShape(v, s)
    ensures ReadExecution(data, v) == Execution([], None, [TruncatedExecution]) <==>
      |data| < s.slots + 8 * s.slotCount || |data| < s.runCount + 4
  {
    hide Field, FileTime;
  }

  // ----- volumes

  /** A volume entry: path offset from the section, path length, creation time, serial number. */
  ghost predicate EntryStored(data: Bytes, section: nat, entry: nat, offset: nat, units: nat, ticks: nat, v: Volume) {
    && Holds(data, entry, 4, offset) && Holds(data, entry + 4, 4, units) && Holds(data, entry + 8, 8, ticks)
    && Holds(data, entry + 16, 4, v.serial) && v.created == FileTime(ticks)
    && section + offset + 2 * units <= |data| && |v.path| == units && WellFormed(v.path)
    && forall k :: 0 <= k < units ==>
         v.path[k] == data[section + offset + 2 * k] + 256 * (data[section + offset + 2 * k + 1] as int)
  }

  /** The units, low byte first. */
  predicate Spelled(bs: Bytes, us: seq<Unit>) {
    |bs| == 2 * |us| && forall k :: 0 <= k < |us| ==> us[k] == bs[2 * k] + 256 * (bs[2 * k + 1] as int)
  }

  lemma PathIff(bs: Bytes, us: seq<Unit>)
    requires |bs| % 2 == 0
    ensures Utf16(bs) == Ok(us) <==> Spelled(bs, us) && WellFormed(us)
  {
    hide WellFormed;
    if Spelled(bs, us) {
      assert Units(bs) == us;
    }
  }

  /** A volume entry is read exactly as it stands. */
  lemma EntryIff(data: Bytes, section: nat, entry: nat, v: Volume)
    ensures DecodeVolume(data, section, entry) == Ok(v) <==>
      exists offset: nat, units: nat, ticks: nat :: EntryStored(data, section, entry, offset, units, ticks, v)
  {
    hide DecodeVolume, EntryStored;
    if DecodeVolume(data, section, entry) == Ok(v) {
      EntryShown(data, section, entry, v);
    }
    if offset: nat, units: nat, ticks: nat :| EntryStored(data, section, entry, offset, units, ticks, v) {
      EntryRead(data, section, entry, offset, units, ticks, v);
    }
  }

  lemma EntryRead(data: Bytes, section: nat, entry: nat, offset: nat, units: nat, ticks: nat, v: Volume)
    requires EntryStored(data, section, entry, offset, units, ticks, v)
    ensures DecodeVolume(data, section, entry) == Ok(v)
  {
    hide Le, LeBytes, Pow256, FileTime, WellFormed, Utf16;
    UintReadsWhatIsHeld(data, entry, 4, offset);
    UintReadsWhatIsHeld(data, entry + 4, 4, units);
    UintReadsWhatIsHeld(data, entry + 8, 8, ticks);
    UintReadsWhatIsHeld(data, entry + 16, 4, v.serial);
    var start := section + offset;
    PathIff(data[start..start + units * 2], v.path);
  }

  lemma EntryShown(data: Bytes, section: nat, entry: nat, v: Volume)
    requires DecodeVolume(data, section, entry) == Ok(v)
    ensures exists offset: nat, units: nat, ticks: nat :: EntryStored(data, section, entry, offset, units, ticks, v)
  {
    hide Le, LeBytes, Pow256, FileTime, WellFormed, Utf16;
    var offset, units := Uint(data, entry, 4).value, Uint(data, entry + 4, 4).value;
    var ticks := Uint(data, entry + 8, 8).value;
    UintReadsWhatIsHeld(data, entry, 4, offset);
    UintReadsWhatIsHeld(data, entry + 4, 4, units);
    UintReadsWhatIsHeld(data, entry + 8, 8, ticks);
    UintReadsWhatIsHeld(data, entry + 16, 4, v.serial);
    var start := section + offset;
    PathIff(data[start..start + units * 2], v.path);
    hide Holds;
    assert EntryStored(data, section, entry, offset, units, ticks, v);
  }

  /** Entry k of the section, and the volumes of the entries that can be read, in order. */
  function Entries(data: Bytes, section: nat, size: nat, n: nat): seq<Volume> {
    if n == 0 then []
    else
      var last := DecodeVolume(data, section, section + (n - 1) * size);
      Entries(data, section, size, n - 1) + if last.Ok? then [last.value] else []
  }

  lemma {:induction false} EntriesDecoded(data: Bytes, section: nat, v: Version, s: Shape, n: nat)
    requires HasShape(v, s)
    ensures DecodeVolumes(data, section, v, n).volumes == Entries(data, section, s.entry, n)
  {
    hide DecodeVolume;
    if n > 0 {
      EntriesDecoded(data, section, v, s, n - 1);
    }
  }

  /** The whole section: none, refused as a whole, or entry by entry. */
  lemma SectionTells(data: Bytes, section: nat, count: nat, v: Version, s: Shape)
    requires HasShape(v, s)
    ensures count == 0 ==> VolumeSection(data, section, count, v) == Volumes([], [])
    ensures count > 0 && (count > 128 || section < 84 || section >= |data|) ==>
      VolumeSection(data, section, count, v) == Volumes([], [InvalidVolumes])
    ensures 0 < count <= 128 && 84 <= section < |data| ==>
      var r := VolumeSection(data, section, count, v);
      && r.volumes == Entries(data, section, s.entry, count)
      && forall i: nat :: i < count ==>
           (BadVolumeEntry(i) in r.warnings <==> DecodeVolume(data, section, section + i * s.entry).Err?)
  {
    hide DecodeVolume, DecodeVolumes, Entries;
    EntriesDecoded(data, section, v, s, count);
    VolumesConserved(data, section, v, count);
  }
}
