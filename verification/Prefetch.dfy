/** The Prefetch parser's execution slots, paired time lists and volume table. */
module Prefetch {
  import opened Wrappers
  import opened WindowsBinary

  const HEADER_SIZE: nat := 84

  datatype Version = V17 | V23 | V26 | V30 | V31

  function SlotCount(v: Version): nat {
    if v == V17 || v == V23 then 1 else 8
  }

  function SlotOffset(v: Version): nat {
    if v == V17 then 120 else 128
  }

  function RunCountOffset(v: Version): nat {
    match v case V17 => 144 case V23 => 152 case _ => 208
  }

  function EntrySize(v: Version): nat {
    match v case V17 => 40 case V23 => 104 case _ => 96
  }

  datatype Warning = TruncatedExecution | UnrepresentableExecution | InvalidVolumes | BadVolumeEntry(index: nat)

  datatype Execution = Execution(stamps: seq<Stamp>, runCount: Option<nat>, warnings: seq<Warning>)

  /** All slots and the run count lie inside the file. */
  predicate Complete(data: Bytes, v: Version) {
    SlotOffset(v) + 8 * SlotCount(v) <= |data| && RunCountOffset(v) + 4 <= |data|
  }

  /** The specification of _execution: all slots or, if any read fails, that of the run count included, none. */
  function ReadExecution(data: Bytes, v: Version): Execution {
    if !Complete(data, v) then Execution([], None, [TruncatedExecution])
    else
      var stamps := seq(SlotCount(v),
                        i requires 0 <= i < SlotCount(v) => FileTime(Field(data, SlotOffset(v), 8 * i, 8)));
      Execution(stamps, Some(Field(data, 0, RunCountOffset(v), 4)),
                if exists i :: 0 <= i < |stamps| && stamps[i].time.None? && stamps[i].raw.Some?
                then [UnrepresentableExecution] else [])
  }

  /** The reads inside the try block, in order; the first that fails gives up everything read before. */
  method LoadExecution(data: Bytes, v: Version) returns (e: Execution)
    ensures e == ReadExecution(data, v)
  {
    hide Le;
    var stamps: seq<Stamp> := [];
    for index := 0 to SlotCount(v)
      invariant |stamps| == index && (index > 0 ==> SlotOffset(v) + 8 * index <= |data|)
      invariant forall k :: 0 <= k < index ==> stamps[k] == FileTime(Field(data, SlotOffset(v), 8 * k, 8))
    {
      var ticks := Uint(data, SlotOffset(v) + index * 8, 8);
      if ticks.Err? {
        return Execution([], None, [TruncatedExecution]);
      }
      stamps := stamps + [FileTime(ticks.value)];
    }
    var runCount := Uint(data, RunCountOffset(v), 4);
    if runCount.Err? {
      return Execution([], None, [TruncatedExecution]);
    }
    assert Complete(data, v);
    ghost var expected := seq(SlotCount(v),
                              i requires 0 <= i < SlotCount(v) => FileTime(Field(data, SlotOffset(v), 8 * i, 8)));
    assert stamps == expected;
    var warnings := if exists i :: 0 <= i < |stamps| && stamps[i].time.None? && stamps[i].raw.Some?
                    then [UnrepresentableExecution] else [];
    return Execution(stamps, Some(runCount.value), warnings);
  }

  /** How many execution slots lie wholly inside the file. */
  function ReadableSlots(data: Bytes, v: Version): (n: nat)
    ensures n <= SlotCount(v) && (n > 0 ==> SlotOffset(v) + 8 * n <= |data|)
    ensures n < SlotCount(v) ==> SlotOffset(v) + 8 * (n + 1) > |data|
  {
    if |data| < SlotOffset(v) then 0
    else if (|data| - SlotOffset(v)) / 8 < SlotCount(v) then (|data| - SlotOffset(v)) / 8
    else SlotCount(v)
  }

  /** Their tick values. */
  function ReadableTicks(data: Bytes, v: Version): seq<nat> {
    seq(ReadableSlots(data, v),
        i requires 0 <= i < ReadableSlots(data, v) => Field(data, SlotOffset(v), 8 * i, 8))
  }

  /** The tick values that survive: the nonzero ones of a complete file, and none of any other. */
  function KeptTicks(data: Bytes, v: Version): seq<nat> {
    if Complete(data, v) then NonZero(ReadableTicks(data, v)) else []
  }

  /** The slots that are kept: the nonzero ones, in order. */
  function Observed(stamps: seq<Stamp>): seq<Stamp> {
    if |stamps| == 0 then []
    else Observed(stamps[..|stamps| - 1]) + if stamps[|stamps| - 1].raw.Some? then [stamps[|stamps| - 1]] else []
  }

  /** The nonzero values of a list. */
  function NonZero(ticks: seq<nat>): seq<nat> {
    if |ticks| == 0 then []
    else NonZero(ticks[..|ticks| - 1]) + if ticks[|ticks| - 1] != 0 then [ticks[|ticks| - 1]] else []
  }

  lemma {:induction false} NonZeroMembers(ticks: seq<nat>)
    ensures forall t :: t in NonZero(ticks) <==> t in ticks && t != 0
  {
    if |ticks| > 0 {
      var n := |ticks| - 1;
      NonZeroMembers(ticks[..n]);
      assert ticks == ticks[..n] + [ticks[n]];
    }
  }

  /** What is kept of the slots are the conversions of the surviving ticks. */
  lemma ObservedAreKept(data: Bytes, v: Version)
    ensures Observed(ReadExecution(data, v).stamps)
         == seq(|KeptTicks(data, v)|, i requires 0 <= i < |KeptTicks(data, v)| => FileTime(KeptTicks(data, v)[i]))
  {
    hide FileTime, Field, NonZero;
    if Complete(data, v) {
      hide Observed;
      var ticks := ReadableTicks(data, v);
      ObservedAreNonZero(ticks);
      assert ReadExecution(data, v).stamps == seq(|ticks|, i requires 0 <= i < |ticks| => FileTime(ticks[i]));
    }
  }

  /** A version 26 file that ends before its run count, with one execution time in its first slot. */
  const TRUNCATED: Bytes := seq(192, i => if i == 128 then 1 else 0)

  /** All eight slots can be read and one of them is set, yet no execution time is left. */
  lemma TruncatedFileLosesTimes()
    ensures ReadableSlots(TRUNCATED, V26) == 8 && 1 in NonZero(ReadableTicks(TRUNCATED, V26))
    ensures KeptTicks(TRUNCATED, V26) == []
    ensures ReadExecution(TRUNCATED, V26) == Execution([], None, [TruncatedExecution])
  {
    var ticks := ReadableTicks(TRUNCATED, V26);
    var slot := TRUNCATED[128..136];
    assert slot == LeBytes(1, 8);
    Pow256Values();
    FieldIsHeld(TRUNCATED, 128, 8, 1);
    assert ticks[0] == 1;
    NonZeroMembers(ticks);
  }

  /** The kept slots are the conversions of the nonzero tick values, in order. */
  lemma {:induction false} ObservedAreNonZero(ticks: seq<nat>)
    ensures Observed(seq(|ticks|, i requires 0 <= i < |ticks| => FileTime(ticks[i])))
         == seq(|NonZero(ticks)|, i requires 0 <= i < |NonZero(ticks)| => FileTime(NonZero(ticks)[i]))
  {
    if |ticks| > 0 {
      var n := |ticks| - 1;
      ObservedAreNonZero(ticks[..n]);
      var stamps := seq(|ticks|, i requires 0 <= i < |ticks| => FileTime(ticks[i]));
      assert stamps[..n] == seq(n, i requires 0 <= i < n => FileTime(ticks[..n][i]));
    }
  }

  // ----- volumes

  datatype Volume = Volume(path: seq<Unit>, created: Stamp, serial: nat)

  function DecodeVolume(data: Bytes, section: nat, entry: nat): Result<Volume> {
    var pathOffset :- Uint(data, entry, 4);
    var pathChars :- Uint(data, entry + 4, 4);
    var created :- Uint(data, entry + 8, 8);
    var serial :- Uint(data, entry + 16, 4);
    var start := section + pathOffset;
    if start + pathChars * 2 > |data| then Err(Structure)
    else
      var path :- Utf16(data[start..start + pathChars * 2]);
      Ok(Volume(path, FileTime(created), serial))
  }

  datatype Volumes = Volumes(volumes: seq<Volume>, warnings: seq<Warning>)

  /** Entries 0..n-1: a bad entry costs one warning and nothing else. */
  function DecodeVolumes(data: Bytes, section: nat, v: Version, n: nat): Volumes {
    if n == 0 then Volumes([], [])
    else
      var before := DecodeVolumes(data, section, v, n - 1);
      match DecodeVolume(data, section, section + (n - 1) * EntrySize(v))
      case Ok(volume) => before.(volumes := before.volumes + [volume])
      case Err(_) => before.(warnings := before.warnings + [BadVolumeEntry(n - 1)])
  }

  function VolumeSection(data: Bytes, section: nat, count: nat, v: Version): Volumes {
    if count == 0 then Volumes([], [])
    else if count > 128 || section < HEADER_SIZE || section >= |data| then Volumes([], [InvalidVolumes])
    else DecodeVolumes(data, section, v, count)
  }

  method ReadVolumes(data: Bytes, section: nat, count: nat, v: Version) returns (r: Volumes)
    ensures r == VolumeSection(data, section, count, v)
  {
    hide DecodeVolume;
    if count == 0 {
      return Volumes([], []);
    }
    if count > 128 || section < HEADER_SIZE || section >= |data| {
      return Volumes([], [InvalidVolumes]);
    }
    var volumes, warnings := [], [];
    for index := 0 to count
      invariant Volumes(volumes, warnings) == DecodeVolumes(data, section, v, index)
    {
      match DecodeVolume(data, section, section + index * EntrySize(v))
      case Ok(volume) => volumes := volumes + [volume];
      case Err(_) => warnings := warnings + [BadVolumeEntry(index)];
    }
    return Volumes(volumes, warnings);
  }

  /** Every entry of an acceptable section yields exactly one volume or one warning. */
  lemma {:induction false} VolumesConserved(data: Bytes, section: nat, v: Version, n: nat)
    ensures |DecodeVolumes(data, section, v, n).volumes| + |DecodeVolumes(data, section, v, n).warnings| == n
    ensures forall i :: 0 <= i < n ==>
      (BadVolumeEntry(i) in DecodeVolumes(data, section, v, n).warnings
       <==> DecodeVolume(data, section, section + i * EntrySize(v)).Err?)
    ensures forall w :: w in DecodeVolumes(data, section, v, n).warnings ==> w.BadVolumeEntry? && w.index < n
  {
    hide DecodeVolume;
    if n > 0 {
      VolumesConserved(data, section, v, n - 1);
    }
  }
}
