/** The correlation rules: identity and time matching of timeline observations. */
module CorrelationRules {
  import opened Wrappers
  import opened Ordering

  datatype EventType =
    | EvtxEvent | RegistryKeyLastWrite | PrefetchExecution
    | LnkCreation | LnkAccess | LnkModification
    | NtfsSi(slot: nat) | NtfsFn(slot: nat)

  /** The metadata entries the rules read; None stands for absent or not a string. */
  datatype Meta = Meta(
    eventId: Option<int>, channel: Option<string>, processName: Option<string>, processPath: Option<string>,
    applicationName: Option<string>, targetPath: Option<string>, filename: Option<string>, fullPath: Option<string>)

  /** A timeline event; its time is in microseconds. */
  datatype Event = Event(
    id: string, caseId: string, eventType: EventType, time: Option<int>, sourceId: Option<string>,
    timeSource: string, ordinal: int, meta: Meta)

  /** The text functions of the host language, left open. */
  datatype TextLib = TextLib(
    strip: string -> string, basename: string -> string, normpath: string -> string,
    isAbs: string -> bool, casefold: string -> string)

  // ----- identities

  function Backslashed(s: string): string {
    seq(|s|, i requires 0 <= i < |s| => if s[i] == '/' then '\\' else s[i])
  }

  function NameOf(t: TextLib, value: Option<string>): Option<string> {
    if value.None? || t.strip(value.value) == "" then None
    else Some(t.casefold(t.basename(Backslashed(t.strip(value.value)))))
  }

  function PathOf(t: TextLib, value: Option<string>): Option<string> {
    if value.None? || t.strip(value.value) == "" then None
    else Some(t.casefold(t.normpath(Backslashed(t.strip(value.value)))))
  }

  function BasenameOf(t: TextLib, value: Option<string>): Option<string> {
    var path := PathOf(t, value);
    if path.Some? && path.value != "" then Some(t.basename(path.value)) else None
  }

  function FullPathOf(t: TextLib, value: Option<string>): Option<string> {
    var path := PathOf(t, value);
    if path.Some? && t.isAbs(path.value) then path else None
  }

  predicate IsProcessEvent(t: TextLib, e: Event) {
    && e.eventType == EvtxEvent && e.meta.eventId == Some(4688)
    && e.meta.channel.Some? && t.casefold(e.meta.channel.value) == "security"
    && NameOf(t, e.meta.processName).Some? && e.time.Some?
  }

  function ProcessEvents(t: TextLib, events: seq<Event>): seq<Event> {
    Filter(events, e => IsProcessEvent(t, e))
  }

  // ----- the join

  const MICROSECONDS: int := 1_000_000

  function Abs(n: int): int {
    if n < 0 then -n else n
  }

  predicate WithinWindow(left: Event, right: Event, seconds: int) {
    left.time.Some? && right.time.Some? && Abs(right.time.value - left.time.value) <= seconds * MICROSECONDS
  }

  /** _event_sort_key; an event without a time has no key and is never sorted. */
  function EventKey(e: Event): seq<Atom> {
    [Num(if e.time.Some? then e.time.value else 0), Str(e.sourceId.GetOr("")), Str(e.timeSource), Num(e.ordinal),
     Str(e.id)]
  }

  function ByEventKey(): Event -> seq<Atom> {
    e => EventKey(e)
  }

  datatype Pair = Pair(left: Event, right: Event, identity: string)

  type Identity = Event -> Option<string>

  /** The right events grouped under one identity. */
  function Bucket(right: seq<Event>, identityOf: Identity, identity: string): seq<Event> {
    Filter(right, InBucket(identityOf, identity))
  }

  function InBucket(identityOf: Identity, identity: string): Event -> bool {
    (e: Event) => e.time.Some? && identityOf(e) == Some(identity)
  }

  function Near(e: Event, window: int): Event -> bool {
    (other: Event) => e.caseId == other.caseId && WithinWindow(e, other, window)
  }

  function PairUp(e: Event, others: seq<Event>, identity: string): (r: seq<Pair>)
    ensures |r| == |others|
  {
    seq(|others|, i requires 0 <= i < |others| => Pair(e, others[i], identity))
  }

  /** The pairs of one left event, nearest keys first. */
  function PairsFor(right: seq<Event>, leftId: Identity, rightId: Identity, window: int): Event -> seq<Pair> {
    e =>
      if leftId(e).None? then []
      else PairUp(e, Filter(Sort(Bucket(right, rightId, leftId(e).value), ByEventKey()), Near(e, window)),
                  leftId(e).value)
  }

  /** The specification of _identity_time_pairs. */
  function Join(left: seq<Event>, right: seq<Event>, leftId: Identity, rightId: Identity, window: int): seq<Pair> {
    FlatMap(Sort(left, ByEventKey()), PairsFor(right, leftId, rightId, window))
  }

  ghost predicate Grouped(grouped: map<string, seq<Event>>, right: seq<Event>, rightId: Identity) {
    forall identity ::
      && (identity in grouped <==> |Bucket(right, rightId, identity)| > 0)
      && (identity in grouped ==> grouped[identity] == Bucket(right, rightId, identity))
  }

  method IdentityTimePairs(left: seq<Event>, right: seq<Event>, leftId: Identity, rightId: Identity, window: int)
      returns (pairs: seq<Pair>)
    requires forall e :: e in left ==> e.time.Some?
    ensures pairs == Join(left, right, leftId, rightId, window)
  {
    hide Sort, FlatMap;
    var grouped := GroupByIdentity(right, rightId);
    pairs := [];
    var ordered := Sort(left, ByEventKey());
    var f := PairsFor(right, leftId, rightId, window);
    FlatMapGrows(ordered, 0, f);
    for i := 0 to |ordered|
      invariant pairs == FlatMap(ordered[..i], f)
    {
      var event := ordered[i];
      FlatMapGrows(ordered, i, f);
      var identity := leftId(event);
      if identity.None? {
        assert pairs + [] == pairs;
        continue;
      }
      var bucket := if identity.value in grouped then grouped[identity.value] else [];
      assert bucket == Bucket(right, rightId, identity.value);
      var found := MatchInBucket(event, Sort(bucket, ByEventKey()), identity.value, window);
      pairs := pairs + found;
    }
    assert ordered[..|ordered|] == ordered;
  }

  lemma FlatMapGrows<T, U>(xs: seq<T>, i: nat, f: T -> seq<U>)
    requires i <= |xs|
    ensures FlatMap(xs[..0], f) == []
    ensures i < |xs| ==> FlatMap(xs[..i + 1], f) == FlatMap(xs[..i], f) + f(xs[i])
  {
    if i < |xs| {
      assert xs[..i + 1][..i] == xs[..i];
    }
  }

  /** The dict of lists. */
  method GroupByIdentity(right: seq<Event>, rightId: Identity) returns (grouped: map<string, seq<Event>>)
    ensures Grouped(grouped, right, rightId)
  {
    grouped := map[];
    for i := 0 to |right|
      invariant Grouped(grouped, right[..i], rightId)
    {
      var event := right[i];
      assert right[..i + 1][..i] == right[..i];
      if event.time.None? {
        continue;
      }
      var identity := rightId(event);
      if identity.Some? {
        var before := if identity.value in grouped then grouped[identity.value] else [];
        grouped := grouped[identity.value := before + [event]];
      }
    }
    assert right[..|right|] == right;
  }

  /** The inner loop. */
  method MatchInBucket(event: Event, bucket: seq<Event>, identity: string, window: int) returns (pairs: seq<Pair>)
    ensures pairs == PairUp(event, Filter(bucket, Near(event, window)), identity)
  {
    pairs := [];
    for i := 0 to |bucket|
      invariant pairs == PairUp(event, Filter(bucket[..i], Near(event, window)), identity)
    {
      var other := bucket[i];
      assert bucket[..i + 1][..i] == bucket[..i];
      if event.caseId == other.caseId && WithinWindow(event, other, window) {
        pairs := pairs + [Pair(event, other, identity)];
      }
    }
    assert bucket[..|bucket|] == bucket;
  }
}
