/** NTFS data runs: variable-width cluster counts and signed cluster deltas. */
module DataRuns {
  import opened Wrappers
  import opened WindowsBinary

  const MAX_DATA_RUNS: nat := 16384

  /** A decoded run.  A sparse run has neither a position nor a delta. */
  datatype Run = Run(count: nat, lcn: Option<int>, delta: Option<int>)

  // ----- the decoder

  /** One run at the head of data: its count, its delta and the bytes it takes. */
  datatype Head = Head(count: nat, delta: Option<int>, size: nat)

  function ReadHead(data: Bytes): (r: Result<Head>)
    requires |data| > 0
    ensures r.Ok? ==> 0 < r.value.size <= |data|
  {
    var lengthSize, offsetSize := data[0] % 16, data[0] / 16;
    var start := 1 + lengthSize;
    if lengthSize == 0 || lengthSize > 8 || offsetSize > 8 || start + offsetSize > |data| then Err(Structure)
    else if Le(data[1..start]) == 0 then Err(Structure)
    else Ok(Head(Le(data[1..start]), DeltaField(data[start..start + offsetSize]), start + offsetSize))
  }

  /** The runs at the head of data, given the position and the number of runs so far. */
  function DecodeRuns(data: Bytes, lcn: int, seen: nat): (r: Result<seq<Run>>)
    decreases |data|
  {
    if |data| == 0 || data[0] == 0 then Ok([])
    else
      var head :- ReadHead(data);
      if seen >= MAX_DATA_RUNS then Err(Structure)
      else Prepend([Placed(head.count, lcn, head.delta)],
                   DecodeRuns(data[head.size..], Advance(lcn, head.delta), seen + 1))
  }

  function Prepend(runs: seq<Run>, r: Result<seq<Run>>): Result<seq<Run>> {
    if r.Ok? then Ok(runs + r.value) else r
  }

  function DeltaField(field: Bytes): Option<int> {
    if |field| == 0 then None else Some(LeSigned(field))
  }

  function Advance(lcn: int, delta: Option<int>): int {
    if delta.Some? then lcn + delta.value else lcn
  }

  function Placed(count: nat, lcn: int, delta: Option<int>): Run {
    Run(count, if delta.Some? then Some(lcn + delta.value) else None, delta)
  }

  method ReadDataRuns(data: Bytes) returns (r: Result<seq<Run>>)
    ensures r == DecodeRuns(data, 0, 0)
  {
    hide Le, LeSigned, ReadHead;
    var runs: seq<Run> := [];
    var offset, currentLcn := 0, 0;
    assert data[0..] == data;
    PrependNone(DecodeRuns(data, 0, 0));
    while offset < |data| && data[offset] != 0
      invariant offset <= |data| && |runs| <= MAX_DATA_RUNS
      invariant DecodeRuns(data, 0, 0) == Prepend(runs, DecodeRuns(data[offset..], currentLcn, |runs|))
    {
      ghost var at, before, done := offset, currentLcn, runs;
      var header := data[offset];
      var lengthSize, offsetSize := header % 16, header / 16;
      HeadAt(data, at, lengthSize, offsetSize);
      offset := offset + 1;
      if lengthSize == 0 || lengthSize > 8 || offsetSize > 8 {
        return Err(Structure);
      }
      if offset + lengthSize + offsetSize > |data| {
        return Err(Structure);
      }
      var clusterCount := Le(data[offset..offset + lengthSize]);
      if clusterCount == 0 {
        return Err(Structure);
      }
      offset := offset + lengthSize;
      var delta, lcn := None, None;
      if offsetSize > 0 {
        delta := Some(LeSigned(data[offset..offset + offsetSize]));
        currentLcn := currentLcn + delta.value;
        lcn := Some(currentLcn);
      }
      offset := offset + offsetSize;
      runs := runs + [Run(clusterCount, lcn, delta)];
      if |runs| > MAX_DATA_RUNS {
        return Err(Structure);
      }
      assert data[at..][offset - at..] == data[offset..];
      assert DecodeRuns(data[at..], before, |done|)
          == Prepend([Run(clusterCount, lcn, delta)], DecodeRuns(data[offset..], currentLcn, |runs|));
      hide DecodeRuns, Prepend;
      PrependOne(done, Run(clusterCount, lcn, delta), DecodeRuns(data[offset..], currentLcn, |runs|));
    }
    assert runs + [] == runs;
    return Ok(runs);
  }

  /** ReadHead of a suffix, in terms of positions in the whole. */
  lemma HeadAt(data: Bytes, offset: nat, n: nat, m: nat)
    requires offset < |data| && n == data[offset] % 16 && m == data[offset] / 16
    ensures var start := offset + 1 + n;
      ReadHead(data[offset..])
      == if n == 0 || n > 8 || m > 8 || start + m > |data| || Le(data[offset + 1..start]) == 0 then Err(Structure)
         else Ok(Head(Le(data[offset + 1..start]), DeltaField(data[start..start + m]), 1 + n + m))
  {
    if offset + 1 + n + m <= |data| {
      assert data[offset..][1..1 + n] == data[offset + 1..offset + 1 + n];
      assert data[offset..][1 + n..1 + n + m] == data[offset + 1 + n..offset + 1 + n + m];
    }
  }

  lemma PrependNone(r: Result<seq<Run>>)
    ensures Prepend([], r) == r
  {
    if r.Ok? {
      assert [] + r.value == r.value;
    }
  }

  lemma PrependOne(runs: seq<Run>, run: Run, r: Result<seq<Run>>)
    ensures Prepend(runs + [run], r) == Prepend(runs, Prepend([run], r))
  {
    if r.Ok? {
      assert runs + [run] + r.value == runs + ([run] + r.value);
    }
  }

  // ----- the format, stated as an encoder

  /** One run as a writer chooses to store it, with its two field widths. */
  datatype RunCode = RunCode(count: nat, delta: Option<int>, lengthSize: nat, offsetSize: nat)

  predicate Storable(c: RunCode) {
    && 1 <= c.lengthSize <= 8
    && 0 < c.count < Pow256(c.lengthSize)
    && match c.delta
       case None => c.offsetSize == 0
       case Some(d) => 1 <= c.offsetSize <= 8 && FitsSigned(d, c.offsetSize)
  }

  predicate AllStorable(cs: seq<RunCode>) {
    forall i :: 0 <= i < |cs| ==> Storable(cs[i])
  }

  function DeltaBytes(c: RunCode): (bs: Bytes)
    requires Storable(c)
    ensures |bs| == c.offsetSize
  {
    if c.delta.Some? then SignedBytes(c.delta.value, c.offsetSize) else []
  }

  function EncodeRun(c: RunCode): Bytes
    requires Storable(c)
  {
    [(c.lengthSize + 16 * c.offsetSize) as Byte] + LeBytes(c.count, c.lengthSize) + DeltaBytes(c)
  }

  function EncodeRuns(cs: seq<RunCode>): Bytes
    requires AllStorable(cs)
  {
    if |cs| == 0 then [] else EncodeRun(cs[0]) + EncodeRuns(cs[1..])
  }

  /** The sum of the deltas of a list of runs; sparse runs add nothing. */
  function DeltaSum(cs: seq<RunCode>): int {
    if |cs| == 0 then 0 else (if cs[0].delta.Some? then cs[0].delta.value else 0) + DeltaSum(cs[1..])
  }

  /** The runs a list of codes stands for, starting from a position. */
  function Meaning(cs: seq<RunCode>, lcn: int): (runs: seq<Run>)
    ensures |runs| == |cs|
  {
    if |cs| == 0 then []
    else [Placed(cs[0].count, lcn, cs[0].delta)] + Meaning(cs[1..], Advance(lcn, cs[0].delta))
  }

  /** Each position is the signed prefix sum of the deltas; a sparse run has none. */
  lemma {:induction false} PositionIsPrefixSum(cs: seq<RunCode>, lcn: int, i: nat)
    requires i < |cs|
    ensures Meaning(cs, lcn)[i].count == cs[i].count
    ensures Meaning(cs, lcn)[i].delta == cs[i].delta
    ensures Meaning(cs, lcn)[i].lcn == if cs[i].delta.Some? then Some(lcn + DeltaSum(cs[..i + 1])) else None
  {
    assert cs[..i + 1][1..] == cs[1..][..i];
    if i > 0 {
      PositionIsPrefixSum(cs[1..], Advance(lcn, cs[0].delta), i - 1);
    } else {
      assert DeltaSum(cs[1..][..0]) == 0;
    }
  }

  /** Reading one stored run gives back its count, its delta and its size. */
  lemma HeadUndoesEncodeRun(c: RunCode, rest: Bytes)
    requires Storable(c)
    ensures ReadHead(EncodeRun(c) + rest) == Ok(Head(c.count, c.delta, |EncodeRun(c)|))
    ensures (EncodeRun(c) + rest)[0] != 0 && (EncodeRun(c) + rest)[|EncodeRun(c)|..] == rest
  {
    hide Le, LeSigned, LeBytes, SignedBytes;
    var data, n, m := EncodeRun(c) + rest, c.lengthSize, c.offsetSize;
    assert data[0] % 16 == n && data[0] / 16 == m;
    assert data[1..1 + n] == LeBytes(c.count, n);
    assert data[1 + n..1 + n + m] == DeltaBytes(c);
    LeUndoesLeBytes(c.count, n);
    if c.delta.Some? {
      LeSignedUndoesSignedBytes(c.delta.value, m);
    }
  }

  /** Decoding undoes encoding, up to and including the limit on the number of runs. */
  lemma {:induction false} DecodeUndoesEncode(cs: seq<RunCode>, rest: Bytes, lcn: int, seen: nat)
    requires AllStorable(cs) && seen <= 16384
    requires |rest| > 0 ==> rest[0] == 0
    ensures DecodeRuns(EncodeRuns(cs) + rest, lcn, seen)
         == if seen + |cs| <= 16384 then Ok(Meaning(cs, lcn)) else Err(Structure)
  {
    hide ReadHead, EncodeRun, Storable;
    if |cs| == 0 {
      assert EncodeRuns(cs) + rest == rest;
    } else {
      var c := cs[0];
      var tail := EncodeRuns(cs[1..]) + rest;
      assert EncodeRuns(cs) + rest == EncodeRun(c) + tail;
      HeadUndoesEncodeRun(c, tail);
      if seen < MAX_DATA_RUNS {
        DecodeUndoesEncode(cs[1..], rest, Advance(lcn, c.delta), seen + 1);
      }
    }
  }

  /** The run code that a decoded head stands for. */
  function CodeOf(data: Bytes): RunCode
    requires |data| > 0 && ReadHead(data).Ok?
  {
    RunCode(ReadHead(data).value.count, ReadHead(data).value.delta, data[0] % 16, data[0] / 16)
  }

  lemma EncodeRunUndoesHead(data: Bytes)
    requires |data| > 0 && ReadHead(data).Ok?
    ensures Storable(CodeOf(data))
    ensures data == EncodeRun(CodeOf(data)) + data[ReadHead(data).value.size..]
  {
    hide Le, LeSigned, LeBytes, SignedBytes, Pow256, FitsSigned;
    var n, m := data[0] % 16, data[0] / 16;
    var length, delta := data[1..1 + n], data[1 + n..1 + n + m];
    LeBytesUndoesLe(length);
    if m > 0 {
      SignedBytesUndoesLeSigned(delta);
    }
    assert DeltaBytes(CodeOf(data)) == delta;
    assert EncodeRun(CodeOf(data)) == [data[0]] + length + delta;
  }

  /**
   Decoding accepts nothing else: whatever decodes is the encoding of storable runs, within
   the limit, closed by a zero byte or the end of the data.
   */
  lemma {:induction false} DecodedWasEncoded(data: Bytes, lcn: int, seen: nat) returns (cs: seq<RunCode>, rest: Bytes)
    requires DecodeRuns(data, lcn, seen).Ok? && seen <= 16384
    ensures AllStorable(cs) && seen + |cs| <= 16384
    ensures data == EncodeRuns(cs) + rest && (|rest| > 0 ==> rest[0] == 0)
    ensures DecodeRuns(data, lcn, seen) == Ok(Meaning(cs, lcn))
    decreases |data|
  {
    hide ReadHead, EncodeRun, Storable;
    if |data| == 0 || data[0] == 0 {
      cs, rest := [], data;
    } else {
      var c, tail := CodeOf(data), data[ReadHead(data).value.size..];
      EncodeRunUndoesHead(data);
      var more;
      more, rest := DecodedWasEncoded(tail, Advance(lcn, c.delta), seen + 1);
      cs := [c] + more;
      assert cs[1..] == more;
      assert data == EncodeRun(c) + (EncodeRuns(more) + rest);
    }
  }
}
