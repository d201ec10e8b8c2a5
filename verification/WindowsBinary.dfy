/**
 The byte primitives shared by the binary parsers: little-endian integers, UTF-16LE text,
 NUL-terminated strings and FILETIME conversion.
 */
module WindowsBinary {
  import opened Wrappers

  type Byte = b: int | 0 <= b < 256
  type Bytes = seq<Byte>
  type Unit = u: int | 0 <= u < 65536

  // ----- little-endian integers

  function Pow256(n: nat): (p: nat)
    ensures p > 0
  {
    if n == 0 then 1 else 256 * Pow256(n - 1)
  }

  lemma Pow256Values()
    ensures Pow256(1) == 0x100 && Pow256(2) == 0x1_0000 && Pow256(4) == 0x1_0000_0000
    ensures Pow256(8) == 0x1_0000_0000_0000_0000
  {
    assert Pow256(3) == 0x100_0000;
    assert Pow256(5) == 0x100_0000_0000;
    assert Pow256(6) == 0x1_0000_0000_0000;
    assert Pow256(7) == 0x100_0000_0000_0000;
  }

  /** The value of a little-endian byte string. */
  function Le(bs: Bytes): (v: nat) {
    if |bs| == 0 then 0 else bs[0] + 256 * Le(bs[1..])
  }

  /** The n-byte little-endian form of v. */
  function LeBytes(v: nat, n: nat): (bs: Bytes)
    ensures |bs| == n
  {
    if n == 0 then [] else [v % 256] + LeBytes(v / 256, n - 1)
  }

  lemma {:induction false} LeUndoesLeBytes(v: nat, n: nat)
    requires v < Pow256(n)
    ensures Le(LeBytes(v, n)) == v
  {
    if n > 0 {
      LeUndoesLeBytes(v / 256, n - 1);
      assert LeBytes(v, n)[1..] == LeBytes(v / 256, n - 1);
    }
  }

  lemma {:induction false} LeBytesUndoesLe(bs: Bytes)
    ensures Le(bs) < Pow256(|bs|)
    ensures LeBytes(Le(bs), |bs|) == bs
  {
    if |bs| > 0 {
      LeBytesUndoesLe(bs[1..]);
      var v, n := Le(bs[1..]), |bs| - 1;
      assert Le(bs) == bs[0] + 256 * v && Pow256(|bs|) == 256 * Pow256(n);
      assert Le(bs) % 256 == bs[0] && Le(bs) / 256 == v;
      assert LeBytes(Le(bs), |bs|) == [Le(bs) % 256] + LeBytes(Le(bs) / 256, n);
      hide Le, LeBytes, Pow256;
      assert bs == [bs[0]] + bs[1..];
    }
  }

  /** int.from_bytes(bs, "little", signed=True). */
  function LeSigned(bs: Bytes): int {
    if 2 * Le(bs) >= Pow256(|bs|) && |bs| > 0 then Le(bs) - Pow256(|bs|) else Le(bs)
  }

  /** d is representable in n bytes of two's complement. */
  predicate FitsSigned(d: int, n: nat) {
    0 <= 2 * d + Pow256(n) && 2 * d < Pow256(n)
  }

  function SignedBytes(d: int, n: nat): (bs: Bytes)
    requires FitsSigned(d, n)
    ensures |bs| == n
  {
    LeBytes(if d < 0 then d + Pow256(n) else d, n)
  }

  lemma LeSignedUndoesSignedBytes(d: int, n: nat)
    requires 0 < n && FitsSigned(d, n)
    ensures LeSigned(SignedBytes(d, n)) == d
  {
    LeUndoesLeBytes(if d < 0 then d + Pow256(n) else d, n);
  }

  lemma SignedBytesUndoesLeSigned(bs: Bytes)
    requires |bs| > 0
    ensures FitsSigned(LeSigned(bs), |bs|)
    ensures SignedBytes(LeSigned(bs), |bs|) == bs
  {
    LeBytesUndoesLe(bs);
  }

  /** uint16, uint32 and uint64 (n = 2, 4, 8), and a single byte read (n = 1). */
  function Uint(data: Bytes, offset: nat, n: nat): (r: Result<nat>) {
    if offset + n > |data| then Err(Structure) else Ok(Le(data[offset..offset + n]))
  }

  /** The layout relation: the n bytes at offset hold v, least significant byte first. */
  predicate Holds(data: Bytes, offset: nat, n: nat, v: nat) {
    offset + n <= |data| && v < Pow256(n) && data[offset..offset + n] == LeBytes(v, n)
  }

  lemma UintReadsWhatIsHeld(data: Bytes, offset: nat, n: nat, v: nat)
    ensures Holds(data, offset, n, v) <==> Uint(data, offset, n) == Ok(v)
  {
    if v < Pow256(n) {
      LeUndoesLeBytes(v, n);
    }
    if offset + n <= |data| {
      LeBytesUndoesLe(data[offset..offset + n]);
    }
  }

  /** An unsigned field of w bytes at position k of the structure at offset. */
  function Field(data: Bytes, offset: nat, k: nat, w: nat): nat
    requires offset + k + w <= |data|
  {
    Le(data[offset + k..offset + k + w])
  }

  lemma SliceOfSlice(data: Bytes, offset: nat, length: nat, lo: nat, hi: nat)
    requires offset + length <= |data| && lo <= hi <= length
    ensures data[offset..offset + length][lo..hi] == data[offset + lo..offset + hi]
  {
    var whole, part := data[offset..offset + length], data[offset + lo..offset + hi];
    forall i | 0 <= i < hi - lo
      ensures whole[lo..hi][i] == part[i]
    {
      assert whole[lo..hi][i] == whole[lo + i] == data[offset + lo + i];
    }
  }

  /** A field of a slice is a field of the whole. */
  lemma FieldIsLocal(data: Bytes, offset: nat, length: nat, k: nat, w: nat)
    requires offset + length <= |data| && k + w <= length
    ensures Field(data[offset..offset + length], 0, k, w) == Field(data, offset, k, w)
  {
    SliceOfSlice(data, offset, length, k, k + w);
  }

  lemma FieldOfSuffix(data: Bytes, offset: nat, k: nat, w: nat)
    requires offset + k + w <= |data|
    ensures Field(data[offset..], 0, k, w) == Field(data, offset, k, w)
  {
    assert data[offset..offset + (|data| - offset)] == data[offset..];
    FieldIsLocal(data, offset, |data| - offset, k, w);
  }

  lemma FieldIsHeld(data: Bytes, k: nat, w: nat, v: nat)
    requires k + w <= |data|
    ensures Holds(data, k, w, v) <==> Field(data, 0, k, w) == v
  {
    hide Le, LeBytes, Pow256;
    UintReadsWhatIsHeld(data, k, w, v);
  }

  /** Pieces laid end to end. */
  function Concat(cells: seq<Bytes>): Bytes {
    if |cells| == 0 then [] else cells[0] + Concat(cells[1..])
  }

  lemma ConcatOne(a: Bytes, cells: seq<Bytes>)
    ensures Concat([a] + cells) == a + Concat(cells)
  {
    assert ([a] + cells)[1..] == cells;
  }

  // ----- UTF-16LE text

  predicate High(u: Unit) { 0xD800 <= u < 0xDC00 }

  predicate Low(u: Unit) { 0xDC00 <= u < 0xE000 }

  /** Every high surrogate is followed by a low one and every low one follows a high one. */
  predicate WellFormed(us: seq<Unit>) {
    forall i :: 0 <= i < |us| ==>
      && (High(us[i]) ==> i + 1 < |us| && Low(us[i + 1]))
      && (Low(us[i]) ==> i > 0 && High(us[i - 1]))
  }

  function Pair(low: Byte, high: Byte): Unit {
    (low as int) + 256 * (high as int)
  }

  function Units(bs: Bytes): (us: seq<Unit>)
    ensures |us| == |bs| / 2
  {
    seq(|bs| / 2, i requires 0 <= i < |bs| / 2 => Pair(bs[2 * i], bs[2 * i + 1]))
  }

  /** bytes.decode("utf-16-le"), strict. */
  function Utf16(bs: Bytes): (r: Result<seq<Unit>>) {
    if |bs| % 2 == 0 && WellFormed(Units(bs)) then Ok(Units(bs)) else Err(Unicode)
  }

  function Utf16Bytes(us: seq<Unit>): (bs: Bytes)
    ensures |bs| == 2 * |us|
  {
    seq(2 * |us|, i requires 0 <= i < 2 * |us| =>
      (if i % 2 == 0 then us[i / 2] % 256 else us[i / 2] / 256) as Byte)
  }

  lemma Utf16UndoesUtf16Bytes(us: seq<Unit>)
    ensures Units(Utf16Bytes(us)) == us
    ensures Utf16(Utf16Bytes(us)) == if WellFormed(us) then Ok(us) else Err(Unicode)
  {
    var bs := Utf16Bytes(us);
    forall i | 0 <= i < |us|
      ensures Units(bs)[i] == us[i]
    {
      assert bs[2 * i] == us[i] % 256 && bs[2 * i + 1] == us[i] / 256;
    }
    assert Units(bs) == us;
  }

  /** Decoding loses nothing: the text determines the bytes. */
  lemma Utf16BytesUndoesUtf16(bs: Bytes)
    requires Utf16(bs).Ok?
    ensures Utf16Bytes(Utf16(bs).value) == bs
  {
    var us := Units(bs);
    forall i | 0 <= i < |bs|
      ensures Utf16Bytes(us)[i] == bs[i]
    {
      assert us[i / 2] == Pair(bs[2 * (i / 2)], bs[2 * (i / 2) + 1]);
    }
    assert Utf16Bytes(us) == bs;
  }

  // ----- utf16_fixed and c_string

  predicate NulPair(data: Bytes, i: nat) {
    i + 1 < |data| && data[i] == 0 && data[i + 1] == 0
  }

  /** The text of a fixed-size field: up to the first aligned NUL pair, or all of it. */
  method Utf16Fixed(data: Bytes) returns (r: Result<seq<Unit>>)
    ensures exists end: nat ::
      && end <= |data|
      && (end == |data| || (end % 2 == 0 && NulPair(data, end)))
      && (forall j :: 0 <= j < end / 2 ==> !NulPair(data, 2 * j))
      && r == Utf16(data[..end])
  {
    var end := |data|;
    var offset := 0;
    while offset < |data| - 1
      invariant offset % 2 == 0 && offset <= |data| + 1
      invariant end == |data|
      invariant forall j :: 0 <= j < offset / 2 ==> !NulPair(data, 2 * j)
    {
      if data[offset] == 0 && data[offset + 1] == 0 {
        end := offset;
        break;
      }
      offset := offset + 2;
    }
    r := Utf16(data[..end]);
  }

  /** Decoded text, as UTF-16 code units whatever it was decoded from. */
  type Text = seq<Unit>

  // ----- the ANSI code page 1252

  const REPLACEMENT: Unit := 0xFFFD

  /** The characters of the octets 0x80 to 0x9F; five of them are undefined. */
  const UPPER_1252: seq<Unit> := [
    0x20AC, 0xFFFD, 0x201A, 0x0192, 0x201E, 0x2026, 0x2020, 0x2021,
    0x02C6, 0x2030, 0x0160, 0x2039, 0x0152, 0xFFFD, 0x017D, 0xFFFD,
    0xFFFD, 0x2018, 0x2019, 0x201C, 0x201D, 0x2022, 0x2013, 0x2014,
    0x02DC, 0x2122, 0x0161, 0x203A, 0x0153, 0xFFFD, 0x017E, 0x0178]

  function Char1252(b: Byte): Unit {
    if 0x80 <= b < 0xA0 then UPPER_1252[b - 0x80] else b
  }

  function Octet1252(u: Unit): Option<Byte> {
    if u < 0x80 || 0xA0 <= u < 0x100 then Some(u)
    else match u
      case 0x20AC => Some(0x80)
      case 0x201A => Some(0x82)
      case 0x0192 => Some(0x83)
      case 0x201E => Some(0x84)
      case 0x2026 => Some(0x85)
      case 0x2020 => Some(0x86)
      case 0x2021 => Some(0x87)
      case 0x02C6 => Some(0x88)
      case 0x2030 => Some(0x89)
      case 0x0160 => Some(0x8A)
      case 0x2039 => Some(0x8B)
      case 0x0152 => Some(0x8C)
      case 0x017D => Some(0x8E)
      case 0x2018 => Some(0x91)
      case 0x2019 => Some(0x92)
      case 0x201C => Some(0x93)
      case 0x201D => Some(0x94)
      case 0x2022 => Some(0x95)
      case 0x2013 => Some(0x96)
      case 0x2014 => Some(0x97)
      case 0x02DC => Some(0x98)
      case 0x2122 => Some(0x99)
      case 0x0161 => Some(0x9A)
      case 0x203A => Some(0x9B)
      case 0x0153 => Some(0x9C)
      case 0x017E => Some(0x9E)
      case 0x0178 => Some(0x9F)
      case _ => None
  }

  lemma OctetUndoesChar(b: Byte)
    requires Char1252(b) != REPLACEMENT
    ensures Octet1252(Char1252(b)) == Some(b)
  {
  }

  lemma CharUndoesOctet(u: Unit)
    requires Octet1252(u).Some?
    ensures Char1252(Octet1252(u).value) == u && u != REPLACEMENT
  {
  }

  /** bytes.decode("cp1252", errors="replace"). */
  function Chars(bs: Bytes): Text {
    seq(|bs|, i requires 0 <= i < |bs| => Char1252(bs[i]))
  }

  /** bytes.decode("cp1252"), strict. */
  function Cp1252(bs: Bytes): Result<Text> {
    if REPLACEMENT in Chars(bs) then Err(Unicode) else Ok(Chars(bs))
  }

  predicate InCodePage(text: Text) {
    forall i :: 0 <= i < |text| ==> Octet1252(text[i]).Some?
  }

  function Octets(text: Text): Bytes
    requires InCodePage(text)
  {
    seq(|text|, i requires 0 <= i < |text| => Octet1252(text[i]).value)
  }

  lemma CharsUndoesOctets(text: Text)
    requires InCodePage(text)
    ensures Chars(Octets(text)) == text && Cp1252(Octets(text)) == Ok(text)
    ensures 0 in Octets(text) ==> 0 in text
  {
    forall i | 0 <= i < |text|
      ensures Chars(Octets(text))[i] == text[i] != REPLACEMENT
    {
      CharUndoesOctet(text[i]);
    }
  }

  lemma OctetsUndoesChars(bs: Bytes)
    requires Cp1252(bs).Ok?
    ensures InCodePage(Cp1252(bs).value) && Octets(Cp1252(bs).value) == bs
  {
    var text := Chars(bs);
    forall i | 0 <= i < |bs|
      ensures Octet1252(text[i]) == Some(bs[i])
    {
      assert text[i] in text;
      OctetUndoesChar(bs[i]);
    }
  }

  function WideEnd(data: Bytes, offset: nat): (end: nat)
    requires offset <= |data|
    ensures offset <= end <= |data| && (end - offset) % 2 == 0
    decreases |data| - offset
  {
    if offset + 1 < |data| && !NulPair(data, offset) then WideEnd(data, offset + 2) else offset
  }

  function AnsiEnd(data: Bytes, offset: nat): (end: nat)
    requires offset <= |data|
    ensures offset <= end <= |data|
    decreases |data| - offset
  {
    if offset < |data| && data[offset] != 0 then AnsiEnd(data, offset + 1) else offset
  }

  /** The specification of c_string: offset 0 and offsets past the end mean "absent". */
  function CString(data: Bytes, offset: nat, unicode: bool): (r: Result<Option<Text>>) {
    if offset == 0 || offset >= |data| then Ok(None)
    else if unicode then
      var units :- Utf16(data[offset..WideEnd(data, offset)]);
      Ok(Some(units))
    else Ok(Some(Chars(data[offset..AnsiEnd(data, offset)])))
  }

  method ReadCString(data: Bytes, offset: nat, unicode: bool) returns (r: Result<Option<Text>>)
    ensures r == CString(data, offset, unicode)
  {
    if offset == 0 || offset >= |data| {
      return Ok(None);
    }
    if unicode {
      var end := offset;
      while end + 1 < |data| && !(data[end] == 0 && data[end + 1] == 0)
        invariant offset <= end <= |data|
        invariant WideEnd(data, offset) == WideEnd(data, end)
      {
        end := end + 2;
      }
      var decoded := Utf16(data[offset..end]);
      return if decoded.Ok? then Ok(Some(decoded.value)) else Err(decoded.fault);
    }
    return Ok(Some(Chars(data[offset..AnsiEnd(data, offset)])));
  }

  /** The bytes stand at offset, followed by a terminator inside the block. */
  predicate Terminated(data: Bytes, offset: nat, bs: Bytes, unicode: bool) {
    && offset + |bs| <= |data| && data[offset..offset + |bs|] == bs
    && if unicode then NulPair(data, offset + |bs|) else offset + |bs| < |data| && data[offset + |bs|] == 0
  }

  /** Text a NUL-terminated field can carry. */
  predicate Terminable(text: Text, unicode: bool) {
    0 !in text && if unicode then WellFormed(text) else InCodePage(text)
  }

  predicate StoredText(data: Bytes, offset: nat, text: Text, unicode: bool)
    requires Terminable(text, unicode)
  {
    Terminated(data, offset, if unicode then Utf16Bytes(text) else Octets(text), unicode)
  }

  lemma {:induction false} WideEndFound(data: Bytes, offset: nat, us: seq<Unit>, k: nat)
    requires Terminated(data, offset, Utf16Bytes(us), true) && 0 !in us && k <= |us|
    ensures WideEnd(data, offset + 2 * k) == offset + 2 * |us|
    decreases |us| - k
  {
    if k < |us| {
      WideStored(data, offset, us, k);
      hide Utf16Bytes;
      WideEndFound(data, offset, us, k + 1);
    }
  }

  lemma WideStored(data: Bytes, offset: nat, us: seq<Unit>, k: nat)
    requires offset + 2 * |us| <= |data| && data[offset..offset + 2 * |us|] == Utf16Bytes(us)
    requires k < |us| && 0 !in us
    ensures !NulPair(data, offset + 2 * k)
  {
    var stored := data[offset..offset + 2 * |us|];
    assert data[offset + 2 * k] == stored[2 * k] == us[k] % 256;
    assert data[offset + 2 * k + 1] == stored[2 * k + 1] == us[k] / 256;
    assert us[k] in us;
  }

  lemma {:induction false} AnsiEndFound(data: Bytes, offset: nat, os: Bytes, k: nat)
    requires Terminated(data, offset, os, false) && 0 !in os && k <= |os|
    ensures AnsiEnd(data, offset + k) == offset + |os|
    decreases |os| - k
  {
    if k < |os| {
      assert data[offset + k] == data[offset..offset + |os|][k] == os[k];
      assert os[k] in os;
      AnsiEndFound(data, offset, os, k + 1);
    }
  }

  /** c_string returns exactly the text that was stored, in either encoding. */
  lemma CStringReadsStoredText(data: Bytes, offset: nat, text: Text, unicode: bool)
    requires 0 < offset && Terminable(text, unicode) && StoredText(data, offset, text, unicode)
    ensures CString(data, offset, unicode) == Ok(Some(text))
  {
    if unicode {
      WideReads(data, offset, text);
    } else {
      AnsiReads(data, offset, text);
    }
  }

  lemma WideReads(data: Bytes, offset: nat, us: seq<Unit>)
    requires 0 < offset && WellFormed(us) && 0 !in us && Terminated(data, offset, Utf16Bytes(us), true)
    ensures CString(data, offset, true) == Ok(Some(us))
  {
    hide WideEnd, Utf16, Utf16Bytes, WellFormed, NulPair;
    WideEndFound(data, offset, us, 0);
    Utf16UndoesUtf16Bytes(us);
    WideIsInside(data, offset, us);
    assert data[offset..offset + 2 * |us|] == Utf16Bytes(us);
  }

  lemma WideIsInside(data: Bytes, offset: nat, us: seq<Unit>)
    requires Terminated(data, offset, Utf16Bytes(us), true)
    ensures offset < |data| && offset + 2 * |us| <= |data|
  {
    hide Utf16Bytes;
  }

  lemma AnsiReads(data: Bytes, offset: nat, text: Text)
    requires 0 < offset && InCodePage(text) && 0 !in text && Terminated(data, offset, Octets(text), false)
    ensures CString(data, offset, false) == Ok(Some(text))
  {
    CharsUndoesOctets(text);
    hide AnsiEnd, Chars, InCodePage, Cp1252;
    AnsiEndFound(data, offset, Octets(text), 0);
    assert data[offset..offset + |text|] == Octets(text);
  }

  // ----- FILETIME

  /** First tick (100 ns since 1601) beyond the last instant a datetime can hold. */
  const FIRST_UNREPRESENTABLE: nat := 2650467744000000000

  /** Microseconds from 1601-01-01 to 9999-12-31T23:59:59.999999. */
  const LAST_MICROSECOND: nat := 265046774399999999

  /** The instant in microseconds since 1601 and the preserved raw tick count. */
  datatype Stamp = Stamp(time: Option<nat>, raw: Option<nat>)

  function FileTime(ticks: nat): (s: Stamp) {
    if ticks == 0 then Stamp(None, None)
    else if ticks / 10 > LAST_MICROSECOND then Stamp(None, Some(ticks))
    else Stamp(Some(ticks / 10), Some(ticks))
  }

  /** The exact conditions on each part, and that less than one microsecond is lost. */
  lemma FileTimeExact(ticks: nat)
    ensures FileTime(ticks).raw == if ticks == 0 then None else Some(ticks)
    ensures FileTime(ticks).time.Some? <==> 0 < ticks < FIRST_UNREPRESENTABLE
    ensures FileTime(ticks).time.Some?
          ==> 10 * FileTime(ticks).time.value <= ticks <= 10 * FileTime(ticks).time.value + 9
  {
  }

  lemma FileTimePreservesOrder(a: nat, b: nat)
    requires FileTime(a).time.Some? && FileTime(b).time.Some? && a <= b
    ensures FileTime(a).time.value <= FileTime(b).time.value
  {
  }
}
