/** Little-endian integers and the result type of the pull functions. */
module Bytes {

  type uint8 = x: int | 0 <= x < 0x100
  type uint16 = x: int | 0 <= x < 0x1_0000
  type uint32 = x: int | 0 <= x < 0x1_0000_0000
  type uint64 = x: int | 0 <= x < 0x1_0000_0000_0000_0000
  type bytes = seq<uint8>
  type bytes2 = b: bytes | |b| == 2 witness [0, 0]
  type bytes4 = b: bytes | |b| == 4 witness [0, 0, 0, 0]
  type bytes6 = b: bytes | |b| == 6 witness [0, 0, 0, 0, 0, 0]
  type bytes8 = b: bytes | |b| == 8 witness [0, 0, 0, 0, 0, 0, 0, 0]

  /** What a pull call leaves behind: a value and the unread bytes, or failure. */
  datatype Pulled<+T> = Fail | Ok(value: T, rest: bytes) {
    predicate IsFailure() { Fail? }

    function PropagateFailure<U>(): Pulled<U>
      requires Fail?
    {
      Fail
    }

    function Extract(): (T, bytes)
      requires Ok?
    {
      (value, rest)
    }
  }

  /** SSVAL */
  function U16(v: uint16): (b: bytes)
    ensures |b| == 2
  {
    [v % 0x100, v / 0x100]
  }

  /** SIVAL */
  function U32(v: uint32): (b: bytes)
    ensures |b| == 4
  {
    U16(v % 0x1_0000) + U16(v / 0x1_0000)
  }

  function U64(v: uint64): (b: bytes)
    ensures |b| == 8
  {
    U32(v % 0x1_0000_0000) + U32(v / 0x1_0000_0000)
  }

  /** SVAL at the start of s */
  function FromU16(s: bytes): uint16
    requires |s| >= 2
  {
    var lo: int, hi: int := s[0], s[1];
    lo + 0x100 * hi
  }

  /** IVAL at the start of s */
  function FromU32(s: bytes): uint32
    requires |s| >= 4
  {
    var lo: int, hi: int := FromU16(s), FromU16(s[2..]);
    lo + 0x1_0000 * hi
  }

  function FromU64(s: bytes): uint64
    requires |s| >= 8
  {
    var lo: int, hi: int := FromU32(s), FromU32(s[4..]);
    lo + 0x1_0000_0000 * hi
  }

  function PullUint8(s: bytes): (r: Pulled<uint8>)
    ensures r.Ok? ==> |r.rest| == |s| - 1
  {
    if |s| < 1 then Fail else Ok(s[0], s[1..])
  }

  function PullUint16(s: bytes): (r: Pulled<uint16>)
    ensures r.Ok? ==> |r.rest| == |s| - 2
  {
    if |s| < 2 then Fail else Ok(FromU16(s), s[2..])
  }

  function PullUint32(s: bytes): (r: Pulled<uint32>)
    ensures r.Ok? ==> |r.rest| == |s| - 4
  {
    if |s| < 4 then Fail else Ok(FromU32(s), s[4..])
  }

  function PullUint64(s: bytes): (r: Pulled<uint64>)
    ensures r.Ok? ==> |r.rest| == |s| - 8
  {
    if |s| < 8 then Fail else Ok(FromU64(s), s[8..])
  }

  function PullBytes(n: nat, s: bytes): (r: Pulled<bytes>)
    ensures r.Ok? ==> |r.value| == n && |r.rest| == |s| - n
  {
    if |s| < n then Fail else Ok(s[..n], s[n..])
  }

  lemma U8RoundTrip(v: uint8, t: bytes)
    ensures PullUint8([v] + t) == Ok(v, t)
  {
    assert ([v] + t)[1..] == t;
  }

  lemma U16RoundTrip(v: uint16, t: bytes)
    ensures PullUint16(U16(v) + t) == Ok(v, t)
  {
  }

  lemma U32RoundTrip(v: uint32, t: bytes)
    ensures PullUint32(U32(v) + t) == Ok(v, t)
  {
    var s := U32(v) + t;
    assert s[2..] == U16(v / 0x1_0000) + t;
    assert s[4..] == t;
  }

  lemma U64RoundTrip(v: uint64, t: bytes)
    ensures PullUint64(U64(v) + t) == Ok(v, t)
  {
    var lo, hi := U32(v % 0x1_0000_0000), U32(v / 0x1_0000_0000);
    var s := U64(v) + t;
    assert s == lo + (hi + t);
    U32RoundTrip(v % 0x1_0000_0000, hi + t);
    assert s[4..] == hi + t;
    U32RoundTrip(v / 0x1_0000_0000, t);
    assert s[8..] == t;
  }

  lemma BytesRoundTrip(b: bytes, t: bytes)
    ensures PullBytes(|b|, b + t) == Ok(b, t)
  {
    assert (b + t)[..|b|] == b && (b + t)[|b|..] == t;
  }

  // The same round trips for a field x in front of a longer encoding.

  lemma Field8(v: uint8, x: bytes, t: bytes)
    ensures PullUint8([v] + x + t) == Ok(v, x + t)
  {
    assert ([v] + x + t)[1..] == x + t;
  }

  lemma Field16(v: uint16, x: bytes, t: bytes)
    ensures PullUint16(U16(v) + x + t) == Ok(v, x + t)
  {
    Assoc(U16(v), x, t);
    U16RoundTrip(v, x + t);
  }

  lemma Field32(v: uint32, x: bytes, t: bytes)
    ensures PullUint32(U32(v) + x + t) == Ok(v, x + t)
  {
    Assoc(U32(v), x, t);
    U32RoundTrip(v, x + t);
  }

  lemma FieldBytes(b: bytes, x: bytes, t: bytes)
    ensures PullBytes(|b|, b + x + t) == Ok(b, x + t)
  {
    Assoc(b, x, t);
    BytesRoundTrip(b, x + t);
  }

  lemma Assoc(a: bytes, b: bytes, c: bytes)
    ensures a + b + c == a + (b + c)
  {
  }

  /** strnlen: the position of the first NUL, or |s| when there is none. */
  function StrLen(s: bytes): (n: nat)
    ensures n <= |s|
    ensures 0 !in s[..n]
    ensures n < |s| ==> s[n] == 0
  {
    if s == [] || s[0] == 0 then 0 else 1 + StrLen(s[1..])
  }

  lemma StrLenIs(b: bytes, t: bytes)
    requires 0 !in b
    ensures StrLen(b + [0] + t) == |b|
  {
    var s, n := b + [0] + t, StrLen(b + [0] + t);
    assert s[|b|] == 0;
    assert forall i | 0 <= i < |b| :: s[i] == b[i];
    assert forall i | 0 <= i < n :: s[..n][i] == s[i];
  }
}
