/**
 * Big-endian integer fields as written by `put_u8`/`put_u16`/`put_u64`/`put_i64`
 * and read by the matching `get_*` of the `bytes` crate (network byte order).
 */
module Bytes {

  type byte = x: int | 0 <= x < 256

  type U8 = x: int | 0 <= x < 0x100
  type U16 = x: int | 0 <= x < 0x1_0000
  type U64 = x: int | 0 <= x < 0x1_0000_0000_0000_0000
  type I64 = x: int | -0x8000_0000_0000_0000 <= x < 0x8000_0000_0000_0000

  /** 256^n, the number of values an n-byte field can hold. */
  function Pow256(n: nat): (r: nat)
    ensures r > 0
  {
    if n == 0 then 1 else 256 * Pow256(n - 1)
  }

  /** The n-byte big-endian encoding of x: most significant byte first. */
  function PutUint(x: nat, n: nat): (r: seq<byte>)
    requires x < Pow256(n)
    ensures |r| == n
    decreases n
  {
    if n == 0 then [] else PutUint(x / 256, n - 1) + [x % 256]
  }

  /** The value of a big-endian byte string. */
  function GetUint(s: seq<byte>): (r: nat)
    ensures r < Pow256(|s|)
  {
    if s == [] then 0 else GetUint(s[..|s| - 1]) * 256 + s[|s| - 1]
  }

  /** Reading back an n-byte field gives the value written. */
  lemma {:induction false} GetPutUint(x: nat, n: nat)
    requires x < Pow256(n)
    ensures GetUint(PutUint(x, n)) == x
    decreases n
  {
    if n > 0 {
      var s := PutUint(x, n);
      assert s[..n - 1] == PutUint(x / 256, n - 1);
      GetPutUint(x / 256, n - 1);
    }
  }

  /** Writing back the value of an n-byte string gives the same bytes. */
  lemma {:induction false} PutGetUint(s: seq<byte>)
    ensures PutUint(GetUint(s), |s|) == s
  {
    if s != [] {
      var n := |s|;
      var v := GetUint(s[..n - 1]);
      PutGetUint(s[..n - 1]);
      assert (v * 256 + s[n - 1]) / 256 == v;
      assert (v * 256 + s[n - 1]) % 256 == s[n - 1];
    }
  }

  function PutU8(x: U8): (r: seq<byte>) ensures |r| == 1 { [x] }
  function PutU16(x: U16): (r: seq<byte>) ensures |r| == 2 { PutUint(x, 2) }
  function PutU64(x: U64): (r: seq<byte>) ensures |r| == 8 { PutUint(x, 8) }

  /** `put_i64`: the two's-complement bit pattern of x, big-endian. */
  function PutI64(x: I64): (r: seq<byte>)
    ensures |r| == 8
  {
    PutUint(if x < 0 then x + Pow256(8) else x, 8)
  }

  /** Regrouping concatenations, one step at a time. */
  lemma AppendAssoc<T>(a: seq<T>, b: seq<T>, c: seq<T>)
    ensures a + b + c == a + (b + c)
  {
  }

  // Each `get_*` takes its field from the front of the buffer and advances
  // past it: the model returns the value and the rest of the buffer.

  function GetU8(s: seq<byte>): (r: (U8, seq<byte>))
    requires |s| >= 1
    ensures r.1 == s[1..]
  {
    (s[0], s[1..])
  }

  function GetU16(s: seq<byte>): (r: (U16, seq<byte>))
    requires |s| >= 2
    ensures r.1 == s[2..]
  {
    (GetUint(s[..2]), s[2..])
  }

  function GetU64(s: seq<byte>): (r: (U64, seq<byte>))
    requires |s| >= 8
    ensures r.1 == s[8..]
  {
    (GetUint(s[..8]), s[8..])
  }

  /** `get_i64`: the first 8 bytes read as a two's-complement integer. */
  function GetI64(s: seq<byte>): (r: (I64, seq<byte>))
    requires |s| >= 8
    ensures r.1 == s[8..]
  {
    var u := GetUint(s[..8]);
    (if u >= 0x8000_0000_0000_0000 then u - Pow256(8) else u, s[8..])
  }

  // Reading a field just written gives its value back and leaves exactly
  // what followed it.

  lemma U8RoundTrip(x: U8, rest: seq<byte>)
    ensures GetU8(PutU8(x) + rest) == (x, rest)
  {
    assert (PutU8(x) + rest)[1..] == rest;
  }

  lemma U16RoundTrip(x: U16, rest: seq<byte>)
    ensures GetU16(PutU16(x) + rest) == (x, rest)
  {
    assert (PutU16(x) + rest)[..2] == PutU16(x);
    assert (PutU16(x) + rest)[2..] == rest;
    GetPutUint(x, 2);
  }

  lemma U64RoundTrip(x: U64, rest: seq<byte>)
    ensures GetU64(PutU64(x) + rest) == (x, rest)
  {
    assert (PutU64(x) + rest)[..8] == PutU64(x);
    assert (PutU64(x) + rest)[8..] == rest;
    GetPutUint(x, 8);
  }

  lemma I64RoundTrip(x: I64, rest: seq<byte>)
    ensures GetI64(PutI64(x) + rest) == (x, rest)
  {
    assert Pow256(8) == 0x1_0000_0000_0000_0000;
    var u := if x < 0 then x + Pow256(8) else x;
    assert (PutI64(x) + rest)[..8] == PutUint(u, 8);
    assert (PutI64(x) + rest)[8..] == rest;
    GetPutUint(u, 8);
  }

  // Writing back a field just read rebuilds the buffer it was read from.

  lemma U8PutGet(s: seq<byte>)
    requires |s| >= 1
    ensures PutU8(GetU8(s).0) + GetU8(s).1 == s
  {
    assert s == [s[0]] + s[1..];
  }

  lemma U16PutGet(s: seq<byte>)
    requires |s| >= 2
    ensures PutU16(GetU16(s).0) + GetU16(s).1 == s
  {
    PutGetUint(s[..2]);
    assert s == s[..2] + s[2..];
  }

  lemma U64PutGet(s: seq<byte>)
    requires |s| >= 8
    ensures PutU64(GetU64(s).0) + GetU64(s).1 == s
  {
    PutGetUint(s[..8]);
    assert s == s[..8] + s[8..];
  }

  lemma I64PutGet(s: seq<byte>)
    requires |s| >= 8
    ensures PutI64(GetI64(s).0) + GetI64(s).1 == s
  {
    var u := GetUint(s[..8]);
    PutGetUint(s[..8]);
    assert s == s[..8] + s[8..];
  }
}
