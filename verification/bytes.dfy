/** Integers in packet buffers: two's complement, little-endian, at any offset. */
module Bytes {
  import opened Types

  type Byte = x: int | 0 <= x < 256

  const UINT16_SIZE := 0x1_0000
  const INT32_MIN := -0x8000_0000

  predicate IsUint16(x: int) {
    0 <= x < UINT16_SIZE
  }

  predicate IsInt32(x: int) {
    INT32_MIN <= x <= INT32_MAX
  }

  // The value an unsigned 32-bit pattern has as int32_t.
  function ToS32(u: int): int {
    if u > INT32_MAX then u - UINT32_SIZE else u
  }

  lemma SignedOfUnsigned(x: int)
    requires IsInt32(x)
    ensures ToS32(ToU32(x)) == x
  {
  }

  function GetU16(s: seq<Byte>, at: nat): (u: nat)
    requires at + 2 <= |s|
    ensures u < UINT16_SIZE
  {
    s[at] as int + 256 * (s[at + 1] as int)
  }

  function GetU32(s: seq<Byte>, at: nat): (u: nat)
    requires at + 4 <= |s|
    ensures u < UINT32_SIZE
  {
    s[at] as int + 256 * (s[at + 1] as int + 256 * (s[at + 2] as int + 256 * (s[at + 3] as int)))
  }

  function GetS32(s: seq<Byte>, at: nat): int
    requires at + 4 <= |s|
  {
    ToS32(GetU32(s, at))
  }

  // t differs from s at most in the `count` bytes from `at`.
  ghost predicate OnlyChanged(s: seq<Byte>, t: seq<Byte>, at: int, count: nat) {
    |s| == |t| && forall k :: 0 <= k < |s| && !(at <= k < at + count) ==> t[k] == s[k]
  }

  lemma ChangesAddUp(s: seq<Byte>, t: seq<Byte>, u: seq<Byte>, at: int, count: nat, at': int, count': nat)
    requires OnlyChanged(s, t, at, count) && OnlyChanged(t, u, at', count')
    ensures forall lo: int, len: nat ::
      lo <= at && lo <= at' && at + count <= lo + len && at' + count' <= lo + len ==> OnlyChanged(s, u, lo, len)
  {
  }

  lemma DigitsOf(u: nat)
    requires u < UINT32_SIZE
    ensures u % 256 + 256 * (u / 256 % 256 + 256 * (u / 65536 % 256 + 256 * (u / 16777216))) == u
    ensures u / 16777216 < 256
  {
    assert u / 65536 == u / 256 / 256 && u / 16777216 == u / 256 / 256 / 256;
  }

  method PutU16(p: array<Byte>, at: nat, x: int)
    requires at + 2 <= p.Length && IsUint16(x)
    modifies p
    ensures GetU16(p[..], at) == x
    ensures OnlyChanged(old(p[..]), p[..], at, 2)
  {
    p[at] := x % 256;
    p[at + 1] := x / 256;
  }

  method Put32(p: array<Byte>, at: nat, x: int)
    requires at + 4 <= p.Length
    modifies p
    ensures GetU32(p[..], at) == ToU32(x)
    ensures OnlyChanged(old(p[..]), p[..], at, 4)
  {
    var u := ToU32(x);
    DigitsOf(u);
    p[at] := u % 256;
    p[at + 1] := u / 256 % 256;
    p[at + 2] := u / 65536 % 256;
    p[at + 3] := u / 16777216;
  }
}
