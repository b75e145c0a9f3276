/** Little-endian integer fields of a .ttbin record, as Python's `struct`
    module reads them with the `<` prefix: `s` is one unsigned byte, `h` a
    signed 16-bit integer, `l` a signed 32-bit integer. An IEEE-754 `f`
    field is kept as its raw 32-bit pattern (`U32`) and interpreted elsewhere. */
module LittleEndian {

  newtype byte = x: int | 0 <= x < 256

  const TwoTo16: int := 0x1_0000
  const TwoTo32: int := 0x1_0000_0000

  function U8(s: seq<byte>, i: nat): (r: nat)
    requires i < |s|
    ensures r < 256
  {
    s[i] as nat
  }

  function U16(s: seq<byte>, i: nat): (r: nat)
    requires i + 2 <= |s|
    ensures r < TwoTo16
  {
    U8(s, i) + 256 * U8(s, i + 1)
  }

  function U32(s: seq<byte>, i: nat): (r: nat)
    requires i + 4 <= |s|
    ensures r < TwoTo32
  {
    U16(s, i) + TwoTo16 * U16(s, i + 2)
  }

  /** Two's complement reading of a 16-bit field (`h`). */
  function I16(s: seq<byte>, i: nat): (r: int)
    requires i + 2 <= |s|
    ensures -0x8000 <= r < 0x8000
    ensures r % TwoTo16 == U16(s, i)
  {
    var u := U16(s, i);
    if u < 0x8000 then u else u - TwoTo16
  }

  /** Two's complement reading of a 32-bit field (`l`). */
  function I32(s: seq<byte>, i: nat): (r: int)
    requires i + 4 <= |s|
    ensures -0x8000_0000 <= r < 0x8000_0000
    ensures r % TwoTo32 == U32(s, i)
  {
    var u := U32(s, i);
    if u < 0x8000_0000 then u else u - TwoTo32
  }

  predicate IsI16(x: int) { -0x8000 <= x < 0x8000 }
  predicate IsI32(x: int) { -0x8000_0000 <= x < 0x8000_0000 }

  function EncodeU8(x: nat): (r: seq<byte>)
    requires x < 256
    ensures |r| == 1
  {
    [x as byte]
  }

  function EncodeU16(x: nat): (r: seq<byte>)
    requires x < TwoTo16
    ensures |r| == 2
  {
    EncodeU8(x % 256) + EncodeU8(x / 256)
  }

  function EncodeU32(x: nat): (r: seq<byte>)
    requires x < TwoTo32
    ensures |r| == 4
  {
    EncodeU16(x % TwoTo16) + EncodeU16(x / TwoTo16)
  }

  function EncodeI16(x: int): (r: seq<byte>)
    requires IsI16(x)
    ensures |r| == 2
  {
    EncodeU16(x % TwoTo16)
  }

  function EncodeI32(x: int): (r: seq<byte>)
    requires IsI32(x)
    ensures |r| == 4
  {
    EncodeU32(x % TwoTo32)
  }

  lemma U8RoundTrip(x: nat)
    requires x < 256
    ensures U8(EncodeU8(x), 0) == x
  {
  }

  lemma {:induction false} U16RoundTrip(x: nat)
    requires x < TwoTo16
    ensures U16(EncodeU16(x), 0) == x
  {
    var e := EncodeU16(x);
    assert e[0..1] == EncodeU8(x % 256) && e[1..2] == EncodeU8(x / 256);
    U8RoundTrip(x % 256);
    U8RoundTrip(x / 256);
  }

  lemma {:induction false} U32RoundTrip(x: nat)
    requires x < TwoTo32
    ensures U32(EncodeU32(x), 0) == x
  {
    var e := EncodeU32(x);
    U16RoundTrip(x % TwoTo16);
    U16RoundTrip(x / TwoTo16);
    assert U16(e, 0) == U16(EncodeU16(x % TwoTo16), 0);
    assert U16(e, 2) == U16(EncodeU16(x / TwoTo16), 0);
  }

  /** Decoding a signed 16-bit field gives back the value that was encoded. */
  lemma {:induction false} I16RoundTrip(x: int)
    requires IsI16(x)
    ensures I16(EncodeI16(x), 0) == x
  {
    U16RoundTrip(x % TwoTo16);
  }

  /** Decoding a signed 32-bit field gives back the value that was encoded. */
  lemma {:induction false} I32RoundTrip(x: int)
    requires IsI32(x)
    ensures I32(EncodeI32(x), 0) == x
  {
    U32RoundTrip(x % TwoTo32);
  }

  /** Reading a field inside a larger record reads the bytes at its offset. */
  lemma U16At(s: seq<byte>, i: nat)
    requires i + 2 <= |s|
    ensures U16(s, i) == U16(s[i..i + 2], 0)
  {
  }

  lemma U32At(s: seq<byte>, i: nat)
    requires i + 4 <= |s|
    ensures U32(s, i) == U32(s[i..i + 4], 0)
  {
  }

  lemma I16At(s: seq<byte>, i: nat)
    requires i + 2 <= |s|
    ensures I16(s, i) == I16(s[i..i + 2], 0)
  {
  }

  lemma I32At(s: seq<byte>, i: nat)
    requires i + 4 <= |s|
    ensures I32(s, i) == I32(s[i..i + 4], 0)
  {
  }

  /** A field of the bytes `body` cut from `s` at `start` is the field of
      `s` at the same place. */
  lemma I32In(body: seq<byte>, s: seq<byte>, start: nat, i: nat)
    requires start + |body| <= |s| && body == s[start..start + |body|] && i + 4 <= |body|
    ensures I32(body, i) == I32(s, start + i)
  {
    assert body[i] == s[start + i] && body[i + 1] == s[start + i + 1];
    assert body[i + 2] == s[start + i + 2] && body[i + 3] == s[start + i + 3];
  }
}
