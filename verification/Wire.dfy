/** The primitive wire format: big-endian integers, length-prefixed strings and
    byte strings, the buffer they are appended to, and the parsers that read
    them back. Rust strings are modelled by their UTF-8 bytes, on which Rust's
    own string order is defined. */
module Wire {

  type byte = x: int | 0 <= x < 256

  type Bytes = seq<byte>

  datatype Option<+T> = None | Some(value: T)

  /** The outcome of a parser: the unread input and the value, a request for
      more input, or a rejection. */
  datatype Parsed<+T> =
    | Done(rest: Bytes, value: T)
    | Incomplete
    | Error

  const I16_MAX := 0x7FFF
  const I32_MAX := 0x7FFF_FFFF
  const I64_MAX := 0x7FFF_FFFF_FFFF_FFFF

  predicate IsI16(v: int) { -0x8000 <= v <= I16_MAX }

  predicate IsI32(v: int) { -0x8000_0000 <= v <= I32_MAX }

  predicate IsI64(v: int) { -0x8000_0000_0000_0000 <= v <= I64_MAX }

  /** The truncating cast `v as i8`. */
  function AsI8(v: int): (r: int)
    ensures -0x80 <= r < 0x80
  {
    (v + 0x80) % 0x100 - 0x80
  }

  /** The truncating cast `v as i32`. */
  function AsI32(v: int): (r: int)
    ensures IsI32(r)
    ensures IsI32(v) ==> r == v
  {
    (v + 0x8000_0000) % 0x1_0000_0000 - 0x8000_0000
  }

  lemma Assoc<T>(a: seq<T>, b: seq<T>, c: seq<T>)
    ensures (a + b) + c == a + (b + c)
  {
  }

  // ----- integers -----

  /** The last n base-256 digits, most significant first. */
  function BigEndian(u: int, n: nat): (r: Bytes)
    requires 0 <= u
    ensures |r| == n
    decreases u, n
  {
    if n == 0 then [] else BigEndian(u / 0x100, n - 1) + [u % 0x100]
  }

  function FromBigEndian(b: Bytes): (u: int)
    ensures 0 <= u
  {
    if b == [] then 0 else FromBigEndian(b[..|b| - 1]) * 0x100 + b[|b| - 1]
  }

  function Power(n: nat): (p: int)
    ensures p > 0
  {
    if n == 0 then 1 else Power(n - 1) * 0x100
  }

  lemma {:induction false} BigEndianRoundTrip(u: int, n: nat)
    requires 0 <= u < Power(n)
    ensures FromBigEndian(BigEndian(u, n)) == u
  {
    if n > 0 {
      BigEndianRoundTrip(u / 0x100, n - 1);
      var b := BigEndian(u, n);
      assert b[..n - 1] == BigEndian(u / 0x100, n - 1);
    }
  }

  lemma {:induction false} FromBigEndianBound(b: Bytes)
    ensures FromBigEndian(b) < Power(|b|)
  {
    if b != [] {
      FromBigEndianBound(b[..|b| - 1]);
    }
  }

  lemma Powers()
    ensures Power(2) == 0x1_0000 && Power(4) == 0x1_0000_0000 && Power(8) == 0x1_0000_0000_0000_0000
  {
    assert Power(3) == 0x100_0000 && Power(5) == 0x100_0000_0000 && Power(6) == 0x1_0000_0000_0000;
    assert Power(7) == 0x100_0000_0000_0000;
  }

  function I8Bytes(v: int): (r: Bytes)
    ensures |r| == 1
  {
    [v % 0x100]
  }

  function I16Bytes(v: int): (r: Bytes)
    ensures |r| == 2
  {
    BigEndian(v % 0x1_0000, 2)
  }

  function I32Bytes(v: int): (r: Bytes)
    ensures |r| == 4
  {
    BigEndian(v % 0x1_0000_0000, 4)
  }

  function I64Bytes(v: int): (r: Bytes)
    ensures |r| == 8
  {
    BigEndian(v % 0x1_0000_0000_0000_0000, 8)
  }

  function Signed(u: int, half: int): (v: int) {
    if u >= half then u - 2 * half else u
  }

  function ParseI8(input: Bytes): (r: Parsed<int>) {
    if |input| < 1 then Incomplete else Done(input[1..], Signed(input[0], 0x80))
  }

  function ParseI16(input: Bytes): (r: Parsed<int>) {
    if |input| < 2 then Incomplete else Done(input[2..], Signed(FromBigEndian(input[..2]), 0x8000))
  }

  function ParseI32(input: Bytes): (r: Parsed<int>) {
    if |input| < 4 then Incomplete else Done(input[4..], Signed(FromBigEndian(input[..4]), 0x8000_0000))
  }

  function ParseI64(input: Bytes): (r: Parsed<int>) {
    if |input| < 8 then Incomplete else Done(input[8..], Signed(FromBigEndian(input[..8]), 0x8000_0000_0000_0000))
  }

  lemma I8RoundTrip(v: int, rest: Bytes)
    ensures ParseI8(I8Bytes(v) + rest) == Done(rest, AsI8(v))
  {
  }

  lemma I16RoundTrip(v: int, rest: Bytes)
    requires IsI16(v)
    ensures ParseI16(I16Bytes(v) + rest) == Done(rest, v)
  {
    Powers();
    BigEndianRoundTrip(v % 0x1_0000, 2);
    assert (I16Bytes(v) + rest)[..2] == I16Bytes(v) && (I16Bytes(v) + rest)[2..] == rest;
  }

  lemma U32RoundTrip(u: int)
    requires 0 <= u < 0x1_0000_0000
    ensures FromBigEndian(BigEndian(u, 4)) == u
  {
    Powers();
    BigEndianRoundTrip(u, 4);
  }

  lemma SignedCut(v: int)
    ensures Signed(v % 0x1_0000_0000, 0x8000_0000) == AsI32(v)
  {
  }

  /** Reading back what `put_i32(v as i32)` wrote gives the truncated value. */
  lemma I32RoundTrip(v: int, rest: Bytes)
    ensures ParseI32(I32Bytes(v) + rest) == Done(rest, AsI32(v))
  {
    U32RoundTrip(v % 0x1_0000_0000);
    SignedCut(v);
    assert (I32Bytes(v) + rest)[..4] == I32Bytes(v) && (I32Bytes(v) + rest)[4..] == rest;
  }

  lemma I64RoundTrip(v: int, rest: Bytes)
    requires IsI64(v)
    ensures ParseI64(I64Bytes(v) + rest) == Done(rest, v)
  {
    Powers();
    BigEndianRoundTrip(v % 0x1_0000_0000_0000_0000, 8);
    assert (I64Bytes(v) + rest)[..8] == I64Bytes(v) && (I64Bytes(v) + rest)[8..] == rest;
  }

  // ----- strings and byte strings -----

  /** `take!(n)`: a negative count is cast to an unreachable length. */
  function Take(input: Bytes, n: int): (r: Parsed<Bytes>) {
    if 0 <= n <= |input| then Done(input[n..], input[..n]) else Incomplete
  }

  /** What `put_str` appends, or nothing when the string is too long for its
      16-bit length. A null string is written as length -1. */
  function StrBytes(s: Option<Bytes>): (r: Option<Bytes>)
    ensures r.Some? <==> s.Some? ==> |s.value| <= I16_MAX
    ensures r.Some? ==> |r.value| == 2 + OptLen(s)
  {
    match s
    case None => Some(I16Bytes(-1))
    case Some(v) => if |v| > I16_MAX then None else Some(I16Bytes(|v|) + v)
  }

  /** What `put_bytes` appends, with a 32-bit length. */
  function BlobBytes(d: Option<Bytes>): (r: Option<Bytes>)
    ensures r.Some? <==> d.Some? ==> |d.value| <= I32_MAX
    ensures r.Some? ==> |r.value| == 4 + OptLen(d)
  {
    match d
    case None => Some(I32Bytes(-1))
    case Some(v) => if |v| > I32_MAX then None else Some(I32Bytes(|v|) + v)
  }

  function OptLen(s: Option<Bytes>): (n: nat) {
    match s
    case None => 0
    case Some(v) => |v|
  }

  function ParseOptBytes(input: Bytes): (r: Parsed<Option<Bytes>>) {
    match ParseI32(input)
    case Done(rest, len) =>
      if len < 0 then Done(rest, None)
      else
        match Take(rest, len) {
          case Done(rest', v) => Done(rest', Some(v))
          case Incomplete => Incomplete
          case Error => Error
        }
    case Incomplete => Incomplete
    case Error => Error
  }

  /** `parse_opt_bytes` undoes `put_bytes` and stops where it stopped. */
  lemma BlobRoundTrip(d: Option<Bytes>, rest: Bytes)
    requires BlobBytes(d).Some?
    ensures ParseOptBytes(BlobBytes(d).value + rest) == Done(rest, d)
  {
    match d
    case None => I32RoundTrip(-1, rest);
    case Some(v) =>
      assert BlobBytes(d).value + rest == I32Bytes(|v|) + (v + rest);
      I32RoundTrip(|v|, v + rest);
      assert (v + rest)[..|v|] == v && (v + rest)[|v|..] == rest;
  }

  // ----- the buffer requests are written to -----

  /** `BytesMut` as the encoders use it: append at the end, overwrite in place. */
  class ByteBuf {
    var data: Bytes

    constructor ()
      ensures data == []
    {
      data := [];
    }

    method Put(b: Bytes)
      modifies this
      ensures data == old(data) + b
    {
      data := data + b;
    }

    /** `T::write_i32(&mut buf[off..], v as i32)`. */
    method WriteI32(off: nat, v: int)
      requires off + 4 <= |data|
      modifies this
      ensures data == old(data)[..off] + I32Bytes(v) + old(data)[off + 4..]
    {
      data := data[..off] + I32Bytes(v) + data[off + 4..];
    }

    method PutStr(s: Option<Bytes>) returns (ok: bool)
      modifies this
      ensures ok <==> StrBytes(s).Some?
      ensures data == old(data) + (if ok then StrBytes(s).value else [])
    {
      match s {
        case Some(v) =>
          if |v| > I16_MAX {
            return false;
          }
          Put(I16Bytes(|v|));
          if |v| > 0 {
            Put(v);
          }
        case None =>
          Put(I16Bytes(-1));
      }
      return true;
    }

    method PutBytes(d: Option<Bytes>) returns (ok: bool)
      modifies this
      ensures ok <==> BlobBytes(d).Some?
      ensures data == old(data) + (if ok then BlobBytes(d).value else [])
    {
      match d {
        case Some(v) =>
          if |v| > I32_MAX {
            return false;
          }
          Put(I32Bytes(|v|));
          if |v| > 0 {
            Put(v);
          }
        case None =>
          Put(I32Bytes(-1));
      }
      return true;
    }
  }
}
