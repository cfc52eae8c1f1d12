/** The schema format of consumer group metadata: the serializer appends to a
    buffer, the deserializer consumes its input from the front. A read that runs
    past the end of the input, or a string that is not UTF-8, is an error. */
module Schema {
  import opened Wire

  // ----- UTF-8 -----

  predicate Tail(b: byte) { 0x80 <= b <= 0xBF }

  /** The length of the well-formed UTF-8 sequence b starts with, or 0. */
  function Utf8Prefix(b: Bytes): (n: nat)
    ensures n <= |b|
  {
    if |b| >= 1 && b[0] < 0x80 then 1
    else if |b| >= 2 && 0xC2 <= b[0] <= 0xDF && Tail(b[1]) then 2
    else if |b| >= 3 && Tail(b[1]) && Tail(b[2])
      && 0xE0 <= b[0] <= 0xEF && (b[0] == 0xE0 ==> b[1] >= 0xA0) && (b[0] == 0xED ==> b[1] <= 0x9F)
    then 3
    else if |b| >= 4 && Tail(b[1]) && Tail(b[2]) && Tail(b[3])
      && 0xF0 <= b[0] <= 0xF4 && (b[0] == 0xF0 ==> b[1] >= 0x90) && (b[0] == 0xF4 ==> b[1] <= 0x8F)
    then 4
    else 0
  }

  /** `str::from_utf8` accepts the bytes. */
  predicate Utf8(b: Bytes)
    decreases |b|
  {
    b == [] || (Utf8Prefix(b) > 0 && Utf8(b[Utf8Prefix(b)..]))
  }

  // ----- strings -----

  function ReadStr(input: Bytes): (r: Parsed<Bytes>) {
    match ParseI16(input)
    case Done(rest, len) =>
      if len < 0 then Done(rest, [])
      else if len <= |rest| && Utf8(rest[..len]) then Done(rest[len..], rest[..len])
      else Error
    case Incomplete => Error
    case Error => Error
  }

  lemma StrParts(s: Bytes, rest: Bytes)
    requires |s| <= I16_MAX
    ensures ParseI16(StrBytes(Some(s)).value + rest) == Done(s + rest, |s|)
    ensures (s + rest)[..|s|] == s && (s + rest)[|s|..] == rest
  {
    assert StrBytes(Some(s)).value + rest == I16Bytes(|s|) + (s + rest);
    I16RoundTrip(|s|, s + rest);
  }

  /** Reading a serialized string gives it back exactly when it is UTF-8. */
  lemma StrRoundTrip(s: Bytes, rest: Bytes)
    requires |s| <= I16_MAX
    ensures ReadStr(StrBytes(Some(s)).value + rest) == if Utf8(s) then Done(rest, s) else Error
  {
    StrParts(s, rest);
  }

  /** Whatever length is announced: a negative one reads as the empty string, and one
      that is not covered by well-formed UTF-8 is refused. */
  lemma StrExact(n: int, rest: Bytes)
    requires IsI16(n)
    ensures ReadStr(I16Bytes(n) + rest)
         == if n < 0 then Done(rest, [])
            else if n <= |rest| && Utf8(rest[..n]) then Done(rest[n..], rest[..n])
            else Error
  {
    I16RoundTrip(n, rest);
  }

  // ----- sequences of integers -----

  function I32sBytes(v: seq<int>): (r: Bytes) {
    if v == [] then [] else I32Bytes(v[0]) + I32sBytes(v[1..])
  }

  /** The elements a sequence visitor still has to hand out; none when the count
      is not positive. */
  function ReadI32s(input: Bytes, n: int): (r: Parsed<seq<int>>)
    decreases if n > 0 then n else 0
  {
    if n <= 0 then Done(input, [])
    else
      match ParseI32(input)
      case Done(rest, x) =>
        (match ReadI32s(rest, n - 1)
         case Done(rest', xs) => Done(rest', [x] + xs)
         case Incomplete => Error
         case Error => Error)
      case Incomplete => Error
      case Error => Error
  }

  lemma {:induction false} I32sRoundTrip(v: seq<int>, rest: Bytes)
    requires forall x :: x in v ==> IsI32(x)
    ensures ReadI32s(I32sBytes(v) + rest, |v|) == Done(rest, v)
  {
    if v == [] {
      assert I32sBytes(v) + rest == rest;
    } else {
      var tail := I32sBytes(v[1..]) + rest;
      assert I32sBytes(v) + rest == I32Bytes(v[0]) + tail;
      I32RoundTrip(v[0], tail);
      I32sRoundTrip(v[1..], rest);
      assert [v[0]] + v[1..] == v;
    }
  }

  // ----- nullable bytes -----

  /** The visitor reads one byte at a time and stops, without an error, when the
      announced length is reached or the input ends; nothing read means null. */
  function ReadNullable(input: Bytes): (r: Parsed<Option<Bytes>>) {
    match ParseI32(input)
    case Done(rest, len) =>
      var n := if len < 0 then 0 else if len < |rest| then len else |rest|;
      Done(rest[n..], if n == 0 then None else Some(rest[..n]))
    case Incomplete => Error
    case Error => Error
  }

  /** An empty byte string comes back as null. */
  function Normal(d: Option<Bytes>): (r: Option<Bytes>) {
    if d == Some([]) then None else d
  }

  lemma NullableRoundTrip(d: Option<Bytes>, rest: Bytes)
    requires BlobBytes(d).Some?
    ensures ReadNullable(BlobBytes(d).value + rest) == Done(rest, Normal(d))
  {
    match d
    case None => I32RoundTrip(-1, rest);
    case Some(v) =>
      assert BlobBytes(d).value + rest == I32Bytes(|v|) + (v + rest);
      I32RoundTrip(|v|, v + rest);
      assert (v + rest)[..|v|] == v && (v + rest)[|v|..] == rest;
  }

  /** Whatever length is announced, bytes are read as far as there are any, and none
      read as null. */
  lemma NullableExact(n: int, rest: Bytes)
    requires IsI32(n)
    ensures ReadNullable(I32Bytes(n) + rest)
         == if n <= 0 || rest == [] then Done(rest, None)
            else if n <= |rest| then Done(rest[n..], Some(rest[..n]))
            else Done([], Some(rest))
  {
    I32RoundTrip(n, rest);
    assert rest[0..] == rest && rest[..|rest|] == rest;
  }

  // ----- the deserializer -----

  /** What is left to read once xs has been read. */
  function Prepend<T>(xs: seq<T>, p: Parsed<seq<T>>): (r: Parsed<seq<T>>) {
    match p
    case Done(rest, ys) => Done(rest, xs + ys)
    case Incomplete => Error
    case Error => Error
  }

  /** The deserializer consumes its input; a failed read ends the deserialization. */
  class SchemaDeserializer {
    var input: Bytes

    constructor (bytes: Bytes)
      ensures input == bytes
    {
      input := bytes;
    }

    method I16() returns (r: Option<int>)
      modifies this
      ensures match ParseI16(old(input))
              case Done(rest, v) => r == Some(v) && input == rest
              case Incomplete => r == None
              case Error => r == None
    {
      match ParseI16(input) {
        case Done(rest, v) => input := rest; r := Some(v);
        case Incomplete => r := None;
        case Error => r := None;
      }
    }

    method I32() returns (r: Option<int>)
      modifies this
      ensures match ParseI32(old(input))
              case Done(rest, v) => r == Some(v) && input == rest
              case Incomplete => r == None
              case Error => r == None
    {
      match ParseI32(input) {
        case Done(rest, v) => input := rest; r := Some(v);
        case Incomplete => r := None;
        case Error => r := None;
      }
    }

    method Str() returns (r: Option<Bytes>)
      modifies this
      ensures match ReadStr(old(input))
              case Done(rest, v) => r == Some(v) && input == rest
              case Incomplete => false
              case Error => r == None
    {
      var len := I16();
      if len.None? {
        return None;
      }
      if len.value < 0 {
        return Some([]);
      }
      if len.value > |input| {
        return None;
      }
      var buf := input[..len.value];
      input := input[len.value..];
      if !Utf8(buf) {
        return None;
      }
      r := Some(buf);
    }

    /** A vector of integers: a count, then a visitor that hands out elements
        until the count is reached. */
    method I32s() returns (r: Option<seq<int>>)
      modifies this
      ensures match ParseI32(old(input))
              case Done(rest, n) =>
                (match ReadI32s(rest, n)
                 case Done(rest', v) => r == Some(v) && input == rest'
                 case Incomplete => false
                 case Error => r == None)
              case Incomplete => r == None
              case Error => r == None
    {
      var len := I32();
      if len.None? {
        return None;
      }
      var n, pos, acc := len.value, 0, [];
      ghost var start := input;
      assert ReadI32s(start, n) == Prepend([], ReadI32s(start, n)) by { PrependNone(start, n); }
      while pos < n
        invariant 0 <= pos && (pos <= n || pos == 0)
        invariant ReadI32s(start, n) == Prepend(acc, ReadI32s(input, n - pos))
      {
        ghost var before := input;
        pos := pos + 1;
        var x := I32();
        if x.None? {
          return None;
        }
        PrependOne(acc, x.value, ReadI32s(input, n - pos));
        acc := acc + [x.value];
      }
      assert acc + [] == acc;
      r := Some(acc);
    }

    /** Nullable bytes: the visitor's loop ends at the count or at the first
        failed read. */
    method Nullable() returns (r: Option<Option<Bytes>>)
      modifies this
      ensures match ReadNullable(old(input))
              case Done(rest, v) => r == Some(v) && input == rest
              case Incomplete => false
              case Error => r == None
    {
      var len := I32();
      if len.None? {
        return None;
      }
      var pos, v := 0, [];
      ghost var start := input;
      while pos < len.value && |input| > 0
        invariant 0 <= pos <= |start| && (pos <= len.value || pos == 0)
        invariant v == start[..pos] && input == start[pos..]
      {
        v := v + [input[0]];
        input := input[1..];
        pos := pos + 1;
      }
      r := Some(if v == [] then None else Some(v));
    }
  }

  lemma PrependNone(input: Bytes, n: int)
    ensures ReadI32s(input, n) == Prepend([], ReadI32s(input, n))
  {
    match ReadI32s(input, n)
    case Done(_, v) => assert [] + v == v;
    case Incomplete =>
    case Error =>
  }

  lemma PrependOne<T>(xs: seq<T>, x: T, p: Parsed<seq<T>>)
    ensures Prepend(xs, Prepend([x], p)) == Prepend(xs + [x], p)
  {
    match p
    case Done(_, v) => assert xs + ([x] + v) == xs + [x] + v;
    case Incomplete =>
    case Error =>
  }
}
