/** Zig-zag varints of 32 and 64 bits. Machine words are numbers below 2^32 or 2^64
    and signed values their two's-complement patterns; the bitwise operators are
    defined bit by bit. */
module Varint {
  import opened Wire

  datatype Width = W32 | W64

  function Bits(w: Width): (n: nat) { if w.W32? then 32 else 64 }

  /** The largest shift the decoder goes on with. */
  function MaxShift(w: Width): (n: nat) { if w.W32? then 28 else 63 }

  /** One more than the largest word. */
  function Words(w: Width): (n: nat) {
    if w.W32? then 0x1_0000_0000 else 0x1_0000_0000_0000_0000
  }

  predicate IsSigned(w: Width, v: int) {
    if w.W32? then IsI32(v) else IsI64(v)
  }

  // ----- bits -----

  function Or(a: nat, b: nat): (r: nat)
    decreases a + b
  {
    if a == 0 && b == 0 then 0 else 2 * Or(a / 2, b / 2) + (if a % 2 == 1 || b % 2 == 1 then 1 else 0)
  }

  function Xor(a: nat, b: nat): (r: nat)
    decreases a + b
  {
    if a == 0 && b == 0 then 0 else 2 * Xor(a / 2, b / 2) + (if a % 2 != b % 2 then 1 else 0)
  }

  /** The left shift, before it is cut to a word. */
  function Shl(x: nat, i: nat): (r: nat)
    decreases i
  {
    if i == 0 then x else 2 * Shl(x, i - 1)
  }

  lemma {:induction false} OrZero(b: nat)
    ensures Or(0, b) == b
  {
    if b != 0 {
      OrZero(b / 2);
    }
  }

  /** Bits that do not overlap add up. */
  lemma {:induction false} OrDisjoint(a: nat, m: nat, i: nat)
    requires a < Shl(1, i)
    ensures Or(a, Shl(m, i)) == a + Shl(m, i)
    decreases i
  {
    if i == 0 {
      OrZero(m);
    } else {
      OrDisjoint(a / 2, m, i - 1);
    }
  }

  lemma {:induction false} XorZero(a: nat)
    ensures Xor(a, 0) == a
  {
    if a != 0 {
      XorZero(a / 2);
    }
  }

  lemma Halves(q: nat, r: nat)
    requires r < 2
    ensures (2 * q + r) / 2 == q && (2 * q + r) % 2 == r
  {
  }

  lemma XorUnfolds(p: nat, q: nat, r: nat, s: nat)
    requires r < 2 && s < 2
    ensures Xor(2 * p + r, 2 * q + s) == 2 * Xor(p, q) + (if r != s then 1 else 0)
  {
    Halves(p, r);
    Halves(q, s);
  }

  lemma XorOnesStep(h: nat, r: nat, q: nat)
    requires r < 2 && h <= q && Xor(h, q) == q - h
    ensures Xor(2 * h + r, 2 * q + 1) == 2 * q + 1 - (2 * h + r)
  {
    XorUnfolds(h, q, r, 1);
  }

  /** All ones complement. */
  lemma {:induction false} XorOnes(a: nat, i: nat)
    requires a < Shl(1, i)
    ensures Xor(a, Shl(1, i) - 1) == Shl(1, i) - 1 - a
    decreases i
  {
    if i > 0 {
      var q := Shl(1, i - 1) - 1;
      XorOnes(a / 2, i - 1);
      XorOnesStep(a / 2, a % 2, q);
      assert 2 * (a / 2) + a % 2 == a && 2 * q + 1 == Shl(1, i) - 1;
    }
  }

  lemma {:induction false} ShlAdd(a: nat, b: nat, i: nat)
    ensures Shl(a + b, i) == Shl(a, i) + Shl(b, i)
    decreases i
  {
    if i > 0 {
      ShlAdd(a, b, i - 1);
    }
  }

  lemma {:induction false} ShlShl(x: nat, i: nat, j: nat)
    ensures Shl(Shl(x, i), j) == Shl(x, i + j)
    decreases j
  {
    if j > 0 {
      ShlShl(x, i, j - 1);
    }
  }

  lemma Shl8(x: nat)
    ensures Shl(x, 7) == 0x80 * x && Shl(x, 8) == 0x100 * x
  {
    assert Shl(x, 2) == 4 * x;
    assert Shl(x, 4) == 16 * x;
    assert Shl(x, 6) == 64 * x;
  }

  lemma WordBits(w: Width)
    ensures Shl(1, Bits(w)) == Words(w)
  {
    Shl8(1);
    Shl8(0x100);
    ShlShl(1, 8, 8);
    Shl8(0x1_0000);
    ShlShl(1, 16, 8);
    Shl8(0x100_0000);
    ShlShl(1, 24, 8);
    if w.W64? {
      WordBits64();
    }
  }

  lemma WordBits64()
    requires Shl(1, 32) == 0x1_0000_0000
    ensures Shl(1, 64) == 0x1_0000_0000_0000_0000
  {
    Shl8(0x1_0000_0000);
    ShlShl(1, 32, 8);
    Shl8(0x100_0000_0000);
    ShlShl(1, 40, 8);
    Shl8(0x1_0000_0000_0000);
    ShlShl(1, 48, 8);
    Shl8(0x100_0000_0000_0000);
    ShlShl(1, 56, 8);
  }

  // ----- zig-zag -----

  function Ones(w: Width, on: bool): (r: nat) { if on then Words(w) - 1 else 0 }

  /** `(v << 1) ^ (v >> 31)`, or 63, read as an unsigned word. */
  function ZigZag(w: Width, v: int): (u: nat) {
    Xor((2 * v) % Words(w), Ones(w, v < 0))
  }

  /** `(u >> 1) ^ -(u & 1)`, read as a signed word. */
  function UnZigZag(w: Width, u: nat): (v: int) {
    Signed(Xor(u / 2, Ones(w, u % 2 == 1)), Words(w) / 2)
  }

  lemma Wraps(x: int, m: int)
    requires 0 < m
    ensures -m <= x < 0 ==> x % m == x + m
    ensures 0 <= x < m ==> x % m == x
  {
    if -m <= x < 0 {
      assert (x + m) % m == x + m;
    }
  }

  lemma Complement(w: Width, a: nat)
    requires a < Words(w)
    ensures Xor(a, Words(w) - 1) == Words(w) - 1 - a
  {
    WordBits(w);
    XorOnes(a, Bits(w));
  }

  /** 0, -1, 1, -2, 2 become 0, 1, 2, 3, 4. */
  lemma ZigZagOrder(w: Width, v: int)
    requires IsSigned(w, v)
    ensures ZigZag(w, v) == (if v >= 0 then 2 * v else -2 * v - 1) && ZigZag(w, v) < Words(w)
  {
    Wraps(2 * v, Words(w));
    if v >= 0 {
      XorZero(2 * v);
    } else {
      Complement(w, 2 * v + Words(w));
    }
  }

  lemma ZigZagRoundTrip(w: Width, v: int)
    requires IsSigned(w, v)
    ensures UnZigZag(w, ZigZag(w, v)) == v
  {
    ZigZagOrder(w, v);
    var u := ZigZag(w, v);
    if v >= 0 {
      assert u / 2 == v && u % 2 == 0;
      XorZero(u / 2);
    } else {
      assert u / 2 == -v - 1 && u % 2 == 1;
      Complement(w, u / 2);
    }
  }

  // ----- seven bits a byte -----

  function Digits(v: nat): (bytes: Bytes) {
    if v >= 0x80 then [v % 0x80 + 0x80] + Digits(v / 0x80) else [v]
  }

  /** The decoding loop: what was collected and the current shift. The end of the
      input ends it as a last byte does. */
  function Collect(w: Width, input: Bytes, value: nat, shift: nat): (r: Parsed<nat>)
    decreases |input|
  {
    if input == [] then Done(input, value)
    else if input[0] >= 0x80 then
      if shift + 7 > MaxShift(w) then Error
      else Collect(w, input[1..], Or(value, Shl(input[0] - 0x80, shift) % Words(w)), shift + 7)
    else Done(input[1..], Or(value, Shl(input[0], shift) % Words(w)))
  }

  function Encode(w: Width, v: int): (bytes: Bytes) {
    Digits(ZigZag(w, v))
  }

  function Decode(w: Width, input: Bytes): (r: Parsed<int>) {
    match Collect(w, input, 0, 0)
    case Done(rest, u) => Done(rest, UnZigZag(w, u))
    case Incomplete => Incomplete
    case Error => Error
  }

  /** How many bytes a word of this width may take. */
  function MaxBytes(w: Width): (n: nat) { if w.W32? then 5 else 10 }

  lemma {:induction false} CollectFails(w: Width, input: Bytes, value: nat, shift: nat, k: nat)
    requires shift == 7 * k && k < MaxBytes(w)
    ensures Collect(w, input, value, shift).Error? <==>
              |input| >= MaxBytes(w) - k && forall i :: 0 <= i < MaxBytes(w) - k ==> input[i] >= 0x80
    ensures !Collect(w, input, value, shift).Incomplete?
    decreases |input|
  {
    if input != [] && input[0] >= 0x80 && k + 1 < MaxBytes(w) {
      CollectFails(w, input[1..], Or(value, Shl(input[0] - 0x80, shift) % Words(w)), shift + 7, k + 1);
      assert forall i :: 0 < i < |input| ==> input[i] == input[1..][i - 1];
    }
  }

  /** Decoding is refused exactly when none of the first five or ten bytes ends the
      number. */
  lemma RefusedExactly(w: Width, input: Bytes)
    ensures Decode(w, input).Error? <==>
              |input| >= MaxBytes(w) && forall i :: 0 <= i < MaxBytes(w) ==> input[i] >= 0x80
    ensures !Decode(w, input).Incomplete?
  {
    CollectFails(w, input, 0, 0, 0);
  }

  /** Taking off the low seven bits. */
  lemma SplitDigit(v: nat, shift: nat)
    ensures Shl(v, shift) == Shl(v % 0x80, shift) + Shl(v / 0x80, shift + 7)
  {
    var q := v / 0x80;
    Shl8(q);
    ShlAdd(v % 0x80, 0x80 * q, shift);
    ShlShl(q, 7, shift);
  }

  lemma {:induction false} ShlMonotone(a: nat, b: nat, i: nat)
    requires a <= b
    ensures Shl(a, i) <= Shl(b, i)
    decreases i
  {
    if i > 0 {
      ShlMonotone(a, b, i - 1);
    }
  }

  lemma {:induction false} ShlGrows(i: nat, j: nat)
    requires i <= j
    ensures Shl(1, i) <= Shl(1, j)
  {
    if i < j {
      ShlGrows(i, j - 1);
    }
  }

  /** A word with more than seven bits left leaves room for another byte. */
  lemma RoomForMore(w: Width, v: nat, shift: nat)
    requires shift % 7 == 0 && v >= 0x80 && Shl(v, shift) < Words(w)
    ensures shift + 7 <= MaxShift(w)
  {
    WordBits(w);
    Shl8(1);
    ShlShl(1, 7, shift);
    ShlMonotone(0x80, v, shift);
    if shift + 7 >= Bits(w) {
      ShlGrows(Bits(w), shift + 7);
    }
  }

  lemma DigitFits(value: nat, d: nat, shift: nat)
    requires value < Shl(1, shift) && d < 0x80
    ensures value + Shl(d, shift) < Shl(1, shift + 7)
  {
    Shl8(1);
    ShlShl(1, 7, shift);
    ShlAdd(d, 1, shift);
    ShlMonotone(d + 1, 0x80, shift);
  }

  /** One byte, last or not, adds its seven bits. */
  lemma CollectByte(w: Width, d: nat, tail: Bytes, value: nat, shift: nat)
    requires d < 0x80 && value < Shl(1, shift) && Shl(d, shift) < Words(w)
    ensures Collect(w, [d] + tail, value, shift) == Done(tail, value + Shl(d, shift))
    ensures shift + 7 <= MaxShift(w) ==>
              Collect(w, [d + 0x80] + tail, value, shift) == Collect(w, tail, value + Shl(d, shift), shift + 7)
  {
    OrDisjoint(value, d, shift);
    Wraps(Shl(d, shift), Words(w));
    assert ([d] + tail)[1..] == tail && ([d + 0x80] + tail)[1..] == tail;
  }

  lemma {:induction false} CollectRoundTrip(w: Width, v: nat, value: nat, shift: nat, rest: Bytes)
    requires shift % 7 == 0 && value < Shl(1, shift) && Shl(v, shift) < Words(w)
    ensures Collect(w, Digits(v) + rest, value, shift) == Done(rest, value + Shl(v, shift))
    decreases v
  {
    if v >= 0x80 {
      var d, q := v % 0x80, v / 0x80;
      SplitDigit(v, shift);
      RoomForMore(w, v, shift);
      DigitFits(value, d, shift);
      CollectRoundTrip(w, q, value + Shl(d, shift), shift + 7, rest);
      CollectMore(w, d, Digits(q), value, shift, rest);
    } else {
      CollectByte(w, v, rest, value, shift);
    }
  }

  lemma CollectMore(w: Width, d: nat, others: Bytes, value: nat, shift: nat, rest: Bytes)
    requires d < 0x80 && value < Shl(1, shift) && Shl(d, shift) < Words(w) && shift + 7 <= MaxShift(w)
    ensures Collect(w, [d + 0x80] + others + rest, value, shift)
         == Collect(w, others + rest, value + Shl(d, shift), shift + 7)
  {
    CollectByte(w, d, others + rest, value, shift);
    Assoc([d + 0x80], others, rest);
  }

  lemma {:induction false} DigitsLength(v: nat, n: nat)
    requires 0 < n && v < Shl(1, 7 * n)
    ensures 1 <= |Digits(v)| <= n
  {
    if v >= 0x80 {
      Shl8(1);
      assert n > 1;
      ShlShl(1, 7 * (n - 1), 7);
      Shl8(Shl(1, 7 * (n - 1)));
      DigitsLength(v / 0x80, n - 1);
    }
  }

  /** Every 32- or 64-bit value, followed by any bytes, is read back and nothing more
      is consumed; its encoding takes 1 to 5 or 1 to 10 bytes and is never refused. */
  lemma VarintRoundTrip(w: Width, v: int, rest: Bytes)
    requires IsSigned(w, v)
    ensures Decode(w, Encode(w, v) + rest) == Done(rest, v)
    ensures 1 <= |Encode(w, v)| <= if w.W32? then 5 else 10
  {
    ZigZagOrder(w, v);
    var u := ZigZag(w, v);
    CollectRoundTrip(w, u, 0, 0, rest);
    ZigZagRoundTrip(w, v);
    WordBits(w);
    var n := if w.W32? then 5 else 10;
    ShlGrows(Bits(w), 7 * n);
    DigitsLength(u, n);
  }

  // ----- the loops -----

  method Serialize(w: Width, v: int) returns (buf: Bytes)
    ensures buf == Encode(w, v)
  {
    buf := [];
    var u := ZigZag(w, v);
    while u >= 0x80
      invariant buf + Digits(u) == Encode(w, v)
      decreases u
    {
      Assoc(buf, [u % 0x80 + 0x80], Digits(u / 0x80));
      buf := buf + [u % 0x80 + 0x80];
      u := u / 0x80;
    }
    buf := buf + [u];
  }

  method Deserialize(w: Width, input: Bytes) returns (v: Option<int>, rest: Bytes)
    ensures var r := Decode(w, input);
            if r.Done? then v == Some(r.value) && rest == r.rest else v == None
  {
    var value, shift := 0, 0;
    rest := input;
    var more := true;
    while more && rest != []
      invariant more ==> Collect(w, input, 0, 0) == Collect(w, rest, value, shift)
      invariant !more ==> Collect(w, input, 0, 0) == Done(rest, value)
      decreases |rest|, more
    {
      var b := rest[0];
      rest := rest[1..];
      if b >= 0x80 {
        value := Or(value, Shl(b - 0x80, shift) % Words(w));
        shift := shift + 7;
        if shift > MaxShift(w) {
          return None, rest;
        }
      } else {
        value := Or(value, Shl(b, shift) % Words(w));
        more := false;
      }
    }
    v := Some(UnZigZag(w, value));
  }
}
