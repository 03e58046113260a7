/** Machine integers as subset types of `int`, and the two ways the repository turns them into bytes:
    the packed little-endian structs of the firmware and the `struct` format strings of the Python host. */
module Bytes {

  type byte = x: int | 0 <= x < 0x100
  type uint16 = x: int | 0 <= x < 0x1_0000
  type uint32 = x: int | 0 <= x < 0x1_0000_0000
  type int16 = x: int | -0x8000 <= x < 0x8000
  type int32 = x: int | -0x8000_0000 <= x < 0x8000_0000

  datatype Option<+T> = None | Some(value: T)

  function Min(a: int, b: int): int {
    if a < b then a else b
  }

  function Max(a: int, b: int): int {
    if a < b then b else a
  }

  /** The value a 32-bit counter holds when `n` is its true value. */
  function Wrap32(n: int): uint32 {
    n % 0x1_0000_0000
  }

  // ----- Packed little-endian fields of the firmware structs -----

  function U16(x: uint16): (b: seq<byte>)
    ensures |b| == 2
  {
    [x % 0x100, x / 0x100]
  }

  function U32(x: uint32): (b: seq<byte>)
    ensures |b| == 4
  {
    [x % 0x100, x / 0x100 % 0x100, x / 0x1_0000 % 0x100, x / 0x100_0000]
  }

  function I16(x: int16): (b: seq<byte>)
    ensures |b| == 2
  {
    U16(if x < 0 then x + 0x1_0000 else x)
  }

  function I32(x: int32): (b: seq<byte>)
    ensures |b| == 4
  {
    U32(if x < 0 then x + 0x1_0000_0000 else x)
  }

  function U16At(b: seq<byte>, i: nat): uint16
    requires i + 2 <= |b|
  {
    var b0: int, b1: int := b[i], b[i + 1];
    b0 + 0x100 * b1
  }

  function U32At(b: seq<byte>, i: nat): uint32
    requires i + 4 <= |b|
  {
    var b0: int, b1: int, b2: int, b3: int := b[i], b[i + 1], b[i + 2], b[i + 3];
    b0 + 0x100 * b1 + 0x1_0000 * b2 + 0x100_0000 * b3
  }

  function I16At(b: seq<byte>, i: nat): int16
    requires i + 2 <= |b|
  {
    var u := U16At(b, i);
    if u < 0x8000 then u else u - 0x1_0000
  }

  function I32At(b: seq<byte>, i: nat): int32
    requires i + 4 <= |b|
  {
    var u := U32At(b, i);
    if u < 0x8000_0000 then u else u - 0x1_0000_0000
  }

  lemma U16RoundTrip(x: uint16)
    ensures U16At(U16(x), 0) == x
  {
  }

  lemma Digits(x: nat)
    ensures x / 0x100 / 0x100 == x / 0x1_0000
    ensures x / 0x1_0000 / 0x100 == x / 0x100_0000
  {
  }

  lemma U32RoundTrip(x: uint32)
    ensures U32At(U32(x), 0) == x
  {
    Digits(x);
    var y: int := x / 0x100;
    var z: int := x / 0x1_0000;
    var w: int := x / 0x100_0000;
    assert x == 0x100 * y + x % 0x100;
    assert y == 0x100 * z + y % 0x100;
    assert z == 0x100 * w + z % 0x100;
    U32Value(x % 0x100, y % 0x100, z % 0x100, w);
  }

  lemma U32Value(b0: byte, b1: byte, b2: byte, b3: byte)
    ensures U32At([b0, b1, b2, b3], 0) == b0 as int + 0x100 * (b1 as int + 0x100 * (b2 as int + 0x100 * b3 as int))
  {
  }

  lemma I16RoundTrip(x: int16)
    ensures I16At(I16(x), 0) == x
  {
    U16RoundTrip(if x < 0 then x + 0x1_0000 else x);
  }

  // ----- Arrays of 16-bit values -----

  function U16s(xs: seq<uint16>): (b: seq<byte>)
    ensures |b| == 2 * |xs|
  {
    if xs == [] then [] else U16s(xs[..|xs| - 1]) + U16(xs[|xs| - 1])
  }

  function I16s(xs: seq<int16>): (b: seq<byte>)
    ensures |b| == 2 * |xs|
  {
    if xs == [] then [] else I16s(xs[..|xs| - 1]) + I16(xs[|xs| - 1])
  }

  function U16sOf(b: seq<byte>, n: nat): (xs: seq<uint16>)
    requires 2 * n <= |b|
    ensures |xs| == n
  {
    seq(n, i requires 0 <= i < n => U16At(b, 2 * i))
  }

  function I16sOf(b: seq<byte>, n: nat): (xs: seq<int16>)
    requires 2 * n <= |b|
    ensures |xs| == n
  {
    seq(n, i requires 0 <= i < n => I16At(b, 2 * i))
  }

  lemma {:induction false} U16sRoundTrip(xs: seq<uint16>)
    ensures U16sOf(U16s(xs), |xs|) == xs
  {
    hide U16;
    if xs != [] {
      var n := |xs| - 1;
      U16sRoundTrip(xs[..n]);
      U16RoundTrip(xs[n]);
      var a, b := U16s(xs[..n]), U16s(xs);
      forall i | 0 <= i < n ensures U16At(b, 2 * i) == xs[i] {
        assert U16At(a, 2 * i) == U16sOf(a, n)[i];
      }
    }
  }

  lemma {:induction false} I16sRoundTrip(xs: seq<int16>)
    ensures I16sOf(I16s(xs), |xs|) == xs
  {
    hide I16;
    if xs != [] {
      var n := |xs| - 1;
      I16sRoundTrip(xs[..n]);
      I16RoundTrip(xs[n]);
      var a, b := I16s(xs[..n]), I16s(xs);
      forall i | 0 <= i < n ensures I16At(b, 2 * i) == xs[i] {
        assert I16At(a, 2 * i) == I16sOf(a, n)[i];
      }
    }
  }

  /** Each value of an array stands at its place, low byte first. */
  lemma {:induction false} U16sAt(xs: seq<uint16>, i: nat)
    requires i < |xs|
    ensures U16s(xs)[2 * i] == xs[i] % 0x100 && U16s(xs)[2 * i + 1] == xs[i] / 0x100
    decreases |xs|
  {
    if i < |xs| - 1 {
      U16sAt(xs[..|xs| - 1], i);
    }
  }

  /** Signed values stand there in two's complement. */
  lemma {:induction false} I16sAt(xs: seq<int16>, i: nat)
    requires i < |xs|
    ensures U16At(I16s(xs), 2 * i) == xs[i] as int % 0x1_0000
    decreases |xs|
  {
    if i < |xs| - 1 {
      I16sAt(xs[..|xs| - 1], i);
    }
  }

  lemma TwosComplement(b: seq<byte>, i: nat)
    ensures i + 2 <= |b| ==> I16At(b, i) % 0x1_0000 == U16At(b, i)
    ensures i + 4 <= |b| ==> I32At(b, i) % 0x1_0000_0000 == U32At(b, i)
  {
  }

  // ----- The host's struct format strings -----

  /** `value` in `width` little-endian bytes, as `struct.pack("<...")` writes an unsigned field. */
  function LittleEndian(value: nat, width: nat): (b: seq<byte>)
    ensures |b| == width
  {
    if width == 0 then [] else [value % 0x100] + LittleEndian(value / 0x100, width - 1)
  }

  function FromLittleEndian(b: seq<byte>): nat {
    if b == [] then 0 else b[0] + 0x100 * FromLittleEndian(b[1..])
  }

  /** `struct.pack` refuses a value that does not fit its field. */
  predicate Fits(value: nat, width: nat) {
    if width == 0 then value == 0 else Fits(value / 0x100, width - 1)
  }

  /** The fields of a format string, by their widths, and the values that go into them. */
  datatype Format = End | Field(width: nat, rest: Format)
  datatype Values = Nil | Value(head: nat, tail: Values)

  // The letters of a format string.

  function B(rest: Format): Format {
    Field(1, rest)
  }

  function H(rest: Format): Format {
    Field(2, rest)
  }

  function I(rest: Format): Format {
    Field(4, rest)
  }

  function Size(f: Format): nat {
    match f
    case End => 0
    case Field(width, rest) => width + Size(rest)
  }

  /** There is a value for every field, and it fits; otherwise `struct.pack` raises an error. */
  predicate AllFit(f: Format, values: Values) {
    match f
    case End => values.Nil?
    case Field(width, rest) => values.Value? && Fits(values.head, width) && AllFit(rest, values.tail)
  }

  function Pack(f: Format, values: Values): (b: seq<byte>)
    requires AllFit(f, values)
    ensures |b| == Size(f)
  {
    match f
    case End => []
    case Field(width, rest) => LittleEndian(values.head, width) + Pack(rest, values.tail)
  }

  function Unpack(f: Format, b: seq<byte>): Values
    requires Size(f) <= |b|
  {
    match f
    case End => Nil
    case Field(width, rest) => Value(FromLittleEndian(b[..width]), Unpack(rest, b[width..]))
  }

  lemma {:induction false} LittleEndianRoundTrip(value: nat, width: nat)
    requires Fits(value, width)
    ensures FromLittleEndian(LittleEndian(value, width)) == value
  {
    if width > 0 {
      LittleEndianRoundTrip(value / 0x100, width - 1);
    }
  }

  /** What `struct.unpack` reads from packed fields, followed by anything, is what was packed. */
  lemma {:induction false} PackRoundTrip(f: Format, values: Values, tail: seq<byte>)
    requires AllFit(f, values)
    ensures Unpack(f, Pack(f, values) + tail) == values
  {
    hide LittleEndian, FromLittleEndian, Fits;
    if f.Field? {
      LittleEndianRoundTrip(values.head, f.width);
      PackRoundTrip(f.rest, values.tail, tail);
      var head, later := LittleEndian(values.head, f.width), Pack(f.rest, values.tail);
      assert (head + later) + tail == head + (later + tail);
      assert (head + (later + tail))[..f.width] == head && (head + (later + tail))[f.width..] == later + tail;
    }
  }

  /** What is read from any bytes, packed again, is those bytes. */
  lemma {:induction false} UnpackRoundTrip(f: Format, b: seq<byte>)
    requires Size(f) == |b|
    ensures AllFit(f, Unpack(f, b)) && Pack(f, Unpack(f, b)) == b
  {
    hide LittleEndian, FromLittleEndian, Fits;
    if f.Field? {
      FromLittleEndianRoundTrip(b[..f.width]);
      UnpackRoundTrip(f.rest, b[f.width..]);
      assert b == b[..f.width] + b[f.width..];
    }
  }

  lemma {:induction false} FromLittleEndianRoundTrip(b: seq<byte>)
    ensures LittleEndian(FromLittleEndian(b), |b|) == b && Fits(FromLittleEndian(b), |b|)
  {
    if b != [] {
      FromLittleEndianRoundTrip(b[1..]);
    }
  }

  // ----- Both spellings of a field are the same bytes -----

  lemma ByteField(x: byte)
    ensures LittleEndian(x, 1) == [x] && Fits(x, 1)
    ensures FromLittleEndian([x]) == x
  {
  }

  lemma U16Field(x: uint16)
    ensures LittleEndian(x, 2) == U16(x) && Fits(x, 2)
  {
    assert LittleEndian(x / 0x100, 1) == [x / 0x100];
    assert Fits(x / 0x100, 1);
  }

  lemma U32Field(x: uint32)
    ensures LittleEndian(x, 4) == U32(x) && Fits(x, 4)
  {
    Digits(x);
    var y := x / 0x100;
    var z := x / 0x1_0000;
    var w := x / 0x100_0000;
    assert LittleEndian(w, 1) == [w] && Fits(w, 1);
    assert LittleEndian(z, 2) == [z % 0x100, w] && Fits(z, 2);
    assert LittleEndian(y, 3) == [y % 0x100, z % 0x100, w] && Fits(y, 3);
  }

  /** Reading a 16-bit field through its format string is the struct's field access. */
  lemma U16Read(b: seq<byte>, i: nat)
    requires i + 2 <= |b|
    ensures FromLittleEndian(b[i..i + 2]) == U16At(b, i)
  {
    var s := b[i..i + 2];
    assert s[1..] == [b[i + 1]];
    ByteField(b[i + 1]);
  }

  lemma U32Read(b: seq<byte>, i: nat)
    requires i + 4 <= |b|
    ensures FromLittleEndian(b[i..i + 4]) == U32At(b, i)
  {
    var s := b[i..i + 4];
    assert s[1..][1..][1..] == [b[i + 3]];
    ByteField(b[i + 3]);
    assert s[1..][1..] == b[i + 2..i + 4] && s[1..] == b[i + 1..i + 4];
    assert FromLittleEndian(s[1..][1..]) == b[i + 2] as int + 0x100 * FromLittleEndian([b[i + 3]]);
    assert FromLittleEndian(s[1..]) == b[i + 1] as int + 0x100 * FromLittleEndian(s[1..][1..]);
  }
}
