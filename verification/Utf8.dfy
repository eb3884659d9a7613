/** Text as UTF-16 code units, as bytes in UTF-8, and back, with replacement of what is ill-formed. */
module Utf8 {
  import opened Base64

  type Unit = u: int | 0 <= u < 0x10000
  type Text = seq<Unit>

  /** Any Unicode code point but a surrogate. */
  type Scalar = v: int | 0 <= v < 0x110000 && !(0xD800 <= v < 0xE000)

  const REPLACEMENT: Scalar := 0xFFFD

  predicate IsHigh(u: Unit) {
    0xD800 <= u < 0xDC00
  }

  predicate IsLow(u: Unit) {
    0xDC00 <= u < 0xE000
  }

  // ----- code units and scalars -----

  predicate StartsWithPair(text: Text) {
    |text| >= 2 && IsHigh(text[0]) && IsLow(text[1])
  }

  /** A surrogate outside a pair is replaced. */
  function ToScalars(text: Text): seq<Scalar> {
    if text == [] then []
    else if StartsWithPair(text) then [0x10000 + (text[0] - 0xD800) * 0x400 + (text[1] - 0xDC00)] + ToScalars(text[2..])
    else if IsHigh(text[0]) || IsLow(text[0]) then [REPLACEMENT] + ToScalars(text[1..])
    else [text[0]] + ToScalars(text[1..])
  }

  function UnitsOf(v: Scalar): Text {
    if v < 0x10000 then [v] else [0xD800 + (v - 0x10000) / 0x400, 0xDC00 + (v - 0x10000) % 0x400]
  }

  function ToUnits(scalars: seq<Scalar>): Text {
    if scalars == [] then [] else UnitsOf(scalars[0]) + ToUnits(scalars[1..])
  }

  /** Surrogates occur in pairs only. */
  ghost predicate IsWellFormed(text: Text) {
    && (forall i :: 0 <= i < |text| && IsHigh(text[i]) ==> i + 1 < |text| && IsLow(text[i + 1]))
    && (forall i :: 0 <= i < |text| && IsLow(text[i]) ==> i > 0 && IsHigh(text[i - 1]))
  }

  lemma WellFormedTail(text: Text)
    requires text != []
    ensures var n := if StartsWithPair(text) then 2 else 1;
            IsWellFormed(text) <==> (n == 2 || !(IsHigh(text[0]) || IsLow(text[0]))) && IsWellFormed(text[n..])
  {
    var n := if StartsWithPair(text) then 2 else 1;
    var tail := text[n..];
    assert forall i :: n <= i < |text| ==> text[i] == tail[i - n];
    if (n == 2 || !(IsHigh(text[0]) || IsLow(text[0]))) && IsWellFormed(tail) {
      assert forall i :: n <= i < |text| && IsHigh(text[i]) ==> IsHigh(tail[i - n]);
      assert forall i :: n <= i < |text| && IsLow(text[i]) ==> IsLow(tail[i - n]);
    }
  }

  lemma ToUnitsFirst(v: Scalar, rest: seq<Scalar>)
    ensures ToUnits([v] + rest) == UnitsOf(v) + ToUnits(rest)
  {
    assert ([v] + rest)[1..] == rest;
  }

  lemma PairIsRestored(high: Unit, low: Unit)
    requires IsHigh(high) && IsLow(low)
    ensures var v := 0x10000 + (high - 0xD800) * 0x400 + (low - 0xDC00);
            0x10000 <= v < 0x110000 && UnitsOf(v) == [high, low]
  {
    var d, e := high - 0xD800, low - 0xDC00;
    assert (d * 0x400 + e) / 0x400 == d && (d * 0x400 + e) % 0x400 == e;
  }

  /** Replacement changes a text exactly if it has a lone surrogate. */
  lemma {:induction false} RepairedIffIllFormed(text: Text)
    ensures ToUnits(ToScalars(text)) == text <==> IsWellFormed(text)
  {
    if text != [] {
      WellFormedTail(text);
      var n := if StartsWithPair(text) then 2 else 1;
      var v, tail := ToScalars(text)[0], text[n..];
      RepairedIffIllFormed(tail);
      ToUnitsFirst(v, ToScalars(tail));
      assert ToScalars(text) == [v] + ToScalars(tail);
      assert text == text[..n] + tail;
      if StartsWithPair(text) {
        PairIsRestored(text[0], text[1]);
        assert UnitsOf(v) == text[..n];
      } else {
        assert UnitsOf(v) == [v] && text[..n] == [text[0]];
        assert IsHigh(text[0]) || IsLow(text[0]) <==> v != text[0];
      }
      SameHead(UnitsOf(v), ToUnits(ToScalars(tail)), text[..n], tail);
    }
  }

  lemma SameHead(a: Text, restA: Text, b: Text, restB: Text)
    requires |a| == |b|
    ensures a + restA == b + restB <==> a == b && restA == restB
  {
    if a + restA == b + restB {
      assert a == (a + restA)[..|a|] == (b + restB)[..|b|] == b;
      assert restA == (a + restA)[|a|..] == (b + restB)[|b|..] == restB;
    }
  }

  // ----- scalars and bytes -----

  function BytesOf(v: Scalar): Bytes {
    if v < 0x80 then [v]
    else if v < 0x800 then [0xC0 + v / 0x40, 0x80 + v % 0x40]
    else if v < 0x10000 then [0xE0 + v / 0x1000, 0x80 + v / 0x40 % 0x40, 0x80 + v % 0x40]
    else [0xF0 + v / 0x40000, 0x80 + v / 0x1000 % 0x40, 0x80 + v / 0x40 % 0x40, 0x80 + v % 0x40]
  }

  function EncodeScalars(scalars: seq<Scalar>): Bytes {
    if scalars == [] then [] else BytesOf(scalars[0]) + EncodeScalars(scalars[1..])
  }

  predicate IsTail(bytes: Bytes, i: nat) {
    i < |bytes| && 0x80 <= bytes[i] < 0xC0
  }

  /** The six bits that a following byte carries. */
  function Low(bytes: Bytes, i: nat): (low: int)
    requires i < |bytes|
    ensures 0 <= low < 0x40
  {
    bytes[i] % 0x40
  }

  /** Whether the second byte may follow the first: this keeps out long forms, surrogates and values too large. */
  predicate SecondFits(bytes: Bytes)
    requires bytes != []
  {
    && IsTail(bytes, 1)
    && (bytes[0] == 0xE0 ==> bytes[1] >= 0xA0)
    && (bytes[0] == 0xED ==> bytes[1] < 0xA0)
    && (bytes[0] == 0xF0 ==> bytes[1] >= 0x90)
    && (bytes[0] == 0xF4 ==> bytes[1] < 0x90)
  }

  /** The next scalar and the bytes it takes; an ill-formed sequence is replaced up to the first byte that does not fit. */
  function DecodeOne(bytes: Bytes): (r: (Scalar, nat))
    requires bytes != []
    ensures 1 <= r.1 <= |bytes|
  {
    var b: int := bytes[0];
    if b < 0x80 then (b, 1)
    else if b < 0xC2 || b > 0xF4 || !SecondFits(bytes) then (REPLACEMENT, 1)
    else if b < 0xE0 then (b % 0x20 * 0x40 + Low(bytes, 1), 2)
    else if !IsTail(bytes, 2) then (REPLACEMENT, 2)
    else if b < 0xF0 then (b % 0x10 * 0x1000 + Low(bytes, 1) * 0x40 + Low(bytes, 2), 3)
    else if !IsTail(bytes, 3) then (REPLACEMENT, 3)
    else (b % 0x08 * 0x40000 + Low(bytes, 1) * 0x1000 + Low(bytes, 2) * 0x40 + Low(bytes, 3), 4)
  }

  function DecodeBytes(bytes: Bytes): seq<Scalar>
    decreases |bytes|
  {
    if bytes == [] then []
    else
      var (v, n) := DecodeOne(bytes);
      [v] + DecodeBytes(bytes[n..])
  }

  lemma OneByte(v: Scalar, rest: Bytes)
    requires v < 0x800
    ensures DecodeOne(BytesOf(v) + rest) == (v, |BytesOf(v)|)
  {
  }

  lemma ThreeBytes(v: Scalar, rest: Bytes)
    requires 0x800 <= v < 0x10000
    ensures DecodeOne(BytesOf(v) + rest) == (v, |BytesOf(v)|)
  {
    var bytes := BytesOf(v) + rest;
    assert Low(bytes, 1) == v / 0x40 % 0x40 && Low(bytes, 2) == v % 0x40;
    assert SecondFits(bytes) && IsTail(bytes, 2);
  }

  lemma Digits(v: int)
    requires 0 <= v
    ensures v == v / 0x40000 * 0x40000 + v / 0x1000 % 0x40 * 0x1000 + v / 0x40 % 0x40 * 0x40 + v % 0x40
  {
    var a, b := v / 0x40, v / 0x1000;
    assert b == a / 0x40;
    assert v / 0x40000 == b / 0x40;
  }

  lemma FourBytes(v: Scalar, rest: Bytes)
    requires 0x10000 <= v
    ensures DecodeOne(BytesOf(v) + rest) == (v, |BytesOf(v)|)
  {
    var b0, b1, b2, b3 := 0xF0 + v / 0x40000, 0x80 + v / 0x1000 % 0x40, 0x80 + v / 0x40 % 0x40, 0x80 + v % 0x40;
    var bytes := [b0, b1, b2, b3] + rest;
    Digits(v);
    assert bytes[0] == b0 && bytes[1] == b1 && bytes[2] == b2 && bytes[3] == b3;
    assert b0 == 0xF0 ==> b1 >= 0x90;
    assert b0 == 0xF4 ==> b1 < 0x90;
    assert Low(bytes, 1) == v / 0x1000 % 0x40;
    assert Low(bytes, 2) == v / 0x40 % 0x40;
    assert Low(bytes, 3) == v % 0x40;
    assert b0 % 0x08 == v / 0x40000;
  }

  /** Every sequence of scalars is read back from its bytes. */
  lemma {:induction false} ScalarsRoundTrip(scalars: seq<Scalar>)
    ensures DecodeBytes(EncodeScalars(scalars)) == scalars
  {
    if scalars != [] {
      var v, rest := scalars[0], EncodeScalars(scalars[1..]);
      ScalarsRoundTrip(scalars[1..]);
      if v < 0x800 {
        OneByte(v, rest);
      } else if v < 0x10000 {
        ThreeBytes(v, rest);
      } else {
        FourBytes(v, rest);
      }
      assert (BytesOf(v) + rest)[|BytesOf(v)|..] == rest;
    }
  }

  // ----- texts and bytes -----

  function Encode(text: Text): Bytes {
    EncodeScalars(ToScalars(text))
  }

  function Decode(bytes: Bytes): Text {
    ToUnits(DecodeBytes(bytes))
  }

  lemma RoundTripIff(text: Text)
    ensures Decode(Encode(text)) == ToUnits(ToScalars(text))
    ensures Decode(Encode(text)) == text <==> IsWellFormed(text)
  {
    ScalarsRoundTrip(ToScalars(text));
    RepairedIffIllFormed(text);
  }
}
