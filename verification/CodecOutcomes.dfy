/** The text codings bit by bit, as their standards have them, and the payload and key formats built on them. */
module CodecOutcomes {
  import opened Base64
  import opened Common
  import opened JsText
  import opened SecretPayload
  import Utf8

  // ----- base 64 -----

  /** The tables of section 4 and section 5 of RFC 4648, by the codes of the characters: A to Z, a to z, 0 to 9, and two signs. */
  function TableCode(v: Sextet, url: bool): int {
    if v <= 25 then 65 + v
    else if v <= 51 then 97 + (v - 26)
    else if v <= 61 then 48 + (v - 52)
    else if url then (if v == 62 then 45 else 95)
    else if v == 62 then 43 else 47
  }

  lemma EncodedSextet(v: Sextet, url: bool)
    ensures EncodeSextet(v, url) as int == TableCode(v, url)
  {
  }

  /** A character stands for its place in either table, and one in neither table for nothing. */
  lemma ReadSextet(c: char)
    ensures InAlphabets(c) <==> exists v: Sextet :: c as int == TableCode(v, false) || c as int == TableCode(v, true)
    ensures Read([c]) == if InAlphabets(c) then [DecodeChar(c)] else []
    ensures InAlphabets(c) ==> c as int == TableCode(DecodeChar(c), false) || c as int == TableCode(DecodeChar(c), true)
  {
    assert [c][1..] == [] && Read([]) == [];
    if InAlphabets(c) {
      assert c as int == TableCode(DecodeChar(c), false) || c as int == TableCode(DecodeChar(c), true);
    }
    if v: Sextet :| c as int == TableCode(v, false) || c as int == TableCode(v, true) {
      EncodedSextet(v, false);
      EncodedSextet(v, true);
      CharRoundTrip(v, false);
      CharRoundTrip(v, true);
    }
  }

  /** Texts are read character by character. */
  lemma {:induction false} ReadConcat(a: string, b: string)
    ensures Read(a + b) == Read(a) + Read(b)
  {
    if a == [] {
      assert a + b == b;
    } else {
      var head := if InAlphabets(a[0]) then [DecodeChar(a[0])] else [];
      ReadConcat(a[1..], b);
      assert (a + b)[0] == a[0] && (a + b)[1..] == a[1..] + b;
      assert Read(a + b) == head + (Read(a[1..]) + Read(b));
      assert Read(a) == head + Read(a[1..]);
    }
  }

  /** The number that some bytes, or some sextets, make up, the highest first. */
  function FromBytes(bytes: Bytes): int {
    if bytes == [] then 0 else FromBytes(bytes[..|bytes| - 1]) * 256 + bytes[|bytes| - 1]
  }

  function FromSixes(sextets: seq<Sextet>): int {
    if sextets == [] then 0 else FromSixes(sextets[..|sextets| - 1]) * 64 + sextets[|sextets| - 1]
  }

  lemma Numbers2(a: Byte, b: Byte, x: Sextet, y: Sextet)
    ensures FromBytes([a]) == a && FromBytes([a, b]) == a * 256 + b && FromSixes([x, y]) == x * 64 + y
  {
    assert [a][..0] == [] && [a, b][..1] == [a] && [x][..0] == [] && [x, y][..1] == [x];
    assert FromSixes([x]) == x;
  }

  /** Three bytes are four sextets of the same bits; one or two bytes left over are filled up with zeros. */
  lemma SextetBits(bytes: Bytes)
    ensures var s := ToSextets(bytes);
            && (|bytes| == 0 ==> s == [])
            && (|bytes| == 1 ==> |s| == 2 && FromSixes(s) == FromBytes(bytes) * 16)
            && (|bytes| == 2 ==> |s| == 3 && FromSixes(s) == FromBytes(bytes) * 4)
            && (|bytes| >= 3 ==>
                  |s| >= 4 && s[4..] == ToSextets(bytes[3..]) && FromSixes(s[..4]) == FromBytes(bytes[..3]))
  {
    var s := ToSextets(bytes);
    if |bytes| == 1 {
      Numbers2(bytes[0], 0, s[0], s[1]);
    } else if |bytes| == 2 {
      Numbers2(bytes[0], bytes[1], s[0], s[1]);
      assert s[..2] == [s[0], s[1]] && bytes == [bytes[0], bytes[1]];
    } else if |bytes| >= 3 {
      Numbers3(bytes[0], bytes[1], bytes[2], s[0], s[1], s[2], s[3]);
      assert s[..4] == [s[0], s[1], s[2], s[3]] && bytes[..3] == [bytes[0], bytes[1], bytes[2]];
    }
  }

  lemma Numbers3(a: Byte, b: Byte, c: Byte, x: Sextet, y: Sextet, z: Sextet, w: Sextet)
    ensures FromBytes([a, b, c]) == a * 65536 + b * 256 + c
    ensures FromSixes([x, y, z]) == x * 4096 + y * 64 + z
    ensures FromSixes([x, y, z, w]) == x * 262144 + y * 4096 + z * 64 + w
  {
    Numbers2(a, b, x, y);
    assert [a, b, c][..2] == [a, b] && [x, y, z][..2] == [x, y] && [x, y, z, w][..3] == [x, y, z];
  }

  /** The reader goes the same way back, and drops bits that do not make up a byte. */
  lemma ByteBits(s: seq<Sextet>)
    ensures var bytes := FromSextets(s);
            && (|s| <= 1 ==> bytes == [])
            && (|s| == 2 ==> |bytes| == 1 && FromBytes(bytes) == FromSixes(s) / 16)
            && (|s| == 3 ==> |bytes| == 2 && FromBytes(bytes) == FromSixes(s) / 4)
            && (|s| >= 4 ==> |bytes| >= 3 && bytes[3..] == FromSextets(s[4..]) && FromBytes(bytes[..3]) == FromSixes(s[..4]))
  {
    var bytes := FromSextets(s);
    if |s| == 2 {
      Numbers2(bytes[0], 0, s[0], s[1]);
      assert s == [s[0], s[1]] && bytes == [bytes[0]];
    } else if |s| == 3 {
      Numbers3(bytes[0], bytes[1], 0, s[0], s[1], s[2], 0);
      Numbers2(bytes[0], bytes[1], s[0], s[1]);
      assert s == [s[0], s[1], s[2]] && bytes == [bytes[0], bytes[1]];
    } else if |s| >= 4 {
      Numbers3(bytes[0], bytes[1], bytes[2], s[0], s[1], s[2], s[3]);
      assert s[..4] == [s[0], s[1], s[2], s[3]] && bytes[..3] == [bytes[0], bytes[1], bytes[2]];
    }
  }

  /** The text is one character for each sextet. */
  lemma {:induction false} PrintOutcome(sextets: seq<Sextet>, url: bool)
    ensures |Print(sextets, url)| == |sextets|
    ensures forall i :: 0 <= i < |sextets| ==> Print(sextets, url)[i] as int == TableCode(sextets[i], url)
  {
    if sextets != [] {
      PrintOutcome(sextets[1..], url);
      EncodedSextet(sextets[0], url);
    }
  }

  // ----- UTF-8 and UTF-16 -----

  predicate IsFollowing(b: Byte) {
    0x80 <= b <= 0xBF
  }

  /** The six bits of a following byte. */
  function Bits(b: Byte): int {
    b as int - 0x80
  }

  /** The table of section 3 of RFC 3629: how many bytes a scalar takes, and where its bits go. */
  lemma ScalarBytes(v: Utf8.Scalar)
    ensures var b := Utf8.BytesOf(v);
            if v <= 0x7F then b == [v]
            else if v <= 0x7FF then
              |b| == 2 && 0xC0 <= b[0] <= 0xDF && IsFollowing(b[1]) && v == (b[0] as int - 0xC0) * 0x40 + Bits(b[1])
            else if v <= 0xFFFF then
              |b| == 3 && 0xE0 <= b[0] <= 0xEF && IsFollowing(b[1]) && IsFollowing(b[2])
              && v == (b[0] as int - 0xE0) * 0x1000 + Bits(b[1]) * 0x40 + Bits(b[2])
            else
              |b| == 4 && 0xF0 <= b[0] <= 0xF7 && IsFollowing(b[1]) && IsFollowing(b[2]) && IsFollowing(b[3])
              && v == (b[0] as int - 0xF0) * 0x40000 + Bits(b[1]) * 0x1000 + Bits(b[2]) * 0x40 + Bits(b[3])
  {
    Utf8.Digits(v);
  }

  /** The scalar that a surrogate pair stands for. */
  function PairValue(high: Utf8.Unit, low: Utf8.Unit): Utf8.Scalar
    requires 0xD800 <= high <= 0xDBFF && 0xDC00 <= low <= 0xDFFF
  {
    0x10000 + (high as int - 0xD800) * 0x400 + (low as int - 0xDC00)
  }

  /** A text is encoded scalar by scalar; a surrogate pair is one scalar, and a lone surrogate the replacement character. */
  lemma EncodedText(text: Utf8.Text)
    requires text != []
    ensures var high, low := 0xD800 <= text[0] <= 0xDBFF, 0xDC00 <= text[0] <= 0xDFFF;
            if high && |text| >= 2 && 0xDC00 <= text[1] <= 0xDFFF then
              Utf8.Encode(text) == Utf8.BytesOf(PairValue(text[0], text[1])) + Utf8.Encode(text[2..])
            else if high || low then Utf8.Encode(text) == [0xEF, 0xBF, 0xBD] + Utf8.Encode(text[1..])
            else Utf8.Encode(text) == Utf8.BytesOf(text[0]) + Utf8.Encode(text[1..])
    ensures Utf8.Encode([]) == []
  {
    var scalars := Utf8.ToScalars(text);
    var n := if Utf8.StartsWithPair(text) then 2 else 1;
    assert scalars[1..] == Utf8.ToScalars(text[n..]);
    assert Utf8.BytesOf(0xFFFD) == [0xEF, 0xBF, 0xBD];
  }

  /** Bytes are decoded scalar by scalar. */
  lemma DecodedScalar(v: Utf8.Scalar, rest: Bytes)
    ensures Utf8.Decode(Utf8.BytesOf(v) + rest) == Utf8.UnitsOf(v) + Utf8.Decode(rest)
    ensures Utf8.Decode([]) == []
  {
    var bytes := Utf8.BytesOf(v) + rest;
    if v < 0x800 {
      Utf8.OneByte(v, rest);
    } else if v < 0x10000 {
      Utf8.ThreeBytes(v, rest);
    } else {
      Utf8.FourBytes(v, rest);
    }
    assert bytes[|Utf8.BytesOf(v)|..] == rest;
    assert Utf8.DecodeBytes(bytes) == [v] + Utf8.DecodeBytes(rest);
    Utf8.ToUnitsFirst(v, Utf8.DecodeBytes(rest));
  }

  /** The second bytes that the syntax of section 4 of RFC 3629 allows behind a first one. */
  predicate MayFollow(first: Byte, second: Byte) {
    if first == 0xE0 then 0xA0 <= second <= 0xBF
    else if first == 0xED then 0x80 <= second <= 0x9F
    else if first == 0xF0 then 0x90 <= second <= 0xBF
    else if first == 0xF4 then 0x80 <= second <= 0x8F
    else 0xC2 <= first <= 0xF3 && 0x80 <= second <= 0xBF
  }

  lemma SecondByte(bytes: Bytes)
    requires bytes != [] && 0xC2 <= bytes[0] <= 0xF4
    ensures Utf8.SecondFits(bytes) <==> |bytes| > 1 && MayFollow(bytes[0], bytes[1])
  {
  }

  lemma TailByte(bytes: Bytes, i: nat)
    ensures Utf8.IsTail(bytes, i) <==> i < |bytes| && IsFollowing(bytes[i])
    ensures Utf8.IsTail(bytes, i) ==> Utf8.Low(bytes, i) == Bits(bytes[i])
  {
  }

  /** Bytes are decoded by that syntax; what breaks off is replaced once, up to the byte that does not fit. */
  lemma DecodedBytes(bytes: Bytes)
    requires bytes != []
    ensures var b, n := bytes, |bytes|;
            Utf8.DecodeOne(bytes)
            == if b[0] <= 0x7F then (b[0], 1)
               else if n == 1 || !MayFollow(b[0], b[1]) then (0xFFFD, 1)
               else if b[0] <= 0xDF then ((b[0] as int - 0xC0) * 0x40 + Bits(b[1]), 2)
               else if n == 2 || !IsFollowing(b[2]) then (0xFFFD, 2)
               else if b[0] <= 0xEF then ((b[0] as int - 0xE0) * 0x1000 + Bits(b[1]) * 0x40 + Bits(b[2]), 3)
               else if n == 3 || !IsFollowing(b[3]) then (0xFFFD, 3)
               else ((b[0] as int - 0xF0) * 0x40000 + Bits(b[1]) * 0x1000 + Bits(b[2]) * 0x40 + Bits(b[3]), 4)
  {
    if 0xC2 <= bytes[0] <= 0xF4 {
      SecondByte(bytes);
      TailByte(bytes, 1);
      TailByte(bytes, 2);
      TailByte(bytes, 3);
    }
  }

  /** The rest is decoded by itself. */
  lemma DecodedRest(bytes: Bytes)
    requires bytes != []
    ensures var (v, n) := Utf8.DecodeOne(bytes);
            Utf8.Decode(bytes) == Utf8.UnitsOf(v) + Utf8.Decode(bytes[n..])
  {
    var (v, n) := Utf8.DecodeOne(bytes);
    Utf8.ToUnitsFirst(v, Utf8.DecodeBytes(bytes[n..]));
  }

  lemma UnitsOfScalar(v: Utf8.Scalar)
    ensures var u := Utf8.UnitsOf(v);
            if v <= 0xFFFF then u == [v]
            else |u| == 2 && 0xD800 <= u[0] <= 0xDBFF && 0xDC00 <= u[1] <= 0xDFFF && v == PairValue(u[0], u[1])
  {
  }

  // ----- the payload -----

  /** Version, iv, tag and ciphertext, in this order, joined by dots, in the url-safe alphabet. */
  lemma PayloadOutcome(plaintext: Utf8.Text, key: Bytes, iv: Bytes, cipher: Cipher)
    ensures var box := cipher.seal(key, iv, Utf8.Encode(plaintext));
            EncryptSecret(plaintext, key, iv, cipher)
            == "v1" + "." + Encode(iv, true) + "." + Encode(box.authTag, true) + "." + Encode(box.ciphertext, true)
  {
    var box := cipher.seal(key, iv, Utf8.Encode(plaintext));
    var parts := ["v1", Encode(iv, true), Encode(box.authTag, true), Encode(box.ciphertext, true)];
    assert parts[1..] == [parts[1], parts[2], parts[3]];
    assert parts[1..][1..] == [parts[2], parts[3]];
    assert parts[1..][1..][1..] == [parts[3]];
    assert Join([parts[3]], ".") == parts[3];
    assert Join([parts[2], parts[3]], ".") == parts[2] + "." + parts[3];
    assert Join(parts[1..], ".") == parts[1] + "." + (parts[2] + "." + parts[3]);
    assert Join(parts, ".") == parts[0] + "." + Join(parts[1..], ".");
  }

  /** What has another shape is malformed; what has the shape is what the cipher makes of it. */
  lemma DecryptOutcome(payload: string, key: Bytes, cipher: Cipher)
    ensures var parts := Split(payload, '.');
            if |parts| != 4 || parts[0] != "v1" || |Decode(parts[1])| != 12 || |Decode(parts[2])| != 16 then
              DecryptSecret(payload, key, cipher) == Err(MalformedPayload)
            else
              var plain := cipher.unseal(key, Decode(parts[1]), Sealed(Decode(parts[2]), Decode(parts[3])));
              DecryptSecret(payload, key, cipher)
              == if plain.None? then Err(FailedAuthentication) else Ok(Utf8.Decode(plain.value))
  {
  }

  // ----- the key -----

  /** The digits by the codes of their characters: 0 to 9, and A to F in either case. */
  lemma HexDigitOutcome(c: char)
    ensures IsHexDigit(c) <==> 48 <= c as int <= 57 || 65 <= c as int <= 70 || 97 <= c as int <= 102
    ensures IsHexDigit(c) ==> HexValue(c) == if c as int <= 57 then c as int - 48 else if c as int <= 70 then c as int - 55 else c as int - 87
  {
  }

  /** Two digits are a byte, the first the higher half. */
  lemma HexBytes(text: string)
    requires forall i :: 0 <= i < |text| ==> IsHexDigit(text[i])
    ensures FromHex(text) == if |text| < 2 then [] else [16 * HexValue(text[0]) + HexValue(text[1])] + FromHex(text[2..])
  {
  }

  /** A configured key is hexadecimal if it consists of such digits, else base 64, and has 32 bytes. */
  lemma KeyOutcome(rawKey: Option<string>)
    ensures var text := if rawKey.Some? then Trim(rawKey.value) else "";
            if text == "" then ParseEncryptionKey(rawKey) == Err(NotConfigured)
            else
              var isHex := forall i :: 0 <= i < |text| ==> IsHexDigit(text[i]);
              var bytes := if isHex then FromHex(text) else Decode(text);
              ParseEncryptionKey(rawKey) == if |bytes| == 32 then Ok(bytes) else Err(WrongLength)
  {
    TrimShape("");
  }
}
