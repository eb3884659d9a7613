/** The base 64 codings of section 4 and section 5 of RFC 4648, and the runtime's lenient reader of both. */
module Base64 {
  type Byte = b: int | 0 <= b < 256
  type Sextet = v: int | 0 <= v < 64
  type Bytes = seq<Byte>

  // ----- three bytes as four sextets -----

  function ToSextets(bytes: Bytes): (sextets: seq<Sextet>) {
    if bytes == [] then []
    else if |bytes| == 1 then [bytes[0] / 4, bytes[0] % 4 * 16]
    else if |bytes| == 2 then [bytes[0] / 4, bytes[0] % 4 * 16 + bytes[1] / 16, bytes[1] % 16 * 4]
    else
      [bytes[0] / 4, bytes[0] % 4 * 16 + bytes[1] / 16, bytes[1] % 16 * 4 + bytes[2] / 64, bytes[2] % 64]
      + ToSextets(bytes[3..])
  }

  /** A single sextet left over at the end stands for nothing. */
  function FromSextets(sextets: seq<Sextet>): Bytes {
    if |sextets| < 2 then []
    else
      var a: int, b: int := sextets[0], sextets[1];
      var first := a * 4 + b / 16;
      if |sextets| == 2 then [first]
      else
        var c: int := sextets[2];
        var second := b % 16 * 16 + c / 4;
        if |sextets| == 3 then [first, second]
        else [first, second, c % 4 * 64 + sextets[3]] + FromSextets(sextets[4..])
  }

  lemma {:induction false} SextetsRoundTrip(bytes: Bytes)
    ensures FromSextets(ToSextets(bytes)) == bytes
    ensures |ToSextets(bytes)| == (4 * |bytes| + 2) / 3
  {
    if |bytes| >= 3 {
      SextetsRoundTrip(bytes[3..]);
      assert ToSextets(bytes)[4..] == ToSextets(bytes[3..]);
      assert bytes == [bytes[0], bytes[1], bytes[2]] + bytes[3..];
    }
  }

  // ----- the alphabets -----

  /** `url` chooses the alphabet of section 5 over that of section 4. */
  function EncodeSextet(v: Sextet, url: bool): char {
    if v < 26 then 'A' + v as char
    else if v < 52 then 'a' + (v - 26) as char
    else if v < 62 then '0' + (v - 52) as char
    else if v == 62 then (if url then '-' else '+')
    else (if url then '_' else '/')
  }

  predicate InAlphabets(c: char) {
    'A' <= c <= 'Z' || 'a' <= c <= 'z' || '0' <= c <= '9' || c in ['-', '+', '_', '/']
  }

  function DecodeChar(c: char): Sextet
    requires InAlphabets(c)
  {
    if 'A' <= c <= 'Z' then (c - 'A') as int
    else if 'a' <= c <= 'z' then (c - 'a') as int + 26
    else if '0' <= c <= '9' then (c - '0') as int + 52
    else if c == '-' || c == '+' then 62
    else 63
  }

  lemma CharRoundTrip(v: Sextet, url: bool)
    ensures InAlphabets(EncodeSextet(v, url)) && DecodeChar(EncodeSextet(v, url)) == v
    ensures EncodeSextet(v, url) != '.' && EncodeSextet(v, url) != '='
  {
  }

  function Print(sextets: seq<Sextet>, url: bool): string {
    if sextets == [] then [] else [EncodeSextet(sextets[0], url)] + Print(sextets[1..], url)
  }

  /** Characters of neither alphabet, padding included, are passed over. */
  function Read(text: string): seq<Sextet> {
    if text == [] then []
    else (if InAlphabets(text[0]) then [DecodeChar(text[0])] else []) + Read(text[1..])
  }

  function Encode(bytes: Bytes, url: bool): string {
    Print(ToSextets(bytes), url)
  }

  function Decode(text: string): Bytes {
    FromSextets(Read(text))
  }

  lemma {:induction false} PrintRoundTrip(sextets: seq<Sextet>, url: bool)
    ensures Read(Print(sextets, url)) == sextets && |Print(sextets, url)| == |sextets|
    ensures forall c <- Print(sextets, url) :: InAlphabets(c) && c != '.'
  {
    if sextets != [] {
      PrintRoundTrip(sextets[1..], url);
      CharRoundTrip(sextets[0], url);
    }
  }

  /** Every byte string is read back from either coding; its text has no dot and a length fixed by the number of bytes. */
  lemma RoundTrip(bytes: Bytes, url: bool)
    ensures Decode(Encode(bytes, url)) == bytes
    ensures |Encode(bytes, url)| == (4 * |bytes| + 2) / 3
    ensures forall c <- Encode(bytes, url) :: InAlphabets(c) && c != '.'
  {
    SextetsRoundTrip(bytes);
    PrintRoundTrip(ToSextets(bytes), url);
  }

  /** Padding at the end does not matter to the reader. */
  lemma {:induction false} ReadPadded(text: string, padding: string)
    requires forall c <- padding :: c == '='
    ensures Read(text + padding) == Read(text)
    decreases |text| + |padding|
  {
    if text != [] {
      ReadPadded(text[1..], padding);
      assert (text + padding)[1..] == text[1..] + padding;
    } else if padding != [] {
      assert forall c <- padding[1..] :: c == '=' by {
        assert forall i :: 1 <= i < |padding| ==> padding[i] in padding;
      }
      ReadPadded([], padding[1..]);
      assert padding[0] in padding;
      assert [] + padding == padding && [] + padding[1..] == padding[1..];
    }
  }
}
