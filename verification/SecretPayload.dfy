/** The versioned payload that keeps an encrypted secret as text, and the key it is encrypted under. */
module SecretPayload {
  import opened Common
  import opened JsText
  import opened Base64
  import Utf8

  const KEY_BYTES := 32
  const IV_BYTES := 12
  const AUTH_TAG_BYTES := 16
  const FORMAT_VERSION := "v1"

  datatype Sealed = Sealed(authTag: Bytes, ciphertext: Bytes)

  /** The authenticated cipher: `seal` takes key, iv and plaintext, `unseal` key, iv and the sealed value. */
  datatype Cipher = Cipher(seal: (Bytes, Bytes, Bytes) -> Sealed, unseal: (Bytes, Bytes, Sealed) -> Option<Bytes>)

  /** What is sealed is unsealed under the same key and iv, and nothing else is. */
  ghost predicate IsAuthenticated(cipher: Cipher) {
    && (forall key, iv, plain :: |cipher.seal(key, iv, plain).authTag| == AUTH_TAG_BYTES)
    && (forall key, iv, plain :: cipher.unseal(key, iv, cipher.seal(key, iv, plain)) == Some(plain))
    && (forall key, iv, box :: cipher.unseal(key, iv, box).Some? ==> cipher.seal(key, iv, cipher.unseal(key, iv, box).value) == box)
  }

  datatype Error = MalformedPayload | FailedAuthentication

  /** `iv` is the random value drawn for this call. */
  function EncryptSecret(plaintext: Utf8.Text, key: Bytes, iv: Bytes, cipher: Cipher): string {
    var box := cipher.seal(key, iv, Utf8.Encode(plaintext));
    Join([FORMAT_VERSION, Encode(iv, true), Encode(box.authTag, true), Encode(box.ciphertext, true)], ".")
  }

  function DecryptSecret(payload: string, key: Bytes, cipher: Cipher): Result<Utf8.Text, Error> {
    var segments := Split(payload, '.');
    if |segments| != 4 || segments[0] != FORMAT_VERSION then Err(MalformedPayload)
    else
      var iv, authTag, ciphertext := Decode(segments[1]), Decode(segments[2]), Decode(segments[3]);
      if |iv| != IV_BYTES || |authTag| != AUTH_TAG_BYTES then Err(MalformedPayload)
      else
        var plain := cipher.unseal(key, iv, Sealed(authTag, ciphertext));
        if plain.None? then Err(FailedAuthentication) else Ok(Utf8.Decode(plain.value))
  }

  /** Four segments without a dot inside: the version, sixteen characters for the iv, twenty-two for the tag, the rest. */
  lemma PayloadShape(plaintext: Utf8.Text, key: Bytes, iv: Bytes, cipher: Cipher)
    requires |iv| == IV_BYTES && IsAuthenticated(cipher)
    ensures var box := cipher.seal(key, iv, Utf8.Encode(plaintext));
            var segments := Split(EncryptSecret(plaintext, key, iv, cipher), '.');
            && segments == [FORMAT_VERSION, Encode(iv, true), Encode(box.authTag, true), Encode(box.ciphertext, true)]
            && |segments[1]| == 16 && |segments[2]| == 22
            && Decode(segments[1]) == iv && Decode(segments[2]) == box.authTag && Decode(segments[3]) == box.ciphertext
  {
    var box := cipher.seal(key, iv, Utf8.Encode(plaintext));
    RoundTrip(iv, true);
    RoundTrip(box.authTag, true);
    RoundTrip(box.ciphertext, true);
    SplitJoin([FORMAT_VERSION, Encode(iv, true), Encode(box.authTag, true), Encode(box.ciphertext, true)], '.');
  }

  /**
   * Decryption always succeeds and gives the plaintext with lone surrogates replaced; so it gives the plaintext
   * itself exactly if that has no lone surrogate. The empty plaintext is one of those.
   */
  lemma DecryptInvertsEncrypt(plaintext: Utf8.Text, key: Bytes, iv: Bytes, cipher: Cipher)
    requires |iv| == IV_BYTES && IsAuthenticated(cipher)
    ensures var result := DecryptSecret(EncryptSecret(plaintext, key, iv, cipher), key, cipher);
            && result == Ok(Utf8.ToUnits(Utf8.ToScalars(plaintext)))
            && (result == Ok(plaintext) <==> Utf8.IsWellFormed(plaintext))
  {
    PayloadShape(plaintext, key, iv, cipher);
    Utf8.RoundTripIff(plaintext);
  }

  /** The text holds one lone surrogate, and comes back as the replacement character. */
  lemma LoneSurrogateIsLost(key: Bytes, iv: Bytes, cipher: Cipher)
    requires |iv| == IV_BYTES && IsAuthenticated(cipher)
    ensures DecryptSecret(EncryptSecret([0xD800], key, iv, cipher), key, cipher) == Ok([0xFFFD])
  {
    DecryptInvertsEncrypt([0xD800], key, iv, cipher);
    assert Utf8.ToScalars([0xD800]) == [0xFFFD] by {
      assert [0xD800][1..] == [];
      assert Utf8.ToScalars([]) == [];
    }
    assert Utf8.ToUnits([0xFFFD]) == [0xFFFD] by {
      assert Utf8.ToUnits([]) == [];
    }
  }

  /** The payload names this iv and carries what the cipher makes of these bytes under it. */
  ghost predicate Carries(payload: string, key: Bytes, iv: Bytes, plain: Bytes, cipher: Cipher) {
    var segments := Split(payload, '.');
    && |segments| == 4 && segments[0] == FORMAT_VERSION
    && Decode(segments[1]) == iv && |iv| == IV_BYTES
    && Sealed(Decode(segments[2]), Decode(segments[3])) == cipher.seal(key, iv, plain)
  }

  /** Decryption gives a text exactly for the payloads that carry its bytes, sealed under this key. */
  lemma DecryptsIffSealed(payload: string, key: Bytes, cipher: Cipher, text: Utf8.Text)
    requires IsAuthenticated(cipher)
    ensures DecryptSecret(payload, key, cipher) == Ok(text)
            <==> exists iv, plain :: Carries(payload, key, iv, plain, cipher) && text == Utf8.Decode(plain)
  {
    var segments := Split(payload, '.');
    if DecryptSecret(payload, key, cipher) == Ok(text) {
      var iv := Decode(segments[1]);
      var box := Sealed(Decode(segments[2]), Decode(segments[3]));
      assert Carries(payload, key, iv, cipher.unseal(key, iv, box).value, cipher);
    }
    if iv, plain :| Carries(payload, key, iv, plain, cipher) && text == Utf8.Decode(plain) {
      assert cipher.unseal(key, iv, cipher.seal(key, iv, plain)) == Some(plain);
      assert |cipher.seal(key, iv, plain).authTag| == AUTH_TAG_BYTES;
    }
  }

  // ----- the key -----

  datatype KeyError = NotConfigured | WrongLength

  predicate IsHexDigit(c: char) {
    '0' <= c <= '9' || 'a' <= c <= 'f' || 'A' <= c <= 'F'
  }

  function HexValue(c: char): (v: int)
    requires IsHexDigit(c)
    ensures 0 <= v < 16
  {
    if '0' <= c <= '9' then (c - '0') as int
    else if 'a' <= c <= 'f' then (c - 'a') as int + 10
    else (c - 'A') as int + 10
  }

  predicate IsHex(text: string) {
    text != [] && forall i :: 0 <= i < |text| ==> IsHexDigit(text[i])
  }

  /** An odd digit at the end is dropped. */
  function FromHex(text: string): Bytes
    requires forall i :: 0 <= i < |text| ==> IsHexDigit(text[i])
  {
    if |text| < 2 then [] else [HexValue(text[0]) * 16 + HexValue(text[1])] + FromHex(text[2..])
  }

  function HexDigit(v: int): char
    requires 0 <= v < 16
  {
    if v < 10 then '0' + v as char else 'a' + (v - 10) as char
  }

  function ToHex(bytes: Bytes): string {
    if bytes == [] then [] else [HexDigit(bytes[0] / 16), HexDigit(bytes[0] % 16)] + ToHex(bytes[1..])
  }

  function ParseEncryptionKey(rawKey: Option<string>): Result<Bytes, KeyError> {
    var trimmed := Trim(rawKey.GetOr(""));
    if trimmed == "" then Err(NotConfigured)
    else
      var decoded := if IsHex(trimmed) then FromHex(trimmed) else Decode(trimmed);
      if |decoded| != KEY_BYTES then Err(WrongLength) else Ok(decoded)
  }

  lemma {:induction false} HexRoundTrip(bytes: Bytes)
    ensures forall i :: 0 <= i < |ToHex(bytes)| ==> IsHexDigit(ToHex(bytes)[i])
    ensures FromHex(ToHex(bytes)) == bytes && |ToHex(bytes)| == 2 * |bytes|
  {
    if bytes != [] {
      HexRoundTrip(bytes[1..]);
      assert ToHex(bytes)[2..] == ToHex(bytes[1..]);
      HexDigitRoundTrip(bytes[0] / 16);
      HexDigitRoundTrip(bytes[0] % 16);
    }
  }

  lemma HexDigitRoundTrip(v: int)
    requires 0 <= v < 16
    ensures IsHexDigit(HexDigit(v)) && HexValue(HexDigit(v)) == v
  {
  }

  lemma {:induction false} FromHexLength(text: string)
    requires forall i :: 0 <= i < |text| ==> IsHexDigit(text[i])
    ensures |FromHex(text)| == |text| / 2
  {
    if |text| >= 2 {
      FromHexLength(text[2..]);
    }
  }

  lemma Unspaced(text: string)
    requires forall i :: 0 <= i < |text| ==> InAlphabets(text[i]) || text[i] == '='
    ensures Trim(text) == text
  {
    TrimShape(text);
    assert text != [] ==> !IsSpace(text[0]) && !IsSpace(text[|text| - 1]);
  }

  /** A key written in hexadecimal is read back. */
  lemma HexKeyIsRead(key: Bytes)
    requires |key| == KEY_BYTES
    ensures ParseEncryptionKey(Some(ToHex(key))) == Ok(key)
  {
    HexRoundTrip(key);
    Unspaced(ToHex(key));
  }

  /** A key in padded base 64 is read back: the padding sign cannot be taken for a hexadecimal digit. */
  lemma PaddedKeyIsRead(key: Bytes, url: bool)
    requires |key| == KEY_BYTES
    ensures ParseEncryptionKey(Some(Encode(key, url) + "=")) == Ok(key)
  {
    var text := Encode(key, url) + "=";
    RoundTrip(key, url);
    assert text[..|text| - 1] == Encode(key, url) && text[|text| - 1] == '=';
    forall i | 0 <= i < |text| ensures InAlphabets(text[i]) || text[i] == '=' {
      assert i < |text| - 1 ==> text[i] in Encode(key, url);
    }
    Unspaced(text);
    ReadPadded(Encode(key, url), "=");
    assert !IsHex(text) by {
      assert !IsHexDigit(text[|text| - 1]);
    }
  }

  /** Without padding a key is read back exactly if its text does not happen to consist of hexadecimal digits. */
  lemma UnpaddedKeyIsReadIff(key: Bytes, url: bool)
    requires |key| == KEY_BYTES
    ensures ParseEncryptionKey(Some(Encode(key, url)))
            == if IsHex(Encode(key, url)) then Err(WrongLength) else Ok(key)
  {
    var text := Encode(key, url);
    RoundTrip(key, url);
    forall i | 0 <= i < |text| ensures InAlphabets(text[i]) {
      assert text[i] in text;
    }
    Unspaced(text);
    assert |text| == 43;
    if IsHex(text) {
      FromHexLength(text);
    }
  }

  lemma {:induction false} ZeroSextets(bytes: Bytes)
    requires forall i :: 0 <= i < |bytes| ==> bytes[i] == 0
    ensures forall i :: 0 <= i < |ToSextets(bytes)| ==> ToSextets(bytes)[i] == 0
  {
    if |bytes| >= 3 {
      ZeroSextets(bytes[3..]);
    }
  }

  lemma {:induction false} ZeroText(sextets: seq<Sextet>, url: bool)
    requires forall i :: 0 <= i < |sextets| ==> sextets[i] == 0
    ensures forall i :: 0 <= i < |Print(sextets, url)| ==> Print(sextets, url)[i] == 'A'
  {
    if sextets != [] {
      ZeroText(sextets[1..], url);
    }
  }

  /** Such a key exists: that of zero bytes, whose text is a row of the letter A. */
  lemma ZeroKeyIsRefused(key: Bytes, url: bool)
    requires |key| == KEY_BYTES && forall i :: 0 <= i < |key| ==> key[i] == 0
    ensures ParseEncryptionKey(Some(Encode(key, url))) == Err(WrongLength)
  {
    ZeroSextets(key);
    ZeroText(ToSextets(key), url);
    RoundTrip(key, url);
    UnpaddedKeyIsReadIff(key, url);
  }
}
