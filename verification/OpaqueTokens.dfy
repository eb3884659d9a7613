/** The `jti.secret` strings handed to clients for refresh tokens and for pending challenges. */
module OpaqueTokens {
  import opened Common
  import opened JsText

  datatype Token = Token(jti: string, secret: string)

  function Format(token: Token): string {
    token.jti + "." + token.secret
  }

  /** `parseOpaqueRefresh` and `parseChallengeToken`, which are the same text. */
  function Parse(raw: string): (result: Option<Token>) {
    var parts := Split(Trim(raw), '.');
    if |parts| != 2 || parts[0] == [] || parts[1] == [] then None
    else Some(Token(parts[0], parts[1]))
  }

  /** What the reader can tell apart: two non-empty parts, no dot inside, no white space outside. */
  predicate WellFormed(token: Token) {
    && token.jti != [] && token.secret != []
    && '.' !in token.jti && '.' !in token.secret
    && !IsSpace(token.jti[0]) && !IsSpace(token.secret[|token.secret| - 1])
  }

  /** A token survives the trip through the client exactly when it is well formed. */
  lemma RoundTrip(token: Token)
    ensures Parse(Format(token)) == Some(token) <==> WellFormed(token)
  {
    var raw := Format(token);
    TrimShape(raw);
    assert raw == token.jti + ['.'] + token.secret;
    if WellFormed(token) {
      assert raw[0] == token.jti[0] && raw[|raw| - 1] == token.secret[|token.secret| - 1];
      SplitCons(token.jti, token.secret, '.');
      SplitCons(token.secret, [], '.');
    } else if Parse(raw) == Some(token) {
      ParseShape(raw);
      assert false;
    }
  }

  /** Every accepted string is, up to outer white space, the printed form of a well-formed token. */
  lemma ParseShape(raw: string)
    ensures Parse(raw).Some? ==> WellFormed(Parse(raw).value) && Format(Parse(raw).value) == Trim(raw)
  {
    var trimmed := Trim(raw);
    TrimShape(raw);
    JoinSplit(trimmed, '.');
    var parts := Split(trimmed, '.');
    if |parts| == 2 {
      assert parts[1..] == [parts[1]];
      assert Join(parts, ".") == parts[0] + "." + parts[1];
      assert trimmed == parts[0] + "." + parts[1];
    }
  }

  /** A string is read as a token exactly if it is that token's printed form with white space around it. */
  lemma ParseIff(raw: string, token: Token)
    ensures Parse(raw) == Some(token) <==> WellFormed(token) && Format(token) == Trim(raw)
  {
    ParseShape(raw);
    if WellFormed(token) && Format(token) == Trim(raw) {
      RoundTrip(token);
      TrimShape(raw);
    }
  }

  /** Identifiers and secrets are drawn from these alphabets: a UUID and base64url. */
  predicate IsUuidChar(c: char) {
    '0' <= c <= '9' || 'a' <= c <= 'f' || c == '-'
  }

  predicate IsBase64UrlChar(c: char) {
    '0' <= c <= '9' || 'a' <= c <= 'z' || 'A' <= c <= 'Z' || c == '-' || c == '_'
  }

  /** Every token the service issues parses back to exactly its parts. */
  lemma IssuedTokensRoundTrip(token: Token)
    requires token.jti != [] && forall c <- token.jti :: IsUuidChar(c)
    requires token.secret != [] && forall c <- token.secret :: IsBase64UrlChar(c)
    ensures Parse(Format(token)) == Some(token)
  {
    assert token.jti[0] in token.jti && token.secret[|token.secret| - 1] in token.secret;
    assert !IsUuidChar('.') && !IsBase64UrlChar('.');
    RoundTrip(token);
  }
}
