/** HTML escaping by four replacements over the whole text. */
module HtmlEscape {
  /** `replace(/c/g, by)`. */
  function ReplaceAll(s: string, c: char, with: string): string {
    if s == [] then [] else (if s[0] == c then with else [s[0]]) + ReplaceAll(s[1..], c, with)
  }

  function EscapeHtml(s: string): string {
    ReplaceAll(ReplaceAll(ReplaceAll(ReplaceAll(s, '&', "&amp;"), '<', "&lt;"), '>', "&gt;"), '"', "&quot;")
  }

  /** The character-by-character substitution. */
  function Entity(c: char): string {
    if c == '&' then "&amp;"
    else if c == '<' then "&lt;"
    else if c == '>' then "&gt;"
    else if c == '"' then "&quot;"
    else [c]
  }

  function Substitute(s: string): string {
    if s == [] then [] else Entity(s[0]) + Substitute(s[1..])
  }

  lemma {:induction false} ReplaceAllConcat(a: string, b: string, c: char, with: string)
    ensures ReplaceAll(a + b, c, with) == ReplaceAll(a, c, with) + ReplaceAll(b, c, with)
  {
    if a == [] {
      assert a + b == b;
    } else {
      ReplaceAllConcat(a[1..], b, c, with);
      assert (a + b)[1..] == a[1..] + b;
    }
  }

  lemma {:induction false} ReplaceAbsent(s: string, c: char, with: string)
    requires c !in s
    ensures ReplaceAll(s, c, with) == s
  {
    if s != [] {
      ReplaceAbsent(s[1..], c, with);
    }
  }

  lemma EscapeConcat(a: string, b: string)
    ensures EscapeHtml(a + b) == EscapeHtml(a) + EscapeHtml(b)
  {
    var a1, b1 := ReplaceAll(a, '&', "&amp;"), ReplaceAll(b, '&', "&amp;");
    var a2, b2 := ReplaceAll(a1, '<', "&lt;"), ReplaceAll(b1, '<', "&lt;");
    var a3, b3 := ReplaceAll(a2, '>', "&gt;"), ReplaceAll(b2, '>', "&gt;");
    ReplaceAllConcat(a, b, '&', "&amp;");
    ReplaceAllConcat(a1, b1, '<', "&lt;");
    ReplaceAllConcat(a2, b2, '>', "&gt;");
    ReplaceAllConcat(a3, b3, '"', "&quot;");
  }

  lemma ReplaceOne(c: char, target: char, with: string)
    ensures ReplaceAll([c], target, with) == if c == target then with else [c]
  {
    assert [c][1..] == [];
    assert ReplaceAll([], target, with) == [];
  }

  /** A later pass leaves alone what holds none of its characters. */
  lemma EntityStays(e: string)
    requires '>' !in e && '"' !in e
    ensures ReplaceAll(e, '"', "&quot;") == e
    ensures ReplaceAll(ReplaceAll(e, '>', "&gt;"), '"', "&quot;") == e
    ensures '<' !in e ==> ReplaceAll(ReplaceAll(ReplaceAll(e, '<', "&lt;"), '>', "&gt;"), '"', "&quot;") == e
  {
    ReplaceAbsent(e, '>', "&gt;");
    ReplaceAbsent(e, '"', "&quot;");
    if '<' !in e {
      ReplaceAbsent(e, '<', "&lt;");
    }
  }

  lemma EscapeOne(c: char)
    ensures EscapeHtml([c]) == Entity(c)
  {
    ReplaceOne(c, '&', "&amp;");
    ReplaceOne(c, '<', "&lt;");
    ReplaceOne(c, '>', "&gt;");
    ReplaceOne(c, '"', "&quot;");
    EntityShape(c);
    var e := Entity(c);
    EntityStays(e);
    if c == '<' || c == '>' || c == '"' {
      assert ReplaceAll([c], '&', "&amp;") == [c];
    }
  }

  /** The four passes never touch what an earlier pass produced: they are one substitution. */
  lemma {:induction false} FourPassesAreOne(s: string)
    ensures EscapeHtml(s) == Substitute(s)
  {
    if s != [] {
      FourPassesAreOne(s[1..]);
      EscapeConcat([s[0]], s[1..]);
      EscapeOne(s[0]);
      assert s == [s[0]] + s[1..];
    }
  }

  // ----- what the result looks like -----

  ghost predicate StartsEntity(s: string) {
    "&amp;" <= s || "&lt;" <= s || "&gt;" <= s || "&quot;" <= s
  }

  /** No angle bracket or double quote is left, and every ampersand starts one of the four entities. */
  ghost predicate IsSafe(s: string) {
    && '<' !in s && '>' !in s && '"' !in s
    && forall i :: 0 <= i < |s| && s[i] == '&' ==> StartsEntity(s[i..])
  }

  lemma {:induction false} SubstitutedIsSafe(s: string)
    ensures IsSafe(Substitute(s))
  {
    if s != [] {
      SubstitutedIsSafe(s[1..]);
      var e, rest := Entity(s[0]), Substitute(s[1..]);
      EntityShape(s[0]);
      forall i | 0 <= i < |e + rest| && (e + rest)[i] == '&' ensures StartsEntity((e + rest)[i..]) {
        if i == 0 {
          assert (e + rest)[0..] == e + rest;
          assert e <= e + rest;
        } else {
          assert (e + rest)[i..] == rest[i - |e|..];
        }
      }
    }
  }

  lemma EntityShape(c: char)
    ensures var e := Entity(c);
            && |e| >= 1 && '<' !in e && '>' !in e && '"' !in e
            && (forall i :: 1 <= i < |e| ==> e[i] != '&')
            && (e[0] == '&' ==> e in ["&amp;", "&lt;", "&gt;", "&quot;"])
  {
  }

  lemma EscapedIsSafe(s: string)
    ensures IsSafe(EscapeHtml(s))
  {
    FourPassesAreOne(s);
    SubstitutedIsSafe(s);
  }

  // ----- nothing is lost -----

  function DecodeHtml(s: string): string
    decreases |s|
  {
    if s == [] then []
    else if "&amp;" <= s then ['&'] + DecodeHtml(s[5..])
    else if "&lt;" <= s then ['<'] + DecodeHtml(s[4..])
    else if "&gt;" <= s then ['>'] + DecodeHtml(s[4..])
    else if "&quot;" <= s then ['"'] + DecodeHtml(s[6..])
    else [s[0]] + DecodeHtml(s[1..])
  }

  lemma DecodeOne(c: char, rest: string)
    ensures DecodeHtml(Entity(c) + rest) == [c] + DecodeHtml(rest)
  {
    var e := Entity(c);
    var s := e + rest;
    assert s[|e|..] == rest;
    assert s[0] == e[0];
    if c == '<' || c == '>' || c == '"' {
      assert s[1] == e[1];
    }
  }

  /** A reader of the four entities gets every text back. */
  lemma {:induction false} EscapeRoundTrip(s: string)
    ensures DecodeHtml(EscapeHtml(s)) == s
  {
    FourPassesAreOne(s);
    if s != [] {
      EscapeRoundTrip(s[1..]);
      FourPassesAreOne(s[1..]);
      DecodeOne(s[0], Substitute(s[1..]));
    }
  }

  ghost predicate IsPlain(s: string) {
    '&' !in s && '<' !in s && '>' !in s && '"' !in s
  }

  /** Escaping changes nothing exactly on texts without the four characters; in particular it must not be applied twice. */
  lemma {:induction false} UnchangedIffPlain(s: string)
    ensures |EscapeHtml(s)| >= |s|
    ensures EscapeHtml(s) == s <==> IsPlain(s)
    ensures EscapeHtml(EscapeHtml(s)) == EscapeHtml(s) <==> IsPlain(s)
  {
    FourPassesAreOne(s);
    FourPassesAreOne(EscapeHtml(s));
    SubstituteGrows(s);
    SubstituteGrows(EscapeHtml(s));
    AmpersandStays(s);
  }

  lemma {:induction false} SubstituteGrows(s: string)
    ensures |Substitute(s)| >= |s|
    ensures |Substitute(s)| == |s| <==> IsPlain(s)
    ensures IsPlain(s) ==> Substitute(s) == s
  {
    if s != [] {
      SubstituteGrows(s[1..]);
    }
  }

  lemma {:induction false} AmpersandStays(s: string)
    ensures IsPlain(Substitute(s)) <==> IsPlain(s)
  {
    if s != [] {
      AmpersandStays(s[1..]);
      assert !IsPlain([s[0]]) ==> Substitute(s)[0] == '&';
    }
  }
}
