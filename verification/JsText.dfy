/** The string operations of the runtime that the components rely on. */
module JsText {
  /** The characters removed by `trim`: white space and line terminators. */
  predicate IsSpace(c: char) {
    || '\t' <= c <= '\r' || c == ' ' || c == '\U{a0}' || c == '\U{feff}' || c == '\U{1680}'
    || '\U{2000}' <= c <= '\U{200a}' || '\U{2028}' <= c <= '\U{2029}'
    || c == '\U{202f}' || c == '\U{205f}' || c == '\U{3000}'
  }

  /** By their codes: the white space and line terminators of sections 12.2 and 12.3 of ECMA-262. */
  lemma SpaceCodes(c: char)
    ensures IsSpace(c) <==>
            var code := c as int;
            || 9 <= code <= 13 || code == 32 || code == 160 || code == 5760 || 8192 <= code <= 8202
            || code == 8232 || code == 8233 || code == 8239 || code == 8287 || code == 12288 || code == 65279
  {
  }

  function TrimStart(s: string): string {
    if s != [] && IsSpace(s[0]) then TrimStart(s[1..]) else s
  }

  function TrimEnd(s: string): string {
    if s != [] && IsSpace(s[|s| - 1]) then TrimEnd(s[..|s| - 1]) else s
  }

  function Trim(s: string): string {
    TrimEnd(TrimStart(s))
  }

  /** Neither end is white space. */
  predicate IsTrimmed(s: string) {
    s == [] || (!IsSpace(s[0]) && !IsSpace(s[|s| - 1]))
  }

  lemma {:induction false} TrimStartShape(s: string)
    ensures TrimStart(s) == [] || !IsSpace(TrimStart(s)[0])
    ensures TrimStart(s) == s <==> s == [] || !IsSpace(s[0])
    ensures |TrimStart(s)| <= |s|
  {
    if s != [] && IsSpace(s[0]) {
      TrimStartShape(s[1..]);
    }
  }

  lemma {:induction false} TrimEndShape(s: string)
    ensures TrimEnd(s) == [] || !IsSpace(TrimEnd(s)[|TrimEnd(s)| - 1])
    ensures TrimEnd(s) == s <==> s == [] || !IsSpace(s[|s| - 1])
    ensures TrimEnd(s) <= s
  {
    if s != [] && IsSpace(s[|s| - 1]) {
      TrimEndShape(s[..|s| - 1]);
    }
  }

  /** `trim` yields a string with no outer white space and leaves exactly such strings alone. */
  lemma TrimShape(s: string)
    ensures IsTrimmed(Trim(s))
    ensures Trim(s) == s <==> IsTrimmed(s)
    ensures Trim(Trim(s)) == Trim(s)
  {
    TrimStartShape(s);
    TrimEndShape(TrimStart(s));
    var t := Trim(s);
    TrimStartShape(t);
    TrimEndShape(t);
    assert IsTrimmed(s) ==> TrimStart(s) == s;
  }

  lemma {:induction false} TrimStartIsSuffix(s: string) returns (k: nat)
    ensures k <= |s| && TrimStart(s) == s[k..] && forall i :: 0 <= i < k ==> IsSpace(s[i])
  {
    if s != [] && IsSpace(s[0]) {
      var n := TrimStartIsSuffix(s[1..]);
      k := n + 1;
    } else {
      k := 0;
    }
  }

  lemma {:induction false} TrimEndIsPrefix(s: string) returns (m: nat)
    ensures m <= |s| && TrimEnd(s) == s[..m] && forall i :: m <= i < |s| ==> IsSpace(s[i])
  {
    if s != [] && IsSpace(s[|s| - 1]) {
      m := TrimEndIsPrefix(s[..|s| - 1]);
    } else {
      m := |s|;
    }
  }

  /** What `trim` takes away is white space at the two ends, and nothing else. */
  lemma TrimIsPart(s: string) returns (k: nat, m: nat)
    ensures k <= m <= |s| && Trim(s) == s[k..m]
    ensures forall i :: 0 <= i < k || m <= i < |s| ==> IsSpace(s[i])
  {
    k := TrimStartIsSuffix(s);
    var rest := s[k..];
    var n := TrimEndIsPrefix(rest);
    m := k + n;
    assert forall i :: m <= i < |s| ==> s[i] == rest[i - k];
  }

  /** Each text trimmed, blank ones left out. */
  function TrimAll(texts: seq<string>): seq<string> {
    if texts == [] then []
    else
      var text := Trim(texts[0]);
      (if text == "" then [] else [text]) + TrimAll(texts[1..])
  }

  lemma {:induction false} TrimAllIsTrimmed(texts: seq<string>)
    ensures forall t :: t in TrimAll(texts) <==> t != "" && exists i :: 0 <= i < |texts| && Trim(texts[i]) == t
  {
    if texts != [] {
      TrimAllIsTrimmed(texts[1..]);
      assert forall i :: 1 <= i < |texts| ==> texts[i] == texts[1..][i - 1];
      forall t | t in TrimAll(texts)
        ensures t != "" && exists i :: 0 <= i < |texts| && Trim(texts[i]) == t
      {
        if t in TrimAll(texts[1..]) {
          var i :| 0 <= i < |texts[1..]| && Trim(texts[1..][i]) == t;
          assert Trim(texts[i + 1]) == t;
        }
      }
    }
  }

  /** `split` on a one-character separator. */
  function Split(s: string, sep: char): (parts: seq<string>)
    ensures |parts| >= 1
  {
    if s == [] then [[]]
    else
      var rest := Split(s[1..], sep);
      if s[0] == sep then [[]] + rest else [[s[0]] + rest[0]] + rest[1..]
  }

  function Join(parts: seq<string>, sep: string): string {
    if parts == [] then []
    else if |parts| == 1 then parts[0]
    else parts[0] + sep + Join(parts[1..], sep)
  }

  /** Splitting off a first part that does not contain the separator. */
  lemma {:induction false} SplitCons(first: string, rest: string, sep: char)
    requires sep !in first
    ensures Split(first, sep) == [first]
    ensures Split(first + [sep] + rest, sep) == [first] + Split(rest, sep)
  {
    var whole := first + [sep] + rest;
    if first == [] {
      assert whole == [sep] + rest;
      assert whole[1..] == rest;
    } else {
      SplitCons(first[1..], rest, sep);
      assert whole[1..] == first[1..] + [sep] + rest;
      assert [first[0]] + first[1..] == first;
    }
  }

  /** Splitting a joined text gives back the parts, whenever no part contains the separator. */
  lemma {:induction false} SplitJoin(parts: seq<string>, sep: char)
    requires parts != []
    requires forall i :: 0 <= i < |parts| ==> sep !in parts[i]
    ensures Split(Join(parts, [sep]), sep) == parts
  {
    if |parts| == 1 {
      SplitCons(parts[0], [], sep);
    } else {
      SplitJoin(parts[1..], sep);
      SplitCons(parts[0], Join(parts[1..], [sep]), sep);
    }
  }

  /** Joining the parts of a split gives back the text, and no part contains the separator. */
  lemma {:induction false} JoinSplit(s: string, sep: char)
    ensures Join(Split(s, sep), [sep]) == s
    ensures forall i :: 0 <= i < |Split(s, sep)| ==> sep !in Split(s, sep)[i]
  {
    if s != [] {
      JoinSplit(s[1..], sep);
      var rest := Split(s[1..], sep);
      var parts := Split(s, sep);
      assert s == [s[0]] + s[1..];
      if s[0] == sep {
        assert parts[1..] == rest;
      } else {
        assert parts[1..] == rest[1..];
      }
    }
  }
}
