/** Wildcard origin patterns, compiled to regular expressions. */
module OriginPatterns {
  import opened Common
  import opened JsText

  // ----- the regular expressions the compiler needs -----

  datatype Atom = Literal(c: char) | AnyChar
  datatype Item = Begin | End | One(atom: Atom) | Star(atom: Atom)

  predicate IsLineTerminator(c: char) {
    c == '\n' || c == '\r' || c == '\U{2028}' || c == '\U{2029}'
  }

  /** The dot matches every character but a line terminator. */
  predicate AtomMatches(atom: Atom, c: char) {
    match atom
    case Literal(l) => l == c
    case AnyChar => !IsLineTerminator(c)
  }

  ghost predicate AllMatch(atom: Atom, s: string) {
    forall i :: 0 <= i < |s| ==> AtomMatches(atom, s[i])
  }

  /** The items match `s` from position `at`. */
  ghost predicate MatchesAt(items: seq<Item>, s: string, at: nat)
    requires at <= |s|
    decreases |items|
  {
    items == [] ||
    match items[0]
    case Begin => at == 0 && MatchesAt(items[1..], s, at)
    case End => at == |s| && MatchesAt(items[1..], s, at)
    case One(atom) => at < |s| && AtomMatches(atom, s[at]) && MatchesAt(items[1..], s, at + 1)
    case Star(atom) => exists to :: at <= to <= |s| && AllMatch(atom, s[at..to]) && MatchesAt(items[1..], s, to)
  }

  /** `test`: a match somewhere. */
  ghost predicate Test(items: seq<Item>, s: string) {
    exists at :: 0 <= at <= |s| && MatchesAt(items, s, at)
  }

  predicate IsSpecial(c: char) {
    c in ['.', '+', '?', '^', '$', '{', '}', '(', ')', '|', '[', ']', '\\']
  }

  predicate StartsWithStar(s: string) {
    s != [] && s[0] == '*'
  }

  /** Reads an expression of this fragment; `None` is a syntax error or a construct outside it. */
  function Parse(text: string): Option<seq<Item>>
    decreases |text|, 0
  {
    if text == [] then Some([])
    else if text[0] == '^' then Prepend(Begin, Parse(text[1..]))
    else if text[0] == '$' then Prepend(End, Parse(text[1..]))
    else if text[0] == '\\' then
      if |text| > 1 && (IsSpecial(text[1]) || text[1] == '*') then Repeated(Literal(text[1]), text[2..]) else None
    else if text[0] == '.' then Repeated(AnyChar, text[1..])
    else if IsSpecial(text[0]) || text[0] == '*' then None
    else Repeated(Literal(text[0]), text[1..])
  }

  function Repeated(atom: Atom, rest: string): Option<seq<Item>>
    decreases |rest|, 1
  {
    if StartsWithStar(rest) then Prepend(Star(atom), Parse(rest[1..])) else Prepend(One(atom), Parse(rest))
  }

  function Prepend(item: Item, rest: Option<seq<Item>>): Option<seq<Item>> {
    if rest.None? then None else Some([item] + rest.value)
  }

  // ----- the compiler -----

  /** Trimmed, and without one slash at the end; `None` if nothing but white space is given. */
  function NormalizeOrigin(value: string): Option<string> {
    var trimmed := Trim(value);
    if trimmed == [] then None
    else if trimmed[|trimmed| - 1] == '/' then Some(trimmed[..|trimmed| - 1])
    else Some(trimmed)
  }

  function EscapeSegment(segment: string): string {
    if segment == [] then []
    else (if IsSpecial(segment[0]) then ['\\', segment[0]] else [segment[0]]) + EscapeSegment(segment[1..])
  }

  function EscapeAll(segments: seq<string>): (escaped: seq<string>)
    ensures |escaped| == |segments|
  {
    seq(|segments|, i requires 0 <= i < |segments| => EscapeSegment(segments[i]))
  }

  function RegexText(pattern: string): string {
    "^" + Join(EscapeAll(Split(pattern, '*')), ".*") + "$"
  }

  function WildcardToRegex(value: string): Option<seq<Item>> {
    var normalized := NormalizeOrigin(value);
    if normalized.None? then None else Parse(RegexText(normalized.value))
  }

  // ----- the characters, one by one -----

  /** What is escaped: every sign of the expression language but the star, and nothing else. */
  lemma SpecialSigns(c: char)
    ensures IsSpecial(c) <==>
            || c == '.' || c == '+' || c == '?' || c == '^' || c == '$' || c == '(' || c == ')' || c == '|'
            || c == '{' || c == '}' || c == '[' || c == ']' || c == '\\'
    ensures EscapeSegment([c]) == if IsSpecial(c) then ['\\', c] else [c]
  {
    assert [c][1..] == [] && EscapeSegment([]) == [];
  }

  /** What a dot leaves out, by its code. */
  lemma LineTerminatorCodes(c: char)
    ensures IsLineTerminator(c) <==> c as int == 10 || c as int == 13 || c as int == 8232 || c as int == 8233
  {
  }

  /** A dot matches all but the line terminators, a literal itself. */
  lemma AtomOutcome(l: char, c: char)
    ensures AtomMatches(Literal(l), c) <==> c == l
    ensures AtomMatches(AnyChar, c) <==> c as int != 10 && c as int != 13 && c as int != 8232 && c as int != 8233
  {
  }

  /** What is no expression of the fragment: a quantifier, group or class left as it is, and a backslash before anything else. */
  lemma OutsideFragment(text: string)
    requires text != []
    ensures text[0] in ['+', '?', '(', ')', '{', '}', '|', '[', ']', '*'] ==> Parse(text) == None
    ensures text[0] == '\\' && (|text| == 1 || !(IsSpecial(text[1]) || text[1] == '*')) ==> Parse(text) == None
  {
  }

  /** An origin is trimmed and loses one slash at its end; a blank one is none. */
  lemma NormalizeOutcome(value: string)
    ensures var trimmed := Trim(value);
            match NormalizeOrigin(value)
            case None => trimmed == ""
            case Some(origin) => trimmed == origin + "/" || (trimmed == origin && origin != "" && origin[|origin| - 1] != '/')
  {
  }

  // ----- what a pattern means -----

  /** The segments with a filler between each two of them. */
  function Fill(segments: seq<string>, fillers: seq<string>): string
    requires |segments| == |fillers| + 1
  {
    if fillers == [] then segments[0] else segments[0] + fillers[0] + Fill(segments[1..], fillers[1..])
  }

  ghost predicate OnOneLine(s: string) {
    AllMatch(AnyChar, s)
  }

  ghost predicate Fills(segments: seq<string>, fillers: seq<string>, s: string) {
    && |segments| == |fillers| + 1
    && (forall i :: 0 <= i < |fillers| ==> OnOneLine(fillers[i]))
    && Fill(segments, fillers) == s
  }

  /** `s` is the pattern with each star replaced by some string without a line break. */
  ghost predicate Instance(pattern: string, s: string) {
    exists fillers :: Fills(Split(pattern, '*'), fillers, s)
  }

  // ----- the compiled text parses -----

  function Literals(segment: string): seq<Item> {
    if segment == [] then [] else [One(Literal(segment[0]))] + Literals(segment[1..])
  }

  function ItemsOf(segments: seq<string>): seq<Item>
    requires segments != []
  {
    Literals(segments[0]) + if |segments| == 1 then [End] else [Star(AnyChar)] + ItemsOf(segments[1..])
  }

  lemma ParseOneLiteral(c: char, tail: string)
    requires c != '*' && !StartsWithStar(tail)
    ensures var text := EscapeSegment([c]) + tail;
            Parse(text) == Prepend(One(Literal(c)), Parse(tail)) && !StartsWithStar(text)
  {
    var text := EscapeSegment([c]) + tail;
    assert EscapeSegment([c]) == if IsSpecial(c) then ['\\', c] else [c];
    if IsSpecial(c) {
      assert text == ['\\', c] + tail && text[2..] == tail;
    } else {
      assert text == [c] + tail && text[1..] == tail;
    }
  }

  lemma {:induction false} ParseEscaped(segment: string, rest: string)
    requires '*' !in segment && !StartsWithStar(rest)
    ensures Parse(EscapeSegment(segment) + rest)
            == if Parse(rest).None? then None else Some(Literals(segment) + Parse(rest).value)
    ensures !StartsWithStar(EscapeSegment(segment) + rest)
  {
    var text := EscapeSegment(segment) + rest;
    if segment == [] {
      assert text == rest;
      assert Parse(rest).Some? ==> Literals(segment) + Parse(rest).value == Parse(rest).value;
    } else {
      var tail := EscapeSegment(segment[1..]) + rest;
      ParseEscaped(segment[1..], rest);
      ParseOneLiteral(segment[0], tail);
      assert text == EscapeSegment([segment[0]]) + tail by {
        assert EscapeSegment([segment[0]]) + EscapeSegment(segment[1..]) == EscapeSegment(segment);
      }
      if Parse(rest).Some? {
        var items := Parse(rest).value;
        assert Literals(segment) + items == [One(Literal(segment[0]))] + (Literals(segment[1..]) + items);
      }
    }
  }

  /** Whatever the pattern, the text produced is a valid expression: its segments as literals, a dot-star for each star. */
  lemma {:induction false} ParseJoined(segments: seq<string>)
    requires segments != [] && forall i :: 0 <= i < |segments| ==> '*' !in segments[i]
    ensures Parse(Join(EscapeAll(segments), ".*") + "$") == Some(ItemsOf(segments))
  {
    var escaped := EscapeAll(segments);
    if |segments| == 1 {
      assert "$"[1..] == [] && Parse([]) == Some([]);
      assert [End] + [] == [End];
      ParseEscaped(segments[0], "$");
    } else {
      ParseJoined(segments[1..]);
      var tail := Join(EscapeAll(segments[1..]), ".*") + "$";
      assert EscapeAll(segments[1..]) == escaped[1..];
      var rest := ".*" + tail;
      assert rest[1..][1..] == tail && StartsWithStar(rest[1..]);
      assert Parse(rest) == Some([Star(AnyChar)] + ItemsOf(segments[1..]));
      ParseEscaped(segments[0], rest);
      assert Join(escaped, ".*") + "$" == escaped[0] + rest;
    }
  }

  // ----- the compiled expression means the pattern -----

  lemma {:induction false} LiteralsMatch(segment: string, items: seq<Item>, s: string, at: nat)
    requires at <= |s|
    ensures MatchesAt(Literals(segment) + items, s, at)
            <==> at + |segment| <= |s| && s[at..at + |segment|] == segment && MatchesAt(items, s, at + |segment|)
  {
    var all := Literals(segment) + items;
    if segment == [] {
      assert all == items;
    } else {
      assert all[1..] == Literals(segment[1..]) + items;
      assert all[0] == One(Literal(segment[0]));
      if at < |s| {
        LiteralsMatch(segment[1..], items, s, at + 1);
        if at + |segment| <= |s| {
          assert s[at..at + |segment|] == [s[at]] + s[at + 1..at + |segment|];
          assert segment == [segment[0]] + segment[1..];
        }
      }
    }
  }

  lemma {:induction false} MatchGivesFillers(segments: seq<string>, s: string, at: nat) returns (fillers: seq<string>)
    requires segments != [] && at <= |s| && MatchesAt(ItemsOf(segments), s, at)
    ensures Fills(segments, fillers, s[at..])
  {
    var here := at + |segments[0]|;
    if |segments| == 1 {
      LiteralsMatch(segments[0], [End], s, at);
      fillers := [];
      assert s[at..here] == s[at..];
    } else {
      var items := [Star(AnyChar)] + ItemsOf(segments[1..]);
      LiteralsMatch(segments[0], items, s, at);
      assert items[1..] == ItemsOf(segments[1..]);
      var to :| here <= to <= |s| && AllMatch(AnyChar, s[here..to]) && MatchesAt(items[1..], s, to);
      var rest := MatchGivesFillers(segments[1..], s, to);
      fillers := [s[here..to]] + rest;
      assert fillers[1..] == rest;
      assert s[at..] == s[at..here] + s[here..to] + s[to..];
    }
  }

  lemma {:induction false} FillersGiveMatch(segments: seq<string>, fillers: seq<string>, s: string, at: nat)
    requires segments != [] && at <= |s| && Fills(segments, fillers, s[at..])
    ensures MatchesAt(ItemsOf(segments), s, at)
  {
    var here := at + |segments[0]|;
    var tail := s[at..];
    assert segments[0] <= tail;
    assert s[at..here] == tail[..|segments[0]|] == segments[0];
    if |segments| == 1 {
      assert MatchesAt([End], s, here) by {
        assert here == |s| && [End][1..] == [];
      }
      LiteralsMatch(segments[0], [End], s, at);
    } else {
      var items := [Star(AnyChar)] + ItemsOf(segments[1..]);
      var to := here + |fillers[0]|;
      assert tail == segments[0] + fillers[0] + Fill(segments[1..], fillers[1..]);
      assert s[here..to] == tail[|segments[0]|..|segments[0]| + |fillers[0]|] == fillers[0];
      assert s[to..] == tail[|segments[0]| + |fillers[0]|..] == Fill(segments[1..], fillers[1..]);
      FillersGiveMatch(segments[1..], fillers[1..], s, to);
      assert items[1..] == ItemsOf(segments[1..]);
      assert MatchesAt(items, s, here);
      LiteralsMatch(segments[0], items, s, at);
    }
  }

  /** Compilation always succeeds, and the expression accepts a string exactly if it is an instance of the pattern. */
  lemma CompilationKeepsMeaning(pattern: string, s: string)
    ensures Parse(RegexText(pattern)).Some?
    ensures Test(Parse(RegexText(pattern)).value, s) <==> Instance(pattern, s)
  {
    var segments := Split(pattern, '*');
    JoinSplit(pattern, '*');
    ParseJoined(segments);
    var text := RegexText(pattern);
    assert text[1..] == Join(EscapeAll(segments), ".*") + "$";
    var items := [Begin] + ItemsOf(segments);
    assert Parse(text) == Some(items) && items[1..] == ItemsOf(segments);
    assert s[0..] == s;
    if Test(items, s) {
      var at :| 0 <= at <= |s| && MatchesAt(items, s, at);
      var fillers := MatchGivesFillers(segments, s, 0);
      assert Fills(segments, fillers, s);
    }
    if Instance(pattern, s) {
      var fillers :| Fills(segments, fillers, s);
      FillersGiveMatch(segments, fillers, s, 0);
      assert MatchesAt(items, s, 0);
    }
  }

  /** An origin without a line break may have any strings in the places of the stars. */
  lemma OneLineInstance(pattern: string, s: string)
    requires OnOneLine(s)
    ensures Instance(pattern, s) <==>
            exists fillers: seq<string> :: |Split(pattern, '*')| == |fillers| + 1 && Fill(Split(pattern, '*'), fillers) == s
  {
    var segments := Split(pattern, '*');
    if fillers: seq<string> :| |segments| == |fillers| + 1 && Fill(segments, fillers) == s {
      FillersStayOnLine(segments, fillers, s);
      assert Fills(segments, fillers, s);
    } else {
      forall fillers: seq<string> ensures !Fills(segments, fillers, s) {
        assert !(|segments| == |fillers| + 1 && Fill(segments, fillers) == s);
      }
    }
  }

  lemma {:induction false} FillersStayOnLine(segments: seq<string>, fillers: seq<string>, s: string)
    requires |segments| == |fillers| + 1 && Fill(segments, fillers) == s && OnOneLine(s)
    ensures forall i :: 0 <= i < |fillers| ==> OnOneLine(fillers[i])
  {
    if fillers != [] {
      var rest := Fill(segments[1..], fillers[1..]);
      var n := |segments[0]|;
      assert s[n..n + |fillers[0]|] == fillers[0];
      assert s[n + |fillers[0]|..] == rest;
      assert forall i :: 0 <= i < |fillers[0]| ==> fillers[0][i] == s[n + i];
      assert forall i :: 0 <= i < |rest| ==> rest[i] == s[n + |fillers[0]| + i];
      FillersStayOnLine(segments[1..], fillers[1..], rest);
      assert forall i :: 1 <= i < |fillers| ==> fillers[i] == fillers[1..][i - 1];
    }
  }

  // ----- the decision -----

  /** `parseOriginPatterns`: the patterns of a comma-separated list, compiled. */
  function ParseOriginPatterns(raw: string): seq<seq<Item>> {
    CompileAll(TrimAll(Split(raw, ',')))
  }

  function CompileAll(values: seq<string>): seq<seq<Item>> {
    if values == [] then []
    else
      var first := WildcardToRegex(values[0]);
      (if first.None? then [] else [first.value]) + CompileAll(values[1..])
  }

  ghost predicate IsOriginAllowed(origin: string, exact: seq<string>, patterns: seq<seq<Item>>) {
    var normalized := NormalizeOrigin(origin);
    && normalized.Some?
    && (|| (exact == [] && patterns == [])
        || normalized.value in exact
        || TestsSome(patterns, normalized.value))
  }

  ghost predicate TestsSome(patterns: seq<seq<Item>>, s: string) {
    exists i :: 0 <= i < |patterns| && Test(patterns[i], s)
  }

  /** Some listed pattern, taken by itself, has the origin as an instance. */
  ghost predicate MatchesSome(values: seq<string>, origin: string) {
    exists i :: 0 <= i < |values| && MatchesValue(values[i], origin)
  }

  ghost predicate MatchesValue(value: string, origin: string) {
    NormalizeOrigin(value).Some? && Instance(NormalizeOrigin(value).value, origin)
  }

  lemma FirstOrRest(values: seq<string>, patterns: seq<seq<Item>>, s: string)
    ensures values != [] ==> (MatchesSome(values, s) <==> MatchesValue(values[0], s) || MatchesSome(values[1..], s))
    ensures patterns != [] ==> (TestsSome(patterns, s) <==> Test(patterns[0], s) || TestsSome(patterns[1..], s))
  {
    assert forall i :: 1 <= i < |values| ==> values[i] == values[1..][i - 1];
    assert forall i :: 1 <= i < |patterns| ==> patterns[i] == patterns[1..][i - 1];
  }

  /** No listed pattern is dropped, and the compiled list accepts exactly the instances of the patterns. */
  lemma {:induction false} CompiledListMeaning(values: seq<string>, origin: string)
    requires forall i :: 0 <= i < |values| ==> values[i] != "" && Trim(values[i]) == values[i]
    ensures |CompileAll(values)| == |values|
    ensures TestsSome(CompileAll(values), origin) <==> MatchesSome(values, origin)
  {
    if values != [] {
      CompiledListMeaning(values[1..], origin);
      CompilationKeepsMeaning(NormalizeOrigin(values[0]).value, origin);
      assert CompileAll(values)[1..] == CompileAll(values[1..]);
      FirstOrRest(values, CompileAll(values), origin);
    }
  }

  /**
   * An origin is let through exactly if it is not blank and is listed, or is an instance of a listed pattern, or
   * nothing at all is listed.
   */
  lemma AllowedIff(origin: string, exact: seq<string>, raw: string)
    ensures var values := TrimAll(Split(raw, ','));
            IsOriginAllowed(origin, exact, ParseOriginPatterns(raw)) <==>
              && NormalizeOrigin(origin).Some?
              && (|| (exact == [] && values == [])
                  || NormalizeOrigin(origin).value in exact
                  || MatchesSome(values, NormalizeOrigin(origin).value))
  {
    var values := TrimAll(Split(raw, ','));
    TrimAllIsTrimmed(Split(raw, ','));
    forall i | 0 <= i < |values| ensures values[i] != "" && Trim(values[i]) == values[i] {
      assert values[i] in values;
      var k :| 0 <= k < |Split(raw, ',')| && Trim(Split(raw, ',')[k]) == values[i];
      TrimShape(Split(raw, ',')[k]);
    }
    CompiledListMeaning(values, NormalizeOrigin(origin).GetOr(""));
  }
}
