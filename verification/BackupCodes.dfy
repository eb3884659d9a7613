/** Recovery codes: how they are printed, and how a submitted code is read back. */
module BackupCodes {
  import opened JsText

  const ALPHABET := "23456789ABCDEFGHJKMNPQRSTVWXYZ"
  const CODE_LENGTH := 12
  const GROUP_SIZE := 4
  const CODE_COUNT := 10

  predicate IsAlphanumeric(c: char) {
    '0' <= c <= '9' || 'a' <= c <= 'z' || 'A' <= c <= 'Z'
  }

  function UpperCase(c: char): char {
    if 'a' <= c <= 'z' then (c as int - 32) as char else c
  }

  /** `normalizeBackupCode`: letters and digits only, in upper case. */
  function Normalize(code: string): string {
    if code == [] then [] else Kept(code[0]) + Normalize(code[1..])
  }

  function Kept(c: char): string {
    if IsAlphanumeric(c) then [UpperCase(c)] else []
  }

  predicate LooksLikeBackupCode(code: string) {
    |Normalize(code)| == CODE_LENGTH
  }

  /** `normalizeCode` of the authenticator path: digits only. */
  function DigitsOf(code: string): string {
    if code == [] then []
    else (if '0' <= code[0] <= '9' then [code[0]] else []) + DigitsOf(code[1..])
  }

  lemma {:induction false} NormalizeConcat(a: string, b: string)
    ensures Normalize(a + b) == Normalize(a) + Normalize(b)
  {
    if a == [] {
      assert a + b == b;
    } else {
      assert (a + b)[1..] == a[1..] + b;
      NormalizeConcat(a[1..], b);
      assert Kept(a[0]) + (Normalize(a[1..]) + Normalize(b)) == Normalize(a) + Normalize(b);
    }
  }

  lemma {:induction false} NormalizeKeepsAlphabet(s: string)
    requires forall i :: 0 <= i < |s| ==> s[i] in ALPHABET
    ensures Normalize(s) == s
  {
    if s != [] {
      assert forall c :: c in ALPHABET ==> IsAlphanumeric(c) && UpperCase(c) == c;
      NormalizeKeepsAlphabet(s[1..]);
    }
  }

  lemma {:induction false} DigitsConcat(a: string, b: string)
    ensures DigitsOf(a + b) == DigitsOf(a) + DigitsOf(b)
  {
    if a == [] {
      assert a + b == b;
    } else {
      assert (a + b)[1..] == a[1..] + b;
      DigitsConcat(a[1..], b);
    }
  }

  /** What either reader makes of one character, by its code; NormalizeConcat and DigitsConcat say the rest. */
  lemma OneCharacter(c: char)
    ensures var code := c as int;
            && Normalize([c]) == (if 48 <= code <= 57 || 65 <= code <= 90 then [c]
                                  else if 97 <= code <= 122 then [(code - 32) as char] else [])
            && DigitsOf([c]) == if 48 <= code <= 57 then [c] else []
    ensures Normalize([]) == [] && DigitsOf([]) == []
  {
    assert [c][1..] == [];
  }

  lemma KeptDigits(c: char)
    ensures DigitsOf(Kept(c)) == if '0' <= c <= '9' then [c] else []
    ensures Normalize(Kept(c)) == Kept(c)
  {
    if Kept(c) != [] {
      assert Kept(c)[1..] == [];
      assert DigitsOf([]) == [] && Normalize([]) == [];
    }
  }

  /** The reader is blind to display grouping and to letter case, and no digit gets lost or changed in it. */
  lemma {:induction false} NormalizeIsIdempotent(code: string)
    ensures Normalize(Normalize(code)) == Normalize(code)
    ensures DigitsOf(Normalize(code)) == DigitsOf(code)
  {
    if code != [] {
      NormalizeIsIdempotent(code[1..]);
      NormalizeConcat(Kept(code[0]), Normalize(code[1..]));
      DigitsConcat(Kept(code[0]), Normalize(code[1..]));
      KeptDigits(code[0]);
    }
  }

  lemma {:induction false} JoinSnoc(groups: seq<string>, group: string, sep: string)
    requires groups != []
    ensures Join(groups + [group], sep) == Join(groups, sep) + sep + group
  {
    if |groups| == 1 {
      assert groups + [group] == [groups[0], group];
    } else {
      assert (groups + [group])[1..] == groups[1..] + [group];
      JoinSnoc(groups[1..], group, sep);
    }
  }

  lemma NormalizeDash()
    ensures Normalize("-") == []
  {
    assert "-"[1..] == [];
    assert Normalize([]) == [] && Kept('-') == [];
  }

  /** Adding one more dash-separated group adds exactly its characters to what is read back. */
  lemma AppendGroup(groups: seq<string>, group: string)
    requires forall i :: 0 <= i < |group| ==> group[i] in ALPHABET
    ensures Normalize(Join(groups + [group], "-")) == Normalize(Join(groups, "-")) + group
    ensures |Join(groups + [group], "-")| == |Join(groups, "-")| + |group| + (if groups == [] then 0 else 1)
  {
    NormalizeKeepsAlphabet(group);
    if groups == [] {
      assert groups + [group] == [group];
    } else {
      var printed := Join(groups, "-");
      JoinSnoc(groups, group, "-");
      assert Join(groups + [group], "-") == printed + "-" + group;
      NormalizeConcat(printed + "-", group);
      NormalizeConcat(printed, "-");
      NormalizeDash();
      assert Normalize(printed) + [] == Normalize(printed);
    }
  }

  predicate ValidDraws(draws: seq<nat>) {
    forall i :: 0 <= i < |draws| ==> draws[i] < |ALPHABET|
  }

  function Characters(draws: seq<nat>): (characters: string)
    requires ValidDraws(draws)
    ensures |characters| == |draws| && forall i :: 0 <= i < |draws| ==> characters[i] == ALPHABET[draws[i]]
  {
    seq(|draws|, i requires 0 <= i < |draws| => ALPHABET[draws[i]])
  }

  /** Three groups of four characters. */
  ghost function Grouped(characters: string): string
    requires |characters| == 12
  {
    characters[..4] + "-" + characters[4..8] + "-" + characters[8..]
  }

  lemma JoinOfThree(groups: seq<string>)
    requires |groups| == 3
    ensures Join(groups, "-") == groups[0] + "-" + groups[1] + "-" + groups[2]
  {
    assert groups[1..] == [groups[1], groups[2]] && groups[1..][1..] == [groups[2]];
    assert Join([groups[2]], "-") == groups[2];
    assert Join(groups[1..], "-") == groups[1] + "-" + groups[2];
  }

  /**
   * `createCode`: the drawn characters, cut into groups by an index loop and joined with dashes.
   * The draws stand for the random source.
   */
  method CreateCode(draws: seq<nat>) returns (code: string)
    requires |draws| == 12 && forall i :: 0 <= i < |draws| ==> draws[i] < 30
    ensures |Normalize(code)| == 12 && code == Grouped(Normalize(code))
    ensures forall i :: 0 <= i < 12 ==> Normalize(code)[i] == "23456789ABCDEFGHJKMNPQRSTVWXYZ"[draws[i]]
    ensures LooksLikeBackupCode(code)
  {
    var characters := Characters(draws);
    var groups: seq<string> := [];
    var index := 0;
    while index < |characters|
      invariant 0 <= index <= |characters| && index == GROUP_SIZE * |groups|
      invariant forall k :: 0 <= k < |groups| ==> groups[k] == characters[GROUP_SIZE * k..GROUP_SIZE * (k + 1)]
      invariant Normalize(Join(groups, "-")) == characters[..index]
    {
      var group := characters[index..index + GROUP_SIZE];
      AppendGroup(groups, group);
      assert characters[..index] + group == characters[..index + GROUP_SIZE];
      groups := groups + [group];
      index := index + GROUP_SIZE;
    }
    code := Join(groups, "-");
    assert characters[..index] == characters;
    JoinOfThree(groups);
  }
}
