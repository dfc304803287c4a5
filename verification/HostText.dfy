/** The .NET string operations the host uses, on sequences of characters. Case is
    folded for ASCII letters only. */
module HostText {

  datatype Option<+T> = None | Some(value: T)

  function FoldChar(c: char): char {
    if 'a' <= c <= 'z' then c - 'a' + 'A' else c
  }

  function Fold(s: string): (f: string)
    ensures |f| == |s|
    ensures forall i | 0 <= i < |s| :: f[i] == FoldChar(s[i])
  {
    seq(|s|, i requires 0 <= i < |s| => FoldChar(s[i]))
  }

  // string.Equals(a, b, StringComparison.OrdinalIgnoreCase)
  predicate SameText(a: string, b: string) {
    Fold(a) == Fold(b)
  }

  predicate MatchesAt(text: string, pattern: string, at: nat) {
    at + |pattern| <= |text| && SameText(text[at..at + |pattern|], pattern)
  }

  // text.LastIndexOf(pattern, StringComparison.OrdinalIgnoreCase), searching from `at` down
  function LastIndexFrom(text: string, pattern: string, at: nat): (index: int)
    ensures index == -1 || (0 <= index <= at && MatchesAt(text, pattern, index))
    ensures forall i: nat | index < i <= at :: !MatchesAt(text, pattern, i)
  {
    if MatchesAt(text, pattern, at) then at
    else if at == 0 then -1
    else LastIndexFrom(text, pattern, at - 1)
  }

  function LastIndexOf(text: string, pattern: string): (index: int)
    ensures index == -1 || (0 <= index && MatchesAt(text, pattern, index))
    ensures forall i: nat | index < i :: !MatchesAt(text, pattern, i)
  {
    LastIndexFrom(text, pattern, |text|)
  }

  // text.IndexOf(c, from)
  function IndexOf(text: string, c: char, from: nat): (index: int)
    requires from <= |text|
    ensures index == -1 || (from <= index < |text| && text[index] == c)
    ensures forall i | from <= i < (if index == -1 then |text| else index) :: text[i] != c
    decreases |text| - from
  {
    if from == |text| then -1
    else if text[from] == c then from
    else IndexOf(text, c, from + 1)
  }

  // text.Contains(part, StringComparison.OrdinalIgnoreCase)
  predicate ContainsText(text: string, part: string) {
    exists at | 0 <= at <= |text| :: MatchesAt(text, part, at)
  }

  // string.IsNullOrWhiteSpace
  predicate IsBlank(s: string) {
    forall i | 0 <= i < |s| :: IsWhiteSpace(s[i])
  }

  predicate IsWhiteSpace(c: char) {
    c == ' ' || '\t' <= c <= '\r' || c == '\U{85}' || c == '\U{A0}' || c == '\U{1680}'
    || '\U{2000}' <= c <= '\U{200A}' || c == '\U{2028}' || c == '\U{2029}'
    || c == '\U{202F}' || c == '\U{205F}' || c == '\U{3000}'
  }

  function TrimStart(s: string): string {
    if s != "" && IsWhiteSpace(s[0]) then TrimStart(s[1..]) else s
  }

  function TrimEnd(s: string): string {
    if s != "" && IsWhiteSpace(s[|s| - 1]) then TrimEnd(s[..|s| - 1]) else s
  }

  function Trim(s: string): string {
    TrimEnd(TrimStart(s))
  }

  // Nothing for Trim to remove.
  predicate Trimmed(s: string) {
    s == "" || (!IsWhiteSpace(s[0]) && !IsWhiteSpace(s[|s| - 1]))
  }

  lemma {:induction false} TrimStartLeaves(s: string)
    ensures TrimStart(s) == "" || !IsWhiteSpace(TrimStart(s)[0])
  {
    if s != "" && IsWhiteSpace(s[0]) { TrimStartLeaves(s[1..]); }
  }

  lemma {:induction false} TrimEndLeaves(s: string)
    requires s == "" || !IsWhiteSpace(s[0])
    ensures Trimmed(TrimEnd(s))
  {
    if s != "" && IsWhiteSpace(s[|s| - 1]) { TrimEndLeaves(s[..|s| - 1]); }
  }

  // Only blanks are taken off at the two ends.
  lemma {:induction false} TrimTakesBlanks(s: string) returns (front: string, back: string)
    ensures s == front + Trim(s) + back && IsBlank(front) && IsBlank(back)
  {
    front := StartTaken(s);
    back := EndTaken(TrimStart(s));
  }

  lemma {:induction false} StartTaken(s: string) returns (front: string)
    ensures s == front + TrimStart(s) && IsBlank(front)
  {
    front := "";
    if s != "" && IsWhiteSpace(s[0]) {
      var rest := StartTaken(s[1..]);
      front := [s[0]] + rest;
      assert s == [s[0]] + s[1..];
    }
  }

  lemma {:induction false} EndTaken(s: string) returns (back: string)
    ensures s == TrimEnd(s) + back && IsBlank(back)
  {
    back := "";
    if s != "" && IsWhiteSpace(s[|s| - 1]) {
      var rest := EndTaken(s[..|s| - 1]);
      back := rest + [s[|s| - 1]];
      assert s == s[..|s| - 1] + [s[|s| - 1]];
    }
  }

  lemma {:induction false} TrimIsTrimmed(s: string)
    ensures Trimmed(Trim(s))
    ensures Trim(s) == s <==> Trimmed(s)
  {
    TrimStartLeaves(s);
    TrimEndLeaves(TrimStart(s));
  }

  // The two trims that a written configuration line meets when it is read back.
  lemma {:induction false} TrimOneSpace(s: string)
    ensures Trim(" " + s) == Trim(s)
    ensures Trimmed(s) ==> Trim(s + " ") == s
  {
    assert (" " + s)[1..] == s;
    var t := s + " ";
    assert t[..|t| - 1] == s;
    if s == "" {
      assert t[1..] == "";
    }
  }

  lemma {:induction false} StartOff(front: string, s: string)
    requires IsBlank(front)
    ensures TrimStart(front + s) == TrimStart(s)
  {
    if front == "" {
      assert front + s == s;
    } else {
      assert (front + s)[1..] == front[1..] + s;
      StartOff(front[1..], s);
    }
  }

  lemma {:induction false} EndOff(s: string, back: string)
    requires IsBlank(back) && (s == "" || !IsWhiteSpace(s[|s| - 1]))
    ensures TrimEnd(s + back) == s
  {
    if back == "" {
      assert s + back == s;
    } else {
      assert (s + back)[..|s + back| - 1] == s + back[..|back| - 1];
      EndOff(s, back[..|back| - 1]);
    }
  }

  lemma {:induction false} TrimAround(front: string, s: string, back: string)
    requires IsBlank(front) && IsBlank(back) && s != "" && Trimmed(s)
    ensures Trim(front + s + back) == s
  {
    StartOff(front, s + back);
    assert front + s + back == front + (s + back);
    assert (s + back)[0] == s[0];
    EndOff(s, back);
  }

  lemma {:induction false} FirstSign(line: string, at: nat)
    requires at < |line| && line[at] == '=' && forall i | 0 <= i < at :: line[i] != '='
    ensures IndexOf(line, '=', 0) == at
  {
  }

  lemma {:induction false} SpaceIsBlank()
    ensures IsBlank(" ")
  {
  }

  lemma {:induction false} BlankHasNoSign(s: string)
    requires IsBlank(s)
    ensures '=' !in s
  {
  }

  // Nothing but blanks is left of blanks only.
  lemma {:induction false} BlankTrim(s: string)
    ensures IsBlank(Trim(s)) ==> IsBlank(s)
  {
    var front, back := TrimTakesBlanks(s);
    if IsBlank(Trim(s)) {
      var t := Trim(s);
      hide Trim, IsWhiteSpace;
      forall i | 0 <= i < |s| ensures IsWhiteSpace(s[i]) {
        if i < |front| { assert s[i] == front[i]; }
        else if i < |front| + |t| { assert s[i] == t[i - |front|]; }
        else { assert s[i] == back[i - |front| - |t|]; }
      }
    }
  }
}
