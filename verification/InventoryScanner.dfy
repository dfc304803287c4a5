/** How the newest display inventory is cut out of a Sunshine log: find the last
    marker, the first '[' after it and the ']' that closes it. A three-variable
    automaton decides where the array ends; the lemmas below say that it agrees with
    the recursive grammar of JsonText on every array and on every unfinished array. */
module InventoryScanner {
  import opened HostText
  import opened JsonText

  datatype Scan = Scan(depth: int, inString: bool, escaped: bool)

  datatype Outcome = Scanning(scan: Scan) | Closed(at: nat) {
    function Shift(n: nat): Outcome {
      match this
      case Scanning(_) => this
      case Closed(at) => Closed(at + n)
    }
  }

  const START := Scan(0, false, false)

  function Step(s: Scan, c: char): Outcome {
    if s.inString then
      if s.escaped then Scanning(s.(escaped := false))
      else if c == '\\' then Scanning(s.(escaped := true))
      else if c == '"' then Scanning(s.(inString := false))
      else Scanning(s)
    else if c == '"' then Scanning(s.(inString := true))
    else if c == '[' then Scanning(s.(depth := s.depth + 1))
    else if c == ']' then
      if s.depth - 1 == 0 then Closed(0) else Scanning(s.(depth := s.depth - 1))
    else Scanning(s)
  }

  function Run(text: string, s: Scan): Outcome {
    if text == "" then Scanning(s)
    else
      match Step(s, text[0])
      case Closed(_) => Closed(0)
      case Scanning(next) => Run(text[1..], next).Shift(1)
  }

  // What the search returns, as a function of the text from its starting point.
  function ArrayEnd(text: string, start: nat): int {
    if start > |text| then -1
    else
      match Run(text[start..], START)
      case Scanning(_) => -1
      case Closed(at) => start + at
  }

  method FindJsonArrayEnd(text: string, start: nat) returns (end: int)
    ensures end == ArrayEnd(text, start)
    ensures end != -1 ==> start <= end < |text| && text[end] == ']'
  {
    var depth := 0;
    var inString := false;
    var escaped := false;
    var index := start;
    while index < |text|
      invariant start <= |text| ==> start <= index <= |text|
      invariant start > |text| ==> index == start
      invariant start <= |text| ==>
        Run(text[start..], START) == Run(text[index..], Scan(depth, inString, escaped)).Shift(index - start)
    {
      var character := text[index];
      assert text[index..][0] == character && text[index..][1..] == text[index + 1..];
      if inString {
        if escaped {
          escaped := false;
        } else if character == '\\' {
          escaped := true;
        } else if character == '"' {
          inString := false;
        }
      } else if character == '"' {
        inString := true;
      } else if character == '[' {
        depth := depth + 1;
      } else if character == ']' {
        depth := depth - 1;
        if depth == 0 { return index; }
      }
      index := index + 1;
    }
    return -1;
  }

  // ----- runs over concatenated text -----

  lemma {:induction false} RunConcat(a: string, b: string, s: Scan)
    ensures Run(a + b, s) ==
            match Run(a, s)
            case Closed(at) => Closed(at)
            case Scanning(next) => Run(b, next).Shift(|a|)
  {
    if a == "" {
      assert a + b == b;
    } else {
      assert (a + b)[0] == a[0] && (a + b)[1..] == a[1..] + b;
      match Step(s, a[0])
      case Closed(_) =>
      case Scanning(next) => RunConcat(a[1..], b, next);
    }
  }

  // a leaves the automaton where it was.
  ghost predicate Neutral(a: string, s: Scan) {
    Run(a, s) == Scanning(s)
  }

  lemma {:induction false} NeutralConcat(a: string, b: string, s: Scan)
    requires Neutral(a, s) && Neutral(b, s)
    ensures Neutral(a + b, s)
  {
    RunConcat(a, b, s);
  }

  predicate Calm(text: string) {
    forall i | 0 <= i < |text| :: text[i] != '"' && text[i] != '[' && text[i] != ']'
  }

  lemma {:induction false} CalmIsNeutral(text: string, s: Scan)
    requires Calm(text) && !s.inString
    ensures Neutral(text, s)
  {
    if text != "" {
      assert text[0] != ']';
      CalmIsNeutral(text[1..], s);
    }
  }

  lemma {:induction false} DigitsAreCalm(s: string)
    requires AllDigits(s)
    ensures Calm(s)
  {
    assert forall i | 0 <= i < |s| :: IsDigit(s[i]);
  }

  lemma {:induction false} NumberIsCalm(n: Number)
    requires LegalNumber(n)
    ensures Calm(PrintNumber(n))
  {
    DigitsAreCalm(n.whole);
    DigitsAreCalm(n.fraction);
    hide AllDigits;
    var sign := if n.minus then "-" else "";
    var fraction := if n.fraction == "" then "" else "." + n.fraction;
    assert Calm(sign + n.whole + fraction);
    match n.exponent
    case NoExponent =>
      assert PrintNumber(n) == sign + n.whole + fraction;
    case Exponent(mark, plus, digits) =>
      DigitsAreCalm(digits);
      assert Calm([mark] + plus + digits);
      assert PrintNumber(n) == (sign + n.whole + fraction) + ([mark] + plus + digits);
  }

  lemma {:induction false} PieceIsNeutral(p: Piece, s: Scan)
    requires LegalPiece(p) && s.inString && !s.escaped
    ensures Neutral(PrintPiece(p), s)
  {
    match p
    case Plain(c) =>
      assert PrintPiece(p)[1..] == "";
    case Escape(code) =>
      var t := PrintPiece(p);
      assert t[1..] == [code];
      assert Run([code], s.(escaped := true)) == Scanning(s);
    case Unicode(digits) =>
      var t := PrintPiece(p);
      assert t[1..] == ['u'] + digits && t[1..][1..] == digits;
      HexIsNeutral(digits, s);
  }

  lemma {:induction false} HexIsNeutral(digits: string, s: Scan)
    requires forall i | 0 <= i < |digits| :: IsHex(digits[i])
    requires s.inString && !s.escaped
    ensures Neutral(digits, s)
  {
    if digits != "" {
      assert IsHex(digits[0]);
      HexIsNeutral(digits[1..], s);
    }
  }

  lemma {:induction false} PiecesAreNeutral(ps: seq<Piece>, s: Scan)
    requires LegalPieces(ps) && s.inString && !s.escaped
    ensures Neutral(PrintPieces(ps), s)
  {
    if ps != [] {
      PieceIsNeutral(ps[0], s);
      PiecesAreNeutral(ps[1..], s);
      NeutralConcat(PrintPiece(ps[0]), PrintPieces(ps[1..]), s);
    }
  }

  lemma {:induction false} StringIsNeutral(ps: seq<Piece>, s: Scan)
    requires LegalPieces(ps) && !s.inString && !s.escaped
    ensures Neutral(PrintString(ps), s)
  {
    var inside := s.(inString := true);
    PiecesAreNeutral(ps, inside);
    RunConcat(PrintPieces(ps), "\"", inside);
    assert Run("\"", inside) == Scanning(s);
    assert PrintString(ps)[1..] == PrintPieces(ps) + "\"";
  }

  // ----- values, elements and members, by structural induction -----

  lemma {:induction false} ValueIsNeutral(v: Value, depth: int)
    requires Legal(v) && depth >= 1
    ensures Neutral(Print(v), Scan(depth, false, false))
  {
    var s := Scan(depth, false, false);
    match v
    case Null => CalmIsNeutral("null", s);
    case True => CalmIsNeutral("true", s);
    case False => CalmIsNeutral("false", s);
    case Num(n) =>
      NumberIsCalm(n);
      CalmIsNeutral(PrintNumber(n), s);
    case Str(ps) => StringIsNeutral(ps, s);
    case Arr(es) =>
      OpenArray(es, s);
      var inner := s.(depth := depth + 1);
      RunConcat("[" + PrintElements(es), "]", s);
      assert Run("]", inner) == Scanning(s);
      assert Print(v) == ("[" + PrintElements(es)) + "]";
    case Obj(ms) =>
      MembersAreNeutral(ms, depth);
      CalmIsNeutral("{", s);
      CalmIsNeutral("}", s);
      NeutralConcat(PrintMembers(ms), "}", s);
      NeutralConcat("{", PrintMembers(ms) + "}", s);
  }

  // An opened array leaves the automaton one level deeper, whatever it has read so far.
  lemma {:induction false} OpenArray(es: Elements, s: Scan)
    requires LegalElements(es) && s.depth >= 0 && !s.inString && !s.escaped
    ensures Run("[" + PrintElements(es), s) == Scanning(s.(depth := s.depth + 1))
    decreases es, 1
  {
    ElementsAreNeutral(es, s.depth + 1);
    var text := "[" + PrintElements(es);
    assert text[0] == '[' && text[1..] == PrintElements(es);
  }

  lemma {:induction false} ElementsAreNeutral(es: Elements, depth: int)
    requires LegalElements(es) && depth >= 1
    ensures Neutral(PrintElements(es), Scan(depth, false, false))
    decreases es, 0
  {
    var s := Scan(depth, false, false);
    match es
    case NoElements(space) => CalmIsNeutral(space, s);
    case LastElement(b, v, a) =>
      CalmIsNeutral(b, s);
      ValueIsNeutral(v, depth);
      CalmIsNeutral(a, s);
      NeutralConcat(Print(v), a, s);
      NeutralConcat(b, Print(v) + a, s);
    case MoreElements(b, v, a, rest) =>
      CalmIsNeutral(b, s);
      ValueIsNeutral(v, depth);
      CalmIsNeutral(a, s);
      CalmIsNeutral(",", s);
      ElementsAreNeutral(rest, depth);
      NeutralConcat(",", PrintElements(rest), s);
      NeutralConcat(a, "," + PrintElements(rest), s);
      NeutralConcat(Print(v), a + ("," + PrintElements(rest)), s);
      NeutralConcat(b, Print(v) + (a + ("," + PrintElements(rest))), s);
  }

  lemma {:induction false} NamedValueIsNeutral(b: string, n: seq<Piece>, c: string, d: string, v: Value,
                                               tail: string, s: Scan)
    requires Blank(b) && LegalPieces(n) && Blank(c) && Blank(d)
    requires !s.inString && !s.escaped && Neutral(Print(v), s) && Neutral(tail, s)
    ensures Neutral(b + (PrintString(n) + (c + (":" + (d + (Print(v) + tail))))), s)
  {
    NeutralConcat(Print(v), tail, s);
    CalmIsNeutral(d, s);
    NeutralConcat(d, Print(v) + tail, s);
    CalmIsNeutral(":", s);
    NeutralConcat(":", d + (Print(v) + tail), s);
    CalmIsNeutral(c, s);
    NeutralConcat(c, ":" + (d + (Print(v) + tail)), s);
    StringIsNeutral(n, s);
    NeutralConcat(PrintString(n), c + (":" + (d + (Print(v) + tail))), s);
    CalmIsNeutral(b, s);
    NeutralConcat(b, PrintString(n) + (c + (":" + (d + (Print(v) + tail)))), s);
  }

  lemma {:induction false} MembersAreNeutral(ms: Members, depth: int)
    requires LegalMembers(ms) && depth >= 1
    ensures Neutral(PrintMembers(ms), Scan(depth, false, false))
  {
    var s := Scan(depth, false, false);
    match ms
    case NoMembers(space) => CalmIsNeutral(space, s);
    case LastMember(b, n, c, d, v, a) =>
      ValueIsNeutral(v, depth);
      CalmIsNeutral(a, s);
      NamedValueIsNeutral(b, n, c, d, v, a, s);
    case MoreMembers(b, n, c, d, v, a, rest) =>
      ValueIsNeutral(v, depth);
      MembersAreNeutral(rest, depth);
      CalmIsNeutral(a, s);
      CalmIsNeutral(",", s);
      NeutralConcat(",", PrintMembers(rest), s);
      NeutralConcat(a, "," + PrintMembers(rest), s);
      NamedValueIsNeutral(b, n, c, d, v, a + ("," + PrintMembers(rest)), s);
  }

  // ----- the automaton against the grammar -----

  // A complete array, followed by anything, ends exactly at its own ']'.
  lemma {:induction false} CompleteArrayEndsAtItsBracket(before: string, v: Value, suffix: string)
    requires v.Arr? && Legal(v)
    ensures ArrayEnd(before + Print(v) + suffix, |before|) == |before| + |Print(v)| - 1
  {
    var text := before + Print(v) + suffix;
    var open := "[" + PrintElements(v.elements);
    OpenArray(v.elements, START);
    RunConcat(open, "]" + suffix, START);
    assert ("]" + suffix)[0] == ']';
    assert text[|before|..] == open + ("]" + suffix);
  }

  // The same array cut off anywhere before its last character has no end.
  lemma {:induction false} HalfWrittenArrayHasNoEnd(before: string, v: Value, part: string)
    requires v.Arr? && Legal(v)
    requires part < Print(v)
    ensures ArrayEnd(before + part, |before|) == -1
  {
    var open := "[" + PrintElements(v.elements);
    assert Print(v) == open + "]";
    assert open == part + open[|part|..];
    OpenArray(v.elements, START);
    RunConcat(part, open[|part|..], START);
    assert (before + part)[|before|..] == part;
  }

  // No array text is a proper beginning of another one, so a reader that stops at
  // the first possible end can never cut an inventory short.
  lemma {:induction false} ArrayTextsArePrefixFree(v: Value, w: Value)
    requires v.Arr? && Legal(v) && w.Arr? && Legal(w)
    requires Print(v) <= Print(w)
    ensures Print(v) == Print(w)
  {
    if Print(v) < Print(w) {
      var text := "" + Print(v);
      assert text + "" == text;
      CompleteArrayEndsAtItsBracket("", v, "");
      HalfWrittenArrayHasNoEnd("", w, Print(v));
      assert false;
    }
  }

  // ----- the newest inventory of a log -----

  const MARKER := "Currently available display devices:"

  // The last marker of a log starts at m, the first bracket behind it is at s, and the
  // array that starts there ends at e (-1 if it does not end).
  ghost predicate NewestArray(log: string, m: nat, s: nat, e: int) {
    && MatchesAt(log, MARKER, m) && (forall i: nat | m < i :: !MatchesAt(log, MARKER, i))
    && m + |MARKER| <= s < |log| && log[s] == '[' && (forall i | m + |MARKER| <= i < s :: log[i] != '[')
    && e == ArrayEnd(log, s)
  }

  // What is to be read of a log: the newest array, if it has been written to its end.
  ghost predicate IsNewestInventory(log: string, inventory: Option<string>) {
    match inventory
    case Some(text) => exists m: nat, s: nat, e :: NewestArray(log, m, s, e) && s <= e < |log| && text == log[s..e + 1]
    case None => forall m: nat, s: nat, e :: NewestArray(log, m, s, e) ==> e == -1
  }

  method NewestInventory(log: string) returns (inventory: Option<string>)
    ensures IsNewestInventory(log, inventory)
  {
    hide MatchesAt, ArrayEnd;
    var markerIndex := LastIndexOf(log, MARKER);
    if markerIndex < 0 { return None; }
    MatchFits(log, MARKER, markerIndex);
    var arrayStart := IndexOf(log, '[', markerIndex + |MARKER|);
    if arrayStart < 0 {
      assert forall m: nat, s: nat, e :: NewestArray(log, m, s, e) ==> m == markerIndex;
      return None;
    }
    var arrayEnd := FindJsonArrayEnd(log, arrayStart);
    assert NewestArray(log, markerIndex, arrayStart, arrayEnd);
    forall m: nat, s: nat, e | NewestArray(log, m, s, e) ensures m == markerIndex && s == arrayStart && e == arrayEnd {
      OneNewestArray(log, m, s, e, markerIndex, arrayStart, arrayEnd);
    }
    if arrayEnd < 0 { return None; }
    return Some(log[arrayStart..arrayEnd + 1]);
  }

  lemma {:induction false} MatchFits(text: string, pattern: string, at: nat)
    requires MatchesAt(text, pattern, at)
    ensures at + |pattern| <= |text|
  {
  }

  lemma {:induction false} OneNewestArray(log: string, m: nat, s: nat, e: int, n: nat, t: nat, f: int)
    requires NewestArray(log, m, s, e) && NewestArray(log, n, t, f)
    ensures m == n && s == t && e == f
  {
    hide MatchesAt, ArrayEnd;
  }

  // The last marker of the log stands right after `older`, and no '[' precedes body.
  ghost predicate NewestBlock(older: string, marker: string, between: string, body: string) {
    && SameText(marker, MARKER)
    && '[' !in between
    && forall i: nat | |older| < i :: !MatchesAt(older + marker + between + body, MARKER, i)
  }

  lemma {:induction false} NewestBlockIsFound(older: string, marker: string, between: string, body: string)
    requires NewestBlock(older, marker, between, body)
    ensures var log := older + marker + between + body;
            var s := |older + marker + between|;
            && (body != "" && body[0] == '[' ==> NewestArray(log, |older|, s, ArrayEnd(log, s)))
            && (body == "" ==> forall m: nat, s: nat, e :: !NewestArray(log, m, s, e))
  {
    var log := older + marker + between + body;
    assert |Fold(marker)| == |Fold(MARKER)|;
    assert log[|older|..|older| + |MARKER|] == marker;
    assert MatchesAt(log, MARKER, |older|);
    var head := |older + marker + between|;
    assert forall i | |older + marker| <= i < head :: log[i] == between[i - |older + marker|];
    hide MatchesAt, ArrayEnd;
    if body != "" && body[0] == '[' { assert log[head] == '['; }
    if body == "" {
      forall m: nat, s: nat, e ensures !NewestArray(log, m, s, e) {
        assert NewestArray(log, m, s, e) ==> m == |older|;
      }
    }
  }

  // A finished newest block is returned whole, whatever was logged before or after it.
  lemma {:induction false} FinishedInventoryIsRead(older: string, marker: string, between: string, v: Value,
                                                   after: string, inventory: Option<string>)
    requires v.Arr? && Legal(v) && NewestBlock(older, marker, between, Print(v) + after)
    ensures IsNewestInventory(older + marker + between + (Print(v) + after), inventory) <==> inventory == Some(Print(v))
  {
    var log := older + marker + between + (Print(v) + after);
    NewestBlockIsFound(older, marker, between, Print(v) + after);
    var head := older + marker + between;
    CompleteArrayEndsAtItsBracket(head, v, after);
    assert log == head + Print(v) + after;
    assert log[|head|..|head| + |Print(v)|] == Print(v);
    OnlyNewest(log, |older|, |head|, ArrayEnd(log, |head|), inventory);
  }

  lemma {:induction false} OnlyNewest(log: string, m: nat, s: nat, e: int, inventory: Option<string>)
    requires NewestArray(log, m, s, e)
    ensures IsNewestInventory(log, inventory) <==>
            if s <= e < |log| then inventory == Some(log[s..e + 1]) else inventory == None && e == -1
  {
    hide NewestArray;
    forall n: nat, t: nat, f | NewestArray(log, n, t, f) ensures n == m && t == s && f == e {
      OneNewestArray(log, m, s, e, n, t, f);
    }
    if IsNewestInventory(log, inventory) && inventory.Some? {
      var n: nat, t: nat, f :| NewestArray(log, n, t, f) && t <= f < |log| && inventory.value == log[t..f + 1];
    }
  }

  // While the newest block is still being written nothing is returned, so an older
  // inventory, however complete, is never used in its place.
  lemma {:induction false} HalfWrittenInventoryIsNotRead(older: string, marker: string, between: string, v: Value,
                                                         part: string, inventory: Option<string>)
    requires v.Arr? && Legal(v) && part < Print(v) && NewestBlock(older, marker, between, part)
    ensures IsNewestInventory(older + marker + between + part, inventory) <==> inventory == None
  {
    var log, head := older + marker + between + part, older + marker + between;
    NewestBlockIsFound(older, marker, between, part);
    HalfWrittenArrayHasNoEnd(head, v, part);
    if part != "" {
      assert part[0] == Print(v)[0] == '[';
      OnlyNewest(log, |older|, |head|, -1, inventory);
    } else {
      assert forall m: nat, s: nat, e :: !NewestArray(log, m, s, e);
    }
  }
}
