/** A line of the support log as the reader takes it apart: shell-like tokens, pairs of a
    name and a value of which the last one counts, and the envelope of a record. */
module LogLines {
  import opened HostText
  import opened Numerals
  import opened SupportRecords
  import opened SupportLog
  import ConfigNumbers
  import LogSummary
  import Sequences

  // ----- tokens -----

  predicate IsSpace(c: char) {
    c == ' ' || c == '\t' || c == '\r' || c == '\n'
  }

  predicate IsQuote(c: char) {
    c == '\'' || c == '"'
  }

  datatype Mode = Between | Word | Quoted(quote: char) | Escaped(inside: Option<char>)

  // quoted says that a part of the token stood in quotes, so it counts even if empty.
  datatype Lexer = Lexer(tokens: seq<string>, token: string, quoted: bool, mode: Mode)

  const START: Lexer := Lexer([], "", false, Between)

  function Ended(s: Lexer): Lexer {
    Lexer(if s.token != "" || s.quoted then s.tokens + [s.token] else s.tokens, "", false, Between)
  }

  // One character for shlex with whitespace_split and no comments or, without quoting, for
  // a split at white space.
  function Next(s: Lexer, c: char, quoting: bool): Lexer {
    match s.mode
    case Between =>
      if IsSpace(c) then s
      else if quoting && c == '\\' then s.(mode := Escaped(None))
      else if quoting && IsQuote(c) then s.(mode := Quoted(c))
      else s.(token := [c], mode := Word)
    case Word =>
      if IsSpace(c) then Ended(s)
      else if quoting && c == '\\' then s.(mode := Escaped(None))
      else if quoting && IsQuote(c) then s.(mode := Quoted(c))
      else s.(token := s.token + [c])
    case Quoted(quote) =>
      if c == quote then s.(quoted := true, mode := Word)
      else if c == '\\' && quote == '"' then s.(quoted := true, mode := Escaped(Some(quote)))
      else s.(quoted := true, token := s.token + [c])
    case Escaped(None) => s.(token := s.token + [c], mode := Word)
    case Escaped(Some(quote)) =>
      s.(token := s.token + (if c != '\\' && c != quote then "\\" else "") + [c], mode := Quoted(quote))
  }

  function Run(s: Lexer, text: string, quoting: bool): Lexer
    decreases |text|
  {
    if text == "" then s else Run(Next(s, text[0], quoting), text[1..], quoting)
  }

  // None stands for an exception: a quote that is not closed, or nothing after a backslash.
  function Finished(s: Lexer): Option<seq<string>> {
    match s.mode
    case Between => Some(s.tokens)
    case Word => Some(Ended(s).tokens)
    case _ => None
  }

  function Tokens(text: string, quoting: bool): Option<seq<string>> {
    Finished(Run(START, text, quoting))
  }

  lemma {:induction false} RunConcat(s: Lexer, a: string, b: string, quoting: bool)
    ensures Run(s, a + b, quoting) == Run(Run(s, a, quoting), b, quoting)
    decreases |a|
  {
    hide Next;
    if a == "" {
      assert a + b == b;
    } else {
      RunConcat(Next(s, a[0], quoting), a[1..], b, quoting);
      assert (a + b)[1..] == a[1..] + b;
    }
  }

  lemma {:induction false} RunSnoc(s: Lexer, text: string, c: char, quoting: bool)
    ensures Run(s, text + [c], quoting) == Next(Run(s, text, quoting), c, quoting)
  {
    RunConcat(s, text, [c], quoting);
    assert [c][1..] == "";
  }

  // A word in double quotes is read as what stands between them, with its blanks, and counts
  // even if it is empty.
  lemma {:induction false} QuotedWordIsRead(content: string)
    requires forall i | 0 <= i < |content| :: content[i] != '"' && content[i] != '\\'
    ensures Tokens("\"" + content + "\"", true) == Some([content])
  {
    InsideQuotes(content);
    RunSnoc(START, "\"" + content, '"', true);
    var text := "\"" + content + "\"";
    assert text == "\"" + content + ['"'];
    hide Run;
    var s := Run(START, text, true);
    assert Ended(s).tokens == [content];
  }

  lemma {:induction false} InsideQuotes(content: string)
    requires forall i | 0 <= i < |content| :: content[i] != '"' && content[i] != '\\'
    ensures var s := Run(START, "\"" + content, true);
            s.tokens == [] && s.token == content && s.mode == Quoted('"')
  {
    var n := |content|;
    if n == 0 {
      assert "\"" + content == "\"" && "\""[1..] == "";
      assert Run(START, "\"", true) == Next(START, '"', true);
    } else {
      InsideQuotes(content[..n - 1]);
      RunSnoc(START, "\"" + content[..n - 1], content[n - 1], true);
      assert "\"" + content == "\"" + content[..n - 1] + [content[n - 1]];
      assert content == content[..n - 1] + [content[n - 1]];
      hide Run;
    }
  }

  function Behind(first: seq<string>, s: Lexer): Lexer {
    s.(tokens := first + s.tokens)
  }

  lemma {:induction false} NextBehind(first: seq<string>, s: Lexer, c: char, quoting: bool)
    ensures Next(Behind(first, s), c, quoting) == Behind(first, Next(s, c, quoting))
  {
    assert first + (s.tokens + [s.token]) == first + s.tokens + [s.token];
  }

  // Tokens that are there already make no difference.
  lemma {:induction false} RunBehind(first: seq<string>, s: Lexer, text: string, quoting: bool)
    ensures Run(Behind(first, s), text, quoting) == Behind(first, Run(s, text, quoting))
    decreases |text|
  {
    hide Next, Behind;
    if text != "" {
      NextBehind(first, s, text[0], quoting);
      RunBehind(first, Next(s, text[0], quoting), text[1..], quoting);
    }
  }

  lemma {:induction false} FinishedBehind(first: seq<string>, s: Lexer)
    ensures Finished(Behind(first, s)) ==
            match Finished(s) case Some(tokens) => Some(first + tokens) case None => None
  {
    assert first + (s.tokens + [s.token]) == first + s.tokens + [s.token];
  }

  // ----- words without quotes -----

  // Characters that end no token and open no quote.
  predicate Ordinary(s: string) {
    forall i | 0 <= i < |s| :: !IsSpace(s[i]) && !IsQuote(s[i]) && s[i] != '\\'
  }

  predicate AllWords(words: seq<string>) {
    forall i | 0 <= i < |words| :: words[i] != "" && Ordinary(words[i])
  }

  lemma {:induction false} WordIsRead(s: Lexer, word: string, quoting: bool)
    requires Ordinary(word) && (s.mode.Word? || (s.mode.Between? && s.token == "" && word != ""))
    ensures Run(s, word, quoting) == s.(token := s.token + word, mode := Word)
    decreases |word|
  {
    if word == "" {
      assert s.token + word == s.token;
    } else {
      var next := s.(token := s.token + [word[0]], mode := Word);
      assert Next(s, word[0], quoting) == next by { assert s.mode.Between? ==> s.token + [word[0]] == [word[0]]; }
      WordIsRead(next, word[1..], quoting);
      assert s.token + [word[0]] + word[1..] == s.token + word;
    }
  }

  // The words, each behind a blank.
  function Joined(words: seq<string>): string {
    if words == [] then "" else " " + words[0] + Joined(words[1..])
  }

  // A lexer that has just read a word.
  function At(tokens: seq<string>, word: string): Lexer {
    Lexer(tokens, word, false, Word)
  }

  lemma {:induction false} BlankEnds(tokens: seq<string>, word: string, quoting: bool)
    requires word != ""
    ensures Run(At(tokens, word), " ", quoting) == Lexer(tokens + [word], "", false, Between)
    ensures Run(START, " ", quoting) == START
  {
    assert " "[1..] == "";
  }

  lemma {:induction false} JoinedIsRead(tokens: seq<string>, word: string, words: seq<string>, quoting: bool)
    requires word != "" && AllWords(words)
    ensures var all := [word] + words;
            Run(At(tokens, word), Joined(words), quoting) == At(tokens + all[..|words|], all[|words|])
    decreases |words|
  {
    var all := [word] + words;
    if words == [] {
      assert tokens + all[..0] == tokens;
    } else {
      var next := words[0];
      var between := Lexer(tokens + [word], "", false, Between);
      BlankEnds(tokens, word, quoting);
      WordIsRead(between, next, quoting);
      assert "" + next == next;
      JoinedIsRead(tokens + [word], next, words[1..], quoting);
      hide Run;
      RunConcat(At(tokens, word), " ", next, quoting);
      RunConcat(At(tokens, word), " " + next, Joined(words[1..]), quoting);
      var rest := [next] + words[1..];
      assert rest == words;
      assert tokens + [word] + rest[..|words| - 1] == tokens + all[..|words|];
    }
  }

  lemma {:induction false} WordsAreRead(word: string, words: seq<string>, quoting: bool)
    requires word != "" && Ordinary(word) && AllWords(words)
    ensures var all := [word] + words;
            Run(START, word + Joined(words), quoting) == At(all[..|words|], all[|words|])
  {
    hide Run, Ordinary, Joined, AllWords, Next;
    var all := [word] + words;
    WordIsRead(START, word, quoting);
    assert "" + word == word;
    JoinedIsRead([], word, words, quoting);
    assert [] + all[..|words|] == all[..|words|];
    RunConcat(START, word, Joined(words), quoting);
  }

  // What follows is taken apart as if it stood alone.
  lemma {:induction false} TailIsRead(all: seq<string>, tail: string, quoting: bool)
    requires all != [] && all[|all| - 1] != "" && (tail == "" || tail[0] == ' ')
    ensures Finished(Run(At(all[..|all| - 1], all[|all| - 1]), tail, quoting)) ==
            match Tokens(tail, quoting) case Some(tokens) => Some(all + tokens) case None => None
  {
    var front, last := all[..|all| - 1], all[|all| - 1];
    assert front + [last] == all;
    NoTokens(quoting);
    if tail == "" {
      assert all + [] == all;
    } else {
      hide Next, Run;
      var rest := tail[1..];
      assert tail == " " + rest;
      BlankEnds(front, last, quoting);
      RunConcat(At(front, last), " ", rest, quoting);
      RunConcat(START, " ", rest, quoting);
      assert Behind(all, START) == Lexer(all, "", false, Between) by { assert all + [] == all; }
      RunBehind(all, START, rest, quoting);
      FinishedBehind(all, Run(START, rest, quoting));
    }
  }

  lemma {:induction false} NoTokens(quoting: bool)
    ensures Tokens("", quoting) == Some([])
  {
  }

  // Words and then, behind a blank or not at all, anything: the tokens of the words come
  // first.
  lemma {:induction false} WordsThenTail(word: string, words: seq<string>, tail: string, quoting: bool)
    requires word != "" && Ordinary(word) && AllWords(words) && (tail == "" || tail[0] == ' ')
    ensures Tokens(word + Joined(words) + tail, quoting) ==
            match Tokens(tail, quoting) case Some(tokens) => Some([word] + words + tokens) case None => None
  {
    var all := [word] + words;
    assert all[|words|] != "";
    hide Run, Finished, Joined, Ordinary, At, AllWords;
    WordsAreRead(word, words, quoting);
    RunConcat(START, word + Joined(words), tail, quoting);
    TailIsRead(all, tail, quoting);
  }

  // ----- pairs -----

  // FIELD_NAME_RE
  predicate FieldName(s: string) {
    && 1 <= |s| <= 64 && ('a' <= s[0] <= 'z' || 'A' <= s[0] <= 'Z')
    && forall i | 0 <= i < |s| :: TokenSafe(s[i])
  }

  // The fallback, which splits at white space, takes no empty value.
  function Split(token: string, fallback: bool): Option<(string, string)> {
    var at := IndexOf(token, '=', 0);
    if at < 0 || !FieldName(token[..at]) || (fallback && token[at + 1..] == "") then None
    else Some((token[..at], token[at + 1..]))
  }

  // Of several pairs with one name the last one counts.
  function Last(tokens: seq<string>, key: string, fallback: bool): Option<string> {
    if tokens == [] then None
    else
      var pair := Split(tokens[|tokens| - 1], fallback);
      if pair.Some? && pair.value.0 == key then Some(pair.value.1) else Last(tokens[..|tokens| - 1], key, fallback)
  }

  function Value(text: string, key: string): Option<string> {
    match Tokens(text, true)
    case Some(tokens) => Last(tokens, key, false)
    case None =>
      var words := Tokens(text, false);
      if words.Some? then Last(words.value, key, true) else None
  }

  lemma {:induction false} LastConcat(a: seq<string>, b: seq<string>, key: string, fallback: bool)
    ensures Last(a + b, key, fallback) ==
            if Last(b, key, fallback).Some? then Last(b, key, fallback) else Last(a, key, fallback)
    decreases |b|
  {
    hide Split;
    if b == [] {
      assert a + b == a;
    } else {
      LastConcat(a, b[..|b| - 1], key, fallback);
      assert (a + b)[..|a + b| - 1] == a + b[..|b| - 1];
    }
  }

  lemma {:induction false} PairIsSplit(name: string, value: string, fallback: bool)
    requires FieldName(name) && value != ""
    ensures Split(name + "=" + value, fallback) == Some((name, value))
  {
    var token := name + "=" + value;
    var at := IndexOf(token, '=', 0);
    assert token[|name|] == '=';
    assert forall i | 0 <= i < |name| :: token[i] == name[i] && TokenSafe(name[i]);
    assert at == |name|;
    assert token[..at] == name && token[at + 1..] == value;
  }

  // Words that are pairs of these names and values.
  function PairsOf(names: seq<string>, values: seq<string>): (words: seq<string>)
    requires |names| == |values|
    ensures |words| == |names|
  {
    seq(|names|, i requires 0 <= i < |names| => names[i] + "=" + values[i])
  }

  ghost predicate GoodPairs(names: seq<string>, values: seq<string>) {
    && |names| == |values|
    && (forall i | 0 <= i < |names| :: FieldName(names[i]) && values[i] != "" && Ordinary(values[i]))
    && (forall i, j | 0 <= i < j < |names| :: names[i] != names[j])
  }

  lemma {:induction false} PairIsWord(name: string, value: string)
    requires FieldName(name) && Ordinary(value)
    ensures name + "=" + value != "" && Ordinary(name + "=" + value)
  {
    var token := name + "=" + value;
    forall i | 0 <= i < |token| ensures !IsSpace(token[i]) && !IsQuote(token[i]) && token[i] != '\\' {
      if i < |name| {
        assert token[i] == name[i] && TokenSafe(name[i]);
      } else if i > |name| {
        assert token[i] == value[i - |name| - 1];
      }
    }
  }

  lemma {:induction false} PairsAreWords(names: seq<string>, values: seq<string>)
    requires GoodPairs(names, values)
    ensures AllWords(PairsOf(names, values))
  {
    hide Ordinary, FieldName;
    forall i | 0 <= i < |names| ensures PairsOf(names, values)[i] != "" && Ordinary(PairsOf(names, values)[i]) {
      PairIsWord(names[i], values[i]);
    }
  }

  lemma {:induction false} LastOfPairs(names: seq<string>, values: seq<string>, key: string, fallback: bool)
    requires GoodPairs(names, values)
    ensures key !in names ==> Last(PairsOf(names, values), key, fallback) == None
    ensures forall i | 0 <= i < |names| && names[i] == key ::
            Last(PairsOf(names, values), key, fallback) == Some(values[i])
    decreases |names|
  {
    hide Ordinary, FieldName, Split;
    if names != [] {
      var n := |names| - 1;
      PairIsSplit(names[n], values[n], fallback);
      LastOfPairs(names[..n], values[..n], key, fallback);
      assert PairsOf(names, values)[..n] == PairsOf(names[..n], values[..n]);
      assert forall i | 0 <= i < n :: names[..n][i] == names[i] && values[..n][i] == values[i];
    }
  }

  // ----- the envelope -----

  const SCHEMA: string := "vita-support-v1"

  // EVENT_NAME_RE
  predicate EventName(s: string) {
    && 1 <= |s| <= 96 && 'a' <= s[0] <= 'z'
    && forall i | 0 <= i < |s| :: 'a' <= s[i] <= 'z' || IsDigit(s[i]) || s[i] == '_' || s[i] == '.' || s[i] == '-'
  }

  // SESSION_ID_RE
  predicate SessionId(s: string) {
    && 1 <= |s| <= 32
    && forall i | 0 <= i < |s| :: IsDigit(s[i]) || 'a' <= s[i] <= 'f' || 'A' <= s[i] <= 'F'
  }

  function LevelOf(name: string): Option<Level> {
    if name == "info" then Some(Info) else if name == "warn" then Some(Warning) else if name == "error" then Some(Error)
    else None
  }

  predicate IsInteger(s: string) {
    var digits := if s != "" && s[0] == '-' then s[1..] else s;
    1 <= |digits| <= 20 && forall i | 0 <= i < |digits| :: IsDigit(digits[i])
  }

  function Sequence(value: Option<string>): Option<int> {
    if value.Some? && IsInteger(value.value) then Some(ConfigNumbers.Atoi(value.value)) else None
  }

  function Or(value: Option<string>): string {
    if value.Some? then value.value else ""
  }

  datatype Reading = Reading(session: string, sequence: Option<int>, level: Level, event: string)

  // parse_line, as far as the envelope goes; None is a line that is not counted as a record
  // of this schema.
  function ReadLine(text: string): Option<Reading> {
    Assembled(Value(text, "schema"), Value(text, "session"),
              Value(text, "seq"), Value(text, "level"), Value(text, "event"))
  }

  function Assembled(schema: Option<string>, session: Option<string>, number: Option<string>, level: Option<string>,
                     event: Option<string>): Option<Reading> {
    if schema == Some(SCHEMA) && EventName(Or(event)) && SessionId(Or(session)) && LevelOf(Or(level)).Some?
    then Some(Reading(Or(session), Sequence(number), LevelOf(Or(level)).value, Or(event)))
    else None
  }

  function ReadingOf(r: Record): Reading {
    Reading(Hex(r.session, 16), Some(r.sequence), r.level, r.event)
  }

  const HEAD_NAMES: seq<string> := ["ts", "schema", "session", "seq", "level", "event"]

  function HeadValues(r: Record): seq<string> {
    [r.stamp, SCHEMA, Hex(r.session, 16), Decimal(r.sequence), LevelName(r.level), r.event]
  }

  function HeadText(r: Record): string {
    var words := PairsOf(HEAD_NAMES, HeadValues(r));
    words[0] + Joined(words[1..])
  }

  // What the clock and safe_token give, and numbers of 64 bits.
  ghost predicate Regular(r: Record) {
    && r.stamp != "" && Ordinary(r.stamp)
    && r.event != "" && (forall i | 0 <= i < |r.event| :: TokenSafe(r.event[i]))
    && r.session < 0x1_0000_0000_0000_0000 && r.sequence < 0x1_0000_0000_0000_0000
  }

  // No pair in the tail gives the name another value.
  predicate Keeps(tail: string, key: string, value: string) {
    Value(tail, key) == None || Value(tail, key) == Some(value)
  }

  predicate Harmless(r: Record, tail: string) {
    && Keeps(tail, "schema", SCHEMA) && Keeps(tail, "session", Hex(r.session, 16))
    && Keeps(tail, "level", LevelName(r.level)) && Keeps(tail, "event", r.event)
    && (Value(tail, "seq") == None || Sequence(Value(tail, "seq")) == Some(r.sequence))
  }

  lemma {:induction false} HexLength(n: nat, width: nat)
    requires n < Power16(width)
    ensures |Hex(n, width)| == width
    decreases width
  {
    if width > 0 { HexLength(n / 16, width - 1); }
  }

  // Read as a number of base 16 it is the number that was written.
  lemma {:induction false} HexHasValue(n: nat, width: nat)
    ensures var s := Hex(n, width);
            && ConfigNumbers.Leading(s, 16, 0) == n
            && forall i | 0 <= i < |s| :: ConfigNumbers.HexValue(s[i]).Some? && ConfigNumbers.HexValue(s[i]).value < 16
    decreases n, width
  {
    hide ConfigNumbers.Leading, ConfigNumbers.HexValue, ConfigNumbers.HasValue, HexDigit, ConfigNumbers.Shifted;
    if n == 0 && width == 0 {
      assert ConfigNumbers.Leading("", 16, 0) == 0 by { NothingLeads(); }
    } else {
      var front := Hex(n / 16, if width == 0 then 0 else width - 1);
      HexHasValue(n / 16, if width == 0 then 0 else width - 1);
      LowerHexDigit(n % 16);
      ConfigNumbers.HasValueIs(HexDigit(n % 16), 16, n % 16);
      ConfigNumbers.LeadingSnoc(front, HexDigit(n % 16), 16, 0, n % 16);
      assert ConfigNumbers.Shifted(n / 16, 16, n % 16) == n by { ShiftedBack(n); }
    }
  }

  lemma {:induction false} NothingLeads()
    ensures ConfigNumbers.Leading("", 16, 0) == 0
  {
  }

  lemma {:induction false} LowerHexDigit(d: nat)
    requires d < 16
    ensures ConfigNumbers.HasValue(HexDigit(d), 16, d)
  {
  }

  lemma {:induction false} ShiftedBack(n: nat)
    ensures ConfigNumbers.Shifted(n / 16, 16, n % 16) == n
  {
  }

  function Power16(k: nat): nat { if k == 0 then 1 else 16 * Power16(k - 1) }

  function Power10(k: nat): nat { if k == 0 then 1 else 10 * Power10(k - 1) }

  lemma {:induction false} DecimalLength(n: nat, k: nat)
    requires 0 < k && n < Power10(k)
    ensures |Decimal(n)| <= k
    decreases k
  {
    if n >= 10 { DecimalLength(n / 10, k - 1); }
  }

  lemma {:induction false} SixtyFourBits()
    ensures Power16(16) == 0x1_0000_0000_0000_0000 && Power10(20) > 0x1_0000_0000_0000_0000
  {
    assert Power16(4) == 0x1_0000;
    assert Power16(8) == 0x1_0000_0000;
    assert Power16(12) == 0x1_0000_0000_0000;
    assert Power10(5) == 100_000;
    assert Power10(10) == 10_000_000_000;
    assert Power10(15) == 1_000_000_000_000_000;
  }

  lemma {:induction false} HexIsOrdinary(n: nat)
    requires n < 0x1_0000_0000_0000_0000
    ensures SessionId(Hex(n, 16)) && Ordinary(Hex(n, 16)) && Hex(n, 16) != ""
  {
    hide Power10, Power16;
    SixtyFourBits();
    HexLength(n, 16);
    hide Hex;
  }

  lemma {:induction false} DecimalIsOrdinary(n: nat)
    ensures Ordinary(Decimal(n)) && Decimal(n) != ""
    ensures n < 0x1_0000_0000_0000_0000 ==> Sequence(Some(Decimal(n))) == Some(n)
  {
    hide Power10, Power16, ConfigNumbers.Atoi;
    var s := Decimal(n);
    assert IsDigit(s[0]);
    if n < 0x1_0000_0000_0000_0000 {
      SixtyFourBits();
      DecimalLength(n, 20);
      ConfigNumbers.IntReadsBack(n);
      assert SignedDecimal(n) == s;
    }
    hide Decimal;
  }

  lemma {:induction false} HeadNamesAreNames()
    ensures forall i | 0 <= i < 6 :: FieldName(HEAD_NAMES[i])
  {
  }

  lemma {:induction false} LevelReadsBack(level: Level)
    ensures LevelOf(LevelName(level)) == Some(level) && Ordinary(LevelName(level)) && LevelName(level) != ""
    ensures forall name :: LevelOf(name) == Some(level) <==> name == LevelName(level)
  {
  }

  lemma {:induction false} TokenIsOrdinary(s: string)
    requires forall i | 0 <= i < |s| :: TokenSafe(s[i])
    ensures Ordinary(s)
  {
  }

  lemma {:induction false} HeadIsGood(r: Record)
    requires Regular(r)
    ensures GoodPairs(HEAD_NAMES, HeadValues(r))
  {
    HeadNamesAreNames();
    HexIsOrdinary(r.session);
    DecimalIsOrdinary(r.sequence);
    LevelReadsBack(r.level);
    TokenIsOrdinary(r.event);
    hide Ordinary, Hex, Decimal, LevelName, FieldName, Sequence;
    assert Ordinary(SCHEMA) by { SchemaIsOrdinary(); }
  }

  lemma {:induction false} SchemaIsOrdinary()
    ensures Ordinary(SCHEMA)
  {
  }

  // The value of an envelope name, in terms of the tail.
  lemma {:induction false} HeadValue(r: Record, tail: string, i: nat)
    requires Regular(r) && (tail == "" || tail[0] == ' ') && i < 6
    ensures Value(HeadText(r) + tail, HEAD_NAMES[i]) ==
            if Value(tail, HEAD_NAMES[i]).Some? then Value(tail, HEAD_NAMES[i]) else Some(HeadValues(r)[i])
  {
    HeadIsGood(r);
    hide Tokens, Last, Ordinary, FieldName, HeadValues, Joined, AllWords;
    var values, key := HeadValues(r), HEAD_NAMES[i];
    ValueBehind(HEAD_NAMES, values, tail, key);
  }

  lemma {:induction false} ValueBehind(names: seq<string>, values: seq<string>, tail: string, key: string)
    requires GoodPairs(names, values) && names != [] && (tail == "" || tail[0] == ' ')
    ensures var words := PairsOf(names, values);
            var value := Value(words[0] + Joined(words[1..]) + tail, key);
            && (forall i | 0 <= i < |names| && names[i] == key ::
                  value == if Value(tail, key).Some? then Value(tail, key) else Some(values[i]))
            && (key !in names ==> value == Value(tail, key))
  {
    var words := PairsOf(names, values);
    PairsAreWords(names, values);
    hide Tokens, Last, Ordinary, FieldName, Joined, PairsOf;
    WordsThenTail(words[0], words[1..], tail, true);
    WordsThenTail(words[0], words[1..], tail, false);
    assert [words[0]] + words[1..] == words;
    LastOfPairs(names, values, key, true);
    LastOfPairs(names, values, key, false);
    var quoted, split := Tokens(tail, true), Tokens(tail, false);
    if quoted.Some? {
      LastConcat(words, quoted.value, key, false);
    } else {
      SplitSucceeds(tail);
      LastConcat(words, split.value, key, true);
    }
  }

  lemma {:induction false} SplitSucceeds(text: string)
    ensures Tokens(text, false).Some?
  {
    SplitKeepsMode(START, text);
  }

  lemma {:induction false} SplitKeepsMode(s: Lexer, text: string)
    requires s.mode.Between? || s.mode.Word?
    ensures Run(s, text, false).mode.Between? || Run(s, text, false).mode.Word?
    decreases |text|
  {
    if text != "" { SplitKeepsMode(Next(s, text[0], false), text[1..]); }
  }

  // The envelope of a line reads back, if and only if the event has a name the reader
  // accepts and no field overrides a part of the envelope.
  lemma {:induction false} EnvelopeReadsBack(r: Record, tail: string)
    requires Regular(r) && (tail == "" || tail[0] == ' ')
    ensures ReadLine(HeadText(r) + tail) == Some(ReadingOf(r)) <==> EventName(r.event) && Harmless(r, tail)
    ensures Harmless(r, tail) && !EventName(r.event) ==> ReadLine(HeadText(r) + tail) == None
  {
    DecimalIsOrdinary(r.sequence);
    hide Value, Ordinary, Hex, Decimal, LevelName, LevelOf,
         HeadText, EventName, SessionId, Sequence, Regular, Assembled;
    HeadValue(r, tail, 1);
    HeadValue(r, tail, 2);
    HeadValue(r, tail, 3);
    HeadValue(r, tail, 4);
    HeadValue(r, tail, 5);
    AssembledIs(r, Value(tail, "schema"), Value(tail, "session"),
                Value(tail, "seq"), Value(tail, "level"), Value(tail, "event"));
  }

  // A value of the tail in place of the one written.
  function Over(value: Option<string>, written: string): Option<string> {
    if value.Some? then value else Some(written)
  }

  lemma {:induction false} AssembledIs(r: Record,
                                       schema: Option<string>, session: Option<string>, number: Option<string>,
                                       level: Option<string>, event: Option<string>)
    requires Regular(r)
    ensures Assembled(Over(schema, SCHEMA), Over(session, Hex(r.session, 16)), Over(number, Decimal(r.sequence)),
                      Over(level, LevelName(r.level)), Over(event, r.event)) == Some(ReadingOf(r)) <==>
            && EventName(r.event)
            && (schema == None || schema == Some(SCHEMA)) && (session == None || session == Some(Hex(r.session, 16)))
            && (level == None || level == Some(LevelName(r.level))) && (event == None || event == Some(r.event))
            && (number == None || Sequence(number) == Some(r.sequence))
    ensures (event == None || event == Some(r.event)) && !EventName(r.event) ==>
              Assembled(Over(schema, SCHEMA), Over(session, Hex(r.session, 16)), Over(number, Decimal(r.sequence)),
                        Over(level, LevelName(r.level)), Over(event, r.event)) == None
  {
    HexIsOrdinary(r.session);
    DecimalIsOrdinary(r.sequence);
    LevelReadsBack(r.level);
    hide Ordinary, Hex, Decimal, LevelName, LevelOf, EventName, SessionId, Sequence, Regular;
  }

  // ----- lines as the client writes them -----

  lemma {:induction false} JoinedSix(a: string, b: string, c: string, d: string, e: string)
    ensures Joined([a, b, c, d, e]) == " " + a + (" " + b + (" " + c + (" " + d + (" " + e))))
  {
    assert [a, b, c, d, e][1..] == [b, c, d, e] && [b, c, d, e][1..] == [c, d, e];
    assert [c, d, e][1..] == [d, e] && [d, e][1..] == [e] && [e][1..] == [];
    hide *;
    JoinedCons(a, [b, c, d, e]);
    JoinedCons(b, [c, d, e]);
    JoinedCons(c, [d, e]);
    JoinedCons(d, [e]);
    JoinedCons(e, []);
    assert [a] + [b, c, d, e] == [a, b, c, d, e] && [b] + [c, d, e] == [b, c, d, e];
    assert [c] + [d, e] == [c, d, e] && [d] + [e] == [d, e] && [e] + [] == [e];
    assert " " + e + "" == " " + e;
  }

  lemma {:induction false} JoinedCons(word: string, rest: seq<string>)
    ensures Joined([word] + rest) == " " + word + Joined(rest) && Joined([]) == ""
  {
    assert ([word] + rest)[1..] == rest;
  }

  lemma {:induction false} HeadIsWritten(r: Record)
    ensures Body(r) == HeadText(r) + (if r.fields == "" then "" else " " + r.fields)
  {
    var hex, number, level := Hex(r.session, 16), Decimal(r.sequence), LevelName(r.level);
    var words := PairsOf(HEAD_NAMES, HeadValues(r));
    assert words[1..] == ["schema" + "=" + SCHEMA, "session" + "=" + hex, "seq" + "=" + number,
                          "level" + "=" + level, "event" + "=" + r.event];
    JoinedSix("schema" + "=" + SCHEMA, "session" + "=" + hex, "seq" + "=" + number,
              "level" + "=" + level, "event" + "=" + r.event);
    HeadInParts(r.stamp, hex, number, level, r.event, if r.fields == "" then "" else " " + r.fields);
    hide Hex, Decimal, LevelName, Joined;
  }

  lemma {:induction false} HeadInParts(stamp: string, hex: string,
                                       number: string, level: string, event: string, rest: string)
    ensures ("ts=" + stamp + " schema=vita-support-v1 session=" + hex) + (" seq=" + number + " level=" + level)
            + (" event=" + event + rest)
            == ("ts" + "=" + stamp
                + (" " + ("schema" + "=" + SCHEMA) + (" " + ("session" + "=" + hex) + (" " + ("seq" + "=" + number)
                + (" " + ("level" + "=" + level) + (" " + ("event" + "=" + event)))))))
               + rest
  {
    var first, schema := "ts=" + stamp, " " + ("schema" + "=" + SCHEMA);
    assert "ts=" == "ts" + "=" && " schema=vita-support-v1 session=" == schema + " session=";
    Sequences.Regroup(first, schema, " session=");
    OnePart(first + schema, "session", " session=", hex);
    OnePart("", "seq", " seq=", number);
    assert "" + " seq=" == " seq=" && "" + (" " + ("seq" + "=" + number)) == " " + ("seq" + "=" + number);
    OnePart(" " + ("seq" + "=" + number), "level", " level=", level);
    OnePart("", "event", " event=", event);
    assert "" + " event=" == " event=" && "" + (" " + ("event" + "=" + event)) == " " + ("event" + "=" + event);
    SevenParts(first, schema, " " + ("session" + "=" + hex),
               " " + ("seq" + "=" + number), " " + ("level" + "=" + level),
               " " + ("event" + "=" + event), rest);
  }

  lemma {:induction false} SevenParts(a: string, b: string, c: string, d: string, e: string, f: string, rest: string)
    ensures (a + b + c) + (d + e) + (f + rest) == a + (b + (c + (d + (e + f)))) + rest
  {
    Sequences.Regroup((a + b + c) + (d + e), f, rest);
    Sequences.Regroup(a + b + c, d + e, f);
    Sequences.Regroup(d, e, f);
    Sequences.Regroup(a + b, c, d + (e + f));
    Sequences.Regroup(a, b, c + (d + (e + f)));
  }

  // line.rstrip("\r\n")
  function WithoutEnd(line: string): string {
    if line != "" && (line[|line| - 1] == '\r' || line[|line| - 1] == '\n')
      then WithoutEnd(line[..|line| - 1]) else line
  }

  function ReadRecord(line: string): Option<Reading> {
    ReadLine(WithoutEnd(line))
  }

  lemma {:induction false} EndIsTaken(text: string)
    requires text != "" && text[|text| - 1] != '\r' && text[|text| - 1] != '\n'
    ensures WithoutEnd(text + "\n") == text
  {
    assert (text + "\n")[..|text|] == text;
  }

  // What stands on the line behind the envelope.
  function Tail(r: Record): (tail: string)
    requires |HeadText(r)| <= BUFFER_SIZE - 2
    ensures tail == "" || tail[0] == ' '
    ensures Line(r) == HeadText(r) + tail + "\n"
  {
    var full := if r.fields == "" then "" else " " + r.fields;
    HeadIsWritten(r);
    var n := BUFFER_SIZE - 2 - |HeadText(r)|;
    var tail := if |HeadText(r)| + |full| + 1 >= BUFFER_SIZE then full[..n] else full;
    TailOf(HeadText(r), full, n);
    tail
  }

  lemma {:induction false} TailOf(head: string, full: string, n: nat)
    ensures n <= |full| ==> (head + full + "\n")[..|head| + n] == head + full[..n]
  {
  }

  // A record's line reads back, cut or not, if and only if the event has a name the reader
  // accepts and no field overrides a part of the envelope.
  lemma {:induction false} LineReadsBack(r: Record)
    requires Regular(r) && |HeadText(r)| <= BUFFER_SIZE - 2 && Plain(r.fields) && '\r' !in r.fields
    ensures ReadRecord(Line(r)) == Some(ReadingOf(r)) <==> EventName(r.event) && Harmless(r, Tail(r))
    ensures Harmless(r, Tail(r)) && !EventName(r.event) ==> ReadRecord(Line(r)) == None
  {
    var tail := Tail(r);
    EnvelopeReadsBack(r, tail);
    LastOfLine(r);
    EndIsTaken(HeadText(r) + tail);
    hide HeadText, ReadLine, Tail, Harmless, EventName, ReadingOf, WithoutEnd;
  }

  lemma {:induction false} LastOfLine(r: Record)
    requires Regular(r) && |HeadText(r)| <= BUFFER_SIZE - 2 && Plain(r.fields) && '\r' !in r.fields
    ensures var text := HeadText(r) + Tail(r); text != "" && text[|text| - 1] != '\r' && text[|text| - 1] != '\n'
  {
    LastOfHead(r);
    LastOfTail(r);
    hide *;
  }

  lemma {:induction false} LastOfTail(r: Record)
    requires |HeadText(r)| <= BUFFER_SIZE - 2 && Plain(r.fields) && '\r' !in r.fields
    ensures var tail := Tail(r); tail != "" ==> tail[|tail| - 1] != '\r' && tail[|tail| - 1] != '\n'
  {
    hide HeadText, Line;
    var tail := Tail(r);
    if tail != "" {
      assert tail <= " " + r.fields;
      assert tail[|tail| - 1] == (" " + r.fields)[|tail| - 1];
    }
  }

  lemma {:induction false} LastOfHead(r: Record)
    requires Regular(r)
    ensures var head := HeadText(r); head != "" && head[|head| - 1] != '\r' && head[|head| - 1] != '\n'
  {
    HeadIsWritten(r);
    var rest := " event=" + r.event;
    assert Subject(r) == rest + (if r.fields == "" then "" else " " + r.fields);
    hide Hex, Decimal, LevelName, HeadText;
    var last := r.event[|r.event| - 1];
    assert TokenSafe(last);
    var front := Envelope(r) + Position(r) + rest;
    assert Body(r) == front + (if r.fields == "" then "" else " " + r.fields);
    assert |HeadText(r)| == |front|;
    assert HeadText(r) == front by { assert Body(r)[..|front|] == front; }
    assert front[|front| - 1] == last;
  }

  // A field that overrides the number: the line is counted under another one.
  lemma {:induction false} FieldOverridesNumber(r: Record)
    requires Regular(r) && EventName(r.event) && r.fields == "seq=7" && r.sequence != 7
    requires |HeadText(r)| <= BUFFER_SIZE - 100
    ensures ReadRecord(Line(r)) == Some(ReadingOf(r).(sequence := Some(7)))
  {
    hide HeadText, ReadLine, Tail, WithoutEnd;
    var tail := " seq=7";
    assert Tail(r) == tail by { TailIs(r); }
    LastOfLine(r);
    EndIsTaken(HeadText(r) + tail);
    OverriddenIs(r);
  }

  lemma {:induction false} TailIs(r: Record)
    requires |HeadText(r)| + |r.fields| + 2 < BUFFER_SIZE
    ensures Tail(r) == if r.fields == "" then "" else " " + r.fields
  {
    hide HeadText;
  }

  lemma {:induction false} OverriddenIs(r: Record)
    requires Regular(r) && EventName(r.event)
    ensures ReadLine(HeadText(r) + " seq=7") == Some(ReadingOf(r).(sequence := Some(7)))
  {
    var tail := " seq=7";
    HexIsOrdinary(r.session);
    LevelReadsBack(r.level);
    OverrideIsRead();
    hide Value, Ordinary, Hex, Decimal, LevelName, LevelOf, HeadText, EventName, SessionId, Sequence, Regular;
    HeadValue(r, tail, 1);
    HeadValue(r, tail, 2);
    HeadValue(r, tail, 3);
    HeadValue(r, tail, 4);
    HeadValue(r, tail, 5);
  }

  lemma {:induction false} OverrideIsRead()
    ensures Value(" seq=7", "seq") == Some("7") && Sequence(Some("7")) == Some(7)
    ensures forall key | key != "seq" :: Value(" seq=7", key) == None
  {
    DecimalIsOrdinary(7);
    assert Decimal(7) == "7";
    JoinedValue(["seq"], ["7"]);
    assert Joined(PairsOf(["seq"], ["7"])) == " seq=7" by {
      JoinedCons("seq=7", []);
      assert PairsOf(["seq"], ["7"])[0] == "seq" + "=" + "7" == "seq=7";
      assert PairsOf(["seq"], ["7"]) == ["seq=7"] + [];
    }
  }

  lemma {:induction false} JoinedTokens(words: seq<string>, quoting: bool)
    requires AllWords(words)
    ensures Tokens(Joined(words), quoting) == Some(words)
  {
    if words != [] {
      var rest := words[0] + Joined(words[1..]);
      WordsThenTail(words[0], words[1..], "", quoting);
      NoTokens(quoting);
      assert [words[0]] + words[1..] + [] == words && rest + "" == rest;
      assert Joined(words) == " " + rest;
      RunConcat(START, " ", rest, quoting);
      BlankEnds([], words[0], quoting);
    }
  }

  // Fields that are pairs of plain values.
  lemma {:induction false} JoinedValue(names: seq<string>, values: seq<string>)
    requires GoodPairs(names, values)
    ensures var tail := Joined(PairsOf(names, values));
            && (forall i | 0 <= i < |names| :: Value(tail, names[i]) == Some(values[i]))
            && (forall key | key !in names :: Value(tail, key) == None)
  {
    PairsAreWords(names, values);
    JoinedTokens(PairsOf(names, values), true);
    hide Tokens, Last, Joined, PairsOf, GoodPairs, AllWords, FieldName, Ordinary;
    forall key: string
      ensures forall i | 0 <= i < |names| && names[i] == key ::
              Value(Joined(PairsOf(names, values)), key) == Some(values[i])
      ensures key !in names ==> Value(Joined(PairsOf(names, values)), key) == None
    {
      LastOfPairs(names, values, key, false);
    }
  }

  // Fields that are pairs under names of their own read back, and override nothing.
  lemma {:induction false} OwnNamesAreHarmless(r: Record, names: seq<string>, values: seq<string>)
    requires GoodPairs(names, values) && forall i | 0 <= i < |names| :: names[i] !in HEAD_NAMES
    ensures Harmless(r, Joined(PairsOf(names, values)))
  {
    JoinedValue(names, values);
    hide Value, Joined, PairsOf, GoodPairs, Sequence;
    assert forall key | key in HEAD_NAMES :: key !in names;
    assert HEAD_NAMES[1] in HEAD_NAMES && HEAD_NAMES[2] in HEAD_NAMES && HEAD_NAMES[3] in HEAD_NAMES;
    assert HEAD_NAMES[4] in HEAD_NAMES && HEAD_NAMES[5] in HEAD_NAMES;
  }

  const END_NAMES: seq<string> := ["reason", "duration_ms", "records", "warnings", "errors", "legacy_suppressed"]

  function EndValues(reason: string, duration: nat, records: nat,
                     warnings: nat, errors: nat, suppressed: nat): seq<string>
  {
    [reason, Decimal(duration), Decimal(records), Decimal(warnings), Decimal(errors), Decimal(suppressed)]
  }

  lemma {:induction false} EndNamesAreNames()
    ensures forall i | 0 <= i < 6 :: FieldName(END_NAMES[i]) && END_NAMES[i] !in HEAD_NAMES
    ensures forall i, j | 0 <= i < j < 6 :: END_NAMES[i] != END_NAMES[j]
  {
  }

  lemma {:induction false} EndIsGood(reason: string, duration: nat,
                                     records: nat, warnings: nat, errors: nat, suppressed: nat)
    requires reason != "" && Ordinary(reason)
    ensures GoodPairs(END_NAMES, EndValues(reason, duration, records, warnings, errors, suppressed))
  {
    EndNamesAreNames();
    DecimalIsOrdinary(duration);
    DecimalIsOrdinary(records);
    DecimalIsOrdinary(warnings);
    DecimalIsOrdinary(errors);
    DecimalIsOrdinary(suppressed);
    hide Ordinary, FieldName, Decimal, Sequence;
  }

  lemma {:induction false} EndIsWritten(reason: string, duration: nat,
                                        records: nat, warnings: nat, errors: nat, suppressed: nat)
    ensures " " + EndFields(reason, duration, records, warnings, errors, suppressed) ==
            Joined(PairsOf(END_NAMES, EndValues(reason, duration, records, warnings, errors, suppressed)))
    ensures EndFields(reason, duration, records, warnings, errors, suppressed) != ""
  {
    var a, b, c, d, e := Decimal(duration), Decimal(records), Decimal(warnings), Decimal(errors), Decimal(suppressed);
    var words := PairsOf(END_NAMES, EndValues(reason, duration, records, warnings, errors, suppressed));
    var rest := ["duration_ms" + "=" + a, "records" + "=" + b, "warnings" + "=" + c, "errors" + "=" + d,
                 "legacy_suppressed" + "=" + e];
    assert words == ["reason" + "=" + reason] + rest;
    JoinedCons("reason" + "=" + reason, rest);
    JoinedSix(rest[0], rest[1], rest[2], rest[3], rest[4]);
    EndInParts(reason, a, b, c, d, e);
    hide Decimal, Joined;
  }

  lemma {:induction false} EndInParts(reason: string, a: string, b: string, c: string, d: string, e: string)
    ensures " " + ("reason=" + reason + " duration_ms=" + a + " records=" + b
                   + " warnings=" + c + " errors=" + d + " legacy_suppressed=" + e)
            == " " + ("reason" + "=" + reason)
               + (" " + ("duration_ms" + "=" + a) + (" " + ("records" + "=" + b) + (" " + ("warnings" + "=" + c)
               + (" " + ("errors" + "=" + d) + (" " + ("legacy_suppressed" + "=" + e))))))
  {
    var first := "reason=" + reason;
    var second := first + " duration_ms=" + a;
    var third := second + " records=" + b;
    var fourth := third + " warnings=" + c;
    var fifth := fourth + " errors=" + d;
    OnePart(first, "duration_ms", " duration_ms=", a);
    OnePart(second, "records", " records=", b);
    OnePart(third, "warnings", " warnings=", c);
    OnePart(fourth, "errors", " errors=", d);
    OnePart(fifth, "legacy_suppressed", " legacy_suppressed=", e);
    assert "reason=" == "reason" + "=";
    SixParts("reason" + "=" + reason, " " + ("duration_ms" + "=" + a), " " + ("records" + "=" + b),
             " " + ("warnings" + "=" + c), " " + ("errors" + "=" + d), " " + ("legacy_suppressed" + "=" + e));
  }

  lemma {:induction false} OnePart(front: string, name: string, sign: string, value: string)
    requires sign == " " + name + "="
    ensures front + sign + value == front + (" " + (name + "=" + value))
  {
    Sequences.Regroup(front, sign, value);
    assert sign + value == " " + (name + "=" + value);
  }

  lemma {:induction false} SixParts(a: string, b: string, c: string, d: string, e: string, f: string)
    ensures " " + (a + b + c + d + e + f) == " " + a + (b + (c + (d + (e + f))))
  {
    Sequences.Regroup(a + b + c + d, e, f);
    Sequences.Regroup(a + b + c, d, e + f);
    Sequences.Regroup(a + b, c, d + (e + f));
    Sequences.Regroup(a, b, c + (d + (e + f)));
    Sequences.Regroup(" ", a, b + (c + (d + (e + f))));
  }

  lemma {:induction false} JoinedLast(words: seq<string>)
    requires words != [] && AllWords(words)
    ensures var s := Joined(words); s != "" && s[|s| - 1] != '\r' && s[|s| - 1] != '\n'
  {
    if |words| > 1 {
      JoinedLast(words[1..]);
    } else {
      assert Joined(words[1..]) == "";
      assert Joined(words) == " " + words[0];
    }
  }

  lemma {:induction false} EndEventIsName()
    ensures EventName(EndEvent())
  {
  }

  lemma {:induction false} TailValue(r: Record, tail: string, key: string)
    requires Regular(r) && (tail == "" || tail[0] == ' ') && key !in HEAD_NAMES
    ensures Value(HeadText(r) + tail, key) == Value(tail, key)
  {
    HeadIsGood(r);
    hide Value, Ordinary, FieldName, HeadValues, Joined, AllWords;
    ValueBehind(HEAD_NAMES, HeadValues(r), tail, key);
  }

  lemma {:induction false} EndTail(r: Record, reason: string, duration: nat, records: nat, warnings: nat,
                                   errors: nat, suppressed: nat)
    requires reason != "" && Ordinary(reason)
    requires r.fields == EndFields(reason, duration, records, warnings, errors, suppressed)
    requires |HeadText(r)| + |r.fields| + 2 < BUFFER_SIZE
    ensures var values := EndValues(reason, duration, records, warnings, errors, suppressed);
            && GoodPairs(END_NAMES, values) && Tail(r) == Joined(PairsOf(END_NAMES, values))
            && WithoutEnd(Line(r)) == HeadText(r) + Tail(r)
  {
    hide HeadText, Tail, WithoutEnd, EndFields, Joined, PairsOf,
         GoodPairs, AllWords, Ordinary, Line, EndValues, FieldName;
    var values := EndValues(reason, duration, records, warnings, errors, suppressed);
    EndIsGood(reason, duration, records, warnings, errors, suppressed);
    EndIsWritten(reason, duration, records, warnings, errors, suppressed);
    PairsAreWords(END_NAMES, values);
    assert |END_NAMES| == |values| by { GoodLength(END_NAMES, values); }
    JoinedLast(PairsOf(END_NAMES, values));
    TailIs(r);
    EndIsTaken(HeadText(r) + Tail(r));
  }

  lemma {:induction false} GoodLength(names: seq<string>, values: seq<string>)
    requires GoodPairs(names, values)
    ensures |names| == |values|
  {
  }

  // The end record reads back whole: the envelope, and each of its fields.
  lemma {:induction false} EndLineReadsBack(r: Record, reason: string, duration: nat, records: nat, warnings: nat,
                                            errors: nat, suppressed: nat)
    requires Regular(r) && r.event == EndEvent() && reason != "" && Ordinary(reason)
    requires r.fields == EndFields(reason, duration, records, warnings, errors, suppressed)
    requires |HeadText(r)| + |r.fields| + 2 < BUFFER_SIZE
    ensures ReadRecord(Line(r)) == Some(ReadingOf(r))
    ensures forall i | 0 <= i < 6 ::
              Value(WithoutEnd(Line(r)), END_NAMES[i])
              == Some(EndValues(reason, duration, records, warnings, errors, suppressed)[i])
  {
    hide HeadText, ReadLine, Tail, WithoutEnd, EndFields, EndEvent,
         EndValues, Value, Ordinary, Joined, PairsOf, GoodPairs,
         Harmless, Regular, EventName, FieldName, Line, ReadingOf;
    var values := EndValues(reason, duration, records, warnings, errors, suppressed);
    EndTail(r, reason, duration, records, warnings, errors, suppressed);
    EndNamesAreNames();
    EndEventIsName();
    OwnNamesAreHarmless(r, END_NAMES, values);
    EnvelopeReadsBack(r, Tail(r));
    JoinedValue(END_NAMES, values);
    forall i | 0 <= i < 6 ensures Value(HeadText(r) + Tail(r), END_NAMES[i]) == Value(Tail(r), END_NAMES[i]) {
      TailValue(r, Tail(r), END_NAMES[i]);
    }
  }

  // ----- a whole file -----

  // The records that the reader finds on these lines.
  function ReadAll(lines: seq<string>): seq<Reading> {
    if lines == [] then []
    else
      var last := ReadRecord(lines[|lines| - 1]);
      ReadAll(lines[..|lines| - 1]) + (if last.Some? then [last.value] else [])
  }

  function ReadingsOf(records: seq<Record>): seq<Reading> {
    if records == [] then []
    else
      var last := records[|records| - 1];
      ReadingsOf(records[..|records| - 1]) + (if EventName(last.event) then [ReadingOf(last)] else [])
  }

  ghost predicate ReadsBack(r: Record) {
    && Regular(r) && |HeadText(r)| <= BUFFER_SIZE - 2 && PlainRecord(r) && '\r' !in r.fields
    && Harmless(r, Tail(r))
  }

  // Where no field overrides an envelope, the reader finds exactly the records whose events
  // have a name it accepts, in order.
  lemma {:induction false} FileReadsBack(records: seq<Record>)
    requires forall i | 0 <= i < |records| :: ReadsBack(records[i])
    ensures ReadAll(Lines(Text(records))) == ReadingsOf(records)
  {
    OneLineEach(records) by {
      assert forall i | 0 <= i < |records| :: ReadsBack(records[i]) && PlainRecord(records[i]);
    }
    WrittenReadsBack(records);
  }

  lemma {:induction false} WrittenReadsBack(records: seq<Record>)
    requires forall i | 0 <= i < |records| :: ReadsBack(records[i])
    ensures ReadAll(Written(records)) == ReadingsOf(records)
  {
    if records != [] {
      var front, last := records[..|records| - 1], records[|records| - 1];
      assert ReadsBack(last);
      LineReadsBack(last);
      hide ReadRecord, Line, ReadsBack, EventName, ReadingOf;
      WrittenReadsBack(front);
      assert Written(records)[..|Written(records)| - 1] == Written(front);
    }
  }

  // They are those that the account of the capture is made of.
  lemma {:induction false} ReadingsAreKept(records: seq<Record>)
    ensures var readings, kept := ReadingsOf(records), LogSummary.Kept(records, name => EventName(name));
            && |readings| == |kept|
            && forall i | 0 <= i < |readings| ::
                 && readings[i].sequence.Some? && kept[i].sequence.Some?
                 && readings[i].sequence.value == kept[i].sequence.value
                 && readings[i].level == kept[i].level && readings[i].event == kept[i].event
  {
    if records != [] {
      hide EventName, Hex;
      ReadingsAreKept(records[..|records| - 1]);
    }
  }
}
