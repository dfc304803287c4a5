/** One record of the support log: how its text is made safe and that it always is
    exactly one line of the file. */
module SupportRecords {
  import opened HostText
  import opened Numerals
  import Sequences

  datatype Level = Info | Warning | Error

  datatype Record = Record(stamp: string, session: nat, sequence: nat, level: Level, event: string, fields: string)

  const BUFFER_SIZE: nat := 8192
  const EVENT_SIZE: nat := 96

  // ----- text in C -----

  // The string that a buffer holds.
  function CString(buffer: seq<char>): (s: string)
    ensures |s| <= |buffer| && s == buffer[..|s|] && '\0' !in s
    ensures |s| < |buffer| ==> buffer[|s|] == '\0'
  {
    if buffer == [] || buffer[0] == '\0' then "" else [buffer[0]] + CString(buffer[1..])
  }

  lemma {:induction false} CStringIs(buffer: seq<char>, n: nat)
    requires n < |buffer| && buffer[n] == '\0' && forall i | 0 <= i < n :: buffer[i] != '\0'
    ensures CString(buffer) == buffer[..n]
  {
    if n > 0 { CStringIs(buffer[1..], n - 1); }
  }

  predicate Alphanumeric(c: char) {
    IsDigit(c) || 'a' <= c <= 'z' || 'A' <= c <= 'Z'
  }

  predicate TokenSafe(c: char) {
    Alphanumeric(c) || c == '.' || c == '_' || c == '-'
  }

  function TokenChar(c: char): char {
    if TokenSafe(c) then c else '_'
  }

  function Map(f: char -> char, s: string): (r: string)
    ensures |r| == |s| && forall i | 0 <= i < |s| :: r[i] == f(s[i])
  {
    seq(|s|, i requires 0 <= i < |s| => f(s[i]))
  }

  function Min(a: nat, b: nat): nat { if a < b then a else b }

  // safe_token
  function Token(input: Option<string>, size: nat): (t: string)
    requires size > 0
    ensures |t| < size && forall i | 0 <= i < |t| :: TokenSafe(t[i])
    ensures size > 1 ==> t != ""
  {
    var text := if input.Some? then input.value else "unknown";
    var kept := Map(TokenChar, text[..Min(|text|, size - 1)]);
    if kept == "" && size > 1 then "unknown"[..Min(7, size - 1)] else kept
  }

  // A name that is safe already, and short enough, is kept as it is.
  lemma {:induction false} SafeNamesAreKept(name: string, size: nat)
    requires 0 < |name| < size && forall i | 0 <= i < |name| :: TokenSafe(name[i])
    ensures Token(Some(name), size) == name
  {
    assert name[..|name|] == name;
  }

  // Of any name the front that fits is kept, with an underscore for every character that is
  // not a letter, a digit, a dot, an underscore or a hyphen.
  lemma {:induction false} TokenKeepsTheFront(name: string, size: nat, i: nat)
    requires name != "" && size > 1
    ensures var t := Token(Some(name), size);
            && |t| == (if |name| < size then |name| else size - 1)
            && (i < |t| ==>
                  t[i] == if 'a' <= name[i] <= 'z' || 'A' <= name[i] <= 'Z' || '0' <= name[i] <= '9' || name[i] in "._-"
                          then name[i] else '_')
  {
    var text := name[..Min(|name|, size - 1)];
    assert Map(TokenChar, text) != "";
    assert "._-"[0] == '.' && "._-"[1] == '_' && "._-"[2] == '-';
  }

  // The part of safe_token for a name without characters.
  method PutUnknown(output: array<char>)
    requires output.Length > 1
    modifies output
    ensures CString(output[..]) == "unknown"[..Min(7, output.Length - 1)]
  {
    var fallback := "unknown\0";
    var size := if output.Length > 8 then 8 else output.Length;
    forall i | 0 <= i < size {
      output[i] := fallback[i];
    }
    var end := if output.Length > 8 then 7 else output.Length - 1;
    output[end] := '\0';
    assert forall i | 0 <= i < end :: output[i] == "unknown"[i];
    CStringIs(output[..], end);
    assert output[..][..end] == "unknown"[..end];
  }

  method SafeToken(output: array<char>, input: Option<string>)
    requires input.Some? ==> '\0' !in input.value
    modifies output
    ensures output.Length > 0 ==> CString(output[..]) == Token(input, output.Length)
  {
    if output.Length == 0 { return; }
    var written := 0;
    var text := if input.Some? then input.value else "unknown";
    while written < |text| && written + 1 < output.Length
      invariant written <= |text| && written < output.Length
      invariant forall i | 0 <= i < written :: output[i] == TokenChar(text[i])
    {
      output[written] := TokenChar(text[written]);
      written := written + 1;
    }
    assert written == Min(|text|, output.Length - 1);
    hide CString;
    if written == 0 && output.Length > 1 {
      PutUnknown(output);
      return;
    }
    output[written] := '\0';
    CStringIs(output[..], written);
    assert output[..][..written] == Map(TokenChar, text[..written]);
  }

  predicate Printable(c: char) {
    ' ' <= c <= '~'
  }

  function FieldChar(c: char): char {
    if c == '"' || c == '\\' || !Printable(c) then '_' else c
  }

  function Sanitized(fields: string): (s: string) {
    Map(FieldChar, fields)
  }

  // Printable ASCII but for the quotation mark and the backslash stays as it is; anything
  // else becomes an underscore.
  lemma {:induction false} SafeFieldsAreKept(fields: string, i: nat)
    requires i < |fields|
    ensures |Sanitized(fields)| == |fields|
    ensures 0x20 <= fields[i] as int <= 0x7E && fields[i] as int !in {0x22, 0x5C} ==> Sanitized(fields)[i] == fields[i]
    ensures !(0x20 <= fields[i] as int <= 0x7E && fields[i] as int !in {0x22, 0x5C}) ==> Sanitized(fields)[i] == '_'
  {
    var s := Sanitized(fields);
    assert s[i] == FieldChar(fields[i]);
  }

  // sanitize_fields
  method SanitizeFields(fields: array<char>)
    requires exists n | 0 <= n < fields.Length :: fields[n] == '\0'
    modifies fields
    ensures CString(fields[..]) == Sanitized(old(CString(fields[..])))
    ensures forall i | |old(CString(fields[..]))| <= i < fields.Length :: fields[i] == old(fields[i])
  {
    ghost var before := fields[..];
    ghost var text := CString(before);
    assert |text| < fields.Length && before[|text|] == '\0';
    assert forall i | 0 <= i < |text| :: text[i] in text && before[i] == text[i] != '\0';
    var n := 0;
    while fields[n] != '\0'
      invariant n <= |text|
      invariant forall i | 0 <= i < n :: fields[i] == FieldChar(before[i])
      invariant forall i | n <= i < fields.Length :: fields[i] == before[i]
      decreases |text| - n
    {
      assert n < |text|;
      var ch := fields[n];
      if ch == '\r' || ch == '\n' || ch == '\t' || ch == '"' || ch == '\\' || !Printable(ch) {
        fields[n] := '_';
      }
      n := n + 1;
    }
    assert n == |text|;
    CStringIs(fields[..], n);
    assert fields[..][..n] == Sanitized(text);
  }

  // ----- one line -----

  predicate Plain(s: string) { '\n' !in s }

  lemma {:induction false} SanitizedIsPlain(fields: string)
    ensures Plain(Sanitized(fields)) && '\t' !in Sanitized(fields) && '"' !in Sanitized(fields)
  {
    var s := Sanitized(fields);
    forall i | 0 <= i < |s| ensures Printable(s[i]) && s[i] != '"' {
    }
  }

  // Text that can stand in a record without breaking its line.
  predicate PlainRecord(r: Record) {
    Plain(r.stamp) && Plain(r.event) && Plain(r.fields)
  }

  function LevelName(level: Level): string {
    match level
    case Info => "info"
    case Warning => "warn"
    case Error => "error"
  }

  function Envelope(r: Record): string {
    "ts=" + r.stamp + " schema=vita-support-v1 session=" + Hex(r.session, 16)
  }

  function Position(r: Record): string {
    " seq=" + Decimal(r.sequence) + " level=" + LevelName(r.level)
  }

  function Subject(r: Record): string {
    " event=" + r.event + (if r.fields == "" then "" else " " + r.fields)
  }

  function Body(r: Record): string {
    Envelope(r) + Position(r) + Subject(r)
  }

  // What is handed to fwrite for a record; a record that does not fit is cut.
  function Line(r: Record): string {
    var full := Body(r) + "\n";
    if |full| >= BUFFER_SIZE then full[..BUFFER_SIZE - 2] + "\n" else full
  }

  predicate IsLine(s: string) {
    s != "" && s[|s| - 1] == '\n' && Plain(s[..|s| - 1])
  }

  lemma {:induction false} EnvelopeIsPlain(r: Record)
    requires PlainRecord(r)
    ensures Plain(Envelope(r)) && Plain(Subject(r))
  {
    var hex := Hex(r.session, 16);
    assert Plain(hex);
  }

  lemma {:induction false} PositionIsPlain(r: Record)
    ensures Plain(Position(r))
  {
    var number := Decimal(r.sequence);
    assert Plain(number);
  }

  lemma {:induction false} BodyIsPlain(r: Record)
    requires PlainRecord(r)
    ensures Plain(Body(r))
  {
    EnvelopeIsPlain(r);
    PositionIsPlain(r);
    hide Envelope, Position, Subject;
  }

  lemma {:induction false} RecordsAreLines(r: Record)
    requires PlainRecord(r)
    ensures IsLine(Line(r))
  {
    BodyIsPlain(r);
    hide Body;
    var full := Body(r) + "\n";
    assert full[..|full| - 1] == Body(r);
    if |full| >= BUFFER_SIZE {
      var cut := full[..BUFFER_SIZE - 2];
      assert cut == Body(r)[..BUFFER_SIZE - 2];
      assert (cut + "\n")[..BUFFER_SIZE - 2] == cut;
    }
  }

  function Text(records: seq<Record>): string {
    if records == [] then "" else Text(records[..|records| - 1]) + Line(records[|records| - 1])
  }

  // The lines of a file, each with its end.
  function Lines(text: string): seq<string> {
    if text == "" then []
    else
      var n := LineEnd(text);
      [text[..n]] + Lines(text[n..])
  }

  function LineEnd(text: string): (n: nat)
    requires text != ""
    ensures 0 < n <= |text|
  {
    if text[0] == '\n' || |text| == 1 then 1 else 1 + LineEnd(text[1..])
  }

  lemma {:induction false} LineEndIs(line: string, rest: string)
    requires IsLine(line)
    ensures LineEnd(line + rest) == |line|
  {
    if |line| > 1 {
      assert line[0] in line[..|line| - 1];
      assert line[1..][..|line| - 2] == line[..|line| - 1][1..];
      LineEndIs(line[1..], rest);
      assert (line + rest)[1..] == line[1..] + rest;
    }
  }

  lemma {:induction false} LinesCons(line: string, rest: string)
    requires IsLine(line)
    ensures Lines(line + rest) == [line] + Lines(rest)
  {
    LineEndIs(line, rest);
    var text := line + rest;
    assert text[..|line|] == line && text[|line|..] == rest;
  }

  // The lines that a list of records is written as.
  function Written(records: seq<Record>): seq<string> {
    if records == [] then [] else Written(records[..|records| - 1]) + [Line(records[|records| - 1])]
  }

  lemma {:induction false} Snoc(records: seq<Record>, r: Record)
    ensures Text(records + [r]) == Text(records) + Line(r)
    ensures Written(records + [r]) == Written(records) + [Line(r)]
  {
    hide Line;
    assert (records + [r])[..|records|] == records;
  }

  lemma {:induction false} LinesOfStep(records: seq<Record>, r: Record, rest: string)
    requires PlainRecord(r)
    requires Lines(Text(records) + (Line(r) + rest)) == Written(records) + Lines(Line(r) + rest)
    ensures Lines(Text(records + [r]) + rest) == Written(records + [r]) + Lines(rest)
  {
    RecordsAreLines(r);
    hide *;
    Snoc(records, r);
    LinesCons(Line(r), rest);
    Sequences.Regroup(Text(records), Line(r), rest);
    Sequences.Regroup(Written(records), [Line(r)], Lines(rest));
  }

  lemma {:induction false} LinesOfNothing(rest: string)
    ensures Lines(Text([]) + rest) == Written([]) + Lines(rest)
  {
    assert Text([]) + rest == rest;
  }

  lemma {:induction false} LinesOfText(records: seq<Record>, rest: string)
    requires forall i | 0 <= i < |records| :: PlainRecord(records[i])
    ensures Lines(Text(records) + rest) == Written(records) + Lines(rest)
  {
    hide *;
    if records == [] {
      LinesOfNothing(rest);
    } else {
      var front, r := records[..|records| - 1], records[|records| - 1];
      LinesOfText(front, Line(r) + rest);
      LinesOfStep(front, r, rest);
      assert front + [r] == records;
    }
  }

  // The file has one line for every record, in order.
  lemma {:induction false} OneLineEach(records: seq<Record>)
    requires forall i | 0 <= i < |records| :: PlainRecord(records[i])
    ensures Lines(Text(records)) == Written(records)
  {
    LinesOfText(records, "");
    assert Text(records) + "" == Text(records);
    assert Lines("") == [];
  }
}
