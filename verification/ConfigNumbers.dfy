/** How the client writes numbers and flags to its settings file and reads them back. */
module ConfigNumbers {
  import opened HostText
  import opened Numerals

  // ----- numbers in the file -----

  function UpperHexDigit(d: nat): char
    requires d < 16
  {
    if d < 10 then '0' + d as char else 'A' + (d - 10) as char
  }

  // %X
  function UpperHex(n: nat): string {
    if n < 16 then [UpperHexDigit(n)] else UpperHex(n / 16) + [UpperHexDigit(n % 16)]
  }

  // The value of a digit, or none.
  function HexValue(c: char): Option<nat> {
    if '0' <= c <= '9' then Some((c - '0') as nat)
    else if 'A' <= c <= 'F' then Some(10 + (c - 'A') as nat)
    else if 'a' <= c <= 'f' then Some(10 + (c - 'a') as nat)
    else None
  }

  // The number that the digits of a base at the front of a text stand for.
  function Leading(text: string, base: nat, so: nat): nat {
    if text == "" || HexValue(text[0]) == None || HexValue(text[0]).value >= base then so
    else Leading(text[1..], base, Shifted(so, base, HexValue(text[0]).value))
  }

  function Shifted(n: nat, base: nat, d: nat): nat { n * base + d }

  // What isspace skips.
  predicate IsSpace(c: char) {
    c == ' ' || '\t' <= c <= '\r'
  }

  function SkipSpace(text: string): string {
    if text != "" && IsSpace(text[0]) then SkipSpace(text[1..]) else text
  }

  // A text without its sign.
  function Unsigned(text: string): string {
    if text != "" && (text[0] == '-' || text[0] == '+') then text[1..] else text
  }

  predicate Negative(text: string) {
    text != "" && text[0] == '-'
  }

  // atoi
  function Atoi(text: string): int {
    var t := SkipSpace(text);
    var n := Leading(Unsigned(t), 10, 0);
    if Negative(t) then -(n as int) else n
  }

  const LONG_MAX: nat := 0x7FFF_FFFF
  const U32: nat := 0x1_0000_0000

  // A text without the prefix of a hexadecimal number.
  function WithoutPrefix(text: string): string {
    if |text| >= 3 && text[0] == '0' && (text[1] == 'x' || text[1] == 'X') && HexValue(text[2]).Some? then text[2..]
    else text
  }

  // strtol with base 16 and a 32-bit long, kept in an unsigned field
  function Strtol16(text: string): nat {
    var t := SkipSpace(text);
    var n := Leading(WithoutPrefix(Unsigned(t)), 16, 0);
    if Negative(t) then
      if n > LONG_MAX then LONG_MAX + 1 else (U32 - n) % U32
    else
      if n > LONG_MAX then LONG_MAX else n
  }

  // Blanks in front of a number do not matter.
  lemma {:induction false} BlanksAreSkipped(blanks: string, text: string)
    requires forall i | 0 <= i < |blanks| :: blanks[i] in " \t\n\r" || blanks[i] as int in {11, 12}
    ensures SkipSpace(blanks + text) == SkipSpace(text)
    ensures Atoi(blanks + text) == Atoi(text) && Strtol16(blanks + text) == Strtol16(text)
  {
    hide Leading, WithoutPrefix, Unsigned, Negative;
    if blanks == "" {
      assert blanks + text == text;
    } else {
      BlankIsSpace(blanks[0]);
      assert (blanks + text)[1..] == blanks[1..] + text;
      BlanksAreSkipped(blanks[1..], text);
    }
  }

  lemma {:induction false} BlankIsSpace(c: char)
    requires c in " \t\n\r" || c as int in {11, 12}
    ensures IsSpace(c)
  {
    assert " \t\n\r"[0] == ' ' && " \t\n\r"[1] == '\t' && " \t\n\r"[2] == '\n' && " \t\n\r"[3] == '\r';
  }

  // Whatever the text: the number of its digits with its sign, moved into the range of a
  // 32-bit long, and that modulo 2^32.
  lemma {:induction false} CodesSaturate(text: string)
    ensures var t := SkipSpace(text);
            var n := Leading(WithoutPrefix(Unsigned(t)), 16, 0) as int;
            var v := if Negative(t) then -n else n;
            var least, greatest := -0x8000_0000, 0x7FFF_FFFF;
            Strtol16(text) == (if v < least then least else if v > greatest then greatest else v) % 0x1_0000_0000
  {
    hide SkipSpace, Leading, WithoutPrefix, Unsigned, Negative;
  }

  // Whether a character is a digit of a base, and its value if it is.
  predicate HasValue(c: char, base: nat, d: nat) {
    HexValue(c) == Some(d) && d < base
  }

  lemma {:induction false} LeadingSnoc(text: string, c: char, base: nat, so: nat, d: nat)
    requires forall i | 0 <= i < |text| :: HexValue(text[i]).Some? && HexValue(text[i]).value < base
    requires HasValue(c, base, d)
    ensures Leading(text + [c], base, so) == Shifted(Leading(text, base, so), base, d)
    decreases |text|
  {
    hide Shifted, HexValue;
    if text == "" {
      assert text + [c] == [c] && [c][1..] == "";
    } else {
      LeadingSnoc(text[1..], c, base, Shifted(so, base, HexValue(text[0]).value), d);
      assert (text + [c])[1..] == text[1..] + [c];
    }
  }

  lemma {:induction false} DigitHasValue(d: nat)
    requires d < 10
    ensures HasValue(Digit(d), 10, d) && Digit(d) != '-'
  {
  }

  lemma {:induction false} HexDigitHasValue(d: nat)
    requires d < 16
    ensures HasValue(UpperHexDigit(d), 16, d) && UpperHexDigit(d) != '-'
  {
  }

  lemma {:induction false} DecimalLeads(n: nat)
    ensures var s := Decimal(n);
            && (forall i | 0 <= i < |s| :: HexValue(s[i]).Some? && HexValue(s[i]).value < 10)
            && s != "" && s[0] != '-' && Leading(s, 10, 0) == n
  {
    hide HexValue, Digit, HasValue;
    DigitHasValue(n % 10);
    assert HexValue(Digit(n % 10)) == Some(n % 10) by { HasValueIs(Digit(n % 10), 10, n % 10); }
    if n < 10 {
      LeadingSnoc("", Digit(n), 10, 0, n);
      assert "" + [Digit(n)] == [Digit(n)];
      assert Leading("", 10, 0) == 0;
    } else {
      DecimalLeads(n / 10);
      LeadingSnoc(Decimal(n / 10), Digit(n % 10), 10, 0, n % 10);
    }
  }

  lemma {:induction false} HasValueIs(c: char, base: nat, d: nat)
    requires HasValue(c, base, d)
    ensures HexValue(c) == Some(d) && d < base
  {
  }

  lemma {:induction false} UpperHexLeads(n: nat)
    ensures var s := UpperHex(n);
            && (forall i | 0 <= i < |s| :: HexValue(s[i]).Some? && HexValue(s[i]).value < 16)
            && s != "" && s[0] != '-' && Leading(s, 16, 0) == n
  {
    hide HexValue, UpperHexDigit, HasValue;
    HexDigitHasValue(n % 16);
    HasValueIs(UpperHexDigit(n % 16), 16, n % 16);
    if n < 16 {
      LeadingSnoc("", UpperHexDigit(n), 16, 0, n);
      assert "" + [UpperHexDigit(n)] == [UpperHexDigit(n)];
      assert Leading("", 16, 0) == 0;
    } else {
      UpperHexLeads(n / 16);
      LeadingSnoc(UpperHex(n / 16), UpperHexDigit(n % 16), 16, 0, n % 16);
    }
  }

  // A text that starts with a digit has no spaces, sign or prefix to skip.
  lemma {:induction false} DigitsAreBare(text: string)
    requires text != "" && forall i | 0 <= i < |text| :: HexValue(text[i]).Some?
    ensures SkipSpace(text) == text && Unsigned(text) == text && !Negative(text) && WithoutPrefix(text) == text
  {
    if |text| > 1 { assert HexValue(text[1]).Some?; }
    assert HexValue(text[0]).Some?;
  }

  // A written number is read back.
  lemma {:induction false} IntReadsBack(n: int)
    ensures Atoi(SignedDecimal(n)) == n
  {
    hide HexValue, Leading;
    var digits := Decimal(if n < 0 then -n else n);
    DecimalLeads(if n < 0 then -n else n);
    DigitsAreBare(digits);
    assert ("-" + digits)[1..] == digits;
  }

  // A written key code is read back exactly when it fits 31 bits, and cut otherwise.
  lemma {:induction false} CodeReadsBack(n: nat)
    ensures Strtol16(UpperHex(n)) == if n <= LONG_MAX then n else LONG_MAX
    ensures Strtol16(UpperHex(n)) == n <==> n <= LONG_MAX
  {
    hide HexValue, Leading;
    UpperHexLeads(n);
    DigitsAreBare(UpperHex(n));
  }

  function BoolText(b: bool): string { if b then "true" else "false" }

  function ReadBool(text: string): bool { text == "true" }

  lemma {:induction false} BoolReadsBack(b: bool)
    ensures ReadBool(BoolText(b)) == b
  {
  }
}
