/** JSON values together with one way of writing them down: every tree below is a
    value plus a choice of whitespace and string escapes (RFC 8259, sections 2 to 7),
    and Print is the text that choice produces. */
module JsonText {

  datatype Value =
    | Null
    | True
    | False
    | Num(number: Number)
    | Str(pieces: seq<Piece>)
    | Arr(elements: Elements)
    | Obj(members: Members)

  // The text between '[' and ']'.
  datatype Elements =
    | NoElements(space: string)
    | LastElement(before: string, value: Value, after: string)
    | MoreElements(before: string, value: Value, after: string, rest: Elements)

  // The text between '{' and '}'.
  datatype Members =
    | NoMembers(space: string)
    | LastMember(before: string, name: seq<Piece>, beforeColon: string,
                 afterColon: string, value: Value, after: string)
    | MoreMembers(before: string, name: seq<Piece>, beforeColon: string,
                  afterColon: string, value: Value, after: string, rest: Members)

  // One character of a string, as written (section 7).
  datatype Piece =
    | Plain(c: char)
    | Escape(code: char)
    | Unicode(digits: string)

  // Section 6: [ minus ] int [ frac ] [ exp ].
  datatype Number = Number(minus: bool, whole: string, fraction: string, exponent: Exponent)
  datatype Exponent = NoExponent | Exponent(mark: char, sign: string, digits: string)

  predicate IsSpace(c: char) {
    c == ' ' || c == '\t' || c == '\n' || c == '\r'
  }

  predicate Blank(s: string) {
    forall i | 0 <= i < |s| :: IsSpace(s[i])
  }

  predicate IsDigit(c: char) {
    '0' <= c <= '9'
  }

  predicate AllDigits(s: string) {
    forall i | 0 <= i < |s| :: IsDigit(s[i])
  }

  predicate IsHex(c: char) {
    IsDigit(c) || 'a' <= c <= 'f' || 'A' <= c <= 'F'
  }

  predicate LegalPiece(p: Piece) {
    match p
    case Plain(c) => c >= ' ' && c != '"' && c != '\\'
    case Escape(code) => code in "\"\\/bfnrt"
    case Unicode(digits) => |digits| == 4 && forall i | 0 <= i < 4 :: IsHex(digits[i])
  }

  predicate LegalPieces(ps: seq<Piece>) {
    forall i | 0 <= i < |ps| :: LegalPiece(ps[i])
  }

  predicate LegalNumber(n: Number) {
    && |n.whole| > 0 && AllDigits(n.whole) && (n.whole[0] == '0' ==> |n.whole| == 1)
    && AllDigits(n.fraction)
    && match n.exponent
       case NoExponent => true
       case Exponent(mark, sign, digits) =>
         mark in "eE" && sign in ["", "+", "-"] && |digits| > 0 && AllDigits(digits)
  }

  predicate Legal(v: Value) {
    match v
    case Null => true
    case True => true
    case False => true
    case Num(n) => LegalNumber(n)
    case Str(ps) => LegalPieces(ps)
    case Arr(es) => LegalElements(es)
    case Obj(ms) => LegalMembers(ms)
  }

  predicate LegalElements(es: Elements) {
    match es
    case NoElements(space) => Blank(space)
    case LastElement(b, v, a) => Blank(b) && Legal(v) && Blank(a)
    case MoreElements(b, v, a, rest) =>
      Blank(b) && Legal(v) && Blank(a) && !rest.NoElements? && LegalElements(rest)
  }

  predicate LegalMembers(ms: Members) {
    match ms
    case NoMembers(space) => Blank(space)
    case LastMember(b, n, c, d, v, a) =>
      Blank(b) && LegalPieces(n) && Blank(c) && Blank(d) && Legal(v) && Blank(a)
    case MoreMembers(b, n, c, d, v, a, rest) =>
      && Blank(b) && LegalPieces(n) && Blank(c) && Blank(d) && Legal(v) && Blank(a)
      && !rest.NoMembers? && LegalMembers(rest)
  }

  function PrintPiece(p: Piece): string {
    match p
    case Plain(c) => [c]
    case Escape(code) => ['\\', code]
    case Unicode(digits) => "\\u" + digits
  }

  function PrintPieces(ps: seq<Piece>): string {
    if ps == [] then "" else PrintPiece(ps[0]) + PrintPieces(ps[1..])
  }

  function PrintString(ps: seq<Piece>): string {
    "\"" + (PrintPieces(ps) + "\"")
  }

  function PrintNumber(n: Number): string {
    (if n.minus then "-" else "") + n.whole
    + (if n.fraction == "" then "" else "." + n.fraction)
    + (match n.exponent
       case NoExponent => ""
       case Exponent(mark, sign, digits) => [mark] + sign + digits)
  }

  function Print(v: Value): string {
    match v
    case Null => "null"
    case True => "true"
    case False => "false"
    case Num(n) => PrintNumber(n)
    case Str(ps) => PrintString(ps)
    case Arr(es) => "[" + (PrintElements(es) + "]")
    case Obj(ms) => "{" + (PrintMembers(ms) + "}")
  }

  function PrintElements(es: Elements): string {
    match es
    case NoElements(space) => space
    case LastElement(b, v, a) => b + (Print(v) + a)
    case MoreElements(b, v, a, rest) => b + (Print(v) + (a + ("," + PrintElements(rest))))
  }

  function PrintMembers(ms: Members): string {
    match ms
    case NoMembers(space) => space
    case LastMember(b, n, c, d, v, a) =>
      b + (PrintString(n) + (c + (":" + (d + (Print(v) + a)))))
    case MoreMembers(b, n, c, d, v, a, rest) =>
      b + (PrintString(n) + (c + (":" + (d + (Print(v) + (a + ("," + PrintMembers(rest))))))))
  }
}
