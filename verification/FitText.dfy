/** Fitting one line of text into a buffer and a width, with an ellipsis where it does not
    fit. */
module FitText {
  import opened HostText
  import opened WrapText

  const ELLIPSIS: seq<byte> := [46, 46, 46]

  const SPACE: byte := 32

  function SizeAt(text: seq<byte>, at: nat): (size: nat)
    requires at < |text|
    ensures 1 <= size && at + size <= |text|
  {
    if Complete(text, at) then Announced(text[at]) else 1
  }

  predicate Tail(b: byte) { 0x80 <= b <= 0xBF }

  // A character as section 4 of RFC 3629 writes it.
  predicate IsCharacter(c: seq<byte>) {
    || (|c| == 1 && c[0] <= 0x7F)
    || (|c| == 2 && 0xC2 <= c[0] <= 0xDF && Tail(c[1]))
    || (|c| == 3 && Tail(c[1]) && Tail(c[2])
        && ((c[0] == 0xE0 && c[1] >= 0xA0) || 0xE1 <= c[0] <= 0xEC || (c[0] == 0xED && c[1] <= 0x9F)
            || 0xEE <= c[0] <= 0xEF))
    || (|c| == 4 && Tail(c[1]) && Tail(c[2]) && Tail(c[3])
        && ((c[0] == 0xF0 && c[1] >= 0x90) || 0xF1 <= c[0] <= 0xF3 || (c[0] == 0xF4 && c[1] <= 0x8F)))
  }

  // It is taken for one code point, whatever stands before and behind it.
  lemma {:induction false} CharacterIsOne(before: seq<byte>, c: seq<byte>, after: seq<byte>)
    requires IsCharacter(c)
    ensures SizeAt(before + c + after, |before|) == |c|
  {
    var text, at := before + c + after, |before|;
    assert text[at] == c[0];
    assert forall i | 0 <= i < |c| :: text[at + i] == c[i];
    forall i | at < i < at + |c| ensures Continuation(text[i]) {
      assert text[i] == c[i - at] && (i - at == 1 || i - at == 2 || i - at == 3);
    }
  }

  // And only octets of that form, a lead and its tails, are taken for one of more than one.
  lemma {:induction false} LongOnesAreLedAndTailed(text: seq<byte>, at: nat)
    requires at < |text| && SizeAt(text, at) > 1
    ensures var n := SizeAt(text, at);
            && (n == 2 ==> 0xC0 <= text[at] <= 0xDF) && (n == 3 ==> 0xE0 <= text[at] <= 0xEF)
            && (n == 4 ==> 0xF0 <= text[at] <= 0xF7) && n <= 4
            && forall i | at < i < at + n :: Tail(text[i])
  {
    forall i | at < i < at + SizeAt(text, at) ensures Tail(text[i]) {
      assert Continuation(text[i]);
    }
  }

  // How much of the text is kept in front of the ellipsis: whole code points, as many as
  // leave room for it in the buffer and in the width.
  function KeptLength(text: seq<byte>, at: nat, size: nat, limit: int, width: Width): (n: nat)
    requires at <= |text|
    ensures at <= n <= |text|
    decreases |text| - at
  {
    if at == |text| || at + SizeAt(text, at) + 4 > size || width(text[..at + SizeAt(text, at)]) > limit then at
    else KeptLength(text, at + SizeAt(text, at), size, limit, width)
  }

  function Stripped(s: seq<byte>): (t: seq<byte>)
    ensures t <= s && (t == [] || t[|t| - 1] != SPACE)
    ensures forall i | |t| <= i < |s| :: s[i] == SPACE
  {
    if s != [] && s[|s| - 1] == SPACE then Stripped(s[..|s| - 1]) else s
  }

  // The text that is shown, if any can be.
  function Fitted(text: seq<byte>, size: nat, width: Width, max: int): Option<seq<byte>> {
    if max <= 0 then None
    else if |text| < size && width(text) <= max then Some(text)
    else if width(ELLIPSIS) > max || size < 4 then None
    else Some(Stripped(text[..KeptLength(text, 0, size, max - width(ELLIPSIS), width)]) + ELLIPSIS)
  }

  // The end of a code point, counting from the front of the text.
  predicate Boundary(text: seq<byte>, at: nat, n: nat)
    requires at <= |text|
    decreases |text| - at
  {
    at == n || (at < |text| && Boundary(text, at + SizeAt(text, at), n))
  }

  lemma {:induction false} KeptIsWhole(text: seq<byte>, at: nat, size: nat, limit: int, width: Width)
    requires at <= |text| && at + 4 <= size && (at == 0 || width(text[..at]) <= limit)
    ensures var n := KeptLength(text, at, size, limit, width);
            && Boundary(text, at, n) && n + 4 <= size && (n == 0 || width(text[..n]) <= limit)
    decreases |text| - at
  {
    if at < |text| && at + SizeAt(text, at) + 4 <= size && width(text[..at + SizeAt(text, at)]) <= limit {
      KeptIsWhole(text, at + SizeAt(text, at), size, limit, width);
    }
  }

  // Drawing more text is never narrower, and two texts together are never wider than one
  // after the other.
  ghost predicate Sensible(width: Width) {
    && width([]) == 0
    && (forall s, t :: width(s) <= width(s + t) <= width(s) + width(t))
  }

  // The longest front of the text that ends with a code point and leaves room for the
  // ellipsis, in the buffer and in the width.
  ghost predicate Longest(text: seq<byte>, size: nat, width: Width, max: int, n: nat) {
    && n <= |text| && FrontFits(text, size, width, max, n)
    && forall k: nat | k <= |text| && FrontFits(text, size, width, max, k) :: k <= n
  }

  ghost predicate FrontFits(text: seq<byte>, size: nat, width: Width, max: int, n: nat)
    requires n <= |text|
  {
    Boundary(text, 0, n) && n + |ELLIPSIS| < size && width(text[..n]) <= max - width(ELLIPSIS)
  }

  // Code points that end later make the front wider.
  lemma {:induction false} KeptIsLongest(text: seq<byte>, at: nat, size: nat, limit: int, width: Width, k: nat)
    requires Sensible(width) && at <= k <= |text| && Boundary(text, at, k)
    requires k + 4 <= size && width(text[..k]) <= limit
    ensures k <= KeptLength(text, at, size, limit, width)
    decreases |text| - at
  {
    if at < k {
      var next := at + SizeAt(text, at);
      BoundaryIsLater(text, next, k);
      assert text[..k] == text[..next] + text[next..k];
      KeptIsLongest(text, next, size, limit, width, k);
    }
  }

  lemma {:induction false} BoundaryIsLater(text: seq<byte>, at: nat, n: nat)
    requires at <= |text| && Boundary(text, at, n)
    ensures at <= n
    decreases |text| - at
  {
    if at != n { BoundaryIsLater(text, at + SizeAt(text, at), n); }
  }

  // What is shown fits the buffer and the width. It is the text if that fits, and otherwise
  // the longest front of whole code points, without spaces at its end, and the ellipsis.
  lemma {:induction false} ShownTextFits(text: seq<byte>, size: nat, width: Width, max: int)
    requires Sensible(width)
    ensures var shown := Fitted(text, size, width, max);
            shown.Some? ==> |shown.value| < size && width(shown.value) <= max
    ensures max > 0 && |text| < size && width(text) <= max ==> Fitted(text, size, width, max) == Some(text)
    ensures Fitted(text, size, width, max).Some? && !(|text| < size && width(text) <= max) ==>
              exists n: nat ::
                && Longest(text, size, width, max, n)
                && Fitted(text, size, width, max).value == Stripped(text[..n]) + [46, 46, 46]
    ensures Fitted(text, size, width, max) == None <==>
            max <= 0 || (!(|text| < size && width(text) <= max) && (width(ELLIPSIS) > max || size < 4))
  {
    if Fitted(text, size, width, max).Some? && !(|text| < size && width(text) <= max) {
      var limit := max - width(ELLIPSIS);
      KeptIsWhole(text, 0, size, limit, width);
      var n := KeptLength(text, 0, size, limit, width);
      var front := Stripped(text[..n]);
      assert text[..n] == front + text[..n][|front|..];
      assert width(front) <= width(text[..n]);
      assert width(text[..n]) <= limit by { if n == 0 { assert text[..n] == []; } }
      forall k: nat | k <= |text| && FrontFits(text, size, width, max, k) ensures k <= n {
        KeptIsLongest(text, 0, size, limit, width, k);
      }
      assert Longest(text, size, width, max, n);
    }
  }

  // ----- in the buffer -----

  // The front of the buffer is the given text, ended.
  predicate Shows(output: seq<byte>, text: seq<byte>) {
    |text| < |output| && output[..|text|] == text && output[|text|] == 0
  }

  lemma {:induction false} ShownIsRead(output: seq<byte>, text: seq<byte>)
    requires Shows(output, text) && IsText(text)
    ensures TextAt(output, 0) == text
  {
    TextAtIs(output, 0, |text|);
  }

  method Copy(output: array<byte>, at: nat, text: seq<byte>)
    requires at + |text| < output.Length
    modifies output
    ensures output[..] == old(output[..at]) + text + [0] + old(output[at + |text| + 1..])
  {
    forall i | 0 <= i < |text| {
      output[at + i] := text[i];
    }
    output[at + |text|] := 0;
  }

  // guilib_fit_text, returning the width of what is shown.
  method Fit(output: array<byte>, text: Option<seq<byte>>, width: Width, max: int) returns (w: int)
    requires text.Some? ==> IsText(text.value)
    modifies output
    ensures output.Length > 0 ==>
              var shown := if text.Some? then Fitted(text.value, output.Length, width, max) else None;
              && TextAt(output[..], 0) == (if shown.Some? then shown.value else [])
              && w == (if shown.Some? then width(shown.value) else 0)
    ensures output.Length == 0 ==> w == 0
  {
    hide KeptLength, Stripped;
    if output.Length == 0 { return 0; }
    output[0] := 0;
    if text == None || max <= 0 { return 0; }
    var input := text.value;
    if |input| < output.Length && width(input) <= max {
      Copy(output, 0, input);
      ShownIsRead(output[..], input);
      return width(TextAt(output[..], 0));
    }
    if width(ELLIPSIS) > max || output.Length < 4 { return 0; }
    w := FitWithEllipsis(output, input, width, max);
  }

  // The rest of the above, for a text that is cut.
  method FitWithEllipsis(output: array<byte>, input: seq<byte>, width: Width, max: int) returns (w: int)
    requires IsText(input) && output.Length >= 4 && output[0] == 0
    modifies output
    ensures var kept := KeptLength(input, 0, output.Length, max - width(ELLIPSIS), width);
            var shown := Stripped(input[..kept]) + ELLIPSIS;
            TextAt(output[..], 0) == shown && w == width(shown)
  {
    hide KeptLength, TextAt;
    var length := KeepWhole(output, input, max - width(ELLIPSIS), width);
    length := StripSpaces(output, input, length);
    Copy(output, length, ELLIPSIS);
    ghost var shown := input[..length] + ELLIPSIS;
    assert output[..|shown|] == shown;
    ShownIsRead(output[..], shown);
    w := width(TextAt(output[..], 0));
  }

  lemma {:induction false} KeptNext(text: seq<byte>, at: nat, size: nat, limit: int, width: Width)
    requires at <= |text|
    ensures KeptLength(text, at, size, limit, width) ==
            if at == |text| || at + SizeAt(text, at) + 4 > size || width(text[..at + SizeAt(text, at)]) > limit then at
            else KeptLength(text, at + SizeAt(text, at), size, limit, width)
  {
    hide SizeAt;
  }

  // The loop that adds code points while there is room.
  method KeepWhole(output: array<byte>, input: seq<byte>, limit: int, width: Width) returns (length: nat)
    requires IsText(input) && output.Length >= 4 && output[0] == 0
    modifies output
    ensures length == KeptLength(input, 0, output.Length, limit, width)
    ensures length + 4 <= output.Length && Shows(output[..], input[..length])
  {
    hide TextAt, Complete, KeptLength, SizeAt, IsText;
    length := 0;
    while length < |input|
      invariant length <= |input| && length + 4 <= output.Length && Shows(output[..], input[..length])
      invariant KeptLength(input, 0, output.Length, limit, width) ==
                KeptLength(input, length, output.Length, limit, width)
    {
      KeptNext(input, length, output.Length, limit, width);
      var size := SizeAt(input, length);
      if length + size + 4 > output.Length { return; }
      var longer := length + size;
      Copy(output, length, input[length..longer]);
      assert output[..longer] == input[..length] + input[length..longer] == input[..longer];
      PrefixIsText(input, longer);
      ShownIsRead(output[..], input[..longer]);
      if width(TextAt(output[..], 0)) > limit {
        output[length] := 0;
        assert output[..length] == input[..longer][..length];
        return;
      }
      length := longer;
    }
    KeptNext(input, length, output.Length, limit, width);
  }

  lemma {:induction false} PrefixIsText(text: seq<byte>, n: nat)
    requires IsText(text) && n <= |text|
    ensures IsText(text[..n])
  {
  }

  method StripSpaces(output: array<byte>, input: seq<byte>, kept: nat) returns (length: nat)
    requires kept <= |input| && kept + 4 <= output.Length && Shows(output[..], input[..kept])
    modifies output
    ensures length <= kept && input[..length] == Stripped(input[..kept]) && Shows(output[..], input[..length])
  {
    length := kept;
    while length > 0 && output[length - 1] == SPACE
      invariant length <= kept && Shows(output[..], input[..length])
      invariant Stripped(input[..length]) == Stripped(input[..kept])
    {
      assert output[..length][length - 1] == input[length - 1];
      assert input[..length][..length - 1] == input[..length - 1];
      assert output[..length - 1] == output[..length][..length - 1];
      length := length - 1;
      output[length] := 0;
    }
    assert length > 0 ==> output[..length][length - 1] == input[length - 1];
  }
}
