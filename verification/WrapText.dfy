/** Wrapping an alert's text into lines, in the buffer that holds the text: separators are
    overwritten with string ends while the cursor moves forward and, at every wrap, back to
    the start of the next line. */
module WrapText {

  import opened HostText

  type byte = b: int | 0 <= b < 256

  const MAX_LINES: nat := 128

  const NEWLINE: byte := 10

  predicate Blank(b: byte) { b == 32 || b == 9 }

  // How wide some text is drawn, left open.
  type Width = seq<byte> -> int

  // ----- text in a buffer -----

  predicate IsText(s: seq<byte>) {
    forall i | 0 <= i < |s| :: s[i] != 0
  }

  // The string that starts at a position of the buffer.
  function TextAt(buffer: seq<byte>, at: nat): (s: seq<byte>)
    requires at <= |buffer|
    decreases |buffer| - at
  {
    if at == |buffer| || buffer[at] == 0 then [] else [buffer[at]] + TextAt(buffer, at + 1)
  }

  lemma {:induction false} TextAtIs(buffer: seq<byte>, at: nat, end: nat)
    requires at <= end < |buffer| && buffer[end] == 0 && forall i | at <= i < end :: buffer[i] != 0
    ensures TextAt(buffer, at) == buffer[at..end]
    decreases end - at
  {
    if at < end {
      TextAtIs(buffer, at + 1, end);
      assert buffer[at..end] == [buffer[at]] + buffer[at + 1..end];
    }
  }

  // How many bytes a lead byte announces.
  function Announced(lead: byte): nat {
    if 0xC0 <= lead < 0xE0 then 2
    else if 0xE0 <= lead < 0xF0 then 3
    else if 0xF0 <= lead < 0xF8 then 4
    else 1
  }

  predicate Continuation(b: byte) { 0x80 <= b < 0xC0 }

  predicate Complete(text: seq<byte>, at: nat)
    requires at < |text|
  {
    at + Announced(text[at]) <= |text| && forall i | at < i < at + Announced(text[at]) :: Continuation(text[i])
  }

  // utf8_codepoint_size: what the lead byte announces if it is all there, else one byte.
  method CodepointSize(text: array<byte>, at: nat) returns (size: nat)
    requires at < text.Length && text[at] != 0 && text[text.Length - 1] == 0
    ensures size == if Complete(text[..], at) then Announced(text[at]) else 1
    ensures 1 <= size && at + size < text.Length
  {
    var expected := Announced(text[at]);
    var i := 1;
    while i < expected
      invariant 1 <= i <= expected && at + i < text.Length
      invariant forall j | at < j < at + i :: Continuation(text[j])
    {
      if text[at + i] == 0 || !Continuation(text[at + i]) {
        return 1;
      }
      i := i + 1;
    }
    return expected;
  }

  // ----- what a division into lines is -----

  predicate NoBlank(s: seq<byte>) {
    forall i | 0 <= i < |s| :: !Blank(s[i])
  }

  predicate AllBlank(s: seq<byte>) {
    forall i | 0 <= i < |s| :: Blank(s[i])
  }

  // A line fits or cannot be wrapped.
  predicate Acceptable(line: seq<byte>, width: Width, max: int) {
    width(line) <= max || NoBlank(line)
  }

  datatype Span = Span(start: nat, end: nat)

  predicate InOrder(text: seq<byte>, spans: seq<Span>) {
    && (spans != [] ==> spans[0].start == 0)
    && (forall i | 0 <= i < |spans| :: spans[i].start <= spans[i].end <= |text|)
    && (forall i | 0 <= i < |spans| - 1 :: spans[i].end < spans[i + 1].start)
  }

  // Between two lines stands one newline, or blanks that were there because the next word
  // did not fit any more.
  ghost predicate Separated(text: seq<byte>, end: nat, next: nat, start: nat, width: Width, max: int)
    requires start <= end < next <= |text|
  {
    || (text[end] == NEWLINE && next == end + 1)
    || (AllBlank(text[end..next]) && exists c | end < c <= |text| ::
          width(text[start..c]) > max && NoBlank(text[end + 1..c]))
  }

  ghost predicate LinesOf(text: seq<byte>, spans: seq<Span>, width: Width, max: int) {
    && InOrder(text, spans)
    && (forall i | 0 <= i < |spans| ::
          Acceptable(text[spans[i].start..spans[i].end], width, max)
          && NEWLINE !in text[spans[i].start..spans[i].end])
    && (forall i | 0 <= i < |spans| - 1 ::
          Separated(text, spans[i].end, spans[i + 1].start, spans[i].start, width, max))
  }

  // ----- the state of the loop -----

  // The finished lines, and that the next one may start here.
  ghost predicate Ready(text: seq<byte>, spans: seq<Span>, start: nat, width: Width, max: int)
    requires start <= |text|
  {
    && LinesOf(text, spans, width, max)
    && (if spans == [] then start == 0
        else
          var last := spans[|spans| - 1];
          last.end < start && Separated(text, last.end, start, last.start, width, max))
  }

  // The line that is being filled, up to the cursor.
  ghost predicate Filling(text: seq<byte>, spans: seq<Span>, start: nat, cursor: nat, space: Option<nat>,
                          width: Width, max: int)
  {
    && start <= cursor <= |text|
    && Ready(text, spans, start, width, max)
    && NEWLINE !in text[start..cursor]
    && Acceptable(text[start..cursor], width, max)
    && match space
       case None => NoBlank(text[start..cursor])
       case Some(at) =>
         start <= at < cursor && Blank(text[at]) && NoBlank(text[at + 1..cursor])
         && Acceptable(text[start..at], width, max)
  }

  // The bytes of one code point, none of them a newline.
  predicate Codepoint(text: seq<byte>, at: nat, next: nat) {
    && at < next <= |text| && text[at] != NEWLINE
    && (forall i | at < i < next :: Continuation(text[i]))
    && (Blank(text[at]) ==> next == at + 1)
  }

  lemma {:induction false} SpanAdded(text: seq<byte>, spans: seq<Span>, start: nat, end: nat, next: nat,
                                     width: Width, max: int)
    requires start <= end < next <= |text| && Ready(text, spans, start, width, max)
             && Acceptable(text[start..end], width, max)
    requires NEWLINE !in text[start..end] && Separated(text, end, next, start, width, max)
    ensures Filling(text, spans + [Span(start, end)], next, next, None, width, max)
  {
    hide Acceptable, Separated;
    assert text[next..next] == [];
    assert Acceptable(text[next..next], width, max) by { EmptyIsAcceptable(width, max); }
  }

  lemma {:induction false} EmptyIsAcceptable(width: Width, max: int)
    ensures Acceptable([], width, max)
  {
  }

  lemma {:induction false} NewlineStep(text: seq<byte>, spans: seq<Span>, start: nat, cursor: nat,
                                       space: Option<nat>, width: Width, max: int)
    requires Filling(text, spans, start, cursor, space, width, max) && cursor < |text| && text[cursor] == NEWLINE
    ensures Filling(text, spans + [Span(start, cursor)], cursor + 1, cursor + 1, None, width, max)
  {
    hide Acceptable, Ready;
    SpanAdded(text, spans, start, cursor, cursor + 1, width, max);
  }

  lemma {:induction false} Grown(text: seq<byte>, start: nat, cursor: nat, next: nat)
    requires start <= cursor && Codepoint(text, cursor, next)
    ensures NEWLINE !in text[start..cursor] ==> NEWLINE !in text[start..next]
    ensures NoBlank(text[start..cursor]) && !Blank(text[cursor]) ==> NoBlank(text[start..next])
  {
    assert text[start..next] == text[start..cursor] + text[cursor..next];
    assert forall i | 0 <= i < next - cursor :: text[cursor..next][i] == text[cursor + i];
  }

  lemma {:induction false} AdvanceStep(text: seq<byte>, spans: seq<Span>, start: nat, cursor: nat, next: nat,
                                       space: Option<nat>,
                    seen: Option<nat>, width: Width, max: int)
    requires Filling(text, spans, start, cursor, space, width, max) && Codepoint(text, cursor, next)
    requires seen == if Blank(text[cursor]) then Some(cursor) else space
    requires width(text[start..next]) <= max || seen == None
    ensures Filling(text, spans, start, next, seen, width, max)
  {
    hide Ready;
    Grown(text, start, cursor, next);
    if seen.Some? && !Blank(text[cursor]) { Grown(text, seen.value + 1, cursor, next); }
  }

  lemma {:induction false} WrapStep(text: seq<byte>, spans: seq<Span>, start: nat, cursor: nat, next: nat,
                                    space: Option<nat>,
                 at: nat, resume: nat, width: Width, max: int)
    requires Filling(text, spans, start, cursor, space, width, max) && Codepoint(text, cursor, next)
    requires Some(at) == if Blank(text[cursor]) then Some(cursor) else space
    requires width(text[start..next]) > max && at < resume <= |text| && AllBlank(text[at..resume])
    ensures start <= at && Filling(text, spans + [Span(start, at)], resume, resume, None, width, max)
  {
    hide Ready;
    if !Blank(text[cursor]) { Grown(text, at + 1, cursor, next); }
    assert NoBlank(text[at + 1..next]);
    assert NEWLINE !in text[start..at] by {
      assert text[start..at] == text[start..cursor][..at - start];
    }
    assert Separated(text, at, resume, start, width, max);
    hide Separated, Acceptable;
    SpanAdded(text, spans, start, at, resume, width, max);
  }

  // ----- wrapping -----

  // The buffer from a position on still holds the text and its end.
  predicate Untouched(storage: seq<byte>, text: seq<byte>, from: nat) {
    |storage| == |text| + 1 && from <= |text| && storage[from..] == text[from..] + [0]
  }

  // A line can be read from the buffer.
  predicate Held(storage: seq<byte>, text: seq<byte>, span: Span)
    requires |storage| == |text| + 1
  {
    && span.start <= span.end <= |text|
    && storage[span.end] == 0
    && storage[span.start..span.end] == text[span.start..span.end]
  }

  predicate AllHeld(storage: seq<byte>, text: seq<byte>, spans: seq<Span>)
    requires |storage| == |text| + 1
  {
    forall i | 0 <= i < |spans| :: Held(storage, text, spans[i])
  }

  // The buffer when the lines up to start have been cut off.
  ghost predicate Cut(storage: seq<byte>, text: seq<byte>, spans: seq<Span>, start: nat) {
    && Untouched(storage, text, start) && AllHeld(storage, text, spans)
    && forall i | 0 <= i < |spans| :: spans[i].end < start
  }

  lemma {:induction false} CutAt(storage: seq<byte>, text: seq<byte>, spans: seq<Span>, start: nat, at: nat, next: nat)
    requires Cut(storage, text, spans, start) && start <= at < next <= |text|
    ensures Cut(storage[at := 0], text, spans + [Span(start, at)], next)
  {
    var after := storage[at := 0];
    assert after[next..] == storage[start..][next - start..];
    assert storage[start..at] == storage[start..][..at - start] == text[start..at];
    assert after[start..at] == storage[start..at];
    forall i | 0 <= i < |spans| ensures Held(after, text, spans[i]) {
      assert Held(storage, text, spans[i]);
      assert after[spans[i].start..spans[i].end] == storage[spans[i].start..spans[i].end];
    }
  }

  lemma {:induction false} UntouchedAt(storage: seq<byte>, text: seq<byte>, start: nat, i: nat)
    requires Untouched(storage, text, start) && start <= i <= |text|
    ensures storage[i] == if i < |text| then text[i] else 0
  {
    assert storage[i] == storage[start..][i - start];
  }

  lemma {:induction false} HeldIsRead(storage: seq<byte>, text: seq<byte>, span: Span)
    requires |storage| == |text| + 1 && IsText(text) && Held(storage, text, span)
    ensures TextAt(storage, span.start) == text[span.start..span.end]
  {
    forall i | span.start <= i < span.end ensures storage[i] != 0 {
      assert storage[span.start..span.end][i - span.start] == text[span.start..span.end][i - span.start];
    }
    TextAtIs(storage, span.start, span.end);
  }

  // The width of the text from one position to another, measured by ending the string
  // there for the moment.
  method Measure(storage: array<byte>, start: nat, end: nat, width: Width) returns (w: int)
    requires start <= end < storage.Length && forall i | start <= i < end :: storage[i] != 0
    modifies storage
    ensures storage[..] == old(storage[..])
    ensures w == width(storage[start..end])
  {
    var saved := storage[end];
    storage[end] := 0;
    TextAtIs(storage[..], start, end);
    w := width(TextAt(storage[..], start));
    storage[end] := saved;
    assert storage[..] == old(storage[..]);
  }

  lemma {:induction false} WrapStart(storage: seq<byte>, text: seq<byte>, width: Width, max: int)
    requires |storage| == |text| + 1 && storage[|text|] == 0 && forall i | 0 <= i < |text| :: storage[i] == text[i]
    ensures Filling(text, [], 0, 0, None, width, max) && Cut(storage, text, [], 0)
  {
    assert text[0..0] == [] && storage[0..] == text[0..] + [0];
  }

  lemma {:induction false} LastLine(text: seq<byte>, spans: seq<Span>, start: nat, space: Option<nat>, width: Width,
                                    max: int)
    requires Filling(text, spans, start, |text|, space, width, max)
    ensures LinesOf(text, spans + [Span(start, |text|)], width, max)
  {
    hide Acceptable, Separated;
    var all := spans + [Span(start, |text|)];
    assert forall i | 0 <= i < |spans| :: all[i] == spans[i];
  }

  // The text has been read to its end: what is left is the last line.
  lemma {:induction false} WrapEnd(storage: seq<byte>, text: seq<byte>, spans: seq<Span>, start: nat,
                                   space: Option<nat>, width: Width, max: int)
    requires Filling(text, spans, start, |text|, space, width, max) && Cut(storage, text, spans, start) && IsText(text)
    ensures LinesOf(text, spans + [Span(start, |text|)], width, max)
    ensures var all := spans + [Span(start, |text|)];
            forall i | 0 <= i < |all| ::
              all[i].start <= all[i].end <= |text| && TextAt(storage, all[i].start) == text[all[i].start..all[i].end]
  {
    hide LinesOf, Ready, Acceptable, Separated, TextAt;
    var all := spans + [Span(start, |text|)];
    LastLine(text, spans, start, space, width, max);
    UntouchedAt(storage, text, start, |text|);
    assert storage[start..|text|] == storage[start..][..|text| - start];
    forall i | 0 <= i < |all|
      ensures all[i].start <= all[i].end <= |text| && TextAt(storage, all[i].start) == text[all[i].start..all[i].end]
    {
      assert i < |spans| ==> Held(storage, text, spans[i]);
      HeldIsRead(storage, text, all[i]);
    }
  }

  // There is no room for another line.
  lemma {:induction false} WrapFull(storage: seq<byte>, text: seq<byte>, spans: seq<Span>, start: nat, width: Width,
                                    max: int)
    requires start <= |text| && Ready(text, spans, start, width, max)
             && Cut(storage, text, spans, start) && IsText(text)
    ensures LinesOf(text, spans, width, max)
    ensures forall i | 0 <= i < |spans| ::
              spans[i].start <= spans[i].end <= |text|
              && TextAt(storage, spans[i].start) == text[spans[i].start..spans[i].end]
  {
    hide Acceptable, Separated, TextAt;
    forall i | 0 <= i < |spans|
      ensures spans[i].start <= spans[i].end <= |text|
              && TextAt(storage, spans[i].start) == text[spans[i].start..spans[i].end]
    {
      assert Held(storage, text, spans[i]);
      HeldIsRead(storage, text, spans[i]);
    }
  }

  // Steps over blanks, which end at the latest where the text does.
  method SkipBlanks(storage: array<byte>, at: nat, ghost text: seq<byte>, ghost start: nat) returns (resume: nat)
    requires Untouched(storage[..], text, start) && start <= at < |text| && Blank(text[at])
    ensures at < resume <= |text| && AllBlank(text[at..resume])
  {
    resume := at + 1;
    UntouchedAt(storage[..], text, start, resume);
    while Blank(storage[resume])
      invariant at < resume <= |text| && forall i | at <= i < resume :: Blank(text[i])
      invariant storage[resume] == if resume < |text| then text[resume] else 0
      decreases |text| - resume
    {
      resume := resume + 1;
      UntouchedAt(storage[..], text, start, resume);
    }
  }

  // The end of the next code point and whether the line is too wide with it.
  method Look(storage: array<byte>, ghost text: seq<byte>, start: nat, cursor: nat, width: Width)
    returns (next: nat, w: int)
    requires IsText(text) && Untouched(storage[..], text, start) && start <= cursor < |text|
    requires text[cursor] != NEWLINE
    modifies storage
    ensures storage[..] == old(storage[..])
    ensures Codepoint(text, cursor, next) && w == width(text[start..next])
  {
    forall i | start <= i <= |text| ensures storage[i] == if i < |text| then text[i] else 0 {
      UntouchedAt(storage[..], text, start, i);
    }
    var size := CodepointSize(storage, cursor);
    next := cursor + size;
    w := Measure(storage, start, next, width);
    assert storage[start..next] == text[start..next];
  }

  // wrap_alert_text, with the buffer it could allocate.
  method Wrap(message: seq<byte>, width: Width, max: int)
    returns (storage: array<byte>, items: seq<nat>, ghost spans: seq<Span>)
    requires IsText(message)
    ensures fresh(storage) && storage.Length == |message| + 1
    ensures |items| == |spans| <= 128 && LinesOf(message, spans, width, max)
    ensures forall i | 0 <= i < |items| ::
              items[i] == spans[i].start <= spans[i].end <= |message|
              && TextAt(storage[..], items[i]) == message[spans[i].start..spans[i].end]
    ensures |items| < 128 ==> |items| > 0 && spans[|spans| - 1].end == |message|
  {
    hide Ready, Acceptable, Separated, NoBlank, AllBlank, Untouched, AllHeld, Held, Codepoint, TextAt;
    storage := new byte[|message| + 1](i requires 0 <= i <= |message| => if i < |message| then message[i] else 0);
    items, spans := [], [];
    var start, cursor := 0, 0;
    var space: Option<nat> := None;
    WrapStart(storage[..], message, width, max);
    while storage[cursor] != 0 && |items| < MAX_LINES
      invariant storage.Length == |message| + 1 && fresh(storage)
      invariant Filling(message, spans, start, cursor, space, width, max)
      invariant Cut(storage[..], message, spans, start)
      invariant |items| == |spans| <= MAX_LINES && forall i | 0 <= i < |items| :: items[i] == spans[i].start
      decreases |message| - start, |message| - cursor
    {
      UntouchedAt(storage[..], message, start, cursor);
      ghost var before := storage[..];
      if storage[cursor] == NEWLINE {
        storage[cursor] := 0;
        assert storage[..] == before[cursor := 0];
        CutAt(before, message, spans, start, cursor, cursor + 1);
        NewlineStep(message, spans, start, cursor, space, width, max);
        items, spans := items + [start], spans + [Span(start, cursor)];
        cursor := cursor + 1;
        start := cursor;
        space := None;
      } else {
        var next, w := Look(storage, message, start, cursor, width);
        var seen := if Blank(storage[cursor]) then Some(cursor) else space;
        if w > max && seen.Some? {
          var at := seen.value;
          var resume := SkipBlanks(storage, at, message, start);
          storage[at] := 0;
          assert storage[..] == before[at := 0];
          CutAt(before, message, spans, start, at, resume);
          WrapStep(message, spans, start, cursor, next, space, at, resume, width, max);
          items, spans := items + [start], spans + [Span(start, at)];
          start, cursor, space := resume, resume, None;
        } else {
          AdvanceStep(message, spans, start, cursor, next, space, seen, width, max);
          cursor, space := next, seen;
        }
      }
    }
    UntouchedAt(storage[..], message, start, cursor);
    if |items| < MAX_LINES {
      WrapEnd(storage[..], message, spans, start, space, width, max);
      items, spans := items + [start], spans + [Span(start, cursor)];
    } else {
      WrapFull(storage[..], message, spans, start, width, max);
    }
  }

  // ----- nothing but separators is lost -----

  // The lines with a separator between any two.
  function Rejoined(lines: seq<seq<byte>>, gaps: seq<seq<byte>>): seq<byte>
    requires |gaps| + 1 == |lines|
  {
    if gaps == [] then lines[0]
    else Rejoined(lines[..|gaps|], gaps[..|gaps| - 1]) + gaps[|gaps| - 1] + lines[|gaps|]
  }

  predicate IsGap(gap: seq<byte>) {
    gap == [NEWLINE] || (gap != [] && AllBlank(gap))
  }

  function Lines(text: seq<byte>, spans: seq<Span>): (lines: seq<seq<byte>>)
    requires InOrder(text, spans)
    ensures |lines| == |spans|
  {
    seq(|spans|, i requires 0 <= i < |spans| => text[spans[i].start..spans[i].end])
  }

  function Gaps(text: seq<byte>, spans: seq<Span>): (gaps: seq<seq<byte>>)
    requires InOrder(text, spans) && spans != []
    ensures |gaps| == |spans| - 1
  {
    seq(|spans| - 1, i requires 0 <= i < |spans| - 1 => text[spans[i].end..spans[i + 1].start])
  }

  lemma {:induction false} RejoinedSnoc(lines: seq<seq<byte>>, gaps: seq<seq<byte>>, gap: seq<byte>, line: seq<byte>)
    requires |gaps| + 1 == |lines|
    ensures Rejoined(lines + [line], gaps + [gap]) == Rejoined(lines, gaps) + gap + line
  {
    assert (lines + [line])[..|lines|] == lines && (gaps + [gap])[..|gaps|] == gaps;
  }

  lemma {:induction false} LastLineOf(text: seq<byte>, front: seq<Span>, last: Span)
    requires InOrder(text, front + [last]) && InOrder(text, front) && last.start <= last.end <= |text|
    ensures Lines(text, front + [last]) == Lines(text, front) + [text[last.start..last.end]]
  {
    hide InOrder;
    var all := front + [last];
    var lines, more := Lines(text, front), Lines(text, all);
    assert more[|front|] == text[all[|front|].start..all[|front|].end];
    forall i | 0 <= i < |front| ensures more[i] == lines[i] { assert all[i] == front[i]; }
  }

  lemma {:induction false} LastGapOf(text: seq<byte>, front: seq<Span>, last: Span)
    requires front != [] && InOrder(text, front + [last]) && InOrder(text, front)
    ensures front[|front| - 1].end < last.start <= |text|
    ensures Gaps(text, front + [last]) == Gaps(text, front) + [text[front[|front| - 1].end..last.start]]
  {
    var all, n := front + [last], |front| - 1;
    assert all[n] == front[n] && all[n + 1] == last;
    assert all[n].end < all[n + 1].start <= all[n + 1].end <= |text|;
    hide InOrder;
    var gaps, more := Gaps(text, front), Gaps(text, all);
    assert more[n] == text[all[n].end..all[n + 1].start];
    forall i | 0 <= i < n ensures more[i] == gaps[i] { assert all[i] == front[i] && all[i + 1] == front[i + 1]; }
  }

  lemma {:induction false} LinesRejoin(text: seq<byte>, spans: seq<Span>)
    requires InOrder(text, spans) && spans != []
    ensures Rejoined(Lines(text, spans), Gaps(text, spans)) == text[..spans[|spans| - 1].end]
  {
    var last := |spans| - 1;
    if last == 0 {
      assert text[0..spans[0].end] == text[..spans[0].end];
    } else {
      hide Rejoined, Lines, Gaps;
      var front := spans[..last];
      assert front + [spans[last]] == spans;
      LinesRejoin(text, front);
      LastLineOf(text, front, spans[last]);
      LastGapOf(text, front, spans[last]);
      RejoinedSnoc(Lines(text, front), Gaps(text, front), text[front[last - 1].end..spans[last].start],
                   text[spans[last].start..spans[last].end]);
      Telescoped(text, spans[last - 1].end, spans[last].start, spans[last].end);
    }
  }

  lemma {:induction false} Telescoped(text: seq<byte>, a: nat, b: nat, c: nat)
    requires a <= b <= c <= |text|
    ensures text[..a] + text[a..b] + text[b..c] == text[..c]
  {
  }

  // Below the line limit the lines and what was taken out between them are the text.
  lemma {:induction false} WrappingLosesNothing(text: seq<byte>, spans: seq<Span>, width: Width, max: int)
    requires LinesOf(text, spans, width, max) && spans != [] && spans[|spans| - 1].end == |text|
    ensures Rejoined(Lines(text, spans), Gaps(text, spans)) == text
    ensures forall i | 0 <= i < |spans| - 1 :: IsGap(Gaps(text, spans)[i])
  {
    hide Rejoined, Acceptable, NoBlank, Separated, IsGap;
    LinesRejoin(text, spans);
    assert text[..|text|] == text;
    forall i | 0 <= i < |spans| - 1 ensures IsGap(Gaps(text, spans)[i]) {
      SeparatedByGap(text, spans[i].end, spans[i + 1].start, spans[i].start, width, max);
    }
  }

  lemma {:induction false} SeparatedByGap(text: seq<byte>, end: nat, next: nat, start: nat, width: Width, max: int)
    requires start <= end < next <= |text| && Separated(text, end, next, start, width, max)
    ensures IsGap(text[end..next])
  {
  }
}
