/** Which commands and applications the host takes for its own, and which it leaves alone. */
module SunshineHookRules {
  import opened HostText
  import opened SunshineHooks

  lemma {:induction false} FoldParts(a: string, b: string)
    ensures Fold(a + b) == Fold(a) + Fold(b)
  {
  }

  lemma {:induction false} SameTextParts(a: string, b: string, c: string, d: string)
    requires SameText(a, c) && SameText(b, d)
    ensures SameText(a + b, c + d)
  {
    FoldParts(a, b);
    FoldParts(c, d);
    hide Fold;
  }

  lemma {:induction false} SameTextItself(s: string)
    ensures SameText(s, s)
  {
  }

  lemma {:induction false} SameTextLength(a: string, b: string)
    requires SameText(a, b)
    ensures |a| == |b| && forall i | 0 <= i < |a| :: FoldChar(a[i]) == FoldChar(b[i])
  {
    assert |Fold(a)| == |a| && |Fold(b)| == |b|;
    forall i | 0 <= i < |a| ensures FoldChar(a[i]) == FoldChar(b[i]) {
      assert Fold(a)[i] == Fold(b)[i];
    }
  }

  // A text that is the same as one in two parts has two such parts.
  lemma {:induction false} SameTextSplit(s: string, a: string, b: string)
    requires SameText(s, a + b)
    ensures |s| == |a| + |b| && SameText(s[..|a|], a) && SameText(s[|a|..], b)
  {
    FoldParts(a, b);
    SameTextLength(s, a + b);
    FoldParts(s[..|a|], s[|a|..]);
    assert s == s[..|a|] + s[|a|..];
    assert |Fold(s[..|a|])| == |Fold(a)| by { assert |Fold(a)| == |a| && |Fold(s[..|a|])| == |a|; }
    hide Fold;
    assert Fold(s[..|a|]) == (Fold(s[..|a|]) + Fold(s[|a|..]))[..|Fold(a)|];
    assert Fold(s[|a|..]) == (Fold(s[..|a|]) + Fold(s[|a|..]))[|Fold(a)|..];
  }

  // A part inside a text.
  lemma {:induction false} PartAt(s: string, part: string) returns (before: string, found: string, after: string)
    requires ContainsText(s, part)
    ensures s == before + found + after && SameText(found, part)
  {
    hide SameText;
    var at :| 0 <= at <= |s| && MatchesAt(s, part, at);
    before, found, after := s[..at], s[at..at + |part|], s[at + |part|..];
  }

  // It does not begin inside the first part if that has no such character.
  lemma {:induction false} PartIsBehind(before: string, found: string, after: string, prefix: string, part: string)
    requires part != "" && SameText(found, part) && StartsWith(before + found + after, prefix)
    requires forall i | 0 <= i < |prefix| :: FoldChar(prefix[i]) != FoldChar(part[0])
    ensures |prefix| <= |before| && SameText(before[..|prefix|], prefix)
  {
    var s, n := before + found + after, |before|;
    SameTextLength(found, part);
    SameTextLength(s[..|prefix|], prefix);
    hide SameText;
    assert s[n] == found[0];
    if n >= |prefix| { assert s[..|prefix|] == before[..|prefix|]; }
  }

  lemma {:induction false} StartsThenContains(s: string, prefix: string, part: string) returns (x: string, y: string)
    requires part != "" && forall i | 0 <= i < |prefix| :: FoldChar(prefix[i]) != FoldChar(part[0])
    requires StartsWith(s, prefix) && ContainsText(s, part)
    ensures SameText(s, (prefix + x) + (part + y))
  {
    hide SameText, StartsWith, ContainsText, FoldChar;
    var before, found, after := PartAt(s, part);
    PartIsBehind(before, found, after, prefix, part);
    var first := before[..|prefix|];
    x, y := before[|prefix|..], after;
    assert before == first + x && s == (first + x) + (found + y);
    SameTextItself(x);
    SameTextItself(y);
    SameTextParts(first, x, prefix, x);
    SameTextParts(found, y, part, y);
    SameTextParts(first + x, found + y, prefix + x, part + y);
  }

  lemma {:induction false} InPartsStartsThenContains(s: string, prefix: string, x: string, part: string, y: string)
    requires SameText(s, (prefix + x) + (part + y))
    ensures StartsWith(s, prefix) && ContainsText(s, part)
  {
    hide SameText;
    var n := |prefix + x|;
    SameTextSplit(s, prefix + x, part + y);
    SameTextSplit(s[..n], prefix, x);
    SameTextSplit(s[n..], part, y);
    assert s[..n][..|prefix|] == s[..|prefix|];
    assert s[n..][..|part|] == s[n..n + |part|];
    assert MatchesAt(s, part, n);
  }

  // A command that is quoted and ends with a part that does not start with the quote.
  lemma {:induction false} QuotedThenEnds(s: string, part: string) returns (x: string)
    requires part != "" && part[0] != '"' && s != "" && s[0] == '"' && EndsWith(s, part)
    ensures SameText(s, ("\"" + x) + part)
  {
    var n := |s| - |part|;
    SameTextLength(s[n..], part);
    assert s[n..][0] == s[n];
    QuoteFolds(part[0]);
    hide SameText, FoldChar;
    x := s[1..n];
    SameTextItself("\"" + x);
    SameTextParts("\"" + x, s[n..], "\"" + x, part);
    assert s == ("\"" + x) + s[n..];
  }

  lemma {:induction false} InPartsQuotedThenEnds(s: string, x: string, part: string)
    requires SameText(s, ("\"" + x) + part)
    ensures s != "" && s[0] == '"' && EndsWith(s, part)
  {
    SameTextSplit(s, "\"" + x, part);
    SameTextLength(s, ("\"" + x) + part);
    QuoteFolds(s[0]);
    assert (("\"" + x) + part)[0] == '"';
    hide SameText, FoldChar;
    assert s[|s| - |part|..] == s[|"\"" + x|..];
  }

  lemma {:induction false} QuoteFolds(c: char)
    ensures FoldChar(c) == FoldChar('"') <==> c == '"'
  {
  }

  // ----- generated commands -----

  const SHELL_PREFIX := "cmd.exe /D /S /C \"\""
  const QUOTED_PROGRAM := "VitaMoonlight.Host.exe\""

  function StartText(directory: string, rest: string): string {
    (SHELL_PREFIX + directory)
    + (QUOTED_PROGRAM
       + " session start --width %SUNSHINE_CLIENT_WIDTH% --height %SUNSHINE_CLIENT_HEIGHT% --fps %SUNSHINE_CLIENT_FPS%"
       + rest)
  }

  function StopText(directory: string): string {
    ("\"" + directory) + (QUOTED_PROGRAM + " session stop")
  }

  // A command counts as generated if it is elevated, runs the product's program in some
  // directory through the shell to start a session in the client's mode, and runs it in some
  // directory to stop the session, case aside; and only then.
  lemma {:induction false} GeneratedIff(c: Command)
    ensures Generated(c) <==>
            && c.Command? && c.elevated
            && (exists directory, rest :: SameText(c.start, StartText(directory, rest)))
            && (exists directory :: SameText(c.stop, StopText(directory)))
  {
    hide SameText, IsGeneratedStartCommand, IsGeneratedStopCommand, StartText, StopText;
    if c.Command? {
      StartIff(c.start);
      StopIff(c.stop);
    }
  }

  lemma {:induction false} StartIff(s: string)
    ensures IsGeneratedStartCommand(s) <==> exists directory, rest :: SameText(s, StartText(directory, rest))
  {
    PrefixHasNoName();
    ProgramIs();
    hide StartsWith, ContainsText, SameText, FoldChar;
    var part := QUOTED_PROGRAM + START_ARGUMENTS;
    assert part[0] == QUOTED_PROGRAM[0];
    if IsGeneratedStartCommand(s) {
      var x, y := StartsThenContains(s, SHELL_PREFIX, part);
      assert SameText(s, StartText(x, y));
    }
    if x, y :| SameText(s, StartText(x, y)) {
      InPartsStartsThenContains(s, SHELL_PREFIX, x, part, y);
    }
  }

  lemma {:induction false} StopIff(s: string)
    ensures IsGeneratedStopCommand(s) <==> exists directory :: SameText(s, StopText(directory))
  {
    ProgramIs();
    hide EndsWith, SameText;
    var part := QUOTED_PROGRAM + " session stop";
    assert part[0] == QUOTED_PROGRAM[0];
    if IsGeneratedStopCommand(s) {
      var x := QuotedThenEnds(s, part);
      assert SameText(s, StopText(x));
    }
    if x :| SameText(s, StopText(x)) { InPartsQuotedThenEnds(s, x, part); }
  }

  lemma {:induction false} ProgramIs()
    ensures HOOK_MARKER + ".exe\"" == QUOTED_PROGRAM && QUOTED_PROGRAM != "" && QUOTED_PROGRAM[0] == 'V'
    ensures HOOK_MARKER + ".exe\" session stop" == QUOTED_PROGRAM + " session stop"
  {
    assert ".exe\"" + " session stop" == ".exe\" session stop";
    assert HOOK_MARKER + (".exe\"" + " session stop") == (HOOK_MARKER + ".exe\"") + " session stop";
  }

  lemma {:induction false} PrefixHasNoName()
    ensures forall i | 0 <= i < |SHELL_PREFIX| :: FoldChar(SHELL_PREFIX[i]) != FoldChar('V')
  {
  }

  // ----- created applications -----

  // The user gave it a command, an output, a preparation command, another key, or the common
  // preparation commands back.
  predicate WorkedOn(app: App) {
    || app.NotAnApp?
    || app.other
    || (app.command.Some? && app.command.value != "")
    || (app.output.Some? && app.output.value != "")
    || app.excluded != Some(false)
    || app.prep.NotAList?
    || (app.prep.Commands? && app.prep.entries != [])
  }

  // An application that was worked on is there after the cleanup as often as it was when the
  // hooks had been taken out; only ones of the given names go, and each name takes one.
  lemma {:induction false} WorkedOnIsKept(apps: seq<App>, created: seq<string>, app: App)
    requires WorkedOn(app)
    ensures multiset(DropAllCreated(apps, created))[app] == multiset(apps)[app]
    decreases |created|
  {
    hide DropCreated, WorkedOn;
    if created != [] {
      var before := DropAllCreated(apps, created[..|created| - 1]);
      WorkedOnIsKept(apps, created[..|created| - 1], app);
      OneDropKeeps(before, created[|created| - 1], app);
    }
  }

  lemma {:induction false} OneDropKeeps(apps: seq<App>, name: string, app: App)
    requires WorkedOn(app)
    ensures multiset(DropCreated(apps, name))[app] == multiset(apps)[app]
  {
    hide FirstNamed;
    var index := FirstNamed(apps, name);
    if index < |apps| && IsUnchangedGenerated(apps[index]) {
      assert apps[index] != app;
      assert apps == apps[..index] + [apps[index]] + apps[index + 1..];
    }
  }
}
