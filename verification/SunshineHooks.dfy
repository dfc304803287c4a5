/** The preparation commands that Configure adds to Sunshine's application list and
    that later Configures and the cleanup take out again. */
module SunshineHooks {
  import opened HostText
  import Sequences

  // One entry of prep-cmd: an object with do, undo and elevated (and whatever else the
  // user put there), or something that is not an object.
  datatype Command = Command(start: string, stop: string, elevated: bool, rest: string) | NotACommand(text: string)

  datatype Prep = NoPrep | Commands(entries: seq<Command>) | NotAList(text: string)

  // An entry of apps.json. other says that it has further keys.
  datatype App =
    | App(name: Option<string>, command: Option<string>, output: Option<string>, excluded: Option<bool>,
          prep: Prep, other: bool)
    | NotAnApp(text: string)

  datatype OwnedHook = OwnedHook(application: string, start: string, stop: string, elevated: bool)

  // ----- generated commands -----

  const HOOK_MARKER := "VitaMoonlight.Host"
  const START_PREFIX := "cmd.exe /D /S /C \"\""
  const START_ARGUMENTS :=
    " session start --width %SUNSHINE_CLIENT_WIDTH% --height %SUNSHINE_CLIENT_HEIGHT% --fps %SUNSHINE_CLIENT_FPS%"

  function BuildStartCommand(companionPath: string): string {
    START_PREFIX + companionPath + "\"" + START_ARGUMENTS + "\""
  }

  function BuildStopCommand(companionPath: string): string {
    "\"" + companionPath + "\"" + " session stop"
  }

  predicate StartsWith(text: string, prefix: string) {
    |prefix| <= |text| && SameText(text[..|prefix|], prefix)
  }

  predicate EndsWith(text: string, suffix: string) {
    |suffix| <= |text| && SameText(text[|text| - |suffix|..], suffix)
  }

  predicate IsGeneratedStartCommand(command: string) {
    StartsWith(command, START_PREFIX) && ContainsText(command, HOOK_MARKER + ".exe\"" + START_ARGUMENTS)
  }

  predicate IsGeneratedStopCommand(command: string) {
    command != "" && command[0] == '"' && EndsWith(command, HOOK_MARKER + ".exe\" session stop")
  }

  predicate Generated(c: Command) {
    c.Command? && c.elevated && IsGeneratedStartCommand(c.start) && IsGeneratedStopCommand(c.stop)
  }

  function ManagedHook(companionPath: string): Command {
    Command(BuildStartCommand(companionPath), BuildStopCommand(companionPath), true, "")
  }

  lemma {:induction false} StartsWithItself(prefix: string, rest: string)
    ensures StartsWith(prefix + rest, prefix)
  {
    assert (prefix + rest)[..|prefix|] == prefix;
  }

  lemma {:induction false} EndsWithItself(rest: string, suffix: string)
    ensures EndsWith(rest + suffix, suffix)
  {
    var text := rest + suffix;
    assert text[|text| - |suffix|..] == suffix;
  }

  lemma {:induction false} ContainsItself(before: string, part: string, after: string)
    ensures ContainsText(before + part + after, part)
  {
    var text := before + part + after;
    assert text[|before|..|before| + |part|] == part;
    assert MatchesAt(text, part, |before|);
  }

  lemma {:induction false} StartParts(prefix: string, directory: string, program: string, arguments: string)
    ensures prefix + (directory + program) + "\"" + arguments + "\"" ==
            prefix + ((directory + program) + "\"" + arguments + "\"")
    ensures prefix + (directory + program) + "\"" + arguments + "\"" ==
            (prefix + directory) + (program + "\"" + arguments) + "\""
  {
  }

  lemma {:induction false} StopParts(directory: string, marker: string)
    ensures "\"" + (directory + (marker + ".exe")) + "\"" + " session stop" ==
            ("\"" + directory) + (marker + ".exe\" session stop")
  {
    assert ".exe" + "\"" + " session stop" == ".exe\" session stop";
    assert "\"" + (directory + (marker + ".exe")) + "\"" + " session stop" ==
           ("\"" + directory) + (marker + (".exe" + "\"" + " session stop"));
  }

  // The hook for a companion of the product's own name is recognised as generated.
  lemma {:induction false} ManagedHookIsGenerated(directory: string)
    ensures Generated(ManagedHook(directory + (HOOK_MARKER + ".exe")))
  {
    hide StartsWith, EndsWith, ContainsText;
    var program := HOOK_MARKER + ".exe";
    assert HOOK_MARKER + ".exe\"" + START_ARGUMENTS == program + "\"" + START_ARGUMENTS;
    StartParts(START_PREFIX, directory, program, START_ARGUMENTS);
    StartsWithItself(START_PREFIX, (directory + program) + "\"" + START_ARGUMENTS + "\"");
    ContainsItself(START_PREFIX + directory, program + "\"" + START_ARGUMENTS, "\"");
    StopParts(directory, HOOK_MARKER);
    EndsWithItself("\"" + directory, HOOK_MARKER + ".exe\" session stop");
  }

  // ----- taking commands out -----

  datatype Rule = Owned(hooks: seq<OwnedHook>, application: string) | Legacy {
    predicate Removes(c: Command) {
      match this
      case Owned(hooks, application) =>
        c.Command? &&
        exists i | 0 <= i < |hooks| ::
          && SameText(hooks[i].application, application)
          && hooks[i].start == c.start && hooks[i].stop == c.stop && hooks[i].elevated == c.elevated
      case Legacy => Generated(c)
    }
  }

  function Keep(entries: seq<Command>, rule: Rule): seq<Command> {
    if entries == [] then []
    else (if rule.Removes(entries[0]) then [] else [entries[0]]) + Keep(entries[1..], rule)
  }

  lemma {:induction false} KeepConcat(a: seq<Command>, b: seq<Command>, rule: Rule)
    ensures Keep(a + b, rule) == Keep(a, rule) + Keep(b, rule)
  {
    hide Rule.Removes, Keep;
    if a == [] {
      assert a + b == b;
      KeepNothing(a, rule);
      assert [] + Keep(b, rule) == Keep(b, rule);
    } else {
      KeepConcat(a[1..], b, rule);
      KeepCons(a[0], a[1..] + b, rule);
      KeepCons(a[0], a[1..], rule);
      assert a + b == [a[0]] + (a[1..] + b) && a == [a[0]] + a[1..];
      Sequences.Regroup(if rule.Removes(a[0]) then [] else [a[0]], Keep(a[1..], rule), Keep(b, rule));
    }
  }

  lemma {:induction false} KeepCons(c: Command, rest: seq<Command>, rule: Rule)
    ensures Keep([c] + rest, rule) == (if rule.Removes(c) then [] else [c]) + Keep(rest, rule)
  {
    assert ([c] + rest)[1..] == rest;
  }

  lemma {:induction false} KeepOne(c: Command, rule: Rule)
    ensures Keep([c], rule) == if rule.Removes(c) then [] else [c]
  {
    assert [c][1..] == [];
  }

  // The entry at index, in front of what is kept of the later ones.
  lemma {:induction false} AtIndex(commands: seq<Command>, index: nat, kept: seq<Command>)
    requires index < |commands|
    ensures var entries := commands[..index + 1] + kept;
            && entries[index] == commands[index] && entries == commands[..index] + ([commands[index]] + kept)
            && entries[..index] + entries[index + 1..] == commands[..index] + kept
  {
  }

  // Walks the list from its end, taking out every entry the rule names.
  method RemoveCommands(commands: seq<Command>, rule: Rule) returns (entries: seq<Command>, removed: nat)
    ensures entries == Keep(commands, rule) && removed == |commands| - |entries|
  {
    hide Rule.Removes, Keep;
    entries := commands;
    removed := 0;
    var index := |commands| - 1;
    ghost var kept := Keep(commands[|commands|..], rule);
    KeepNothing(commands[|commands|..], rule);
    assert commands[..|commands|] + kept == commands;
    while index >= 0
      invariant -1 <= index < |commands|
      invariant kept == Keep(commands[index + 1..], rule) && entries == commands[..index + 1] + kept
      invariant removed == |commands| - |entries|
    {
      var c := commands[index];
      AtIndex(commands, index, kept);
      assert commands[index..] == [c] + commands[index + 1..];
      KeepCons(c, commands[index + 1..], rule);
      if rule.Removes(c) {
        entries := entries[..index] + entries[index + 1..];
        removed := removed + 1;
      } else {
        kept := [c] + kept;
      }
      index := index - 1;
    }
    assert commands[0..] == commands && commands[..0] + kept == kept;
  }

  lemma {:induction false} KeepNothing(commands: seq<Command>, rule: Rule)
    requires commands == []
    ensures Keep(commands, rule) == []
  {
  }

  function NameOf(app: App): string {
    if app.App? && app.name.Some? then app.name.value else ""
  }

  predicate Named(app: App, name: string) {
    app.App? && app.name.Some? && SameText(app.name.value, name)
  }

  // prep-cmd disappears with the last command taken out of it.
  function Stripped(app: App, rule: Rule): App {
    if app.App? && app.prep.Commands? then
      var kept := Keep(app.prep.entries, rule);
      if |kept| == |app.prep.entries| then app
      else app.(prep := if kept == [] then NoPrep else Commands(kept))
    else app
  }

  lemma {:induction false} KeepAll(entries: seq<Command>, rule: Rule)
    ensures |Keep(entries, rule)| <= |entries|
    ensures |Keep(entries, rule)| == |entries| <==> forall i | 0 <= i < |entries| :: !rule.Removes(entries[i])
    ensures |Keep(entries, rule)| == |entries| ==> Keep(entries, rule) == entries
  {
    hide Rule.Removes;
    if entries != [] {
      KeepAll(entries[1..], rule);
      assert forall i | 0 < i < |entries| :: entries[i] == entries[1..][i - 1];
      assert entries == [entries[0]] + entries[1..];
    }
  }

  predicate IsUnchangedGenerated(app: App) {
    && app.App? && !app.other
    && (app.command.None? || app.command.value == "")
    && (app.output.None? || app.output.value == "")
    && app.excluded == Some(false)
    && (app.prep.NoPrep? || (app.prep.Commands? && app.prep.entries == []))
  }

  predicate Listed(names: seq<string>, name: string) {
    exists i | 0 <= i < |names| :: SameText(names[i], name)
  }

  // What Configure does to one application before it adds its own hook.
  function Scrubbed(app: App, hooks: seq<OwnedHook>): App {
    Stripped(Stripped(app, Owned(hooks, NameOf(app))), Legacy)
  }

  function ScrubAll(apps: seq<App>, hooks: seq<OwnedHook>): (r: seq<App>)
    ensures |r| == |apps| && forall i | 0 <= i < |apps| :: r[i] == Scrubbed(apps[i], hooks)
  {
    seq(|apps|, i requires 0 <= i < |apps| => Scrubbed(apps[i], hooks))
  }

  // The application of our name is adopted if it is only a hook of an older version.
  function Adopt(created: seq<string>, app: App, hooks: seq<OwnedHook>, name: string): seq<string> {
    var owned := Stripped(app, Owned(hooks, NameOf(app)));
    var scrubbed := Stripped(owned, Legacy);
    if SameText(NameOf(app), name) && scrubbed != owned
      && IsUnchangedGenerated(scrubbed) && !Listed(created, NameOf(app))
    then created + [NameOf(app)] else created
  }

  function AdoptAll(created: seq<string>, apps: seq<App>, hooks: seq<OwnedHook>, name: string): seq<string>
    decreases |apps|
  {
    if apps == [] then created
    else Adopt(AdoptAll(created, apps[..|apps| - 1], hooks, name), apps[|apps| - 1], hooks, name)
  }

  function FirstNamed(apps: seq<App>, name: string): (index: nat)
    ensures index <= |apps|
    ensures index < |apps| ==> Named(apps[index], name)
    ensures forall i | 0 <= i < index :: !Named(apps[i], name)
  {
    if apps == [] || Named(apps[0], name) then 0 else 1 + FirstNamed(apps[1..], name)
  }

  function NewApp(name: string): App {
    App(Some(name), Some(""), Some(""), Some(false), NoPrep, false)
  }

  function WithHook(app: App, companionPath: string): App
    requires app.App?
  {
    app.(prep := Commands((if app.prep.Commands? then app.prep.entries else []) + [ManagedHook(companionPath)]))
  }

  // apps.json together with what the journal says about it.
  datatype Apps = Apps(apps: seq<App>, hooks: seq<OwnedHook>, created: seq<string>)

  datatype Request = Request(name: string, companionPath: string, native: bool)

  function Configured(a: Apps, r: Request): Apps {
    var scrubbed := ScrubAll(a.apps, a.hooks);
    var adopted := AdoptAll(a.created, a.apps, a.hooks, r.name);
    if r.native then Apps(scrubbed, [], adopted)
    else
      var index := FirstNamed(scrubbed, r.name);
      var missing := index == |scrubbed|;
      var apps := if missing then scrubbed + [NewApp(r.name)] else scrubbed;
      var created := if missing && !Listed(adopted, r.name) then adopted + [r.name] else adopted;
      Apps(apps[index := WithHook(apps[index], r.companionPath)],
           [OwnedHook(NameOf(apps[index]), BuildStartCommand(r.companionPath),
                      BuildStopCommand(r.companionPath), true)],
           created)
  }

  function StripAll(apps: seq<App>, hooks: seq<OwnedHook>): (r: seq<App>)
    ensures |r| == |apps| && forall i | 0 <= i < |apps| :: r[i] == Stripped(apps[i], Owned(hooks, NameOf(apps[i])))
  {
    seq(|apps|, i requires 0 <= i < |apps| => Stripped(apps[i], Owned(hooks, NameOf(apps[i]))))
  }

  function DropCreated(apps: seq<App>, name: string): seq<App> {
    var index := FirstNamed(apps, name);
    if index < |apps| && IsUnchangedGenerated(apps[index]) then apps[..index] + apps[index + 1..] else apps
  }

  function DropAllCreated(apps: seq<App>, created: seq<string>): seq<App>
    decreases |created|
  {
    if created == [] then apps
    else DropCreated(DropAllCreated(apps, created[..|created| - 1]), created[|created| - 1])
  }

  // What cleanup leaves of apps.json.
  function CleanedApps(a: Apps): seq<App> {
    DropAllCreated(StripAll(a.apps, a.hooks), a.created)
  }

  /** apps.json, with the journal's entries about it, edited in place. */
  class ApplicationList {
    var apps: seq<App>
    var hooks: seq<OwnedHook>
    var created: seq<string>

    constructor (a: Apps)
      ensures Value() == a
    {
      apps, hooks, created := a.apps, a.hooks, a.created;
    }

    ghost function Value(): Apps
      reads this
    {
      Apps(apps, hooks, created)
    }

    method RemoveHooks(index: nat, rule: Rule) returns (removed: nat)
      requires index < |apps|
      modifies this`apps
      ensures apps == old(apps)[index := Stripped(old(apps[index]), rule)]
      ensures removed > 0 <==> apps[index] != old(apps[index])
    {
      hide Rule.Removes;
      var app := apps[index];
      if !app.App? || !app.prep.Commands? { return 0; }
      var entries;
      KeepAll(app.prep.entries, rule);
      entries, removed := RemoveCommands(app.prep.entries, rule);
      apps := apps[index := app.(prep := Commands(entries))];
      if removed > 0 && |entries| == 0 {
        apps := apps[index := app.(prep := NoPrep)];
      }
    }

    method ScrubApplications(name: string)
      modifies this
      ensures apps == ScrubAll(old(apps), old(hooks)) && hooks == []
      ensures created == AdoptAll(old(created), old(apps), old(hooks), name)
    {
      hide *;
      ghost var was := Apps(apps, hooks, created);
      AdoptNone(was.created, was.apps, was.hooks, name);
      for n := 0 to |apps|
        invariant |apps| == |was.apps| && hooks == was.hooks
        invariant forall i | n <= i < |apps| :: apps[i] == was.apps[i]
        invariant forall i | 0 <= i < n :: apps[i] == Scrubbed(was.apps[i], was.hooks)
        invariant created == AdoptAll(was.created, was.apps[..n], was.hooks, name)
      {
        AdoptNext(was.created, was.apps, was.hooks, name, n);
        ScrubSteps(apps[n], hooks);
        AdoptSteps(created, apps[n], hooks, name);
        var applicationName := NameOf(apps[n]);
        var _ := RemoveHooks(n, Owned(hooks, applicationName));
        var removedLegacy := RemoveHooks(n, Legacy);
        if SameText(applicationName, name) && removedLegacy > 0 && IsUnchangedGenerated(apps[n])
           && !Listed(created, applicationName) {
          created := created + [applicationName];
        }
      }
      assert was.apps[..|apps|] == was.apps;
      hooks := [];
    }

    method Configure(r: Request)
      modifies this
      ensures Value() == Configured(old(Value()), r)
    {
      hide AdoptAll, Scrubbed, ManagedHook, SameText, Listed;
      ScrubApplications(r.name);
      if !r.native {
        var index := FirstNamed(apps, r.name);
        if index == |apps| {
          apps := apps + [NewApp(r.name)];
          if !Listed(created, r.name) { created := created + [r.name]; }
        }
        var hook := AddManagedHook(index, r.companionPath);
        hooks := hooks + [hook];
      }
    }

    method AddManagedHook(index: nat, companionPath: string) returns (hook: OwnedHook)
      requires index < |apps| && apps[index].App?
      modifies this`apps
      ensures apps == old(apps)[index := WithHook(old(apps[index]), companionPath)]
      ensures hook == OwnedHook(NameOf(old(apps[index])), BuildStartCommand(companionPath),
                                BuildStopCommand(companionPath), true)
    {
      var app := apps[index];
      var entries := if app.prep.Commands? then app.prep.entries else [];
      apps := apps[index := app.(prep := Commands(entries + [ManagedHook(companionPath)]))];
      return OwnedHook(NameOf(app), BuildStartCommand(companionPath), BuildStopCommand(companionPath), true);
    }

    method StripApplications()
      modifies this`apps
      ensures apps == StripAll(old(apps), hooks)
    {
      hide *;
      ghost var was := apps;
      for n := 0 to |apps|
        invariant |apps| == |was|
        invariant forall i | n <= i < |apps| :: apps[i] == was[i]
        invariant forall i | 0 <= i < n :: apps[i] == Stripped(was[i], Owned(hooks, NameOf(was[i])))
      {
        var _ := RemoveHooks(n, Owned(hooks, NameOf(apps[n])));
      }
    }

    method Cleanup()
      modifies this`apps
      ensures apps == CleanedApps(old(Value()))
    {
      StripApplications();
      hide StripAll, DropCreated;
      ghost var stripped := apps;
      for n := 0 to |created|
        invariant apps == DropAllCreated(stripped, created[..n])
      {
        assert created[..n + 1][..n] == created[..n] && created[..n + 1][n] == created[n];
        DropCreatedApplication(created[n]);
      }
      assert created[..|created|] == created;
    }

    method DropCreatedApplication(name: string)
      modifies this`apps
      ensures apps == DropCreated(old(apps), name)
    {
      var index := FirstNamed(apps, name);
      if index < |apps| && IsUnchangedGenerated(apps[index]) {
        apps := apps[..index] + apps[index + 1..];
      }
    }
  }

  lemma {:induction false} AdoptNone(created: seq<string>, apps: seq<App>, hooks: seq<OwnedHook>, name: string)
    ensures AdoptAll(created, apps[..0], hooks, name) == created
  {
  }

  lemma {:induction false} AdoptNext(created: seq<string>, apps: seq<App>, hooks: seq<OwnedHook>, name: string, n: nat)
    requires n < |apps|
    ensures AdoptAll(created, apps[..n + 1], hooks, name) ==
            Adopt(AdoptAll(created, apps[..n], hooks, name), apps[n], hooks, name)
  {
    hide Adopt;
    assert apps[..n + 1][..n] == apps[..n] && apps[..n + 1][n] == apps[n];
  }

  lemma {:induction false} ScrubSteps(app: App, hooks: seq<OwnedHook>)
    ensures Scrubbed(app, hooks) == Stripped(Stripped(app, Owned(hooks, NameOf(app))), Legacy)
  {
  }

  lemma {:induction false} AdoptSteps(created: seq<string>, app: App, hooks: seq<OwnedHook>, name: string)
    ensures var owned := Stripped(app, Owned(hooks, NameOf(app)));
            var scrubbed := Stripped(owned, Legacy);
            Adopt(created, app, hooks, name) ==
            if SameText(NameOf(app), name) && scrubbed != owned
              && IsUnchangedGenerated(scrubbed) && !Listed(created, NameOf(app))
            then created + [NameOf(app)] else created
  {
  }
}
