/** Which preparation commands survive: the user's always do, ours are there exactly
    once in hook mode and not at all otherwise, and a first Configure can be undone. */
module SunshineHookRuns {
  import opened HostText
  import opened SunshineHooks

  // Every hook the journal claims looks like one we generate.
  ghost predicate Ours(hooks: seq<OwnedHook>) {
    forall i | 0 <= i < |hooks| :: Generated(Command(hooks[i].start, hooks[i].stop, hooks[i].elevated, ""))
  }

  ghost predicate Recognised(r: Request) {
    Generated(ManagedHook(r.companionPath))
  }

  // The commands of an application that we did not generate.
  function UserCommands(app: App): seq<Command> {
    if app.App? && app.prep.Commands? then Keep(app.prep.entries, Legacy) else []
  }

  function GeneratedIn(app: App): int {
    if app.App? && app.prep.Commands? then |app.prep.entries| - |Keep(app.prep.entries, Legacy)| else 0
  }

  function GeneratedCount(apps: seq<App>): int {
    if apps == [] then 0 else GeneratedIn(apps[0]) + GeneratedCount(apps[1..])
  }

  // The applications that hold user commands, with those commands only.
  function UserView(apps: seq<App>): seq<App> {
    if apps == [] then [] else UserPart(apps[0]) + UserView(apps[1..])
  }

  function UserPart(app: App): seq<App> {
    if UserCommands(app) == [] then [] else [app.(prep := Commands(UserCommands(app)))]
  }

  // ----- lists of commands -----

  lemma {:induction false} OwnedIsGenerated(hooks: seq<OwnedHook>, application: string, c: Command)
    requires Ours(hooks) && Owned(hooks, application).Removes(c)
    ensures Generated(c)
  {
    hide IsGeneratedStartCommand, IsGeneratedStopCommand, SameText;
    var i :| 0 <= i < |hooks| && hooks[i].start == c.start
      && hooks[i].stop == c.stop && hooks[i].elevated == c.elevated;
    assert Generated(Command(hooks[i].start, hooks[i].stop, hooks[i].elevated, ""));
  }

  // A rule that removes generated commands only leaves the user's.
  lemma {:induction false} KeepUser(entries: seq<Command>, rule: Rule)
    requires forall c :: rule.Removes(c) ==> Legacy.Removes(c)
    ensures Keep(Keep(entries, rule), Legacy) == Keep(entries, Legacy)
  {
    hide Rule.Removes;
    if entries != [] {
      KeepUser(entries[1..], rule);
      var c := entries[0];
      KeepConcat([c], Keep(entries[1..], rule), Legacy);
      KeepOne(c, Legacy);
      assert [] + Keep(entries[1..], rule) == Keep(entries[1..], rule);
    }
  }

  lemma {:induction false} StrippedUser(app: App, rule: Rule)
    requires forall c :: rule.Removes(c) ==> Legacy.Removes(c)
    ensures UserCommands(Stripped(app, rule)) == UserCommands(app)
    ensures app.App? ==> Stripped(app, rule).App? && Stripped(app, rule) == app.(prep := Stripped(app, rule).prep)
    ensures !app.App? ==> Stripped(app, rule) == app
  {
    hide Rule.Removes;
    if app.App? && app.prep.Commands? { KeepUser(app.prep.entries, rule); }
  }

  lemma {:induction false} RulesAreOurs(hooks: seq<OwnedHook>, application: string)
    requires Ours(hooks)
    ensures forall c :: Owned(hooks, application).Removes(c) ==> Legacy.Removes(c)
  {
    hide Generated, Ours;
    forall c | Owned(hooks, application).Removes(c) ensures Legacy.Removes(c) {
      OwnedIsGenerated(hooks, application, c);
    }
  }

  // ----- lists of applications -----

  // b is a, application by application, as far as the user's commands go.
  ghost predicate SameForUser(a: seq<App>, b: seq<App>) {
    && |a| == |b|
    && forall i | 0 <= i < |a| ::
         && UserCommands(b[i]) == UserCommands(a[i])
         && (a[i].App? ==> b[i].App? && b[i] == a[i].(prep := b[i].prep))
         && (!a[i].App? ==> b[i] == a[i])
  }

  lemma {:induction false} SameForUserView(a: seq<App>, b: seq<App>)
    requires SameForUser(a, b)
    ensures UserView(a) == UserView(b)
  {
    hide UserCommands;
    if a != [] {
      assert UserPart(b[0]) == UserPart(a[0]);
      assert SameForUser(a[1..], b[1..]);
      SameForUserView(a[1..], b[1..]);
    }
  }

  lemma {:induction false} UserViewConcat(a: seq<App>, b: seq<App>)
    ensures UserView(a + b) == UserView(a) + UserView(b)
  {
    hide UserPart;
    if a == [] {
      assert a + b == b;
      assert UserView(a) == [];
    } else {
      UserViewConcat(a[1..], b);
      UserViewCons(a[0], a[1..] + b);
      assert a + b == [a[0]] + (a[1..] + b);
      assert UserPart(a[0]) + (UserView(a[1..]) + UserView(b)) == UserPart(a[0]) + UserView(a[1..]) + UserView(b);
    }
  }

  lemma {:induction false} UserViewCons(app: App, rest: seq<App>)
    ensures UserView([app] + rest) == UserPart(app) + UserView(rest)
  {
    assert ([app] + rest)[1..] == rest;
  }

  lemma {:induction false} GeneratedCountConcat(a: seq<App>, b: seq<App>)
    ensures GeneratedCount(a + b) == GeneratedCount(a) + GeneratedCount(b)
  {
    hide GeneratedIn;
    if a == [] {
      assert a + b == b;
    } else {
      GeneratedCountConcat(a[1..], b);
      assert (a + b)[1..] == a[1..] + b;
    }
  }

  lemma {:induction false} NoneGenerated(apps: seq<App>)
    requires forall i | 0 <= i < |apps| :: GeneratedIn(apps[i]) == 0
    ensures GeneratedCount(apps) == 0
  {
    hide GeneratedIn;
    if apps != [] { NoneGenerated(apps[1..]); }
  }

  // ----- one Configure -----

  lemma {:induction false} ScrubbedUser(app: App, hooks: seq<OwnedHook>)
    requires Ours(hooks)
    ensures UserCommands(Scrubbed(app, hooks)) == UserCommands(app)
    ensures app.App? ==> Scrubbed(app, hooks).App? && Scrubbed(app, hooks) == app.(prep := Scrubbed(app, hooks).prep)
    ensures !app.App? ==> Scrubbed(app, hooks) == app
    ensures GeneratedIn(Scrubbed(app, hooks)) == 0
  {
    hide Rule.Removes, Ours;
    RulesAreOurs(hooks, NameOf(app));
    var owned := Stripped(app, Owned(hooks, NameOf(app)));
    StrippedUser(app, Owned(hooks, NameOf(app)));
    StrippedUser(owned, Legacy);
    if owned.App? && owned.prep.Commands? {
      KeepUser(owned.prep.entries, Legacy);
      KeepAll(owned.prep.entries, Legacy);
    }
  }

  lemma {:induction false} ScrubAllUser(apps: seq<App>, hooks: seq<OwnedHook>)
    requires Ours(hooks)
    ensures SameForUser(apps, ScrubAll(apps, hooks)) && GeneratedCount(ScrubAll(apps, hooks)) == 0
  {
    hide UserCommands, GeneratedIn, Scrubbed, Ours;
    var scrubbed := ScrubAll(apps, hooks);
    forall i | 0 <= i < |apps|
      ensures UserCommands(scrubbed[i]) == UserCommands(apps[i]) && GeneratedIn(scrubbed[i]) == 0
      ensures apps[i].App? ==> scrubbed[i].App? && scrubbed[i] == apps[i].(prep := scrubbed[i].prep)
      ensures !apps[i].App? ==> scrubbed[i] == apps[i]
    {
      ScrubbedUser(apps[i], hooks);
    }
    NoneGenerated(scrubbed);
  }

  lemma {:induction false} WithHookUser(app: App, r: Request)
    requires app.App? && Recognised(r)
    ensures UserCommands(WithHook(app, r.companionPath)) == UserCommands(app)
    ensures GeneratedIn(WithHook(app, r.companionPath)) == GeneratedIn(app) + 1
  {
    hide Generated, ManagedHook;
    var entries := if app.prep.Commands? then app.prep.entries else [];
    KeepConcat(entries, [ManagedHook(r.companionPath)], Legacy);
    KeepOne(ManagedHook(r.companionPath), Legacy);
  }

  // Replacing one application by itself with our hook.
  lemma {:induction false} HookOneApplication(apps: seq<App>, index: nat, r: Request)
    requires index < |apps| && apps[index].App? && Recognised(r)
    ensures var after := apps[index := WithHook(apps[index], r.companionPath)];
            UserView(after) == UserView(apps) && GeneratedCount(after) == GeneratedCount(apps) + 1
  {
    hide UserCommands, GeneratedIn, WithHook, Recognised;
    var app := apps[index];
    var hooked := WithHook(app, r.companionPath);
    var after := apps[index := hooked];
    WithHookUser(app, r);
    assert hooked == app.(prep := hooked.prep) by { WithHookShape(app, r.companionPath); }
    assert SameForUser(apps, after);
    SameForUserView(apps, after);
    GeneratedCountReplaced(apps, index, hooked);
  }

  lemma {:induction false} GeneratedCountReplaced(apps: seq<App>, index: nat, app: App)
    requires index < |apps|
    ensures GeneratedCount(apps[index := app]) == GeneratedCount(apps) - GeneratedIn(apps[index]) + GeneratedIn(app)
  {
    hide GeneratedIn;
    if index == 0 {
      assert apps[0 := app][1..] == apps[1..];
    } else {
      GeneratedCountReplaced(apps[1..], index - 1, app);
      assert apps[index := app][1..] == apps[1..][index - 1 := app];
    }
  }

  lemma {:induction false} WithHookShape(app: App, companionPath: string)
    requires app.App?
    ensures WithHook(app, companionPath).App?
    ensures WithHook(app, companionPath) == app.(prep := WithHook(app, companionPath).prep)
  {
  }

  lemma {:induction false} ConfigureKeepsUserCommands(a: Apps, r: Request)
    requires Ours(a.hooks) && Recognised(r)
    ensures UserView(Configured(a, r).apps) == UserView(a.apps)
    ensures GeneratedCount(Configured(a, r).apps) == if r.native then 0 else 1
    ensures Ours(Configured(a, r).hooks)
  {
    hide UserCommands, GeneratedIn, Scrubbed, AdoptAll, Listed, Generated, WithHook;
    ScrubAllUser(a.apps, a.hooks);
    var scrubbed := ScrubAll(a.apps, a.hooks);
    SameForUserView(a.apps, scrubbed);
    if !r.native {
      var index := FirstNamed(scrubbed, r.name);
      var apps := if index == |scrubbed| then scrubbed + [NewApp(r.name)] else scrubbed;
      UserViewConcat(scrubbed, [NewApp(r.name)]);
      GeneratedCountConcat(scrubbed, [NewApp(r.name)]);
      assert [NewApp(r.name)][1..] == [];
      assert UserCommands(NewApp(r.name)) == [] && GeneratedIn(NewApp(r.name)) == 0 by { NewAppHasNone(r.name); }
      HookOneApplication(apps, index, r);
    }
  }

  lemma {:induction false} NewAppHasNone(name: string)
    ensures UserCommands(NewApp(name)) == [] && GeneratedIn(NewApp(name)) == 0
  {
  }

  // ----- cleanup -----

  lemma {:induction false} StripAllUser(apps: seq<App>, hooks: seq<OwnedHook>)
    requires Ours(hooks)
    ensures SameForUser(apps, StripAll(apps, hooks))
  {
    hide UserCommands, Stripped, Ours, Rule.Removes;
    forall i | 0 <= i < |apps|
      ensures var s := Stripped(apps[i], Owned(hooks, NameOf(apps[i])));
              && UserCommands(s) == UserCommands(apps[i])
              && (apps[i].App? ==> s.App? && s == apps[i].(prep := s.prep))
              && (!apps[i].App? ==> s == apps[i])
    {
      RulesAreOurs(hooks, NameOf(apps[i]));
      StrippedUser(apps[i], Owned(hooks, NameOf(apps[i])));
    }
  }

  lemma {:induction false} DropCreatedUser(apps: seq<App>, name: string)
    ensures UserView(DropCreated(apps, name)) == UserView(apps)
  {
    var index := FirstNamed(apps, name);
    if index < |apps| && IsUnchangedGenerated(apps[index]) {
      assert UserPart(apps[index]) == [];
      UserViewWithout(apps, index);
    }
  }

  lemma {:induction false} UserViewWithout(apps: seq<App>, index: nat)
    requires index < |apps| && UserPart(apps[index]) == []
    ensures UserView(apps[..index] + apps[index + 1..]) == UserView(apps)
  {
    hide UserPart;
    var app := apps[index];
    var rest := apps[index + 1..];
    assert apps == apps[..index] + ([app] + rest);
    UserViewConcat(apps[..index], [app] + rest);
    UserViewConcat(apps[..index], rest);
    UserViewCons(app, rest);
    hide UserView;
    assert UserPart(app) + UserView(rest) == UserView(rest);
  }

  lemma {:induction false} DropAllCreatedUser(apps: seq<App>, created: seq<string>)
    ensures UserView(DropAllCreated(apps, created)) == UserView(apps)
    decreases |created|
  {
    hide DropCreated, UserView;
    if created != [] {
      DropAllCreatedUser(apps, created[..|created| - 1]);
      DropCreatedUser(DropAllCreated(apps, created[..|created| - 1]), created[|created| - 1]);
    }
  }

  lemma {:induction false} CleanupKeepsUserCommands(a: Apps)
    requires Ours(a.hooks)
    ensures UserView(CleanedApps(a)) == UserView(a.apps)
  {
    StripAllUser(a.apps, a.hooks);
    SameForUserView(a.apps, StripAll(a.apps, a.hooks));
    DropAllCreatedUser(StripAll(a.apps, a.hooks), a.created);
  }

  // ----- any number of Configures -----

  function ConfiguredAll(a: Apps, requests: seq<Request>): Apps
    decreases requests
  {
    if requests == [] then a else ConfiguredAll(Configured(a, requests[0]), requests[1..])
  }

  // After any number of Configures there is exactly one generated hook in hook mode and
  // none in native mode, and neither they nor a cleanup touched a user's command.
  lemma {:induction false} AnyNumberOfConfigures(a: Apps, requests: seq<Request>)
    requires Ours(a.hooks) && forall i | 0 <= i < |requests| :: Recognised(requests[i])
    ensures var c := ConfiguredAll(a, requests);
            && UserView(c.apps) == UserView(a.apps)
            && UserView(CleanedApps(c)) == UserView(a.apps)
            && (requests != [] ==>
                  GeneratedCount(c.apps) == if requests[|requests| - 1].native then 0 else 1)
    decreases requests
  {
    hide Configured, UserView, CleanedApps, GeneratedCount, Ours, Recognised;
    if requests == [] {
      CleanupKeepsUserCommands(a);
    } else {
      var next := Configured(a, requests[0]);
      ConfigureKeepsUserCommands(a, requests[0]);
      AnyNumberOfConfigures(next, requests[1..]);
      if |requests| == 1 { assert ConfiguredAll(next, requests[1..]) == next; }
    }
  }

  // ----- a first Configure and its cleanup -----

  ghost predicate Untouched(a: Apps) {
    a.hooks == [] && a.created == [] && forall i | 0 <= i < |a.apps| :: GeneratedIn(a.apps[i]) == 0
  }

  // Nothing is taken from a list without generated commands.
  lemma {:induction false} StrippedNothing(app: App, rule: Rule)
    requires GeneratedIn(app) == 0
    requires forall c :: rule.Removes(c) ==> Legacy.Removes(c)
    ensures Stripped(app, rule) == app
  {
    hide Rule.Removes;
    if app.App? && app.prep.Commands? {
      KeepAll(app.prep.entries, Legacy);
      KeepAll(app.prep.entries, rule);
    }
  }

  lemma {:induction false} AdoptNothing(created: seq<string>, apps: seq<App>, name: string)
    requires forall i | 0 <= i < |apps| :: GeneratedIn(apps[i]) == 0
    ensures AdoptAll(created, apps, [], name) == created
    decreases |apps|
  {
    hide GeneratedIn, Rule.Removes, SameText, IsUnchangedGenerated, Listed, Stripped;
    if apps != [] {
      var app := apps[|apps| - 1];
      AdoptNothing(created, apps[..|apps| - 1], name);
      assert Ours([]);
      RulesAreOurs([], NameOf(app));
      StrippedNothing(app, Owned([], NameOf(app)));
      StrippedNothing(app, Legacy);
    }
  }

  lemma {:induction false} StripAllNothing(apps: seq<App>, hooks: seq<OwnedHook>)
    requires Ours(hooks) && forall i | 0 <= i < |apps| :: GeneratedIn(apps[i]) == 0
    ensures StripAll(apps, hooks) == apps
  {
    hide GeneratedIn, Rule.Removes, Stripped, Ours;
    forall i | 0 <= i < |apps| ensures Stripped(apps[i], Owned(hooks, NameOf(apps[i]))) == apps[i] {
      RulesAreOurs(hooks, NameOf(apps[i]));
      StrippedNothing(apps[i], Owned(hooks, NameOf(apps[i])));
    }
  }

  lemma {:induction false} ScrubAllNothing(apps: seq<App>)
    requires forall i | 0 <= i < |apps| :: GeneratedIn(apps[i]) == 0
    ensures ScrubAll(apps, []) == apps
  {
    hide GeneratedIn, Rule.Removes, Stripped;
    forall i | 0 <= i < |apps| ensures Scrubbed(apps[i], []) == apps[i] {
      RulesAreOurs([], NameOf(apps[i]));
      StrippedNothing(apps[i], Owned([], NameOf(apps[i])));
      StrippedNothing(apps[i], Legacy);
    }
  }

  function HookFor(app: App, r: Request): OwnedHook {
    OwnedHook(NameOf(app), BuildStartCommand(r.companionPath), BuildStopCommand(r.companionPath), true)
  }

  // Taking our hook out again gives the application back, unless it had an empty list or
  // something that was not a list.
  lemma {:induction false} HookIsTakenOut(app: App, r: Request)
    requires app.App? && GeneratedIn(app) == 0 && Recognised(r)
    ensures Stripped(WithHook(app, r.companionPath), Owned([HookFor(app, r)], NameOf(app))) ==
            if app.prep.NotAList? || app.prep == Commands([]) then app.(prep := NoPrep) else app
  {
    hide Rule.Removes, BuildStartCommand, BuildStopCommand, Generated;
    var rule := Owned([HookFor(app, r)], NameOf(app));
    var hook := ManagedHook(r.companionPath);
    var entries := if app.prep.Commands? then app.prep.entries else [];
    assert Ours([HookFor(app, r)]) by { HookForIsOurs(app, r); }
    RulesAreOurs([HookFor(app, r)], NameOf(app));
    KeepAll(entries, Legacy);
    KeepAll(entries, rule);
    KeepConcat(entries, [hook], rule);
    KeepOne(hook, rule);
    OwnHookIsRemoved(app, r);
    assert Keep(entries + [hook], rule) == entries;
  }

  lemma {:induction false} HookForIsOurs(app: App, r: Request)
    requires Recognised(r)
    ensures Ours([HookFor(app, r)])
  {
    hide IsGeneratedStartCommand, IsGeneratedStopCommand, BuildStartCommand, BuildStopCommand;
  }

  lemma {:induction false} OwnHookIsRemoved(app: App, r: Request)
    ensures Owned([HookFor(app, r)], NameOf(app)).Removes(ManagedHook(r.companionPath))
  {
    hide BuildStartCommand, BuildStopCommand;
    assert [HookFor(app, r)][0] == HookFor(app, r);
  }

  ghost predicate Restorable(app: App) {
    app.App? ==> !app.prep.NotAList? && app.prep != Commands([])
  }

  lemma {:induction false} FirstConfigureShape(a: Apps, r: Request)
    requires Untouched(a) && !r.native
    ensures var index := FirstNamed(a.apps, r.name);
            var apps := if index == |a.apps| then a.apps + [NewApp(r.name)] else a.apps;
            index < |apps| && apps[index].App? &&
            Configured(a, r) == Apps(apps[index := WithHook(apps[index], r.companionPath)], [HookFor(apps[index], r)],
                                     if index == |a.apps| then [r.name] else [])
  {
    hide GeneratedIn, WithHook, SameText, BuildStartCommand, BuildStopCommand;
    ScrubAllNothing(a.apps);
    AdoptNothing([], a.apps, r.name);
    assert [] + [r.name] == [r.name];
  }

  // Stopped before apps.json is written, cleanup leaves the list as it was.
  lemma {:induction false} UnwrittenListIsKept(a: Apps, r: Request)
    requires Untouched(a) && Recognised(r)
    ensures var c := Configured(a, r);
            CleanedApps(Apps(a.apps, c.hooks, c.created)) == a.apps
  {
    ConfigureKeepsUserCommands(a, r);
    hide GeneratedIn, WithHook, SameText, UserView, GeneratedCount, Ours, Recognised;
    var c := Configured(a, r);
    StripAllNothing(a.apps, c.hooks);
    if r.native {
      AdoptNothing([], a.apps, r.name);
    } else {
      FirstConfigureShape(a, r);
      if c.created != [] { DropOne(a.apps, r.name); }
    }
  }

  lemma {:induction false} DropOne(apps: seq<App>, name: string)
    ensures DropAllCreated(apps, [name]) == DropCreated(apps, name)
  {
    assert [name][..0] == [];
  }

  // Stripping our hook from the list it was added to touches that application only.
  lemma {:induction false} HookedListIsStripped(apps: seq<App>, index: nat, r: Request)
    requires index < |apps| && apps[index].App? && Recognised(r)
    requires forall i | 0 <= i < |apps| :: GeneratedIn(apps[i]) == 0
    ensures var app := apps[index];
            StripAll(apps[index := WithHook(app, r.companionPath)], [HookFor(app, r)]) ==
            apps[index := if app.prep.NotAList? || app.prep == Commands([]) then app.(prep := NoPrep) else app]
  {
    var app := apps[index];
    HookForIsOurs(app, r);
    HookIsTakenOut(app, r);
    WithHookShape(app, r.companionPath);
    hide GeneratedIn, WithHook, Ours, Recognised, Stripped, HookFor;
    StripAllNothing(apps, [HookFor(app, r)]);
  }

  // After a complete first Configure, cleanup gives back the list exactly when the
  // application of our name, if there was one, had a non-empty list or none.
  lemma {:induction false} FirstConfigureListIsUndone(a: Apps, r: Request)
    requires Untouched(a) && Recognised(r) && !r.native
    ensures var index := FirstNamed(a.apps, r.name);
            CleanedApps(Configured(a, r)) == a.apps <==>
            index < |a.apps| ==> Restorable(a.apps[index])
  {
    FirstConfigureShape(a, r);
    hide FirstNamed, Configured, CleanedApps, Recognised, WithHook, HookFor, Restorable;
    if FirstNamed(a.apps, r.name) == |a.apps| {
      NewApplicationIsDropped(a, r);
    } else {
      OldApplicationIsRestored(a, r);
    }
  }

  lemma {:induction false} NewApplicationIsDropped(a: Apps, r: Request)
    requires Untouched(a) && Recognised(r) && !r.native && FirstNamed(a.apps, r.name) == |a.apps|
    ensures CleanedApps(Configured(a, r)) == a.apps
  {
    var index := |a.apps|;
    var apps := a.apps + [NewApp(r.name)];
    FirstConfigureShape(a, r);
    NewAppHasNone(r.name);
    assert IsUnchangedGenerated(apps[index]) && apps[index].App? && apps[index].prep == NoPrep;
    FirstNamedAtEnd(a.apps, r.name);
    hide FirstNamed, GeneratedIn, WithHook, Recognised, HookFor, Configured, StripAll, IsUnchangedGenerated, NewApp;
    HookedListIsStripped(apps, index, r);
    assert apps[index := apps[index]] == apps;
    DropOne(apps, r.name);
    assert apps[..index] + apps[index + 1..] == a.apps;
  }

  lemma {:induction false} OldApplicationIsRestored(a: Apps, r: Request)
    requires Untouched(a) && Recognised(r) && !r.native && FirstNamed(a.apps, r.name) < |a.apps|
    ensures CleanedApps(Configured(a, r)) == a.apps <==> Restorable(a.apps[FirstNamed(a.apps, r.name)])
  {
    FirstConfigureShape(a, r);
    var index := FirstNamed(a.apps, r.name);
    hide FirstNamed, GeneratedIn, WithHook, Recognised, HookFor, Configured, StripAll;
    HookedListIsStripped(a.apps, index, r);
    var app := a.apps[index];
    assert a.apps[index := app] == a.apps;
    assert a.apps[index := app.(prep := NoPrep)][index] == app.(prep := NoPrep);
  }

  lemma {:induction false} FirstNamedAtEnd(apps: seq<App>, name: string)
    requires FirstNamed(apps, name) == |apps|
    ensures FirstNamed(apps + [NewApp(name)], name) == |apps|
  {
    hide SameText;
    var all := apps + [NewApp(name)];
    var index := FirstNamed(all, name);
    assert forall i | 0 <= i < |apps| :: all[i] == apps[i];
    assert Named(all[|apps|], name) by { NewAppIsNamed(name); }
  }

  lemma {:induction false} NewAppIsNamed(name: string)
    ensures Named(NewApp(name), name)
  {
  }
}
