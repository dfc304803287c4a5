/** What becomes of our hook in apps.json when a later Configure stops between the journal
    and apps.json and the cleanup follows. */
module SunshineHookStops {
  import opened HostText
  import opened SunshineHooks
  import opened SunshineHookRuns

  // A list with our hook added to one application and no other generated command.
  datatype Placed = Placed(base: seq<App>, index: nat, path: string)

  ghost predicate Sole(p: Placed) {
    && p.index < |p.base| && p.base[p.index].App? && Generated(ManagedHook(p.path))
    && forall i | 0 <= i < |p.base| :: GeneratedIn(p.base[i]) == 0
  }

  function ListOf(p: Placed): seq<App>
    requires p.index < |p.base| && p.base[p.index].App?
  {
    p.base[p.index := WithHook(p.base[p.index], p.path)]
  }

  lemma {:induction false} ConfiguredIsPlaced(a: Apps, r: Request) returns (p: Placed)
    requires Ours(a.hooks) && Recognised(r) && !r.native
    ensures Sole(p) && p.path == r.companionPath && Named(p.base[p.index], r.name)
    ensures Configured(a, r).apps == ListOf(p)
    ensures Configured(a, r).hooks == [HookFor(p.base[p.index], r)]
  {
    hide GeneratedIn, Generated, ManagedHook, BuildStartCommand,
         BuildStopCommand, Named, NewApp, Ours, AdoptAll, Listed,
         WithHook, Scrubbed;
    var scrubbed := ScrubAll(a.apps, a.hooks);
    ScrubbedHasNone(a.apps, a.hooks);
    var index := FirstNamed(scrubbed, r.name);
    var base := if index == |scrubbed| then scrubbed + [NewApp(r.name)] else scrubbed;
    NewAppHasNone(r.name);
    NewAppIsNamed(r.name);
    NamedIsApp(base[index], r.name);
    p := Placed(base, index, r.companionPath);
  }

  lemma {:induction false} NamedIsApp(app: App, name: string)
    requires Named(app, name)
    ensures app.App? && SameText(NameOf(app), name)
  {
  }

  lemma {:induction false} ScrubbedHasNone(apps: seq<App>, hooks: seq<OwnedHook>)
    requires Ours(hooks)
    ensures forall i | 0 <= i < |apps| :: GeneratedIn(ScrubAll(apps, hooks)[i]) == 0
  {
    hide GeneratedIn, Scrubbed, Ours;
    forall i | 0 <= i < |apps| ensures GeneratedIn(ScrubAll(apps, hooks)[i]) == 0 { ScrubbedUser(apps[i], hooks); }
  }

  // The application with the hook, after taking owned hooks out.
  lemma {:induction false} HookedStripped(app: App, path: string, hooks: seq<OwnedHook>)
    requires app.App? && GeneratedIn(app) == 0 && Generated(ManagedHook(path)) && Ours(hooks)
    ensures GeneratedIn(Stripped(WithHook(app, path), Owned(hooks, NameOf(app)))) ==
            if Owned(hooks, NameOf(app)).Removes(ManagedHook(path)) then 0 else 1
  {
    var rule, hook := Owned(hooks, NameOf(app)), ManagedHook(path);
    var entries := if app.prep.Commands? then app.prep.entries else [];
    hide Rule.Removes, Generated, ManagedHook, Ours;
    RulesAreOurs(hooks, NameOf(app));
    KeepAll(entries, Legacy);
    KeepAll(entries, rule);
    KeepConcat(entries, [hook], rule);
    KeepConcat(entries, [hook], Legacy);
    KeepOne(hook, rule);
    KeepOne(hook, Legacy);
    assert Legacy.Removes(hook) by { LegacyRemoves(hook); }
    assert Keep(entries, rule) == entries && Keep(entries, Legacy) == entries;
    assert entries + [] == entries;
    var hooked := WithHook(app, path);
    assert hooked.prep == Commands(entries + [hook]) && |Keep(hooked.prep.entries, Legacy)| == |entries|;
    if rule.Removes(hook) {
      assert Keep(hooked.prep.entries, rule) == entries;
    } else {
      assert Keep(hooked.prep.entries, rule) == entries + [hook];
    }
  }

  lemma {:induction false} LegacyRemoves(c: Command)
    ensures Legacy.Removes(c) <==> Generated(c)
  {
  }

  lemma {:induction false} StrippedCount(p: Placed, hooks: seq<OwnedHook>)
    requires Sole(p) && Ours(hooks)
    ensures GeneratedCount(StripAll(ListOf(p), hooks)) ==
            if Owned(hooks, NameOf(p.base[p.index])).Removes(ManagedHook(p.path)) then 0 else 1
  {
    var app, after := p.base[p.index], StripAll(ListOf(p), hooks);
    WithHookShape(app, p.path);
    hide GeneratedIn, Rule.Removes, Generated, ManagedHook, Ours, WithHook, Stripped;
    HookedStripped(app, p.path, hooks);
    StripAllNothing(p.base, hooks);
    assert after == p.base[p.index := after[p.index]];
    NoneGenerated(p.base);
    GeneratedCountReplaced(p.base, p.index, after[p.index]);
  }

  // Applications are dropped only without commands.
  lemma {:induction false} DropCreatedCount(apps: seq<App>, name: string)
    ensures GeneratedCount(DropCreated(apps, name)) == GeneratedCount(apps)
  {
    hide GeneratedIn, FirstNamed;
    var index := FirstNamed(apps, name);
    if index < |apps| && IsUnchangedGenerated(apps[index]) {
      var rest := apps[index + 1..];
      assert apps == apps[..index] + ([apps[index]] + rest) && ([apps[index]] + rest)[1..] == rest;
      GeneratedCountConcat(apps[..index], [apps[index]] + rest);
      GeneratedCountConcat(apps[..index], rest);
      assert GeneratedIn(apps[index]) == 0 by { UnchangedHasNone(apps[index]); }
    }
  }

  lemma {:induction false} UnchangedHasNone(app: App)
    requires IsUnchangedGenerated(app)
    ensures GeneratedIn(app) == 0
  {
  }

  lemma {:induction false} DropAllCreatedCount(apps: seq<App>, created: seq<string>)
    ensures GeneratedCount(DropAllCreated(apps, created)) == GeneratedCount(apps)
    decreases |created|
  {
    hide DropCreated, GeneratedCount;
    if created != [] {
      DropAllCreatedCount(apps, created[..|created| - 1]);
      DropCreatedCount(DropAllCreated(apps, created[..|created| - 1]), created[|created| - 1]);
    }
  }

  // A command starts the same companion exactly if it is spelled the same.
  lemma {:induction false} SameHook(path: string, other: string)
    ensures BuildStartCommand(path) == BuildStartCommand(other) <==> path == other
  {
    var a, b := BuildStartCommand(path), BuildStartCommand(other);
    if a == b {
      var n := |START_PREFIX|;
      assert |a| == n + |path| + |"\"" + START_ARGUMENTS + "\""|
             && |b| == n + |other| + |"\"" + START_ARGUMENTS + "\""|;
      assert a[n..n + |path|] == path && b[n..n + |other|] == other;
    }
  }

  lemma {:induction false} OneHookRemoves(app: App, r: Request, name: string, path: string)
    ensures Owned([HookFor(app, r)], name).Removes(ManagedHook(path)) <==>
            SameText(NameOf(app), name) && r.companionPath == path
    ensures !Owned([], name).Removes(ManagedHook(path))
  {
    hide SameText, NameOf, BuildStartCommand, BuildStopCommand;
    SameHook(r.companionPath, path);
    var hooks := [HookFor(app, r)];
    assert |hooks| == 1 && hooks[0] == HookFor(app, r);
  }

  // After any complete Configure in hook mode, the next one stops between the journal and
  // apps.json. Cleanup then takes the hook in the file out exactly if the new hook is for
  // the same application and the same companion.
  lemma {:induction false} InterruptedHookReconfigure(a: Apps, r: Request, next: Request)
    requires Ours(a.hooks) && Recognised(r) && Recognised(next) && !r.native
    ensures var c := Configured(a, r);
            var d := Configured(c, next);
            GeneratedCount(CleanedApps(Apps(c.apps, d.hooks, d.created))) ==
            if !next.native && SameText(next.name, r.name) && next.companionPath == r.companionPath then 0 else 1
  {
    hide GeneratedCount, StripAll, Configured, Ours, Recognised,
         HookFor, Rule.Removes, ManagedHook, Sole, ListOf, Named,
         NameOf;
    var c := Configured(a, r);
    var d := Configured(c, next);
    ConfigureKeepsUserCommands(a, r);
    ConfigureKeepsUserCommands(c, next);
    var p := ConfiguredIsPlaced(a, r);
    assert p.index < |p.base| by { SoleHas(p); }
    var app := p.base[p.index];
    StrippedCount(p, d.hooks);
    DropAllCreatedCount(StripAll(c.apps, d.hooks), d.created);
    NamedIsApp(app, r.name);
    if next.native {
      NativeHasNoHooks(c, next);
      OneHookRemoves(app, next, NameOf(app), r.companionPath);
    } else {
      var q := ConfiguredIsPlaced(c, next);
      SoleHas(q);
      NamedIsApp(q.base[q.index], next.name);
      OneHookRemoves(q.base[q.index], next, NameOf(app), r.companionPath);
    }
  }

  lemma {:induction false} SoleHas(p: Placed)
    requires Sole(p)
    ensures p.index < |p.base| && p.base[p.index].App?
  {
  }

  lemma {:induction false} NativeHasNoHooks(a: Apps, r: Request)
    requires r.native
    ensures Configured(a, r).hooks == []
  {
  }

  // After complete Configures cleanup leaves no hook of ours, whatever the modes were.
  lemma {:induction false} CompleteConfiguresLeaveNoHook(a: Apps, requests: seq<Request>)
    requires Ours(a.hooks) && requests != [] && forall i | 0 <= i < |requests| :: Recognised(requests[i])
    ensures GeneratedCount(CleanedApps(ConfiguredAll(a, requests))) == 0
    decreases requests
  {
    hide GeneratedCount, StripAll, Configured, Ours, Recognised,
         HookFor, Rule.Removes, ManagedHook, Sole, ListOf, Named,
         NameOf, DropAllCreated;
    var r := requests[0];
    var c := Configured(a, r);
    ConfigureKeepsUserCommands(a, r);
    if |requests| > 1 {
      CompleteConfiguresLeaveNoHook(c, requests[1..]);
    } else {
      assert ConfiguredAll(c, requests[1..]) == c;
      DropAllCreatedCount(StripAll(c.apps, c.hooks), c.created);
      if r.native {
        NativeHasNoHooks(a, r);
        NothingOwned(c.apps);
      } else {
        var p := ConfiguredIsPlaced(a, r);
        SoleHas(p);
        StrippedCount(p, c.hooks);
        OneHookRemoves(p.base[p.index], r, NameOf(p.base[p.index]), r.companionPath);
      }
    }
  }

  lemma {:induction false} NothingOwned(apps: seq<App>)
    ensures StripAll(apps, []) == apps
  {
    forall i | 0 <= i < |apps| ensures Stripped(apps[i], Owned([], NameOf(apps[i]))) == apps[i] {
      if apps[i].App? && apps[i].prep.Commands? { KeepAll(apps[i].prep.entries, Owned([], NameOf(apps[i]))); }
    }
  }
}
