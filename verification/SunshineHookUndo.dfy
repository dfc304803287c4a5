/** apps.json over whole runs: what cleanup gives back after any number of complete
    Configures, and what holds when each attempt may stop after any of its writes. */
module SunshineHookUndo {
  import opened HostText
  import opened SunshineHooks
  import opened SunshineHookRuns
  import opened SunshineHookStops
  import opened SunshineUndo

  // ----- complete Configures -----

  // The list with the application of this name, a new one at its end if there was none.
  function Based(base: seq<App>, name: string): seq<App> {
    if FirstNamed(base, name) == |base| then base + [NewApp(name)] else base
  }

  // What hook and removal leave of an application.
  function Freed(app: App): App {
    if app.App? && (app.prep.NotAList? || app.prep == Commands([])) then app.(prep := NoPrep) else app
  }

  function FreedAt(base: seq<App>, index: nat): seq<App>
    requires index < |base|
  {
    base[index := Freed(base[index])]
  }

  // The list without our hook after one more Configure.
  function Settled(base: seq<App>, r: Request): seq<App> {
    if r.native then base else FreedAt(Based(base, r.name), FirstNamed(base, r.name))
  }

  function SettledAll(base: seq<App>, requests: seq<Request>): seq<App>
    decreases requests
  {
    if requests == [] then base else SettledAll(Settled(base, requests[0]), requests[1..])
  }

  // Without our hook the list is base, which ends with the applications that were created.
  ghost predicate Stands(a: Apps, base: seq<App>, n: nat) {
    && Ours(a.hooks) && Clear(base) && StripAll(a.apps, a.hooks) == base
    && Made(base, a.created, n)
  }

  ghost predicate Clear(base: seq<App>) {
    forall i | 0 <= i < |base| :: GeneratedIn(base[i]) == 0
  }

  ghost predicate Made(base: seq<App>, created: seq<string>, n: nat) {
    && |base| == n + |created|
    && forall i | 0 <= i < |created| :: base[n + i] == NewApp(created[i]) && FirstNamed(base, created[i]) == n + i
  }

  lemma {:induction false} SameFirst(a: seq<App>, b: seq<App>, name: string)
    requires FirstNamed(a, name) < |a| <= |b|
    requires forall i | 0 <= i < |a| :: Named(b[i], name) <==> Named(a[i], name)
    ensures FirstNamed(b, name) == FirstNamed(a, name)
  {
    hide Named;
    var i, j := FirstNamed(a, name), FirstNamed(b, name);
    assert Named(b[i], name);
  }

  // Our hook is the only generated command, so scrubbing is taking it out.
  lemma {:induction false} ScrubbedIsStripped(a: Apps, base: seq<App>, n: nat, name: string)
    requires Stands(a, base, n)
    ensures ScrubAll(a.apps, a.hooks) == base && AdoptAll(a.created, a.apps, a.hooks, name) == a.created
  {
    hide GeneratedIn, Rule.Removes, Ours, Made, SameText, Listed, IsUnchangedGenerated;
    forall i | 0 <= i < |a.apps|
      ensures var owned := Stripped(a.apps[i], Owned(a.hooks, NameOf(a.apps[i])));
              owned == base[i] && Stripped(owned, Legacy) == owned
    {
      assert StripAll(a.apps, a.hooks)[i] == base[i];
      StrippedNothing(base[i], Legacy);
    }
    hide Stripped;
    NothingAdopted(a.created, a.apps, a.hooks, name);
  }

  lemma {:induction false} NothingAdopted(created: seq<string>, apps: seq<App>, hooks: seq<OwnedHook>, name: string)
    requires forall i | 0 <= i < |apps| ::
               var owned := Stripped(apps[i], Owned(hooks, NameOf(apps[i]))); Stripped(owned, Legacy) == owned
    ensures AdoptAll(created, apps, hooks, name) == created
    decreases |apps|
  {
    hide Stripped, SameText, Listed, IsUnchangedGenerated;
    if apps != [] {
      NothingAdopted(created, apps[..|apps| - 1], hooks, name);
      assert apps[..|apps| - 1] + [apps[|apps| - 1]] == apps;
    }
  }

  lemma {:induction false} FirstIs(apps: seq<App>, name: string, n: nat)
    requires n < |apps| && Named(apps[n], name) && forall i | 0 <= i < n :: !Named(apps[i], name)
    ensures FirstNamed(apps, name) == n
  {
    hide Named;
  }

  lemma {:induction false} CreatedIsNamed(name: string)
    ensures IsUnchangedGenerated(NewApp(name)) && Freed(NewApp(name)) == NewApp(name) && NewApp(name).App?
    ensures forall other :: Named(NewApp(name), other) <==> SameText(name, other)
  {
    hide SameText;
  }

  lemma {:induction false} FreedKeepsName(app: App)
    ensures forall name :: Named(Freed(app), name) <==> Named(app, name)
    ensures app.App? ==> Freed(app).App?
  {
    hide SameText;
  }

  // Freeing an application leaves the created ones in place.
  lemma {:induction false} FreedIsMade(base: seq<App>, created: seq<string>, n: nat, index: nat)
    requires Made(base, created, n) && index < |base|
    ensures Made(FreedAt(base, index), created, n)
  {
    hide Named, NewApp, Freed, FirstNamed;
    var after := FreedAt(base, index);
    FreedKeepsName(base[index]);
    forall i | 0 <= i < |created| ensures after[n + i] == NewApp(created[i]) && FirstNamed(after, created[i]) == n + i {
      CreatedIsNamed(created[i]);
      SameFirst(base, after, created[i]);
    }
  }

  lemma {:induction false} OneMoreMade(base: seq<App>, created: seq<string>, n: nat, name: string)
    requires Made(base, created, n) && FirstNamed(base, name) == |base|
    ensures Made(base + [NewApp(name)], created + [name], n) && !Listed(created, name)
  {
    hide Named, NewApp, FirstNamed, SameText;
    var after, names := base + [NewApp(name)], created + [name];
    forall i | 0 <= i < |created| ensures after[n + i] == NewApp(names[i]) && FirstNamed(after, names[i]) == n + i {
      SameFirst(base, after, created[i]);
    }
    FirstNamedAtEnd(base, name);
    forall i | 0 <= i < |created| ensures !SameText(created[i], name) {
      CreatedIsNamed(created[i]);
      assert !Named(base[n + i], name);
    }
  }

  lemma {:induction false} BasedIsClear(base: seq<App>, r: Request, n: nat, created: seq<string>)
    requires Clear(base) && Made(base, created, n)
    ensures var index := FirstNamed(base, r.name);
            var all := Based(base, r.name);
            && index < |all| && all[index].App? && Clear(all)
            && Made(FreedAt(all, index), if index == |base| then created + [r.name] else created, n)
            && (index == |base| ==> !Listed(created, r.name))
  {
    hide GeneratedIn, NewApp, Made, Listed, SameText, Freed;
    var index := FirstNamed(base, r.name);
    var all := Based(base, r.name);
    NewAppHasNone(r.name);
    CreatedIsNamed(r.name);
    if index == |base| { OneMoreMade(base, created, n, r.name); }
    FreedIsMade(all, if index == |base| then created + [r.name] else created, n, index);
  }

  lemma {:induction false} StandsAfter(a: Apps, base: seq<App>, n: nat, r: Request)
    requires Stands(a, base, n) && Recognised(r)
    ensures Stands(Configured(a, r), Settled(base, r), n)
  {
    ConfigureKeepsUserCommands(a, r);
    ScrubbedIsStripped(a, base, n, r.name);
    hide GeneratedIn, Ours, AdoptAll, ScrubAll, StripAll, Made,
         Listed, WithHook, Recognised, HookFor, GeneratedCount, UserView,
         Clear, Freed, FirstNamed;
    if r.native {
      assert Clear(base);
      NativeIsClear(base);
    } else {
      var index, all := FirstNamed(base, r.name), Based(base, r.name);
      BasedIsClear(base, r, n, a.created);
      HookFreed(all, index, r);
      HookForIs(all[index], r);
    }
  }

  lemma {:induction false} HookForIs(app: App, r: Request)
    ensures HookFor(app, r) ==
            OwnedHook(NameOf(app), BuildStartCommand(r.companionPath), BuildStopCommand(r.companionPath), true)
  {
  }

  lemma {:induction false} NativeIsClear(base: seq<App>)
    requires Clear(base)
    ensures StripAll(base, []) == base
  {
    NothingOwned(base);
  }

  lemma {:induction false} HookFreed(all: seq<App>, index: nat, r: Request)
    requires index < |all| && all[index].App? && Clear(all) && Recognised(r)
    ensures StripAll(all[index := WithHook(all[index], r.companionPath)], [HookFor(all[index], r)]) ==
            FreedAt(all, index)
    ensures Clear(FreedAt(all, index))
  {
    hide WithHook, HookFor, Recognised, StripAll;
    HookedListIsStripped(all, index, r);
  }

  lemma {:induction false} StandsAfterAll(a: Apps, base: seq<App>, n: nat, requests: seq<Request>)
    requires Stands(a, base, n) && forall i | 0 <= i < |requests| :: Recognised(requests[i])
    ensures Stands(ConfiguredAll(a, requests), SettledAll(base, requests), n)
    decreases requests
  {
    hide Stands, Configured, Settled, Recognised;
    if requests != [] {
      StandsAfter(a, base, n, requests[0]);
      StandsAfterAll(Configured(a, requests[0]), Settled(base, requests[0]), n, requests[1..]);
    }
  }

  // Dropping what was created gives the rest.
  lemma {:induction false} MadeIsDropped(base: seq<App>, created: seq<string>, n: nat, k: nat)
    requires Made(base, created, n) && k <= |created|
    ensures DropAllCreated(base, created[..k]) == base[..n] + base[n + k..]
    decreases k
  {
    hide FirstNamed, Named, IsUnchangedGenerated, NewApp, DropCreated, Freed;
    if k == 0 {
      assert base[..n] + base[n..] == base && created[..0] == [];
    } else {
      MadeIsDropped(base, created, n, k - 1);
      assert created[..k][..k - 1] == created[..k - 1];
      OneMoreDropped(base, created, n, k);
      DropOneMore(base, created[..k]);
    }
  }

  lemma {:induction false} OneMoreDropped(base: seq<App>, created: seq<string>, n: nat, k: nat)
    requires Made(base, created, n) && 0 < k <= |created|
    ensures n + k <= |base|
    ensures DropCreated(base[..n] + base[n + k - 1..], created[k - 1]) == base[..n] + base[n + k..]
  {
    hide Named, IsUnchangedGenerated, NewApp, Freed;
    var before, name := base[..n] + base[n + k - 1..], created[k - 1];
    assert base[n + k - 1] == NewApp(name) && FirstNamed(base, name) == n + k - 1;
    CreatedIsNamed(name);
    NewAppIsNamed(name);
    assert before[n] == NewApp(name);
    assert forall i | 0 <= i < n :: before[i] == base[i] && !Named(base[i], name);
    hide FirstNamed;
    FirstIs(before, name, n);
    assert before[..n] + before[n + 1..] == base[..n] + base[n + k..];
  }

  lemma {:induction false} DropOneMore(apps: seq<App>, created: seq<string>)
    requires created != []
    ensures DropAllCreated(apps, created) ==
            DropCreated(DropAllCreated(apps, created[..|created| - 1]), created[|created| - 1])
  {
    hide DropCreated;
  }

  // ----- when the list is given back -----

  // The applications of the original list, some of them freed.
  ghost predicate Kin(original: seq<App>, base: seq<App>) {
    && |original| <= |base|
    && forall i | 0 <= i < |original| :: base[i] == original[i] || base[i] == Freed(original[i])
  }

  // The application that a request puts its hook in, if it was there from the beginning,
  // can be given back.
  ghost predicate Harmless(original: seq<App>, r: Request) {
    var index := FirstNamed(original, r.name);
    !r.native && index < |original| ==> Restorable(original[index])
  }

  lemma {:induction false} SettledKin(original: seq<App>, base: seq<App>, r: Request)
    requires Kin(original, base)
    ensures Kin(original, Settled(base, r))
    ensures Settled(base, r)[..|original|] == original <==> base[..|original|] == original && Harmless(original, r)
  {
    if !r.native {
      var index, first := FirstNamed(base, r.name), FirstNamed(original, r.name);
      forall i | 0 <= i < |original| ensures Named(base[i], r.name) <==> Named(original[i], r.name) { }
      if first < |original| {
        SameFirst(original, base, r.name);
        KinAt(original, base, Settled(base, r), first);
      } else {
        assert forall i | 0 <= i < |original| :: !Named(original[i], r.name);
        assert index >= |original|;
        assert forall i | 0 <= i < |original| :: Settled(base, r)[i] == base[i];
        assert Settled(base, r)[..|original|] == base[..|original|];
      }
    }
  }

  lemma {:induction false} KinAt(original: seq<App>, base: seq<App>, after: seq<App>, at: nat)
    requires Kin(original, base) && at < |original| && original[at].App?
    requires after == base[at := Freed(base[at])]
    ensures Kin(original, after)
    ensures after[..|original|] == original <==> base[..|original|] == original && Restorable(original[at])
  {
    var n := |original|;
    assert Freed(original[at]) == original[at] <==> Restorable(original[at]);
    assert Freed(Freed(original[at])) == Freed(original[at]);
    hide Freed, Restorable;
    assert after[at] == Freed(original[at]);
    if after[..n] == original {
      assert after[..n][at] == original[at];
      assert forall i | 0 <= i < n && i != at :: base[i] == after[..n][i] == original[i];
      assert base[at] == original[at];
      assert base[..n] == original;
    }
    if base[..n] == original && Restorable(original[at]) {
      assert base[..n][at] == base[at];
      assert forall i | 0 <= i < n && i != at :: after[i] == base[..n][i];
      assert after[..n] == original;
    }
  }

  lemma {:induction false} SettledAllKin(original: seq<App>, base: seq<App>, requests: seq<Request>)
    requires Kin(original, base)
    ensures Kin(original, SettledAll(base, requests))
    ensures SettledAll(base, requests)[..|original|] == original <==>
            base[..|original|] == original && forall i | 0 <= i < |requests| :: Harmless(original, requests[i])
    decreases requests
  {
    hide Settled, Harmless;
    if requests != [] {
      SettledKin(original, base, requests[0]);
      SettledAllKin(original, Settled(base, requests[0]), requests[1..]);
      assert forall i | 0 < i < |requests| :: requests[i] == requests[1..][i - 1];
    }
  }

  // After any number of complete Configures in any modes and under any application names,
  // cleanup gives the list back if and only if every application of the original list that
  // was given a hook had a non-empty list or none.
  lemma {:induction false} CompleteRunsAreUndone(a: Apps, requests: seq<Request>)
    requires Untouched(a) && forall i | 0 <= i < |requests| :: Recognised(requests[i])
    ensures CleanedApps(ConfiguredAll(a, requests)) == a.apps <==>
            forall i | 0 <= i < |requests| :: Harmless(a.apps, requests[i])
  {
    NothingOwned(a.apps);
    hide StripAll, GeneratedIn, Recognised, Configured, FirstNamed, Harmless, DropAllCreated;
    var base, n := SettledAll(a.apps, requests), |a.apps|;
    assert Stands(a, a.apps, n);
    StandsAfterAll(a, a.apps, n, requests);
    var c := ConfiguredAll(a, requests);
    MadeIsDropped(base, c.created, n, |c.created|);
    assert c.created[..|c.created|] == c.created && base[..n] + base[n + |c.created|..] == base[..n];
    SettledAllKin(a.apps, a.apps, requests);
    assert a.apps[..n] == a.apps;
  }

  // ----- attempts that may stop -----

  datatype Try = Try(request: Request, cut: Cut)

  // The journal is written first, then apps.json, then sunshine.conf.
  function AfterTry(a: Apps, t: Try): Apps {
    var done := Configured(a, t.request);
    match t.cut
    case BeforeJournal => a
    case AfterJournal => Apps(a.apps, done.hooks, done.created)
    case _ => done
  }

  function AfterTries(a: Apps, tries: seq<Try>): Apps
    decreases tries
  {
    if tries == [] then a else AfterTries(AfterTry(a, tries[0]), tries[1..])
  }

  function AtLeastOne(n: int): int { if n < 1 then 1 else n }

  lemma {:induction false} StrippedCounts(app: App, rule: Rule)
    requires forall c :: rule.Removes(c) ==> Legacy.Removes(c)
    ensures GeneratedIn(Stripped(app, rule)) <= GeneratedIn(app)
  {
    hide Rule.Removes;
    if app.App? && app.prep.Commands? {
      KeepUser(app.prep.entries, rule);
      KeepAll(app.prep.entries, rule);
    }
  }

  lemma {:induction false} CountsBelow(before: seq<App>, after: seq<App>)
    requires |before| == |after| && forall i | 0 <= i < |before| :: GeneratedIn(after[i]) <= GeneratedIn(before[i])
    ensures GeneratedCount(after) <= GeneratedCount(before)
  {
    hide GeneratedIn;
    if before != [] { CountsBelow(before[1..], after[1..]); }
  }

  lemma {:induction false} CleanupCounts(a: Apps)
    requires Ours(a.hooks)
    ensures GeneratedCount(CleanedApps(a)) <= GeneratedCount(a.apps)
  {
    hide GeneratedIn, Stripped, Ours, Rule.Removes, GeneratedCount, DropAllCreated;
    var stripped := StripAll(a.apps, a.hooks);
    forall i | 0 <= i < |a.apps| ensures GeneratedIn(stripped[i]) <= GeneratedIn(a.apps[i]) {
      RulesAreOurs(a.hooks, NameOf(a.apps[i]));
      StrippedCounts(a.apps[i], Owned(a.hooks, NameOf(a.apps[i])));
    }
    CountsBelow(a.apps, stripped);
    DropAllCreatedCount(stripped, a.created);
  }

  // However often attempts stop, the user's commands stay, there is never more than one
  // generated hook (or as many as there were), and cleanup adds none.
  lemma {:induction false} AnyTriesKeepUserCommands(a: Apps, tries: seq<Try>)
    requires Ours(a.hooks) && forall i | 0 <= i < |tries| :: Recognised(tries[i].request)
    ensures var c := AfterTries(a, tries);
            && UserView(c.apps) == UserView(a.apps) && UserView(CleanedApps(c)) == UserView(a.apps)
            && GeneratedCount(c.apps) <= AtLeastOne(GeneratedCount(a.apps))
            && GeneratedCount(CleanedApps(c)) <= AtLeastOne(GeneratedCount(a.apps))
    decreases tries
  {
    hide Configured, UserView, CleanedApps, GeneratedCount, Ours, Recognised;
    if tries == [] {
      CleanupKeepsUserCommands(a);
      CleanupCounts(a);
    } else {
      ConfigureKeepsUserCommands(a, tries[0].request);
      AnyTriesKeepUserCommands(AfterTry(a, tries[0]), tries[1..]);
    }
  }
}
