/** A cleanup that stopped before the journal was deleted runs again, with the same journal,
    over the files it has cleaned already. */
module SunshineRepeats {
  import opened HostText
  import opened SunshineHooks
  import opened SunshineSettings
  import opened SunshineUndo
  import opened SunshineEdits

  // ----- sunshine.conf -----

  // The line taken out for a key uncovers another one with the applied value.
  ghost predicate Uncovers(lines: seq<string>, owned: Ownership, key: string) {
    && Held(lines, owned, key) && owned[key].original == None
    && Lookup(Without(lines, key), key) == Some(owned[key].applied)
  }

  lemma {:induction false} CleanedLength(lines: seq<string>, owned: Ownership)
    ensures |Cleaned(lines, owned)| <= |lines|
  {
    hide KeyOf, ValueOf;
    if lines != [] {
      var k := KeyOf(lines[0]);
      CleanedLength(lines[1..], if k.Some? && k.value in owned then owned - {k.value} else owned);
    }
  }

  lemma {:induction false} WithoutLength(lines: seq<string>, key: string)
    requires Lookup(lines, key).Some?
    ensures |Without(lines, key)| == |lines| - 1
  {
    hide KeyOf, ValueOf;
    if KeyOf(lines[0]) != Some(key) { WithoutLength(lines[1..], key); }
  }

  lemma {:induction false} WithValueTwice(lines: seq<string>, name: string, value: string)
    requires PlainName(name)
    ensures WithValue(WithValue(lines, name, value), name, value) == WithValue(lines, name, value)
  {
    AssignmentReadsBack(name, value);
    hide KeyOf, PlainName, Assignment, Fold;
    if lines == [] {
      assert [Assignment(name, value)][1..] == [];
    } else if KeyOf(lines[0]) == Some(Fold(name)) {
      assert ([Assignment(name, value)] + lines[1..])[1..] == lines[1..];
    } else {
      WithValueTwice(lines[1..], name, value);
      assert ([lines[0]] + WithValue(lines[1..], name, value))[1..] == WithValue(lines[1..], name, value);
    }
  }

  // One key, cleaned in a file that has been cleaned.
  lemma {:induction false} OneKeyAgain(lines: seq<string>, owned: Ownership, key: string)
    requires Sound(owned) && key in owned
    ensures var cleaned := Cleaned(lines, owned);
            var again := Cleaned(cleaned, map[key := owned[key]]);
            if Uncovers(lines, owned, key) then |again| < |cleaned| else again == cleaned
  {
    hide KeyOf, ValueOf, PlainName, Cleaned, Trim, Trimmed, WithValue, Without, Lookup, Fold;
    var o := owned[key];
    var rest, only := owned - {key}, map[key := o];
    var others, cleaned := Cleaned(lines, rest), Cleaned(lines, owned);
    assert rest + only == owned;
    CleanedJoin(lines, rest, only);
    CleanedLookupOther(lines, rest, key);
    CleanedValue(lines, owned, key);
    CleanedOne(others, key, o);
    CleanedOne(cleaned, key, o);
    if Held(lines, owned, key) {
      if o.original.Some? {
        WithValueTwice(others, o.name, o.original.value);
      } else if Lookup(cleaned, key) == Some(o.applied) {
        WithoutLength(cleaned, key);
      }
    }
  }

  lemma {:induction false} EveryKeyKept(lines: seq<string>, owned: Ownership)
    requires Sound(owned) && forall k | k in owned :: Cleaned(lines, map[k := owned[k]]) == lines
    ensures Cleaned(lines, owned) == lines
    decreases |owned|
  {
    if owned == map[] {
      CleanedNothing(lines);
    } else {
      hide Cleaned, Fold, PlainName, Trimmed;
      var k :| k in owned;
      var only, rest := map[k := owned[k]], owned - {k};
      assert only + rest == owned;
      CleanedJoin(lines, only, rest);
      EveryKeyKept(lines, rest);
    }
  }

  lemma {:induction false} SettingsCleanedAgain(lines: seq<string>, owned: Ownership)
    requires Sound(owned)
    ensures Cleaned(Cleaned(lines, owned), owned) == Cleaned(lines, owned) <==>
            forall k | k in owned :: !Uncovers(lines, owned, k)
  {
    hide Cleaned, Uncovers, Fold, PlainName, Trimmed;
    var cleaned := Cleaned(lines, owned);
    forall k | k in owned
      ensures Uncovers(lines, owned, k) ==> Cleaned(cleaned, owned) != cleaned
      ensures !Uncovers(lines, owned, k) ==> Cleaned(cleaned, map[k := owned[k]]) == cleaned
    {
      OneKeyAgain(lines, owned, k);
      var only, rest := map[k := owned[k]], owned - {k};
      assert only + rest == owned;
      CleanedJoin(cleaned, only, rest);
      CleanedLength(Cleaned(cleaned, only), rest);
    }
    if forall k | k in owned :: !Uncovers(lines, owned, k) { EveryKeyKept(cleaned, owned); }
  }

  // ----- apps.json -----

  lemma {:induction false} KeepTwice(entries: seq<Command>, rule: Rule)
    ensures Keep(Keep(entries, rule), rule) == Keep(entries, rule)
  {
    hide Rule.Removes;
    if entries != [] {
      KeepTwice(entries[1..], rule);
      var c := entries[0];
      KeepConcat([c], Keep(entries[1..], rule), rule);
      KeepOne(c, rule);
      assert [] + Keep(entries[1..], rule) == Keep(entries[1..], rule);
    }
  }

  lemma {:induction false} StrippedTwice(app: App, hooks: seq<OwnedHook>)
    ensures var s := Stripped(app, Rule.Owned(hooks, NameOf(app)));
            NameOf(s) == NameOf(app) && Stripped(s, Rule.Owned(hooks, NameOf(s))) == s
  {
    hide Rule.Removes, Keep;
    if app.App? && app.prep.Commands? { KeepTwice(app.prep.entries, Rule.Owned(hooks, NameOf(app))); }
  }

  // Dropping applications leaves some of those that were there.
  lemma {:induction false} DroppedAreFewer(apps: seq<App>, created: seq<string>)
    ensures |DropAllCreated(apps, created)| <= |apps|
    ensures forall app | app in DropAllCreated(apps, created) :: app in apps
    decreases |created|
  {
    hide FirstNamed, IsUnchangedGenerated;
    if created != [] { DroppedAreFewer(apps, created[..|created| - 1]); }
  }

  lemma {:induction false} StrippedAgain(a: Apps)
    ensures StripAll(CleanedApps(a), a.hooks) == CleanedApps(a)
  {
    hide Stripped, DropAllCreated;
    var cleaned := CleanedApps(a);
    DroppedAreFewer(StripAll(a.apps, a.hooks), a.created);
    forall i | 0 <= i < |cleaned| ensures Stripped(cleaned[i], Rule.Owned(a.hooks, NameOf(cleaned[i]))) == cleaned[i] {
      assert cleaned[i] in StripAll(a.apps, a.hooks);
      var j :| 0 <= j < |a.apps| && StripAll(a.apps, a.hooks)[j] == cleaned[i];
      StrippedTwice(a.apps[j], a.hooks);
    }
  }

  // The first application of the name looks like one the host has created.
  predicate StandsAgain(apps: seq<App>, name: string) {
    var index := FirstNamed(apps, name);
    index < |apps| && IsUnchangedGenerated(apps[index])
  }

  lemma {:induction false} NothingDropped(apps: seq<App>, created: seq<string>)
    ensures DropAllCreated(apps, created) == apps <==> forall i | 0 <= i < |created| :: !StandsAgain(apps, created[i])
    decreases |created|
  {
    hide FirstNamed, IsUnchangedGenerated;
    if created != [] {
      var front := created[..|created| - 1];
      NothingDropped(apps, front);
      DroppedAreFewer(apps, front);
      if DropAllCreated(apps, front) != apps { DroppingShrinks(apps, front); }
    }
  }

  lemma {:induction false} DroppingShrinks(apps: seq<App>, created: seq<string>)
    ensures DropAllCreated(apps, created) == apps || |DropAllCreated(apps, created)| < |apps|
    decreases |created|
  {
    hide FirstNamed, IsUnchangedGenerated;
    if created != [] { DroppingShrinks(apps, created[..|created| - 1]); }
  }

  lemma {:induction false} ApplicationsCleanedAgain(a: Apps)
    ensures CleanedApps(a.(apps := CleanedApps(a))) == CleanedApps(a) <==>
            forall i | 0 <= i < |a.created| :: !StandsAgain(CleanedApps(a), a.created[i])
  {
    hide StandsAgain, DropAllCreated, StripAll;
    StrippedAgain(a);
    NothingDropped(CleanedApps(a), a.created);
  }

  // ----- both files -----

  // A repeated cleanup leaves both files as the first one did, if and only if no line that
  // it took out of sunshine.conf uncovers another one like it, and no application of a
  // created name that is now the first looks like a created one.
  lemma {:induction false} CleanupIsRepeatable(a: Apps, lines: seq<string>, owned: Ownership)
    requires Sound(owned)
    ensures CleanedApps(a.(apps := CleanedApps(a))) == CleanedApps(a)
            && Cleaned(Cleaned(lines, owned), owned) == Cleaned(lines, owned) <==>
            && (forall i | 0 <= i < |a.created| :: !StandsAgain(CleanedApps(a), a.created[i]))
            && (forall k | k in owned :: !Uncovers(lines, owned, k))
  {
    hide *;
    ApplicationsCleanedAgain(a);
    SettingsCleanedAgain(lines, owned);
  }

  // In runs without edits nothing is uncovered in sunshine.conf.
  lemma {:induction false} UneditedSettingsCleanedAgain(original: seq<string>, attempts: seq<Attempt>)
    requires Plain(attempts)
    ensures var b := AfterAll(Book(original, map[]), attempts);
            Cleaned(Cleaned(b.lines, b.owned), b.owned) == Cleaned(b.lines, b.owned)
  {
    var b := AfterAll(Book(original, map[]), attempts);
    EveryRunTracks(original, attempts);
    hide AfterAll, Overlay, Cleaned, Lookup, Without, Fold, PlainName, Trimmed;
    forall k | k in b.owned ensures !Uncovers(b.lines, b.owned, k) {
      OverlayLookup(original, b.lines, OriginalsOf(b.owned), k);
    }
    SettingsCleanedAgain(b.lines, b.owned);
  }

  // A user who copies the line of a setting the host has added: the first cleanup takes one
  // of the two out, the second one the other.
  lemma {:induction false} CopiedLineGoesToo(name: string, value: string)
    requires PlainName(name) && Trimmed(value)
    ensures var line := Assignment(name, value);
            var b := AfterEvents([], [Tried(Attempt([Setting(name, value)], Complete)), Edited([line, line])]);
            && Cleaned(b.lines, b.owned) == [line]
            && Cleaned(Cleaned(b.lines, b.owned), b.owned) == []
  {
    var line, s, key := Assignment(name, value), Setting(name, value), Fold(name);
    var attempt := Attempt([s], Complete);
    SetOnNothing(s);
    SetAllOne(Book([], map[]), s);
    TwoEvents(attempt, [line, line]);
    OneOfTwoGoes(name, value, line);
    hide KeyOf, ValueOf, Assignment, Fold, Trim, Trimmed, PlainName, AfterEvents, SetAll, Cleaned;
  }

  lemma {:induction false} OneOfTwoGoes(name: string, value: string, line: string)
    requires PlainName(name) && Trimmed(value) && line == Assignment(name, value)
    ensures var owned := map[Fold(name) := Owned.Owned(name, None, value)];
            Cleaned([line, line], owned) == [line] && Cleaned([line], owned) == []
  {
    AssignmentReadsBack(name, value);
    TrimIsTrimmed(value);
    hide KeyOf, ValueOf, Assignment, Fold, Trim, Trimmed, PlainName;
    var key := Fold(name);
    var owned := map[key := Owned.Owned(name, None, value)];
    CleanedOne([line, line], key, owned[key]);
    CleanedOne([line], key, owned[key]);
    assert [line, line][1..] == [line] && [line][1..] == [];
  }

  lemma {:induction false} TwoEvents(attempt: Attempt, lines: seq<string>)
    ensures AfterEvents([], [Tried(attempt), Edited(lines)]) == Book(lines, After(Book([], map[]), attempt).owned)
  {
    var one, two := [Tried(attempt)], [Tried(attempt), Edited(lines)];
    assert two[..1] == one && one[..0] == [];
    assert AfterEvents([], one[..0]) == Book([], map[]);
    assert AfterEvents([], one) == After(Book([], map[]), attempt);
  }

  // Two applications that look like created ones: each cleanup drops one.
  lemma {:induction false} SecondApplicationGoesToo(name: string)
    ensures var a := Apps([NewApp(name), NewApp(name)], [], [name]);
            && CleanedApps(a) == [NewApp(name)]
            && CleanedApps(a.(apps := CleanedApps(a))) == []
  {
    hide SameText;
    var app := NewApp(name);
    var two, one := [app, app], [app];
    assert Named(app, name) by { SameItself(name); }
    assert StripAll(two, []) == two && StripAll(one, []) == one;
    DropFirst(two, name);
    DropFirst(one, name);
    assert two[..0] + two[1..] == one && one[..0] + one[1..] == [];
  }

  lemma {:induction false} SameItself(name: string)
    ensures SameText(name, name)
  {
  }

  lemma {:induction false} DropFirst(apps: seq<App>, name: string)
    requires apps != [] && Named(apps[0], name) && IsUnchangedGenerated(apps[0])
    ensures DropAllCreated(apps, [name]) == apps[..0] + apps[1..]
  {
    hide IsUnchangedGenerated, Named;
    assert [name][..0] == [];
    assert DropAllCreated(apps, []) == apps;
  }
}
