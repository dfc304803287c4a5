/** What the undo log of SunshineSettings guarantees: for every run of Configure, each
    attempt of which may stop between any two of its writes, what cleanup gives back. */
module SunshineUndo {
  import opened HostText
  import opened SunshineSettings

  // The points at which an attempt to configure can stop.
  datatype Cut = BeforeJournal | AfterJournal | AfterApplications | Complete

  datatype Attempt = Attempt(settings: seq<Setting>, cut: Cut)

  // What is on disk after the attempt: the journal is written first, then apps.json,
  // then sunshine.conf.
  function After(b: Book, a: Attempt): Book {
    var done := SetAll(b, a.settings);
    match a.cut
    case BeforeJournal => b
    case AfterJournal => Book(b.lines, done.owned)
    case AfterApplications => Book(b.lines, done.owned)
    case Complete => done
  }

  function AfterAll(b: Book, attempts: seq<Attempt>): Book
    decreases attempts
  {
    if attempts == [] then b else AfterAll(After(b, attempts[0]), attempts[1..])
  }

  ghost predicate Plain(attempts: seq<Attempt>) {
    forall i | 0 <= i < |attempts| :: PlainSettings(attempts[i].settings)
  }

  // ----- the file as an overlay of the original file -----

  type Originals = map<string, Option<string>>

  ghost function OriginalsOf(owned: Ownership): Originals {
    map k | k in owned :: owned[k].original
  }

  // lines is the original file with the first lines of some owned keys overwritten and
  // with new last lines for some owned keys it did not have.
  ghost predicate Overlay(original: seq<string>, lines: seq<string>, owned: Originals) {
    if original == [] then (forall k | k in owned :: owned[k] == None) && Added(lines, owned)
    else
      && lines != []
      && var key := KeyOf(original[0]);
         if key.Some? && key.value in owned then
           && KeyOf(lines[0]) == key
           && owned[key.value] == Some(ValueOf(original[0]))
           && Overlay(original[1..], lines[1..], owned - {key.value})
         else
           lines[0] == original[0] && Overlay(original[1..], lines[1..], owned)
  }

  ghost predicate Added(lines: seq<string>, owned: Originals) {
    lines == [] ||
    var key := KeyOf(lines[0]);
    key.Some? && key.value in owned && Added(lines[1..], owned - {key.value})
  }

  lemma {:induction false} AddedLookup(lines: seq<string>, owned: Originals, key: string)
    requires Added(lines, owned)
    ensures key !in owned ==> Lookup(lines, key) == None
    ensures Lookup(Without(lines, key), key) == None
  {
    hide KeyOf, ValueOf;
    if lines != [] {
      var k := KeyOf(lines[0]).value;
      AddedLookup(lines[1..], owned - {k}, key);
      LookupCons(lines[0], Without(lines[1..], key), key);
    }
  }

  lemma {:induction false} OverlayLookup(original: seq<string>, lines: seq<string>, owned: Originals, key: string)
    requires Overlay(original, lines, owned)
    ensures key in owned ==> owned[key] == Lookup(original, key)
    ensures key !in owned ==> Lookup(lines, key) == Lookup(original, key)
    ensures key in owned && owned[key] == None ==> Lookup(Without(lines, key), key) == None
  {
    hide KeyOf, ValueOf;
    if original == [] {
      AddedLookup(lines, owned, key);
    } else {
      var k := KeyOf(original[0]);
      var rest := if k.Some? && k.value in owned then owned - {k.value} else owned;
      OverlayLookup(original[1..], lines[1..], rest, key);
      LookupCons(lines[0], Without(lines[1..], key), key);
    }
  }

  lemma {:induction false} OverlayNothing(lines: seq<string>)
    ensures Overlay(lines, lines, map[])
  {
    if lines != [] { OverlayNothing(lines[1..]); }
  }

  lemma {:induction false} AddedMore(lines: seq<string>, owned: Originals, key: string)
    requires Added(lines, owned) && key !in owned
    ensures Added(lines, owned[key := None])
  {
    hide KeyOf, ValueOf;
    if lines != [] {
      var k := KeyOf(lines[0]).value;
      AddedMore(lines[1..], owned - {k}, key);
      assert (owned - {k})[key := None] == owned[key := None] - {k};
    }
  }

  // Owning one more key, with the value it has now, keeps the overlay.
  lemma {:induction false} OverlayClaim(original: seq<string>, lines: seq<string>, owned: Originals, key: string)
    requires Overlay(original, lines, owned) && key !in owned
    ensures Overlay(original, lines, owned[key := Lookup(original, key)])
  {
    hide KeyOf, ValueOf;
    var more := owned[key := Lookup(original, key)];
    if original == [] {
      AddedMore(lines, owned, key);
    } else {
      var k := KeyOf(original[0]);
      if k == Some(key) {
        assert more - {key} == owned;
      } else if k.Some? && k.value in owned {
        OverlayClaim(original[1..], lines[1..], owned - {k.value}, key);
        assert (owned - {k.value})[key := Lookup(original, key)] == more - {k.value};
      } else {
        OverlayClaim(original[1..], lines[1..], owned, key);
      }
    }
  }

  lemma {:induction false} AddedWithValue(lines: seq<string>, owned: Originals, name: string, value: string)
    requires Added(lines, owned) && Fold(name) in owned && PlainName(name)
    ensures Added(WithValue(lines, name, value), owned)
  {
    AssignmentReadsBack(name, value);
    hide KeyOf, ValueOf, Assignment, PlainName;
    var key := Fold(name);
    if lines == [] {
    } else if KeyOf(lines[0]) == Some(key) {
      assert ([Assignment(name, value)] + lines[1..])[1..] == lines[1..];
    } else {
      var k := KeyOf(lines[0]).value;
      AddedWithValue(lines[1..], owned - {k}, name, value);
      assert ([lines[0]] + WithValue(lines[1..], name, value))[1..] == WithValue(lines[1..], name, value);
    }
  }

  // Writing an owned key keeps the overlay.
  lemma {:induction false} OverlayWithValue(original: seq<string>, lines: seq<string>, owned: Originals,
                                            name: string, value: string)
    requires Overlay(original, lines, owned) && Fold(name) in owned && PlainName(name)
    ensures Overlay(original, WithValue(lines, name, value), owned)
  {
    AssignmentReadsBack(name, value);
    hide KeyOf, ValueOf, Assignment, PlainName;
    if original == [] {
      AddedWithValue(lines, owned, name, value);
    } else if KeyOf(lines[0]) == Some(Fold(name)) {
      assert ([Assignment(name, value)] + lines[1..])[1..] == lines[1..];
    } else {
      var k := KeyOf(original[0]);
      var rest := if k.Some? && k.value in owned then owned - {k.value} else owned;
      OverlayWithValue(original[1..], lines[1..], rest, name, value);
      assert ([lines[0]] + WithValue(lines[1..], name, value))[1..] == WithValue(lines[1..], name, value);
    }
  }

  // ----- the invariant of every run -----

  // The journal holds, for every owned key, its value in the original file, and the
  // rest of the original file is still there.
  ghost predicate Tracks(original: seq<string>, b: Book) {
    Sound(b.owned) && Overlay(original, b.lines, OriginalsOf(b.owned))
  }

  lemma {:induction false} ValueIsTrimmed(line: string)
    ensures Trimmed(ValueOf(line))
  {
    hide Trim, IsWhiteSpace;
    var equals := IndexOf(line, '=', 0);
    TrimIsTrimmed(if equals < 0 then "" else line[equals + 1..]);
  }

  lemma {:induction false} LookupTrimmed(lines: seq<string>, key: string)
    ensures Lookup(lines, key).Some? ==> Trimmed(Lookup(lines, key).value)
  {
    hide KeyOf, ValueOf, Trimmed;
    if lines != [] {
      ValueIsTrimmed(lines[0]);
      LookupTrimmed(lines[1..], key);
    }
  }

  // One setting, seen both in the file being edited and in the file still on disk.
  lemma {:induction false} SetTracks(original: seq<string>, disk: seq<string>, b: Book, s: Setting)
    requires PlainName(s.name) && Tracks(original, b) && Tracks(original, Book(disk, b.owned))
    ensures Tracks(original, Set(b, s)) && Tracks(original, Book(disk, Set(b, s).owned))
  {
    hide KeyOf, ValueOf, PlainName, WithValue, Lookup;
    var key := Fold(s.name);
    var was, now := OriginalsOf(b.owned), OriginalsOf(Set(b, s).owned);
    if key in b.owned {
      assert now == was;
    } else {
      OverlayLookup(original, b.lines, was, key);
      LookupTrimmed(b.lines, key);
      OverlayClaim(original, b.lines, was, key);
      OverlayClaim(original, disk, was, key);
      assert now == was[key := Lookup(original, key)];
    }
    OverlayWithValue(original, b.lines, now, s.name, s.value);
  }

  lemma {:induction false} SetAllTracks(original: seq<string>, disk: seq<string>, b: Book, settings: seq<Setting>)
    requires PlainSettings(settings) && Tracks(original, b) && Tracks(original, Book(disk, b.owned))
    ensures Tracks(original, SetAll(b, settings)) && Tracks(original, Book(disk, SetAll(b, settings).owned))
    decreases settings
  {
    hide Tracks, PlainName;
    if settings != [] {
      SetTracks(original, disk, b, settings[0]);
      SetAllTracks(original, disk, Set(b, settings[0]), settings[1..]);
    }
  }

  lemma {:induction false} AttemptsTrack(original: seq<string>, b: Book, attempts: seq<Attempt>)
    requires Plain(attempts) && Tracks(original, b)
    ensures Tracks(original, AfterAll(b, attempts))
    decreases attempts
  {
    hide Tracks, PlainName, Set;
    if attempts != [] {
      SetAllTracks(original, b.lines, b, attempts[0].settings);
      AttemptsTrack(original, After(b, attempts[0]), attempts[1..]);
    }
  }

  // The first Configure finds an empty journal.
  lemma {:induction false} EveryRunTracks(original: seq<string>, attempts: seq<Attempt>)
    requires Plain(attempts)
    ensures Tracks(original, AfterAll(Book(original, map[]), attempts))
  {
    OverlayNothing(original);
    assert OriginalsOf(map[]) == map[];
    AttemptsTrack(original, Book(original, map[]), attempts);
  }

  // ----- cleanup of any file, edited by the user or not -----

  // The value of each key after cleanup.
  lemma {:induction false} CleanedValue(lines: seq<string>, owned: Ownership, key: string)
    requires Sound(owned)
    ensures Lookup(Cleaned(lines, owned), key) ==
            if !Held(lines, owned, key) then Lookup(lines, key)
            else if owned[key].original.Some? then owned[key].original
            else Lookup(Without(lines, key), key)
  {
    hide KeyOf, ValueOf, PlainName, Cleaned, Restored, Trim, Trimmed, WithValue, Without, Lookup;
    if key !in owned {
      CleanedLookupOther(lines, owned, key);
    } else {
      var o := owned[key];
      var only, rest := map[key := o], owned - {key};
      assert only + rest == owned;
      assert Sound(only);
      CleanedJoin(lines, only, rest);
      CleanedLookupOther(Cleaned(lines, only), rest, key);
      CleanedOne(lines, key, o);
      if o.original.Some? {
        WithValueLookup(lines, o.name, o.original.value);
        TrimIsTrimmed(o.original.value);
      }
    }
  }

  lemma {:induction false} WithValueLookup(lines: seq<string>, name: string, value: string)
    requires PlainName(name)
    ensures Lookup(WithValue(lines, name, value), Fold(name)) == Some(Trim(value))
    ensures forall key | key != Fold(name) :: Lookup(WithValue(lines, name, value), key) == Lookup(lines, key)
  {
    AssignmentReadsBack(name, value);
    hide KeyOf, ValueOf, PlainName, Assignment, Fold, Trim;
    if lines != [] {
      WithValueLookup(lines[1..], name, value);
      forall key ensures Lookup([lines[0]] + WithValue(lines[1..], name, value), key) ==
                         if KeyOf(lines[0]) == Some(key) then Some(ValueOf(lines[0]))
                         else Lookup(WithValue(lines[1..], name, value), key)
      {
        LookupCons(lines[0], WithValue(lines[1..], name, value), key);
      }
      forall key ensures Lookup([Assignment(name, value)] + lines[1..], key) ==
                         if Fold(name) == key then Some(Trim(value)) else Lookup(lines[1..], key)
      {
        LookupCons(Assignment(name, value), lines[1..], key);
      }
    }
  }

  // The lines that belong to no owned key.
  function Others(lines: seq<string>, keys: set<string>): seq<string> {
    if lines == [] then []
    else
      var key := KeyOf(lines[0]);
      (if key.Some? && key.value in keys then [] else [lines[0]]) + Others(lines[1..], keys)
  }

  lemma {:induction false} OthersCons(x: string, rest: seq<string>, keys: set<string>)
    ensures Others([x] + rest, keys) ==
            (if KeyOf(x).Some? && KeyOf(x).value in keys then [] else [x]) + Others(rest, keys)
  {
    assert ([x] + rest)[1..] == rest;
  }

  // Cleanup never touches a line of a key the journal does not own.
  lemma {:induction false} CleanedOthers(lines: seq<string>, owned: Ownership, keys: set<string>)
    requires Sound(owned) && owned.Keys <= keys
    ensures Others(Cleaned(lines, owned), keys) == Others(lines, keys)
  {
    hide KeyOf, ValueOf, PlainName, Restored, Trimmed, Fold;
    if lines != [] {
      var k := KeyOf(lines[0]);
      if k.Some? && k.value in owned {
        var rest := owned - {k.value};
        CleanedOthers(lines[1..], rest, keys);
        RestoredKeepsKey(lines[0], owned[k.value]);
        if line :| Restored(lines[0], owned[k.value]) == [line] && KeyOf(line) == k {
          OthersCons(line, Cleaned(lines[1..], rest), keys);
        } else {
          assert Restored(lines[0], owned[k.value]) + Cleaned(lines[1..], rest) == Cleaned(lines[1..], rest);
        }
      } else {
        CleanedOthers(lines[1..], owned, keys);
        OthersCons(lines[0], Cleaned(lines[1..], owned), keys);
      }
    }
  }

  lemma {:induction false} AddedOthers(lines: seq<string>, owned: Originals, keys: set<string>)
    requires Added(lines, owned) && owned.Keys <= keys
    ensures Others(lines, keys) == []
  {
    hide KeyOf;
    if lines != [] { AddedOthers(lines[1..], owned - {KeyOf(lines[0]).value}, keys); }
  }

  lemma {:induction false} OverlayOthers(original: seq<string>, lines: seq<string>, owned: Originals, keys: set<string>)
    requires Overlay(original, lines, owned) && owned.Keys <= keys
    ensures Others(lines, keys) == Others(original, keys)
  {
    hide KeyOf, ValueOf;
    if original == [] {
      AddedOthers(lines, owned, keys);
    } else {
      var k := KeyOf(original[0]);
      var rest := if k.Some? && k.value in owned then owned - {k.value} else owned;
      OverlayOthers(original[1..], lines[1..], rest, keys);
    }
  }

  // ----- cleanup after a run -----

  // After every run, however often it stopped, cleanup restores an owned key exactly
  // when the file holds either the journal's applied value or the original one, keeps
  // every other key's value, and keeps the lines of all other keys, in order.
  lemma {:induction false} CleanupAfterAnyRun(original: seq<string>, attempts: seq<Attempt>)
    requires Plain(attempts)
    ensures var b := AfterAll(Book(original, map[]), attempts);
            var cleaned := Cleaned(b.lines, b.owned);
            && (forall k | k in b.owned ::
                  Lookup(cleaned, k) == Lookup(original, k) <==>
                  Lookup(b.lines, k) == Some(b.owned[k].applied) || Lookup(b.lines, k) == Lookup(original, k))
            && (forall k | k !in b.owned :: Lookup(cleaned, k) == Lookup(original, k))
            && Others(cleaned, b.owned.Keys) == Others(original, b.owned.Keys)
  {
    var b := AfterAll(Book(original, map[]), attempts);
    EveryRunTracks(original, attempts);
    hide Lookup, Cleaned, AfterAll, Without, Others;
    var cleaned := Cleaned(b.lines, b.owned);
    forall k: string
      ensures k in b.owned ==>
              (Lookup(cleaned, k) == Lookup(original, k) <==>
               Lookup(b.lines, k) == Some(b.owned[k].applied) || Lookup(b.lines, k) == Lookup(original, k))
      ensures k !in b.owned ==> Lookup(cleaned, k) == Lookup(original, k)
    {
      OverlayLookup(original, b.lines, OriginalsOf(b.owned), k);
      CleanedValue(b.lines, b.owned, k);
    }
    CleanedOthers(b.lines, b.owned, b.owned.Keys);
    OverlayOthers(original, b.lines, OriginalsOf(b.owned), b.owned.Keys);
  }

  // ----- runs that end settled -----

  // Two files with the same lines, except that a line of an owned key may be spelled
  // differently as long as it assigns the same value to the same key.
  ghost predicate SameSettings(a: seq<string>, b: seq<string>, keys: set<string>) {
    && |a| == |b|
    && forall i | 0 <= i < |a| ::
         a[i] == b[i] ||
         (KeyOf(a[i]).Some? && KeyOf(a[i]).value in keys
          && KeyOf(b[i]) == KeyOf(a[i]) && ValueOf(b[i]) == ValueOf(a[i]))
  }

  // Each owned key holds what the journal says was applied, or was never written.
  ghost predicate Settled(b: Book) {
    forall k | k in b.owned ::
      Lookup(b.lines, k) == Some(b.owned[k].applied) || Lookup(b.lines, k) == b.owned[k].original
  }

  lemma {:induction false} SameSettingsCons(x: string, y: string, a: seq<string>, b: seq<string>, keys: set<string>)
    requires SameSettings(a, b, keys)
    requires x == y || (KeyOf(x).Some? && KeyOf(x).value in keys && KeyOf(y) == KeyOf(x) && ValueOf(y) == ValueOf(x))
    ensures SameSettings([x] + a, [y] + b, keys)
  {
  }

  lemma {:induction false} AddedIsRemoved(lines: seq<string>, owned: Ownership)
    requires Added(lines, OriginalsOf(owned)) && Settled(Book(lines, owned))
    requires forall k | k in owned :: owned[k].original == None
    ensures Cleaned(lines, owned) == []
  {
    hide KeyOf, ValueOf;
    if lines != [] {
      var k := KeyOf(lines[0]).value;
      var rest := owned - {k};
      assert Lookup(lines, k) == Some(ValueOf(lines[0]));
      assert OriginalsOf(rest) == OriginalsOf(owned) - {k};
      assert forall j | j in rest :: Lookup(lines[1..], j) == Lookup(lines, j);
      AddedIsRemoved(lines[1..], rest);
    }
  }

  lemma {:induction false} SettledIsRestored(original: seq<string>, b: Book, keys: set<string>)
    requires Tracks(original, b) && Settled(b) && b.owned.Keys <= keys
    ensures SameSettings(original, Cleaned(b.lines, b.owned), keys)
    decreases |original|
  {
    hide KeyOf, ValueOf, PlainName, Assignment, Trim, Fold, SameSettings;
    if original == [] {
      assert forall k | k in b.owned :: OriginalsOf(b.owned)[k] == b.owned[k].original;
      AddedIsRemoved(b.lines, b.owned);
      assert SameSettings([], [], keys) by { hide *; EmptySame(keys); }
    } else {
      var k := KeyOf(original[0]);
      var line := b.lines[0];
      assert original == [original[0]] + original[1..];
      if k.Some? && k.value in b.owned {
        var o := b.owned[k.value];
        var rest := Book(b.lines[1..], b.owned - {k.value});
        assert OriginalsOf(rest.owned) == OriginalsOf(b.owned) - {k.value};
        assert Lookup(b.lines, k.value) == Some(ValueOf(line));
        assert forall j | j in rest.owned :: Lookup(rest.lines, j) == Lookup(b.lines, j);
        SettledIsRestored(original[1..], rest, keys);
        assert o.original == Some(ValueOf(original[0]));
        AssignmentReadsBack(o.name, o.original.value);
        TrimIsTrimmed(o.original.value);
        var y := if ValueOf(line) == o.applied then Assignment(o.name, o.original.value) else line;
        assert Restored(line, o) == [y];
        SameSettingsCons(original[0], y, original[1..], Cleaned(rest.lines, rest.owned), keys);
      } else {
        var rest := Book(b.lines[1..], b.owned);
        assert forall j | j in rest.owned :: Lookup(rest.lines, j) == Lookup(b.lines, j);
        SettledIsRestored(original[1..], rest, keys);
        SameSettingsCons(original[0], line, original[1..], Cleaned(rest.lines, rest.owned), keys);
      }
    }
  }

  lemma {:induction false} EmptySame(keys: set<string>)
    ensures SameSettings([], [], keys)
  {
  }

  // Complete attempts leave every owned key at what reading back its value gives.
  ghost predicate Applied(b: Book) {
    forall k | k in b.owned :: Lookup(b.lines, k) == Some(Trim(b.owned[k].applied))
  }

  lemma {:induction false} SetAllApplies(b: Book, settings: seq<Setting>)
    requires PlainSettings(settings) && Applied(b)
    ensures Applied(SetAll(b, settings))
    decreases settings
  {
    hide KeyOf, ValueOf, PlainName, Trim, Fold, Lookup, WithValue;
    if settings != [] {
      WithValueLookup(b.lines, settings[0].name, settings[0].value);
      SetAllApplies(Set(b, settings[0]), settings[1..]);
    }
  }

  lemma {:induction false} CompleteRunsApply(b: Book, attempts: seq<Attempt>)
    requires Plain(attempts) && Applied(b)
    requires forall i | 0 <= i < |attempts| :: attempts[i].cut == Complete
    ensures Applied(AfterAll(b, attempts))
    decreases attempts
  {
    hide PlainName, SetAll, Applied;
    if attempts != [] {
      SetAllApplies(b, attempts[0].settings);
      CompleteRunsApply(After(b, attempts[0]), attempts[1..]);
    }
  }

  // After any number of complete Configures in any modes, cleanup restores a key exactly
  // when its applied value is free of outer blanks (or what is left of it happens to be
  // the original value); when all are, the whole file is restored.
  lemma {:induction false} CompleteRunsAreUndone(original: seq<string>, attempts: seq<Attempt>)
    requires Plain(attempts)
    requires forall i | 0 <= i < |attempts| :: attempts[i].cut == Complete
    ensures var b := AfterAll(Book(original, map[]), attempts);
            var cleaned := Cleaned(b.lines, b.owned);
            && (forall k | k in b.owned ::
                  Lookup(cleaned, k) == Lookup(original, k) <==>
                  Trimmed(b.owned[k].applied) || Lookup(original, k) == Some(Trim(b.owned[k].applied)))
            && ((forall k | k in b.owned :: Trimmed(b.owned[k].applied)) ==>
                SameSettings(original, cleaned, b.owned.Keys))
  {
    var b := AfterAll(Book(original, map[]), attempts);
    CompleteRunsApply(Book(original, map[]), attempts);
    CleanupAfterAnyRun(original, attempts);
    EveryRunTracks(original, attempts);
    AppliedIsUndone(original, b);
  }

  lemma {:induction false} AppliedIsUndone(original: seq<string>, b: Book)
    requires Tracks(original, b) && Applied(b)
    ensures forall k | k in b.owned ::
              Lookup(b.lines, k) == Some(b.owned[k].applied) <==> Trimmed(b.owned[k].applied)
    ensures forall k | k in b.owned :: Lookup(b.lines, k) == Some(Trim(b.owned[k].applied))
    ensures (forall k | k in b.owned :: Trimmed(b.owned[k].applied)) ==>
              SameSettings(original, Cleaned(b.lines, b.owned), b.owned.Keys)
  {
    hide Lookup, Cleaned, SameSettings, Tracks, Trim, Trimmed;
    forall k | k in b.owned ensures Trim(b.owned[k].applied) == b.owned[k].applied <==> Trimmed(b.owned[k].applied)
    {
      TrimIsTrimmed(b.owned[k].applied);
    }
    if forall k | k in b.owned :: Trimmed(b.owned[k].applied) {
      SettledIsRestored(original, b, b.owned.Keys);
    }
  }

  // A first Configure may stop after any of its writes: cleanup restores the file.
  lemma {:induction false} FirstConfigureIsUndone(original: seq<string>, a: Attempt)
    requires PlainSettings(a.settings) && TrimmedSettings(a.settings)
    ensures var b := After(Book(original, map[]), a);
            SameSettings(original, Cleaned(b.lines, b.owned), b.owned.Keys)
  {
    var b := After(Book(original, map[]), a);
    assert AfterAll(Book(original, map[]), [a]) == b by {
      assert [a][1..] == [];
    }
    EveryRunTracks(original, [a]);
    if a.cut == Complete {
      SetAllApplies(Book(original, map[]), a.settings);
      AppliedValuesAreTrimmed(Book(original, map[]), a.settings);
    }
    hide SetAll, Lookup, Cleaned, SameSettings, Trim, Trimmed, AfterAll, TrimmedSettings, PlainSettings, Overlay;
    forall k | k in b.owned
      ensures Lookup(b.lines, k) == Some(b.owned[k].applied) || Lookup(b.lines, k) == b.owned[k].original
    {
      OverlayLookup(original, b.lines, OriginalsOf(b.owned), k);
      TrimIsTrimmed(b.owned[k].applied);
    }
    SettledIsRestored(original, b, b.owned.Keys);
  }

  lemma {:induction false} AppliedValuesAreTrimmed(b: Book, settings: seq<Setting>)
    requires TrimmedSettings(settings)
    requires forall k | k in b.owned :: Trimmed(b.owned[k].applied)
    ensures forall k | k in SetAll(b, settings).owned :: Trimmed(SetAll(b, settings).owned[k].applied)
    decreases settings
  {
    hide WithValue, Lookup, Trimmed, Fold;
    if settings != [] { AppliedValuesAreTrimmed(Set(b, settings[0]), settings[1..]); }
  }

  // A reconfigure that stops between the journal and sunshine.conf is undone for a key
  // exactly when it applies the same value again, or when the value applied before was
  // the original one.
  lemma {:induction false} InterruptedReconfigure(original: seq<string>, b: Book, settings: seq<Setting>, key: string)
    requires Tracks(original, b) && PlainSettings(settings)
    requires forall k | k in b.owned :: Lookup(b.lines, k) == Some(b.owned[k].applied)
    ensures var now := After(b, Attempt(settings, AfterJournal));
            key in now.owned ==>
              (Lookup(Cleaned(now.lines, now.owned), key) == Lookup(original, key) <==>
               key in b.owned ==>
                 now.owned[key].applied == b.owned[key].applied
                 || Lookup(original, key) == Some(b.owned[key].applied))
  {
    var now := After(b, Attempt(settings, AfterJournal));
    SetAllTracks(original, b.lines, b, settings);
    hide SetAll, Lookup, Cleaned, Trim, Trimmed, Overlay, Without, Fold, PlainName;
    OverlayLookup(original, b.lines, OriginalsOf(b.owned), key);
    OverlayLookup(original, now.lines, OriginalsOf(now.owned), key);
    CleanedValue(now.lines, now.owned, key);
  }

  lemma {:induction false} SetAllOne(b: Book, s: Setting)
    ensures SetAll(b, [s]) == Set(b, s)
  {
    assert [s][0] == s && [s][1..] == [];
    assert SetAll(Set(b, s), []) == Set(b, s);
  }

  lemma {:induction false} AfterTwo(b: Book, first: Attempt, second: Attempt)
    ensures AfterAll(b, [first, second]) == After(After(b, first), second)
  {
    assert [first, second][1..] == [second] && [second][1..] == [];
    assert AfterAll(After(b, first), [second]) == AfterAll(After(After(b, first), second), []);
  }

  lemma {:induction false} SetOnNothing(s: Setting)
    ensures Set(Book([], map[]), s) ==
            Book([Assignment(s.name, s.value)], map[Fold(s.name) := Owned(s.name, None, s.value)])
  {
  }

  // The failing family is not empty: an absent setting applied as one value, then a
  // change to another value stopped after the journal; cleanup leaves the first behind.
  lemma {:induction false} InterruptedChangeIsNotUndone(name: string, before: string, after: string)
    requires PlainName(name) && Trimmed(before) && before != after
    ensures var b := AfterAll(Book([], map[]),
                              [Attempt([Setting(name, before)], Complete),
                               Attempt([Setting(name, after)], AfterJournal)]);
            Lookup(Cleaned(b.lines, b.owned), Fold(name)) == Some(before) && Lookup([], Fold(name)) == None
  {
    var s, t := Setting(name, before), Setting(name, after);
    var line := Assignment(name, before);
    var key := Fold(name);
    SetOnNothing(s);
    AssignmentReadsBack(name, before);
    TrimIsTrimmed(before);
    hide Fold, Trim, KeyOf, ValueOf, Trimmed, PlainName, Assignment;
    var b := Book([line], map[key := Owned(name, None, before)]);
    assert Lookup([line], key) == Some(before);
    SetAllOne(Book([], map[]), s);
    SetAllOne(b, t);
    var later := Set(b, t);
    assert later.owned == map[key := Owned(name, None, after)];
    var first, second := Attempt([s], Complete), Attempt([t], AfterJournal);
    AfterTwo(Book([], map[]), first, second);
    assert AfterAll(Book([], map[]), [first, second]) == Book([line], later.owned);
    CleanedOne([line], key, Owned(name, None, after));
  }

  // An owned key keeps the original it was first given, and a new one gets its present
  // value, whatever the file looks like by then.
  lemma {:induction false} OriginalsAreKept(b: Book, settings: seq<Setting>, key: string)
    requires PlainSettings(settings) && key in SetAll(b, settings).owned
    ensures SetAll(b, settings).owned[key].original ==
            if key in b.owned then b.owned[key].original else Lookup(b.lines, key)
    decreases settings
  {
    hide KeyOf, ValueOf, PlainName, Trim, Fold, Lookup, WithValue;
    if settings != [] {
      WithValueLookup(b.lines, settings[0].name, settings[0].value);
      OriginalsAreKept(Set(b, settings[0]), settings[1..], key);
    }
  }
}
