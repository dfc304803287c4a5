/** Runs in which the user edits sunshine.conf between the attempts to configure. */
module SunshineEdits {
  import opened HostText
  import opened SunshineSettings
  import opened SunshineUndo

  datatype Event = Tried(attempt: Attempt) | Edited(lines: seq<string>)

  // The user's edit replaces the file and does not touch the journal.
  function Next(b: Book, e: Event): Book {
    match e
    case Tried(attempt) => After(b, attempt)
    case Edited(lines) => Book(lines, b.owned)
  }

  function AfterEvents(original: seq<string>, events: seq<Event>): Book
    decreases |events|
  {
    if events == [] then Book(original, map[])
    else Next(AfterEvents(original, events[..|events| - 1]), events[|events| - 1])
  }

  ghost predicate PlainEvents(events: seq<Event>) {
    forall i | 0 <= i < |events| && events[i].Tried? :: PlainSettings(events[i].attempt.settings)
  }

  predicate Sets(settings: seq<Setting>, key: string) {
    exists i | 0 <= i < |settings| :: Fold(settings[i].name) == key
  }

  // The event writes a journal that names the key.
  predicate Claims(e: Event, key: string) {
    e.Tried? && e.attempt.cut != BeforeJournal && Sets(e.attempt.settings, key)
  }

  // The value that the key had when it was first claimed, if it was.
  function ClaimedValue(original: seq<string>, events: seq<Event>, key: string): Option<Option<string>>
    decreases |events|
  {
    if events == [] then None
    else
      var front := events[..|events| - 1];
      var earlier := ClaimedValue(original, front, key);
      if earlier.Some? then earlier
      else if Claims(events[|events| - 1], key) then Some(Lookup(AfterEvents(original, front).lines, key))
      else None
  }

  // The file as the user last left it.
  function LastEdited(original: seq<string>, events: seq<Event>): seq<string>
    decreases |events|
  {
    if events == [] then original
    else if events[|events| - 1].Edited? then events[|events| - 1].lines
    else LastEdited(original, events[..|events| - 1])
  }

  // ----- one attempt -----

  lemma {:induction false} SetAllOwns(b: Book, settings: seq<Setting>, key: string)
    ensures key in SetAll(b, settings).owned <==> key in b.owned || Sets(settings, key)
    decreases settings
  {
    hide WithValue, Lookup, Fold;
    if settings != [] {
      SetAllOwns(Set(b, settings[0]), settings[1..], key);
      SetsCons(settings, key);
    }
  }

  lemma {:induction false} SetsCons(settings: seq<Setting>, key: string)
    requires settings != []
    ensures Sets(settings, key) <==> Fold(settings[0].name) == key || Sets(settings[1..], key)
  {
    hide Fold;
    if Sets(settings, key) {
      var i :| 0 <= i < |settings| && Fold(settings[i].name) == key;
      if i > 0 { assert settings[1..][i - 1] == settings[i]; }
    }
    if Sets(settings[1..], key) {
      var i :| 0 <= i < |settings[1..]| && Fold(settings[1..][i].name) == key;
      assert settings[i + 1] == settings[1..][i];
    }
  }

  lemma {:induction false} SetIsSound(b: Book, s: Setting)
    requires Sound(b.owned) && PlainName(s.name)
    ensures Sound(Set(b, s).owned)
  {
    hide PlainName, WithValue, Trimmed;
    LookupTrimmed(b.lines, Fold(s.name));
    hide Lookup;
  }

  lemma {:induction false} WithValueOthers(lines: seq<string>, name: string, value: string, keys: set<string>)
    requires PlainName(name) && Fold(name) in keys
    ensures Others(WithValue(lines, name, value), keys) == Others(lines, keys)
  {
    AssignmentReadsBack(name, value);
    hide KeyOf, ValueOf, Assignment, PlainName, Fold;
    if lines == [] {
      OthersCons(Assignment(name, value), [], keys);
      assert [Assignment(name, value)] + [] == [Assignment(name, value)];
    } else if KeyOf(lines[0]) == Some(Fold(name)) {
      OthersCons(Assignment(name, value), lines[1..], keys);
    } else {
      WithValueOthers(lines[1..], name, value, keys);
      OthersCons(lines[0], WithValue(lines[1..], name, value), keys);
    }
  }

  // Setting values touches no other line, and the journal stays sound.
  lemma {:induction false} SetAllOthers(b: Book, settings: seq<Setting>, keys: set<string>)
    requires Sound(b.owned) && PlainSettings(settings) && SetAll(b, settings).owned.Keys <= keys
    ensures Sound(SetAll(b, settings).owned) && b.owned.Keys <= SetAll(b, settings).owned.Keys
    ensures Others(SetAll(b, settings).lines, keys) == Others(b.lines, keys)
    decreases settings
  {
    hide PlainName, Sound, Others, WithValue, Lookup, Fold;
    if settings != [] {
      var s := settings[0];
      SetIsSound(b, s);
      SetAllOthers(Set(b, s), settings[1..], keys);
      assert Fold(s.name) in Set(b, s).owned;
      WithValueOthers(b.lines, s.name, s.value, keys);
    }
  }

  // ----- runs -----

  lemma {:induction false} EventsKeep(original: seq<string>, events: seq<Event>, keys: set<string>)
    requires PlainEvents(events) && AfterEvents(original, events).owned.Keys <= keys
    ensures Sound(AfterEvents(original, events).owned)
    ensures Others(AfterEvents(original, events).lines, keys) == Others(LastEdited(original, events), keys)
    decreases |events|
  {
    hide Sound, Others, SetAll, PlainSettings;
    if events == [] {
      assert Sound(map[]) by { NothingIsSound(); }
    } else {
      var front, last := events[..|events| - 1], events[|events| - 1];
      var b := AfterEvents(original, front);
      if last.Tried? {
        assert PlainSettings(last.attempt.settings);
        GrowingJournal(b, last.attempt);
        EventsKeep(original, front, keys + SetAll(b, last.attempt.settings).owned.Keys);
        SetAllOthers(b, last.attempt.settings, keys + SetAll(b, last.attempt.settings).owned.Keys);
        EventsKeep(original, front, keys);
        if last.attempt.cut == Complete { SetAllOthers(b, last.attempt.settings, keys); }
      } else {
        EventsKeep(original, front, keys);
      }
    }
  }

  lemma {:induction false} NothingIsSound()
    ensures Sound(map[])
  {
  }

  lemma {:induction false} SetAllGrows(b: Book, settings: seq<Setting>)
    ensures b.owned.Keys <= SetAll(b, settings).owned.Keys
    decreases settings
  {
    hide WithValue, Lookup, Fold;
    if settings != [] { SetAllGrows(Set(b, settings[0]), settings[1..]); }
  }

  lemma {:induction false} GrowingJournal(b: Book, a: Attempt)
    ensures b.owned.Keys <= After(b, a).owned.Keys && b.owned.Keys <= SetAll(b, a.settings).owned.Keys
  {
    SetAllGrows(b, a.settings);
    hide SetAll;
  }

  // The journal owns what was claimed, with the value at that time as the original.
  lemma {:induction false} JournalHoldsClaims(original: seq<string>, events: seq<Event>, key: string)
    requires PlainEvents(events)
    ensures var owned := AfterEvents(original, events).owned;
            && (key in owned <==> ClaimedValue(original, events, key).Some?)
            && (key in owned ==> ClaimedValue(original, events, key) == Some(owned[key].original))
    decreases |events|
  {
    hide SetAll, Lookup, Sets, PlainSettings;
    if events != [] {
      var front, last := events[..|events| - 1], events[|events| - 1];
      JournalHoldsClaims(original, front, key);
      if last.Tried? {
        assert PlainSettings(last.attempt.settings);
        var b := AfterEvents(original, front);
        SetAllOwns(b, last.attempt.settings, key);
        if key in SetAll(b, last.attempt.settings).owned { OriginalsAreKept(b, last.attempt.settings, key); }
      }
    }
  }

  // After any run of attempts and edits, cleanup gives a key that still holds its applied
  // value the value it had when it was first claimed (if it had none, its line goes), and
  // leaves every other value alone. The lines of keys that were never claimed are, in
  // order, those the user last left.
  lemma {:induction false} CleanupRespectsEdits(original: seq<string>, events: seq<Event>, key: string)
    requires PlainEvents(events)
    ensures var b := AfterEvents(original, events);
            var claimed := ClaimedValue(original, events, key);
            && (key in b.owned <==> claimed.Some?)
            && Lookup(Cleaned(b.lines, b.owned), key) ==
               (if claimed.Some? && Lookup(b.lines, key) == Some(b.owned[key].applied) then
                  if claimed.value.Some? then claimed.value else Lookup(Without(b.lines, key), key)
                else Lookup(b.lines, key))
            && Others(Cleaned(b.lines, b.owned), b.owned.Keys) == Others(LastEdited(original, events), b.owned.Keys)
  {
    hide Sound, Others, SetAll, PlainEvents, Lookup, Cleaned, Without, AfterEvents, ClaimedValue, LastEdited;
    var b := AfterEvents(original, events);
    EventsKeep(original, events, b.owned.Keys);
    JournalHoldsClaims(original, events, key);
    CleanedValue(b.lines, b.owned, key);
    CleanedOthers(b.lines, b.owned, b.owned.Keys);
  }
}
