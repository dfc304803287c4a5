/** Configure and its cleanup as they act on the disk: the ownership journal, apps.json
    and sunshine.conf of one configuration directory. Each file is replaced by one
    write, and the process may stop between any two writes. */
module SunshineIntegration {
  import opened HostText
  import opened SunshineHooks
  import opened SunshineHookRuns
  import opened SunshineSettings
  import opened SunshineUndo
  import opened SunshineEdits

  // displayId is what the newest inventory of the log gave, if it gave anything.
  datatype Mode = Native(displayId: Option<string>, forceSdr: bool) | HookOfSunshine | HookOfApollo

  const BASE_SETTINGS: seq<Setting> := [
    Setting("controller", "enabled"),
    Setting("gamepad", "auto"),
    Setting("motion_as_ds4", "enabled"),
    Setting("touchpad_as_ds4", "enabled"),
    Setting("keyboard", "enabled"),
    Setting("mouse", "enabled"),
    Setting("native_pen_touch", "enabled")]

  const VITA_DISPLAY_MODE_REMAPPING :=
    "{\"mixed\":[],\"resolution_only\":[" +
    ("{\"requested_resolution\":\"960x540\"," + "\"final_resolution\":\"960x540\"},") +
    ("{\"requested_resolution\":\"960x544\"," + "\"final_resolution\":\"960x544\"},") +
    ("{\"requested_resolution\":\"1280x720\"," + "\"final_resolution\":\"1280x720\"},") +
    "{\"final_resolution\":\"960x544\"}],\"refresh_rate_only\":[]}"

  function NativeSettings(displayId: string, forceSdr: bool): seq<Setting> {
    [Setting("output_name", displayId),
     Setting("dd_configuration_option", "ensure_only_display"),
     Setting("dd_resolution_option", "auto"),
     Setting("dd_refresh_rate_option", "manual"),
     Setting("dd_manual_refresh_rate", "60"),
     Setting("dd_mode_remapping", VITA_DISPLAY_MODE_REMAPPING),
     Setting("dd_hdr_option", if forceSdr then "auto" else "disabled"),
     Setting("dd_config_revert_delay", "500"),
     Setting("dd_config_revert_on_disconnect", "enabled")]
  }

  const HOOK_SETTINGS: seq<Setting> := [
    Setting("dd_configuration_option", "disabled"),
    Setting("dd_config_revert_on_disconnect", "disabled")]

  function SettingsFor(mode: Mode): seq<Setting> {
    match mode
    case Native(Some(displayId), forceSdr) => BASE_SETTINGS + NativeSettings(displayId, forceSdr)
    case Native(None, _) => BASE_SETTINGS
    case HookOfSunshine => BASE_SETTINGS + HOOK_SETTINGS
    case HookOfApollo => BASE_SETTINGS
  }

  lemma {:induction false} InputNamesArePlain()
    ensures PlainName("controller") && PlainName("gamepad") && PlainName("motion_as_ds4")
    ensures PlainName("touchpad_as_ds4") && PlainName("keyboard") && PlainName("mouse")
    ensures PlainName("native_pen_touch")
  {
    hide PlainName;
    ControllerNamesArePlain();
    KeyNamesArePlain();
  }

  lemma {:induction false} ControllerNamesArePlain()
    ensures PlainName("controller") && PlainName("gamepad") && PlainName("motion_as_ds4")
  {
  }

  lemma {:induction false} KeyNamesArePlain()
    ensures PlainName("touchpad_as_ds4") && PlainName("keyboard") && PlainName("mouse")
    ensures PlainName("native_pen_touch")
  {
  }

  lemma {:induction false} DisplayNamesArePlain()
    ensures PlainName("output_name") && PlainName("dd_configuration_option") && PlainName("dd_resolution_option")
    ensures PlainName("dd_refresh_rate_option") && PlainName("dd_manual_refresh_rate")
  {
    hide PlainName;
    OutputNamesArePlain();
    RateNamesArePlain();
  }

  lemma {:induction false} OutputNamesArePlain()
    ensures PlainName("output_name") && PlainName("dd_configuration_option") && PlainName("dd_resolution_option")
  {
  }

  lemma {:induction false} RateNamesArePlain()
    ensures PlainName("dd_refresh_rate_option") && PlainName("dd_manual_refresh_rate")
  {
  }

  lemma {:induction false} OtherDisplayNamesArePlain()
    ensures PlainName("dd_mode_remapping") && PlainName("dd_hdr_option")
    ensures PlainName("dd_config_revert_delay") && PlainName("dd_config_revert_on_disconnect")
  {
  }

  lemma {:induction false} ValuesAreTrimmed()
    ensures Trimmed("enabled") && Trimmed("disabled") && Trimmed("auto") && Trimmed("manual")
    ensures Trimmed("60") && Trimmed("500") && Trimmed("ensure_only_display")
  {
  }

  lemma {:induction false} RemappingIsTrimmed()
    ensures Trimmed(VITA_DISPLAY_MODE_REMAPPING)
  {
    var m := VITA_DISPLAY_MODE_REMAPPING;
    assert m[0] == '{' && m[|m| - 1] == '}';
  }

  lemma {:induction false} BaseSettingsArePlain()
    ensures PlainSettings(BASE_SETTINGS) && TrimmedSettings(BASE_SETTINGS)
    ensures PlainSettings(HOOK_SETTINGS) && TrimmedSettings(HOOK_SETTINGS)
  {
    InputNamesArePlain();
    DisplayNamesArePlain();
    OtherDisplayNamesArePlain();
    ValuesAreTrimmed();
    hide PlainName, Trimmed;
  }

  lemma {:induction false} NativeSettingsArePlain(displayId: string, forceSdr: bool)
    ensures PlainSettings(NativeSettings(displayId, forceSdr))
    ensures Trimmed(displayId) ==> TrimmedSettings(NativeSettings(displayId, forceSdr))
  {
    DisplayNamesArePlain();
    OtherDisplayNamesArePlain();
    ValuesAreTrimmed();
    RemappingIsTrimmed();
    hide PlainName, Trimmed;
  }

  // Every name the host sets is read back as written, and so is every value, unless
  // the display identifier has outer blanks.
  lemma {:induction false} SettingsArePlain(mode: Mode)
    ensures PlainSettings(SettingsFor(mode))
    ensures (mode.Native? && mode.displayId.Some? ==> Trimmed(mode.displayId.value)) ==>
              TrimmedSettings(SettingsFor(mode))
  {
    BaseSettingsArePlain();
    if mode.Native? && mode.displayId.Some? {
      NativeSettingsArePlain(mode.displayId.value, mode.forceSdr);
    }
    hide PlainName, Trimmed, NativeSettings;
  }

  datatype Journal = Journal(owned: Ownership, hooks: seq<OwnedHook>, created: seq<string>)

  const NO_JOURNAL := Journal(map[], [], [])

  // How far an attempt got.
  datatype Progress = NoDisplay | Reached(cut: Cut)

  datatype CleanupProgress = NothingWritten | ApplicationsWritten | SettingsWritten | Done

  class Disk {
    var journal: Journal
    var apps: seq<App>
    var lines: seq<string>

    ghost function Settings(): Book
      reads this
    {
      Book(lines, journal.owned)
    }

    ghost function Applications(): Apps
      reads this
    {
      Apps(apps, journal.hooks, journal.created)
    }

    method Configure(r: Request, mode: Mode) returns (progress: Progress)
      requires r.native <==> mode.Native?
      modifies this
      ensures progress.NoDisplay? <==> mode.Native? && mode.displayId.None?
      ensures progress.NoDisplay? ==> Settings() == old(Settings()) && Applications() == old(Applications())
      ensures progress.Reached? ==>
        Settings() == After(old(Settings()), Attempt(SettingsFor(mode), progress.cut))
      ensures progress.Reached? ==>
        var c := Configured(old(Applications()), r);
        match progress.cut
        case BeforeJournal => Applications() == old(Applications())
        case AfterJournal => Applications() == Apps(old(apps), c.hooks, c.created)
        case AfterApplications => Applications() == c
        case Complete => Applications() == c
    {
      hide SetAll, Configured, SettingsFor;
      var list := new ApplicationList(Apps(apps, journal.hooks, journal.created));
      list.Configure(r);
      var newLines, owned := UpdateSettings(lines, journal.owned, BASE_SETTINGS);
      if mode.Native? {
        if mode.displayId.None? { return NoDisplay; }
        newLines, owned := UpdateSettings(newLines, owned, NativeSettings(mode.displayId.value, mode.forceSdr));
      } else if mode.HookOfSunshine? {
        newLines, owned := UpdateSettings(newLines, owned, HOOK_SETTINGS);
      }
      SettingsInParts(Book(lines, journal.owned), mode);
      assert Book(newLines, owned) == SetAll(Book(lines, journal.owned), SettingsFor(mode));

      var running: bool := *;
      if !running { return Reached(BeforeJournal); }
      journal := Journal(owned, list.hooks, list.created);
      running := *;
      if !running { return Reached(AfterJournal); }
      apps := list.apps;
      running := *;
      if !running { return Reached(AfterApplications); }
      lines := newLines;
      return Reached(Complete);
    }

    // order is any enumeration of the ownership dictionary.
    method RemoveManagedIntegration(order: seq<string>) returns (progress: CleanupProgress)
      requires Sound(journal.owned) && Enumerates(order, journal.owned)
      modifies this
      ensures apps == if progress.NothingWritten? then old(apps) else CleanedApps(old(Applications()))
      ensures lines ==
              if progress.SettingsWritten? || progress.Done?
              then Cleaned(old(lines), old(journal.owned)) else old(lines)
      ensures journal == if progress.Done? then NO_JOURNAL else old(journal)
    {
      hide CleanedApps, Cleaned, KeyOf, Fold, PlainName;
      var list := new ApplicationList(Apps(apps, journal.hooks, journal.created));
      list.Cleanup();
      var file := new ConfigurationLines(lines);
      var _ := file.RestoreOwnedConfiguration(journal.owned, order);
      var running: bool := *;
      if !running { return NothingWritten; }
      apps := list.apps;
      running := *;
      if !running { return ApplicationsWritten; }
      lines := file.lines;
      running := *;
      if !running { return SettingsWritten; }
      journal := NO_JOURNAL;
      return Done;
    }
  }

  // SetConfigurationValue with ownership, for each setting of a list.
  method UpdateSettings(lines: seq<string>, owned: Ownership, settings: seq<Setting>)
    returns (newLines: seq<string>, newOwned: Ownership)
    ensures Book(newLines, newOwned) == SetAll(Book(lines, owned), settings)
  {
    hide KeyOf, ValueOf, Fold, WithValue, Lookup, SameText;
    var file := new ConfigurationLines(lines);
    newOwned := owned;
    ghost var start := Book(lines, owned);
    for n := 0 to |settings|
      invariant SetAll(Book(file.lines, newOwned), settings[n..]) == SetAll(start, settings)
    {
      var s := settings[n];
      assert settings[n..][0] == s && settings[n..][1..] == settings[n + 1..];
      var key := Fold(s.name);
      if key in newOwned {
        newOwned := newOwned[key := newOwned[key].(applied := s.value)];
      } else {
        var original := file.TryGetConfigurationValue(s.name);
        newOwned := newOwned[key := Owned.Owned(s.name, original, s.value)];
      }
      file.SetConfigurationValue(s.name, s.value);
    }
    newLines := file.lines;
  }

  lemma {:induction false} SetAllConcat(b: Book, first: seq<Setting>, second: seq<Setting>)
    ensures SetAll(b, first + second) == SetAll(SetAll(b, first), second)
    decreases first
  {
    hide Set;
    if first == [] {
      assert first + second == second;
    } else {
      assert (first + second)[0] == first[0] && (first + second)[1..] == first[1..] + second;
      SetAllConcat(Set(b, first[0]), first[1..], second);
    }
  }

  lemma {:induction false} SettingsInParts(b: Book, mode: Mode)
    ensures mode.Native? && mode.displayId.Some? ==>
      SetAll(b, SettingsFor(mode)) ==
        SetAll(SetAll(b, BASE_SETTINGS), NativeSettings(mode.displayId.value, mode.forceSdr))
    ensures mode.HookOfSunshine? ==> SetAll(b, SettingsFor(mode)) == SetAll(SetAll(b, BASE_SETTINGS), HOOK_SETTINGS)
    ensures mode.HookOfApollo? ==> SetAll(b, SettingsFor(mode)) == SetAll(b, BASE_SETTINGS)
  {
    hide SetAll, NativeSettings;
    match mode
    case Native(Some(displayId), forceSdr) => SetAllConcat(b, BASE_SETTINGS, NativeSettings(displayId, forceSdr));
    case Native(None, _) =>
    case HookOfSunshine => SetAllConcat(b, BASE_SETTINGS, HOOK_SETTINGS);
    case HookOfApollo =>
  }

  // ----- a first Configure, stopped anywhere, and the cleanup after it -----

  // Both files are given back: sunshine.conf up to the spelling of owned lines, and the
  // application list exactly, with the one exception of FirstConfigureListIsUndone.
  lemma {:induction false} FirstConfigureThenCleanup(lines: seq<string>, a: Apps, r: Request, mode: Mode, cut: Cut)
    requires r.native <==> mode.Native?
    requires mode.Native? ==> mode.displayId.Some? && Trimmed(mode.displayId.value)
    requires Untouched(a) && Recognised(r)
    ensures var b := After(Book(lines, map[]), Attempt(SettingsFor(mode), cut));
            SameSettings(lines, Cleaned(b.lines, b.owned), b.owned.Keys)
    ensures var c := Configured(a, r);
            && (cut == AfterJournal ==> CleanedApps(Apps(a.apps, c.hooks, c.created)) == a.apps)
            && ((cut == AfterApplications || cut == Complete) && !r.native ==>
                  (CleanedApps(c) == a.apps <==>
                   var index := FirstNamed(a.apps, r.name);
                   index < |a.apps| ==> Restorable(a.apps[index])))
            && (r.native ==> c.apps == a.apps && CleanedApps(c) == a.apps)
  {
    SettingsArePlain(mode);
    hide SetAll, Cleaned, Configured, SettingsFor, SameSettings, Untouched, Recognised, CleanedApps;
    FirstConfigureIsUndone(lines, Attempt(SettingsFor(mode), cut));
    UnwrittenListIsKept(a, r);
    if r.native {
      NativeConfigureOfUntouched(a, r);
    } else {
      FirstConfigureListIsUndone(a, r);
    }
  }

  lemma {:induction false} NativeConfigureOfUntouched(a: Apps, r: Request)
    requires Untouched(a) && r.native
    ensures Configured(a, r).apps == a.apps && CleanedApps(Configured(a, r)) == a.apps
  {
    hide GeneratedIn, StripAll, ScrubAll, AdoptAll;
    ScrubAllNothing(a.apps);
    AdoptNothing([], a.apps, r.name);
    StripAllNothing(a.apps, []);
  }

  // ----- what a cleanup after a native Configure leaves behind -----

  // The value of a setting that no later one of the list sets again is the one applied.
  lemma {:induction false} LastApplied(b: Book, front: seq<Setting>, s: Setting, back: seq<Setting>)
    requires !Sets(back, Fold(s.name))
    ensures var owned := SetAll(b, front + [s] + back).owned;
            Fold(s.name) in owned && owned[Fold(s.name)].applied == s.value
  {
    hide SetAll, Sets, Fold;
    SetAllConcat(b, front + [s], back);
    SetAllConcat(b, front, [s]);
    var before := SetAll(b, front);
    SetAllOne(before, s);
    SetAllKeeps(Set(before, s), back, Fold(s.name));
  }

  lemma {:induction false} SetAllKeeps(b: Book, settings: seq<Setting>, key: string)
    requires key in b.owned && !Sets(settings, key)
    ensures key in SetAll(b, settings).owned && SetAll(b, settings).owned[key] == b.owned[key]
    decreases settings
  {
    hide Fold, WithValue, Lookup;
    if settings != [] {
      SetsCons(settings, key);
      assert Fold(settings[0].name) != key;
      SetAllKeeps(Set(b, settings[0]), settings[1..], key);
    }
  }

  const HDR_OPTION := "dd_hdr_option"
  const OUTPUT_NAME := "output_name"

  function HdrSetting(forceSdr: bool): Setting {
    Setting(HDR_OPTION, if forceSdr then "auto" else "disabled")
  }

  lemma {:induction false} NativeApplies(b: Book, displayId: string, forceSdr: bool)
    ensures var owned := SetAll(b, SettingsFor(Native(Some(displayId), forceSdr))).owned;
            && Fold(HDR_OPTION) in owned && owned[Fold(HDR_OPTION)].applied == HdrSetting(forceSdr).value
            && Fold(OUTPUT_NAME) in owned && owned[Fold(OUTPUT_NAME)].applied == displayId
  {
    var all := SettingsFor(Native(Some(displayId), forceSdr));
    assert all == all[..13] + [HdrSetting(forceSdr)] + all[14..];
    assert all == all[..7] + [Setting(OUTPUT_NAME, displayId)] + all[8..];
    forall i | 8 <= i < |all| ensures |all[i].name| > 12 { }
    OthersAreLonger(all[14..], HDR_OPTION, 13);
    OthersAreLonger(all[8..], OUTPUT_NAME, 12);
    hide SetAll, SettingsFor, Fold, Sets;
    LastApplied(b, all[..13], HdrSetting(forceSdr), all[14..]);
    LastApplied(b, all[..7], Setting(OUTPUT_NAME, displayId), all[8..]);
  }

  lemma {:induction false} OthersAreLonger(settings: seq<Setting>, name: string, length: nat)
    requires |name| <= length && forall i | 0 <= i < |settings| :: |settings[i].name| > length
    ensures !Sets(settings, Fold(name))
  {
  }

  // The file after a complete native Configure.
  lemma {:induction false} NativeConfigured(original: seq<string>, displayId: string, forceSdr: bool)
    ensures var b := SetAll(Book(original, map[]), SettingsFor(Native(Some(displayId), forceSdr)));
            && Tracks(original, b) && Sound(b.owned)
            && Lookup(b.lines, Fold(HDR_OPTION)) == Some(Trim(HdrSetting(forceSdr).value))
            && Lookup(b.lines, Fold(OUTPUT_NAME)) == Some(Trim(displayId))
  {
    var mode := Native(Some(displayId), forceSdr);
    SettingsArePlain(mode);
    NativeApplies(Book(original, map[]), displayId, forceSdr);
    OverlayNothing(original);
    assert OriginalsOf(map[]) == map[];
    hide SetAll, SettingsFor, Fold, Overlay, Trim, Lookup, PlainSettings;
    SetAllTracks(original, original, Book(original, map[]), SettingsFor(mode));
    SetAllApplies(Book(original, map[]), SettingsFor(mode));
  }

  // The force-SDR switch is turned off, and the Configure that follows stops between the
  // journal and sunshine.conf: cleanup leaves the old value behind, unless it was there
  // from the beginning.
  lemma {:induction false} HdrSwitchIsNotUndone(original: seq<string>, displayId: string)
    ensures var b := AfterAll(Book(original, map[]),
                              [Attempt(SettingsFor(Native(Some(displayId), true)), Complete),
                               Attempt(SettingsFor(Native(Some(displayId), false)), AfterJournal)]);
            Lookup(Cleaned(b.lines, b.owned), Fold(HDR_OPTION)) == Some("auto")
  {
    var first := Attempt(SettingsFor(Native(Some(displayId), true)), Complete);
    var second := Attempt(SettingsFor(Native(Some(displayId), false)), AfterJournal);
    var b := SetAll(Book(original, map[]), first.settings);
    var now := SetAll(b, second.settings);
    NativeConfigured(original, displayId, true);
    NativeApplies(b, displayId, false);
    SettingsArePlain(Native(Some(displayId), false));
    AfterTwo(Book(original, map[]), first, second);
    ValuesAreTrimmed();
    TrimIsTrimmed("auto");
    hide SetAll, SettingsFor, Fold, Overlay, Trim, Trimmed, Lookup, Cleaned, Without, AfterAll, PlainSettings;
    SetAllTracks(original, b.lines, b, second.settings);
    CleanedValue(b.lines, now.owned, Fold(HDR_OPTION));
  }

  // A display identifier with outer blanks: cleanup leaves the trimmed one behind.
  lemma {:induction false} BlankDisplayIdIsNotUndone(original: seq<string>, displayId: string, forceSdr: bool)
    requires !Trimmed(displayId)
    ensures var b := After(Book(original, map[]), Attempt(SettingsFor(Native(Some(displayId), forceSdr)), Complete));
            Lookup(Cleaned(b.lines, b.owned), Fold(OUTPUT_NAME)) == Some(Trim(displayId))
  {
    var b := SetAll(Book(original, map[]), SettingsFor(Native(Some(displayId), forceSdr)));
    NativeConfigured(original, displayId, forceSdr);
    NativeApplies(Book(original, map[]), displayId, forceSdr);
    TrimIsTrimmed(displayId);
    hide SetAll, SettingsFor, Fold, Overlay, Trim, Trimmed, Lookup, Cleaned, Without;
    CleanedValue(b.lines, b.owned, Fold(OUTPUT_NAME));
  }
}
