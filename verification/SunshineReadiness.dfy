/** The host's own question whether sunshine.conf lets Sunshine manage the virtual display, and
    what Configure and cleanup make of the answer. */
module SunshineReadiness {
  import opened HostText
  import opened SunshineSettings
  import opened SunshineUndo
  import opened SunshineEdits
  import opened SunshineLines
  import opened SunshineIntegration
  import opened Numerals
  import DisplaySession
  import DisplayModes

  // HasConfigurationValue, for one line
  function Spells(name: string, value: string): Test {
    (line: string) => SameText(Trim(line), name + " = " + value)
  }

  function NamesOutput(): Test {
    (line: string) => MatchesAt(TrimStart(line), "output_name =", 0) && !IsBlank(line[IndexOf(line, '=', 0) + 1..])
  }

  // The lines that the question asks for besides an output.
  const NEEDED: seq<(string, string)> := [
    ("dd_configuration_option", "ensure_only_display"),
    ("dd_resolution_option", "auto"),
    ("dd_refresh_rate_option", "manual"),
    ("dd_manual_refresh_rate", "60"),
    ("dd_mode_remapping", VITA_DISPLAY_MODE_REMAPPING),
    ("dd_config_revert_on_disconnect", "enabled")]

  // The file has one of them.
  predicate Given(lines: seq<string>, k: nat) {
    k < |NEEDED| && Has(lines, Spells(NEEDED[k].0, NEEDED[k].1))
  }

  // The file has one of them behind the first line of its key.
  predicate GivenLater(lines: seq<string>, k: nat) {
    k < |NEEDED| && Has(Without(lines, Fold(NEEDED[k].0)), Spells(NEEDED[k].0, NEEDED[k].1))
  }

  // IsNativeDisplayManagementReady
  ghost predicate IsReady(lines: seq<string>) {
    && (forall k | 0 <= k < |NEEDED| :: Given(lines, k))
    && Has(lines, NamesOutput())
  }

  // ----- text -----

  lemma {:induction false} FoldConcat(a: string, b: string)
    ensures Fold(a + b) == Fold(a) + Fold(b)
  {
  }

  lemma {:induction false} FoldKeeps(c: char, d: char)
    requires FoldChar(c) == FoldChar(d)
    ensures (c == '=' <==> d == '=') && (c == ' ' <==> d == ' ') && (IsWhiteSpace(c) <==> IsWhiteSpace(d))
  {
  }

  // A text that matches a name and an assignment, letter by letter.
  lemma {:induction false} MatchedName(t: string, name: string)
    requires PlainName(name) && name != "" && MatchesAt(t, name + " =", 0)
    ensures |t| >= |name| + 2 && t[|name|] == ' ' && t[|name| + 1] == '=' && '=' !in t[..|name|]
    ensures Trimmed(t[..|name|]) && Fold(t[..|name|]) == Fold(name)
  {
    var n, text := |name|, name + " =";
    assert t[0..0 + |text|] == t[..n + 2];
    forall i | 0 <= i < n + 2 ensures FoldChar(t[i]) == FoldChar(text[i]) {
      assert Fold(t[..n + 2])[i] == Fold(text)[i];
    }
    FoldKeeps(t[n], text[n]);
    FoldKeeps(t[n + 1], text[n + 1]);
    FoldKeeps(t[0], name[0]);
    FoldKeeps(t[n - 1], name[n - 1]);
    forall i | 0 <= i < n ensures t[i] != '=' {
      FoldKeeps(t[i], text[i]);
      assert name[i] in name;
    }
    SameFront(t, name);
    hide Fold, FoldChar, IsWhiteSpace;
  }

  // A line that starts, behind blanks, with a name and an assignment is one of that name.
  lemma {:induction false} StartGivesKey(line: string, name: string)
    requires PlainName(name) && name != "" && MatchesAt(TrimStart(line), name + " =", 0)
    ensures KeyOf(line) == Some(Fold(name))
  {
    hide TrimStart, Trim, Fold, IsBlank, Trimmed, PlainName, MatchesAt, IndexOf;
    var front := StartTaken(line);
    var t, n := TrimStart(line), |name|;
    MatchedName(t, name);
    BlankHasNoSign(front);
    var at := |front| + n + 1;
    forall i | 0 <= i < at ensures line[i] != '=' {
      if i < |front| { assert line[i] == front[i]; }
      else if i < |front| + n { assert line[i] == t[..n][i - |front|]; }
    }
    FirstSign(line, at);
    assert line[..at] == front + t[..n] + " ";
    SpaceIsBlank();
    TrimAround(front, t[..n], " ");
  }

  lemma {:induction false} SameFront(t: string, name: string)
    requires |name| <= |t| && forall i | 0 <= i < |name| :: FoldChar(t[i]) == FoldChar(name[i])
    ensures Fold(t[..|name|]) == Fold(name)
  {
  }

  lemma {:induction false} SpelledHasKey(line: string, name: string, value: string)
    requires PlainName(name) && name != "" && SameText(Trim(line), name + " = " + value)
    ensures KeyOf(line) == Some(Fold(name))
  {
    var back := EndTaken(TrimStart(line));
    var t, text := Trim(line), name + " = " + value;
    assert text == (name + " =") + (" " + value);
    FoldConcat(name + " =", " " + value);
    assert |t| == |text| by { assert |Fold(t)| == |Fold(text)|; }
    hide TrimStart, TrimEnd, PlainName, Fold, KeyOf, MatchesAt;
    SameStart(TrimStart(line), t, back, name + " =", " " + value);
    StartGivesKey(line, name);
  }

  lemma {:induction false} SpellsKey(name: string, value: string)
    requires PlainName(name) && name != ""
    ensures TestsKey(Spells(name, value), Fold(name))
  {
    hide PlainName, Fold, KeyOf, Trim, SameText;
    forall line: string | Spells(name, value)(line) ensures KeyOf(line) == Some(Fold(name)) {
      SpelledHasKey(line, name, value);
    }
  }

  lemma {:induction false} SameStart(s: string, t: string, back: string, a: string, b: string)
    requires s == t + back && |t| == |a + b| && Fold(t) == Fold(a) + Fold(b)
    ensures MatchesAt(s, a, 0)
  {
    assert s[0..0 + |a|] == t[..|a|];
    assert Fold(t[..|a|]) == Fold(a) by {
      forall i | 0 <= i < |a| ensures Fold(t[..|a|])[i] == Fold(a)[i] {
        assert Fold(t)[i] == (Fold(a) + Fold(b))[i];
      }
    }
  }

  lemma {:induction false} OutputIsPlain()
    ensures PlainName("output_name")
  {
  }

  lemma {:induction false} OutputKey()
    ensures TestsKey(NamesOutput(), Fold("output_name"))
  {
    OutputIsPlain();
    hide PlainName, Fold, KeyOf, IsBlank;
    assert "output_name" + " =" == "output_name =";
    forall line: string | NamesOutput()(line) ensures KeyOf(line) == Some(Fold("output_name")) {
      StartGivesKey(line, "output_name");
    }
  }

  lemma {:induction false} NothingWritten(name: string, wanted: string, value: string)
    requires PlainName(name) && name != "" && |name| == |wanted|
    ensures !SameText(Trim(Assignment(name, "")), wanted + " = " + value)
  {
    var line := Assignment(name, "");
    assert (name + " =")[0] == name[0];
    SpaceIsBlank();
    assert Trimmed(name + " =");
    hide Trim, PlainName, Trimmed, IsBlank;
    TrimAround("", name + " =", " ");
    assert "" + (name + " =") + " " == line;
    assert |Fold(Trim(line))| < |Fold(wanted + " = " + value)|;
  }

  lemma {:induction false} SomethingWritten(name: string, v: string, wanted: string, value: string)
    requires PlainName(name) && name != "" && Trimmed(v) && v != "" && Fold(name) == Fold(wanted)
    ensures SameText(Trim(Assignment(name, v)), wanted + " = " + value) <==> SameText(v, value)
  {
    var line := Assignment(name, v);
    assert line[0] == name[0] && line[|line| - 1] == v[|v| - 1];
    TrimIsTrimmed(line);
    assert Trim(line) == line;
    hide Trim, Trimmed, PlainName, Fold;
    FoldConcat(name + " = ", v);
    FoldConcat(name, " = ");
    FoldConcat(wanted + " = ", value);
    FoldConcat(wanted, " = ");
    SameFrontSame(Fold(name) + Fold(" = "), Fold(v), Fold(value));
  }

  // What a written line spells.
  lemma {:induction false} WrittenSpells(name: string, v: string, wanted: string, value: string)
    requires PlainName(name) && name != "" && Trimmed(v) && Fold(name) == Fold(wanted) && value != ""
    ensures Spells(wanted, value)(Assignment(name, v)) <==> SameText(v, value)
  {
    hide Trim, Trimmed, PlainName, Fold, SameText, Assignment;
    SameLength(name, wanted);
    if v == "" {
      NothingWritten(name, wanted, value);
      if SameText(v, value) { SameLength(v, value); }
    } else {
      SomethingWritten(name, v, wanted, value);
    }
  }

  lemma {:induction false} SameLength(a: string, b: string)
    ensures Fold(a) == Fold(b) ==> |a| == |b|
    ensures SameText(a, b) ==> Fold(a) == Fold(b) && |a| == |b|
  {
    assert |Fold(a)| == |a| && |Fold(b)| == |b|;
  }

  lemma {:induction false} SameFrontSame(front: string, a: string, b: string)
    ensures front + a == front + b <==> a == b
  {
    if front + a == front + b {
      assert (front + a)[|front|..] == a && (front + b)[|front|..] == b;
    }
  }

  lemma {:induction false} WrittenNames(name: string, v: string)
    requires PlainName(name) && name != "" && Fold(name) == Fold("output_name")
    ensures NamesOutput()(Assignment(name, v)) <==> !IsBlank(v)
  {
    hide Fold, TrimStart, IsBlank, MatchesAt, IndexOf;
    WrittenStarts(name, v);
    BlankBehindSpace(v);
  }

  lemma {:induction false} WrittenStarts(name: string, v: string)
    requires PlainName(name) && name != "" && Fold(name) == Fold("output_name")
    ensures var line := Assignment(name, v);
            && TrimStart(line) == line && MatchesAt(line, "output_name =", 0)
            && IndexOf(line, '=', 0) + 1 == 13 <= |line| && line[13..] == " " + v
  {
    var line := Assignment(name, v);
    SameLength(name, "output_name");
    assert line[0] == name[0];
    assert line[0..0 + 13] == name + " =";
    FoldConcat(name, " =");
    FoldConcat("output_name", " =");
    assert "output_name" + " =" == "output_name =";
    assert forall i | 0 <= i < 11 :: line[i] == name[i];
    assert line[12] == '=' && line[11] == ' ';
    hide Fold, IsWhiteSpace;
    FirstSign(line, 12);
  }

  lemma {:induction false} BlankBehindSpace(v: string)
    ensures IsBlank(" " + v) <==> IsBlank(v)
  {
    var s := " " + v;
    assert forall i | 0 <= i < |v| :: s[i + 1] == v[i];
    if IsBlank(s) {
      forall i | 0 <= i < |v| ensures IsWhiteSpace(v[i]) { assert v[i] == s[i + 1]; }
    }
  }

  // ----- the settings of a Configure -----

  // What tells the names of the settings apart.
  function Sign(name: string): (nat, char)
    requires |name| > 3
  {
    (|name|, FoldChar(name[3]))
  }

  lemma {:induction false} SignsTell(a: string, b: string)
    requires |a| > 3 && |b| > 3 && Sign(a) != Sign(b)
    ensures Fold(a) != Fold(b)
  {
    assert |Fold(a)| == |a| && Fold(a)[3] == FoldChar(a[3]);
    assert |Fold(b)| == |b| && Fold(b)[3] == FoldChar(b[3]);
  }

  const SIGNS: seq<(nat, char)> := [
    (10, 'T'), (7, 'E'), (13, 'I'), (15, 'C'), (8, 'B'), (5, 'S'), (16, 'I'), (11, 'P'), (23, 'C'), (20, 'R'),
    (22, 'R'), (22, 'M'), (17, 'M'), (13, 'H'), (22, 'C'), (30, 'C')]

  lemma {:induction false} SignsDiffer()
    ensures |SIGNS| == 16 && forall i, j | 0 <= i < j < 16 :: SIGNS[i] != SIGNS[j]
  {
  }

  lemma {:induction false} NativeSigns(displayId: string, forceSdr: bool)
    ensures var all := SettingsFor(Native(Some(displayId), forceSdr));
            |all| == 16 && forall i | 0 <= i < 16 :: |all[i].name| > 3 && Sign(all[i].name) == SIGNS[i]
  {
    var all := SettingsFor(Native(Some(displayId), forceSdr));
    assert |all| == 16;
    forall i | 0 <= i < 16 ensures |all[i].name| > 3 && Sign(all[i].name) == SIGNS[i] {
      assert i in {0, 1, 2, 3, 4, 5, 6, 7, 8, 9, 10, 11, 12, 13, 14, 15};
    }
  }

  // Each setting of a native Configure is the last one of its key.
  lemma {:induction false} NativeLast(displayId: string, forceSdr: bool, i: nat)
    requires i < 16
    ensures var all := SettingsFor(Native(Some(displayId), forceSdr));
            |all| == 16 && LastOf(all, Fold(all[i].name)) == Some(all[i])
  {
    NativeSigns(displayId, forceSdr);
    SignsDiffer();
    hide SettingsFor, Fold, Sign, LastOf;
    var all := SettingsFor(Native(Some(displayId), forceSdr));
    forall j | i < j < 16 ensures Fold(all[j].name) != Fold(all[i].name) {
      SignsTell(all[j].name, all[i].name);
    }
    LastIs(all, i);
  }

  // The two settings of a hook Configure for Sunshine likewise.
  lemma {:induction false} HookLast(i: nat)
    requires i < 9
    ensures var all := SettingsFor(HookOfSunshine);
            |all| == 9 && LastOf(all, Fold(all[i].name)) == Some(all[i])
  {
    HookSigns();
    SignsDiffer();
    hide SettingsFor, Fold, Sign, LastOf;
    var all := SettingsFor(HookOfSunshine);
    forall j | i < j < 9 ensures Fold(all[j].name) != Fold(all[i].name) {
      SignsTell(all[j].name, all[i].name);
    }
    LastIs(all, i);
  }

  lemma {:induction false} HookSigns()
    ensures var all := SettingsFor(HookOfSunshine);
            |all| == 9 && forall i | 0 <= i < 9 ::
              |all[i].name| > 3 && Sign(all[i].name) == SIGNS[if i < 7 then i else if i == 7 then 8 else 15]
  {
    var all := SettingsFor(HookOfSunshine);
    assert |all| == 9;
    forall i | 0 <= i < 9
      ensures |all[i].name| > 3 && Sign(all[i].name) == SIGNS[if i < 7 then i else if i == 7 then 8 else 15]
    {
      assert i in {0, 1, 2, 3, 4, 5, 6, 7, 8};
    }
  }

  lemma {:induction false} BaseLast(i: nat)
    requires i < 7
    ensures |BASE_SETTINGS| == 7 && LastOf(BASE_SETTINGS, Fold(BASE_SETTINGS[i].name)) == Some(BASE_SETTINGS[i])
  {
    BaseSigns();
    SignsDiffer();
    hide Fold, Sign, LastOf;
    forall j | i < j < 7 ensures Fold(BASE_SETTINGS[j].name) != Fold(BASE_SETTINGS[i].name) {
      SignsTell(BASE_SETTINGS[j].name, BASE_SETTINGS[i].name);
    }
    LastIs(BASE_SETTINGS, i);
  }

  lemma {:induction false} BaseSigns()
    ensures |BASE_SETTINGS| == 7
    ensures forall i | 0 <= i < 7 :: |BASE_SETTINGS[i].name| > 3 && Sign(BASE_SETTINGS[i].name) == SIGNS[i]
  {
    forall i | 0 <= i < 7 ensures |BASE_SETTINGS[i].name| > 3 && Sign(BASE_SETTINGS[i].name) == SIGNS[i] {
      assert i in {0, 1, 2, 3, 4, 5, 6};
    }
  }

  // ----- what is read after Configure -----

  predicate Gives(lines: seq<string>, name: string, value: string) {
    Lookup(lines, Fold(name)) == Some(value)
  }

  // Every kind of input reaches the host.
  predicate InputsAreOn(lines: seq<string>) {
    && Gives(lines, "controller", "enabled") && Gives(lines, "gamepad", "auto")
    && Gives(lines, "motion_as_ds4", "enabled") && Gives(lines, "touchpad_as_ds4", "enabled")
    && Gives(lines, "keyboard", "enabled") && Gives(lines, "mouse", "enabled")
    && Gives(lines, "native_pen_touch", "enabled")
  }

  lemma {:induction false} InputsFromBase(settings: seq<Setting>, lines: seq<string>)
    requires |BASE_SETTINGS| == 7 <= |settings| && settings[..7] == BASE_SETTINGS
    requires forall i | 0 <= i < 7 :: Gives(lines, settings[i].name, settings[i].value)
    ensures InputsAreOn(lines)
  {
    hide Gives;
    assert forall i | 0 <= i < 7 :: settings[i] == settings[..7][i];
    assert settings[0] == Setting("controller", "enabled") && settings[1] == Setting("gamepad", "auto");
    assert settings[2] == Setting("motion_as_ds4", "enabled") && settings[3] == Setting("touchpad_as_ds4", "enabled");
    assert settings[4] == Setting("keyboard", "enabled") && settings[5] == Setting("mouse", "enabled");
    assert settings[6] == Setting("native_pen_touch", "enabled");
  }

  lemma {:induction false} LastIsRead(b: Book, settings: seq<Setting>, i: nat)
    requires i < |settings| && PlainSettings(settings) && Trimmed(settings[i].value)
    requires LastOf(settings, Fold(settings[i].name)) == Some(settings[i])
    ensures Gives(SetAll(b, settings).lines, settings[i].name, settings[i].value)
  {
    hide SetAll, Fold, Lookup, LastOf, PlainSettings, Trim, Trimmed;
    ReadAfterSettings(b, settings, Fold(settings[i].name));
    TrimIsTrimmed(settings[i].value);
  }

  // In every mode and whatever the file says Sunshine reads that every kind of input is on.
  lemma {:induction false} EveryConfigureTurnsInputsOn(b: Book, mode: Mode)
    ensures InputsAreOn(SetAll(b, SettingsFor(mode)).lines)
  {
    hide SetAll, SettingsFor, Gives, InputsAreOn, LastOf, PlainSettings, Trimmed, TrimmedSettings;
    var all := SettingsFor(mode);
    SettingsArePlain(mode);
    StartsWithBase(mode);
    BaseSettingsArePlain();
    forall i | 0 <= i < 7 ensures Gives(SetAll(b, all).lines, all[i].name, all[i].value) {
      InputIsLast(mode, i);
      assert Trimmed(BASE_SETTINGS[i].value) by { TrimmedAt(BASE_SETTINGS, i); }
      LastIsRead(b, all, i);
    }
    InputsFromBase(all, SetAll(b, all).lines);
  }

  lemma {:induction false} TrimmedAt(settings: seq<Setting>, i: nat)
    requires i < |settings| && TrimmedSettings(settings)
    ensures Trimmed(settings[i].value)
  {
    hide Trimmed;
  }

  lemma {:induction false} StartsWithBase(mode: Mode)
    ensures var all := SettingsFor(mode);
            && |BASE_SETTINGS| == 7 <= |all| && all[..7] == BASE_SETTINGS
            && forall i | 0 <= i < 7 :: all[i] == BASE_SETTINGS[i]
  {
    hide NativeSettings;
  }

  lemma {:induction false} InputIsLast(mode: Mode, i: nat)
    requires i < 7
    ensures var all := SettingsFor(mode); |all| >= 7 && LastOf(all, Fold(all[i].name)) == Some(all[i])
  {
    match mode {
      case Native(Some(displayId), forceSdr) => NativeLast(displayId, forceSdr, i);
      case Native(None, _) => BaseLast(i);
      case HookOfSunshine => HookLast(i);
      case HookOfApollo => BaseLast(i);
    }
    hide LastOf, Fold, NativeSettings;
  }

  // After a native Configure Sunshine reads that it makes the given display the only one, in
  // the stream's size at 60 Hz, and gives it back half a second after the end.
  lemma {:induction false} NativeConfigureReads(b: Book, displayId: string, forceSdr: bool)
    requires Trimmed(displayId)
    ensures var after := SetAll(b, SettingsFor(Native(Some(displayId), forceSdr))).lines;
            && Gives(after, "output_name", displayId)
            && Gives(after, "dd_configuration_option", "ensure_only_display")
            && Gives(after, "dd_resolution_option", "auto")
            && Gives(after, "dd_refresh_rate_option", "manual") && Gives(after, "dd_manual_refresh_rate", "60")
            && Gives(after, "dd_mode_remapping", VITA_DISPLAY_MODE_REMAPPING)
            && Gives(after, "dd_hdr_option", if forceSdr then "auto" else "disabled")
            && Gives(after, "dd_config_revert_delay", "500")
            && Gives(after, "dd_config_revert_on_disconnect", "enabled")
  {
    var mode := Native(Some(displayId), forceSdr);
    var all := SettingsFor(mode);
    NativeSettingsAre(displayId, forceSdr);
    SettingsArePlain(mode);
    hide SetAll, SettingsFor, Gives, LastOf, Fold, PlainSettings, Trimmed, TrimmedSettings;
    forall i | 7 <= i < 16 ensures Gives(SetAll(b, all).lines, all[i].name, all[i].value) {
      NativeLast(displayId, forceSdr, i);
      TrimmedAt(all, i);
      LastIsRead(b, all, i);
    }
  }

  lemma {:induction false} NativeSettingsAre(displayId: string, forceSdr: bool)
    ensures var all := SettingsFor(Native(Some(displayId), forceSdr));
            && |all| == 16 && all[7] == Setting("output_name", displayId)
            && all[8] == Setting("dd_configuration_option", "ensure_only_display")
            && all[9] == Setting("dd_resolution_option", "auto")
            && all[10] == Setting("dd_refresh_rate_option", "manual")
            && all[11] == Setting("dd_manual_refresh_rate", "60")
            && all[12] == Setting("dd_mode_remapping", VITA_DISPLAY_MODE_REMAPPING)
            && all[13] == Setting("dd_hdr_option", if forceSdr then "auto" else "disabled")
            && all[14] == Setting("dd_config_revert_delay", "500")
            && all[15] == Setting("dd_config_revert_on_disconnect", "enabled")
  {
  }

  // ----- the sizes -----

  function Size(mode: DisplaySession.Mode): string
    requires mode.width >= 0 && mode.height >= 0
  {
    Decimal(mode.width) + "x" + Decimal(mode.height)
  }

  function Requested(size: string): string { "{\"requested_resolution\":\"" + size + "\"," }

  function Final(size: string): string { "\"final_resolution\":\"" + size + "\"}," }

  function KeptSize(size: string): string { Requested(size) + Final(size) }

  lemma {:induction false} LowSize()
    ensures Requested("960x540") == "{\"requested_resolution\":\"960x540\","
    ensures Final("960x540") == "\"final_resolution\":\"960x540\"},"
  {
  }

  lemma {:induction false} NativeSize()
    ensures Requested("960x544") == "{\"requested_resolution\":\"960x544\","
    ensures Final("960x544") == "\"final_resolution\":\"960x544\"},"
  {
  }

  lemma {:induction false} HighSize()
    ensures Requested("1280x720") == "{\"requested_resolution\":\"1280x720\","
    ensures Final("1280x720") == "\"final_resolution\":\"1280x720\"},"
  {
  }

  lemma {:induction false} LastSize()
    ensures "{\"final_resolution\":\"" + "960x544" + "\"}],\"refresh_rate_only\":[]}"
            == "{\"final_resolution\":\"960x544\"}],\"refresh_rate_only\":[]}"
  {
  }

  lemma {:induction false} Decimals()
    ensures Decimal(960) == "960" && Decimal(544) == "544" && Decimal(540) == "540"
    ensures Decimal(1280) == "1280" && Decimal(720) == "720" && Decimal(60) == "60"
  {
    assert Decimal(9) == "9" && Decimal(96) == "96" && Decimal(5) == "5" && Decimal(54) == "54" && Decimal(6) == "6";
    assert Decimal(1) == "1" && Decimal(12) == "12" && Decimal(128) == "128" && Decimal(7) == "7"
           && Decimal(72) == "72";
  }

  lemma {:induction false} Sizes()
    ensures |DisplaySession.SUPPORTED_MODES| == 3 && Size(DisplaySession.NATIVE_MODE) == "960x544"
    ensures Size(DisplaySession.SUPPORTED_MODES[0]) == "960x544" && Size(DisplaySession.SUPPORTED_MODES[1]) == "960x540"
    ensures Size(DisplaySession.SUPPORTED_MODES[2]) == "1280x720"
  {
    Decimals();
    hide Decimal;
  }

  // The remapping that Sunshine gets keeps the sizes of the sessions' modes and gives the
  // native size for every other request.
  lemma {:induction false} RemappingKeepsSessionSizes()
    ensures |DisplaySession.SUPPORTED_MODES| == 3
    ensures VITA_DISPLAY_MODE_REMAPPING ==
              "{\"mixed\":[],\"resolution_only\":["
              + KeptSize(Size(DisplaySession.SUPPORTED_MODES[1]))
              + KeptSize(Size(DisplaySession.SUPPORTED_MODES[0]))
              + KeptSize(Size(DisplaySession.SUPPORTED_MODES[2]))
              + ("{\"final_resolution\":\"" + Size(DisplaySession.NATIVE_MODE) + "\"}],\"refresh_rate_only\":[]}")
  {
    Sizes();
    LowSize();
    NativeSize();
    HighSize();
    LastSize();
    hide Size, Requested, Final;
  }

  // The driver's configuration names the sessions' modes.
  lemma {:induction false} DriverNamesSessionModes(k: nat)
    requires k < 3
    ensures |DisplaySession.SUPPORTED_MODES| == 3 && |DisplayModes.SUPPORTED| == 3
    ensures var mode := DisplaySession.SUPPORTED_MODES[k];
            && mode.width > 0 && mode.height > 0 && mode.fps > 0
            && DisplayModes.SUPPORTED[k]
               == DisplayModes.Mode(Decimal(mode.width), Decimal(mode.height), Decimal(mode.fps))
  {
    Decimals();
    hide Decimal;
    assert k in {0, 1, 2};
  }

  // Where the needed lines stand among the settings.
  const PLACES: seq<nat> := [8, 9, 10, 11, 12, 15]

  lemma {:induction false} NeededAreSet(displayId: string, forceSdr: bool, k: nat)
    requires k < 6
    ensures var all := SettingsFor(Native(Some(displayId), forceSdr));
            all[PLACES[k]] == Setting(NEEDED[k].0, NEEDED[k].1) && all[7] == Setting("output_name", displayId)
  {
    assert k in {0, 1, 2, 3, 4, 5};
  }

  lemma {:induction false} NeededArePlain(k: nat)
    requires k < 6
    ensures PlainName(NEEDED[k].0) && NEEDED[k].0 != "" && Trimmed(NEEDED[k].1) && NEEDED[k].1 != ""
  {
    DisplayNamesArePlain();
    OtherDisplayNamesArePlain();
    ValuesAreTrimmed();
    RemappingIsTrimmed();
    hide PlainName, Trimmed;
    assert k in {0, 1, 2, 3, 4, 5};
  }

  // ----- the answer after Configure -----

  // After a complete native Configure, of any file and with any journal, Sunshine manages the
  // display, if and only if the identifier is not blank or a line behind the first one for
  // the output names another output.
  lemma {:induction false} NativeConfigureIsReady(b: Book, displayId: string, forceSdr: bool)
    ensures IsReady(SetAll(b, SettingsFor(Native(Some(displayId), forceSdr))).lines) <==>
            !IsBlank(displayId) || Has(Without(b.lines, Fold("output_name")), NamesOutput())
  {
    hide SetAll, SettingsFor, Has, Fold, IsBlank, Without, Spells, NamesOutput, LastOf, Given;
    var mode := Native(Some(displayId), forceSdr);
    SettingsArePlain(mode);
    hide PlainSettings, TrimmedSettings;
    var after := SetAll(b, SettingsFor(mode)).lines;
    forall k | 0 <= k < 6 ensures Given(after, k) {
      NeededIsThere(b, displayId, forceSdr, k);
    }
    OutputIsThere(b, displayId, forceSdr);
    assert |NEEDED| == 6;
  }

  lemma {:induction false} NeededIsThere(b: Book, displayId: string, forceSdr: bool, k: nat)
    requires k < 6
    ensures Given(SetAll(b, SettingsFor(Native(Some(displayId), forceSdr))).lines, k)
  {
    hide SetAll, SettingsFor, Has, Fold, Without, Spells, LastOf, PlainSettings, TrimmedSettings, PlainName, Trimmed;
    var mode := Native(Some(displayId), forceSdr);
    var name, value := NEEDED[k].0, NEEDED[k].1;
    SettingsArePlain(mode);
    NeededAreSet(displayId, forceSdr, k);
    NeededArePlain(k);
    NativeLast(displayId, forceSdr, PLACES[k]);
    SpellsKey(name, value);
    HasAfterSettings(b, SettingsFor(mode), Fold(name), Spells(name, value));
    WrittenSpells(name, value, name, value);
  }

  lemma {:induction false} OutputIsThere(b: Book, displayId: string, forceSdr: bool)
    ensures Has(SetAll(b, SettingsFor(Native(Some(displayId), forceSdr))).lines, NamesOutput()) <==>
            !IsBlank(displayId) || Has(Without(b.lines, Fold("output_name")), NamesOutput())
  {
    hide SetAll, SettingsFor, Has, Fold, Without, NamesOutput, LastOf, PlainSettings, TrimmedSettings, PlainName,
         IsBlank;
    var mode := Native(Some(displayId), forceSdr);
    SettingsArePlain(mode);
    NeededAreSet(displayId, forceSdr, 0);
    NativeLast(displayId, forceSdr, 7);
    OutputKey();
    OutputIsPlain();
    HasAfterSettings(b, SettingsFor(mode), Fold("output_name"), NamesOutput());
    WrittenNames("output_name", displayId);
  }

  // After a complete Configure with a hook in Sunshine the host still takes the file for
  // ready if and only if it was before, and lines behind the first ones say so.
  lemma {:induction false} HookConfigureIsNotReady(b: Book, after: seq<string>)
    requires after == SetAll(b, SettingsFor(HookOfSunshine)).lines
    ensures IsReady(after) <==> IsReady(b.lines) && GivenLater(b.lines, 0) && GivenLater(b.lines, 5)
  {
    hide SetAll, SettingsFor, Has, Fold, Without, Spells, NamesOutput, Lookup, Given, GivenLater;
    HookRefuses(b, 0);
    HookRefuses(b, 5);
    HookLeaves(b);
    assert |NEEDED| == 6;
  }

  // Sunshine reads in it that it manages no display.
  lemma {:induction false} HookReads(b: Book)
    ensures var after := SetAll(b, SettingsFor(HookOfSunshine)).lines;
            && Lookup(after, Fold("dd_configuration_option")) == Some("disabled")
            && Lookup(after, Fold("dd_config_revert_on_disconnect")) == Some("disabled")
  {
    HookSettingsAre();
    hide SetAll, SettingsFor, Fold, LastOf, PlainSettings, TrimmedSettings, PlainName, Trim, Trimmed, Lookup;
    var all := SettingsFor(HookOfSunshine);
    SettingsArePlain(HookOfSunshine);
    ValuesAreTrimmed();
    TrimIsTrimmed("disabled");
    HookLast(7);
    HookLast(8);
    ReadAfterSettings(b, all, Fold(all[7].name));
    ReadAfterSettings(b, all, Fold(all[8].name));
  }

  lemma {:induction false} HookSettingsAre()
    ensures var all := SettingsFor(HookOfSunshine);
            && |all| == 9 && all[7] == Setting("dd_configuration_option", "disabled")
            && all[8] == Setting("dd_config_revert_on_disconnect", "disabled")
  {
  }

  // The two needed lines that a hook Configure overwrites.
  lemma {:induction false} HookRefuses(b: Book, k: nat)
    requires k == 0 || k == 5
    ensures Given(SetAll(b, SettingsFor(HookOfSunshine)).lines, k) <==> GivenLater(b.lines, k)
    ensures GivenLater(b.lines, k) ==> Given(b.lines, k)
  {
    hide SetAll, SettingsFor, Has, Fold, Without, Spells, LastOf, PlainSettings, TrimmedSettings, PlainName, Trimmed,
         SameText;
    HookSettingsAre();
    NotDisabled(k);
    SettingsArePlain(HookOfSunshine);
    ValuesAreTrimmed();
    NeededArePlain(k);
    Overwritten(b, SettingsFor(HookOfSunshine), if k == 0 then 7 else 8, NEEDED[k].0, "disabled", NEEDED[k].1);
    HookLast(if k == 0 then 7 else 8);
  }

  lemma {:induction false} Overwritten(b: Book, settings: seq<Setting>, i: nat, name: string, v: string, value: string)
    requires i < |settings| && settings[i] == Setting(name, v) && PlainSettings(settings)
    requires PlainName(name) && name != "" && Trimmed(v) && value != "" && !SameText(v, value)
    ensures LastOf(settings, Fold(name)) == Some(settings[i]) ==>
              (Has(SetAll(b, settings).lines, Spells(name, value)) <==>
               Has(Without(b.lines, Fold(name)), Spells(name, value)))
    ensures Has(Without(b.lines, Fold(name)), Spells(name, value)) ==> Has(b.lines, Spells(name, value))
  {
    hide SetAll, Has, Fold, Without, Spells, LastOf, PlainSettings, PlainName, Trimmed, SameText, Assignment;
    SpellsKey(name, value);
    HasAfterSettings(b, settings, Fold(name), Spells(name, value));
    WrittenSpells(name, v, name, value);
    HasFirst(b.lines, Fold(name), Spells(name, value));
  }

  lemma {:induction false} NotDisabled(k: nat)
    requires k == 0 || k == 5
    ensures !SameText("disabled", NEEDED[k].1)
  {
    if k == 0 {
      if SameText("disabled", NEEDED[k].1) { SameLength("disabled", NEEDED[k].1); }
    } else {
      if SameText("disabled", NEEDED[k].1) { SameLength("disabled", NEEDED[k].1); }
    }
  }

  // All the others stay as they were.
  lemma {:induction false} HookLeaves(b: Book)
    ensures var after := SetAll(b, SettingsFor(HookOfSunshine)).lines;
            && (forall k | 1 <= k < 5 :: Given(after, k) <==> Given(b.lines, k))
            && (Has(after, NamesOutput()) <==> Has(b.lines, NamesOutput()))
  {
    HookSigns();
    SignsDiffer();
    OtherSigns();
    hide SetAll, SettingsFor, Has, Fold, Without, Spells, NamesOutput, LastOf, PlainSettings, TrimmedSettings,
         PlainName, Trimmed, Sign;
    var all := SettingsFor(HookOfSunshine);
    SettingsArePlain(HookOfSunshine);
    forall k | 1 <= k < 5
      ensures Given(SetAll(b, all).lines, k) <==> Given(b.lines, k)
    {
      var name, value := NEEDED[k].0, NEEDED[k].1;
      NeededArePlain(k);
      SpellsKey(name, value);
      forall j | 0 <= j < 9 ensures Fold(all[j].name) != Fold(name) { SignsTell(all[j].name, name); }
      LastNone(all, Fold(name));
      HasAfterSettings(b, all, Fold(name), Spells(name, value));
    }
    OutputKey();
    forall j | 0 <= j < 9 ensures Fold(all[j].name) != Fold("output_name") { SignsTell(all[j].name, "output_name"); }
    LastNone(all, Fold("output_name"));
    HasAfterSettings(b, all, Fold("output_name"), NamesOutput());
  }

  lemma {:induction false} OtherSigns()
    ensures forall k | 1 <= k < 5 :: |NEEDED[k].0| > 3 && Sign(NEEDED[k].0) == SIGNS[8 + k]
    ensures Sign("output_name") == SIGNS[7]
  {
    forall k | 1 <= k < 5 ensures |NEEDED[k].0| > 3 && Sign(NEEDED[k].0) == SIGNS[8 + k] {
      assert k in {1, 2, 3, 4};
    }
  }

  // ----- the answer after cleanup -----

  // A needed line as reading the setting finds it, or one behind the first of its key.
  predicate ReadsNeeded(lines: seq<string>, k: nat) {
    k < |NEEDED| &&
    var value := Lookup(lines, Fold(NEEDED[k].0));
    (value.Some? && SameText(value.value, NEEDED[k].1)) || GivenLater(lines, k)
  }

  predicate ReadsOutput(lines: seq<string>) {
    var value := Lookup(lines, Fold("output_name"));
    (value.Some? && !IsBlank(value.value)) || Has(Without(lines, Fold("output_name")), NamesOutput())
  }

  ghost predicate ReadsReady(lines: seq<string>) {
    (forall k | 0 <= k < |NEEDED| :: ReadsNeeded(lines, k)) && ReadsOutput(lines)
  }

  // What a test says of a file that was configured once and cleaned up.
  lemma {:induction false} HasRestored(original: seq<string>, settings: seq<Setting>, i: nat, test: Test)
    requires i < |settings| && PlainSettings(settings) && Trimmed(settings[i].value)
    requires LastOf(settings, Fold(settings[i].name)) == Some(settings[i]) && TestsKey(test, Fold(settings[i].name))
    ensures var b := SetAll(Book(original, map[]), settings);
            var key := Fold(settings[i].name);
            var value := Lookup(original, key);
            && key in b.owned && PlainName(b.owned[key].name) && Fold(b.owned[key].name) == key
            && (value.Some? ==> Trimmed(value.value))
            && (Has(Cleaned(b.lines, b.owned), test) <==>
                (value.Some? && test(Assignment(b.owned[key].name, value.value))) || Has(Without(original, key), test))
  {
    hide SetAll, Has, Without, LastOf, PlainSettings, PlainName, Trimmed, Lookup, Cleaned, Overlay, Fold, TestsKey,
         Assignment, Trim;
    var start := Book(original, map[]);
    var b := SetAll(start, settings);
    var key := Fold(settings[i].name);
    OverlayNothing(original);
    assert OriginalsOf(map[]) == map[];
    SetAllTracks(original, original, start, settings);
    OverlayLookup(original, b.lines, OriginalsOf(b.owned), key);
    ReadAfterSettings(start, settings, key);
    TrimIsTrimmed(settings[i].value);
    HasAfterSettings(start, settings, key, test);
    HasCleaned(b.lines, b.owned, key, test);
  }

  lemma {:induction false} NeededRestored(original: seq<string>, displayId: string, forceSdr: bool, k: nat)
    requires k < 6
    ensures var b := SetAll(Book(original, map[]), SettingsFor(Native(Some(displayId), forceSdr)));
            Given(Cleaned(b.lines, b.owned), k) <==> ReadsNeeded(original, k)
  {
    hide SetAll, SettingsFor, Has, Without, LastOf, PlainSettings, TrimmedSettings, PlainName, Trimmed, Lookup,
         Cleaned, Fold, Assignment, Spells, SameText;
    var all := SettingsFor(Native(Some(displayId), forceSdr));
    var name, value := NEEDED[k].0, NEEDED[k].1;
    SettingsArePlain(Native(Some(displayId), forceSdr));
    NeededAreSet(displayId, forceSdr, k);
    NeededArePlain(k);
    NativeLast(displayId, forceSdr, PLACES[k]);
    SpellsKey(name, value);
    HasRestored(original, all, PLACES[k], Spells(name, value));
    var b := SetAll(Book(original, map[]), all);
    var key := Fold(name);
    SameLength(b.owned[key].name, name);
    if Lookup(original, key).Some? {
      WrittenSpells(b.owned[key].name, Lookup(original, key).value, name, value);
    }
  }

  lemma {:induction false} OutputRestored(original: seq<string>, displayId: string, forceSdr: bool)
    requires Trimmed(displayId)
    ensures var b := SetAll(Book(original, map[]), SettingsFor(Native(Some(displayId), forceSdr)));
            Has(Cleaned(b.lines, b.owned), NamesOutput()) <==> ReadsOutput(original)
  {
    hide SetAll, SettingsFor, Has, Without, LastOf, PlainSettings, TrimmedSettings, PlainName, Trimmed, Lookup,
         Cleaned, Fold, Assignment, NamesOutput, IsBlank;
    var all := SettingsFor(Native(Some(displayId), forceSdr));
    SettingsArePlain(Native(Some(displayId), forceSdr));
    NeededAreSet(displayId, forceSdr, 0);
    NativeLast(displayId, forceSdr, 7);
    OutputKey();
    HasRestored(original, all, 7, NamesOutput());
    var b := SetAll(Book(original, map[]), all);
    var key := Fold("output_name");
    SameLength(b.owned[key].name, "output_name");
    if Lookup(original, key).Some? { WrittenNames(b.owned[key].name, Lookup(original, key).value); }
  }

  // A complete native Configure and the cleanup after it leave a file that the host takes for
  // ready exactly when the original file reads as ready. A file that was ready is ready again;
  // one that was not becomes so only if it gave the values in another spelling.
  lemma {:induction false} CleanedIsReady(original: seq<string>, displayId: string, forceSdr: bool,
                                          cleaned: seq<string>)
    requires Trimmed(displayId)
    requires var b := SetAll(Book(original, map[]), SettingsFor(Native(Some(displayId), forceSdr)));
             cleaned == Cleaned(b.lines, b.owned)
    ensures IsReady(cleaned) <==> ReadsReady(original)
    ensures IsReady(original) ==> IsReady(cleaned)
  {
    hide SetAll, SettingsFor, Has, Given, ReadsNeeded, ReadsOutput, Cleaned, NamesOutput, Trimmed;
    assert |NEEDED| == 6;
    forall k | 0 <= k < 6 ensures Given(cleaned, k) <==> ReadsNeeded(original, k) {
      NeededRestored(original, displayId, forceSdr, k);
    }
    OutputRestored(original, displayId, forceSdr);
    ReadyReadsReady(original);
  }

  // ----- what a spelled line gives -----

  // The parts of a spelled line.
  lemma {:induction false} SpelledParts(t: string, name: string, value: string) returns (word: string, given: string)
    requires PlainName(name) && name != "" && Trimmed(value) && value != "" && SameText(t, name + " = " + value)
    ensures PlainName(word) && word != "" && SameText(given, value) && Trimmed(given) && given != ""
    ensures t == word + " " + ("=" + (" " + given))
  {
    hide TrimStart, TrimEnd, IsBlank, IndexOf, Trimmed, Fold, MatchesAt, SameText;
    var n := |name|;
    assert name + " = " + value == (name + " =") + (" " + value);
    FoldConcat(name + " =", " " + value);
    SameLength(t, name + " = " + value);
    assert t + "" == t;
    SameStart(t, t, "", name + " =", " " + value);
    MatchedName(t, name);
    SameEnd(t, name, value);
    word, given := t[..n], t[n + 3..];
    assert t == t[..n] + [t[n]] + ([t[n + 1]] + ([t[n + 2]] + t[n + 3..]));
  }

  lemma {:induction false} SpelledGives(line: string, name: string, value: string)
    requires PlainName(name) && name != "" && Trimmed(value) && value != ""
    requires SameText(Trim(line), name + " = " + value)
    ensures SameText(ValueOf(line), value)
  {
    hide PlainName, Trim, Trimmed, Fold, IsBlank, KeyOf, ValueOf, SameText;
    var front, back := TrimTakesBlanks(line);
    var word, given := SpelledParts(Trim(line), name, value);
    SpaceIsBlank();
    LineIsRead(front, word, " ", " " + given + back);
    TrimAround(" ", given, back);
    assert line == front + word + " " + ("=" + (" " + given + back));
  }

  lemma {:induction false} SameEnd(t: string, name: string, value: string)
    requires SameText(t, name + " = " + value) && Trimmed(value) && value != "" && |t| == |name| + 3 + |value|
    ensures var w := t[|name| + 3..]; SameText(w, value) && Trimmed(w) && w != "" && t[|name| + 2] == ' '
  {
    var text, n := name + " = " + value, |name| + 3;
    var w := t[n..];
    forall i | 0 <= i < |text| ensures FoldChar(t[i]) == FoldChar(text[i]) {
      assert Fold(t)[i] == Fold(text)[i];
    }
    forall i | 0 <= i < |value| ensures FoldChar(w[i]) == FoldChar(value[i]) {
      assert w[i] == t[n + i] && text[n + i] == value[i];
    }
    assert Fold(w) == Fold(value);
    FoldKeeps(w[0], value[0]);
    FoldKeeps(w[|w| - 1], value[|value| - 1]);
    FoldKeeps(t[n - 1], text[n - 1]);
  }

  lemma {:induction false} HasReads(lines: seq<string>, key: string, test: Test, gives: string -> bool)
    requires TestsKey(test, key) && forall line: string :: test(line) ==> gives(ValueOf(line))
    ensures Has(lines, test) ==>
              (Lookup(lines, key).Some? && gives(Lookup(lines, key).value)) || Has(Without(lines, key), test)
  {
    hide KeyOf, ValueOf, Has;
    HasNothing(test);
    if lines != [] {
      HasSplit(lines, test);
      if KeyOf(lines[0]) != Some(key) {
        HasReads(lines[1..], key, test, gives);
        HasCons(lines[0], Without(lines[1..], key), test);
      }
    }
  }

  lemma {:induction false} NeededReads(lines: seq<string>, k: nat)
    requires k < 6 && Given(lines, k)
    ensures ReadsNeeded(lines, k)
  {
    hide Has, Without, PlainName, Trimmed, Lookup, Fold, SameText, Trim, KeyOf, ValueOf;
    var name, value := NEEDED[k].0, NEEDED[k].1;
    NeededArePlain(k);
    SpellsKey(name, value);
    forall line: string | Spells(name, value)(line) ensures SameText(ValueOf(line), value) {
      SpelledGives(line, name, value);
    }
    HasReads(lines, Fold(name), Spells(name, value), v => SameText(v, value));
  }

  lemma {:induction false} OutputReads(lines: seq<string>)
    requires Has(lines, NamesOutput())
    ensures ReadsOutput(lines)
  {
    hide Has, Without, Lookup, Fold, KeyOf, ValueOf, IsBlank, NamesOutput;
    OutputKey();
    forall line: string | NamesOutput()(line) ensures !IsBlank(ValueOf(line)) {
      NotBlankValue(line);
    }
    HasReads(lines, Fold("output_name"), NamesOutput(), v => !IsBlank(v));
  }

  lemma {:induction false} NotBlankValue(line: string)
    requires NamesOutput()(line) && KeyOf(line).Some?
    ensures !IsBlank(ValueOf(line))
  {
    hide Trim, IsBlank, MatchesAt, TrimStart;
    BlankTrim(line[IndexOf(line, '=', 0) + 1..]);
  }

  lemma {:induction false} ReadyReadsReady(lines: seq<string>)
    ensures IsReady(lines) ==> ReadsReady(lines)
  {
    hide Has, Given, ReadsNeeded, ReadsOutput, NamesOutput;
    assert |NEEDED| == 6;
    if IsReady(lines) {
      forall k | 0 <= k < 6 ensures ReadsNeeded(lines, k) { NeededReads(lines, k); }
      OutputReads(lines);
    }
  }

  // ----- a file in another spelling -----

  function NameAt(i: nat): string { if i < |NEEDED| then NEEDED[i].0 else "output_name" }

  function ValueAt(i: nat): string { if i < |NEEDED| then NEEDED[i].1 else "1" }

  function Unspaced(name: string, value: string): string { name + "=" + value }

  // The needed lines without blanks, and an output.
  function UnspacedFile(): seq<string> {
    seq(7, i requires 0 <= i < 7 => Unspaced(NameAt(i), ValueAt(i)))
  }

  lemma {:induction false} UnspacedIsRead(name: string, value: string)
    requires PlainName(name) && name != "" && Trimmed(value) && value != ""
    ensures KeyOf(Unspaced(name, value)) == Some(Fold(name)) && ValueOf(Unspaced(name, value)) == value
  {
    hide Fold, Trimmed, Trim, PlainName, KeyOf, ValueOf;
    SpaceIsBlank();
    assert IsBlank("");
    LineIsRead("", name, "", value);
    assert "" + name + "" + ("=" + value) == Unspaced(name, value);
    TrimIsTrimmed(value);
  }

  // It is shorter than the line that the question asks for.
  lemma {:induction false} UnspacedIsNotSpelled(name: string, value: string)
    requires PlainName(name) && name != "" && Trimmed(value) && value != ""
    ensures !Spells(name, value)(Unspaced(name, value))
  {
    UnspacedIsTrimmed(name, value);
    hide Fold, Trimmed, Trim, PlainName, SameText;
    if SameText(Trim(Unspaced(name, value)), name + " = " + value) {
      SameLength(Unspaced(name, value), name + " = " + value);
    }
  }

  lemma {:induction false} UnspacedIsTrimmed(name: string, value: string)
    requires PlainName(name) && name != "" && Trimmed(value) && value != ""
    ensures Trim(Unspaced(name, value)) == Unspaced(name, value)
  {
    hide Trim;
    var line := Unspaced(name, value);
    assert line[0] == name[0] && line[|line| - 1] == value[|value| - 1];
    TrimIsTrimmed(line);
  }

  lemma {:induction false} OneIsTrimmed()
    ensures Trimmed("1") && !IsBlank("1")
  {
    assert "1"[0] == '1';
  }

  lemma {:induction false} PartsArePlain(i: nat)
    requires i < 7
    ensures PlainName(NameAt(i)) && NameAt(i) != "" && Trimmed(ValueAt(i)) && ValueAt(i) != ""
  {
    hide PlainName, Trimmed;
    assert |NEEDED| == 6;
    OutputIsPlain();
    OneIsTrimmed();
    if i < 6 { NeededArePlain(i); }
  }

  lemma {:induction false} UnspacedAt(i: nat)
    requires i < 7
    ensures |UnspacedFile()| == 7 && UnspacedFile()[i] == Unspaced(NameAt(i), ValueAt(i))
  {
    hide Unspaced, NameAt, ValueAt;
  }

  lemma {:induction false} UnspacedKey(i: nat)
    requires i < 7
    ensures |UnspacedFile()| == 7 && KeyOf(UnspacedFile()[i]) == Some(Fold(NameAt(i)))
    ensures ValueOf(UnspacedFile()[i]) == ValueAt(i)
  {
    hide KeyOf, ValueOf, Fold, PlainName, Trimmed, Unspaced, UnspacedFile, NameAt, ValueAt;
    UnspacedAt(i);
    PartsArePlain(i);
    UnspacedIsRead(NameAt(i), ValueAt(i));
  }

  // Where the names' signs stand in the table.
  lemma {:induction false} PartSigns(i: nat)
    requires i < 7
    ensures |NameAt(i)| > 3 && Sign(NameAt(i)) == SIGNS[if i == 6 then 7 else if i == 5 then 15 else 8 + i]
  {
    assert i in {0, 1, 2, 3, 4, 5, 6};
  }

  lemma {:induction false} NamesDiffer(i: nat, j: nat)
    requires i < j < 7
    ensures Fold(NameAt(i)) != Fold(NameAt(j))
  {
    hide Fold, Sign, NameAt;
    PartSigns(i);
    PartSigns(j);
    SignsDiffer();
    SignsTell(NameAt(i), NameAt(j));
  }

  lemma {:induction false} UnspacedLookup(i: nat)
    requires i < 7
    ensures Lookup(UnspacedFile(), Fold(NameAt(i))) == Some(ValueAt(i))
  {
    hide KeyOf, ValueOf, Fold, Lookup, UnspacedFile, NameAt, ValueAt;
    UnspacedKey(i);
    forall j | 0 <= j < i ensures KeyOf(UnspacedFile()[j]) != Some(Fold(NameAt(i))) {
      UnspacedKey(j);
      NamesDiffer(j, i);
    }
    LookupFirst(UnspacedFile(), Fold(NameAt(i)), i);
  }

  // Such a file is not taken for ready, but it is once it was configured and cleaned up.
  lemma {:induction false} OtherSpellingBecomesReady(displayId: string, forceSdr: bool, cleaned: seq<string>)
    requires Trimmed(displayId)
    requires var b := SetAll(Book(UnspacedFile(), map[]), SettingsFor(Native(Some(displayId), forceSdr)));
             cleaned == Cleaned(b.lines, b.owned)
    ensures !IsReady(UnspacedFile()) && IsReady(cleaned)
  {
    hide SetAll, SettingsFor, UnspacedFile, Given, Cleaned, Trimmed, Has, ReadsReady;
    CleanedIsReady(UnspacedFile(), displayId, forceSdr, cleaned);
    UnspacedReads();
    FirstIsNotGiven();
    assert |NEEDED| == 6;
  }

  lemma {:induction false} UnspacedReads()
    ensures ReadsReady(UnspacedFile())
  {
    hide UnspacedFile, Fold, Lookup, SameText, IsBlank, GivenLater, Has, Without;
    assert |NEEDED| == 6;
    forall k | 0 <= k < 6 ensures ReadsNeeded(UnspacedFile(), k) {
      UnspacedLookup(k);
      assert SameText(NEEDED[k].1, NEEDED[k].1) by { SameAsItself(NEEDED[k].1); }
    }
    UnspacedLookup(6);
    OneIsTrimmed();
  }

  lemma {:induction false} SameAsItself(s: string)
    ensures SameText(s, s)
  {
  }

  lemma {:induction false} FirstIsNotGiven()
    ensures !Given(UnspacedFile(), 0)
  {
    hide UnspacedFile, KeyOf, Fold, Spells, PlainName, Trimmed, Unspaced;
    var lines, name, value := UnspacedFile(), NEEDED[0].0, NEEDED[0].1;
    assert name == NameAt(0) && value == ValueAt(0);
    PartsArePlain(0);
    SpellsKey(name, value);
    UnspacedIsNotSpelled(name, value);
    UnspacedAt(0);
    forall i | 0 <= i < |lines| ensures !Spells(name, value)(lines[i]) {
      if i > 0 {
        UnspacedKey(i);
        NamesDiffer(0, i);
      }
    }
  }
}
