/** What sanitizing and migrating old settings promise, measured by the defaults and by the
    built-in stream presets and controller profiles. */
module SettingsProfiles {
  import opened HostText
  import opened Numerals
  import opened ConfigNumbers
  import opened ClientSettings

  // ----- built-in profiles -----

  datatype Preset = Reliable | Recommended | Quality | Remote | Custom

  // The part of stream_preset_base_matches that settings can change, as it is applied.
  function BaseApplied(c: Config, remotely: int): Config {
    c.(stream := c.stream.(width := 960, height := 544, packetSize := 1024, remotely := remotely),
       general := c.general.(sops := true, localAudio := false),
       picture := c.picture.(refInvalidation := true, framePacer := true, vblankWait := false, centerOnly := false,
                             powersaveOff := true))
  }

  function Rated(c: Config, fps: int, bitrate: int): Config {
    c.(stream := c.stream.(fps := fps, bitrate := bitrate))
  }

  // config_apply_stream_preset; anything but a preset is taken for the recommended one
  function PresetApplied(c: Config, preset: Preset): Config {
    match preset
    case Reliable => Rated(BaseApplied(c, AUTO), 30, 5000)
    case Quality => Rated(BaseApplied(c, AUTO), 60, 12000)
    case Remote => Rated(BaseApplied(c, REMOTE), 30, 4000)
    case _ => Rated(BaseApplied(c, AUTO), 60, 8000)
  }

  // config_detect_stream_preset
  function PresetOf(c: Config): Preset {
    var s := c.stream;
    if !PresetBase(c) then Custom
    else if s.fps == 30 && s.bitrate == 5000 && s.remotely == AUTO then Reliable
    else if s.fps == 60 && s.bitrate == 8000 && s.remotely == AUTO then Preset.Recommended
    else if s.fps == 60 && s.bitrate == 12000 && s.remotely == AUTO then Quality
    else if s.fps == 30 && s.bitrate == 4000 && s.remotely == REMOTE then Remote
    else Custom
  }

  datatype Profile = Compatibility | Steam | CustomProfile

  // config_apply_controller_profile
  function ProfileApplied(c: Config, profile: Profile): Config {
    var steam := profile.Steam?;
    c.(general := c.general.(mapping := None),
       input := c.input.(swapShoulders := false, sprint := false, controller := if steam then 2 else 1,
                         motion := steam, touchscreen := if steam then 1 else 0, psButton := if steam then 1 else 0))
  }

  // config_detect_controller_profile
  function ProfileOf(c: Config): Profile {
    var i := c.input;
    var common := !i.swapShoulders && c.general.mapping == None && !i.sprint;
    if common && i.controller == 1 && !i.motion && i.touchscreen == 0 && i.psButton == 0 then Compatibility
    else if common && i.controller == 2 && i.motion && i.touchscreen == 1 && i.psButton == 1 then Steam
    else CustomProfile
  }

  // A preset is detected exactly when applying it would change nothing; so it is after it
  // has been applied.
  lemma {:induction false} PresetIsDetected(c: Config, preset: Preset)
    requires !preset.Custom?
    ensures PresetOf(c) == preset <==> PresetApplied(c, preset) == c
    ensures PresetOf(PresetApplied(c, preset)) == preset
  {
    PresetIsOne(c, preset);
    PresetAppliedTwice(c, preset);
    PresetIsOne(PresetApplied(c, preset), preset);
    hide *;
  }

  lemma {:induction false} PresetAppliedTwice(c: Config, preset: Preset)
    ensures PresetApplied(PresetApplied(c, preset), preset) == PresetApplied(c, preset)
  {
  }

  lemma {:induction false} PresetIsOne(c: Config, preset: Preset)
    requires !preset.Custom?
    ensures PresetOf(c) == preset <==> PresetApplied(c, preset) == c
  {
    BaseIsApplied(c, if preset.Remote? then REMOTE else AUTO);
    hide PresetBase, BaseApplied;
    BaseIsAppliedFirst(c, if preset.Remote? then REMOTE else AUTO);
  }

  lemma {:induction false} BaseIsApplied(c: Config, remotely: int)
    ensures BaseApplied(c, remotely) == c <==> PresetBase(c) && c.stream.remotely == remotely
  {
  }

  // Applying a rate does not undo the base.
  lemma {:induction false} BaseIsAppliedFirst(c: Config, remotely: int)
    ensures forall fps, bitrate ::
              Rated(BaseApplied(c, remotely), fps, bitrate) == c <==>
              BaseApplied(c, remotely) == c && c.stream.fps == fps && c.stream.bitrate == bitrate
  {
  }

  lemma {:induction false} ProfileIsDetected(c: Config, profile: Profile)
    requires !profile.CustomProfile?
    ensures ProfileOf(c) == profile <==> ProfileApplied(c, profile) == c
    ensures ProfileOf(ProfileApplied(c, profile)) == profile
  {
  }

  // ----- sanitizing -----

  // A field that is valid stays, one that is not gets the value of a missing entry; a size
  // counts as one field.
  predicate Settles(valid: bool, before: int, after: int, default: int) {
    after == if valid then before else default
  }

  // A number from the float nearest to 0.1, to 5.
  predicate FromATenthToFive(s: Scalar) {
    s.Number? && 13421773.0 / 134217728.0 <= s.value <= 5.0
  }

  // Sanitizing keeps every valid setting, whatever stands beside it, and gives an invalid one
  // the value that it has when the file does not name it.
  lemma {:induction false} SanitizedKeepsOrResets(c: Config, before: Config)
    ensures var s, a, d := c.stream, Sanitized(c).stream, Defaults(before).stream;
            var sized := 64 <= s.width <= 1920 && 64 <= s.height <= 1080;
            && Settles(sized, s.width, a.width, d.width) && Settles(sized, s.height, a.height, d.height)
            && Settles(24 <= s.fps <= 60, s.fps, a.fps, d.fps)
            && Settles(s.bitrate == -1 || 1000 <= s.bitrate <= 30000, s.bitrate, a.bitrate, d.bitrate)
            && Settles(512 <= s.packetSize <= 1400, s.packetSize, a.packetSize, d.packetSize)
            && Settles(s.remotely in {LOCAL, REMOTE, AUTO}, s.remotely, a.remotely, d.remotely)
    ensures var i, a, d := c.input, Sanitized(c).input, Defaults(before).input;
            && Settles(i.controller in {1, 2}, i.controller, a.controller, d.controller)
            && Settles(i.touchscreen in {0, 1, 2, 3}, i.touchscreen, a.touchscreen, d.touchscreen)
            && Settles(i.psButton in {0, 1, 2, 3}, i.psButton, a.psButton, d.psButton)
            && Settles(15 <= i.mouse <= 300, i.mouse, a.mouse, d.mouse)
            && Settles(50 <= i.sprintTime <= 1000, i.sprintTime, a.sprintTime, d.sprintTime)
            && a == i.(controller := a.controller, touchscreen := a.touchscreen, psButton := a.psButton,
                       mouse := a.mouse, sprintTime := a.sprintTime)
    ensures var a, d := Sanitized(c), Defaults(before);
            && Settles(c.picture.overlay in {0, 1, 2, 3}, c.picture.overlay, a.picture.overlay, d.picture.overlay)
            && a.picture == c.picture.(overlay := a.picture.overlay)
            && a.tilt.x == (if FromATenthToFive(c.tilt.x) then c.tilt.x else d.tilt.x)
            && a.tilt.y == (if FromATenthToFive(c.tilt.y) then c.tilt.y else d.tilt.y)
            && a.general == c.general && a.version == c.version && a.keyDir == c.keyDir
  {
    hide SaneDead, SaneSpecial;
  }

  // The special zones: the offset and then the size go to the nearest value that leaves the
  // zone on the touch area.
  lemma {:induction false} ZonesGoToTheNearest(c: Config, offset: int, size: int)
    requires 0 <= offset < TOUCH_HEIGHT && 1 <= size <= TOUCH_HEIGHT - Sanitized(c).special.offset
    ensures var z, a := c.special, Sanitized(c).special;
            && Distance(z.offset, a.offset) <= Distance(z.offset, offset)
            && Distance(z.size, a.size) <= Distance(z.size, size)
            && a == z.(offset := a.offset, size := a.size)
  {
    hide SaneDead, SaneTilt, SanePicture, SaneStream, SaneInput;
  }

  function Distance(a: int, b: int): int { if a < b then b - a else a - b }

  // ----- migration -----

  // The old version of a built-in preset: the same, but with the local route.
  ghost predicate OldPreset(c: Config) {
    c.stream.remotely == LOCAL &&
    var now := c.(stream := c.stream.(remotely := AUTO));
    || PresetApplied(now, Reliable) == now
    || PresetApplied(now, Preset.Recommended) == now
    || PresetApplied(now, Quality) == now
  }

  // The compatible controller profile, with motion controls or without.
  ghost predicate OldProfile(c: Config) {
    var now := c.(input := c.input.(motion := false));
    ProfileApplied(now, Compatibility) == now
  }

  // Only settings of an older version change, and of them no more than three: the route of an
  // old preset, which is that preset afterwards; motion controls of the compatible profile,
  // which go off; and a low bit rate chosen before version 2, which becomes the recommended
  // one.
  lemma {:induction false} MigrationChangesOldProfiles(c: Config)
    ensures c.version >= 5 ==> Migrated(c) == c
    ensures c.version < 5 ==>
              var m := Migrated(c);
              && m.stream.remotely == (if OldPreset(c) then AUTO else c.stream.remotely)
              && m.input.motion == (c.input.motion && !OldProfile(c))
              && m.stream.bitrate ==
                 (if c.version < 2 && c.stream.width <= 960 && c.stream.height <= 544 && 0 < c.stream.bitrate <= 5000
                  then PresetApplied(c, Preset.Recommended).stream.bitrate else c.stream.bitrate)
              && m == c.(version := 5,
                         stream := c.stream.(remotely := m.stream.remotely, bitrate := m.stream.bitrate),
                         input := c.input.(motion := m.input.motion))
  {
    if c.version < 5 {
      OldPresetMigrates(c);
      OldProfileMigrates(RouteMigrated(c));
      assert OldProfile(RouteMigrated(c)) == OldProfile(c) by { RouteKeepsProfile(c); }
      hide PresetBase, OldPreset, OldProfile, RouteMigrated, MotionMigrated;
    }
  }

  lemma {:induction false} RouteKeepsProfile(c: Config)
    ensures OldProfile(RouteMigrated(c)) == OldProfile(c)
  {
    hide PresetBase;
  }

  lemma {:induction false} OldPresetMigrates(c: Config)
    ensures RouteMigrated(c) == c.(stream := c.stream.(remotely := if OldPreset(c) then AUTO else c.stream.remotely))
  {
    OldPresetIs(c);
    hide PresetBase, OldPreset;
  }

  lemma {:induction false} OldProfileMigrates(c: Config)
    ensures MotionMigrated(c) == c.(input := c.input.(motion := c.input.motion && !OldProfile(c)))
  {
  }

  lemma {:induction false} OldPresetIs(c: Config)
    ensures OldPreset(c) <==>
            c.stream.remotely == LOCAL && PresetBase(c)
            && ((c.stream.fps == 30 && c.stream.bitrate == 5000)
                || (c.stream.fps == 60 && (c.stream.bitrate == 8000 || c.stream.bitrate == 12000)))
  {
    var now := c.(stream := c.stream.(remotely := AUTO));
    BaseIsApplied(now, AUTO);
    BaseIsAppliedFirst(now, AUTO);
    assert PresetBase(now) == PresetBase(c);
    hide PresetBase, BaseApplied;
  }

  // ----- the bit rate that is recommended -----

  // More lines or more frames never make it smaller, it is a valid one, and at the Vita's own
  // size it is that of the built-in presets.
  lemma {:induction false} RecommendedGrows(c: Config, height: int, fps: int, h: int, f: int)
    ensures height <= h && fps <= f ==> ClientSettings.Recommended(height, fps) <= ClientSettings.Recommended(h, f)
    ensures 1000 <= ClientSettings.Recommended(height, fps) <= 30000
    ensures forall p | p == Reliable || p == Preset.Recommended ::
              var s := PresetApplied(c, p).stream; ClientSettings.Recommended(s.height, s.fps) == s.bitrate
  {
  }

  // ----- a new installation -----

  // A file that sets nothing gives the recommended preset and, unless the shoulder buttons were
  // swapped before, the compatible controller profile.
  lemma {:induction false} EmptyFileIsRecommended(before: Config, cache: string)
    ensures var c := Parsed(before, [], cache);
            && c.version == 5 && PresetOf(c) == Preset.Recommended && c == PresetApplied(c, Preset.Recommended)
            && (!before.input.swapShoulders ==> ProfileOf(c) == Compatibility && c == ProfileApplied(c, Compatibility))
  {
    var c := Parsed(before, [], cache);
    assert HandledAll(Defaults(before), []) == Defaults(before);
    hide SaneMargins, SaneScalar;
    PresetIsDetected(c, Preset.Recommended);
    ProfileIsDetected(c, Compatibility);
  }

  // ----- entries of old files -----

  // The old switch for capturing the PS button, and entries that older versions wrote behind
  // the touch margins, are still understood.
  lemma {:induction false} OldEntriesAreRead(c: Config, captured: bool, swapped: bool, controller: int)
    ensures Handled(c, Entry(Root, PsCapture, BoolText(captured))).input.psButton == (if captured then 0 else 3)
    ensures Handled(c, Entry(BackDeadzone, SwapShoulders, BoolText(swapped))).input.swapShoulders == swapped
    ensures Handled(c, Entry(BackDeadzone, ControllerType, SignedDecimal(controller))).input.controller == controller
  {
    IntReadsBack(controller);
    BoolReadsBack(captured);
    BoolReadsBack(swapped);
    hide Atoi, SignedDecimal, BoolText, ReadBool;
  }
}
