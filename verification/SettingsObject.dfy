/** The settings as the client keeps them, in one structure that saving and reading update
    field by field. */
module SettingsObject {
  import opened HostText
  import opened Numerals
  import opened ConfigNumbers
  import opened ClientSettings
  import opened SettingsRoundTrip
  import Profiles = SettingsProfiles

  class Configuration {
    var version: int
    var general: General
    var stream: Stream
    var picture: Picture
    var input: Input
    var dead: Deadzone
    var special: Special
    var keyDir: string
    var tilt: Tilt
    const floats: Floats

    constructor (c: Config)
      ensures State() == c
    {
      version, general, stream, picture := c.version, c.general, c.stream, c.picture;
      input, dead, special, keyDir := c.input, c.dead, c.special, c.keyDir;
      tilt, floats := c.tilt, c.floats;
    }

    function State(): Config
      reads this
    {
      Config(version, general, stream, picture, input, dead, special, keyDir, tilt, floats)
    }

    // config_sanitize
    method Sanitize()
      modifies this
      ensures State() == Sanitized(old(State())) && Sane(State())
    {
      hide Axis, Sane;
      SanitizedIsSane(State());
      SanitizeStream();
      if picture.overlay < 0 || picture.overlay > 3 { picture := picture.(overlay := 0); }
      SanitizeInput();
      var left, right := SanitizeAxis(dead.left, dead.right, TOUCH_WIDTH);
      dead := dead.(left := left, right := right);
      var top, bottom := SanitizeAxis(dead.top, dead.bottom, TOUCH_HEIGHT);
      dead := dead.(top := top, bottom := bottom);
      special := special.(offset := Clamp(special.offset, 0, TOUCH_HEIGHT - 1));
      special := special.(size := Clamp(special.size, 1, TOUCH_HEIGHT - special.offset));
      if !SaneScalar(tilt.x) { tilt := tilt.(x := SCALAR_X); }
      if !SaneScalar(tilt.y) { tilt := tilt.(y := SCALAR_Y); }
    }

    method SanitizeStream()
      modifies this`stream
      ensures stream == SaneStream(old(stream))
    {
      if stream.width < 64 || stream.width > 1920 || stream.height < 64 || stream.height > 1080 {
        stream := stream.(width := 960);
        stream := stream.(height := 544);
      }
      if stream.fps < 24 || stream.fps > 60 { stream := stream.(fps := 60); }
      if stream.bitrate != -1 && (stream.bitrate < 1000 || stream.bitrate > 30000) { stream := stream.(bitrate := -1); }
      if stream.packetSize < 512 || stream.packetSize > 1400 { stream := stream.(packetSize := 1024); }
      if stream.remotely < LOCAL || stream.remotely > AUTO { stream := stream.(remotely := AUTO); }
    }

    method SanitizeInput()
      modifies this`input
      ensures input == SaneInput(old(input))
    {
      SanitizeModes();
      if input.mouse < 15 || input.mouse > 300 { input := input.(mouse := 150); }
      if input.sprintTime < 50 || input.sprintTime > 1000 { input := input.(sprintTime := 200); }
    }

    method SanitizeModes()
      modifies this`input
      ensures var i := old(input);
              input == i.(controller := if i.controller != 1 && i.controller != 2 then 1 else i.controller,
                          touchscreen := if i.touchscreen < 0 || i.touchscreen > 3 then 0 else i.touchscreen,
                          psButton := if i.psButton < 0 || i.psButton >= 4 then 0 else i.psButton)
    {
      if input.controller != 1 && input.controller != 2 { input := input.(controller := 1); }
      if input.touchscreen < 0 || input.touchscreen > 3 { input := input.(touchscreen := 0); }
      if input.psButton < 0 || input.psButton >= 4 { input := input.(psButton := 0); }
    }

    // config_apply_stream_preset
    method ApplyPreset(preset: Profiles.Preset)
      modifies this
      ensures State() == Profiles.PresetApplied(old(State()), preset)
      ensures !preset.Custom? ==> Profiles.PresetOf(State()) == preset
    {
      if !preset.Custom? { Profiles.PresetIsDetected(State(), preset); }
      stream := stream.(width := 960);
      stream := stream.(height := 544);
      stream := stream.(packetSize := 1024);
      stream := stream.(remotely := if preset.Remote? then REMOTE else AUTO);
      general := general.(sops := true, localAudio := false);
      picture := picture.(refInvalidation := true, framePacer := true, vblankWait := false, centerOnly := false,
                          powersaveOff := true);
      match preset {
        case Reliable => stream := stream.(fps := 30, bitrate := 5000);
        case Quality => stream := stream.(fps := 60, bitrate := 12000);
        case Remote => stream := stream.(fps := 30, bitrate := 4000);
        case _ => stream := stream.(fps := 60, bitrate := 8000);
      }
    }

    // config_apply_controller_profile
    method ApplyProfile(profile: Profiles.Profile)
      modifies this
      ensures State() == Profiles.ProfileApplied(old(State()), profile)
      ensures !profile.CustomProfile? ==> Profiles.ProfileOf(State()) == profile
    {
      if !profile.CustomProfile? { Profiles.ProfileIsDetected(State(), profile); }
      general := general.(mapping := None);
      input := input.(swapShoulders := false, sprint := false);
      if profile.Steam? {
        input := input.(controller := 2, motion := true, touchscreen := 1, psButton := 1);
      } else {
        input := input.(controller := 1, motion := false, touchscreen := 0, psButton := 0);
      }
    }

    // config_save, with the file it could open
    method Save() returns (file: seq<Entry>)
      modifies this
      ensures State() == Sanitized(old(State())) && file == Saved(old(State()))
    {
      hide Sanitized, Sane, SignedDecimal, BoolText, UpperHex;
      Sanitize();
      file := [Int(Version, VERSION)];
      if general.address.Some? { file := file + [Text(Address, general.address.value)]; }
      if general.mapping.Some? { file := file + [Text(Mapping, general.mapping.value)]; }
      assert file == Head(State());
      var part := SaveStream();
      file := file + part;
      part := SaveGeneral();
      file := file + part + PicturePart(State()) + OverlayPart(State()) + RoutePart(State())
        + ButtonPart(input) + TiltPart(tilt, floats) + ControllerPart(input);
      file := file + MarginPart(dead) + CodePart(special) + ZonePart(special);
    }

    method SaveStream() returns (file: seq<Entry>)
      ensures file == StreamPart(stream)
    {
      hide SignedDecimal;
      file := [];
      if stream.width != 960 { file := file + [Int(Width, stream.width)]; }
      if stream.height != 544 { file := file + [Int(Height, stream.height)]; }
      if stream.fps != 60 { file := file + [Int(Fps, stream.fps)]; }
      if stream.bitrate != -1 { file := file + [Int(Bitrate, stream.bitrate)]; }
      if stream.packetSize != 1024 { file := file + [Int(PacketSize, stream.packetSize)]; }
    }

    method SaveGeneral() returns (file: seq<Entry>)
      ensures file == GeneralPart(State())
    {
      hide BoolText;
      file := [];
      if !general.sops { file := file + [Bool(Sops, general.sops)]; }
      if general.localAudio { file := file + [Bool(LocalAudio, general.localAudio)]; }
      if general.app.Some? && general.app.value != "Steam" { file := file + [Text(App, general.app.value)]; }
      file := file + [Text(KeyDir, keyDir)];
    }

    // ini_handle
    method Handle(e: Entry)
      modifies this
      ensures State() == Handled(old(State()), e)
    {
      hide Strtol16, HandledDeadzone, HandledRoot;
      match e.section {
        case BackDeadzone => HandleDeadzone(e.key, e.value);
        case SpecialKeys => special := HandledSpecial(special, e.key, e.value);
        case _ => HandleRoot(e.key, e.value);
      }
    }

    method HandleDeadzone(key: Key, value: string)
      modifies this
      ensures State() == HandledDeadzone(old(State()), key, value)
    {
      hide Atoi, ReadBool;
      match key {
        case Top => dead := dead.(top := Atoi(value));
        case Right => dead := dead.(right := Atoi(value));
        case Bottom => dead := dead.(bottom := Atoi(value));
        case Left => dead := dead.(left := Atoi(value));
        case ControllerType => input := input.(controller := Atoi(value));
        case SwapShoulders => input := input.(swapShoulders := ReadBool(value));
        case KeyDir => keyDir := if |value| > 4095 then value[..4095] else value;
        case _ =>
      }
    }

    method HandleRoot(key: Key, value: string)
      modifies this
      ensures State() == HandledRoot(old(State()), key, value)
    {
      hide Atoi, OfGeneral, OfStream, OfPicture, OfTilt, HandledGeneral, HandledStream, HandledPicture, HandledTilt,
           HandledInput;
      if key == Version {
        version := Atoi(value);
      } else if OfGeneral(key) {
        general := HandledGeneral(general, key, value);
      } else if OfStream(key) {
        stream := HandledStream(stream, key, value);
      } else if OfPicture(key) {
        picture := HandledPicture(picture, key, value);
      } else if OfTilt(key) {
        tilt := HandledTilt(tilt, key, floats.parse(value));
      } else {
        input := HandledInput(input, key, value);
      }
    }

    // config_parse over a file that is there; the file it writes back, if it does
    method Parse(file: seq<Entry>, cache: string) returns (rewritten: Option<seq<Entry>>)
      modifies this
      ensures State() == Parsed(old(State()), file, cache)
      ensures rewritten == Rewritten(old(State()), file)
    {
      hide Handled, Sanitized, Sane, Migrated, Defaults, Saved;
      SetDefaults();
      ghost var d := State();
      var n := 0;
      while n < |file|
        invariant n <= |file| && State() == ReadUpTo(d, file, n)
      {
        Handle(file[n]);
        n := n + 1;
      }
      ReadToEnd(d, file);
      MigrateOverlay();
      Sanitize();
      rewritten := Migrate();
      if keyDir == "" { keyDir := cache; }
      if stream.bitrate == -1 { stream := stream.(bitrate := Recommended(stream.height, stream.fps)); }
    }

    method SetDefaults()
      modifies this
      ensures State() == Defaults(old(State()))
    {
      version := 0;
      general := General(None, None, Some("Steam"), true, false, false);
      stream := Stream(960, 544, 60, -1, 1024, AUTO);
      picture := Picture(true, false, true, true, false, false, 0);
      input := Input(false, 150, false, 0, false, 200, 0, 0, input.swapShoulders, 1);
      special := special.(nw := PAUSE_CODE, sw := GUIDE_CODE, offset := 0, size := 150);
      tilt := Tilt(SCALAR_X, SCALAR_Y);
    }

    method MigrateOverlay()
      modifies this`picture
      ensures State() == OverlayMigrated(old(State()))
    {
      if picture.showFps && picture.overlay == 0 {
        picture := picture.(overlay := 1);
        picture := picture.(showFps := false);
      }
    }

    // The part of config_parse for settings of an older version.
    method Migrate() returns (rewritten: Option<seq<Entry>>)
      requires Sane(State())
      modifies this
      ensures State() == Migrated(old(State()))
      ensures rewritten == if old(version) < VERSION then Some(Saved(Migrated(old(State())))) else None
    {
      hide Sane, Sanitized, Saved, RouteMigrated, MotionMigrated, BitrateMigrated;
      MigratedIsSane(State());
      rewritten := None;
      if version < VERSION {
        MigrateRoute();
        MigrateMotion();
        MigrateBitrate();
        version := VERSION;
        var file := Save();
        rewritten := Some(file);
      }
    }

    method MigrateRoute()
      modifies this`stream
      ensures State() == RouteMigrated(old(State()))
    {
      hide PresetBase;
      if stream.remotely == LOCAL && PresetBase(State())
         && ((stream.fps == 30 && stream.bitrate == 5000) || (stream.fps == 60 && stream.bitrate == 8000)
             || (stream.fps == 60 && stream.bitrate == 12000))
      {
        stream := stream.(remotely := AUTO);
      }
    }

    method MigrateMotion()
      modifies this`input
      ensures State() == MotionMigrated(old(State()))
    {
      if input.controller == 1 && input.touchscreen == 0 && input.psButton == 0 && !input.swapShoulders
         && general.mapping == None && !input.sprint
      {
        input := input.(motion := false);
      }
    }

    method MigrateBitrate()
      modifies this`stream
      ensures State() == BitrateMigrated(old(State()))
    {
      if version < 2 && stream.width <= 960 && stream.height <= 544 && 0 < stream.bitrate <= 5000 {
        stream := stream.(bitrate := 8000);
      }
    }
  }

  // Saving valid, storable settings and reading them into a structure in any state gives
  // them back.
  method SaveAndRead(c: Configuration, other: Configuration, cache: string)
    requires c != other && c.floats == other.floats && c.version == VERSION && Storable(Sanitized(c.State()))
    modifies c, other
    ensures other.State() == c.State().(keyDir := if old(other.keyDir) == "" then cache else old(other.keyDir))
  {
    hide Sanitized, Saved, Parsed, Storable, Sane;
    SanitizedIsSane(c.State());
    ghost var was := c.State();
    ghost var before := other.State();
    var file := c.Save();
    SavedTwice(was);
    var rewritten := other.Parse(file, cache);
    assert c.State() == Sanitized(was);
    SavedSettingsComeBack(before, Sanitized(was), cache);
  }
}
