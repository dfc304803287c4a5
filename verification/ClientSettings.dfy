/** The client's settings: making them valid, saving them and reading them back. A
    settings file is the list of entries that the ini parser delivers. */
module ClientSettings {
  import opened HostText
  import opened Numerals
  import opened ConfigNumbers

  const VERSION: int := 5
  const TOUCH_WIDTH: int := 960
  const TOUCH_HEIGHT: int := 544

  // STREAM_CFG_LOCAL, STREAM_CFG_REMOTE and STREAM_CFG_AUTO
  const LOCAL: int := 0
  const REMOTE: int := 1
  const AUTO: int := 2

  datatype Stream = Stream(width: int, height: int, fps: int, bitrate: int, packetSize: int, remotely: int)

  datatype Picture = Picture(framePacer: bool, centerOnly: bool, powersaveOff: bool, refInvalidation: bool,
                             vblankWait: bool, showFps: bool, overlay: int)

  datatype Input = Input(frontZones: bool, mouse: int, motion: bool, psButton: int, sprint: bool, sprintTime: int,
                         keyboard: int, touchscreen: int, swapShoulders: bool, controller: int)

  datatype General = General(address: Option<string>, mapping: Option<string>, app: Option<string>,
                             sops: bool, localAudio: bool, jpLayout: bool)

  datatype Deadzone = Deadzone(top: int, right: int, bottom: int, left: int)

  datatype Special = Special(nw: nat, ne: nat, sw: nat, se: nat, offset: int, size: int)

  // A float: not a number, or what it stands for.
  datatype Scalar = Nan | Number(value: real)

  datatype Tilt = Tilt(x: Scalar, y: Scalar)

  // How the C library prints a float with %f and reads one with atof, rounding included.
  datatype Floats = Floats(show: Scalar -> string, parse: string -> Scalar)

  // keyDir is written to the file but is not read back from where it is written. floats is
  // no setting; it says what the C library does.
  datatype Config = Config(version: int, general: General, stream: Stream, picture: Picture, input: Input,
                           dead: Deadzone, special: Special, keyDir: string, tilt: Tilt, floats: Floats)

  // ----- making settings valid -----

  function Clamp(value: int, minimum: int, maximum: int): int {
    if value < minimum then minimum else if value > maximum then maximum else value
  }

  // sanitize_deadzone_axis
  method SanitizeAxis(leading: int, trailing: int, extent: int) returns (l: int, t: int)
    requires extent > 0
    ensures (l, t) == Axis(leading, trailing, extent)
  {
    l := Clamp(leading, 0, extent - 1);
    t := Clamp(trailing, 0, extent - 1);
    var total := l + t;
    if total >= extent {
      var margin := extent - 1;
      var scaled := (l * margin) / total;
      assert scaled == Share(l, margin, total);
      l := scaled;
      t := margin - scaled;
    }
  }

  function Axis(leading: int, trailing: int, extent: int): (int, int)
    requires extent > 0
  {
    var l, t := Clamp(leading, 0, extent - 1), Clamp(trailing, 0, extent - 1);
    if l + t >= extent then (Share(l, extent - 1, l + t), extent - 1 - Share(l, extent - 1, l + t)) else (l, t)
  }

  function Share(part: int, whole: int, total: int): int
    requires total > 0
  {
    (part * whole) / total
  }

  // A share is the proportional one, rounded down.
  predicate IsShare(share: int, part: int, whole: int, total: int) {
    total * share <= part * whole < total * share + total
  }

  // At least one pixel stays usable, and margins that leave one are kept. Of margins that
  // do not, the leading one keeps its share to less than a pixel.
  lemma {:induction false} AxisLeavesRoom(leading: int, trailing: int, extent: int)
    requires extent > 0
    ensures var (l, t) := Axis(leading, trailing, extent);
            && 0 <= l && 0 <= t && l + t < extent
            && (0 <= leading && 0 <= trailing && leading + trailing < extent ==> (l, t) == (leading, trailing))
    ensures var (l, t) := Axis(leading, trailing, extent);
            var a, b := Clamp(leading, 0, extent - 1), Clamp(trailing, 0, extent - 1);
            a + b >= extent ==> l + t == extent - 1 && IsShare(l, a, extent - 1, a + b)
  {
    hide Share, IsShare;
    var a, b := Clamp(leading, 0, extent - 1), Clamp(trailing, 0, extent - 1);
    if a + b >= extent { ShareFits(a, extent - 1, a + b); }
  }

  lemma {:induction false} ShareFits(part: int, whole: int, total: int)
    requires 0 <= part <= total && 0 <= whole && 0 < total
    ensures IsShare(Share(part, whole, total), part, whole, total) && 0 <= Share(part, whole, total) <= whole
  {
    Scale(part, total, whole);
    Quotient(part * whole, total, whole);
  }

  lemma {:induction false} Quotient(a: int, b: int, bound: int)
    requires 0 <= a <= b * bound && b > 0
    ensures b * (a / b) <= a < b * (a / b) + b && 0 <= a / b <= bound
  {
    if a / b > bound { Scale(bound + 1, a / b, b); }
  }

  lemma {:induction false} Scale(a: int, b: int, k: int)
    requires a <= b && k >= 0
    ensures a * k <= b * k
  {
  }

  function SaneStream(s: Stream): Stream {
    var odd := s.width < 64 || s.width > 1920 || s.height < 64 || s.height > 1080;
    Stream(
      if odd then 960 else s.width,
      if odd then 544 else s.height,
      if s.fps < 24 || s.fps > 60 then 60 else s.fps,
      if s.bitrate != -1 && (s.bitrate < 1000 || s.bitrate > 30000) then -1 else s.bitrate,
      if s.packetSize < 512 || s.packetSize > 1400 then 1024 else s.packetSize,
      if s.remotely < LOCAL || s.remotely > AUTO then AUTO else s.remotely)
  }

  function SanePicture(p: Picture): Picture {
    if p.overlay < 0 || p.overlay > 3 then p.(overlay := 0) else p
  }

  function SaneInput(i: Input): Input {
    i.(controller := if i.controller != 1 && i.controller != 2 then 1 else i.controller,
       touchscreen := if i.touchscreen < 0 || i.touchscreen > 3 then 0 else i.touchscreen,
       psButton := if i.psButton < 0 || i.psButton >= 4 then 0 else i.psButton,
       mouse := if i.mouse < 15 || i.mouse > 300 then 150 else i.mouse,
       sprintTime := if i.sprintTime < 50 || i.sprintTime > 1000 then 200 else i.sprintTime)
  }

  function SaneDead(d: Deadzone): Deadzone {
    var (left, right) := Axis(d.left, d.right, TOUCH_WIDTH);
    var (top, bottom) := Axis(d.top, d.bottom, TOUCH_HEIGHT);
    Deadzone(top, right, bottom, left)
  }

  function SaneSpecial(s: Special): Special {
    var offset := Clamp(s.offset, 0, TOUCH_HEIGHT - 1);
    s.(offset := offset, size := Clamp(s.size, 1, TOUCH_HEIGHT - offset))
  }

  // 0.1f, 5.0f, 1.2f and 0.8f
  const LEAST_SCALAR: real := 13421773.0 / 134217728.0
  const GREATEST_SCALAR: real := 5.0
  const SCALAR_X: Scalar := Number(10066330.0 / 8388608.0)
  const SCALAR_Y: Scalar := Number(13421773.0 / 16777216.0)

  predicate SaneScalar(s: Scalar) {
    s.Number? && LEAST_SCALAR <= s.value <= GREATEST_SCALAR
  }

  function SaneTilt(t: Tilt): Tilt {
    Tilt(if SaneScalar(t.x) then t.x else SCALAR_X, if SaneScalar(t.y) then t.y else SCALAR_Y)
  }

  // config_sanitize
  function Sanitized(c: Config): Config {
    c.(stream := SaneStream(c.stream), picture := SanePicture(c.picture), input := SaneInput(c.input),
       dead := SaneDead(c.dead), special := SaneSpecial(c.special), tilt := SaneTilt(c.tilt))
  }

  predicate Sane(c: Config) {
    && 64 <= c.stream.width <= 1920 && 64 <= c.stream.height <= 1080
    && 24 <= c.stream.fps <= 60 && (c.stream.bitrate == -1 || 1000 <= c.stream.bitrate <= 30000)
    && 512 <= c.stream.packetSize <= 1400 && LOCAL <= c.stream.remotely <= AUTO
    && 0 <= c.picture.overlay <= 3
    && (c.input.controller == 1 || c.input.controller == 2)
    && 0 <= c.input.touchscreen <= 3 && 0 <= c.input.psButton < 4
    && 15 <= c.input.mouse <= 300 && 50 <= c.input.sprintTime <= 1000
    && SaneMargins(c.dead) && SaneScalar(c.tilt.x) && SaneScalar(c.tilt.y)
    && 0 <= c.special.offset && 1 <= c.special.size && c.special.offset + c.special.size <= TOUCH_HEIGHT
  }

  // The margins leave some of the touch area, and so does every special zone.
  predicate SaneMargins(d: Deadzone) {
    && 0 <= d.left && 0 <= d.right && d.left + d.right < TOUCH_WIDTH
    && 0 <= d.top && 0 <= d.bottom && d.top + d.bottom < TOUCH_HEIGHT
  }

  // Sanitizing makes any settings valid, and leaves exactly the valid ones as they are.
  lemma {:induction false} SanitizedIsSane(c: Config)
    ensures Sane(Sanitized(c)) && (Sane(c) <==> Sanitized(c) == c)
  {
    AxisLeavesRoom(c.dead.left, c.dead.right, TOUCH_WIDTH);
    AxisLeavesRoom(c.dead.top, c.dead.bottom, TOUCH_HEIGHT);
    hide Axis;
  }

  // ----- the file -----

  datatype Section = Root | BackDeadzone | SpecialKeys | OtherSection

  datatype Key =
    | Version | Address | Mapping | App | KeyDir | Sops | LocalAudio | JpLayout
    | Width | Height | Fps | Bitrate | PacketSize | Remotely
    | FramePacer | CenterOnly | PowersaveOff | RefInvalidation | VblankWait | ShowFps | Overlay
    | FrontZones | Mouse | Motion | PsButton | PsCapture | Sprint | SprintTime | ScalarX | ScalarY
    | Keyboard | Touchscreen | SwapShoulders | ControllerType
    | Top | Right | Bottom | Left | Nw | Ne | Sw | Se | Offset | Size | OtherKey

  datatype Entry = Entry(section: Section, key: Key, value: string)

  // ini_handle
  function Handled(c: Config, e: Entry): Config {
    match e.section
    case BackDeadzone => HandledDeadzone(c, e.key, e.value)
    case SpecialKeys => c.(special := HandledSpecial(c.special, e.key, e.value))
    case _ => HandledRoot(c, e.key, e.value)
  }

  predicate OfGeneral(key: Key) {
    key in {Address, Mapping, App, Sops, LocalAudio, JpLayout}
  }

  predicate OfStream(key: Key) {
    key in {Width, Height, Fps, Bitrate, PacketSize, Remotely}
  }

  predicate OfPicture(key: Key) {
    key in {FramePacer, CenterOnly, PowersaveOff, RefInvalidation, VblankWait, ShowFps, Overlay}
  }

  predicate OfTilt(key: Key) {
    key == ScalarX || key == ScalarY
  }

  function HandledRoot(c: Config, key: Key, value: string): Config {
    if key == Version then c.(version := Atoi(value))
    else if OfGeneral(key) then c.(general := HandledGeneral(c.general, key, value))
    else if OfStream(key) then c.(stream := HandledStream(c.stream, key, value))
    else if OfPicture(key) then c.(picture := HandledPicture(c.picture, key, value))
    else if OfTilt(key) then c.(tilt := HandledTilt(c.tilt, key, c.floats.parse(value)))
    else c.(input := HandledInput(c.input, key, value))
  }

  function HandledDeadzone(c: Config, key: Key, value: string): Config {
    match key
    case Top => c.(dead := c.dead.(top := Atoi(value)))
    case Right => c.(dead := c.dead.(right := Atoi(value)))
    case Bottom => c.(dead := c.dead.(bottom := Atoi(value)))
    case Left => c.(dead := c.dead.(left := Atoi(value)))
    case ControllerType => c.(input := c.input.(controller := Atoi(value)))
    case SwapShoulders => c.(input := c.input.(swapShoulders := ReadBool(value)))
    case KeyDir => c.(keyDir := if |value| > 4095 then value[..4095] else value)
    case _ => c
  }

  function HandledSpecial(s: Special, key: Key, value: string): Special {
    match key
    case Nw => s.(nw := Strtol16(value))
    case Ne => s.(ne := Strtol16(value))
    case Sw => s.(sw := Strtol16(value))
    case Se => s.(se := Strtol16(value))
    case Offset => s.(offset := Atoi(value))
    case Size => s.(size := Atoi(value))
    case _ => s
  }

  function HandledGeneral(g: General, key: Key, value: string): General {
    match key
    case Address => g.(address := Some(value))
    case Mapping => g.(mapping := Some(value))
    case App => g.(app := Some(value))
    case Sops => g.(sops := ReadBool(value))
    case LocalAudio => g.(localAudio := ReadBool(value))
    case JpLayout => g.(jpLayout := ReadBool(value))
    case _ => g
  }

  function HandledStream(s: Stream, key: Key, value: string): Stream {
    match key
    case Width => s.(width := Atoi(value))
    case Height => s.(height := Atoi(value))
    case Fps => s.(fps := Atoi(value))
    case Bitrate => s.(bitrate := Atoi(value))
    case PacketSize => s.(packetSize := Atoi(value))
    case Remotely => s.(remotely := Atoi(value))
    case _ => s
  }

  function HandledPicture(p: Picture, key: Key, value: string): Picture {
    match key
    case FramePacer => p.(framePacer := ReadBool(value))
    case CenterOnly => p.(centerOnly := ReadBool(value))
    case PowersaveOff => p.(powersaveOff := ReadBool(value))
    case RefInvalidation => p.(refInvalidation := ReadBool(value))
    case VblankWait => p.(vblankWait := ReadBool(value))
    case ShowFps => p.(showFps := ReadBool(value))
    case Overlay => p.(overlay := Atoi(value))
    case _ => p
  }

  function HandledInput(i: Input, key: Key, value: string): Input {
    match key
    case FrontZones => i.(frontZones := ReadBool(value))
    case Mouse => i.(mouse := Atoi(value))
    case Motion => i.(motion := ReadBool(value))
    case PsButton => i.(psButton := Atoi(value))
    case PsCapture => i.(psButton := if ReadBool(value) then 0 else 3)
    case Sprint => i.(sprint := ReadBool(value))
    case SprintTime => i.(sprintTime := Atoi(value) % U32)
    case Keyboard => i.(keyboard := Atoi(value))
    case Touchscreen => i.(touchscreen := Atoi(value))
    case SwapShoulders => i.(swapShoulders := ReadBool(value))
    case ControllerType => i.(controller := Atoi(value))
    case _ => i
  }

  function HandledTilt(t: Tilt, key: Key, value: Scalar): Tilt {
    match key
    case ScalarX => t.(x := value)
    case ScalarY => t.(y := value)
    case _ => t
  }

  function HandledAll(c: Config, file: seq<Entry>): Config
    decreases |file|
  {
    if file == [] then c else HandledAll(Handled(c, file[0]), file[1..])
  }

  function Text(key: Key, value: string): Entry { Entry(Root, key, value) }

  function Int(key: Key, value: int): Entry { Entry(Root, key, SignedDecimal(value)) }

  function Bool(key: Key, value: bool): Entry { Entry(Root, key, BoolText(value)) }

  // An entry that is left out when it says what the default says.
  function Unless(elided: bool, e: Entry): seq<Entry> {
    if elided then [] else [e]
  }

  function Head(c: Config): seq<Entry> {
    [Int(Version, VERSION)]
    + (if c.general.address.Some? then [Text(Address, c.general.address.value)] else [])
    + (if c.general.mapping.Some? then [Text(Mapping, c.general.mapping.value)] else [])
  }

  function StreamPart(s: Stream): seq<Entry> {
    Unless(s.width == 960, Int(Width, s.width)) + Unless(s.height == 544, Int(Height, s.height))
    + Unless(s.fps == 60, Int(Fps, s.fps)) + Unless(s.bitrate == -1, Int(Bitrate, s.bitrate))
    + Unless(s.packetSize == 1024, Int(PacketSize, s.packetSize))
  }

  function GeneralPart(c: Config): seq<Entry> {
    Unless(c.general.sops, Bool(Sops, c.general.sops))
    + Unless(!c.general.localAudio, Bool(LocalAudio, c.general.localAudio))
    + (if c.general.app.Some? then Unless(c.general.app.value == "Steam", Text(App, c.general.app.value)) else [])
    + [Text(KeyDir, c.keyDir)]
  }

  function PicturePart(c: Config): seq<Entry> {
    [Bool(FramePacer, c.picture.framePacer), Bool(CenterOnly, c.picture.centerOnly),
     Bool(PowersaveOff, c.picture.powersaveOff), Bool(JpLayout, c.general.jpLayout)]
  }

  function OverlayPart(c: Config): seq<Entry> {
    [Bool(ShowFps, c.picture.showFps), Int(Overlay, c.picture.overlay),
     Bool(FrontZones, c.input.frontZones), Int(Mouse, c.input.mouse)]
  }

  function RoutePart(c: Config): seq<Entry> {
    [Bool(RefInvalidation, c.picture.refInvalidation), Int(Remotely, c.stream.remotely),
     Bool(VblankWait, c.picture.vblankWait), Bool(Motion, c.input.motion)]
  }

  function ButtonPart(i: Input): seq<Entry> {
    [Int(PsButton, i.psButton), Bool(Sprint, i.sprint), Int(SprintTime, i.sprintTime)]
  }

  function TiltPart(t: Tilt, floats: Floats): seq<Entry> {
    [Text(ScalarX, floats.show(t.x)), Text(ScalarY, floats.show(t.y))]
  }

  function ControllerPart(i: Input): seq<Entry> {
    [Int(Keyboard, i.keyboard), Int(Touchscreen, i.touchscreen), Bool(SwapShoulders, i.swapShoulders),
     Int(ControllerType, i.controller)]
  }

  function Margin(key: Key, value: int): Entry { Entry(BackDeadzone, key, SignedDecimal(value)) }

  function MarginPart(d: Deadzone): seq<Entry> {
    [Margin(Top, d.top), Margin(Right, d.right), Margin(Bottom, d.bottom), Margin(Left, d.left)]
  }

  function CodeEntry(key: Key, value: nat): Entry { Entry(SpecialKeys, key, UpperHex(value)) }

  function CodePart(s: Special): seq<Entry> {
    [CodeEntry(Nw, s.nw), CodeEntry(Ne, s.ne), CodeEntry(Sw, s.sw), CodeEntry(Se, s.se)]
  }

  function ZonePart(s: Special): seq<Entry> {
    [Entry(SpecialKeys, Offset, SignedDecimal(s.offset)), Entry(SpecialKeys, Size, SignedDecimal(s.size))]
  }

  // What config_save writes.
  function Saved(c: Config): seq<Entry> {
    var s := Sanitized(c);
    Head(s) + StreamPart(s.stream) + GeneralPart(s) + PicturePart(s) + OverlayPart(s) + RoutePart(s)
    + ButtonPart(s.input) + TiltPart(s.tilt, s.floats) + ControllerPart(s.input)
    + MarginPart(s.dead) + CodePart(s.special) + ZonePart(s.special)
  }

  // ----- reading -----

  // INPUT_SPECIAL_KEY_PAUSE | INPUT_TYPE_SPECIAL and SPECIAL_FLAG | INPUT_TYPE_GAMEPAD.
  // SPECIAL_FLAG is 0x400 in Limelight.h, which is not part of this model.
  const PAUSE_CODE: nat := 0x10_0000
  const GUIDE_CODE: nat := 0x30_0400

  // What config_parse starts from; it leaves the margins, the right-hand special keys,
  // swapped shoulders and the key directory as they were.
  function Defaults(before: Config): Config {
    Config(0, General(None, None, Some("Steam"), true, false, false), Stream(960, 544, 60, -1, 1024, AUTO),
           Picture(true, false, true, true, false, false, 0),
           Input(false, 150, false, 0, false, 200, 0, 0, before.input.swapShoulders, 1),
           before.dead, before.special.(nw := PAUSE_CODE, sw := GUIDE_CODE, offset := 0, size := 150),
           before.keyDir, Tilt(SCALAR_X, SCALAR_Y), before.floats)
  }

  function OverlayMigrated(c: Config): Config {
    if c.picture.showFps && c.picture.overlay == 0 then c.(picture := c.picture.(overlay := 1, showFps := false)) else c
  }

  // config_recommended_bitrate
  function Recommended(height: int, fps: int): int {
    if height <= 544 then (if fps >= 60 then 8000 else 5000)
    else if height <= 720 then (if fps >= 60 then 10000 else 6000)
    else if height < 1080 then (if fps >= 60 then 12000 else 8000)
    else if fps >= 60 then 16000 else 10000
  }

  // The part of stream_preset_base_matches that settings can change.
  predicate PresetBase(c: Config) {
    && c.stream.width == 960 && c.stream.height == 544 && c.stream.packetSize == 1024
    && c.general.sops && !c.general.localAudio && c.picture.refInvalidation && c.picture.framePacer
    && !c.picture.vblankWait && !c.picture.centerOnly && c.picture.powersaveOff
  }

  function RouteMigrated(c: Config): Config {
    if c.stream.remotely == LOCAL && PresetBase(c)
       && ((c.stream.fps == 30 && c.stream.bitrate == 5000)
           || (c.stream.fps == 60 && (c.stream.bitrate == 8000 || c.stream.bitrate == 12000)))
    then c.(stream := c.stream.(remotely := AUTO)) else c
  }

  function MotionMigrated(c: Config): Config {
    if c.input.controller == 1 && c.input.touchscreen == 0 && c.input.psButton == 0 && !c.input.swapShoulders
       && c.general.mapping == None && !c.input.sprint
    then c.(input := c.input.(motion := false)) else c
  }

  function BitrateMigrated(c: Config): Config {
    if c.version < 2 && c.stream.width <= 960 && c.stream.height <= 544 && 0 < c.stream.bitrate <= 5000
    then c.(stream := c.stream.(bitrate := 8000)) else c
  }

  function Migrated(c: Config): Config {
    if c.version < VERSION then BitrateMigrated(MotionMigrated(RouteMigrated(c))).(version := VERSION) else c
  }

  function BitrateChosen(c: Config): Config {
    if c.stream.bitrate == -1 then c.(stream := c.stream.(bitrate := Recommended(c.stream.height, c.stream.fps))) else c
  }

  // cache is the directory that the environment suggests.
  function KeyDirChosen(c: Config, cache: string): Config {
    if c.keyDir == "" then c.(keyDir := cache) else c
  }

  // What config_parse makes of a file that is there, before it migrates.
  function Read(before: Config, file: seq<Entry>): Config {
    Sanitized(OverlayMigrated(HandledAll(Defaults(before), file)))
  }

  // config_parse over a file that is there
  function Parsed(before: Config, file: seq<Entry>, cache: string): Config {
    BitrateChosen(KeyDirChosen(Migrated(Read(before, file)), cache))
  }

  // What config_parse writes: settings of an older version once they are migrated.
  function Rewritten(before: Config, file: seq<Entry>): Option<seq<Entry>> {
    if Read(before, file).version < VERSION then Some(Saved(Migrated(Read(before, file)))) else None
  }

  lemma {:induction false} MigratedIsSane(c: Config)
    requires Sane(c)
    ensures Sane(Migrated(c)) && Sanitized(Migrated(c)) == Migrated(c) && Migrated(c).version >= VERSION
  {
    hide Sanitized, PresetBase, SaneMargins, SaneScalar;
    SanitizedIsSane(Migrated(c));
  }

  // Whatever the file says, the settings read are valid, of the current version or a
  // newer one, and name a bit rate.
  lemma {:induction false} ParsedIsSane(before: Config, file: seq<Entry>, cache: string)
    ensures var c := Parsed(before, file, cache);
            Sane(c) && c.version >= VERSION && c.stream.bitrate != -1 && (cache != "" ==> c.keyDir != "")
  {
    hide Sanitized, HandledAll, Migrated, SaneMargins, SaneScalar;
    var handled := OverlayMigrated(HandledAll(Defaults(before), file));
    hide Defaults, OverlayMigrated;
    SanitizedIsSane(handled);
    MigratedIsSane(Sanitized(handled));
  }
}
