/** Settings that are saved and read back. */
module SettingsRoundTrip {
  import opened HostText
  import opened Numerals
  import opened ConfigNumbers
  import opened ClientSettings

  // ----- reading entry by entry -----

  lemma {:induction false} ReadConcat(s: Config, a: seq<Entry>, b: seq<Entry>)
    ensures HandledAll(s, a + b) == HandledAll(HandledAll(s, a), b)
    decreases |a|
  {
    hide Handled;
    if a == [] {
      assert a + b == b;
    } else {
      ReadConcat(Handled(s, a[0]), a[1..], b);
      assert (a + b)[1..] == a[1..] + b;
    }
  }

  // The settings after the first n entries.
  function ReadUpTo(s: Config, file: seq<Entry>, n: nat): Config
    requires n <= |file|
  {
    if n == 0 then s else Handled(ReadUpTo(s, file, n - 1), file[n - 1])
  }

  lemma {:induction false} ReadAll(s: Config, file: seq<Entry>, n: nat)
    requires n <= |file|
    ensures HandledAll(ReadUpTo(s, file, n), file[n..]) == HandledAll(s, file)
  {
    hide Handled;
    if n == 0 {
      assert file[0..] == file;
    } else {
      ReadAll(s, file, n - 1);
      assert file[n - 1..][1..] == file[n..];
    }
  }

  lemma {:induction false} ReadToEnd(s: Config, file: seq<Entry>)
    ensures HandledAll(s, file) == ReadUpTo(s, file, |file|)
  {
    ReadAll(s, file, |file|);
    assert file[|file|..] == [];
    hide ReadUpTo;
  }

  lemma {:induction false} ReadUnless(s: Config, elided: bool, e: Entry)
    ensures HandledAll(s, Unless(elided, e)) == if elided then s else Handled(s, e)
  {
    hide Handled;
    if !elided { assert [e][1..] == []; }
  }

  // ----- the parts of the file -----

  // An entry before the first section changes one group of settings.
  lemma {:induction false} RootIsRead(s: Config, key: Key, value: string)
    ensures Handled(s, Text(key, value)) == HandledRoot(s, key, value)
  {
    hide HandledRoot, HandledDeadzone, HandledSpecial;
  }

  lemma {:induction false} GeneralGroup(s: Config, key: Key, value: string)
    requires OfGeneral(key)
    ensures Handled(s, Text(key, value)) == s.(general := HandledGeneral(s.general, key, value))
  {
    hide Handled, Text, HandledGeneral;
    RootIsRead(s, key, value);
  }

  lemma {:induction false} StreamGroup(s: Config, key: Key, value: string)
    requires OfStream(key)
    ensures Handled(s, Text(key, value)) == s.(stream := HandledStream(s.stream, key, value))
  {
    hide Handled, Text, HandledStream;
    RootIsRead(s, key, value);
  }

  lemma {:induction false} PictureGroup(s: Config, key: Key, value: string)
    requires OfPicture(key)
    ensures Handled(s, Text(key, value)) == s.(picture := HandledPicture(s.picture, key, value))
  {
    hide Handled, Text, HandledPicture;
    RootIsRead(s, key, value);
  }

  lemma {:induction false} InputGroup(s: Config, key: Key, value: string)
    requires key != Version && !OfGeneral(key) && !OfStream(key) && !OfPicture(key) && !OfTilt(key)
    ensures Handled(s, Text(key, value)) == s.(input := HandledInput(s.input, key, value))
  {
    hide Handled, Text, HandledInput;
    RootIsRead(s, key, value);
  }

  // How far the stream settings have been read: those before one are the saved ones, the
  // others the default.
  lemma {:induction false} StreamIsRead(s: Config, t: Stream)
    requires s.stream == Stream(960, 544, 60, -1, 1024, s.stream.remotely)
    ensures HandledAll(s, StreamPart(t)) == s.(stream := t.(remotely := s.stream.remotely))
  {
    var a, b, c := Unless(t.width == 960, Int(Width, t.width)), Unless(t.height == 544, Int(Height, t.height)),
      Unless(t.fps == 60, Int(Fps, t.fps));
    var d, e := Unless(t.bitrate == -1, Int(Bitrate, t.bitrate)),
      Unless(t.packetSize == 1024, Int(PacketSize, t.packetSize));
    var s1 := s.(stream := s.stream.(width := t.width));
    var s2 := s1.(stream := s1.stream.(height := t.height));
    var s3 := s2.(stream := s2.stream.(fps := t.fps));
    var s4 := s3.(stream := s3.stream.(bitrate := t.bitrate));
    StreamEntryIsRead(s, Width, t.width);
    StreamEntryIsRead(s1, Height, t.height);
    StreamEntryIsRead(s2, Fps, t.fps);
    StreamEntryIsRead(s3, Bitrate, t.bitrate);
    StreamEntryIsRead(s4, PacketSize, t.packetSize);
    hide Handled, HandledAll, Unless;
    ReadUnless(s, t.width == 960, Int(Width, t.width));
    ReadUnless(s1, t.height == 544, Int(Height, t.height));
    ReadUnless(s2, t.fps == 60, Int(Fps, t.fps));
    ReadUnless(s3, t.bitrate == -1, Int(Bitrate, t.bitrate));
    ReadUnless(s4, t.packetSize == 1024, Int(PacketSize, t.packetSize));
    ReadConcat(s, a + b + c + d, e);
    ReadConcat(s, a + b + c, d);
    ReadConcat(s, a + b, c);
    ReadConcat(s, a, b);
  }

  lemma {:induction false} StreamEntryIsRead(s: Config, key: Key, value: int)
    ensures key == Width ==> Handled(s, Int(key, value)) == s.(stream := s.stream.(width := value))
    ensures key == Height ==> Handled(s, Int(key, value)) == s.(stream := s.stream.(height := value))
    ensures key == Fps ==> Handled(s, Int(key, value)) == s.(stream := s.stream.(fps := value))
    ensures key == Bitrate ==> Handled(s, Int(key, value)) == s.(stream := s.stream.(bitrate := value))
    ensures key == PacketSize ==> Handled(s, Int(key, value)) == s.(stream := s.stream.(packetSize := value))
  {
    hide Atoi, SignedDecimal, Handled;
    if key in {Width, Height, Fps, Bitrate, PacketSize} { StreamGroup(s, key, SignedDecimal(value)); }
    IntReadsBack(value);
  }

  lemma {:induction false} HeadIsRead(s: Config, c: Config)
    requires s.general.address == None && s.general.mapping == None
    ensures HandledAll(s, Head(c)) ==
            s.(version := VERSION, general := s.general.(address := c.general.address, mapping := c.general.mapping))
  {
    hide Atoi, SignedDecimal, HandledDeadzone, HandledSpecial, HandledStream, HandledPicture, HandledInput, HandledTilt;
    IntReadsBack(VERSION);
    ReadToEnd(s, Head(c));
    var f := Head(c);
    var s1 := s.(version := VERSION);
    assert ReadUpTo(s, f, 0) == s;
    assert ReadUpTo(s, f, 1) == s1;
    if |f| > 1 { assert ReadUpTo(s, f, 2) == Handled(s1, f[1]); }
  }

  lemma {:induction false} GeneralEntryIsRead(s: Config, b: bool, text: string)
    ensures Handled(s, Bool(Sops, b)) == s.(general := s.general.(sops := b))
    ensures Handled(s, Bool(LocalAudio, b)) == s.(general := s.general.(localAudio := b))
    ensures Handled(s, Text(App, text)) == s.(general := s.general.(app := Some(text)))
    ensures Handled(s, Text(KeyDir, text)) == s
  {
    hide BoolText, ReadBool, Handled;
    GeneralGroup(s, Sops, BoolText(b));
    GeneralGroup(s, LocalAudio, BoolText(b));
    GeneralGroup(s, App, text);
    InputGroup(s, KeyDir, text);
    BoolReadsBack(b);
  }

  lemma {:induction false} GeneralIsRead(s: Config, c: Config)
    requires s.general.app == Some("Steam") && s.general.sops && !s.general.localAudio
    ensures HandledAll(s, GeneralPart(c)) ==
            s.(general := s.general.(app := if c.general.app == None then Some("Steam") else c.general.app,
                                     sops := c.general.sops, localAudio := c.general.localAudio))
  {
    hide HandledAll, Handled, Unless, Bool, Text;
    var g := c.general;
    var a, b := Unless(g.sops, Bool(Sops, g.sops)), Unless(!g.localAudio, Bool(LocalAudio, g.localAudio));
    var d := if g.app.Some? then Unless(g.app.value == "Steam", Text(App, g.app.value)) else [];
    var e := Text(KeyDir, c.keyDir);
    var s1 := s.(general := s.general.(sops := g.sops));
    var s2 := s1.(general := s1.general.(localAudio := g.localAudio));
    var s3 := s2.(general := s2.general.(app := if g.app == None then Some("Steam") else g.app));
    GeneralEntryIsRead(s, g.sops, "");
    GeneralEntryIsRead(s1, g.localAudio, "");
    if g.app.Some? { GeneralEntryIsRead(s2, false, g.app.value); }
    GeneralEntryIsRead(s3, false, c.keyDir);
    ReadUnless(s, g.sops, Bool(Sops, g.sops));
    ReadUnless(s1, !g.localAudio, Bool(LocalAudio, g.localAudio));
    if g.app.Some? { ReadUnless(s2, g.app.value == "Steam", Text(App, g.app.value)); } else { ReadNothing(s2); }
    ReadOne(s3, e);
    ReadConcat(s, a + b + d, [e]);
    ReadConcat(s, a + b, d);
    ReadConcat(s, a, b);
  }

  lemma {:induction false} ReadNothing(s: Config)
    ensures HandledAll(s, []) == s
  {
  }

  lemma {:induction false} ReadOne(s: Config, e: Entry)
    ensures HandledAll(s, [e]) == Handled(s, e)
  {
    hide Handled;
    assert [e][1..] == [];
  }

  lemma {:induction false} ReadCons(s: Config, e: Entry, rest: seq<Entry>)
    ensures HandledAll(s, [e] + rest) == HandledAll(Handled(s, e), rest)
  {
    hide Handled;
    assert ([e] + rest)[1..] == rest;
  }

  lemma {:induction false} ReadFour(s: Config, a: Entry, b: Entry, c: Entry, d: Entry)
    ensures HandledAll(s, [a, b, c, d]) == Handled(Handled(Handled(Handled(s, a), b), c), d)
  {
    hide Handled, HandledAll;
    ReadCons(s, a, [b, c, d]);
    ReadThree(Handled(s, a), b, c, d);
    assert [a] + [b, c, d] == [a, b, c, d];
  }

  lemma {:induction false} ReadThree(s: Config, a: Entry, b: Entry, c: Entry)
    ensures HandledAll(s, [a, b, c]) == Handled(Handled(Handled(s, a), b), c)
  {
    hide Handled, HandledAll;
    ReadCons(s, a, [b, c]);
    ReadTwo(Handled(s, a), b, c);
    assert [a] + [b, c] == [a, b, c];
  }

  lemma {:induction false} ReadTwo(s: Config, a: Entry, b: Entry)
    ensures HandledAll(s, [a, b]) == Handled(Handled(s, a), b)
  {
    hide Handled, HandledAll;
    ReadCons(s, a, [b]);
    ReadUnless(Handled(s, a), false, b);
    assert [a] + [b] == [a, b];
  }

  lemma {:induction false} PictureFlagIsRead(s: Config, key: Key, b: bool)
    ensures key == FramePacer ==> Handled(s, Bool(key, b)) == s.(picture := s.picture.(framePacer := b))
    ensures key == CenterOnly ==> Handled(s, Bool(key, b)) == s.(picture := s.picture.(centerOnly := b))
    ensures key == PowersaveOff ==> Handled(s, Bool(key, b)) == s.(picture := s.picture.(powersaveOff := b))
  {
    hide BoolText, ReadBool, Handled;
    if key in {FramePacer, CenterOnly, PowersaveOff} { PictureGroup(s, key, BoolText(b)); }
    BoolReadsBack(b);
  }

  lemma {:induction false} RouteFlagIsRead(s: Config, key: Key, b: bool)
    ensures key == RefInvalidation ==> Handled(s, Bool(key, b)) == s.(picture := s.picture.(refInvalidation := b))
    ensures key == VblankWait ==> Handled(s, Bool(key, b)) == s.(picture := s.picture.(vblankWait := b))
    ensures key == ShowFps ==> Handled(s, Bool(key, b)) == s.(picture := s.picture.(showFps := b))
    ensures key == JpLayout ==> Handled(s, Bool(key, b)) == s.(general := s.general.(jpLayout := b))
  {
    hide BoolText, ReadBool, Handled;
    if key in {RefInvalidation, VblankWait, ShowFps} { PictureGroup(s, key, BoolText(b)); }
    GeneralGroup(s, JpLayout, BoolText(b));
    BoolReadsBack(b);
  }

  lemma {:induction false} InputFlagIsRead(s: Config, key: Key, b: bool)
    ensures key == FrontZones ==> Handled(s, Bool(key, b)) == s.(input := s.input.(frontZones := b))
    ensures key == Motion ==> Handled(s, Bool(key, b)) == s.(input := s.input.(motion := b))
    ensures key == Sprint ==> Handled(s, Bool(key, b)) == s.(input := s.input.(sprint := b))
    ensures key == SwapShoulders ==> Handled(s, Bool(key, b)) == s.(input := s.input.(swapShoulders := b))
  {
    hide BoolText, ReadBool, Handled;
    if key in {FrontZones, Motion, Sprint, SwapShoulders} { InputGroup(s, key, BoolText(b)); }
    BoolReadsBack(b);
  }

  lemma {:induction false} OverlayNumberIsRead(s: Config, n: int)
    ensures Handled(s, Int(Overlay, n)) == s.(picture := s.picture.(overlay := n))
  {
    hide Atoi, SignedDecimal, Handled;
    PictureGroup(s, Overlay, SignedDecimal(n));
    IntReadsBack(n);
  }

  lemma {:induction false} RouteNumberIsRead(s: Config, n: int)
    ensures Handled(s, Int(Remotely, n)) == s.(stream := s.stream.(remotely := n))
  {
    hide Atoi, SignedDecimal, Handled;
    StreamGroup(s, Remotely, SignedDecimal(n));
    IntReadsBack(n);
  }

  lemma {:induction false} InputNumberIsRead(s: Config, n: int)
    ensures Handled(s, Int(Mouse, n)) == s.(input := s.input.(mouse := n))
    ensures Handled(s, Int(PsButton, n)) == s.(input := s.input.(psButton := n))
  {
    hide Atoi, SignedDecimal, Handled;
    InputGroup(s, Mouse, SignedDecimal(n));
    InputGroup(s, PsButton, SignedDecimal(n));
    IntReadsBack(n);
  }

  lemma {:induction false} ControllerNumberIsRead(s: Config, key: Key, n: int)
    ensures key == Keyboard ==> Handled(s, Int(key, n)) == s.(input := s.input.(keyboard := n))
    ensures key == Touchscreen ==> Handled(s, Int(key, n)) == s.(input := s.input.(touchscreen := n))
    ensures key == ControllerType ==> Handled(s, Int(key, n)) == s.(input := s.input.(controller := n))
    ensures key == SprintTime && 0 <= n < U32 ==> Handled(s, Int(key, n)) == s.(input := s.input.(sprintTime := n))
  {
    hide Atoi, SignedDecimal, Handled;
    if key in {Keyboard, Touchscreen, ControllerType, SprintTime} { InputGroup(s, key, SignedDecimal(n)); }
    IntReadsBack(n);
  }

  lemma {:induction false} MarginIsRead(s: Config, key: Key, n: int)
    ensures key == Top ==> Handled(s, Margin(key, n)) == s.(dead := s.dead.(top := n))
    ensures key == Right ==> Handled(s, Margin(key, n)) == s.(dead := s.dead.(right := n))
    ensures key == Bottom ==> Handled(s, Margin(key, n)) == s.(dead := s.dead.(bottom := n))
    ensures key == Left ==> Handled(s, Margin(key, n)) == s.(dead := s.dead.(left := n))
  {
    hide Atoi, SignedDecimal, HandledSpecial, HandledRoot;
    IntReadsBack(n);
  }

  lemma {:induction false} PictureIsRead(s: Config, c: Config)
    ensures HandledAll(s, PicturePart(c)) ==
            s.(picture := s.picture.(framePacer := c.picture.framePacer, centerOnly := c.picture.centerOnly,
                                     powersaveOff := c.picture.powersaveOff),
               general := s.general.(jpLayout := c.general.jpLayout))
  {
    hide Handled, HandledAll, Bool, Int;
    var p := c.picture;
    PictureFlagIsRead(s, FramePacer, p.framePacer);
    var s1 := s.(picture := s.picture.(framePacer := p.framePacer));
    PictureFlagIsRead(s1, CenterOnly, p.centerOnly);
    var s2 := s1.(picture := s1.picture.(centerOnly := p.centerOnly));
    PictureFlagIsRead(s2, PowersaveOff, p.powersaveOff);
    var s3 := s2.(picture := s2.picture.(powersaveOff := p.powersaveOff));
    RouteFlagIsRead(s3, JpLayout, c.general.jpLayout);
    ReadFour(s, Bool(FramePacer, p.framePacer), Bool(CenterOnly, p.centerOnly),
             Bool(PowersaveOff, p.powersaveOff), Bool(JpLayout, c.general.jpLayout));
  }

  lemma {:induction false} OverlayIsRead(s: Config, c: Config)
    ensures HandledAll(s, OverlayPart(c)) ==
            s.(picture := s.picture.(showFps := c.picture.showFps, overlay := c.picture.overlay),
               input := s.input.(frontZones := c.input.frontZones, mouse := c.input.mouse))
  {
    hide Handled, HandledAll, Bool, Int;
    var p, i := c.picture, c.input;
    RouteFlagIsRead(s, ShowFps, p.showFps);
    var s1 := s.(picture := s.picture.(showFps := p.showFps));
    OverlayNumberIsRead(s1, p.overlay);
    var s2 := s1.(picture := s1.picture.(overlay := p.overlay));
    InputFlagIsRead(s2, FrontZones, i.frontZones);
    var s3 := s2.(input := s2.input.(frontZones := i.frontZones));
    InputNumberIsRead(s3, i.mouse);
    ReadFour(s, Bool(ShowFps, p.showFps), Int(Overlay, p.overlay), Bool(FrontZones, i.frontZones), Int(Mouse, i.mouse));
  }

  lemma {:induction false} RouteIsRead(s: Config, c: Config)
    ensures HandledAll(s, RoutePart(c)) ==
            s.(picture := s.picture.(refInvalidation := c.picture.refInvalidation, vblankWait := c.picture.vblankWait),
               stream := s.stream.(remotely := c.stream.remotely),
               input := s.input.(motion := c.input.motion))
  {
    hide Handled, HandledAll, Bool, Int;
    var p := c.picture;
    RouteFlagIsRead(s, RefInvalidation, p.refInvalidation);
    var s1 := s.(picture := s.picture.(refInvalidation := p.refInvalidation));
    RouteNumberIsRead(s1, c.stream.remotely);
    var s2 := s1.(stream := s1.stream.(remotely := c.stream.remotely));
    RouteFlagIsRead(s2, VblankWait, p.vblankWait);
    var s3 := s2.(picture := s2.picture.(vblankWait := p.vblankWait));
    InputFlagIsRead(s3, Motion, c.input.motion);
    ReadFour(s, Bool(RefInvalidation, p.refInvalidation), Int(Remotely, c.stream.remotely),
             Bool(VblankWait, p.vblankWait), Bool(Motion, c.input.motion));
  }

  lemma {:induction false} ButtonsAreRead(s: Config, i: Input)
    requires 0 <= i.sprintTime < U32
    ensures HandledAll(s, ButtonPart(i)) ==
            s.(input := s.input.(psButton := i.psButton, sprint := i.sprint, sprintTime := i.sprintTime))
  {
    hide Handled, HandledAll, Bool, Int;
    InputNumberIsRead(s, i.psButton);
    var s1 := s.(input := s.input.(psButton := i.psButton));
    InputFlagIsRead(s1, Sprint, i.sprint);
    var s2 := s1.(input := s1.input.(sprint := i.sprint));
    ControllerNumberIsRead(s2, SprintTime, i.sprintTime);
    ReadThree(s, Int(PsButton, i.psButton), Bool(Sprint, i.sprint), Int(SprintTime, i.sprintTime));
  }

  // A scalar as it is read back.
  function Shown(floats: Floats, value: Scalar): Scalar { floats.parse(floats.show(value)) }

  lemma {:induction false} ScalarIsRead(s: Config, text: string)
    ensures Handled(s, Text(ScalarX, text)) == s.(tilt := s.tilt.(x := s.floats.parse(text)))
    ensures Handled(s, Text(ScalarY, text)) == s.(tilt := s.tilt.(y := s.floats.parse(text)))
  {
    hide Handled;
    RootIsRead(s, ScalarX, text);
    RootIsRead(s, ScalarY, text);
  }

  lemma {:induction false} TiltIsRead(s: Config, t: Tilt, floats: Floats)
    requires s.floats == floats
    ensures HandledAll(s, TiltPart(t, floats)) == s.(tilt := Tilt(Shown(floats, t.x), Shown(floats, t.y)))
  {
    hide Handled, HandledAll, Text;
    ScalarIsRead(s, floats.show(t.x));
    var s1 := s.(tilt := s.tilt.(x := Shown(floats, t.x)));
    ScalarIsRead(s1, floats.show(t.y));
    ReadTwo(s, Text(ScalarX, floats.show(t.x)), Text(ScalarY, floats.show(t.y)));
  }

  lemma {:induction false} ControllerIsRead(s: Config, i: Input)
    ensures HandledAll(s, ControllerPart(i)) ==
            s.(input := s.input.(keyboard := i.keyboard, touchscreen := i.touchscreen, swapShoulders := i.swapShoulders,
                                 controller := i.controller))
  {
    hide Handled, HandledAll, Bool, Int;
    ControllerNumberIsRead(s, Keyboard, i.keyboard);
    var s0 := s.(input := s.input.(keyboard := i.keyboard));
    ControllerNumberIsRead(s0, Touchscreen, i.touchscreen);
    var s1 := s0.(input := s0.input.(touchscreen := i.touchscreen));
    InputFlagIsRead(s1, SwapShoulders, i.swapShoulders);
    var s2 := s1.(input := s1.input.(swapShoulders := i.swapShoulders));
    ControllerNumberIsRead(s2, ControllerType, i.controller);
    ReadFour(s, Int(Keyboard, i.keyboard), Int(Touchscreen, i.touchscreen), Bool(SwapShoulders, i.swapShoulders),
             Int(ControllerType, i.controller));
  }

  lemma {:induction false} MarginsAreRead(s: Config, d: Deadzone)
    ensures HandledAll(s, MarginPart(d)) == s.(dead := d)
  {
    hide Handled, HandledAll, Margin;
    MarginIsRead(s, Top, d.top);
    var s1 := s.(dead := s.dead.(top := d.top));
    MarginIsRead(s1, Right, d.right);
    var s2 := s1.(dead := s1.dead.(right := d.right));
    MarginIsRead(s2, Bottom, d.bottom);
    MarginIsRead(s2.(dead := s2.dead.(bottom := d.bottom)), Left, d.left);
    ReadFour(s, Margin(Top, d.top), Margin(Right, d.right), Margin(Bottom, d.bottom), Margin(Left, d.left));
  }

  // A key code as it is read back.
  function Code(n: nat): nat { Strtol16(UpperHex(n)) }

  lemma {:induction false} CodeIsRead(s: Config, key: Key, n: nat)
    ensures key == Nw ==> Handled(s, CodeEntry(key, n)) == s.(special := s.special.(nw := Code(n)))
    ensures key == Ne ==> Handled(s, CodeEntry(key, n)) == s.(special := s.special.(ne := Code(n)))
    ensures key == Sw ==> Handled(s, CodeEntry(key, n)) == s.(special := s.special.(sw := Code(n)))
    ensures key == Se ==> Handled(s, CodeEntry(key, n)) == s.(special := s.special.(se := Code(n)))
  {
    hide Strtol16, UpperHex, HandledDeadzone, HandledRoot;
    assert Handled(s, CodeEntry(key, n)) == s.(special := HandledSpecial(s.special, key, UpperHex(n)));
  }

  lemma {:induction false} CodesAreRead(s: Config, z: Special)
    ensures HandledAll(s, CodePart(z)) ==
            s.(special := s.special.(nw := Code(z.nw), ne := Code(z.ne), sw := Code(z.sw), se := Code(z.se)))
  {
    hide Handled, HandledAll, CodeEntry, Code;
    CodeIsRead(s, Nw, z.nw);
    var s1 := s.(special := s.special.(nw := Code(z.nw)));
    CodeIsRead(s1, Ne, z.ne);
    var s2 := s1.(special := s1.special.(ne := Code(z.ne)));
    CodeIsRead(s2, Sw, z.sw);
    CodeIsRead(s2.(special := s2.special.(sw := Code(z.sw))), Se, z.se);
    ReadFour(s, CodeEntry(Nw, z.nw), CodeEntry(Ne, z.ne), CodeEntry(Sw, z.sw), CodeEntry(Se, z.se));
  }

  lemma {:induction false} ZoneEntryIsRead(s: Config, n: int)
    ensures Handled(s, Entry(SpecialKeys, Offset, SignedDecimal(n))) == s.(special := s.special.(offset := n))
    ensures Handled(s, Entry(SpecialKeys, Size, SignedDecimal(n))) == s.(special := s.special.(size := n))
  {
    hide Atoi, SignedDecimal, HandledDeadzone, HandledRoot;
    IntReadsBack(n);
  }

  lemma {:induction false} ZoneIsRead(s: Config, z: Special)
    ensures HandledAll(s, ZonePart(z)) == s.(special := s.special.(offset := z.offset, size := z.size))
  {
    hide Handled, HandledAll, SignedDecimal;
    ZoneEntryIsRead(s, z.offset);
    ZoneEntryIsRead(s.(special := s.special.(offset := z.offset)), z.size);
    ReadTwo(s, Entry(SpecialKeys, Offset, SignedDecimal(z.offset)), Entry(SpecialKeys, Size, SignedDecimal(z.size)));
  }

  // ----- the whole file -----

  // The settings as the file gives them.
  function ReadBack(before: Config, c: Config): Config {
    var z := c.special;
    c.(version := VERSION,
       general := c.general.(app := if c.general.app == None then Some("Steam") else c.general.app),
       special := Special(Code(z.nw), Code(z.ne), Code(z.sw), Code(z.se), z.offset, z.size),
       keyDir := before.keyDir, tilt := Tilt(Shown(c.floats, c.tilt.x), Shown(c.floats, c.tilt.y)))
  }

  // The settings after the general part of the file.
  function AfterGeneral(d: Config, c: Config): Config {
    d.(version := VERSION,
       stream := c.stream.(remotely := d.stream.remotely),
       general := d.general.(address := c.general.address, mapping := c.general.mapping,
                             app := if c.general.app == None then Some("Steam") else c.general.app,
                             sops := c.general.sops, localAudio := c.general.localAudio))
  }

  lemma {:induction false} FrontIsRead(before: Config, c: Config)
    ensures HandledAll(Defaults(before), Head(c) + StreamPart(c.stream) + GeneralPart(c)) ==
            AfterGeneral(Defaults(before), c)
  {
    hide HandledAll, Head, StreamPart, GeneralPart;
    var d := Defaults(before);
    HeadIsRead(d, c);
    var s1 := d.(version := VERSION, general := d.general.(address := c.general.address, mapping := c.general.mapping));
    StreamIsRead(s1, c.stream);
    var s2 := s1.(stream := c.stream.(remotely := d.stream.remotely));
    GeneralIsRead(s2, c);
    ReadConcat(d, Head(c) + StreamPart(c.stream), GeneralPart(c));
    ReadConcat(d, Head(c), StreamPart(c.stream));
  }

  lemma {:induction false} MiddleIsRead(s: Config, c: Config)
    ensures HandledAll(s, PicturePart(c) + OverlayPart(c) + RoutePart(c)) ==
            s.(picture := c.picture,
               input := s.input.(frontZones := c.input.frontZones, mouse := c.input.mouse, motion := c.input.motion),
               stream := s.stream.(remotely := c.stream.remotely),
               general := s.general.(jpLayout := c.general.jpLayout))
  {
    hide HandledAll, PicturePart, OverlayPart, RoutePart;
    var p, i := c.picture, c.input;
    PictureIsRead(s, c);
    var s1 := s.(picture := s.picture.(framePacer := p.framePacer, centerOnly := p.centerOnly,
                                       powersaveOff := p.powersaveOff),
                 general := s.general.(jpLayout := c.general.jpLayout));
    OverlayIsRead(s1, c);
    var s2 := s1.(picture := s1.picture.(showFps := p.showFps, overlay := p.overlay),
                  input := s1.input.(frontZones := i.frontZones, mouse := i.mouse));
    RouteIsRead(s2, c);
    ReadConcat(s, PicturePart(c) + OverlayPart(c), RoutePart(c));
    ReadConcat(s, PicturePart(c), OverlayPart(c));
  }

  lemma {:induction false} ControlsAreRead(s: Config, c: Config)
    requires 0 <= c.input.sprintTime < U32 && s.floats == c.floats
    ensures HandledAll(s, ButtonPart(c.input) + TiltPart(c.tilt, c.floats) + ControllerPart(c.input)) ==
            s.(input := c.input.(frontZones := s.input.frontZones, mouse := s.input.mouse, motion := s.input.motion),
               tilt := Tilt(Shown(c.floats, c.tilt.x), Shown(c.floats, c.tilt.y)))
  {
    hide HandledAll, ButtonPart, TiltPart, ControllerPart, Shown;
    var i := c.input;
    ButtonsAreRead(s, i);
    var s1 := s.(input := s.input.(psButton := i.psButton, sprint := i.sprint, sprintTime := i.sprintTime));
    TiltIsRead(s1, c.tilt, c.floats);
    var s2 := s1.(tilt := Tilt(Shown(c.floats, c.tilt.x), Shown(c.floats, c.tilt.y)));
    ControllerIsRead(s2, i);
    ReadConcat(s, ButtonPart(i) + TiltPart(c.tilt, c.floats), ControllerPart(i));
    ReadConcat(s, ButtonPart(i), TiltPart(c.tilt, c.floats));
  }

  lemma {:induction false} BackIsRead(s: Config, c: Config)
    ensures HandledAll(s, MarginPart(c.dead) + CodePart(c.special) + ZonePart(c.special)) ==
            s.(dead := c.dead,
               special := Special(Code(c.special.nw), Code(c.special.ne), Code(c.special.sw), Code(c.special.se),
                                  c.special.offset, c.special.size))
  {
    hide HandledAll, MarginPart, CodePart, ZonePart, Code;
    var z := c.special;
    MarginsAreRead(s, c.dead);
    var s1 := s.(dead := c.dead);
    CodesAreRead(s1, z);
    var s2 := s1.(special := s1.special.(nw := Code(z.nw), ne := Code(z.ne), sw := Code(z.sw), se := Code(z.se)));
    ZoneIsRead(s2, z);
    ReadConcat(s, MarginPart(c.dead) + CodePart(z), ZonePart(z));
    ReadConcat(s, MarginPart(c.dead), CodePart(z));
  }

  // The file in four pieces.
  lemma {:induction false} SavedPieces(c: Config)
    requires Sane(c)
    ensures Saved(c) ==
            (Head(c) + StreamPart(c.stream) + GeneralPart(c))
            + (PicturePart(c) + OverlayPart(c) + RoutePart(c))
            + (ButtonPart(c.input) + TiltPart(c.tilt, c.floats) + ControllerPart(c.input))
            + (MarginPart(c.dead) + CodePart(c.special) + ZonePart(c.special))
  {
    hide Sane, Sanitized, Head, StreamPart, GeneralPart, PicturePart, OverlayPart, RoutePart, ButtonPart, TiltPart,
         ControllerPart, MarginPart, CodePart, ZonePart;
    SanitizedIsSane(c);
  }

  lemma {:induction false} FileIsRead(before: Config, c: Config)
    requires Sane(c) && before.floats == c.floats
    ensures HandledAll(Defaults(before), Saved(c)) == ReadBack(before, c)
  {
    hide HandledAll, Saved, Head, StreamPart, GeneralPart, PicturePart, OverlayPart, RoutePart, ButtonPart, TiltPart,
         ControllerPart, MarginPart, CodePart, ZonePart, Code, Shown;
    SavedPieces(c);
    var front := Head(c) + StreamPart(c.stream) + GeneralPart(c);
    var middle := PicturePart(c) + OverlayPart(c) + RoutePart(c);
    var controls := ButtonPart(c.input) + TiltPart(c.tilt, c.floats) + ControllerPart(c.input);
    var back := MarginPart(c.dead) + CodePart(c.special) + ZonePart(c.special);
    var d := Defaults(before);
    FrontIsRead(before, c);
    var s0 := AfterGeneral(d, c);
    MiddleIsRead(s0, c);
    var s1 := s0.(picture := c.picture, stream := c.stream, general := s0.general.(jpLayout := c.general.jpLayout),
                  input := s0.input.(frontZones := c.input.frontZones, mouse := c.input.mouse,
                                     motion := c.input.motion));
    ControlsAreRead(s1, c);
    var s2 := s1.(input := c.input, tilt := Tilt(Shown(c.floats, c.tilt.x), Shown(c.floats, c.tilt.y)));
    BackIsRead(s2, c);
    ReadConcat(d, front + middle + controls, back);
    ReadConcat(d, front + middle, controls);
    ReadConcat(d, front, middle);
  }

  // ----- round trip -----

  // The motion scalars as they come back: read, and made valid.
  function TiltReadBack(c: Config): Tilt {
    SaneTilt(Tilt(Shown(c.floats, c.tilt.x), Shown(c.floats, c.tilt.y)))
  }

  // What a file can hold: a bit rate that is chosen, key codes of 31 bits, an application,
  // motion scalars that are read as they were printed, and not the old frame counter
  // without an overlay.
  predicate Storable(c: Config) {
    && c.stream.bitrate != -1 && c.general.app.Some?
    && !(c.picture.showFps && c.picture.overlay == 0) && TiltReadBack(c) == c.tilt
    && c.special.nw <= LONG_MAX && c.special.ne <= LONG_MAX && c.special.sw <= LONG_MAX && c.special.se <= LONG_MAX
  }

  // What reading a file of valid settings gives.
  function Reread(before: Config, c: Config, cache: string): Config {
    BitrateChosen(KeyDirChosen(OverlayMigrated(ReadBack(before, c)).(tilt := TiltReadBack(c)), cache))
  }

  lemma {:induction false} SanitizedWithTilt(c: Config, t: Tilt)
    requires Sane(c)
    ensures Sanitized(c.(tilt := t)) == c.(tilt := SaneTilt(t))
  {
    hide Sane, SaneStream, SanePicture, SaneInput, SaneDead, SaneSpecial, SaneTilt;
    SanitizedIsSane(c);
  }

  lemma {:induction false} SavedIsReread(before: Config, c: Config, cache: string)
    requires Sane(c) && before.floats == c.floats
    ensures Parsed(before, Saved(c), cache) == Reread(before, c, cache)
  {
    hide HandledAll, Saved, Sanitized, Code, Shown, Defaults,
         SaneTilt, BitrateChosen, KeyDirChosen, SaneMargins, SaneScalar;
    FileIsRead(before, c);
    var r := OverlayMigrated(ReadBack(before, c));
    SanitizedWithTilt(r.(tilt := c.tilt), r.tilt);
    assert r.(tilt := c.tilt).(tilt := r.tilt) == r;
  }

  // Valid settings of the current version come back from the file, but for the key
  // directory, exactly when they are storable.
  lemma {:induction false} SavedSettingsComeBack(before: Config, c: Config, cache: string)
    requires Sane(c) && c.version == VERSION && before.floats == c.floats
    ensures Parsed(before, Saved(c), cache) == c.(keyDir := if before.keyDir == "" then cache else before.keyDir)
            <==> Storable(c)
  {
    hide Parsed, Saved, Strtol16, UpperHex, TiltReadBack;
    SavedIsReread(before, c, cache);
    CodeReadsBack(c.special.nw);
    CodeReadsBack(c.special.ne);
    CodeReadsBack(c.special.sw);
    CodeReadsBack(c.special.se);
  }

  // What a scalar is read as is read again as the same: six digits behind the point tell
  // the floats of six digits apart in the valid range.
  ghost predicate SixDigitsTell(floats: Floats) {
    && Shown(floats, SCALAR_X) == SCALAR_X && Shown(floats, SCALAR_Y) == SCALAR_Y
    && forall s: Scalar :: SaneScalar(Shown(floats, s)) ==> Shown(floats, Shown(floats, s)) == Shown(floats, s)
  }

  lemma {:induction false} CodeFits(n: nat)
    ensures Code(n) <= LONG_MAX
  {
    hide Strtol16, UpperHex;
    CodeReadsBack(n);
  }

  lemma {:induction false} RereadIsStorable(before: Config, c: Config, cache: string)
    requires SixDigitsTell(c.floats)
    ensures var r := Reread(before, c, cache); Storable(r) && r.version == VERSION && r.floats == c.floats
  {
    hide Code, Shown;
    CodeFits(c.special.nw);
    CodeFits(c.special.ne);
    CodeFits(c.special.sw);
    CodeFits(c.special.se);
  }

  lemma {:induction false} SavedTwice(c: Config)
    ensures Saved(Sanitized(c)) == Saved(c) && Sane(Sanitized(c))
            && Sanitized(c).version == c.version && Sanitized(c).floats == c.floats
  {
    SanitizedIsSane(c);
    SanitizedIsSane(Sanitized(c));
    hide Axis;
  }

  // Saving and reading once makes any settings storable, so that the file never changes
  // them again.
  lemma {:induction false} SavingOnceSettles(before: Config, c: Config, cache: string)
    requires SixDigitsTell(c.floats) && before.floats == c.floats
    ensures var r := Parsed(before, Saved(c), cache);
            Storable(r) && Parsed(r, Saved(r), cache) == r
  {
    hide Parsed, Saved, Storable, Sane, Sanitized, Reread, SixDigitsTell;
    SavedTwice(c);
    var v := Sanitized(c);
    SavedIsReread(before, v, cache);
    RereadIsStorable(before, v, cache);
    ParsedIsSane(before, Saved(v), cache);
    var r := Parsed(before, Saved(v), cache);
    SavedSettingsComeBack(r, r, cache);
  }

  // The settings that are used of those that a file is written from.
  function Used(m: Config, cache: string): Config { BitrateChosen(KeyDirChosen(m, cache)) }

  lemma {:induction false} UsedIsReread(m: Config, cache: string)
    requires m.version == VERSION
    ensures Reread(Used(m, cache), m, cache) == Used(m, cache) <==> Storable(Used(m, cache))
  {
    hide Strtol16, UpperHex, Shown, SaneTilt;
    CodeReadsBack(m.special.nw);
    CodeReadsBack(m.special.ne);
    CodeReadsBack(m.special.sw);
    CodeReadsBack(m.special.se);
  }

  // Settings of an older version, migrated and rewritten, are read again as they were
  // exactly when they are storable.
  lemma {:induction false} MigrationIsKept(before: Config, file: seq<Entry>, cache: string)
    requires Rewritten(before, file).Some?
    ensures var r := Parsed(before, file, cache);
            Parsed(r, Rewritten(before, file).value, cache) == r <==> Storable(r)
  {
    hide Saved, Sane, Sanitized, Migrated, Defaults, OverlayMigrated, BitrateChosen, KeyDirChosen, Storable, Reread;
    var c := Read(before, file);
    SanitizedIsSane(OverlayMigrated(HandledAll(Defaults(before), file)));
    MigratedIsSane(c);
    MigratedVersion(c);
    var m := Migrated(c);
    UsedKeeps(m, cache);
    hide Read;
    var r := Used(m, cache);
    assert Parsed(before, file, cache) == r;
    hide Parsed;
    SavedIsReread(r, m, cache);
    UsedIsReread(m, cache);
  }

  lemma {:induction false} MigratedVersion(c: Config)
    requires c.version < VERSION
    ensures Migrated(c).version == VERSION
  {
  }

  lemma {:induction false} UsedKeeps(m: Config, cache: string)
    ensures Used(m, cache).floats == m.floats
  {
  }

  // Reading any file and saving what was read settles: once storable, reading again gives
  // the same settings.
  lemma {:induction false} ReadingSettles(before: Config, file: seq<Entry>, cache: string)
    requires var c := Parsed(before, file, cache); c.version == VERSION && Storable(c)
    ensures var c := Parsed(before, file, cache); Parsed(c, Saved(c), cache) == c
  {
    hide Parsed, Saved, Storable, Sane;
    var c := Parsed(before, file, cache);
    ParsedIsSane(before, file, cache);
    SavedSettingsComeBack(c, c, cache);
  }
}
