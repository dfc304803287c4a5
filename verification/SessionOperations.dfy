/** The operations of a display session on a DisplaySession.Machine that take the session
    lock: start, restore, change of mode and prime. */
module SessionOperations {
  import opened HostText
  import opened Displays
  import opened DisplayChoice
  import opened DisplaySession

  datatype Settings = Settings(apollo: bool, sunshine: bool, displayMatch: string, forceSdr: bool)

  // Windows names the display on this path, with the wanted device path.
  predicate HasDevicePath(targets: Targets, paths: seq<PathInfo>, named: set<nat>, devicePath: string, i: nat) {
    i < |paths| && i in named && SameText(targets(paths[i].path.target).devicePath, devicePath)
  }

  // The first path whose display answers with the wanted device path.
  method FindPathByDevicePath(targets: Targets, paths: seq<PathInfo>, named: set<nat>, devicePath: string)
    returns (path: Option<Path>)
    ensures path.Some? ==> exists i: nat | i < |paths| && HasDevicePath(targets, paths, named, devicePath, i) ::
              paths[i].path == path.value
              && forall j: nat | j < i :: !HasDevicePath(targets, paths, named, devicePath, j)
    ensures path.None? ==> forall i: nat :: !HasDevicePath(targets, paths, named, devicePath, i)
  {
    for index := 0 to |paths|
      invariant forall i: nat | i < index :: !HasDevicePath(targets, paths, named, devicePath, i)
    {
      if index in named && SameText(targets(paths[index].path.target).devicePath, devicePath) {
        return Some(paths[index].path);
      }
    }
    return None;
  }

  // ----- activation -----

  // This path is active, alone and in the wanted mode.
  predicate StreamsOn(l: Layout, p: Path, mode: Mode) {
    l.paths == {p} && p.source in l.modes && l.modes[p.source] == mode
  }

  // The display picked from the list, with these paths active on it, is the one.
  ghost predicate Streams(m: Machine, active: set<Path>, named: set<nat>, nameMatch: string, l: Layout, mode: Mode,
                          name: string)
  {
    exists i: nat | i < |m.catalogue| ::
      && Picked(m.collation, m.targets, Listing(m.catalogue, active), named, Activation, nameMatch, i)
      && StreamsOn(l, m.catalogue[i], mode) && name == m.targets(m.catalogue[i].target).friendlyName
  }

  // A listed display that suits is active, alone.
  ghost predicate SuitsAlone(m: Machine, nameMatch: string, l: Layout) {
    exists p | p in m.catalogue :: Suits(m.targets, nameMatch, p) && l.paths == {p}
  }

  // From n on, these two layouts were shown, and otherwise only such displays.
  ghost predicate ShowsOnly(m: Machine, history: seq<Moment>, n: nat, nameMatch: string, a: Layout, b: Layout) {
    forall i | n <= i < |history| ::
      history[i].layout == a || history[i].layout == b || SuitsAlone(m, nameMatch, history[i].layout)
  }

  lemma {:induction false} ShowsOnlyJoins(m: Machine, earlier: seq<Moment>, history: seq<Moment>, n: nat,
                                          nameMatch: string, a: Layout, b: Layout, c: Layout, d: Layout)
    requires earlier <= history && ShowsOnly(m, earlier, n, nameMatch, a, b)
    requires ShowsOnly(m, history, |earlier|, nameMatch, c, d)
    requires c == a || c == b || SuitsAlone(m, nameMatch, c)
    requires d == a || d == b || SuitsAlone(m, nameMatch, d)
    ensures ShowsOnly(m, history, n, nameMatch, a, b)
  {
    hide SuitsAlone;
    assert forall i | n <= i < |earlier| :: history[i] == earlier[i];
  }

  lemma {:induction false} ShowsOnlyWidens(m: Machine, history: seq<Moment>, n: nat, nameMatch: string, a: Layout)
    requires ShowsOnly(m, history, n, nameMatch, a, a)
    ensures forall b :: ShowsOnly(m, history, n, nameMatch, a, b)
  {
    hide SuitsAlone;
  }

  lemma {:induction false} OnlyLayoutsShow(m: Machine, n: nat, nameMatch: string, a: Layout, b: Layout)
    requires m.OnlyLayouts(n, a, b)
    ensures ShowsOnly(m, m.history, n, nameMatch, a, b)
  {
    hide SuitsAlone;
  }

  // Where no listed display suits, none is streamed to.
  lemma {:induction false} NoneSuits(m: Machine, n: nat, nameMatch: string, a: Layout, b: Layout)
    requires forall p | p in m.catalogue :: !Suits(m.targets, nameMatch, p)
    requires ShowsOnly(m, m.history, n, nameMatch, a, b) && n <= |m.history|
    ensures m.OnlyLayouts(n, a, b)
    ensures forall active, named, l, mode, name :: !Streams(m, active, named, nameMatch, l, mode, name)
  {
    hide Suits, Picked, StreamsOn;
    forall active, named, l, mode, name ensures !Streams(m, active, named, nameMatch, l, mode, name) {
      if Streams(m, active, named, nameMatch, l, mode, name) {
        var i: nat :| i < |m.catalogue|
          && Picked(m.collation, m.targets, Listing(m.catalogue, active), named, Activation, nameMatch, i);
        assert m.catalogue[i] in m.catalogue;
        PickedSuits(m.collation, m.targets, Listing(m.catalogue, active), named, nameMatch, i);
      }
    }
  }

  // The mode of one active display with a device path has been changed, and nothing else.
  ghost predicate ModeChanged(targets: Targets, before: Layout, after: Layout, devicePath: string, mode: Mode) {
    exists p | p in before.paths ::
      && SameText(targets(p.target).devicePath, devicePath)
      && after == Layout(before.paths, before.modes[p.source := mode])
  }

  // From n on, the layout was this one or had this path alone.
  ghost predicate OldOrAlone(history: seq<Moment>, n: nat, l: Layout, p: Path) {
    forall i | n <= i < |history| :: history[i].layout == l || history[i].layout.paths == {p}
  }

  // Makes one path the only active one and sets the mode of its display. answered tells
  // whether Windows named every display it was asked about.
  method ShowAlone(m: Machine, path: Path, devicePath: string, mode: Mode, forceSdr: bool)
    returns (reply: Reply, ghost answered: bool)
    requires m.Valid() && m.record.Some? && m.targets(path.target).devicePath == devicePath
    modifies m
    ensures old(m.faults) <= m.faults && (reply.Stopped? ==> m.faults > old(m.faults))
    ensures m.Valid() && old(m.history) <= m.history && m.record == old(m.record)
    ensures reply.Ok? ==> StreamsOn(m.layout, path, mode)
    ensures OldOrAlone(m.history, |old(m.history)|, old(m.layout), path)
    ensures m.layout == old(m.layout) || m.layout.paths == {path}
    ensures m.faults == old(m.faults) && answered ==> reply.Ok?
  {
    hide Kept, Confirmed, Witnessed, SameText;
    answered := true;
    reply := m.Call();
    if !reply.Ok? { return; }
    reply := m.ApplyPaths(Companion, [path]);
    if !reply.Ok? { return; }
    assert m.layout.paths == {path};
    assert SameText(devicePath, devicePath) by { SameAsItself(devicePath); }
    reply, answered := ChangeActiveMode(m, devicePath, mode, forceSdr);
  }

  lemma {:induction false} SameAsItself(s: string)
    ensures SameText(s, s)
  {
  }

  // Finds the display among the active paths and sets its mode.
  method ChangeActiveMode(m: Machine, devicePath: string, mode: Mode, forceSdr: bool)
    returns (reply: Reply, ghost answered: bool)
    requires m.Valid()
    modifies m
    ensures old(m.faults) <= m.faults && (reply.Stopped? ==> m.faults > old(m.faults))
    ensures m.Valid() && old(m.history) <= m.history && m.record == old(m.record)
    ensures m.layout.paths == old(m.layout).paths
    ensures SamePaths(m.history, |old(m.history)|, old(m.layout).paths)
    ensures !reply.Ok? ==> m.layout == old(m.layout)
    ensures reply.Ok? ==> ModeChanged(m.targets, old(m.layout), m.layout, devicePath, mode)
    ensures (exists p | p in old(m.layout).paths :: SameText(m.targets(p.target).devicePath, devicePath)) ==>
      (m.faults == old(m.faults) && answered ==> reply.Ok?)
    ensures old(m.verification).None? ==> m.verification.None?
  {
    hide Kept, Confirmed, Witnessed, SameText;
    var paths;
    reply, paths := m.QueryOnlyActivePaths();
    var answers: set<nat> := *;
    answered := AllNamed(paths, answers);
    if !reply.Ok? { return; }
    var activePath := FindPathByDevicePath(m.targets, paths, answers, devicePath);
    if activePath.None? {
      if answered {
        forall p | p in m.layout.paths ensures !SameText(m.targets(p.target).devicePath, devicePath) {
          var i: nat :| i < |paths| && paths[i].path == p;
          assert !HasDevicePath(m.targets, paths, answers, devicePath, i);
        }
      }
      reply := Failed;
      return;
    }
    reply := m.Call();
    if !reply.Ok? { return; }
    reply := m.ChangeSourceMode(activePath.value.source, mode);
    if reply.Ok? && forceSdr { var _ := m.Call(); }
  }

  ghost predicate SamePaths(history: seq<Moment>, n: nat, paths: set<Path>) {
    forall i | n <= i < |history| :: history[i].layout.paths == paths
  }

  // named holds the listed paths that Windows named when the display was chosen.
  method ActivateVirtualDisplay(m: Machine, nameMatch: string, mode: Mode, forceSdr: bool)
    returns (reply: Reply, name: string, ghost named: set<nat>, ghost answered: bool)
    requires m.Valid() && m.record.Some?
    modifies m
    ensures old(m.faults) <= m.faults && (reply.Stopped? ==> m.faults > old(m.faults))
    ensures m.Valid() && old(m.history) <= m.history && m.record == old(m.record)
    ensures reply.Ok? ==> Streams(m, old(m.layout).paths, named, nameMatch, m.layout, mode, name)
    ensures ShowsOnly(m, m.history, |old(m.history)|, nameMatch, old(m.layout), old(m.layout))
    ensures m.layout == old(m.layout) || SuitsAlone(m, nameMatch, m.layout)
    ensures answered ==> AllNamed(Listing(m.catalogue, old(m.layout).paths), named)
    ensures m.faults == old(m.faults) && answered ==>
      (reply.Ok? <==> exists i: nat ::
         Wanted(m.targets, Listing(m.catalogue, old(m.layout).paths), named, Activation, nameMatch, i))
  {
    hide Kept, Confirmed, Witnessed, Machine.OnlyLayouts, SameText, Picked, Wanted, Suits, ShowsOnly, SuitsAlone,
         Describes, Arranged, SelectVirtualDisplayForActivation, StreamsOn, OldOrAlone;
    ghost var n, base := |m.history|, m.layout;
    name, answered := "", false;
    var answers: set<nat> := *;
    named := answers;
    var paths;
    reply, paths := m.QueryAllPaths();
    OnlyLayoutsShow(m, n, nameMatch, base, base);
    if !reply.Ok? { return; }
    answered := AllNamed(paths, answers);
    var displays := Describe(m.collation, m.targets, paths, answers);
    var selected := SelectVirtualDisplayForActivation(displays, nameMatch);
    ActivationPicks(m.collation, m.targets, paths, answers, displays, nameMatch);
    if selected.None? { reply := Failed; return; }
    name := selected.value.friendlyName;
    var path := paths[selected.value.pathIndex].path;
    PickedIsWanted(m.collation, m.targets, paths, answers, nameMatch, selected.value.pathIndex);
    ghost var before := m.history;
    ghost var shown;
    reply, shown := ShowAlone(m, path, selected.value.devicePath, mode, forceSdr);
    answered := answered && shown;
    AloneSuits(m, before, n, nameMatch, base, path);
    if reply.Ok? {
      ghost var i := selected.value.pathIndex;
      assert StreamsOn(m.layout, m.catalogue[i], mode);
      assert name == m.targets(m.catalogue[i].target).friendlyName;
    }
  }

  lemma {:induction false} PickedIsWanted(collation: Collation, targets: Targets, paths: seq<PathInfo>, named: set<nat>,
                                          nameMatch: string, i: nat)
    requires Picked(collation, targets, paths, named, Activation, nameMatch, i)
    ensures exists k: nat :: Wanted(targets, paths, named, Activation, nameMatch, k)
  {
    hide Wanted;
  }

  lemma {:induction false} AloneSuits(m: Machine, earlier: seq<Moment>, n: nat, nameMatch: string, base: Layout,
                                      p: Path)
    requires earlier <= m.history && ShowsOnly(m, earlier, n, nameMatch, base, base)
    requires p in m.catalogue && Suits(m.targets, nameMatch, p) && OldOrAlone(m.history, |earlier|, base, p)
    ensures ShowsOnly(m, m.history, n, nameMatch, base, base)
    ensures forall l: Layout | l.paths == {p} :: SuitsAlone(m, nameMatch, l)
  {
    hide Suits;
    ShowsOnlyJoins(m, earlier, m.history, n, nameMatch, base, base, base, base);
  }

  // Up to `attempts` tries; a try that ends in an unexpected exception is not repeated.
  // active holds the paths that were active when the display was chosen.
  method ActivateWithRetry(m: Machine, nameMatch: string, mode: Mode, forceSdr: bool, attempts: nat)
    returns (reply: Reply, name: string, ghost active: set<Path>, ghost named: set<nat>, ghost answered: bool)
    requires m.Valid() && m.record.Some?
    modifies m
    ensures old(m.faults) <= m.faults && (reply.Stopped? ==> m.faults > old(m.faults))
    ensures m.Valid() && old(m.history) <= m.history && m.record == old(m.record)
    ensures reply.Ok? ==> Streams(m, active, named, nameMatch, m.layout, mode, name)
    ensures reply.Ok? && answered ==> AllNamed(Listing(m.catalogue, active), named)
    ensures ShowsOnly(m, m.history, |old(m.history)|, nameMatch, old(m.layout), old(m.layout))
    ensures m.layout == old(m.layout) || SuitsAlone(m, nameMatch, m.layout)
    ensures attempts > 0 && SuitableThere(m.targets, m.catalogue, nameMatch) ==>
      (m.faults == old(m.faults) && answered ==> reply.Ok?)
  {
    hide Kept, Confirmed, Witnessed, Machine.OnlyLayouts, Streams, ShowsOnly, SuitsAlone, SuitableThere, Wanted,
         AllNamed;
    ghost var n, base := |m.history|, m.layout;
    active, named, answered := {}, {}, true;
    NothingShown(m, nameMatch, base);
    for attempt := 0 to attempts
      invariant m.Valid() && old(m.history) <= m.history && m.record == old(m.record)
      invariant old(m.faults) <= m.faults
      invariant ShowsOnly(m, m.history, n, nameMatch, base, base)
      invariant m.layout == base || SuitsAlone(m, nameMatch, m.layout)
      invariant attempt > 0 && m.faults == old(m.faults) && answered ==>
        !SuitableThere(m.targets, m.catalogue, nameMatch)
    {
      ghost var before, l, named1 := m.history, m.layout, answered;
      active := m.layout.paths;
      if SuitableThere(m.targets, m.catalogue, nameMatch) { SuitableIsAlwaysWanted(m, active, nameMatch); }
      reply, name, named, answered := ActivateVirtualDisplay(m, nameMatch, mode, forceSdr);
      answered := answered && named1;
      ShowsOnlyJoins(m, before, m.history, n, nameMatch, base, base, l, l);
      if !reply.Failed? { return; }
      var expected: bool := *;
      if !expected { return; }
      before := m.history;
      reply := m.Call();
      OnlyLayoutsShow(m, |before|, nameMatch, m.layout, m.layout);
      ShowsOnlyJoins(m, before, m.history, n, nameMatch, base, base, m.layout, m.layout);
      if reply.Stopped? { return; }
    }
    reply, name := Failed, "";
  }

  lemma {:induction false} NothingShown(m: Machine, nameMatch: string, l: Layout)
    ensures ShowsOnly(m, m.history, |m.history|, nameMatch, l, l)
  {
  }

  lemma {:induction false} SuitableIsAlwaysWanted(m: Machine, active: set<Path>, nameMatch: string)
    requires SuitableThere(m.targets, m.catalogue, nameMatch)
    ensures forall named: set<nat> | AllNamed(Listing(m.catalogue, active), named) ::
              exists i: nat :: Wanted(m.targets, Listing(m.catalogue, active), named, Activation, nameMatch, i)
  {
    hide Wanted, AllNamed, SuitableThere;
    forall named: set<nat> | AllNamed(Listing(m.catalogue, active), named)
      ensures exists i: nat :: Wanted(m.targets, Listing(m.catalogue, active), named, Activation, nameMatch, i)
    {
      SuitableIsWanted(m.targets, m.catalogue, active, named, nameMatch);
    }
  }

  // The driver's configuration may be rewritten and the driver reloaded, which may
  // leave any display layout behind.
  method PrepareMode(m: Machine) returns (reply: Reply)
    requires m.Valid() && m.record.Some?
    modifies m
    ensures old(m.faults) <= m.faults && (reply.Stopped? ==> m.faults > old(m.faults))
    ensures m.Valid() && old(m.history) <= m.history && m.record == old(m.record)
    ensures m.OnlyLayouts(|old(m.history)|, old(m.layout), m.layout)
    ensures m.faults == old(m.faults) ==> reply.Ok?
  {
    hide Kept, Confirmed, Witnessed;
    reply := m.Invalidate();
    if !reply.Ok? { return; }
    reply := m.Call();
    if !reply.Ok? { return; }
    var layout: Layout := *;
    reply := m.SetLayout(Companion, layout);
  }

  // ----- start -----

  predicate InStreamBounds(mode: Mode) {
    64 <= mode.width <= 7680 && 64 <= mode.height <= 4320 && 24 <= mode.fps <= 240
  }

  // reloaded is the layout that the reload of the driver left behind.
  method Start(m: Machine, mode: Mode, settings: Settings)
    returns (outcome: Outcome, ghost reloaded: Layout, ghost active: set<Path>, ghost named: set<nat>,
             ghost answered: bool)
    requires m.Valid()
    modifies m
    ensures m.Valid() && old(m.history) <= m.history && old(m.faults) <= m.faults
    ensures outcome.Refused? ==> m.layout == old(m.layout) && m.record == old(m.record)
    ensures outcome.Done? ==>
      old(m.record).None? && m.record.Some? && m.record.value.layout == old(m.layout)
      && m.record.value.selected.Some? && m.record.value.requested == mode
    ensures old(m.record).None? && m.record.None? ==> m.layout == old(m.layout)
    ensures old(m.record).None? && m.record.Some? ==> m.record.value.layout == old(m.layout)
    ensures old(m.record).Some? ==> outcome.Refused? || outcome.Halted?
    ensures outcome.Halted? || (outcome.Error? && m.record.Some?) ==> m.faults > old(m.faults)
    ensures old(m.record).Some? ==> m.record == old(m.record) && m.layout == old(m.layout)
    ensures outcome.Done? ==>
      && Streams(m, active, named, settings.displayMatch, m.layout, mode, m.record.value.selected.value)
      && (answered ==> AllNamed(Listing(m.catalogue, active), named))
    ensures ShowsOnly(m, m.history, |old(m.history)|, settings.displayMatch, old(m.layout), reloaded)
    ensures settings.apollo ==> reloaded == old(m.layout)
    ensures (forall p | p in m.catalogue :: !Suits(m.targets, settings.displayMatch, p)) ==>
      !outcome.Done? && m.OnlyLayouts(|old(m.history)|, old(m.layout), reloaded)
    ensures !InStreamBounds(mode) ==> outcome.Refused?
    ensures outcome.Refused? && m.faults == old(m.faults) ==> !InStreamBounds(mode) || old(m.record).Some?
    ensures InStreamBounds(mode) && old(m.record).None?
            && SuitableThere(m.targets, m.catalogue, settings.displayMatch) ==>
              (m.faults == old(m.faults) && answered ==> outcome.Done?)
  {
    hide Kept, Confirmed, Witnessed, Machine.OnlyLayouts, Streams, ShowsOnly, Suits, SuitableThere, SuitsAlone,
         AllNamed;
    ghost var n, base, nameMatch := |m.history|, m.layout, settings.displayMatch;
    reloaded, active, named, answered := base, {}, {}, true;
    NothingShown(m, nameMatch, base);
    IfNoneSuits(m, n, nameMatch, base, base);
    if !ValidStreamMode(mode) { outcome := Refused; return; }
    var reply, refused := BeginTransaction(m, mode);
    OnlyLayoutsShow(m, n, nameMatch, base, base);
    IfNoneSuits(m, n, nameMatch, base, base);
    if refused { outcome := Refused; return; }
    if !reply.Ok? { outcome := Ended(reply); return; }
    ghost var before := m.history;
    ShowsOnlyWidens(m, before, n, nameMatch, base);
    var name;
    reply, name, reloaded, active, named, answered := ActivateForSession(m, mode, settings);
    ShowsOnlyJoins(m, before, m.history, n, nameMatch, base, reloaded, base, reloaded);
    before := m.history;
    ghost var shown := m.layout;
    outcome := CompleteStart(m, reply, name);
    OnlyLayoutsShow(m, |before|, nameMatch, shown, base);
    ShowsOnlyJoins(m, before, m.history, n, nameMatch, base, reloaded, shown, base);
    IfNoneSuits(m, n, nameMatch, base, reloaded);
  }

  lemma {:induction false} IfNoneSuits(m: Machine, n: nat, nameMatch: string, a: Layout, b: Layout)
    requires ShowsOnly(m, m.history, n, nameMatch, a, b) && n <= |m.history|
    ensures (forall p | p in m.catalogue :: !Suits(m.targets, nameMatch, p)) ==>
      && m.OnlyLayouts(n, a, b)
      && forall active, named, l, mode, name :: !Streams(m, active, named, nameMatch, l, mode, name)
  {
    hide *;
    if forall p | p in m.catalogue :: !Suits(m.targets, nameMatch, p) { NoneSuits(m, n, nameMatch, a, b); }
  }

  // Notes the display in the record or, if it could not be activated, undoes everything.
  method CompleteStart(m: Machine, activated: Reply, name: string) returns (outcome: Outcome)
    requires m.Valid() && m.record.Some?
    modifies m
    ensures m.Valid() && old(m.history) <= m.history && old(m.faults) <= m.faults
    ensures outcome.Done? ==>
      && activated.Ok? && m.layout == old(m.layout)
      && m.record == Some(old(m.record).value.(selected := Some(name)))
    ensures m.record.None? ==> outcome.Error? && m.layout == old(m.record).value.layout
    ensures m.record.Some? ==> m.record.value.layout == old(m.record).value.layout
    ensures m.OnlyLayouts(|old(m.history)|, old(m.layout), old(m.record).value.layout)
    ensures m.faults == old(m.faults) ==> match activated {
      case Ok => outcome.Done?
      case Failed => outcome.Error? && m.record.None?
      case Stopped => outcome.Halted?
    }
    ensures !outcome.Refused?
  {
    hide Kept, Confirmed, Witnessed;
    var reply := activated;
    if reply.Ok? { reply := m.SaveRecovery(m.record.value.(selected := Some(name))); }
    if reply.Ok? { return Done; }
    if reply.Stopped? { return Halted; }
    reply := m.RestoreAndClear();
    return if reply.Stopped? then Halted else Error;
  }

  // Takes the lock, insists that no record is pending and writes one for the present
  // layout.
  method BeginTransaction(m: Machine, mode: Mode) returns (reply: Reply, refused: bool)
    requires m.Valid()
    modifies m
    ensures m.Valid() && old(m.history) <= m.history && m.layout == old(m.layout)
    ensures m.OnlyLayouts(|old(m.history)|, m.layout, m.layout)
    ensures old(m.faults) <= m.faults && (!refused && !reply.Ok? ==> m.faults > old(m.faults))
    ensures refused || !reply.Ok? ==> m.record == old(m.record)
    ensures !refused && reply.Ok? ==> old(m.record).None? && m.record == Some(Record(m.layout, None, mode))
    ensures refused && m.faults == old(m.faults) ==> old(m.record).Some?
    ensures old(m.record).Some? ==> refused || reply.Stopped?
    ensures old(m.verification).None? ==> m.verification.None?
  {
    hide Kept, Confirmed, Witnessed;
    reply := m.Call();
    if !reply.Ok? { return reply, reply.Failed?; }
    if m.record.Some? { return reply, true; }
    var recovery;
    reply, recovery := m.CaptureRecovery(mode);
    if !reply.Ok? { return reply, false; }
    reply := m.SaveRecovery(recovery);
    return reply, false;
  }

  method ActivateForSession(m: Machine, mode: Mode, settings: Settings)
    returns (reply: Reply, name: string, ghost reloaded: Layout, ghost active: set<Path>, ghost named: set<nat>,
             ghost answered: bool)
    requires m.Valid() && m.record.Some?
    modifies m
    ensures old(m.faults) <= m.faults && (reply.Stopped? ==> m.faults > old(m.faults))
    ensures m.Valid() && old(m.history) <= m.history && m.record == old(m.record)
    ensures reply.Ok? ==> Streams(m, active, named, settings.displayMatch, m.layout, mode, name)
    ensures reply.Ok? && answered ==> AllNamed(Listing(m.catalogue, active), named)
    ensures ShowsOnly(m, m.history, |old(m.history)|, settings.displayMatch, old(m.layout), reloaded)
    ensures m.layout in {old(m.layout), reloaded} || SuitsAlone(m, settings.displayMatch, m.layout)
    ensures settings.apollo ==> reloaded == old(m.layout)
    ensures SuitableThere(m.targets, m.catalogue, settings.displayMatch) ==>
      (m.faults == old(m.faults) && answered ==> reply.Ok?)
  {
    hide Kept, Confirmed, Witnessed, Machine.OnlyLayouts, Streams, ShowsOnly, SuitsAlone, SuitableThere, AllNamed;
    ghost var n, base, nameMatch := |m.history|, m.layout, settings.displayMatch;
    reply, name, active, named, answered := Ok, "", {}, {}, true;
    NothingShown(m, nameMatch, base);
    if !settings.apollo {
      reply := PrepareMode(m);
      OnlyLayoutsShow(m, n, nameMatch, base, m.layout);
    }
    reloaded := m.layout;
    if reply.Ok? {
      ghost var before := m.history;
      reply, name, active, named, answered := ActivateWithRetry(m, settings.displayMatch, mode, settings.forceSdr, 20);
      ShowsOnlyJoins(m, before, m.history, n, nameMatch, base, reloaded, reloaded, reloaded);
    }
  }

  // ----- restore -----

  method RestoreIfPending(m: Machine) returns (outcome: Outcome, restored: bool)
    requires m.Valid()
    modifies m
    ensures old(m.faults) <= m.faults
    ensures m.Valid() && old(m.history) <= m.history
    ensures outcome.Done? ==>
      m.record == None && restored == old(m.record).Some?
      && m.layout == if restored then old(m.record).value.layout else old(m.layout)
    ensures m.record == None || m.record == old(m.record)
    ensures old(m.record).None? ==> m.layout == old(m.layout) && m.record == None
    ensures old(m.record).Some? && m.record.None? ==> m.layout == old(m.record).value.layout
    ensures outcome.Refused? ==> m.layout == old(m.layout) && m.record == old(m.record)
    ensures restored ==> outcome.Done? && old(m.record).Some?
    ensures m.faults == old(m.faults) ==> outcome.Done?
  {
    hide Kept, Confirmed, Witnessed, Machine.OnlyLayouts;
    restored := false;
    var reply := m.Call();
    if !reply.Ok? { return if reply.Failed? then Refused else Halted, false; }
    if m.record.None? { return Done, false; }
    reply := m.RestoreAndClear();
    if reply.Ok? { return Done, true; }
    return Ended(reply), false;
  }

  // Running it twice is running it once.
  method RestoreTwice(m: Machine) returns (first: Outcome, second: Outcome, again: bool)
    requires m.Valid()
    modifies m
    ensures m.Valid() && old(m.history) <= m.history
    ensures first.Done? ==>
      !again && m.record == None
      && m.layout == if old(m.record).Some? then old(m.record).value.layout else old(m.layout)
    ensures m.faults == old(m.faults) ==> first.Done? && second.Done?
  {
    hide Kept, Confirmed, Witnessed;
    var restored;
    first, restored := RestoreIfPending(m);
    second, again := RestoreIfPending(m);
  }

  // ----- change of mode -----

  // provisioned tells whether the driver's configuration has the Vita's modes. listed are
  // the active paths in Windows' order.
  method ChangeMode(m: Machine, mode: Mode, settings: Settings, provisioned: bool)
    returns (outcome: Outcome, ghost listed: seq<PathInfo>, ghost named: set<nat>)
    requires m.Valid()
    modifies m
    ensures m.Valid() && old(m.history) <= m.history && old(m.faults) <= m.faults
    ensures m.record == old(m.record) && m.layout.paths == old(m.layout).paths
    ensures SamePaths(m.history, |old(m.history)|, old(m.layout).paths)
    ensures mode !in SUPPORTED_MODES ==> outcome.Refused?
    ensures !outcome.Done? ==> m.layout == old(m.layout)
    ensures outcome.Done? ==> exists i: nat | i < |listed| ::
              && ListsActive(listed, old(m.layout).paths)
              && Picked(m.collation, m.targets, listed, named, ModeChange, settings.displayMatch, i)
              && m.layout == Layout(old(m.layout).paths, old(m.layout).modes[listed[i].path.source := mode])
    ensures m.faults == old(m.faults) ==>
      if mode !in SUPPORTED_MODES || (settings.sunshine && !provisioned) then outcome.Refused?
      else
        && ListsActive(listed, old(m.layout).paths)
        && if exists i: nat :: Wanted(m.targets, listed, named, ModeChange, settings.displayMatch, i) then outcome.Done?
           else outcome.Refused?
  {
    hide Kept, Confirmed, Witnessed, Picked, Wanted;
    ghost var before := m.layout;
    listed, named := [], {};
    if mode !in SUPPORTED_MODES { outcome := Refused; return; }
    var reply := m.Call();
    if !reply.Ok? { outcome := if reply.Failed? then Refused else Halted; return; }
    if settings.sunshine && !provisioned { outcome := Refused; return; }
    var paths;
    reply, paths := m.QueryOnlyActivePaths();
    listed := paths;
    if !reply.Ok? { outcome := Ended(reply); return; }
    var answers: set<nat> := *;
    named := answers;
    var picked := ActiveVirtualPath(m.collation, m.targets, paths, answers, settings.displayMatch);
    if picked.None? { outcome := Refused; return; }
    reply := m.Call();
    if !reply.Ok? { outcome := Ended(reply); return; }
    reply := m.ChangeSourceMode(paths[picked.value].path.source, mode);
    if !reply.Ok? { outcome := Ended(reply); return; }
    if settings.forceSdr { var _ := m.Call(); }
    outcome := Done;
  }

  // The active virtual display whose mode may be changed.
  method ActiveVirtualPath(collation: Collation, targets: Targets, paths: seq<PathInfo>, named: set<nat>,
                           nameMatch: string)
    returns (picked: Option<nat>)
    ensures picked.Some? ==>
      && picked.value < |paths| && Picked(collation, targets, paths, named, ModeChange, nameMatch, picked.value)
      && Wanted(targets, paths, named, ModeChange, nameMatch, picked.value)
    ensures picked.None? ==> forall i: nat :: !Wanted(targets, paths, named, ModeChange, nameMatch, i)
  {
    CandidatesAreListed(targets, paths, named, ModeChange);
    hide IsLikelyVirtualDisplay, Wanted, Candidate, Describes, Arranged, SelectVirtualDisplay;
    var displays := Describe(collation, targets, paths, named);
    var candidates := Filter(displays, (d: Descriptor) => d.isActive && IsLikelyVirtualDisplay(d));
    var selected := SelectVirtualDisplay(candidates, nameMatch);
    SelectedIsPicked(collation, targets, paths, named, displays, ModeChange, nameMatch,
                     (d: Descriptor) => d.isActive && IsLikelyVirtualDisplay(d));
    if selected.None? { return None; }
    return Some(selected.value.pathIndex);
  }

  // ----- prime -----

  // Looks once for the virtual display on the list.
  method LookForVirtualDisplay(m: Machine, nameMatch: string)
    returns (reply: Reply, path: Path, selected: Descriptor, ghost named: set<nat>, ghost answered: bool)
    requires m.Valid()
    modifies m
    ensures m.Valid() && old(m.history) <= m.history && old(m.faults) <= m.faults
    ensures m.record == old(m.record) && m.layout == old(m.layout)
    ensures m.OnlyLayouts(|old(m.history)|, m.layout, m.layout)
    ensures reply.Ok? ==> Found(m, m.layout.paths, named, nameMatch, path, selected)
    ensures SuitableThere(m.targets, m.catalogue, nameMatch) && m.faults == old(m.faults) && answered ==> reply.Ok?
    ensures old(m.verification).None? ==> m.verification.None?
  {
    hide Kept, Confirmed, Witnessed, Describes, Arranged, IsLikelyVirtualDisplay, Picked, Wanted, Suits,
         SelectVirtualDisplayForActivation, SuitableThere, AllNamed;
    path, selected := Path(0, 0), Descriptor(0, "", "", false, false, 0);
    var answers: set<nat> := *;
    var paths;
    reply, paths := m.QueryAllPaths();
    named, answered := answers, AllNamed(paths, answers);
    if !reply.Ok? { return; }
    var displays := Describe(m.collation, m.targets, paths, answers);
    var found := SelectVirtualDisplayForActivation(displays, nameMatch);
    ActivationPicks(m.collation, m.targets, paths, answers, displays, nameMatch);
    if found.None? {
      if answered && SuitableThere(m.targets, m.catalogue, nameMatch) {
        SuitableIsWanted(m.targets, m.catalogue, m.layout.paths, answers, nameMatch);
      }
      reply := Failed;
      return;
    }
    path, selected := paths[found.value.pathIndex].path, found.value;
    assert path == m.catalogue[found.value.pathIndex];
  }

  // The display picked from the list is on this path.
  ghost predicate Found(m: Machine, active: set<Path>, named: set<nat>, nameMatch: string, path: Path, d: Descriptor) {
    && (exists i: nat | i < |m.catalogue| ::
          && Picked(m.collation, m.targets, Listing(m.catalogue, active), named, Activation, nameMatch, i)
          && path == m.catalogue[i])
    && path in m.catalogue && Suits(m.targets, nameMatch, path)
    && d.devicePath == m.targets(path.target).devicePath && d.friendlyName == m.targets(path.target).friendlyName
  }

  // Waits until it is on the list.
  method WaitForVirtualDisplay(m: Machine, nameMatch: string, attempts: nat)
    returns (reply: Reply, path: Path, selected: Descriptor, ghost named: set<nat>, ghost answered: bool)
    requires m.Valid()
    modifies m
    ensures m.Valid() && old(m.history) <= m.history && old(m.faults) <= m.faults
    ensures m.record == old(m.record) && m.layout == old(m.layout)
    ensures m.OnlyLayouts(|old(m.history)|, m.layout, m.layout)
    ensures reply.Ok? ==> Found(m, m.layout.paths, named, nameMatch, path, selected)
    ensures attempts > 0 && SuitableThere(m.targets, m.catalogue, nameMatch) ==>
      (m.faults == old(m.faults) && answered ==> reply.Ok?)
    ensures old(m.verification).None? ==> m.verification.None?
  {
    hide Kept, Confirmed, Witnessed, SuitableThere, Found;
    path, selected, named, answered := Path(0, 0), Descriptor(0, "", "", false, false, 0), {}, true;
    for attempt := 0 to attempts
      invariant m.Valid() && old(m.history) <= m.history && old(m.faults) <= m.faults
      invariant m.record == old(m.record) && m.layout == old(m.layout)
      invariant m.OnlyLayouts(|old(m.history)|, m.layout, m.layout)
      invariant old(m.verification).None? ==> m.verification.None?
      invariant attempt > 0 && m.faults == old(m.faults) && answered ==>
        !SuitableThere(m.targets, m.catalogue, nameMatch)
    {
      ghost var sofar := answered;
      reply, path, selected, named, answered := LookForVirtualDisplay(m, nameMatch);
      answered := answered && sofar;
      if !reply.Failed? { return; }
    }
    reply := Failed;
  }

  lemma {:induction false} PhysicalContinues(m: Machine, earlier: seq<Moment>, n: nat)
    requires n <= |earlier| && earlier <= m.history && m.PhysicalSince(|earlier|)
    requires forall i | n <= i < |earlier| :: PhysicalActive(m.targets, earlier[i].layout)
    ensures m.PhysicalSince(n)
  {
    hide PhysicalActive;
  }

  // Only layouts with an active physical display were shown.
  lemma {:induction false} OnlyPhysicalLayouts(m: Machine, n: nat, a: Layout, b: Layout)
    requires m.OnlyLayouts(n, a, b) && PhysicalActive(m.targets, a) && PhysicalActive(m.targets, b)
    ensures m.PhysicalSince(n)
  {
    hide PhysicalActive;
  }

  // From n on, every physical display that was active on one path was active.
  ghost predicate KeptSince(targets: Targets, history: seq<Moment>, n: nat, original: set<Path>) {
    forall i | n <= i < |history| :: KeepsPhysical(targets, original, history[i].layout.paths)
  }

  lemma {:induction false} KeptContinues(targets: Targets, earlier: seq<Moment>, history: seq<Moment>, n: nat,
                                         original: set<Path>)
    requires earlier <= history && KeptSince(targets, earlier, n, original)
    requires KeptSince(targets, history, |earlier|, original)
    ensures KeptSince(targets, history, n, original)
  {
    hide KeepsPhysical;
    assert forall i | n <= i < |earlier| :: history[i] == earlier[i];
  }

  lemma {:induction false} KeptByLayouts(m: Machine, n: nat, a: Layout, b: Layout, original: set<Path>)
    requires m.OnlyLayouts(n, a, b)
    requires KeepsPhysical(m.targets, original, a.paths) && KeepsPhysical(m.targets, original, b.paths)
    ensures KeptSince(m.targets, m.history, n, original)
  {
    hide KeepsPhysical;
  }

  lemma {:induction false} KeptByPaths(m: Machine, n: nat, paths: set<Path>, original: set<Path>)
    requires SamePaths(m.history, n, paths) && KeepsPhysical(m.targets, original, paths)
    ensures KeptSince(m.targets, m.history, n, original)
  {
    hide KeepsPhysical;
  }

  lemma {:induction false} KeepsItself(targets: Targets, paths: set<Path>)
    ensures KeepsPhysical(targets, paths, paths)
  {
    hide KeyOf, HasName, Physical;
  }

  // Beside paths that were active before, one listed display that suits is active, the one
  // with this name, and a display with its device path shows the mode.
  ghost predicate ShownBeside(m: Machine, original: set<Path>, l: Layout, nameMatch: string, mode: Mode, name: string) {
    exists p, q | p in l.paths && q in l.paths ::
      && q in m.catalogue && Suits(m.targets, nameMatch, q) && l.paths - {q} <= original
      && ShowsMode(m.targets, l, mode, p, q) && m.targets(q.target).friendlyName == name
  }

  // Waits for the virtual display and adds it beside the physical ones.
  method ArrangeForVerification(m: Machine, nameMatch: string, attempts: nat)
    returns (reply: Reply, path: Path, selected: Descriptor, ghost answered: bool)
    requires m.Valid() && m.record.Some?
    modifies m
    ensures m.Valid() && old(m.history) <= m.history && m.record == old(m.record) && old(m.faults) <= m.faults
    ensures !reply.Ok? ==> m.layout == old(m.layout)
    ensures m.OnlyLayouts(|old(m.history)|, old(m.layout), m.layout)
    ensures reply.Ok? ==>
      && path in m.catalogue && Suits(m.targets, nameMatch, path)
      && selected.devicePath == m.targets(path.target).devicePath
      && selected.friendlyName == m.targets(path.target).friendlyName
      && path in m.layout.paths && m.layout.paths - {path} <= old(m.layout).paths
      && PhysicalActive(m.targets, old(m.layout)) && PhysicalActive(m.targets, m.layout)
    ensures answered ==> KeepsPhysical(m.targets, old(m.layout).paths, m.layout.paths)
    ensures attempts > 0 && SuitableThere(m.targets, m.catalogue, nameMatch)
            && PhysicalKept(m.targets, old(m.layout).paths) ==>
              (m.faults == old(m.faults) && answered ==> reply.Ok?)
    ensures old(m.verification).None? ==> m.verification.None?
  {
    hide Kept, Confirmed, Witnessed, PhysicalActive, KeepsPhysical, SuitableThere, PhysicalKept, Suits, Picked,
         KeptPhysical, AllNamed, ListsActive;
    ghost var before, listed, named := m.layout, [], {};
    KeepsItself(m.targets, before.paths);
    reply, path, selected, named, answered := WaitForVirtualDisplay(m, nameMatch, attempts);
    if !reply.Ok? { return; }
    ghost var waited := m.history;
    reply, listed, named := AddBesidePhysical(m, path);
    answered := answered && AllNamed(listed, named);
    if reply.Ok? { BesideKeeps(m.targets, listed, named, before, m.layout, path); }
    if AllNamed(listed, named) && PhysicalKept(m.targets, before.paths) {
      SomeIsKept(m.targets, listed, named, before.paths);
    }
  }

  // Adds the virtual display beside the physical ones and sets its mode. Whatever happens,
  // every physical display stays active that was so on one path of its own.
  method VerifyVirtualDisplayModeSafely(m: Machine, nameMatch: string, mode: Mode, forceSdr: bool, modeAttempts: nat,
                                        enumerationAttempts: nat)
    returns (reply: Reply, name: string, ghost answered: bool)
    requires m.Valid() && m.record.Some?
    modifies m
    ensures m.Valid() && old(m.history) <= m.history && m.record == old(m.record) && old(m.faults) <= m.faults
    ensures PhysicalActive(m.targets, old(m.layout)) ==>
      PhysicalActive(m.targets, m.layout) && m.PhysicalSince(|old(m.history)|)
    ensures answered ==>
      && KeptSince(m.targets, m.history, |old(m.history)|, old(m.layout).paths)
      && KeepsPhysical(m.targets, old(m.layout).paths, m.layout.paths)
    ensures reply.Ok? ==>
      && PhysicalActive(m.targets, old(m.layout)) && ModeShown(m.targets, m.layout, mode)
      && ShownBeside(m, old(m.layout).paths, m.layout, nameMatch, mode, name)
      && (OwnDevicePaths(m.targets, m.layout.paths) ==> VirtualShows(m.targets, m.layout, mode))
    ensures modeAttempts > 0 && enumerationAttempts > 0 && SuitableThere(m.targets, m.catalogue, nameMatch)
            && PhysicalKept(m.targets, old(m.layout).paths) ==>
              (m.faults == old(m.faults) && answered ==> reply.Ok?)
    ensures old(m.verification).None? ==> m.verification.None?
  {
    hide Kept, Confirmed, Witnessed, PhysicalActive, Machine.OnlyLayouts, SameText, OwnDevicePaths, VirtualShows,
         KeepsPhysical, KeptSince, SuitableThere, PhysicalKept, Suits, ModeShown, ShownBeside;
    ghost var n, before := |m.history|, m.layout;
    name := "";
    var path, selected;
    reply, path, selected, answered := ArrangeForVerification(m, nameMatch, enumerationAttempts);
    KeepsItself(m.targets, before.paths);
    if PhysicalActive(m.targets, before) { OnlyPhysicalLayouts(m, n, before, m.layout); }
    if answered { KeptByLayouts(m, n, before, m.layout, before.paths); }
    if !reply.Ok? { return; }
    name := selected.friendlyName;
    ghost var arranged, paths, tried := m.history, m.layout.paths, true;
    assert SameText(selected.devicePath, selected.devicePath) by { SameAsItself(selected.devicePath); }
    reply, tried := TryModes(m, selected.devicePath, mode, forceSdr, modeAttempts);
    answered := answered && tried;
    PhysicalContinues(m, arranged, n);
    if answered {
      KeptByPaths(m, |arranged|, paths, before.paths);
      KeptContinues(m.targets, arranged, m.history, n, before.paths);
    }
    if reply.Ok? { ShownBesideNow(m, before.paths, nameMatch, mode, path); }
  }

  lemma {:induction false} ShownBesideNow(m: Machine, original: set<Path>, nameMatch: string, mode: Mode, q: Path)
    requires q in m.catalogue && Suits(m.targets, nameMatch, q) && q in m.layout.paths
             && m.layout.paths - {q} <= original
    requires exists p | p in m.layout.paths ::
               SameText(m.targets(p.target).devicePath, m.targets(q.target).devicePath)
               && p.source in m.layout.modes && m.layout.modes[p.source] == mode
    ensures ShownBeside(m, original, m.layout, nameMatch, mode, m.targets(q.target).friendlyName)
            && ModeShown(m.targets, m.layout, mode)
    ensures OwnDevicePaths(m.targets, m.layout.paths) ==> VirtualShows(m.targets, m.layout, mode)
  {
    hide Virtual, SameText, OwnDevicePaths, VirtualShows, Names, IsBlank;
    var p :| p in m.layout.paths && SameText(m.targets(p.target).devicePath, m.targets(q.target).devicePath)
             && p.source in m.layout.modes && m.layout.modes[p.source] == mode;
    assert ShowsMode(m.targets, m.layout, mode, p, q);
    ShownIsVirtual(m.targets, m.layout, mode);
  }

  // The virtual display itself is in the mode.
  ghost predicate VirtualShows(targets: Targets, l: Layout, mode: Mode) {
    exists v :: v in l.paths && Virtual(targets, v) && v.source in l.modes && l.modes[v.source] == mode
  }

  // Every active display with the device path of a virtual one is one, or shows the same
  // picture as one.
  ghost predicate OwnDevicePaths(targets: Targets, paths: set<Path>) {
    forall p, q | p in paths && q in paths && Virtual(targets, q)
                  && SameText(targets(p.target).devicePath, targets(q.target).devicePath) ::
      exists v :: v in paths && Virtual(targets, v) && v.source == p.source
  }

  // What the host looks for is the virtual display in the mode, whatever modes Windows has
  // set, if and only if no other display shares a virtual one's device path.
  lemma {:induction false} ShownOnVirtualDisplay(targets: Targets, paths: set<Path>, mode: Mode)
    ensures OwnDevicePaths(targets, paths) <==>
            forall modes :: ModeShown(targets, Layout(paths, modes), mode) ==>
              VirtualShows(targets, Layout(paths, modes), mode)
  {
    hide Virtual, SameText;
    if OwnDevicePaths(targets, paths) {
      forall modes | ModeShown(targets, Layout(paths, modes), mode)
        ensures VirtualShows(targets, Layout(paths, modes), mode) {
        var l := Layout(paths, modes);
        var p, q :| p in paths && q in paths && ShowsMode(targets, l, mode, p, q);
        var v :| v in paths && Virtual(targets, v) && v.source == p.source;
        assert v in l.paths;
      }
    } else {
      var p, q :| p in paths && q in paths && Virtual(targets, q)
                  && SameText(targets(p.target).devicePath, targets(q.target).devicePath)
                  && !exists v :: v in paths && Virtual(targets, v) && v.source == p.source;
      var l := Layout(paths, map[p.source := mode]);
      assert ShowsMode(targets, l, mode, p, q);
      assert !VirtualShows(targets, l, mode);
    }
  }

  lemma {:induction false} ShownIsVirtual(targets: Targets, l: Layout, mode: Mode)
    requires ModeShown(targets, l, mode)
    ensures OwnDevicePaths(targets, l.paths) ==> VirtualShows(targets, l, mode)
  {
    hide ModeShown, VirtualShows, OwnDevicePaths;
    ShownOnVirtualDisplay(targets, l.paths, mode);
    assert l == Layout(l.paths, l.modes);
  }

  method TryModes(m: Machine, devicePath: string, mode: Mode, forceSdr: bool, attempts: nat)
    returns (reply: Reply, ghost answered: bool)
    requires m.Valid() && PhysicalActive(m.targets, m.layout)
    modifies m
    ensures m.Valid() && old(m.history) <= m.history && m.record == old(m.record) && old(m.faults) <= m.faults
    ensures PhysicalActive(m.targets, m.layout) && m.PhysicalSince(|old(m.history)|)
    ensures m.layout.paths == old(m.layout).paths && SamePaths(m.history, |old(m.history)|, old(m.layout).paths)
    ensures reply.Ok? ==> exists p | p in m.layout.paths ::
              SameText(m.targets(p.target).devicePath, devicePath)
              && p.source in m.layout.modes && m.layout.modes[p.source] == mode
    ensures attempts > 0
            && (exists p | p in old(m.layout).paths :: SameText(m.targets(p.target).devicePath, devicePath)) ==>
              (m.faults == old(m.faults) && answered ==> reply.Ok?)
    ensures old(m.verification).None? ==> m.verification.None?
  {
    hide Kept, Confirmed, Witnessed, Physical, SameText;
    ghost var paths := m.layout.paths;
    answered := true;
    for attempt := 0 to attempts
      invariant m.Valid() && old(m.history) <= m.history && m.record == old(m.record) && old(m.faults) <= m.faults
      invariant m.layout.paths == paths && SamePaths(m.history, |old(m.history)|, paths)
      invariant attempt > 0 && m.faults == old(m.faults) && answered ==>
        !exists p | p in paths :: SameText(m.targets(p.target).devicePath, devicePath)
      invariant old(m.verification).None? ==> m.verification.None?
    {
      ghost var sofar := answered;
      reply, answered := ChangeActiveMode(m, devicePath, mode, forceSdr);
      answered := answered && sofar;
      if !reply.Failed? { return; }
      var expected: bool := *;
      if !expected { return; }
    }
    reply := Failed;
  }

  // One active path of each active physical display, plus one more path. listed are the
  // active paths in Windows' order.
  method AddBesidePhysical(m: Machine, extra: Path)
    returns (reply: Reply, ghost listed: seq<PathInfo>, ghost named: set<nat>)
    requires m.Valid() && m.record.Some?
    modifies m
    ensures m.Valid() && old(m.history) <= m.history && m.record == old(m.record) && old(m.faults) <= m.faults
    ensures ListsActive(listed, old(m.layout).paths)
    ensures reply.Ok? ==>
      && KeptPhysical(m.targets, listed, named) != {}
      && m.layout.paths == KeptPhysical(m.targets, listed, named) + {extra}
    ensures m.faults == old(m.faults) ==> (reply.Ok? <==> KeptPhysical(m.targets, listed, named) != {})
    ensures !reply.Ok? ==> m.layout == old(m.layout)
    ensures m.OnlyLayouts(|old(m.history)|, old(m.layout), m.layout)
    ensures old(m.verification).None? ==> m.verification.None?
  {
    hide Kept, Confirmed, Witnessed, SelectActivePhysicalDisplaysForVerification, KeptPhysical, Describes, Arranged;
    var answers: set<nat> := *;
    named := answers;
    var active;
    reply, active := m.QueryOnlyActivePaths();
    listed := active;
    if !reply.Ok? { return; }
    var displays := Describe(m.collation, m.targets, active, answers);
    var physicalDisplays := SelectActivePhysicalDisplaysForVerification(displays);
    SomeSelectedIsKept(m.targets, active, answers, displays);
    if |physicalDisplays| == 0 { reply := Failed; return; }
    var physicalPaths := PathsOf(active, physicalDisplays);
    VerificationPaths(m.targets, active, answers, displays, physicalPaths);
    reply := m.ApplyPaths(Companion, physicalPaths + [extra]);
    assert (set p | p in physicalPaths + [extra]) == (set p | p in physicalPaths) + {extra};
  }

  // With the other path added, physical displays are active, and with all displays named
  // every one that was so on one path of its own.
  lemma {:induction false} BesideKeeps(targets: Targets, listed: seq<PathInfo>, named: set<nat>, before: Layout,
                                       after: Layout, extra: Path)
    requires ListsActive(listed, before.paths) && KeptPhysical(targets, listed, named) != {}
    requires after.paths == KeptPhysical(targets, listed, named) + {extra}
    ensures PhysicalActive(targets, before) && PhysicalActive(targets, after) && after.paths - {extra} <= before.paths
    ensures AllNamed(listed, named) ==> KeepsPhysical(targets, before.paths, after.paths)
  {
    hide KeptPhysical, ListsActive, AllNamed, KeepsPhysical, Physical;
    KeptIsPhysical(targets, listed, named, before.paths);
    var p :| p in KeptPhysical(targets, listed, named);
    if AllNamed(listed, named) { KeptKeepsPhysical(targets, listed, named, before.paths, after.paths); }
  }

  // ----- a prime -----

  // The native mode is shown on the Vita's own display, beside paths that were active before,
  // and the record names the display.
  ghost predicate NativeBeside(m: Machine, original: set<Path>, h: Moment) {
    && NativeShown(m.targets, h.layout) && h.record.Some? && h.record.value.selected.Some?
    && ShownBeside(m, original, h.layout, "MTT1337", NATIVE_MODE, h.record.value.selected.value)
    && (OwnDevicePaths(m.targets, h.layout.paths) ==> VirtualShows(m.targets, h.layout, NATIVE_MODE))
  }

  // So it was at some moment from n on.
  ghost predicate VerifiedSince(m: Machine, history: seq<Moment>, n: nat, original: set<Path>) {
    exists j | n <= j < |history| :: NativeBeside(m, original, history[j])
  }

  lemma {:induction false} VerifiedNow(m: Machine, n: nat, original: set<Path>)
    requires m.Valid() && n < |m.history| && m.record.Some? && m.record.value.selected.Some?
    requires ModeShown(m.targets, m.layout, NATIVE_MODE) && PhysicalActive(m.targets, m.layout)
    requires ShownBeside(m, original, m.layout, "MTT1337", NATIVE_MODE, m.record.value.selected.value)
    requires OwnDevicePaths(m.targets, m.layout.paths) ==> VirtualShows(m.targets, m.layout, NATIVE_MODE)
    ensures VerifiedSince(m, m.history, n, original)
  {
    hide ModeShown, PhysicalActive, ShownBeside, OwnDevicePaths, VirtualShows, Kept, Confirmed, Witnessed;
    var last := m.history[|m.history| - 1];
    assert last.layout == m.layout && last.record == m.record;
    assert NativeBeside(m, original, last);
  }

  lemma {:induction false} VerifiedStays(m: Machine, earlier: seq<Moment>, history: seq<Moment>, n: nat,
                                         original: set<Path>)
    requires earlier <= history && VerifiedSince(m, earlier, n, original)
    ensures VerifiedSince(m, history, n, original)
  {
    hide NativeBeside;
    var j :| n <= j < |earlier| && NativeBeside(m, original, earlier[j]);
    assert history[j] == earlier[j];
  }

  lemma {:induction false} ShownIsNoted(m: Machine)
    requires m.Valid() && m.record.Some? && NativeShown(m.targets, m.layout)
    ensures m.shown
  {
    hide NativeShown;
    var k := |m.history| - 1;
    assert k > 0 ==> (m.history[k].shown <==> ShownNow(m.targets, m.history[k - 1], m.history[k]));
  }

  // Shows the native mode and notes the display in the record.
  method VerifyNativeMode(m: Machine) returns (reply: Reply, ghost answered: bool)
    requires m.Valid() && m.record.Some?
    modifies m
    ensures m.Valid() && old(m.history) <= m.history && old(m.faults) <= m.faults
    ensures m.record.Some? && m.record.value.layout == old(m.record).value.layout
    ensures PhysicalActive(m.targets, old(m.layout)) ==>
      PhysicalActive(m.targets, m.layout) && m.PhysicalSince(|old(m.history)|)
    ensures answered ==>
      && KeptSince(m.targets, m.history, |old(m.history)|, old(m.layout).paths)
      && KeepsPhysical(m.targets, old(m.layout).paths, m.layout.paths)
    ensures reply.Ok? ==>
      m.shown && PhysicalActive(m.targets, old(m.layout))
      && VerifiedSince(m, m.history, |old(m.history)|, old(m.layout).paths)
    ensures SuitableThere(m.targets, m.catalogue, "MTT1337") && PhysicalKept(m.targets, old(m.layout).paths) ==>
      (m.faults == old(m.faults) && answered ==> reply.Ok?)
    ensures old(m.verification).None? ==> m.verification.None?
  {
    hide Kept, Confirmed, Witnessed, PhysicalActive, Machine.OnlyLayouts, ModeShown, KeptSince, KeepsPhysical,
         ShownBeside, OwnDevicePaths, VirtualShows, SuitableThere, PhysicalKept, VerifiedSince, NativeBeside;
    ghost var n, original := |m.history|, m.layout.paths;
    var name;
    reply, name, answered := VerifyVirtualDisplayModeSafely(m, "MTT1337", NATIVE_MODE, true, 40, 60);
    if !reply.Ok? { return; }
    ShownIsNoted(m);
    ghost var before := m.history;
    reply := m.SaveRecovery(m.record.value.(selected := Some(name)));
    OnlyPhysicalLayouts(m, |before|, m.layout, m.layout);
    PhysicalContinues(m, before, n);
    if answered {
      KeptByLayouts(m, |before|, m.layout, m.layout, original);
      KeptContinues(m.targets, before, m.history, n, original);
    }
    if reply.Ok? { VerifiedNow(m, n, original); }
  }

  // Everything a prime does between writing its record and removing it.
  method VerifyAndRestore(m: Machine) returns (reply: Reply, verified: bool, ghost answered: bool)
    requires m.Valid() && m.record.Some? && m.record.value.layout == m.layout
    modifies m
    ensures m.Valid() && old(m.history) <= m.history && old(m.faults) <= m.faults
    ensures PhysicalActive(m.targets, old(m.layout)) ==> m.PhysicalSince(|old(m.history)|)
    ensures answered ==> KeptSince(m.targets, m.history, |old(m.history)|, old(m.layout).paths)
    ensures reply.Ok? ==> m.record.None? && m.layout == old(m.layout)
    ensures !reply.Ok? ==> m.record.Some? && m.record.value.layout == old(m.layout)
    ensures verified ==>
      && PhysicalActive(m.targets, old(m.layout))
      && VerifiedSince(m, m.history, |old(m.history)|, old(m.layout).paths)
    ensures verified && reply.Ok? ==> JustRestored(m.history)
    ensures SuitableThere(m.targets, m.catalogue, "MTT1337") && PhysicalKept(m.targets, old(m.layout).paths) ==>
      (m.faults == old(m.faults) && answered ==> reply.Ok? && verified)
    ensures old(m.verification).None? ==> m.verification.None?
  {
    hide Kept, Confirmed, Witnessed, PhysicalActive, JustRestored, KeptSince, KeepsPhysical, SuitableThere,
         PhysicalKept, VerifiedSince;
    ghost var n, original := |m.history|, m.layout;
    reply, answered := VerifyNativeMode(m);
    verified := reply.Ok?;
    if reply.Stopped? { return; }
    ghost var before, shown := m.history, m.layout;
    reply := m.RestoreAndClear();
    if PhysicalActive(m.targets, original) { PhysicalContinues(m, before, n); }
    if answered {
      KeepsItself(m.targets, original.paths);
      KeptByLayouts(m, |before|, shown, original, original.paths);
      KeptContinues(m.targets, before, m.history, n, original.paths);
    }
    if verified { VerifiedStays(m, before, m.history, n, original.paths); }
  }

  // began tells whether the prime wrote its record.
  method PrimeNativeMode(m: Machine) returns (outcome: Outcome, ghost began: bool, ghost answered: bool)
    requires m.Valid()
    modifies m
    ensures m.Valid() && old(m.history) <= m.history && old(m.faults) <= m.faults
    ensures PhysicalActive(m.targets, old(m.layout)) ==> m.PhysicalSince(|old(m.history)|)
    ensures answered ==> KeptSince(m.targets, m.history, |old(m.history)|, old(m.layout).paths)
    ensures outcome.Done? ==>
      && old(m.record).None? && m.record.None? && m.layout == old(m.layout)
      && PhysicalActive(m.targets, m.layout)
      && exists j, i | |old(m.history)| <= j < i < |m.history| ::
           NativeBeside(m, old(m.layout).paths, m.history[j]) && m.history[i].confirmed
           && m.verification == Some(NativeVerification(m.hash(m.history[i].driver)))
    ensures old(m.record).None? && m.record.None? ==> m.layout == old(m.layout)
    ensures old(m.record).None? && m.record.Some? ==> m.record.value.layout == old(m.layout)
    ensures old(m.record).Some? ==> m.record == old(m.record) && m.layout == old(m.layout)
    ensures began ==> outcome.Done? || m.verification.None?
    ensures !began ==> m.layout == old(m.layout) && m.record == old(m.record)
                       && m.OnlyLayouts(|old(m.history)|, m.layout, m.layout)
    ensures m.faults == old(m.faults) ==> (began <==> old(m.record).None?)
    ensures began && SuitableThere(m.targets, m.catalogue, "MTT1337")
            && PhysicalKept(m.targets, old(m.layout).paths) ==>
              (m.faults == old(m.faults) && answered ==> outcome.Done?)
  {
    hide Kept, Confirmed, Witnessed, PhysicalActive, Machine.OnlyLayouts, JustRestored, KeptSince, KeepsPhysical,
         SuitableThere, PhysicalKept, VerifiedSince, NativeBeside;
    ghost var n, original := |m.history|, m.layout;
    var reply := BeginPrime(m);
    began, answered := reply.Ok?, true;
    KeepsItself(m.targets, original.paths);
    KeptByLayouts(m, n, original, original, original.paths);
    if PhysicalActive(m.targets, original) { OnlyPhysicalLayouts(m, n, original, original); }
    if !reply.Ok? { outcome := Ended(reply); return; }
    ghost var before := m.history;
    var verified;
    reply, verified, answered := VerifyAndRestore(m);
    if PhysicalActive(m.targets, original) { PhysicalContinues(m, before, n); }
    if answered { KeptContinues(m.targets, before, m.history, n, original.paths); }
    if reply.Stopped? { outcome := Halted; return; }
    if reply.Failed? || !verified { outcome := Error; return; }
    ghost var restored := m.history;
    outcome := CompletePrime(m, n, |before|, original);
    KeptByLayouts(m, |restored|, original, original, original.paths);
    if answered { KeptContinues(m.targets, restored, m.history, n, original.paths); }
    if PhysicalActive(m.targets, original) {
      OnlyPhysicalLayouts(m, |restored|, original, original);
      PhysicalContinues(m, restored, n);
    }
  }

  // Discards the old verification before the lock is taken.
  method BeginPrime(m: Machine) returns (reply: Reply)
    requires m.Valid()
    modifies m
    ensures m.Valid() && old(m.history) <= m.history && m.layout == old(m.layout) && old(m.faults) <= m.faults
    ensures m.OnlyLayouts(|old(m.history)|, m.layout, m.layout)
    ensures reply.Ok? ==> old(m.record).None? && m.record.Some? && m.record.value.layout == m.layout
    ensures reply.Ok? ==> m.verification.None?
    ensures !reply.Ok? ==> m.record == old(m.record)
    ensures m.faults == old(m.faults) ==> (reply.Ok? <==> old(m.record).None?)
  {
    hide Kept, Confirmed, Witnessed;
    reply := m.Invalidate();
    if !reply.Ok? { return; }
    var refused;
    reply, refused := BeginTransaction(m, NATIVE_MODE);
    if refused { return Failed; }
  }

  // Records the configuration of a prime that was verified and restored.
  method CompletePrime(m: Machine, ghost n: nat, ghost k: nat, ghost original: Layout) returns (outcome: Outcome)
    requires m.Valid() && m.record.None? && m.layout == original && JustRestored(m.history)
    requires n <= k && VerifiedSince(m, m.history, k, original.paths)
    modifies m
    ensures m.Valid() && old(m.history) <= m.history && old(m.faults) <= m.faults
    ensures m.record.None? && m.layout == original && m.OnlyLayouts(|old(m.history)|, original, original)
    ensures outcome.Done? ==> exists j, i | n <= j < i < |m.history| ::
              NativeBeside(m, original.paths, m.history[j]) && m.history[i].confirmed
              && m.verification == Some(NativeVerification(m.hash(m.history[i].driver)))
    ensures !outcome.Done? && old(m.verification).None? ==> m.verification.None?
    ensures m.faults == old(m.faults) ==> outcome.Done?
  {
    hide Kept, Confirmed, Witnessed, NativeBeside, JustRestored;
    ghost var before := m.history;
    ghost var j :| k <= j < |before| && NativeBeside(m, original.paths, before[j]);
    var reply := m.RecordCurrent();
    assert m.history[j] == before[j];
    outcome := if reply.Ok? then Done else Ended(reply);
  }
}
