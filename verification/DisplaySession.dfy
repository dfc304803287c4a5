/** The display-session transaction: a recovery record is written before the host
    changes the display layout and removed only after the layout is restored.

    Every call into Windows or the file system may fail, and the process may stop at any
    of them (Stopped). Each file write or deletion is one step. Operations on one
    machine run one after the other, because they hold the session lock; what other
    processes may do without the lock (discard the verification record, rewrite the
    driver configuration) may happen at any call. */
module DisplaySession {
  import opened HostText
  import opened Displays

  datatype Mode = Mode(width: int, height: int, fps: int)

  const NATIVE_MODE := Mode(960, 544, 60)
  const SUPPORTED_MODES: seq<Mode> := [NATIVE_MODE, Mode(960, 540, 60), Mode(1280, 720, 60)]

  // The active paths and the mode of each source.
  datatype Layout = Layout(paths: set<Path>, modes: map<nat, Mode>)

  datatype Record = Record(layout: Layout, selected: Option<string>, requested: Mode)

  datatype Verification = Verification(version: int, mode: Mode, configurationHash: string)

  const VERIFICATION_VERSION := 1

  function NativeVerification(configurationHash: string): Verification {
    Verification(VERIFICATION_VERSION, NATIVE_MODE, configurationHash)
  }

  // DriverNativeModeVerification.Matches
  predicate Matches(v: Verification, configurationHash: string) {
    v.version == VERIFICATION_VERSION && v.mode == NATIVE_MODE
    && v.configurationHash != "" && v.configurationHash == configurationHash
  }

  datatype Actor = Companion | Windows | Emergency

  // The state after one step. baseline is the layout of the last moment without a
  // record; shown says that the native mode was shown since the present record was
  // written; confirmed marks the moment at which the driver configuration is read that
  // a verification will record.
  datatype Moment = Moment(actor: Actor, confirmed: bool, shown: bool,
                           layout: Layout, baseline: Layout, record: Option<Record>,
                           verification: Option<Verification>, driver: string)

  // What every step keeps.
  ghost predicate StepKept(a: Moment, b: Moment) {
    && b.baseline == (if b.record.None? then b.layout else a.baseline)
    && (b.record.Some? ==> b.record.value.layout == b.baseline)
    && (a.record.None? && b.record.Some? ==> b.actor.Companion? && b.layout == a.layout)
    && (b.actor.Companion? && a.record.None? ==> b.layout.paths == a.layout.paths)
    && (b.actor.Companion? && a.record.Some? && b.record.None? ==> b.layout == a.record.value.layout)
    && (b.confirmed ==> b.actor.Companion? && b.record.None? && b.layout == a.layout)
  }

  ghost predicate Kept(history: seq<Moment>) {
    && |history| > 0
    && history[0].record.None? && history[0].baseline == history[0].layout
    && forall i | 0 < i < |history| :: StepKept(history[i - 1], history[i])
  }

  ghost predicate Confirmed(history: seq<Moment>, hash: string -> string, v: Verification) {
    exists i | 0 <= i < |history| :: history[i].confirmed && v == NativeVerification(hash(history[i].driver))
  }

  ghost predicate PhysicalActive(targets: Targets, l: Layout) {
    exists p :: p in l.paths && Physical(targets, p)
  }

  // A virtual display is active, and a display with its device path shows the mode.
  ghost predicate ModeShown(targets: Targets, l: Layout, mode: Mode) {
    exists p, q :: p in l.paths && q in l.paths && ShowsMode(targets, l, mode, p, q)
  }

  predicate ShowsMode(targets: Targets, l: Layout, mode: Mode, p: Path, q: Path) {
    && Virtual(targets, q)
    && SameText(targets(p.target).devicePath, targets(q.target).devicePath)
    && p.source in l.modes && l.modes[p.source] == mode
  }

  // The native mode is shown beside an active physical display.
  ghost predicate NativeShown(targets: Targets, l: Layout) {
    ModeShown(targets, l, NATIVE_MODE) && PhysicalActive(targets, l)
  }

  ghost predicate ShownNow(targets: Targets, a: Moment, b: Moment) {
    b.record.Some? && (a.shown || NativeShown(targets, b.layout))
  }

  // The last step: the companion has put the layout back and removed the record of a
  // transaction in which the native mode was shown.
  predicate JustRestored(history: seq<Moment>) {
    |history| >= 2 &&
    var a, b := history[|history| - 2], history[|history| - 1];
    a.shown && a.record.Some? && b.record.None? && b.actor.Companion? && !b.confirmed
  }

  // A step by somebody who does not hold the session lock.
  predicate Outside(a: Moment, b: Moment) {
    b.actor.Windows? && !b.confirmed && b.record == a.record && b.layout == a.layout
  }

  // The driver configuration may be read for a verification: right after such a step, or
  // with one step from outside in between.
  predicate MayConfirm(history: seq<Moment>) {
    || JustRestored(history)
    || (|history| >= 3 && JustRestored(history[..|history| - 1])
        && Outside(history[|history| - 2], history[|history| - 1]))
  }

  ghost predicate Witnessed(history: seq<Moment>, targets: Targets) {
    && (|history| > 0 ==> !history[0].shown && !history[0].confirmed)
    && (forall i | 0 < i < |history| :: history[i].shown <==> ShownNow(targets, history[i - 1], history[i]))
    && (forall i | 0 <= i < |history| && history[i].confirmed :: MayConfirm(history[..i]))
  }

  // ----- what the kept steps mean over a whole history -----

  ghost function LastWithoutRecord(history: seq<Moment>): Layout
    requires Kept(history)
  {
    if |history| == 1 || history[|history| - 1].record.None? then history[|history| - 1].layout
    else LastWithoutRecord(history[..|history| - 1])
  }

  // A record that exists holds the layout of the last moment at which none existed.
  lemma {:induction false} RecordHoldsTheOriginal(history: seq<Moment>)
    requires Kept(history)
    ensures history[|history| - 1].baseline == LastWithoutRecord(history)
    ensures history[|history| - 1].record.Some? ==>
              history[|history| - 1].record.value.layout == LastWithoutRecord(history)
    decreases |history|
  {
    var n := |history|;
    if n > 1 {
      assert StepKept(history[n - 2], history[n - 1]);
      RecordHoldsTheOriginal(history[..n - 1]);
    }
  }

  // As long as only the companion acts, the active paths at moments without a record are
  // always the same, and a record in between holds exactly those.
  lemma {:induction false} CompanionConservesPaths(history: seq<Moment>, i: nat, j: nat)
    requires Kept(history) && i <= j < |history| && history[i].record.None?
    requires forall k | i < k <= j :: history[k].actor.Companion?
    ensures history[j].record.None? ==> history[j].layout.paths == history[i].layout.paths
    ensures history[j].record.Some? ==> history[j].record.value.layout.paths == history[i].layout.paths
    decreases j
  {
    if i < j {
      CompanionConservesPaths(history, i, j - 1);
      var a, b := history[j - 1], history[j];
      assert StepKept(a, b);
      BaselineOfMoment(history, j - 1);
    }
  }

  lemma {:induction false} BaselineOfMoment(history: seq<Moment>, i: nat)
    requires Kept(history) && i < |history|
    ensures history[i].record.None? ==> history[i].baseline == history[i].layout
    ensures history[i].record.Some? ==> history[i].record.value.layout == history[i].baseline
  {
    if i > 0 { assert StepKept(history[i - 1], history[i]); }
  }

  // A pending record was written by the companion and has been there since.
  lemma {:induction false} RecordBegan(history: seq<Moment>, k: nat) returns (b: nat)
    requires Kept(history) && k < |history| && history[k].record.Some?
    ensures 0 < b <= k && history[b - 1].record.None? && history[b].actor.Companion?
    ensures forall m | b <= m <= k :: history[m].record.Some?
  {
    assert StepKept(history[k - 1], history[k]);
    if history[k - 1].record.None? {
      b := k;
    } else {
      b := RecordBegan(history, k - 1);
    }
  }

  lemma {:induction false} ShownUnderRecord(history: seq<Moment>, targets: Targets, b: nat, k: nat) returns (j: nat)
    requires Witnessed(history, targets) && 0 < b <= k < |history| && history[k].shown
    requires history[b - 1].record.None? && forall m | b <= m <= k :: history[m].record.Some?
    ensures b <= j <= k && NativeShown(targets, history[j].layout)
  {
    hide NativeShown;
    assert ShownNow(targets, history[k - 1], history[k]);
    assert b > 1 ==> (history[b - 1].shown <==> ShownNow(targets, history[b - 2], history[b - 1]));
    if NativeShown(targets, history[k].layout) {
      j := k;
    } else {
      j := ShownUnderRecord(history, targets, b, k - 1);
    }
  }

  // A prime from one moment to another: the companion writes a record at b, the native
  // mode is shown beside a physical display at j, the companion removes the record at k
  // with the layout from before b active again, and at i, with no other step of the
  // companion or of a recovery in between and at most one from outside, the driver
  // configuration is read.
  ghost predicate PrimeRun(history: seq<Moment>, targets: Targets, b: nat, j: nat, k: nat, i: nat) {
    && 0 < b <= j < k < i < |history| && i <= k + 2
    && history[b - 1].record.None? && history[b].actor.Companion?
    && (forall m | b <= m < k ::
          history[m].record.Some? && history[m].record.value.layout == history[b - 1].layout && !history[m].confirmed)
    && NativeShown(targets, history[j].layout)
    && history[k].actor.Companion? && history[k].record.None? && history[k].layout == history[b - 1].layout
    && !history[k].confirmed
    && (forall m | k < m < i :: Outside(history[m - 1], history[m]))
    && history[i].confirmed && history[i].record.None? && history[i].layout == history[k].layout
  }

  lemma {:induction false} RecordOf(history: seq<Moment>, b: nat, m: nat)
    requires Kept(history) && 0 < b <= m < |history| && history[b - 1].record.None?
    requires forall n | b <= n <= m :: history[n].record.Some?
    ensures history[m].record.value.layout == history[b - 1].layout && !history[m].confirmed
    ensures history[m].baseline == history[b - 1].layout
  {
    assert StepKept(history[m - 1], history[m]);
    if b == m { BaselineOfMoment(history, b - 1); } else { RecordOf(history, b, m - 1); }
  }

  lemma {:induction false} EveryConfirmationIsAPrime(history: seq<Moment>, targets: Targets, i: nat)
    returns (b: nat, j: nat, k: nat)
    requires Kept(history) && Witnessed(history, targets) && i < |history| && history[i].confirmed
    ensures PrimeRun(history, targets, b, j, k, i)
  {
    hide NativeShown;
    assert MayConfirm(history[..i]);
    if JustRestored(history[..i]) {
      k := i - 1;
      assert history[..i][i - 1] == history[i - 1] && history[..i][i - 2] == history[i - 2];
    } else {
      k := i - 2;
      assert history[..i][..i - 1][i - 2] == history[i - 2] && history[..i][..i - 1][i - 3] == history[i - 3];
      assert history[..i][i - 1] == history[i - 1] && history[..i][i - 2] == history[i - 2];
    }
    b := RecordBegan(history, k - 1);
    j := ShownUnderRecord(history, targets, b, k - 1);
    forall m | b <= m < k
      ensures history[m].record.Some?
              && history[m].record.value.layout == history[b - 1].layout && !history[m].confirmed
    {
      RecordOf(history, b, m);
    }
    assert StepKept(history[k - 1], history[k]) && StepKept(history[i - 1], history[i]);
  }

  // A verification accepted for the present driver configuration was made from exactly
  // that configuration, read at the end of a verified and restored prime.
  lemma {:induction false} AcceptedConfigurationWasConfirmed(history: seq<Moment>, targets: Targets,
          hash: string -> string,
                                          v: Verification, driver: string)
    requires forall a, b :: hash(a) == hash(b) ==> a == b
    requires Kept(history) && Witnessed(history, targets)
    requires Confirmed(history, hash, v) && Matches(v, hash(driver))
    ensures exists b: nat, j: nat, k: nat, i: nat ::
            PrimeRun(history, targets, b, j, k, i) && history[i].driver == driver
  {
    hide Kept, Witnessed, PrimeRun;
    var i: nat :| i < |history| && history[i].confirmed && v == NativeVerification(hash(history[i].driver));
    assert hash(history[i].driver) == hash(driver);
    var b, j, k := EveryConfirmationIsAPrime(history, targets, i);
  }

  // A verification is accepted for the configuration that a prime recorded, and for no other.
  lemma {:induction false} OnlyItsOwnMatches(v: Verification, configurationHash: string)
    ensures Matches(v, configurationHash) <==>
            configurationHash != "" && v == Verification(1, Mode(960, 544, 60), configurationHash)
    ensures NativeVerification(configurationHash) == Verification(1, Mode(960, 544, 60), configurationHash)
  {
  }

  // ----- the machine -----

  datatype Reply = Ok | Failed | Stopped

  function Fault(reply: Reply): nat {
    if reply.Ok? then 0 else 1
  }

  datatype Outcome = Done | Refused | Error | Halted

  function Ended(reply: Reply): Outcome {
    if reply.Stopped? then Halted else Error
  }

  predicate ValidStreamMode(m: Mode) {
    64 <= m.width <= 7680 && 64 <= m.height <= 4320 && 24 <= m.fps <= 240
  }

  class Machine {
    const targets: Targets
    const collation: Collation
    const catalogue: seq<Path>
    const hash: string -> string
    var layout: Layout
    var record: Option<Record>
    var verification: Option<Verification>
    var driver: string
    ghost var baseline: Layout
    ghost var shown: bool
    ghost var history: seq<Moment>
    ghost var faults: nat // how many calls have failed or were the last one

    ghost predicate Valid()
      reads this
    {
      && Kept(history)
      && Current(history[|history| - 1])
      && (verification.Some? ==> Confirmed(history, hash, verification.value))
      && Witnessed(history, targets)
    }

    ghost predicate Current(m: Moment)
      reads this
    {
      && m.layout == layout && m.baseline == baseline && m.shown == shown && m.record == record
      && m.verification == verification && m.driver == driver
    }

    // A machine that has never been configured.
    constructor (targets: Targets, collation: Collation, catalogue: seq<Path>, hash: string -> string, layout: Layout,
                 driver: string)
      ensures Valid() && fresh(this) && faults == 0 && this.layout == layout && record == None && verification == None
      ensures this.targets == targets && this.collation == collation && this.catalogue == catalogue && this.hash == hash
    {
      this.targets, this.collation, this.catalogue, this.hash := targets, collation, catalogue, hash;
      this.layout, this.driver := layout, driver;
      record, verification := None, None;
      baseline, shown := layout, false;
      history := [Moment(Windows, false, false, layout, layout, None, None, driver)];
      faults := 0;
    }

    // Notes the state after a step.
    ghost method Note(actor: Actor, confirmed: bool)
      requires Kept(history) && baseline == history[|history| - 1].baseline
      requires var b := if record.None? then layout else baseline;
               StepKept(history[|history| - 1],
                        Moment(actor, confirmed, shown, layout, b, record, verification, driver))
      requires verification.Some? ==>
        Confirmed(history, hash, verification.value)
        || (confirmed && verification.value == NativeVerification(hash(driver)))
      requires Witnessed(history, targets) && (confirmed ==> MayConfirm(history))
      modifies this`history, this`baseline, this`shown
      ensures Valid()
      ensures old(history[|history| - 1].shown) && record.Some? ==> shown
      ensures history == old(history)
              + [Moment(actor, confirmed, shown, layout, baseline, record, verification, driver)]
    {
      hide Witnessed, MayConfirm, NativeShown;
      baseline := if record.None? then layout else baseline;
      shown := record.Some? && (history[|history| - 1].shown || NativeShown(targets, layout));
      var m := Moment(actor, confirmed, shown, layout, baseline, record, verification, driver);
      var was := history;
      history := history + [m];
      WitnessedStays(was, m, targets);
      assert forall i | 0 <= i < |was| :: history[i] == was[i];
      if verification.Some? { ConfirmedGrows(was, m, hash, verification.value); }
    }

    // The last moments, from n on, show no other layouts than these two.
    ghost predicate OnlyLayouts(n: nat, a: Layout, b: Layout)
      reads this
    {
      n <= |history| && forall i | n <= i < |history| :: history[i].layout == a || history[i].layout == b
    }

    ghost predicate PhysicalSince(n: nat)
      reads this
    {
      n <= |history| && forall i | n <= i < |history| :: PhysicalActive(targets, history[i].layout)
    }

    // There was no step, or one from outside.
    ghost predicate Interrupted(before: seq<Moment>, after: seq<Moment>) {
      || after == before
      || (before != [] && |after| == |before| + 1 && before <= after
          && Outside(before[|before| - 1], after[|before|]))
    }

    // What processes without the session lock may do meanwhile.
    method Interfere()
      requires Valid()
      modifies this
      ensures Valid() && old(history) <= history && faults == old(faults)
      ensures layout == old(layout) && record == old(record) && (old(shown) && record.Some? ==> shown)
      ensures OnlyLayouts(|old(history)|, layout, layout) && Interrupted(old(history), history)
      ensures old(verification).None? ==> verification.None?
    {
      var acts: bool := *;
      if acts {
        var discards: bool := *;
        if discards { verification := None; }
        driver := *;
        NoteUnchanged(Windows);
      }
    }

    // A step that changes neither layout nor record.
    ghost method NoteUnchanged(actor: Actor)
      requires Kept(history) && baseline == history[|history| - 1].baseline
      requires layout == history[|history| - 1].layout && record == history[|history| - 1].record
      requires Witnessed(history, targets)
      requires verification.Some? ==> Confirmed(history, hash, verification.value)
      modifies this`history, this`baseline, this`shown
      ensures Valid()
      ensures old(history[|history| - 1].shown) && record.Some? ==> shown
      ensures history == old(history) + [Moment(actor, false, shown, layout, baseline, record, verification, driver)]
      ensures OnlyLayouts(|old(history)|, layout, layout)
    {
      hide Witnessed, Confirmed, MayConfirm, NativeShown;
      BaselineOfMoment(history, |history| - 1);
      Note(actor, false);
    }

    // ----- calls -----

    // A call that changes nothing itself: acquiring the lock, reading, waiting.
    method Call() returns (reply: Reply)
      requires Valid()
      modifies this
      ensures Valid() && old(history) <= history && faults == old(faults) + Fault(reply)
      ensures layout == old(layout) && record == old(record) && (old(shown) && record.Some? ==> shown)
      ensures OnlyLayouts(|old(history)|, layout, layout) && Interrupted(old(history), history)
      ensures old(verification).None? ==> verification.None?
    {
      hide Kept, Confirmed, Witnessed;
      Interfere();
      reply := *;
      faults := faults + Fault(reply);
    }

    method SetLayout(actor: Actor, l: Layout) returns (reply: Reply)
      requires Valid() && (actor.Emergency? || (actor.Companion? && record.Some?))
      modifies this
      ensures Valid() && old(history) <= history && faults == old(faults) + Fault(reply)
      ensures layout == (if reply.Ok? then l else old(layout)) && record == old(record)
      ensures old(shown) && record.Some? ==> shown
      ensures OnlyLayouts(|old(history)|, old(layout), layout)
      ensures old(verification).None? ==> verification.None?
    {
      hide Witnessed, Confirmed, MayConfirm, NativeShown, Interrupted;
      reply := Call();
      if reply.Ok? {
        BaselineOfMoment(history, |history| - 1);
        layout := l;
        Note(actor, false);
      }
    }

    // ApplyPaths: exactly the supplied paths become active, in modes Windows chooses.
    method ApplyPaths(actor: Actor, paths: seq<Path>) returns (reply: Reply)
      requires Valid() && (actor.Emergency? || (actor.Companion? && record.Some?))
      modifies this
      ensures Valid() && old(history) <= history && faults == old(faults) + Fault(reply) && record == old(record)
      ensures reply.Ok? ==> paths != [] && layout.paths == (set p | p in paths)
      ensures !reply.Ok? ==> layout == old(layout)
      ensures OnlyLayouts(|old(history)|, old(layout), layout)
      ensures old(verification).None? ==> verification.None?
    {
      if paths == [] {
        faults := faults + 1;
        return Failed;
      }
      var modes: map<nat, Mode> := *;
      reply := SetLayout(actor, Layout((set p | p in paths), modes));
    }

    // The mode of one source of the desktop; the active paths stay.
    method ChangeSourceMode(source: nat, mode: Mode) returns (reply: Reply)
      requires Valid()
      modifies this
      ensures Valid() && old(history) <= history && faults == old(faults) + Fault(reply) && record == old(record)
      ensures layout == if reply.Ok? then Layout(old(layout).paths, old(layout).modes[source := mode]) else old(layout)
      ensures OnlyLayouts(|old(history)|, old(layout), layout)
      ensures old(verification).None? ==> verification.None?
    {
      hide Witnessed, Confirmed, MayConfirm, NativeShown, Interrupted;
      reply := Call();
      if reply.Ok? {
        BaselineOfMoment(history, |history| - 1);
        layout := Layout(layout.paths, layout.modes[source := mode]);
        Note(Companion, false);
      }
    }

    method QueryAllPaths() returns (reply: Reply, paths: seq<PathInfo>)
      requires Valid()
      modifies this
      ensures Valid() && old(history) <= history && faults == old(faults) + Fault(reply)
      ensures layout == old(layout) && record == old(record)
      ensures OnlyLayouts(|old(history)|, layout, layout)
      ensures paths == Listing(catalogue, old(layout).paths)
      ensures old(verification).None? ==> verification.None?
    {
      hide Kept, Confirmed, Witnessed;
      reply := Call();
      paths := Listing(catalogue, layout.paths);
    }

    method QueryOnlyActivePaths() returns (reply: Reply, paths: seq<PathInfo>)
      requires Valid()
      modifies this
      ensures Valid() && old(history) <= history && faults == old(faults) + Fault(reply)
      ensures layout == old(layout) && record == old(record)
      ensures OnlyLayouts(|old(history)|, layout, layout)
      ensures forall i | 0 <= i < |paths| :: paths[i].active
      ensures layout.paths == (set i | 0 <= i < |paths| :: paths[i].path) && DistinctPaths(paths)
      ensures old(verification).None? ==> verification.None?
    {
      hide Kept, Confirmed, Witnessed;
      reply := Call();
      paths := [];
      var rest := layout.paths;
      while rest != {}
        invariant forall i | 0 <= i < |paths| :: paths[i].active
        invariant layout.paths == rest + (set i | 0 <= i < |paths| :: paths[i].path)
        invariant DistinctPaths(paths) && forall i | 0 <= i < |paths| :: paths[i].path !in rest
        decreases rest
      {
        var p :| p in rest;
        rest := rest - {p};
        ghost var was := paths;
        paths := paths + [PathInfo(p, true)];
        assert forall i | 0 <= i < |was| :: paths[i] == was[i];
        assert paths[|was|].path == p;
      }
    }

    // The user, or Windows on its own, arranges the displays differently.
    method Rearrange(l: Layout)
      requires Valid()
      modifies this
      ensures Valid() && old(history) <= history && faults == old(faults) && layout == l && record == old(record)
    {
      BaselineOfMoment(history, |history| - 1);
      layout := l;
      Note(Windows, false);
    }

    // ----- the recovery record -----

    method CaptureRecovery(requested: Mode) returns (reply: Reply, recovery: Record)
      requires Valid()
      modifies this
      ensures Valid() && old(history) <= history && faults == old(faults) + Fault(reply)
      ensures layout == old(layout) && record == old(record)
      ensures OnlyLayouts(|old(history)|, layout, layout)
      ensures recovery == Record(old(layout), None, requested)
      ensures old(verification).None? ==> verification.None?
    {
      reply := Call();
      recovery := Record(layout, None, requested);
    }

    method SaveRecovery(recovery: Record) returns (reply: Reply)
      requires Valid()
      requires recovery.layout == if record.Some? then record.value.layout else layout
      modifies this
      ensures Valid() && old(history) <= history && faults == old(faults) + Fault(reply) && layout == old(layout)
      ensures record == (if reply.Ok? then Some(recovery) else old(record))
              && (reply.Ok? ==> |history| > |old(history)|)
      ensures old(shown) && old(record).Some? ==> shown
      ensures OnlyLayouts(|old(history)|, layout, layout)
      ensures old(verification).None? ==> verification.None?
    {
      hide Witnessed, Confirmed, MayConfirm, NativeShown, Interrupted;
      reply := Call();
      if reply.Ok? {
        BaselineOfMoment(history, |history| - 1);
        record := Some(recovery);
        Note(Companion, false);
      }
    }

    method ClearRecovery(actor: Actor) returns (reply: Reply)
      requires Valid()
      requires actor.Emergency? || (actor.Companion? && (record.Some? ==> layout == record.value.layout))
      modifies this
      ensures Valid() && old(history) <= history && faults == old(faults) + Fault(reply) && layout == old(layout)
      ensures record == if reply.Ok? then None else old(record)
      ensures reply.Ok? && actor.Companion? && old(shown) && old(record).Some? ==> JustRestored(history)
      ensures OnlyLayouts(|old(history)|, layout, layout)
      ensures old(verification).None? ==> verification.None?
    {
      hide Witnessed, Confirmed, MayConfirm, NativeShown, Interrupted;
      reply := Call();
      if reply.Ok? {
        BaselineOfMoment(history, |history| - 1);
        record := None;
        Note(actor, false);
      }
    }

    // Reads the record and applies exactly what it holds.
    method Restore() returns (reply: Reply)
      requires Valid()
      modifies this
      ensures Valid() && old(history) <= history && faults == old(faults) + Fault(reply) && record == old(record)
      ensures reply.Ok? ==> record.Some? && layout == record.value.layout
      ensures old(shown) && record.Some? ==> shown
      ensures !reply.Ok? ==> layout == old(layout)
      ensures OnlyLayouts(|old(history)|, old(layout), layout)
      ensures old(verification).None? ==> verification.None?
    {
      hide Kept, Confirmed, Witnessed;
      reply := Call();
      if !reply.Ok? { return; }
      if record.None? {
        faults := faults + 1;
        return Failed;
      }
      reply := SetLayout(Companion, record.value.layout);
    }

    method RestoreAndClear() returns (reply: Reply)
      requires Valid()
      modifies this
      ensures Valid() && old(history) <= history && faults == old(faults) + Fault(reply)
      ensures reply.Ok? ==> old(record).Some? && layout == old(record).value.layout && record == None
      ensures reply.Ok? && old(shown) ==> JustRestored(history)
      ensures !reply.Ok? ==> record == old(record)
      ensures forall i | |old(history)| <= i < |history| ::
                history[i].layout == old(layout) || (old(record).Some? && history[i].layout == old(record).value.layout)
      ensures old(verification).None? ==> verification.None?
    {
      hide Kept, Confirmed, Witnessed;
      reply := Restore();
      if !reply.Ok? { return; }
      reply := ClearRecovery(Companion);
    }

    // ----- the verification record -----

    method Invalidate() returns (reply: Reply)
      requires Valid()
      modifies this
      ensures Valid() && old(history) <= history && faults == old(faults) + Fault(reply)
      ensures layout == old(layout) && record == old(record)
      ensures OnlyLayouts(|old(history)|, layout, layout)
      ensures reply.Ok? ==> verification == None
    {
      reply := Call();
      if reply.Ok? {
        verification := None;
        NoteUnchanged(Companion);
      }
    }

    // Called only by a prime that has just been verified and restored.
    method RecordCurrent() returns (reply: Reply)
      requires Valid() && record.None? && JustRestored(history)
      modifies this
      ensures Valid() && old(history) <= history && faults == old(faults) + Fault(reply)
      ensures layout == old(layout) && record == None
      ensures OnlyLayouts(|old(history)|, layout, layout)
      ensures reply.Ok? ==> exists i | |old(history)| <= i < |history| ::
                history[i].confirmed && verification == Some(NativeVerification(hash(history[i].driver)))
      ensures !reply.Ok? && old(verification).None? ==> verification.None?
    {
      hide Kept, Confirmed, Witnessed, JustRestored;
      reply := Call();
      if !reply.Ok? { return; }
      StillMayConfirm(old(history), history);
      var configurationHash := ReadConfiguration();
      ghost var at := |history| - 1;
      ghost var noted := history;
      reply := Call();
      assert history[at] == noted[at];
      if reply.Ok? {
        ghost var before := history;
        StoreVerification(configurationHash, at);
        assert history[at] == before[at];
      }
    }

    // The configuration as it is at this moment.
    method ReadConfiguration() returns (configurationHash: string)
      requires Valid() && record.None? && MayConfirm(history)
      modifies this
      ensures Valid() && old(history) <= history && faults == old(faults)
      ensures layout == old(layout) && record == None
      ensures OnlyLayouts(|old(history)|, layout, layout)
      ensures |history| > |old(history)|
      ensures history[|history| - 1].confirmed && configurationHash == hash(history[|history| - 1].driver)
      ensures verification == old(verification)
    {
      hide Witnessed, MayConfirm, Confirmed;
      configurationHash := hash(driver);
      BaselineOfMoment(history, |history| - 1);
      Note(Companion, true);
    }

    method StoreVerification(configurationHash: string, ghost at: nat)
      requires Valid() && at < |history| && history[at].confirmed && configurationHash == hash(history[at].driver)
      modifies this
      ensures Valid() && old(history) <= history && faults == old(faults)
      ensures layout == old(layout) && record == old(record)
      ensures OnlyLayouts(|old(history)|, layout, layout)
      ensures verification == Some(NativeVerification(configurationHash))
    {
      hide Witnessed;
      verification := Some(NativeVerification(configurationHash));
      assert Confirmed(history, hash, verification.value);
      NoteUnchanged(Companion);
    }

    // May the present driver configuration be taken as verified?
    method IsCurrent() returns (current: bool)
      requires Valid()
      modifies this
      ensures Valid() && old(history) <= history && old(faults) <= faults
      ensures layout == old(layout) && record == old(record)
      ensures current ==> verification.Some? && Matches(verification.value, hash(driver))
      ensures faults == old(faults) ==> (current <==> verification.Some? && Matches(verification.value, hash(driver)))
    {
      hide Kept, Confirmed, Witnessed, Matches;
      var reply := Call();
      if !reply.Ok? || verification.None? { return false; }
      return Matches(verification.value, hash(driver));
    }
  }

  lemma {:induction false} StillMayConfirm(before: seq<Moment>, after: seq<Moment>)
    requires JustRestored(before)
    requires after == before ||
             (|after| == |before| + 1 && before <= after && Outside(before[|before| - 1], after[|before|]))
    ensures MayConfirm(after)
  {
    hide JustRestored;
    if after != before { assert after[..|after| - 1] == before; }
    assert |before| >= 2 by { RestoredIsLong(before); }
  }

  lemma {:induction false} RestoredIsLong(history: seq<Moment>)
    requires JustRestored(history)
    ensures |history| >= 2
  {
  }

  lemma {:induction false} ConfirmedGrows(history: seq<Moment>, m: Moment, hash: string -> string, v: Verification)
    requires Confirmed(history, hash, v) || (m.confirmed && v == NativeVerification(hash(m.driver)))
    ensures Confirmed(history + [m], hash, v)
  {
    if Confirmed(history, hash, v) {
      ConfirmedStays(history, m, hash, v);
    } else {
      assert (history + [m])[|history|] == m;
    }
  }

  lemma {:induction false} ConfirmedStays(history: seq<Moment>, m: Moment, hash: string -> string, v: Verification)
    requires Confirmed(history, hash, v)
    ensures Confirmed(history + [m], hash, v)
  {
    var i :| 0 <= i < |history| && history[i].confirmed && v == NativeVerification(hash(history[i].driver));
    assert (history + [m])[i] == history[i];
  }

  lemma {:induction false} WitnessedStays(history: seq<Moment>, m: Moment, targets: Targets)
    requires |history| > 0 && Witnessed(history, targets) && (m.confirmed ==> MayConfirm(history))
    requires m.shown <==> ShownNow(targets, history[|history| - 1], m)
    ensures Witnessed(history + [m], targets)
  {
    hide MayConfirm, NativeShown;
    var all := history + [m];
    forall i | 0 <= i < |all| && all[i].confirmed ensures MayConfirm(all[..i]) {
      assert all[..i] == if i < |history| then history[..i] else history;
    }
  }
}
