/** The emergency recovery of physical displays. It takes no session lock, so it may run
    between any two operations that do. */
module EmergencyRecovery {
  import opened HostText
  import opened Displays
  import opened DisplayChoice
  import opened DisplaySession

  // Some listed display is available and physical, whichever of its paths is asked.
  ghost predicate PhysicalAvailable(targets: Targets, catalogue: seq<Path>) {
    exists p | p in catalogue ::
      && Physical(targets, p) && HasName(targets, p)
      && forall q | q in catalogue && KeyOf(targets, q) == KeyOf(targets, p) :: Physical(targets, q)
  }

  // Only named physical displays are active, and at least one.
  ghost predicate PhysicalOnly(targets: Targets, catalogue: seq<Path>, paths: set<Path>) {
    && paths != {}
    && forall p | p in paths :: Physical(targets, p) && HasName(targets, p) && p in catalogue
  }

  ghost predicate Lists(paths: seq<PathInfo>, catalogue: seq<Path>, active: set<Path>) {
    paths == Listing(catalogue, active)
  }

  lemma {:induction false} AvailableIsSeen(targets: Targets, catalogue: seq<Path>, active: set<Path>,
                                           paths: seq<PathInfo>, named: set<nat>)
    requires Lists(paths, catalogue, active) && AllNamed(paths, named) && PhysicalAvailable(targets, catalogue)
    ensures SomePhysical(targets, paths, named)
  {
    hide Physical, HasName, KeyOf;
    var p :| p in catalogue && Physical(targets, p) && HasName(targets, p)
             && forall q | q in catalogue && KeyOf(targets, q) == KeyOf(targets, p) :: Physical(targets, q);
    var i :| 0 <= i < |catalogue| && catalogue[i] == p;
    assert paths[i].path == p;
    var c := SeenHasChosen(targets, paths, named, i);
    assert paths[c].path in catalogue;
  }

  // The outcome is Refused if the host itself declines; Error and Halted come from calls.
  // answered tells whether Windows named every display it was asked about.
  method RecoverPhysicalDisplays(m: Machine) returns (outcome: Outcome, answered: bool, ghost named: set<nat>)
    requires m.Valid()
    modifies m
    ensures old(m.faults) <= m.faults && (outcome.Error? || outcome.Halted? ==> m.faults > old(m.faults))
    ensures m.Valid() && old(m.history) <= m.history && m.record == old(m.record)
    ensures outcome.Done? ==>
      && PhysicalOnly(m.targets, m.catalogue, m.layout.paths)
      && m.layout.paths == RecoveredPhysical(m.targets, Listing(m.catalogue, old(m.layout).paths), named)
    ensures !outcome.Done? ==> m.layout == old(m.layout)
    ensures outcome.Refused? ==> RecoveredPhysical(m.targets, Listing(m.catalogue, old(m.layout).paths), named) == {}
    ensures answered ==> AllNamed(Listing(m.catalogue, old(m.layout).paths), named)
    ensures outcome.Refused? && answered ==> !PhysicalAvailable(m.targets, m.catalogue)
  {
    hide Kept, Confirmed, Witnessed, Physical, HasName, KeyOf, SelectPhysicalDisplaysForRecovery, Machine.OnlyLayouts,
         PhysicalAvailable, RecoveredPhysical, Arranged;
    var answers: set<nat> := *;
    named := answers;
    var reply, paths := m.QueryAllPaths();
    answered := forall i | 0 <= i < |paths| :: i in answers;
    if !reply.Ok? { outcome := Ended(reply); return; }
    var displays := Describe(m.collation, m.targets, paths, answers);
    var selected := SelectPhysicalDisplaysForRecovery(displays);
    RecoverySelection(m.targets, paths, answers, displays);
    SomeSelectedIsRecovered(m.targets, paths, answers, displays);
    if |selected| == 0 {
      if answered && PhysicalAvailable(m.targets, m.catalogue) {
        AvailableIsSeen(m.targets, m.catalogue, m.layout.paths, paths, answers);
      }
      outcome := Refused;
      return;
    }
    var chosen := PathsOf(paths, selected);
    SelectedPaths(m.targets, m.catalogue, paths, answers, displays, selected, chosen);
    RecoveryPaths(m.targets, paths, answers, displays, chosen);
    reply := m.ApplyPaths(Emergency, chosen);
    outcome := if reply.Ok? then Done else Ended(reply);
  }

  lemma {:induction false} SelectedPaths(targets: Targets, catalogue: seq<Path>, paths: seq<PathInfo>, named: set<nat>,
                                         displays: seq<Descriptor>, selected: seq<Descriptor>, chosen: seq<Path>)
    requires |paths| == |catalogue| && forall i | 0 <= i < |paths| :: paths[i].path == catalogue[i]
    requires Describes(targets, paths, named, displays) && selected != []
    requires forall d | d in selected :: d in displays
    requires AllPhysical(targets, paths, selected)
    requires forall p :: p in chosen <==>
               exists i: nat | i < |paths| :: paths[i].path == p && exists d | d in selected :: d.pathIndex == i
    ensures PhysicalOnly(targets, catalogue, set p | p in chosen)
  {
    hide Physical, HasName, KeyOf;
    var d := selected[0];
    assert d in selected && d in displays;
    assert paths[d.pathIndex].path in chosen;
    var all := set p | p in chosen;
    assert paths[d.pathIndex].path in all;
    forall p | p in all ensures Physical(targets, p) && HasName(targets, p) && p in catalogue {
      var i: nat :| i < |paths| && paths[i].path == p && exists d | d in selected :: d.pathIndex == i;
      var d :| d in selected && d.pathIndex == i;
      assert d in displays;
      assert Seen(targets, paths, named, i);
      assert catalogue[i] == p;
    }
  }

  // A managed virtual display that is reached by one path only.
  ghost predicate ManagedAlone(targets: Targets, paths: set<Path>) {
    forall p, q | p in paths && q in paths && ManagedVirtual(targets, p) && KeyOf(targets, p) == KeyOf(targets, q) ::
      p == q
  }

  // What is left of the active paths: all but the managed ones that come first of their
  // display on the list.
  ghost predicate Leaves(targets: Targets, listed: seq<PathInfo>, remaining: set<Path>) {
    forall i: nat | i < |listed| ::
      listed[i].path in remaining <==> !(ManagedVirtual(targets, listed[i].path) && FirstListed(targets, listed, i))
  }

  // Of two paths of one display at least one stays.
  ghost predicate OneOfEachStays(targets: Targets, before: set<Path>, after: set<Path>) {
    forall p, q | p in before && q in before && p != q && KeyOf(targets, p) == KeyOf(targets, q) ::
      p in after || q in after
  }

  // Takes managed virtual displays out of the active paths: of each display the path that
  // Windows lists first, if that is a managed one and Windows named it.
  method DisableManagedVirtualDisplays(m: Machine)
    returns (outcome: Outcome, answered: bool, ghost listed: seq<PathInfo>)
    requires m.Valid()
    modifies m
    ensures old(m.faults) <= m.faults && (outcome.Error? || outcome.Halted? ==> m.faults > old(m.faults))
    ensures m.Valid() && old(m.history) <= m.history && m.record == old(m.record)
    ensures !outcome.Done? ==> m.layout == old(m.layout)
    ensures m.layout.paths <= old(m.layout).paths
    ensures forall p | p in old(m.layout).paths && !ManagedVirtual(m.targets, p) :: p in m.layout.paths
    ensures outcome.Refused? ==> forall p | p in old(m.layout).paths :: ManagedVirtual(m.targets, p)
    ensures (forall p | p in old(m.layout).paths :: !ManagedVirtual(m.targets, p)) ==> m.layout == old(m.layout)
    ensures outcome.Done? && answered ==>
              ListsActive(listed, old(m.layout).paths) && Leaves(m.targets, listed, m.layout.paths)
    ensures outcome.Done? && answered && ManagedAlone(m.targets, old(m.layout).paths) ==>
              forall p | p in m.layout.paths :: !ManagedVirtual(m.targets, p)
    ensures OneOfEachStays(m.targets, old(m.layout).paths, m.layout.paths)
  {
    hide Kept, Confirmed, Witnessed, KeyOf, HasName, IsManagedVirtualDisplay, IsLikelyVirtualDisplay, ManagedVirtual,
         Machine.OnlyLayouts, TakesManaged, Leaves, ManagedAlone, OneOfEachStays;
    AllStay(m.targets, m.layout.paths);
    NoneStaysInAnyOrder(m.targets, m.layout.paths);
    listed := [];
    var reply, paths := m.QueryOnlyActivePaths();
    if !reply.Ok? { return Ended(reply), true, listed; }
    listed := paths;
    var named: set<nat> := *;
    var managed := ManagedDisplays(m.collation, m.targets, paths, named);
    answered := forall i | 0 <= i < |paths| :: i in named;
    if |managed| == 0 {
      assert forall p :: p in m.layout.paths <==> exists i: nat | i < |paths| :: paths[i].path == p;
      Remaining(m.targets, paths, named, managed, m.layout.paths, m.layout.paths);
      return Done, answered, listed;
    }
    assert managed[0] in managed;
    var remaining := OtherPaths(paths, managed);
    Remaining(m.targets, paths, named, managed, m.layout.paths, set p | p in remaining);
    if |remaining| == 0 {
      forall p | p in m.layout.paths ensures ManagedVirtual(m.targets, p) {
        var i :| 0 <= i < |paths| && paths[i].path == p;
        assert p !in remaining;
      }
      return Refused, answered, listed;
    }
    reply := m.ApplyPaths(Emergency, remaining);
    if !reply.Ok? { return Ended(reply), answered, listed; }
    return Done, answered, listed;
  }

  // One active path of each display that was named, if that path is a managed one.
  ghost predicate TakesManaged(targets: Targets, paths: seq<PathInfo>, named: set<nat>, managed: seq<Descriptor>) {
    && (forall d | d in managed ::
          Chosen(targets, paths, named, |paths|, d.pathIndex) && paths[d.pathIndex].active
          && ManagedVirtual(targets, paths[d.pathIndex].path))
    && (forall i: nat | Chosen(targets, paths, named, |paths|, i)
        && paths[i].active && ManagedVirtual(targets, paths[i].path) ::
          exists d | d in managed :: d.pathIndex == i)
  }

  method ManagedDisplays(collation: Collation, targets: Targets, paths: seq<PathInfo>, named: set<nat>)
    returns (managed: seq<Descriptor>)
    ensures forall d | d in managed :: d.pathIndex < |paths| && ManagedVirtual(targets, paths[d.pathIndex].path)
    ensures TakesManaged(targets, paths, named, managed)
  {
    hide KeyOf, HasName, IsManagedVirtualDisplay, IsLikelyVirtualDisplay, ManagedVirtual, Physical;
    var displays := Describe(collation, targets, paths, named);
    managed := Filter(displays, (d: Descriptor) => d.isActive && IsManagedVirtualDisplay(d));
    forall i: nat | i < |paths|
      ensures IsManagedVirtualDisplay(Describing(targets, i, paths[i])) <==> ManagedVirtual(targets, paths[i].path)
    {
      KindOfDescriptor(targets, i, paths[i]);
    }
  }

  // With every display named, exactly the managed paths listed first are taken out.
  lemma {:induction false} FirstIsTaken(targets: Targets, paths: seq<PathInfo>, named: set<nat>,
                                        managed: seq<Descriptor>, active: set<Path>, i: nat)
    requires ListsActive(paths, active) && TakesManaged(targets, paths, named, managed)
    requires AllNamed(paths, named) && i < |paths|
    ensures (exists d | d in managed :: d.pathIndex == i) <==>
            ManagedVirtual(targets, paths[i].path) && FirstListed(targets, paths, i)
  {
    hide KeyOf, HasName, ManagedVirtual;
    if ManagedVirtual(targets, paths[i].path) {
      ManagedHasName(targets, paths[i].path);
      forall j | 0 <= j < |paths| && KeyOf(targets, paths[j].path) == KeyOf(targets, paths[i].path)
        ensures HasName(targets, paths[j].path)
      {
        SameKeySameName(targets, paths[i].path, paths[j].path);
      }
      if FirstListed(targets, paths, i) { assert Chosen(targets, paths, named, |paths|, i); }
      if d :| d in managed && d.pathIndex == i {
        forall j | 0 <= j < i ensures KeyOf(targets, paths[j].path) != KeyOf(targets, paths[i].path) {
          assert Seen(targets, paths, named, j) || !HasName(targets, paths[j].path);
        }
      }
    }
  }

  // Of two active paths of one display at most one is taken out.
  lemma {:induction false} OnePathOfEach(targets: Targets, paths: seq<PathInfo>, named: set<nat>,
                                         managed: seq<Descriptor>, i: nat, j: nat)
    requires TakesManaged(targets, paths, named, managed)
    requires i < j < |paths| && KeyOf(targets, paths[i].path) == KeyOf(targets, paths[j].path) && paths[i].active
    ensures (forall d | d in managed :: d.pathIndex != i) || (forall d | d in managed :: d.pathIndex != j)
  {
    hide KeyOf, HasName, ManagedVirtual;
  }

  lemma {:induction false} AllStay(targets: Targets, paths: set<Path>)
    ensures OneOfEachStays(targets, paths, paths)
  {
  }

  // What remains active.
  lemma {:induction false} Remaining(targets: Targets, paths: seq<PathInfo>, named: set<nat>, managed: seq<Descriptor>,
                                     active: set<Path>, remaining: set<Path>)
    requires ListsActive(paths, active) && TakesManaged(targets, paths, named, managed)
    requires forall p :: p in remaining <==>
               exists i: nat | i < |paths| :: paths[i].path == p && forall d | d in managed :: d.pathIndex != i
    ensures AllNamed(paths, named) ==> Leaves(targets, paths, remaining)
    ensures OneOfEachStays(targets, active, remaining)
  {
    hide KeyOf, ManagedVirtual, FirstListed, TakesManaged, AllNamed;
    forall p, q | p in active && q in active && p != q && KeyOf(targets, p) == KeyOf(targets, q)
      ensures p in remaining || q in remaining
    {
      var i: nat :| i < |paths| && paths[i].path == p;
      var j: nat :| j < |paths| && paths[j].path == q;
      if i < j { OnePathOfEach(targets, paths, named, managed, i, j); }
      if j < i { OnePathOfEach(targets, paths, named, managed, j, i); }
    }
    if AllNamed(paths, named) {
      forall i: nat | i < |paths|
        ensures paths[i].path in remaining <==>
                !(ManagedVirtual(targets, paths[i].path) && FirstListed(targets, paths, i))
      {
        FirstIsTaken(targets, paths, named, managed, active, i);
      }
    }
  }

  lemma {:induction false} ListedFirst(active: set<Path>, p: Path) returns (listed: seq<PathInfo>)
    requires p in active
    ensures ListsActive(listed, active) && listed != [] && listed[0].path == p
  {
    listed := [PathInfo(p, true)];
    var rest := active - {p};
    while rest != {}
      invariant listed != [] && listed[0].path == p && ListsActive(listed, active - rest) && rest <= active
      decreases rest
    {
      var q :| q in rest;
      var was := listed;
      listed := listed + [PathInfo(q, true)];
      forall i, j | 0 <= i < j < |listed| ensures listed[i].path != listed[j].path {
        assert listed[i] == was[i];
        assert was[i].path in active - rest;
      }
      ListedOneMore(was, active - rest, q);
      rest := rest - {q};
      assert active - rest == (set i | 0 <= i < |listed| :: listed[i].path);
    }
    assert active - rest == active;
  }

  lemma {:induction false} ListedOneMore(listed: seq<PathInfo>, active: set<Path>, q: Path)
    requires ListsActive(listed, active)
    ensures var more := listed + [PathInfo(q, true)];
            (set i | 0 <= i < |more| :: more[i].path) == active + {q}
  {
    var more := listed + [PathInfo(q, true)];
    forall p ensures p in (set i | 0 <= i < |more| :: more[i].path) <==> p in active + {q} {
      if p in active {
        var i :| 0 <= i < |listed| && listed[i].path == p;
        assert more[i].path == p;
      }
      if p == q { assert more[|listed|].path == p; }
    }
  }

  // No managed display stays active, in whatever order Windows lists the active paths, if
  // and only if none of them has a second active path.
  lemma {:induction false} NoneStaysInAnyOrder(targets: Targets, active: set<Path>)
    ensures ManagedAlone(targets, active) <==>
            forall listed: seq<PathInfo>, remaining: set<Path>
              | ListsActive(listed, active) && remaining <= active && Leaves(targets, listed, remaining) ::
              forall p | p in remaining :: !ManagedVirtual(targets, p)
  {
    hide KeyOf, ManagedVirtual;
    if ManagedAlone(targets, active) {
      forall listed: seq<PathInfo>, remaining: set<Path>
        | ListsActive(listed, active) && remaining <= active && Leaves(targets, listed, remaining)
        ensures forall p | p in remaining :: !ManagedVirtual(targets, p)
      {
        forall p | p in remaining ensures !ManagedVirtual(targets, p) {
          var i: nat :| i < |listed| && listed[i].path == p;
          assert forall j | 0 <= j < i :: listed[j].path in active && listed[j].path != p;
        }
      }
    } else {
      var p, q :| p in active && q in active && ManagedVirtual(targets, p) && KeyOf(targets, p) == KeyOf(targets, q)
                  && p != q;
      var listed := ListedFirst(active, q);
      var i: nat :| i < |listed| && listed[i].path == p;
      assert KeyOf(targets, listed[0].path) == KeyOf(targets, listed[i].path) && 0 < i;
      assert !FirstListed(targets, listed, i);
      var remaining := set k: nat | k < |listed| && !(ManagedVirtual(targets, listed[k].path)
                                                     && FirstListed(targets, listed, k)) :: listed[k].path;
      assert Leaves(targets, listed, remaining) && p in remaining;
    }
  }

  method OtherPaths(paths: seq<PathInfo>, displays: seq<Descriptor>) returns (others: seq<Path>)
    ensures forall p :: p in others <==>
              exists i: nat | i < |paths| :: paths[i].path == p && forall d | d in displays :: d.pathIndex != i
  {
    var indexes := set d | d in displays :: d.pathIndex;
    others := [];
    for index := 0 to |paths|
      invariant forall p :: p in others <==>
        exists i: nat | i < index :: paths[i].path == p && forall d | d in displays :: d.pathIndex != i
    {
      if index !in indexes { others := others + [paths[index].path]; }
    }
  }

  // Managed, whichever of its listed paths is asked.
  ghost predicate ManagedThroughout(targets: Targets, catalogue: seq<Path>, p: Path) {
    && ManagedVirtual(targets, p)
    && forall q | q in catalogue && KeyOf(targets, q) == KeyOf(targets, p) :: ManagedVirtual(targets, q)
  }

  ghost predicate NoManagedShown(targets: Targets, catalogue: seq<Path>, active: set<Path>) {
    forall p | p in active && p in catalogue :: !ManagedThroughout(targets, catalogue, p)
  }

  // Windows confirms an active physical display and no active managed virtual one.
  method VerifyPhysicalOnlyTopology(m: Machine) returns (outcome: Outcome, answered: bool)
    requires m.Valid()
    modifies m
    ensures old(m.faults) <= m.faults && (outcome.Error? || outcome.Halted? ==> m.faults > old(m.faults))
    ensures m.Valid() && old(m.history) <= m.history && m.record == old(m.record) && m.layout == old(m.layout)
    ensures outcome.Done? ==> PhysicalActive(m.targets, m.layout)
    ensures outcome.Done? && answered ==> NoManagedShown(m.targets, m.catalogue, m.layout.paths)
    ensures old(m.verification).None? ==> m.verification.None?
    ensures outcome.Refused? && answered ==> !PhysicalOnly(m.targets, m.catalogue, m.layout.paths)
  {
    hide Kept, Confirmed, Witnessed, KeyOf, HasName, IsManagedVirtualDisplay, IsLikelyVirtualDisplay, ManagedVirtual,
         Physical, Machine.OnlyLayouts, PhysicalOnly, NoManagedShown;
    var reply, paths := m.QueryAllPaths();
    if !reply.Ok? { return Ended(reply), true; }
    var named: set<nat> := *;
    var displays := Describe(m.collation, m.targets, paths, named);
    answered := forall i | 0 <= i < |paths| :: i in named;
    var activePhysical := Filter(displays,
      (d: Descriptor) => d.isActive && d.isAvailable && !IsLikelyVirtualDisplay(d));
    var activeManaged := Filter(displays, (d: Descriptor) => d.isActive && IsManagedVirtualDisplay(d));
    ActiveKinds(m.targets, paths, named, displays, m.layout.paths);
    if |activePhysical| == 0 || |activeManaged| > 0 {
      if answered && PhysicalOnly(m.targets, m.catalogue, m.layout.paths) {
        PhysicalOnlyIsSeen(m.targets, m.catalogue, m.layout.paths, paths, named, displays);
        assert |activeManaged| > 0 ==> activeManaged[0] in activeManaged;
      }
      return Refused, answered;
    }
    assert activePhysical[0] in activePhysical;
    assert forall d | d in displays && d.isActive && IsManagedVirtualDisplay(d) :: d in activeManaged;
    if answered { NoManagedIsSeen(m.targets, m.catalogue, m.layout.paths, paths, named, displays); }
    return Done, answered;
  }

  // A managed display that is active is described as active.
  lemma {:induction false} NoManagedIsSeen(targets: Targets, catalogue: seq<Path>, active: set<Path>,
                                           paths: seq<PathInfo>, named: set<nat>, displays: seq<Descriptor>)
    requires Lists(paths, catalogue, active) && AllNamed(paths, named) && Describes(targets, paths, named, displays)
    requires forall d | d in displays && d.isActive :: !IsManagedVirtualDisplay(d)
    ensures NoManagedShown(targets, catalogue, active)
  {
    hide KeyOf, HasName, IsManagedVirtualDisplay, IsLikelyVirtualDisplay, ManagedVirtual, Physical;
    forall p | p in active && p in catalogue ensures !ManagedThroughout(targets, catalogue, p) {
      if ManagedThroughout(targets, catalogue, p) {
        var i :| 0 <= i < |catalogue| && catalogue[i] == p;
        ManagedHasName(targets, p);
        var c := SeenHasChosen(targets, paths, named, i);
        KindOfDescriptor(targets, c, paths[c]);
      }
    }
  }

  // The active entries of a description and the active paths.
  lemma {:induction false} ActiveKinds(targets: Targets, paths: seq<PathInfo>, named: set<nat>,
                                       displays: seq<Descriptor>, active: set<Path>)
    requires Describes(targets, paths, named, displays)
    requires forall i | 0 <= i < |paths| :: paths[i].active <==> paths[i].path in active
    ensures forall d | d in displays && d.isActive ::
              && d.pathIndex < |paths| && paths[d.pathIndex].path in active
              && (d.isAvailable && !IsLikelyVirtualDisplay(d) <==> Physical(targets, paths[d.pathIndex].path))
              && (IsManagedVirtualDisplay(d) ==> !Physical(targets, paths[d.pathIndex].path))
  {
    hide KeyOf, HasName, IsManagedVirtualDisplay, IsLikelyVirtualDisplay, Physical, ManagedVirtual;
    forall d | d in displays && d.isActive
      ensures && d.pathIndex < |paths| && paths[d.pathIndex].path in active
              && (d.isAvailable && !IsLikelyVirtualDisplay(d) <==> Physical(targets, paths[d.pathIndex].path))
              && (IsManagedVirtualDisplay(d) ==> !Physical(targets, paths[d.pathIndex].path))
    {
      KindOfDescriptor(targets, d.pathIndex, paths[d.pathIndex]);
      PhysicalIsNotManaged(targets, paths[d.pathIndex].path);
    }
  }

  // When only physical displays are active, the description shows one of them.
  lemma {:induction false} PhysicalOnlyIsSeen(targets: Targets, catalogue: seq<Path>, active: set<Path>,
                                              paths: seq<PathInfo>, named: set<nat>, displays: seq<Descriptor>)
    requires PhysicalOnly(targets, catalogue, active) && Lists(paths, catalogue, active)
    requires AllNamed(paths, named) && Describes(targets, paths, named, displays)
    ensures exists d | d in displays :: d.isActive && d.isAvailable && !IsLikelyVirtualDisplay(d)
    ensures forall d | d in displays && d.isActive :: !IsManagedVirtualDisplay(d)
  {
    hide KeyOf, HasName, IsManagedVirtualDisplay, IsLikelyVirtualDisplay, Physical, ManagedVirtual;
    ActiveKinds(targets, paths, named, displays, active);
    var p :| p in active;
    var i :| 0 <= i < |catalogue| && catalogue[i] == p;
    assert paths[i] == PathInfo(p, true);
    var c := SeenHasChosen(targets, paths, named, i);
    var d := Describing(targets, c, paths[c]);
    assert d in displays && d.isActive by { KindOfDescriptor(targets, c, paths[c]); }
    assert d.pathIndex == c by { KindOfDescriptor(targets, c, paths[c]); }
  }

  // Deletes the record and, unless protection is set up, the verification.
  method DiscardTransaction(m: Machine, protectionInitialized: bool) returns (reply: Reply)
    requires m.Valid()
    modifies m
    ensures m.Valid() && old(m.history) <= m.history && m.layout == old(m.layout)
    ensures m.faults == old(m.faults) + Fault(reply)
    ensures reply.Ok? ==> m.record.None? && (!protectionInitialized ==> m.verification.None?)
    ensures m.record.None? || m.record == old(m.record)
  {
    hide Kept, Confirmed, Witnessed, Machine.OnlyLayouts;
    reply := m.Call();
    if !reply.Ok? { return; }
    reply := m.ClearRecovery(Emergency);
    if !reply.Ok? { return; }
    if !protectionInitialized {
      reply := m.Invalidate();
      if !reply.Ok? { return; }
    }
    reply := m.Call();
  }

  // Takes no session lock, so it may run between any two operations that do.
  method RecoverPhysicalAndDiscardPendingTransaction(m: Machine, protectionInitialized: bool)
    returns (outcome: Outcome, answered: bool)
    requires m.Valid()
    modifies m
    ensures old(m.faults) <= m.faults && (outcome.Error? || outcome.Halted? ==> m.faults > old(m.faults))
    ensures m.Valid() && old(m.history) <= m.history
    ensures outcome.Done? ==>
      && m.record.None?
      && PhysicalActive(m.targets, m.layout)
      && (!protectionInitialized ==> m.verification.None?)
      && forall p | p in m.layout.paths :: Physical(m.targets, p) && !ManagedVirtual(m.targets, p)
    ensures m.record != old(m.record) ==>
      m.record.None? && PhysicalActive(m.targets, m.layout) && forall p | p in m.layout.paths :: Physical(m.targets, p)
    ensures outcome.Refused? && answered ==> !PhysicalAvailable(m.targets, m.catalogue)
  {
    hide Kept, Confirmed, Witnessed, KeyOf, HasName, ManagedVirtual, Physical, Machine.OnlyLayouts, PhysicalAvailable,
         PhysicalActive;
    var taken, first, second;
    ghost var listed, named;
    outcome, answered, named := RecoverPhysicalDisplays(m);
    if !outcome.Done? { return; }
    ghost var paths := m.layout.paths;
    forall p | p in paths ensures !ManagedVirtual(m.targets, p) { PhysicalIsNotManaged(m.targets, p); }
    outcome, taken, listed := DisableManagedVirtualDisplays(m);
    if !outcome.Done? { return; }
    outcome, first := VerifyPhysicalOnlyTopology(m);
    answered := answered && first;
    if !outcome.Done? { return; }
    var reply := DiscardTransaction(m, protectionInitialized);
    if !reply.Ok? { return Ended(reply), answered; }
    outcome, second := VerifyPhysicalOnlyTopology(m);
    answered := answered && second;
  }
}
