/** Which of the displays a session is meant for: the choice of the virtual display, and of
    the physical ones, said of the display paths that Windows lists. */
module DisplayChoice {
  import opened HostText
  import opened Displays

  // ----- the kinds of displays -----

  const MANAGED_NAMES: set<string> := {"Virtual Display Driver", "VDD by MTT", "MTT1337", "MttVDD", "IddSampleDriver"}

  const VIRTUAL_NAMES: set<string> := {"virtual", "idd", "VDD by MTT", "MTT1337", "MttVDD"}

  function Identity(t: Target): string { t.friendlyName + " " + t.devicePath }

  lemma {:induction false} PartOf(text: string, part: string, inner: string)
    requires |inner| <= |part| && Fold(part[..|inner|]) == Fold(inner)
    ensures ContainsText(text, part) ==> ContainsText(text, inner)
  {
    if at :| 0 <= at <= |text| && MatchesAt(text, part, at) {
      var n := |inner|;
      var a := text[at..at + |part|];
      forall i | 0 <= i < n ensures Fold(text[at..at + n])[i] == Fold(inner)[i] {
        assert Fold(a)[i] == Fold(part)[i] && Fold(part[..n])[i] == FoldChar(part[i]);
        assert a[i] == text[at..at + n][i];
      }
      assert MatchesAt(text, inner, at);
    }
  }

  lemma {:induction false} LongNames(text: string)
    ensures ContainsText(text, "Virtual Display Driver") ==> ContainsText(text, "virtual")
    ensures ContainsText(text, "IddSampleDriver") ==> ContainsText(text, "idd")
    ensures ContainsText(text, "iddsample") ==> ContainsText(text, "idd")
  {
    hide ContainsText;
    assert "Virtual Display Driver"[..7] == "Virtual" && "IddSampleDriver"[..3] == "Idd" && "iddsample"[..3] == "idd";
    PartOf(text, "Virtual Display Driver", "virtual");
    PartOf(text, "IddSampleDriver", "idd");
    PartOf(text, "iddsample", "idd");
  }

  // A display is managed by one of five names, and virtual by its technology or one of five
  // shorter ones.
  lemma {:induction false} KindsByName(targets: Targets, p: Path)
    ensures var t := targets(p.target);
            && (ManagedVirtual(targets, p) <==> exists name | name in MANAGED_NAMES :: ContainsText(Identity(t), name))
            && (LikelyVirtual(targets, p) <==>
                t.technology == 16 || t.technology == 17
                || exists name | name in VIRTUAL_NAMES :: ContainsText(Identity(t), name))
  {
    hide ContainsText;
    LongNames(Identity(targets(p.target)));
  }

  // Two paths are taken for one display if they have one device path, case aside, or none and
  // one target.
  lemma {:induction false} KeysTellDisplays(targets: Targets, p: Path, q: Path)
    ensures var a, b := targets(p.target).devicePath, targets(q.target).devicePath;
            KeyOf(targets, p) == KeyOf(targets, q) <==>
            (!IsBlank(a) && !IsBlank(b) && SameText(a, b)) || (IsBlank(a) && IsBlank(b) && p.target == q.target)
  {
  }

  // ----- the virtual display -----

  datatype Purpose = Activation | ModeChange

  // A display that was seen, by the path that stands for it, and that may be used.
  ghost predicate Candidate(targets: Targets, paths: seq<PathInfo>, named: set<nat>, purpose: Purpose, i: nat) {
    && Chosen(targets, paths, named, |paths|, i) && LikelyVirtual(targets, paths[i].path)
    && match purpose
       case Activation => targets(paths[i].path.target).available
       case ModeChange => paths[i].active
  }

  predicate Names(targets: Targets, p: Path, nameMatch: string) {
    var t := targets(p.target);
    ContainsText(t.friendlyName, nameMatch) || ContainsText(t.devicePath, nameMatch)
  }

  // One with the configured name or, if none is configured, a managed one, or any if no
  // managed one may be used.
  ghost predicate Wanted(targets: Targets, paths: seq<PathInfo>, named: set<nat>, purpose: Purpose, nameMatch: string,
                         i: nat)
  {
    && Candidate(targets, paths, named, purpose, i)
    && if !IsBlank(nameMatch) then Names(targets, paths[i].path, nameMatch)
       else ManagedVirtual(targets, paths[i].path)
            || forall j: nat | Candidate(targets, paths, named, purpose, j) :: !ManagedVirtual(targets, paths[j].path)
  }

  // Active paths come first, then the names in their order.
  predicate Precedes(collation: Collation, targets: Targets, a: PathInfo, b: PathInfo) {
    if a.active != b.active then a.active
    else collation(targets(a.path.target).friendlyName, targets(b.path.target).friendlyName)
  }

  // The first of those.
  ghost predicate Picked(collation: Collation, targets: Targets, paths: seq<PathInfo>, named: set<nat>,
                         purpose: Purpose, nameMatch: string, i: nat)
  {
    && Wanted(targets, paths, named, purpose, nameMatch, i)
    && forall j: nat | Wanted(targets, paths, named, purpose, nameMatch, j) ::
         Precedes(collation, targets, paths[i], paths[j])
  }

  // ----- the choice from a description -----

  predicate Keeps(purpose: Purpose, d: Descriptor) {
    IsLikelyVirtualDisplay(d) && match purpose case Activation => d.isAvailable case ModeChange => d.isActive
  }

  predicate Prefers(candidates: seq<Descriptor>, nameMatch: string, d: Descriptor) {
    if !IsBlank(nameMatch) then NameMatches(d, nameMatch)
    else IsManagedVirtualDisplay(d) || forall e | e in candidates :: !IsManagedVirtualDisplay(e)
  }

  lemma {:induction false} RestIsArranged(collation: Collation, displays: seq<Descriptor>)
    requires Arranged(collation, displays) && displays != []
    ensures Arranged(collation, displays[1..])
    ensures forall d | d in displays[1..] :: Before(collation, displays[0], d)
  {
    hide Before;
    var rest := displays[1..];
    assert forall i | 0 <= i < |rest| :: rest[i] == displays[i + 1];
  }

  lemma {:induction false} ConsIsArranged(collation: Collation, d: Descriptor, rest: seq<Descriptor>)
    requires Arranged(collation, rest) && forall e | e in rest :: Before(collation, d, e)
    ensures Arranged(collation, [d] + rest)
  {
    hide Before;
  }

  lemma {:induction false} FilterStaysArranged(collation: Collation, displays: seq<Descriptor>,
                                               keep: Descriptor -> bool)
    requires Arranged(collation, displays)
    ensures Arranged(collation, Filter(displays, keep))
  {
    hide Before, Arranged;
    if displays == [] {
      assert Filter(displays, keep) == displays;
    } else {
      var rest := Filter(displays[1..], keep);
      RestIsArranged(collation, displays);
      FilterStaysArranged(collation, displays[1..], keep);
      ConsIsArranged(collation, displays[0], rest);
      assert [] + rest == rest;
    }
  }

  // What is selected is the first one preferred.
  lemma {:induction false} SelectedIsFirst(collation: Collation, candidates: seq<Descriptor>, nameMatch: string)
    requires Arranged(collation, candidates)
    ensures var r := SelectVirtualDisplay(candidates, nameMatch);
            && (r.Some? ==>
                  && r.value in candidates && Prefers(candidates, nameMatch, r.value)
                  && forall d | d in candidates && Prefers(candidates, nameMatch, d) :: Before(collation, r.value, d))
            && (r.None? ==> forall d | d in candidates :: !Prefers(candidates, nameMatch, d))
  {
    hide IsManagedVirtualDisplay, NameMatches, IsBlank, Before, SelectVirtualDisplay;
    var r := SelectVirtualDisplay(candidates, nameMatch);
    if r.Some? {
      var k :| 0 <= k < |candidates| && candidates[k] == r.value && Prefers(candidates, nameMatch, candidates[k])
               && forall j | 0 <= j < k :: !Prefers(candidates, nameMatch, candidates[j]);
      forall d | d in candidates && Prefers(candidates, nameMatch, d) ensures Before(collation, r.value, d) {
        var j :| 0 <= j < |candidates| && candidates[j] == d;
        BeforeOrders(collation, d, d, d);
      }
    }
  }

  // The path behind a descriptor.
  lemma {:induction false} KindsAgree(targets: Targets, paths: seq<PathInfo>, named: set<nat>,
                                      displays: seq<Descriptor>, purpose: Purpose, candidates: seq<Descriptor>)
    requires Describes(targets, paths, named, displays)
    requires forall d :: d in candidates <==> d in displays && Keeps(purpose, d)
    ensures forall d | d in candidates ::
              Candidate(targets, paths, named, purpose, d.pathIndex)
              && d == Describing(targets, d.pathIndex, paths[d.pathIndex])
    ensures forall i: nat | Candidate(targets, paths, named, purpose, i) ::
              Describing(targets, i, paths[i]) in candidates
  {
    CandidatesAreListed(targets, paths, named, purpose);
    ChosenAreListed(targets, paths, named);
    hide IsManagedVirtualDisplay, IsLikelyVirtualDisplay, KeyOf, HasName, LikelyVirtual, Chosen;
    forall d | d in candidates
      ensures Candidate(targets, paths, named, purpose, d.pathIndex)
              && d == Describing(targets, d.pathIndex, paths[d.pathIndex])
    {
      KindOfDescriptor(targets, d.pathIndex, paths[d.pathIndex]);
    }
    forall i: nat | Candidate(targets, paths, named, purpose, i)
      ensures Describing(targets, i, paths[i]) in candidates
    {
      KindOfDescriptor(targets, i, paths[i]);
    }
  }

  lemma {:induction false} ChosenAreListed(targets: Targets, paths: seq<PathInfo>, named: set<nat>)
    ensures forall i: nat :: Chosen(targets, paths, named, |paths|, i) ==> i < |paths|
  {
    hide KeyOf, HasName;
  }

  lemma {:induction false} CandidatesAreListed(targets: Targets, paths: seq<PathInfo>, named: set<nat>,
                                               purpose: Purpose)
    ensures forall i: nat :: Candidate(targets, paths, named, purpose, i) ==> i < |paths|
    ensures forall nameMatch: string, i: nat :: Wanted(targets, paths, named, purpose, nameMatch, i) ==>
              Candidate(targets, paths, named, purpose, i)
  {
    hide LikelyVirtual, KeyOf, HasName, ManagedVirtual, IsBlank, Names;
  }

  lemma {:induction false} PrefersIsWanted(targets: Targets, paths: seq<PathInfo>, named: set<nat>, purpose: Purpose,
                                           nameMatch: string, candidates: seq<Descriptor>, i: nat)
    requires forall d | d in candidates ::
               Candidate(targets, paths, named, purpose, d.pathIndex)
               && d == Describing(targets, d.pathIndex, paths[d.pathIndex])
    requires forall j: nat | Candidate(targets, paths, named, purpose, j) ::
               Describing(targets, j, paths[j]) in candidates
    requires Candidate(targets, paths, named, purpose, i)
    ensures Prefers(candidates, nameMatch, Describing(targets, i, paths[i])) <==>
            Wanted(targets, paths, named, purpose, nameMatch, i)
  {
    CandidatesAreListed(targets, paths, named, purpose);
    hide IsManagedVirtualDisplay, IsLikelyVirtualDisplay, Candidate, IsBlank, ContainsText, ManagedVirtual;
    KindOfDescriptor(targets, i, paths[i]);
    forall d | d in candidates
      ensures IsManagedVirtualDisplay(d) <==> ManagedVirtual(targets, paths[d.pathIndex].path)
    {
      KindOfDescriptor(targets, d.pathIndex, paths[d.pathIndex]);
    }
    forall j: nat | Candidate(targets, paths, named, purpose, j)
      ensures Describing(targets, j, paths[j]).pathIndex == j
    {
    }
  }

  // The selection from a description picks the wanted path, and none only if there is none.
  lemma {:induction false} SelectedIsPicked(collation: Collation, targets: Targets, paths: seq<PathInfo>,
                                            named: set<nat>, displays: seq<Descriptor>, purpose: Purpose,
                                            nameMatch: string, keep: Descriptor -> bool)
    requires Describes(targets, paths, named, displays) && Arranged(collation, displays)
    requires forall d :: keep(d) <==> Keeps(purpose, d)
    ensures var r := SelectVirtualDisplay(Filter(displays, keep), nameMatch);
            && (r.Some? ==>
                  Picked(collation, targets, paths, named, purpose, nameMatch, r.value.pathIndex)
                  && r.value in displays && r.value == Describing(targets, r.value.pathIndex, paths[r.value.pathIndex]))
            && (r.None? ==> forall i: nat :: !Wanted(targets, paths, named, purpose, nameMatch, i))
  {
    hide Describes, Keeps, Prefers, Candidate, Before, SelectVirtualDisplay, Arranged, Wanted, Describing;
    CandidatesAreListed(targets, paths, named, purpose);
    var candidates := Filter(displays, keep);
    FilterStaysArranged(collation, displays, keep);
    KindsAgree(targets, paths, named, displays, purpose, candidates);
    SelectedIsFirst(collation, candidates, nameMatch);
    var r := SelectVirtualDisplay(candidates, nameMatch);
    forall i: nat | Candidate(targets, paths, named, purpose, i)
      ensures Describing(targets, i, paths[i]) in candidates
      ensures Prefers(candidates, nameMatch, Describing(targets, i, paths[i])) <==>
              Wanted(targets, paths, named, purpose, nameMatch, i)
    {
      PrefersIsWanted(targets, paths, named, purpose, nameMatch, candidates, i);
    }
    if r.Some? {
      var k := r.value.pathIndex;
      forall j: nat | Wanted(targets, paths, named, purpose, nameMatch, j)
        ensures Precedes(collation, targets, paths[k], paths[j])
      {
        DescribingPrecedes(collation, targets, paths, k, j);
      }
    }
  }

  lemma {:induction false} DescribingPrecedes(collation: Collation, targets: Targets, paths: seq<PathInfo>, i: nat,
                                              j: nat)
    requires i < |paths| && j < |paths|
    ensures Before(collation, Describing(targets, i, paths[i]), Describing(targets, j, paths[j])) <==>
            Precedes(collation, targets, paths[i], paths[j])
  {
  }

  // Windows answered for every path.
  ghost predicate AllNamed(paths: seq<PathInfo>, named: set<nat>) {
    forall i: nat | i < |paths| :: i in named
  }

  // An available virtual display, with the configured name if one is configured.
  predicate Suits(targets: Targets, nameMatch: string, p: Path) {
    Virtual(targets, p) && (IsBlank(nameMatch) || Names(targets, p, nameMatch))
  }

  // Some display listed suits, whichever of its paths is asked.
  ghost predicate SuitableThere(targets: Targets, catalogue: seq<Path>, nameMatch: string) {
    exists p | p in catalogue ::
      && HasName(targets, p)
      && forall q | q in catalogue && KeyOf(targets, q) == KeyOf(targets, p) :: Suits(targets, nameMatch, q)
  }

  // Whatever is picked suits; and if no name is configured and a managed display may be
  // used, it is one.
  lemma {:induction false} PickedSuits(collation: Collation, targets: Targets, paths: seq<PathInfo>, named: set<nat>,
                                       nameMatch: string, i: nat)
    requires Picked(collation, targets, paths, named, Activation, nameMatch, i)
    ensures i < |paths| && Suits(targets, nameMatch, paths[i].path)
    ensures forall j: nat | IsBlank(nameMatch) && Candidate(targets, paths, named, Activation, j)
                            && ManagedVirtual(targets, paths[j].path) ::
              ManagedVirtual(targets, paths[i].path)
  {
    hide KeyOf, HasName, LikelyVirtual, ManagedVirtual, IsBlank, Names;
  }

  // A suitable display is among the wanted ones, or there is a better one.
  lemma {:induction false} SuitableIsWanted(targets: Targets, catalogue: seq<Path>, active: set<Path>, named: set<nat>,
                                            nameMatch: string)
    requires SuitableThere(targets, catalogue, nameMatch) && AllNamed(Listing(catalogue, active), named)
    ensures exists i: nat :: Wanted(targets, Listing(catalogue, active), named, Activation, nameMatch, i)
  {
    hide KeyOf, HasName, Suits, Chosen;
    var paths := Listing(catalogue, active);
    var p :| p in catalogue && HasName(targets, p)
             && forall q | q in catalogue && KeyOf(targets, q) == KeyOf(targets, p) :: Suits(targets, nameMatch, q);
    var i :| 0 <= i < |catalogue| && catalogue[i] == p;
    assert Seen(targets, paths, named, i);
    var c := SeenHasChosen(targets, paths, named, i);
    ChosenAreListed(targets, paths, named);
    assert paths[c].path in catalogue;
    CandidateOrBetter(targets, paths, named, nameMatch, c);
  }

  lemma {:induction false} CandidateOrBetter(targets: Targets, paths: seq<PathInfo>, named: set<nat>, nameMatch: string,
                                             c: nat)
    requires Chosen(targets, paths, named, |paths|, c) && Suits(targets, nameMatch, paths[c].path)
    ensures exists i: nat :: Wanted(targets, paths, named, Activation, nameMatch, i)
  {
    ChosenAreListed(targets, paths, named);
    CandidatesAreListed(targets, paths, named, Activation);
    hide Chosen, IsBlank, Names, ManagedVirtual, LikelyVirtual;
    assert Candidate(targets, paths, named, Activation, c);
    if IsBlank(nameMatch)
       && exists j: nat :: Candidate(targets, paths, named, Activation, j) && ManagedVirtual(targets, paths[j].path) {
      var j: nat :| Candidate(targets, paths, named, Activation, j) && ManagedVirtual(targets, paths[j].path);
      assert Wanted(targets, paths, named, Activation, nameMatch, j);
    } else {
      assert Wanted(targets, paths, named, Activation, nameMatch, c);
    }
  }

  // The selection for a session picks such a path, and none only if there is none.
  lemma {:induction false} ActivationPicks(collation: Collation, targets: Targets, paths: seq<PathInfo>,
                                           named: set<nat>, displays: seq<Descriptor>, nameMatch: string)
    requires Describes(targets, paths, named, displays) && Arranged(collation, displays)
    ensures var r := SelectVirtualDisplayForActivation(displays, nameMatch);
            && (r.Some? ==>
                  Picked(collation, targets, paths, named, Activation, nameMatch, r.value.pathIndex)
                  && r.value.pathIndex < |paths| && Suits(targets, nameMatch, paths[r.value.pathIndex].path)
                  && r.value == Describing(targets, r.value.pathIndex, paths[r.value.pathIndex]))
            && (r.None? ==> forall i: nat :: !Wanted(targets, paths, named, Activation, nameMatch, i))
  {
    hide Describes, Arranged, IsLikelyVirtualDisplay, SelectVirtualDisplay, Picked, Wanted, Suits, Describing;
    var r := SelectVirtualDisplayForActivation(displays, nameMatch);
    SelectedIsPicked(collation, targets, paths, named, displays, Activation, nameMatch,
                     (d: Descriptor) => d.isAvailable && IsLikelyVirtualDisplay(d));
    if r.Some? { PickedSuits(collation, targets, paths, named, nameMatch, r.value.pathIndex); }
  }

  // A display with the name of the Vita's own one is a managed one.
  lemma {:induction false} VitaNameIsManaged(targets: Targets, p: Path)
    ensures Names(targets, p, "MTT1337") ==> ManagedVirtual(targets, p)
    ensures Suits(targets, "MTT1337", p) ==> Virtual(targets, p) && ManagedVirtual(targets, p)
  {
    var t := targets(p.target);
    assert !IsBlank("MTT1337") by { assert "MTT1337"[0] == 'M'; }
    PartContained("", t.friendlyName, " " + t.devicePath, "MTT1337");
    PartContained(t.friendlyName + " ", t.devicePath, "", "MTT1337");
    assert "" + t.friendlyName + (" " + t.devicePath) == Identity(t);
    assert (t.friendlyName + " ") + t.devicePath + "" == Identity(t);
    KindsByName(targets, p);
    assert "MTT1337" in MANAGED_NAMES;
    hide ContainsText, LikelyVirtual, ManagedVirtual, IsBlank;
  }

  lemma {:induction false} PartContained(before: string, text: string, after: string, part: string)
    ensures ContainsText(text, part) ==> ContainsText(before + text + after, part)
  {
    hide SameText;
    if at :| 0 <= at <= |text| && MatchesAt(text, part, at) {
      var whole := before + text + after;
      assert whole[|before| + at..|before| + at + |part|] == text[at..at + |part|];
      assert MatchesAt(whole, part, |before| + at);
    }
  }

  // ----- the physical displays -----

  // The active paths as a query lists them.
  ghost predicate ListsActive(paths: seq<PathInfo>, active: set<Path>) {
    && DistinctPaths(paths) && (forall i | 0 <= i < |paths| :: paths[i].active)
    && active == set i | 0 <= i < |paths| :: paths[i].path
  }

  // No path before this one is of the same display.
  ghost predicate FirstListed(targets: Targets, listed: seq<PathInfo>, i: nat) {
    i < |listed| && forall j | 0 <= j < i :: KeyOf(targets, listed[j].path) != KeyOf(targets, listed[i].path)
  }

  // One path of each active physical display that was named.
  ghost function KeptPhysical(targets: Targets, listed: seq<PathInfo>, named: set<nat>): set<Path> {
    set i: nat | i < |listed| && Chosen(targets, listed, named, |listed|, i) && listed[i].active
                 && Physical(targets, listed[i].path) :: listed[i].path
  }

  // One path of each available physical display that was named; if one of them is active,
  // of the active ones only.
  ghost function RecoveredPhysical(targets: Targets, listed: seq<PathInfo>, named: set<nat>): set<Path> {
    var kept := KeptPhysical(targets, listed, named);
    if kept != {} then kept
    else
      set i: nat | i < |listed| && Chosen(targets, listed, named, |listed|, i)
                   && Physical(targets, listed[i].path) :: listed[i].path
  }

  lemma {:induction false} PhysicalKinds(targets: Targets, paths: seq<PathInfo>, named: set<nat>,
                                         displays: seq<Descriptor>)
    requires Describes(targets, paths, named, displays)
    ensures forall d | d in displays ::
              && Chosen(targets, paths, named, |paths|, d.pathIndex) && d.pathIndex < |paths|
              && d.isActive == paths[d.pathIndex].active
              && (d.isAvailable && !IsLikelyVirtualDisplay(d) <==> Physical(targets, paths[d.pathIndex].path))
    ensures forall i: nat | Chosen(targets, paths, named, |paths|, i) :: exists d | d in displays :: d.pathIndex == i
  {
    hide IsManagedVirtualDisplay, IsLikelyVirtualDisplay, KeyOf, HasName, Physical, Chosen;
    ChosenAreListed(targets, paths, named);
    forall d | d in displays
      ensures && d.isActive == paths[d.pathIndex].active
              && (d.isAvailable && !IsLikelyVirtualDisplay(d) <==> Physical(targets, paths[d.pathIndex].path))
    {
      KindOfDescriptor(targets, d.pathIndex, paths[d.pathIndex]);
    }
    forall i: nat | Chosen(targets, paths, named, |paths|, i) ensures exists d | d in displays :: d.pathIndex == i {
      assert Describing(targets, i, paths[i]).pathIndex == i;
    }
  }

  // The paths of the displays kept for a verification.
  lemma {:induction false} VerificationPaths(targets: Targets, paths: seq<PathInfo>, named: set<nat>,
                                             displays: seq<Descriptor>, chosen: seq<Path>)
    requires Describes(targets, paths, named, displays)
    requires forall p :: p in chosen <==>
               exists i: nat | i < |paths| ::
                 && paths[i].path == p
                 && exists d | d in SelectActivePhysicalDisplaysForVerification(displays) :: d.pathIndex == i
    ensures (set p | p in chosen) == KeptPhysical(targets, paths, named)
  {
    hide Describes, IsLikelyVirtualDisplay, Physical, Chosen;
    PhysicalKinds(targets, paths, named, displays);
    var selected := SelectActivePhysicalDisplaysForVerification(displays);
    var kept := KeptPhysical(targets, paths, named);
    forall p ensures p in chosen <==> p in kept {
      if p in chosen {
        var i: nat :| i < |paths| && paths[i].path == p && exists d | d in selected :: d.pathIndex == i;
      }
      if p in kept {
        var i: nat :| i < |paths| && Chosen(targets, paths, named, |paths|, i) && paths[i].active
                      && Physical(targets, paths[i].path) && paths[i].path == p;
        var d :| d in displays && d.pathIndex == i;
        assert d in selected;
      }
    }
  }

  lemma {:induction false} SomeSelectedIsKept(targets: Targets, paths: seq<PathInfo>, named: set<nat>,
                                              displays: seq<Descriptor>)
    requires Describes(targets, paths, named, displays)
    ensures SelectActivePhysicalDisplaysForVerification(displays) == [] <==> KeptPhysical(targets, paths, named) == {}
  {
    SomeActivePhysical(targets, paths, named, displays);
    hide Describes, IsLikelyVirtualDisplay, KeptPhysical;
    var selected := SelectActivePhysicalDisplaysForVerification(displays);
    if selected != [] { assert selected[0] in selected; }
  }

  predicate PhysicalEntry(d: Descriptor) { d.isAvailable && !IsLikelyVirtualDisplay(d) }

  // Recovery takes the active physical displays or, if there are none, the available ones.
  lemma {:induction false} RecoveryTakes(displays: seq<Descriptor>)
    ensures forall d :: d in SelectPhysicalDisplaysForRecovery(displays) <==>
              d in displays && PhysicalEntry(d)
              && (d.isActive || forall e | e in displays && PhysicalEntry(e) :: !e.isActive)
  {
    hide IsLikelyVirtualDisplay;
    var available := Filter(displays, (d: Descriptor) => d.isAvailable && !IsLikelyVirtualDisplay(d));
    var active := Filter(available, (d: Descriptor) => d.isActive);
    assert forall d :: d in available <==> d in displays && PhysicalEntry(d);
    if |active| > 0 { assert active[0] in active; }
    assert SelectPhysicalDisplaysForRecovery(displays) == if |active| > 0 then active else available;
  }

  lemma {:induction false} RecoveryPaths(targets: Targets, paths: seq<PathInfo>, named: set<nat>,
                                         displays: seq<Descriptor>, chosen: seq<Path>)
    requires Describes(targets, paths, named, displays)
    requires forall p :: p in chosen <==>
               exists i: nat | i < |paths| ::
                 && paths[i].path == p
                 && exists d | d in SelectPhysicalDisplaysForRecovery(displays) :: d.pathIndex == i
    ensures (set p | p in chosen) == RecoveredPhysical(targets, paths, named)
  {
    PhysicalKinds(targets, paths, named, displays);
    RecoveryTakes(displays);
    hide Describes, IsLikelyVirtualDisplay, Physical, Chosen, SelectPhysicalDisplaysForRecovery, KeptPhysical,
         RecoveredPhysical;
    var selected := SelectPhysicalDisplaysForRecovery(displays);
    SomeActivePhysical(targets, paths, named, displays);
    var kept := RecoveredPhysical(targets, paths, named);
    forall p ensures p in chosen <==> p in kept {
      if p in chosen {
        var i: nat :| i < |paths| && paths[i].path == p && exists d | d in selected :: d.pathIndex == i;
        RecoveredAt(targets, paths, named, i);
      }
      if p in kept {
        var i := RecoveredFrom(targets, paths, named, p);
        var d :| d in displays && d.pathIndex == i;
        assert d in selected;
      }
    }
  }

  lemma {:induction false} SomeSelectedIsRecovered(targets: Targets, paths: seq<PathInfo>, named: set<nat>,
                                                   displays: seq<Descriptor>)
    requires Describes(targets, paths, named, displays)
    ensures SelectPhysicalDisplaysForRecovery(displays) == [] <==> RecoveredPhysical(targets, paths, named) == {}
  {
    PhysicalKinds(targets, paths, named, displays);
    SomeActivePhysical(targets, paths, named, displays);
    RecoveryTakes(displays);
    hide Describes, IsLikelyVirtualDisplay, Physical, Chosen, SelectPhysicalDisplaysForRecovery, KeptPhysical,
         RecoveredPhysical;
    var selected := SelectPhysicalDisplaysForRecovery(displays);
    if selected != [] {
      var d := selected[0];
      assert d in selected;
      RecoveredAt(targets, paths, named, d.pathIndex);
    }
    if p :| p in RecoveredPhysical(targets, paths, named) {
      var i := RecoveredFrom(targets, paths, named, p);
      var d :| d in displays && d.pathIndex == i;
      assert d in selected;
    }
  }

  lemma {:induction false} SomeActivePhysical(targets: Targets, paths: seq<PathInfo>, named: set<nat>,
                                              displays: seq<Descriptor>)
    requires Describes(targets, paths, named, displays)
    ensures KeptPhysical(targets, paths, named) == {} <==> forall e | e in displays && PhysicalEntry(e) :: !e.isActive
  {
    PhysicalKinds(targets, paths, named, displays);
    hide Describes, IsLikelyVirtualDisplay, Physical, Chosen;
    var kept := KeptPhysical(targets, paths, named);
    if kept != {} {
      var p :| p in kept;
      var i: nat :| i < |paths| && Chosen(targets, paths, named, |paths|, i) && paths[i].active
                    && Physical(targets, paths[i].path) && paths[i].path == p;
      var d :| d in displays && d.pathIndex == i;
      assert PhysicalEntry(d) && d.isActive;
    }
    if e :| e in displays && PhysicalEntry(e) && e.isActive {
      assert paths[e.pathIndex].path in kept;
    }
  }

  lemma {:induction false} RecoveredAt(targets: Targets, paths: seq<PathInfo>, named: set<nat>, i: nat)
    requires i < |paths| && Chosen(targets, paths, named, |paths|, i) && Physical(targets, paths[i].path)
    requires paths[i].active || KeptPhysical(targets, paths, named) == {}
    ensures paths[i].path in RecoveredPhysical(targets, paths, named)
  {
    hide Physical, Chosen;
  }

  lemma {:induction false} RecoveredFrom(targets: Targets, paths: seq<PathInfo>, named: set<nat>, p: Path)
    returns (i: nat)
    requires p in RecoveredPhysical(targets, paths, named)
    ensures i < |paths| && paths[i].path == p && Chosen(targets, paths, named, |paths|, i)
    ensures Physical(targets, p) && (paths[i].active || KeptPhysical(targets, paths, named) == {})
  {
    hide Physical, Chosen;
    i :| i < |paths| && paths[i].path == p && Chosen(targets, paths, named, |paths|, i)
         && Physical(targets, paths[i].path) && (paths[i].active || KeptPhysical(targets, paths, named) == {});
  }

  // With every display named, what is kept of the active paths is the first one listed of
  // each display, if that is a physical one.
  lemma {:induction false} KeptIsFirstListed(targets: Targets, listed: seq<PathInfo>, named: set<nat>,
                                             active: set<Path>, i: nat)
    requires ListsActive(listed, active) && AllNamed(listed, named) && i < |listed|
    ensures listed[i].path in KeptPhysical(targets, listed, named) <==>
            Physical(targets, listed[i].path) && HasName(targets, listed[i].path) && FirstListed(targets, listed, i)
  {
    hide KeyOf, HasName, Physical;
    assert forall k: nat | k < |listed| && listed[k].path == listed[i].path :: k == i;
    if HasName(targets, listed[i].path) {
      forall j | 0 <= j < |listed| && KeyOf(targets, listed[j].path) == KeyOf(targets, listed[i].path)
        ensures Seen(targets, listed, named, j)
      {
        SameKeySameName(targets, listed[i].path, listed[j].path);
      }
    }
  }

  // No other active path is of the same display.
  ghost predicate OnlyPathOf(targets: Targets, active: set<Path>, p: Path) {
    p in active && forall q | q in active && KeyOf(targets, q) == KeyOf(targets, p) :: q == p
  }

  // Every named physical display that was active on one path still is.
  ghost predicate KeepsPhysical(targets: Targets, original: set<Path>, paths: set<Path>) {
    forall p | OnlyPathOf(targets, original, p) && Physical(targets, p) && HasName(targets, p) :: p in paths
  }

  lemma {:induction false} KeptKeepsPhysical(targets: Targets, listed: seq<PathInfo>, named: set<nat>,
                                             active: set<Path>, paths: set<Path>)
    requires ListsActive(listed, active) && AllNamed(listed, named) && KeptPhysical(targets, listed, named) <= paths
    ensures KeepsPhysical(targets, active, paths)
  {
    hide KeyOf, HasName, Physical, KeptPhysical;
    forall p | OnlyPathOf(targets, active, p) && Physical(targets, p) && HasName(targets, p) ensures p in paths {
      var i :| 0 <= i < |listed| && listed[i].path == p;
      forall j | 0 <= j < i ensures KeyOf(targets, listed[j].path) != KeyOf(targets, p) {
        assert listed[j].path in active && listed[j].path != p;
      }
      KeptIsFirstListed(targets, listed, named, active, i);
    }
  }

  // Some active display is physical and named, whichever of its paths is asked.
  ghost predicate PhysicalKept(targets: Targets, active: set<Path>) {
    exists p | p in active ::
      HasName(targets, p) && forall q | q in active && KeyOf(targets, q) == KeyOf(targets, p) :: Physical(targets, q)
  }

  lemma {:induction false} SomeIsKept(targets: Targets, listed: seq<PathInfo>, named: set<nat>, active: set<Path>)
    requires ListsActive(listed, active) && AllNamed(listed, named) && PhysicalKept(targets, active)
    ensures KeptPhysical(targets, listed, named) != {}
  {
    hide KeyOf, HasName, Physical, Chosen;
    var p :| p in active && HasName(targets, p)
             && forall q | q in active && KeyOf(targets, q) == KeyOf(targets, p) :: Physical(targets, q);
    var i: nat :| i < |listed| && listed[i].path == p;
    assert Seen(targets, listed, named, i);
    var c := SeenHasChosen(targets, listed, named, i);
    ChosenAreListed(targets, listed, named);
    assert listed[c].path in active;
    assert listed[c].path in KeptPhysical(targets, listed, named);
  }

  // What is kept is active and physical.
  lemma {:induction false} KeptIsPhysical(targets: Targets, listed: seq<PathInfo>, named: set<nat>, active: set<Path>)
    requires ListsActive(listed, active)
    ensures KeptPhysical(targets, listed, named) <= active
    ensures forall p | p in KeptPhysical(targets, listed, named) :: Physical(targets, p)
  {
    hide Physical, Chosen;
  }
}
