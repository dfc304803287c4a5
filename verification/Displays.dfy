/** What Windows reports about display paths and how the host turns it into one entry
    per display. */
module Displays {
  import opened HostText

  // A path connects a source of the desktop to a target, where a display is attached.
  datatype Path = Path(source: nat, target: nat)

  // What Windows knows about a target.
  datatype Target = Target(friendlyName: string, devicePath: string, available: bool, technology: int)

  type Targets = nat -> Target

  datatype PathInfo = PathInfo(path: Path, active: bool)

  // The paths with what is active of them.
  function Listing(catalogue: seq<Path>, active: set<Path>): (paths: seq<PathInfo>)
    ensures |paths| == |catalogue|
    ensures forall i | 0 <= i < |catalogue| :: paths[i] == PathInfo(catalogue[i], catalogue[i] in active)
  {
    seq(|catalogue|, i requires 0 <= i < |catalogue| => PathInfo(catalogue[i], catalogue[i] in active))
  }

  predicate DistinctPaths(paths: seq<PathInfo>) {
    forall i, j | 0 <= i < j < |paths| :: paths[i].path != paths[j].path
  }

  datatype Descriptor = Descriptor(pathIndex: nat, friendlyName: string, devicePath: string,
                                   isActive: bool, isAvailable: bool, technology: int)

  const OUTPUT_TECHNOLOGY_INDIRECT_WIRED := 16
  const OUTPUT_TECHNOLOGY_INDIRECT_VIRTUAL := 17

  predicate IsManagedVirtualDisplay(d: Descriptor) {
    var identity := d.friendlyName + " " + d.devicePath;
    || ContainsText(identity, "Virtual Display Driver")
    || ContainsText(identity, "VDD by MTT")
    || ContainsText(identity, "MTT1337")
    || ContainsText(identity, "MttVDD")
    || ContainsText(identity, "IddSampleDriver")
  }

  predicate IsLikelyVirtualDisplay(d: Descriptor) {
    var identity := d.friendlyName + " " + d.devicePath;
    || d.technology == OUTPUT_TECHNOLOGY_INDIRECT_WIRED
    || d.technology == OUTPUT_TECHNOLOGY_INDIRECT_VIRTUAL
    || IsManagedVirtualDisplay(d)
    || ContainsText(identity, "virtual")
    || ContainsText(identity, "iddsample")
    || ContainsText(identity, "idd")
  }

  function Describing(targets: Targets, index: nat, info: PathInfo): Descriptor {
    var t := targets(info.path.target);
    Descriptor(index, t.friendlyName, t.devicePath, info.active, t.available, t.technology)
  }

  // An available display that is not virtual, on this path.
  predicate Physical(targets: Targets, p: Path) {
    var d := Describing(targets, 0, PathInfo(p, true));
    d.isAvailable && !IsLikelyVirtualDisplay(d)
  }

  predicate LikelyVirtual(targets: Targets, p: Path) {
    IsLikelyVirtualDisplay(Describing(targets, 0, PathInfo(p, true)))
  }

  // An available display that is likely virtual, on this path.
  predicate Virtual(targets: Targets, p: Path) {
    targets(p.target).available && LikelyVirtual(targets, p)
  }

  predicate ManagedVirtual(targets: Targets, p: Path) {
    IsManagedVirtualDisplay(Describing(targets, 0, PathInfo(p, true)))
  }

  // Which kind of display a descriptor is depends only on the target of its path.
  lemma {:induction false} KindOfDescriptor(targets: Targets, index: nat, info: PathInfo)
    ensures var d := Describing(targets, index, info);
            && (d.isAvailable && !IsLikelyVirtualDisplay(d) <==> Physical(targets, info.path))
            && (IsLikelyVirtualDisplay(d) <==> LikelyVirtual(targets, info.path))
            && (d.isAvailable <==> targets(info.path.target).available)
            && (IsManagedVirtualDisplay(d) <==> ManagedVirtual(targets, info.path))
            && (ManagedVirtual(targets, info.path) ==> IsLikelyVirtualDisplay(d))
            && d.isActive == info.active && d.pathIndex == index
  {
    hide ContainsText;
  }

  predicate HasName(targets: Targets, p: Path) {
    var t := targets(p.target);
    !IsBlank(t.friendlyName) || !IsBlank(t.devicePath)
  }

  // Displays are told apart by device path or, without one, by target.
  datatype Key = ByDevicePath(folded: string) | ByTarget(target: nat)

  function KeyOf(targets: Targets, p: Path): Key {
    var t := targets(p.target);
    if IsBlank(t.devicePath) then ByTarget(p.target) else ByDevicePath(Fold(t.devicePath))
  }

  // Index i was seen: Windows answered for it (named) with some name.
  ghost predicate Seen(targets: Targets, paths: seq<PathInfo>, named: set<nat>, i: nat) {
    i < |paths| && i in named && HasName(targets, paths[i].path)
  }

  // Among the first n paths, i stands for its display: the first active path of that
  // display or, if it has no active one, its first path.
  ghost predicate Chosen(targets: Targets, paths: seq<PathInfo>, named: set<nat>, n: nat, i: nat) {
    && i < n && Seen(targets, paths, named, i)
    && forall j: nat | j < n && Seen(targets, paths, named, j)
                       && KeyOf(targets, paths[j].path) == KeyOf(targets, paths[i].path) ::
         (j < i ==> paths[i].active && !paths[j].active) && (!paths[i].active ==> !paths[j].active)
  }

  // One entry for each display that was seen, taken from the path that stands for it.
  ghost predicate Describes(targets: Targets, paths: seq<PathInfo>, named: set<nat>, displays: seq<Descriptor>) {
    && (forall d | d in displays ::
          Chosen(targets, paths, named, |paths|, d.pathIndex)
          && d == Describing(targets, d.pathIndex, paths[d.pathIndex]))
    && (forall i: nat | Chosen(targets, paths, named, |paths|, i) :: Describing(targets, i, paths[i]) in displays)
  }

  // A way to compare names, as a culture has one: the first name may stand before the
  // second one.
  ghost predicate Orders(f: (string, string) -> bool) {
    && (forall a, b :: f(a, b) || f(b, a))
    && (forall a, b, c :: f(a, b) && f(b, c) ==> f(a, c))
  }

  type Collation = f: (string, string) -> bool | Orders(f) witness (a, b) => true

  // Active displays first, each group by name.
  predicate Before(collation: Collation, a: Descriptor, b: Descriptor) {
    if a.isActive != b.isActive then a.isActive else collation(a.friendlyName, b.friendlyName)
  }

  predicate Arranged(collation: Collation, displays: seq<Descriptor>) {
    forall i, j | 0 <= i < j < |displays| :: Before(collation, displays[i], displays[j])
  }

  // named holds the paths for which Windows answers with a name.
  method Describe(collation: Collation, targets: Targets, paths: seq<PathInfo>, named: set<nat>)
    returns (displays: seq<Descriptor>)
    ensures Describes(targets, paths, named, displays)
    ensures Arranged(collation, displays)
  {
    hide KeyOf, HasName;
    var found: map<Key, Descriptor> := map[];
    for index := 0 to |paths|
      invariant forall k | k in found ::
        && Chosen(targets, paths, named, index, found[k].pathIndex)
        && found[k] == Describing(targets, found[k].pathIndex, paths[found[k].pathIndex])
        && KeyOf(targets, paths[found[k].pathIndex].path) == k
      invariant forall i: nat | i < index && Seen(targets, paths, named, i) :: KeyOf(targets, paths[i].path) in found
    {
      if index !in named { continue; }
      if !HasName(targets, paths[index].path) { continue; }
      var descriptor := Describing(targets, index, paths[index]);
      var key := KeyOf(targets, paths[index].path);
      if key !in found || (!found[key].isActive && descriptor.isActive) {
        found := found[key := descriptor];
      }
    }
    displays := Arrange(collation, found.Values);
    forall i: nat | Chosen(targets, paths, named, |paths|, i) ensures Describing(targets, i, paths[i]) in displays {
      var k := KeyOf(targets, paths[i].path);
      assert k in found;
      assert found[k].pathIndex == i;
      assert found[k] in found.Values;
    }
  }

  // The descriptors in order; those of one name in any order.
  method Arrange(collation: Collation, descriptors: set<Descriptor>) returns (displays: seq<Descriptor>)
    ensures forall d :: d in displays <==> d in descriptors
    ensures |displays| == |descriptors| && Arranged(collation, displays)
  {
    displays := [];
    var rest := descriptors;
    while rest != {}
      invariant forall d :: d in descriptors <==> d in rest || d in displays
      invariant |displays| + |rest| == |descriptors| && Arranged(collation, displays)
      decreases rest
    {
      var d :| d in rest;
      rest := rest - {d};
      displays := Insert(collation, displays, d);
    }
  }

  method Insert(collation: Collation, displays: seq<Descriptor>, d: Descriptor) returns (r: seq<Descriptor>)
    requires Arranged(collation, displays)
    ensures Arranged(collation, r) && |r| == |displays| + 1
    ensures forall x :: x in r <==> x in displays || x == d
  {
    hide Orders;
    var at := 0;
    while at < |displays| && Before(collation, displays[at], d)
      invariant at <= |displays| && forall i | 0 <= i < at :: Before(collation, displays[i], d)
    {
      at := at + 1;
    }
    r := displays[..at] + [d] + displays[at..];
    forall i | at <= i < |displays| ensures Before(collation, d, displays[i]) {
      BeforeOrders(collation, d, displays[at], displays[i]);
    }
    hide Before;
  }

  lemma {:induction false} BeforeOrders(collation: Collation, a: Descriptor, b: Descriptor, c: Descriptor)
    ensures Before(collation, a, b) || Before(collation, b, a)
    ensures Before(collation, a, b) && (b == c || Before(collation, b, c)) ==> Before(collation, a, c)
  {
  }

  function Filter(displays: seq<Descriptor>, keep: Descriptor -> bool): (r: seq<Descriptor>)
    ensures forall d :: d in r <==> d in displays && keep(d)
  {
    if displays == [] then []
    else (if keep(displays[0]) then [displays[0]] else []) + Filter(displays[1..], keep)
  }

  function SelectPhysicalDisplaysForRecovery(displays: seq<Descriptor>): (r: seq<Descriptor>)
    ensures forall d | d in r :: d in displays
  {
    var availablePhysical := Filter(displays, (d: Descriptor) => d.isAvailable && !IsLikelyVirtualDisplay(d));
    var activePhysical := Filter(availablePhysical, (d: Descriptor) => d.isActive);
    if |activePhysical| > 0 then activePhysical else availablePhysical
  }

  function SelectActivePhysicalDisplaysForVerification(displays: seq<Descriptor>): seq<Descriptor> {
    Filter(displays, (d: Descriptor) => d.isActive && d.isAvailable && !IsLikelyVirtualDisplay(d))
  }

  // The wanted display that comes first on the list.
  ghost predicate IsFirst(displays: seq<Descriptor>, wanted: Descriptor -> bool, d: Descriptor) {
    exists i | 0 <= i < |displays| ::
      displays[i] == d && wanted(displays[i]) && forall j | 0 <= j < i :: !wanted(displays[j])
  }

  function First(displays: seq<Descriptor>, wanted: Descriptor -> bool): (r: Option<Descriptor>)
    ensures r.Some? ==> r.value in displays && wanted(r.value) && IsFirst(displays, wanted, r.value)
    ensures r.None? ==> forall d | d in displays :: !wanted(d)
  {
    if displays == [] then None
    else if wanted(displays[0]) then Some(displays[0])
    else
      var r := First(displays[1..], wanted);
      FirstOfRest(displays, wanted, r);
      r
  }

  lemma {:induction false} FirstOfRest(displays: seq<Descriptor>, wanted: Descriptor -> bool, r: Option<Descriptor>)
    requires displays != [] && !wanted(displays[0])
    ensures r.Some? && IsFirst(displays[1..], wanted, r.value) ==> IsFirst(displays, wanted, r.value)
  {
    var rest := displays[1..];
    if r.Some? && IsFirst(rest, wanted, r.value) {
      var i :| 0 <= i < |rest| && rest[i] == r.value && wanted(rest[i]) && forall j | 0 <= j < i :: !wanted(rest[j]);
      assert displays[i + 1] == rest[i];
      assert forall j | 0 < j <= i :: displays[j] == rest[j - 1];
    }
  }

  predicate NameMatches(d: Descriptor, nameMatch: string) {
    ContainsText(d.friendlyName, nameMatch) || ContainsText(d.devicePath, nameMatch)
  }

  // The display to stream to, among the candidates: the first whose name matches, if a
  // name was configured; otherwise the first managed one, or the first of all.
  function SelectVirtualDisplay(candidates: seq<Descriptor>, nameMatch: string): (r: Option<Descriptor>)
    ensures r.Some? ==> r.value in candidates
    ensures !IsBlank(nameMatch) && r.Some? ==>
            IsFirst(candidates, (d: Descriptor) => NameMatches(d, nameMatch), r.value)
    ensures !IsBlank(nameMatch) && r.None? ==> forall d | d in candidates :: !NameMatches(d, nameMatch)
    ensures IsBlank(nameMatch) && r.None? ==> candidates == []
    ensures IsBlank(nameMatch) && r.Some? ==>
              if exists d | d in candidates :: IsManagedVirtualDisplay(d)
              then IsFirst(candidates, (d: Descriptor) => IsManagedVirtualDisplay(d), r.value)
              else r.value == candidates[0]
  {
    if !IsBlank(nameMatch) then
      First(candidates, (d: Descriptor) => NameMatches(d, nameMatch))
    else
      var managed := First(candidates, (d: Descriptor) => IsManagedVirtualDisplay(d));
      if managed.Some? then managed
      else if candidates == [] then None else Some(candidates[0])
  }

  function SelectVirtualDisplayForActivation(displays: seq<Descriptor>, nameMatch: string): (r: Option<Descriptor>)
    ensures r.Some? ==> r.value in displays && r.value.isAvailable && IsLikelyVirtualDisplay(r.value)
    ensures r.Some? && !IsBlank(nameMatch) ==> NameMatches(r.value, nameMatch)
    ensures r.Some? && IsBlank(nameMatch) && !IsManagedVirtualDisplay(r.value) ==>
              forall d | d in displays && d.isAvailable && IsLikelyVirtualDisplay(d) :: !IsManagedVirtualDisplay(d)
    ensures r.None? ==> forall d | d in displays && d.isAvailable && IsLikelyVirtualDisplay(d) ::
              !IsBlank(nameMatch) && !NameMatches(d, nameMatch)
  {
    SelectVirtualDisplay(Filter(displays, (d: Descriptor) => d.isAvailable && IsLikelyVirtualDisplay(d)), nameMatch)
  }

  // The paths of the selected displays.
  method PathsOf(paths: seq<PathInfo>, displays: seq<Descriptor>) returns (chosen: seq<Path>)
    ensures forall p :: p in chosen <==>
              exists i: nat | i < |paths| :: paths[i].path == p && exists d | d in displays :: d.pathIndex == i
  {
    var indexes := set d | d in displays :: d.pathIndex;
    chosen := [];
    for index := 0 to |paths|
      invariant forall p :: p in chosen <==>
        exists i: nat | i < index :: paths[i].path == p && exists d | d in displays :: d.pathIndex == i
    {
      if index in indexes { chosen := chosen + [paths[index].path]; }
    }
  }

  // Every display that was seen at all has a path that stands for it, an active one if
  // the display has any.
  lemma {:induction false} SeenHasChosen(targets: Targets, paths: seq<PathInfo>, named: set<nat>, i: nat)
    returns (c: nat)
    requires Seen(targets, paths, named, i)
    ensures Chosen(targets, paths, named, |paths|, c)
    ensures KeyOf(targets, paths[c].path) == KeyOf(targets, paths[i].path)
    ensures paths[i].active ==> paths[c].active
    decreases !paths[i].active, i
  {
    hide KeyOf, HasName;
    if Chosen(targets, paths, named, |paths|, i) {
      c := i;
    } else {
      var j: nat :| j < |paths| && Seen(targets, paths, named, j)
        && KeyOf(targets, paths[j].path) == KeyOf(targets, paths[i].path)
        && ((j < i && !(paths[i].active && !paths[j].active)) || (!paths[i].active && paths[j].active));
      c := SeenHasChosen(targets, paths, named, j);
    }
  }

  // Some display listed is physical and available.
  ghost predicate SomePhysical(targets: Targets, paths: seq<PathInfo>, named: set<nat>) {
    exists c: nat :: Chosen(targets, paths, named, |paths|, c) && Physical(targets, paths[c].path)
  }

  // Every display on the list is on a path to an available physical display.
  ghost predicate AllPhysical(targets: Targets, paths: seq<PathInfo>, displays: seq<Descriptor>) {
    forall d | d in displays :: d.pathIndex < |paths| && Physical(targets, paths[d.pathIndex].path)
  }

  // Recovery selects physical displays only, and at least one if there is any.
  lemma {:induction false} RecoverySelection(targets: Targets, paths: seq<PathInfo>, named: set<nat>,
                                             displays: seq<Descriptor>)
    requires Describes(targets, paths, named, displays)
    ensures AllPhysical(targets, paths, SelectPhysicalDisplaysForRecovery(displays))
    ensures SomePhysical(targets, paths, named) ==> SelectPhysicalDisplaysForRecovery(displays) != []
  {
    hide IsLikelyVirtualDisplay, IsManagedVirtualDisplay, KeyOf, HasName;
    forall d | d in displays
      ensures d.isAvailable && !IsLikelyVirtualDisplay(d) <==> Physical(targets, paths[d.pathIndex].path)
    {
      KindOfDescriptor(targets, d.pathIndex, paths[d.pathIndex]);
    }
    var availablePhysical := Filter(displays, (d: Descriptor) => d.isAvailable && !IsLikelyVirtualDisplay(d));
    if SomePhysical(targets, paths, named) {
      var c: nat :| Chosen(targets, paths, named, |paths|, c) && Physical(targets, paths[c].path);
      assert Describing(targets, c, paths[c]) in availablePhysical;
    }
  }

  lemma {:induction false} PhysicalIsNotManaged(targets: Targets, p: Path)
    ensures !(Physical(targets, p) && ManagedVirtual(targets, p))
  {
    hide ContainsText;
  }

  // A text that contains one that is not blank is not blank.
  lemma {:induction false} NotBlankPart(text: string, part: string)
    requires part != "" && 'A' <= FoldChar(part[0]) <= 'Z' && ContainsText(text, part)
    ensures !IsBlank(text)
  {
    var at :| 0 <= at <= |text| && MatchesAt(text, part, at);
    assert FoldChar(text[at..at + |part|][0]) == Fold(text[at..at + |part|])[0] == Fold(part)[0];
    assert !IsWhiteSpace(text[at]);
  }

  // A managed virtual display has a name.
  lemma {:induction false} ManagedHasName(targets: Targets, p: Path)
    requires ManagedVirtual(targets, p)
    ensures HasName(targets, p)
  {
    hide ContainsText, IsWhiteSpace;
    var t := targets(p.target);
    var identity := t.friendlyName + " " + t.devicePath;
    var part :| part in {"Virtual Display Driver", "VDD by MTT", "MTT1337", "MttVDD", "IddSampleDriver"}
                && ContainsText(identity, part);
    NotBlankPart(identity, part);
    var i :| 0 <= i < |identity| && !IsWhiteSpace(identity[i]);
    SpaceIsBlank();
    if i < |t.friendlyName| {
      assert t.friendlyName[i] == identity[i];
    } else {
      assert t.devicePath[i - |t.friendlyName| - 1] == identity[i];
    }
  }

  // Two paths of one display have a name, or neither has.
  lemma {:induction false} SameKeySameName(targets: Targets, p: Path, q: Path)
    requires KeyOf(targets, p) == KeyOf(targets, q) && HasName(targets, p)
    ensures HasName(targets, q)
  {
    hide IsBlank, Fold;
  }
}
