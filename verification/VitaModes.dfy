/** The Vita compatibility modes as a whole: after they are added the driver's list is
    accepted, the other resolutions are where they were, and adding them again changes
    nothing. */
module VitaModes {
  import opened HostText
  import opened DisplayModes

  // The first resolution of m's size gives m.
  ghost predicate FirstGives(t: Tree, m: Mode, norm: Normal) {
    var rs := Resolutions(t);
    var index := FirstOf(rs, m);
    index < |rs| && Gives(rs[index], GlobalRates(t, norm), m, norm)
  }

  lemma {:induction false} FirstSizedIs(rs: seq<Resolution>, width: string, height: string, index: nat)
    requires index < |rs| && Sized(rs[index], width, height)
    requires forall i | 0 <= i < index :: !Sized(rs[i], width, height)
    ensures FirstSized(rs, width, height) == index
  {
  }

  lemma {:induction false} FirstSizedSame(rs: seq<Resolution>, us: seq<Resolution>, width: string, height: string)
    requires |us| == |rs| && forall i | 0 <= i < |rs| :: us[i].width == rs[i].width && us[i].height == rs[i].height
    ensures FirstSized(us, width, height) == FirstSized(rs, width, height)
  {
    hide FirstSized;
    var i, j := FirstSized(rs, width, height), FirstSized(us, width, height);
    assert i < |rs| ==> Sized(us[i], width, height);
    assert j < |us| ==> Sized(rs[j], width, height);
  }

  lemma {:induction false} FirstSizedCons(r: Resolution, rs: seq<Resolution>, width: string, height: string)
    ensures FirstSized([r] + rs, width, height) ==
            if Sized(r, width, height) then 0 else 1 + FirstSized(rs, width, height)
  {
    assert ([r] + rs)[1..] == rs;
  }

  // Where the first resolution of a size is after a mode was added.
  lemma {:induction false} FirstAfterWithMode(rs: seq<Resolution>, globals: set<string>, m: Mode, norm: Normal,
                                              width: string, height: string)
    ensures var found := FirstSized(rs, width, height);
            var added := FirstSized(rs, m.width, m.height) == |rs|;
            var after := WithMode(rs, globals, m, norm);
            && |after| == |rs| + (if added then 1 else 0)
            && FirstSized(after, width, height) ==
               if added then (if m.width == width && m.height == height then 0 else 1 + found) else found
  {
    hide RateSet, FirstSized;
    var found := FirstSized(rs, m.width, m.height);
    var all := if found == |rs| then [Resolution(Some(m.width), Some(m.height), [])] + rs else rs;
    FirstSizedCons(Resolution(Some(m.width), Some(m.height), []), rs, width, height);
    FirstSizedSame(all, WithMode(rs, globals, m, norm), width, height);
  }

  lemma {:induction false} FirstAfterModeAdded(t: Tree, m: Mode, norm: Normal, width: string, height: string)
    ensures var rs := Resolutions(t);
            var us := Resolutions(ModeAdded(t, m, norm));
            var added := FirstSized(rs, m.width, m.height) == |rs|;
            && |us| == |rs| + (if added then 1 else 0)
            && FirstSized(us, width, height) ==
               if added then (if m.width == width && m.height == height then 0 else 1 + FirstSized(rs, width, height))
               else FirstSized(rs, width, height)
  {
    hide RateSet, Clean, FirstSized, WithMode;
    var rs := Resolutions(t);
    var after := WithMode(rs, GlobalRates(t, norm), m, norm);
    FirstAfterWithMode(rs, GlobalRates(t, norm), m, norm, width, height);
    FirstSizedSame(after, Resolutions(ModeAdded(t, m, norm)), width, height);
  }

  // Normalising does not change what a single resolution gives.
  lemma {:induction false} NormalizedGives(t: Tree, norm: Normal, i: nat, n: Mode)
    requires Sound(norm) && i < |Resolutions(t)|
    ensures var u := Normalized(t, norm);
            && |Resolutions(u)| == |Resolutions(t)|
            && (Gives(Resolutions(u)[i], GlobalRates(u, norm), n, norm) <==>
                Gives(Resolutions(t)[i], GlobalRates(t, norm), n, norm))
  {
    NormalizedOffers(t, norm);
    CleanKeepsRates(Resolutions(t)[i].rates, GlobalRates(t, norm), norm);
    hide RateSet, Clean, CleanRates;
  }

  // What a resolution of the list gives does not shrink when a mode is added.
  lemma {:induction false} WithModeGives(rs: seq<Resolution>, globals: set<string>, m: Mode, norm: Normal, i: nat,
                                         n: Mode)
    requires Whole(norm, m.rate) && i < |rs|
    ensures var after := WithMode(rs, globals, m, norm);
            var j := if FirstSized(rs, m.width, m.height) == |rs| then i + 1 else i;
            j < |after| && (Gives(rs[i], globals, n, norm) ==> Gives(after[j], globals, n, norm))
  {
    hide RateSet, FirstSized, Gives;
    var found := FirstSized(rs, m.width, m.height);
    if found < |rs| {
      RateAddedGives(rs[found], globals, m, norm, n);
    }
  }

  lemma {:induction false} WithModeGivesMode(rs: seq<Resolution>, globals: set<string>, m: Mode, norm: Normal)
    requires Whole(norm, m.rate)
    ensures var after := WithMode(rs, globals, m, norm);
            var found := FirstSized(rs, m.width, m.height);
            var j := if found == |rs| then 0 else found;
            j < |after| && Gives(after[j], globals, m, norm)
  {
    hide RateSet, FirstSized, Gives;
    var found := FirstSized(rs, m.width, m.height);
    var all := if found == |rs| then [Resolution(Some(m.width), Some(m.height), [])] + rs else rs;
    var index := if found == |rs| then 0 else found;
    RateAddedGives(all[index], globals, m, norm, m);
  }

  lemma {:induction false} ModeAddedGivesFirst(t: Tree, m: Mode, norm: Normal)
    requires Sound(norm) && Whole(norm, m.rate)
    ensures FirstGives(ModeAdded(t, m, norm), m, norm)
    ensures forall n :: FirstGives(t, n, norm) ==> FirstGives(ModeAdded(t, m, norm), n, norm)
  {
    hide RateSet, FirstSized, Gives, Clean, WithMode, Normalized;
    var globals := GlobalRates(t, norm);
    var rs := Resolutions(t);
    var after := t.(resolutions := Some(WithMode(rs, globals, m, norm)));
    assert GlobalRates(after, norm) == globals;
    WithModeGivesMode(rs, globals, m, norm);
    FirstAfterWithMode(rs, globals, m, norm, m.width, m.height);
    FirstAfterModeAdded(t, m, norm, m.width, m.height);
    NormalizedGives(after, norm, FirstOf(Resolutions(after), m), m);
    forall n | FirstGives(t, n, norm) ensures FirstGives(ModeAdded(t, m, norm), n, norm) {
      WithModeGives(rs, globals, m, norm, FirstOf(rs, n), n);
      FirstAfterWithMode(rs, globals, m, norm, n.width, n.height);
      FirstAfterModeAdded(t, m, norm, n.width, n.height);
      var j := FirstOf(Resolutions(after), n);
      if j < |Resolutions(after)| {
        NormalizedGives(after, norm, j, n);
      }
    }
  }

  // Adding what is there already, to a normal tree, changes nothing.
  lemma {:induction false} ModeAddedAgain(t: Tree, m: Mode, norm: Normal)
    requires IsNormal(t, norm) && FirstGives(t, m, norm)
    ensures ModeAdded(t, m, norm) == t
  {
    hide RateSet, FirstSized, Clean, CleanRates;
    assert t.resolutions == Some(Resolutions(t));
    assert WithMode(Resolutions(t), GlobalRates(t, norm), m, norm) == Resolutions(t);
    NormalizedIsStable(t, norm);
  }

  // ----- reordering -----

  lemma {:induction false} OthersAt(rs: seq<Resolution>, n: nat, positions: set<nat>, i: nat) returns (j: nat)
    requires i < |rs| && n + i !in positions
    ensures j < |Others(rs, n, positions)| && Others(rs, n, positions)[j] == rs[i]
  {
    if i == 0 {
      j := 0;
    } else {
      j := OthersAt(rs[1..], n + 1, positions, i - 1);
      if n !in positions { j := j + 1; }
    }
  }

  lemma {:induction false} OthersFrom(rs: seq<Resolution>, n: nat, positions: set<nat>, j: nat) returns (i: nat)
    requires j < |Others(rs, n, positions)|
    ensures i < |rs| && Others(rs, n, positions)[j] == rs[i]
  {
    if n in positions {
      i := OthersFrom(rs[1..], n + 1, positions, j);
      i := i + 1;
    } else if j == 0 {
      i := 0;
    } else {
      i := OthersFrom(rs[1..], n + 1, positions, j - 1);
      i := i + 1;
    }
  }

  // Reordering offers the same modes.
  lemma {:induction false} PreferredOffers(rs: seq<Resolution>, globals: set<string>, norm: Normal, n: Mode)
    ensures OfferedBy(Preferred(rs), globals, n, norm) <==> OfferedBy(rs, globals, n, norm)
  {
    hide Gives, Others, FirstOf;
    var a, b, c := FirstOf(rs, SUPPORTED[0]), FirstOf(rs, SUPPORTED[1]), FirstOf(rs, SUPPORTED[2]);
    if a < |rs| && b < |rs| && c < |rs| {
      var others := Others(rs, 0, {a, b, c});
      var us := Preferred(rs);
      assert us == [rs[a], rs[b], rs[c]] + others;
      assert us[0] == rs[a] && us[1] == rs[b] && us[2] == rs[c];
      if OfferedBy(rs, globals, n, norm) {
        var i: nat :| i < |rs| && Gives(rs[i], globals, n, norm);
        if i !in {a, b, c} {
          var j := OthersAt(rs, 0, {a, b, c}, i);
          assert us[3 + j] == rs[i];
        }
      }
      if OfferedBy(us, globals, n, norm) {
        var j: nat :| j < |us| && Gives(us[j], globals, n, norm);
        if j >= 3 {
          assert us[j] == others[j - 3];
          var i := OthersFrom(rs, 0, {a, b, c}, j - 3);
        }
      }
    }
  }

  predicate HasSupportedSize(r: Resolution) {
    || Sized(r, SUPPORTED[0].width, SUPPORTED[0].height)
    || Sized(r, SUPPORTED[1].width, SUPPORTED[1].height)
    || Sized(r, SUPPORTED[2].width, SUPPORTED[2].height)
  }

  // The resolutions of other sizes, in order.
  function Foreign(rs: seq<Resolution>): seq<Resolution> {
    if rs == [] then []
    else (if HasSupportedSize(rs[0]) then [] else [rs[0]]) + Foreign(rs[1..])
  }

  lemma {:induction false} ForeignCons(r: Resolution, rs: seq<Resolution>)
    ensures Foreign([r] + rs) == (if HasSupportedSize(r) then [] else [r]) + Foreign(rs)
  {
    assert ([r] + rs)[1..] == rs;
  }

  lemma {:induction false} ForeignOthers(rs: seq<Resolution>, n: nat, positions: set<nat>)
    requires forall i | 0 <= i < |rs| && n + i in positions :: HasSupportedSize(rs[i])
    ensures Foreign(Others(rs, n, positions)) == Foreign(rs)
  {
    hide HasSupportedSize;
    if rs != [] {
      forall i | 0 <= i < |rs[1..]| && n + 1 + i in positions ensures HasSupportedSize(rs[1..][i]) {
        assert rs[1..][i] == rs[i + 1];
      }
      ForeignOthers(rs[1..], n + 1, positions);
      var others := Others(rs[1..], n + 1, positions);
      ForeignCons(rs[0], others);
      assert n in positions ==> HasSupportedSize(rs[0]);
      assert [] + others == others && [] + Foreign(others) == Foreign(others);
    }
  }

  lemma {:induction false} ForeignPreferred(rs: seq<Resolution>)
    ensures Foreign(Preferred(rs)) == Foreign(rs)
  {
    var a, b, c := FirstOf(rs, SUPPORTED[0]), FirstOf(rs, SUPPORTED[1]), FirstOf(rs, SUPPORTED[2]);
    if a < |rs| && b < |rs| && c < |rs| {
      assert HasSupportedSize(rs[a]) && HasSupportedSize(rs[b]) && HasSupportedSize(rs[c]);
      hide HasSupportedSize, FirstOf;
      var others := Others(rs, 0, {a, b, c});
      ForeignOthers(rs, 0, {a, b, c});
      ForeignCons(rs[c], others);
      ForeignCons(rs[b], [rs[c]] + others);
      ForeignCons(rs[a], [rs[b]] + ([rs[c]] + others));
      assert [rs[a], rs[b], rs[c]] + others == [rs[a]] + ([rs[b]] + ([rs[c]] + others));
    }
  }

  lemma {:induction false} ForeignReplaced(rs: seq<Resolution>, index: nat, r: Resolution)
    requires index < |rs| && HasSupportedSize(rs[index]) && HasSupportedSize(r)
    ensures Foreign(rs[index := r]) == Foreign(rs)
  {
    hide HasSupportedSize;
    if index == 0 {
      assert rs[0 := r][1..] == rs[1..];
    } else {
      ForeignReplaced(rs[1..], index - 1, r);
      assert rs[index := r][1..] == rs[1..][index - 1 := r];
    }
  }

  lemma {:induction false} ForeignNormalized(rs: seq<Resolution>, globals: set<string>, norm: Normal)
    ensures Foreign(NormalizedAll(rs, globals, norm)) == NormalizedAll(Foreign(rs), globals, norm)
  {
    hide Clean;
    if rs != [] {
      ForeignNormalized(rs[1..], globals, norm);
      assert NormalizedAll(rs, globals, norm)[1..] == NormalizedAll(rs[1..], globals, norm);
    }
  }

  lemma {:induction false} NormalizedTwice(rs: seq<Resolution>, globals: set<string>, norm: Normal)
    requires Sound(norm)
    ensures NormalizedAll(NormalizedAll(rs, globals, norm), globals, norm) == NormalizedAll(rs, globals, norm)
  {
    hide Clean, CleanRates, RateSet;
    var once := NormalizedAll(rs, globals, norm);
    forall i | 0 <= i < |rs| ensures NormalizedResolution(once[i], globals, norm) == once[i] {
      CleanKeepsRates(rs[i].rates, globals, norm);
      CleanIsStable(once[i].rates, globals, norm);
    }
  }

  // Adding a Vita mode leaves the other resolutions, normalised, in their order.
  lemma {:induction false} ForeignModeAdded(t: Tree, m: Mode, norm: Normal)
    requires Sound(norm) && HasSupportedSize(Resolution(Some(m.width), Some(m.height), []))
    ensures Foreign(Resolutions(ModeAdded(t, m, norm))) ==
            NormalizedAll(Foreign(Resolutions(t)), GlobalRates(t, norm), norm)
  {
    hide RateSet, FirstSized, Clean;
    var rs := Resolutions(t);
    var globals := GlobalRates(t, norm);
    var added := Resolution(Some(m.width), Some(m.height), []);
    var found := FirstSized(rs, m.width, m.height);
    var all := if found == |rs| then [added] + rs else rs;
    var index := if found == |rs| then 0 else found;
    ForeignCons(added, rs);
    assert HasSupportedSize(all[index]);
    ForeignReplaced(all, index, all[index].(rates := all[index].rates + [m.rate]));
    var after := WithMode(rs, globals, m, norm);
    assert Foreign(after) == Foreign(rs);
    ForeignNormalized(after, globals, norm);
    assert GlobalRates(t.(resolutions := Some(after)), norm) == globals;
  }

  // ----- the three modes together -----

  lemma {:induction false} SupportedSizes()
    ensures forall k | 0 <= k < 3 ::
              HasSupportedSize(Resolution(Some(SUPPORTED[k].width), Some(SUPPORTED[k].height), []))
    ensures forall k | 0 <= k < 3 :: SUPPORTED[k].rate == "60"
    ensures forall r, j, k | 0 <= j < k < 3 ::
              !(Sized(r, SUPPORTED[j].width, SUPPORTED[j].height) && Sized(r, SUPPORTED[k].width, SUPPORTED[k].height))
  {
    assert "544" != "540" by { assert "544"[2] != "540"[2]; }
    assert "960" != "1280" by { assert |"960"| != |"1280"|; }
  }

  // After the three additions the tree is normal and every Vita mode is given by the
  // first resolution of its size.
  lemma {:induction false} VitaModesAddedShape(t: Tree, norm: Normal)
    requires Ready(norm)
    ensures var u := VitaModesAdded(t, norm);
            && IsNormal(u, norm) && u.resolutions.Some?
            && FirstGives(u, SUPPORTED[0], norm)
            && FirstGives(u, SUPPORTED[1], norm) && FirstGives(u, SUPPORTED[2], norm)
            && GlobalRates(u, norm) == GlobalRates(t, norm)
            && Foreign(Resolutions(u)) == NormalizedAll(Foreign(Resolutions(t)), GlobalRates(t, norm), norm)
  {
    SupportedSizes();
    var one := ModeAdded(t, SUPPORTED[0], norm);
    var two := ModeAdded(one, SUPPORTED[1], norm);
    var three := ModeAdded(two, SUPPORTED[2], norm);
    assert three.resolutions.Some?;
    hide HasSupportedSize, FirstGives, IsNormal, GlobalRates, ModeAdded, Foreign, NormalizedAll;
    AddModeChangesExactlyThatMode(t, SUPPORTED[0], norm);
    AddModeChangesExactlyThatMode(one, SUPPORTED[1], norm);
    AddModeChangesExactlyThatMode(two, SUPPORTED[2], norm);
    ModeAddedGivesFirst(t, SUPPORTED[0], norm);
    ModeAddedGivesFirst(one, SUPPORTED[1], norm);
    ModeAddedGivesFirst(two, SUPPORTED[2], norm);
    ForeignModeAdded(t, SUPPORTED[0], norm);
    ForeignModeAdded(one, SUPPORTED[1], norm);
    ForeignModeAdded(two, SUPPORTED[2], norm);
    NormalizedTwice(Foreign(Resolutions(t)), GlobalRates(t, norm), norm);
  }

  lemma {:induction false} PreferredShape(rs: seq<Resolution>, a: nat, b: nat, c: nat)
    requires a == FirstOf(rs, SUPPORTED[0]) < |rs|
    requires b == FirstOf(rs, SUPPORTED[1]) < |rs|
    requires c == FirstOf(rs, SUPPORTED[2]) < |rs|
    ensures a != b && b != c && a != c
    ensures Preferred(rs) == [rs[a], rs[b], rs[c]] + Others(rs, 0, {a, b, c})
  {
    SupportedSizes();
    hide Others;
  }

  // The reordered list has the three sizes in front, in the order of SUPPORTED.
  lemma {:induction false} PreferredFront(rs: seq<Resolution>, k: nat)
    requires k < 3
    requires FirstOf(rs, SUPPORTED[0]) < |rs| && FirstOf(rs, SUPPORTED[1]) < |rs| && FirstOf(rs, SUPPORTED[2]) < |rs|
    ensures |Preferred(rs)| >= 3 && FirstOf(Preferred(rs), SUPPORTED[k]) == k
    ensures Preferred(rs)[k] == rs[FirstOf(rs, SUPPORTED[k])]
  {
    hide Others, FirstSized;
    SupportedSizes();
    var us := Preferred(rs);
    FirstSizedIs(us, SUPPORTED[k].width, SUPPORTED[k].height, k);
  }

  lemma {:induction false} OthersLater(rs: seq<Resolution>, n: nat, positions: set<nat>)
    requires forall p | p in positions :: p < n
    ensures Others(rs, n, positions) == rs
  {
    if rs != [] { OthersLater(rs[1..], n + 1, positions); }
  }

  lemma {:induction false} PreferredInOrder(rs: seq<Resolution>)
    requires |rs| >= 3 && forall k | 0 <= k < 3 :: FirstOf(rs, SUPPORTED[k]) == k
    ensures Preferred(rs) == rs
  {
    hide FirstSized;
    assert FirstOf(rs, SUPPORTED[0]) == 0 && FirstOf(rs, SUPPORTED[1]) == 1 && FirstOf(rs, SUPPORTED[2]) == 2;
    OthersLater(rs[3..], 3, {0, 1, 2});
    assert rs[2..][1..] == rs[3..] && rs[1..][1..] == rs[2..];
    assert Others(rs[2..], 2, {0, 1, 2}) == Others(rs[3..], 3, {0, 1, 2});
    assert Others(rs[1..], 1, {0, 1, 2}) == Others(rs[2..], 2, {0, 1, 2});
  }

  lemma {:induction false} OthersKeepClean(rs: seq<Resolution>, n: nat, positions: set<nat>, globals: set<string>,
                                           norm: Normal)
    requires forall i | 0 <= i < |rs| :: CleanRates(rs[i].rates, globals, norm)
    ensures forall i | 0 <= i < |Others(rs, n, positions)| ::
            CleanRates(Others(rs, n, positions)[i].rates, globals, norm)
  {
    hide CleanRates;
    if rs != [] {
      assert forall i | 0 <= i < |rs[1..]| :: rs[1..][i] == rs[i + 1];
      OthersKeepClean(rs[1..], n + 1, positions, globals, norm);
    }
  }

  lemma {:induction false} PreferredIsNormal(t: Tree, norm: Normal)
    requires IsNormal(t, norm) && t.resolutions.Some?
    ensures IsNormal(t.(resolutions := Some(Preferred(Resolutions(t)))), norm)
  {
    hide CleanRates, RateSet, FirstOf;
    var rs := Resolutions(t);
    var a, b, c := FirstOf(rs, SUPPORTED[0]), FirstOf(rs, SUPPORTED[1]), FirstOf(rs, SUPPORTED[2]);
    OthersKeepClean(rs, 0, {a, b, c}, GlobalRates(t, norm), norm);
    assert GlobalRates(t.(resolutions := Some(Preferred(rs))), norm) == GlobalRates(t, norm);
  }

  // Everything about the final tree that the theorems below need.
  lemma {:induction false} VitaFirstShape(t: Tree, norm: Normal)
    requires Ready(norm)
    ensures var u := VitaFirst(t, norm);
            var rs := Resolutions(u);
            && u.resolutions.Some? && IsNormal(u, norm) && |rs| >= 3
            && GlobalRates(u, norm) == GlobalRates(t, norm)
            && u == VitaModesAdded(t, norm).(resolutions := Some(Preferred(Resolutions(VitaModesAdded(t, norm)))))
            && forall k: nat | k < 3 ::
                 FirstOf(rs, SUPPORTED[k]) == k && Gives(rs[k], GlobalRates(u, norm), SUPPORTED[k], norm)
  {
    VitaModesAddedShape(t, norm);
    var added := VitaModesAdded(t, norm);
    NormalizedIsStable(added, norm);
    PreferredIsNormal(added, norm);
    hide VitaModesAdded, IsNormal, Foreign, NormalizedAll, Gives, Preferred, Normalized, RateSet;
    var u := VitaFirst(t, norm);
    assert u.global == added.global;
    forall k: nat | k < 3
      ensures |Resolutions(u)| >= 3 && FirstOf(Resolutions(u), SUPPORTED[k]) == k
      ensures Gives(Resolutions(u)[k], GlobalRates(u, norm), SUPPORTED[k], norm)
    {
      assert k == 0 || k == 1 || k == 2;
      assert FirstGives(added, SUPPORTED[k], norm);
      PreferredFront(Resolutions(added), k);
    }
  }

  // The result is always accepted as provisioned.
  lemma {:induction false} VitaModesAreAccepted(t: Tree, norm: Normal)
    requires Ready(norm)
    ensures HasVitaModes(VitaFirst(t, norm), norm)
  {
    VitaFirstShape(t, norm);
    hide VitaFirst, VitaModesAdded, IsNormal, Gives, RateSet, FirstOf, Preferred;
    var u := VitaFirst(t, norm);
    var rs := Resolutions(u);
    forall k: nat | k < 3 ensures exists i | 0 <= i < |rs| :: Gives(rs[i], GlobalRates(u, norm), SUPPORTED[k], norm) {
      assert Gives(rs[k], GlobalRates(u, norm), SUPPORTED[k], norm);
    }
  }

  // The resolutions of other sizes keep their order, with their rates normalised.
  lemma {:induction false} OtherResolutionsKeepTheirOrder(t: Tree, norm: Normal)
    requires Ready(norm)
    ensures Foreign(Resolutions(VitaFirst(t, norm))) ==
            NormalizedAll(Foreign(Resolutions(t)), GlobalRates(t, norm), norm)
  {
    VitaFirstShape(t, norm);
    VitaModesAddedShape(t, norm);
    hide VitaFirst, VitaModesAdded, IsNormal, Gives, RateSet, FirstOf, Foreign, NormalizedAll, Preferred, FirstGives;
    ForeignPreferred(Resolutions(VitaModesAdded(t, norm)));
  }

  // A provisioned tree already has what every step of provisioning would give it.
  lemma {:induction false} ProvisionedGainsNothing(t: Tree, norm: Normal)
    requires Ready(norm)
    ensures var u := VitaFirst(t, norm);
            && (forall k: nat | k < 3 ::
                  ModeAdded(u, SUPPORTED[k], norm) == u && FirstOf(Resolutions(u), SUPPORTED[k]) == k)
            && Normalized(u, norm) == u && u.resolutions.Some? && |Resolutions(u)| >= 3
  {
    var u := VitaFirst(t, norm);
    VitaFirstShape(t, norm);
    hide VitaFirst, IsNormal, Gives, RateSet, FirstSized, Preferred, Normalized, ModeAdded, VitaModesAdded;
    forall k: nat | k < 3 ensures ModeAdded(u, SUPPORTED[k], norm) == u {
      assert FirstGives(u, SUPPORTED[k], norm);
      ModeAddedAgain(u, SUPPORTED[k], norm);
    }
    NormalizedIsStable(u, norm);
  }

  // A second run has nothing to change.
  lemma {:induction false} AddingVitaModesIsIdempotent(t: Tree, norm: Normal)
    requires Ready(norm)
    ensures VitaFirst(VitaFirst(t, norm), norm) == VitaFirst(t, norm)
  {
    var u := VitaFirst(t, norm);
    ProvisionedGainsNothing(t, norm);
    hide VitaFirst, FirstSized, Preferred, Normalized, ModeAdded, VitaModesAdded;
    assert VitaModesAdded(u, norm) == u by { VitaModesAddedSteps(u, norm); }
    PreferredInOrder(Resolutions(u));
    assert VitaFirst(u, norm) == u by { VitaFirstSteps(u, norm); }
  }

  lemma {:induction false} VitaModesAddedSteps(t: Tree, norm: Normal)
    ensures VitaModesAdded(t, norm) ==
            ModeAdded(ModeAdded(ModeAdded(t, SUPPORTED[0], norm), SUPPORTED[1], norm), SUPPORTED[2], norm)
  {
  }

  lemma {:induction false} VitaFirstSteps(t: Tree, norm: Normal)
    ensures var added := Normalized(VitaModesAdded(t, norm), norm);
            VitaFirst(t, norm) == added.(resolutions := Some(Preferred(Resolutions(added))))
  {
  }

  predicate NewSize(t: Tree, m: Mode) {
    FirstSized(Resolutions(t), m.width, m.height) == |Resolutions(t)|
  }

  // What adding m brings: m itself and, if its size is new, the global rates.
  predicate Brings(t: Tree, m: Mode, norm: Normal, n: Mode) {
    n == m || (NewSize(t, m) && n.width == m.width && n.height == m.height && n.rate in GlobalRates(t, norm))
  }

  lemma {:induction false} ModeAddedBrings(t: Tree, m: Mode, norm: Normal, n: Mode)
    requires Sound(norm) && Whole(norm, m.rate)
    ensures Offers(ModeAdded(t, m, norm), n, norm) <==> Offers(t, n, norm) || Brings(t, m, norm, n)
    ensures GlobalRates(ModeAdded(t, m, norm), norm) == GlobalRates(t, norm)
  {
    AddModeChangesExactlyThatMode(t, m, norm);
    hide FirstSized, OfferedBy, ModeAdded, GlobalRates;
  }

  // Adding a mode of one size does not make another size new or known.
  lemma {:induction false} NewSizeKept(t: Tree, j: nat, k: nat, norm: Normal)
    requires j < k < 3
    ensures NewSize(ModeAdded(t, SUPPORTED[j], norm), SUPPORTED[k]) <==> NewSize(t, SUPPORTED[k])
  {
    hide FirstSized, ModeAdded;
    FirstAfterModeAdded(t, SUPPORTED[j], norm, SUPPORTED[k].width, SUPPORTED[k].height);
    DifferentSizes(j, k);
  }

  lemma {:induction false} VitaModesAddedOffers(t: Tree, norm: Normal, n: Mode)
    requires Ready(norm)
    ensures Offers(VitaModesAdded(t, norm), n, norm) <==>
            Offers(t, n, norm) || exists k: nat | k < 3 :: Brings(t, SUPPORTED[k], norm, n)
  {
    SupportedSizes();
    var one := ModeAdded(t, SUPPORTED[0], norm);
    var two := ModeAdded(one, SUPPORTED[1], norm);
    hide FirstSized, ModeAdded, Offers, HasSupportedSize, GlobalRates, NewSize;
    ModeAddedBrings(t, SUPPORTED[0], norm, n);
    ModeAddedBrings(one, SUPPORTED[1], norm, n);
    ModeAddedBrings(two, SUPPORTED[2], norm, n);
    NewSizeKept(t, 0, 1, norm);
    NewSizeKept(t, 0, 2, norm);
    NewSizeKept(one, 1, 2, norm);
    assert Brings(one, SUPPORTED[1], norm, n) <==> Brings(t, SUPPORTED[1], norm, n);
    assert Brings(two, SUPPORTED[2], norm, n) <==> Brings(t, SUPPORTED[2], norm, n);
    hide Brings;
  }

  // The modes offered afterwards: those offered before, the three Vita modes, and the
  // global rates for those of the three sizes that were new.
  lemma {:induction false} VitaModesOffered(t: Tree, norm: Normal, n: Mode)
    requires Ready(norm)
    ensures Offers(VitaFirst(t, norm), n, norm) <==>
            Offers(t, n, norm) || exists k: nat | k < 3 :: Brings(t, SUPPORTED[k], norm, n)
  {
    VitaModesAddedOffers(t, norm, n);
    VitaFirstShape(t, norm);
    hide VitaFirst, IsNormal, Gives, FirstSized, Preferred, VitaModesAdded, OfferedBy, Brings;
    var added := VitaModesAdded(t, norm);
    PreferredOffers(Resolutions(added), GlobalRates(added, norm), norm, n);
  }

  lemma {:induction false} DifferentSizes(j: nat, k: nat)
    requires j < k < 3
    ensures SUPPORTED[j].width != SUPPORTED[k].width || SUPPORTED[j].height != SUPPORTED[k].height
  {
    SupportedSizes();
    var r := Resolution(Some(SUPPORTED[j].width), Some(SUPPORTED[j].height), []);
    assert Sized(r, SUPPORTED[j].width, SUPPORTED[j].height);
  }

  // The check accepts a tree exactly when provisioning would offer nothing new and the first
  // resolution of the list gives the native mode already.
  lemma {:induction false} AcceptedIffNothingMissing(t: Tree, norm: Normal)
    requires Ready(norm)
    ensures HasVitaModes(t, norm) <==>
            && Resolutions(t) != []
            && OfferedBy([Resolutions(t)[0]], GlobalRates(t, norm), Mode("960", "544", "60"), norm)
            && forall m :: Offers(VitaFirst(t, norm), m, norm) ==> Offers(t, m, norm)
  {
    hide VitaFirst, GlobalRates;
    forall m ensures Offers(VitaFirst(t, norm), m, norm) <==>
                     Offers(t, m, norm) || exists k: nat | k < 3 :: Brings(t, SUPPORTED[k], norm, m)
    {
      VitaModesOffered(t, norm, m);
    }
    var rs := Resolutions(t);
    if rs != [] {
      assert OfferedBy([rs[0]], GlobalRates(t, norm), SUPPORTED[0], norm) <==>
             Gives(rs[0], GlobalRates(t, norm), SUPPORTED[0], norm) by {
        assert [rs[0]][0] == rs[0];
      }
    }
    forall k: nat | k < 3 ensures Offers(VitaFirst(t, norm), SUPPORTED[k], norm) {
      assert Brings(t, SUPPORTED[k], norm, SUPPORTED[k]);
    }
    if HasVitaModes(t, norm) {
      forall m, k: nat | k < 3 && Brings(t, SUPPORTED[k], norm, m) ensures Offers(t, m, norm) {
        assert Offers(t, SUPPORTED[k], norm);
        assert !NewSize(t, SUPPORTED[k]);
      }
    }
  }
}
