/** The mode list of the virtual display driver: adding a mode, normalising the refresh
    rates, and putting the Vita modes first. The XML document is represented by the
    part these operations read and write: the rates of its first `global` element and
    the children of its first `resolutions` element. */
module DisplayModes {
  import opened HostText

  datatype Resolution = Resolution(width: Option<string>, height: Option<string>, rates: seq<string>)

  datatype Tree = Tree(global: Option<seq<string>>, resolutions: Option<seq<Resolution>>)

  datatype Mode = Mode(width: string, height: string, rate: string)

  // How a rate is written in normal form, left open: parsing and formatting decimals is
  // not part of this model.
  type Normal = string -> string

  // What is used of it: normal forms are stable, and a whole frame rate, as the host
  // writes it, is in normal form.
  ghost predicate Sound(norm: Normal) {
    forall s :: norm(norm(s)) == norm(s)
  }

  predicate Whole(norm: Normal, rate: string) {
    norm(rate) == rate && rate != ""
  }

  const SUPPORTED: seq<Mode> := [Mode("960", "544", "60"), Mode("960", "540", "60"), Mode("1280", "720", "60")]

  // ----- rates -----

  // The first occurrence of every normal form that is neither blank nor in seen.
  function Clean(rates: seq<string>, seen: set<string>, norm: Normal): seq<string> {
    if rates == [] then []
    else
      var rate := norm(rates[0]);
      if rate == "" || rate in seen then Clean(rates[1..], seen, norm)
      else [rate] + Clean(rates[1..], seen + {rate}, norm)
  }

  // The rates a list stands for.
  function RateSet(rates: seq<string>, norm: Normal): set<string> {
    set i | 0 <= i < |rates| && norm(rates[i]) != "" :: norm(rates[i])
  }

  function GlobalRates(t: Tree, norm: Normal): set<string> {
    if t.global.Some? then RateSet(t.global.value, norm) else {}
  }

  // In normal form, not blank, not repeated, and none of the excluded ones.
  ghost predicate CleanRates(rates: seq<string>, excluded: set<string>, norm: Normal) {
    && (forall i | 0 <= i < |rates| :: Whole(norm, rates[i]) && rates[i] !in excluded)
    && (forall i, j | 0 <= i < j < |rates| :: rates[i] != rates[j])
  }

  lemma {:induction false} RateSetCons(rate: string, rest: seq<string>, norm: Normal)
    ensures RateSet([rate] + rest, norm) == (if norm(rate) == "" then {} else {norm(rate)}) + RateSet(rest, norm)
  {
    var all := [rate] + rest;
    forall r | r in RateSet(rest, norm) ensures r in RateSet(all, norm) {
      var i :| 0 <= i < |rest| && norm(rest[i]) == r && r != "";
      assert all[i + 1] == rest[i];
    }
    if norm(rate) != "" { assert all[0] == rate && norm(rate) in RateSet(all, norm); }
  }

  lemma {:induction false} CleanKeepsRates(rates: seq<string>, seen: set<string>, norm: Normal)
    requires Sound(norm)
    ensures CleanRates(Clean(rates, seen, norm), seen, norm)
    ensures RateSet(Clean(rates, seen, norm), norm) == RateSet(rates, norm) - seen
  {
    if rates == [] {
    } else {
      var rate := norm(rates[0]);
      assert rates == [rates[0]] + rates[1..];
      RateSetCons(rates[0], rates[1..], norm);
      hide RateSet;
      if rate == "" || rate in seen {
        CleanKeepsRates(rates[1..], seen, norm);
      } else {
        CleanKeepsRates(rates[1..], seen + {rate}, norm);
        RateSetCons(rate, Clean(rates[1..], seen + {rate}, norm), norm);
        assert norm(rate) == rate;
      }
    }
  }

  lemma {:induction false} CleanIsStable(rates: seq<string>, seen: set<string>, norm: Normal)
    requires CleanRates(rates, seen, norm)
    ensures Clean(rates, seen, norm) == rates
  {
    if rates != [] {
      assert Whole(norm, rates[0]);
      CleanIsStable(rates[1..], seen + {rates[0]}, norm);
    }
  }

  // ----- the tree -----

  function NormalizedResolution(r: Resolution, globals: set<string>, norm: Normal): Resolution {
    r.(rates := Clean(r.rates, globals, norm))
  }

  function NormalizedAll(rs: seq<Resolution>, globals: set<string>, norm: Normal): (r: seq<Resolution>)
    ensures |r| == |rs| && forall i | 0 <= i < |rs| :: r[i] == NormalizedResolution(rs[i], globals, norm)
  {
    seq(|rs|, i requires 0 <= i < |rs| => NormalizedResolution(rs[i], globals, norm))
  }

  function Normalized(t: Tree, norm: Normal): Tree {
    Tree(
      if t.global.Some? then Some(Clean(t.global.value, {}, norm)) else None,
      if t.resolutions.Some? then Some(NormalizedAll(t.resolutions.value, GlobalRates(t, norm), norm)) else None)
  }

  ghost predicate IsNormal(t: Tree, norm: Normal) {
    && (t.global.Some? ==> CleanRates(t.global.value, {}, norm))
    && (t.resolutions.Some? ==>
          forall i | 0 <= i < |t.resolutions.value| ::
            CleanRates(t.resolutions.value[i].rates, GlobalRates(t, norm), norm))
  }

  predicate Sized(r: Resolution, width: string, height: string) {
    r.width == Some(width) && r.height == Some(height)
  }

  function Resolutions(t: Tree): seq<Resolution> {
    if t.resolutions.Some? then t.resolutions.value else []
  }

  // The rates that one resolution of the tree offers.
  function Rates(r: Resolution, globals: set<string>, norm: Normal): set<string> {
    globals + RateSet(r.rates, norm)
  }

  // The driver offers mode m.
  ghost predicate Offers(t: Tree, m: Mode, norm: Normal) {
    OfferedBy(Resolutions(t), GlobalRates(t, norm), m, norm)
  }

  ghost predicate OfferedBy(rs: seq<Resolution>, globals: set<string>, m: Mode, norm: Normal) {
    exists i | 0 <= i < |rs| :: Gives(rs[i], globals, m, norm)
  }

  predicate Gives(r: Resolution, globals: set<string>, m: Mode, norm: Normal) {
    Sized(r, m.width, m.height) && m.rate in Rates(r, globals, norm)
  }

  function FirstSized(rs: seq<Resolution>, width: string, height: string): (index: nat)
    ensures index <= |rs|
    ensures index < |rs| ==> Sized(rs[index], width, height)
    ensures forall i | 0 <= i < index :: !Sized(rs[i], width, height)
  {
    if rs == [] || Sized(rs[0], width, height) then 0 else 1 + FirstSized(rs[1..], width, height)
  }

  // The resolutions with one for the size of m in front if there was none, and with its
  // rate added to the first one of that size unless it is offered already.
  function WithMode(rs: seq<Resolution>, globals: set<string>, m: Mode, norm: Normal): seq<Resolution> {
    var found := FirstSized(rs, m.width, m.height);
    var all := if found == |rs| then [Resolution(Some(m.width), Some(m.height), [])] + rs else rs;
    var index := if found == |rs| then 0 else found;
    if m.rate in globals || m.rate in RateSet(all[index].rates, norm) then all
    else all[index := all[index].(rates := all[index].rates + [m.rate])]
  }

  function ModeAdded(t: Tree, m: Mode, norm: Normal): Tree {
    Normalized(t.(resolutions := Some(WithMode(Resolutions(t), GlobalRates(t, norm), m, norm))), norm)
  }

  function VitaModesAdded(t: Tree, norm: Normal): Tree {
    ModeAdded(ModeAdded(ModeAdded(t, SUPPORTED[0], norm), SUPPORTED[1], norm), SUPPORTED[2], norm)
  }

  // The resolutions without those at the given positions, counted from n.
  function Others(rs: seq<Resolution>, n: nat, positions: set<nat>): seq<Resolution> {
    if rs == [] then []
    else (if n in positions then [] else [rs[0]]) + Others(rs[1..], n + 1, positions)
  }

  function FirstOf(rs: seq<Resolution>, m: Mode): (index: nat)
    ensures index <= |rs|
  {
    FirstSized(rs, m.width, m.height)
  }

  function Preferred(rs: seq<Resolution>): seq<Resolution> {
    var a, b, c := FirstOf(rs, SUPPORTED[0]), FirstOf(rs, SUPPORTED[1]), FirstOf(rs, SUPPORTED[2]);
    if a < |rs| && b < |rs| && c < |rs| then [rs[a], rs[b], rs[c]] + Others(rs, 0, {a, b, c}) else rs
  }

  function VitaFirst(t: Tree, norm: Normal): Tree {
    var added := Normalized(VitaModesAdded(t, norm), norm);
    added.(resolutions := Some(Preferred(Resolutions(added))))
  }

  // HasVitaCompatibilityModesInConfiguration
  predicate HasVitaModes(t: Tree, norm: Normal) {
    var rs := Resolutions(t);
    var globals := GlobalRates(t, norm);
    && t.resolutions.Some? && rs != []
    && Gives(rs[0], globals, SUPPORTED[0], norm)
    && forall k | 0 <= k < 3 :: exists i | 0 <= i < |rs| :: Gives(rs[i], globals, SUPPORTED[k], norm)
  }

  ghost predicate Ready(norm: Normal) {
    Sound(norm) && Whole(norm, "60")
  }

  // ----- what normalising keeps -----

  lemma {:induction false} NormalizedOffers(t: Tree, norm: Normal)
    requires Sound(norm)
    ensures GlobalRates(Normalized(t, norm), norm) == GlobalRates(t, norm)
    ensures IsNormal(Normalized(t, norm), norm)
    ensures forall m :: Offers(Normalized(t, norm), m, norm) <==> Offers(t, m, norm)
  {
    var u := Normalized(t, norm);
    var globals := GlobalRates(t, norm);
    if t.global.Some? { CleanKeepsRates(t.global.value, {}, norm); }
    hide RateSet, Clean, CleanRates;
    var rs, us := Resolutions(t), Resolutions(u);
    forall i | 0 <= i < |rs|
      ensures Rates(us[i], globals, norm) == Rates(rs[i], globals, norm)
      ensures CleanRates(us[i].rates, globals, norm)
    {
      CleanKeepsRates(rs[i].rates, globals, norm);
    }
    forall m ensures OfferedBy(us, globals, m, norm) <==> OfferedBy(rs, globals, m, norm) {
      OfferedPointwise(rs, us, globals, m, norm);
    }
  }

  lemma {:induction false} OfferedPointwise(rs: seq<Resolution>, us: seq<Resolution>, globals: set<string>, m: Mode,
                                            norm: Normal)
    requires |us| == |rs| && forall i | 0 <= i < |rs| ::
               && us[i].width == rs[i].width && us[i].height == rs[i].height
               && Rates(us[i], globals, norm) == Rates(rs[i], globals, norm)
    ensures OfferedBy(us, globals, m, norm) <==> OfferedBy(rs, globals, m, norm)
  {
    hide Rates;
    forall i | 0 <= i < |rs| ensures Gives(us[i], globals, m, norm) <==> Gives(rs[i], globals, m, norm) {
    }
  }

  lemma {:induction false} NormalizedIsStable(t: Tree, norm: Normal)
    requires IsNormal(t, norm)
    ensures Normalized(t, norm) == t
  {
    var globals := GlobalRates(t, norm);
    if t.global.Some? { CleanIsStable(t.global.value, {}, norm); }
    var rs := Resolutions(t);
    forall i | 0 <= i < |rs| ensures NormalizedResolution(rs[i], globals, norm) == rs[i] {
      CleanIsStable(rs[i].rates, globals, norm);
    }
    assert t.resolutions.Some? ==> NormalizedAll(rs, globals, norm) == rs;
  }

  // ----- adding a mode -----

  lemma {:induction false} RateSetAdd(rates: seq<string>, rate: string, norm: Normal)
    requires Whole(norm, rate)
    ensures RateSet(rates + [rate], norm) == RateSet(rates, norm) + {rate}
  {
    var all := rates + [rate];
    assert all[|rates|] == rate;
    forall r | r in RateSet(rates, norm) ensures r in RateSet(all, norm) {
      var i :| 0 <= i < |rates| && norm(rates[i]) == r && r != "";
      assert all[i] == rates[i];
    }
  }

  lemma {:induction false} OfferedCons(r: Resolution, rs: seq<Resolution>, globals: set<string>, m: Mode, norm: Normal)
    ensures OfferedBy([r] + rs, globals, m, norm) <==> Gives(r, globals, m, norm) || OfferedBy(rs, globals, m, norm)
  {
    hide Gives;
    var all := [r] + rs;
    if i :| 0 <= i < |rs| && Gives(rs[i], globals, m, norm) { assert all[i + 1] == rs[i]; }
    assert all[0] == r;
  }

  lemma {:induction false} OfferedReplaced(rs: seq<Resolution>, index: nat, r: Resolution, globals: set<string>,
                                           m: Mode, norm: Normal)
    requires index < |rs| && (Gives(rs[index], globals, m, norm) ==> Gives(r, globals, m, norm))
    ensures OfferedBy(rs[index := r], globals, m, norm) <==>
            OfferedBy(rs, globals, m, norm) || Gives(r, globals, m, norm)
  {
    hide Gives;
    var after := rs[index := r];
    assert after[index] == r;
    assert forall i | 0 <= i < |rs| && i != index :: after[i] == rs[i];
  }

  // The resolution that gets the rate gives that mode, and nothing else is new.
  lemma {:induction false} RateAddedGives(r: Resolution, globals: set<string>, m: Mode, norm: Normal, n: Mode)
    requires Whole(norm, m.rate) && Sized(r, m.width, m.height)
    ensures Gives(r.(rates := r.rates + [m.rate]), globals, n, norm) <==> Gives(r, globals, n, norm) || n == m
    ensures m.rate in globals || m.rate in RateSet(r.rates, norm) ==> Gives(r, globals, m, norm)
  {
    RateSetAdd(r.rates, m.rate, norm);
    hide RateSet;
  }

  // A new resolution gives the global rates.
  lemma {:induction false} NewResolutionGives(m: Mode, globals: set<string>, norm: Normal, n: Mode)
    ensures Gives(Resolution(Some(m.width), Some(m.height), []), globals, n, norm) <==>
            n.width == m.width && n.height == m.height && n.rate in globals
  {
    assert RateSet([], norm) == {};
  }

  // The resolutions offer what they offered, the mode asked for and, for a resolution
  // that is new, the global rates.
  lemma {:induction false} WithModeOffers(rs: seq<Resolution>, globals: set<string>, m: Mode, norm: Normal, n: Mode)
    requires Whole(norm, m.rate)
    ensures OfferedBy(WithMode(rs, globals, m, norm), globals, n, norm) <==>
            || OfferedBy(rs, globals, n, norm)
            || n == m
            || (FirstSized(rs, m.width, m.height) == |rs|
                && n.width == m.width && n.height == m.height && n.rate in globals)
  {
    hide RateSet, Gives, OfferedBy;
    var found := FirstSized(rs, m.width, m.height);
    var added := Resolution(Some(m.width), Some(m.height), []);
    var all := if found == |rs| then [added] + rs else rs;
    var index := if found == |rs| then 0 else found;
    OfferedCons(added, rs, globals, n, norm);
    NewResolutionGives(m, globals, norm, n);
    RateAddedGives(all[index], globals, m, norm, n);
    OfferedReplaced(all, index, all[index].(rates := all[index].rates + [m.rate]), globals, n, norm);
    OfferedReplaced(all, index, all[index], globals, n, norm);
    assert all[index := all[index]] == all;
  }

  // Adding a mode changes the modes the driver offers by exactly that mode (with the
  // global rates if the resolution is new), and leaves every rate list normal.
  lemma {:induction false} AddModeChangesExactlyThatMode(t: Tree, m: Mode, norm: Normal)
    requires Sound(norm) && Whole(norm, m.rate)
    ensures IsNormal(ModeAdded(t, m, norm), norm)
    ensures GlobalRates(ModeAdded(t, m, norm), norm) == GlobalRates(t, norm)
    ensures forall n :: Offers(ModeAdded(t, m, norm), n, norm) <==>
              || Offers(t, n, norm)
              || n == m
              || (FirstSized(Resolutions(t), m.width, m.height) == |Resolutions(t)|
                  && n.width == m.width && n.height == m.height && n.rate in GlobalRates(t, norm))
  {
    hide RateSet, FirstSized, OfferedBy, Normalized;
    var globals := GlobalRates(t, norm);
    var rs := Resolutions(t);
    var u := t.(resolutions := Some(WithMode(rs, globals, m, norm)));
    NormalizedOffers(u, norm);
    forall n ensures Offers(u, n, norm) <==>
              || Offers(t, n, norm) || n == m
              || (FirstSized(rs, m.width, m.height) == |rs|
                  && n.width == m.width && n.height == m.height && n.rate in globals)
    {
      WithModeOffers(rs, globals, m, norm, n);
    }
  }
}
