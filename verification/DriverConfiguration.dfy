/** The driver's configuration document as the host edits it in place: rates removed and
    rewritten one by one, resolutions added in front, the Vita resolutions moved to the
    front. Every operation is proved to leave the tree that DisplayModes specifies. */
module DriverConfiguration {
  import opened HostText
  import opened DisplayModes
  import VitaModes
  import Sequences

  // ----- moving elements to the front of the list -----

  // An element of the document: the position it was read at stands for its identity.
  datatype Element = Element(id: nat, value: Resolution)

  function Values(elements: seq<Element>): seq<Resolution> {
    if elements == [] then [] else [elements[0].value] + Values(elements[1..])
  }

  // The elements of a list read from position n on, but for some.
  function Remaining(rs: seq<Resolution>, n: nat, taken: set<nat>): seq<Element> {
    if rs == [] then []
    else (if n in taken then [] else [Element(n, rs[0])]) + Remaining(rs[1..], n + 1, taken)
  }

  // Remove
  function Without(elements: seq<Element>, id: nat): seq<Element> {
    if elements == [] then []
    else (if elements[0].id == id then [] else [elements[0]]) + Without(elements[1..], id)
  }

  lemma {:induction false} WithoutCons(e: Element, rest: seq<Element>, id: nat)
    ensures Without([e] + rest, id) == (if e.id == id then [] else [e]) + Without(rest, id)
  {
    assert ([e] + rest)[1..] == rest;
  }

  lemma {:induction false} ValuesCons(e: Element, rest: seq<Element>)
    ensures Values([e] + rest) == [e.value] + Values(rest)
  {
    assert ([e] + rest)[1..] == rest;
  }

  lemma {:induction false} WithoutRemaining(rs: seq<Resolution>, n: nat, taken: set<nat>, id: nat)
    ensures Without(Remaining(rs, n, taken), id) == Remaining(rs, n, taken + {id})
  {
    if rs != [] {
      WithoutRemaining(rs[1..], n + 1, taken, id);
      var rest := Remaining(rs[1..], n + 1, taken);
      WithoutCons(Element(n, rs[0]), rest, id);
      hide Without;
      assert [] + rest == rest && [] + Without(rest, id) == Without(rest, id);
    }
  }

  lemma {:induction false} RemainingValues(rs: seq<Resolution>, n: nat, taken: set<nat>)
    ensures Values(Remaining(rs, n, taken)) == Others(rs, n, taken)
  {
    if rs != [] {
      RemainingValues(rs[1..], n + 1, taken);
      var rest := Remaining(rs[1..], n + 1, taken);
      ValuesCons(Element(n, rs[0]), rest);
      assert [] + rest == rest && [] + Values(rest) == Values(rest);
    }
  }

  lemma {:induction false} OthersNone(rs: seq<Resolution>, n: nat)
    ensures Others(rs, n, {}) == rs
  {
    if rs != [] { OthersNone(rs[1..], n + 1); }
  }

  // ----- the document -----

  predicate InFront(rs: seq<Resolution>) {
    FirstOf(rs, SUPPORTED[0]) == 0 && FirstOf(rs, SUPPORTED[1]) == 1 && FirstOf(rs, SUPPORTED[2]) == 2
  }

  class Document {
    const norm: Normal
    var global: Option<seq<string>>
    var resolutions: Option<seq<Resolution>>

    constructor (norm: Normal, t: Tree)
      ensures this.norm == norm && Contents() == t
    {
      this.norm := norm;
      global, resolutions := t.global, t.resolutions;
    }

    function Contents(): Tree
      reads this
    {
      Tree(global, resolutions)
    }

    // One of the two loops of NormalizeRefreshRates: the elements of live are removed or
    // rewritten one by one, following a copy of the list taken before.
    static method CleanInPlace(rates: seq<string>, excluded: set<string>, norm: Normal)
      returns (live: seq<string>, seen: set<string>)
      requires Sound(norm)
      ensures live == Clean(rates, excluded, norm)
      ensures seen == RateSet(live, norm)
    {
      hide *;
      live, seen := rates, {};
      var n, kept := 0, 0;
      ghost var done: seq<string> := [];
      assert live == done + rates[0..] && rates[0..] == rates && excluded + seen == excluded;
      RateSetNothing(norm);
      while n < |rates|
        invariant n <= |rates| && kept == |done| && live == done + rates[n..]
        invariant Clean(rates, excluded, norm) == done + Clean(rates[n..], excluded + seen, norm)
        invariant seen == RateSet(done, norm)
      {
        var rate := norm(rates[n]);
        CleanStep(rates, n, excluded + seen, norm);
        AtKept(done, rates, n, rate);
        if rate == "" || rate in excluded || rate in seen {
          live := live[..kept] + live[kept + 1..];
        } else {
          live := live[kept := rate];
          NormIsWhole(rates[n], norm);
          RateSetAdd(done, rate, norm);
          assert excluded + (seen + {rate}) == excluded + seen + {rate};
          Sequences.Regroup(done, [rate], Clean(rates[n + 1..], excluded + seen + {rate}, norm));
          seen := seen + {rate};
          done := done + [rate];
          kept := kept + 1;
        }
        n := n + 1;
      }
      CleanNothing(rates[n..], excluded + seen, norm);
      assert live == done && done + [] == done;
    }

    // The loop of NormalizeRefreshRates over the resolutions.
    method NormalizeLocalRates(globals: set<string>)
      requires Sound(norm) && resolutions.Some?
      modifies `resolutions
      ensures resolutions == Some(NormalizedAll(old(resolutions).value, globals, norm))
    {
      hide RateSet, Clean, CleanRates;
      var rs := resolutions.value;
      ghost var done := NormalizedAll(rs, globals, norm);
      hide NormalizedAll;
      var at := 0;
      while at < |rs|
        invariant at <= |rs| && resolutions.Some? && |resolutions.value| == |rs|
        invariant forall i | 0 <= i < |rs| :: resolutions.value[i] == if i < at then done[i] else rs[i]
      {
        var r := rs[at];
        var live, _ := CleanInPlace(r.rates, globals, norm);
        resolutions := Some(resolutions.value[at := r.(rates := live)]);
        at := at + 1;
      }
      assert resolutions.value == done;
    }

    method NormalizeRefreshRates()
      requires Sound(norm)
      modifies `global, `resolutions
      ensures Contents() == Normalized(old(Contents()), norm)
    {
      hide RateSet, Clean, CleanRates, NormalizedAll;
      ghost var before := Contents();
      var globals: set<string> := {};
      if global.Some? {
        CleanKeepsRates(global.value, {}, norm);
        assert RateSet(global.value, norm) - {} == RateSet(global.value, norm);
        var live, seen := CleanInPlace(global.value, {}, norm);
        global, globals := Some(live), seen;
      }
      assert globals == GlobalRates(before, norm);
      if resolutions.Some? {
        NormalizeLocalRates(globals);
      }
    }

    // AddModeToConfiguration
    method AddMode(m: Mode)
      requires Sound(norm)
      modifies `global, `resolutions
      ensures Contents() == ModeAdded(old(Contents()), m, norm)
    {
      hide RateSet, Clean;
      ghost var before := Contents();
      if resolutions.None? {
        resolutions := Some([]);
      }
      var at := FirstSized(resolutions.value, m.width, m.height);
      if at == |resolutions.value| {
        resolutions := Some([Resolution(Some(m.width), Some(m.height), [])] + resolutions.value);
        at := 0;
      }
      var globals := GlobalRates(Contents(), norm);
      if m.rate !in globals && m.rate !in RateSet(resolutions.value[at].rates, norm) {
        var r := resolutions.value[at];
        resolutions := Some(resolutions.value[at := r.(rates := r.rates + [m.rate])]);
      }
      assert globals == GlobalRates(before, norm);
      assert Contents() == before.(resolutions := Some(WithMode(Resolutions(before), globals, m, norm)));
      hide Normalized, WithMode;
      NormalizeRefreshRates();
    }

    // Every Vita resolution is taken out of the list and put in front, last one first,
    // unless they are in front already.
    method MoveVitaModesToFront() returns (moved: bool)
      requires resolutions.Some?
      requires FirstOf(resolutions.value, SUPPORTED[0]) < |resolutions.value|
      requires FirstOf(resolutions.value, SUPPORTED[1]) < |resolutions.value|
      requires FirstOf(resolutions.value, SUPPORTED[2]) < |resolutions.value|
      modifies `resolutions
      ensures resolutions == Some(Preferred(old(resolutions).value))
      ensures moved <==> !InFront(old(resolutions).value)
    {
      hide FirstOf, Preferred, Remaining, Without, Values, Others, Moved;
      var current := resolutions.value;
      var a, b, c := FirstOf(current, SUPPORTED[0]), FirstOf(current, SUPPORTED[1]), FirstOf(current, SUPPORTED[2]);
      VitaModes.PreferredShape(current, a, b, c);
      if a == 0 && b == 1 && c == 2 {
        VitaModes.PreferredInOrder(current);
        return false;
      }
      var chosen := [Element(a, current[a]), Element(b, current[b]), Element(c, current[c])];
      var elements := Remaining(current, 0, {});
      RemainingValues(current, 0, {});
      OthersNone(current, 0);
      NothingMoved(current, chosen);
      var index := 3;
      while index > 0
        invariant 0 <= index <= 3 && resolutions == Some(Values(elements))
        invariant elements == Moved(current, chosen, index)
      {
        index := index - 1;
        MovedStep(current, chosen, index);
        elements := [chosen[index]] + Without(elements, chosen[index].id);
        resolutions := Some(Values(elements));
      }
      MovedValues(current, chosen);
      moved := true;
    }
  }

  // The list when the chosen elements from index on have been moved.
  function Moved(current: seq<Resolution>, chosen: seq<Element>, index: nat): seq<Element>
    requires |chosen| == 3 && index <= 3
  {
    var a, b, c := chosen[0], chosen[1], chosen[2];
    if index == 3 then Remaining(current, 0, {})
    else if index == 2 then [c] + Remaining(current, 0, {c.id})
    else if index == 1 then [b] + ([c] + Remaining(current, 0, {c.id, b.id}))
    else [a] + ([b] + ([c] + Remaining(current, 0, {c.id, b.id, a.id})))
  }

  lemma {:induction false} NothingMoved(current: seq<Resolution>, chosen: seq<Element>)
    requires |chosen| == 3
    ensures Moved(current, chosen, 3) == Remaining(current, 0, {})
  {
    hide Remaining;
  }

  lemma {:induction false} MovedStep(current: seq<Resolution>, chosen: seq<Element>, index: nat)
    requires |chosen| == 3 && index < 3
    requires chosen[0].id != chosen[1].id && chosen[1].id != chosen[2].id && chosen[0].id != chosen[2].id
    ensures Moved(current, chosen, index) ==
            [chosen[index]] + Without(Moved(current, chosen, index + 1), chosen[index].id)
  {
    hide Remaining, Without;
    var a, b, c := chosen[0], chosen[1], chosen[2];
    assert {} + {c.id} == {c.id} && {c.id} + {b.id} == {c.id, b.id} && {c.id, b.id} + {a.id} == {c.id, b.id, a.id};
    if index == 2 {
      WithoutRemaining(current, 0, {}, c.id);
    } else if index == 1 {
      var rest := Remaining(current, 0, {c.id});
      WithoutRemaining(current, 0, {c.id}, b.id);
      WithoutCons(c, rest, b.id);
    } else {
      var rest := Remaining(current, 0, {c.id, b.id});
      WithoutRemaining(current, 0, {c.id, b.id}, a.id);
      WithoutCons(c, rest, a.id);
      WithoutCons(b, [c] + rest, a.id);
    }
  }

  lemma {:induction false} MovedValues(current: seq<Resolution>, chosen: seq<Element>)
    requires |chosen| == 3
    ensures Values(Moved(current, chosen, 0)) ==
            [chosen[0].value, chosen[1].value, chosen[2].value]
            + Others(current, 0, {chosen[0].id, chosen[1].id, chosen[2].id})
  {
    hide Remaining, Values, Others;
    var a, b, c := chosen[0], chosen[1], chosen[2];
    assert {c.id, b.id, a.id} == {a.id, b.id, c.id};
    var rest := Remaining(current, 0, {a.id, b.id, c.id});
    RemainingValues(current, 0, {a.id, b.id, c.id});
    ValuesCons(c, rest);
    ValuesCons(b, [c] + rest);
    ValuesCons(a, [b] + ([c] + rest));
  }

  // Removing and rewriting the element behind the ones already kept.
  lemma {:induction false} AtKept(done: seq<string>, rates: seq<string>, n: nat, rate: string)
    requires n < |rates|
    ensures var live := done + rates[n..];
            && live[..|done|] + live[|done| + 1..] == done + rates[n + 1..]
            && live[|done| := rate] == (done + [rate]) + rates[n + 1..]
  {
  }

  lemma {:induction false} NormIsWhole(text: string, norm: Normal)
    requires Sound(norm)
    ensures norm(text) != "" ==> Whole(norm, norm(text))
  {
  }

  lemma {:induction false} RateSetNothing(norm: Normal)
    ensures RateSet([], norm) == {}
  {
  }

  lemma {:induction false} CleanNothing(rates: seq<string>, seen: set<string>, norm: Normal)
    requires rates == []
    ensures Clean(rates, seen, norm) == []
  {
  }

  lemma {:induction false} CleanStep(copy: seq<string>, n: nat, seen: set<string>, norm: Normal)
    requires n < |copy|
    ensures var rate := norm(copy[n]);
            Clean(copy[n..], seen, norm) ==
            if rate == "" || rate in seen then Clean(copy[n + 1..], seen, norm)
            else [rate] + Clean(copy[n + 1..], seen + {rate}, norm)
  {
    assert copy[n..][1..] == copy[n + 1..];
  }
}
