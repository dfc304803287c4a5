/** What the list queries make of a document, compared with what the document says, for
    every tree of elements. */
module XmlLists {
  import opened HostText
  import opened XmlQuery

  // ----- what a document says -----

  // A record's own fields are those inside it but not inside a record within it; of a
  // field that comes twice the later one counts.
  function FieldsOf(n: Node, w: Wanted, m: Fields): Fields {
    match n
    case Data(_) => m
    case Element(name, children) =>
      if name == w.record then m
      else FieldsOfAll(children, w, if name in w.fields then m[name := Some(TextOf(children))] else m)
  }

  function FieldsOfAll(ns: seq<Node>, w: Wanted, m: Fields): Fields {
    if ns == [] then m else FieldsOfAll(ns[1..], w, FieldsOf(ns[0], w, m))
  }

  // The records of a document at any depth, the one that starts last first.
  function Records(n: Node, w: Wanted): seq<Fields> {
    match n
    case Data(_) => []
    case Element(name, children) =>
      RecordsAll(children, w) + (if name == w.record then [FieldsOfAll(children, w, map[])] else [])
  }

  function RecordsAll(ns: seq<Node>, w: Wanted): seq<Fields> {
    if ns == [] then [] else RecordsAll(ns[1..], w) + Records(ns[0], w)
  }

  // ----- the fields of a document, in the order in which they start -----

  // owner is the record the field belongs to, started the number of records that have
  // started before it. Records are numbered from 0 in the order in which they start.
  datatype Mark = Mark(owner: Option<nat>, started: nat, name: string, leaf: bool, worded: bool, text: string)

  function MarksOf(n: Node, w: Wanted, owner: Option<nat>, started: nat): seq<Mark> {
    match n
    case Data(_) => []
    case Element(name, children) =>
      if name == w.record then MarksOfAll(children, w, Some(started), started + 1)
      else (if name in w.fields then [MarkOf(name, children, owner, started)] else [])
           + MarksOfAll(children, w, owner, started)
  }

  function MarksOfAll(ns: seq<Node>, w: Wanted, owner: Option<nat>, started: nat): seq<Mark> {
    if ns == [] then []
    else MarksOf(ns[0], w, owner, started) + MarksOfAll(ns[1..], w, owner, started + |Records(ns[0], w)|)
  }

  function MarkOf(name: string, children: seq<Node>, owner: Option<nat>, started: nat): Mark {
    Mark(owner, started, name, IsLeaf(children), exists i | 0 <= i < |children| :: children[i].Data?, TextOf(children))
  }

  // The handlers take a field without elements for one of the record started last.
  predicate TakenFor(m: Mark, r: nat) {
    m.leaf && m.started == r + 1
  }

  predicate Owns(r: nat, m: Mark) {
    m.owner == Some(r)
  }

  // What the handlers, and what the document, make of the fields of a record.
  function TakenFields(ms: seq<Mark>, r: nat, m: Fields): Fields {
    if ms == [] then m
    else TakenFields(ms[1..], r,
           if TakenFor(ms[0], r) then m[ms[0].name := if ms[0].worded then Some(ms[0].text) else None] else m)
  }

  function OwnFields(ms: seq<Mark>, r: nat, m: Fields): Fields {
    if ms == [] then m
    else OwnFields(ms[1..], r, if Owns(r, ms[0]) then m[ms[0].name := Some(ms[0].text)] else m)
  }

  lemma {:induction false} TakenFieldsConcat(a: seq<Mark>, b: seq<Mark>, r: nat, m: Fields)
    ensures TakenFields(a + b, r, m) == TakenFields(b, r, TakenFields(a, r, m))
    decreases |a|
  {
    if a == [] {
      assert a + b == b;
    } else {
      assert (a + b)[1..] == a[1..] + b;
      var one := if TakenFor(a[0], r) then m[a[0].name := if a[0].worded then Some(a[0].text) else None] else m;
      TakenFieldsConcat(a[1..], b, r, one);
    }
  }

  lemma {:induction false} OwnFieldsConcat(a: seq<Mark>, b: seq<Mark>, r: nat, m: Fields)
    ensures OwnFields(a + b, r, m) == OwnFields(b, r, OwnFields(a, r, m))
    decreases |a|
  {
    if a == [] {
      assert a + b == b;
    } else {
      assert (a + b)[1..] == a[1..] + b;
      OwnFieldsConcat(a[1..], b, r, if Owns(r, a[0]) then m[a[0].name := Some(a[0].text)] else m);
    }
  }

  lemma {:induction false} OneMark(m: Mark, r: nat, f: Fields)
    ensures TakenFields([m], r, f) ==
            if TakenFor(m, r) then f[m.name := if m.worded then Some(m.text) else None] else f
    ensures OwnFields([m], r, f) == if Owns(r, m) then f[m.name := Some(m.text)] else f
  {
    assert [m][1..] == [];
  }

  lemma {:induction false} MarksOfElement(name: string, children: seq<Node>, w: Wanted, owner: Option<nat>,
                                          started: nat)
    ensures MarksOf(Element(name, children), w, owner, started) ==
            if name == w.record then MarksOfAll(children, w, Some(started), started + 1)
            else if name in w.fields then [MarkOf(name, children, owner, started)]
              + MarksOfAll(children, w, owner, started)
            else MarksOfAll(children, w, owner, started)
  {
    hide MarksOfAll, MarkOf;
    var ms := MarksOfAll(children, w, owner, started);
    assert [] + ms == ms;
  }

  lemma {:induction false} DataHasNoMarks(n: Node, w: Wanted, owner: Option<nat>, started: nat)
    requires n.Data?
    ensures MarksOf(n, w, owner, started) == []
  {
  }

  // ----- the list in terms of the fields -----

  // The fields of record r on a list of the records started so far.
  function Held(list: seq<Fields>, r: nat): Fields {
    if r < |list| then list[|list| - 1 - r] else map[]
  }

  // The list query makes one node for every record, whatever the document.
  lemma {:induction false} OneNodeEach(n: Node, w: Wanted, list: seq<Fields>)
    ensures |Effect(n, w, list)| == |list| + |Records(n, w)|
    decreases n
  {
    match n
    case Data(_) =>
    case Element(name, children) =>
      if name != w.record && name in w.fields && IsLeaf(children) {
        LeafHasNoRecords(children, w);
      } else {
        OneNodeEachAll(children, w, if name == w.record then [map[]] + list else list);
      }
  }

  lemma {:induction false} OneNodeEachAll(ns: seq<Node>, w: Wanted, list: seq<Fields>)
    ensures |EffectAll(ns, w, list)| == |list| + |RecordsAll(ns, w)|
    decreases ns
  {
    if ns != [] {
      OneNodeEach(ns[0], w, list);
      OneNodeEachAll(ns[1..], w, Effect(ns[0], w, list));
    }
  }

  lemma {:induction false} LeafHasNoRecords(ns: seq<Node>, w: Wanted)
    requires IsLeaf(ns)
    ensures RecordsAll(ns, w) == [] && forall owner, started :: MarksOfAll(ns, w, owner, started) == []
  {
    if ns != [] {
      assert IsLeaf(ns[1..]) by { LeavesKeepTheList(ns, w, []); }
      LeafHasNoRecords(ns[1..], w);
    }
  }

  // Each record holds the fields that the handlers take for its own.
  lemma {:induction false} EffectTakes(n: Node, w: Wanted, owner: Option<nat>, list: seq<Fields>, r: nat)
    ensures Held(Effect(n, w, list), r) == TakenFields(MarksOf(n, w, owner, |list|), r, Held(list, r))
    decreases n
  {
    OneNodeEach(n, w, list);
    match n
    case Data(_) =>
    case Element(name, children) =>
      if name == w.record {
        EffectTakesAll(children, w, Some(|list|), [map[]] + list, r);
      } else if name in w.fields && IsLeaf(children) {
        hide Effect;
        LeafTaken(name, children, w, owner, list, r);
      } else {
        EffectTakesAll(children, w, owner, list, r);
        if name in w.fields {
          var mark := MarkOf(name, children, owner, |list|);
          TakenFieldsConcat([mark], MarksOfAll(children, w, owner, |list|), r, Held(list, r));
          OneMark(mark, r, Held(list, r));
        } else {
          assert [] + MarksOfAll(children, w, owner, |list|) == MarksOfAll(children, w, owner, |list|);
        }
      }
  }

  lemma {:induction false} LeafIsWorded(children: seq<Node>)
    requires IsLeaf(children)
    ensures (exists i | 0 <= i < |children| :: children[i].Data?) <==> children != []
  {
    if children != [] { assert children[0].Data?; }
  }

  lemma {:induction false} LeafTaken(name: string, children: seq<Node>, w: Wanted, owner: Option<nat>,
                                     list: seq<Fields>, r: nat)
    requires name != w.record && name in w.fields && IsLeaf(children)
    ensures Held(Effect(Element(name, children), w, list), r) ==
            TakenFields(MarksOf(Element(name, children), w, owner, |list|), r, Held(list, r))
  {
    hide IsLeaf, TextOf, TakenFields, OwnFields, RecordsAll, MarksOfAll, EffectAll;
    var mark := MarkOf(name, children, owner, |list|);
    LeafHasNoRecords(children, w);
    assert MarksOf(Element(name, children), w, owner, |list|) == [mark] + [] == [mark];
    OneMark(mark, r, Held(list, r));
    LeafIsWorded(children);
  }

  lemma {:induction false} EffectTakesAll(ns: seq<Node>, w: Wanted, owner: Option<nat>, list: seq<Fields>, r: nat)
    ensures Held(EffectAll(ns, w, list), r) == TakenFields(MarksOfAll(ns, w, owner, |list|), r, Held(list, r))
    decreases ns
  {
    if ns != [] {
      hide MarksOf, Effect, Records;
      var one := Effect(ns[0], w, list);
      OneNodeEach(ns[0], w, list);
      EffectTakes(ns[0], w, owner, list, r);
      EffectTakesAll(ns[1..], w, owner, one, r);
      TakenFieldsConcat(MarksOf(ns[0], w, owner, |list|), MarksOfAll(ns[1..], w, owner, |one|), r, Held(list, r));
    }
  }

  // ----- the records in terms of the fields -----

  // A field belongs to the record around all of these elements, or to one among them
  // that has started before it.
  ghost predicate Bounded(ms: seq<Mark>, owner: Option<nat>, started: nat, count: nat) {
    forall i | 0 <= i < |ms| ::
      && started <= ms[i].started <= started + count
      && (ms[i].owner == owner || (ms[i].owner.Some? && started <= ms[i].owner.value < ms[i].started))
  }

  lemma {:induction false} OwnerOfMark(name: string, children: seq<Node>, owner: Option<nat>, started: nat)
    ensures var m := MarkOf(name, children, owner, started); m.owner == owner && m.started == started
  {
  }

  lemma {:induction false} BoundedJoin(a: seq<Mark>, b: seq<Mark>, owner: Option<nat>, started: nat, n: nat, m: nat)
    requires Bounded(a, owner, started, n) && Bounded(b, owner, started + n, m)
    ensures Bounded(a + b, owner, started, n + m)
  {
  }

  lemma {:induction false} MarksAreBounded(n: Node, w: Wanted, owner: Option<nat>, started: nat)
    requires owner.Some? ==> owner.value < started
    ensures Bounded(MarksOf(n, w, owner, started), owner, started, |Records(n, w)|)
    decreases n
  {
    match n
    case Data(_) =>
    case Element(name, children) =>
      hide MarksOfAll, RecordsAll, FieldsOfAll, MarkOf;
      if name == w.record {
        MarksAreBoundedAll(children, w, Some(started), started + 1);
      } else {
        MarksAreBoundedAll(children, w, owner, started);
        OwnerOfMark(name, children, owner, started);
      }
  }

  lemma {:induction false} MarksAreBoundedAll(ns: seq<Node>, w: Wanted, owner: Option<nat>, started: nat)
    requires owner.Some? ==> owner.value < started
    ensures Bounded(MarksOfAll(ns, w, owner, started), owner, started, |RecordsAll(ns, w)|)
    decreases ns
  {
    if ns != [] {
      hide MarksOf, Records, Bounded;
      var next := started + |Records(ns[0], w)|;
      MarksAreBounded(ns[0], w, owner, started);
      MarksAreBoundedAll(ns[1..], w, owner, next);
      BoundedJoin(MarksOf(ns[0], w, owner, started), MarksOfAll(ns[1..], w, owner, next), owner, started,
                  |Records(ns[0], w)|, |RecordsAll(ns[1..], w)|);
    }
  }

  lemma {:induction false} NotOwned(ms: seq<Mark>, r: nat, f: Fields)
    requires forall i | 0 <= i < |ms| :: !Owns(r, ms[i])
    ensures OwnFields(ms, r, f) == f
  {
    if ms != [] { NotOwned(ms[1..], r, f); }
  }

  lemma {:induction false} FieldsAreOwned(n: Node, w: Wanted, o: nat, started: nat, m: Fields)
    requires o < started
    ensures FieldsOf(n, w, m) == OwnFields(MarksOf(n, w, Some(o), started), o, m)
    decreases n
  {
    match n
    case Data(_) =>
    case Element(name, children) =>
      if name == w.record {
        MarksAreBoundedAll(children, w, Some(started), started + 1);
        NotOwned(MarksOfAll(children, w, Some(started), started + 1), o, m);
      } else if name in w.fields {
        var mark := MarkOf(name, children, Some(o), started);
        FieldsAreOwnedAll(children, w, o, started, m[name := Some(TextOf(children))]);
        OwnFieldsConcat([mark], MarksOfAll(children, w, Some(o), started), o, m);
        OneMark(mark, o, m);
      } else {
        FieldsAreOwnedAll(children, w, o, started, m);
        assert [] + MarksOfAll(children, w, Some(o), started) == MarksOfAll(children, w, Some(o), started);
      }
  }

  lemma {:induction false} FieldsAreOwnedAll(ns: seq<Node>, w: Wanted, o: nat, started: nat, m: Fields)
    requires o < started
    ensures FieldsOfAll(ns, w, m) == OwnFields(MarksOfAll(ns, w, Some(o), started), o, m)
    decreases ns
  {
    if ns != [] {
      hide MarksOf, Records, FieldsOf;
      var next := started + |Records(ns[0], w)|;
      FieldsAreOwned(ns[0], w, o, started, m);
      FieldsAreOwnedAll(ns[1..], w, o, next, FieldsOf(ns[0], w, m));
      OwnFieldsConcat(MarksOf(ns[0], w, Some(o), started), MarksOfAll(ns[1..], w, Some(o), next), o, m);
    }
  }

  // Record r of those that are numbered from `first` on.
  function Numbered(list: seq<Fields>, first: nat, r: nat): Fields {
    if first <= r < first + |list| then list[|list| - 1 - (r - first)] else map[]
  }

  lemma {:induction false} RecordsOwn(n: Node, w: Wanted, owner: Option<nat>, started: nat, r: nat)
    requires (owner.Some? ==> owner.value < started) && started <= r
    ensures Numbered(Records(n, w), started, r) == OwnFields(MarksOf(n, w, owner, started), r, map[])
    decreases n
  {
    match n
    case Data(_) =>
    case Element(name, children) =>
      if name == w.record {
        if r == started {
          FieldsAreOwnedAll(children, w, r, started + 1, map[]);
        } else {
          RecordsOwnAll(children, w, Some(started), started + 1, r);
        }
      } else {
        RecordsOwnAll(children, w, owner, started, r);
        assert RecordsAll(children, w) + [] == RecordsAll(children, w);
        var rest := MarksOfAll(children, w, owner, started);
        if name in w.fields {
          var mark := MarkOf(name, children, owner, started);
          OwnFieldsConcat([mark], rest, r, map[]);
          OneMark(mark, r, map[]);
        } else {
          assert [] + rest == rest;
        }
      }
  }

  lemma {:induction false} RecordsOwnAll(ns: seq<Node>, w: Wanted, owner: Option<nat>, started: nat, r: nat)
    requires (owner.Some? ==> owner.value < started) && started <= r
    ensures Numbered(RecordsAll(ns, w), started, r) == OwnFields(MarksOfAll(ns, w, owner, started), r, map[])
    decreases ns
  {
    if ns == [] {
      NoRecords(started, r);
    } else {
      hide MarksOf, Records, OwnFields, Numbered, Bounded;
      var next := started + |Records(ns[0], w)|;
      var a, b := MarksOf(ns[0], w, owner, started), MarksOfAll(ns[1..], w, owner, next);
      OwnFieldsConcat(a, b, r, map[]);
      NumberedJoin(RecordsAll(ns[1..], w), Records(ns[0], w), started, r);
      RecordsOwn(ns[0], w, owner, started, r);
      if r < next {
        MarksAreBoundedAll(ns[1..], w, owner, next);
        NotAmong(b, owner, next, |RecordsAll(ns[1..], w)|, r, OwnFields(a, r, map[]));
      } else {
        MarksAreBounded(ns[0], w, owner, started);
        NotAmong(a, owner, started, |Records(ns[0], w)|, r, map[]);
        RecordsOwnAll(ns[1..], w, owner, next, r);
      }
    }
  }

  lemma {:induction false} NoRecords(first: nat, r: nat)
    ensures Numbered([], first, r) == map[] && OwnFields([], r, map[]) == map[]
  {
  }

  lemma {:induction false} NumberedJoin(later: seq<Fields>, sooner: seq<Fields>, first: nat, r: nat)
    ensures Numbered(later + sooner, first, r) ==
            if r < first + |sooner| then Numbered(sooner, first, r) else Numbered(later, first + |sooner|, r)
  {
  }

  lemma {:induction false} NotAmong(ms: seq<Mark>, owner: Option<nat>, started: nat, count: nat, r: nat, f: Fields)
    requires Bounded(ms, owner, started, count) && (owner.Some? ==> owner.value != r)
    requires r < started || started + count <= r
    ensures OwnFields(ms, r, f) == f
  {
    hide OwnFields;
    NotOwned(ms, r, f);
  }

  // ----- when a document is read as it says -----

  // The last field of a name that is taken for the record, and the last that it owns.
  function LastTaken(ms: seq<Mark>, r: nat, name: string): (i: int)
    ensures -1 <= i < |ms| && (i >= 0 ==> TakenFor(ms[i], r) && ms[i].name == name)
    ensures forall j | i < j < |ms| :: !(TakenFor(ms[j], r) && ms[j].name == name)
  {
    if ms == [] then -1
    else
      var n := |ms| - 1;
      if TakenFor(ms[n], r) && ms[n].name == name then n else LastTaken(ms[..n], r, name)
  }

  function LastOwned(ms: seq<Mark>, r: nat, name: string): (i: int)
    ensures -1 <= i < |ms| && (i >= 0 ==> Owns(r, ms[i]) && ms[i].name == name)
    ensures forall j | i < j < |ms| :: !(Owns(r, ms[j]) && ms[j].name == name)
  {
    if ms == [] then -1
    else
      var n := |ms| - 1;
      if Owns(r, ms[n]) && ms[n].name == name then n else LastOwned(ms[..n], r, name)
  }

  lemma {:induction false} TakenIsLast(ms: seq<Mark>, r: nat, name: string)
    ensures var i, f := LastTaken(ms, r, name), TakenFields(ms, r, map[]);
            (name in f <==> i >= 0) && (i >= 0 ==> f[name] == if ms[i].worded then Some(ms[i].text) else None)
    decreases |ms|
  {
    if ms != [] {
      var n := |ms| - 1;
      assert ms[..n] + [ms[n]] == ms;
      TakenFieldsConcat(ms[..n], [ms[n]], r, map[]);
      OneMark(ms[n], r, TakenFields(ms[..n], r, map[]));
      hide TakenFields;
      TakenIsLast(ms[..n], r, name);
    }
  }

  lemma {:induction false} OwnedIsLast(ms: seq<Mark>, r: nat, name: string)
    ensures var i, f := LastOwned(ms, r, name), OwnFields(ms, r, map[]);
            (name in f <==> i >= 0) && (i >= 0 ==> f[name] == Some(ms[i].text))
    decreases |ms|
  {
    if ms != [] {
      var n := |ms| - 1;
      assert ms[..n] + [ms[n]] == ms;
      OwnFieldsConcat(ms[..n], [ms[n]], r, map[]);
      OneMark(ms[n], r, OwnFields(ms[..n], r, map[]));
      hide OwnFields;
      OwnedIsLast(ms[..n], r, name);
    }
  }

  // A document fits the handlers if every field without elements belongs to the record
  // started last, unless none has started yet, and the field that counts for a record and
  // a name has text and no elements.
  predicate Fits(ms: seq<Mark>) {
    && (forall i | 0 <= i < |ms| && ms[i].leaf && ms[i].started > 0 :: Owns(ms[i].started - 1, ms[i]))
    && (forall i | 0 <= i < |ms| && ms[i].owner.Some? && LastOwned(ms, ms[i].owner.value, ms[i].name) == i ::
          ms[i].leaf && ms[i].worded)
  }

  ghost predicate Agree(ms: seq<Mark>, r: nat, name: string) {
    var i := LastOwned(ms, r, name);
    LastTaken(ms, r, name) == i && (i >= 0 ==> ms[i].worded)
  }

  // Once the record started last is not the one around a field, no later field belongs to
  // it before another record starts.
  ghost predicate LeftForGood(ms: seq<Mark>) {
    forall i, j | 0 <= i < j < |ms| && ms[i].started == ms[j].started && ms[i].started > 0
                  && Owns(ms[j].started - 1, ms[j]) :: Owns(ms[i].started - 1, ms[i])
  }

  lemma {:induction false} LeftJoin(a: seq<Mark>, b: seq<Mark>, owner: Option<nat>, started: nat, n: nat, m: nat)
    requires (owner.Some? ==> owner.value < started) && LeftForGood(a) && LeftForGood(b)
    requires Bounded(a, owner, started, n) && Bounded(b, owner, started + n, m)
    ensures LeftForGood(a + b)
  {
    var all := a + b;
    forall i, j | 0 <= i < j < |all| && all[i].started == all[j].started && all[i].started > 0
                  && Owns(all[j].started - 1, all[j])
      ensures Owns(all[i].started - 1, all[i])
    {
      if j < |a| {
        assert all[i] == a[i] && all[j] == a[j];
      } else if i >= |a| {
        assert all[i] == b[i - |a|] && all[j] == b[j - |a|];
      } else {
        assert all[i] == a[i] && all[j] == b[j - |a|];
      }
    }
  }

  lemma {:induction false} RecordsAreLeft(n: Node, w: Wanted, owner: Option<nat>, started: nat)
    requires owner.Some? ==> owner.value < started
    ensures LeftForGood(MarksOf(n, w, owner, started))
    decreases n
  {
    hide MarksOf, MarksOfAll, MarkOf, RecordsAll, LeftForGood, Bounded;
    if n.Data? {
      DataHasNoMarks(n, w, owner, started);
      FewMarks(Mark(None, 0, "", true, true, ""), 0);
    } else {
      MarksOfElement(n.name, n.children, w, owner, started);
      if n.name == w.record {
        RecordsAreLeftAll(n.children, w, Some(started), started + 1);
      } else {
        RecordsAreLeftAll(n.children, w, owner, started);
        MarksAreBoundedAll(n.children, w, owner, started);
        var mark := MarkOf(n.name, n.children, owner, started);
        OwnerOfMark(n.name, n.children, owner, started);
        FewMarks(mark, started);
        LeftJoin([mark], MarksOfAll(n.children, w, owner, started), owner, started, 0, |RecordsAll(n.children, w)|);
      }
    }
  }

  lemma {:induction false} FewMarks(m: Mark, started: nat)
    ensures LeftForGood([]) && LeftForGood([m])
    ensures m.started == started ==> Bounded([m], m.owner, started, 0)
  {
  }

  lemma {:induction false} RecordsAreLeftAll(ns: seq<Node>, w: Wanted, owner: Option<nat>, started: nat)
    requires owner.Some? ==> owner.value < started
    ensures LeftForGood(MarksOfAll(ns, w, owner, started))
    decreases ns
  {
    if ns != [] {
      hide MarksOf, Records, LeftForGood, Bounded;
      var next := started + |Records(ns[0], w)|;
      RecordsAreLeft(ns[0], w, owner, started);
      RecordsAreLeftAll(ns[1..], w, owner, next);
      MarksAreBounded(ns[0], w, owner, started);
      MarksAreBoundedAll(ns[1..], w, owner, next);
      LeftJoin(MarksOf(ns[0], w, owner, started), MarksOfAll(ns[1..], w, owner, next), owner, started,
               |Records(ns[0], w)|, |RecordsAll(ns[1..], w)|);
    }
  }

  ghost predicate OwnedByStarted(ms: seq<Mark>) {
    forall i | 0 <= i < |ms| && ms[i].owner.Some? :: ms[i].owner.value < ms[i].started
  }

  lemma {:induction false} FittingAgree(ms: seq<Mark>, r: nat, name: string)
    requires Fits(ms) && OwnedByStarted(ms)
    ensures Agree(ms, r, name)
  {
    hide LastTaken, LastOwned;
    var i, j := LastOwned(ms, r, name), LastTaken(ms, r, name);
    if i >= 0 {
      assert LastOwned(ms, ms[i].owner.value, ms[i].name) == i;
      assert ms[i].leaf && Owns(ms[i].started - 1, ms[i]);
      assert TakenFor(ms[i], r) && ms[i].name == name;
    }
    if j >= 0 { assert Owns(ms[j].started - 1, ms[j]); }
  }

  lemma {:induction false} AgreeingOwns(ms: seq<Mark>, i: nat)
    requires LeftForGood(ms) && i < |ms| && ms[i].leaf && ms[i].started > 0
    requires Agree(ms, ms[i].started - 1, ms[i].name)
    ensures Owns(ms[i].started - 1, ms[i])
  {
    hide LastTaken, LastOwned;
    var r, name := ms[i].started - 1, ms[i].name;
    var j := LastTaken(ms, r, name);
    assert TakenFor(ms[i], r) && ms[i].name == name;
    assert i <= j && Owns(r, ms[j]);
  }

  lemma {:induction false} AgreeingFit(ms: seq<Mark>)
    requires LeftForGood(ms) && OwnedByStarted(ms)
    requires forall i | 0 <= i < |ms| && ms[i].started > 0 :: Agree(ms, ms[i].started - 1, ms[i].name)
    requires forall i | 0 <= i < |ms| && ms[i].owner.Some? :: Agree(ms, ms[i].owner.value, ms[i].name)
    ensures Fits(ms)
  {
    hide LastTaken, LastOwned, LeftForGood;
    forall i | 0 <= i < |ms| && ms[i].leaf && ms[i].started > 0 ensures Owns(ms[i].started - 1, ms[i]) {
      AgreeingOwns(ms, i);
    }
    forall i | 0 <= i < |ms| && ms[i].owner.Some? && LastOwned(ms, ms[i].owner.value, ms[i].name) == i
      ensures ms[i].leaf && ms[i].worded
    {
      assert Agree(ms, ms[i].owner.value, ms[i].name);
    }
  }

  function Listed(root: Node, w: Wanted): seq<Fields> {
    ListRun(w, EMPTY, EventsOf(root)).list
  }

  function DocumentMarks(root: Node, w: Wanted): seq<Mark> {
    MarksOf(root, w, None, 0)
  }

  // One node for every record, holding the fields taken for it, whatever the document.
  lemma {:induction false} ListIsEffect(root: Node, w: Wanted, r: nat)
    requires w.record !in w.fields
    ensures |Listed(root, w)| == |Records(root, w)|
    ensures Held(Listed(root, w), r) == TakenFields(DocumentMarks(root, w), r, map[])
    ensures Held(Records(root, w), r) == OwnFields(DocumentMarks(root, w), r, map[])
  {
    hide ListRun, EventsOf, Effect, Records, TakenFields, OwnFields, MarksOf;
    ElementIsRead(root, w, EMPTY);
    OneNodeEach(root, w, []);
    EffectTakes(root, w, None, [], r);
    RecordsOwn(root, w, None, 0, r);
  }

  lemma {:induction false} SameLists(a: seq<Fields>, b: seq<Fields>)
    requires |a| == |b| && forall r: nat | r < |a| :: Held(a, r) == Held(b, r)
    ensures a == b
  {
    forall i | 0 <= i < |a| ensures a[i] == b[i] {
      var r: nat := |a| - 1 - i;
      assert Held(a, r) == Held(b, r);
    }
  }

  lemma {:induction false} DocumentIsOrderly(root: Node, w: Wanted)
    ensures LeftForGood(DocumentMarks(root, w)) && OwnedByStarted(DocumentMarks(root, w))
    ensures Bounded(DocumentMarks(root, w), None, 0, |Records(root, w)|)
  {
    hide MarksOf, Records;
    RecordsAreLeft(root, w, None, 0);
    MarksAreBounded(root, w, None, 0);
  }

  // The list query makes one node for every record element of any document, the one that
  // starts last first, and from a document that fits each holds its own fields.
  lemma {:induction false} ListFindsAllRecords(root: Node, w: Wanted)
    requires w.record !in w.fields
    ensures |Listed(root, w)| == |Records(root, w)|
    ensures Fits(DocumentMarks(root, w)) ==> Listed(root, w) == Records(root, w)
  {
    hide Fits, Listed, Records, DocumentMarks, Held, TakenFields, OwnFields;
    ListIsEffect(root, w, 0);
    var ms := DocumentMarks(root, w);
    if Fits(ms) {
      DocumentIsOrderly(root, w);
      forall r: nat ensures Held(Listed(root, w), r) == Held(Records(root, w), r) {
        ListIsEffect(root, w, r);
        FittingTake(ms, r);
      }
      SameLists(Listed(root, w), Records(root, w));
    }
  }

  lemma {:induction false} FittingTake(ms: seq<Mark>, r: nat)
    requires Fits(ms) && OwnedByStarted(ms)
    ensures TakenFields(ms, r, map[]) == OwnFields(ms, r, map[])
  {
    hide Fits, TakenFields, OwnFields, LastTaken, LastOwned, OwnedByStarted;
    var a, b := TakenFields(ms, r, map[]), OwnFields(ms, r, map[]);
    forall name ensures (name in a <==> name in b) && (name in a ==> a[name] == b[name]) {
      TakenIsLast(ms, r, name);
      OwnedIsLast(ms, r, name);
      FittingAgree(ms, r, name);
    }
    assert a == b;
  }
}
