/** A list query reads a document right for all its texts only if the document fits the
    handlers. */
module XmlShapes {
  import opened HostText
  import opened XmlQuery
  import opened XmlLists

  // No two fields say the same, except that several may say nothing.
  predicate DistinctTexts(ms: seq<Mark>) {
    forall i, j | 0 <= i < |ms| && 0 <= j < |ms| && i != j && ms[i].worded :: ms[i].text != ms[j].text
  }

  lemma {:induction false} TakingAgrees(ms: seq<Mark>, r: nat, name: string)
    requires DistinctTexts(ms) && TakenFields(ms, r, map[]) == OwnFields(ms, r, map[])
    ensures Agree(ms, r, name)
  {
    hide TakenFields, OwnFields, LastTaken, LastOwned;
    TakenIsLast(ms, r, name);
    OwnedIsLast(ms, r, name);
  }

  // When the texts tell the fields apart, the list is right if and only if the document
  // fits.
  lemma {:induction false} ListIsRightIffItFits(root: Node, w: Wanted)
    requires w.record !in w.fields && DistinctTexts(DocumentMarks(root, w))
    ensures Listed(root, w) == Records(root, w) <==> Fits(DocumentMarks(root, w))
  {
    hide Fits, Listed, Records, DocumentMarks, Held, TakenFields, OwnFields, Agree, LeftForGood, DistinctTexts;
    ListFindsAllRecords(root, w);
    var ms := DocumentMarks(root, w);
    if Listed(root, w) == Records(root, w) {
      DocumentIsOrderly(root, w);
      forall r: nat, name ensures Agree(ms, r, name) {
        ListIsEffect(root, w, r);
        TakingAgrees(ms, r, name);
      }
      AgreeingFit(ms);
    }
  }

  // ----- documents of the same shape -----

  // The same elements with other texts.
  predicate SameShape(a: Node, b: Node) {
    match a
    case Data(_) => b.Data?
    case Element(name, children) => b.Element? && b.name == name && SameShapeAll(children, b.children)
  }

  predicate SameShapeAll(a: seq<Node>, b: seq<Node>) {
    |a| == |b| && (a == [] || (SameShape(a[0], b[0]) && SameShapeAll(a[1..], b[1..])))
  }

  ghost predicate SameMarks(a: seq<Mark>, b: seq<Mark>) {
    |a| == |b| && forall i | 0 <= i < |a| :: b[i] == a[i].(text := b[i].text)
  }

  lemma {:induction false} SameKinds(a: seq<Node>, b: seq<Node>, i: nat)
    requires SameShapeAll(a, b) && i < |a|
    ensures a[i].Data? <==> b[i].Data?
  {
    if i > 0 { SameKinds(a[1..], b[1..], i - 1); }
  }

  lemma {:induction false} SameJoin(a: seq<Mark>, b: seq<Mark>, c: seq<Mark>, d: seq<Mark>)
    requires SameMarks(a, b) && SameMarks(c, d)
    ensures SameMarks(a + c, b + d)
  {
  }

  lemma {:induction false} NoMarks(w: Wanted, owner: Option<nat>, started: nat)
    ensures MarksOfAll([], w, owner, started) == [] && SameMarks([], []) && RecordsAll([], w) == []
  {
  }

  lemma {:induction false} ShapeFixesMarks(a: Node, b: Node, w: Wanted, owner: Option<nat>, started: nat)
    requires SameShape(a, b)
    ensures SameMarks(MarksOf(a, w, owner, started), MarksOf(b, w, owner, started))
    ensures |Records(a, w)| == |Records(b, w)|
    decreases a
  {
    match a
    case Data(_) =>
    case Element(name, children) =>
      ShapeFixesMarksAll(children, b.children, w, if name == w.record then Some(started) else owner,
                         if name == w.record then started + 1 else started);
      forall i | 0 <= i < |children| ensures children[i].Data? <==> b.children[i].Data? {
        SameKinds(children, b.children, i);
      }
  }

  lemma {:induction false} ShapeFixesMarksAll(a: seq<Node>, b: seq<Node>, w: Wanted, owner: Option<nat>, started: nat)
    requires SameShapeAll(a, b)
    ensures SameMarks(MarksOfAll(a, w, owner, started), MarksOfAll(b, w, owner, started))
    ensures |RecordsAll(a, w)| == |RecordsAll(b, w)|
    decreases a
  {
    if a != [] {
      hide MarksOf, Records, SameShape, SameMarks;
      ShapeFixesMarks(a[0], b[0], w, owner, started);
      ShapeFixesMarksAll(a[1..], b[1..], w, owner, started + |Records(a[0], w)|);
      SameJoin(MarksOf(a[0], w, owner, started), MarksOf(b[0], w, owner, started),
               MarksOfAll(a[1..], w, owner, started + |Records(a[0], w)|),
               MarksOfAll(b[1..], w, owner, started + |Records(b[0], w)|));
    } else {
      NoMarks(w, owner, started);
    }
  }

  lemma {:induction false} SameLastOwned(a: seq<Mark>, b: seq<Mark>, r: nat, name: string)
    requires SameMarks(a, b)
    ensures LastOwned(a, r, name) == LastOwned(b, r, name)
    decreases |a|
  {
    if a != [] { SameLastOwned(a[..|a| - 1], b[..|b| - 1], r, name); }
  }

  lemma {:induction false} FittingIsShape(a: seq<Mark>, b: seq<Mark>)
    requires SameMarks(a, b) && Fits(a)
    ensures Fits(b)
  {
    hide LastOwned;
    forall i | 0 <= i < |b| && b[i].owner.Some? && LastOwned(b, b[i].owner.value, b[i].name) == i
      ensures b[i].leaf && b[i].worded
    {
      SameLastOwned(a, b, b[i].owner.value, b[i].name);
      assert LastOwned(a, a[i].owner.value, a[i].name) == i;
    }
  }

  // A document of the same shape in which every element that has text has its own: as
  // many strokes as elements have started.
  function Size(n: Node): nat {
    match n
    case Data(_) => 0
    case Element(_, children) => 1 + SizeAll(children)
  }

  function SizeAll(ns: seq<Node>): nat {
    if ns == [] then 0 else Size(ns[0]) + SizeAll(ns[1..])
  }

  function Strokes(k: nat): (s: string)
    ensures |s| == k
  {
    if k == 0 then "" else Strokes(k - 1) + "|"
  }

  function Reworded(n: Node, k: nat): Node {
    match n
    case Data(_) => n
    case Element(name, children) => Element(name, RewordedAll(children, Strokes(k), k + 1))
  }

  // The first piece of text becomes `text`, the others become empty.
  function RewordedAll(ns: seq<Node>, text: string, k: nat): seq<Node> {
    if ns == [] then []
    else if ns[0].Data? then [Data(text)] + RewordedAll(ns[1..], "", k)
    else [Reworded(ns[0], k)] + RewordedAll(ns[1..], text, k + Size(ns[0]))
  }

  lemma {:induction false} RewordingKeepsShape(n: Node, k: nat)
    ensures SameShape(n, Reworded(n, k))
    decreases n
  {
    match n
    case Data(_) =>
    case Element(name, children) => RewordingKeepsShapeAll(children, Strokes(k), k + 1);
  }

  lemma {:induction false} RewordingKeepsShapeAll(ns: seq<Node>, text: string, k: nat)
    ensures SameShapeAll(ns, RewordedAll(ns, text, k))
    decreases ns
  {
    if ns != [] {
      hide Reworded, SameShape;
      if ns[0].Data? {
        RewordingKeepsShapeAll(ns[1..], "", k);
        DataShape(ns[0], text);
      } else {
        RewordingKeepsShape(ns[0], k);
        RewordingKeepsShapeAll(ns[1..], text, k + Size(ns[0]));
      }
    }
  }

  lemma {:induction false} DataShape(n: Node, text: string)
    requires n.Data?
    ensures SameShape(n, Data(text))
  {
  }

  lemma {:induction false} RewordedText(ns: seq<Node>, text: string, k: nat)
    ensures TextOf(RewordedAll(ns, text, k)) == if exists i | 0 <= i < |ns| :: ns[i].Data? then text else ""
  {
    hide Reworded;
    if ns != [] {
      if ns[0].Data? {
        RewordedText(ns[1..], "", k);
      } else {
        assert Reworded(ns[0], k).Element? by { ElementStays(ns[0], k); }
        RewordedText(ns[1..], text, k + Size(ns[0]));
        assert (exists i | 0 <= i < |ns| :: ns[i].Data?) <==> exists i | 0 <= i < |ns[1..]| :: ns[1..][i].Data?
          by { if i :| 0 <= i < |ns| && ns[i].Data? { assert ns[1..][i - 1] == ns[i]; } }
      }
    }
  }

  lemma {:induction false} ElementStays(n: Node, k: nat)
    requires n.Element?
    ensures Reworded(n, k).Element?
  {
  }

  // The texts get longer from field to field and stay within the count of elements.
  ghost predicate Growing(ms: seq<Mark>, k: nat, size: nat) {
    && (forall i | 0 <= i < |ms| :: if ms[i].worded then k <= |ms[i].text| < k + size else ms[i].text == "")
    && (forall i, j | 0 <= i < j < |ms| && ms[i].worded && ms[j].worded :: |ms[i].text| < |ms[j].text|)
  }

  lemma {:induction false} GrowingJoin(a: seq<Mark>, b: seq<Mark>, k: nat, n: nat, m: nat)
    requires Growing(a, k, n) && Growing(b, k + n, m)
    ensures Growing(a + b, k, n + m)
  {
    var all := a + b;
    forall i, j | 0 <= i < j < |all| && all[i].worded && all[j].worded ensures |all[i].text| < |all[j].text| {
      if j < |a| {
        assert all[i] == a[i] && all[j] == a[j];
      } else if i >= |a| {
        assert all[i] == b[i - |a|] && all[j] == b[j - |a|];
      } else {
        assert all[i] == a[i] && all[j] == b[j - |a|];
      }
    }
  }

  lemma {:induction false} GrowingWidens(a: seq<Mark>, k: nat, n: nat)
    requires Growing(a, k + 1, n)
    ensures Growing(a, k, 1 + n)
  {
  }

  // The field itself grows by one.
  lemma {:induction false} FieldGrows(name: string, children: seq<Node>, k: nat, owner: Option<nat>, started: nat)
    ensures Growing([MarkOf(name, RewordedAll(children, Strokes(k), k + 1), owner, started)], k, 1)
  {
    hide RewordedAll, Reworded, TextOf, SameShape, IsLeaf;
    var texts := RewordedAll(children, Strokes(k), k + 1);
    RewordedText(children, Strokes(k), k + 1);
    RewordingKeepsShapeAll(children, Strokes(k), k + 1);
    forall i | 0 <= i < |children| ensures children[i].Data? <==> texts[i].Data? {
      SameKinds(children, texts, i);
    }
    SameLength(children, texts);
  }

  lemma {:induction false} SameLength(a: seq<Node>, b: seq<Node>)
    requires SameShapeAll(a, b)
    ensures |a| == |b|
  {
  }

  lemma {:induction false} RewordedGrows(n: Node, k: nat, w: Wanted, owner: Option<nat>, started: nat)
    ensures Growing(MarksOf(Reworded(n, k), w, owner, started), k, Size(n))
    decreases n
  {
    hide RewordedAll, MarksOfAll, MarkOf, SizeAll, Growing, MarksOf;
    if n.Data? {
      DataHasNoMarks(n, w, owner, started);
      NoGrowth(k);
    } else {
      var name, texts := n.name, RewordedAll(n.children, Strokes(k), k + 1);
      MarksOfElement(name, texts, w, owner, started);
      if name == w.record {
        RewordedGrowsAll(n.children, Strokes(k), k + 1, w, Some(started), started + 1);
        GrowingWidens(MarksOfAll(texts, w, Some(started), started + 1), k, SizeAll(n.children));
      } else {
        var ms := MarksOfAll(texts, w, owner, started);
        RewordedGrowsAll(n.children, Strokes(k), k + 1, w, owner, started);
        if name in w.fields {
          FieldGrows(name, n.children, k, owner, started);
          GrowingJoin([MarkOf(name, texts, owner, started)], ms, k, 1, SizeAll(n.children));
        } else {
          GrowingWidens(ms, k, SizeAll(n.children));
        }
      }
    }
  }

  lemma {:induction false} RewordedGrowsAll(ns: seq<Node>, text: string, k: nat, w: Wanted, owner: Option<nat>,
                                            started: nat)
    ensures Growing(MarksOfAll(RewordedAll(ns, text, k), w, owner, started), k, SizeAll(ns))
    decreases ns
  {
    hide MarksOf, Reworded, Records, Growing;
    if ns == [] {
      NoGrowth(k);
    } else {
      var all := RewordedAll(ns, text, k);
      var next := started + |Records(all[0], w)|;
      if ns[0].Data? {
        RewordedGrowsAll(ns[1..], "", k, w, owner, next);
        DataHasNoMarks(all[0], w, owner, started);
        var rest := MarksOfAll(RewordedAll(ns[1..], "", k), w, owner, next);
        assert [] + rest == rest;
        NoSize(ns[0]);
      } else {
        RewordedGrows(ns[0], k, w, owner, started);
        RewordedGrowsAll(ns[1..], text, k + Size(ns[0]), w, owner, next);
        GrowingJoin(MarksOf(all[0], w, owner, started),
                    MarksOfAll(all[1..], w, owner, next), k, Size(ns[0]), SizeAll(ns[1..]));
      }
    }
  }

  lemma {:induction false} NoGrowth(k: nat)
    ensures Growing([], k, 0)
  {
  }

  lemma {:induction false} NoSize(n: Node)
    requires n.Data?
    ensures Size(n) == 0
  {
  }

  lemma {:induction false} GrowingIsDistinct(ms: seq<Mark>, k: nat, size: nat)
    requires Growing(ms, k, size) && k > 0
    ensures DistinctTexts(ms)
  {
  }

  // A document fits if and only if the list is right for every document of its shape.
  lemma {:induction false} FittingIsNeeded(root: Node, w: Wanted)
    requires w.record !in w.fields
    ensures Fits(DocumentMarks(root, w)) <==>
              forall other | SameShape(root, other) :: Listed(other, w) == Records(other, w)
  {
    hide Fits, Listed, Records, MarksOf, SameShape, SameMarks, DistinctTexts, Reworded, Growing;
    if Fits(DocumentMarks(root, w)) {
      forall other | SameShape(root, other) ensures Listed(other, w) == Records(other, w) {
        ShapeFixesMarks(root, other, w, None, 0);
        FittingIsShape(DocumentMarks(root, w), DocumentMarks(other, w));
        ListFindsAllRecords(other, w);
      }
    }
    if forall other | SameShape(root, other) :: Listed(other, w) == Records(other, w) {
      var other := Reworded(root, 1);
      RewordingKeepsShape(root, 1);
      RewordedGrows(root, 1, w, None, 0);
      GrowingIsDistinct(DocumentMarks(other, w), 1, Size(root));
      ListIsRightIffItFits(other, w);
      ShapeFixesMarks(root, other, w, None, 0);
      SameMarksBack(DocumentMarks(root, w), DocumentMarks(other, w));
      FittingIsShape(DocumentMarks(other, w), DocumentMarks(root, w));
    }
  }

  lemma {:induction false} SameMarksBack(a: seq<Mark>, b: seq<Mark>)
    requires SameMarks(a, b)
    ensures SameMarks(b, a)
  {
  }
}
