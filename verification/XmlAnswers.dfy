/** The lists of modes and applications as the host writes them. */
module XmlAnswers {
  import opened HostText
  import opened XmlQuery
  import opened XmlLists

  lemma {:induction false} ListedIsEffect(root: Node, w: Wanted)
    requires w.record !in w.fields
    ensures Listed(root, w) == Effect(root, w, [])
  {
    hide ListRun, Effect;
    ElementIsRead(root, w, EMPTY);
  }

  function Leaf(name: string, text: string): Node { Element(name, [Data(text)]) }

  function Leaves(fields: seq<(string, string)>): seq<Node> {
    if fields == [] then [] else [Leaf(fields[0].0, fields[0].1)] + Leaves(fields[1..])
  }

  function Document(w: Wanted, records: seq<seq<(string, string)>>): Node {
    Element("root", seq(|records|, i requires 0 <= i < |records| => Element(w.record, Leaves(records[i]))))
  }

  // What a record written as these leaves says.
  function Content(w: Wanted, fields: seq<(string, string)>, m: Fields): Fields {
    if fields == [] then m
    else Content(w, fields[1..], if fields[0].0 in w.fields then m[fields[0].0 := Some(fields[0].1)] else m)
  }

  lemma {:induction false} LeafEffect(name: string, text: string, w: Wanted, m: Fields, list: seq<Fields>)
    requires name != w.record
    ensures Effect(Leaf(name, text), w, [m] + list) == [if name in w.fields then m[name := Some(text)] else m] + list
  {
    assert [Data(text)][1..] == [] && TextOf([Data(text)]) == text + "" == text;
    assert IsLeaf([Data(text)]);
    LeavesKeepTheList([Data(text)], w, [m] + list);
  }

  lemma {:induction false} LeavesEffect(fields: seq<(string, string)>, w: Wanted, m: Fields, list: seq<Fields>)
    requires forall f | f in fields :: f.0 != w.record
    ensures EffectAll(Leaves(fields), w, [m] + list) == [Content(w, fields, m)] + list
  {
    hide Effect;
    if fields != [] {
      var (name, text) := fields[0];
      assert fields[0] in fields;
      LeafEffect(name, text, w, m, list);
      LeavesEffect(fields[1..], w, if name in w.fields then m[name := Some(text)] else m, list);
      assert Leaves(fields)[1..] == Leaves(fields[1..]);
    }
  }

  function Contents(w: Wanted, records: seq<seq<(string, string)>>): (r: seq<Fields>)
    ensures |r| == |records|
  {
    if records == [] then [] else Contents(w, records[1..]) + [Content(w, records[0], map[])]
  }

  lemma {:induction false} RecordsEffect(ns: seq<Node>, records: seq<seq<(string, string)>>, w: Wanted,
                                         list: seq<Fields>)
    requires |ns| == |records| && forall i | 0 <= i < |ns| :: ns[i] == Element(w.record, Leaves(records[i]))
    requires forall r, f | r in records && f in r :: f.0 != w.record
    ensures EffectAll(ns, w, list) == Contents(w, records) + list
    decreases |ns|
  {
    if ns == [] {
      assert [] + list == list;
    } else {
      hide EffectAll, Leaves;
      assert records[0] in records;
      LeavesEffect(records[0], w, map[], list);
      RecordsEffect(ns[1..], records[1..], w, [Content(w, records[0], map[])] + list);
      RestOfEffect(ns, w, list);
      assert Contents(w, records[1..]) + ([Content(w, records[0], map[])] + list) == Contents(w, records) + list;
    }
  }

  lemma {:induction false} RestOfEffect(ns: seq<Node>, w: Wanted, list: seq<Fields>)
    requires ns != []
    ensures EffectAll(ns, w, list) == EffectAll(ns[1..], w, Effect(ns[0], w, list))
  {
  }

  lemma {:induction false} ContentsAt(w: Wanted, records: seq<seq<(string, string)>>, i: nat)
    requires i < |records|
    ensures Contents(w, records)[|records| - 1 - i] == Content(w, records[i], map[])
  {
    if |records| > 1 { ContentsAt(w, records[1..], if i > 0 then i - 1 else 0); }
  }

  // The records of a list come back, last one first, each with its own fields.
  lemma {:induction false} WrittenListComesBack(w: Wanted, records: seq<seq<(string, string)>>)
    requires w.record !in w.fields && "root" != w.record && "root" !in w.fields
    requires forall r, f | r in records && f in r :: f.0 != w.record
    ensures |Listed(Document(w, records), w)| == |records|
    ensures forall i | 0 <= i < |records| ::
              Listed(Document(w, records), w)[|records| - 1 - i] == Content(w, records[i], map[])
  {
    hide Listed, Leaves, EffectAll, Content, Contents;
    ListedIsEffect(Document(w, records), w);
    RecordsEffect(Document(w, records).children, records, w, []);
    assert Contents(w, records) + [] == Contents(w, records);
    forall i | 0 <= i < |records|
      ensures Contents(w, records)[|records| - 1 - i] == Content(w, records[i], map[])
    {
      ContentsAt(w, records, i);
    }
  }

  // ----- modes and applications -----

  // unwritten stands for what the code finds in the byte that it allocates for a field
  // and, if the field has no text, never writes.
  function TextField(f: Fields, name: string, unwritten: string): Option<string> {
    if name !in f then None else Some(if f[name].Some? then f[name].value else unwritten)
  }

  // 0 is what a new node holds; what atoi makes of a text is left open.
  function Number(f: Fields, name: string, unwritten: string, atoi: string -> int): int {
    var t := TextField(f, name, unwritten);
    if t.Some? then atoi(t.value) else 0
  }

  datatype DisplayMode = DisplayMode(width: int, height: int, refresh: int)

  function ModeOf(f: Fields, unwritten: string, atoi: string -> int): DisplayMode {
    DisplayMode(Number(f, "Width", unwritten, atoi), Number(f, "Height", unwritten, atoi),
                Number(f, "RefreshRate", unwritten, atoi))
  }

  datatype App = App(id: int, name: Option<string>)

  function AppOf(f: Fields, unwritten: string, atoi: string -> int): App {
    App(Number(f, "ID", unwritten, atoi), TextField(f, "AppTitle", unwritten))
  }

  datatype WrittenMode = WrittenMode(width: string, height: string, refresh: string)

  function ModeLeaves(m: WrittenMode): seq<(string, string)> {
    [("Width", m.width), ("Height", m.height), ("RefreshRate", m.refresh)]
  }

  datatype WrittenApp = WrittenApp(hdr: string, title: string, id: string)

  function AppLeaves(a: WrittenApp): seq<(string, string)> {
    [("IsHdrSupported", a.hdr), ("AppTitle", a.title), ("ID", a.id)]
  }

  lemma {:induction false} ThreeLeaves(w: Wanted, a: (string, string), b: (string, string), c: (string, string),
                                       m: Fields)
    ensures Content(w, [a, b, c], m) ==
            var x := if a.0 in w.fields then m[a.0 := Some(a.1)] else m;
            var y := if b.0 in w.fields then x[b.0 := Some(b.1)] else x;
            if c.0 in w.fields then y[c.0 := Some(c.1)] else y
  {
    hide Content;
    var x := if a.0 in w.fields then m[a.0 := Some(a.1)] else m;
    var y := if b.0 in w.fields then x[b.0 := Some(b.1)] else x;
    OneLeaf(w, a, [b, c], m);
    OneLeaf(w, b, [c], x);
    OneLeaf(w, c, [], y);
    OneLeaf(w, c, [], if c.0 in w.fields then y[c.0 := Some(c.1)] else y);
    assert [a] + [b, c] == [a, b, c] && [b] + [c] == [b, c] && [c] + [] == [c];
  }

  lemma {:induction false} OneLeaf(w: Wanted, a: (string, string), rest: seq<(string, string)>, m: Fields)
    ensures Content(w, [a] + rest, m) == Content(w, rest, if a.0 in w.fields then m[a.0 := Some(a.1)] else m)
    ensures Content(w, [], m) == m
  {
    assert ([a] + rest)[1..] == rest;
  }

  // The modes of a list, last one first, with their own numbers.
  lemma {:induction false} ModeListComesBack(ms: seq<WrittenMode>, unwritten: string, atoi: string -> int)
    ensures var records := seq(|ms|, i requires 0 <= i < |ms| => ModeLeaves(ms[i]));
            var list := Listed(Document(MODES, records), MODES);
            |list| == |ms| && forall i | 0 <= i < |ms| ::
              ModeOf(list[|ms| - 1 - i], unwritten, atoi)
              == DisplayMode(atoi(ms[i].width), atoi(ms[i].height), atoi(ms[i].refresh))
  {
    hide Listed, Document, Content;
    var records := seq(|ms|, i requires 0 <= i < |ms| => ModeLeaves(ms[i]));
    WrittenListComesBack(MODES, records);
    forall i | 0 <= i < |ms|
      ensures ModeOf(Content(MODES, records[i], map[]), unwritten, atoi)
              == DisplayMode(atoi(ms[i].width), atoi(ms[i].height), atoi(ms[i].refresh))
    {
      ThreeLeaves(MODES, ("Width", ms[i].width), ("Height", ms[i].height), ("RefreshRate", ms[i].refresh), map[]);
    }
  }

  // The applications of a list, last one first, with their own titles and numbers.
  lemma {:induction false} AppListComesBack(apps: seq<WrittenApp>, unwritten: string, atoi: string -> int)
    ensures var records := seq(|apps|, i requires 0 <= i < |apps| => AppLeaves(apps[i]));
            var list := Listed(Document(APPS, records), APPS);
            |list| == |apps| && forall i | 0 <= i < |apps| ::
              AppOf(list[|apps| - 1 - i], unwritten, atoi) == App(atoi(apps[i].id), Some(apps[i].title))
  {
    hide Listed, Document, Content;
    var records := seq(|apps|, i requires 0 <= i < |apps| => AppLeaves(apps[i]));
    WrittenListComesBack(APPS, records);
    forall i | 0 <= i < |apps|
      ensures AppOf(Content(APPS, records[i], map[]), unwritten, atoi) == App(atoi(apps[i].id), Some(apps[i].title))
    {
      ThreeLeaves(APPS, ("IsHdrSupported", apps[i].hdr), ("AppTitle", apps[i].title), ("ID", apps[i].id), map[]);
    }
  }

  // A document that does not fit: the numbers after a mode within a mode are taken for
  // the inner one's.
  lemma {:induction false} InnerModeTakesNumbers(number: string)
    ensures var document := Element("DisplayMode", [Element("DisplayMode", []), Leaf("Width", number)]);
            !Fits(DocumentMarks(document, MODES))
            && Records(document, MODES) == [map[], map["Width" := Some(number)]]
            && Listed(document, MODES) == [map["Width" := Some(number)], map[]]
  {
    hide Listed, TextOf, LastOwned, IsLeaf;
    var inner, width := Element("DisplayMode", []), Leaf("Width", number);
    var document := Element("DisplayMode", [inner, width]);
    ListedIsEffect(document, MODES);
    WidthAfterInner(number);
    var one: seq<Fields> := [map[]];
    assert one + [] == one;
    var ms := DocumentMarks(document, MODES);
    assert ms[0].leaf && !Owns(1, ms[0]);
  }

  lemma {:induction false} WidthAfterInner(number: string)
    ensures var children := [Element("DisplayMode", []), Leaf("Width", number)];
            && MarksOfAll(children, MODES, Some(0), 1) == [MarkOf("Width", [Data(number)], Some(0), 2)]
            && IsLeaf([Data(number)])
            && RecordsAll(children, MODES) == [map[]]
            && FieldsOfAll(children, MODES, map[]) == map["Width" := Some(number)]
            && EffectAll(children, MODES, [map[]]) == [map["Width" := Some(number)], map[]]
  {
    hide TextOf, LastOwned, IsLeaf;
    var inner, width, texts := Element("DisplayMode", []), Leaf("Width", number), [Data(number)];
    var children := [inner, width];
    assert children[1..] == [width] && [width][1..] == [] && texts[1..] == [];
    LeavesKeepTheList(texts, MODES, []);
    NoLeaf();
    LeafEffect("Width", number, MODES, map[], [map[]]);
    assert TextOf(texts) == number by { OneText(number); }
    LeafHasNoRecords(texts, MODES);
    assert MarksOf(inner, MODES, Some(0), 1) == [] && Records(inner, MODES) == [map[]];
    assert MarksOf(width, MODES, Some(0), 2) == [MarkOf("Width", texts, Some(0), 2)];
    TwoElements(inner, width, MODES, [map[]], map[]);
    assert Effect(inner, MODES, [map[]]) == [map[]] + [map[]];
    var said: Fields := map["Width" := Some(number)];
    assert FieldsOfAll(texts, MODES, said) == FieldsOfAll([], MODES, FieldsOf(texts[0], MODES, said));
  }

  lemma {:induction false} TwoElements(a: Node, b: Node, w: Wanted, list: seq<Fields>, m: Fields)
    ensures EffectAll([a, b], w, list) == Effect(b, w, Effect(a, w, list))
    ensures FieldsOfAll([a, b], w, m) == FieldsOf(b, w, FieldsOf(a, w, m))
  {
    hide Effect, FieldsOf;
    assert [a, b][1..] == [b] && [b][1..] == [];
    assert EffectAll([b], w, Effect(a, w, list)) == EffectAll([], w, Effect(b, w, Effect(a, w, list)));
    assert FieldsOfAll([b], w, FieldsOf(a, w, m)) == FieldsOfAll([], w, FieldsOf(b, w, FieldsOf(a, w, m)));
  }

  lemma {:induction false} OneText(text: string)
    ensures TextOf([Data(text)]) == text
  {
    assert [Data(text)][1..] == [] && text + "" == text;
  }
}
