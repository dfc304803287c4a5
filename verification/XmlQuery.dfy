/** Extracting values from the host's XML answers by handlers that see one parse event at
    a time. */
module XmlQuery {
  import opened HostText

  // ----- documents and their events -----

  datatype Node = Element(name: string, children: seq<Node>) | Data(text: string)

  datatype Event = Start(tag: string) | End(tag: string) | Chars(chunk: string)

  // The events a parser delivers. Text that it delivers in several chunks stands as
  // several Data nodes next to each other.
  function EventsOf(n: Node): seq<Event> {
    match n
    case Data(text) => [Chars(text)]
    case Element(name, children) => [Start(name)] + EventsOfAll(children) + [End(name)]
  }

  function EventsOfAll(ns: seq<Node>): seq<Event> {
    if ns == [] then [] else EventsOf(ns[0]) + EventsOfAll(ns[1..])
  }

  // ----- xml_search -----

  datatype Search = Search(memory: string, start: int)

  function SearchStep(node: string, s: Search, e: Event): Search {
    match e
    case Start(tag) => if tag == node then s.(start := s.start + 1) else s
    case End(tag) => if tag == node then s.(start := s.start - 1) else s
    case Chars(chunk) => if s.start > 0 then s.(memory := s.memory + chunk) else s
  }

  function SearchRun(node: string, s: Search, es: seq<Event>): Search
    decreases |es|
  {
    if es == [] then s else SearchRun(node, SearchStep(node, s, es[0]), es[1..])
  }

  // All text under elements of a name, in document order; inside says that such an
  // element is open already.
  function TextUnder(n: Node, node: string, inside: bool): string {
    match n
    case Data(text) => if inside then text else ""
    case Element(name, children) => TextUnderAll(children, node, inside || name == node)
  }

  function TextUnderAll(ns: seq<Node>, node: string, inside: bool): string {
    if ns == [] then "" else TextUnder(ns[0], node, inside) + TextUnderAll(ns[1..], node, inside)
  }

  // The handlers of xml_search.
  class SearchQuery {
    const node: string
    var memory: string
    var size: nat
    var start: int

    constructor (node: string)
      ensures this.node == node && State() == Search("", 0) && size == 0
    {
      this.node := node;
      memory, size, start := "", 0, 0;
    }

    function State(): Search
      reads this
    {
      Search(memory, start)
    }

    // _xml_start_element, _xml_end_element and _xml_write_data
    method On(e: Event)
      requires size == |memory|
      modifies this
      ensures size == |memory| && State() == SearchStep(node, old(State()), e)
    {
      match e
      case Start(tag) =>
        if node == tag { start := start + 1; }
      case End(tag) =>
        if node == tag { start := start - 1; }
      case Chars(chunk) =>
        if start > 0 {
          memory := memory[..size] + chunk;
          size := size + |chunk|;
        }
    }
  }

  lemma {:induction false} SearchRunConcat(node: string, s: Search, a: seq<Event>, b: seq<Event>)
    ensures SearchRun(node, s, a + b) == SearchRun(node, SearchRun(node, s, a), b)
    decreases |a|
  {
    if a == [] {
      assert a + b == b;
    } else {
      SearchRunConcat(node, SearchStep(node, s, a[0]), a[1..], b);
      assert (a + b)[1..] == a[1..] + b;
      hide SearchStep;
    }
  }

  lemma {:induction false} SearchOne(node: string, s: Search, e: Event)
    ensures SearchRun(node, s, [e]) == SearchStep(node, s, e)
  {
    hide SearchStep;
    assert SearchRun(node, SearchStep(node, s, e), [e][1..]) == SearchStep(node, s, e);
  }

  lemma {:induction false} SearchReads(n: Node, node: string, s: Search)
    requires s.start >= 0
    ensures SearchRun(node, s, EventsOf(n)) == s.(memory := s.memory + TextUnder(n, node, s.start > 0))
    decreases n
  {
    match n
    case Data(text) =>
      SearchOne(node, s, Chars(text));
      assert s.memory + "" == s.memory;
    case Element(name, children) =>
      var inside := SearchStep(node, s, Start(name));
      SearchOne(node, s, Start(name));
      SearchReadsAll(children, node, inside);
      var after := inside.(memory := inside.memory + TextUnderAll(children, node, inside.start > 0));
      SearchOne(node, after, End(name));
      SearchRunConcat(node, s, [Start(name)], EventsOfAll(children));
      SearchRunConcat(node, s, [Start(name)] + EventsOfAll(children), [End(name)]);
  }

  lemma {:induction false} SearchReadsAll(ns: seq<Node>, node: string, s: Search)
    requires s.start >= 0
    ensures SearchRun(node, s, EventsOfAll(ns)) == s.(memory := s.memory + TextUnderAll(ns, node, s.start > 0))
    decreases ns
  {
    if ns == [] {
      assert s.memory + "" == s.memory;
    } else {
      hide SearchRun, TextUnder;
      var one := s.(memory := s.memory + TextUnder(ns[0], node, s.start > 0));
      SearchReads(ns[0], node, s);
      SearchReadsAll(ns[1..], node, one);
      SearchRunConcat(node, s, EventsOf(ns[0]), EventsOfAll(ns[1..]));
      assert s.memory + (TextUnder(ns[0], node, s.start > 0) + TextUnderAll(ns[1..], node, s.start > 0)) ==
             one.memory + TextUnderAll(ns[1..], node, s.start > 0);
    }
  }

  // Searching a document gives all text under elements of the name, in document order.
  lemma {:induction false} SearchFindsAllText(root: Node, node: string)
    ensures SearchRun(node, Search("", 0), EventsOf(root)).memory == TextUnder(root, node, false)
  {
    SearchReads(root, node, Search("", 0));
  }

  // The text does not depend on the chunks it is delivered in.
  lemma {:induction false} ChunksDoNotMatter(front: seq<Node>, a: string, b: string, rest: seq<Node>, node: string,
                                             inside: bool)
    ensures TextUnderAll(front + [Data(a), Data(b)] + rest, node, inside) ==
            TextUnderAll(front + [Data(a + b)] + rest, node, inside)
  {
    if front == [] {
      var two, one := [Data(a), Data(b)] + rest, [Data(a + b)] + rest;
      assert front + [Data(a), Data(b)] + rest == two && front + [Data(a + b)] + rest == one;
      assert two[1..][1..] == rest && one[1..] == rest && two[1..][0] == Data(b);
      assert TextUnderAll(two[1..], node, inside) ==
             TextUnder(Data(b), node, inside) + TextUnderAll(rest, node, inside);
    } else {
      ChunksDoNotMatter(front[1..], a, b, rest, node, inside);
      assert (front + [Data(a), Data(b)] + rest)[1..] == front[1..] + [Data(a), Data(b)] + rest;
      assert (front + [Data(a + b)] + rest)[1..] == front[1..] + [Data(a + b)] + rest;
    }
  }

  // ----- xml_modelist and xml_applist -----

  // What a list query looks for: a record element and the fields inside it. The handlers
  // of xml_modelist skip a field that starts before any record.
  datatype Wanted = Wanted(record: string, fields: set<string>, guarded: bool)

  const MODES: Wanted := Wanted("DisplayMode", {"Width", "Height", "RefreshRate"}, true)
  const APPS: Wanted := Wanted("App", {"ID", "AppTitle"}, false)

  // The text of a field, or none if the element brought no text: what the handler then
  // reads was never written.
  type Fields = map<string, Option<string>>

  // The list, newest record first, and the field that is being read.
  datatype Listing = Listing(list: seq<Fields>, reading: bool, memory: Option<string>)

  function ListStep(w: Wanted, s: Listing, e: Event): Listing {
    match e
    case Start(tag) =>
      if tag == w.record then s.(list := [map[]] + s.list)
      else if tag in w.fields && (w.guarded ==> s.list != []) then s.(memory := None, reading := true)
      else s
    case Chars(chunk) =>
      if s.reading then s.(memory := Some((if s.memory == None then "" else s.memory.value) + chunk)) else s
    case End(tag) =>
      if s.reading && s.list != [] then
        Listing(if tag in w.fields then [s.list[0][tag := s.memory]] + s.list[1..] else s.list, false, s.memory)
      else s
  }

  function ListRun(w: Wanted, s: Listing, es: seq<Event>): Listing
    decreases |es|
  {
    if es == [] then s else ListRun(w, ListStep(w, s, es[0]), es[1..])
  }

  const EMPTY: Listing := Listing([], false, Some(""))

  // The handlers of the two list queries.
  class ListQuery {
    const wanted: Wanted
    var data: seq<Fields>
    var memory: Option<string>
    var start: bool

    constructor (wanted: Wanted)
      ensures this.wanted == wanted && State() == EMPTY
    {
      this.wanted := wanted;
      data, memory, start := [], Some(""), false;
    }

    function State(): Listing
      reads this
    {
      Listing(data, start, memory)
    }

    method On(e: Event)
      modifies this
      ensures State() == ListStep(wanted, old(State()), e)
    {
      match e
      case Start(tag) =>
        if tag == wanted.record {
          data := [map[]] + data;
        } else if tag in wanted.fields && (!wanted.guarded || data != []) {
          memory := None;
          start := true;
        }
      case Chars(chunk) =>
        if start {
          memory := Some((if memory.Some? then memory.value else "") + chunk);
        }
      case End(tag) =>
        if start && data != [] {
          if tag in wanted.fields {
            data := data[0 := data[0][tag := memory]];
          }
          start := false;
        }
    }
  }

  // ----- what the handlers do with an element -----

  // An element that holds no other elements.
  predicate IsLeaf(children: seq<Node>) {
    forall i | 0 <= i < |children| :: children[i].Data?
  }

  function TextOf(ns: seq<Node>): string {
    if ns == [] then "" else (if ns[0].Data? then ns[0].text else "") + TextOf(ns[1..])
  }

  lemma {:induction false} ListRunConcat(w: Wanted, s: Listing, a: seq<Event>, b: seq<Event>)
    ensures ListRun(w, s, a + b) == ListRun(w, ListRun(w, s, a), b)
    decreases |a|
  {
    if a == [] {
      assert a + b == b;
    } else {
      hide ListStep;
      ListRunConcat(w, ListStep(w, s, a[0]), a[1..], b);
      assert (a + b)[1..] == a[1..] + b;
    }
  }

  lemma {:induction false} ListOne(w: Wanted, s: Listing, e: Event)
    ensures ListRun(w, s, [e]) == ListStep(w, s, e)
  {
    hide ListStep;
    assert ListRun(w, ListStep(w, s, e), [e][1..]) == ListStep(w, s, e);
  }

  // The events of an element are its start, those of its children and its end.
  lemma {:induction false} ListElement(w: Wanted, s: Listing, name: string, children: seq<Node>)
    ensures ListRun(w, s, EventsOf(Element(name, children))) ==
            ListStep(w, ListRun(w, ListStep(w, s, Start(name)), EventsOfAll(children)), End(name))
  {
    hide ListStep;
    var inside := EventsOfAll(children);
    ListRunConcat(w, s, [Start(name)], inside);
    ListRunConcat(w, s, [Start(name)] + inside, [End(name)]);
    ListOne(w, s, Start(name));
    ListOne(w, ListRun(w, ListStep(w, s, Start(name)), inside), End(name));
    hide ListRun;
  }

  lemma {:induction false} TextIsRead(ns: seq<Node>, w: Wanted, s: Listing)
    requires s.reading && IsLeaf(ns)
    ensures ListRun(w, s, EventsOfAll(ns)) ==
            if ns == [] then s
            else s.(memory := Some((if s.memory == None then "" else s.memory.value) + TextOf(ns)))
    decreases |ns|
  {
    if ns != [] {
      var soFar := if s.memory == None then "" else s.memory.value;
      var chunk := ns[0].text;
      var one := s.(memory := Some(soFar + chunk));
      assert ListStep(w, s, Chars(chunk)) == one;
      ListOne(w, s, Chars(chunk));
      assert EventsOf(ns[0]) == [Chars(chunk)];
      ListRunConcat(w, s, [Chars(chunk)], EventsOfAll(ns[1..]));
      hide ListStep, ListRun;
      TextIsRead(ns[1..], w, one);
      assert soFar + chunk + TextOf(ns[1..]) == soFar + (chunk + TextOf(ns[1..]));
      if ns[1..] == [] { assert soFar + (chunk + "") == soFar + chunk; }
    }
  }

  // The list after an element. A field counts if it holds no other element and there is
  // a record to put it in: the one that was started last, wherever the field stands.
  function Effect(n: Node, w: Wanted, list: seq<Fields>): seq<Fields> {
    match n
    case Data(_) => list
    case Element(name, children) =>
      if name == w.record then EffectAll(children, w, [map[]] + list)
      else if name in w.fields && IsLeaf(children) then
        if list == [] then list
        else [list[0][name := if children == [] then None else Some(TextOf(children))]] + list[1..]
      else EffectAll(children, w, list)
  }

  function EffectAll(ns: seq<Node>, w: Wanted, list: seq<Fields>): seq<Fields> {
    if ns == [] then list else EffectAll(ns[1..], w, Effect(ns[0], w, list))
  }

  // Nothing is being read after an element that leaves a list.
  predicate Idle(s: Listing, list: seq<Fields>, closed: bool) {
    s.list == list && (closed && list != [] ==> !s.reading)
  }

  lemma {:induction false} LeafIsRead(w: Wanted, s: Listing, name: string, children: seq<Node>)
    requires name != w.record && name in w.fields && IsLeaf(children)
    ensures Idle(ListRun(w, s, EventsOf(Element(name, children))), Effect(Element(name, children), w, s.list), true)
  {
    hide EventsOf, EventsOfAll;
    ListElement(w, s, name, children);
    var started := ListStep(w, s, Start(name));
    if started.reading {
      TextIsRead(children, w, started);
      assert started.memory == None ==> "" + TextOf(children) == TextOf(children);
      hide ListRun, TextOf;
    } else {
      NothingIsRead(children, w, started);
      hide ListRun, TextOf;
    }
  }

  lemma {:induction false} NothingIsRead(ns: seq<Node>, w: Wanted, s: Listing)
    requires !s.reading && IsLeaf(ns)
    ensures ListRun(w, s, EventsOfAll(ns)) == s
    decreases |ns|
  {
    if ns != [] {
      ListOne(w, s, Chars(ns[0].text));
      assert EventsOf(ns[0]) == [Chars(ns[0].text)];
      ListRunConcat(w, s, EventsOf(ns[0]), EventsOfAll(ns[1..]));
      NothingIsRead(ns[1..], w, s);
    }
  }

  // For every document and every state the handlers may be in.
  lemma {:induction false} ElementIsRead(n: Node, w: Wanted, s: Listing)
    requires w.record !in w.fields
    ensures Idle(ListRun(w, s, EventsOf(n)), Effect(n, w, s.list), n.Element? || !s.reading)
    decreases n
  {
    match n
    case Data(text) =>
      ListOne(w, s, Chars(text));
    case Element(name, children) =>
      if name != w.record && name in w.fields && IsLeaf(children) {
        LeafIsRead(w, s, name, children);
      } else {
        hide ListRun, EventsOf, EventsOfAll;
        ListElement(w, s, name, children);
        ElementsAreRead(children, w, ListStep(w, s, Start(name)));
      }
  }

  lemma {:induction false} ElementsAreRead(ns: seq<Node>, w: Wanted, s: Listing)
    requires w.record !in w.fields
    ensures Idle(ListRun(w, s, EventsOfAll(ns)), EffectAll(ns, w, s.list), !IsLeaf(ns) || !s.reading)
    decreases ns
  {
    hide Effect, EventsOf, ListStep, IsLeaf;
    if ns == [] {
      assert IsLeaf(ns) by { NoLeaf(); }
    } else {
      ElementIsRead(ns[0], w, s);
      var one := ListRun(w, s, EventsOf(ns[0]));
      ElementsAreRead(ns[1..], w, one);
      ListRunConcat(w, s, EventsOf(ns[0]), EventsOfAll(ns[1..]));
      LeavesKeepTheList(ns, w, s.list);
      LeavesKeepTheList(ns[1..], w, one.list);
    }
  }

  lemma {:induction false} NoLeaf()
    ensures IsLeaf([])
  {
  }

  lemma {:induction false} LeavesKeepTheList(ns: seq<Node>, w: Wanted, list: seq<Fields>)
    ensures ns != [] ==> (IsLeaf(ns) <==> ns[0].Data? && IsLeaf(ns[1..]))
    ensures IsLeaf(ns) ==> EffectAll(ns, w, list) == list
  {
    if ns != [] {
      assert IsLeaf(ns[1..]) ==> forall i | 0 < i < |ns| :: ns[i] == ns[1..][i - 1] && ns[i].Data?;
      if IsLeaf(ns) { LeavesKeepTheList(ns[1..], w, list); }
    }
  }
}
