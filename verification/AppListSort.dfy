/** Sorting the linked list of applications by name, by exchanging the contents of
    neighbouring nodes. */
module AppListSort {

  // ----- strcmp -----

  // a does not come after b.
  predicate NotAfter(a: string, b: string) {
    a == "" || (b != "" && (a[0] < b[0] || (a[0] == b[0] && NotAfter(a[1..], b[1..]))))
  }

  lemma {:induction false} NotAfterIsTotal(a: string, b: string)
    ensures NotAfter(a, b) || NotAfter(b, a)
    ensures NotAfter(a, b) && NotAfter(b, a) ==> a == b
  {
    if a != "" && b != "" {
      NotAfterIsTotal(a[1..], b[1..]);
      assert a == [a[0]] + a[1..] && b == [b[0]] + b[1..];
    }
  }

  lemma {:induction false} NotAfterIsTransitive(a: string, b: string, c: string)
    requires NotAfter(a, b) && NotAfter(b, c)
    ensures NotAfter(a, c)
  {
    if a != "" && a[0] == b[0] == c[0] { NotAfterIsTransitive(a[1..], b[1..], c[1..]); }
  }

  // The first difference decides, and a front stands before the whole.
  ghost predicate Differ(a: string, b: string, k: nat) {
    k < |a| && k < |b| && a[..k] == b[..k] && a[k] < b[k]
  }

  lemma {:induction false} NotAfterIsLexicographic(a: string, b: string)
    ensures NotAfter(a, b) <==> a <= b || exists k: nat :: Differ(a, b, k)
  {
    if a != "" && b != "" && a[0] == b[0] {
      NotAfterIsLexicographic(a[1..], b[1..]);
      assert a == [a[0]] + a[1..] && b == [b[0]] + b[1..];
      if k: nat :| Differ(a[1..], b[1..], k) { assert Differ(a, b, k + 1); }
      if k: nat :| Differ(a, b, k) { assert Differ(a[1..], b[1..], k - 1); }
    } else if a != "" && b != "" && a[0] < b[0] {
      assert Differ(a, b, 0);
    }
  }

  // ----- contents -----

  datatype Entry = Entry(id: int, name: string)

  predicate Sorted(entries: seq<Entry>) {
    forall i, j | 0 <= i < j < |entries| :: NotAfter(entries[i].name, entries[j].name)
  }

  // The ids under one name, in order.
  function Named(entries: seq<Entry>, name: string): seq<int> {
    if entries == [] then []
    else (if entries[0].name == name then [entries[0].id] else []) + Named(entries[1..], name)
  }

  function Swapped(entries: seq<Entry>, i: nat): (r: seq<Entry>)
    requires i + 1 < |entries|
    ensures |r| == |entries|
  {
    entries[i := entries[i + 1]][i + 1 := entries[i]]
  }

  // The same entries, and equal names in the order they had.
  ghost predicate Rearranged(before: seq<Entry>, after: seq<Entry>) {
    && |after| == |before| && multiset(after) == multiset(before)
    && forall name :: Named(after, name) == Named(before, name)
  }

  lemma {:induction false} SwappedNamed(entries: seq<Entry>, i: nat, name: string)
    requires i + 1 < |entries| && entries[i].name != entries[i + 1].name
    ensures Named(Swapped(entries, i), name) == Named(entries, name)
  {
    var after := Swapped(entries, i);
    if i == 0 {
      assert after[1..][1..] == entries[1..][1..];
    } else {
      SwappedNamed(entries[1..], i - 1, name);
      assert after[1..] == Swapped(entries[1..], i - 1);
    }
  }

  lemma {:induction false} SwappedIsRearranged(before: seq<Entry>, entries: seq<Entry>, i: nat)
    requires Rearranged(before, entries) && i + 1 < |entries| && entries[i].name != entries[i + 1].name
    ensures Rearranged(before, Swapped(entries, i))
  {
    forall name ensures Named(Swapped(entries, i), name) == Named(before, name) {
      SwappedNamed(entries, i, name);
    }
    hide Named;
    assert multiset(Swapped(entries, i)) == multiset(entries);
  }

  // ----- one pass over the front of the list -----

  // Nothing from position p on comes before anything in front of it.
  predicate Settled(entries: seq<Entry>, p: nat) {
    forall i, j | 0 <= i < j < |entries| && p <= j :: NotAfter(entries[i].name, entries[j].name)
  }

  // The entry at i is not before any in front of it.
  predicate LastSoFar(entries: seq<Entry>, i: nat)
    requires i < |entries|
  {
    forall k | 0 <= k <= i :: NotAfter(entries[k].name, entries[i].name)
  }

  predicate SortedUpTo(entries: seq<Entry>, i: nat)
    requires i <= |entries|
  {
    Sorted(entries[..i])
  }

  lemma {:induction false} Exchanged(entries: seq<Entry>, i: nat, p: nat)
    requires i + 1 < p <= |entries| && Settled(entries, p) && LastSoFar(entries, i)
    requires !NotAfter(entries[i].name, entries[i + 1].name)
    ensures Settled(Swapped(entries, i), p) && LastSoFar(Swapped(entries, i), i + 1)
  {
    var after := Swapped(entries, i);
    NotAfterIsTotal(entries[i].name, entries[i + 1].name);
    NotAfterIsTotal(entries[i].name, entries[i].name);
    hide NotAfter;
    forall j, k | 0 <= j < k < |after| && p <= k ensures NotAfter(after[j].name, after[k].name) {
      assert after[k] == entries[k];
    }
  }

  lemma {:induction false} Passed(entries: seq<Entry>, i: nat, p: nat, calm: bool)
    requires i + 1 < p <= |entries| && LastSoFar(entries, i) && (calm ==> SortedUpTo(entries, i + 1))
    requires NotAfter(entries[i].name, entries[i + 1].name)
    ensures LastSoFar(entries, i + 1) && (calm ==> SortedUpTo(entries, i + 2))
  {
    forall k | 0 <= k <= i + 1 ensures NotAfter(entries[k].name, entries[i + 1].name) {
      if k <= i {
        NotAfterIsTransitive(entries[k].name, entries[i].name, entries[i + 1].name);
      } else {
        NotAfterIsTotal(entries[k].name, entries[k].name);
      }
    }
    hide NotAfter;
    assert entries[..i + 2] == entries[..i + 1] + [entries[i + 1]];
  }

  lemma {:induction false} PassEnds(entries: seq<Entry>, p: nat, calm: bool)
    requires 0 < p <= |entries| && Settled(entries, p) && LastSoFar(entries, p - 1)
    requires calm ==> SortedUpTo(entries, p)
    ensures Settled(entries, p - 1) && (calm ==> Sorted(entries))
  {
    hide NotAfter;
    if calm {
      forall i, j | 0 <= i < j < |entries| ensures NotAfter(entries[i].name, entries[j].name) {
        if j < p { assert entries[..p][i] == entries[i] && entries[..p][j] == entries[j]; }
      }
    }
  }

  // ----- the list -----

  class App {
    var id: int
    var name: string
    var next: App?

    constructor (id: int, name: string)
      ensures this.id == id && this.name == name && next == null
    {
      this.id, this.name, next := id, name, null;
    }
  }

  // The nodes from list on, each linked to the next, without a cycle.
  ghost predicate IsList(list: App?, nodes: seq<App>)
    reads nodes
  {
    && (list == if nodes == [] then null else nodes[0])
    && (forall i | 0 <= i < |nodes| :: nodes[i].next == if i + 1 < |nodes| then nodes[i + 1] else null)
    && (forall i, j | 0 <= i < j < |nodes| :: nodes[i] != nodes[j])
  }

  ghost function Contents(nodes: seq<App>): (entries: seq<Entry>)
    reads nodes
    ensures |entries| == |nodes|
    ensures forall i | 0 <= i < |nodes| :: entries[i] == Entry(nodes[i].id, nodes[i].name)
  {
    seq(|nodes|, i requires 0 <= i < |nodes| reads nodes => Entry(nodes[i].id, nodes[i].name))
  }

  // swap_app_list_entries
  method SwapEntries(a: App, b: App)
    modifies a, b
    ensures a.id == old(b.id) && a.name == old(b.name) && b.id == old(a.id) && b.name == old(a.name)
    ensures a.next == old(a.next) && b.next == old(b.next)
  {
    var tmp := new App(a.id, a.name);
    a.id := b.id;
    a.name := b.name;
    b.id := tmp.id;
    b.name := tmp.name;
  }

  // sort_app_list
  method Sort(list: App?, ghost nodes: seq<App>)
    requires IsList(list, nodes)
    modifies nodes
    ensures IsList(list, nodes)
    ensures Sorted(Contents(nodes)) && Rearranged(old(Contents(nodes)), Contents(nodes))
  {
    hide Named, NotAfter;
    if list == null { return; }
    var prev: App? := null;
    var swapped := true;
    ghost var p := |nodes|;
    ghost var before := Contents(nodes);
    while swapped
      invariant IsList(list, nodes) && Rearranged(before, Contents(nodes))
      invariant 0 <= p <= |nodes| && prev == (if p < |nodes| then nodes[p] else null)
      invariant swapped ==> p > 0
      invariant Settled(Contents(nodes), p)
      invariant !swapped ==> Sorted(Contents(nodes))
      decreases if swapped then p + 1 else 0
    {
      prev, swapped := Pass(list, nodes, prev, p, before);
      p := p - 1;
    }
  }

  // One pass of the outer loop: the cursor goes up to the node in front of prev.
  method Pass(list: App, ghost nodes: seq<App>, prev: App?, ghost p: nat, ghost before: seq<Entry>)
    returns (cur: App, swapped: bool)
    requires IsList(list, nodes) && Rearranged(before, Contents(nodes))
    requires 0 < p <= |nodes| && prev == (if p < |nodes| then nodes[p] else null)
    requires Settled(Contents(nodes), p)
    modifies nodes
    ensures IsList(list, nodes) && Rearranged(before, Contents(nodes))
    ensures cur == nodes[p - 1] && Settled(Contents(nodes), p - 1)
    ensures !swapped ==> Sorted(Contents(nodes))
    ensures swapped ==> p > 1
  {
    hide *;
    cur, swapped := list, false;
    ghost var i := 0;
    FirstIsLastSoFar(Contents(nodes));
    FirstNode(list, nodes);
    NextNode(list, nodes, 0, p);
    while cur.next != prev
      invariant IsList(list, nodes) && Rearranged(before, Contents(nodes))
      invariant i < p && cur == nodes[i] && Settled(Contents(nodes), p)
      invariant LastSoFar(Contents(nodes), i)
      invariant !swapped ==> SortedUpTo(Contents(nodes), i + 1)
      invariant swapped ==> i > 0
      invariant cur.next == prev <==> i + 1 == p
      decreases p - i
    {
      swapped := Step(cur, nodes, i, p, before, swapped);
      NextNode(list, nodes, i, p);
      cur := cur.next;
      i := i + 1;
      NextNode(list, nodes, i, p);
    }
    PassEnds(Contents(nodes), p, !swapped);
  }

  lemma {:induction false} FirstNode(list: App, nodes: seq<App>)
    requires IsList(list, nodes)
    ensures nodes != [] && list == nodes[0]
  {
  }

  // The pass is over exactly when the cursor is one before position p.
  lemma {:induction false} NextNode(list: App, nodes: seq<App>, i: nat, p: nat)
    requires IsList(list, nodes) && i < p <= |nodes|
    ensures nodes[i].next == (if p < |nodes| then nodes[p] else null) <==> i + 1 == p
    ensures i + 1 < p ==> nodes[i].next == nodes[i + 1]
  {
    assert nodes[i].next == if i + 1 < |nodes| then nodes[i + 1] else null;
    if i + 1 < p < |nodes| { assert nodes[i + 1] != nodes[p]; }
  }

  lemma {:induction false} FirstIsLastSoFar(entries: seq<Entry>)
    requires entries != []
    ensures LastSoFar(entries, 0) && SortedUpTo(entries, 1)
  {
    NotAfterIsTotal(entries[0].name, entries[0].name);
  }

  // The comparison of one node with the next.
  method Step(cur: App, ghost nodes: seq<App>, ghost i: nat, ghost p: nat, ghost before: seq<Entry>, was: bool)
    returns (swapped: bool)
    requires nodes != [] && IsList(nodes[0], nodes) && Rearranged(before, Contents(nodes))
    requires i + 1 < p <= |nodes| && cur == nodes[i] && Settled(Contents(nodes), p)
    requires LastSoFar(Contents(nodes), i) && (!was ==> SortedUpTo(Contents(nodes), i + 1))
    modifies nodes
    ensures IsList(nodes[0], nodes) && Rearranged(before, Contents(nodes))
    ensures Settled(Contents(nodes), p) && LastSoFar(Contents(nodes), i + 1)
    ensures !swapped ==> SortedUpTo(Contents(nodes), i + 2)
  {
    hide Named, NotAfter, Rearranged, Sorted, Settled, LastSoFar, SortedUpTo, Swapped;
    swapped := was;
    ghost var entries := Contents(nodes);
    var next := cur.next;
    assert next == nodes[i + 1];
    if !NotAfter(cur.name, next.name) {
      Exchanged(entries, i, p);
      NotAfterIsTotal(cur.name, cur.name);
      SwappedIsRearranged(before, entries, i);
      SwapEntries(cur, next);
      SwappedContents(entries, Contents(nodes), i);
      swapped := true;
    } else {
      Passed(entries, i, p, !was);
    }
  }

  lemma {:induction false} SwappedContents(before: seq<Entry>, after: seq<Entry>, i: nat)
    requires i + 1 < |before| == |after| && after[i] == before[i + 1] && after[i + 1] == before[i]
    requires forall k | 0 <= k < |before| && k != i && k != i + 1 :: after[k] == before[k]
    ensures after == Swapped(before, i)
  {
  }
}
