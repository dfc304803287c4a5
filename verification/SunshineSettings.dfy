/** The undo log over sunshine.conf: which lines a setting names, how Configure
    overwrites them while noting what they were, and how cleanup puts them back. */
module SunshineSettings {
  import opened HostText

  // ----- lines -----

  function KeyOf(line: string): Option<string> {
    var equals := IndexOf(line, '=', 0);
    if equals < 0 then None else Some(Fold(Trim(line[..equals])))
  }

  function ValueOf(line: string): string {
    var equals := IndexOf(line, '=', 0);
    if equals < 0 then "" else Trim(line[equals + 1..])
  }

  function Assignment(name: string, value: string): string {
    name + " = " + value
  }

  // A setting name that survives being written and read back.
  predicate PlainName(name: string) {
    '=' !in name && Trimmed(name)
  }

  lemma {:induction false} AssignmentReadsBack(name: string, value: string)
    requires PlainName(name)
    ensures KeyOf(Assignment(name, value)) == Some(Fold(name))
    ensures ValueOf(Assignment(name, value)) == Trim(value)
  {
    var line := Assignment(name, value);
    assert forall i | 0 <= i < |name| :: line[i] == name[i];
    assert line[|name|] == ' ' && line[|name| + 1] == '=';
    assert IndexOf(line, '=', 0) == |name| + 1;
    assert line[..|name| + 1] == name + " ";
    assert line[|name| + 2..] == " " + value;
    TrimOneSpace(name);
    TrimOneSpace(value);
  }

  // The value of the first line for a (folded) key.
  function Lookup(lines: seq<string>, key: string): Option<string> {
    if lines == [] then None
    else if KeyOf(lines[0]) == Some(key) then Some(ValueOf(lines[0]))
    else Lookup(lines[1..], key)
  }

  // lines with the first line for name overwritten, or a new last line.
  function WithValue(lines: seq<string>, name: string, value: string): seq<string> {
    if lines == [] then [Assignment(name, value)]
    else if KeyOf(lines[0]) == Some(Fold(name)) then [Assignment(name, value)] + lines[1..]
    else [lines[0]] + WithValue(lines[1..], name, value)
  }

  // lines without the first line for key.
  function Without(lines: seq<string>, key: string): seq<string> {
    if lines == [] then []
    else if KeyOf(lines[0]) == Some(key) then lines[1..]
    else [lines[0]] + Without(lines[1..], key)
  }

  // ----- ownership -----

  // original is the value before the key was first set, None if it had no line.
  datatype Owned = Owned(name: string, original: Option<string>, applied: string)

  // The ownership dictionary; it compares names without regard to case, so it is
  // indexed here by the folded name.
  type Ownership = map<string, Owned>

  predicate Sound(owned: Ownership) {
    forall k | k in owned ::
      && Fold(owned[k].name) == k
      && PlainName(owned[k].name)
      && (owned[k].original.Some? ==> Trimmed(owned[k].original.value))
  }

  datatype Setting = Setting(name: string, value: string)

  predicate PlainSettings(settings: seq<Setting>) {
    forall i | 0 <= i < |settings| :: PlainName(settings[i].name)
  }

  // Every value is what reading it back gives.
  predicate TrimmedSettings(settings: seq<Setting>) {
    forall i | 0 <= i < |settings| :: Trimmed(settings[i].value)
  }

  function Claim(owned: Ownership, lines: seq<string>, s: Setting): Ownership {
    var key := Fold(s.name);
    if key in owned then owned[key := owned[key].(applied := s.value)]
    else owned[key := Owned(s.name, Lookup(lines, key), s.value)]
  }

  datatype Book = Book(lines: seq<string>, owned: Ownership)

  // One SetConfigurationValue with ownership, and a list of them.
  function Set(b: Book, s: Setting): Book {
    Book(WithValue(b.lines, s.name, s.value), Claim(b.owned, b.lines, s))
  }

  function SetAll(b: Book, settings: seq<Setting>): Book
    decreases settings
  {
    if settings == [] then b else SetAll(Set(b, settings[0]), settings[1..])
  }

  // ----- cleanup, as a function of the lines and the dictionary -----

  // What becomes of the first line of an owned key.
  function Restored(line: string, o: Owned): seq<string> {
    if ValueOf(line) != o.applied then [line]
    else if o.original.Some? then [Assignment(o.name, o.original.value)]
    else []
  }

  function Cleaned(lines: seq<string>, owned: Ownership): seq<string> {
    if lines == [] then []
    else
      var key := KeyOf(lines[0]);
      if key.Some? && key.value in owned then
        Restored(lines[0], owned[key.value]) + Cleaned(lines[1..], owned - {key.value})
      else
        [lines[0]] + Cleaned(lines[1..], owned)
  }

  // Whether cleanup changes anything.
  ghost predicate Held(lines: seq<string>, owned: Ownership, key: string) {
    key in owned && Lookup(lines, key) == Some(owned[key].applied)
  }

  ghost predicate AnyHeld(lines: seq<string>, owned: Ownership) {
    exists k :: Held(lines, owned, k)
  }

  /** sunshine.conf as a list of lines edited in place. */
  class ConfigurationLines {
    var lines: seq<string>

    constructor (initial: seq<string>)
      ensures lines == initial
    {
      lines := initial;
    }

    method FindConfigurationValueIndex(name: string) returns (index: int)
      ensures index == -1 ==> Lookup(lines, Fold(name)) == None
      ensures index != -1 ==>
        && 0 <= index < |lines| && KeyOf(lines[index]) == Some(Fold(name))
        && forall i | 0 <= i < index :: KeyOf(lines[i]) != Some(Fold(name))
    {
      index := 0;
      while index < |lines|
        invariant 0 <= index <= |lines|
        invariant forall i | 0 <= i < index :: KeyOf(lines[i]) != Some(Fold(name))
      {
        var equals := IndexOf(lines[index], '=', 0);
        if equals >= 0 && SameText(Trim(lines[index][..equals]), name) {
          return;
        }
        index := index + 1;
      }
      LookupNone(lines, Fold(name));
      return -1;
    }

    method TryGetConfigurationValue(name: string) returns (value: Option<string>)
      ensures value == Lookup(lines, Fold(name))
    {
      var index := FindConfigurationValueIndex(name);
      if index < 0 { return None; }
      LookupFirst(lines, Fold(name), index);
      var equals := IndexOf(lines[index], '=', 0);
      return Some(if equals < 0 then "" else Trim(lines[index][equals + 1..]));
    }

    method SetConfigurationValue(name: string, value: string)
      modifies this
      ensures lines == WithValue(old(lines), name, value)
    {
      var index := FindConfigurationValueIndex(name);
      var replacement := name + " = " + value;
      if index >= 0 {
        WithValueFirst(lines, name, value, index);
        lines := lines[index := replacement];
      } else {
        WithValueNew(lines, name, value);
        lines := lines + [replacement];
      }
    }

    method RemoveConfigurationValue(name: string)
      modifies this
      ensures lines == Without(old(lines), Fold(name))
    {
      var index := FindConfigurationValueIndex(name);
      if index >= 0 {
        WithoutFirst(lines, Fold(name), index);
        lines := lines[..index] + lines[index + 1..];
      } else {
        WithoutNone(lines, Fold(name));
      }
    }

    // order is the order in which the dictionary happens to enumerate its keys; the
    // result does not depend on it.
    method RestoreOwnedConfiguration(owned: Ownership, order: seq<string>) returns (changed: bool)
      requires Sound(owned) && Enumerates(order, owned)
      modifies this
      ensures lines == Cleaned(old(lines), owned)
      ensures changed <==> AnyHeld(old(lines), owned)
    {
      hide *;
      changed := false;
      ghost var was := lines;
      PartEnds(lines, owned, order);
      for n := 0 to |order|
        invariant lines == Cleaned(was, Part(owned, order, n))
        invariant changed <==> AnyHeld(was, Part(owned, order, n))
      {
        CleanNext(was, owned, order, n);
        var o := owned[order[n]];
        var currentValue := TryGetConfigurationValue(o.name);
        if currentValue == Some(o.applied) {
          if o.original.Some? {
            SetConfigurationValue(o.name, o.original.value);
          } else {
            RemoveConfigurationValue(o.name);
          }
          changed := true;
        }
      }
    }
  }

  ghost predicate Enumerates(order: seq<string>, owned: Ownership) {
    && (forall k :: k in order <==> k in owned)
    && forall i, j | 0 <= i < j < |order| :: order[i] != order[j]
  }

  // The entries the loop has passed.
  ghost function Part(owned: Ownership, order: seq<string>, n: nat): Ownership
    requires n <= |order|
  {
    map k | k in owned && k in order[..n] :: owned[k]
  }

  lemma {:induction false} PartEnds(lines: seq<string>, owned: Ownership, order: seq<string>)
    requires Enumerates(order, owned)
    ensures Cleaned(lines, Part(owned, order, 0)) == lines && !AnyHeld(lines, Part(owned, order, 0))
    ensures Part(owned, order, |order|) == owned
  {
    CleanedNothing(lines);
    assert Part(owned, order, 0) == map[];
    assert order[..|order|] == order;
  }

  lemma {:induction false} CleanNext(was: seq<string>, owned: Ownership, order: seq<string>, n: nat)
    requires Sound(owned) && Enumerates(order, owned) && n < |order|
    ensures order[n] in owned && Fold(owned[order[n]].name) == order[n]
    ensures var o := owned[order[n]];
            var before, after := Part(owned, order, n), Part(owned, order, n + 1);
            var lines := Cleaned(was, before);
            && Cleaned(was, after) ==
               (if Lookup(lines, order[n]) != Some(o.applied) then lines
                else if o.original.Some? then WithValue(lines, o.name, o.original.value)
                else Without(lines, order[n]))
            && (AnyHeld(was, after) <==>
                AnyHeld(was, before) || Lookup(lines, order[n]) == Some(o.applied))
  {
    hide KeyOf, ValueOf, PlainName, Restored, Cleaned, Lookup, WithValue, Without, Fold, Trimmed;
    var key := order[n];
    var before, after := Part(owned, order, n), Part(owned, order, n + 1);
    assert key in owned;
    assert key !in order[..n];
    assert order[..n + 1] == order[..n] + [key];
    assert after == before + map[key := owned[key]];
    CleanedJoin(was, before, map[key := owned[key]]);
    CleanedOne(Cleaned(was, before), key, owned[key]);
    CleanedLookupOther(was, before, key);
    assert Held(was, after, key) <==> Lookup(was, key) == Some(owned[key].applied);
    assert forall k | k != key :: Held(was, after, k) <==> Held(was, before, k);
    assert !Held(was, before, key);
  }

  // ----- the loops above and the recursive functions -----

  lemma {:induction false} LookupNone(lines: seq<string>, key: string)
    requires forall i | 0 <= i < |lines| :: KeyOf(lines[i]) != Some(key)
    ensures Lookup(lines, key) == None
  {
    if lines != [] { LookupNone(lines[1..], key); }
  }

  lemma {:induction false} LookupFirst(lines: seq<string>, key: string, index: nat)
    requires index < |lines| && KeyOf(lines[index]) == Some(key)
    requires forall i | 0 <= i < index :: KeyOf(lines[i]) != Some(key)
    ensures Lookup(lines, key) == Some(ValueOf(lines[index]))
  {
    if index > 0 { LookupFirst(lines[1..], key, index - 1); }
  }

  lemma {:induction false} WithValueFirst(lines: seq<string>, name: string, value: string, index: nat)
    requires index < |lines| && KeyOf(lines[index]) == Some(Fold(name))
    requires forall i | 0 <= i < index :: KeyOf(lines[i]) != Some(Fold(name))
    ensures WithValue(lines, name, value) == lines[index := Assignment(name, value)]
  {
    if index > 0 { WithValueFirst(lines[1..], name, value, index - 1); }
  }

  lemma {:induction false} WithValueNew(lines: seq<string>, name: string, value: string)
    requires Lookup(lines, Fold(name)) == None
    ensures WithValue(lines, name, value) == lines + [Assignment(name, value)]
  {
    if lines != [] { WithValueNew(lines[1..], name, value); }
  }

  lemma {:induction false} WithoutFirst(lines: seq<string>, key: string, index: nat)
    requires index < |lines| && KeyOf(lines[index]) == Some(key)
    requires forall i | 0 <= i < index :: KeyOf(lines[i]) != Some(key)
    ensures Without(lines, key) == lines[..index] + lines[index + 1..]
  {
    if index > 0 {
      WithoutFirst(lines[1..], key, index - 1);
      assert lines[..index] == [lines[0]] + lines[1..][..index - 1];
    }
  }

  lemma {:induction false} WithoutNone(lines: seq<string>, key: string)
    requires Lookup(lines, key) == None
    ensures Without(lines, key) == lines
  {
    if lines != [] { WithoutNone(lines[1..], key); }
  }

  // ----- cleanup key by key -----

  lemma {:induction false} CleanedNothing(lines: seq<string>)
    ensures Cleaned(lines, map[]) == lines
  {
    if lines != [] { CleanedNothing(lines[1..]); }
  }

  lemma {:induction false} CleanedOne(lines: seq<string>, key: string, o: Owned)
    requires Fold(o.name) == key
    ensures Cleaned(lines, map[key := o]) ==
            if Lookup(lines, key) != Some(o.applied) then lines
            else if o.original.Some? then WithValue(lines, o.name, o.original.value)
            else Without(lines, key)
  {
    if lines == [] {
    } else if KeyOf(lines[0]) == Some(key) {
      assert map[key := o] - {key} == map[];
      CleanedNothing(lines[1..]);
    } else {
      CleanedOne(lines[1..], key, o);
    }
  }

  // Cleanup keeps the key of every line it does not drop.
  lemma {:induction false} RestoredKeepsKey(line: string, o: Owned)
    requires PlainName(o.name) && KeyOf(line) == Some(Fold(o.name))
    ensures Restored(line, o) == [] ||
            exists x :: Restored(line, o) == [x] && KeyOf(x) == KeyOf(line)
  {
    if ValueOf(line) == o.applied && o.original.Some? {
      AssignmentReadsBack(o.name, o.original.value);
    }
  }

  lemma {:induction false} CleanedCons(x: string, rest: seq<string>, owned: Ownership)
    ensures Cleaned([x] + rest, owned) ==
            var key := KeyOf(x);
            if key.Some? && key.value in owned then
              Restored(x, owned[key.value]) + Cleaned(rest, owned - {key.value})
            else [x] + Cleaned(rest, owned)
  {
    assert ([x] + rest)[1..] == rest;
  }

  // What cleanup makes of an owned line is left alone by the keys of another group.
  lemma {:induction false} RestoredPasses(line: string, o: Owned, rest: seq<string>, second: Ownership)
    requires PlainName(o.name) && KeyOf(line) == Some(Fold(o.name)) && Fold(o.name) !in second
    ensures Cleaned(Restored(line, o) + rest, second) == Restored(line, o) + Cleaned(rest, second)
  {
    hide KeyOf, ValueOf, PlainName, Restored, Fold;
    RestoredKeepsKey(line, o);
    if x :| Restored(line, o) == [x] && KeyOf(x) == KeyOf(line) {
      CleanedCons(x, rest, second);
    } else {
      assert Restored(line, o) + rest == rest;
      assert Restored(line, o) + Cleaned(rest, second) == Cleaned(rest, second);
    }
  }

  // Cleaning two disjoint groups of keys one after the other is cleaning them together.
  lemma {:induction false} CleanedJoin(lines: seq<string>, first: Ownership, second: Ownership)
    requires first.Keys !! second.Keys && Sound(first)
    ensures Cleaned(Cleaned(lines, first), second) == Cleaned(lines, first + second)
  {
    hide KeyOf, ValueOf, PlainName, Restored;
    if lines != [] {
      var key := KeyOf(lines[0]);
      var both := first + second;
      if key.Some? && key.value in first {
        var left := first - {key.value};
        CleanedJoin(lines[1..], left, second);
        assert left + second == both - {key.value};
        RestoredPasses(lines[0], first[key.value], Cleaned(lines[1..], left), second);
      } else if key.Some? && key.value in second {
        CleanedCons(lines[0], Cleaned(lines[1..], first), second);
        CleanedJoin(lines[1..], first, second - {key.value});
        assert first + (second - {key.value}) == both - {key.value};
      } else {
        CleanedCons(lines[0], Cleaned(lines[1..], first), second);
        CleanedJoin(lines[1..], first, second);
      }
    }
  }

  lemma {:induction false} LookupCons(x: string, rest: seq<string>, key: string)
    ensures Lookup([x] + rest, key) == if KeyOf(x) == Some(key) then Some(ValueOf(x)) else Lookup(rest, key)
  {
    assert ([x] + rest)[1..] == rest;
  }

  lemma {:induction false} CleanedLookupOther(lines: seq<string>, owned: Ownership, key: string)
    requires Sound(owned) && key !in owned
    ensures Lookup(Cleaned(lines, owned), key) == Lookup(lines, key)
  {
    hide KeyOf, ValueOf, PlainName, Restored;
    if lines != [] {
      var k := KeyOf(lines[0]);
      if k.Some? && k.value in owned {
        var rest := owned - {k.value};
        CleanedLookupOther(lines[1..], rest, key);
        RestoredKeepsKey(lines[0], owned[k.value]);
        if line :| Restored(lines[0], owned[k.value]) == [line] && KeyOf(line) == k {
          LookupCons(line, Cleaned(lines[1..], rest), key);
        } else {
          assert Restored(lines[0], owned[k.value]) + Cleaned(lines[1..], rest) == Cleaned(lines[1..], rest);
        }
      } else {
        CleanedLookupOther(lines[1..], owned, key);
        LookupCons(lines[0], Cleaned(lines[1..], owned), key);
      }
    }
  }
}
