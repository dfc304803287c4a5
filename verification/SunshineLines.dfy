/** Tests of single lines that only lines of one setting can pass, and what writing, removing
    and cleaning up settings means for them. */
module SunshineLines {
  import opened HostText
  import opened SunshineSettings
  import opened SunshineUndo
  import opened SunshineEdits

  // ----- single lines -----

  // A line assigns to the name in front of the first sign, blanks and case aside, and gives
  // the text behind it, blanks aside; a line without the sign assigns to nothing.
  lemma {:induction false} LineIsRead(front: string, name: string, back: string, rest: string)
    requires IsBlank(front) && IsBlank(back) && PlainName(name) && name != ""
    ensures KeyOf(front + name + back + ("=" + rest)) == Some(Fold(name))
    ensures ValueOf(front + name + back + ("=" + rest)) == Trim(rest)
    ensures forall line: string :: KeyOf(line) == None <==> '=' !in line
  {
    var head := front + name + back;
    var line := head + ("=" + rest);
    BlankHasNoSign(front);
    BlankHasNoSign(back);
    TrimAround(front, name, back);
    hide Trim, IsBlank, Fold;
    forall i | 0 <= i < |head| ensures line[i] != '=' {
      if i < |front| { assert line[i] == front[i]; }
      else if i < |front| + |name| { assert line[i] == name[i - |front|]; }
      else { assert line[i] == back[i - |front| - |name|]; }
    }
    assert line[|head|] == '=';
    FirstSign(line, |head|);
    assert line[..|head|] == head && line[|head| + 1..] == rest;
  }

  // ----- tests -----

  type Test = string -> bool

  predicate Has(lines: seq<string>, test: Test) {
    exists i | 0 <= i < |lines| :: test(lines[i])
  }

  // Only lines that assign the key pass.
  ghost predicate TestsKey(test: Test, key: string) {
    forall line: string :: test(line) ==> KeyOf(line) == Some(key)
  }

  lemma {:induction false} HasCons(x: string, rest: seq<string>, test: Test)
    ensures Has([x] + rest, test) <==> test(x) || Has(rest, test)
  {
    var all := [x] + rest;
    assert all[0] == x && forall i | 0 <= i < |rest| :: all[i + 1] == rest[i];
    if Has(all, test) {
      var i :| 0 <= i < |all| && test(all[i]);
      if i > 0 { assert rest[i - 1] == all[i]; }
    }
  }

  lemma {:induction false} HasSplit(lines: seq<string>, test: Test)
    requires lines != []
    ensures Has(lines, test) <==> test(lines[0]) || Has(lines[1..], test)
  {
    assert lines == [lines[0]] + lines[1..];
    HasCons(lines[0], lines[1..], test);
    hide Has;
  }

  // Without its first line of the key a file passes only if a later one does.
  lemma {:induction false} HasFirst(lines: seq<string>, key: string, test: Test)
    requires TestsKey(test, key)
    ensures Has(Without(lines, key), test) ==> Has(lines, test)
    ensures Has(lines, test) ==> Lookup(lines, key).Some?
  {
    hide KeyOf, ValueOf, Has;
    if lines == [] {
      assert !Has(lines, test) by { HasNothing(test); }
    } else {
      HasSplit(lines, test);
      if KeyOf(lines[0]) != Some(key) {
        HasFirst(lines[1..], key, test);
        HasCons(lines[0], Without(lines[1..], key), test);
      }
    }
  }

  lemma {:induction false} HasNothing(test: Test)
    ensures !Has([], test)
  {
  }

  // ----- one setting written -----

  lemma {:induction false} HasWithValue(lines: seq<string>, name: string, value: string, key: string, test: Test)
    requires PlainName(name) && TestsKey(test, key)
    ensures Has(WithValue(lines, name, value), test) <==>
            if Fold(name) == key then test(Assignment(name, value)) || Has(Without(lines, key), test)
            else Has(lines, test)
  {
    AssignmentReadsBack(name, value);
    hide KeyOf, ValueOf, PlainName, Assignment, Fold, Has;
    var line := Assignment(name, value);
    HasNothing(test);
    if lines == [] {
      HasCons(line, [], test);
      assert [line] + [] == [line];
    } else {
      HasSplit(lines, test);
      if KeyOf(lines[0]) == Some(Fold(name)) {
        HasCons(line, lines[1..], test);
      } else {
        HasWithValue(lines[1..], name, value, key, test);
        HasCons(lines[0], WithValue(lines[1..], name, value), test);
        if Fold(name) == key { HasCons(lines[0], Without(lines[1..], key), test); }
      }
    }
  }

  lemma {:induction false} HasWithoutWithValue(lines: seq<string>, name: string, value: string, key: string, test: Test)
    requires PlainName(name) && TestsKey(test, key)
    ensures Has(Without(WithValue(lines, name, value), key), test) <==> Has(Without(lines, key), test)
  {
    AssignmentReadsBack(name, value);
    hide KeyOf, ValueOf, PlainName, Assignment, Fold, Has;
    var line := Assignment(name, value);
    HasNothing(test);
    if lines == [] {
      assert [line][1..] == [];
      if Fold(name) != key {
        assert [line] + Without([], key) == [line];
        HasCons(line, [], test);
        assert [line] + [] == [line];
      }
    } else if KeyOf(lines[0]) == Some(Fold(name)) {
      assert ([line] + lines[1..])[1..] == lines[1..];
      if Fold(name) != key {
        HasCons(line, Without(lines[1..], key), test);
        HasCons(lines[0], Without(lines[1..], key), test);
      }
    } else {
      var rest := WithValue(lines[1..], name, value);
      assert ([lines[0]] + rest)[1..] == rest;
      if KeyOf(lines[0]) == Some(key) {
        HasWithValue(lines[1..], name, value, key, test);
      } else {
        HasWithoutWithValue(lines[1..], name, value, key, test);
        HasCons(lines[0], Without(rest, key), test);
        HasCons(lines[0], Without(lines[1..], key), test);
      }
    }
  }

  // ----- a list of settings written -----

  // The last setting of the list for a key.
  function LastOf(settings: seq<Setting>, key: string): Option<Setting>
    decreases settings
  {
    if settings == [] then None
    else
      var later := LastOf(settings[1..], key);
      if later.Some? then later else if Fold(settings[0].name) == key then Some(settings[0]) else None
  }

  // After a list of settings was written a file passes if the line written last for the key
  // does, or a line behind the first one of the key.
  lemma {:induction false} HasAfterSettings(b: Book, settings: seq<Setting>, key: string, test: Test)
    requires PlainSettings(settings) && TestsKey(test, key)
    ensures var s := LastOf(settings, key);
            Has(SetAll(b, settings).lines, test) <==>
            if s.Some? then test(Assignment(s.value.name, s.value.value)) || Has(Without(b.lines, key), test)
            else Has(b.lines, test)
    ensures Has(Without(SetAll(b, settings).lines, key), test) <==> Has(Without(b.lines, key), test)
    decreases settings
  {
    hide KeyOf, ValueOf, PlainName, Assignment, Fold, Has, WithValue, Without, Claim, TestsKey;
    if settings != [] {
      var s := settings[0];
      HasWithValue(b.lines, s.name, s.value, key, test);
      HasWithoutWithValue(b.lines, s.name, s.value, key, test);
      HasAfterSettings(Set(b, s), settings[1..], key, test);
    }
  }

  // What is read for a key afterwards, and what its owner says was applied.
  lemma {:induction false} ReadAfterSettings(b: Book, settings: seq<Setting>, key: string)
    requires PlainSettings(settings)
    ensures var s := LastOf(settings, key);
            && Lookup(SetAll(b, settings).lines, key)
               == (if s.Some? then Some(Trim(s.value.value)) else Lookup(b.lines, key))
            && var owned := SetAll(b, settings).owned;
               && (s.Some? ==> key in owned && owned[key].applied == s.value.value)
               && (s.None? && key in b.owned ==> key in owned && owned[key] == b.owned[key])
    decreases settings
  {
    hide KeyOf, ValueOf, PlainName, Assignment, WithValue, Without, Lookup, Trim;
    if settings != [] {
      var s := settings[0];
      WithValueLookup(b.lines, s.name, s.value);
      ReadAfterSettings(Set(b, s), settings[1..], key);
    }
  }

  lemma {:induction false} LastIs(settings: seq<Setting>, i: nat)
    requires i < |settings| && forall j | i < j < |settings| :: Fold(settings[j].name) != Fold(settings[i].name)
    ensures LastOf(settings, Fold(settings[i].name)) == Some(settings[i])
    decreases settings
  {
    hide Fold;
    if i == 0 { LastNone(settings[1..], Fold(settings[0].name)); } else { LastIs(settings[1..], i - 1); }
  }

  lemma {:induction false} LastNone(settings: seq<Setting>, key: string)
    requires forall j | 0 <= j < |settings| :: Fold(settings[j].name) != key
    ensures LastOf(settings, key) == None
    decreases settings
  {
    hide Fold;
    if settings != [] { LastNone(settings[1..], key); }
  }

  // ----- cleanup -----

  lemma {:induction false} HasCleanedOther(lines: seq<string>, owned: Ownership, key: string, test: Test)
    requires Sound(owned) && key !in owned && TestsKey(test, key)
    ensures Has(Cleaned(lines, owned), test) <==> Has(lines, test)
  {
    hide KeyOf, ValueOf, PlainName, Restored, Has, Trimmed;
    if lines != [] {
      HasSplit(lines, test);
      var k := KeyOf(lines[0]);
      if k.Some? && k.value in owned {
        var rest := owned - {k.value};
        HasCleanedOther(lines[1..], rest, key, test);
        RestoredKeepsKey(lines[0], owned[k.value]);
        if line :| Restored(lines[0], owned[k.value]) == [line] && KeyOf(line) == k {
          HasCons(line, Cleaned(lines[1..], rest), test);
        } else {
          assert Restored(lines[0], owned[k.value]) + Cleaned(lines[1..], rest) == Cleaned(lines[1..], rest);
        }
      } else {
        HasCleanedOther(lines[1..], owned, key, test);
        HasCons(lines[0], Cleaned(lines[1..], owned), test);
      }
    }
  }

  // After cleanup a file passes if the restored line does, or one behind the first of the key.
  lemma {:induction false} HasCleaned(lines: seq<string>, owned: Ownership, key: string, test: Test)
    requires Sound(owned) && TestsKey(test, key)
    ensures Has(Cleaned(lines, owned), test) <==>
            if !Held(lines, owned, key) then Has(lines, test)
            else (owned[key].original.Some? && test(Assignment(owned[key].name, owned[key].original.value)))
                 || Has(Without(lines, key), test)
  {
    hide KeyOf, ValueOf, PlainName, Cleaned, Restored, Trimmed, WithValue, Without, Lookup, Has, Assignment, Fold,
         TestsKey;
    if key !in owned {
      HasCleanedOther(lines, owned, key, test);
    } else {
      var o := owned[key];
      var only, rest := map[key := o], owned - {key};
      assert only + rest == owned;
      CleanedJoin(lines, only, rest);
      HasCleanedOther(Cleaned(lines, only), rest, key, test);
      CleanedOne(lines, key, o);
      if o.original.Some? { HasWithValue(lines, o.name, o.original.value, key, test); }
    }
  }
}
