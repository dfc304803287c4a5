/** The eight-slot cache that holds back repeated legacy error messages. */
module RateLimit {
  import opened HostText

  const SLOTS: nat := 8
  const INTERVAL: nat := 10_000_000
  const U32: nat := 0x1_0000_0000
  const U64: nat := 0x1_0000_0000_0000_0000

  // ----- what the cache is for: one entry for every message hash -----

  datatype Entry = Entry(last: nat, pending: nat)

  type Table = map<nat, Entry>

  predicate Limited(table: Table, hash: nat, now: nat) {
    hash in table && (now - table[hash].last) % U64 < INTERVAL
  }

  function Passed(table: Table, hash: nat, now: nat): Table {
    if Limited(table, hash, now) then table[hash := Entry(table[hash].last, (table[hash].pending + 1) % U32)]
    else table[hash := Entry(now, 0)]
  }

  // What an admitted message reports.
  function Repeats(table: Table, hash: nat): nat {
    if hash in table then table[hash].pending else 0
  }

  // ----- the slots -----

  datatype Slot = Slot(hash: nat, last: nat, repetitions: nat)

  const EMPTY: Slot := Slot(0, 0, 0)

  function Pending(slots: seq<Slot>): nat {
    if slots == [] then 0 else Pending(slots[..|slots| - 1]) + slots[|slots| - 1].repetitions
  }

  lemma {:induction false} PendingReplaced(slots: seq<Slot>, index: nat, slot: Slot)
    requires index < |slots|
    ensures Pending(slots[index := slot]) == Pending(slots) - slots[index].repetitions + slot.repetitions
  {
    var last := |slots| - 1;
    if index == last {
      assert slots[index := slot][..last] == slots[..last];
    } else {
      PendingReplaced(slots[..last], index, slot);
      assert slots[index := slot][..last] == slots[..last][index := slot];
    }
  }

  lemma {:induction false} PendingOfEmpty(slots: seq<Slot>)
    requires forall i | 0 <= i < |slots| :: slots[i] == EMPTY
    ensures Pending(slots) == 0
  {
    if slots != [] { PendingOfEmpty(slots[..|slots| - 1]); }
  }

  function Get(table: Table, hash: nat): Option<Entry> {
    if hash in table then Some(table[hash]) else None
  }

  // The entry of the first slot with a given hash.
  function Lookup(slots: seq<Slot>, hash: nat): Option<Entry> {
    if slots == [] then None
    else if slots[0].hash == hash then Some(Entry(slots[0].last, slots[0].repetitions))
    else Lookup(slots[1..], hash)
  }

  lemma {:induction false} LookupAt(slots: seq<Slot>, index: nat)
    requires index < |slots| && forall i | 0 <= i < index :: slots[i].hash != slots[index].hash
    ensures Lookup(slots, slots[index].hash) == Some(Entry(slots[index].last, slots[index].repetitions))
  {
    if index > 0 {
      assert slots[0].hash != slots[index].hash;
      LookupAt(slots[1..], index - 1);
    }
  }

  lemma {:induction false} LookupNone(slots: seq<Slot>, hash: nat)
    requires forall i | 0 <= i < |slots| :: slots[i].hash != hash
    ensures Lookup(slots, hash) == None
  {
    if slots != [] { LookupNone(slots[1..], hash); }
  }

  lemma {:induction false} LookupOther(slots: seq<Slot>, index: nat, slot: Slot, hash: nat)
    requires index < |slots| && slots[index].hash != hash && slot.hash != hash
    ensures Lookup(slots[index := slot], hash) == Lookup(slots, hash)
  {
    if index > 0 {
      LookupOther(slots[1..], index - 1, slot, hash);
      assert slots[index := slot][1..] == slots[1..][index - 1 := slot];
    } else {
      assert slots[index := slot][1..] == slots[1..];
    }
  }

  // The slots in use come first, each with a hash of its own.
  ghost predicate Packed(slots: seq<Slot>, used: nat) {
    && used <= |slots|
    && (forall i | 0 <= i < used :: slots[i].hash > 0)
    && (forall i | used <= i < |slots| :: slots[i] == EMPTY)
    && (forall i, j | 0 <= i < j < used :: slots[i].hash != slots[j].hash)
  }

  ghost predicate Represents(slots: seq<Slot>, table: Table) {
    Packed(slots, |table|) && 0 !in table && forall h: nat | h > 0 :: Lookup(slots, h) == Get(table, h)
  }

  function Evicted(table: Table, hash: nat): Table {
    map h | h in table && h != hash :: table[h]
  }

  // The hash of a slot in use is in the table, and the other way round.
  lemma {:induction false} UsedSlots(slots: seq<Slot>, table: Table, index: nat)
    requires Represents(slots, table) && index < |table|
    ensures Get(table, slots[index].hash) == Some(Entry(slots[index].last, slots[index].repetitions))
  {
    hide Lookup;
    LookupAt(slots, index);
  }

  lemma {:induction false} KnownHash(slots: seq<Slot>, table: Table, hash: nat)
    requires Represents(slots, table) && hash in table && hash > 0
    ensures exists i | 0 <= i < |table| :: slots[i].hash == hash
  {
    hide Lookup;
    assert Get(table, hash) == Lookup(slots, hash);
    if forall i | 0 <= i < |table| :: slots[i].hash != hash {
      assert forall i | 0 <= i < |slots| :: slots[i].hash != hash;
      LookupNone(slots, hash);
    }
  }

  // A slot is rewritten with the same hash or one that no other slot has.
  lemma {:induction false} SlotWritten(slots: seq<Slot>, used: nat, index: nat, slot: Slot, h: nat)
    requires index <= used && index < |slots| && h > 0
    requires Packed(slots, used) && Packed(slots[index := slot], if index < used then used else used + 1)
    ensures Lookup(slots[index := slot], h) ==
            if h == slot.hash then Some(Entry(slot.last, slot.repetitions))
            else if h == slots[index].hash then None
            else Lookup(slots, h)
  {
    hide Lookup;
    var after := slots[index := slot];
    if h == slot.hash {
      LookupAt(after, index);
    } else if h == slots[index].hash {
      LookupNone(after, h);
    } else {
      LookupOther(slots, index, slot, h);
    }
  }

  // The table when a slot is given to a hash.
  function Given(table: Table, gone: nat, slot: Slot): Table {
    Evicted(table, gone)[slot.hash := Entry(slot.last, slot.repetitions)]
  }

  lemma {:induction false} GivenSize(table: Table, gone: nat, slot: Slot)
    requires slot.hash == gone || slot.hash !in table
    ensures |Given(table, gone, slot)| == if gone in table then |table| else |table| + 1
  {
    var rest := Evicted(table, gone);
    if gone in table {
      assert rest[gone := table[gone]] == table;
    } else {
      assert rest == table;
    }
  }

  lemma {:induction false} PackedAfter(slots: seq<Slot>, table: Table, index: nat, slot: Slot)
    requires Represents(slots, table) && index <= |table| && index < |slots| && slot.hash > 0
    requires slots[index].hash == slot.hash || slot.hash !in table
    ensures Packed(slots[index := slot], if index < |table| then |table| else |table| + 1)
  {
    forall i | 0 <= i < |table| && i != index ensures slots[i].hash != slot.hash {
      UsedSlots(slots, table, i);
    }
    hide Lookup;
  }

  lemma {:induction false} SlotGiven(slots: seq<Slot>, table: Table, index: nat, slot: Slot)
    requires Represents(slots, table) && index <= |table| && index < |slots| && slot.hash > 0
    requires slots[index].hash == slot.hash || slot.hash !in table
    ensures Represents(slots[index := slot], Given(table, slots[index].hash, slot))
  {
    hide Lookup;
    var gone := slots[index].hash;
    if index < |table| { UsedSlots(slots, table, index); } else { assert slots[index] == EMPTY; }
    GivenSize(table, gone, slot);
    PackedAfter(slots, table, index, slot);
    forall h: nat | h > 0 ensures Lookup(slots[index := slot], h) == Get(Given(table, gone, slot), h) {
      SlotWritten(slots, |table|, index, slot, h);
      assert Lookup(slots, h) == Get(table, h);
    }
  }

  lemma {:induction false} EmptyRepresents(slots: seq<Slot>)
    requires forall i | 0 <= i < |slots| :: slots[i] == EMPTY
    ensures Represents(slots, map[])
  {
    forall h: nat | h > 0 ensures Lookup(slots, h) == Get(map[], h) {
      LookupNone(slots, h);
    }
  }

  // ----- one message -----

  predicate Repeated(slot: Slot, hash: nat, now: nat) {
    slot.hash == hash && (now - slot.last) % U64 < INTERVAL
  }

  function NewSlot(slot: Slot, hash: nat, now: nat): Slot {
    if Repeated(slot, hash, now) then slot.(repetitions := (slot.repetitions + 1) % U32) else Slot(hash, now, 0)
  }

  // Which slot a message may use.
  ghost predicate Found(slots: seq<Slot>, table: Table, hash: nat, index: nat) {
    && |slots| == SLOTS && index < SLOTS
    && (hash in table ==> slots[index].hash == hash && index < |table|)
    && (hash !in table && |table| < SLOTS ==> index == |table|)
    && (hash !in table && |table| == SLOTS ==> forall i | 0 <= i < SLOTS :: slots[index].last <= slots[i].last)
  }

  predicate HasRoom(table: Table, hash: nat) {
    hash in table || |table| < SLOTS
  }

  // While the message has an entry or a slot is free, the slots do what the table does.
  lemma {:induction false} WithRoom(slots: seq<Slot>, table: Table, hash: nat, now: nat, index: nat)
    requires Represents(slots, table) && hash > 0 && Found(slots, table, hash, index) && HasRoom(table, hash)
    ensures Repeated(slots[index], hash, now) <==> Limited(table, hash, now)
    ensures Given(table, slots[index].hash, NewSlot(slots[index], hash, now)) == Passed(table, hash, now)
    ensures (if slots[index].hash == hash then slots[index].repetitions else 0) == Repeats(table, hash)
  {
    if hash in table {
      UsedSlots(slots, table, index);
      assert Get(table, hash) == Some(table[hash]);
    } else {
      assert slots[index] == EMPTY;
    }
    hide Lookup;
  }

  // Otherwise the entry written longest ago makes room.
  lemma {:induction false} WithoutRoom(slots: seq<Slot>, table: Table, hash: nat, now: nat, index: nat)
    requires Represents(slots, table) && hash > 0 && Found(slots, table, hash, index) && !HasRoom(table, hash)
    ensures var gone := slots[index].hash;
            && !Repeated(slots[index], hash, now) && gone != hash
            && Given(table, gone, NewSlot(slots[index], hash, now)) == Evicted(table, gone)[hash := Entry(now, 0)]
            && gone in table && table[gone].pending == slots[index].repetitions
            && forall h | h in table :: table[gone].last <= table[h].last
  {
    UsedSlots(slots, table, index);
    hide Lookup;
    forall h | h in table ensures slots[index].last <= table[h].last {
      KnownHash(slots, table, h);
      var i :| 0 <= i < |table| && slots[i].hash == h;
      UsedSlots(slots, table, i);
    }
  }

  // Every repeat that was held back has been reported, is pending or was dropped.
  predicate Conserved(reported: nat, slots: seq<Slot>, dropped: nat, suppressed: nat) {
    (reported + Pending(slots) + dropped - suppressed) % U32 == 0
  }

  lemma {:induction false} HeldBack(reported: nat, slots: seq<Slot>, dropped: nat, suppressed: nat, index: nat)
    requires index < |slots| && Conserved(reported, slots, dropped, suppressed)
    ensures var slot := slots[index];
            Conserved(reported, slots[index := slot.(repetitions := (slot.repetitions + 1) % U32)], dropped,
                      (suppressed + 1) % U32)
  {
    var slot := slots[index];
    PendingReplaced(slots, index, slot.(repetitions := (slot.repetitions + 1) % U32));
    hide Pending;
    CountedBoth(reported + Pending(slots) - slot.repetitions + dropped, slot.repetitions, suppressed);
  }

  lemma {:induction false} HandedOn(reported: nat, slots: seq<Slot>, dropped: nat, suppressed: nat, index: nat,
                                    slot: Slot)
    requires index < |slots| && Conserved(reported, slots, dropped, suppressed) && slot.repetitions == 0
    ensures Conserved(reported + slots[index].repetitions, slots[index := slot], dropped, suppressed)
    ensures Conserved(reported, slots[index := slot], dropped + slots[index].repetitions, suppressed)
  {
    PendingReplaced(slots, index, slot);
  }

  // Both counters of a held-back message wrap at 32 bits.
  lemma {:induction false} CountedBoth(rest: int, repetitions: nat, suppressed: nat)
    ensures (rest + (repetitions + 1) % U32 - (suppressed + 1) % U32) % U32 == (rest + repetitions - suppressed) % U32
  {
    var q, p := (repetitions + 1) / U32, (suppressed + 1) / U32;
    var x := rest + (repetitions + 1) % U32 - (suppressed + 1) % U32;
    assert rest + repetitions - suppressed == x + U32 * (q - p);
    Wrapped(x, q - p);
  }

  lemma {:induction false} Wrapped(x: int, k: int)
    ensures (x + U32 * k) % U32 == x % U32
  {
  }

  // The slots after a message, and what they are to the table.
  lemma {:induction false} Written(slots: seq<Slot>, table: Table, hash: nat, now: nat, index: nat)
    requires Represents(slots, table) && hash > 0 && Found(slots, table, hash, index)
    ensures index < |slots|
    ensures Represents(slots[index := NewSlot(slots[index], hash, now)],
                       Given(table, slots[index].hash, NewSlot(slots[index], hash, now)))
    ensures HasRoom(table, hash) ==>
              && (Repeated(slots[index], hash, now) <==> Limited(table, hash, now))
              && Given(table, slots[index].hash, NewSlot(slots[index], hash, now)) == Passed(table, hash, now)
              && (if slots[index].hash == hash then slots[index].repetitions else 0) == Repeats(table, hash)
              && (slots[index].hash != hash ==> slots[index].repetitions == 0)
    ensures !HasRoom(table, hash) ==>
              var gone := slots[index].hash;
              && !Repeated(slots[index], hash, now) && gone != hash
              && Given(table, gone, NewSlot(slots[index], hash, now)) == Evicted(table, gone)[hash := Entry(now, 0)]
              && gone in table && table[gone].pending == slots[index].repetitions
              && forall h | h in table :: table[gone].last <= table[h].last
  {
    FoundSlot(slots, table, hash, index);
    hide Represents, Found, Given, Evicted, Limited, Passed, HasRoom, Repeats, Packed, Lookup;
    if HasRoom(table, hash) {
      WithRoom(slots, table, hash, now, index);
    } else {
      WithoutRoom(slots, table, hash, now, index);
    }
    SlotGiven(slots, table, index, NewSlot(slots[index], hash, now));
  }

  lemma {:induction false} FoundSlot(slots: seq<Slot>, table: Table, hash: nat, index: nat)
    requires Represents(slots, table) && hash > 0 && Found(slots, table, hash, index)
    ensures index < |slots| && index <= |table|
    ensures slots[index].hash == hash || hash !in table
    ensures HasRoom(table, hash) && slots[index].hash != hash ==> slots[index].repetitions == 0
  {
    hide Lookup;
    if HasRoom(table, hash) && hash !in table { assert slots[index] == EMPTY; }
  }

  // The counters after a message.
  lemma {:induction false} Balanced(slots: seq<Slot>, hash: nat, now: nat, index: nat,
                                    reported: nat, dropped: nat, suppressed: nat)
    requires index < |slots| && Conserved(reported, slots, dropped, suppressed)
    ensures var slot := slots[index];
            var after := slots[index := NewSlot(slot, hash, now)];
            && (Repeated(slot, hash, now) ==> Conserved(reported, after, dropped, (suppressed + 1) % U32))
            && (!Repeated(slot, hash, now) ==>
                  && Conserved(reported + slot.repetitions, after, dropped, suppressed)
                  && Conserved(reported, after, dropped + slot.repetitions, suppressed))
  {
    hide Conserved;
    HeldBack(reported, slots, dropped, suppressed, index);
    HandedOn(reported, slots, dropped, suppressed, index, Slot(hash, now, 0));
  }

  class Cache {
    const slots: array<Slot>
    var suppressed: nat
    ghost var table: Table
    // The repeats that admitted messages have reported, and those that were dropped with
    // an evicted entry.
    ghost var reported: nat
    ghost var dropped: nat

    ghost predicate Valid()
      reads this, slots
    {
      && slots.Length == SLOTS
      && Represents(slots[..], table)
      && Conserved(reported, slots[..], dropped, suppressed)
    }

    constructor ()
      ensures Valid() && fresh(slots)
      ensures table == map[] && suppressed == 0 && reported == 0 && dropped == 0
    {
      slots := new Slot[SLOTS](_ => EMPTY);
      suppressed, table, reported, dropped := 0, map[], 0, 0;
      new;
      PendingOfEmpty(slots[..]);
      EmptyRepresents(slots[..]);
      hide Represents, Pending;
    }

    // The part of reset_session_locked that clears the cache.
    method Reset()
      requires slots.Length == SLOTS
      modifies this, slots
      ensures Valid() && table == map[] && suppressed == 0 && reported == 0 && dropped == 0
    {
      forall i | 0 <= i < SLOTS {
        slots[i] := EMPTY;
      }
      suppressed, table, reported, dropped := 0, map[], 0, 0;
      PendingOfEmpty(slots[..]);
      EmptyRepresents(slots[..]);
      hide Represents, Pending;
    }

    // The slot a message uses: its own, else the first empty one, else the one written
    // longest ago.
    method FindSlot(hash: nat) returns (index: nat)
      requires Valid() && hash > 0
      ensures Found(slots[..], table, hash, index)
    {
      hide Lookup;
      ghost var all := slots[..];
      if hash in table { KnownHash(all, table, hash); }
      var i, oldest := 0, 0;
      while i < SLOTS
        invariant i <= SLOTS && i <= |table| && oldest <= i && oldest < SLOTS
        invariant i > 0 ==> oldest < i
        invariant forall j | 0 <= j < i :: all[j].hash != hash && all[oldest].last <= all[j].last
      {
        assert slots[i] == all[i];
        if slots[i].hash == hash {
          assert i < |table|;
          UsedSlots(all, table, i);
          return i;
        }
        if slots[i].hash == 0 {
          assert i == |table|;
          return i;
        }
        assert i < |table|;
        if slots[i].last < slots[oldest].last {
          oldest := i;
        }
        i := i + 1;
      }
      return oldest;
    }

    // legacy_rate_limit_locked. While the message has an entry or a slot is free the
    // cache is the table; otherwise the entry written longest ago is lost.
    method Limit(hash: nat, now: nat) returns (limited: bool, repeats: nat)
      requires Valid() && hash > 0
      modifies this, slots
      ensures Valid()
      ensures HasRoom(old(table), hash) ==>
                && limited == Limited(old(table), hash, now)
                && table == Passed(old(table), hash, now)
                && repeats == (if limited then 0 else Repeats(old(table), hash))
                && dropped == old(dropped)
      ensures !HasRoom(old(table), hash) ==>
                && !limited && repeats == 0
                && exists gone | gone in old(table) ::
                     && (forall h | h in old(table) :: old(table)[gone].last <= old(table)[h].last)
                     && table == Evicted(old(table), gone)[hash := Entry(now, 0)]
                     && dropped == old(dropped) + old(table)[gone].pending
      ensures reported == old(reported) + repeats
      ensures suppressed == if limited then (old(suppressed) + 1) % U32 else old(suppressed)
    {
      hide Represents, Conserved, Found, Given, Evicted, Limited, Passed, HasRoom, Repeats;
      var index := FindSlot(hash);
      ghost var before := slots[..];
      ghost var room := HasRoom(table, hash);
      Written(before, table, hash, now, index);
      Balanced(before, hash, now, index, reported, dropped, suppressed);
      var slot := slots[index];
      repeats := 0;
      if slot.hash == hash && (now - slot.last) % U64 < INTERVAL {
        limited := true;
        slots[index] := slot.(repetitions := (slot.repetitions + 1) % U32);
        suppressed := (suppressed + 1) % U32;
      } else {
        limited := false;
        repeats := if slot.hash == hash then slot.repetitions else 0;
        slots[index] := Slot(hash, now, 0);
        if !room { dropped := dropped + slot.repetitions; }
        reported := reported + repeats;
      }
      assert slots[..] == before[index := NewSlot(slot, hash, now)];
      table := Given(table, slot.hash, NewSlot(slot, hash, now));
    }
  }
}
