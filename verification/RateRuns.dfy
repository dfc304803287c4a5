/** Runs of the rate limiter: how far admitted messages of one category are apart, and
    that the categories always find room. */
module RateRuns {
  import opened HostText
  import opened RateLimit

  datatype Message = Message(hash: nat, now: nat)

  function TableAfter(ms: seq<Message>): Table {
    if ms == [] then map[]
    else
      var last := ms[|ms| - 1];
      Passed(TableAfter(ms[..|ms| - 1]), last.hash, last.now)
  }

  predicate Admitted(ms: seq<Message>, i: nat)
    requires i < |ms|
  {
    !Limited(TableAfter(ms[..i]), ms[i].hash, ms[i].now)
  }

  // The system clock does not run backwards.
  predicate Timely(ms: seq<Message>) {
    && (forall i | 0 <= i < |ms| :: ms[i].now < U64)
    && (forall i, j | 0 <= i <= j < |ms| :: ms[i].now <= ms[j].now)
  }

  // The entry of an admitted message's hash is at least as young as the message.
  lemma {:induction false} EntryTime(ms: seq<Message>, i: nat)
    requires i < |ms| && Timely(ms) && Admitted(ms, i)
    ensures var table := TableAfter(ms);
            ms[i].hash in table && ms[i].now <= table[ms[i].hash].last <= ms[|ms| - 1].now
  {
    var front, last := ms[..|ms| - 1], ms[|ms| - 1];
    if i < |front| {
      assert front[..i] == ms[..i];
      EntryTime(front, i);
      assert front[|front| - 1] == ms[|ms| - 2];
    } else {
      assert ms[..i] == front;
    }
  }

  // Two admitted messages of one hash are at least ten seconds apart.
  lemma {:induction false} AdmittedAreApart(ms: seq<Message>, i: nat, j: nat)
    requires i < j < |ms| && Timely(ms)
    requires ms[i].hash == ms[j].hash && Admitted(ms, i) && Admitted(ms, j)
    ensures ms[j].now - ms[i].now >= 10_000_000
  {
    var earlier := ms[..j];
    assert earlier[..i] == ms[..i];
    EntryTime(earlier, i);
    assert earlier[j - 1] == ms[j - 1];
    hide TableAfter;
  }

  // A message is held back only when one of its hash was admitted less than ten seconds
  // before.
  lemma {:induction false} EntryIsAdmitted(ms: seq<Message>, hash: nat) returns (i: nat)
    requires hash in TableAfter(ms)
    ensures i < |ms| && ms[i].hash == hash && Admitted(ms, i) && ms[i].now == TableAfter(ms)[hash].last
  {
    var front, last := ms[..|ms| - 1], ms[|ms| - 1];
    if last.hash == hash && !Limited(TableAfter(front), hash, last.now) {
      i := |ms| - 1;
    } else {
      i := EntryIsAdmitted(front, hash);
      assert front[..i] == ms[..i];
    }
  }

  lemma {:induction false} HeldBackHasReason(ms: seq<Message>, j: nat) returns (i: nat)
    requires j < |ms| && Timely(ms) && !Admitted(ms, j)
    ensures i < j && ms[i].hash == ms[j].hash && Admitted(ms, i) && ms[j].now - ms[i].now < 10_000_000
  {
    i := EntryIsAdmitted(ms[..j], ms[j].hash);
    assert ms[..j][..i] == ms[..i];
    assert ms[i].now <= ms[j].now;
    hide TableAfter;
  }

  // ----- the categories -----

  // legacy_error_category
  function Category(format: string): string {
    if ContainsText(format, "opus") || ContainsText(format, "audio") then "audio"
    else if ContainsText(format, "motion") || ContainsText(format, "gyro") then "motion"
    else if ContainsText(format, "decoder") || ContainsText(format, "avc") || ContainsText(format, "video")
            || ContainsText(format, "frame") || ContainsText(format, "texture") then "decoder"
    else if ContainsText(format, "timeout") || ContainsText(format, "timed out") then "timeout"
    else if ContainsText(format, "socket") || ContainsText(format, "network") || ContainsText(format, "connection")
            || ContainsText(format, "rtsp") || ContainsText(format, "udp")
            || ContainsText(format, "tcp") then "transport"
    else if ContainsText(format, "memory") || ContainsText(format, "alloc") then "memory"
    else "internal"
  }

  // The categories but for "internal", each with the words that stand for it.
  const WORDS: seq<(string, seq<string>)> := [
    ("audio", ["opus", "audio"]),
    ("motion", ["motion", "gyro"]),
    ("decoder", ["decoder", "avc", "video", "frame", "texture"]),
    ("timeout", ["timeout", "timed out"]),
    ("transport", ["socket", "network", "connection", "rtsp", "udp", "tcp"]),
    ("memory", ["memory", "alloc"])]

  predicate Mentions(format: string, words: seq<string>) {
    exists i | 0 <= i < |words| :: ContainsText(format, words[i])
  }

  // A message belongs to the first category that it mentions.
  lemma {:induction false} CategoryIsFirstMentioned(format: string)
    ensures forall k | 0 <= k < |WORDS| ::
              Mentions(format, WORDS[k].1) && (forall j | 0 <= j < k :: !Mentions(format, WORDS[j].1)) ==>
                Category(format) == WORDS[k].0
    ensures (forall k | 0 <= k < |WORDS| :: !Mentions(format, WORDS[k].1)) ==> Category(format) == "internal"
  {
    hide ContainsText;
    MentionsOne(format);
    hide Mentions;
  }

  lemma {:induction false} MentionsOne(format: string)
    ensures Mentions(format, WORDS[0].1) <==> ContainsText(format, "opus") || ContainsText(format, "audio")
    ensures Mentions(format, WORDS[1].1) <==> ContainsText(format, "motion") || ContainsText(format, "gyro")
    ensures Mentions(format, WORDS[2].1) <==>
            ContainsText(format, "decoder") || ContainsText(format, "avc") || ContainsText(format, "video")
            || ContainsText(format, "frame") || ContainsText(format, "texture")
    ensures Mentions(format, WORDS[3].1) <==> ContainsText(format, "timeout") || ContainsText(format, "timed out")
    ensures Mentions(format, WORDS[4].1) <==>
            ContainsText(format, "socket") || ContainsText(format, "network") || ContainsText(format, "connection")
            || ContainsText(format, "rtsp") || ContainsText(format, "udp") || ContainsText(format, "tcp")
    ensures Mentions(format, WORDS[5].1) <==> ContainsText(format, "memory") || ContainsText(format, "alloc")
  {
    hide ContainsText;
    forall k | 0 <= k < |WORDS|
      ensures Mentions(format, WORDS[k].1) <==> exists i | 0 <= i < |WORDS[k].1| :: ContainsText(format, WORDS[k].1[i])
    {
    }
    var w0, w1, w2 := WORDS[0].1, WORDS[1].1, WORDS[2].1;
    var w3, w4, w5 := WORDS[3].1, WORDS[4].1, WORDS[5].1;
    assert w0[0] == "opus" && w0[1] == "audio" && w1[0] == "motion" && w1[1] == "gyro";
    assert w2[0] == "decoder" && w2[1] == "avc" && w2[2] == "video" && w2[3] == "frame" && w2[4] == "texture";
    assert w3[0] == "timeout" && w3[1] == "timed out" && w5[0] == "memory" && w5[1] == "alloc";
    assert w4[0] == "socket" && w4[1] == "network" && w4[2] == "connection";
    assert w4[3] == "rtsp" && w4[4] == "udp" && w4[5] == "tcp";
  }

  // A message of some category, under any hash function.
  ghost predicate OfCategory(m: Message, hash: string -> nat) {
    exists format :: m.hash == hash(Category(format))
  }

  function Hashes(hash: string -> nat): set<nat> {
    {hash("audio"), hash("motion"), hash("decoder"), hash("timeout"),
     hash("transport"), hash("memory"), hash("internal")}
  }

  lemma {:induction false} CategoryIsHashed(format: string, hash: string -> nat)
    ensures hash(Category(format)) in Hashes(hash)
  {
    hide ContainsText;
  }

  lemma {:induction false} KeysAreHashes(ms: seq<Message>, hash: string -> nat)
    requires forall i | 0 <= i < |ms| :: OfCategory(ms[i], hash)
    ensures TableAfter(ms).Keys <= Hashes(hash)
  {
    if ms != [] {
      KeysAreHashes(ms[..|ms| - 1], hash);
      var last := ms[|ms| - 1];
      assert OfCategory(last, hash);
      var format :| last.hash == hash(Category(format));
      hide ContainsText;
      assert last.hash in Hashes(hash);
      PassedKeys(TableAfter(ms[..|ms| - 1]), last.hash, last.now);
      TableAfterLast(ms);
    }
  }

  lemma {:induction false} TableAfterLast(ms: seq<Message>)
    requires ms != []
    ensures TableAfter(ms) == Passed(TableAfter(ms[..|ms| - 1]), ms[|ms| - 1].hash, ms[|ms| - 1].now)
  {
  }

  lemma {:induction false} PassedKeys(table: Table, hash: nat, now: nat)
    ensures Passed(table, hash, now).Keys == table.Keys + {hash}
  {
  }

  lemma {:induction false} SubsetSize<T>(a: set<T>, b: set<T>)
    requires a <= b
    ensures |a| <= |b|
  {
    assert b == a + (b - a);
  }

  lemma {:induction false} HashesAreSeven(hash: string -> nat)
    ensures |Hashes(hash)| <= 7
  {
    AtMostSeven(hash("audio"), hash("motion"), hash("decoder"), hash("timeout"), hash("transport"), hash("memory"),
                hash("internal"));
  }

  lemma {:induction false} AtMostSeven(a: nat, b: nat, c: nat, d: nat, e: nat, f: nat, g: nat)
    ensures |{a, b, c, d, e, f, g}| <= 7
  {
    assert {a, b, c, d, e, f, g} == {a, b, c, d} + {e, f, g};
  }

  // There is room for every message of a category, so no entry is ever lost.
  lemma {:induction false} CategoriesHaveRoom(ms: seq<Message>, hash: string -> nat, h: nat)
    requires forall i | 0 <= i < |ms| :: OfCategory(ms[i], hash)
    ensures HasRoom(TableAfter(ms), h) && |TableAfter(ms)| <= 7
  {
    KeysAreHashes(ms, hash);
    HashesAreSeven(hash);
    hide TableAfter, Hashes;
    SubsetSize(TableAfter(ms).Keys, Hashes(hash));
    assert |TableAfter(ms)| == |TableAfter(ms).Keys|;
  }

  // How many messages were held back.
  function HeldCount(ms: seq<Message>): nat {
    if ms == [] then 0
    else HeldCount(ms[..|ms| - 1]) + if Admitted(ms, |ms| - 1) then 0 else 1
  }

  function MessageOf(format: string, now: nat, hash: string -> nat): Message {
    Message(hash(Category(format)), now)
  }

  // The cache after these messages of some categories.
  ghost predicate Follows(cache: Cache, ms: seq<Message>, hash: string -> nat)
    reads cache, cache.slots
  {
    && cache.Valid() && cache.table == TableAfter(ms) && cache.dropped == 0
    && cache.suppressed == HeldCount(ms) % U32
    && forall i | 0 <= i < |ms| :: OfCategory(ms[i], hash)
  }

  // One more message: the slots do what the table does, and nothing is dropped.
  method Pass(cache: Cache, ghost ms: seq<Message>, format: string,
              now: nat, hash: string -> nat) returns (admitted: bool)
    requires Follows(cache, ms, hash) && forall category :: hash(category) > 0
    modifies cache, cache.slots
    ensures Follows(cache, ms + [MessageOf(format, now, hash)], hash)
    ensures admitted == !Limited(TableAfter(ms), hash(Category(format)), now)
  {
    hide Represents, Conserved, Category, Limited, Passed, TableAfter, HeldCount, HasRoom, Evicted;
    var h := hash(Category(format));
    CategoriesHaveRoom(ms, hash, h);
    var m := MessageOf(format, now, hash);
    Fed(ms, m);
    Counted(HeldCount(ms));
    var limited, _ := cache.Limit(h, now);
    admitted := !limited;
    assert OfCategory(m, hash) by { MessageIsOfCategory(format, now, hash); }
  }

  lemma {:induction false} MessageIsOfCategory(format: string, now: nat, hash: string -> nat)
    ensures OfCategory(MessageOf(format, now, hash), hash)
  {
    hide Category;
  }

  lemma {:induction false} Counted(n: nat)
    ensures (n % U32 + 1) % U32 == (n + 1) % U32
  {
  }

  // The messages of a capture go through the slots one after another. Every message held
  // back is counted, and is reported by a later one or still pending.
  method Feed(cache: Cache, formats: seq<string>, times: seq<nat>, hash: string -> nat)
    returns (admitted: seq<bool>, ghost ms: seq<Message>)
    requires cache.Valid() && cache.table == map[] && cache.suppressed == cache.reported == cache.dropped == 0
    requires |formats| == |times| && forall category :: hash(category) > 0
    modifies cache, cache.slots
    ensures cache.Valid() && |ms| == |formats| == |admitted|
    ensures forall i | 0 <= i < |ms| :: ms[i] == MessageOf(formats[i], times[i], hash)
    ensures forall i | 0 <= i < |ms| :: admitted[i] == Admitted(ms, i)
    ensures cache.table == TableAfter(ms) && cache.dropped == 0
    ensures cache.suppressed == HeldCount(ms) % U32 == (cache.reported + Pending(cache.slots[..])) % U32
  {
    hide Represents, Conserved, Category, Limited, Pending, MessageOf, Admitted, OfCategory;
    admitted, ms := [], [];
    for n := 0 to |formats|
      invariant Follows(cache, ms, hash) && |ms| == n == |admitted|
      invariant forall i | 0 <= i < n :: ms[i] == MessageOf(formats[i], times[i], hash)
      invariant forall i | 0 <= i < n :: admitted[i] == Admitted(ms, i)
    {
      ghost var was, before := ms, admitted;
      ghost var m := MessageOf(formats[n], times[n], hash);
      Fed(was, m);
      MessageIs(formats[n], times[n], hash);
      var passed := Pass(cache, ms, formats[n], times[n], hash);
      admitted, ms := admitted + [passed], ms + [m];
      assert forall i | 0 <= i < n :: admitted[i] == before[i] && ms[i] == was[i];
    }
    Balanced(cache.reported, cache.slots[..], cache.suppressed);
  }

  lemma {:induction false} MessageIs(format: string, now: nat, hash: string -> nat)
    ensures var m := MessageOf(format, now, hash); m.hash == hash(Category(format)) && m.now == now
  {
  }

  lemma {:induction false} Fed(ms: seq<Message>, m: Message)
    ensures var all := ms + [m];
            && TableAfter(all) == Passed(TableAfter(ms), m.hash, m.now)
            && (Admitted(all, |ms|) <==> !Limited(TableAfter(ms), m.hash, m.now))
            && (forall i | 0 <= i < |ms| :: Admitted(all, i) == Admitted(ms, i))
            && HeldCount(all) == HeldCount(ms) + if Limited(TableAfter(ms), m.hash, m.now) then 1 else 0
  {
    hide Limited, Passed;
    var all := ms + [m];
    assert all[..|ms|] == ms;
    forall i | 0 <= i < |ms| ensures Admitted(all, i) == Admitted(ms, i) { assert all[..i] == ms[..i]; }
  }

  lemma {:induction false} Balanced(reported: nat, slots: seq<Slot>, suppressed: nat)
    requires Conserved(reported, slots, 0, suppressed) && suppressed < U32
    ensures suppressed == (reported + Pending(slots)) % U32
  {
    hide Pending;
  }
}
