/** The reader's account of one capture: counting records by level, and finding records
    that are missing or out of order from their sequence numbers. */
module LogSummary {
  import opened HostText
  import opened SupportRecords
  import opened SupportLog

  // A line of the log as the reader has parsed it; the number may be unreadable.
  datatype Parsed = Parsed(sequence: Option<nat>, level: Level, event: string, fields: string)

  datatype Tally = Tally(count: nat, first: Option<nat>, last: Option<nat>, previous: Option<nat>,
                         missing: nat, nonincreasing: nat, levels: map<Level, nat>, end: Option<string>)

  const EMPTY: Tally := Tally(0, None, None, None, 0, 0, map[], None)

  function LevelCount(levels: map<Level, nat>, level: Level): nat {
    if level in levels then levels[level] else 0
  }

  class SessionBuilder {
    var recordCount: nat
    var firstSequence: Option<nat>
    var lastSequence: Option<nat>
    var previousSequence: Option<nat>
    var missing: nat
    var nonincreasing: nat
    var levelCounts: map<Level, nat>
    var captureEnd: Option<string>

    constructor ()
      ensures State() == EMPTY
    {
      recordCount, missing, nonincreasing := 0, 0, 0;
      firstSequence, lastSequence, previousSequence := None, None, None;
      levelCounts, captureEnd := map[], None;
    }

    function State(): Tally
      reads this
    {
      Tally(recordCount, firstSequence, lastSequence, previousSequence, missing, nonincreasing, levelCounts, captureEnd)
    }

    // SessionBuilder.add
    method Add(record: Parsed)
      modifies this
      ensures State() == Added(old(State()), record)
    {
      hide EndEvent, LevelCount;
      recordCount := recordCount + 1;
      levelCounts := levelCounts[record.level := LevelCount(levelCounts, record.level) + 1];
      if record.sequence.Some? {
        var sequence := record.sequence.value;
        if firstSequence == None { firstSequence := Some(sequence); }
        lastSequence := Some(sequence);
        if previousSequence.Some? {
          if sequence > previousSequence.value + 1 {
            missing := missing + (sequence - previousSequence.value - 1);
          } else if sequence <= previousSequence.value {
            nonincreasing := nonincreasing + 1;
          }
        }
        previousSequence := Some(sequence);
      }
      if record.event == EndEvent() { captureEnd := Some(record.fields); }
    }
  }

  function Added(t: Tally, record: Parsed): Tally {
    var n := record.sequence;
    t.(count := t.count + 1,
       levels := t.levels[record.level := LevelCount(t.levels, record.level) + 1],
       first := if t.first == None then n else t.first,
       last := if n.Some? then n else t.last,
       missing := t.missing + (if n.Some? && t.previous.Some? then Gap(t.previous.value, n.value) else 0),
       nonincreasing := t.nonincreasing + (if n.Some? && t.previous.Some? && n.value <= t.previous.value then 1 else 0),
       previous := if n.Some? then n else t.previous,
       end := if record.event == EndEvent() then Some(record.fields) else t.end)
  }

  // How many numbers lie strictly between two neighbours.
  function Gap(previous: nat, next: nat): nat {
    if next > previous + 1 then next - previous - 1 else 0
  }

  // The account of a whole capture.
  function Tallied(records: seq<Parsed>): Tally {
    if records == [] then EMPTY else Added(Tallied(records[..|records| - 1]), records[|records| - 1])
  }

  // ----- numbers -----

  predicate Numbered(records: seq<Parsed>) {
    forall i | 0 <= i < |records| :: records[i].sequence.Some?
  }

  predicate Increasing(records: seq<Parsed>)
    requires Numbered(records)
  {
    forall i, j | 0 <= i < j < |records| :: records[i].sequence.value < records[j].sequence.value
  }

  predicate Consecutive(records: seq<Parsed>)
    requires Numbered(records)
  {
    forall i | 0 <= i < |records| :: records[i].sequence.value == records[0].sequence.value + i
  }

  lemma {:induction false} EndsTallied(records: seq<Parsed>)
    requires Numbered(records)
    ensures var t := Tallied(records);
            && t.count == |records|
            && (records == [] ==> t.first == None && t.previous == None)
            && (records != [] ==>
                  && t.first == records[0].sequence
                  && t.previous == t.last == records[|records| - 1].sequence)
  {
    if records != [] {
      EndsTallied(records[..|records| - 1]);
    }
  }

  // Nothing is found wrong exactly when every number follows the one before.
  lemma {:induction false} NothingWrongIffConsecutive(records: seq<Parsed>)
    requires Numbered(records)
    ensures Tallied(records).missing == 0 && Tallied(records).nonincreasing == 0 <==> Consecutive(records)
  {
    if records != [] {
      var front, last := records[..|records| - 1], records[|records| - 1];
      assert records == front + [last];
      NothingWrongIffConsecutive(front);
      EndsTallied(front);
      hide Tallied;
      TalliedLast(front, last);
      if front != [] {
        assert Consecutive(records) <==>
               Consecutive(front) && last.sequence.value == front[|front| - 1].sequence.value + 1;
      }
    }
  }

  lemma {:induction false} TalliedLast(front: seq<Parsed>, last: Parsed)
    ensures Tallied(front + [last]) == Added(Tallied(front), last)
  {
    assert (front + [last])[..|front|] == front;
    hide Added;
  }

  // In increasing numbers every number between the first and the last is either read or
  // counted missing.
  lemma {:induction false} ReadOrMissing(records: seq<Parsed>)
    requires records != [] && Numbered(records) && Increasing(records)
    ensures var t := Tallied(records);
            && t.nonincreasing == 0
            && t.missing + |records| == records[|records| - 1].sequence.value - records[0].sequence.value + 1
  {
    var front, last := records[..|records| - 1], records[|records| - 1];
    EndsTallied(front);
    if front != [] {
      ReadOrMissing(front);
      assert records[|records| - 2] == front[|front| - 1];
    }
  }

  lemma {:induction false} LevelsTallied(records: seq<Parsed>, level: Level)
    ensures LevelCount(Tallied(records).levels, level) == Of(records, level)
  {
    if records != [] { LevelsTallied(records[..|records| - 1], level); }
  }

  function Of(records: seq<Parsed>, level: Level): nat {
    if records == [] then 0
    else Of(records[..|records| - 1], level) + (if records[|records| - 1].level == level then 1 else 0)
  }

  // ----- a capture as written -----

  // The reader's view of a written record whose line it can read.
  function Read(r: Record): Parsed {
    Parsed(Some(r.sequence), r.level, r.event, r.fields)
  }

  // The records that reach the builder: a line whose event name the reader does not
  // accept is dropped.
  function Kept(records: seq<Record>, readable: string -> bool): seq<Parsed> {
    if records == [] then []
    else
      Kept(records[..|records| - 1], readable)
      + (if readable(records[|records| - 1].event) then [Read(records[|records| - 1])] else [])
  }

  lemma {:induction false} IncreasingSnoc(front: seq<Parsed>, last: Parsed)
    requires Numbered(front) && Increasing(front) && last.sequence.Some?
    requires front != [] ==> front[|front| - 1].sequence.value < last.sequence.value
    ensures Numbered(front + [last]) && Increasing(front + [last])
  {
    var all := front + [last];
    forall i, j | 0 <= i < j < |all| ensures all[i].sequence.value < all[j].sequence.value {
      if j == |front| && i < |front| - 1 {
        assert front[i].sequence.value < front[|front| - 1].sequence.value;
      }
    }
  }

  // The first and the last number that was read.
  ghost predicate Within(kept: seq<Parsed>, count: nat) {
    && Numbered(kept) && Increasing(kept) && |kept| <= count
    && (kept != [] ==> 1 <= kept[0].sequence.value && kept[|kept| - 1].sequence.value <= count)
  }

  lemma {:induction false} KeptIsIncreasing(records: seq<Record>, readable: string -> bool)
    requires forall i | 0 <= i < |records| :: records[i].sequence == i + 1
    ensures Within(Kept(records, readable), |records|)
    ensures records != [] && readable(records[0].event) ==>
              Kept(records, readable) != [] && Kept(records, readable)[0] == Read(records[0])
  {
    if records != [] {
      hide Increasing, Numbered;
      var front, last := records[..|records| - 1], records[|records| - 1];
      KeptIsIncreasing(front, readable);
      var kept := Kept(front, readable);
      if readable(last.event) {
        assert kept != [] ==> kept[|kept| - 1].sequence.Some? by { LastIsNumbered(kept); }
        IncreasingSnoc(kept, Read(last));
      } else {
        assert kept + [] == kept;
      }
      if front == [] { assert kept == []; }
    }
  }

  lemma {:induction false} LastIsNumbered(kept: seq<Parsed>)
    requires Numbered(kept)
    ensures kept != [] ==> kept[|kept| - 1].sequence.Some?
  {
  }

  lemma {:induction false} KeptAll(records: seq<Record>, readable: string -> bool, level: Level)
    requires forall i | 0 <= i < |records| :: readable(records[i].event)
    ensures |Kept(records, readable)| == |records|
    ensures Of(Kept(records, readable), level) == Count(records, level)
  {
    if records != [] {
      var front, last := records[..|records| - 1], records[|records| - 1];
      KeptAll(front, readable, level);
      assert readable(last.event);
      OfLast(Kept(front, readable), Read(last), level);
    }
  }

  lemma {:induction false} OfLast(front: seq<Parsed>, last: Parsed, level: Level)
    ensures Of(front + [last], level) == Of(front, level) + (if last.level == level then 1 else 0)
  {
    assert (front + [last])[..|front|] == front;
  }

  // For a finished capture the reader misses exactly the lines it could not read, finds
  // nothing out of order, and holds the end record.
  lemma {:induction false} FinishedCapture(records: seq<Record>, readable: string -> bool)
    requires ProperCapture(records) && HasEnd(records)
    requires readable(StartEvent(0)) && readable(EndEvent())
    ensures var t := Tallied(Kept(records, readable));
            && t.nonincreasing == 0
            && t.missing == |records| - |Kept(records, readable)|
            && t.count == |Kept(records, readable)|
            && t.end == Some(records[|records| - 1].fields)
  {
    hide EndEvent, StartEvent, TruthfulEnd;
    var kept := Kept(records, readable);
    var last := records[|records| - 1];
    assert last.event == EndEvent();
    assert records[0].event == StartEvent(0);
    KeptIsIncreasing(records, readable);
    assert kept[|kept| - 1] == Read(last);
    ReadOrMissing(kept);
    EndsTallied(kept);
  }

  // When every line can be read nothing is found missing, even if the capture is cut off
  // anywhere, and the numbers in its end record are the reader's own counts.
  lemma {:induction false} ReaderAgreesWithEnd(records: seq<Record>, readable: string -> bool)
    requires ProperCapture(records)
    requires forall i | 0 <= i < |records| :: readable(records[i].event)
    ensures var t := Tallied(Kept(records, readable));
            && t.missing == 0 && t.nonincreasing == 0
            && (HasEnd(records) ==> exists reason, duration, suppressed ::
                  t.end == Some(EndFields(reason, duration, t.count, LevelCount(t.levels, Warning) % U32,
                                          LevelCount(t.levels, Error) % U32, suppressed)))
  {
    hide EndFields, EndEvent, StartEvent;
    var kept := Kept(records, readable);
    KeptIsIncreasing(records, readable);
    KeptAll(records, readable, Warning);
    KeptAll(records, readable, Error);
    if kept != [] { ReadOrMissing(kept); }
    if HasEnd(records) {
      assert records[|records| - 1].event == EndEvent();
      assert records[0].event == StartEvent(0);
      FinishedCapture(records, readable);
      LevelsTallied(kept, Warning);
      LevelsTallied(kept, Error);
      assert TruthfulEnd(records);
    }
  }
}
