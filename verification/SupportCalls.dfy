/** What the records of a capture say: the calls whose records were written completely, in
    order, each as it was made. */
module SupportCalls {
  import opened HostText
  import opened Numerals
  import opened SupportRecords
  import opened SupportLog
  import opened SupportRuns

  // What a call asks to be written.
  datatype Entry = Entry(level: Level, event: string, fields: string)

  // The calls of a capture: what those asked for whose record was written completely, and
  // how many legacy messages were held back.
  datatype Account = Account(entries: seq<Entry>, held: nat)

  const NO_CALLS: Account := Account([], 0)

  function EntryOf(call: Call, repeats: nat): Entry {
    match call
    case Event(level, event, fields) => Entry(level, event, Sanitized(fields))
    case Legacy(category) =>
      Entry(Error, "error.legacy", "source=compat category=" + category + " repeats_suppressed=" + Decimal(repeats))
  }

  // The file takes the whole line.
  predicate Taken(log: Log, e: Entry, o: Outcome) {
    Completes(log, e.level, e.event, e.fields, o)
  }

  // The account after one step. A new capture starts with an empty one.
  function Noted(a: Account, s: State, step: Step): Account
    requires Enabled(s, step)
  {
    match step
    case TurnOn(_, _, opens) => if opens && !s.log.enabled then NO_CALLS else a
    case Perform(t, limited, repeats, o) =>
      var call := At(s, t).call;
      if !s.log.enabled then a
      else if call.Legacy? && limited then a.(held := a.held + 1)
      else if Taken(s.log, EntryOf(call, repeats), o) then a.(entries := a.entries + [EntryOf(call, repeats)])
      else a
    case _ => a
  }

  function Accounted(a: Account, s: State, steps: seq<Step>): Account
    requires Run(s, steps)
    decreases |steps|
  {
    if steps == [] then a else Accounted(Noted(a, s, steps[0]), Apply(s, steps[0]), steps[1..])
  }

  // A record says what a call asked for, under the event's name made safe.
  predicate Says(r: Record, e: Entry) {
    r.level == e.level && r.event == Token(Some(e.event), EVENT_SIZE) && r.fields == e.fields
  }

  function CountOf(entries: seq<Entry>, level: Level): nat {
    if entries == [] then 0
    else CountOf(entries[..|entries| - 1], level) + (if entries[|entries| - 1].level == level then 1 else 0)
  }

  // The records behind the first four and before the end say what the entries ask for, and
  // the end record gives their numbers.
  ghost predicate Tells(records: seq<Record>, a: Account) {
    && (|records| < 4 ==> a.entries == [])
    && (|records| >= 4 ==>
          && |records| == 4 + |a.entries| + (if HasEnd(records) then 1 else 0)
          && forall i | 0 <= i < |a.entries| :: Says(records[4 + i], a.entries[i]))
    && (forall i | 0 <= i < |records| && (i < 4 || i >= 4 + |a.entries|) :: records[i].level == Info)
    && (HasEnd(records) ==> |records| >= 4 && EndSays(records, a))
  }

  ghost predicate EndSays(records: seq<Record>, a: Account) {
    && records != []
    && exists reason, duration ::
         records[|records| - 1].fields ==
         EndFields(reason, duration, |records|, CountOf(a.entries, Warning) % U32, CountOf(a.entries, Error) % U32,
                   a.held % U32)
  }

  ghost predicate Follows(s: State, a: Account) {
    && Tells(s.log.records, a)
    && (s.log.enabled ==> s.log.suppressed == a.held % U32)
  }

  // ----- one record more -----

  lemma {:induction false} EndSnoc(records: seq<Record>, r: Record)
    requires !HasEnd(records)
    ensures HasEnd(records + [r]) <==> r.event == EndEvent()
  {
    var all := records + [r];
    assert all[|records|] == r;
    assert forall i | 0 <= i < |records| :: all[i] == records[i];
  }

  lemma {:induction false} TellsStart(records: seq<Record>, a: Account, r: Record)
    requires Tells(records, a) && |records| < 4 && !HasEnd(records) && r.level == Info && r.event != EndEvent()
    ensures Tells(records + [r], a)
  {
    EndSnoc(records, r);
    hide HasEnd, Says, EndSays;
    assert forall i | 0 <= i < |records| :: (records + [r])[i] == records[i];
  }

  lemma {:induction false} TellsCall(records: seq<Record>, a: Account, r: Record, e: Entry)
    requires Tells(records, a) && |records| >= 4 && !HasEnd(records) && Says(r, e) && r.event != EndEvent()
    ensures Tells(records + [r], a.(entries := a.entries + [e]))
  {
    EndSnoc(records, r);
    hide HasEnd, Says, EndSays;
    assert forall i | 0 <= i < |records| :: (records + [r])[i] == records[i];
  }

  lemma {:induction false} TellsEnd(records: seq<Record>, a: Account, r: Record)
    requires Tells(records, a) && |records| >= 4 && !HasEnd(records) && r.level == Info && r.event == EndEvent()
    requires EndSays(records + [r], a)
    ensures Tells(records + [r], a)
  {
    EndSnoc(records, r);
    hide HasEnd, Says, EndSays;
    assert forall i | 0 <= i < |records| :: (records + [r])[i] == records[i];
  }

  lemma {:induction false} TellsHeld(records: seq<Record>, a: Account)
    requires Tells(records, a) && !HasEnd(records)
    ensures Tells(records, a.(held := a.held + 1))
  {
    hide HasEnd, Says, EndSays;
  }

  // Warnings and errors among the records are those among the entries.
  lemma {:induction false} CountsAgree(records: seq<Record>, a: Account, level: Level)
    requires Tells(records, a) && !HasEnd(records) && level != Info
    ensures Count(records, level) == CountOf(a.entries, level)
  {
    hide HasEnd, EndSays;
    if |records| < 4 {
      NoneCounted(records, level);
    } else {
      CountedUpTo(records, a, level, |a.entries|);
      assert records[..|records|] == records && a.entries[..|a.entries|] == a.entries;
    }
  }

  lemma {:induction false} NoneCounted(records: seq<Record>, level: Level)
    requires forall i | 0 <= i < |records| :: records[i].level != level
    ensures Count(records, level) == 0
  {
    if records != [] { NoneCounted(records[..|records| - 1], level); }
  }

  lemma {:induction false} CountedUpTo(records: seq<Record>, a: Account, level: Level, n: nat)
    requires Tells(records, a) && |records| >= 4 && !HasEnd(records) && level != Info && n <= |a.entries|
    ensures Count(records[..4 + n], level) == CountOf(a.entries[..n], level)
  {
    hide HasEnd, EndSays;
    if n == 0 {
      NoneCounted(records[..4], level);
    } else {
      CountedUpTo(records, a, level, n - 1);
      assert records[..4 + n] == records[..4 + n - 1] + [records[4 + n - 1]];
      CountSnoc(records[..4 + n - 1], records[4 + n - 1], level);
      assert a.entries[..n][..n - 1] == a.entries[..n - 1];
    }
  }

  // ----- the locked sections -----

  lemma {:induction false} WriteTells(log: Log, a: Account, e: Entry, o: Outcome)
    requires log.enabled && Counted(log) && Tells(log.records, a) && |log.records| >= 4 && !HasEnd(log.records)
    requires Token(Some(e.event), EVENT_SIZE) != EndEvent()
    ensures var after := Write(log, e.level, e.event, e.fields, o);
            Tells(after.records, if Taken(log, e, o) then a.(entries := a.entries + [e]) else a)
            && after.suppressed == log.suppressed
  {
    WriteKeepsCounts(log, e.level, e.event, e.fields, o);
    var r := NextRecord(log, e.level, e.event, e.fields, o);
    assert Says(r, e) && r.event != EndEvent();
    TellsCall(log.records, a, r, e);
    hide Tells, Token, Completes, Says, HasEnd, NextRecord, Line;
  }

  lemma {:induction false} PerformedTells(log: Log, a: Account, call: Call, limited: bool, repeats: nat, o: Outcome)
    requires Counted(log) && Tells(log.records, a) && ProperCall(call)
    requires log.enabled ==> |log.records| >= 4 && !HasEnd(log.records) && log.suppressed == a.held % U32
    ensures var after := Performed(log, call, limited, repeats, o);
            var b := if !log.enabled then a
                     else if call.Legacy? && limited then a.(held := a.held + 1)
                     else if Taken(log, EntryOf(call, repeats), o)
                       then a.(entries := a.entries + [EntryOf(call, repeats)])
                     else a;
            Tells(after.records, b) && (after.enabled ==> after.suppressed == b.held % U32)
  {
    OwnNames();
    if log.enabled {
      if call.Event? && Token(Some(call.event), EVENT_SIZE) == EndEvent() { OnlyTheEndIsNamedEnd(call.event); }
      hide Tells, Token, Taken, HasEnd, Write, Counted, Decimal, Sanitized;
      if call.Legacy? && limited {
        TellsHeld(log.records, a);
      } else {
        WriteTells(log, a, EntryOf(call, repeats), o);
        KeepsFlag(log, EntryOf(call, repeats), o);
      }
    }
  }

  lemma {:induction false} KeepsFlag(log: Log, e: Entry, o: Outcome)
    ensures Write(log, e.level, e.event, e.fields, o).enabled == log.enabled
  {
    hide Line, NextRecord;
  }

  lemma {:induction false} StartTells(log: Log, a: Account, next: nat, fields: string, o: Outcome)
    requires log.enabled && Counted(log) && Tells(log.records, a) && |log.records| == next < 4 && !HasEnd(log.records)
    ensures Tells(StartStep(log, next, fields, o).records, a)
    ensures StartStep(log, next, fields, o).suppressed == log.suppressed
  {
    OwnNames();
    WriteKeepsCounts(log, Info, StartEvent(next), fields, o);
    TellsStart(log.records, a, NextRecord(log, Info, StartEvent(next), fields, o));
    hide Tells, Token, Completes, HasEnd, Line, StartEvent;
  }

  lemma {:induction false} EndTells(log: Log, a: Account, reason: string, duration: nat, o: Outcome)
    requires log.enabled && Counted(log) && Tells(log.records, a) && |log.records| >= 4 && !HasEnd(log.records)
    requires log.suppressed == a.held % U32
    ensures Tells(EndStep(log, reason, duration, o).records, a)
    ensures EndStep(log, reason, duration, o).suppressed == log.suppressed
  {
    OwnNames();
    CountsAgree(log.records, a, Warning);
    CountsAgree(log.records, a, Error);
    var fields := EndFields(reason, duration, log.sequence + 1, log.warnings, log.errors, log.suppressed);
    WriteKeepsCounts(log, Info, EndEvent(), fields, o);
    var r := NextRecord(log, Info, EndEvent(), fields, o);
    assert (log.records + [r])[|log.records|] == r;
    assert EndSays(log.records + [r], a);
    TellsEnd(log.records, a, r);
    hide Tells, Token, Completes, HasEnd, Line, EndFields, CountOf, Count;
  }

  // What a call adds to the records of a capture that is on.
  function Added(log: Log, call: Call, limited: bool, repeats: nat, o: Outcome): seq<Record> {
    var e := EntryOf(call, repeats);
    if (call.Legacy? && limited) || !Taken(log, e, o) then []
    else [NextRecord(log, e.level, e.event, e.fields, o)]
  }

  lemma {:induction false} PerformedAdds(log: Log, call: Call, limited: bool, repeats: nat, o: Outcome)
    ensures Performed(log, call, limited, repeats, o).records ==
            log.records + if log.enabled then Added(log, call, limited, repeats, o) else []
  {
    hide Line, Token, Sanitized, Decimal;
  }

  // ----- runs -----

  lemma {:induction false} PerformFollows(s: State, a: Account, step: Step)
    requires Kept(s) && Follows(s, a) && Enabled(s, step) && step.Perform?
    ensures Follows(Apply(s, step), Noted(a, s, step))
  {
    var t := step.thread;
    InsideHolds(s, t);
    assert ProperCall(At(s, t).call);
    hide Tells, Performed, Write, Token, ProperCapture, ProperText, Taken, Counted, LockKept, CallsKept, ProperCall,
         HasEnd, EntryOf, At;
    PerformedTells(s.log, a, At(s, t).call, step.limited, step.repeats, step.outcome);
  }

  lemma {:induction false} StartFollows(s: State, a: Account, step: Step)
    requires Kept(s) && Follows(s, a) && Enabled(s, step) && step.StartRecord?
    ensures Follows(Apply(s, step), Noted(a, s, step))
  {
    var t := step.thread;
    InsideHolds(s, t);
    hide Tells, StartStep, Token, ProperCapture, ProperText, Counted, LockKept, CallsKept, HasEnd, At;
    StartedIsOpen(s.log.records);
    StartTells(s.log, a, At(s, t).next, step.fields, step.outcome);
  }

  lemma {:induction false} StepTells(s: State, a: Account, step: Step)
    requires Kept(s) && Follows(s, a) && Enabled(s, step)
    ensures Follows(Apply(s, step), Noted(a, s, step))
  {
    if step.Perform? {
      PerformFollows(s, a, step);
    } else if step.StartRecord? {
      StartFollows(s, a, step);
    } else {
      OtherFollows(s, a, step);
    }
    hide *;
  }

  lemma {:induction false} OtherFollows(s: State, a: Account, step: Step)
    requires Kept(s) && Follows(s, a) && Enabled(s, step) && !step.Perform? && !step.StartRecord?
    ensures Follows(Apply(s, step), Noted(a, s, step))
  {
    hide Tells, ProperCapture, ProperText, EndStep, Counted, LockKept, CallsKept, HasEnd, At;
    if step.TurnOff? && s.log.enabled { EndTells(s.log, a, step.reason, step.duration, step.outcome); }
    NothingTold();
  }

  lemma {:induction false} StartedIsOpen(records: seq<Record>)
    requires ProperCapture(records) && |records| < 4
    ensures !HasEnd(records)
  {
    StartedHasNoEnd(records);
  }

  lemma {:induction false} NothingTold()
    ensures Tells([], NO_CALLS)
  {
  }

  lemma {:induction false} RunTells(s: State, a: Account, steps: seq<Step>)
    requires Kept(s) && Follows(s, a) && Run(s, steps)
    ensures Follows(After(s, steps), Accounted(a, s, steps))
    decreases |steps|
  {
    hide Kept, Follows, Apply, Enabled, Noted;
    if steps != [] {
      StepTells(s, a, steps[0]);
      StepKeeps(s, steps[0]);
      RunTells(Apply(s, steps[0]), Noted(a, s, steps[0]), steps[1..]);
    }
  }

  // In every run the current capture holds, behind its first four records, exactly the
  // records of the calls whose write was complete, in order, with the level, the name and
  // the fields each call gave; its end record gives the numbers of warnings and errors
  // among them and of legacy messages held back.
  lemma {:induction false} CapturesTellTheCalls(steps: seq<Step>)
    requires Run(INITIAL, steps)
    ensures Tells(After(INITIAL, steps).log.records, Accounted(NO_CALLS, INITIAL, steps))
  {
    InitialIsKept();
    NothingTold();
    hide Kept, Tells, Run, After, Accounted;
    RunTells(INITIAL, NO_CALLS, steps);
  }

  // ----- runs in which every write is complete -----

  predicate WritesComplete(s: State, step: Step) {
    match step
    case Perform(t, limited, repeats, o) =>
      At(s, t).Locked? && s.log.enabled && !(At(s, t).call.Legacy? && limited) ==>
        Taken(s.log, EntryOf(At(s, t).call, repeats), o)
    case _ => true
  }

  predicate AllComplete(s: State, steps: seq<Step>)
    requires Run(s, steps)
    decreases |steps|
  {
    steps == [] || (WritesComplete(s, steps[0]) && AllComplete(Apply(s, steps[0]), steps[1..]))
  }

  // What was asked for since the capture began, whatever the file took.
  function Asked(a: Account, s: State, steps: seq<Step>): Account
    requires Run(s, steps)
    decreases |steps|
  {
    if steps == [] then a
    else
      var b := match steps[0]
        case TurnOn(_, _, opens) => if opens && !s.log.enabled then NO_CALLS else a
        case Perform(t, limited, repeats, _) =>
          if !s.log.enabled then a
          else if At(s, t).call.Legacy? && limited then a.(held := a.held + 1)
          else a.(entries := a.entries + [EntryOf(At(s, t).call, repeats)])
        case _ => a;
      Asked(b, Apply(s, steps[0]), steps[1..])
  }

  lemma {:induction false} AskedIsAccounted(a: Account, s: State, steps: seq<Step>)
    requires Run(s, steps) && AllComplete(s, steps)
    ensures Accounted(a, s, steps) == Asked(a, s, steps)
    decreases |steps|
  {
    hide Apply, Taken;
    if steps != [] { AskedIsAccounted(Noted(a, s, steps[0]), Apply(s, steps[0]), steps[1..]); }
  }

  // When the file takes everything, the capture holds every call made while it was on, and
  // the end record counts the calls themselves.
  lemma {:induction false} CompleteCapturesTellAll(steps: seq<Step>)
    requires Run(INITIAL, steps) && AllComplete(INITIAL, steps)
    ensures var records, asked := After(INITIAL, steps).log.records, Asked(NO_CALLS, INITIAL, steps);
            && Tells(records, asked)
            && (HasEnd(records) ==> |records| == 5 + |asked.entries| && EndSays(records, asked))
  {
    CapturesTellTheCalls(steps);
    AskedIsAccounted(NO_CALLS, INITIAL, steps);
    hide Run, After, Asked, Accounted, HasEnd, EndSays;
  }
}
