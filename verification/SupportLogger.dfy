/** The support log's locked sections as the client runs them, on the fields behind
    print_mutex, each proved to be what SupportLog says and to leave a settled log. */
module SupportLogger {
  import opened HostText
  import opened SupportRecords
  import opened SupportLog
  import opened SupportRuns
  import opened SupportCalls
  import RateLimit
  import RateRuns

  const START_FIELDS: string := "reason=user" + " capture=fresh" + " privacy=identifiers_redacted"

  // One start record, unless the capture has been given up already.
  function StartedStep(log: Log, next: nat, fields: string, o: Outcome): Log
    requires next < 4
  {
    if log.enabled then StartStep(log, next, fields, o) else log
  }

  // The chain of the four start records.
  function Started(log: Log, fields: seq<string>, os: seq<Outcome>): Log
    requires |fields| == 4 && |os| == 4
  {
    StartedStep(StartedStep(StartedStep(StartedStep(
      log, 0, fields[0], os[0]), 1, fields[1], os[1]), 2, fields[2], os[2]), 3, fields[3], os[3])
  }

  // What holds between two start records.
  ghost predicate Underway(log: Log, next: nat) {
    && ProperCapture(log.records) && ProperText(log) && Counted(log)
    && (log.enabled ==> |log.records| == next && (next < 4 || !HasEnd(log.records)))
  }

  lemma {:induction false} StartedStepKeeps(log: Log, next: nat, fields: string, o: Outcome)
    requires Underway(log, next) && next < 4 && Plain(fields) && Plain(o.stamp)
    ensures Underway(StartedStep(log, next, fields, o), next + 1)
  {
    hide StartStep, ProperCapture, ProperText, Counted, HasEnd, Plain;
    if log.enabled { StartStepKeeps(log, next, fields, o); }
  }

  lemma {:induction false} StartedStepKeepsAny(log: Log, next: nat, fields: string)
    requires Underway(log, next) && next < 4 && Plain(fields)
    ensures forall o: Outcome | Plain(o.stamp) :: Underway(StartedStep(log, next, fields, o), next + 1)
  {
    hide Underway, StartedStep;
    forall o: Outcome | Plain(o.stamp) ensures Underway(StartedStep(log, next, fields, o), next + 1) {
      StartedStepKeeps(log, next, fields, o);
    }
  }

  // The locked section is the run of steps that the holder of the mutex takes.
  lemma {:induction false} StartRecordsRun(s: State, t: nat, fields: seq<string>, os: seq<Outcome>, next: nat)
    returns (steps: seq<Step>)
    requires |fields| == 4 && |os| == 4 && forall i | 0 <= i < 4 :: Plain(fields[i]) && Plain(os[i].stamp)
    requires next < 4 && At(s, t) == Starting(next) && s.log.enabled
    ensures Run(s, steps) && After(s, steps).lock == None
    ensures After(s, steps).log == StartedRest(s.log, fields, os, next)
    decreases 4 - next
  {
    hide StartStep, Plain;
    var step := Step.StartRecord(t, fields[next], os[next]);
    var after := Apply(s, step);
    assert after.log == StartedStep(s.log, next, fields[next], os[next]);
    if after.log.enabled && next < 3 {
      MovedAt(s, t, Starting(next + 1), Some(t), after.log);
      var rest := StartRecordsRun(after, t, fields, os, next + 1);
      steps := [step] + rest;
      RunCons(s, step, rest);
    } else {
      steps := [step];
      RunOne(s, step);
      StartedRestGivenUp(after.log, fields, os, next + 1);
    }
  }

  lemma {:induction false} RunCons(s: State, step: Step, rest: seq<Step>)
    requires SupportLog.Enabled(s, step) && Run(Apply(s, step), rest)
    ensures Run(s, [step] + rest) && After(s, [step] + rest) == After(Apply(s, step), rest)
  {
    hide SupportLog.Enabled, Apply;
    assert ([step] + rest)[1..] == rest;
  }

  lemma {:induction false} RunOne(s: State, step: Step)
    requires SupportLog.Enabled(s, step)
    ensures Run(s, [step]) && After(s, [step]) == Apply(s, step)
  {
    hide SupportLog.Enabled, Apply;
    assert [step][1..] == [];
  }

  function StartedRest(log: Log, fields: seq<string>, os: seq<Outcome>, next: nat): Log
    requires |fields| == 4 && |os| == 4 && next <= 4
    decreases 4 - next
  {
    if next == 4 then log else StartedRest(StartedStep(log, next, fields[next], os[next]), fields, os, next + 1)
  }

  lemma {:induction false} StartedRestGivenUp(log: Log, fields: seq<string>, os: seq<Outcome>, next: nat)
    requires |fields| == 4 && |os| == 4 && next <= 4 && (next == 4 || !log.enabled)
    ensures StartedRest(log, fields, os, next) == log
    decreases 4 - next
  {
    if next < 4 { StartedRestGivenUp(log, fields, os, next + 1); }
  }

  lemma {:induction false} StartedRestIsStarted(log: Log, fields: seq<string>, os: seq<Outcome>)
    requires |fields| == 4 && |os| == 4
    ensures StartedRest(log, fields, os, 0) == Started(log, fields, os)
  {
    hide StartedStep;
    var one := StartedStep(log, 0, fields[0], os[0]);
    var two := StartedStep(one, 1, fields[1], os[1]);
    var three := StartedStep(two, 2, fields[2], os[2]);
    assert StartedRest(three, fields, os, 3) == StartedStep(three, 3, fields[3], os[3]);
    assert StartedRest(two, fields, os, 2) == StartedRest(three, fields, os, 3);
    assert StartedRest(one, fields, os, 1) == StartedRest(two, fields, os, 2);
  }

  // Turning capture on, by a thread that finds the mutex free, is a run of the threads
  // model with the same effect on the log.
  lemma {:induction false} TurnOnIsARun(s: State, t: nat, session: nat, fields: seq<string>, os: seq<Outcome>)
    returns (steps: seq<Step>)
    requires |fields| == 4 && |os| == 4 && forall i | 0 <= i < 4 :: Plain(fields[i]) && Plain(os[i].stamp)
    requires At(s, t) == Idle && s.lock == None && !s.log.enabled
    ensures Run(s, steps) && After(s, steps).lock == None
    ensures After(s, steps).log == Started(Opened(s.log, session, true), fields, os)
  {
    hide Plain;
    var step := Step.TurnOn(t, session, true);
    var after := Apply(s, step);
    MovedAt(s, t, Starting(0), Some(t), Opened(s.log, session, true));
    var rest := StartRecordsRun(after, t, fields, os, 0);
    steps := [step] + rest;
    RunCons(s, step, rest);
    hide *;
    StartedRestIsStarted(Opened(s.log, session, true), fields, os);
  }

  // The sections of an event or a legacy message, and of turning capture off, likewise:
  // the test of the flag, the mutex, and what the section does to the log.
  lemma {:induction false} CallIsARun(s: State, t: nat, call: Call, limited: bool, repeats: nat, o: Outcome)
    returns (steps: seq<Step>)
    requires ProperCall(call) && Plain(o.stamp)
    requires At(s, t) == Idle && s.lock == None && s.log.enabled
    ensures Run(s, steps) && After(s, steps).lock == None && At(After(s, steps), t) == Idle
    ensures After(s, steps).log == Performed(s.log, call, limited, repeats, o)
    ensures After(s, steps).log.records == s.log.records + Added(s.log, call, limited, repeats, o)
  {
    PerformedAdds(s.log, call, limited, repeats, o);
    hide Plain, ProperCall, Performed, Added;
    var check, acquire, perform := Step.Check(t, call), Step.Acquire(t), Step.Perform(t, limited, repeats, o);
    var checked := Apply(s, check);
    MovedAt(s, t, Checked(call), s.lock, s.log);
    var locked := Apply(checked, acquire);
    MovedAt(checked, t, Locked(call), Some(t), s.log);
    MovedAt(locked, t, Idle, None, Performed(s.log, call, limited, repeats, o));
    hide Run, After, Apply, SupportLog.Enabled, Moved, At;
    RunOne(locked, perform);
    RunCons(checked, acquire, [perform]);
    RunCons(s, check, [acquire] + [perform]);
    steps := [check] + ([acquire] + [perform]);
    AppliedPerform(locked, t, call, limited, repeats, o);
  }

  lemma {:induction false} AppliedPerform(s: State, t: nat, call: Call, limited: bool, repeats: nat, o: Outcome)
    requires At(s, t) == Locked(call) && Plain(o.stamp)
    ensures SupportLog.Enabled(s, Step.Perform(t, limited, repeats, o))
    ensures Apply(s, Step.Perform(t, limited, repeats, o)) ==
            Moved(s, t, Idle, None, Performed(s.log, call, limited, repeats, o))
  {
    hide Plain, Performed;
  }

  lemma {:induction false} TurnOffIsARun(s: State, t: nat, reason: string, duration: nat, o: Outcome)
    returns (steps: seq<Step>)
    requires Plain(reason) && Plain(o.stamp) && At(s, t) == Idle && s.lock == None
    ensures Run(s, steps) && After(s, steps).lock == None && At(After(s, steps), t) == Idle
    ensures After(s, steps).log == Closed(if s.log.enabled then EndStep(s.log, reason, duration, o) else s.log)
  {
    hide Plain, EndStep, Closed;
    var step := Step.TurnOff(t, reason, duration, o);
    var after := Apply(s, step);
    if s.log.enabled {
      MovedAt(s, t, Ended, Some(t), EndStep(s.log, reason, duration, o));
      MovedAt(after, t, Idle, None, Closed(after.log));
      RunOne(after, Step.Finish(t));
      RunCons(s, step, [Step.Finish(t)]);
      steps := [step] + [Step.Finish(t)];
    } else {
      RunOne(s, step);
      steps := [step];
    }
  }

  class Logger {
    // message_hash
    const hash: string -> nat
    const cache: RateLimit.Cache
    var enabled: bool
    var open: bool
    var session: nat
    var started: nat
    var sequence: nat
    var warnings: nat
    var errors: nat
    // The file, and the records written to it completely.
    var text: string
    ghost var records: seq<Record>
    ghost var torn: bool

    ghost function State(): (log: Log)
      reads this, cache
      ensures log.enabled == enabled && log.open == open && log.sequence == sequence
      ensures log.warnings == warnings && log.errors == errors && log.suppressed == cache.suppressed
    {
      Log(enabled, open, session, sequence, warnings, errors, cache.suppressed, records, text, torn)
    }

    // The cache holds the hashes of categories only, so it has never lost an entry.
    ghost predicate Valid()
      reads this, cache, cache.slots
    {
      cache.Valid() && HashesCategories(hash, cache.table) && cache.dropped == 0
    }

    // vita_debug_init
    constructor (hash: string -> nat)
      requires forall category :: hash(category) > 0
      ensures Valid() && fresh(cache) && fresh(cache.slots) && this.hash == hash
      ensures State() == INITIAL.log && Settled(State())
    {
      this.hash := hash;
      cache := new RateLimit.Cache();
      enabled, open, session, started, sequence, warnings, errors := false, false, 0, 0, 0, 0, 0;
      text, records, torn := "", [], false;
    }

    // What the clock and the file have to say to one record.
    method Ask() returns (o: Outcome)
      ensures Plain(o.stamp)
    {
      o := *;
      if '\n' in o.stamp { o := o.(stamp := ""); }
    }

    method Now() returns (now: nat)
    {
      now := *;
    }

    // write_record_locked
    method WriteRecord(level: Level, event: string, fields: string) returns (written: bool, o: Outcome)
      requires Valid()
      modifies this`open, this`sequence, this`warnings, this`errors, this`text, this`records, this`torn
      ensures Valid() && State() == Write(old(State()), level, event, fields, o) && Plain(o.stamp)
      ensures written == Completes(old(State()), level, event, fields, o)
    {
      hide Line, Token, Plain, RateLimit.Cache.Valid, HashesCategories;
      o := Ask();
      var r := Record(o.stamp, session, sequence + 1, level, Token(Some(event), EVENT_SIZE), fields);
      written := PutLine(Line(r), o);
      if !written { return; }
      records, sequence := records + [r], sequence + 1;
      if level == Warning { warnings := (warnings + 1) % SupportLog.U32; }
      if level == Error { errors := (errors + 1) % SupportLog.U32; }
    }

    // open_log_locked and fwrite
    method PutLine(line: string, o: Outcome) returns (written: bool)
      modifies this`open, this`text, this`torn
      ensures written <==> (old(open) || o.opens) && o.count >= |line|
      ensures open == (old(open) || o.opens)
      ensures text == if !open then old(text) else if written then old(text) + line else old(text) + line[..o.count]
      ensures torn == (old(torn) || (open && !written && o.count > 0))
    {
      if !open {
        if !o.opens { return false; }
        open := true;
      }
      written := o.count >= |line|;
      if written {
        text := text + line;
      } else {
        text, torn := text + line[..o.count], torn || o.count > 0;
      }
    }

    // vita_debug_event
    method Event(level: Level, event: Option<string>, fields: string)
      returns (o: Outcome)
      requires Valid() && Settled(State()) && event != Some(EndEvent())
      modifies this
      ensures Valid() && Settled(State())
      ensures event.None? ==> State() == old(State())
      ensures event.Some? ==> State() == Performed(old(State()), Call.Event(level, event.value, fields), false, 0, o)
      ensures event.Some? && old(enabled) ==>
                records == old(records) + Added(old(State()), Call.Event(level, event.value, fields), false, 0, o)
    {
      hide Settled, Write, Added, EntryOf;
      o := Ask();
      if !enabled || event.None? { return; }
      PerformedKeepsAny(State(), Call.Event(level, event.value, fields), false, 0);
      var written;
      written, o := WriteRecord(level, event.value, Sanitized(fields));
      PerformedAdds(old(State()), Call.Event(level, event.value, fields), false, 0, o);
    }

    // vita_debug_log, for a message that the source filters let through or not.
    method LegacyLog(format: string, relevant: bool) returns (limited: bool, repeats: nat, now: nat, o: Outcome)
      requires Valid() && Settled(State())
      modifies this, cache, cache.slots
      ensures Valid() && Settled(State())
      ensures !relevant ==> State() == old(State())
      ensures relevant ==>
                State() == Performed(old(State()), Legacy(RateRuns.Category(format)), limited, repeats, o)
      ensures relevant && old(enabled) ==>
                var h := hash(RateRuns.Category(format));
                && limited == RateLimit.Limited(old(cache.table), h, now)
                && cache.table == RateLimit.Passed(old(cache.table), h, now)
                && repeats == if limited then 0 else RateLimit.Repeats(old(cache.table), h)
      ensures relevant && old(enabled) ==>
                records == old(records) + Added(old(State()), Legacy(RateRuns.Category(format)), limited, repeats, o)
    {
      hide Settled, Write, Added, EntryOf, RateRuns.Category, RateLimit.Represents,
           RateLimit.Conserved, RateLimit.Limited, RateLimit.Passed,
           RateLimit.Repeats, HashesCategories, RateLimit.HasRoom, Performed, LegacyFields;
      limited, repeats := false, 0;
      o := Ask();
      now := Now();
      LegacySection(State(), RateRuns.Category(format));
      if !relevant || !enabled { return; }
      var category := RateRuns.Category(format);
      CategoryIsPlain(format);
      HashIsPositive(hash, cache.table, category);
      RoomForCategory(hash, cache.table, format, now);
      ghost var before := State();
      limited, repeats := cache.Limit(hash(category), now);
      PerformedKeepsAny(before, Legacy(category), limited, repeats);
      if !limited {
        assert State() == before;
        var written;
        written, o := WriteRecord(Error, "error.legacy", LegacyFields(category, repeats));
      }
      PerformedAdds(before, Legacy(category), limited, repeats, o);
    }

    // Clearing the flag and close_log_locked.
    method Close()
      requires Valid()
      modifies this`enabled, this`open
      ensures Valid() && State() == Closed(old(State())) && !enabled && !open
    {
      hide RateLimit.Cache.Valid, HashesCategories;
      enabled, open := false, false;
    }

    // One of the start records; nothing is written any more once one has failed.
    method StartRecord(next: nat, fields: string) returns (o: Outcome)
      requires Valid() && Underway(State(), next) && next < 4 && Plain(fields)
      modifies this
      ensures Valid() && Underway(State(), next + 1) && Plain(o.stamp)
      ensures State() == StartedStep(old(State()), next, fields, o)
    {
      hide *;
      ghost var before := State();
      StartedStepKeepsAny(before, next, fields);
      o := Ask();
      if !enabled {
        StartedStepSkips(before, next, fields, o);
        return;
      }
      var written;
      written, o := WriteRecord(Info, StartEvent(next), fields);
      StartedStepWrites(before, next, fields, o);
      if !written { Close(); }
    }

    // The part of turning on before the first record: the counters and the cache are
    // cleared and the file, rotated away before, is opened anew.
    method Restart(session: nat) returns (opens: bool)
      requires Valid() && !enabled
      modifies this, cache, cache.slots
      ensures Valid() && cache.table == map[] && State() == Opened(old(State()), session, opens)
    {
      hide RateLimit.Cache.Valid, HashesCategories;
      EmptyHashes(hash, cache.table);
      CacheHasSlots(cache);
      this.session, sequence, warnings, errors := session, 0, 0, 0;
      started := Now();
      cache.Reset();
      opens := *;
      if opens { text, records, torn := "", [], false; }
      open, enabled := opens, opens;
    }

    // vita_debug_set_logging_enabled(true). Three of the four start records describe the
    // system, the settings and the connection; their text is given.
    method TurnOn(session: nat, snapshots: seq<string>) returns (opens: bool, os: seq<Outcome>)
      requires Valid() && Settled(State()) && |snapshots| == 3 && forall i | 0 <= i < 3 :: Plain(snapshots[i])
      modifies this, cache, cache.slots
      ensures Valid() && Settled(State()) && |os| == 4
      ensures old(enabled) ==> State() == old(State())
      ensures !old(enabled) ==> cache.table == map[]
      ensures !old(enabled) && !opens ==> State() == Opened(old(State()), session, false)
      ensures !old(enabled) && opens ==>
                State() == Started(Opened(old(State()), session, true), [START_FIELDS] + snapshots, os)
    {
      hide *;
      StartFieldsArePlain();
      if !enabled { OpenedSettles(State(), session); }
      var o := Ask();
      os, opens := [o, o, o, o], false;
      if enabled { return; }
      opens := Restart(session);
      if !opens { return; }
      ghost var restarted := State();
      var first := StartRecord(0, START_FIELDS);
      var second := StartRecord(1, snapshots[0]);
      var third := StartRecord(2, snapshots[1]);
      var fourth := StartRecord(3, snapshots[2]);
      os := [first, second, third, fourth];
      UnderwaySettles(State());
      StartedIs(restarted, [START_FIELDS] + snapshots, os);
    }

    // vita_debug_set_logging_enabled(false) and vita_debug_shutdown: the end record, then
    // the flag and the file.
    method TurnOff(reason: string) returns (duration: nat, o: Outcome)
      requires Valid() && Settled(State()) && Plain(reason)
      modifies this
      ensures Valid() && Settled(State()) && !enabled && !open
      ensures !old(enabled) ==> State() == Closed(old(State()))
      ensures old(enabled) ==> State() == Closed(EndStep(old(State()), reason, duration, o))
    {
      hide *;
      ghost var before := State();
      EndSettles(before, reason);
      ClosedSettles(before);
      o := Ask();
      duration := 0;
      if enabled {
        var now := Now();
        if now >= started { duration := (now - started) / 1000; }
        var fields := EndFields(reason, duration, sequence + 1, warnings, errors, cache.suppressed);
        var written;
        written, o := WriteRecord(Info, EndEvent(), fields);
        EndStepWrites(before, reason, duration, o);
      }
      Close();
    }
  }

  // A section keeps the log settled whatever the clock and the file say.
  lemma {:induction false} PerformedKeepsAny(log: Log, call: Call, limited: bool, repeats: nat)
    requires Settled(log) && ProperCall(call)
    ensures forall o: Outcome | Plain(o.stamp) :: Settled(Performed(log, call, limited, repeats, o))
  {
    hide Settled, Performed;
    forall o: Outcome | Plain(o.stamp) ensures Settled(Performed(log, call, limited, repeats, o)) {
      PerformedKeeps(log, call, limited, repeats, o);
    }
  }

  // Every hash in the table is that of a category.
  ghost predicate HashesCategories(hash: string -> nat, table: RateLimit.Table) {
    table.Keys <= RateRuns.Hashes(hash) && forall category :: hash(category) > 0
  }

  lemma {:induction false} HashIsPositive(hash: string -> nat, table: RateLimit.Table, category: string)
    requires HashesCategories(hash, table)
    ensures hash(category) > 0
  {
  }

  lemma {:induction false} EmptyHashes(hash: string -> nat, table: RateLimit.Table)
    requires HashesCategories(hash, table)
    ensures HashesCategories(hash, map[])
  {
  }

  lemma {:induction false} CacheHasSlots(cache: RateLimit.Cache)
    requires cache.Valid()
    ensures cache.slots.Length == RateLimit.SLOTS
  {
  }

  lemma {:induction false} RoomForCategory(hash: string -> nat, table: RateLimit.Table, format: string, now: nat)
    requires HashesCategories(hash, table)
    ensures RateLimit.HasRoom(table, hash(RateRuns.Category(format)))
    ensures HashesCategories(hash, RateLimit.Passed(table, hash(RateRuns.Category(format)), now))
  {
    RateRuns.HashesAreSeven(hash);
    var h := hash(RateRuns.Category(format));
    assert h in RateRuns.Hashes(hash) by { RateRuns.CategoryIsHashed(format, hash); }
    hide RateRuns.Category, RateRuns.Hashes, RateLimit.Passed;
    RateRuns.PassedKeys(table, h, now);
    RateRuns.SubsetSize(table.Keys, RateRuns.Hashes(hash));
    assert |table| == |table.Keys|;
  }

  // The section of a legacy message, case by case.
  lemma {:induction false} LegacySection(log: Log, category: string)
    ensures !log.enabled ==> forall limited, repeats, o :: Performed(log, Legacy(category), limited, repeats, o) == log
    ensures log.enabled ==> forall limited, repeats, o ::
              Performed(log, Legacy(category), limited, repeats, o) ==
              if limited then log.(suppressed := (log.suppressed + 1) % SupportLog.U32)
              else Write(log, Error, "error.legacy", LegacyFields(category, repeats), o)
  {
    hide Write, LegacyFields;
  }

  lemma {:induction false} CategoryIsPlain(format: string)
    ensures Plain(RateRuns.Category(format))
  {
    hide ContainsText;
  }

  lemma {:induction false} StartedStepSkips(log: Log, next: nat, fields: string, o: Outcome)
    requires next < 4 && !log.enabled
    ensures StartedStep(log, next, fields, o) == log
  {
  }

  lemma {:induction false} StartedStepWrites(log: Log, next: nat, fields: string, o: Outcome)
    requires next < 4 && log.enabled
    ensures var after := Write(log, Info, StartEvent(next), fields, o);
            StartedStep(log, next, fields, o) ==
            if Completes(log, Info, StartEvent(next), fields, o) then after else Closed(after)
  {
    hide Write, Completes, StartEvent;
  }

  lemma {:induction false} StartedIs(log: Log, fields: seq<string>, os: seq<Outcome>)
    requires |fields| == 4 && |os| == 4
    ensures StartedStep(StartedStep(StartedStep(StartedStep(
              log, 0, fields[0], os[0]), 1, fields[1], os[1]), 2, fields[2], os[2]), 3, fields[3], os[3]) ==
            Started(log, fields, os)
  {
    hide StartedStep;
  }

  lemma {:induction false} StartFieldsArePlain()
    ensures Plain(START_FIELDS)
  {
    assert Plain("reason=user" + " capture=fresh");
    assert Plain(" privacy=identifiers_redacted");
  }

  lemma {:induction false} OpenedSettles(log: Log, session: nat)
    requires Settled(log) && !log.enabled
    ensures Underway(Opened(log, session, true), 0) && Opened(log, session, true).enabled
    ensures Settled(Opened(log, session, false))
  {
    OpenedKeeps(log, session, true);
    OpenedKeeps(log, session, false);
    hide ProperCapture, ProperText, Counted;
  }

  lemma {:induction false} UnderwaySettles(log: Log)
    requires Underway(log, 4)
    ensures Settled(log)
  {
    hide ProperCapture, ProperText, Counted, HasEnd;
  }

  lemma {:induction false} ClosedSettles(log: Log)
    requires Settled(log)
    ensures Settled(Closed(log))
  {
    ClosedKeeps(log);
  }

  lemma {:induction false} EndSettles(log: Log, reason: string)
    requires Settled(log) && Plain(reason)
    ensures log.enabled ==> forall duration, o: Outcome | Plain(o.stamp) ::
            Settled(Closed(EndStep(log, reason, duration, o)))
  {
    if log.enabled {
      hide ProperCapture, ProperText, Counted, HasEnd, EndStep, Closed, Settled, Plain;
      forall duration, o: Outcome | Plain(o.stamp) ensures Settled(Closed(EndStep(log, reason, duration, o))) {
        EndStepKeeps(log, reason, duration, o);
        ClosedKeeps(EndStep(log, reason, duration, o));
      }
    }
  }
}
