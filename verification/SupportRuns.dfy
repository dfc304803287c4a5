/** Every run of the support log: any number of threads, any interleaving, any write
    failing or stopping part way. */
module SupportRuns {
  import opened HostText
  import opened Numerals
  import opened SupportRecords
  import opened SupportLog

  // What the current file and the counters satisfy whenever the mutex is free.
  ghost predicate Settled(log: Log) {
    && ProperCapture(log.records) && ProperText(log) && Counted(log)
    && (log.enabled ==> |log.records| >= 4 && !HasEnd(log.records))
  }

  lemma {:induction false} EndFieldsArePlain(reason: string, duration: nat, records: nat, warnings: nat, errors: nat,
                                             suppressed: nat)
    requires Plain(reason)
    ensures Plain(EndFields(reason, duration, records, warnings, errors, suppressed))
  {
    var a, b, c, d, e := Decimal(duration), Decimal(records), Decimal(warnings), Decimal(errors), Decimal(suppressed);
    assert Plain(a) && Plain(b) && Plain(c) && Plain(d) && Plain(e);
    hide Decimal;
    var front := "reason=" + reason + " duration_ms=" + a + " records=" + b;
    assert Plain(front);
    var back := front + " warnings=" + c + " errors=" + d;
    assert Plain(back);
    assert EndFields(reason, duration, records, warnings, errors, suppressed) == back + " legacy_suppressed=" + e;
  }

  lemma {:induction false} LegacyFieldsArePlain(category: string, repeats: nat)
    requires Plain(category)
    ensures Plain(LegacyFields(category, repeats))
  {
    var number := Decimal(repeats);
    assert Plain(number);
    hide Decimal;
  }

  // The names under which the client itself writes.
  lemma {:induction false} OwnNames()
    ensures forall i | 0 <= i < 4 ::
            Token(Some(StartEvent(i)), EVENT_SIZE) == StartEvent(i) && StartEvent(i) != EndEvent()
    ensures Token(Some(EndEvent()), EVENT_SIZE) == EndEvent()
    ensures Token(Some("error.legacy"), EVENT_SIZE) != EndEvent()
  {
    hide Token;
    forall i | 0 <= i < 4
      ensures Token(Some(StartEvent(i)), EVENT_SIZE) == StartEvent(i) && StartEvent(i) != EndEvent()
    {
      StartName(i);
    }
    SafeNamesAreKept(EndEvent(), EVENT_SIZE);
    SafeNamesAreKept("error.legacy", EVENT_SIZE);
    assert |EndEvent()| == 11 && |"error.legacy"| == 12;
  }

  lemma {:induction false} StartName(i: nat)
    requires i < 4
    ensures Token(Some(StartEvent(i)), EVENT_SIZE) == StartEvent(i) && StartEvent(i) != EndEvent()
  {
    hide Token;
    var name := StartEvent(i);
    assert |EndEvent()| == 11 && |name| != 11;
    assert forall j | 0 <= j < |name| :: TokenSafe(name[j]);
    SafeNamesAreKept(name, EVENT_SIZE);
  }

  // ----- the locked sections -----

  lemma {:induction false} PerformedKeeps(log: Log, call: Call, limited: bool, repeats: nat, o: Outcome)
    requires Settled(log) && ProperCall(call) && Plain(o.stamp)
    ensures Settled(Performed(log, call, limited, repeats, o))
    ensures Performed(log, call, limited, repeats, o).enabled == log.enabled
    ensures log.records <= Performed(log, call, limited, repeats, o).records
  {
    OwnNames();
    if log.enabled {
      if call.Event? {
        SanitizedIsPlain(call.fields);
        if Token(Some(call.event), EVENT_SIZE) == EndEvent() { OnlyTheEndIsNamedEnd(call.event); }
        hide Write, Completes, Token, ProperCapture, ProperText, Counted, HasEnd, TruthfulEnd, Sanitized, Plain;
        WriteKeeps(log, call.level, call.event, Sanitized(call.fields), o);
      } else if !limited {
        LegacyFieldsArePlain(call.category, repeats);
        hide Write, Completes, Token, ProperCapture, ProperText, Counted, HasEnd, TruthfulEnd, LegacyFields, Plain;
        WriteKeeps(log, Error, "error.legacy", LegacyFields(call.category, repeats), o);
      }
    }
  }

  lemma {:induction false} OpenedKeeps(log: Log, session: nat, opens: bool)
    requires Settled(log) && !log.enabled
    ensures var after := Opened(log, session, opens);
            && after.enabled == opens
            && ProperCapture(after.records) && ProperText(after) && Counted(after)
            && (opens ==> after.records == [])
  {
    assert Count([], Warning) == 0 && Count([], Error) == 0;
  }

  lemma {:induction false} StartStepKeeps(log: Log, next: nat, fields: string, o: Outcome)
    requires ProperCapture(log.records) && ProperText(log) && Counted(log) && log.enabled
    requires next < 4 && |log.records| == next && Plain(fields) && Plain(o.stamp)
    ensures var after := StartStep(log, next, fields, o);
            && ProperCapture(after.records) && ProperText(after) && Counted(after) && !HasEnd(after.records)
            && (after.enabled ==> |after.records| == next + 1)
  {
    OwnNames();
    StartedHasNoEnd(log.records);
    hide Write, Completes, Token, ProperCapture, HasEnd, TruthfulEnd, Plain;
    WriteKeeps(log, Info, StartEvent(next), fields, o);
  }

  lemma {:induction false} StartedHasNoEnd(records: seq<Record>)
    requires ProperCapture(records) && |records| < 4
    ensures !HasEnd(records)
  {
    OwnNames();
    hide Token;
  }

  // The numbers in the end record count that record too, so they are true of the whole.
  lemma {:induction false} EndRecordIsTruthful(log: Log, reason: string, duration: nat, o: Outcome)
    requires Counted(log) && log.enabled
    ensures var fields := EndFields(reason, duration, log.sequence + 1, log.warnings, log.errors, log.suppressed);
            TruthfulEnd(log.records + [NextRecord(log, Info, EndEvent(), fields, o)])
  {
    hide EndFields, Token, Count;
    var fields := EndFields(reason, duration, log.sequence + 1, log.warnings, log.errors, log.suppressed);
    var r := NextRecord(log, Info, EndEvent(), fields, o);
    CountSnoc(log.records, r, Warning);
    CountSnoc(log.records, r, Error);
    assert (log.records + [r])[|log.records|] == r;
  }

  lemma {:induction false} EndWritten(log: Log, fields: string, o: Outcome)
    requires Settled(log) && log.enabled && Plain(fields) && Plain(o.stamp)
    requires TruthfulEnd(log.records + [NextRecord(log, Info, EndEvent(), fields, o)])
    ensures var after := Write(log, Info, EndEvent(), fields, o);
            && ProperCapture(after.records) && ProperText(after) && Counted(after) && after.enabled
            && |after.records| >= 4 && log.records <= after.records
  {
    hide Token, ProperCapture, ProperText, HasEnd, TruthfulEnd, Plain, Write, Completes;
    WriteKeeps(log, Info, EndEvent(), fields, o);
  }

  lemma {:induction false} EndStepKeeps(log: Log, reason: string, duration: nat, o: Outcome)
    requires Settled(log) && log.enabled && Plain(reason) && Plain(o.stamp)
    ensures var after := EndStep(log, reason, duration, o);
            && ProperCapture(after.records) && ProperText(after) && Counted(after) && after.enabled
            && |after.records| >= 4 && log.records <= after.records
  {
    EndRecordIsTruthful(log, reason, duration, o);
    EndStepWrites(log, reason, duration, o);
    hide *;
    var fields := EndFields(reason, duration, log.sequence + 1, log.warnings, log.errors, log.suppressed);
    EndFieldsArePlain(reason, duration, log.sequence + 1, log.warnings, log.errors, log.suppressed);
    EndWritten(log, fields, o);
  }

  lemma {:induction false} EndStepWrites(log: Log, reason: string, duration: nat, o: Outcome)
    ensures var fields := EndFields(reason, duration, log.sequence + 1, log.warnings, log.errors, log.suppressed);
            EndStep(log, reason, duration, o) == Write(log, Info, EndEvent(), fields, o)
  {
    hide Write, EndFields;
  }

  lemma {:induction false} ClosedKeeps(log: Log)
    requires ProperCapture(log.records) && ProperText(log)
    ensures Settled(Closed(log))
  {
  }

  // ----- steps and runs -----

  lemma {:induction false} MovedAt(s: State, thread: nat, pc: Pc, lock: Option<nat>, log: Log)
    ensures At(Moved(s, thread, pc, lock, log), thread) == pc
    ensures forall t: nat | t != thread :: At(Moved(s, thread, pc, lock, log), t) == At(s, t)
  {
  }

  // The locks and calls of a state after one thread has moved.
  lemma {:induction false} MovedKeeps(s: State, thread: nat, pc: Pc, lock: Option<nat>, log: Log)
    requires LockKept(s) && CallsKept(s)
    requires s.lock == None || s.lock == Some(thread) || (lock == s.lock && !Holds(pc))
    requires lock == (if Holds(pc) then Some(thread) else if s.lock == Some(thread) then None else s.lock)
    requires pc.Checked? || pc.Locked? ==> ProperCall(pc.call)
    ensures LockKept(Moved(s, thread, pc, lock, log)) && CallsKept(Moved(s, thread, pc, lock, log))
  {
    MovedAt(s, thread, pc, lock, log);
    hide ProperCall;
    var m := Moved(s, thread, pc, lock, log);
    forall t: nat ensures Holds(At(m, t)) <==> m.lock == Some(t) {
      assert Holds(At(s, t)) <==> s.lock == Some(t);
    }
  }

  // A thread has finished its step, as the holder of the mutex or having released it.
  lemma {:induction false} MovedIsKept(s: State, thread: nat, pc: Pc, log: Log)
    requires LockKept(s) && CallsKept(s)
    requires s.lock == None || s.lock == Some(thread)
    requires pc.Checked? || pc.Locked? ==> ProperCall(pc.call)
    requires ProperCapture(log.records) && ProperText(log) && Counted(log)
    requires HolderFits(if Holds(pc) then pc else Idle, log)
    ensures Kept(Moved(s, thread, pc, if Holds(pc) then Some(thread) else None, log))
  {
    var lock := if Holds(pc) then Some(thread) else None;
    MovedKeeps(s, thread, pc, lock, log);
    MovedAt(s, thread, pc, lock, log);
    hide ProperCapture, ProperText, Counted, ProperCall, LockKept, CallsKept, HolderFits, At;
    assert Moved(s, thread, pc, lock, log).log == log && Moved(s, thread, pc, lock, log).lock == lock;
    hide Moved;
  }

  // The thread inside a locked section is the one that holds the mutex.
  lemma {:induction false} InsideHolds(s: State, thread: nat)
    requires Kept(s) && Holds(At(s, thread))
    ensures s.lock == Some(thread) && Holder(s) == At(s, thread)
  {
    hide ProperCapture, ProperText, Counted, HolderFits, CallsKept, At;
  }

  lemma {:induction false} CheckKeeps(s: State, t: nat, call: Call)
    requires Kept(s) && At(s, t) == Idle && ProperCall(call)
    ensures Kept(Moved(s, t, Checked(call), s.lock, s.log))
  {
    assert Holds(At(s, t)) <==> s.lock == Some(t);
    MovedKeeps(s, t, Checked(call), s.lock, s.log);
    MovedAt(s, t, Checked(call), s.lock, s.log);
    hide ProperCapture, ProperText, Counted, HasEnd, ProperCall, LockKept, CallsKept, HolderFits, At;
  }

  lemma {:induction false} CallStepKeeps(s: State, step: Step)
    requires Kept(s) && Enabled(s, step) && (step.Check? || step.Acquire? || step.Perform?)
    ensures Kept(Apply(s, step))
  {
    var t := step.thread;
    var pc := At(s, t);
    assert pc.Checked? || pc.Locked? ==> ProperCall(pc.call);
    if step.Perform? { InsideHolds(s, t); }
    hide ProperCapture, ProperText, Counted, HasEnd, Performed, ProperCall, LockKept, CallsKept, At, Moved;
    match step
    case Check(_, call) =>
      CheckKeeps(s, t, call);
    case Acquire(_) =>
      MovedIsKept(s, t, Locked(pc.call), s.log);
    case Perform(_, limited, repeats, o) =>
      PerformedKeeps(s.log, pc.call, limited, repeats, o);
      MovedIsKept(s, t, Idle, Performed(s.log, pc.call, limited, repeats, o));
  }

  lemma {:induction false} TurnOnKeeps(s: State, t: nat, session: nat, opens: bool)
    requires Kept(s) && Enabled(s, TurnOn(t, session, opens))
    ensures Kept(Apply(s, TurnOn(t, session, opens)))
  {
    hide ProperCapture, ProperText, Counted, HasEnd, Opened, LockKept, CallsKept, At, Moved;
    if !s.log.enabled {
      OpenedKeeps(s.log, session, opens);
      if opens { MovedIsKept(s, t, Starting(0), Opened(s.log, session, true)); }
      else { SameThreads(s, Opened(s.log, session, false)); }
    }
  }

  // The log changes while no thread moves and nobody holds the mutex.
  lemma {:induction false} SameThreads(s: State, log: Log)
    requires Kept(s) && s.lock == None && Settled(log)
    ensures Kept(s.(log := log))
  {
    hide ProperCapture, ProperText, Counted, HasEnd;
    assert forall t: nat :: At(s.(log := log), t) == At(s, t);
  }

  lemma {:induction false} StartRecordMoves(s: State, t: nat, next: nat, fields: string, o: Outcome)
    requires At(s, t) == Starting(next) && next < 4 && Plain(fields) && Plain(o.stamp)
    ensures var after := StartStep(s.log, next, fields, o);
            var pc := if after.enabled && next < 3 then Starting(next + 1) else Idle;
            Apply(s, StartRecord(t, fields, o)) == Moved(s, t, pc, if Holds(pc) then Some(t) else None, after)
  {
    hide StartStep, At, Moved, Plain;
  }

  lemma {:induction false} StartRecordKeeps(s: State, t: nat, next: nat, fields: string, o: Outcome)
    requires Kept(s) && At(s, t) == Starting(next) && next < 4 && Plain(fields) && Plain(o.stamp)
    ensures Kept(Apply(s, StartRecord(t, fields, o)))
  {
    InsideHolds(s, t);
    StartRecordMoves(s, t, next, fields, o);
    StartStepKeeps(s.log, next, fields, o);
    hide ProperCapture, ProperText, Counted, HasEnd, StartStep, LockKept, CallsKept, At, Moved, Plain, Apply, Enabled;
    var after := StartStep(s.log, next, fields, o);
    MovedIsKept(s, t, if after.enabled && next < 3 then Starting(next + 1) else Idle, after);
  }

  lemma {:induction false} TurnOffKeeps(s: State, t: nat, reason: string, duration: nat, o: Outcome)
    requires Kept(s) && Enabled(s, TurnOff(t, reason, duration, o))
    ensures Kept(Apply(s, TurnOff(t, reason, duration, o)))
  {
    hide ProperCapture, ProperText, Counted, HasEnd, EndStep, LockKept, CallsKept, At, Moved, Plain;
    if s.log.enabled {
      EndStepKeeps(s.log, reason, duration, o);
      MovedIsKept(s, t, Ended, EndStep(s.log, reason, duration, o));
    } else {
      ClosedKeeps(s.log);
      SameThreads(s, Closed(s.log));
    }
  }

  lemma {:induction false} FinishKeeps(s: State, t: nat)
    requires Kept(s) && At(s, t).Ended?
    ensures Kept(Apply(s, Finish(t)))
  {
    hide ProperCapture, ProperText, Counted, HasEnd, Closed, LockKept, CallsKept, At, Moved;
    InsideHolds(s, t);
    ClosedKeeps(s.log);
    MovedIsKept(s, t, Idle, Closed(s.log));
  }

  // A capture that has its end record stays as it is until a new one is started.
  lemma {:induction false} NothingFollowsTheEnd(s: State, step: Step)
    requires Kept(s) && Enabled(s, step) && HasEnd(s.log.records)
    requires !(step.TurnOn? && step.opens && !s.log.enabled)
    ensures Apply(s, step).log.records == s.log.records && Apply(s, step).log.text == s.log.text
  {
    assert Holds(At(s, step.thread)) <==> s.lock == Some(step.thread);
    hide ProperCapture, ProperText, Counted, TruthfulEnd, Write, Completes;
    if step.StartRecord? {
      StartedHasNoEnd(s.log.records);
    }
  }

  lemma {:induction false} StepKeeps(s: State, step: Step)
    requires Kept(s) && Enabled(s, step)
    ensures Kept(Apply(s, step))
    ensures HasEnd(s.log.records) && !(step.TurnOn? && step.opens && !s.log.enabled) ==>
              Apply(s, step).log.records == s.log.records && Apply(s, step).log.text == s.log.text
  {
    hide Kept, Apply, HasEnd;
    if HasEnd(s.log.records) && !(step.TurnOn? && step.opens && !s.log.enabled) { NothingFollowsTheEnd(s, step); }
    match step
    case Check(_, _) | Acquire(_) | Perform(_, _, _, _) => CallStepKeeps(s, step);
    case TurnOn(t, session, opens) => TurnOnKeeps(s, t, session, opens);
    case StartRecord(t, fields, o) => StartRecordKeeps(s, t, At(s, t).next, fields, o);
    case TurnOff(t, reason, duration, o) => TurnOffKeeps(s, t, reason, duration, o);
    case Finish(t) => FinishKeeps(s, t);
  }

  lemma {:induction false} RunKeeps(s: State, steps: seq<Step>)
    requires Kept(s) && Run(s, steps)
    ensures Kept(After(s, steps))
    decreases |steps|
  {
    hide Kept, Apply, Enabled;
    if steps != [] {
      StepKeeps(s, steps[0]);
      RunKeeps(Apply(s, steps[0]), steps[1..]);
    }
  }

  lemma {:induction false} InitialIsKept()
    ensures Kept(INITIAL)
  {
  }

  // In every run the current capture is numbered 1 to n without a gap, is written one
  // line a record unless a write was torn, and its end record, which nothing follows,
  // reports n records and the true numbers of warnings and errors.
  lemma {:induction false} EveryCaptureIsProper(steps: seq<Step>)
    requires Run(INITIAL, steps)
    ensures var log := After(INITIAL, steps).log;
            && ProperCapture(log.records)
            && (!log.torn <==> log.text == Text(log.records))
            && (!log.torn ==> Lines(log.text) == Written(log.records))
  {
    InitialIsKept();
    RunKeeps(INITIAL, steps);
    var log := After(INITIAL, steps).log;
    assert ProperCapture(log.records) && ProperText(log);
    hide Run, After;
    OneLineEach(log.records);
  }
}
