/** The support log of the Vita client: what one locked section does to the shared state,
    and every interleaving of such sections by any number of threads. */
module SupportLog {
  import opened HostText
  import opened Numerals
  import opened SupportRecords

  const U32: nat := 0x1_0000_0000

  // The records a capture starts with, and the one it ends with.
  function StartEvent(index: nat): string {
    if index == 0 then "session.start"
    else if index == 1 then "system.snapshot"
    else if index == 2 then "config.snapshot"
    else "connection.snapshot"
  }

  function EndEvent(): string {
    "session.end"
  }

  // The state behind print_mutex. The records whose write completed are kept beside the
  // text of the file; torn says that some write stopped part way.
  datatype Log = Log(enabled: bool, open: bool, session: nat, sequence: nat, warnings: nat, errors: nat,
                     suppressed: nat, records: seq<Record>, text: string, torn: bool)

  // What the clock and the file say to one record: whether a closed file can be opened
  // again, and how many characters fwrite takes.
  datatype Outcome = Outcome(stamp: string, opens: bool, count: nat)

  // ----- one record -----

  function NextRecord(log: Log, level: Level, event: string, fields: string, o: Outcome): Record {
    Record(o.stamp, log.session, log.sequence + 1, level, Token(Some(event), EVENT_SIZE), fields)
  }

  predicate Completes(log: Log, level: Level, event: string, fields: string, o: Outcome) {
    (log.open || o.opens) && o.count >= |Line(NextRecord(log, level, event, fields, o))|
  }

  // write_record_locked
  function Write(log: Log, level: Level, event: string, fields: string, o: Outcome): Log {
    var r := NextRecord(log, level, event, fields, o);
    var line := Line(r);
    if !log.open && !o.opens then log
    else if o.count < |line| then
      log.(open := true, text := log.text + line[..o.count], torn := log.torn || o.count > 0)
    else
      log.(open := true, text := log.text + line, records := log.records + [r], sequence := r.sequence,
           warnings := if level == Warning then (log.warnings + 1) % U32 else log.warnings,
           errors := if level == Error then (log.errors + 1) % U32 else log.errors)
  }

  // ----- the locked sections -----

  datatype Call = Event(level: Level, event: string, fields: string) | Legacy(category: string)

  function LegacyFields(category: string, repeats: nat): string {
    "source=compat category=" + category + " repeats_suppressed=" + Decimal(repeats)
  }

  function EndFields(reason: string, duration: nat, records: nat, warnings: nat, errors: nat, suppressed: nat): string {
    "reason=" + reason + " duration_ms=" + Decimal(duration) + " records=" + Decimal(records)
    + " warnings=" + Decimal(warnings) + " errors=" + Decimal(errors) + " legacy_suppressed=" + Decimal(suppressed)
  }

  // The locked part of vita_debug_event and vita_debug_log, with the answer of the rate
  // limiter to a legacy message.
  function Performed(log: Log, call: Call, limited: bool, repeats: nat, o: Outcome): Log {
    if !log.enabled then log
    else match call
      case Event(level, event, fields) => Write(log, level, event, Sanitized(fields), o)
      case Legacy(category) =>
        if limited then log.(suppressed := (log.suppressed + 1) % U32)
        else Write(log, Error, "error.legacy", LegacyFields(category, repeats), o)
  }

  // Turning capture on, up to the point where the flag is set.
  function Opened(log: Log, session: nat, opens: bool): Log {
    var emptied := log.(open := false, session := session, sequence := 0, warnings := 0, errors := 0, suppressed := 0);
    if opens then emptied.(enabled := true, open := true, records := [], text := "", torn := false)
    else emptied.(enabled := false)
  }

  // One of the four records a capture starts with; if it cannot be written the capture
  // is given up.
  function StartStep(log: Log, index: nat, fields: string, o: Outcome): Log
    requires index < 4
  {
    var after := Write(log, Info, StartEvent(index), fields, o);
    if Completes(log, Info, StartEvent(index), fields, o) then after else after.(enabled := false, open := false)
  }

  // The record that ends a capture.
  function EndStep(log: Log, reason: string, duration: nat, o: Outcome): Log {
    Write(log, Info, EndEvent(),
          EndFields(reason, duration, log.sequence + 1, log.warnings, log.errors, log.suppressed), o)
  }

  function Closed(log: Log): Log {
    log.(enabled := false, open := false)
  }

  // ----- threads -----

  // Where a thread is. Locked, Starting and Ended hold the mutex.
  datatype Pc = Idle | Checked(call: Call) | Locked(call: Call) | Starting(next: nat) | Ended

  datatype State = State(log: Log, lock: Option<nat>, threads: map<nat, Pc>)

  function At(s: State, thread: nat): Pc {
    if thread in s.threads then s.threads[thread] else Idle
  }

  predicate Holds(pc: Pc) {
    pc.Locked? || pc.Starting? || pc.Ended?
  }

  datatype Step =
    | Check(thread: nat, call: Call)
    | Acquire(thread: nat)
    | Perform(thread: nat, limited: bool, repeats: nat, outcome: Outcome)
    | TurnOn(thread: nat, session: nat, opens: bool)
    | StartRecord(thread: nat, fields: string, outcome: Outcome)
    | TurnOff(thread: nat, reason: string, duration: nat, outcome: Outcome)
    | Finish(thread: nat)

  // No caller writes the end record itself, and what the client formats on its own is
  // plain text.
  predicate ProperCall(call: Call) {
    match call
    case Event(_, event, _) => event != EndEvent()
    case Legacy(category) => Plain(category)
  }

  predicate Enabled(s: State, step: Step) {
    match step
    case Check(t, call) => At(s, t) == Idle && s.log.enabled && ProperCall(call)
    case Acquire(t) => At(s, t).Checked? && s.lock == None
    case Perform(t, _, _, o) => At(s, t).Locked? && Plain(o.stamp)
    case TurnOn(t, _, _) => At(s, t) == Idle && s.lock == None
    case StartRecord(t, fields, o) => At(s, t).Starting? && At(s, t).next < 4 && Plain(fields) && Plain(o.stamp)
    case TurnOff(t, reason, _, o) => At(s, t) == Idle && s.lock == None && Plain(reason) && Plain(o.stamp)
    case Finish(t) => At(s, t).Ended?
  }

  function Moved(s: State, thread: nat, pc: Pc, lock: Option<nat>, log: Log): State {
    State(log, lock, s.threads[thread := pc])
  }

  function Apply(s: State, step: Step): State
    requires Enabled(s, step)
  {
    match step
    case Check(t, call) => Moved(s, t, Checked(call), s.lock, s.log)
    case Acquire(t) => Moved(s, t, Locked(At(s, t).call), Some(t), s.log)
    case Perform(t, limited, repeats, o) =>
      Moved(s, t, Idle, None, Performed(s.log, At(s, t).call, limited, repeats, o))
    case TurnOn(t, session, opens) =>
      if s.log.enabled then s
      else if opens then Moved(s, t, Starting(0), Some(t), Opened(s.log, session, true))
      else s.(log := Opened(s.log, session, false))
    case StartRecord(t, fields, o) =>
      var next := At(s, t).next;
      var after := StartStep(s.log, next, fields, o);
      if after.enabled && next < 3 then Moved(s, t, Starting(next + 1), Some(t), after)
      else Moved(s, t, Idle, None, after)
    case TurnOff(t, reason, duration, o) =>
      if s.log.enabled then Moved(s, t, Ended, Some(t), EndStep(s.log, reason, duration, o))
      else s.(log := Closed(s.log))
    case Finish(t) => Moved(s, t, Idle, None, Closed(s.log))
  }

  predicate Run(s: State, steps: seq<Step>)
    decreases |steps|
  {
    steps == [] || (Enabled(s, steps[0]) && Run(Apply(s, steps[0]), steps[1..]))
  }

  function After(s: State, steps: seq<Step>): State
    requires Run(s, steps)
    decreases |steps|
  {
    if steps == [] then s else After(Apply(s, steps[0]), steps[1..])
  }

  // vita_debug_init
  const INITIAL: State := State(Log(false, false, 0, 0, 0, 0, 0, [], "", false), None, map[])

  // ----- what holds in every run -----

  function Count(records: seq<Record>, level: Level): nat {
    if records == [] then 0
    else Count(records[..|records| - 1], level) + (if records[|records| - 1].level == level then 1 else 0)
  }

  ghost predicate TruthfulEnd(records: seq<Record>) {
    exists reason, duration, suppressed ::
      records != [] && records[|records| - 1].fields ==
      EndFields(reason, duration, |records|, Count(records, Warning) % U32, Count(records, Error) % U32, suppressed)
  }

  predicate HasEnd(records: seq<Record>) {
    exists i | 0 <= i < |records| :: records[i].event == EndEvent()
  }

  // A capture: numbered from one without a gap, all of one session, starting with the
  // four snapshots, and nothing after an end record, which tells the truth.
  ghost predicate ProperCapture(records: seq<Record>) {
    && (forall i | 0 <= i < |records| :: records[i].sequence == i + 1)
    && (forall i | 0 <= i < |records| :: records[i].session == records[0].session)
    && (forall i | 0 <= i < |records| :: PlainRecord(records[i]))
    && (forall i | 0 <= i < |records| && i < 4 :: records[i].event == StartEvent(i))
    && (forall i | 0 <= i < |records| - 1 :: records[i].event != EndEvent())
    && (HasEnd(records) ==> TruthfulEnd(records))
  }

  // The file holds the written records and, unless a write was torn, nothing else.
  predicate ProperText(log: Log) {
    && (!log.torn ==> log.text == Text(log.records))
    && (log.torn ==> |log.text| > |Text(log.records)|)
  }

  // While the flag is set the counters describe the file.
  predicate Counted(log: Log) {
    log.enabled ==>
      && log.open
      && log.sequence == |log.records|
      && (log.records != [] ==> log.records[0].session == log.session)
      && log.warnings == Count(log.records, Warning) % U32
      && log.errors == Count(log.records, Error) % U32
  }

  // The mutex is held by exactly the thread that is inside a locked section.
  ghost predicate LockKept(s: State) {
    forall t: nat :: Holds(At(s, t)) <==> s.lock == Some(t)
  }

  // What the holder of the mutex is in the middle of, or Idle if nobody holds it.
  predicate HolderFits(pc: Pc, log: Log) {
    match pc
    case Starting(next) => log.enabled && next < 4 && |log.records| == next
    case Ended => log.enabled && |log.records| >= 4
    case _ => log.enabled ==> |log.records| >= 4 && !HasEnd(log.records)
  }

  function Holder(s: State): Pc {
    if s.lock == None then Idle else At(s, s.lock.value)
  }

  predicate CallsKept(s: State) {
    forall t | t in s.threads ::
      match s.threads[t]
      case Checked(call) => ProperCall(call)
      case Locked(call) => ProperCall(call)
      case _ => true
  }

  ghost predicate Kept(s: State) {
    ProperCapture(s.log.records) && ProperText(s.log) && Counted(s.log)
      && LockKept(s) && HolderFits(Holder(s), s.log) && CallsKept(s)
  }

  // ----- one record keeps the capture in order -----

  lemma {:induction false} CountSnoc(records: seq<Record>, r: Record, level: Level)
    ensures Count(records + [r], level) == Count(records, level) + (if r.level == level then 1 else 0)
  {
    assert (records + [r])[..|records|] == records;
  }

  lemma {:induction false} CaptureSnoc(records: seq<Record>, r: Record)
    requires ProperCapture(records) && !HasEnd(records)
    requires r.sequence == |records| + 1 && PlainRecord(r)
    requires records != [] ==> r.session == records[0].session
    requires |records| < 4 ==> r.event == StartEvent(|records|)
    requires r.event == EndEvent() ==> TruthfulEnd(records + [r])
    ensures ProperCapture(records + [r])
    ensures HasEnd(records + [r]) <==> r.event == EndEvent()
  {
    hide TruthfulEnd, PlainRecord;
    var all := records + [r];
    assert all[|records|] == r;
    assert forall i | 0 <= i < |records| :: all[i] == records[i];
    assert HasEnd(all) ==> r.event == EndEvent();
  }

  lemma {:induction false} TextSnoc(log: Log, r: Record, count: nat)
    requires ProperText(log) && count <= |Line(r)|
    ensures ProperText(log.(text := log.text + Line(r), records := log.records + [r]))
    ensures ProperText(log.(text := log.text + Line(r)[..count], torn := log.torn || count > 0))
  {
    hide Line, Text;
    Snoc(log.records, r);
  }

  lemma {:induction false} PlainToken(event: string)
    ensures Plain(Token(Some(event), EVENT_SIZE))
  {
    hide Token;
    var t := Token(Some(event), EVENT_SIZE);
    assert forall i | 0 <= i < |t| :: TokenSafe(t[i]);
  }

  // Only the end record is written under the end record's name.
  lemma {:induction false} OnlyTheEndIsNamedEnd(event: string)
    requires Token(Some(event), EVENT_SIZE) == EndEvent()
    ensures event == EndEvent()
  {
    var kept := Map(TokenChar, event[..Min(|event|, EVENT_SIZE - 1)]);
    assert |EndEvent()| == 11 && |"unknown"| == 7;
    assert |kept| == 11 && event[..11] == event;
    forall i | 0 <= i < 11 ensures event[i] == EndEvent()[i] {
      assert kept[i] == TokenChar(event[i]) == EndEvent()[i];
    }
  }

  lemma {:induction false} NextIsPlain(log: Log, level: Level, event: string, fields: string, o: Outcome)
    requires Plain(fields) && Plain(o.stamp)
    ensures PlainRecord(NextRecord(log, level, event, fields, o))
  {
    PlainToken(event);
    hide Token;
  }

  lemma {:induction false} WriteKeepsText(log: Log, level: Level, event: string, fields: string, o: Outcome)
    requires ProperText(log)
    ensures ProperText(Write(log, level, event, fields, o))
  {
    var r := NextRecord(log, level, event, fields, o);
    TextSnoc(log, r, Min(o.count, |Line(r)|));
    hide Line, Text, NextRecord;
  }

  lemma {:induction false} WriteKeepsCounts(log: Log, level: Level, event: string, fields: string, o: Outcome)
    requires log.enabled && Counted(log)
    ensures Counted(Write(log, level, event, fields, o)) && Write(log, level, event, fields, o).enabled
    ensures Write(log, level, event, fields, o).records ==
            if Completes(log, level, event, fields, o) then log.records + [NextRecord(log, level, event, fields, o)]
            else log.records
  {
    var r := NextRecord(log, level, event, fields, o);
    CountSnoc(log.records, r, Warning);
    CountSnoc(log.records, r, Error);
    hide Line, Token, Count;
  }

  // What the log is after one record, written or not.
  lemma {:induction false} WriteKeeps(log: Log, level: Level, event: string, fields: string, o: Outcome)
    requires log.enabled && ProperCapture(log.records) && ProperText(log) && Counted(log)
    requires !HasEnd(log.records) && Plain(fields) && Plain(o.stamp)
    requires var r := NextRecord(log, level, event, fields, o);
             && (|log.records| < 4 ==> r.event == StartEvent(|log.records|))
             && (r.event == EndEvent() ==> TruthfulEnd(log.records + [r]))
    ensures var after := Write(log, level, event, fields, o);
            var r := NextRecord(log, level, event, fields, o);
            && after.enabled && ProperCapture(after.records) && ProperText(after) && Counted(after)
            && after.records == (if Completes(log, level, event, fields, o) then log.records + [r] else log.records)
            && (HasEnd(after.records) ==> r.event == EndEvent())
  {
    NextIsPlain(log, level, event, fields, o);
    WriteKeepsText(log, level, event, fields, o);
    WriteKeepsCounts(log, level, event, fields, o);
    var r := NextRecord(log, level, event, fields, o);
    assert r.sequence == |log.records| + 1 && r.session == log.session;
    hide Write, Completes, NextRecord, ProperCapture, ProperText, Counted, HasEnd, TruthfulEnd, PlainRecord;
    if Completes(log, level, event, fields, o) {
      CaptureSnoc(log.records, r);
    }
  }
}
