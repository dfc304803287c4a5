/** Whole runs of the companion: requests of every kind, one after the other. */
module SessionRuns {
  import opened Displays
  import opened DisplaySession
  import opened SessionOperations
  import opened EmergencyRecovery

  datatype Request =
    | StartSession(mode: Mode) | Prime | SetMode(mode: Mode, provisioned: bool) | RestoreSession
    | Recover(protectionInitialized: bool) | UserChanges(layout: Layout)

  // Any requests in any order, with any settings, and the user free to rearrange the
  // displays between them: the machine stays Valid throughout, that is, every step of
  // the run is a kept one.
  method Serve(m: Machine, requests: seq<Request>, settings: Settings)
    requires m.Valid()
    modifies m
    ensures m.Valid() && old(m.history) <= m.history
  {
    hide Kept, Confirmed, Witnessed, PhysicalActive, Machine.OnlyLayouts;
    for n := 0 to |requests|
      invariant m.Valid() && old(m.history) <= m.history
    {
      match requests[n]
      case StartSession(mode) => { var _, _, _, _, _ := Start(m, mode, settings); }
      case Prime => { var _, _, _ := PrimeNativeMode(m); }
      case SetMode(mode, provisioned) => { var _, _, _ := ChangeMode(m, mode, settings, provisioned); }
      case RestoreSession => { var _, _ := RestoreIfPending(m); }
      case Recover(initialized) => { var _, _ := RecoverPhysicalAndDiscardPendingTransaction(m, initialized); }
      case UserChanges(layout) => { m.Rearrange(layout); }
    }
  }

  // After any run, with operations that failed or were cut short anywhere in it, a restore
  // whose own calls succeed brings back the layout of the last moment without a record.
  method ServeAndRestore(m: Machine, requests: seq<Request>, settings: Settings)
    returns (outcome: Outcome, ghost served: seq<Moment>, ghost faults: nat)
    requires m.Valid()
    modifies m
    ensures m.Valid() && old(m.history) <= served <= m.history && Kept(served) && faults <= m.faults
    ensures m.faults == faults ==> outcome.Done? && m.record.None? && m.layout == LastWithoutRecord(served)
  {
    Serve(m, requests, settings);
    served, faults := m.history, m.faults;
    RecordHoldsTheOriginal(served);
    BaselineOfMoment(served, |served| - 1);
    hide *;
    var restored;
    outcome, restored := RestoreIfPending(m);
  }
}
