/** Concrete runs that show where the guarantees stop, one for each hypothesis that the
    theorems on tokens, the idle window, named containers and shutdown carry. */
module Limits {
  import opened Lifecycle
  import opened Protocol
  import opened Tokens
  import opened IdleWindow
  import opened NamedRuntime
  import opened ScanPool
  import opened ScanPoolNames

  const EMPTY := Sys(0, false, map[], [], [], [], [], [])

  /** One function "f", registered active at time zero with an idle window of ten. */
  const FRESH := NewEntry("f", Active, 10, true, 0)
  const REGISTERED := Sys(0, false, map["f" := 0], [FRESH], [Returned(Done)], [], [true], [])

  /** The state occurs in a run that removes and replaces names only while no token of
      their entry is outstanding. */
  ghost predicate PatientlyReachable(s: Sys) {
    exists states, steps :: IsPatientRun(states, steps) && states[|steps|] == s
  }

  ghost predicate IsPatientRun(states: seq<Sys>, steps: seq<Step>) {
    IsRun(states, steps) && forall k :: 0 <= k < |steps| ==> Patient(states[k], steps[k])
  }

  lemma PatientInit(s: Sys)
    requires Init(s)
    ensures PatientlyReachable(s)
  {
    var none: seq<Step> := [];
    assert IsPatientRun([s], none) && [s][|none|] == s;
  }

  lemma PatientStep(s: Sys, step: Step, s': Sys)
    requires PatientlyReachable(s) && Enabled(s, step) && Patient(s, step) && s' == Do(s, step)
    ensures PatientlyReachable(s') && Reachable(s')
  {
    var states, steps :| IsPatientRun(states, steps) && states[|steps|] == s;
    assert IsRun(states + [s'], steps + [step]);
    assert IsPatientRun(states + [s'], steps + [step]);
    assert (states + [s'])[|steps + [step]|] == s';
  }

  lemma RegisteredIsReachable()
    ensures PatientlyReachable(REGISTERED) && Reachable(REGISTERED)
  {
    PatientInit(EMPTY);
    var s1 := EMPTY.(threads := [Installing(FRESH)]);
    PatientStep(EMPTY, Call(Register("f", Active, 10, true)), s1);
    PatientStep(s1, Run(0), REGISTERED);
  }

  /** An invocation with a callback has looked "f" up. */
  const INVOKING := REGISTERED.(threads := [Returned(Done), Enter(StartInvocation, 0, Begin)])

  lemma InvokingIsReachable()
    ensures PatientlyReachable(INVOKING) && Reachable(INVOKING)
  {
    RegisteredIsReachable();
    var s1 := REGISTERED.(threads := [Returned(Done), Lookup(StartInvocation, "f", Begin)]);
    PatientStep(REGISTERED, Call(Invoke("f", true)), s1);
    PatientStep(s1, Run(1), INVOKING);
  }

  const ADMITTED := REGISTERED.(
    entries := [FRESH.(state := Blocked, inFlight := 1, generation := 1)],
    threads := [Returned(Done), Returned(Admitted)],
    tokens := [Token("f", 0, true, false, false)])

  lemma AdmittedIsReachable()
    ensures Reachable(ADMITTED)
  {
    InvokingIsReachable();
    ReachStep(INVOKING, Run(1), ADMITTED);
  }

  const REPLACED := ADMITTED.(
    registry := map["f" := 1],
    entries := ADMITTED.entries + [FRESH],
    threads := ADMITTED.threads + [CloseCheck(0)],
    born := [true, true])

  lemma ReplacedIsReachable()
    ensures Reachable(REPLACED)
  {
    AdmittedIsReachable();
    var s1 := ADMITTED.(threads := ADMITTED.threads + [Installing(FRESH)]);
    ReachStep(ADMITTED, Call(Register("f", Active, 10, true)), s1);
    ReachStep(s1, Run(2), REPLACED);
  }

  /** The callback has claimed its token. */
  const CLAIMED := REPLACED.(
    threads := REPLACED.threads + [Lookup(EndInvocation, "f", Callback(0))],
    tokens := [Token("f", 0, true, true, false)])

  lemma ClaimedIsReachable()
    ensures Reachable(CLAIMED)
  {
    ReplacedIsReachable();
    var s1 := REPLACED.(threads := REPLACED.threads + [Claim(0)]);
    ReachStep(REPLACED, Call(CallBack(0)), s1);
    ReachStep(s1, Run(3), CLAIMED);
  }

  /** Replacing a name while an invocation is outstanding: its callback finds the new
      entry, and the counter of the old one is left at one with no token to end it. */
  lemma ReplacementLosesAnEnd() returns (s: Sys)
    ensures Reachable(s)
    ensures |s.tokens| == 1 && s.tokens[0].entry == 0 && s.tokens[0].settled
    ensures |s.entries| == 2 && s.entries[0].inFlight == 1 && Outstanding(s.tokens, 0) == 0
  {
    ClaimedIsReachable();
    var s1 := CLAIMED.(threads := REPLACED.threads + [Enter(EndInvocation, 1, Callback(0))]);
    s := REPLACED.(
      entries := [REPLACED.entries[0], FRESH.(generation := 1)],
      threads := REPLACED.threads + [Returned(Ended)],
      tokens := [Token("f", 0, true, true, true)]);
    ReachStep(CLAIMED, Run(3), s1);
    ReachStep(s1, Run(3), s);
  }

  const ORPHANED := REGISTERED.(
    registry := map[],
    entries := [FRESH.(closes := 1)],
    threads := [Returned(Done), Enter(StartInvocation, 0, Begin), Returned(Done)])

  const DELISTED := INVOKING.(threads := INVOKING.threads + [CloseCheck(0)], registry := map[])

  lemma DelistedIsReachable()
    ensures PatientlyReachable(DELISTED)
  {
    InvokingIsReachable();
    var s1 := INVOKING.(threads := INVOKING.threads + [Removing("f")]);
    PatientStep(INVOKING, Call(Unregister("f")), s1);
    assert INVOKING.registry - {"f"} == map[];
    PatientStep(s1, Run(2), DELISTED);
  }

  lemma OrphanedIsReachable()
    ensures PatientlyReachable(ORPHANED)
  {
    DelistedIsReachable();
    var s1 := DELISTED.(threads := INVOKING.threads + [CloseNow(0)]);
    PatientStep(DELISTED, Run(2), s1);
    PatientStep(s1, Run(2), ORPHANED);
  }

  /** The invocation is admitted all the same. */
  const STRANDED := ORPHANED.(
    entries := [FRESH.(closes := 1, state := Blocked, inFlight := 1, generation := 1)],
    threads := [Returned(Done), Returned(Admitted), Returned(Done)],
    tokens := [Token("f", 0, true, false, false)])

  /** The name is registered again. */
  const RENEWED := STRANDED.(
    registry := map["f" := 1],
    entries := STRANDED.entries + [FRESH],
    threads := STRANDED.threads + [Returned(Done)],
    born := [true, true])

  lemma StrandedIsReachable()
    ensures PatientlyReachable(STRANDED)
  {
    OrphanedIsReachable();
    PatientStep(ORPHANED, Run(1), STRANDED);
  }

  lemma RenewedIsReachable()
    ensures PatientlyReachable(RENEWED)
  {
    StrandedIsReachable();
    var s1 := STRANDED.(threads := STRANDED.threads + [Installing(FRESH)]);
    PatientStep(STRANDED, Call(Register("f", Active, 10, true)), s1);
    PatientStep(s1, Run(3), RENEWED);
  }

  /** The callback has claimed its token and is about to look its name up. */
  const RETURNING := RENEWED.(
    threads := RENEWED.threads + [Lookup(EndInvocation, "f", Callback(0))],
    tokens := [Token("f", 0, true, true, false)])

  lemma ReturningIsReachable()
    ensures PatientlyReachable(RETURNING)
  {
    RenewedIsReachable();
    var s1 := RENEWED.(threads := RENEWED.threads + [Claim(0)]);
    PatientStep(RENEWED, Call(CallBack(0)), s1);
    PatientStep(s1, Run(4), RETURNING);
  }

  /** An invocation that looked its entry up is still admitted after the entry was
      unregistered with no token outstanding. When the name is registered again, its
      callback ends on the new entry, and the counter of the old one is left at one with no
      token to end it. This is why the discipline also covers admissions under way. */
  lemma AdmissionAfterRemoval() returns (late: Sys, s: Sys)
    ensures PatientlyReachable(late) && "f" !in late.registry && |late.entries| == 1 && late.entries[0].closes == 1
    ensures |late.tokens| == 1 && !late.tokens[0].settled && late.entries[0].inFlight == 1
    ensures PatientlyReachable(s) && |s.entries| == 2
    ensures |s.tokens| == 1 && s.tokens[0].entry == 0 && s.tokens[0].settled
    ensures s.entries[0].inFlight == 1 && Outstanding(s.tokens, 0) == 0
  {
    StrandedIsReachable();
    ReturningIsReachable();
    late := STRANDED;
    var s1 := RETURNING.(threads := RENEWED.threads + [Enter(EndInvocation, 1, Callback(0))]);
    s := RENEWED.(
      entries := [STRANDED.entries[0], FRESH.(generation := 1)],
      threads := RENEWED.threads + [Returned(Ended)],
      tokens := [Token("f", 0, true, true, true)]);
    PatientStep(RETURNING, Run(4), s1);
    PatientStep(s1, Run(4), s);
  }

  /** A batch stamped at time 0 has looked "f" up. */
  const BATCHING := REGISTERED.(threads := [Returned(Done), Enter(BatchActivity(0), 0, Batch([]))])

  lemma BatchingIsReachable()
    ensures Reachable(BATCHING)
  {
    RegisteredIsReachable();
    var s1 := REGISTERED.(threads := [Returned(Done), Lookup(BatchActivity(0), "f", Batch([]))]);
    assert ["f"][1..] == [];
    ReachStep(REGISTERED, Call(RecordBatch(["f"])), s1);
    ReachStep(s1, Run(1), BATCHING);
  }

  const RECORDING := BATCHING.(
    clock := 100,
    threads := BATCHING.threads + [Lookup(RecordActivity, "f", Plain)])

  lemma RecordingIsReachable()
    ensures Reachable(RECORDING)
  {
    BatchingIsReachable();
    ReachStep(BATCHING, Tick(100), BATCHING.(clock := 100));
    ReachStep(BATCHING.(clock := 100), Call(Record("f")), RECORDING);
  }

  /** "f" was used at time 100 while a batch stamped at time 0 waits for the entry. */
  const USED := REGISTERED.(
    clock := 100,
    entries := [FRESH.(lastAccess := 100, lastActive := 100)],
    threads := [Returned(Done), Enter(BatchActivity(0), 0, Batch([])), Returned(Touched)])

  lemma UsedIsReachable()
    ensures Reachable(USED)
  {
    RecordingIsReachable();
    var s1 := RECORDING.(threads := BATCHING.threads + [Enter(RecordActivity, 0, Plain)]);
    ReachStep(RECORDING, Run(2), s1);
    ReachStep(s1, Run(2), USED);
  }

  /** The batch has gone through; the clock moved on by five. */
  const BACKDATED := USED.(
    clock := 105,
    entries := [FRESH.(lastAccess := 0, lastActive := 0)],
    threads := [Returned(Done), Returned(Touched), Returned(Touched)])

  lemma BackdatedIsReachable()
    ensures Reachable(BACKDATED)
  {
    UsedIsReachable();
    ReachStep(USED, Run(1), BACKDATED.(clock := 100));
    ReachStep(BACKDATED.(clock := 100), Tick(5), BACKDATED);
  }

  /** A batch takes its stamp before it locks: the entry was active at time 100 with a
      window of ten, yet a scan at time 105 commits to stopping it. */
  lemma BatchDefeatsTheWindow() returns (before: Sys, s: Sys)
    ensures Reachable(before) && Enabled(before, Run(1)) && |before.entries| == 1 && Backdates(before, Run(1), 0)
    ensures Reachable(s) && s.clock == 105 && |s.threads| == 4 && s.threads[3] == StopCheck(0) && |s.entries| == 1
    ensures before.entries[0].lastActive == 100 == s.clock - 5 && s.entries[0].idleDuration == 10
  {
    UsedIsReachable();
    BackdatedIsReachable();
    before := USED;
    var s1 := BACKDATED.(threads := BACKDATED.threads + [Enter(IdleScan, 0, Plain)]);
    s := BACKDATED.(
      threads := BACKDATED.threads + [StopCheck(0)],
      entries := [FRESH.(lastAccess := 0, lastActive := 0, state := ScalingDown, generation := 1)]);
    ReachStep(BACKDATED, Call(Scan(0)), s1);
    ReachStep(s1, Run(3), s);
  }

  const SUPERSEDED := REGISTERED.(
    registry := map["f" := 1],
    entries := [FRESH, FRESH],
    threads := [Returned(Done), Enter(ScaleDownWhenIdle, 0, Plain), CloseCheck(0)],
    born := [true, true])

  /** A forced scale-down has looked "f" up. */
  const DOWNING := REGISTERED.(threads := [Returned(Done), Enter(ScaleDownWhenIdle, 0, Plain)])

  lemma DowningIsReachable()
    ensures Reachable(DOWNING)
  {
    RegisteredIsReachable();
    var s1 := REGISTERED.(threads := [Returned(Done), Lookup(ScaleDownWhenIdle, "f", Plain)]);
    ReachStep(REGISTERED, Call(ScaleDown("f")), s1);
    ReachStep(s1, Run(1), DOWNING);
  }

  lemma SupersededIsReachable()
    ensures Reachable(SUPERSEDED)
  {
    DowningIsReachable();
    var s1 := DOWNING.(threads := DOWNING.threads + [Installing(FRESH)]);
    ReachStep(DOWNING, Call(Register("f", Active, 10, true)), s1);
    ReachStep(s1, Run(2), SUPERSEDED);
  }

  /** A scale-down that looked the entry up before it was replaced stops the containers
      of the new registration, although nothing was replaced during the host call. */
  lemma StaleScaleDownStopsSuccessor() returns (s: Sys)
    ensures Reachable(s) && "f" in s.registry && s.registry["f"] == 1 && |s.entries| == 2
    ensures s.entries[1].state == Active && !NameRunning(s.log, s.entries, "f", {"f"})
  {
    SupersededIsReachable();
    var s1 := SUPERSEDED.(
      threads := [Returned(Done), Host(Down, ScaleDownWhenIdle, 0), CloseCheck(0)],
      entries := [FRESH.(state := ScalingDown, generation := 1), FRESH]);
    s := s1.(threads := [Returned(Done), Commit(Down, ScaleDownWhenIdle, 0, true), CloseCheck(0)],
             log := [HostEvent(1, 0, Down)]);
    ReachStep(SUPERSEDED, Run(1), s1);
    ReachStep(s1, HostReturn(1, true), s);
  }

  const IDLE_POOL := Pool(EMPTY, 1, false, NotStarted, false, [], 0, [], 0, map[], {}, [], Unused, 0, false)
  const STOPPING_POOL := IDLE_POOL.(stoppers := [ClosingDone], once := Busy, sys := EMPTY.(stopped := true))

  const SIGNALLING_POOL := IDLE_POOL.(stoppers := [Signalling], once := Busy)

  lemma SignallingPoolIsReachable()
    ensures PoolReachable(SIGNALLING_POOL)
  {
    PoolReachInit(IDLE_POOL);
    PoolReachStep(IDLE_POOL, StopCall, IDLE_POOL.(stoppers := [Entering]));
    PoolReachStep(IDLE_POOL.(stoppers := [Entering]), StopperMove(0), SIGNALLING_POOL);
  }

  lemma StoppingPoolIsReachable()
    ensures PoolReachable(STOPPING_POOL)
  {
    SignallingPoolIsReachable();
    var p1 := STOPPING_POOL.(stoppers := [Reading]);
    PoolReachStep(SIGNALLING_POOL, StopperMove(0), p1);
    PoolReachStep(p1, StopperMove(0), STOPPING_POOL);
  }

  /** A first Start after Stop: Stop closes doneChan because no monitor ran, and the
      monitor that starts afterwards closes it again. */
  lemma LateStartClosesTwice() returns (p: Pool)
    ensures LateStart(STOPPING_POOL, StartCall) && PoolReachable(STOPPING_POOL)
    ensures PoolReachable(p) && p.doneCloses == 2
  {
    StoppingPoolIsReachable();
    var p1 := STOPPING_POOL.(started := true, monitor := Selecting);
    var p2 := p1.(stoppers := [AwaitingDone], once := Used, doneCloses := 1, closedByStop := true);
    var p3 := p2.(monitor := Exiting);
    p := p2.(monitor := Exited, doneCloses := 2);
    PoolReachStep(STOPPING_POOL, StartCall, p1);
    PoolReachStep(p1, StopperMove(0), p2);
    PoolReachStep(p2, SeeStop, p3);
    PoolReachStep(p3, CloseDone, p);
  }

  // ---- The monitor and a replaced name ----

  /** "f" has been idle for twenty, and the monitor has been started. */
  const IDLE_POOL_WITH_F := IDLE_POOL.(sys := REGISTERED.(clock := 20), started := true, monitor := Selecting)

  const INSTALLING := EMPTY.(threads := [Installing(FRESH)])

  lemma FirstRegistration()
    ensures Enabled(EMPTY, Call(Register("f", Active, 10, true)))
    ensures Do(EMPTY, Call(Register("f", Active, 10, true))) == INSTALLING
    ensures Enabled(INSTALLING, Run(0)) && Do(INSTALLING, Run(0)) == REGISTERED
  {
  }

  lemma RegisteredPoolIsReachable()
    ensures PoolReachable(IDLE_POOL.(sys := REGISTERED))
  {
    FirstRegistration();
    PoolReachInit(IDLE_POOL);
    PoolReachStep(IDLE_POOL, Protocol(Call(Register("f", Active, 10, true))), IDLE_POOL.(sys := INSTALLING));
    PoolReachStep(IDLE_POOL.(sys := INSTALLING), Protocol(Run(0)), IDLE_POOL.(sys := REGISTERED));
  }

  lemma IdlePoolWithFIsReachable()
    ensures PoolReachable(IDLE_POOL_WITH_F)
  {
    RegisteredPoolIsReachable();
    var p1 := IDLE_POOL.(sys := REGISTERED.(clock := 20));
    PoolReachStep(IDLE_POOL.(sys := REGISTERED), Protocol(Tick(20)), p1);
    PoolReachStep(p1, StartCall, IDLE_POOL_WITH_F);
  }

  /** A scan has put "f" into its queue; its only worker has not taken it yet. */
  const SCANNING_POOL := IDLE_POOL_WITH_F.(
    monitor := Scanning, tickInProgress := true, snapshot := [0], workers := [Fetching], waitGroup := 1)

  lemma ScanningPoolIsReachable()
    ensures PoolReachable(SCANNING_POOL)
  {
    IdlePoolWithFIsReachable();
    var p1 := IDLE_POOL_WITH_F.(monitor := Flagged, tickInProgress := true);
    PoolReachStep(IDLE_POOL_WITH_F, TickFires, p1);
    assert 0 in p1.sys.registry.Values by { assert p1.sys.registry["f"] == 0; }
    assert seq(1, _ => Fetching) == [Fetching];
    PoolReachStep(p1, TakeSnapshot([0]), SCANNING_POOL);
  }

  const HOLDING_POOL := SCANNING_POOL.(workers := [Holding(0)], next := 1)

  lemma HoldingPoolIsReachable()
    ensures PoolReachable(HOLDING_POOL)
  {
    ScanningPoolIsReachable();
    PoolReachStep(SCANNING_POOL, WorkerMove(0), HOLDING_POOL);
  }

  const AGAIN := NewEntry("f", Active, 10, true, 20)

  /** The worker holds "f" while the name is being registered again. */
  const REGISTERING_POOL := SCANNING_POOL.(
    workers := [Holding(0)], next := 1,
    sys := REGISTERED.(clock := 20, threads := [Returned(Done), Installing(AGAIN)]))

  lemma RegisteringPoolIsReachable()
    ensures PoolReachable(REGISTERING_POOL)
  {
    HoldingPoolIsReachable();
    PoolReachStep(HOLDING_POOL, Protocol(Call(Register("f", Active, 10, true))), REGISTERING_POOL);
  }

  const SUCCEEDED := REGISTERED.(
    clock := 20,
    registry := map["f" := 1],
    entries := [FRESH, AGAIN],
    threads := [Returned(Done), CloseCheck(0)],
    born := [true, true])

  const SUCCEEDED_POOL := REGISTERING_POOL.(sys := SUCCEEDED)

  /** The worker has decided to stop the entry that was replaced. */
  const STALE_POOL := SUCCEEDED_POOL.(
    workers := [Working(0, 2)], examinedBy := map[0 := 0],
    sys := SUCCEEDED.(
      entries := [FRESH.(state := ScalingDown, generation := 1), AGAIN],
      threads := [Returned(Done), CloseCheck(0), StopCheck(0)]))

  lemma SucceededLeadsToStale(q: Pool)
    requires Leads(STALE_POOL, q)
    ensures Leads(SUCCEEDED_POOL, q)
  {
    var p1 := STALE_POOL.(
      sys := SUCCEEDED.(threads := [Returned(Done), CloseCheck(0), Enter(IdleScan, 0, Plain)]));
    assert Advance(p1, Protocol(Run(2))) == STALE_POOL;
    LeadsOn(p1, Protocol(Run(2)), q);
    assert Advance(SUCCEEDED_POOL, WorkerMove(0)) == p1;
    LeadsOn(SUCCEEDED_POOL, WorkerMove(0), q);
  }

  lemma StaleLeadsToStopped() returns (q: Pool)
    ensures Leads(STALE_POOL, q)
    ensures q.sys.entries == STALE_POOL.sys.entries && q.sys.registry == STALE_POOL.sys.registry
    ensures q.sys.log == [HostEvent(2, 0, Down)]
  {
    var p1 := STALE_POOL.(
      sys := STALE_POOL.sys.(threads := [Returned(Done), CloseCheck(0), Host(Down, IdleScan, 0)]));
    q := STALE_POOL.(
      sys := STALE_POOL.sys.(
        threads := [Returned(Done), CloseCheck(0), Commit(Down, IdleScan, 0, true)],
        log := [HostEvent(2, 0, Down)]));
    LeadsHere(q);
    assert Advance(p1, Protocol(HostReturn(2, true))) == q;
    LeadsOn(p1, Protocol(HostReturn(2, true)), q);
    assert Advance(STALE_POOL, Protocol(Run(2))) == p1;
    LeadsOn(STALE_POOL, Protocol(Run(2)), q);
  }

  lemma RegistrationGoesThrough()
    ensures CanDo(REGISTERING_POOL, Protocol(Run(1)))
    ensures Advance(REGISTERING_POOL, Protocol(Run(1))) == SUCCEEDED_POOL
  {
  }

  lemma RegistrationLooksCareful()
    ensures var p := REGISTERING_POOL;
      Truthful(p.sys, AGAIN, {"f"}) && NotHeld(p.sys, 0) && Queued(p, 0)
  {
    assert REGISTERING_POOL.snapshot[0] == 0;
  }

  /** The monitor alone can do the same: a name is registered again in the state its
      containers are in and while no scaling call holds its entry, but the entry is still
      queued in a scan, whose worker then stops the containers of the new registration. */
  lemma QueuedScanStopsSuccessor() returns (before: Pool, after: Pool)
    ensures PoolReachable(before) && CanDo(before, Protocol(Run(1)))
    ensures before.sys.threads[1].Installing? && Truthful(before.sys, before.sys.threads[1].incoming, {"f"})
    ensures before.sys.registry == map["f" := 0] && before.sys.threads[1].incoming.name == "f"
    ensures NotHeld(before.sys, 0) && Queued(before, 0)
    ensures Leads(Advance(before, Protocol(Run(1))), after)
    ensures "f" in after.sys.registry && after.sys.registry["f"] == 1 && |after.sys.entries| == 2
    ensures after.sys.entries[1].state == Active && !NameRunning(after.sys.log, after.sys.entries, "f", {"f"})
  {
    RegisteringPoolIsReachable();
    RegistrationGoesThrough();
    RegistrationLooksCareful();
    before := REGISTERING_POOL;
    after := StaleLeadsToStopped();
    SucceededLeadsToStale(after);
  }
}
