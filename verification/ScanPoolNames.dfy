/** The reported states and the containers of a name when the monitor scans as well: the
    condition is on who registers and removes names, not on the monitor. */
module ScanPoolNames {
  import opened Lifecycle
  import opened Protocol
  import opened Invariant
  import opened HostRuntime
  import opened NamedRuntime
  import opened ScanPool
  import opened ScanPoolSafety

  /** A scan is on whose workers will still examine the entry. */
  predicate Queued(p: Pool, e: nat) {
    && p.monitor == Scanning && !p.sys.stopped
    && exists job :: 0 <= job < |p.snapshot| && p.snapshot[job] == e && job !in p.examinedBy
  }

  /** No scaling call holds the entry and no worker is going to examine it. */
  predicate Untouched(p: Pool, e: nat) {
    NotHeld(p.sys, e) && !Queued(p, e)
  }

  /** A name is registered in the state its containers are in, and replaced or removed only
      while its entry is untouched. */
  predicate CarefulRegistry(p: Pool, step: PoolStep, initially: set<string>) {
    step.Protocol? && step.step.Run? && step.step.thread < |p.sys.threads| ==>
      var pc := p.sys.threads[step.step.thread];
      && (pc.Installing? ==>
            Truthful(p.sys, pc.incoming, initially)
            && (pc.incoming.name in p.sys.registry ==> Untouched(p, p.sys.registry[pc.incoming.name])))
      && (pc.Removing? && pc.name in p.sys.registry ==> Untouched(p, p.sys.registry[pc.name]))
  }

  predicate QueueRegistered(p: Pool) {
    p.monitor == Scanning && !p.sys.stopped ==>
      forall job :: 0 <= job < |p.snapshot| && job !in p.examinedBy ==>
        p.snapshot[job] < |p.sys.entries| && Registered(p.sys, p.snapshot[job])
  }

  ghost predicate NamesInv(p: Pool, initially: set<string>) {
    NoStaleHolds(p.sys) && Agrees(p.sys, initially) && QueueRegistered(p)
  }

  lemma SnapshotIsRegistered(p: Pool, order: seq<nat>)
    requires Inv(p.sys) && CanDo(p, TakeSnapshot(order))
    ensures QueueRegistered(BeginScan(p, order))
  {
    var p' := BeginScan(p, order);
    forall job | 0 <= job < |p'.snapshot|
      ensures p'.snapshot[job] < |p'.sys.entries| && Registered(p'.sys, p'.snapshot[job])
    {
      assert order[job] in p.sys.registry.Values;
    }
  }

  /** A step of the protocol only takes entries out of the registry that it replaces or
      removes. */
  lemma StepKeepsRegistered(s: Sys, step: Step, e: nat)
    requires Inv(s) && Enabled(s, step) && e < |s.entries| && Registered(s, e)
    requires step.Run? && s.threads[step.thread].Installing? ==>
               s.threads[step.thread].incoming.name != s.entries[e].name
    requires step.Run? && s.threads[step.thread].Removing? ==> s.threads[step.thread].name != s.entries[e].name
    ensures e < |Do(s, step).entries| && Registered(Do(s, step), e)
  {
    if step.Run? {
      RunKeepsRegistered(s, step.thread, e);
    }
  }

  lemma RunKeepsRegistered(s: Sys, t: nat, e: nat)
    requires Inv(s) && Enabled(s, Run(t)) && e < |s.entries| && Registered(s, e)
    requires s.threads[t].Installing? ==> s.threads[t].incoming.name != s.entries[e].name
    requires s.threads[t].Removing? ==> s.threads[t].name != s.entries[e].name
    ensures e < |RunThread(s, t).entries| && Registered(RunThread(s, t), e)
  {
    if s.threads[t].Enter? {
      SectionKeepsWellFormed(s.threads[t].op, s.entries[s.threads[t].entry], s.clock) by {
        assert EntryOk(s, s.threads[t].entry);
      }
      assert RunThread(s, t) == RunEnter(s, t);
    } else if !s.threads[t].Installing? && !s.threads[t].Removing? {
      RunKeepsNames(s, t);
      assert RunThread(s, t).registry == s.registry;
    }
  }

  lemma ProtocolKeepsQueue(p: Pool, inner: Step, initially: set<string>)
    requires Inv(p.sys) && QueueRegistered(p) && CanDo(p, Protocol(inner))
    requires CarefulRegistry(p, Protocol(inner), initially)
    ensures QueueRegistered(p.(sys := Do(p.sys, inner)))
  {
    ProtocolOnlyGrows(p.sys, inner);
    if p.monitor == Scanning && !p.sys.stopped {
      forall job | 0 <= job < |p.snapshot| && job !in p.examinedBy
        ensures p.snapshot[job] < |Do(p.sys, inner).entries| && Registered(Do(p.sys, inner), p.snapshot[job])
      {
        assert Queued(p, p.snapshot[job]);
        StepKeepsRegistered(p.sys, inner, p.snapshot[job]);
      }
    }
  }

  lemma WorkerKeepsQueue(p: Pool, w: nat)
    requires QueueRegistered(p) && CanWorkerMove(p, w)
    ensures QueueRegistered(MoveWorker(p, w))
  {
    var p' := MoveWorker(p, w);
    assert p'.sys.entries == p.sys.entries && p'.sys.registry == p.sys.registry && p'.sys.stopped == p.sys.stopped;
    assert p'.snapshot == p.snapshot && p'.monitor == p.monitor;
    assert forall job :: job in p.examinedBy ==> job in p'.examinedBy;
  }

  lemma StepKeepsQueue(p: Pool, step: PoolStep, initially: set<string>)
    requires PoolInv(p) && QueueRegistered(p) && CanDo(p, step) && CarefulRegistry(p, step, initially)
    ensures QueueRegistered(Advance(p, step))
  {
    match step
    case Protocol(inner) => ProtocolKeepsQueue(p, inner, initially);
    case TakeSnapshot(order) => SnapshotIsRegistered(p, order);
    case WorkerMove(w) => WorkerKeepsQueue(p, w);
    case _ =>
  }

  /** The monitor is careful by itself: what its workers scan is registered. */
  lemma EffectIsCareful(p: Pool, step: PoolStep, initially: set<string>)
    requires PoolInv(p) && QueueRegistered(p) && CanDo(p, step) && CarefulRegistry(p, step, initially)
    requires EffectOf(p, step).Takes?
    ensures Careful(p.sys, EffectOf(p, step).step, initially)
  {
    if step.WorkerMove? {
      assert WorkerOk(p, step.worker);
    }
  }

  lemma StepKeepsNamesInv(p: Pool, step: PoolStep, initially: set<string>)
    requires PoolInv(p) && HostInv(p.sys) && NamesInv(p, initially) && CanDo(p, step)
    requires CarefulRegistry(p, step, initially)
    ensures NamesInv(Advance(p, step), initially)
  {
    StepKeepsQueue(p, step, initially);
    EffectIsStep(p, step);
    match EffectOf(p, step)
    case Nothing =>
    case Takes(inner) =>
      EffectIsCareful(p, step, initially);
      StepKeepsHolds(p.sys, inner, initially);
      CareIsHarmless(p.sys, inner, initially);
      AgreementSurvivesIffHarmless(p.sys, inner, initially);
  }

  lemma PoolKeepsHostInv(states: seq<Pool>, steps: seq<PoolStep>, i: nat)
    requires IsPoolRun(states, steps) && i <= |steps|
    ensures HostInv(states[i].sys)
  {
    var run := PoolRunsProject(states, steps, i);
    RunKeepsHostInv(run.states, run.steps, run.at[i]);
    assert run.states[run.at[i]] == states[i].sys;
  }

  ghost predicate PoolAgreesUpTo(states: seq<Pool>, i: nat, initially: set<string>)
    requires i < |states|
  {
    forall k :: 0 <= k <= i ==> Agrees(states[k].sys, initially)
  }

  predicate HarmlessEffect(p: Pool, step: PoolStep, initially: set<string>)
    requires CanDo(p, step)
  {
    EffectOf(p, step).Takes? ==>
      && Enabled(p.sys, EffectOf(p, step).step)
      && |p.sys.born| == |p.sys.entries|
      && Harmless(p.sys, EffectOf(p, step).step, initially)
  }

  ghost predicate PoolHarmlessUpTo(states: seq<Pool>, steps: seq<PoolStep>, i: nat, initially: set<string>)
    requires IsPoolRun(states, steps) && i <= |steps|
  {
    forall k {:trigger steps[k]} :: 0 <= k < i ==> HarmlessEffect(states[k], steps[k], initially)
  }

  /** Over runs with the monitor: registrations and containers agree all the time if and
      only if every step is harmless. */
  lemma {:induction false} PoolAgreementIffHarmless(states: seq<Pool>, steps: seq<PoolStep>, i: nat,
                                                    initially: set<string>)
    requires IsPoolRun(states, steps) && i <= |steps|
    ensures PoolAgreesUpTo(states, i, initially) <==> PoolHarmlessUpTo(states, steps, i, initially)
  {
    if i == 0 {
      assert Agrees(states[0].sys, initially);
    } else {
      PoolAgreementIffHarmless(states, steps, i - 1, initially);
      var p, step := states[i - 1], steps[i - 1];
      RunKeepsPoolInv(states, steps, i - 1);
      PoolKeepsHostInv(states, steps, i - 1);
      EffectIsStep(p, step);
      if Agrees(p.sys, initially) && EffectOf(p, step).Takes? {
        AgreementSurvivesIffHarmless(p.sys, EffectOf(p, step).step, initially);
      }
      assert PoolAgreesUpTo(states, i, initially) <==>
        (PoolAgreesUpTo(states, i - 1, initially) && Agrees(states[i].sys, initially));
      assert PoolAgreesUpTo(states, i - 1, initially) ==> Agrees(p.sys, initially);
      assert PoolHarmlessUpTo(states, steps, i, initially) <==>
        (PoolHarmlessUpTo(states, steps, i - 1, initially) && HarmlessEffect(p, step, initially));
    }
  }

  ghost predicate CarefulPoolRun(states: seq<Pool>, steps: seq<PoolStep>, i: nat, initially: set<string>)
    requires IsPoolRun(states, steps) && i <= |steps|
  {
    forall k {:trigger steps[k]} :: 0 <= k < i ==> CarefulRegistry(states[k], steps[k], initially)
  }

  lemma {:induction false} CarefulPoolRunAgrees(states: seq<Pool>, steps: seq<PoolStep>, i: nat, initially: set<string>)
    requires IsPoolRun(states, steps) && i <= |steps| && CarefulPoolRun(states, steps, i, initially)
    ensures NamesInv(states[i], initially)
  {
    if i > 0 {
      CarefulPoolRunAgrees(states, steps, i - 1, initially);
      RunKeepsPoolInv(states, steps, i - 1);
      PoolKeepsHostInv(states, steps, i - 1);
      StepKeepsNamesInv(states[i - 1], steps[i - 1], initially);
    }
  }

  /** With the monitor running, the state reported under a name tells whether the containers
      of that name are up. */
  lemma MonitoredRegistryMatchesContainers(states: seq<Pool>, steps: seq<PoolStep>, i: nat, initially: set<string>,
                                           name: string)
    requires IsPoolRun(states, steps) && i <= |steps| && CarefulPoolRun(states, steps, i, initially)
    requires name in states[i].sys.registry
    ensures var s := states[i].sys; var e := s.registry[name];
      && e < |s.entries|
      && (s.entries[e].state == Active || s.entries[e].state == Blocked ==>
            NameRunning(s.log, s.entries, name, initially))
      && (s.entries[e].state == ScaledDown ==> !NameRunning(s.log, s.entries, name, initially))
  {
    RunKeepsPoolInv(states, steps, i);
    PoolKeepsHostInv(states, steps, i);
    CarefulPoolRunAgrees(states, steps, i, initially);
    AgreementMeans(states[i].sys, initially, name);
  }
}
