/** The monitor goroutine, its bounded pool of scan workers, Start and Stop, on top of
    the protocol: a worker's examination of an entry is a thread of the protocol. */
module ScanPool {
  import opened Protocol

  /** A worker takes a job, looks at the stop signal, runs scaleDownIfStillIdle on a
      protocol thread, and at the end signals the autoscaler's and the scan's wait group. */
  datatype Worker = Fetching | Holding(job: nat) | Working(job: nat, thread: nat) | Leaving | Quit

  datatype Monitor = NotStarted | Selecting | Flagged | Scanning | Scanned | Exiting | Exited

  /** A goroutine inside Stop: before stopOnce, about to close stopChan, about to read
      `started`, about to close doneChan, waiting for doneChan, joining the workers. */
  datatype Stopper = Entering | Signalling | Reading | ClosingDone | AwaitingDone | Joining | Finished

  datatype Once = Unused | Busy | Used

  datatype Pool = Pool(
    sys: Sys,
    maxConcurrent: nat,
    started: bool,
    monitor: Monitor,
    tickInProgress: bool,
    snapshot: seq<nat>,
    next: nat,
    workers: seq<Worker>,
    waitGroup: int,
    examinedBy: map<nat, nat>,
    abandoned: set<nat>,
    stoppers: seq<Stopper>,
    once: Once,
    doneCloses: nat,
    closedByStop: bool)

  datatype PoolStep =
    | Protocol(step: Step)
    | StartCall
    | StopCall
    | StopperMove(stopper: nat)
    | TickFires
    | TakeSnapshot(order: seq<nat>)
    | JoinScan
    | ResetFlag
    | SeeStop
    | CloseDone
    | WorkerMove(worker: nat)

  function Min(a: nat, b: nat): nat {
    if a < b then a else b
  }

  /** The order in which the registry map is iterated is up to the runtime. */
  predicate Enumerates(order: seq<nat>, registry: map<string, nat>) {
    && (forall i, j :: 0 <= i < j < |order| ==> order[i] != order[j])
    && (forall e :: e in order ==> e in registry.Values)
    && (forall e :: e in registry.Values ==> e in order)
  }

  predicate CanStopperMove(p: Pool, i: nat) {
    && i < |p.stoppers|
    && match p.stoppers[i]
       case Entering => p.once != Busy
       case AwaitingDone => p.doneCloses > 0
       case Joining => p.waitGroup == 0
       case Finished => false
       case _ => true
  }

  predicate CanWorkerMove(p: Pool, w: nat) {
    && w < |p.workers|
    && match p.workers[w]
       case Fetching => true
       case Holding(job) => job < |p.snapshot| && CanCall(p.sys, Scan(p.snapshot[job]))
       case Working(_, t) => t < |p.sys.threads| && p.sys.threads[t].Returned?
       case Leaving => true
       case Quit => false
  }

  /** The stop signal and the scans are the pool's own business. */
  predicate OutsideStep(step: Step) {
    !step.Stop? && !(step.Call? && step.request.Scan?)
  }

  predicate CanDo(p: Pool, step: PoolStep) {
    match step
    case Protocol(inner) => Enabled(p.sys, inner) && OutsideStep(inner)
    case StartCall => true
    case StopCall => true
    case StopperMove(i) => CanStopperMove(p, i)
    case TickFires => p.monitor == Selecting
    case TakeSnapshot(order) => p.monitor == Flagged && Enumerates(order, p.sys.registry)
    case JoinScan => p.monitor == Scanning && forall w :: 0 <= w < |p.workers| ==> p.workers[w] == Quit
    case ResetFlag => p.monitor == Scanned
    case SeeStop => p.monitor == Selecting && p.sys.stopped
    case CloseDone => p.monitor == Exiting
    case WorkerMove(w) => CanWorkerMove(p, w)
  }

  function MoveStopper(p: Pool, i: nat): Pool
    requires CanStopperMove(p, i)
  {
    match p.stoppers[i]
    case Entering =>
      if p.once == Unused
      then p.(once := Busy, stoppers := p.stoppers[i := Signalling])
      else p.(stoppers := p.stoppers[i := AwaitingDone])
    case Signalling => p.(sys := Do(p.sys, Stop), stoppers := p.stoppers[i := Reading])
    case Reading =>
      if p.started
      then p.(once := Used, stoppers := p.stoppers[i := AwaitingDone])
      else p.(stoppers := p.stoppers[i := ClosingDone])
    case ClosingDone =>
      p.(once := Used, doneCloses := p.doneCloses + 1, closedByStop := true, stoppers := p.stoppers[i := AwaitingDone])
    case AwaitingDone => p.(stoppers := p.stoppers[i := Joining])
    case Joining => p.(stoppers := p.stoppers[i := Finished])
  }

  function MoveWorker(p: Pool, w: nat): Pool
    requires CanWorkerMove(p, w)
  {
    match p.workers[w]
    case Fetching =>
      if p.next < |p.snapshot|
      then p.(workers := p.workers[w := Holding(p.next)], next := p.next + 1)
      else p.(workers := p.workers[w := Leaving], waitGroup := p.waitGroup - 1)
    case Holding(job) =>
      if p.sys.stopped
      then p.(workers := p.workers[w := Leaving], waitGroup := p.waitGroup - 1, abandoned := p.abandoned + {job})
      else p.(workers := p.workers[w := Working(job, |p.sys.threads|)],
              sys := Do(p.sys, Call(Scan(p.snapshot[job]))),
              examinedBy := p.examinedBy[job := w])
    case Working(_, _) => p.(workers := p.workers[w := Fetching])
    case Leaving => p.(workers := p.workers[w := Quit])
  }

  function BeginScan(p: Pool, order: seq<nat>): Pool {
    if order == []
    then p.(monitor := Scanned, snapshot := [], next := 0, workers := [], examinedBy := map[], abandoned := {})
    else
      var count := Min(p.maxConcurrent, |order|);
      p.(monitor := Scanning, snapshot := order, next := 0, examinedBy := map[], abandoned := {},
         workers := seq(count, _ => Fetching), waitGroup := p.waitGroup + count)
  }

  function Advance(p: Pool, step: PoolStep): Pool
    requires CanDo(p, step)
  {
    match step
    case Protocol(inner) => p.(sys := Do(p.sys, inner))
    case StartCall => if p.started then p else p.(started := true, monitor := Selecting)
    case StopCall => p.(stoppers := p.stoppers + [Entering])
    case StopperMove(i) => MoveStopper(p, i)
    case TickFires => if p.tickInProgress then p else p.(tickInProgress := true, monitor := Flagged)
    case TakeSnapshot(order) => BeginScan(p, order)
    case JoinScan => p.(monitor := Scanned)
    case ResetFlag => p.(tickInProgress := false, monitor := Selecting)
    case SeeStop => p.(monitor := Exiting)
    case CloseDone => p.(monitor := Exited, doneCloses := p.doneCloses + 1)
    case WorkerMove(w) => MoveWorker(p, w)
  }

  predicate PoolInit(p: Pool) {
    && Init(p.sys) && p.maxConcurrent >= 1 && !p.started && p.monitor == NotStarted && !p.tickInProgress
    && p.snapshot == [] && p.next == 0 && p.workers == [] && p.waitGroup == 0
    && p.examinedBy == map[] && p.abandoned == {} && p.stoppers == [] && p.once == Unused
    && p.doneCloses == 0 && !p.closedByStop
  }

  predicate IsPoolRun(states: seq<Pool>, steps: seq<PoolStep>) {
    && |states| == |steps| + 1
    && PoolInit(states[0])
    && forall i :: 0 <= i < |steps| ==> CanDo(states[i], steps[i]) && states[i + 1] == Advance(states[i], steps[i])
  }

  /** A first Start that comes after Stop found the monitor not started. */
  predicate LateStart(p: Pool, step: PoolStep) {
    step == StartCall && !p.started && DoneClaimed(p)
  }

  /** Stop has closed doneChan itself, or is bound to. */
  predicate DoneClaimed(p: Pool) {
    p.closedByStop || ClosingDone in p.stoppers
  }

  ghost predicate PoolReachable(p: Pool) {
    exists states, steps :: IsPoolRun(states, steps) && states[|steps|] == p
  }

  lemma PoolReachInit(p: Pool)
    requires PoolInit(p)
    ensures PoolReachable(p)
  {
    var none: seq<PoolStep> := [];
    assert IsPoolRun([p], none) && [p][|none|] == p;
  }

  lemma PoolReachStep(p: Pool, step: PoolStep, p': Pool)
    requires PoolReachable(p) && CanDo(p, step) && p' == Advance(p, step)
    ensures PoolReachable(p')
  {
    var states, steps :| IsPoolRun(states, steps) && states[|steps|] == p;
    assert IsPoolRun(states + [p'], steps + [step]);
    assert (states + [p'])[|steps + [step]|] == p';
  }

  predicate IsPath(states: seq<Pool>, steps: seq<PoolStep>) {
    && |states| == |steps| + 1
    && forall i :: 0 <= i < |steps| ==> CanDo(states[i], steps[i]) && states[i + 1] == Advance(states[i], steps[i])
  }

  /** There is a way to go on from p to q. */
  ghost predicate Leads(p: Pool, q: Pool) {
    exists states, steps :: IsPath(states, steps) && states[0] == p && states[|steps|] == q
  }

  lemma LeadsHere(p: Pool)
    ensures Leads(p, p)
  {
    var none: seq<PoolStep> := [];
    assert IsPath([p], none) && [p][0] == p && [p][|none|] == p;
  }

  lemma LeadsOn(p: Pool, step: PoolStep, q: Pool)
    requires CanDo(p, step) && Leads(Advance(p, step), q)
    ensures Leads(p, q)
  {
    var states, steps :| IsPath(states, steps) && states[0] == Advance(p, step) && states[|steps|] == q;
    assert IsPath([p] + states, [step] + steps) by {
      forall i | 0 <= i < |[step] + steps|
        ensures CanDo(([p] + states)[i], ([step] + steps)[i])
             && ([p] + states)[i + 1] == Advance(([p] + states)[i], ([step] + steps)[i])
      {
        if i > 0 { assert CanDo(states[i - 1], steps[i - 1]) && states[i] == Advance(states[i - 1], steps[i - 1]); }
      }
    }
    assert ([p] + states)[0] == p && ([p] + states)[|[step] + steps|] == q;
  }

  // ---- The protocol inside the pool ----

  datatype Effect = Nothing | Takes(step: Step)

  /** What a step of the pool is for the protocol. */
  function EffectOf(p: Pool, step: PoolStep): Effect
    requires CanDo(p, step)
  {
    match step
    case Protocol(inner) => Takes(inner)
    case StopperMove(i) => if p.stoppers[i] == Signalling then Takes(Stop) else Nothing
    case WorkerMove(w) =>
      if p.workers[w].Holding? && !p.sys.stopped then Takes(Call(Scan(p.snapshot[p.workers[w].job]))) else Nothing
    case _ => Nothing
  }

  lemma EffectIsStep(p: Pool, step: PoolStep)
    requires CanDo(p, step)
    ensures match EffectOf(p, step)
            case Takes(inner) => Enabled(p.sys, inner) && Advance(p, step).sys == Do(p.sys, inner)
            case Nothing => Advance(p, step).sys == p.sys
  {
  }

  /** A run of the protocol next to a run of the pool: the effect of each pool step, and
      where each pool state is in the protocol run. */
  datatype Projection = Projection(states: seq<Sys>, steps: seq<Step>, effects: seq<Effect>, at: seq<nat>)

  predicate Placed(run: Projection) {
    && |run.states| == |run.steps| + 1
    && |run.at| == |run.effects| + 1 && run.at[0] == 0 && run.at[|run.effects|] == |run.steps|
    && (forall k :: 0 <= k < |run.at| ==> run.at[k] <= |run.steps|)
    && forall k :: 0 <= k < |run.effects| ==> Follows(run, k)
  }

  predicate Follows(run: Projection, k: nat)
    requires k < |run.effects| && |run.at| == |run.effects| + 1
  {
    match run.effects[k]
    case Nothing => run.at[k + 1] == run.at[k]
    case Takes(step) => run.at[k + 1] == run.at[k] + 1 && run.at[k] < |run.steps| && run.steps[run.at[k]] == step
  }

  ghost predicate Tracks(states: seq<Pool>, steps: seq<PoolStep>, i: nat, run: Projection)
    requires IsPoolRun(states, steps) && i <= |steps| && Placed(run)
  {
    && |run.effects| == i
    && (forall k :: 0 <= k <= i ==> run.states[run.at[k]] == states[k].sys)
    && forall k :: 0 <= k < i ==> run.effects[k] == EffectOf(states[k], steps[k])
  }

  function Extended(run: Projection, effect: Effect, s: Sys): Projection {
    match effect
    case Nothing => run.(effects := run.effects + [effect], at := run.at + [|run.steps|])
    case Takes(step) =>
      Projection(run.states + [s], run.steps + [step], run.effects + [effect], run.at + [|run.steps| + 1])
  }

  lemma ExtendedIsPlaced(run: Projection, effect: Effect, s: Sys)
    requires Placed(run)
    ensures Placed(Extended(run, effect, s))
  {
    var next := Extended(run, effect, s);
    forall k | 0 <= k < |next.effects| ensures Follows(next, k) {
      if k < |run.effects| { assert Follows(run, k); }
    }
  }

  lemma ExtendedIsRun(run: Projection, effect: Effect, s: Sys)
    requires IsRun(run.states, run.steps)
    requires effect.Takes? ==>
      Enabled(run.states[|run.steps|], effect.step) && s == Do(run.states[|run.steps|], effect.step)
    ensures IsRun(Extended(run, effect, s).states, Extended(run, effect, s).steps)
  {
  }

  /** Every run of the pool projects onto one run of the protocol, state by state and step
      by step, so what holds across the states of protocol runs holds across those of pool
      runs. */
  lemma {:induction false} PoolRunsProject(states: seq<Pool>, steps: seq<PoolStep>, i: nat) returns (run: Projection)
    requires IsPoolRun(states, steps) && i <= |steps|
    ensures IsRun(run.states, run.steps) && Placed(run) && Tracks(states, steps, i, run)
  {
    if i == 0 {
      run := Projection([states[0].sys], [], [], [0]);
    } else {
      var before := PoolRunsProject(states, steps, i - 1);
      var effect := EffectOf(states[i - 1], steps[i - 1]);
      EffectIsStep(states[i - 1], steps[i - 1]);
      assert before.states[before.at[i - 1]] == states[i - 1].sys;
      ExtendedIsPlaced(before, effect, states[i].sys);
      ExtendedIsRun(before, effect, states[i].sys);
      run := Extended(before, effect, states[i].sys);
    }
  }

  lemma {:induction false} PlacesGrow(run: Projection, j: nat, k: nat)
    requires Placed(run) && j <= k <= |run.effects|
    ensures run.at[j] <= run.at[k]
    decreases k
  {
    if j < k {
      PlacesGrow(run, j, k - 1);
      assert Follows(run, k - 1);
    }
  }

  /** Every step of the protocol run is the effect of a step of the pool run. */
  lemma {:induction false} PlaceOfStep(run: Projection, j: nat, k: nat, a: nat) returns (m: nat)
    requires Placed(run) && j <= k <= |run.effects| && run.at[j] <= a < run.at[k]
    ensures j <= m < k && run.at[m] == a && a < |run.steps| && run.effects[m] == Takes(run.steps[a])
    decreases k
  {
    assert Follows(run, k - 1);
    if run.at[k - 1] <= a {
      m := k - 1;
    } else {
      m := PlaceOfStep(run, j, k - 1, a);
    }
  }
}
