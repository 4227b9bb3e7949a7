/** Every scan looks at each registered function once, with a bounded number of host
    calls, and Stop returns to a quiet autoscaler. */
module ScanPoolSafety {
  import opened Lifecycle
  import opened Protocol
  import opened Invariant
  import opened ScanPool

  predicate Critical(stopper: Stopper) {
    stopper == Signalling || stopper == Reading || stopper == ClosingDone
  }

  predicate StopperOk(p: Pool, stopper: Stopper) {
    && (Critical(stopper) ==> p.once == Busy)
    && (stopper == Reading || stopper == ClosingDone ==> p.sys.stopped)
    && (stopper == AwaitingDone || stopper == Joining || stopper == Finished ==> p.once == Used)
    && (stopper == Joining || stopper == Finished ==> p.doneCloses > 0)
  }

  /** Start and Stop: who closed what. */
  predicate StopInv(p: Pool) {
    && (p.started <==> p.monitor != NotStarted)
    && (p.tickInProgress <==> p.monitor == Flagged || p.monitor == Scanning || p.monitor == Scanned)
    && (p.monitor == Exiting || p.monitor == Exited ==> p.sys.stopped)
    && p.doneCloses == (if p.closedByStop then 1 else 0) + (if p.monitor == Exited then 1 else 0)
    && (p.closedByStop ==> p.once == Used)
    && (p.once == Used ==> p.sys.stopped)
    && (forall i :: 0 <= i < |p.stoppers| ==> StopperOk(p, p.stoppers[i]))
    && (forall i, j :: 0 <= i < j < |p.stoppers| ==> !(Critical(p.stoppers[i]) && Critical(p.stoppers[j])))
  }

  lemma StopperKeepsStopInv(p: Pool, k: nat)
    requires StopInv(p) && CanStopperMove(p, k)
    ensures StopInv(MoveStopper(p, k))
  {
    var p' := MoveStopper(p, k);
    assert StopperOk(p, p.stoppers[k]);
    assert forall i :: 0 <= i < |p.stoppers| && i != k ==> p'.stoppers[i] == p.stoppers[i];
    forall i | 0 <= i < |p'.stoppers| ensures StopperOk(p', p'.stoppers[i]) {
      assert StopperOk(p, p.stoppers[i]);
      assert Critical(p.stoppers[k]) && i != k ==> !Critical(p.stoppers[i]);
    }
  }

  /** Steps that touch none of what the invariant speaks of. */
  lemma UnrelatedKeepsStopInv(p: Pool, p': Pool)
    requires StopInv(p)
    requires p' == p.(sys := p'.sys, workers := p'.workers, waitGroup := p'.waitGroup, next := p'.next,
                      examinedBy := p'.examinedBy, abandoned := p'.abandoned)
    requires p'.sys.stopped == p.sys.stopped
    ensures StopInv(p')
  {
    forall i | 0 <= i < |p'.stoppers| ensures StopperOk(p', p'.stoppers[i]) {
      assert StopperOk(p, p.stoppers[i]);
    }
  }

  lemma MonitorKeepsStopInv(p: Pool, step: PoolStep)
    requires StopInv(p) && CanDo(p, step) && !step.StopperMove? && !step.WorkerMove? && !step.Protocol?
    ensures StopInv(Advance(p, step))
  {
    var p' := Advance(p, step);
    forall i | 0 <= i < |p'.stoppers| ensures StopperOk(p', p'.stoppers[i]) {
      assert i < |p.stoppers| ==> StopperOk(p, p.stoppers[i]);
    }
  }

  lemma StepKeepsStopInv(p: Pool, step: PoolStep)
    requires StopInv(p) && CanDo(p, step)
    ensures StopInv(Advance(p, step))
  {
    match step
    case StopperMove(k) => StopperKeepsStopInv(p, k);
    case WorkerMove(w) => UnrelatedKeepsStopInv(p, MoveWorker(p, w));
    case Protocol(inner) =>
      ProtocolOnlyGrows(p.sys, inner);
      UnrelatedKeepsStopInv(p, Advance(p, step));
    case _ => MonitorKeepsStopInv(p, step);
  }

  // ---- The jobs of one scan ----

  function Alive(workers: seq<Worker>): nat {
    if workers == [] then 0 else Alive(workers[..|workers| - 1]) + Live(workers[|workers| - 1])
  }

  function Live(worker: Worker): nat {
    if worker == Leaving || worker == Quit then 0 else 1
  }

  lemma {:induction false} AliveAfterMove(workers: seq<Worker>, w: nat, worker: Worker)
    requires w < |workers|
    ensures Alive(workers[w := worker]) == Alive(workers) - Live(workers[w]) + Live(worker)
  {
    var last := |workers| - 1;
    if w < last {
      AliveAfterMove(workers[..last], w, worker);
      assert workers[w := worker][..last] == workers[..last][w := worker];
    } else {
      assert workers[w := worker][..last] == workers[..last];
    }
  }

  lemma {:induction false} AliveCounts(workers: seq<Worker>)
    ensures (forall w :: 0 <= w < |workers| ==> workers[w] == Fetching) ==> Alive(workers) == |workers|
    ensures Alive(workers) == 0 <==> forall w :: 0 <= w < |workers| ==> Live(workers[w]) == 0
  {
    if workers != [] {
      AliveCounts(workers[..|workers| - 1]);
    }
  }

  predicate WorkerOk(p: Pool, w: nat)
    requires w < |p.workers|
  {
    match p.workers[w]
    case Fetching => true
    case Holding(job) => job < p.next && job !in p.examinedBy && job !in p.abandoned
    case Working(job, t) => t < |p.sys.threads| && job in p.examinedBy && p.examinedBy[job] == w
    case Leaving => p.next == |p.snapshot| || p.sys.stopped
    case Quit => p.next == |p.snapshot| || p.sys.stopped
  }

  /** A job that left the queue was examined, abandoned, or is in a worker's hand. */
  ghost predicate Accounted(p: Pool, job: nat) {
    job in p.examinedBy || job in p.abandoned || exists w :: 0 <= w < |p.workers| && p.workers[w] == Holding(job)
  }

  ghost predicate JobInv(p: Pool) {
    && p.maxConcurrent >= 1
    && p.waitGroup == Alive(p.workers)
    && (p.monitor != Scanning ==> forall w :: 0 <= w < |p.workers| ==> p.workers[w] == Quit)
    && |p.workers| == Min(p.maxConcurrent, |p.snapshot|)
    && p.next <= |p.snapshot|
    && (forall w :: 0 <= w < |p.workers| ==> WorkerOk(p, w))
    && (forall v, w :: 0 <= v < w < |p.workers| && p.workers[v].Holding? ==> p.workers[v] != p.workers[w])
    && (forall job :: job in p.examinedBy ==> job < p.next && job !in p.abandoned && p.examinedBy[job] < |p.workers|)
    && (forall job :: job in p.abandoned ==> job < p.next)
    && (forall job :: 0 <= job < p.next ==> Accounted(p, job))
    && (p.abandoned != {} ==> p.sys.stopped)
    && (forall i :: 0 <= i < |p.snapshot| ==> p.snapshot[i] < |p.sys.entries|)
    && (forall i, j :: 0 <= i < j < |p.snapshot| ==> p.snapshot[i] != p.snapshot[j])
  }

  lemma TakeKeepsJobInv(p: Pool, w: nat)
    requires JobInv(p) && CanWorkerMove(p, w) && p.workers[w] == Fetching && p.next < |p.snapshot|
    ensures JobInv(MoveWorker(p, w))
  {
    var p' := MoveWorker(p, w);
    AliveAfterMove(p.workers, w, p'.workers[w]);
    forall v | 0 <= v < |p'.workers| ensures WorkerOk(p', v) && (v != w ==> p'.workers[v] != Holding(p.next)) {
      assert WorkerOk(p, v);
    }
    forall job | 0 <= job < p'.next ensures Accounted(p', job) {
      if job < p.next {
        CarryAccount(p, p', w, job);
      } else {
        assert p'.workers[w] == Holding(job);
      }
    }
  }

  lemma DrainKeepsJobInv(p: Pool, w: nat)
    requires JobInv(p) && CanWorkerMove(p, w) && p.workers[w] == Fetching && p.next == |p.snapshot|
    ensures JobInv(MoveWorker(p, w))
  {
    var p' := MoveWorker(p, w);
    AliveAfterMove(p.workers, w, p'.workers[w]);
    forall v | 0 <= v < |p'.workers| ensures WorkerOk(p', v) {
      assert WorkerOk(p, v);
    }
    forall job | 0 <= job < p'.next ensures Accounted(p', job) {
      CarryAccount(p, p', w, job);
    }
  }

  /** A job stays accounted for when a worker that does not hold it moves. */
  lemma CarryAccount(p: Pool, p': Pool, w: nat, job: nat)
    requires Accounted(p, job) && w < |p.workers| && |p'.workers| == |p.workers|
    requires forall v :: 0 <= v < |p.workers| && v != w ==> p'.workers[v] == p.workers[v]
    requires p.workers[w] == Holding(job) ==>
               p'.workers[w] == Holding(job) || job in p'.examinedBy || job in p'.abandoned
    requires forall j :: j in p.examinedBy ==> j in p'.examinedBy
    requires p.abandoned <= p'.abandoned
    ensures Accounted(p', job)
  {
    if job !in p.examinedBy && job !in p.abandoned {
      var v :| 0 <= v < |p.workers| && p.workers[v] == Holding(job);
      assert v != w ==> p'.workers[v] == Holding(job);
    }
  }

  /** A worker that sees the stop signal drops its job. */
  lemma AbandonKeepsJobInv(p: Pool, w: nat)
    requires JobInv(p) && CanWorkerMove(p, w) && p.workers[w].Holding? && p.sys.stopped
    ensures JobInv(MoveWorker(p, w))
  {
    var p' := MoveWorker(p, w);
    assert WorkerOk(p, w);
    AliveAfterMove(p.workers, w, p'.workers[w]);
    forall v | 0 <= v < |p'.workers| ensures WorkerOk(p', v) {
      assert WorkerOk(p, v);
      assert v != w ==> p.workers[v] != p.workers[w];
    }
    forall job | 0 <= job < p'.next ensures Accounted(p', job) {
      CarryAccount(p, p', w, job);
    }
  }

  lemma ExamineKeepsJobInv(p: Pool, w: nat)
    requires JobInv(p) && CanWorkerMove(p, w) && p.workers[w].Holding? && !p.sys.stopped
    ensures JobInv(MoveWorker(p, w))
  {
    var p' := MoveWorker(p, w);
    assert WorkerOk(p, w);
    AliveAfterMove(p.workers, w, p'.workers[w]);
    forall v | 0 <= v < |p'.workers| ensures WorkerOk(p', v) {
      assert WorkerOk(p, v);
      assert v != w ==> p.workers[v] != p.workers[w];
    }
    forall job | 0 <= job < p'.next ensures Accounted(p', job) {
      CarryAccount(p, p', w, job);
    }
  }

  lemma FinishKeepsJobInv(p: Pool, w: nat)
    requires JobInv(p) && CanWorkerMove(p, w) && (p.workers[w].Working? || p.workers[w] == Leaving)
    ensures JobInv(MoveWorker(p, w))
  {
    var p' := MoveWorker(p, w);
    assert WorkerOk(p, w);
    AliveAfterMove(p.workers, w, p'.workers[w]);
    forall v | 0 <= v < |p'.workers| ensures WorkerOk(p', v) {
      assert WorkerOk(p, v);
    }
    forall job | 0 <= job < p'.next ensures Accounted(p', job) {
      CarryAccount(p, p', w, job);
    }
  }

  lemma SnapshotKeepsJobInv(p: Pool, order: seq<nat>)
    requires Inv(p.sys) && StopInv(p) && JobInv(p) && CanDo(p, TakeSnapshot(order))
    ensures JobInv(BeginScan(p, order))
  {
    var p' := BeginScan(p, order);
    AliveCounts(p.workers);
    AliveCounts(p'.workers);
    forall i | 0 <= i < |p'.snapshot| ensures p'.snapshot[i] < |p'.sys.entries| {
      assert order[i] in p.sys.registry.Values;
    }
  }

  /** Steps that leave the scan alone; the protocol below only grows. */
  lemma OtherStepKeepsJobInv(p: Pool, p': Pool)
    requires JobInv(p)
    requires p'.maxConcurrent == p.maxConcurrent && p'.snapshot == p.snapshot && p'.next == p.next
    requires p'.workers == p.workers && p'.waitGroup == p.waitGroup
    requires p'.examinedBy == p.examinedBy && p'.abandoned == p.abandoned
    requires p'.monitor != Scanning && p.monitor == Scanning ==>
               forall w :: 0 <= w < |p.workers| ==> p.workers[w] == Quit
    requires |p.sys.entries| <= |p'.sys.entries| && |p.sys.threads| <= |p'.sys.threads|
    requires p.sys.stopped ==> p'.sys.stopped
    ensures JobInv(p')
  {
    forall w | 0 <= w < |p'.workers| ensures WorkerOk(p', w) {
      assert WorkerOk(p, w);
    }
    forall job | 0 <= job < p'.next ensures Accounted(p', job) {
      assert Accounted(p, job);
    }
  }

  lemma ProtocolOnlyGrows(s: Sys, step: Step)
    requires Enabled(s, step)
    ensures |s.entries| <= |Do(s, step).entries| && |s.threads| <= |Do(s, step).threads|
    ensures s.stopped ==> Do(s, step).stopped
    ensures !step.Stop? ==> Do(s, step).stopped == s.stopped
  {
  }

  lemma MonitorKeepsJobInv(p: Pool, step: PoolStep)
    requires StopInv(p) && JobInv(p) && CanDo(p, step)
    requires !step.StopperMove? && !step.WorkerMove? && !step.Protocol? && !step.TakeSnapshot?
    ensures JobInv(Advance(p, step))
  {
    OtherStepKeepsJobInv(p, Advance(p, step));
  }

  lemma WorkerKeepsJobInv(p: Pool, w: nat)
    requires JobInv(p) && CanWorkerMove(p, w)
    ensures JobInv(MoveWorker(p, w))
  {
    match p.workers[w]
    case Fetching => if p.next < |p.snapshot| { TakeKeepsJobInv(p, w); } else { DrainKeepsJobInv(p, w); }
    case Holding(_) => if p.sys.stopped { AbandonKeepsJobInv(p, w); } else { ExamineKeepsJobInv(p, w); }
    case _ => FinishKeepsJobInv(p, w);
  }

  /** A goroutine inside Stop leaves the scan alone. */
  lemma StopperSparesScan(p: Pool, i: nat)
    requires CanStopperMove(p, i)
    ensures var p' := MoveStopper(p, i);
      && (p'.sys == p.sys || p'.sys == p.sys.(stopped := true))
      && p' == p.(sys := p'.sys, stoppers := p'.stoppers, once := p'.once,
                  doneCloses := p'.doneCloses, closedByStop := p'.closedByStop)
  {
  }

  lemma StopperKeepsJobInv(p: Pool, i: nat)
    requires JobInv(p) && CanStopperMove(p, i)
    ensures JobInv(MoveStopper(p, i))
  {
    StopperSparesScan(p, i);
    ChangedStopKeepsJobInv(p, MoveStopper(p, i));
  }

  lemma ChangedStopKeepsJobInv(p: Pool, p': Pool)
    requires JobInv(p) && (p'.sys == p.sys || p'.sys == p.sys.(stopped := true))
    requires p' == p.(sys := p'.sys, stoppers := p'.stoppers, once := p'.once,
                      doneCloses := p'.doneCloses, closedByStop := p'.closedByStop)
    ensures JobInv(p')
  {
    OtherStepKeepsJobInv(p, p');
  }

  lemma StepKeepsJobInv(p: Pool, step: PoolStep)
    requires Inv(p.sys) && StopInv(p) && JobInv(p) && CanDo(p, step)
    ensures JobInv(Advance(p, step))
  {
    match step
    case WorkerMove(w) => WorkerKeepsJobInv(p, w);
    case TakeSnapshot(order) => SnapshotKeepsJobInv(p, order);
    case Protocol(inner) =>
      ProtocolOnlyGrows(p.sys, inner);
      OtherStepKeepsJobInv(p, Advance(p, step));
    case StopperMove(i) => StopperKeepsJobInv(p, i);
    case _ => MonitorKeepsJobInv(p, step);
  }

  // ---- The threads of the workers ----

  /** The thread is inside scaleDownIfStillIdle. */
  predicate Scanner(pc: Pc) {
    || ((pc.Enter? || pc.Parked? || pc.Host? || pc.Commit?) && pc.op == IdleScan)
    || pc.StopCheck? || pc.Revert?
  }

  /** Worker w waits for thread t, which examines the entry of the worker's job. */
  predicate EmployedBy(p: Pool, w: nat, t: nat) {
    && w < |p.workers| && p.workers[w].Working? && p.workers[w].thread == t && p.workers[w].job < |p.snapshot|
    && t < |p.sys.threads| && Scanner(p.sys.threads[t])
    && p.snapshot[p.workers[w].job] == p.sys.threads[t].entry
  }

  ghost predicate Employed(p: Pool, t: nat) {
    exists w :: EmployedBy(p, w, t)
  }

  ghost predicate ThreadInv(p: Pool) {
    forall t :: 0 <= t < |p.sys.threads| && Scanner(p.sys.threads[t]) ==> Employed(p, t)
  }

  lemma ScannersComeFromScans(s: Sys, step: Step, t: nat)
    requires Inv(s) && Enabled(s, step) && OutsideStep(step) && t < |Do(s, step).threads|
    requires Scanner(Do(s, step).threads[t])
    ensures t < |s.threads| && Scanner(s.threads[t]) && s.threads[t].entry == Do(s, step).threads[t].entry
  {
    if step.Run? {
      RunningIsNoScan(s, step.thread, t);
    } else if step.HostReturn? || step.Wake? {
      assert PcOk(s, s.threads[step.thread]);
    }
  }

  lemma RunningIsNoScan(s: Sys, u: nat, t: nat)
    requires Inv(s) && Enabled(s, Run(u)) && t < |RunThread(s, u).threads| && Scanner(RunThread(s, u).threads[t])
    ensures t < |s.threads| && Scanner(s.threads[t]) && s.threads[t].entry == RunThread(s, u).threads[t].entry
  {
    assert RunThread(s, u).threads == s.threads[u := RunThread(s, u).threads[u]];
    if s.threads[u].Enter? {
      EnteringIsNoScan(s, u);
    } else {
      OtherRunIsNoScan(s, u);
    }
  }

  lemma OtherRunIsNoScan(s: Sys, t: nat)
    requires Inv(s) && Enabled(s, Run(t)) && !s.threads[t].Enter?
    ensures Scanner(RunThread(s, t).threads[t]) ==>
              Scanner(s.threads[t]) && s.threads[t].entry == RunThread(s, t).threads[t].entry
  {
    assert PcOk(s, s.threads[t]);
  }

  lemma EnteringIsNoScan(s: Sys, t: nat)
    requires Inv(s) && Enabled(s, Run(t)) && s.threads[t].Enter?
    ensures Scanner(RunEnter(s, t).threads[t]) ==>
              Scanner(s.threads[t]) && s.threads[t].entry == RunEnter(s, t).threads[t].entry
  {
    assert PcOk(s, s.threads[t]);
  }

  lemma ExaminationKeepsThreadInv(p: Pool, w: nat)
    requires ThreadInv(p) && CanWorkerMove(p, w) && p.workers[w].Holding? && !p.sys.stopped
    ensures ThreadInv(MoveWorker(p, w))
  {
    var p' := MoveWorker(p, w);
    forall t | 0 <= t < |p'.sys.threads| && Scanner(p'.sys.threads[t]) ensures Employed(p', t) {
      if t == |p.sys.threads| {
        assert EmployedBy(p', w, t);
      } else {
        var v :| EmployedBy(p, v, t);
        assert EmployedBy(p', v, t);
      }
    }
  }

  lemma WorkerKeepsThreadInv(p: Pool, w: nat)
    requires ThreadInv(p) && CanWorkerMove(p, w)
    ensures ThreadInv(MoveWorker(p, w))
  {
    if p.workers[w].Holding? && !p.sys.stopped {
      ExaminationKeepsThreadInv(p, w);
    } else {
      IdleMoveKeepsThreadInv(p, w);
    }
  }

  lemma IdleMoveKeepsThreadInv(p: Pool, w: nat)
    requires ThreadInv(p) && CanWorkerMove(p, w) && (p.workers[w].Holding? ==> p.sys.stopped)
    ensures ThreadInv(MoveWorker(p, w))
  {
    var p' := MoveWorker(p, w);
    forall t | 0 <= t < |p'.sys.threads| && Scanner(p'.sys.threads[t]) ensures Employed(p', t) {
      var v :| EmployedBy(p, v, t);
      assert EmployedBy(p', v, t);
    }
  }

  lemma ProtocolKeepsThreadInv(p: Pool, inner: Step)
    requires Inv(p.sys) && ThreadInv(p) && CanDo(p, Protocol(inner))
    ensures ThreadInv(p.(sys := Do(p.sys, inner)))
  {
    var p' := p.(sys := Do(p.sys, inner));
    forall t | 0 <= t < |p'.sys.threads| && Scanner(p'.sys.threads[t]) ensures Employed(p', t) {
      ScannersComeFromScans(p.sys, inner, t);
      var v :| EmployedBy(p, v, t);
      assert EmployedBy(p', v, t);
    }
  }

  /** Before a snapshot is taken no worker is left, so no thread is scanning. */
  lemma SnapshotKeepsThreadInv(p: Pool, order: seq<nat>)
    requires JobInv(p) && ThreadInv(p) && p.monitor == Flagged
    ensures ThreadInv(BeginScan(p, order))
  {
    forall t | 0 <= t < |p.sys.threads| ensures !Scanner(p.sys.threads[t]) {
      assert !Employed(p, t);
    }
  }

  lemma SameScanKeepsThreadInv(p: Pool, p': Pool)
    requires ThreadInv(p) && p'.sys.threads == p.sys.threads && p'.workers == p.workers && p'.snapshot == p.snapshot
    ensures ThreadInv(p')
  {
    forall t | 0 <= t < |p'.sys.threads| && Scanner(p'.sys.threads[t]) ensures Employed(p', t) {
      var v :| EmployedBy(p, v, t);
      assert EmployedBy(p', v, t);
    }
  }

  lemma StepKeepsThreadInv(p: Pool, step: PoolStep)
    requires Inv(p.sys) && StopInv(p) && JobInv(p) && ThreadInv(p) && CanDo(p, step)
    ensures ThreadInv(Advance(p, step))
  {
    match step
    case WorkerMove(w) => WorkerKeepsThreadInv(p, w);
    case Protocol(inner) => ProtocolKeepsThreadInv(p, inner);
    case TakeSnapshot(order) => SnapshotKeepsThreadInv(p, order);
    case StopperMove(i) =>
      StopperSparesScan(p, i);
      SameScanKeepsThreadInv(p, MoveStopper(p, i));
    case _ => SameScanKeepsThreadInv(p, Advance(p, step));
  }

  // ---- Whole runs ----

  ghost predicate PoolInv(p: Pool) {
    Inv(p.sys) && StopInv(p) && JobInv(p) && ThreadInv(p)
  }

  lemma StepKeepsPoolInv(p: Pool, step: PoolStep)
    requires PoolInv(p) && CanDo(p, step)
    ensures PoolInv(Advance(p, step))
  {
    StepKeepsStopInv(p, step);
    StepKeepsJobInv(p, step);
    StepKeepsThreadInv(p, step);
    PoolStepKeepsInv(p, step);
  }

  lemma PoolStepKeepsInv(p: Pool, step: PoolStep)
    requires Inv(p.sys) && CanDo(p, step)
    ensures Inv(Advance(p, step).sys)
  {
    match step
    case Protocol(inner) => StepKeepsInv(p.sys, inner);
    case StopperMove(i) => if p.stoppers[i] == Signalling { StepKeepsInv(p.sys, Stop); }
    case WorkerMove(w) =>
      if p.workers[w].Holding? && !p.sys.stopped { StepKeepsInv(p.sys, Call(Scan(p.snapshot[p.workers[w].job]))); }
    case _ =>
  }

  lemma {:induction false} RunKeepsPoolInv(states: seq<Pool>, steps: seq<PoolStep>, i: nat)
    requires IsPoolRun(states, steps) && i <= |steps|
    ensures PoolInv(states[i])
  {
    if i > 0 {
      RunKeepsPoolInv(states, steps, i - 1);
      StepKeepsPoolInv(states[i - 1], steps[i - 1]);
    }
  }

  function Employees(workers: seq<Worker>): set<nat> {
    if workers == [] then {}
    else
      var last := workers[|workers| - 1];
      Employees(workers[..|workers| - 1]) + (if last.Working? then {last.thread} else {})
  }

  lemma {:induction false} EmployeesBounded(workers: seq<Worker>)
    ensures |Employees(workers)| <= |workers|
    ensures forall w :: 0 <= w < |workers| && workers[w].Working? ==> workers[w].thread in Employees(workers)
  {
    if workers != [] {
      EmployeesBounded(workers[..|workers| - 1]);
    }
  }

  /** The threads of scans that are in the host's ScaleDown right now. */
  function InHostCall(s: Sys): set<nat> {
    set t: nat | t < |s.threads| && s.threads[t].Host? && s.threads[t].op == IdleScan
  }

  lemma SubsetSize(a: set<nat>, b: set<nat>)
    requires a <= b
    ensures |a| <= |b|
  {
    assert b == a + (b - a);
  }

  /** At most min(MaxConcurrentScaleDowns, entries of the scan) scans call the host at once. */
  lemma HostCallsBounded(states: seq<Pool>, steps: seq<PoolStep>, i: nat)
    requires IsPoolRun(states, steps) && i <= |steps|
    ensures |InHostCall(states[i].sys)| <= Min(states[i].maxConcurrent, |states[i].snapshot|)
  {
    var p := states[i];
    RunKeepsPoolInv(states, steps, i);
    EmployeesBounded(p.workers);
    forall t | t in InHostCall(p.sys) ensures t in Employees(p.workers) {
      var w :| EmployedBy(p, w, t);
    }
    SubsetSize(InHostCall(p.sys), Employees(p.workers));
  }

  /** A worker only examines a job that nobody examined before, and what a scan looks at
      is each registered entry, once. */
  lemma ExaminedAtMostOnce(states: seq<Pool>, steps: seq<PoolStep>, i: nat, w: nat)
    requires IsPoolRun(states, steps) && i < |steps| && steps[i] == WorkerMove(w)
    requires states[i].workers[w].Holding? && states[i + 1].workers[w].Working?
    ensures var p, job := states[i], states[i].workers[w].job;
      && job !in p.examinedBy && job !in p.abandoned
      && states[i + 1].examinedBy == p.examinedBy[job := w]
      && |p.sys.threads| < |states[i + 1].sys.threads|
      && states[i + 1].sys.threads[|p.sys.threads|] == Enter(IdleScan, p.snapshot[job], Plain)
      && forall k :: 0 <= k < |p.snapshot| && k != job ==> p.snapshot[k] != p.snapshot[job]
  {
    RunKeepsPoolInv(states, steps, i);
    assert WorkerOk(states[i], w);
  }

  /** A scan that ends without a stop signal has examined its whole snapshot. */
  lemma CompleteUnlessStopped(states: seq<Pool>, steps: seq<PoolStep>, i: nat, job: nat)
    requires IsPoolRun(states, steps) && i <= |steps|
    requires states[i].monitor == Scanned && !states[i].sys.stopped && job < |states[i].snapshot|
    ensures job in states[i].examinedBy && states[i].examinedBy[job] < |states[i].workers|
  {
    var p := states[i];
    RunKeepsPoolInv(states, steps, i);
    assert |p.workers| > 0 && WorkerOk(p, 0);
    assert Accounted(p, job);
  }

  /** A scan begins only when the one before is over: the guard flag is never found set,
      and no worker is alive when a snapshot is taken. */
  lemma ScansNeverOverlap(states: seq<Pool>, steps: seq<PoolStep>, i: nat)
    requires IsPoolRun(states, steps) && i < |steps|
    ensures steps[i] == TickFires ==> !states[i].tickInProgress && states[i + 1].monitor == Flagged
    ensures steps[i].TakeSnapshot? ==>
              && states[i].waitGroup == 0
              && (forall w :: 0 <= w < |states[i].workers| ==> states[i].workers[w] == Quit)
              && InHostCall(states[i].sys) == {}
  {
    var p := states[i];
    RunKeepsPoolInv(states, steps, i);
    AliveCounts(p.workers);
    if steps[i].TakeSnapshot? {
      assert forall t: nat :: !Employed(p, t);
    }
  }

  /** No step before i is a first Start after Stop found the monitor not started. */
  ghost predicate StartsInTime(states: seq<Pool>, steps: seq<PoolStep>, i: nat)
    requires IsPoolRun(states, steps) && i <= |steps|
  {
    forall k :: 0 <= k < i ==> !LateStart(states[k], steps[k])
  }

  /** The monitor and Stop both own the closing of doneChan exactly when some first Start
      came late; only then can the channel be closed twice. */
  lemma {:induction false} TwoClosersIffLateStart(states: seq<Pool>, steps: seq<PoolStep>, i: nat)
    requires IsPoolRun(states, steps) && i <= |steps|
    ensures states[i].started && DoneClaimed(states[i]) <==> !StartsInTime(states, steps, i)
    ensures states[i].doneCloses > 1 <==> states[i].closedByStop && states[i].monitor == Exited
  {
    RunKeepsPoolInv(states, steps, i);
    if i > 0 {
      TwoClosersIffLateStart(states, steps, i - 1);
      RunKeepsPoolInv(states, steps, i - 1);
      TwoClosersAfterStep(states[i - 1], steps[i - 1]);
      assert StartsInTime(states, steps, i) <==>
        (StartsInTime(states, steps, i - 1) && !LateStart(states[i - 1], steps[i - 1]));
    } else {
      assert StartsInTime(states, steps, i);
    }
  }

  lemma TwoClosersAfterStep(p: Pool, step: PoolStep)
    requires StopInv(p) && CanDo(p, step)
    ensures var p' := Advance(p, step);
      p'.started && DoneClaimed(p') <==> (p.started && DoneClaimed(p)) || LateStart(p, step)
  {
    ClaimOnlyWhenNotStarted(p, step);
  }

  lemma StopperClaims(p: Pool, i: nat)
    requires StopInv(p) && CanStopperMove(p, i)
    ensures var p' := MoveStopper(p, i);
      && p'.started == p.started
      && (DoneClaimed(p) ==> DoneClaimed(p'))
      && (DoneClaimed(p') && !DoneClaimed(p) ==> !p.started)
  {
    var p' := MoveStopper(p, i);
    assert StopperOk(p, p.stoppers[i]);
    if ClosingDone in p.stoppers {
      var k :| 0 <= k < |p.stoppers| && p.stoppers[k] == ClosingDone;
      assert StopperOk(p, p.stoppers[k]);
      assert p'.closedByStop;
    }
    if ClosingDone in p'.stoppers {
      var k :| 0 <= k < |p'.stoppers| && p'.stoppers[k] == ClosingDone;
      assert k != i ==> p.stoppers[k] == ClosingDone;
    }
  }

  lemma OtherStepsClaimNothing(p: Pool, step: PoolStep)
    requires CanDo(p, step) && !step.StopperMove?
    ensures var p' := Advance(p, step);
      && (DoneClaimed(p) <==> DoneClaimed(p'))
      && (p'.started <==> p.started || step == StartCall)
  {
    var p' := Advance(p, step);
    assert p'.closedByStop == p.closedByStop;
    assert p'.stoppers == p.stoppers || p'.stoppers == p.stoppers + [Entering];
    assert ClosingDone in p.stoppers <==> ClosingDone in p'.stoppers;
  }

  lemma ClaimOnlyWhenNotStarted(p: Pool, step: PoolStep)
    requires StopInv(p) && CanDo(p, step)
    ensures DoneClaimed(p) ==> DoneClaimed(Advance(p, step))
    ensures DoneClaimed(Advance(p, step)) && !DoneClaimed(p) ==> !p.started && Advance(p, step).started == p.started
    ensures p.started ==> Advance(p, step).started
    ensures Advance(p, step).started && !p.started ==> step == StartCall
  {
    if step.StopperMove? {
      StopperClaims(p, step.stopper);
    } else {
      OtherStepsClaimNothing(p, step);
    }
  }

  /** When Stop returns, doneChan was closed exactly once, the monitor is gone or never
      ran, and no scan worker and no scan host call is left. */
  lemma StopReturnsToQuiet(states: seq<Pool>, steps: seq<PoolStep>, i: nat, stopper: nat)
    requires IsPoolRun(states, steps) && i <= |steps| && StartsInTime(states, steps, i)
    requires stopper < |states[i].stoppers| && states[i].stoppers[stopper] == Finished
    ensures var p := states[i];
      && p.doneCloses == 1 && p.sys.stopped
      && (p.monitor == NotStarted || p.monitor == Exited)
      && p.waitGroup == 0
      && (forall w :: 0 <= w < |p.workers| ==> p.workers[w] == Quit)
      && (forall t :: 0 <= t < |p.sys.threads| ==> !Scanner(p.sys.threads[t]))
  {
    var p := states[i];
    RunKeepsPoolInv(states, steps, i);
    TwoClosersIffLateStart(states, steps, i);
    assert StopperOk(p, p.stoppers[stopper]);
    AliveCounts(p.workers);
    assert forall t: nat :: !Employed(p, t);
  }
}
