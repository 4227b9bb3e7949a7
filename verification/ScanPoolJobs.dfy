/** What one scan does for the functions that were registered when it began. */
module ScanPoolJobs {
  import opened Lifecycle
  import opened Protocol
  import opened Invariant
  import opened ScanPool
  import opened ScanPoolSafety

  /** From step i to state j it is the same scan, begun by step i. */
  predicate SameScan(states: seq<Pool>, steps: seq<PoolStep>, i: nat, j: nat)
    requires IsPoolRun(states, steps) && i < j <= |steps|
  {
    steps[i].TakeSnapshot? && forall k :: i < k < j ==> !steps[k].TakeSnapshot?
  }

  /** In step k worker w starts to examine entry e, on a new thread. */
  predicate Examines(states: seq<Pool>, steps: seq<PoolStep>, k: nat, w: nat, e: nat)
    requires IsPoolRun(states, steps) && k < |steps|
  {
    && steps[k] == WorkerMove(w)
    && states[k + 1].sys.threads == states[k].sys.threads + [Enter(IdleScan, e, Plain)]
  }

  /** Within a scan the snapshot stays, what is examined stays examined, and what is newly
      examined gets a thread of its own. */
  predicate GoesOn(p: Pool, step: PoolStep, p': Pool) {
    && p'.snapshot == p.snapshot
    && (forall job :: job in p.examinedBy ==> job in p'.examinedBy)
    && (forall job :: job in p'.examinedBy && job !in p.examinedBy ==>
          && step.WorkerMove? && job < |p.snapshot|
          && p'.sys.threads == p.sys.threads + [Enter(IdleScan, p.snapshot[job], Plain)])
  }

  predicate Course(states: seq<Pool>, steps: seq<PoolStep>, i: nat, j: nat)
    requires |states| == |steps| + 1 && i <= j <= |steps|
  {
    forall k :: i <= k < j ==> GoesOn(states[k], steps[k], states[k + 1])
  }

  lemma WorkerGoesOn(p: Pool, w: nat)
    requires CanWorkerMove(p, w)
    ensures GoesOn(p, WorkerMove(w), MoveWorker(p, w))
  {
  }

  lemma ScanGoesOn(p: Pool, step: PoolStep)
    requires CanDo(p, step) && !step.TakeSnapshot?
    ensures GoesOn(p, step, Advance(p, step))
  {
    match step
    case WorkerMove(w) => WorkerGoesOn(p, w);
    case StopperMove(i) => StopperSparesScan(p, i);
    case _ =>
  }

  lemma ScanRunsItsCourse(states: seq<Pool>, steps: seq<PoolStep>, i: nat, j: nat)
    requires IsPoolRun(states, steps) && i < j <= |steps| && SameScan(states, steps, i, j)
    ensures Course(states, steps, i + 1, j)
    ensures states[i + 1].examinedBy == map[] && Enumerates(states[i + 1].snapshot, states[i].sys.registry)
  {
    forall k | i + 1 <= k < j ensures GoesOn(states[k], steps[k], states[k + 1]) {
      ScanGoesOn(states[k], steps[k]);
    }
  }

  lemma {:induction false} CourseKeeps(states: seq<Pool>, steps: seq<PoolStep>, i: nat, j: nat)
    requires |states| == |steps| + 1 && i <= j <= |steps| && Course(states, steps, i, j)
    ensures states[j].snapshot == states[i].snapshot
    ensures forall job :: job in states[i].examinedBy ==> job in states[j].examinedBy
    decreases j
  {
    if j > i {
      assert Course(states, steps, i, j - 1);
      CourseKeeps(states, steps, i, j - 1);
      assert GoesOn(states[j - 1], steps[j - 1], states[j - 1 + 1]);
    }
  }

  /** A job that is examined was taken up in some step of the scan. */
  lemma {:induction false} TakenUp(states: seq<Pool>, steps: seq<PoolStep>, i: nat, j: nat, job: nat) returns (k: nat)
    requires |states| == |steps| + 1 && i <= j <= |steps| && Course(states, steps, i, j)
    requires job !in states[i].examinedBy && job in states[j].examinedBy
    ensures i <= k < j && job < |states[i].snapshot| && steps[k].WorkerMove?
    ensures states[k + 1].sys.threads == states[k].sys.threads + [Enter(IdleScan, states[i].snapshot[job], Plain)]
    decreases j
  {
    assert Course(states, steps, i, j - 1);
    if job in states[j - 1].examinedBy {
      k := TakenUp(states, steps, i, j - 1, job);
    } else {
      k := j - 1;
      assert GoesOn(states[k], steps[k], states[k + 1]);
      CourseKeeps(states, steps, i, k);
    }
  }

  // ---- The thread of an examination ----

  predicate ExaminingOrDone(s: Sys, t: nat) {
    t < |s.threads| && (Scanner(s.threads[t]) || s.threads[t].Returned?)
  }

  /** A thread that examines an entry goes on doing so until it returns. */
  lemma ExaminationGoesOn(s: Sys, step: Step, t: nat)
    requires Inv(s) && Enabled(s, step) && ExaminingOrDone(s, t)
    ensures ExaminingOrDone(Do(s, step), t)
  {
    assert PcOk(s, s.threads[t]);
  }

  lemma PoolExaminationGoesOn(states: seq<Pool>, steps: seq<PoolStep>, l: nat, t: nat)
    requires IsPoolRun(states, steps) && l < |steps| && ExaminingOrDone(states[l].sys, t)
    ensures ExaminingOrDone(states[l + 1].sys, t)
  {
    var p := states[l];
    RunKeepsPoolInv(states, steps, l);
    EffectIsStep(p, steps[l]);
    if EffectOf(p, steps[l]).Takes? {
      ExaminationGoesOn(p.sys, EffectOf(p, steps[l]).step, t);
    }
  }

  lemma {:induction false} KeptUntil(states: seq<Pool>, i: nat, j: nat, t: nat)
    requires i <= j < |states| && ExaminingOrDone(states[i].sys, t)
    requires forall l :: i <= l < j && ExaminingOrDone(states[l].sys, t) ==> ExaminingOrDone(states[l + 1].sys, t)
    ensures ExaminingOrDone(states[j].sys, t)
    decreases j
  {
    if j > i {
      KeptUntil(states, i, j - 1, t);
      assert ExaminingOrDone(states[j - 1 + 1].sys, t);
    }
  }

  lemma ExaminationThread(states: seq<Pool>, steps: seq<PoolStep>, k: nat, j: nat, w: nat, e: nat)
    requires IsPoolRun(states, steps) && k < j <= |steps| && Examines(states, steps, k, w, e)
    ensures ExaminingOrDone(states[j].sys, |states[k].sys.threads|)
  {
    var t := |states[k].sys.threads|;
    assert states[k + 1].sys.threads[t] == Enter(IdleScan, e, Plain);
    forall l | k + 1 <= l < j && ExaminingOrDone(states[l].sys, t) ensures ExaminingOrDone(states[l + 1].sys, t) {
      PoolExaminationGoesOn(states, steps, l, t);
    }
    KeptUntil(states, k + 1, j, t);
  }

  lemma NobodyScansWhenOver(states: seq<Pool>, steps: seq<PoolStep>, j: nat, t: nat)
    requires IsPoolRun(states, steps) && j <= |steps| && states[j].monitor == Scanned && t < |states[j].sys.threads|
    ensures !Scanner(states[j].sys.threads[t])
  {
    RunKeepsPoolInv(states, steps, j);
    assert !Employed(states[j], t);
  }

  /** Every function that was registered when a scan began has been examined when the scan
      ends, and its examination is over, unless Stop was called. */
  lemma EveryRegisteredIsExamined(states: seq<Pool>, steps: seq<PoolStep>, i: nat, j: nat, name: string)
    returns (k: nat, w: nat)
    requires IsPoolRun(states, steps) && i < j <= |steps| && SameScan(states, steps, i, j)
    requires states[j].monitor == Scanned && !states[j].sys.stopped && name in states[i].sys.registry
    ensures i < k < j && Examines(states, steps, k, w, states[i].sys.registry[name])
    ensures var t := |states[k].sys.threads|; t < |states[j].sys.threads| && states[j].sys.threads[t].Returned?
  {
    ScanRunsItsCourse(states, steps, i, j);
    CourseKeeps(states, steps, i + 1, j);
    var e := states[i].sys.registry[name];
    assert e in states[i].sys.registry.Values;
    assert e in states[j].snapshot;
    var job: nat :| job < |states[j].snapshot| && states[j].snapshot[job] == e;
    CompleteUnlessStopped(states, steps, j, job);
    k := TakenUp(states, steps, i + 1, j, job);
    w := steps[k].worker;
    ExaminationThread(states, steps, k, j, w, e);
    NobodyScansWhenOver(states, steps, j, |states[k].sys.threads|);
  }

  /** An examination is of a job of the snapshot that was not examined before. */
  lemma ExaminedJob(states: seq<Pool>, steps: seq<PoolStep>, k: nat, w: nat, e: nat) returns (job: nat)
    requires IsPoolRun(states, steps) && k < |steps| && Examines(states, steps, k, w, e)
    ensures job < |states[k].snapshot| && states[k].snapshot[job] == e
    ensures job !in states[k].examinedBy && job in states[k + 1].examinedBy
  {
    var p := states[k];
    RunKeepsPoolInv(states, steps, k);
    assert WorkerOk(p, w);
    assert CanWorkerMove(p, w) && |states[k + 1].sys.threads| == |p.sys.threads| + 1;
    assert states[k + 1].sys.threads[|p.sys.threads|] == Enter(IdleScan, e, Plain);
    job := p.workers[w].job;
  }

  lemma ExaminesRegistered(states: seq<Pool>, steps: seq<PoolStep>, i: nat, j: nat, k: nat, w: nat, e: nat)
    requires IsPoolRun(states, steps) && i < j <= |steps| && SameScan(states, steps, i, j)
    requires i < k < j && Examines(states, steps, k, w, e)
    ensures e in states[i].sys.registry.Values
  {
    var job := ExaminedJob(states, steps, k, w, e);
    ScanRunsItsCourse(states, steps, i, k);
    CourseKeeps(states, steps, i + 1, k);
    assert e in states[k].snapshot;
  }

  lemma DistinctExaminations(states: seq<Pool>, steps: seq<PoolStep>, i: nat, k: nat, l: nat, first: nat, second: nat)
    requires |states| == |steps| + 1 && i <= k < l <= |steps|
    requires Course(states, steps, i, k) && Course(states, steps, i, l) && Course(states, steps, k + 1, l)
    requires first in states[k + 1].examinedBy && second !in states[l].examinedBy
    requires first < |states[k].snapshot| && second < |states[l].snapshot|
    requires forall a, b :: 0 <= a < b < |states[i].snapshot| ==> states[i].snapshot[a] != states[i].snapshot[b]
    ensures states[k].snapshot[first] != states[l].snapshot[second]
  {
    CourseKeeps(states, steps, i, k);
    CourseKeeps(states, steps, i, l);
    CourseKeeps(states, steps, k + 1, l);
    assert first != second;
  }

  /** One scan examines only functions that were registered when it began, each at most
      once. */
  lemma ExaminesRegisteredOnce(states: seq<Pool>, steps: seq<PoolStep>, i: nat, j: nat, k: nat, w: nat, l: nat, v: nat,
                               e: nat)
    requires IsPoolRun(states, steps) && i < j <= |steps| && SameScan(states, steps, i, j)
    requires i < k <= l < j && Examines(states, steps, k, w, e) && Examines(states, steps, l, v, e)
    ensures e in states[i].sys.registry.Values && k == l && w == v
  {
    ExaminesRegistered(states, steps, i, j, k, w, e);
    if k < l {
      var first := ExaminedJob(states, steps, k, w, e);
      var second := ExaminedJob(states, steps, l, v, e);
      ScanRunsItsCourse(states, steps, i, j);
      assert Course(states, steps, i + 1, k) && Course(states, steps, i + 1, l) && Course(states, steps, k + 1, l);
      DistinctExaminations(states, steps, i + 1, k, l, first, second);
      assert false;
    }
  }
}
