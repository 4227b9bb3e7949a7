/** What the theorems on protocol runs say about the monitor and its workers. */
module ScanPoolRuns {
  import opened Lifecycle
  import opened Protocol
  import opened Invariant
  import opened IdleWindow
  import opened ScanPool
  import opened ScanPoolSafety

  /** Step k takes thread t from examining an entry to stopping it. */
  predicate WorkerCommits(states: seq<Pool>, steps: seq<PoolStep>, k: nat, t: nat)
    requires IsPoolRun(states, steps) && k < |steps|
  {
    && steps[k] == Protocol(Run(t))
    && t < |states[k + 1].sys.threads| && states[k + 1].sys.threads[t].StopCheck?
  }

  /** Only workers do that, for the job they hold. */
  lemma CommitIsOfWorker(states: seq<Pool>, steps: seq<PoolStep>, k: nat, t: nat) returns (w: nat)
    requires IsPoolRun(states, steps) && k < |steps| && WorkerCommits(states, steps, k, t)
    ensures var p, e := states[k], states[k + 1].sys.threads[t].entry;
      && t < |p.sys.threads| && p.sys.threads[t] == Enter(IdleScan, e, Plain)
      && w < |p.workers| && p.workers[w].Working? && p.workers[w].thread == t
      && p.workers[w].job < |p.snapshot| && p.snapshot[p.workers[w].job] == e
      && p.workers[w].job in p.examinedBy && p.examinedBy[p.workers[w].job] == w
  {
    var p := states[k];
    RunKeepsPoolInv(states, steps, k);
    assert PcOk(p.sys, p.sys.threads[t]);
    w :| EmployedBy(p, w, t);
    assert WorkerOk(p, w);
  }

  // ---- The window in the pool ----

  predicate PoolCrosses(p: Pool, step: PoolStep, e: nat, begin: int) {
    step.Protocol? && Crosses(p.sys, step.step, e, begin)
  }

  predicate PoolActiveIn(p: Pool, step: PoolStep, e: nat, begin: int) {
    step.Protocol? && ActiveIn(p.sys, step.step, e, begin)
  }

  ghost predicate PoolNeverCrosses(states: seq<Pool>, steps: seq<PoolStep>, j: nat, k: nat, e: nat, begin: int)
    requires IsPoolRun(states, steps) && j <= k <= |steps|
  {
    forall i {:trigger steps[i]} :: j <= i < k ==> !PoolCrosses(states[i], steps[i], e, begin)
  }

  /** Nothing happened on entry e in the window that ends with state k. */
  ghost predicate PoolIdleSince(states: seq<Pool>, steps: seq<PoolStep>, k: nat, e: nat, begin: int)
    requires IsPoolRun(states, steps) && k <= |steps|
  {
    && (forall j :: 0 <= j <= k ==> !BusyIn(states[j].sys, e, begin))
    && forall j {:trigger steps[j]} :: 0 <= j < k ==> !PoolActiveIn(states[j], steps[j], e, begin)
  }

  /** Where a protocol step of the pool is in the projection. */
  lemma PlaceOfPoolStep(states: seq<Pool>, steps: seq<PoolStep>, i: nat, run: Projection, k: nat, j: nat)
    requires IsPoolRun(states, steps) && i <= |steps| && Placed(run) && Tracks(states, steps, i, run)
    requires j < k <= i && steps[j].Protocol?
    ensures run.at[j] < run.at[k] && run.steps[run.at[j]] == steps[j].step && run.states[run.at[j]] == states[j].sys
  {
    assert run.effects[j] == Takes(steps[j].step) && Follows(run, j);
    PlacesGrow(run, j + 1, k);
  }

  /** Which state of the pool a state of the projection is, and which step follows it. */
  lemma PoolPlace(states: seq<Pool>, steps: seq<PoolStep>, i: nat, run: Projection, j: nat, k: nat, a: nat)
    returns (m: nat)
    requires IsPoolRun(states, steps) && i <= |steps| && Placed(run) && Tracks(states, steps, i, run)
    requires j <= k <= i && run.at[j] <= a <= run.at[k]
    ensures j <= m <= k && run.states[a] == states[m].sys
    ensures a < run.at[k] ==>
              m < k && a < |run.steps| && (run.steps[a].Run? ==> steps[m] == Protocol(run.steps[a]))
  {
    if a < run.at[k] {
      m := PlaceOfStep(run, j, k, a);
      assert run.effects[m] == EffectOf(states[m], steps[m]);
    } else {
      m := k;
    }
  }

  lemma CrossingsProject(states: seq<Pool>, steps: seq<PoolStep>, i: nat, run: Projection, j: nat, k: nat,
                         e: nat, begin: int)
    requires IsPoolRun(states, steps) && i <= |steps| && IsRun(run.states, run.steps) && Placed(run)
    requires Tracks(states, steps, i, run) && j <= k <= i
    ensures run.at[j] <= run.at[k]
    ensures NeverCrosses(run.states, run.steps, run.at[j], run.at[k], e, begin) <==>
            PoolNeverCrosses(states, steps, j, k, e, begin)
  {
    PlacesGrow(run, j, k);
    if NeverCrosses(run.states, run.steps, run.at[j], run.at[k], e, begin) {
      forall m {:trigger steps[m]} | j <= m < k ensures !PoolCrosses(states[m], steps[m], e, begin) {
        PlacesGrow(run, j, m);
        if steps[m].Protocol? { PlaceOfPoolStep(states, steps, i, run, k, m); }
      }
    }
    if PoolNeverCrosses(states, steps, j, k, e, begin) {
      forall a {:trigger run.steps[a]} | run.at[j] <= a < run.at[k]
        ensures !Crosses(run.states[a], run.steps[a], e, begin)
      {
        var m := PoolPlace(states, steps, i, run, j, k, a);
        assert !PoolCrosses(states[m], steps[m], e, begin);
      }
    }
  }

  lemma ActivityProjects(states: seq<Pool>, steps: seq<PoolStep>, i: nat, run: Projection, k: nat, e: nat, begin: int)
    requires IsPoolRun(states, steps) && i <= |steps| && IsRun(run.states, run.steps) && Placed(run)
    requires Tracks(states, steps, i, run) && k <= i
    ensures IdleSince(run.states, run.steps, run.at[k], e, begin) <==> PoolIdleSince(states, steps, k, e, begin)
  {
    if IdleSince(run.states, run.steps, run.at[k], e, begin) {
      forall j | 0 <= j <= k ensures !BusyIn(states[j].sys, e, begin) {
        PlacesGrow(run, j, k);
        assert run.states[run.at[j]] == states[j].sys;
      }
      forall j {:trigger steps[j]} | 0 <= j < k ensures !PoolActiveIn(states[j], steps[j], e, begin) {
        if steps[j].Protocol? { PlaceOfPoolStep(states, steps, i, run, k, j); }
      }
    }
    if PoolIdleSince(states, steps, k, e, begin) {
      forall a | 0 <= a <= run.at[k] ensures !BusyIn(run.states[a], e, begin) {
        var m := PoolPlace(states, steps, i, run, 0, k, a);
      }
      forall a {:trigger run.steps[a]} | 0 <= a < run.at[k] ensures !ActiveIn(run.states[a], run.steps[a], e, begin) {
        var m := PoolPlace(states, steps, i, run, 0, k, a);
        assert !PoolActiveIn(states[m], steps[m], e, begin);
        OnlyRunsAreActive(run.states[a], run.steps[a], e, begin);
      }
    }
  }

  lemma OnlyRunsAreActive(s: Sys, step: Step, e: nat, begin: int)
    ensures ActiveIn(s, step, e, begin) ==> step.Run?
  {
  }

  /** Exactly when a worker respects the idle window: the entry that it decides to stop was
      idle for the whole of its window, in the run with the monitor, if and only if no batch
      section moved its stamp from inside the window to before it. */
  lemma WorkerWindowIffNoCrossing(states: seq<Pool>, steps: seq<PoolStep>, k: nat, t: nat)
    requires IsPoolRun(states, steps) && k < |steps| && WorkerCommits(states, steps, k, t)
    ensures var s, e := states[k].sys, states[k + 1].sys.threads[t].entry;
      && e < |s.entries|
      && var begin := s.clock - s.entries[e].idleDuration;
      PoolIdleSince(states, steps, k, e, begin) <==> PoolNeverCrosses(states, steps, 0, k, e, begin)
  {
    var e := states[k + 1].sys.threads[t].entry;
    var run := PoolRunsProject(states, steps, k + 1);
    ProjectedCommit(states, steps, k, t, run);
    var begin := WindowBegin(states[k].sys, e);
    IdleWindowIffNoCrossing(run.states, run.steps, run.at[k], e);
    CrossingsProject(states, steps, k + 1, run, 0, k, e, begin);
    ActivityProjects(states, steps, k + 1, run, k, e, begin);
  }

  lemma ProjectedCommit(states: seq<Pool>, steps: seq<PoolStep>, k: nat, t: nat, run: Projection)
    requires IsPoolRun(states, steps) && k < |steps| && WorkerCommits(states, steps, k, t)
    requires IsRun(run.states, run.steps) && Placed(run) && Tracks(states, steps, k + 1, run)
    ensures run.at[k] < |run.steps| && run.states[run.at[k]] == states[k].sys
    ensures ScanCommits(run.states, run.steps, run.at[k], states[k + 1].sys.threads[t].entry)
  {
    var w := CommitIsOfWorker(states, steps, k, t);
    assert Follows(run, k) && run.effects[k] == Takes(Run(t));
    assert run.states[run.at[k]] == states[k].sys && run.states[run.at[k + 1]] == states[k + 1].sys;
  }

  /** When a worker commits a scale-down of the entry of its job, and no batch section from
      state j on crossed the beginning of the window, then at state j, if it lies in the
      window, no request was in flight on the entry, and the step after it recorded no
      activity for a moment in the window. */
  lemma WorkersStopOnlyIdle(states: seq<Pool>, steps: seq<PoolStep>, k: nat, t: nat, j: nat)
    requires IsPoolRun(states, steps) && k < |steps| && WorkerCommits(states, steps, k, t) && j <= k
    requires states[k + 1].sys.threads[t].entry < |states[j].sys.entries|
    requires var e := states[k + 1].sys.threads[t].entry;
      PoolNeverCrosses(states, steps, j, k, e, WindowBegin(states[k].sys, e))
    ensures var e, now := states[k + 1].sys.threads[t].entry, states[k].sys.clock;
      && e < |states[k].sys.entries|
      && var begin := now - states[k].sys.entries[e].idleDuration;
      && (begin <= states[j].sys.clock ==> states[j].sys.entries[e].inFlight == 0)
      && (j < k && steps[j].Protocol? && RecordsActivity(states[j].sys, steps[j].step, e) ==>
            Moment(states[j].sys, steps[j].step) < begin)
  {
    var e := states[k + 1].sys.threads[t].entry;
    var run := PoolRunsProject(states, steps, k + 1);
    ProjectedCommit(states, steps, k, t, run);
    CrossingsProject(states, steps, k + 1, run, j, k, e, WindowBegin(states[k].sys, e));
    var a, b := run.at[j], run.at[k];
    assert run.states[a] == states[j].sys;
    if j < k && steps[j].Protocol? {
      PlaceOfPoolStep(states, steps, k + 1, run, k, j);
    }
    IdleForTheWholeWindow(run.states, run.steps, b, e, a);
  }
}
