/** Stop does not deadlock, and a late Start always ends badly. */
module ScanPoolProgress {
  import opened Protocol
  import opened Invariant
  import opened Safety
  import opened Settling
  import opened ScanPool
  import opened ScanPoolSafety

  // ---- Stop does not deadlock ----

  /** Somebody is on the way through stopOnce, or it left behind a way to close doneChan. */
  ghost predicate OnceInv(p: Pool) {
    && (p.once == Busy ==> exists i :: 0 <= i < |p.stoppers| && Critical(p.stoppers[i]))
    && (p.once == Used ==> p.closedByStop || p.started)
  }

  lemma StopperKeepsOnceInv(p: Pool, k: nat)
    requires StopInv(p) && OnceInv(p) && CanStopperMove(p, k)
    ensures OnceInv(MoveStopper(p, k))
  {
    var p' := MoveStopper(p, k);
    assert StopperOk(p, p.stoppers[k]);
    assert p'.once == Busy ==> Critical(p'.stoppers[k]);
  }

  lemma StepKeepsOnceInv(p: Pool, step: PoolStep)
    requires StopInv(p) && OnceInv(p) && CanDo(p, step)
    ensures OnceInv(Advance(p, step))
  {
    if step.StopperMove? {
      StopperKeepsOnceInv(p, step.stopper);
    } else if p.once == Busy {
      var i :| 0 <= i < |p.stoppers| && Critical(p.stoppers[i]);
      assert Advance(p, step).stoppers[i] == p.stoppers[i];
    }
  }

  lemma {:induction false} RunKeepsOnceInv(states: seq<Pool>, steps: seq<PoolStep>, i: nat)
    requires IsPoolRun(states, steps) && i <= |steps|
    ensures OnceInv(states[i])
  {
    if i > 0 {
      RunKeepsOnceInv(states, steps, i - 1);
      RunKeepsPoolInv(states, steps, i - 1);
      StepKeepsOnceInv(states[i - 1], steps[i - 1]);
    }
  }

  lemma {:induction false} CanEnumerate(values: set<nat>) returns (order: seq<nat>)
    ensures forall i, j :: 0 <= i < j < |order| ==> order[i] != order[j]
    ensures forall e :: e in order <==> e in values
    decreases values
  {
    if values == {} {
      order := [];
    } else {
      var e :| e in values;
      var rest := CanEnumerate(values - {e});
      order := [e] + rest;
    }
  }

  lemma CanTakeSnapshot(p: Pool) returns (order: seq<nat>)
    requires p.monitor == Flagged
    ensures CanDo(p, TakeSnapshot(order))
  {
    order := CanEnumerate(p.sys.registry.Values);
  }

  /** The moves that stoppers, workers and the monitor make by themselves; a tick and a new
      call come from outside. */
  predicate PoolMove(step: PoolStep) {
    || step.StopperMove? || step.WorkerMove?
    || step.TakeSnapshot? || step.JoinScan? || step.ResetFlag? || step.SeeStop? || step.CloseDone?
  }

  ghost predicate AtRest(p: Pool) {
    && (forall step :: PoolMove(step) ==> !CanDo(p, step))
    && (forall t :: 0 <= t < |p.sys.threads| ==> !Movable(p.sys, t))
  }

  /** After the stop signal a thread that has not returned can move. */
  lemma StoppedThreadCanMove(s: Sys, t: nat)
    requires Inv(s) && s.stopped && t < |s.threads| && !s.threads[t].Returned?
    ensures Movable(s, t)
  {
    assert PcOk(s, s.threads[t]);
    if s.threads[t].Parked? { assert Enabled(s, Wake(t, Halted)); }
  }

  /** A worker is done, can move, or waits for a thread that can. */
  lemma WorkersAtRestAreDone(p: Pool, w: nat)
    requires PoolInv(p) && p.sys.stopped && AtRest(p) && w < |p.workers|
    ensures p.workers[w] == Quit
  {
    assert WorkerOk(p, w);
    if p.workers[w].Working? && !p.sys.threads[p.workers[w].thread].Returned? {
      StoppedThreadCanMove(p.sys, p.workers[w].thread);
    }
    assert PoolMove(WorkerMove(w)) && !CanDo(p, WorkerMove(w));
  }

  lemma MonitorAtRestHasExited(p: Pool)
    requires PoolInv(p) && p.started && p.sys.stopped && AtRest(p)
    ensures p.monitor == Exited
  {
    if p.monitor == Flagged {
      var order := CanTakeSnapshot(p);
      assert PoolMove(TakeSnapshot(order));
    }
    if p.monitor == Scanning {
      forall w | 0 <= w < |p.workers| ensures p.workers[w] == Quit {
        WorkersAtRestAreDone(p, w);
      }
    }
    assert !CanDo(p, JoinScan) && !CanDo(p, ResetFlag) && !CanDo(p, SeeStop) && !CanDo(p, CloseDone);
  }

  /** Once no stopper, worker, monitor or protocol thread can move, every call of Stop has
      returned. */
  lemma StopCannotDeadlock(states: seq<Pool>, steps: seq<PoolStep>, i: nat, k: nat)
    requires IsPoolRun(states, steps) && i <= |steps| && AtRest(states[i]) && k < |states[i].stoppers|
    ensures states[i].stoppers[k] == Finished
  {
    var p := states[i];
    RunKeepsPoolInv(states, steps, i);
    RunKeepsOnceInv(states, steps, i);
    assert StopperOk(p, p.stoppers[k]) && !CanDo(p, StopperMove(k));
    if p.once == Busy {
      var c :| 0 <= c < |p.stoppers| && Critical(p.stoppers[c]);
      assert PoolMove(StopperMove(c)) && CanDo(p, StopperMove(c));
    }
    if p.stoppers[k] == AwaitingDone && p.started {
      MonitorAtRestHasExited(p);
    }
    if p.stoppers[k] == Joining {
      forall w | 0 <= w < |p.workers| ensures Live(p.workers[w]) == 0 {
        WorkersAtRestAreDone(p, w);
      }
      AliveCounts(p.workers);
    }
  }

  // ---- After a late Start ----

  function Phase(monitor: Monitor): nat {
    match monitor
    case NotStarted => 6
    case Flagged => 5
    case Scanning => 4
    case Scanned => 3
    case Selecting => 2
    case Exiting => 1
    case Exited => 0
  }

  function Rank(worker: Worker): nat {
    match worker
    case Working(_, _) => 4
    case Fetching => 3
    case Holding(_) => 2
    case Leaving => 1
    case Quit => 0
  }

  function TotalRank(workers: seq<Worker>): nat {
    if workers == [] then 0 else TotalRank(workers[..|workers| - 1]) + Rank(workers[|workers| - 1])
  }

  lemma {:induction false} RankAfterMove(workers: seq<Worker>, w: nat, worker: Worker)
    requires w < |workers|
    ensures TotalRank(workers[w := worker]) == TotalRank(workers) - Rank(workers[w]) + Rank(worker)
  {
    var last := |workers| - 1;
    if w < last {
      RankAfterMove(workers[..last], w, worker);
      assert workers[w := worker][..last] == workers[..last][w := worker];
    } else {
      assert workers[w := worker][..last] == workers[..last];
    }
  }

  /** The state one move nearer to the exit of the monitor. */
  ghost predicate Nearer(q: Pool, p: Pool) {
    || Phase(q.monitor) < Phase(p.monitor)
    || (&& Phase(q.monitor) == Phase(p.monitor)
        && (|| TotalRank(q.workers) < TotalRank(p.workers)
            || (TotalRank(q.workers) == TotalRank(p.workers) && Settling.Closer(q.sys, p.sys))))
  }

  lemma ThreadMoveIsNearer(p: Pool, t: nat) returns (step: PoolStep)
    requires PoolInv(p) && p.sys.stopped && t < |p.sys.threads| && !p.sys.threads[t].Returned?
    ensures CanDo(p, step) && step.Protocol? && Nearer(Advance(p, step), p)
  {
    StoppedThreadCanMove(p.sys, t);
    var inner := if Enabled(p.sys, Run(t)) then Run(t)
                 else if Enabled(p.sys, HostReturn(t, true)) then HostReturn(t, true)
                 else if Enabled(p.sys, Wake(t, Notified)) then Wake(t, Notified)
                 else if Enabled(p.sys, Wake(t, Gone)) then Wake(t, Gone)
                 else Wake(t, Halted);
    step := Protocol(inner);
    MoveSettles(p.sys, inner);
  }

  /** During a scan after the stop signal, some worker or its thread moves towards the end. */
  lemma ScanMoveIsNearer(p: Pool) returns (step: PoolStep)
    requires PoolInv(p) && p.sys.stopped && p.monitor == Scanning
    ensures CanDo(p, step) && !step.StopperMove? && step != StartCall && step != StopCall
    ensures Nearer(Advance(p, step), p)
  {
    if w :| 0 <= w < |p.workers| && p.workers[w] != Quit {
      assert WorkerOk(p, w);
      if p.workers[w].Working? && !p.sys.threads[p.workers[w].thread].Returned? {
        step := ThreadMoveIsNearer(p, p.workers[w].thread);
      } else {
        step := WorkerMove(w);
        RankAfterMove(p.workers, w, MoveWorker(p, w).workers[w]);
      }
    } else {
      step := JoinScan;
    }
  }

  lemma ExitMoveIsNearer(p: Pool) returns (step: PoolStep)
    requires PoolInv(p) && p.started && p.sys.stopped && p.monitor != Exited
    ensures CanDo(p, step) && !step.StopperMove? && step != StartCall && step != StopCall
    ensures Nearer(Advance(p, step), p)
  {
    match p.monitor
    case Flagged =>
      var order := CanTakeSnapshot(p);
      step := TakeSnapshot(order);
    case Scanning => step := ScanMoveIsNearer(p);
    case Scanned => step := ResetFlag;
    case Selecting => step := SeeStop;
    case Exiting => step := CloseDone;
  }

  lemma OtherMovesSpareStoppers(p: Pool, step: PoolStep)
    requires CanDo(p, step) && !step.StopperMove? && step != StartCall && step != StopCall
    ensures var q := Advance(p, step);
      && q.stoppers == p.stoppers && q.closedByStop == p.closedByStop && q.started == p.started
      && (p.sys.stopped ==> q.sys.stopped)
  {
    EffectIsStep(p, step);
    if EffectOf(p, step).Takes? {
      ProtocolOnlyGrows(p.sys, EffectOf(p, step).step);
    }
  }

  /** After the stop signal a monitor that was started can always get to its exit, whatever
      its workers are doing. */
  lemma {:induction false} MonitorCanExit(p: Pool) returns (q: Pool)
    requires PoolInv(p) && p.started && p.sys.stopped
    ensures Leads(p, q) && PoolInv(q) && q.monitor == Exited
    ensures q.stoppers == p.stoppers && q.closedByStop == p.closedByStop
    decreases Phase(p.monitor), TotalRank(p.workers),
              TotalBudget(p.sys.threads), TotalDistance(p.sys.entries, p.sys.threads)
  {
    if p.monitor == Exited {
      q := p;
      LeadsHere(p);
    } else {
      var step := ExitMoveIsNearer(p);
      StepKeepsPoolInv(p, step);
      OtherMovesSpareStoppers(p, step);
      q := MonitorCanExit(Advance(p, step));
      LeadsOn(p, step, q);
    }
  }

  lemma LeadsFurther(p: Pool, q: Pool, step: PoolStep, r: Pool)
    requires Leads(p, q) && CanDo(q, step) && r == Advance(q, step)
    ensures Leads(p, r)
  {
    var states, steps :| IsPath(states, steps) && states[0] == p && states[|steps|] == q;
    assert IsPath(states + [r], steps + [step]);
    assert (states + [r])[0] == p && (states + [r])[|steps + [step]|] == r;
  }

  /** Every state after a late first Start can go on to close doneChan a second time. */
  lemma LateStartCanCloseTwice(states: seq<Pool>, steps: seq<PoolStep>, i: nat) returns (q: Pool)
    requires IsPoolRun(states, steps) && i <= |steps| && !StartsInTime(states, steps, i)
    ensures Leads(states[i], q) && q.doneCloses == 2
  {
    var p := states[i];
    RunKeepsPoolInv(states, steps, i);
    TwoClosersIffLateStart(states, steps, i);
    if ClosingDone in p.stoppers {
      var k :| 0 <= k < |p.stoppers| && p.stoppers[k] == ClosingDone;
      assert StopperOk(p, p.stoppers[k]);
      var r := MonitorCanExit(p);
      q := MoveStopper(r, k);
      StepKeepsPoolInv(r, StopperMove(k));
      LeadsFurther(p, r, StopperMove(k), q);
    } else {
      q := MonitorCanExit(p);
    }
  }
}
