/** Without new calls every burst of activity dies down: a measure of the state falls
    with every move of a thread, so a call-free run has no infinite retry loop. */
module Settling {
  import opened Lifecycle
  import opened Protocol
  import opened Invariant

  /** How many notifications a call of this kind can still publish. */
  function OpBudget(op: Op): nat {
    match op
    case StartInvocation | EndInvocation => 1
    case ScaleUpWhenReady | TryScaleUp | ScaleDownWhenIdle | IdleScan => 2
    case RecordActivity | BatchActivity(_) => 0
  }

  function Budget(pc: Pc): nat {
    match pc
    case Lookup(op, _, _) => OpBudget(op)
    case Enter(op, _, _) => OpBudget(op)
    case Parked(op, _, _, _) => OpBudget(op)
    case StopCheck(_) | Revert(_) | Host(_, _, _) | Commit(_, _, _, _) | Claim(_) => 1
    case Installing(_) | Removing(_) | CloseCheck(_) | CloseNow(_) | Returned(_) => 0
  }

  function BatchWork(context: Context): nat {
    if context.Batch? then 4 * |context.rest| else 0
  }

  /** How far a thread is from returning or from being parked on an open channel. */
  function Distance(entries: seq<Entry>, pc: Pc): nat {
    match pc
    case Returned(_) => 0
    case Parked(_, e, _, captured) => if e < |entries| && captured < entries[e].generation then 3 else 1
    case Enter(_, _, context) => 2 + BatchWork(context)
    case Lookup(_, _, context) => 4 + BatchWork(context)
    case Claim(_) => 5
    case StopCheck(_) => 4
    case Host(_, _, _) => 3
    case Revert(_) => 2
    case Commit(_, _, _, _) => 2
    case Installing(_) => 3
    case Removing(_) => 3
    case CloseCheck(_) => 2
    case CloseNow(_) => 1
  }

  function TotalBudget(threads: seq<Pc>): nat {
    if threads == [] then 0 else TotalBudget(threads[..|threads| - 1]) + Budget(threads[|threads| - 1])
  }

  function TotalDistance(entries: seq<Entry>, threads: seq<Pc>): nat {
    if threads == [] then 0
    else TotalDistance(entries, threads[..|threads| - 1]) + Distance(entries, threads[|threads| - 1])
  }

  lemma {:induction false} BudgetAfterMove(threads: seq<Pc>, t: nat, pc: Pc)
    requires t < |threads|
    ensures TotalBudget(threads[t := pc]) == TotalBudget(threads) - Budget(threads[t]) + Budget(pc)
  {
    var last := |threads| - 1;
    if t < last {
      BudgetAfterMove(threads[..last], t, pc);
      assert threads[t := pc][..last] == threads[..last][t := pc];
    } else {
      assert threads[t := pc][..last] == threads[..last];
    }
  }

  /** If no entry is notified, only the moving thread's distance changes. */
  lemma {:induction false} DistanceAfterMove(entries: seq<Entry>, entries': seq<Entry>, threads: seq<Pc>, t: nat,
                                             pc: Pc)
    requires t < |threads| && |entries| <= |entries'|
    requires forall e :: 0 <= e < |entries| ==> entries'[e].generation == entries[e].generation
    requires forall u :: 0 <= u < |threads| && threads[u].Parked? ==> threads[u].entry < |entries|
    ensures TotalDistance(entries', threads[t := pc])
         == TotalDistance(entries, threads) - Distance(entries, threads[t]) + Distance(entries', pc)
  {
    var last := |threads| - 1;
    if t < last {
      DistanceAfterMove(entries, entries', threads[..last], t, pc);
      assert threads[t := pc][..last] == threads[..last][t := pc];
    } else {
      assert threads[t := pc][..last] == threads[..last];
      DistanceUnchanged(entries, entries', threads[..last]);
    }
  }

  lemma {:induction false} DistanceUnchanged(entries: seq<Entry>, entries': seq<Entry>, threads: seq<Pc>)
    requires |entries| <= |entries'|
    requires forall e :: 0 <= e < |entries| ==> entries'[e].generation == entries[e].generation
    requires forall u :: 0 <= u < |threads| && threads[u].Parked? ==> threads[u].entry < |entries|
    ensures TotalDistance(entries', threads) == TotalDistance(entries, threads)
  {
    if threads != [] {
      DistanceUnchanged(entries, entries', threads[..|threads| - 1]);
    }
  }

  predicate ThreadMove(step: Step) {
    step.Run? || step.HostReturn? || step.Wake?
  }

  /** The lexicographic measure: notifications still possible, then distance. */
  ghost predicate Closer(s': Sys, s: Sys) {
    || TotalBudget(s'.threads) < TotalBudget(s.threads)
    || (&& TotalBudget(s'.threads) == TotalBudget(s.threads)
        && TotalDistance(s'.entries, s'.threads) < TotalDistance(s.entries, s.threads))
  }

  lemma MoveBringsCloser(s: Sys, s': Sys, t: nat)
    requires Inv(s) && t < |s.threads| && t < |s'.threads| && s'.threads == s.threads[t := s'.threads[t]]
    requires |s.entries| <= |s'.entries|
    requires Budget(s'.threads[t]) <= Budget(s.threads[t])
    requires Budget(s'.threads[t]) == Budget(s.threads[t]) ==>
      && (forall e :: 0 <= e < |s.entries| ==> s'.entries[e].generation == s.entries[e].generation)
      && Distance(s'.entries, s'.threads[t]) < Distance(s.entries, s.threads[t])
    ensures Closer(s', s)
  {
    BudgetAfterMove(s.threads, t, s'.threads[t]);
    if Budget(s'.threads[t]) == Budget(s.threads[t]) {
      forall u | 0 <= u < |s.threads| && s.threads[u].Parked? ensures s.threads[u].entry < |s.entries| {
        assert PcOk(s, s.threads[u]);
      }
      DistanceAfterMove(s.entries, s'.entries, s.threads, t, s'.threads[t]);
    }
  }

  lemma EnterBringsCloser(s: Sys, t: nat)
    requires Inv(s) && Enabled(s, Run(t)) && s.threads[t].Enter?
    ensures Closer(RunEnter(s, t), s)
  {
    var s' := RunEnter(s, t);
    assert PcOk(s, s.threads[t]) && EntryOk(s, s.threads[t].entry);
    SectionKeepsWellFormed(s.threads[t].op, s.entries[s.threads[t].entry], s.clock);
    MoveBringsCloser(s, s', t);
  }

  lemma LookupBringsCloser(s: Sys, t: nat)
    requires Inv(s) && Enabled(s, Run(t)) && s.threads[t].Lookup?
    ensures Closer(RunThread(s, t), s)
  {
    assert PcOk(s, s.threads[t]);
    MoveBringsCloser(s, RunThread(s, t), t);
  }

  lemma RegistryMoveBringsCloser(s: Sys, t: nat)
    requires Inv(s) && Enabled(s, Run(t))
    requires s.threads[t].Installing? || s.threads[t].Removing? || s.threads[t].CloseCheck? || s.threads[t].CloseNow?
    ensures Closer(RunThread(s, t), s)
  {
    MoveBringsCloser(s, RunThread(s, t), t);
  }

  lemma OwnerMoveBringsCloser(s: Sys, t: nat)
    requires Inv(s) && Enabled(s, Run(t))
    requires s.threads[t].StopCheck? || s.threads[t].Revert? || s.threads[t].Commit? || s.threads[t].Claim?
    ensures Closer(RunThread(s, t), s)
  {
    MoveBringsCloser(s, RunThread(s, t), t);
  }

  lemma RunBringsCloser(s: Sys, t: nat)
    requires Inv(s) && Enabled(s, Run(t))
    ensures Closer(RunThread(s, t), s)
  {
    if s.threads[t].Enter? {
      EnterBringsCloser(s, t);
    } else if s.threads[t].Lookup? {
      LookupBringsCloser(s, t);
    } else if RoleOf(s.threads[t]).Owner? || s.threads[t].Claim? {
      OwnerMoveBringsCloser(s, t);
    } else {
      RegistryMoveBringsCloser(s, t);
    }
  }

  lemma MoveSettles(s: Sys, step: Step)
    requires Inv(s) && Enabled(s, step) && ThreadMove(step)
    ensures Closer(Do(s, step), s)
  {
    match step
    case Run(t) => RunBringsCloser(s, t);
    case HostReturn(t, ok) => MoveBringsCloser(s, HostAnswers(s, t, ok), t);
    case Wake(t, reason) =>
      assert PcOk(s, s.threads[t]);
      MoveBringsCloser(s, WakeUp(s, t, reason), t);
  }

  /** Every move of every thread brings the system closer to rest. */
  lemma EveryMoveSettles(states: seq<Sys>, steps: seq<Step>, i: nat)
    requires IsRun(states, steps) && i < |steps| && ThreadMove(steps[i])
    ensures Closer(states[i + 1], states[i])
  {
    RunKeepsInv(states, steps, i);
    MoveSettles(states[i], steps[i]);
  }

  // ---- How many moves a call-free stretch can have ----

  /** The distance that a thread can have from now on. */
  function Cap(pc: Pc): nat {
    match pc
    case Lookup(_, _, context) => 5 + BatchWork(context)
    case Enter(_, _, context) => 5 + BatchWork(context)
    case Parked(_, _, context, _) => 5 + BatchWork(context)
    case _ => 5
  }

  function TotalCap(threads: seq<Pc>): nat {
    if threads == [] then 0 else TotalCap(threads[..|threads| - 1]) + Cap(threads[|threads| - 1])
  }

  lemma {:induction false} DistanceWithinCap(entries: seq<Entry>, threads: seq<Pc>)
    ensures TotalDistance(entries, threads) <= TotalCap(threads)
  {
    if threads != [] {
      DistanceWithinCap(entries, threads[..|threads| - 1]);
    }
  }

  lemma {:induction false} CapAfterMove(threads: seq<Pc>, t: nat, pc: Pc)
    requires t < |threads|
    ensures TotalCap(threads[t := pc]) == TotalCap(threads) - Cap(threads[t]) + Cap(pc)
  {
    var last := |threads| - 1;
    if t < last {
      CapAfterMove(threads[..last], t, pc);
      assert threads[t := pc][..last] == threads[..last][t := pc];
    } else {
      assert threads[t := pc][..last] == threads[..last];
    }
  }

  lemma EnterLowersCap(s: Sys, t: nat)
    requires Inv(s) && Enabled(s, Run(t)) && s.threads[t].Enter?
    ensures Cap(RunEnter(s, t).threads[t]) <= Cap(s.threads[t])
    ensures RunEnter(s, t).threads == s.threads[t := RunEnter(s, t).threads[t]]
  {
    assert PcOk(s, s.threads[t]);
  }

  lemma OtherRunLowersCap(s: Sys, t: nat)
    requires Inv(s) && Enabled(s, Run(t)) && !s.threads[t].Enter?
    ensures Cap(RunThread(s, t).threads[t]) <= Cap(s.threads[t])
    ensures RunThread(s, t).threads == s.threads[t := RunThread(s, t).threads[t]]
  {
    assert PcOk(s, s.threads[t]);
  }

  lemma MoveLowersCap(s: Sys, step: Step)
    requires Inv(s) && Enabled(s, step) && ThreadMove(step)
    ensures TotalCap(Do(s, step).threads) <= TotalCap(s.threads)
  {
    var t, s' := step.thread, Do(s, step);
    assert PcOk(s, s.threads[t]);
    if step.Run? && s.threads[t].Enter? {
      EnterLowersCap(s, t);
    } else if step.Run? {
      OtherRunLowersCap(s, t);
    }
    CapAfterMove(s.threads, t, s'.threads[t]);
  }

  /** The moves left, when no thread's distance ever exceeds its share of `cap`. */
  function MovesLeft(s: Sys, cap: nat): nat {
    TotalBudget(s.threads) * (cap + 1) + TotalDistance(s.entries, s.threads)
  }

  lemma MulMonotone(a: nat, b: nat, c: nat)
    requires a <= b
    ensures a * c <= b * c
  {
    assert b * c == a * c + (b - a) * c;
  }

  lemma Lexicographic(b: nat, d: nat, b': nat, d': nat, cap: nat)
    requires (b' < b && d' <= cap) || (b' == b && d' < d)
    ensures b' * (cap + 1) + d' < b * (cap + 1) + d
  {
    if b' < b {
      MulMonotone(b' + 1, b, cap + 1);
      assert (b' + 1) * (cap + 1) == b' * (cap + 1) + (cap + 1);
    }
  }

  lemma CloserLeavesFewer(s: Sys, s': Sys, cap: nat)
    requires Closer(s', s) && TotalCap(s'.threads) <= cap
    ensures MovesLeft(s', cap) < MovesLeft(s, cap)
  {
    DistanceWithinCap(s'.entries, s'.threads);
    Lexicographic(TotalBudget(s.threads), TotalDistance(s.entries, s.threads),
                  TotalBudget(s'.threads), TotalDistance(s'.entries, s'.threads), cap);
  }

  /** The number of thread moves among the steps from i up to j. */
  function Moves(steps: seq<Step>, i: nat, j: nat): nat
    requires i <= j <= |steps|
  {
    if i == j then 0 else Moves(steps, i, j - 1) + if ThreadMove(steps[j - 1]) then 1 else 0
  }

  lemma StepUsesUp(states: seq<Sys>, steps: seq<Step>, k: nat, cap: nat)
    requires IsRun(states, steps) && k < |steps| && !steps[k].Call? && TotalCap(states[k].threads) <= cap
    ensures TotalCap(states[k + 1].threads) <= cap
    ensures MovesLeft(states[k + 1], cap) + (if ThreadMove(steps[k]) then 1 else 0) <= MovesLeft(states[k], cap)
  {
    var s, s' := states[k], states[k + 1];
    if ThreadMove(steps[k]) {
      RunKeepsInv(states, steps, k);
      MoveLowersCap(s, steps[k]);
      EveryMoveSettles(states, steps, k);
      CloserLeavesFewer(s, s', cap);
    } else {
      assert s'.entries == s.entries && s'.threads == s.threads;
    }
  }

  lemma {:induction false} CapNeverGrows(states: seq<Sys>, steps: seq<Step>, i: nat, k: nat)
    requires IsRun(states, steps) && i <= k <= |steps| && forall m :: i <= m < k ==> !steps[m].Call?
    ensures TotalCap(states[k].threads) <= TotalCap(states[i].threads)
    decreases k
  {
    if i < k {
      CapNeverGrows(states, steps, i, k - 1);
      StepUsesUp(states, steps, k - 1, TotalCap(states[i].threads));
    }
  }

  lemma {:induction false} CountDown(steps: seq<Step>, i: nat, j: nat, left: seq<nat>)
    requires i <= j <= |steps| < |left|
    requires forall k :: i <= k < j ==> left[k + 1] + (if ThreadMove(steps[k]) then 1 else 0) <= left[k]
    ensures Moves(steps, i, j) + left[j] <= left[i]
    decreases j
  {
    if i < j {
      CountDown(steps, i, j - 1, left);
    }
  }

  lemma MovesUseUp(states: seq<Sys>, steps: seq<Step>, i: nat, j: nat)
    requires IsRun(states, steps) && i <= j <= |steps| && forall k :: i <= k < j ==> !steps[k].Call?
    ensures Moves(steps, i, j) <= MovesLeft(states[i], TotalCap(states[i].threads))
  {
    var cap := TotalCap(states[i].threads);
    var left := seq(|states|, k requires 0 <= k < |states| => MovesLeft(states[k], cap));
    forall k | i <= k < j ensures left[k + 1] + (if ThreadMove(steps[k]) then 1 else 0) <= left[k] {
      CapNeverGrows(states, steps, i, k);
      StepUsesUp(states, steps, k, cap);
    }
    CountDown(steps, i, j, left);
  }

  lemma {:induction false} BudgetPerThread(threads: seq<Pc>)
    ensures TotalBudget(threads) <= 2 * |threads|
  {
    if threads != [] {
      BudgetPerThread(threads[..|threads| - 1]);
    }
  }

  /** A stretch of a run without new calls has at most (2n + 1)(cap + 1) thread moves, for
      n threads and a cap of five for each plus four for each name left in a batch. */
  lemma CallFreeStretchIsBounded(states: seq<Sys>, steps: seq<Step>, i: nat, j: nat)
    requires IsRun(states, steps) && i <= j <= |steps| && forall k :: i <= k < j ==> !steps[k].Call?
    ensures Moves(steps, i, j) <= (2 * |states[i].threads| + 1) * (TotalCap(states[i].threads) + 1)
  {
    var s := states[i];
    var cap := TotalCap(s.threads);
    MovesUseUp(states, steps, i, j);
    DistanceWithinCap(s.entries, s.threads);
    BudgetPerThread(s.threads);
    MulMonotone(TotalBudget(s.threads), 2 * |s.threads|, cap + 1);
    assert (2 * |s.threads| + 1) * (cap + 1) == 2 * |s.threads| * (cap + 1) + (cap + 1);
  }
}
