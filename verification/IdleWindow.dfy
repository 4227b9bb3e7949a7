/** The monitor only stops a function that was idle for the whole of its window. */
module IdleWindow {
  import opened Lifecycle
  import opened Protocol
  import opened Invariant

  /** Time stamps never lie in the future. */
  predicate Timely(s: Sys) {
    && (forall e :: 0 <= e < |s.entries| ==> s.entries[e].lastActive <= s.clock)
    && (forall t :: 0 <= t < |s.threads| ==> TimelyPc(s, s.threads[t]))
  }

  predicate TimelyPc(s: Sys, pc: Pc) {
    && (pc.Installing? ==> pc.incoming.lastActive <= s.clock)
    && ((pc.Lookup? || pc.Enter? || pc.Parked?) && pc.op.BatchActivity? ==> pc.op.stamp <= s.clock)
  }

  /** A batch section that writes a stamp older than the activity it overwrites. */
  predicate Backdates(s: Sys, step: Step, e: nat)
    requires e < |s.entries|
  {
    && step.Run? && step.thread < |s.threads|
    && s.threads[step.thread].Enter? && s.threads[step.thread].entry == e
    && s.threads[step.thread].op.BatchActivity?
    && s.entries[e].state == Active && s.threads[step.thread].op.stamp < s.entries[e].lastActive
  }

  /** The step records activity on entry e while it is or becomes active. */
  predicate RecordsActivity(s: Sys, step: Step, e: nat)
    requires e < |s.entries|
  {
    && step.Run? && step.thread < |s.threads|
    && match s.threads[step.thread]
       case Enter(op, f, _) =>
         && f == e
         && if op == EndInvocation then s.entries[e].state == Blocked && s.entries[e].inFlight == 1
            else s.entries[e].state == Active && (op == ScaleUpWhenReady || op == RecordActivity || op.BatchActivity?)
       case Commit(direction, _, f, ok) => f == e && ok == (direction == Up)
       case _ => false
  }

  /** When that activity took place: a batch speaks for the moment it was called. */
  function Moment(s: Sys, step: Step): int
    requires step.Run? && step.thread < |s.threads|
  {
    var pc := s.threads[step.thread];
    if pc.Enter? && pc.op.BatchActivity? then pc.op.stamp else s.clock
  }

  lemma EnterKeepsTimely(s: Sys, t: nat)
    requires Timely(s) && Enabled(s, Run(t)) && s.threads[t].Enter?
    ensures Timely(RunEnter(s, t)) && s.clock == RunEnter(s, t).clock && |s.entries| == |RunEnter(s, t).entries|
  {
    var s' := RunEnter(s, t);
    assert TimelyPc(s, s.threads[t]) && TimelyPc(s', s'.threads[t]);
    forall u | 0 <= u < |s'.threads| ensures TimelyPc(s', s'.threads[u]) {
      assert TimelyPc(s, s.threads[u]);
    }
  }

  lemma RunStepKeepsTimely(s: Sys, t: nat)
    requires Timely(s) && Enabled(s, Run(t)) && !s.threads[t].Enter?
    ensures Timely(RunThread(s, t)) && s.clock == RunThread(s, t).clock && |s.entries| <= |RunThread(s, t).entries|
  {
    var s' := RunThread(s, t);
    assert TimelyPc(s, s.threads[t]);
    assert TimelyPc(s', s'.threads[t]);
    forall u | 0 <= u < |s'.threads| ensures TimelyPc(s', s'.threads[u]) {
      assert TimelyPc(s, s.threads[u]);
    }
  }

  lemma StepKeepsTimely(s: Sys, step: Step)
    requires Timely(s) && Enabled(s, step)
    ensures Timely(Do(s, step)) && s.clock <= Do(s, step).clock && |s.entries| <= |Do(s, step).entries|
  {
    if step.Run? && s.threads[step.thread].Enter? {
      EnterKeepsTimely(s, step.thread);
    } else if step.Run? {
      RunStepKeepsTimely(s, step.thread);
    } else {
      var s' := Do(s, step);
      forall u | 0 <= u < |s'.threads| ensures TimelyPc(s', s'.threads[u]) {
        assert u < |s.threads| ==> TimelyPc(s, s.threads[u]);
      }
    }
  }

  lemma StampAfterEnter(s: Sys, t: nat, e: nat)
    requires Timely(s) && Enabled(s, Run(t)) && s.threads[t].Enter? && e < |s.entries|
    ensures var s' := RunEnter(s, t);
      && (s'.entries[e].lastActive < s.entries[e].lastActive <==> Backdates(s, Run(t), e))
      && (RecordsActivity(s, Run(t), e) ==> s'.entries[e].lastActive == Moment(s, Run(t)))
      && s'.entries[e].idleDuration == s.entries[e].idleDuration
  {
    assert TimelyPc(s, s.threads[t]);
  }

  lemma StampAfterOtherRun(s: Sys, t: nat, e: nat)
    requires Timely(s) && Enabled(s, Run(t)) && !s.threads[t].Enter? && e < |s.entries|
    ensures var s' := RunThread(s, t);
      && e < |s'.entries|
      && s.entries[e].lastActive <= s'.entries[e].lastActive
      && (RecordsActivity(s, Run(t), e) ==> s'.entries[e].lastActive == Moment(s, Run(t)))
      && s'.entries[e].idleDuration == s.entries[e].idleDuration
  {
  }

  /** In one step the activity stamp of an entry goes back exactly if the step is a
      batch section with an older stamp; recorded activity sets it to its moment. */
  lemma StampAfterStep(s: Sys, step: Step, e: nat)
    requires Timely(s) && Enabled(s, step) && e < |s.entries|
    ensures var s' := Do(s, step);
      && e < |s'.entries|
      && (s'.entries[e].lastActive < s.entries[e].lastActive <==> Backdates(s, step, e))
      && (RecordsActivity(s, step, e) ==> s'.entries[e].lastActive == Moment(s, step))
      && s'.entries[e].idleDuration == s.entries[e].idleDuration
  {
    if step.Run? {
      if s.threads[step.thread].Enter? {
        StampAfterEnter(s, step.thread, e);
      } else {
        StampAfterOtherRun(s, step.thread, e);
      }
    }
  }

  /** Nothing but recorded activity changes the stamp. */
  lemma OnlyActivityStamps(s: Sys, step: Step, e: nat)
    requires Inv(s) && Enabled(s, step) && e < |s.entries| && !RecordsActivity(s, step, e)
    ensures e < |Do(s, step).entries| && Do(s, step).entries[e].lastActive == s.entries[e].lastActive
  {
    if step.Run? {
      if s.threads[step.thread].Enter? {
        OnlyActivityStampsOnEnter(s, step.thread, e);
      }
    }
  }

  lemma OnlyActivityStampsOnEnter(s: Sys, t: nat, e: nat)
    requires Inv(s) && Enabled(s, Run(t)) && s.threads[t].Enter? && e < |s.entries| && !RecordsActivity(s, Run(t), e)
    ensures RunEnter(s, t).entries[e].lastActive == s.entries[e].lastActive
  {
    assert EntryOk(s, e);
  }

  /** A blocked entry only leaves that state through the end of its last request,
      which stamps it. */
  lemma BlockedAfterStep(s: Sys, step: Step, e: nat)
    requires Inv(s) && Enabled(s, step) && e < |s.entries| && s.entries[e].state == Blocked
    ensures var s' := Do(s, step);
      s'.entries[e].state == Blocked || s'.entries[e].lastActive == s.clock == s'.clock
  {
    assert EntryOk(s, e);
    if step.Run? {
      assert PcOk(s, s.threads[step.thread]);
    }
  }

  lemma {:induction false} RunIsTimely(states: seq<Sys>, steps: seq<Step>, i: nat)
    requires IsRun(states, steps) && i <= |steps|
    ensures Timely(states[i])
  {
    if i > 0 {
      RunIsTimely(states, steps, i - 1);
      StepKeepsTimely(states[i - 1], steps[i - 1]);
    }
  }

  lemma {:induction false} ClockIsMonotone(states: seq<Sys>, steps: seq<Step>, i: nat, j: nat)
    requires IsRun(states, steps) && i <= j <= |steps|
    ensures states[i].clock <= states[j].clock && |states[i].entries| <= |states[j].entries|
    decreases j
  {
    if i < j {
      ClockIsMonotone(states, steps, i, j - 1);
      RunIsTimely(states, steps, j - 1);
      StepKeepsTimely(states[j - 1], steps[j - 1]);
    }
  }

  /** No step from i up to j backdates entry e. */
  ghost predicate NeverBackdated(states: seq<Sys>, steps: seq<Step>, i: nat, j: nat, e: nat)
    requires IsRun(states, steps) && i <= j <= |steps|
  {
    forall k {:trigger steps[k]} :: i <= k < j ==> e < |states[k].entries| ==> !Backdates(states[k], steps[k], e)
  }

  /** Without backdating, the activity stamp never decreases and the idle window of an
      entry never changes. */
  lemma {:induction false} StampIsMonotone(states: seq<Sys>, steps: seq<Step>, i: nat, j: nat, e: nat)
    requires IsRun(states, steps) && i <= j <= |steps| && e < |states[i].entries|
    requires NeverBackdated(states, steps, i, j, e)
    ensures e < |states[j].entries|
    ensures states[i].entries[e].lastActive <= states[j].entries[e].lastActive
    ensures states[i].entries[e].idleDuration == states[j].entries[e].idleDuration
    decreases j
  {
    if i < j {
      StampIsMonotone(states, steps, i, j - 1, e);
      RunIsTimely(states, steps, j - 1);
      StampAfterStep(states[j - 1], steps[j - 1], e);
    }
  }

  // ---- The window ----

  /** The batch section moves the stamp from inside the window to before its beginning. */
  predicate Crosses(s: Sys, step: Step, e: nat, begin: int) {
    && e < |s.entries| && Backdates(s, step, e)
    && s.threads[step.thread].op.stamp < begin <= s.entries[e].lastActive
  }

  ghost predicate NeverCrosses(states: seq<Sys>, steps: seq<Step>, i: nat, j: nat, e: nat, begin: int)
    requires IsRun(states, steps) && i <= j <= |steps|
  {
    forall k {:trigger steps[k]} :: i <= k < j ==> !Crosses(states[k], steps[k], e, begin)
  }

  /** The entry is blocked or was last active in the window, which has begun. */
  predicate InWindow(s: Sys, e: nat, begin: int) {
    e < |s.entries| && begin <= s.clock && (s.entries[e].state == Blocked || begin <= s.entries[e].lastActive)
  }

  lemma StepStaysInWindow(s: Sys, step: Step, e: nat, begin: int)
    requires Inv(s) && Timely(s) && Enabled(s, step) && InWindow(s, e, begin) && !Crosses(s, step, e, begin)
    ensures InWindow(Do(s, step), e, begin)
  {
    StepKeepsTimely(s, step);
    StampAfterStep(s, step, e);
    if s.entries[e].state == Blocked {
      BlockedAfterStep(s, step, e);
    }
  }

  /** Without a crossing the entry stays in the window. */
  lemma {:induction false} StaysInWindow(states: seq<Sys>, steps: seq<Step>, i: nat, j: nat, e: nat, begin: int)
    requires IsRun(states, steps) && i <= j <= |steps|
    requires InWindow(states[i], e, begin) && NeverCrosses(states, steps, i, j, e, begin)
    ensures InWindow(states[j], e, begin)
    decreases j
  {
    if i < j {
      StaysInWindow(states, steps, i, j - 1, e, begin);
      RunIsTimely(states, steps, j - 1);
      RunKeepsInv(states, steps, j - 1);
      StepStaysInWindow(states[j - 1], steps[j - 1], e, begin);
    }
  }

  /** Once a request was in flight, the entry is still blocked or has been stamped since. */
  lemma BlockedLeavesStamp(states: seq<Sys>, steps: seq<Step>, i: nat, j: nat, e: nat)
    requires IsRun(states, steps) && i <= j <= |steps| && e < |states[i].entries|
    requires NeverBackdated(states, steps, i, j, e) && states[i].entries[e].state == Blocked
    ensures e < |states[j].entries|
    ensures states[j].entries[e].state == Blocked || states[i].clock <= states[j].entries[e].lastActive
  {
    StaysInWindow(states, steps, i, j, e, states[i].clock);
  }

  /** Step k is a scan that decides to scale entry e down. */
  predicate ScanCommits(states: seq<Sys>, steps: seq<Step>, k: nat, e: nat)
    requires IsRun(states, steps) && k < |steps|
  {
    && steps[k].Run?
    && states[k].threads[steps[k].thread] == Enter(IdleScan, e, Plain)
    && states[k + 1].threads[steps[k].thread] == StopCheck(e)
  }

  lemma CommitMeansStale(states: seq<Sys>, steps: seq<Step>, k: nat, e: nat)
    requires IsRun(states, steps) && k < |steps| && ScanCommits(states, steps, k, e)
    ensures e < |states[k].entries| && states[k].entries[e].state == Active && states[k].entries[e].scaleToZero
    ensures states[k].entries[e].lastActive < states[k].clock - states[k].entries[e].idleDuration
  {
  }

  /** A request is in flight on the entry, in the window. */
  predicate BusyIn(s: Sys, e: nat, begin: int) {
    e < |s.entries| && begin <= s.clock && s.entries[e].inFlight > 0
  }

  /** The step records activity for a moment in the window, or registers the entry in it. */
  predicate ActiveIn(s: Sys, step: Step, e: nat, begin: int) {
    || (e < |s.entries| && RecordsActivity(s, step, e) && begin <= Moment(s, step))
    || (&& step.Run? && step.thread < |s.threads| && s.threads[step.thread].Installing?
        && e == |s.entries| && begin <= s.threads[step.thread].incoming.lastActive)
  }

  /** Nothing happened on entry e in the window that ends with state k. */
  ghost predicate IdleSince(states: seq<Sys>, steps: seq<Step>, k: nat, e: nat, begin: int)
    requires IsRun(states, steps) && k <= |steps|
  {
    && (forall j :: 0 <= j <= k ==> !BusyIn(states[j], e, begin))
    && forall j {:trigger steps[j]} :: 0 <= j < k ==> !ActiveIn(states[j], steps[j], e, begin)
  }

  /** A stamp in the window comes from activity in the window. */
  lemma {:induction false} StampHasSource(states: seq<Sys>, steps: seq<Step>, j: nat, e: nat, begin: int)
    returns (m: nat)
    requires IsRun(states, steps) && j <= |steps| && e < |states[j].entries| && begin <= states[j].entries[e].lastActive
    ensures m < j && ActiveIn(states[m], steps[m], e, begin)
  {
    RunIsTimely(states, steps, j - 1);
    RunKeepsInv(states, steps, j - 1);
    StampHasSourceInStep(states[j - 1], steps[j - 1], e, begin);
    m := j - 1;
    if !ActiveIn(states[j - 1], steps[j - 1], e, begin) {
      m := StampHasSource(states, steps, j - 1, e, begin);
    }
  }

  lemma StampHasSourceInStep(s: Sys, step: Step, e: nat, begin: int)
    requires Inv(s) && Timely(s) && Enabled(s, step)
    requires e < |Do(s, step).entries| && begin <= Do(s, step).entries[e].lastActive
    ensures ActiveIn(s, step, e, begin) || (e < |s.entries| && begin <= s.entries[e].lastActive)
  {
    if e >= |s.entries| {
      NewEntryIsRegistered(s, step, e);
    } else if RecordsActivity(s, step, e) {
      StampAfterStep(s, step, e);
    } else {
      OnlyActivityStamps(s, step, e);
    }
  }

  lemma NewEntryIsRegistered(s: Sys, step: Step, e: nat)
    requires Enabled(s, step) && |s.entries| <= e < |Do(s, step).entries|
    ensures step.Run? && s.threads[step.thread].Installing? && e == |s.entries|
    ensures Do(s, step).entries[e] == s.threads[step.thread].incoming
  {
  }

  lemma ActivityIsInWindow(s: Sys, step: Step, e: nat, begin: int)
    requires Timely(s) && Enabled(s, step) && ActiveIn(s, step, e, begin)
    ensures InWindow(Do(s, step), e, begin)
  {
    StepKeepsTimely(s, step);
    if e < |s.entries| {
      StampAfterStep(s, step, e);
    }
  }

  /** A scan that commits at step k found the entry idle since j, if no batch crossed the
      beginning of the window from j on. */
  lemma IdleFrom(states: seq<Sys>, steps: seq<Step>, k: nat, e: nat, j: nat)
    requires IsRun(states, steps) && k < |steps| && ScanCommits(states, steps, k, e) && j <= k
    requires NeverCrosses(states, steps, j, k, e, WindowBegin(states[k], e))
    ensures !BusyIn(states[j], e, WindowBegin(states[k], e))
    ensures j < k ==> !ActiveIn(states[j], steps[j], e, WindowBegin(states[k], e))
  {
    var begin := WindowBegin(states[k], e);
    CommitMeansStale(states, steps, k, e);
    RunKeepsInv(states, steps, j);
    RunIsTimely(states, steps, j);
    if BusyIn(states[j], e, begin) {
      assert EntryOk(states[j], e);
      StaysInWindow(states, steps, j, k, e, begin);
    }
    if j < k && ActiveIn(states[j], steps[j], e, begin) {
      ActivityIsInWindow(states[j], steps[j], e, begin);
      StaysInWindow(states, steps, j + 1, k, e, begin);
    }
  }

  function WindowBegin(s: Sys, e: nat): int {
    if e < |s.entries| then s.clock - s.entries[e].idleDuration else 0
  }

  /** Exactly when the idle window is respected: the entry that the monitor decides to stop
      was idle for the whole of its window if and only if no batch section moved its stamp
      from inside the window to before it. */
  lemma IdleWindowIffNoCrossing(states: seq<Sys>, steps: seq<Step>, k: nat, e: nat)
    requires IsRun(states, steps) && k < |steps| && ScanCommits(states, steps, k, e)
    ensures e < |states[k].entries|
    ensures var begin := states[k].clock - states[k].entries[e].idleDuration;
      IdleSince(states, steps, k, e, begin) <==> NeverCrosses(states, steps, 0, k, e, begin)
  {
    CommitMeansStale(states, steps, k, e);
    var begin := WindowBegin(states[k], e);
    if NeverCrosses(states, steps, 0, k, e, begin) {
      forall j | 0 <= j <= k ensures !BusyIn(states[j], e, begin) {
        IdleFrom(states, steps, k, e, j);
      }
      forall j {:trigger steps[j]} | 0 <= j < k ensures !ActiveIn(states[j], steps[j], e, begin) {
        IdleFrom(states, steps, k, e, j);
      }
    } else {
      var j :| 0 <= j < k && Crosses(states[j], steps[j], e, begin);
      var m := StampHasSource(states, steps, j, e, begin);
      assert ActiveIn(states[m], steps[m], e, begin);
    }
  }

  /** When the monitor commits a scale-down at time now, and no batch section from state j
      on crossed the beginning of the window, then at state j, if it lies in
      [now - idleDuration, now], no request was in flight on the entry, and the step after
      it recorded no activity for a moment in that interval. */
  lemma IdleForTheWholeWindow(states: seq<Sys>, steps: seq<Step>, k: nat, e: nat, j: nat)
    requires IsRun(states, steps) && k < |steps| && ScanCommits(states, steps, k, e)
    requires j <= k && e < |states[j].entries| && NeverCrosses(states, steps, j, k, e, WindowBegin(states[k], e))
    ensures e < |states[k].entries|
    ensures states[k].clock - states[k].entries[e].idleDuration <= states[j].clock ==>
              states[j].entries[e].inFlight == 0
    ensures j < k && RecordsActivity(states[j], steps[j], e) ==>
              Moment(states[j], steps[j]) < states[k].clock - states[k].entries[e].idleDuration
  {
    CommitMeansStale(states, steps, k, e);
    RunKeepsInv(states, steps, j);
    assert EntryOk(states[j], e);
    IdleFrom(states, steps, k, e, j);
  }
}
