/** From a call to its answer: what each call does before it reaches an entry, that it stays
    the call it was, and what registration and removal leave behind. */
module Requests {
  import opened Lifecycle
  import opened Protocol
  import opened Invariant
  import opened HostRuntime
  import opened Answers

  // ---- Registration and removal ----

  /** No thread disappears. */
  predicate ThreadsGrow(states: seq<Sys>) {
    forall k :: 0 <= k < |states| - 1 ==> |states[k].threads| <= |states[k + 1].threads|
  }

  lemma {:induction false} GrownThreads(states: seq<Sys>, i: nat, j: nat)
    requires ThreadsGrow(states) && i <= j < |states|
    ensures |states[i].threads| <= |states[j].threads|
    decreases j
  {
    if i < j {
      GrownThreads(states, i, j - 1);
      assert |states[j - 1].threads| <= |states[j - 1 + 1].threads|;
    }
  }

  lemma StepGrowsThreads(s: Sys, step: Step)
    requires Enabled(s, step)
    ensures |s.threads| <= |Do(s, step).threads|
  {
  }

  lemma ThreadsStay(states: seq<Sys>, steps: seq<Step>, i: nat, j: nat)
    requires IsRun(states, steps) && i <= j <= |steps|
    ensures ThreadsGrow(states) && |states[i].threads| <= |states[j].threads|
  {
    forall k | 0 <= k < |states| - 1 ensures |states[k].threads| <= |states[k + 1].threads| {
      StepGrowsThreads(states[k], steps[k]);
    }
    GrownThreads(states, i, j);
  }

  predicate IsInstalling(s: Sys, t: nat) {
    t < |s.threads| && s.threads[t].Installing?
  }

  /** Whatever is to install an entry after a step was to install the same one before. */
  predicate InstallsOnlyFirst(states: seq<Sys>, t: nat) {
    forall k :: 0 <= k < |states| - 1 && t < |states[k].threads| && IsInstalling(states[k + 1], t) ==>
      states[k].threads[t] == states[k + 1].threads[t]
  }

  lemma {:induction false} InstallingBack(states: seq<Sys>, i: nat, j: nat, t: nat)
    requires ThreadsGrow(states) && InstallsOnlyFirst(states, t) && i <= j < |states|
    requires t < |states[i].threads| && IsInstalling(states[j], t)
    ensures states[i].threads[t] == states[j].threads[t]
    decreases j
  {
    if i < j {
      GrownThreads(states, i, j - 1);
      assert IsInstalling(states[j - 1 + 1], t);
      InstallingBack(states, i, j - 1, t);
    }
  }

  lemma InstallingWasInstalling(states: seq<Sys>, steps: seq<Step>, k: nat, t: nat)
    requires IsRun(states, steps) && k < |steps| && t < |states[k].threads| && IsInstalling(states[k + 1], t)
    ensures states[k].threads[t] == states[k + 1].threads[t]
  {
    OwnStepMoves(states, steps, k, t);
  }

  /** A thread that is still to install an entry has not moved since it was called. */
  lemma StillInstalling(states: seq<Sys>, steps: seq<Step>, i: nat, j: nat, t: nat)
    requires IsRun(states, steps) && i <= j <= |steps|
    requires t < |states[i].threads| && IsInstalling(states[j], t)
    ensures states[i].threads[t] == states[j].threads[t]
  {
    ThreadsStay(states, steps, i, j);
    forall k | 0 <= k < |states| - 1 && t < |states[k].threads| && IsInstalling(states[k + 1], t)
      ensures states[k].threads[t] == states[k + 1].threads[t]
    {
      InstallingWasInstalling(states, steps, k, t);
    }
    InstallingBack(states, i, j, t);
  }

  /** A registration puts a new entry under the name: scaled down exactly if that was asked
      for and active otherwise, with nothing in flight, stamped with the time of the call,
      with the window and the flag of the call, open channels, and its runtime down exactly
      if it is scaled down. No other entry and no other name is touched. */
  lemma RegistrationTakesEffect(states: seq<Sys>, steps: seq<Step>, i: nat, j: nat, name: string, initial: State,
                                idleDuration: int, scaleToZero: bool)
    requires IsRun(states, steps) && i < j < |steps|
    requires steps[i] == Call(Register(name, initial, idleDuration, scaleToZero))
    requires steps[j] == Run(|states[i].threads|) && states[j].threads[|states[i].threads|].Installing?
    ensures var s, s' := states[j], states[j + 1]; var r := |s.entries|;
      && s'.registry == s.registry[name := r] && |s'.entries| == r + 1 == |s'.born|
      && s'.entries[..r] == s.entries && s'.born[..r] == s.born
      && var entry := s'.entries[r];
      && entry.name == name
      && (entry.state == ScaledDown <==> initial == ScaledDown)
      && (entry.state == Active <==> initial != ScaledDown)
      && (s'.born[r] <==> initial != ScaledDown)
      && (IsUp(s', r) <==> initial != ScaledDown)
      && entry.inFlight == 0
      && entry.lastAccess == states[i].clock && entry.lastActive == states[i].clock
      && entry.idleDuration == idleDuration && entry.scaleToZero == scaleToZero
      && entry.generation == 0 && entry.closes == 0
  {
    var t := |states[i].threads|;
    StillInstalling(states, steps, i + 1, j, t);
    assert states[i + 1].threads[t] == FirstPc(states[i], steps[i].request);
    assert states[j + 1] == RunInstall(states[j], t);
    RunKeepsHostInv(states, steps, j);
    RunKeepsInv(states, steps, j);
    NoEventsOf(states[j].log, |states[j].entries|, states[j + 1].born[|states[j].entries|]);
  }

  /** An unregistration takes the name out and touches nothing else. */
  lemma RemovalTakesEffect(states: seq<Sys>, steps: seq<Step>, j: nat, t: nat)
    requires IsRun(states, steps) && j < |steps| && steps[j] == Run(t) && states[j].threads[t].Removing?
    ensures var s, s', name := states[j], states[j + 1], states[j].threads[t].name;
      && name !in s'.registry
      && (forall n :: n != name ==> (n in s'.registry <==> n in s.registry))
      && (forall n :: n in s'.registry ==> s'.registry[n] == s.registry[n])
      && s'.entries == s.entries && s'.log == s.log
  {
  }

  // ---- Before and after the section ----

  /** A name that is not registered: ends and records do nothing, the other calls report
      it. A name that is registered leads to its entry. Nothing else changes. */
  lemma LookupAnswers(states: seq<Sys>, steps: seq<Step>, i: nat, t: nat)
    requires IsRun(states, steps) && i < |steps| && steps[i] == Run(t) && states[i].threads[t].Lookup?
    ensures t < |states[i].threads| == |states[i + 1].threads|
    ensures var s, s' := states[i], states[i + 1]; var Lookup(op, name, context) := s.threads[t];
      && s' == s.(threads := s.threads[t := s'.threads[t]])
      && (name in s.registry ==> s'.threads[t] == Enter(op, s.registry[name], context))
      && (name !in s.registry && op == EndInvocation ==> s'.threads[t] == Returned(Ended))
      && (name !in s.registry && op == RecordActivity ==> s'.threads[t] == Returned(Touched))
      && (name !in s.registry && Scales(op) ==> s'.threads[t] == Returned(Failed(NotFound)))
  {
  }

  /** The calls that have to find their function. */
  predicate Scales(op: Op) {
    op == StartInvocation || op == ScaleUpWhenReady || op == TryScaleUp || op == ScaleDownWhenIdle
  }

  /** A waiter that is notified looks at its entry again; one whose entry is gone or that is
      stopped reports that. */
  lemma WakeAnswers(states: seq<Sys>, steps: seq<Step>, i: nat, t: nat, reason: Reason)
    requires IsRun(states, steps) && i < |steps| && steps[i] == Wake(t, reason)
    ensures t < |states[i].threads| == |states[i + 1].threads| && states[i].threads[t].Parked?
    ensures var s, s' := states[i], states[i + 1]; var Parked(op, e, context, _) := s.threads[t];
      && s' == s.(threads := s.threads[t := s'.threads[t]])
      && s'.threads[t] == match reason
                          case Notified => Enter(op, e, context)
                          case Gone => Returned(Failed(Unregistered))
                          case Halted => Returned(Failed(Stopped))
  {
    RunKeepsInv(states, steps, i);
    assert PcOk(states[i], states[i].threads[t]);
  }

  // ---- A thread stays the call it was ----

  /** The section that a request is for, and what surrounds it. */
  predicate IsFor(request: Request, op: Op, context: Context) {
    match request
    case Invoke(_, withCallback) => op == StartInvocation && context == if withCallback then Begin else Plain
    case End(_) => op == EndInvocation && context == Plain
    case CallBack(token) => op == EndInvocation && context == Callback(token)
    case ScaleUp(_, wait) => context == Plain && op == if wait then ScaleUpWhenReady else TryScaleUp
    case ScaleDown(_) => op == ScaleDownWhenIdle && context == Plain
    case Record(_) => op == RecordActivity && context == Plain
    case RecordBatch(_) => op.BatchActivity? && context.Batch?
    case Scan(_) => op == IdleScan && context == Plain
    case _ => false
  }

  predicate NameIsFor(request: Request, name: string) {
    match request
    case Invoke(n, _) => n == name
    case End(n) => n == name
    case ScaleUp(n, _) => n == name
    case ScaleDown(n) => n == name
    case Record(n) => n == name
    case RecordBatch(names) => name in names
    case _ => true
  }

  /** The thread is serving the request. */
  predicate Serves(pc: Pc, request: Request) {
    match pc
    case Lookup(op, name, context) => IsFor(request, op, context) && NameIsFor(request, name)
    case Enter(op, _, context) => IsFor(request, op, context)
    case Parked(op, _, context, _) => IsFor(request, op, context)
    case StopCheck(e) => request == Scan(e)
    case Revert(e) => request == Scan(e)
    case Host(_, op, _) => IsFor(request, op, Plain)
    case Commit(_, op, _, _) => IsFor(request, op, Plain)
    case Claim(token) => request == CallBack(token)
    case Installing(incoming) => request.Register? && request.name == incoming.name
    case Removing(name) => request == Unregister(name)
    case CloseCheck(_) => request.Register? || request.Unregister?
    case CloseNow(_) => request.Register? || request.Unregister?
    case Returned(_) => true
  }

  /** The names left in a batch are names of the request, and a scan is of its entry. */
  predicate Bounded(pc: Pc, request: Request) {
    && ((pc.Lookup? || pc.Enter?) && pc.context.Batch? ==>
          request.RecordBatch? && forall n :: n in pc.context.rest ==> n in request.names)
    && (request.Scan? && pc.Enter? ==> pc.entry == request.entry)
    && (request.Scan? && (pc.Host? || pc.Commit?) ==> pc.entry == request.entry)
  }

  lemma CallServes(s: Sys, request: Request)
    requires CanCall(s, request)
    ensures Serves(FirstPc(s, request), request) && Bounded(FirstPc(s, request), request)
  {
  }

  lemma EnterServes(s: Sys, t: nat, request: Request)
    requires Inv(s) && Enabled(s, Run(t)) && s.threads[t].Enter?
    requires Serves(s.threads[t], request) && Bounded(s.threads[t], request)
    ensures var s' := RunEnter(s, t);
      t < |s'.threads| && Serves(s'.threads[t], request) && Bounded(s'.threads[t], request)
  {
    assert PcOk(s, s.threads[t]);
  }

  lemma OtherRunServes(s: Sys, t: nat, request: Request)
    requires Inv(s) && Enabled(s, Run(t)) && !s.threads[t].Enter?
    requires Serves(s.threads[t], request) && Bounded(s.threads[t], request)
    ensures var s' := RunThread(s, t);
      t < |s'.threads| && Serves(s'.threads[t], request) && Bounded(s'.threads[t], request)
  {
    assert PcOk(s, s.threads[t]);
  }

  lemma StepServes(states: seq<Sys>, steps: seq<Step>, k: nat, t: nat, request: Request)
    requires IsRun(states, steps) && k < |steps| && t < |states[k].threads|
    requires Serves(states[k].threads[t], request) && Bounded(states[k].threads[t], request)
    ensures t < |states[k + 1].threads|
    ensures Serves(states[k + 1].threads[t], request) && Bounded(states[k + 1].threads[t], request)
  {
    RunKeepsInv(states, steps, k);
    OwnStepMoves(states, steps, k, t);
    assert PcOk(states[k], states[k].threads[t]);
    if states[k + 1].threads[t] != states[k].threads[t] && steps[k].Run? {
      if states[k].threads[t].Enter? {
        EnterServes(states[k], t, request);
      } else {
        OtherRunServes(states[k], t, request);
      }
    }
  }

  /** From its call until it returns, a thread runs the operation that was called, on the
      name that was given. */
  lemma {:induction false} ThreadServesItsRequest(states: seq<Sys>, steps: seq<Step>, i: nat, j: nat)
    requires IsRun(states, steps) && i < j <= |steps| && steps[i].Call?
    ensures |states[i].threads| < |states[j].threads|
    ensures Serves(states[j].threads[|states[i].threads|], steps[i].request)
    ensures Bounded(states[j].threads[|states[i].threads|], steps[i].request)
    decreases j
  {
    if j == i + 1 {
      CallServes(states[i], steps[i].request);
    } else {
      ThreadServesItsRequest(states, steps, i, j - 1);
      StepServes(states, steps, j - 1, |states[i].threads|, steps[i].request);
    }
  }

  // ---- Ready means running, from the call to the answer ----

  lemma ReturnedStays(states: seq<Sys>, steps: seq<Step>, k: nat, t: nat)
    requires IsRun(states, steps) && k < |steps| && t < |states[k].threads| && states[k].threads[t].Returned?
    ensures t < |states[k + 1].threads| && states[k + 1].threads[t] == states[k].threads[t]
  {
    OwnStepMoves(states, steps, k, t);
  }

  /** The thread has returned its call. */
  predicate HasReturned(s: Sys, t: nat) {
    t < |s.threads| && s.threads[t].Returned?
  }

  predicate ReturnLasts(states: seq<Sys>, t: nat) {
    forall k :: 0 <= k < |states| - 1 && HasReturned(states[k], t) ==>
      HasReturned(states[k + 1], t) && states[k + 1].threads[t] == states[k].threads[t]
  }

  lemma {:induction false} FirstReturned(states: seq<Sys>, i: nat, j: nat, t: nat) returns (m: nat)
    requires i <= j < |states| && ReturnLasts(states, t)
    requires !HasReturned(states[i], t) && HasReturned(states[j], t)
    ensures i <= m < j && !HasReturned(states[m], t) && HasReturned(states[m + 1], t)
    ensures states[m + 1].threads[t] == states[j].threads[t]
    decreases j
  {
    if HasReturned(states[j - 1], t) {
      m := FirstReturned(states, i, j - 1, t);
      assert HasReturned(states[j - 1 + 1], t);
    } else {
      m := j - 1;
    }
  }

  lemma ReturnMoment(states: seq<Sys>, steps: seq<Step>, i: nat, j: nat, t: nat) returns (m: nat)
    requires IsRun(states, steps) && i <= j <= |steps| && t < |states[i].threads| && t < |states[j].threads|
    requires !states[i].threads[t].Returned? && states[j].threads[t].Returned?
    ensures i <= m < j && t < |states[m].threads| && t < |states[m + 1].threads|
    ensures !states[m].threads[t].Returned? && states[m + 1].threads[t] == states[j].threads[t]
  {
    forall k | 0 <= k < |states| - 1 && HasReturned(states[k], t)
      ensures HasReturned(states[k + 1], t) && states[k + 1].threads[t] == states[k].threads[t]
    {
      ReturnedStays(states, steps, k, t);
    }
    m := FirstReturned(states, i, j, t);
    ThreadsStay(states, steps, i, m);
  }

  /** The only threads that return ready are in a section or at the end of a host call. */
  lemma ReadyComesFrom(states: seq<Sys>, steps: seq<Step>, m: nat, t: nat)
    requires IsRun(states, steps) && m < |steps| && t < |states[m].threads| && t < |states[m + 1].threads|
    requires !states[m].threads[t].Returned?
    requires states[m + 1].threads[t].Returned? && states[m + 1].threads[t].reply.Ready?
    ensures states[m].threads[t].Enter? || states[m].threads[t].Commit?
  {
    RunKeepsInv(states, steps, m);
    assert PcOk(states[m], states[m].threads[t]);
    OwnStepMoves(states, steps, m, t);
  }

  /** When a call of ScaleUpWhenReady has returned ready, there was a moment between the call
      and the return at which the function was running. */
  lemma ReadyCallFoundItRunning(states: seq<Sys>, steps: seq<Step>, i: nat, j: nat, name: string)
    returns (m: nat, e: nat)
    requires IsRun(states, steps) && i < j <= |steps| && steps[i] == Call(ScaleUp(name, true))
    requires |states[i].threads| < |states[j].threads|
    requires states[j].threads[|states[i].threads|].Returned? && states[j].threads[|states[i].threads|].reply.Ready?
    ensures i < m < j && e < |states[m + 1].entries| && IsUp(states[m + 1], e)
  {
    var t := |states[i].threads|;
    assert !states[i + 1].threads[t].Returned?;
    m := ReturnMoment(states, steps, i + 1, j, t);
    ReadyComesFrom(states, steps, m, t);
    ThreadServesItsRequest(states, steps, i, m);
    e := states[m].threads[t].entry;
    ReadyMeansRunning(states, steps, m, t, e);
    RunKeepsHostInv(states, steps, m + 1);
  }

  // ---- Batches ----

  /** The thread records name number m of the batch, all with the stamp of the call. */
  predicate BatchAt(pc: Pc, stamp: int, names: seq<string>, m: nat) {
    if m < |names|
    then pc == Lookup(BatchActivity(stamp), names[m], Batch(names[m + 1..]))
         || (pc.Enter? && pc == Enter(BatchActivity(stamp), pc.entry, Batch(names[m + 1..])))
    else m == |names| && pc == Returned(Touched)
  }

  /** A batch goes through its names one by one. It leaves a name when the name is not
      registered or when it has stamped the entry it found. */
  lemma BatchStep(states: seq<Sys>, steps: seq<Step>, k: nat, t: nat, stamp: int, names: seq<string>, m: nat)
    requires IsRun(states, steps) && k < |steps| && t < |states[k].threads|
    requires m <= |names| && BatchAt(states[k].threads[t], stamp, names, m)
    ensures t < |states[k + 1].threads|
    ensures BatchAt(states[k + 1].threads[t], stamp, names, m)
            || (&& m < |names| && BatchAt(states[k + 1].threads[t], stamp, names, m + 1)
                && steps[k] == Run(t)
                && (if states[k].threads[t].Lookup? then names[m] !in states[k].registry
                    else RunsSection(states, steps, k, t, BatchActivity(stamp), states[k].threads[t].entry)))
  {
    OwnStepMoves(states, steps, k, t);
    if m < |names| {
      assert m + 1 < |names| ==> names[m + 1..][0] == names[m + 1] && names[m + 1..][1..] == names[m + 2..];
    }
  }

  lemma BatchBegins(states: seq<Sys>, steps: seq<Step>, i: nat)
    requires IsRun(states, steps) && i < |steps| && steps[i].Call? && steps[i].request.RecordBatch?
    ensures |states[i].threads| < |states[i + 1].threads|
    ensures BatchAt(states[i + 1].threads[|states[i].threads|], states[i].clock, steps[i].request.names, 0)
  {
    var names := steps[i].request.names;
    assert names != [] ==> names[0 + 1..] == names[1..];
  }

  lemma BatchMoves(states: seq<Sys>, steps: seq<Step>, k: nat, t: nat, stamp: int, names: seq<string>, m: nat)
    returns (n: nat)
    requires IsRun(states, steps) && k < |steps| && t < |states[k].threads|
    requires m <= |names| && BatchAt(states[k].threads[t], stamp, names, m)
    ensures t < |states[k + 1].threads| && n <= |names| && BatchAt(states[k + 1].threads[t], stamp, names, n)
  {
    BatchStep(states, steps, k, t, stamp, names, m);
    n := if BatchAt(states[k + 1].threads[t], stamp, names, m) then m else m + 1;
  }

  /** At any time a batch that was called is at some of its names, or has done them all. */
  lemma {:induction false} BatchVisitsInOrder(states: seq<Sys>, steps: seq<Step>, i: nat, j: nat) returns (m: nat)
    requires IsRun(states, steps) && i < j <= |steps| && steps[i].Call? && steps[i].request.RecordBatch?
    ensures |states[i].threads| < |states[j].threads| && m <= |steps[i].request.names|
    ensures BatchAt(states[j].threads[|states[i].threads|], states[i].clock, steps[i].request.names, m)
    decreases j
  {
    if j == i + 1 {
      BatchBegins(states, steps, i);
      m := 0;
    } else {
      var before := BatchVisitsInOrder(states, steps, i, j - 1);
      m := BatchMoves(states, steps, j - 1, |states[i].threads|, states[i].clock, steps[i].request.names, before);
    }
  }
}
