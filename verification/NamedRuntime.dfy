/** The host knows functions by name only. This module relates the registry to the
    containers of a name across replacement, and says what a caller has to avoid. */
module NamedRuntime {
  import opened Lifecycle
  import opened Protocol
  import opened Invariant
  import opened HostRuntime

  /** Whether the containers of a name are up after the logged host operations;
      `initially` holds the names that were up before. */
  function NameRunning(log: seq<HostEvent>, entries: seq<Entry>, name: string, initially: set<string>): bool {
    if log == [] then name in initially
    else
      var last := log[|log| - 1];
      if last.entry < |entries| && entries[last.entry].name == name then last.direction == Up
      else NameRunning(log[..|log| - 1], entries, name, initially)
  }

  predicate Scales(op: Op) {
    op == ScaleUpWhenReady || op == TryScaleUp || op == ScaleDownWhenIdle || op == IdleScan
  }

  /** The thread captured entry e and may still begin or finish a host operation on it. */
  predicate HoldsForScaling(pc: Pc, e: nat) {
    || ((pc.Enter? || pc.Parked?) && Scales(pc.op) && pc.entry == e)
    || RoleOf(pc) == Owner(e)
  }

  predicate NotHeld(s: Sys, e: nat) {
    forall t :: 0 <= t < |s.threads| ==> !HoldsForScaling(s.threads[t], e)
  }

  // ---- When a registration and its containers agree ----

  /** The registered entry of the name and the containers of the name are both up or both
      down. */
  predicate AgreesOn(s: Sys, name: string, initially: set<string>)
    requires |s.born| == |s.entries|
  {
    name in s.registry && s.registry[name] < |s.entries| ==>
      var e := s.registry[name];
      Running(s.log, e, s.born[e]) == NameRunning(s.log, s.entries, name, initially)
  }

  ghost predicate Agrees(s: Sys, initially: set<string>) {
    |s.born| == |s.entries| && forall name :: name in s.registry ==> AgreesOn(s, name, initially)
  }

  /** The name is registered in the state its containers are in. */
  predicate Truthful(s: Sys, incoming: Entry, initially: set<string>) {
    (incoming.state == Active) == NameRunning(s.log, s.entries, incoming.name, initially)
  }

  /** Exactly what must not happen: a registration in the wrong state, or a host operation
      that succeeds for an entry whose successor is in the opposite state. */
  predicate Harmless(s: Sys, step: Step, initially: set<string>)
    requires Enabled(s, step) && |s.born| == |s.entries|
  {
    match step
    case Run(t) => s.threads[t].Installing? ==> Truthful(s, s.threads[t].incoming, initially)
    case HostReturn(t, ok) =>
      var Host(direction, _, e) := s.threads[t];
      var name := s.entries[e].name;
      ok && name in s.registry && s.registry[name] < |s.entries| ==>
        var r := s.registry[name];
        r == e || Running(s.log, r, s.born[r]) == (direction == Up)
    case _ => true
  }

  lemma {:induction false} NamesDecide(log: seq<HostEvent>, entries: seq<Entry>, entries': seq<Entry>, name: string,
                                       initially: set<string>)
    requires |entries| <= |entries'| && forall e :: 0 <= e < |entries| ==> entries'[e].name == entries[e].name
    requires forall i :: 0 <= i < |log| ==> log[i].entry < |entries|
    ensures NameRunning(log, entries', name, initially) == NameRunning(log, entries, name, initially)
  {
    if log != [] {
      NamesDecide(log[..|log| - 1], entries, entries', name, initially);
    }
  }

  /** A successful host operation keeps the agreement of its name if and only if it was
      made for the registered entry or moved the containers where that entry already is. */
  lemma HostReturnAgreesIff(s: Sys, t: nat, initially: set<string>)
    requires Inv(s) && |s.born| == |s.entries| && Enabled(s, HostReturn(t, true))
    requires AgreesOn(s, s.entries[s.threads[t].entry].name, initially)
    ensures var name := s.entries[s.threads[t].entry].name;
      AgreesOn(HostAnswers(s, t, true), name, initially) <==> Harmless(s, HostReturn(t, true), initially)
  {
    var Host(direction, _, e) := s.threads[t];
    LogExtended(s.log, HostEvent(t, e, direction));
    assert (s.log + [HostEvent(t, e, direction)])[..|s.log|] == s.log;
  }

  /** It concerns no other name. */
  lemma HostReturnSparesOthers(s: Sys, t: nat, ok: bool, name: string, initially: set<string>)
    requires Inv(s) && |s.born| == |s.entries| && Enabled(s, HostReturn(t, ok)) && AgreesOn(s, name, initially)
    requires !ok || name != s.entries[s.threads[t].entry].name
    ensures AgreesOn(HostAnswers(s, t, ok), name, initially)
  {
    var Host(direction, _, e) := s.threads[t];
    LogExtended(s.log, HostEvent(t, e, direction));
    assert (s.log + [HostEvent(t, e, direction)])[..|s.log|] == s.log;
  }

  /** A registration establishes the agreement of its name if and only if it is truthful. */
  lemma InstallAgreesIff(s: Sys, t: nat, initially: set<string>)
    requires Inv(s) && HostInv(s) && Enabled(s, Run(t)) && s.threads[t].Installing?
    ensures AgreesOn(RunInstall(s, t), s.threads[t].incoming.name, initially)
            <==> Truthful(s, s.threads[t].incoming, initially)
  {
    var s' := RunInstall(s, t);
    NoEventsOf(s.log, |s.entries|, s'.born[|s.entries|]);
    NamesDecide(s.log, s.entries, s'.entries, s.threads[t].incoming.name, initially);
  }

  lemma InstallSparesOthers(s: Sys, t: nat, name: string, initially: set<string>)
    requires Inv(s) && HostInv(s) && Enabled(s, Run(t)) && s.threads[t].Installing?
    requires AgreesOn(s, name, initially) && name != s.threads[t].incoming.name
    ensures AgreesOn(RunInstall(s, t), name, initially)
  {
    NamesDecide(s.log, s.entries, RunInstall(s, t).entries, name, initially);
  }

  /** Steps that leave the log and the names alone and only take from the registry. */
  lemma OtherStepKeepsAgreement(s: Sys, s': Sys, initially: set<string>)
    requires HostInv(s) && Agrees(s, initially)
    requires s'.log == s.log && s'.born == s.born && |s'.entries| == |s.entries|
    requires forall e :: 0 <= e < |s.entries| ==> s'.entries[e].name == s.entries[e].name
    requires forall name :: name in s'.registry ==> name in s.registry && s'.registry[name] == s.registry[name]
    ensures Agrees(s', initially)
  {
    forall name | name in s'.registry ensures AgreesOn(s', name, initially) {
      assert AgreesOn(s, name, initially);
      NamesDecide(s.log, s.entries, s'.entries, name, initially);
    }
  }

  lemma HostReturnKeepsAgreementIff(s: Sys, t: nat, ok: bool, initially: set<string>)
    requires Inv(s) && HostInv(s) && Agrees(s, initially) && Enabled(s, HostReturn(t, ok))
    ensures Agrees(HostAnswers(s, t, ok), initially) <==> Harmless(s, HostReturn(t, ok), initially)
  {
    var s' := HostAnswers(s, t, ok);
    var mine := s.entries[s.threads[t].entry].name;
    assert AgreesOn(s, mine, initially);
    if ok { HostReturnAgreesIff(s, t, initially); }
    forall name | name in s.registry && (!ok || name != mine) ensures AgreesOn(s', name, initially) {
      assert AgreesOn(s, name, initially);
      HostReturnSparesOthers(s, t, ok, name, initially);
    }
    assert mine !in s'.registry ==> AgreesOn(s', mine, initially);
  }

  lemma InstallKeepsAgreementIff(s: Sys, t: nat, initially: set<string>)
    requires Inv(s) && HostInv(s) && Agrees(s, initially) && Enabled(s, Run(t)) && s.threads[t].Installing?
    ensures Agrees(RunInstall(s, t), initially) <==> Harmless(s, Run(t), initially)
  {
    var s' := RunInstall(s, t);
    var mine := s.threads[t].incoming.name;
    InstallAgreesIff(s, t, initially);
    forall name | name in s'.registry && name != mine ensures AgreesOn(s', name, initially) {
      assert AgreesOn(s, name, initially);
      InstallSparesOthers(s, t, name, initially);
    }
  }

  lemma RunKeepsNames(s: Sys, t: nat)
    requires Enabled(s, Run(t)) && !s.threads[t].Installing?
    ensures var s' := RunThread(s, t);
      && s'.log == s.log && s'.born == s.born && |s'.entries| == |s.entries|
      && (forall e :: 0 <= e < |s.entries| ==> s'.entries[e].name == s.entries[e].name)
      && (forall name :: name in s'.registry ==> name in s.registry && s'.registry[name] == s.registry[name])
  {
    if s.threads[t].Enter? {
      EnterKeepsNames(s, t);
    }
  }

  lemma EnterKeepsNames(s: Sys, t: nat)
    requires Enabled(s, Run(t)) && s.threads[t].Enter?
    ensures var s' := RunEnter(s, t);
      && s'.log == s.log && s'.born == s.born && s'.registry == s.registry && |s'.entries| == |s.entries|
      && (forall e :: 0 <= e < |s.entries| ==> s'.entries[e].name == s.entries[e].name)
  {
  }

  /** In one step the agreement survives if and only if the step is harmless. */
  lemma AgreementSurvivesIffHarmless(s: Sys, step: Step, initially: set<string>)
    requires Inv(s) && HostInv(s) && Agrees(s, initially) && Enabled(s, step)
    ensures Agrees(Do(s, step), initially) <==> Harmless(s, step, initially)
  {
    match step
    case HostReturn(t, ok) => HostReturnKeepsAgreementIff(s, t, ok, initially);
    case Run(t) =>
      if s.threads[t].Installing? {
        InstallKeepsAgreementIff(s, t, initially);
      } else {
        RunKeepsNames(s, t);
        OtherStepKeepsAgreement(s, RunThread(s, t), initially);
      }
    case _ => OtherStepKeepsAgreement(s, Do(s, step), initially);
  }

  ghost predicate AgreesUpTo(states: seq<Sys>, i: nat, initially: set<string>)
    requires i < |states|
  {
    forall k :: 0 <= k <= i ==> Agrees(states[k], initially)
  }

  ghost predicate HarmlessUpTo(states: seq<Sys>, steps: seq<Step>, i: nat, initially: set<string>)
    requires IsRun(states, steps) && i <= |steps|
  {
    forall k {:trigger steps[k]} :: 0 <= k < i ==>
      |states[k].born| == |states[k].entries| && Harmless(states[k], steps[k], initially)
  }

  /** Over whole runs: registrations and containers agree all the time if and only if every
      step is harmless. */
  lemma {:induction false} AgreementIffHarmless(states: seq<Sys>, steps: seq<Step>, i: nat, initially: set<string>)
    requires IsRun(states, steps) && i <= |steps|
    ensures AgreesUpTo(states, i, initially) <==> HarmlessUpTo(states, steps, i, initially)
  {
    if i == 0 {
      assert Agrees(states[0], initially);
    } else {
      AgreementIffHarmless(states, steps, i - 1, initially);
      RunKeepsInv(states, steps, i - 1);
      RunKeepsHostInv(states, steps, i - 1);
      if Agrees(states[i - 1], initially) {
        AgreementSurvivesIffHarmless(states[i - 1], steps[i - 1], initially);
      }
      assert AgreesUpTo(states, i, initially) <==> AgreesUpTo(states, i - 1, initially) && Agrees(states[i], initially);
      assert AgreesUpTo(states, i - 1, initially) ==> Agrees(states[i - 1], initially);
      assert HarmlessUpTo(states, steps, i, initially) <==>
        (&& HarmlessUpTo(states, steps, i - 1, initially)
         && |states[i - 1].born| == |states[i - 1].entries| && Harmless(states[i - 1], steps[i - 1], initially));
    }
  }

  /** What agreement means for the reported states. */
  lemma AgreementMeans(s: Sys, initially: set<string>, name: string)
    requires Inv(s) && HostInv(s) && Agrees(s, initially) && name in s.registry
    ensures var e := s.registry[name];
      && e < |s.entries|
      && (s.entries[e].state == Active || s.entries[e].state == Blocked ==>
            NameRunning(s.log, s.entries, name, initially))
      && (s.entries[e].state == ScaledDown ==> !NameRunning(s.log, s.entries, name, initially))
  {
    assert AgreesOn(s, name, initially) && StateMatches(s, s.registry[name]);
  }

  // ---- What callers can do about it ----

  /** A name is registered truthfully, it is not replaced or removed while a scaling call
      holds its entry, and scans look at registered entries. */
  predicate Careful(s: Sys, step: Step, initially: set<string>) {
    && (step.Call? && step.request.Scan? ==> step.request.entry < |s.entries| && Registered(s, step.request.entry))
    && (step.Run? && step.thread < |s.threads| ==>
          var pc := s.threads[step.thread];
          && (pc.Installing? ==>
                Truthful(s, pc.incoming, initially)
                && (pc.incoming.name in s.registry ==> NotHeld(s, s.registry[pc.incoming.name])))
          && (pc.Removing? && pc.name in s.registry ==> NotHeld(s, s.registry[pc.name])))
  }

  predicate HeldEntriesRegistered(s: Sys, pc: Pc) {
    forall e :: 0 <= e < |s.entries| && HoldsForScaling(pc, e) ==> Registered(s, e)
  }

  /** Whoever may still begin or finish a host operation holds a registered entry. */
  ghost predicate NoStaleHolds(s: Sys) {
    forall t :: 0 <= t < |s.threads| ==> HeldEntriesRegistered(s, s.threads[t])
  }

  /** A thread moves on; the registry stays. */
  lemma MoveKeepsHolds(s: Sys, s': Sys, t: nat)
    requires NoStaleHolds(s) && t < |s.threads| && t < |s'.threads|
    requires s'.threads == s.threads[t := s'.threads[t]] && s'.registry == s.registry && |s'.entries| == |s.entries|
    requires forall e :: 0 <= e < |s.entries| ==> s'.entries[e].name == s.entries[e].name
    requires forall e :: 0 <= e < |s.entries| && HoldsForScaling(s'.threads[t], e) ==> Registered(s, e)
    ensures NoStaleHolds(s')
  {
    forall u | 0 <= u < |s'.threads| ensures HeldEntriesRegistered(s', s'.threads[u]) {
      assert HeldEntriesRegistered(s, s.threads[u]);
    }
  }

  lemma EnterKeepsHolds(s: Sys, t: nat)
    requires Inv(s) && NoStaleHolds(s) && Enabled(s, Run(t)) && s.threads[t].Enter?
    ensures NoStaleHolds(RunEnter(s, t))
  {
    var Enter(op, e, context) := s.threads[t];
    assert PcOk(s, s.threads[t]) && EntryOk(s, e) && HeldEntriesRegistered(s, s.threads[t]);
    SectionKeepsWellFormed(op, s.entries[e], s.clock);
    assert Scales(op) ==> HoldsForScaling(s.threads[t], e);
    MoveKeepsHolds(s, RunEnter(s, t), t);
  }

  lemma OwnerKeepsHolds(s: Sys, t: nat)
    requires NoStaleHolds(s) && Enabled(s, Run(t)) && RoleOf(s.threads[t]).Owner?
    ensures NoStaleHolds(RunThread(s, t))
  {
    assert HeldEntriesRegistered(s, s.threads[t]) && HoldsForScaling(s.threads[t], s.threads[t].entry);
    RunKeepsNames(s, t);
    MoveKeepsHolds(s, RunThread(s, t), t);
  }

  lemma LookupKeepsHolds(s: Sys, t: nat)
    requires Inv(s) && NoStaleHolds(s) && Enabled(s, Run(t)) && s.threads[t].Lookup?
    ensures NoStaleHolds(RunThread(s, t))
  {
    MoveKeepsHolds(s, RunThread(s, t), t);
  }

  /** Steps after which the thread holds nothing. */
  lemma ClosingKeepsHolds(s: Sys, t: nat)
    requires NoStaleHolds(s) && Enabled(s, Run(t))
    requires s.threads[t].Claim? || s.threads[t].CloseCheck? || s.threads[t].CloseNow?
    ensures NoStaleHolds(RunThread(s, t))
  {
    RunKeepsNames(s, t);
    assert forall e :: !HoldsForScaling(RunThread(s, t).threads[t], e);
    MoveKeepsHolds(s, RunThread(s, t), t);
  }

  lemma RegistryKeepsHolds(s: Sys, t: nat, initially: set<string>)
    requires Inv(s) && NoStaleHolds(s) && Enabled(s, Run(t)) && Careful(s, Run(t), initially)
    requires s.threads[t].Installing? || s.threads[t].Removing?
    ensures NoStaleHolds(RunThread(s, t))
  {
    var s' := RunThread(s, t);
    forall u | 0 <= u < |s'.threads| ensures HeldEntriesRegistered(s', s'.threads[u]) {
      assert HeldEntriesRegistered(s, s.threads[u]) && PcOk(s, s.threads[u]);
    }
  }

  lemma CallKeepsHolds(s: Sys, request: Request, initially: set<string>)
    requires NoStaleHolds(s) && CanCall(s, request) && Careful(s, Call(request), initially)
    ensures NoStaleHolds(Do(s, Call(request)))
  {
    var s' := Do(s, Call(request));
    forall u | 0 <= u < |s'.threads| ensures HeldEntriesRegistered(s', s'.threads[u]) {
      if u < |s.threads| { assert HeldEntriesRegistered(s, s.threads[u]); }
    }
  }

  lemma StepKeepsHolds(s: Sys, step: Step, initially: set<string>)
    requires Inv(s) && NoStaleHolds(s) && Enabled(s, step) && Careful(s, step, initially)
    ensures NoStaleHolds(Do(s, step))
  {
    match step
    case Tick(_) => SignalKeepsHolds(s, Do(s, step));
    case Stop => SignalKeepsHolds(s, Do(s, step));
    case Call(request) => CallKeepsHolds(s, request, initially);
    case HostReturn(t, ok) =>
      assert HeldEntriesRegistered(s, s.threads[t]);
      MoveKeepsHolds(s, HostAnswers(s, t, ok), t);
    case Wake(t, reason) =>
      assert PcOk(s, s.threads[t]) && HeldEntriesRegistered(s, s.threads[t]);
      MoveKeepsHolds(s, WakeUp(s, t, reason), t);
    case Run(t) =>
      if s.threads[t].Enter? { EnterKeepsHolds(s, t); }
      else if s.threads[t].Lookup? { LookupKeepsHolds(s, t); }
      else if s.threads[t].Installing? || s.threads[t].Removing? { RegistryKeepsHolds(s, t, initially); }
      else if RoleOf(s.threads[t]).Owner? { OwnerKeepsHolds(s, t); }
      else { ClosingKeepsHolds(s, t); }
  }

  lemma SignalKeepsHolds(s: Sys, s': Sys)
    requires NoStaleHolds(s) && s'.(clock := s.clock, stopped := s.stopped) == s
    ensures NoStaleHolds(s')
  {
    forall u | 0 <= u < |s'.threads| ensures HeldEntriesRegistered(s', s'.threads[u]) {
      assert HeldEntriesRegistered(s, s.threads[u]);
    }
  }

  /** Care makes every step harmless: a host operation is made for the registered entry. */
  lemma CareIsHarmless(s: Sys, step: Step, initially: set<string>)
    requires Inv(s) && NoStaleHolds(s) && Enabled(s, step) && Careful(s, step, initially)
    ensures Harmless(s, step, initially)
  {
    if step.HostReturn? {
      var pc := s.threads[step.thread];
      assert HeldEntriesRegistered(s, pc) && HoldsForScaling(pc, pc.entry);
    }
  }

  ghost predicate CarefulRun(states: seq<Sys>, steps: seq<Step>, i: nat, initially: set<string>)
    requires IsRun(states, steps) && i <= |steps|
  {
    forall k {:trigger steps[k]} :: 0 <= k < i ==> Careful(states[k], steps[k], initially)
  }

  lemma {:induction false} CarefulRunAgrees(states: seq<Sys>, steps: seq<Step>, i: nat, initially: set<string>)
    requires IsRun(states, steps) && i <= |steps| && CarefulRun(states, steps, i, initially)
    ensures NoStaleHolds(states[i]) && Agrees(states[i], initially)
  {
    if i > 0 {
      CarefulRunAgrees(states, steps, i - 1, initially);
      RunKeepsInv(states, steps, i - 1);
      RunKeepsHostInv(states, steps, i - 1);
      StepKeepsHolds(states[i - 1], steps[i - 1], initially);
      CareIsHarmless(states[i - 1], steps[i - 1], initially);
      AgreementSurvivesIffHarmless(states[i - 1], steps[i - 1], initially);
    }
  }

  /** For every registered name the reported state tells whether the containers of that
      name are up, across any number of registrations and removals. */
  lemma RegistryMatchesContainers(states: seq<Sys>, steps: seq<Step>, i: nat, initially: set<string>, name: string)
    requires IsRun(states, steps) && i <= |steps| && CarefulRun(states, steps, i, initially)
    requires name in states[i].registry
    ensures var s := states[i]; var e := s.registry[name];
      && e < |s.entries|
      && (s.entries[e].state == Active || s.entries[e].state == Blocked ==>
            NameRunning(s.log, s.entries, name, initially))
      && (s.entries[e].state == ScaledDown ==> !NameRunning(s.log, s.entries, name, initially))
  {
    RunKeepsInv(states, steps, i);
    RunKeepsHostInv(states, steps, i);
    CarefulRunAgrees(states, steps, i, initially);
    AgreementMeans(states[i], initially, name);
  }
}
