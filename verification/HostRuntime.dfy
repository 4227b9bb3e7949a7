/** The lifecycle states refine the container runtime: a function is running or not as
    the last successful host operation left it, and the states never disagree with it. */
module HostRuntime {
  import opened Lifecycle
  import opened Protocol
  import opened Invariant

  /** Whether the runtime of entry e is up after the logged host operations. */
  function Running(log: seq<HostEvent>, e: nat, born: bool): bool {
    if log == [] then born
    else if log[|log| - 1].entry == e then log[|log| - 1].direction == Up
    else Running(log[..|log| - 1], e, born)
  }

  /** How many successful operations of one direction a thread made. */
  function Operations(log: seq<HostEvent>, t: nat, direction: Direction): nat {
    if log == [] then 0
    else Operations(log[..|log| - 1], t, direction)
         + if log[|log| - 1].thread == t && log[|log| - 1].direction == direction then 1 else 0
  }

  /** The call reports, or is about to report, that it made the transition itself. */
  predicate Performed(pc: Pc, direction: Direction) {
    || (pc.Commit? && pc.direction == direction && pc.ok)
    || (direction == Up && pc == Returned(Ready(true)))
    || (direction == Down && pc == Returned(Idled(true)))
  }

  predicate StateMatches(s: Sys, e: nat)
    requires e < |s.entries| && e < |s.born|
  {
    var up := Running(s.log, e, s.born[e]);
    && (s.entries[e].state == Active || s.entries[e].state == Blocked ==> up)
    && (s.entries[e].state == ScaledDown ==> !up)
  }

  predicate OwnerMatches(s: Sys, pc: Pc)
    requires |s.born| == |s.entries|
  {
    RoleOf(pc).Owner? && pc.entry < |s.entries| ==>
      var up := Running(s.log, pc.entry, s.born[pc.entry]);
      match pc
      case Host(direction, _, _) => up == (direction == Down)
      case Commit(direction, _, _, ok) => up == (ok == (direction == Up))
      case _ => up
  }

  predicate Attributed(log: seq<HostEvent>, t: nat, pc: Pc) {
    && Operations(log, t, Up) == (if Performed(pc, Up) then 1 else 0)
    && Operations(log, t, Down) == (if Performed(pc, Down) then 1 else 0)
  }

  /** Each operation found the runtime in the opposite state of the one it set. */
  predicate Alternates(log: seq<HostEvent>, born: seq<bool>) {
    forall i :: 0 <= i < |log| ==>
      && log[i].entry < |born|
      && Running(log[..i], log[i].entry, born[log[i].entry]) == (log[i].direction == Down)
  }

  ghost predicate HostInv(s: Sys) {
    && |s.born| == |s.entries|
    && (forall e :: 0 <= e < |s.entries| ==> StateMatches(s, e))
    && (forall t :: 0 <= t < |s.threads| ==> OwnerMatches(s, s.threads[t]))
    && (forall t :: 0 <= t < |s.threads| ==> Attributed(s.log, t, s.threads[t]))
    && (forall i :: 0 <= i < |s.log| ==> s.log[i].thread < |s.threads|)
    && Alternates(s.log, s.born)
  }

  lemma {:induction false} NoOperationsYet(log: seq<HostEvent>, t: nat, direction: Direction)
    requires forall i :: 0 <= i < |log| ==> log[i].thread < t
    ensures Operations(log, t, direction) == 0
  {
    if log != [] {
      NoOperationsYet(log[..|log| - 1], t, direction);
    }
  }

  lemma {:induction false} NoEventsOf(log: seq<HostEvent>, e: nat, born: bool)
    requires forall i :: 0 <= i < |log| ==> log[i].entry < e
    ensures Running(log, e, born) == born
  {
    if log != [] {
      NoEventsOf(log[..|log| - 1], e, born);
    }
  }

  lemma LogExtended(log: seq<HostEvent>, event: HostEvent)
    ensures forall e, born ::
              Running(log + [event], e, born) ==
                if event.entry == e then event.direction == Up else Running(log, e, born)
    ensures forall t, direction ::
              Operations(log + [event], t, direction)
              == Operations(log, t, direction) + if event.thread == t && event.direction == direction then 1 else 0
  {
    assert (log + [event])[..|log|] == log;
  }

  /** Sections: a decided transition starts in the state the runtime is in. */
  lemma EnterKeepsHostInv(s: Sys, t: nat)
    requires Inv(s) && HostInv(s) && Enabled(s, Run(t)) && s.threads[t].Enter?
    ensures HostInv(RunEnter(s, t))
  {
    var Enter(op, e, context) := s.threads[t];
    var s' := RunEnter(s, t);
    assert EntryOk(s, e) && PcOk(s, s.threads[t]);
    assert StateMatches(s, e) && Attributed(s.log, t, s.threads[t]);
    SectionKeepsWellFormed(op, s.entries[e], s.clock);
    assert StateMatches(s', e);
    assert OwnerMatches(s', s'.threads[t]);
    assert Attributed(s'.log, t, s'.threads[t]);
    forall f | 0 <= f < |s'.entries| ensures StateMatches(s', f) {
      assert StateMatches(s, f);
    }
    forall u | 0 <= u < |s'.threads| && u != t
      ensures OwnerMatches(s', s'.threads[u]) && Attributed(s'.log, u, s'.threads[u])
    {
      assert OwnerMatches(s, s.threads[u]) && Attributed(s.log, u, s.threads[u]);
    }
  }

  lemma OwnerRunKeepsHostInv(s: Sys, t: nat)
    requires Inv(s) && HostInv(s) && Enabled(s, Run(t)) && RoleOf(s.threads[t]).Owner?
    ensures HostInv(RunThread(s, t))
  {
    var e := s.threads[t].entry;
    var s' := RunThread(s, t);
    assert EntryOk(s, e) && PcOk(s, s.threads[t]);
    assert OwnerMatches(s, s.threads[t]) && Attributed(s.log, t, s.threads[t]);
    forall f | 0 <= f < |s'.entries| ensures StateMatches(s', f) {
      assert StateMatches(s, f);
    }
    forall u | 0 <= u < |s'.threads| ensures OwnerMatches(s', s'.threads[u]) && Attributed(s'.log, u, s'.threads[u]) {
      assert OwnerMatches(s, s.threads[u]) && Attributed(s.log, u, s.threads[u]);
    }
  }

  lemma HostReturnKeepsHostInv(s: Sys, t: nat, ok: bool)
    requires Inv(s) && HostInv(s) && Enabled(s, HostReturn(t, ok))
    ensures HostInv(HostAnswers(s, t, ok))
  {
    var Host(direction, op, e) := s.threads[t];
    var s' := HostAnswers(s, t, ok);
    var event := HostEvent(t, e, direction);
    assert PcOk(s, s.threads[t]) && OwnerMatches(s, s.threads[t]) && Attributed(s.log, t, s.threads[t]);
    LogExtended(s.log, event);
    forall f | 0 <= f < |s'.entries| ensures StateMatches(s', f) {
      assert StateMatches(s, f);
    }
    forall u | 0 <= u < |s'.threads| ensures OwnerMatches(s', s'.threads[u]) && Attributed(s'.log, u, s'.threads[u]) {
      assert OwnerMatches(s, s.threads[u]) && Attributed(s.log, u, s.threads[u]);
      assert RoleOf(s.threads[t]) == Owner(e);
    }
    if ok {
      forall i | 0 <= i < |s'.log|
        ensures s'.log[i].entry < |s'.born|
        ensures Running(s'.log[..i], s'.log[i].entry, s'.born[s'.log[i].entry]) == (s'.log[i].direction == Down)
      {
        assert s'.log[..i] == s.log[..i];
        if i == |s.log| { assert s.log[..i] == s.log; }
      }
    }
  }

  lemma InstallKeepsHostInv(s: Sys, t: nat)
    requires Inv(s) && HostInv(s) && Enabled(s, Run(t)) && s.threads[t].Installing?
    ensures HostInv(RunInstall(s, t))
  {
    var s' := RunInstall(s, t);
    assert PcOk(s, s.threads[t]) && Attributed(s.log, t, s.threads[t]);
    NoEventsOf(s.log, |s.entries|, s'.born[|s.entries|]);
    forall f | 0 <= f < |s'.entries| ensures StateMatches(s', f) {
      if f < |s.entries| { assert StateMatches(s, f); }
    }
    forall u | 0 <= u < |s'.threads| ensures OwnerMatches(s', s'.threads[u]) && Attributed(s'.log, u, s'.threads[u]) {
      assert PcOk(s, s.threads[u]) && OwnerMatches(s, s.threads[u]) && Attributed(s.log, u, s.threads[u]);
    }
  }

  /** Steps that leave states, runtime and responsibilities alone. */
  lemma QuietMoveKeepsHostInv(s: Sys, s': Sys, t: nat)
    requires HostInv(s) && t < |s.threads| && t < |s'.threads|
    requires s'.threads == s.threads[t := s'.threads[t]]
    requires |s'.entries| == |s.entries| && s'.born == s.born && s'.log == s.log
    requires forall e :: 0 <= e < |s.entries| ==> s'.entries[e].state == s.entries[e].state
    requires !RoleOf(s.threads[t]).Owner? && !RoleOf(s'.threads[t]).Owner?
    requires forall d :: Performed(s'.threads[t], d) == Performed(s.threads[t], d)
    ensures HostInv(s')
  {
    forall f | 0 <= f < |s'.entries| ensures StateMatches(s', f) {
      assert StateMatches(s, f);
    }
    forall u | 0 <= u < |s'.threads| ensures OwnerMatches(s', s'.threads[u]) && Attributed(s'.log, u, s'.threads[u]) {
      assert OwnerMatches(s, s.threads[u]) && Attributed(s.log, u, s.threads[u]);
    }
  }

  lemma CallKeepsHostInv(s: Sys, request: Request)
    requires HostInv(s) && CanCall(s, request)
    ensures HostInv(Do(s, Call(request)))
  {
    var s' := Do(s, Call(request));
    NoOperationsYet(s.log, |s.threads|, Up);
    NoOperationsYet(s.log, |s.threads|, Down);
    forall f | 0 <= f < |s'.entries| ensures StateMatches(s', f) {
      assert StateMatches(s, f);
    }
    forall u | 0 <= u < |s'.threads| ensures OwnerMatches(s', s'.threads[u]) && Attributed(s'.log, u, s'.threads[u]) {
      if u < |s.threads| { assert OwnerMatches(s, s.threads[u]) && Attributed(s.log, u, s.threads[u]); }
    }
  }

  lemma SignalKeepsHostInv(s: Sys, s': Sys)
    requires HostInv(s) && s'.(clock := s.clock, stopped := s.stopped) == s
    ensures HostInv(s')
  {
    forall f | 0 <= f < |s'.entries| ensures StateMatches(s', f) {
      assert StateMatches(s, f);
    }
    forall u | 0 <= u < |s'.threads| ensures OwnerMatches(s', s'.threads[u]) && Attributed(s'.log, u, s'.threads[u]) {
      assert OwnerMatches(s, s.threads[u]) && Attributed(s.log, u, s.threads[u]);
    }
  }

  lemma LookupKeepsHostInv(s: Sys, t: nat)
    requires HostInv(s) && Enabled(s, Run(t)) && s.threads[t].Lookup?
    ensures HostInv(RunThread(s, t))
  {
    QuietMoveKeepsHostInv(s, RunThread(s, t), t);
  }

  lemma ClaimKeepsHostInv(s: Sys, t: nat)
    requires HostInv(s) && Enabled(s, Run(t)) && s.threads[t].Claim?
    ensures HostInv(RunThread(s, t))
  {
    QuietMoveKeepsHostInv(s, RunClaim(s, t), t);
  }

  lemma RegistryRunKeepsHostInv(s: Sys, t: nat)
    requires HostInv(s) && Enabled(s, Run(t))
    requires s.threads[t].Removing? || s.threads[t].CloseCheck? || s.threads[t].CloseNow?
    ensures HostInv(RunThread(s, t))
  {
    QuietMoveKeepsHostInv(s, RunThread(s, t), t);
  }

  lemma WakeKeepsHostInv(s: Sys, t: nat, reason: Reason)
    requires HostInv(s) && Enabled(s, Wake(t, reason))
    ensures HostInv(WakeUp(s, t, reason))
  {
    QuietMoveKeepsHostInv(s, WakeUp(s, t, reason), t);
  }

  lemma StepKeepsHostInv(s: Sys, step: Step)
    requires Inv(s) && HostInv(s) && Enabled(s, step)
    ensures HostInv(Do(s, step))
  {
    match step
    case Tick(_) => SignalKeepsHostInv(s, Do(s, step));
    case Stop => SignalKeepsHostInv(s, Do(s, step));
    case Call(request) => CallKeepsHostInv(s, request);
    case HostReturn(t, ok) => HostReturnKeepsHostInv(s, t, ok);
    case Wake(t, reason) => WakeKeepsHostInv(s, t, reason);
    case Run(t) =>
      if s.threads[t].Enter? {
        EnterKeepsHostInv(s, t);
      } else if RoleOf(s.threads[t]).Owner? {
        OwnerRunKeepsHostInv(s, t);
      } else if s.threads[t].Installing? {
        InstallKeepsHostInv(s, t);
      } else if s.threads[t].Lookup? {
        LookupKeepsHostInv(s, t);
      } else if s.threads[t].Claim? {
        ClaimKeepsHostInv(s, t);
      } else {
        RegistryRunKeepsHostInv(s, t);
      }
  }

  lemma {:induction false} RunKeepsHostInv(states: seq<Sys>, steps: seq<Step>, i: nat)
    requires IsRun(states, steps) && i <= |steps|
    ensures HostInv(states[i])
  {
    if i > 0 {
      RunKeepsHostInv(states, steps, i - 1);
      RunKeepsInv(states, steps, i - 1);
      StepKeepsHostInv(states[i - 1], steps[i - 1]);
    }
  }

  /** In every reachable state an active or blocked function is running and a scaled-down
      one is not. */
  lemma StatesMatchRuntime(states: seq<Sys>, steps: seq<Step>, i: nat, e: nat)
    requires IsRun(states, steps) && i <= |steps| && e < |states[i].entries|
    ensures var s := states[i];
      && e < |s.born|
      && (s.entries[e].state == Active || s.entries[e].state == Blocked ==> Running(s.log, e, s.born[e]))
      && (s.entries[e].state == ScaledDown ==> !Running(s.log, e, s.born[e]))
  {
    RunKeepsHostInv(states, steps, i);
    assert StateMatches(states[i], e);
  }

  lemma {:induction false} RunningIsLastEvent(log: seq<HostEvent>, i: nat, e: nat, born: bool)
    requires i < |log| && log[i].entry == e && forall k :: i < k < |log| ==> log[k].entry != e
    ensures Running(log, e, born) == (log[i].direction == Up)
  {
    if i < |log| - 1 {
      RunningIsLastEvent(log[..|log| - 1], i, e, born);
    }
  }

  /** Successful host operations on one entry strictly alternate, whatever the
      interleaving. */
  lemma HostOperationsAlternate(states: seq<Sys>, steps: seq<Step>, n: nat, i: nat, j: nat)
    requires IsRun(states, steps) && n <= |steps| && i < j < |states[n].log|
    requires states[n].log[i].entry == states[n].log[j].entry
    requires forall k :: i < k < j ==> states[n].log[k].entry != states[n].log[j].entry
    ensures states[n].log[i].direction != states[n].log[j].direction
  {
    RunKeepsHostInv(states, steps, n);
    var log := states[n].log;
    var e := log[j].entry;
    RunningIsLastEvent(log[..j], i, e, states[n].born[e]);
  }

  /** The first one takes the entry out of the state it was registered in. */
  lemma FirstHostOperation(states: seq<Sys>, steps: seq<Step>, n: nat, j: nat)
    requires IsRun(states, steps) && n <= |steps| && j < |states[n].log|
    requires forall k :: 0 <= k < j ==> states[n].log[k].entry != states[n].log[j].entry
    ensures states[n].log[j].entry < |states[n].born|
    ensures states[n].log[j].direction == Up <==> !states[n].born[states[n].log[j].entry]
  {
    RunKeepsHostInv(states, steps, n);
    var event := states[n].log[j];
    RunningWithoutEvents(states[n].log[..j], event.entry, states[n].born[event.entry]);
  }

  lemma {:induction false} RunningWithoutEvents(log: seq<HostEvent>, e: nat, born: bool)
    requires forall k :: 0 <= k < |log| ==> log[k].entry != e
    ensures Running(log, e, born) == born
  {
    if log != [] {
      RunningWithoutEvents(log[..|log| - 1], e, born);
    }
  }

  /** Every successful scale-up was made by exactly one call, and a call reports
      performed=true exactly when it made one; likewise for scale-downs. */
  lemma OnePerformerPerOperation(states: seq<Sys>, steps: seq<Step>, n: nat, t: nat)
    requires IsRun(states, steps) && n <= |steps| && t < |states[n].threads| && states[n].threads[t].Returned?
    ensures Operations(states[n].log, t, Up) == if states[n].threads[t].reply == Ready(true) then 1 else 0
    ensures Operations(states[n].log, t, Down) == if states[n].threads[t].reply == Idled(true) then 1 else 0
    ensures forall i :: 0 <= i < |states[n].log| ==> states[n].log[i].thread < |states[n].threads|
  {
    RunKeepsHostInv(states, steps, n);
    assert Attributed(states[n].log, t, states[n].threads[t]);
  }
}
