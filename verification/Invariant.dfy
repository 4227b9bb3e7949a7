/** The inductive invariant of the protocol: what every step of every thread keeps. */
module Invariant {
  import opened Lifecycle
  import opened Protocol

  /** What a thread is responsible for: finishing the transition of an entry, or
      closing the `unregistered` channel of one it took out of the registry. */
  datatype Role = Bystander | Owner(entry: nat) | Closer(entry: nat)

  function RoleOf(pc: Pc): Role {
    match pc
    case StopCheck(e) => Owner(e)
    case Revert(e) => Owner(e)
    case Host(_, _, e) => Owner(e)
    case Commit(_, _, e, _) => Owner(e)
    case CloseCheck(e) => Closer(e)
    case CloseNow(e) => Closer(e)
    case _ => Bystander
  }

  ghost predicate Taken(threads: seq<Pc>, role: Role) {
    exists t :: 0 <= t < |threads| && RoleOf(threads[t]) == role
  }

  predicate Registered(s: Sys, e: nat)
    requires e < |s.entries|
  {
    s.entries[e].name in s.registry && s.registry[s.entries[e].name] == e
  }

  predicate ContextFits(op: Op, context: Context) {
    && (context.Begin? ==> op == StartInvocation)
    && (context.Callback? ==> op == EndInvocation)
    && (context.Batch? <==> op.BatchActivity?)
  }

  /** The calls that are allowed to block. */
  predicate MayWait(op: Op) {
    op == StartInvocation || op == ScaleUpWhenReady || op == ScaleDownWhenIdle
  }

  predicate PcOk(s: Sys, pc: Pc) {
    && InBounds(s, pc)
    && match pc
       case Lookup(op, _, context) => op != IdleScan && ContextFits(op, context)
       case Enter(op, _, context) => ContextFits(op, context)
       case Parked(op, e, context, captured) =>
         && ContextFits(op, context)
         && MayWait(op)
         && captured <= s.entries[e].generation
         && (captured == s.entries[e].generation ==> MustWait(op, s.entries[e].state))
       case StopCheck(e) => s.entries[e].state == ScalingDown
       case Revert(e) => s.entries[e].state == ScalingDown && s.stopped
       case Host(direction, _, e) => s.entries[e].state == TransientOf(direction)
       case Commit(direction, _, e, _) => s.entries[e].state == TransientOf(direction)
       case Returned(reply) => reply != Failed(InvalidState)
       case Installing(incoming) =>
         && (incoming.state == Active || incoming.state == ScaledDown)
         && incoming.inFlight == 0 && incoming.generation == 0 && incoming.closes == 0
       case CloseCheck(e) => s.entries[e].closes == 0 && !Registered(s, e)
       case CloseNow(e) => s.entries[e].closes == 0 && !Registered(s, e)
       case _ => true
  }

  ghost predicate EntryOk(s: Sys, e: nat)
    requires e < |s.entries|
  {
    && WellFormed(s.entries[e])
    && s.entries[e].closes <= 1
    && (Registered(s, e) ==> s.entries[e].closes == 0)
    && (Transient(s.entries[e].state) ==> Taken(s.threads, Owner(e)))
    && (!Registered(s, e) && s.entries[e].closes == 0 ==> Taken(s.threads, Closer(e)))
  }

  ghost predicate Exclusive(threads: seq<Pc>) {
    forall t, u :: 0 <= t < u < |threads| && RoleOf(threads[t]) != Bystander ==>
      RoleOf(threads[t]) != RoleOf(threads[u])
  }

  ghost predicate Inv(s: Sys) {
    && (forall n :: n in s.registry ==> s.registry[n] < |s.entries| && s.entries[s.registry[n]].name == n)
    && (forall e :: 0 <= e < |s.entries| ==> EntryOk(s, e))
    && (forall t :: 0 <= t < |s.threads| ==> PcOk(s, s.threads[t]))
    && (forall k :: 0 <= k < |s.tokens| ==> s.tokens[k].entry < |s.entries|)
    && Exclusive(s.threads)
    && |s.born| == |s.entries|
  }

  lemma KeepRole(threads: seq<Pc>, t: nat, pc: Pc, role: Role)
    requires t < |threads| && Taken(threads, role)
    requires RoleOf(threads[t]) != role || RoleOf(pc) == role
    ensures Taken(threads[t := pc], role)
  {
    var u :| 0 <= u < |threads| && RoleOf(threads[u]) == role;
    assert RoleOf(threads[t := pc][u]) == role;
  }

  lemma GainRole(threads: seq<Pc>, t: nat, pc: Pc)
    requires t < |threads|
    ensures Taken(threads[t := pc], RoleOf(pc))
  {
    assert threads[t := pc][t] == pc;
  }

  /** A thread moves on from a section on entry e. */
  lemma EntryMoveKeepsInv(s: Sys, s': Sys, t: nat, e: nat)
    requires Inv(s) && t < |s.threads| && e < |s.entries| && t < |s'.threads| && e < |s'.entries|
    requires s'.threads == s.threads[t := s'.threads[t]] && s'.entries == s.entries[e := s'.entries[e]]
    requires s'.registry == s.registry && s'.born == s.born && s'.stopped == s.stopped
    requires |s.tokens| <= |s'.tokens| && forall k :: 0 <= k < |s'.tokens| ==> s'.tokens[k].entry < |s.entries|
    requires s'.entries[e].name == s.entries[e].name && s'.entries[e].closes == s.entries[e].closes
    requires WellFormed(s'.entries[e]) && s.entries[e].generation <= s'.entries[e].generation
    requires s'.entries[e].state != s.entries[e].state ==> s.entries[e].generation < s'.entries[e].generation
    requires PcOk(s', s'.threads[t])
    requires RoleOf(s.threads[t]) == Bystander || RoleOf(s.threads[t]) == Owner(e)
    requires RoleOf(s'.threads[t]) == Bystander || RoleOf(s'.threads[t]) == Owner(e)
    requires match (RoleOf(s.threads[t]), RoleOf(s'.threads[t]))
             case (Owner(_), Owner(_)) => s'.entries[e].state == s.entries[e].state
             case (Owner(_), _) => !Transient(s'.entries[e].state)
             case (_, Owner(_)) => !Transient(s.entries[e].state)
             case _ =>
               Transient(s'.entries[e].state) || Transient(s.entries[e].state) ==>
                 s'.entries[e].state == s.entries[e].state
    ensures Inv(s')
  {
    var pc := s'.threads[t];
    forall f | 0 <= f < |s'.entries| ensures EntryOk(s', f) {
      assert EntryOk(s, f);
      if Taken(s.threads, Closer(f)) { KeepRole(s.threads, t, pc, Closer(f)); }
      if f == e && RoleOf(pc) == Owner(e) { GainRole(s.threads, t, pc); }
      else if Taken(s.threads, Owner(f)) && RoleOf(s.threads[t]) != Owner(f) { KeepRole(s.threads, t, pc, Owner(f)); }
    }
    assert RoleOf(pc) == Owner(e) && RoleOf(s.threads[t]) == Bystander ==> !Taken(s.threads, Owner(e));
  }

  /** A thread moves on without touching an entry, the registry or its role. */
  lemma PlainMoveKeepsInv(s: Sys, s': Sys, t: nat)
    requires Inv(s) && t < |s.threads| && t < |s'.threads|
    requires s'.threads == s.threads[t := s'.threads[t]] && s'.entries == s.entries
    requires s'.registry == s.registry && s'.born == s.born && s'.stopped == s.stopped
    requires |s.tokens| <= |s'.tokens| && forall k :: 0 <= k < |s'.tokens| ==> s'.tokens[k].entry < |s.entries|
    requires PcOk(s', s'.threads[t]) && RoleOf(s'.threads[t]) == RoleOf(s.threads[t])
    ensures Inv(s')
  {
    forall f | 0 <= f < |s'.entries| ensures EntryOk(s', f) {
      assert EntryOk(s, f);
      if Taken(s.threads, Closer(f)) { KeepRole(s.threads, t, s'.threads[t], Closer(f)); }
      if Taken(s.threads, Owner(f)) { KeepRole(s.threads, t, s'.threads[t], Owner(f)); }
    }
  }

  lemma SectionKeepsWellFormed(op: Op, e: Entry, now: int)
    requires WellFormed(e)
    ensures var (after, verdict) := Section(op, e, now);
      && WellFormed(after) && after.name == e.name && after.closes == e.closes
      && e.generation <= after.generation
      && (after.state != e.state ==> e.generation < after.generation)
      && (Transient(e.state) ==> after.state == e.state && !verdict.ToHost?)
      && (verdict == Park ==> after == e && MustWait(op, e.state))
      && verdict != Finish(Failed(InvalidState))
      && (verdict.ToHost? ==> after.state == TransientOf(verdict.direction))
      && (Transient(after.state) && !verdict.ToHost? ==> after.state == e.state)
      && (op == IdleScan && verdict.ToHost? ==> verdict.direction == Down)
  {
  }

  lemma EnterKeepsInv(s: Sys, t: nat)
    requires Inv(s) && Enabled(s, Run(t)) && s.threads[t].Enter?
    ensures Inv(RunEnter(s, t))
  {
    var Enter(op, e, context) := s.threads[t];
    assert EntryOk(s, e) && PcOk(s, s.threads[t]);
    SectionKeepsWellFormed(op, s.entries[e], s.clock);
    EntryMoveKeepsInv(s, RunEnter(s, t), t, e);
  }

  lemma LookupKeepsInv(s: Sys, t: nat)
    requires Inv(s) && Enabled(s, Run(t)) && s.threads[t].Lookup?
    ensures Inv(RunThread(s, t))
  {
    assert PcOk(s, s.threads[t]);
    PlainMoveKeepsInv(s, RunThread(s, t), t);
  }

  lemma OwnerStepKeepsInv(s: Sys, t: nat)
    requires Inv(s) && Enabled(s, Run(t))
    requires s.threads[t].StopCheck? || s.threads[t].Revert? || s.threads[t].Commit?
    ensures Inv(RunThread(s, t))
  {
    var e := s.threads[t].entry;
    assert EntryOk(s, e) && PcOk(s, s.threads[t]);
    EntryMoveKeepsInv(s, RunThread(s, t), t, e);
  }

  lemma ClaimKeepsInv(s: Sys, t: nat)
    requires Inv(s) && Enabled(s, Run(t)) && s.threads[t].Claim?
    ensures Inv(RunThread(s, t))
  {
    assert PcOk(s, s.threads[t]);
    PlainMoveKeepsInv(s, RunThread(s, t), t);
  }

  lemma InstallKeepsEntry(s: Sys, t: nat, f: nat)
    requires Inv(s) && Enabled(s, Run(t)) && s.threads[t].Installing? && f <= |s.entries|
    ensures EntryOk(RunInstall(s, t), f)
  {
    var pc := RunInstall(s, t).threads[t];
    assert PcOk(s, s.threads[t]);
    if f < |s.entries| {
      assert EntryOk(s, f);
      if Taken(s.threads, Owner(f)) { KeepRole(s.threads, t, pc, Owner(f)); }
      if Taken(s.threads, Closer(f)) { KeepRole(s.threads, t, pc, Closer(f)); }
      GainRole(s.threads, t, pc);
    }
  }

  lemma InstallKeepsInv(s: Sys, t: nat)
    requires Inv(s) && Enabled(s, Run(t)) && s.threads[t].Installing?
    ensures Inv(RunInstall(s, t))
  {
    var s' := RunInstall(s, t);
    var name := s.threads[t].incoming.name;
    assert name in s.registry ==> EntryOk(s, s.registry[name]);
    assert PcOk(s, s.threads[t]);
    forall f | 0 <= f < |s'.entries| ensures EntryOk(s', f) {
      InstallKeepsEntry(s, t, f);
    }
    forall u | 0 <= u < |s'.threads| ensures PcOk(s', s'.threads[u]) {
      assert PcOk(s, s.threads[u]);
    }
  }

  lemma RemoveKeepsInv(s: Sys, t: nat)
    requires Inv(s) && Enabled(s, Run(t)) && s.threads[t].Removing?
    ensures Inv(RunRemove(s, t))
  {
    var s' := RunRemove(s, t);
    var name := s.threads[t].name;
    assert name in s.registry ==> EntryOk(s, s.registry[name]);
    var pc := s'.threads[t];
    forall f | 0 <= f < |s'.entries| ensures EntryOk(s', f) {
      assert EntryOk(s, f);
      if Taken(s.threads, Owner(f)) { KeepRole(s.threads, t, pc, Owner(f)); }
      if Taken(s.threads, Closer(f)) { KeepRole(s.threads, t, pc, Closer(f)); }
      GainRole(s.threads, t, pc);
    }
    forall u | 0 <= u < |s'.threads| ensures PcOk(s', s'.threads[u]) {
      assert PcOk(s, s.threads[u]);
    }
  }

  lemma CheckKeepsInv(s: Sys, t: nat)
    requires Inv(s) && Enabled(s, Run(t)) && s.threads[t].CloseCheck?
    ensures Inv(RunThread(s, t))
  {
    assert PcOk(s, s.threads[t]);
    PlainMoveKeepsInv(s, RunThread(s, t), t);
  }

  /** The close itself: by exclusiveness nobody else is bound to close this entry. */
  lemma CloseKeepsInv(s: Sys, t: nat)
    requires Inv(s) && Enabled(s, Run(t)) && s.threads[t].CloseNow?
    ensures Inv(RunThread(s, t))
  {
    assert PcOk(s, s.threads[t]);
    var s' := RunThread(s, t);
    var pc := s'.threads[t];
    forall f | 0 <= f < |s'.entries| ensures EntryOk(s', f) {
      assert EntryOk(s, f);
      if Taken(s.threads, Owner(f)) { KeepRole(s.threads, t, pc, Owner(f)); }
      if Taken(s.threads, Closer(f)) && f != s.threads[t].entry { KeepRole(s.threads, t, pc, Closer(f)); }
    }
    forall u | 0 <= u < |s'.threads| ensures PcOk(s', s'.threads[u]) {
      assert PcOk(s, s.threads[u]);
    }
  }

  lemma CallKeepsInv(s: Sys, request: Request)
    requires Inv(s) && CanCall(s, request)
    ensures Inv(Do(s, Call(request)))
  {
    var s' := Do(s, Call(request));
    assert PcOk(s', FirstPc(s, request));
    forall u | 0 <= u < |s.threads| ensures PcOk(s', s'.threads[u]) {
      assert PcOk(s, s.threads[u]);
    }
    forall f | 0 <= f < |s'.entries| ensures EntryOk(s', f) {
      assert EntryOk(s, f);
      if Taken(s.threads, Owner(f)) {
        var u :| 0 <= u < |s.threads| && RoleOf(s.threads[u]) == Owner(f);
        assert s'.threads[u] == s.threads[u];
      }
      if Taken(s.threads, Closer(f)) {
        var u :| 0 <= u < |s.threads| && RoleOf(s.threads[u]) == Closer(f);
        assert s'.threads[u] == s.threads[u];
      }
    }
  }

  lemma HostReturnKeepsInv(s: Sys, t: nat, ok: bool)
    requires Inv(s) && Enabled(s, HostReturn(t, ok))
    ensures Inv(HostAnswers(s, t, ok))
  {
    assert PcOk(s, s.threads[t]);
    PlainMoveKeepsInv(s, HostAnswers(s, t, ok), t);
  }

  lemma WakeKeepsInv(s: Sys, t: nat, reason: Reason)
    requires Inv(s) && Enabled(s, Wake(t, reason))
    ensures Inv(WakeUp(s, t, reason))
  {
    assert PcOk(s, s.threads[t]);
    PlainMoveKeepsInv(s, WakeUp(s, t, reason), t);
  }

  /** Clock ticks and the stop signal change neither entries nor threads. */
  lemma SignalKeepsInv(s: Sys, s': Sys)
    requires Inv(s) && s'.(clock := s.clock, stopped := s.stopped) == s && (s.stopped ==> s'.stopped)
    ensures Inv(s')
  {
    forall u | 0 <= u < |s'.threads| ensures PcOk(s', s'.threads[u]) {
      assert PcOk(s, s.threads[u]);
    }
    forall f | 0 <= f < |s'.entries| ensures EntryOk(s', f) {
      assert EntryOk(s, f);
    }
  }

  lemma StepKeepsInv(s: Sys, step: Step)
    requires Inv(s) && Enabled(s, step)
    ensures Inv(Do(s, step))
  {
    match step
    case Tick(_) => SignalKeepsInv(s, Do(s, step));
    case Stop => SignalKeepsInv(s, Do(s, step));
    case Call(request) => CallKeepsInv(s, request);
    case HostReturn(t, ok) => HostReturnKeepsInv(s, t, ok);
    case Wake(t, reason) => WakeKeepsInv(s, t, reason);
    case Run(t) =>
      match s.threads[t]
      case Lookup(_, _, _) => LookupKeepsInv(s, t);
      case Enter(_, _, _) => EnterKeepsInv(s, t);
      case Claim(_) => ClaimKeepsInv(s, t);
      case Installing(_) => InstallKeepsInv(s, t);
      case Removing(_) => RemoveKeepsInv(s, t);
      case CloseCheck(_) => CheckKeepsInv(s, t);
      case CloseNow(_) => CloseKeepsInv(s, t);
      case StopCheck(_) => OwnerStepKeepsInv(s, t);
      case Revert(_) => OwnerStepKeepsInv(s, t);
      case Commit(_, _, _, _) => OwnerStepKeepsInv(s, t);
  }

  /** Every state of every run satisfies the invariant. */
  lemma {:induction false} RunKeepsInv(states: seq<Sys>, steps: seq<Step>, i: nat)
    requires IsRun(states, steps) && i <= |steps|
    ensures Inv(states[i])
  {
    if i > 0 {
      RunKeepsInv(states, steps, i - 1);
      StepKeepsInv(states[i - 1], steps[i - 1]);
    }
  }
}
