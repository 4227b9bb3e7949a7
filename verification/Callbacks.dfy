/** Callbacks in every run, disciplined or not: a token is ended at most once, and the
    counters stay exact exactly while every callback finds the entry that admitted it. */
module Callbacks {
  import opened Lifecycle
  import opened Protocol
  import opened Invariant
  import opened Tokens

  predicate Claimed(s: Sys, pc: Pc) {
    (pc.Lookup? || pc.Enter?) && pc.context.Callback? ==>
      && pc.context.token < |s.tokens|
      && s.tokens[pc.context.token].claimed && !s.tokens[pc.context.token].settled
  }

  /** Whoever runs the EndInvocation of a callback has claimed its token, which is not
      ended yet, and is alone in that. */
  ghost predicate ClaimInv(s: Sys) {
    && (forall k :: 0 <= k < |s.tokens| && s.tokens[k].settled ==> s.tokens[k].claimed)
    && (forall t :: 0 <= t < |s.threads| ==> Claimed(s, s.threads[t]))
    && (forall t, u, k :: 0 <= t < u < |s.threads| && Carries(s.threads[t], k) ==> !Carries(s.threads[u], k))
  }

  /** A thread moves on without taking up a callback; tokens are only added. */
  lemma MoveKeepsClaims(s: Sys, s': Sys, t: nat)
    requires ClaimInv(s) && t < |s.threads| && t < |s'.threads|
    requires s'.threads == s.threads[t := s'.threads[t]] && s.tokens <= s'.tokens
    requires forall k :: |s.tokens| <= k < |s'.tokens| ==> !s'.tokens[k].settled
    requires forall k :: Carries(s'.threads[t], k) ==> Carries(s.threads[t], k)
    ensures ClaimInv(s')
  {
    forall u | 0 <= u < |s'.threads| ensures Claimed(s', s'.threads[u]) {
      assert Claimed(s, s.threads[u]);
      if u == t && (s'.threads[t].Lookup? || s'.threads[t].Enter?) && s'.threads[t].context.Callback? {
        assert Carries(s'.threads[t], s'.threads[t].context.token);
      }
    }
  }

  /** The EndInvocation section of a callback ends its token. */
  lemma EndKeepsClaims(s: Sys, t: nat)
    requires Inv(s) && ClaimInv(s) && Enabled(s, Run(t)) && s.threads[t].Enter?
    requires s.threads[t].op == EndInvocation && s.threads[t].context.Callback?
    ensures ClaimInv(RunEnter(s, t))
  {
    var s', k := RunEnter(s, t), s.threads[t].context.token;
    assert Claimed(s, s.threads[t]) && Carries(s.threads[t], k);
    forall u | 0 <= u < |s'.threads| ensures Claimed(s', s'.threads[u]) {
      assert Claimed(s, s.threads[u]);
      assert u != t ==> !Carries(s.threads[u], k);
    }
  }

  lemma EnterKeepsClaims(s: Sys, t: nat)
    requires Inv(s) && ClaimInv(s) && Enabled(s, Run(t)) && s.threads[t].Enter? && !s.threads[t].context.Callback?
    ensures ClaimInv(RunEnter(s, t))
  {
    assert PcOk(s, s.threads[t]);
    MoveKeepsClaims(s, RunEnter(s, t), t);
  }

  /** The first call of a callback takes its token; later calls leave it alone. */
  lemma ClaimKeepsClaims(s: Sys, t: nat)
    requires ClaimInv(s) && Enabled(s, Run(t)) && s.threads[t].Claim?
    ensures ClaimInv(RunClaim(s, t))
  {
    var s', k := RunClaim(s, t), s.threads[t].token;
    if s.tokens[k].claimed {
      MoveKeepsClaims(s, s', t);
    } else {
      forall u | 0 <= u < |s'.threads| ensures Claimed(s', s'.threads[u]) && (u != t ==> !Carries(s'.threads[u], k)) {
        assert Claimed(s, s.threads[u]);
      }
    }
  }

  lemma OtherRunKeepsClaims(s: Sys, t: nat)
    requires Inv(s) && ClaimInv(s) && Enabled(s, Run(t)) && !s.threads[t].Enter? && !s.threads[t].Claim?
    ensures ClaimInv(RunThread(s, t))
  {
    assert PcOk(s, s.threads[t]);
    MoveKeepsClaims(s, RunThread(s, t), t);
  }

  lemma CallKeepsClaims(s: Sys, request: Request)
    requires ClaimInv(s) && CanCall(s, request)
    ensures ClaimInv(Do(s, Call(request)))
  {
    var s' := Do(s, Call(request));
    forall u | 0 <= u < |s'.threads| ensures Claimed(s', s'.threads[u]) {
      if u < |s.threads| { assert Claimed(s, s.threads[u]); }
    }
  }

  lemma StepKeepsClaims(s: Sys, step: Step)
    requires Inv(s) && ClaimInv(s) && Enabled(s, step)
    ensures ClaimInv(Do(s, step))
  {
    match step
    case Call(request) => CallKeepsClaims(s, request);
    case HostReturn(t, ok) => MoveKeepsClaims(s, HostAnswers(s, t, ok), t);
    case Wake(t, reason) =>
      assert PcOk(s, s.threads[t]);
      MoveKeepsClaims(s, WakeUp(s, t, reason), t);
    case Run(t) =>
      assert PcOk(s, s.threads[t]);
      if s.threads[t].Enter? && s.threads[t].context.Callback? { EndKeepsClaims(s, t); }
      else if s.threads[t].Enter? { EnterKeepsClaims(s, t); }
      else if s.threads[t].Claim? { ClaimKeepsClaims(s, t); }
      else { OtherRunKeepsClaims(s, t); }
    case _ => SignalKeepsClaims(s, Do(s, step));
  }

  lemma SignalKeepsClaims(s: Sys, s': Sys)
    requires ClaimInv(s) && s'.(clock := s.clock, stopped := s.stopped) == s
    ensures ClaimInv(s')
  {
    forall u | 0 <= u < |s'.threads| ensures Claimed(s', s'.threads[u]) {
      assert Claimed(s, s.threads[u]);
    }
  }

  lemma {:induction false} RunKeepsClaims(states: seq<Sys>, steps: seq<Step>, i: nat)
    requires IsRun(states, steps) && i <= |steps|
    ensures ClaimInv(states[i])
  {
    if i > 0 {
      RunKeepsClaims(states, steps, i - 1);
      RunKeepsInv(states, steps, i - 1);
      StepKeepsClaims(states[i - 1], steps[i - 1]);
    }
  }

  // ---- At most one end per token ----

  /** The step is the EndInvocation section of the callback of token k. */
  predicate EndsToken(s: Sys, step: Step, k: nat) {
    && step.Run? && step.thread < |s.threads| && s.threads[step.thread].Enter?
    && s.threads[step.thread].op == EndInvocation && s.threads[step.thread].context == Callback(k)
  }

  lemma SettledStays(s: Sys, step: Step, k: nat)
    requires Enabled(s, step) && k < |s.tokens|
    ensures k < |Do(s, step).tokens|
    ensures s.tokens[k].settled || EndsToken(s, step, k) ==> Do(s, step).tokens[k].settled
  {
  }

  lemma {:induction false} SettledForEver(states: seq<Sys>, steps: seq<Step>, i: nat, j: nat, k: nat)
    requires IsRun(states, steps) && i <= j <= |steps| && k < |states[i].tokens| && states[i].tokens[k].settled
    ensures k < |states[j].tokens| && states[j].tokens[k].settled
    decreases j
  {
    if i < j {
      SettledForEver(states, steps, i, j - 1, k);
      SettledStays(states[j - 1], steps[j - 1], k);
    }
  }

  /** However often and from wherever the callback of an invocation is called, the
      invocation is ended at most once. */
  lemma OneEndPerToken(states: seq<Sys>, steps: seq<Step>, i: nat, j: nat, k: nat)
    requires IsRun(states, steps) && i < |steps| && j < |steps|
    requires EndsToken(states[i], steps[i], k) && EndsToken(states[j], steps[j], k)
    ensures i == j
  {
    RunKeepsClaims(states, steps, i);
    RunKeepsClaims(states, steps, j);
    assert Claimed(states[i], states[i].threads[steps[i].thread]);
    assert Claimed(states[j], states[j].threads[steps[j].thread]);
    SettledStays(states[i], steps[i], k);
    SettledStays(states[j], steps[j], k);
    if i < j {
      SettledForEver(states, steps, i + 1, j, k);
    } else if j < i {
      SettledForEver(states, steps, j + 1, i, k);
    }
  }

  // ---- When the counters are exact ----

  ghost predicate Exact(s: Sys) {
    forall e :: 0 <= e < |s.entries| ==> s.entries[e].inFlight == Outstanding(s.tokens, e)
  }

  /** If the step ends an invocation for a callback, it does so on the admitting entry. */
  predicate EndsAtHome(s: Sys, step: Step) {
    && step.Run? && step.thread < |s.threads| && s.threads[step.thread].Enter?
    && s.threads[step.thread].op == EndInvocation && s.threads[step.thread].context.Callback?
    && s.threads[step.thread].context.token < |s.tokens|
    ==> s.threads[step.thread].entry == s.tokens[s.threads[step.thread].context.token].entry
  }

  ghost predicate EndsAreCallbacks(s: Sys) {
    forall t :: 0 <= t < |s.threads| && (s.threads[t].Lookup? || s.threads[t].Enter?) ==>
      s.threads[t].op == EndInvocation ==> s.threads[t].context.Callback?
  }

  lemma StepKeepsEndsCallbacks(s: Sys, step: Step)
    requires Inv(s) && EndsAreCallbacks(s) && Enabled(s, step) && !(step.Call? && step.request.End?)
    ensures EndsAreCallbacks(Do(s, step))
  {
    if step.Run? || step.HostReturn? || step.Wake? {
      assert PcOk(s, s.threads[step.thread]);
    }
  }

  lemma AdmissionKeepsExact(s: Sys, t: nat)
    requires Inv(s) && Exact(s) && Enabled(s, Run(t)) && s.threads[t].Enter?
    requires |RunEnter(s, t).tokens| > |s.tokens|
    ensures Exact(RunEnter(s, t))
  {
    var s' := RunEnter(s, t);
    assert PcOk(s, s.threads[t]) && EntryOk(s, s.threads[t].entry);
    forall e | 0 <= e < |s'.entries| ensures s'.entries[e].inFlight == Outstanding(s'.tokens, e) {
      OutstandingAppend(s.tokens, s'.tokens[|s.tokens|], e);
    }
  }

  lemma OtherEnterKeepsExact(s: Sys, t: nat)
    requires Inv(s) && Exact(s) && Enabled(s, Run(t)) && s.threads[t].Enter? && s.threads[t].op != EndInvocation
    requires |RunEnter(s, t).tokens| == |s.tokens|
    ensures Exact(RunEnter(s, t))
  {
  }

  lemma ClaimKeepsExact(s: Sys, t: nat)
    requires Exact(s) && Enabled(s, Run(t)) && s.threads[t].Claim?
    ensures Exact(RunClaim(s, t))
  {
    var s', k := RunClaim(s, t), s.threads[t].token;
    forall e | 0 <= e < |s'.entries| ensures s'.entries[e].inFlight == Outstanding(s'.tokens, e) {
      OutstandingUpdate(s.tokens, k, s'.tokens[k], e);
    }
  }

  lemma InstallKeepsExact(s: Sys, t: nat)
    requires Inv(s) && Exact(s) && Enabled(s, Run(t)) && s.threads[t].Installing?
    ensures Exact(RunInstall(s, t))
  {
    assert PcOk(s, s.threads[t]);
    OutstandingNone(s.tokens, |s.entries|);
  }

  lemma OtherRunKeepsExact(s: Sys, t: nat)
    requires Inv(s) && Exact(s) && Enabled(s, Run(t))
    requires !s.threads[t].Enter? && !s.threads[t].Claim? && !s.threads[t].Installing?
    ensures Exact(RunThread(s, t))
  {
    assert PcOk(s, s.threads[t]);
    if RoleOf(s.threads[t]) != Bystander { assert EntryOk(s, s.threads[t].entry); }
  }

  lemma ExactSurvivesIffAtHome(s: Sys, step: Step)
    requires Inv(s) && ClaimInv(s) && EndsAreCallbacks(s) && Exact(s) && Enabled(s, step)
    ensures Exact(Do(s, step)) <==> EndsAtHome(s, step)
  {
    if step.Run? {
      var t := step.thread;
      assert PcOk(s, s.threads[t]);
      if s.threads[t].Enter? && s.threads[t].op == EndInvocation {
        assert Claimed(s, s.threads[t]);
        CountSurvivesIffSameEntry(s, t);
      } else if s.threads[t].Enter? && |RunEnter(s, t).tokens| > |s.tokens| {
        AdmissionKeepsExact(s, t);
      } else if s.threads[t].Enter? {
        OtherEnterKeepsExact(s, t);
      } else if s.threads[t].Claim? {
        ClaimKeepsExact(s, t);
      } else if s.threads[t].Installing? {
        InstallKeepsExact(s, t);
      } else {
        OtherRunKeepsExact(s, t);
      }
    }
  }

  ghost predicate NoBareEnds(steps: seq<Step>, i: nat)
    requires i <= |steps|
  {
    forall k :: 0 <= k < i ==> !(steps[k].Call? && steps[k].request.End?)
  }

  lemma {:induction false} RunEndsAreCallbacks(states: seq<Sys>, steps: seq<Step>, i: nat)
    requires IsRun(states, steps) && i <= |steps| && NoBareEnds(steps, i)
    ensures EndsAreCallbacks(states[i])
  {
    if i > 0 {
      RunEndsAreCallbacks(states, steps, i - 1);
      RunKeepsInv(states, steps, i - 1);
      StepKeepsEndsCallbacks(states[i - 1], steps[i - 1]);
    }
  }

  ghost predicate ExactUpTo(states: seq<Sys>, i: nat)
    requires i < |states|
  {
    forall k :: 0 <= k <= i ==> Exact(states[k])
  }

  ghost predicate AtHomeUpTo(states: seq<Sys>, steps: seq<Step>, i: nat)
    requires i <= |steps| < |states|
  {
    forall k {:trigger steps[k]} :: 0 <= k < i ==> EndsAtHome(states[k], steps[k])
  }

  /** Over whole runs without bare EndInvocation calls: every counter is exact all the time
      if and only if every callback ended its invocation on the admitting entry. */
  lemma {:induction false} CountsExactIffEndsAtHome(states: seq<Sys>, steps: seq<Step>, i: nat)
    requires IsRun(states, steps) && i <= |steps| && NoBareEnds(steps, i)
    ensures ExactUpTo(states, i) <==> AtHomeUpTo(states, steps, i)
  {
    if i == 0 {
      assert Exact(states[0]);
    } else {
      CountsExactIffEndsAtHome(states, steps, i - 1);
      RunKeepsInv(states, steps, i - 1);
      RunKeepsClaims(states, steps, i - 1);
      RunEndsAreCallbacks(states, steps, i - 1);
      if Exact(states[i - 1]) {
        ExactSurvivesIffAtHome(states[i - 1], steps[i - 1]);
      }
      assert ExactUpTo(states, i) <==> (ExactUpTo(states, i - 1) && Exact(states[i]));
      assert ExactUpTo(states, i - 1) ==> Exact(states[i - 1]);
      assert AtHomeUpTo(states, steps, i) <==>
        (AtHomeUpTo(states, steps, i - 1) && EndsAtHome(states[i - 1], steps[i - 1]));
    }
  }
}
