/** Completion callbacks and the in-flight counter: the counter of an entry is the
    number of admissions whose callback has not taken effect. */
module Tokens {
  import opened Lifecycle
  import opened Protocol
  import opened Invariant

  /** Admissions on entry e for which no EndInvocation section ran yet. */
  function Outstanding(tokens: seq<Token>, e: nat): nat {
    if tokens == [] then 0
    else Outstanding(tokens[..|tokens| - 1], e) + Counts(tokens[|tokens| - 1], e)
  }

  function Counts(token: Token, e: nat): nat {
    if token.entry == e && !token.settled then 1 else 0
  }

  lemma {:induction false} OutstandingUpdate(tokens: seq<Token>, k: nat, token: Token, e: nat)
    requires k < |tokens|
    ensures Outstanding(tokens[k := token], e) == Outstanding(tokens, e) - Counts(tokens[k], e) + Counts(token, e)
  {
    var last := |tokens| - 1;
    if k < last {
      OutstandingUpdate(tokens[..last], k, token, e);
      assert tokens[k := token][..last] == tokens[..last][k := token];
    } else {
      assert tokens[k := token][..last] == tokens[..last];
    }
  }

  lemma OutstandingAppend(tokens: seq<Token>, token: Token, e: nat)
    ensures Outstanding(tokens + [token], e) == Outstanding(tokens, e) + Counts(token, e)
  {
    assert (tokens + [token])[..|tokens|] == tokens;
  }

  lemma {:induction false} OutstandingPositive(tokens: seq<Token>, k: nat)
    requires k < |tokens| && !tokens[k].settled
    ensures Outstanding(tokens, tokens[k].entry) > 0
  {
    if k < |tokens| - 1 {
      OutstandingPositive(tokens[..|tokens| - 1], k);
    }
  }

  lemma {:induction false} OutstandingNone(tokens: seq<Token>, e: nat)
    requires forall k :: 0 <= k < |tokens| ==> tokens[k].entry != e
    ensures Outstanding(tokens, e) == 0
  {
    if tokens != [] {
      OutstandingNone(tokens[..|tokens| - 1], e);
    }
  }

  /** A StartInvocation that has looked the entry up and may still be admitted on it. */
  predicate Admitting(pc: Pc, e: nat) {
    (pc.Enter? || pc.Parked?) && pc.op == StartInvocation && pc.entry == e
  }

  /** No admission on the entry is outstanding or under way. */
  predicate Quiet(s: Sys, e: nat) {
    && Outstanding(s.tokens, e) == 0
    && forall t :: 0 <= t < |s.threads| ==> !Admitting(s.threads[t], e)
  }

  /** EndInvocation only through callbacks, and no name is removed or replaced while an
      admission on its entry is outstanding or under way. */
  predicate Disciplined(s: Sys, step: Step) {
    && !(step.Call? && step.request.End?)
    && (step.Run? && step.thread < |s.threads| ==>
          var pc := s.threads[step.thread];
          && (pc.Installing? && pc.incoming.name in s.registry ==> Quiet(s, s.registry[pc.incoming.name]))
          && (pc.Removing? && pc.name in s.registry ==> Quiet(s, s.registry[pc.name])))
  }

  /** The narrower discipline: a removal or replacement waits for the outstanding tokens of
      the entry, but not for admissions under way. It is not enough. */
  predicate Patient(s: Sys, step: Step) {
    && !(step.Call? && step.request.End?)
    && (step.Run? && step.thread < |s.threads| ==>
          var pc := s.threads[step.thread];
          && (pc.Installing? && pc.incoming.name in s.registry ==>
                Outstanding(s.tokens, s.registry[pc.incoming.name]) == 0)
          && (pc.Removing? && pc.name in s.registry ==> Outstanding(s.tokens, s.registry[pc.name]) == 0))
  }

  /** The thread is running the EndInvocation of a callback. */
  predicate Carries(pc: Pc, k: nat) {
    (pc.Lookup? || pc.Enter?) && pc.context == Callback(k)
  }

  predicate CarrierOk(s: Sys, pc: Pc) {
    && ((pc.Lookup? || pc.Enter?) && pc.op == EndInvocation ==> pc.context.Callback?)
    && ((pc.Lookup? || pc.Enter?) && pc.context.Callback? ==>
          && pc.context.token < |s.tokens|
          && var token := s.tokens[pc.context.token];
             token.claimed && !token.settled && if pc.Lookup? then pc.name == token.name else pc.entry == token.entry)
  }

  predicate TokenOk(s: Sys, token: Token) {
    && token.entry < |s.entries|
    && (token.settled ==> token.claimed)
    && (!token.settled ==> Registered(s, token.entry) && s.entries[token.entry].name == token.name)
  }

  predicate AdmissionOk(s: Sys, pc: Pc) {
    (pc.Enter? || pc.Parked?) && pc.op == StartInvocation && pc.entry < |s.entries| ==> Registered(s, pc.entry)
  }

  ghost predicate TokenInv(s: Sys) {
    && (forall e :: 0 <= e < |s.entries| ==> s.entries[e].inFlight == Outstanding(s.tokens, e))
    && (forall k :: 0 <= k < |s.tokens| ==> TokenOk(s, s.tokens[k]))
    && (forall t :: 0 <= t < |s.threads| ==> CarrierOk(s, s.threads[t]) && AdmissionOk(s, s.threads[t]))
    && (forall t, u, k :: 0 <= t < u < |s.threads| && Carries(s.threads[t], k) ==> !Carries(s.threads[u], k))
  }

  /** A move that changes neither counters nor tokens nor the registry. */
  lemma MoveKeepsTokenInv(s: Sys, s': Sys, t: nat)
    requires TokenInv(s) && t < |s.threads| && t < |s'.threads|
    requires s'.threads == s.threads[t := s'.threads[t]] && s'.tokens == s.tokens && s'.registry == s.registry
    requires |s'.entries| == |s.entries|
    requires forall e :: 0 <= e < |s.entries| ==>
      s'.entries[e].inFlight == s.entries[e].inFlight && s'.entries[e].name == s.entries[e].name
    requires CarrierOk(s', s'.threads[t]) && AdmissionOk(s', s'.threads[t])
    requires forall k :: Carries(s'.threads[t], k) ==> Carries(s.threads[t], k)
    ensures TokenInv(s')
  {
    forall k | 0 <= k < |s'.tokens| ensures TokenOk(s', s'.tokens[k]) {
      assert TokenOk(s, s.tokens[k]);
    }
    forall u | 0 <= u < |s'.threads| ensures CarrierOk(s', s'.threads[u]) && AdmissionOk(s', s'.threads[u]) {
      assert CarrierOk(s, s.threads[u]) && AdmissionOk(s, s.threads[u]);
    }
  }

  /** An admission adds one token and one in flight, on the same entry. */
  lemma AdmitKeepsTokenInv(s: Sys, t: nat)
    requires Inv(s) && TokenInv(s) && Enabled(s, Run(t)) && s.threads[t].Enter?
    requires s.threads[t].op == StartInvocation && |RunEnter(s, t).tokens| > |s.tokens|
    ensures TokenInv(RunEnter(s, t))
    ensures var s', e := RunEnter(s, t), s.threads[t].entry;
      && s'.threads[t] == Returned(Admitted)
      && s'.tokens == s.tokens + [Token(s.entries[e].name, e, s.threads[t].context == Begin, false, false)]
      && s'.entries == s.entries[e := s'.entries[e]] && s'.entries[e].inFlight == s.entries[e].inFlight + 1
      && Outstanding(s'.tokens, e) == Outstanding(s.tokens, e) + 1
  {
    var e := s.threads[t].entry;
    OutstandingAppend(s.tokens, Token(s.entries[e].name, e, s.threads[t].context == Begin, false, false), e);
    assert PcOk(s, s.threads[t]) && EntryOk(s, s.threads[t].entry) && AdmissionOk(s, s.threads[t]);
    CountedAdmissionKeepsTokenInv(s, RunEnter(s, t), t, s.threads[t].entry, s.threads[t].context == Begin);
  }

  lemma CountedAdmissionKeepsTokenInv(s: Sys, s': Sys, t: nat, e: nat, callback: bool)
    requires TokenInv(s) && t < |s.threads| && e < |s.entries| && e < |s'.entries| && Registered(s, e)
    requires s'.threads == s.threads[t := Returned(Admitted)] && s'.registry == s.registry
    requires s'.entries == s.entries[e := s'.entries[e]] && s'.entries[e].name == s.entries[e].name
    requires s'.entries[e].inFlight == s.entries[e].inFlight + 1
    requires s'.tokens == s.tokens + [Token(s.entries[e].name, e, callback, false, false)]
    ensures TokenInv(s')
  {
    forall f | 0 <= f < |s'.entries| ensures s'.entries[f].inFlight == Outstanding(s'.tokens, f) {
      OutstandingAppend(s.tokens, s'.tokens[|s.tokens|], f);
    }
    forall k | 0 <= k < |s'.tokens| ensures TokenOk(s', s'.tokens[k]) {
      if k < |s.tokens| { assert TokenOk(s, s.tokens[k]); }
    }
    forall u | 0 <= u < |s'.threads| ensures CarrierOk(s', s'.threads[u]) && AdmissionOk(s', s'.threads[u]) {
      assert CarrierOk(s, s.threads[u]) && AdmissionOk(s, s.threads[u]);
    }
  }

  /** A callback's EndInvocation settles its own token and finds the counter positive. */
  lemma EndKeepsTokenInv(s: Sys, t: nat)
    requires Inv(s) && TokenInv(s) && Enabled(s, Run(t)) && s.threads[t].Enter? && s.threads[t].op == EndInvocation
    ensures TokenInv(RunEnter(s, t))
    ensures s.entries[s.threads[t].entry].inFlight > 0
  {
    var Enter(_, e, context) := s.threads[t];
    var s' := RunEnter(s, t);
    assert CarrierOk(s, s.threads[t]) && EntryOk(s, e);
    OutstandingPositive(s.tokens, context.token);
    forall f | 0 <= f < |s'.entries| ensures s'.entries[f].inFlight == Outstanding(s'.tokens, f) {
      OutstandingUpdate(s.tokens, context.token, s'.tokens[context.token], f);
    }
    forall k | 0 <= k < |s'.tokens| ensures TokenOk(s', s'.tokens[k]) {
      assert TokenOk(s, s.tokens[k]);
    }
    assert Carries(s.threads[t], context.token);
    forall u | 0 <= u < |s'.threads| ensures CarrierOk(s', s'.threads[u]) && AdmissionOk(s', s'.threads[u]) {
      assert CarrierOk(s, s.threads[u]) && AdmissionOk(s, s.threads[u]);
      assert u != t ==> !Carries(s.threads[u], context.token);
    }
  }

  lemma OtherEnterKeepsTokenInv(s: Sys, t: nat)
    requires Inv(s) && TokenInv(s) && Enabled(s, Run(t)) && s.threads[t].Enter? && s.threads[t].op != EndInvocation
    requires |RunEnter(s, t).tokens| == |s.tokens|
    ensures TokenInv(RunEnter(s, t))
  {
    assert PcOk(s, s.threads[t]) && AdmissionOk(s, s.threads[t]);
    MoveKeepsTokenInv(s, RunEnter(s, t), t);
  }

  lemma LookupKeepsTokenInv(s: Sys, t: nat)
    requires Inv(s) && TokenInv(s) && Enabled(s, Run(t)) && s.threads[t].Lookup?
    ensures TokenInv(RunThread(s, t))
  {
    assert PcOk(s, s.threads[t]) && CarrierOk(s, s.threads[t]);
    var Lookup(op, name, context) := s.threads[t];
    if op == EndInvocation {
      assert TokenOk(s, s.tokens[context.token]);
    }
    MoveKeepsTokenInv(s, RunThread(s, t), t);
  }

  /** The first call of a callback claims its token; every later call does nothing. */
  lemma ClaimKeepsTokenInv(s: Sys, t: nat)
    requires Inv(s) && TokenInv(s) && Enabled(s, Run(t)) && s.threads[t].Claim?
    ensures TokenInv(RunThread(s, t))
    ensures var s', k := RunThread(s, t), s.threads[t].token;
      && s'.entries == s.entries && s'.tokens[k].claimed
      && if s.tokens[k].claimed then s' == MoveTo(s, t, Returned(Ended)) else Carries(s'.threads[t], k)
  {
    var k := s.threads[t].token;
    var s' := RunThread(s, t);
    if s.tokens[k].claimed {
      MoveKeepsTokenInv(s, s', t);
    } else {
      assert TokenOk(s, s.tokens[k]);
      forall f | 0 <= f < |s'.entries| ensures s'.entries[f].inFlight == Outstanding(s'.tokens, f) {
        OutstandingUpdate(s.tokens, k, s'.tokens[k], f);
      }
      forall j | 0 <= j < |s'.tokens| ensures TokenOk(s', s'.tokens[j]) {
        assert TokenOk(s, s.tokens[j]);
      }
      forall u | 0 <= u < |s'.threads| ensures CarrierOk(s', s'.threads[u]) && AdmissionOk(s', s'.threads[u]) {
        assert CarrierOk(s, s.threads[u]) && AdmissionOk(s, s.threads[u]);
      }
    }
  }

  lemma InstallKeepsTokenInv(s: Sys, t: nat)
    requires Inv(s) && TokenInv(s) && Enabled(s, Run(t)) && s.threads[t].Installing? && Disciplined(s, Run(t))
    ensures TokenInv(RunInstall(s, t))
  {
    var s' := RunInstall(s, t);
    var name := s.threads[t].incoming.name;
    assert PcOk(s, s.threads[t]);
    OutstandingNone(s.tokens, |s.entries|);
    forall k | 0 <= k < |s'.tokens| ensures TokenOk(s', s'.tokens[k]) {
      assert TokenOk(s, s.tokens[k]);
      if !s.tokens[k].settled { OutstandingPositive(s.tokens, k); }
    }
    forall u | 0 <= u < |s'.threads| ensures CarrierOk(s', s'.threads[u]) && AdmissionOk(s', s'.threads[u]) {
      assert CarrierOk(s, s.threads[u]) && AdmissionOk(s, s.threads[u]) && PcOk(s, s.threads[u]);
    }
  }

  lemma RemoveKeepsTokenInv(s: Sys, t: nat)
    requires Inv(s) && TokenInv(s) && Enabled(s, Run(t)) && s.threads[t].Removing? && Disciplined(s, Run(t))
    ensures TokenInv(RunRemove(s, t))
  {
    var s' := RunRemove(s, t);
    forall k | 0 <= k < |s'.tokens| ensures TokenOk(s', s'.tokens[k]) {
      assert TokenOk(s, s.tokens[k]);
      if !s.tokens[k].settled { OutstandingPositive(s.tokens, k); }
    }
    forall u | 0 <= u < |s'.threads| ensures CarrierOk(s', s'.threads[u]) && AdmissionOk(s', s'.threads[u]) {
      assert CarrierOk(s, s.threads[u]) && AdmissionOk(s, s.threads[u]);
    }
  }

  lemma OwnerRunKeepsTokenInv(s: Sys, t: nat)
    requires Inv(s) && TokenInv(s) && Enabled(s, Run(t)) && RoleOf(s.threads[t]) != Bystander
    ensures TokenInv(RunThread(s, t))
  {
    assert PcOk(s, s.threads[t]) && EntryOk(s, s.threads[t].entry);
    MoveKeepsTokenInv(s, RunThread(s, t), t);
  }

  lemma WakeKeepsTokenInv(s: Sys, t: nat, reason: Reason)
    requires Inv(s) && TokenInv(s) && Enabled(s, Wake(t, reason))
    ensures TokenInv(WakeUp(s, t, reason))
  {
    assert PcOk(s, s.threads[t]) && AdmissionOk(s, s.threads[t]);
    MoveKeepsTokenInv(s, WakeUp(s, t, reason), t);
  }

  lemma CallKeepsTokenInv(s: Sys, request: Request)
    requires TokenInv(s) && CanCall(s, request) && !request.End?
    ensures TokenInv(Do(s, Call(request)))
  {
    var s' := Do(s, Call(request));
    forall k | 0 <= k < |s'.tokens| ensures TokenOk(s', s'.tokens[k]) {
      assert TokenOk(s, s.tokens[k]);
    }
    forall u | 0 <= u < |s'.threads| ensures CarrierOk(s', s'.threads[u]) && AdmissionOk(s', s'.threads[u]) {
      if u < |s.threads| { assert CarrierOk(s, s.threads[u]) && AdmissionOk(s, s.threads[u]); }
    }
  }

  lemma SignalKeepsTokenInv(s: Sys, s': Sys)
    requires TokenInv(s) && s'.(clock := s.clock, stopped := s.stopped) == s
    ensures TokenInv(s')
  {
    forall k | 0 <= k < |s'.tokens| ensures TokenOk(s', s'.tokens[k]) {
      assert TokenOk(s, s.tokens[k]);
    }
    forall u | 0 <= u < |s'.threads| ensures CarrierOk(s', s'.threads[u]) && AdmissionOk(s', s'.threads[u]) {
      assert CarrierOk(s, s.threads[u]) && AdmissionOk(s, s.threads[u]);
    }
  }

  lemma StepKeepsTokenInv(s: Sys, step: Step)
    requires Inv(s) && TokenInv(s) && Enabled(s, step) && Disciplined(s, step)
    ensures TokenInv(Do(s, step))
  {
    match step
    case Tick(_) => SignalKeepsTokenInv(s, Do(s, step));
    case Stop => SignalKeepsTokenInv(s, Do(s, step));
    case Call(request) => CallKeepsTokenInv(s, request);
    case HostReturn(t, ok) => MoveKeepsTokenInv(s, HostAnswers(s, t, ok), t);
    case Wake(t, reason) => WakeKeepsTokenInv(s, t, reason);
    case Run(t) =>
      if s.threads[t].Enter? {
        if s.threads[t].op == EndInvocation {
          EndKeepsTokenInv(s, t);
        } else if |RunEnter(s, t).tokens| > |s.tokens| {
          AdmitKeepsTokenInv(s, t);
        } else {
          OtherEnterKeepsTokenInv(s, t);
        }
      } else if s.threads[t].Lookup? {
        LookupKeepsTokenInv(s, t);
      } else if s.threads[t].Claim? {
        ClaimKeepsTokenInv(s, t);
      } else if s.threads[t].Installing? {
        InstallKeepsTokenInv(s, t);
      } else if s.threads[t].Removing? {
        RemoveKeepsTokenInv(s, t);
      } else {
        OwnerRunKeepsTokenInv(s, t);
      }
  }

  ghost predicate DisciplinedRun(states: seq<Sys>, steps: seq<Step>, i: nat)
    requires IsRun(states, steps) && i <= |steps|
  {
    forall k {:trigger steps[k]} :: 0 <= k < i ==> Disciplined(states[k], steps[k])
  }

  /** Conservation: in a disciplined run the counter of every entry is the number of
      admissions on it whose callback has not taken effect, however often and from
      wherever callbacks are called. */
  lemma {:induction false} InFlightCountsTokens(states: seq<Sys>, steps: seq<Step>, i: nat)
    requires IsRun(states, steps) && i <= |steps| && DisciplinedRun(states, steps, i)
    ensures TokenInv(states[i])
    ensures forall e :: 0 <= e < |states[i].entries| ==>
              states[i].entries[e].inFlight == Outstanding(states[i].tokens, e)
  {
    if i > 0 {
      InFlightCountsTokens(states, steps, i - 1);
      RunKeepsInv(states, steps, i - 1);
      StepKeepsTokenInv(states[i - 1], steps[i - 1]);
    }
  }

  /** Why the discipline is there: when a callback ends an invocation on an entry it
      found by name, the counts stay exact if and only if that is the admitting entry. */
  lemma CountSurvivesIffSameEntry(s: Sys, t: nat)
    requires Inv(s) && Enabled(s, Run(t)) && s.threads[t].Enter? && s.threads[t].op == EndInvocation
    requires s.threads[t].context.Callback? && !s.tokens[s.threads[t].context.token].settled
    requires forall e :: 0 <= e < |s.entries| ==> s.entries[e].inFlight == Outstanding(s.tokens, e)
    ensures var s' := RunEnter(s, t);
      (forall e :: 0 <= e < |s.entries| ==> s'.entries[e].inFlight == Outstanding(s'.tokens, e))
      <==> s.threads[t].entry == s.tokens[s.threads[t].context.token].entry
  {
    var s' := RunEnter(s, t);
    var k := s.threads[t].context.token;
    var home := s.tokens[k].entry;
    OutstandingPositive(s.tokens, k);
    forall e ensures Outstanding(s'.tokens, e) == Outstanding(s.tokens, e) - (if e == home then 1 else 0) {
      OutstandingUpdate(s.tokens, k, s'.tokens[k], e);
    }
    assert s'.entries[home].inFlight == Outstanding(s'.tokens, home) <==> s.threads[t].entry == home;
  }
}
