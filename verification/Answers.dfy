/** What a caller is told, in terms of what is really going on: whether the runtime of the
    function is up, whether a transition is under way, and what is in flight. */
module Answers {
  import opened Lifecycle
  import opened Protocol
  import opened Invariant
  import opened Safety
  import opened HostRuntime

  /** The runtime of entry e is up, as the successful host operations left it. */
  predicate IsUp(s: Sys, e: nat) {
    e < |s.born| && Running(s.log, e, s.born[e])
  }

  /** No thread is carrying out a transition of entry e. */
  predicate AtPeace(s: Sys, e: nat) {
    Holders(s, Owner(e)) == {}
  }

  /** The state of an entry says exactly what its runtime, its owner and its requests are. */
  lemma StateMeans(states: seq<Sys>, steps: seq<Step>, i: nat, e: nat)
    requires IsRun(states, steps) && i <= |steps| && e < |states[i].entries|
    ensures states[i].entries[e].inFlight >= 0
    ensures var s := states[i]; var st := s.entries[e].state;
      && (st == Active <==> IsUp(s, e) && AtPeace(s, e) && s.entries[e].inFlight == 0)
      && (st == Blocked <==> IsUp(s, e) && AtPeace(s, e) && s.entries[e].inFlight > 0)
      && (st == ScaledDown <==> !IsUp(s, e) && AtPeace(s, e))
      && (Transient(st) <==> !AtPeace(s, e))
  {
    var s := states[i];
    RunKeepsInv(states, steps, i);
    StatesMatchRuntime(states, steps, i, e);
    OneOwnerPerTransition(states, steps, i, e);
    assert EntryOk(s, e);
  }

  /** Step i is the section of a call of kind op on entry e, run by thread t. */
  predicate RunsSection(states: seq<Sys>, steps: seq<Step>, i: nat, t: nat, op: Op, e: nat)
    requires IsRun(states, steps) && i < |steps|
  {
    && steps[i] == Run(t)
    && states[i].threads[t].Enter? && states[i].threads[t].op == op && states[i].threads[t].entry == e
  }

  /** Only entry e and thread t are touched. */
  predicate OnlyTouches(s: Sys, s': Sys, t: nat, e: nat)
    requires t < |s.threads| && e < |s.entries|
  {
    && |s'.threads| == |s.threads| && |s'.entries| == |s.entries|
    && (forall u :: 0 <= u < |s.threads| && u != t ==> s'.threads[u] == s.threads[u])
    && (forall f :: 0 <= f < |s.entries| && f != e ==> s'.entries[f] == s.entries[f])
    && s'.registry == s.registry && s'.log == s.log && s'.born == s.born
    && s'.clock == s.clock && s'.stopped == s.stopped
  }

  lemma SectionTouches(states: seq<Sys>, steps: seq<Step>, i: nat, t: nat, op: Op, e: nat)
    requires IsRun(states, steps) && i < |steps| && RunsSection(states, steps, i, t, op, e)
    ensures e < |states[i].entries| && t < |states[i].threads| && t < |states[i + 1].threads|
    ensures OnlyTouches(states[i], states[i + 1], t, e)
    ensures states[i + 1] == RunEnter(states[i], t)
    ensures states[i].entries[e := states[i].entries[e]] == states[i].entries
  {
    RunKeepsInv(states, steps, i);
  }

  // ---- Invocations ----

  /** StartInvocation admits if and only if the runtime is up and nobody is moving it,
      refuses if and only if it is down and nobody is moving it, and waits otherwise. An
      admission counts one request and gives one token; otherwise nothing changes. */
  lemma StartAnswers(states: seq<Sys>, steps: seq<Step>, i: nat, t: nat, e: nat)
    requires IsRun(states, steps) && i < |steps| && RunsSection(states, steps, i, t, StartInvocation, e)
    ensures e < |states[i].entries| && t < |states[i + 1].threads| && e < |states[i + 1].entries|
    ensures var s, s' := states[i], states[i + 1]; var context := s.threads[t].context;
      && (s'.threads[t] == Returned(Admitted) <==> IsUp(s, e) && AtPeace(s, e))
      && (s'.threads[t] == Returned(Failed(IsScaledDown)) <==> !IsUp(s, e) && AtPeace(s, e))
      && (s'.threads[t] == Parked(StartInvocation, e, context, s.entries[e].generation) <==> !AtPeace(s, e))
      && (if s'.threads[t] == Returned(Admitted)
          then && s'.tokens == s.tokens + [Token(s.entries[e].name, e, context == Begin, false, false)]
               && s'.entries[e].inFlight == s.entries[e].inFlight + 1
               && s'.entries[e].lastAccess == s.clock && s'.entries[e].lastActive == s.entries[e].lastActive
          else s'.tokens == s.tokens && s'.entries == s.entries)
  {
    SectionTouches(states, steps, i, t, StartInvocation, e);
    StateMeans(states, steps, i, e);
    RunKeepsInv(states, steps, i);
    assert PcOk(states[i], states[i].threads[t]);
  }

  /** A thread only changes by a step of its own. */
  lemma OwnStepMoves(states: seq<Sys>, steps: seq<Step>, i: nat, t: nat)
    requires IsRun(states, steps) && i < |steps| && t < |states[i].threads|
    ensures t < |states[i + 1].threads|
    ensures states[i + 1].threads[t] != states[i].threads[t] ==>
              || steps[i] == Run(t)
              || (steps[i].HostReturn? && steps[i].thread == t)
              || (steps[i].Wake? && steps[i].thread == t)
  {
  }

  /** A call is told that it was admitted only with a new token. */
  lemma AdmittedMeansToken(states: seq<Sys>, steps: seq<Step>, i: nat, t: nat)
    requires IsRun(states, steps) && i < |steps| && t < |states[i].threads| && t < |states[i + 1].threads|
    requires states[i].threads[t] != Returned(Admitted) && states[i + 1].threads[t] == Returned(Admitted)
    ensures states[i].threads[t].Enter? && RunsSection(states, steps, i, t, StartInvocation, states[i].threads[t].entry)
    ensures |states[i + 1].tokens| == |states[i].tokens| + 1
    ensures states[i + 1].tokens[|states[i].tokens|].entry == states[i].threads[t].entry
  {
    RunKeepsInv(states, steps, i);
    assert PcOk(states[i], states[i].threads[t]);
    OwnStepMoves(states, steps, i, t);
  }

  /** EndInvocation takes one request off, never below none, and stamps the access; the end
      of the last request also stamps the activity. */
  lemma EndAnswers(states: seq<Sys>, steps: seq<Step>, i: nat, t: nat, e: nat)
    requires IsRun(states, steps) && i < |steps| && RunsSection(states, steps, i, t, EndInvocation, e)
    ensures e < |states[i].entries| && t < |states[i + 1].threads| && e < |states[i + 1].entries|
    ensures var s, s' := states[i], states[i + 1]; var was := s.entries[e].inFlight;
      && s'.threads[t] == Returned(Ended)
      && s'.entries[e].inFlight == (if was > 0 then was - 1 else 0)
      && s'.entries[e].lastAccess == s.clock
      && s'.entries[e].lastActive == (if was == 1 then s.clock else s.entries[e].lastActive)
  {
    SectionTouches(states, steps, i, t, EndInvocation, e);
    RunKeepsInv(states, steps, i);
    assert EntryOk(states[i], e);
  }

  // ---- Scale-ups ----

  /** ScaleUpWhenReady finds the function ready if and only if its runtime is up and nobody
      is moving it, starts it if and only if it is down and nobody is moving it, and waits
      otherwise. */
  lemma ScaleUpAnswers(states: seq<Sys>, steps: seq<Step>, i: nat, t: nat, e: nat)
    requires IsRun(states, steps) && i < |steps| && RunsSection(states, steps, i, t, ScaleUpWhenReady, e)
    ensures e < |states[i].entries| && t < |states[i + 1].threads| && e < |states[i + 1].entries|
    ensures var s, s' := states[i], states[i + 1];
      && (s'.threads[t] == Returned(Ready(false)) <==> IsUp(s, e) && AtPeace(s, e))
      && (s'.threads[t] == Host(Up, ScaleUpWhenReady, e) <==> !IsUp(s, e) && AtPeace(s, e))
      && (s'.threads[t] == Parked(ScaleUpWhenReady, e, s.threads[t].context, s.entries[e].generation)
          <==> !AtPeace(s, e))
      && (s'.threads[t].Returned? ==>
            && s'.entries[e].lastAccess == s.clock
            && s'.entries[e].lastActive == if s.entries[e].inFlight == 0 then s.clock else s.entries[e].lastActive)
      && (!s'.threads[t].Returned? ==> s'.entries[e].lastAccess == s.entries[e].lastAccess)
      && s'.entries[e].inFlight == s.entries[e].inFlight
  {
    SectionTouches(states, steps, i, t, ScaleUpWhenReady, e);
    StateMeans(states, steps, i, e);
    RunKeepsInv(states, steps, i);
    assert PcOk(states[i], states[i].threads[t]);
  }

  /** TryScaleUp starts the function if and only if it is down and nobody is moving it, and
      otherwise returns at once, with nothing changed. */
  lemma TryScaleUpAnswers(states: seq<Sys>, steps: seq<Step>, i: nat, t: nat, e: nat)
    requires IsRun(states, steps) && i < |steps| && RunsSection(states, steps, i, t, TryScaleUp, e)
    ensures e < |states[i].entries| && t < |states[i + 1].threads|
    ensures var s, s' := states[i], states[i + 1];
      && (s'.threads[t] == Host(Up, TryScaleUp, e) <==> !IsUp(s, e) && AtPeace(s, e))
      && (s'.threads[t] == Returned(Ready(false)) <==> IsUp(s, e) || !AtPeace(s, e))
      && (s'.threads[t].Returned? ==> s'.entries == s.entries)
  {
    SectionTouches(states, steps, i, t, TryScaleUp, e);
    StateMeans(states, steps, i, e);
    RunKeepsInv(states, steps, i);
    assert PcOk(states[i], states[i].threads[t]);
  }

  // ---- Scale-downs ----

  /** ScaleDownWhenIdle has nothing to do if and only if the runtime is down and nobody is
      moving it, stops it if and only if it is up, idle and nobody is moving it, and waits
      otherwise. */
  lemma ScaleDownAnswers(states: seq<Sys>, steps: seq<Step>, i: nat, t: nat, e: nat)
    requires IsRun(states, steps) && i < |steps| && RunsSection(states, steps, i, t, ScaleDownWhenIdle, e)
    ensures e < |states[i].entries| && t < |states[i + 1].threads|
    ensures var s, s' := states[i], states[i + 1];
      && (s'.threads[t] == Returned(Idled(false)) <==> !IsUp(s, e) && AtPeace(s, e))
      && (s'.threads[t] == Host(Down, ScaleDownWhenIdle, e)
          <==> IsUp(s, e) && AtPeace(s, e) && s.entries[e].inFlight == 0)
      && (s'.threads[t] == Parked(ScaleDownWhenIdle, e, s.threads[t].context, s.entries[e].generation)
          <==> !AtPeace(s, e) || s.entries[e].inFlight > 0)
      && (!s'.threads[t].Host? ==> s'.entries == s.entries)
  {
    SectionTouches(states, steps, i, t, ScaleDownWhenIdle, e);
    StateMeans(states, steps, i, e);
    RunKeepsInv(states, steps, i);
    assert PcOk(states[i], states[i].threads[t]) && EntryOk(states[i], e);
  }

  /** A scan decides to stop an entry if and only if scale-to-zero is on for it, its runtime
      is up, nobody is moving it, nothing is in flight, and its last activity is longer ago
      than its window; otherwise it leaves the entry as it is. */
  lemma ScanAnswers(states: seq<Sys>, steps: seq<Step>, i: nat, t: nat, e: nat)
    requires IsRun(states, steps) && i < |steps| && RunsSection(states, steps, i, t, IdleScan, e)
    ensures e < |states[i].entries| && t < |states[i + 1].threads|
    ensures var s, s' := states[i], states[i + 1]; var entry := s.entries[e];
      && (s'.threads[t] == StopCheck(e) <==>
            && entry.scaleToZero && IsUp(s, e) && AtPeace(s, e) && entry.inFlight == 0
            && s.clock > entry.lastActive + entry.idleDuration)
      && (s'.threads[t] != StopCheck(e) ==> s'.threads[t] == Returned(Idled(false)) && s'.entries == s.entries)
  {
    SectionTouches(states, steps, i, t, IdleScan, e);
    StateMeans(states, steps, i, e);
    RunKeepsInv(states, steps, i);
    assert PcOk(states[i], states[i].threads[t]);
  }

  /** After its decision a scan calls the host, unless the stop signal was given; then it
      gives the entry back as it was and reports that the autoscaler was stopped. */
  lemma ScanHeedsStop(states: seq<Sys>, steps: seq<Step>, i: nat, t: nat, e: nat)
    requires IsRun(states, steps) && i < |steps| && steps[i] == Run(t)
    requires states[i].threads[t] == StopCheck(e) || states[i].threads[t] == Revert(e)
    ensures e < |states[i + 1].entries| && t < |states[i + 1].threads|
    ensures var s, s' := states[i], states[i + 1];
      && (s.threads[t] == StopCheck(e) ==>
            s'.entries == s.entries && s'.threads[t] == if s.stopped then Revert(e) else Host(Down, IdleScan, e))
      && (s.threads[t] == Revert(e) ==>
            && s'.threads[t] == Returned(Failed(Stopped))
            && IsUp(s', e) && AtPeace(s', e) && s'.entries[e].inFlight == 0
            && s'.entries[e].lastActive == s.entries[e].lastActive
            && s'.entries[e].lastAccess == s.entries[e].lastAccess)
  {
    RunKeepsInv(states, steps, i);
    assert PcOk(states[i], states[i].threads[t]);
    if states[i].threads[t] == Revert(e) {
      StateMeans(states, steps, i + 1, e);
    }
  }

  // ---- Host operations ----

  /** The end of a host operation: a success is reported as performed, a failure as the
      host's, and either way nobody is moving the entry any more. A call that is told the
      function is ready has left it running, one that is told it is down has not. */
  lemma CommitAnswers(states: seq<Sys>, steps: seq<Step>, i: nat, t: nat)
    requires IsRun(states, steps) && i < |steps| && steps[i] == Run(t) && states[i].threads[t].Commit?
    ensures t < |states[i + 1].threads| && states[i].threads[t].entry < |states[i + 1].entries|
    ensures var s, s' := states[i], states[i + 1]; var Commit(direction, _, e, ok) := s.threads[t];
      && s'.threads[t] == Returned(if !ok then Failed(HostFailed)
                                   else if direction == Up then Ready(true) else Idled(true))
      && AtPeace(s', e) && s'.entries[e].inFlight == 0
      && (IsUp(s', e) <==> ok == (direction == Up))
      && s'.entries[e].lastAccess == (if ok then s.clock else s.entries[e].lastAccess)
      && s'.entries[e].lastActive == (if ok == (direction == Up) then s.clock else s.entries[e].lastActive)
  {
    RunKeepsInv(states, steps, i);
    var e := states[i].threads[t].entry;
    assert PcOk(states[i], states[i].threads[t]) && EntryOk(states[i], e);
    RunKeepsHostInv(states, steps, i);
    assert OwnerMatches(states[i], states[i].threads[t]);
    StateMeans(states, steps, i + 1, e);
  }

  /** A ScaleUpWhenReady that returns ready leaves the function running at that moment. */
  lemma ReadyMeansRunning(states: seq<Sys>, steps: seq<Step>, i: nat, t: nat, e: nat)
    requires IsRun(states, steps) && i < |steps| && t < |states[i].threads| && t < |states[i + 1].threads|
    requires var pc := states[i].threads[t];
      (pc.Enter? || pc.Commit?) && pc.op == ScaleUpWhenReady && pc.entry == e
    requires states[i + 1].threads[t].Returned? && states[i + 1].threads[t].reply.Ready?
    ensures IsUp(states[i + 1], e)
  {
    OwnStepMoves(states, steps, i, t);
    if states[i].threads[t].Enter? {
      ScaleUpAnswers(states, steps, i, t, e);
      SectionTouches(states, steps, i, t, ScaleUpWhenReady, e);
    } else {
      CommitAnswers(states, steps, i, t);
      RunKeepsInv(states, steps, i);
      assert PcOk(states[i], states[i].threads[t]);
    }
  }

  /** The answer of the host decides the reply, and is what the log records. */
  lemma HostDecides(states: seq<Sys>, steps: seq<Step>, i: nat, t: nat, ok: bool)
    requires IsRun(states, steps) && i < |steps| && steps[i] == HostReturn(t, ok)
    ensures states[i].threads[t].Host? && t < |states[i + 1].threads|
    ensures var s, s' := states[i], states[i + 1]; var Host(direction, op, e) := s.threads[t];
      && s'.threads[t] == Commit(direction, op, e, ok)
      && s'.entries == s.entries
      && s'.log == if ok then s.log + [HostEvent(t, e, direction)] else s.log
  {
  }

  // ---- Bookkeeping ----

  /** RecordActivity stamps the access at once, and the activity only while the function is
      up, idle and nobody is moving it; a batch does the same with its own stamp. */
  lemma RecordAnswers(states: seq<Sys>, steps: seq<Step>, i: nat, t: nat, e: nat, op: Op)
    requires IsRun(states, steps) && i < |steps| && RunsSection(states, steps, i, t, op, e)
    requires op == RecordActivity || op.BatchActivity?
    ensures e < |states[i].entries| && e < |states[i + 1].entries|
    ensures var s, s' := states[i], states[i + 1];
      var stamp := if op == RecordActivity then s.clock else op.stamp;
      var idle := IsUp(s, e) && AtPeace(s, e) && s.entries[e].inFlight == 0;
      s'.entries[e] == s.entries[e].(lastAccess := stamp, lastActive := if idle then stamp else s.entries[e].lastActive)
  {
    SectionTouches(states, steps, i, t, op, e);
    StateMeans(states, steps, i, e);
  }
}
