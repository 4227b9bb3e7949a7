/** What the invariant means for the autoscaler's users: one owner per transition, no
    scale-down under a live request, no second close, no forgotten waiter. */
module Safety {
  import opened Lifecycle
  import opened Protocol
  import opened Invariant

  /** The threads that carry a role. */
  function Holders(s: Sys, role: Role): set<nat> {
    set t: nat | t < |s.threads| && RoleOf(s.threads[t]) == role
  }

  lemma HoldersCount(s: Sys, role: Role)
    requires Exclusive(s.threads) && role != Bystander
    ensures |Holders(s, role)| == if Taken(s.threads, role) then 1 else 0
  {
    if Taken(s.threads, role) {
      var t :| 0 <= t < |s.threads| && RoleOf(s.threads[t]) == role;
      assert t in Holders(s, role);
      assert Holders(s, role) == {t};
    } else {
      assert Holders(s, role) == {};
    }
  }

  /** In every interleaving a request is in flight exactly when the entry is blocked,
      and a transition in progress has exactly one owner, of its own direction. */
  lemma OneOwnerPerTransition(states: seq<Sys>, steps: seq<Step>, i: nat, e: nat)
    requires IsRun(states, steps) && i <= |steps| && e < |states[i].entries|
    ensures var s := states[i];
      && s.entries[e].inFlight >= 0
      && (s.entries[e].state == Blocked <==> s.entries[e].inFlight > 0)
      && |Holders(s, Owner(e))| == (if Transient(s.entries[e].state) then 1 else 0)
      && forall t :: 0 <= t < |s.threads| && (s.threads[t].Host? || s.threads[t].Commit?) && s.threads[t].entry == e
           ==> s.entries[e].state == TransientOf(s.threads[t].direction)
  {
    var s := states[i];
    RunKeepsInv(states, steps, i);
    assert EntryOk(s, e);
    HoldersCount(s, Owner(e));
    forall t | 0 <= t < |s.threads| && RoleOf(s.threads[t]) == Owner(e) ensures Transient(s.entries[e].state) {
      assert PcOk(s, s.threads[t]);
    }
  }

  /** From the decision to scale down until its commit no admitted request is counted
      on the entry, so setting the counter to zero at the commit changes nothing. */
  lemma NoStopUnderLiveRequest(states: seq<Sys>, steps: seq<Step>, i: nat, t: nat)
    requires IsRun(states, steps) && i <= |steps| && t < |states[i].threads|
    requires var pc := states[i].threads[t];
      pc.StopCheck? || pc.Revert? || ((pc.Host? || pc.Commit?) && pc.direction == Down)
    ensures var s := states[i]; var e := s.threads[t].entry;
      && e < |s.entries|
      && s.entries[e].inFlight == 0
      && (forall ok, now :: CommitSection(Down, s.entries[e], ok, now).0.inFlight == s.entries[e].inFlight)
      && (forall now :: StartSection(s.entries[e], now) == (s.entries[e], Park))
  {
    RunKeepsInv(states, steps, i);
    assert PcOk(states[i], states[i].threads[t]);
    assert EntryOk(states[i], states[i].threads[t].entry);
  }

  /** Speculative scale-ups, scans and bookkeeping never block, and no call ever
      reports an invalid lifecycle state. */
  lemma NonBlockingCalls(states: seq<Sys>, steps: seq<Step>, i: nat, t: nat)
    requires IsRun(states, steps) && i <= |steps| && t < |states[i].threads|
    ensures states[i].threads[t].Parked? ==> MayWait(states[i].threads[t].op)
    ensures states[i].threads[t] != Returned(Failed(InvalidState))
  {
    RunKeepsInv(states, steps, i);
    assert PcOk(states[i], states[i].threads[t]);
  }

  /** check-then-close on `unregistered` runs without a lock, yet the channel is closed
      at most once, a thread about to close finds it open, and an entry that left the
      registry is closed or has exactly one thread bound to close it. */
  lemma OneShotClose(states: seq<Sys>, steps: seq<Step>, i: nat, e: nat)
    requires IsRun(states, steps) && i <= |steps| && e < |states[i].entries|
    ensures var s := states[i];
      && s.entries[e].closes <= 1
      && (Holders(s, Closer(e)) != {} ==> s.entries[e].closes == 0 && !Registered(s, e))
      && (Registered(s, e) ==> s.entries[e].closes == 0)
      && (!Registered(s, e) ==> s.entries[e].closes + |Holders(s, Closer(e))| == 1)
  {
    var s := states[i];
    RunKeepsInv(states, steps, i);
    assert EntryOk(s, e);
    HoldersCount(s, Closer(e));
    forall t | t in Holders(s, Closer(e)) ensures s.entries[e].closes == 0 && !Registered(s, e) {
      assert PcOk(s, s.threads[t]);
    }
  }

  // ---- Waiters ----

  /** Thread t can take its next step now. */
  predicate Movable(s: Sys, t: nat) {
    || Enabled(s, Run(t))
    || Enabled(s, HostReturn(t, true))
    || Enabled(s, Wake(t, Notified)) || Enabled(s, Wake(t, Gone)) || Enabled(s, Wake(t, Halted))
  }

  /** A parked thread whose captured channel is still open has not missed a change: the
      entry is in a state its loop has to wait on, and either exactly one other thread
      owns the transition and can move, or a request is in flight. */
  lemma NoLostWakeup(states: seq<Sys>, steps: seq<Step>, i: nat, t: nat)
    requires IsRun(states, steps) && i <= |steps| && t < |states[i].threads|
    requires states[i].threads[t].Parked?
    requires states[i].threads[t].entry < |states[i].entries|
    requires states[i].threads[t].captured == states[i].entries[states[i].threads[t].entry].generation
    ensures var s := states[i]; var Parked(op, e, _, _) := s.threads[t];
      && MustWait(op, s.entries[e].state)
      && if s.entries[e].state == Blocked
         then op == ScaleDownWhenIdle && s.entries[e].inFlight > 0
         else |Holders(s, Owner(e))| == 1 && forall u :: u in Holders(s, Owner(e)) ==> u != t && Movable(s, u)
  {
    var s := states[i];
    var e := s.threads[t].entry;
    RunKeepsInv(states, steps, i);
    assert PcOk(s, s.threads[t]) && EntryOk(s, e);
    HoldersCount(s, Owner(e));
    forall u | u in Holders(s, Owner(e)) ensures u != t && Movable(s, u) {
      assert PcOk(s, s.threads[u]);
    }
  }

  /** Whenever a step changes an entry's state, every thread parked on it can wake. */
  lemma StateChangeWakesEveryone(states: seq<Sys>, steps: seq<Step>, i: nat, t: nat)
    requires IsRun(states, steps) && i < |steps| && t < |states[i].threads| && states[i].threads[t].Parked?
    requires states[i + 1].threads[t] == states[i].threads[t]
    requires var e := states[i].threads[t].entry;
      e < |states[i].entries| && states[i + 1].entries[e].state != states[i].entries[e].state
    ensures Enabled(states[i + 1], Wake(t, Notified))
  {
    var s, step := states[i], steps[i];
    var e := s.threads[t].entry;
    RunKeepsInv(states, steps, i);
    RunKeepsInv(states, steps, i + 1);
    assert PcOk(s, s.threads[t]) && EntryOk(s, e);
    if step.Run? && s.threads[step.thread].Enter? {
      SectionKeepsWellFormed(s.threads[step.thread].op, s.entries[s.threads[step.thread].entry], s.clock);
    }
  }

  /** When no thread can move, every call has returned, except scale-downs of entries
      that are still registered and still have a request in flight. */
  lemma OnlyScaleDownsUnderLoadAreStuck(states: seq<Sys>, steps: seq<Step>, i: nat, t: nat)
    requires IsRun(states, steps) && i <= |steps| && t < |states[i].threads|
    requires forall u :: 0 <= u < |states[i].threads| ==> !Movable(states[i], u)
    ensures var s := states[i]; var pc := s.threads[t];
      || pc.Returned?
      || (&& pc.Parked? && pc.op == ScaleDownWhenIdle && !s.stopped
          && pc.entry < |s.entries| && Registered(s, pc.entry)
          && s.entries[pc.entry].state == Blocked && s.entries[pc.entry].inFlight > 0)
  {
    var s := states[i];
    RunKeepsInv(states, steps, i);
    var pc := s.threads[t];
    assert PcOk(s, pc) && !Movable(s, t);
    if pc.Parked? {
      var e := pc.entry;
      assert EntryOk(s, e);
      forall role | Taken(s.threads, role) && role != Bystander ensures false {
        var u :| 0 <= u < |s.threads| && RoleOf(s.threads[u]) == role;
        assert PcOk(s, s.threads[u]);
        assert Movable(s, u);
      }
      assert !Taken(s.threads, Owner(e)) && !Taken(s.threads, Closer(e));
    }
  }

  /** After the stop signal a waiting call can return, and then reports that the autoscaler
      was stopped. */
  lemma StoppedWaiterReturns(states: seq<Sys>, steps: seq<Step>, i: nat, t: nat)
    requires IsRun(states, steps) && i <= |steps| && t < |states[i].threads|
    requires states[i].stopped && states[i].threads[t].Parked?
    ensures Enabled(states[i], Wake(t, Halted))
    ensures Do(states[i], Wake(t, Halted)) == states[i].(threads := states[i].threads[t := Returned(Failed(Stopped))])
  {
    RunKeepsInv(states, steps, i);
    assert PcOk(states[i], states[i].threads[t]);
  }

  /** Once Stop was called, nothing is left waiting when no thread can move. */
  lemma StopReleasesEveryWaiter(states: seq<Sys>, steps: seq<Step>, i: nat, t: nat)
    requires IsRun(states, steps) && i <= |steps| && t < |states[i].threads| && states[i].stopped
    requires forall u :: 0 <= u < |states[i].threads| ==> !Movable(states[i], u)
    ensures states[i].threads[t].Returned?
  {
    OnlyScaleDownsUnderLoadAreStuck(states, steps, i, t);
  }
}
