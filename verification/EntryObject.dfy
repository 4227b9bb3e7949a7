/** functionEntry as an object: fields updated in place under the mutex, a `changed`
    channel that is closed and replaced, and a one-shot `unregistered` channel. Each
    method is one critical section and is proved equal to its function in Lifecycle. */
module EntryObject {
  import opened Lifecycle

  /** A `chan struct{}` that is only ever closed. */
  class Channel {
    var closed: bool

    constructor ()
      ensures !closed
    {
      closed := false;
    }

    /** Closing a closed channel panics, hence the precondition. */
    method Close()
      requires !closed
      modifies this
      ensures closed
    {
      closed := true;
    }
  }

  class FunctionEntry {
    const name: string
    const idleDuration: int
    const scaleToZero: bool
    const unregistered: Channel
    var state: State
    var inFlight: int
    var lastAccess: int
    var lastActive: int
    var changed: Channel
    /** Every channel that `changed` ever was, oldest first. */
    ghost var rotated: seq<Channel>

    ghost predicate Valid()
      reads this, rotated, unregistered
    {
      && |rotated| > 0
      && changed == rotated[|rotated| - 1]
      && (forall i, j :: 0 <= i < j < |rotated| ==> rotated[i] != rotated[j])
      && unregistered !in rotated
      && (forall i :: 0 <= i < |rotated| - 1 ==> rotated[i].closed)
      && !changed.closed
    }

    ghost function View(): Entry
      requires Valid()
      reads this, rotated, unregistered
    {
      Entry(name, state, inFlight, lastAccess, lastActive, idleDuration, scaleToZero,
            |rotated| - 1, if unregistered.closed then 1 else 0)
    }

    constructor (name: string, initial: State, idleDuration: int, scaleToZero: bool, now: int)
      ensures Valid() && fresh(rotated) && fresh(unregistered)
      ensures View() == NewEntry(name, initial, idleDuration, scaleToZero, now)
      ensures if initial == ScaledDown then state == ScaledDown else state == Active
    {
      this.name, this.idleDuration, this.scaleToZero := name, idleDuration, scaleToZero;
      state := if initial != Active && initial != ScaledDown then Active else initial;
      inFlight, lastAccess, lastActive := 0, now, now;
      var first := new Channel();
      var once := new Channel();
      changed, rotated, unregistered := first, [first], once;
    }

    /** notifyLocked: a captured channel is closed exactly if the entry has been
        notified since it was captured. */
    method NotifyLocked()
      requires Valid()
      modifies this`changed, this`rotated, changed
      ensures Valid() && fresh(changed)
      ensures View() == Notify(old(View()))
      ensures rotated == old(rotated) + [changed]
      ensures forall g :: 0 <= g < |rotated| ==> (rotated[g].closed <==> g < View().generation)
    {
      changed.Close();
      changed := new Channel();
      rotated := rotated + [changed];
    }

    /** The first half of waitForChange: what the waiter selects on after unlocking. */
    method Capture() returns (ch: Channel, once: Channel)
      requires Valid()
      ensures ch == rotated[View().generation] && !ch.closed
      ensures once == unregistered
    {
      ch, once := changed, unregistered;
    }

    method StartInvocation(now: int) returns (verdict: Verdict)
      requires Valid()
      modifies this, changed
      ensures Valid() && old(rotated) <= rotated && fresh(rotated[old(|rotated|)..])
      ensures (View(), verdict) == Section(Op.StartInvocation, old(View()), now)
      ensures verdict == Finish(Admitted) <==> old(state) == Active || old(state) == Blocked
      ensures verdict == Finish(Failed(IsScaledDown)) <==> old(state) == ScaledDown
    {
      if Transient(state) {
        verdict := Park;
      } else if state == ScaledDown {
        verdict := Finish(Failed(IsScaledDown));
      } else if state == Active || state == Blocked {
        inFlight := inFlight + 1;
        lastAccess := now;
        if state == Active {
          state := Blocked;
        }
        NotifyLocked();
        verdict := Finish(Admitted);
      } else {
        verdict := Finish(Failed(InvalidState));
      }
    }

    method EndInvocation(now: int) returns (verdict: Verdict)
      requires Valid()
      modifies this, changed
      ensures Valid() && old(rotated) <= rotated && fresh(rotated[old(|rotated|)..])
      ensures (View(), verdict) == Section(Op.EndInvocation, old(View()), now)
    {
      if inFlight > 0 {
        inFlight := inFlight - 1;
      }
      lastAccess := now;
      if inFlight == 0 && state == Blocked {
        state := Active;
        lastActive := now;
      }
      NotifyLocked();
      verdict := Finish(Ended);
    }

    method ScaleUpWhenReady(now: int) returns (verdict: Verdict)
      requires Valid()
      modifies this, changed
      ensures Valid() && old(rotated) <= rotated && fresh(rotated[old(|rotated|)..])
      ensures (View(), verdict) == Section(Op.ScaleUpWhenReady, old(View()), now)
      ensures verdict == Finish(Ready(false)) <==> old(state) == Active || old(state) == Blocked
      ensures verdict == ToHost(Up) <==> old(state) == ScaledDown
    {
      if state == Active || state == Blocked {
        lastAccess := now;
        if state == Active {
          lastActive := now;
        }
        verdict := Finish(Ready(false));
      } else if Transient(state) {
        verdict := Park;
      } else if state == ScaledDown {
        BeginScaleUp();
        verdict := ToHost(Up);
      } else {
        verdict := Finish(Failed(InvalidState));
      }
    }

    method TryScaleUp() returns (verdict: Verdict)
      requires Valid()
      modifies this, changed
      ensures Valid() && old(rotated) <= rotated && fresh(rotated[old(|rotated|)..])
      ensures forall now :: (View(), verdict) == Section(Op.TryScaleUp, old(View()), now)
      ensures verdict == if old(state) == ScaledDown then ToHost(Up) else Finish(Ready(false))
    {
      if state != ScaledDown {
        return Finish(Ready(false));
      }
      BeginScaleUp();
      verdict := ToHost(Up);
    }

    /** The opening of performScaleUp, which must find the entry scaled down. */
    method BeginScaleUp()
      requires Valid() && state == ScaledDown
      modifies this, changed
      ensures Valid() && fresh(changed) && rotated == old(rotated) + [changed]
      ensures View() == Notify(old(View()).(state := ScalingUp))
    {
      state := ScalingUp;
      NotifyLocked();
    }

    /** The closing of performScaleUp, after the host answered. */
    method CommitScaleUp(ok: bool, now: int) returns (reply: Reply)
      requires Valid()
      modifies this, changed
      ensures Valid() && old(rotated) <= rotated && fresh(rotated[old(|rotated|)..])
      ensures (View(), reply) == CommitSection(Up, old(View()), ok, now)
    {
      if !ok {
        state := ScaledDown;
        NotifyLocked();
        return Failed(HostFailed);
      }
      state, lastAccess, lastActive := Active, now, now;
      NotifyLocked();
      reply := Ready(true);
    }

    method ScaleDownWhenIdle() returns (verdict: Verdict)
      requires Valid()
      modifies this, changed
      ensures Valid() && old(rotated) <= rotated && fresh(rotated[old(|rotated|)..])
      ensures forall now :: (View(), verdict) == Section(Op.ScaleDownWhenIdle, old(View()), now)
      ensures verdict == ToHost(Down) <==> old(state) == Active
      ensures verdict == Finish(Idled(false)) <==> old(state) == ScaledDown
    {
      match state {
        case ScaledDown => verdict := Finish(Idled(false));
        case Blocked | ScalingUp | ScalingDown => verdict := Park;
        case Active =>
          state := ScalingDown;
          NotifyLocked();
          verdict := ToHost(Down);
        case Unknown(_) => verdict := Finish(Failed(InvalidState));
      }
    }

    method CommitScaleDown(ok: bool, now: int) returns (reply: Reply)
      requires Valid()
      modifies this, changed
      ensures Valid() && old(rotated) <= rotated && fresh(rotated[old(|rotated|)..])
      ensures (View(), reply) == CommitSection(Down, old(View()), ok, now)
    {
      if !ok {
        state, lastActive := Active, now;
        NotifyLocked();
        return Failed(HostFailed);
      }
      state, inFlight, lastAccess := ScaledDown, 0, now;
      NotifyLocked();
      reply := Idled(true);
    }

    /** RecordActivity with the clock, RecordActivityBatch with its earlier stamp. */
    method RecordAt(stamp: int)
      requires Valid()
      modifies this`lastAccess, this`lastActive
      ensures Valid() && rotated == old(rotated)
      ensures View() == Section(BatchActivity(stamp), old(View()), stamp).0
      ensures View() == Section(RecordActivity, old(View()), stamp).0
    {
      lastAccess := stamp;
      if state == Active {
        lastActive := stamp;
      }
    }

    /** The first section of scaleDownIfStillIdle. */
    method ScanIfIdle(now: int) returns (verdict: Verdict)
      requires Valid()
      modifies this, changed
      ensures Valid() && old(rotated) <= rotated && fresh(rotated[old(|rotated|)..])
      ensures (View(), verdict) == Section(IdleScan, old(View()), now)
    {
      if !scaleToZero {
        return Finish(Idled(false));
      }
      match state {
        case Active =>
        case ScaledDown | Blocked | ScalingUp | ScalingDown => return Finish(Idled(false));
        case Unknown(_) => return Finish(Failed(InvalidState));
      }
      if now - lastActive <= idleDuration {
        return Finish(Idled(false));
      }
      state := ScalingDown;
      NotifyLocked();
      verdict := ToHost(Down);
    }

    method RevertScan() returns (reply: Reply)
      requires Valid()
      modifies this, changed
      ensures Valid() && old(rotated) <= rotated && fresh(rotated[old(|rotated|)..])
      ensures (View(), reply) == RevertSection(old(View()))
    {
      state := Active;
      NotifyLocked();
      reply := Failed(Stopped);
    }

    /** closeUnregistered is a check and then a close, with no lock around the two. */
    method IsUnregistered() returns (already: bool)
      requires Valid()
      ensures already <==> View().closes > 0
    {
      already := unregistered.closed;
    }

    method CloseUnregistered()
      requires Valid() && View().closes == 0
      modifies unregistered
      ensures Valid() && View() == old(View()).(closes := 1)
    {
      unregistered.Close();
    }
  }
}
