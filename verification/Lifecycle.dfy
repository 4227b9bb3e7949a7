/** The per-function lifecycle entry of the autoscaler, and what each critical
    section on its mutex does to it, as functions on values. The sections are the
    atomic steps of the protocol in module Protocol; the class in module
    EntryObject carries them out in place. */
module Lifecycle {

  /** LifecycleState is a string in the source; Unknown stands for every other text. */
  datatype State = Active | Blocked | ScaledDown | ScalingUp | ScalingDown | Unknown(text: string)

  predicate Transient(st: State) {
    st == ScalingUp || st == ScalingDown
  }

  datatype Error = NotFound | Unregistered | IsScaledDown | Stopped | InvalidState | HostFailed

  /** FunctionState together with the two channels of functionEntry. A `changed`
      channel is identified by its generation: channels of generation below
      `generation` are closed, the current one is open. `closes` counts the
      executions of close(unregistered); a second one would panic. */
  datatype Entry = Entry(
    name: string,
    state: State,
    inFlight: int,
    lastAccess: int,
    lastActive: int,
    idleDuration: int,
    scaleToZero: bool,
    generation: nat,
    closes: nat)

  datatype Direction = Up | Down

  /** What a caller was told when its call returned. */
  datatype Reply =
    | Admitted
    | Ended
    | Ready(performed: bool)
    | Idled(fired: bool)
    | Touched
    | Done
    | Failed(error: Error)

  /** How a critical section ends: with the caller parked on the current `changed`
      channel, with the call returning, or with the transition begun and the mutex
      released around the host operation. */
  datatype Verdict = Park | Finish(reply: Reply) | ToHost(direction: Direction)

  /** The calls that lock an entry. */
  datatype Op =
    | StartInvocation
    | EndInvocation
    | ScaleUpWhenReady
    | TryScaleUp
    | ScaleDownWhenIdle
    | RecordActivity
    | BatchActivity(stamp: int)
    | IdleScan

  function Notify(e: Entry): Entry {
    e.(generation := e.generation + 1)
  }

  function NewEntry(name: string, initial: State, idleDuration: int, scaleToZero: bool, now: int): Entry {
    Entry(name, if initial == ScaledDown then ScaledDown else Active, 0, now, now, idleDuration, scaleToZero, 0, 0)
  }

  function StartSection(e: Entry, now: int): (Entry, Verdict) {
    match e.state
    case ScalingDown | ScalingUp => (e, Park)
    case ScaledDown => (e, Finish(Failed(IsScaledDown)))
    case Active | Blocked =>
      (Notify(e.(inFlight := e.inFlight + 1, lastAccess := now, state := Blocked)), Finish(Admitted))
    case Unknown(_) => (e, Finish(Failed(InvalidState)))
  }

  function EndSection(e: Entry, now: int): (Entry, Verdict) {
    var counted := e.(inFlight := if e.inFlight > 0 then e.inFlight - 1 else e.inFlight, lastAccess := now);
    var settled := if counted.inFlight == 0 && e.state == Blocked
                   then counted.(state := Active, lastActive := now)
                   else counted;
    (Notify(settled), Finish(Ended))
  }

  function Touch(e: Entry, stamp: int): Entry {
    e.(lastAccess := stamp, lastActive := if e.state == Active then stamp else e.lastActive)
  }

  function ScaleUpSection(e: Entry, now: int): (Entry, Verdict) {
    match e.state
    case Active | Blocked => (Touch(e, now), Finish(Ready(false)))
    case ScalingUp | ScalingDown => (e, Park)
    case ScaledDown => (Notify(e.(state := ScalingUp)), ToHost(Up))
    case Unknown(_) => (e, Finish(Failed(InvalidState)))
  }

  function TryScaleUpSection(e: Entry): (Entry, Verdict) {
    if e.state != ScaledDown
    then (e, Finish(Ready(false)))
    else (Notify(e.(state := ScalingUp)), ToHost(Up))
  }

  function ScaleDownSection(e: Entry): (Entry, Verdict) {
    match e.state
    case ScaledDown => (e, Finish(Idled(false)))
    case Blocked | ScalingUp | ScalingDown => (e, Park)
    case Active => (Notify(e.(state := ScalingDown)), ToHost(Down))
    case Unknown(_) => (e, Finish(Failed(InvalidState)))
  }

  function IdleScanSection(e: Entry, now: int): (Entry, Verdict) {
    if !e.scaleToZero then (e, Finish(Idled(false)))
    else match e.state
      case Active =>
        if now - e.lastActive <= e.idleDuration
        then (e, Finish(Idled(false)))
        else (Notify(e.(state := ScalingDown)), ToHost(Down))
      case ScaledDown | Blocked | ScalingUp | ScalingDown => (e, Finish(Idled(false)))
      case Unknown(_) => (e, Finish(Failed(InvalidState)))
  }

  /** The critical section that a call of kind `op` runs when it holds the mutex. */
  function Section(op: Op, e: Entry, now: int): (Entry, Verdict) {
    match op
    case StartInvocation => StartSection(e, now)
    case EndInvocation => EndSection(e, now)
    case ScaleUpWhenReady => ScaleUpSection(e, now)
    case TryScaleUp => TryScaleUpSection(e)
    case ScaleDownWhenIdle => ScaleDownSection(e)
    case RecordActivity => (Touch(e, now), Finish(Touched))
    case BatchActivity(stamp) => (Touch(e, stamp), Finish(Touched))
    case IdleScan => IdleScanSection(e, now)
  }

  /** The section after a host operation returned. */
  function CommitSection(direction: Direction, e: Entry, ok: bool, now: int): (Entry, Reply) {
    match direction
    case Up =>
      if ok
      then (Notify(e.(state := Active, lastAccess := now, lastActive := now)), Ready(true))
      else (Notify(e.(state := ScaledDown)), Failed(HostFailed))
    case Down =>
      if ok
      then (Notify(e.(state := ScaledDown, inFlight := 0, lastAccess := now)), Idled(true))
      else (Notify(e.(state := Active, lastActive := now)), Failed(HostFailed))
  }

  /** The scan worker's section when it sees the stop signal before the host call. */
  function RevertSection(e: Entry): (Entry, Reply) {
    (Notify(e.(state := Active)), Failed(Stopped))
  }

  /** The states in which the loop of `op` must wait. */
  predicate MustWait(op: Op, st: State) {
    match op
    case StartInvocation => Transient(st)
    case ScaleUpWhenReady => Transient(st)
    case ScaleDownWhenIdle => Transient(st) || st == Blocked
    case _ => false
  }

  /** What every entry satisfies whenever its mutex is free. */
  predicate WellFormed(e: Entry) {
    && e.inFlight >= 0
    && (e.state == Blocked <==> e.inFlight > 0)
    && !e.state.Unknown?
  }

  function TransientOf(direction: Direction): State {
    match direction case Up => ScalingUp case Down => ScalingDown
  }
}
