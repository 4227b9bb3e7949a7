/** The autoscaler under any number of goroutines. A thread holds a program counter
    between two atomic steps; a step is one critical section, one channel operation,
    one clock reading outside a lock, or the return of a host operation. */
module Protocol {
  import opened Lifecycle

  /** What a call does around its critical section: create a completion callback, be
      the EndInvocation of a callback, or go on with the other names of a batch. */
  datatype Context = Plain | Begin | Callback(token: nat) | Batch(rest: seq<string>)

  datatype Pc =
    | Lookup(op: Op, name: string, context: Context)
    | Enter(op: Op, entry: nat, context: Context)
    | Parked(op: Op, entry: nat, context: Context, captured: nat)
    | StopCheck(entry: nat)
    | Revert(entry: nat)
    | Host(direction: Direction, op: Op, entry: nat)
    | Commit(direction: Direction, op: Op, entry: nat, ok: bool)
    | Claim(token: nat)
    | Installing(incoming: Entry)
    | Removing(name: string)
    | CloseCheck(entry: nat)
    | CloseNow(entry: nat)
    | Returned(reply: Reply)

  /** An admitted invocation. `claimed` is the callback's once-only flag; `settled`
      says that an EndInvocation section ran for it. */
  datatype Token = Token(name: string, entry: nat, callback: bool, claimed: bool, settled: bool)

  /** A host operation that succeeded. */
  datatype HostEvent = HostEvent(thread: nat, entry: nat, direction: Direction)

  /** Threads and entries are never forgotten, so their indices identify them.
      `born` remembers which entries were registered as active. */
  datatype Sys = Sys(
    clock: int,
    stopped: bool,
    registry: map<string, nat>,
    entries: seq<Entry>,
    threads: seq<Pc>,
    tokens: seq<Token>,
    born: seq<bool>,
    log: seq<HostEvent>)

  datatype Request =
    | Invoke(name: string, withCallback: bool)
    | End(name: string)
    | CallBack(token: nat)
    | ScaleUp(name: string, wait: bool)
    | ScaleDown(name: string)
    | Record(name: string)
    | RecordBatch(names: seq<string>)
    | Scan(entry: nat)
    | Register(name: string, initial: State, idleDuration: int, scaleToZero: bool)
    | Unregister(name: string)

  datatype Reason = Notified | Gone | Halted

  datatype Step =
    | Tick(elapsed: nat)
    | Stop
    | Call(request: Request)
    | Run(thread: nat)
    | HostReturn(thread: nat, ok: bool)
    | Wake(thread: nat, reason: Reason)

  predicate InBounds(s: Sys, pc: Pc) {
    && (pc.Enter? || pc.Parked? || pc.StopCheck? || pc.Revert? || pc.Host? || pc.Commit? ==> pc.entry < |s.entries|)
    && (pc.CloseCheck? || pc.CloseNow? ==> pc.entry < |s.entries|)
    && (pc.Claim? ==> pc.token < |s.tokens|)
    && ((pc.Lookup? || pc.Enter? || pc.Parked?) && pc.context.Callback? ==> pc.context.token < |s.tokens|)
  }

  predicate Init(s: Sys) {
    && !s.stopped && s.registry == map[] && s.entries == [] && s.threads == []
    && s.tokens == [] && s.born == [] && s.log == []
  }

  predicate CanCall(s: Sys, request: Request) {
    && (request.CallBack? ==> request.token < |s.tokens| && s.tokens[request.token].callback)
    && (request.Scan? ==> request.entry < |s.entries|)
  }

  predicate CanWake(s: Sys, pc: Pc, reason: Reason)
    requires InBounds(s, pc)
  {
    && pc.Parked?
    && match reason
       case Notified => pc.captured < s.entries[pc.entry].generation
       case Gone => s.entries[pc.entry].closes > 0
       case Halted => s.stopped
  }

  predicate Enabled(s: Sys, step: Step) {
    match step
    case Tick(_) => true
    case Stop => true
    case Call(request) => CanCall(s, request)
    case Run(t) => t < |s.threads| && InBounds(s, s.threads[t])
                   && !s.threads[t].Parked? && !s.threads[t].Host? && !s.threads[t].Returned?
    case HostReturn(t, _) => t < |s.threads| && InBounds(s, s.threads[t]) && s.threads[t].Host?
    case Wake(t, reason) => t < |s.threads| && InBounds(s, s.threads[t]) && CanWake(s, s.threads[t], reason)
  }

  function NextInBatch(stamp: int, names: seq<string>): Pc {
    if names == [] then Returned(Touched) else Lookup(BatchActivity(stamp), names[0], Batch(names[1..]))
  }

  function AfterReply(op: Op, context: Context, reply: Reply): Pc {
    match (op, context)
    case (BatchActivity(stamp), Batch(rest)) => NextInBatch(stamp, rest)
    case _ => Returned(reply)
  }

  function FirstPc(s: Sys, request: Request): Pc {
    match request
    case Invoke(name, withCallback) => Lookup(StartInvocation, name, if withCallback then Begin else Plain)
    case End(name) => Lookup(EndInvocation, name, Plain)
    case CallBack(token) => Claim(token)
    case ScaleUp(name, wait) => Lookup(if wait then ScaleUpWhenReady else TryScaleUp, name, Plain)
    case ScaleDown(name) => Lookup(ScaleDownWhenIdle, name, Plain)
    case Record(name) => Lookup(RecordActivity, name, Plain)
    case RecordBatch(names) => NextInBatch(s.clock, names)
    case Scan(entry) => Enter(IdleScan, entry, Plain)
    case Register(name, initial, idle, toZero) => Installing(NewEntry(name, initial, idle, toZero, s.clock))
    case Unregister(name) => Removing(name)
  }

  function AfterLookup(registry: map<string, nat>, op: Op, name: string, context: Context): Pc {
    if name in registry then Enter(op, registry[name], context)
    else match op
      case EndInvocation => Returned(Ended)
      case RecordActivity => Returned(Touched)
      case BatchActivity(_) => AfterReply(op, context, Touched)
      case _ => Returned(Failed(NotFound))
  }

  function AfterSection(op: Op, entry: nat, context: Context, verdict: Verdict, generation: nat): Pc {
    match verdict
    case Park => Parked(op, entry, context, generation)
    case Finish(reply) => AfterReply(op, context, reply)
    case ToHost(direction) => if op == IdleScan then StopCheck(entry) else Host(direction, op, entry)
  }

  /** The effect of a section on the callbacks. */
  function TokensAfter(tokens: seq<Token>, op: Op, name: string, entry: nat, context: Context,
                       verdict: Verdict): seq<Token>
    requires context.Callback? ==> context.token < |tokens|
  {
    if op == StartInvocation && verdict == Finish(Admitted)
    then tokens + [Token(name, entry, context == Begin, false, false)]
    else if op == EndInvocation && context.Callback?
    then tokens[context.token := tokens[context.token].(settled := true)]
    else tokens
  }

  function MoveTo(s: Sys, t: nat, pc: Pc): Sys
    requires t < |s.threads|
  {
    s.(threads := s.threads[t := pc])
  }

  function RunEnter(s: Sys, t: nat): Sys
    requires Enabled(s, Run(t)) && s.threads[t].Enter?
  {
    var Enter(op, e, context) := s.threads[t];
    var (after, verdict) := Section(op, s.entries[e], s.clock);
    s.(threads := s.threads[t := AfterSection(op, e, context, verdict, after.generation)],
       entries := s.entries[e := after],
       tokens := TokensAfter(s.tokens, op, after.name, e, context, verdict))
  }

  function RunInstall(s: Sys, t: nat): Sys
    requires Enabled(s, Run(t)) && s.threads[t].Installing?
  {
    var incoming := s.threads[t].incoming;
    var next := if incoming.name in s.registry then CloseCheck(s.registry[incoming.name]) else Returned(Done);
    s.(threads := s.threads[t := next],
       registry := s.registry[incoming.name := |s.entries|],
       entries := s.entries + [incoming],
       born := s.born + [incoming.state == Active])
  }

  function RunRemove(s: Sys, t: nat): Sys
    requires Enabled(s, Run(t)) && s.threads[t].Removing?
  {
    var name := s.threads[t].name;
    var next := if name in s.registry then CloseCheck(s.registry[name]) else Returned(Done);
    s.(threads := s.threads[t := next], registry := s.registry - {name})
  }

  function RunClaim(s: Sys, t: nat): Sys
    requires Enabled(s, Run(t)) && s.threads[t].Claim?
  {
    var k := s.threads[t].token;
    if s.tokens[k].claimed then MoveTo(s, t, Returned(Ended))
    else s.(threads := s.threads[t := Lookup(EndInvocation, s.tokens[k].name, Callback(k))],
            tokens := s.tokens[k := s.tokens[k].(claimed := true)])
  }

  function RunThread(s: Sys, t: nat): Sys
    requires Enabled(s, Run(t))
  {
    match s.threads[t]
    case Lookup(op, name, context) => MoveTo(s, t, AfterLookup(s.registry, op, name, context))
    case Enter(_, _, _) => RunEnter(s, t)
    case StopCheck(e) => MoveTo(s, t, if s.stopped then Revert(e) else Host(Down, IdleScan, e))
    case Revert(e) =>
      var (after, reply) := RevertSection(s.entries[e]);
      MoveTo(s, t, Returned(reply)).(entries := s.entries[e := after])
    case Commit(direction, _, e, ok) =>
      var (after, reply) := CommitSection(direction, s.entries[e], ok, s.clock);
      MoveTo(s, t, Returned(reply)).(entries := s.entries[e := after])
    case Claim(_) => RunClaim(s, t)
    case Installing(_) => RunInstall(s, t)
    case Removing(_) => RunRemove(s, t)
    case CloseCheck(e) => MoveTo(s, t, if s.entries[e].closes > 0 then Returned(Done) else CloseNow(e))
    case CloseNow(e) =>
      MoveTo(s, t, Returned(Done)).(entries := s.entries[e := s.entries[e].(closes := s.entries[e].closes + 1)])
  }

  function HostAnswers(s: Sys, t: nat, ok: bool): Sys
    requires Enabled(s, HostReturn(t, ok))
  {
    var Host(direction, op, e) := s.threads[t];
    MoveTo(s, t, Commit(direction, op, e, ok)).(log := if ok then s.log + [HostEvent(t, e, direction)] else s.log)
  }

  function WakeUp(s: Sys, t: nat, reason: Reason): Sys
    requires Enabled(s, Wake(t, reason))
  {
    var Parked(op, e, context, _) := s.threads[t];
    MoveTo(s, t, match reason
                 case Notified => Enter(op, e, context)
                 case Gone => AfterReply(op, context, Failed(Unregistered))
                 case Halted => AfterReply(op, context, Failed(Stopped)))
  }

  function Do(s: Sys, step: Step): Sys
    requires Enabled(s, step)
  {
    match step
    case Tick(elapsed) => s.(clock := s.clock + elapsed)
    case Stop => s.(stopped := true)
    case Call(request) => s.(threads := s.threads + [FirstPc(s, request)])
    case Run(t) => RunThread(s, t)
    case HostReturn(t, ok) => HostAnswers(s, t, ok)
    case Wake(t, reason) => WakeUp(s, t, reason)
  }

  /** A run: states[i + 1] comes from states[i] by steps[i]. */
  predicate IsRun(states: seq<Sys>, steps: seq<Step>) {
    && |states| == |steps| + 1
    && Init(states[0])
    && forall i :: 0 <= i < |steps| ==> Enabled(states[i], steps[i]) && states[i + 1] == Do(states[i], steps[i])
  }

  /** The state occurs in some run. */
  ghost predicate Reachable(s: Sys) {
    exists states, steps :: IsRun(states, steps) && states[|steps|] == s
  }

  lemma ReachStep(s: Sys, step: Step, s': Sys)
    requires Reachable(s) && Enabled(s, step) && s' == Do(s, step)
    ensures Reachable(s')
  {
    var states, steps :| IsRun(states, steps) && states[|steps|] == s;
    assert IsRun(states + [s'], steps + [step]);
    assert (states + [s'])[|steps + [step]|] == s';
  }
}
