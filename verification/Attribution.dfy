/** Which execution a call belongs to and how much time it is charged, read off the events
    alone, and that the tracker charges exactly that. */
module Attribution {
  import opened EdgeKeys
  import opened CallGraph
  import opened TrackerHistory

  /** An execution that was reported: of which function, when it started, and when its end
      was last reported, zero if it was not. */
  datatype ReportedExecution = ReportedExecution(f: string, since: int, until: int)

  const FIVE_MINUTES := 300_000_000_000

  function ExpiryOf(c: Config): int {
    if c.contextTTL > 0 then c.contextTTL else FIVE_MINUTES
  }

  /** The event reports the start of an execution, completely. */
  predicate IsStart(c: Config, event: Event, request: string, execution: string) {
    && event.Started? && c.enabled && event.request == request && event.execution == execution
    && event.f != "" && request != "" && execution != ""
  }

  /** The event uses the request: it starts one of its executions, or ends one that is of
      the function it names. */
  predicate UsesRequest(c: Config, events: seq<Event>, event: Event, request: string)
    decreases |events|, 1
  {
    match event
    case Started(_, r, x, _, _) => r == request && IsStart(c, event, request, x)
    case Ended(f, r, x, _, _) =>
      && r == request && c.enabled && f != "" && r != "" && x != ""
      && var known := ExecutionOf(c, events, request, x);
         known.Some? && known.value.f == f
    case _ => false
  }

  function UseTime(event: Event): int {
    match event
    case Started(_, _, _, _, now) => now
    case Ended(_, _, _, _, now) => now
    case _ => 0
  }

  /** When the request was last used. */
  function LastUse(c: Config, events: seq<Event>, request: string): int
    decreases |events|, 0
  {
    if events == [] then 0
    else
      var before, last := events[..|events| - 1], events[|events| - 1];
      if UsesRequest(c, before, last, request) then UseTime(last)
      else LastUse(c, before, request)
  }

  /** The execution known under the two identifiers: the last one started under them, unless
      everything was cleared since, its function was deleted, or a cleanup came later than
      the expiry after the last use of its request. */
  function ExecutionOf(c: Config, events: seq<Event>, request: string, execution: string): Option<ReportedExecution>
    decreases |events|, 0
  {
    if events == [] then None
    else
      var before, last := events[..|events| - 1], events[|events| - 1];
      var known := ExecutionOf(c, before, request, execution);
      match last
      case Started(f, _, _, timestamp, _) =>
        if IsStart(c, last, request, execution) then Some(ReportedExecution(f, timestamp, 0)) else known
      case Ended(f, r, x, timestamp, _) =>
        if r == request && x == execution && UsesRequest(c, before, last, request)
        then Some(known.value.(until := timestamp))
        else known
      case CleanedUp(now) => if now - LastUse(c, before, request) > ExpiryOf(c) then None else known
      case Deleted(f) => if c.enabled && f != "" && known.Some? && known.value.f == f then None else known
      case Cleared(_) => None
      case _ => known
  }

  /** The tracker's executions are those of the events. */
  ghost predicate Follows(s: State, known: Option<ReportedExecution>, request: string, execution: string) {
    && (Known(s, request, execution).Some? <==> known.Some?)
    && (known.Some? ==>
          && Known(s, request, execution).value.functionName == known.value.f
          && Known(s, request, execution).value.startTime == known.value.since
          && Known(s, request, execution).value.endTime == known.value.until)
  }

  ghost predicate UsesFollow(c: Config, events: seq<Event>, s: State) {
    forall r :: r in s.lastAccess ==> s.lastAccess[r] == LastUse(c, events, r)
  }

  ghost predicate AllFollow(c: Config, events: seq<Event>, s: State) {
    && ContextsOk(s)
    && (forall r, x :: Follows(s, ExecutionOf(c, events, r, x), r, x))
    && UsesFollow(c, events, s)
  }

  lemma NextStep(c: Config, events: seq<Event>, event: Event)
    ensures (events + [event])[..|events|] == events
    ensures Replay(c, events + [event]) == Apply(c, Replay(c, events), event)
  {
    assert (events + [event])[..|events|] == events;
  }

  /** What is known of one execution after a start. */
  lemma {:induction false} StartKeepsExecution(c: Config, events: seq<Event>, event: Event, r: string, x: string)
    requires Follows(Replay(c, events), ExecutionOf(c, events, r, x), r, x) && event.Started?
    ensures Follows(Apply(c, Replay(c, events), event), ExecutionOf(c, events + [event], r, x), r, x)
  {
    NextStep(c, events, event);
  }

  lemma {:induction false} StartKeepsUses(c: Config, events: seq<Event>, event: Event)
    requires UsesFollow(c, events, Replay(c, events)) && event.Started?
    ensures UsesFollow(c, events + [event], Apply(c, Replay(c, events), event))
  {
    NextStep(c, events, event);
    forall r ensures LastUse(c, events + [event], r) ==
      if IsStart(c, event, r, event.execution) then event.now else LastUse(c, events, r)
    {
    }
  }

  lemma {:induction false} StartFollows(c: Config, events: seq<Event>, event: Event)
    requires AllFollow(c, events, Replay(c, events)) && event.Started?
    ensures AllFollow(c, events + [event], Apply(c, Replay(c, events), event))
  {
    ApplyKeepsContexts(c, Replay(c, events), event);
    StartKeepsUses(c, events, event);
    forall r, x ensures
      Follows(Apply(c, Replay(c, events), event), ExecutionOf(c, events + [event], r, x), r, x)
    {
      assert Follows(Replay(c, events), ExecutionOf(c, events, r, x), r, x);
      StartKeepsExecution(c, events, event, r, x);
    }
  }

  lemma {:induction false} EndKeepsExecution(c: Config, events: seq<Event>, event: Event, r: string, x: string)
    requires Follows(Replay(c, events), ExecutionOf(c, events, r, x), r, x) && event.Ended?
    ensures Follows(Apply(c, Replay(c, events), event), ExecutionOf(c, events + [event], r, x), r, x)
  {
    NextStep(c, events, event);
  }

  lemma {:induction false} EndKeepsUses(c: Config, events: seq<Event>, event: Event)
    requires UsesFollow(c, events, Replay(c, events)) && event.Ended?
    requires Follows(Replay(c, events), ExecutionOf(c, events, event.request, event.execution),
                     event.request, event.execution)
    ensures UsesFollow(c, events + [event], Apply(c, Replay(c, events), event))
  {
    NextStep(c, events, event);
    forall r ensures LastUse(c, events + [event], r) ==
      if UsesRequest(c, events, event, r) then event.now else LastUse(c, events, r)
    {
    }
  }

  lemma {:induction false} EndFollows(c: Config, events: seq<Event>, event: Event)
    requires AllFollow(c, events, Replay(c, events)) && event.Ended?
    ensures AllFollow(c, events + [event], Apply(c, Replay(c, events), event))
  {
    ApplyKeepsContexts(c, Replay(c, events), event);
    assert Follows(Replay(c, events), ExecutionOf(c, events, event.request, event.execution),
                   event.request, event.execution);
    EndKeepsUses(c, events, event);
    forall r, x ensures
      Follows(Apply(c, Replay(c, events), event), ExecutionOf(c, events + [event], r, x), r, x)
    {
      assert Follows(Replay(c, events), ExecutionOf(c, events, r, x), r, x);
      EndKeepsExecution(c, events, event, r, x);
    }
  }

  lemma {:induction false} CleanupFollows(c: Config, events: seq<Event>, event: Event)
    requires AllFollow(c, events, Replay(c, events)) && event.CleanedUp?
    ensures AllFollow(c, events + [event], Apply(c, Replay(c, events), event))
  {
    var s := Replay(c, events);
    var s' := Apply(c, s, event);
    NextStep(c, events, event);
    ApplyKeepsContexts(c, s, event);
    forall r, x ensures Follows(s', ExecutionOf(c, events + [event], r, x), r, x) {
      assert Follows(s, ExecutionOf(c, events, r, x), r, x);
    }
  }

  lemma {:induction false} DeletionFollows(c: Config, events: seq<Event>, event: Event)
    requires AllFollow(c, events, Replay(c, events)) && event.Deleted?
    ensures AllFollow(c, events + [event], Apply(c, Replay(c, events), event))
  {
    var s := Replay(c, events);
    var s' := Apply(c, s, event);
    NextStep(c, events, event);
    ApplyKeepsContexts(c, s, event);
    if c.enabled && event.f != "" {
      var s1 := ClearEdges(s.(functionStats := s.functionStats - {event.f}), event.f);
      ClearContextsIsFilter(s1, event.f);
      forall r, x ensures Follows(s', ExecutionOf(c, events + [event], r, x), r, x) {
        assert Follows(s, ExecutionOf(c, events, r, x), r, x);
        assert Known(s1, r, x) == Known(s, r, x);
      }
    } else {
      forall r, x ensures Follows(s', ExecutionOf(c, events + [event], r, x), r, x) {
        assert Follows(s, ExecutionOf(c, events, r, x), r, x);
      }
    }
  }

  lemma {:induction false} OtherFollows(c: Config, events: seq<Event>, event: Event)
    requires AllFollow(c, events, Replay(c, events))
    requires !event.Started? && !event.Ended? && !event.CleanedUp? && !event.Deleted?
    ensures AllFollow(c, events + [event], Apply(c, Replay(c, events), event))
  {
    var s := Replay(c, events);
    var s' := Apply(c, s, event);
    NextStep(c, events, event);
    ApplyKeepsContexts(c, s, event);
    if event.Imported? { ImportKeepsTables(s, event.graph); }
    if !event.Cleared? {
      assert s'.contexts == s.contexts && s'.lastAccess == s.lastAccess;
    }
    forall r, x ensures Follows(s', ExecutionOf(c, events + [event], r, x), r, x) {
      assert Follows(s, ExecutionOf(c, events, r, x), r, x);
    }
  }

  lemma {:induction false} AllExecutionsFollow(c: Config, events: seq<Event>)
    ensures AllFollow(c, events, Replay(c, events))
  {
    if events != [] {
      var before, last := events[..|events| - 1], events[|events| - 1];
      AllExecutionsFollow(c, before);
      assert before + [last] == events;
      match last
      case Started(_, _, _, _, _) => StartFollows(c, before, last);
      case Ended(_, _, _, _, _) => EndFollows(c, before, last);
      case CleanedUp(_) => CleanupFollows(c, before, last);
      case Deleted(_) => DeletionFollows(c, before, last);
      case _ => OtherFollows(c, before, last);
    }
  }

  /** After any events the tracker knows exactly the executions that the events leave known,
      of which function they are, when they started and ended, and when their requests were last
      used. */
  lemma ExecutionsFollowEvents(c: Config, events: seq<Event>, request: string, execution: string)
    ensures Follows(Replay(c, events), ExecutionOf(c, events, request, execution), request, execution)
    ensures request in Replay(c, events).contexts ==>
              && request in Replay(c, events).lastAccess
              && Replay(c, events).lastAccess[request] == LastUse(c, events, request)
  {
    AllExecutionsFollow(c, events);
  }

  // ---- What a call is charged ----

  /** The time that a call adds to its edge, if it counts: a call from outside or without a
      request adds none, any other the time since its caller's execution started. */
  function ChargedTime(c: Config, events: seq<Event>, caller: string, callee: string, request: string,
                       execution: string, timestamp: int): Option<int> {
    if !c.enabled || callee == "" || (caller != "" && caller == callee) then None
    else if caller == "" || request == "" then Some(0)
    else
      match ExecutionOf(c, events, request, execution)
      case None => None
      case Some(known) => if known.f == caller then Some(timestamp - known.since) else None
  }

  lemma {:induction false} NoUnnamedExecution(c: Config, events: seq<Event>, request: string)
    ensures ExecutionOf(c, events, request, "") == None
  {
    if events != [] {
      NoUnnamedExecution(c, events[..|events| - 1], request);
    }
  }

  lemma ChargedIsAccepted(c: Config, events: seq<Event>, caller: string, callee: string, request: string,
                          execution: string, timestamp: int)
    ensures Accepted(c, Replay(c, events), caller, callee, request, execution, timestamp)
         == ChargedTime(c, events, caller, callee, request, execution, timestamp)
  {
    ExecutionsFollowEvents(c, events, request, execution);
    NoUnnamedExecution(c, events, request);
  }

  /** A call changes nothing unless it counts; then its edge gets one more call and the time
      charged, and starts with that time if it is new. */
  lemma CallIsCharged(c: Config, events: seq<Event>, caller: string, callee: string, request: string,
                      execution: string, timestamp: int, kind: EdgeKind)
    ensures var call := Called(caller, callee, request, execution, timestamp, kind);
      var s, s' := Replay(c, events), Replay(c, events + [call]); var key := EdgeKey(caller, callee);
      match ChargedTime(c, events, caller, callee, request, execution, timestamp)
      case None => s' == s
      case Some(time) =>
        && key in s'.edgeStats
        && (if key in s.edgeStats
            then && s'.edgeStats[key].count == s.edgeStats[key].count + 1
                 && s'.edgeStats[key].total == s.edgeStats[key].total + time
            else && s'.edgeStats[key].count == 1 && s'.edgeStats[key].total == time
                 && s'.edgeStats[key].min == time && s'.edgeStats[key].max == time
                 && s'.edgeStats[key].caller == caller && s'.edgeStats[key].callee == callee
                 && s'.edgeStats[key].kind == kind)
        && s'.edgeStats - {key} == s.edgeStats - {key}
        && s'.functionStats == s.functionStats && s'.contexts == s.contexts && s'.lastAccess == s.lastAccess
  {
    NextStep(c, events, Called(caller, callee, request, execution, timestamp, kind));
    ChargedIsAccepted(c, events, caller, callee, request, execution, timestamp);
  }

  /** The time that the end of an execution adds to its function, if it counts: the time
      since it started, unless that is not known or would be negative. */
  function RunTime(c: Config, events: seq<Event>, f: string, request: string, execution: string,
                   timestamp: int): Option<int> {
    if !c.enabled || f == "" then None
    else match ExecutionOf(c, events, request, execution)
      case None => None
      case Some(known) =>
        if known.f == f && known.since != ZERO_TIME && known.since <= timestamp then Some(timestamp - known.since)
        else None
  }

  /** Whether a call collides follows from the events and the edge table as well. */
  lemma CollisionIsCharged(c: Config, events: seq<Event>, event: Event)
    requires event.Called?
    ensures Collides(c, Replay(c, events), event) <==>
            && ChargedTime(c, events, event.caller, event.callee, event.request, event.execution, event.timestamp).Some?
            && !Vacant(Replay(c, events), event.caller, event.callee)
  {
    ChargedIsAccepted(c, events, event.caller, event.callee, event.request, event.execution, event.timestamp);
  }

  /** The functions that have statistics, according to the events. */
  predicate Tracked(c: Config, events: seq<Event>, f: string) {
    if events == [] then false
    else
      var before, last := events[..|events| - 1], events[|events| - 1];
      match last
      case Ended(g, request, execution, timestamp, _) =>
        Tracked(c, before, f) || (g == f && RunTime(c, before, g, request, execution, timestamp).Some?)
      case ScaledUp(g, _, _, _) => Tracked(c, before, f) || (g == f && c.enabled && f != "")
      case Deleted(g) => Tracked(c, before, f) && !(g == f && c.enabled && f != "")
      case Cleared(_) => false
      case Imported(graph) => f in graph.functions
      case _ => Tracked(c, before, f)
  }

  lemma {:induction false} NoExecutionWithoutRequest(c: Config, events: seq<Event>, execution: string)
    ensures ExecutionOf(c, events, "", execution) == None
  {
    if events != [] {
      NoExecutionWithoutRequest(c, events[..|events| - 1], execution);
    }
  }

  /** What an end of an execution does to the table of statistics. */
  lemma EndIsRun(c: Config, events: seq<Event>, event: Event)
    requires event.Ended?
    ensures var s, g := Replay(c, events), event.f; var s' := Apply(c, s, event);
      match RunTime(c, events, g, event.request, event.execution, event.timestamp)
      case None => s'.functionStats == s.functionStats
      case Some(time) =>
        && time >= 0
        && s'.functionStats ==
             s.functionStats[g := WithExecution(StatsOr(s, g, NewStats(g, time)), time, event.timestamp - time)]
  {
    ExecutionsFollowEvents(c, events, event.request, event.execution);
    NoUnnamedExecution(c, events, event.request);
    NoExecutionWithoutRequest(c, events, event.execution);
  }

  lemma {:induction false} TrackedIffListed(c: Config, events: seq<Event>, f: string)
    ensures f in Replay(c, events).functionStats <==> Tracked(c, events, f)
  {
    if events != [] {
      var before, last := events[..|events| - 1], events[|events| - 1];
      TrackedIffListed(c, before, f);
      if last.Ended? { EndIsRun(c, before, last); }
      if last.Imported? { ImportKeepsTables(Replay(c, before), last.graph); }
    }
  }
}
