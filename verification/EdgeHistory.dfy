/** Edge statistics are a fold of the calls that were accepted since the edge exists, or
    since the last import. */
module EdgeHistory {
  import opened Averaging
  import opened Attribution
  import opened EdgeKeys
  import opened CallGraph
  import opened TrackerHistory

  datatype Sample = Sample(time: int, kind: EdgeKind)

  /** What is known of an edge: its statistics in the last imported graph, if it was in
      it, and the calls accepted since. */
  datatype Past = Past(base: Option<EdgeStat>, calls: seq<Sample>)

  /** The last edge of the list with these names, as an import leaves it. */
  function LastNamed(edges: seq<AggregatedEdge>, a: string, b: string): Option<EdgeStat> {
    if edges == [] then None
    else
      var last := edges[|edges| - 1];
      if last.caller == a && last.callee == b then Some(ImportedEdge(last)) else LastNamed(edges[..|edges| - 1], a, b)
  }

  /** The past of the edge from a to b since a, b or everything was last deleted. */
  function History(c: Config, events: seq<Event>, a: string, b: string): Past {
    if events == [] then Past(None, [])
    else
      var before := events[..|events| - 1];
      PastAfter(c, before, History(c, before, a, b), events[|events| - 1], a, b)
  }

  /** The past after one more event. */
  function PastAfter(c: Config, before: seq<Event>, past: Past, event: Event, a: string, b: string): Past {
    match event
    case Called(caller, callee, request, execution, timestamp, kind) =>
      var time := ChargedTime(c, before, caller, callee, request, execution, timestamp);
      if caller == a && callee == b && time.Some? then past.(calls := past.calls + [Sample(time.value, kind)]) else past
    case Deleted(f) => if c.enabled && f != "" && (f == a || f == b) then Past(None, []) else past
    case Cleared(_) => Past(None, [])
    case Imported(graph) => Past(LastNamed(graph.edges, a, b), [])
    case _ => past
  }

  function Times(calls: seq<Sample>): seq<int> {
    seq(|calls|, i requires 0 <= i < |calls| => calls[i].time)
  }

  function LastDefiniteKind(calls: seq<Sample>, otherwise: EdgeKind): EdgeKind {
    if calls == [] then otherwise
    else if calls[|calls| - 1].kind != UnknownKind then calls[|calls| - 1].kind
    else LastDefiniteKind(calls[..|calls| - 1], otherwise)
  }

  predicate LeastOf(low: int, times: seq<int>) {
    low in times && forall i :: 0 <= i < |times| ==> low <= times[i]
  }

  predicate GreatestOf(high: int, times: seq<int>) {
    high in times && forall i :: 0 <= i < |times| ==> times[i] <= high
  }

  /** The statistics of an edge that began with its first accepted call. */
  ghost predicate Summarizes(edge: EdgeStat, calls: seq<Sample>) {
    && edge.count == |calls|
    && edge.total == Sum(Times(calls))
    && LeastOf(edge.min, Times(calls))
    && GreatestOf(edge.max, Times(calls))
    && edge.kind == LastDefiniteKind(calls, UnknownKind)
  }

  /** The times that the minimum has seen: the call that takes the count to one starts it
      over, which an imported count of zero or less leaves to happen. */
  function SeenByMinimum(base: EdgeStat, times: seq<int>): seq<int> {
    if 0 <= -base.count < |times| then times[-base.count..] else [base.min] + times
  }

  /** The statistics of an edge that go on from imported ones. */
  ghost predicate Continues(edge: EdgeStat, base: EdgeStat, calls: seq<Sample>) {
    && edge.count == base.count + |calls|
    && edge.total == base.total + Sum(Times(calls))
    && LeastOf(edge.min, SeenByMinimum(base, Times(calls)))
    && GreatestOf(edge.max, [base.max] + Times(calls))
    && edge.kind == LastDefiniteKind(calls, base.kind)
  }

  ghost predicate EdgeFollows(edge: EdgeStat, past: Past) {
    && edge.samples == Times(past.calls)
    && match past.base
       case None => Summarizes(edge, past.calls)
       case Some(base) => Continues(edge, base, past.calls)
  }

  lemma OneMoreCall(calls: seq<Sample>, time: int, kind: EdgeKind)
    ensures var more := calls + [Sample(time, kind)];
      && Times(more) == Times(calls) + [time]
      && Sum(Times(more)) == Sum(Times(calls)) + time
      && forall otherwise ::
           LastDefiniteKind(more, otherwise) == if kind != UnknownKind then kind else LastDefiniteKind(calls, otherwise)
  {
    var more := calls + [Sample(time, kind)];
    assert more[..|calls|] == calls;
    assert Times(more) == Times(calls) + [time];
    assert Times(more)[..|calls|] == Times(calls);
  }

  lemma NextLeast(low: int, times: seq<int>, time: int)
    requires LeastOf(low, times)
    ensures LeastOf(if time < low then time else low, times + [time])
  {
    assert time in times + [time] && low in times + [time];
  }

  lemma NextGreatest(high: int, times: seq<int>, time: int)
    requires GreatestOf(high, times)
    ensures GreatestOf(if time > high then time else high, times + [time])
  {
    assert time in times + [time] && high in times + [time];
  }

  lemma FirstCallSummarizes(a: string, b: string, time: int, kind: EdgeKind)
    ensures EdgeFollows(WithSample(NewEdge(a, b, kind, time), time), Past(None, [Sample(time, kind)]))
  {
    OneMoreCall([], time, kind);
    assert [] + [Sample(time, kind)] == [Sample(time, kind)] && Times([Sample(time, kind)]) == [time];
    assert Sum([time]) == Sum([]) + time;
  }

  lemma {:induction false} NextCallSummarizes(edge: EdgeStat, calls: seq<Sample>, time: int, kind: EdgeKind)
    requires Summarizes(edge, calls) && calls != []
    ensures Summarizes(WithSample(WithKind(edge, kind), time), calls + [Sample(time, kind)])
  {
    OneMoreCall(calls, time, kind);
    NextLeast(edge.min, Times(calls), time);
    NextGreatest(edge.max, Times(calls), time);
  }

  lemma NextSeen(base: EdgeStat, times: seq<int>, low: int, time: int)
    requires LeastOf(low, SeenByMinimum(base, times))
    ensures LeastOf(if time < low || base.count + |times| + 1 == 1 then time else low,
                    SeenByMinimum(base, times + [time]))
  {
    if -base.count == |times| {
      assert (times + [time])[|times|..] == [time];
    } else {
      NextLeast(low, SeenByMinimum(base, times), time);
      assert SeenByMinimum(base, times + [time]) == SeenByMinimum(base, times) + [time];
    }
  }

  lemma {:induction false} NextCallContinues(edge: EdgeStat, base: EdgeStat, calls: seq<Sample>,
                                             time: int, kind: EdgeKind)
    requires Continues(edge, base, calls)
    ensures Continues(WithSample(WithKind(edge, kind), time), base, calls + [Sample(time, kind)])
  {
    OneMoreCall(calls, time, kind);
    NextSeen(base, Times(calls), edge.min, time);
    NextGreatest(edge.max, [base.max] + Times(calls), time);
    assert [base.max] + (Times(calls) + [time]) == [base.max] + Times(calls) + [time];
  }

  lemma NextCallFollows(edge: EdgeStat, past: Past, time: int, kind: EdgeKind)
    requires EdgeFollows(edge, past) && (past.base.Some? || past.calls != [])
    ensures EdgeFollows(WithSample(WithKind(edge, kind), time), past.(calls := past.calls + [Sample(time, kind)]))
  {
    OneMoreCall(past.calls, time, kind);
    match past.base
    case None => NextCallSummarizes(edge, past.calls, time, kind);
    case Some(base) => NextCallContinues(edge, base, past.calls, time, kind);
  }

  lemma ImportFollows(base: EdgeStat)
    requires base.samples == []
    ensures EdgeFollows(base, Past(Some(base), []))
  {
    assert Times([]) == [];
  }

  predicate Exists(past: Past) {
    past.base.Some? || past.calls != []
  }

  /** The edge is in the table exactly if it has a past, with the statistics of that past. */
  ghost predicate EdgeFits(s: State, past: Past, a: string, b: string) {
    && (Recorded(s, a, b) <==> Exists(past))
    && (Exists(past) ==> EdgeFollows(s.edgeStats[EdgeKey(a, b)], past))
  }

  /** An accepted call of the edge itself. */
  lemma OwnCallKeepsFit(s: State, past: Past, a: string, b: string, kind: EdgeKind, time: int)
    requires EdgeFits(s, past, a, b) && Vacant(s, a, b)
    ensures EdgeFits(AddSample(s, a, b, kind, time), past.(calls := past.calls + [Sample(time, kind)]), a, b)
  {
    if EdgeKey(a, b) in s.edgeStats {
      NextCallFollows(s.edgeStats[EdgeKey(a, b)], past, time, kind);
    } else {
      FirstCallSummarizes(a, b, time, kind);
      assert past.calls + [Sample(time, kind)] == [Sample(time, kind)];
    }
  }

  /** An accepted call of another edge. */
  lemma OtherCallKeepsFit(s: State, past: Past, a: string, b: string, caller: string, callee: string,
                          kind: EdgeKind, time: int)
    requires EdgeFits(s, past, a, b) && Vacant(s, caller, callee) && (caller != a || callee != b)
    ensures EdgeFits(AddSample(s, caller, callee, kind, time), past, a, b)
  {
    assert EdgeKey(caller, callee) == EdgeKey(a, b) ==> !Recorded(s, a, b);
  }

  lemma DeletedKeepsFit(c: Config, events: seq<Event>, past: Past, a: string, b: string, f: string)
    requires NoCollision(c, events) && EdgeFits(Replay(c, events), past, a, b) && c.enabled && f != ""
    ensures EdgeFits(Replay(c, events + [Deleted(f)]), if f == a || f == b then Past(None, []) else past, a, b)
  {
    DeletionIsFilter(c, events, f);
  }

  lemma {:induction false} LastNamedIsListed(edges: seq<AggregatedEdge>, a: string, b: string)
    ensures LastNamed(edges, a, b).Some? <==> HasPair(edges, a, b)
    ensures LastNamed(edges, a, b).Some? ==> LastNamed(edges, a, b).value.samples == []
  {
    if edges != [] {
      LastNamedIsListed(edges[..|edges| - 1], a, b);
      PairsGrow(edges, a, b);
    }
  }

  lemma {:induction false} ImportLeavesLastNamed(s: State, edges: seq<AggregatedEdge>, a: string, b: string)
    requires s.edgeStats == map[] && NoSharedKeys(edges)
    ensures var s' := ImportEdges(s, edges);
      && (Recorded(s', a, b) <==> LastNamed(edges, a, b).Some?)
      && (Recorded(s', a, b) ==> s'.edgeStats[EdgeKey(a, b)] == LastNamed(edges, a, b).value)
  {
    if edges != [] {
      var earlier, last := edges[..|edges| - 1], edges[|edges| - 1];
      ImportLeavesLastNamed(s, earlier, a, b);
      LastNamedIsListed(earlier, a, b);
      assert forall i :: 0 <= i < |earlier| ==> !ShareKey(edges[i], edges[|edges| - 1]);
    }
  }

  lemma ImportedKeepsFit(s: State, graph: Graph, a: string, b: string)
    requires NoSharedKeys(graph.edges)
    ensures EdgeFits(Import(s, graph), Past(LastNamed(graph.edges, a, b), []), a, b)
  {
    ImportLeavesLastNamed(Restarted(s, graph), graph.edges, a, b);
    LastNamedIsListed(graph.edges, a, b);
    if LastNamed(graph.edges, a, b).Some? {
      ImportFollows(LastNamed(graph.edges, a, b).value);
    }
  }

  lemma {:induction false} CallKeepsFit(c: Config, before: seq<Event>, past: Past, event: Event, a: string, b: string)
    requires EdgeFits(Replay(c, before), past, a, b) && event.Called? && !Collides(c, Replay(c, before), event)
    ensures EdgeFits(Apply(c, Replay(c, before), event), PastAfter(c, before, past, event, a, b), a, b)
  {
    var s := Replay(c, before);
    var Called(caller, callee, request, execution, timestamp, kind) := event;
    ChargedIsAccepted(c, before, caller, callee, request, execution, timestamp);
    match Accepted(c, s, caller, callee, request, execution, timestamp)
    case None =>
    case Some(time) =>
      if caller == a && callee == b {
        OwnCallKeepsFit(s, past, a, b, kind, time);
      } else {
        OtherCallKeepsFit(s, past, a, b, caller, callee, kind, time);
      }
  }

  /** Events that leave the edges alone or drop them all. */
  lemma {:induction false} OtherEventKeepsFit(c: Config, before: seq<Event>, past: Past, event: Event,
                                              a: string, b: string)
    requires EdgeFits(Replay(c, before), past, a, b) && !event.Called? && !event.Deleted? && !event.Imported?
    ensures EdgeFits(Apply(c, Replay(c, before), event), PastAfter(c, before, past, event, a, b), a, b)
  {
    if !event.Cleared? {
      assert Apply(c, Replay(c, before), event).edgeStats == Replay(c, before).edgeStats;
    }
  }

  lemma {:induction false} EventKeepsFit(c: Config, before: seq<Event>, event: Event, a: string, b: string)
    requires NoCollision(c, before) && !Collides(c, Replay(c, before), event)
    requires EdgeFits(Replay(c, before), History(c, before, a, b), a, b)
    ensures EdgeFits(Replay(c, before + [event]), History(c, before + [event], a, b), a, b)
  {
    var s, past := Replay(c, before), History(c, before, a, b);
    assert (before + [event])[..|before|] == before;
    match event
    case Called(_, _, _, _, _, _) => CallKeepsFit(c, before, past, event, a, b);
    case Deleted(f) =>
      if c.enabled && f != "" { DeletedKeepsFit(c, before, past, a, b, f); }
    case Imported(graph) => ImportedKeepsFit(s, graph, a, b);
    case _ => OtherEventKeepsFit(c, before, past, event, a, b);
  }

  /** As long as no two edges share a key, every edge is in the table exactly if it was
      imported or a call was accepted since it was last deleted, and carries the count, the
      sum, the extremes, the averaged samples and the last definite kind that follow. */
  lemma {:induction false} EdgeIsFoldOfHistory(c: Config, events: seq<Event>, a: string, b: string)
    requires NoCollision(c, events)
    ensures EdgeFits(Replay(c, events), History(c, events, a, b), a, b)
  {
    if events != [] {
      var before, last := events[..|events| - 1], events[|events| - 1];
      LastCollision(c, events);
      EdgeIsFoldOfHistory(c, before, a, b);
      EventKeepsFit(c, before, last, a, b);
      assert before + [last] == events;
    }
  }

  ghost predicate NoImports(events: seq<Event>) {
    forall i :: 0 <= i < |events| ==> !events[i].Imported?
  }

  lemma {:induction false} NoImportNoBase(c: Config, events: seq<Event>, a: string, b: string)
    requires NoImports(events)
    ensures History(c, events, a, b).base == None
  {
    if events != [] {
      NoImportNoBase(c, events[..|events| - 1], a, b);
    }
  }

  /** Without imports the figures are those of the accepted calls alone. */
  lemma EdgeSummarizesCalls(c: Config, events: seq<Event>, a: string, b: string)
    requires NoCollision(c, events) && NoImports(events)
    ensures var s, calls := Replay(c, events), History(c, events, a, b).calls;
      && (Recorded(s, a, b) <==> calls != [])
      && (Recorded(s, a, b) ==> Summarizes(s.edgeStats[EdgeKey(a, b)], calls))
  {
    EdgeIsFoldOfHistory(c, events, a, b);
    NoImportNoBase(c, events, a, b);
  }

  /** In particular the exported average of an edge under a simple moving average is that
      of the last windowSize times accepted since the last import. */
  lemma ExportedAverage(c: Config, events: seq<Event>, a: string, b: string)
    requires NoCollision(c, events) && Recorded(Replay(c, events), a, b)
    requires c.averaging.SimpleMoving? && c.averaging.windowSize > 0
    ensures Aggregate(c, Replay(c, events).edgeStats[EdgeKey(a, b)]).average
         == MovingAverage(Times(History(c, events, a, b).calls), c.averaging.windowSize)
  {
    EdgeIsFoldOfHistory(c, events, a, b);
  }
}
