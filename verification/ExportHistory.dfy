/** What statistics start from and what the exported graph says, field by field and read
    off the events. */
module ExportHistory {
  import opened EdgeKeys
  import opened CallGraph
  import opened TrackerHistory
  import opened Attribution
  import opened EdgeHistory
  import opened FunctionHistory
  import opened ExportImport

  // ---- Where statistics come from ----

  /** What the last import brought for a function, if it did, and the times of its
      redeployments since the import, or since the function was last deleted. */
  datatype Origin = Origin(brought: Option<FunctionStats>, resets: seq<int>)

  function OriginOf(c: Config, events: seq<Event>, f: string): Origin {
    if events == [] then Origin(None, [])
    else
      var before, last := events[..|events| - 1], events[|events| - 1];
      var origin := OriginOf(c, before, f);
      match last
      case Imported(graph) => Origin(if f in graph.functions then Some(graph.functions[f]) else None, [])
      case Cleared(_) => Origin(None, [])
      case Deleted(g) => if g == f && c.enabled && f != "" then Origin(None, []) else origin
      case Redeployed(g, now) =>
        if g == f && c.enabled && f != "" && Tracked(c, before, f) then origin.(resets := origin.resets + [now])
        else origin
      case _ => origin
  }

  /** Nothing is counted and no time is known. */
  predicate AllZero(stats: FunctionStats) {
    && stats.totalCalls == 0 && stats.totalExecutionTime == 0 && stats.lastExecutionTime == 0
    && stats.minExecutionTime == 0 && stats.maxExecutionTime == 0 && stats.lastCalledAt == 0
    && stats.totalColdStarts == 0 && stats.totalScaleUps == 0 && stats.totalPrewarms == 0
    && stats.totalScaleDowns == 0 && stats.lastColdStartAt == 0 && stats.lastColdStartDuration == 0
    && stats.lastPrewarmAt == 0 && stats.lastPrewarmDuration == 0
  }

  /** The same counters, totals, extremes and last times. */
  predicate SameFigures(stats: FunctionStats, given: FunctionStats) {
    && stats.totalCalls == given.totalCalls
    && stats.totalExecutionTime == given.totalExecutionTime
    && stats.lastExecutionTime == given.lastExecutionTime
    && stats.minExecutionTime == given.minExecutionTime
    && stats.maxExecutionTime == given.maxExecutionTime
    && stats.lastCalledAt == given.lastCalledAt
    && stats.totalColdStarts == given.totalColdStarts
    && stats.totalScaleUps == given.totalScaleUps
    && stats.totalPrewarms == given.totalPrewarms
    && stats.totalScaleDowns == given.totalScaleDowns
    && stats.lastColdStartAt == given.lastColdStartAt
    && stats.lastColdStartDuration == given.lastColdStartDuration
    && stats.lastPrewarmAt == given.lastPrewarmAt
    && stats.lastPrewarmDuration == given.lastPrewarmDuration
  }

  predicate NoSamples(stats: FunctionStats) {
    stats.execSamples == [] && stats.scaleUpSamples == []
  }

  /** What the statistics of f start from: the imported figures until f is redeployed, and
      zero otherwise; the redeployments are counted on. */
  predicate StartsFrom(base: FunctionStats, origin: Origin, f: string) {
    var resets, brought := origin.resets, origin.brought;
    && NoSamples(base)
    && base.name == (if brought.Some? then brought.value.name else f)
    && base.totalResets == (if brought.Some? then brought.value.totalResets else 0) + |resets|
    && base.lastResetAt == (if resets != [] then resets[|resets| - 1]
                            else if brought.Some? then brought.value.lastResetAt else 0)
    && (if brought.Some? && resets == [] then SameFigures(base, brought.value) else AllZero(base))
  }

  /** An import takes over every figure of every function and drops the samples. */
  lemma ImportTakesFiguresOver(s: State, graph: Graph)
    ensures var s' := Import(s, graph);
      && s'.functionStats.Keys == graph.functions.Keys
      && s'.startTime == graph.recordedSince
      && forall f :: f in graph.functions ==> StartsFrom(s'.functionStats[f], Origin(Some(graph.functions[f]), []), f)
  {
    ImportKeepsTables(s, graph);
  }

  lemma {:induction false} OriginAfter(c: Config, before: seq<Event>, last: Event, f: string)
    requires StartsFrom(LifeOf(c, before, f).base, OriginOf(c, before, f), f)
    ensures StartsFrom(LifeOf(c, before + [last], f).base, OriginOf(c, before + [last], f), f)
  {
    NextStep(c, before, last);
  }

  /** The start of the statistics that every history theorem goes on from, field by field. */
  lemma {:induction false} BaseFollowsOrigin(c: Config, events: seq<Event>, f: string)
    ensures StartsFrom(LifeOf(c, events, f).base, OriginOf(c, events, f), f)
  {
    if events != [] {
      var before, last := events[..|events| - 1], events[|events| - 1];
      BaseFollowsOrigin(c, before, f);
      OriginAfter(c, before, last, f);
      assert before + [last] == events;
    }
  }

  // ---- The order of the edges ----

  /** a comes before b exactly if they have a common beginning after which a ends first or
      goes on with the smaller character. */
  lemma {:induction false} BeforeIffFirstDifference(a: string, b: string)
    ensures Before(a, b) <==>
            exists k :: 0 <= k <= |a| && k < |b| && a[..k] == b[..k] && (k == |a| || a[k] < b[k])
  {
    if Before(a, b) {
      var k := FirstDifference(a, b);
      assert 0 <= k <= |a| && k < |b| && a[..k] == b[..k];
    }
    if k :| 0 <= k <= |a| && k < |b| && a[..k] == b[..k] && (k == |a| || a[k] < b[k]) {
      DifferenceDecides(a, b, k);
    }
  }

  lemma {:induction false} FirstDifference(a: string, b: string) returns (k: nat)
    requires Before(a, b)
    ensures k <= |a| && k < |b| && a[..k] == b[..k] && (k == |a| || a[k] < b[k])
  {
    if a == [] || a[0] != b[0] {
      k := 0;
    } else {
      var rest := FirstDifference(a[1..], b[1..]);
      k := rest + 1;
      assert a[..k] == [a[0]] + a[1..][..rest] && b[..k] == [b[0]] + b[1..][..rest];
    }
  }

  lemma {:induction false} DifferenceDecides(a: string, b: string, k: nat)
    requires k <= |a| && k < |b| && a[..k] == b[..k] && (k == |a| || a[k] < b[k])
    ensures Before(a, b)
  {
    if k > 0 {
      assert a[..k][0] == b[..k][0];
      assert a[1..][..k - 1] == a[..k][1..] && b[1..][..k - 1] == b[..k][1..];
      DifferenceDecides(a[1..], b[1..], k - 1);
    }
  }

  // ---- The exported graph ----

  /** Since when the tracker records: the last time it was cleared, unless an import came
      later with a time of its own. */
  function RecordedSince(events: seq<Event>): int {
    if events == [] then 0
    else match events[|events| - 1]
      case Cleared(now) => now
      case Imported(graph) => graph.recordedSince
      case _ => RecordedSince(events[..|events| - 1])
  }

  lemma {:induction false} StartTimeFollows(c: Config, events: seq<Event>)
    ensures Replay(c, events).startTime == RecordedSince(events)
  {
    if events != [] {
      var before, last := events[..|events| - 1], events[|events| - 1];
      StartTimeFollows(c, before);
      if last.Imported? { ImportKeepsTables(Replay(c, before), last.graph); }
    }
  }

  /** An exported edge carries the figures of its past; its average is that of the times
      charged to it since the last import. */
  ghost predicate EdgeReport(c: Config, events: seq<Event>, e: AggregatedEdge) {
    var past := History(c, events, e.caller, e.callee);
    && Exists(past)
    && EdgeFollows(EdgeStat(e.caller, e.callee, e.kind, e.count, e.total, e.min, e.max, Times(past.calls)), past)
    && e.average == Average(c.averaging, Times(past.calls))
  }

  /** Exported statistics carry the figures of the life of the function; their averages are
      those of the execution times and of the scale-up times. */
  ghost predicate FunctionReport(c: Config, events: seq<Event>, f: string, stats: FunctionStats) {
    var life := LifeOf(c, events, f);
    && Summary(stats, life)
    && stats.avgExecutionTime == Average(c.averaging, RunTimes(life.uses))
    && stats.avgColdStartDuration == Average(c.averaging, UpTimes(life.uses))
  }

  lemma ExportedEdgeFollows(c: Config, events: seq<Event>, graph: Graph, i: nat)
    requires NoCollision(c, events) && Exports(c, Replay(c, events), graph) && i < |graph.edges|
    ensures EdgeReport(c, events, graph.edges[i])
  {
    var s, e := Replay(c, events), graph.edges[i];
    assert e in graph.edges;
    var k :| k in s.edgeStats && e == Aggregate(c, s.edgeStats[k]);
    KeysAlwaysMatch(c, events);
    EdgeIsFoldOfHistory(c, events, e.caller, e.callee);
    assert Recorded(s, e.caller, e.callee);
    var past := History(c, events, e.caller, e.callee);
    assert s.edgeStats[k]
        == EdgeStat(e.caller, e.callee, e.kind, e.count, e.total, e.min, e.max, Times(past.calls));
  }

  lemma ExportedPairs(c: Config, events: seq<Event>, graph: Graph, a: string, b: string)
    requires NoCollision(c, events) && Exports(c, Replay(c, events), graph)
    ensures HasPair(graph.edges, a, b) <==> Exists(History(c, events, a, b))
  {
    KeysAlwaysMatch(c, events);
    ExportComesFromTable(c, Replay(c, events), graph);
    EdgeIsFoldOfHistory(c, events, a, b);
  }

  lemma {:induction false} ExportedFunctionFollows(c: Config, events: seq<Event>, f: string)
    requires f in Replay(c, events).functionStats
    ensures FunctionReport(c, events, f, WithAverages(c, Replay(c, events).functionStats[f]))
  {
    StatsAreFoldOfHistory(c, events, f);
  }

  /** Caller first, then callee, each as the strings compare; and so no pair twice. */
  lemma ExportedOrder(c: Config, s: State, graph: Graph, i: nat, j: nat)
    requires Exports(c, s, graph) && i < j < |graph.edges|
    ensures var x, y := graph.edges[i], graph.edges[j];
      Before(x.caller, y.caller) || (x.caller == y.caller && Before(x.callee, y.callee))
  {
    assert EdgeBefore(graph.edges[i], graph.edges[j]);
  }

  /** The exported graph in terms of the events: it lists the edges with a past and the
      tracked functions, with the figures that follow from their histories. */
  lemma ExportFollowsHistory(c: Config, events: seq<Event>, graph: Graph)
    requires NoCollision(c, events) && Exports(c, Replay(c, events), graph)
    ensures forall a, b :: HasPair(graph.edges, a, b) <==> Exists(History(c, events, a, b))
    ensures forall i :: 0 <= i < |graph.edges| ==> EdgeReport(c, events, graph.edges[i])
    ensures forall f :: f in graph.functions <==> Tracked(c, events, f)
    ensures forall f :: f in graph.functions ==> FunctionReport(c, events, f, graph.functions[f])
    ensures graph.recordedSince == RecordedSince(events)
  {
    forall a, b ensures HasPair(graph.edges, a, b) <==> Exists(History(c, events, a, b)) {
      ExportedPairs(c, events, graph, a, b);
    }
    forall i | 0 <= i < |graph.edges| ensures EdgeReport(c, events, graph.edges[i]) {
      ExportedEdgeFollows(c, events, graph, i);
    }
    forall f ensures f in graph.functions <==> Tracked(c, events, f) {
      TrackedIffListed(c, events, f);
    }
    forall f | f in graph.functions ensures FunctionReport(c, events, f, graph.functions[f]) {
      ExportedFunctionFollows(c, events, f);
    }
    StartTimeFollows(c, events);
  }

  /** An import takes over every figure of an edge whose key no later edge has, and drops
      the samples. */
  lemma {:induction false} ImportTakesEdgesOver(s: State, graph: Graph, i: nat)
    requires i < |graph.edges|
    requires var key := EdgeKey(graph.edges[i].caller, graph.edges[i].callee);
      forall j :: i < j < |graph.edges| ==> EdgeKey(graph.edges[j].caller, graph.edges[j].callee) != key
    ensures var s', e := Import(s, graph), graph.edges[i]; var key := EdgeKey(e.caller, e.callee);
      && key in s'.edgeStats
      && s'.edgeStats[key] == EdgeStat(e.caller, e.callee, e.kind, e.count, e.total, e.min, e.max, [])
  {
    LastWithKeyStays(Restarted(s, graph), graph.edges, i);
  }

  lemma {:induction false} LastWithKeyStays(s: State, edges: seq<AggregatedEdge>, i: nat)
    requires i < |edges|
    requires var key := EdgeKey(edges[i].caller, edges[i].callee);
      forall j :: i < j < |edges| ==> EdgeKey(edges[j].caller, edges[j].callee) != key
    ensures var s', e := ImportEdges(s, edges), edges[i]; var key := EdgeKey(e.caller, e.callee);
      && key in s'.edgeStats
      && s'.edgeStats[key] == EdgeStat(e.caller, e.callee, e.kind, e.count, e.total, e.min, e.max, [])
  {
    var earlier, last := edges[..|edges| - 1], edges[|edges| - 1];
    if i < |edges| - 1 {
      LastWithKeyStays(s, earlier, i);
      assert EdgeKey(edges[|edges| - 1].caller, edges[|edges| - 1].callee) != EdgeKey(edges[i].caller, edges[i].callee);
    }
  }
}
