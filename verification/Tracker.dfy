/** CallGraphTracker as an object whose tables are updated in place, with the loops of
    the source. Every method is proved equal to its operation in module CallGraph. */
module Tracker {
  import opened EdgeKeys
  import opened CallGraph
  import opened ExportImport
  import opened Prewarm
  import TrackerHistory

  /** The state after the loop over the callees of f. */
  function OutgoingCleared(s: State, f: string): State {
    var callees := Lookup(s.callerToCallees, f);
    s.(edgeStats := s.edgeStats - (set callee | callee in callees :: EdgeKey(f, callee)),
       callerToCallees := s.callerToCallees - {f},
       calleeToCallers := map b | b in s.calleeToCallers ::
         if b in callees then s.calleeToCallers[b] - {f} else s.calleeToCallers[b])
  }

  /** The state after the loop over the callers of f. */
  function IncomingCleared(s: State, f: string): State {
    var callers := Lookup(s.calleeToCallers, f);
    s.(edgeStats := s.edgeStats - (set caller | caller in callers :: EdgeKey(caller, f)),
       calleeToCallers := s.calleeToCallers - {f},
       callerToCallees := map a | a in s.callerToCallees ::
         if a in callers then s.callerToCallees[a] - {f} else s.callerToCallees[a])
  }

  lemma TwoLoopsClearEdges(s: State, f: string)
    ensures IncomingCleared(OutgoingCleared(s, f), f) == ClearEdges(s, f)
  {
    var left, right := IncomingCleared(OutgoingCleared(s, f), f), ClearEdges(s, f);
    assert left.edgeStats == right.edgeStats;
    assert left.callerToCallees == right.callerToCallees;
    assert left.calleeToCallers == right.calleeToCallers;
  }

  /** The context tables while the requests in `pending` are still to be visited. */
  function PartlyCleared(s: State, f: string, pending: set<string>): State {
    var emptied := set r | r in s.contexts && r !in pending && OnlyOf(s.contexts[r], f);
    s.(contexts := map r | r in s.contexts && r !in emptied ::
         if r in pending then s.contexts[r] else Others(s.contexts[r], f),
       lastAccess := s.lastAccess - emptied)
  }

  lemma EmptiedRequest(s: State, f: string, pending: set<string>, r: string)
    requires r in pending && r in s.contexts && OnlyOf(s.contexts[r], f)
    ensures var now, next := PartlyCleared(s, f, pending), PartlyCleared(s, f, pending - {r});
      next == now.(contexts := now.contexts - {r}, lastAccess := now.lastAccess - {r})
  {
    var now, next := PartlyCleared(s, f, pending), PartlyCleared(s, f, pending - {r});
    assert next.contexts == now.contexts - {r};
    assert next.lastAccess == now.lastAccess - {r};
  }

  lemma KeptRequest(s: State, f: string, pending: set<string>, r: string)
    requires r in pending && r in s.contexts && !OnlyOf(s.contexts[r], f)
    ensures var now, next := PartlyCleared(s, f, pending), PartlyCleared(s, f, pending - {r});
      next == now.(contexts := now.contexts[r := Others(s.contexts[r], f)])
  {
    var now, next := PartlyCleared(s, f, pending), PartlyCleared(s, f, pending - {r});
    assert next.contexts == now.contexts[r := Others(s.contexts[r], f)];
    assert next.lastAccess == now.lastAccess;
  }

  lemma ClearOneRequest(s: State, f: string, pending: set<string>, r: string)
    requires r in pending && r in s.contexts
    ensures var now, next := PartlyCleared(s, f, pending), PartlyCleared(s, f, pending - {r});
      && r in now.contexts && now.contexts[r] == s.contexts[r]
      && next == if OnlyOf(s.contexts[r], f)
                 then now.(contexts := now.contexts - {r}, lastAccess := now.lastAccess - {r})
                 else now.(contexts := now.contexts[r := Others(s.contexts[r], f)])
  {
    if OnlyOf(s.contexts[r], f) {
      EmptiedRequest(s, f, pending, r);
    } else {
      KeptRequest(s, f, pending, r);
    }
  }

  lemma EmptyIffOnlyOf(executions: map<string, Execution>, f: string)
    ensures |Others(executions, f)| == 0 <==> OnlyOf(executions, f)
  {
    if |Others(executions, f)| == 0 {
      forall x | x in executions ensures executions[x].functionName == f {
        assert x !in Others(executions, f);
      }
    }
  }

  lemma ClearNoneAndAll(s: State, f: string)
    ensures PartlyCleared(s, f, s.contexts.Keys) == s
    ensures PartlyCleared(s, f, {}) == ClearContexts(s, f)
  {
    assert PartlyCleared(s, f, s.contexts.Keys).contexts == s.contexts;
    assert PartlyCleared(s, f, {}).contexts == ClearContexts(s, f).contexts;
  }

  // ---- Sorting the exported edges ----

  ghost predicate Comparable(edges: seq<AggregatedEdge>, edge: AggregatedEdge) {
    forall e :: e in edges ==> EdgeBefore(e, edge) || EdgeBefore(edge, e)
  }

  lemma InsertedIsSorted(edges: seq<AggregatedEdge>, edge: AggregatedEdge, k: nat)
    requires Sorted(edges) && Comparable(edges, edge) && k <= |edges|
    requires k < |edges| ==> !EdgeBefore(edges[k], edge)
    requires forall i :: 0 <= i < k ==> EdgeBefore(edges[i], edge)
    ensures Sorted(edges[..k] + [edge] + edges[k..])
  {
    forall i | k <= i < |edges| ensures EdgeBefore(edge, edges[i]) {
      assert edges[k] in edges;
      if i > k { EdgeOrderTransitive(edge, edges[k], edges[i]); }
    }
  }

  method Insert(edges: seq<AggregatedEdge>, edge: AggregatedEdge) returns (inserted: seq<AggregatedEdge>)
    requires Sorted(edges) && Comparable(edges, edge)
    ensures Sorted(inserted)
    ensures forall e :: e in inserted <==> e == edge || e in edges
  {
    var k := 0;
    while k < |edges| && EdgeBefore(edges[k], edge)
      invariant 0 <= k <= |edges|
      invariant forall i :: 0 <= i < k ==> EdgeBefore(edges[i], edge)
    {
      k := k + 1;
    }
    inserted := edges[..k] + [edge] + edges[k..];
    InsertedIsSorted(edges, edge, k);
    assert edges == edges[..k] + edges[k..];
  }

  /** Stands for the library sort: a sorted list of the same edges. */
  method SortEdges(edges: seq<AggregatedEdge>) returns (sorted: seq<AggregatedEdge>)
    requires forall i :: 0 <= i < |edges| ==> Comparable(edges[..i], edges[i])
    ensures Sorted(sorted)
    ensures forall e :: e in sorted <==> e in edges
  {
    sorted := [];
    for i := 0 to |edges|
      invariant Sorted(sorted)
      invariant forall e :: e in sorted <==> e in edges[..i]
    {
      assert Comparable(edges[..i], edges[i]);
      sorted := Insert(sorted, edges[i]);
      assert edges[..i + 1] == edges[..i] + [edges[i]];
    }
    assert edges[..|edges|] == edges;
  }

  /** Two entries of the edge table have different names, so the order tells them apart. */
  lemma EntriesComparable(c: Config, s: State, k: string, l: string)
    requires TrackerHistory.KeysMatch(s) && k in s.edgeStats && l in s.edgeStats && k != l
    ensures var x, y := Aggregate(c, s.edgeStats[k]), Aggregate(c, s.edgeStats[l]);
      EdgeBefore(x, y) || EdgeBefore(y, x)
  {
    EdgeOrder(Aggregate(c, s.edgeStats[k]), Aggregate(c, s.edgeStats[l]));
  }

  lemma {:induction false} ImportIgnoresFunctions(s: State, edges: seq<AggregatedEdge>, stats: map<string,
                                                  FunctionStats>)
    ensures ImportEdges(s.(functionStats := stats), edges) == ImportEdges(s, edges).(functionStats := stats)
  {
    if edges != [] {
      ImportIgnoresFunctions(s, edges[..|edges| - 1], stats);
    }
  }

  class CallGraphTracker {
    const config: Config
    var edgeStats: map<string, EdgeStat>
    var functionStats: map<string, FunctionStats>
    var callerToCallees: map<string, set<string>>
    var calleeToCallers: map<string, set<string>>
    var contexts: map<string, map<string, Execution>>
    var lastAccess: map<string, int>
    var startTime: int

    function View(): State
      reads this
    {
      State(edgeStats, functionStats, callerToCallees, calleeToCallers, contexts, lastAccess, startTime)
    }

    /** Nothing is on record. */
    predicate IsEmpty()
      reads this
    {
      && edgeStats == map[] && functionStats == map[] && callerToCallees == map[] && calleeToCallers == map[]
      && contexts == map[] && lastAccess == map[]
    }

    constructor (config: Config, now: int)
      ensures View() == EmptyState(now) && this.config == config
      ensures IsEmpty() && startTime == now
    {
      this.config := config;
      edgeStats, functionStats, callerToCallees, calleeToCallers := map[], map[], map[], map[];
      contexts, lastAccess, startTime := map[], map[], now;
    }

    method StartExecution(f: string, request: string, execution: string, timestamp: int, now: int)
      modifies this
      ensures View() == CallGraph.StartExecution(config, old(View()), f, request, execution, timestamp, now)
    {
      if !config.enabled || f == "" || request == "" || execution == "" {
        return;
      }
      ghost var before := if request in contexts then contexts[request] else map[];
      if request !in contexts {
        contexts := contexts[request := map[]];
      }
      contexts := contexts[request := contexts[request][execution := Execution(f, timestamp, ZERO_TIME)]];
      assert contexts == old(contexts)[request := before[execution := Execution(f, timestamp, ZERO_TIME)]];
      lastAccess := lastAccess[request := now];
    }

    method RecordEdgeWithKind(caller: string, callee: string, request: string, execution: string, timestamp: int,
                              kind: EdgeKind)
      modifies this
      ensures View() == CallGraph.RecordEdge(config, old(View()), caller, callee, request, execution, timestamp, kind)
    {
      if !config.enabled || callee == "" || (caller != "" && caller == callee) {
        return;
      }
      var time := 0;
      if caller != "" && request != "" {
        if request !in contexts || execution == "" || execution !in contexts[request] {
          return;
        }
        var context := contexts[request][execution];
        if context.functionName != caller {
          return;
        }
        time := timestamp - context.startTime;
      }
      AddSample(caller, callee, kind, time);
    }

    /** The part of RecordEdgeWithKind after the execution time is known. */
    method AddSample(caller: string, callee: string, kind: EdgeKind, time: int)
      modifies this
      ensures View() == CallGraph.AddSample(old(View()), caller, callee, kind, time)
    {
      var key := EdgeKey(caller, callee);
      var stats: EdgeStat;
      if key !in edgeStats {
        stats := EdgeStat(caller, callee, kind, 0, 0, time, time, []);
      } else {
        stats := edgeStats[key];
        if kind != UnknownKind {
          stats := stats.(kind := kind);
        }
      }
      stats := stats.(count := stats.count + 1, total := stats.total + time, samples := stats.samples + [time]);
      if time < stats.min || stats.count == 1 {
        stats := stats.(min := time);
      }
      if time > stats.max {
        stats := stats.(max := time);
      }
      assert stats == WithSample(
        if key in edgeStats then WithKind(edgeStats[key], kind) else NewEdge(caller, callee, kind, time), time);
      edgeStats := edgeStats[key := stats];
      callerToCallees := callerToCallees[caller := Lookup(callerToCallees, caller) + {callee}];
      calleeToCallers := calleeToCallers[callee := Lookup(calleeToCallers, callee) + {caller}];
    }

    method EndExecution(f: string, request: string, execution: string, timestamp: int, now: int)
      modifies this
      ensures View() == CallGraph.EndExecution(config, old(View()), f, request, execution, timestamp, now)
    {
      if !config.enabled || f == "" || request == "" || execution == "" {
        return;
      }
      if request !in contexts || execution !in contexts[request] {
        return;
      }
      var context := contexts[request][execution];
      if context.functionName != f {
        return;
      }
      var execTime := timestamp - context.startTime;
      if context.startTime != ZERO_TIME && execTime >= 0 {
        var stats := if f in functionStats then functionStats[f] else NewStats(f, execTime);
        stats := stats.(totalCalls := stats.totalCalls + 1,
                        totalExecutionTime := stats.totalExecutionTime + execTime,
                        lastExecutionTime := execTime,
                        lastCalledAt := context.startTime,
                        execSamples := stats.execSamples + [execTime]);
        if execTime < stats.minExecutionTime || stats.minExecutionTime == 0 {
          stats := stats.(minExecutionTime := execTime);
        }
        if execTime > stats.maxExecutionTime {
          stats := stats.(maxExecutionTime := execTime);
        }
        assert stats == WithExecution(StatsOr(View(), f, NewStats(f, execTime)), execTime, context.startTime);
        functionStats := functionStats[f := stats];
      }
      contexts := contexts[request := contexts[request][execution := context.(endTime := timestamp)]];
      lastAccess := lastAccess[request := now];
    }

    method CleanupStaleContexts(now: int)
      modifies this`contexts, this`lastAccess
      ensures View() == CallGraph.CleanupStaleContexts(config, old(View()), now)
    {
      var ttl := config.contextTTL;
      if ttl <= 0 {
        ttl := DEFAULT_CONTEXT_TTL;
      }
      var cutoff := now - ttl;
      var pending := lastAccess.Keys;
      ghost var done := {};
      ghost var stale := Stale(View(), cutoff);
      while pending != {}
        invariant pending + done == old(lastAccess).Keys && pending !! done
        invariant contexts == old(contexts) - (done * stale)
        invariant lastAccess == old(lastAccess) - (done * stale)
        decreases pending
      {
        var request :| request in pending;
        if lastAccess[request] < cutoff {
          contexts := contexts - {request};
          lastAccess := lastAccess - {request};
        }
        pending, done := pending - {request}, done + {request};
      }
      assert done * stale == stale;
    }

    method RecordScaleDown(f: string)
      modifies this
      ensures View() == CallGraph.RecordScaleDown(config, old(View()), f)
    {
      if !config.enabled || f == "" || f !in functionStats {
        return;
      }
      functionStats := functionStats[f := functionStats[f].(totalScaleDowns := functionStats[f].totalScaleDowns + 1)];
    }

    method RecordScaleUp(f: string, timestamp: int, duration: int, cold: bool)
      modifies this
      ensures View() == CallGraph.RecordScaleUp(config, old(View()), f, timestamp, duration, cold)
    {
      if !config.enabled || f == "" {
        return;
      }
      var stats := if f in functionStats then functionStats[f] else NewStats(f, 0);
      if cold {
        stats := stats.(totalColdStarts := stats.totalColdStarts + 1,
                        lastColdStartAt := timestamp, lastColdStartDuration := duration);
      } else {
        stats := stats.(totalPrewarms := stats.totalPrewarms + 1,
                        lastPrewarmAt := timestamp, lastPrewarmDuration := duration);
      }
      stats := stats.(totalScaleUps := stats.totalScaleUps + 1, scaleUpSamples := stats.scaleUpSamples + [duration]);
      functionStats := functionStats[f := stats];
    }

    method ResetFunctionStats(f: string, now: int)
      modifies this
      ensures View() == CallGraph.ResetFunctionStats(config, old(View()), f, now)
    {
      if !config.enabled || f == "" || f !in functionStats {
        return;
      }
      var stats := functionStats[f];
      stats := stats.(totalResets := stats.totalResets + 1, lastResetAt := now);
      stats := stats.(totalCalls := 0, totalColdStarts := 0, totalScaleUps := 0);
      stats := stats.(totalPrewarms := 0, totalScaleDowns := 0);
      stats := stats.(totalExecutionTime := 0, minExecutionTime := 0, maxExecutionTime := 0, lastExecutionTime := 0);
      stats := stats.(lastCalledAt := ZERO_TIME, lastColdStartAt := ZERO_TIME, lastColdStartDuration := 0);
      stats := stats.(lastPrewarmAt := ZERO_TIME, lastPrewarmDuration := 0);
      stats := stats.(avgExecutionTime := 0, avgColdStartDuration := 0);
      stats := stats.(execSamples := [], scaleUpSamples := []);
      functionStats := functionStats[f := stats];
    }

    method Clear(now: int)
      modifies this
      ensures View() == EmptyState(now)
      ensures IsEmpty() && startTime == now
    {
      edgeStats, functionStats, callerToCallees, calleeToCallers := map[], map[], map[], map[];
      contexts, lastAccess, startTime := map[], map[], now;
    }

    /** Deletes the edges that start at f, and f from the caller sets of its callees. */
    method ClearOutgoing(f: string)
      modifies this`edgeStats, this`callerToCallees, this`calleeToCallers
      ensures View() == OutgoingCleared(old(View()), f)
    {
      if f in callerToCallees {
        var pending := callerToCallees[f];
        ghost var done := {};
        while pending != {}
          invariant pending + done == old(callerToCallees)[f] && pending !! done
          invariant edgeStats == old(edgeStats) - (set callee | callee in done :: EdgeKey(f, callee))
          invariant calleeToCallers == map b | b in old(calleeToCallers) ::
                      if b in done then old(calleeToCallers)[b] - {f} else old(calleeToCallers)[b]
          invariant callerToCallees == old(callerToCallees)
          decreases pending
        {
          var callee :| callee in pending;
          edgeStats := edgeStats - {EdgeKey(f, callee)};
          if callee in calleeToCallers {
            calleeToCallers := calleeToCallers[callee := calleeToCallers[callee] - {f}];
          }
          pending, done := pending - {callee}, done + {callee};
        }
        callerToCallees := callerToCallees - {f};
      }
    }

    /** Deletes the edges that end at f, and f from the callee sets of its callers. */
    method ClearIncoming(f: string)
      modifies this`edgeStats, this`callerToCallees, this`calleeToCallers
      ensures View() == IncomingCleared(old(View()), f)
    {
      if f in calleeToCallers {
        var pending := calleeToCallers[f];
        ghost var done := {};
        while pending != {}
          invariant pending + done == old(calleeToCallers)[f] && pending !! done
          invariant edgeStats == old(edgeStats) - (set caller | caller in done :: EdgeKey(caller, f))
          invariant callerToCallees == map a | a in old(callerToCallees) ::
                      if a in done then old(callerToCallees)[a] - {f} else old(callerToCallees)[a]
          invariant calleeToCallers == old(calleeToCallers)
          decreases pending
        {
          var caller :| caller in pending;
          edgeStats := edgeStats - {EdgeKey(caller, f)};
          if caller in callerToCallees {
            callerToCallees := callerToCallees[caller := callerToCallees[caller] - {f}];
          }
          pending, done := pending - {caller}, done + {caller};
        }
        calleeToCallers := calleeToCallers - {f};
      }
    }

    /** The inner loop over the executions of one request. */
    static method WithoutExecutionsOf(executions: map<string, Execution>, f: string) returns (kept: map<string,
                                      Execution>)
      ensures kept == Others(executions, f)
    {
      kept := executions;
      var pending := executions.Keys;
      while pending != {}
        invariant pending <= executions.Keys
        invariant kept == map x | x in executions && (x in pending || executions[x].functionName != f) :: executions[x]
        decreases pending
      {
        var execution :| execution in pending;
        if kept[execution].functionName == f {
          kept := kept - {execution};
        }
        pending := pending - {execution};
      }
    }

    /** One turn of the outer loop: the request disappears when nothing is left of it. */
    method ClearExecutionsIn(request: string, f: string)
      requires request in contexts
      modifies this`contexts, this`lastAccess
      ensures OnlyOf(old(contexts)[request], f) ==>
        contexts == old(contexts) - {request} && lastAccess == old(lastAccess) - {request}
      ensures !OnlyOf(old(contexts)[request], f) ==>
        contexts == old(contexts)[request := Others(old(contexts)[request], f)] && lastAccess == old(lastAccess)
    {
      var kept := WithoutExecutionsOf(contexts[request], f);
      EmptyIffOnlyOf(contexts[request], f);
      contexts := contexts[request := kept];
      if |kept| == 0 {
        contexts := contexts - {request};
        lastAccess := lastAccess - {request};
        assert contexts == old(contexts) - {request};
      }
    }

    method ClearExecutions(f: string)
      modifies this`contexts, this`lastAccess
      ensures View() == ClearContexts(old(View()), f)
    {
      ghost var start := View();
      var pending := contexts.Keys;
      ClearNoneAndAll(start, f);
      while pending != {}
        invariant pending <= start.contexts.Keys
        invariant View() == PartlyCleared(start, f, pending)
        decreases pending
      {
        var request :| request in pending;
        ClearOneRequest(start, f, pending, request);
        ClearExecutionsIn(request, f);
        pending := pending - {request};
      }
    }

    method ClearFunctionData(f: string)
      modifies this
      ensures View() == CallGraph.ClearFunctionData(config, old(View()), f)
    {
      if !config.enabled || f == "" {
        return;
      }
      functionStats := functionStats - {f};
      TwoLoopsClearEdges(View(), f);
      ClearOutgoing(f);
      ClearIncoming(f);
      ClearExecutions(f);
    }

    /** The loop that copies the edge table, in whatever order the map yields it. */
    method AggregatedEdges() returns (edges: seq<AggregatedEdge>)
      requires TrackerHistory.KeysMatch(View())
      ensures forall i :: 0 <= i < |edges| ==> Comparable(edges[..i], edges[i])
      ensures forall e :: e in edges ==> exists k :: k in edgeStats && e == Aggregate(config, edgeStats[k])
      ensures forall k :: k in edgeStats ==> Aggregate(config, edgeStats[k]) in edges
    {
      edges := [];
      var pending := edgeStats.Keys;
      while pending != {}
        invariant pending <= edgeStats.Keys
        invariant forall i :: 0 <= i < |edges| ==> Comparable(edges[..i], edges[i])
        invariant forall e :: e in edges ==>
          exists k :: k in edgeStats && k !in pending && e == Aggregate(config, edgeStats[k])
        invariant forall k :: k in edgeStats && k !in pending ==> Aggregate(config, edgeStats[k]) in edges
        decreases pending
      {
        var key :| key in pending;
        var edge := Aggregate(config, edgeStats[key]);
        forall e | e in edges ensures EdgeBefore(e, edge) || EdgeBefore(edge, e) {
          var k :| k in edgeStats && k !in pending && e == Aggregate(config, edgeStats[k]);
          EntriesComparable(config, View(), k, key);
        }
        ghost var before := edges;
        edges := edges + [edge];
        forall i | 0 <= i < |edges| ensures Comparable(edges[..i], edges[i]) {
          assert edges[..i] == before[..i];
        }
        pending := pending - {key};
      }
    }

    method TotalCalls() returns (total: int)
      ensures total == CallsOf(functionStats, functionStats.Keys)
    {
      total := 0;
      var pending := functionStats.Keys;
      while pending != {}
        invariant pending <= functionStats.Keys
        invariant total + CallsOf(functionStats, pending) == CallsOf(functionStats, functionStats.Keys)
        decreases pending
      {
        var name :| name in pending;
        CallsInAnyOrder(functionStats, pending, name);
        total := total + functionStats[name].totalCalls;
        pending := pending - {name};
      }
    }

    method GetAllFunctionStats() returns (result: map<string, FunctionStats>)
      ensures result == AllFunctionStats(config, View())
    {
      result := map[];
      var pending := functionStats.Keys;
      while pending != {}
        invariant pending <= functionStats.Keys
        invariant result == map f | f in functionStats && f !in pending :: WithAverages(config, functionStats[f])
        decreases pending
      {
        var name :| name in pending;
        result := result[name := functionStats[name].(
          avgExecutionTime := Average(config.averaging, functionStats[name].execSamples),
          avgColdStartDuration := Average(config.averaging, functionStats[name].scaleUpSamples))];
        pending := pending - {name};
      }
    }

    method GetCallGraph() returns (graph: Graph)
      requires TrackerHistory.KeysMatch(View())
      ensures Exports(config, View(), graph)
    {
      var edges := AggregatedEdges();
      edges := SortEdges(edges);
      var functions := GetAllFunctionStats();
      var total := TotalCalls();
      graph := Graph(edges, functions, total, startTime);
    }

    method GetPrewarmTargets(f: string) returns (targets: seq<PrewarmTarget>)
      ensures ListsTargets(config, View(), f, targets)
    {
      targets := [];
      if !config.prewarm || f !in callerToCallees {
        return;
      }
      var callerTime := 0;
      if f in functionStats {
        callerTime := Average(config.averaging, functionStats[f].scaleUpSamples);
      }
      var pending := callerToCallees[f];
      while pending != {}
        invariant pending <= callerToCallees[f]
        invariant forall i, j :: 0 <= i < j < |targets| ==> targets[i].functionName != targets[j].functionName
        invariant forall i :: 0 <= i < |targets| ==>
          && targets[i].functionName !in pending
          && IsTarget(config, View(), f, targets[i].functionName)
          && targets[i] == TargetOf(config, View(), f, targets[i].functionName)
        invariant forall g :: IsTarget(config, View(), f, g) && g !in pending ==>
          TargetOf(config, View(), f, g) in targets
        decreases pending
      {
        var callee :| callee in pending;
        pending := pending - {callee};
        var key := EdgeKey(f, callee);
        if key !in edgeStats || callee !in functionStats {
          continue;
        }
        var edge := edgeStats[key];
        var stats := functionStats[callee];
        if edge.count <= 0 || stats.totalColdStarts <= 0 {
          continue;
        }
        var edgeTime := Average(config.averaging, edge.samples);
        var coldTime := Average(config.averaging, stats.scaleUpSamples);
        if coldTime == 0 {
          continue;
        }
        var leadTime := if edgeTime > 0 then edgeTime else 0;
        targets := targets + [PrewarmTarget(callee, leadTime, edge.kind, coldTime, callerTime)];
      }
    }

    method ImportAllEdges(edges: seq<AggregatedEdge>)
      modifies this`edgeStats, this`callerToCallees, this`calleeToCallers
      ensures View() == ImportEdges(old(View()), edges)
    {
      ghost var start := View();
      for i := 0 to |edges|
        invariant View() == ImportEdges(start, edges[..i])
      {
        assert edges[..i + 1][..i] == edges[..i];
        ImportEdge(edges[i]);
      }
      assert edges[..|edges|] == edges;
    }

    /** FromJSON once the text is decoded. The execution contexts stay. */
    method FromGraph(graph: Graph)
      modifies this
      ensures View() == Import(old(View()), graph)
    {
      edgeStats, functionStats, callerToCallees, calleeToCallers := map[], map[], map[], map[];
      startTime := graph.recordedSince;
      ghost var start := View();
      ImportAllEdges(graph.edges);
      TrackerHistory.ImportEdgesKeepsTables(start, graph.edges);
      ImportFunctions(graph.functions);
      ImportIgnoresFunctions(start, graph.edges, functionStats);
    }

    method ImportEdge(edge: AggregatedEdge)
      modifies this`edgeStats, this`callerToCallees, this`calleeToCallers
      ensures View() == AddImported(old(View()), edge)
    {
      edgeStats := edgeStats[EdgeKey(edge.caller, edge.callee) :=
        EdgeStat(edge.caller, edge.callee, edge.kind, edge.count, edge.total, edge.min, edge.max, [])];
      callerToCallees := callerToCallees[edge.caller := Lookup(callerToCallees, edge.caller) + {edge.callee}];
      calleeToCallers := calleeToCallers[edge.callee := Lookup(calleeToCallers, edge.callee) + {edge.caller}];
    }

    method ImportFunctions(functions: map<string, FunctionStats>)
      requires functionStats == map[] // FromGraph has just made the table anew
      modifies this`functionStats
      ensures functionStats == map f | f in functions :: Fresh(functions[f])
    {
      var pending := functions.Keys;
      while pending != {}
        invariant pending <= functions.Keys
        invariant functionStats == map f | f in functions && f !in pending :: Fresh(functions[f])
        decreases pending
      {
        var name :| name in pending;
        functionStats := functionStats[name := functions[name].(execSamples := [], scaleUpSamples := [])];
        pending := pending - {name};
      }
    }
  }
}
