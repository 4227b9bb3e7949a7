/** The call-graph tracker as a state machine on values: the data shapes, and what each
    operation does to the five tables. The class in module Tracker carries the
    operations out in place. */
module CallGraph {
  import opened Averaging
  import opened EdgeKeys

  datatype EdgeKind = UnknownKind | SyncKind | AsyncKind

  datatype Method = SimpleMoving(windowSize: int) | ExponentialMoving(alpha: real)

  /** ContextTTL and the averaging choice; durations and times are integers, and the zero
      time of the source is 0. */
  datatype Config = Config(enabled: bool, prewarm: bool, averaging: Method, contextTTL: int)

  const DEFAULT_CONTEXT_TTL := 300_000_000_000
  const ZERO_TIME := 0

  /** A calculator is represented by the samples it was given since it was created. */
  type Samples = seq<int>

  function Average(averaging: Method, samples: Samples): int {
    match averaging
    case SimpleMoving(size) => MovingAverage(samples, if size <= 0 then DEFAULT_SMA_WINDOW_SIZE else size)
    case ExponentialMoving(alpha) =>
      Truncate(Exponential(if alpha <= 0.0 || alpha > 1.0 then DEFAULT_EMA_ALPHA else alpha, samples))
  }

  method AddNext(calculator: SMACalculator, samples: seq<Duration>, i: nat)
    requires calculator.Valid() && i < |samples| && calculator.samples == samples[..i]
    modifies calculator, calculator.window
    ensures calculator.Valid() && calculator.window == old(calculator.window)
    ensures calculator.samples == samples[..i + 1]
  {
    assert samples[..i + 1] == samples[..i] + [samples[i]];
    var _ := calculator.Add(samples[i]);
  }

  /** A moving-average calculator that was given the samples one by one. */
  method MovingByCalculator(size: int, samples: seq<Duration>) returns (average: int)
    ensures average == Average(SimpleMoving(size), samples)
  {
    var calculator := new SMACalculator(size);
    ghost var window := calculator.window;
    for i := 0 to |samples|
      invariant calculator.Valid() && calculator.window == window
      invariant calculator.samples == samples[..i]
    {
      AddNext(calculator, samples, i);
    }
    assert samples[..|samples|] == samples;
    average := calculator.Average();
  }

  /** An exponential-average calculator that was given the samples one by one. */
  method ExponentialByCalculator(alpha: real, samples: seq<Duration>) returns (average: int)
    ensures average == Average(ExponentialMoving(alpha), samples)
  {
    var calculator := new EMACalculator(alpha);
    for i := 0 to |samples|
      invariant calculator.Valid() && fresh(calculator)
      invariant calculator.samples == samples[..i]
    {
      var _ := calculator.Add(samples[i]);
      assert samples[..i + 1] == samples[..i] + [samples[i]];
    }
    average := calculator.Average();
    assert calculator.samples == samples;
  }

  /** The average that the tables stand for is what a calculator of the configured kind
      reports. */
  method AverageByCalculator(averaging: Method, samples: seq<Duration>) returns (average: int)
    ensures average == Average(averaging, samples)
  {
    match averaging
    case SimpleMoving(size) => average := MovingByCalculator(size, samples);
    case ExponentialMoving(alpha) => average := ExponentialByCalculator(alpha, samples);
  }

  datatype EdgeStat = EdgeStat(
    caller: string,
    callee: string,
    kind: EdgeKind,
    count: int,
    total: int,
    min: int,
    max: int,
    samples: Samples)

  datatype FunctionStats = FunctionStats(
    name: string,
    totalCalls: int,
    totalColdStarts: int,
    totalScaleUps: int,
    totalPrewarms: int,
    totalScaleDowns: int,
    totalResets: int,
    totalExecutionTime: int,
    avgExecutionTime: int,
    minExecutionTime: int,
    maxExecutionTime: int,
    lastExecutionTime: int,
    lastCalledAt: int,
    lastColdStartAt: int,
    lastColdStartDuration: int,
    lastPrewarmAt: int,
    lastPrewarmDuration: int,
    avgColdStartDuration: int,
    lastResetAt: int,
    execSamples: Samples,
    scaleUpSamples: Samples)

  datatype Execution = Execution(functionName: string, startTime: int, endTime: int)

  datatype State = State(
    edgeStats: map<string, EdgeStat>,
    functionStats: map<string, FunctionStats>,
    callerToCallees: map<string, set<string>>,
    calleeToCallers: map<string, set<string>>,
    contexts: map<string, map<string, Execution>>,
    lastAccess: map<string, int>,
    startTime: int)

  datatype AggregatedEdge = AggregatedEdge(
    caller: string,
    callee: string,
    kind: EdgeKind,
    count: int,
    total: int,
    average: int,
    min: int,
    max: int)

  datatype Graph = Graph(
    edges: seq<AggregatedEdge>,
    functions: map<string, FunctionStats>,
    totalCalls: int,
    recordedSince: int)

  datatype Option<T> = None | Some(value: T)

  function Lookup<T>(m: map<string, set<T>>, key: string): set<T> {
    if key in m then m[key] else {}
  }

  function Include<T>(m: map<string, set<T>>, key: string, element: T): map<string, set<T>> {
    m[key := Lookup(m, key) + {element}]
  }

  function EmptyState(now: int): State {
    State(map[], map[], map[], map[], map[], map[], now)
  }

  // ---- Execution contexts ----

  function StartExecution(c: Config, s: State, f: string, request: string, execution: string, timestamp: int,
                          now: int): State {
    if !c.enabled || f == "" || request == "" || execution == "" then s
    else
      var before := if request in s.contexts then s.contexts[request] else map[];
      s.(contexts := s.contexts[request := before[execution := Execution(f, timestamp, ZERO_TIME)]],
         lastAccess := s.lastAccess[request := now])
  }

  function Known(s: State, request: string, execution: string): Option<Execution> {
    if request in s.contexts && execution in s.contexts[request] then Some(s.contexts[request][execution]) else None
  }

  function NewStats(name: string, execTime: int): FunctionStats {
    FunctionStats(name, 0, 0, 0, 0, 0, 0, 0, 0, execTime, execTime, 0,
                  ZERO_TIME, ZERO_TIME, 0, ZERO_TIME, 0, 0, ZERO_TIME, [], [])
  }

  function WithExecution(stats: FunctionStats, execTime: int, startTime: int): FunctionStats {
    stats.(totalCalls := stats.totalCalls + 1,
           totalExecutionTime := stats.totalExecutionTime + execTime,
           lastExecutionTime := execTime,
           lastCalledAt := startTime,
           execSamples := stats.execSamples + [execTime],
           minExecutionTime := if execTime < stats.minExecutionTime || stats.minExecutionTime == 0
                               then execTime else stats.minExecutionTime,
           maxExecutionTime := if execTime > stats.maxExecutionTime then execTime else stats.maxExecutionTime)
  }

  function StatsOr(s: State, f: string, fallback: FunctionStats): FunctionStats {
    if f in s.functionStats then s.functionStats[f] else fallback
  }

  function EndExecution(c: Config, s: State, f: string, request: string, execution: string, timestamp: int,
                        now: int): State {
    if !c.enabled || f == "" || request == "" || execution == "" then s
    else match Known(s, request, execution)
      case None => s
      case Some(context) =>
        if context.functionName != f then s
        else
          var execTime := timestamp - context.startTime;
          var counted := if context.startTime != ZERO_TIME && execTime >= 0
            then s.functionStats[f := WithExecution(StatsOr(s, f, NewStats(f, execTime)), execTime, context.startTime)]
            else s.functionStats;
          s.(functionStats := counted,
             contexts := s.contexts[request := s.contexts[request][execution := context.(endTime := timestamp)]],
             lastAccess := s.lastAccess[request := now])
  }

  function TTL(c: Config): int {
    if c.contextTTL <= 0 then DEFAULT_CONTEXT_TTL else c.contextTTL
  }

  /** The requests whose last access lies before the cutoff. */
  function Stale(s: State, cutoff: int): set<string> {
    set r | r in s.lastAccess && s.lastAccess[r] < cutoff
  }

  function CleanupStaleContexts(c: Config, s: State, now: int): State {
    var stale := Stale(s, now - TTL(c));
    s.(contexts := s.contexts - stale, lastAccess := s.lastAccess - stale)
  }

  // ---- Edges ----

  /** The time to attribute to the edge, or None if the recording has to be skipped. */
  function EdgeTime(s: State, caller: string, request: string, execution: string, timestamp: int): Option<int> {
    if caller == "" || request == "" then Some(0)
    else if request !in s.contexts || execution == "" then None
    else match Known(s, request, execution)
      case None => None
      case Some(context) => if context.functionName != caller then None else Some(timestamp - context.startTime)
  }

  function NewEdge(caller: string, callee: string, kind: EdgeKind, time: int): EdgeStat {
    EdgeStat(caller, callee, kind, 0, 0, time, time, [])
  }

  function WithKind(edge: EdgeStat, kind: EdgeKind): EdgeStat {
    if kind == UnknownKind then edge else edge.(kind := kind)
  }

  function WithSample(edge: EdgeStat, time: int): EdgeStat {
    edge.(count := edge.count + 1,
          total := edge.total + time,
          samples := edge.samples + [time],
          min := if time < edge.min || edge.count + 1 == 1 then time else edge.min,
          max := if time > edge.max then time else edge.max)
  }

  function AddSample(s: State, caller: string, callee: string, kind: EdgeKind, time: int): State {
    var key := EdgeKey(caller, callee);
    var edge := if key in s.edgeStats then WithKind(s.edgeStats[key], kind) else NewEdge(caller, callee, kind, time);
    s.(edgeStats := s.edgeStats[key := WithSample(edge, time)],
       callerToCallees := Include(s.callerToCallees, caller, callee),
       calleeToCallers := Include(s.calleeToCallers, callee, caller))
  }

  /** The sample that a recording adds, if it is accepted. */
  function Accepted(c: Config, s: State, caller: string, callee: string, request: string, execution: string,
                    timestamp: int): Option<int> {
    if !c.enabled || callee == "" || (caller != "" && caller == callee) then None
    else EdgeTime(s, caller, request, execution, timestamp)
  }

  function RecordEdge(c: Config, s: State, caller: string, callee: string, request: string, execution: string,
                      timestamp: int, kind: EdgeKind): State {
    match Accepted(c, s, caller, callee, request, execution, timestamp)
    case None => s
    case Some(time) => AddSample(s, caller, callee, kind, time)
  }

  // ---- Function statistics ----

  function RecordScaleDown(c: Config, s: State, f: string): State {
    if !c.enabled || f == "" || f !in s.functionStats then s
    else
      var stats := s.functionStats[f];
      s.(functionStats := s.functionStats[f := stats.(totalScaleDowns := stats.totalScaleDowns + 1)])
  }

  function WithScaleUp(stats: FunctionStats, timestamp: int, duration: int, cold: bool): FunctionStats {
    var counted := if cold
      then stats.(totalColdStarts := stats.totalColdStarts + 1,
                  lastColdStartAt := timestamp, lastColdStartDuration := duration)
      else stats.(totalPrewarms := stats.totalPrewarms + 1,
                  lastPrewarmAt := timestamp, lastPrewarmDuration := duration);
    counted.(totalScaleUps := stats.totalScaleUps + 1, scaleUpSamples := stats.scaleUpSamples + [duration])
  }

  function RecordScaleUp(c: Config, s: State, f: string, timestamp: int, duration: int, cold: bool): State {
    if !c.enabled || f == "" then s
    else
      var stats := WithScaleUp(StatsOr(s, f, NewStats(f, 0)), timestamp, duration, cold);
      s.(functionStats := s.functionStats[f := stats])
  }

  /** Everything but the name and the two reset fields starts over. */
  function ResetOf(stats: FunctionStats, now: int): FunctionStats {
    NewStats(stats.name, 0).(totalResets := stats.totalResets + 1, lastResetAt := now)
  }

  function ResetFunctionStats(c: Config, s: State, f: string, now: int): State {
    if !c.enabled || f == "" || f !in s.functionStats then s
    else s.(functionStats := s.functionStats[f := ResetOf(s.functionStats[f], now)])
  }

  // ---- Deletion ----

  /** What the two loops over the adjacency indexes delete, index by index. */
  function ClearEdges(s: State, f: string): State {
    var callees := Lookup(s.callerToCallees, f);
    var callers := Lookup(s.calleeToCallers, f) - (if f in callees then {f} else {});
    s.(edgeStats := s.edgeStats - (set callee | callee in callees :: EdgeKey(f, callee))
                                - (set caller | caller in callers :: EdgeKey(caller, f)),
       callerToCallees := map a | a in s.callerToCallees && a != f ::
         if a in callers then s.callerToCallees[a] - {f} else s.callerToCallees[a],
       calleeToCallers := map b | b in s.calleeToCallers && b != f ::
         if b in callees then s.calleeToCallers[b] - {f} else s.calleeToCallers[b])
  }

  /** The executions of one request that are not of function f. */
  function Others(executions: map<string, Execution>, f: string): map<string, Execution> {
    map x | x in executions && executions[x].functionName != f :: executions[x]
  }

  predicate OnlyOf(executions: map<string, Execution>, f: string) {
    forall x :: x in executions ==> executions[x].functionName == f
  }

  /** A request that is left without executions disappears. */
  function ClearContexts(s: State, f: string): State {
    var emptied := set r | r in s.contexts && OnlyOf(s.contexts[r], f);
    s.(contexts := map r | r in s.contexts && r !in emptied :: Others(s.contexts[r], f),
       lastAccess := s.lastAccess - emptied)
  }

  function ClearFunctionData(c: Config, s: State, f: string): State {
    if !c.enabled || f == "" then s
    else ClearContexts(ClearEdges(s.(functionStats := s.functionStats - {f}), f), f)
  }

  // ---- Export and import ----

  function Aggregate(c: Config, edge: EdgeStat): AggregatedEdge {
    AggregatedEdge(edge.caller, edge.callee, edge.kind, edge.count, edge.total,
                   Average(c.averaging, edge.samples), edge.min, edge.max)
  }

  function WithAverages(c: Config, stats: FunctionStats): FunctionStats {
    stats.(avgExecutionTime := Average(c.averaging, stats.execSamples),
           avgColdStartDuration := Average(c.averaging, stats.scaleUpSamples))
  }

  function AllFunctionStats(c: Config, s: State): map<string, FunctionStats> {
    map f | f in s.functionStats :: WithAverages(c, s.functionStats[f])
  }

  function ImportedEdge(edge: AggregatedEdge): EdgeStat {
    EdgeStat(edge.caller, edge.callee, edge.kind, edge.count, edge.total, edge.min, edge.max, [])
  }

  function AddImported(s: State, edge: AggregatedEdge): State {
    s.(edgeStats := s.edgeStats[EdgeKey(edge.caller, edge.callee) := ImportedEdge(edge)],
       callerToCallees := Include(s.callerToCallees, edge.caller, edge.callee),
       calleeToCallers := Include(s.calleeToCallers, edge.callee, edge.caller))
  }

  function ImportEdges(s: State, edges: seq<AggregatedEdge>): State {
    if edges == [] then s else AddImported(ImportEdges(s, edges[..|edges| - 1]), edges[|edges| - 1])
  }

  /** A copy of the statistics with new averaging calculators. */
  function Fresh(stats: FunctionStats): FunctionStats {
    stats.(execSamples := [], scaleUpSamples := [])
  }

  /** An import replaces the tables, except for the execution contexts. */
  function Restarted(s: State, graph: Graph): State {
    State(map[], map f | f in graph.functions :: Fresh(graph.functions[f]), map[], map[],
          s.contexts, s.lastAccess, graph.recordedSince)
  }

  function Import(s: State, graph: Graph): State {
    ImportEdges(Restarted(s, graph), graph.edges)
  }
}
