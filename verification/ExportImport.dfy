/** Exporting the call graph and importing it again. */
module ExportImport {
  import opened EdgeKeys
  import opened CallGraph
  import opened TrackerHistory

  // ---- The order of the exported edges ----

  /** Strings compare character by character, a proper prefix first. */
  predicate Before(a: string, b: string) {
    if b == [] then false
    else if a == [] then true
    else if a[0] != b[0] then a[0] < b[0]
    else Before(a[1..], b[1..])
  }

  lemma {:induction false} BeforeIsTotal(a: string, b: string)
    ensures a == b || Before(a, b) || Before(b, a)
    ensures !(Before(a, b) && Before(b, a)) && !Before(a, a)
  {
    if a != [] && b != [] && a[0] == b[0] {
      BeforeIsTotal(a[1..], b[1..]);
      assert a == [a[0]] + a[1..] && b == [b[0]] + b[1..];
    }
    if a != [] { BeforeIrreflexive(a); }
  }

  lemma {:induction false} BeforeIrreflexive(a: string)
    ensures !Before(a, a)
  {
    if a != [] { BeforeIrreflexive(a[1..]); }
  }

  lemma {:induction false} BeforeIsTransitive(a: string, b: string, c: string)
    requires Before(a, b) && Before(b, c)
    ensures Before(a, c)
  {
    if a != [] && a[0] == b[0] && b[0] == c[0] {
      BeforeIsTransitive(a[1..], b[1..], c[1..]);
    }
  }

  /** The comparison that the export sorts by: caller, then callee. */
  predicate EdgeBefore(x: AggregatedEdge, y: AggregatedEdge) {
    if x.caller != y.caller then Before(x.caller, y.caller) else Before(x.callee, y.callee)
  }

  lemma EdgeOrder(x: AggregatedEdge, y: AggregatedEdge)
    ensures (x.caller == y.caller && x.callee == y.callee) || EdgeBefore(x, y) || EdgeBefore(y, x)
    ensures !(EdgeBefore(x, y) && EdgeBefore(y, x)) && !EdgeBefore(x, x)
  {
    BeforeIsTotal(x.caller, y.caller);
    BeforeIsTotal(x.callee, y.callee);
  }

  lemma EdgeOrderTransitive(x: AggregatedEdge, y: AggregatedEdge, z: AggregatedEdge)
    requires EdgeBefore(x, y) && EdgeBefore(y, z)
    ensures EdgeBefore(x, z)
  {
    BeforeIsTotal(x.caller, y.caller);
    BeforeIsTotal(y.caller, z.caller);
    BeforeIsTotal(x.caller, z.caller);
    if x.caller != y.caller && y.caller != z.caller {
      BeforeIsTransitive(x.caller, y.caller, z.caller);
    } else if x.caller == y.caller == z.caller {
      BeforeIsTransitive(x.callee, y.callee, z.callee);
    }
  }

  predicate Sorted(edges: seq<AggregatedEdge>) {
    forall i, j :: 0 <= i < j < |edges| ==> EdgeBefore(edges[i], edges[j])
  }

  /** Two strictly sorted lists with the same members are the same list. */
  lemma {:induction false} SortedIsUnique(xs: seq<AggregatedEdge>, ys: seq<AggregatedEdge>)
    requires Sorted(xs) && Sorted(ys) && forall e :: e in xs <==> e in ys
    ensures xs == ys
  {
    assert ys != [] ==> ys[0] in ys;
    if xs != [] {
      assert xs[0] in ys;
      assert ys[0] in xs;
      if xs[0] != ys[0] {
        EdgeOrder(xs[0], ys[0]);
        assert false;
      }
      forall e ensures e in xs[1..] <==> e in ys[1..] {
        EdgeOrder(xs[0], xs[0]);
        assert e in xs <==> e == xs[0] || e in xs[1..];
        assert e in ys <==> e == ys[0] || e in ys[1..];
      }
      SortedIsUnique(xs[1..], ys[1..]);
    }
  }

  // ---- The exported graph ----

  /** The sum of TotalCalls over some of the functions, in any order. */
  ghost function CallsOf(stats: map<string, FunctionStats>, names: set<string>): int
    requires names <= stats.Keys
  {
    if names == {} then 0
    else
      var f :| f in names;
      stats[f].totalCalls + CallsOf(stats, names - {f})
  }

  lemma {:induction false} CallsInAnyOrder(stats: map<string, FunctionStats>, names: set<string>, f: string)
    requires names <= stats.Keys && f in names
    ensures CallsOf(stats, names) == stats[f].totalCalls + CallsOf(stats, names - {f})
  {
    var g :| g in names && CallsOf(stats, names) == stats[g].totalCalls + CallsOf(stats, names - {g});
    if g != f {
      CallsInAnyOrder(stats, names - {g}, f);
      CallsInAnyOrder(stats, names - {f}, g);
      assert names - {g} - {f} == names - {f} - {g};
    }
  }

  /** What GetCallGraph returns: the aggregated edges in order, each once, the statistics
      with their averages, and the total of the calls. */
  ghost predicate Exports(c: Config, s: State, graph: Graph) {
    && Sorted(graph.edges)
    && (forall e :: e in graph.edges ==> exists k :: k in s.edgeStats && e == Aggregate(c, s.edgeStats[k]))
    && (forall k :: k in s.edgeStats ==> Aggregate(c, s.edgeStats[k]) in graph.edges)
    && graph.functions == AllFunctionStats(c, s)
    && graph.totalCalls == CallsOf(s.functionStats, s.functionStats.Keys)
    && graph.recordedSince == s.startTime
  }

  /** The export does not depend on the order in which the maps are iterated. */
  lemma ExportIsUnique(c: Config, s: State, g: Graph, h: Graph)
    requires Exports(c, s, g) && Exports(c, s, h)
    ensures g == h
  {
    forall e ensures e in g.edges <==> e in h.edges {
    }
    SortedIsUnique(g.edges, h.edges);
  }

  // ---- Keys match without any hypothesis ----

  lemma {:induction false} ImportEdgesKeepsKeys(s: State, edges: seq<AggregatedEdge>)
    requires KeysMatch(s)
    ensures KeysMatch(ImportEdges(s, edges))
  {
    if edges != [] {
      ImportEdgesKeepsKeys(s, edges[..|edges| - 1]);
    }
  }

  lemma ApplyKeepsKeys(c: Config, s: State, event: Event)
    requires KeysMatch(s)
    ensures KeysMatch(Apply(c, s, event))
  {
    match event
    case Imported(graph) =>
      ImportEdgesKeepsKeys(Restarted(s, graph), graph.edges);
    case _ =>
  }

  lemma {:induction false} KeysAlwaysMatch(c: Config, events: seq<Event>)
    ensures KeysMatch(Replay(c, events))
  {
    if events != [] {
      KeysAlwaysMatch(c, events[..|events| - 1]);
      ApplyKeepsKeys(c, Replay(c, events[..|events| - 1]), events[|events| - 1]);
    }
  }

  // ---- Import of an export ----

  function WithoutSamples(edge: EdgeStat): EdgeStat {
    edge.(samples := [])
  }

  /** The edge is that of the table, up to its average. */
  predicate ComesFrom(table: map<string, EdgeStat>, edge: AggregatedEdge) {
    var key := EdgeKey(edge.caller, edge.callee);
    key in table && ImportedEdge(edge) == WithoutSamples(table[key])
  }

  lemma {:induction false} ImportedEdgeTable(s: State, edges: seq<AggregatedEdge>, table: map<string, EdgeStat>)
    requires s.edgeStats == map[]
    requires forall i :: 0 <= i < |edges| ==> ComesFrom(table, edges[i])
    ensures var s' := ImportEdges(s, edges);
      && (forall i :: 0 <= i < |edges| ==> EdgeKey(edges[i].caller, edges[i].callee) in s'.edgeStats)
      && (forall k :: k in s'.edgeStats ==> k in table && s'.edgeStats[k] == WithoutSamples(table[k]))
  {
    if edges != [] {
      ImportedEdgeTable(s, edges[..|edges| - 1], table);
      assert ComesFrom(table, edges[|edges| - 1]);
    }
  }

  lemma ExportComesFromTable(c: Config, s: State, graph: Graph)
    requires KeysMatch(s) && Exports(c, s, graph)
    ensures forall i :: 0 <= i < |graph.edges| ==> ComesFrom(s.edgeStats, graph.edges[i])
    ensures forall a, b :: HasPair(graph.edges, a, b) <==> Recorded(s, a, b)
  {
    forall i | 0 <= i < |graph.edges| ensures ComesFrom(s.edgeStats, graph.edges[i]) {
      assert graph.edges[i] in graph.edges;
    }
    forall a, b ensures HasPair(graph.edges, a, b) <==> Recorded(s, a, b) {
      if Recorded(s, a, b) {
        var e := Aggregate(c, s.edgeStats[EdgeKey(a, b)]);
        var i :| 0 <= i < |graph.edges| && graph.edges[i] == e;
        assert graph.edges[i].caller == a && graph.edges[i].callee == b;
      }
    }
  }

  function Erased(edges: map<string, EdgeStat>): map<string, EdgeStat> {
    map k | k in edges :: WithoutSamples(edges[k])
  }

  /** Importing an export rebuilds every edge and every function statistic except for the
      samples behind the averages, keeps the executions, and makes both indexes agree
      with the edge table. */
  lemma RoundTrip(c: Config, s: State, graph: Graph)
    requires KeysMatch(s) && Exports(c, s, graph)
    ensures var s' := Import(s, graph);
      && s'.edgeStats == Erased(s.edgeStats)
      && s'.functionStats == (map f | f in s.functionStats :: Fresh(WithAverages(c, s.functionStats[f])))
      && (forall a, b :: (Linked(s', a, b) <==> Recorded(s, a, b)) && (LinkedBack(s', a, b) <==> Recorded(s, a, b)))
      && s'.contexts == s.contexts && s'.lastAccess == s.lastAccess && s'.startTime == s.startTime
      && KeysMatch(s') && Agreement(s')
  {
    var s' := Import(s, graph);
    ImportKeepsTables(s, graph);
    RoundTripEdges(c, s, graph);
    forall a, b ensures (Linked(s', a, b) <==> Recorded(s, a, b)) && (LinkedBack(s', a, b) <==> Recorded(s, a, b)) {
      RoundTripLinks(c, s, graph, a, b);
    }
    ErasedAgrees(s, s');
  }

  /** Indexes that follow the table of an erased copy follow the table of the original. */
  lemma ErasedAgrees(s: State, s': State)
    requires KeysMatch(s) && s'.edgeStats == Erased(s.edgeStats)
    requires forall a, b :: Linked(s', a, b) <==> Recorded(s, a, b)
    requires forall a, b :: LinkedBack(s', a, b) <==> Recorded(s, a, b)
    ensures KeysMatch(s') && Agreement(s')
  {
    forall a, b ensures (Linked(s', a, b) <==> LinkedBack(s', a, b)) && (Linked(s', a, b) <==> Recorded(s', a, b)) {
      assert Recorded(s', a, b) <==> Recorded(s, a, b);
    }
  }

  lemma RoundTripEdges(c: Config, s: State, graph: Graph)
    requires KeysMatch(s) && Exports(c, s, graph)
    ensures Import(s, graph).edgeStats == Erased(s.edgeStats)
  {
    var s' := Import(s, graph);
    ExportComesFromTable(c, s, graph);
    ImportedEdgeTable(Restarted(s, graph), graph.edges, s.edgeStats);
    forall k | k in s.edgeStats ensures k in s'.edgeStats {
      var e := Aggregate(c, s.edgeStats[k]);
      var i :| 0 <= i < |graph.edges| && graph.edges[i] == e;
      assert EdgeKey(graph.edges[i].caller, graph.edges[i].callee) in s'.edgeStats;
    }
  }

  lemma RoundTripLinks(c: Config, s: State, graph: Graph, a: string, b: string)
    requires KeysMatch(s) && Exports(c, s, graph)
    ensures Linked(Import(s, graph), a, b) <==> Recorded(s, a, b)
    ensures LinkedBack(Import(s, graph), a, b) <==> Recorded(s, a, b)
  {
    ExportComesFromTable(c, s, graph);
    ImportedLinks(Restarted(s, graph), graph.edges, a, b);
  }

  /** Both indexes name the same edges. */
  ghost predicate SameLinks(s: State, s': State) {
    && (forall a, b :: Linked(s', a, b) <==> Linked(s, a, b))
    && (forall a, b :: LinkedBack(s', a, b) <==> LinkedBack(s, a, b))
  }

  lemma SameLinksIffAgreement(s: State, s': State)
    requires forall a, b :: Linked(s', a, b) <==> Recorded(s, a, b)
    requires forall a, b :: LinkedBack(s', a, b) <==> Recorded(s, a, b)
    ensures SameLinks(s, s') <==> Agreement(s)
  {
    if Agreement(s) {
      forall a, b ensures (Linked(s', a, b) <==> Linked(s, a, b)) && (LinkedBack(s', a, b) <==> LinkedBack(s, a, b)) {
        assert Linked(s, a, b) <==> Recorded(s, a, b);
        assert Linked(s, a, b) <==> LinkedBack(s, a, b);
      }
    }
    if SameLinks(s, s') {
      forall a, b ensures (Linked(s, a, b) <==> LinkedBack(s, a, b)) && (Linked(s, a, b) <==> Recorded(s, a, b)) {
        assert Linked(s', a, b) <==> Linked(s, a, b);
        assert LinkedBack(s', a, b) <==> LinkedBack(s, a, b);
      }
    }
  }

  /** The indexes come back as they were if and only if they agreed with the edge table. */
  lemma RoundTripKeepsIndexes(c: Config, events: seq<Event>, graph: Graph)
    requires Exports(c, Replay(c, events), graph)
    ensures SameLinks(Replay(c, events), Import(Replay(c, events), graph)) <==> Agreement(Replay(c, events))
  {
    KeysAlwaysMatch(c, events);
    RoundTrip(c, Replay(c, events), graph);
    SameLinksIffAgreement(Replay(c, events), Import(Replay(c, events), graph));
  }

  /** The graph with all averages set to zero. */
  ghost predicate AveragesErased(g: Graph, h: Graph) {
    && |h.edges| == |g.edges|
    && (forall i :: 0 <= i < |g.edges| ==> h.edges[i] == g.edges[i].(average := 0))
    && h.functions.Keys == g.functions.Keys
    && (forall f :: f in g.functions ==>
          h.functions[f] == Fresh(g.functions[f]).(avgExecutionTime := 0, avgColdStartDuration := 0))
    && h.totalCalls == g.totalCalls && h.recordedSince == g.recordedSince
  }

  lemma {:induction false} SameCalls(stats: map<string, FunctionStats>, stats': map<string, FunctionStats>,
                                     names: set<string>)
    requires names <= stats.Keys && names <= stats'.Keys
    requires forall f :: f in names ==> stats'[f].totalCalls == stats[f].totalCalls
    ensures CallsOf(stats', names) == CallsOf(stats, names)
  {
    if names != {} {
      var f :| f in names;
      CallsInAnyOrder(stats, names, f);
      CallsInAnyOrder(stats', names, f);
      SameCalls(stats, stats', names - {f});
    }
  }

  function EraseAverage(edge: AggregatedEdge): AggregatedEdge {
    edge.(average := 0)
  }

  function EraseAll(edges: seq<AggregatedEdge>): (erased: seq<AggregatedEdge>)
    ensures |erased| == |edges| && forall i :: 0 <= i < |edges| ==> erased[i] == EraseAverage(edges[i])
  {
    if edges == [] then [] else [EraseAverage(edges[0])] + EraseAll(edges[1..])
  }

  lemma ReexportedEdges(c: Config, s: State, g: Graph, s': State, h: Graph)
    requires Exports(c, s, g) && Exports(c, s', h) && s'.edgeStats == Erased(s.edgeStats)
    ensures h.edges == EraseAll(g.edges)
  {
    var erased := EraseAll(g.edges);
    assert Sorted(erased) by {
      forall i, j | 0 <= i < j < |erased| ensures EdgeBefore(erased[i], erased[j]) {
        assert EdgeBefore(g.edges[i], g.edges[j]);
      }
    }
    forall e ensures e in h.edges <==> e in erased {
      if e in h.edges { ReexportedIsErased(c, s, g, s', h, e); }
      if e in erased { ErasedIsReexported(c, s, g, s', h, e); }
    }
    SortedIsUnique(h.edges, erased);
  }

  lemma ReexportedIsErased(c: Config, s: State, g: Graph, s': State, h: Graph, e: AggregatedEdge)
    requires Exports(c, s, g) && Exports(c, s', h) && s'.edgeStats == Erased(s.edgeStats) && e in h.edges
    ensures e in EraseAll(g.edges)
  {
    var k :| k in s'.edgeStats && e == Aggregate(c, s'.edgeStats[k]);
    var i :| 0 <= i < |g.edges| && g.edges[i] == Aggregate(c, s.edgeStats[k]);
    NoSamplesNoAverage(c);
    assert EraseAll(g.edges)[i] == e;
  }

  lemma ErasedIsReexported(c: Config, s: State, g: Graph, s': State, h: Graph, e: AggregatedEdge)
    requires Exports(c, s, g) && Exports(c, s', h) && s'.edgeStats == Erased(s.edgeStats) && e in EraseAll(g.edges)
    ensures e in h.edges
  {
    var i :| 0 <= i < |g.edges| && EraseAll(g.edges)[i] == e;
    assert g.edges[i] in g.edges;
    var k :| k in s.edgeStats && g.edges[i] == Aggregate(c, s.edgeStats[k]);
    NoSamplesNoAverage(c);
    assert k in s'.edgeStats && e == Aggregate(c, s'.edgeStats[k]);
  }

  lemma NoSamplesNoAverage(c: Config)
    ensures Average(c.averaging, []) == 0
  {
  }

  /** The graph exported after a round trip is the first one with only its averages, and
      the samples behind them, erased. */
  lemma ReexportErasesAveragesOnly(c: Config, s: State, g: Graph, h: Graph)
    requires KeysMatch(s) && Exports(c, s, g) && Exports(c, Import(s, g), h)
    ensures AveragesErased(g, h)
  {
    var s' := Import(s, g);
    RoundTrip(c, s, g);
    NoSamplesNoAverage(c);
    ReexportedEdges(c, s, g, s', h);
    assert s'.functionStats.Keys == s.functionStats.Keys;
    SameCalls(s.functionStats, s'.functionStats, s.functionStats.Keys);
  }

  lemma ErasingTwice(g: Graph, h: Graph, i: Graph)
    requires AveragesErased(g, h) && AveragesErased(h, i)
    ensures i == h
  {
    forall n | 0 <= n < |h.edges| ensures i.edges[n] == h.edges[n] {
      assert h.edges[n] == g.edges[n].(average := 0);
    }
    assert i.edges == h.edges;
    forall f | f in h.functions ensures i.functions[f] == h.functions[f] {
      assert h.functions[f] == Fresh(g.functions[f]).(avgExecutionTime := 0, avgColdStartDuration := 0);
    }
    assert i.functions == h.functions;
  }

  /** A second round trip changes nothing. */
  lemma SecondRoundTripIsIdentity(c: Config, s: State, g: Graph, h: Graph, i: Graph)
    requires KeysMatch(s) && Exports(c, s, g) && Exports(c, Import(s, g), h)
    requires Exports(c, Import(Import(s, g), h), i)
    ensures i == h
  {
    RoundTrip(c, s, g);
    ReexportErasesAveragesOnly(c, s, g, h);
    ReexportErasesAveragesOnly(c, Import(s, g), h, i);
    ErasingTwice(g, h, i);
  }
}
