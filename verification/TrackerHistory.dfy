/** The tracker under any sequence of operations: the tables describe one call graph. */
module TrackerHistory {
  import opened EdgeKeys
  import opened CallGraph

  datatype Event =
    | Started(f: string, request: string, execution: string, timestamp: int, now: int)
    | Called(caller: string, callee: string, request: string, execution: string, timestamp: int, kind: EdgeKind)
    | Ended(f: string, request: string, execution: string, timestamp: int, now: int)
    | CleanedUp(now: int)
    | ScaledUp(f: string, timestamp: int, duration: int, cold: bool)
    | ScaledDown(f: string)
    | Redeployed(f: string, now: int)
    | Deleted(f: string)
    | Cleared(now: int)
    | Imported(graph: Graph)

  function Apply(c: Config, s: State, event: Event): State {
    match event
    case Started(f, r, x, ts, now) => StartExecution(c, s, f, r, x, ts, now)
    case Called(caller, callee, r, x, ts, kind) => RecordEdge(c, s, caller, callee, r, x, ts, kind)
    case Ended(f, r, x, ts, now) => EndExecution(c, s, f, r, x, ts, now)
    case CleanedUp(now) => CleanupStaleContexts(c, s, now)
    case ScaledUp(f, ts, duration, cold) => RecordScaleUp(c, s, f, ts, duration, cold)
    case ScaledDown(f) => RecordScaleDown(c, s, f)
    case Redeployed(f, now) => ResetFunctionStats(c, s, f, now)
    case Deleted(f) => ClearFunctionData(c, s, f)
    case Cleared(now) => EmptyState(now)
    case Imported(graph) => Import(s, graph)
  }

  /** The state after the events, from a new tracker. */
  function Replay(c: Config, events: seq<Event>): State {
    if events == [] then EmptyState(0) else Apply(c, Replay(c, events[..|events| - 1]), events[|events| - 1])
  }

  // ---- The two indexes and the edge table ----

  predicate Linked(s: State, a: string, b: string) {
    b in Lookup(s.callerToCallees, a)
  }

  predicate LinkedBack(s: State, a: string, b: string) {
    a in Lookup(s.calleeToCallers, b)
  }

  /** The edge table holds the edge from a to b, under that name. */
  predicate Recorded(s: State, a: string, b: string) {
    var key := EdgeKey(a, b);
    key in s.edgeStats && s.edgeStats[key].caller == a && s.edgeStats[key].callee == b
  }

  ghost predicate KeysMatch(s: State) {
    forall k :: k in s.edgeStats ==> k == EdgeKey(s.edgeStats[k].caller, s.edgeStats[k].callee)
  }

  ghost predicate Agreement(s: State) {
    && (forall a, b :: Linked(s, a, b) <==> LinkedBack(s, a, b))
    && (forall a, b :: Linked(s, a, b) <==> Recorded(s, a, b))
  }

  ghost predicate GraphOk(s: State) {
    KeysMatch(s) && Agreement(s)
  }

  // ---- Collisions ----

  /** No edge of another name sits under the key of the edge from a to b. */
  predicate Vacant(s: State, a: string, b: string) {
    EdgeKey(a, b) in s.edgeStats ==> Recorded(s, a, b)
  }

  predicate ShareKey(x: AggregatedEdge, y: AggregatedEdge) {
    EdgeKey(x.caller, x.callee) == EdgeKey(y.caller, y.callee) && (x.caller != y.caller || x.callee != y.callee)
  }

  predicate NoSharedKeys(edges: seq<AggregatedEdge>) {
    forall i, j :: 0 <= i < j < |edges| ==> !ShareKey(edges[i], edges[j])
  }

  /** The event is an accepted call whose key another edge holds, or an import of two edges
      that share a key. */
  predicate Collides(c: Config, s: State, event: Event) {
    match event
    case Called(caller, callee, request, execution, timestamp, _) =>
      Accepted(c, s, caller, callee, request, execution, timestamp).Some? && !Vacant(s, caller, callee)
    case Imported(graph) => !NoSharedKeys(graph.edges)
    case _ => false
  }

  ghost predicate NoCollision(c: Config, events: seq<Event>) {
    forall i :: 0 <= i < |events| ==> !Collides(c, Replay(c, events[..i]), events[i])
  }

  lemma LastCollision(c: Config, events: seq<Event>)
    requires events != []
    ensures var before, last := events[..|events| - 1], events[|events| - 1];
      NoCollision(c, events) <==> NoCollision(c, before) && !Collides(c, Replay(c, before), last)
  {
    var before := events[..|events| - 1];
    forall i | 0 <= i < |before| ensures before[..i] == events[..i] && before[i] == events[i] {
    }
    if NoCollision(c, before) && !Collides(c, Replay(c, before), events[|events| - 1]) {
      forall i | 0 <= i < |events| ensures !Collides(c, Replay(c, events[..i]), events[i]) {
        assert i < |before| ==> before[..i] == events[..i] && before[i] == events[i];
      }
    }
    if NoCollision(c, events) {
      forall i | 0 <= i < |before| ensures !Collides(c, Replay(c, before[..i]), before[i]) {
        assert before[..i] == events[..i] && before[i] == events[i];
      }
    }
  }

  lemma IncludeLookup<T>(m: map<string, set<T>>, key: string, element: T)
    ensures forall k ::
              Lookup(Include(m, key, element), k) == if k == key then Lookup(m, k) + {element} else Lookup(m, k)
  {
  }

  /** Recording an edge, whether from a call or from an import, keeps the agreement. */
  lemma NewEdgeKeepsGraph(s: State, s': State, a: string, b: string, edge: EdgeStat)
    requires GraphOk(s) && Vacant(s, a, b) && edge.caller == a && edge.callee == b
    requires s'.edgeStats == s.edgeStats[EdgeKey(a, b) := edge]
    requires s'.callerToCallees == Include(s.callerToCallees, a, b)
    requires s'.calleeToCallers == Include(s.calleeToCallers, b, a)
    ensures GraphOk(s')
    ensures forall x, y :: Recorded(s', x, y) <==> Recorded(s, x, y) || (x == a && y == b)
  {
    IncludeLookup(s.callerToCallees, a, b);
    IncludeLookup(s.calleeToCallers, b, a);
    forall x, y ensures Recorded(s', x, y) <==> Recorded(s, x, y) || (x == a && y == b) {
      assert Recorded(s, x, y) && EdgeKey(x, y) == EdgeKey(a, b) ==> Recorded(s, a, b);
    }
    forall x, y ensures Linked(s', x, y) <==> LinkedBack(s', x, y) {
      assert Linked(s, x, y) <==> LinkedBack(s, x, y);
    }
    forall x, y ensures Linked(s', x, y) <==> Recorded(s', x, y) {
      assert Linked(s, x, y) <==> Recorded(s, x, y);
    }
  }

  lemma AddSampleKeepsGraph(s: State, a: string, b: string, kind: EdgeKind, time: int)
    requires GraphOk(s) && Vacant(s, a, b)
    ensures GraphOk(AddSample(s, a, b, kind, time))
  {
    var s' := AddSample(s, a, b, kind, time);
    NewEdgeKeepsGraph(s, s', a, b, s'.edgeStats[EdgeKey(a, b)]);
  }

  /** Every edge of the table was imported under its own names. */
  lemma {:induction false} ImportedFrom(s: State, edges: seq<AggregatedEdge>, k: string) returns (i: nat)
    requires s.edgeStats == map[] && k in ImportEdges(s, edges).edgeStats
    ensures i < |edges| && k == EdgeKey(edges[i].caller, edges[i].callee)
    ensures ImportEdges(s, edges).edgeStats[k] == ImportedEdge(edges[i])
    ensures forall j :: i < j < |edges| ==> EdgeKey(edges[j].caller, edges[j].callee) != k
  {
    var last := |edges| - 1;
    if k == EdgeKey(edges[last].caller, edges[last].callee) {
      i := last;
    } else {
      i := ImportedFrom(s, edges[..last], k);
    }
  }

  lemma {:induction false} ImportEdgesKeepsGraph(s: State, edges: seq<AggregatedEdge>)
    requires GraphOk(s) && s.edgeStats == map[] && NoSharedKeys(edges)
    ensures GraphOk(ImportEdges(s, edges))
  {
    if edges != [] {
      var earlier, last := edges[..|edges| - 1], edges[|edges| - 1];
      var before := ImportEdges(s, earlier);
      ImportEdgesKeepsGraph(s, earlier);
      if EdgeKey(last.caller, last.callee) in before.edgeStats {
        var i := ImportedFrom(s, earlier, EdgeKey(last.caller, last.callee));
        assert !ShareKey(edges[i], edges[|edges| - 1]);
      }
      NewEdgeKeepsGraph(before, AddImported(before, last), last.caller, last.callee, ImportedEdge(last));
    }
  }

  // ---- The links of an import ----

  predicate HasPair(edges: seq<AggregatedEdge>, a: string, b: string) {
    exists i :: 0 <= i < |edges| && edges[i].caller == a && edges[i].callee == b
  }

  lemma PairsGrow(edges: seq<AggregatedEdge>, a: string, b: string)
    requires edges != []
    ensures var last := edges[|edges| - 1];
      HasPair(edges, a, b) <==> HasPair(edges[..|edges| - 1], a, b) || (last.caller == a && last.callee == b)
  {
    var before := edges[..|edges| - 1];
    if HasPair(before, a, b) {
      var i :| 0 <= i < |before| && before[i].caller == a && before[i].callee == b;
      assert edges[i].caller == a && edges[i].callee == b;
    }
  }

  lemma {:induction false} ImportedLinks(s: State, edges: seq<AggregatedEdge>, a: string, b: string)
    requires s.callerToCallees == map[] && s.calleeToCallers == map[]
    ensures Linked(ImportEdges(s, edges), a, b) <==> HasPair(edges, a, b)
    ensures LinkedBack(ImportEdges(s, edges), a, b) <==> HasPair(edges, a, b)
  {
    if edges != [] {
      var last := edges[|edges| - 1];
      var s1 := ImportEdges(s, edges[..|edges| - 1]);
      ImportedLinks(s, edges[..|edges| - 1], a, b);
      IncludeLookup(s1.callerToCallees, last.caller, last.callee);
      IncludeLookup(s1.calleeToCallers, last.callee, last.caller);
      PairsGrow(edges, a, b);
    }
  }

  // ---- Deletion is a filter ----

  predicate Mentions(edge: EdgeStat, f: string) {
    edge.caller == f || edge.callee == f
  }

  function WithoutFunction(edges: map<string, EdgeStat>, f: string): map<string, EdgeStat> {
    map k | k in edges && !Mentions(edges[k], f) :: edges[k]
  }

  lemma ClearedEdges(s: State, f: string, k: string)
    requires GraphOk(s) && k in s.edgeStats
    ensures k in ClearEdges(s, f).edgeStats <==> !Mentions(s.edgeStats[k], f)
  {
    var a, b := s.edgeStats[k].caller, s.edgeStats[k].callee;
    var callees := Lookup(s.callerToCallees, f);
    var callers := Lookup(s.calleeToCallers, f) - (if f in callees then {f} else {});
    var fromF := set callee | callee in callees :: EdgeKey(f, callee);
    var toF := set caller | caller in callers :: EdgeKey(caller, f);
    assert Recorded(s, a, b) && Linked(s, a, b) && LinkedBack(s, a, b);
    if a == f { assert k in fromF; }
    if b == f && a != f { assert a in callers && k in toF; }
    if k in fromF {
      var callee :| callee in callees && k == EdgeKey(f, callee);
      assert Linked(s, f, callee) && Recorded(s, f, callee);
    }
    if k in toF {
      var caller :| caller in callers && k == EdgeKey(caller, f);
      assert LinkedBack(s, caller, f) && Linked(s, caller, f) && Recorded(s, caller, f);
    }
  }

  lemma ClearEdgesIsFilter(s: State, f: string)
    requires GraphOk(s)
    ensures var s' := ClearEdges(s, f);
      && s'.edgeStats == WithoutFunction(s.edgeStats, f)
      && (forall a, b :: Linked(s', a, b) <==> Linked(s, a, b) && a != f && b != f)
      && (forall a, b :: LinkedBack(s', a, b) <==> LinkedBack(s, a, b) && a != f && b != f)
      && f !in s'.callerToCallees && f !in s'.calleeToCallers
  {
    var s' := ClearEdges(s, f);
    forall k | k in s.edgeStats ensures k in s'.edgeStats <==> !Mentions(s.edgeStats[k], f) {
      ClearedEdges(s, f, k);
    }
    assert forall k :: k in s'.edgeStats ==> k in s.edgeStats && s'.edgeStats[k] == s.edgeStats[k];
    forall a, b ensures Linked(s', a, b) <==> Linked(s, a, b) && a != f && b != f {
      assert Linked(s, a, b) <==> LinkedBack(s, a, b);
      assert Linked(s, f, f) <==> LinkedBack(s, f, f);
    }
    forall a, b ensures LinkedBack(s', a, b) <==> LinkedBack(s, a, b) && a != f && b != f {
      assert Linked(s, a, b) <==> LinkedBack(s, a, b);
    }
  }

  // ---- Execution contexts ----

  /** Both request maps have the same domain and no request has an empty table. */
  ghost predicate ContextsOk(s: State) {
    && s.lastAccess.Keys == s.contexts.Keys
    && forall r :: r in s.contexts ==> s.contexts[r] != map[]
  }

  lemma ClearContextsIsFilter(s: State, f: string)
    requires ContextsOk(s)
    ensures var s' := ClearContexts(s, f);
      && ContextsOk(s')
      && (forall r, x :: Known(s', r, x) ==
            if Known(s, r, x).Some? && Known(s, r, x).value.functionName == f then None else Known(s, r, x))
      && (forall r :: r in s'.lastAccess ==> s'.lastAccess[r] == s.lastAccess[r])
  {
    var s' := ClearContexts(s, f);
    forall r | r in s'.contexts ensures s'.contexts[r] != map[] {
      var x :| x in s.contexts[r] && s.contexts[r][x].functionName != f;
      assert x in Others(s.contexts[r], f);
    }
    assert s'.lastAccess.Keys == s'.contexts.Keys;
    forall r, x ensures Known(s', r, x) ==
      if Known(s, r, x).Some? && Known(s, r, x).value.functionName == f then None else Known(s, r, x)
    {
      if Known(s, r, x).Some? && Known(s, r, x).value.functionName != f {
        assert !OnlyOf(s.contexts[r], f);
        assert x in Others(s.contexts[r], f);
      }
    }
  }

  // ---- Every operation ----

  lemma ApplyKeepsContexts(c: Config, s: State, event: Event)
    requires ContextsOk(s)
    ensures ContextsOk(Apply(c, s, event))
  {
    match event
    case Deleted(f) =>
      if c.enabled && f != "" {
        ClearContextsIsFilter(ClearEdges(s.(functionStats := s.functionStats - {f}), f), f);
      }
    case Imported(graph) => ImportKeepsTables(s, graph);
    case Started(f, r, x, _, _) =>
      assert r in Apply(c, s, event).contexts && s != Apply(c, s, event) ==> x in Apply(c, s, event).contexts[r];
    case Ended(f, r, x, _, _) =>
      assert r in Apply(c, s, event).contexts && Known(s, r, x).Some? ==> x in Apply(c, s, event).contexts[r];
    case _ =>
  }

  lemma {:induction false} ImportEdgesKeepsTables(s: State, edges: seq<AggregatedEdge>)
    ensures var s' := ImportEdges(s, edges);
      && s'.contexts == s.contexts && s'.lastAccess == s.lastAccess
      && s'.functionStats == s.functionStats && s'.startTime == s.startTime
  {
    if edges != [] {
      ImportEdgesKeepsTables(s, edges[..|edges| - 1]);
    }
  }

  lemma ImportKeepsTables(s: State, graph: Graph)
    ensures var s' := Import(s, graph);
      && s'.contexts == s.contexts && s'.lastAccess == s.lastAccess && s'.startTime == graph.recordedSince
      && s'.functionStats == map f | f in graph.functions :: Fresh(graph.functions[f])
  {
    ImportEdgesKeepsTables(Restarted(s, graph), graph.edges);
  }

  lemma SameEdgesKeepGraph(s: State, s': State)
    requires GraphOk(s) && s'.edgeStats == s.edgeStats
    requires s'.callerToCallees == s.callerToCallees && s'.calleeToCallers == s.calleeToCallers
    ensures GraphOk(s')
  {
    forall a, b ensures (Linked(s', a, b) <==> LinkedBack(s', a, b)) && (Linked(s', a, b) <==> Recorded(s', a, b)) {
      assert (Linked(s, a, b) <==> LinkedBack(s, a, b)) && (Linked(s, a, b) <==> Recorded(s, a, b));
    }
  }

  lemma ClearEdgesKeepsGraph(s: State, f: string)
    requires GraphOk(s)
    ensures GraphOk(ClearEdges(s, f))
  {
    var s' := ClearEdges(s, f);
    ClearEdgesIsFilter(s, f);
    forall a, b ensures (Linked(s', a, b) <==> LinkedBack(s', a, b)) && (Linked(s', a, b) <==> Recorded(s', a, b)) {
      assert (Linked(s, a, b) <==> LinkedBack(s, a, b)) && (Linked(s, a, b) <==> Recorded(s, a, b));
    }
  }

  lemma ApplyKeepsGraph(c: Config, s: State, event: Event)
    requires GraphOk(s) && !Collides(c, s, event)
    ensures GraphOk(Apply(c, s, event))
  {
    match event
    case Called(caller, callee, r, x, ts, kind) =>
      match Accepted(c, s, caller, callee, r, x, ts) {
        case None =>
        case Some(time) => AddSampleKeepsGraph(s, caller, callee, kind, time);
      }
    case Deleted(f) =>
      if c.enabled && f != "" {
        var s1 := s.(functionStats := s.functionStats - {f});
        SameEdgesKeepGraph(s, s1);
        ClearEdgesKeepsGraph(s1, f);
        SameEdgesKeepGraph(ClearEdges(s1, f), ClearContexts(ClearEdges(s1, f), f));
      }
    case Imported(graph) =>
      ImportEdgesKeepsGraph(Restarted(s, graph), graph.edges);
    case Cleared(_) =>
    case _ => SameEdgesKeepGraph(s, Apply(c, s, event));
  }

  /** After a collision an index names an edge that the table holds under another name. */
  lemma CollisionBreaksAgreement(c: Config, s: State, event: Event)
    requires Collides(c, s, event)
    ensures !Agreement(Apply(c, s, event))
  {
    var s' := Apply(c, s, event);
    match event
    case Called(a, b, _, _, _, _) =>
      assert Linked(s', a, b) && !Recorded(s', a, b);
    case Imported(graph) =>
      var i, j :| 0 <= i < j < |graph.edges| && ShareKey(graph.edges[i], graph.edges[j]);
      var x, y := graph.edges[i], graph.edges[j];
      assert HasPair(graph.edges, x.caller, x.callee) && HasPair(graph.edges, y.caller, y.callee);
      ImportedLinks(Restarted(s, graph), graph.edges, x.caller, x.callee);
      ImportedLinks(Restarted(s, graph), graph.edges, y.caller, y.callee);
      assert !(Recorded(s', x.caller, x.callee) && Recorded(s', y.caller, y.callee));
  }

  lemma {:induction false} NoCollisionKeepsGraph(c: Config, events: seq<Event>)
    requires NoCollision(c, events)
    ensures GraphOk(Replay(c, events))
  {
    if events != [] {
      LastCollision(c, events);
      NoCollisionKeepsGraph(c, events[..|events| - 1]);
      ApplyKeepsGraph(c, Replay(c, events[..|events| - 1]), events[|events| - 1]);
    }
  }

  /** The two adjacency indexes and the edge table agree after every one of the events. */
  ghost predicate AlwaysAgrees(c: Config, events: seq<Event>) {
    forall i :: 0 <= i <= |events| ==> Agreement(Replay(c, events[..i]))
  }

  /** Exactly when the indexes and the edge table hold the same edges under the same names
      all the time: if and only if no event collides. */
  lemma AgreementIffNoCollision(c: Config, events: seq<Event>)
    ensures AlwaysAgrees(c, events) <==> NoCollision(c, events)
  {
    if NoCollision(c, events) {
      forall i | 0 <= i <= |events| ensures Agreement(Replay(c, events[..i])) {
        assert NoCollision(c, events[..i]) by {
          forall j | 0 <= j < i ensures !Collides(c, Replay(c, events[..i][..j]), events[..i][j]) {
            assert events[..i][..j] == events[..j];
          }
        }
        NoCollisionKeepsGraph(c, events[..i]);
      }
    } else {
      var i :| 0 <= i < |events| && Collides(c, Replay(c, events[..i]), events[i]);
      CollisionBreaksAgreement(c, Replay(c, events[..i]), events[i]);
      assert events[..i + 1][..i] == events[..i];
      assert Replay(c, events[..i + 1]) == Apply(c, Replay(c, events[..i]), events[i]);
    }
  }

  // ---- Callers without an arrow ----

  /** No caller that the event brings in contains an arrow. */
  predicate CleanEvent(event: Event) {
    && (event.Called? ==> Clean(event.caller))
    && (event.Imported? ==> forall i :: 0 <= i < |event.graph.edges| ==> Clean(event.graph.edges[i].caller))
  }

  ghost predicate CleanHistory(events: seq<Event>) {
    forall i :: 0 <= i < |events| ==> CleanEvent(events[i])
  }

  ghost predicate CleanCallers(s: State) {
    forall k :: k in s.edgeStats ==> Clean(s.edgeStats[k].caller)
  }

  lemma CleanEventKeepsCallers(c: Config, s: State, event: Event)
    requires CleanCallers(s) && CleanEvent(event)
    ensures CleanCallers(Apply(c, s, event))
  {
    if event.Imported? {
      var s' := Apply(c, s, event);
      forall k | k in s'.edgeStats ensures Clean(s'.edgeStats[k].caller) {
        var i := ImportedFrom(Restarted(s, event.graph), event.graph.edges, k);
      }
    }
  }

  lemma CleanEventsDoNotCollide(c: Config, s: State, event: Event)
    requires KeysMatch(s) && CleanCallers(s) && CleanEvent(event)
    ensures !Collides(c, s, event)
  {
    if Collides(c, s, event) {
      if event.Called? {
        var key := EdgeKey(event.caller, event.callee);
        KeyIsInjective(event.caller, event.callee, s.edgeStats[key].caller, s.edgeStats[key].callee);
      } else {
        var edges := event.graph.edges;
        var i, j :| 0 <= i < j < |edges| && ShareKey(edges[i], edges[j]);
        KeyIsInjective(edges[i].caller, edges[i].callee, edges[j].caller, edges[j].callee);
      }
    }
  }

  lemma {:induction false} CleanHistoryHasNoCollision(c: Config, events: seq<Event>)
    requires CleanHistory(events)
    ensures NoCollision(c, events) && CleanCallers(Replay(c, events))
  {
    if events != [] {
      var before, last := events[..|events| - 1], events[|events| - 1];
      CleanHistoryHasNoCollision(c, before);
      NoCollisionKeepsGraph(c, before);
      CleanEventsDoNotCollide(c, Replay(c, before), last);
      CleanEventKeepsCallers(c, Replay(c, before), last);
      LastCollision(c, events);
    }
  }

  /** In particular, after any operations whose callers are free of "->", the two adjacency
      indexes and the edge table hold the same edges under the same names. */
  lemma IndexesAgree(c: Config, events: seq<Event>)
    requires CleanHistory(events)
    ensures GraphOk(Replay(c, events))
    ensures var s := Replay(c, events); forall a, b ::
      && (b in Lookup(s.callerToCallees, a) <==> a in Lookup(s.calleeToCallers, b))
      && (b in Lookup(s.callerToCallees, a) <==> Recorded(s, a, b))
  {
    CleanHistoryHasNoCollision(c, events);
    NoCollisionKeepsGraph(c, events);
    var s := Replay(c, events);
    forall a, b ensures
      && (b in Lookup(s.callerToCallees, a) <==> a in Lookup(s.calleeToCallers, b))
      && (b in Lookup(s.callerToCallees, a) <==> Recorded(s, a, b))
    {
      assert (Linked(s, a, b) <==> LinkedBack(s, a, b)) && (Linked(s, a, b) <==> Recorded(s, a, b));
    }
  }

  /** Context tables stay paired and nonempty under any operations at all. */
  lemma {:induction false} ContextsStayPaired(c: Config, events: seq<Event>)
    ensures ContextsOk(Replay(c, events))
  {
    if events != [] {
      ContextsStayPaired(c, events[..|events| - 1]);
      ApplyKeepsContexts(c, Replay(c, events[..|events| - 1]), events[|events| - 1]);
    }
  }

  /** ClearFunctionData removes exactly what mentions the function: its statistics, its
      edges and adjacencies in both directions, its executions; nothing else changes. */
  lemma DeletionIsFilter(c: Config, events: seq<Event>, f: string)
    requires NoCollision(c, events) && c.enabled && f != ""
    ensures var s, s' := Replay(c, events), Replay(c, events + [Deleted(f)]);
      && s'.functionStats == s.functionStats - {f}
      && s'.edgeStats == WithoutFunction(s.edgeStats, f)
      && (forall a, b :: Linked(s', a, b) <==> Linked(s, a, b) && a != f && b != f)
      && (forall a, b :: LinkedBack(s', a, b) <==> LinkedBack(s, a, b) && a != f && b != f)
      && (forall r, x :: Known(s', r, x) ==
            if Known(s, r, x).Some? && Known(s, r, x).value.functionName == f then None else Known(s, r, x))
      && s'.lastAccess.Keys == s'.contexts.Keys
      && (forall r :: r in s'.lastAccess ==> s'.lastAccess[r] == s.lastAccess[r])
      && s'.startTime == s.startTime
  {
    var s := Replay(c, events);
    assert (events + [Deleted(f)])[..|events|] == events;
    NoCollisionKeepsGraph(c, events);
    ContextsStayPaired(c, events);
    var s1 := s.(functionStats := s.functionStats - {f});
    SameEdgesKeepGraph(s, s1);
    ClearEdgesIsFilter(s1, f);
    var s2 := ClearEdges(s1, f);
    ClearContextsIsFilter(s2, f);
    var s3 := ClearContexts(s2, f);
    forall a, b ensures Linked(s3, a, b) <==> Linked(s, a, b) && a != f && b != f {
      assert Linked(s2, a, b) <==> Linked(s1, a, b) && a != f && b != f;
    }
    forall a, b ensures LinkedBack(s3, a, b) <==> LinkedBack(s, a, b) && a != f && b != f {
      assert LinkedBack(s2, a, b) <==> LinkedBack(s1, a, b) && a != f && b != f;
    }
    forall r, x ensures Known(s3, r, x) ==
      if Known(s, r, x).Some? && Known(s, r, x).value.functionName == f then None else Known(s, r, x)
    {
      assert Known(s2, r, x) == Known(s, r, x);
    }
  }

  /** An arrow in any one caller is enough: recording it and a suitable clean caller leaves
      an index entry without its edge. */
  lemma ArrowCallerBreaksAgreement(c: Config, caller: string) returns (events: seq<Event>)
    requires c.enabled && !Clean(caller)
    ensures |events| == 2 && events[0].Called? && events[0].caller == caller
    ensures events[1].Called? && CleanEvent(events[1])
    ensures !Agreement(Replay(c, events))
  {
    var callee := caller + "x";
    var a, b := UncleanCollides(caller, callee);
    ArrowAt(caller, callee);
    ArrowAt(a, b);
    assert |b| > |caller|;
    events := [Called(caller, callee, "", "", 0, UnknownKind), Called(a, b, "", "", 0, UnknownKind)];
    assert events[..1][..0] == [] && events[..1][0] == events[0];
    var s1 := AddSample(EmptyState(0), caller, callee, UnknownKind, 0);
    assert Replay(c, events[..1]) == s1;
    assert s1.edgeStats[EdgeKey(a, b)].caller == caller;
    CollisionBreaksAgreement(c, s1, events[1]);
    assert Replay(c, events) == Apply(c, s1, events[1]);
  }
}
