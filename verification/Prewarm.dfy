/** Which functions are worth starting ahead of a call, over whole histories. */
module Prewarm {
  import opened Averaging
  import opened Attribution
  import opened EdgeKeys
  import opened CallGraph
  import opened TrackerHistory
  import opened EdgeHistory
  import opened FunctionHistory

  datatype PrewarmTarget = PrewarmTarget(
    functionName: string,
    leadTime: int,
    kind: EdgeKind,
    avgColdStartDuration: int,
    callerColdStartDuration: int)

  /** g is worth prewarming when f starts. */
  predicate IsTarget(c: Config, s: State, f: string, g: string) {
    && c.prewarm
    && g in Lookup(s.callerToCallees, f)
    && EdgeKey(f, g) in s.edgeStats && g in s.functionStats
    && s.edgeStats[EdgeKey(f, g)].count > 0
    && s.functionStats[g].totalColdStarts > 0
    && Average(c.averaging, s.functionStats[g].scaleUpSamples) != 0
  }

  function TargetOf(c: Config, s: State, f: string, g: string): PrewarmTarget
    requires EdgeKey(f, g) in s.edgeStats && g in s.functionStats
  {
    var edge := s.edgeStats[EdgeKey(f, g)];
    var lead := Average(c.averaging, edge.samples);
    PrewarmTarget(g, if lead > 0 then lead else 0, edge.kind,
                  Average(c.averaging, s.functionStats[g].scaleUpSamples),
                  if f in s.functionStats then Average(c.averaging, s.functionStats[f].scaleUpSamples) else 0)
  }

  /** The list names exactly the targets, each once, with its figures. */
  ghost predicate ListsTargets(c: Config, s: State, f: string, targets: seq<PrewarmTarget>) {
    && (forall i, j :: 0 <= i < j < |targets| ==> targets[i].functionName != targets[j].functionName)
    && (forall i :: 0 <= i < |targets| ==>
          IsTarget(c, s, f, targets[i].functionName) && targets[i] == TargetOf(c, s, f, targets[i].functionName))
    && (forall g :: IsTarget(c, s, f, g) ==> TargetOf(c, s, f, g) in targets)
  }

  // ---- Targets in terms of the history ----

  /** A scale-up that was reported: how long it took and whether it was cold. */
  datatype UpReport = UpReport(duration: int, cold: bool)

  /** The reports after one more event. */
  function ReportsAfter(c: Config, reports: seq<UpReport>, event: Event, g: string): seq<UpReport> {
    if StartsOver(c, event, g) then []
    else if event.ScaledUp? && event.f == g && c.enabled && g != ""
    then reports + [UpReport(event.duration, event.cold)]
    else reports
  }

  /** The scale-ups of g reported since it was last redeployed or deleted, or everything
      cleared or imported. This reads the events only, not the tracker. */
  function Reported(c: Config, events: seq<Event>, g: string): seq<UpReport> {
    if events == [] then []
    else ReportsAfter(c, Reported(c, events[..|events| - 1], g), events[|events| - 1], g)
  }

  /** The cold starts that the last import brought, unless g was redeployed or deleted
      since. */
  function ImportedColdStarts(c: Config, events: seq<Event>, g: string): int {
    if events == [] then 0
    else
      var last := events[|events| - 1];
      if last.Imported? then if g in last.graph.functions then last.graph.functions[g].totalColdStarts else 0
      else if StartsOver(c, last, g) then 0
      else ImportedColdStarts(c, events[..|events| - 1], g)
  }

  function Durations(reports: seq<UpReport>): seq<int> {
    if reports == [] then [] else Durations(reports[..|reports| - 1]) + [reports[|reports| - 1].duration]
  }

  function ColdOnes(reports: seq<UpReport>): nat {
    if reports == [] then 0 else ColdOnes(reports[..|reports| - 1]) + if reports[|reports| - 1].cold then 1 else 0
  }

  /** The cold starts of g according to the events. */
  function ColdStarts(c: Config, events: seq<Event>, g: string): int {
    ImportedColdStarts(c, events, g) + ColdOnes(Reported(c, events, g))
  }

  /** The calls from f to g that count. */
  function CallCount(past: Past): int {
    (if past.base.Some? then past.base.value.count else 0) + |past.calls|
  }

  predicate SameUps(uses: seq<Use>, reports: seq<UpReport>) {
    UpTimes(uses) == Durations(reports) && ScaleUps(uses, true) == ColdOnes(reports)
  }

  lemma {:induction false} NextReport(c: Config, before: seq<Event>, life: Life, reports: seq<UpReport>,
                                      event: Event, g: string)
    requires SameUps(life.uses, reports)
    ensures SameUps(LifeAfter(c, before, life, event, g).uses, ReportsAfter(c, reports, event, g))
  {
    var use := UseOf(c, before, event, g);
    if !StartsOver(c, event, g) && use.Some? {
      OneMore(life.uses, use.value);
      if event.ScaledUp? { OneMoreReport(reports, UpReport(event.duration, event.cold)); }
    }
  }

  lemma {:induction false} ReportsAreUses(c: Config, events: seq<Event>, g: string)
    ensures SameUps(LifeOf(c, events, g).uses, Reported(c, events, g))
  {
    if events != [] {
      var before := events[..|events| - 1];
      ReportsAreUses(c, before, g);
      NextReport(c, before, LifeOf(c, before, g), Reported(c, before, g), events[|events| - 1], g);
    }
  }

  lemma {:induction false} ImportedColdStartsAreBase(c: Config, events: seq<Event>, g: string)
    ensures LifeOf(c, events, g).base.totalColdStarts == ImportedColdStarts(c, events, g)
  {
    if events != [] {
      var before := events[..|events| - 1];
      ImportedColdStartsAreBase(c, before, g);
      StatsAreFoldOfHistory(c, before, g);
      TrackedIffListed(c, before, g);
    }
  }

  lemma OneMoreReport(reports: seq<UpReport>, report: UpReport)
    ensures Durations(reports + [report]) == Durations(reports) + [report.duration]
    ensures ColdOnes(reports + [report]) == ColdOnes(reports) + if report.cold then 1 else 0
  {
    var more := reports + [report];
    assert more[..|reports|] == reports && more[|reports|] == report;
  }

  /** In terms of the history: as long as no two edges share a key, g is a target of f if
      and only if the calls from f to g count since either was deleted, g has cold starts
      since it was redeployed or deleted, and the scale-ups of g reported since then and
      since the last import do not average to zero. */
  lemma TargetIffCalledAndCold(c: Config, events: seq<Event>, f: string, g: string)
    requires NoCollision(c, events)
    ensures IsTarget(c, Replay(c, events), f, g) <==>
            && c.prewarm
            && CallCount(History(c, events, f, g)) > 0
            && ColdStarts(c, events, g) > 0
            && Average(c.averaging, Durations(Reported(c, events, g))) != 0
  {
    var s := Replay(c, events);
    NoCollisionKeepsGraph(c, events);
    EdgeIsFoldOfHistory(c, events, f, g);
    assert Linked(s, f, g) <==> Recorded(s, f, g);
    StatsAreFoldOfHistory(c, events, g);
    ReportsAreUses(c, events, g);
    ImportedColdStartsAreBase(c, events, g);
  }

  /** The average of the scale-ups of g that were reported, cold or not. */
  function AverageUp(c: Config, events: seq<Event>, g: string): int {
    Average(c.averaging, Durations(Reported(c, events, g)))
  }

  /** The tracker averages the reported scale-ups; for a function it does not know there
      are none. */
  lemma ReportsAreSamples(c: Config, events: seq<Event>, g: string)
    ensures var s := Replay(c, events);
      Durations(Reported(c, events, g)) == if g in s.functionStats then s.functionStats[g].scaleUpSamples else []
  {
    StatsAreFoldOfHistory(c, events, g);
    ReportsAreUses(c, events, g);
  }

  /** The figures of a target of f follow from the events: the lead time is the average time
      from the start of f to its calls of the target, but never negative; the kind is the
      last one given; and the two cold-start figures are those of the target and of f, in
      this order. */
  ghost predicate FiguresFollow(c: Config, events: seq<Event>, f: string, target: PrewarmTarget) {
    var past := History(c, events, f, target.functionName);
    var lead := Average(c.averaging, Times(past.calls));
    && target.leadTime == (if lead > 0 then lead else 0)
    && target.kind == LastDefiniteKind(past.calls, if past.base.Some? then past.base.value.kind else UnknownKind)
    && target.avgColdStartDuration == AverageUp(c, events, target.functionName)
    && target.callerColdStartDuration == AverageUp(c, events, f)
  }

  lemma {:induction false} FiguresOfTarget(c: Config, events: seq<Event>, f: string, g: string)
    requires NoCollision(c, events) && IsTarget(c, Replay(c, events), f, g)
    ensures FiguresFollow(c, events, f, TargetOf(c, Replay(c, events), f, g))
  {
    var s := Replay(c, events);
    NoCollisionKeepsGraph(c, events);
    EdgeIsFoldOfHistory(c, events, f, g);
    assert Linked(s, f, g) <==> Recorded(s, f, g);
    ReportsAreSamples(c, events, f);
    ReportsAreSamples(c, events, g);
    assert Average(c.averaging, []) == 0;
  }

  /** Every list of targets names each target once, and everything it says about them
      follows from the events. */
  lemma TargetsFollowHistory(c: Config, events: seq<Event>, f: string, targets: seq<PrewarmTarget>)
    requires NoCollision(c, events) && ListsTargets(c, Replay(c, events), f, targets)
    ensures forall i :: 0 <= i < |targets| ==> FiguresFollow(c, events, f, targets[i])
    ensures forall g ::
              (exists i :: 0 <= i < |targets| && targets[i].functionName == g)
              <==> c.prewarm && CallCount(History(c, events, f, g)) > 0 && ColdStarts(c, events, g) > 0
                   && AverageUp(c, events, g) != 0
  {
    var s := Replay(c, events);
    forall i | 0 <= i < |targets| ensures FiguresFollow(c, events, f, targets[i]) {
      FiguresOfTarget(c, events, f, targets[i].functionName);
    }
    forall g ensures (exists i :: 0 <= i < |targets| && targets[i].functionName == g) <==> IsTarget(c, s, f, g) {
      if IsTarget(c, s, f, g) {
        var i :| 0 <= i < |targets| && targets[i] == TargetOf(c, s, f, g);
        assert targets[i].functionName == g;
      }
    }
    forall g ensures IsTarget(c, s, f, g) <==>
      c.prewarm && CallCount(History(c, events, f, g)) > 0 && ColdStarts(c, events, g) > 0
      && AverageUp(c, events, g) != 0
    {
      TargetIffCalledAndCold(c, events, f, g);
    }
  }

  // ---- What it takes to become a target ----

  predicate ScalesUp(event: Event, g: string) {
    event.ScaledUp? && event.f == g
  }

  /** No cold start of g is on record. */
  predicate NeverCold(s: State, g: string) {
    g in s.functionStats ==> s.functionStats[g].totalColdStarts <= 0
  }

  /** No scale-up time of g is on record. */
  predicate NeverTimed(s: State, g: string) {
    g in s.functionStats ==> s.functionStats[g].scaleUpSamples == []
  }

  lemma ApplyKeepsNeverCold(c: Config, s: State, event: Event, g: string)
    requires NeverCold(s, g) && !event.Imported? && !(ScalesUp(event, g) && event.cold)
    ensures NeverCold(Apply(c, s, event), g)
  {
  }

  lemma ApplyKeepsNeverTimed(c: Config, s: State, event: Event, g: string)
    requires NeverTimed(s, g) && !ScalesUp(event, g)
    ensures NeverTimed(Apply(c, s, event), g)
  {
    if event.Imported? {
      ImportKeepsTables(s, event.graph);
    }
  }

  lemma LastEvent(c: Config, events: seq<Event>, event: Event)
    ensures Replay(c, events + [event]) == Apply(c, Replay(c, events), event)
  {
    assert (events + [event])[..|events|] == events;
  }

  lemma {:induction false} StaysCold(c: Config, events: seq<Event>, later: seq<Event>, g: string)
    requires NeverCold(Replay(c, events), g)
    requires forall i :: 0 <= i < |later| ==> !later[i].Imported? && !(ScalesUp(later[i], g) && later[i].cold)
    ensures NeverCold(Replay(c, events + later), g)
  {
    if later == [] {
      assert events + later == events;
    } else {
      var before, last := later[..|later| - 1], later[|later| - 1];
      StaysCold(c, events, before, g);
      assert events + later == (events + before) + [last];
      LastEvent(c, events + before, last);
      ApplyKeepsNeverCold(c, Replay(c, events + before), last, g);
    }
  }

  lemma {:induction false} StaysTimeless(c: Config, events: seq<Event>, later: seq<Event>, g: string)
    requires NeverTimed(Replay(c, events), g)
    requires forall i :: 0 <= i < |later| ==> !ScalesUp(later[i], g)
    ensures NeverTimed(Replay(c, events + later), g)
  {
    if later == [] {
      assert events + later == events;
    } else {
      var before, last := later[..|later| - 1], later[|later| - 1];
      StaysTimeless(c, events, before, g);
      assert events + later == (events + before) + [last];
      LastEvent(c, events + before, last);
      ApplyKeepsNeverTimed(c, Replay(c, events + before), last, g);
    }
  }

  /** A redeployed or deleted function is no target of any caller until a cold scale-up
      of it is recorded; prewarms, calls and executions are not enough. */
  lemma NoTargetUntilCold(c: Config, events: seq<Event>, event: Event, later: seq<Event>, f: string, g: string)
    requires c.enabled && g != "" && (event == Deleted(g) || (event.Redeployed? && event.f == g))
    requires forall i :: 0 <= i < |later| ==> !later[i].Imported? && !(ScalesUp(later[i], g) && later[i].cold)
    ensures !IsTarget(c, Replay(c, events + [event] + later), f, g)
  {
    LastEvent(c, events, event);
    StaysCold(c, events + [event], later, g);
  }

  /** An import leaves no target at all until a scale-up of it is recorded. */
  lemma NoTargetAfterImport(c: Config, events: seq<Event>, graph: Graph, later: seq<Event>, f: string, g: string)
    requires forall i :: 0 <= i < |later| ==> !ScalesUp(later[i], g)
    ensures !IsTarget(c, Replay(c, events + [Imported(graph)] + later), f, g)
  {
    LastEvent(c, events, Imported(graph));
    ImportKeepsTables(Replay(c, events), graph);
    StaysTimeless(c, events + [Imported(graph)], later, g);
    assert Average(c.averaging, []) == 0;
  }

  /** What was known before a redeployment does not count. */
  lemma {:induction false} ReportsSinceRedeployment(c: Config, events: seq<Event>, now: int, later: seq<Event>,
                                                    g: string)
    requires c.enabled && g != ""
    ensures Reported(c, events + [Redeployed(g, now)] + later, g) == Reported(c, later, g)
    ensures ImportedColdStarts(c, events + [Redeployed(g, now)] + later, g) == ImportedColdStarts(c, later, g)
  {
    var first := events + [Redeployed(g, now)];
    if later == [] {
      assert first + later == first && first[|first| - 1] == Redeployed(g, now);
    } else {
      var before := later[..|later| - 1];
      ReportsSinceRedeployment(c, events, now, before, g);
      assert (first + later)[..|first + later| - 1] == first + before;
      assert (first + later)[|first + later| - 1] == later[|later| - 1];
    }
  }

  /** And then it takes exactly a cold start and an average that is not zero: after a
      redeployment of g and any later events, the function g of an edge whose calls count is
      a target if and only if there are cold starts of g since then and the scale-ups
      reported since then do not average to zero. */
  lemma TargetAgainIffCold(c: Config, events: seq<Event>, now: int, later: seq<Event>, f: string, g: string)
    requires c.enabled && g != "" && NoCollision(c, events + [Redeployed(g, now)] + later)
    ensures var all := events + [Redeployed(g, now)] + later;
      IsTarget(c, Replay(c, all), f, g) <==>
        && c.prewarm
        && CallCount(History(c, all, f, g)) > 0
        && ColdStarts(c, later, g) > 0
        && Average(c.averaging, Durations(Reported(c, later, g))) != 0
  {
    TargetIffCalledAndCold(c, events + [Redeployed(g, now)] + later, f, g);
    ReportsSinceRedeployment(c, events, now, later, g);
  }

  lemma AverageOfOne(averaging: Method, d: int)
    requires FitsInt64(d)
    ensures Average(averaging, [d]) == d
  {
    assert Sum([d]) == Sum([]) + d;
    assert d as real as int == d;
  }

  /** With a single scale-up since the redeployment, imports and any names allowed: it has
      to be cold and to take time. */
  lemma OneScaleUpDecides(c: Config, events: seq<Event>, now: int, ts: int, duration: int, cold: bool, f: string,
                          g: string)
    requires c.enabled && c.prewarm && g != "" && FitsInt64(duration)
    requires g in Replay(c, events).functionStats && g in Lookup(Replay(c, events).callerToCallees, f)
    requires EdgeKey(f, g) in Replay(c, events).edgeStats && Replay(c, events).edgeStats[EdgeKey(f, g)].count > 0
    ensures IsTarget(c, Replay(c, events + [Redeployed(g, now)] + [ScaledUp(g, ts, duration, cold)]), f, g)
            <==> cold && duration != 0
  {
    LastEvent(c, events, Redeployed(g, now));
    LastEvent(c, events + [Redeployed(g, now)], ScaledUp(g, ts, duration, cold));
    AverageOfOne(c.averaging, duration);
    var stats := Replay(c, events + [Redeployed(g, now)] + [ScaledUp(g, ts, duration, cold)]).functionStats[g];
    assert stats.scaleUpSamples == [duration];
  }
}
