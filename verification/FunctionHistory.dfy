/** Function statistics are a fold of what happened to the function since its statistics
    began or were last imported, and when the recorded minimum is one. */
module FunctionHistory {
  import opened Averaging
  import opened Attribution
  import opened CallGraph
  import opened TrackerHistory
  import opened EdgeHistory

  /** What counts for one function: executions, scale-ups and scale-downs. */
  datatype Use = Ran(time: int, startedAt: int) | CameUp(at: int, duration: int, cold: bool) | WentDown

  /** What the event adds to the uses of f. */
  function UseOf(c: Config, before: seq<Event>, event: Event, f: string): Option<Use> {
    match event
    case Ended(g, request, execution, timestamp, _) =>
      var time := RunTime(c, before, g, request, execution, timestamp);
      if g == f && time.Some? then Some(Ran(time.value, timestamp - time.value)) else None
    case ScaledUp(g, at, duration, cold) =>
      if g == f && c.enabled && f != "" then Some(CameUp(at, duration, cold)) else None
    case ScaledDown(g) => if g == f && c.enabled && f != "" && Tracked(c, before, f) then Some(WentDown) else None
    case _ => None
  }

  /** What the statistics of a function started from, and its uses since. */
  datatype Life = Life(base: FunctionStats, uses: seq<Use>)

  /** The event makes the statistics of f start anew. */
  predicate StartsOver(c: Config, event: Event, f: string) {
    match event
    case Redeployed(g, _) => g == f && c.enabled && f != ""
    case Deleted(g) => g == f && c.enabled && f != ""
    case Cleared(_) => true
    case Imported(_) => true
    case _ => false
  }

  /** What the statistics of f start from after such an event: an import brings them along,
      a redeployment keeps the name and counts itself. */
  function NewBase(tracked: bool, base: FunctionStats, event: Event, f: string): FunctionStats {
    match event
    case Imported(graph) => if f in graph.functions then Fresh(graph.functions[f]) else NewStats(f, 0)
    case Redeployed(_, now) => if tracked then ResetOf(base, now) else base
    case _ => NewStats(f, 0)
  }

  /** The life of f after one more event. */
  function LifeAfter(c: Config, before: seq<Event>, life: Life, event: Event, f: string): Life {
    var use := UseOf(c, before, event, f);
    if StartsOver(c, event, f) then Life(NewBase(Tracked(c, before, f), life.base, event, f), [])
    else if use.Some? then life.(uses := life.uses + [use.value])
    else life
  }

  /** What the statistics of f started from, and its uses since, read off the events. */
  function LifeOf(c: Config, events: seq<Event>, f: string): Life {
    if events == [] then Life(NewStats(f, 0), [])
    else
      var before := events[..|events| - 1];
      LifeAfter(c, before, LifeOf(c, before, f), events[|events| - 1], f)
  }

  function RunTimes(uses: seq<Use>): seq<int> {
    if uses == [] then []
    else if uses[|uses| - 1].Ran? then RunTimes(uses[..|uses| - 1]) + [uses[|uses| - 1].time]
    else RunTimes(uses[..|uses| - 1])
  }

  function UpTimes(uses: seq<Use>): seq<int> {
    if uses == [] then []
    else if uses[|uses| - 1].CameUp? then UpTimes(uses[..|uses| - 1]) + [uses[|uses| - 1].duration]
    else UpTimes(uses[..|uses| - 1])
  }

  function ScaleUps(uses: seq<Use>, cold: bool): nat {
    if uses == [] then 0
    else ScaleUps(uses[..|uses| - 1], cold) + if uses[|uses| - 1].CameUp? && uses[|uses| - 1].cold == cold then 1 else 0
  }

  function ScaleDowns(uses: seq<Use>): nat {
    if uses == [] then 0
    else ScaleDowns(uses[..|uses| - 1]) + if uses[|uses| - 1].WentDown? then 1 else 0
  }

  /** When the last scale-up of the kind was and how long it took. */
  function LastUp(uses: seq<Use>, cold: bool, otherwise: (int, int)): (int, int) {
    if uses == [] then otherwise
    else if uses[|uses| - 1].CameUp? && uses[|uses| - 1].cold == cold
    then (uses[|uses| - 1].at, uses[|uses| - 1].duration)
    else LastUp(uses[..|uses| - 1], cold, otherwise)
  }

  function LastStart(uses: seq<Use>, otherwise: int): int {
    if uses == [] then otherwise
    else if uses[|uses| - 1].Ran? then uses[|uses| - 1].startedAt
    else LastStart(uses[..|uses| - 1], otherwise)
  }

  /** The last zero of the times is at position k - 1; from k on they are positive. */
  ghost predicate PositiveFrom(times: seq<int>, k: nat) {
    && k <= |times|
    && (k > 0 ==> times[k - 1] == 0)
    && forall i :: k <= i < |times| ==> times[i] > 0
  }

  /** Zero counts as "no minimum yet", so the recorded minimum only sees the times after
      the last zero. */
  ghost predicate MinimumSinceZero(low: int, times: seq<int>) {
    exists k: nat :: PositiveFrom(times, k) && if k == |times| then low == 0 else LeastOf(low, times[k..])
  }

  /** The minimum goes on from the one at the start, which an import may have made negative
      for good; the maximum goes on from the one at the start. */
  ghost predicate ExtremesFit(low: int, high: int, base: FunctionStats, times: seq<int>) {
    && (if base.minExecutionTime < 0 then low == base.minExecutionTime
        else MinimumSinceZero(low, [base.minExecutionTime] + times))
    && GreatestOf(high, [base.maxExecutionTime] + times)
  }

  ghost predicate TotalsFit(stats: FunctionStats, base: FunctionStats, times: seq<int>) {
    && stats.totalCalls == base.totalCalls + |times|
    && stats.totalExecutionTime == base.totalExecutionTime + Sum(times)
    && stats.execSamples == times
    && (forall i :: 0 <= i < |times| ==> times[i] >= 0)
    && stats.lastExecutionTime == (if times == [] then base.lastExecutionTime else times[|times| - 1])
  }

  /** The execution figures are those of the start and the times. */
  ghost predicate RunsSummary(stats: FunctionStats, base: FunctionStats, times: seq<int>) {
    && TotalsFit(stats, base, times)
    && ExtremesFit(stats.minExecutionTime, stats.maxExecutionTime, base, times)
  }

  /** The other figures are those of the start and the uses. */
  predicate UsesSummary(stats: FunctionStats, base: FunctionStats, uses: seq<Use>) {
    && stats.lastCalledAt == LastStart(uses, base.lastCalledAt)
    && stats.totalColdStarts == base.totalColdStarts + ScaleUps(uses, true)
    && stats.totalPrewarms == base.totalPrewarms + ScaleUps(uses, false)
    && stats.totalScaleUps == base.totalScaleUps + |UpTimes(uses)|
    && stats.scaleUpSamples == UpTimes(uses)
    && (stats.lastColdStartAt, stats.lastColdStartDuration)
         == LastUp(uses, true, (base.lastColdStartAt, base.lastColdStartDuration))
    && (stats.lastPrewarmAt, stats.lastPrewarmDuration)
         == LastUp(uses, false, (base.lastPrewarmAt, base.lastPrewarmDuration))
    && stats.totalScaleDowns == base.totalScaleDowns + ScaleDowns(uses)
  }

  /** Nothing but a redeployment or an import changes these. */
  predicate SameRegistration(stats: FunctionStats, base: FunctionStats) {
    stats.name == base.name && stats.totalResets == base.totalResets && stats.lastResetAt == base.lastResetAt
  }

  ghost predicate Summary(stats: FunctionStats, life: Life) {
    && SameRegistration(stats, life.base)
    && RunsSummary(stats, life.base, RunTimes(life.uses))
    && UsesSummary(stats, life.base, life.uses)
  }

  /** Statistics without samples are a start. */
  lemma StartsAsBase(base: FunctionStats)
    requires base.execSamples == [] && base.scaleUpSamples == []
    ensures Summary(base, Life(base, []))
  {
    var xs := [base.minExecutionTime] + [];
    assert xs == [base.minExecutionTime] && xs[0..] == xs;
    if base.minExecutionTime == 0 {
      assert PositiveFrom(xs, 1);
    } else if base.minExecutionTime > 0 {
      assert PositiveFrom(xs, 0);
    }
  }

  /** A reset forgets all figures, whatever they were. */
  lemma ResetStartsOver(stats: FunctionStats, base: FunctionStats, now: int)
    requires SameRegistration(stats, base)
    ensures ResetOf(stats, now) == ResetOf(base, now)
    ensures Summary(ResetOf(stats, now), Life(ResetOf(base, now), []))
  {
    StartsAsBase(ResetOf(base, now));
  }

  lemma OneMore(uses: seq<Use>, use: Use)
    ensures (uses + [use])[..|uses|] == uses && (uses + [use])[|uses|] == use
  {
  }

  lemma NextMinimumPositive(low: int, times: seq<int>, time: int, k: nat)
    requires PositiveFrom(times, k) && (if k == |times| then low == 0 else LeastOf(low, times[k..])) && time > 0
    ensures MinimumSinceZero(if time < low || low == 0 then time else low, times + [time])
  {
    var next := times + [time];
    assert PositiveFrom(next, k);
    assert next[k..] == times[k..] + [time];
    if k < |times| {
      assert low > 0 by { assert low in times[k..]; }
      NextLeast(low, times[k..], time);
    } else {
      assert next[k..] == [time];
    }
  }

  lemma NextMinimum(low: int, times: seq<int>, time: int)
    requires MinimumSinceZero(low, times) && time >= 0
    ensures MinimumSinceZero(if time < low || low == 0 then time else low, times + [time])
  {
    var k: nat :| PositiveFrom(times, k) && if k == |times| then low == 0 else LeastOf(low, times[k..]);
    if time > 0 {
      NextMinimumPositive(low, times, time, k);
    } else {
      assert PositiveFrom(times + [time], |times| + 1);
      assert k < |times| ==> low in times[k..];
    }
  }

  lemma NextExtremes(low: int, high: int, base: FunctionStats, times: seq<int>, time: int)
    requires ExtremesFit(low, high, base, times) && time >= 0
    ensures ExtremesFit(if time < low || low == 0 then time else low,
                        if time > high then time else high, base, times + [time])
  {
    var lows, highs := [base.minExecutionTime] + times, [base.maxExecutionTime] + times;
    assert lows + [time] == [base.minExecutionTime] + (times + [time]);
    assert highs + [time] == [base.maxExecutionTime] + (times + [time]);
    if base.minExecutionTime >= 0 { NextMinimum(low, lows, time); }
    NextGreatest(high, highs, time);
  }

  lemma {:induction false} NextTotals(stats: FunctionStats, base: FunctionStats, times: seq<int>,
                                      time: int, startedAt: int)
    requires TotalsFit(stats, base, times) && time >= 0
    ensures TotalsFit(WithExecution(stats, time, startedAt), base, times + [time])
  {
    assert (times + [time])[..|times|] == times;
  }

  lemma {:induction false} RanUses(stats: FunctionStats, base: FunctionStats, uses: seq<Use>, time: int, startedAt: int)
    requires UsesSummary(stats, base, uses)
    ensures UsesSummary(WithExecution(stats, time, startedAt), base, uses + [Ran(time, startedAt)])
    ensures RunTimes(uses + [Ran(time, startedAt)]) == RunTimes(uses) + [time]
  {
    OneMore(uses, Ran(time, startedAt));
  }

  /** An accepted execution, on statistics that exist. */
  lemma {:induction false} RanNext(stats: FunctionStats, life: Life, time: int, startedAt: int)
    requires Summary(stats, life) && time >= 0
    ensures Summary(WithExecution(stats, time, startedAt), life.(uses := life.uses + [Ran(time, startedAt)]))
  {
    var next, now := WithExecution(stats, time, startedAt), life.uses + [Ran(time, startedAt)];
    var times := RunTimes(life.uses);
    assert RunsSummary(next, life.base, times + [time]) by {
      NextTotals(stats, life.base, times, time, startedAt);
      NextExtremes(stats.minExecutionTime, stats.maxExecutionTime, life.base, times, time);
    }
    RanUses(stats, life.base, life.uses, time, startedAt);
    assert RunsSummary(next, life.base, RunTimes(now)) && UsesSummary(next, life.base, now);
  }

  /** The first execution may begin with its own time as minimum and maximum: the result
      is the same as from zero. */
  lemma RanFirst(name: string, time: int, startedAt: int)
    requires time >= 0
    ensures WithExecution(NewStats(name, time), time, startedAt) == WithExecution(NewStats(name, 0), time, startedAt)
  {
  }

  lemma {:induction false} CameUpNext(stats: FunctionStats, life: Life, at: int, duration: int, cold: bool)
    requires Summary(stats, life)
    ensures Summary(WithScaleUp(stats, at, duration, cold), life.(uses := life.uses + [CameUp(at, duration, cold)]))
  {
    OneMore(life.uses, CameUp(at, duration, cold));
  }

  lemma {:induction false} WentDownNext(stats: FunctionStats, life: Life)
    requires Summary(stats, life)
    ensures Summary(stats.(totalScaleDowns := stats.totalScaleDowns + 1), life.(uses := life.uses + [WentDown]))
  {
    OneMore(life.uses, WentDown);
  }

  /** Without statistics nothing has happened yet; with them they fit the life. */
  ghost predicate StatsFit(s: State, life: Life, f: string) {
    && (f !in s.functionStats ==> life == Life(NewStats(f, 0), []))
    && (f in s.functionStats ==> Summary(s.functionStats[f], life))
  }

  lemma {:induction false} RanKeepsFit(s: State, life: Life, f: string, time: int, startedAt: int)
    requires StatsFit(s, life, f) && time >= 0
    ensures Summary(WithExecution(StatsOr(s, f, NewStats(f, time)), time, startedAt),
                    life.(uses := life.uses + [Ran(time, startedAt)]))
  {
    StartsAsBase(NewStats(f, 0));
    RanNext(StatsOr(s, f, NewStats(f, 0)), life, time, startedAt);
    RanFirst(f, time, startedAt);
  }

  /** Replacing the statistics of one function concerns no other. */
  lemma StatsReplaced(s: State, s': State, g: string, stats: FunctionStats, life: Life, f: string)
    requires s'.functionStats == s.functionStats[g := stats]
    requires if g == f then Summary(stats, life) else StatsFit(s, life, f)
    ensures StatsFit(s', life, f)
  {
  }

  lemma {:induction false} RunKeepsFit(s: State, s': State, life: Life, life': Life,
                                       g: string, time: int, startedAt: int, f: string)
    requires StatsFit(s, life, f) && time >= 0
    requires s'.functionStats == s.functionStats[g := WithExecution(StatsOr(s, g, NewStats(g, time)), time, startedAt)]
    requires life' == if g == f then life.(uses := life.uses + [Ran(time, startedAt)]) else life
    ensures StatsFit(s', life', f)
  {
    if g == f { RanKeepsFit(s, life, f, time, startedAt); }
    StatsReplaced(s, s', g, s'.functionStats[g], life', f);
  }

  lemma {:induction false} UpKeepsFit(s: State, s': State, life: Life, life': Life,
                                      g: string, at: int, duration: int, cold: bool, f: string)
    requires StatsFit(s, life, f)
    requires s'.functionStats == s.functionStats[g := WithScaleUp(StatsOr(s, g, NewStats(g, 0)), at, duration, cold)]
    requires life' == if g == f then life.(uses := life.uses + [CameUp(at, duration, cold)]) else life
    ensures StatsFit(s', life', f)
  {
    if g == f {
      StartsAsBase(NewStats(f, 0));
      CameUpNext(StatsOr(s, g, NewStats(g, 0)), life, at, duration, cold);
    }
    StatsReplaced(s, s', g, s'.functionStats[g], life', f);
  }

  lemma {:induction false} DownKeepsFit(s: State, s': State, life: Life, life': Life, g: string, f: string)
    requires StatsFit(s, life, f) && g in s.functionStats
    requires s'.functionStats ==
      s.functionStats[g := s.functionStats[g].(totalScaleDowns := s.functionStats[g].totalScaleDowns + 1)]
    requires life' == if g == f then life.(uses := life.uses + [WentDown]) else life
    ensures StatsFit(s', life', f)
  {
    if g == f { WentDownNext(s.functionStats[f], life); }
    StatsReplaced(s, s', g, s'.functionStats[g], life', f);
  }

  lemma {:induction false} ResetKeepsFit(s: State, s': State, life: Life, life': Life, g: string, now: int, f: string)
    requires StatsFit(s, life, f) && g in s.functionStats
    requires s'.functionStats == s.functionStats[g := ResetOf(s.functionStats[g], now)]
    requires life' == if g == f then Life(ResetOf(life.base, now), []) else life
    ensures StatsFit(s', life', f)
  {
    if g == f { ResetStartsOver(s.functionStats[f], life.base, now); }
    StatsReplaced(s, s', g, s'.functionStats[g], life', f);
  }

  lemma SameStatsKeepFit(s: State, s': State, life: Life, f: string)
    requires StatsFit(s, life, f) && s'.functionStats == s.functionStats
    ensures StatsFit(s', life, f)
  {
  }

  lemma {:induction false} EndedKeepsFit(c: Config, before: seq<Event>, s': State, life: Life, life': Life,
                                         event: Event, f: string)
    requires StatsFit(Replay(c, before), life, f) && event.Ended?
    requires s' == Apply(c, Replay(c, before), event) && life' == LifeAfter(c, before, life, event, f)
    ensures StatsFit(s', life', f)
  {
    var s := Replay(c, before);
    EndIsRun(c, before, event);
    match RunTime(c, before, event.f, event.request, event.execution, event.timestamp)
    case None => SameStatsKeepFit(s, s', life, f);
    case Some(time) => RunKeepsFit(s, s', life, life', event.f, time, event.timestamp - time, f);
  }

  lemma {:induction false} ScaledStats(c: Config, before: seq<Event>, life: Life, event: Event, f: string)
    requires event.ScaledUp? || event.ScaledDown?
    ensures var s, g := Replay(c, before), event.f;
      var s', life' := Apply(c, s, event), LifeAfter(c, before, life, event, f);
      if !c.enabled || g == "" || (event.ScaledDown? && g !in s.functionStats)
      then s'.functionStats == s.functionStats && life' == life
      else if event.ScaledDown?
      then && s'.functionStats ==
                s.functionStats[g := s.functionStats[g].(totalScaleDowns := s.functionStats[g].totalScaleDowns + 1)]
           && life' == if g == f then life.(uses := life.uses + [WentDown]) else life
      else && s'.functionStats ==
                s.functionStats[g := WithScaleUp(StatsOr(s, g, NewStats(g, 0)),
                                                 event.timestamp, event.duration, event.cold)]
           && life' == if g == f
                       then life.(uses := life.uses + [CameUp(event.timestamp, event.duration, event.cold)])
                       else life
  {
    TrackedIffListed(c, before, event.f);
  }

  lemma {:induction false} ScaledKeepsFit(c: Config, before: seq<Event>, s': State, life: Life, life': Life,
                                          event: Event, f: string)
    requires StatsFit(Replay(c, before), life, f) && (event.ScaledUp? || event.ScaledDown?)
    requires s' == Apply(c, Replay(c, before), event) && life' == LifeAfter(c, before, life, event, f)
    ensures StatsFit(s', life', f)
  {
    var s := Replay(c, before);
    ScaledStats(c, before, life, event, f);
    if !c.enabled || event.f == "" || (event.ScaledDown? && event.f !in s.functionStats) {
      SameStatsKeepFit(s, s', life, f);
    } else if event.ScaledUp? {
      UpKeepsFit(s, s', life, life', event.f, event.timestamp, event.duration, event.cold, f);
    } else {
      DownKeepsFit(s, s', life, life', event.f, f);
    }
  }

  lemma {:induction false} RedeployedStats(c: Config, before: seq<Event>, life: Life, event: Event, f: string)
    requires event.Redeployed? && (f !in Replay(c, before).functionStats ==> life.uses == [])
    ensures var s, g := Replay(c, before), event.f;
      var s', life' := Apply(c, s, event), LifeAfter(c, before, life, event, f);
      if !c.enabled || g == "" || g !in s.functionStats
      then s'.functionStats == s.functionStats && life' == life
      else && s'.functionStats == s.functionStats[g := ResetOf(s.functionStats[g], event.now)]
           && life' == if g == f then Life(ResetOf(life.base, event.now), []) else life
  {
    TrackedIffListed(c, before, f);
  }

  lemma {:induction false} RedeployedKeepsFit(c: Config, before: seq<Event>, s': State, life: Life, life': Life,
                                              event: Event, f: string)
    requires StatsFit(Replay(c, before), life, f) && event.Redeployed?
    requires s' == Apply(c, Replay(c, before), event) && life' == LifeAfter(c, before, life, event, f)
    ensures StatsFit(s', life', f)
  {
    var s := Replay(c, before);
    RedeployedStats(c, before, life, event, f);
    if !c.enabled || event.f == "" || event.f !in s.functionStats {
      SameStatsKeepFit(s, s', life, f);
    } else {
      ResetKeepsFit(s, s', life, life', event.f, event.now, f);
    }
  }

  lemma {:induction false} DroppedStats(c: Config, before: seq<Event>, life: Life, event: Event, f: string)
    requires event.Deleted? || event.Cleared?
    ensures var s := Replay(c, before);
      var s', life' := Apply(c, s, event), LifeAfter(c, before, life, event, f);
      if StartsOver(c, event, f) then f !in s'.functionStats && life' == Life(NewStats(f, 0), [])
      else && (f in s'.functionStats <==> f in s.functionStats)
           && (f in s.functionStats ==> s'.functionStats[f] == s.functionStats[f])
           && life' == life
  {
  }

  lemma {:induction false} DroppedKeepsFit(c: Config, before: seq<Event>, s': State, life: Life, life': Life,
                                           event: Event, f: string)
    requires StatsFit(Replay(c, before), life, f) && (event.Deleted? || event.Cleared?)
    requires s' == Apply(c, Replay(c, before), event) && life' == LifeAfter(c, before, life, event, f)
    ensures StatsFit(s', life', f)
  {
    DroppedStats(c, before, life, event, f);
    if StartsOver(c, event, f) {
      assert f !in s'.functionStats;
    } else {
      assert life' == life;
    }
  }

  lemma {:induction false} ImportedKeepsFit(c: Config, before: seq<Event>, s': State, life: Life, life': Life,
                                            event: Event, f: string)
    requires event.Imported?
    requires s' == Apply(c, Replay(c, before), event) && life' == LifeAfter(c, before, life, event, f)
    ensures StatsFit(s', life', f)
  {
    ImportKeepsTables(Replay(c, before), event.graph);
    if f in event.graph.functions {
      StartsAsBase(Fresh(event.graph.functions[f]));
    }
  }

  lemma {:induction false} EventKeepsFit(c: Config, before: seq<Event>, s': State, life: Life, life': Life,
                                         event: Event, f: string)
    requires StatsFit(Replay(c, before), life, f)
    requires s' == Apply(c, Replay(c, before), event) && life' == LifeAfter(c, before, life, event, f)
    ensures StatsFit(s', life', f)
  {
    var s := Replay(c, before);
    match event
    case Ended(_, _, _, _, _) => EndedKeepsFit(c, before, s', life, life', event, f);
    case ScaledUp(_, _, _, _) => ScaledKeepsFit(c, before, s', life, life', event, f);
    case ScaledDown(_) => ScaledKeepsFit(c, before, s', life, life', event, f);
    case Started(_, _, _, _, _) => SameStatsKeepFit(s, s', life, f);
    case Called(_, _, _, _, _, _) => SameStatsKeepFit(s, s', life, f);
    case CleanedUp(_) => SameStatsKeepFit(s, s', life, f);
    case Redeployed(_, _) => RedeployedKeepsFit(c, before, s', life, life', event, f);
    case Imported(_) => ImportedKeepsFit(c, before, s', life, life', event, f);
    case _ => DroppedKeepsFit(c, before, s', life, life', event, f);
  }

  /** The statistics of every function are exactly those of what they started from and the
      uses since. */
  lemma {:induction false} StatsAreFoldOfHistory(c: Config, events: seq<Event>, f: string)
    ensures StatsFit(Replay(c, events), LifeOf(c, events, f), f)
  {
    if events != [] {
      var before, last := events[..|events| - 1], events[|events| - 1];
      StatsAreFoldOfHistory(c, before, f);
      EventKeepsFit(c, before, Replay(c, events), LifeOf(c, before, f), LifeOf(c, events, f), last, f);
    }
  }

  /** Cold starts and prewarms share out all scale-ups. */
  lemma {:induction false} ScaleUpsAddUp(uses: seq<Use>)
    ensures |UpTimes(uses)| == ScaleUps(uses, true) + ScaleUps(uses, false)
  {
    if uses != [] {
      ScaleUpsAddUp(uses[..|uses| - 1]);
    }
  }

  /** Scale-ups that are neither cold starts nor prewarms. */
  function Unexplained(stats: FunctionStats): int {
    stats.totalScaleUps - stats.totalColdStarts - stats.totalPrewarms
  }

  /** The tracker never adds an unexplained scale-up: there are those that the statistics
      started with, which only an import can bring. */
  lemma EveryScaleUpIsColdOrPrewarm(c: Config, events: seq<Event>, f: string)
    requires f in Replay(c, events).functionStats
    ensures Unexplained(Replay(c, events).functionStats[f]) == Unexplained(LifeOf(c, events, f).base)
    ensures NoImports(events) ==> Unexplained(Replay(c, events).functionStats[f]) == 0
  {
    StatsAreFoldOfHistory(c, events, f);
    ScaleUpsAddUp(LifeOf(c, events, f).uses);
    if NoImports(events) { NoImportStartsFromZero(c, events, f); }
  }

  /** Without imports the statistics of a function start from zero. */
  lemma {:induction false} NoImportStartsFromZero(c: Config, events: seq<Event>, f: string)
    requires NoImports(events)
    ensures var base := LifeOf(c, events, f).base;
      base == NewStats(f, 0).(totalResets := base.totalResets, lastResetAt := base.lastResetAt)
  {
    if events != [] {
      NoImportStartsFromZero(c, events[..|events| - 1], f);
    }
  }

  /** The times that a minimum would range over: zero at the start stands for none. */
  function SeenTimes(low: int, times: seq<int>): seq<int> {
    if low == 0 then times else [low] + times
  }

  /** No time was zero: the minimum has seen all of them. */
  lemma MinimumWithoutZero(low: int, start: int, times: seq<int>)
    requires times != [] && start >= 0 && MinimumSinceZero(low, [start] + times) && 0 !in times
    ensures LeastOf(low, SeenTimes(start, times))
  {
    var xs := [start] + times;
    var k: nat :| PositiveFrom(xs, k) && if k == |xs| then low == 0 else LeastOf(low, xs[k..]);
    assert forall i :: 0 <= i < |times| ==> xs[i + 1] == times[i] && times[i] in times;
    assert xs[1..] == times && xs[0..] == xs;
    assert k == 0 ==> xs[0] > 0;
  }

  /** Some time was zero: the minimum is that zero only if it was the last. */
  lemma MinimumWithZero(low: int, start: int, times: seq<int>, i: nat)
    requires start >= 0 && MinimumSinceZero(low, [start] + times)
    requires i < |times| && times[i] == 0
    ensures low == 0 <==> times[|times| - 1] == 0
  {
    var xs := [start] + times;
    var k: nat :| PositiveFrom(xs, k) && if k == |xs| then low == 0 else LeastOf(low, xs[k..]);
    assert xs[i + 1] == 0 && xs[|xs| - 1] == times[|times| - 1];
    if k < |xs| {
      assert low in xs[k..];
    }
  }

  lemma MinimumIffNoZero(low: int, start: int, times: seq<int>)
    requires times != [] && start >= 0 && MinimumSinceZero(low, [start] + times)
    requires forall i :: 0 <= i < |times| ==> times[i] >= 0
    ensures LeastOf(low, SeenTimes(start, times)) <==> 0 !in times || times[|times| - 1] == 0
  {
    if 0 in times {
      var i :| 0 <= i < |times| && times[i] == 0;
      MinimumWithZero(low, start, times, i);
      ZeroIsLeast(low, start, times, i);
    } else {
      MinimumWithoutZero(low, start, times);
    }
  }

  lemma ZeroIsLeast(low: int, start: int, times: seq<int>, i: nat)
    requires start >= 0 && i < |times| && times[i] == 0
    requires forall j :: 0 <= j < |times| ==> times[j] >= 0
    ensures LeastOf(low, SeenTimes(start, times)) <==> low == 0
  {
    var xs := SeenTimes(start, times);
    assert 0 in xs by { assert xs[if start == 0 then i else i + 1] == 0; }
    assert forall j :: 0 <= j < |xs| ==> xs[j] >= 0;
  }

  /** The reported minimum is the least of the minimum at the start, if there was one, and
      the execution times since, if and only if the start was negative, or no execution
      took zero time, or the last one did. */
  lemma MinimumExactIffNoZero(c: Config, events: seq<Event>, f: string)
    requires f in Replay(c, events).functionStats && RunTimes(LifeOf(c, events, f).uses) != []
    ensures var start, times := LifeOf(c, events, f).base.minExecutionTime, RunTimes(LifeOf(c, events, f).uses);
      LeastOf(Replay(c, events).functionStats[f].minExecutionTime, SeenTimes(start, times))
      <==> start < 0 || 0 !in times || times[|times| - 1] == 0
  {
    StatsAreFoldOfHistory(c, events, f);
    var start, times := LifeOf(c, events, f).base.minExecutionTime, RunTimes(LifeOf(c, events, f).uses);
    if start >= 0 {
      MinimumIffNoZero(Replay(c, events).functionStats[f].minExecutionTime, start, times);
    } else {
      assert start in SeenTimes(start, times);
    }
  }
}
