/** The development-time render profiler: per-component render counters kept
    in a map, a report sorted slowest first, and rule-based advice. Clock
    readings are passed in as `real` milliseconds. */
module Performance {
  import opened Wrappers
  import Seqs
  import Sorting
  import opened Renders

  /** The counters kept for one component. */
  datatype ComponentPerformance = ComponentPerformance(
    name: string,
    renderCount: nat,
    totalTime: real,
    averageTime: real,
    slowRenders: nat,
    lastRender: real)

  /** The profiler. `components` is the map's entries in insertion order, which
      is the order the map iterates them in. */
  datatype Analyzer = Analyzer(enabled: bool, components: seq<ComponentPerformance>)

  /** The counters of one component agree with each other. */
  ghost predicate ValidEntry(c: ComponentPerformance) {
    && c.renderCount >= 1
    && c.slowRenders <= c.renderCount
    && c.averageTime == c.totalTime / c.renderCount as real
  }

  /** A map: one entry per name, each consistent. */
  ghost predicate Valid(a: Analyzer) {
    && (forall i, j :: 0 <= i < j < |a.components| ==> a.components[i].name != a.components[j].name)
    && (forall i :: 0 <= i < |a.components| ==> ValidEntry(a.components[i]))
  }

  function NewAnalyzer(enabled: bool): (a: Analyzer)
    ensures Valid(a) && a.components == []
  {
    Analyzer(enabled, [])
  }

  /** `startMeasurement`: the clock when profiling, 0 otherwise. */
  function StartMeasurement(a: Analyzer, nowMs: real): (r: real)
    ensures a.enabled ==> r == nowMs
    ensures !a.enabled ==> r == 0.0
  {
    if a.enabled then nowMs else 0.0
  }

  /** `components.get(name)` as a position. */
  function Lookup(a: Analyzer, name: string): (r: Option<nat>)
    ensures r.Some? ==> r.value < |a.components| && a.components[r.value].name == name
    ensures r.None? <==> forall i :: 0 <= i < |a.components| ==> a.components[i].name != name
  {
    Seqs.FindFirst(a.components, (c: ComponentPerformance) => c.name == name)
  }

  /** The first entry for a component rendered in `t` milliseconds. */
  function FirstRender(name: string, t: real): (c: ComponentPerformance)
    ensures ValidEntry(c) && c.name == name
    ensures c.renderCount == 1 && c.totalTime == c.averageTime == c.lastRender == t
    ensures c.slowRenders == if t > SLOW_RENDER_MS then 1 else 0
  {
    ComponentPerformance(name, 1, t, t, if t > SLOW_RENDER_MS then 1 else 0, t)
  }

  /** An entry after one more render of `t` milliseconds. */
  function AnotherRender(c: ComponentPerformance, t: real): (r: ComponentPerformance)
    requires ValidEntry(c)
    ensures ValidEntry(r) && r.name == c.name
    ensures r.renderCount == c.renderCount + 1 && r.totalTime == c.totalTime + t && r.lastRender == t
    ensures r.slowRenders == c.slowRenders + (if t > SLOW_RENDER_MS then 1 else 0)
  {
    var count := c.renderCount + 1;
    var total := c.totalTime + t;
    ComponentPerformance(c.name, count, total, total / count as real,
      c.slowRenders + (if t > SLOW_RENDER_MS then 1 else 0), t)
  }

  /** `endMeasurement`: record a render of `endMs - startMs` milliseconds for
      `name`, creating its entry on the first render; nothing when disabled. */
  function EndMeasurement(a: Analyzer, name: string, startMs: real, endMs: real): (r: Analyzer)
    requires Valid(a)
    ensures Valid(r) && r.enabled == a.enabled
    ensures !a.enabled ==> r == a
    ensures a.enabled && Lookup(a, name).None? ==> r.components == a.components + [FirstRender(name, endMs - startMs)]
    ensures a.enabled && Lookup(a, name).Some? ==> var k := Lookup(a, name).value;
      r.components == a.components[k := AnotherRender(a.components[k], endMs - startMs)]
  {
    if !a.enabled then a
    else
      var t := endMs - startMs;
      match Lookup(a, name)
      case None => a.(components := a.components + [FirstRender(name, t)])
      case Some(k) => a.(components := a.components[k := AnotherRender(a.components[k], t)])
  }

  /** `getComponentStats`. */
  function GetComponentStats(a: Analyzer, name: string): (r: Option<ComponentPerformance>)
    ensures r.Some? <==> exists i :: 0 <= i < |a.components| && a.components[i].name == name
    ensures r.Some? ==> r.value in a.components && r.value.name == name
  {
    match Lookup(a, name)
    case None => None
    case Some(k) => Some(a.components[k])
  }

  /** `reset`: the map is emptied. */
  function Reset(a: Analyzer): (r: Analyzer)
    ensures Valid(r) && r.enabled == a.enabled && r.components == []
  {
    a.(components := [])
  }

  /** The report's comparator `(a, b) => b.averageTime - a.averageTime`. */
  function CompareSlower(a: ComponentPerformance, b: ComponentPerformance): real {
    b.averageTime - a.averageTime
  }

  /** The report's order: `x` may come before `y` when the comparator does not
      put `y` first, that is when it answers zero or less. */
  predicate SlowerFirst(x: ComponentPerformance, y: ComponentPerformance)
    ensures SlowerFirst(x, y) <==> CompareSlower(x, y) <= 0.0
  {
    x.averageTime >= y.averageTime
  }

  lemma SlowerFirstIsTotalPreorder()
    ensures Sorting.TotalPreorder(SlowerFirst)
  {
  }

  /** The entries whose average is not `v`, which a report may move past those whose average is `v`. */
  function AverageIsNot(v: real): ComponentPerformance -> bool {
    (c: ComponentPerformance) => c.averageTime != v
  }

  /** `getReport`: every entry, slowest average first; entries with equal
      averages keep their insertion order, as `Array.prototype.sort` is stable. */
  function GetReport(a: Analyzer): (r: seq<ComponentPerformance>)
    ensures multiset(r) == multiset(a.components) && |r| == |a.components|
    ensures forall i, j :: 0 <= i < j < |r| ==> r[i].averageTime >= r[j].averageTime
    ensures forall v :: Seqs.RemoveWhere(r, AverageIsNot(v)) == Seqs.RemoveWhere(a.components, AverageIsNot(v))
  {
    SlowerFirstIsTotalPreorder();
    SlowerFirstKeepsTies(a.components);
    var r := Sorting.SortBy(a.components, SlowerFirst);
    assert forall i, j :: 0 <= i < j < |r| ==> SlowerFirst(r[i], r[j]);
    r
  }

  lemma SlowerFirstKeepsTies(cs: seq<ComponentPerformance>)
    requires Sorting.TotalPreorder(SlowerFirst)
    ensures forall v :: Seqs.RemoveWhere(Sorting.SortBy(cs, SlowerFirst), AverageIsNot(v)) == Seqs.RemoveWhere(cs, AverageIsNot(v))
  {
    forall v ensures Seqs.RemoveWhere(Sorting.SortBy(cs, SlowerFirst), AverageIsNot(v)) == Seqs.RemoveWhere(cs, AverageIsNot(v)) {
      Sorting.SortByStable(cs, SlowerFirst, AverageIsNot(v));
    }
  }

  /** The advice `getOptimizationSuggestions` gives, without its wording. */
  datatype Suggestion =
    | ConsiderOptimizing(name: string, averageTime: real)
    | FrequentSlowRenders(name: string, slowRenders: nat, renderCount: nat)
    | RendersFrequently(name: string, renderCount: nat)

  const SLOW_AVERAGE_MS: real := 30.0
  const SLOW_SHARE: real := 0.1
  const FREQUENT_RENDERS: nat := 100

  /** The position of a kind of advice in the order the rules are checked. */
  function RuleRank(s: Suggestion): nat {
    match s
    case ConsiderOptimizing(_, _) => 0
    case FrequentSlowRenders(_, _, _) => 1
    case RendersFrequently(_, _) => 2
  }

  function Fires(rule: bool): nat {
    if rule then 1 else 0
  }

  /** The advice about one component, in the order the rules are checked. */
  function SuggestionsFor(c: ComponentPerformance): (r: seq<Suggestion>)
    ensures ConsiderOptimizing(c.name, c.averageTime) in r <==> c.averageTime > SLOW_AVERAGE_MS
    ensures FrequentSlowRenders(c.name, c.slowRenders, c.renderCount) in r <==> c.slowRenders as real > c.renderCount as real * SLOW_SHARE
    ensures RendersFrequently(c.name, c.renderCount) in r <==> c.renderCount > FREQUENT_RENDERS
    ensures forall s :: s in r ==>
      s in [ConsiderOptimizing(c.name, c.averageTime), FrequentSlowRenders(c.name, c.slowRenders, c.renderCount), RendersFrequently(c.name, c.renderCount)]
    ensures |r| == Fires(c.averageTime > SLOW_AVERAGE_MS)
      + Fires(c.slowRenders as real > c.renderCount as real * SLOW_SHARE)
      + Fires(c.renderCount > FREQUENT_RENDERS)
    ensures forall i, j :: 0 <= i < j < |r| ==> RuleRank(r[i]) < RuleRank(r[j])
    ensures forall s :: s in r ==> s.name == c.name
  {
    (if c.averageTime > SLOW_AVERAGE_MS then [ConsiderOptimizing(c.name, c.averageTime)] else [])
    + (if c.slowRenders as real > c.renderCount as real * SLOW_SHARE then [FrequentSlowRenders(c.name, c.slowRenders, c.renderCount)] else [])
    + (if c.renderCount > FREQUENT_RENDERS then [RendersFrequently(c.name, c.renderCount)] else [])
  }

  /** The advice for each component in turn. */
  function SuggestionsForAll(cs: seq<ComponentPerformance>): (r: seq<Suggestion>)
    ensures forall s :: s in r <==> exists i :: 0 <= i < |cs| && s in SuggestionsFor(cs[i])
    decreases |cs|
  {
    if |cs| == 0 then []
    else
      var r := SuggestionsFor(cs[0]) + SuggestionsForAll(cs[1..]);
      assert forall i :: 1 <= i < |cs| ==> cs[1..][i - 1] == cs[i];
      r
  }

  /** The advice for two runs of components is the first run's advice followed
      by the second's: components are advised on one after another, in order. */
  lemma {:induction false} SuggestionsForAllAppend(a: seq<ComponentPerformance>, b: seq<ComponentPerformance>)
    ensures SuggestionsForAll(a + b) == SuggestionsForAll(a) + SuggestionsForAll(b)
    decreases |a|
  {
    if |a| == 0 {
      assert a + b == b;
    } else {
      assert (a + b)[0] == a[0] && (a + b)[1..] == a[1..] + b;
      SuggestionsForAllAppend(a[1..], b);
    }
  }

  /** The advice for a single component is that component's advice. */
  lemma SuggestionsForOne(c: ComponentPerformance)
    ensures SuggestionsForAll([c]) == SuggestionsFor(c)
  {
    assert [c][1..] == [];
  }

  /** `getOptimizationSuggestions`: the advice for every entry, in report order. */
  function GetOptimizationSuggestions(a: Analyzer): (r: seq<Suggestion>)
    ensures r == SuggestionsForAll(GetReport(a))
    ensures forall s :: s in r <==> exists c :: c in a.components && s in SuggestionsFor(c)
  {
    var report := GetReport(a);
    assert forall c :: c in report <==> c in a.components by {
      assert forall c :: c in report <==> c in multiset(report);
      assert forall c :: c in a.components <==> c in multiset(a.components);
    }
    SuggestionsForAll(report)
  }

  /** The advice splits at any point of the report into the advice for the
      entries before it followed by the advice for the entries after it; in
      particular the slowest entry's advice comes first. */
  lemma AdviceInReportOrder(a: Analyzer, k: nat)
    requires k <= |a.components|
    ensures var report := GetReport(a);
      GetOptimizationSuggestions(a) == SuggestionsForAll(report[..k]) + SuggestionsForAll(report[k..])
    ensures |a.components| > 0 ==> var slowest := GetReport(a)[0];
      GetOptimizationSuggestions(a)[..|SuggestionsFor(slowest)|] == SuggestionsFor(slowest)
  {
    var report := GetReport(a);
    assert report == report[..k] + report[k..];
    SuggestionsForAllAppend(report[..k], report[k..]);
    if |a.components| > 0 {
      assert report == [report[0]] + report[1..];
      SuggestionsForAllAppend([report[0]], report[1..]);
      SuggestionsForOne(report[0]);
    }
  }

  /** A component whose renders are all slow draws the frequent-slow-renders advice. */
  lemma AllSlowIsFrequentSlow(c: ComponentPerformance)
    requires ValidEntry(c) && c.slowRenders == c.renderCount
    ensures FrequentSlowRenders(c.name, c.slowRenders, c.renderCount) in SuggestionsFor(c)
  {
  }

  function Sum(times: seq<real>): real {
    if |times| == 0 then 0.0 else times[0] + Sum(times[1..])
  }

  /** Measuring the renders `times` of `name`, each started at 0, one after another. */
  function MeasureAll(a: Analyzer, name: string, times: seq<real>): (r: Analyzer)
    requires Valid(a)
    ensures Valid(r)
    decreases |times|
  {
    if |times| == 0 then a else MeasureAll(EndMeasurement(a, name, 0.0, times[0]), name, times[1..])
  }

  /** After a run of renders of a component with counters `c`, the entry has
      counted every render, every slow one and the total time, and no other
      entry has changed. */
  lemma {:induction false} MeasureAllCounts(a: Analyzer, name: string, times: seq<real>, k: nat)
    requires Valid(a) && a.enabled
    requires k < |a.components| && a.components[k].name == name
    ensures var r := MeasureAll(a, name, times);
      && |r.components| == |a.components|
      && r.components[k].name == name
      && r.components[k].renderCount == a.components[k].renderCount + |times|
      && r.components[k].slowRenders == a.components[k].slowRenders + SlowCount(times)
      && r.components[k].totalTime == a.components[k].totalTime + Sum(times)
      && forall i :: 0 <= i < |a.components| && i != k ==> r.components[i] == a.components[i]
    decreases |times|
  {
    if |times| > 0 {
      var a' := EndMeasurement(a, name, 0.0, times[0]);
      assert Lookup(a, name) == Some(k) by {
        assert forall i, j :: 0 <= i < j < |a.components| ==> a.components[i].name != a.components[j].name;
      }
      MeasureAllCounts(a', name, times[1..], k);
    }
  }

  /** Measuring one component's renders from an empty profiler leaves a single
      entry whose counters are exactly the run's count, slow count and total. */
  lemma {:induction false} FreshComponentCounts(name: string, times: seq<real>)
    requires |times| > 0
    ensures var r := MeasureAll(NewAnalyzer(true), name, times);
      && |r.components| == 1
      && r.components[0].name == name
      && r.components[0].renderCount == |times|
      && r.components[0].slowRenders == SlowCount(times)
      && r.components[0].totalTime == Sum(times)
  {
    var a := EndMeasurement(NewAnalyzer(true), name, 0.0, times[0]);
    assert a.components == [FirstRender(name, times[0])];
    MeasureAllCounts(a, name, times[1..], 0);
  }
}
