/**
 One time bucket: what is charted of the deltas that land in it.

 The first part says what one delta does to a bucket's charts, the second that the charts add up.
 */
module Buckets {

  import opened Aggregates
  import opened Extremes
  import opened Maps
  import opened Wire
  import L = Labels

  const LABEL_SCENARIO := "scenario"
  const LABEL_STATUS := "status"
  const LABEL_NAME := "name"
  const METRIC_HTTP_REQS := "http_reqs"
  const METRIC_HTTP_REQ_DURATION := "http_req_duration"
  const METRIC_HTTP_REQ_FAILED := "http_req_failed"

  datatype Point = Point(count: nat, sum: real, min: real, max: real, nonZero: nat)

  datatype PointKey = PointKey(metric: string, scenario: string)

  datatype EndpointPoint = EndpointPoint(requests: nat, failures: nat, sum: real, observed: nat)

  /** A delta that arrived: its series and its aggregate. */
  datatype Sample = Sample(series: Series, agg: Agg)

  function TagOr(s: Sample, tag: string): (r: string) {
    var tags := L.Tags(s.series.labels);
    if tag in tags then tags[tag] else ""
  }

  function ScenarioOf(s: Sample): (r: string) {
    TagOr(s, LABEL_SCENARIO)
  }

  function NameOf(s: Sample): (r: string) {
    TagOr(s, LABEL_NAME)
  }

  function StatusClass(status: string): (r: string) {
    if status == "" then "other"
    else
      match status[0]
      case '0' => "error"
      case '1' => "1xx"
      case '2' => "2xx"
      case '3' => "3xx"
      case '4' => "4xx"
      case '5' => "5xx"
      case _ => "other"
  }

  /** The charts of one bucket. */
  datatype Chart = Chart(points: map<PointKey, Point>, hists: map<PointKey, Hist>,
                         status: map<string, nat>, endpoints: map<string, EndpointPoint>)

  function Blank(): (r: Chart) {
    Chart(map[], map[], map[], map[])
  }

  function PointWith(p: Point, a: Agg): (r: Point) {
    if a.kind.Gauge? then p.(count := p.count + a.count, nonZero := p.nonZero + a.nonZero, sum := p.sum + a.gauge)
    else
      Point(p.count + a.count, p.sum + a.sum,
            if a.count > 0 then Lower(p.min, MinOf(a)) else p.min,
            if a.count > 0 then Higher(p.max, MaxOf(a)) else p.max,
            p.nonZero + a.nonZero)
  }

  function PointAt(c: Chart, k: PointKey): (r: Point) {
    if k in c.points then c.points[k] else Point(0, 0.0, 0.0, 0.0, 0)
  }

  function WithPoint(c: Chart, k: PointKey, a: Agg, lay: Layout): (r: Chart) {
    var c' := c.(points := c.points[k := PointWith(PointAt(c, k), a)]);
    if a.kind.Gauge? || a.hist.NoHist? then c'
    else c'.(hists := c.hists[k := AddHist(if k in c.hists then c.hists[k] else NewHist(lay), a.hist)])
  }

  function WithPoints(c: Chart, s: Sample, lay: Layout): (r: Chart) {
    var c' := WithPoint(c, PointKey(s.series.metric, ScenarioOf(s)), s.agg, lay);
    if ScenarioOf(s) != "" then WithPoint(c', PointKey(s.series.metric, ""), s.agg, lay) else c'
  }

  predicate HasStatus(s: Sample) {
    s.series.metric == METRIC_HTTP_REQS && LABEL_STATUS in L.Tags(s.series.labels)
  }

  function WithStatus(c: Chart, s: Sample): (r: Chart) {
    if !HasStatus(s) then c
    else
      var group := StatusClass(TagOr(s, LABEL_STATUS));
      c.(status := c.status[group := (if group in c.status then c.status[group] else 0) + s.agg.count])
  }

  /** Only these metrics are charted by endpoint, and only for a name that is not empty. */
  predicate ChartsEndpoint(s: Sample) {
    NameOf(s) != "" &&
    s.series.metric in [METRIC_HTTP_REQS, METRIC_HTTP_REQ_DURATION, METRIC_HTTP_REQ_FAILED]
  }

  function EndpointWith(p: EndpointPoint, metric: string, a: Agg): (r: EndpointPoint) {
    if metric == METRIC_HTTP_REQS then p.(requests := p.requests + a.count)
    else if metric == METRIC_HTTP_REQ_DURATION then p.(sum := p.sum + a.sum, observed := p.observed + a.count)
    else if metric == METRIC_HTTP_REQ_FAILED then p.(failures := p.failures + a.nonZero)
    else p
  }

  /** The cap on charted endpoints turns a delta away. */
  predicate Refuses(c: Chart, s: Sample, cap: nat) {
    ChartsEndpoint(s) && NameOf(s) !in c.endpoints && |c.endpoints| >= cap
  }

  function WithEndpoint(c: Chart, s: Sample, cap: nat): (r: Chart) {
    var name := NameOf(s);
    if !ChartsEndpoint(s) || Refuses(c, s, cap) then c
    else
      var p := if name in c.endpoints then c.endpoints[name] else EndpointPoint(0, 0, 0.0, 0);
      c.(endpoints := c.endpoints[name := EndpointWith(p, s.series.metric, s.agg)])
  }

  function With(c: Chart, s: Sample, cap: nat, lay: Layout): (r: Chart) {
    WithEndpoint(WithStatus(WithPoints(c, s, lay), s), s, cap)
  }

  function Charted(samples: seq<Sample>, cap: nat, lay: Layout): (r: Chart) {
    if samples == [] then Blank()
    else With(Charted(samples[..|samples| - 1], cap, lay), samples[|samples| - 1], cap, lay)
  }

  // ---------------------------------------------------------------------------
  // Points add up
  // ---------------------------------------------------------------------------

  /** What a delta adds to a figure of a point; a gauge adds its reading. */
  function Adds(f: Figure, a: Agg): (r: real) {
    if !a.kind.Gauge? then Amount(f, a)
    else
      match f
      case Sum => a.gauge
      case Bin(_) => 0.0
      case _ => Amount(f, a)
  }

  function Shown(f: Figure, c: Chart, k: PointKey): (r: real) {
    var p := PointAt(c, k);
    match f
    case Count => p.count as real
    case Truthy => p.nonZero as real
    case Sum => p.sum
    case Bin(i) => if k in c.hists then BinOf(c.hists[k], i) as real else 0.0
  }

  /** The delta carries this tag with this value. */
  predicate Tagged(s: Sample, tag: string, value: string) {
    tag in L.Tags(s.series.labels) && L.Tags(s.series.labels)[tag] == value
  }

  /** A run-wide point, whose scenario is empty, takes every delta of its metric. */
  predicate Belongs(s: Sample, k: PointKey) {
    s.series.metric == k.metric && (k.scenario == "" || Tagged(s, LABEL_SCENARIO, k.scenario))
  }

  function PointSum(samples: seq<Sample>, f: Figure, k: PointKey): (r: real) {
    if samples == [] then 0.0
    else
      var s := samples[|samples| - 1];
      PointSum(samples[..|samples| - 1], f, k) + if Belongs(s, k) then Adds(f, s.agg) else 0.0
  }

  /** Every histogram has the layout's number of bins, as decoding makes sure. */
  ghost predicate Fits(h: Hist, lay: Layout) {
    h.Hist? ==> |h.counts| == lay.buckets
  }

  ghost predicate AllFit(samples: seq<Sample>, lay: Layout) {
    forall i :: 0 <= i < |samples| ==> Fits(samples[i].agg.hist, lay)
  }

  ghost predicate ChartFits(c: Chart, lay: Layout) {
    forall k :: k in c.hists ==> c.hists[k].Hist? && Fits(c.hists[k], lay)
  }

  lemma PointNumbers(c: Chart, k: PointKey, a: Agg, lay: Layout, f: Figure, j: PointKey)
    requires !f.Bin?
    ensures Shown(f, WithPoint(c, k, a, lay), j) == Shown(f, c, j) + if j == k then Adds(f, a) else 0.0
  {
    var r := WithPoint(c, k, a, lay);
    assert r.points == c.points[k := PointWith(PointAt(c, k), a)];
  }

  lemma BinAdds(t: Hist, h: Hist, lay: Layout, i: nat)
    requires (t.Hist? ==> |t.counts| == lay.buckets) && h.Hist? && |h.counts| == lay.buckets
    ensures var r := AddHist(if t.Hist? then t else NewHist(lay), h);
      r.Hist? && |r.counts| == lay.buckets && BinOf(r, i) == BinOf(t, i) + BinOf(h, i)
  {
  }

  lemma PointShows(c: Chart, k: PointKey, a: Agg, lay: Layout, f: Figure, j: PointKey)
    requires ChartFits(c, lay) && Fits(a.hist, lay)
    ensures ChartFits(WithPoint(c, k, a, lay), lay)
    ensures Shown(f, WithPoint(c, k, a, lay), j) == Shown(f, c, j) + if j == k then Adds(f, a) else 0.0
  {
    if !a.kind.Gauge? && a.hist.Hist? {
      BinAdds(if k in c.hists then c.hists[k] else NoHist, a.hist, lay, if f.Bin? then f.i else 0);
    }
    if !f.Bin? {
      PointNumbers(c, k, a, lay, f, j);
    }
  }

  lemma PointsShow(c: Chart, s: Sample, lay: Layout, f: Figure, k: PointKey)
    requires ChartFits(c, lay) && Fits(s.agg.hist, lay)
    ensures ChartFits(WithPoints(c, s, lay), lay)
    ensures Shown(f, WithPoints(c, s, lay), k) == Shown(f, c, k) + if Belongs(s, k) then Adds(f, s.agg) else 0.0
  {
    var key, run := PointKey(s.series.metric, ScenarioOf(s)), PointKey(s.series.metric, "");
    PointShows(c, key, s.agg, lay, f, k);
    if ScenarioOf(s) != "" {
      PointShows(WithPoint(c, key, s.agg, lay), run, s.agg, lay, f, k);
    }
  }

  lemma SampleShows(c: Chart, s: Sample, cap: nat, lay: Layout, f: Figure, k: PointKey)
    requires ChartFits(c, lay) && Fits(s.agg.hist, lay)
    ensures ChartFits(With(c, s, cap, lay), lay)
    ensures Shown(f, With(c, s, cap, lay), k) == Shown(f, c, k) + if Belongs(s, k) then Adds(f, s.agg) else 0.0
  {
    PointsShow(c, s, lay, f, k);
    OthersKeepPoints(WithPoints(c, s, lay), s, cap);
    SamePointsShow(WithPoints(c, s, lay), With(c, s, cap, lay), f, k);
  }

  lemma SamePointsShow(c: Chart, d: Chart, f: Figure, k: PointKey)
    requires c.points == d.points && c.hists == d.hists
    ensures Shown(f, c, k) == Shown(f, d, k)
  {
  }

  lemma EndpointKeepsOthers(c: Chart, s: Sample, cap: nat)
    ensures var r := WithEndpoint(c, s, cap); r.points == c.points && r.hists == c.hists && r.status == c.status
  {
  }

  lemma OthersKeepPoints(c: Chart, s: Sample, cap: nat)
    ensures var r := WithEndpoint(WithStatus(c, s), s, cap); r.points == c.points && r.hists == c.hists
  {
    EndpointKeepsOthers(WithStatus(c, s), s, cap);
  }

  /** Every point shows the sum over the deltas that belong to it. */
  lemma {:induction false} PointIsSum(samples: seq<Sample>, cap: nat, lay: Layout, f: Figure, k: PointKey)
    requires AllFit(samples, lay)
    ensures ChartFits(Charted(samples, cap, lay), lay)
    ensures Shown(f, Charted(samples, cap, lay), k) == PointSum(samples, f, k)
  {
    if samples != [] {
      var rest, s := samples[..|samples| - 1], samples[|samples| - 1];
      PointIsSum(rest, cap, lay, f, k);
      SampleShows(Charted(rest, cap, lay), s, cap, lay, f, k);
    }
  }

  function SumOverScenarios(samples: seq<Sample>, f: Figure, metric: string, scenarios: seq<string>): (r: real) {
    if scenarios == [] then 0.0
    else
      SumOverScenarios(samples, f, metric, scenarios[..|scenarios| - 1])
        + PointSum(samples, f, PointKey(metric, scenarios[|scenarios| - 1]))
  }

  function ShownOverScenarios(c: Chart, f: Figure, metric: string, scenarios: seq<string>): (r: real) {
    if scenarios == [] then 0.0
    else
      ShownOverScenarios(c, f, metric, scenarios[..|scenarios| - 1])
        + Shown(f, c, PointKey(metric, scenarios[|scenarios| - 1]))
  }

  /** The deltas of a metric that carry no scenario. */
  function Unlabelled(samples: seq<Sample>, f: Figure, metric: string): (r: real) {
    if samples == [] then 0.0
    else
      var s := samples[|samples| - 1];
      Unlabelled(samples[..|samples| - 1], f, metric)
        + if s.series.metric == metric && ScenarioOf(s) == "" then Adds(f, s.agg) else 0.0
  }

  /** Distinct scenario names, none of them empty. */
  ghost predicate Names(scenarios: seq<string>) {
    && (forall i :: 0 <= i < |scenarios| ==> scenarios[i] != "")
    && (forall i, j :: 0 <= i < j < |scenarios| ==> scenarios[i] != scenarios[j])
  }

  ghost predicate Covers(scenarios: seq<string>, samples: seq<Sample>, metric: string) {
    forall i :: 0 <= i < |samples| && samples[i].series.metric == metric && ScenarioOf(samples[i]) != ""
      ==> ScenarioOf(samples[i]) in scenarios
  }

  lemma {:induction false} OneMoreSample(samples: seq<Sample>, s: Sample, f: Figure, metric: string,
                                         scenarios: seq<string>)
    requires Names(scenarios)
    ensures SumOverScenarios(samples + [s], f, metric, scenarios) == SumOverScenarios(samples, f, metric, scenarios)
      + if s.series.metric == metric && ScenarioOf(s) in scenarios then Adds(f, s.agg) else 0.0
  {
    assert (samples + [s])[..|samples|] == samples;
    if scenarios != [] {
      var rest, last := scenarios[..|scenarios| - 1], scenarios[|scenarios| - 1];
      OneMoreSample(samples, s, f, metric, rest);
      assert scenarios == rest + [last];
    }
  }

  lemma {:induction false} NoSamples(f: Figure, metric: string, scenarios: seq<string>)
    ensures SumOverScenarios([], f, metric, scenarios) == 0.0
  {
    if scenarios != [] {
      NoSamples(f, metric, scenarios[..|scenarios| - 1]);
    }
  }

  lemma {:induction false} SplitsByScenario(samples: seq<Sample>, f: Figure, metric: string, scenarios: seq<string>)
    requires Names(scenarios) && Covers(scenarios, samples, metric)
    ensures PointSum(samples, f, PointKey(metric, ""))
         == SumOverScenarios(samples, f, metric, scenarios) + Unlabelled(samples, f, metric)
  {
    if samples == [] {
      NoSamples(f, metric, scenarios);
    } else {
      var rest, s := samples[..|samples| - 1], samples[|samples| - 1];
      SplitsByScenario(rest, f, metric, scenarios);
      OneMoreSample(rest, s, f, metric, scenarios);
      assert samples == rest + [s];
      assert "" !in scenarios;
    }
  }

  lemma {:induction false} ShownIsSum(samples: seq<Sample>, cap: nat, lay: Layout, f: Figure, metric: string,
                                      scenarios: seq<string>)
    requires AllFit(samples, lay)
    ensures ShownOverScenarios(Charted(samples, cap, lay), f, metric, scenarios)
         == SumOverScenarios(samples, f, metric, scenarios)
  {
    if scenarios != [] {
      ShownIsSum(samples, cap, lay, f, metric, scenarios[..|scenarios| - 1]);
      PointIsSum(samples, cap, lay, f, PointKey(metric, scenarios[|scenarios| - 1]));
    }
  }

  /**
   The roll-up: count, truthy count, sum and every histogram bin of a metric's run-wide point are the
   sums over its per-scenario points and the deltas that carry no scenario.
   */
  lemma RollUp(samples: seq<Sample>, cap: nat, lay: Layout, f: Figure, metric: string, scenarios: seq<string>)
    requires AllFit(samples, lay) && Names(scenarios) && Covers(scenarios, samples, metric)
    ensures var c := Charted(samples, cap, lay);
      Shown(f, c, PointKey(metric, "")) == ShownOverScenarios(c, f, metric, scenarios) + Unlabelled(samples, f, metric)
  {
    PointIsSum(samples, cap, lay, f, PointKey(metric, ""));
    ShownIsSum(samples, cap, lay, f, metric, scenarios);
    SplitsByScenario(samples, f, metric, scenarios);
  }

  // ---------------------------------------------------------------------------
  // Extremes
  // ---------------------------------------------------------------------------

  /** The minima of the non-empty deltas of a point, in the order they arrived; gauges have none. */
  function PointMinima(samples: seq<Sample>, k: PointKey): (r: seq<real>) {
    if samples == [] then []
    else
      var s := samples[|samples| - 1];
      PointMinima(samples[..|samples| - 1], k) +
        if Belongs(s, k) && Moves(s.agg) then [MinOf(s.agg)] else []
  }

  function PointMaxima(samples: seq<Sample>, k: PointKey): (r: seq<real>) {
    if samples == [] then []
    else
      var s := samples[|samples| - 1];
      PointMaxima(samples[..|samples| - 1], k) +
        if Belongs(s, k) && Moves(s.agg) then [MaxOf(s.agg)] else []
  }

  lemma ExtremesStep(xs: seq<real>, x: real)
    ensures Lowest(xs + [x]) == Lower(Lowest(xs), x) && Highest(xs + [x]) == Higher(Highest(xs), x)
    ensures Lowest(xs + []) == Lowest(xs) && Highest(xs + []) == Highest(xs)
  {
    assert (xs + [x])[..|xs|] == xs && xs + [] == xs;
  }

  /** A delta moves the extremes of a point only if it is a non-empty one of no gauge. */
  predicate Moves(a: Agg) {
    !a.kind.Gauge? && a.count > 0
  }

  ghost predicate Moved(p: Point, q: Point, a: Agg, moves: bool) {
    && q.min == (if moves then Lower(p.min, MinOf(a)) else p.min)
    && q.max == (if moves then Higher(p.max, MaxOf(a)) else p.max)
  }

  lemma PointMoves(c: Chart, k: PointKey, a: Agg, lay: Layout, j: PointKey)
    ensures Moved(PointAt(c, j), PointAt(WithPoint(c, k, a, lay), j), a, j == k && Moves(a))
  {
    var r := WithPoint(c, k, a, lay);
    assert r.points == c.points[k := PointWith(PointAt(c, k), a)];
  }

  lemma SampleExtremes(c: Chart, s: Sample, cap: nat, lay: Layout, k: PointKey)
    ensures Moved(PointAt(c, k), PointAt(With(c, s, cap, lay), k), s.agg, Belongs(s, k) && Moves(s.agg))
  {
    var key, run := PointKey(s.series.metric, ScenarioOf(s)), PointKey(s.series.metric, "");
    PointMoves(c, key, s.agg, lay, k);
    if ScenarioOf(s) != "" {
      PointMoves(WithPoint(c, key, s.agg, lay), run, s.agg, lay, k);
    }
    OthersKeepPoints(WithPoints(c, s, lay), s, cap);
  }

  /** A point's extremes are the running ones over its deltas, so when they are true extremes is known. */
  lemma {:induction false} PointExtremes(samples: seq<Sample>, cap: nat, lay: Layout, k: PointKey)
    ensures var p := PointAt(Charted(samples, cap, lay), k);
      && p.min == Lowest(PointMinima(samples, k)) && p.max == Highest(PointMaxima(samples, k))
      && (PointMinima(samples, k) != [] ==>
            var xs := PointMinima(samples, k);
            (IsMin(p.min, xs) <==> HasNegative(xs) || 0.0 !in xs || xs[|xs| - 1] == 0.0))
  {
    if samples != [] {
      var rest, s := samples[..|samples| - 1], samples[|samples| - 1];
      PointExtremes(rest, cap, lay, k);
      SampleExtremes(Charted(rest, cap, lay), s, cap, lay, k);
      ExtremesStep(PointMinima(rest, k), MinOf(s.agg));
      ExtremesStep(PointMaxima(rest, k), MaxOf(s.agg));
    }
    if PointMinima(samples, k) != [] {
      LowestIff(PointMinima(samples, k));
    }
  }

  // ---------------------------------------------------------------------------
  // Status classes and endpoints
  // ---------------------------------------------------------------------------

  /** The requests of the deltas that carry a status. */
  function StatusCount(samples: seq<Sample>): (r: nat) {
    if samples == [] then 0
    else
      var s := samples[|samples| - 1];
      StatusCount(samples[..|samples| - 1])
        + if s.series.metric == METRIC_HTTP_REQS && LABEL_STATUS in L.Tags(s.series.labels) then s.agg.count else 0
  }

  lemma PointsKeepOthers(c: Chart, s: Sample, lay: Layout)
    ensures var r := WithPoints(c, s, lay); r.status == c.status && r.endpoints == c.endpoints
  {
  }

  lemma StatusStep(c: Chart, s: Sample)
    ensures SumValues(WithStatus(c, s).status) == SumValues(c.status) + if HasStatus(s) then s.agg.count else 0
  {
    if HasStatus(s) {
      var group := StatusClass(TagOr(s, LABEL_STATUS));
      SumPut(c.status, group, (if group in c.status then c.status[group] else 0) + s.agg.count);
    }
  }

  lemma SampleStatus(c: Chart, s: Sample, cap: nat, lay: Layout)
    ensures SumValues(With(c, s, cap, lay).status) == SumValues(c.status) + if HasStatus(s) then s.agg.count else 0
  {
    PointsKeepOthers(c, s, lay);
    StatusStep(WithPoints(c, s, lay), s);
    EndpointKeepsOthers(WithStatus(WithPoints(c, s, lay), s), s, cap);
  }

  /** The status classes together are the request count that carries a status. */
  lemma {:induction false} StatusAddsUp(samples: seq<Sample>, cap: nat, lay: Layout)
    ensures SumValues(Charted(samples, cap, lay).status) == StatusCount(samples)
  {
    if samples != [] {
      var rest, s := samples[..|samples| - 1], samples[|samples| - 1];
      StatusAddsUp(rest, cap, lay);
      SampleStatus(Charted(rest, cap, lay), s, cap, lay);
    }
  }

  /** The requests of the deltas whose status falls in one class. */
  function ClassCount(samples: seq<Sample>, group: string): (r: nat) {
    if samples == [] then 0
    else
      var s := samples[|samples| - 1];
      ClassCount(samples[..|samples| - 1], group)
        + if s.series.metric == METRIC_HTTP_REQS && InClass(s, group) then s.agg.count else 0
  }

  /** The delta carries a status of this class. */
  predicate InClass(s: Sample, group: string) {
    LABEL_STATUS in L.Tags(s.series.labels) && StatusClass(L.Tags(s.series.labels)[LABEL_STATUS]) == group
  }

  /** Each status class counts the requests of its own statuses. */
  lemma {:induction false} ClassIsCount(samples: seq<Sample>, cap: nat, lay: Layout, group: string)
    ensures var c := Charted(samples, cap, lay);
      (if group in c.status then c.status[group] else 0) == ClassCount(samples, group)
  {
    if samples != [] {
      var rest, s := samples[..|samples| - 1], samples[|samples| - 1];
      ClassIsCount(rest, cap, lay, group);
      var c := Charted(rest, cap, lay);
      PointsKeepOthers(c, s, lay);
      EndpointKeepsOthers(WithStatus(WithPoints(c, s, lay), s), s, cap);
    }
  }

  /** The classes are the first digit of the status, with 0 for requests that never got one. */
  lemma ClassIsFirstDigit(status: string)
    ensures status != "" && '1' <= status[0] <= '5' ==> StatusClass(status) == [status[0]] + "xx"
    ensures StatusClass(status) == "error" <==> status != "" && status[0] == '0'
    ensures StatusClass(status) == "other" <==> status == "" || !('0' <= status[0] <= '5')
  {
    assert "1xx"[0] == '1' && "2xx"[0] == '2' && "3xx"[0] == '3' && "4xx"[0] == '4' && "5xx"[0] == '5';
    assert "error"[0] == 'e' && "other"[0] == 'o';
  }

  /** What an endpoint's line would show if nothing were ever refused. */
  function EndpointOf(samples: seq<Sample>, name: string): (r: EndpointPoint) {
    if samples == [] then EndpointPoint(0, 0, 0.0, 0)
    else
      var p, s := EndpointOf(samples[..|samples| - 1], name), samples[|samples| - 1];
      if ChartsEndpoint(s) && NameOf(s) == name then EndpointWith(p, s.series.metric, s.agg) else p
  }

  ghost predicate Named(samples: seq<Sample>, name: string) {
    exists i :: 0 <= i < |samples| && ChartsEndpoint(samples[i]) && NameOf(samples[i]) == name
  }

  ghost predicate EndpointRight(samples: seq<Sample>, c: Chart, cap: nat, name: string) {
    && |c.endpoints| <= cap
    && (name in c.endpoints ==> Named(samples, name) && c.endpoints[name] == EndpointOf(samples, name))
    && (name !in c.endpoints && Named(samples, name) ==> |c.endpoints| == cap)
    && (!Named(samples, name) ==> EndpointOf(samples, name) == EndpointPoint(0, 0, 0.0, 0))
  }

  lemma NamedStep(samples: seq<Sample>, s: Sample, name: string)
    ensures Named(samples + [s], name) <==> Named(samples, name) || (ChartsEndpoint(s) && NameOf(s) == name)
    ensures var p, hit := EndpointOf(samples, name), ChartsEndpoint(s) && NameOf(s) == name;
      EndpointOf(samples + [s], name) == if hit then EndpointWith(p, s.series.metric, s.agg) else p
  {
    assert (samples + [s])[..|samples|] == samples;
    if Named(samples, name) {
      var i :| 0 <= i < |samples| && ChartsEndpoint(samples[i]) && NameOf(samples[i]) == name;
      assert (samples + [s])[i] == samples[i];
    }
    if ChartsEndpoint(s) && NameOf(s) == name {
      assert (samples + [s])[|samples|] == s;
    }
  }

  /** Refusing or admitting one delta of an endpoint, as far as sizes and keys go. */
  lemma EndpointKeys(c: Chart, s: Sample, cap: nat)
    requires ChartsEndpoint(s) && |c.endpoints| <= cap
    ensures var r := WithEndpoint(c, s, cap);
      && |c.endpoints| <= |r.endpoints| <= cap
      && (NameOf(s) !in r.endpoints ==> |r.endpoints| == cap)
      && (forall n :: n in r.endpoints <==> n in c.endpoints || (n == NameOf(s) && |c.endpoints| < cap))
  {
    var name := NameOf(s);
    var p := if name in c.endpoints then c.endpoints[name] else EndpointPoint(0, 0, 0.0, 0);
    PutKeys(c.endpoints, name, EndpointWith(p, s.series.metric, s.agg));
  }

  lemma EndpointValue(c: Chart, s: Sample, cap: nat, name: string)
    ensures var r := WithEndpoint(c, s, cap);
      var hit := ChartsEndpoint(s) && NameOf(s) == name;
      var before := if name in c.endpoints then c.endpoints[name] else EndpointPoint(0, 0, 0.0, 0);
      && (name in c.endpoints ==> name in r.endpoints)
      && (name !in c.endpoints && name in r.endpoints ==> hit)
      && (name in r.endpoints ==>
            r.endpoints[name] == if hit then EndpointWith(before, s.series.metric, s.agg) else before)
  {
  }

  lemma EndpointStep(samples: seq<Sample>, c: Chart, s: Sample, cap: nat, name: string)
    requires EndpointRight(samples, c, cap, name)
    ensures EndpointRight(samples + [s], WithEndpoint(c, s, cap), cap, name)
  {
    NamedStep(samples, s, name);
    EndpointValue(c, s, cap, name);
    if ChartsEndpoint(s) {
      EndpointKeys(c, s, cap);
    }
  }

  /**
   A charted endpoint has everything that was ever reported under its name; one that is not charted was never let in.
   */
  lemma {:induction false} EndpointsComplete(samples: seq<Sample>, cap: nat, lay: Layout, name: string)
    ensures EndpointRight(samples, Charted(samples, cap, lay), cap, name)
  {
    if samples != [] {
      var rest, s := samples[..|samples| - 1], samples[|samples| - 1];
      EndpointsComplete(rest, cap, lay, name);
      var c := Charted(rest, cap, lay);
      PointsKeepOthers(c, s, lay);
      EndpointStep(rest, WithStatus(WithPoints(c, s, lay), s), s, cap, name);
      assert samples == rest + [s];
    }
  }

  /** The columns of an endpoint's line. */
  datatype Column = Requests | Failures | Durations | Timed

  function Contribution(c: Column, metric: string, a: Agg): (r: real) {
    match c
    case Requests => if metric == METRIC_HTTP_REQS then a.count as real else 0.0
    case Failures => if metric == METRIC_HTTP_REQ_FAILED then a.nonZero as real else 0.0
    case Durations => if metric == METRIC_HTTP_REQ_DURATION then a.sum else 0.0
    case Timed => if metric == METRIC_HTTP_REQ_DURATION then a.count as real else 0.0
  }

  function ColumnSum(samples: seq<Sample>, name: string, c: Column): (r: real) {
    if samples == [] then 0.0
    else
      var s := samples[|samples| - 1];
      ColumnSum(samples[..|samples| - 1], name, c)
        + if Tagged(s, LABEL_NAME, name) then Contribution(c, s.series.metric, s.agg) else 0.0
  }

  /** A line's columns are sums over the deltas of its name: requests, failures, and durations with their number. */
  lemma {:induction false} EndpointAddsUp(samples: seq<Sample>, name: string)
    requires name != ""
    ensures var p := EndpointOf(samples, name);
      && p.requests as real == ColumnSum(samples, name, Requests)
      && p.failures as real == ColumnSum(samples, name, Failures)
      && p.sum == ColumnSum(samples, name, Durations) && p.observed as real == ColumnSum(samples, name, Timed)
  {
    if samples != [] {
      EndpointAddsUp(samples[..|samples| - 1], name);
      MetricsDiffer();
    }
  }

  lemma MetricsDiffer()
    ensures METRIC_HTTP_REQS != METRIC_HTTP_REQ_DURATION && METRIC_HTTP_REQS != METRIC_HTTP_REQ_FAILED
    ensures METRIC_HTTP_REQ_DURATION != METRIC_HTTP_REQ_FAILED
  {
    assert |METRIC_HTTP_REQS| != |METRIC_HTTP_REQ_DURATION| && METRIC_HTTP_REQ_DURATION[9] != METRIC_HTTP_REQ_FAILED[9];
  }
}
