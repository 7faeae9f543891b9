/**
 What the timeline and the stream show: the figures of a finalised bucket, told from the batches that landed in it,
 and what a store counts of the things it turned away.
 */
module Finished {

  import opened Aggregates
  import opened Buckets
  import opened Extremes
  import opened Maps
  import opened StoreBuckets
  import opened Window
  import opened Wire

  // ---------------------------------------------------------------------------
  // Finalised buckets
  // ---------------------------------------------------------------------------

  function Nodes(parts: seq<Part>): (r: set<string>) {
    set i | 0 <= i < |parts| :: parts[i].node
  }

  /** What each node reported last. */
  function ReportedVUs(parts: seq<Part>): (r: map<string, nat>) {
    map n | n in Nodes(parts) && LatestVUs(parts, n) >= 0 :: LatestVUs(parts, n)
  }

  lemma {:induction false} ReportsAreNodes(parts: seq<Part>, n: string)
    ensures LatestVUs(parts, n) >= 0 <==> n in Nodes(parts)
  {
    if parts != [] {
      var k := |parts| - 1;
      ReportsAreNodes(parts[..k], n);
      if n in Nodes(parts[..k]) {
        var i :| 0 <= i < k && parts[..k][i].node == n;
        assert parts[i].node == n;
      }
      if n in Nodes(parts) && parts[k].node != n {
        var i :| 0 <= i <= k && parts[i].node == n;
        assert parts[..k][i].node == n;
      }
    }
  }

  ghost predicate SomeBelongs(samples: seq<Sample>, k: PointKey) {
    exists i :: 0 <= i < |samples| && Belongs(samples[i], k)
  }

  /**
   One point of the bucket, which is there exactly if some delta belongs to it: count, truthy count and sum over its
   deltas, and their running extremes.
   */
  ghost predicate PointOf(b: Bucket, samples: seq<Sample>, k: PointKey) {
    var p := PointAt(b.chart, k);
    && (k in b.chart.points <==> SomeBelongs(samples, k))
    && p.count as real == PointSum(samples, Count, k) && p.nonZero as real == PointSum(samples, Truthy, k)
    && p.sum == PointSum(samples, Sum, k)
    && p.min == Lowest(PointMinima(samples, k)) && p.max == Highest(PointMaxima(samples, k))
  }

  /** The counts its percentiles are read from: there are some exactly if some delta brought a count, and which. */
  ghost predicate PercentilesOf(b: Bucket, samples: seq<Sample>, k: PointKey, buckets: nat) {
    && (k in b.percentiles <==> exists i: nat :: i < buckets && PointSum(samples, Bin(i), k) > 0.0)
    && (k in b.percentiles ==>
          && |b.percentiles[k]| == buckets
          && forall i: nat :: i < buckets ==> b.percentiles[k][i] as real == PointSum(samples, Bin(i), k))
  }

  ghost predicate ClassOf(b: Bucket, samples: seq<Sample>, group: string) {
    (if group in b.chart.status then b.chart.status[group] else 0) == ClassCount(samples, group)
  }

  /** Everything a bucket shows once it is finalised, of a filling: nothing but working state is gone. */
  ghost predicate ShowsFilling(b: Bucket, cfg: StoreConfig, f: Filling<Part>)
    requires ValidConfig(cfg)
  {
    var samples := AllSamples(f.parts);
    && b.start == Truncated(cfg.grid, f.first)
    && b.activeVUs == SumValues(ReportedVUs(f.parts)) % UINT32
    && (forall k :: PointOf(b, samples, k)) && (forall k :: PercentilesOf(b, samples, k, cfg.layout.buckets))
    && (forall group :: ClassOf(b, samples, group))
    && (forall name :: EndpointRight(samples, b.chart, cfg.maxEndpoints, name))
  }

  lemma SameVUs(b: Bucket, parts: seq<Part>)
    requires forall n :: n in b.vusByNode <==> LatestVUs(parts, n) >= 0
    requires forall n :: n in b.vusByNode ==> b.vusByNode[n] == LatestVUs(parts, n)
    ensures b.vusByNode == ReportedVUs(parts)
  {
    forall n
      ensures n in b.vusByNode <==> n in ReportedVUs(parts)
    {
      ReportsAreNodes(parts, n);
    }
  }

  /** Finalising keeps what was charted, and releases what it was charted with. */
  lemma FinalisedKeeps(b: Bucket)
    ensures var r := Finalised(b);
      && r.start == b.start && r.activeVUs == b.activeVUs && r.chart.points == b.chart.points
      && r.chart.status == b.chart.status && r.chart.endpoints == b.chart.endpoints
      && r.chart.hists == map[] && r.vusByNode == map[]
  {
  }

  lemma PointKept(b: Bucket, samples: seq<Sample>, cfg: StoreConfig, k: PointKey)
    requires b.chart == Charted(samples, cfg.maxEndpoints, cfg.layout) && AllFit(samples, cfg.layout)
    ensures PointOf(Finalised(b), samples, k)
  {
    FinalisedKeeps(b);
    PointsAre(samples, cfg.maxEndpoints, cfg.layout, k);
    PointIsSum(samples, cfg.maxEndpoints, cfg.layout, Count, k);
    PointIsSum(samples, cfg.maxEndpoints, cfg.layout, Truthy, k);
    PointIsSum(samples, cfg.maxEndpoints, cfg.layout, Sum, k);
    PointExtremes(samples, cfg.maxEndpoints, cfg.layout, k);
  }

  lemma {:induction false} SomeCount(counts: seq<nat>)
    ensures Total(counts) > 0 <==> exists i: nat :: i < |counts| && counts[i] > 0
  {
    if counts != [] {
      SomeCount(counts[1..]);
      if i: nat :| i < |counts[1..]| && counts[1..][i] > 0 {
        assert counts[i + 1] > 0;
      }
      if i: nat :| i < |counts| && counts[i] > 0 {
        assert i > 0 ==> counts[1..][i - 1] > 0;
      }
    }
  }

  lemma SomeBelongsStep(rest: seq<Sample>, s: Sample, k: PointKey)
    ensures SomeBelongs(rest + [s], k) <==> SomeBelongs(rest, k) || Belongs(s, k)
  {
    if i :| 0 <= i < |rest| && Belongs(rest[i], k) {
      assert Belongs((rest + [s])[i], k);
    }
    if Belongs(s, k) {
      assert Belongs((rest + [s])[|rest|], k);
    }
  }

  lemma PointKeys(c: Chart, k: PointKey, a: Agg, lay: Layout, j: PointKey)
    ensures var r := WithPoint(c, k, a, lay);
      (j in r.points <==> j in c.points || j == k) && (j in r.hists ==> j in c.hists || j == k)
  {
  }

  lemma SampleKeys(c: Chart, s: Sample, cap: nat, lay: Layout, k: PointKey)
    ensures var r := With(c, s, cap, lay);
      (k in r.points <==> k in c.points || Belongs(s, k)) && (k in r.hists ==> k in c.hists || Belongs(s, k))
  {
    var key, run := PointKey(s.series.metric, ScenarioOf(s)), PointKey(s.series.metric, "");
    PointKeys(c, key, s.agg, lay, k);
    if ScenarioOf(s) != "" {
      PointKeys(WithPoint(c, key, s.agg, lay), run, s.agg, lay, k);
    }
    OthersKeepPoints(WithPoints(c, s, lay), s, cap);
  }

  /** There is a point exactly if some delta belongs to it, and only a point has a histogram. */
  lemma {:induction false} PointsAre(samples: seq<Sample>, cap: nat, lay: Layout, k: PointKey)
    ensures var c := Charted(samples, cap, lay);
      (k in c.points <==> SomeBelongs(samples, k)) && (k in c.hists ==> k in c.points)
  {
    if samples != [] {
      var rest, s := samples[..|samples| - 1], samples[|samples| - 1];
      assert samples == rest + [s];
      PointsAre(rest, cap, lay, k);
      SampleKeys(Charted(rest, cap, lay), s, cap, lay, k);
      SomeBelongsStep(rest, s, k);
    }
  }

  lemma PercentilesKept(b: Bucket, samples: seq<Sample>, cfg: StoreConfig, k: PointKey)
    requires b.chart == Charted(samples, cfg.maxEndpoints, cfg.layout) && AllFit(samples, cfg.layout)
    ensures PercentilesOf(Finalised(b), samples, k, cfg.layout.buckets)
  {
    var lay := cfg.layout;
    PointsAre(samples, cfg.maxEndpoints, lay, k);
    PointIsSum(samples, cfg.maxEndpoints, lay, Count, k);
    forall i: nat | i < lay.buckets
      ensures PointSum(samples, Bin(i), k) == if k in b.chart.hists then BinOf(b.chart.hists[k], i) as real else 0.0
    {
      PointIsSum(samples, cfg.maxEndpoints, lay, Bin(i), k);
    }
    if k in b.chart.hists {
      var counts := b.chart.hists[k].counts;
      SomeCount(counts);
      if i: nat :| i < |counts| && counts[i] > 0 {
        assert PointSum(samples, Bin(i), k) > 0.0;
      }
    }
  }

  /** A finalised bucket shows everything that landed in it. */
  lemma FinalShows(cfg: StoreConfig, f: Filling<Part>)
    requires ValidConfig(cfg) && AllFit(AllSamples(f.parts), cfg.layout)
    ensures ShowsFilling(Finalised(BucketOf(cfg, f)), cfg, f)
  {
    var b, samples := BucketOf(cfg, f), AllSamples(f.parts);
    BucketShows(cfg, f);
    SameVUs(b, f.parts);
    FinalisedKeeps(b);
    forall k
      ensures PointOf(Finalised(b), samples, k) && PercentilesOf(Finalised(b), samples, k, cfg.layout.buckets)
    {
      PointKept(b, samples, cfg, k);
      PercentilesKept(b, samples, cfg, k);
    }
    forall group
      ensures ClassOf(Finalised(b), samples, group)
    {
      ClassIsCount(samples, cfg.maxEndpoints, cfg.layout, group);
    }
    forall name
      ensures EndpointRight(samples, Finalised(b).chart, cfg.maxEndpoints, name)
    {
      EndpointsComplete(samples, cfg.maxEndpoints, cfg.layout, name);
    }
  }

  // ---------------------------------------------------------------------------
  // Over every run
  // ---------------------------------------------------------------------------

  /** What decoding makes sure of: every histogram that arrived has the layout's number of bins. */
  ghost predicate BatchesFit(steps: seq<Step<Part>>, lay: Layout) {
    forall i :: 0 <= i < |steps| && steps[i].Batch? ==> AllFit(steps[i].part.samples, lay)
  }

  ghost predicate PartsFit(f: Filling<Part>, lay: Layout) {
    forall i :: 0 <= i < |f.parts| ==> AllFit(f.parts[i].samples, lay)
  }

  ghost predicate WindowFits(w: Win<Part>, lay: Layout) {
    && (forall i :: i in w.open ==> PartsFit(w.open[i], lay))
    && (forall k :: 0 <= k < |w.history| ==> PartsFit(w.history[k].bucket, lay))
  }

  lemma WindowFitsClose(g: Grid, w: Win<Part>, now: int, lay: Layout)
    requires ValidGrid(g) && WindowFits(w, lay)
    ensures WindowFits(Closed(g, w, now), lay)
  {
    var r := Closed(g, w, now);
    var order := Ascending(Stale(g, w, now));
    forall k | 0 <= k < |r.history|
      ensures PartsFit(r.history[k].bucket, lay)
    {
      if k >= |w.history| {
        assert order[k - |w.history|] in Stale(g, w, now);
      }
    }
  }

  lemma {:induction false} RunFits(g: Grid, steps: seq<Step<Part>>, lay: Layout)
    requires ValidGrid(g) && BatchesFit(steps, lay)
    ensures WindowFits(Run(g, steps), lay)
  {
    if steps != [] {
      var rest, e := steps[..|steps| - 1], steps[|steps| - 1];
      RunFits(g, rest, lay);
      if e.Close? {
        WindowFitsClose(g, Run(g, rest), e.now, lay);
      }
    }
  }

  lemma {:induction false} AllSamplesFit(parts: seq<Part>, lay: Layout)
    requires forall i :: 0 <= i < |parts| ==> AllFit(parts[i].samples, lay)
    ensures AllFit(AllSamples(parts), lay)
  {
    if parts != [] {
      AllSamplesFit(parts[..|parts| - 1], lay);
    }
  }

  /**
   Over every run, every finalised bucket shows exactly what landed in it: its points their counts, sums and running
   extremes, the counts for percentiles, the requests by status class and by endpoint, and the virtual users its nodes
   last reported.
   */
  lemma TimelineShows(cfg: StoreConfig, steps: seq<Step<Part>>, k: nat)
    requires ValidConfig(cfg) && BatchesFit(steps, cfg.layout) && k < |Run(cfg.grid, steps).history|
    ensures var slots := Run(cfg.grid, steps).history;
      |Finals(cfg, slots)| == |slots| && ShowsFilling(Finals(cfg, slots)[k], cfg, slots[k].bucket)
  {
    RunFits(cfg.grid, steps, cfg.layout);
    var f := Run(cfg.grid, steps).history[k].bucket;
    assert PartsFit(f, cfg.layout);
    AllSamplesFit(f.parts, cfg.layout);
    FinalShows(cfg, f);
  }

  // ---------------------------------------------------------------------------
  // What was turned away
  // ---------------------------------------------------------------------------

  /** The deltas for an endpoint that is not charted. */
  ghost function Uncharted(samples: seq<Sample>, names: set<string>): (r: nat) {
    if samples == [] then 0
    else
      var s := samples[|samples| - 1];
      Uncharted(samples[..|samples| - 1], names) + if ChartsEndpoint(s) && NameOf(s) !in names then 1 else 0
  }

  lemma {:induction false} UnchartedSame(samples: seq<Sample>, names: set<string>, name: string)
    requires !Named(samples, name)
    ensures Uncharted(samples, names + {name}) == Uncharted(samples, names)
  {
    if samples != [] {
      var rest, s := samples[..|samples| - 1], samples[|samples| - 1];
      assert samples == rest + [s];
      NamedStep(rest, s, name);
      UnchartedSame(rest, names, name);
    }
  }

  /** The refused deltas are exactly those for endpoints that are not charted. */
  lemma {:induction false} RefusedAreUncharted(samples: seq<Sample>, cap: nat, lay: Layout)
    ensures RefusedOn(Blank(), samples, cap, lay) == Uncharted(samples, Charted(samples, cap, lay).endpoints.Keys)
  {
    if samples != [] {
      var rest, s := samples[..|samples| - 1], samples[|samples| - 1];
      var c := Charted(rest, cap, lay);
      RefusedAreUncharted(rest, cap, lay);
      ChartedIsOn(rest, cap, lay);
      PointsKeepOthers(c, s, lay);
      var d := WithStatus(WithPoints(c, s, lay), s);
      EndpointsComplete(rest, cap, lay, NameOf(s));
      if ChartsEndpoint(s) {
        EndpointKeys(d, s, cap);
        if NameOf(s) !in c.endpoints && |c.endpoints| < cap {
          UnchartedSame(rest, c.endpoints.Keys, NameOf(s));
          assert WithEndpoint(d, s, cap).endpoints.Keys == c.endpoints.Keys + {NameOf(s)};
        } else {
          assert WithEndpoint(d, s, cap).endpoints.Keys == c.endpoints.Keys;
        }
      }
    }
  }

  /** The deltas of series that are not held. */
  ghost function Unheld(samples: seq<Sample>, held: set<Series>): (r: nat) {
    if samples == [] then 0
    else Unheld(samples[..|samples| - 1], held) + if samples[|samples| - 1].series in held then 0 else 1
  }

  ghost predicate Among(samples: seq<Sample>, s: Series) {
    exists i :: 0 <= i < |samples| && samples[i].series == s
  }

  lemma AmongStep(rest: seq<Sample>, x: Sample, s: Series)
    ensures Among(rest + [x], s) <==> Among(rest, s) || x.series == s
  {
    if i :| 0 <= i < |rest| && rest[i].series == s {
      assert (rest + [x])[i].series == s;
    }
    if x.series == s {
      assert (rest + [x])[|rest|].series == s;
    }
  }

  lemma {:induction false} UnheldSame(samples: seq<Sample>, held: set<Series>, s: Series)
    requires !Among(samples, s)
    ensures Unheld(samples, held + {s}) == Unheld(samples, held)
  {
    if samples != [] {
      var rest, x := samples[..|samples| - 1], samples[|samples| - 1];
      assert samples == rest + [x];
      AmongStep(rest, x, s);
      UnheldSame(rest, held, s);
    }
  }

  /** A series that was turned away met a full store. */
  lemma {:induction false} TurnedAwayIfFull(cum: map<Series, Agg>, samples: seq<Sample>, cap: nat, lay: Layout,
                                            s: Series)
    requires Among(samples, s) && s !in Absorb(cum, samples, cap, lay)
    ensures |Absorb(cum, samples, cap, lay)| >= cap
  {
    var rest, x := samples[..|samples| - 1], samples[|samples| - 1];
    assert samples == rest + [x];
    AmongStep(rest, x, s);
    var before := Absorb(cum, rest, cap, lay);
    if x.series in before {
      PutKeys(before, x.series, LandAgg(before[x.series], x.agg));
    } else {
      PutKeys(before, x.series, LandAgg(New(x.agg.kind, lay), x.agg));
    }
    if x.series != s {
      TurnedAwayIfFull(cum, rest, cap, lay, s);
    }
  }

  /** The deltas turned away are exactly those of series the store does not hold afterwards. */
  lemma {:induction false} TurnedAwayAreUnheld(cum: map<Series, Agg>, samples: seq<Sample>, cap: nat, lay: Layout)
    ensures TurnedAway(cum, samples, cap, lay) == Unheld(samples, Absorb(cum, samples, cap, lay).Keys)
  {
    if samples != [] {
      var rest, x := samples[..|samples| - 1], samples[|samples| - 1];
      var before := Absorb(cum, rest, cap, lay);
      TurnedAwayAreUnheld(cum, rest, cap, lay);
      if x.series in before {
        assert Absorb(cum, samples, cap, lay).Keys == before.Keys;
      } else if |before| < cap {
        if Among(rest, x.series) {
          TurnedAwayIfFull(cum, rest, cap, lay, x.series);
        }
        UnheldSame(rest, before.Keys, x.series);
        assert Absorb(cum, samples, cap, lay).Keys == before.Keys + {x.series};
      }
    }
  }

  // ---------------------------------------------------------------------------
  // Gauges, and what nodes turned away
  // ---------------------------------------------------------------------------

  /** The latest reading of a series, and how many there were. */
  ghost function LatestReading(samples: seq<Sample>, s: Series): (r: real) {
    if samples == [] then 0.0
    else if samples[|samples| - 1].series == s then samples[|samples| - 1].agg.gauge
    else LatestReading(samples[..|samples| - 1], s)
  }

  ghost function Readings(samples: seq<Sample>, s: Series): (r: nat) {
    if samples == [] then 0
    else Readings(samples[..|samples| - 1], s) + if samples[|samples| - 1].series == s then 1 else 0
  }

  ghost predicate GaugeSeries(samples: seq<Sample>, s: Series) {
    forall i :: 0 <= i < |samples| && samples[i].series == s ==> samples[i].agg.kind.Gauge?
  }

  /** A gauge the store holds shows the latest reading that arrived, not a sum, and counts them all. */
  lemma {:induction false} GaugeIsLatest(samples: seq<Sample>, cap: nat, lay: Layout, s: Series)
    requires GaugeSeries(samples, s)
    ensures var cum := Absorb(map[], samples, cap, lay);
      && (s in cum ==>
            && cum[s].kind.Gauge? && cum[s].gauge == LatestReading(samples, s)
            && cum[s].count == Readings(samples, s) && cum[s].sum == 0.0)
      && (s !in cum && Among(samples, s) ==> |cum| >= cap)
  {
    if samples != [] {
      var rest, x := samples[..|samples| - 1], samples[|samples| - 1];
      assert samples == rest + [x];
      assert GaugeSeries(rest, s);
      GaugeIsLatest(rest, cap, lay, s);
      AmongStep(rest, x, s);
      var before := Absorb(map[], rest, cap, lay);
      if s !in Absorb(map[], samples, cap, lay) && Among(samples, s) {
        TurnedAwayIfFull(map[], samples, cap, lay, s);
      }
      if s !in before && x.series == s && |before| < cap {
        NothingRead(rest, s);
      }
    }
  }

  lemma {:induction false} NothingRead(samples: seq<Sample>, s: Series)
    requires !Among(samples, s)
    ensures Readings(samples, s) == 0
  {
    if samples != [] {
      var rest, x := samples[..|samples| - 1], samples[|samples| - 1];
      assert samples == rest + [x];
      AmongStep(rest, x, s);
      NothingRead(rest, s);
    }
  }

  /** What a store notes of these batches. */
  function Noted(batches: seq<MetricBatch>): (r: map<string, nat>) {
    if batches == [] then map[] else NodeDropped(Noted(batches[..|batches| - 1]), batches[|batches| - 1])
  }

  /** What a node last said it had turned away, in a dated batch, if it said anything but nothing. */
  function LatestDropped(batches: seq<MetricBatch>, node: string): (r: nat) {
    if batches == [] then 0
    else
      var b := batches[|batches| - 1];
      if b.node == node && b.start != ZERO_TIME && b.dropped > 0 then b.dropped
      else LatestDropped(batches[..|batches| - 1], node)
  }

  /** A node's figure is the latest it reported, not a sum; a node that never turned anything away has none. */
  lemma {:induction false} DroppedIsLatest(batches: seq<MetricBatch>, node: string)
    ensures var noted := Noted(batches);
      && (node in noted <==> LatestDropped(batches, node) > 0)
      && (node in noted ==> noted[node] == LatestDropped(batches, node))
  {
    if batches != [] {
      DroppedIsLatest(batches[..|batches| - 1], node);
    }
  }
}
