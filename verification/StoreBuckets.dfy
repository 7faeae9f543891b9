/**
 The buckets the coordinator keeps of a run, as values: what one batch does to an open
 bucket, what finalising reads off it, and the loops that do both.
 */
module StoreBuckets {

  import opened Aggregates
  import opened Buckets
  import opened Maps
  import opened Window
  import opened Wire
  import H = Histogram
  import L = Labels

  const UINT32: int := 0x1_0000_0000

  /** `buckets` of the layout is the number of counts of a histogram; `capacity` that of the ring. */
  datatype StoreConfig = StoreConfig(grid: Grid, capacity: nat, config: H.Config, layout: Layout,
                                     maxSeries: nat, maxEndpoints: nat)

  ghost predicate ValidConfig(c: StoreConfig) {
    ValidGrid(c.grid) && c.capacity >= 1
  }

  /** `dropped` is how many observations the node has turned away so far. */
  datatype MetricBatch = MetricBatch(node: string, start: int, activeVUs: nat, dropped: nat, series: seq<Delta>)

  /** What a batch leaves in its bucket: who sent it, its VU count, and the deltas that could be read. */
  datatype Part = Part(node: string, activeVUs: nat, samples: seq<Sample>)

  /** While open, a bucket has histograms and VU counts by node; once finalised, only what is read off them. */
  datatype Bucket = Bucket(start: int, activeVUs: nat, chart: Chart, vusByNode: map<string, nat>,
                           percentiles: map<PointKey, seq<nat>>)

  function StartOf(b: Bucket): (r: int) {
    b.start
  }

  // ---------------------------------------------------------------------------
  // Buckets as values
  // ---------------------------------------------------------------------------

  function EmptyBucket(cfg: StoreConfig, first: int): (r: Bucket)
    requires ValidConfig(cfg)
  {
    Bucket(Truncated(cfg.grid, first), 0, Blank(), map[], map[])
  }

  ghost function WithVUs(b: Bucket, node: string, vus: nat): (r: Bucket) {
    var byNode := b.vusByNode[node := vus];
    b.(vusByNode := byNode, activeVUs := SumValues(byNode) % UINT32)
  }

  function ChartedOn(c: Chart, samples: seq<Sample>, cap: nat, lay: Layout): (r: Chart) {
    if samples == [] then c
    else With(ChartedOn(c, samples[..|samples| - 1], cap, lay), samples[|samples| - 1], cap, lay)
  }

  /** How many of these deltas the cap on charted endpoints turns away. */
  function RefusedOn(c: Chart, samples: seq<Sample>, cap: nat, lay: Layout): (r: nat) {
    if samples == [] then 0
    else
      var n := |samples| - 1;
      RefusedOn(c, samples[..n], cap, lay)
        + if Refuses(ChartedOn(c, samples[..n], cap, lay), samples[n], cap) then 1 else 0
  }

  ghost function WithPart(cfg: StoreConfig, b: Bucket, p: Part): (r: Bucket) {
    var b' := WithVUs(b, p.node, p.activeVUs);
    b'.(chart := ChartedOn(b'.chart, p.samples, cfg.maxEndpoints, cfg.layout))
  }

  ghost function BucketOf(cfg: StoreConfig, f: Filling<Part>): (r: Bucket)
    requires ValidConfig(cfg)
    decreases |f.parts|
  {
    if f.parts == [] then EmptyBucket(cfg, f.first)
    else WithPart(cfg, BucketOf(cfg, f.(parts := f.parts[..|f.parts| - 1])), f.parts[|f.parts| - 1])
  }

  /** The counts percentiles are read from stand for the percentiles. */
  function Finalised(b: Bucket): (r: Bucket) {
    b.(percentiles := map k | k in b.chart.hists && HasPercentiles(b, k) :: b.chart.hists[k].counts,
       chart := b.chart.(hists := map[]), vusByNode := map[])
  }

  predicate HasPercentiles(b: Bucket, k: PointKey) {
    k in b.chart.hists && k in b.chart.points && b.chart.hists[k].Hist? && Total(b.chart.hists[k].counts) > 0
  }

  ghost function Finals(cfg: StoreConfig, slots: seq<Slot<Part>>): (r: seq<Bucket>)
    requires ValidConfig(cfg)
  {
    seq(|slots|, i requires 0 <= i < |slots| => Finalised(BucketOf(cfg, slots[i].bucket)))
  }

  function Absorb(cum: map<Series, Agg>, samples: seq<Sample>, cap: nat, lay: Layout): (r: map<Series, Agg>) {
    if samples == [] then cum
    else
      var last := samples[|samples| - 1];
      AbsorbAgg(Absorb(cum, samples[..|samples| - 1], cap, lay), last.series, last.agg, cap, lay)
  }

  /** How many of these deltas the cap on series turns away. */
  function TurnedAway(cum: map<Series, Agg>, samples: seq<Sample>, cap: nat, lay: Layout): (r: nat) {
    if samples == [] then 0
    else
      var n := |samples| - 1;
      var before := Absorb(cum, samples[..n], cap, lay);
      TurnedAway(cum, samples[..n], cap, lay) + if samples[n].series !in before && |before| >= cap then 1 else 0
  }

  // ---------------------------------------------------------------------------
  // What an open bucket shows
  // ---------------------------------------------------------------------------

  function AllSamples(parts: seq<Part>): (r: seq<Sample>) {
    if parts == [] then [] else AllSamples(parts[..|parts| - 1]) + parts[|parts| - 1].samples
  }

  lemma {:induction false} ChartedOnAppends(a: seq<Sample>, b: seq<Sample>, cap: nat, lay: Layout)
    ensures ChartedOn(Charted(a, cap, lay), b, cap, lay) == Charted(a + b, cap, lay)
  {
    if b == [] {
      assert a + b == a;
    } else {
      var n := |b| - 1;
      ChartedOnAppends(a, b[..n], cap, lay);
      assert (a + b)[..|a + b| - 1] == a + b[..n];
    }
  }

  /** The refusals of a bucket's batches, counted batch by batch, are those of everything that landed in it. */
  lemma {:induction false} RefusalsAddUp(a: seq<Sample>, b: seq<Sample>, cap: nat, lay: Layout)
    ensures RefusedOn(Blank(), a + b, cap, lay)
         == RefusedOn(Blank(), a, cap, lay) + RefusedOn(Charted(a, cap, lay), b, cap, lay)
  {
    if b == [] {
      assert a + b == a;
    } else {
      var n := |b| - 1;
      RefusalsAddUp(a, b[..n], cap, lay);
      ChartedOnAppends(a, b[..n], cap, lay);
      ChartedIsOn(a + b[..n], cap, lay);
      assert (a + b)[..|a + b| - 1] == a + b[..n];
    }
  }

  lemma {:induction false} ChartedIsOn(a: seq<Sample>, cap: nat, lay: Layout)
    ensures ChartedOn(Blank(), a, cap, lay) == Charted(a, cap, lay)
  {
    if a != [] {
      ChartedIsOn(a[..|a| - 1], cap, lay);
    }
  }

  // ---------------------------------------------------------------------------
  // What the store notes of a run
  // ---------------------------------------------------------------------------

  /** The earliest batch start so far; the zero time stands for none. */
  function EarlierStart(started: int, start: int): (r: int) {
    if start != ZERO_TIME && (started == ZERO_TIME || start < started) then start else started
  }

  function EarliestStart(starts: seq<int>): (r: int) {
    if starts == [] then ZERO_TIME else EarlierStart(EarliestStart(starts[..|starts| - 1]), starts[|starts| - 1])
  }

  /** A run started with the earliest batch that has a start. */
  lemma {:induction false} EarliestIsLeast(starts: seq<int>)
    ensures var r := EarliestStart(starts);
      && (r == ZERO_TIME <==> forall i :: 0 <= i < |starts| ==> starts[i] == ZERO_TIME)
      && (r != ZERO_TIME ==> r in starts && forall i :: 0 <= i < |starts| && starts[i] != ZERO_TIME ==> r <= starts[i])
  {
    if starts != [] {
      var n := |starts| - 1;
      EarliestIsLeast(starts[..n]);
      assert starts == starts[..n] + [starts[n]];
      assert forall i :: 0 <= i < n ==> starts[..n][i] == starts[i];
    }
  }

  /** A node reports its own total, so the latest report stands; a node with nothing to report is not noted. */
  function NodeDropped(before: map<string, nat>, batch: MetricBatch): (r: map<string, nat>) {
    if batch.start == ZERO_TIME || batch.dropped == 0 then before else before[batch.node := batch.dropped]
  }

  /** The VU count a node reported last, if it reported at all. */
  function LatestVUs(parts: seq<Part>, node: string): (r: int) {
    if parts == [] then -1
    else if parts[|parts| - 1].node == node then parts[|parts| - 1].activeVUs
    else LatestVUs(parts[..|parts| - 1], node)
  }

  /**
   A bucket charts everything that ever landed in it, batch by batch, so that the sums of
   the roll-up hold of it; and its VU count is the sum of each node's latest report.
   */
  lemma {:induction false} BucketShows(cfg: StoreConfig, f: Filling<Part>)
    requires ValidConfig(cfg)
    ensures var b := BucketOf(cfg, f);
      && b.chart == Charted(AllSamples(f.parts), cfg.maxEndpoints, cfg.layout)
      && b.start == Truncated(cfg.grid, f.first)
      && (forall n :: n in b.vusByNode <==> LatestVUs(f.parts, n) >= 0)
      && (forall n :: n in b.vusByNode ==> b.vusByNode[n] == LatestVUs(f.parts, n))
      && b.activeVUs == SumValues(b.vusByNode) % UINT32
    decreases |f.parts|
  {
    if f.parts != [] {
      var n := |f.parts| - 1;
      BucketShows(cfg, f.(parts := f.parts[..n]));
      ChartedOnAppends(AllSamples(f.parts[..n]), f.parts[n].samples, cfg.maxEndpoints, cfg.layout);
    }
  }

  // ---------------------------------------------------------------------------
  // The steps on one bucket
  // ---------------------------------------------------------------------------

  /** Replaces a node's VU count and adds all of them up again. */
  method ReportVUs(b: Bucket, node: string, vus: nat) returns (r: Bucket)
    ensures r == WithVUs(b, node, vus)
  {
    var byNode := b.vusByNode[node := vus];
    var active := SumUint32(byNode);
    r := b.(vusByNode := byNode, activeVUs := active);
  }

  /** Adds up in 32 bits, in whatever order. */
  method SumUint32<T(==)>(m: map<T, nat>) returns (active: nat)
    ensures active == SumValues(m) % UINT32
  {
    active := 0;
    var rest := m;
    ghost var wraps: nat := 0;
    while rest != map[]
      invariant active < UINT32 && active + SumValues(rest) + wraps * UINT32 == SumValues(m)
      decreases |rest|
    {
      assert rest.Keys != {};
      var k :| k in rest.Keys;
      SumAnyOrder(rest, k);
      RemoveKey(rest, k);
      var sum := Add32(active, rest[k]);
      wraps := wraps + (active + rest[k] - sum) / UINT32;
      active, rest := sum, rest - {k};
    }
    UniqueRemainder(active, wraps, SumValues(m));
  }

  method Add32(a: nat, b: nat) returns (r: nat)
    ensures r == (a + b) % UINT32
    ensures r < UINT32 && r <= a + b && r + (a + b - r) / UINT32 * UINT32 == a + b
  {
    r := (a + b) % UINT32;
  }

  lemma UniqueRemainder(r: nat, q: nat, x: nat)
    requires r < UINT32 && r + q * UINT32 == x
    ensures x % UINT32 == r
  {
  }

  method AddEndpointPoint(c: Chart, s: Sample, cap: nat) returns (r: Chart, refused: bool)
    requires NameOf(s) != ""
    ensures r == WithEndpoint(c, s, cap) && (refused <==> Refuses(c, s, cap))
  {
    var name, metric := NameOf(s), s.series.metric;
    if metric != METRIC_HTTP_REQS && metric != METRIC_HTTP_REQ_DURATION && metric != METRIC_HTTP_REQ_FAILED {
      return c, false;
    }
    var point := EndpointPoint(0, 0, 0.0, 0);
    if name in c.endpoints {
      point := c.endpoints[name];
    } else if |c.endpoints| >= cap {
      return c, true;
    }
    if metric == METRIC_HTTP_REQS {
      point := point.(requests := point.requests + s.agg.count);
    } else if metric == METRIC_HTTP_REQ_DURATION {
      point := point.(sum := point.sum + s.agg.sum, observed := point.observed + s.agg.count);
    } else {
      point := point.(failures := point.failures + s.agg.nonZero);
    }
    return c.(endpoints := c.endpoints[name := point]), false;
  }

  method AddToBucket(c: Chart, k: PointKey, a: Agg, lay: Layout) returns (r: Chart)
    ensures r == WithPoint(c, k, a, lay)
  {
    var point := Point(0, 0.0, 0.0, 0.0, 0);
    if k in c.points {
      point := c.points[k];
    }
    point := point.(count := point.count + a.count, nonZero := point.nonZero + a.nonZero);
    if a.kind.Gauge? {
      point := point.(sum := point.sum + a.gauge);
      return c.(points := c.points[k := point]);
    }
    point := point.(sum := point.sum + a.sum);
    if a.count > 0 {
      if point.min == 0.0 || MinOf(a) < point.min {
        point := point.(min := MinOf(a));
      }
      if MaxOf(a) > point.max {
        point := point.(max := MaxOf(a));
      }
    }
    r := c.(points := c.points[k := point]);
    if a.hist.NoHist? {
      return;
    }
    var acc := NewHist(lay);
    if k in r.hists {
      acc := r.hists[k];
    }
    r := r.(hists := r.hists[k := AddHist(acc, a.hist)]);
  }

  /** Charts one delta for its scenario, for the whole run and by its status. */
  method MergePoints(c: Chart, s: Sample, lay: Layout) returns (r: Chart)
    ensures r == WithStatus(WithPoints(c, s, lay), s)
  {
    var scenario, labelled := L.Get(s.series.labels, LABEL_SCENARIO);
    r := AddToBucket(c, PointKey(s.series.metric, scenario), s.agg, lay);
    if scenario != "" {
      r := AddToBucket(r, PointKey(s.series.metric, ""), s.agg, lay);
    }
    assert r == WithPoints(c, s, lay);
    if s.series.metric == METRIC_HTTP_REQS {
      var status, ok := L.Get(s.series.labels, LABEL_STATUS);
      if ok {
        var group := StatusClass(status);
        r := r.(status := r.status[group := (if group in r.status then r.status[group] else 0) + s.agg.count]);
      }
    }
  }

  /** Charts one delta: its scenario, the whole run, its status and its endpoint. */
  method MergeBucket(c: Chart, s: Sample, cap: nat, lay: Layout) returns (r: Chart, refused: bool)
    ensures r == With(c, s, cap, lay) && (refused <==> Refuses(c, s, cap))
  {
    r := MergePoints(c, s, lay);
    RefusesAlike(c, s, cap, lay);
    refused := false;
    var name, named := L.Get(s.series.labels, LABEL_NAME);
    if named && name != "" {
      r, refused := AddEndpointPoint(r, s, cap);
    }
  }

  lemma RefusesAlike(c: Chart, s: Sample, cap: nat, lay: Layout)
    ensures Refuses(WithStatus(WithPoints(c, s, lay), s), s, cap) <==> Refuses(c, s, cap)
  {
    PointsKeepOthers(c, s, lay);
  }

  /** Reads the percentiles off a bucket's histograms and releases them. */
  method Finalise(b: Bucket) returns (r: Bucket)
    ensures r == Finalised(b)
  {
    var percentiles: map<PointKey, seq<nat>> := map[];
    var rest := b.chart.hists.Keys;
    while rest != {}
      invariant rest <= b.chart.hists.Keys
      invariant forall k :: k in percentiles <==> k in b.chart.hists && k !in rest && HasPercentiles(b, k)
      invariant forall k :: k in percentiles ==> percentiles[k] == b.chart.hists[k].counts
      decreases rest
    {
      var k :| k in rest;
      rest := rest - {k};
      if k in b.chart.points && b.chart.hists[k].Hist? && Total(b.chart.hists[k].counts) != 0 {
        percentiles := percentiles[k := b.chart.hists[k].counts];
      }
    }
    r := b.(percentiles := percentiles, chart := b.chart.(hists := map[]), vusByNode := map[]);
  }
}
