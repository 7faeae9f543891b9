/**
 What travels from a node to the coordinator: one series' activity over one interval.

 Encoding writes a drained aggregate down, with its labels as a map and its histogram
 run-length encoded; decoding makes an aggregate of it again. What arrives differs from
 what was sent in two places, which `SentOf` states: the extremes come back finite even if
 there were none, and an empty histogram does not come back.
 */
module Wire {

  import opened Aggregates
  import opened Sequences
  import H = Histogram
  import L = Labels

  datatype Series = Series(metric: string, labels: L.LabelSet)

  /** The wire's kinds, with the value a newer or broken node could send. */
  datatype WireKind = Unspecified | WireCounter | WireGauge | WireTrend | WireRate | Unknown(value: int)

  datatype MaybeSnapshot = NoSnapshot | Snapshot(snap: H.Snapshot)

  datatype Delta = Delta(metric: string, kind: WireKind, tags: map<string, string>, count: nat, sum: real,
                         min: real, max: real, nonZero: nat, histogram: MaybeSnapshot)

  function EncodeKind(k: Kind): (r: WireKind)
    ensures DecodeKind(r) == k
  {
    match k
    case Counter => WireCounter
    case Gauge => WireGauge
    case Trend => WireTrend
    case Rate => WireRate
  }

  /** Anything unrecognised counts as a counter. */
  function DecodeKind(k: WireKind): (r: Kind) {
    match k
    case WireGauge => Gauge
    case WireTrend => Trend
    case WireRate => Rate
    case _ => Counter
  }

  /** The aggregate that arrives when this one is sent. */
  function SentOf(a: Agg): (r: Agg) {
    var sum := if a.kind.Gauge? then a.gauge else a.sum;
    Agg(a.kind, a.count, sum, Finite(MinOf(a)), Finite(MaxOf(a)), a.nonZero, sum,
        if a.hist.Hist? && Total(a.hist.counts) > 0 then a.hist else NoHist)
  }

  /** What an aggregate looks like written down. */
  ghost predicate Written(d: Delta, series: Series, a: Agg, config: H.Config) {
    && d.metric == series.metric && d.tags == L.Tags(series.labels) && DecodeKind(d.kind) == a.kind
    && d.count == a.count && d.sum == SentOf(a).sum && d.nonZero == a.nonZero
    && d.min == MinOf(a) && d.max == MaxOf(a)
    && (d.histogram.Snapshot? <==> SentOf(a).hist.Hist?)
    && (d.histogram.Snapshot? ==> d.histogram.snap == H.Snapshot(config, H.Encoded(a.hist.counts)))
  }

  method EncodeDelta(series: Series, a: Agg, config: H.Config) returns (d: Delta)
    ensures Written(d, series, a, config)
  {
    var tags := L.Map(series.labels);
    d := Delta(series.metric, EncodeKind(a.kind), tags, a.count, a.sum, MinOf(a), MaxOf(a), a.nonZero, NoSnapshot);
    if a.kind == Gauge {
      d := d.(sum := a.gauge);
    }
    if a.hist.Hist? && Total(a.hist.counts) > 0 {
      var snap := H.EncodeHistogram(config, a.hist.counts);
      d := d.(histogram := Snapshot(snap));
    }
  }

  datatype Arrival = Arrived(series: Series, agg: Agg) | Refused

  /** The snapshot, if any, is one of this resolution with this many well-formed counts. */
  ghost predicate Readable(d: Delta, config: H.Config, buckets: nat)
    requires d.histogram.Snapshot? ==> H.Room(d.histogram.snap.countsRle, [])
  {
    d.histogram.Snapshot? ==>
      var e := H.DecodedFrom(d.histogram.snap.countsRle, []);
      d.histogram.snap.config == config && e.Counts? && |e.counts| == buckets
  }

  /** The series and the aggregate a delta stands for. */
  ghost predicate ReadAs(d: Delta, buckets: nat, series: Series, agg: Agg)
    requires d.histogram.Snapshot? ==> H.Room(d.histogram.snap.countsRle, [])
  {
    && series.metric == d.metric && L.Tags(series.labels) == d.tags
    && agg.kind == DecodeKind(d.kind) && agg.count == d.count && agg.nonZero == d.nonZero
    && agg.sum == d.sum && agg.gauge == d.sum && agg.minVal == Finite(d.min) && agg.maxVal == Finite(d.max)
    && (agg.hist.Hist? <==> d.histogram.Snapshot?)
    && (agg.hist.Hist? ==> |agg.hist.counts| == buckets)
    && (agg.hist.Hist? ==> H.DecodedFrom(d.histogram.snap.countsRle, []) == H.Counts(agg.hist.counts))
  }

  method DecodeDelta(d: Delta, config: H.Config, buckets: nat) returns (r: Arrival)
    requires d.histogram.Snapshot? ==> H.Room(d.histogram.snap.countsRle, [])
    ensures r.Arrived? <==> Readable(d, config, buckets)
    ensures r.Arrived? ==> ReadAs(d, buckets, r.series, r.agg)
  {
    var labels := L.LabelsFromMap(d.tags);
    var hist := NoHist;
    if d.histogram.Snapshot? {
      var decoded := H.DecodeHistogram(d.histogram.snap, config, buckets);
      if !decoded.Histogram? {
        return Refused;
      }
      hist := Hist(Naturals(decoded.counts));
      assert hist.counts == decoded.counts;
    }
    return Arrived(Series(d.metric, labels),
                   Agg(DecodeKind(d.kind), d.count, d.sum, Finite(d.min), Finite(d.max), d.nonZero, d.sum, hist));
  }

  /** An aggregate of this layout, with counts that fit their 64 bits. */
  ghost predicate Sendable(a: Agg, buckets: nat) {
    a.hist.Hist? ==> |a.hist.counts| == buckets && H.Int64s(a.hist.counts)
  }

  /** What is written down of an aggregate can be read, for every layout the decoder's limit admits, */
  lemma WrittenIsReadable(d: Delta, series: Series, a: Agg, config: H.Config, buckets: nat)
    requires Written(d, series, a, config) && Sendable(a, buckets) && buckets <= H.MAX_DECODED_COUNTS
    ensures d.histogram.Snapshot? ==> H.Room(d.histogram.snap.countsRle, [])
    ensures Readable(d, config, buckets)
  {
    if a.hist.Hist? {
      H.RoundTrip(a.hist.counts);
    }
  }

  /** and can be read in one way only. */
  lemma ReadsBack(d: Delta, series: Series, a: Agg, config: H.Config, buckets: nat, readSeries: Series, readAgg: Agg)
    requires Written(d, series, a, config) && Sendable(a, buckets) && buckets <= H.MAX_DECODED_COUNTS
    requires d.histogram.Snapshot? ==> H.Room(d.histogram.snap.countsRle, [])
    requires ReadAs(d, buckets, readSeries, readAgg)
    ensures readSeries == series && readAgg == SentOf(a)
  {
    if a.hist.Hist? {
      H.RoundTrip(a.hist.counts);
    }
    L.SamePairsIffSameTags(readSeries.labels, series.labels);
  }

  /**
   What arrives of an aggregate: its kind and count, the reading of a gauge and the sum of anything else, its truthy
   count, least and greatest value, and every bin.
   */
  lemma ArrivesWhole(d: Delta, series: Series, a: Agg, config: H.Config, buckets: nat, readSeries: Series, readAgg: Agg)
    requires Written(d, series, a, config) && Sendable(a, buckets) && buckets <= H.MAX_DECODED_COUNTS
    requires d.histogram.Snapshot? ==> H.Room(d.histogram.snap.countsRle, [])
    requires ReadAs(d, buckets, readSeries, readAgg)
    ensures readAgg.kind == a.kind && readAgg.count == a.count && readAgg.nonZero == a.nonZero
    ensures if a.kind.Gauge? then readAgg.gauge == a.gauge else readAgg.sum == a.sum
    ensures MinOf(readAgg) == MinOf(a) && MaxOf(readAgg) == MaxOf(a)
    ensures forall i: nat :: BinOf(readAgg.hist, i) == BinOf(a.hist, i)
  {
    ReadsBack(d, series, a, config, buckets, readSeries, readAgg);
    if a.hist.Hist? && Total(a.hist.counts) == 0 {
      NothingCounted(a.hist.counts);
    }
  }

  /** A kind is read of its own code, and counters also of any code that is not known. */
  lemma KindIff(code: WireKind, kind: Kind)
    ensures DecodeKind(code) == kind
      <==> code == EncodeKind(kind) || (kind.Counter? && (code.Unspecified? || code.Unknown?))
  {
  }

  /** A node's aggregate arrives as itself, for every layout the decoder's limit admits. */
  method SendAndReceive(series: Series, a: Agg, config: H.Config, buckets: nat) returns (r: Arrival)
    requires Sendable(a, buckets) && buckets <= H.MAX_DECODED_COUNTS
    ensures r == Arrived(series, SentOf(a))
  {
    var d := EncodeDelta(series, a, config);
    WrittenIsReadable(d, series, a, config, buckets);
    r := DecodeDelta(d, config, buckets);
    ReadsBack(d, series, a, config, buckets, r.series, r.agg);
  }

  // ---------------------------------------------------------------------------
  // Folding what arrives
  // ---------------------------------------------------------------------------

  /** What the coordinator has of a series whose observations fold to `a`: rates gain finite extremes on the way. */
  function Landed(a: Agg): (r: Agg) {
    if a.count == 0 then a else a.(minVal := Finite(MinOf(a)), maxVal := Finite(MaxOf(a)))
  }

  /** What a delta does to the coordinator's aggregate: a gauge shows its latest reading, everything else is merged. */
  function LandAgg(t: Agg, incoming: Agg): (r: Agg) {
    if incoming.kind.Gauge? then t.(count := t.count + 1, gauge := incoming.gauge) else Merged(t, incoming)
  }

  /** The same for all series: a new series is dropped once `cap` of them are held. */
  function AbsorbAgg<S>(cum: map<S, Agg>, s: S, incoming: Agg, cap: nat, lay: Layout): (r: map<S, Agg>) {
    if s in cum then cum[s := LandAgg(cum[s], incoming)]
    else if |cum| >= cap then cum
    else cum[s := LandAgg(New(incoming.kind, lay), incoming)]
  }

  lemma {:induction false} NothingCounted(counts: seq<nat>)
    requires Total(counts) == 0
    ensures counts == seq(|counts|, i => 0)
  {
    if counts != [] {
      NothingCounted(counts[1..]);
      assert counts == [counts[0]] + counts[1..];
    }
  }

  lemma EmptyHistAdds(h: Hist, a: Hist)
    requires h.Hist? && a.Hist? && |h.counts| == |a.counts| && Total(a.counts) == 0
    ensures AddHist(h, NoHist) == AddHist(h, a)
  {
    NothingCounted(a.counts);
    AddCommutes(h, a);
  }

  /** Folding a sent aggregate into what has landed is having folded all the observations first. */
  lemma LandsExactly(kind: Kind, have: seq<Obs>, sent: seq<Obs>, lay: Layout)
    requires !kind.Gauge?
    ensures Merged(Landed(Fold(kind, have, lay)), SentOf(Fold(kind, sent, lay))) == Landed(Fold(kind, have + sent, lay))
  {
    var a, b := Fold(kind, have, lay), Fold(kind, sent, lay);
    MergeIsFold(kind, have, sent, lay);
    FoldRegular(kind, have, lay);
    FoldRegular(kind, sent, lay);
    if kind.Trend? && Total(b.hist.counts) == 0 {
      EmptyHistAdds(a.hist, b.hist);
    }
  }
}
