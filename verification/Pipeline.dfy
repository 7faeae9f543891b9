/**
 From a node's flush to the coordinator's aggregates: what the flush lists is encoded, sent in one
 batch, decoded delta by delta and folded in, and nothing is lost or changed on the way.
 */
module Pipeline {

  import opened Aggregates
  import opened RecorderMachine
  import opened Wire
  import B = Buckets
  import F = Fleet
  import H = Histogram
  import R = Recorder
  import S = Store
  import SB = StoreBuckets
  import W = Window

  // ---------------------------------------------------------------------------
  // What nodes have to send can be sent
  // ---------------------------------------------------------------------------

  lemma {:induction false} BucketHoldsFew(obs: seq<Obs>, b: nat, lay: Layout)
    ensures InBucket(obs, b, lay) <= |obs|
  {
    if obs != [] {
      BucketHoldsFew(obs[..|obs| - 1], b, lay);
    }
  }

  /** A cell of fewer than two to the 63 observations has counts that fit the wire. */
  lemma GoodIsSendable(kind: Kind, c: Cell, lay: Layout)
    requires Good(kind, c, lay) && |c.log| <= H.MAX_INT64
    ensures Sendable(c.agg, lay.buckets)
  {
    if !kind.Gauge? {
      FoldRegular(kind, c.log, lay);
    }
    if kind.Trend? {
      forall b | 0 <= b < lay.buckets
        ensures 0 <= c.agg.hist.counts[b] <= H.MAX_INT64
      {
        FoldSums(kind, c.log, lay, b);
        BucketHoldsFew(c.log, b, lay);
      }
    }
  }

  // ---------------------------------------------------------------------------
  // One batch, end to end
  // ---------------------------------------------------------------------------

  ghost predicate WrittenAt(deltas: seq<Delta>, listed: seq<(Series, Agg)>, config: H.Config, i: nat)
    requires i < |deltas| && i < |listed|
  {
    Written(deltas[i], listed[i].0, listed[i].1, config)
  }

  ghost predicate AllWritten(deltas: seq<Delta>, listed: seq<(Series, Agg)>, config: H.Config) {
    |deltas| == |listed| && forall i :: 0 <= i < |listed| ==> WrittenAt(deltas, listed, config, i)
  }

  ghost predicate AllSendable(cells: map<Series, Cell>, buckets: nat) {
    forall s :: s in cells ==> Sendable(cells[s].agg, buckets)
  }

  /**
   Whatever a recorder was used for, what it flushes can be sent, as long as no series got two to the 63 observations.
   */
  lemma RunIsSendable<K>(cfg: Settings<Series, K>, steps: seq<Step<Series>>, kindOf: Series -> Kind)
    requires ValidSettings(cfg) && Kinded(steps, kindOf)
    requires forall s :: s in Run(cfg, steps).merged ==> |Run(cfg, steps).merged[s].log| <= H.MAX_INT64
    ensures AllSendable(BatchOf(Run(cfg, steps).merged), cfg.layout.buckets)
  {
    RunExact(cfg, steps, kindOf);
    var merged := Run(cfg, steps).merged;
    forall s | s in BatchOf(merged)
      ensures Sendable(BatchOf(merged)[s].agg, cfg.layout.buckets)
    {
      assert Good(kindOf(s), merged[s], cfg.layout);
      GoodIsSendable(kindOf(s), merged[s], cfg.layout);
    }
  }

  method EncodeAll(listed: seq<(Series, Agg)>, config: H.Config) returns (deltas: seq<Delta>)
    ensures AllWritten(deltas, listed, config)
  {
    deltas := [];
    for n := 0 to |listed|
      invariant |deltas| == n && forall i :: 0 <= i < n ==> WrittenAt(deltas, listed, config, i)
    {
      var d := EncodeDelta(listed[n].0, listed[n].1, config);
      ghost var before := deltas;
      deltas := deltas + [d];
      forall i | 0 <= i < n
        ensures WrittenAt(deltas, listed, config, i)
      {
        assert WrittenAt(before, listed, config, i);
      }
    }
  }

  lemma ListedSendable(listed: seq<(Series, Agg)>, cells: map<Series, Cell>, buckets: nat, i: nat)
    requires Lists(listed, cells) && AllSendable(cells, buckets) && i < |listed|
    ensures Sendable(listed[i].1, buckets)
  {
  }

  lemma WrittenFits(deltas: seq<Delta>, listed: seq<(Series, Agg)>, cells: map<Series, Cell>, config: H.Config,
                    buckets: nat)
    requires AllWritten(deltas, listed, config) && Lists(listed, cells)
    requires AllSendable(cells, buckets) && buckets <= H.MAX_DECODED_COUNTS
    ensures S.Sized(deltas)
  {
    forall i | 0 <= i < |deltas|
      ensures S.SizedDelta(deltas[i])
    {
      assert WrittenAt(deltas, listed, config, i);
      ListedSendable(listed, cells, buckets, i);
      WrittenIsReadable(deltas[i], listed[i].0, listed[i].1, config, buckets);
    }
  }

  /** Reading a batch stops nowhere, and gives each aggregate as it was sent. */
  lemma ReadsAll(cfg: SB.StoreConfig, deltas: seq<Delta>, listed: seq<(Series, Agg)>, cells: map<Series, Cell>,
                 samples: seq<B.Sample>)
    requires AllWritten(deltas, listed, cfg.config) && Lists(listed, cells) && S.Sized(deltas)
    requires AllSendable(cells, cfg.layout.buckets) && cfg.layout.buckets <= H.MAX_DECODED_COUNTS
    requires S.ReadUpTo(cfg, deltas, samples)
    ensures |samples| == |listed|
    ensures forall i :: 0 <= i < |listed| ==> samples[i] == B.Sample(listed[i].0, SentOf(listed[i].1))
  {
    if |samples| < |deltas| {
      var i := |samples|;
      assert S.SizedDelta(deltas[i]) && WrittenAt(deltas, listed, cfg.config, i);
      ListedSendable(listed, cells, cfg.layout.buckets, i);
      WrittenIsReadable(deltas[i], listed[i].0, listed[i].1, cfg.config, cfg.layout.buckets);
    }
    forall i | 0 <= i < |samples|
      ensures samples[i] == B.Sample(listed[i].0, SentOf(listed[i].1))
    {
      assert S.SizedDelta(deltas[i]) && WrittenAt(deltas, listed, cfg.config, i) && S.ReadAt(cfg, deltas, samples, i);
      ListedSendable(listed, cells, cfg.layout.buckets, i);
      ReadsBack(deltas[i], listed[i].0, listed[i].1, cfg.config, cfg.layout.buckets, samples[i].series, samples[i].agg);
    }
  }

  /**
   What the store makes of a batch that was listed and written down is what the fleet's delivery makes of its cells.
   */
  lemma SentIsDelivered(cfg: SB.StoreConfig, deltas: seq<Delta>, listed: seq<(Series, Agg)>, cells: map<Series, Cell>,
                        samples: seq<B.Sample>, cum: map<Series, Cell>) returns (order: seq<Series>)
    requires AllWritten(deltas, listed, cfg.config) && Lists(listed, cells) && S.Sized(deltas)
    requires AllSendable(cells, cfg.layout.buckets) && cfg.layout.buckets <= H.MAX_DECODED_COUNTS
    requires S.ReadUpTo(cfg, deltas, samples)
    ensures |samples| == |deltas| && F.Orders(order, cells.Keys) && forall i :: 0 <= i < |order| ==> order[i] in cells
    ensures SB.Absorb(Aggs(cum), samples, cfg.maxSeries, cfg.layout)
         == Aggs(F.AbsorbedAll(cum, cells, order, cfg.maxSeries, cfg.layout))
  {
    ReadsAll(cfg, deltas, listed, cells, samples);
    order := F.ListedArrives(listed, cells);
    assert samples == F.Arriving(cells, order);
    F.StoreAbsorbs(cum, cells, order, cfg.maxSeries, cfg.layout);
  }

  /** What the fleet's delivery step makes of the store's aggregates, if the batch is taken. */
  ghost function Delivered(cum: map<Series, Cell>, cells: map<Series, Cell>, order: seq<Series>, cfg: SB.StoreConfig,
                           ok: bool)
    : (r: map<Series, Agg>)
    requires forall i :: 0 <= i < |order| ==> order[i] in cells
  {
    Aggs(if ok then F.AbsorbedAll(cum, cells, order, cfg.maxSeries, cfg.layout) else cum)
  }

  /** Encodes what a flush listed, and has the coordinator ingest it. */
  method IngestListed<K(==)>(store: S.Store<K>, listed: seq<(Series, Agg)>, node: string, start: int, activeVUs: nat,
                             dropped: nat, ghost cells: map<Series, Cell>, ghost cum: map<Series, Cell>)
    returns (ok: bool, ghost order: seq<Series>)
    requires store.Valid() && store.Holds(Aggs(cum)) && Lists(listed, cells)
    requires AllSendable(cells, store.cfg.layout.buckets) && store.cfg.layout.buckets <= H.MAX_DECODED_COUNTS
    modifies store, store.cumulative, store.cumulative.nodes
    ensures F.Orders(order, cells.Keys) && forall i :: 0 <= i < |order| ==> order[i] in cells
    ensures ok <==> W.Accepts(store.cfg.grid, old(store.win), start)
    ensures store.Valid() && store.Holds(Delivered(cum, cells, order, store.cfg, ok))
  {
    var deltas := EncodeAll(listed, store.cfg.config);
    WrittenFits(deltas, listed, cells, store.cfg.config, store.cfg.layout.buckets);
    ghost var part;
    ok, part := store.Ingest(SB.MetricBatch(node, start, activeVUs, dropped, deltas));
    if W.Accepts(store.cfg.grid, old(store.win), start) {
      order := SentIsDelivered(store.cfg, deltas, listed, cells, part.samples, cum);
    } else {
      order := F.ListedArrives(listed, cells);
    }
  }

  /**
   The end of a node's flush and the coordinator's ingestion, one after the other: the batch is taken whole or
   refused whole, and if it is taken the store's aggregates are those of the fleet's delivery step.
   */
  method FlushAndIngest<K1(==), K2(==)>(rec: R.Recorder<Series, K1>, store: S.Store<K2>, node: string, start: int,
                                        activeVUs: nat, dropped: nat, ghost st: Rec<Series, K1>,
                                        ghost cum: map<Series, Cell>)
    returns (ok: bool, ghost order: seq<Series>)
    requires R.Matches(rec.merged, st.merged, rec.cfg.layout) && store.Valid() && store.Holds(Aggs(cum))
    requires AllSendable(BatchOf(st.merged), store.cfg.layout.buckets)
    requires store.cfg.layout.buckets <= H.MAX_DECODED_COUNTS
    modifies store, store.cumulative, store.cumulative.nodes
    ensures F.Orders(order, BatchOf(st.merged).Keys) && forall i :: 0 <= i < |order| ==> order[i] in BatchOf(st.merged)
    ensures ok <==> W.Accepts(store.cfg.grid, old(store.win), start)
    ensures store.Valid() && store.Holds(Delivered(cum, BatchOf(st.merged), order, store.cfg, ok))
  {
    var listed := rec.EndFlush(st);
    ok, order := IngestListed(store, listed, node, start, activeVUs, dropped, BatchOf(st.merged), cum);
  }
}
