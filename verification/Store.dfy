/**
 The coordinator's store of a run: the cumulative aggregates, the open buckets and the ring
 of finalised ones, updated in place as batches arrive and the ticker closes buckets.

 The window machine says which bucket a batch lands in and what is finalised when; `win` is
 its state, and the contracts say that every method takes it through the machine's steps.
 */
module Store {

  import opened Aggregates
  import opened AggIndex
  import opened Buckets
  import opened Ring
  import opened StoreBuckets
  import opened Window
  import opened Wire
  import H = Histogram
  import L = Labels

  /** The open buckets are those of the window, each showing its batches. */
  ghost predicate Shows(cfg: StoreConfig, open: map<int, Bucket>, win: Win<Part>)
    requires ValidConfig(cfg)
  {
    open.Keys == win.open.Keys && forall i :: i in open ==> open[i] == BucketOf(cfg, win.open[i])
  }

  /** Every snapshot of a batch is short enough to be a slice. */
  ghost predicate Sized(series: seq<Delta>) {
    forall i :: 0 <= i < |series| ==> SizedDelta(series[i])
  }

  ghost predicate SizedDelta(d: Delta) {
    d.histogram.Snapshot? ==> H.Room(d.histogram.snap.countsRle, [])
  }

  ghost predicate ReadAt(cfg: StoreConfig, series: seq<Delta>, samples: seq<Sample>, i: nat)
    requires Sized(series) && i < |series| && i < |samples|
  {
    assert SizedDelta(series[i]);
    Readable(series[i], cfg.config, cfg.layout.buckets)
    && ReadAs(series[i], cfg.layout.buckets, samples[i].series, samples[i].agg)
  }

  /** The samples are the deltas up to the first one that cannot be read. */
  ghost predicate ReadUpTo(cfg: StoreConfig, series: seq<Delta>, samples: seq<Sample>)
    requires Sized(series)
  {
    && |samples| <= |series|
    && (forall i :: 0 <= i < |samples| ==> ReadAt(cfg, series, samples, i))
    && (|samples| < |series| ==>
          assert SizedDelta(series[|samples|]);
          !Readable(series[|samples|], cfg.config, cfg.layout.buckets))
  }

  /** Lands a delta on the aggregate of its series, or turns it away: a new series once `cap` are held. */
  method AbsorbInto<S(==), K(==)>(m: AggMap<S, K>, s: S, incoming: Agg, cap: nat) returns (full: bool)
    requires m.Valid()
    modifies m, m.nodes
    ensures m.Valid() && fresh(m.nodes - old(m.nodes))
    ensures full <==> s !in old(m.Contents()) && |old(m.Contents())| >= cap
    ensures m.Contents() == AbsorbAgg(old(m.Contents()), s, incoming, cap, m.layout)
  {
    var target := m.Find(s);
    SizeOfKeys(m.Contents(), m.index);
    if target == null {
      if m.size >= cap {
        return true;
      }
      LandNew(m, s, incoming);
    } else {
      LandOn(m, target, incoming);
    }
    full := false;
  }

  method LandNew<S(==), K(==)>(m: AggMap<S, K>, s: S, incoming: Agg)
    requires m.Valid() && s !in m.index
    modifies m, m.nodes
    ensures m.Valid() && fresh(m.nodes - old(m.nodes))
    ensures m.Contents() == old(m.Contents())[s := LandAgg(New(incoming.kind, m.layout), incoming)]
  {
    var target := m.GetOrCreate(s, incoming.kind);
    LandOn(m, target, incoming);
  }

  method LandOn<S(==), K(==)>(m: AggMap<S, K>, target: Aggregate<S>, incoming: Agg)
    requires m.Valid() && target in m.nodes
    modifies target
    ensures m.Valid() && target.series in m.index
    ensures m.Contents() == old(m.Contents())[target.series := LandAgg(old(m.Contents())[target.series], incoming)]
  {
    if incoming.kind.Gauge? {
      m.ReadAt(target, incoming.gauge);
    } else {
      m.MergeAt(target, incoming);
    }
  }

  class Store<K(==)> {
    const cfg: StoreConfig
    const cumulative: AggMap<Series, K>
    const ring: Ring<Bucket>
    var open: map<int, Bucket>
    var lastSeen: int
    var droppedSeries: nat
    var droppedLate: nat
    var droppedEndpoints: nat
    /** The start of the earliest batch, or the zero time. */
    var started: int
    var nodeDropped: map<string, nat>
    ghost var win: Win<Part>

    /** The cumulative index amounts to this map. */
    ghost predicate Holds(cum: map<Series, Agg>)
      reads cumulative, cumulative.nodes
    {
      cumulative.Valid() && cumulative.layout == cfg.layout && cumulative.Contents() == cum
    }

    /** The ring holds these finalised buckets. */
    ghost predicate RingShows(history: seq<Slot<Part>>)
      requires ValidConfig(cfg)
      reads ring, ring.closed
    {
      && ring.Valid() && ring.closed.Length == cfg.capacity && ring.startOf == StartOf
      && ring.history == Finals(cfg, history)
    }

    /** Everything but the ring. */
    ghost predicate Live()
      reads this`open, this`lastSeen, this`droppedLate, this`win, cumulative, cumulative.nodes
    {
      && ValidConfig(cfg)
      && cumulative.Valid() && cumulative.layout == cfg.layout
      && lastSeen == win.lastSeen && droppedLate == win.late
      && Shows(cfg, open, win)
    }

    ghost predicate Valid()
      reads this`open, this`lastSeen, this`droppedLate, this`win, cumulative, cumulative.nodes, ring, ring.closed
    {
      Live() && RingShows(win.history)
    }

    constructor (cfg: StoreConfig, key: Series -> K)
      requires ValidConfig(cfg)
      ensures Valid() && this.cfg == cfg && win == Window.Run<Part>(cfg.grid, []) && cumulative.Contents() == map[]
      ensures droppedSeries == 0 && droppedEndpoints == 0 && started == EarliestStart([]) && nodeDropped == map[]
      ensures fresh(cumulative) && fresh(ring) && fresh(ring.closed) && cumulative.nodes == {}
    {
      this.cfg := cfg;
      cumulative := new AggMap<Series, K>(key, cfg.layout);
      ring := new Ring<Bucket>(cfg.capacity, StartOf);
      open, lastSeen, droppedSeries, droppedLate := map[], ZERO_TIME, 0, 0;
      droppedEndpoints, started, nodeDropped := 0, ZERO_TIME, map[];
      win := Win(map[], ZERO_TIME, 0, []);
    }

    /** Folds one delta into the run-long aggregate of its series, unless the series is new and there are too many. */
    method MergeCumulative(s: Sample, ghost cum: map<Series, Agg>)
      requires Holds(cum)
      modifies this`droppedSeries, cumulative, cumulative.nodes
      ensures fresh(cumulative.nodes - old(cumulative.nodes))
      ensures Holds(AbsorbAgg(cum, s.series, s.agg, cfg.maxSeries, cfg.layout))
      ensures droppedSeries == old(droppedSeries) + if s.series !in cum && |cum| >= cfg.maxSeries then 1 else 0
    {
      var full := AbsorbInto(cumulative, s.series, s.agg, cfg.maxSeries);
      if full {
        droppedSeries := droppedSeries + 1;
      }
    }

    /** One delta into the cumulative aggregates and into a bucket's chart. */
    method IngestSeries(c: Chart, d: Delta, ghost cum: map<Series, Agg>) returns (ok: bool, r: Chart, s: Sample)
      requires Holds(cum) && SizedDelta(d)
      modifies this`droppedSeries, this`droppedEndpoints, cumulative, cumulative.nodes
      ensures fresh(cumulative.nodes - old(cumulative.nodes))
      ensures ok <==> Readable(d, cfg.config, cfg.layout.buckets)
      ensures ok ==> ReadAs(d, cfg.layout.buckets, s.series, s.agg)
      ensures ok ==> r == With(c, s, cfg.maxEndpoints, cfg.layout)
      ensures droppedEndpoints == old(droppedEndpoints) + if ok && Refuses(c, s, cfg.maxEndpoints) then 1 else 0
      ensures droppedSeries == old(droppedSeries) + if ok && s.series !in cum && |cum| >= cfg.maxSeries then 1 else 0
      ensures Holds(if ok then AbsorbAgg(cum, s.series, s.agg, cfg.maxSeries, cfg.layout) else cum)
      ensures !ok ==> r == c
    {
      var arrival := DecodeDelta(d, cfg.config, cfg.layout.buckets);
      if arrival.Refused? {
        return false, c, Sample(Series("", L.RawLabels([])), New(Counter, cfg.layout));
      }
      s := Sample(arrival.series, arrival.agg);
      MergeCumulative(s, cum);
      var refused;
      r, refused := MergeBucket(c, s, cfg.maxEndpoints, cfg.layout);
      if refused {
        droppedEndpoints := droppedEndpoints + 1;
      }
      ok := true;
    }

    /** The deltas of a batch, one by one, up to the first that cannot be read. */
    method IngestAll(c: Chart, series: seq<Delta>, ghost cum: map<Series, Agg>)
      returns (ok: bool, r: Chart, samples: seq<Sample>)
      requires Holds(cum) && Sized(series)
      modifies this`droppedSeries, this`droppedEndpoints, cumulative, cumulative.nodes
      ensures fresh(cumulative.nodes - old(cumulative.nodes))
      ensures ReadUpTo(cfg, series, samples) && (ok <==> |samples| == |series|)
      ensures r == ChartedOn(c, samples, cfg.maxEndpoints, cfg.layout)
      ensures droppedEndpoints == old(droppedEndpoints) + RefusedOn(c, samples, cfg.maxEndpoints, cfg.layout)
      ensures droppedSeries == old(droppedSeries) + TurnedAway(cum, samples, cfg.maxSeries, cfg.layout)
      ensures Holds(Absorb(cum, samples, cfg.maxSeries, cfg.layout))
    {
      r, samples := c, [];
      for n := 0 to |series|
        invariant fresh(cumulative.nodes - old(cumulative.nodes))
        invariant |samples| == n && forall i :: 0 <= i < n ==> ReadAt(cfg, series, samples, i)
        invariant r == ChartedOn(c, samples, cfg.maxEndpoints, cfg.layout)
        invariant droppedEndpoints == old(droppedEndpoints) + RefusedOn(c, samples, cfg.maxEndpoints, cfg.layout)
        invariant droppedSeries == old(droppedSeries) + TurnedAway(cum, samples, cfg.maxSeries, cfg.layout)
        invariant Holds(Absorb(cum, samples, cfg.maxSeries, cfg.layout))
      {
        assert SizedDelta(series[n]);
        var read, chart, s := IngestSeries(r, series[n], Absorb(cum, samples, cfg.maxSeries, cfg.layout));
        if !read {
          return false, r, samples;
        }
        ReadOneMore(cfg, series, samples, s);
        assert (samples + [s])[..n] == samples;
        r, samples := chart, samples + [s];
      }
      ok := true;
    }

    /** The open bucket of an index, made first unless the index is past its grace. */
    method BucketFor(idx: int, start: int) returns (ok: bool, bucket: Bucket)
      requires ValidConfig(cfg)
      modifies this`open
      ensures ok <==> idx in old(open) || idx >= Cutoff(cfg.grid, lastSeen)
      ensures ok ==> bucket == (if idx in old(open) then old(open)[idx] else EmptyBucket(cfg, start))
      ensures open == if ok then old(open)[idx := bucket] else old(open)
    {
      if idx in open {
        assert open == open[idx := open[idx]];
        return true, open[idx];
      }
      var cutoff := IndexOf(cfg.grid, lastSeen - cfg.grid.grace);
      if idx < cutoff {
        return false, EmptyBucket(cfg, start);
      }
      bucket := EmptyBucket(cfg, start);
      open := open[idx := bucket];
      ok := true;
    }

    /**
     Folds one node's batch in. It is refused if it has no start or its bucket is gone, and cut
     short at the first delta that cannot be read: what came before stays applied.
     */
    method Ingest(batch: MetricBatch) returns (ok: bool, ghost part: Part)
      requires Valid() && Sized(batch.series)
      modifies this, cumulative, cumulative.nodes
      ensures Valid() && fresh(cumulative.nodes - old(cumulative.nodes))
      ensures part.node == batch.node && part.activeVUs == batch.activeVUs
      ensures Accepts(cfg.grid, old(win), batch.start) ==> ReadUpTo(cfg, batch.series, part.samples)
      ensures ok <==> Accepts(cfg.grid, old(win), batch.start) && |part.samples| == |batch.series|
      ensures win == Batched(cfg.grid, old(win), batch.start, part)
      ensures started == EarlierStart(old(started), batch.start) && nodeDropped == NodeDropped(old(nodeDropped), batch)
      ensures droppedEndpoints == old(droppedEndpoints) +
        Refusals(cfg, old(open), batch.start, Accepts(cfg.grid, old(win), batch.start), part)
      ensures droppedSeries == old(droppedSeries) + if Accepts(cfg.grid, old(win), batch.start)
        then TurnedAway(old(cumulative.Contents()), part.samples, cfg.maxSeries, cfg.layout) else 0
      ensures cumulative.Contents() == if Accepts(cfg.grid, old(win), batch.start)
        then Absorb(old(cumulative.Contents()), part.samples, cfg.maxSeries, cfg.layout) else old(cumulative.Contents())
    {
      if batch.start != ZERO_TIME {
        Note(batch);
      }
      ok, part := IngestLocked(batch, cumulative.Contents());
    }

    /** The same with the ring and the notes out of sight. */
    method IngestLocked(batch: MetricBatch, ghost cum: map<Series, Agg>) returns (ok: bool, ghost part: Part)
      requires Live() && Holds(cum) && Sized(batch.series)
      modifies this`open, this`lastSeen, this`win, this`droppedSeries, this`droppedLate, this`droppedEndpoints
      modifies cumulative, cumulative.nodes
      ensures Live() && fresh(cumulative.nodes - old(cumulative.nodes))
      ensures part.node == batch.node && part.activeVUs == batch.activeVUs
      ensures Accepts(cfg.grid, old(win), batch.start) ==> ReadUpTo(cfg, batch.series, part.samples)
      ensures ok <==> Accepts(cfg.grid, old(win), batch.start) && |part.samples| == |batch.series|
      ensures win == Batched(cfg.grid, old(win), batch.start, part)
      ensures droppedEndpoints == old(droppedEndpoints) +
        Refusals(cfg, old(open), batch.start, Accepts(cfg.grid, old(win), batch.start), part)
      ensures droppedSeries == old(droppedSeries) +
        if Accepts(cfg.grid, old(win), batch.start)
        then TurnedAway(cum, part.samples, cfg.maxSeries, cfg.layout) else 0
      ensures Accepts(cfg.grid, old(win), batch.start) ==> Holds(Absorb(cum, part.samples, cfg.maxSeries, cfg.layout))
      ensures !Accepts(cfg.grid, old(win), batch.start) ==> Holds(cum)
    {
      if batch.start == ZERO_TIME {
        return false, Part(batch.node, batch.activeVUs, []);
      }
      var found;
      found, ok, part := IngestDated(batch, IndexOf(cfg.grid, batch.start), cum);
      ShowsBatch(cfg, old(open), open, win, batch.start, part, found);
      win := Batched(cfg.grid, win, batch.start, part);
    }

    /** Notes when a run started, and what the node has turned away. */
    method Note(batch: MetricBatch)
      requires batch.start != ZERO_TIME
      modifies this`started, this`nodeDropped
      ensures started == EarlierStart(old(started), batch.start) && nodeDropped == NodeDropped(old(nodeDropped), batch)
    {
      if started == ZERO_TIME || batch.start < started {
        started := batch.start;
      }
      if batch.dropped > 0 {
        nodeDropped := nodeDropped[batch.node := batch.dropped];
      }
    }

    /** A batch that has a start, in terms of the fields alone. */
    method IngestDated(batch: MetricBatch, idx: int, ghost cum: map<Series, Agg>)
      returns (found: bool, ok: bool, ghost part: Part)
      requires ValidConfig(cfg) && Holds(cum) && Sized(batch.series)
      modifies this`open, this`lastSeen, this`droppedSeries, this`droppedLate, this`droppedEndpoints
      modifies cumulative, cumulative.nodes
      ensures fresh(cumulative.nodes - old(cumulative.nodes))
      ensures part.node == batch.node && part.activeVUs == batch.activeVUs
      ensures lastSeen == Later(old(lastSeen), batch.start)
      ensures found <==> idx in old(open) || idx >= Cutoff(cfg.grid, lastSeen)
      ensures found ==> ReadUpTo(cfg, batch.series, part.samples)
      ensures ok <==> found && |part.samples| == |batch.series|
      ensures open == if found then Put(cfg, old(open), idx, batch.start, part) else old(open)
      ensures droppedLate == if found then old(droppedLate) else old(droppedLate) + 1
      ensures droppedEndpoints == old(droppedEndpoints) +
        if found then RefusedAt(cfg, Before(cfg, old(open), idx, batch.start), part) else 0
      ensures droppedSeries == old(droppedSeries) +
        if found then TurnedAway(cum, part.samples, cfg.maxSeries, cfg.layout) else 0
      ensures found ==> Holds(Absorb(cum, part.samples, cfg.maxSeries, cfg.layout))
      ensures !found ==> Holds(cum)
    {
      part := Part(batch.node, batch.activeVUs, []);
      var bucket;
      found, bucket := Place(idx, batch.start);
      if !found {
        return false, false, part;
      }
      ok, part := IngestInto(idx, bucket, batch, cum);
      PutTwice(old(open), idx, bucket, WithPart(cfg, bucket, part));
    }

    /** Notes when a batch started and finds its bucket, or counts it as late. */
    method Place(idx: int, start: int) returns (found: bool, bucket: Bucket)
      requires ValidConfig(cfg)
      modifies this`open, this`lastSeen, this`droppedLate
      ensures lastSeen == Later(old(lastSeen), start)
      ensures found <==> idx in old(open) || idx >= Cutoff(cfg.grid, lastSeen)
      ensures found ==> bucket == Before(cfg, old(open), idx, start)
      ensures open == if found then old(open)[idx := bucket] else old(open)
      ensures droppedLate == if found then old(droppedLate) else old(droppedLate) + 1
    {
      if start > lastSeen {
        lastSeen := start;
      }
      found, bucket := BucketFor(idx, start);
      if !found {
        droppedLate := droppedLate + 1;
      }
    }

    /** A batch into the open bucket found for it. */
    method IngestInto(idx: int, bucket: Bucket, batch: MetricBatch, ghost cum: map<Series, Agg>)
      returns (ok: bool, ghost part: Part)
      requires Holds(cum) && Sized(batch.series)
      modifies this`open, this`droppedSeries, this`droppedEndpoints, cumulative, cumulative.nodes
      ensures fresh(cumulative.nodes - old(cumulative.nodes))
      ensures part.node == batch.node && part.activeVUs == batch.activeVUs
      ensures ReadUpTo(cfg, batch.series, part.samples) && (ok <==> |part.samples| == |batch.series|)
      ensures open == old(open)[idx := WithPart(cfg, bucket, part)]
      ensures droppedEndpoints == old(droppedEndpoints) + RefusedAt(cfg, bucket, part)
      ensures droppedSeries == old(droppedSeries) + TurnedAway(cum, part.samples, cfg.maxSeries, cfg.layout)
      ensures Holds(Absorb(cum, part.samples, cfg.maxSeries, cfg.layout))
    {
      var reported := ReportVUs(bucket, batch.node, batch.activeVUs);
      var read, chart, samples := IngestAll(reported.chart, batch.series, cum);
      open := open[idx := reported.(chart := chart)];
      return read, Part(batch.node, batch.activeVUs, samples);
    }

    /** Files the buckets past their grace, in order, and forgets them. */
    method CloseStale(now: int)
      requires Valid()
      modifies this`open, this`win, ring, ring.closed
      ensures Valid() && win == Closed(cfg.grid, old(win), now)
    {
      var ready := ReadyInOrder(now);
      FileInOrder(ready, Slots(win.open, ready));
      FinalsAppend(cfg, win.history, Slots(win.open, ready));
      ShowsClosed(cfg, old(open), open, win, now);
      win := Closed(cfg.grid, win, now);
    }

    /** Finalises these buckets one after another. */
    method FileInOrder(ready: seq<int>, ghost slots: seq<Slot<Part>>)
      requires ValidConfig(cfg) && ring.Valid() && |slots| == |ready|
      requires forall n :: 0 <= n < |ready| ==> ready[n] in open && open[ready[n]] == BucketOf(cfg, slots[n].bucket)
      requires forall i, j :: 0 <= i < j < |ready| ==> ready[i] < ready[j]
      modifies this`open, ring, ring.closed
      ensures ring.Valid() && ring.history == old(ring.history) + Finals(cfg, slots)
      ensures open == old(open) - Firsts(ready, |ready|)
    {
      for n := 0 to |ready|
        invariant ring.Valid() && ring.history == old(ring.history) + Finals(cfg, slots[..n])
        invariant open == old(open) - Firsts(ready, n)
      {
        FinalsOneMore(cfg, slots, n);
        FirstsStep(ready, n);
        var bucket := Finalise(open[ready[n]]);
        ring.File(bucket);
        open := open - {ready[n]};
      }
      assert slots[..|ready|] == slots;
    }

    /** The indices of the open buckets past their grace, ascending. */
    method ReadyInOrder(now: int) returns (ready: seq<int>)
      requires ValidConfig(cfg) && Shows(cfg, open, win)
      ensures ready == Ascending(Stale(cfg.grid, win, now))
    {
      var cutoff := IndexOf(cfg.grid, now - cfg.grid.grace);
      ready := Sorted(set i | i in open.Keys && i < cutoff);
      assert (set i | i in open.Keys && i < cutoff) == Stale(cfg.grid, win, now);
    }

    /** The finalised buckets the ring still has that start after a time. */
    method Timeline(since: int) returns (out: seq<Bucket>)
      requires Valid()
      ensures out == Newer(Kept(Finals(cfg, win.history), cfg.capacity), StartOf, since)
    {
      out := ring.Timeline(since);
    }
  }

  // ---------------------------------------------------------------------------
  // Helpers
  // ---------------------------------------------------------------------------

  lemma SizeOfKeys<S, T, U>(a: map<S, T>, b: map<S, U>)
    requires a.Keys == b.Keys
    ensures |a| == |b|
  {
    assert |a| == |a.Keys| && |b| == |b.Keys|;
  }

  lemma PutTwice<S, V>(m: map<S, V>, k: S, v: V, w: V)
    ensures m[k := v][k := w] == m[k := w]
  {
  }

  /** Whatever was read has histograms of this layout. */
  lemma ReadFits(cfg: StoreConfig, series: seq<Delta>, samples: seq<Sample>)
    requires Sized(series) && ReadUpTo(cfg, series, samples)
    ensures AllFit(samples, cfg.layout)
  {
    forall i | 0 <= i < |samples|
      ensures Fits(samples[i].agg.hist, cfg.layout)
    {
      assert ReadAt(cfg, series, samples, i);
    }
  }

  lemma ReadOneMore(cfg: StoreConfig, series: seq<Delta>, samples: seq<Sample>, s: Sample)
    requires Sized(series) && |samples| < |series|
    requires forall i :: 0 <= i < |samples| ==> ReadAt(cfg, series, samples, i)
    requires ReadAt(cfg, series, samples + [s], |samples|)
    ensures forall i :: 0 <= i < |samples + [s]| ==> ReadAt(cfg, series, samples + [s], i)
  {
    forall i | 0 <= i < |samples|
      ensures ReadAt(cfg, series, samples + [s], i)
    {
      assert ReadAt(cfg, series, samples, i);
    }
  }

  /** The bucket a batch finds open, or the one that is made for it. */
  ghost function Before(cfg: StoreConfig, open: map<int, Bucket>, i: int, start: int): (r: Bucket)
    requires ValidConfig(cfg)
  {
    if i in open then open[i] else EmptyBucket(cfg, start)
  }

  ghost function Put(cfg: StoreConfig, open: map<int, Bucket>, i: int, start: int, part: Part): (r: map<int, Bucket>)
    requires ValidConfig(cfg)
  {
    open[i := WithPart(cfg, Before(cfg, open, i, start), part)]
  }

  /** How many deltas of a batch the cap on charted endpoints turns away. */
  ghost function RefusedAt(cfg: StoreConfig, b: Bucket, part: Part): (r: nat) {
    RefusedOn(b.chart, part.samples, cfg.maxEndpoints, cfg.layout)
  }

  /** The same of a batch as it comes. */
  ghost function Refusals(cfg: StoreConfig, open: map<int, Bucket>, start: int, accepted: bool, part: Part): (r: nat)
    requires ValidConfig(cfg)
  {
    if accepted then RefusedAt(cfg, Before(cfg, open, IndexOf(cfg.grid, start), start), part) else 0
  }

  /** What a dated batch does to the fields is the machine's step. */
  lemma ShowsBatch(cfg: StoreConfig, before: map<int, Bucket>, after: map<int, Bucket>, win: Win<Part>,
                   start: int, part: Part, found: bool)
    requires ValidConfig(cfg) && Shows(cfg, before, win) && start != ZERO_TIME
    requires found <==>
      IndexOf(cfg.grid, start) in before || IndexOf(cfg.grid, start) >= Cutoff(cfg.grid, Later(win.lastSeen, start))
    requires after == if found then Put(cfg, before, IndexOf(cfg.grid, start), start, part) else before
    ensures found <==> Accepts(cfg.grid, win, start)
    ensures var r := Batched(cfg.grid, win, start, part);
      && Shows(cfg, after, r) && r.lastSeen == Later(win.lastSeen, start) && r.history == win.history
      && r.late == if found then win.late else win.late + 1
  {
    var i := IndexOf(cfg.grid, start);
    if i in win.open {
      var f := win.open[i];
      assert f.(parts := f.parts + [part]).parts[..|f.parts|] == f.parts;
    } else {
      assert [part][..0] == [];
    }
  }

  lemma FirstsStep(order: seq<int>, n: nat)
    requires n < |order| && forall i, j :: 0 <= i < j < |order| ==> order[i] < order[j]
    ensures order[n] !in Firsts(order, n) && Firsts(order, n + 1) == Firsts(order, n) + {order[n]}
  {
  }

  /** Forgetting the stale buckets is the machine's step. */
  lemma ShowsClosed(cfg: StoreConfig, before: map<int, Bucket>, after: map<int, Bucket>, win: Win<Part>, now: int)
    requires ValidConfig(cfg) && Shows(cfg, before, win)
    requires var ready := Ascending(Stale(cfg.grid, win, now)); after == before - Firsts(ready, |ready|)
    ensures Shows(cfg, after, Closed(cfg.grid, win, now))
  {
    var s := Stale(cfg.grid, win, now);
    var ready := Ascending(s);
    forall x | x in s
      ensures x in Firsts(ready, |ready|)
    {
      assert x in ready;
      var i :| 0 <= i < |ready| && ready[i] == x;
    }
    assert Firsts(ready, |ready|) == s;
  }

  ghost function Firsts(order: seq<int>, n: nat): (r: set<int>)
    requires n <= |order|
  {
    set i | 0 <= i < n :: order[i]
  }

  lemma FinalsOneMore(cfg: StoreConfig, slots: seq<Slot<Part>>, n: nat)
    requires ValidConfig(cfg) && n < |slots|
    ensures Finals(cfg, slots[..n + 1]) == Finals(cfg, slots[..n]) + [Finalised(BucketOf(cfg, slots[n].bucket))]
  {
    assert slots[..n + 1] == slots[..n] + [slots[n]];
    FinalsAppend(cfg, slots[..n], [slots[n]]);
    assert Finals(cfg, [slots[n]]) == [Finalised(BucketOf(cfg, slots[n].bucket))];
  }

  lemma FinalsAppend(cfg: StoreConfig, a: seq<Slot<Part>>, b: seq<Slot<Part>>)
    requires ValidConfig(cfg)
    ensures Finals(cfg, a + b) == Finals(cfg, a) + Finals(cfg, b)
  {
  }

  /** Sorts indices by taking the least of those left. */
  method Sorted(s: set<int>) returns (r: seq<int>)
    ensures r == Ascending(s)
  {
    r := [];
    var rest := s;
    while rest != {}
      invariant r + Ascending(rest) == Ascending(s)
      decreases rest
    {
      var m := LeastIndex(rest);
      LeastIsUnique(m, rest);
      Regroup(r, m, Ascending(rest - {m}));
      r, rest := r + [m], rest - {m};
    }
    assert r + [] == r;
  }

  method LeastIndex(s: set<int>) returns (m: int)
    requires s != {}
    ensures IsLeast(m, s)
  {
    ghost var any := Any(s);
    assert any in s;
    m :| m in s;
    var rest := s - {m};
    while rest != {}
      invariant m in s && rest <= s && forall x :: x in s ==> x in rest || m <= x
      decreases rest
    {
      ghost var other := Any(rest);
      assert other in rest;
      var x :| x in rest;
      rest := rest - {x};
      m := if x < m then x else m;
    }
  }

  lemma Regroup<T>(a: seq<T>, x: T, b: seq<T>)
    ensures a + ([x] + b) == (a + [x]) + b
  {
  }

  lemma LeastIsUnique(m: int, s: set<int>)
    requires s != {} && IsLeast(m, s)
    ensures m == Least(s)
  {
    assert Least(s) in s && m in s;
  }
}
