/**
 From batches to the stream: when the finalised buckets have rising starts, so that a stream that
 goes by starts publishes all of them.
 */
module Published {

  import opened Ring
  import opened StoreBuckets
  import opened Window

  /** No batch starts before the epoch. */
  ghost predicate FromEpoch<P>(steps: seq<Step<P>>) {
    forall i :: 0 <= i < |steps| && steps[i].Batch? ==> steps[i].start >= 0
  }

  /** A bucket was opened by a batch of its index, from the epoch on. */
  ghost predicate OpenedBy<P>(g: Grid, index: int, bucket: Filling<P>)
    requires ValidGrid(g)
  {
    bucket.first >= 0 && IndexOf(g, bucket.first) == index
  }

  ghost predicate WellOpened<P>(g: Grid, w: Win<P>)
    requires ValidGrid(g)
  {
    && (forall i :: i in w.open ==> OpenedBy(g, i, w.open[i]))
    && (forall k :: 0 <= k < |w.history| ==> OpenedBy(g, w.history[k].index, w.history[k].bucket))
  }

  lemma WellOpenedClose<P>(g: Grid, w: Win<P>, now: int)
    requires ValidGrid(g) && WellOpened(g, w)
    ensures WellOpened(g, Closed(g, w, now))
  {
    var r := Closed(g, w, now);
    var order := Ascending(Stale(g, w, now));
    forall k | 0 <= k < |r.history|
      ensures OpenedBy(g, r.history[k].index, r.history[k].bucket)
    {
      if k >= |w.history| {
        assert order[k - |w.history|] in Stale(g, w, now);
      }
    }
  }

  lemma {:induction false} RunWellOpened<P>(g: Grid, steps: seq<Step<P>>)
    requires ValidGrid(g) && FromEpoch(steps)
    ensures WellOpened(g, Run(g, steps))
  {
    if steps != [] {
      var rest, e := steps[..|steps| - 1], steps[|steps| - 1];
      RunWellOpened(g, rest);
      if e.Close? {
        WellOpenedClose(g, Run(g, rest), e.now);
      }
    }
  }

  /** A finalised bucket starts where its first batch's time rounds down to. */
  lemma FinalStart(cfg: StoreConfig, slots: seq<Slot<Part>>, k: nat)
    requires ValidConfig(cfg) && k < |slots|
    ensures StartOf(Finals(cfg, slots)[k]) == Truncated(cfg.grid, slots[k].bucket.first)
  {
    BucketShows(cfg, slots[k].bucket);
  }

  lemma LaterStart(g: Grid, i: int, j: int)
    requires ValidGrid(g) && i < j
    ensures i * g.resolution < j * g.resolution
  {
    Distribute(j, i, g.resolution);
    MulAtLeast(j - i, g.resolution);
  }

  lemma EpochIndex(g: Grid, t: int)
    requires ValidGrid(g) && t >= 0
    ensures IndexOf(g, t) >= 0 && IndexOf(g, t) * g.resolution >= 0
  {
  }

  /** A finalised bucket starts at its index. */
  ghost predicate OnGrid(g: Grid, slots: seq<Slot<Part>>, h: seq<Bucket>, k: nat)
    requires ValidGrid(g) && k < |slots| && k < |h|
  {
    StartOf(h[k]) == slots[k].index * g.resolution && Dated(h, StartOf, k)
  }

  /** So it does on a grid whose resolution divides the zero time. */
  lemma FinalsOnGrid(cfg: StoreConfig, steps: seq<Step<Part>>, k: nat)
    requires ValidConfig(cfg) && FromEpoch(steps) && Aligned(cfg.grid) && k < |Run(cfg.grid, steps).history|
    ensures OnGrid(cfg.grid, Run(cfg.grid, steps).history, Finals(cfg, Run(cfg.grid, steps).history), k)
  {
    var slots := Run(cfg.grid, steps).history;
    RunWellOpened(cfg.grid, steps);
    assert OpenedBy(cfg.grid, slots[k].index, slots[k].bucket);
    FinalStart(cfg, slots, k);
    AlignedStart(cfg.grid, slots[k].bucket.first);
    EpochIndex(cfg.grid, slots[k].bucket.first);
  }

  lemma SameOrder(g: Grid, slots: seq<Slot<Part>>, h: seq<Bucket>, k: nat, l: nat)
    requires ValidGrid(g) && k < |slots| == |h| && l < |h| && OnGrid(g, slots, h, k) && OnGrid(g, slots, h, l)
    ensures StartsBefore(h, StartOf, k, l) <==> slots[k].index < slots[l].index
  {
    if slots[k].index < slots[l].index {
      LaterStart(g, slots[k].index, slots[l].index);
    } else if slots[l].index < slots[k].index {
      LaterStart(g, slots[l].index, slots[k].index);
    }
  }

  lemma RisingByIndex(g: Grid, slots: seq<Slot<Part>>, h: seq<Bucket>)
    requires ValidGrid(g) && |slots| == |h| && forall k :: 0 <= k < |h| ==> OnGrid(g, slots, h, k)
    ensures Rising(h, StartOf) <==> InOrder(slots)
  {
    forall k | 0 <= k < |h|
      ensures Dated(h, StartOf, k)
    {
      assert OnGrid(g, slots, h, k);
    }
    forall k, l | 0 <= k < l < |h|
      ensures StartsBefore(h, StartOf, k, l) <==> slots[k].index < slots[l].index
    {
      assert OnGrid(g, slots, h, k) && OnGrid(g, slots, h, l);
      SameOrder(g, slots, h, k, l);
    }
  }

  /**
   On a grid whose resolution divides the zero time, with batches from the epoch on: the finalised buckets have strictly
   rising starts exactly when their indices ascend, as in every run whose batches open buckets above the finalised ones.
   */
  lemma FinalisedRiseIff(cfg: StoreConfig, steps: seq<Step<Part>>)
    requires ValidConfig(cfg) && FromEpoch(steps) && Aligned(cfg.grid)
    ensures Rising(Finals(cfg, Run(cfg.grid, steps).history), StartOf) <==> InOrder(Run(cfg.grid, steps).history)
    ensures OpensAbove(cfg.grid, steps) ==> InOrder(Run(cfg.grid, steps).history)
  {
    var slots := Run(cfg.grid, steps).history;
    OrderlyIff(cfg.grid, steps);
    forall k: nat | k < |slots|
      ensures OnGrid(cfg.grid, slots, Finals(cfg, slots), k)
    {
      FinalsOnGrid(cfg, steps, k);
    }
    RisingByIndex(cfg.grid, slots, Finals(cfg, slots));
  }

  /**
   What the stream of a run is, on such a grid: after a publication it is the finalised history exactly when every
   bucket started past the watermark it was filed at and none was pending too long; in a run that is in order, the
   latter suffices.
   */
  lemma StreamIsFinalisedIff(cfg: StoreConfig, steps: seq<Step<Part>>, acts: seq<Act<Bucket>>)
    requires ValidConfig(cfg) && FromEpoch(steps) && Aligned(cfg.grid)
    requires acts != [] && acts[|acts| - 1].Publish?
    requires Streamed(acts, StartOf, cfg.capacity).history == Finals(cfg, Run(cfg.grid, steps).history)
    ensures var whole := Streamed(acts, StartOf, cfg.capacity).sent == Finals(cfg, Run(cfg.grid, steps).history);
      && (whole <==> Clean(acts, StartOf, cfg.capacity))
      && (OpensAbove(cfg.grid, steps) ==> (whole <==> Missed(acts, cfg.capacity) == 0))
  {
    var h := Finals(cfg, Run(cfg.grid, steps).history);
    forall k | 0 <= k < |h|
      ensures Dated(h, StartOf, k)
    {
      FinalsOnGrid(cfg, steps, k);
      assert OnGrid(cfg.grid, Run(cfg.grid, steps).history, h, k);
    }
    StreamCompleteIffClean(acts, StartOf, cfg.capacity);
    if OpensAbove(cfg.grid, steps) {
      FinalisedRiseIff(cfg, steps);
      StreamCompleteIff(acts, StartOf, cfg.capacity);
    }
  }

  // ---------------------------------------------------------------------------
  // Any other resolution
  // ---------------------------------------------------------------------------

  /** Two batches either side of the first boundary after the epoch, one well after, and a close. */
  function Straddle(g: Grid, p: Part): (r: seq<Step<Part>>)
    requires ValidGrid(g)
  {
    var end := 2 * g.resolution + g.grace;
    [Batch(g.resolution - 1, p), Batch(g.resolution, p), Batch(end, p), Close(end)]
  }

  lemma StepRun<P>(g: Grid, steps: seq<Step<P>>, e: Step<P>)
    requires ValidGrid(g)
    ensures Run(g, steps + [e]) == Next(g, Run(g, steps), e)
  {
    assert (steps + [e])[..|steps|] == steps;
  }

  lemma StraddleIndices(g: Grid)
    requires ValidGrid(g)
    ensures IndexOf(g, g.resolution - 1) == 0 && IndexOf(g, g.resolution) == 1 && IndexOf(g, 2 * g.resolution) == 2
    ensures IndexOf(g, 2 * g.resolution + g.grace) >= 2
    ensures Cutoff(g, g.resolution - 1) <= 0 && Cutoff(g, g.resolution) <= 1
    ensures Cutoff(g, 2 * g.resolution + g.grace) == 2
  {
    var d := g.resolution;
    ModUnique(d - 1, 0, d - 1, d);
    ModUnique(d, 1, 0, d);
    ModUnique(2 * d, 2, 0, d);
    IndexMonotone(g, d - 1, d - 1);
    IndexMonotone(g, d, d);
    IndexMonotone(g, 2 * d, 2 * d + g.grace);
  }

  lemma StraddleOpens(g: Grid, p: Part)
    requires ValidGrid(g)
    ensures var b := Straddle(g, p)[..3];
      && Run(g, b).history == []
      && Run(g, b).open == map[0 := Filling(g.resolution - 1, [p]), 1 := Filling(g.resolution, [p]),
                               IndexOf(g, 2 * g.resolution + g.grace) := Filling(2 * g.resolution + g.grace, [p])]
  {
    var d, t := g.resolution, 2 * g.resolution + g.grace;
    StraddleIndices(g);
    var none: seq<Step<Part>> := [];
    StepRun(g, none, Batch(d - 1, p));
    StepRun(g, none + [Batch(d - 1, p)], Batch(d, p));
    StepRun(g, none + [Batch(d - 1, p)] + [Batch(d, p)], Batch(t, p));
    assert Run(g, none + [Batch(d - 1, p)]) == Win(map[0 := Filling(d - 1, [p])], d - 1, 0, []);
    assert Run(g, none + [Batch(d - 1, p)] + [Batch(d, p)]) ==
           Win(map[0 := Filling(d - 1, [p]), 1 := Filling(d, [p])], d, 0, []);
    assert Straddle(g, p)[..3] == none + [Batch(d - 1, p)] + [Batch(d, p)] + [Batch(t, p)];
  }

  lemma ZeroThenOne()
    ensures Ascending({0, 1}) == [0, 1]
  {
    var zero, one := Least({0, 1}), Least({1});
    assert IsLeast(zero, {0, 1}) && IsLeast(one, {1}) && 0 in {0, 1};
    assert zero == 0 && one == 1;
    assert {0, 1} - {0} == {1} && {1} - {1} == {};
    assert Ascending({1}) == [1] + Ascending({});
  }

  /** Closing at the last batch's time finds both of them stale. */
  lemma StraddleStale(g: Grid, p: Part)
    requires ValidGrid(g)
    ensures Stale(g, Run(g, Straddle(g, p)[..3]), 2 * g.resolution + g.grace) == {0, 1}
  {
    StraddleIndices(g);
    StraddleOpens(g, p);
  }

  lemma ClosesBoth<P>(g: Grid, w: Win<P>, t: int)
    requires ValidGrid(g) && Stale(g, w, t) == {0, 1} && w.history == []
    ensures 0 in w.open && 1 in w.open && Closed(g, w, t).history == [Slot(0, w.open[0]), Slot(1, w.open[1])]
  {
    ZeroThenOne();
    assert 0 in Stale(g, w, t) && 1 in Stale(g, w, t);
  }

  /** Closing files both of them, in order. */
  lemma StraddleFiles(g: Grid, p: Part)
    requires ValidGrid(g)
    ensures FromEpoch(Straddle(g, p))
    ensures Run(g, Straddle(g, p)).history
         == [Slot(0, Filling(g.resolution - 1, [p])), Slot(1, Filling(g.resolution, [p]))]
  {
    var t, b := 2 * g.resolution + g.grace, Straddle(g, p)[..3];
    StraddleIndices(g);
    StraddleOpens(g, p);
    StraddleStale(g, p);
    ClosesBoth(g, Run(g, b), t);
    StepRun(g, b, Close(t));
    assert Straddle(g, p) == b + [Close(t)];
  }

  /** In order as they are finalised, the buckets of this run have rising starts. */
  ghost predicate RisesInOrder(cfg: StoreConfig, steps: seq<Step<Part>>)
    requires ValidConfig(cfg)
  {
    InOrder(Run(cfg.grid, steps).history) ==> Rising(Finals(cfg, Run(cfg.grid, steps).history), StartOf)
  }

  /** Starts rise with indices in every run from the epoch on exactly when the resolution divides the zero time. */
  lemma RiseIffAligned(cfg: StoreConfig)
    requires ValidConfig(cfg)
    ensures Aligned(cfg.grid) <==> forall steps :: FromEpoch(steps) ==> RisesInOrder(cfg, steps)
  {
    var g := cfg.grid;
    if Aligned(g) {
      forall steps | FromEpoch(steps)
        ensures RisesInOrder(cfg, steps)
      {
        FinalisedRiseIff(cfg, steps);
      }
    } else {
      var p := Part("", 0, []);
      var h := Finals(cfg, Run(g, Straddle(g, p)).history);
      StraddleFiles(g, p);
      SameStart(g);
      FinalStart(cfg, Run(g, Straddle(g, p)).history, 0);
      FinalStart(cfg, Run(g, Straddle(g, p)).history, 1);
      assert !StartsBefore(h, StartOf, 0, 1);
      assert !RisesInOrder(cfg, Straddle(g, p));
    }
  }
}
