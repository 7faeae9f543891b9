/**
 A node's recorder as a machine of lock-protected steps.

 Recording takes one shard lock; a flush takes them one after another, so records land
 between its steps. Every aggregate carries, beside its accumulated values, the list of
 observations that went into it, which is what the theorems speak about.

 `S` is a series (metric name and labels), `K` what admission counts (metric name and label hash).
 */
module RecorderMachine {

  import opened Aggregates
  import opened Options

  datatype Cell = Cell(agg: Agg, log: seq<Obs>)

  /** `next` is the shard the flush in progress will drain next; `out` lists the batches flushed so far. */
  datatype Rec<S, K> = Rec(shards: seq<map<S, Cell>>, distinct: set<K>, dropped: nat,
                           merged: map<S, Cell>, next: Option<nat>, out: seq<map<S, Cell>>)

  datatype Settings<!S, !K> = Settings(shards: nat, trendShards: nat, maxSeries: nat, key: S -> K, layout: Layout)

  ghost predicate ValidSettings<S, K>(c: Settings<S, K>) {
    1 <= c.trendShards <= c.shards && c.maxSeries >= 1
  }

  // ---------------------------------------------------------------------------
  // Cells
  // ---------------------------------------------------------------------------

  function NewCell(kind: Kind, L: Layout): (r: Cell) {
    Cell(New(kind, L), [])
  }

  function ObserveCell(c: Cell, o: Obs, L: Layout): (r: Cell) {
    Cell(Observed(c.agg, o, L), c.log + [o])
  }

  function MergeCell(c: Cell, d: Cell): (r: Cell) {
    Cell(Merged(c.agg, d.agg), c.log + d.log)
  }

  function ClearCell(c: Cell): (r: Cell) {
    Cell(Cleared(c.agg), [])
  }

  /**
   The aggregate is the one that would have seen the whole list; of a gauge the count is promised, and that it has no
   histogram.
   */
  ghost predicate Good(kind: Kind, c: Cell, L: Layout) {
    && c.agg.kind == kind && c.agg.count == |c.log|
    && (if kind.Gauge? then c.agg.hist.NoHist? else c.agg == Fold(kind, c.log, L))
  }

  lemma GoodSteps(kind: Kind, c: Cell, d: Cell, o: Obs, L: Layout)
    requires Good(kind, c, L) && Good(kind, d, L)
    ensures Good(kind, NewCell(kind, L), L) && Good(kind, ClearCell(c), L)
    ensures Good(kind, ObserveCell(c, o, L), L)
    ensures Good(kind, MergeCell(c, d), L)
  {
    if !kind.Gauge? {
      ClearedIsNew(kind, c.log, L);
      FoldOne(kind, c.log, o, L);
      MergeIsFold(kind, c.log, d.log, L);
    }
  }

  /** The aggregates alone. */
  ghost function Aggs<S>(cells: map<S, Cell>): (r: map<S, Agg>) {
    map s | s in cells :: cells[s].agg
  }

  // ---------------------------------------------------------------------------
  // Steps
  // ---------------------------------------------------------------------------

  datatype Step<S> =
    | Record(series: S, kind: Kind, obs: Obs, hint: nat)
    | BeginFlush
    | FlushShard
    | EndFlush

  function ShardOf<S, K>(cfg: Settings<S, K>, kind: Kind, hint: nat): (r: nat)
    requires ValidSettings(cfg)
    ensures r < cfg.shards
  {
    if kind.Trend? then hint % cfg.trendShards else hint % cfg.shards
  }

  function Admits<S, K>(cfg: Settings<S, K>, st: Rec<S, K>, s: S): (r: bool) {
    cfg.key(s) in st.distinct || |st.distinct| < cfg.maxSeries
  }

  function Recorded<S, K>(cfg: Settings<S, K>, st: Rec<S, K>, s: S, kind: Kind, o: Obs, hint: nat): (r: Rec<S, K>)
    requires ValidSettings(cfg) && |st.shards| == cfg.shards
  {
    var i := ShardOf(cfg, kind, hint);
    var shard := st.shards[i];
    if s in shard then
      st.(shards := st.shards[i := shard[s := ObserveCell(shard[s], o, cfg.layout)]])
    else if Admits(cfg, st, s) then
      st.(shards := st.shards[i := shard[s := ObserveCell(NewCell(kind, cfg.layout), o, cfg.layout)]],
          distinct := st.distinct + {cfg.key(s)})
    else
      st.(dropped := st.dropped + 1)
  }

  function Begun<S, K>(st: Rec<S, K>): (r: Rec<S, K>) {
    st.(merged := map s | s in st.merged :: ClearCell(st.merged[s]), next := Some(0))
  }

  /** Whether a series has anything to contribute. */
  predicate Filled<S>(m: map<S, Cell>, s: S) {
    s in m && m[s].agg.count != 0
  }

  function MergeShard<S>(merged: map<S, Cell>, shard: map<S, Cell>, L: Layout): (r: map<S, Cell>) {
    map s | s in merged.Keys + shard.Keys && (s in merged || Filled(shard, s)) ::
      if Filled(shard, s) then
        MergeCell(if s in merged then merged[s] else NewCell(shard[s].agg.kind, L), shard[s])
      else merged[s]
  }

  function ClearShard<S>(shard: map<S, Cell>): (r: map<S, Cell>) {
    map s | s in shard :: ClearCell(shard[s])
  }

  function ShardFlushed<S, K>(cfg: Settings<S, K>, st: Rec<S, K>): (r: Rec<S, K>)
    requires st.next.Some? && st.next.value < |st.shards|
  {
    var i := st.next.value;
    st.(merged := MergeShard(st.merged, st.shards[i], cfg.layout),
        shards := st.shards[i := ClearShard(st.shards[i])],
        next := Some(i + 1))
  }

  function BatchOf<S>(merged: map<S, Cell>): (r: map<S, Cell>) {
    map s | s in merged && Filled(merged, s) :: merged[s]
  }

  /** A batch as it is sent: the aggregates of these cells, each series once, in some order. */
  ghost predicate Lists<S>(batch: seq<(S, Agg)>, cells: map<S, Cell>) {
    && (forall i :: 0 <= i < |batch| ==> batch[i].0 in cells && batch[i].1 == cells[batch[i].0].agg)
    && (forall i, j :: 0 <= i < j < |batch| ==> batch[i].0 != batch[j].0)
    && (forall s :: s in cells ==> exists i :: 0 <= i < |batch| && batch[i].0 == s)
  }

  function Ended<S, K>(st: Rec<S, K>): (r: Rec<S, K>) {
    st.(next := None, out := st.out + [BatchOf(st.merged)])
  }

  /** One step; a step the flush mutex or the shard loop rules out changes nothing. */
  function Next<S, K>(cfg: Settings<S, K>, st: Rec<S, K>, e: Step<S>): (r: Rec<S, K>)
    requires ValidSettings(cfg) && |st.shards| == cfg.shards
    ensures |r.shards| == cfg.shards
  {
    match e
    case Record(s, kind, o, hint) => Recorded(cfg, st, s, kind, o, hint)
    case BeginFlush => if st.next.None? then Begun(st) else st
    case FlushShard => if st.next.Some? && st.next.value < |st.shards| then ShardFlushed(cfg, st) else st
    case EndFlush => if st.next.Some? && st.next.value >= |st.shards| then Ended(st) else st
  }

  function Initial<S, K>(cfg: Settings<S, K>): (r: Rec<S, K>) {
    Rec(seq(cfg.shards, i => map[]), {}, 0, map[], None, [])
  }

  function Run<S, K>(cfg: Settings<S, K>, steps: seq<Step<S>>): (r: Rec<S, K>)
    requires ValidSettings(cfg)
    ensures |r.shards| == cfg.shards
  {
    if steps == [] then Initial(cfg)
    else Next(cfg, Run(cfg, steps[..|steps| - 1]), steps[|steps| - 1])
  }

  // ---------------------------------------------------------------------------
  // Where the observations of a series are
  // ---------------------------------------------------------------------------

  // Counted one observation value at a time, so that the books are sums of numbers.

  function At<S>(m: map<S, Cell>, s: S, o: Obs): (r: nat) {
    if s in m then multiset(m[s].log)[o] else 0
  }

  /** Over a list of maps: the shards, or the batches flushed so far. */
  function AtAll<S>(ms: seq<map<S, Cell>>, s: S, o: Obs): (r: nat) {
    if ms == [] then 0 else AtAll(ms[..|ms| - 1], s, o) + At(ms[|ms| - 1], s, o)
  }

  /** Everything the recorder has or has had for a series: pending in shards, in the flush in progress, batched. */
  function Everything<S, K>(st: Rec<S, K>, s: S, o: Obs): (r: nat) {
    AtAll(st.shards, s, o) + (if st.next.Some? then At(st.merged, s, o) else 0) + AtAll(st.out, s, o)
  }

  /** How often a run records an observation of a series. */
  function Calls<S(==)>(steps: seq<Step<S>>, s: S, o: Obs): (r: nat) {
    if steps == [] then 0
    else
      var e := steps[|steps| - 1];
      Calls(steps[..|steps| - 1], s, o) + if e.Record? && e.series == s && e.obs == o then 1 else 0
  }

  /** How many of a run's observations are for keys outside a set. */
  function CallsOutside<S, K>(cfg: Settings<S, K>, steps: seq<Step<S>>, admitted: set<K>): (r: nat) {
    if steps == [] then 0
    else
      var e := steps[|steps| - 1];
      CallsOutside(cfg, steps[..|steps| - 1], admitted) + if e.Record? && cfg.key(e.series) !in admitted then 1 else 0
  }

  lemma {:induction false} AtAllUpdate<S>(ms: seq<map<S, Cell>>, i: nat, m: map<S, Cell>, s: S, o: Obs)
    requires i < |ms|
    ensures AtAll(ms[i := m], s, o) == AtAll(ms, s, o) - At(ms[i], s, o) + At(m, s, o)
  {
    var n := |ms| - 1;
    if i == n {
      assert ms[i := m][..n] == ms[..n];
    } else {
      AtAllUpdate(ms[..n], i, m, s, o);
      assert ms[i := m][..n] == ms[..n][i := m];
    }
  }

  lemma {:induction false} AtAllEmpty<S>(ms: seq<map<S, Cell>>, s: S, o: Obs)
    requires forall i :: 0 <= i < |ms| ==> s !in ms[i]
    ensures AtAll(ms, s, o) == 0
  {
    if ms != [] {
      AtAllEmpty(ms[..|ms| - 1], s, o);
    }
  }

  // ---------------------------------------------------------------------------
  // What every run keeps
  // ---------------------------------------------------------------------------

  ghost predicate GoodMap<S(!new)>(m: map<S, Cell>, kindOf: S -> Kind, L: Layout) {
    forall s :: s in m ==> Good(kindOf(s), m[s], L)
  }

  ghost predicate GoodMaps<S(!new)>(ms: seq<map<S, Cell>>, kindOf: S -> Kind, L: Layout) {
    forall i :: 0 <= i < |ms| ==> GoodMap(ms[i], kindOf, L)
  }

  /** Every series is recorded under one kind, which is what a metric's kind means. */
  ghost predicate Kinded<S>(steps: seq<Step<S>>, kindOf: S -> Kind) {
    forall i :: 0 <= i < |steps| && steps[i].Record? ==> steps[i].kind == kindOf(steps[i].series)
  }

  ghost predicate Exact<S(!new), K>(cfg: Settings<S, K>, st: Rec<S, K>, kindOf: S -> Kind) {
    && GoodMaps(st.shards, kindOf, cfg.layout)
    && GoodMap(st.merged, kindOf, cfg.layout)
    && GoodMaps(st.out, kindOf, cfg.layout)
  }

  lemma GoodUpdate<S(!new)>(ms: seq<map<S, Cell>>, i: nat, m: map<S, Cell>, kindOf: S -> Kind, L: Layout)
    requires i < |ms| && GoodMaps(ms, kindOf, L) && GoodMap(m, kindOf, L)
    ensures GoodMaps(ms[i := m], kindOf, L)
  {
  }

  lemma GoodRecorded<S(!new), K>(cfg: Settings<S, K>, st: Rec<S, K>, s: S, o: Obs, hint: nat, kindOf: S -> Kind)
    requires ValidSettings(cfg) && |st.shards| == cfg.shards && Exact(cfg, st, kindOf)
    ensures Exact(cfg, Recorded(cfg, st, s, kindOf(s), o, hint), kindOf)
  {
    var i := ShardOf(cfg, kindOf(s), hint);
    var shard := st.shards[i];
    assert GoodMap(shard, kindOf, cfg.layout);
    var c := if s in shard then shard[s] else NewCell(kindOf(s), cfg.layout);
    assert Good(kindOf(s), c, cfg.layout);
    GoodSteps(kindOf(s), c, c, o, cfg.layout);
    var shard' := shard[s := ObserveCell(c, o, cfg.layout)];
    assert GoodMap(shard', kindOf, cfg.layout);
    GoodUpdate(st.shards, i, shard', kindOf, cfg.layout);
  }

  lemma GoodCleared<S(!new)>(m: map<S, Cell>, kindOf: S -> Kind, L: Layout)
    requires GoodMap(m, kindOf, L)
    ensures GoodMap(ClearShard(m), kindOf, L)
  {
    forall s | s in m
      ensures Good(kindOf(s), ClearCell(m[s]), L)
    {
      GoodSteps(kindOf(s), m[s], m[s], Obs(0.0, false), L);
    }
  }

  lemma GoodMerged<S(!new)>(merged: map<S, Cell>, shard: map<S, Cell>, kindOf: S -> Kind, L: Layout)
    requires GoodMap(merged, kindOf, L) && GoodMap(shard, kindOf, L)
    ensures GoodMap(MergeShard(merged, shard, L), kindOf, L)
  {
    var r := MergeShard(merged, shard, L);
    forall s | s in r
      ensures Good(kindOf(s), r[s], L)
    {
      if Filled(shard, s) {
        var c := if s in merged then merged[s] else NewCell(kindOf(s), L);
        GoodSteps(kindOf(s), shard[s], shard[s], Obs(0.0, false), L);
        GoodSteps(kindOf(s), c, shard[s], Obs(0.0, false), L);
      }
    }
  }

  /** Each aggregate, wherever it is, is the one that saw exactly its own observations. */
  lemma {:induction false} RunExact<S(!new), K>(cfg: Settings<S, K>, steps: seq<Step<S>>, kindOf: S -> Kind)
    requires ValidSettings(cfg) && Kinded(steps, kindOf)
    ensures Exact(cfg, Run(cfg, steps), kindOf)
  {
    if steps != [] {
      var n := |steps| - 1;
      RunExact(cfg, steps[..n], kindOf);
      var st, e := Run(cfg, steps[..n]), steps[n];
      match e
      case Record(s, kind, o, hint) => GoodRecorded(cfg, st, s, o, hint, kindOf);
      case BeginFlush => GoodCleared(st.merged, kindOf, cfg.layout);
      case FlushShard =>
        if st.next.Some? && st.next.value < |st.shards| {
          var i := st.next.value;
          GoodMerged(st.merged, st.shards[i], kindOf, cfg.layout);
          GoodCleared(st.shards[i], kindOf, cfg.layout);
          GoodUpdate(st.shards, i, ClearShard(st.shards[i]), kindOf, cfg.layout);
        }
      case EndFlush =>
    }
  }

  // ---------------------------------------------------------------------------
  // Conservation and admission
  // ---------------------------------------------------------------------------

  /** Counts are list lengths in every aggregate, so an aggregate with count zero has seen nothing. */
  ghost predicate Counted<S(!new)>(m: map<S, Cell>) {
    forall s :: s in m ==> m[s].agg.count == |m[s].log|
  }

  ghost predicate CountedAll<S(!new), K>(st: Rec<S, K>) {
    && (forall i :: 0 <= i < |st.shards| ==> Counted(st.shards[i]))
    && Counted(st.merged)
  }

  lemma CountedNext<S(!new), K>(cfg: Settings<S, K>, st: Rec<S, K>, e: Step<S>)
    requires ValidSettings(cfg) && |st.shards| == cfg.shards && CountedAll(st)
    ensures CountedAll(Next(cfg, st, e))
  {
    match e
    case Record(s, kind, o, hint) =>
      var i := ShardOf(cfg, kind, hint);
      assert Counted(st.shards[i]);
    case BeginFlush =>
    case FlushShard =>
      if st.next.Some? && st.next.value < |st.shards| {
        CountedMerge(st.merged, st.shards[st.next.value], cfg.layout);
        assert Counted(ClearShard(st.shards[st.next.value]));
      }
    case EndFlush =>
  }

  lemma CountedMerge<S(!new)>(merged: map<S, Cell>, shard: map<S, Cell>, L: Layout)
    requires Counted(merged) && Counted(shard)
    ensures Counted(MergeShard(merged, shard, L))
  {
  }

  /** Draining a shard moves what it holds into the flush in progress. */
  lemma MergeMoves<S(!new)>(merged: map<S, Cell>, shard: map<S, Cell>, L: Layout, s: S, o: Obs)
    requires Counted(shard)
    ensures At(MergeShard(merged, shard, L), s, o) == At(merged, s, o) + At(shard, s, o)
    ensures At(ClearShard(shard), s, o) == 0
  {
    if s in shard && !Filled(shard, s) {
      assert shard[s].log == [];
    }
  }

  lemma BatchMoves<S(!new)>(merged: map<S, Cell>, s: S, o: Obs)
    requires Counted(merged)
    ensures At(BatchOf(merged), s, o) == At(merged, s, o)
  {
    if s in merged && !Filled(merged, s) {
      assert merged[s].log == [];
    }
  }

  /** A step moves observations but neither loses nor invents one; recording adds one exactly when it is admitted. */
  lemma StepConserves<S(!new), K>(cfg: Settings<S, K>, st: Rec<S, K>, e: Step<S>, s: S, o: Obs)
    requires ValidSettings(cfg) && |st.shards| == cfg.shards && CountedAll(st)
    ensures Everything(Next(cfg, st, e), s, o) == Everything(st, s, o) +
      if e.Record? && e.series == s && e.obs == o
         && (s in st.shards[ShardOf(cfg, e.kind, e.hint)] || Admits(cfg, st, s)) then 1 else 0
  {
    match e
    case Record(t, kind, p, hint) => RecordConserves(cfg, st, t, kind, p, hint, s, o);
    case BeginFlush =>
    case FlushShard =>
      if st.next.Some? && st.next.value < |st.shards| {
        var i := st.next.value;
        AtAllUpdate(st.shards, i, ClearShard(st.shards[i]), s, o);
        MergeMoves(st.merged, st.shards[i], cfg.layout, s, o);
      }
    case EndFlush =>
      if st.next.Some? && st.next.value >= |st.shards| {
        BatchMoves(st.merged, s, o);
        assert (st.out + [BatchOf(st.merged)])[..|st.out|] == st.out;
      }
  }

  lemma RecordConserves<S(!new), K>(cfg: Settings<S, K>, st: Rec<S, K>, t: S, kind: Kind, p: Obs, hint: nat, s: S,
                                    o: Obs)
    requires ValidSettings(cfg) && |st.shards| == cfg.shards
    ensures Everything(Recorded(cfg, st, t, kind, p, hint), s, o) == Everything(st, s, o) +
      if t == s && p == o && (s in st.shards[ShardOf(cfg, kind, hint)] || Admits(cfg, st, s)) then 1 else 0
  {
    var r, i := Recorded(cfg, st, t, kind, p, hint), ShardOf(cfg, kind, hint);
    RecordedShape(cfg, st, t, kind, p, hint);
    if t in st.shards[i] || Admits(cfg, st, t) {
      AtAllUpdate(st.shards, i, r.shards[i], s, o);
      ObservedAt(st.shards[i], r.shards[i], t, kind, p, cfg.layout, s, o);
    }
  }

  /** Recording touches one entry of one shard, or none. */
  lemma RecordedShape<S(!new), K>(cfg: Settings<S, K>, st: Rec<S, K>, t: S, kind: Kind, p: Obs, hint: nat)
    requires ValidSettings(cfg) && |st.shards| == cfg.shards
    ensures var r, i := Recorded(cfg, st, t, kind, p, hint), ShardOf(cfg, kind, hint);
      && r.merged == st.merged && r.next == st.next && r.out == st.out
      && if t in st.shards[i] || Admits(cfg, st, t) then
           && r.shards == st.shards[i := r.shards[i]]
           && r.shards[i] == st.shards[i][t := ObserveCell(
                if t in st.shards[i] then st.shards[i][t] else NewCell(kind, cfg.layout), p, cfg.layout)]
         else r.shards == st.shards
  {
  }

  lemma ObservedAt<S>(shard: map<S, Cell>, m: map<S, Cell>, t: S, kind: Kind, p: Obs, L: Layout, s: S, o: Obs)
    requires m == shard[t := ObserveCell(if t in shard then shard[t] else NewCell(kind, L), p, L)]
    ensures At(m, s, o) == At(shard, s, o) + if t == s && p == o then 1 else 0
  {
  }

  /** Only series with an admitted key are held anywhere. */
  ghost predicate Known<S(!new), K>(cfg: Settings<S, K>, st: Rec<S, K>) {
    && (forall i, s :: 0 <= i < |st.shards| && s in st.shards[i] ==> cfg.key(s) in st.distinct)
  }

  /** Every observation recorded so far was for one of these keys. */
  ghost predicate AllFor<S, K>(cfg: Settings<S, K>, steps: seq<Step<S>>, keys: set<K>) {
    forall i :: 0 <= i < |steps| && steps[i].Record? ==> cfg.key(steps[i].series) in keys
  }

  lemma {:induction false} NoneOutside<S, K>(cfg: Settings<S, K>, steps: seq<Step<S>>, keys: set<K>, s: S, o: Obs)
    requires AllFor(cfg, steps, keys)
    ensures CallsOutside(cfg, steps, keys) == 0
    ensures cfg.key(s) !in keys ==> Calls(steps, s, o) == 0
  {
    if steps != [] {
      var rest := steps[..|steps| - 1];
      assert AllFor(cfg, rest, keys);
      NoneOutside(cfg, rest, keys, s, o);
    }
  }

  /** What holds of every reachable state; until the cap is reached nothing has been turned away. */
  ghost predicate Reachable<S(!new), K>(cfg: Settings<S, K>, steps: seq<Step<S>>, st: Rec<S, K>) {
    && |st.shards| == cfg.shards && CountedAll(st) && Known(cfg, st)
    && |st.distinct| <= cfg.maxSeries
    && (|st.distinct| < cfg.maxSeries ==> AllFor(cfg, steps, st.distinct))
    && st.dropped == CallsOutside(cfg, steps, st.distinct)
  }

  lemma {:induction false} RunReachable<S(!new), K>(cfg: Settings<S, K>, steps: seq<Step<S>>)
    requires ValidSettings(cfg)
    ensures Reachable(cfg, steps, Run(cfg, steps))
  {
    if steps != [] {
      var n := |steps| - 1;
      RunReachable(cfg, steps[..n]);
      var st, e := Run(cfg, steps[..n]), steps[n];
      CountedNext(cfg, st, e);
      if e.Record? {
        AdmissionStep(cfg, steps, st);
      } else {
        assert Known(cfg, Next(cfg, st, e));
        assert AllFor(cfg, steps[..n], st.distinct) ==> AllFor(cfg, steps, st.distinct);
      }
    }
  }

  lemma AdmissionStep<S(!new), K>(cfg: Settings<S, K>, steps: seq<Step<S>>, st: Rec<S, K>)
    requires ValidSettings(cfg) && steps != [] && steps[|steps| - 1].Record?
    requires Reachable(cfg, steps[..|steps| - 1], st)
    ensures var r := Next(cfg, st, steps[|steps| - 1]);
      && Known(cfg, r) && |r.distinct| <= cfg.maxSeries
      && (|r.distinct| < cfg.maxSeries ==> AllFor(cfg, steps, r.distinct))
      && r.dropped == CallsOutside(cfg, steps, r.distinct)
  {
    var rest, e := steps[..|steps| - 1], steps[|steps| - 1];
    var r := Next(cfg, st, e);
    var k, i := cfg.key(e.series), ShardOf(cfg, e.kind, e.hint);
    if k in st.distinct {
      assert e.series in st.shards[i] || Admits(cfg, st, e.series);
      assert r.distinct == st.distinct;
    } else {
      assert e.series !in st.shards[i];
      if |st.distinct| < cfg.maxSeries {
        assert r.distinct == st.distinct + {k};
        NoneOutside(cfg, rest, st.distinct, e.series, e.obs);
        assert AllFor(cfg, rest, r.distinct);
        NoneOutside(cfg, rest, r.distinct, e.series, e.obs);
      }
    }
  }

  ghost predicate Booked<S(!new), K>(cfg: Settings<S, K>, steps: seq<Step<S>>, st: Rec<S, K>, s: S, o: Obs) {
    Everything(st, s, o) == if cfg.key(s) in st.distinct then Calls(steps, s, o) else 0
  }

  lemma BookStep<S(!new), K>(cfg: Settings<S, K>, steps: seq<Step<S>>, st: Rec<S, K>, e: Step<S>, s: S, o: Obs)
    requires ValidSettings(cfg) && Reachable(cfg, steps, st) && Booked(cfg, steps, st, s, o)
    ensures Booked(cfg, steps + [e], Next(cfg, st, e), s, o)
  {
    assert (steps + [e])[..|steps|] == steps;
    StepConserves(cfg, st, e, s, o);
    if e.Record? {
      AdmissionOf(cfg, steps, st, e, s, o);
    } else {
      assert Next(cfg, st, e).distinct == st.distinct;
    }
  }

  /**
   Over every interleaving of recording with the steps of flushes: a key is admitted always or
   never, at most `maxSeries` keys are; of a series with an admitted key, every observation ever
   recorded is in a shard, in the flush in progress or in exactly one batch; of any other
   series nothing is kept, and each of its observations is counted as dropped.
   */
  lemma {:induction false} RunConserves<S(!new), K>(cfg: Settings<S, K>, steps: seq<Step<S>>, s: S, o: Obs)
    requires ValidSettings(cfg)
    ensures var st := Run(cfg, steps);
      && Everything(st, s, o) == (if cfg.key(s) in st.distinct then Calls(steps, s, o) else 0)
      && |st.distinct| <= cfg.maxSeries
      && st.dropped == CallsOutside(cfg, steps, st.distinct)
  {
    RunReachable(cfg, steps);
    if steps == [] {
      AtAllEmpty(Run(cfg, steps).shards, s, o);
    } else {
      var n := |steps| - 1;
      RunConserves(cfg, steps[..n], s, o);
      RunReachable(cfg, steps[..n]);
      BookStep(cfg, steps[..n], Run(cfg, steps[..n]), steps[n], s, o);
      assert steps[..n] + [steps[n]] == steps;
    }
  }

  /** Whether recording once more changes which keys are admitted, and what that means for a series. */
  lemma AdmissionOf<S(!new), K>(cfg: Settings<S, K>, steps: seq<Step<S>>, st: Rec<S, K>, e: Step<S>, s: S, o: Obs)
    requires ValidSettings(cfg) && e.Record? && Reachable(cfg, steps, st)
    ensures var r := Next(cfg, st, e);
      && st.distinct <= r.distinct
      && (cfg.key(s) in r.distinct && cfg.key(s) !in st.distinct ==> Calls(steps, s, o) == 0)
      && (e.series == s ==> (cfg.key(s) in r.distinct <==>
            s in st.shards[ShardOf(cfg, e.kind, e.hint)] || Admits(cfg, st, s)))
  {
    if |st.distinct| < cfg.maxSeries {
      NoneOutside(cfg, steps, st.distinct, s, o);
    }
  }

  /** Every series in a batch has something to report. */
  ghost predicate AllReport<S>(batch: map<S, Cell>) {
    forall s :: s in batch ==> batch[s].agg.count > 0
  }

  /** Over every run, no batch lists a series of which nothing was observed since the one before. */
  lemma {:induction false} BatchesReport<S, K>(cfg: Settings<S, K>, steps: seq<Step<S>>)
    requires ValidSettings(cfg)
    ensures forall i :: 0 <= i < |Run(cfg, steps).out| ==> AllReport(Run(cfg, steps).out[i])
  {
    if steps != [] {
      BatchesReport(cfg, steps[..|steps| - 1]);
    }
  }
}
