/**
 The recorder itself: lock-sharded indexes updated in place, proved against the machine.

 Each method is one lock section. `st` is the machine's state before it; a method asks that
 the objects it locks match their part of that state, and promises that they match their
 part of the next one. Its modifies clause says that nothing else changed.
 */
module Recorder {

  import opened Aggregates
  import opened AggIndex
  import opened Options
  import opened RecorderMachine

  /** The index holds the aggregates of these cells. */
  ghost predicate Matches<S, K>(m: AggMap<S, K>, cells: map<S, Cell>, L: Layout)
    reads m, m.nodes
  {
    m.Valid() && m.layout == L && m.Contents() == Aggs(cells)
  }

  /** Folds one observation into the aggregate of its series, which is made first if need be. */
  method ObserveIn<S(==), K(==)>(m: AggMap<S, K>, s: S, kind: Kind, o: Obs, ghost cells: map<S, Cell>)
    requires Matches(m, cells, m.layout)
    modifies m, m.nodes
    ensures fresh(m.nodes - old(m.nodes))
    ensures Matches(m, cells[s :=
      ObserveCell(if s in cells then cells[s] else NewCell(kind, m.layout), o, m.layout)], m.layout)
  {
    var a := m.GetOrCreate(s, kind);
    m.ObserveAt(a, o);
    AggsUpdate(cells, s, ObserveCell(if s in cells then cells[s] else NewCell(kind, m.layout), o, m.layout));
  }

  /** Folds a drained aggregate into the one for the same series. */
  method MergeIn<S(==), K(==)>(m: AggMap<S, K>, s: S, c: Agg, ghost d: Cell, ghost cells: map<S, Cell>)
    requires Matches(m, cells, m.layout) && d.agg == c
    modifies m, m.nodes
    ensures fresh(m.nodes - old(m.nodes))
    ensures Matches(m, cells[s :=
      MergeCell(if s in cells then cells[s] else NewCell(c.kind, m.layout), d)], m.layout)
  {
    var a := m.GetOrCreate(s, c.kind);
    m.MergeAt(a, c);
    AggsUpdate(cells, s, MergeCell(if s in cells then cells[s] else NewCell(c.kind, m.layout), d));
  }

  lemma AggsUpdate<S>(cells: map<S, Cell>, s: S, c: Cell)
    ensures Aggs(cells[s := c]) == Aggs(cells)[s := c.agg]
  {
  }

  class Recorder<S(==), K(==)> {
    const cfg: Settings<S, K>
    const shards: seq<AggMap<S, K>>
    const merged: AggMap<S, K>
    var distinct: set<K>
    var dropped: nat

    constructor (cfg: Settings<S, K>)
      requires ValidSettings(cfg)
      ensures this.cfg == cfg && |shards| == cfg.shards
      ensures var st := Initial(cfg);
        && distinct == st.distinct && dropped == st.dropped
        && (forall i :: 0 <= i < |shards| ==> Matches(shards[i], st.shards[i], cfg.layout))
        && Matches(merged, st.merged, cfg.layout)
      ensures forall i, j :: 0 <= i < j < |shards| ==> shards[i] != shards[j]
      ensures forall i :: 0 <= i < |shards| ==> fresh(shards[i]) && shards[i].nodes == {} && shards[i] != merged
    {
      this.cfg := cfg;
      var ms: seq<AggMap<S, K>> := [];
      for n := 0 to cfg.shards
        invariant |ms| == n
        invariant forall i :: 0 <= i < n ==> fresh(ms[i]) && Matches(ms[i], map[], cfg.layout) && ms[i].nodes == {}
        invariant forall i, j :: 0 <= i < j < n ==> ms[i] != ms[j]
      {
        var m := new AggMap<S, K>(cfg.key, cfg.layout);
        ms := ms + [m];
      }
      shards := ms;
      merged := new AggMap<S, K>(cfg.key, cfg.layout);
      distinct, dropped := {}, 0;
    }

    /** Whether a new series fits within the cardinality budget; a key once admitted always does. */
    method Admit(s: S) returns (ok: bool)
      modifies this`distinct
      ensures ok <==> cfg.key(s) in old(distinct) || |old(distinct)| < cfg.maxSeries
      ensures distinct == if ok then old(distinct) + {cfg.key(s)} else old(distinct)
    {
      var k := cfg.key(s);
      if k in distinct {
        assert distinct == distinct + {k};
        return true;
      }
      if |distinct| >= cfg.maxSeries {
        return false;
      }
      distinct := distinct + {k};
      return true;
    }

    /** The part of recording done under the lock of one shard. */
    method RecordLocked(m: AggMap<S, K>, s: S, kind: Kind, o: Obs, ghost cells: map<S, Cell>) returns (ok: bool)
      requires Matches(m, cells, m.layout)
      modifies this`distinct, m, m.nodes
      ensures fresh(m.nodes - old(m.nodes))
      ensures ok <==> s in cells || cfg.key(s) in old(distinct) || |old(distinct)| < cfg.maxSeries
      ensures distinct == if ok && s !in cells then old(distinct) + {cfg.key(s)} else old(distinct)
      ensures Matches(m, if ok then cells[s :=
        ObserveCell(if s in cells then cells[s] else NewCell(kind, m.layout), o, m.layout)] else cells, m.layout)
    {
      var agg := m.Find(s);
      assert s in m.Contents() <==> s in Aggs(cells);
      if agg == null {
        ok := Admit(s);
        if !ok {
          return;
        }
      }
      ok := true;
      ObserveIn(m, s, kind, o, cells);
    }

    /** Folds one observation into the right shard, or counts it as dropped. */
    method Record(s: S, kind: Kind, o: Obs, hint: nat, ghost st: Rec<S, K>)
      requires ValidSettings(cfg) && |st.shards| == |shards| == cfg.shards
      requires Matches(shards[ShardOf(cfg, kind, hint)], st.shards[ShardOf(cfg, kind, hint)], cfg.layout)
      requires distinct == st.distinct && dropped == st.dropped
      modifies this, shards[ShardOf(cfg, kind, hint)], shards[ShardOf(cfg, kind, hint)].nodes
      ensures var m := shards[ShardOf(cfg, kind, hint)]; fresh(m.nodes - old(m.nodes))
      ensures var r, i := Recorded(cfg, st, s, kind, o, hint), ShardOf(cfg, kind, hint);
        && Matches(shards[i], r.shards[i], cfg.layout)
        && distinct == r.distinct && dropped == r.dropped
        && r == st.(shards := st.shards[i := r.shards[i]], distinct := distinct, dropped := dropped)
    {
      var idx := if kind == Trend then hint % cfg.trendShards else hint % cfg.shards;
      var ok := RecordLocked(shards[idx], s, kind, o, st.shards[idx]);
      if !ok {
        dropped := dropped + 1;
      }
      RecordedIs(cfg, st, s, kind, o, hint);
    }

    /** Starts a flush: the merged aggregates of the last one are zeroed and reused. */
    method BeginFlush(ghost st: Rec<S, K>)
      requires Matches(merged, st.merged, cfg.layout)
      modifies merged.nodes
      ensures Matches(merged, Begun(st).merged, cfg.layout)
    {
      Zero(merged, st.merged);
    }

    /** Lists what the flush gathered: every series with something to report, once, in the order visited. */
    method EndFlush(ghost st: Rec<S, K>) returns (batch: seq<(S, Agg)>)
      requires Matches(merged, st.merged, cfg.layout)
      ensures Lists(batch, BatchOf(st.merged))
    {
      var order := merged.Each();
      batch := [];
      for n := 0 to |order|
        invariant forall i :: 0 <= i < |batch| ==> batch[i].0 in Seen(order, n) && Reports(merged, batch[i])
        invariant forall i, j :: 0 <= i < j < |batch| ==> batch[i].0 != batch[j].0
        invariant forall i :: 0 <= i < n && order[i].count != 0 ==> (order[i].series, order[i].State()) in batch
      {
        SeenOnce(order, merged.index, merged.nodes, n);
        var a := order[n];
        assert a in merged.nodes;
        if a.count == 0 {
          continue;
        }
        batch := batch + [(a.series, a.State())];
      }
      ListsAll(merged, order, batch, st.merged);
    }

    /** Drains one shard into the flush in progress and zeroes it, under that shard's lock. */
    method FlushShard(i: nat, ghost st: Rec<S, K>)
      requires st.next == Some(i) && i < |st.shards| == |shards|
      requires Matches(shards[i], st.shards[i], cfg.layout) && Matches(merged, st.merged, cfg.layout)
      requires merged != shards[i] && merged.nodes !! shards[i].nodes
      modifies merged, merged.nodes, shards[i].nodes
      ensures var r := ShardFlushed(cfg, st);
        && Matches(shards[i], r.shards[i], cfg.layout)
        && Matches(merged, r.merged, cfg.layout)
        && r == st.(shards := st.shards[i := r.shards[i]], merged := r.merged, next := Some(i + 1))
      ensures fresh(merged.nodes - old(merged.nodes))
    {
      Drain(shards[i], st.shards[i], st.merged, MergeShard(st.merged, st.shards[i], cfg.layout));
      Zero(shards[i], st.shards[i]);
    }

    /** Adds what every filled aggregate of a shard holds to the merged one of its series. */
    method Drain(shard: AggMap<S, K>, ghost cells: map<S, Cell>, ghost into: map<S, Cell>, ghost result: map<S, Cell>)
      requires Matches(shard, cells, cfg.layout) && Matches(merged, into, cfg.layout)
      requires merged != shard && merged.nodes !! shard.nodes
      requires result == MergeShard(into, cells, cfg.layout)
      modifies merged, merged.nodes
      ensures Matches(merged, result, cfg.layout)
      ensures fresh(merged.nodes - old(merged.nodes))
    {
      var order := Visit(shard, cells, into, result);
      DrainInOrder(order, cells, into, result);
    }

    /** The aggregates of a shard in the order visited, and that draining them so gives the whole merge. */
    method Visit(shard: AggMap<S, K>, ghost cells: map<S, Cell>, ghost into: map<S, Cell>, ghost result: map<S, Cell>)
      returns (order: seq<Aggregate<S>>)
      requires Matches(shard, cells, cfg.layout) && merged.nodes !! shard.nodes
      requires result == MergeShard(into, cells, cfg.layout)
      ensures forall i :: 0 <= i < |order| ==> order[i].series in cells && order[i] !in merged.nodes
      ensures forall i :: 0 <= i < |order| ==> Holds(order[i], cells)
      ensures result == DrainedUpTo(into, cells, cfg.layout, order, |order|)
    {
      order := shard.Each();
      PlanDrain(shard, order, cells, into, result, merged.nodes);
    }

    method DrainInOrder(order: seq<Aggregate<S>>, ghost cells: map<S, Cell>, ghost into: map<S, Cell>,
                        ghost result: map<S, Cell>)
      requires Matches(merged, into, cfg.layout)
      requires forall i :: 0 <= i < |order| ==> order[i].series in cells && order[i] !in merged.nodes
      requires forall i :: 0 <= i < |order| ==> Holds(order[i], cells)
      requires result == DrainedUpTo(into, cells, cfg.layout, order, |order|)
      modifies merged, merged.nodes
      ensures Matches(merged, result, cfg.layout)
      ensures fresh(merged.nodes - old(merged.nodes))
    {
      ghost var now := into;
      for n := 0 to |order|
        invariant fresh(merged.nodes - old(merged.nodes))
        invariant now == DrainedUpTo(into, cells, cfg.layout, order, n)
        invariant Matches(merged, now, cfg.layout)
      {
        assert Holds(order[n], cells);
        DrainOne(order[n], cells, now);
        now := DrainedOne(now, cells, order[n].series, cfg.layout);
      }
    }

    /** One aggregate of a shard: nothing if it is empty, else merged in. */
    method DrainOne(a: Aggregate<S>, ghost cells: map<S, Cell>, ghost now: map<S, Cell>)
      requires Holds(a, cells) && Matches(merged, now, cfg.layout)
      modifies merged, merged.nodes
      ensures fresh(merged.nodes - old(merged.nodes))
      ensures Matches(merged, DrainedOne(now, cells, a.series, cfg.layout), cfg.layout)
    {
      if a.count != 0 {
        MergeIn(merged, a.series, a.State(), cells[a.series], now);
      }
    }

    /** Zeroes the aggregates of a shard. */
    method Zero(shard: AggMap<S, K>, ghost cells: map<S, Cell>)
      requires Matches(shard, cells, cfg.layout)
      modifies shard.nodes
      ensures Matches(shard, ClearShard(cells), cfg.layout)
    {
      shard.ResetAll();
      assert shard.Contents().Keys == Aggs(ClearShard(cells)).Keys;
    }
  }

  /** The aggregate has the value these cells give its series. */
  ghost predicate Holds<S>(a: Aggregate<S>, cells: map<S, Cell>)
    reads a
  {
    a.series in cells && cells[a.series].agg == a.State()
  }

  lemma AggOf<S, K>(m: AggMap<S, K>, a: Aggregate<S>, cells: map<S, Cell>)
    requires Matches(m, cells, m.layout) && a in m.nodes
    ensures Holds(a, cells)
  {
    assert NodesOf(m.index, m.nodes);
    assert a.series in m.index && m.index[a.series] == a;
    assert m.Contents()[a.series] == a.State();
    assert a.series in Aggs(cells) && Aggs(cells)[a.series] == a.State();
  }

  /** Whatever the order visited, the drain merges the whole shard, and never into what it reads. */
  lemma PlanDrain<S, K>(m: AggMap<S, K>, order: seq<Aggregate<S>>, cells: map<S, Cell>, into: map<S, Cell>,
                        result: map<S, Cell>, others: set<Aggregate<S>>)
    requires Matches(m, cells, m.layout) && result == MergeShard(into, cells, m.layout)
    requires forall a :: a in order <==> a in m.nodes
    requires forall i, j :: 0 <= i < j < |order| ==> ApartAt(order, i, j)
    requires others !! m.nodes
    ensures forall i :: 0 <= i < |order| ==> order[i].series in cells && order[i] !in others
    ensures forall i :: 0 <= i < |order| ==> Holds(order[i], cells)
    ensures DrainedUpTo(into, cells, m.layout, order, |order|) == result
  {
    OrderKnown(m, order, cells, others);
    DrainedEverything(m, order, cells, into);
  }

  ghost function Restricted<S>(cells: map<S, Cell>, seen: set<S>): (r: map<S, Cell>) {
    map s | s in cells && s in seen :: cells[s]
  }

  ghost function DrainedOne<S>(now: map<S, Cell>, cells: map<S, Cell>, s: S, L: Layout): (r: map<S, Cell>)
    requires s in cells
  {
    if cells[s].agg.count == 0 then now
    else now[s := MergeCell(if s in now then now[s] else NewCell(cells[s].agg.kind, L), cells[s])]
  }

  /** The merge after draining the first `n` aggregates of a shard in the order visited. */
  ghost function DrainedUpTo<S>(into: map<S, Cell>, cells: map<S, Cell>, L: Layout, order: seq<Aggregate<S>>, n: nat)
    : (r: map<S, Cell>)
    requires n <= |order| && forall i :: 0 <= i < |order| ==> order[i].series in cells
  {
    if n == 0 then into else DrainedOne(DrainedUpTo(into, cells, L, order, n - 1), cells, order[n - 1].series, L)
  }

  lemma OrderKnown<S, K>(m: AggMap<S, K>, order: seq<Aggregate<S>>, cells: map<S, Cell>, others: set<Aggregate<S>>)
    requires Matches(m, cells, m.layout) && forall a :: a in order <==> a in m.nodes
    requires others !! m.nodes
    ensures forall i :: 0 <= i < |order| ==> order[i] !in others
    ensures forall i :: 0 <= i < |order| ==> order[i].series in cells
    ensures forall i :: 0 <= i < |order| ==> Holds(order[i], cells)
  {
    forall i | 0 <= i < |order|
      ensures order[i].series in cells && Holds(order[i], cells)
    {
      AggOf(m, order[i], cells);
    }
  }

  lemma SeenNothing<S>(into: map<S, Cell>, cells: map<S, Cell>, L: Layout, order: seq<Aggregate<S>>)
    ensures MergeShard(into, Restricted(cells, Seen(order, 0)), L) == into
  {
  }

  lemma {:induction false} DrainedIs<S>(into: map<S, Cell>, cells: map<S, Cell>, L: Layout, order: seq<Aggregate<S>>,
                                        index: map<S, Aggregate<S>>, nodes: set<Aggregate<S>>, n: nat)
    requires n <= |order| && forall i :: 0 <= i < |order| ==> order[i].series in cells
    requires NodesOf(index, nodes) && forall a :: a in order <==> a in nodes
    requires forall i, j :: 0 <= i < j < |order| ==> ApartAt(order, i, j)
    ensures DrainedUpTo(into, cells, L, order, n) == MergeShard(into, Restricted(cells, Seen(order, n)), L)
  {
    if n == 0 {
      SeenNothing(into, cells, L, order);
    } else {
      DrainedIs(into, cells, L, order, index, nodes, n - 1);
      SeenOnce(order, index, nodes, n - 1);
      DrainStep(into, cells, L, Seen(order, n - 1), order[n - 1].series);
    }
  }

  /** Draining every aggregate once, in whatever order, merges the whole shard. */
  lemma DrainedEverything<S, K>(m: AggMap<S, K>, order: seq<Aggregate<S>>, cells: map<S, Cell>, into: map<S, Cell>)
    requires Matches(m, cells, m.layout) && forall a :: a in order <==> a in m.nodes
    requires forall i, j :: 0 <= i < j < |order| ==> ApartAt(order, i, j)
    requires forall i :: 0 <= i < |order| ==> order[i].series in cells
    ensures DrainedUpTo(into, cells, m.layout, order, |order|) == MergeShard(into, cells, m.layout)
  {
    DrainedIs(into, cells, m.layout, order, m.index, m.nodes, |order|);
    SeenAll(order, m.index, m.nodes);
    assert m.Contents().Keys == m.index.Keys && Aggs(cells).Keys == cells.Keys;
    assert Restricted(cells, cells.Keys) == cells;
  }

  /** Draining one aggregate more. */
  lemma DrainStep<S>(into: map<S, Cell>, cells: map<S, Cell>, L: Layout, seen: set<S>, s: S)
    requires s in cells && s !in seen
    ensures var now := MergeShard(into, Restricted(cells, seen), L);
      MergeShard(into, Restricted(cells, seen + {s}), L) == DrainedOne(now, cells, s, L)
  {
  }

  /** An entry of a batch: a filled aggregate of the index. */
  ghost predicate Reports<S, K>(m: AggMap<S, K>, b: (S, Agg))
    reads m, m.nodes
  {
    && m.Valid() && b.0 in m.index && m.index[b.0] in m.nodes
    && b.1 == m.index[b.0].State() && b.1.count != 0
  }

  lemma ListsAll<S, K>(m: AggMap<S, K>, order: seq<Aggregate<S>>, batch: seq<(S, Agg)>, cells: map<S, Cell>)
    requires Matches(m, cells, m.layout) && forall a :: a in order <==> a in m.nodes
    requires forall i :: 0 <= i < |batch| ==> Reports(m, batch[i])
    requires forall i, j :: 0 <= i < j < |batch| ==> batch[i].0 != batch[j].0
    requires forall i :: 0 <= i < |order| && order[i].count != 0 ==> (order[i].series, order[i].State()) in batch
    ensures Lists(batch, BatchOf(cells))
  {
    forall i | 0 <= i < |batch|
      ensures batch[i].0 in BatchOf(cells) && batch[i].1 == BatchOf(cells)[batch[i].0].agg
    {
      assert Reports(m, batch[i]);
      AggOf(m, m.index[batch[i].0], cells);
    }
    forall s | s in BatchOf(cells)
      ensures exists i :: 0 <= i < |batch| && batch[i].0 == s
    {
      assert m.Contents().Keys == m.index.Keys && Aggs(cells).Keys == cells.Keys;
      AggOf(m, m.index[s], cells);
      var n :| 0 <= n < |order| && order[n] == m.index[s];
      assert (order[n].series, order[n].State()) in batch;
      var i :| 0 <= i < |batch| && batch[i] == (order[n].series, order[n].State());
    }
  }

  lemma RecordedIs<S, K>(cfg: Settings<S, K>, st: Rec<S, K>, s: S, kind: Kind, o: Obs, hint: nat)
    requires ValidSettings(cfg) && |st.shards| == cfg.shards
    ensures var r, i := Recorded(cfg, st, s, kind, o, hint), ShardOf(cfg, kind, hint);
      var cells := st.shards[i];
      var ok := s in cells || Admits(cfg, st, s);
      var have := if s in cells then cells[s] else NewCell(kind, cfg.layout);
      && r.shards[i] == (if ok then cells[s := ObserveCell(have, o, cfg.layout)] else cells)
      && r.distinct == (if ok && s !in cells then st.distinct + {cfg.key(s)} else st.distinct)
      && r.dropped == (if ok then st.dropped else st.dropped + 1)
      && r == st.(shards := st.shards[i := r.shards[i]], distinct := r.distinct, dropped := r.dropped)
  {
    var i := ShardOf(cfg, kind, hint);
    assert st.shards == st.shards[i := st.shards[i]];
  }
}
