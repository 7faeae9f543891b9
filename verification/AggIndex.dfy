/**
 Aggregates on the heap, indexed by metric name and label hash.

 `S` is a series, its metric name and label set; `K` is what the index is keyed by, the
 metric name and the hash of the labels. Hashes may collide, so every entry of the index
 heads a chain of aggregates linked through `next`, and every lookup confirms the series.
 `key` is an arbitrary function here, a constant one included; what the index amounts to
 is a plain map.
 */
module AggIndex {

  import opened Aggregates
  import Maps

  class Aggregate<S> {
    const series: S
    const kind: Kind
    var count: nat
    var sum: real
    var minVal: Extreme
    var maxVal: Extreme
    var nonZero: nat
    var gauge: real
    var hist: Hist
    /** The aggregate this one was linked in front of; set once, when it is made. */
    const next: Aggregate?<S>
    /** The whole chain from here on. */
    ghost const chain: seq<Aggregate<S>>

    function State(): (r: Agg)
      reads this
    {
      Agg(kind, count, sum, minVal, maxVal, nonZero, gauge, hist)
    }

    constructor (series: S, kind: Kind, L: Layout, next: Aggregate?<S>)
      ensures this.series == series && State() == New(kind, L) && this.next == next
      ensures chain == [this] + Tail(next)
    {
      this.series, this.kind := series, kind;
      count, sum, minVal, maxVal, nonZero, gauge := 0, 0.0, Infinite, Infinite, 0, 0.0;
      hist := if kind.Trend? then NewHist(L) else NoHist;
      this.next := next;
      chain := [this] + Tail(next);
    }

    method Observe(value: real, truthy: bool, L: Layout)
      modifies this
      ensures State() == Observed(old(State()), Obs(value, truthy), L)
    {
      count := count + 1;
      match kind {
        case Gauge =>
          gauge := value;
          return;
        case Rate =>
          if truthy {
            nonZero := nonZero + 1;
          }
          return;
        case Counter =>
        case Trend =>
      }
      sum := sum + value;
      if minVal.Infinite? || value < minVal.value {
        minVal := Finite(value);
      }
      if maxVal.Infinite? || value > maxVal.value {
        maxVal := Finite(value);
      }
      hist := RecordValue(hist, L, value);
    }

    method MergeFrom(other: Agg)
      modifies this
      ensures State() == Merged(old(State()), other)
    {
      if other.count == 0 {
        return;
      }
      count := count + other.count;
      sum := sum + other.sum;
      nonZero := nonZero + other.nonZero;
      minVal := LowerOf(minVal, other.minVal);
      maxVal := UpperOf(maxVal, other.maxVal);
      if kind == Gauge {
        gauge := gauge + other.gauge;
      }
      hist := AddHist(hist, other.hist);
    }

    method Reset()
      modifies this
      ensures State() == Cleared(old(State()))
    {
      count, sum, nonZero, gauge := 0, 0.0, 0, 0.0;
      minVal, maxVal := Infinite, Infinite;
      hist := ClearHist(hist);
    }
  }

  // ---------------------------------------------------------------------------
  // Chains
  // ---------------------------------------------------------------------------

  ghost function Tail<S>(a: Aggregate?<S>): (r: seq<Aggregate<S>>) {
    if a == null then [] else a.chain
  }

  function After<S>(c: seq<Aggregate<S>>, i: nat): (r: Aggregate?<S>)
    requires i < |c|
  {
    if i + 1 < |c| then c[i + 1] else null
  }

  // The facts about one place on a chain are predicates of their own, so that they come
  // into a proof only where it names them.

  ghost predicate LinkedAt<S>(c: seq<Aggregate<S>>, i: nat)
    requires i < |c|
  {
    c[i].next == After(c, i)
  }

  ghost predicate FiledAt<S, K>(index: map<S, Aggregate<S>>, key: S -> K, k: K, c: seq<Aggregate<S>>, i: nat)
    requires i < |c|
  {
    key(c[i].series) == k && c[i].series in index && index[c[i].series] == c[i]
  }

  ghost predicate ApartAt<S>(c: seq<Aggregate<S>>, i: nat, j: nat)
    requires i < |c| && j < |c|
  {
    c[i] != c[j]
  }

  /** A chain of aggregates filed under `k`, each linked to the next, none on it twice. */
  ghost predicate Chain<S, K>(index: map<S, Aggregate<S>>, key: S -> K, k: K, c: seq<Aggregate<S>>) {
    && (forall i :: 0 <= i < |c| ==> LinkedAt(c, i))
    && (forall i :: 0 <= i < |c| ==> FiledAt(index, key, k, c, i))
    && (forall i, j :: 0 <= i < j < |c| ==> ApartAt(c, i, j))
  }

  function Head<S, K>(entries: map<K, Aggregate<S>>, k: K): (r: Aggregate?<S>) {
    if k in entries then entries[k] else null
  }

  ghost predicate Headed<S, K>(index: map<S, Aggregate<S>>, key: S -> K, k: K, a: Aggregate<S>) {
    a.chain != [] && a.chain[0] == a && Chain(index, key, k, a.chain)
  }

  ghost predicate Found<S, K>(index: map<S, Aggregate<S>>, entries: map<K, Aggregate<S>>, key: S -> K, s: S)
    requires s in index
  {
    index[s].series == s && index[s] in Tail(Head(entries, key(s)))
  }

  /** The chains headed by the entries hold exactly the indexed aggregates, each on the chain of its own key. */
  ghost predicate Filed<S, K>(index: map<S, Aggregate<S>>, entries: map<K, Aggregate<S>>, key: S -> K) {
    && (forall k {:trigger Headed(index, key, k, entries[k])} :: k in entries ==> Headed(index, key, k, entries[k]))
    && (forall s {:trigger Found(index, entries, key, s)} :: s in index ==> Found(index, entries, key, s))
  }

  /** A new aggregate in front of its chain. */
  lemma FileNew<S, K>(index: map<S, Aggregate<S>>, entries: map<K, Aggregate<S>>, key: S -> K, a: Aggregate<S>)
    requires Filed(index, entries, key) && a.series !in index
    requires a.next == Head(entries, key(a.series)) && a.chain == [a] + Tail(a.next)
    ensures Filed(index[a.series := a], entries[key(a.series) := a], key)
  {
    var k := key(a.series);
    var index', entries' := index[a.series := a], entries[k := a];
    forall j | j in entries'
      ensures Headed(index', key, j, entries'[j])
    {
      if j == k {
        if k in entries {
          assert Headed(index, key, k, entries[k]);
        }
        FrontChain(index, key, k, a);
      } else {
        assert Headed(index, key, j, entries[j]);
        SameChain(index, key, j, entries[j].chain, a);
      }
    }
    forall s | s in index'
      ensures Found(index', entries', key, s)
    {
      if s != a.series {
        assert Found(index, entries, key, s);
      }
    }
  }

  /** A chain stays one when an aggregate for another series is indexed. */
  lemma SameChain<S, K>(index: map<S, Aggregate<S>>, key: S -> K, k: K, c: seq<Aggregate<S>>, a: Aggregate<S>)
    requires Chain(index, key, k, c) && a.series !in index
    ensures Chain(index[a.series := a], key, k, c)
  {
    var index' := index[a.series := a];
    forall i | 0 <= i < |c|
      ensures FiledAt(index', key, k, c, i)
    {
      assert FiledAt(index, key, k, c, i);
    }
  }

  lemma FrontChain<S, K>(index: map<S, Aggregate<S>>, key: S -> K, k: K, a: Aggregate<S>)
    requires a.series !in index && key(a.series) == k
    requires a.next != null ==> Headed(index, key, k, a.next)
    requires a.chain == [a] + Tail(a.next)
    ensures Chain(index[a.series := a], key, k, a.chain)
  {
    var t, c := Tail(a.next), a.chain;
    var index' := index[a.series := a];
    forall i | 0 <= i < |c|
      ensures LinkedAt(c, i)
    {
      if i > 0 {
        assert LinkedAt(t, i - 1);
        assert c[i] == t[i - 1] && After(c, i) == After(t, i - 1);
      }
    }
    forall i | 0 <= i < |c|
      ensures FiledAt(index', key, k, c, i)
    {
      if i > 0 {
        assert FiledAt(index, key, k, t, i - 1);
        assert c[i] == t[i - 1];
      }
    }
    forall i, j | 0 <= i < j < |c|
      ensures ApartAt(c, i, j)
    {
      assert FiledAt(index, key, k, t, j - 1);
      if i > 0 {
        assert ApartAt(t, i - 1, j - 1);
      }
    }
  }

  /** Chains of different keys share nothing. */
  lemma ChainsDisjoint<S, K>(index: map<S, Aggregate<S>>, entries: map<K, Aggregate<S>>, key: S -> K,
                       j: K, k: K, a: Aggregate<S>)
    requires Filed(index, entries, key) && j in entries && k in entries
    requires a in entries[j].chain && a in entries[k].chain
    ensures j == k
  {
    assert Headed(index, key, j, entries[j]) && Headed(index, key, k, entries[k]);
    var i :| 0 <= i < |entries[j].chain| && entries[j].chain[i] == a;
    var i' :| 0 <= i' < |entries[k].chain| && entries[k].chain[i'] == a;
    assert FiledAt(index, key, j, entries[j].chain, i) && FiledAt(index, key, k, entries[k].chain, i');
  }

  /** The indexed aggregates as a set. */
  ghost predicate NodesOf<S>(index: map<S, Aggregate<S>>, nodes: set<Aggregate<S>>) {
    && (forall s :: s in index ==> index[s] in nodes && index[s].series == s)
    && (forall a :: a in nodes ==> a.series in index && index[a.series] == a)
  }

  class AggMap<S(==), K(==)> {
    /** The metric name and label hash of a series. */
    const key: S -> K
    const layout: Layout
    var entries: map<K, Aggregate<S>>
    var size: nat

    /** Every aggregate held, by its series. */
    ghost var index: map<S, Aggregate<S>>
    /** The same aggregates, as the objects this map owns. */
    ghost var nodes: set<Aggregate<S>>

    ghost predicate Valid()
      reads this
    {
      && Filed(index, entries, key)
      && NodesOf(index, nodes)
      && size == |index|
    }

    /** The map the index amounts to. */
    ghost function Contents(): (r: map<S, Agg>)
      requires Valid()
      reads this, nodes
    {
      map s | s in index :: index[s].State()
    }

    constructor (key: S -> K, layout: Layout)
      ensures Valid() && index == map[] && nodes == {} && this.key == key && this.layout == layout
    {
      this.key, this.layout := key, layout;
      entries, size := map[], 0;
      index, nodes := map[], {};
    }

    method Find(s: S) returns (r: Aggregate?<S>)
      requires Valid()
      ensures r == null <==> s !in index
      ensures r != null ==> r == index[s]
    {
      var k := key(s);
      if k !in entries {
        assert s in index ==> Found(index, entries, key, s);
        return null;
      }
      assert Headed(index, key, k, entries[k]);
      r := FindFrom(entries[k], s, k);
      assert s in index ==> Found(index, entries, key, s);
      if r != null {
        ghost var i :| 0 <= i < |entries[k].chain| && entries[k].chain[i] == r;
        assert FiledAt(index, key, k, entries[k].chain, i);
      }
    }

    /** Walks a chain from its head, confirming the series of each aggregate on it. */
    method FindFrom(head: Aggregate<S>, s: S, ghost k: K) returns (r: Aggregate?<S>)
      requires Headed(index, key, k, head)
      ensures r == null ==> forall i :: 0 <= i < |head.chain| ==> head.chain[i].series != s
      ensures r != null ==> r in head.chain && r.series == s
    {
      ghost var c := head.chain;
      r := head;
      ghost var i := 0;
      while r != null
        invariant 0 <= i <= |c| && r == if i < |c| then c[i] else null
        invariant forall j :: 0 <= j < i ==> c[j].series != s
        decreases |c| - i
      {
        if r.series == s {
          return r;
        }
        assert LinkedAt(c, i);
        r := r.next;
        i := i + 1;
      }
    }

    /** The aggregate for a series, made and linked in front of its chain if there is none. */
    method GetOrCreate(s: S, kind: Kind) returns (r: Aggregate<S>)
      requires Valid()
      modifies this
      ensures Valid()
      ensures s in index && r == index[s]
      ensures s in old(index) ==> index == old(index) && nodes == old(nodes)
      ensures s !in old(index) ==>
        && fresh(r) && r.State() == New(kind, layout)
        && index == old(index)[s := r] && nodes == old(nodes) + {r}
      ensures Contents() == if s in old(index) then old(Contents()) else old(Contents())[s := New(kind, layout)]
    {
      var found := Find(s);
      if found != null {
        return found;
      }
      var head: Aggregate?<S> := Head(entries, key(s));
      r := new Aggregate(s, kind, layout, head);
      Link(r);
    }

    /** Observes into one of the indexed aggregates. */
    method ObserveAt(a: Aggregate<S>, o: Obs)
      requires Valid() && a in nodes
      modifies a
      ensures Valid() && a.series in index
      ensures Contents() == old(Contents())[a.series := Observed(old(Contents())[a.series], o, layout)]
    {
      a.Observe(o.value, o.truthy, layout);
    }

    /** Merges into one of the indexed aggregates. */
    method MergeAt(a: Aggregate<S>, other: Agg)
      requires Valid() && a in nodes
      modifies a
      ensures Valid() && a.series in index
      ensures Contents() == old(Contents())[a.series := Merged(old(Contents())[a.series], other)]
    {
      a.MergeFrom(other);
    }

    /** Counts one more reading of a gauge, which stands in place of the one before. */
    method ReadAt(a: Aggregate<S>, gauge: real)
      requires Valid() && a in nodes
      modifies a
      ensures Valid() && a.series in index && Contents() ==
        old(Contents())[a.series :=
          old(Contents())[a.series].(count := old(Contents())[a.series].count + 1, gauge := gauge)]
    {
      a.count := a.count + 1;
      a.gauge := gauge;
    }

    /** Files an aggregate that already points at the chain it is about to head. */
    method Link(a: Aggregate<S>)
      requires Valid() && a.series !in index
      requires a.next == Head(entries, key(a.series)) && a.chain == [a] + Tail(a.next)
      modifies this
      ensures Valid()
      ensures index == old(index)[a.series := a] && nodes == old(nodes) + {a}
    {
      FileNew(index, entries, key, a);
      ghost var index' := index[a.series := a];
      Maps.PutKeys(index, a.series, a);
      assert NodesOf(index', nodes + {a});
      entries, size, index, nodes := entries[key(a.series) := a], size + 1, index', nodes + {a};
    }

    /** Follows the links of one chain to its end. */
    method Walk(head: Aggregate<S>, ghost k: K) returns (c: seq<Aggregate<S>>)
      requires Headed(index, key, k, head)
      ensures c == head.chain
    {
      c := [];
      var a: Aggregate?<S> := head;
      while a != null
        invariant |c| <= |head.chain| && c == head.chain[..|c|]
        invariant a == if |c| < |head.chain| then head.chain[|c|] else null
        decreases |head.chain| - |c|
      {
        assert LinkedAt(head.chain, |c|);
        c := c + [a];
        a := a.next;
      }
    }

    /** Every aggregate, in the order visited: chain by chain, the entries in whatever order they come. */
    method Each() returns (order: seq<Aggregate<S>>)
      requires Valid()
      ensures forall a :: a in order <==> a in nodes
      ensures forall i, j :: 0 <= i < j < |order| ==> ApartAt(order, i, j)
    {
      order := [];
      var rest := entries.Keys;
      forall s | s in index
        ensures key(s) in rest
      {
        assert Found(index, entries, key, s);
      }
      while rest != {}
        invariant rest <= entries.Keys
        invariant Visited(index, entries, key, order, rest)
        decreases rest
      {
        var k :| k in rest;
        assert Headed(index, key, k, entries[k]);
        var c := Walk(entries[k], k);
        VisitChain(index, entries, key, order, rest, k);
        order := order + c;
        rest := rest - {k};
      }
      VisitedAll(index, entries, key, order, nodes);
    }

    /** Zeroes every aggregate without releasing any. */
    method ResetAll()
      requires Valid()
      modifies nodes
      ensures Valid()
      ensures forall s :: s in index ==> Contents()[s] == Cleared(old(Contents())[s])
    {
      ghost var before := Contents();
      var order := Each();
      for n := 0 to |order|
        invariant forall s :: s in index ==>
          index[s].State() == if index[s] in order[..n] then Cleared(before[s]) else before[s]
      {
        ghost var t := order[n].series;
        assert order[n] in nodes;
        NotBefore(order, n);
        order[n].Reset();
        assert order[..n + 1] == order[..n] + [order[n]];
      }
      assert order[..|order|] == order;
    }
  }

  lemma NotBefore<S>(order: seq<Aggregate<S>>, n: nat)
    requires n < |order| && forall i, j :: 0 <= i < j < |order| ==> ApartAt(order, i, j)
    ensures order[n] !in order[..n]
  {
    forall i: nat | i < n
      ensures order[i] != order[n]
    {
      assert ApartAt(order, i, n);
    }
  }

  /** The series of the first `n` aggregates visited. */
  ghost function Seen<S>(order: seq<Aggregate<S>>, n: nat): (r: set<S>)
    requires n <= |order|
  {
    set i | 0 <= i < n :: order[i].series
  }

  /** Visiting each aggregate once is visiting each series once. */
  lemma SeenOnce<S>(order: seq<Aggregate<S>>, index: map<S, Aggregate<S>>, nodes: set<Aggregate<S>>, n: nat)
    requires NodesOf(index, nodes) && n < |order|
    requires forall a :: a in order <==> a in nodes
    requires forall i, j :: 0 <= i < j < |order| ==> ApartAt(order, i, j)
    ensures order[n].series in index && order[n].series !in Seen(order, n)
    ensures Seen(order, n + 1) == Seen(order, n) + {order[n].series}
  {
    assert order[n] in nodes;
    forall i: nat | i < n
      ensures order[i].series != order[n].series
    {
      assert order[i] in nodes && ApartAt(order, i, n);
    }
  }

  lemma SeenAll<S>(order: seq<Aggregate<S>>, index: map<S, Aggregate<S>>, nodes: set<Aggregate<S>>)
    requires NodesOf(index, nodes) && forall a :: a in order <==> a in nodes
    ensures Seen(order, |order|) == index.Keys
  {
    forall s | s in index
      ensures s in Seen(order, |order|)
    {
      assert index[s] in order;
      var i :| 0 <= i < |order| && order[i] == index[s];
      assert order[i].series == s;
    }
    forall s | s in Seen(order, |order|)
      ensures s in index
    {
      var i :| 0 <= i < |order| && order[i].series == s;
      assert order[i] in nodes;
    }
  }

  // ---------------------------------------------------------------------------
  // Visiting
  // ---------------------------------------------------------------------------

  /** What has been visited, each once, is what is filed under the keys no longer waiting. */
  ghost predicate Visited<S, K>(index: map<S, Aggregate<S>>, entries: map<K, Aggregate<S>>, key: S -> K,
                                order: seq<Aggregate<S>>, rest: set<K>) {
    && (forall i :: 0 <= i < |order| ==> VisitedAt(index, key, order, rest, i))
    && (forall i, j :: 0 <= i < j < |order| ==> ApartAt(order, i, j))
    && (forall s :: s in index && key(s) !in rest ==> index[s] in order)
  }

  ghost predicate VisitedAt<S, K>(index: map<S, Aggregate<S>>, key: S -> K, order: seq<Aggregate<S>>, rest: set<K>,
                                  i: nat)
    requires i < |order|
  {
    var s := order[i].series;
    s in index && index[s] == order[i] && key(s) !in rest
  }

  lemma VisitChain<S, K>(index: map<S, Aggregate<S>>, entries: map<K, Aggregate<S>>, key: S -> K,
                         order: seq<Aggregate<S>>, rest: set<K>, k: K)
    requires Filed(index, entries, key) && k in rest && k in entries
    requires Visited(index, entries, key, order, rest)
    ensures Visited(index, entries, key, order + entries[k].chain, rest - {k})
  {
    var c, next := entries[k].chain, order + entries[k].chain;
    assert Headed(index, key, k, entries[k]);
    forall i | 0 <= i < |next|
      ensures VisitedAt(index, key, next, rest - {k}, i)
    {
      if i < |order| {
        assert VisitedAt(index, key, order, rest, i);
      } else {
        assert FiledAt(index, key, k, c, i - |order|);
      }
    }
    forall i, j | 0 <= i < j < |next|
      ensures ApartAt(next, i, j)
    {
      if j < |order| {
        assert ApartAt(order, i, j);
      } else if i >= |order| {
        assert ApartAt(c, i - |order|, j - |order|);
      } else {
        assert VisitedAt(index, key, order, rest, i) && FiledAt(index, key, k, c, j - |order|);
      }
    }
    forall s | s in index && key(s) !in rest - {k}
      ensures index[s] in next
    {
      if key(s) == k {
        assert Found(index, entries, key, s);
      }
    }
  }

  lemma VisitedAll<S, K>(index: map<S, Aggregate<S>>, entries: map<K, Aggregate<S>>, key: S -> K,
                         order: seq<Aggregate<S>>, nodes: set<Aggregate<S>>)
    requires Visited(index, entries, key, order, {}) && NodesOf(index, nodes)
    ensures forall a :: a in order <==> a in nodes
  {
    forall a | a in order
      ensures a in nodes
    {
      var i :| 0 <= i < |order| && order[i] == a;
      assert VisitedAt(index, key, order, {}, i);
    }
    forall a | a in nodes
      ensures a in order
    {
      assert a.series in index && index[a.series] == a;
    }
  }
}
