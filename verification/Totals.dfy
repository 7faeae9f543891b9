/**
 Two views of the same series: the figure a threshold is judged by, and the table of totals.

 Both fold the cumulative aggregates of a metric in whatever order the index visits them,
 and the two visits need not agree on the order.
 */
module Totals {

  import opened Aggregates
  import opened AggIndex
  import opened Extremes
  import opened Sequences

  /** `counts` is the merged histogram percentiles are read from, if it holds anything. */
  datatype Summary = Summary(kind: Kind, count: nat, sum: real, min: real, max: real, avg: real, rate: real,
                             counts: Hist)

  function Divided(s: Summary): (r: Summary) {
    if s.count > 0 then s.(avg := s.sum / s.count as real, rate := s.rate / s.count as real) else s
  }

  function NonEmpty(h: Hist): (r: Hist) {
    if h.Hist? && Total(h.counts) > 0 then h else NoHist
  }

  // ---------------------------------------------------------------------------
  // Folding the series of a metric
  // ---------------------------------------------------------------------------

  function AggregateStep(t: Summary, a: Agg): (r: Summary) {
    Summary(a.kind, t.count + a.count, t.sum + a.sum,
            if t.min == 0.0 || (a.count > 0 && MinOf(a) < t.min) then MinOf(a) else t.min,
            Higher(t.max, MaxOf(a)), t.avg, t.rate + a.nonZero as real, AddHist(t.counts, a.hist))
  }

  function AggregateFold(xs: seq<Agg>, lay: Layout): (r: Summary) {
    if xs == [] then Summary(Counter, 0, 0.0, 0.0, 0.0, 0.0, 0.0, NewHist(lay))
    else AggregateStep(AggregateFold(xs[..|xs| - 1], lay), xs[|xs| - 1])
  }

  function AggregateOf(xs: seq<Agg>, lay: Layout): (r: Summary) {
    var t := Divided(AggregateFold(xs, lay));
    t.(counts := NonEmpty(t.counts))
  }

  function TotalsStart(a: Agg): (r: Summary) {
    Summary(a.kind, 0, 0.0, MinOf(a), 0.0, 0.0, 0.0, NoHist)
  }

  /** The histogram of a metric is made when the first non-empty one is seen. */
  function MergedInto(t: Hist, h: Hist, lay: Layout): (r: Hist) {
    if NonEmpty(h).NoHist? then t else AddHist(if t.Hist? then t else NewHist(lay), h)
  }

  function TotalsStep(t: Summary, a: Agg, first: bool, lay: Layout): (r: Summary) {
    t.(count := t.count + a.count, sum := t.sum + (if a.kind.Gauge? then a.gauge else a.sum),
       rate := t.rate + a.nonZero as real,
       min := if a.count > 0 && (first || MinOf(a) < t.min) then MinOf(a) else t.min,
       max := Higher(t.max, MaxOf(a)), counts := MergedInto(t.counts, a.hist, lay))
  }

  function TotalsFold(xs: seq<Agg>, lay: Layout): (r: Summary)
    requires xs != []
  {
    var last := xs[|xs| - 1];
    if |xs| == 1 then TotalsStep(TotalsStart(last), last, true, lay)
    else TotalsStep(TotalsFold(xs[..|xs| - 1], lay), last, false, lay)
  }

  function TotalsOf(xs: seq<Agg>, lay: Layout): (r: Summary)
    requires xs != []
  {
    var t := Divided(TotalsFold(xs, lay));
    t.(counts := NonEmpty(t.counts))
  }

  // ---------------------------------------------------------------------------
  // Sums do not depend on the order
  // ---------------------------------------------------------------------------

  function SumOf(f: Figure, xs: seq<Agg>): (r: real) {
    if xs == [] then 0.0 else SumOf(f, xs[..|xs| - 1]) + Amount(f, xs[|xs| - 1])
  }

  lemma {:induction false} SumWithout(f: Figure, xs: seq<Agg>, i: nat)
    requires i < |xs|
    ensures SumOf(f, xs) == SumOf(f, xs[..i] + xs[i + 1..]) + Amount(f, xs[i])
  {
    var n := |xs| - 1;
    if i == n {
      assert xs[..i] + xs[i + 1..] == xs[..n];
    } else {
      SumWithout(f, xs[..n], i);
      var others := xs[..i] + xs[i + 1..];
      assert others[..|others| - 1] == xs[..n][..i] + xs[..n][i + 1..];
      assert others[|others| - 1] == xs[n];
    }
  }

  lemma {:induction false} SumAnyOrder(f: Figure, xs: seq<Agg>, ys: seq<Agg>)
    requires multiset(xs) == multiset(ys)
    ensures SumOf(f, xs) == SumOf(f, ys)
    decreases |xs|
  {
    if xs == [] {
      assert |multiset(ys)| == 0;
    } else {
      var x := xs[|xs| - 1];
      assert x in multiset(ys);
      var i :| 0 <= i < |ys| && ys[i] == x;
      TakeOut(xs, ys, i);
      SumAnyOrder(f, xs[..|xs| - 1], ys[..i] + ys[i + 1..]);
      SumWithout(f, ys, i);
    }
  }

  // ---------------------------------------------------------------------------
  // What the two folds are
  // ---------------------------------------------------------------------------

  function MaximaOf(xs: seq<Agg>): (r: seq<real>) {
    if xs == [] then [] else MaximaOf(xs[..|xs| - 1]) + [MaxOf(xs[|xs| - 1])]
  }

  /** The minima of the series that hold anything. */
  function MinimaOf(xs: seq<Agg>): (r: seq<real>) {
    if xs == [] then []
    else MinimaOf(xs[..|xs| - 1]) + if xs[|xs| - 1].count > 0 then [MinOf(xs[|xs| - 1])] else []
  }

  ghost predicate Plain(a: Agg, lay: Layout) {
    !a.kind.Gauge? && (a.hist.Hist? ==> |a.hist.counts| == lay.buckets)
  }

  ghost predicate AllPlain(xs: seq<Agg>, lay: Layout) {
    forall i :: 0 <= i < |xs| ==> Plain(xs[i], lay)
  }

  /** Count, sum, truthy count, one bin and maximum of a fold. */
  ghost predicate Adds(t: Summary, xs: seq<Agg>, i: nat, lay: Layout) {
    && t.count as real == SumOf(Count, xs) && t.sum == SumOf(Sum, xs) && t.rate == SumOf(Truthy, xs)
    && t.max == Highest(MaximaOf(xs)) && BinOf(t.counts, i) as real == SumOf(Bin(i), xs)
    && (t.counts.Hist? ==> |t.counts.counts| == lay.buckets)
  }

  lemma {:induction false} HighestStep(xs: seq<real>, x: real)
    ensures Highest(xs + [x]) == Higher(Highest(xs), x) && Lowest(xs + [x]) == Lower(Lowest(xs), x)
  {
    assert (xs + [x])[..|xs|] == xs;
  }

  lemma {:induction false} AggregateAdds(xs: seq<Agg>, i: nat, lay: Layout)
    requires AllPlain(xs, lay)
    ensures Adds(AggregateFold(xs, lay), xs, i, lay) && AggregateFold(xs, lay).counts.Hist?
    ensures AggregateFold(xs, lay).min == Lowest(MinimaOf(xs))
  {
    if xs != [] {
      var rest, x := xs[..|xs| - 1], xs[|xs| - 1];
      AggregateAdds(rest, i, lay);
      HighestStep(MaximaOf(rest), MaxOf(x));
      HighestStep(MinimaOf(rest), MinOf(x));
      assert MinimaOf(rest) + [] == MinimaOf(rest);
    }
  }

  lemma {:induction false} NothingInBins(counts: seq<nat>, i: nat)
    requires Total(counts) == 0 && i < |counts|
    ensures counts[i] == 0
  {
    if i > 0 {
      NothingInBins(counts[1..], i - 1);
    }
  }

  lemma MergedBin(t: Hist, h: Hist, lay: Layout, i: nat)
    requires (t.Hist? ==> |t.counts| == lay.buckets) && (h.Hist? ==> |h.counts| == lay.buckets)
    ensures var r := MergedInto(t, h, lay);
      BinOf(r, i) == BinOf(t, i) + BinOf(h, i) && (r.Hist? ==> |r.counts| == lay.buckets)
  {
    if h.Hist? && Total(h.counts) == 0 && i < |h.counts| {
      NothingInBins(h.counts, i);
    }
  }

  lemma {:induction false} TotalsAddOne(t: Summary, rest: seq<Agg>, x: Agg, first: bool, i: nat, lay: Layout)
    requires Adds(t, rest, i, lay) && Plain(x, lay)
    ensures Adds(TotalsStep(t, x, first, lay), rest + [x], i, lay)
  {
    assert (rest + [x])[..|rest|] == rest;
    HighestStep(MaximaOf(rest), MaxOf(x));
    MergedBin(t.counts, x.hist, lay, i);
  }

  lemma {:induction false} TotalsAdds(xs: seq<Agg>, i: nat, lay: Layout)
    requires AllPlain(xs, lay) && xs != []
    ensures Adds(TotalsFold(xs, lay), xs, i, lay)
  {
    var rest, x := xs[..|xs| - 1], xs[|xs| - 1];
    assert xs == rest + [x];
    if |xs| == 1 {
      TotalsAddOne(TotalsStart(x), [], x, true, i, lay);
    } else {
      TotalsAdds(rest, i, lay);
      TotalsAddOne(TotalsFold(rest, lay), rest, x, false, i, lay);
    }
  }

  /** The minimum the totals show: the true one, but a first series that is empty contributes a zero. */
  ghost predicate TotalsMin(m: real, xs: seq<Agg>)
    requires xs != []
  {
    if xs[0].count > 0 then MinimaOf(xs) != [] && IsMin(m, MinimaOf(xs)) else IsMin(m, [0.0] + MinimaOf(xs))
  }

  lemma {:induction false} MinStep(m: real, xs: seq<real>, x: real)
    requires IsMin(m, xs)
    ensures IsMin(if x < m then x else m, xs + [x])
  {
  }

  lemma {:induction false} TotalsMinIs(xs: seq<Agg>, lay: Layout)
    requires xs != []
    ensures TotalsMin(TotalsFold(xs, lay).min, xs)
  {
    var rest, x := xs[..|xs| - 1], xs[|xs| - 1];
    if |xs| == 1 {
      assert MinimaOf(rest) == [];
      assert x.count > 0 ==> MinimaOf(xs) == [MinOf(x)];
      assert x.count == 0 ==> MinimaOf(xs) == [] && MinOf(x) == 0.0;
    } else {
      TotalsMinIs(rest, lay);
      var m := TotalsFold(rest, lay).min;
      assert rest[0] == xs[0];
      if x.count > 0 {
        if xs[0].count > 0 {
          MinStep(m, MinimaOf(rest), MinOf(x));
        } else {
          MinStep(m, [0.0] + MinimaOf(rest), MinOf(x));
          assert [0.0] + MinimaOf(rest) + [MinOf(x)] == [0.0] + MinimaOf(xs);
        }
      } else {
        assert MinimaOf(xs) == MinimaOf(rest);
      }
    }
  }

  // ---------------------------------------------------------------------------
  // Agreement
  // ---------------------------------------------------------------------------

  lemma {:induction false} InMaxima(xs: seq<Agg>, v: real)
    ensures v in MaximaOf(xs) <==> exists a :: a in xs && MaxOf(a) == v
  {
    if xs != [] {
      InMaxima(xs[..|xs| - 1], v);
      assert xs == xs[..|xs| - 1] + [xs[|xs| - 1]];
    }
  }

  lemma {:induction false} InMinima(xs: seq<Agg>, v: real)
    ensures v in MinimaOf(xs) <==> exists a :: a in xs && a.count > 0 && MinOf(a) == v
  {
    if xs != [] {
      InMinima(xs[..|xs| - 1], v);
      assert xs == xs[..|xs| - 1] + [xs[|xs| - 1]];
    }
  }

  lemma SameMembers(xs: seq<Agg>, ys: seq<Agg>, a: Agg)
    requires multiset(xs) == multiset(ys)
    ensures a in xs <==> a in ys
  {
    assert a in xs <==> a in multiset(xs);
    assert a in ys <==> a in multiset(ys);
  }

  lemma SameMaximum(xs: seq<Agg>, ys: seq<Agg>)
    requires multiset(xs) == multiset(ys)
    ensures Highest(MaximaOf(xs)) == Highest(MaximaOf(ys))
  {
    HighestIs(MaximaOf(xs));
    HighestIs(MaximaOf(ys));
    var h, k := Highest(MaximaOf(xs)), Highest(MaximaOf(ys));
    if h > 0.0 {
      MaximumAtMost(xs, ys, h);
    }
    if k > 0.0 {
      MaximumAtMost(ys, xs, k);
    }
  }

  lemma MaximumAtMost(xs: seq<Agg>, ys: seq<Agg>, h: real)
    requires multiset(xs) == multiset(ys) && h in MaximaOf(xs)
    ensures h in MaximaOf(ys)
  {
    InMaxima(xs, h);
    InMaxima(ys, h);
    var a :| a in xs && MaxOf(a) == h;
    SameMembers(xs, ys, a);
  }

  lemma SameMinima(xs: seq<Agg>, ys: seq<Agg>, v: real)
    requires multiset(xs) == multiset(ys)
    ensures v in MinimaOf(xs) <==> v in MinimaOf(ys)
  {
    InMinima(xs, v);
    InMinima(ys, v);
    if v in MinimaOf(xs) {
      var a :| a in xs && a.count > 0 && MinOf(a) == v;
      SameMembers(xs, ys, a);
    }
    if v in MinimaOf(ys) {
      var a :| a in ys && a.count > 0 && MinOf(a) == v;
      SameMembers(xs, ys, a);
    }
  }

  lemma FoldsAgree(xs: seq<Agg>, ys: seq<Agg>, i: nat, lay: Layout)
    requires AllPlain(xs, lay) && AllPlain(ys, lay) && ys != [] && multiset(xs) == multiset(ys)
    ensures var a, t := AggregateFold(xs, lay), TotalsFold(ys, lay);
      && a.count == t.count && a.sum == t.sum && a.rate == t.rate && a.max == t.max
      && BinOf(a.counts, i) == BinOf(t.counts, i)
  {
    AggregateAdds(xs, i, lay);
    TotalsAdds(ys, i, lay);
    SumAnyOrder(Count, xs, ys);
    SumAnyOrder(Sum, xs, ys);
    SumAnyOrder(Truthy, xs, ys);
    SumAnyOrder(Bin(i), xs, ys);
    SameMaximum(xs, ys);
  }

  lemma {:induction false} TotalPositive(counts: seq<nat>)
    ensures Total(counts) > 0 <==> exists i :: 0 <= i < |counts| && counts[i] > 0
  {
    if counts != [] {
      TotalPositive(counts[1..]);
      if Total(counts[1..]) > 0 {
        var i :| 0 <= i < |counts[1..]| && counts[1..][i] > 0;
        assert counts[i + 1] > 0;
      }
      if exists i :: 0 <= i < |counts| && counts[i] > 0 {
        var i :| 0 <= i < |counts| && counts[i] > 0;
        assert i > 0 ==> counts[1..][i - 1] > 0;
      }
    }
  }

  lemma SameBinsSameCounts(g: Hist, h: Hist, buckets: nat)
    requires g.Hist? && |g.counts| == buckets && (h.Hist? ==> |h.counts| == buckets)
    requires forall i: nat :: BinOf(g, i) == BinOf(h, i)
    ensures NonEmpty(g) == NonEmpty(h)
  {
    TotalPositive(g.counts);
    if h.Hist? {
      forall i | 0 <= i < buckets
        ensures g.counts[i] == h.counts[i]
      {
        assert BinOf(g, i) == BinOf(h, i);
      }
      assert g.counts == h.counts;
    } else {
      forall i | 0 <= i < buckets
        ensures g.counts[i] == 0
      {
        assert BinOf(g, i) == BinOf(h, i);
      }
    }
  }

  /**
   For a metric that is no gauge, and whatever the two visiting orders, thresholds and totals see the
   same count, sum, average, rate, maximum and merged histogram.
   */
  lemma ViewsAgree(xs: seq<Agg>, ys: seq<Agg>, lay: Layout)
    requires AllPlain(xs, lay) && AllPlain(ys, lay) && ys != [] && multiset(xs) == multiset(ys)
    ensures var a, t := AggregateOf(xs, lay), TotalsOf(ys, lay);
      && a.count == t.count && a.sum == t.sum && a.avg == t.avg && a.rate == t.rate && a.max == t.max
      && a.counts == t.counts
  {
    FoldsAgree(xs, ys, 0, lay);
    AggregateAdds(xs, 0, lay);
    TotalsAdds(ys, 0, lay);
    TotalsUnaveraged(ys, lay);
    AggregateUnaveraged(xs, lay);
    var g, h := AggregateFold(xs, lay).counts, TotalsFold(ys, lay).counts;
    forall i: nat
      ensures BinOf(g, i) == BinOf(h, i)
    {
      FoldsAgree(xs, ys, i, lay);
    }
    SameBinsSameCounts(g, h, lay.buckets);
  }

  lemma {:induction false} TotalsUnaveraged(xs: seq<Agg>, lay: Layout)
    requires xs != []
    ensures TotalsFold(xs, lay).avg == 0.0
  {
    if |xs| > 1 {
      TotalsUnaveraged(xs[..|xs| - 1], lay);
    }
  }

  lemma {:induction false} AggregateUnaveraged(xs: seq<Agg>, lay: Layout)
    ensures AggregateFold(xs, lay).avg == 0.0
  {
    if xs != [] {
      AggregateUnaveraged(xs[..|xs| - 1], lay);
    }
  }

  // ---------------------------------------------------------------------------
  // What each view shows
  // ---------------------------------------------------------------------------

  /** What a series adds to the totals' sum: a gauge its latest reading. */
  function SumIn(a: Agg): (r: real) {
    if a.kind.Gauge? then a.gauge else a.sum
  }

  function SumsIn(xs: seq<Agg>): (r: real) {
    if xs == [] then 0.0 else SumsIn(xs[..|xs| - 1]) + SumIn(xs[|xs| - 1])
  }

  /** Average and rate are per observation: multiplied by the count they are the sum and the truthy count. */
  ghost predicate PerObservation(r: Summary, sum: real, truthy: real) {
    if r.count > 0 then r.avg * r.count as real == sum && r.rate * r.count as real == truthy
    else r.avg == 0.0 && r.rate == truthy
  }

  lemma TimesBack(x: real, n: nat)
    requires n > 0
    ensures x / n as real * n as real == x
  {
  }

  lemma DividedIs(s: Summary)
    requires s.avg == 0.0
    ensures PerObservation(Divided(s), s.sum, s.rate)
    ensures Divided(s) == s.(avg := Divided(s).avg, rate := Divided(s).rate)
  {
    if s.count > 0 {
      TimesBack(s.sum, s.count);
      TimesBack(s.rate, s.count);
    }
  }

  ghost predicate SameKind(xs: seq<Agg>, kind: Kind) {
    forall i :: 0 <= i < |xs| ==> xs[i].kind == kind
  }

  /** No aggregate has more truthy observations than observations. */
  ghost predicate Sound(xs: seq<Agg>) {
    forall i :: 0 <= i < |xs| ==> xs[i].nonZero <= xs[i].count
  }

  lemma {:induction false} TruthyAtMost(xs: seq<Agg>)
    requires Sound(xs)
    ensures 0.0 <= SumOf(Truthy, xs) <= SumOf(Count, xs)
  {
    if xs != [] {
      TruthyAtMost(xs[..|xs| - 1]);
    }
  }

  lemma {:induction false} AggregateCounts(xs: seq<Agg>, lay: Layout)
    ensures var t := AggregateFold(xs, lay);
      t.count as real == SumOf(Count, xs) && t.sum == SumOf(Sum, xs) && t.rate == SumOf(Truthy, xs)
    ensures xs != [] ==> AggregateFold(xs, lay).kind == xs[|xs| - 1].kind
  {
    if xs != [] {
      AggregateCounts(xs[..|xs| - 1], lay);
    }
  }

  lemma {:induction false} TotalsCounts(xs: seq<Agg>, lay: Layout)
    requires xs != []
    ensures var t := TotalsFold(xs, lay);
      t.count as real == SumOf(Count, xs) && t.sum == SumsIn(xs) && t.rate == SumOf(Truthy, xs)
    ensures TotalsFold(xs, lay).kind == xs[0].kind
  {
    if |xs| > 1 {
      TotalsCounts(xs[..|xs| - 1], lay);
    }
  }

  /** The merged bins, if any hold anything. */
  ghost predicate ShowsBins(h: Hist, xs: seq<Agg>, lay: Layout) {
    && (h.Hist? ==> |h.counts| == lay.buckets)
    && forall i: nat :: i < lay.buckets ==> BinOf(h, i) as real == SumOf(Bin(i), xs)
  }

  lemma NonEmptyBins(h: Hist, i: nat)
    ensures BinOf(NonEmpty(h), i) == BinOf(h, i)
  {
    if h.Hist? && Total(h.counts) == 0 && i < |h.counts| {
      NothingInBins(h.counts, i);
    }
  }

  /** What a summary shows of these series, whose sum is this. */
  ghost predicate Figures(r: Summary, xs: seq<Agg>, sum: real) {
    && r.count as real == SumOf(Count, xs) && r.sum == sum && PerObservation(r, sum, SumOf(Truthy, xs))
    && (Sound(xs) && r.count == 0 ==> r.rate == 0.0)
  }

  ghost predicate FigureFrom(t: Summary, r: Summary) {
    && r.kind == t.kind && r.count == t.count && r.sum == t.sum && r.min == t.min && r.max == t.max
    && r.counts == NonEmpty(t.counts) && PerObservation(r, t.sum, t.rate)
  }

  lemma FiguresFrom(t: Summary, r: Summary, xs: seq<Agg>, sum: real)
    requires FigureFrom(t, r)
    requires t.count as real == SumOf(Count, xs) && t.sum == sum && t.rate == SumOf(Truthy, xs)
    ensures Figures(r, xs, sum)
  {
    if Sound(xs) {
      TruthyAtMost(xs);
    }
  }

  lemma DividedFrom(t: Summary, r: Summary)
    requires t.avg == 0.0 && r == Divided(t).(counts := NonEmpty(Divided(t).counts))
    ensures FigureFrom(t, r)
  {
    DividedIs(t);
  }

  lemma AggregateFrom(xs: seq<Agg>, lay: Layout)
    ensures FigureFrom(AggregateFold(xs, lay), AggregateOf(xs, lay))
  {
    AggregateUnaveraged(xs, lay);
    DividedFrom(AggregateFold(xs, lay), AggregateOf(xs, lay));
  }

  lemma TotalsFrom(xs: seq<Agg>, lay: Layout)
    requires xs != []
    ensures FigureFrom(TotalsFold(xs, lay), TotalsOf(xs, lay))
  {
    TotalsUnaveraged(xs, lay);
    DividedFrom(TotalsFold(xs, lay), TotalsOf(xs, lay));
  }

  /**
   What a threshold is judged by, of any series of a metric in any order: how many observations and their sum, and sum
   and truthy count per observation. Of gauges the sum is that of what was added up, not of the readings.
   */
  lemma AggregateMeans(xs: seq<Agg>, lay: Layout)
    ensures Figures(AggregateOf(xs, lay), xs, SumOf(Sum, xs))
    ensures forall kind :: xs != [] && SameKind(xs, kind) ==> AggregateOf(xs, lay).kind == kind
  {
    AggregateCounts(xs, lay);
    AggregateFrom(xs, lay);
    FiguresFrom(AggregateFold(xs, lay), AggregateOf(xs, lay), xs, SumOf(Sum, xs));
  }

  /** And of series that are no gauges, the running minimum, the greatest value and the merged bins. */
  lemma AggregateShows(xs: seq<Agg>, lay: Layout)
    requires AllPlain(xs, lay)
    ensures AggregateOf(xs, lay).min == Lowest(MinimaOf(xs)) && AggregateOf(xs, lay).max == Highest(MaximaOf(xs))
    ensures ShowsBins(AggregateOf(xs, lay).counts, xs, lay)
  {
    AggregateFrom(xs, lay);
    AggregateAdds(xs, 0, lay);
    forall i: nat | i < lay.buckets
      ensures BinOf(AggregateOf(xs, lay).counts, i) as real == SumOf(Bin(i), xs)
    {
      AggregateAdds(xs, i, lay);
      NonEmptyBins(AggregateFold(xs, lay).counts, i);
    }
  }

  /** What the totals show: the same, but of gauges the sum of their readings, and a minimum of their own. */
  lemma TotalsMean(xs: seq<Agg>, lay: Layout)
    requires xs != []
    ensures Figures(TotalsOf(xs, lay), xs, SumsIn(xs)) && TotalsMin(TotalsOf(xs, lay).min, xs)
    ensures forall kind :: SameKind(xs, kind) ==> TotalsOf(xs, lay).kind == kind
  {
    TotalsCounts(xs, lay);
    TotalsMinIs(xs, lay);
    TotalsFrom(xs, lay);
    FiguresFrom(TotalsFold(xs, lay), TotalsOf(xs, lay), xs, SumsIn(xs));
  }

  lemma TotalsShow(xs: seq<Agg>, lay: Layout)
    requires AllPlain(xs, lay) && xs != []
    ensures TotalsOf(xs, lay).max == Highest(MaximaOf(xs)) && ShowsBins(TotalsOf(xs, lay).counts, xs, lay)
  {
    TotalsFrom(xs, lay);
    TotalsAdds(xs, 0, lay);
    forall i: nat | i < lay.buckets
      ensures BinOf(TotalsOf(xs, lay).counts, i) as real == SumOf(Bin(i), xs)
    {
      TotalsAdds(xs, i, lay);
      NonEmptyBins(TotalsFold(xs, lay).counts, i);
    }
  }

  ghost predicate Gauges(xs: seq<Agg>) {
    forall i :: 0 <= i < |xs| ==> xs[i].kind.Gauge? && xs[i].sum == 0.0
  }

  lemma {:induction false} GaugesAddNothing(xs: seq<Agg>)
    requires Gauges(xs)
    ensures SumOf(Sum, xs) == 0.0
  {
    if xs != [] {
      GaugesAddNothing(xs[..|xs| - 1]);
    }
  }

  /**
   Of gauges, whose aggregates have added up nothing, thresholds see a sum and an average of zero, while the totals show
   their readings: the two agree exactly when those cancel out.
   */
  lemma GaugesAgreeIff(xs: seq<Agg>, ys: seq<Agg>, lay: Layout)
    requires ys != [] && Gauges(xs)
    ensures AggregateOf(xs, lay).sum == 0.0 && AggregateOf(xs, lay).avg == 0.0
    ensures AggregateOf(xs, lay).sum == TotalsOf(ys, lay).sum <==> SumsIn(ys) == 0.0
  {
    AggregateMeans(xs, lay);
    TotalsMean(ys, lay);
    GaugesAddNothing(xs);
  }

  lemma OneMin(m: real, n: real, xs: seq<real>)
    requires IsMin(m, xs) && IsMin(n, xs)
    ensures m == n
  {
  }

  lemma MinAcross(m: real, xs: seq<Agg>, ys: seq<Agg>)
    requires multiset(xs) == multiset(ys)
    ensures IsMin(m, MinimaOf(xs)) <==> IsMin(m, MinimaOf(ys))
  {
    forall v
      ensures v in MinimaOf(xs) <==> v in MinimaOf(ys)
    {
      SameMinima(xs, ys, v);
    }
  }

  /**
   Exactly when the minima agree as well. `ms` are the minima of the non-empty series in the order the
   threshold view visits them: zero doubles as "unset" there, and in the totals an empty first series counts as a zero.
   */
  lemma MinimaAgreeIff(xs: seq<Agg>, ys: seq<Agg>, lay: Layout)
    requires AllPlain(xs, lay) && ys != [] && multiset(xs) == multiset(ys)
    ensures var ms := MinimaOf(xs);
      AggregateOf(xs, lay).min == TotalsOf(ys, lay).min <==>
        HasNegative(ms) || ms == [] || ms[|ms| - 1] == 0.0 || (ys[0].count > 0 && 0.0 !in ms)
  {
    AggregateAdds(xs, 0, lay);
    TotalsMinIs(ys, lay);
    var ms, t := MinimaOf(xs), TotalsFold(ys, lay).min;
    MinAcross(t, xs, ys);
    LowestCases(ms);
    if ys[0].count > 0 {
      assert ms != [] by {
        SameMinima(xs, ys, t);
      }
      LowestIff(ms);
      if IsMin(Lowest(ms), ms) {
        OneMin(Lowest(ms), t, ms);
      }
    } else {
      EmptyFirst(xs, ys, t);
    }
  }

  lemma EmptyFirst(xs: seq<Agg>, ys: seq<Agg>, t: real)
    requires multiset(xs) == multiset(ys) && IsMin(t, [0.0] + MinimaOf(ys))
    ensures var ms := MinimaOf(xs); Lowest(ms) == t <==> HasNegative(ms) || ms == [] || ms[|ms| - 1] == 0.0
  {
    var ms, ns := MinimaOf(xs), MinimaOf(ys);
    forall v
      ensures v in ms <==> v in ns
    {
      SameMinima(xs, ys, v);
    }
    assert forall v :: v in [0.0] + ns <==> v == 0.0 || v in ns;
    LowestCases(ms);
    if HasNegative(ms) {
      var v :| v in ms && v < 0.0;
      assert t <= v && t in ms;
      assert IsMin(t, ms);
      OneMin(Lowest(ms), t, ms);
    } else {
      assert t == 0.0;
    }
  }

  /** In particular they agree when every series holds something and only positive values. */
  lemma PositiveMinimaAgree(xs: seq<Agg>, ys: seq<Agg>, lay: Layout)
    requires AllPlain(xs, lay) && ys != [] && multiset(xs) == multiset(ys)
    requires forall a :: a in ys ==> a.count > 0 && MinOf(a) > 0.0
    ensures AggregateOf(xs, lay).min == TotalsOf(ys, lay).min
  {
    MinimaAgreeIff(xs, ys, lay);
    assert ys[0] in ys;
    if 0.0 in MinimaOf(xs) {
      SameMinima(xs, ys, 0.0);
      InMinima(ys, 0.0);
    }
  }

  // ---------------------------------------------------------------------------
  // The two views of the index
  // ---------------------------------------------------------------------------

  /** One visit of an index: each of its aggregates once, in some order. */
  ghost predicate Visits<S>(order: seq<Aggregate<S>>, nodes: set<Aggregate<S>>) {
    && (forall a :: a in order ==> a in nodes) && (forall a :: a in nodes ==> a in order)
    && (forall i, j :: 0 <= i < j < |order| ==> ApartAt(order, i, j))
  }

  /** The aggregates of a metric among those visited, in order. */
  ghost function Picked<S, M>(order: seq<Aggregate<S>>, metricOf: S -> M, metric: M): (r: seq<Agg>)
    reads set a | a in order
  {
    if order == [] then []
    else
      var rest, last := order[..|order| - 1], order[|order| - 1];
      assert forall a :: a in rest ==> a in order;
      Picked(rest, metricOf, metric) + if metricOf(last.series) == metric then [last.State()] else []
  }

  lemma PickedStep<S, M>(order: seq<Aggregate<S>>, n: nat, metricOf: S -> M, metric: M)
    requires n < |order|
    ensures Picked(order[..n + 1], metricOf, metric) == Picked(order[..n], metricOf, metric)
      + if metricOf(order[n].series) == metric then [order[n].State()] else []
  {
    assert order[..n + 1][..n] == order[..n];
  }

  lemma {:induction false} OnceEach<T>(order: seq<T>, a: T)
    requires forall i, j :: 0 <= i < j < |order| ==> order[i] != order[j]
    ensures multiset(order)[a] == if a in order then 1 else 0
  {
    if order != [] {
      var n := |order| - 1;
      OnceEach(order[..n], a);
      assert order == order[..n] + [order[n]];
    }
  }

  /** How often a value is among those picked. */
  ghost function PickedCount<S, M>(order: seq<Aggregate<S>>, metricOf: S -> M, metric: M, v: Agg): (r: nat)
    reads set a | a in order
  {
    if order == [] then 0
    else
      var rest, last := order[..|order| - 1], order[|order| - 1];
      assert forall a :: a in rest ==> a in order;
      PickedCount(rest, metricOf, metric, v) + Hit(last, metricOf, metric, v)
  }

  ghost function Hit<S, M>(a: Aggregate<S>, metricOf: S -> M, metric: M, v: Agg): (r: nat)
    reads a
  {
    if metricOf(a.series) == metric && a.State() == v then 1 else 0
  }

  lemma {:induction false} CountsPicked<S, M>(order: seq<Aggregate<S>>, metricOf: S -> M, metric: M, v: Agg)
    ensures multiset(Picked(order, metricOf, metric))[v] == PickedCount(order, metricOf, metric, v)
  {
    if order != [] {
      CountsPicked(order[..|order| - 1], metricOf, metric, v);
    }
  }

  lemma {:induction false} PickedWithout<S, M>(order: seq<Aggregate<S>>, i: nat, metricOf: S -> M, metric: M, v: Agg)
    requires i < |order|
    ensures PickedCount(order, metricOf, metric, v)
         == PickedCount(order[..i] + order[i + 1..], metricOf, metric, v) + Hit(order[i], metricOf, metric, v)
  {
    var n := |order| - 1;
    if i == n {
      assert order[..i] + order[i + 1..] == order[..n];
    } else {
      PickedWithout(order[..n], i, metricOf, metric, v);
      var others := order[..i] + order[i + 1..];
      assert others[..|others| - 1] == order[..n][..i] + order[..n][i + 1..];
      assert others[|others| - 1] == order[n];
    }
  }

  lemma {:induction false} PickedAnyOrder<S, M>(a: seq<Aggregate<S>>, b: seq<Aggregate<S>>, metricOf: S -> M,
                                                metric: M, v: Agg)
    requires multiset(a) == multiset(b)
    ensures PickedCount(a, metricOf, metric, v) == PickedCount(b, metricOf, metric, v)
    decreases |a|
  {
    if a == [] {
      assert |multiset(b)| == 0;
    } else {
      var n, x := |a| - 1, a[|a| - 1];
      assert x in multiset(b);
      var i :| 0 <= i < |b| && b[i] == x;
      TakeOut(a, b, i);
      PickedAnyOrder(a[..n], b[..i] + b[i + 1..], metricOf, metric, v);
      PickedWithout(b, i, metricOf, metric, v);
    }
  }

  /** Two visits of the same index see the same series of a metric, whatever the orders. */
  lemma VisitsAgree<S, M>(a: seq<Aggregate<S>>, b: seq<Aggregate<S>>, nodes: set<Aggregate<S>>, metricOf: S -> M,
                          metric: M)
    requires Visits(a, nodes) && Visits(b, nodes)
    ensures multiset(Picked(a, metricOf, metric)) == multiset(Picked(b, metricOf, metric))
  {
    ApartDiffer(a);
    ApartDiffer(b);
    forall x
      ensures multiset(a)[x] == multiset(b)[x]
    {
      OnceEach(a, x);
      OnceEach(b, x);
    }
    forall v
      ensures multiset(Picked(a, metricOf, metric))[v] == multiset(Picked(b, metricOf, metric))[v]
    {
      PickedAnyOrder(a, b, metricOf, metric, v);
      CountsPicked(a, metricOf, metric, v);
      CountsPicked(b, metricOf, metric, v);
    }
  }

  lemma ApartDiffer<S>(order: seq<Aggregate<S>>)
    requires forall i, j :: 0 <= i < j < |order| ==> ApartAt(order, i, j)
    ensures forall i, j :: 0 <= i < j < |order| ==> order[i] != order[j]
  {
    forall i, j | 0 <= i < j < |order|
      ensures order[i] != order[j]
    {
      assert ApartAt(order, i, j);
    }
  }

  /** What the threshold view shows after visiting in some order. */
  ghost predicate ShowsAggregate<S, M>(order: seq<Aggregate<S>>, metricOf: S -> M, metric: M, lay: Layout,
                                       found: bool, r: Summary)
    reads set a | a in order
  {
    var xs := Picked(order, metricOf, metric);
    (found <==> xs != []) && (found ==> r == AggregateOf(xs, lay))
  }

  method Aggregate<S(==), K(==), M(==)>(m: AggMap<S, K>, metricOf: S -> M, metric: M) returns (found: bool, r: Summary)
    requires m.Valid()
    ensures exists order: seq<Aggregate<S>> ::
      Visits(order, m.nodes) && ShowsAggregate(order, metricOf, metric, m.layout, found, r)
  {
    var order := m.Each();
    var total := AggregateFold([], m.layout);
    found := false;
    for n := 0 to |order|
      invariant total == AggregateFold(Picked(order[..n], metricOf, metric), m.layout)
      invariant found <==> Picked(order[..n], metricOf, metric) != []
    {
      PickedStep(order, n, metricOf, metric);
      assert Picked(order[..n], metricOf, metric) + [] == Picked(order[..n], metricOf, metric);
      var a := order[n];
      if metricOf(a.series) == metric {
        found := true;
        AggregateFoldStep(Picked(order[..n], metricOf, metric), a.State(), m.layout);
        total := Include(total, a.State());
      }
    }
    assert order[..|order|] == order;
    total := Divided(total);
    r := total.(counts := NonEmpty(total.counts));
    assert Visits(order, m.nodes) && ShowsAggregate(order, metricOf, metric, m.layout, found, r);
  }

  /** One series into the figure of its metric. */
  method Include(t: Summary, a: Agg) returns (r: Summary)
    ensures r == AggregateStep(t, a)
  {
    r := t.(kind := a.kind, count := t.count + a.count, sum := t.sum + a.sum, rate := t.rate + a.nonZero as real);
    if r.min == 0.0 || (a.count > 0 && MinOf(a) < r.min) {
      r := r.(min := MinOf(a));
    }
    if MaxOf(a) > r.max {
      r := r.(max := MaxOf(a));
    }
    r := r.(counts := AddHist(r.counts, a.hist));
  }

  lemma AggregateFoldStep(xs: seq<Agg>, x: Agg, lay: Layout)
    ensures AggregateFold(xs + [x], lay) == AggregateStep(AggregateFold(xs, lay), x)
    ensures TotalsFold(xs + [x], lay) == if xs == [] then TotalsStep(TotalsStart(x), x, true, lay)
                                         else TotalsStep(TotalsFold(xs, lay), x, false, lay)
  {
    assert (xs + [x])[..|xs|] == xs;
  }

  /** The running totals by metric after some of the visit. */
  ghost predicate Running<S, M(!new)>(totals: map<M, Summary>, order: seq<Aggregate<S>>, metricOf: S -> M, lay: Layout)
    reads set a | a in order
  {
    forall k :: RunningAt(totals, Picked(order, metricOf, k), k, lay)
  }

  ghost predicate RunningAt<M>(totals: map<M, Summary>, xs: seq<Agg>, k: M, lay: Layout) {
    (k in totals <==> xs != []) && (k in totals ==> totals[k] == TotalsFold(xs, lay))
  }

  /** What the totals show after visiting in some order. */
  ghost predicate ShowsTotals<S, M(!new)>(order: seq<Aggregate<S>>, metricOf: S -> M, lay: Layout, r: map<M, Summary>)
    reads set a | a in order
  {
    && (forall k :: k in r <==> Picked(order, metricOf, k) != [])
    && (forall k :: k in r ==> r[k] == TotalsOf(Picked(order, metricOf, k), lay))
  }

  method Totals<S(==), K(==), M(==, !new)>(m: AggMap<S, K>, metricOf: S -> M) returns (r: map<M, Summary>)
    requires m.Valid()
    ensures exists order: seq<Aggregate<S>> :: Visits(order, m.nodes) && ShowsTotals(order, metricOf, m.layout, r)
  {
    var order := m.Each();
    var totals: map<M, Summary> := map[];
    for n := 0 to |order|
      invariant Running(totals, order[..n], metricOf, m.layout)
    {
      var a := order[n];
      var k := metricOf(a.series);
      var seen := k in totals;
      var total := if seen then totals[k] else TotalsStart(a.State());
      total := Accumulate(total, a.State(), !seen, m.layout);
      RunningStep(totals, total, order, n, metricOf, m.layout);
      totals := totals[k := total];
    }
    assert order[..|order|] == order;
    r := map k | k in totals :: Divided(totals[k]).(counts := NonEmpty(totals[k].counts));
    assert forall k :: RunningAt(totals, Picked(order, metricOf, k), k, m.layout);
    assert Visits(order, m.nodes) && ShowsTotals(order, metricOf, m.layout, r);
  }

  /**
   The two views of one index, each in its own order: what is found, and every figure but the minimum, is the same.
   */
  lemma IndexViewsAgree<S, M(!new)>(nodes: set<Aggregate<S>>, a: seq<Aggregate<S>>, b: seq<Aggregate<S>>,
                                    metricOf: S -> M, metric: M,
                                    lay: Layout, found: bool, shown: Summary, totals: map<M, Summary>)
    requires Visits(a, nodes) && Visits(b, nodes)
    requires forall x :: x in nodes && metricOf(x.series) == metric ==> Plain(x.State(), lay)
    requires ShowsAggregate(a, metricOf, metric, lay, found, shown) && ShowsTotals(b, metricOf, lay, totals)
    ensures found <==> metric in totals
    ensures found ==>
      var t := totals[metric];
      && shown.count == t.count && shown.sum == t.sum && shown.avg == t.avg
      && shown.rate == t.rate && shown.max == t.max
      && shown.counts == t.counts
  {
    var xs, ys := Picked(a, metricOf, metric), Picked(b, metricOf, metric);
    VisitsAgree(a, b, nodes, metricOf, metric);
    SameEmptiness(xs, ys);
    PickedPlain(a, metricOf, metric, lay);
    PickedPlain(b, metricOf, metric, lay);
    if found {
      ViewsAgree(xs, ys, lay);
    }
  }

  lemma SameEmptiness<T>(xs: seq<T>, ys: seq<T>)
    requires multiset(xs) == multiset(ys)
    ensures xs == [] <==> ys == []
  {
    assert |multiset(xs)| == |xs| && |multiset(ys)| == |ys|;
  }

  lemma {:induction false} PickedPlain<S, M>(order: seq<Aggregate<S>>, metricOf: S -> M, metric: M, lay: Layout)
    requires forall x :: x in order && metricOf(x.series) == metric ==> Plain(x.State(), lay)
    ensures AllPlain(Picked(order, metricOf, metric), lay)
  {
    if order != [] {
      var rest := order[..|order| - 1];
      assert forall x :: x in rest ==> x in order;
      PickedPlain(rest, metricOf, metric, lay);
      assert order[|order| - 1] in order;
    }
  }

  /** One series into the totals of its metric. */
  method Accumulate(t: Summary, a: Agg, first: bool, lay: Layout) returns (r: Summary)
    ensures r == TotalsStep(t, a, first, lay)
  {
    r := t.(count := t.count + a.count);
    if a.kind.Gauge? {
      r := r.(sum := r.sum + a.gauge);
    } else {
      r := r.(sum := r.sum + a.sum);
    }
    r := r.(rate := r.rate + a.nonZero as real);
    if a.count > 0 && (first || MinOf(a) < r.min) {
      r := r.(min := MinOf(a));
    }
    if MaxOf(a) > r.max {
      r := r.(max := MaxOf(a));
    }
    if a.hist.NoHist? || Total(a.hist.counts) == 0 {
      return;
    }
    var merged := if r.counts.Hist? then r.counts else NewHist(lay);
    r := r.(counts := AddHist(merged, a.hist));
  }

  lemma RunningStep<S, M(!new)>(totals: map<M, Summary>, total: Summary, order: seq<Aggregate<S>>, n: nat,
                                metricOf: S -> M, lay: Layout)
    requires n < |order| && Running(totals, order[..n], metricOf, lay)
    requires var a, k := order[n].State(), metricOf(order[n].series);
      total == TotalsStep(if k in totals then totals[k] else TotalsStart(a), a, k !in totals, lay)
    ensures Running(totals[metricOf(order[n].series) := total], order[..n + 1], metricOf, lay)
  {
    var a, key := order[n].State(), metricOf(order[n].series);
    var totals' := totals[key := total];
    var next := order[..n + 1];
    forall k
      ensures RunningAt(totals', Picked(next, metricOf, k), k, lay)
    {
      var xs := Picked(order[..n], metricOf, k);
      assert RunningAt(totals, xs, k, lay);
      PickedStep(order, n, metricOf, k);
      if k == key {
        AggregateFoldStep(xs, a, lay);
      } else {
        assert xs + [] == xs;
      }
    }
  }
}
