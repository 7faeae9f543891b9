/**
 One series' accumulated observations: what one observation does, what a merge does, and that
 merging is the same as having observed everything in one place. Floating point sums are
 exact reals here.
 */
module Aggregates {

  import opened Histogram
  import opened Sequences

  datatype Kind = Counter | Gauge | Trend | Rate

  /** A running minimum or maximum; infinite until something finite has been seen. */
  datatype Extreme = Infinite | Finite(value: real)

  datatype Hist = NoHist | Hist(counts: seq<nat>)

  datatype Agg = Agg(kind: Kind, count: nat, sum: real, minVal: Extreme, maxVal: Extreme,
                     nonZero: nat, gauge: real, hist: Hist)

  /** One observation: a value for counters, gauges and trends, a truth for rates. */
  datatype Obs = Obs(value: real, truthy: bool)

  /** The HDR bucket layout: how many buckets, and which one a scaled value falls in. */
  datatype Layout = Layout(config: Config, buckets: nat, bucketOf: int -> nat)

  function LowerOf(m: Extreme, v: Extreme): (r: Extreme) {
    if v.Finite? && (m.Infinite? || v.value < m.value) then v else m
  }

  function UpperOf(m: Extreme, v: Extreme): (r: Extreme) {
    if v.Finite? && (m.Infinite? || v.value > m.value) then v else m
  }

  function NewHist(L: Layout): (r: Hist) {
    Hist(seq(L.buckets, i => 0))
  }

  /** Counts one value; a value outside the layout is not counted, as the library's ignored error has it. */
  function RecordValue(h: Hist, L: Layout, value: real): (r: Hist) {
    match h
    case NoHist => NoHist
    case Hist(counts) =>
      var b := L.bucketOf(ScaleValue(L.config, value));
      if b < |counts| then Hist(counts[b := counts[b] + 1]) else h
  }

  function AddHist(h: Hist, other: Hist): (r: Hist) {
    if h.Hist? && other.Hist? then
      Hist(seq(|h.counts|, i requires 0 <= i < |h.counts| =>
        h.counts[i] + if i < |other.counts| then other.counts[i] else 0))
    else h
  }

  /** How many values fell in one bin. */
  function BinOf(h: Hist, i: nat): (r: nat) {
    if h.Hist? && i < |h.counts| then h.counts[i] else 0
  }

  function Total(counts: seq<nat>): (r: nat) {
    if counts == [] then 0 else counts[0] + Total(counts[1..])
  }

  function New(kind: Kind, L: Layout): (r: Agg) {
    Agg(kind, 0, 0.0, Infinite, Infinite, 0, 0.0, if kind.Trend? then NewHist(L) else NoHist)
  }

  function Observed(a: Agg, o: Obs, L: Layout): (r: Agg) {
    match a.kind
    case Gauge => a.(count := a.count + 1, gauge := o.value)
    case Rate => a.(count := a.count + 1, nonZero := if o.truthy then a.nonZero + 1 else a.nonZero)
    case _ =>
      a.(count := a.count + 1, sum := a.sum + o.value,
         minVal := LowerOf(a.minVal, Finite(o.value)), maxVal := UpperOf(a.maxVal, Finite(o.value)),
         hist := RecordValue(a.hist, L, o.value))
  }

  function Merged(a: Agg, b: Agg): (r: Agg) {
    if b.count == 0 then a
    else
      Agg(a.kind, a.count + b.count, a.sum + b.sum, LowerOf(a.minVal, b.minVal), UpperOf(a.maxVal, b.maxVal),
          a.nonZero + b.nonZero, if a.kind.Gauge? then a.gauge + b.gauge else a.gauge, AddHist(a.hist, b.hist))
  }

  function ClearHist(h: Hist): (r: Hist) {
    match h
    case NoHist => NoHist
    case Hist(counts) => Hist(seq(|counts|, i => 0))
  }

  function Cleared(a: Agg): (r: Agg) {
    Agg(a.kind, 0, 0.0, Infinite, Infinite, 0, 0.0, ClearHist(a.hist))
  }

  /** The smallest observation, or zero if there were none. */
  function MinOf(a: Agg): (r: real) {
    if a.count == 0 || a.minVal.Infinite? then 0.0 else a.minVal.value
  }

  function MaxOf(a: Agg): (r: real) {
    if a.count == 0 || a.maxVal.Infinite? then 0.0 else a.maxVal.value
  }

  /** A number held of a series: how many observations, how many truthy, their sum, how many in one histogram bin. */
  datatype Figure = Count | Truthy | Sum | Bin(i: nat)

  function Amount(f: Figure, a: Agg): (r: real) {
    match f
    case Count => a.count as real
    case Truthy => a.nonZero as real
    case Sum => a.sum
    case Bin(i) => BinOf(a.hist, i) as real
  }

  // ---------------------------------------------------------------------------
  // One aggregate that observes everything
  // ---------------------------------------------------------------------------

  function Fold(kind: Kind, obs: seq<Obs>, L: Layout): (r: Agg)
    ensures r.kind == kind && r.count == |obs|
  {
    if obs == [] then New(kind, L)
    else Observed(Fold(kind, obs[..|obs| - 1], L), obs[|obs| - 1], L)
  }

  /** The aggregates folding ever gives. */
  ghost predicate Regular(a: Agg, kind: Kind, L: Layout) {
    && a.kind == kind
    && (kind.Trend? <==> a.hist.Hist?)
    && (a.hist.Hist? ==> |a.hist.counts| == L.buckets)
    && (a.count == 0 ==> a == New(kind, L))
    && (!kind.Gauge? ==> a.gauge == 0.0)
    && (!kind.Rate? ==> a.nonZero == 0)
    && (kind.Rate? || kind.Gauge? ==> a.minVal.Infinite? && a.maxVal.Infinite? && a.sum == 0.0)
    && ((kind.Counter? || kind.Trend?) && a.count > 0 ==> a.minVal.Finite? && a.maxVal.Finite?)
  }

  lemma {:induction false} FoldRegular(kind: Kind, obs: seq<Obs>, L: Layout)
    ensures Regular(Fold(kind, obs, L), kind, L)
  {
    if obs != [] {
      FoldRegular(kind, obs[..|obs| - 1], L);
    }
  }

  lemma {:induction false} FoldOne(kind: Kind, obs: seq<Obs>, o: Obs, L: Layout)
    ensures Fold(kind, obs + [o], L) == Observed(Fold(kind, obs, L), o, L)
  {
    assert (obs + [o])[..|obs|] == obs;
  }

  // What the fold is, figure by figure.

  function SumOfValues(obs: seq<Obs>): (r: real) {
    if obs == [] then 0.0 else SumOfValues(obs[..|obs| - 1]) + obs[|obs| - 1].value
  }

  function Truths(obs: seq<Obs>): (r: nat) {
    if obs == [] then 0 else Truths(obs[..|obs| - 1]) + if obs[|obs| - 1].truthy then 1 else 0
  }

  /** How many values fall in one bucket of the layout. */
  function InBucket(obs: seq<Obs>, b: nat, L: Layout): (r: nat) {
    if obs == [] then 0
    else InBucket(obs[..|obs| - 1], b, L) + if L.bucketOf(ScaleValue(L.config, obs[|obs| - 1].value)) == b then 1 else 0
  }

  ghost predicate IsLowest(m: real, obs: seq<Obs>) {
    (exists i :: 0 <= i < |obs| && obs[i].value == m) && forall i :: 0 <= i < |obs| ==> m <= obs[i].value
  }

  ghost predicate IsHighest(m: real, obs: seq<Obs>) {
    (exists i :: 0 <= i < |obs| && obs[i].value == m) && forall i :: 0 <= i < |obs| ==> obs[i].value <= m
  }

  lemma LeastStep(obs: seq<Obs>, o: Obs, m: real)
    ensures obs == [] ==> IsLowest(o.value, obs + [o]) && IsHighest(o.value, obs + [o])
    ensures IsLowest(m, obs) ==> IsLowest(if o.value < m then o.value else m, obs + [o])
    ensures IsHighest(m, obs) ==> IsHighest(if o.value > m then o.value else m, obs + [o])
  {
    var all := obs + [o];
    assert all[|obs|] == o;
    if i :| 0 <= i < |obs| && obs[i].value == m {
      assert all[i].value == m;
    }
  }

  lemma {:induction false} FoldSums(kind: Kind, obs: seq<Obs>, L: Layout, b: nat)
    requires b < L.buckets
    ensures var a := Fold(kind, obs, L);
      && (kind.Counter? || kind.Trend? ==> a.sum == SumOfValues(obs))
      && (kind.Rate? ==> a.nonZero == Truths(obs))
      && (kind.Gauge? && obs != [] ==> a.gauge == obs[|obs| - 1].value)
      && (kind.Trend? ==> a.hist.Hist? && |a.hist.counts| == L.buckets && a.hist.counts[b] == InBucket(obs, b, L))
  {
    if obs != [] {
      FoldSums(kind, obs[..|obs| - 1], L, b);
    }
  }

  lemma {:induction false} FoldExtremes(kind: Kind, obs: seq<Obs>, L: Layout)
    requires kind.Counter? || kind.Trend?
    ensures var a := Fold(kind, obs, L);
      if obs == [] then a.minVal.Infinite? && a.maxVal.Infinite?
      else a.minVal.Finite? && IsLowest(a.minVal.value, obs) && a.maxVal.Finite? && IsHighest(a.maxVal.value, obs)
  {
    if obs != [] {
      var rest, o := obs[..|obs| - 1], obs[|obs| - 1];
      FoldExtremes(kind, rest, L);
      var a := Fold(kind, rest, L);
      assert obs == rest + [o];
      LeastStep(rest, o, if rest == [] then 0.0 else a.minVal.value);
      LeastStep(rest, o, if rest == [] then 0.0 else a.maxVal.value);
    }
  }

  /**
   A folded counter or trend has the sum, the least and the greatest of the values, a trend also how many fall in
   each bucket; a rate has the number of truths; a gauge has the latest value; each has how many there were.
   */
  lemma FoldMeans(kind: Kind, obs: seq<Obs>, L: Layout, b: nat)
    requires b < L.buckets
    ensures var a := Fold(kind, obs, L);
      && a.count == |obs|
      && (kind.Counter? || kind.Trend? ==> a.sum == SumOfValues(obs))
      && ((kind.Counter? || kind.Trend?) && obs != [] ==>
            && a.minVal.Finite? && IsLowest(a.minVal.value, obs)
            && a.maxVal.Finite? && IsHighest(a.maxVal.value, obs))
      && (kind.Rate? ==> a.nonZero == Truths(obs))
      && (kind.Gauge? && obs != [] ==> a.gauge == obs[|obs| - 1].value)
      && (kind.Trend? ==> a.hist.Hist? && |a.hist.counts| == L.buckets && a.hist.counts[b] == InBucket(obs, b, L))
  {
    FoldSums(kind, obs, L, b);
    if kind.Counter? || kind.Trend? {
      FoldExtremes(kind, obs, L);
    }
  }

  lemma ObserveAfterMerge(a: Agg, b: Agg, o: Obs, kind: Kind, L: Layout)
    requires !kind.Gauge? && Regular(a, kind, L) && Regular(b, kind, L)
    ensures Observed(Merged(a, b), o, L) == Merged(a, Observed(b, o, L))
  {
    if kind.Trend? {
      RecordAfterAdd(a.hist, b.hist, o.value, L);
    }
  }

  lemma RecordAfterAdd(a: Hist, b: Hist, v: real, L: Layout)
    requires a.Hist? && b.Hist? && |a.counts| == |b.counts|
    ensures RecordValue(AddHist(a, b), L, v) == AddHist(a, RecordValue(b, L, v))
    ensures b.counts == seq(|b.counts|, i => 0) ==> AddHist(a, b) == a
  {
  }

  /** Merging is the same as observing both lists in one place. Gauges are the exception. */
  lemma {:induction false} MergeIsFold(kind: Kind, a: seq<Obs>, b: seq<Obs>, L: Layout)
    requires !kind.Gauge?
    ensures Merged(Fold(kind, a, L), Fold(kind, b, L)) == Fold(kind, a + b, L)
  {
    if b == [] {
      assert a + b == a;
    } else {
      var rest, o := b[..|b| - 1], b[|b| - 1];
      MergeIsFold(kind, a, rest, L);
      FoldRegular(kind, a, L);
      FoldRegular(kind, rest, L);
      ObserveAfterMerge(Fold(kind, a, L), Fold(kind, rest, L), o, kind, L);
      assert a + b == (a + rest) + [o];
      FoldOne(kind, a + rest, o, L);
    }
  }

  /** Clearing an aggregate leaves what it was when it was created. */
  lemma ClearedIsNew(kind: Kind, obs: seq<Obs>, L: Layout)
    ensures Cleared(Fold(kind, obs, L)) == Fold(kind, [], L)
  {
    FoldRegular(kind, obs, L);
  }

  lemma MergeCommutes(a: Agg, b: Agg, kind: Kind, L: Layout)
    requires !kind.Gauge? && Regular(a, kind, L) && Regular(b, kind, L)
    ensures Merged(a, b) == Merged(b, a)
  {
    if kind.Trend? {
      AddCommutes(a.hist, b.hist);
    }
  }

  lemma AddCommutes(a: Hist, b: Hist)
    requires a.Hist? && b.Hist? && |a.counts| == |b.counts|
    ensures AddHist(a, b) == AddHist(b, a)
    ensures b.counts == seq(|b.counts|, i => 0) ==> AddHist(a, b) == a
    ensures a.counts == seq(|a.counts|, i => 0) ==> AddHist(a, b) == b
  {
  }

  lemma FoldCommutes(kind: Kind, a: seq<Obs>, b: seq<Obs>, L: Layout)
    requires !kind.Gauge?
    ensures Fold(kind, a + b, L) == Fold(kind, b + a, L)
  {
    MergeIsFold(kind, a, b, L);
    MergeIsFold(kind, b, a, L);
    FoldRegular(kind, a, L);
    FoldRegular(kind, b, L);
    MergeCommutes(Fold(kind, a, L), Fold(kind, b, L), kind, L);
  }

  lemma FoldAfter(kind: Kind, a: seq<Obs>, x: seq<Obs>, y: seq<Obs>, L: Layout)
    requires !kind.Gauge? && Fold(kind, x, L) == Fold(kind, y, L)
    ensures Fold(kind, a + x, L) == Fold(kind, a + y, L)
  {
    MergeIsFold(kind, a, x, L);
    MergeIsFold(kind, a, y, L);
  }

  /** Observations may change places. */
  lemma FoldSwap(kind: Kind, a: seq<Obs>, o: Obs, b: seq<Obs>, L: Layout)
    requires !kind.Gauge?
    ensures Fold(kind, a + [o] + b, L) == Fold(kind, a + b + [o], L)
  {
    FoldCommutes(kind, [o], b, L);
    FoldAfter(kind, a, [o] + b, b + [o], L);
    assert a + [o] + b == a + ([o] + b) && a + b + [o] == a + (b + [o]);
  }

  /** Only the bag of observations matters, not the order or the place they were made in. */
  lemma {:induction false} FoldOfBag(kind: Kind, a: seq<Obs>, b: seq<Obs>, L: Layout)
    requires !kind.Gauge? && multiset(a) == multiset(b)
    ensures Fold(kind, a, L) == Fold(kind, b, L)
    decreases |a|
  {
    if a == [] {
      assert |b| == |multiset(b)| == 0;
    } else {
      var rest, o := a[..|a| - 1], a[|a| - 1];
      assert a == rest + [o];
      assert o in multiset(b);
      var i :| 0 <= i < |b| && b[i] == o;
      var others := b[..i] + b[i + 1..];
      assert b == b[..i] + [o] + b[i + 1..];
      TakeOut(a, b, i);
      FoldOfBag(kind, rest, others, L);
      FoldSwap(kind, b[..i], o, b[i + 1..], L);
      FoldOne(kind, others, o, L);
    }
  }

  /** A folded gauge: how many readings there were, and the latest of them. */
  lemma {:induction false} FoldGauge(obs: seq<Obs>, L: Layout)
    ensures Fold(Gauge, obs, L) ==
      New(Gauge, L).(count := |obs|, gauge := if obs == [] then 0.0 else obs[|obs| - 1].value)
  {
    if obs != [] {
      FoldGauge(obs[..|obs| - 1], L);
    }
  }

  /**
   Gauge readings taken in two places add up instead of the later one standing: merging is observing both
   lists exactly when one of the places has no reading, or the latest one of the first place is zero.
   */
  lemma GaugesMergeIff(a: seq<Obs>, b: seq<Obs>, L: Layout)
    ensures Merged(Fold(Gauge, a, L), Fold(Gauge, b, L)) == Fold(Gauge, a + b, L)
      <==> a == [] || b == [] || a[|a| - 1].value == 0.0
  {
    FoldGauge(a, L);
    FoldGauge(b, L);
    FoldGauge(a + b, L);
  }
}
