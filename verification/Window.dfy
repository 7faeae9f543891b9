/**
 Time buckets: which are open, which are finalised, and in what order.

 Batches land in the open bucket of their start time; a ticker finalises buckets once
 their grace period has passed. A bucket is here the list of batches that went into it;
 what is charted from them is another module's business. Times are nanoseconds since the
 Unix epoch.
 */
module Window {

  /** The zero time, the first of January of the year 1. */
  const ZERO_TIME: int := -62135596800 * 1_000_000_000

  datatype Grid = Grid(resolution: int, grace: int)

  ghost predicate ValidGrid(g: Grid) {
    g.resolution > 0 && g.grace > 0
  }

  /** Division that truncates toward zero. */
  function TruncDiv(a: int, b: int): (r: int)
    requires b > 0
  {
    if a >= 0 then a / b else -((-a) / b)
  }

  function IndexOf(g: Grid, t: int): (r: int)
    requires ValidGrid(g)
  {
    TruncDiv(t, g.resolution)
  }

  /** The index below which buckets are past their grace at a given time. */
  function Cutoff(g: Grid, t: int): (r: int)
    requires ValidGrid(g)
  {
    IndexOf(g, t - g.grace)
  }

  /** Rounds down to a multiple of the resolution counted from the zero time. */
  function Truncated(g: Grid, t: int): (r: int)
    requires ValidGrid(g)
  {
    t - (t - ZERO_TIME) % g.resolution
  }

  lemma MulAtLeast(a: int, d: int)
    requires d > 0 && a >= 1
    ensures a * d >= d
  {
  }

  lemma Distribute(p: int, q: int, d: int)
    ensures (p - q) * d == p * d - q * d
  {
  }

  /** Quotient and remainder are determined. */
  lemma SameQuotient(p: int, s: int, q: int, r: int, d: int)
    requires d > 0 && 0 <= r < d && 0 <= s < d && p * d + s == q * d + r
    ensures p == q && s == r
  {
    Distribute(p, q, d);
    Distribute(q, p, d);
    if p > q {
      MulAtLeast(p - q, d);
    } else if p < q {
      MulAtLeast(q - p, d);
    }
  }

  lemma ModUnique(x: int, q: int, r: int, d: int)
    requires d > 0 && 0 <= r < d && x == q * d + r
    ensures x % d == r && x / d == q
  {
    SameQuotient(x / d, x % d, q, r, d);
  }

  lemma DivMonotone(a: int, b: int, d: int)
    requires d > 0 && a <= b
    ensures a / d <= b / d
  {
    var p, q := a / d, b / d;
    assert a == p * d + a % d && b == q * d + b % d;
    if p > q {
      Distribute(p, q, d);
      MulAtLeast(p - q, d);
    }
  }

  lemma IndexMonotone(g: Grid, t: int, u: int)
    requires ValidGrid(g) && t <= u
    ensures IndexOf(g, t) <= IndexOf(g, u)
    ensures Cutoff(g, t) <= IndexOf(g, t)
  {
    IndexMonotoneOnce(g, t, u);
    IndexMonotoneOnce(g, t - g.grace, t);
  }

  lemma IndexMonotoneOnce(g: Grid, t: int, u: int)
    requires ValidGrid(g) && t <= u
    ensures IndexOf(g, t) <= IndexOf(g, u)
  {
    if t >= 0 {
      DivMonotone(t, u, g.resolution);
    } else if u < 0 {
      DivMonotone(-u, -t, g.resolution);
    } else {
      DivMonotone(0, u, g.resolution);
      DivMonotone(0, -t, g.resolution);
    }
  }

  // ---------------------------------------------------------------------------
  // The machine
  // ---------------------------------------------------------------------------

  /** A bucket: the start time of the batch that opened it, and every batch since. */
  datatype Filling<P> = Filling(first: int, parts: seq<P>)

  datatype Slot<P> = Slot(index: int, bucket: Filling<P>)

  datatype Win<P> = Win(open: map<int, Filling<P>>, lastSeen: int, late: nat, history: seq<Slot<P>>)

  datatype Step<P> = Batch(start: int, part: P) | Close(now: int)

  function Later(a: int, b: int): (r: int) {
    if b > a then b else a
  }

  /** Whether a batch gets a bucket. Note that a batch moves `lastSeen` before it is judged. */
  predicate Accepts<P>(g: Grid, w: Win<P>, start: int)
    requires ValidGrid(g)
  {
    start != ZERO_TIME
    && (IndexOf(g, start) in w.open || IndexOf(g, start) >= Cutoff(g, Later(w.lastSeen, start)))
  }

  function Batched<P>(g: Grid, w: Win<P>, start: int, part: P): (r: Win<P>)
    requires ValidGrid(g)
  {
    if start == ZERO_TIME then w
    else
      var i, seen := IndexOf(g, start), Later(w.lastSeen, start);
      if i in w.open then w.(open := w.open[i := w.open[i].(parts := w.open[i].parts + [part])], lastSeen := seen)
      else if i < Cutoff(g, seen) then w.(lastSeen := seen, late := w.late + 1)
      else w.(open := w.open[i := Filling(start, [part])], lastSeen := seen)
  }

  ghost function Any<T>(s: set<T>): (r: T)
    requires s != {}
    ensures r in s
  {
    var x :| x in s;
    x
  }

  ghost predicate IsLeast(m: int, s: set<int>) {
    m in s && forall x :: x in s ==> m <= x
  }

  ghost function Least(s: set<int>): (r: int)
    requires s != {}
    ensures IsLeast(r, s)
  {
    HasLeast(s);
    var m :| IsLeast(m, s);
    m
  }

  lemma {:induction false} HasLeast(s: set<int>)
    requires s != {}
    ensures exists m :: IsLeast(m, s)
  {
    var y := Any(s);
    var rest := s - {y};
    assert s == rest + {y};
    if rest == {} {
      assert IsLeast(y, s);
    } else {
      HasLeast(rest);
      var m :| IsLeast(m, rest);
      assert IsLeast(if m < y then m else y, s);
    }
  }

  /** A set of indices in ascending order. */
  ghost function Ascending(s: set<int>): (r: seq<int>)
    ensures forall x :: x in r <==> x in s
    ensures forall i :: 0 <= i < |r| ==> r[i] in s
    ensures forall i, j :: 0 <= i < j < |r| ==> r[i] < r[j]
    decreases |s|
  {
    if s == {} then []
    else
      var rest := Ascending(s - {Least(s)});
      assert forall i :: 0 <= i < |rest| ==> rest[i] in s - {Least(s)};
      [Least(s)] + rest
  }

  ghost function Slots<P>(open: map<int, Filling<P>>, order: seq<int>): (r: seq<Slot<P>>)
    requires forall k :: 0 <= k < |order| ==> order[k] in open
  {
    seq(|order|, i requires 0 <= i < |order| => Slot(order[i], open[order[i]]))
  }

  ghost function Stale<P>(g: Grid, w: Win<P>, now: int): (r: set<int>)
    requires ValidGrid(g)
  {
    set i | i in w.open && i < Cutoff(g, now)
  }

  ghost function Closed<P>(g: Grid, w: Win<P>, now: int): (r: Win<P>)
    requires ValidGrid(g)
  {
    var ready := Stale(g, w, now);
    w.(open := w.open - ready, history := w.history + Slots(w.open, Ascending(ready)))
  }

  ghost function Next<P>(g: Grid, w: Win<P>, e: Step<P>): (r: Win<P>)
    requires ValidGrid(g)
  {
    match e
    case Batch(start, part) => Batched(g, w, start, part)
    case Close(now) => Closed(g, w, now)
  }

  ghost function Run<P>(g: Grid, steps: seq<Step<P>>): (r: Win<P>)
    requires ValidGrid(g)
  {
    if steps == [] then Win(map[], ZERO_TIME, 0, [])
    else Next(g, Run(g, steps[..|steps| - 1]), steps[|steps| - 1])
  }

  // ---------------------------------------------------------------------------
  // No accepted batch is lost
  // ---------------------------------------------------------------------------

  /** Every batch of one index that was ever accepted, in order. */
  ghost function AcceptedAt<P>(g: Grid, steps: seq<Step<P>>, i: int): (r: seq<P>)
    requires ValidGrid(g)
  {
    if steps == [] then []
    else
      var rest, e := steps[..|steps| - 1], steps[|steps| - 1];
      AcceptedAt(g, rest, i) +
        if e.Batch? && IndexOf(g, e.start) == i && Accepts(g, Run(g, rest), e.start) then [e.part] else []
  }

  function FiledUnder<P>(history: seq<Slot<P>>, i: int): (r: seq<P>) {
    if history == [] then []
    else
      var last := history[|history| - 1];
      FiledUnder(history[..|history| - 1], i) + if last.index == i then last.bucket.parts else []
  }

  function OpenUnder<P>(open: map<int, Filling<P>>, i: int): (r: seq<P>) {
    if i in open then open[i].parts else []
  }

  lemma {:induction false} FiledApart<P>(a: seq<Slot<P>>, b: seq<Slot<P>>, i: int)
    ensures FiledUnder(a + b, i) == FiledUnder(a, i) + FiledUnder(b, i)
  {
    if b == [] {
      assert a + b == a;
    } else {
      var n := |b| - 1;
      FiledApart(a, b[..n], i);
      assert (a + b)[..|a + b| - 1] == a + b[..n];
    }
  }

  lemma {:induction false} FiledOnce<P>(open: map<int, Filling<P>>, order: seq<int>, i: int)
    requires forall k :: 0 <= k < |order| ==> order[k] in open
    requires forall k, l :: 0 <= k < l < |order| ==> order[k] < order[l]
    ensures FiledUnder(Slots(open, order), i) == if i in order then open[i].parts else []
  {
    if order != [] {
      var n := |order| - 1;
      FiledOnce(open, order[..n], i);
      assert Slots(open, order)[..n] == Slots(open, order[..n]);
      assert order == order[..n] + [order[n]];
    }
  }

  lemma BatchFiled<P>(g: Grid, w: Win<P>, start: int, part: P, i: int)
    requires ValidGrid(g)
    ensures Batched(g, w, start, part).history == w.history
    ensures OpenUnder(Batched(g, w, start, part).open, i) == OpenUnder(w.open, i) +
      if IndexOf(g, start) == i && Accepts(g, w, start) then [part] else []
  {
  }

  lemma CloseFiled<P>(g: Grid, w: Win<P>, now: int, i: int)
    requires ValidGrid(g)
    ensures var r := Closed(g, w, now);
      FiledUnder(r.history, i) + OpenUnder(r.open, i) == FiledUnder(w.history, i) + OpenUnder(w.open, i)
  {
    var order := Ascending(Stale(g, w, now));
    FiledApart(w.history, Slots(w.open, order), i);
    FiledOnce(w.open, order, i);
  }

  /**
   An accepted batch is in its bucket, open or finalised, and nowhere else; the batches of an index keep their order.
   */
  lemma {:induction false} NothingLost<P>(g: Grid, steps: seq<Step<P>>, i: int)
    requires ValidGrid(g)
    ensures var w := Run(g, steps);
      FiledUnder(w.history, i) + OpenUnder(w.open, i) == AcceptedAt(g, steps, i)
  {
    if steps != [] {
      var rest, e := steps[..|steps| - 1], steps[|steps| - 1];
      NothingLost(g, rest, i);
      match e
      case Batch(start, part) =>
        BatchFiled(g, Run(g, rest), start, part, i);
        assert AcceptedAt(g, steps, i) == AcceptedAt(g, rest, i) +
          if IndexOf(g, start) == i && Accepts(g, Run(g, rest), start) then [part] else [];
      case Close(now) =>
        CloseFiled(g, Run(g, rest), now, i);
        assert AcceptedAt(g, steps, i) == AcceptedAt(g, rest, i) + [];
    }
  }

  // ---------------------------------------------------------------------------
  // When the history is in order
  // ---------------------------------------------------------------------------

  ghost predicate InOrder<P>(history: seq<Slot<P>>) {
    forall i, j :: 0 <= i < j < |history| ==> history[i].index < history[j].index
  }

  /** The batch gets a bucket that is not there yet. */
  predicate Opens<P>(g: Grid, w: Win<P>, start: int)
    requires ValidGrid(g)
  {
    Accepts(g, w, start) && IndexOf(g, start) !in w.open
  }

  ghost predicate AboveAll<P>(history: seq<Slot<P>>, i: int) {
    forall k :: 0 <= k < |history| ==> history[k].index < i
  }

  /** Every batch that opens a bucket does so above all that have been finalised. */
  ghost predicate OpensAbove<P>(g: Grid, steps: seq<Step<P>>)
    requires ValidGrid(g)
  {
    steps != [] ==>
      var rest, e := steps[..|steps| - 1], steps[|steps| - 1];
      && OpensAbove(g, rest)
      && (e.Batch? && Opens(g, Run(g, rest), e.start) ==> AboveAll(Run(g, rest).history, IndexOf(g, e.start)))
  }

  /** The finalised indices ascend strictly, and the open ones come after them. */
  ghost predicate Orderly<P>(w: Win<P>) {
    InOrder(w.history) && forall i :: i in w.open ==> AboveAll(w.history, i)
  }

  lemma BatchOrderly<P>(g: Grid, w: Win<P>, start: int, part: P)
    requires ValidGrid(g)
    ensures Orderly(Batched(g, w, start, part))
      <==> Orderly(w) && (Opens(g, w, start) ==> AboveAll(w.history, IndexOf(g, start)))
  {
    var r := Batched(g, w, start, part);
    assert r.history == w.history;
    forall i
      ensures i in r.open <==> i in w.open || (Opens(g, w, start) && i == IndexOf(g, start))
    {
    }
  }

  /** What a close files, place by place. */
  lemma ClosedHistory<P>(g: Grid, w: Win<P>, now: int)
    requires ValidGrid(g)
    ensures var r, order := Closed(g, w, now), Ascending(Stale(g, w, now));
      && |r.history| == |w.history| + |order|
      && (forall k :: 0 <= k < |w.history| ==> r.history[k] == w.history[k])
      && (forall k :: |w.history| <= k < |r.history| ==>
            var i := order[k - |w.history|];
            r.history[k].index == i && i in w.open && i < Cutoff(g, now))
      && (forall i :: i in r.open <==> i in w.open && i >= Cutoff(g, now))
  {
    var order := Ascending(Stale(g, w, now));
    forall k | 0 <= k < |order|
      ensures order[k] in w.open && order[k] < Cutoff(g, now)
    {
      assert order[k] in Stale(g, w, now);
    }
  }

  lemma CloseKeepsOrder<P>(g: Grid, w: Win<P>, now: int)
    requires ValidGrid(g) && Orderly(w)
    ensures Orderly(Closed(g, w, now))
  {
    var r := Closed(g, w, now);
    ClosedHistory(g, w, now);
    forall k, l | 0 <= k < l < |r.history|
      ensures r.history[k].index < r.history[l].index
    {
      if k < |w.history| <= l {
        assert r.history[l].index in w.open && AboveAll(w.history, r.history[l].index);
      }
    }
    forall i | i in r.open
      ensures AboveAll(r.history, i)
    {
      assert AboveAll(w.history, i);
    }
  }

  lemma CloseReflectsOrder<P>(g: Grid, w: Win<P>, now: int)
    requires ValidGrid(g) && Orderly(Closed(g, w, now))
    ensures Orderly(w)
  {
    var r := Closed(g, w, now);
    ClosedHistory(g, w, now);
    forall i | i in w.open
      ensures AboveAll(w.history, i)
    {
      if i in r.open {
        assert AboveAll(r.history, i);
      } else {
        var k := ClosedAt(g, w, now, i);
      }
    }
  }

  /**
   When the history is in order, over every run: no index is finalised twice, the finalised ones ascend and the open
   ones come after them exactly when every batch that opens a bucket does so above all that have been finalised.
   */
  lemma {:induction false} OrderlyIff<P>(g: Grid, steps: seq<Step<P>>)
    requires ValidGrid(g)
    ensures Orderly(Run(g, steps)) <==> OpensAbove(g, steps)
  {
    if steps != [] {
      var rest, e := steps[..|steps| - 1], steps[|steps| - 1];
      OrderlyIff(g, rest);
      match e
      case Batch(start, part) => BatchOrderly(g, Run(g, rest), start, part);
      case Close(now) =>
        if Orderly(Run(g, rest)) {
          CloseKeepsOrder(g, Run(g, rest), now);
        }
        if Orderly(Run(g, steps)) {
          CloseReflectsOrder(g, Run(g, rest), now);
        }
    }
  }

  /** Every batch that opens a bucket is within its grace of every clock that buckets have been closed by. */
  ghost predicate Prompt<P>(g: Grid, steps: seq<Step<P>>)
    requires ValidGrid(g)
  {
    steps != [] ==>
      var rest, e := steps[..|steps| - 1], steps[|steps| - 1];
      && Prompt(g, rest)
      && (e.Batch? && Opens(g, Run(g, rest), e.start) ==> NotBefore(g, rest, IndexOf(g, e.start)))
  }

  ghost predicate NotBefore<P>(g: Grid, steps: seq<Step<P>>, i: int)
    requires ValidGrid(g)
  {
    forall j :: 0 <= j < |steps| && steps[j].Close? ==> i >= Cutoff(g, steps[j].now)
  }

  /** A finalised bucket was past its grace at some clock. */
  lemma {:induction false} FiledByClose<P>(g: Grid, steps: seq<Step<P>>, k: nat) returns (j: nat)
    requires ValidGrid(g) && k < |Run(g, steps).history|
    ensures j < |steps| && steps[j].Close? && Run(g, steps).history[k].index < Cutoff(g, steps[j].now)
  {
    var rest, e := steps[..|steps| - 1], steps[|steps| - 1];
    j := |steps| - 1;
    if e.Close? {
      ClosedHistory(g, Run(g, rest), e.now);
    }
    if k < |Run(g, rest).history| {
      j := FiledByClose(g, rest, k);
    }
  }

  /** Such a run is in order, however far the clock is ahead of the batches. */
  lemma {:induction false} PromptOpensAbove<P>(g: Grid, steps: seq<Step<P>>)
    requires ValidGrid(g) && Prompt(g, steps)
    ensures OpensAbove(g, steps)
  {
    if steps != [] {
      var rest, e := steps[..|steps| - 1], steps[|steps| - 1];
      PromptOpensAbove(g, rest);
      if e.Batch? && Opens(g, Run(g, rest), e.start) {
        forall k | 0 <= k < |Run(g, rest).history|
          ensures Run(g, rest).history[k].index < IndexOf(g, e.start)
        {
          var j := FiledByClose(g, rest, k);
        }
      }
    }
  }

  /** Closing now would finalise a bucket that the latest batch still leaves within its grace. */
  ghost predicate Early<P>(g: Grid, w: Win<P>, now: int)
    requires ValidGrid(g)
  {
    exists i :: i in w.open && Cutoff(g, w.lastSeen) <= i < Cutoff(g, now)
  }

  ghost predicate Timely<P>(g: Grid, steps: seq<Step<P>>)
    requires ValidGrid(g)
  {
    steps != [] ==>
      var rest, e := steps[..|steps| - 1], steps[|steps| - 1];
      Timely(g, rest) && (e.Close? ==> !Early(g, Run(g, rest), e.now))
  }

  /** A clock that is not ahead of the batches never closes early. */
  lemma OnTimeIsTimely<P>(g: Grid, w: Win<P>, now: int)
    requires ValidGrid(g) && now <= w.lastSeen
    ensures !Early(g, w, now)
  {
    IndexMonotone(g, now - g.grace, w.lastSeen - g.grace);
  }

  ghost predicate Settled<P>(g: Grid, w: Win<P>)
    requires ValidGrid(g)
  {
    && InOrder(w.history)
    && (forall k :: 0 <= k < |w.history| ==> w.history[k].index < Cutoff(g, w.lastSeen))
    && (forall k, i :: 0 <= k < |w.history| && i in w.open ==> w.history[k].index < i)
  }

  lemma SettledClose<P>(g: Grid, w: Win<P>, now: int)
    requires ValidGrid(g) && Settled(g, w) && !Early(g, w, now)
    ensures Settled(g, Closed(g, w, now))
  {
    var r := Closed(g, w, now);
    var order := Ascending(Stale(g, w, now));
    forall k | 0 <= k < |r.history|
      ensures r.history[k].index < Cutoff(g, w.lastSeen)
      ensures forall i :: i in r.open ==> r.history[k].index < i
    {
      if k >= |w.history| {
        assert order[k - |w.history|] in Stale(g, w, now);
      }
    }
    forall k, l | 0 <= k < l < |r.history|
      ensures r.history[k].index < r.history[l].index
    {
      if k < |w.history| <= l {
        assert order[l - |w.history|] in Stale(g, w, now);
      }
    }
  }

  lemma SettledBatch<P>(g: Grid, w: Win<P>, start: int, part: P)
    requires ValidGrid(g) && Settled(g, w)
    ensures Settled(g, Batched(g, w, start, part))
  {
    IndexMonotone(g, w.lastSeen - g.grace, Later(w.lastSeen, start) - g.grace);
  }

  lemma {:induction false} TimelySettles<P>(g: Grid, steps: seq<Step<P>>)
    requires ValidGrid(g) && Timely(g, steps)
    ensures Settled(g, Run(g, steps))
  {
    if steps != [] {
      var rest, e := steps[..|steps| - 1], steps[|steps| - 1];
      TimelySettles(g, rest);
      match e
      case Batch(start, part) => SettledBatch(g, Run(g, rest), start, part);
      case Close(now) => SettledClose(g, Run(g, rest), now);
    }
  }

  /** In particular the history is in order as long as no close is early. */
  lemma TimelyOpensAbove<P>(g: Grid, steps: seq<Step<P>>)
    requires ValidGrid(g) && Timely(g, steps)
    ensures OpensAbove(g, steps) && Orderly(Run(g, steps))
  {
    TimelySettles(g, steps);
    OrderlyIff(g, steps);
  }

  /** An open bucket has the index of the batch that opened it, which was not after the latest. */
  ghost predicate Opened<P>(g: Grid, w: Win<P>)
    requires ValidGrid(g)
  {
    forall i :: i in w.open ==>
      w.open[i].first != ZERO_TIME && w.open[i].first <= w.lastSeen && IndexOf(g, w.open[i].first) == i
  }

  lemma {:induction false} RunOpened<P>(g: Grid, steps: seq<Step<P>>)
    requires ValidGrid(g)
    ensures Opened(g, Run(g, steps))
  {
    if steps != [] {
      RunOpened(g, steps[..|steps| - 1]);
    }
  }

  /** Some batch would now open a bucket under an index that is already finalised. */
  ghost predicate Reopenable<P>(g: Grid, w: Win<P>)
    requires ValidGrid(g)
  {
    exists start, k :: Reopens(g, w, start, k)
  }

  ghost predicate Reopens<P>(g: Grid, w: Win<P>, start: int, k: int)
    requires ValidGrid(g)
  {
    0 <= k < |w.history| && IndexOf(g, start) == w.history[k].index && Opens(g, w, start)
  }

  /** A finalised index that is not open again is still within its grace by the latest batch. */
  ghost predicate StillDue<P>(g: Grid, w: Win<P>)
    requires ValidGrid(g)
  {
    exists k :: DueAt(g, w, k)
  }

  ghost predicate DueAt<P>(g: Grid, w: Win<P>, k: int)
    requires ValidGrid(g)
  {
    0 <= k < |w.history| && w.history[k].index !in w.open && w.history[k].index >= Cutoff(g, w.lastSeen)
  }

  /** Every bucket, open or finalised, has the index of a dated batch that opened it. */
  ghost predicate Rooted<P>(g: Grid, w: Win<P>)
    requires ValidGrid(g)
  {
    && Opened(g, w)
    && forall k :: 0 <= k < |w.history| ==>
         w.history[k].bucket.first != ZERO_TIME && w.history[k].bucket.first <= w.lastSeen
         && IndexOf(g, w.history[k].bucket.first) == w.history[k].index
  }

  lemma RootedClose<P>(g: Grid, w: Win<P>, now: int)
    requires ValidGrid(g) && Rooted(g, w)
    ensures Rooted(g, Closed(g, w, now))
  {
    var r := Closed(g, w, now);
    var order := Ascending(Stale(g, w, now));
    forall k | |w.history| <= k < |r.history|
      ensures r.history[k].index in w.open && r.history[k].bucket == w.open[r.history[k].index]
    {
      assert order[k - |w.history|] in Stale(g, w, now);
    }
  }

  lemma {:induction false} RunRooted<P>(g: Grid, steps: seq<Step<P>>)
    requires ValidGrid(g)
    ensures Rooted(g, Run(g, steps))
  {
    if steps != [] {
      var rest, e := steps[..|steps| - 1], steps[|steps| - 1];
      RunRooted(g, rest);
      if e.Close? {
        RootedClose(g, Run(g, rest), e.now);
      }
    }
  }

  /** The batch that opened a bucket, sent once more, reopens it if the index is still due. */
  lemma DueReopens<P>(g: Grid, w: Win<P>, k: int)
    requires ValidGrid(g) && Rooted(g, w) && DueAt(g, w, k)
    ensures Reopens(g, w, w.history[k].bucket.first, k)
  {
  }

  lemma ReopensDue<P>(g: Grid, w: Win<P>, start: int, k: int)
    requires ValidGrid(g) && Reopens(g, w, start, k)
    ensures DueAt(g, w, k)
  {
    IndexMonotone(g, w.lastSeen - g.grace, Later(w.lastSeen, start) - g.grace);
  }

  /**
   Over every run, some batch would open a bucket under a finalised index exactly when one of them, not open again, is
   still within its grace by the latest batch: lateness is measured from that on arrival, but from the clock on closing.
   */
  lemma ReopenableIff<P>(g: Grid, steps: seq<Step<P>>)
    requires ValidGrid(g)
    ensures Reopenable(g, Run(g, steps)) <==> StillDue(g, Run(g, steps))
  {
    var w := Run(g, steps);
    RunRooted(g, steps);
    if StillDue(g, w) {
      var k :| DueAt(g, w, k);
      DueReopens(g, w, k);
    }
    if Reopenable(g, w) {
      var start, k :| Reopens(g, w, start, k);
      ReopensDue(g, w, start, k);
    }
  }

  /** The batch that opened an early-closed bucket, sent once more, reopens it. */
  lemma EarlyReopens<P>(g: Grid, w: Win<P>, now: int, i: int) returns (k: int)
    requires ValidGrid(g) && Opened(g, w)
    requires i in w.open && Cutoff(g, w.lastSeen) <= i < Cutoff(g, now)
    ensures var r := Closed(g, w, now);
      Reopens(g, r, w.open[i].first, k) && |w.history| <= k && r.history[k].index == i
  {
    var order := Ascending(Stale(g, w, now));
    assert i in Stale(g, w, now);
    var n :| 0 <= n < |order| && order[n] == i;
    k := |w.history| + n;
  }

  /** A close brings this about exactly when it is early, and never ends it, whatever came before. */
  lemma ReopenableIffEarly<P>(g: Grid, steps: seq<Step<P>>, now: int)
    requires ValidGrid(g)
    ensures Reopenable(g, Run(g, steps + [Close(now)]))
      <==> Early(g, Run(g, steps), now) || Reopenable(g, Run(g, steps))
  {
    var w := Run(g, steps);
    var r := Closed(g, w, now);
    assert (steps + [Close(now)])[..|steps|] == steps;
    RunRooted(g, steps);
    ReopenableIff(g, steps);
    ReopenableIff(g, steps + [Close(now)]);
    ClosedHistory(g, w, now);
    if Early(g, w, now) {
      var i :| i in w.open && Cutoff(g, w.lastSeen) <= i < Cutoff(g, now);
      var k := EarlyReopens(g, w, now, i);
    }
    if StillDue(g, w) {
      var k :| DueAt(g, w, k);
      assert DueAt(g, r, k);
    }
    if StillDue(g, r) {
      var k :| DueAt(g, r, k);
      DueBeforeClose(g, w, now, k);
    }
  }

  lemma DueBeforeClose<P>(g: Grid, w: Win<P>, now: int, k: int)
    requires ValidGrid(g) && DueAt(g, Closed(g, w, now), k)
    ensures Early(g, w, now) || DueAt(g, w, k)
  {
    ClosedHistory(g, w, now);
    var i := Closed(g, w, now).history[k].index;
    if i in w.open {
      assert Cutoff(g, w.lastSeen) <= i < Cutoff(g, now);
    }
  }

  /** The batch would open a bucket that is not above all that have been finalised. */
  ghost predicate Breaks<P>(g: Grid, w: Win<P>, start: int)
    requires ValidGrid(g)
  {
    Opens(g, w, start) && !AboveAll(w.history, IndexOf(g, start))
  }

  lemma ReopensBreaks<P>(g: Grid, w: Win<P>, start: int, k: int)
    requires ValidGrid(g) && Reopens(g, w, start, k)
    ensures Breaks(g, w, start)
  {
  }

  lemma BreaksDue<P>(g: Grid, w: Win<P>, start: int) returns (k: int)
    requires ValidGrid(g) && Orderly(w) && Breaks(g, w, start)
    ensures DueAt(g, w, k)
  {
    IndexMonotone(g, w.lastSeen - g.grace, Later(w.lastSeen, start) - g.grace);
    k :| 0 <= k < |w.history| && w.history[k].index >= IndexOf(g, start);
    var i := w.history[k].index;
    if i in w.open {
      assert AboveAll(w.history, i);
    }
  }

  /**
   In a run that is in order so far, some batch could break the order exactly when some batch could reopen a bucket.
   */
  lemma BreakableIffReopenable<P>(g: Grid, steps: seq<Step<P>>)
    requires ValidGrid(g) && OpensAbove(g, steps)
    ensures Reopenable(g, Run(g, steps)) <==> exists start :: Breaks(g, Run(g, steps), start)
  {
    var w := Run(g, steps);
    if Reopenable(g, w) {
      var start, k :| Reopens(g, w, start, k);
      ReopensBreaks(g, w, start, k);
    }
    if start :| Breaks(g, w, start) {
      OrderlyIff(g, steps);
      RunRooted(g, steps);
      var k := BreaksDue(g, w, start);
      DueReopens(g, w, k);
    }
  }

  /** Closing files a stale bucket at some place after all that was filed before. */
  lemma ClosedAt<P>(g: Grid, w: Win<P>, now: int, i: int) returns (k: int)
    requires ValidGrid(g) && i in w.open && i < Cutoff(g, now)
    ensures |w.history| <= k < |Closed(g, w, now).history| && Closed(g, w, now).history[k].index == i
  {
    var order := Ascending(Stale(g, w, now));
    assert i in order;
    var n :| 0 <= n < |order| && order[n] == i;
    k := |w.history| + n;
  }

  ghost predicate Twice<P>(history: seq<Slot<P>>, k: int, l: int) {
    0 <= k < l < |history| && history[k].index == history[l].index
  }

  /** Close early, send the batch that opened the bucket again, close: the index is finalised a second time. */
  lemma EarlyRepeats<P>(g: Grid, w: Win<P>, now: int, part: P) returns (start: int, k: int, l: int)
    requires ValidGrid(g) && Opened(g, w) && Early(g, w, now)
    ensures var h := Closed(g, Batched(g, Closed(g, w, now), start, part), now).history;
      Twice(h, k, l) && !InOrder(h)
  {
    var i :| i in w.open && Cutoff(g, w.lastSeen) <= i < Cutoff(g, now);
    start := w.open[i].first;
    k := EarlyReopens(g, w, now, i);
    var again := Batched(g, Closed(g, w, now), start, part);
    l := ClosedAt(g, again, now, i);
  }

  // ---------------------------------------------------------------------------
  // Bucket starts
  // ---------------------------------------------------------------------------

  // A bucket's index counts from the Unix epoch, its start is rounded from the zero time.

  predicate Aligned(g: Grid)
    requires ValidGrid(g)
  {
    ZERO_TIME % g.resolution == 0
  }

  lemma ModShift(t: int, z: int, d: int)
    requires d > 0 && z % d == 0
    ensures (t - z) % d == t % d
  {
    var q := z / d;
    assert z == q * d;
    assert t == t / d * d + t % d;
    ModUnique(t - z, t / d - q, t % d, d);
  }

  lemma AlignedStart(g: Grid, t: int)
    requires ValidGrid(g) && Aligned(g) && t >= 0
    ensures Truncated(g, t) == IndexOf(g, t) * g.resolution
  {
    ModShift(t, ZERO_TIME, g.resolution);
  }

  /** A start is the latest point of its grid not after the time; an index counts whole resolutions since the epoch. */
  lemma GridFacts(g: Grid, t: int)
    requires ValidGrid(g)
    ensures Truncated(g, t) <= t < Truncated(g, t) + g.resolution
    ensures (Truncated(g, t) - ZERO_TIME) % g.resolution == 0
    ensures t >= 0 ==> IndexOf(g, t) * g.resolution <= t < IndexOf(g, t) * g.resolution + g.resolution
    ensures IndexOf(g, -t) == -IndexOf(g, t)
  {
    var x := t - ZERO_TIME;
    var q := x / g.resolution;
    assert x == q * g.resolution + x % g.resolution;
    ModUnique(Truncated(g, t) - ZERO_TIME, q, 0, g.resolution);
    ModUnique(0, 0, 0, g.resolution);
  }

  /** Buckets of different indices have starts in the same order. */
  ghost predicate StartsFollow(g: Grid, t: int, u: int)
    requires ValidGrid(g)
  {
    IndexOf(g, t) < IndexOf(g, u) ==> Truncated(g, t) < Truncated(g, u)
  }

  /**
   Bucket starts after the epoch follow the indices exactly when the resolution divides the zero time;
   with any other resolution two neighbouring buckets can show the same start.
   */
  lemma StartsFollowIffAligned(g: Grid)
    requires ValidGrid(g)
    ensures Aligned(g) <==> forall t, u :: 0 <= t && 0 <= u ==> StartsFollow(g, t, u)
  {
    if Aligned(g) {
      forall t, u | 0 <= t && 0 <= u
        ensures StartsFollow(g, t, u)
      {
        AlignedStart(g, t);
        AlignedStart(g, u);
        if IndexOf(g, t) < IndexOf(g, u) {
          assert (IndexOf(g, u) - IndexOf(g, t)) * g.resolution >= g.resolution;
        }
      }
    } else {
      SameStart(g);
      assert !StartsFollow(g, g.resolution - 1, g.resolution);
    }
  }

  lemma SameStart(g: Grid)
    requires ValidGrid(g) && !Aligned(g)
    ensures IndexOf(g, g.resolution - 1) == 0 && IndexOf(g, g.resolution) == 1
    ensures Truncated(g, g.resolution - 1) == Truncated(g, g.resolution)
  {
    var d := g.resolution;
    var q, m := ZERO_TIME / d, ZERO_TIME % d;
    assert ZERO_TIME == q * d + m;
    ModUnique(d - 1, 0, d - 1, d);
    ModUnique(d, 1, 0, d);
    assert (0 - q) * d == -(q * d);
    ModUnique(d - ZERO_TIME, -q, d - m, d);
    ModUnique(d - 1 - ZERO_TIME, -q, d - 1 - m, d);
  }

  /** From the epoch on, a bucket is past its grace once its whole resolution and the grace have passed. */
  lemma PastGraceIff(g: Grid, i: nat, t: int)
    requires ValidGrid(g)
    ensures i < Cutoff(g, t) <==> i * g.resolution + g.resolution + g.grace <= t
  {
    var u := t - g.grace;
    if u >= 0 {
      assert u == IndexOf(g, u) * g.resolution + u % g.resolution;
      if i < IndexOf(g, u) {
        Distribute(IndexOf(g, u), i, g.resolution);
        MulAtLeast(IndexOf(g, u) - i, g.resolution);
      } else if i > IndexOf(g, u) {
        Distribute(i, IndexOf(g, u), g.resolution);
        MulAtLeast(i - IndexOf(g, u), g.resolution);
      }
    } else {
      assert i * g.resolution >= 0;
    }
  }

  // ---------------------------------------------------------------------------
  // What is counted
  // ---------------------------------------------------------------------------

  /** The latest start of a dated batch. */
  function LatestStart<P>(steps: seq<Step<P>>): (r: int) {
    if steps == [] then ZERO_TIME
    else
      var seen, e := LatestStart(steps[..|steps| - 1]), steps[|steps| - 1];
      if e.Batch? && e.start != ZERO_TIME && e.start > seen then e.start else seen
  }

  /** Dated batches. */
  function DatedBatches<P>(steps: seq<Step<P>>): (r: nat) {
    if steps == [] then 0
    else
      var e := steps[|steps| - 1];
      DatedBatches(steps[..|steps| - 1]) + if e.Batch? && e.start != ZERO_TIME then 1 else 0
  }

  /** Batches that got a bucket. */
  ghost function AcceptedBatches<P>(g: Grid, steps: seq<Step<P>>): (r: nat)
    requires ValidGrid(g)
  {
    if steps == [] then 0
    else
      var rest, e := steps[..|steps| - 1], steps[|steps| - 1];
      AcceptedBatches(g, rest) + if e.Batch? && Accepts(g, Run(g, rest), e.start) then 1 else 0
  }

  /**
   Over every run, a dated batch either gets a bucket or is counted as late, and lateness goes by the latest dated
   start.
   */
  lemma {:induction false} EveryBatchCounts<P>(g: Grid, steps: seq<Step<P>>)
    requires ValidGrid(g)
    ensures Run(g, steps).lastSeen == LatestStart(steps)
    ensures Run(g, steps).late + AcceptedBatches(g, steps) == DatedBatches(steps)
  {
    if steps != [] {
      EveryBatchCounts(g, steps[..|steps| - 1]);
    }
  }
}
