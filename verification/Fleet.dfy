/**
 The whole pipeline: any number of recording nodes, and the coordinator's cumulative store.

 A run of the fleet interleaves the nodes' lock sections with deliveries. Every batch is
 delivered at most once, in any order, its series in any order, and is accepted or refused as a whole.
 */
module Fleet {

  import opened Aggregates
  import opened Maps
  import opened RecorderMachine
  import opened Wire
  import B = Buckets
  import SB = StoreBuckets

  // ---------------------------------------------------------------------------
  // The cumulative store
  // ---------------------------------------------------------------------------

  function LandCell(t: Cell, c: Cell): (r: Cell) {
    Cell(LandAgg(t.agg, SentOf(c.agg)), t.log + c.log)
  }

  /** One series of a batch: a new series is dropped once the store holds `cap` of them. */
  function Absorbed<S>(cum: map<S, Cell>, s: S, c: Cell, cap: nat, L: Layout): (r: map<S, Cell>) {
    if s in cum then cum[s := LandCell(cum[s], c)]
    else if |cum| >= cap then cum
    else cum[s := LandCell(NewCell(c.agg.kind, L), c)]
  }

  function AbsorbedAll<S>(cum: map<S, Cell>, batch: map<S, Cell>, order: seq<S>, cap: nat, L: Layout): (r: map<S, Cell>)
    requires forall i :: 0 <= i < |order| ==> order[i] in batch
  {
    if order == [] then cum
    else
      var n := |order| - 1;
      Absorbed(AbsorbedAll(cum, batch, order[..n], cap, L), order[n], batch[order[n]], cap, L)
  }

  /** The order lists these keys, each once. */
  ghost predicate Orders<S(!new)>(order: seq<S>, keys: set<S>) {
    && (forall i, j :: 0 <= i < j < |order| ==> order[i] != order[j])
    && (forall s :: s in order <==> s in keys)
  }

  /** What has become of one series after part of a batch. */
  ghost predicate AbsorbedOf<S>(cum: map<S, Cell>, r: map<S, Cell>, batch: map<S, Cell>, order: seq<S>, cap: nat,
                                L: Layout, s: S)
  {
    && cum.Keys <= r.Keys && |cum| <= |r| <= cap && (|cum| == cap ==> r.Keys == cum.Keys)
    && (s in order ==> s in batch)
    && (s in cum ==> r[s] == if s in order then LandCell(cum[s], batch[s]) else cum[s])
    && (s !in cum && s in r ==> s in order && r[s] == LandCell(NewCell(batch[s].agg.kind, L), batch[s]))
    && (s in order && s !in r ==> |r| == cap)
  }

  lemma AbsorbedKeys<S>(mid: map<S, Cell>, t: S, c: Cell, cap: nat, L: Layout)
    requires |mid| <= cap
    ensures var r := Absorbed(mid, t, c, cap, L);
      && |mid| <= |r| <= cap
      && r.Keys == (if t in mid || |mid| < cap then mid.Keys + {t} else mid.Keys)
  {
    if t in mid {
      PutKeys(mid, t, LandCell(mid[t], c));
    } else if |mid| < cap {
      PutKeys(mid, t, LandCell(NewCell(c.agg.kind, L), c));
    }
  }

  lemma AbsorbOne<S>(cum: map<S, Cell>, mid: map<S, Cell>, batch: map<S, Cell>, order: seq<S>, t: S, cap: nat,
                     L: Layout, s: S)
    requires AbsorbedOf(cum, mid, batch, order, cap, L, s) && t in batch && t !in order
    ensures AbsorbedOf(cum, Absorbed(mid, t, batch[t], cap, L), batch, order + [t], cap, L, s)
  {
    AbsorbedKeys(mid, t, batch[t], cap, L);
    assert s in order + [t] <==> s in order || s == t;
    assert cum.Keys <= mid.Keys && |cum.Keys| == |cum| && |mid.Keys| == |mid|;
  }

  /** What one batch does to one series, whichever order the batch is read in. */
  lemma {:induction false} AbsorbedAt<S>(cum: map<S, Cell>, batch: map<S, Cell>, order: seq<S>, cap: nat, L: Layout,
                                         s: S)
    requires forall i :: 0 <= i < |order| ==> order[i] in batch
    requires forall i, j :: 0 <= i < j < |order| ==> order[i] != order[j]
    requires |cum| <= cap
    ensures AbsorbedOf(cum, AbsorbedAll(cum, batch, order, cap, L), batch, order, cap, L, s)
  {
    if order != [] {
      var n := |order| - 1;
      AbsorbedAt(cum, batch, order[..n], cap, L, s);
      AbsorbOne(cum, AbsorbedAll(cum, batch, order[..n], cap, L), batch, order[..n], order[n], cap, L, s);
      assert order == order[..n] + [order[n]];
    }
  }

  /** A node's batch as it arrives, series by series. */
  ghost function Arriving(batch: map<Series, Cell>, order: seq<Series>): (r: seq<B.Sample>)
    requires forall i :: 0 <= i < |order| ==> order[i] in batch
  {
    seq(|order|, i requires 0 <= i < |order| => B.Sample(order[i], SentOf(batch[order[i]].agg)))
  }

  /** The batch a flush lists is, delta by delta, the batch that arrives. */
  lemma ListedArrives(listed: seq<(Series, Agg)>, cells: map<Series, Cell>) returns (order: seq<Series>)
    requires Lists(listed, cells)
    ensures |order| == |listed| && Orders(order, cells.Keys) && forall i :: 0 <= i < |order| ==> order[i] in cells
    ensures forall i :: 0 <= i < |order| ==> Arriving(cells, order)[i] == B.Sample(listed[i].0, SentOf(listed[i].1))
  {
    order := seq(|listed|, i requires 0 <= i < |listed| => listed[i].0);
    forall s | s in cells
      ensures s in order
    {
      var i :| 0 <= i < |listed| && listed[i].0 == s;
      assert order[i] == s;
    }
  }

  lemma AggsAbsorbed(cum: map<Series, Cell>, s: Series, c: Cell, cap: nat, L: Layout)
    ensures Aggs(Absorbed(cum, s, c, cap, L)) == AbsorbAgg(Aggs(cum), s, SentOf(c.agg), cap, L)
  {
    assert Aggs(cum).Keys == cum.Keys;
    assert |Aggs(cum)| == |Aggs(cum).Keys| && |cum| == |cum.Keys|;
  }

  /** What the store's ingestion does with an arriving batch is what the fleet's step does with the batch sent. */
  lemma {:induction false} StoreAbsorbs(cum: map<Series, Cell>, batch: map<Series, Cell>, order: seq<Series>,
                                        cap: nat, L: Layout)
    requires forall i :: 0 <= i < |order| ==> order[i] in batch
    ensures SB.Absorb(Aggs(cum), Arriving(batch, order), cap, L) == Aggs(AbsorbedAll(cum, batch, order, cap, L))
  {
    if order != [] {
      var n := |order| - 1;
      StoreAbsorbs(cum, batch, order[..n], cap, L);
      assert Arriving(batch, order)[..n] == Arriving(batch, order[..n]);
      AggsAbsorbed(AbsorbedAll(cum, batch, order[..n], cap, L), order[n], batch[order[n]], cap, L);
    }
  }

  // ---------------------------------------------------------------------------
  // Runs of the fleet
  // ---------------------------------------------------------------------------

  datatype Fate = Waiting | Accepted | TurnedAway

  /** A recorder and what became of each batch it has flushed. */
  datatype Node<S, K> = Node(rec: Rec<S, K>, fates: seq<Fate>)

  datatype Fleet<S, K> = Fleet(nodes: seq<Node<S, K>>, cum: map<S, Cell>)

  /** What is the same for a whole run: every node's settings, and the store's cap and layout. */
  datatype Setup<!S, !K> = Setup(nodes: seq<Settings<S, K>>, cap: nat, layout: Layout)

  ghost predicate ValidSetup<S, K>(c: Setup<S, K>) {
    forall n :: 0 <= n < |c.nodes| ==> ValidSettings(c.nodes[n]) && c.nodes[n].layout == c.layout
  }

  datatype Event<S> =
    | Work(node: nat, step: Step<S>)
    | Deliver(node: nat, batch: nat, order: seq<S>, accepted: bool)

  predicate Fits<S, K>(cfg: Settings<S, K>, d: Node<S, K>) {
    |d.rec.shards| == cfg.shards && |d.fates| == |d.rec.out|
  }

  ghost predicate Sound<S, K>(c: Setup<S, K>, f: Fleet<S, K>) {
    && ValidSetup(c) && |f.nodes| == |c.nodes|
    && (forall n :: 0 <= n < |f.nodes| ==> Fits(c.nodes[n], f.nodes[n]))
  }

  ghost predicate Deliverable<S(!new), K>(f: Fleet<S, K>, e: Event<S>) {
    && e.Deliver? && e.node < |f.nodes|
    && var d := f.nodes[e.node];
       |d.fates| == |d.rec.out| && e.batch < |d.fates| && d.fates[e.batch] == Waiting
       && Orders(e.order, d.rec.out[e.batch].Keys)
  }

  function Worked<S, K>(cfg: Settings<S, K>, d: Node<S, K>, e: Step<S>): (r: Node<S, K>)
    requires ValidSettings(cfg) && Fits(cfg, d)
    ensures Fits(cfg, r)
  {
    var rec := Next(cfg, d.rec, e);
    Node(rec, if |rec.out| == |d.rec.out| then d.fates else d.fates + [Waiting])
  }

  /** The same with one batch's fate decided. */
  function Fated<S, K>(f: Fleet<S, K>, n: nat, b: nat, fate: Fate): (r: Fleet<S, K>)
    requires n < |f.nodes| && b < |f.nodes[n].fates|
  {
    var d := f.nodes[n];
    f.(nodes := f.nodes[n := d.(fates := d.fates[b := fate])])
  }

  ghost function Happened<S(!new), K>(c: Setup<S, K>, f: Fleet<S, K>, e: Event<S>): (r: Fleet<S, K>)
    requires Sound(c, f)
    ensures Sound(c, r)
  {
    match e
    case Work(n, step) =>
      if n < |f.nodes| then f.(nodes := f.nodes[n := Worked(c.nodes[n], f.nodes[n], step)]) else f
    case Deliver(n, b, order, accepted) =>
      if !Deliverable(f, e) then f
      else
        var f' := Fated(f, n, b, if accepted then Accepted else TurnedAway);
        if accepted then f'.(cum := AbsorbedAll(f.cum, f.nodes[n].rec.out[b], order, c.cap, c.layout)) else f'
  }

  ghost function Run<S(!new), K>(c: Setup<S, K>, events: seq<Event<S>>): (r: Fleet<S, K>)
    requires ValidSetup(c)
    ensures Sound(c, r)
  {
    if events == [] then
      Fleet(seq(|c.nodes|, n requires 0 <= n < |c.nodes| => Node(Initial(c.nodes[n]), [])), map[])
    else Happened(c, Run(c, events[..|events| - 1]), events[|events| - 1])
  }

  /** What one node did in a run of the fleet. */
  function StepsOf<S>(events: seq<Event<S>>, n: nat): (r: seq<Step<S>>) {
    if events == [] then []
    else
      var e := events[|events| - 1];
      StepsOf(events[..|events| - 1], n) + if e.Work? && e.node == n then [e.step] else []
  }

  /** A node's part of the fleet's run is a run of its recorder. */
  lemma {:induction false} NodeRuns<S(!new), K>(c: Setup<S, K>, events: seq<Event<S>>, n: nat)
    requires ValidSetup(c) && n < |c.nodes|
    ensures Run(c, events).nodes[n].rec == RecorderMachine.Run(c.nodes[n], StepsOf(events, n))
  {
    if events != [] {
      var e := events[|events| - 1];
      var before := StepsOf(events[..|events| - 1], n);
      NodeRuns(c, events[..|events| - 1], n);
      if e.Work? && e.node == n {
        assert (before + [e.step])[..|before|] == before;
      } else {
        assert before + [] == before;
      }
    }
  }

  // ---------------------------------------------------------------------------
  // Where accepted observations are counted
  // ---------------------------------------------------------------------------

  /** How often the accepted batches of one node hold an observation of a series. */
  function AcceptedIn<S>(out: seq<map<S, Cell>>, fates: seq<Fate>, s: S, o: Obs): (r: nat)
    requires |out| == |fates|
  {
    if out == [] then 0
    else
      var n := |out| - 1;
      AcceptedIn(out[..n], fates[..n], s, o) + if fates[n].Accepted? then At(out[n], s, o) else 0
  }

  function AcceptedBy<S, K>(nodes: seq<Node<S, K>>, s: S, o: Obs): (r: nat)
    requires forall n :: 0 <= n < |nodes| ==> |nodes[n].rec.out| == |nodes[n].fates|
  {
    if nodes == [] then 0
    else
      var n := |nodes| - 1;
      AcceptedBy(nodes[..n], s, o) + AcceptedIn(nodes[n].rec.out, nodes[n].fates, s, o)
  }

  lemma {:induction false} AcceptedUpdate<S, K>(nodes: seq<Node<S, K>>, n: nat, d: Node<S, K>, s: S, o: Obs)
    requires n < |nodes| && |d.rec.out| == |d.fates|
    requires forall n :: 0 <= n < |nodes| ==> |nodes[n].rec.out| == |nodes[n].fates|
    ensures AcceptedBy(nodes[n := d], s, o) == AcceptedBy(nodes, s, o)
      - AcceptedIn(nodes[n].rec.out, nodes[n].fates, s, o) + AcceptedIn(d.rec.out, d.fates, s, o)
  {
    var last := |nodes| - 1;
    if n == last {
      assert nodes[n := d][..last] == nodes[..last];
    } else {
      AcceptedUpdate(nodes[..last], n, d, s, o);
      assert nodes[n := d][..last] == nodes[..last][n := d];
    }
  }

  lemma {:induction false} FateUpdate<S>(out: seq<map<S, Cell>>, fates: seq<Fate>, b: nat, fate: Fate, s: S, o: Obs)
    requires |out| == |fates| && b < |fates| && !fates[b].Accepted?
    ensures AcceptedIn(out, fates[b := fate], s, o)
         == AcceptedIn(out, fates, s, o) + if fate.Accepted? then At(out[b], s, o) else 0
  {
    var last := |out| - 1;
    if b == last {
      assert fates[b := fate][..last] == fates[..last];
    } else {
      FateUpdate(out[..last], fates[..last], b, fate, s, o);
      assert fates[b := fate][..last] == fates[..last][b := fate];
    }
  }

  /** A node's own steps leave its accepted batches alone. */
  lemma WorkedAccepts<S, K>(cfg: Settings<S, K>, d: Node<S, K>, e: Step<S>, s: S, o: Obs)
    requires ValidSettings(cfg) && Fits(cfg, d)
    ensures var r := Worked(cfg, d, e); AcceptedIn(r.rec.out, r.fates, s, o) == AcceptedIn(d.rec.out, d.fates, s, o)
  {
    var r := Worked(cfg, d, e);
    if |r.rec.out| != |d.rec.out| {
      var n := |d.rec.out|;
      assert r.rec.out[..n] == d.rec.out && r.fates[..n] == d.fates;
    }
  }

  /** Some accepted batch carries the series. */
  ghost predicate Carried<S(!new), K>(f: Fleet<S, K>, s: S) {
    exists n, b :: CarriedIn(f, n, b, s)
  }

  ghost predicate CarriedIn<S, K>(f: Fleet<S, K>, n: nat, b: nat, s: S) {
    && n < |f.nodes| && b < |f.nodes[n].fates| && b < |f.nodes[n].rec.out|
    && f.nodes[n].fates[b].Accepted? && s in f.nodes[n].rec.out[b]
  }

  lemma {:induction false} NotCarriedIn<S>(out: seq<map<S, Cell>>, fates: seq<Fate>, s: S, o: Obs)
    requires |out| == |fates|
    requires forall b :: 0 <= b < |out| && fates[b].Accepted? ==> s !in out[b]
    ensures AcceptedIn(out, fates, s, o) == 0
  {
    if out != [] {
      NotCarriedIn(out[..|out| - 1], fates[..|out| - 1], s, o);
    }
  }

  lemma {:induction false} NotCarried<S(!new), K>(c: Setup<S, K>, f: Fleet<S, K>, n: nat, s: S, o: Obs)
    requires Sound(c, f) && !Carried(f, s) && n <= |f.nodes|
    ensures AcceptedBy(f.nodes[..n], s, o) == 0
  {
    if n > 0 {
      NotCarried(c, f, n - 1, s, o);
      assert f.nodes[..n][..n - 1] == f.nodes[..n - 1];
      var d := f.nodes[n - 1];
      forall b | 0 <= b < |d.rec.out| && d.fates[b].Accepted?
        ensures s !in d.rec.out[b]
      {
        assert !CarriedIn(f, n - 1, b, s);
      }
      NotCarriedIn(d.rec.out, d.fates, s, o);
    }
  }

  // ---------------------------------------------------------------------------
  // What every run of the fleet keeps
  // ---------------------------------------------------------------------------

  /** The store's books for one series and one observation value. */
  ghost predicate Booked<S(!new), K>(c: Setup<S, K>, f: Fleet<S, K>, s: S, o: Obs) {
    && Sound(c, f) && |f.cum| <= c.cap
    && (s in f.cum ==> multiset(f.cum[s].log)[o] == AcceptedBy(f.nodes, s, o))
    && (s !in f.cum && Carried(f, s) ==> |f.cum| == c.cap)
  }

  lemma CarriedBeforeWork<S(!new), K>(c: Setup<S, K>, f: Fleet<S, K>, n: nat, step: Step<S>, s: S)
    requires Sound(c, f) && n < |f.nodes|
    ensures var f' := f.(nodes := f.nodes[n := Worked(c.nodes[n], f.nodes[n], step)]);
      Carried(f', s) ==> Carried(f, s)
  {
    var f' := f.(nodes := f.nodes[n := Worked(c.nodes[n], f.nodes[n], step)]);
    if Carried(f', s) {
      var m, b :| CarriedIn(f', m, b, s);
      WorkKeeps(c.nodes[n], f.nodes[n], step);
      assert CarriedIn(f, m, b, s);
    }
  }

  /** A node's batches are never taken back; a new one waits. */
  lemma WorkKeeps<S, K>(cfg: Settings<S, K>, d: Node<S, K>, e: Step<S>)
    requires ValidSettings(cfg) && Fits(cfg, d)
    ensures var r := Worked(cfg, d, e);
      && d.rec.out <= r.rec.out && d.fates <= r.fates
      && (forall b :: |d.fates| <= b < |r.fates| ==> r.fates[b] == Waiting)
  {
  }

  lemma BookWork<S(!new), K>(c: Setup<S, K>, f: Fleet<S, K>, n: nat, step: Step<S>, s: S, o: Obs)
    requires Booked(c, f, s, o)
    ensures Booked(c, Happened(c, f, Work(n, step)), s, o)
  {
    if n < |f.nodes| {
      AcceptedUpdate(f.nodes, n, Worked(c.nodes[n], f.nodes[n], step), s, o);
      WorkedAccepts(c.nodes[n], f.nodes[n], step, s, o);
      CarriedBeforeWork(c, f, n, step, s);
    }
  }

  lemma BookFate<S(!new), K>(c: Setup<S, K>, f: Fleet<S, K>, n: nat, b: nat, fate: Fate, s: S, o: Obs)
    requires Sound(c, f) && n < |f.nodes| && b < |f.nodes[n].fates| && f.nodes[n].fates[b] == Waiting
    ensures var f', batch := Fated(f, n, b, fate), f.nodes[n].rec.out[b];
      && Sound(c, f')
      && AcceptedBy(f'.nodes, s, o) == AcceptedBy(f.nodes, s, o) + (if fate.Accepted? then At(batch, s, o) else 0)
      && (Carried(f', s) ==> Carried(f, s) || (fate.Accepted? && s in batch))
  {
    var d := f.nodes[n];
    var d' := d.(fates := d.fates[b := fate]);
    var f' := Fated(f, n, b, fate);
    AcceptedUpdate(f.nodes, n, d', s, o);
    FateUpdate(d.rec.out, d.fates, b, fate, s, o);
    if Carried(f', s) && !(fate.Accepted? && s in d.rec.out[b]) {
      var m, a :| CarriedIn(f', m, a, s);
      assert CarriedIn(f, m, a, s);
    }
  }

  /** The store's side of an accepted delivery, with `landed` observations counted before it. */
  lemma BookAbsorbed<S(!new)>(cum: map<S, Cell>, batch: map<S, Cell>, order: seq<S>, cap: nat, L: Layout,
                              s: S, o: Obs, landed: nat, carried: bool)
    requires |cum| <= cap && Orders(order, batch.Keys)
    requires s in cum ==> multiset(cum[s].log)[o] == landed
    requires s !in cum && carried ==> |cum| == cap
    requires !carried ==> landed == 0
    ensures var r := AbsorbedAll(cum, batch, order, cap, L);
      && |r| <= cap
      && (s in r ==> multiset(r[s].log)[o] == landed + At(batch, s, o))
      && (s !in r && (carried || s in batch) ==> |r| == cap)
  {
    AbsorbedAt(cum, batch, order, cap, L, s);
    if s !in cum && s in batch {
      assert [] + batch[s].log == batch[s].log;
    }
  }

  lemma BookAccepted<S(!new), K>(c: Setup<S, K>, f: Fleet<S, K>, n: nat, b: nat, order: seq<S>, s: S, o: Obs)
    requires Booked(c, f, s, o) && n < |f.nodes| && b < |f.nodes[n].fates| && f.nodes[n].fates[b] == Waiting
    requires Orders(order, f.nodes[n].rec.out[b].Keys)
    ensures var f' := Fated(f, n, b, Accepted);
      Booked(c, f'.(cum := AbsorbedAll(f.cum, f.nodes[n].rec.out[b], order, c.cap, c.layout)), s, o)
  {
    BookFate(c, f, n, b, Accepted, s, o);
    if !Carried(f, s) {
      NotCarried(c, f, |f.nodes|, s, o);
      assert f.nodes[..|f.nodes|] == f.nodes;
    }
    BookAbsorbed(f.cum, f.nodes[n].rec.out[b], order, c.cap, c.layout, s, o, AcceptedBy(f.nodes, s, o), Carried(f, s));
    CarriedByNodes(Fated(f, n, b, Accepted), AbsorbedAll(f.cum, f.nodes[n].rec.out[b], order, c.cap, c.layout), s);
  }

  /** What the store holds has no say in what was carried. */
  lemma CarriedByNodes<S(!new), K>(f: Fleet<S, K>, cum: map<S, Cell>, s: S)
    ensures Carried(f.(cum := cum), s) ==> Carried(f, s)
  {
    var f' := f.(cum := cum);
    if Carried(f', s) {
      var n, b :| CarriedIn(f', n, b, s);
      assert CarriedIn(f, n, b, s);
    }
  }

  lemma BookDelivery<S(!new), K>(c: Setup<S, K>, f: Fleet<S, K>, e: Event<S>, s: S, o: Obs)
    requires Booked(c, f, s, o) && Deliverable(f, e)
    ensures Booked(c, Happened(c, f, e), s, o)
  {
    if e.accepted {
      BookAccepted(c, f, e.node, e.batch, e.order, s, o);
    } else {
      BookFate(c, f, e.node, e.batch, TurnedAway, s, o);
    }
  }

  lemma {:induction false} RunBooked<S(!new), K>(c: Setup<S, K>, events: seq<Event<S>>, s: S, o: Obs)
    requires ValidSetup(c)
    ensures Booked(c, Run(c, events), s, o)
  {
    if events == [] {
      assert !Carried(Run(c, events), s);
    } else {
      var rest, e := events[..|events| - 1], events[|events| - 1];
      RunBooked(c, rest, s, o);
      if e.Work? {
        BookWork(c, Run(c, rest), e.node, e.step, s, o);
      } else if Deliverable(Run(c, rest), e) {
        BookDelivery(c, Run(c, rest), e, s, o);
      }
    }
  }

  /** Every node records each series under one and the same kind. */
  ghost predicate OneKind<S>(events: seq<Event<S>>, kindOf: S -> Kind) {
    forall i :: 0 <= i < |events| && events[i].Work? && events[i].step.Record?
      ==> events[i].step.kind == kindOf(events[i].step.series)
  }

  lemma {:induction false} OneKindOf<S>(events: seq<Event<S>>, kindOf: S -> Kind, n: nat)
    requires OneKind(events, kindOf)
    ensures Kinded(StepsOf(events, n), kindOf)
  {
    if events != [] {
      OneKindOf(events[..|events| - 1], kindOf, n);
    }
  }

  ghost predicate Exactly(kind: Kind, c: Cell, L: Layout) {
    c.agg == Landed(Fold(kind, c.log, L))
  }

  lemma LandsOn(kind: Kind, t: Cell, c: Cell, L: Layout)
    requires !kind.Gauge? && Good(kind, c, L) && Exactly(kind, t, L)
    ensures Exactly(kind, LandCell(t, c), L) && Exactly(kind, NewCell(kind, L), L)
  {
    LandsExactly(kind, t.log, c.log, L);
  }

  lemma {:induction false} ExactDelivery<S(!new), K>(c: Setup<S, K>, f: Fleet<S, K>, e: Event<S>, kindOf: S -> Kind,
                                                     s: S)
    requires Sound(c, f) && |f.cum| <= c.cap && Deliverable(f, e) && e.accepted && !kindOf(s).Gauge?
    requires GoodMap(f.nodes[e.node].rec.out[e.batch], kindOf, c.layout)
    requires s in f.cum ==> Exactly(kindOf(s), f.cum[s], c.layout)
    ensures var r := Happened(c, f, e); s in r.cum ==> Exactly(kindOf(s), r.cum[s], c.layout)
  {
    var batch := f.nodes[e.node].rec.out[e.batch];
    AbsorbedAt(f.cum, batch, e.order, c.cap, c.layout, s);
    if s in batch {
      var t := if s in f.cum then f.cum[s] else NewCell(kindOf(s), c.layout);
      assert Good(kindOf(s), batch[s], c.layout);
      LandsOn(kindOf(s), t, batch[s], c.layout);
    }
  }

  lemma {:induction false} RunExactly<S(!new), K>(c: Setup<S, K>, events: seq<Event<S>>, kindOf: S -> Kind, s: S)
    requires ValidSetup(c) && OneKind(events, kindOf) && !kindOf(s).Gauge?
    ensures s in Run(c, events).cum ==> Exactly(kindOf(s), Run(c, events).cum[s], c.layout)
  {
    if events != [] {
      var rest, e := events[..|events| - 1], events[|events| - 1];
      var f := Run(c, rest);
      RunExactly(c, rest, kindOf, s);
      if Deliverable(f, e) && e.accepted {
        RunBooked(c, rest, s, Obs(0.0, false));
        NodeRuns(c, rest, e.node);
        OneKindOf(rest, kindOf, e.node);
        RunExact(c.nodes[e.node], StepsOf(rest, e.node), kindOf);
        ExactDelivery(c, f, e, kindOf, s);
      }
    }
  }

  /**
   The distributed merge is exact. However observations were spread over nodes and shards, however
   flushes interleaved and in whatever order batches arrived: a series the store holds is the one
   aggregate that observed exactly the observations of all accepted batches; a series the store does not
   hold is in none of them, or the store is full and nothing of it was ever kept.
   */
  lemma MergeIsExact<S(!new), K>(c: Setup<S, K>, events: seq<Event<S>>, kindOf: S -> Kind, s: S, o: Obs)
    requires ValidSetup(c) && OneKind(events, kindOf) && !kindOf(s).Gauge?
    ensures var f := Run(c, events);
      && |f.cum| <= c.cap
      && (s in f.cum ==>
            && f.cum[s].agg == Landed(Fold(kindOf(s), f.cum[s].log, c.layout))
            && multiset(f.cum[s].log)[o] == AcceptedBy(f.nodes, s, o))
      && (s !in f.cum && Carried(f, s) ==> |f.cum| == c.cap)
  {
    RunBooked(c, events, s, o);
    RunExactly(c, events, kindOf, s);
  }

  // ---------------------------------------------------------------------------
  // The same as one process
  // ---------------------------------------------------------------------------

  /** A node with nothing left to flush or send: no flush in progress, nothing in its shards, every batch accepted. */
  ghost predicate Drained<S(!new), K>(d: Node<S, K>) {
    && d.rec.next.None?
    && (forall i, s :: 0 <= i < |d.rec.shards| && s in d.rec.shards[i] ==> d.rec.shards[i][s].log == [])
    && (forall b :: 0 <= b < |d.fates| ==> d.fates[b].Accepted?)
  }

  /** How often a node recorded an observation of a series, if it admitted the series. */
  ghost function AdmittedBy<S(!new), K>(cfg: Settings<S, K>, steps: seq<Step<S>>, s: S, o: Obs): (r: nat)
    requires ValidSettings(cfg)
  {
    if cfg.key(s) in RecorderMachine.Run(cfg, steps).distinct then Calls(steps, s, o) else 0
  }

  /** The same of the first `n` nodes together. */
  ghost function Admitted<S(!new), K>(c: Setup<S, K>, events: seq<Event<S>>, n: nat, s: S, o: Obs): (r: nat)
    requires ValidSetup(c) && n <= |c.nodes|
  {
    if n == 0 then 0
    else Admitted(c, events, n - 1, s, o) + AdmittedBy(c.nodes[n - 1], StepsOf(events, n - 1), s, o)
  }

  lemma {:induction false} AllAccepted<S>(out: seq<map<S, Cell>>, fates: seq<Fate>, s: S, o: Obs)
    requires |out| == |fates| && forall b :: 0 <= b < |fates| ==> fates[b].Accepted?
    ensures AcceptedIn(out, fates, s, o) == AtAll(out, s, o)
  {
    if out != [] {
      AllAccepted(out[..|out| - 1], fates[..|out| - 1], s, o);
    }
  }

  lemma {:induction false} NothingPending<S>(shards: seq<map<S, Cell>>, s: S, o: Obs)
    requires forall i :: 0 <= i < |shards| && s in shards[i] ==> shards[i][s].log == []
    ensures AtAll(shards, s, o) == 0
  {
    if shards != [] {
      NothingPending(shards[..|shards| - 1], s, o);
    }
  }

  lemma DrainedNode<S(!new), K>(cfg: Settings<S, K>, d: Node<S, K>, steps: seq<Step<S>>, s: S, o: Obs)
    requires ValidSettings(cfg) && d.rec == RecorderMachine.Run(cfg, steps) && Drained(d) && |d.fates| == |d.rec.out|
    ensures AcceptedIn(d.rec.out, d.fates, s, o) == AdmittedBy(cfg, steps, s, o)
  {
    AllAccepted(d.rec.out, d.fates, s, o);
    NothingPending(d.rec.shards, s, o);
    RunConserves(cfg, steps, s, o);
  }

  lemma AcceptedLast<S, K>(nodes: seq<Node<S, K>>, n: nat, s: S, o: Obs)
    requires n < |nodes| && forall m :: 0 <= m < |nodes| ==> |nodes[m].rec.out| == |nodes[m].fates|
    ensures AcceptedBy(nodes[..n + 1], s, o)
         == AcceptedBy(nodes[..n], s, o) + AcceptedIn(nodes[n].rec.out, nodes[n].fates, s, o)
  {
    assert nodes[..n + 1][..n] == nodes[..n];
  }

  ghost predicate DrainedAt<S(!new), K>(f: Fleet<S, K>, m: nat) {
    m < |f.nodes| && Drained(f.nodes[m])
  }

  lemma OneAdmitted<S(!new), K>(c: Setup<S, K>, events: seq<Event<S>>, f: Fleet<S, K>, n: nat, s: S, o: Obs)
    requires ValidSetup(c) && n < |c.nodes| && f == Run(c, events) && DrainedAt(f, n)
    ensures AcceptedIn(f.nodes[n].rec.out, f.nodes[n].fates, s, o) == AdmittedBy(c.nodes[n], StepsOf(events, n), s, o)
  {
    NodeRuns(c, events, n);
    DrainedNode(c.nodes[n], f.nodes[n], StepsOf(events, n), s, o);
  }

  lemma {:induction false} AcceptedIsAdmitted<S(!new), K>(c: Setup<S, K>, events: seq<Event<S>>, f: Fleet<S, K>,
                                                          n: nat, s: S, o: Obs)
    requires ValidSetup(c) && n <= |c.nodes| && f == Run(c, events)
    requires forall m: nat :: m < |c.nodes| ==> DrainedAt(f, m)
    ensures AcceptedBy(f.nodes[..n], s, o) == Admitted(c, events, n, s, o)
  {
    if n > 0 {
      AcceptedIsAdmitted(c, events, f, n - 1, s, o);
      AcceptedLast(f.nodes, n - 1, s, o);
      OneAdmitted(c, events, f, n - 1, s, o);
    }
  }

  /** Whatever the nodes admitted of a series is in the store, or the store was full when it came. */
  lemma AdmittedIsCarried<S(!new), K>(c: Setup<S, K>, events: seq<Event<S>>, s: S, o: Obs)
    requires ValidSetup(c) && Admitted(c, events, |c.nodes|, s, o) > 0
    requires forall m: nat :: m < |c.nodes| ==> DrainedAt(Run(c, events), m)
    ensures Carried(Run(c, events), s)
  {
    var f := Run(c, events);
    AcceptedIsAdmitted(c, events, f, |c.nodes|, s, o);
    if !Carried(f, s) {
      NotCarried(c, f, |c.nodes|, s, o);
    }
  }

  /**
   Once every node has drained and every batch was accepted, what the store holds of a series is what a
   single process would have that observed, in any order at all, everything the nodes admitted. A series
   the store does not hold was admitted nowhere, or the store is full.
   */
  lemma SameAsOneProcess<S(!new), K>(c: Setup<S, K>, events: seq<Event<S>>, kindOf: S -> Kind, s: S, all: seq<Obs>)
    requires ValidSetup(c) && OneKind(events, kindOf) && !kindOf(s).Gauge?
    requires forall m: nat :: m < |c.nodes| ==> DrainedAt(Run(c, events), m)
    requires forall o :: multiset(all)[o] == Admitted(c, events, |c.nodes|, s, o)
    ensures var f := Run(c, events);
      && (s in f.cum ==> f.cum[s].agg == Landed(Fold(kindOf(s), all, c.layout)))
      && (s !in f.cum && all != [] ==> |f.cum| == c.cap)
  {
    var f := Run(c, events);
    if s in f.cum {
      forall o
        ensures multiset(f.cum[s].log)[o] == multiset(all)[o]
      {
        MergeIsExact(c, events, kindOf, s, o);
        AcceptedIsAdmitted(c, events, f, |c.nodes|, s, o);
        assert f.nodes[..|f.nodes|] == f.nodes;
      }
      RunExactly(c, events, kindOf, s);
      assert multiset(f.cum[s].log) == multiset(all);
      FoldOfBag(kindOf(s), f.cum[s].log, all, c.layout);
    } else if all != [] {
      assert all[0] in multiset(all);
      AdmittedIsCarried(c, events, s, all[0]);
      RunBooked(c, events, s, all[0]);
    }
  }
}
