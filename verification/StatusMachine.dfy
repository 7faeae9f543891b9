/**
 From workers' phases to the end of a run.

 Workers report to their agent, which folds what it has heard under a lock and sends the result
 upstream after releasing it, so that two reports may change places; once sent, reports travel in
 order and may be lost. The coordinator shows the latest one of each participant, and starts its
 roster afresh at every rebalance. A report carries along what it is based on, and so does what
 the coordinator shows, only to be able to say so. `A` is an agent, `W` a worker.
 */
module StatusMachine {

  import opened Lifecycle
  import opened Options
  import opened PhaseFold

  /** What an agent has of the run: the workers told to start and the phases heard from workers. */
  datatype Book<W> = Book(told: set<W>, phases: map<W, Phase>)

  /** Reset by a roster, marked because the agent could not be reached, declared by the agent itself, or folded. */
  datatype Basis<W> = Reset | Unreached | Declared | Folded(book: Book<W>)

  datatype Status<W> = Status(phase: Phase, basis: Basis<W>)

  /** `hand` holds the reports folded but not sent yet, `wire` those on their way, and `shown` what has arrived. */
  datatype State<!A, W> = State(books: map<A, Book<W>>, hand: map<A, seq<Status<W>>>, wire: map<A, seq<Status<W>>>,
                                shown: map<A, Status<W>>)

  /**
   `Begin` and `Clear` are the two lock sections of an agent's start of a run, `Forget` and `Drop` those of a worker's
   leave; `Hear` folds a worker's phase and `Post` sends one of the results. `Roster` is the first one of a run or a
   rebalance's; only the first one marks agents that could not be reached.
   */
  datatype Step<A, W> =
    | Begin(agent: A)
    | Clear(agent: A)
    | Tell(agent: A, worker: W)
    | Hear(agent: A, worker: W, phase: Phase)
    | Post(agent: A, which: nat)
    | Forget(agent: A, worker: W)
    | Drop(agent: A, worker: W)
    | Declare(agent: A)
    | Deliver(agent: A)
    | Lose(agent: A)
    | Roster(first: bool, listed: set<A>, unreached: set<A>)

  function BookAt<A, W>(st: State<A, W>, a: A): (b: Book<W>) {
    if a in st.books then st.books[a] else Book({}, map[])
  }

  function WireAt<A, W>(st: State<A, W>, a: A): (s: seq<Status<W>>) {
    if a in st.wire then st.wire[a] else []
  }

  function HandAt<A, W>(st: State<A, W>, a: A): (s: seq<Status<W>>) {
    if a in st.hand then st.hand[a] else []
  }

  function Booked<A, W>(st: State<A, W>, a: A, b: Book<W>): (r: State<A, W>) {
    st.(books := st.books[a := b])
  }

  function Sent<A, W>(st: State<A, W>, a: A, m: Status<W>): (r: State<A, W>) {
    st.(wire := st.wire[a := WireAt(st, a) + [m]])
  }

  function Listed<A, W>(first: bool, listed: set<A>, unreached: set<A>): (r: map<A, Status<W>>) {
    map a | a in listed ::
      if !first then Status(Running, Reset)
      else if a in unreached then Status(Failed, Unreached)
      else Status(Pending, Reset)
  }

  ghost function Next<A, W>(st: State<A, W>, e: Step<A, W>): (r: State<A, W>) {
    match e
    case Begin(a) => Booked(st, a, BookAt(st, a).(told := {}))
    case Clear(a) => Booked(st, a, BookAt(st, a).(phases := map[]))
    case Tell(a, w) => var b := BookAt(st, a); Booked(st, a, b.(told := b.told + {w}))
    case Hear(a, w, p) =>
      var b := BookAt(st, a);
      var b' := b.(phases := b.phases[w := p]);
      Booked(st, a, b').(hand := st.hand[a := HandAt(st, a) + [Status(FoldOf(b'.phases), Folded(b'))]])
    case Post(a, i) =>
      var held := HandAt(st, a);
      if i >= |held| then st else Sent(st.(hand := st.hand[a := held[..i] + held[i + 1..]]), a, held[i])
    case Forget(a, w) => var b := BookAt(st, a); Booked(st, a, b.(told := b.told - {w}))
    case Drop(a, w) => var b := BookAt(st, a); Booked(st, a, b.(phases := b.phases - {w}))
    case Declare(a) => Sent(st, a, Status(Failed, Declared))
    case Deliver(a) =>
      if WireAt(st, a) == [] then st
      else st.(wire := st.wire[a := WireAt(st, a)[1..]], shown := st.shown[a := WireAt(st, a)[0]])
    case Lose(a) => if WireAt(st, a) == [] then st else st.(wire := st.wire[a := WireAt(st, a)[1..]])
    case Roster(first, listed, unreached) => st.(shown := Listed(first, listed, unreached))
  }

  ghost function Onward<A, W>(st: State<A, W>, steps: seq<Step<A, W>>): (r: State<A, W>) {
    if steps == [] then st else Next(Onward(st, steps[..|steps| - 1]), steps[|steps| - 1])
  }

  ghost function Run<A, W>(steps: seq<Step<A, W>>): (r: State<A, W>) {
    Onward(State(map[], map[], map[], map[]), steps)
  }

  // ---------------------------------------------------------------------------
  // What an agent's book says
  // ---------------------------------------------------------------------------

  ghost function HeardNext<A, W>(before: Option<Phase>, e: Step<A, W>, a: A, w: W): (r: Option<Phase>) {
    match e
    case Hear(b, v, p) => if b == a && v == w then Some(p) else before
    case Drop(b, v) => if b == a && v == w then None else before
    case Clear(b) => if b == a then None else before
    case _ => before
  }

  ghost function ToldNext<A, W>(before: bool, e: Step<A, W>, a: A, w: W): (r: bool) {
    match e
    case Tell(b, v) => (b == a && v == w) || before
    case Forget(b, v) => !(b == a && v == w) && before
    case Begin(b) => b != a && before
    case _ => before
  }

  /** The phase last heard from a worker, unless it has left or another run has begun since. */
  ghost function Heard<A, W>(steps: seq<Step<A, W>>, a: A, w: W): (r: Option<Phase>) {
    if steps == [] then None else HeardNext(Heard(steps[..|steps| - 1], a, w), steps[|steps| - 1], a, w)
  }

  /** Whether the worker has been told to start, and has not left nor has another run begun since. */
  ghost function ToldTo<A, W>(steps: seq<Step<A, W>>, a: A, w: W): (r: bool) {
    if steps == [] then false else ToldNext(ToldTo(steps[..|steps| - 1], a, w), steps[|steps| - 1], a, w)
  }

  /** The book has this of the worker. */
  ghost predicate Has<W>(b: Book<W>, w: W, heard: Option<Phase>, told: bool) {
    && (w in b.phases <==> heard.Some?) && (w in b.phases ==> b.phases[w] == heard.value)
    && (w in b.told <==> told)
  }

  lemma BookNext<A, W>(st: State<A, W>, e: Step<A, W>, a: A, w: W, heard: Option<Phase>, told: bool)
    requires Has(BookAt(st, a), w, heard, told)
    ensures Has(BookAt(Next(st, e), a), w, HeardNext(heard, e, a, w), ToldNext(told, e, a, w))
  {
    match e
    case Begin(_) =>
    case Clear(_) =>
    case Tell(_, _) =>
    case Hear(_, _, _) =>
    case Forget(_, _) =>
    case Drop(_, _) =>
    case _ => assert BookAt(Next(st, e), a) == BookAt(st, a);
  }

  /** Over every run, an agent's book has of each worker the phase last heard, and whether it was told to start. */
  lemma {:induction false} BookIs<A, W>(steps: seq<Step<A, W>>, a: A, w: W)
    ensures Has(BookAt(Run(steps), a), w, Heard(steps, a, w), ToldTo(steps, a, w))
  {
    if steps != [] {
      var rest := steps[..|steps| - 1];
      BookIs(rest, a, w);
      BookNext(Run(rest), steps[|steps| - 1], a, w, Heard(rest, a, w), ToldTo(rest, a, w));
    }
  }

  // ---------------------------------------------------------------------------
  // What is shown was once so
  // ---------------------------------------------------------------------------

  /** The agent's book was this after some part of the run. */
  ghost predicate Was<A, W>(steps: seq<Step<A, W>>, a: A, b: Book<W>) {
    exists k :: WasAt(steps, a, b, k)
  }

  ghost predicate WasAt<A, W>(steps: seq<Step<A, W>>, a: A, b: Book<W>, k: int) {
    0 <= k <= |steps| && BookAt(Run(steps[..k]), a) == b
  }

  /** A report says what it is based on, and that was once so. */
  ghost predicate True<A, W>(steps: seq<Step<A, W>>, a: A, m: Status<W>) {
    match m.basis
    case Reset => m.phase.Pending? || m.phase.Running?
    case Folded(b) => m.phase == FoldOf(b.phases) && Was(steps, a, b)
    case _ => m.phase.Failed?
  }

  ghost predicate TrueList<A, W>(steps: seq<Step<A, W>>, a: A, ms: seq<Status<W>>) {
    forall i :: 0 <= i < |ms| ==> True(steps, a, ms[i])
  }

  ghost predicate AllTrue<A, W>(steps: seq<Step<A, W>>, st: State<A, W>, a: A) {
    && TrueList(steps, a, HandAt(st, a)) && TrueList(steps, a, WireAt(st, a))
    && (a in st.shown ==> True(steps, a, st.shown[a]))
  }

  lemma StillTrue<A, W>(steps: seq<Step<A, W>>, e: Step<A, W>, a: A, m: Status<W>)
    requires True(steps, a, m)
    ensures True(steps + [e], a, m)
  {
    if m.basis.Folded? {
      var k :| WasAt(steps, a, m.basis.book, k);
      assert (steps + [e])[..k] == steps[..k];
      assert WasAt(steps + [e], a, m.basis.book, k);
    }
  }

  lemma HeardIsTrue<A, W>(steps: seq<Step<A, W>>, e: Step<A, W>)
    requires e.Hear?
    ensures var b := BookAt(Run(steps + [e]), e.agent); True(steps + [e], e.agent, Status(FoldOf(b.phases), Folded(b)))
  {
    var all := steps + [e];
    assert all[..|all|] == all;
    assert WasAt(all, e.agent, BookAt(Run(all), e.agent), |all|);
  }

  lemma ListStillTrue<A, W>(steps: seq<Step<A, W>>, e: Step<A, W>, a: A, ms: seq<Status<W>>)
    requires TrueList(steps, a, ms)
    ensures TrueList(steps + [e], a, ms)
  {
    forall i | 0 <= i < |ms|
      ensures True(steps + [e], a, ms[i])
    {
      StillTrue(steps, e, a, ms[i]);
    }
  }

  lemma TrueNext<A, W>(steps: seq<Step<A, W>>, e: Step<A, W>, a: A)
    requires AllTrue(steps, Run(steps), a)
    ensures AllTrue(steps + [e], Run(steps + [e]), a)
  {
    var st, r := Run(steps), Run(steps + [e]);
    assert (steps + [e])[..|steps|] == steps;
    assert r == Next(st, e);
    ListStillTrue(steps, e, a, HandAt(st, a));
    ListStillTrue(steps, e, a, WireAt(st, a));
    if a in st.shown {
      StillTrue(steps, e, a, st.shown[a]);
    }
    if e.Hear? {
      HeardIsTrue(steps, e);
    }
    TrueLists(steps + [e], st, e, a);
  }

  /** A step that hears nothing only moves reports. */
  lemma TrueLists<A, W>(steps: seq<Step<A, W>>, st: State<A, W>, e: Step<A, W>, a: A)
    requires AllTrue(steps, st, a)
    requires e.Hear? ==>
      var b := BookAt(Next(st, e), e.agent); True(steps, e.agent, Status(FoldOf(b.phases), Folded(b)))
    ensures AllTrue(steps, Next(st, e), a)
  {
    var r := Next(st, e);
    forall i | 0 <= i < |HandAt(r, a)|
      ensures True(steps, a, HandAt(r, a)[i])
    {
      var held := HandAt(st, a);
      var moved := e.Post? && e.agent == a && e.which < |held|;
      assert moved ==> HandAt(r, a) == held[..e.which] + held[e.which + 1..];
      assert moved && i >= e.which ==> HandAt(r, a)[i] == held[i + 1];
      assert !(moved && i >= e.which) && i < |held| ==> HandAt(r, a)[i] == held[i];
    }
    forall i | 0 <= i < |WireAt(r, a)|
      ensures True(steps, a, WireAt(r, a)[i])
    {
      var moved := (e.Deliver? || e.Lose?) && e.agent == a && WireAt(st, a) != [];
      assert moved ==> WireAt(r, a)[i] == WireAt(st, a)[i + 1];
      assert !moved && i < |WireAt(st, a)| ==> WireAt(r, a)[i] == WireAt(st, a)[i];
    }
  }

  lemma {:induction false} RunTrue<A, W>(steps: seq<Step<A, W>>, a: A)
    ensures AllTrue(steps, Run(steps), a)
  {
    if steps != [] {
      var rest, e := steps[..|steps| - 1], steps[|steps| - 1];
      RunTrue(rest, a);
      TrueNext(rest, e, a);
      assert rest + [e] == steps;
    }
  }

  // ---------------------------------------------------------------------------
  // When a run is finished
  // ---------------------------------------------------------------------------

  /** What is shown of an agent goes back to a failure: of one of its workers, of itself, or of reaching it. */
  ghost predicate FailureShown<W>(m: Status<W>) {
    m.basis.Unreached? || m.basis.Declared? || (m.basis.Folded? && AnyFailed(m.basis.book.phases))
  }

  /** Or to all workers heard of having ended, and there being one. */
  ghost predicate EndShown<W>(m: Status<W>) {
    FailureShown(m) || (m.basis.Folded? && m.basis.book.phases != map[] && AllEnded(m.basis.book.phases))
  }

  /** The run's participants are the agents shown, in the phases shown. */
  ghost predicate Shows<A, W>(parts: map<A, Participant>, shown: map<A, Status<W>>) {
    parts.Keys == shown.Keys && forall a :: a in parts ==> parts[a].phase == shown[a].phase
  }

  lemma TrueEnds<A, W>(steps: seq<Step<A, W>>, a: A, m: Status<W>, p: Participant)
    requires True(steps, a, m) && p.phase == m.phase
    ensures Done(p) <==> EndShown(m)
    ensures p.phase.Failed? <==> FailureShown(m)
  {
  }

  /**
   What completion means at the workers, over every interleaving of reports, losses, leaves and rosters: the
   coordinator finishes a run exactly when it has participants and what it shows of each goes back, since the last
   roster, to a failure or to a moment at which all the agent's workers heard of had ended; it calls the run failed
   exactly when it goes back to a failure for all of them.
   */
  lemma FinishedIff<A, W>(steps: seq<Step<A, W>>, parts: map<A, Participant>)
    requires Shows(parts, Run(steps).shown)
    ensures var shown := Run(steps).shown;
      && (Outcome(parts).Some? <==> shown != map[] && forall a :: a in shown ==> EndShown(shown[a]))
      && (Outcome(parts) == Some(Failed) <==> shown != map[] && forall a :: a in shown ==> FailureShown(shown[a]))
      && forall a :: a in shown && shown[a].basis.Folded? ==> Was(steps, a, shown[a].basis.book)
  {
    var shown := Run(steps).shown;
    forall a | a in shown
      ensures a in parts && (Done(parts[a]) <==> EndShown(shown[a]))
      ensures (parts[a].phase.Failed? <==> FailureShown(shown[a]))
      ensures shown[a].basis.Folded? ==> Was(steps, a, shown[a].basis.book)
    {
      assert a in shown.Keys && a in parts.Keys;
      RunTrue(steps, a);
      TrueEnds(steps, a, shown[a], parts[a]);
    }
    assert parts == map[] <==> shown == map[] by {
      assert parts.Keys == {} <==> parts == map[];
      assert shown.Keys == {} <==> shown == map[];
    }
  }

  /**
   And it may do so while a worker that was told to start was still going then, in exactly the two ways of the fold.
   */
  lemma FinishedEarlyIff<W>(m: Status<W>)
    requires m.basis.Folded? && Going(m.basis.book.told, m.basis.book.phases)
    ensures var b := m.basis.book;
      EndShown(m) <==> AnyFailed(b.phases) || (b.phases != map[] && AllEnded(b.phases) && Silent(b.told, b.phases))
  {
    var b := m.basis.book;
    LooksFinishedIff(b.told, b.phases, FoldOf(b.phases));
  }

  // ---------------------------------------------------------------------------
  // What a rebalance forgets
  // ---------------------------------------------------------------------------

  /** Rebalances go on listing the agent, and no report of it is delivered. */
  ghost predicate NoWord<A, W>(steps: seq<Step<A, W>>, a: A) {
    forall i :: 0 <= i < |steps| ==> Wordless(steps[i], a)
  }

  ghost predicate Wordless<A, W>(e: Step<A, W>, a: A) {
    !(e.Deliver? && e.agent == a) && (e.Roster? ==> !e.first && a in e.listed)
  }

  /**
   A rebalance makes an agent that has reported its end count as running, and the run waits until it reports again.
   */
  lemma {:induction false} ResetWaits<A, W>(st: State<A, W>, listed: set<A>, unreached: set<A>, a: A,
                                            more: seq<Step<A, W>>, parts: map<A, Participant>)
    requires a in listed && NoWord(more, a)
    requires Shows(parts, Onward(Next(st, Step.Roster(false, listed, unreached)), more).shown)
    ensures Outcome(parts).None?
  {
    ResetStands(st, listed, unreached, a, more);
    assert a in parts.Keys && !Done(parts[a]);
  }

  lemma {:induction false} ResetStands<A, W>(st: State<A, W>, listed: set<A>, unreached: set<A>, a: A,
                                             more: seq<Step<A, W>>)
    requires a in listed && NoWord(more, a)
    ensures var shown := Onward(Next(st, Step.Roster(false, listed, unreached)), more).shown;
      a in shown && shown[a] == Status(Running, Reset)
  {
    if more != [] {
      assert Wordless(more[|more| - 1], a);
      ResetStands(st, listed, unreached, a, more[..|more| - 1]);
    }
  }
}
