/**
 An agent's workers: who is connected, who has been told to start, and what was sent.

 Joining, leaving, quota changes and rebalances interleave at every lock. Leaving takes two
 sections: the registry forgets the session first, the run forgets the worker afterwards.
 `W` is a worker id; `S` a session, of which a reconnecting worker has a new one.
 */
module AgentMachine {

  import opened Apportion
  import opened IdSpace
  import opened Options

  /**
   A run as the coordinator ordered it: virtual users, iterations a second, iterations in all, the agent's first id.
   */
  datatype Plan = Plan(id: nat, vus: nat, rate: nat, iterations: nat, idBase: int)

  datatype RunRec<W> = RunRec(plan: Plan, ramp: int, dispatched: set<W>)

  /** What was sent to workers, in the order of the agent's lock, with the events that start a worker's story over. */
  datatype Msg<W> =
    | StartRun(run: nat, worker: W, vus: int, rate: int, iterations: int, idBase: int)
    | SetQuota(run: nat, worker: W, vus: int, rate: int, ramp: int)
    | Left(worker: W)
    | NewRun(run: nat)

  /** `leaving` are the sessions whose leave is half done. */
  datatype State<W, S(==)> = State(workers: map<W, S>, run: Option<RunRec<W>>, leaving: set<(W, S)>, trace: seq<Msg<W>>)

  datatype Step<W, S> =
    | Join(worker: W, session: S)
    | Remove(worker: W, session: S)
    | Forget(worker: W, session: S)
    | Begin(plan: Plan)
    | End(run: nat)
    | Quota(run: nat, vus: nat, rate: nat, ramp: int)
    | Rebalance(order: seq<W>)

  /** The message for one worker of a rebalance. */
  function MsgFor<W>(r: RunRec<W>, order: seq<W>, i: nat): (m: Msg<W>)
    requires i < |order|
  {
    var n, p := |order|, r.plan;
    var vus, rate := EqualShares(p.vus, n)[i], EqualShares(p.rate, n)[i];
    if order[i] in r.dispatched then SetQuota(p.id, order[i], vus, rate, r.ramp)
    else StartRun(p.id, order[i], vus, rate, EqualShares(Capped(p.iterations), n)[i], WorkerBase(p.idBase, i))
  }

  function Messages<W>(r: RunRec<W>, order: seq<W>): (ms: seq<Msg<W>>) {
    seq(|order|, i requires 0 <= i < |order| => MsgFor(r, order, i))
  }

  ghost predicate Lists<W(!new)>(order: seq<W>, workers: set<W>) {
    && (forall i, j :: 0 <= i < j < |order| ==> order[i] != order[j])
    && (forall w :: w in order <==> w in workers)
  }

  function Elements<W>(order: seq<W>): (r: set<W>) {
    set i | 0 <= i < |order| :: order[i]
  }

  function Balanced<W, S(==)>(st: State<W, S>, order: seq<W>): (r: State<W, S>) {
    if st.run.None? || order == [] then st
    else
      var run := st.run.value;
      st.(run := Some(run.(ramp := 0, dispatched := run.dispatched + Elements(order))),
          trace := st.trace + Messages(run, order))
  }

  ghost function Next<W(!new), S>(st: State<W, S>, e: Step<W, S>): (r: State<W, S>) {
    match e
    case Join(w, s) => st.(workers := st.workers[w := s])
    case Remove(w, s) =>
      if w in st.workers && st.workers[w] == s then
        st.(workers := st.workers - {w}, leaving := st.leaving + {(w, s)}, trace := st.trace + [Left(w)])
      else st
    case Forget(w, s) =>
      if (w, s) !in st.leaving then st
      else st.(leaving := st.leaving - {(w, s)}, run := Forgotten(st.run, w))
    case Begin(plan) => st.(run := Some(RunRec(plan, 0, {})), trace := st.trace + [NewRun(plan.id)])
    case End(id) => if st.run.Some? && st.run.value.plan.id == id then st.(run := None) else st
    case Quota(id, vus, rate, ramp) =>
      if st.run.None? || st.run.value.plan.id != id then st
      else st.(run := Some(Requoted(st.run.value, vus, rate, ramp)))
    case Rebalance(order) => if Lists(order, st.workers.Keys) then Balanced(st, order) else st
  }

  function Requoted<W>(r: RunRec<W>, vus: nat, rate: nat, ramp: int): (q: RunRec<W>) {
    r.(plan := r.plan.(vus := vus, rate := rate), ramp := ramp)
  }

  function Forgotten<W>(run: Option<RunRec<W>>, w: W): (r: Option<RunRec<W>>) {
    match run
    case None => None
    case Some(r) => Some(r.(dispatched := r.dispatched - {w}))
  }

  ghost function Run<W(!new), S>(steps: seq<Step<W, S>>): (r: State<W, S>) {
    if steps == [] then State(map[], None, {}, [])
    else Next(Run(steps[..|steps| - 1]), steps[|steps| - 1])
  }

  // ---------------------------------------------------------------------------
  // Shares
  // ---------------------------------------------------------------------------

  function VUsOf<W>(ms: seq<Msg<W>>): (r: seq<int>)
    requires forall i :: 0 <= i < |ms| ==> ms[i].StartRun? || ms[i].SetQuota?
  {
    seq(|ms|, i requires 0 <= i < |ms| => ms[i].vus)
  }

  function RatesOf<W>(ms: seq<Msg<W>>): (r: seq<int>)
    requires forall i :: 0 <= i < |ms| ==> ms[i].StartRun? || ms[i].SetQuota?
  {
    seq(|ms|, i requires 0 <= i < |ms| => ms[i].rate)
  }

  function IterationsOf<W>(ms: seq<Msg<W>>): (r: seq<int>)
    requires forall i :: 0 <= i < |ms| ==> ms[i].StartRun?
  {
    seq(|ms|, i requires 0 <= i < |ms| => ms[i].iterations)
  }

  /**
   Every rebalance with somebody connected hands out the agent's virtual users and its rate exactly, one message
   to each worker, no two shares more than one apart; the first one hands out all iterations.
   */
  lemma SharesAddUp<W(!new), S>(st: State<W, S>, order: seq<W>)
    requires st.run.Some? && order != [] && Lists(order, st.workers.Keys)
    ensures var r, ms := st.run.value, Messages(st.run.value, order);
      && Next(st, Rebalance(order)).trace == st.trace + ms && |ms| == |st.workers|
      && Sum(VUsOf(ms)) == r.plan.vus && Sum(RatesOf(ms)) == r.plan.rate
      && (r.dispatched == {} ==>
            && (forall i :: 0 <= i < |ms| ==> ms[i].StartRun?)
            && Sum(IterationsOf(ms)) == Capped(r.plan.iterations))
      && forall i, j :: 0 <= i < |ms| && 0 <= j < |ms| ==> VUsOf(ms)[i] <= VUsOf(ms)[j] + 1
  {
    var n, p := |order|, st.run.value.plan;
    var ms := Messages(st.run.value, order);
    assert VUsOf(ms) == EqualShares(p.vus, n) && RatesOf(ms) == EqualShares(p.rate, n);
    EqualSharesSum(p.vus, n);
    EqualSharesSum(p.rate, n);
    if st.run.value.dispatched == {} {
      assert IterationsOf(ms) == EqualShares(Capped(p.iterations), n);
      EqualSharesSum(Capped(p.iterations), n);
    }
    ListsSize(order, st.workers.Keys);
  }

  lemma {:induction false} ListsSize<W(!new)>(order: seq<W>, workers: set<W>)
    requires Lists(order, workers)
    ensures |order| == |workers|
  {
    if order != [] {
      var rest, w := order[..|order| - 1], order[|order| - 1];
      assert order == rest + [w];
      ListsSize(rest, workers - {w});
    } else {
      assert workers == {};
    }
  }

  // ---------------------------------------------------------------------------
  // The story of one worker in one run
  // ---------------------------------------------------------------------------

  datatype Story = Idle | Started | Broken

  /** A worker is started once, then only has its quota set, until it leaves or another run begins. */
  ghost function StoryStep<W>(s: Story, m: Msg<W>, w: W): (r: Story) {
    if s.Broken? then Broken
    else
      match m
      case NewRun(_) => Idle
      case Left(v) => if v == w then Idle else s
      case StartRun(_, v, _, _, _, _) => if v != w then s else if s.Idle? then Started else Broken
      case SetQuota(_, v, _, _, _) => if v != w then s else if s.Started? then Started else Broken
  }

  ghost function StoryOf<W>(trace: seq<Msg<W>>, w: W): (r: Story) {
    if trace == [] then Idle else StoryStep(StoryOf(trace[..|trace| - 1], w), trace[|trace| - 1], w)
  }

  lemma StoryAppend<W>(trace: seq<Msg<W>>, m: Msg<W>, w: W)
    ensures StoryOf(trace + [m], w) == StoryStep(StoryOf(trace, w), m, w)
  {
    assert (trace + [m])[..|trace|] == trace;
  }

  /** What one message of a rebalance makes of a worker's story. */
  lemma MsgStory<W>(s: Story, r: RunRec<W>, order: seq<W>, i: nat, w: W)
    requires i < |order|
    ensures StoryStep(s, MsgFor(r, order, i), w) ==
      if order[i] != w then s else if s == (if w in r.dispatched then Started else Idle) then Started else Broken
  {
  }

  lemma PrefixStep<T>(order: seq<T>, n: nat, w: T)
    requires n < |order| && forall i, j :: 0 <= i < j < |order| ==> order[i] != order[j]
    ensures w in order[..n + 1] <==> w in order[..n] || w == order[n]
    ensures order[n] !in order[..n]
  {
    assert order[..n + 1] == order[..n] + [order[n]];
  }

  /** A rebalance tells each worker listed one thing, and the others nothing. */
  lemma {:induction false} StoryOfMessages<W>(trace: seq<Msg<W>>, r: RunRec<W>, order: seq<W>, n: nat, w: W)
    requires n <= |order| && forall i, j :: 0 <= i < j < |order| ==> order[i] != order[j]
    ensures StoryOf(trace + Messages(r, order)[..n], w) ==
      if w !in order[..n] then StoryOf(trace, w)
      else if StoryOf(trace, w) == (if w in r.dispatched then Started else Idle) then Started
      else Broken
  {
    if n == 0 {
      assert trace + Messages(r, order)[..0] == trace;
    } else {
      var before := trace + Messages(r, order)[..n - 1];
      StoryOfMessages(trace, r, order, n - 1, w);
      assert trace + Messages(r, order)[..n] == before + [MsgFor(r, order, n - 1)];
      StoryAppend(before, MsgFor(r, order, n - 1), w);
      MsgStory(StoryOf(before, w), r, order, n - 1, w);
      PrefixStep(order, n - 1, w);
    }
  }

  /** Some leave of this worker is half done. */
  ghost predicate Leaving<W(!new), S(!new)>(st: State<W, S>, w: W) {
    exists s :: (w, s) in st.leaving
  }

  /** A rebalance that reaches somebody. */
  ghost predicate Reaches<W(!new), S>(st: State<W, S>, e: Step<W, S>) {
    e.Rebalance? && st.run.Some? && e.order != [] && Lists(e.order, st.workers.Keys)
  }

  ghost predicate Tells<W(!new), S>(st: State<W, S>, e: Step<W, S>, w: W) {
    Reaches(st, e) && w in e.order
  }

  /** What has happened to a worker in this run since it was last told anything. */
  datatype Since = Since(told: bool, removed: bool, forgotten: bool)

  ghost function SinceTold<W(!new), S>(steps: seq<Step<W, S>>, w: W): (f: Since) {
    if steps == [] then Since(false, false, false)
    else
      var rest, e := steps[..|steps| - 1], steps[|steps| - 1];
      SinceNext(Run(rest), SinceTold(rest, w), e, w)
  }

  ghost function SinceNext<W(!new), S>(st: State<W, S>, f: Since, e: Step<W, S>, w: W): (r: Since) {
    match e
    case Begin(_) => Since(false, false, false)
    case Rebalance(order) => if Tells(st, e, w) then Since(true, false, false) else f
    case Remove(v, s) => if v == w && v in st.workers && st.workers[v] == s then f.(removed := true) else f
    case Forget(v, s) => if v == w && (v, s) in st.leaving then f.(forgotten := true) else f
    case _ => f
  }

  /** Whenever a worker is told again in a run, it has since done both halves of a leave or neither. */
  ghost predicate Paired<W(!new), S>(steps: seq<Step<W, S>>, w: W) {
    steps != [] ==>
      var rest, e := steps[..|steps| - 1], steps[|steps| - 1];
      Paired(rest, w) && (Tells(Run(rest), e, w) ==> PairedNow(SinceTold(rest, w)))
  }

  ghost predicate PairedNow(f: Since) {
    f.told ==> (f.removed <==> f.forgotten)
  }

  /** What the worker was told, against what the run remembers of it. */
  ghost predicate Agrees<W, S>(st: State<W, S>, f: Since, paired: bool, w: W) {
    AgreesAt(StoryOf(st.trace, w), st.run, f, paired, w)
  }

  ghost predicate AgreesAt<W>(story: Story, run: Option<RunRec<W>>, f: Since, paired: bool, w: W) {
    && (paired <==> !story.Broken?)
    && (paired ==> (story.Started? <==> f.told && !f.removed))
    && (run.Some? ==> (w in run.value.dispatched <==> f.told && !f.forgotten))
  }

  lemma ElementsListed<W>(order: seq<W>, w: W)
    ensures w in Elements(order) <==> w in order
  {
  }

  /**
   A rebalance tells every worker listed one thing, and breaks the story of those for which run and story disagree.
   */
  lemma BalancedStory<W(!new), S>(st: State<W, S>, order: seq<W>, w: W)
    requires Reaches(st, Rebalance(order))
    ensures StoryOf(Next(st, Rebalance(order)).trace, w) ==
      if w !in order then StoryOf(st.trace, w)
      else if StoryOf(st.trace, w) == (if w in st.run.value.dispatched then Started else Idle) then Started
      else Broken
    ensures Next(st, Rebalance(order)).run.Some?
    ensures w in Next(st, Rebalance(order)).run.value.dispatched <==> w in st.run.value.dispatched || w in order
  {
    var run := st.run.value;
    StoryOfMessages(st.trace, run, order, |order|, w);
    assert Messages(run, order)[..|order|] == Messages(run, order) && order[..|order|] == order;
    ElementsListed(order, w);
  }

  lemma AgreesRebalance<W(!new), S>(st: State<W, S>, f: Since, paired: bool, order: seq<W>, w: W)
    requires Agrees(st, f, paired, w)
    ensures var e := Rebalance(order);
      Agrees(Next(st, e), SinceNext(st, f, e, w), paired && (Tells(st, e, w) ==> PairedNow(f)), w)
  {
    if Reaches(st, Rebalance(order)) {
      BalancedStory(st, order, w);
    }
  }

  lemma RemovedStory<W(!new), S>(st: State<W, S>, v: W, s: S, w: W)
    ensures Next(st, Remove(v, s)).run == st.run
    ensures StoryOf(Next(st, Remove(v, s)).trace, w) ==
      var story := StoryOf(st.trace, w);
      if v in st.workers && st.workers[v] == s then StoryStep(story, Left(v), w) else story
  {
    StoryAppend(st.trace, Left(v), w);
  }

  lemma AgreesRemove<W(!new), S>(st: State<W, S>, f: Since, paired: bool, v: W, s: S, w: W)
    requires Agrees(st, f, paired, w)
    ensures Agrees(Next(st, Remove(v, s)), SinceNext(st, f, Remove(v, s), w), paired, w)
  {
    RemovedStory(st, v, s, w);
  }

  lemma AgreesBegin<W(!new), S>(st: State<W, S>, f: Since, paired: bool, plan: Plan, w: W)
    requires Agrees(st, f, paired, w)
    ensures Agrees(Next(st, Begin(plan)), SinceNext(st, f, Begin(plan), w), paired, w)
  {
    StoryAppend(st.trace, NewRun(plan.id), w);
  }

  lemma AgreesNext<W(!new), S>(st: State<W, S>, f: Since, paired: bool, e: Step<W, S>, w: W)
    requires Agrees(st, f, paired, w)
    ensures Agrees(Next(st, e), SinceNext(st, f, e, w), paired && (Tells(st, e, w) ==> PairedNow(f)), w)
  {
    match e
    case Rebalance(order) => AgreesRebalance(st, f, paired, order, w);
    case Remove(v, s) => AgreesRemove(st, f, paired, v, s, w);
    case Begin(plan) => AgreesBegin(st, f, paired, plan, w);
    case _ =>
  }

  lemma {:induction false} RunAgrees<W(!new), S>(steps: seq<Step<W, S>>, w: W)
    ensures Agrees(Run(steps), SinceTold(steps, w), Paired(steps, w), w)
  {
    if steps != [] {
      var rest, e := steps[..|steps| - 1], steps[|steps| - 1];
      RunAgrees(rest, w);
      AgreesNext(Run(rest), SinceTold(rest, w), Paired(rest, w), e, w);
    }
  }

  /**
   The dispatch protocol, over every interleaving of joins, leaves, reconnections, quota changes and rebalances:
   a worker sees one start in a run and only quota changes after it, until it leaves, exactly when at every
   rebalance each worker told before has since done both halves of a leave or neither.
   */
  lemma StoriesHoldIff<W(!new), S>(steps: seq<Step<W, S>>, w: W)
    ensures !StoryOf(Run(steps).trace, w).Broken? <==> Paired(steps, w)
  {
    RunAgrees(steps, w);
  }

  /** Nothing is told to a worker while a leave of it is half done. */
  ghost predicate Quiet<W(!new), S(!new)>(steps: seq<Step<W, S>>, w: W) {
    steps != [] ==>
      var rest, e := steps[..|steps| - 1], steps[|steps| - 1];
      Quiet(rest, w) && (Tells(Run(rest), e, w) ==> !Leaving(Run(rest), w))
  }

  /**
   Since it was last told, a worker has done the first half of a leave before the second, and is leaving in between.
   */
  ghost predicate InTurn<W(!new), S(!new)>(st: State<W, S>, f: Since, w: W) {
    && (f.told && f.forgotten ==> f.removed)
    && (f.told && f.removed && !f.forgotten ==> Leaving(st, w))
    && (f.told && !f.removed ==> !Leaving(st, w))
  }

  lemma LeavingNext<W(!new), S(!new)>(st: State<W, S>, e: Step<W, S>, w: W)
    ensures !((e.Remove? || e.Forget?) && e.worker == w) ==> (Leaving(Next(st, e), w) <==> Leaving(st, w))
    ensures e.Remove? && e.worker == w && w in st.workers && st.workers[w] == e.session ==> Leaving(Next(st, e), w)
    ensures e.Remove? && e.worker == w && !(w in st.workers && st.workers[w] == e.session) ==> Next(st, e) == st
    ensures e.Forget? && e.worker == w && (w, e.session) !in st.leaving ==> Next(st, e) == st
  {
    var r := Next(st, e);
    if !((e.Remove? || e.Forget?) && e.worker == w) {
      forall s
        ensures (w, s) in r.leaving <==> (w, s) in st.leaving
      {
      }
    } else if e.Remove? && w in st.workers && st.workers[w] == e.session {
      assert (w, e.session) in r.leaving;
    }
  }

  lemma InTurnNext<W(!new), S(!new)>(st: State<W, S>, f: Since, e: Step<W, S>, w: W)
    requires InTurn(st, f, w) && (Tells(st, e, w) ==> !Leaving(st, w))
    ensures InTurn(Next(st, e), SinceNext(st, f, e, w), w)
  {
    LeavingNext(st, e, w);
  }

  lemma {:induction false} QuietInTurn<W(!new), S(!new)>(steps: seq<Step<W, S>>, w: W)
    requires Quiet(steps, w)
    ensures InTurn(Run(steps), SinceTold(steps, w), w) && Paired(steps, w)
  {
    if steps != [] {
      var rest, e := steps[..|steps| - 1], steps[|steps| - 1];
      QuietInTurn(rest, w);
      InTurnNext(Run(rest), SinceTold(rest, w), e, w);
    }
  }

  /** In particular the story of a worker holds if it is never told anything while a leave of it is half done. */
  lemma QuietStoriesHold<W(!new), S(!new)>(steps: seq<Step<W, S>>, w: W)
    requires Quiet(steps, w)
    ensures !StoryOf(Run(steps).trace, w).Broken?
  {
    QuietInTurn(steps, w);
    StoriesHoldIff(steps, w);
  }

  /** The other half of a leave between two rebalances. */
  ghost function AroundForget<W(!new), S>(st: State<W, S>, w: W, gone: S, order: seq<W>): (r: State<W, S>) {
    Next(Next(Next(st, Rebalance(order)), Forget(w, gone)), Rebalance(order))
  }

  /**
   A worker that is connected while a leave of it is half done is told to start twice, or its quota before it is
   started.
   */
  lemma RejoinedBreaks<W(!new), S>(st: State<W, S>, w: W, gone: S, order: seq<W>)
    requires st.run.Some? && (w, gone) in st.leaving && w in order && Lists(order, st.workers.Keys)
    ensures StoryOf(AroundForget(st, w, gone, order).trace, w).Broken?
  {
    BalancedStory(st, order, w);
    BalancedStory(Next(Next(st, Rebalance(order)), Forget(w, gone)), order, w);
  }

  lemma QuietStep<W(!new), S(!new)>(steps: seq<Step<W, S>>, e: Step<W, S>, w: W)
    requires Quiet(steps, w) && (Tells(Run(steps), e, w) ==> !Leaving(Run(steps), w))
    ensures Quiet(steps + [e], w) && Run(steps + [e]) == Next(Run(steps), e)
  {
    assert (steps + [e])[..|steps|] == steps;
  }

  /**
   The race is exactly this: from a state with a run that was reached quietly, the other half of some leave between
   two rebalances breaks a connected worker's story if and only if a leave of that worker is half done.
   */
  lemma RaceIff<W(!new), S(!new)>(steps: seq<Step<W, S>>, w: W, order: seq<W>)
    requires Quiet(steps, w) && Run(steps).run.Some? && w in order && Lists(order, Run(steps).workers.Keys)
    ensures Leaving(Run(steps), w)
      <==> exists gone :: StoryOf(AroundForget(Run(steps), w, gone, order).trace, w).Broken?
  {
    var st := Run(steps);
    if Leaving(st, w) {
      var gone :| (w, gone) in st.leaving;
      RejoinedBreaks(st, w, gone, order);
    } else {
      forall gone
        ensures !StoryOf(AroundForget(st, w, gone, order).trace, w).Broken?
      {
        var one, two := steps + [Rebalance(order)], steps + [Rebalance(order)] + [Forget(w, gone)];
        QuietStep(steps, Rebalance(order), w);
        LeavingNext(st, Rebalance(order), w);
        QuietStep(one, Forget(w, gone), w);
        LeavingNext(Run(one), Forget(w, gone), w);
        QuietStep(two, Rebalance(order), w);
        QuietStoriesHold(two + [Rebalance(order)], w);
      }
    }
  }

  ghost predicate NoRejoin<W, S>(steps: seq<Step<W, S>>, w: W, s: S) {
    forall i :: 0 <= i < |steps| ==> !(steps[i].Join? && steps[i].worker == w && steps[i].session == s)
  }

  /**
   A session displaced by a reconnection is harmless for good: whatever happens after the worker's new session has
   joined, the end of the old one evicts nobody, forgets nothing and is told to nobody.
   */
  lemma {:induction false} DisplacedIsHarmless<W(!new), S>(st: State<W, S>, w: W, replaced: S, live: S,
                                                           more: seq<Step<W, S>>)
    requires replaced != live && (w, replaced) !in st.leaving && NoRejoin(more, w, replaced)
    ensures var now := Onward(Next(st, Join(w, live)), more);
      && (w in now.workers ==> now.workers[w] != replaced) && (w, replaced) !in now.leaving
      && Next(now, Remove(w, replaced)) == now && Next(now, Forget(w, replaced)) == now
  {
    if more != [] {
      DisplacedIsHarmless(st, w, replaced, live, more[..|more| - 1]);
    }
  }

  // ---------------------------------------------------------------------------
  // Iterations
  // ---------------------------------------------------------------------------

  /** The iterations handed out with the starts of the latest run. */
  ghost function Handed<W>(trace: seq<Msg<W>>): (r: int) {
    if trace == [] then 0 else HandedNext(Handed(trace[..|trace| - 1]), trace[|trace| - 1])
  }

  function HandedNext<W>(handed: int, m: Msg<W>): (r: int) {
    match m
    case NewRun(_) => 0
    case StartRun(_, _, _, _, iterations, _) => handed + iterations
    case _ => handed
  }

  lemma HandedAppend<W>(trace: seq<Msg<W>>, m: Msg<W>)
    ensures Handed(trace + [m]) == HandedNext(Handed(trace), m)
  {
    assert (trace + [m])[..|trace|] == trace;
  }

  /** What the starts among the first `n` messages of a rebalance carry. */
  ghost function StartShares<W>(r: RunRec<W>, order: seq<W>, n: nat): (t: int)
    requires n <= |order|
  {
    if n == 0 then 0
    else
      StartShares(r, order, n - 1)
        + if order[n - 1] in r.dispatched then 0 else EqualShares(Capped(r.plan.iterations), |order|)[n - 1]
  }

  lemma {:induction false} HandedMessages<W>(trace: seq<Msg<W>>, r: RunRec<W>, order: seq<W>, n: nat)
    requires n <= |order|
    ensures Handed(trace + Messages(r, order)[..n]) == Handed(trace) + StartShares(r, order, n)
  {
    if n == 0 {
      assert trace + Messages(r, order)[..0] == trace;
    } else {
      var before := trace + Messages(r, order)[..n - 1];
      HandedMessages(trace, r, order, n - 1);
      assert trace + Messages(r, order)[..n] == before + [MsgFor(r, order, n - 1)];
      HandedAppend(before, MsgFor(r, order, n - 1));
    }
  }

  /** A start is late and takes part of the iterations again. */
  ghost predicate Takes<W>(r: RunRec<W>, order: seq<W>, i: nat)
    requires i < |order|
  {
    order[i] !in r.dispatched && i < Capped(r.plan.iterations)
  }

  ghost predicate NoneTakes<W>(r: RunRec<W>, order: seq<W>, n: nat)
    requires n <= |order|
  {
    forall i :: 0 <= i < n ==> !Takes(r, order, i)
  }

  lemma ShareIff(total: nat, n: nat, i: nat)
    requires i < n
    ensures EqualShares(total, n)[i] >= 0 && (EqualShares(total, n)[i] > 0 <==> i < total)
  {
    if total < n {
      IsDivMod(total, n);
    } else {
      assert total / n >= 1;
    }
  }

  lemma {:induction false} StartSharesIff<W>(r: RunRec<W>, order: seq<W>, n: nat)
    requires n <= |order|
    ensures StartShares(r, order, n) >= 0 && (StartShares(r, order, n) == 0 <==> NoneTakes(r, order, n))
  {
    if n > 0 {
      StartSharesIff(r, order, n - 1);
      ShareIff(Capped(r.plan.iterations), |order|, n - 1);
      assert NoneTakes(r, order, n) <==> NoneTakes(r, order, n - 1) && !Takes(r, order, n - 1);
    }
  }

  lemma {:induction false} FirstShares<W>(r: RunRec<W>, order: seq<W>, n: nat)
    requires n <= |order| && r.dispatched == {} && order != []
    ensures StartShares(r, order, n) == Sum(EqualShares(Capped(r.plan.iterations), |order|)[..n])
  {
    var shares := EqualShares(Capped(r.plan.iterations), |order|);
    if n > 0 {
      FirstShares(r, order, n - 1);
      assert shares[..n][..n - 1] == shares[..n - 1];
    }
  }

  /** What the starts of a rebalance carry: nothing if none of them takes any, all if it is the first one. */
  lemma SharesCarried<W>(r: RunRec<W>, order: seq<W>)
    requires order != []
    ensures StartShares(r, order, |order|) >= 0
    ensures (StartShares(r, order, |order|) == 0 <==> NoneTakes(r, order, |order|))
    ensures r.dispatched == {} ==> StartShares(r, order, |order|) == Capped(r.plan.iterations)
  {
    StartSharesIff(r, order, |order|);
    if r.dispatched == {} {
      var shares := EqualShares(Capped(r.plan.iterations), |order|);
      FirstShares(r, order, |order|);
      assert shares[..|order|] == shares;
      EqualSharesSum(Capped(r.plan.iterations), |order|);
    }
  }

  lemma HandedBatch<W>(trace: seq<Msg<W>>, r: RunRec<W>, order: seq<W>)
    ensures Handed(trace + Messages(r, order)) == Handed(trace) + StartShares(r, order, |order|)
  {
    HandedMessages(trace, r, order, |order|);
    assert Messages(r, order)[..|order|] == Messages(r, order);
  }

  lemma BalancedTrace<W(!new), S>(st: State<W, S>, order: seq<W>)
    requires Reaches(st, Rebalance(order))
    ensures Next(st, Rebalance(order)).trace == st.trace + Messages(st.run.value, order)
  {
  }

  lemma BalancedHands<W(!new), S>(st: State<W, S>, order: seq<W>)
    requires Reaches(st, Rebalance(order))
    ensures Handed(Next(st, Rebalance(order)).trace) == Handed(st.trace) + StartShares(st.run.value, order, |order|)
  {
    BalancedTrace(st, order);
    HandedBatch(st.trace, st.run.value, order);
  }

  /** Somebody has been told to start in this run. */
  ghost predicate Dispatching<W(!new), S>(steps: seq<Step<W, S>>) {
    steps != [] &&
      var rest, e := steps[..|steps| - 1], steps[|steps| - 1];
      !e.Begin? && (Reaches(Run(rest), e) || Dispatching(rest))
  }

  /** A rebalance starts somebody at a place below the number of iterations. */
  ghost predicate LateStart<W(!new), S>(st: State<W, S>, e: Step<W, S>) {
    Reaches(st, e) && !NoneTakes(st.run.value, e.order, |e.order|)
  }

  /** Since the first rebalance of this run, none has done that. */
  ghost predicate NoLateStart<W(!new), S>(steps: seq<Step<W, S>>) {
    steps != [] ==>
      var rest, e := steps[..|steps| - 1], steps[|steps| - 1];
      e.Begin? || (NoLateStart(rest) && (Dispatching(rest) ==> !LateStart(Run(rest), e)))
  }

  /** The books on iterations: what is due, what was handed out on top of that, and whether nothing was. */
  ghost predicate Handing<W, S>(st: State<W, S>, dispatching: bool, exact: bool) {
    st.run.Some? ==>
      var q, due := st.run.value, if dispatching then Capped(st.run.value.plan.iterations) else 0;
      && (!dispatching ==> q.dispatched == {} && exact)
      && Handed(st.trace) >= due && (Handed(st.trace) == due <==> exact)
  }

  lemma HandingRebalance<W(!new), S>(st: State<W, S>, dispatching: bool, exact: bool, order: seq<W>)
    requires Handing(st, dispatching, exact) && Reaches(st, Rebalance(order))
    ensures var still := exact && (dispatching ==> NoneTakes(st.run.value, order, |order|));
      Handing(Next(st, Rebalance(order)), true, still)
  {
    BalancedHands(st, order);
    SharesCarried(st.run.value, order);
  }

  lemma HandingOther<W(!new), S>(st: State<W, S>, dispatching: bool, exact: bool, e: Step<W, S>)
    requires Handing(st, dispatching, exact) && !e.Begin? && !Reaches(st, e)
    ensures Handing(Next(st, e), dispatching, exact)
  {
    if e.Remove? {
      HandedAppend(st.trace, Left(e.worker));
    }
  }

  lemma {:induction false} RunHanding<W(!new), S>(steps: seq<Step<W, S>>)
    ensures Handing(Run(steps), Dispatching(steps), NoLateStart(steps))
  {
    if steps != [] {
      var rest, e := steps[..|steps| - 1], steps[|steps| - 1];
      var st := Run(rest);
      RunHanding(rest);
      if e.Begin? {
        HandedAppend(st.trace, NewRun(e.plan.id));
      } else if Reaches(st, e) {
        HandingRebalance(st, Dispatching(rest), NoLateStart(rest), e.order);
      } else {
        HandingOther(st, Dispatching(rest), NoLateStart(rest), e);
      }
    }
  }

  /**
   Over every run, the iterations handed out to workers are those of the plan, none before the first rebalance, exactly
   when no later rebalance started a worker at a place below their number: a late starter gets a share on top.
   */
  lemma IterationsAddUpIff<W(!new), S>(steps: seq<Step<W, S>>)
    requires Run(steps).run.Some?
    ensures var due := if Dispatching(steps) then Capped(Run(steps).run.value.plan.iterations) else 0;
      Handed(Run(steps).trace) >= due && (Handed(Run(steps).trace) == due <==> NoLateStart(steps))
  {
    RunHanding(steps);
  }

  // ---------------------------------------------------------------------------
  // Ids
  // ---------------------------------------------------------------------------

  /** The ids a worker may give out, from the base it was started with. */
  ghost predicate InBlock(id: int, base: int) {
    base <= id < base + PER_WORKER
  }

  /**
   Two workers told to start in one run have ids in common exactly when their places in the lists they were
   started from agree modulo one hundred. So one rebalance of up to a hundred workers keeps all of them apart.
   */
  lemma BlocksMeetIff<W>(r: RunRec<W>, q: RunRec<W>, a: nat, order: seq<W>, i: nat, later: seq<W>, j: nat)
    requires i < |order| && MsgFor(r, order, i).StartRun? && j < |later| && MsgFor(q, later, j).StartRun?
    requires r.plan.idBase == q.plan.idBase == AgentBase(a)
    ensures (exists id :: InBlock(id, MsgFor(r, order, i).idBase) && InBlock(id, MsgFor(q, later, j).idBase))
      <==> i % 100 == j % 100
    ensures MsgFor(r, order, i).idBase == AgentBase(a) + i % 100 * PER_WORKER
  {
    WrapWorker(i);
    var x, y := MsgFor(r, order, i).idBase, MsgFor(q, later, j).idBase;
    StaysInAgent(a, i, 0);
    StaysInAgent(a, j, 0);
    if i % 100 == j % 100 {
      assert InBlock(x, x) && InBlock(x, y);
    }
  }

  /** The list with a worker that joined late in its place. */
  function Inserted<W>(order: seq<W>, i: nat, w: W): (r: seq<W>)
    requires i <= |order|
    ensures |r| == |order| + 1 && r[i] == w && w in r
  {
    order[..i] + [w] + order[i..]
  }

  lemma InsertedLists<W(!new)>(order: seq<W>, i: nat, w: W, workers: set<W>)
    requires i <= |order| && Lists(order, workers) && w !in workers
    ensures Lists(Inserted(order, i, w), workers + {w})
  {
    var later := Inserted(order, i, w);
    forall v
      ensures v in later <==> v in workers + {w}
    {
      assert v in later <==> v in order[..i] || v == w || v in order[i..];
      assert order == order[..i] + order[i..];
    }
    forall j, k | 0 <= j < k < |later|
      ensures later[j] != later[k]
    {
      assert later[j] == (if j < i then order[j] else if j == i then w else order[j - 1]);
      assert later[k] == (if k < i then order[k] else if k == i then w else order[k - 1]);
    }
  }

  /**
   A worker that joins after the first dispatch and takes a place in the list other than the last is started with
   the block of ids of the worker that was started from that place, and that worker keeps running.
   */
  lemma LateStarterSharesBlock<W(!new), S>(st: State<W, S>, order: seq<W>, w: W, s: S, i: nat)
    requires st.run.Some? && st.run.value.dispatched == {} && i < |order|
    requires Lists(order, st.workers.Keys) && w !in st.workers
    ensures var one := Next(st, Rebalance(order));
      var two := Next(Next(one, Join(w, s)), Rebalance(Inserted(order, i, w)));
      var p, q := |st.trace| + i, |one.trace| + i;
      && p < q < |two.trace| && order[i] in two.workers && w in two.workers
      && two.trace[p].StartRun? && two.trace[p].worker == order[i]
      && two.trace[q].StartRun? && two.trace[q].worker == w
      && two.trace[p].idBase == two.trace[q].idBase
  {
    var later := Inserted(order, i, w);
    var one := Next(st, Rebalance(order));
    var joined := Next(one, Join(w, s));
    var two := Next(joined, Rebalance(later));
    InsertedLists(order, i, w, st.workers.Keys);
    assert joined.workers.Keys == st.workers.Keys + {w};
    ElementsListed(order, w);
    assert one.trace == st.trace + Messages(st.run.value, order);
    assert two.trace == one.trace + Messages(one.run.value, later);
    assert two.trace[|st.trace| + i] == MsgFor(st.run.value, order, i);
    assert two.trace[|one.trace| + i] == MsgFor(one.run.value, later, i);
    assert order[i] in order;
  }

  // ---------------------------------------------------------------------------
  // Ramps
  // ---------------------------------------------------------------------------

  ghost predicate NoQuota<W, S>(steps: seq<Step<W, S>>) {
    forall i :: 0 <= i < |steps| ==> !steps[i].Quota?
  }

  ghost predicate Eased<W>(m: Msg<W>) {
    m.SetQuota? && m.ramp != 0
  }

  /**
   A ramp is used by one dispatch: until another quota change comes, everything sent after it takes effect at once.
   */
  lemma {:induction false} RampOnce<W(!new), S(!new)>(st: State<W, S>, order: seq<W>, more: seq<Step<W, S>>)
    requires st.run.Some? && order != [] && Lists(order, st.workers.Keys) && NoQuota(more)
    ensures var r, q := Next(st, Rebalance(order)), Onward(Next(st, Rebalance(order)), more);
      && (q.run.Some? ==> q.run.value.ramp == 0)
      && r.trace <= q.trace
      && forall i :: |r.trace| <= i < |q.trace| ==> !Eased(q.trace[i])
  {
    if more != [] {
      RampOnce(st, order, more[..|more| - 1]);
    }
  }

  ghost function Onward<W(!new), S>(st: State<W, S>, steps: seq<Step<W, S>>): (r: State<W, S>) {
    if steps == [] then st else Next(Onward(st, steps[..|steps| - 1]), steps[|steps| - 1])
  }

  // ---------------------------------------------------------------------------
  // What is in force
  // ---------------------------------------------------------------------------

  /** No run begins, and no quota and no end comes for this one; those for other runs may. */
  ghost predicate NoOrders<W, S>(steps: seq<Step<W, S>>, run: nat) {
    forall i :: 0 <= i < |steps| ==> !steps[i].Begin? && (steps[i].Quota? || steps[i].End? ==> steps[i].run != run)
  }

  /** Some rebalance among the steps has reached somebody. */
  ghost predicate Reached<W(!new), S>(st: State<W, S>, steps: seq<Step<W, S>>) {
    steps != [] &&
      var rest := steps[..|steps| - 1];
      Reached(st, rest) || Reaches(Onward(st, rest), steps[|steps| - 1])
  }

  /** What was ordered stands, and its ramp waits for the first rebalance that reaches somebody. */
  lemma {:induction false} OrderStands<W(!new), S>(st: State<W, S>, steps: seq<Step<W, S>>)
    requires st.run.Some? && NoOrders(steps, st.run.value.plan.id)
    ensures var q := Onward(st, steps).run;
      && q.Some? && q.value.plan == st.run.value.plan
      && q.value.ramp == if Reached(st, steps) then 0 else st.run.value.ramp
  {
    if steps != [] {
      OrderStands(st, steps[..|steps| - 1]);
    }
  }

  /** The messages share out these virtual users and this rate, worker by worker, in this run with this ramp. */
  ghost predicate Shared<W>(ms: seq<Msg<W>>, order: seq<W>, run: nat, vus: int, rate: int, ramp: int) {
    && |ms| == |order|
    && (forall i :: 0 <= i < |ms| ==> ms[i].StartRun? || ms[i].SetQuota?)
    && (forall i :: 0 <= i < |ms| ==> ms[i].worker == order[i] && ms[i].run == run)
    && (forall i :: 0 <= i < |ms| && ms[i].SetQuota? ==> ms[i].ramp == ramp)
    && Sum(VUsOf(ms)) == vus && Sum(RatesOf(ms)) == rate
  }

  lemma SharedNow<W(!new), S>(st: State<W, S>, order: seq<W>)
    requires Reaches(st, Rebalance(order))
    ensures var r, ms := st.run.value, Messages(st.run.value, order);
      && Next(st, Rebalance(order)).trace == st.trace + ms
      && Shared(ms, order, r.plan.id, r.plan.vus, r.plan.rate, r.ramp)
  {
    SharesAddUp(st, order);
    var r := st.run.value;
    forall i | 0 <= i < |order|
      ensures Messages(r, order)[i] == MsgFor(r, order, i)
    {
    }
  }

  /**
   What the coordinator last ordered is what the workers get: after a quota for the run in progress, whatever joins,
   leaves and rebalances follow, a rebalance shares out exactly these virtual users and this rate, and the first one
   that reaches somebody passes the ramp on, later ones none.
   */
  lemma QuotaIsShared<W(!new), S>(st: State<W, S>, vus: nat, rate: nat, ramp: int, steps: seq<Step<W, S>>,
                                  order: seq<W>)
    requires st.run.Some? && NoOrders(steps, st.run.value.plan.id)
    requires var now := Onward(Next(st, Quota(st.run.value.plan.id, vus, rate, ramp)), steps);
      Reaches(now, Rebalance(order))
    ensures var id := st.run.value.plan.id;
      var quoted := Next(st, Quota(id, vus, rate, ramp));
      var now := Onward(quoted, steps);
      var after := Next(now, Rebalance(order));
      && now.trace <= after.trace
      && Shared(after.trace[|now.trace|..], order, id, vus, rate, if Reached(quoted, steps) then 0 else ramp)
  {
    var quoted := Next(st, Quota(st.run.value.plan.id, vus, rate, ramp));
    var now := Onward(quoted, steps);
    OrderStands(quoted, steps);
    SharedNow(now, order);
    assert Next(now, Rebalance(order)).trace[|now.trace|..] == Messages(now.run.value, order);
  }

  /** The same of a run that begins: until another order comes, its plan is what is shared out, with no ramp. */
  lemma PlanIsShared<W(!new), S>(st: State<W, S>, plan: Plan, steps: seq<Step<W, S>>, order: seq<W>)
    requires NoOrders(steps, plan.id) && Reaches(Onward(Next(st, Begin(plan)), steps), Rebalance(order))
    ensures var now := Onward(Next(st, Begin(plan)), steps);
      var after := Next(now, Rebalance(order));
      && now.run.value.plan == plan && now.trace <= after.trace
      && Shared(after.trace[|now.trace|..], order, plan.id, plan.vus, plan.rate, 0)
  {
    var begun := Next(st, Begin(plan));
    var now := Onward(begun, steps);
    OrderStands(begun, steps);
    SharedNow(now, order);
    assert Next(now, Rebalance(order)).trace[|now.trace|..] == Messages(now.run.value, order);
  }

  ghost predicate NoBegin<W, S>(steps: seq<Step<W, S>>) {
    forall i :: 0 <= i < |steps| ==> !steps[i].Begin?
  }

  /** Once the run in progress has ended, nobody is told anything until another one begins. */
  lemma {:induction false} EndSilences<W(!new), S>(st: State<W, S>, steps: seq<Step<W, S>>)
    requires st.run.Some? && NoBegin(steps)
    ensures var now := Onward(Next(st, End(st.run.value.plan.id)), steps);
      now.run.None? && st.trace <= now.trace && forall i :: |st.trace| <= i < |now.trace| ==> now.trace[i].Left?
  {
    if steps != [] {
      EndSilences(st, steps[..|steps| - 1]);
    }
  }
}
