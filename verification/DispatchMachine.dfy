/**
 A run's dispatch to the agents, as a machine of lock sections and messages.

 A rebalance reads under the run's lock which agents have been told to start, sends its orders
 one by one without a lock, and then writes the new roster under the lock again. Joins, leaves,
 the ticker and operators all start rebalances, so they can overlap. Starting a run is one too,
 on an empty roster. `A` is an agent; `K` names a rebalance.
 */
module DispatchMachine {

  /** What a rebalance goes by: the agents it lists, what it has read of them, and whom it has sent an order. */
  datatype Rebalance<!A> = Rebalance(listed: set<A>, known: set<A>, sent: set<A>)

  /** `dispatched` are the agents the roster marks as told to start. */
  datatype State<!A, !K> = State(dispatched: set<A>, underway: map<K, Rebalance<A>>)

  datatype Step<!A, !K> = Read(from: K, listed: set<A>) | Send(from: K, agent: A) | Write(from: K)

  /** The rebalance lists the agent and has not sent it an order yet. */
  predicate Sends<A, K>(st: State<A, K>, e: Step<A, K>, a: A) {
    e.Send? && e.agent == a && e.from in st.underway
    && a in st.underway[e.from].listed && a !in st.underway[e.from].sent
  }

  /** The rebalance has sent all its orders. */
  predicate Writes<A, K>(st: State<A, K>, e: Step<A, K>) {
    e.Write? && e.from in st.underway && st.underway[e.from].sent == st.underway[e.from].listed
  }

  predicate LeavesOut<A, K>(st: State<A, K>, e: Step<A, K>, a: A) {
    Writes(st, e) && a !in st.underway[e.from].listed
  }

  function Next<A, K>(st: State<A, K>, e: Step<A, K>): (r: State<A, K>) {
    match e
    case Read(k, listed) =>
      if k in st.underway then st else st.(underway := st.underway[k := Rebalance(listed, st.dispatched, {})])
    case Send(k, a) =>
      if !Sends(st, e, a) then st
      else st.(underway := st.underway[k := st.underway[k].(sent := st.underway[k].sent + {a})])
    case Write(k) => if !Writes(st, e) then st else State(st.underway[k].listed, st.underway - {k})
  }

  function Run<A, K>(steps: seq<Step<A, K>>): (r: State<A, K>) {
    if steps == [] then State({}, map[]) else Next(Run(steps[..|steps| - 1]), steps[|steps| - 1])
  }

  datatype Told = Start | NewQuota

  /** What a rebalance tells an agent it lists. */
  function OrderTo<A>(known: set<A>, a: A): (r: Told) {
    if a in known then NewQuota else Start
  }

  /** An agent should be told to start once, and only its quota after that, until a roster leaves it out. */
  datatype Story = Idle | Started | Broken

  function StoryStep<A, K>(s: Story, st: State<A, K>, e: Step<A, K>, a: A): (r: Story) {
    if s.Broken? then Broken
    else if Sends(st, e, a) then
      if (OrderTo(st.underway[e.from].known, a) == Start) == s.Idle? then Started else Broken
    else if LeavesOut(st, e, a) then Idle
    else s
  }

  ghost function StoryOf<A, K>(steps: seq<Step<A, K>>, a: A): (r: Story) {
    if steps == [] then Idle
    else
      var rest := steps[..|steps| - 1];
      StoryStep(StoryOf(rest, a), Run(rest), steps[|steps| - 1], a)
  }

  lemma OneMore<A, K>(steps: seq<Step<A, K>>, e: Step<A, K>, a: A)
    ensures Run(steps + [e]) == Next(Run(steps), e)
    ensures StoryOf(steps + [e], a) == StoryStep(StoryOf(steps, a), Run(steps), e, a)
  {
    assert (steps + [e])[..|steps|] == steps;
  }

  // ---------------------------------------------------------------------------
  // Every interleaving
  // ---------------------------------------------------------------------------

  /** The state before step `n`. */
  function At<A, K>(steps: seq<Step<A, K>>, n: nat): (r: State<A, K>)
    requires n <= |steps|
  {
    Run(steps[..n])
  }

  ghost function StoryAt<A, K>(steps: seq<Step<A, K>>, n: nat, a: A): (r: Story)
    requires n <= |steps|
  {
    StoryOf(steps[..n], a)
  }

  lemma StepAt<A, K>(steps: seq<Step<A, K>>, n: nat, a: A)
    requires n < |steps|
    ensures At(steps, n + 1) == Next(At(steps, n), steps[n])
    ensures StoryAt(steps, n + 1, a) == StoryStep(StoryAt(steps, n, a), At(steps, n), steps[n], a)
  {
    assert steps[..n + 1] == steps[..n] + [steps[n]];
    OneMore(steps[..n], steps[n], a);
  }

  /** Step `p` is an order to the agent. */
  ghost predicate SentAt<A, K>(steps: seq<Step<A, K>>, p: int, a: A) {
    0 <= p < |steps| && Sends(At(steps, p), steps[p], a)
  }

  /** Step `p` is a roster that leaves the agent out. */
  ghost predicate OutAt<A, K>(steps: seq<Step<A, K>>, p: int, a: A) {
    0 <= p < |steps| && LeavesOut(At(steps, p), steps[p], a)
  }

  /** The latest roster written before step `n`. */
  ghost function RosterBefore<A, K>(steps: seq<Step<A, K>>, n: nat): (r: int)
    requires n <= |steps|
    ensures -1 <= r < n
  {
    if n == 0 then -1
    else if Writes(At(steps, n - 1), steps[n - 1]) then n - 1
    else RosterBefore(steps, n - 1)
  }

  /** The latest read of rebalance `k` before step `n`. */
  ghost function ReadBefore<A, K>(steps: seq<Step<A, K>>, n: nat, k: K): (r: int)
    requires n <= |steps|
    ensures -1 <= r < n
  {
    if n == 0 then -1
    else if steps[n - 1].Read? && steps[n - 1].from == k && k !in At(steps, n - 1).underway then n - 1
    else ReadBefore(steps, n - 1, k)
  }

  /** The latest order of rebalance `k` to the agent before step `n`. */
  ghost function OrderBefore<A, K>(steps: seq<Step<A, K>>, n: nat, k: K, a: A): (r: int)
    requires n <= |steps|
    ensures -1 <= r < n
  {
    if n == 0 then -1
    else if SentAt(steps, n - 1, a) && steps[n - 1].from == k then n - 1
    else OrderBefore(steps, n - 1, k, a)
  }

  /** The latest roster before step `n` lists the agent. */
  ghost predicate Rostered<A, K>(steps: seq<Step<A, K>>, n: int, a: A) {
    0 <= n <= |steps| && RosterBefore(steps, n) >= 0 && !OutAt(steps, RosterBefore(steps, n), a)
  }

  /** The order of step `q` comes from a rebalance that read a roster with the agent in it. */
  ghost predicate Informed<A, K>(steps: seq<Step<A, K>>, q: int, a: A) {
    SentAt(steps, q, a) && Rostered(steps, ReadBefore(steps, q, steps[q].from), a)
  }

  /** Two rebalances order the agent, neither of which read a roster with it, and it is not left out in between. */
  ghost predicate Doubled<A, K>(steps: seq<Step<A, K>>, p: int, q: int, a: A) {
    && p < q && SentAt(steps, p, a) && SentAt(steps, q, a)
    && !Informed(steps, p, a) && !Informed(steps, q, a)
    && forall x :: p < x < q ==> !OutAt(steps, x, a)
  }

  /**
   The roster that the order of step `q` relies on was overtaken: since that roster's own order to the agent another
   one has left the agent out, and nobody has ordered it since.
   */
  ghost predicate Orphaned<A, K>(steps: seq<Step<A, K>>, x: int, q: int, a: A) {
    && x < q && OutAt(steps, x, a) && Informed(steps, q, a)
    && (forall y :: x < y < q ==> !SentAt(steps, y, a))
    && var w := RosterBefore(steps, ReadBefore(steps, q, steps[q].from));
       OrderBefore(steps, w, steps[w].from, a) < x
  }

  lemma {:induction false} RosteredIs<A, K>(steps: seq<Step<A, K>>, n: nat, a: A)
    requires n <= |steps|
    ensures a in At(steps, n).dispatched <==> Rostered(steps, n, a)
  {
    if n > 0 {
      RosteredIs(steps, n - 1, a);
      StepAt(steps, n - 1, a);
    }
  }

  /** What a rebalance under way goes by is what its read found. */
  lemma {:induction false} KnownIs<A, K>(steps: seq<Step<A, K>>, n: nat, k: K, a: A)
    requires n <= |steps| && k in At(steps, n).underway
    ensures ReadBefore(steps, n, k) >= 0
    ensures a in At(steps, n).underway[k].known <==> Rostered(steps, ReadBefore(steps, n, k), a)
  {
    StepAt(steps, n - 1, a);
    if k in At(steps, n - 1).underway {
      KnownIs(steps, n - 1, k, a);
    } else {
      RosteredIs(steps, n - 1, a);
    }
  }

  lemma InformedIs<A, K>(steps: seq<Step<A, K>>, q: int, a: A)
    requires SentAt(steps, q, a)
    ensures Informed(steps, q, a) <==> a in At(steps, q).underway[steps[q].from].known
  {
    KnownIs(steps, q, steps[q].from, a);
  }

  /** Whom a rebalance under way has told, it has sent an order. */
  lemma {:induction false} ToldWhen<A, K>(steps: seq<Step<A, K>>, n: nat, k: K, a: A)
    requires n <= |steps| && k in At(steps, n).underway && a in At(steps, n).underway[k].sent
    ensures SentAt(steps, OrderBefore(steps, n, k, a), a)
  {
    StepAt(steps, n - 1, a);
    if !(SentAt(steps, n - 1, a) && steps[n - 1].from == k) {
      ToldWhen(steps, n - 1, k, a);
    }
  }

  /** A roster that lists the agent comes after an order to it. */
  lemma ListedWhen<A, K>(steps: seq<Step<A, K>>, n: nat, a: A)
    requires n <= |steps| && Rostered(steps, n, a)
    ensures var w := RosterBefore(steps, n); SentAt(steps, OrderBefore(steps, w, steps[w].from, a), a)
  {
    var w := RosterBefore(steps, n);
    RosterWrites(steps, n);
    ToldWhen(steps, w, steps[w].from, a);
  }

  lemma {:induction false} RosterWrites<A, K>(steps: seq<Step<A, K>>, n: nat)
    requires n <= |steps| && RosterBefore(steps, n) >= 0
    ensures var w := RosterBefore(steps, n); Writes(At(steps, w), steps[w])
  {
    if !Writes(At(steps, n - 1), steps[n - 1]) {
      RosterWrites(steps, n - 1);
    }
  }

  /** A story that stands at a start goes back to one. */
  lemma {:induction false} StartedWhen<A, K>(steps: seq<Step<A, K>>, n: nat, a: A) returns (p: int)
    requires n <= |steps| && StoryAt(steps, n, a) == Started
    ensures p < n && SentAt(steps, p, a) && !Informed(steps, p, a) && forall x :: p < x < n ==> !OutAt(steps, x, a)
  {
    StepAt(steps, n - 1, a);
    if StoryAt(steps, n - 1, a) == Started {
      p := StartedWhen(steps, n - 1, a);
    } else {
      p := n - 1;
      InformedIs(steps, p, a);
    }
  }

  /** One that stands at the beginning, to a roster that left the agent out, or nothing was ever sent. */
  lemma {:induction false} IdleWhen<A, K>(steps: seq<Step<A, K>>, n: nat, a: A) returns (x: int)
    requires n <= |steps| && StoryAt(steps, n, a) == Idle
    ensures x < n && (x < 0 || OutAt(steps, x, a)) && forall y :: x < y < n ==> !SentAt(steps, y, a)
  {
    if n == 0 {
      x := -1;
    } else {
      StepAt(steps, n - 1, a);
      if OutAt(steps, n - 1, a) {
        x := n - 1;
      } else {
        x := IdleWhen(steps, n - 1, a);
      }
    }
  }

  lemma {:induction false} SinceOrder<A, K>(steps: seq<Step<A, K>>, p: int, n: nat, a: A)
    requires p < n <= |steps| && SentAt(steps, p, a) && forall x :: p < x < n ==> !OutAt(steps, x, a)
    ensures StoryAt(steps, n, a) != Idle
  {
    StepAt(steps, n - 1, a);
    if p < n - 1 {
      SinceOrder(steps, p, n - 1, a);
      assert !OutAt(steps, n - 1, a);
    }
  }

  lemma {:induction false} SinceOut<A, K>(steps: seq<Step<A, K>>, x: int, n: nat, a: A)
    requires x < n <= |steps| && OutAt(steps, x, a) && forall y :: x < y < n ==> !SentAt(steps, y, a)
    ensures StoryAt(steps, n, a) != Started
  {
    StepAt(steps, n - 1, a);
    if x < n - 1 {
      SinceOut(steps, x, n - 1, a);
      assert !SentAt(steps, n - 1, a);
    }
  }

  lemma {:induction false} StaysBroken<A, K>(steps: seq<Step<A, K>>, m: nat, n: nat, a: A)
    requires m <= n <= |steps| && StoryAt(steps, m, a) == Broken
    ensures StoryAt(steps, n, a) == Broken
  {
    if m < n {
      StaysBroken(steps, m, n - 1, a);
      StepAt(steps, n - 1, a);
    }
  }

  lemma {:induction false} BreaksWhen<A, K>(steps: seq<Step<A, K>>, n: nat, a: A) returns (q: nat)
    requires n <= |steps| && StoryAt(steps, n, a) == Broken
    ensures q < n && StoryAt(steps, q, a) != Broken && StoryAt(steps, q + 1, a) == Broken
  {
    if StoryAt(steps, n - 1, a) == Broken {
      q := BreaksWhen(steps, n - 1, a);
    } else {
      q := n - 1;
    }
  }

  lemma DoubledBreaks<A, K>(steps: seq<Step<A, K>>, p: int, q: int, a: A)
    requires Doubled(steps, p, q, a)
    ensures StoryOf(steps, a) == Broken
  {
    SinceOrder(steps, p, q, a);
    InformedIs(steps, q, a);
    StepAt(steps, q, a);
    StaysBroken(steps, q + 1, |steps|, a);
    assert steps[..|steps|] == steps;
  }

  lemma OrphanedBreaks<A, K>(steps: seq<Step<A, K>>, x: int, q: int, a: A)
    requires Orphaned(steps, x, q, a)
    ensures StoryOf(steps, a) == Broken
  {
    SinceOut(steps, x, q, a);
    InformedIs(steps, q, a);
    StepAt(steps, q, a);
    StaysBroken(steps, q + 1, |steps|, a);
    assert steps[..|steps|] == steps;
  }

  /** What breaks a story that stands at a start. */
  lemma DoubledWhen<A, K>(steps: seq<Step<A, K>>, q: nat, a: A) returns (p: int)
    requires q < |steps| && StoryAt(steps, q, a) == Started && StoryAt(steps, q + 1, a) == Broken
    ensures Doubled(steps, p, q, a)
  {
    StepAt(steps, q, a);
    InformedIs(steps, q, a);
    p := StartedWhen(steps, q, a);
  }

  /** What breaks one that stands at the beginning. */
  lemma OrphanedWhen<A, K>(steps: seq<Step<A, K>>, q: nat, a: A) returns (x: int)
    requires q < |steps| && StoryAt(steps, q, a) == Idle && StoryAt(steps, q + 1, a) == Broken
    ensures Orphaned(steps, x, q, a)
  {
    StepAt(steps, q, a);
    InformedIs(steps, q, a);
    x := IdleWhen(steps, q, a);
    ListedWhen(steps, ReadBefore(steps, q, steps[q].from), a);
  }

  lemma BrokenBy<A, K>(steps: seq<Step<A, K>>, a: A) returns (p: int, q: int)
    requires StoryOf(steps, a) == Broken
    ensures Doubled(steps, p, q, a) || Orphaned(steps, p, q, a)
  {
    assert steps[..|steps|] == steps;
    q := BreaksWhen(steps, |steps|, a);
    if StoryAt(steps, q, a) == Started {
      p := DoubledWhen(steps, q, a);
    } else {
      p := OrphanedWhen(steps, q, a);
    }
  }

  /**
   Over every interleaving of rebalances, their orders and their rosters: an agent sees one start and only quota changes
   after it, until it is left out, unless, and only unless, two rebalances that read no roster with it both order it
   without its being left out in between, or one relies on a roster since whose order the agent was left out.
   */
  lemma StoriesHoldIff<A, K>(steps: seq<Step<A, K>>, a: A)
    ensures StoryOf(steps, a) == Broken <==>
      (exists p, q :: Doubled(steps, p, q, a)) || (exists x, q :: Orphaned(steps, x, q, a))
  {
    if StoryOf(steps, a) == Broken {
      var p, q := BrokenBy(steps, a);
    }
    if p, q :| Doubled(steps, p, q, a) {
      DoubledBreaks(steps, p, q, a);
    }
    if x, q :| Orphaned(steps, x, q, a) {
      OrphanedBreaks(steps, x, q, a);
    }
  }

  // ---------------------------------------------------------------------------
  // An agent that stays connected
  // ---------------------------------------------------------------------------

  ghost predicate AlwaysListed<A, K>(steps: seq<Step<A, K>>, a: A) {
    forall n :: 0 <= n < |steps| && steps[n].Read? ==> a in steps[n].listed
  }

  lemma {:induction false} NeverLeftOut<A, K>(steps: seq<Step<A, K>>, n: nat, k: K, a: A)
    requires n <= |steps| && AlwaysListed(steps, a) && k in At(steps, n).underway
    ensures a in At(steps, n).underway[k].listed
  {
    StepAt(steps, n - 1, a);
    if k in At(steps, n - 1).underway {
      NeverLeftOut(steps, n - 1, k, a);
    }
  }

  /** An order of a rebalance that read before any roster was written. */
  ghost predicate Blind<A, K>(steps: seq<Step<A, K>>, q: int, a: A) {
    SentAt(steps, q, a) &&
      var r := ReadBefore(steps, q, steps[q].from);
      r >= 0 && RosterBefore(steps, r) < 0
  }

  /**
   The story of an agent that every rebalance lists breaks exactly when two rebalances that read before the first roster
   was written both order it: it is told to start twice.
   */
  lemma ConnectedStoryHoldsIff<A, K>(steps: seq<Step<A, K>>, a: A)
    requires AlwaysListed(steps, a)
    ensures StoryOf(steps, a) == Broken <==> exists p, q :: p < q && Blind(steps, p, a) && Blind(steps, q, a)
  {
    forall x
      ensures !OutAt(steps, x, a)
    {
      if OutAt(steps, x, a) {
        NeverLeftOut(steps, x, steps[x].from, a);
      }
    }
    forall q
      ensures Blind(steps, q, a) <==> SentAt(steps, q, a) && !Informed(steps, q, a)
    {
      if SentAt(steps, q, a) {
        KnownIs(steps, q, steps[q].from, a);
      }
    }
    if StoryOf(steps, a) == Broken {
      var p, q := BrokenBy(steps, a);
      assert Blind(steps, p, a) && Blind(steps, q, a);
    }
    if p, q :| p < q && Blind(steps, p, a) && Blind(steps, q, a) {
      DoubledBreaks(steps, p, q, a);
    }
  }

  // ---------------------------------------------------------------------------
  // Orders that are up to date
  // ---------------------------------------------------------------------------

  /** A rebalance under way has told the agent. */
  ghost predicate InHand<A, K>(st: State<A, K>, a: A) {
    exists k :: k in st.underway && SentBy(st, k, a)
  }

  ghost predicate SentBy<A, K>(st: State<A, K>, k: K, a: A) {
    k in st.underway && a in st.underway[k].sent
  }

  /** The roster says of the agent what the order's rebalance has read, and if that is nothing, none in hand told it. */
  ghost predicate Current<A, K>(st: State<A, K>, k: K, a: A)
    requires k in st.underway
  {
    (a in st.underway[k].known <==> a in st.dispatched) && (a in st.dispatched || !InHand(st, a))
  }

  /** A roster lists the agent although another has left it out since the rebalance's order to it. */
  ghost predicate Belated<A, K>(steps: seq<Step<A, K>>, x: int, w: int, a: A) {
    && x < w && OutAt(steps, x, a) && 0 <= w < |steps| && Writes(At(steps, w), steps[w]) && !OutAt(steps, w, a)
    && OrderBefore(steps, w, steps[w].from, a) < x
  }

  ghost predicate AllCurrent<A, K>(steps: seq<Step<A, K>>, a: A) {
    && (forall q :: SentAt(steps, q, a) ==> Current(At(steps, q), steps[q].from, a))
    && (forall x, w :: !Belated(steps, x, w, a))
  }

  /** An order stays in hand until it is on the roster, unless the agent is left out. */
  lemma {:induction false} OrderCounts<A, K>(steps: seq<Step<A, K>>, p: int, n: nat, a: A)
    requires p < n <= |steps| && SentAt(steps, p, a) && forall x :: p < x < n ==> !OutAt(steps, x, a)
    ensures a in At(steps, n).dispatched || InHand(At(steps, n), a)
  {
    StepAt(steps, n - 1, a);
    if p == n - 1 {
      assert SentBy(At(steps, n), steps[p].from, a);
    } else {
      OrderCounts(steps, p, n - 1, a);
      assert !OutAt(steps, n - 1, a);
      if InHand(At(steps, n - 1), a) {
        var k :| k in At(steps, n - 1).underway && SentBy(At(steps, n - 1), k, a);
        assert SentBy(At(steps, n), k, a) || a in At(steps, n).dispatched;
      }
    }
  }

  /** A roster after a leave-out that lists the agent again goes back to a later order, unless it is belated. */
  lemma RosterIsLater<A, K>(steps: seq<Step<A, K>>, x: int, q: nat, a: A) returns (y: int)
    requires x < q <= |steps| && OutAt(steps, x, a) && Rostered(steps, q, a)
    requires forall w :: !Belated(steps, x, w, a)
    ensures x < y < q && SentAt(steps, y, a)
  {
    var w := RosterBefore(steps, q);
    RosterWrites(steps, q);
    LatestRoster(steps, x, q);
    ListedWhen(steps, q, a);
    y := OrderBefore(steps, w, steps[w].from, a);
    assert !Belated(steps, x, w, a);
  }

  lemma {:induction false} LatestRoster<A, K>(steps: seq<Step<A, K>>, x: int, n: nat)
    requires 0 <= x < n <= |steps| && Writes(At(steps, x), steps[x])
    ensures RosterBefore(steps, n) >= x
  {
    if x < n - 1 {
      LatestRoster(steps, x, n - 1);
    }
  }

  /**
   Rebalances may overlap without harm to an agent: as long as each order to it goes by what the roster still says, no
   other rebalance in hand has told it to start, and no roster is belated.
   */
  lemma CurrentStoryHolds<A, K>(steps: seq<Step<A, K>>, a: A)
    requires AllCurrent(steps, a)
    ensures StoryOf(steps, a) != Broken
  {
    if StoryOf(steps, a) == Broken {
      var p, q := BrokenBy(steps, a);
      assert Current(At(steps, q), steps[q].from, a);
      InformedIs(steps, q, a);
      RosteredIs(steps, q, a);
      if Doubled(steps, p, q, a) {
        OrderCounts(steps, p, q, a);
      } else {
        var y := RosterIsLater(steps, p, q, a);
      }
    }
  }

  /** The agent has been sent an order since a roster last left it out. */
  ghost predicate ToldOf<A, K>(steps: seq<Step<A, K>>, a: A) {
    steps != [] &&
      var rest, e := steps[..|steps| - 1], steps[|steps| - 1];
      Sends(Run(rest), e, a) || (ToldOf(rest, a) && !LeavesOut(Run(rest), e, a))
  }

  /** Whenever the agent is sent an order, what the rebalance had read of it is still so. */
  ghost predicate UpToDate<A, K>(steps: seq<Step<A, K>>, a: A) {
    steps != [] ==>
      var rest, e := steps[..|steps| - 1], steps[|steps| - 1];
      && UpToDate(rest, a)
      && (Sends(Run(rest), e, a) ==> (a in Run(rest).underway[e.from].known <==> ToldOf(rest, a)))
  }

  /** A story put in terms of what has been sent. */
  lemma {:induction false} UpToDateIs<A, K>(steps: seq<Step<A, K>>, a: A)
    ensures StoryOf(steps, a) != Broken <==> UpToDate(steps, a)
    ensures StoryOf(steps, a) != Broken ==> (StoryOf(steps, a) == Started <==> ToldOf(steps, a))
  {
    if steps != [] {
      UpToDateIs(steps[..|steps| - 1], a);
    }
  }

  // ---------------------------------------------------------------------------
  // One at a time
  // ---------------------------------------------------------------------------

  /** None reads before the one under way has written. */
  ghost predicate Serial<A, K>(steps: seq<Step<A, K>>) {
    steps != [] ==>
      var rest, e := steps[..|steps| - 1], steps[|steps| - 1];
      Serial(rest) && (e.Read? ==> Run(rest).underway == map[])
  }

  /** At most one is under way; it has read what the roster still says, and all others have been written. */
  ghost predicate InTurn<A, K>(st: State<A, K>, s: Story, a: A) {
    && s != Broken
    && (forall j, k :: j in st.underway && k in st.underway ==> j == k)
    && (forall k :: k in st.underway ==> Fresh(st, k))
    && (s == Started <==> a in st.dispatched || InHand(st, a))
  }

  ghost predicate Fresh<A, K>(st: State<A, K>, k: K)
    requires k in st.underway
  {
    st.underway[k].known == st.dispatched && st.underway[k].sent <= st.underway[k].listed
  }

  lemma InTurnNext<A, K>(st: State<A, K>, s: Story, e: Step<A, K>, a: A)
    requires InTurn(st, s, a) && (e.Read? ==> st.underway == map[])
    ensures InTurn(Next(st, e), StoryStep(s, st, e, a), a)
  {
    var r := Next(st, e);
    forall k | k in r.underway
      ensures Fresh(r, k)
    {
      assert k in st.underway ==> Fresh(st, k);
    }
    HandNext(st, e, a);
  }

  /** With one at a time, whom it has told is known from its own steps. */
  lemma HandNext<A, K>(st: State<A, K>, e: Step<A, K>, a: A)
    requires (forall j, k :: j in st.underway && k in st.underway ==> j == k) && (e.Read? ==> st.underway == map[])
    requires forall k :: k in st.underway ==> Fresh(st, k)
    ensures InHand(Next(st, e), a) <==> !Writes(st, e) && (InHand(st, a) || Sends(st, e, a))
    ensures Writes(st, e) ==> (InHand(st, a) <==> a in st.underway[e.from].listed)
    ensures e.from in st.underway ==> Fresh(st, e.from) && (InHand(st, a) <==> a in st.underway[e.from].sent)
  {
    var r := Next(st, e);
    if InHand(st, a) {
      var k :| k in st.underway && SentBy(st, k, a);
      assert SentBy(r, k, a) || Writes(st, e);
    }
    if Sends(st, e, a) {
      assert SentBy(r, e.from, a);
    }
    if e.from in st.underway {
      assert a in st.underway[e.from].sent ==> SentBy(st, e.from, a);
    }
    if InHand(r, a) {
      var k :| k in r.underway && SentBy(r, k, a);
      assert SentBy(st, k, a) || Sends(st, e, a);
    }
  }

  lemma {:induction false} SerialInTurn<A, K>(steps: seq<Step<A, K>>, a: A)
    requires Serial(steps)
    ensures InTurn(Run(steps), StoryOf(steps, a), a)
  {
    if steps != [] {
      var rest, e := steps[..|steps| - 1], steps[|steps| - 1];
      SerialInTurn(rest, a);
      InTurnNext(Run(rest), StoryOf(rest, a), e, a);
    }
  }

  lemma {:induction false} SerialBefore<A, K>(steps: seq<Step<A, K>>, n: nat)
    requires Serial(steps) && n <= |steps|
    ensures Serial(steps[..n])
  {
    if n < |steps| {
      SerialBefore(steps[..|steps| - 1], n);
      assert steps[..|steps| - 1][..n] == steps[..n];
    } else {
      assert steps[..n] == steps;
    }
  }

  /** Between its order to an agent and its roster a rebalance is under way. */
  lemma {:induction false} HeldSince<A, K>(steps: seq<Step<A, K>>, n: nat, k: K, a: A, m: nat)
    requires n <= |steps| && SentBy(At(steps, n), k, a) && OrderBefore(steps, n, k, a) < m <= n
    ensures SentBy(At(steps, m), k, a)
  {
    if m < n {
      StepAt(steps, n - 1, a);
      HeldSince(steps, n - 1, k, a, m);
    }
  }

  /** Then orders are up to date. */
  lemma SerialIsCurrent<A, K>(steps: seq<Step<A, K>>, a: A)
    requires Serial(steps)
    ensures AllCurrent(steps, a)
  {
    forall q | SentAt(steps, q, a)
      ensures Current(At(steps, q), steps[q].from, a)
    {
      SerialBefore(steps, q);
      SerialInTurn(steps[..q], a);
      assert Fresh(At(steps, q), steps[q].from);
    }
    forall x, w
      ensures !Belated(steps, x, w, a)
    {
      if Belated(steps, x, w, a) {
        var k := steps[w].from;
        StepAt(steps, x, a);
        HeldSince(steps, w, k, a, x);
        HeldSince(steps, w, k, a, x + 1);
        SerialBefore(steps, x);
        SerialInTurn(steps[..x], a);
      }
    }
  }

  /** So rebalances one at a time keep every agent's story. */
  lemma SerialStoriesHold<A, K>(steps: seq<Step<A, K>>, a: A)
    requires Serial(steps)
    ensures StoryOf(steps, a) != Broken && UpToDate(steps, a)
  {
    SerialIsCurrent(steps, a);
    CurrentStoryHolds(steps, a);
    UpToDateIs(steps, a);
  }

  // ---------------------------------------------------------------------------
  // Two that overlap
  // ---------------------------------------------------------------------------

  /** Only orders and the roster of one rebalance. */
  ghost predicate Acts<A, K>(steps: seq<Step<A, K>>, i: K) {
    forall n :: 0 <= n < |steps| ==> steps[n].from == i && !steps[n].Read?
  }

  /** How things stand while `i`, which lists `listed`, is at work, having read `d`. */
  ghost predicate Midway<A, K>(st: State<A, K>, s: Story, i: K, listed: set<A>, d: set<A>, a: A) {
    && s != Broken
    && if i in st.underway then
         var r := st.underway[i];
         && r.listed == listed && r.known == d && r.sent <= listed && st.dispatched == d
         && (s == Started <==> a in d || a in r.sent)
       else st.dispatched == listed && (s == Started <==> a in listed)
  }

  lemma {:induction false} MidwayNext<A, K>(st: State<A, K>, s: Story, e: Step<A, K>, i: K, listed: set<A>, d: set<A>,
                                            a: A)
    requires Midway(st, s, i, listed, d, a) && e.from == i && !e.Read?
    ensures Midway(Next(st, e), StoryStep(s, st, e, a), i, listed, d, a)
    ensures forall j :: j != i ==> (j in Next(st, e).underway <==> j in st.underway)
    ensures forall j :: j != i && j in st.underway ==> Next(st, e).underway[j] == st.underway[j]
  {
  }

  lemma {:induction false} MidwayActs<A, K>(steps: seq<Step<A, K>>, mid: seq<Step<A, K>>, i: K, listed: set<A>,
                                            d: set<A>,
                                           j: K, a: A)
    requires Midway(Run(steps), StoryOf(steps, a), i, listed, d, a) && Acts(mid, i) && i != j
    ensures Midway(Run(steps + mid), StoryOf(steps + mid, a), i, listed, d, a)
    ensures j in Run(steps + mid).underway <==> j in Run(steps).underway
    ensures j in Run(steps).underway ==> Run(steps + mid).underway[j] == Run(steps).underway[j]
  {
    if mid == [] {
      assert steps + mid == steps;
    } else {
      var n := |mid| - 1;
      MidwayActs(steps, mid[..n], i, listed, d, j, a);
      assert steps + mid == steps + mid[..n] + [mid[n]];
      OneMore(steps + mid[..n], mid[n], a);
      MidwayNext(Run(steps + mid[..n]), StoryOf(steps + mid[..n], a), mid[n], i, listed, d, a);
    }
  }

  /** What the later of two rebalances does to a story the earlier one is in the middle of. */
  lemma LateOrder<A, K>(steps: seq<Step<A, K>>, i: K, listed: set<A>, j: K, d: set<A>, a: A)
    requires Midway(Run(steps), StoryOf(steps, a), i, listed, d, a)
    requires j in Run(steps).underway && Run(steps).underway[j].known == d && Sends(Run(steps), Send(j, a), a)
    ensures StoryOf(steps + [Send(j, a)], a) == Broken <==>
      (a in d) != (if i in Run(steps).underway then a in d || a in Run(steps).underway[i].sent else a in listed)
  {
    OneMore(steps, Send(j, a), a);
  }

  /** Up to where both have read and one has done some of its work. */
  function Overlapped<A, K>(steps: seq<Step<A, K>>, i: K, first: set<A>, early: seq<Step<A, K>>, j: K, second: set<A>,
                            late: seq<Step<A, K>>): (r: seq<Step<A, K>>)
  {
    steps + [Read(i, first)] + early + [Read(j, second)] + late
  }

  /**
   Two rebalances that overlap, after any number of them one at a time: the second reads while the first has yet to
   write, and sends an agent its order some time later. That breaks the agent's story exactly when the first one
   has meanwhile written a roster that differs from the one the second has read in this agent, or has not, and has
   told the agent to start.
   */
  lemma OverlapBreaksIff<A, K>(steps: seq<Step<A, K>>, i: K, first: set<A>, early: seq<Step<A, K>>, j: K,
                               second: set<A>, late: seq<Step<A, K>>, a: A)
    requires Serial(steps) && Run(steps).underway == map[] && i != j && a in second
    requires Acts(early, i) && i in Run(steps + [Read(i, first)] + early).underway && Acts(late, i)
    ensures var d, now := Run(steps).dispatched, Overlapped(steps, i, first, early, j, second, late);
      StoryOf(now + [Send(j, a)], a) == Broken <==>
        if i in Run(now).underway then a !in d && a in Run(now).underway[i].sent else (a in first) != (a in d)
  {
    var d := Run(steps).dispatched;
    var one := steps + [Read(i, first)];
    SerialInTurn(steps, a);
    OneMore(steps, Read(i, first), a);
    assert Midway(Run(one), StoryOf(one, a), i, first, d, a);
    MidwayActs(one, early, i, first, d, j, a);
    var two := one + early + [Read(j, second)];
    OneMore(one + early, Read(j, second), a);
    assert Midway(Run(two), StoryOf(two, a), i, first, d, a);
    MidwayActs(two, late, i, first, d, j, a);
    LateOrder(two + late, i, first, j, d, a);
  }
}
