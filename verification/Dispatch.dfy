/**
 The orders the coordinator sends when it dispatches a run: who is told to start and who only
 gets a new quota, how the run's load is split over the agents, and the roster that goes with them.
 */
module Dispatch {

  import opened Apportion
  import D = DispatchMachine
  import opened IdSpace
  import opened Lifecycle
  import opened RunRecord
  import E = Executor

  /** A connected agent and the virtual users it says it can carry. */
  datatype Session<A> = Session(id: A, maxVUs: int)

  /** An iteration quota of zero stands for no limit. */
  datatype Order<A> =
    | StartRun(agent: A, vuQuota: int, rateQuota: int, iterationQuota: int, shardIndex: nat, shardCount: nat,
               idBase: int)
    | SetQuota(agent: A, vuQuota: int, rateQuota: int, ramp: int)

  function Weights<A>(sessions: seq<Session<A>>): (r: seq<int>) {
    seq(|sessions|, i requires 0 <= i < |sessions| => if sessions[i].maxVUs > 1 then sessions[i].maxVUs else 1)
  }

  function Quotas<A>(orders: seq<Order<A>>): (r: seq<int>) {
    seq(|orders|, i requires 0 <= i < |orders| => orders[i].vuQuota)
  }

  function Rates<A>(orders: seq<Order<A>>): (r: seq<int>) {
    seq(|orders|, i requires 0 <= i < |orders| => orders[i].rateQuota)
  }

  function Iterations<A>(orders: seq<Order<A>>): (r: seq<int>) {
    seq(|orders|, i requires 0 <= i < |orders| => if orders[i].StartRun? then orders[i].iterationQuota else 0)
  }

  lemma {:induction false} EveryAgentWeighs<A>(sessions: seq<Session<A>>, n: nat)
    requires n <= |sessions|
    ensures TotalWeight(Weights(sessions)[..n]) >= n
  {
    if n > 0 {
      EveryAgentWeighs(sessions, n - 1);
      assert Weights(sessions)[..n][..n - 1] == Weights(sessions)[..n - 1];
    }
  }

  /** Whatever the agents advertised, the quotas add up to the peak. */
  lemma QuotasAddUp<A>(sessions: seq<Session<A>>, peak: int, quotas: seq<int>)
    requires sessions != [] && Split(peak, Weights(sessions), quotas)
    ensures Sum(quotas) == if peak > 0 then peak else 0
  {
    EveryAgentWeighs(sessions, |sessions|);
    assert Weights(sessions)[..|sessions|] == Weights(sessions);
    if peak <= 0 {
      SumOfZeros(quotas);
    }
  }

  // ---------------------------------------------------------------------------
  // Shares follow capacity
  // ---------------------------------------------------------------------------

  /** What an agent counts for: the virtual users it says it can carry, and one at least. */
  function Capacity<A>(x: Session<A>): (r: nat) {
    if x.maxVUs < 1 then 1 else x.maxVUs
  }

  /** What the first `n` agents can carry together. */
  function CapacityOf<A>(sessions: seq<Session<A>>, n: nat): (r: nat)
    requires n <= |sessions|
  {
    if n == 0 then 0 else CapacityOf(sessions, n - 1) + Capacity(sessions[n - 1])
  }

  lemma {:induction false} WeightsAreCapacities<A>(sessions: seq<Session<A>>, n: nat)
    requires n <= |sessions|
    ensures TotalWeight(Weights(sessions)[..n]) == CapacityOf(sessions, n) >= n
  {
    if n > 0 {
      WeightsAreCapacities(sessions, n - 1);
      assert Weights(sessions)[..n][..n - 1] == Weights(sessions)[..n - 1];
    }
  }

  /** The share of an agent is its part of the total, by capacity, rounded down or up; none of nothing. */
  ghost predicate Proportional<A>(total: int, sessions: seq<Session<A>>, shares: seq<int>, i: nat)
    requires i < |sessions| == |shares|
  {
    var all := CapacityOf(sessions, |sessions|);
    if total <= 0 then shares[i] == 0
    else (shares[i] - 1) * all < total * Capacity(sessions[i]) < (shares[i] + 1) * all
  }

  /** An agent with more capacity never gets less. */
  ghost predicate Favours<A>(sessions: seq<Session<A>>, shares: seq<int>, i: nat, j: nat)
    requires i < |sessions| == |shares| && j < |sessions|
  {
    Capacity(sessions[i]) > Capacity(sessions[j]) ==> shares[i] >= shares[j]
  }

  ghost predicate ByCapacity<A>(total: int, sessions: seq<Session<A>>, shares: seq<int>) {
    && |shares| == |sessions|
    && (forall i :: 0 <= i < |sessions| ==> Proportional(total, sessions, shares, i))
    && (forall i, j :: 0 <= i < |sessions| && 0 <= j < |sessions| ==> Favours(sessions, shares, i, j))
  }

  /** A split over the agents goes by what they advertised. */
  lemma SplitByCapacity<A>(total: int, sessions: seq<Session<A>>, shares: seq<int>)
    requires Split(total, Weights(sessions), shares)
    ensures ByCapacity(total, sessions, shares)
  {
    var weights := Weights(sessions);
    WeightsAreCapacities(sessions, |sessions|);
    assert weights[..|sessions|] == weights;
    forall i | 0 <= i < |sessions|
      ensures Proportional(total, sessions, shares, i)
    {
      if total > 0 {
        FloorOrCeiling(total, weights, shares, i);
      }
    }
    forall i, j | 0 <= i < |sessions| && 0 <= j < |sessions|
      ensures Favours(sessions, shares, i, j)
    {
      if weights[i] > weights[j] {
        Monotone(total, weights, shares, i, j);
      }
    }
  }

  // ---------------------------------------------------------------------------
  // Orders
  // ---------------------------------------------------------------------------

  ghost predicate Known<A>(r: RunState<A>, agent: A) {
    agent in r.participants && r.participants[agent].dispatched
  }

  /** A start from place `i` of the list. */
  ghost predicate StartsAt<A>(sessions: seq<Session<A>>, o: Order<A>, i: nat) {
    o.StartRun? && o.shardIndex == i && o.shardCount == |sessions| && o.idBase == AgentBase(i)
  }

  /**
   What one agent is told by a rebalance: to start if the run does not know it, with no limit on iterations, else only
   its new quota, eased by the run's ramp.
   */
  ghost predicate OrderFor<A>(r: RunState<A>, sessions: seq<Session<A>>, orders: seq<Order<A>>, i: nat)
    requires i < |sessions| == |orders|
  {
    && orders[i].agent == sessions[i].id
    && (orders[i].SetQuota? <==> Known(r, sessions[i].id))
    && (orders[i].SetQuota? ==> orders[i].ramp == r.ramp)
    && (orders[i].StartRun? ==> StartsAt(sessions, orders[i], i) && orders[i].iterationQuota == 0)
  }

  /** The new roster: every agent listed, with its quota, in the phase given, marked as told. */
  ghost predicate RosterOf<A>(participants: map<A, Participant>, sessions: seq<Session<A>>, quotas: seq<int>,
                              phases: seq<Phase>)
    requires |quotas| == |phases| == |sessions|
  {
    && (forall a :: a in participants ==> exists i :: 0 <= i < |sessions| && sessions[i].id == a)
    && (forall i :: 0 <= i < |sessions| ==>
          sessions[i].id in participants && participants[sessions[i].id] == Participant(quotas[i], phases[i], true))
  }

  ghost predicate Apart<A>(sessions: seq<Session<A>>) {
    forall i, j :: 0 <= i < j < |sessions| ==> sessions[i].id != sessions[j].id
  }

  /**
   A rebalance of a run in this state: an order and a share of peak and rate for every agent, all of them taken to
   run.
   */
  ghost predicate Dispatched<A>(r: RunState<A>, sessions: seq<Session<A>>, rate: int, orders: seq<Order<A>>,
                                parts: map<A, Participant>)
  {
    && |orders| == |sessions|
    && Split(r.peak, Weights(sessions), Quotas(orders)) && Split(rate, Weights(sessions), Rates(orders))
    && Sum(Quotas(orders)) == (if r.peak > 0 then r.peak else 0)
    && (forall i :: 0 <= i < |sessions| ==> OrderFor(r, sessions, orders, i))
    && RosterOf(parts, sessions, Quotas(orders), seq(|sessions|, k => Running))
  }

  function FirstPhases<A>(sessions: seq<Session<A>>, unreached: set<A>): (r: seq<Phase>) {
    seq(|sessions|, i requires 0 <= i < |sessions| => if sessions[i].id in unreached then Failed else Pending)
  }

  /** The first dispatch of a run: everybody starts, with a share of peak, rate and iterations. */
  ghost predicate DispatchedFirst<A>(sessions: seq<Session<A>>, peak: int, rate: int, iterations: nat,
                                     unreached: set<A>, orders: seq<Order<A>>, parts: map<A, Participant>)
  {
    && |orders| == |sessions|
    && Split(peak, Weights(sessions), Quotas(orders)) && Split(rate, Weights(sessions), Rates(orders))
    && Split(Capped(iterations), Weights(sessions), Iterations(orders))
    && (forall i :: 0 <= i < |sessions| ==> orders[i].agent == sessions[i].id && StartsAt(sessions, orders[i], i))
    && RosterOf(parts, sessions, Quotas(orders), FirstPhases(sessions, unreached))
  }

  /** The shares and the orders that go with them. */
  method Assign<A(==)>(sessions: seq<Session<A>>, known: map<A, Participant>, peak: int, rate: int, ramp: int,
                       ghost r: RunState<A>)
    returns (orders: seq<Order<A>>, quotas: seq<int>)
    requires sessions != [] && r.participants == known && r.peak == peak && r.ramp == ramp
    ensures |orders| == |sessions| && quotas == Quotas(orders)
    ensures Split(peak, Weights(sessions), quotas) && Split(rate, Weights(sessions), Rates(orders))
    ensures Sum(quotas) == if peak > 0 then peak else 0
    ensures forall i :: 0 <= i < |sessions| ==> OrderFor(r, sessions, orders, i)
  {
    var weights := Weights(sessions);
    quotas := Largest(peak, weights);
    var rateShares := Largest(rate, weights);
    orders := Orders(sessions, known, quotas, rateShares, ramp);
    OrdersFit(r, sessions, quotas, rateShares, orders);
    QuotasAddUp(sessions, peak, quotas);
  }

  /** The same for the first dispatch, which tells everybody to start. */
  method AssignFirst<A>(sessions: seq<Session<A>>, peak: int, rate: int, iterations: nat)
    returns (orders: seq<Order<A>>, quotas: seq<int>)
    ensures |orders| == |sessions| && quotas == Quotas(orders)
    ensures Split(peak, Weights(sessions), quotas) && Split(rate, Weights(sessions), Rates(orders))
    ensures Split(Capped(iterations), Weights(sessions), Iterations(orders))
    ensures forall i :: 0 <= i < |sessions| ==> orders[i].agent == sessions[i].id && StartsAt(sessions, orders[i], i)
  {
    var weights := Weights(sessions);
    quotas := Largest(peak, weights);
    var rateShares := Largest(rate, weights);
    var iterShares := Largest(Capped(iterations), weights);
    NothingOfNothing(weights, iterShares);
    orders := [];
    for i := 0 to |sessions|
      invariant |orders| == i
      invariant forall k :: 0 <= k < i ==>
        orders[k] == StartRun(sessions[k].id, quotas[k], rateShares[k], iterShares[k], k, |sessions|, AgentBase(k))
    {
      var share := if iterations > 0 then iterShares[i] else 0;
      orders := orders + [StartRun(sessions[i].id, quotas[i], rateShares[i], share, i, |sessions|, AgentBase(i))];
    }
    assert Rates(orders) == rateShares && Iterations(orders) == iterShares;
  }

  lemma NothingOfNothing(weights: seq<int>, shares: seq<int>)
    ensures Split(0, weights, shares) ==> forall i :: 0 <= i < |shares| ==> shares[i] == 0
  {
  }

  function OrderOf<A>(sessions: seq<Session<A>>, known: map<A, Participant>, vuShares: seq<int>, rateShares: seq<int>,
                      ramp: int, i: nat): (r: Order<A>)
    requires i < |sessions| == |vuShares| == |rateShares|
  {
    var id := sessions[i].id;
    if id in known && known[id].dispatched then SetQuota(id, vuShares[i], rateShares[i], ramp)
    else StartRun(id, vuShares[i], rateShares[i], 0, i, |sessions|, AgentBase(i))
  }

  method Orders<A(==)>(sessions: seq<Session<A>>, known: map<A, Participant>, vuShares: seq<int>,
                       rateShares: seq<int>, ramp: int)
    returns (orders: seq<Order<A>>)
    requires |vuShares| == |rateShares| == |sessions|
    ensures |orders| == |sessions|
    ensures forall i :: 0 <= i < |sessions| ==> orders[i] == OrderOf(sessions, known, vuShares, rateShares, ramp, i)
    ensures Quotas(orders) == vuShares && Rates(orders) == rateShares
  {
    orders := [];
    for i := 0 to |sessions|
      invariant |orders| == i
      invariant forall k :: 0 <= k < i ==> orders[k] == OrderOf(sessions, known, vuShares, rateShares, ramp, k)
    {
      var id := sessions[i].id;
      if id in known && known[id].dispatched {
        orders := orders + [SetQuota(id, vuShares[i], rateShares[i], ramp)];
      } else {
        orders := orders + [StartRun(id, vuShares[i], rateShares[i], 0, i, |sessions|, AgentBase(i))];
      }
    }
  }

  lemma OrdersFit<A>(r: RunState<A>, sessions: seq<Session<A>>, vuShares: seq<int>, rateShares: seq<int>,
                     orders: seq<Order<A>>)
    requires |vuShares| == |rateShares| == |sessions| == |orders|
    requires forall i :: 0 <= i < |sessions| ==>
      orders[i] == OrderOf(sessions, r.participants, vuShares, rateShares, r.ramp, i)
    ensures forall i :: 0 <= i < |sessions| ==> OrderFor(r, sessions, orders, i)
  {
    forall i | 0 <= i < |sessions|
      ensures OrderFor(r, sessions, orders, i)
    {
      assert orders[i] == OrderOf(sessions, r.participants, vuShares, rateShares, r.ramp, i);
    }
  }

  method RosterFor<A(==)>(sessions: seq<Session<A>>, quotas: seq<int>, phases: seq<Phase>)
    returns (participants: map<A, Participant>)
    requires |quotas| == |phases| == |sessions| && Apart(sessions)
    ensures RosterOf(participants, sessions, quotas, phases)
  {
    participants := map[];
    for i := 0 to |sessions|
      invariant forall a :: a in participants ==> exists k :: 0 <= k < i && sessions[k].id == a
      invariant forall k :: 0 <= k < i ==>
        sessions[k].id in participants && participants[sessions[k].id] == Participant(quotas[k], phases[k], true)
    {
      participants := participants[sessions[i].id := Participant(quotas[i], phases[i], true)];
    }
  }

  // ---------------------------------------------------------------------------
  // A dispatch, seen from the machine of overlapping ones
  // ---------------------------------------------------------------------------

  function Ids<A>(sessions: seq<Session<A>>): (s: set<A>) {
    set i | 0 <= i < |sessions| :: sessions[i].id
  }

  lemma RosterEntries<A>(parts: map<A, Participant>, sessions: seq<Session<A>>, quotas: seq<int>, phases: seq<Phase>)
    requires |quotas| == |phases| == |sessions| && RosterOf(parts, sessions, quotas, phases)
    ensures forall i :: 0 <= i < |sessions| ==>
      sessions[i].id in parts && parts[sessions[i].id] == Participant(quotas[i], phases[i], true)
    ensures parts.Keys == Ids(sessions)
  {
    forall a
      ensures a in parts <==> a in Ids(sessions)
    {
      if a in parts {
        var i :| 0 <= i < |sessions| && sessions[i].id == a;
        assert sessions[i].id in Ids(sessions);
      }
    }
  }

  /** Peak and rate of a rebalance are split by what the agents advertised, */
  lemma DispatchedByCapacity<A>(r: RunState<A>, sessions: seq<Session<A>>, rate: int, orders: seq<Order<A>>,
                                parts: map<A, Participant>)
    requires Dispatched(r, sessions, rate, orders, parts)
    ensures ByCapacity(r.peak, sessions, Quotas(orders)) && ByCapacity(rate, sessions, Rates(orders))
  {
    SplitByCapacity(r.peak, sessions, Quotas(orders));
    SplitByCapacity(rate, sessions, Rates(orders));
  }

  /** and those of the first dispatch, and its iterations. */
  lemma FirstByCapacity<A>(sessions: seq<Session<A>>, peak: int, rate: int, iterations: nat, unreached: set<A>,
                           orders: seq<Order<A>>, parts: map<A, Participant>)
    requires DispatchedFirst(sessions, peak, rate, iterations, unreached, orders, parts)
    ensures ByCapacity(peak, sessions, Quotas(orders)) && ByCapacity(rate, sessions, Rates(orders))
    ensures ByCapacity(Capped(iterations), sessions, Iterations(orders))
  {
    SplitByCapacity(peak, sessions, Quotas(orders));
    SplitByCapacity(rate, sessions, Rates(orders));
    SplitByCapacity(Capped(iterations), sessions, Iterations(orders));
  }

  /**
   What the workers of all agents run together once a rebalance has split the peak by capacity and every agent its
   share among its workers: the run's peak where the profile asks for its own, and the curve below that.
   */
  lemma FleetFollowsDispatch<A>(r: RunState<A>, sessions: seq<Session<A>>, rate: int, orders: seq<Order<A>>,
                                parts: map<A, Participant>, workers: seq<nat>, P: nat, g: nat)
    requires Dispatched(r, sessions, rate, orders, parts) && sessions != [] && r.peak >= 0
    requires |workers| == |orders| && forall i :: 0 <= i < |workers| ==> workers[i] > 0
    requires P > 0 && g > 0
    ensures forall i :: 0 <= i < |orders| ==> Quotas(orders)[i] >= 0
    ensures var quotas := E.WorkerQuotas(Quotas(orders), workers, |orders|);
      && Sum(quotas) == r.peak && (g >= P ==> E.Fleet(quotas, P, g) == r.peak)
      && (g < P ==> 2 * (r.peak * g) - E.Carrying(quotas) * P <= 2 * (E.Fleet(quotas, P, g) * P))
      && (g < P && r.peak > 0 ==> E.Fleet(quotas, P, g) * P < r.peak * g + E.Carrying(quotas) * P)
  {
    E.FleetFollowsProfile(r.peak, Weights(sessions), Quotas(orders), workers, P, g);
  }

  lemma RosterMarks<A>(parts: map<A, Participant>, sessions: seq<Session<A>>, quotas: seq<int>, phases: seq<Phase>,
                       q: RunState<A>)
    requires |quotas| == |phases| == |sessions| && RosterOf(parts, sessions, quotas, phases) && q.participants == parts
    ensures Marked(q.participants) == Ids(sessions)
  {
    forall a
      ensures a in Marked(q.participants) <==> a in Ids(sessions)
    {
      if a in Marked(q.participants) {
        var i :| 0 <= i < |sessions| && sessions[i].id == a;
        assert sessions[i].id in Ids(sessions);
      }
    }
  }

  /**
   Its orders are those of a rebalance that has read this run, with no limit on iterations in a start and the run's ramp
   in every new quota, and the roster it writes marks exactly the agents listed.
   */
  lemma DispatchIsSend<A>(r: RunState<A>, sessions: seq<Session<A>>, rate: int, orders: seq<Order<A>>,
                          parts: map<A, Participant>, q: RunState<A>)
    requires Dispatched(r, sessions, rate, orders, parts) && q.participants == parts
    ensures forall i :: 0 <= i < |sessions| ==>
      (orders[i].StartRun? <==> D.OrderTo(Marked(r.participants), sessions[i].id) == D.Start)
    ensures forall i :: 0 <= i < |sessions| ==> orders[i].agent == sessions[i].id
    ensures forall i :: 0 <= i < |sessions| && orders[i].StartRun? ==> orders[i].iterationQuota == 0
    ensures forall i :: 0 <= i < |sessions| && orders[i].SetQuota? ==> orders[i].ramp == r.ramp
    ensures forall i :: 0 <= i < |sessions| ==>
      sessions[i].id in parts && parts[sessions[i].id] == Participant(orders[i].vuQuota, Running, true)
    ensures Marked(q.participants) == Ids(sessions) == parts.Keys
  {
    forall i | 0 <= i < |sessions|
      ensures orders[i].StartRun? <==> D.OrderTo(Marked(r.participants), sessions[i].id) == D.Start
      ensures orders[i].StartRun? ==> orders[i].iterationQuota == 0
      ensures orders[i].SetQuota? ==> orders[i].ramp == r.ramp
      ensures orders[i].agent == sessions[i].id
    {
      assert OrderFor(r, sessions, orders, i);
    }
    RosterMarks(parts, sessions, Quotas(orders), seq(|sessions|, k => Running), q);
    RosterEntries(parts, sessions, Quotas(orders), seq(|sessions|, k => Running));
  }

  /**
   What a rebalance goes by is the roster last written, whatever was reported in between: an agent is told only its new
   quota exactly if that roster lists it.
   */
  lemma GoesByLastRoster<Id, A>(c: Coord<Id, A>, id: Id, parts: map<A, Participant>, sessions: seq<Session<A>>,
                                quotas: seq<int>, phases: seq<Phase>, steps: seq<Step<Id, A>>, keep: nat,
                                later: seq<Session<A>>, rate: int, orders: seq<Order<A>>,
                                laterParts: map<A, Participant>)
    requires |quotas| == |phases| == |sessions| && RosterOf(parts, sessions, quotas, phases)
    requires NoneBegins(steps, id) && NoRoster(steps, id)
    requires id in Onward(Next(c, Step.Roster(id, parts), keep), steps, keep).runs
    requires Dispatched(Onward(Next(c, Step.Roster(id, parts), keep), steps, keep).runs[id], later, rate, orders,
                        laterParts)
    ensures forall i :: 0 <= i < |later| ==> (orders[i].SetQuota? <==> later[i].id in Ids(sessions))
  {
    var r := Onward(Next(c, Step.Roster(id, parts), keep), steps, keep).runs[id];
    RosterStands(c, id, parts, steps, keep);
    RosterMarks(parts, sessions, quotas, phases, r.(participants := parts));
    forall i | 0 <= i < |later|
      ensures orders[i].SetQuota? <==> later[i].id in Ids(sessions)
    {
      assert OrderFor(r, later, orders, i);
      assert Known(r, later[i].id) <==> later[i].id in Marked(r.participants);
    }
  }

  /**
   Two agents told to start get the same first id exactly when they were started from the same place in their lists.
   */
  lemma BasesMeetIff<A>(sessions: seq<Session<A>>, o: Order<A>, i: nat, later: seq<Session<A>>, p: Order<A>, j: nat)
    requires StartsAt(sessions, o, i) && StartsAt(later, p, j)
    ensures o.idBase == p.idBase <==> i == j
    ensures i < j ==> o.idBase + PER_AGENT <= p.idBase
    ensures o.idBase == i * PER_AGENT && o.shardIndex == i && o.shardCount == |sessions|
  {
  }

  /**
   An agent that joins a run after its first dispatch and takes a place in the list that another agent was started
   from is told to start with that one's ids, while that one, if it is still listed, only has its quota set and keeps
   running.
   */
  lemma LateAgentSharesBase<A>(sessions: seq<Session<A>>, peak: int, rate: int, iterations: nat, unreached: set<A>,
                               orders: seq<Order<A>>, q: RunState<A>,
                               later: seq<Session<A>>, laterOrders: seq<Order<A>>,
                               laterParts: map<A, Participant>, i: nat, j: nat)
    requires DispatchedFirst(sessions, peak, rate, iterations, unreached, orders, q.participants)
    requires Dispatched(q, later, rate, laterOrders, laterParts)
    requires i < |sessions| && i < |later| && later[i].id !in Ids(sessions)
    requires j < |later| && later[j].id == sessions[i].id
    ensures orders[i].StartRun? && laterOrders[i].StartRun? && orders[i].idBase == laterOrders[i].idBase
    ensures laterOrders[i].agent != orders[i].agent == laterOrders[j].agent && laterOrders[j].SetQuota?
  {
    RosterMarks(q.participants, sessions, Quotas(orders), FirstPhases(sessions, unreached), q);
    assert OrderFor(q, later, laterOrders, i) && OrderFor(q, later, laterOrders, j);
    assert sessions[i].id in Ids(sessions);
    assert later[i].id !in Marked(q.participants) && later[j].id in Marked(q.participants);
  }

  /** No agent these orders start is without a limit. */
  ghost predicate Limited<A>(orders: seq<Order<A>>) {
    forall i :: 0 <= i < |orders| && orders[i].StartRun? ==> orders[i].iterationQuota > 0
  }

  /**
   The first dispatch hands out all the plan's iterations, and gives every agent some exactly when the split leaves
   nobody without: the last agent of least weight gets one.
   */
  lemma FirstLimitsIff<A>(sessions: seq<Session<A>>, peak: int, rate: int, iterations: nat, unreached: set<A>,
                          orders: seq<Order<A>>, parts: map<A, Participant>, j: nat)
    requires DispatchedFirst(sessions, peak, rate, iterations, unreached, orders, parts) && sessions != []
    requires iterations > 0 && LastOfLeast(Weights(sessions), j)
    ensures TotalWeight(Weights(sessions)) > 0 && Sum(Iterations(orders)) == Capped(iterations)
    ensures Limited(orders) <==>
      var weights, total := Weights(sessions), Capped(iterations);
      total * weights[j] >= TotalWeight(weights) || Rank(total, weights, j, |sessions|) < Leftover(total, weights)
  {
    var weights := Weights(sessions);
    QuotasAddUp(sessions, Capped(iterations), Iterations(orders));
    EveryAgentWeighs(sessions, |sessions|);
    assert weights[..|sessions|] == weights;
    NobodyGetsNothingIff(Capped(iterations), weights, Iterations(orders), j);
    FirstLimits(sessions, orders);
  }

  lemma FirstLimits<A>(sessions: seq<Session<A>>, orders: seq<Order<A>>)
    requires |orders| == |sessions| && forall i :: 0 <= i < |sessions| ==> StartsAt(sessions, orders[i], i)
    ensures Limited(orders) <==>
      forall i :: 0 <= i < |sessions| && Weights(sessions)[i] > 0 ==> Iterations(orders)[i] >= 1
  {
    forall i | 0 <= i < |sessions|
      ensures orders[i].StartRun? && Weights(sessions)[i] > 0 && Iterations(orders)[i] == orders[i].iterationQuota
    {
      assert StartsAt(sessions, orders[i], i);
    }
  }
}
