/**
 The iterations of a plan over a whole run: what the orders of overlapping dispatches hand out.

 The first dispatch reads nothing, so it may as well have read the empty roster a run begins with; its orders carry
 shares of the iterations. Those of later rebalances carry none. `A` is an agent; `K` names a rebalance.
 */
module DispatchRun {

  import opened Apportion
  import opened Dispatch
  import opened Lifecycle
  import opened RunRecord
  import D = DispatchMachine

  // ---------------------------------------------------------------------------
  // Shares
  // ---------------------------------------------------------------------------

  /** The share of one of the first `n` agents listed. */
  function ShareOf<A(==)>(sessions: seq<Session<A>>, shares: seq<int>, a: A, n: nat): (r: int)
    requires n <= |sessions| == |shares|
  {
    if n == 0 then 0 else if sessions[n - 1].id == a then shares[n - 1] else ShareOf(sessions, shares, a, n - 1)
  }

  /** The shares of those of the first `n` agents listed that have been told. */
  ghost function SharesOf<A>(sessions: seq<Session<A>>, shares: seq<int>, told: set<A>, n: nat): (r: int)
    requires n <= |sessions| == |shares|
  {
    if n == 0 then 0
    else SharesOf(sessions, shares, told, n - 1) + if sessions[n - 1].id in told then shares[n - 1] else 0
  }

  lemma {:induction false} ShareAt<A>(sessions: seq<Session<A>>, shares: seq<int>, i: nat, n: nat)
    requires i < n <= |sessions| == |shares| && Apart(sessions)
    ensures ShareOf(sessions, shares, sessions[i].id, n) == shares[i]
  {
    if i < n - 1 {
      ShareAt(sessions, shares, i, n - 1);
    }
  }

  ghost predicate AmongFirst<A>(sessions: seq<Session<A>>, a: A, n: nat)
    requires n <= |sessions|
  {
    exists i :: 0 <= i < n && sessions[i].id == a
  }

  /** Telling one more adds its share. */
  lemma {:induction false} OneMoreShare<A>(sessions: seq<Session<A>>, shares: seq<int>, told: set<A>, a: A, n: nat)
    requires n <= |sessions| == |shares| && Apart(sessions) && a !in told
    ensures SharesOf(sessions, shares, told + {a}, n)
      == SharesOf(sessions, shares, told, n) + ShareOf(sessions, shares, a, n)
    ensures !AmongFirst(sessions, a, n) ==> ShareOf(sessions, shares, a, n) == 0
  {
    if n > 0 {
      OneMoreShare(sessions, shares, told, a, n - 1);
      if sessions[n - 1].id == a {
        assert AmongFirst(sessions, a, n);
        assert !AmongFirst(sessions, a, n - 1);
      } else if AmongFirst(sessions, a, n - 1) {
        assert AmongFirst(sessions, a, n);
      }
    }
  }

  lemma {:induction false} AllShares<A>(sessions: seq<Session<A>>, shares: seq<int>, n: nat)
    requires n <= |sessions| == |shares|
    ensures SharesOf(sessions, shares, Ids(sessions), n) == Sum(shares[..n])
    ensures SharesOf(sessions, shares, {}, n) == 0
  {
    if n > 0 {
      AllShares(sessions, shares, n - 1);
      assert shares[..n][..n - 1] == shares[..n - 1];
      assert sessions[n - 1].id in Ids(sessions);
    }
  }

  /**
   The orders of the first dispatch are those of a rebalance that has read an empty roster, with the shares of
   iterations it has split; its roster marks exactly the agents listed.
   */
  lemma FirstIsSend<A>(sessions: seq<Session<A>>, peak: int, rate: int, iterations: nat, unreached: set<A>,
                       orders: seq<Order<A>>, q: RunState<A>)
    requires Apart(sessions)
    requires DispatchedFirst(sessions, peak, rate, iterations, unreached, orders, q.participants)
    ensures forall i :: 0 <= i < |sessions| ==>
      && orders[i].StartRun? && D.OrderTo({}, sessions[i].id) == D.Start
      && orders[i].iterationQuota == ShareOf(sessions, Iterations(orders), sessions[i].id, |sessions|)
    ensures forall i :: 0 <= i < |sessions| ==>
      var phase := if sessions[i].id in unreached then Failed else Pending;
      sessions[i].id in q.participants && q.participants[sessions[i].id] == Participant(orders[i].vuQuota, phase, true)
    ensures Marked(q.participants) == Ids(sessions)
  {
    forall i | 0 <= i < |sessions|
      ensures orders[i].StartRun? && D.OrderTo({}, sessions[i].id) == D.Start
      ensures orders[i].iterationQuota == ShareOf(sessions, Iterations(orders), sessions[i].id, |sessions|)
    {
      assert StartsAt(sessions, orders[i], i);
      ShareAt(sessions, Iterations(orders), i, |sessions|);
    }
    RosterMarks(q.participants, sessions, Quotas(orders), FirstPhases(sessions, unreached), q);
    RosterEntries(q.participants, sessions, Quotas(orders), FirstPhases(sessions, unreached));
  }

  // ---------------------------------------------------------------------------
  // The first dispatch among others
  // ---------------------------------------------------------------------------

  /** A run of the machine that begins with the first dispatch. */
  ghost predicate FromFirst<A, K>(steps: seq<D.Step<A, K>>, sessions: seq<Session<A>>) {
    steps != [] && steps[0].Read? && steps[0].listed == Ids(sessions)
  }

  /** The first dispatch is still under way before step `n`. */
  ghost predicate Dispatching<A, K>(steps: seq<D.Step<A, K>>, n: nat)
    requires 0 < n <= |steps|
  {
    steps[0].from in D.At(steps, n).underway && D.ReadBefore(steps, n, steps[0].from) == 0
  }

  /** The order of step `q` is one of the first dispatch. */
  ghost predicate OfFirst<A, K>(steps: seq<D.Step<A, K>>, q: nat)
    requires q < |steps|
  {
    D.ReadBefore(steps, q, steps[q].from) == 0
  }

  /** What the order of step `q` carries: an agent's share, if it is of the first dispatch. */
  ghost function Carried<A, K>(steps: seq<D.Step<A, K>>, sessions: seq<Session<A>>, shares: seq<int>, q: nat): (r: int)
    requires q < |steps| && |shares| == |sessions|
  {
    if steps[q].Send? && D.SentAt(steps, q, steps[q].agent) && OfFirst(steps, q)
    then ShareOf(sessions, shares, steps[q].agent, |sessions|) else 0
  }

  /** What has been handed out before step `n`. */
  ghost function HandedOut<A, K>(steps: seq<D.Step<A, K>>, sessions: seq<Session<A>>, shares: seq<int>, n: nat)
    : (r: int)
    requires n <= |steps| && |shares| == |sessions|
  {
    if n == 0 then 0 else HandedOut(steps, sessions, shares, n - 1) + Carried(steps, sessions, shares, n - 1)
  }

  /** The order of step `q` tells an agent to start. */
  ghost predicate StartAt<A, K>(steps: seq<D.Step<A, K>>, q: int) {
    0 <= q < |steps| && steps[q].Send? && D.SentAt(steps, q, steps[q].agent)
    && D.OrderTo(D.At(steps, q).underway[steps[q].from].known, steps[q].agent) == D.Start
  }

  /** Where the books stand: the shares of those told while the first dispatch is under way, all of them after. */
  ghost predicate Books<A, K>(steps: seq<D.Step<A, K>>, sessions: seq<Session<A>>, shares: seq<int>, n: nat)
    requires 0 < n <= |steps| && |shares| == |sessions|
  {
    HandedOut(steps, sessions, shares, n) ==
      if !Dispatching(steps, n) then Sum(shares)
      else SharesOf(sessions, shares, D.At(steps, n).underway[steps[0].from].sent, |sessions|)
  }

  lemma FirstRead<A, K>(steps: seq<D.Step<A, K>>)
    requires steps != [] && steps[0].Read?
    ensures D.At(steps, 1) == D.State({}, map[steps[0].from := D.Rebalance(steps[0].listed, {}, {})])
    ensures D.ReadBefore(steps, 1, steps[0].from) == 0
  {
    assert steps[..1][..0] == [];
    assert steps[..0] == [];
    assert D.At(steps, 1) == D.Next(D.Run([]), steps[0]);
  }

  lemma {:induction false} ReadByFirst<A, K>(steps: seq<D.Step<A, K>>, n: nat, k: K)
    requires n <= |steps| && D.ReadBefore(steps, n, k) == 0
    ensures steps[0].from == k
  {
    if n > 1 && D.ReadBefore(steps, n - 1, k) == 0 {
      ReadByFirst(steps, n - 1, k);
    }
  }

  /** The first dispatch is over once its roster is written, and its orders come before. */
  lemma FirstStep<A, K>(steps: seq<D.Step<A, K>>, n: nat)
    requires 0 < n < |steps|
    ensures Dispatching(steps, n + 1) <==>
      Dispatching(steps, n) && !(steps[n].from == steps[0].from && D.Writes(D.At(steps, n), steps[n]))
    ensures steps[n].Send? && D.SentAt(steps, n, steps[n].agent) ==>
      (OfFirst(steps, n) <==> Dispatching(steps, n) && steps[n].from == steps[0].from)
  {
    assert steps[..n + 1][..n] == steps[..n];
    if OfFirst(steps, n) {
      ReadByFirst(steps, n, steps[n].from);
    }
  }

  lemma FirstSent<A, K>(steps: seq<D.Step<A, K>>, n: nat)
    requires 0 < n < |steps| && Dispatching(steps, n) && Dispatching(steps, n + 1)
    ensures var k, st := steps[0].from, D.At(steps, n);
      var r, q := st.underway[k], D.At(steps, n + 1).underway[k];
      && q.listed == r.listed && q.known == r.known
      && q.sent == if steps[n].Send? && steps[n].from == k && D.Sends(st, steps[n], steps[n].agent)
                   then r.sent + {steps[n].agent} else r.sent
  {
    assert steps[..n + 1][..n] == steps[..n];
  }

  /** While the first dispatch is under way, it lists whom it listed and has read nothing. */
  lemma {:induction false} FirstStands<A, K>(steps: seq<D.Step<A, K>>, sessions: seq<Session<A>>, n: nat)
    requires FromFirst(steps, sessions) && 0 < n <= |steps| && Dispatching(steps, n)
    ensures var r := D.At(steps, n).underway[steps[0].from];
      r.listed == Ids(sessions) && r.known == {} && r.sent <= r.listed
  {
    if n > 1 {
      FirstStep(steps, n - 1);
      FirstStands(steps, sessions, n - 1);
      FirstSent(steps, n - 1);
    } else {
      FirstRead(steps);
    }
  }

  lemma BooksNext<A, K>(steps: seq<D.Step<A, K>>, sessions: seq<Session<A>>, shares: seq<int>, n: nat)
    requires FromFirst(steps, sessions) && 0 < n < |steps| && |shares| == |sessions| && Apart(sessions)
    requires Books(steps, sessions, shares, n)
    ensures Books(steps, sessions, shares, n + 1)
  {
    FirstStep(steps, n);
    if Dispatching(steps, n) {
      FirstStands(steps, sessions, n);
      var sent := D.At(steps, n).underway[steps[0].from].sent;
      if !Dispatching(steps, n + 1) {
        AllShares(sessions, shares, |sessions|);
        assert shares[..|sessions|] == shares;
      } else {
        FirstSent(steps, n);
        if steps[n].Send? && steps[n].from == steps[0].from && D.SentAt(steps, n, steps[n].agent) {
          OneMoreShare(sessions, shares, sent, steps[n].agent, |sessions|);
        }
      }
    }
  }

  /** At every moment what has been handed out are the shares of those told by the first dispatch. */
  lemma {:induction false} BooksBalance<A, K>(steps: seq<D.Step<A, K>>, sessions: seq<Session<A>>, shares: seq<int>,
                                              n: nat)
    requires FromFirst(steps, sessions) && 0 < n <= |steps| && |shares| == |sessions| && Apart(sessions)
    ensures Books(steps, sessions, shares, n)
  {
    if n > 1 {
      BooksBalance(steps, sessions, shares, n - 1);
      BooksNext(steps, sessions, shares, n - 1);
    } else {
      FirstRead(steps);
      AllShares(sessions, shares, |sessions|);
      assert HandedOut(steps, sessions, shares, 1) == HandedOut(steps, sessions, shares, 0);
    }
  }

  // ---------------------------------------------------------------------------
  // Who is limited
  // ---------------------------------------------------------------------------

  /** Whom the first dispatch has told while under way, it told at some step. */
  lemma {:induction false} FirstTold<A, K>(steps: seq<D.Step<A, K>>, sessions: seq<Session<A>>, n: nat, a: A)
    returns (q: nat)
    requires FromFirst(steps, sessions) && 0 < n <= |steps| && Dispatching(steps, n)
    requires a in D.At(steps, n).underway[steps[0].from].sent
    ensures q < n && steps[q].Send? && steps[q].agent == a && OfFirst(steps, q) && StartAt(steps, q)
  {
    if n == 1 {
      FirstRead(steps);
    } else {
      FirstStep(steps, n - 1);
      FirstSent(steps, n - 1);
      if a in D.At(steps, n - 1).underway[steps[0].from].sent {
        q := FirstTold(steps, sessions, n - 1, a);
      } else {
        q := n - 1;
        FirstStands(steps, sessions, q);
      }
    }
  }

  /** Once it is over, everybody it listed. */
  lemma {:induction false} FirstToldAll<A, K>(steps: seq<D.Step<A, K>>, sessions: seq<Session<A>>, n: nat, a: A)
    returns (q: nat)
    requires FromFirst(steps, sessions) && 0 < n <= |steps| && !Dispatching(steps, n) && a in Ids(sessions)
    ensures q < n && steps[q].Send? && steps[q].agent == a && OfFirst(steps, q) && StartAt(steps, q)
  {
    if n == 1 {
      FirstRead(steps);
      assert false;
    } else {
      FirstStep(steps, n - 1);
      if Dispatching(steps, n - 1) {
        FirstStands(steps, sessions, n - 1);
        q := FirstTold(steps, sessions, n - 1, a);
      } else {
        q := FirstToldAll(steps, sessions, n - 1, a);
      }
    }
  }

  /** Every start carries a limit. */
  ghost predicate AllLimited<A, K>(steps: seq<D.Step<A, K>>, sessions: seq<Session<A>>, shares: seq<int>)
    requires |shares| == |sessions|
  {
    forall q :: 0 <= q < |steps| && StartAt(steps, q) ==> Carried(steps, sessions, shares, q) > 0
  }

  /** Every later rebalance that orders an agent has read a roster with that agent in it. */
  ghost predicate AllInformed<A, K>(steps: seq<D.Step<A, K>>) {
    forall q :: 0 <= q < |steps| && steps[q].Send? && D.SentAt(steps, q, steps[q].agent) && !OfFirst(steps, q) ==>
      D.Informed(steps, q, steps[q].agent)
  }

  /** A start is limited exactly if it is of the first dispatch, to an agent with a share. */
  lemma StartLimited<A, K>(steps: seq<D.Step<A, K>>, sessions: seq<Session<A>>, shares: seq<int>, q: nat)
    requires FromFirst(steps, sessions) && q < |steps| && |shares| == |sessions| && StartAt(steps, q)
    ensures OfFirst(steps, q) ==> steps[q].agent in Ids(sessions)
    ensures !OfFirst(steps, q) ==> !D.Informed(steps, q, steps[q].agent)
  {
    if q == 0 {
      assert false;
    } else {
      D.InformedIs(steps, q, steps[q].agent);
      FirstStep(steps, q);
      if OfFirst(steps, q) {
        FirstStands(steps, sessions, q);
      }
    }
  }

  lemma LimitedIff<A, K>(steps: seq<D.Step<A, K>>, sessions: seq<Session<A>>, shares: seq<int>)
    requires FromFirst(steps, sessions) && !Dispatching(steps, |steps|) && |shares| == |sessions| && Apart(sessions)
    ensures AllLimited(steps, sessions, shares) <==>
      AllInformed(steps) && forall i :: 0 <= i < |sessions| ==> shares[i] > 0
  {
    if AllLimited(steps, sessions, shares) {
      forall i | 0 <= i < |sessions|
        ensures shares[i] > 0
      {
        assert sessions[i].id in Ids(sessions);
        var q := FirstToldAll(steps, sessions, |steps|, sessions[i].id);
        ShareAt(sessions, shares, i, |sessions|);
      }
      forall q | 0 <= q < |steps| && steps[q].Send? && D.SentAt(steps, q, steps[q].agent) && !OfFirst(steps, q)
        ensures D.Informed(steps, q, steps[q].agent)
      {
        D.InformedIs(steps, q, steps[q].agent);
        assert StartAt(steps, q) ==> Carried(steps, sessions, shares, q) > 0;
      }
    }
    if AllInformed(steps) && forall i :: 0 <= i < |sessions| ==> shares[i] > 0 {
      forall q | 0 <= q < |steps| && StartAt(steps, q)
        ensures Carried(steps, sessions, shares, q) > 0
      {
        StartLimited(steps, sessions, shares, q);
        if OfFirst(steps, q) {
          var i :| 0 <= i < |sessions| && sessions[i].id == steps[q].agent;
          ShareAt(sessions, shares, i, |sessions|);
        }
      }
    }
  }

  /**
   Over every run of overlapping dispatches: once the first one is over, exactly the plan's iterations have been handed
   out. And no agent has ever been told to start without a limit on them, exactly when every later rebalance that sent
   an agent an order had read a roster with it, and the first split gives the last agent of least weight something.
   */
  lemma IterationsLimitedIff<A, K>(steps: seq<D.Step<A, K>>, sessions: seq<Session<A>>, peak: int, rate: int,
                                   iterations: nat, unreached: set<A>, orders: seq<Order<A>>,
                                   parts: map<A, Participant>, j: nat)
    requires DispatchedFirst(sessions, peak, rate, iterations, unreached, orders, parts)
    requires Apart(sessions) && sessions != [] && iterations > 0 && LastOfLeast(Weights(sessions), j)
    requires FromFirst(steps, sessions) && !Dispatching(steps, |steps|)
    ensures TotalWeight(Weights(sessions)) > 0
    ensures HandedOut(steps, sessions, Iterations(orders), |steps|) == Capped(iterations)
    ensures AllLimited(steps, sessions, Iterations(orders)) <==>
      && AllInformed(steps)
      && var weights, total := Weights(sessions), Capped(iterations);
         total * weights[j] >= TotalWeight(weights) || Rank(total, weights, j, |sessions|) < Leftover(total, weights)
  {
    FirstLimitsIff(sessions, peak, rate, iterations, unreached, orders, parts, j);
    FirstIsPositive(sessions, orders);
    BooksBalance(steps, sessions, Iterations(orders), |steps|);
    LimitedIff(steps, sessions, Iterations(orders));
  }

  lemma FirstIsPositive<A>(sessions: seq<Session<A>>, orders: seq<Order<A>>)
    requires |orders| == |sessions| && forall i :: 0 <= i < |sessions| ==> StartsAt(sessions, orders[i], i)
    ensures Limited(orders) <==> forall i :: 0 <= i < |sessions| ==> Iterations(orders)[i] > 0
  {
    FirstLimits(sessions, orders);
  }
}
