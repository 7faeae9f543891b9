/**
 The agent as an object: its session registry, its run, and the handlers that change them,
 each method one lock section, proved against the dispatch machine.
 */
module Agent {

  import opened AgentMachine
  import opened Apportion
  import opened IdSpace
  import opened Options

  class Session<W> {
    const id: W
    var closed: bool

    constructor (id: W)
      ensures this.id == id && !closed
    {
      this.id, closed := id, false;
    }

    /** Closing again does nothing. */
    method Close()
      modifies this
      ensures closed
    {
      closed := true;
    }
  }

  /** The sessions currently connected, by node id. */
  class SessionRegistry<W(==)> {
    var sessions: map<W, Session<W>>

    ghost predicate Valid()
      reads this
    {
      forall w :: w in sessions ==> sessions[w].id == w
    }

    constructor ()
      ensures Valid() && sessions == map[]
    {
      sessions := map[];
    }

    /** Registers a session; the one it displaces, if any, is closed. */
    method Add(session: Session<W>) returns (previous: Session?<W>)
      requires Valid()
      modifies this, if session.id in sessions then {sessions[session.id]} else {}
      ensures Valid() && sessions == old(sessions)[session.id := session]
      ensures previous == (if session.id in old(sessions) then old(sessions)[session.id] else null)
      ensures previous != null ==> previous.closed
    {
      previous := null;
      if session.id in sessions {
        previous := sessions[session.id];
      }
      sessions := sessions[session.id := session];
      if previous != null {
        previous.Close();
      }
    }

    /** Deregisters a session, but only if it is still the current one. */
    method Remove(session: Session<W>) returns (ok: bool)
      requires Valid()
      modifies this
      ensures Valid()
      ensures ok <==> session.id in old(sessions) && old(sessions)[session.id] == session
      ensures sessions == if ok then old(sessions) - {session.id} else old(sessions)
    {
      if session.id in sessions && sessions[session.id] == session {
        sessions := sessions - {session.id};
        return true;
      }
      return false;
    }

    method Get(id: W) returns (session: Session?<W>, ok: bool)
      ensures ok <==> id in sessions
      ensures ok ==> session == sessions[id]
    {
      if id in sessions {
        return sessions[id], true;
      }
      return null, false;
    }

    /** Every live session, each once. */
    method All() returns (out: seq<Session<W>>)
      requires Valid()
      ensures forall i :: 0 <= i < |out| ==> out[i].id in sessions && sessions[out[i].id] == out[i]
      ensures forall i, j :: 0 <= i < j < |out| ==> out[i].id != out[j].id
      ensures forall w :: w in sessions ==> sessions[w] in out
    {
      out := [];
      var rest := sessions.Keys;
      while rest != {}
        invariant rest <= sessions.Keys
        invariant forall i :: 0 <= i < |out| ==> out[i].id in sessions.Keys - rest && sessions[out[i].id] == out[i]
        invariant forall i, j :: 0 <= i < j < |out| ==> out[i].id != out[j].id
        invariant forall w :: w in sessions && w !in rest ==> sessions[w] in out
        decreases rest
      {
        var w :| w in rest;
        out, rest := out + [sessions[w]], rest - {w};
      }
    }
  }

  class Agent<W(==, !new)> {
    const workers: SessionRegistry<W>
    var run: Option<RunRec<W>>
    ghost var leaving: set<(W, Session<W>)>
    ghost var trace: seq<Msg<W>>

    ghost predicate Valid()
      reads this, workers
    {
      workers.Valid()
    }

    ghost function State(): (r: State<W, Session<W>>)
      reads this, workers
    {
      AgentMachine.State.State(workers.sessions, run, leaving, trace)
    }

    constructor ()
      ensures Valid() && State() == AgentMachine.Run([])
    {
      workers := new SessionRegistry<W>();
      run, leaving, trace := None, {}, [];
    }

    /** A worker connects; a session it had before is displaced. */
    method OnJoin(session: Session<W>)
      requires Valid()
      modifies workers, if session.id in workers.sessions then {workers.sessions[session.id]} else {}
      ensures Valid() && State() == Next(old(State()), Join(session.id, session))
    {
      var _ := workers.Add(session);
    }

    /** The first half of a leave: a displaced session stops here. */
    method Unregister(session: Session<W>) returns (current: bool)
      requires Valid()
      modifies this`leaving, this`trace, workers
      ensures Valid() && State() == Next(old(State()), Remove(session.id, session))
      ensures current <==> session.id in old(workers.sessions) && old(workers.sessions)[session.id] == session
    {
      current := workers.Remove(session);
      if current {
        leaving, trace := leaving + {(session.id, session)}, trace + [Left(session.id)];
      }
    }

    /** The second half: the run forgets that the worker was told to start. */
    method ForgetDispatch(session: Session<W>)
      requires (session.id, session) in leaving
      modifies this`run, this`leaving
      ensures State() == Next(old(State()), Forget(session.id, session))
    {
      match run {
        case None =>
        case Some(r) => run := Some(r.(dispatched := r.dispatched - {session.id}));
      }
      leaving := leaving - {(session.id, session)};
    }

    method BeginRun(plan: Plan)
      modifies this`run, this`trace
      ensures State() == Next(old(State()), Begin(plan))
    {
      run := Some(RunRec(plan, 0, {}));
      trace := trace + [NewRun(plan.id)];
    }

    /** The run that was stopped is over; a newer one is left alone. */
    method EndRun(id: nat)
      modifies this`run
      ensures State() == Next(old(State()), End(id))
    {
      if run.Some? && run.value.plan.id == id {
        run := None;
      }
    }

    /** New quotas for the run in progress; those for another run are refused. */
    method OnSetQuota(id: nat, vus: nat, rate: nat, ramp: int) returns (ok: bool)
      modifies this`run
      ensures ok <==> old(run).Some? && old(run).value.plan.id == id
      ensures State() == Next(old(State()), Quota(id, vus, rate, ramp))
    {
      if run.None? || run.value.plan.id != id {
        return false;
      }
      run := Some(RunRec(run.value.plan.(vus := vus, rate := rate), ramp, run.value.dispatched));
      return true;
    }

    /** Tells every connected worker its share of the run: to start, or only the new quota. */
    method Rebalance() returns (messages: seq<Msg<W>>, ghost order: seq<W>)
      requires Valid()
      modifies this`run, this`trace
      ensures Valid() && Lists(order, workers.sessions.Keys)
      ensures State() == Next(old(State()), AgentMachine.Step.Rebalance(order))
      ensures trace == old(trace) + messages
    {
      var sessions := workers.All();
      order := Ids(sessions);
      IdsListed(sessions, workers.sessions);
      if run.None? || |sessions| == 0 {
        return [], order;
      }
      var r := run.value;
      var vus := Shares(r.plan.vus, |sessions|);
      var rates := Shares(r.plan.rate, |sessions|);
      var iterations := Shares(Capped(r.plan.iterations), |sessions|);
      messages, run := Compose(sessions, r, vus, rates, iterations, order);
      trace := trace + messages;
    }
  }

  ghost function Ids<W>(sessions: seq<Session<W>>): (r: seq<W>) {
    seq(|sessions|, i requires 0 <= i < |sessions| => sessions[i].id)
  }

  lemma IdsListed<W(!new)>(sessions: seq<Session<W>>, held: map<W, Session<W>>)
    requires forall i :: 0 <= i < |sessions| ==> sessions[i].id in held && held[sessions[i].id] == sessions[i]
    requires forall i, j :: 0 <= i < j < |sessions| ==> sessions[i].id != sessions[j].id
    requires forall w :: w in held ==> held[w] in sessions && held[w].id == w
    ensures Lists(Ids(sessions), held.Keys)
  {
    var order := Ids(sessions);
    forall w | w in held
      ensures w in order
    {
      var i :| 0 <= i < |sessions| && sessions[i] == held[w];
      assert order[i] == w;
    }
  }

  method Shares(total: nat, n: nat) returns (shares: seq<int>)
    requires n > 0
    ensures shares == EqualShares(total, n)
  {
    shares := Largest(total, seq(n, i => 1));
    EqualSplit(total, n, shares);
  }

  /** The messages of a rebalance, worker by worker, and the run with all of them marked as told. */
  method Compose<W(==, !new)>(sessions: seq<Session<W>>, r: RunRec<W>, vus: seq<int>, rates: seq<int>,
                              iterations: seq<int>,
                             ghost order: seq<W>)
    returns (messages: seq<Msg<W>>, run: Option<RunRec<W>>)
    requires sessions != [] && order == Ids(sessions) && vus == EqualShares(r.plan.vus, |sessions|)
    requires rates == EqualShares(r.plan.rate, |sessions|)
    requires iterations == EqualShares(Capped(r.plan.iterations), |sessions|)
    requires forall i, j :: 0 <= i < j < |order| ==> order[i] != order[j]
    ensures messages == Messages(r, order)
    ensures run == Some(r.(ramp := 0, dispatched := r.dispatched + Elements(order)))
  {
    messages := [];
    var dispatched := r.dispatched;
    for i := 0 to |sessions|
      invariant messages == Messages(r, order)[..i]
      invariant dispatched == r.dispatched + Elements(order[..i])
    {
      var id := sessions[i].id;
      PrefixStep(order, i, id);
      assert id == order[i] && id !in Elements(order[..i]);
      assert Messages(r, order)[..i + 1] == Messages(r, order)[..i] + [MsgFor(r, order, i)];
      assert order[..i + 1] == order[..i] + [id];
      ElementsStep(order[..i], id);
      if id in dispatched {
        messages := messages + [SetQuota(r.plan.id, id, vus[i], rates[i], r.ramp)];
      } else {
        dispatched := dispatched + {id};
        var share := if r.plan.iterations > 0 then iterations[i] else 0;
        NoneOfNothing(|sessions|, i);
        messages := messages + [StartRun(r.plan.id, id, vus[i], rates[i], share, WorkerBase(r.plan.idBase, i))];
      }
    }
    assert order[..|order|] == order && Messages(r, order)[..|order|] == Messages(r, order);
    run := Some(r.(ramp := 0, dispatched := dispatched));
  }

  lemma NoneOfNothing(n: nat, i: nat)
    requires i < n
    ensures EqualShares(0, n)[i] == 0
  {
  }

  lemma ElementsStep<W>(order: seq<W>, w: W)
    ensures Elements(order + [w]) == Elements(order) + {w}
  {
    var q := order + [w];
    forall x | x in Elements(order)
      ensures x in Elements(q)
    {
      var i :| 0 <= i < |order| && order[i] == x;
      assert q[i] == x;
    }
    assert q[|order|] == w;
  }
}
