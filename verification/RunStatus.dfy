/**
 A run's lifecycle and the reports behind it, joined.

 Both machines see a report delivered and a roster written; everything else happens in one of
 them only. `Id` is a run, `A` an agent, `W` a worker.
 */
module RunStatus {

  import opened Options
  import D = Dispatch
  import L = Lifecycle
  import R = RunRecord
  import S = StatusMachine

  /** A step of the coordinator that is neither a report nor a roster of the run, or one of the reporting side. */
  datatype Step<Id, !A, W> =
    | Here(life: L.Step<Id, A>)
    | There(status: S.Step<A, W>, quotas: map<A, int>)

  /** The participants a roster sets. */
  function RosterOf<A, W>(listed: map<A, S.Status<W>>, quotas: map<A, int>): (r: map<A, L.Participant>) {
    map a | a in listed :: L.Participant(if a in quotas then quotas[a] else 0, listed[a].phase, true)
  }

  /** What the coordinator sees of a step, given where the reporting side stands. */
  function Seen<Id, A, W>(id: Id, st: S.State<A, W>, e: Step<Id, A, W>): (r: seq<L.Step<Id, A>>) {
    match e
    case Here(life) => [life]
    case There(Deliver(a), _) => if S.WireAt(st, a) == [] then [] else [L.Step.Report(id, a, S.WireAt(st, a)[0].phase)]
    case There(Roster(first, listed, unreached), quotas) =>
      [L.Step.Roster(id, RosterOf(S.Listed<A, W>(first, listed, unreached), quotas))]
    case There(_, _) => []
  }

  function StatusOf<Id, A, W>(steps: seq<Step<Id, A, W>>): (r: seq<S.Step<A, W>>) {
    if steps == [] then []
    else
      var e := steps[|steps| - 1];
      StatusOf(steps[..|steps| - 1]) + if e.There? then [e.status] else []
  }

  ghost function LifeOf<Id, A, W>(id: Id, steps: seq<Step<Id, A, W>>): (r: seq<L.Step<Id, A>>) {
    if steps == [] then []
    else
      var rest := steps[..|steps| - 1];
      LifeOf(id, rest) + Seen(id, S.Run(StatusOf(rest)), steps[|steps| - 1])
  }

  /** Reports and rosters of the run come from the reporting side only, and it is begun once. */
  ghost predicate Joint<Id, A, W>(id: Id, steps: seq<Step<Id, A, W>>) {
    forall i :: 0 <= i < |steps| ==> Fits(id, steps[i])
  }

  ghost predicate Fits<Id, A, W>(id: Id, e: Step<Id, A, W>) {
    e.Here? && (e.life.Report? || e.life.Roster? || e.life.Begin?) ==> e.life.id != id
  }

  lemma SameRosterAs<A, W>(parts: map<A, L.Participant>, listed: map<A, S.Status<W>>, quotas: map<A, int>)
    requires parts.Keys == listed.Keys == quotas.Keys
    requires forall a :: a in parts ==> parts[a] == L.Participant(quotas[a], listed[a].phase, true)
    ensures parts == RosterOf(listed, quotas)
  {
  }

  /** What the coordinator writes at a rebalance is a roster of the reporting side, with the quotas it has split. */
  lemma RebalanceIsRoster<A, W>(r: L.RunState<A>, sessions: seq<D.Session<A>>, rate: int, orders: seq<D.Order<A>>,
                                parts: map<A, L.Participant>, quotas: map<A, int>)
    requires D.Dispatched(r, sessions, rate, orders, parts) && quotas.Keys == D.Ids(sessions)
    requires forall i :: 0 <= i < |sessions| ==> quotas[sessions[i].id] == orders[i].vuQuota
    ensures parts == RosterOf(S.Listed<A, W>(false, D.Ids(sessions), {}), quotas)
  {
    D.DispatchIsSend(r, sessions, rate, orders, parts, r.(participants := parts));
    forall a | a in parts
      ensures parts[a] == L.Participant(quotas[a], L.Running, true)
    {
      assert a in parts.Keys;
      var i :| 0 <= i < |sessions| && sessions[i].id == a;
    }
    SameRosterAs(parts, S.Listed<A, W>(false, D.Ids(sessions), {}), quotas);
  }

  /** So is what it writes at the first dispatch, which marks the agents that could not be reached. */
  lemma FirstIsRoster<A, W>(sessions: seq<D.Session<A>>, peak: int, rate: int, iterations: nat, unreached: set<A>,
                            orders: seq<D.Order<A>>, parts: map<A, L.Participant>, quotas: map<A, int>)
    requires D.DispatchedFirst(sessions, peak, rate, iterations, unreached, orders, parts)
    requires quotas.Keys == D.Ids(sessions)
    requires forall i :: 0 <= i < |sessions| ==> quotas[sessions[i].id] == orders[i].vuQuota
    ensures parts == RosterOf(S.Listed<A, W>(true, D.Ids(sessions), unreached), quotas)
  {
    D.RosterEntries(parts, sessions, D.Quotas(orders), D.FirstPhases(sessions, unreached));
    forall a | a in parts
      ensures parts[a] == L.Participant(quotas[a], if a in unreached then L.Failed else L.Pending, true)
    {
      assert a in parts.Keys;
      var i :| 0 <= i < |sessions| && sessions[i].id == a;
    }
    SameRosterAs(parts, S.Listed<A, W>(true, D.Ids(sessions), unreached), quotas);
  }

  // ---------------------------------------------------------------------------
  // The participants are what the reporting side shows
  // ---------------------------------------------------------------------------

  /** A step of the coordinator that is neither a report nor a roster of the run leaves its participants alone. */
  lemma OthersKeepParticipants<Id, A>(c: L.Coord<Id, A>, e: L.Step<Id, A>, keep: nat, id: Id)
    requires id in L.Next(c, e, keep).runs
    requires (e.Report? || e.Roster? || e.Begin?) ==> e.id != id
    ensures id in c.runs && L.Next(c, e, keep).runs[id].participants == c.runs[id].participants
  {
    L.StepOn(c, e, keep, id);
  }

  lemma ReportShows<Id, A, W>(c: L.Coord<Id, A>, st: S.State<A, W>, a: A, keep: nat, id: Id)
    requires S.WireAt(st, a) != [] && id in L.Next(c, L.Step.Report(id, a, S.WireAt(st, a)[0].phase), keep).runs
    requires id in c.runs ==> S.Shows(c.runs[id].participants, st.shown)
    ensures id in c.runs
    ensures S.Shows(L.Next(c, L.Step.Report(id, a, S.WireAt(st, a)[0].phase), keep).runs[id].participants,
                    S.Next(st, S.Step.Deliver(a)).shown)
  {
  }

  lemma RosterShows<A, W>(listed: map<A, S.Status<W>>, quotas: map<A, int>)
    ensures S.Shows(RosterOf(listed, quotas), listed)
  {
  }

  lemma OneSeen<Id, A>(c: L.Coord<Id, A>, e: L.Step<Id, A>, keep: nat)
    ensures L.Onward(c, [e], keep) == L.Next(c, e, keep)
  {
    L.OneMore(c, [], e, keep);
    assert [] + [e] == [e];
  }

  /** The reporting side after a step. */
  ghost function After<Id, A, W>(st: S.State<A, W>, e: Step<Id, A, W>): (r: S.State<A, W>) {
    if e.There? then S.Next(st, e.status) else st
  }

  lemma OthersKeepShown<A, W>(st: S.State<A, W>, e: S.Step<A, W>)
    requires !e.Deliver? && !e.Roster?
    ensures S.Next(st, e).shown == st.shown
  {
  }

  lemma DeliveryShows<Id, A, W>(c: L.Coord<Id, A>, st: S.State<A, W>, a: A, keep: nat, id: Id)
    requires S.WireAt(st, a) != []
    requires id in c.runs ==> S.Shows(c.runs[id].participants, st.shown)
    ensures var seen := [L.Step.Report(id, a, S.WireAt(st, a)[0].phase)];
      id in L.Onward(c, seen, keep).runs ==>
        S.Shows(L.Onward(c, seen, keep).runs[id].participants, S.Next(st, S.Step.Deliver(a)).shown)
  {
    var report := L.Step.Report(id, a, S.WireAt(st, a)[0].phase);
    OneSeen(c, report, keep);
    if id in L.Next(c, report, keep).runs {
      ReportShows(c, st, a, keep, id);
    }
  }

  lemma SeenShows<Id, A, W>(c: L.Coord<Id, A>, st: S.State<A, W>, e: Step<Id, A, W>, keep: nat, id: Id)
    requires Fits(id, e) && id in L.Onward(c, Seen(id, st, e), keep).runs
    requires id in c.runs ==> S.Shows(c.runs[id].participants, st.shown)
    ensures S.Shows(L.Onward(c, Seen(id, st, e), keep).runs[id].participants, After(st, e).shown)
  {
    match e
    case Here(life) =>
      OneSeen(c, life, keep);
      OthersKeepParticipants(c, life, keep, id);
    case There(Deliver(a), _) =>
      if S.WireAt(st, a) != [] {
        DeliveryShows(c, st, a, keep, id);
      }
    case There(Roster(first, listed, unreached), quotas) =>
      var shown := S.Listed<A, W>(first, listed, unreached);
      OneSeen(c, L.Step.Roster(id, RosterOf(shown, quotas)), keep);
      RosterShows(shown, quotas);
    case There(status, _) =>
      OthersKeepShown(st, status);
  }

  lemma StatusMore<Id, A, W>(rest: seq<Step<Id, A, W>>, e: Step<Id, A, W>)
    ensures S.Run(StatusOf(rest + [e])) == After(S.Run(StatusOf(rest)), e)
  {
    assert (rest + [e])[..|rest|] == rest;
    var all := StatusOf(rest) + if e.There? then [e.status] else [];
    if e.There? {
      assert all[..|all| - 1] == StatusOf(rest);
    } else {
      assert all == StatusOf(rest);
    }
  }

  lemma LifeMore<Id, A, W>(id: Id, rest: seq<Step<Id, A, W>>, e: Step<Id, A, W>)
    ensures var seen := Seen(id, S.Run(StatusOf(rest)), e);
      LifeOf(id, rest + [e]) == LifeOf(id, rest) + seen && |seen| <= 1
  {
    assert (rest + [e])[..|rest|] == rest;
  }

  /** If the run is remembered, its participants are the agents the reporting side shows, in the phases shown. */
  ghost predicate ShownAt<Id, A, W>(c: L.Coord<Id, A>, steps: seq<Step<Id, A, W>>, keep: nat, id: Id) {
    var d := L.Onward(c, LifeOf(id, steps), keep);
    id in d.runs ==> S.Shows(d.runs[id].participants, S.Run(StatusOf(steps)).shown)
  }

  lemma ShownNext<Id, A, W>(c: L.Coord<Id, A>, rest: seq<Step<Id, A, W>>, e: Step<Id, A, W>, keep: nat, id: Id)
    requires Fits(id, e) && ShownAt(c, rest, keep, id)
    ensures ShownAt(c, rest + [e], keep, id)
  {
    var st, d := S.Run(StatusOf(rest)), L.Onward(c, LifeOf(id, rest), keep);
    LifeMore(id, rest, e);
    StatusMore(rest, e);
    L.OnwardFrom(c, LifeOf(id, rest), Seen(id, st, e), keep);
    if id in L.Onward(d, Seen(id, st, e), keep).runs {
      SeenShows(d, st, e, keep, id);
    }
  }

  lemma ShownFirst<Id, A, W>(c: L.Coord<Id, A>, steps: seq<Step<Id, A, W>>, keep: nat, id: Id)
    requires steps == [] && (id in c.runs ==> c.runs[id].participants == map[])
    ensures ShownAt(c, steps, keep, id)
  {
  }

  lemma JointRest<Id, A, W>(id: Id, rest: seq<Step<Id, A, W>>, e: Step<Id, A, W>)
    requires Joint(id, rest + [e])
    ensures Joint(id, rest) && Fits(id, e)
  {
    var steps := rest + [e];
    assert Fits(id, steps[|rest|]);
    forall i | 0 <= i < |rest|
      ensures Fits(id, rest[i])
    {
      assert Fits(id, steps[i]);
    }
  }

  /** So it is as long as the run is remembered. */
  lemma {:induction false} ShownAlong<Id, A, W>(c: L.Coord<Id, A>, steps: seq<Step<Id, A, W>>, keep: nat, id: Id)
    requires Joint(id, steps) && (id in c.runs ==> c.runs[id].participants == map[])
    ensures ShownAt(c, steps, keep, id)
  {
    if steps == [] {
      ShownFirst(c, steps, keep, id);
    } else {
      var rest, e := steps[..|steps| - 1], steps[|steps| - 1];
      assert steps == rest + [e];
      JointRest(id, rest, e);
      ShownAlong(c, rest, keep, id);
      ShownNext(c, rest, e, keep, id);
    }
  }

  // ---------------------------------------------------------------------------
  // What the end of a run goes back to
  // ---------------------------------------------------------------------------

  lemma TakeFrom<T>(a: seq<T>, b: seq<T>, i: nat)
    requires i < |a + b| && |b| <= 1
    ensures i < |a| ==> (a + b)[..i] == a[..i]
    ensures i >= |a| ==> (a + b)[..i] == a
  {
  }

  /** Where a step of the coordinator comes from. */
  lemma {:induction false} Locate<Id, A, W>(id: Id, steps: seq<Step<Id, A, W>>, i: nat) returns (n: nat)
    requires i < |LifeOf(id, steps)|
    ensures n < |steps| && LifeOf(id, steps[..n]) == LifeOf(id, steps)[..i]
  {
    n := |steps| - 1;
    var rest, e := steps[..n], steps[n];
    assert rest + [e] == steps;
    LifeMore(id, rest, e);
    TakeFrom(LifeOf(id, rest), Seen(id, S.Run(StatusOf(rest)), e), i);
    if i < |LifeOf(id, rest)| {
      n := Locate(id, rest, i);
      assert rest[..n] == steps[..n];
    }
  }

  /** A run that has just begun has no participants. */
  lemma JustBegun<Id, A>(earlier: seq<L.Step<Id, A>>, begin: L.Step<Id, A>, keep: nat, id: Id)
    requires L.NoneBegins(earlier, id) && begin.Begin? && begin.id == id
    ensures var c := L.Run(earlier + [begin], keep); id in c.runs ==> c.runs[id].participants == map[]
  {
    L.OneMore(L.Coord(map[], [], None, None), earlier, begin, keep);
    R.Unbegun(earlier, keep, id);
    if id in L.Run(earlier + [begin], keep).runs {
      L.StepOn(L.Run(earlier, keep), begin, keep, id);
    }
  }

  /** What completion found was what the reporting side showed then. */
  lemma FoundThen<Id, A, W>(earlier: seq<L.Step<Id, A>>, begin: L.Step<Id, A>, steps: seq<Step<Id, A, W>>, keep: nat,
                            id: Id)
    requires L.NoneBegins(earlier, id) && begin.Begin? && begin.id == id && Joint(id, steps)
    requires id in L.Run(earlier + [begin] + LifeOf(id, steps), keep).runs
    ensures S.Shows(L.Run(earlier + [begin] + LifeOf(id, steps), keep).runs[id].participants,
                    S.Run(StatusOf(steps)).shown)
  {
    var c := L.Run(earlier + [begin], keep);
    JustBegun(earlier, begin, keep, id);
    L.OnwardFrom(L.Coord(map[], [], None, None), earlier + [begin], LifeOf(id, steps), keep);
    ShownAlong(c, steps, keep, id);
  }

  /** All agents shown go back to an end; for a run that failed, to a failure. */
  ghost predicate GoesBack<A, W>(steps: seq<S.Step<A, W>>, failed: bool) {
    var shown := S.Run(steps).shown;
    && shown != map[]
    && (forall a :: a in shown ==> S.EndShown(shown[a]) && (failed ==> S.FailureShown(shown[a])))
    && (forall a :: a in shown && shown[a].basis.Folded? ==> S.Was(steps, a, shown[a].basis.book))
  }

  lemma ShownGoesBack<A, W>(steps: seq<S.Step<A, W>>, parts: map<A, L.Participant>)
    requires S.Shows(parts, S.Run(steps).shown) && L.Outcome(parts).Some?
    ensures GoesBack(steps, L.Outcome(parts) == Some(L.Failed))
  {
    S.FinishedIff(steps, parts);
  }

  /** A look that found the participants done found what the reporting side showed then. */
  lemma LookMeans<Id, A, W>(earlier: seq<L.Step<Id, A>>, begin: L.Step<Id, A>, steps: seq<Step<Id, A, W>>, keep: nat,
                            id: Id, j: nat)
    returns (n: nat)
    requires L.NoneBegins(earlier, id) && begin.Begin? && begin.id == id && Joint(id, steps)
    requires j < |earlier| + 1 + |LifeOf(id, steps)|
    requires var c := L.Run((earlier + [begin] + LifeOf(id, steps))[..j], keep);
      id in c.runs && L.Outcome(c.runs[id].participants).Some?
    ensures n <= |steps|
    ensures var c := L.Run((earlier + [begin] + LifeOf(id, steps))[..j], keep);
      GoesBack(StatusOf(steps[..n]), L.Outcome(c.runs[id].participants) == Some(L.Failed))
  {
    var life := LifeOf(id, steps);
    R.BeforeBegin(earlier, begin, life, j);
    R.AfterBegin(earlier, begin, life, keep, id, j);
    n := Locate(id, steps, j - |earlier| - 1);
    var found := steps[..n];
    assert (earlier + [begin] + life)[..j] == earlier + [begin] + LifeOf(id, found);
    assert Joint(id, found);
    FoundThen(earlier, begin, found, keep, id);
    ShownGoesBack(StatusOf(found), L.Run(earlier + [begin] + LifeOf(id, found), keep).runs[id].participants);
  }

  /**
   What it means that a run completed or failed, over every interleaving of its lifecycle with workers, agents, reports,
   losses, rosters and other runs: at some earlier moment the coordinator showed, of every participant, a report that
   goes back to a failure or to a time at which all the agent's workers heard of had ended; of a failed run, a failure.
   */
  lemma CompletionMeans<Id, A, W>(earlier: seq<L.Step<Id, A>>, begin: L.Step<Id, A>, steps: seq<Step<Id, A, W>>,
                                  keep: nat, id: Id)
    returns (n: nat)
    requires L.NoneBegins(earlier, id) && begin.Begin? && begin.id == id && Joint(id, steps)
    requires var c := L.Run(earlier + [begin] + LifeOf(id, steps), keep);
      id in c.runs && (c.runs[id].phase.Completed? || c.runs[id].phase.Failed?)
    ensures n <= |steps|
    ensures GoesBack(StatusOf(steps[..n]), L.Run(earlier + [begin] + LifeOf(id, steps), keep).runs[id].phase.Failed?)
  {
    var all := earlier + [begin] + LifeOf(id, steps);
    var j, k := L.EndedByOneStep(all, keep, id);
    n := LookMeans(earlier, begin, steps, keep, id, j);
  }
}
