/** The agent's phase, folded from those its workers have reported. */
module PhaseFold {

  import opened Lifecycle
  import opened Maps

  /** A worker that has nothing left to do; failures are a matter of their own. */
  predicate Ended(p: Phase) {
    p.Completed? || p.Aborted?
  }

  ghost predicate AnyFailed<W>(phases: map<W, Phase>) {
    exists w :: w in phases && phases[w].Failed?
  }

  ghost predicate AllEnded<W>(phases: map<W, Phase>) {
    forall w :: w in phases ==> Ended(phases[w])
  }

  /** A worker that was told to start is still going: it has reported nothing yet, or nothing final. */
  ghost predicate Going<W>(told: set<W>, phases: map<W, Phase>) {
    exists w :: w in told && !Over(phases, w)
  }

  ghost predicate Over<W>(phases: map<W, Phase>, w: W) {
    w in phases && IsTerminal(phases[w])
  }

  /** A worker that was told to start has reported nothing. */
  ghost predicate Silent<W>(told: set<W>, phases: map<W, Phase>) {
    exists w :: w in told && w !in phases
  }

  /** A failure anywhere is a failure; otherwise the agent is done exactly when all its workers are. */
  ghost predicate Folds<W>(phases: map<W, Phase>, p: Phase) {
    && (p.Pending? <==> phases == map[])
    && (p.Failed? <==> AnyFailed(phases))
    && (p.Completed? <==> phases != map[] && AllEnded(phases))
    && (p.Pending? || p.Failed? || p.Completed? || p.Running?)
  }

  method FoldPhases<W(==)>(phases: map<W, Phase>, iterations: map<W, nat>) returns (p: Phase, total: nat)
    ensures Folds(phases, p) && p == FoldOf(phases) && total == SumValues(iterations)
  {
    total := Total(iterations);
    if phases == map[] {
      return Pending, total;
    }
    var failed, completed := CountPhases(phases);
    CountsDecide(phases);
    p := if failed > 0 then Failed else if completed == |phases| then Completed else Running;
    FoldIsDetermined(phases, p);
  }

  ghost function FailedIn<W>(phases: map<W, Phase>, rest: set<W>): (r: set<W>) {
    set w | w in phases && w !in rest && phases[w].Failed?
  }

  ghost function EndedIn<W>(phases: map<W, Phase>, rest: set<W>): (r: set<W>) {
    set w | w in phases && w !in rest && Ended(phases[w])
  }

  /** Counts the workers in whatever order. */
  method CountPhases<W(==)>(phases: map<W, Phase>) returns (failed: nat, completed: nat)
    ensures failed == |FailedIn(phases, {})| && completed == |EndedIn(phases, {})|
  {
    failed, completed := 0, 0;
    var rest := phases.Keys;
    assert FailedIn(phases, rest) == {} && EndedIn(phases, rest) == {};
    while rest != {}
      invariant rest <= phases.Keys
      invariant failed == |FailedIn(phases, rest)| && completed == |EndedIn(phases, rest)|
      decreases rest
    {
      var w :| w in rest;
      assert FailedIn(phases, rest - {w}) == FailedIn(phases, rest) + if phases[w].Failed? then {w} else {};
      assert EndedIn(phases, rest - {w}) == EndedIn(phases, rest) + if Ended(phases[w]) then {w} else {};
      rest := rest - {w};
      match phases[w] {
        case Failed => failed := failed + 1;
        case Completed => completed := completed + 1;
        case Aborted => completed := completed + 1;
        case _ =>
      }
    }
  }

  method Total<W(==)>(m: map<W, nat>) returns (total: nat)
    ensures total == SumValues(m)
  {
    total := 0;
    var rest := m;
    while rest != map[]
      invariant total + SumValues(rest) == SumValues(m)
      decreases |rest|
    {
      assert rest.Keys != {};
      var k :| k in rest.Keys;
      SumAnyOrder(rest, k);
      RemoveKey(rest, k);
      total, rest := total + rest[k], rest - {k};
    }
  }

  lemma CountsDecide<W>(phases: map<W, Phase>)
    requires phases != map[]
    ensures |FailedIn(phases, {})| > 0 <==> AnyFailed(phases)
    ensures |EndedIn(phases, {})| == |phases| <==> AllEnded(phases)
    ensures AnyFailed(phases) ==> !AllEnded(phases)
  {
    var failed, ended := FailedIn(phases, {}), EndedIn(phases, {});
    if AnyFailed(phases) {
      var w :| w in phases && phases[w].Failed?;
      assert w in failed;
    }
    if |failed| > 0 {
      var w :| w in failed;
    }
    assert |phases| == |phases.Keys|;
    assert ended == phases.Keys <==> AllEnded(phases) by {
      forall w | w in phases
        ensures w in ended <==> Ended(phases[w])
      {
      }
      assert ended <= phases.Keys;
    }
    if ended != phases.Keys {
      Smaller(ended, phases.Keys);
    }
  }

  lemma {:induction false} Smaller<T>(a: set<T>, b: set<T>)
    requires a < b
    ensures |a| < |b|
  {
    var c := b - a;
    assert b == a + c && a !! c;
    assert c != {};
  }

  /** What the agent reports: pending while nothing is reported, else a failure, completion or running. */
  ghost function FoldOf<W>(phases: map<W, Phase>): (p: Phase)
    ensures Folds(phases, p)
  {
    if phases == map[] then Pending
    else if AnyFailed(phases) then Failed
    else if AllEnded(phases) then
      assert exists w :: w in phases by { SomeKey(phases); }
      Completed
    else Running
  }

  lemma SomeKey<W>(phases: map<W, Phase>)
    requires phases != map[]
    ensures exists w :: w in phases
  {
    assert phases.Keys != {};
    var w :| w in phases.Keys;
  }

  lemma FoldIsDetermined<W>(phases: map<W, Phase>, p: Phase)
    requires Folds(phases, p)
    ensures p == FoldOf(phases)
  {
  }

  /**
   The agent can look finished while a worker it told to start is still going, in exactly two ways: another worker
   failed, or all that have reported have ended and one has not reported yet.
   */
  lemma LooksFinishedIff<W>(told: set<W>, phases: map<W, Phase>, p: Phase)
    requires Folds(phases, p) && Going(told, phases)
    ensures IsTerminal(p) <==> AnyFailed(phases) || (phases != map[] && AllEnded(phases) && Silent(told, phases))
  {
    var w :| w in told && !Over(phases, w);
    assert w in phases ==> !Ended(phases[w]);
  }

  /** A failure is not needed for it: one worker has completed and the other one has not said a word. */
  lemma SilentWorkerIsOverlooked()
    ensures Going({0, 1}, map[0 := Completed]) && !AnyFailed(map[0 := Completed])
    ensures Folds(map[0 := Completed], Completed)
  {
    assert 1 in {0, 1} && !Over(map[0 := Completed], 1);
    assert 0 in map[0 := Completed];
  }
}
