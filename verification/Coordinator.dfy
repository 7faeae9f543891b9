/**
 The coordinator and its runs as objects, each method one lock section or a few in a row,
 proved against the lifecycle machine.

 `c` is the machine's state before a method; a method that has more than one section says
 which steps they are. The machine lets any other step come in between.
 */
module Coordinator {

  import opened Dispatch
  import opened Lifecycle
  import opened Options

  /** A threshold's latest result. */
  datatype Result = Result(evaluated: bool, passed: bool)

  predicate Failing(r: Result) {
    r.evaluated && !r.passed
  }

  ghost predicate AnyFailing(results: seq<Result>) {
    exists i :: 0 <= i < |results| && Failing(results[i])
  }

  const ALL_FAILED := "every agent reported a failure"
  const ALL_FINISHED := "all agents finished"
  const SOME_FAILED := "all agents finished, some reported a failure"
  const UNCONFIRMED := "stopped, but not every agent confirmed"

  lemma ReasonsDiffer()
    ensures ALL_FAILED != ALL_FINISHED && ALL_FINISHED != SOME_FAILED && ALL_FAILED != SOME_FAILED
    ensures ALL_FAILED != "" && ALL_FINISHED != "" && SOME_FAILED != ""
  {
    assert ALL_FAILED[0] == 'e' && ALL_FINISHED[0] == 'a' && SOME_FAILED[0] == 'a';
    assert |ALL_FINISHED| != |SOME_FAILED|;
  }

  ghost predicate NoneFails<A>(parts: map<A, Participant>) {
    forall a :: a in parts ==> !parts[a].phase.Failed?
  }

  class Run<Id, A(==)> {
    const id: Id
    const grace: int
    var phase: Phase
    var startedAt: Option<int>
    var stoppingAt: Option<int>
    var endedAt: Option<int>
    var stopWhy: string
    var failure: string
    var peak: int
    var ramp: int
    var participants: map<A, Participant>
    var breached: bool

    function State(): (r: RunState<A>)
      reads this
    {
      RunState(phase, startedAt, stoppingAt, endedAt, stopWhy, failure, peak, ramp, grace, participants, breached)
    }

    constructor (id: Id, peak: int, grace: int)
      ensures this.id == id && State() == NewRun(peak, grace)
    {
      this.id, this.grace, this.peak := id, grace, peak;
      phase, startedAt, stoppingAt, endedAt := Pending, None, None, None;
      stopWhy, failure, ramp, participants, breached := "", "", 0, map[], false;
    }

    method SetPhase(phase: Phase, reason: string, now: int) returns (ok: bool)
      modifies this
      ensures State() == PhaseSet(old(State()), phase, reason, now) && (ok <==> Live(old(State())))
    {
      if IsTerminal(this.phase) {
        return false;
      }
      this.phase := phase;
      if phase == Running && startedAt == None {
        startedAt := Some(now);
      } else if phase == Stopping && stoppingAt == None {
        stoppingAt := Some(now);
      } else if IsTerminal(phase) {
        endedAt := Some(now);
        stopWhy := reason;
        if phase == Failed {
          failure := reason;
        }
      }
      return true;
    }

    method UpdateParticipant(agent: A, phase: Phase)
      modifies this
      ensures State() == Reported(old(State()), agent, phase)
    {
      var p := Participant(0, Pending, false);
      if agent in participants {
        p := participants[agent];
      }
      participants := participants[agent := p.(phase := phase)];
    }

    /** A breach latches. */
    method SetThresholds(results: seq<Result>)
      modifies this
      ensures State() == Judged(old(State()), AnyFailing(results))
    {
      for n := 0 to |results|
        invariant State() == Judged(old(State()), exists i :: 0 <= i < n && Failing(results[i]))
      {
        if results[n].evaluated && !results[n].passed {
          assert Failing(results[n]);
          breached := true;
        }
      }
    }

    /** Whether every participant is done, and how many of them failed. */
    method Survey() returns (v: Verdict)
      ensures Decides(participants, v)
    {
      if participants == map[] {
        return Unfinished;
      }
      var rest, failed := participants.Keys, {};
      while rest != {}
        invariant rest <= participants.Keys
        invariant forall a :: a in participants && a !in rest ==> Done(participants[a])
        invariant failed == set a | a in participants && a !in rest && participants[a].phase.Failed?
        decreases rest
      {
        var a :| a in rest;
        rest := rest - {a};
        match participants[a].phase {
          case Completed =>
          case Failed => failed := failed + {a};
          case _ => return Unfinished;
        }
      }
      v := if failed == participants.Keys then AllFailed else Finished(|failed|);
      SurveyDecides(participants, failed, v);
    }

    /** Whether the run has been asked to stop and its grace and the margin have passed since. */
    method StopIsOverdue(now: int) returns (overdue: bool)
      ensures overdue <==> TimesOut(State(), now)
    {
      var stopping := StoppingFor(State(), now);
      if stopping == 0 {
        return false;
      }
      var limit := GraceBudget(State()) + STOP_TIMEOUT_MARGIN;
      return stopping >= limit;
    }

    method SetPeak(peak: int, ramp: int)
      modifies this
      ensures State() == old(State()).(peak := peak, ramp := ramp)
    {
      this.peak, this.ramp := peak, ramp;
    }

    /** What a rebalance reads: the peak, the ramp, which belongs to it alone from now on, and the roster. */
    method TakeRamp() returns (peak: int, ramp: int, known: map<A, Participant>)
      modifies this
      ensures State() == old(State()).(ramp := 0)
      ensures peak == old(State()).peak && ramp == old(State()).ramp && known == old(State()).participants
    {
      peak, ramp, known := this.peak, this.ramp, participants;
      this.ramp := 0;
    }

    method SetParticipants(parts: map<A, Participant>)
      modifies this
      ensures State() == old(State()).(participants := parts)
    {
      participants := parts;
    }
  }

  lemma SurveyDecides<A>(parts: map<A, Participant>, failed: set<A>, v: Verdict)
    requires parts != map[] && forall a :: a in parts ==> Done(parts[a])
    requires failed == set a | a in parts && parts[a].phase.Failed?
    requires v == if failed == parts.Keys then AllFailed else Finished(|failed|)
    ensures Decides(parts, v)
  {
    forall a | a in parts
      ensures parts[a].phase.Failed? <==> a in failed
    {
    }
    assert failed == parts.Keys <==> forall a :: a in parts ==> a in failed;
  }

  // ---------------------------------------------------------------------------
  // What a tick does to a run
  // ---------------------------------------------------------------------------

  /** A look at a run, and if that decides its end, a last judgement and the end. */
  ghost function Concluded<Id, A>(c: Coord<Id, A>, look: Step<Id, A>, failed: bool, why: string, now: int, keep: nat)
    : (r: seq<Step<Id, A>>)
    requires look.CheckDone? || look.CheckStop?
  {
    [look] + if Next(c, look, keep).pending.Some? then [Judge(look.id, failed), Finish(why, now)] else []
  }

  /** First part of a tick: thresholds, which may ask the run to stop. */
  ghost function Judging<Id, A>(c: Coord<Id, A>, id: Id, failed: bool, abort: Option<string>, now: int)
    : (r: seq<Step<Id, A>>)
    requires id in c.runs
  {
    [Judge(id, failed)] +
      if abort.Some? && Live(c.runs[id]) then [Step.SetPhase(id, Stopping, abort.value, now)] else []
  }

  lemma OneStep<Id, A>(c: Coord<Id, A>, e: Step<Id, A>, keep: nat)
    ensures Onward(c, [e], keep) == Next(c, e, keep)
  {
    var one := [e];
    assert one[..0] == [];
  }

  lemma TwoSteps<Id, A>(c: Coord<Id, A>, e: Step<Id, A>, f: Step<Id, A>, keep: nat)
    ensures Onward(c, [e, f], keep) == Next(Next(c, e, keep), f, keep)
  {
    OneStep(c, e, keep);
    OneMore(c, [e], f, keep);
    assert [e] + [f] == [e, f];
  }

  lemma ThreeSteps<Id, A>(c: Coord<Id, A>, e: Step<Id, A>, f: Step<Id, A>, g: Step<Id, A>, keep: nat)
    ensures Onward(c, [e, f, g], keep) == Next(Next(Next(c, e, keep), f, keep), g, keep)
  {
    TwoSteps(c, e, f, keep);
    OneMore(c, [e, f], g, keep);
    assert [e, f] + [g] == [e, f, g];
  }

  /** Looking at a run and acting on it leaves nothing pending, and the run over if the look decided so. */
  lemma ConcludedEnds<Id, A>(c: Coord<Id, A>, look: Step<Id, A>, failed: bool, why: string, now: int, keep: nat)
    requires (look.CheckDone? || look.CheckStop?) && look.id in c.runs && c.pending.None?
    ensures var d := Onward(c, Concluded(c, look, failed, why, now, keep), keep);
      && d.pending.None? && d.runs.Keys == c.runs.Keys && d.order == c.order && d.active == c.active
      && Later(c.runs[look.id], d.runs[look.id])
      && (Next(c, look, keep).pending.Some? ==> !Live(d.runs[look.id]))
      && forall id :: id in c.runs && id != look.id ==> d.runs[id] == c.runs[id]
  {
    ConcludedIs(c, look, failed, why, now, keep);
    ConclusionEnds(Next(c, look, keep), look.id, failed, why, now, keep);
  }

  lemma ConclusionEnds<Id, A>(c: Coord<Id, A>, id: Id, failed: bool, why: string, now: int, keep: nat)
    requires id in c.runs && (c.pending.Some? ==> c.pending.value.id == id && IsTerminal(c.pending.value.phase))
    ensures var d := if c.pending.Some? then Next(Next(c, Judge(id, failed), keep), Finish(why, now), keep) else c;
      && d.pending.None? && d.runs.Keys == c.runs.Keys && d.order == c.order && d.active == c.active
      && Later(c.runs[id], d.runs[id])
      && (c.pending.Some? ==> !Live(d.runs[id]))
      && forall other :: other in c.runs && other != id ==> d.runs[other] == c.runs[other]
  {
  }

  class Coordinator<Id(==), A(==)> {
    const keep: nat
    var runs: map<Id, Run<Id, A>>
    var order: seq<Id>
    var active: Run?<Id, A>
    /** What the ticker has decided and not acted on yet. */
    ghost var pending: Option<Ending<Id>>
    ghost var objects: set<Run<Id, A>>

    ghost predicate Valid()
      reads this, objects
    {
      && (forall id :: id in runs ==> runs[id] in objects && runs[id].id == id)
      && (active != null ==> active.id in runs && runs[active.id] == active)
    }

    ghost function State(): (r: Coord<Id, A>)
      requires Valid()
      reads this, objects
    {
      var current := if active == null then Option.None else Option.Some(active.id);
      Coord(map id | id in runs :: runs[id].State(), order, current, pending)
    }

    constructor (keep: nat)
      ensures Valid() && this.keep == keep && State() == Lifecycle.Run([], keep) && objects == {}
    {
      this.keep := keep;
      runs, order, active, pending, objects := map[], [], null, None, {};
    }

    ghost predicate Matches(c: Coord<Id, A>)
      reads this, objects
    {
      Valid() && State() == c
    }

    /** Drops the oldest runs beyond the history, but never a live one. */
    method TrimHistory(ghost c: Coord<Id, A>)
      requires Matches(c) && Kept(c) && keep >= 1
      modifies this`runs, this`order
      ensures Matches(Trimmed(c, keep))
    {
      ghost var now := c;
      while |order| > keep
        invariant Matches(now) && Kept(now) && Trimmed(now, keep) == Trimmed(c, keep)
        decreases |order|
      {
        var oldest := order[0];
        if oldest in runs && !IsTerminal(runs[oldest].phase) {
          return;
        }
        Drop(oldest, now);
        now := now.(runs := now.runs - {oldest}, order := now.order[1..]);
      }
    }

    /** Forgets the oldest run, which is not the active one. */
    method Drop(oldest: Id, ghost c: Coord<Id, A>)
      requires Matches(c) && Kept(c) && |c.order| > 1 && c.order[0] == oldest
      modifies this`runs, this`order
      ensures var d := c.(runs := c.runs - {oldest}, order := c.order[1..]); Matches(d) && Kept(d)
    {
      DropOldest(c);
      ActiveIsLast(c);
      runs := runs - {oldest};
      order := order[1..];
      assert State().runs == c.runs - {oldest};
    }

    /** A new run, unless one is in progress. */
    method BeginRun(id: Id, peak: int, grace: int, ghost c: Coord<Id, A>) returns (run: Run?<Id, A>)
      requires Matches(c) && Kept(c) && keep >= 1 && id !in c.runs
      modifies this
      ensures Matches(Begun(c, id, peak, grace, keep))
      ensures run == null <==> Busy(c)
      ensures objects == if run == null then old(objects) else old(objects) + {run}
      ensures run != null ==> fresh(run) && active == run && run.id == id
    {
      if active != null && !IsTerminal(active.phase) {
        return null;
      }
      run := new Run<Id, A>(id, peak, grace);
      Append(run, c);
      TrimHistory(Appended(c, id, NewRun(peak, grace)));
    }

    /** The run is one of those remembered. */
    ghost predicate Knows(run: Run<Id, A>)
      reads this
    {
      run.id in runs && runs[run.id] == run
    }

    /** Moves a run into a phase in progress. */
    method MoveOn(run: Run<Id, A>, phase: Phase, reason: string, now: int, ghost c: Coord<Id, A>) returns (ok: bool)
      requires Matches(c) && Knows(run) && !IsTerminal(phase)
      modifies objects
      ensures Matches(Next(c, Step.SetPhase(run.id, phase, reason, now), keep)) && Knows(run)
      ensures ok <==> Live(c.runs[run.id])
    {
      ok := run.SetPhase(phase, reason, now);
      assert State().runs == c.runs[run.id := run.State()];
    }

    /** Asks a live run to stop. */
    method StopRun(id: Id, reason: string, now: int, ghost c: Coord<Id, A>) returns (ok: bool)
      requires Matches(c)
      modifies objects
      ensures ok <==> id in c.runs && Live(c.runs[id])
      ensures Matches(if ok then Next(c, Step.SetPhase(id, Stopping, Why(reason), now), keep) else c)
    {
      if id !in runs || IsTerminal(runs[id].phase) {
        return false;
      }
      ok := MoveOn(runs[id], Stopping, Why(reason), now, c);
    }

    static function Why(reason: string): (r: string) {
      if reason == "" then "stopped by operator" else reason
    }

    method NoteReport(run: Run<Id, A>, agent: A, status: Phase, ghost c: Coord<Id, A>)
      requires Matches(c) && Knows(run)
      modifies objects
      ensures Matches(Next(c, Report(run.id, agent, status), keep)) && Knows(run)
    {
      run.UpdateParticipant(agent, status);
      assert State().runs == c.runs[run.id := run.State()];
    }

    /** Notes what an agent reports of a run; a running agent makes the run a running one, unless it is over. */
    method OnRunStatus(id: Id, agent: A, status: Phase, now: int, ghost c: Coord<Id, A>)
      requires Matches(c)
      modifies objects
      ensures var shown := if status.Unspecified? then Pending else status;
        var d := Next(c, Report(id, agent, shown), keep);
        Matches(if status.Running? then Next(d, Step.SetPhase(id, Running, "", now), keep) else d)
    {
      if id !in runs {
        return;
      }
      var shown := if status == Unspecified then Pending else status;
      NoteReport(runs[id], agent, shown, c);
      if status == Running {
        var _ := MoveOn(runs[id], Running, "", now, Next(c, Report(id, agent, shown), keep));
      }
    }

    method JudgeRun(run: Run<Id, A>, results: seq<Result>, ghost c: Coord<Id, A>)
      requires Matches(c) && Knows(run)
      modifies objects
      ensures Matches(Next(c, Judge(run.id, AnyFailing(results)), keep)) && Knows(run)
    {
      run.SetThresholds(results);
      assert State().runs == c.runs[run.id := run.State()];
    }

    /** The ticker looks at the participants of a run. */
    method LookAtParticipants(run: Run<Id, A>, ghost c: Coord<Id, A>) returns (v: Verdict)
      requires Matches(c) && Knows(run) && c.pending.None?
      modifies this`pending
      ensures Matches(Next(c, CheckDone(run.id), keep)) && Knows(run)
      ensures Decides(c.runs[run.id].participants, v)
    {
      v := run.Survey();
      pending := Looked(c, CheckDone(run.id));
    }

    /** The ticker looks at how long a run has been stopping. */
    method LookAtStop(run: Run<Id, A>, now: int, ghost c: Coord<Id, A>) returns (overdue: bool)
      requires Matches(c) && Knows(run) && c.pending.None?
      modifies this`pending
      ensures Matches(Next(c, CheckStop(run.id, now), keep)) && Knows(run)
      ensures overdue <==> TimesOut(c.runs[run.id], now)
    {
      overdue := run.StopIsOverdue(now);
      pending := Looked(c, CheckStop(run.id, now));
    }

    /** Ends a run the way the ticker decided, unless it is over already. */
    method End(run: Run<Id, A>, phase: Phase, reason: string, now: int, ghost c: Coord<Id, A>)
      requires Matches(c) && Knows(run) && c.pending == Some(Ending(run.id, phase))
      modifies objects, this`pending
      ensures Matches(Next(c, Finish(reason, now), keep)) && Knows(run)
    {
      var _ := run.SetPhase(phase, reason, now);
      pending := None;
      assert State().runs == c.runs[run.id := run.State()];
    }

    /** A last judgement, and the end. */
    method FinishRun(run: Run<Id, A>, phase: Phase, reason: string, results: seq<Result>, now: int,
                     ghost c: Coord<Id, A>)
      requires Matches(c) && Knows(run) && c.pending == Some(Ending(run.id, phase))
      modifies objects, this`pending
      ensures Matches(Next(Next(c, Judge(run.id, AnyFailing(results)), keep), Finish(reason, now), keep)) && Knows(run)
    {
      JudgeRun(run, results, c);
      End(run, phase, reason, now, Next(c, Judge(run.id, AnyFailing(results)), keep));
    }

    /** Finishes the run once every participant has reported that it is done. */
    method CheckCompletion(run: Run<Id, A>, results: seq<Result>, now: int, ghost c: Coord<Id, A>)
      returns (ghost why: string)
      requires Matches(c) && Knows(run) && c.pending.None?
      modifies objects, this`pending
      ensures Matches(Onward(c, Concluded(c, CheckDone(run.id), AnyFailing(results), why, now, keep), keep))
      ensures Knows(run) && Explains(c.runs[run.id].participants, why)
    {
      var verdict := LookAtParticipants(run, c);
      ghost var d := Next(c, CheckDone(run.id), keep);
      var reason := ReasonFor(verdict);
      why := reason;
      ReasonExplains(c.runs[run.id].participants, verdict);
      ConcludedIs(c, CheckDone(run.id), AnyFailing(results), why, now, keep);
      match verdict {
        case Unfinished =>
        case AllFailed => FinishRun(run, Failed, reason, results, now, d);
        case Finished(_) => FinishRun(run, Completed, reason, results, now, d);
      }
    }

    /** The reason given for an end tells a failure of all from a completion, and one with failures from one without. */
    static ghost predicate Explains(parts: map<A, Participant>, why: string) {
      && (why == ALL_FAILED <==> Outcome(parts) == Some(Failed))
      && (why == ALL_FINISHED <==> Outcome(parts) == Some(Completed) && NoneFails(parts))
      && (why == SOME_FAILED <==> Outcome(parts) == Some(Completed) && !NoneFails(parts))
    }

    static lemma ReasonExplains(parts: map<A, Participant>, v: Verdict)
      requires Decides(parts, v)
      ensures Explains(parts, ReasonFor(v))
    {
      var failed := set a | a in parts && parts[a].phase.Failed?;
      if !NoneFails(parts) {
        var a :| a in parts && parts[a].phase.Failed?;
        assert a in failed;
      } else {
        assert failed == {};
      }
      ReasonsDiffer();
    }

    static function ReasonFor(v: Verdict): (r: string) {
      match v
      case Unfinished => ""
      case AllFailed => ALL_FAILED
      case Finished(n) => if n == 0 then ALL_FINISHED else SOME_FAILED
    }

    /** Stops waiting for agents that never confirmed a stop. */
    method CheckStopTimeout(run: Run<Id, A>, results: seq<Result>, now: int, ghost c: Coord<Id, A>)
      returns (ghost why: string)
      requires Matches(c) && Knows(run) && c.pending.None?
      modifies objects, this`pending
      ensures Matches(Onward(c, Concluded(c, CheckStop(run.id, now), AnyFailing(results), why, now, keep), keep))
      ensures Knows(run) && why == UNCONFIRMED
    {
      var overdue := LookAtStop(run, now, c);
      why := UNCONFIRMED;
      ConcludedIs(c, CheckStop(run.id, now), AnyFailing(results), why, now, keep);
      if overdue {
        ghost var d := Next(c, CheckStop(run.id, now), keep);
        FinishRun(run, Aborted, UNCONFIRMED, results, now, d);
      }
    }

    /** Thresholds: a breach latches, and one that aborts asks a run that is still going to stop. */
    method JudgeAndAbort(run: Run<Id, A>, results: seq<Result>, abort: Option<string>, now: int, ghost c: Coord<Id, A>)
      returns (live: bool)
      requires Matches(c) && Knows(run)
      modifies objects
      ensures Matches(Onward(c, Judging(c, run.id, AnyFailing(results), abort, now), keep)) && Knows(run)
      ensures live <==> Live(c.runs[run.id])
    {
      JudgeRun(run, results, c);
      live := !IsTerminal(run.phase);
      ghost var d := Next(c, Judge(run.id, AnyFailing(results)), keep);
      JudgingIs(c, run.id, AnyFailing(results), abort, now, keep);
      if abort.Some? && live {
        var _ := MoveOn(run, Stopping, abort.value, now, d);
      }
    }

    /**
     Looks after the active run once per tick: thresholds, which may ask it to stop, then completion, then the stop
     timeout, each in sections of its own.
     */
    method TickRun(results: seq<Result>, abort: Option<string>, now: int, ghost c: Coord<Id, A>)
      returns (ghost done: string, ghost stopped: string)
      requires Matches(c) && c.pending.None?
      modifies objects, this`pending
      ensures active == old(active) && Matches(
        if active == null then c
        else Onward(c, TickOf(c, active.id, AnyFailing(results), abort, done, stopped, now, keep), keep))
      ensures active != null && Live(c.runs[active.id]) ==>
        Explains(c.runs[active.id].participants, done) && stopped == UNCONFIRMED
    {
      done, stopped := "", "";
      if active == null {
        return;
      }
      ghost var failed := AnyFailing(results);
      var live := JudgeAndAbort(active, results, abort, now, c);
      if live {
        ghost var judged := Onward(c, Judging(c, active.id, failed, abort, now), keep);
        JudgingKeeps(c, active.id, failed, abort, now, keep);
        done := CheckCompletion(active, results, now, judged);
        ghost var checked := Onward(judged, Concluded(judged, CheckDone(active.id), failed, done, now, keep), keep);
        ConcludedEnds(judged, CheckDone(active.id), failed, done, now, keep);
        stopped := CheckStopTimeout(active, results, now, checked);
        TickIs(c, active.id, failed, abort, done, stopped, now, keep);
      }
    }

    /** The section in which a rebalance reads what it goes by. */
    method ReadForDispatch(run: Run<Id, A>, ghost c: Coord<Id, A>)
      returns (peak: int, ramp: int, known: map<A, Participant>)
      requires Matches(c) && Knows(run)
      modifies objects
      ensures Matches(Next(c, Step.TakeRamp(run.id), keep)) && Knows(run)
      ensures peak == c.runs[run.id].peak && ramp == c.runs[run.id].ramp && known == c.runs[run.id].participants
    {
      peak, ramp, known := run.TakeRamp();
      assert State().runs == c.runs[run.id := run.State()];
    }

    /** The section in which a rebalance writes the new roster. */
    method WriteRoster(run: Run<Id, A>, parts: map<A, Participant>, ghost c: Coord<Id, A>)
      requires Matches(c) && Knows(run)
      modifies objects
      ensures Matches(Next(c, Step.Roster(run.id, parts), keep)) && Knows(run)
    {
      run.SetParticipants(parts);
      assert State().runs == c.runs[run.id := run.State()];
    }

    /** Splits a live run over the agents connected now, in the order given: one section reads, another one writes. */
    method Rebalance(run: Run<Id, A>, sessions: seq<Session<A>>, rate: int, ghost c: Coord<Id, A>)
      returns (orders: seq<Order<A>>, ghost parts: map<A, Participant>)
      requires Matches(c) && Knows(run) && Apart(sessions)
      modifies objects
      ensures Knows(run)
      ensures !Live(c.runs[run.id]) || sessions == [] ==> orders == [] && Matches(c)
      ensures Live(c.runs[run.id]) && sessions != [] ==>
        && Dispatched(c.runs[run.id], sessions, rate, orders, parts)
        && Matches(Next(Next(c, Step.TakeRamp(run.id), keep), Step.Roster(run.id, parts), keep))
    {
      parts := map[];
      if IsTerminal(run.phase) || |sessions| == 0 {
        return [], parts;
      }
      var peak, ramp, known := ReadForDispatch(run, c);
      var quotas;
      orders, quotas := Assign(sessions, known, peak, rate, ramp, c.runs[run.id]);
      var roster := RosterFor(sessions, quotas, seq(|sessions|, k => Running));
      parts := roster;
      WriteRoster(run, roster, Next(c, Step.TakeRamp(run.id), keep));
    }

    /**
     The first dispatch of a run: everybody connected is told to start, and the run is starting. Agents that could not
     be reached are marked as failed.
     */
    method DispatchFirst(run: Run<Id, A>, sessions: seq<Session<A>>, peak: int, rate: int, iterations: nat,
                         unreached: set<A>, now: int, ghost c: Coord<Id, A>)
      returns (orders: seq<Order<A>>, ghost parts: map<A, Participant>)
      requires Matches(c) && Knows(run) && Apart(sessions) && sessions != []
      modifies objects
      ensures Knows(run) && DispatchedFirst(sessions, peak, rate, iterations, unreached, orders, parts)
      ensures var d := Next(c, Step.Roster(run.id, parts), keep);
        Matches(Next(d, Step.SetPhase(run.id, Starting, "", now), keep))
    {
      var quotas;
      orders, quotas := AssignFirst(sessions, peak, rate, iterations);
      var roster := RosterFor(sessions, quotas, FirstPhases(sessions, unreached));
      parts := roster;
      WriteRoster(run, roster, c);
      var _ := MoveOn(run, Starting, "", now, Next(c, Step.Roster(run.id, parts), keep));
    }

    method ChangePeak(run: Run<Id, A>, peak: int, ramp: int, ghost c: Coord<Id, A>)
      requires Matches(c) && Knows(run)
      modifies objects
      ensures Matches(Next(c, Step.Scale(run.id, peak, ramp), keep)) && Knows(run)
    {
      run.SetPeak(peak, ramp);
      assert State().runs == c.runs[run.id := run.State()];
    }

    /** Changes a live run's peak and splits it anew, easing the change over the ramp. */
    method ScaleRun(id: Id, peak: int, ramp: int, sessions: seq<Session<A>>, rate: int, ghost c: Coord<Id, A>)
      returns (ok: bool, orders: seq<Order<A>>, ghost parts: map<A, Participant>)
      requires Matches(c) && Apart(sessions)
      modifies objects
      ensures ok <==> peak >= 0 && ramp >= 0 && id in c.runs && Live(c.runs[id])
      ensures !ok ==> orders == [] && Matches(c)
      ensures ok && sessions == [] ==> orders == [] && Matches(Next(c, Step.Scale(id, peak, ramp), keep))
      ensures ok && sessions != [] ==>
        && Dispatched(c.runs[id].(peak := peak, ramp := ramp), sessions, rate, orders, parts)
        && var d := Next(Next(c, Step.Scale(id, peak, ramp), keep), Step.TakeRamp(id), keep);
           Matches(Next(d, Step.Roster(id, parts), keep))
    {
      parts := map[];
      if peak < 0 || ramp < 0 || id !in runs || IsTerminal(runs[id].phase) {
        return false, [], parts;
      }
      ChangePeak(runs[id], peak, ramp, c);
      orders, parts := Rebalance(runs[id], sessions, rate, Next(c, Step.Scale(id, peak, ramp), keep));
      ok := true;
    }

    /** Makes a run the last and the active one. */
    method Append(run: Run<Id, A>, ghost c: Coord<Id, A>)
      requires Matches(c) && Kept(c) && !Busy(c) && run.id !in c.runs && run !in objects
      modifies this
      ensures objects == old(objects) + {run} && active == run
      ensures Matches(Appended(c, run.id, run.State())) && Kept(Appended(c, run.id, run.State()))
    {
      AppendKept(c, run.id, run.State());
      runs, order, active, objects := runs[run.id := run], order + [run.id], run, objects + {run};
      assert State().runs == c.runs[run.id := run.State()];
    }
  }

  lemma ActiveIsLast<Id, A>(c: Coord<Id, A>)
    requires Kept(c) && |c.order| > 1
    ensures c.active == Option.Some(c.order[|c.order| - 1]) && c.order[|c.order| - 1] != c.order[0]
  {
    assert Differ(c.order, 0, |c.order| - 1);
  }

  // ---------------------------------------------------------------------------
  // Whole ticks
  // ---------------------------------------------------------------------------

  /** The sections of one tick: thresholds, then completion, then the stop timeout, the last two only for a live run. */
  ghost function TickOf<Id, A>(c: Coord<Id, A>, id: Id, failed: bool, abort: Option<string>, done: string,
                               stopped: string, now: int, keep: nat): (r: seq<Step<Id, A>>)
    requires id in c.runs
  {
    var judging := Judging(c, id, failed, abort, now);
    if !Live(c.runs[id]) then judging
    else
      var judged := Onward(c, judging, keep);
      var checking := Concluded(judged, CheckDone(id), failed, done, now, keep);
      var checked := Onward(judged, checking, keep);
      judging + checking + Concluded(checked, CheckStop(id, now), failed, stopped, now, keep)
  }

  lemma JudgingIs<Id, A>(c: Coord<Id, A>, id: Id, failed: bool, abort: Option<string>, now: int, keep: nat)
    requires id in c.runs
    ensures Onward(c, Judging(c, id, failed, abort, now), keep) ==
      var d := Next(c, Judge(id, failed), keep);
      if abort.Some? && Live(c.runs[id]) then Next(d, Step.SetPhase(id, Stopping, abort.value, now), keep) else d
  {
    var judge: Step<Id, A> := Judge(id, failed);
    OneStep(c, judge, keep);
    if abort.Some? && Live(c.runs[id]) {
      var stop: Step<Id, A> := Step.SetPhase(id, Stopping, abort.value, now);
      TwoSteps(c, judge, stop, keep);
      assert [judge] + [stop] == [judge, stop];
    } else {
      assert [judge] + [] == [judge];
    }
  }

  lemma ConcludedIs<Id, A>(c: Coord<Id, A>, look: Step<Id, A>, failed: bool, why: string, now: int, keep: nat)
    requires look.CheckDone? || look.CheckStop?
    ensures Onward(c, Concluded(c, look, failed, why, now, keep), keep) ==
      var d := Next(c, look, keep);
      if d.pending.Some? then Next(Next(d, Judge(look.id, failed), keep), Finish(why, now), keep) else d
  {
    OneStep(c, look, keep);
    if Next(c, look, keep).pending.Some? {
      ThreeSteps(c, look, Judge(look.id, failed), Finish(why, now), keep);
      assert [look] + [Judge(look.id, failed), Finish(why, now)] == [look, Judge(look.id, failed), Finish(why, now)];
    } else {
      assert [look] + [] == [look];
    }
  }

  lemma JudgingKeeps<Id, A>(c: Coord<Id, A>, id: Id, failed: bool, abort: Option<string>, now: int, keep: nat)
    requires id in c.runs && c.pending.None?
    ensures var d := Onward(c, Judging(c, id, failed, abort, now), keep);
      && d.pending.None? && d.runs.Keys == c.runs.Keys && d.order == c.order && d.active == c.active
      && Later(c.runs[id], d.runs[id]) && (Live(c.runs[id]) ==> Live(d.runs[id]))
      && d.runs[id].participants == c.runs[id].participants
      && (abort.Some? && Live(c.runs[id]) ==> d.runs[id].stoppingAt.Some?)
      && forall other :: other in c.runs && other != id ==> d.runs[other] == c.runs[other]
  {
    JudgingIs(c, id, failed, abort, now, keep);
  }

  lemma TickIs<Id, A>(c: Coord<Id, A>, id: Id, failed: bool, abort: Option<string>, done: string, stopped: string,
                      now: int, keep: nat)
    requires id in c.runs && Live(c.runs[id])
    ensures var judged := Onward(c, Judging(c, id, failed, abort, now), keep);
      var checked := Onward(judged, Concluded(judged, CheckDone(id), failed, done, now, keep), keep);
      Onward(c, TickOf(c, id, failed, abort, done, stopped, now, keep), keep)
      == Onward(checked, Concluded(checked, CheckStop(id, now), failed, stopped, now, keep), keep)
  {
    var judging := Judging(c, id, failed, abort, now);
    var judged := Onward(c, judging, keep);
    var checking := Concluded(judged, CheckDone(id), failed, done, now, keep);
    var checked := Onward(judged, checking, keep);
    OnwardFrom(c, judging, checking, keep);
    OnwardFrom(c, judging + checking, Concluded(checked, CheckStop(id, now), failed, stopped, now, keep), keep);
  }

  /**
   What a tick achieves: it takes nothing back and touches no other run; a run whose participants are done, or whose
   stop is overdue, is over afterwards; an abort leaves a run that is still going asked to stop.
   */
  lemma TickSettles<Id, A>(c: Coord<Id, A>, id: Id, failed: bool, abort: Option<string>, done: string, stopped: string,
                           now: int, keep: nat)
    requires id in c.runs && c.pending.None?
    ensures var d := Onward(c, TickOf(c, id, failed, abort, done, stopped, now, keep), keep);
      && d.pending.None? && d.runs.Keys == c.runs.Keys && d.order == c.order && d.active == c.active
      && Later(c.runs[id], d.runs[id])
      && (Outcome(c.runs[id].participants).Some? ==> !Live(d.runs[id]))
      && (TimesOut(c.runs[id], now) ==> !Live(d.runs[id]))
      && (abort.Some? && Live(d.runs[id]) ==> d.runs[id].stoppingAt.Some?)
      && forall other :: other in c.runs && other != id ==> d.runs[other] == c.runs[other]
  {
    JudgingKeeps(c, id, failed, abort, now, keep);
    if Live(c.runs[id]) {
      var judged := Onward(c, Judging(c, id, failed, abort, now), keep);
      TickIs(c, id, failed, abort, done, stopped, now, keep);
      ConcludedEnds(judged, CheckDone(id), failed, done, now, keep);
      var checked := Onward(judged, Concluded(judged, CheckDone(id), failed, done, now, keep), keep);
      ConcludedEnds(checked, CheckStop(id, now), failed, stopped, now, keep);
      LaterTransitive(c.runs[id], judged.runs[id], checked.runs[id]);
      if TimesOut(c.runs[id], now) {
        TimesOutStays(c.runs[id], checked.runs[id], now, now);
      }
    }
  }
}
