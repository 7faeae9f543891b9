/**
 Run lifecycle and run history as a machine of lock sections.

 Handlers, the ticker and operators interleave at every lock, so a step here is one locked
 section: on the coordinator's tables, or on one run. Any section may follow any other.
 Only the ticker ends runs, in two sections: it looks at a run, and acts on what it saw
 later. Times are nanoseconds.
 */
module Lifecycle {

  import opened Options

  datatype Phase = Unspecified | Pending | Starting | Running | Stopping | Completed | Failed | Aborted

  predicate IsTerminal(p: Phase) {
    p.Completed? || p.Failed? || p.Aborted?
  }

  const SECOND: int := 1_000_000_000
  const DEFAULT_GRACE: int := 30 * SECOND
  const STOP_TIMEOUT_MARGIN: int := 20 * SECOND

  datatype Participant = Participant(vuQuota: int, phase: Phase, dispatched: bool)

  /** `grace` is what the plan asks for; `ramp` applies to the next dispatch only. */
  datatype RunState<!A> = RunState(phase: Phase, startedAt: Option<int>, stoppingAt: Option<int>, endedAt: Option<int>,
                                  stopWhy: string, failure: string, peak: int, ramp: int, grace: int,
                                  participants: map<A, Participant>, breached: bool)

  function NewRun<A>(peak: int, grace: int): (r: RunState<A>) {
    RunState(Pending, None, None, None, "", "", peak, 0, grace, map[], false)
  }

  predicate Live<A>(r: RunState<A>) {
    !IsTerminal(r.phase)
  }

  /** Moves a run on, unless it is over: a terminal phase is reached once. */
  function PhaseSet<A>(r: RunState<A>, phase: Phase, reason: string, now: int): (s: RunState<A>) {
    if IsTerminal(r.phase) then r
    else if phase.Running? && r.startedAt.None? then r.(phase := phase, startedAt := Some(now))
    else if phase.Stopping? && r.stoppingAt.None? then r.(phase := phase, stoppingAt := Some(now))
    else if IsTerminal(phase) then
      r.(phase := phase, endedAt := Some(now), stopWhy := reason,
         failure := if phase.Failed? then reason else r.failure)
    else r.(phase := phase)
  }

  function Reported<A>(r: RunState<A>, agent: A, phase: Phase): (s: RunState<A>) {
    var p := if agent in r.participants then r.participants[agent] else Participant(0, Pending, false);
    r.(participants := r.participants[agent := p.(phase := phase)])
  }

  function Judged<A>(r: RunState<A>, failed: bool): (s: RunState<A>) {
    r.(breached := r.breached || failed)
  }

  function GraceBudget<A>(r: RunState<A>): (g: int) {
    if r.grace > 0 then r.grace else DEFAULT_GRACE
  }

  /** How long the run has been trying to stop; zero if it has not been asked to. */
  function StoppingFor<A>(r: RunState<A>, now: int): (d: int) {
    match r.stoppingAt
    case None => 0
    case Some(t) => now - t
  }

  predicate TimesOut<A>(r: RunState<A>, now: int) {
    StoppingFor(r, now) != 0 && StoppingFor(r, now) >= GraceBudget(r) + STOP_TIMEOUT_MARGIN
  }

  ghost predicate Done(p: Participant) {
    p.phase.Completed? || p.phase.Failed?
  }

  ghost predicate AllDone<A>(parts: map<A, Participant>) {
    forall a :: a in parts ==> Done(parts[a])
  }

  ghost predicate AllFail<A>(parts: map<A, Participant>) {
    forall a :: a in parts ==> parts[a].phase.Failed?
  }

  /** How a run ends whose participants are these: not yet, failed if all of them are, completed otherwise. */
  ghost function Outcome<A>(parts: map<A, Participant>): (r: Option<Phase>) {
    if parts == map[] || !AllDone(parts) then None
    else if AllFail(parts) then Some(Failed)
    else Some(Completed)
  }

  // ---------------------------------------------------------------------------
  // The machine
  // ---------------------------------------------------------------------------

  /** The ticker has looked at a run and is about to end it in this phase. */
  datatype Ending<Id> = Ending(id: Id, phase: Phase)

  datatype Coord<Id, !A> = Coord(runs: map<Id, RunState<A>>, order: seq<Id>, active: Option<Id>,
                                 pending: Option<Ending<Id>>)

  /** Handlers set phases in progress; terminal phases are set by finishing what a check decided. */
  datatype Step<Id, !A> =
    | Begin(id: Id, peak: int, grace: int)
    | SetPhase(id: Id, phase: Phase, reason: string, now: int)
    | Report(id: Id, agent: A, status: Phase)
    | Roster(id: Id, participants: map<A, Participant>)
    | Judge(id: Id, failed: bool)
    | Scale(id: Id, peak: int, ramp: int)
    | TakeRamp(id: Id)
    | CheckDone(id: Id)
    | CheckStop(id: Id, now: int)
    | Finish(reason: string, now: int)

  /** Drops the oldest runs beyond the history, but never a live one. */
  function Trimmed<Id, A>(c: Coord<Id, A>, keep: nat): (r: Coord<Id, A>)
    decreases |c.order|
  {
    if |c.order| <= keep then c
    else
      var oldest := c.order[0];
      if oldest in c.runs && Live(c.runs[oldest]) then c
      else Trimmed(c.(runs := c.runs - {oldest}, order := c.order[1..]), keep)
  }

  predicate Busy<Id, A>(c: Coord<Id, A>) {
    c.active.Some? && c.active.value in c.runs && Live(c.runs[c.active.value])
  }

  /** A new run, unless one is in progress. */
  function Begun<Id, A>(c: Coord<Id, A>, id: Id, peak: int, grace: int, keep: nat): (r: Coord<Id, A>) {
    if Busy(c) then c else Trimmed(Appended(c, id, NewRun(peak, grace)), keep)
  }

  function Appended<Id, A>(c: Coord<Id, A>, id: Id, run: RunState<A>): (r: Coord<Id, A>) {
    c.(runs := c.runs[id := run], order := c.order + [id], active := Some(id))
  }

  /** What the ticker has decided after a look at a run; while it is about to end one it does not look at another. */
  ghost function Looked<Id, A>(c: Coord<Id, A>, e: Step<Id, A>): (r: Option<Ending<Id>>)
    requires e.CheckDone? || e.CheckStop?
  {
    if c.pending.Some? || e.id !in c.runs then c.pending
    else
      match e
      case CheckDone(id) =>
        var end := Outcome(c.runs[id].participants);
        if end.None? then None else Some(Ending(id, end.value))
      case CheckStop(id, now) => if TimesOut(c.runs[id], now) then Some(Ending(id, Aborted)) else None
  }

  /** The run a step changes, if any. */
  ghost function Touched<Id, A>(c: Coord<Id, A>, e: Step<Id, A>): (r: Option<Id>)
    requires !e.Begin?
  {
    if e.CheckDone? || e.CheckStop? then None
    else if !e.Finish? then Some(e.id)
    else if c.pending.Some? then Some(c.pending.value.id)
    else None
  }

  ghost function RunNext<Id, A>(c: Coord<Id, A>, r: RunState<A>, e: Step<Id, A>): (s: RunState<A>)
    requires !e.Begin? && Touched(c, e).Some?
  {
    match e
    case SetPhase(_, phase, reason, now) => if IsTerminal(phase) then r else PhaseSet(r, phase, reason, now)
    case Report(_, agent, phase) => Reported(r, agent, phase)
    case Roster(_, participants) => r.(participants := participants)
    case Judge(_, failed) => Judged(r, failed)
    case Scale(_, peak, ramp) => r.(peak := peak, ramp := ramp)
    case TakeRamp(_) => r.(ramp := 0)
    case Finish(reason, now) => PhaseSet(r, c.pending.value.phase, reason, now)
  }

  ghost function PendingNext<Id, A>(c: Coord<Id, A>, e: Step<Id, A>): (r: Option<Ending<Id>>) {
    if e.CheckDone? || e.CheckStop? then Looked(c, e) else if e.Finish? then None else c.pending
  }

  ghost function Next<Id, A>(c: Coord<Id, A>, e: Step<Id, A>, keep: nat): (r: Coord<Id, A>) {
    if e.Begin? then Begun(c, e.id, e.peak, e.grace, keep)
    else
      var id, pending := Touched(c, e), PendingNext(c, e);
      if id.Some? && id.value in c.runs then
        c.(runs := c.runs[id.value := RunNext(c, c.runs[id.value], e)], pending := pending)
      else c.(pending := pending)
  }

  ghost function Onward<Id, A>(c: Coord<Id, A>, steps: seq<Step<Id, A>>, keep: nat): (r: Coord<Id, A>) {
    if steps == [] then c
    else Next(Onward(c, steps[..|steps| - 1], keep), steps[|steps| - 1], keep)
  }

  /** A run of the coordinator from the beginning. */
  ghost function Run<Id, A>(steps: seq<Step<Id, A>>, keep: nat): (r: Coord<Id, A>) {
    Onward(Coord(map[], [], None, None), steps, keep)
  }

  lemma OneMore<Id, A>(c: Coord<Id, A>, steps: seq<Step<Id, A>>, e: Step<Id, A>, keep: nat)
    ensures Onward(c, steps + [e], keep) == Next(Onward(c, steps, keep), e, keep)
  {
    assert (steps + [e])[..|steps|] == steps;
  }

  /** Every run begun has an id of its own, as random ids have with near certainty. */
  ghost predicate FreshIds<Id, A>(steps: seq<Step<Id, A>>, keep: nat) {
    steps != [] ==>
      var rest, e := steps[..|steps| - 1], steps[|steps| - 1];
      FreshIds(rest, keep) && (e.Begin? ==> e.id !in Run(rest, keep).runs)
  }

  // ---------------------------------------------------------------------------
  // What every run keeps
  // ---------------------------------------------------------------------------

  ghost predicate Over<Id, A>(c: Coord<Id, A>, i: nat)
    requires i < |c.order|
  {
    c.order[i] in c.runs && !Live(c.runs[c.order[i]])
  }

  ghost predicate Differ<Id>(order: seq<Id>, i: nat, j: nat)
    requires i < |order| && j < |order|
  {
    order[i] != order[j]
  }

  /** The order lists the runs, each once; every run but the last one begun is over. */
  ghost predicate Kept<Id, A>(c: Coord<Id, A>) {
    && (forall id :: id in c.runs ==> id in c.order)
    && (forall i :: 0 <= i < |c.order| ==> c.order[i] in c.runs)
    && (forall i, j :: 0 <= i < j < |c.order| ==> Differ(c.order, i, j))
    && (forall i :: 0 <= i < |c.order| - 1 ==> Over(c, i))
    && c.active == if c.order == [] then None else Some(c.order[|c.order| - 1])
  }

  lemma {:induction false} DropOldest<Id, A>(c: Coord<Id, A>)
    requires Kept(c) && |c.order| > 1
    ensures Kept(c.(runs := c.runs - {c.order[0]}, order := c.order[1..]))
    ensures Over(c, 0)
  {
    var r := c.(runs := c.runs - {c.order[0]}, order := c.order[1..]);
    assert c.order == [c.order[0]] + r.order;
    forall i | 0 < i < |c.order|
      ensures c.order[i] != c.order[0]
    {
      assert Differ(c.order, 0, i);
    }
    forall i, j | 0 <= i < j < |r.order|
      ensures Differ(r.order, i, j)
    {
      assert Differ(c.order, i + 1, j + 1);
    }
    forall i | 0 <= i < |r.order| - 1
      ensures Over(r, i)
    {
      assert Over(c, i + 1);
    }
  }

  function LastOf<T>(s: seq<T>, n: nat): (r: seq<T>) {
    if |s| <= n then s else s[|s| - n..]
  }

  lemma LastOfTail<T>(s: seq<T>, n: nat)
    requires |s| > n
    ensures LastOf(s[1..], n) == LastOf(s, n)
  {
  }

  /** Trimming keeps the last `keep` runs: the live one is among them, so it never stops early. */
  lemma {:induction false} TrimmedKeeps<Id, A>(c: Coord<Id, A>, keep: nat)
    requires Kept(c) && keep >= 1
    ensures var r := Trimmed(c, keep);
      && Kept(r) && |r.order| <= keep && r.active == c.active
      && r.order == LastOf(c.order, keep)
    decreases |c.order|
  {
    if |c.order| > keep {
      var d := c.(runs := c.runs - {c.order[0]}, order := c.order[1..]);
      DropOldest(c);
      TrimmedKeeps(d, keep);
      LastOfTail(c.order, keep);
    }
  }

  lemma AppendKept<Id, A>(c: Coord<Id, A>, id: Id, run: RunState<A>)
    requires Kept(c) && !Busy(c) && id !in c.runs
    ensures Kept(Appended(c, id, run))
  {
    var r := Appended(c, id, run);
    forall i, j | 0 <= i < j < |r.order|
      ensures Differ(r.order, i, j)
    {
      assert j < |c.order| ==> Differ(c.order, i, j);
      assert c.order[i] in c.runs;
    }
    forall i | 0 <= i < |r.order| - 1
      ensures Over(r, i)
    {
      assert i < |c.order| - 1 ==> Over(c, i);
      assert c.order[i] in c.order && c.order[i] in c.runs;
    }
  }

  /** A step on one run keeps the tables, because a run that is over stays over. */
  lemma {:induction false} StepKept<Id, A>(c: Coord<Id, A>, e: Step<Id, A>, keep: nat)
    requires Kept(c) && !e.Begin?
    ensures Kept(Next(c, e, keep)) && Next(c, e, keep).order == c.order
  {
    var r := Next(c, e, keep);
    forall i | 0 <= i < |r.order| - 1
      ensures Over(r, i)
    {
      assert Over(c, i);
    }
    forall i, j | 0 <= i < j < |r.order|
      ensures Differ(r.order, i, j)
    {
      assert Differ(c.order, i, j);
    }
  }

  /**
   Over every interleaving: the order and the table hold the same runs, at most `keep` of them; every
   run but the last one begun is over, and the last one is the active one. So at most one run is live.
   */
  lemma {:induction false} RunKept<Id, A>(steps: seq<Step<Id, A>>, keep: nat)
    requires keep >= 1 && FreshIds(steps, keep)
    ensures Kept(Run(steps, keep)) && |Run(steps, keep).order| <= keep
  {
    if steps != [] {
      var rest, e := steps[..|steps| - 1], steps[|steps| - 1];
      RunKept(rest, keep);
      var c := Run(rest, keep);
      if !e.Begin? {
        StepKept(c, e, keep);
      } else if !Busy(c) {
        AppendKept(c, e.id, NewRun(e.peak, e.grace));
        TrimmedKeeps(Appended(c, e.id, NewRun(e.peak, e.grace)), keep);
      }
    }
  }

  /** At most one run is live; it is the active one and was begun last. */
  lemma OneLive<Id, A>(steps: seq<Step<Id, A>>, keep: nat, id: Id)
    requires keep >= 1 && FreshIds(steps, keep)
    requires id in Run(steps, keep).runs && Live(Run(steps, keep).runs[id])
    ensures var c := Run(steps, keep); c.order != [] && c.order[|c.order| - 1] == id && c.active == Some(id)
  {
    RunKept(steps, keep);
    var c := Run(steps, keep);
    assert id in c.order;
    var i :| 0 <= i < |c.order| && c.order[i] == id;
    assert i < |c.order| - 1 ==> Over(c, i);
  }

  /** A live run is never lost to the history, whatever happens next. */
  lemma NeverLost<Id, A>(steps: seq<Step<Id, A>>, keep: nat, id: Id, e: Step<Id, A>)
    requires keep >= 1 && FreshIds(steps + [e], keep)
    requires id in Run(steps, keep).runs && Live(Run(steps, keep).runs[id])
    ensures id in Run(steps + [e], keep).runs
  {
    assert (steps + [e])[..|steps|] == steps;
    OneLive(steps, keep, id);
  }

  // ---------------------------------------------------------------------------
  // What happens to one run
  // ---------------------------------------------------------------------------

  /** What a run that is over keeps for good. */
  ghost predicate SameEnd<A>(r: RunState<A>, s: RunState<A>) {
    r.phase == s.phase && r.endedAt == s.endedAt && r.stopWhy == s.stopWhy && r.failure == s.failure
  }

  /** What later steps may still do to a run. */
  ghost predicate Later<A>(r: RunState<A>, s: RunState<A>) {
    && (!Live(r) ==> SameEnd(r, s))
    && (r.breached ==> s.breached)
    && (r.stoppingAt.Some? ==> s.stoppingAt == r.stoppingAt)
    && (r.startedAt.Some? ==> s.startedAt == r.startedAt)
    && s.grace == r.grace
    && (s.endedAt.Some? && r.endedAt.None? ==> !Live(s))
  }

  ghost predicate NoneBegins<Id, A>(steps: seq<Step<Id, A>>, id: Id) {
    forall i :: 0 <= i < |steps| ==> !(steps[i].Begin? && steps[i].id == id)
  }

  lemma {:induction false} TrimmedOnlyDrops<Id, A>(c: Coord<Id, A>, keep: nat, id: Id)
    ensures id in Trimmed(c, keep).runs ==> id in c.runs && Trimmed(c, keep).runs[id] == c.runs[id]
    ensures Trimmed(c, keep).pending == c.pending
    decreases |c.order|
  {
    if |c.order| > keep && !(c.order[0] in c.runs && Live(c.runs[c.order[0]])) {
      TrimmedOnlyDrops(c.(runs := c.runs - {c.order[0]}, order := c.order[1..]), keep, id);
    }
  }

  ghost predicate Begins<Id, A>(c: Coord<Id, A>, e: Step<Id, A>, id: Id) {
    e.Begin? && e.id == id && !Busy(c)
  }

  ghost function RunAfter<Id, A>(c: Coord<Id, A>, e: Step<Id, A>, id: Id): (s: RunState<A>)
    requires id in c.runs
  {
    if !e.Begin? && Touched(c, e) == Some(id) then RunNext(c, c.runs[id], e) else c.runs[id]
  }

  /** A step that does not begin a run finds it as it was, or changes it by its own rule. */
  lemma StepOn<Id, A>(c: Coord<Id, A>, e: Step<Id, A>, keep: nat, id: Id)
    requires id in Next(c, e, keep).runs
    ensures Begins(c, e, id) ==> Next(c, e, keep).runs[id] == NewRun(e.peak, e.grace)
    ensures !Begins(c, e, id) ==> id in c.runs
    ensures !Begins(c, e, id) ==> Next(c, e, keep).runs[id] == RunAfter(c, e, id)
    ensures Next(c, e, keep).pending == PendingNext(c, e)
  {
    if e.Begin? && !Busy(c) {
      TrimmedOnlyDrops(Appended(c, e.id, NewRun(e.peak, e.grace)), keep, id);
    }
  }

  lemma LaterStep<Id, A>(c: Coord<Id, A>, e: Step<Id, A>, keep: nat, id: Id)
    requires !(e.Begin? && e.id == id) && id in Next(c, e, keep).runs
    ensures id in c.runs && Later(c.runs[id], Next(c, e, keep).runs[id])
  {
    StepOn(c, e, keep, id);
  }

  lemma {:induction false} LaterTransitive<A>(r: RunState<A>, s: RunState<A>, t: RunState<A>)
    requires Later(r, s) && Later(s, t)
    ensures Later(r, t)
  {
  }

  /** Going on from where a run of the coordinator stopped is a longer run of it. */
  lemma {:induction false} OnwardFrom<Id, A>(c: Coord<Id, A>, steps: seq<Step<Id, A>>, more: seq<Step<Id, A>>,
                                             keep: nat)
    ensures Onward(c, steps + more, keep) == Onward(Onward(c, steps, keep), more, keep)
  {
    if more == [] {
      assert steps + more == steps;
    } else {
      OnwardFrom(c, steps, more[..|more| - 1], keep);
      assert (steps + more)[..|steps + more| - 1] == steps + more[..|more| - 1];
    }
  }

  /**
   Whatever follows, as long as the run is remembered: once it is over its phase, end and reasons stand;
   a breach is never taken back; the times it started and was first asked to stop stand.
   */
  lemma {:induction false} RunLater<Id, A>(c: Coord<Id, A>, more: seq<Step<Id, A>>, keep: nat, id: Id)
    requires NoneBegins(more, id) && id in Onward(c, more, keep).runs
    ensures id in c.runs && Later(c.runs[id], Onward(c, more, keep).runs[id])
  {
    if more != [] {
      var n := |more| - 1;
      var mid := Onward(c, more[..n], keep);
      LaterStep(mid, more[n], keep, id);
      RunLater(c, more[..n], keep, id);
      LaterTransitive(c.runs[id], mid.runs[id], Onward(c, more, keep).runs[id]);
    }
  }

  // ---------------------------------------------------------------------------
  // How runs end
  // ---------------------------------------------------------------------------

  /** A run that is still going has no end, no reason and no failure noted. */
  lemma {:induction false} LiveHasNoEnd<Id, A>(steps: seq<Step<Id, A>>, keep: nat, id: Id)
    requires id in Run(steps, keep).runs && Live(Run(steps, keep).runs[id])
    ensures var r := Run(steps, keep).runs[id]; r.endedAt.None? && r.stopWhy == "" && r.failure == ""
  {
    var rest, e := steps[..|steps| - 1], steps[|steps| - 1];
    StepOn(Run(rest, keep), e, keep, id);
    if !Begins(Run(rest, keep), e, id) {
      LiveHasNoEnd(rest, keep, id);
    }
  }

  /** This step looked at the run and saw what `end` says. */
  ghost predicate Decided<Id, A>(c: Coord<Id, A>, e: Step<Id, A>, end: Ending<Id>) {
    && end.id in c.runs
    && match e
       case CheckDone(id) => id == end.id && Outcome(c.runs[id].participants) == Some(end.phase)
       case CheckStop(id, now) => id == end.id && end.phase == Aborted && TimesOut(c.runs[id], now)
       case _ => false
  }

  /** What the ticker is about to do was decided by a check. */
  lemma {:induction false} PendingWasDecided<Id, A>(steps: seq<Step<Id, A>>, keep: nat) returns (j: nat)
    requires Run(steps, keep).pending.Some?
    ensures j < |steps| && Decided(Run(steps[..j], keep), steps[j], Run(steps, keep).pending.value)
  {
    var rest, e := steps[..|steps| - 1], steps[|steps| - 1];
    var c := Run(rest, keep);
    if e.Begin? && !Busy(c) {
      TrimmedOnlyDrops(Appended(c, e.id, NewRun(e.peak, e.grace)), keep, e.id);
    }
    j := |steps| - 1;
    if c.pending.Some? {
      j := PendingWasDecided(rest, keep);
      assert rest[..j] == steps[..j];
    }
  }

  /** This step ended the run the way it is recorded. */
  ghost predicate Ends<Id, A>(c: Coord<Id, A>, e: Step<Id, A>, r: RunState<A>, id: Id) {
    && e.Finish? && c.pending == Some(Ending(id, r.phase))
    && r.endedAt == Some(e.now) && r.stopWhy == e.reason && r.failure == if r.phase.Failed? then e.reason else ""
  }

  /** A step that finds a run live and leaves it over ended it; a run that was over keeps its end. */
  lemma StepEnds<Id, A>(c: Coord<Id, A>, e: Step<Id, A>, keep: nat, id: Id)
    requires id in Next(c, e, keep).runs && !Live(Next(c, e, keep).runs[id])
    ensures id in c.runs
    ensures !Live(c.runs[id]) ==> SameEnd(c.runs[id], Next(c, e, keep).runs[id])
    ensures var r := c.runs[id];
      Live(r) && r.failure == "" ==> c.pending.Some? && Ends(c, e, Next(c, e, keep).runs[id], id)
  {
    StepOn(c, e, keep, id);
  }

  /**
   Why a run is over: one step ended it, and its phase, end, reason and failure are those of that step; and that
   step carried out what an earlier look at the run had seen, all participants done or the stop overdue.
   */
  lemma {:induction false} EndedByOneStep<Id, A>(steps: seq<Step<Id, A>>, keep: nat, id: Id) returns (j: nat, k: nat)
    requires id in Run(steps, keep).runs && !Live(Run(steps, keep).runs[id])
    ensures var r := Run(steps, keep).runs[id];
      && j < k < |steps| && Ends(Run(steps[..k], keep), steps[k], r, id)
      && Decided(Run(steps[..j], keep), steps[j], Ending(id, r.phase))
  {
    var rest, e := steps[..|steps| - 1], steps[|steps| - 1];
    var c := Run(rest, keep);
    StepEnds(c, e, keep, id);
    if Live(c.runs[id]) {
      LiveHasNoEnd(rest, keep, id);
      k := |steps| - 1;
      j := PendingWasDecided(rest, keep);
      assert rest[..j] == steps[..j];
    } else {
      j, k := EndedByOneStep(rest, keep, id);
      assert rest[..j] == steps[..j] && rest[..k] == steps[..k];
    }
  }

  // ---------------------------------------------------------------------------
  // The stop timeout
  // ---------------------------------------------------------------------------

  /** From the first stop on, a run is either over or has the time of that stop noted. */
  lemma StopIsNoted<Id, A>(c: Coord<Id, A>, keep: nat, id: Id, reason: string, t: int)
    requires id in c.runs
    ensures var d, r := Next(c, SetPhase(id, Stopping, reason, t), keep), c.runs[id];
      && id in d.runs && d.runs[id].grace == r.grace
      && (Live(r) ==> d.runs[id].stoppingAt == if r.stoppingAt.Some? then r.stoppingAt else Some(t))
  {
  }

  /** Until the ticker acts it means to do what it decided, or the run is over already. */
  lemma {:induction false} PendingStands<Id, A>(c: Coord<Id, A>, more: seq<Step<Id, A>>, keep: nat, end: Ending<Id>)
    requires c.pending == Some(end) && IsTerminal(end.phase) && NoneBegins(more, end.id)
    requires end.id in Onward(c, more, keep).runs
    ensures Onward(c, more, keep).pending == Some(end) || !Live(Onward(c, more, keep).runs[end.id])
  {
    if more != [] {
      var n := |more| - 1;
      var mid := Onward(c, more[..n], keep);
      StepOn(mid, more[n], keep, end.id);
      PendingStands(c, more[..n], keep, end);
      LaterStep(mid, more[n], keep, end.id);
    }
  }

  /** Once the ticker has acted on what it decided the run is over, whatever came between. */
  lemma DecidedEnds<Id, A>(c: Coord<Id, A>, between: seq<Step<Id, A>>, why: string, at: int, keep: nat, end: Ending<Id>)
    requires c.pending == Some(end) && IsTerminal(end.phase) && NoneBegins(between, end.id)
    requires end.id in Onward(c, between + [Finish(why, at)], keep).runs
    ensures !Live(Onward(c, between + [Finish(why, at)], keep).runs[end.id])
  {
    OneMore(c, between, Finish(why, at), keep);
    var mid := Onward(c, between, keep);
    StepOn(mid, Finish(why, at), keep, end.id);
    PendingStands(c, between, keep, end);
  }

  /** A check on time decides to abort, if the ticker is not about to end a run anyway. */
  lemma CheckDecides<Id, A>(c: Coord<Id, A>, keep: nat, id: Id, t: int, now: int)
    requires id in c.runs && c.pending.None? && c.runs[id].stoppingAt == Some(t)
    requires now - t >= GraceBudget(c.runs[id]) + STOP_TIMEOUT_MARGIN
    ensures Next(c, CheckStop(id, now), keep) == c.(pending := Some(Ending(id, Aborted)))
  {
  }

  /** A run overdue when it is looked at is over once the ticker has acted. */
  lemma OverdueEnds<Id, A>(c: Coord<Id, A>, id: Id, t: int, now: int, between: seq<Step<Id, A>>, why: string, at: int,
                           keep: nat)
    requires id in c.runs && c.pending.None? && c.runs[id].stoppingAt == Some(t)
    requires now - t >= GraceBudget(c.runs[id]) + STOP_TIMEOUT_MARGIN && NoneBegins(between, id)
    ensures var acted := Next(Onward(Next(c, CheckStop(id, now), keep), between, keep), Finish(why, at), keep);
      id in acted.runs ==> !Live(acted.runs[id])
  {
    var decided := Next(c, CheckStop(id, now), keep);
    CheckDecides(c, keep, id, t, now);
    OneMore(decided, between, Finish(why, at), keep);
    if id in Onward(decided, between + [Finish(why, at)], keep).runs {
      DecidedEnds(decided, between, why, at, keep, Ending(id, Aborted));
    }
  }

  /** A run that is over stays over, as long as it is remembered. */
  lemma OverStays<Id, A>(c: Coord<Id, A>, more: seq<Step<Id, A>>, keep: nat, id: Id)
    requires NoneBegins(more, id) && (id in c.runs ==> !Live(c.runs[id]))
    ensures id in Onward(c, more, keep).runs ==> !Live(Onward(c, more, keep).runs[id])
  {
    if id in Onward(c, more, keep).runs {
      RunLater(c, more, keep, id);
    }
  }

  lemma KnownBefore<Id, A>(c: Coord<Id, A>, first: Step<Id, A>, between: seq<Step<Id, A>>, last: Step<Id, A>,
                           keep: nat, id: Id)
    requires id in Next(Onward(Next(c, first, keep), between, keep), last, keep).runs
    requires NoneBegins(between, id) && !first.Begin? && !last.Begin?
    ensures id in c.runs
  {
    LaterStep(Onward(Next(c, first, keep), between, keep), last, keep, id);
    RunLater(Next(c, first, keep), between, keep, id);
    LaterStep(c, first, keep, id);
  }

  /**
   The stop timeout. If a live run is first asked to stop at `t` and a check looks at it at least its grace and the
   margin later, then once the ticker has acted on that check the run is over for good, whatever happened before the
   check, between the check and the act, and after.
   */
  lemma StopTimesOut<Id, A>(c: Coord<Id, A>, id: Id, reason: string, t: int, before: seq<Step<Id, A>>, now: int,
                            between: seq<Step<Id, A>>, why: string, at: int, after: seq<Step<Id, A>>, keep: nat)
    requires id in c.runs && Live(c.runs[id]) && c.runs[id].stoppingAt.None?
    requires NoneBegins(before, id) && NoneBegins(between, id) && NoneBegins(after, id)
    requires Onward(Next(c, SetPhase(id, Stopping, reason, t), keep), before, keep).pending.None?
    requires now - t >= GraceBudget(c.runs[id]) + STOP_TIMEOUT_MARGIN
    ensures var asked := Next(c, SetPhase(id, Stopping, reason, t), keep);
      var looked := Next(Onward(asked, before, keep), CheckStop(id, now), keep);
      var acted := Next(Onward(looked, between, keep), Finish(why, at), keep);
      var end := Onward(acted, after, keep);
      id in end.runs ==> !Live(end.runs[id])
  {
    var asked := Next(c, SetPhase(id, Stopping, reason, t), keep);
    var waited := Onward(asked, before, keep);
    var acted := Next(Onward(Next(waited, CheckStop(id, now), keep), between, keep), Finish(why, at), keep);
    StopIsNoted(c, keep, id, reason, t);
    if id in acted.runs {
      KnownBefore(waited, CheckStop(id, now), between, Finish(why, at), keep, id);
      RunLater(asked, before, keep, id);
      OverdueEnds(waited, id, t, now, between, why, at, keep);
    }
    OverStays(acted, after, keep, id);
  }

  /**
   And no run is aborted before its time: it had been asked to stop, and was past its grace and the margin when looked
   at.
   */
  lemma AbortedOnlyIfOverdue<Id, A>(steps: seq<Step<Id, A>>, keep: nat, id: Id) returns (j: nat)
    requires id in Run(steps, keep).runs && Run(steps, keep).runs[id].phase.Aborted?
    ensures j < |steps| && steps[j].CheckStop? && steps[j].id == id && id in Run(steps[..j], keep).runs
    ensures var r := Run(steps[..j], keep).runs[id];
      r.stoppingAt.Some? && steps[j].now - r.stoppingAt.value >= GraceBudget(r) + STOP_TIMEOUT_MARGIN
  {
    var k;
    j, k := EndedByOneStep(steps, keep, id);
  }

  /** The check decides the same however late it is made, and whatever happened to the run since. */
  lemma TimesOutStays<A>(r: RunState<A>, s: RunState<A>, now: int, later: int)
    requires TimesOut(r, now) && Later(r, s) && now <= later
    ensures TimesOut(s, later)
  {
  }

  // ---------------------------------------------------------------------------
  // Completion
  // ---------------------------------------------------------------------------

  datatype Verdict = Unfinished | AllFailed | Finished(failures: nat)

  /** What completion checking makes of the participants. */
  ghost predicate Decides<A>(parts: map<A, Participant>, v: Verdict) {
    && (v.Unfinished? <==> Outcome(parts).None?)
    && (v.AllFailed? <==> Outcome(parts) == Some(Failed))
    && (v.Finished? ==> v.failures == |set a | a in parts && parts[a].phase.Failed?|)
  }
}
