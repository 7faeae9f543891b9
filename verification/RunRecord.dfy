/**
 What a run has on record, told from what happened to it: the phase it shows, the times it started and was first
 asked to stop, its peak and ramp, whether a threshold was breached, its roster, and the grace it was begun with.

 All of it holds after any steps at all, of this run and of others.
 */
module RunRecord {

  import opened Lifecycle
  import opened Options

  // ---------------------------------------------------------------------------
  // Fields, from the steps
  // ---------------------------------------------------------------------------

  /** The step puts the run into this phase in progress. */
  ghost predicate Sets<Id, A>(e: Step<Id, A>, id: Id, phase: Phase) {
    e.SetPhase? && e.id == id && e.phase == phase && !IsTerminal(phase)
  }

  /** The latest phase in progress the run was put into, if any. */
  ghost function LatestPhase<Id, A>(steps: seq<Step<Id, A>>, id: Id): (r: Option<Phase>) {
    if steps == [] then None
    else
      var e := steps[|steps| - 1];
      if e.SetPhase? && Sets(e, id, e.phase) then Some(e.phase) else LatestPhase(steps[..|steps| - 1], id)
  }

  /** When the run was first put into a phase in progress. */
  ghost function FirstTime<Id, A>(steps: seq<Step<Id, A>>, id: Id, phase: Phase): (r: Option<int>) {
    if steps == [] then None
    else
      var before, e := FirstTime(steps[..|steps| - 1], id, phase), steps[|steps| - 1];
      if before.Some? then before else if Sets(e, id, phase) then Some(e.now) else None
  }

  ghost function LatestPeak<Id, A>(steps: seq<Step<Id, A>>, id: Id): (r: Option<int>) {
    if steps == [] then None
    else
      var e := steps[|steps| - 1];
      if e.Scale? && e.id == id then Some(e.peak) else LatestPeak(steps[..|steps| - 1], id)
  }

  /** The ramp that waits for a dispatch: that of the latest scaling, until a dispatch takes it. */
  ghost function WaitingRamp<Id, A>(steps: seq<Step<Id, A>>, id: Id): (r: Option<int>) {
    if steps == [] then None
    else
      var e := steps[|steps| - 1];
      if e.Scale? && e.id == id then Some(e.ramp)
      else if e.TakeRamp? && e.id == id then Some(0)
      else WaitingRamp(steps[..|steps| - 1], id)
  }

  ghost predicate Breaches<Id, A>(steps: seq<Step<Id, A>>, id: Id) {
    exists i :: 0 <= i < |steps| && BreachAt(steps[i], id)
  }

  ghost predicate BreachAt<Id, A>(e: Step<Id, A>, id: Id) {
    e.Judge? && e.id == id && e.failed
  }

  function Or<T>(a: Option<T>, b: T): (r: T) {
    if a.Some? then a.value else b
  }

  function First<T>(a: Option<T>, b: Option<T>): (r: Option<T>) {
    if a.Some? then a else b
  }

  /** What a run that was `r` before these steps shows of its progress. */
  ghost predicate Progress<Id, A>(r: RunState<A>, steps: seq<Step<Id, A>>, id: Id, s: RunState<A>) {
    && (Live(s) ==> s.phase == Or(LatestPhase(steps, id), r.phase))
    && (Live(s) || s.startedAt.Some? ==> s.startedAt == First(r.startedAt, FirstTime(steps, id, Running)))
    && (Live(s) || s.stoppingAt.Some? ==> s.stoppingAt == First(r.stoppingAt, FirstTime(steps, id, Stopping)))
  }

  /** And of everything else. */
  ghost predicate Settings<Id, A>(r: RunState<A>, steps: seq<Step<Id, A>>, id: Id, s: RunState<A>) {
    && s.peak == Or(LatestPeak(steps, id), r.peak) && s.ramp == Or(WaitingRamp(steps, id), r.ramp)
    && (s.breached <==> r.breached || Breaches(steps, id))
    && s.grace == r.grace
  }

  lemma BreachesStep<Id, A>(steps: seq<Step<Id, A>>, e: Step<Id, A>, id: Id)
    ensures Breaches(steps + [e], id) <==> Breaches(steps, id) || BreachAt(e, id)
  {
    var all := steps + [e];
    if i :| 0 <= i < |steps| && BreachAt(steps[i], id) {
      assert BreachAt(all[i], id);
    }
    if BreachAt(e, id) {
      assert BreachAt(all[|steps|], id);
    }
  }

  /** The ticker only ever means to end a run. */
  ghost predicate OnlyEnds<Id, A>(c: Coord<Id, A>) {
    c.pending.Some? ==> IsTerminal(c.pending.value.phase)
  }

  lemma OnlyEndsNext<Id, A>(c: Coord<Id, A>, e: Step<Id, A>, keep: nat)
    requires OnlyEnds(c)
    ensures OnlyEnds(Next(c, e, keep))
  {
    if e.Begin? && !Busy(c) {
      TrimmedOnlyDrops(Appended(c, e.id, NewRun(e.peak, e.grace)), keep, e.id);
    }
  }

  lemma ProgressStep<Id, A>(r: RunState<A>, c: Coord<Id, A>, rest: seq<Step<Id, A>>, e: Step<Id, A>, id: Id)
    requires id in c.runs && Progress(r, rest, id, c.runs[id]) && OnlyEnds(c)
    ensures Progress(r, rest + [e], id, RunAfter(c, e, id))
  {
    assert (rest + [e])[..|rest|] == rest;
  }

  lemma SettingsStep<Id, A>(r: RunState<A>, c: Coord<Id, A>, rest: seq<Step<Id, A>>, e: Step<Id, A>, id: Id)
    requires id in c.runs && Settings(r, rest, id, c.runs[id])
    ensures Settings(r, rest + [e], id, RunAfter(c, e, id))
  {
    assert (rest + [e])[..|rest|] == rest;
    BreachesStep(rest, e, id);
  }

  /**
   Over any steps: a run that is still live shows the latest phase in progress it was put into, and the times it was
   first running and first asked to stop; and every run shows the latest peak, the ramp no dispatch has taken yet,
   whether any threshold was ever breached, and the grace it had.
   */
  lemma {:induction false} RunRecords<Id, A>(c: Coord<Id, A>, steps: seq<Step<Id, A>>, keep: nat, id: Id)
    requires OnlyEnds(c) && NoneBegins(steps, id) && id in Onward(c, steps, keep).runs
    ensures OnlyEnds(Onward(c, steps, keep)) && id in c.runs
    ensures var s := Onward(c, steps, keep).runs[id];
      Progress(c.runs[id], steps, id, s) && Settings(c.runs[id], steps, id, s)
  {
    if steps != [] {
      var rest, e := steps[..|steps| - 1], steps[|steps| - 1];
      var mid := Onward(c, rest, keep);
      LaterStep(mid, e, keep, id);
      RunRecords(c, rest, keep, id);
      OnlyEndsNext(mid, e, keep);
      StepOn(mid, e, keep, id);
      ProgressStep(c.runs[id], mid, rest, e, id);
      SettingsStep(c.runs[id], mid, rest, e, id);
      assert rest + [e] == steps;
    }
  }

  // ---------------------------------------------------------------------------
  // The roster
  // ---------------------------------------------------------------------------

  ghost predicate NoRoster<Id, A>(steps: seq<Step<Id, A>>, id: Id) {
    forall i :: 0 <= i < |steps| ==> !(steps[i].Roster? && steps[i].id == id)
  }

  /** Everybody on the roster still has its quota and its mark; whoever came on by a report has neither. */
  ghost predicate SameRoster<A>(before: map<A, Participant>, after: map<A, Participant>) {
    && (forall a :: a in before ==> SameEntry(before, after, a))
    && (forall a :: a in after ==> SameEntry(before, after, a))
  }

  ghost predicate SameEntry<A>(before: map<A, Participant>, after: map<A, Participant>, a: A) {
    && (a in before ==>
          a in after && after[a].vuQuota == before[a].vuQuota && after[a].dispatched == before[a].dispatched)
    && (a in after && a !in before ==> after[a].vuQuota == 0 && !after[a].dispatched)
  }

  /** The agents marked as told to start. */
  ghost function Marked<A>(parts: map<A, Participant>): (s: set<A>) {
    set a | a in parts && parts[a].dispatched
  }

  lemma SameMarks<A>(before: map<A, Participant>, after: map<A, Participant>)
    requires SameRoster(before, after)
    ensures Marked(before) == Marked(after)
  {
    forall a
      ensures a in Marked(before) <==> a in Marked(after)
    {
      assert a in before || a in after ==> SameEntry(before, after, a);
    }
  }

  lemma RosterStep<Id, A>(c: Coord<Id, A>, e: Step<Id, A>, keep: nat, id: Id, a: A)
    requires id in c.runs && id in Next(c, e, keep).runs && !(e.Begin? && e.id == id) && !(e.Roster? && e.id == id)
    ensures SameEntry(c.runs[id].participants, Next(c, e, keep).runs[id].participants, a)
  {
    StepOn(c, e, keep, id);
  }

  lemma {:induction false} EntryStands<Id, A>(c: Coord<Id, A>, steps: seq<Step<Id, A>>, keep: nat, id: Id, a: A)
    requires NoneBegins(steps, id) && NoRoster(steps, id) && id in Onward(c, steps, keep).runs
    ensures id in c.runs && SameEntry(c.runs[id].participants, Onward(c, steps, keep).runs[id].participants, a)
  {
    if steps != [] {
      var rest, e := steps[..|steps| - 1], steps[|steps| - 1];
      var mid := Onward(c, rest, keep);
      LaterStep(mid, e, keep, id);
      EntryStands(c, rest, keep, id, a);
      RosterStep(mid, e, keep, id, a);
    }
  }

  lemma EntryOf<Id, A>(c: Coord<Id, A>, id: Id, parts: map<A, Participant>, steps: seq<Step<Id, A>>, keep: nat)
    requires NoneBegins(steps, id) && id in Onward(Next(c, Step.Roster(id, parts), keep), steps, keep).runs
    ensures id in Next(c, Step.Roster(id, parts), keep).runs
    ensures Next(c, Step.Roster(id, parts), keep).runs[id].participants == parts
  {
    RunLater(Next(c, Step.Roster(id, parts), keep), steps, keep, id);
  }

  /**
   Until another roster is written, whatever is reported of a run leaves quotas and marks as the last roster had them:
   what a rebalance reads is the roster last written.
   */
  lemma RosterStands<Id, A>(c: Coord<Id, A>, id: Id, parts: map<A, Participant>, steps: seq<Step<Id, A>>, keep: nat)
    requires NoneBegins(steps, id) && NoRoster(steps, id)
    requires id in Onward(Next(c, Step.Roster(id, parts), keep), steps, keep).runs
    ensures var now := Onward(Next(c, Step.Roster(id, parts), keep), steps, keep).runs[id].participants;
      SameRoster(parts, now) && Marked(now) == Marked(parts)
  {
    var written := Next(c, Step.Roster(id, parts), keep);
    var now := Onward(written, steps, keep).runs[id].participants;
    EntryOf(c, id, parts, steps, keep);
    forall a | a in parts
      ensures SameEntry(parts, now, a)
    {
      EntryStands(written, steps, keep, id, a);
    }
    forall a | a in now
      ensures SameEntry(parts, now, a)
    {
      EntryStands(written, steps, keep, id, a);
    }
    SameMarks(parts, now);
  }

  // ---------------------------------------------------------------------------
  // What a run is begun with
  // ---------------------------------------------------------------------------

  /** A run that was just begun waits, with the plan's peak and grace and nobody on its roster. */
  lemma BegunWith<Id, A>(c: Coord<Id, A>, id: Id, peak: int, grace: int, keep: nat)
    requires !Busy(c) && id in Next(c, Begin(id, peak, grace), keep).runs
    ensures var r := Next(c, Begin(id, peak, grace), keep).runs[id];
      && r.phase == Pending && r.startedAt == r.stoppingAt == r.endedAt == None && r.stopWhy == r.failure == ""
      && r.peak == peak && r.ramp == 0 && r.grace == grace && r.participants == map[] && !r.breached
  {
    StepOn(c, Begin(id, peak, grace), keep, id);
  }

  /** How long after it was asked to stop a run is aborted at the earliest: its plan's grace, or half a minute. */
  ghost predicate PastGrace(grace: int, waited: int) {
    waited >= (if grace > 0 then grace else 30 * SECOND) + 20 * SECOND
  }

  lemma {:induction false} Unbegun<Id, A>(steps: seq<Step<Id, A>>, keep: nat, id: Id)
    requires NoneBegins(steps, id)
    ensures id !in Run(steps, keep).runs
  {
    if id in Run(steps, keep).runs {
      RunLater(Coord(map[], [], None, None), steps, keep, id);
    }
  }

  lemma BeforeBegin<T>(earlier: seq<T>, begin: T, life: seq<T>, j: nat)
    requires j <= |earlier| + 1 + |life|
    ensures j <= |earlier| ==> (earlier + [begin] + life)[..j] == earlier[..j]
    ensures j > |earlier| ==> (earlier + [begin] + life)[..j] == earlier + [begin] + life[..j - |earlier| - 1]
  {
  }

  /** The steps up to a place that finds the run remembered reach past its beginning. */
  lemma AfterBegin<Id, A>(earlier: seq<Step<Id, A>>, begin: Step<Id, A>, life: seq<Step<Id, A>>, keep: nat,
                          id: Id, j: nat)
    requires NoneBegins(earlier, id) && j <= |earlier| + 1 + |life|
    requires id in Run((earlier + [begin] + life)[..j], keep).runs
    ensures j > |earlier|
  {
    BeforeBegin(earlier, begin, life, j);
    if j <= |earlier| {
      Unbegun(earlier[..j], keep, id);
    }
  }

  lemma {:induction false} RunOnlyEnds<Id, A>(steps: seq<Step<Id, A>>, keep: nat)
    ensures OnlyEnds(Run(steps, keep))
  {
    if steps != [] {
      RunOnlyEnds(steps[..|steps| - 1], keep);
      OnlyEndsNext(Run(steps[..|steps| - 1], keep), steps[|steps| - 1], keep);
    }
  }

  /** The record of a run from its beginning. */
  lemma RecordedSinceBegin<Id, A>(earlier: seq<Step<Id, A>>, begin: Step<Id, A>, steps: seq<Step<Id, A>>, keep: nat,
                                  id: Id)
    requires NoneBegins(earlier, id) && begin.Begin? && begin.id == id && NoneBegins(steps, id)
    requires id in Run(earlier + [begin] + steps, keep).runs
    ensures var r, s := NewRun(begin.peak, begin.grace), Run(earlier + [begin] + steps, keep).runs[id];
      Progress(r, steps, id, s) && Settings(r, steps, id, s)
  {
    var none: Coord<Id, A> := Coord(map[], [], None, None);
    OneMore(none, earlier, begin, keep);
    OnwardFrom(none, earlier + [begin], steps, keep);
    RunOnlyEnds(earlier + [begin], keep);
    RunRecords(Run(earlier + [begin], keep), steps, keep, id);
    Unbegun(earlier, keep, id);
    StepOn(Run(earlier, keep), begin, keep, id);
  }

  /**
   The grace is the plan's: a run that was aborted had been asked to stop, and was looked at once the grace it was begun
   with, or half a minute if the plan has none, and a margin of twenty seconds had passed since it first was.
   */
  lemma AbortsAfterPlanGrace<Id, A>(earlier: seq<Step<Id, A>>, begin: Step<Id, A>, steps: seq<Step<Id, A>>, keep: nat,
                                    id: Id)
    returns (j: nat)
    requires NoneBegins(earlier, id) && begin.Begin? && begin.id == id && NoneBegins(steps, id)
    requires id in Run(earlier + [begin] + steps, keep).runs
    requires Run(earlier + [begin] + steps, keep).runs[id].phase.Aborted?
    ensures j < |steps| && steps[j].CheckStop? && steps[j].id == id
    ensures var asked := FirstTime(steps[..j], id, Stopping);
      asked.Some? && PastGrace(begin.grace, steps[j].now - asked.value)
  {
    var all := earlier + [begin] + steps;
    var k := AbortedOnlyIfOverdue(all, keep, id);
    AfterBegin(earlier, begin, steps, keep, id, k);
    BeforeBegin(earlier, begin, steps, k);
    j := k - |earlier| - 1;
    assert all[k] == steps[j];
    RecordedSinceBegin(earlier, begin, steps[..j], keep, id);
  }

  /**
   And it is aborted then: if nothing else ends it, a check past that time after the first stop, followed by the
   ticker's act, leaves it over.
   */
  lemma PlanGraceAborts<Id, A>(earlier: seq<Step<Id, A>>, begin: Step<Id, A>, steps: seq<Step<Id, A>>, now: int,
                               between: seq<Step<Id, A>>, why: string, at: int, keep: nat, id: Id)
    requires NoneBegins(earlier, id) && begin.Begin? && begin.id == id
    requires NoneBegins(steps, id) && NoneBegins(between, id)
    requires Run(earlier + [begin] + steps, keep).pending.None?
    requires id in Run(earlier + [begin] + steps, keep).runs && Live(Run(earlier + [begin] + steps, keep).runs[id])
    requires var asked := FirstTime(steps, id, Stopping); asked.Some? && PastGrace(begin.grace, now - asked.value)
    ensures var looked := Next(Run(earlier + [begin] + steps, keep), CheckStop(id, now), keep);
      var acted := Next(Onward(looked, between, keep), Finish(why, at), keep);
      id in acted.runs ==> !Live(acted.runs[id])
  {
    RecordedSinceBegin(earlier, begin, steps, keep, id);
    OverdueEnds(Run(earlier + [begin] + steps, keep), id, FirstTime(steps, id, Stopping).value, now, between, why, at,
                keep);
  }
}
