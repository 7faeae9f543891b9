/**
 Load profiles: how many virtual users a node runs at any instant of a run.

 Durations and instants are whole nanoseconds. Where the engine computes
 `math.Round(from + progress*(to-from))` in floating point, the model rounds the
 exact rational, half away from zero.
 */
module Executor {

  import opened Apportion
  import opened Sequences

  // ---------------------------------------------------------------------------
  // Rounding
  // ---------------------------------------------------------------------------

  /** The integer nearest to n/d, halves going away from zero. */
  function Round(n: int, d: nat): (r: int)
    requires d > 0
  {
    if n >= 0 then Quotient(2 * n + d, 2 * d)
    else
      var q: int := Quotient(2 * -n + d, 2 * d);
      -q
  }

  lemma RoundNearest(n: nat, d: nat)
    requires d > 0
    ensures Round(n, d) >= 0
    ensures 2 * n - d < 2 * (Round(n, d) * d) <= 2 * n + d
  {
    LongDivision(2 * n + d, 2 * d);
    Reassociate(Round(n, d), d);
  }

  lemma Reassociate(r: int, d: int)
    ensures r * (2 * d) == 2 * (r * d)
  {
  }

  lemma RoundWhole(k: nat, d: nat)
    requires d > 0
    ensures k * d >= 0 && Round(k * d, d) == k
  {
    MulMono(d, 0, k);
    RoundNearest(k * d, d);
    NearestWhole(Round(k * d, d), k, d);
  }

  lemma NearestWhole(r: int, k: int, d: int)
    requires d > 0 && 2 * (k * d) - d < 2 * (r * d) <= 2 * (k * d) + d
    ensures r == k
  {
    if r > k { MulMono(d, k + 1, r); assert false; }
    if r < k { MulMono(d, r + 1, k); assert false; }
  }

  lemma RoundMono(a: nat, b: nat, d: nat)
    requires d > 0 && a <= b
    ensures Round(a, d) <= Round(b, d)
  {
    LongDivision(2 * a + d, 2 * d);
    LongDivision(2 * b + d, 2 * d);
    QuotientMono(Quotient(2 * a + d, 2 * d), Residue(2 * a + d, 2 * d),
                 Quotient(2 * b + d, 2 * d), Residue(2 * b + d, 2 * d), 2 * d);
  }

  function Blend(from: int, to: int, num: int, den: int): (r: int) {
    from * den + num * (to - from)
  }

  /** The value `num/den` of the way from one level to another. */
  function Interpolate(from: int, to: int, num: int, den: nat): (r: int)
    requires den > 0
  {
    Round(Blend(from, to, num, den), den)
  }

  lemma BlendEnds(from: int, to: int, den: int)
    ensures Blend(from, to, 0, den) == from * den
    ensures Blend(from, to, den, den) == to * den
  {
  }

  lemma BlendMono(from: int, to: int, n1: int, n2: int, den: int)
    requires n1 <= n2
    ensures from <= to ==> Blend(from, to, n1, den) <= Blend(from, to, n2, den)
    ensures from >= to ==> Blend(from, to, n1, den) >= Blend(from, to, n2, den)
  {
    if from <= to { MulMono(to - from, n1, n2); } else { MulMono(from - to, n1, n2); }
  }

  /** Interpolation starts at the first level, ends at the second and never turns back. */
  lemma InterpolateMono(from: nat, to: nat, n1: nat, n2: nat, den: nat)
    requires den > 0 && n1 <= n2 <= den
    ensures Interpolate(from, to, 0, den) == from
    ensures Interpolate(from, to, den, den) == to
    ensures from <= to ==> from <= Interpolate(from, to, n1, den) <= Interpolate(from, to, n2, den) <= to
    ensures from >= to ==> from >= Interpolate(from, to, n1, den) >= Interpolate(from, to, n2, den) >= to
  {
    RoundWhole(from, den);
    RoundWhole(to, den);
    BlendEnds(from, to, den);
    BlendMono(from, to, 0, n1, den);
    BlendMono(from, to, n1, n2, den);
    BlendMono(from, to, n2, den, den);
    var b0, b1, b2, b3 := from * den, Blend(from, to, n1, den), Blend(from, to, n2, den), to * den;
    if from <= to {
      RoundMono(b0, b1, den);
      RoundMono(b1, b2, den);
      RoundMono(b2, b3, den);
    } else {
      RoundMono(b1, b0, den);
      RoundMono(b2, b1, den);
      RoundMono(b3, b2, den);
    }
  }

  // ---------------------------------------------------------------------------
  // Profiles
  // ---------------------------------------------------------------------------

  datatype Stage = Stage(duration: int, target: nat)
  datatype Leg = Leg(end: int, target: nat)

  datatype Profile =
    | Constant(vus: nat, duration: int)
    | Ramping(legs: seq<Leg>, total: int, peak: nat)
  {
    /** What the two constructors establish. */
    ghost predicate Valid() {
      match this
      case Constant(vus, duration) => vus > 0 && duration >= 0
      case Ramping(legs, total, peak) =>
        && legs != [] && total == legs[|legs| - 1].end && peak > 0
        && (forall i :: 0 <= i < |legs| ==> StartOf(legs, i) < legs[i].end && legs[i].target <= peak)
        && exists i :: 0 <= i < |legs| && legs[i].target == peak
    }

    function Peak(): nat {
      if Constant? then vus else peak
    }
  }

  datatype Result<T> = Ok(value: T) | Err(reason: string)

  function StartOf(legs: seq<Leg>, k: nat): (r: int)
    requires k < |legs|
  {
    if k == 0 then 0 else legs[k - 1].end
  }

  function LevelBefore(legs: seq<Leg>, k: nat): (r: nat)
    requires k < |legs|
  {
    if k == 0 then 0 else legs[k - 1].target
  }

  ghost function Elapsed(stages: seq<Stage>, n: nat): (r: int)
    requires n <= |stages|
  {
    if n == 0 then 0 else Elapsed(stages, n - 1) + stages[n - 1].duration
  }

  method NewConstant(vus: nat, duration: int, iterations: nat) returns (r: Result<Profile>)
    ensures r.Ok? <==> vus > 0 && duration >= 0 && (duration > 0 || iterations > 0)
    ensures r.Ok? ==> r.value == Constant(vus, duration) && r.value.Valid()
  {
    if vus <= 0 {
      return Err("constant-vus profile needs a positive vus value");
    }
    if duration < 0 {
      return Err("constant-vus profile has a negative duration");
    }
    if duration == 0 && iterations == 0 {
      return Err("constant-vus profile needs either a duration or an iteration count");
    }
    return Ok(Constant(vus, duration));
  }

  /** A stage list resolved to absolute end offsets. */
  ghost predicate Resolved(stages: seq<Stage>, legs: seq<Leg>) {
    && |legs| <= |stages|
    && forall k :: 0 <= k < |legs| ==>
      stages[k].duration > 0 && legs[k] == Leg(Elapsed(stages, k + 1), stages[k].target)
  }

  ghost predicate IsPeak(legs: seq<Leg>, peak: nat) {
    && (forall k :: 0 <= k < |legs| ==> legs[k].target <= peak)
    && (peak == 0 || exists k :: 0 <= k < |legs| && legs[k].target == peak)
  }

  /** Resolves stages to absolute end offsets; rejects empty, instantaneous and all-zero profiles. */
  method NewRamping(stages: seq<Stage>) returns (r: Result<Profile>)
    ensures r.Ok? <==> (forall i :: 0 <= i < |stages| ==> stages[i].duration > 0)
                       && exists i :: 0 <= i < |stages| && stages[i].target > 0
    ensures r.Ok? ==> r.value.Ramping? && r.value.Valid()
                      && |r.value.legs| == |stages| && Resolved(stages, r.value.legs)
  {
    if |stages| == 0 {
      return Err("ramping-vus profile needs at least one stage");
    }
    var legs: seq<Leg> := [];
    var total, peak := 0, 0;
    for i := 0 to |stages|
      invariant |legs| == i && total == Elapsed(stages, i)
      invariant Resolved(stages, legs) && IsPeak(legs, peak)
    {
      var d := stages[i].duration;
      if d <= 0 {
        return Err("stage needs a positive duration");
      }
      total := total + d;
      legs := legs + [Leg(total, stages[i].target)];
      if stages[i].target > peak {
        peak := stages[i].target;
        assert legs[i].target == peak;
      }
    }
    ResolvedIsValid(stages, legs, peak);
    if peak == 0 {
      return Err("ramping-vus profile never rises above zero VUs");
    }
    return Ok(Ramping(legs, total, peak));
  }

  lemma {:induction false} ResolvedIsValid(stages: seq<Stage>, legs: seq<Leg>, peak: nat)
    requires Resolved(stages, legs) && |legs| == |stages| > 0 && IsPeak(legs, peak)
    ensures peak > 0 ==> Ramping(legs, Elapsed(stages, |stages|), peak).Valid()
    ensures peak > 0 <==> exists i :: 0 <= i < |stages| && stages[i].target > 0
  {
    assert forall i :: 0 <= i < |stages| ==> stages[i].target == legs[i].target;
    forall i | 0 <= i < |legs|
      ensures StartOf(legs, i) < legs[i].end
    {
      assert StartOf(legs, i) == Elapsed(stages, i);
      assert Elapsed(stages, i + 1) == Elapsed(stages, i) + stages[i].duration;
    }
  }

  /** The curve inside stage `k`. */
  function StageCurve(legs: seq<Leg>, k: nat, elapsed: int): (r: int)
    requires k < |legs| && StartOf(legs, k) < legs[k].end
  {
    Interpolate(LevelBefore(legs, k), legs[k].target, elapsed - StartOf(legs, k), legs[k].end - StartOf(legs, k))
  }

  ghost predicate InStage(legs: seq<Leg>, k: nat, elapsed: int)
    requires k < |legs|
  {
    StartOf(legs, k) <= elapsed < legs[k].end
  }

  /** The first stage from `k` on that has not ended yet decides. */
  function CurveFrom(legs: seq<Leg>, k: nat, elapsed: int): (r: int)
    requires k <= |legs| && forall i :: 0 <= i < |legs| ==> StartOf(legs, i) < legs[i].end
    decreases |legs| - k
  {
    if k == |legs| then 0
    else if elapsed < legs[k].end then StageCurve(legs, k, elapsed)
    else CurveFrom(legs, k + 1, elapsed)
  }

  function Target(p: Profile, elapsed: int): (r: int)
    requires p.Valid()
  {
    if elapsed < 0 then 0
    else match p
    case Constant(vus, duration) => if duration > 0 && elapsed >= duration then 0 else vus
    case Ramping(legs, total, _) => if elapsed >= total then 0 else CurveFrom(legs, 0, elapsed)
  }

  method ProfileTargetAt(p: Profile, elapsed: int) returns (r: int)
    requires p.Valid()
    ensures r == Target(p, elapsed)
  {
    if elapsed < 0 {
      return 0;
    }
    match p {
      case Constant(vus, duration) =>
        if duration > 0 && elapsed >= duration {
          return 0;
        }
        return vus;
      case Ramping(legs, total, _) =>
        if elapsed >= total {
          return 0;
        }
        var from, start := 0, 0;
        for i := 0 to |legs|
          invariant i < |legs| ==> from == LevelBefore(legs, i) && start == StartOf(legs, i)
          invariant CurveFrom(legs, 0, elapsed) == CurveFrom(legs, i, elapsed)
        {
          var leg := legs[i];
          if elapsed < leg.end {
            return Interpolate(from, leg.target, elapsed - start, leg.end - start);
          }
          from, start := leg.target, leg.end;
        }
        return 0;
    }
  }

  /** A constant profile asks for its users from the start until its duration is over, or for good if it has none. */
  lemma ConstantHoldsIff(p: Profile, elapsed: int)
    requires p.Constant? && p.Valid()
    ensures Target(p, elapsed) == p.vus <==> 0 <= elapsed && (p.duration == 0 || elapsed < p.duration)
    ensures Target(p, elapsed) == p.vus || Target(p, elapsed) == 0
    ensures p.Peak() == p.vus
  {
  }

  // ---------------------------------------------------------------------------
  // The shape of a ramping profile
  // ---------------------------------------------------------------------------

  lemma {:induction false} EndsIncrease(p: Profile, i: nat, j: nat)
    requires p.Ramping? && p.Valid() && i <= j < |p.legs|
    ensures 0 < p.legs[i].end <= p.legs[j].end
    ensures i < j ==> p.legs[i].end <= StartOf(p.legs, j)
    decreases j
  {
    if i < j {
      EndsIncrease(p, i, j - 1);
    } else if i > 0 {
      EndsIncrease(p, i - 1, i - 1);
    }
  }

  lemma {:induction false} CurveInStage(p: Profile, i: nat, k: nat, elapsed: int)
    requires p.Ramping? && p.Valid() && i <= k < |p.legs| && InStage(p.legs, k, elapsed)
    ensures CurveFrom(p.legs, i, elapsed) == StageCurve(p.legs, k, elapsed)
    decreases k - i
  {
    if i < k {
      EndsIncrease(p, i, k);
      CurveInStage(p, i + 1, k, elapsed);
    }
  }

  /** Whatever stage an instant falls in decides the target there. */
  lemma TargetInStage(p: Profile, k: nat, elapsed: int)
    requires p.Ramping? && p.Valid() && k < |p.legs| && InStage(p.legs, k, elapsed)
    ensures 0 <= elapsed < p.total && Target(p, elapsed) == StageCurve(p.legs, k, elapsed)
  {
    EndsIncrease(p, k, |p.legs| - 1);
    if k > 0 {
      EndsIncrease(p, k - 1, k - 1);
    }
    CurveInStage(p, 0, k, elapsed);
  }

  /** Every instant of the run falls in some stage. */
  lemma {:induction false} SomeStage(p: Profile, elapsed: int, n: nat) returns (k: nat)
    requires p.Ramping? && p.Valid() && 0 < n <= |p.legs| && 0 <= elapsed < p.legs[n - 1].end
    ensures k < n && InStage(p.legs, k, elapsed)
  {
    if StartOf(p.legs, n - 1) <= elapsed {
      k := n - 1;
    } else {
      k := SomeStage(p, elapsed, n - 1);
    }
  }

  /** No profile ever asks for fewer than zero users or more than its peak. */
  lemma TargetWithinPeak(p: Profile, elapsed: int)
    requires p.Valid()
    ensures 0 <= Target(p, elapsed) <= p.Peak()
  {
    if p.Ramping? && 0 <= elapsed < p.total {
      var k := SomeStage(p, elapsed, |p.legs|);
      TargetInStage(p, k, elapsed);
      var start := StartOf(p.legs, k);
      var at := elapsed - start;
      InterpolateMono(LevelBefore(p.legs, k), p.legs[k].target, at, at, p.legs[k].end - start);
    }
  }

  /** Inside a stage the curve moves one way only: from the level before towards the stage's target. */
  lemma MonotoneInStage(p: Profile, k: nat, t1: int, t2: int)
    requires p.Ramping? && p.Valid() && k < |p.legs|
    requires InStage(p.legs, k, t1) && InStage(p.legs, k, t2) && t1 <= t2
    ensures var a, b := LevelBefore(p.legs, k), p.legs[k].target;
      (a <= b ==> a <= Target(p, t1) <= Target(p, t2) <= b) && (a >= b ==> a >= Target(p, t1) >= Target(p, t2) >= b)
  {
    TargetInStage(p, k, t1);
    TargetInStage(p, k, t2);
    var start := StartOf(p.legs, k);
    InterpolateMono(LevelBefore(p.legs, k), p.legs[k].target, t1 - start, t2 - start, p.legs[k].end - start);
  }

  /** A stage's target is hit exactly when the stage ends, unless it is the last, where the run is over. */
  lemma HitsStageTargets(p: Profile, k: nat)
    requires p.Ramping? && p.Valid() && k < |p.legs|
    ensures Target(p, p.legs[k].end) == if k + 1 < |p.legs| then p.legs[k].target else 0
    ensures Target(p, 0) == 0
  {
    TargetInStage(p, 0, 0);
    InterpolateMono(0, p.legs[0].target, 0, 0, p.legs[0].end);
    EndsIncrease(p, k, k);
    if k + 1 < |p.legs| {
      TargetInStage(p, k + 1, p.legs[k].end);
      InterpolateMono(p.legs[k].target, p.legs[k + 1].target, 0, 0, p.legs[k + 1].end - p.legs[k].end);
    }
  }

  lemma RoundIs(n: nat, d: nat, k: nat)
    requires d > 0
    ensures Round(n, d) == k <==> 2 * n - d < 2 * (k * d) <= 2 * n + d
  {
    RoundNearest(n, d);
    var r := Round(n, d);
    if 2 * n - d < 2 * (k * d) <= 2 * n + d {
      if r > k {
        MulMono(d, k + 1, r);
      } else if r < k {
        MulMono(d, r + 1, k);
      }
    }
  }

  /**
   A nanosecond before its end, a climbing stage is at its target exactly if it takes two of them per user or more.
   */
  lemma LastInstant(from: nat, to: nat, d: nat)
    requires d > 0 && from <= to
    ensures Interpolate(from, to, d - 1, d) == to <==> 2 * (to - from) <= d
  {
    LastBlend(from, to, d);
    RoundIs(Blend(from, to, d - 1, d), d, to);
  }

  lemma LastBlend(from: nat, to: nat, d: nat)
    requires d > 0 && from <= to
    ensures Blend(from, to, d - 1, d) == to * d - (to - from) >= 0
  {
    MulMono(to, 1, d);
  }

  /** Some instant of the last stage is at the peak exactly if the stage climbs to it, slowly enough. */
  ghost predicate LastStagePeaks(p: Profile)
    requires p.Ramping? && p.Valid()
  {
    var n := |p.legs| - 1;
    p.legs[n].target == p.peak && 2 * (p.peak - LevelBefore(p.legs, n)) <= p.legs[n].end - StartOf(p.legs, n)
  }

  /** A target at the peak puts one of its stage's two ends at the peak. */
  lemma PeakInStage(p: Profile, k: nat, t: int)
    requires p.Ramping? && p.Valid() && k < |p.legs| && InStage(p.legs, k, t) && Target(p, t) == p.peak
    ensures (k > 0 && p.legs[k - 1].target == p.peak) || p.legs[k].target == p.peak
    ensures k == |p.legs| - 1 ==> (k > 0 && p.legs[k - 1].target == p.peak) || LastStagePeaks(p)
  {
    var last := p.legs[k].end - 1;
    MonotoneInStage(p, k, t, last);
    TargetInStage(p, k, last);
    if LevelBefore(p.legs, k) < p.peak {
      LastInstant(LevelBefore(p.legs, k), p.legs[k].target, p.legs[k].end - StartOf(p.legs, k));
    }
  }

  ghost predicate EarlierStagePeaks(p: Profile)
    requires p.Ramping?
  {
    exists k :: 0 <= k < |p.legs| - 1 && p.legs[k].target == p.peak
  }

  lemma PeakWhen(p: Profile, t: int)
    requires p.Ramping? && p.Valid() && Target(p, t) == p.peak
    ensures LastStagePeaks(p) || EarlierStagePeaks(p)
  {
    var k := SomeStage(p, t, |p.legs|);
    PeakInStage(p, k, t);
  }

  lemma LastStageReaches(p: Profile)
    requires p.Ramping? && p.Valid() && LastStagePeaks(p)
    ensures Target(p, p.legs[|p.legs| - 1].end - 1) == p.peak
  {
    var n := |p.legs| - 1;
    TargetInStage(p, n, p.legs[n].end - 1);
    LastInstant(LevelBefore(p.legs, n), p.peak, p.legs[n].end - StartOf(p.legs, n));
  }

  /**
   A ramp reaches its peak exactly if a stage before the last ends at it, or the last one climbs to it slowly enough.
   */
  lemma PeakReachedIff(p: Profile)
    requires p.Ramping? && p.Valid()
    ensures (exists t :: Target(p, t) == p.Peak()) <==> LastStagePeaks(p) || EarlierStagePeaks(p)
  {
    if t :| Target(p, t) == p.Peak() {
      PeakWhen(p, t);
    }
    if EarlierStagePeaks(p) {
      var k :| 0 <= k < |p.legs| - 1 && p.legs[k].target == p.peak;
      HitsStageTargets(p, k);
    }
    if LastStagePeaks(p) {
      LastStageReaches(p);
    }
  }

  // ---------------------------------------------------------------------------
  // One node's share of the curve
  // ---------------------------------------------------------------------------

  /** A quota, possibly on its way from one value to another. */
  datatype Quota = Quota(from: int, to: int, rampFrom: int, rampTo: int)

  function Clamp(q: int): (r: nat) {
    if q < 0 then 0 else q
  }

  function QuotaAt(q: Quota, at: int): (r: int) {
    if q.rampTo <= q.rampFrom || at >= q.rampTo then q.to
    else if at <= q.rampFrom then q.from
    else Interpolate(q.from, q.to, at - q.rampFrom, q.rampTo - q.rampFrom)
  }

  function Fixed(quota: int): (r: Quota) {
    Quota(Clamp(quota), Clamp(quota), 0, 0)
  }

  function Rescaled(q: Quota, quota: int, at: int, ramp: int): (r: Quota) {
    if ramp <= 0 then Fixed(quota) else Quota(QuotaAt(q, at), Clamp(quota), at, at + ramp)
  }

  /** The virtual users a node runs when the whole profile asks for `global` out of `peak`. */
  function NodeTarget(quota: int, peak: nat, global: int): (r: int) {
    if quota == 0 || peak == 0 || global <= 0 then 0
    else if global >= peak then quota
    else
      var scaledTarget := Round(quota * global, peak);
      if scaledTarget == 0 then 1 else scaledTarget
  }

  class Scaled {
    const inner: Profile
    const peak: nat
    var from: int
    var to: int
    var rampFrom: int
    var rampTo: int

    function State(): (q: Quota)
      reads this
    {
      Quota(from, to, rampFrom, rampTo)
    }

    constructor (inner: Profile, quota: int)
      ensures this.inner == inner && peak == inner.Peak()
      ensures State() == Fixed(quota)
    {
      var q := if quota < 0 then 0 else quota;
      this.inner, peak := inner, inner.Peak();
      from, to, rampFrom, rampTo := q, q, 0, 0;
    }

    method Rescale(quota: int, at: int, ramp: int)
      modifies this
      ensures State() == Rescaled(old(State()), quota, at, ramp)
    {
      var q := if quota < 0 then 0 else quota;
      if ramp <= 0 {
        from, to := q, q;
        rampFrom, rampTo := 0, 0;
        return;
      }
      var now := QuotaLocked(at);
      from := now;
      to := q;
      rampFrom := at;
      rampTo := at + ramp;
    }

    method QuotaLocked(at: int) returns (r: int)
      ensures r == QuotaAt(State(), at)
    {
      if rampTo <= rampFrom || at >= rampTo {
        return to;
      }
      if at <= rampFrom {
        return from;
      }
      return Interpolate(from, to, at - rampFrom, rampTo - rampFrom);
    }

    method TargetAt(elapsed: int) returns (r: int)
      requires inner.Valid()
      ensures r == NodeTarget(QuotaAt(State(), elapsed), peak, Target(inner, elapsed))
    {
      var quota := QuotaLocked(elapsed);
      if quota == 0 || peak == 0 {
        return 0;
      }
      var global := ProfileTargetAt(inner, elapsed);
      if global <= 0 {
        return 0;
      }
      if global >= peak {
        return quota;
      }
      var scaledTarget := Round(quota * global, peak);
      if scaledTarget == 0 {
        return 1;
      }
      return scaledTarget;
    }
  }

  // ---------------------------------------------------------------------------
  // Quota ramps over whole runs
  // ---------------------------------------------------------------------------

  datatype Change = Change(quota: int, at: int, ramp: int)

  /** The quota after any sequence of rescales. */
  function After(initial: int, changes: seq<Change>): (r: Quota) {
    if changes == [] then Fixed(initial)
    else
      var c := changes[|changes| - 1];
      Rescaled(After(initial, changes[..|changes| - 1]), c.quota, c.at, c.ramp)
  }

  ghost predicate Within(q: Quota, lo: nat, hi: nat) {
    lo <= q.from <= hi && lo <= q.to <= hi
  }

  lemma {:induction false} QuotaAtWithin(q: Quota, lo: nat, hi: nat, t: int)
    requires Within(q, lo, hi)
    ensures lo <= QuotaAt(q, t) <= hi
  {
    if q.rampFrom < t < q.rampTo {
      InterpolateMono(q.from, q.to, t - q.rampFrom, t - q.rampFrom, q.rampTo - q.rampFrom);
    }
  }

  /** However often and whenever the quota is rescaled, it never leaves the range of the values asked for. */
  lemma {:induction false} QuotaBounded(initial: int, changes: seq<Change>, lo: nat, hi: nat, t: int)
    requires lo <= Clamp(initial) <= hi
    requires forall i :: 0 <= i < |changes| ==> lo <= Clamp(changes[i].quota) <= hi
    ensures Within(After(initial, changes), lo, hi)
    ensures lo <= QuotaAt(After(initial, changes), t) <= hi
  {
    if changes != [] {
      var c := changes[|changes| - 1];
      QuotaBounded(initial, changes[..|changes| - 1], lo, hi, c.at);
    }
    QuotaAtWithin(After(initial, changes), lo, hi, t);
  }

  /** A ramped rescale starts where the quota is, never turns back, and has arrived once the ramp is over. */
  lemma RampEases(initial: int, changes: seq<Change>, c: Change, t1: int, t2: int)
    requires c.at <= t1 <= t2
    ensures var before, after := After(initial, changes), After(initial, changes + [c]);
      var start, goal := QuotaAt(before, c.at), Clamp(c.quota);
      && (c.ramp > 0 ==> QuotaAt(after, c.at) == start)
      && (c.ramp > 0 && start <= goal ==> start <= QuotaAt(after, t1) <= QuotaAt(after, t2) <= goal)
      && (c.ramp > 0 && start >= goal ==> start >= QuotaAt(after, t1) >= QuotaAt(after, t2) >= goal)
      && (c.ramp <= 0 || t1 >= c.at + c.ramp ==> QuotaAt(after, t1) == goal)
  {
    var before := After(initial, changes);
    assert (changes + [c])[..|changes|] == changes;
    if c.ramp > 0 {
      var hi := Highest(initial, changes);
      QuotaBounded(initial, changes, 0, hi, c.at);
      var n1 := if t1 - c.at < c.ramp then t1 - c.at else c.ramp;
      var n2 := if t2 - c.at < c.ramp then t2 - c.at else c.ramp;
      InterpolateMono(QuotaAt(before, c.at), Clamp(c.quota), n1, n2, c.ramp);
    }
  }

  ghost function Highest(initial: int, changes: seq<Change>): (r: nat)
    ensures Clamp(initial) <= r
    ensures forall i :: 0 <= i < |changes| ==> Clamp(changes[i].quota) <= r
  {
    if changes == [] then Clamp(initial)
    else
      var h, q := Highest(initial, changes[..|changes| - 1]), Clamp(changes[|changes| - 1].quota);
      if h < q then q else h
  }

  // ---------------------------------------------------------------------------
  // The fleet's aggregate curve
  // ---------------------------------------------------------------------------

  lemma RoundShare(q: nat, g: nat, P: nat)
    requires 0 < g < P && q > 0
    ensures 0 <= Round(q * g, P) <= q
    ensures 2 * (q * g) - P < 2 * (Round(q * g, P) * P) <= 2 * (q * g) + P
  {
    MulMono(g, 0, q);
    MulMono(q, g, P - 1);
    RoundNearest(q * g, P);
    AtMost(Round(q * g, P), q, g, P);
  }

  lemma AtMost(r: int, q: int, g: int, P: int)
    requires q > 0 && P > 0 && q * g <= q * (P - 1) && 2 * (r * P) <= 2 * (q * g) + P
    ensures r <= q
  {
    if r > q {
      MulMono(P, q + 1, r);
      SuccMul(P - 1, q);
      assert false;
    }
  }

  /** One node stays within its quota, within half a user below its exact share and less than one above. */
  lemma NodeBound(q: nat, P: nat, g: nat)
    requires P > 0 && g > 0
    ensures 0 <= NodeTarget(q, P, g) <= q
    ensures g >= P ==> NodeTarget(q, P, g) == q
    ensures q == 0 ==> NodeTarget(q, P, g) == 0
    ensures q > 0 && g < P ==> 1 <= NodeTarget(q, P, g)
    ensures q > 0 && g < P ==> 2 * (q * g) - P < 2 * (NodeTarget(q, P, g) * P)
    ensures q > 0 && g < P ==> NodeTarget(q, P, g) * P < q * g + P
  {
    if q > 0 && g < P {
      RoundShare(q, g, P);
      MulMono(q, 1, g);
    }
  }

  ghost function Fleet(quotas: seq<nat>, P: nat, g: int): (r: int) {
    if quotas == [] then 0
    else Fleet(quotas[..|quotas| - 1], P, g) + NodeTarget(quotas[|quotas| - 1], P, g)
  }

  /** How many nodes carry anything at all. */
  ghost function Carrying(quotas: seq<nat>): (r: nat) {
    if quotas == [] then 0
    else Carrying(quotas[..|quotas| - 1]) + if quotas[|quotas| - 1] > 0 then 1 else 0
  }

  /** The three bounds on the products, for `some` nodes carrying anything. */
  ghost predicate Tracks(fleetP: int, sumG: int, carryingP: int, some: bool) {
    && 2 * fleetP >= 2 * sumG - carryingP && fleetP <= sumG + carryingP
    && (some ==> fleetP < sumG + carryingP)
  }

  lemma TracksOneMore(fleetP: int, targetP: int, sumG: int, quotaG: int, carryingP: int, P: int, some: bool,
                      carries: bool)
    requires Tracks(fleetP, sumG, carryingP, some)
    requires carries ==> 2 * quotaG - P < 2 * targetP && targetP < quotaG + P
    requires !carries ==> targetP == 0 && quotaG == 0
    ensures Tracks(fleetP + targetP, sumG + quotaG, carryingP + if carries then P else 0, some || carries)
  {
  }

  /**
   The nodes' curves add up to the requested one: at the peak exactly, below it to
   within half a user per working node underneath and less than one per working node above.
   */
  lemma {:induction false} FleetTracksCurve(quotas: seq<nat>, P: nat, g: nat)
    requires P > 0 && g > 0
    ensures g >= P ==> Fleet(quotas, P, g) == Sum(quotas)
    ensures g < P ==> 2 * (Fleet(quotas, P, g) * P) >= 2 * (Sum(quotas) * g) - Carrying(quotas) * P
    ensures g < P ==> Fleet(quotas, P, g) * P <= Sum(quotas) * g + Carrying(quotas) * P
    ensures g < P && Carrying(quotas) > 0 ==> Fleet(quotas, P, g) * P < Sum(quotas) * g + Carrying(quotas) * P
  {
    if quotas != [] {
      var rest, q := quotas[..|quotas| - 1], quotas[|quotas| - 1];
      FleetTracksCurve(rest, P, g);
      NodeBound(q, P, g);
      AddProduct(Fleet(rest, P, g), NodeTarget(q, P, g), Fleet(quotas, P, g), P);
      AddProduct(Sum(rest), q, Sum(quotas), g);
      AddProduct(Carrying(rest), if q > 0 then 1 else 0, Carrying(quotas), P);
      if g < P {
        TracksOneMore(Fleet(rest, P, g) * P, NodeTarget(q, P, g) * P, Sum(rest) * g, q * g, Carrying(rest) * P, P,
                      Carrying(rest) > 0, q > 0);
      }
    }
  }

  lemma AddProduct(a: int, b: int, c: int, k: int)
    requires c == a + b
    ensures c * k == a * k + b * k
  {
  }

  // ---------------------------------------------------------------------------
  // From the coordinator's target down to the worker processes
  // ---------------------------------------------------------------------------

  lemma SplitSums(total: nat, weights: seq<int>, shares: seq<int>)
    requires Split(total, weights, shares) && TotalWeight(weights) > 0
    ensures Sum(shares) == total
    ensures forall i :: 0 <= i < |shares| ==> shares[i] >= 0
  {
    if total == 0 {
      SumOfZeros(shares);
    }
  }

  lemma PositiveWeights(weights: seq<int>)
    requires weights != [] && forall i :: 0 <= i < |weights| ==> weights[i] >= 1
    ensures TotalWeight(weights) > 0
  {
  }

  /** Worker quotas of the first `n` agents: each agent divides its share equally among its workers. */
  ghost function WorkerQuotas(shares: seq<int>, workers: seq<nat>, n: nat): (r: seq<nat>)
    requires |shares| == |workers| && n <= |shares|
    requires forall i :: 0 <= i < |shares| ==> shares[i] >= 0 && workers[i] > 0
  {
    if n == 0 then []
    else WorkerQuotas(shares, workers, n - 1) + Naturals(EqualShares(shares[n - 1], workers[n - 1]))
  }

  lemma {:induction false} SumAppend(a: seq<int>, b: seq<int>)
    ensures Sum(a + b) == Sum(a) + Sum(b)
  {
    if b == [] {
      assert a + b == a;
    } else {
      assert (a + b)[..|a + b| - 1] == a + b[..|b| - 1];
      SumAppend(a, b[..|b| - 1]);
    }
  }

  lemma {:induction false} WorkerQuotasSum(shares: seq<int>, workers: seq<nat>, n: nat)
    requires |shares| == |workers| && n <= |shares|
    requires forall i :: 0 <= i < |shares| ==> shares[i] >= 0 && workers[i] > 0
    ensures Sum(WorkerQuotas(shares, workers, n)) == Sum(shares[..n])
  {
    if n > 0 {
      WorkerQuotasSum(shares, workers, n - 1);
      EqualSharesSum(shares[n - 1], workers[n - 1]);
      SumAppend(WorkerQuotas(shares, workers, n - 1), EqualShares(shares[n - 1], workers[n - 1]));
      SumTake(shares, n - 1);
    }
  }

  lemma {:induction false} SomeCarries(quotas: seq<nat>)
    ensures Sum(quotas) > 0 ==> Carrying(quotas) > 0
  {
    if quotas != [] {
      SomeCarries(quotas[..|quotas| - 1]);
    }
  }

  /**
   The whole chain: a target split across agents by capacity and by each agent across its
   workers. Nothing is lost on the way down, at the profile's peak the worker processes
   together run exactly the target, and below it they track the curve.
   */
  lemma FleetFollowsProfile(target: nat, capacities: seq<int>, shares: seq<int>, workers: seq<nat>, P: nat, g: nat)
    requires capacities != [] && forall i :: 0 <= i < |capacities| ==> capacities[i] >= 1
    requires Split(target, capacities, shares) && |workers| == |shares|
    requires forall i :: 0 <= i < |workers| ==> workers[i] > 0
    requires P > 0 && g > 0
    ensures forall i :: 0 <= i < |shares| ==> shares[i] >= 0
    ensures var quotas := WorkerQuotas(shares, workers, |shares|);
      && Sum(quotas) == target
      && (g >= P ==> Fleet(quotas, P, g) == target)
      && (g < P ==> 2 * (target * g) - Carrying(quotas) * P <= 2 * (Fleet(quotas, P, g) * P))
      && (g < P ==> Fleet(quotas, P, g) * P <= target * g + Carrying(quotas) * P)
      && (g < P && target > 0 ==> Fleet(quotas, P, g) * P < target * g + Carrying(quotas) * P)
  {
    PositiveWeights(capacities);
    SplitSums(target, capacities, shares);
    WorkerQuotasSum(shares, workers, |shares|);
    assert shares[..|shares|] == shares;
    SomeCarries(WorkerQuotas(shares, workers, |shares|));
    FleetTracksCurve(WorkerQuotas(shares, workers, |shares|), P, g);
  }
}
