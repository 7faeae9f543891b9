/** The pool of virtual users: resized to follow the profile, scenario group by scenario group. */
module Pool {

  import opened Apportion

  /** A group's virtual users after resizing, with `next` the first id not given out yet. */
  function Resized(vus: seq<int>, want: nat, next: int): (r: seq<int>) {
    if |vus| < want then vus + seq(want - |vus|, k => next + k) else vus[..want]
  }

  function NextAfter(vus: seq<int>, want: nat, next: int): (r: int) {
    if |vus| < want then next + (want - |vus|) else next
  }

  /** The first id not given out once the first `n` groups have been resized. */
  function NextAt(groups: seq<seq<int>>, shares: seq<int>, next: int, n: nat): (r: int)
    requires n <= |groups| == |shares| && forall i :: 0 <= i < |shares| ==> shares[i] >= 0
  {
    if n == 0 then next
    else NextAfter(groups[n - 1], shares[n - 1], NextAt(groups, shares, next, n - 1))
  }

  /** All groups resized, one after the other. */
  function AllResized(groups: seq<seq<int>>, shares: seq<int>, next: int): (r: seq<seq<int>>)
    requires |groups| == |shares| && forall i :: 0 <= i < |shares| ==> shares[i] >= 0
  {
    seq(|groups|, i requires 0 <= i < |groups| => Resized(groups[i], shares[i], NextAt(groups, shares, next, i)))
  }

  ghost predicate Apart(groups: seq<seq<int>>, i: nat, k: nat, j: nat, l: nat)
    requires i < |groups| && k < |groups[i]| && j < |groups| && l < |groups[j]|
  {
    groups[i][k] == groups[j][l] ==> i == j && k == l
  }

  /** Every virtual user has an id given out before `next`, and no two have the same. */
  ghost predicate Numbered(groups: seq<seq<int>>, first: int, next: int) {
    && (forall i, k :: 0 <= i < |groups| && 0 <= k < |groups[i]| ==> first <= groups[i][k] < next)
    && (forall i, k, j, l :: 0 <= i < |groups| && 0 <= k < |groups[i]| && 0 <= j < |groups| && 0 <= l < |groups[j]|
          ==> Apart(groups, i, k, j, l))
  }

  lemma {:induction false} NextGrows(groups: seq<seq<int>>, shares: seq<int>, next: int, m: nat, n: nat)
    requires m <= n <= |groups| == |shares| && forall i :: 0 <= i < |shares| ==> shares[i] >= 0
    ensures NextAt(groups, shares, next, m) <= NextAt(groups, shares, next, n)
  {
    if m < n {
      NextGrows(groups, shares, next, m, n - 1);
    }
  }

  /** A virtual user after resizing is an old one in its old place, or has an id from its group's own new stretch. */
  lemma WhereFrom(groups: seq<seq<int>>, shares: seq<int>, next: int, i: nat, k: nat)
    requires |groups| == |shares| && forall j :: 0 <= j < |shares| ==> shares[j] >= 0
    requires i < |groups| && k < shares[i]
    ensures var r, a := AllResized(groups, shares, next), NextAt(groups, shares, next, i);
      && |r[i]| == shares[i]
      && r[i][k] == if k < |groups[i]| then groups[i][k] else a + (k - |groups[i]|)
    ensures k >= |groups[i]| ==>
      && next <= AllResized(groups, shares, next)[i][k] < NextAt(groups, shares, next, i + 1)
      && NextAt(groups, shares, next, i + 1) <= NextAt(groups, shares, next, |groups|)
  {
    NextGrows(groups, shares, next, 0, i);
    NextGrows(groups, shares, next, i + 1, |groups|);
  }

  /** Two new ids. */
  lemma NewApart(groups: seq<seq<int>>, shares: seq<int>, next: int, i: nat, k: nat, j: nat, l: nat)
    requires |groups| == |shares| && forall j :: 0 <= j < |shares| ==> shares[j] >= 0
    requires i < |groups| && |groups[i]| <= k < shares[i] && j < |groups| && |groups[j]| <= l < shares[j]
    ensures NextAt(groups, shares, next, i) + (k - |groups[i]|) == NextAt(groups, shares, next, j) + (l - |groups[j]|)
      ==> i == j && k == l
  {
    if i < j {
      NextGrows(groups, shares, next, i + 1, j);
    } else if j < i {
      NextGrows(groups, shares, next, j + 1, i);
    }
  }

  lemma StillApart(groups: seq<seq<int>>, shares: seq<int>, first: int, next: int, i: nat, k: nat, j: nat, l: nat)
    requires |groups| == |shares| && forall j :: 0 <= j < |shares| ==> shares[j] >= 0
    requires Numbered(groups, first, next)
    requires i < |groups| && k < shares[i] && j < |groups| && l < shares[j]
    ensures |AllResized(groups, shares, next)[i]| == shares[i] && |AllResized(groups, shares, next)[j]| == shares[j]
    ensures Apart(AllResized(groups, shares, next), i, k, j, l)
  {
    WhereFrom(groups, shares, next, i, k);
    WhereFrom(groups, shares, next, j, l);
    if k < |groups[i]| {
      if l < |groups[j]| {
        assert Apart(groups, i, k, j, l);
      }
    } else if l >= |groups[j]| {
      NewApart(groups, shares, next, i, k, j, l);
    }
  }

  /** Ids are never reused: after any resize all are still different, and the new ones are above every old one. */
  lemma ResizeNumbers(groups: seq<seq<int>>, shares: seq<int>, first: int, next: int)
    requires |groups| == |shares| && forall i :: 0 <= i < |shares| ==> shares[i] >= 0
    requires Numbered(groups, first, next) && first <= next
    ensures Numbered(AllResized(groups, shares, next), first, NextAt(groups, shares, next, |groups|))
    ensures next <= NextAt(groups, shares, next, |groups|)
  {
    var r, after := AllResized(groups, shares, next), NextAt(groups, shares, next, |groups|);
    NextGrows(groups, shares, next, 0, |groups|);
    forall i, k | 0 <= i < |r| && 0 <= k < |r[i]|
      ensures first <= r[i][k] < after
    {
      WhereFrom(groups, shares, next, i, k);
    }
    forall i, k, j, l | 0 <= i < |r| && 0 <= k < |r[i]| && 0 <= j < |r| && 0 <= l < |r[j]|
      ensures Apart(r, i, k, j, l)
    {
      StillApart(groups, shares, first, next, i, k, j, l);
    }
  }

  /** A pool in order: everyone numbered, and nobody in it who was ever asked to stop. */
  ghost predicate Pooled(groups: seq<seq<int>>, first: int, next: int, retired: set<int>) {
    && first <= next && Numbered(groups, first, next)
    && (forall id :: id in retired ==> first <= id < next)
    && (forall i, k :: 0 <= i < |groups| && 0 <= k < |groups[i]| ==> groups[i][k] !in retired)
  }

  /** Each group has its share, by only starting virtual users with new ids or only losing its latest. */
  ghost predicate Reshaped(before: seq<seq<int>>, after: seq<seq<int>>, shares: seq<int>, next: int) {
    && |before| == |after| == |shares|
    && (forall i :: 0 <= i < |after| ==> |after[i]| == shares[i] && GrowsOrShrinks(before[i], after[i]))
    && (forall i, k :: 0 <= i < |after| && |before[i]| <= k < |after[i]| ==> after[i][k] >= next)
  }

  /** Each group either only gains virtual users or only loses its latest; the others stay where they are. */
  ghost predicate GrowsOrShrinks(before: seq<int>, after: seq<int>) {
    before <= after || after <= before
  }

  ghost function Tail(vus: seq<int>, want: nat): (r: set<int>) {
    set k | want <= k < |vus| :: vus[k]
  }

  class Engine {
    const weights: seq<int>
    const base: int
    var groups: array<seq<int>>
    var nextVUID: int
    /** Every virtual user asked to stop so far. */
    ghost var retired: set<int>

    ghost predicate Valid()
      reads this, groups
    {
      groups.Length == |weights| && Pooled(groups[..], base, nextVUID, retired)
    }

    constructor (weights: seq<int>, base: int)
      ensures Valid() && this.weights == weights && this.base == base && nextVUID == base && fresh(groups)
      ensures forall i :: 0 <= i < groups.Length ==> groups[i] == []
    {
      this.weights, this.base := weights, base;
      groups := new seq<int>[|weights|](i => []);
      nextVUID, retired := base, {};
    }

    /** Launches one virtual user at the end of a group. */
    method StartVU(i: nat)
      requires i < groups.Length
      modifies this`nextVUID, groups
      ensures groups[..] == old(groups[..])[i := old(groups[i]) + [old(nextVUID)]] && nextVUID == old(nextVUID) + 1
    {
      var id := nextVUID;
      nextVUID := nextVUID + 1;
      groups[i] := groups[i] + [id];
    }

    method Grow(i: nat, want: nat)
      requires i < groups.Length && |groups[i]| <= want
      modifies this`nextVUID, groups
      ensures groups[..] == old(groups[..])[i := Resized(old(groups[i]), want, old(nextVUID))]
      ensures nextVUID == NextAfter(old(groups[i]), want, old(nextVUID))
    {
      ghost var vus, all := groups[i], groups[..];
      while |groups[i]| < want
        invariant |vus| <= |groups[i]| <= want
        invariant groups[i] == vus + seq(|groups[i]| - |vus|, k => old(nextVUID) + k)
        invariant nextVUID == old(nextVUID) + (|groups[i]| - |vus|)
        invariant groups[..] == all[i := groups[i]]
      {
        StartVU(i);
      }
    }

    method Shrink(i: nat, want: nat)
      requires i < groups.Length && want <= |groups[i]|
      modifies this`retired, groups
      ensures groups[..] == old(groups[..])[i := Resized(old(groups[i]), want, nextVUID)]
      ensures retired == old(retired) + Tail(old(groups[i]), want)
    {
      ghost var vus, all := groups[i], groups[..];
      while |groups[i]| > want
        invariant want <= |groups[i]| <= |vus| && groups[i] == vus[..|groups[i]|]
        invariant retired == old(retired) + Tail(vus, |groups[i]|)
        invariant groups[..] == all[i := groups[i]]
      {
        var last := |groups[i]| - 1;
        retired := retired + {groups[i][last]};
        groups[i] := groups[i][..last];
      }
    }

    /** Brings one group to its share: it starts virtual users or retires its latest, never both. */
    method ResizeGroup(i: nat, want: nat)
      requires i < groups.Length
      modifies this`nextVUID, this`retired, groups
      ensures groups[..] == old(groups[..])[i := Resized(old(groups[i]), want, old(nextVUID))]
      ensures nextVUID == NextAfter(old(groups[i]), want, old(nextVUID))
      ensures retired == old(retired) + Tail(old(groups[i]), want)
    {
      if |groups[i]| < want {
        Grow(i, want);
      } else {
        Shrink(i, want);
      }
    }

    /** Brings the groups to their shares, one after the other. */
    method ResizeAll(shares: seq<int>)
      requires |shares| == groups.Length && forall i :: 0 <= i < |shares| ==> shares[i] >= 0
      modifies this`nextVUID, this`retired, groups
      ensures groups[..] == AllResized(old(groups[..]), shares, old(nextVUID))
      ensures nextVUID == NextAt(old(groups[..]), shares, old(nextVUID), |shares|)
      ensures retired == old(retired) + Dropped(old(groups[..]), shares, |shares|)
    {
      ghost var before, next, gone := groups[..], nextVUID, retired;
      for i := 0 to groups.Length
        invariant Halfway(before, shares, next, gone, i)
      {
        ResizeNext(shares, i, before, next, gone);
      }
    }

    /** The first `i` groups have their shares. */
    ghost predicate Halfway(before: seq<seq<int>>, shares: seq<int>, next: int, gone: set<int>, i: nat)
      requires i <= |before| == |shares| && forall i :: 0 <= i < |shares| ==> shares[i] >= 0
      reads this, groups
    {
      && nextVUID == NextAt(before, shares, next, i)
      && groups[..] == Mixed(before, AllResized(before, shares, next), i)
      && retired == gone + Dropped(before, shares, i)
    }

    method ResizeNext(shares: seq<int>, i: nat, ghost before: seq<seq<int>>, ghost next: int, ghost gone: set<int>)
      requires |before| == |shares| == groups.Length && forall i :: 0 <= i < |shares| ==> shares[i] >= 0
      requires i < groups.Length && Halfway(before, shares, next, gone, i)
      modifies this`nextVUID, this`retired, groups
      ensures Halfway(before, shares, next, gone, i + 1)
    {
      ghost var after := AllResized(before, shares, next);
      MixedStep(before, after, i);
      ghost var now := groups[..];
      assert groups[i] == now[i] == before[i];
      ResizeGroup(i, shares[i]);
    }

    /** Brings the pool to the requested total, apportioned across the groups by weight. */
    method Resize(total: int) returns (ghost shares: seq<int>)
      requires Valid()
      modifies this`nextVUID, this`retired, groups
      ensures Valid()
      ensures Split(if total < 0 then 0 else total, weights, shares) && |shares| == groups.Length
      ensures Reshaped(old(groups[..]), groups[..], shares, old(nextVUID))
      ensures nextVUID >= old(nextVUID) && old(retired) <= retired
    {
      var wanted := Largest(if total < 0 then 0 else total, weights);
      shares := wanted;
      SharesNatural(if total < 0 then 0 else total, weights, wanted);
      ResizeKeeps(groups[..], wanted, base, nextVUID, retired);
      ResizeAll(wanted);
    }
  }

  /** The first `i` groups resized, the others still to come. */
  ghost function Mixed(before: seq<seq<int>>, after: seq<seq<int>>, i: nat): (r: seq<seq<int>>)
    requires i <= |before| == |after|
    ensures |r| == |before| && (i == 0 ==> r == before) && (i == |after| ==> r == after)
  {
    after[..i] + before[i..]
  }

  lemma MixedStep(before: seq<seq<int>>, after: seq<seq<int>>, i: nat)
    requires i < |before| == |after|
    ensures Mixed(before, after, i)[i] == before[i]
    ensures Mixed(before, after, i)[i := after[i]] == Mixed(before, after, i + 1)
  {
  }

  /** The virtual users in the tails of the first `n` groups, beyond their shares. */
  ghost function Dropped(groups: seq<seq<int>>, shares: seq<int>, n: nat): (r: set<int>)
    requires n <= |groups| == |shares| && forall i :: 0 <= i < |shares| ==> shares[i] >= 0
  {
    if n == 0 then {}
    else Dropped(groups, shares, n - 1) + Tail(groups[n - 1], shares[n - 1])
  }

  /** An id that is not in any tail is not dropped. */
  lemma {:induction false} NotDropped(groups: seq<seq<int>>, shares: seq<int>, n: nat, id: int)
    requires n <= |groups| == |shares| && forall i :: 0 <= i < |shares| ==> shares[i] >= 0
    requires forall j, l :: 0 <= j < |groups| && shares[j] <= l < |groups[j]| ==> groups[j][l] != id
    ensures id !in Dropped(groups, shares, n)
  {
    if n > 0 {
      NotDropped(groups, shares, n - 1, id);
    }
  }

  lemma {:induction false} DroppedInRange(groups: seq<seq<int>>, shares: seq<int>, n: nat, first: int, next: int)
    requires n <= |groups| == |shares| && forall i :: 0 <= i < |shares| ==> shares[i] >= 0
    requires Numbered(groups, first, next)
    ensures forall id :: id in Dropped(groups, shares, n) ==> first <= id < next
  {
    if n > 0 {
      DroppedInRange(groups, shares, n - 1, first, next);
    }
  }

  /** Whoever is in the pool after a resize was not in a tail. */
  lemma NotInATail(groups: seq<seq<int>>, shares: seq<int>, first: int, next: int, i: nat, k: nat)
    requires |groups| == |shares| && forall j :: 0 <= j < |shares| ==> shares[j] >= 0
    requires Numbered(groups, first, next) && i < |groups| && k < shares[i]
    ensures |AllResized(groups, shares, next)[i]| == shares[i]
    ensures AllResized(groups, shares, next)[i][k] !in Dropped(groups, shares, |groups|)
  {
    WhereFrom(groups, shares, next, i, k);
    var id := AllResized(groups, shares, next)[i][k];
    forall j, l | 0 <= j < |groups| && shares[j] <= l < |groups[j]|
      ensures groups[j][l] != id
    {
      assert k < |groups[i]| ==> Apart(groups, i, k, j, l);
    }
    NotDropped(groups, shares, |groups|, id);
  }

  /** A resize keeps the pool in order and gives each group its share. */
  lemma ResizeKeeps(groups: seq<seq<int>>, shares: seq<int>, first: int, next: int, retired: set<int>)
    requires |groups| == |shares| && forall i :: 0 <= i < |shares| ==> shares[i] >= 0
    requires Pooled(groups, first, next, retired)
    ensures var r, after := AllResized(groups, shares, next), NextAt(groups, shares, next, |groups|);
      && Pooled(r, first, after, retired + Dropped(groups, shares, |groups|))
      && Reshaped(groups, r, shares, next) && after >= next
  {
    var r := AllResized(groups, shares, next);
    ResizeNumbers(groups, shares, first, next);
    DroppedInRange(groups, shares, |groups|, first, next);
    forall i, k | 0 <= i < |r| && 0 <= k < |r[i]|
      ensures r[i][k] !in retired + Dropped(groups, shares, |groups|) && (k >= |groups[i]| ==> r[i][k] >= next)
    {
      WhereFrom(groups, shares, next, i, k);
      NotInATail(groups, shares, first, next, i, k);
    }
  }

  lemma SharesNatural(total: nat, weights: seq<int>, shares: seq<int>)
    requires Split(total, weights, shares)
    ensures forall i :: 0 <= i < |shares| ==> shares[i] >= 0
  {
  }
}
