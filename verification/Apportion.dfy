/**
 Largest-remainder apportionment: dividing whole units across weighted claimants.

 `Largest` is the routine of internal/apportion. `Split` says what a correct answer is;
 the lemmas say what that buys: nothing lost, floor or ceiling everywhere, monotone in
 the weights, unique, and no integer split of the same total is closer to proportional.
 */
module Apportion {

  /** A claimant with a non-positive weight claims nothing. */
  function Claimed(w: int): (r: nat) {
    if w > 0 then w else 0
  }

  function TotalWeight(weights: seq<int>): (r: nat) {
    if weights == [] then 0
    else TotalWeight(weights[..|weights| - 1]) + Claimed(weights[|weights| - 1])
  }

  /** How many iterations are split: at most 2^31 of them. */
  function Capped(iterations: nat): (r: nat)
    ensures r == iterations <==> iterations <= 0x8000_0000
    ensures r <= 0x8000_0000
  {
    if iterations < 0x8000_0000 then iterations else 0x8000_0000
  }

  function Sum(s: seq<int>): (r: int) {
    if s == [] then 0 else Sum(s[..|s| - 1]) + s[|s| - 1]
  }

  // Division by repeated subtraction: the proofs below never meet division by a variable.

  function Quotient(e: nat, W: nat): (r: nat)
    requires W > 0
  {
    if e < W then 0 else 1 + Quotient(e - W, W)
  }

  function Residue(e: nat, W: nat): (r: nat)
    requires W > 0
    ensures r < W
  {
    if e < W then e else Residue(e - W, W)
  }

  lemma {:induction false} LongDivision(e: nat, W: nat)
    requires W > 0
    ensures e == Quotient(e, W) * W + Residue(e, W)
  {
    if e >= W {
      LongDivision(e - W, W);
      SuccMul(Quotient(e - W, W), W);
    }
  }

  lemma IsDivMod(e: nat, W: nat)
    requires W > 0
    ensures Quotient(e, W) == e / W && Residue(e, W) == e % W
  {
    LongDivision(e, W);
    DivisionUnique(Quotient(e, W), Residue(e, W), e / W, e % W, W);
  }

  lemma DivisionUnique(q: int, r: int, q': int, r': int, W: int)
    requires 0 <= r < W && 0 <= r' < W && q * W + r == q' * W + r'
    ensures q == q' && r == r'
  {
    QuotientMono(q, r, q', r', W);
    QuotientMono(q', r', q, r, W);
  }

  function Floor(total: nat, weight: int, totalWeight: nat): (r: nat)
    requires totalWeight > 0
  {
    Quotient(total * Claimed(weight), totalWeight)
  }

  function Remainder(total: nat, weight: int, totalWeight: nat): (r: nat)
    requires totalWeight > 0
    ensures r < totalWeight
  {
    Residue(total * Claimed(weight), totalWeight)
  }

  /** Claimant `i` is served before claimant `j`: larger discarded fraction, then lower index. */
  predicate Before(total: nat, weights: seq<int>, i: nat, j: nat)
    requires i < |weights| && j < |weights| && TotalWeight(weights) > 0
  {
    var W := TotalWeight(weights);
    var ri, rj := Remainder(total, weights[i], W), Remainder(total, weights[j], W);
    ri > rj || (ri == rj && i < j)
  }

  /** The claimants that receive one unit on top of the floor of their exact share. */
  ghost predicate Extra(total: nat, weights: seq<int>, shares: seq<int>, i: nat)
    requires |shares| == |weights| && i < |weights| && TotalWeight(weights) > 0
  {
    shares[i] == Floor(total, weights[i], TotalWeight(weights)) + 1
  }

  /** What the largest-remainder method promises of its result. */
  ghost predicate Split(total: int, weights: seq<int>, shares: seq<int>) {
    && |shares| == |weights|
    && if total <= 0 || TotalWeight(weights) == 0 then
         forall i :: 0 <= i < |shares| ==> shares[i] == 0
       else
         var W := TotalWeight(weights);
         && Sum(shares) == total
         && (forall i :: 0 <= i < |shares| && weights[i] <= 0 ==> shares[i] == 0)
         && (forall i :: 0 <= i < |shares| ==>
               shares[i] == Floor(total, weights[i], W) || Extra(total, weights, shares, i))
         && (forall i, j | 0 <= i < |shares| && 0 <= j < |shares| && weights[i] > 0 && weights[j] > 0
               && Extra(total, weights, shares, i) && !Extra(total, weights, shares, j) ::
               Before(total, weights, i, j))
  }

  // ---------------------------------------------------------------------------
  // Integer arithmetic used below
  // ---------------------------------------------------------------------------

  lemma SuccMul(f: int, W: int)
    ensures (f + 1) * W == f * W + W
  {
  }

  lemma Carry(granted: int, granted': int, remainders: int, floor: int, rem: int, W: int,
              total: int, weight: int, weight': int, w: int)
    requires granted * W + remainders == total * weight
    requires total * w == floor * W + rem
    requires granted' == granted + floor && weight' == weight + w
    ensures granted' * W + (remainders + rem) == total * weight'
  {
  }

  lemma MulMono(t: int, a: int, b: int)
    requires a <= b && t >= 0
    ensures t * a <= t * b
  {
    assert t * (b - a) >= 0;
  }

  /** Division with remainder, one claimant at a time. */
  lemma Exact(total: nat, w: int, W: nat)
    requires W > 0
    ensures total * Claimed(w) == Floor(total, w, W) * W + Remainder(total, w, W)
    ensures w <= 0 ==> Floor(total, w, W) == 0 && Remainder(total, w, W) == 0
  {
    LongDivision(total * Claimed(w), W);
  }

  lemma NearExact(f: int, rem: int, W: int, share: int)
    requires 0 <= rem < W
    requires share == f || (share == f + 1 && rem > 0)
    ensures (share - 1) * W < f * W + rem < (share + 1) * W
  {
    SuccMul(share, W);
    SuccMul(share - 1, W);
  }

  lemma QuotientMono(qa: int, ra: int, qb: int, rb: int, W: int)
    requires 0 <= ra < W && 0 <= rb < W
    requires qa * W + ra <= qb * W + rb
    ensures qa <= qb
  {
    if qa > qb {
      MulMono(W, qb + 1, qa);
      assert false;
    }
  }

  /** Moving a rounded-down share by k. */
  lemma KeepGap(W: int, rem: int, theta: int, k: int)
    requires 0 <= rem <= theta <= W
    ensures Abs(k * W - rem) - rem >= (W - 2 * theta) * k
  {
    assert (W - 2 * theta) * k == k * W - 2 * (theta * k);
    if k >= 1 {
      MulMono(theta, 1, k);
    } else {
      MulMono(W - theta, 0, -k);
      MulMono(W, 0, -k);
      assert (W - theta) * -k == theta * k - k * W;
    }
  }

  /** Moving a rounded-up share by k. */
  lemma ExtraGap(W: int, rem: int, theta: int, k: int)
    requires 0 <= theta <= rem < W
    ensures Abs(k * W + W - rem) - (W - rem) >= (W - 2 * theta) * k
  {
    assert (W - 2 * theta) * k == k * W - 2 * (theta * k);
    if k >= 0 {
      MulMono(theta, 0, k);
      MulMono(W, 0, k);
    } else {
      MulMono(W - theta, 0, -k - 1);
      MulMono(W, 1, -k);
      assert (W - theta) * (-k - 1) == theta * k - k * W - W + theta;
    }
  }

  /** Convexity: moving one share by k costs at least (W - 2 theta) * k. */
  lemma DistanceGap(W: int, f: int, rem: int, theta: int, mine: int, other: int)
    requires 0 <= rem < W && 0 <= theta <= W
    requires (mine == f && rem <= theta) || (mine == f + 1 && rem >= theta)
    ensures Abs(other * W - (f * W + rem)) - Abs(mine * W - (f * W + rem)) >= (W - 2 * theta) * (other - mine)
  {
    var k := other - mine;
    if mine == f + 1 {
      assert other * W - (f * W + rem) == k * W + W - rem;
      assert (f + 1) * W - (f * W + rem) == W - rem;
      ExtraGap(W, rem, theta, k);
    } else {
      assert other * W - (f * W + rem) == k * W - rem;
      KeepGap(W, rem, theta, k);
    }
  }

  function Abs(x: int): (r: nat) {
    if x < 0 then -x else x
  }

  // ---------------------------------------------------------------------------
  // The algorithm
  // ---------------------------------------------------------------------------

  datatype Claim = Claim(index: nat, remainder: nat)

  predicate ClaimBefore(a: Claim, b: Claim) {
    a.remainder > b.remainder || (a.remainder == b.remainder && a.index < b.index)
  }

  ghost predicate Distinct(claims: seq<Claim>) {
    forall i, j :: 0 <= i < j < |claims| ==> claims[i].index != claims[j].index
  }

  ghost predicate Ordered(claims: seq<Claim>) {
    forall i, j :: 0 <= i < j < |claims| ==> ClaimBefore(claims[i], claims[j])
  }

  function Insert(c: Claim, s: seq<Claim>): (r: seq<Claim>)
    requires Ordered(s) && forall k :: 0 <= k < |s| ==> s[k].index != c.index
    ensures multiset(r) == multiset(s) + multiset{c}
    ensures |r| == |s| + 1 && Ordered(r)
    ensures forall k :: 0 <= k < |r| ==> r[k] == c || r[k] in s
  {
    if s == [] then [c]
    else if ClaimBefore(c, s[0]) then [c] + s
    else
      var rest := Insert(c, s[1..]);
      assert s == [s[0]] + s[1..];
      assert forall k :: 0 <= k < |rest| ==> ClaimBefore(s[0], rest[k]);
      [s[0]] + rest
  }

  /** Stands for the library's stable sort: an ordered arrangement of the same claims. */
  method SortClaims(claims: seq<Claim>) returns (sorted: seq<Claim>)
    requires Distinct(claims)
    ensures multiset(sorted) == multiset(claims)
    ensures |sorted| == |claims|
    ensures Ordered(sorted)
  {
    sorted := [];
    for n := 0 to |claims|
      invariant multiset(sorted) == multiset(claims[..n])
      invariant |sorted| == n && Ordered(sorted)
      invariant forall k :: 0 <= k < |sorted| ==> sorted[k] in claims[..n]
    {
      assert claims[..n + 1] == claims[..n] + [claims[n]];
      sorted := Insert(claims[n], sorted);
    }
    assert claims[..|claims|] == claims;
  }

  lemma {:induction false} SumUpdate(s: seq<int>, i: nat, v: int)
    requires i < |s|
    ensures Sum(s[i := v]) == Sum(s) - s[i] + v
  {
    if i < |s| - 1 {
      SumUpdate(s[..|s| - 1], i, v);
      assert s[i := v][..|s| - 1] == s[..|s| - 1][i := v];
    } else {
      assert s[i := v][..|s| - 1] == s[..|s| - 1];
    }
  }

  ghost function RemainderSum(claims: seq<Claim>): (r: nat) {
    if claims == [] then 0 else RemainderSum(claims[..|claims| - 1]) + claims[|claims| - 1].remainder
  }

  lemma {:induction false} RemainderSumBound(claims: seq<Claim>, W: nat)
    requires forall k :: 0 <= k < |claims| ==> claims[k].remainder < W
    ensures claims != [] ==> RemainderSum(claims) < W * |claims|
    ensures claims == [] ==> RemainderSum(claims) == 0
  {
    if |claims| > 1 {
      RemainderSumBound(claims[..|claims| - 1], W);
    }
  }

  /** Shares after the rounding-down pass has reached the first `n` claimants. */
  ghost function Floors(total: nat, weights: seq<int>, W: nat, n: nat): (r: seq<int>)
    requires n <= |weights| && W > 0
  {
    seq(|weights|, i requires 0 <= i < |weights| => if i < n then Floor(total, weights[i], W) else 0)
  }

  /** The claims that pass has noted: one for each of the first `n` claimants that weighs anything. */
  ghost function Claims(total: nat, weights: seq<int>, W: nat, n: nat): (r: seq<Claim>)
    requires n <= |weights| && W > 0
    ensures Distinct(r)
    ensures forall k | 0 <= k < |r| ::
      r[k].index < n && weights[r[k].index] > 0 && r[k].remainder == Remainder(total, weights[r[k].index], W)
  {
    if n == 0 then []
    else Claims(total, weights, W, n - 1)
         + if weights[n - 1] > 0 then [Claim(n - 1, Remainder(total, weights[n - 1], W))] else []
  }

  lemma {:induction false} ClaimsComplete(total: nat, weights: seq<int>, W: nat, n: nat, i: nat)
    requires n <= |weights| && W > 0 && i < n && weights[i] > 0
    ensures Claim(i, Remainder(total, weights[i], W)) in Claims(total, weights, W, n)
  {
    if i < n - 1 {
      ClaimsComplete(total, weights, W, n - 1, i);
    }
  }

  lemma {:induction false} NextFloor(total: nat, weights: seq<int>, W: nat, n: nat)
    requires n < |weights| && W > 0
    ensures Floors(total, weights, W, n + 1) == Floors(total, weights, W, n)[n := Floor(total, weights[n], W)]
    ensures Sum(Floors(total, weights, W, n + 1)) == Sum(Floors(total, weights, W, n)) + Floor(total, weights[n], W)
  {
    SumUpdate(Floors(total, weights, W, n), n, Floor(total, weights[n], W));
  }

  lemma {:induction false} NextClaims(total: nat, weights: seq<int>, W: nat, n: nat)
    requires n < |weights| && W > 0
    ensures RemainderSum(Claims(total, weights, W, n + 1))
         == RemainderSum(Claims(total, weights, W, n)) + Remainder(total, weights[n], W)
  {
    var c := Claims(total, weights, W, n + 1);
    if weights[n] > 0 {
      assert c[..|c| - 1] == Claims(total, weights, W, n);
    } else {
      assert c == Claims(total, weights, W, n);
      Exact(total, weights[n], W);
    }
  }

  /** Floors and discarded remainders together make up the exact shares. */
  lemma {:induction false} Balance(total: nat, weights: seq<int>, W: nat, n: nat)
    requires n <= |weights| && W > 0
    ensures Sum(Floors(total, weights, W, n)) * W + RemainderSum(Claims(total, weights, W, n))
         == total * TotalWeight(weights[..n])
  {
    if n == 0 {
      SumOfZeros(Floors(total, weights, W, 0));
    } else {
      var i := n - 1;
      Balance(total, weights, W, i);
      NextFloor(total, weights, W, i);
      NextClaims(total, weights, W, i);
      WeightTake(weights, i);
      Exact(total, weights[i], W);
      Carry(Sum(Floors(total, weights, W, i)), Sum(Floors(total, weights, W, n)),
            RemainderSum(Claims(total, weights, W, i)), Floor(total, weights[i], W), Remainder(total, weights[i], W), W,
            total, TotalWeight(weights[..i]), TotalWeight(weights[..n]), Claimed(weights[i]));
    }
  }

  lemma {:induction false} SumOfZeros(s: seq<int>)
    requires forall i :: 0 <= i < |s| ==> s[i] == 0
    ensures Sum(s) == 0
  {
    if s != [] {
      SumOfZeros(s[..|s| - 1]);
    }
  }

  /** First pass: everyone gets the floor; what rounding discarded is noted as a claim. */
  method RoundDown(total: int, weights: seq<int>, totalWeight: int, shares: array<int>)
    returns (claims: seq<Claim>, granted: int)
    requires shares.Length == |weights| && total > 0 && totalWeight > 0
    requires forall k :: 0 <= k < |weights| ==> shares[k] == 0
    modifies shares
    ensures shares[..] == Floors(total, weights, totalWeight, |weights|)
    ensures claims == Claims(total, weights, totalWeight, |weights|)
    ensures granted == Sum(shares[..])
  {
    claims := [];
    granted := 0;
    SumOfZeros(shares[..]);
    for i := 0 to |weights|
      invariant shares[..] == Floors(total, weights, totalWeight, i)
      invariant claims == Claims(total, weights, totalWeight, i)
      invariant granted == Sum(shares[..])
    {
      var w := weights[i];
      NextFloor(total, weights, totalWeight, i);
      if w <= 0 {
        Exact(total, w, totalWeight);
        assert Floors(total, weights, totalWeight, i)[i] == 0;
        continue;
      }
      var exact := total * w;
      IsDivMod(exact, totalWeight);
      shares[i] := exact / totalWeight;
      granted := granted + shares[i];
      claims := claims + [Claim(i, exact % totalWeight)];
    }
  }

  /** Shares once the first `n` claims in order have been given one more unit. */
  ghost function Awarded(shares: seq<int>, sorted: seq<Claim>, n: nat): (r: seq<int>)
    requires n <= |sorted| && forall k :: 0 <= k < |sorted| ==> sorted[k].index < |shares|
    ensures |r| == |shares|
  {
    if n == 0 then shares
    else
      var s, i := Awarded(shares, sorted, n - 1), sorted[n - 1].index;
      s[i := s[i] + 1]
  }

  lemma {:induction false} AwardedAt(shares: seq<int>, sorted: seq<Claim>, n: nat, i: nat)
    requires n <= |sorted| && forall k :: 0 <= k < |sorted| ==> sorted[k].index < |shares|
    requires Distinct(sorted) && i < |shares|
    ensures Awarded(shares, sorted, n)[i] == shares[i]
         || Awarded(shares, sorted, n)[i] == shares[i] + 1
    ensures Awarded(shares, sorted, n)[i] != shares[i] <==> exists p :: 0 <= p < n && sorted[p].index == i
    ensures Sum(Awarded(shares, sorted, n)) == Sum(shares) + n
  {
    if n > 0 {
      AwardedAt(shares, sorted, n - 1, i);
      var s, k := Awarded(shares, sorted, n - 1), sorted[n - 1].index;
      SumUpdate(s, k, s[k] + 1);
      assert k == i ==> !exists p :: 0 <= p < n - 1 && sorted[p].index == i;
    }
  }

  /** Second pass: the units left over go to the claimants served first. */
  method Award(shares: array<int>, sorted: seq<Claim>, leftover: nat)
    requires forall k :: 0 <= k < |sorted| ==> sorted[k].index < shares.Length
    requires leftover <= |sorted|
    modifies shares
    ensures shares[..] == Awarded(old(shares[..]), sorted, leftover)
  {
    var i := 0;
    while i < leftover && i < |sorted|
      invariant 0 <= i <= leftover
      invariant shares[..] == Awarded(old(shares[..]), sorted, i)
    {
      var k := sorted[i].index;
      ghost var before := shares[..];
      shares[k] := shares[k] + 1;
      assert shares[..] == before[k := before[k] + 1];
      i := i + 1;
    }
  }

  /** Floors plus one for the first claims in order is a split. */
  lemma AwardedIsSplit(total: nat, weights: seq<int>, sorted: seq<Claim>, n: nat)
    requires total > 0 && TotalWeight(weights) > 0 && n <= |sorted| && Ordered(sorted) && Distinct(sorted)
    requires forall c :: c in sorted <==> c in Claims(total, weights, TotalWeight(weights), |weights|)
    requires Sum(Floors(total, weights, TotalWeight(weights), |weights|)) + n == total
    ensures forall k :: 0 <= k < |sorted| ==> sorted[k].index < |weights|
    ensures Split(total, weights, Awarded(Floors(total, weights, TotalWeight(weights), |weights|), sorted, n))
  {
    var W := TotalWeight(weights);
    var claims, floors := Claims(total, weights, W, |weights|), Floors(total, weights, W, |weights|);
    assert forall k :: 0 <= k < |sorted| ==> sorted[k] in claims;
    var shares := Awarded(floors, sorted, n);
    if weights != [] {
      AwardedAt(floors, sorted, n, 0);
    }
    forall i | 0 <= i < |weights|
      ensures shares[i] == floors[i] || Extra(total, weights, shares, i)
      ensures weights[i] <= 0 ==> shares[i] == 0
    {
      AwardedAt(floors, sorted, n, i);
      Exact(total, weights[i], W);
    }
    forall i, j | 0 <= i < |weights| && 0 <= j < |weights| && weights[i] > 0 && weights[j] > 0
                  && Extra(total, weights, shares, i) && !Extra(total, weights, shares, j)
      ensures Before(total, weights, i, j)
    {
      ServedFirst(total, weights, W, sorted, n, i, j);
    }
  }

  lemma ServedFirst(total: nat, weights: seq<int>, W: nat, sorted: seq<Claim>, n: nat, i: nat, j: nat)
    requires W > 0 && n <= |sorted| && Ordered(sorted) && Distinct(sorted)
    requires forall c :: c in sorted <==> c in Claims(total, weights, W, |weights|)
    requires forall k :: 0 <= k < |sorted| ==> sorted[k].index < |weights|
    requires i < |weights| && j < |weights| && weights[i] > 0 && weights[j] > 0
    requires Awarded(Floors(total, weights, W, |weights|), sorted, n)[i] != Floor(total, weights[i], W)
    requires Awarded(Floors(total, weights, W, |weights|), sorted, n)[j] == Floor(total, weights[j], W)
    ensures var ri, rj := Remainder(total, weights[i], W), Remainder(total, weights[j], W);
      ri > rj || (ri == rj && i < j)
  {
    var floors := Floors(total, weights, W, |weights|);
    AwardedAt(floors, sorted, n, i);
    AwardedAt(floors, sorted, n, j);
    var p :| 0 <= p < n && sorted[p].index == i;
    assert sorted[p] in Claims(total, weights, W, |weights|);
    ClaimsComplete(total, weights, W, |weights|, j);
    var q :| 0 <= q < |sorted| && sorted[q] == Claim(j, Remainder(total, weights[j], W));
    assert ClaimBefore(sorted[p], sorted[q]);
  }

  method Largest(total: int, weights: seq<int>) returns (r: seq<int>)
    ensures Split(total, weights, r)
  {
    var shares := new int[|weights|](_ => 0);
    if total <= 0 || |weights| == 0 {
      return shares[..];
    }

    var totalWeight := 0;
    for i := 0 to |weights|
      invariant totalWeight == TotalWeight(weights[..i])
      invariant forall k :: 0 <= k < |weights| ==> shares[k] == 0
    {
      WeightTake(weights, i);
      if weights[i] > 0 {
        totalWeight := totalWeight + weights[i];
      }
    }
    assert weights[..|weights|] == weights;
    if totalWeight == 0 {
      return shares[..];
    }

    var claims, granted := RoundDown(total, weights, totalWeight, shares);
    LeftoverFits(total, weights, totalWeight);
    var leftover := total - granted;
    if leftover <= 0 {
      FloorsAreSplit(total, weights);
      return shares[..];
    }
    var sorted := SortClaims(claims);
    SameClaims(claims, sorted);
    AwardedIsSplit(total, weights, sorted, leftover);
    Award(shares, sorted, leftover);
    r := shares[..];
  }

  lemma WeightTake(weights: seq<int>, i: nat)
    requires i < |weights|
    ensures TotalWeight(weights[..i + 1]) == TotalWeight(weights[..i]) + Claimed(weights[i])
  {
    assert weights[..i + 1][..i] == weights[..i];
  }

  lemma SameClaims(claims: seq<Claim>, sorted: seq<Claim>)
    requires multiset(sorted) == multiset(claims) && Ordered(sorted) && Distinct(claims)
    ensures forall c :: c in sorted <==> c in claims
    ensures Distinct(sorted)
  {
    assert forall c :: c in claims <==> c in multiset(claims);
    assert forall c :: c in sorted <==> c in multiset(sorted);
    forall i, j | 0 <= i < j < |sorted|
      ensures sorted[i].index != sorted[j].index
    {
      assert ClaimBefore(sorted[i], sorted[j]);
      assert sorted[i] in claims && sorted[j] in claims;
    }
  }

  /** The units left over by rounding down never outnumber the claimants. */
  lemma LeftoverFits(total: nat, weights: seq<int>, W: nat)
    requires W == TotalWeight(weights) > 0
    ensures 0 <= total - Sum(Floors(total, weights, W, |weights|)) <= |Claims(total, weights, W, |weights|)|
  {
    var claims := Claims(total, weights, W, |weights|);
    Balance(total, weights, W, |weights|);
    assert weights[..|weights|] == weights;
    RemainderSumBound(claims, W);
    LeftoverBound(total, Sum(Floors(total, weights, W, |weights|)), W, RemainderSum(claims), |claims|);
  }

  lemma FloorsAreSplit(total: nat, weights: seq<int>)
    requires total > 0 && TotalWeight(weights) > 0
    requires Sum(Floors(total, weights, TotalWeight(weights), |weights|)) == total
    ensures Split(total, weights, Floors(total, weights, TotalWeight(weights), |weights|))
  {
    forall i | 0 <= i < |weights|
      ensures weights[i] <= 0 ==> Floor(total, weights[i], TotalWeight(weights)) == 0
    {
      Exact(total, weights[i], TotalWeight(weights));
    }
  }

  lemma LeftoverBound(total: int, granted: int, W: int, remainders: int, claims: nat)
    requires W > 0 && granted * W + remainders == total * W
    requires claims > 0 ==> 0 <= remainders < W * claims
    requires claims == 0 ==> remainders == 0
    ensures 0 <= total - granted <= claims
  {
    if total < granted {
      MulMono(W, total + 1, granted);
      assert false;
    }
    if total - granted > claims {
      MulMono(W, claims + 1, total - granted);
      assert false;
    }
  }

  /** internal/apportion's Equal: unit weights for everyone, nothing for nobody. */
  method Equal(total: int, n: int) returns (r: seq<int>)
    ensures n <= 0 ==> r == []
    ensures n > 0 && total >= 0 ==> r == EqualShares(total, n)
    ensures n > 0 && total < 0 ==> r == seq(n, i => 0)
  {
    if n <= 0 {
      return [];
    }
    var weights := seq(n, i => 1);
    r := Largest(total, weights);
    if total >= 0 {
      EqualSplit(total, n, r);
    }
  }

  // ---------------------------------------------------------------------------
  // What a split guarantees
  // ---------------------------------------------------------------------------

  /** Twice-scaled signed distance of a share from the exact proportional one. */
  ghost function Excess(total: nat, weights: seq<int>, shares: seq<int>, n: nat): (r: int)
    requires n <= |weights| == |shares|
  {
    if n == 0 then 0
    else Excess(total, weights, shares, n - 1)
         + (shares[n - 1] * TotalWeight(weights) - total * Claimed(weights[n - 1]))
  }

  lemma {:induction false} ExcessClosed(total: nat, weights: seq<int>, shares: seq<int>, n: nat)
    requires n <= |weights| == |shares|
    ensures Excess(total, weights, shares, n)
         == Sum(shares[..n]) * TotalWeight(weights) - total * TotalWeight(weights[..n])
  {
    if n > 0 {
      ExcessClosed(total, weights, shares, n - 1);
      assert shares[..n][..n - 1] == shares[..n - 1] && weights[..n][..n - 1] == weights[..n - 1];
      ExcessStep(Sum(shares[..n - 1]), shares[n - 1], TotalWeight(weights[..n - 1]), Claimed(weights[n - 1]),
                 TotalWeight(weights), total);
    }
  }

  lemma ExcessStep(a: int, s: int, b: int, w: int, W: int, total: int)
    ensures a * W - total * b + (s * W - total * w) == (a + s) * W - total * (b + w)
  {
    assert (a + s) * W == a * W + s * W;
    assert total * (b + w) == total * b + total * w;
  }

  lemma ExcessIsZero(total: nat, weights: seq<int>, shares: seq<int>)
    requires |weights| == |shares| && Sum(shares) == total
    ensures Excess(total, weights, shares, |weights|) == 0
  {
    ExcessClosed(total, weights, shares, |weights|);
    assert shares[..|shares|] == shares && weights[..|weights|] == weights;
  }

  lemma {:induction false} ExcessPositive(total: nat, weights: seq<int>, shares: seq<int>, n: nat, i: nat)
    requires i < |weights| == |shares| && n <= |weights|
    requires forall k :: 0 <= k < |weights| ==>
      shares[k] * TotalWeight(weights) - total * Claimed(weights[k]) >= 0
    requires shares[i] * TotalWeight(weights) - total * Claimed(weights[i]) > 0
    ensures Excess(total, weights, shares, n) >= 0
    ensures i < n ==> Excess(total, weights, shares, n) > 0
  {
    if n > 0 {
      ExcessPositive(total, weights, shares, n - 1, i);
    }
  }

  /** Every share is the floor or the ceiling of the exact proportional share. */
  lemma {:induction false} FloorOrCeiling(total: nat, weights: seq<int>, shares: seq<int>, i: nat)
    requires Split(total, weights, shares) && i < |weights| && TotalWeight(weights) > 0
    ensures (shares[i] - 1) * TotalWeight(weights) < total * Claimed(weights[i])
    ensures total * Claimed(weights[i]) < (shares[i] + 1) * TotalWeight(weights)
  {
    var W := TotalWeight(weights);
    var rem := Remainder(total, weights[i], W);
    Exact(total, weights[i], W);
    if total == 0 {
      ZeroShare(weights[i], W);
    } else if rem == 0 {
      NoExtraWithoutRemainder(total, weights, shares, i);
    }
    NearExact(Floor(total, weights[i], W), rem, W, shares[i]);
  }

  lemma ZeroShare(w: int, W: nat)
    requires W > 0
    ensures Floor(0, w, W) == 0 && Remainder(0, w, W) == 0
  {
  }

  lemma NoExtraWithoutRemainder(total: nat, weights: seq<int>, shares: seq<int>, i: nat)
    requires Split(total, weights, shares) && i < |weights| && TotalWeight(weights) > 0 && total > 0
    requires Remainder(total, weights[i], TotalWeight(weights)) == 0
    ensures !Extra(total, weights, shares, i)
  {
    var W := TotalWeight(weights);
    if Extra(total, weights, shares, i) {
      forall k | 0 <= k < |weights|
        ensures shares[k] * W - total * Claimed(weights[k]) >= if k == i then 1 else 0
      {
        Exact(total, weights[k], W);
        var fk := Floor(total, weights[k], W);
        SuccMul(fk, W);
        if weights[k] > 0 && !Extra(total, weights, shares, k) {
          Exact(total, weights[i], W);
          assert Before(total, weights, i, k);
        }
      }
      ExcessPositive(total, weights, shares, |weights|, i);
      ExcessIsZero(total, weights, shares);
      assert false;
    }
  }

  /** A larger weight, or an equal one at a lower index, never receives less. */
  lemma Monotone(total: int, weights: seq<int>, shares: seq<int>, i: nat, j: nat)
    requires Split(total, weights, shares) && i < |weights| && j < |weights|
    requires weights[i] > weights[j] || (weights[i] == weights[j] && i <= j)
    ensures shares[i] >= shares[j]
  {
    var W := TotalWeight(weights);
    if total > 0 && W > 0 && weights[j] > 0 && i != j {
      FloorMonotone(total, weights[i], weights[j], W);
      if Extra(total, weights, shares, j) && !Extra(total, weights, shares, i)
         && Floor(total, weights[i], W) == Floor(total, weights[j], W) {
        assert false;
      }
    }
  }

  lemma FloorMonotone(total: nat, a: int, b: int, W: nat)
    requires W > 0 && total > 0 && a >= b > 0
    ensures Floor(total, a, W) >= Floor(total, b, W)
    ensures a > b && Floor(total, a, W) == Floor(total, b, W) ==> Remainder(total, a, W) > Remainder(total, b, W)
  {
    Exact(total, a, W);
    Exact(total, b, W);
    MulMono(total, b, a);
    QuotientMono(Floor(total, b, W), Remainder(total, b, W), Floor(total, a, W), Remainder(total, a, W), W);
    if a > b {
      MulMono(total, b + 1, a);
    }
  }

  /** Distance from proportional, scaled by the total weight to stay in the integers. */
  ghost function Distance(total: nat, weights: seq<int>, shares: seq<int>, i: nat): (r: nat)
    requires i < |weights| == |shares|
  {
    Abs(shares[i] * TotalWeight(weights) - total * Claimed(weights[i]))
  }

  ghost function Cost(total: nat, weights: seq<int>, shares: seq<int>, n: nat): (r: nat)
    requires n <= |weights| == |shares|
  {
    if n == 0 then 0 else Cost(total, weights, shares, n - 1) + Distance(total, weights, shares, n - 1)
  }

  /** Among all integer ways of dividing the total, none is closer to proportional. */
  lemma Optimal(total: nat, weights: seq<int>, shares: seq<int>, other: seq<int>)
    requires Split(total, weights, shares)
    requires |other| == |weights| && Sum(other) == total
    ensures Cost(total, weights, shares, |weights|) <= Cost(total, weights, other, |weights|)
  {
    var W: int := TotalWeight(weights);
    if total == 0 || W == 0 {
      CostOfZeros(total, weights, shares, |weights|);
    } else {
      var theta := Threshold(total, weights, shares);
      assert shares[..|shares|] == shares && other[..|other|] == other;
      CostGap(total, weights, shares, other, theta, |weights|);
      NoGap(W - 2 * theta, Sum(other[..|weights|]), Sum(shares[..|weights|]));
    }
  }

  lemma {:induction false} CostOfZeros(total: nat, weights: seq<int>, shares: seq<int>, n: nat)
    requires n <= |weights| == |shares| && (total == 0 || TotalWeight(weights) == 0)
    requires forall i :: 0 <= i < |shares| ==> shares[i] == 0
    ensures Cost(total, weights, shares, n) == 0
  {
    if n > 0 {
      CostOfZeros(total, weights, shares, n - 1);
      if total != 0 { NoWeight(weights, n - 1); }
      assert total * Claimed(weights[n - 1]) == 0;
      assert shares[n - 1] * TotalWeight(weights) == 0;
    }
  }

  lemma {:induction false} NoWeight(weights: seq<int>, i: nat)
    requires i < |weights| && TotalWeight(weights) == 0
    ensures Claimed(weights[i]) == 0
  {
    if i < |weights| - 1 {
      NoWeight(weights[..|weights| - 1], i);
    }
  }

  /** A remainder level separating the claimants that got an extra unit from the others. */
  ghost predicate Separates(total: nat, weights: seq<int>, shares: seq<int>, theta: nat, i: nat)
    requires i < |weights| == |shares| && TotalWeight(weights) > 0
  {
    var rem := Remainder(total, weights[i], TotalWeight(weights));
    if Extra(total, weights, shares, i) then rem >= theta else rem <= theta
  }

  lemma Threshold(total: nat, weights: seq<int>, shares: seq<int>) returns (theta: nat)
    requires Split(total, weights, shares) && total > 0 && TotalWeight(weights) > 0
    ensures theta <= TotalWeight(weights)
    ensures forall i :: 0 <= i < |weights| ==> Separates(total, weights, shares, theta, i)
  {
    var W := TotalWeight(weights);
    theta := W;
    var arg := -1;
    for n := 0 to |weights|
      invariant arg == -1 ==> theta == W && forall k :: 0 <= k < n ==> !Extra(total, weights, shares, k)
      invariant arg != -1 ==> 0 <= arg < |weights| && Extra(total, weights, shares, arg)
                              && theta == Remainder(total, weights[arg], W)
      invariant forall k :: 0 <= k < n && Extra(total, weights, shares, k) ==>
        Remainder(total, weights[k], W) >= theta
    {
      if Extra(total, weights, shares, n) && Remainder(total, weights[n], W) < theta {
        theta, arg := Remainder(total, weights[n], W), n;
      }
    }
    forall i | 0 <= i < |weights|
      ensures Separates(total, weights, shares, theta, i)
    {
      if !Extra(total, weights, shares, i) && arg != -1 {
        if weights[i] <= 0 {
          assert total * Claimed(weights[i]) == 0;
        } else {
          assert weights[arg] > 0;
          assert Before(total, weights, arg, i);
        }
      }
    }
  }

  lemma {:induction false} CostGap(total: nat, weights: seq<int>, shares: seq<int>, other: seq<int>, theta: nat, n: nat)
    requires Split(total, weights, shares) && total > 0 && TotalWeight(weights) > 0
    requires |other| == |weights| && n <= |weights| && theta <= TotalWeight(weights)
    requires forall i :: 0 <= i < |weights| ==> Separates(total, weights, shares, theta, i)
    ensures Cost(total, weights, other, n) - Cost(total, weights, shares, n)
         >= (TotalWeight(weights) - 2 * theta) * (Sum(other[..n]) - Sum(shares[..n]))
  {
    if n > 0 {
      var i := n - 1;
      CostGap(total, weights, shares, other, theta, i);
      OneGap(total, weights, shares, other, theta, i);
      SumTake(shares, i);
      SumTake(other, i);
      Distribute(TotalWeight(weights) - 2 * theta, Sum(other[..i]) - Sum(shares[..i]), other[i] - shares[i]);
    }
  }

  lemma NoGap(m: int, a: int, b: int)
    requires a == b
    ensures m * (a - b) == 0
  {
  }

  lemma Distribute(m: int, a: int, b: int)
    ensures m * (a + b) == m * a + m * b
  {
  }

  lemma SumTake(s: seq<int>, i: nat)
    requires i < |s|
    ensures Sum(s[..i + 1]) == Sum(s[..i]) + s[i]
  {
    assert s[..i + 1][..i] == s[..i];
  }

  lemma OneGap(total: nat, weights: seq<int>, shares: seq<int>, other: seq<int>, theta: nat, i: nat)
    requires Split(total, weights, shares) && total > 0 && TotalWeight(weights) > 0
    requires |other| == |weights| && i < |weights| && theta <= TotalWeight(weights)
    requires Separates(total, weights, shares, theta, i)
    ensures Distance(total, weights, other, i) - Distance(total, weights, shares, i)
         >= (TotalWeight(weights) - 2 * theta) * (other[i] - shares[i])
  {
    var W := TotalWeight(weights);
    Exact(total, weights[i], W);
    DistanceGap(W, Floor(total, weights[i], W), Remainder(total, weights[i], W), theta, shares[i], other[i]);
  }

  /** What a unit more for `i` and none for `j` says about their order. */
  lemma ServedInOrder(total: int, weights: seq<int>, shares: seq<int>, i: nat, j: nat)
    requires Split(total, weights, shares) && total > 0 && TotalWeight(weights) > 0 && i < |shares| && j < |shares|
    ensures Extra(total, weights, shares, i) && !Extra(total, weights, shares, j) && weights[i] > 0 && weights[j] > 0
      ==> Before(total, weights, i, j)
    ensures !Extra(total, weights, shares, i) ==> shares[i] == Floor(total, weights[i], TotalWeight(weights))
    ensures weights[i] <= 0 ==> shares[i] == 0
  {
  }

  /** Two splits cannot each favour a claimant over the other split. */
  lemma NoCrossing(total: int, weights: seq<int>, a: seq<int>, b: seq<int>, i: nat, j: nat)
    requires Split(total, weights, a) && Split(total, weights, b) && total > 0 && TotalWeight(weights) > 0
    requires i < |a| && j < |a|
    ensures !(a[i] > b[i] && b[j] > a[j])
  {
    ServedInOrder(total, weights, a, i, j);
    ServedInOrder(total, weights, b, i, j);
    ServedInOrder(total, weights, a, j, i);
    ServedInOrder(total, weights, b, j, i);
  }

  /** A split that is nowhere more than another is the same. */
  lemma {:induction false} SumsForce(a: seq<int>, b: seq<int>)
    requires |a| == |b| && Sum(a) == Sum(b) && forall j :: 0 <= j < |a| ==> a[j] <= b[j]
    ensures a == b
  {
    forall i: nat | i < |a|
      ensures a[i] == b[i]
    {
      if a[i] < b[i] {
        SumStrict(a, b, i);
      }
    }
  }

  /** The rule leaves no freedom, so two nodes apportioning the same total always agree. */
  lemma Unique(total: int, weights: seq<int>, a: seq<int>, b: seq<int>)
    requires Split(total, weights, a) && Split(total, weights, b)
    ensures a == b
  {
    if total > 0 && TotalWeight(weights) > 0 {
      forall i: nat, j: nat | i < |a| && j < |a|
        ensures !(a[i] > b[i] && b[j] > a[j])
      {
        NoCrossing(total, weights, a, b, i, j);
      }
      if forall j :: 0 <= j < |a| ==> a[j] <= b[j] {
        SumsForce(a, b);
      } else {
        SumsForce(b, a);
      }
    }
  }

  lemma {:induction false} SumStrict(a: seq<int>, b: seq<int>, i: nat)
    requires |a| == |b| && i < |a| && a[i] < b[i]
    requires forall j :: 0 <= j < |a| ==> a[j] <= b[j]
    ensures Sum(a) < Sum(b)
  {
    var n := |a| - 1;
    if i < n {
      SumStrict(a[..n], b[..n], i);
    } else {
      SumMono(a[..n], b[..n]);
    }
  }

  lemma {:induction false} SumMono(a: seq<int>, b: seq<int>)
    requires |a| == |b|
    requires forall j :: 0 <= j < |a| ==> a[j] <= b[j]
    ensures Sum(a) <= Sum(b)
  {
    if a != [] {
      SumMono(a[..|a| - 1], b[..|b| - 1]);
    }
  }

  // ---------------------------------------------------------------------------
  // Equal weights in closed form
  // ---------------------------------------------------------------------------

  /** Every claimant gets the quotient and the first few get one more. */
  function EqualShares(total: nat, n: nat): (r: seq<int>)
    requires n > 0
    ensures |r| == n
  {
    seq(n, i => total / n + if i < total % n then 1 else 0)
  }

  lemma {:induction false} UnitWeights(weights: seq<int>)
    requires forall i :: 0 <= i < |weights| ==> weights[i] == 1
    ensures TotalWeight(weights) == |weights|
  {
    if weights != [] {
      UnitWeights(weights[..|weights| - 1]);
    }
  }

  lemma {:induction false} SumOfStep(q: int, k: nat, s: seq<int>)
    requires forall i :: 0 <= i < |s| ==> s[i] == q + if i < k then 1 else 0
    ensures Sum(s) == q * |s| + if |s| < k then |s| else k
  {
    if s != [] {
      SumOfStep(q, k, s[..|s| - 1]);
      assert q * |s| == q * (|s| - 1) + q;
    }
  }

  lemma EqualSharesSplit(total: nat, n: nat, weights: seq<int>)
    requires n > 0 && total > 0 && weights == seq(n, i => 1) && TotalWeight(weights) == n
    requires Sum(EqualShares(total, n)) == total
    requires forall i :: 0 <= i < n ==> Floor(total, weights[i], n) == total / n
    ensures Split(total, weights, EqualShares(total, n))
  {
    var mine := EqualShares(total, n);
    forall i, j | 0 <= i < n && 0 <= j < n && Extra(total, weights, mine, i) && !Extra(total, weights, mine, j)
      ensures Before(total, weights, i, j)
    {
      assert i < total % n <= j;
    }
  }

  lemma EqualSharesSum(total: nat, n: nat)
    requires n > 0
    ensures Sum(EqualShares(total, n)) == total
  {
    SumOfStep(total / n, total % n, EqualShares(total, n));
    LongDivision(total, n);
    IsDivMod(total, n);
  }

  /** Unit weights: the largest-remainder split is the quotient, plus one for the lowest indices. */
  lemma EqualSplit(total: nat, n: nat, shares: seq<int>)
    requires n > 0 && Split(total, seq(n, i => 1), shares)
    ensures shares == EqualShares(total, n)
    ensures Sum(shares) == total
  {
    var weights := seq(n, i => 1);
    UnitWeights(weights);
    var mine := EqualShares(total, n);
    EqualSharesSum(total, n);
    LongDivision(total, n);
    IsDivMod(total, n);
    forall i | 0 <= i < n
      ensures Floor(total, weights[i], n) == total / n
    {
      assert total * Claimed(weights[i]) == total;
    }
    if total > 0 {
      EqualSharesSplit(total, n, weights);
      Unique(total, weights, shares, mine);
    }
  }

  /** An equal split leaves nobody with nothing exactly when there is at least one unit each. */
  lemma EqualReachesAllIff(total: nat, n: nat)
    requires n > 0
    ensures (forall i :: 0 <= i < n ==> EqualShares(total, n)[i] >= 1) <==> total >= n
  {
    var q, r := total / n, total % n;
    assert total == q * n + r;
    if q >= 1 {
      MulMono(n, 1, q);
      assert EqualShares(total, n)[n - 1] >= 1;
    } else {
      assert EqualShares(total, n)[n - 1] == 0;
    }
  }

  // ---------------------------------------------------------------------------
  // Who gets nothing of a weighted split
  // ---------------------------------------------------------------------------

  /** How many of the first `n` claimants are served before claimant `j`. */
  ghost function Rank(total: nat, weights: seq<int>, j: nat, n: nat): (r: nat)
    requires n <= |weights| && j < |weights| && TotalWeight(weights) > 0
  {
    if n == 0 then 0
    else Rank(total, weights, j, n - 1) + if weights[n - 1] > 0 && Before(total, weights, n - 1, j) then 1 else 0
  }

  /** How many of the first `n` claimants receive a unit on top of their floor. */
  ghost function Served(total: nat, weights: seq<int>, shares: seq<int>, n: nat): (r: nat)
    requires n <= |weights| == |shares| && TotalWeight(weights) > 0
  {
    if n == 0 then 0
    else Served(total, weights, shares, n - 1) + if Extra(total, weights, shares, n - 1) then 1 else 0
  }

  /** The units left over once everyone has the floor of the exact share. */
  ghost function Leftover(total: nat, weights: seq<int>): (r: int)
    requires TotalWeight(weights) > 0
  {
    total - Sum(Floors(total, weights, TotalWeight(weights), |weights|))
  }

  lemma {:induction false} ServedSum(total: nat, weights: seq<int>, shares: seq<int>, n: nat)
    requires Split(total, weights, shares) && total > 0 && TotalWeight(weights) > 0 && n <= |weights|
    ensures Sum(shares[..n]) == Sum(Floors(total, weights, TotalWeight(weights), n)) + Served(total, weights, shares, n)
  {
    var W := TotalWeight(weights);
    if n == 0 {
      SumOfZeros(Floors(total, weights, W, 0));
    } else {
      ServedSum(total, weights, shares, n - 1);
      SumTake(shares, n - 1);
      NextFloor(total, weights, W, n - 1);
      ServedInOrder(total, weights, shares, n - 1, n - 1);
    }
  }

  /** Exactly the units left over are served. */
  lemma ServedIsLeftover(total: nat, weights: seq<int>, shares: seq<int>)
    requires Split(total, weights, shares) && total > 0 && TotalWeight(weights) > 0
    ensures Served(total, weights, shares, |weights|) == Leftover(total, weights)
  {
    ServedSum(total, weights, shares, |weights|);
    assert shares[..|weights|] == shares;
  }

  lemma WeightlessUnserved(total: nat, weights: seq<int>, shares: seq<int>, i: nat)
    requires Split(total, weights, shares) && total > 0 && TotalWeight(weights) > 0 && i < |weights| && weights[i] <= 0
    ensures !Extra(total, weights, shares, i)
  {
  }

  /** If `j` is not served, everyone served comes before it; */
  lemma {:induction false} ServedBefore(total: nat, weights: seq<int>, shares: seq<int>, j: nat, n: nat)
    requires Split(total, weights, shares) && total > 0 && TotalWeight(weights) > 0 && n <= |weights|
    requires j < |weights| && weights[j] > 0 && !Extra(total, weights, shares, j)
    ensures Served(total, weights, shares, n) <= Rank(total, weights, j, n)
  {
    if n > 0 {
      ServedBefore(total, weights, shares, j, n - 1);
      ServedInOrder(total, weights, shares, n - 1, j);
      if weights[n - 1] <= 0 {
        WeightlessUnserved(total, weights, shares, n - 1);
      }
    }
  }

  /** if it is, everyone who comes before it is served too. */
  lemma {:induction false} BeforeServed(total: nat, weights: seq<int>, shares: seq<int>, j: nat, n: nat)
    requires Split(total, weights, shares) && total > 0 && TotalWeight(weights) > 0 && n <= |weights|
    requires j < |weights| && weights[j] > 0 && Extra(total, weights, shares, j)
    ensures Rank(total, weights, j, n) + (if j < n then 1 else 0) <= Served(total, weights, shares, n)
  {
    if n > 0 {
      BeforeServed(total, weights, shares, j, n - 1);
      ServedInOrder(total, weights, shares, j, n - 1);
    }
  }

  /** A claimant gets a unit on top of its floor exactly when fewer than the units left over are served before it. */
  lemma ServedIff(total: nat, weights: seq<int>, shares: seq<int>, j: nat)
    requires Split(total, weights, shares) && total > 0 && TotalWeight(weights) > 0
    requires j < |weights| && weights[j] > 0
    ensures Extra(total, weights, shares, j) <==> Rank(total, weights, j, |weights|) < Leftover(total, weights)
  {
    ServedIsLeftover(total, weights, shares);
    if Extra(total, weights, shares, j) {
      BeforeServed(total, weights, shares, j, |weights|);
    } else {
      ServedBefore(total, weights, shares, j, |weights|);
    }
  }

  /** The last of the claimants with the least positive weight. */
  ghost predicate LastOfLeast(weights: seq<int>, j: nat) {
    && j < |weights| && weights[j] > 0
    && forall i :: 0 <= i < |weights| && weights[i] > 0 ==>
         weights[i] > weights[j] || (weights[i] == weights[j] && i <= j)
  }

  lemma {:induction false} SomeLastOfLeast(weights: seq<int>) returns (j: nat)
    requires TotalWeight(weights) > 0
    ensures LastOfLeast(weights, j)
  {
    var n := |weights| - 1;
    if TotalWeight(weights[..n]) == 0 {
      forall i | 0 <= i < n
        ensures weights[i] <= 0
      {
        NoWeight(weights[..n], i);
      }
      j := n;
    } else {
      j := SomeLastOfLeast(weights[..n]);
      if 0 < weights[n] <= weights[j] {
        j := n;
      }
    }
  }

  /**
   A weighted split leaves nobody who weighs anything with nothing exactly when its last and lightest claimant gets
   something: its exact share is at least one, or fewer than the units left over are served before it.
   */
  lemma NobodyGetsNothingIff(total: nat, weights: seq<int>, shares: seq<int>, j: nat)
    requires Split(total, weights, shares) && total > 0 && LastOfLeast(weights, j) && TotalWeight(weights) > 0
    ensures (forall i :: 0 <= i < |weights| && weights[i] > 0 ==> shares[i] >= 1)
      <==> total * weights[j] >= TotalWeight(weights) || Rank(total, weights, j, |weights|) < Leftover(total, weights)
  {
    ServedIff(total, weights, shares, j);
    ServedInOrder(total, weights, shares, j, j);
    assert Floor(total, weights[j], TotalWeight(weights)) >= 1 <==> total * Claimed(weights[j]) >= TotalWeight(weights);
    forall i | 0 <= i < |weights| && weights[i] > 0
      ensures shares[i] >= shares[j]
    {
      Monotone(total, weights, shares, i, j);
    }
  }

  /** Enough units for everyone are not enough: two units over capacities of one hundred and one all go to the first. */
  lemma OneNodeTakesAll(shares: seq<int>)
    requires Split(2, [100, 1], shares)
    ensures shares == [2, 0]
  {
    var weights := [100, 1];
    assert weights[..1] == [100] && [100][..0] == [];
    assert TotalWeight([100]) == 100;
    assert TotalWeight(weights) == 101;
    assert Quotient(200, 101) == 1 && Residue(200, 101) == 99 && Quotient(2, 101) == 0 && Residue(2, 101) == 2;
    assert Floor(2, weights[0], 101) == 1 && Floor(2, weights[1], 101) == 0;
    assert shares[..1] == [shares[0]] && [shares[0]][..0] == [];
    assert Sum([shares[0]]) == shares[0];
    assert Sum(shares) == shares[0] + shares[1];
    ServedInOrder(2, weights, shares, 1, 0);
  }
}
