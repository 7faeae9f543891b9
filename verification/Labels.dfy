/**
 Metric tags: an immutable set of key/value pairs, flattened and sorted by key.

 The slice k0,v0,k1,v1,... is edited in place while it is built; the value that comes
 out is canonical, so equal pairs and equal maps are the same thing.
 */
module Labels {

  // ---------------------------------------------------------------------------
  // String order
  // ---------------------------------------------------------------------------

  predicate Less(a: string, b: string) {
    b != [] && (a == [] || a[0] < b[0] || (a[0] == b[0] && Less(a[1..], b[1..])))
  }

  lemma {:induction false} LessTotal(a: string, b: string)
    ensures !(Less(a, b) && Less(b, a))
    ensures a != b ==> Less(a, b) || Less(b, a)
    ensures !Less(a, a)
  {
    if a != [] {
      LessTotal(a[1..], a[1..]);
      if b != [] {
        LessTotal(a[1..], b[1..]);
        if a[0] == b[0] {
          assert a == [a[0]] + a[1..] && b == [b[0]] + b[1..];
        }
      }
    }
  }

  lemma {:induction false} LessTransitive(a: string, b: string, c: string)
    requires Less(a, b) && Less(b, c)
    ensures Less(a, c)
  {
    if a != [] && a[0] == b[0] && b[0] == c[0] {
      LessTransitive(a[1..], b[1..], c[1..]);
    }
  }

  // ---------------------------------------------------------------------------
  // Flattened pairs
  // ---------------------------------------------------------------------------

  predicate Even(p: seq<string>) {
    |p| % 2 == 0
  }

  function Key(p: seq<string>, x: nat): (r: string)
    requires 2 * x < |p|
  {
    p[2 * x]
  }

  function Value(p: seq<string>, x: nat): (r: string)
    requires 2 * x + 1 < |p|
  {
    p[2 * x + 1]
  }

  /** Pairs `x` and `y` in key order. */
  ghost predicate InOrder(p: seq<string>, x: nat, y: nat)
    requires 2 * x < |p| && 2 * y < |p|
  {
    Less(Key(p, x), Key(p, y))
  }

  /** Strictly ascending keys. */
  ghost predicate Ascending(p: seq<string>) {
    forall x, y :: 0 <= x < y && 2 * y < |p| ==> InOrder(p, x, y)
  }

  ghost predicate Canonical(p: seq<string>) {
    Even(p) && Ascending(p)
  }

  ghost predicate HasKey(p: seq<string>, x: nat, k: string) {
    2 * x + 1 < |p| && p[2 * x] == k
  }

  /** The pairs hold exactly the entries of `m`, each key once, in whatever order. */
  ghost predicate Represents(p: seq<string>, m: map<string, string>) {
    && Even(p)
    && (forall x, y :: 0 <= x < y && 2 * y < |p| ==> Key(p, x) != Key(p, y))
    && (forall x :: 0 <= x && 2 * x < |p| ==> Key(p, x) in m && m[Key(p, x)] == Value(p, x))
    && (forall k :: k in m ==> exists x: nat :: HasKey(p, x, k))
  }

  /** Later writes win: the entries of `kv` written over `m` from left to right. */
  function Overlay(m: map<string, string>, kv: seq<string>): (r: map<string, string>)
    requires Even(kv)
  {
    if kv == [] then m else Overlay(m, kv[..|kv| - 2])[kv[|kv| - 2] := kv[|kv| - 1]]
  }

  /** Pair `x` is the last one with this key. */
  ghost predicate LastWith(kv: seq<string>, x: nat, k: string) {
    HasKey(kv, x, k) && forall y: nat :: x < y ==> !HasKey(kv, y, k)
  }

  /** A tag written has the value it was last written with; the others stay as they were. */
  lemma {:induction false} LastWriteWins(m: map<string, string>, kv: seq<string>, k: string)
    requires Even(kv)
    ensures var r := Overlay(m, kv);
      && (forall x: nat :: LastWith(kv, x, k) ==> k in r && r[k] == Value(kv, x))
      && ((forall x: nat :: !HasKey(kv, x, k)) ==> (k in r <==> k in m) && (k in r ==> r[k] == m[k]))
  {
    if kv != [] {
      var n := |kv| - 2;
      var rest := kv[..n];
      LastWriteWins(m, rest, k);
      assert forall x: nat :: 2 * x < n ==> (HasKey(rest, x, k) <==> HasKey(kv, x, k));
      assert HasKey(kv, n / 2, k) <==> kv[n] == k;
      forall x: nat | LastWith(kv, x, k)
        ensures k in Overlay(m, kv) && Overlay(m, kv)[k] == Value(kv, x)
      {
        if 2 * x < n {
          assert LastWith(rest, x, k) by {
            forall y: nat | x < y
              ensures !HasKey(rest, y, k)
            {
              assert !HasKey(kv, y, k);
            }
          }
          assert !HasKey(kv, n / 2, k);
        }
      }
      if forall x: nat :: !HasKey(kv, x, k) {
        forall x: nat
          ensures !HasKey(rest, x, k)
        {
          assert !HasKey(kv, x, k);
        }
      }
    }
  }

  lemma {:induction false} OverlayRepresents(p: seq<string>, m: map<string, string>)
    requires Represents(p, m)
    ensures Overlay(map[], p) == m
  {
    if p == [] {
      assert m == map[];
    } else {
      var n, k := |p| - 2, p[|p| - 2];
      var rest, q := m - {k}, p[..n];
      assert Key(p, n / 2) == k;
      forall x: nat | 2 * x < |q|
        ensures Key(q, x) in rest && rest[Key(q, x)] == Value(q, x)
      {
        assert Key(q, x) == Key(p, x) && Value(q, x) == Value(p, x);
      }
      forall x, y | 0 <= x < y && 2 * y < |q|
        ensures Key(q, x) != Key(q, y)
      {
        assert Key(q, x) == Key(p, x) && Key(q, y) == Key(p, y);
      }
      forall j | j in rest
        ensures exists x: nat :: HasKey(q, x, j)
      {
        var x: nat :| HasKey(p, x, j);
        assert HasKey(q, x, j);
      }
      OverlayRepresents(q, rest);
      assert m == rest[k := p[n + 1]];
    }
  }

  /** Canonical pairs with the same entries are the same pairs. */
  lemma {:induction false} CanonicalUnique(p: seq<string>, q: seq<string>, m: map<string, string>)
    requires Canonical(p) && Canonical(q) && Represents(p, m) && Represents(q, m)
    ensures p == q
  {
    SameFrom(p, q, m, 0);
  }

  /** Walking both from the front, the next key of each is the least one left. */
  lemma {:induction false} SameFrom(p: seq<string>, q: seq<string>, m: map<string, string>, x: nat)
    requires Canonical(p) && Canonical(q) && Represents(p, m) && Represents(q, m)
    requires 2 * x <= |p| && 2 * x <= |q| && p[..2 * x] == q[..2 * x]
    ensures p == q
    decreases |p| - 2 * x
  {
    if 2 * x < |p| {
      var y := Matching(p, q, m, x);
      var z := Matching(q, p, m, x);
      if y != x || z != x {
        assert InOrder(q, x, y) || x == y;
        assert InOrder(p, x, z) || x == z;
        LessTotal(Key(p, x), Key(q, x));
        assert false;
      }
      assert Key(p, x) == Key(q, x) && Value(p, x) == Value(q, x);
      assert p[..2 * (x + 1)] == p[..2 * x] + [Key(p, x), Value(p, x)];
      assert q[..2 * (x + 1)] == q[..2 * x] + [Key(q, x), Value(q, x)];
      SameFrom(p, q, m, x + 1);
    } else if 2 * x < |q| {
      var z := Matching(q, p, m, x);
      assert false;
    }
  }

  /** Where `p`'s key number `x` is found in `q`, given that both agree before `x`. */
  lemma Matching(p: seq<string>, q: seq<string>, m: map<string, string>, x: nat) returns (y: nat)
    requires Canonical(p) && Canonical(q) && Represents(p, m) && Represents(q, m)
    requires 2 * x < |p| && 2 * x <= |q| && p[..2 * x] == q[..2 * x]
    ensures x <= y && 2 * y < |q| && Key(q, y) == Key(p, x)
  {
    y :| HasKey(q, y, Key(p, x));
    assert Key(q, y) == Key(p, x);
    forall z: nat | z < x
      ensures Key(q, z) != Key(p, x)
    {
      assert Key(q, z) == q[..2 * x][2 * z] == Key(p, z);
    }
  }

  // ---------------------------------------------------------------------------
  // Building
  // ---------------------------------------------------------------------------

  lemma ReplaceRepresents(p: seq<string>, m: map<string, string>, x: nat, v: string)
    requires Represents(p, m) && 2 * x < |p|
    ensures Represents(p[2 * x + 1 := v], m[p[2 * x] := v])
  {
    var q, n := p[2 * x + 1 := v], m[p[2 * x] := v];
    forall y: nat | 2 * y < |q|
      ensures Key(q, y) == Key(p, y) && Key(q, y) in n && n[Key(q, y)] == Value(q, y)
    {
      assert y != x ==> Key(p, y) != Key(p, x);
    }
    forall k | k in n
      ensures exists y: nat :: HasKey(q, y, k)
    {
      if k == p[2 * x] {
        assert HasKey(q, x, k);
      } else {
        var y: nat :| HasKey(p, y, k);
        assert HasKey(q, y, k);
      }
    }
  }

  lemma AppendRepresents(p: seq<string>, m: map<string, string>, k: string, v: string)
    requires Represents(p, m) && k !in m
    ensures Represents(p + [k, v], m[k := v])
  {
    var q, n := p + [k, v], m[k := v];
    forall y: nat | 2 * y < |q|
      ensures Key(q, y) in n && n[Key(q, y)] == Value(q, y)
      ensures 2 * y < |p| ==> Key(q, y) == Key(p, y)
    {
      if 2 * y < |p| {
        assert Key(q, y) == Key(p, y) && Value(q, y) == Value(p, y);
      }
    }
    forall x, y | 0 <= x < y && 2 * y < |q|
      ensures Key(q, x) != Key(q, y)
    {
      assert Key(q, x) == Key(p, x);
    }
    forall j | j in n
      ensures exists y: nat :: HasKey(q, y, j)
    {
      if j == k {
        assert HasKey(q, |p| / 2, k);
      } else {
        var y: nat :| HasKey(p, y, j);
        assert HasKey(q, y, j);
      }
    }
  }

  /** Overwrites the value of key `k` in place, reporting whether the key was there. */
  method ReplacePair(pairs: array<string>, n: nat, k: string, v: string, ghost m: map<string, string>)
    returns (replaced: bool)
    requires n <= pairs.Length && Represents(pairs[..n], m)
    modifies pairs
    ensures replaced <==> k in m
    ensures replaced ==> Represents(pairs[..n], m[k := v])
    ensures !replaced ==> pairs[..] == old(pairs[..])
  {
    ghost var before := pairs[..n];
    var i := 0;
    while i < n
      invariant i % 2 == 0 && pairs[..] == old(pairs[..])
      invariant forall x: nat :: 2 * x < i ==> !HasKey(before, x, k)
    {
      if pairs[i] == k {
        assert Key(before, i / 2) == k;
        ReplaceRepresents(before, m, i / 2, v);
        pairs[i + 1] := v;
        assert pairs[..n] == before[i + 1 := v];
        return true;
      }
      i := i + 2;
    }
    return false;
  }

  /** Exchanging two neighbouring pairs keeps the entries. */
  lemma SwapRepresents(p: seq<string>, q: seq<string>, m: map<string, string>, x: nat)
    requires Represents(p, m) && 2 * x + 3 < |p| && |q| == |p|
    requires q == p[2 * x := p[2 * x + 2]][2 * x + 1 := p[2 * x + 3]][2 * x + 2 := p[2 * x]][2 * x + 3 := p[2 * x + 1]]
    ensures Represents(q, m)
  {
    forall y: nat | 2 * y < |q|
      ensures Key(q, y) == Key(p, Swapped(x, y)) && Value(q, y) == Value(p, Swapped(x, y))
    {
    }
    forall y, z | 0 <= y < z && 2 * z < |q|
      ensures Key(q, y) != Key(q, z)
    {
      assert Swapped(x, y) != Swapped(x, z);
      assert Key(p, Swapped(x, y)) != Key(p, Swapped(x, z));
    }
    forall k | k in m
      ensures exists y: nat :: HasKey(q, y, k)
    {
      var y: nat :| HasKey(p, y, k);
      assert HasKey(q, Swapped(x, y), k);
    }
  }

  function Swapped(x: nat, y: nat): (r: nat) {
    if y == x then x + 1 else if y == x + 1 then x else y
  }

  /** `p` with pair `x` overwritten: the array while that pair is held out of it. */
  function Fill(p: seq<string>, x: nat, k: string, v: string): (r: seq<string>)
    requires 2 * x + 1 < |p|
    ensures |r| == |p|
  {
    p[2 * x := k][2 * x + 1 := v]
  }

  /** The first `n` pairs except number `hole` ascend, and those after the hole exceed `k`. */
  ghost predicate SortedAround(p: seq<string>, n: nat, hole: nat, k: string)
    requires 2 * n <= |p|
  {
    && (forall x, y :: 0 <= x < y < n && x != hole && y != hole ==> InOrder(p, x, y))
    && (forall y :: hole < y < n ==> Less(k, Key(p, y)))
  }

  lemma ShiftSorted(p: seq<string>, q: seq<string>, n: nat, hole: nat, k: string)
    requires 2 * n <= |p| == |q| && 0 < hole < n && SortedAround(p, n, hole, k)
    requires Less(k, Key(p, hole - 1))
    requires q == Fill(p, hole, p[2 * hole - 2], p[2 * hole - 1])
    ensures SortedAround(q, n, hole - 1, k)
  {
    forall x, y | 0 <= x < y < n && x != hole - 1 && y != hole - 1
      ensures InOrder(q, x, y)
    {
      var x', y' := if x == hole then hole - 1 else x, if y == hole then hole - 1 else y;
      assert Key(q, x) == Key(p, x') && Key(q, y) == Key(p, y');
      assert InOrder(p, x', y');
    }
    forall y | hole - 1 < y < n
      ensures Less(k, Key(q, y))
    {
      assert Key(q, y) == if y == hole then Key(p, hole - 1) else Key(p, y);
    }
  }

  lemma DropIn(p: seq<string>, n: nat, hole: nat, k: string, v: string)
    requires 2 * n <= |p| && hole < n && SortedAround(p, n, hole, k)
    requires hole > 0 ==> Less(Key(p, hole - 1), k)
    ensures Ascending(Fill(p, hole, k, v)[..2 * n])
  {
    var q := Fill(p, hole, k, v)[..2 * n];
    forall x, y | 0 <= x < y && 2 * y < |q|
      ensures InOrder(q, x, y)
    {
      assert x != hole ==> Key(q, x) == Key(p, x);
      assert y != hole ==> Key(q, y) == Key(p, y);
      if y == hole {
        if x < hole - 1 {
          assert InOrder(p, x, hole - 1);
          LessTransitive(Key(p, x), Key(p, hole - 1), k);
        }
      } else if x != hole {
        assert InOrder(p, x, y);
      }
    }
  }

  /** Moving the pair before the hole into it, and the hole one back. */
  lemma ShiftStep(p: seq<string>, q: seq<string>, m: map<string, string>, n: nat, hole: nat, k: string, v: string)
    requires 2 * n <= |p| == |q| && 0 < hole < n && SortedAround(p, n, hole, k)
    requires Represents(Fill(p, hole, k, v), m) && Less(k, Key(p, hole - 1))
    requires q == Fill(p, hole, p[2 * hole - 2], p[2 * hole - 1])
    ensures SortedAround(q, n, hole - 1, k) && Represents(Fill(q, hole - 1, k, v), m)
  {
    ShiftSorted(p, q, n, hole, k);
    SwapRepresents(Fill(p, hole, k, v), Fill(q, hole - 1, k, v), m, hole - 1);
  }

  /** Sorts the pairs by key in place, keeping every value beside its key. */
  method SortPairs(pairs: array<string>, n: nat, ghost m: map<string, string>)
    requires n <= pairs.Length && Represents(pairs[..n], m)
    modifies pairs
    ensures Represents(pairs[..n], m) && Canonical(pairs[..n])
  {
    var x := 1;
    while 2 * x < n
      invariant x >= 1 && (2 * x <= n || n == 0)
      invariant Represents(pairs[..n], m)
      invariant 2 * x <= n ==> Ascending(pairs[..2 * x])
    {
      InsertPair(pairs, n, x, m);
      x := x + 1;
    }
  }

  /** One round of the insertion sort: moves pair `x` back to where it belongs. */
  method InsertPair(pairs: array<string>, n: nat, x: nat, ghost m: map<string, string>)
    requires n <= pairs.Length && Represents(pairs[..n], m)
    requires 2 * x + 1 < n && Ascending(pairs[..2 * x])
    modifies pairs
    ensures Represents(pairs[..n], m) && Ascending(pairs[..2 * x + 2])
  {
    var k, v := pairs[2 * x], pairs[2 * x + 1];
    var hole := x;
    ghost var p := pairs[..n];
    assert p[..2 * x] == pairs[..2 * x];
    AscendingAround(p, x, k);
    assert Fill(p, x, k, v) == p;
    while hole > 0 && Less(k, pairs[2 * hole - 2])
      invariant 0 <= hole <= x && p == pairs[..n]
      invariant Represents(Fill(p, hole, k, v), m)
      invariant SortedAround(p, x + 1, hole, k)
    {
      pairs[2 * hole], pairs[2 * hole + 1] := pairs[2 * hole - 2], pairs[2 * hole - 1];
      assert pairs[..n] == Fill(p, hole, p[2 * hole - 2], p[2 * hole - 1]);
      ShiftStep(p, pairs[..n], m, x + 1, hole, k, v);
      p := pairs[..n];
      hole := hole - 1;
    }
    if hole > 0 {
      DistinctFromHole(p, m, hole, k, v);
      LessTotal(k, pairs[2 * hole - 2]);
    }
    DropIn(p, x + 1, hole, k, v);
    pairs[2 * hole], pairs[2 * hole + 1] := k, v;
    assert pairs[..n] == Fill(p, hole, k, v);
    assert pairs[..2 * x + 2] == Fill(p, hole, k, v)[..2 * (x + 1)];
  }

  lemma AscendingAround(p: seq<string>, x: nat, k: string)
    requires 2 * x + 2 <= |p| && Ascending(p[..2 * x])
    ensures SortedAround(p, x + 1, x, k)
  {
    forall a, b | 0 <= a < b < x + 1 && a != x && b != x
      ensures InOrder(p, a, b)
    {
      assert InOrder(p[..2 * x], a, b);
    }
  }

  lemma DistinctFromHole(p: seq<string>, m: map<string, string>, hole: nat, k: string, v: string)
    requires 0 < hole && 2 * hole + 1 < |p| && Represents(Fill(p, hole, k, v), m)
    ensures Key(p, hole - 1) != k
  {
    var q := Fill(p, hole, k, v);
    assert Key(q, hole - 1) != Key(q, hole);
  }

  /** Overwrites the pair with key `k`, or appends one. */
  method WritePair(merged: array<string>, n: nat, k: string, v: string, ghost m: map<string, string>) returns (n': nat)
    requires n + 2 <= merged.Length && Represents(merged[..n], m)
    modifies merged
    ensures n' <= n + 2 && Represents(merged[..n'], m[k := v])
  {
    var replaced := ReplacePair(merged, n, k, v, m);
    if replaced {
      return n;
    }
    ghost var p := merged[..n];
    AppendRepresents(p, m, k, v);
    merged[n], merged[n + 1] := k, v;
    assert merged[..n + 2] == p + [k, v];
    return n + 2;
  }

  /** Merges `extra` over `base`. */
  method BuildLabels(base: seq<string>, extra: seq<string>) returns (r: seq<string>)
    requires Canonical(base) && Even(extra)
    ensures Canonical(r)
    ensures Represents(r, Overlay(Overlay(map[], base), extra))
  {
    var merged := new string[|base| + |extra|](i => "");
    var n := |base|;
    forall i | 0 <= i < n { merged[i] := base[i]; }
    assert merged[..n] == base;
    ghost var m := Overlay(map[], base);
    CanonicalRepresents(base);

    var i := 0;
    while i < |extra|
      invariant i % 2 == 0 && 0 <= i <= |extra| && 0 <= n <= |base| + i
      invariant m == Overlay(Overlay(map[], base), extra[..i])
      invariant Represents(merged[..n], m)
    {
      assert extra[..i + 2][..i] == extra[..i];
      n := WritePair(merged, n, extra[i], extra[i + 1], m);
      m := m[extra[i] := extra[i + 1]];
      i := i + 2;
    }
    assert extra[..|extra|] == extra;
    SortPairs(merged, n, m);
    r := merged[..n];
  }

  /** Canonical pairs represent the map obtained by writing them out. */
  lemma {:induction false} CanonicalRepresents(p: seq<string>)
    requires Canonical(p)
    ensures Represents(p, Overlay(map[], p))
  {
    if p != [] {
      var q := p[..|p| - 2];
      forall x, y | 0 <= x < y && 2 * y < |q|
        ensures InOrder(q, x, y)
      {
        assert InOrder(p, x, y);
      }
      CanonicalRepresents(q);
      var m, k := Overlay(map[], q), p[|p| - 2];
      if k in m {
        var x: nat :| HasKey(q, x, k);
        assert InOrder(p, x, |p| / 2 - 1);
        LessTotal(k, k);
        assert false;
      }
      AppendRepresents(q, m, k, p[|p| - 1]);
      assert p == q + [k, p[|p| - 1]];
    }
  }

  // ---------------------------------------------------------------------------
  // Label sets
  // ---------------------------------------------------------------------------

  datatype RawLabels = RawLabels(pairs: seq<string>)

  /** A label set as every constructor leaves it; the zero value carries no tags. */
  type LabelSet = l: RawLabels | Canonical(l.pairs) witness RawLabels([])

  /** The tags as a map. */
  function Tags(l: LabelSet): (m: map<string, string>) {
    Overlay(map[], l.pairs)
  }

  method NewLabels(kv: seq<string>) returns (l: LabelSet)
    requires Even(kv)
    ensures Tags(l) == Overlay(map[], kv)
  {
    if |kv| == 0 {
      return RawLabels([]);
    }
    var p := BuildLabels([], kv);
    OverlayRepresents(p, Overlay(map[], kv));
    return RawLabels(p);
  }

  /** Adds or replaces tags in a copy. */
  method With(l: LabelSet, kv: seq<string>) returns (r: LabelSet)
    requires Even(kv)
    ensures Tags(r) == Overlay(Tags(l), kv)
  {
    if |kv| == 0 {
      return l;
    }
    var p := BuildLabels(l.pairs, kv);
    OverlayRepresents(p, Overlay(Tags(l), kv));
    return RawLabels(p);
  }

  method Get(l: LabelSet, key: string) returns (value: string, ok: bool)
    ensures ok <==> key in Tags(l)
    ensures value == if ok then Tags(l)[key] else ""
  {
    CanonicalRepresents(l.pairs);
    var i := 0;
    while i < |l.pairs|
      invariant i % 2 == 0
      invariant forall x: nat :: 2 * x < i ==> !HasKey(l.pairs, x, key)
    {
      assert Key(l.pairs, i / 2) == l.pairs[i] && Value(l.pairs, i / 2) == l.pairs[i + 1];
      if l.pairs[i] == key {
        return l.pairs[i + 1], true;
      }
      i := i + 2;
    }
    return "", false;
  }

  method Map(l: LabelSet) returns (m: map<string, string>)
    ensures m == Tags(l)
  {
    m := map[];
    var i := 0;
    while i < |l.pairs|
      invariant i % 2 == 0 && 0 <= i <= |l.pairs|
      invariant m == Overlay(map[], l.pairs[..i])
    {
      assert l.pairs[..i + 2][..i] == l.pairs[..i];
      m := m[l.pairs[i] := l.pairs[i + 1]];
      i := i + 2;
    }
    assert l.pairs[..|l.pairs|] == l.pairs;
  }

  /** Reads the map in whatever order its iteration happens to take. */
  method LabelsFromMap(m: map<string, string>) returns (l: LabelSet)
    ensures Tags(l) == m
  {
    if |m| == 0 {
      return RawLabels([]);
    }
    var kv: seq<string> := [];
    var rest := m.Keys;
    while rest != {}
      invariant rest <= m.Keys
      invariant Represents(kv, m - rest)
      decreases rest
    {
      var k :| k in rest;
      AppendRepresents(kv, m - rest, k, m[k]);
      kv := kv + [k, m[k]];
      assert (m - rest)[k := m[k]] == m - (rest - {k});
      rest := rest - {k};
    }
    assert m - {} == m;
    OverlayRepresents(kv, m);
    l := NewLabels(kv);
  }

  /** Two label sets carry the same tags exactly when their pairs are the same. */
  lemma SamePairsIffSameTags(a: LabelSet, b: LabelSet)
    ensures a == b <==> Tags(a) == Tags(b)
  {
    if Tags(a) == Tags(b) {
      CanonicalRepresents(a.pairs);
      CanonicalRepresents(b.pairs);
      CanonicalUnique(a.pairs, b.pairs, Tags(a));
    }
  }

  /** The equality test compares a precomputed hash first; whatever the hash, it decides equality of tags. */
  predicate Equal(a: LabelSet, b: LabelSet, hash: LabelSet -> nat) {
    hash(a) == hash(b) && a.pairs == b.pairs
  }

  lemma EqualIffSameTags(a: LabelSet, b: LabelSet, hash: LabelSet -> nat)
    ensures Equal(a, b, hash) <==> Tags(a) == Tags(b)
  {
    SamePairsIffSameTags(a, b);
  }

  /** Labels survive the trip through a map, whatever order the map is read back in. */
  method RoundTrip(l: LabelSet) returns (r: LabelSet)
    ensures r == l
  {
    var m := Map(l);
    r := LabelsFromMap(m);
    SamePairsIffSameTags(l, r);
  }
}
