/**
 Distributions: bucket counts, their merge, and the run-length form they travel in.

 The HDR library itself is not part of this model: `Layout` stands for it by a bucket
 count and an arbitrary assignment of values to buckets. Counts and run lengths are
 64-bit in the program; the one place where that width shows is spelled out.
 */
module Histogram {

  const MAX_INT64: int := 0x7FFF_FFFF_FFFF_FFFF

  /** Sums in the decoder wrap around at 64 bits. */
  function Wrap64(x: int): (r: int)
    requires 0 <= x <= 2 * MAX_INT64 + 1
  {
    if x > MAX_INT64 then x - 2 * (MAX_INT64 + 1) else x
  }

  /** Bound on how far zero runs may expand a decoded bucket array. */
  const MAX_DECODED_COUNTS: int := 0x40_0000

  // ---------------------------------------------------------------------------
  // Encoding
  // ---------------------------------------------------------------------------

  function ZeroRun(counts: seq<int>): (r: nat)
    ensures r <= |counts|
    ensures forall i :: 0 <= i < r ==> counts[i] == 0
    ensures r < |counts| ==> counts[r] != 0
  {
    if counts == [] || counts[0] != 0 then 0 else 1 + ZeroRun(counts[1..])
  }

  /** A non-zero count stands for itself; a zero is followed by the length of its run. */
  function Encoded(counts: seq<int>): (r: seq<int>)
    decreases |counts|
  {
    if counts == [] then []
    else if counts[0] != 0 then [counts[0]] + Encoded(counts[1..])
    else
      var run := ZeroRun(counts);
      [0, run] + Encoded(counts[run..])
  }

  method EncodeRLE(counts: seq<int>) returns (out: seq<int>)
    ensures out == Encoded(counts)
  {
    out := [];
    var i := 0;
    while i < |counts|
      invariant 0 <= i <= |counts|
      invariant out + Encoded(counts[i..]) == Encoded(counts)
    {
      ghost var rest := counts[i..];
      if counts[i] != 0 {
        assert rest[1..] == counts[i + 1..];
        out := out + [counts[i]];
        i := i + 1;
        continue;
      }
      var run := 0;
      ghost var start := i;
      while i < |counts| && counts[i] == 0
        invariant start <= i <= |counts| && run == i - start
        invariant run + ZeroRun(counts[i..]) == ZeroRun(rest)
      {
        assert counts[i..][1..] == counts[i + 1..];
        run := run + 1;
        i := i + 1;
      }
      assert run == ZeroRun(rest) && rest[run..] == counts[i..];
      assert out + ([0, run] + Encoded(counts[i..])) == (out + [0, run]) + Encoded(counts[i..]);
      out := out + [0, run];
    }
    assert counts[|counts|..] == [];
  }

  // ---------------------------------------------------------------------------
  // Decoding
  // ---------------------------------------------------------------------------

  /** Unallocatable: the run passed the size guard only because the sum wrapped, and no slice can be that long. */
  datatype Decoded = Counts(counts: seq<int>) | Rejected | Unallocatable

  function Zeros(n: nat): (r: seq<int>)
    ensures |r| == n && forall i :: 0 <= i < n ==> r[i] == 0
  {
    seq(n, i => 0)
  }

  ghost predicate Int64s(e: seq<int>) {
    forall i :: 0 <= i < |e| ==> -MAX_INT64 - 1 <= e[i] <= MAX_INT64
  }

  /** What the decoder makes of a zero marker and the number after it, with `size` counts already out. */
  datatype Run = Accepted | TooLong | Wrapped

  function JudgeRun(size: nat, run: int): (r: Run)
    requires size <= MAX_INT64 && 0 < run <= MAX_INT64
  {
    if Wrap64(size + run) > MAX_DECODED_COUNTS then TooLong
    else if size + run > MAX_INT64 then Wrapped
    else Accepted
  }

  /** Slices of 64-bit numbers are far shorter than the numbers in them can count. */
  ghost predicate Room(e: seq<int>, out: seq<int>) {
    Int64s(e) && |e| <= MAX_INT64 / 4 && |out| + |e| <= MAX_INT64 / 2
  }

  ghost function DecodedFrom(e: seq<int>, out: seq<int>): (r: Decoded)
    requires Room(e, out)
    decreases |e|
  {
    if e == [] then Counts(out)
    else if e[0] > 0 then DecodedFrom(e[1..], out + [e[0]])
    else if e[0] < 0 || |e| == 1 || e[1] <= 0 then Rejected
    else
      match JudgeRun(|out|, e[1])
      case TooLong => Rejected
      case Wrapped => Unallocatable
      case Accepted => DecodedFrom(e[2..], out + Zeros(e[1]))
  }

  method DecodeRLE(encoded: seq<int>) returns (r: Decoded)
    requires Room(encoded, [])
    ensures r == DecodedFrom(encoded, [])
  {
    var out: seq<int> := [];
    var i := 0;
    while i < |encoded|
      invariant 0 <= i <= |encoded|
      invariant Room(encoded[i..], out)
      invariant DecodedFrom(encoded[i..], out) == DecodedFrom(encoded, [])
    {
      ghost var rest := encoded[i..];
      var v := encoded[i];
      if v > 0 {
        assert rest[1..] == encoded[i + 1..];
        out := out + [v];
        i := i + 1;
        continue;
      }
      if v < 0 {
        return Rejected;
      }
      i := i + 1;
      if i >= |encoded| {
        return Rejected;
      }
      var run := encoded[i];
      if run <= 0 {
        return Rejected;
      }
      if Wrap64(|out| + run) > MAX_DECODED_COUNTS {
        return Rejected;
      }
      if |out| + run > MAX_INT64 {
        return Unallocatable;
      }
      assert rest[2..] == encoded[i + 1..];
      out := out + Zeros(run);
      i := i + 1;
    }
    return Counts(out);
  }

  // ---------------------------------------------------------------------------
  // What the codec guarantees
  // ---------------------------------------------------------------------------

  ghost predicate NonNegative(s: seq<int>) {
    forall i :: 0 <= i < |s| ==> s[i] >= 0
  }

  /** The decoder's size guard looks only at zero runs, so only a zero that far out is refused. */
  ghost predicate NoLateZero(out: seq<int>, counts: seq<int>) {
    forall i :: 0 <= i < |counts| && counts[i] == 0 ==> |out| + i < MAX_DECODED_COUNTS
  }

  lemma {:induction false} EncodedFits(counts: seq<int>)
    requires Int64s(counts) && |counts| <= MAX_INT64
    ensures Int64s(Encoded(counts)) && |Encoded(counts)| <= 2 * |counts|
    ensures NonNegative(counts) ==> NonNegative(Encoded(counts))
    decreases |counts|
  {
    if counts != [] {
      if counts[0] != 0 {
        EncodedFits(counts[1..]);
      } else {
        EncodedFits(counts[ZeroRun(counts)..]);
      }
    }
  }

  /** Decoding an encoding gives back the counts exactly when they are non-negative and no zero lies past the bound. */
  lemma {:induction false} DecodeEncodeFrom(counts: seq<int>, out: seq<int>)
    requires Int64s(counts) && |counts| + |out| <= MAX_INT64 / 8
    ensures Room(Encoded(counts), out)
    ensures DecodedFrom(Encoded(counts), out) ==
      if NonNegative(counts) && NoLateZero(out, counts) then Counts(out + counts) else Rejected
    decreases |counts|
  {
    EncodedFits(counts);
    if counts != [] {
      var e := Encoded(counts);
      if counts[0] != 0 {
        var rest := counts[1..];
        assert e[1..] == Encoded(rest);
        if counts[0] > 0 {
          var next := out + [counts[0]];
          DecodeEncodeFrom(rest, next);
          TailFacts(counts, 1, out, next);
          assert out + counts == next + rest;
        } else {
          assert !NonNegative(counts);
        }
      } else {
        var run := ZeroRun(counts);
        var rest, next := counts[run..], out + Zeros(run);
        assert e[2..] == Encoded(rest);
        if |out| + run <= MAX_DECODED_COUNTS {
          DecodeEncodeFrom(rest, next);
          TailFacts(counts, run, out, next);
          assert out + counts == next + rest;
        } else {
          assert counts[run - 1] == 0 && !NoLateZero(out, counts);
        }
      }
    } else {
      assert out + [] == out;
    }
  }

  lemma TailFacts(counts: seq<int>, n: nat, out: seq<int>, next: seq<int>)
    requires 0 < n <= |counts| && |next| == |out| + n
    requires (counts[0] > 0 && n == 1) || (|next| <= MAX_DECODED_COUNTS && forall i :: 0 <= i < n ==> counts[i] == 0)
    ensures NonNegative(counts) <==> NonNegative(counts[n..])
    ensures NoLateZero(out, counts) <==> NoLateZero(next, counts[n..])
  {
    var rest := counts[n..];
    assert forall i :: 0 <= i < |rest| ==> rest[i] == counts[n + i];
    assert forall i :: n <= i < |counts| ==> counts[i] == rest[i - n];
  }

  /** The round trip every histogram in use enjoys, and the exact limit of it. */
  lemma RoundTrip(counts: seq<int>)
    requires Int64s(counts) && |counts| <= MAX_INT64 / 8
    ensures Room(Encoded(counts), [])
    ensures DecodedFrom(Encoded(counts), []) == Counts(counts) <==> NonNegative(counts) && NoLateZero([], counts)
    ensures NonNegative(counts) && |counts| <= MAX_DECODED_COUNTS ==> DecodedFrom(Encoded(counts), []) == Counts(counts)
  {
    DecodeEncodeFrom(counts, []);
    assert [] + counts == counts;
  }

  /** Accepted input decodes to non-negative counts, no longer than the bound plus one per number sent. */
  lemma {:induction false} AcceptedBounds(e: seq<int>, out: seq<int>)
    requires Room(e, out) && DecodedFrom(e, out).Counts? && NonNegative(out)
    ensures NonNegative(DecodedFrom(e, out).counts)
    ensures out <= DecodedFrom(e, out).counts
    ensures |DecodedFrom(e, out).counts| <= if |out| > MAX_DECODED_COUNTS then |out| + |e| else MAX_DECODED_COUNTS + |e|
    decreases |e|
  {
    if e != [] {
      if e[0] > 0 {
        AcceptedBounds(e[1..], out + [e[0]]);
      } else {
        AcceptedBounds(e[2..], out + Zeros(e[1]));
      }
    }
  }

  /** A zero run is never directly followed by another. */
  ghost predicate RunsApart(e: seq<int>)
    decreases |e|
  {
    if e == [] then true
    else if e[0] != 0 || |e| == 1 then RunsApart(e[1..])
    else (|e| > 2 ==> e[2] != 0) && RunsApart(e[2..])
  }

  lemma FirstDecoded(e: seq<int>, out: seq<int>)
    requires Room(e, out) && DecodedFrom(e, out).Counts? && NonNegative(out)
    ensures e == [] ==> DecodedFrom(e, out).counts == out
    ensures e != [] ==> |DecodedFrom(e, out).counts| > |out| && (DecodedFrom(e, out).counts[|out|] == 0 <==> e[0] == 0)
  {
    if e != [] {
      if e[0] > 0 {
        AcceptedBounds(e[1..], out + [e[0]]);
      } else {
        AcceptedBounds(e[2..], out + Zeros(e[1]));
      }
    }
  }

  ghost predicate Reencodes(counts: seq<int>, e: seq<int>) {
    Encoded(counts) == e
  }

  /** Re-encoding what was decoded gives back the input exactly when no two zero runs are adjacent. */
  lemma {:induction false} EncodeDecode(e: seq<int>, out: seq<int>)
    requires Room(e, out) && DecodedFrom(e, out).Counts? && NonNegative(out)
    ensures out <= DecodedFrom(e, out).counts
    ensures Reencodes(DecodedFrom(e, out).counts[|out|..], e) <==> RunsApart(e)
    ensures |Encoded(DecodedFrom(e, out).counts[|out|..])| <= |e|
    decreases |e|
  {
    AcceptedBounds(e, out);
    var all := DecodedFrom(e, out).counts;
    if e == [] {
      assert all[|out|..] == [];
    } else if e[0] > 0 {
      EncodeDecode(e[1..], out + [e[0]]);
      assert all[|out|..][1..] == all[|out + [e[0]]|..];
      CountStep(e, all[|out|..]);
    } else {
      EncodeDecode(e[2..], out + Zeros(e[1]));
      var next := out + Zeros(e[1]);
      FirstDecoded(e[2..], next);
      assert all[|out|..] == Zeros(e[1]) + all[|next|..];
      RunStep(e, all[|next|..]);
    }
  }

  lemma CountStep(e: seq<int>, counts: seq<int>)
    requires e != [] && counts != [] && e[0] > 0 && counts[0] == e[0]
    requires Reencodes(counts[1..], e[1..]) <==> RunsApart(e[1..])
    requires |Encoded(counts[1..])| <= |e| - 1
    ensures Reencodes(counts, e) <==> RunsApart(e)
    ensures |Encoded(counts)| <= |e|
  {
    ReencodeCount(e[0], e[1..], counts[1..]);
    assert counts == [e[0]] + counts[1..] && e == [e[0]] + e[1..];
  }

  lemma RunStep(e: seq<int>, rest: seq<int>)
    requires |e| >= 2 && e[0] == 0 && e[1] > 0
    requires Reencodes(rest, e[2..]) <==> RunsApart(e[2..])
    requires |Encoded(rest)| <= |e| - 2
    requires |e| == 2 ==> rest == []
    requires |e| > 2 ==> rest != [] && (rest[0] == 0 <==> e[2] == 0)
    ensures Reencodes(Zeros(e[1]) + rest, e) <==> RunsApart(e)
    ensures |Encoded(Zeros(e[1]) + rest)| <= |e|
  {
    ReencodeRun(e[1], e[2..], rest);
    assert e == [0, e[1]] + e[2..];
  }

  lemma ReencodeCount(c: int, tail: seq<int>, rest: seq<int>)
    requires c != 0
    ensures Encoded([c] + rest) == [c] + Encoded(rest)
    ensures Reencodes([c] + rest, [c] + tail) <==> Reencodes(rest, tail)
    ensures RunsApart([c] + tail) <==> RunsApart(tail)
  {
    assert ([c] + rest)[1..] == rest && ([c] + tail)[1..] == tail;
    if Encoded([c] + rest) == [c] + tail {
      assert Encoded(rest) == ([c] + tail)[1..];
    }
  }

  lemma ReencodeRun(run: int, tail: seq<int>, rest: seq<int>)
    requires run > 0 && |Encoded(rest)| <= |tail|
    requires tail == [] ==> rest == []
    requires tail != [] ==> rest != [] && (rest[0] == 0 <==> tail[0] == 0)
    ensures Reencodes(Zeros(run) + rest, [0, run] + tail) <==> Reencodes(rest, tail) && (tail != [] ==> tail[0] != 0)
    ensures |Encoded(Zeros(run) + rest)| <= 2 + |tail|
    ensures RunsApart([0, run] + tail) <==> RunsApart(tail) && (tail != [] ==> tail[0] != 0)
  {
    var e := [0, run] + tail;
    assert e[2..] == tail;
    EncodeZeros(run, rest);
    if rest == [] || rest[0] != 0 {
      assert Encoded(Zeros(run) + rest)[2..] == Encoded(rest);
    }
  }

  /** A decoded zero run merges with whatever zeros follow it. */
  lemma {:induction false} EncodeZeros(run: nat, rest: seq<int>)
    requires run > 0
    ensures ZeroRun(Zeros(run) + rest) == run + ZeroRun(rest)
    ensures Encoded(Zeros(run) + rest) == [0, run + ZeroRun(rest)] + Encoded(rest[ZeroRun(rest)..])
    ensures rest == [] || rest[0] != 0 ==> Encoded(Zeros(run) + rest) == [0, run] + Encoded(rest)
    ensures |Encoded(Zeros(run) + rest)| <= 2 + |Encoded(rest)|
    ensures rest != [] && rest[0] == 0 ==> |Encoded(Zeros(run) + rest)| <= |Encoded(rest)|
  {
    var s := Zeros(run) + rest;
    assert s[1..] == Zeros(run - 1) + rest;
    if run > 1 {
      EncodeZeros(run - 1, rest);
    } else {
      assert s[1..] == rest;
    }
    assert s[run + ZeroRun(rest)..] == rest[ZeroRun(rest)..];
  }

  /** After an accepted prefix, decoding goes on from what the prefix gave. */
  lemma {:induction false} DecodeAppend(a: seq<int>, b: seq<int>, out: seq<int>)
    requires Room(a + b, out) && Room(a, out) && DecodedFrom(a, out).Counts? && Room(b, DecodedFrom(a, out).counts)
    ensures DecodedFrom(a + b, out) == DecodedFrom(b, DecodedFrom(a, out).counts)
    decreases |a|
  {
    if a == [] {
      assert a + b == b;
    } else if a[0] > 0 {
      assert (a + b)[1..] == a[1..] + b;
      RoomTail(a + b, 1);
      DecodeAppend(a[1..], b, out + [a[0]]);
    } else {
      assert (a + b)[2..] == a[2..] + b;
      RoomTail(a + b, 2);
      DecodeAppend(a[2..], b, out + Zeros(a[1]));
    }
  }

  lemma RoomTail(e: seq<int>, n: nat)
    requires Int64s(e) && n <= |e|
    ensures Int64s(e[n..])
  {
  }

  /** Number `n` begins a zero run that follows an accepted prefix and makes the guard's sum wrap. */
  ghost predicate StallsAt(e: seq<int>, out: seq<int>, n: nat) {
    && n + 1 < |e| && e[n] == 0 && 0 < e[n + 1] <= MAX_INT64
    && Room(e[..n], out) && DecodedFrom(e[..n], out).Counts?
    && |DecodedFrom(e[..n], out).counts| + e[n + 1] > MAX_INT64
  }

  /** The guard on run lengths lets through exactly the runs whose sum with the counts so far wraps. */
  lemma {:induction false} UnallocatableIff(e: seq<int>, out: seq<int>)
    requires Room(e, out)
    ensures DecodedFrom(e, out).Unallocatable? <==> exists n: nat :: StallsAt(e, out, n)
    decreases |e|
  {
    if DecodedFrom(e, out).Unallocatable? {
      var n := FirstStall(e, out);
    } else if n: nat :| StallsAt(e, out, n) {
      NoStall(e, out, n);
      assert false;
    }
  }

  lemma {:induction false} FirstStall(e: seq<int>, out: seq<int>) returns (n: nat)
    requires Room(e, out) && DecodedFrom(e, out).Unallocatable?
    ensures StallsAt(e, out, n)
    decreases |e|
  {
    if e[0] > 0 {
      n := FirstStall(e[1..], out + [e[0]]);
      assert e[..n + 1][1..] == e[1..][..n];
      n := n + 1;
    } else if JudgeRun(|out|, e[1]).Accepted? {
      n := FirstStall(e[2..], out + Zeros(e[1]));
      assert e[..n + 2][2..] == e[2..][..n];
      n := n + 2;
    } else {
      n := 0;
      assert e[..0] == [];
    }
  }

  lemma NoStall(e: seq<int>, out: seq<int>, n: nat)
    requires Room(e, out) && StallsAt(e, out, n)
    ensures DecodedFrom(e, out).Unallocatable?
  {
    var a, b := e[..n], e[n..];
    assert a + b == e;
    DecodedRoom(a, b, out);
    DecodeAppend(a, b, out);
  }

  lemma {:induction false} DecodedRoom(a: seq<int>, b: seq<int>, out: seq<int>)
    requires Room(a + b, out) && Room(a, out) && DecodedFrom(a, out).Counts?
    ensures Room(b, DecodedFrom(a, out).counts)
    decreases |a|
  {
    assert forall i :: 0 <= i < |b| ==> b[i] == (a + b)[|a| + i];
    if a == [] {
    } else if a[0] > 0 {
      assert (a + b)[1..] == a[1..] + b;
      DecodedRoom(a[1..], b, out + [a[0]]);
    } else {
      assert (a + b)[2..] == a[2..] + b;
      DecodedRoom(a[2..], b, out + Zeros(a[1]));
    }
  }

  /** A short message that does: one count, then a run of the largest length a message can carry. */
  lemma UnallocatableExample()
    ensures Room([1, 0, MAX_INT64], []) && DecodedFrom([1, 0, MAX_INT64], []).Unallocatable?
  {
    var e := [1, 0, MAX_INT64];
    assert e[1..] == [0, MAX_INT64];
    assert DecodedFrom([0, MAX_INT64], [1]).Unallocatable?;
    assert [] + [1] == [1];
  }

  // ---------------------------------------------------------------------------
  // Snapshots
  // ---------------------------------------------------------------------------

  datatype Config = Config(lowest: int, highest: int, sigFigs: int)

  predicate ValidConfig(c: Config) {
    1 <= c.lowest < c.highest && 1 <= c.sigFigs <= 5
  }

  datatype Snapshot = Snapshot(config: Config, countsRle: seq<int>)

  datatype Import = Histogram(counts: seq<int>) | ResolutionMismatch | Malformed | WrongLength | ImpossibleLength

  /** `buckets` is the number of buckets a histogram of this configuration has. */
  method DecodeHistogram(snap: Snapshot, config: Config, buckets: nat) returns (r: Import)
    requires Room(snap.countsRle, [])
    ensures r.Histogram? <==> snap.config == config
                              && DecodedFrom(snap.countsRle, []).Counts?
                              && |DecodedFrom(snap.countsRle, []).counts| == buckets
    ensures r.Histogram? ==> DecodedFrom(snap.countsRle, []) == Counts(r.counts)
    ensures r.Histogram? ==> |r.counts| == buckets && NonNegative(r.counts)
    ensures r.ImpossibleLength? ==> DecodedFrom(snap.countsRle, []).Unallocatable?
  {
    if snap.config != config {
      return ResolutionMismatch;
    }
    var d := DecodeRLE(snap.countsRle);
    match d {
      case Rejected => return Malformed;
      case Unallocatable => return ImpossibleLength;
      case Counts(counts) =>
        if |counts| != buckets {
          return WrongLength;
        }
        AcceptedBounds(snap.countsRle, []);
        return Histogram(counts);
    }
  }

  method EncodeHistogram(config: Config, counts: seq<int>) returns (snap: Snapshot)
    ensures snap == Snapshot(config, Encoded(counts))
  {
    var rle := EncodeRLE(counts);
    return Snapshot(config, rle);
  }

  // ---------------------------------------------------------------------------
  // Values and buckets
  // ---------------------------------------------------------------------------

  /** Histogram units per unit of the metric. */
  const HISTOGRAM_SCALE: int := 1000

  function RoundReal(x: real): (r: int) {
    if x >= 0.0 then (x + 0.5).Floor else -((-x + 0.5).Floor)
  }

  /** A number outside 64 bits converts to the least one there is, as on amd64. */
  function ToInt64(x: int): (r: int) {
    if -MAX_INT64 - 1 <= x <= MAX_INT64 then x else -MAX_INT64 - 1
  }

  function Scaled(v: real): (r: int) {
    RoundReal(v * HISTOGRAM_SCALE as real)
  }

  /** The histogram value of an observation, clamped into the trackable range after the conversion. */
  function ScaleValue(c: Config, v: real): (r: int) {
    var scaled := ToInt64(Scaled(v));
    if scaled < c.lowest then c.lowest else if scaled > c.highest then c.highest else scaled
  }

  lemma ScaledMonotone(a: real, b: real)
    requires a <= b
    ensures Scaled(a) <= Scaled(b)
  {
    var x, y := a * HISTOGRAM_SCALE as real, b * HISTOGRAM_SCALE as real;
    assert x <= y;
  }

  /**
   Clamping never leaves the range. It keeps the order of two observations exactly when the larger one converts, or the
   smaller one is at the bottom too: one too large for 64 bits is counted at the bottom, not at the top.
   */
  lemma ScaleValueMonotoneIff(c: Config, a: real, b: real)
    requires ValidConfig(c) && a <= b && c.highest <= MAX_INT64
    ensures c.lowest <= ScaleValue(c, a) <= c.highest && c.lowest <= ScaleValue(c, b) <= c.highest
    ensures ScaleValue(c, a) <= ScaleValue(c, b) <==> Scaled(b) <= MAX_INT64 || ScaleValue(c, a) == c.lowest
  {
    ScaledMonotone(a, b);
  }

  /**
   Which unit an observation is counted in: the one nearest to it if it lies in the trackable range, the highest if it
   lies above, the lowest if it lies below or does not fit 64 bits.
   */
  lemma ScaleValueIs(c: Config, v: real)
    requires ValidConfig(c) && c.highest <= MAX_INT64
    ensures var units := v * HISTOGRAM_SCALE as real;
      && (c.lowest as real <= units <= c.highest as real ==> Near(ScaleValue(c, v), units))
      && (c.highest as real <= units <= MAX_INT64 as real ==> ScaleValue(c, v) == c.highest)
      && (units <= c.lowest as real || units >= MAX_INT64 as real + 1.0 ==> ScaleValue(c, v) == c.lowest)
  {
    var units := v * HISTOGRAM_SCALE as real;
    RoundRealIs(units);
    assert Scaled(v) == RoundReal(units);
  }

  ghost predicate Near(n: int, x: real) {
    n as real - 0.5 <= x <= n as real + 0.5
  }

  lemma RoundRealIs(x: real)
    ensures Near(RoundReal(x), x)
  {
    if x >= 0.0 {
      assert (x + 0.5).Floor as real <= x + 0.5 < (x + 0.5).Floor as real + 1.0;
    } else {
      assert (-x + 0.5).Floor as real <= -x + 0.5 < (-x + 0.5).Floor as real + 1.0;
    }
  }
}
