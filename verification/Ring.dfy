/**
 The retained history: a ring of finalised buckets, and the stream published from it.
 */
module Ring {

  import opened Window

  function Min(a: nat, b: nat): (r: nat) {
    if a < b then a else b
  }

  /** The last `cap` buckets of the full history. */
  function Kept<B>(history: seq<B>, cap: nat): (r: seq<B>) {
    history[|history| - Min(|history|, cap)..]
  }

  /** The buckets that start after a time; the zero time asks for all of them. */
  function Newer<B>(buckets: seq<B>, startOf: B -> int, since: int): (r: seq<B>) {
    if buckets == [] then []
    else
      var last := buckets[|buckets| - 1];
      Newer(buckets[..|buckets| - 1], startOf, since) +
        if since != ZERO_TIME && startOf(last) <= since then [] else [last]
  }

  lemma {:induction false} NewerThanZero<B>(buckets: seq<B>, startOf: B -> int)
    ensures Newer(buckets, startOf, ZERO_TIME) == buckets
  {
    if buckets != [] {
      NewerThanZero(buckets[..|buckets| - 1], startOf);
    }
  }

  lemma NewerStep<B>(buckets: seq<B>, startOf: B -> int, since: int, i: nat)
    requires i < |buckets|
    ensures Newer(buckets[..i + 1], startOf, since) == Newer(buckets[..i], startOf, since) +
      if since != ZERO_TIME && startOf(buckets[i]) <= since then [] else [buckets[i]]
  {
    assert buckets[..i + 1][..i] == buckets[..i];
  }

  lemma WrapOnce(x: nat, n: nat)
    requires 0 < n && x < 2 * n
    ensures x % n == if x < n then x else x - n
  {
    if x < n {
      ModUnique(x, 0, x, n);
    } else {
      ModUnique(x, 1, x - n, n);
    }
  }

  class Ring<B(0)> {
    const closed: array<B>
    const startOf: B -> int
    var head: nat
    var closedN: nat
    /** Everything ever filed, oldest first. */
    ghost var history: seq<B>

    /** Where the bucket `i` places after the oldest one is. */
    function Place(i: nat): (r: nat)
      reads this
    {
      if head + i < closed.Length then head + i else head + i - closed.Length
    }

    ghost predicate HeldAt(i: nat)
      requires i < closedN <= |history| && head < closed.Length && i < closed.Length
      reads this, closed
    {
      closed[Place(i)] == history[|history| - closedN + i]
    }

    ghost predicate Valid()
      reads this, closed
    {
      && head < closed.Length && closedN == Min(|history|, closed.Length)
      && (closedN < closed.Length ==> head == 0)
      && forall i :: 0 <= i < closedN ==> HeldAt(i)
    }

    constructor (capacity: nat, startOf: B -> int)
      requires capacity >= 1
      ensures Valid() && history == [] && closed.Length == capacity && this.startOf == startOf && fresh(closed)
    {
      closed := new B[capacity];
      this.startOf := startOf;
      head, closedN, history := 0, 0, [];
    }

    /** Files a bucket, over the oldest one if the ring is full. */
    method File(bucket: B)
      requires Valid()
      modifies this, closed
      ensures Valid() && history == old(history) + [bucket]
    {
      WrapOnce(head + closedN, closed.Length);
      WrapOnce(head + 1, closed.Length);
      var slot := (head + closedN) % closed.Length;
      if closedN == closed.Length {
        slot := head;
        head := (head + 1) % closed.Length;
      } else {
        closedN := closedN + 1;
      }
      closed[slot] := bucket;
      history := history + [bucket];
      forall i | 0 <= i < closedN
        ensures HeldAt(i)
      {
        if i < closedN - 1 {
          assert old(closedN == closed.Length) ==> old(HeldAt(i + 1));
          assert old(closedN < closed.Length) ==> old(HeldAt(i));
        }
      }
    }

    /** The retained buckets that start after a time, oldest first. */
    method Timeline(since: int) returns (out: seq<B>)
      requires Valid()
      ensures out == Newer(Kept(history, closed.Length), startOf, since)
    {
      ghost var kept := Kept(history, closed.Length);
      out := [];
      for i := 0 to closedN
        invariant out == Newer(kept[..i], startOf, since)
      {
        WrapOnce(head + i, closed.Length);
        var bucket := closed[(head + i) % closed.Length];
        assert HeldAt(i);
        NewerStep(kept, startOf, since, i);
        if since != ZERO_TIME && startOf(bucket) <= since {
          continue;
        }
        out := out + [bucket];
      }
      assert kept[..closedN] == kept;
    }
  }

  // ---------------------------------------------------------------------------
  // Publishing
  // ---------------------------------------------------------------------------

  function Newest<B>(buckets: seq<B>, startOf: B -> int, since: int): (r: int) {
    if buckets == [] then since
    else Later(Newest(buckets[..|buckets| - 1], startOf, since), startOf(buckets[|buckets| - 1]))
  }

  class Feed<B(0)> {
    /** The start of the newest bucket published so far. */
    var published: int

    constructor ()
      ensures published == ZERO_TIME
    {
      published := ZERO_TIME;
    }

    /** The buckets finalised since the last call, and the watermark moved past them. */
    method TicksSince(ring: Ring<B>) returns (ticks: seq<B>)
      requires ring.Valid()
      modifies this
      ensures ticks == Newer(Kept(ring.history, ring.closed.Length), ring.startOf, old(published))
      ensures published == Newest(ticks, ring.startOf, old(published))
    {
      var since := published;
      var buckets := ring.Timeline(since);
      if |buckets| == 0 {
        return [];
      }
      ticks := [];
      var newest := since;
      for i := 0 to |buckets|
        invariant ticks == buckets[..i] && newest == Newest(buckets[..i], ring.startOf, since)
        invariant newest >= since
      {
        assert buckets[..i + 1][..i] == buckets[..i];
        ticks := ticks + [buckets[i]];
        if ring.startOf(buckets[i]) > newest {
          newest := ring.startOf(buckets[i]);
        }
      }
      assert buckets[..|buckets|] == buckets;
      if newest > published {
        published := newest;
      }
    }
  }

  /** The stream's side of a run: buckets are filed one by one, and published now and then. */
  datatype Act<B> = File(bucket: B) | Publish

  datatype Stream<B> = Stream(history: seq<B>, published: int, sent: seq<B>)

  function Streamed<B>(acts: seq<Act<B>>, startOf: B -> int, cap: nat): (r: Stream<B>) {
    if acts == [] then Stream([], ZERO_TIME, [])
    else
      var st := Streamed(acts[..|acts| - 1], startOf, cap);
      match acts[|acts| - 1]
      case File(b) => st.(history := st.history + [b])
      case Publish => Publication(st, startOf, cap)
  }

  /** What the ring still has and is past the watermark is sent. */
  function Publication<B>(st: Stream<B>, startOf: B -> int, cap: nat): (r: Stream<B>) {
    Sent(st, Newer(Kept(st.history, cap), startOf, st.published), startOf)
  }

  function Sent<B>(st: Stream<B>, ticks: seq<B>, startOf: B -> int): (r: Stream<B>) {
    st.(published := Newest(ticks, startOf, st.published), sent := st.sent + ticks)
  }

  /** How many of the pending buckets have left a ring of `cap`. */
  function Lost(pending: nat, cap: nat): (r: nat) {
    if pending > cap then pending - cap else 0
  }

  /** How many buckets have been filed since the last publication. */
  function Pending<B>(acts: seq<Act<B>>): (r: nat) {
    if acts == [] || acts[|acts| - 1].Publish? then 0 else Pending(acts[..|acts| - 1]) + 1
  }

  /** How many buckets had left the ring before a publication could reach them. */
  function Missed<B>(acts: seq<Act<B>>, cap: nat): (r: nat) {
    if acts == [] then 0
    else
      var rest := acts[..|acts| - 1];
      Missed(rest, cap) + if acts[|acts| - 1].Publish? then Lost(Pending(rest), cap) else 0
  }

  ghost predicate Dated<B>(history: seq<B>, startOf: B -> int, i: nat)
    requires i < |history|
  {
    startOf(history[i]) > ZERO_TIME
  }

  ghost predicate StartsBefore<B>(history: seq<B>, startOf: B -> int, i: nat, j: nat)
    requires i < |history| && j < |history|
  {
    startOf(history[i]) < startOf(history[j])
  }

  ghost predicate Rising<B>(history: seq<B>, startOf: B -> int) {
    && (forall i :: 0 <= i < |history| ==> Dated(history, startOf, i))
    && (forall i, j :: 0 <= i < j < |history| ==> StartsBefore(history, startOf, i, j))
  }

  /** The watermark after the first `n` buckets. */
  function Mark<B>(history: seq<B>, startOf: B -> int, n: nat): (r: int)
    requires n <= |history|
  {
    if n == 0 then ZERO_TIME else startOf(history[n - 1])
  }

  /** In a rising history the newer buckets are a suffix. */
  lemma {:induction false} NewerIsSuffix<B>(history: seq<B>, startOf: B -> int, n: nat, lo: nat, hi: nat)
    requires Rising(history, startOf) && n <= |history| && lo <= hi <= |history|
    ensures Newer(history[lo..hi], startOf, Mark(history, startOf, n))
         == if hi <= n then [] else history[(if lo < n then n else lo)..hi]
    decreases hi
  {
    if lo < hi {
      NewerIsSuffix(history, startOf, n, lo, hi - 1);
      if n > 0 {
        assert Dated(history, startOf, n - 1);
        assert hi < n ==> StartsBefore(history, startOf, hi - 1, n - 1);
        assert hi > n ==> StartsBefore(history, startOf, n - 1, hi - 1);
      }
      assert history[lo..hi][..hi - lo - 1] == history[lo..hi - 1];
    }
  }

  lemma {:induction false} NewestIsLast<B>(history: seq<B>, startOf: B -> int, n: nat, lo: nat)
    requires Rising(history, startOf) && n <= lo <= |history| && (n < |history| ==> lo < |history|)
    ensures Newest(history[lo..], startOf, Mark(history, startOf, n)) == Mark(history, startOf, |history|)
  {
    if lo < |history| {
      assert history[lo..] == history[lo..|history|];
      NewestUpTo(history, startOf, n, lo, |history|);
    }
  }

  lemma {:induction false} NewestUpTo<B>(history: seq<B>, startOf: B -> int, n: nat, lo: nat, hi: nat)
    requires Rising(history, startOf) && n <= lo < hi <= |history|
    ensures Newest(history[lo..hi], startOf, Mark(history, startOf, n)) == startOf(history[hi - 1])
    decreases hi
  {
    assert history[lo..hi][..hi - lo - 1] == history[lo..hi - 1];
    assert Dated(history, startOf, hi - 1);
    assert n > 0 ==> StartsBefore(history, startOf, n - 1, hi - 1);
    if lo < hi - 1 {
      assert StartsBefore(history, startOf, hi - 2, hi - 1);
      NewestUpTo(history, startOf, n, lo, hi - 1);
    }
  }

  /** One publication sends exactly the unsent buckets the ring still has, and marks everything published. */
  lemma PublishOnce<B>(history: seq<B>, startOf: B -> int, n: nat, cap: nat)
    requires Rising(history, startOf) && n <= |history| && cap >= 1
    ensures var ticks := Newer(Kept(history, cap), startOf, Mark(history, startOf, n));
      && ticks == history[n + Lost(|history| - n, cap)..]
      && Newest(ticks, startOf, Mark(history, startOf, n)) == Mark(history, startOf, |history|)
  {
    var lo := |history| - Min(|history|, cap);
    assert history[lo..] == history[lo..|history|];
    NewerIsSuffix(history, startOf, n, lo, |history|);
    NewestIsLast(history, startOf, n, if lo < n then n else lo);
    if |history| == n {
      assert history[n..] == [];
    }
  }

  lemma RisingPrefix<B>(history: seq<B>, startOf: B -> int, n: nat)
    requires Rising(history, startOf) && n <= |history|
    ensures Rising(history[..n], startOf)
  {
    var h := history[..n];
    forall i | 0 <= i < n
      ensures Dated(h, startOf, i)
    {
      assert Dated(history, startOf, i);
    }
    forall i, j | 0 <= i < j < n
      ensures StartsBefore(h, startOf, i, j)
    {
      assert StartsBefore(history, startOf, i, j);
    }
  }

  /** With `pending` buckets not yet published and `missed` lost, the rest was sent. */
  ghost predicate Accounted<B>(st: Stream<B>, startOf: B -> int, pending: nat, missed: nat) {
    && pending <= |st.history|
    && var n := |st.history| - pending;
       && st.published == Mark(st.history, startOf, n)
       && |st.sent| + missed == n
       && (missed == 0 ==> st.sent == st.history[..n])
  }

  lemma FileAccounts<B>(st: Stream<B>, startOf: B -> int, pending: nat, missed: nat, bucket: B)
    requires Accounted(st, startOf, pending, missed)
    ensures Accounted(st.(history := st.history + [bucket]), startOf, pending + 1, missed)
  {
    var n := |st.history| - pending;
    assert (st.history + [bucket])[..n] == st.history[..n];
  }

  lemma SentAccounts<B>(st: Stream<B>, startOf: B -> int, pending: nat, missed: nat, lost: nat, ticks: seq<B>)
    requires Accounted(st, startOf, pending, missed) && lost <= pending
    requires ticks == st.history[|st.history| - pending + lost..]
    requires Newest(ticks, startOf, st.published) == Mark(st.history, startOf, |st.history|)
    ensures Accounted(Sent(st, ticks, startOf), startOf, 0, missed + lost)
  {
    var n := |st.history| - pending;
    assert st.history[..n] + st.history[n..] == st.history == st.history[..|st.history|];
  }

  lemma PublishAccounts<B>(st: Stream<B>, startOf: B -> int, pending: nat, missed: nat, cap: nat)
    requires Accounted(st, startOf, pending, missed) && Rising(st.history, startOf) && cap >= 1
    ensures Accounted(Sent(st, Newer(Kept(st.history, cap), startOf, st.published), startOf), startOf, 0,
                      missed + Lost(pending, cap))
  {
    PublishOnce(st.history, startOf, |st.history| - pending, cap);
    SentAccounts(st, startOf, pending, missed, Lost(pending, cap), Newer(Kept(st.history, cap), startOf, st.published));
  }

  /**
   With rising starts, whatever the order of filing and publishing: everything sent is accounted for,
   and as long as nothing was missed the stream is the history itself, in order, each bucket once.
   */
  lemma {:induction false} StreamAccounts<B>(acts: seq<Act<B>>, startOf: B -> int, cap: nat)
    requires cap >= 1 && Rising(Streamed(acts, startOf, cap).history, startOf)
    ensures Accounted(Streamed(acts, startOf, cap), startOf, Pending(acts), Missed(acts, cap))
  {
    if acts != [] {
      var rest := acts[..|acts| - 1];
      var st := Streamed(rest, startOf, cap);
      var h := Streamed(acts, startOf, cap).history;
      RisingPrefix(h, startOf, |st.history|);
      assert h[..|st.history|] == st.history;
      StreamAccounts(rest, startOf, cap);
      match acts[|acts| - 1]
      case Publish => PublishAccounts(st, startOf, Pending(rest), Missed(rest, cap), cap);
      case File(b) => FileAccounts(st, startOf, Pending(rest), Missed(rest, cap), b);
    }
  }

  /** After a publication the stream is the whole history exactly when no more than a ringful was ever pending. */
  lemma StreamCompleteIff<B>(acts: seq<Act<B>>, startOf: B -> int, cap: nat)
    requires cap >= 1 && acts != [] && acts[|acts| - 1].Publish?
    requires Rising(Streamed(acts, startOf, cap).history, startOf)
    ensures var st := Streamed(acts, startOf, cap);
      st.sent == st.history <==> Missed(acts, cap) == 0
  {
    StreamAccounts(acts, startOf, cap);
    var st := Streamed(acts, startOf, cap);
    assert st.history[..|st.history|] == st.history;
  }

  // ---------------------------------------------------------------------------
  // Any order of starts
  // ---------------------------------------------------------------------------

  /** A bucket whose start is not past the watermark when it is filed is never sent, however long the ring keeps it. */
  lemma {:induction false} BehindIsNeverSent<B>(acts: seq<Act<B>>, more: seq<Act<B>>, startOf: B -> int, cap: nat,
                                                bucket: B)
    requires bucket !in Streamed(acts, startOf, cap).sent
    requires Streamed(acts, startOf, cap).published > ZERO_TIME
    requires startOf(bucket) <= Streamed(acts, startOf, cap).published
    ensures bucket !in Streamed(acts + more, startOf, cap).sent
    ensures Streamed(acts + more, startOf, cap).published >= Streamed(acts, startOf, cap).published
  {
    if more == [] {
      assert acts + more == acts;
    } else {
      var n := |more| - 1;
      BehindIsNeverSent(acts, more[..n], startOf, cap, bucket);
      assert (acts + more)[..|acts + more| - 1] == acts + more[..n];
      var st := Streamed(acts + more[..n], startOf, cap);
      NewerAreAhead(Kept(st.history, cap), startOf, st.published, bucket);
      NewestIsAhead(Newer(Kept(st.history, cap), startOf, st.published), startOf, st.published);
    }
  }

  lemma {:induction false} NewerAreAhead<B>(buckets: seq<B>, startOf: B -> int, since: int, bucket: B)
    requires since != ZERO_TIME && startOf(bucket) <= since
    ensures bucket !in Newer(buckets, startOf, since)
  {
    if buckets != [] {
      NewerAreAhead(buckets[..|buckets| - 1], startOf, since, bucket);
    }
  }

  lemma {:induction false} NewestIsAhead<B>(buckets: seq<B>, startOf: B -> int, since: int)
    ensures Newest(buckets, startOf, since) >= since
  {
    if buckets != [] {
      NewestIsAhead(buckets[..|buckets| - 1], startOf, since);
    }
  }

  lemma OneMoreAct<B>(acts: seq<Act<B>>, act: Act<B>, startOf: B -> int, cap: nat)
    ensures var st, r := Streamed(acts, startOf, cap), Streamed(acts + [act], startOf, cap);
      match act
      case File(b) =>
        r == st.(history := st.history + [b]) && Pending(acts + [act]) == Pending(acts) + 1
        && Missed(acts + [act], cap) == Missed(acts, cap)
      case Publish =>
        r == Publication(st, startOf, cap) && Pending(acts + [act]) == 0
        && Missed(acts + [act], cap) == Missed(acts, cap) + Lost(Pending(acts), cap)
  {
    assert (acts + [act])[..|acts|] == acts;
  }

  /** A bucket filed into an empty stream is sent by the next publication. */
  lemma FirstPublication<B>(bucket: B, startOf: B -> int, cap: nat)
    requires cap >= 1 && startOf(bucket) > ZERO_TIME
    ensures var acts := [] + [File(bucket)] + [Publish];
      && Streamed(acts, startOf, cap) == Stream([bucket], startOf(bucket), [bucket])
      && Pending(acts) == 0 && Missed(acts, cap) == 0
  {
    OneMoreAct([], File(bucket), startOf, cap);
    OneMoreAct([] + [File(bucket)], Publish, startOf, cap);
    assert [] + [bucket] == [bucket];
    assert Streamed([] + [File(bucket)], startOf, cap) == Stream([bucket], ZERO_TIME, []);
    assert Kept([bucket], cap) == [bucket];
    NewerThanZero([bucket], startOf);
    NewestOneMore([], bucket, startOf, ZERO_TIME);
  }

  /**
   So of two buckets with the same start and a publication between them, the second is skipped although none was
   missed.
   */
  lemma TwinIsSkipped<B>(first: B, second: B, startOf: B -> int, cap: nat)
    requires cap >= 1 && first != second && startOf(first) == startOf(second) > ZERO_TIME
    ensures var acts := [File(first), Publish, File(second), Publish];
      && Streamed(acts, startOf, cap).history == [first, second] && Missed(acts, cap) == 0
      && second !in Streamed(acts, startOf, cap).sent
  {
    var two := [] + [File(first)] + [Publish];
    var acts := two + [File(second)] + [Publish];
    assert acts == [File(first), Publish, File(second), Publish];
    assert acts == two + [File(second), Publish];
    FirstPublication(first, startOf, cap);
    OneMoreAct(two, File(second), startOf, cap);
    OneMoreAct(two + [File(second)], Publish, startOf, cap);
    BehindIsNeverSent(two, [File(second), Publish], startOf, cap, second);
    assert [first] + [second] == [first, second];
  }

  /** A bucket filed starts past what was published; at a publication no more than a ringful waits. */
  ghost predicate CleanAct<B>(acts: seq<Act<B>>, act: Act<B>, startOf: B -> int, cap: nat) {
    match act
    case File(b) => startOf(b) > Streamed(acts, startOf, cap).published
    case Publish => Pending(acts) <= cap
  }

  ghost predicate Clean<B>(acts: seq<Act<B>>, startOf: B -> int, cap: nat) {
    acts != [] ==>
      var rest := acts[..|acts| - 1];
      Clean(rest, startOf, cap) && CleanAct(rest, acts[|acts| - 1], startOf, cap)
  }

  /** A publication at this watermark would send the bucket. */
  ghost predicate Ahead<B>(history: seq<B>, startOf: B -> int, since: int, i: nat)
    requires i < |history|
  {
    since == ZERO_TIME || startOf(history[i]) > since
  }

  ghost predicate AllAhead<B>(history: seq<B>, startOf: B -> int, since: int, lo: nat, hi: nat)
    requires hi <= |history|
  {
    forall i :: lo <= i < hi ==> Ahead(history, startOf, since, i)
  }

  ghost predicate NoneAhead<B>(history: seq<B>, startOf: B -> int, since: int, lo: nat, hi: nat)
    requires hi <= |history|
  {
    forall i :: lo <= i < hi ==> !Ahead(history, startOf, since, i)
  }

  lemma NewerOneMore<B>(history: seq<B>, startOf: B -> int, since: int, lo: nat, hi: nat)
    requires lo < hi <= |history|
    ensures Newer(history[lo..hi], startOf, since) ==
      if Ahead(history, startOf, since, hi - 1) then Newer(history[lo..hi - 1], startOf, since) + [history[hi - 1]]
      else Newer(history[lo..hi - 1], startOf, since)
  {
    assert history[lo..hi][..hi - lo - 1] == history[lo..hi - 1];
  }

  lemma {:induction false} NewerNone<B>(history: seq<B>, startOf: B -> int, since: int, lo: nat, hi: nat)
    requires lo <= hi <= |history| && NoneAhead(history, startOf, since, lo, hi)
    ensures Newer(history[lo..hi], startOf, since) == []
    decreases hi
  {
    if lo < hi {
      NewerNone(history, startOf, since, lo, hi - 1);
      NewerOneMore(history, startOf, since, lo, hi);
    }
  }

  /**
   If none before `from` is ahead of a watermark, a publication sends at most the rest, and all of it if all are
   ahead.
   */
  lemma {:induction false} NewerFrom<B>(history: seq<B>, startOf: B -> int, since: int, lo: nat, from: nat, hi: nat)
    requires lo <= from <= hi <= |history| && NoneAhead(history, startOf, since, lo, from)
    ensures var newer := Newer(history[lo..hi], startOf, since);
      && |newer| <= hi - from
      && if AllAhead(history, startOf, since, from, hi) then newer == history[from..hi] else |newer| < hi - from
    decreases hi
  {
    if from == hi {
      NewerNone(history, startOf, since, lo, hi);
    } else {
      NewerFrom(history, startOf, since, lo, from, hi - 1);
      NewerOneMore(history, startOf, since, lo, hi);
      assert AllAhead(history, startOf, since, from, hi) <==>
        AllAhead(history, startOf, since, from, hi - 1) && Ahead(history, startOf, since, hi - 1);
      assert history[from..hi] == history[from..hi - 1] + [history[hi - 1]];
    }
  }

  lemma NewestOneMore<B>(buckets: seq<B>, bucket: B, startOf: B -> int, since: int)
    ensures Newest(buckets + [bucket], startOf, since) == Later(Newest(buckets, startOf, since), startOf(bucket))
  {
    assert (buckets + [bucket])[..|buckets|] == buckets;
  }

  /** One bucket more moves the watermark on, and past its start. */
  lemma MarkMoves<B>(history: seq<B>, startOf: B -> int, since: int, lo: nat, hi: nat)
    requires lo < hi <= |history|
    ensures var mark := Newest(Newer(history[lo..hi], startOf, since), startOf, since);
      mark >= Newest(Newer(history[lo..hi - 1], startOf, since), startOf, since) && startOf(history[hi - 1]) <= mark
  {
    var before := Newer(history[lo..hi - 1], startOf, since);
    NewerOneMore(history, startOf, since, lo, hi);
    NewestIsAhead(before, startOf, since);
    NewestOneMore(before, history[hi - 1], startOf, since);
  }

  /** After a publication nothing it reached is past the watermark. */
  lemma {:induction false} PassesAll<B>(history: seq<B>, startOf: B -> int, since: int, lo: nat, hi: nat, i: nat)
    requires lo <= i < hi <= |history|
    ensures startOf(history[i]) <= Newest(Newer(history[lo..hi], startOf, since), startOf, since)
    decreases hi
  {
    MarkMoves(history, startOf, since, lo, hi);
    if i < hi - 1 {
      PassesAll(history, startOf, since, lo, hi - 1, i);
    }
  }

  ghost predicate AllDated<B>(history: seq<B>, startOf: B -> int) {
    forall i :: 0 <= i < |history| ==> Dated(history, startOf, i)
  }

  ghost predicate Passed<B>(history: seq<B>, startOf: B -> int, mark: int, i: nat)
    requires i < |history|
  {
    startOf(history[i]) <= mark
  }

  ghost predicate AllPassed<B>(history: seq<B>, startOf: B -> int, mark: int, lo: int, hi: nat)
    requires hi <= |history|
  {
    forall i :: lo <= i < hi && 0 <= i ==> Passed(history, startOf, mark, i)
  }

  ghost predicate NonePassed<B>(history: seq<B>, startOf: B -> int, mark: int, lo: nat)
    requires lo <= |history|
  {
    forall i :: lo <= i < |history| ==> !Passed(history, startOf, mark, i)
  }

  /** Where the stream stands: the buckets before `n` have had their publication, those from `n` on wait for one. */
  ghost predicate Standing<B>(st: Stream<B>, startOf: B -> int, cap: nat, n: nat, clean: bool) {
    && n <= |st.history| && |st.sent| <= n
    && (if n == 0 then st.published == ZERO_TIME else st.published > ZERO_TIME)
    && AllPassed(st.history, startOf, st.published, |st.history| - cap, n)
    && (clean ==> st.sent == st.history[..n] && NonePassed(st.history, startOf, st.published, n))
    && (!clean ==> |st.sent| < n || !NonePassed(st.history, startOf, st.published, n))
  }

  lemma PassedMore<B>(history: seq<B>, startOf: B -> int, mark: int, lo: nat, bucket: B)
    requires lo <= |history|
    ensures NonePassed(history + [bucket], startOf, mark, lo)
      <==> NonePassed(history, startOf, mark, lo) && startOf(bucket) > mark
  {
    var h := history + [bucket];
    forall i | 0 <= i < |history|
      ensures Passed(h, startOf, mark, i) <==> Passed(history, startOf, mark, i)
    {
    }
    assert Passed(h, startOf, mark, |history|) <==> startOf(bucket) <= mark;
  }

  lemma StandingFile<B>(st: Stream<B>, startOf: B -> int, cap: nat, n: nat, clean: bool, bucket: B)
    requires Standing(st, startOf, cap, n, clean)
    ensures Standing(st.(history := st.history + [bucket]), startOf, cap, n, clean && startOf(bucket) > st.published)
  {
    var h := st.history + [bucket];
    PassedMore(st.history, startOf, st.published, n, bucket);
    forall i | |h| - cap <= i < n && 0 <= i
      ensures Passed(h, startOf, st.published, i)
    {
      assert Passed(st.history, startOf, st.published, i);
    }
    assert h[..n] == st.history[..n];
  }

  /**
   A publication that sends these buckets sends all that wait, or fewer if one of them is behind or has left the ring.
   */
  ghost predicate SendsRest<B>(history: seq<B>, startOf: B -> int, mark: int, cap: nat, n: nat, ticks: seq<B>)
    requires n <= |history|
  {
    && |ticks| <= |history| - n
    && if NonePassed(history, startOf, mark, n) && |history| - n <= cap then ticks == history[n..]
       else |ticks| < |history| - n
  }

  /** A watermark that has passed everything retained. */
  ghost predicate Passes<B>(history: seq<B>, startOf: B -> int, cap: nat, mark: int) {
    && AllPassed(history, startOf, mark, |history| - cap, |history|)
    && mark >= ZERO_TIME && (history != [] <==> mark > ZERO_TIME)
  }

  lemma PublicationSends<B>(st: Stream<B>, startOf: B -> int, cap: nat, n: nat, clean: bool)
    requires Standing(st, startOf, cap, n, clean) && cap >= 1 && AllDated(st.history, startOf)
    ensures SendsRest(st.history, startOf, st.published, cap, n, Newer(Kept(st.history, cap), startOf, st.published))
  {
    var h := st.history;
    var lo := |h| - Min(|h|, cap);
    var from := if lo < n then n else lo;
    forall i | 0 <= i < |h|
      ensures Ahead(h, startOf, st.published, i) <==> !Passed(h, startOf, st.published, i)
    {
      assert Dated(h, startOf, i);
    }
    NewerFrom(h, startOf, st.published, lo, from, |h|);
    assert h[lo..|h|] == Kept(h, cap) && h[n..|h|] == h[n..];
    if lo <= n && !NonePassed(h, startOf, st.published, n) {
      var i :| n <= i < |h| && Passed(h, startOf, st.published, i);
      assert !Ahead(h, startOf, st.published, i);
    }
  }

  lemma PublicationPasses<B>(st: Stream<B>, startOf: B -> int, cap: nat, n: nat, clean: bool)
    requires Standing(st, startOf, cap, n, clean) && cap >= 1 && AllDated(st.history, startOf)
    ensures Passes(st.history, startOf, cap,
                   Newest(Newer(Kept(st.history, cap), startOf, st.published), startOf, st.published))
  {
    var history, since := st.history, st.published;
    var lo := |history| - Min(|history|, cap);
    assert Kept(history, cap) == history[lo..|history|];
    var mark := Newest(Newer(Kept(history, cap), startOf, since), startOf, since);
    NewestIsAhead(Newer(Kept(history, cap), startOf, since), startOf, since);
    forall i | |history| - cap <= i < |history| && 0 <= i
      ensures Passed(history, startOf, mark, i)
    {
      PassesAll(history, startOf, since, lo, |history|, i);
    }
    if history != [] {
      assert Dated(history, startOf, |history| - 1) && Passed(history, startOf, mark, |history| - 1);
    } else {
      NewerNone(history, startOf, since, 0, 0);
    }
  }

  lemma StandingSent<B>(st: Stream<B>, r: Stream<B>, startOf: B -> int, cap: nat, n: nat, clean: bool, still: bool,
                        ticks: seq<B>)
    requires Standing(st, startOf, cap, n, clean) && SendsRest(st.history, startOf, st.published, cap, n, ticks)
    requires r.history == st.history && r.sent == st.sent + ticks && Passes(st.history, startOf, cap, r.published)
    requires still == (clean && |st.history| - n <= cap)
    ensures Standing(r, startOf, cap, |r.history|, still)
  {
    var h := st.history;
    assert h[..n] + h[n..] == h == h[..|h|];
  }

  lemma StandingPublish<B>(st: Stream<B>, startOf: B -> int, cap: nat, n: nat, clean: bool, still: bool)
    requires Standing(st, startOf, cap, n, clean) && cap >= 1 && AllDated(st.history, startOf)
    requires still == (clean && |st.history| - n <= cap)
    ensures Standing(Publication(st, startOf, cap), startOf, cap, |st.history|, still)
  {
    var ticks := Newer(Kept(st.history, cap), startOf, st.published);
    PublicationSends(st, startOf, cap, n, clean);
    PublicationPasses(st, startOf, cap, n, clean);
    StandingSent(st, Sent(st, ticks, startOf), startOf, cap, n, clean, still, ticks);
  }

  lemma AllDatedPrefix<B>(history: seq<B>, startOf: B -> int, n: nat)
    requires AllDated(history, startOf) && n <= |history|
    ensures AllDated(history[..n], startOf)
  {
    forall i | 0 <= i < n
      ensures Dated(history[..n], startOf, i)
    {
      assert Dated(history, startOf, i);
    }
  }

  ghost predicate StandsAs<B>(st: Stream<B>, startOf: B -> int, cap: nat, pending: nat, clean: bool) {
    pending <= |st.history| && Standing(st, startOf, cap, |st.history| - pending, clean)
  }

  /** Where the stream stands after these acts. */
  ghost predicate Stands<B>(acts: seq<Act<B>>, startOf: B -> int, cap: nat) {
    StandsAs(Streamed(acts, startOf, cap), startOf, cap, Pending(acts), Clean(acts, startOf, cap))
  }

  lemma CleanMore<B>(acts: seq<Act<B>>, act: Act<B>, startOf: B -> int, cap: nat)
    ensures Clean(acts + [act], startOf, cap) == (Clean(acts, startOf, cap) && CleanAct(acts, act, startOf, cap))
  {
    assert (acts + [act])[..|acts|] == acts;
  }

  lemma FileStands<B>(st: Stream<B>, startOf: B -> int, cap: nat, pending: nat, clean: bool, bucket: B)
    requires StandsAs(st, startOf, cap, pending, clean)
    ensures StandsAs(st.(history := st.history + [bucket]), startOf, cap, pending + 1,
                     clean && startOf(bucket) > st.published)
  {
    StandingFile(st, startOf, cap, |st.history| - pending, clean, bucket);
  }

  lemma PublicationStands<B>(st: Stream<B>, startOf: B -> int, cap: nat, pending: nat, clean: bool)
    requires StandsAs(st, startOf, cap, pending, clean) && cap >= 1 && AllDated(st.history, startOf)
    ensures StandsAs(Publication(st, startOf, cap), startOf, cap, 0, clean && pending <= cap)
  {
    StandingPublish(st, startOf, cap, |st.history| - pending, clean, clean && pending <= cap);
  }

  lemma StandsNext<B>(acts: seq<Act<B>>, act: Act<B>, startOf: B -> int, cap: nat)
    requires cap >= 1 && Stands(acts, startOf, cap) && AllDated(Streamed(acts, startOf, cap).history, startOf)
    ensures Stands(acts + [act], startOf, cap)
  {
    var st, clean := Streamed(acts, startOf, cap), Clean(acts, startOf, cap);
    OneMoreAct(acts, act, startOf, cap);
    CleanMore(acts, act, startOf, cap);
    match act
    case File(b) => FileStands(st, startOf, cap, Pending(acts), clean, b);
    case Publish => PublicationStands(st, startOf, cap, Pending(acts), clean);
  }

  lemma {:induction false} RunStands<B>(acts: seq<Act<B>>, startOf: B -> int, cap: nat)
    requires cap >= 1 && AllDated(Streamed(acts, startOf, cap).history, startOf)
    ensures Stands(acts, startOf, cap)
  {
    if acts != [] {
      var rest, act := acts[..|acts| - 1], acts[|acts| - 1];
      var st := Streamed(rest, startOf, cap);
      assert acts == rest + [act];
      OneMoreAct(rest, act, startOf, cap);
      var h := Streamed(acts, startOf, cap).history;
      assert h[..|st.history|] == st.history;
      AllDatedPrefix(h, startOf, |st.history|);
      RunStands(rest, startOf, cap);
      StandsNext(rest, act, startOf, cap);
    }
  }

  /**
   Whatever the starts, as long as they come after the zero time: after a publication the stream is the whole history
   exactly when every bucket started past the watermark it was filed at and no more than a ringful was ever pending.
   */
  lemma StreamCompleteIffClean<B>(acts: seq<Act<B>>, startOf: B -> int, cap: nat)
    requires cap >= 1 && acts != [] && acts[|acts| - 1].Publish?
    requires AllDated(Streamed(acts, startOf, cap).history, startOf)
    ensures Streamed(acts, startOf, cap).sent == Streamed(acts, startOf, cap).history <==> Clean(acts, startOf, cap)
  {
    RunStands(acts, startOf, cap);
    var h := Streamed(acts, startOf, cap).history;
    assert h[..|h|] == h;
  }
}
