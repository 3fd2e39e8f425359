/**
  `TEventBuilder::CheckHitData` (src/TEventBuilder.cpp): repair of a
  timestamp-counter overflow in the freshly loaded hits, followed by a sort
  of all hits by timestamp.
 */
module TimestampRepair {
  import opened EventData

  /** The counter range 2^47 - 1 the program compares spans against. */
  const CounterRange: int := 0x7FFF_FFFF_FFFF

  /** Modules 0 and 1 are shifted by four ranges, all others by two. */
  function ShiftAmount(h: Hit): int
  {
    if h.mod == 0 || h.mod == 1 then 4 * CounterRange else 2 * CounterRange
  }

  function Shifted(h: Hit): Hit
  {
    h.(timestamp := h.timestamp + ShiftAmount(h))
  }

  /** The last hit (in load order) is more than one range after the first. */
  predicate Overflowed(hits: seq<Hit>)
    requires |hits| > 0
  {
    hits[|hits| - 1].timestamp - hits[0].timestamp > CounterRange
  }

  /** The step from hit i to hit i + 1 (in load order) exceeds the range. */
  predicate JumpAfter(hits: seq<Hit>, i: int)
    requires 0 <= i < |hits| - 1
  {
    hits[i + 1].timestamp - hits[i].timestamp > CounterRange
  }

  /**
    Where the shifted prefix ends (exclusive) when the loop starts at i: just
    after the first k >= i whose successor jumps by more than the range, or
    at the last hit when there is no such k. The last hit is never shifted.
   */
  function ShiftEnd(hits: seq<Hit>, i: nat): (e: nat)
    requires i < |hits|
    ensures i <= e <= |hits| - 1
    ensures i < |hits| - 1 ==> i < e
    ensures forall k :: i <= k < e - 1 ==> !JumpAfter(hits, k)
    ensures e < |hits| - 1 ==> JumpAfter(hits, e - 1)
    decreases |hits| - i
  {
    if i + 1 >= |hits| then i
    else if JumpAfter(hits, i) then i + 1
    else ShiftEnd(hits, i + 1)
  }

  /** `ShiftEnd` reads only the timestamps from index i on. */
  lemma {:induction false} ShiftEndFrame(a: seq<Hit>, b: seq<Hit>, i: nat)
    requires |a| == |b| && i < |a|
    requires forall k :: i <= k < |a| ==> a[k].timestamp == b[k].timestamp
    ensures ShiftEnd(a, i) == ShiftEnd(b, i)
    decreases |a| - i
  {
    if i + 1 < |a| && !JumpAfter(a, i) {
      ShiftEndFrame(a, b, i + 1);
    }
  }

  /**
    The repair loop of `CheckHitData` from index i on, over the partly
    repaired vector: shift hit i, then stop if the next (not yet shifted)
    hit lies more than one range after hit i's original timestamp.
   */
  function ShiftLoop(hits: seq<Hit>, i: nat): (r: seq<Hit>)
    requires i < |hits|
    ensures |r| == |hits|
    ensures forall k :: 0 <= k < i ==> r[k] == hits[k]
    ensures forall k :: i <= k < ShiftEnd(hits, i) ==> r[k] == Shifted(hits[k])
    ensures forall k :: ShiftEnd(hits, i) <= k < |hits| ==> r[k] == hits[k]
    decreases |hits| - i
  {
    if i + 1 >= |hits| then hits
    else
      var originalTS := hits[i].timestamp;
      var next := hits[i := Shifted(hits[i])];
      if next[i + 1].timestamp - originalTS > CounterRange then next
      else
        ShiftEndFrame(hits, next, i + 1);
        ShiftLoop(next, i + 1)
  }

  /**
    The overflow repair: nothing changes unless the load-order span exceeds
    the range; then exactly the load-order prefix ending at the first hit
    whose successor jumps by more than the range is shifted. Only
    timestamps change.
   */
  function Repair(hits: seq<Hit>): (r: seq<Hit>)
    requires |hits| > 0
    ensures |r| == |hits|
    ensures !Overflowed(hits) ==> r == hits
    ensures Overflowed(hits) ==>
              && |hits| >= 2
              && (forall k :: 0 <= k < ShiftEnd(hits, 0) ==> r[k] == Shifted(hits[k]))
              && (forall k :: ShiftEnd(hits, 0) <= k < |hits| ==> r[k] == hits[k])
    ensures r[|r| - 1] == hits[|hits| - 1]
    ensures forall k :: 0 <= k < |r| ==> r[k].(timestamp := hits[k].timestamp) == hits[k]
  {
    if Overflowed(hits) then ShiftLoop(hits, 0) else hits
  }

  predicate SortedByTime(s: seq<Hit>)
  {
    forall i, j :: 0 <= i < j < |s| ==> s[i].timestamp <= s[j].timestamp
  }

  function InsertByTime(h: Hit, s: seq<Hit>): (r: seq<Hit>)
    requires SortedByTime(s)
    ensures |r| == |s| + 1
    ensures multiset(r) == multiset(s) + multiset{h}
    ensures forall x :: x in r ==> x == h || x in s
    ensures SortedByTime(r)
  {
    if s == [] || h.timestamp <= s[0].timestamp then [h] + s
    else
      var rest := InsertByTime(h, s[1..]);
      assert s == [s[0]] + s[1..];
      assert forall j :: 0 <= j < |rest| ==> s[0].timestamp <= rest[j].timestamp by {
        forall j | 0 <= j < |rest|
          ensures s[0].timestamp <= rest[j].timestamp
        {
          assert rest[j] in rest;
        }
      }
      [s[0]] + rest
  }

  /**
    The ascending sort by timestamp. `std::sort` is not stable, so the
    program promises nothing about the order of equal timestamps; the model
    fixes one order and its contract claims only sortedness and permutation.
   */
  function SortByTime(s: seq<Hit>): (r: seq<Hit>)
    ensures |r| == |s|
    ensures multiset(r) == multiset(s)
    ensures SortedByTime(r)
  {
    if s == [] then []
    else
      assert s == [s[0]] + s[1..];
      InsertByTime(s[0], SortByTime(s[1..]))
  }

  /**
    `CheckHitData`: repair, then sort. The program reads `.at(0)` first, so
    it demands a non-empty vector.
   */
  function CheckHitData(hits: seq<Hit>): (r: seq<Hit>)
    requires |hits| > 0
    ensures |r| == |hits|
    ensures SortedByTime(r)
    ensures multiset(r) == multiset(Repair(hits))
    ensures !Overflowed(hits) ==> multiset(r) == multiset(hits)
  {
    SortByTime(Repair(hits))
  }

  /** The timestamps of a hit sequence, in order. */
  function Times(s: seq<Hit>): (t: seq<int>)
    ensures |t| == |s|
    ensures forall i :: 0 <= i < |s| ==> t[i] == s[i].timestamp
  {
    seq(|s|, i requires 0 <= i < |s| => s[i].timestamp)
  }

  lemma TimesAppend(a: seq<Hit>, b: seq<Hit>)
    ensures Times(a + b) == Times(a) + Times(b)
  {
    assert forall i :: 0 <= i < |a + b| ==> Times(a + b)[i] == (Times(a) + Times(b))[i];
  }

  /** Removing the hit at k removes one copy of it. */
  lemma SeqRemove(b: seq<Hit>, k: int)
    requires 0 <= k < |b|
    ensures multiset(b[..k] + b[k + 1..]) == multiset(b) - multiset{b[k]}
  {
    assert b == b[..k] + [b[k]] + b[k + 1..];
  }

  /** Removing the hit at k removes one copy of its timestamp. */
  lemma TimesRemove(b: seq<Hit>, k: int)
    requires 0 <= k < |b|
    ensures multiset(Times(b)) == multiset(Times(b[..k] + b[k + 1..])) + multiset{b[k].timestamp}
  {
    assert b == b[..k] + [b[k]] + b[k + 1..];
    TimesAppend(b[..k] + [b[k]], b[k + 1..]);
    TimesAppend(b[..k], [b[k]]);
    TimesAppend(b[..k], b[k + 1..]);
    assert Times([b[k]]) == [b[k].timestamp];
  }

  /** Permuting hits permutes their timestamps. */
  lemma {:induction false} TimesPermutation(a: seq<Hit>, b: seq<Hit>)
    requires multiset(a) == multiset(b)
    ensures multiset(Times(a)) == multiset(Times(b))
    decreases |a|
  {
    if a == [] {
      assert |b| == |multiset(b)| == 0;
    } else {
      assert a[0] in multiset(b);
      var k :| 0 <= k < |b| && b[k] == a[0];
      var rest := b[..k] + b[k + 1..];
      SeqRemove(b, k);
      assert a == [a[0]] + a[1..];
      assert multiset(a[1..]) == multiset(a) - multiset{a[0]};
      TimesPermutation(a[1..], rest);
      TimesAppend([a[0]], a[1..]);
      assert Times([a[0]]) == [a[0].timestamp];
      TimesRemove(b, k);
    }
  }

  predicate SortedInts(s: seq<int>)
  {
    forall i, j :: 0 <= i < j < |s| ==> s[i] <= s[j]
  }

  /** A multiset of integers has exactly one ascending arrangement. */
  lemma {:induction false} SortedIntsUnique(x: seq<int>, y: seq<int>)
    requires SortedInts(x) && SortedInts(y)
    requires multiset(x) == multiset(y)
    ensures x == y
    decreases |x|
  {
    if x == [] {
      assert |y| == |multiset(y)| == 0;
    } else {
      assert |y| == |multiset(y)| == |x|;
      assert x[0] in multiset(y) && y[0] in multiset(x);
      assert x[0] == y[0] by {
        var i :| 0 <= i < |y| && y[i] == x[0];
        var j :| 0 <= j < |x| && x[j] == y[0];
        assert y[0] <= y[i] && x[0] <= x[j];
      }
      assert x == [x[0]] + x[1..] && y == [y[0]] + y[1..];
      assert multiset(x) == multiset{x[0]} + multiset(x[1..]);
      assert multiset(y) == multiset{y[0]} + multiset(y[1..]);
      assert multiset(x[1..]) == multiset(x) - multiset{x[0]};
      assert multiset(y[1..]) == multiset(y) - multiset{y[0]};
      SortedIntsUnique(x[1..], y[1..]);
    }
  }

  /** No two hits share a timestamp. */
  predicate DistinctTimes(s: seq<Hit>)
  {
    forall i, j :: 0 <= i < j < |s| ==> s[i].timestamp != s[j].timestamp
  }

  /**
    When no two hits share a timestamp, a multiset of hits has exactly one
    time-ordered arrangement, so any sort, stable or not, gives it.
   */
  lemma SortedHitsUnique(x: seq<Hit>, y: seq<Hit>)
    requires SortedByTime(x) && SortedByTime(y) && DistinctTimes(x)
    requires multiset(x) == multiset(y)
    ensures x == y
  {
    TimesPermutation(x, y);
    SortedIntsUnique(Times(x), Times(y));
    assert |x| == |Times(x)| == |Times(y)| == |y|;
    forall k | 0 <= k < |y|
      ensures y[k] == x[k]
    {
      assert y[k] in multiset(x);
      var m :| 0 <= m < |x| && x[m] == y[k];
      assert Times(x)[m] == Times(y)[k] == Times(x)[k];
    }
  }

  /**
    Without equal timestamps, every time-ordered permutation of the repaired
    hits is the prepared vector: the tie order the sort leaves open does not
    arise.
   */
  lemma CheckHitDataAnySort(hits: seq<Hit>, sorted: seq<Hit>)
    requires |hits| > 0
    requires SortedByTime(sorted) && DistinctTimes(sorted)
    requires multiset(sorted) == multiset(Repair(hits))
    ensures sorted == CheckHitData(hits)
  {
    SortedHitsUnique(sorted, CheckHitData(hits));
  }

  /**
    Sorting a sequence that is already sorted and has no residual overflow
    gives back the same timestamps in the same order (equal-timestamp hits
    may trade places under an unstable sort).
   */
  lemma CheckHitDataIdempotent(hits: seq<Hit>)
    requires |hits| > 0
    requires SortedByTime(hits) && !Overflowed(hits)
    ensures Times(CheckHitData(hits)) == Times(hits)
  {
    var r := CheckHitData(hits);
    TimesPermutation(r, hits);
    SortedIntsUnique(Times(r), Times(hits));
  }
}
