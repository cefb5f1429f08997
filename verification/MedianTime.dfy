/** The median of the last eleven timestamps (chain.go calcPastMedianTime, timesorter.go) never decreases along
    a chain whose blocks each passed the timestamp check of accept.go. */
module MedianTime {
  import opened Arith

  const MEDIAN_TIME_BLOCKS := 11

  predicate Sorted(s: seq<int>) {
    forall i, j :: 0 <= i < j < |s| ==> s[i] <= s[j]
  }

  function Insert(x: int, s: seq<int>): (r: seq<int>)
    ensures |r| == |s| + 1
  {
    if s == [] || x <= s[0] then [x] + s else [s[0]] + Insert(x, s[1..])
  }

  // The library sort: the same timestamps in ascending order.
  function Sort(s: seq<int>): (r: seq<int>)
    ensures |r| == |s|
  {
    if s == [] then [] else Insert(s[0], Sort(s[1..]))
  }

  lemma {:induction false} InsertSorts(x: int, s: seq<int>)
    requires Sorted(s)
    ensures Sorted(Insert(x, s)) && multiset(Insert(x, s)) == multiset{x} + multiset(s)
  {
    if s == [] || x <= s[0] {
      var r := [x] + s;
      assert forall i :: 1 <= i < |r| ==> r[i] == s[i - 1];
    } else {
      var r := Insert(x, s[1..]);
      InsertSorts(x, s[1..]);
      forall i | 0 <= i < |r| ensures s[0] <= r[i] {
        InsertedFrom(x, s[1..], i);
      }
      HeadMultiset(s);
      assert [s[0]] + r == Insert(x, s);
    }
  }

  lemma HeadMultiset(s: seq<int>)
    requires s != []
    ensures multiset(s) == multiset{s[0]} + multiset(s[1..])
  {
    assert s == [s[0]] + s[1..];
  }

  lemma {:induction false} InsertedFrom(x: int, s: seq<int>, i: nat)
    requires i < |Insert(x, s)|
    ensures Insert(x, s)[i] == x || Insert(x, s)[i] in s
  {
    if s != [] && x > s[0] && i > 0 {
      InsertedFrom(x, s[1..], i - 1);
    }
  }

  lemma {:induction false} SortSorts(s: seq<int>)
    ensures Sorted(Sort(s)) && multiset(Sort(s)) == multiset(s)
  {
    if s != [] {
      SortSorts(s[1..]);
      InsertSorts(s[0], Sort(s[1..]));
      assert s == [s[0]] + s[1..];
    }
  }

  // The newest timestamps of a chain, the newest first.
  function Window(times: seq<int>): (w: seq<int>)
    ensures |w| == Min(MEDIAN_TIME_BLOCKS, |times|)
  {
    seq(Min(MEDIAN_TIME_BLOCKS, |times|), i requires 0 <= i < |times| => times[|times| - 1 - i])
  }

  /** calcPastMedianTime for a chain with these timestamps; for an even number it takes the upper middle one. */
  function PastMedian(times: seq<int>): int
    requires times != []
  {
    Sort(Window(times))[|Window(times)| / 2]
  }

  // ---------------------------------------------------------------- counting smaller elements

  function CountBelow(s: seq<int>, m: int): nat {
    if s == [] then 0 else (if s[0] < m then 1 else 0) + CountBelow(s[1..], m)
  }

  lemma {:induction false} CountInsert(x: int, s: seq<int>, m: int)
    ensures CountBelow(Insert(x, s), m) == (if x < m then 1 else 0) + CountBelow(s, m)
  {
    if s != [] && x > s[0] {
      CountInsert(x, s[1..], m);
    }
  }

  lemma {:induction false} CountSort(s: seq<int>, m: int)
    ensures CountBelow(Sort(s), m) == CountBelow(s, m)
  {
    if s != [] {
      CountSort(s[1..], m);
      CountInsert(s[0], Sort(s[1..]), m);
    }
  }

  lemma {:induction false} CountPrefix(s: seq<int>, k: nat, m: int)
    requires k <= |s|
    ensures CountBelow(s[..k], m) <= CountBelow(s, m)
  {
    if k > 0 {
      assert s[..k][1..] == s[1..][..k - 1];
      CountPrefix(s[1..], k - 1, m);
    }
  }

  // In a sorted sequence position `k` holds at least `m` exactly when at most `k` elements are below `m`.
  lemma {:induction false} RankInSorted(s: seq<int>, k: nat, m: int)
    requires Sorted(s) && k < |s|
    ensures m <= s[k] <==> CountBelow(s, m) <= k
  {
    if s[0] >= m {
      NoneBelow(s, m);
    } else if k > 0 {
      RankInSorted(s[1..], k - 1, m);
    }
  }

  lemma {:induction false} NoneBelow(s: seq<int>, m: int)
    requires forall i :: 0 <= i < |s| ==> m <= s[i]
    ensures CountBelow(s, m) == 0
  {
    if s != [] {
      NoneBelow(s[1..], m);
    }
  }

  // ---------------------------------------------------------------- what the median is

  function LastEleven(times: seq<int>): seq<int> {
    times[|times| - Min(11, |times|)..]
  }

  /** `m` is one of the values, at most half of them, rounded down, are smaller, and more than that are not greater. */
  ghost predicate IsMedian(s: seq<int>, m: int) {
    m in s && CountBelow(s, m) <= |s| / 2 < CountBelow(s, m + 1)
  }

  lemma {:induction false} CountSnoc(front: seq<int>, x: int, m: int)
    ensures CountBelow(front + [x], m) == CountBelow(front, m) + if x < m then 1 else 0
  {
    if front == [] {
      assert CountBelow([x][1..], m) == 0;
    } else {
      assert (front + [x])[1..] == front[1..] + [x];
      CountSnoc(front[1..], x, m);
    }
  }

  lemma {:induction false} CountReversed(a: seq<int>, b: seq<int>, m: int)
    requires |a| == |b| && forall i :: 0 <= i < |a| ==> a[i] == b[|a| - 1 - i]
    ensures CountBelow(a, m) == CountBelow(b, m)
  {
    if a != [] {
      var n := |b| - 1;
      assert b == b[..n] + [b[n]];
      CountReversed(a[1..], b[..n], m);
      CountSnoc(b[..n], b[n], m);
    }
  }

  /** The median time is the median of the last eleven timestamps, or of all of them while there are fewer. */
  lemma PastMedianIsMedian(times: seq<int>)
    requires times != []
    ensures IsMedian(LastEleven(times), PastMedian(times))
  {
    hide CountBelow, Sort;
    var m, w, last := PastMedian(times), Window(times), LastEleven(times);
    SortSorts(w);
    assert m in multiset(Sort(w));
    var i :| 0 <= i < |w| && w[i] == m;
    assert last[|w| - 1 - i] == m;
    RankInSorted(Sort(w), |w| / 2, m);
    RankInSorted(Sort(w), |w| / 2, m + 1);
    CountSort(w, m);
    CountSort(w, m + 1);
    CountReversed(w, last, m);
    CountReversed(w, last, m + 1);
  }

  /** Only one value is the median. */
  lemma MedianIsUnique(s: seq<int>, m: int, n: int)
    requires IsMedian(s, m) && IsMedian(s, n)
    ensures m == n
  {
    hide CountBelow;
    CountGrows(s, m + 1, n);
    CountGrows(s, n + 1, m);
  }

  lemma {:induction false} CountGrows(s: seq<int>, m: int, n: int)
    ensures m <= n ==> CountBelow(s, m) <= CountBelow(s, n)
  {
    if s != [] {
      CountGrows(s[1..], m, n);
    }
  }

  // ---------------------------------------------------------------- monotonicity

  /** One more block whose timestamp passed the check does not lower the median, with a full window and with the
      growing windows near genesis alike. */
  lemma MedianGrows(times: seq<int>, t: int)
    requires times != [] && t > PastMedian(times)
    ensures PastMedian(times) <= PastMedian(times + [t])
  {
    var m, w, w' := PastMedian(times), Window(times), Window(times + [t]);
    var k := Min(|w|, MEDIAN_TIME_BLOCKS - 1);
    assert w' == [t] + w[..k];
    assert w'[1..] == w[..k];
    SortSorts(w);
    SortSorts(w');
    RankInSorted(Sort(w), |w| / 2, m);
    CountSort(w, m);
    CountPrefix(w, k, m);
    CountSort(w', m);
    RankInSorted(Sort(w'), |w'| / 2, m);
  }

  /** Every block after the first has a timestamp after the median of the blocks before it. */
  predicate PassedTimeChecks(times: seq<int>) {
    forall i :: 1 <= i < |times| ==> times[i] > PastMedian(times[..i])
  }

  predicate NeverFalls(times: seq<int>) {
    forall i, j :: 1 <= i <= j <= |times| ==> PastMedian(times[..i]) <= PastMedian(times[..j])
  }

  /** Along a chain of accepted blocks the median time never decreases. */
  lemma MedianNeverDecreases(times: seq<int>)
    requires PassedTimeChecks(times)
    ensures NeverFalls(times)
  {
    hide PastMedian;
    forall i, j | 1 <= i <= j <= |times| ensures PastMedian(times[..i]) <= PastMedian(times[..j]) {
      MedianOfPrefixes(times, i, j);
    }
  }

  lemma {:induction false} MedianOfPrefixes(times: seq<int>, i: nat, j: nat)
    requires PassedTimeChecks(times) && 1 <= i <= j <= |times|
    ensures PastMedian(times[..i]) <= PastMedian(times[..j])
    decreases j
  {
    hide PastMedian;
    if i < j {
      MedianOfPrefixes(times, i, j - 1);
      assert times[..j] == times[..j - 1] + [times[j - 1]];
      MedianGrows(times[..j - 1], times[j - 1]);
    }
  }
}
