/** The stake modifier (kernel.go): up to 64 rounds that each pick the candidate block with the smallest selection
    hash, and the modifier made of the picked blocks' entropy bits. */
module StakeModifier {
  import opened Arith
  import opened Hashes
  import opened Wrappers

  const MODIFIER_INTERVAL_RATIO := 3
  const ROUNDS := 64

  // A candidate block; `proof` is its proof-of-stake hash, None for proof-of-work.
  datatype Candidate = Candidate(time: nat, hash: ShaHash, proof: Option<ShaHash>, entropy: bool)

  // ---------------------------------------------------------------- selection intervals

  // Later sections are longer, up to three times the first.
  function Section(interval: nat, section: nat): int
    requires section < ROUNDS
  {
    interval * 63 / (63 + (63 - section) * (MODIFIER_INTERVAL_RATIO - 1))
  }

  // The sum of the first `k` sections.
  function SectionsTo(interval: nat, k: nat): int
    requires k <= ROUNDS
  {
    if k == 0 then 0 else SectionsTo(interval, k - 1) + Section(interval, k - 1)
  }

  method GetStakeModifierSelectionInterval(interval: nat) returns (total: int)
    ensures total == SectionsTo(interval, ROUNDS)
  {
    total := 0;
    for section := 0 to ROUNDS
      invariant total == SectionsTo(interval, section)
    {
      total := total + Section(interval, section);
    }
  }

  function SelectionStart(interval: nat, prevTime: nat): int
    requires interval > 0
  {
    prevTime / interval * interval - SectionsTo(interval, ROUNDS)
  }

  // The end of the selection window of a round.
  function Stop(interval: nat, prevTime: nat, round: nat): int
    requires interval > 0 && round < ROUNDS
  {
    SelectionStart(interval, prevTime) + SectionsTo(interval, round + 1)
  }

  /** The selection windows grow until the last one ends exactly at the start of the modifier interval that the
      previous block falls into. */
  lemma LastStopIsBoundary(interval: nat, prevTime: nat)
    requires interval > 0
    ensures var stop := Stop(interval, prevTime, ROUNDS - 1);
            stop == prevTime / interval * interval && stop <= prevTime < stop + interval
  {
    hide SectionsTo;
    DivFacts(prevTime, interval);
  }

  /** The window of round `r` is 63 / (189 - 2 * r) intervals longer than the one before it: later sections are
      longer, the first is a third of an interval and the last a whole one, so at most three times the first and a
      rounding. */
  lemma SectionsGrow(interval: nat, prevTime: nat, r: nat)
    requires interval > 0 && r < ROUNDS
    ensures var step := Stop(interval, prevTime, r) - if r == 0 then SelectionStart(interval, prevTime)
                                                      else Stop(interval, prevTime, r - 1);
      && step == interval * 63 / (189 - 2 * r)
      && interval / 3 <= step <= interval
      && (r == 0 ==> step == interval / 3) && (r == 63 ==> step == interval)
      && (r > 0 ==> interval * 63 / (189 - 2 * (r - 1)) <= step)
    ensures interval <= 3 * (interval / 3) + 2
  {
    hide SelectionStart;
    var n := interval * 63;
    SectionsSnoc(interval, r);
    NestedQuotient(n, 63, 3);
    QuotientOfProduct(interval, 63);
    QuotientFalls(n, 189 - 2 * r, 189);
    QuotientFalls(n, 63, 189 - 2 * r);
    if r > 0 {
      QuotientFalls(n, 189 - 2 * r, 189 - 2 * (r - 1));
    }
  }

  lemma SectionsSnoc(interval: nat, r: nat)
    requires r < ROUNDS
    ensures SectionsTo(interval, 0) == 0
    ensures SectionsTo(interval, r + 1) == SectionsTo(interval, r) + interval * 63 / (189 - 2 * r)
  {
  }

  // ---------------------------------------------------------------- the order of candidates

  /** blockTimeHashSorter.Less: by time, then by hash from the most significant byte down. */
  predicate Less(a: Candidate, b: Candidate) {
    if a.time == b.time then LessBytes(a.hash, b.hash, HASH_SIZE) else a.time < b.time
  }

  lemma LessByNumber(a: Candidate, b: Candidate)
    ensures Less(a, b) <==> a.time < b.time || (a.time == b.time && LittleEndian(a.hash) < LittleEndian(b.hash))
  {
    LessIsNumeric(a.hash, b.hash, HASH_SIZE);
    assert a.hash[..HASH_SIZE] == a.hash && b.hash[..HASH_SIZE] == b.hash;
  }

  // The method Less of the source's sorter, with its loop over the bytes.
  method LessAt(s: seq<Candidate>, i: nat, j: nat) returns (less: bool)
    requires i < |s| && j < |s|
    ensures less <==> s[i].time < s[j].time
                      || (s[i].time == s[j].time && LittleEndian(s[i].hash) < LittleEndian(s[j].hash))
  {
    LessByNumber(s[i], s[j]);
    if s[i].time == s[j].time {
      var bi, bj := s[i].hash, s[j].hash;
      var k := HASH_SIZE;
      while k > 0
        invariant 0 <= k <= HASH_SIZE && LessBytes(bi, bj, k) == LessBytes(bi, bj, HASH_SIZE)
      {
        k := k - 1;
        if bi[k] < bj[k] {
          return true;
        } else if bi[k] > bj[k] {
          return false;
        }
      }
      return false;
    }
    return s[i].time < s[j].time;
  }

  /** Less is a strict total order on blocks, which differ in their hash. */
  lemma LessIsStrictTotal(a: Candidate, b: Candidate, c: Candidate)
    ensures !Less(a, a)
    ensures Less(a, b) && Less(b, c) ==> Less(a, c)
    ensures a.hash != b.hash ==> Less(a, b) || Less(b, a)
  {
    LessByNumber(a, a);
    LessByNumber(a, b);
    LessByNumber(b, a);
    LessByNumber(b, c);
    LessByNumber(a, c);
    if a.hash != b.hash && LittleEndian(a.hash) == LittleEndian(b.hash) {
      LittleEndianInjective(a.hash, b.hash);
    }
  }

  ghost predicate InOrder(s: seq<Candidate>) {
    forall i, j :: 0 <= i < j < |s| ==> Less(s[i], s[j])
  }

  /** The sorted candidates do not depend on the order they were collected in: two sorted arrangements of the same
      blocks are equal. */
  lemma {:induction false} SortedIsUnique(a: seq<Candidate>, b: seq<Candidate>)
    requires InOrder(a) && InOrder(b) && multiset(a) == multiset(b)
    ensures a == b
  {
    hide InOrder, Less;
    assert |a| == |multiset(a)| == |multiset(b)| == |b|;
    if a != [] {
      FirstIsLeast(a, b);
      FirstIsLeast(b, a);
      LessIsStrictTotal(a[0], b[0], a[0]);
      TailInOrder(a);
      TailInOrder(b);
      SortedIsUnique(a[1..], b[1..]);
    }
  }

  lemma TailInOrder(a: seq<Candidate>)
    requires InOrder(a) && a != []
    ensures InOrder(a[1..]) && multiset(a[1..]) == multiset(a) - multiset{a[0]} && a == [a[0]] + a[1..]
  {
    assert a == [a[0]] + a[1..];
  }

  lemma FirstIsLeast(a: seq<Candidate>, b: seq<Candidate>)
    requires InOrder(a) && a != [] && b != [] && multiset(a) == multiset(b)
    ensures a[0] == b[0] || Less(a[0], b[0])
  {
    assert b[0] in multiset(b);
    assert b[0] in a;
  }

  // ---------------------------------------------------------------- one round

  // The double hash of a proof hash and the previous modifier, an arbitrary function here.
  type Digest = (ShaHash, nat) -> ShaHash

  /** The selection hash as a number; dividing by 2^32 favours proof-of-stake blocks. */
  function SelectionKey(d: Digest, c: Candidate, modifier: nat): int {
    match c.proof
    case Some(proof) => LittleEndian(d(proof, modifier)) / 0x1_0000_0000
    case None => LittleEndian(d(c.hash, modifier))
  }

  /** The key is the selection hash of the block's proof if it has one, and of its own hash otherwise, as a little-
      endian number; only the first is divided by 2^32. */
  lemma KeyFavoursStake(d: Digest, c: Candidate, modifier: nat)
    ensures var key := SelectionKey(d, c, modifier);
      && (c.proof.Some? ==>
            var n := LittleEndian(d(c.proof.value, modifier));
            key * 0x1_0000_0000 <= n < (key + 1) * 0x1_0000_0000)
      && (c.proof.None? ==> key == LittleEndian(d(c.hash, modifier)))
  {
    hide LittleEndian;
    if c.proof.Some? {
      DivFacts(LittleEndian(d(c.proof.value, modifier)), 0x1_0000_0000);
    }
  }

  // The loop over the sorted candidates from position `i` on, with the best one so far.
  function SelectFrom(keys: seq<int>, cs: seq<Candidate>, picked: set<nat>, stop: int, i: nat,
                      best: Option<nat>): Option<nat>
    requires |keys| == |cs| && i <= |cs| && (best.Some? ==> best.value < |cs|)
    decreases |cs| - i
  {
    if i == |cs| then best
    else if best.Some? && cs[i].time > stop then best
    else if i in picked then SelectFrom(keys, cs, picked, stop, i + 1, best)
    else if best.None? || keys[i] < keys[best.value] then SelectFrom(keys, cs, picked, stop, i + 1, Some(i))
    else SelectFrom(keys, cs, picked, stop, i + 1, best)
  }

  // A candidate a round may pick: not picked before, and inside the window or the first one left.
  ghost predicate Eligible(cs: seq<Candidate>, picked: set<nat>, stop: int, i: nat) {
    i < |cs| && i !in picked && (cs[i].time <= stop || forall j: nat :: j < i ==> j in picked)
  }

  /** The candidate with the smallest selection hash among the eligible ones, the earliest of equals. */
  ghost predicate IsBest(keys: seq<int>, cs: seq<Candidate>, picked: set<nat>, stop: int, r: nat)
    requires |keys| == |cs|
  {
    && Eligible(cs, picked, stop, r)
    && (forall i: nat :: Eligible(cs, picked, stop, i) ==> keys[r] <= keys[i])
    && (forall i: nat :: Eligible(cs, picked, stop, i) && i < r ==> keys[r] < keys[i])
  }

  ghost predicate ByTime(cs: seq<Candidate>) {
    forall i, j :: 0 <= i < j < |cs| ==> cs[i].time <= cs[j].time
  }

  // `best` is the best of the eligible candidates before position `i`.
  ghost predicate BestSoFar(keys: seq<int>, cs: seq<Candidate>, picked: set<nat>, stop: int, i: nat, best: Option<nat>)
    requires |keys| == |cs| && i <= |cs|
  {
    match best
    case None => forall j: nat :: j < i ==> j in picked
    case Some(r) =>
      && r < i && Eligible(cs, picked, stop, r)
      && (forall j: nat :: j < i && Eligible(cs, picked, stop, j) ==> keys[r] <= keys[j])
      && (forall j: nat :: j < r && Eligible(cs, picked, stop, j) ==> keys[r] < keys[j])
  }

  lemma {:induction false} SelectFromIsBest(keys: seq<int>, cs: seq<Candidate>, picked: set<nat>, stop: int, i: nat,
                                             best: Option<nat>)
    requires |keys| == |cs| && i <= |cs| && ByTime(cs) && BestSoFar(keys, cs, picked, stop, i, best)
    requires exists j: nat :: j < |cs| && j !in picked
    ensures var r := SelectFrom(keys, cs, picked, stop, i, best);
            r.Some? && r.value < |cs| && IsBest(keys, cs, picked, stop, r.value)
    decreases |cs| - i
  {
    if i == |cs| {
    } else if best.Some? && cs[i].time > stop {
      forall j: nat | Eligible(cs, picked, stop, j) ensures j < i {}
    } else if i in picked {
      SelectFromIsBest(keys, cs, picked, stop, i + 1, best);
    } else if best.None? || keys[i] < keys[best.value] {
      SelectFromIsBest(keys, cs, picked, stop, i + 1, Some(i));
    } else {
      SelectFromIsBest(keys, cs, picked, stop, i + 1, best);
    }
  }

  /** selectBlockFromCandidates on sorted candidates, `picked` being the positions selected in earlier rounds: as
      long as one is left it finds the best eligible one. */
  method SelectBlockFromCandidates(d: Digest, cs: seq<Candidate>, picked: set<nat>, stop: int, modifier: nat)
    returns (selected: Option<nat>)
    ensures selected == Select(d, cs, picked, stop, modifier)
    ensures ByTime(cs) && (exists j: nat :: j < |cs| && j !in picked) ==>
              selected.Some? && selected.value < |cs| && IsBest(Keys(d, cs, modifier), cs, picked, stop, selected.value)
  {
    selected := None;
    var hashBest := 0;
    var i := 0;
    ghost var keys := Keys(d, cs, modifier);
    while i < |cs|
      invariant i <= |cs| && (selected.Some? ==> selected.value < |cs| && hashBest == keys[selected.value])
      invariant SelectFrom(keys, cs, picked, stop, i, selected) == SelectFrom(keys, cs, picked, stop, 0, None)
    {
      if selected.Some? && cs[i].time > stop {
        break;
      }
      if i in picked {
        i := i + 1;
        continue;
      }
      var hashSelection := SelectionKey(d, cs[i], modifier);
      if selected.Some? && hashSelection < hashBest {
        hashBest := hashSelection;
        selected := Some(i);
      } else if selected.None? {
        hashBest := hashSelection;
        selected := Some(i);
      }
      i := i + 1;
    }
    if ByTime(cs) && exists j: nat :: j < |cs| && j !in picked {
      SelectFromIsBest(keys, cs, picked, stop, 0, None);
    }
  }

  function Keys(d: Digest, cs: seq<Candidate>, modifier: nat): (keys: seq<int>)
    ensures |keys| == |cs|
  {
    seq(|cs|, i requires 0 <= i < |cs| => SelectionKey(d, cs[i], modifier))
  }

  function Select(d: Digest, cs: seq<Candidate>, picked: set<nat>, stop: int, modifier: nat): Option<nat> {
    SelectFrom(Keys(d, cs, modifier), cs, picked, stop, 0, None)
  }

  // ---------------------------------------------------------------- all rounds

  function AsSet(picks: seq<nat>): set<nat> {
    set p | p in picks
  }

  // The positions picked in the first `k` rounds.
  function Picks(d: Digest, cs: seq<Candidate>, interval: nat, prevTime: nat, modifier: nat, k: nat): seq<nat>
    requires interval > 0 && k <= ROUNDS
  {
    if k == 0 then []
    else
      var before := Picks(d, cs, interval, prevTime, modifier, k - 1);
      var pick := Select(d, cs, AsSet(before), Stop(interval, prevTime, k - 1), modifier);
      before + [if pick.Some? then pick.value else 0]
  }

  ghost predicate Fresh(cs: seq<Candidate>, picks: seq<nat>) {
    && (forall i :: 0 <= i < |picks| ==> picks[i] < |cs|)
    && (forall i, j :: 0 <= i < j < |picks| ==> picks[i] != picks[j])
  }

  lemma {:induction false} FreshSize(cs: seq<Candidate>, picks: seq<nat>)
    requires Fresh(cs, picks)
    ensures |AsSet(picks)| == |picks|
  {
    if picks != [] {
      var front, last := picks[..|picks| - 1], picks[|picks| - 1];
      FreshSize(cs, front);
      assert AsSet(picks) == AsSet(front) + {last};
    }
  }

  lemma {:induction false} SomeLeft(n: nat, picked: set<nat>)
    requires |picked| < n
    ensures exists j: nat :: j < n && j !in picked
  {
    if n - 1 in picked {
      SomeLeft(n - 1, picked - {n - 1});
      var j: nat :| j < n - 1 && j !in picked - {n - 1};
      assert j !in picked;
    }
  }

  // The pick of round `r` is the best block that round may take.
  ghost predicate BestOfRound(d: Digest, cs: seq<Candidate>, interval: nat, prevTime: nat, modifier: nat,
                              picks: seq<nat>, r: nat)
    requires interval > 0 && r < |picks| && r < ROUNDS
  {
    IsBest(Keys(d, cs, modifier), cs, AsSet(picks[..r]), Stop(interval, prevTime, r), picks[r])
  }

  /** Every round finds a block, a new one, and the best of those eligible in it. */
  lemma {:induction false} EveryRoundPicksBest(d: Digest, cs: seq<Candidate>, interval: nat, prevTime: nat,
                                                modifier: nat, k: nat)
    requires interval > 0 && ByTime(cs) && k <= Min(ROUNDS, |cs|)
    ensures var picks := Picks(d, cs, interval, prevTime, modifier, k);
      && |picks| == k && Fresh(cs, picks)
      && (forall r :: 0 <= r < k ==> BestOfRound(d, cs, interval, prevTime, modifier, picks, r))
  {
    hide Select, BestOfRound, Stop, ByTime;
    if k > 0 {
      EveryRoundPicksBest(d, cs, interval, prevTime, modifier, k - 1);
      var before := Picks(d, cs, interval, prevTime, modifier, k - 1);
      var picks := Picks(d, cs, interval, prevTime, modifier, k);
      RoundFinds(d, cs, before, Stop(interval, prevTime, k - 1), modifier);
      forall r | 0 <= r < k ensures BestOfRound(d, cs, interval, prevTime, modifier, picks, r) {
        LongerRuns(d, cs, interval, prevTime, modifier, before, picks[k - 1], r);
      }
    }
  }

  lemma LongerRuns(d: Digest, cs: seq<Candidate>, interval: nat, prevTime: nat, modifier: nat, before: seq<nat>,
                   pick: nat, r: nat)
    requires interval > 0 && r <= |before| < ROUNDS
    requires r < |before| ==> BestOfRound(d, cs, interval, prevTime, modifier, before, r)
    requires r == |before| ==>
               IsBest(Keys(d, cs, modifier), cs, AsSet(before), Stop(interval, prevTime, r), pick)
    ensures BestOfRound(d, cs, interval, prevTime, modifier, before + [pick], r)
  {
    hide IsBest, Keys, Stop;
    assert (before + [pick])[..r] == before[..r];
    assert before[..|before|] == before;
  }

  // One round after the earlier picks.
  lemma RoundFinds(d: Digest, cs: seq<Candidate>, before: seq<nat>, stop: int, modifier: nat)
    requires ByTime(cs) && Fresh(cs, before) && |before| < |cs|
    ensures var pick := Select(d, cs, AsSet(before), stop, modifier);
      && pick.Some? && pick.value < |cs| && pick.value !in before
      && IsBest(Keys(d, cs, modifier), cs, AsSet(before), stop, pick.value)
  {
    FreshSize(cs, before);
    SomeLeft(|cs|, AsSet(before));
    SelectFromIsBest(Keys(d, cs, modifier), cs, AsSet(before), stop, 0, None);
  }

  // Each pick's entropy bit at the position of its round.
  function Bits(cs: seq<Candidate>, picks: seq<nat>): nat {
    if picks == [] then 0
    else
      var n := |picks| - 1;
      Bits(cs, picks[..n]) + if picks[n] < |cs| && cs[picks[n]].entropy then Pow2(n) else 0
  }

  lemma {:induction false} BitsBound(cs: seq<Candidate>, picks: seq<nat>)
    requires forall i :: 0 <= i < |picks| ==> picks[i] < |cs|
    ensures Bits(cs, picks) < Pow2(|picks|)
  {
    if picks != [] {
      BitsBound(cs, picks[..|picks| - 1]);
    }
  }

  /** Bit `k` of the modifier is the entropy bit of the block picked in round `k`; all higher bits are zero. */
  lemma {:induction false} BitIsEntropy(cs: seq<Candidate>, picks: seq<nat>, k: nat)
    requires forall i :: 0 <= i < |picks| ==> picks[i] < |cs|
    ensures Bits(cs, picks) / Pow2(k) % 2 == if k < |picks| && cs[picks[k]].entropy then 1 else 0
  {
    hide Pow2;
    BitsBound(cs, picks);
    if k >= |picks| {
      AtMostPow2(|picks|, k);
      QuotientIs(Bits(cs, picks), Pow2(k), 0);
    } else {
      var n := |picks| - 1;
      var low := Bits(cs, picks[..n]);
      BitsBound(cs, picks[..n]);
      if k == n {
        QuotientIs(Bits(cs, picks), Pow2(k), if cs[picks[n]].entropy then 1 else 0);
      } else {
        BitIsEntropy(cs, picks[..n], k);
        if cs[picks[n]].entropy {
          HigherBit(low, k, n);
        }
      }
    }
  }

  lemma AtMostPow2(a: nat, b: nat)
    requires a <= b
    ensures Pow2(a) <= Pow2(b)
  {
    if a < b {
      Pow2Order(a, b);
    }
  }

  lemma {:induction false} PowSplit(k: nat, n: nat)
    requires k <= n
    ensures Pow2(n) == Pow2(n - k) * Pow2(k)
  {
    if k > 0 {
      PowSplit(k - 1, n - 1);
      assert Pow2(n) == 2 * Pow2(n - 1) && Pow2(k) == 2 * Pow2(k - 1);
    }
  }

  // Setting a higher bit leaves bit `k` alone.
  lemma HigherBit(low: nat, k: nat, n: nat)
    requires k < n
    ensures (low + Pow2(n)) / Pow2(k) % 2 == low / Pow2(k) % 2
  {
    hide Pow2;
    var p, q := Pow2(k), Pow2(n - k);
    PowSplit(k, n);
    EvenPower(n - k);
    ShiftedQuotient(low, q, p);
    ParityKept(low / p, q);
  }

  lemma ShiftedQuotient(low: nat, q: nat, p: nat)
    requires p > 0
    ensures 0 <= low / p && (low + q * p) / p == low / p + q
  {
    var k := QuotientCover(low, p);
    Distribute(k, q, p);
    QuotientIs(low + q * p, p, k + q);
  }

  lemma ParityKept(a: nat, q: nat)
    requires q % 2 == 0
    ensures (a + q) % 2 == a % 2
  {
  }

  lemma Distribute(a: nat, b: nat, p: nat)
    ensures (a + b) * p == a * p + b * p && (a + b + 1) * p == (a + 1) * p + b * p
  {
  }

  lemma EvenPower(k: nat)
    requires k > 0
    ensures Pow2(k) % 2 == 0
  {
  }

  /** The rounds of computeNextStakeModifier over the sorted candidates.  The accumulated value is a 64-bit integer
      and each round sets a bit of its own, so `or` is addition here. */
  method SelectModifier(d: Digest, cs: seq<Candidate>, interval: nat, prevTime: nat, modifier: nat) returns (next: nat)
    requires interval > 0 && ByTime(cs)
    ensures var picks := Picks(d, cs, interval, prevTime, modifier, Min(ROUNDS, |cs|));
      && (forall i :: 0 <= i < |picks| ==> picks[i] < |cs|)
      && next == Bits(cs, picks) && next < Pow2(ROUNDS)
  {
    hide Select, Section, SectionsTo, Pow2, Bits, Picks, ByTime, Fresh, AsSet;
    var total := GetStakeModifierSelectionInterval(interval);
    var stop := prevTime / interval * interval - total;
    var selected := [];
    var bit := 1;
    next := 0;
    NoRounds(d, cs, interval, prevTime, modifier);
    for round := 0 to Min(ROUNDS, |cs|)
      invariant stop == SelectionStart(interval, prevTime) + SectionsTo(interval, round)
      invariant |selected| == round && selected == Picks(d, cs, interval, prevTime, modifier, round)
      invariant forall i :: 0 <= i < |selected| ==> selected[i] < |cs|
      invariant next == Bits(cs, selected) && bit == Pow2(round)
    {
      NextRound(d, cs, interval, prevTime, modifier, selected);
      stop := stop + Section(interval, round);
      var pick := SelectBlockFromCandidates(d, cs, AsSet(selected), stop, modifier);
      next := next + if cs[pick.value].entropy then bit else 0;
      selected := selected + [pick.value];
      bit := 2 * bit;
    }
    BitsBound(cs, selected);
    AtMostPow2(|selected|, ROUNDS);
  }

  lemma NoRounds(d: Digest, cs: seq<Candidate>, interval: nat, prevTime: nat, modifier: nat)
    requires interval > 0
    ensures Picks(d, cs, interval, prevTime, modifier, 0) == [] && Bits(cs, []) == 0
    ensures Pow2(0) == 1 && SectionsTo(interval, 0) == 0
  {
  }

  // What one more round adds.
  lemma NextRound(d: Digest, cs: seq<Candidate>, interval: nat, prevTime: nat, modifier: nat, before: seq<nat>)
    requires interval > 0 && ByTime(cs) && |before| < Min(ROUNDS, |cs|)
    requires before == Picks(d, cs, interval, prevTime, modifier, |before|)
    ensures var k := |before|;
      && SectionsTo(interval, k + 1) == SectionsTo(interval, k) + Section(interval, k)
      && Pow2(k + 1) == 2 * Pow2(k)
      && (forall i :: 0 <= i < k ==> before[i] < |cs|)
      && var stop := SelectionStart(interval, prevTime) + SectionsTo(interval, k + 1);
         var pick := Select(d, cs, AsSet(before), stop, modifier);
         pick.Some? && pick.value < |cs|
         && Picks(d, cs, interval, prevTime, modifier, k + 1) == before + [pick.value]
         && Bits(cs, before + [pick.value]) == Bits(cs, before) + if cs[pick.value].entropy then Pow2(k) else 0
  {
    hide Select, ByTime, BestOfRound, Pow2, Bits, SelectionStart;
    var k := |before|;
    EveryRoundPicksBest(d, cs, interval, prevTime, modifier, k);
    RoundFinds(d, cs, before, Stop(interval, prevTime, k), modifier);
    var pick := Select(d, cs, AsSet(before), Stop(interval, prevTime, k), modifier);
    NextBit(cs, before, pick.value);
  }

  lemma NextBit(cs: seq<Candidate>, before: seq<nat>, pick: nat)
    requires pick < |cs|
    ensures Pow2(|before| + 1) == 2 * Pow2(|before|)
    ensures Bits(cs, before + [pick]) == Bits(cs, before) + if cs[pick].entropy then Pow2(|before|) else 0
  {
    assert (before + [pick])[..|before|] == before;
  }

  // ---------------------------------------------------------------- the next modifier

  ghost predicate DistinctBlocks(cs: seq<Candidate>) {
    forall i, j :: 0 <= i < j < |cs| ==> cs[i].hash != cs[j].hash
  }

  function InsertCandidate(c: Candidate, cs: seq<Candidate>): seq<Candidate> {
    if cs == [] || Less(c, cs[0]) then [c] + cs else [cs[0]] + InsertCandidate(c, cs[1..])
  }

  // The library sort with blockTimeHashSorter.
  function SortCandidates(cs: seq<Candidate>): seq<Candidate> {
    if cs == [] then [] else InsertCandidate(cs[0], SortCandidates(cs[1..]))
  }

  lemma {:induction false} InsertKeepsOrder(c: Candidate, cs: seq<Candidate>)
    requires InOrder(cs) && forall x :: x in cs ==> x.hash != c.hash
    ensures InOrder(InsertCandidate(c, cs)) && multiset(InsertCandidate(c, cs)) == multiset{c} + multiset(cs)
  {
    hide Less;
    if cs == [] {
    } else if Less(c, cs[0]) {
      forall i | 1 <= i < |cs| ensures Less(c, cs[i]) { LessIsStrictTotal(c, cs[0], cs[i]); }
    } else {
      var rest := InsertCandidate(c, cs[1..]);
      InsertKeepsOrder(c, cs[1..]);
      LessIsStrictTotal(c, cs[0], c);
      assert cs == [cs[0]] + cs[1..];
      forall i | 0 <= i < |rest| ensures Less(cs[0], rest[i]) {
        assert rest[i] in multiset(rest);
        assert rest[i] == c || rest[i] in cs[1..];
      }
    }
  }

  lemma {:induction false} SortKeepsOrder(cs: seq<Candidate>)
    requires DistinctBlocks(cs)
    ensures InOrder(SortCandidates(cs)) && multiset(SortCandidates(cs)) == multiset(cs)
  {
    hide InOrder;
    if cs == [] {
      NothingInOrder();
    } else {
      SortKeepsOrder(cs[1..]);
      forall x | x in SortCandidates(cs[1..]) ensures x.hash != cs[0].hash {
        assert x in multiset(SortCandidates(cs[1..]));
      }
      InsertKeepsOrder(cs[0], SortCandidates(cs[1..]));
      assert cs == [cs[0]] + cs[1..];
    }
  }

  lemma NothingInOrder()
    ensures InOrder([])
  {
  }

  /** The sorted candidates, and with them the modifier, do not depend on the order they were collected in. */
  lemma OrderDoesNotMatter(a: seq<Candidate>, b: seq<Candidate>)
    requires DistinctBlocks(a) && DistinctBlocks(b) && multiset(a) == multiset(b)
    ensures SortCandidates(a) == SortCandidates(b)
  {
    SortKeepsOrder(a);
    SortKeepsOrder(b);
    SortedIsUnique(SortCandidates(a), SortCandidates(b));
  }

  lemma InOrderIsByTime(cs: seq<Candidate>)
    requires InOrder(cs)
    ensures ByTime(cs)
  {
  }

  // A block on the path below the new one, with the modifier recorded for it.
  datatype StakeBlock = StakeBlock(block: Candidate, generated: bool, modifier: nat)

  // The newest blocks of a path down to the first one before `start`, the newest first.
  function Gathered(path: seq<StakeBlock>, start: int): seq<Candidate> {
    if path == [] || path[|path| - 1].block.time < start then []
    else [path[|path| - 1].block] + Gathered(path[..|path| - 1], start)
  }

  ghost predicate DistinctPath(path: seq<StakeBlock>) {
    forall i, j :: 0 <= i < j < |path| ==> path[i].block.hash != path[j].block.hash
  }

  // The gathered blocks are the end of the path, back to the last block before `start`.
  lemma {:induction false} GatheredFromPath(path: seq<StakeBlock>, start: int)
    ensures var cs := Gathered(path, start);
      && |cs| <= |path| && (forall i :: 0 <= i < |cs| ==> cs[i] == path[|path| - 1 - i].block && cs[i].time >= start)
      && (|cs| < |path| ==> path[|path| - 1 - |cs|].block.time < start)
  {
    if path != [] && path[|path| - 1].block.time >= start {
      var front, n := path[..|path| - 1], |path| - 1;
      GatheredFromPath(front, start);
      var cs := Gathered(path, start);
      forall i | 0 <= i < |cs| ensures cs[i] == path[n - i].block && cs[i].time >= start {
        if i > 0 {
          assert cs[i] == Gathered(front, start)[i - 1];
        }
      }
    }
  }

  lemma GatheredAreDistinct(path: seq<StakeBlock>, start: int)
    requires DistinctPath(path)
    ensures DistinctBlocks(Gathered(path, start))
  {
    hide Gathered;
    GatheredFromPath(path, start);
  }

  function LastGenerated(path: seq<StakeBlock>): (k: Option<nat>)
    ensures k.Some? ==> k.value < |path| && path[k.value].generated
    ensures forall i :: (if k.Some? then k.value else -1) < i < |path| ==> !path[i].generated
  {
    if path == [] then None
    else if path[|path| - 1].generated then Some(|path| - 1)
    else LastGenerated(path[..|path| - 1])
  }

  datatype NextModifier = NoGeneration | NextModifier(modifier: nat, generated: bool)

  // The sorted candidates for the block after `path`, and the positions picked from them.
  function Candidates(path: seq<StakeBlock>, interval: nat): seq<Candidate>
    requires interval > 0 && path != []
  {
    SortCandidates(Gathered(path, SelectionStart(interval, path[|path| - 1].block.time)))
  }

  function Selection(d: Digest, path: seq<StakeBlock>, interval: nat, modifier: nat): seq<nat>
    requires interval > 0 && path != []
  {
    var cs := Candidates(path, interval);
    Picks(d, cs, interval, path[|path| - 1].block.time, modifier, Min(ROUNDS, |cs|))
  }

  /** The modifier of the block after `path`.  It stays as it is while the previous block, or from protocol 0.4 on the
      new one, is in the interval of the last generation; otherwise the gathered candidates make a new one. */
  function Next(d: Digest, path: seq<StakeBlock>, interval: nat, time: nat, v04: bool): NextModifier
    requires interval > 0
  {
    if path == [] then NextModifier(0, true)
    else
      var k, prev := LastGenerated(path), path[|path| - 1].block;
      if k.None? then NoGeneration
      else
        var last := path[k.value];
        if last.block.time / interval >= prev.time / interval then NextModifier(last.modifier, false)
        else if last.block.time / interval >= time / interval && v04 then NextModifier(last.modifier, false)
        else
          NextModifier(Bits(Candidates(path, interval), Selection(d, path, interval, last.modifier)), true)
  }

  /** The four cases, on the newest block with a generated modifier: a new modifier exactly when the previous block
      lies in a later interval and, from protocol 0.4 on, the new one too, and otherwise the modifier of that block. */
  ghost predicate FollowsGeneration(path: seq<StakeBlock>, interval: nat, time: nat, v04: bool, next: NextModifier)
    requires interval > 0
  {
    && (path == [] ==> next == NextModifier(0, true))
    && (path != [] ==> (next == NoGeneration <==> forall i :: 0 <= i < |path| ==> !path[i].generated))
    && (forall k :: 0 <= k < |path| && path[k].generated && (forall i :: k < i < |path| ==> !path[i].generated) ==>
          var last, prev := path[k].block.time, path[|path| - 1].block.time;
          && next.NextModifier?
          && (next.generated <==> last / interval < prev / interval && (v04 ==> last / interval < time / interval))
          && (!next.generated ==> next.modifier == path[k].modifier))
  }

  lemma NextFollows(d: Digest, path: seq<StakeBlock>, interval: nat, time: nat, v04: bool)
    requires interval > 0
    ensures FollowsGeneration(path, interval, time, v04, Next(d, path, interval, time, v04))
  {
    hide Bits, Selection, Candidates, LastGenerated;
    var k := LastGenerated(path);
    forall i | 0 <= i < |path| && path[i].generated && forall j :: i < j < |path| ==> !path[j].generated
      ensures k == Some(i)
    {
    }
  }

  /** A generated modifier, spelled out.  The candidates are the gathered blocks in the one sorted order, at least the
      previous block; each of the min(64, n) rounds picks a new best one; and bit `b` is the entropy bit of the block
      of round `b`, with zeros above. */
  lemma GeneratedIsSelection(d: Digest, path: seq<StakeBlock>, interval: nat, time: nat, v04: bool)
    requires interval > 0 && path != [] && DistinctPath(path)
    requires var next := Next(d, path, interval, time, v04); next.NextModifier? && next.generated
    ensures LastGenerated(path).Some?
    ensures var cs, prev := Candidates(path, interval), path[|path| - 1].block;
            var last := path[LastGenerated(path).value].modifier;
            var picks, next := Selection(d, path, interval, last), Next(d, path, interval, time, v04).modifier;
      && prev in cs && InOrder(cs)
      && multiset(cs) == multiset(Gathered(path, SelectionStart(interval, prev.time)))
      && |picks| == Min(ROUNDS, |cs|) && Fresh(cs, picks)
      && (forall r :: 0 <= r < |picks| ==> BestOfRound(d, cs, interval, prev.time, last, picks, r))
      && (forall b: nat :: next / Pow2(b) % 2 == if b < |picks| && cs[picks[b]].entropy then 1 else 0)
  {
    hide InOrder, ByTime, BestOfRound, Bits, Pow2, SortCandidates, Gathered, DistinctBlocks, SelectionStart;
    var prev, last := path[|path| - 1].block, path[LastGenerated(path).value].modifier;
    var gathered := Gathered(path, SelectionStart(interval, prev.time));
    var cs, picks := Candidates(path, interval), Selection(d, path, interval, last);
    PreviousIsGathered(path, interval);
    GatheredAreDistinct(path, SelectionStart(interval, prev.time));
    SortKeepsOrder(gathered);
    InOrderIsByTime(cs);
    assert prev in multiset(cs);
    EveryRoundPicksBest(d, cs, interval, prev.time, last, Min(ROUNDS, |cs|));
    forall b: nat ensures Bits(cs, picks) / Pow2(b) % 2 == if b < |picks| && cs[picks[b]].entropy then 1 else 0 {
      BitIsEntropy(cs, picks, b);
    }
  }

  lemma PreviousIsGathered(path: seq<StakeBlock>, interval: nat)
    requires interval > 0 && path != []
    ensures var prev := path[|path| - 1].block; prev in Gathered(path, SelectionStart(interval, prev.time))
  {
    hide SectionsTo;
    var prev := path[|path| - 1].block;
    SectionsPositive(interval, ROUNDS);
    DivFacts(prev.time, interval);
    assert SelectionStart(interval, prev.time) <= prev.time;
    assert Gathered(path, SelectionStart(interval, prev.time))[0] == prev;
  }

  lemma {:induction false} SectionsPositive(interval: nat, k: nat)
    requires k <= ROUNDS
    ensures SectionsTo(interval, k) >= 0
  {
    if k > 0 {
      SectionsPositive(interval, k - 1);
      DivFacts(interval * 63, 63 + (63 - (k - 1)) * (MODIFIER_INTERVAL_RATIO - 1));
    }
  }

  method GetLastStakeModifier(path: seq<StakeBlock>) returns (k: Option<nat>)
    requires path != []
    ensures k == LastGenerated(path)
  {
    var i := |path| - 1;
    while i > 0 && !path[i].generated
      invariant 0 <= i < |path|
      invariant LastGenerated(path) == LastGenerated(path[..i + 1])
    {
      assert path[..i + 1][..i] == path[..i];
      i := i - 1;
    }
    assert path[..i + 1][..i] == path[..i];
    if !path[i].generated {
      return None;
    }
    return Some(i);
  }

  // The loop that collects the candidates.
  method GatherCandidates(path: seq<StakeBlock>, start: int) returns (cs: seq<Candidate>)
    ensures cs == Gathered(path, start)
  {
    cs := [];
    var n := |path|;
    assert path[..n] == path;
    while n > 0 && path[n - 1].block.time >= start
      invariant 0 <= n <= |path|
      invariant Gathered(path, start) == cs + Gathered(path[..n], start)
    {
      assert path[..n][..n - 1] == path[..n - 1];
      cs := cs + [path[n - 1].block];
      n := n - 1;
    }
  }

  /** computeNextStakeModifier for the block after `path`, which has the time `time`. */
  method ComputeNextStakeModifier(d: Digest, path: seq<StakeBlock>, interval: nat, time: nat, v04: bool)
    returns (next: NextModifier)
    requires interval > 0 && DistinctPath(path)
    ensures next == Next(d, path, interval, time, v04)
    ensures FollowsGeneration(path, interval, time, v04, next)
  {
    hide Picks, Bits, SectionsTo, InOrder, Gathered, SortCandidates, DistinctBlocks, LastGenerated, ByTime;
    hide FollowsGeneration;
    NextFollows(d, path, interval, time, v04);
    if path == [] {
      return NextModifier(0, true);
    }
    var k := GetLastStakeModifier(path);
    if k.None? {
      return NoGeneration;
    }
    var prev, last := path[|path| - 1].block, path[k.value];
    if last.block.time / interval >= prev.time / interval {
      return NextModifier(last.modifier, false);
    }
    if last.block.time / interval >= time / interval && v04 {
      return NextModifier(last.modifier, false);
    }
    var total := GetStakeModifierSelectionInterval(interval);
    var start := prev.time / interval * interval - total;
    var gathered := GatherCandidates(path, start);
    var cs := SortCandidates(gathered);
    GatheredAreDistinct(path, start);
    SortKeepsOrder(gathered);
    InOrderIsByTime(cs);
    var modifier := SelectModifier(d, cs, interval, prev.time, last.modifier);
    return NextModifier(modifier, true);
  }
}
