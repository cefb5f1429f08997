/** The proof-of-work reward (ppc.go PPCGetProofOfWorkReward): a bisection for the fourth root of the target's
    share of the easiest target. */
module Reward {
  import opened Arith
  import opened CompactBits
  import opened Ledger

  const MAX_MINT_PROOF_OF_WORK := 9999 * COIN

  function Fourth(x: int): int {
    (x * x) * (x * x)
  }

  // Whether a reward exceeds the target's share: its fourth power over the maximum's is above target over limit.
  predicate TooMuch(x: int, limit: int, target: int) {
    Fourth(x) * limit > Fourth(MAX_MINT_PROOF_OF_WORK) * target
  }

  // The bisection from bounds `lo` and `hi` on, with decoded limit and target.
  function Search(lo: nat, hi: nat, limit: int, target: int): (r: nat)
    decreases hi - lo
  {
    if lo + CENT <= hi then
      var mid := (lo + hi) / 2;
      if TooMuch(mid, limit, target) then Search(lo, mid, limit, target)
      else Search(mid, hi, limit, target)
    else hi
  }

  function RewardFor(limit: int, target: int): int {
    Search(CENT, MAX_MINT_PROOF_OF_WORK, limit, target) / CENT * CENT
  }

  /** PPCGetProofOfWorkReward; the limit is first rounded to its compact form. */
  method ProofOfWorkReward(bits: U32, powLimit: nat) returns (subsidy: int)
    ensures subsidy == RewardFor(CompactToBig(BigToCompact(powLimit)), CompactToBig(bits))
  {
    var target := CompactToBig(bits);
    var limit := CompactToBig(BigToCompact(powLimit));
    var lower: nat, upper: nat := CENT, MAX_MINT_PROOF_OF_WORK;
    while lower + CENT <= upper
      invariant upper <= MAX_MINT_PROOF_OF_WORK
      invariant Search(lower, upper, limit, target) == Search(CENT, MAX_MINT_PROOF_OF_WORK, limit, target)
      decreases upper - lower
    {
      var mid := (lower + upper) / 2;
      if Fourth(mid) * limit > Fourth(MAX_MINT_PROOF_OF_WORK) * target {
        upper := mid;
      } else {
        lower := mid;
      }
    }
    subsidy := upper;
    subsidy := subsidy / CENT * CENT;
    if subsidy > MAX_MINT_PROOF_OF_WORK {
      subsidy := MAX_MINT_PROOF_OF_WORK;
    }
  }

  // ---------------------------------------------------------------- the result is the fourth root

  lemma FourthMonotone(a: nat, b: nat)
    requires a <= b
    ensures Fourth(a) <= Fourth(b)
  {
    MulLe(a, b, a);
    MulLe(a, b, b);
    MulLe(a * a, b * b, a * a);
    MulLe(a * a, b * b, b * b);
  }

  lemma TooMuchMonotone(a: nat, b: nat, limit: nat, target: int)
    requires a <= b && TooMuch(a, limit, target)
    ensures TooMuch(b, limit, target)
  {
    hide Fourth;
    FourthMonotone(a, b);
    FourthNonNegative(a);
    MulLe(Fourth(a), Fourth(b), limit);
  }

  lemma FourthNonNegative(a: nat)
    ensures Fourth(a) >= 0
  {
    MulLe(0, a * a, a * a);
  }

  // The search keeps a lower bound that is not too much and an upper bound that is, or the initial ones.
  lemma {:induction false} SearchBrackets(lo: nat, hi: nat, limit: nat, target: int) returns (low: nat)
    requires lo <= hi
    requires lo == CENT || !TooMuch(lo, limit, target)
    requires hi == MAX_MINT_PROOF_OF_WORK || TooMuch(hi, limit, target)
    ensures var r := Search(lo, hi, limit, target);
      && lo <= low <= r <= hi && r < low + CENT
      && (r == MAX_MINT_PROOF_OF_WORK || TooMuch(r, limit, target))
      && (low == CENT || !TooMuch(low, limit, target))
    decreases hi - lo
  {
    hide TooMuch;
    if lo + CENT <= hi {
      var mid := (lo + hi) / 2;
      if TooMuch(mid, limit, target) {
        low := SearchBrackets(lo, mid, limit, target);
      } else {
        low := SearchBrackets(mid, hi, limit, target);
      }
    } else {
      low := lo;
    }
  }

  lemma Zero()
    ensures Fourth(0) == 0
  {
  }

  /** The search ends on a whole number of cents between one cent and the maximum, and brackets the fourth root:
      one cent less is not too much, one cent more is. */
  lemma RewardIsFourthRoot(limit: nat, target: nat)
    requires 0 < limit && target <= limit
    ensures var r := RewardFor(limit, target);
      && CENT <= r <= MAX_MINT_PROOF_OF_WORK && r % CENT == 0
      && Fourth(r - CENT) * limit <= Fourth(MAX_MINT_PROOF_OF_WORK) * target < Fourth(r + CENT) * limit
  {
    hide Fourth, Search;
    var low := SearchBrackets(CENT, MAX_MINT_PROOF_OF_WORK, limit, target);
    var hi := Search(CENT, MAX_MINT_PROOF_OF_WORK, limit, target);
    var r := hi / CENT * CENT;
    if TooMuch(r - CENT, limit, target) {
      if low == CENT {
        Zero();
        FourthNonNegative(MAX_MINT_PROOF_OF_WORK);
        MulLe(0, Fourth(MAX_MINT_PROOF_OF_WORK), target);
      } else {
        TooMuchMonotone(r - CENT, low, limit, target);
      }
    }
    if hi == MAX_MINT_PROOF_OF_WORK {
      AboveMaximum(limit, target);
    } else {
      TooMuchMonotone(hi, r + CENT, limit, target);
    }
  }

  lemma AboveMaximum(limit: nat, target: nat)
    requires 0 < limit && target <= limit
    ensures TooMuch(MAX_MINT_PROOF_OF_WORK + CENT, limit, target)
  {
    var s, t := Fourth(MAX_MINT_PROOF_OF_WORK), Fourth(MAX_MINT_PROOF_OF_WORK + CENT);
    assert 0 < s < t;
    MulLe(target, limit, s);
    MulLe(s + 1, t, limit);
  }

  // ---------------------------------------------------------------- easier targets earn more

  /** Two searches that start together give ordered results: they follow each other until some midpoint is too
      much only for the harder target, and from there on that midpoint separates them. */
  lemma {:induction false} SearchMonotone(lo: nat, hi: nat, limit: nat, a: nat, b: nat)
    requires lo <= hi && a <= b
    ensures Search(lo, hi, limit, a) <= Search(lo, hi, limit, b)
    decreases hi - lo
  {
    hide Fourth;
    if lo + CENT <= hi {
      var mid := (lo + hi) / 2;
      FourthNonNegative(MAX_MINT_PROOF_OF_WORK);
      MulLe(a, b, Fourth(MAX_MINT_PROOF_OF_WORK));
      if TooMuch(mid, limit, a) && !TooMuch(mid, limit, b) {
        SearchRange(lo, mid, limit, a);
        SearchRange(mid, hi, limit, b);
      } else if TooMuch(mid, limit, a) {
        SearchMonotone(lo, mid, limit, a, b);
      } else {
        SearchMonotone(mid, hi, limit, a, b);
      }
    }
  }

  lemma {:induction false} SearchRange(lo: nat, hi: nat, limit: int, target: int)
    requires lo <= hi
    ensures lo <= Search(lo, hi, limit, target) <= hi
    decreases hi - lo
  {
    hide Fourth;
    if lo + CENT <= hi {
      var mid := (lo + hi) / 2;
      SearchRange(lo, mid, limit, target);
      SearchRange(mid, hi, limit, target);
    }
  }

  /** The reward is monotone in the target. */
  lemma RewardMonotone(limit: nat, a: nat, b: nat)
    requires a <= b
    ensures RewardFor(limit, a) <= RewardFor(limit, b)
  {
    hide Fourth, Search;
    SearchMonotone(CENT, MAX_MINT_PROOF_OF_WORK, limit, a, b);
    QuotientOrder(Search(CENT, MAX_MINT_PROOF_OF_WORK, limit, a), Search(CENT, MAX_MINT_PROOF_OF_WORK, limit, b), CENT);
  }
}
