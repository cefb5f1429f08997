/** The difficulty of the next block (ppc.go ppcCalcNextRequiredDifficulty): Peercoin adjusts the target of the
    last block of the same kind after every block. */
module Retarget {
  import opened Arith
  import opened CompactBits
  import opened Ledger

  const STAKE_TARGET_SPACING := 600
  const TARGET_SPACING_WORK_MAX := STAKE_TARGET_SPACING * 12
  const TARGET_TIMESPAN := 7 * 24 * 60 * 60

  // `powLimit` is the easiest target the network allows.
  datatype Limits = Limits(powLimit: nat, powLimitBits: U32, initialBits: U32)

  // The newest block of a kind at or below a height; genesis, at height 0, stands in when there is none.
  function LastOfKind(chain: seq<Block>, last: nat, proofOfStake: bool): (block: nat)
    requires last < |chain|
    ensures block <= last
  {
    if last == 0 || chain[last].proofOfStake == proofOfStake then last
    else LastOfKind(chain, last - 1, proofOfStake)
  }

  // The result is of the wanted kind, or genesis, and no block in between is.
  lemma {:induction false} LastOfKindIsNewest(chain: seq<Block>, last: nat, proofOfStake: bool)
    requires last < |chain|
    ensures var block := LastOfKind(chain, last, proofOfStake);
      && (block == 0 || chain[block].proofOfStake == proofOfStake)
      && forall i :: block < i <= last ==> chain[i].proofOfStake != proofOfStake
  {
    if last != 0 && chain[last].proofOfStake != proofOfStake {
      LastOfKindIsNewest(chain, last - 1, proofOfStake);
    }
  }

  function TargetSpacing(proofOfStake: bool, distance: nat): nat {
    if proofOfStake then STAKE_TARGET_SPACING
    else if TARGET_SPACING_WORK_MAX < STAKE_TARGET_SPACING * (1 + distance) then TARGET_SPACING_WORK_MAX
    else STAKE_TARGET_SPACING * (1 + distance)
  }

  // Spacings between one and twelve stake intervals.
  type Spacing = s: nat | STAKE_TARGET_SPACING <= s <= TARGET_SPACING_WORK_MAX witness STAKE_TARGET_SPACING

  function Interval(spacing: Spacing): nat {
    TARGET_TIMESPAN / spacing
  }

  lemma IntervalRange(proofOfStake: bool, distance: nat)
    ensures STAKE_TARGET_SPACING <= TargetSpacing(proofOfStake, distance) <= TARGET_SPACING_WORK_MAX
    ensures 84 <= Interval(TargetSpacing(proofOfStake, distance)) <= 1008
  {
    var s := TargetSpacing(proofOfStake, distance);
    QuotientBounds(TARGET_TIMESPAN, s, 84, 1009);
  }

  function Weight(spacing: Spacing, actual: int): int {
    (Interval(spacing) - 1) * spacing + (actual + actual)
  }

  function Scale(spacing: Spacing): nat {
    (Interval(spacing) + 1) * spacing
  }

  // The adjusted target before it is clamped; the division of big integers rounds down.
  function Adjusted(target: int, spacing: Spacing, actual: int): int {
    ScalePositive(spacing);
    target * Weight(spacing, actual) / Scale(spacing)
  }

  lemma ScalePositive(spacing: Spacing)
    ensures Scale(spacing) > 0
  {
    MulPos(Interval(spacing) + 1, spacing);
  }

  function NextBits(limits: Limits, bits: U32, spacing: Spacing, actual: int): U32 {
    var target := Adjusted(CompactToBig(bits), spacing, actual);
    BigToCompact(if target > limits.powLimit then limits.powLimit else target)
  }

  function NextRequired(limits: Limits, chain: seq<Block>, proofOfStake: bool): U32 {
    if chain == [] then limits.powLimitBits
    else
      var prev := LastOfKind(chain, |chain| - 1, proofOfStake);
      if prev == 0 then limits.initialBits
      else
        var prevPrev := LastOfKind(chain, prev - 1, proofOfStake);
        if prevPrev == 0 then limits.initialBits
        else
          IntervalRange(proofOfStake, |chain| - 1 - prev);
          NextBits(limits, chain[prev].bits, TargetSpacing(proofOfStake, |chain| - 1 - prev),
                   chain[prev].timestamp - chain[prevPrev].timestamp)
  }

  // The required bits, case by case.
  lemma {:induction false} RequiredCases(limits: Limits, chain: seq<Block>, proofOfStake: bool)
    requires chain != []
    ensures var prev := LastOfKind(chain, |chain| - 1, proofOfStake);
      && (prev == 0 ==> NextRequired(limits, chain, proofOfStake) == limits.initialBits)
      && (prev > 0 ==>
            var prevPrev := LastOfKind(chain, prev - 1, proofOfStake);
            && (prevPrev == 0 ==> NextRequired(limits, chain, proofOfStake) == limits.initialBits)
            && (prevPrev > 0 ==>
                  var spacing := TargetSpacing(proofOfStake, |chain| - 1 - prev);
                  && STAKE_TARGET_SPACING <= spacing <= TARGET_SPACING_WORK_MAX
                  && NextRequired(limits, chain, proofOfStake)
                  == NextBits(limits, chain[prev].bits, spacing, chain[prev].timestamp - chain[prevPrev].timestamp)))
  {
    hide NextBits, TargetSpacing, LastOfKind, Interval;
    var prev := LastOfKind(chain, |chain| - 1, proofOfStake);
    IntervalRange(proofOfStake, |chain| - 1 - prev);
  }

  // Position `p` holds the newest block of a kind above genesis and below position `end`.
  predicate IsNewest(chain: seq<Block>, end: nat, proofOfStake: bool, p: nat)
    requires end <= |chain|
  {
    && 0 < p < end && chain[p].proofOfStake == proofOfStake
    && forall i :: p < i < end ==> chain[i].proofOfStake != proofOfStake
  }

  predicate HasNone(chain: seq<Block>, end: nat, proofOfStake: bool)
    requires end <= |chain|
  {
    forall i :: 0 < i < end ==> chain[i].proofOfStake != proofOfStake
  }

  // The time two blocks of a kind should be apart: ten minutes, and for proof-of-work ten more for every block above
  // the newest one, up to two hours.
  function OnTime(proofOfStake: bool, above: nat): (s: nat)
    ensures 600 <= s <= 7200
  {
    if proofOfStake then 600 else 600 * Min(12, 1 + above)
  }

  /** What blocks `p` and `q` of a kind require of the next one: the target of `p`, times (n - 1) * s + 2 * t, over
      (n + 1) * s, and at most the limit; t is the time between them, s the time there should be, and n how often s goes
      into a week. */
  ghost predicate RetargetsFrom(limits: Limits, chain: seq<Block>, proofOfStake: bool, p: nat, q: nat, bits: U32)
    requires q < p < |chain|
  {
    var t, s := chain[p].timestamp - chain[q].timestamp, OnTime(proofOfStake, |chain| - 1 - p);
    var n := 604_800 / s;
    var target := CompactToBig(chain[p].bits) * ((n - 1) * s + 2 * t) / ((n + 1) * s);
    bits == BigToCompact(if target < limits.powLimit then target else limits.powLimit)
  }

  /** The bits required after a chain, on the newest block `p` of the kind and the newest one `q` before it; the initial
      bits while `p` or `q` is missing. */
  ghost predicate Retargets(limits: Limits, chain: seq<Block>, proofOfStake: bool, bits: U32) {
    && (HasNone(chain, |chain|, proofOfStake) ==> bits == limits.initialBits)
    && forall p :: 0 <= p < |chain| && IsNewest(chain, |chain|, proofOfStake, p) ==>
         && (HasNone(chain, p, proofOfStake) ==> bits == limits.initialBits)
         && forall q :: 0 <= q < p && IsNewest(chain, p, proofOfStake, q) ==>
              RetargetsFrom(limits, chain, proofOfStake, p, q, bits)
  }

  lemma {:induction false} NewestIsLast(chain: seq<Block>, last: nat, proofOfStake: bool, p: nat)
    requires last < |chain|
    ensures HasNone(chain, last + 1, proofOfStake) <==> LastOfKind(chain, last, proofOfStake) == 0
    ensures IsNewest(chain, last + 1, proofOfStake, p) <==> LastOfKind(chain, last, proofOfStake) == p && p > 0
  {
    LastOfKindIsNewest(chain, last, proofOfStake);
  }

  lemma SpacingIsOnTime(proofOfStake: bool, above: nat)
    ensures TargetSpacing(proofOfStake, above) == OnTime(proofOfStake, above)
  {
  }

  /** What the code requires after a chain that is not empty. */
  lemma {:induction false} RequiredRetargets(limits: Limits, chain: seq<Block>, proofOfStake: bool)
    requires chain != []
    ensures Retargets(limits, chain, proofOfStake, NextRequired(limits, chain, proofOfStake))
  {
    hide NextBits, TargetSpacing, LastOfKind, NextRequired, OnTime, IsNewest, HasNone, RetargetsFrom;
    var bits := NextRequired(limits, chain, proofOfStake);
    NewestIsLast(chain, |chain| - 1, proofOfStake, 0);
    RequiredCases(limits, chain, proofOfStake);
    forall p | 0 <= p < |chain| && IsNewest(chain, |chain|, proofOfStake, p)
      ensures HasNone(chain, p, proofOfStake) ==> bits == limits.initialBits
      ensures forall q :: 0 <= q < p && IsNewest(chain, p, proofOfStake, q) ==>
                RetargetsFrom(limits, chain, proofOfStake, p, q, bits)
    {
      NewestIsLast(chain, |chain| - 1, proofOfStake, p);
      NewestIsLast(chain, p - 1, proofOfStake, 0);
      forall q | 0 <= q < p && IsNewest(chain, p, proofOfStake, q)
        ensures RetargetsFrom(limits, chain, proofOfStake, p, q, bits)
      {
        NewestIsLast(chain, p - 1, proofOfStake, q);
        SpacingIsOnTime(proofOfStake, |chain| - 1 - p);
        NextFrom(limits, chain, proofOfStake, p, q);
      }
    }
  }

  lemma NextFrom(limits: Limits, chain: seq<Block>, proofOfStake: bool, p: nat, q: nat)
    requires q < p < |chain|
    ensures var s, t := OnTime(proofOfStake, |chain| - 1 - p), chain[p].timestamp - chain[q].timestamp;
            RetargetsFrom(limits, chain, proofOfStake, p, q, NextBits(limits, chain[p].bits, s, t))
  {
    hide BigToCompact, CompactToBig, OnTime;
    BitsSpelledOut(limits, chain[p].bits, OnTime(proofOfStake, |chain| - 1 - p),
                   chain[p].timestamp - chain[q].timestamp);
  }

  lemma BitsSpelledOut(limits: Limits, bits: U32, s: Spacing, t: int)
    ensures var n := 604_800 / s;
      && (n + 1) * s > 0
      && var target := CompactToBig(bits) * ((n - 1) * s + 2 * t) / ((n + 1) * s);
         NextBits(limits, bits, s, t) == BigToCompact(if target < limits.powLimit then target else limits.powLimit)
  {
    hide BigToCompact, CompactToBig;
    ScalePositive(s);
  }

  // The arithmetic at the end of ppcCalcNextRequiredDifficulty.
  method AdjustBits(limits: Limits, prevBits: U32, spacing: Spacing, actual: int) returns (bits: U32)
    ensures bits == NextBits(limits, prevBits, spacing, actual)
  {
    hide BigToCompact, CompactToBig, Interval;
    ScalePositive(spacing);
    var interval := Interval(spacing);
    var newTarget := CompactToBig(prevBits);
    var tmp := (interval - 1) * spacing;
    tmp := tmp + (actual + actual);
    newTarget := newTarget * tmp;
    newTarget := newTarget / ((interval + 1) * spacing);
    if newTarget > limits.powLimit {
      newTarget := limits.powLimit;
    }
    return BigToCompact(newTarget);
  }

  // ---------------------------------------------------------------- properties

  lemma SignedDecodesNegative(c: U32)
    requires SignBit(c)
    ensures CompactToBig(c) <= 0
  {
    hide Pow256;
    var m, e := Mantissa(c), Exponent(c);
    if e > 3 {
      MulLe(0, m, Pow256(e - 3));
    }
  }

  lemma WithSignIsSigned(c: U32)
    requires !SignBit(c)
    ensures SignBit(WithSign(c))
  {
  }

  lemma NegativeIsSigned(n: int)
    requires n < 0
    ensures SignBit(BigToCompact(n))
  {
    hide ByteLen, Pow256, ShiftedMagnitude, SignBit, WithSign, Pack;
    forall c: U32 | !SignBit(c) ensures SignBit(WithSign(c)) {
      WithSignIsSigned(c);
    }
  }

  /** The next target never exceeds the limit. */
  lemma NextTargetWithinLimit(limits: Limits, bits: U32, spacing: Spacing, actual: int)
    requires Fits(limits.powLimit)
    ensures CompactToBig(NextBits(limits, bits, spacing, actual)) <= limits.powLimit
  {
    hide BigToCompact, CompactToBig;
    var target := Adjusted(CompactToBig(bits), spacing, actual);
    if target < 0 {
      NegativeIsSigned(target);
      SignedDecodesNegative(BigToCompact(target));
    } else {
      var clamped := if target > limits.powLimit then limits.powLimit else target;
      FitsBelow(clamped, limits.powLimit);
      RoundTripLoss(clamped);
    }
  }

  /** The same of every required target, given that the limits for the first blocks respect it. */
  lemma RequiredWithinLimit(limits: Limits, chain: seq<Block>, proofOfStake: bool)
    requires Fits(limits.powLimit) && CompactToBig(limits.powLimitBits) <= limits.powLimit
    requires CompactToBig(limits.initialBits) <= limits.powLimit
    ensures CompactToBig(NextRequired(limits, chain, proofOfStake)) <= limits.powLimit
  {
    hide CompactToBig, NextBits, TargetSpacing;
    if chain != [] {
      var prev := LastOfKind(chain, |chain| - 1, proofOfStake);
      var distance := |chain| - 1 - prev;
      IntervalRange(proofOfStake, distance);
      if prev != 0 {
        var actual := chain[prev].timestamp - chain[LastOfKind(chain, prev - 1, proofOfStake)].timestamp;
        NextTargetWithinLimit(limits, chain[prev].bits, TargetSpacing(proofOfStake, distance), actual);
      }
    }
  }

  lemma AdjustedMonotone(target: nat, spacing: Spacing, a: int, b: int)
    requires a <= b && Weight(spacing, a) >= 0
    ensures 0 <= Adjusted(target, spacing, a) <= Adjusted(target, spacing, b)
  {
    hide Weight, Scale, Interval;
    WeightOrder(spacing, a, b);
    var wa: nat, wb: nat := Weight(spacing, a), Weight(spacing, b);
    ScalePositive(spacing);
    MulLe(wa, wb, target);
    MulLe(0, wa, target);
    QuotientOrder(wa * target, wb * target, Scale(spacing));
  }

  lemma WeightOrder(spacing: Spacing, a: int, b: int)
    requires a <= b
    ensures Weight(spacing, a) <= Weight(spacing, b)
  {
    hide Interval;
  }

  // A target that is not positive encodes to one that is not positive.
  lemma DecodesNotPositive(n: int)
    requires n <= 0
    ensures CompactToBig(BigToCompact(n)) <= 0
  {
    hide CompactToBig, BigToCompact;
    if n < 0 {
      NegativeIsSigned(n);
      SignedDecodesNegative(BigToCompact(n));
    } else {
      ZeroRoundTrip();
    }
  }

  // A longer spacing gives no smaller adjusted target.
  lemma AdjustedOrder(target: nat, spacing: Spacing, a: int, b: int)
    requires a <= b
    ensures Adjusted(target, spacing, a) <= Adjusted(target, spacing, b)
  {
    hide Weight, Scale, Interval;
    WeightOrder(spacing, a, b);
    ScalePositive(spacing);
    var d: nat := Weight(spacing, b) - Weight(spacing, a);
    MulLe(0, d, target);
    assert target * Weight(spacing, b) == target * Weight(spacing, a) + target * d;
    IntQuotientOrder(target * Weight(spacing, a), target * Weight(spacing, b), Scale(spacing));
  }

  lemma IntQuotientOrder(x: int, y: int, q: nat)
    requires q > 0 && x <= y
    ensures x / q <= y / q
  {
    var i, j := x / q, y / q;
    assert i * q <= x && y < (j + 1) * q;
    if j < i {
      MulOrder(j + 1, i, q);
    }
  }

  /** Encoding and decoding the clamped target keep the order when the larger target is not negative. */
  lemma ClampedOrder(limits: Limits, x: int, y: int)
    requires Fits(limits.powLimit) && x <= y && y >= 0
    ensures CompactToBig(BigToCompact(if x > limits.powLimit then limits.powLimit else x))
         <= CompactToBig(BigToCompact(if y > limits.powLimit then limits.powLimit else y))
  {
    hide BigToCompact, CompactToBig;
    var cy: nat := if y > limits.powLimit then limits.powLimit else y;
    FitsBelow(cy, limits.powLimit);
    if x >= 0 {
      DecodingIsMonotone(if x > limits.powLimit then limits.powLimit else x, cy);
    } else {
      DecodesNotPositive(x);
      ZeroRoundTrip();
      DecodingIsMonotone(0, cy);
    }
  }

  /** The longer the last two blocks of a kind were apart, the easier the next target, with one exception.  Block times
      may be out of order, so the adjusted target can be negative, and then the order breaks exactly when the target of
      the shorter spacing is lost in the compact form and that of the longer one is not. */
  lemma NextTargetMonotone(limits: Limits, bits: U32, spacing: Spacing, a: int, b: int)
    requires Fits(limits.powLimit) && CompactToBig(bits) >= 0 && a <= b
    requires var x := Adjusted(CompactToBig(bits), spacing, a); x < 0 ==> ByteLen(-x) <= 254
    ensures (var x, y := Adjusted(CompactToBig(bits), spacing, a), Adjusted(CompactToBig(bits), spacing, b);
             CompactToBig(NextBits(limits, bits, spacing, a)) <= CompactToBig(NextBits(limits, bits, spacing, b))
             <==> !(x < 0 && y < 0 && Lost(x) && !Lost(y)))
  {
    hide BigToCompact, CompactToBig, Adjusted, Lost;
    var t: nat := CompactToBig(bits);
    var x, y := Adjusted(t, spacing, a), Adjusted(t, spacing, b);
    AdjustedOrder(t, spacing, a, b);
    if y >= 0 {
      ClampedOrder(limits, x, y);
    } else {
      ByteLenMonotone(-y, -x);
      NegativeOrderIff(x, y);
    }
  }

  /** So it does not break while the weight of the longer spacing is not negative. */
  lemma LongerSpacingIsEasier(limits: Limits, bits: U32, spacing: Spacing, a: int, b: int)
    requires Fits(limits.powLimit) && CompactToBig(bits) >= 0
    requires a <= b && Weight(spacing, b) >= 0
    ensures CompactToBig(NextBits(limits, bits, spacing, a)) <= CompactToBig(NextBits(limits, bits, spacing, b))
  {
    hide BigToCompact, CompactToBig, Adjusted, Weight;
    var t: nat := CompactToBig(bits);
    AdjustedOrder(t, spacing, a, b);
    AdjustedMonotone(t, spacing, b, b);
    ClampedOrder(limits, Adjusted(t, spacing, a), Adjusted(t, spacing, b));
  }

  lemma WitnessTarget()
    ensures CompactToBig(0x1b3e_3b94) == 0x3e_3b94_0000 * Pow256(22) && Pow256(22) >= 605_400
  {
    hide Pow256, CompactToBig;
    DecodesUnsigned(0x1b3e_3b94);
    SmallPowers();
    PowSum(2, 22);
    PowMonotone(3, 22);
  }

  // Dividing `k * p` by the scale of the witness and rounding up.
  lemma CeilingBetween(k: nat, p: nat, lo: nat)
    requires p >= 605_400 && lo * 605_400 < k < (lo + 1) * 605_400
    ensures lo * p < -(-(k * p) / 605_400) <= (lo + 1) * p
  {
    var n := -(-(k * p) / 605_400);
    CeilingCovers(k * p, 605_400);
    MulLe(lo * 605_400 + 1, k, p);
    MulLe(k + 1, (lo + 1) * 605_400, p);
    assert (lo * 605_400 + 1) * p == lo * p * 605_400 + p;
    assert (k + 1) * p == k * p + p;
    assert (lo + 1) * 605_400 * p == (lo + 1) * p * 605_400;
  }

  /** The exception occurs: after a block with the bits 0x1b3e3b94 two spacings that differ by a second give the target
      0 for the shorter and a negative target for the longer one. */
  lemma NegativeTargetsAreNotMonotone(limits: Limits)
    ensures CompactToBig(NextBits(limits, 0x1b3e_3b94, STAKE_TARGET_SPACING, -302_119)) == 0
    ensures CompactToBig(NextBits(limits, 0x1b3e_3b94, STAKE_TARGET_SPACING, -302_118)) < 0
  {
    hide Pow256, ByteLen, BigToCompact, CompactToBig;
    var p := Pow256(22);
    WitnessTarget();
    var t: nat := CompactToBig(0x1b3e_3b94);
    assert Weight(STAKE_TARGET_SPACING, -302_119) == -38 && Weight(STAKE_TARGET_SPACING, -302_118) == -36;
    assert Scale(STAKE_TARGET_SPACING) == 605_400;
    var x, y := Adjusted(t, STAKE_TARGET_SPACING, -302_119), Adjusted(t, STAKE_TARGET_SPACING, -302_118);
    CeilingBetween(0x93cd7f80000, p, 0xff_ffff);
    CeilingBetween(0x8c060d00000, p, 0xf2_86bb);
    PowAround(25);
    MulLe(0x1_0000, 0xf2_86bb, p);
    MulLe(0xf2_86bc, 0xff_ffff, p);
    ByteLenIs(-x, 25);
    ByteLenIs(-y, 25);
    NegativeIsLostIff(x);
    NegativeIsLostIff(y);
    DecodesNotPositive(y);
  }

  /** When a negative target is lost: it decodes to zero exactly when its magnitude needs more than three bytes and
      rounds up to one more byte. */
  lemma NegativeTargetIsLostIff(limits: Limits, bits: U32, spacing: Spacing, actual: int)
    requires var target := Adjusted(CompactToBig(bits), spacing, actual); target < 0 && ByteLen(-target) <= 254
    ensures (var target := Adjusted(CompactToBig(bits), spacing, actual);
             CompactToBig(NextBits(limits, bits, spacing, actual)) == 0 <==> Lost(target))
  {
    hide BigToCompact, CompactToBig, Adjusted, Lost, ByteLen;
    NegativeIsLostIff(Adjusted(CompactToBig(bits), spacing, actual));
  }

  /** When blocks come exactly at the target spacing the difficulty stays as it is. */
  lemma OnScheduleKeepsBits(limits: Limits, bits: U32, spacing: Spacing)
    requires Canonical(bits) && CompactToBig(bits) <= limits.powLimit
    ensures NextBits(limits, bits, spacing, spacing) == bits
  {
    hide BigToCompact, CompactToBig;
    CanonicalRoundTrip(bits);
    ScalePositive(spacing);
    assert Weight(spacing, spacing) == Scale(spacing);
    QuotientIs(CompactToBig(bits) * Scale(spacing), Scale(spacing), CompactToBig(bits));
  }

  /** When the newest two blocks of a kind were on time the next one has the same bits. */
  lemma OnTimeKeepsBits(limits: Limits, chain: seq<Block>, proofOfStake: bool, p: nat, q: nat, bits: U32)
    requires Retargets(limits, chain, proofOfStake, bits)
    requires 0 < q < p < |chain| && IsNewest(chain, |chain|, proofOfStake, p) && IsNewest(chain, p, proofOfStake, q)
    requires Canonical(chain[p].bits) && CompactToBig(chain[p].bits) <= limits.powLimit
    requires chain[p].timestamp - chain[q].timestamp == if proofOfStake then 600 else 600 * Min(12, |chain| - p)
    ensures bits == chain[p].bits
  {
    hide BigToCompact, CompactToBig, IsNewest, NextBits, HasNone;
    assert RetargetsFrom(limits, chain, proofOfStake, p, q, bits);
    var s := OnTime(proofOfStake, |chain| - 1 - p);
    BitsSpelledOut(limits, chain[p].bits, s, s);
    OnScheduleKeepsBits(limits, chain[p].bits, s);
  }

  /** With non-negative spacing and no clamp one step lowers the target by no more than the factor
      (interval - 1) / (interval + 1), less the rounding of the division, and the compact form takes at most one
      part in 2^15 more. */
  lemma StepIsBounded(limits: Limits, bits: U32, spacing: Spacing, actual: nat)
    requires CompactToBig(bits) >= 0 && Fits(limits.powLimit)
    requires Adjusted(CompactToBig(bits), spacing, actual) <= limits.powLimit
    ensures var target, next := CompactToBig(bits), Adjusted(CompactToBig(bits), spacing, actual);
            var decoded := CompactToBig(NextBits(limits, bits, spacing, actual));
            && target * (Interval(spacing) - 1) < (next + 1) * (Interval(spacing) + 1)
            && 0 <= next - decoded && (next - decoded) * 0x8000 <= next
  {
    hide BigToCompact, CompactToBig, Interval;
    IntervalOf(spacing);
    var target: nat := CompactToBig(bits);
    ScalePositive(spacing);
    WeightPositive(spacing, actual);
    MulLe(0, target, Weight(spacing, actual));
    var next := QuotientCover(target * Weight(spacing, actual), Scale(spacing));
    StepFactor(target, next, Interval(spacing), spacing, actual);
    FitsBelow(next, limits.powLimit);
    RoundTripLoss(next);
  }

  lemma WeightPositive(spacing: Spacing, actual: nat)
    ensures Weight(spacing, actual) >= 0
  {
    hide Interval;
    IntervalOf(spacing);
    MulLe(0, Interval(spacing) - 1, spacing);
  }

  // The spacing cancels from both sides of the division.
  lemma StepFactor(target: nat, next: nat, interval: nat, spacing: nat, actual: nat)
    requires interval >= 1
    requires target * ((interval - 1) * spacing + (actual + actual)) < (next + 1) * ((interval + 1) * spacing)
    ensures target * (interval - 1) < (next + 1) * (interval + 1)
  {
    var a, b := (interval - 1) * spacing, (interval + 1) * spacing;
    MulLe(a, a + (actual + actual), target) by { MulLe(0, interval - 1, spacing); }
    MulAssoc(target, interval - 1, spacing);
    MulAssoc(next + 1, interval + 1, spacing);
    MulLe(0, interval - 1, target);
    MulLe(0, interval + 1, next + 1);
    MulLess(target * (interval - 1), (next + 1) * (interval + 1), spacing);
  }

  lemma IntervalOf(spacing: Spacing)
    ensures 84 <= Interval(spacing) <= 1008
  {
    QuotientBounds(TARGET_TIMESPAN, spacing, 84, 1009);
  }
}
