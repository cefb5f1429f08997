/** The compact form of difficulty targets (difficulty.go): an 8-bit exponent, a sign bit and a 23-bit mantissa. */
module CompactBits {
  import opened Arith

  // The number of bytes of |n|.
  function ByteLen(n: nat): nat {
    if n == 0 then 0 else 1 + ByteLen(n / 256)
  }

  function Mantissa(compact: U32): nat { compact % 0x80_0000 }

  predicate SignBit(compact: U32) { compact / 0x80_0000 % 2 == 1 }

  function Exponent(compact: U32): nat { compact / 0x100_0000 }

  /** CompactToBig: the mantissa shifted by the exponent, negated when the sign bit is set. */
  function CompactToBig(compact: U32): int {
    var mantissa, exponent := Mantissa(compact), Exponent(compact);
    var n := if exponent <= 3 then mantissa / Pow256(3 - exponent) else mantissa * Pow256(exponent - 3);
    if SignBit(compact) then -n else n
  }

  // A right shift of a big integer rounds down, so the magnitude of a negative number rounds up.
  function ShiftedMagnitude(n: int, unit: nat): nat
    requires unit > 0
  {
    if n >= 0 then n / unit else -(n / unit)
  }

  // `exponent << 24 | mantissa` in 32 bits; a rounded-up mantissa can reach the lowest exponent bit.
  function Pack(exponent: nat, mantissa: nat): U32
    requires mantissa <= 0x100_0000
  {
    var e := if mantissa == 0x100_0000 && exponent % 2 == 0 then exponent + 1 else exponent;
    e % 256 * 0x100_0000 + mantissa % 0x100_0000
  }

  /** BigToCompact, for numbers of either sign. */
  function BigToCompact(n: int): U32 {
    if n == 0 then 0
    else
      var magnitude := if n < 0 then -n else n;
      var exponent := ByteLen(magnitude);
      ByteLenBounds(magnitude);
      MantissaBounds(n);
      var mantissa := if exponent <= 3 then magnitude * Pow256(3 - exponent)
                      else ShiftedMagnitude(n, Pow256(exponent - 3));
      var (m, e) := if mantissa / 0x80_0000 % 2 == 1 then (mantissa / 256, exponent + 1) else (mantissa, exponent);
      var compact := Pack(e, m);
      if n < 0 && !SignBit(compact) then WithSign(compact) else compact
  }

  function WithSign(compact: U32): U32
    requires !SignBit(compact)
  {
    compact + 0x80_0000
  }

  // ---------------------------------------------------------------- bytes and powers

  lemma {:induction false} ByteLenBounds(n: nat)
    requires n > 0
    ensures ByteLen(n) >= 1 && Pow256(ByteLen(n) - 1) <= n < Pow256(ByteLen(n))
  {
    if n >= 256 {
      ByteLenBounds(n / 256);
    } else {
      assert ByteLen(n / 256) == 0;
    }
  }

  lemma {:induction false} PowSum(a: nat, b: nat)
    ensures Pow256(a + b) == Pow256(a) * Pow256(b)
  {
    if a > 0 {
      PowSum(a - 1, b);
      assert a + b - 1 == a - 1 + b;
    }
  }

  lemma {:induction false} PowMonotone(a: nat, b: nat)
    requires a <= b
    ensures Pow256(a) <= Pow256(b)
  {
    if a < b {
      PowMonotone(a, b - 1);
    }
  }

  lemma SmallPowers()
    ensures Pow256(0) == 1 && Pow256(1) == 256 && Pow256(2) == 0x1_0000 && Pow256(3) == 0x100_0000
  {
    assert Pow256(2) == 256 * Pow256(1);
    assert Pow256(3) == 256 * Pow256(2);
  }

  // Powers around position `e` as multiples of the power three below it.
  lemma PowAround(e: nat)
    requires e >= 3
    ensures var q := Pow256(e - 3);
            Pow256(e - 1) == 0x1_0000 * q && Pow256(e) == 0x100_0000 * q && Pow256(e - 2) == 256 * q
  {
    hide Pow256;
    SmallPowers();
    PowSum(3, e - 3);
    PowSum(2, e - 3);
    PowSum(1, e - 3);
  }

  lemma ByteLenIs(n: nat, e: nat)
    requires e >= 1 && Pow256(e - 1) <= n < Pow256(e)
    ensures ByteLen(n) == e
  {
    hide Pow256, ByteLen;
    ByteLenBounds(n);
    if ByteLen(n) < e {
      PowMonotone(ByteLen(n), e - 1);
    } else if ByteLen(n) > e {
      PowMonotone(e, ByteLen(n) - 1);
    }
  }

  lemma {:induction false} ByteLenMonotone(a: nat, b: nat)
    requires a <= b
    ensures ByteLen(a) <= ByteLen(b)
  {
    if a > 0 {
      ByteLenMonotone(a / 256, b / 256);
    }
  }

  lemma MantissaBounds(n: int)
    requires n != 0
    ensures var magnitude: nat := if n < 0 then -n else n;
            var exponent := ByteLen(magnitude);
            && exponent >= 1
            && (exponent <= 3 ==> magnitude * Pow256(3 - exponent) < 0x100_0000)
            && (exponent > 3 ==> ShiftedMagnitude(n, Pow256(exponent - 3)) <= 0x100_0000)
  {
    hide Pow256, ByteLen;
    var magnitude: nat := if n < 0 then -n else n;
    var e := ByteLen(magnitude);
    ByteLenBounds(magnitude);
    SmallPowers();
    if e > 3 {
      PowAround(e);
      ShiftBound(n, Pow256(e - 3));
    }
  }

  lemma ShiftBound(n: int, q: nat)
    requires q > 0 && -0x100_0000 * q < n < 0x100_0000 * q
    ensures ShiftedMagnitude(n, q) <= 0x100_0000
  {
    if n >= 0 {
      QuotientBounds(n, q, 0, 0x100_0000);
    } else {
      var d := n / q;
      assert n == d * q + n % q;
      assert -d * q < 0x100_0001 * q;
      MulLess(-d, 0x100_0001, q);
    }
  }

  // ---------------------------------------------------------------- the normal form

  // The exponent and mantissa that represent a positive number.
  function NormalExponent(n: nat): nat {
    ByteLen(2 * n)
  }

  function NormalMantissa(n: nat): int {
    var e := NormalExponent(n);
    if e <= 3 then n * Pow256(3 - e) else n / Pow256(e - 3)
  }

  lemma NormalBounds(n: nat)
    requires n > 0
    ensures NormalExponent(n) >= 1 && 0x8000 <= NormalMantissa(n) < 0x80_0000
    ensures NormalExponent(n) >= 3 ==> 0x8000 * Pow256(NormalExponent(n) - 3) <= n
  {
    hide Pow256, ByteLen;
    var e := ByteLen(2 * n);
    ByteLenBounds(2 * n);
    SmallPowers();
    if e >= 3 {
      PowAround(e);
      QuotientBounds(n, Pow256(e - 3), 0x8000, 0x80_0000);
    }
  }

  /** The carry step, which moves a byte from the mantissa to the exponent when the sign bit would be set, always
      lands on the normal form. */
  lemma EncodesNormal(n: nat)
    requires n > 0
    ensures 0 <= NormalMantissa(n) <= 0x100_0000
    ensures BigToCompact(n) == Pack(NormalExponent(n), NormalMantissa(n))
  {
    NormalBounds(n);
    if ByteLen(n) <= 3 {
      EncodesSmall(n);
    } else {
      EncodesLarge(n);
    }
  }

  // The encoding of a positive number, with and without the carry.
  lemma EncodesShifted(n: nat, mantissa: nat)
    requires n > 0 && mantissa < 0x100_0000
    requires mantissa == if ByteLen(n) <= 3 then n * Pow256(3 - ByteLen(n)) else n / Pow256(ByteLen(n) - 3)
    ensures 0 <= mantissa / 256
    ensures BigToCompact(n) == if mantissa >= 0x80_0000 then Pack(ByteLen(n) + 1, mantissa / 256)
                               else Pack(ByteLen(n), mantissa)
  {
    hide Pow256, ByteLen, Pack;
    assert mantissa / 0x80_0000 % 2 == 1 <==> mantissa >= 0x80_0000;
  }

  lemma EncodesSmall(n: nat)
    requires n > 0 && ByteLen(n) <= 3
    ensures 0 <= NormalMantissa(n) <= 0x100_0000
    ensures BigToCompact(n) == Pack(NormalExponent(n), NormalMantissa(n))
  {
    hide Pow256, ByteLen, BigToCompact, Pack;
    var e := ByteLen(n);
    ByteLenBounds(n);
    NormalBounds(n);
    SmallPowers();
    var m := n * Pow256(3 - e);
    EncodesShifted(n, m);
    if m >= 0x80_0000 {
      PowAround(e + 3);
      PowSum(1, e);
      ByteLenIs(2 * n, e + 1);
    } else {
      ByteLenIs(2 * n, e);
    }
  }

  lemma EncodesLarge(n: nat)
    requires n > 0 && ByteLen(n) > 3
    ensures 0 <= NormalMantissa(n) <= 0x100_0000
    ensures BigToCompact(n) == Pack(NormalExponent(n), NormalMantissa(n))
  {
    hide Pow256, ByteLen, BigToCompact, Pack;
    var e := ByteLen(n);
    ByteLenBounds(n);
    NormalBounds(n);
    PowAround(e);
    SmallPowers();
    PowSum(1, e - 3);
    PowSum(1, e);
    var q := Pow256(e - 3);
    QuotientBounds(n, q, 0x1_0000, 0x100_0000);
    DivFacts(n, q);
    EncodesShifted(n, n / q);
    if n / q >= 0x80_0000 {
      MulLe(0x80_0000, n / q, q);
      ByteLenIs(2 * n, e + 1);
      NestedQuotient(n, q, 256);
    } else {
      MulLe(n / q + 1, 0x80_0000, q);
      ByteLenIs(2 * n, e);
    }
  }

  // ---------------------------------------------------------------- properties

  /** The exponent of the encoding fits in its 8 bits. */
  predicate Fits(n: nat) {
    NormalExponent(n) <= 255
  }

  lemma PackedFields(e: nat, m: nat)
    requires e <= 255 && m < 0x80_0000
    ensures Exponent(Pack(e, m)) == e && Mantissa(Pack(e, m)) == m && !SignBit(Pack(e, m))
  {
    assert Pack(e, m) == e * 0x100_0000 + m;
    QuotientIs(e * 0x100_0000 + m, 0x100_0000, e);
  }

  /** Decoding, on the three fields: the mantissa times 256 to the exponent less three, with the sign. */
  lemma DecodesFields(exponent: nat, negative: bool, mantissa: nat)
    requires exponent < 256 && mantissa < 0x80_0000
    ensures (var n := if exponent >= 3 then mantissa * Pow256(exponent - 3) else mantissa / Pow256(3 - exponent);
             CompactToBig(exponent * 0x100_0000 + (if negative then 0x80_0000 else 0) + mantissa)
             == if negative then -n else n)
  {
    hide Pow256;
    var c: U32 := exponent * 0x100_0000 + (if negative then 0x80_0000 else 0) + mantissa;
    SmallPowers();
    assert Exponent(c) == exponent && Mantissa(c) == mantissa && SignBit(c) == negative;
  }

  lemma DecodesUnsigned(c: U32)
    requires !SignBit(c)
    ensures var m, e := Mantissa(c), Exponent(c);
            CompactToBig(c) == if e <= 3 then m / Pow256(3 - e) else m * Pow256(e - 3)
  {
    hide Pow256, Mantissa, Exponent;
  }

  lemma DecodesNormal(n: nat)
    requires n > 0 && Fits(n)
    ensures 0 <= NormalMantissa(n) <= 0x100_0000
    ensures var e := NormalExponent(n);
            CompactToBig(Pack(e, NormalMantissa(n))) == if e > 3 then NormalMantissa(n) * Pow256(e - 3) else n
  {
    hide Pow256, ByteLen, NormalMantissa, CompactToBig, Pack, Exponent, Mantissa, SignBit;
    NormalBounds(n);
    var e, m := NormalExponent(n), NormalMantissa(n);
    PackedFields(e, m);
    DecodesUnsigned(Pack(e, m));
    if e <= 3 {
      NormalIs(n);
      QuotientOfProduct(n, Pow256(3 - e));
    }
  }

  lemma NormalIs(n: nat)
    ensures var e := NormalExponent(n);
            NormalMantissa(n) == if e <= 3 then n * Pow256(3 - e) else n / Pow256(e - 3)
  {
    hide Pow256, ByteLen;
  }

  // The mantissas of numbers of up to three bytes.
  lemma SmallMantissa(n: nat)
    ensures NormalExponent(n) == 1 ==> NormalMantissa(n) == n * 0x1_0000
    ensures NormalExponent(n) == 2 ==> NormalMantissa(n) == n * 0x100
  {
    hide Pow256, ByteLen;
    SmallPowers();
  }

  /** Encoding never rounds up, loses less than one part in 2^15, and is exact below 2^23. */
  lemma RoundTripLoss(n: nat)
    requires Fits(n)
    ensures var d := CompactToBig(BigToCompact(n));
            d <= n && (n - d) * 0x8000 <= n && (n < 0x80_0000 ==> d == n)
  {
    hide Pow256, ByteLen, BigToCompact, CompactToBig, NormalMantissa;
    SmallPowers();
    if n == 0 {
      ZeroRoundTrip();
    } else {
      EncodesNormal(n);
      DecodesNormal(n);
      NormalBounds(n);
      NormalIs(n);
      var e := NormalExponent(n);
      if e > 3 {
        DivFacts(n, Pow256(e - 3));
        PowMonotone(1, e - 3);
      }
    }
  }

  lemma ZeroRoundTrip()
    ensures BigToCompact(0) == 0 && CompactToBig(0) == 0
  {
    hide Pow256;
    SmallPowers();
  }

  /** Encoding keeps the order of targets, as numbers in compact form. */
  lemma {:induction false} EncodingIsMonotone(a: nat, b: nat)
    requires a <= b && Fits(b)
    ensures BigToCompact(a) <= BigToCompact(b)
  {
    hide Pow256, ByteLen, BigToCompact, NormalMantissa;
    if a == 0 {
      ZeroRoundTrip();
    } else {
      EncodesNormal(a);
      EncodesNormal(b);
      NormalBounds(a);
      NormalBounds(b);
      ByteLenMonotone(2 * a, 2 * b);
      if NormalExponent(a) == NormalExponent(b) {
        MantissaOrder(a, b);
      }
    }
  }

  lemma MantissaOrder(a: nat, b: nat)
    requires 0 < a <= b && NormalExponent(a) == NormalExponent(b)
    ensures NormalMantissa(a) <= NormalMantissa(b)
  {
    hide Pow256, ByteLen;
    var e := NormalExponent(a);
    if e <= 3 {
      MulLe(a, b, Pow256(3 - e));
    } else {
      QuotientOrder(a, b, Pow256(e - 3));
    }
  }

  /** Encodings a header may carry: the sign bit clear and no leading zero byte. */
  predicate Canonical(c: U32) {
    c == 0
    || (&& !SignBit(c) && Exponent(c) >= 1 && Mantissa(c) >= 0x8000
        && (Exponent(c) == 1 ==> Mantissa(c) % 0x1_0000 == 0)
        && (Exponent(c) == 2 ==> Mantissa(c) % 0x100 == 0))
  }

  lemma DecodedNormal(c: U32)
    requires Canonical(c) && c != 0
    ensures CompactToBig(c) > 0
    ensures NormalExponent(CompactToBig(c)) == Exponent(c) && NormalMantissa(CompactToBig(c)) == Mantissa(c)
  {
    hide Pow256, ByteLen, CompactToBig, NormalMantissa;
    DecodesUnsigned(c);
    if Exponent(c) > 3 {
      DecodedLarge(c);
    } else {
      DecodedSmall(c);
    }
  }

  lemma DecodedLarge(c: U32)
    requires Canonical(c) && Exponent(c) > 3 && CompactToBig(c) == Mantissa(c) * Pow256(Exponent(c) - 3)
    ensures CompactToBig(c) > 0
    ensures NormalExponent(CompactToBig(c)) == Exponent(c) && NormalMantissa(CompactToBig(c)) == Mantissa(c)
  {
    hide Pow256, ByteLen, CompactToBig, NormalMantissa, Mantissa, Exponent, SignBit;
    var e, m, n := Exponent(c), Mantissa(c), CompactToBig(c);
    assert m < 0x80_0000 by { MantissaRange(c); }
    var q := Pow256(e - 3);
    PowAround(e);
    assert m >= 0x8000 by { CanonicalMantissa(c); }
    MulLe(0x8000, m, q);
    MulLe(m, 0x7f_ffff, q);
    ByteLenIs(2 * n, e);
    NormalIs(n);
    QuotientOfProduct(m, q);
  }

  lemma CanonicalMantissa(c: U32)
    requires Canonical(c) && Exponent(c) > 0
    ensures Mantissa(c) >= 0x8000
  {
  }

  lemma MantissaRange(c: U32)
    ensures Mantissa(c) < 0x80_0000
  {
  }

  lemma DecodedSmall(c: U32)
    requires Canonical(c) && c != 0 && Exponent(c) <= 3 && CompactToBig(c) == Mantissa(c) / Pow256(3 - Exponent(c))
    ensures CompactToBig(c) > 0
    ensures NormalExponent(CompactToBig(c)) == Exponent(c) && NormalMantissa(CompactToBig(c)) == Mantissa(c)
  {
    hide Pow256, ByteLen, CompactToBig;
    SmallPowers();
    ByteLenIs(2 * CompactToBig(c), Exponent(c));
  }

  /** Decoding and re-encoding a canonical value gives it back. */
  lemma CanonicalRoundTrip(c: U32)
    requires Canonical(c)
    ensures CompactToBig(c) >= 0 && Fits(CompactToBig(c)) && BigToCompact(CompactToBig(c)) == c
  {
    hide Pow256, BigToCompact, CompactToBig, NormalMantissa;
    if c == 0 {
      ZeroRoundTrip();
    } else {
      DecodedNormal(c);
      EncodesNormal(CompactToBig(c));
    }
  }

  /** Every encoding is canonical, so encoding and decoding are inverse on canonical values. */
  lemma EncodingIsCanonical(n: nat)
    requires Fits(n)
    ensures Canonical(BigToCompact(n))
  {
    hide Pow256, ByteLen, BigToCompact, NormalMantissa, Pack, Exponent, Mantissa, SignBit;
    if n == 0 {
      ZeroRoundTrip();
    } else {
      EncodesNormal(n);
      NormalBounds(n);
      SmallMantissa(n);
      PackedFields(NormalExponent(n), NormalMantissa(n));
    }
  }

  /** Encoding is idempotent. */
  lemma EncodingIsIdempotent(n: nat)
    requires Fits(n)
    ensures CompactToBig(BigToCompact(n)) >= 0
    ensures BigToCompact(CompactToBig(BigToCompact(n))) == BigToCompact(n)
  {
    EncodingIsCanonical(n);
    CanonicalRoundTrip(BigToCompact(n));
  }

  // Decoding keeps the order of canonical encodings.
  lemma DecodingIsMonotone(a: nat, b: nat)
    requires a <= b && Fits(b)
    ensures 0 <= CompactToBig(BigToCompact(a)) <= CompactToBig(BigToCompact(b))
  {
    hide BigToCompact, CompactToBig, Pow256;
    FitsBelow(a, b);
    RoundTripLoss(a);
    EncodingIsMonotone(a, b);
    EncodingIsIdempotent(a);
    EncodingIsIdempotent(b);
    var da: nat, db: nat := CompactToBig(BigToCompact(a)), CompactToBig(BigToCompact(b));
    if db < da {
      FitsBelow(da, b);
      EncodingIsMonotone(db, da);
    }
  }

  lemma FitsBelow(a: nat, b: nat)
    requires a <= b && Fits(b)
    ensures Fits(a)
  {
    ByteLenMonotone(2 * a, 2 * b);
  }

  // ---------------------------------------------------------------- negative numbers

  lemma SignedFields(c: U32)
    requires !SignBit(c)
    ensures SignBit(WithSign(c)) && Mantissa(WithSign(c)) == Mantissa(c) && Exponent(WithSign(c)) == Exponent(c)
  {
  }

  // The encoding of a negative number: that of its magnitude, rounded up, with the sign bit.
  lemma EncodesNegative(n: int, mantissa: nat)
    requires n < 0 && mantissa <= 0x100_0000
    requires mantissa == (if ByteLen(-n) <= 3 then -n * Pow256(3 - ByteLen(-n))
                          else ShiftedMagnitude(n, Pow256(ByteLen(-n) - 3)))
    ensures 0 <= mantissa / 256
    ensures var e := ByteLen(-n);
            var c := if 0x80_0000 <= mantissa < 0x100_0000 then Pack(e + 1, mantissa / 256) else Pack(e, mantissa);
            BigToCompact(n) == if SignBit(c) then c else WithSign(c)
  {
    hide Pow256, ByteLen, Pack, ShiftedMagnitude, SignBit, WithSign;
    assert mantissa / 0x80_0000 % 2 == 1 <==> 0x80_0000 <= mantissa < 0x100_0000;
  }

  // A mantissa that fits its field decodes to zero only when its leading bits are shifted out.
  lemma DecodesSigned(e: nat, m: nat)
    requires e <= 255 && 0 < m < 0x80_0000 && (e <= 3 ==> m >= Pow256(3 - e))
    ensures !SignBit(Pack(e, m)) && CompactToBig(WithSign(Pack(e, m))) < 0
  {
    hide Pow256, Pack, SignBit, WithSign, Mantissa, Exponent;
    PackedFields(e, m);
    SignedFields(Pack(e, m));
    if e <= 3 {
      var q := Pow256(3 - e);
      MulLe(1, q, m + 1);
      assert 1 * q <= m && m < (m + 1) * q;
      QuotientBounds(m, q, 1, m + 1);
    } else {
      MulPos(m, Pow256(e - 3));
    }
  }

  // A mantissa that rounded up to 2^24 leaves nothing but the exponent.
  lemma OverflowDecodesToZero(e: nat)
    requires e <= 254
    ensures !SignBit(Pack(e, 0x100_0000)) && CompactToBig(WithSign(Pack(e, 0x100_0000))) == 0
  {
    hide Pow256;
    var c := Pack(e, 0x100_0000);
    assert Mantissa(c) == 0 && !SignBit(c);
    SignedFields(c);
  }

  // The magnitude needs more than three bytes and rounds up to one more byte.
  predicate Lost(n: int)
    requires n < 0
  {
    ByteLen(-n) > 3 && -n > 0xff_ffff * Pow256(ByteLen(-n) - 3)
  }

  /** When a negative number is lost, that is, decodes to zero. */
  lemma NegativeIsLostIff(n: int)
    requires n < 0 && ByteLen(-n) <= 254
    ensures CompactToBig(BigToCompact(n)) == 0 <==> Lost(n)
  {
    hide Pow256, ByteLen, Pack, ShiftedMagnitude, SignBit, WithSign, CompactToBig, BigToCompact;
    var e := ByteLen(-n);
    ByteLenBounds(-n);
    SmallPowers();
    var m := if e <= 3 then -n * Pow256(3 - e) else ShiftedMagnitude(n, Pow256(e - 3));
    NegativeMantissa(n);
    EncodesNegative(n, m);
    if m == 0x100_0000 {
      OverflowDecodesToZero(e);
    } else if m >= 0x80_0000 {
      DecodesSigned(e + 1, m / 256);
    } else {
      DecodesSigned(e, m);
    }
  }

  lemma NegativeMantissa(n: int)
    requires n < 0
    ensures var e := ByteLen(-n);
      if e <= 3 then var m := -n * Pow256(3 - e); 0x1_0000 <= m < 0x100_0000
      else
        var m := ShiftedMagnitude(n, Pow256(e - 3));
        0x1_0000 <= m <= 0x100_0000 && (m == 0x100_0000 <==> -n > 0xff_ffff * Pow256(e - 3))
  {
    hide Pow256, ByteLen;
    var e := ByteLen(-n);
    ByteLenBounds(-n);
    SmallPowers();
    if e > 3 {
      PowAround(e);
      RoundedUp(-n, Pow256(e - 3));
    }
  }

  lemma RoundedUp(m: nat, q: nat)
    requires q > 0 && 0x1_0000 * q <= m < 0x100_0000 * q
    ensures 0x1_0000 <= -((0 - m) / q) <= 0x100_0000 && (-((0 - m) / q) == 0x100_0000 <==> m > 0xff_ffff * q)
  {
    var up: int := -((0 - m) / q);
    assert 0 - m == -up * q + (0 - m) % q;
    assert (up - 1) * q < m <= up * q;
    if up < 0x1_0000 {
      MulLe(up, 0xffff, q);
    }
    if up > 0x100_0000 {
      MulLe(0x100_0000, up - 1, q);
    }
    if up <= 0xff_ffff {
      MulLe(up, 0xff_ffff, q);
    } else {
      MulLe(0xff_ffff, up - 1, q);
    }
  }

  // The magnitude of a negative number as its mantissa keeps it, rounded up to three bytes.
  function RoundUp(m: nat): (up: int)
    requires m > 0
  {
    if ByteLen(m) <= 3 then m else ShiftedMagnitude(0 - m, Pow256(ByteLen(m) - 3)) * Pow256(ByteLen(m) - 3)
  }

  lemma RoundUpBounds(m: nat)
    requires m > 0
    ensures m <= RoundUp(m) <= Pow256(ByteLen(m))
  {
    hide Pow256, ByteLen;
    var e := ByteLen(m);
    ByteLenBounds(m);
    if e > 3 {
      PowAround(e);
      var q := Pow256(e - 3);
      RoundedUp(m, q);
      CeilingCovers(m, q);
      MulLe(ShiftedMagnitude(0 - m, q), 0x100_0000, q);
    }
  }

  lemma CeilingCovers(m: nat, q: nat)
    requires q > 0
    ensures var up: int := -((0 - m) / q); m <= up * q < m + q
  {
    var up: int := -((0 - m) / q);
    assert 0 - m == -up * q + (0 - m) % q;
  }

  lemma RoundUpMonotone(a: nat, b: nat)
    requires 0 < a <= b
    ensures RoundUp(a) <= RoundUp(b)
  {
    hide Pow256, ByteLen;
    RoundUpBounds(a);
    RoundUpBounds(b);
    ByteLenMonotone(a, b);
    if ByteLen(a) < ByteLen(b) {
      PowMonotone(ByteLen(a), ByteLen(b) - 1);
      ByteLenBounds(b);
    } else if ByteLen(a) > 3 {
      CeilingOrder(a, b, Pow256(ByteLen(a) - 3));
    }
  }

  lemma CeilingOrder(a: nat, b: nat, q: nat)
    requires q > 0 && a <= b
    ensures -((0 - a) / q) * q <= -((0 - b) / q) * q
  {
    CeilingCovers(a, q);
    CeilingCovers(b, q);
    var i: int, j: int := -((0 - a) / q), -((0 - b) / q);
    assert (j + 1) * q == j * q + q;
    if j < i {
      MulOrder(j + 1, i, q);
    }
  }

  // A number that is not lost decodes to its magnitude's round trip, negated.
  lemma KeptDecodes(n: int)
    requires n < 0 && ByteLen(-n) <= 254 && !Lost(n)
    ensures RoundUp(-n) > 0 && Fits(RoundUp(-n))
    ensures CompactToBig(BigToCompact(n)) == -CompactToBig(BigToCompact(RoundUp(-n)))
  {
    hide Pow256, ByteLen, Pack, ShiftedMagnitude, SignBit, WithSign, CompactToBig, BigToCompact;
    var e, up := ByteLen(-n), RoundUp(-n);
    RoundUpBounds(-n);
    ByteLenBounds(-n);
    NegativeMantissa(n);
    var m := if e <= 3 then -n * Pow256(3 - e) else ShiftedMagnitude(n, Pow256(e - 3));
    EncodesNegative(n, m);
    KeptLength(n, m);
    EncodesShifted(up, m);
    if m >= 0x80_0000 {
      PackedFields(e + 1, m / 256);
    } else {
      PackedFields(e, m);
    }
    SignedDecodes(BigToCompact(up));
  }

  // The rounded magnitude has the same length and mantissa.
  lemma KeptLength(n: int, m: nat)
    requires n < 0 && ByteLen(-n) <= 254 && !Lost(n)
    requires m == if ByteLen(-n) <= 3 then -n * Pow256(3 - ByteLen(-n))
                  else ShiftedMagnitude(n, Pow256(ByteLen(-n) - 3))
    ensures var up := RoundUp(-n);
      && up > 0 && ByteLen(up) == ByteLen(-n) && Fits(up)
      && m == if ByteLen(up) <= 3 then up * Pow256(3 - ByteLen(up)) else up / Pow256(ByteLen(up) - 3)
  {
    hide Pow256, ByteLen;
    var e, up := ByteLen(-n), RoundUp(-n);
    RoundUpBounds(-n);
    ByteLenBounds(-n);
    NegativeMantissa(n);
    if e > 3 {
      var q := Pow256(e - 3);
      PowAround(e);
      MulLe(m, 0xff_ffff, q);
      ByteLenIs(up, e);
      QuotientOfProduct(m, q);
    }
    PowSum(1, e);
    SmallPowers();
    DoubledLength(up, e);
  }

  lemma DoubledLength(up: nat, e: nat)
    requires 0 < up < Pow256(e) && e <= 254
    ensures Fits(up)
  {
    hide Pow256, ByteLen;
    PowSum(1, e);
    SmallPowers();
    ByteLenBounds(2 * up);
    if ByteLen(2 * up) > e + 1 {
      PowMonotone(e + 1, ByteLen(2 * up) - 1);
    }
  }

  lemma SignedDecodes(c: U32)
    requires !SignBit(c)
    ensures CompactToBig(WithSign(c)) == -CompactToBig(c)
  {
    hide Pow256;
    SignedFields(c);
  }

  /** Encoding and decoding keep the order of two negative numbers exactly unless the smaller one is lost and the larger
      one is not. */
  lemma NegativeOrderIff(a: int, b: int)
    requires a <= b < 0 && ByteLen(-a) <= 254 && ByteLen(-b) <= 254
    ensures CompactToBig(BigToCompact(a)) <= CompactToBig(BigToCompact(b)) <==> (Lost(a) ==> Lost(b))
  {
    hide CompactToBig, BigToCompact, Lost, RoundUp, Fits, ByteLen;
    NegativeIsLostIff(a);
    NegativeIsLostIff(b);
    if !Lost(a) {
      KeptDecodes(a);
      DecodingIsMonotone(RoundUp(-a), RoundUp(-a));
    }
    if !Lost(b) {
      KeptDecodes(b);
      DecodingIsMonotone(RoundUp(-b), RoundUp(-b));
    }
    if !Lost(a) && !Lost(b) {
      RoundUpMonotone(-b, -a);
      DecodingIsMonotone(RoundUp(-b), RoundUp(-a));
    }
  }
}
