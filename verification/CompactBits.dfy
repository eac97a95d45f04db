/** Compact difficulty targets (crypt/Hash.go:46-97): one byte of size and 23 bits of mantissa. */
module CompactBits {
  import opened Shifts

  const TWO32: nat := 0x1_0000_0000
  const TWO24: nat := 0x100_0000
  const TWO23: nat := 0x80_0000
  const TWO15: nat := 0x8000

  function BitLen(t: nat): nat { if t == 0 then 0 else 1 + BitLen(t / 2) }

  lemma {:induction false} BitLenBounds(t: nat)
    requires t > 0
    ensures BitLen(t) >= 1 && Pow2(BitLen(t) - 1) <= t < Pow2(BitLen(t))
  {
    if t > 1 {
      BitLenBounds(t / 2);
    }
  }

  lemma {:induction false} BitLenMonotone(t: nat, u: nat)
    requires t <= u
    ensures BitLen(t) <= BitLen(u)
  {
    if t > 0 {
      BitLenMonotone(t / 2, u / 2);
    }
  }

  // The bytes needed so that the top bit stays clear.
  function Size(t: nat): (s: nat)
    ensures s >= 1
  {
    BitLen(t) / 8 + 1
  }

  // A number of that size keeps its topmost bit clear and, if it needs two bytes, is not shorter.
  lemma {:induction false} SizeBounds(t: nat)
    requires t > 0
    ensures var s := Size(t); t < Pow2(8 * s - 1) && (s >= 2 ==> Pow2(8 * s - 9) <= t)
  {
    hide BitLen, Pow2;
    BitLenBounds(t);
    var s := Size(t);
    PowMonotone(BitLen(t), 8 * s - 1);
    if s >= 2 {
      PowMonotone(8 * s - 9, BitLen(t) - 1);
    }
  }

  lemma {:induction false} SizeIs(t: nat, s: nat)
    requires t > 0 && s >= 1 && t < Pow2(8 * s - 1) && (s >= 2 ==> Pow2(8 * s - 9) <= t)
    ensures Size(t) == s
  {
    hide Size, Pow2;
    SizeBounds(t);
    if Size(t) < s {
      PowMonotone(8 * Size(t) - 1, 8 * s - 9);
    }
    if Size(t) > s {
      PowMonotone(8 * s - 1, 8 * Size(t) - 9);
    }
  }

  // A target of size s is counted in this unit if s exceeds 3, and otherwise scaled by the other one.
  function Unit(s: nat): (p: nat)
    requires s >= 3
    ensures p >= 1
  {
    Pow2(8 * (s - 3))
  }

  function Scale(s: nat): (p: nat)
    requires s <= 3
    ensures p >= 1
  {
    Pow2(8 * (3 - s))
  }

  // The target without what the mantissa cannot hold: a multiple of its unit.
  function RoundedDown(t: nat): nat {
    if Size(t) <= 3 then t else Times(Quot(t, Unit(Size(t))), Unit(Size(t)))
  }

  function Mantissa(t: nat): nat {
    if Size(t) <= 3 then Times(t, Scale(Size(t))) else Quot(t, Unit(Size(t)))
  }

  function Compact(t: nat): nat {
    if t == 0 then 0 else Size(t) % 256 * TWO24 + Mantissa(t)
  }

  // What a size byte and a mantissa stand for.
  function Value(s: nat, word: nat): nat {
    if s <= 3 then Quot(word, Scale(s)) else Times(word, Unit(s))
  }

  function Expanded(compact: nat): nat { Value(compact / TWO24, compact % TWO23) }

  lemma {:induction false} UnitPowers(s: nat)
    requires s >= 3
    ensures Times(TWO15, Unit(s)) == Pow2(8 * s - 9) && Times(TWO23, Unit(s)) == Pow2(8 * s - 1)
    ensures Times(TWO24, Unit(s)) == Pow2(8 * s)
  {
    hide Times, Pow2;
    PowValues();
    PowAdd(15, 8 * (s - 3));
    PowAdd(23, 8 * (s - 3));
    PowAdd(24, 8 * (s - 3));
  }

  lemma {:induction false} ScalePowers(s: nat)
    requires 1 <= s <= 3
    ensures Times(Pow2(8 * s - 1), Scale(s)) == TWO23 && Times(Pow2(8 * s), Scale(s)) == TWO24
    ensures s >= 2 ==> Times(Pow2(8 * s - 9), Scale(s)) == TWO15
    ensures s == 1 ==> Scale(s) >= TWO15
  {
    hide Times, Pow2;
    PowValues();
    PowAdd(8 * s - 1, 8 * (3 - s));
    PowAdd(8 * s, 8 * (3 - s));
    if s >= 2 {
      PowAdd(8 * s - 9, 8 * (3 - s));
    }
  }

  lemma {:induction false} MantissaBounds(t: nat)
    requires t > 0
    ensures TWO15 <= Mantissa(t) < TWO23
  {
    hide Size, Pow2, Times, Quot, Unit, Scale;
    var s := Size(t);
    SizeBounds(t);
    if s <= 3 {
      ScalePowers(s);
      TimesMonotone(t, Pow2(8 * s - 1), Scale(s));
      if s == 1 {
        TimesNext(0, Scale(s));
        TimesMonotone(1, t, Scale(s));
      } else {
        TimesMonotone(Pow2(8 * s - 9), t, Scale(s));
      }
    } else {
      UnitPowers(s);
      QuotBetween(t, Unit(s), TWO15, TWO23);
    }
  }

  // The value of size and mantissa is the target rounded down.
  lemma {:induction false} ValueOfMantissa(t: nat)
    ensures Value(Size(t), Mantissa(t)) == RoundedDown(t)
  {
    hide Size, Times, Quot, Unit, Scale;
    if Size(t) <= 3 {
      QuotOfTimes(t, Scale(Size(t)));
    }
  }

  lemma {:induction false} SplitCompact(s: nat, m: nat)
    requires m < TWO23
    ensures (s * TWO24 + m) / TWO24 == s && (s * TWO24 + m) % TWO23 == m && (s * TWO24 + m) % TWO24 == m
  {
  }

  // The round trip loses what does not fit the mantissa and nothing else, exactly when the size
  // fits its byte.
  lemma {:induction false} RoundTripIff(t: nat)
    ensures Expanded(Compact(t)) == RoundedDown(t) <==> t == 0 || Size(t) <= 255
  {
    hide Size, Mantissa, Value, RoundedDown;
    if t > 0 {
      MantissaBounds(t);
      SplitCompact(Size(t) % 256, Mantissa(t));
      ValueOfMantissa(t);
      if Size(t) > 255 {
        TruncatedIsSmaller(t);
      }
    } else {
      RoundedZero();
    }
  }

  lemma {:induction false} RoundedZero()
    ensures RoundedDown(0) == 0 && Expanded(0) == 0
  {
    hide Pow2;
    TimesNext(0, Scale(0));
    QuotOfTimes(0, Scale(0));
  }

  // A size of more than a byte is truncated, and the value is then too small.
  lemma {:induction false} TruncatedIsSmaller(t: nat)
    requires t > 0 && Size(t) > 255
    ensures Value(Size(t) % 256, Mantissa(t)) < RoundedDown(t)
  {
    hide Size, Mantissa, RoundedDown, Pow2, Times, Quot;
    var s, m := Size(t), Mantissa(t);
    MantissaBounds(t);
    ValueOfMantissa(t);
    var low := s % 256;
    PowValues();
    if low <= 3 {
      QuotAtMost(m, Scale(low));
      PowMonotone(0, 8 * (s - 3));
      assert Unit(s) >= 2;
      TimesSwap(m, Unit(s));
      TimesNext(1, m);
      TimesMonotone(2, Unit(s), m);
    } else {
      PowMonotone(8 * (low - 3), 8 * (s - 3));
      TimesSwap(m, Unit(s));
      TimesSwap(m, Unit(low));
      TimesMonotone(Unit(low), Unit(s), m);
    }
  }

  lemma {:induction false} QuotAtMost(m: nat, p: nat)
    requires p >= 1
    ensures Quot(m, p) <= m
  {
    hide Times, Quot;
    TimesSwap(m + 1, p);
    TimesNext(0, m + 1);
    TimesMonotone(1, p, m + 1);
    QuotBetween(m, p, 0, m + 1);
  }

  // The relative error of the round trip is below one part in 2^15.
  lemma {:induction false} RoundingErrorSmall(t: nat)
    requires t > 0
    ensures RoundedDown(t) <= t && (t - RoundedDown(t)) * TWO15 < t
  {
    hide Size, Pow2, Times, Quot, Unit;
    var s := Size(t);
    if s > 3 {
      SizeBounds(t);
      UnitPowers(s);
      QuotBounds(t, Unit(s));
      TimesNext(Quot(t, Unit(s)), Unit(s));
      TimesByConstant(Unit(s));
    }
  }

  lemma {:induction false} TimesByConstant(p: nat)
    ensures Times(TWO15, p) == TWO15 * p
  {
  }

  // Rounding again changes nothing, and the rounded target has the same compact form.
  lemma {:induction false} RoundedIsStable(t: nat)
    ensures Compact(RoundedDown(t)) == Compact(t) && RoundedDown(RoundedDown(t)) == RoundedDown(t)
  {
    hide Size, Pow2, Times, Quot, Unit, Scale;
    if t > 0 && Size(t) > 3 {
      var s, u := Size(t), RoundedDown(t);
      SizeBounds(t);
      MantissaBounds(t);
      UnitPowers(s);
      QuotBounds(t, Unit(s));
      TimesMonotone(TWO15, Mantissa(t), Unit(s));
      PowPositive(8 * s - 9);
      SizeIs(u, s);
      QuotOfTimes(Mantissa(t), Unit(s));
    } else if t == 0 {
      RoundedZero();
    }
  }

  lemma {:induction false} PowPositive(n: nat)
    ensures Pow2(n) >= 1
  {
  }

  // Encoding what was decoded from an encoding gives the encoding back.
  lemma {:induction false} ReencodeIsStable(t: nat)
    requires t == 0 || Size(t) <= 255
    ensures Compact(Expanded(Compact(t))) == Compact(t)
  {
    hide Size, Compact, Expanded, RoundedDown;
    RoundTripIff(t);
    RoundedIsStable(t);
  }

  // A smaller target has no greater compact form, and the same one only if it rounds to the same.
  lemma {:induction false} CompactMonotone(t: nat, u: nat)
    requires t <= u && (u == 0 || Size(u) <= 255)
    ensures Compact(t) <= Compact(u)
    ensures Compact(t) == Compact(u) <==> RoundedDown(t) == RoundedDown(u)
  {
    hide Mantissa, RoundedDown, Expanded, BitLen;
    BitLenMonotone(t, u);
    RoundedIsStable(t);
    RoundedIsStable(u);
    RoundTripIff(t);
    RoundTripIff(u);
    if t > 0 {
      MantissaBounds(t);
      MantissaBounds(u);
      if Size(t) == Size(u) {
        MantissaMonotone(t, u);
      }
    }
  }

  lemma {:induction false} MantissaMonotone(t: nat, u: nat)
    requires t <= u && Size(t) == Size(u)
    ensures Mantissa(t) <= Mantissa(u)
  {
    hide Size, Pow2, Times, Quot, Unit, Scale;
    var s := Size(t);
    if s <= 3 {
      TimesMonotone(t, u, Scale(s));
    } else {
      QuotBounds(t, Unit(s));
      QuotBetween(u, Unit(s), Quot(t, Unit(s)), 0);
    }
  }

  // The compact forms of targets: the sign bit is clear, the mantissa has no spare leading byte and
  // its unused low bytes are zero.
  predicate Normalised(compact: nat) {
    var s, m := compact / TWO24, compact % TWO24;
    compact == 0 || (1 <= s <= 255 && TWO15 <= m < TWO23 && (s < 3 ==> Times(Quot(m, Scale(s)), Scale(s)) == m))
  }

  lemma {:induction false} CompactIsNormalised(t: nat)
    requires t == 0 || Size(t) <= 255
    ensures Normalised(Compact(t))
  {
    hide Size, Pow2, Times, Quot, Unit, Scale;
    if t > 0 {
      var s := Size(t);
      MantissaBounds(t);
      SplitCompact(s, Mantissa(t));
      if s < 3 {
        QuotOfTimes(t, Scale(s));
      }
    }
  }

  // Decoding and encoding again gives a compact form back exactly when it is normalised.
  lemma {:induction false} NormalisedRoundTripIff(compact: nat)
    requires compact < TWO32
    ensures Compact(Expanded(compact)) == compact <==> Normalised(compact)
  {
    hide Size, Value, Mantissa, Scale, Quot, Times;
    if compact == 0 {
      RoundedZero();
    } else if Normalised(compact) {
      NormalisedValue(compact / TWO24, compact % TWO24);
      WordOf(compact);
    } else {
      ExpandedFits(compact);
      CompactIsNormalised(Expanded(compact));
    }
  }

  lemma {:induction false} WordOf(compact: nat)
    requires compact % TWO24 < TWO23
    ensures compact % TWO23 == compact % TWO24
  {
  }

  lemma {:induction false} ExpandedFits(compact: nat)
    requires compact < TWO32
    ensures Expanded(compact) == 0 || Size(Expanded(compact)) <= 255
  {
    hide Size, Pow2, Times, Quot, Unit, Scale;
    var s, w := compact / TWO24, compact % TWO23;
    var t := Expanded(compact);
    if t > 0 {
      SizeBounds(t);
      PowValues();
      if s <= 3 {
        QuotAtMost(w, Scale(s));
        FitsBelow(t, 23);
      } else {
        UnitPowers(s);
        TimesMonotone(w, TWO23, Unit(s));
        UnitPositive(s);
        FitsBelow(t, 8 * s - 1);
      }
    }
  }

  lemma {:induction false} FitsBelow(t: nat, n: nat)
    requires 0 < t < Pow2(n) && n <= 8 * 255 - 1
    ensures Size(t) <= 255
  {
    hide Size, Pow2;
    SizeBounds(t);
    if Size(t) > 255 {
      PowMonotone(n, 8 * Size(t) - 9);
    }
  }

  lemma {:induction false} UnitPositive(s: nat)
    requires s >= 3
    ensures Unit(s) >= 1
  {
  }

  // A normalised size and mantissa are those of the value.
  lemma {:induction false} NormalisedValue(s: nat, m: nat)
    requires 1 <= s <= 255 && TWO15 <= m < TWO23 && (s < 3 ==> Times(Quot(m, Scale(s)), Scale(s)) == m)
    ensures var t := Value(s, m); t > 0 && Size(t) == s && Mantissa(t) == m
  {
    hide Size, Pow2, Times, Quot, Unit, Scale;
    var t := Value(s, m);
    if s <= 3 {
      SmallValue(s, m);
    } else {
      UnitPowers(s);
      UnitPositive(s);
      TimesMonotone(m, TWO23, Unit(s));
      TimesMonotone(TWO15, m, Unit(s));
      PowPositive(8 * s - 9);
      SizeIs(t, s);
      QuotOfTimes(m, Unit(s));
    }
  }

  lemma {:induction false} SmallValue(s: nat, m: nat)
    requires 1 <= s <= 3 && TWO15 <= m < TWO23 && (s < 3 ==> Times(Quot(m, Scale(s)), Scale(s)) == m)
    ensures var t := Quot(m, Scale(s)); t > 0 && Size(t) == s && Times(t, Scale(s)) == m
  {
    hide Size, Pow2, Times, Quot;
    var t := Quot(m, Scale(s));
    PowValues();
    ScalePowers(s);
    assert Times(t, Scale(s)) == m by {
      if s == 3 {
        PowZero();
        TimesSwap(m, 1);
        TimesNext(0, m);
        QuotOfTimes(m, 1);
      }
    }
    TimesNext(0, Scale(s));
    QuotBetween(m, Scale(s), if s >= 2 then Pow2(8 * s - 9) else 0, Pow2(8 * s - 1));
    SizeIs(t, s);
  }

  lemma {:induction false} PowZero()
    ensures Pow2(0) == 1
  {
  }

  method BigToCompact(target: nat) returns (compact: nat)
    ensures compact == Compact(target) && compact < TWO32
  {
    hide BitLen, Times, Quot, Mantissa, Pow2;
    if target == 0 {
      return 0;
    }
    var size := (BitLen(target) + 7) / 8;
    CodeSize(target);
    if size <= 3 {
      compact := Times(target, Pow2(8 * (3 - size)));
    } else {
      compact := Quot(target, Pow2(8 * (size - 3)));
    }
    if compact / TWO23 % 2 != 0 {
      compact := compact / 256;
      size := size + 1;
    }
    MantissaBounds(target);
    ShiftedSize(size);
    compact := compact + size * TWO24 % TWO32;
  }

  // Shifting the size by 24 bits in 32 bits keeps its lowest byte.
  lemma {:induction false} ShiftedSize(size: nat)
    ensures size * TWO24 % TWO32 == size % 256 * TWO24
  {
    var q, r := size / 256, size % 256;
    assert size == 256 * q + r;
    assert size * TWO24 == q * TWO32 + r * TWO24;
  }

  method CompactToBig(compact: nat) returns (bn: nat)
    requires compact < TWO32
    ensures bn == Expanded(compact)
  {
    hide Times, Quot, Pow2;
    var size := compact / TWO24;
    var word := compact % TWO23;
    if size <= 3 {
      bn := Quot(word, Pow2(8 * (3 - size)));
    } else {
      bn := word;
      bn := Times(bn, Pow2(8 * (size - 3)));
    }
  }

  // The code counts the bytes first and adds one when bit 23 comes out set.
  lemma {:induction false} CodeSize(t: nat)
    requires t > 0
    ensures var size := (BitLen(t) + 7) / 8;
            var c := if size <= 3 then Times(t, Pow2(8 * (3 - size))) else Quot(t, Pow2(8 * (size - 3)));
            if c / TWO23 % 2 != 0 then Size(t) == size + 1 && Mantissa(t) == c / 256
            else Size(t) == size && Mantissa(t) == c
  {
    hide BitLen, Times, Quot, Pow2;
    var size := (BitLen(t) + 7) / 8;
    if BitLen(t) % 8 == 0 {
      FullBytes(t, size);
    } else {
      assert size == Size(t);
      MantissaBounds(t);
    }
  }

  // A target that fills its bytes up to the top bit.
  lemma {:induction false} FullBytes(t: nat, size: nat)
    requires t > 0 && BitLen(t) == 8 * size
    ensures var c := if size <= 3 then Times(t, Pow2(8 * (3 - size))) else Quot(t, Pow2(8 * (size - 3)));
            TWO23 <= c < TWO24 && Size(t) == size + 1 && Mantissa(t) == c / 256
  {
    hide BitLen, Times, Quot, Pow2;
    BitLenBounds(t);
    PowValues();
    assert Size(t) == size + 1;
    if size <= 3 {
      ScalePowers(size);
      TimesMonotone(Pow2(8 * size - 1), t, Scale(size));
      TimesMonotone(t, Pow2(8 * size), Scale(size));
      if size < 3 {
        PowAdd(8 * (2 - size), 8);
        TimesTwice(t, Pow2(8 * (2 - size)), 256);
        QuotOfTimes(Mantissa(t), 256);
      } else {
        PowZero();
        TimesSwap(t, 1);
        TimesNext(0, t);
      }
    } else {
      UnitPowers(size);
      QuotBetween(t, Unit(size), TWO23, TWO24);
      PowAdd(8 * (size - 3), 8);
      QuotTwice(t, Unit(size), 256);
    }
    QuotByByte(if size <= 3 then Times(t, Pow2(8 * (3 - size))) else Quot(t, Pow2(8 * (size - 3))));
  }

  lemma {:induction false} QuotByByte(c: nat)
    ensures Quot(c, 256) == c / 256
  {
  }
}
