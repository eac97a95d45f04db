/** Powers of two, and products and quotients by them. */
module Shifts {
  function Times(a: nat, b: nat): nat { a * b }

  function Quot(t: nat, p: nat): nat
    requires p >= 1
  {
    t / p
  }

  lemma {:induction false} TimesNext(a: nat, p: nat)
    ensures Times(0, p) == 0 && Times(1, p) == p && Times(a + 1, p) == Times(a, p) + p
  {
  }

  lemma {:induction false} TimesMonotone(a: nat, b: nat, p: nat)
    ensures a <= b ==> Times(a, p) <= Times(b, p)
    ensures a < b && p >= 1 ==> Times(a, p) < Times(b, p)
  {
    if a <= b {
      var d := b - a;
      assert b * p == a * p + d * p;
      if d > 0 {
        assert d * p == (d - 1) * p + p;
      }
    }
  }

  lemma {:induction false} TimesSwap(a: nat, b: nat)
    ensures Times(a, b) == Times(b, a)
  {
  }

  lemma {:induction false} TimesTwice(a: nat, b: nat, c: nat)
    ensures Times(Times(a, b), c) == Times(a, Times(b, c))
  {
  }

  lemma {:induction false} QuotBounds(t: nat, p: nat)
    requires p >= 1
    ensures Times(Quot(t, p), p) <= t < Times(Quot(t, p) + 1, p)
  {
    var q := t / p;
    assert t == q * p + t % p;
    assert (q + 1) * p == q * p + p;
  }

  // The quotient is determined by its bounds.
  lemma {:induction false} QuotIs(t: nat, p: nat, q: nat)
    requires p >= 1 && Times(q, p) <= t < Times(q + 1, p)
    ensures Quot(t, p) == q
  {
    hide Times, Quot;
    QuotBounds(t, p);
    TimesMonotone(Quot(t, p) + 1, q, p);
    TimesMonotone(q + 1, Quot(t, p), p);
  }

  lemma {:induction false} QuotBetween(t: nat, p: nat, lo: nat, hi: nat)
    requires p >= 1
    ensures Times(lo, p) <= t ==> lo <= Quot(t, p)
    ensures t < Times(hi, p) ==> Quot(t, p) < hi
  {
    hide Times, Quot;
    QuotBounds(t, p);
    TimesMonotone(Quot(t, p) + 1, lo, p);
    TimesMonotone(hi, Quot(t, p), p);
  }

  lemma {:induction false} QuotOfTimes(m: nat, p: nat)
    requires p >= 1
    ensures Quot(Times(m, p), p) == m
  {
    hide Times, Quot;
    TimesNext(m, p);
    QuotIs(Times(m, p), p, m);
  }

  lemma {:induction false} QuotTwice(t: nat, a: nat, b: nat)
    requires a >= 1 && b >= 1
    ensures Times(a, b) >= 1 && Quot(Quot(t, a), b) == Quot(t, Times(a, b))
  {
    hide Times, Quot;
    var r := Quot(t, a);
    var q := Quot(r, b);
    TimesNext(0, b);
    TimesMonotone(1, a, b);
    QuotBounds(t, a);
    QuotBounds(r, b);
    TimesMonotone(Times(q, b), r, a);
    TimesMonotone(r + 1, Times(q + 1, b), a);
    TimesTwice(q, b, a);
    TimesTwice(q + 1, b, a);
    TimesSwap(a, b);
    QuotIs(t, Times(a, b), q);
  }

  function Pow2(n: nat): (p: nat)
    ensures p >= 1
  {
    if n == 0 then 1 else 2 * Pow2(n - 1)
  }

  lemma {:induction false} PowAdd(a: nat, b: nat)
    ensures Pow2(a + b) == Times(Pow2(a), Pow2(b))
    decreases b
  {
    hide Times;
    if b > 0 {
      PowAdd(a, b - 1);
      Doubled(Pow2(a), Pow2(b - 1));
    } else {
      TimesSwap(Pow2(a), 1);
      TimesNext(0, Pow2(a));
    }
  }

  lemma {:induction false} Doubled(a: nat, b: nat)
    ensures 2 * Times(a, b) == Times(a, 2 * b)
  {
  }

  lemma {:induction false} PowMonotone(a: nat, b: nat)
    ensures a <= b ==> Pow2(a) <= Pow2(b)
    ensures a < b ==> 2 * Pow2(a) <= Pow2(b)
    decreases b
  {
    if a < b {
      PowMonotone(a, b - 1);
    }
  }

  lemma {:induction false} PowValues()
    ensures Pow2(7) == 128 && Pow2(8) == 256 && Pow2(15) == 0x8000
    ensures Pow2(16) == 0x1_0000 && Pow2(23) == 0x80_0000 && Pow2(24) == 0x100_0000
  {
    assert Pow2(7) == 128;
    assert Pow2(15) == 0x8000 by {
      assert Pow2(11) == 0x800;
    }
    assert Pow2(19) == 0x8_0000;
    assert Pow2(23) == 0x80_0000;
  }
}
