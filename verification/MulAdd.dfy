/** One step of a multi-precision multiply-accumulate, and the cores that compute it limb by limb.
    A limb is a natural number below the base; limb arithmetic wraps around at the base. */
module MulAdd {

  /** The destination limb and the carry that a step leaves. */
  datatype Out = Out(limb: nat, carry: nat)

  function Wrap(base: nat, x: nat): (r: nat)
    requires base > 0
    ensures r < base
  {
    x % base
  }

  /** The part shifted out: the high limb of a double one. */
  function High(base: nat, x: nat): nat
    requires base > 0
  {
    x / base
  }

  lemma Split(base: nat, x: nat)
    requires base > 0
    ensures Wrap(base, x) + High(base, x) * base == x
    ensures x < base * base ==> High(base, x) < base
  {
    if x < base * base {
      HighFits(base, x / base, x % base);
    }
  }

  /** What every core has to compute: the low and the high limb of `d + s * b + c`. */
  function Step(base: nat, s: nat, b: nat, c: nat, d: nat): Out
    requires base > 0
  {
    Out((d + s * b + c) % base, (d + s * b + c) / base)
  }

  lemma Monotone(a: nat, b: nat, c: nat, d: nat)
    requires a <= c && b <= d
    ensures a * b <= c * d
  {
  }

  /** The bound all cores live by: product, carry and destination together stay below the base squared. */
  lemma SumFits(base: nat, s: nat, b: nat, c: nat, d: nat)
    requires s < base && b < base && c < base && d < base
    ensures d + s * b + c <= base * base - 1
    ensures s * b <= (base - 1) * (base - 1) && s * b < base * base
  {
    Monotone(s, b, base - 1, base - 1);
    assert (base - 1) * (base - 1) == base * base - 2 * base + 1;
  }

  lemma DivisionIs(base: nat, q: nat, r: nat)
    requires r < base
    ensures (q * base + r) / base == q && (q * base + r) % base == r
  {
    var t := q * base + r;
    assert t == (t / base) * base + t % base;
    if t / base < q {
      Monotone(t / base + 1, base, q, base);
    } else if q < t / base {
      Monotone(q + 1, base, t / base, base);
    }
  }

  /** A pair of limbs that stands for the exact sum is what the step computes. */
  lemma StepIs(base: nat, s: nat, b: nat, c: nat, d: nat, limb: nat, carry: nat)
    requires limb < base && limb + carry * base == d + s * b + c
    ensures Step(base, s, b, c, d) == Out(limb, carry)
  {
    DivisionIs(base, carry, limb);
  }

  lemma StepFits(base: nat, s: nat, b: nat, c: nat, d: nat)
    requires s < base && b < base && c < base && d < base
    ensures var o := Step(base, s, b, c, d);
            o.limb < base && o.carry < base && o.limb + o.carry * base == d + s * b + c
  {
    SumFits(base, s, b, c, d);
    SplitFits(base, d + s * b + c);
  }

  lemma SplitFits(base: nat, t: nat)
    requires base > 0 && t <= base * base - 1
    ensures t % base < base && t / base < base && t % base + t / base * base == t
  {
    HighFits(base, t / base, t % base);
  }

  lemma HighFits(base: nat, high: nat, low: nat)
    requires high * base + low < base * base
    ensures high < base
  {
    if base <= high {
      Monotone(base, base, high, base);
    }
  }

  /** Comparing the wrapped sum with a summand finds out exactly whether the sum wrapped. */
  lemma WrapDetected(base: nat, x: nat, y: nat)
    requires x < base && y < base
    ensures var z := Wrap(base, x + y); z + (if z < y then base else 0) == x + y
  {
    if x + y < base {
      DivisionIs(base, 0, x + y);
    } else {
      DivisionIs(base, 1, x + y - base);
    }
  }

  lemma WrapSmall(base: nat, x: nat)
    requires x < base
    ensures Wrap(base, x) == x
  {
    DivisionIs(base, 0, x);
  }

  /** What a pair of limbs stands for. */
  function Two(base: nat, low: nat, high: nat): nat {
    low + high * base
  }

  function Times(x: nat, y: nat): nat {
    x * y
  }

  /** `r0 += x; r1 += (r0 < x)` */
  method AddTo(base: nat, r0: nat, r1: nat, x: nat) returns (z0: nat, z1: nat)
    requires r0 < base && r1 < base && x < base && Two(base, r0, r1) + x < Times(base, base)
    ensures z0 < base && z1 < base && Two(base, z0, z1) == Two(base, r0, r1) + x
  {
    hide Wrap;
    z0 := Wrap(base, r0 + x);
    WrapDetected(base, r0, x);
    var carry := if z0 < x then 1 else 0;
    assert (r1 + carry) * base == r1 * base + carry * base;
    HighFits(base, r1 + carry, z0);
    WrapSmall(base, r1 + carry);
    z1 := Wrap(base, r1 + carry);
  }

  /** The bound and the meaning of a step, in terms of pairs. */
  lemma SumIs(base: nat, s: nat, b: nat, c: nat, d: nat)
    requires s < base && b < base && c < base && d < base
    ensures Times(s, b) + c + d < Times(base, base)
    ensures forall limb: nat, carry: nat | limb < base && Two(base, limb, carry) == Times(s, b) + c + d ::
      Step(base, s, b, c, d) == Out(limb, carry)
  {
    SumFits(base, s, b, c, d);
    hide Step;
    forall limb: nat, carry: nat | limb < base && Two(base, limb, carry) == Times(s, b) + c + d
      ensures Step(base, s, b, c, d) == Out(limb, carry)
    {
      StepIs(base, s, b, c, d, limb, carry);
    }
  }

  lemma SplitTwo(base: nat, x: nat)
    requires base > 0
    ensures Two(base, Wrap(base, x), High(base, x)) == x
    ensures x < Times(base, base) ==> High(base, x) < base
  {
    hide Wrap, High;
    Split(base, x);
  }

  /** The portable core with a type of twice the width */
  method LongCore(base: nat, s: nat, b: nat, c: nat, d: nat) returns (limb: nat, carry: nat)
    requires s < base && b < base && c < base && d < base
    ensures Out(limb, carry) == Step(base, s, b, c, d)
  {
    hide Wrap, Step, High, Two, Times;
    SumIs(base, s, b, c, d);
    var r := Times(s, b);
    SplitTwo(base, r);
    var r0, r1 := Wrap(base, r), High(base, r);
    r0, r1 := AddTo(base, r0, r1, c);
    r0, r1 := AddTo(base, r0, r1, d);
    return r0, r1;
  }

  /** The two halves of a limb, cut out by shifts: left shifts drop what goes beyond the limb. */
  lemma Halves(half: nat, x: nat)
    requires half > 0 && x < half * half
    ensures Wrap(half * half, x * half) / half == x % half
    ensures x / half < half && x % half < half && x == (x / half) * half + x % half
    ensures Wrap(half * half, x * half) == (x % half) * half
  {
    var base, low, high := half * half, x % half, x / half;
    SplitFits(half, x);
    ShiftUp(half, high, low);
    Monotone(low, half, half - 1, half);
    assert (half - 1) * half == base - half;
    DivisionIs(base, high, low * half);
    DivisionIs(half, low, 0);
  }

  lemma ShiftUp(half: nat, high: nat, low: nat)
    ensures (low + high * half) * half == high * (half * half) + low * half
  {
    assert (low + high * half) * half == low * half + high * half * half;
    assert high * half * half == high * (half * half);
  }

  lemma CrossProducts(half: nat, s0: nat, s1: nat, b0: nat, b1: nat)
    ensures (s1 * half + s0) * (b1 * half + b0)
      == s1 * b1 * (half * half) + s0 * b1 * half + s1 * b0 * half + s0 * b0
  {
    var x := b1 * half + b0;
    assert (s1 * half + s0) * x == s1 * half * x + s0 * x;
    assert s0 * x == s0 * (b1 * half) + s0 * b0;
    assert s0 * (b1 * half) == (s0 * b1) * half;
    assert s1 * half * x == s1 * half * (b1 * half) + s1 * half * b0;
    assert s1 * half * b0 == (s1 * b0) * half;
    assert s1 * half * (b1 * half) == (s1 * b1) * (half * half) by {
      assert s1 * half * (b1 * half) == s1 * (half * (b1 * half));
      assert half * (b1 * half) == b1 * (half * half);
      assert s1 * (b1 * (half * half)) == (s1 * b1) * (half * half);
    }
  }

  lemma ProductFits(base: nat, x: nat, y: nat)
    requires x < base && y < base
    ensures x * y < base * base
  {
    SumFits(base, x, y, 0, 0);
  }

  lemma Shifted(half: nat, x: nat)
    requires half > 0 && x < half * half
    ensures x * half == x / half * (half * half) + Wrap(half * half, x * half)
  {
    hide Wrap;
    Halves(half, x);
    SplitFits(half, x);
    ShiftUp(half, x / half, x % half);
  }

  lemma Distribute(x: nat, y: nat, z: nat, base: nat)
    ensures (x + y + z) * base == x * base + y * base + z * base
  {
  }

  /** A limb cut in halves by shifting. */
  lemma Cut(half: nat, base: nat, x: nat)
    requires half > 0 && base == Times(half, half) && x < base
    ensures High(half, Wrap(base, Times(x, half))) < half && High(half, x) < half
    ensures x == Two(half, High(half, Wrap(base, Times(x, half))), High(half, x))
  {
    hide Wrap;
    Halves(half, x);
  }

  lemma Bounded(base: nat, x: nat, y: nat)
    requires x < base && y < base
    ensures Times(x, y) < Times(base, base)
  {
    ProductFits(base, x, y);
  }

  /** The high halves of the cross products belong to the high limb, the low halves, shifted up, to the
      low one. */
  lemma CrossTermsSplit(half: nat, base: nat, s0: nat, s1: nat, b0: nat, b1: nat, rx: nat, ry: nat)
    requires half > 0 && base == Times(half, half) && rx < base && ry < base && rx == Times(s0, b1)
    requires ry == Times(s1, b0)
    ensures Times(Two(half, s0, s1), Two(half, b0, b1))
      == Two(base, Times(s0, b0), Times(s1, b1) + High(half, rx) + High(half, ry))
         + Wrap(base, Times(rx, half)) + Wrap(base, Times(ry, half))
  {
    var p, q, x, y := Times(s0, b0), Times(s1, b1), High(half, rx), High(half, ry);
    assert Times(Two(half, s0, s1), Two(half, b0, b1)) == p + q * base + rx * half + ry * half by {
      CrossProducts(half, s0, s1, b0, b1);
    }
    hide Wrap;
    assert rx * half == x * base + Wrap(base, Times(rx, half)) by { Shifted(half, rx); }
    assert ry * half == y * base + Wrap(base, Times(ry, half)) by { Shifted(half, ry); }
    Distribute(q, x, y, base);
  }

  lemma HighLimbFits(base: nat, low: nat, high: nat)
    requires Two(base, low, high) < Times(base, base)
    ensures high < base
  {
    HighFits(base, high, low);
  }

  /** The portable core with limbs only: four half products, cross terms shifted, four tests for a carry. */
  method HalfCore(half: nat, base: nat, s: nat, b: nat, c: nat, d: nat) returns (limb: nat, carry: nat)
    requires half > 0 && base == Times(half, half) && s < base && b < base && c < base && d < base
    ensures Out(limb, carry) == Step(base, s, b, c, d)
  {
    hide Wrap, Step, High, Two, Times;
    Cut(half, base, s);
    Cut(half, base, b);
    SumIs(base, s, b, c, d);
    var b0, b1 := High(half, Wrap(base, Times(b, half))), High(half, b);
    var s0, s1 := High(half, Wrap(base, Times(s, half))), High(half, s);
    Bounded(half, s0, b1);
    Bounded(half, s0, b0);
    Bounded(half, s1, b0);
    Bounded(half, s1, b1);
    CrossTermsSplit(half, base, s0, s1, b0, b1, Times(s0, b1), Times(s1, b0));
    WrapSmall(base, Times(s0, b1));
    WrapSmall(base, Times(s0, b0));
    WrapSmall(base, Times(s1, b0));
    WrapSmall(base, Times(s1, b1));
    var rx, r0 := Wrap(base, Times(s0, b1)), Wrap(base, Times(s0, b0));
    var ry, r1 := Wrap(base, Times(s1, b0)), Wrap(base, Times(s1, b1));
    HighLimbFits(base, r0, r1 + High(half, rx) + High(half, ry));
    WrapSmall(base, r1 + High(half, rx));
    WrapSmall(base, r1 + High(half, rx) + High(half, ry));
    r1 := Wrap(base, r1 + High(half, rx));
    r1 := Wrap(base, r1 + High(half, ry));
    rx, ry := Wrap(base, Times(rx, half)), Wrap(base, Times(ry, half));
    r0, r1 := AddTo(base, r0, r1, rx);
    r0, r1 := AddTo(base, r0, r1, ry);
    r0, r1 := AddTo(base, r0, r1, c);
    r0, r1 := AddTo(base, r0, r1, d);
    return r0, r1;
  }
}
