/** The machine forms of the multiply-accumulate: the 32-bit core, the eight-limb block on 64-bit lanes, and
    the 64-bit PowerPC core, which leaves its carry in two parts. */
module MulAddMachine {
  import opened MulAdd
  import opened MulAddVector

  /** An addition that takes a carry flag in and leaves one. */
  function Sum(base: nat, x: nat, y: nat, carry: nat): nat
    requires base > 0
  {
    Wrap(base, x + y + carry)
  }

  function CarryOut(base: nat, x: nat, y: nat, carry: nat): nat
    requires base > 0
  {
    High(base, x + y + carry)
  }

  lemma SumSplit(base: nat, x: nat, y: nat, carry: nat)
    requires x < base && y < base && carry <= 1
    ensures CarryOut(base, x, y, carry) <= 1 && Sum(base, x, y, carry) < base
    ensures Sum(base, x, y, carry) + (if CarryOut(base, x, y, carry) == 1 then base else 0) == x + y + carry
  {
    var t := x + y + carry;
    if t < base {
      DivisionIs(base, 0, t);
    } else {
      DivisionIs(base, 1, t - base);
    }
  }

  lemma TwoCarries(base: nat, low: nat, high: nat, carry: nat)
    requires carry <= 1
    ensures Two(base, low, high + carry) == Two(base, low, high) + (if carry == 1 then base else 0)
  {
    assert (high + 1) * base == high * base + base;
  }

  lemma TwoGrows(base: nat, low: nat, high: nat, x: nat)
    ensures Two(base, low + x, high) == Two(base, low, high) + x
  {
  }

  /** The 32-bit core: `mull`, then twice `addl` and `adcl $0` */
  method Ia32Core(base: nat, s: nat, b: nat, c: nat, d: nat) returns (limb: nat, carry: nat)
    requires s < base && b < base && c < base && d < base
    ensures Out(limb, carry) == Step(base, s, b, c, d)
  {
    hide Wrap, High, Two, Times, Step, Sum, CarryOut;
    SumIs(base, s, b, c, d);
    SplitTwo(base, Times(s, b));
    var eax, edx := Wrap(base, Times(s, b)), High(base, Times(s, b));
    eax, edx := AddWithCarry(base, eax, edx, c);
    eax, edx := AddWithCarry(base, eax, edx, d);
    return eax, edx;
  }

  /** `addl x, eax; adcl $0, edx` */
  method AddWithCarry(base: nat, eax: nat, edx: nat, x: nat) returns (low: nat, high: nat)
    requires eax < base && edx < base && x < base && Two(base, eax, edx) + x < Times(base, base)
    ensures low < base && high < base && Two(base, low, high) == Two(base, eax, edx) + x
  {
    hide Wrap, High, Two, Times, Sum, CarryOut;
    SumSplit(base, eax, x, 0);
    var flag := CarryOut(base, eax, x, 0);
    low := Sum(base, eax, x, 0);
    TwoCarries(base, low, edx, flag);
    TwoGrows(base, low, edx, if flag == 1 then base else 0);
    TwoGrows(base, eax, edx, x);
    HighLimbFits(base, low, edx + flag);
    assert Sum(base, edx, 0, flag) == edx + flag by { SmallSum(base, edx, flag); }
    high := Sum(base, edx, 0, flag);
  }

  lemma SmallSum(base: nat, x: nat, flag: nat)
    requires x + flag < base
    ensures Sum(base, x, 0, flag) == x + flag && CarryOut(base, x, 0, flag) == 0
  {
    DivisionIs(base, 0, x + flag);
  }

  /** The PowerPC core. Between limbs the carry is in two parts, the register and the flag; it is their sum
      that the plain core would have. */
  method Ppc64Core(base: nat, s: nat, b: nat, r5: nat, ca: nat, d: nat) returns (limb: nat, r5': nat, ca': nat)
    requires s < base && b < base && ca <= 1 && r5 + ca < base && d < base
    ensures ca' <= 1 && r5' + ca' < base
    ensures Out(limb, r5' + ca') == Step(base, s, b, r5 + ca, d)
  {
    hide Wrap, High, Two, Times, Step, Sum, CarryOut;
    SumIs(base, s, b, r5 + ca, d);
    SplitTwo(base, Times(s, b));
    var r8, r9 := Wrap(base, Times(s, b)), High(base, Times(s, b));
    // adde r8, r8, r5
    SumSplit(base, r8, r5, ca);
    ghost var t := r8 + r5 + ca;
    TwoGrows(base, r8, r9, r5 + ca);
    var r8', flag := Sum(base, r8, r5, ca), CarryOut(base, r8, r5, ca);
    TwoCarries(base, r8', r9, flag);
    TwoGrows(base, r8', r9, if flag == 1 then base else 0);
    HighLimbFits(base, r8', r9 + flag);
    // addze r5, r9
    SmallSum(base, r9, flag);
    var flag';
    r5', flag' := Sum(base, r9, 0, flag), CarryOut(base, r9, 0, flag);
    // addc r8, r8, r7
    SumSplit(base, r8', d, 0);
    TwoGrows(base, r8', r5', d);
    limb, ca' := Sum(base, r8', d, 0), CarryOut(base, r8', d, 0);
    TwoCarries(base, limb, r5', ca');
    TwoGrows(base, limb, r5', if ca' == 1 then base else 0);
    HighLimbFits(base, limb, r5' + ca');
  }

  /** The PowerPC loop: the carry stays split over any number of limbs and is put together at the end. */
  method Ppc64Vector(base: nat, s: array<nat>, d: array<nat>, n: nat, b: nat, c: nat) returns (carry: nat)
    requires s != d && n <= s.Length && n <= d.Length && Limbs(base, s[..]) && Limbs(base, d[..]) && b < base
    requires c < base
    modifies d
    ensures base > 0 && Accumulated(base, s[..], old(d[..]), d[..], b, c, n, carry) && carry < base
    ensures Value(base, d[..n]) + Times(carry, Power(base, n))
      == Value(base, old(d[..n])) + Times(Value(base, s[..n]), b) + c
  {
    hide Step, Accumulated, Value, Power, Times, Sum, CarryOut;
    ghost var was := d[..];
    // addic r5, r5, 0
    SmallSum(base, c, 0);
    var r5: nat, ca: nat := Sum(base, c, 0, 0), CarryOut(base, c, 0, 0);
    AccumulateNothing(base, s[..], was, b, c);
    for i := 0 to n
      invariant ca <= 1 && r5 + ca < base && d.Length == |was|
      invariant Accumulated(base, s[..], was, d[..], b, c, i, r5 + ca) && Limbs(base, d[..])
    {
      ghost var now, carried := d[..], r5 + ca;
      var limb;
      limb, r5, ca := Ppc64Core(base, s[i], b, r5, ca, d[i]);
      AccumulatedThere(base, s[..], was, now, b, c, i, carried);
      AccumulateStep(base, s[..], was, now, b, c, i, carried, Out(limb, r5 + ca));
      d[i] := limb;
      assert d[..] == now[i := limb];
      AccumulatedMeans(base, s[..], was, d[..], b, c, i + 1, r5 + ca);
    }
    // addze r5, r5
    SmallSum(base, r5, ca);
    carry := Sum(base, r5, 0, ca);
    AccumulatedMeans(base, s[..], was, d[..], b, c, n, carry);
    assert d[..][..n] == d[..n] && was[..n] == old(d[..n]) && s[..][..n] == s[..n];
  }

  // ---- The eight-limb block

  const LIMB: nat := 0x1_0000_0000
  const LANE: nat := 0x1_0000_0000_0000_0000

  /** `paddq` on 64-bit lanes */
  function Paddq(x: nat, y: nat): nat {
    Wrap(LANE, x + y)
  }

  /** `pmuludq` of two lanes that hold a limb each */
  function Pmuludq(x: nat, y: nat): nat {
    Wrap(LANE, Times(x, y))
  }

  /** What one limb's share comes to when product and destination are summed first and the carry comes in
      later: no lane overflows, and the sum splits into the limb and the carry of a plain step. */
  lemma LaneIsStep(s: nat, b: nat, c: nat, d: nat)
    requires s < LIMB && b < LIMB && c < LIMB && d < LIMB
    ensures Pmuludq(s, b) == Times(s, b) && Paddq(d, Times(s, b)) == Paddq(Times(s, b), d) == d + Times(s, b)
    ensures d + Times(s, b) + c < LANE && Paddq(c, d + Times(s, b)) == d + Times(s, b) + c
    ensures Step(LIMB, s, b, c, d) == Out(Wrap(LIMB, d + Times(s, b) + c), High(LIMB, d + Times(s, b) + c))
    ensures High(LIMB, d + Times(s, b) + c) < LIMB
  {
    SumFits(LIMB, s, b, c, d);
    hide Wrap, High;
    var p := Times(s, b);
    assert LIMB * LIMB == LANE;
    WrapSmall(LANE, p);
    WrapSmall(LANE, d + p);
    WrapSmall(LANE, d + p + c);
    Split(LIMB, d + p + c);
    StepIs(LIMB, s, b, c, d, Wrap(LIMB, d + p + c), High(LIMB, d + p + c));
  }

  /** The first limb's sum starts from carry and destination instead. */
  lemma FirstLane(s: nat, b: nat, c: nat, d: nat)
    requires s < LIMB && b < LIMB && c < LIMB && d < LIMB
    ensures c + d < LANE && Paddq(c, d) == c + d && Paddq(c + d, Times(s, b)) == d + Times(s, b) + c
  {
    LaneIsStep(s, b, c, d);
    WrapSmall(LANE, c + d);
    WrapSmall(LANE, d + Times(s, b) + c);
  }

  /** Limbs and carries that satisfy the step equation one after the other are the steps. */
  lemma {:induction false} StepsAre(base: nat, s: seq<nat>, d: seq<nat>, b: nat, limbs: seq<nat>, carries: seq<nat>,
                                    n: nat)
    requires base > 0 && n <= |s| && n <= |d| && n <= |limbs| && n < |carries|
    requires forall i, j | 0 <= i < n && j == i + 1 ::
      Step(base, s[i], b, carries[i], d[i]) == Out(limbs[i], carries[j])
    ensures Steps(base, s, d, b, carries[0], n) == Run(limbs[..n], carries[n])
  {
    hide Step;
    if n > 0 {
      StepsAre(base, s, d, b, limbs, carries, n - 1);
      assert limbs[..n] == limbs[..n - 1] + [limbs[n - 1]];
    }
  }

  /** What a limb's lane comes to, exactly. */
  function Lane(s: nat, b: nat, c: nat, d: nat): nat {
    d + Times(s, b) + c
  }

  ghost predicate InBlock(s: array<nat>, d: array<nat>, esi: nat, edi: nat)
    reads s, d
  {
    && s != d && esi + 8 <= s.Length && edi + 8 <= d.Length
    && (forall i | esi <= i < esi + 8 :: s[i] < LIMB) && (forall i | edi <= i < edi + 8 :: d[i] < LIMB)
  }

  /** The block up to its fourth limb: the products and sums of the rest are under way in the registers. */
  method HuitFront(s: array<nat>, d: array<nat>, esi: nat, edi: nat, b: nat, c0: nat)
      returns (mm1: nat, mm2: nat, mm3: nat, mm4: nat, mm6: nat, ghost fits: bool, ghost carries: seq<nat>)
    requires InBlock(s, d, esi, edi) && b < LIMB && c0 < LIMB
    modifies d
    ensures fits && |carries| == 5 && carries[0] == c0 && carries[4] == mm1 < LIMB
    ensures Out(d[edi], carries[1]) == Step(LIMB, s[esi], b, carries[0], old(d[edi]))
    ensures Out(d[edi + 1], carries[2]) == Step(LIMB, s[esi + 1], b, carries[1], old(d[edi + 1]))
    ensures Out(d[edi + 2], carries[3]) == Step(LIMB, s[esi + 2], b, carries[2], old(d[edi + 2]))
    ensures Out(d[edi + 3], carries[4]) == Step(LIMB, s[esi + 3], b, carries[3], old(d[edi + 3]))
    ensures forall k | 0 <= k < d.Length && !(edi <= k < edi + 4) :: d[k] == old(d[k])
    ensures mm2 == d[edi + 4] + Times(s[esi + 4], b) && mm4 == d[edi + 5] + Times(s[esi + 5], b)
    ensures mm6 == Times(s[esi + 6], b) && mm3 == Times(s[esi + 7], b)
  {
    hide Wrap, High, Times, Paddq, Pmuludq, Step;
    fits := true;
    FirstLane(s[esi], b, c0, d[edi]);
    LaneIsStep(s[esi], b, c0, d[edi]);
    ghost var c1 := High(LIMB, Lane(s[esi], b, c0, d[edi]));
    LaneIsStep(s[esi + 1], b, c1, d[edi + 1]);
    ghost var c2 := High(LIMB, Lane(s[esi + 1], b, c1, d[edi + 1]));
    LaneIsStep(s[esi + 2], b, c2, d[edi + 2]);
    ghost var c3 := High(LIMB, Lane(s[esi + 2], b, c2, d[edi + 2]));
    LaneIsStep(s[esi + 3], b, c3, d[edi + 3]);
    ghost var c4 := High(LIMB, Lane(s[esi + 3], b, c3, d[edi + 3]));
    LaneIsStep(s[esi + 4], b, 0, d[edi + 4]);
    LaneIsStep(s[esi + 5], b, 0, d[edi + 5]);
    LaneIsStep(s[esi + 6], b, 0, d[edi + 6]);
    LaneIsStep(s[esi + 7], b, 0, d[edi + 7]);
    carries := [c0, c1, c2, c3, c4];
    var mm0 := b;
    mm1 := c0;
    mm3 := d[edi];
    fits := fits && mm1 + mm3 < LANE; mm1 := Paddq(mm1, mm3);
    mm2 := s[esi];
    mm2 := Pmuludq(mm2, mm0);
    mm4 := s[esi + 1];
    mm4 := Pmuludq(mm4, mm0);
    mm6 := s[esi + 2];
    mm6 := Pmuludq(mm6, mm0);
    var mm7 := s[esi + 3];
    mm7 := Pmuludq(mm7, mm0);
    fits := fits && mm1 + mm2 < LANE; mm1 := Paddq(mm1, mm2);
    mm3 := d[edi + 1];
    fits := fits && mm3 + mm4 < LANE; mm3 := Paddq(mm3, mm4);
    var mm5 := d[edi + 2];
    fits := fits && mm5 + mm6 < LANE; mm5 := Paddq(mm5, mm6);
    mm4 := d[edi + 3];
    fits := fits && mm7 + mm4 < LANE; mm7 := Paddq(mm7, mm4);
    d[edi] := Wrap(LIMB, mm1);
    mm2 := s[esi + 4];
    mm2 := Pmuludq(mm2, mm0);
    mm1 := High(LIMB, mm1);
    mm4 := s[esi + 5];
    mm4 := Pmuludq(mm4, mm0);
    fits := fits && mm1 + mm3 < LANE; mm1 := Paddq(mm1, mm3);
    mm6 := s[esi + 6];
    mm6 := Pmuludq(mm6, mm0);
    d[edi + 1] := Wrap(LIMB, mm1);
    mm1 := High(LIMB, mm1);
    mm3 := s[esi + 7];
    mm3 := Pmuludq(mm3, mm0);
    fits := fits && mm1 + mm5 < LANE; mm1 := Paddq(mm1, mm5);
    mm5 := d[edi + 4];
    fits := fits && mm2 + mm5 < LANE; mm2 := Paddq(mm2, mm5);
    d[edi + 2] := Wrap(LIMB, mm1);
    mm1 := High(LIMB, mm1);
    fits := fits && mm1 + mm7 < LANE; mm1 := Paddq(mm1, mm7);
    mm5 := d[edi + 5];
    fits := fits && mm4 + mm5 < LANE; mm4 := Paddq(mm4, mm5);
    d[edi + 3] := Wrap(LIMB, mm1);
    mm1 := High(LIMB, mm1);
  }

  /** The rest of the block. */
  method HuitBack(s: array<nat>, d: array<nat>, esi: nat, edi: nat, b: nat, c4: nat, p4: nat, p5: nat, p6: nat, p7: nat)
      returns (ecx: nat, ghost fits: bool, ghost carries: seq<nat>)
    requires InBlock(s, d, esi, edi) && b < LIMB && c4 < LIMB
    requires p4 == d[edi + 4] + Times(s[esi + 4], b) && p5 == d[edi + 5] + Times(s[esi + 5], b)
    requires p6 == Times(s[esi + 6], b) && p7 == Times(s[esi + 7], b)
    modifies d
    ensures fits && |carries| == 5 && carries[0] == c4 && carries[4] == ecx
    ensures Out(d[edi + 4], carries[1]) == Step(LIMB, s[esi + 4], b, carries[0], old(d[edi + 4]))
    ensures Out(d[edi + 5], carries[2]) == Step(LIMB, s[esi + 5], b, carries[1], old(d[edi + 5]))
    ensures Out(d[edi + 6], carries[3]) == Step(LIMB, s[esi + 6], b, carries[2], old(d[edi + 6]))
    ensures Out(d[edi + 7], carries[4]) == Step(LIMB, s[esi + 7], b, carries[3], old(d[edi + 7]))
    ensures forall k | 0 <= k < d.Length && !(edi + 4 <= k < edi + 8) :: d[k] == old(d[k])
  {
    hide Wrap, High, Times, Paddq, Pmuludq, Step;
    fits := true;
    LaneIsStep(s[esi + 4], b, c4, d[edi + 4]);
    ghost var c5 := High(LIMB, Lane(s[esi + 4], b, c4, d[edi + 4]));
    LaneIsStep(s[esi + 5], b, c5, d[edi + 5]);
    ghost var c6 := High(LIMB, Lane(s[esi + 5], b, c5, d[edi + 5]));
    LaneIsStep(s[esi + 6], b, c6, d[edi + 6]);
    ghost var c7 := High(LIMB, Lane(s[esi + 6], b, c6, d[edi + 6]));
    LaneIsStep(s[esi + 7], b, c7, d[edi + 7]);
    ghost var c8 := High(LIMB, Lane(s[esi + 7], b, c7, d[edi + 7]));
    carries := [c4, c5, c6, c7, c8];
    var mm1, mm2, mm4, mm6, mm3 := c4, p4, p5, p6, p7;
    fits := fits && mm1 + mm2 < LANE; mm1 := Paddq(mm1, mm2);
    var mm5 := d[edi + 6];
    fits := fits && mm6 + mm5 < LANE; mm6 := Paddq(mm6, mm5);
    d[edi + 4] := Wrap(LIMB, mm1);
    mm1 := High(LIMB, mm1);
    fits := fits && mm1 + mm4 < LANE; mm1 := Paddq(mm1, mm4);
    mm5 := d[edi + 7];
    fits := fits && mm3 + mm5 < LANE; mm3 := Paddq(mm3, mm5);
    d[edi + 5] := Wrap(LIMB, mm1);
    mm1 := High(LIMB, mm1);
    fits := fits && mm1 + mm6 < LANE; mm1 := Paddq(mm1, mm6);
    d[edi + 6] := Wrap(LIMB, mm1);
    mm1 := High(LIMB, mm1);
    fits := fits && mm1 + mm3 < LANE; mm1 := Paddq(mm1, mm3);
    d[edi + 7] := Wrap(LIMB, mm1);
    mm1 := High(LIMB, mm1);
    ecx := mm1;
  }

  /** The eight-limb block, instruction by instruction: products and destination limbs are loaded and summed
      ahead of the carry. It leaves what eight single steps leave, and no 64-bit addition wraps (`fits`). */
  method Huit(s: array<nat>, d: array<nat>, esi: nat, edi: nat, b: nat, c: nat) returns (ecx: nat, ghost fits: bool)
    requires s != d && esi + 8 <= s.Length && edi + 8 <= d.Length && Limbs(LIMB, s[..]) && Limbs(LIMB, d[..])
    requires b < LIMB && c < LIMB
    modifies d
    ensures Run(d[edi..edi + 8], ecx) == Steps(LIMB, s[esi..esi + 8], old(d[edi..edi + 8]), b, c, 8)
    ensures d[..edi] == old(d[..edi]) && d[edi + 8..] == old(d[edi + 8..])
    ensures fits
  {
    hide Times, Step, Steps;
    ghost var S, D := s[esi..esi + 8], d[edi..edi + 8];
    assert InBlock(s, d, esi, edi) by {
      assert (forall i | 0 <= i < s.Length :: s[..][i] == s[i]) && (forall i | 0 <= i < d.Length :: d[..][i] == d[i]);
    }
    ghost var front, back, fits';
    var mm1, mm2, mm3, mm4, mm6;
    mm1, mm2, mm3, mm4, mm6, fits, front := HuitFront(s, d, esi, edi, b, c);
    assert InBlock(s, d, esi, edi) by {
      StepBelow(s[esi], b, front[0], D[0]);
      StepBelow(s[esi + 1], b, front[1], D[1]);
      StepBelow(s[esi + 2], b, front[2], D[2]);
      StepBelow(s[esi + 3], b, front[3], D[3]);
      assert forall k | 4 <= k < 8 :: d[edi + k] == D[k];
    }
    ecx, fits', back := HuitBack(s, d, esi, edi, b, mm1, mm2, mm4, mm6, mm3);
    fits := fits && fits';
    EightSteps(S, D, b, d[edi..edi + 8], front, back);
  }

  lemma StepBelow(s: nat, b: nat, c: nat, d: nat)
    ensures Step(LIMB, s, b, c, d).limb < LIMB
  {
  }

  lemma EightSteps(s: seq<nat>, d: seq<nat>, b: nat, limbs: seq<nat>, front: seq<nat>, back: seq<nat>)
    requires |s| == |d| == |limbs| == 8 && |front| == |back| == 5 && front[4] == back[0]
    requires Out(limbs[0], front[1]) == Step(LIMB, s[0], b, front[0], d[0])
    requires Out(limbs[1], front[2]) == Step(LIMB, s[1], b, front[1], d[1])
    requires Out(limbs[2], front[3]) == Step(LIMB, s[2], b, front[2], d[2])
    requires Out(limbs[3], front[4]) == Step(LIMB, s[3], b, front[3], d[3])
    requires Out(limbs[4], back[1]) == Step(LIMB, s[4], b, back[0], d[4])
    requires Out(limbs[5], back[2]) == Step(LIMB, s[5], b, back[1], d[5])
    requires Out(limbs[6], back[3]) == Step(LIMB, s[6], b, back[2], d[6])
    requires Out(limbs[7], back[4]) == Step(LIMB, s[7], b, back[3], d[7])
    ensures Steps(LIMB, s, d, b, front[0], 8) == Run(limbs, back[4])
  {
    hide Step, Steps;
    StepsAre(LIMB, s, d, b, limbs, front + back[1..], 8);
    assert limbs[..8] == limbs;
  }
}
