/** Whole vectors: each form of the multiply-accumulate loop, proved against one sequence of steps, and
    what that sequence means for the numbers the vectors stand for. */
module MulAddVector {
  import opened MulAdd

  predicate Limbs(base: nat, x: seq<nat>) {
    forall i | 0 <= i < |x| :: x[i] < base
  }

  function Power(base: nat, n: nat): nat {
    if n == 0 then 1 else Times(Power(base, n - 1), base)
  }

  /** The number a vector of limbs stands for, least significant limb first. */
  function Value(base: nat, x: seq<nat>): nat {
    if x == [] then 0 else Value(base, x[..|x| - 1]) + Times(x[|x| - 1], Power(base, |x| - 1))
  }

  datatype Run = Run(limbs: seq<nat>, carry: nat)

  /** The first `n` steps along two vectors. */
  function Steps(base: nat, s: seq<nat>, d: seq<nat>, b: nat, c: nat, n: nat): (r: Run)
    requires base > 0 && n <= |s| && n <= |d|
    ensures |r.limbs| == n
  {
    if n == 0 then Run([], c)
    else
      var before := Steps(base, s, d, b, c, n - 1);
      var o := Step(base, s[n - 1], b, before.carry, d[n - 1]);
      Run(before.limbs + [o.limb], o.carry)
  }

  lemma {:induction false} StepsInRange(base: nat, s: seq<nat>, d: seq<nat>, b: nat, c: nat, n: nat)
    requires n <= |s| && n <= |d| && Limbs(base, s) && Limbs(base, d) && b < base && c < base
    ensures Limbs(base, Steps(base, s, d, b, c, n).limbs) && Steps(base, s, d, b, c, n).carry < base
  {
    hide Step;
    if n > 0 {
      StepsInRange(base, s, d, b, c, n - 1);
      StepFits(base, s[n - 1], b, Steps(base, s, d, b, c, n - 1).carry, d[n - 1]);
    }
  }

  lemma ValueAfter(base: nat, x: seq<nat>, limb: nat)
    ensures Value(base, x + [limb]) == Value(base, x) + Times(limb, Power(base, |x|))
  {
    assert (x + [limb])[..|x + [limb]| - 1] == x;
  }

  /** One more place: limb and carry take over what destination, product and old carry bring in. */
  lemma Weighted(base: nat, s: nat, b: nat, c: nat, d: nat, o: Out, p: nat)
    requires o.limb + o.carry * base == d + s * b + c
    ensures Times(o.limb, p) + Times(o.carry, Times(p, base)) == Times(d, p) + Times(Times(s, p), b) + Times(c, p)
  {
    assert (o.limb + o.carry * base) * p == o.limb * p + o.carry * base * p;
    assert o.carry * base * p == o.carry * (p * base);
    assert (d + s * b + c) * p == d * p + s * b * p + c * p;
    assert s * b * p == s * p * b;
  }

  lemma StepWeighted(base: nat, s: nat, b: nat, c: nat, d: nat, p: nat)
    requires s < base && b < base && c < base && d < base
    ensures var o := Step(base, s, b, c, d);
            Times(o.limb, p) + Times(o.carry, Times(p, base)) == Times(d, p) + Times(Times(s, p), b) + Times(c, p)
  {
    hide Step;
    StepFits(base, s, b, c, d);
    Weighted(base, s, b, c, d, Step(base, s, b, c, d), p);
  }

  lemma Spread(x: nat, y: nat, b: nat)
    ensures Times(x + y, b) == Times(x, b) + Times(y, b)
  {
  }

  /** What the steps compute, over any number of limbs: no carry is lost on the way. */
  lemma {:induction false} StepsAddProduct(base: nat, s: seq<nat>, d: seq<nat>, b: nat, c: nat, n: nat)
    requires n <= |s| && n <= |d| && Limbs(base, s) && Limbs(base, d) && b < base && c < base
    ensures var r := Steps(base, s, d, b, c, n);
            Value(base, r.limbs) + Times(r.carry, Power(base, n))
              == Value(base, d[..n]) + Times(Value(base, s[..n]), b) + c
  {
    hide Step, Times, Value, Power;
    if n == 0 {
      UnitTimes(c, b);
      NoLimbs(base);
    } else {
      PowerNext(base, n);
      StepsInRange(base, s, d, b, c, n - 1);
      StepsAddProduct(base, s, d, b, c, n - 1);
      var before, p := Steps(base, s, d, b, c, n - 1), Power(base, n - 1);
      var o := Step(base, s[n - 1], b, before.carry, d[n - 1]);
      StepWeighted(base, s[n - 1], b, before.carry, d[n - 1], p);
      ValueAfter(base, before.limbs, o.limb);
      assert d[..n] == d[..n - 1] + [d[n - 1]] && s[..n] == s[..n - 1] + [s[n - 1]];
      ValueAfter(base, d[..n - 1], d[n - 1]);
      ValueAfter(base, s[..n - 1], s[n - 1]);
      Spread(Value(base, s[..n - 1]), Times(s[n - 1], p), b);
    }
  }

  // ---- Runs put together

  lemma {:induction false} StepsFront(base: nat, s: seq<nat>, d: seq<nat>, b: nat, c: nat, n: nat, m: nat)
    requires base > 0 && n <= m <= |s| && m <= |d|
    ensures Steps(base, s[..m], d[..m], b, c, n) == Steps(base, s, d, b, c, n)
  {
    hide Step;
    if n > 0 {
      StepsFront(base, s, d, b, c, n - 1, m);
    }
  }

  /** Going on where a run stopped, with the carry it left, is one longer run. */
  lemma {:induction false} StepsJoin(base: nat, s: seq<nat>, d: seq<nat>, b: nat, c: nat, m: nat, n: nat)
    requires base > 0 && m + n <= |s| && m + n <= |d|
    ensures var front := Steps(base, s, d, b, c, m);
            var back := Steps(base, s[m..], d[m..], b, front.carry, n);
            Steps(base, s, d, b, c, m + n) == Run(front.limbs + back.limbs, back.carry)
    decreases n
  {
    hide Step;
    var front := Steps(base, s, d, b, c, m);
    if n == 0 {
      assert front.limbs + [] == front.limbs;
    } else {
      StepsJoin(base, s, d, b, c, m, n - 1);
      var back := Steps(base, s[m..], d[m..], b, front.carry, n - 1);
      var o := Step(base, s[m + n - 1], b, back.carry, d[m + n - 1]);
      assert s[m..][n - 1] == s[m + n - 1] && d[m..][n - 1] == d[m + n - 1];
      assert (front.limbs + back.limbs) + [o.limb] == front.limbs + (back.limbs + [o.limb]);
    }
  }

  function Sizes(blocks: seq<nat>): nat {
    if blocks == [] then 0 else Sizes(blocks[..|blocks| - 1]) + blocks[|blocks| - 1]
  }

  /** Blocks of limbs one after the other: each starts behind the limbs done before, with the carry left. */
  function InBlocks(base: nat, s: seq<nat>, d: seq<nat>, b: nat, c: nat, blocks: seq<nat>): (r: Run)
    requires base > 0 && Sizes(blocks) <= |s| && Sizes(blocks) <= |d|
    ensures |r.limbs| == Sizes(blocks)
  {
    if blocks == [] then Run([], c)
    else
      var k := |blocks| - 1;
      var before := InBlocks(base, s, d, b, c, blocks[..k]);
      var from, upTo := Sizes(blocks[..k]), Sizes(blocks);
      var block := Steps(base, s[from..upTo], d[from..upTo], b, before.carry, blocks[k]);
      Run(before.limbs + block.limbs, block.carry)
  }

  /** However the limbs are cut into blocks, of eight and of one say, the blocks are one run. */
  lemma {:induction false} BlocksAreSteps(base: nat, s: seq<nat>, d: seq<nat>, b: nat, c: nat, blocks: seq<nat>)
    requires base > 0 && Sizes(blocks) <= |s| && Sizes(blocks) <= |d|
    ensures InBlocks(base, s, d, b, c, blocks) == Steps(base, s, d, b, c, Sizes(blocks))
    decreases |blocks|
  {
    hide Steps;
    if blocks == [] {
      StepsNone(base, s, d, b, c);
    } else {
      var k := |blocks| - 1;
      var from, upTo := Sizes(blocks[..k]), Sizes(blocks);
      BlocksAreSteps(base, s, d, b, c, blocks[..k]);
      StepsJoin(base, s, d, b, c, from, blocks[k]);
      StepsFront(base, s[from..], d[from..], b, Steps(base, s, d, b, c, from).carry, blocks[k], blocks[k]);
      assert s[from..][..blocks[k]] == s[from..upTo] && d[from..][..blocks[k]] == d[from..upTo];
    }
  }

  lemma StepsNone(base: nat, s: seq<nat>, d: seq<nat>, b: nat, c: nat)
    requires base > 0
    ensures Steps(base, s, d, b, c, 0) == Run([], c)
  {
  }

  /** So any core that leaves what single steps leave on its own block adds the product over the whole
      vector. */
  lemma BlocksAddProduct(base: nat, s: seq<nat>, d: seq<nat>, b: nat, c: nat, blocks: seq<nat>)
    requires Sizes(blocks) <= |s| && Sizes(blocks) <= |d| && Limbs(base, s) && Limbs(base, d) && b < base && c < base
    ensures var n, r := Sizes(blocks), InBlocks(base, s, d, b, c, blocks);
            && Limbs(base, r.limbs) && r.carry < base
            && Value(base, r.limbs) + Times(r.carry, Power(base, n))
               == Value(base, d[..n]) + Times(Value(base, s[..n]), b) + c
  {
    hide Steps, Value, Times, Power, Step;
    BlocksAreSteps(base, s, d, b, c, blocks);
    StepsInRange(base, s, d, b, c, Sizes(blocks));
    StepsAddProduct(base, s, d, b, c, Sizes(blocks));
  }

  lemma NoLimbs(base: nat)
    ensures Value(base, []) == 0 && Power(base, 0) == 1
  {
  }

  lemma PowerNext(base: nat, n: nat)
    requires n > 0
    ensures Power(base, n) == Times(Power(base, n - 1), base)
  {
  }

  lemma UnitTimes(c: nat, b: nat)
    ensures Times(c, 1) == c && Times(0, b) == 0
  {
  }

  /** The destination after a run over its first limbs: these are the steps' limbs, the rest is untouched. */
  ghost predicate Accumulated(base: nat, s: seq<nat>, was: seq<nat>, now: seq<nat>, b: nat, c: nat, n: nat, carry: nat)
    requires base > 0 && n <= |s| && n <= |was|
  {
    && |now| == |was| && carry == Steps(base, s, was, b, c, n).carry
    && (forall i | 0 <= i < n :: now[i] == Steps(base, s, was, b, c, n).limbs[i])
    && (forall i | n <= i < |was| :: now[i] == was[i])
  }

  lemma AccumulateStep(base: nat, s: seq<nat>, was: seq<nat>, now: seq<nat>, b: nat, c: nat, n: nat, carry: nat, o: Out)
    requires base > 0 && n < |s| && n < |was| && Accumulated(base, s, was, now, b, c, n, carry)
    requires o == Step(base, s[n], b, carry, was[n])
    ensures now[n] == was[n] && Accumulated(base, s, was, now[n := o.limb], b, c, n + 1, o.carry)
  {
    hide Step;
  }

  lemma AccumulatedMeans(base: nat, s: seq<nat>, was: seq<nat>, now: seq<nat>, b: nat, c: nat, n: nat, carry: nat)
    requires n <= |s| && n <= |was| && Limbs(base, s) && Limbs(base, was) && b < base && c < base
    requires Accumulated(base, s, was, now, b, c, n, carry)
    ensures Limbs(base, now) && carry < base
    ensures Value(base, now[..n]) + Times(carry, Power(base, n))
      == Value(base, was[..n]) + Times(Value(base, s[..n]), b) + c
  {
    hide Steps, Value, Power, Times;
    StepsInRange(base, s, was, b, c, n);
    StepsAddProduct(base, s, was, b, c, n);
    assert now[..n] == Steps(base, s, was, b, c, n).limbs;
  }

  /** The portable loop with double-width products, over `n` limbs of two arrays. */
  method LongVector(base: nat, s: array<nat>, d: array<nat>, n: nat, b: nat, c: nat) returns (carry: nat)
    requires s != d && n <= s.Length && n <= d.Length && Limbs(base, s[..]) && Limbs(base, d[..]) && b < base
    requires c < base
    modifies d
    ensures base > 0 && Accumulated(base, s[..], old(d[..]), d[..], b, c, n, carry)
    ensures Limbs(base, d[..]) && carry < base
    ensures Value(base, d[..n]) + Times(carry, Power(base, n))
      == Value(base, old(d[..n])) + Times(Value(base, s[..n]), b) + c
  {
    hide Step, Accumulated, Value, Power, Times;
    ghost var was := d[..];
    carry := c;
    AccumulateNothing(base, s[..], was, b, c);
    for i := 0 to n
      invariant Accumulated(base, s[..], was, d[..], b, c, i, carry) && d.Length == |was|
      invariant Limbs(base, d[..]) && carry < base
    {
      ghost var now, carried := d[..], carry;
      var limb;
      limb, carry := LongCore(base, s[i], b, carry, d[i]);
      AccumulatedThere(base, s[..], was, now, b, c, i, carried);
      AccumulateStep(base, s[..], was, now, b, c, i, carried, Out(limb, carry));
      d[i] := limb;
      assert d[..] == now[i := limb];
      AccumulatedMeans(base, s[..], was, d[..], b, c, i + 1, carry);
    }
    AccumulatedMeans(base, s[..], was, d[..], b, c, n, carry);
    assert d[..][..n] == d[..n] && was[..n] == old(d[..n]) && s[..][..n] == s[..n];
  }

  lemma AccumulateNothing(base: nat, s: seq<nat>, was: seq<nat>, b: nat, c: nat)
    requires base > 0
    ensures Accumulated(base, s, was, was, b, c, 0, c)
  {
  }

  lemma AccumulatedThere(base: nat, s: seq<nat>, was: seq<nat>, now: seq<nat>, b: nat, c: nat, n: nat, carry: nat)
    requires base > 0 && n < |s| && n < |was| && Accumulated(base, s, was, now, b, c, n, carry)
    ensures |now| == |was| && now[n] == was[n]
  {
  }
}
