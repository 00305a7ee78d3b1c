/** The chained hash tables that hold a template's field and section names. A lookup compares only
    as many bytes as the name asked for has, so it also hits any longer name of the same bucket. */
module Chains {
  import opened ByteStrings

  const BUCKETS: nat := 29
  const WORD: nat := 0x1_0000_0000
  const TOP: nat := 0x1000_0000

  /** A name the C string functions read back as it was stored. */
  predicate GoodName(name: Bytes) {
    name != [] && '\0' !in name
  }

  function Bit(x: nat, weight: nat): nat
    requires weight != 0
  {
    (x / weight) % 2
  }

  function XorNibble(x: nat, y: nat): nat {
    (Bit(x, 1) + Bit(y, 1)) % 2 + 2 * ((Bit(x, 2) + Bit(y, 2)) % 2)
    + 4 * ((Bit(x, 4) + Bit(y, 4)) % 2) + 8 * ((Bit(x, 8) + Bit(y, 8)) % 2)
  }

  /** A signed `char` converted to a 32-bit unsigned word. */
  function Word(c: Byte): nat {
    if c as int < 128 then c as int else WORD + c as int - 256
  }

  /** One round: shift left by 5 and add, then fold the top nibble into bits 4 to 7 and clear it. */
  function Mix(h: nat, c: Byte): nat {
    var shifted := (h * 32 + Word(c)) % WORD;
    var top := shifted / TOP;
    if top == 0 then shifted
    else (shifted / 256) % 0x10_0000 * 256 + XorNibble((shifted / 16) % 16, top) * 16 + shifted % 16
  }

  function Fold(h: nat, rest: Bytes): nat
    decreases |rest|
  {
    if rest == [] || rest[0] == '\0' then h else Fold(Mix(h, rest[0]), rest[1..])
  }

  /** `tpl_hash`; an empty name is outside what the code supports. */
  function Bucket(name: Bytes): (b: nat)
    ensures b < BUCKETS
  {
    if name == [] then 0 else Fold(Word(name[0]), name[1..]) % BUCKETS
  }

  function Pow2(k: nat): (w: nat)
    ensures w > 0
  {
    if k == 0 then 1 else 2 * Pow2(k - 1)
  }

  lemma PartsHalved(high: nat, low: nat, half: nat)
    ensures (high * (2 * half) + low) / 2 == high * half + low / 2
    ensures Bit(high * (2 * half) + low, 1) == Bit(low, 1)
  {
    assert high * (2 * half) == 2 * (high * half);
  }

  /** Cutting a number in two at a place does not change the bits of either part. */
  lemma {:induction false} BitOfParts(high: nat, low: nat, n: nat, k: nat)
    requires low < Pow2(n)
    ensures Bit(high * Pow2(n) + low, Pow2(k)) == if k < n then Bit(low, Pow2(k)) else Bit(high, Pow2(k - n))
    decreases n
  {
    hide Bit;
    if n == 0 {
      assert high * Pow2(n) + low == high;
    } else {
      PartsHalved(high, low, Pow2(n - 1));
      if k == 0 {
        assert Pow2(k) == 1;
      } else {
        HalfBit(high * Pow2(n) + low, k);
        BitOfParts(high, low / 2, n - 1, k - 1);
        HalfBit(low, k);
      }
    }
  }

  lemma HalfBit(x: nat, k: nat)
    requires k > 0
    ensures Bit(x, Pow2(k)) == Bit(x / 2, Pow2(k - 1))
  {
    var w := Pow2(k - 1);
    var q, r := x / (2 * w), x % (2 * w);
    assert x == 2 * w * q + r;
    assert x / 2 == w * q + r / 2 by {
      assert 2 * w * q == 2 * (w * q);
    }
    assert r / 2 < w;
    DivisionIs(w, q, r / 2);
  }

  lemma DivisionIs(base: nat, q: nat, r: nat)
    requires r < base
    ensures (base * q + r) / base == q
  {
    var t := base * q + r;
    var p := t / base;
    assert t == base * p + t % base;
    if p < q {
      Monotone(base, p + 1, q);
    } else if q < p {
      Monotone(base, q + 1, p);
    }
  }

  lemma Monotone(b: nat, x: nat, y: nat)
    requires x <= y
    ensures b * x <= b * y
  {
  }

  /** The bits of a nibble are those of the two, added without carry. */
  lemma XorBits(x: nat, y: nat, k: nat)
    requires x < 16 && y < 16 && k < 4
    ensures XorNibble(x, y) < 16
    ensures Bit(XorNibble(x, y), Pow2(k)) == (Bit(x, Pow2(k)) + Bit(y, Pow2(k))) % 2
  {
    SmallPowers();
    hide Pow2;
    var n := XorNibble(x, y);
    var b0, b1 := (Bit(x, 1) + Bit(y, 1)) % 2, (Bit(x, 2) + Bit(y, 2)) % 2;
    var b2, b3 := (Bit(x, 4) + Bit(y, 4)) % 2, (Bit(x, 8) + Bit(y, 8)) % 2;
    hide Bit;
    assert n == b0 + 2 * b1 + 4 * b2 + 8 * b3;
    assert Bit(n, 1) == b0 && Bit(n, 2) == b1 && Bit(n, 4) == b2 && Bit(n, 8) == b3 by {
      NibbleBits(b0, b1, b2, b3);
    }
    assert k == 0 || k == 1 || k == 2 || k == 3;
  }

  lemma NibbleBits(b0: nat, b1: nat, b2: nat, b3: nat)
    requires b0 < 2 && b1 < 2 && b2 < 2 && b3 < 2
    ensures var n := b0 + 2 * b1 + 4 * b2 + 8 * b3;
            Bit(n, 1) == b0 && Bit(n, 2) == b1 && Bit(n, 4) == b2 && Bit(n, 8) == b3
  {
  }

  lemma SmallPowers()
    ensures Pow2(0) == 1 && Pow2(1) == 2 && Pow2(2) == 4 && Pow2(3) == 8 && Pow2(4) == 16 && Pow2(7) == 128
    ensures Pow2(8) == 256
  {
    assert Pow2(3) == 8 && Pow2(5) == 32 && Pow2(7) == 128;
  }

  lemma LargePowers()
    ensures Pow2(20) == 0x10_0000 && Pow2(24) == 0x100_0000 && Pow2(28) == TOP
  {
    SmallPowers();
    assert Pow2(10) == 1024 && Pow2(12) == 4096 && Pow2(14) == 0x4000 && Pow2(16) == 0x1_0000 && Pow2(18) == 0x4_0000;
    assert Pow2(22) == 0x40_0000 && Pow2(26) == 0x400_0000;
  }

  /** The word that a round starts from: five places up, and the character added, in 32 bits. */
  function Shifted(h: nat, c: Byte): nat {
    (h * 32 + Word(c)) % WORD
  }

  /** The parts of the word that a round leaves: bits 8 to 27, bits 4 to 7, and bits 0 to 3. */
  lemma MixParts(h: nat, c: Byte)
    ensures var x := Shifted(h, c);
            var top, high, mid, low := x / TOP, (x / 256) % 0x10_0000, (x / 16) % 16, x % 16;
            && top < 16 && x / 256 == top * 0x10_0000 + high && x == top * TOP + x % TOP
            && x == (x / 256) * 256 + (mid * 16 + low)
            && Mix(h, c) == if top == 0 then x else high * 256 + (XorNibble(mid, top) * 16 + low)
  {
    hide XorNibble, Word;
  }

  /** What a round does to the bits: bits 28 to 31 are added, without carry, to bits 4 to 7 and then cleared;
      every other bit stays. */
  lemma MixBits(h: nat, c: Byte, k: nat)
    requires k < 28
    ensures Mix(h, c) < TOP
    ensures Bit(Mix(h, c), Pow2(k))
      == (Bit(Shifted(h, c), Pow2(k)) + if 4 <= k < 8 then Bit(Shifted(h, c), Pow2(k + 24)) else 0) % 2
  {
    MixParts(h, c);
    LargePowers();
    hide Pow2, Mix, XorNibble, Shifted, Bit;
    var x := Shifted(h, c);
    var top, high, mid, low := x / TOP, (x / 256) % 0x10_0000, (x / 16) % 16, x % 16;
    XorBits(mid, top, if 4 <= k < 8 then k - 4 else 0);
    PartBits(x / 256, mid, low, k);
    TopBits(top, high, x % TOP, k);
    BitIsBit(x, k);
    if top == 0 {
      NoBits(k - 4);
    } else {
      PartBits(high, XorNibble(mid, top), low, k);
      BitIsBit(high, if 8 <= k then k - 8 else 0);
      BitIsBit(low, k);
    }
  }

  lemma TopBits(top: nat, high: nat, rest: nat, k: nat)
    requires high < 0x10_0000 && rest < TOP && k < 28
    ensures 4 <= k ==> Bit(top * TOP + rest, Pow2(k + 24)) == Bit(top, Pow2(k - 4))
    ensures 8 <= k ==> Bit(top * 0x10_0000 + high, Pow2(k - 8)) == Bit(high, Pow2(k - 8))
  {
    LargePowers();
    hide Bit, Pow2;
    BitOfParts(top, rest, 28, k + 24);
    if 8 <= k {
      BitOfParts(top, high, 20, k - 8);
    }
  }

  lemma NoBits(k: int)
    ensures 0 <= k ==> Bit(0, Pow2(k)) == 0
  {
  }

  lemma BitIsBit(x: nat, k: nat)
    ensures Bit(x, Pow2(k)) < 2
  {
  }

  /** A number in three parts: four bits, four more, and the rest */
  lemma PartBits(high: nat, mid: nat, low: nat, k: nat)
    requires mid < 16 && low < 16
    ensures Bit(high * 256 + (mid * 16 + low), Pow2(k))
      == if k < 4 then Bit(low, Pow2(k)) else if k < 8 then Bit(mid, Pow2(k - 4)) else Bit(high, Pow2(k - 8))
  {
    SmallPowers();
    BitOfParts(high, mid * 16 + low, 8, k);
    BitOfParts(mid, low, 4, k);
  }

  /** A character is extended by its sign: bits 7 to 31 of the word are all bit 7 of the byte. */
  lemma WordBits(c: Byte, k: nat)
    requires k < 32
    ensures Word(c) < WORD
    ensures Bit(Word(c), Pow2(k)) == Bit(c as nat, Pow2(if k < 7 then k else 7))
  {
    SmallPowers();
    LargePowers();
    hide Pow2;
    var b, high := c as nat, if c as int < 128 then 0 else 0xFF_FFFF;
    assert Word(c) == high * 256 + b;
    BitOfParts(high, b, 8, k);
    if 8 <= k {
      if high == 0 {
        NoBits(k - 8);
      } else {
        AllOnes(24, k - 8);
      }
    }
  }

  lemma {:induction false} AllOnes(n: nat, k: nat)
    requires k < n
    ensures Bit(Pow2(n) - 1, Pow2(k)) == 1
  {
    hide Bit;
    assert Pow2(n) == 2 * Pow2(n - 1);
    OddHalf(Pow2(n - 1));
    if k == 0 {
      assert Pow2(k) == 1;
    } else {
      HalfBit(Pow2(n) - 1, k);
      AllOnes(n - 1, k - 1);
    }
  }

  lemma OddHalf(p: nat)
    requires p > 0
    ensures Bit(2 * p - 1, 1) == 1 && (2 * p - 1) / 2 == p - 1
  {
  }

  lemma MixPlain(h: nat, c: Byte)
    requires h * 32 + Word(c) < TOP
    ensures Mix(h, c) == h * 32 + Word(c)
  {
    hide XorNibble, Word;
  }

  lemma MixFolded(h: nat, c: Byte, top: nat, high: nat, mid: nat, low: nat)
    requires 0 < top < 16 && high < 0x10_0000 && mid < 16 && low < 16
    requires Shifted(h, c) == top * TOP + high * 256 + mid * 16 + low
    ensures Mix(h, c) == high * 256 + XorNibble(mid, top) * 16 + low
  {
    MixParts(h, c);
    hide XorNibble, Word, Mix, Shifted;
    var x := Shifted(h, c);
    assert x / TOP == top && x / 256 == top * 0x10_0000 + high;
    assert x / 16 == (x / 256) * 16 + mid;
  }

  /** Two names of one bucket, were it not for the folding */
  lemma CounterBuckets()
    ensures Bucket("counter") == 25 && Bucket("count") == 16
  {
    assert "counter"[1..] == "ount" + "er" && "count"[1..] == "ount" + "";
    FoldCount("er");
    FoldCount("");
    FoldEr();
    hide Mix;
  }

  lemma FoldEr()
    ensures Fold(107569716, "er") == 92849586 && Fold(107569716, "") == 107569716
  {
    MixExamples();
    hide Mix;
    assert "er"[1..] == "r" && "r"[1..] == "";
    assert Fold(221005349, "r") == Fold(92849586, "") == 92849586;
  }

  lemma MixExamples()
    ensures Mix(107569716, 'e') == 221005349 && Mix(221005349, 'r') == 92849586
  {
    NibbleExamples();
    ShiftExamples();
    hide Mix, XorNibble, Shifted;
    MixFolded(107569716, 'e', 12, 863302, 14, 5);
    MixFolded(221005349, 'r', 10, 362693, 1, 2);
  }

  lemma NibbleExamples()
    ensures XorNibble(14, 12) == 2 && XorNibble(1, 10) == 11
  {
    hide Bit;
    NibbleBits(0, 1, 1, 1);
    NibbleBits(0, 0, 1, 1);
    NibbleBits(1, 0, 0, 0);
    NibbleBits(0, 1, 0, 1);
  }

  lemma ShiftExamples()
    ensures Shifted(107569716, 'e') == 3442231013 && Shifted(221005349, 'r') == 2777203986
  {
    assert Word('e') == 101 && Word('r') == 114;
    hide Word;
    assert 221005349 * 32 + 114 == WORD + 2777203986;
  }

  lemma FoldCount(rest: Bytes)
    ensures Fold(Word('c'), "ount" + rest) == Fold(107569716, rest)
  {
    var s: Bytes := "ount" + rest;
    assert s[1..] == "unt" + rest && ("unt" + rest)[1..] == "nt" + rest && ("nt" + rest)[1..] == "t" + rest;
    assert ("t" + rest)[1..] == rest;
    MixPlain(99, 'o');
    MixPlain(3279, 'u');
    MixPlain(105045, 'n');
    MixPlain(3361550, 't');
    hide Mix;
    assert Fold(99, s) == Fold(3279, "unt" + rest);
    assert Fold(3279, "unt" + rest) == Fold(105045, "nt" + rest);
    assert Fold(105045, "nt" + rest) == Fold(3361550, "t" + rest);
  }

  /** Names are C strings: what is behind a null byte has no part in the bucket. */
  lemma {:induction false} FoldStopsAtNull(h: nat, name: Bytes, behind: Bytes)
    ensures Fold(h, name + "\0" + behind) == Fold(h, name)
    decreases |name|
  {
    hide Mix;
    var whole := name + "\0" + behind;
    if name == [] {
      assert whole[0] == '\0';
    } else {
      assert whole[0] == name[0] && whole[1..] == name[1..] + "\0" + behind;
      FoldStopsAtNull(Mix(h, name[0]), name[1..], behind);
    }
  }

  /** `tpl_hash` */
  method Hash(key: Bytes) returns (b: nat)
    requires key != []
    ensures b == Bucket(key) && b < BUCKETS
    ensures forall behind: Bytes :: b == Bucket(key + "\0" + behind)
  {
    hide Mix;
    var h: nat, at: nat := Word(key[0]), 1;
    while at != |key| && key[at] != '\0'
      invariant 1 <= at <= |key| && Fold(h, key[at..]) == Fold(Word(key[0]), key[1..])
      decreases |key| - at
    {
      assert key[at..][0] == key[at] && key[at..][1..] == key[at + 1..];
      h := Mix(h, key[at]);
      at := at + 1;
    }
    b := h % BUCKETS;
    forall behind: Bytes ensures b == Bucket(key + "\0" + behind) {
      assert (key + "\0" + behind)[1..] == key[1..] + "\0" + behind;
      FoldStopsAtNull(Word(key[0]), key[1..], behind);
    }
  }

  /** First cell of a chain whose key agrees with `name` on `|name|` bytes. */
  function FindKey(chain: seq<Bytes>, name: Bytes): (r: Option<nat>)
    ensures r.Some? ==> r.value < |chain| && name <= chain[r.value]
    ensures r.Some? ==> forall i | 0 <= i < r.value :: !(name <= chain[i])
    ensures r == None ==> forall i | 0 <= i < |chain| :: !(name <= chain[i])
  {
    if chain == [] then None
    else if name <= chain[0] then Some(0)
    else match FindKey(chain[1..], name)
         case None => None
         case Some(i) => Some(i + 1)
  }

  /** No key is a prefix of an earlier key of its chain. */
  predicate NoPrefix(chain: seq<Bytes>) {
    forall i, j | 0 <= i < j < |chain| :: !(chain[j] <= chain[i])
  }

  /** What the invariant is for: a stored key finds its own cell, and nothing else but an
      extension is ever found. */
  lemma StoredKeyFindsItself(chain: seq<Bytes>, i: nat, name: Bytes)
    requires NoPrefix(chain) && i < |chain|
    ensures FindKey(chain, chain[i]) == Some(i)
    ensures FindKey(chain, name) == Some(i) ==> name == chain[i] || name < chain[i]
  {
  }

  type Table = t: seq<seq<Bytes>> | |t| == BUCKETS witness seq(BUCKETS, b => [])

  function Empty(): Table {
    seq(BUCKETS, b => [])
  }

  ghost predicate Sound(t: Table) {
    forall b | 0 <= b < BUCKETS :: NoPrefix(t[b]) && forall k | k in t[b] :: Bucket(k) == b
  }

  function Lookup(t: Table, name: Bytes): Option<nat> {
    FindKey(t[Bucket(name)], name)
  }

  /** `tpl_produce_field` with `may_create` set, on names. */
  function Put(t: Table, name: Bytes): Table {
    var b := Bucket(name);
    if Lookup(t, name).Some? then t else t[b := t[b] + [name]]
  }

  lemma PutKeepsSound(t: Table, name: Bytes)
    requires Sound(t)
    ensures Sound(Put(t, name))
  {
  }

  /** The key of the cell a name is attached to. */
  function Resolve(t: Table, name: Bytes): (key: Bytes)
    ensures name <= key
  {
    match Lookup(t, name)
    case None => name
    case Some(i) => t[Bucket(name)][i]
  }

  function TableOf(names: seq<Bytes>): Table {
    if names == [] then Empty() else Put(TableOf(names[..|names| - 1]), names[|names| - 1])
  }

  lemma {:induction false} TableOfIsSound(names: seq<Bytes>)
    ensures Sound(TableOf(names))
  {
    if names != [] {
      TableOfIsSound(names[..|names| - 1]);
      PutKeepsSound(TableOf(names[..|names| - 1]), names[|names| - 1]);
    }
  }

  predicate Hits(name: Bytes, stored: Bytes) {
    Bucket(stored) == Bucket(name) && name <= stored
  }

  lemma LookupAfterPut(t: Table, last: Bytes, name: Bytes)
    ensures Lookup(t, name).Some? ==>
      Lookup(Put(t, last), name) == Lookup(t, name) && Resolve(Put(t, last), name) == Resolve(t, name)
    ensures Lookup(t, name) == None && Hits(name, last) ==>
      Lookup(Put(t, last), name).Some? && Resolve(Put(t, last), name) == last
    ensures Lookup(t, name) == None && !Hits(name, last) ==> Lookup(Put(t, last), name) == None
  {
    var chain := t[Bucket(name)];
    assert name <= last ==> forall i | 0 <= i < |chain| && last <= chain[i] :: name <= chain[i];
    if Bucket(last) == Bucket(name) && Lookup(t, last) == None {
      assert Put(t, last)[Bucket(name)] == chain + [last];
      assert (chain + [last])[|chain|] == last;
    }
  }

  /** A lookup finds the earliest of the names put so far that extends the one asked for. */
  lemma {:induction false} FirstHit(names: seq<Bytes>, name: Bytes) returns (i: nat)
    ensures i <= |names|
    ensures forall k | 0 <= k < i :: !Hits(name, names[k])
    ensures i < |names| ==>
      Hits(name, names[i]) && Lookup(TableOf(names), name).Some? && Resolve(TableOf(names), name) == names[i]
    ensures i == |names| ==> Lookup(TableOf(names), name) == None
  {
    hide Bucket, FindKey, Put, Resolve, Hits;
    if names == [] {
      i := 0;
    } else {
      var front, last := names[..|names| - 1], names[|names| - 1];
      i := FirstHit(front, name);
      LookupAfterPut(TableOf(front), last, name);
      if i == |front| && !Hits(name, last) {
        i := |names|;
      }
    }
  }

  ghost predicate ShadowedAt(names: seq<Bytes>, j: nat)
    requires j < |names|
  {
    exists i | 0 <= i < j ::
      Hits(names[j], names[i]) && names[i] != names[j] && names[j] !in names[..i]
  }

  /** The exact condition under which prefix matching does no harm to a name. */
  lemma ExactIffNotShadowed(names: seq<Bytes>, j: nat)
    requires j < |names|
    ensures Resolve(TableOf(names[..j]), names[j]) == names[j] <==> !ShadowedAt(names, j)
  {
    var i := FirstHit(names[..j], names[j]);
    if i < j {
      if names[i] == names[j] {
        assert forall k | i < k < j :: names[j] in names[..k];
      } else {
        assert names[j] !in names[..i] by {
          if names[j] in names[..i] {
            var k :| 0 <= k < i && names[k] == names[j];
            assert Hits(names[j], names[k]);
          }
        }
      }
    }
  }

  /** Storing a resolved name builds the same table, and finds itself. */
  lemma PutResolved(t: Table, name: Bytes)
    requires Sound(t)
    ensures Put(t, Resolve(t, name)) == Put(t, name)
    ensures Resolve(t, Resolve(t, name)) == Resolve(t, name)
  {
    match Lookup(t, name) {
      case None =>
      case Some(i) =>
        assert t[Bucket(name)][i] in t[Bucket(name)];
        StoredKeyFindsItself(t[Bucket(name)], i, name);
    }
  }
}
