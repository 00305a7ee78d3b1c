/** Counting the characters of a UTF-8 text that are in a list of three-byte words. */
module Utf8Count {
  import opened ByteStrings

  type Octet = x: nat | x < 256

  /** What four bytes can express at most. */
  type Scalar = c: nat | c < 0x20_0000

  /** `utf8_len`: what the first byte of a character tells about its length. */
  function Utf8Len(first: Octet): nat {
    if first <= 0x7F then 1
    else if first / 16 == 0xF then 4
    else if first / 32 == 0x7 then 3
    else if first / 64 == 0x3 then 2
    else 5
  }

  // ---- UTF-8, after section 4 of RFC 3629

  predicate Tail(b: Octet) {
    0x80 <= b <= 0xBF
  }

  /** The length of the character at the front, if there is a well-formed one. */
  function Front(s: seq<Octet>): (n: nat)
    ensures n <= |s| && n <= 4
  {
    if |s| >= 1 && s[0] <= 0x7F then 1
    else if |s| >= 2 && 0xC2 <= s[0] <= 0xDF && Tail(s[1]) then 2
    else if |s| >= 3 && 0xE0 <= s[0] <= 0xEF && Tail(s[1]) && Tail(s[2])
            && (s[0] == 0xE0 ==> 0xA0 <= s[1]) && (s[0] == 0xED ==> s[1] <= 0x9F) then 3
    else if |s| >= 4 && 0xF0 <= s[0] <= 0xF4 && Tail(s[1]) && Tail(s[2]) && Tail(s[3])
            && (s[0] == 0xF0 ==> 0x90 <= s[1]) && (s[0] == 0xF4 ==> s[1] <= 0x8F) then 4
    else 0
  }

  /** The number of the character at the front. */
  function CodePoint(s: seq<Octet>): Scalar
    requires Front(s) > 0
  {
    match Front(s)
    case 1 => s[0]
    case 2 => (s[0] as nat - 0xC0) * 0x40 + (s[1] as nat - 0x80)
    case 3 => (s[0] as nat - 0xE0) * 0x1000 + (s[1] as nat - 0x80) * 0x40 + (s[2] as nat - 0x80)
    case _ =>
      (s[0] as nat - 0xF0) * 0x4_0000 + (s[1] as nat - 0x80) * 0x1000 + (s[2] as nat - 0x80) * 0x40
      + (s[3] as nat - 0x80)
  }

  function Decode(s: seq<Octet>): Option<seq<Scalar>> {
    if s == [] then Some([])
    else if Front(s) == 0 then None
    else match Decode(s[Front(s)..])
         case None => None
         case Some(rest) => Some([CodePoint(s)] + rest)
  }

  /** Section 3 of RFC 3629 */
  function Encode(c: Scalar): seq<Octet>
  {
    if c < 0x80 then [c]
    else if c < 0x800 then [0xC0 + (c as nat) / 0x40, 0x80 + c % 0x40]
    else if c < 0x1_0000 then [0xE0 + c / 0x1000, 0x80 + c / 0x40 % 0x40, 0x80 + c % 0x40]
    else [0xF0 + c / 0x4_0000, 0x80 + c / 0x1000 % 0x40, 0x80 + c / 0x40 % 0x40, 0x80 + c % 0x40]
  }

  /** Each well-formed character is the encoding of its number. */
  lemma EncodeCodePoint(s: seq<Octet>)
    requires Front(s) > 0
    ensures CodePoint(s) < 0x11_0000 && Encode(CodePoint(s)) == s[..Front(s)]
  {
    hide Encode, CodePoint;
    match Front(s) {
      case 1 => EncodeOne(s);
      case 2 => EncodeTwo(s);
      case 3 => EncodeThree(s);
      case _ => EncodeFour(s);
    }
  }

  lemma EncodeOne(s: seq<Octet>)
    requires Front(s) == 1
    ensures CodePoint(s) < 0x80 && Encode(CodePoint(s)) == s[..1]
  {
  }

  lemma EncodeTwo(s: seq<Octet>)
    requires Front(s) == 2
    ensures CodePoint(s) < 0x800 && Encode(CodePoint(s)) == s[..2]
  {
    Digits(s[0] as nat - 0xC0, s[1] as nat - 0x80);
  }

  lemma EncodeThree(s: seq<Octet>)
    requires Front(s) == 3
    ensures CodePoint(s) < 0x1_0000 && Encode(CodePoint(s)) == s[..3]
  {
    Digits((s[0] as nat - 0xE0) * 0x40 + (s[1] as nat - 0x80), s[2] as nat - 0x80);
    Digits(s[0] as nat - 0xE0, s[1] as nat - 0x80);
  }

  lemma EncodeFour(s: seq<Octet>)
    requires Front(s) == 4
    ensures CodePoint(s) < 0x11_0000 && Encode(CodePoint(s)) == s[..4]
  {
    Digits(((s[0] as nat - 0xF0) * 0x40 + (s[1] as nat - 0x80)) * 0x40 + (s[2] as nat - 0x80), s[3] as nat - 0x80);
    Digits((s[0] as nat - 0xF0) * 0x40 + (s[1] as nat - 0x80), s[2] as nat - 0x80);
    Digits(s[0] as nat - 0xF0, s[1] as nat - 0x80);
  }

  lemma Digits(high: nat, low: nat)
    requires low < 0x40
    ensures (high * 0x40 + low) / 0x40 == high && (high * 0x40 + low) % 0x40 == low
  {
  }

  function EncodeAll(cs: seq<Scalar>): seq<Octet>
  {
    if cs == [] then [] else Encode(cs[0]) + EncodeAll(cs[1..])
  }

  /** The decoder is right: what it yields encodes to the text again. */
  lemma {:induction false} EncodeDecoded(s: seq<Octet>)
    requires Decode(s).Some?
    ensures EncodeAll(Decode(s).value) == s
    decreases |s|
  {
    hide Encode, CodePoint, Front;
    if s != [] {
      var n := Front(s);
      EncodeCodePoint(s);
      EncodeDecoded(s[n..]);
      assert Decode(s).value[1..] == Decode(s[n..]).value;
      assert s == s[..n] + s[n..];
    }
  }

  /** A character's number: not beyond the last plane and not a surrogate. */
  predicate Valid(c: nat) {
    c < 0x11_0000 && !(0xD800 <= c <= 0xDFFF)
  }

  lemma CodePointValid(s: seq<Octet>)
    requires Front(s) > 0
    ensures Valid(CodePoint(s))
  {
  }

  /** Read back from the front of a text, a valid character is what was encoded. */
  lemma FrontOfEncoded(c: Scalar, rest: seq<Octet>)
    requires Valid(c)
    ensures Front(Encode(c) + rest) == |Encode(c)| > 0 && CodePoint(Encode(c) + rest) == c
  {
    var n: nat := c;
    Parts(n);
    Parts(n / 0x40);
    Parts(n / 0x1000);
    assert n / 0x40 / 0x40 == n / 0x1000 && n / 0x1000 / 0x40 == n / 0x4_0000;
  }

  lemma Parts(n: nat)
    ensures n == n / 0x40 * 0x40 + n % 0x40 && n % 0x40 < 0x40
  {
  }

  /** Every sequence of valid characters is what its encoding decodes to. */
  lemma {:induction false} DecodeEncoded(cs: seq<Scalar>)
    requires forall c | c in cs :: Valid(c)
    ensures Decode(EncodeAll(cs)) == Some(cs)
  {
    hide Encode, CodePoint, Front, Valid;
    if cs != [] {
      DecodeEncoded(cs[1..]);
      FrontOfEncoded(cs[0], EncodeAll(cs[1..]));
      assert EncodeAll(cs)[|Encode(cs[0])|..] == EncodeAll(cs[1..]);
      assert [cs[0]] + cs[1..] == cs;
    }
  }

  lemma {:induction false} DecodedValid(s: seq<Octet>)
    requires Decode(s).Some?
    ensures forall c | c in Decode(s).value :: Valid(c)
    decreases |s|
  {
    hide CodePoint, Front, Valid;
    if s != [] {
      CodePointValid(s);
      DecodedValid(s[Front(s)..]);
    }
  }

  /** A text is well-formed UTF-8 exactly if it is the encoding of some valid characters. */
  lemma WellFormedIff(s: seq<Octet>)
    ensures Decode(s).Some? <==> exists cs: seq<Scalar> :: EncodeAll(cs) == s && forall c | c in cs :: Valid(c)
  {
    if Decode(s).Some? {
      EncodeDecoded(s);
      DecodedValid(s);
    }
    forall cs: seq<Scalar> | EncodeAll(cs) == s && forall c | c in cs :: Valid(c) ensures Decode(s) == Some(cs) {
      DecodeEncoded(cs);
    }
  }

  /** The first example of section 7 of RFC 3629, and a character of four bytes from the last */
  lemma Examples()
    ensures Decode([0x41, 0xE2, 0x89, 0xA2, 0xCE, 0x91, 0x2E]) == Some([0x41, 0x2262, 0x391, 0x2E])
    ensures Decode([0xF0, 0xA3, 0x8E, 0xB4]) == Some([0x2_33B4])
  {
    assert Encode(0x41) == [0x41] && Encode(0x2262) == [0xE2, 0x89, 0xA2] && Encode(0x391) == [0xCE, 0x91];
    assert Encode(0x2E) == [0x2E] && Encode(0x2_33B4) == [0xF0, 0xA3, 0x8E, 0xB4];
    hide Encode, Decode;
    var cs: seq<Scalar>, last: seq<Scalar> := [0x41, 0x2262, 0x391, 0x2E], [0x2_33B4];
    assert cs[1..] == [0x2262, 0x391, 0x2E] && cs[1..][1..] == [0x391, 0x2E] && cs[1..][1..][1..] == [0x2E];
    assert cs[1..][1..][1..][1..] == [] && last[1..] == [];
    assert EncodeAll([0x2E]) == [0x2E];
    assert EncodeAll([0x391, 0x2E]) == [0xCE, 0x91] + [0x2E];
    assert EncodeAll([0x2262, 0x391, 0x2E]) == [0xE2, 0x89, 0xA2] + ([0xCE, 0x91] + [0x2E]);
    assert EncodeAll(cs) == [0x41, 0xE2, 0x89, 0xA2, 0xCE, 0x91, 0x2E];
    assert EncodeAll(last) == [0xF0, 0xA3, 0x8E, 0xB4];
    DecodeEncoded(cs);
    DecodeEncoded(last);
  }

  // ---- The list of words

  function Word(w: seq<Octet>): nat
    requires |w| == 3
  {
    w[0] as nat * 0x1_0000 + w[1] as nat * 0x100 + w[2] as nat
  }

  /** The `k`-th word of a flat list. */
  function WordAt(list: seq<Octet>, k: nat): nat
    requires 3 * k + 3 <= |list|
  {
    Word(list[3 * k..3 * k + 3])
  }

  predicate Sorted(list: seq<Octet>) {
    |list| % 3 == 0 && forall j, k | 0 <= j < k < |list| / 3 :: WordAt(list, j) < WordAt(list, k)
  }

  ghost predicate Listed(list: seq<Octet>, w: nat)
    requires Sorted(list)
  {
    exists k | 0 <= k < |list| / 3 :: WordAt(list, k) == w
  }

  /** Words of three bytes have different numbers. */
  lemma WordIsWord(v: seq<Octet>, w: seq<Octet>)
    requires |v| == |w| == 3
    ensures Word(v) == Word(w) <==> v == w
  {
    if Word(v) == Word(w) {
      assert v[0] == w[0] && v[1] == w[1] && v[2] == w[2];
    }
  }

  /** So a word is listed exactly if its bytes stand in the list, at a place where a word begins. */
  lemma ListedIff(list: seq<Octet>, w: seq<Octet>)
    requires Sorted(list) && |w| == 3
    ensures Listed(list, Word(w)) <==> exists k: nat :: 3 * k + 3 <= |list| && list[3 * k..3 * k + 3] == w
  {
    forall k: nat | 3 * k + 3 <= |list| ensures WordAt(list, k) == Word(w) <==> list[3 * k..3 * k + 3] == w {
      WordIsWord(list[3 * k..3 * k + 3], w);
    }
    if k: nat :| 3 * k + 3 <= |list| && list[3 * k..3 * k + 3] == w {
      assert k < |list| / 3 && WordAt(list, k) == Word(w);
    }
  }

  /** `chinese_word_find`: the binary search is exact. */
  method WordFind(list: array<Octet>, word: seq<Octet>) returns (found: nat)
    requires Sorted(list[..]) && |word| == 3
    ensures found == if Listed(list[..], Word(word)) then 1 else 0
    ensures found == 1 <==> exists k: nat :: 3 * k + 3 <= list.Length && list[..][3 * k..3 * k + 3] == word
  {
    hide Word;
    ListedIff(list[..], word);
    var start, end := 0, list.Length / 3 - 1;
    var wint := Word(word);
    while true
      invariant 0 <= start <= end + 1 <= list.Length / 3
      invariant forall k | 0 <= k < start :: WordAt(list[..], k) < wint
      invariant forall k | end < k < list.Length / 3 :: wint < WordAt(list[..], k)
      decreases end - start
    {
      if start > end {
        return 0;
      }
      var middle := (start + end) / 2;
      var mint := Word(list[middle * 3..middle * 3 + 3]);
      assert list[middle * 3..middle * 3 + 3] == list[..][3 * middle..3 * middle + 3];
      assert mint == WordAt(list[..], middle);
      if wint < mint {
        end := middle - 1;
      } else if mint < wint {
        start := middle + 1;
      } else {
        return 1;
      }
    }
  }

  /** The characters of a text that are in the list. */
  ghost function CountListed(list: seq<Octet>, cs: seq<Scalar>): nat
    requires Sorted(list)
  {
    if cs == [] then 0
    else (if |Encode(cs[0])| == 3 && Listed(list, Word(Encode(cs[0]))) then 1 else 0) + CountListed(list, cs[1..])
  }

  /** At a character boundary, the length the first byte tells is the character's. */
  lemma LengthIsFront(s: seq<Octet>)
    requires Front(s) > 0
    ensures Utf8Len(s[0]) == Front(s)
  {
  }

  lemma CountStep(list: seq<Octet>, s: seq<Octet>)
    requires Sorted(list) && s != [] && Decode(s).Some?
    ensures Front(s) > 0 && Decode(s[Front(s)..]).Some?
    ensures CountListed(list, Decode(s).value) ==
      (if Front(s) == 3 && Listed(list, Word(s[..3])) then 1 else 0) + CountListed(list, Decode(s[Front(s)..]).value)
  {
    EncodeCodePoint(s);
    hide Encode, CodePoint, Front, Word, Sorted, Listed;
    assert Decode(s).value[1..] == Decode(s[Front(s)..]).value;
  }

  /** Fewer than three bytes hold no character of three. */
  lemma {:induction false} ShortCount(list: seq<Octet>, s: seq<Octet>)
    requires Sorted(list) && |s| < 3 && Decode(s).Some?
    ensures CountListed(list, Decode(s).value) == 0
    decreases |s|
  {
    if s != [] {
      CountStep(list, s);
      ShortCount(list, s[Front(s)..]);
    }
  }

  /** `chinese_word_count`: on well-formed text, the number of characters that are in the list. */
  method Count(list: array<Octet>, str: array<Octet>, len: nat) returns (count: nat)
    requires Sorted(list[..]) && len <= str.Length && Decode(str[..len]).Some?
    ensures count == CountListed(list[..], Decode(str[..len]).value)
  {
    hide Sorted, Listed, Word, CodePoint, Encode, CountListed, Decode, Front;
    var i := 0;
    count := 0;
    assert str[0..len] == str[..len];
    while i + 2 < len
      invariant 0 <= i <= len && Decode(str[i..len]).Some?
      invariant count + CountListed(list[..], Decode(str[i..len]).value)
        == CountListed(list[..], Decode(str[..len]).value)
      decreases len - i
    {
      ghost var s := str[i..len];
      CountStep(list[..], s);
      LengthIsFront(s);
      var ulen := Utf8Len(str[i]);
      assert s[ulen..] == str[i + ulen..len];
      if ulen != 3 {
        i := i + ulen;
        continue;
      }
      assert s[..3] == str[i..i + 3];
      var found := WordFind(list, str[i..i + 3]);
      count := count + found;
      i := i + ulen;
    }
    ShortCount(list[..], str[i..len]);
  }
}
