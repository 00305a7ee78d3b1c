/** Byte strings, and the first-match search every parser step rests on. */
module ByteStrings {

  type Byte = c: char | c as int < 256
  type Bytes = seq<Byte>

  datatype Option<+T> = None | Some(value: T)

  predicate MatchAt(s: Bytes, i: nat, needle: Bytes) {
    i + |needle| <= |s| && s[i..i + |needle|] == needle
  }

  /** The least position at which `needle` occurs in `s`. */
  function Find(s: Bytes, needle: Bytes): (r: Option<nat>)
    ensures r.Some? ==> MatchAt(s, r.value, needle)
    ensures r.Some? ==> forall k: nat | k < r.value :: !MatchAt(s, k, needle)
    ensures r == None ==> forall k: nat :: !MatchAt(s, k, needle)
  {
    FindFrom(s, needle, 0)
  }

  function FindFrom(s: Bytes, needle: Bytes, from: nat): (r: Option<nat>)
    ensures r.Some? ==> from <= r.value && MatchAt(s, r.value, needle)
    ensures r.Some? ==> forall k: nat | from <= k < r.value :: !MatchAt(s, k, needle)
    ensures r == None ==> forall k: nat | from <= k :: !MatchAt(s, k, needle)
    decreases |s| - from
  {
    if |s| < from + |needle| then None
    else if s[from..from + |needle|] == needle then Some(from)
    else if |s| == from then None
    else FindFrom(s, needle, from + 1)
  }

  lemma FindIs(s: Bytes, needle: Bytes, i: nat)
    requires MatchAt(s, i, needle)
    requires forall k: nat | k < i :: !MatchAt(s, k, needle)
    ensures Find(s, needle) == Some(i)
  {
  }

  function Concat(parts: seq<Bytes>): Bytes {
    if parts == [] then [] else Concat(parts[..|parts| - 1]) + parts[|parts| - 1]
  }

  lemma {:induction false} ConcatAppend(a: seq<Bytes>, b: seq<Bytes>)
    ensures Concat(a + b) == Concat(a) + Concat(b)
    decreases |b|
  {
    if b == [] {
      assert a + b == a;
    } else {
      assert (a + b)[..|a + b| - 1] == a + b[..|b| - 1];
      ConcatAppend(a, b[..|b| - 1]);
    }
  }

  lemma ConcatSnoc(a: seq<Bytes>, x: Bytes)
    ensures Concat(a + [x]) == Concat(a) + x
  {
    assert (a + [x])[..|a + [x]| - 1] == a;
  }

  /** `tpl_strstr`: search `needle` in `buf[from..to]`; the result is an absolute position. */
  method StrStr(buf: Bytes, from: nat, to: nat, needle: Bytes) returns (r: Option<nat>)
    requires from <= to <= |buf| && needle != []
    ensures r == match Find(buf[from..to], needle) case None => None case Some(i) => Some(from + i)
  {
    ghost var hay := buf[from..to];
    var tooFar: int := to - |needle| + 1;
    if tooFar <= from {
      return None;
    }
    var at := from;
    while true
      invariant from <= at < tooFar
      invariant forall k: nat | k < at - from :: !MatchAt(hay, k, needle)
      decreases tooFar - at
    {
      ghost var j: nat := at - from;
      ghost var window := hay[j..j + |needle|];
      assert forall k | 0 <= k < |needle| :: window[k] == buf[at + k];
      if buf[at] == needle[0] {
        var i := 1;
        while i != |needle| && buf[at + i] == needle[i]
          invariant 1 <= i <= |needle|
          invariant forall k | 0 <= k < i :: buf[at + k] == needle[k]
          decreases |needle| - i
        {
          i := i + 1;
        }
        if i == |needle| {
          FindIs(hay, needle, at - from);
          return Some(at);
        }
      }
      assert window != needle;
      assert !MatchAt(hay, j, needle);
      at := at + 1;
      if at == tooFar {
        return None;
      }
    }
  }
}
