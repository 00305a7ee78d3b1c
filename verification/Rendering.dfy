/** Writing a template out: its length, its bytes, and appending a section's rendering to what was
    appended before. */
module Rendering {
  import opened ByteStrings
  import opened Chains
  import opened Weaving
  import opened TemplateObjects
  import opened Templates

  /** What the first `n` nodes and the first `s` sections come to. */
  function Run(texts: seq<Bytes>, placed: seq<Placed<Bytes>>, n: nat, s: nat): Bytes
    requires n <= |texts| && s <= |placed|
  {
    Concat(Weave(texts[..n], placed[..s]))
  }

  lemma RunNode(texts: seq<Bytes>, placed: seq<Placed<Bytes>>, n: nat, s: nat)
    requires n < |texts| && s <= |placed| && Within(placed[..s], n)
    ensures Run(texts, placed, n + 1, s) == Run(texts, placed, n, s) + texts[n]
  {
    assert texts[..n + 1] == texts[..n] + [texts[n]];
    WeaveNode(texts[..n], placed[..s], texts[n]);
    ConcatSnoc(Weave(texts[..n], placed[..s]), texts[n]);
  }

  lemma RunSection(texts: seq<Bytes>, placed: seq<Placed<Bytes>>, n: nat, s: nat)
    requires n <= |texts| && s < |placed| && placed[s].pos == n
    ensures Run(texts, placed, n, s + 1) == Run(texts, placed, n, s) + placed[s].what
  {
    assert placed[..s + 1] == placed[..s] + [placed[s]];
    WeavePlaced(texts[..n], placed[..s], placed[s]);
    ConcatSnoc(Weave(texts[..n], placed[..s]), placed[s].what);
  }

  lemma {:induction false} TotalSplit(parts: seq<Bytes>, k: nat)
    requires k <= |parts|
    ensures Total(parts[..k]) + Total(parts[k..]) == Total(parts)
    decreases |parts| - k
  {
    if k == |parts| {
      assert parts[..k] == parts && parts[k..] == [];
    } else {
      TotalSplit(parts, k + 1);
      assert parts[..k + 1][..k] == parts[..k];
      TotalFront(parts[k..]);
      assert parts[k..][1..] == parts[k + 1..];
    }
  }

  lemma {:induction false} TotalFront(parts: seq<Bytes>)
    requires parts != []
    ensures Total(parts) == |parts[0]| + Total(parts[1..])
  {
    if |parts| > 1 {
      var front := parts[..|parts| - 1];
      TotalFront(front);
      assert front[1..] == parts[1..][..|parts| - 2];
    } else {
      assert parts[..0] == [] && parts[1..] == [];
    }
  }

  lemma RunLength(texts: seq<Bytes>, placed: seq<Placed<Bytes>>, n: nat, s: nat)
    requires n <= |texts| && s <= |placed|
    ensures |Run(texts, placed, n, s)| == Total(texts[..n]) + Total(Contents(placed)[..s])
    ensures |Run(texts, placed, n, s)| <= |Run(texts, placed, |texts|, |placed|)|
    ensures n < |texts| ==> |Run(texts, placed, n, s)| + |texts[n]| <= |Run(texts, placed, |texts|, |placed|)|
    ensures s < |placed| ==> |Run(texts, placed, n, s)| + |placed[s].what| <= |Run(texts, placed, |texts|, |placed|)|
  {
    WovenLength(texts[..n], placed[..s]);
    assert Contents(placed[..s]) == Contents(placed)[..s];
    WovenLength(texts[..|texts|], placed[..|placed|]);
    assert texts[..|texts|] == texts && placed[..|placed|] == placed;
    TotalSplit(texts, n);
    TotalSplit(Contents(placed), s);
    if n < |texts| {
      TotalFront(texts[n..]);
    }
    if s < |placed| {
      TotalFront(Contents(placed)[s..]);
    }
  }

  /** `memcpy` into a buffer */
  method Memcpy(buffer: array<Byte>, at: nat, data: Bytes)
    requires at + |data| <= buffer.Length
    modifies buffer
    ensures buffer[..at + |data|] == old(buffer[..at]) + data
    ensures forall k | at + |data| <= k < buffer.Length :: buffer[k] == old(buffer[k])
  {
    for i := 0 to |data|
      invariant buffer[..at + i] == old(buffer[..at]) + data[..i]
      invariant forall k | at + i <= k < buffer.Length :: buffer[k] == old(buffer[k])
    {
      buffer[at + i] := data[i];
      assert data[..i + 1] == data[..i] + [data[i]];
    }
  }

  lemma ConcatPrefix(parts: seq<Bytes>, i: nat)
    requires i < |parts|
    ensures Concat(parts[..i + 1]) == Concat(parts[..i]) + parts[i]
  {
    assert parts[..i + 1] == parts[..i] + [parts[i]];
    ConcatSnoc(parts[..i], parts[i]);
  }

  /** A pointer that walks an added list: `i` nodes are behind it. */
  ghost predicate At(p: Option<Ptr>, i: nat, list: seq<Ptr>) {
    i <= |list| && p == if i < |list| then Some(list[i]) else None
  }

  lemma Walk(t: Ptr, r: Tpl, list: seq<Ptr>, chunks: map<Ptr, Chunk>, i: nat)
    requires Linked(t, r, list, chunks)
    ensures At(r.addedHead, 0, list)
    ensures i < |list| ==>
      && list[i] in chunks && At(chunks[list[i]].next, i + 1, list)
        && ChunkTexts(list, chunks)[i] == chunks[list[i]].val
      && Concat(ChunkTexts(list, chunks)[..i + 1]) == Concat(ChunkTexts(list, chunks)[..i]) + chunks[list[i]].val
  {
    if i < |list| {
      ConcatPrefix(ChunkTexts(list, chunks), i);
      assert i + 1 < |list| ==> chunks[list[i]].next == Some(list[i + 1]);
    }
  }

  lemma AddedWhole(list: seq<Ptr>, chunks: map<Ptr, Chunk>)
    ensures AddedText(list, chunks) == Concat(ChunkTexts(list, chunks)) == Concat(ChunkTexts(list, chunks)[..|list|])
    ensures Concat(ChunkTexts(list, chunks)[..0]) == []
  {
    assert ChunkTexts(list, chunks)[..|list|] == ChunkTexts(list, chunks);
  }

  lemma {:induction false} ConcatPrefixFits(parts: seq<Bytes>, i: nat)
    requires i <= |parts|
    ensures |Concat(parts[..i])| <= |Concat(parts)|
    decreases |parts| - i
  {
    if i == |parts| {
      assert parts[..i] == parts;
    } else {
      ConcatPrefix(parts, i);
      ConcatPrefixFits(parts, i + 1);
    }
  }

  /** Copy the added content of a section into the buffer. */
  method CopyAdded(st: Store, c: Ptr, buffer: array<Byte>, at: nat) returns (end: nat)
    requires c in st.tpls && c in st.added && Linked(c, st.tpls[c], st.added[c], st.chunks)
    requires at + |AddedText(st.added[c], st.chunks)| <= buffer.Length
    modifies buffer
    ensures end == at + |AddedText(st.added[c], st.chunks)|
    ensures buffer[..end] == old(buffer[..at]) + AddedText(st.added[c], st.chunks)
    ensures forall k | end <= k < buffer.Length :: buffer[k] == old(buffer[k])
  {
    hide Linked, ChunkTexts, AddedText, Concat;
    ghost var list := st.added[c];
    ghost var texts := ChunkTexts(list, st.chunks);
    AddedWhole(list, st.chunks);
    Walk(c, st.tpls[c], list, st.chunks, 0);
    var an := st.tpls[c].addedHead;
    ghost var i := 0;
    end := at;
    while an.Some?
      invariant At(an, i, list)
      invariant end == at + |Concat(texts[..i])| && end <= buffer.Length
      invariant buffer[..end] == old(buffer[..at]) + Concat(texts[..i])
      invariant forall k | end <= k < buffer.Length :: buffer[k] == old(buffer[k])
      decreases |list| - i
    {
      Walk(c, st.tpls[c], list, st.chunks, i);
      ConcatPrefixFits(texts, i + 1);
      Memcpy(buffer, end, st.chunks[an.value].val);
      end := end + |st.chunks[an.value].val|;
      an := st.chunks[an.value].next;
      i := i + 1;
    }
  }

  /** Length of the added content of a section */
  method AddedLength(st: Store, c: Ptr) returns (len: nat)
    requires c in st.tpls && c in st.added && Linked(c, st.tpls[c], st.added[c], st.chunks)
    ensures len == |AddedText(st.added[c], st.chunks)|
  {
    hide Linked, ChunkTexts, AddedText;
    ghost var list := st.added[c];
    AddedWhole(list, st.chunks);
    Walk(c, st.tpls[c], list, st.chunks, 0);
    var an := st.tpls[c].addedHead;
    ghost var i := 0;
    len := 0;
    while an.Some?
      invariant At(an, i, list) && len == |Concat(ChunkTexts(list, st.chunks)[..i])|
      decreases |list| - i
    {
      Walk(c, st.tpls[c], list, st.chunks, i);
      len := len + |st.chunks[an.value].val|;
      an := st.chunks[an.value].next;
      i := i + 1;
    }
  }

  lemma PlacedAt(r: Tpl, added: Lists, chunks: map<Ptr, Chunk>)
    requires SectionsOrdered(r)
    ensures var placed := Contributions(r, added, chunks);
            && Sorted(placed) && Within(placed, |r.head|)
            && (forall s, n | 0 <= s < |placed| && placed[s].pos <= n :: Within(placed[..s], n))
  {
    hide GoodName, AddedText;
    var placed := Contributions(r, added, chunks);
    forall i | 0 <= i < |placed| ensures placed[i].pos <= |r.head| {
      assert r.first[i] in r.first;
    }
  }

  /** `tpl_length`: all nodes first, then all added content. */
  method Length(st: Store, t: Ptr) returns (len: nat)
    requires st.Valid() && t in st.tpls
    ensures len == |Rendered(st.tpls[t], st.added, st.chunks)|
  {
    hide SoundStore, FieldsIndexed, SectionsIndexed, SectionsOrdered, Linked, Whole, AddedText;
    var r := st.tpls[t];
    ghost var texts, placed := Texts(r), Contributions(r, st.added, st.chunks);
    WholeOf(st.tpls, st.chunks, st.brk, st.added, st.owner, t);
    len := 0;
    var n := 0;
    while n < |r.head|
      invariant 0 <= n <= |r.head| && len == Total(texts[..n])
    {
      assert texts[..n + 1][..n] == texts[..n];
      len := len + |NodeText(r.head[n], r.fields)|;
      n := n + 1;
    }
    var s := 0;
    while s < |r.first|
      invariant 0 <= s <= |r.first| && len == Total(texts[..n]) + Total(Contents(placed)[..s])
    {
      assert r.first[s] in r.first;
      WholeOf(st.tpls, st.chunks, st.brk, st.added, st.owner, r.first[s].tpl);
      assert Contents(placed)[..s + 1][..s] == Contents(placed)[..s];
      var some := AddedLength(st, r.first[s].tpl);
      len := len + some;
      s := s + 1;
    }
    RunLength(texts, placed, n, s);
    assert texts[..n] == texts && placed[..s] == placed;
  }

  /** Copy the nodes from `from` up to `to` into the buffer, which holds the rendering up to there. */
  method CopyNodes(r: Tpl, ghost placed: seq<Placed<Bytes>>, ghost s: nat, from: nat, upTo: nat, buffer: array<Byte>,
                   at: nat)
      returns (end: nat)
    requires from <= upTo <= |r.head| && s <= |placed| && Within(placed[..s], from)
    requires at == |Run(Texts(r), placed, from, s)| <= buffer.Length
    requires |Run(Texts(r), placed, |r.head|, |placed|)| <= buffer.Length
    requires buffer[..at] == Run(Texts(r), placed, from, s)
    modifies buffer
    ensures at <= end == |Run(Texts(r), placed, upTo, s)| <= buffer.Length
    ensures buffer[..end] == Run(Texts(r), placed, upTo, s)
    ensures forall k | end <= k < buffer.Length :: buffer[k] == old(buffer[k])
  {
    hide Run;
    ghost var texts := Texts(r);
    RunLength(texts, placed, from, s);
    end := at;
    var n := from;
    while n != upTo
      invariant from <= n <= upTo && at <= end == |Run(texts, placed, n, s)| <= buffer.Length
      invariant buffer[..end] == Run(texts, placed, n, s)
      invariant forall k | end <= k < buffer.Length :: buffer[k] == old(buffer[k])
      decreases upTo - n
    {
      RunLength(texts, placed, n, s);
      RunNode(texts, placed, n, s);
      var text := NodeText(r.head[n], r.fields);
      Memcpy(buffer, end, text);
      end := end + |text|;
      n := n + 1;
    }
  }

  lemma NonePlaced(placed: seq<Placed<Bytes>>)
    ensures Within(placed[..0], 0)
  {
  }

  lemma PlacedNext(placed: seq<Placed<Bytes>>, end: nat, s: nat)
    requires Sorted(placed) && Within(placed, end) && s < |placed|
    ensures placed[s].pos <= end && Within(placed[..s], placed[s].pos) && Within(placed[..s + 1], placed[s].pos)
    ensures s + 1 < |placed| ==> placed[s].pos <= placed[s + 1].pos
  {
  }

  /** `tpl_get_content`: the rendering, and a terminator. */
  method GetContent(st: Store, t: Ptr, buffer: array<Byte>)
    requires st.Valid() && t in st.tpls && |Rendered(st.tpls[t], st.added, st.chunks)| < buffer.Length
    modifies buffer
    ensures var text := Rendered(st.tpls[t], st.added, st.chunks);
            && buffer[..|text|] == text && buffer[|text|] == '\0'
            && forall k | |text| < k < buffer.Length :: buffer[k] == old(buffer[k])
  {
    hide SoundStore, FieldsIndexed, SectionsIndexed, SectionsOrdered, Linked, Whole, AddedText, Run, Texts,
      Rendered, Concat, Weave, Contributions, NodeText, Within, Sorted;
    var r := st.tpls[t];
    ghost var texts, placed := Texts(r), Contributions(r, st.added, st.chunks);
    WholeOf(st.tpls, st.chunks, st.brk, st.added, st.owner, t);
    PlacedAt(r, st.added, st.chunks);
    RunIsRendering(r, st.added, st.chunks);
    NonePlaced(placed);
    var n: nat, s: nat, at: nat := 0, 0, 0;
    while s < |r.first|
      invariant 0 <= s <= |r.first| && n <= |r.head| && (s < |r.first| ==> n <= placed[s].pos) && Within(placed[..s], n)
      invariant at == |Run(texts, placed, n, s)| <= buffer.Length
      invariant buffer[..at] == Run(texts, placed, n, s)
      invariant forall k | at <= k < buffer.Length :: buffer[k] == old(buffer[k])
    {
      PlacedNext(placed, |r.head|, s);
      var section := r.first[s];
      assert section in r.first;
      WholeOf(st.tpls, st.chunks, st.brk, st.added, st.owner, section.tpl);
      at := CopyNodes(r, placed, s, n, section.preceding, buffer, at);
      n := section.preceding;
      RunSection(texts, placed, n, s);
      RunLength(texts, placed, n, s);
      at := CopyAdded(st, section.tpl, buffer, at);
      s := s + 1;
    }
    at := CopyNodes(r, placed, s, n, |r.head|, buffer, at);
    buffer[at] := '\0';
  }

  lemma RunIsRendering(r: Tpl, added: Lists, chunks: map<Ptr, Chunk>)
    ensures Run(Texts(r), Contributions(r, added, chunks), |r.head|, |r.first|) == Rendered(r, added, chunks)
    ensures Run(Texts(r), Contributions(r, added, chunks), 0, 0) == []
  {
    var texts, placed := Texts(r), Contributions(r, added, chunks);
    assert texts[..|r.head|] == texts && placed[..|r.first|] == placed;
  }
}
