/** Deep copy of a template. */
module Copying {
  import opened ByteStrings
  import opened Chains
  import opened TemplateObjects
  import opened Templates
  import opened Selecting
  import opened Rendering
  import opened Appending
  import opened Correspondence

  // ---- Nodes

  /** The chains as the first `n` nodes leave them. */
  function FieldsUpTo(r: Tpl, n: nat): (f: seq<seq<Cell>>)
    requires n <= |r.head| && |r.fields| == BUCKETS
    ensures |f| == BUCKETS
    ensures forall b | 0 <= b < BUCKETS ::
      Seen(r.head[..n], b) <= |r.fields[b]| ==> f[b] == r.fields[b][..Seen(r.head[..n], b)]
  {
    seq(BUCKETS, b requires 0 <= b < BUCKETS =>
      if Seen(r.head[..n], b) <= |r.fields[b]| then r.fields[b][..Seen(r.head[..n], b)] else [])
  }

  function NodesUpTo(q: Tpl, r: Tpl, n: nat): Tpl
    requires n <= |r.head| && |r.fields| == BUCKETS
  {
    q.(head := r.head[..n], fields := FieldsUpTo(r, n))
  }

  lemma SeenGrows(nodes: seq<Node>, n: nat, b: nat)
    requires n < |nodes|
    ensures Seen(nodes[..n + 1], b) ==
      if nodes[n].FieldNode? && nodes[n].bucket == b && Seen(nodes[..n], b) <= nodes[n].index then nodes[n].index + 1
      else Seen(nodes[..n], b)
  {
    assert nodes[..n + 1] == nodes[..n] + [nodes[n]];
    SeenAfter(nodes[..n], nodes[n], b);
  }

  lemma {:induction false} SeenBound(nodes: seq<Node>, n: nat, b: nat)
    requires n <= |nodes|
    ensures Seen(nodes[..n], b) <= Seen(nodes, b)
    decreases |nodes| - n
  {
    if n == |nodes| {
      assert nodes[..n] == nodes;
    } else {
      SeenGrows(nodes, n, b);
      SeenBound(nodes, n + 1, b);
    }
  }

  lemma {:induction false} SeenCovers(nodes: seq<Node>, k: nat, n: nat)
    requires k < n <= |nodes| && nodes[k].FieldNode?
    ensures nodes[k].index < Seen(nodes[..n], nodes[k].bucket)
  {
    SeenGrows(nodes, n - 1, nodes[k].bucket);
    if k < n - 1 {
      SeenCovers(nodes, k, n - 1);
    }
  }

  /** Each chain of a partial copy is a prefix of the original's. */
  lemma ChainUpTo(r: Tpl, n: nat, b: nat)
    requires FieldsIndexed(r) && n <= |r.head| && b < BUCKETS
    ensures Seen(r.head[..n], b) <= |r.fields[b]| && FieldsUpTo(r, n)[b] == r.fields[b][..Seen(r.head[..n], b)]
    ensures NoPrefix(CellKeys(FieldsUpTo(r, n)[b]))
  {
    SeenBound(r.head, n, b);
    var m := Seen(r.head[..n], b);
    assert CellKeys(r.fields[b][..m]) == CellKeys(r.fields[b])[..m];
  }

  lemma NodeUpTo(r: Tpl, n: nat, k: nat)
    requires FieldsIndexed(r) && k < n <= |r.head| && r.head[k].FieldNode?
    ensures r.head[..n][k] == r.head[k] && r.head[..n][..k] == r.head[..k]
    ensures r.head[k].bucket < BUCKETS && r.head[k].index < |FieldsUpTo(r, n)[r.head[k].bucket]|
    ensures r.head[k].index <= Seen(r.head[..k], r.head[k].bucket)
  {
    assert r.head[k] in r.head;
    SeenCovers(r.head, k, n);
    ChainUpTo(r, n, r.head[k].bucket);
  }

  lemma PrefixIndexed(q: Tpl, r: Tpl, n: nat)
    requires FieldsIndexed(r) && n <= |r.head|
    ensures FieldsIndexed(NodesUpTo(q, r, n))
  {
    hide GoodName, Bucket, Seen, NoPrefix;
    var p := NodesUpTo(q, r, n);
    forall b | 0 <= b < BUCKETS ensures NoPrefix(CellKeys(p.fields[b])) && Seen(p.head, b) == |p.fields[b]| {
      ChainUpTo(r, n, b);
    }
    forall b, c | 0 <= b < BUCKETS && c in p.fields[b] ensures c in r.fields[b] {
      ChainUpTo(r, n, b);
    }
    forall k | 0 <= k < n && r.head[k].FieldNode?
      ensures p.head[k].bucket < BUCKETS && p.head[k].index < |p.fields[p.head[k].bucket]|
      ensures p.head[k].index <= Seen(p.head[..k], p.head[k].bucket)
    {
      NodeUpTo(r, n, k);
    }
  }

  lemma AllNodesCopied(q: Tpl, r: Tpl)
    requires FieldsIndexed(r)
    ensures NodesUpTo(q, r, |r.head|).head == r.head && NodesUpTo(q, r, |r.head|).fields == r.fields
  {
    assert r.head[..|r.head|] == r.head;
    var f := FieldsUpTo(r, |r.head|);
    forall b | 0 <= b < BUCKETS ensures f[b] == r.fields[b] {
      assert r.fields[b][..|r.fields[b]|] == r.fields[b];
    }
  }

  lemma NoNodesCopied(q: Tpl, r: Tpl)
    requires FieldsIndexed(r) && q.head == [] && q.fields == seq(BUCKETS, b => [])
    ensures NodesUpTo(q, r, 0) == q
  {
    assert forall b | 0 <= b < BUCKETS :: FieldsUpTo(r, 0)[b] == [];
  }

  /** A lookup in the copy's chain finds the place the cell has in the original's chain. */
  lemma CopiedCellFound(chain: seq<Cell>, m: nat, i: nat)
    requires NoPrefix(CellKeys(chain)) && i < |chain| && i <= m <= |chain|
    ensures FindKey(CellKeys(chain[..m]), chain[i].key) == if i < m then Some(i) else None
  {
    assert CellKeys(chain[..m]) == CellKeys(chain)[..m];
    assert CellKeys(chain)[i] == chain[i].key;
  }

  lemma NextText(r: Tpl, n: nat)
    requires FieldsIndexed(r) && n < |r.head| && r.head[n].TextNode?
    ensures FieldsUpTo(r, n + 1) == FieldsUpTo(r, n) && r.head[..n + 1] == r.head[..n] + [r.head[n]]
  {
    forall b | 0 <= b < BUCKETS ensures Seen(r.head[..n + 1], b) == Seen(r.head[..n], b) {
      SeenGrows(r.head, n, b);
    }
  }

  /** What the next node needs: its cell is where a lookup by its key leads, or is the next of its chain. */
  lemma NextField(r: Tpl, n: nat)
    requires FieldsIndexed(r) && n < |r.head| && r.head[n].FieldNode?
    ensures r.head[n].bucket < BUCKETS && r.head[n].index < |r.fields[r.head[n].bucket]|
    ensures Bucket(r.fields[r.head[n].bucket][r.head[n].index].key) == r.head[n].bucket
    ensures r.head[n].index <= |FieldsUpTo(r, n)[r.head[n].bucket]|
    ensures FindKey(CellKeys(FieldsUpTo(r, n)[r.head[n].bucket]), r.fields[r.head[n].bucket][r.head[n].index].key)
      == if r.head[n].index < |FieldsUpTo(r, n)[r.head[n].bucket]| then Some(r.head[n].index) else None
    ensures r.head[n].index < |FieldsUpTo(r, n)[r.head[n].bucket]| ==>
      FieldsUpTo(r, n)[r.head[n].bucket][r.head[n].index] == r.fields[r.head[n].bucket][r.head[n].index]
  {
    hide NoPrefix, GoodName;
    var b, i := r.head[n].bucket, r.head[n].index;
    assert r.head[n] in r.head;
    assert r.fields[b][i] in r.fields[b];
    ChainUpTo(r, n, b);
    CopiedCellFound(r.fields[b], Seen(r.head[..n], b), i);
  }

  lemma NextInOrder(r: Tpl, n: nat)
    requires FieldsIndexed(r) && n < |r.head| && r.head[n].FieldNode?
    ensures |r.fields| == BUCKETS && r.head[n].bucket < BUCKETS && r.head[n].index < |r.fields[r.head[n].bucket]|
    ensures r.head[n].index <= Seen(r.head[..n], r.head[n].bucket)
  {
    hide NoPrefix, GoodName, CellKeys, Seen;
    assert r.head[n] in r.head;
  }

  lemma ChainNext(r: Tpl, n: nat, k: nat)
    requires FieldsIndexed(r) && n < |r.head| && r.head[n].FieldNode? && k < BUCKETS
    ensures var b, i, f := r.head[n].bucket, r.head[n].index, FieldsUpTo(r, n);
            && b < BUCKETS && i < |r.fields[b]|
            && FieldsUpTo(r, n + 1)[k] == (if k == b && |f[b]| <= i then f[k] + [r.fields[b][i]] else f[k])
  {
    hide FieldsIndexed, FieldsUpTo, Seen, NoPrefix, CellKeys;
    NextInOrder(r, n);
    SeenGrows(r.head, n, k);
    ChainUpTo(r, n, k);
    ChainUpTo(r, n + 1, k);
    ChainUpTo(r, n, r.head[n].bucket);
  }

  lemma AfterNextField(r: Tpl, n: nat)
    requires FieldsIndexed(r) && n < |r.head| && r.head[n].FieldNode?
    ensures r.head[..n + 1] == r.head[..n] + [r.head[n]]
    ensures r.head[n].bucket < BUCKETS && r.head[n].index < |r.fields[r.head[n].bucket]|
    ensures FieldsUpTo(r, n + 1) ==
      (var b, i := r.head[n].bucket, r.head[n].index;
       var f := FieldsUpTo(r, n);
       if i < |f[b]| then f else f[b := f[b] + [r.fields[b][i]]])
  {
    hide FieldsIndexed, Seen;
    NextInOrder(r, n);
    var b, i, f := r.head[n].bucket, r.head[n].index, FieldsUpTo(r, n);
    forall k | 0 <= k < BUCKETS
      ensures FieldsUpTo(r, n + 1)[k] == if k == b && |f[b]| <= i then f[k] + [r.fields[b][i]] else f[k]
    {
      ChainNext(r, n, k);
    }
  }

  /** Replacing the nodes copied so far by some more of them keeps the store sound. */
  lemma MoreNodesSound(st: Store, c: Ptr, src: Ptr, k: nat, n: nat, q: Tpl)
    requires st.Valid() && c in st.tpls && src in st.tpls && |st.tpls[src].fields| == BUCKETS
    requires k <= n <= |st.tpls[src].head| && st.tpls[c] == NodesUpTo(q, st.tpls[src], k)
    ensures FieldsIndexed(st.tpls[src])
    ensures SoundStore(st.tpls[c := NodesUpTo(q, st.tpls[src], n)], st.chunks, st.brk, st.added, st.owner)
  {
    hide SoundStore, FieldsIndexed, SectionsIndexed, FieldsUpTo, Linked, Whole;
    var r := st.tpls[src];
    WholeOf(st.tpls, st.chunks, st.brk, st.added, st.owner, src);
    WholeOf(st.tpls, st.chunks, st.brk, st.added, st.owner, c);
    PrefixIndexed(q, r, n);
    NodeKeepsSections(st.tpls[c], NodesUpTo(q, r, n));
    UpdateSound(st.tpls, st.chunks, st.brk, st.added, st.owner, c, NodesUpTo(q, r, n));
  }

  /** Copy one node; a field is found or made by its key, and takes its value if it has none. */
  method CopyNode(st: Store, c: Ptr, src: Ptr, k: nat, ghost q: Tpl)
    requires st.Valid() && c in st.tpls && src in st.tpls && c != src && |st.tpls[src].fields| == BUCKETS
    requires k < |st.tpls[src].head| && st.tpls[c] == NodesUpTo(q, st.tpls[src], k)
    modifies st`tpls
    ensures st.Valid()
    ensures st.tpls == old(st.tpls)[c := NodesUpTo(q, old(st.tpls)[src], k + 1)]
  {
    hide SoundStore, FieldsIndexed, SectionsIndexed, FieldsUpTo, FindKey;
    MoreNodesSound(st, c, src, k, k + 1, q);
    var r := st.tpls[src];
    match r.head[k]
    case TextNode(text) =>
      NextText(r, k);
      st.tpls := st.tpls[c := WithNode(st.tpls[c], TextNode(text))];
    case FieldNode(b, i) =>
      NextField(r, k);
      AfterNextField(r, k);
      var from := r.fields[b][i];
      var cell := st.ProduceField(c, from.key, true);
      var fields := st.tpls[c].fields;
      var field: Cell := fields[cell.value.0][cell.value.1];
      if field.val == [] && from.val != [] {
        fields := fields[cell.value.0 := fields[cell.value.0][cell.value.1 := field.(val := from.val)]];
        st.tpls := st.tpls[c := st.tpls[c].(fields := fields)];
      }
      st.tpls := st.tpls[c := st.tpls[c].(head := st.tpls[c].head + [FieldNode(cell.value.0, cell.value.1)])];
      FieldCopied(FieldsUpTo(r, k), b, i, from, fields);
      assert st.tpls[c] == NodesUpTo(q, r, k + 1);
      assert st.tpls == old(st.tpls)[c := NodesUpTo(q, r, k + 1)];
  }

  lemma FieldCopied(f: seq<seq<Cell>>, b: nat, i: nat, from: Cell, fields: seq<seq<Cell>>)
    requires b < |f|
    requires i < |f[b]| ==> f[b][i] == from && fields == f
    requires |f[b]| <= i ==> i == |f[b]|
    requires |f[b]| <= i ==>
      fields == f[b := f[b] + [Cell(from.key, [])]] || fields == f[b := (f[b] + [Cell(from.key, [])])[i := from]]
    requires |f[b]| <= i ==> fields[b][i] == from
    ensures fields == if i < |f[b]| then f else f[b := f[b] + [from]]
  {
    if |f[b]| <= i {
      assert fields[b] == f[b] + [from];
    }
  }

  /** Copy nodes until the given position. */
  method CopyNodes(st: Store, c: Ptr, src: Ptr, from: nat, upTo: nat, ghost q: Tpl)
    requires st.Valid() && c in st.tpls && src in st.tpls && c != src && |st.tpls[src].fields| == BUCKETS
    requires from <= upTo <= |st.tpls[src].head| && st.tpls[c] == NodesUpTo(q, st.tpls[src], from)
    modifies st`tpls
    ensures st.Valid()
    ensures st.tpls == old(st.tpls)[c := NodesUpTo(q, old(st.tpls)[src], upTo)]
  {
    hide SoundStore, FieldsUpTo;
    var k := from;
    while k != upTo
      invariant from <= k <= upTo && st.Valid()
      invariant st.tpls == old(st.tpls)[c := NodesUpTo(q, old(st.tpls)[src], k)]
      decreases upTo - k
    {
      CopyNode(st, c, src, k, q);
      k := k + 1;
    }
  }

  // ---- Sections

  lemma {:induction false} SameKeysIn(a: seq<SectionCell>, c: seq<SectionCell>, b: nat)
    requires |a| == |c| && forall i | 0 <= i < |a| :: a[i].key == c[i].key
    ensures SectionKeys(SectionsIn(a, b)) == SectionKeys(SectionsIn(c, b))
  {
    hide SectionsIn, SectionKeys, Bucket;
    if a == [] {
      assert a == c;
    } else {
      var n := |a| - 1;
      SameKeysIn(a[..n], c[..n], b);
      KeysInLast(a, b);
      KeysInLast(c, b);
    }
  }

  lemma KeysInLast(secs: seq<SectionCell>, b: nat)
    requires secs != []
    ensures var n := |secs| - 1;
            SectionKeys(SectionsIn(secs, b)) ==
              if Bucket(secs[n].key) == b then SectionKeys(SectionsIn(secs[..n], b)) + [secs[n].key]
              else SectionKeys(SectionsIn(secs[..n], b))
  {
    hide SectionsIn, SectionKeys, Bucket;
    var n := |secs| - 1;
    assert secs == secs[..n] + [secs[n]];
    SectionsInAfter(secs[..n], secs[n], b);
    KeysAfter(SectionsIn(secs[..n], b), secs[n]);
  }

  lemma KeysAfter(secs: seq<SectionCell>, s: SectionCell)
    ensures SectionKeys(secs + [s]) == SectionKeys(secs) + [s.key]
  {
  }

  lemma {:induction false} SectionsInPrefix(secs: seq<SectionCell>, n: nat, b: nat)
    requires n <= |secs|
    ensures SectionsIn(secs[..n], b) <= SectionsIn(secs, b)
    decreases |secs| - n
  {
    if n == |secs| {
      assert secs[..n] == secs;
    } else {
      assert secs[..n + 1] == secs[..n] + [secs[n]];
      SectionsInAfter(secs[..n], secs[n], b);
      SectionsInPrefix(secs, n + 1, b);
    }
  }

  lemma PlaceInChain(secs: seq<SectionCell>, n: nat)
    requires n < |secs|
    ensures var front, all := SectionsIn(secs[..n], Bucket(secs[n].key)), SectionsIn(secs, Bucket(secs[n].key));
            front <= all && |front| < |all| && all[|front|] == secs[n]
  {
    var b := Bucket(secs[n].key);
    assert secs[..n + 1] == secs[..n] + [secs[n]];
    SectionsInAfter(secs[..n], secs[n], b);
    SectionsInPrefix(secs, n, b);
    SectionsInPrefix(secs, n + 1, b);
    assert SectionsIn(secs[..n + 1], b)[|SectionsIn(secs[..n], b)|] == secs[n];
  }

  /** No section copied so far stands in the way of the next, since no key extends a later one. */
  lemma NextSectionIsNew(r: Tpl, q: Tpl, n: nat)
    requires SectionsChained(r) && SectionsChained(q) && |q.first| == n < |r.first|
    requires forall i | 0 <= i < n :: q.first[i].key == r.first[i].key
    ensures SectionFor(q, r.first[n].key) == None
  {
    hide SectionsIn;
    var key := r.first[n].key;
    var b := Bucket(key);
    PlaceInChain(r.first, n);
    SameKeysIn(q.first, r.first[..n], b);
    var front, all := SectionsIn(r.first[..n], b), SectionsIn(r.first, b);
    assert SectionKeys(all)[|front|] == key;
    forall i | 0 <= i < |front| ensures !(key <= SectionKeys(front)[i]) {
      assert SectionKeys(front)[i] == SectionKeys(all)[i];
    }
  }

  /** An empty template that may have content added to it. */
  ghost predicate Blank(c: Ptr, r: Tpl) {
    r == Initial(c).(parent := r.parent, addedHead := r.addedHead, addedTail := r.addedTail)
  }

  /** The bytes of a section's added content, in one buffer of the right size. */
  method GatherAdded(st: Store, u: Ptr) returns (text: Bytes)
    requires st.Valid() && u in st.tpls && u in st.added
    ensures text == AddedText(st.added[u], st.chunks)
  {
    hide SoundStore, Linked, AddedText;
    WholeOf(st.tpls, st.chunks, st.brk, st.added, st.owner, u);
    var len := AddedLength(st, u);
    var buffer := new Byte[len];
    var end := CopyAdded(st, u, buffer, 0);
    text := buffer[..end];
  }

  /** A new section has been made for the `n`-th section of `src`, with the bytes that one had appended. */
  ghost predicate Prepared(h: Heap, c: Ptr, cell: SectionCell, d: Ptr, h': Heap)
    requires c in h.tpls
  {
    && d == h.brk < h'.brk && d in h'.tpls && Blank(d, h'.tpls[d]) && c in h'.tpls
    && h'.tpls[c] == WithSection(h.tpls[c], cell.key, d)
    && cell.tpl in h'.added && d in h'.added
    && AddedText(h'.added[d], h'.chunks) == AddedText(h'.added[cell.tpl], h'.chunks)
    && h'.tpls.Keys == h.tpls.Keys + {d} && Kept(h, c, h')
  }

  /** The heap just after the section was made. */
  ghost function WithNewSection(h: Heap, c: Ptr, key: Bytes): Heap
    requires c in h.tpls
  {
    Heap(h.tpls[h.brk := Initial(h.brk).(parent := Some(c))][c := WithSection(h.tpls[c], key, h.brk)],
         h.brk + 1, h.added[h.brk := []], h.chunks)
  }

  lemma NewSectionPrepared(h: Heap, c: Ptr, cell: SectionCell)
    requires c in h.tpls && Tree(h.tpls, h.brk) && h.added.Keys == h.tpls.Keys && cell.tpl in h.tpls
    ensures var h1 := WithNewSection(h, c, cell.key);
            && h.brk !in h.tpls && h.brk != c && h1.tpls[h.brk] == Initial(h.brk).(parent := Some(c))
            && h1.added[cell.tpl] == h.added[cell.tpl] && h1.added[h.brk] == []
            && (h.added[cell.tpl] == [] ==> Prepared(h, c, cell, h.brk, h1))
            && (ListsThere(h) ==> ListsThere(h1))
            && h1.tpls.Keys == h.tpls.Keys + {h.brk}
            && Kept(h, c, h1) && h1.tpls[c] == WithSection(h.tpls[c], cell.key, h.brk)
  {
    hide WithSection;
    SectionParent(h.tpls[c], cell.key, h.brk);
  }

  lemma HookedPrepared(h: Heap, c: Ptr, cell: SectionCell, d: Ptr, h1: Heap, b: Ptr, h2: Heap)
    requires c in h.tpls && d == h.brk < h1.brk <= h2.brk && Kept(h, c, h1) && ListsThere(h1) && d !in h.tpls && d != c
    requires c in h1.tpls && h1.tpls[c] == WithSection(h.tpls[c], cell.key, d)
    requires d in h1.tpls && h1.tpls[d] == Initial(d).(parent := Some(c)) && d in h1.added && h1.added[d] == []
    requires cell.tpl in h1.added && cell.tpl in h.added && cell.tpl != d
    requires forall u | u in h.added :: u in h.tpls
    requires Relisted(h1.tpls, h1.chunks, h2.tpls, h2.chunks, h1.added, h2.added, {d})
    requires h2.added == h1.added[d := h1.added[d] + [b]] && h1.tpls.Keys == h.tpls.Keys + {d}
    requires b in h2.chunks && h2.chunks[b].val == AddedText(h1.added[cell.tpl], h1.chunks)
    ensures Prepared(h, c, cell, d, h2)
  {
    hide AddedText, WithSection, Initial;
    assert [] + [b] == [b];
    AddedTextOne(b, h2.chunks);
    AddedTextFrame(h1.added[cell.tpl], h1.chunks, h2.chunks);
  }

  method PrepareSection(st: Store, c: Ptr, cell: SectionCell) returns (d: Ptr)
    requires st.Valid() && c in st.tpls && cell.tpl in st.tpls && cell.tpl != c
    requires GoodName(cell.key) && SectionFor(st.tpls[c], cell.key) == None
    modifies st`tpls, st`chunks, st`brk, st`added, st`owner
    ensures st.Valid() && Prepared(old(HeapOf(st)), c, cell, d, HeapOf(st))
  {
    hide SoundStore, GoodName, SectionFor, WithSection, AddedText, Initial, Linked, Prepared, Kept, ListsThere,
      Relisted, Tree, FieldsIndexed, SectionsIndexed;
    ghost var h := HeapOf(st);
    ListInChunks(st.tpls, st.chunks, st.brk, st.added, st.owner);
    assert ListsThere(h) by { ListsAreThere(h); }
    var made := st.NewSection(c, cell.key);
    d := made.value;
    ghost var h1 := HeapOf(st);
    NewSectionPrepared(h, c, cell);
    assert h1 == WithNewSection(h, c, cell.key);
    WholeOf(st.tpls, st.chunks, st.brk, st.added, st.owner, cell.tpl);
    ListHead(cell.tpl, st.tpls[cell.tpl], st.added[cell.tpl], st.chunks);
    if st.tpls[cell.tpl].addedHead.Some? {
      var text := GatherAdded(st, cell.tpl);
      HookText(st, d, text);
      HookedPrepared(h, c, cell, d, h1, h1.brk, HeapOf(st));
    }
  }

  lemma ListsAreThere(h: Heap)
    requires forall t, x | t in h.added && x in h.added[t] :: x in h.chunks
    ensures ListsThere(h)
  {
  }

  lemma ListHead(t: Ptr, r: Tpl, list: seq<Ptr>, chunks: map<Ptr, Chunk>)
    requires Linked(t, r, list, chunks)
    ensures r.addedHead.Some? <==> list != []
  {
  }

  // ---- Selection

  /** Only the link of the template at `c` is not as in `h`. */
  ghost predicate Relinked(h: Heap, c: Ptr, h': Heap) {
    c in h.tpls && c in h'.tpls && h' == h.(tpls := h.tpls[c := h.tpls[c].(tpl := h'.tpls[c].tpl)])
  }

  /** `corr` takes all templates inside `src` to copies of them, and `src` to `c`. */
  ghost predicate CopyShape(src: Ptr, c: Ptr, corr: Match, h: Heap) {
    && Tree(h.tpls, h.brk) && src in h.tpls && c in h.tpls && c !in corr
    && corr.Keys == Below(src, h.tpls, h.brk) && Bodies(corr, h) && Separate(corr, 0)
    && src in corr && corr[src] == c
  }

  /** The link of the copy, when those in `seen` have been looked at. */
  ghost function Adjusted(src: Ptr, c: Ptr, link: Ptr, seen: set<Ptr>, corr: Match, h: Heap): Ptr {
    if src in h.tpls && h.tpls[src].tpl != src && link == c && h.tpls[src].tpl in seen && h.tpls[src].tpl in corr
    then corr[h.tpls[src].tpl] else link
  }

  lemma RelinkedSound(st: Store, c: Ptr, link: Ptr)
    requires st.Valid() && c in st.tpls
    ensures SoundStore(st.tpls[c := st.tpls[c].(tpl := link)], st.chunks, st.brk, st.added, st.owner)
  {
    hide SoundStore;
    LinksKeepSound(st.tpls, st.chunks, st.brk, st.added, st.owner, st.tpls[c := st.tpls[c].(tpl := link)]);
  }

  /** The `i`-th sections of an original and of its copy. */
  lemma SectionPair(src: Ptr, c: Ptr, corr: Match, h: Heap, u: Ptr, i: nat)
    requires CopyShape(src, c, corr, h) && u in corr
    ensures u in h.tpls && corr[u] in h.tpls && |h.tpls[corr[u]].first| == |h.tpls[u].first|
    ensures i < |h.tpls[u].first| ==>
      var d := h.tpls[u].first[i].tpl;
      && d in corr && d in h.tpls && u < d < h.brk && h.tpls[corr[u]].first[i].tpl == corr[d]
      && BelowFirst(u, i + 1, h.tpls, h.brk)
         == BelowFirst(u, i, h.tpls, h.brk) + {d} + BelowFirst(d, |h.tpls[d].first|, h.tpls, h.brk)
  {
    hide Below, BelowFirst, AddedText, Reach;
    assert SameBody(u, corr[u], corr, h);
    if i < |h.tpls[u].first| {
      BelowNext(u, i, h.tpls, h.brk);
      BelowAll(h.tpls[u].first[i].tpl, h.tpls, h.brk);
    }
  }

  lemma {:induction false} BelowFirstGrows(u: Ptr, i: nat, n: nat, tpls: Tpls, brk: Ptr)
    requires Tree(tpls, brk) && u in tpls && i <= n <= |tpls[u].first|
    ensures BelowFirst(u, i, tpls, brk) <= BelowFirst(u, n, tpls, brk)
    decreases n - i
  {
    hide BelowFirst;
    if i < n {
      BelowNext(u, i, tpls, brk);
      BelowFirstGrows(u, i + 1, n, tpls, brk);
    }
  }

  lemma NeverBack(src: Ptr, c: Ptr, corr: Match, h: Heap, seen: set<Ptr>)
    requires CopyShape(src, c, corr, h)
    ensures var link := h.tpls[src].tpl;
            Adjusted(src, c, c, seen, corr, h) != c <==> link != src && link in seen && link in corr
  {
  }

  /** `tpl_adjust_selection` over the sections of `u` and those of its copy `v`: if the source's link
      leads to one of them, at any depth, the copy's link is set to its counterpart. */
  method AdjustSelection(st: Store, c: Ptr, src: Ptr, u: Ptr, v: Ptr, ghost corr: Match, ghost h: Heap)
    requires st.Valid() && Relinked(h, c, HeapOf(st)) && c != src
    requires CopyShape(src, c, corr, h) && u in corr && v == corr[u] && u in h.tpls
    modifies st`tpls
    ensures st.Valid() && Relinked(h, c, HeapOf(st)) && Tree(h.tpls, h.brk)
    ensures st.tpls[c].tpl ==
      Adjusted(src, c, old(HeapOf(st)).tpls[c].tpl, BelowFirst(u, |h.tpls[u].first|, h.tpls, h.brk), corr, h)
    decreases h.brk - u
  {
    hide SoundStore, CopyShape, BelowFirst, Tree;
    assert c in st.tpls && src in st.tpls && Tree(h.tpls, h.brk) by { CopyShapeMeans(src, c, corr, h); }
    SectionPair(src, c, corr, h, u, 0);
    if st.tpls[src].tpl != src {
      var i := 0;
      ghost var link := st.tpls[c].tpl;
      BelowNothing(u, h.tpls, h.brk);
      while st.tpls[c].tpl == c && i < |st.tpls[u].first|
        invariant 0 <= i <= |h.tpls[u].first|
        invariant st.Valid() && Relinked(h, c, HeapOf(st))
        invariant st.tpls[c].tpl == Adjusted(src, c, link, BelowFirst(u, i, h.tpls, h.brk), corr, h)
        decreases |h.tpls[u].first| - i
      {
        SectionPair(src, c, corr, h, u, i);
        NeverBack(src, c, corr, h, BelowFirst(u, i, h.tpls, h.brk));
        var sec1, sec2 := st.tpls[u].first[i], st.tpls[v].first[i];
        if st.tpls[src].tpl == sec1.tpl {
          RelinkedSound(st, c, sec2.tpl);
          st.tpls := st.tpls[c := st.tpls[c].(tpl := sec2.tpl)];
        } else {
          AdjustSelection(st, c, src, sec1.tpl, sec2.tpl, corr, h);
        }
        i := i + 1;
      }
      BelowFirstGrows(u, i, |h.tpls[u].first|, h.tpls, h.brk);
      NeverBack(src, c, corr, h, BelowFirst(u, i, h.tpls, h.brk));
    }
  }

  lemma CopyShapeMeans(src: Ptr, c: Ptr, corr: Match, h: Heap)
    requires CopyShape(src, c, corr, h)
    ensures c in h.tpls && src in h.tpls && Tree(h.tpls, h.brk)
  {
  }

  // ---- The whole tree

  /** What copying `src` into the template at `c` asks for. */
  ghost predicate CopyReady(h: Heap, c: Ptr, src: Ptr, top: Ptr) {
    && Tree(h.tpls, h.brk) && c in h.tpls && src in h.tpls && Blank(c, h.tpls[c])
    && c !in Below(src, h.tpls, h.brk) && LinksDown(src, h.tpls, h.brk)
    && (forall u | u in Below(src, h.tpls, h.brk) :: u < top)
  }

  /** What it gives: a copy of every template inside `src`, all but the one at `c` newly made. */
  ghost predicate CopyMade(h: Heap, c: Ptr, src: Ptr, corr: Match, h': Heap) {
    && Tree(h.tpls, h.brk) && src in h.tpls && corr.Keys == Below(src, h.tpls, h.brk)
    && src in corr && corr[src] == c
    && Bodies(corr, h') && Links(corr, h')
    && (forall u | u in corr && u != src :: h.brk <= corr[u])
    && (forall u, v | u in corr && v in corr && u != v :: corr[u] != corr[v])
    && Kept(h, c, h') && OnlyCopies(h, corr, h')
  }

  /** Every template made since `h` is one of the copies. */
  ghost predicate OnlyCopies(h: Heap, corr: Match, h': Heap) {
    forall t | t in h'.tpls && t !in h.tpls :: t in corr.Values
  }

  /** How far a copy has come: `n` sections, `k` nodes. */
  ghost predicate Copying(h: Heap, c: Ptr, src: Ptr, n: nat, k: nat, corr: Match, h': Heap)
    requires Tree(h.tpls, h.brk) && src in h.tpls
  {
    && c in h'.tpls && Kept(h, c, h') && NodesDone(h.tpls[src], n, k, h'.tpls[c])
    && SameSections(h.tpls[src].first, h'.tpls[c].first, n, corr, h'.added, h'.chunks)
    && corr.Keys == BelowFirst(src, n, h.tpls, h.brk)
    && Bodies(corr, h') && Links(corr, h') && Separate(corr, h.brk) && OnlyCopies(h, corr, h')
  }

  ghost predicate NodesDone(r: Tpl, n: nat, k: nat, q: Tpl) {
    && k <= |r.head| && n <= |r.first| && |r.fields| == BUCKETS
    && q.head == r.head[..k] && q.fields == FieldsUpTo(r, k) && |q.first| == n
    && (forall j | n <= j < |r.first| :: k <= r.first[j].preceding <= |r.head|)
    && (forall i | 0 <= i < n :: q.first[i].key == r.first[i].key)
  }

  lemma CopyStart(h: Heap, c: Ptr, src: Ptr, top: Ptr)
    requires CopyReady(h, c, src, top) && FieldsIndexed(h.tpls[src]) && SectionsOrdered(h.tpls[src])
    ensures Copying(h, c, src, 0, 0, map[], h) && c != src && src < top
  {
    hide Reach, GoodName;
    var r := h.tpls[src];
    BelowNothing(src, h.tpls, h.brk);
    NoNodesCopied(h.tpls[c], r);
    forall j | 0 <= j < |r.first| ensures r.first[j].preceding <= |r.head| {
      assert r.first[j] in r.first;
    }
  }

  lemma CopyNodesStep(h: Heap, c: Ptr, src: Ptr, n: nat, k: nat, corr: Match, h1: Heap, m: nat, h2: Heap)
    requires Tree(h.tpls, h.brk) && src in h.tpls && Copying(h, c, src, n, k, corr, h1) && ListsThere(h1) && c < h.brk
    requires k <= m <= |h.tpls[src].head| && SectionsOrdered(h.tpls[src])
    requires if n < |h.tpls[src].first| then m == h.tpls[src].first[n].preceding else m == |h.tpls[src].head|
    requires h2 == h1.(tpls := h1.tpls[c := NodesUpTo(h1.tpls[c], h.tpls[src], m)])
    requires c !in Below(src, h.tpls, h.brk)
    ensures Copying(h, c, src, n, m, corr, h2)
  {
    hide FieldsUpTo, SameSections, BelowFirst, Below, Bodies, Links, Separate, ListsThere, GoodName, AddedText, Kept,
      OnlyCopies, Tree;
    OffOriginals(h, c, src, n, corr);
    NodesKept(h, corr, h1, c, h2);
    KeptTrans(h, c, h1, c, h2);
    NodesOnly(corr, h1, c, h2);
    SameSectionsKept(h.tpls[src].first, h1.tpls[c].first, n, corr, h1, c, h2, corr);
  }

  lemma NodesKept(h: Heap, corr: Match, h1: Heap, c: Ptr, h2: Heap)
    requires c in h1.tpls && h2 == h1.(tpls := h2.tpls) && c in h2.tpls && h2.tpls == h1.tpls[c := h2.tpls[c]]
    requires h2.tpls[c].parent == h1.tpls[c].parent
    ensures Kept(h1, c, h2) && (OnlyCopies(h, corr, h1) ==> OnlyCopies(h, corr, h2))
  {
  }

  lemma NodesOnly(corr: Match, h1: Heap, c: Ptr, h2: Heap)
    requires Bodies(corr, h1) && Links(corr, h1) && Kept(h1, c, h2) && ListsThere(h1)
    requires c !in corr && forall u | u in corr :: corr[u] != c
    ensures Bodies(corr, h2) && Links(corr, h2)
  {
    hide SameBody, SameLink, ListsThere, Kept;
    assert Bodies(corr, h1) && Links(corr, h1);
    BodiesKept(corr, h1, c, h2, corr);
  }

  /** The target is not among the templates copied so far, nor among their copies. */
  lemma OffOriginals(h: Heap, c: Ptr, src: Ptr, n: nat, corr: Match)
    requires Tree(h.tpls, h.brk) && src in h.tpls && n <= |h.tpls[src].first| && c < h.brk
    requires corr.Keys == BelowFirst(src, n, h.tpls, h.brk) && Separate(corr, h.brk) && c !in Below(src, h.tpls, h.brk)
    ensures c !in corr && forall u | u in corr :: corr[u] != c
  {
    hide Below, BelowFirst;
    BelowAll(src, h.tpls, h.brk);
    BelowFirstGrows(src, n, |h.tpls[src].first|, h.tpls, h.brk);
  }

  lemma OldTreeKept(h: Heap, c: Ptr, src: Ptr, h1: Heap)
    requires Tree(h.tpls, h.brk) && src in h.tpls && c !in Below(src, h.tpls, h.brk)
    requires Tree(h1.tpls, h1.brk) && Kept(h, c, h1)
    ensures src in h1.tpls && h1.tpls[src] == h.tpls[src]
    ensures forall u | u in Below(src, h.tpls, h.brk) ::
      u in h.tpls && u in h1.tpls && h1.tpls[u] == h.tpls[u] && Below(u, h1.tpls, h1.brk) == Below(u, h.tpls, h.brk)
  {
    hide Reach, Tree;
    BelowNothing(src, h.tpls, h.brk);
    forall u | u in Below(src, h.tpls, h.brk)
      ensures u in h.tpls && u in h1.tpls && h1.tpls[u] == h.tpls[u]
      ensures Below(u, h1.tpls, h1.brk) == Below(u, h.tpls, h.brk)
    {
      BelowTrans(src, u, h.tpls, h.brk);
      BelowKept(u, h.tpls, h.brk, h1.tpls, h1.brk);
    }
  }

  lemma PreparedKept(h: Heap, c: Ptr, src: Ptr, n: nat, k: nat, corr: Match, h1: Heap, d: Ptr, h2: Heap)
    requires Tree(h.tpls, h.brk) && src in h.tpls && Copying(h, c, src, n, k, corr, h1) && n < |h.tpls[src].first|
    requires Tree(h1.tpls, h1.brk) && Prepared(h1, c, h.tpls[src].first[n], d, h2)
    ensures Kept(h, c, h2) && d !in h1.tpls && d !in h.tpls && d < h2.brk && h.brk <= d == h1.brk
    ensures d in h2.tpls && Blank(d, h2.tpls[d])
  {
    hide WithSection, Initial, AddedText;
    KeptTrans(h, c, h1, c, h2);
  }

  /** The next section can be copied into the one just prepared for it. */
  lemma ChildReady(h: Heap, c: Ptr, src: Ptr, n: nat, k: nat, corr: Match, h1: Heap, d: Ptr, h2: Heap, top: Ptr)
    requires CopyReady(h, c, src, top) && Copying(h, c, src, n, k, corr, h1) && n < |h.tpls[src].first|
    requires Tree(h1.tpls, h1.brk) && Prepared(h1, c, h.tpls[src].first[n], d, h2) && Tree(h2.tpls, h2.brk)
    ensures h.tpls[src].first[n] in h.tpls[src].first
    ensures CopyReady(h2, d, h.tpls[src].first[n].tpl, top) && src < h.tpls[src].first[n].tpl
    ensures Below(h.tpls[src].first[n].tpl, h2.tpls, h2.brk) == Below(h.tpls[src].first[n].tpl, h.tpls, h.brk)
  {
    hide Copying, Prepared, Kept, Blank, Below;
    PreparedKept(h, c, src, n, k, corr, h1, d, h2);
    BelowNext(src, n, h.tpls, h.brk);
    BelowAll(src, h.tpls, h.brk);
    var a := h.tpls[src].first[n].tpl;
    BelowNothing(a, h.tpls, h.brk);
    OldTreeKept(h, c, src, h2);
  }

  lemma ChildCopied(h: Heap, c: Ptr, src: Ptr, n: nat, corr: Match, h1: Heap, d: Ptr, h2: Heap, b: Match, h3: Heap)
    requires Tree(h.tpls, h.brk) && src in h.tpls && n < |h.tpls[src].first|
    requires Copying(h, c, src, n, h.tpls[src].first[n].preceding, corr, h1)
    requires Tree(h1.tpls, h1.brk) && Prepared(h1, c, h.tpls[src].first[n], d, h2) && ListsThere(h2)
    requires h.tpls[src].first[n].tpl in b && b[h.tpls[src].first[n].tpl] == d && Kept(h2, d, h3)
    requires d != c && d !in h1.tpls && corr.Keys !! b.Keys && ListsThere(h1) && |h1.tpls[c].sections| == BUCKETS
    ensures c in h3.tpls && NodesDone(h.tpls[src], n + 1, h.tpls[src].first[n].preceding, h3.tpls[c])
    ensures SameSections(h.tpls[src].first, h3.tpls[c].first, n + 1, corr + b, h3.added, h3.chunks)
  {
    hide AddedText, FieldsUpTo, Bodies, Links, Separate, BelowFirst, Tree, Blank, ListsThere;
    var r, q1, q3 := h.tpls[src], h1.tpls[c], h3.tpls[c];
    var cell := r.first[n];
    KeptTrans(h1, c, h2, d, h3);
    SectionChained(q1, cell.key, d);
    SameSectionsKept(r.first, q1.first, n, corr, h1, c, h3, corr + b);
    AddedTextSame(d, h2, d, h3);
    AddedTextSame(cell.tpl, h2, d, h3);
  }

  lemma SectionChained(r: Tpl, key: Bytes, d: Ptr)
    ensures |r.sections| == BUCKETS ==> WithSection(r, key, d).first == r.first + [SectionCell(key, d, |r.head|)]
    ensures WithSection(r, key, d).head == r.head && WithSection(r, key, d).fields == r.fields
  {
  }

  lemma AddedTextSame(t: Ptr, h: Heap, c: Ptr, h': Heap)
    requires ListsThere(h) && Kept(h, c, h') && t in h.added
    ensures t in h'.added && AddedText(h'.added[t], h'.chunks) == AddedText(h.added[t], h.chunks)
  {
    hide AddedText;
    AddedTextFrame(h.added[t], h.chunks, h'.chunks);
  }

  lemma MatchGrows(h: Heap, c: Ptr, src: Ptr, n: nat, k: nat, corr: Match, h1: Heap, d: Ptr, b: Match, h2: Heap,
                   h3: Heap)
    requires Tree(h.tpls, h.brk) && src in h.tpls && n < |h.tpls[src].first| && SectionsOrdered(h.tpls[src])
    requires Copying(h, c, src, n, k, corr, h1) && c < h.brk && c !in Below(src, h.tpls, h.brk)
    requires Tree(h1.tpls, h1.brk) && ListsThere(h1) && Kept(h1, c, h3) && h.brk <= d == h1.brk < h2.brk
    requires h.tpls[src].first[n] in h.tpls[src].first && CopyMade(h2, d, h.tpls[src].first[n].tpl, b, h3)
    requires b.Keys == Below(h.tpls[src].first[n].tpl, h.tpls, h.brk)
    ensures corr.Keys !! b.Keys && (corr + b).Keys == BelowFirst(src, n + 1, h.tpls, h.brk)
    ensures Bodies(corr + b, h3) && Links(corr + b, h3) && Separate(corr + b, h.brk)
  {
    hide Below, BelowFirst, ListsThere, OnlyCopies, SectionsOrdered, Kept, Copying, CopyMade, Bodies, Links,
      Separate, Tree, SameBody, SameLink;
    CopyingMeans(h, c, src, n, k, corr, h1);
    MadeSeparate(h2, d, h.tpls[src].first[n].tpl, b, h3);
    NextApart(src, n, h.tpls, h.brk);
    BelowNext(src, n, h.tpls, h.brk);
    OffOriginals(h, c, src, n, corr);
    CopiesBelow(corr, h1);
    BodiesKept(corr, h1, c, h3, corr + b);
    BodiesTogether(corr, b, h.brk, d, h3);
  }

  lemma CopyingMeans(h: Heap, c: Ptr, src: Ptr, n: nat, k: nat, corr: Match, h1: Heap)
    requires Tree(h.tpls, h.brk) && src in h.tpls && Copying(h, c, src, n, k, corr, h1)
    ensures n <= |h.tpls[src].first| && corr.Keys == BelowFirst(src, n, h.tpls, h.brk)
    ensures Bodies(corr, h1) && Links(corr, h1) && Separate(corr, h.brk) && Kept(h, c, h1) && c in h1.tpls
    ensures OnlyCopies(h, corr, h1)
  {
  }

  lemma MadeSeparate(h: Heap, d: Ptr, src: Ptr, b: Match, h': Heap)
    requires CopyMade(h, d, src, b, h') && d < h.brk
    ensures Separate(b, d) && Bodies(b, h') && Links(b, h')
  {
    hide Below, Bodies, Links, Kept, Tree;
  }

  lemma CopiesBelow(corr: Match, h: Heap)
    requires Bodies(corr, h) && Tree(h.tpls, h.brk)
    ensures forall u | u in corr :: corr[u] < h.brk
  {
    hide SameSections;
    forall u | u in corr ensures corr[u] < h.brk {
      assert SameBody(u, corr[u], corr, h);
    }
  }

  /** One more section copied. */
  lemma CopySectionStep(h: Heap, c: Ptr, src: Ptr, n: nat, corr: Match, h1: Heap, d: Ptr, h2: Heap, b: Match,
                        h3: Heap, top: Ptr)
    requires CopyReady(h, c, src, top) && n < |h.tpls[src].first| && SectionsOrdered(h.tpls[src])
    requires Copying(h, c, src, n, h.tpls[src].first[n].preceding, corr, h1)
    requires Tree(h1.tpls, h1.brk) && Tree(h2.tpls, h2.brk) && ListsThere(h1) && ListsThere(h2)
    requires |h1.tpls[c].sections| == BUCKETS
    requires Prepared(h1, c, h.tpls[src].first[n], d, h2)
    requires CopyMade(h2, d, h.tpls[src].first[n].tpl, b, h3)
    ensures Copying(h, c, src, n + 1, h.tpls[src].first[n].preceding, corr + b, h3)
  {
    hide Below, BelowFirst, SameSections, FieldsUpTo, GoodName, AddedText, ListsThere, SectionsOrdered, Kept,
      NodesDone, Bodies,
      Links, Separate, Blank, WithSection, LinksDown;
    var k := h.tpls[src].first[n].preceding;
    ChildReady(h, c, src, n, k, corr, h1, d, h2, top);
    PreparedKept(h, c, src, n, k, corr, h1, d, h2);
    KeptTrans(h1, c, h2, d, h3);
    KeptTrans(h, c, h1, c, h3);
    assert h.brk <= d;
    MatchGrows(h, c, src, n, k, corr, h1, d, b, h2, h3);
    ChildCopied(h, c, src, n, corr, h1, d, h2, b, h3);
    CopiesTogether(h, corr, h1, h.tpls[src].first[n].tpl, d, b, h2, h3);
  }

  lemma CopiesTogether(h: Heap, corr: Match, h1: Heap, a: Ptr, d: Ptr, b: Match, h2: Heap, h3: Heap)
    requires OnlyCopies(h, corr, h1) && OnlyCopies(h2, b, h3) && h2.tpls.Keys == h1.tpls.Keys + {d}
    requires a in b && b[a] == d && corr.Keys !! b.Keys
    ensures OnlyCopies(h, corr + b, h3)
  {
    forall t | t in h3.tpls && t !in h.tpls ensures t in (corr + b).Values {
      if t in corr.Values {
        var u :| u in corr && corr[u] == t;
        assert (corr + b)[u] == t;
      } else {
        assert t !in h2.tpls || t == d;
        assert t in b.Values;
        var u :| u in b && b[u] == t;
        assert (corr + b)[u] == t;
      }
    }
  }

  lemma RelinkedKept(h: Heap, c: Ptr, h': Heap)
    requires Relinked(h, c, h')
    ensures Kept(h, c, h')
  {
  }

  lemma RootBody(h: Heap, c: Ptr, src: Ptr, corr: Match, h4: Heap, h5: Heap)
    requires Tree(h.tpls, h.brk) && src in h.tpls && FieldsIndexed(h.tpls[src]) && src != c
    requires Copying(h, c, src, |h.tpls[src].first|, |h.tpls[src].head|, corr, h4) && ListsThere(h4)
    requires Relinked(h4, c, h5) && src !in corr
    ensures SameBody(src, c, corr[src := c], h5)
  {
    hide BelowFirst, Bodies, Links, Separate, FieldsIndexed, Tree, FieldsUpTo, AddedText, SameSections, ListsThere,
      GoodName;
    AllNodesCopied(h4.tpls[c], h.tpls[src]);
    RelinkedKept(h4, c, h5);
    SameSectionsKept(h.tpls[src].first, h4.tpls[c].first, |h.tpls[src].first|, corr, h4, c, h5, corr[src := c]);
    assert h5.tpls[src] == h.tpls[src];
  }

  /** All sections and nodes are copied: with the root, the correspondence is complete. */
  lemma FinishShape(h: Heap, c: Ptr, src: Ptr, corr: Match, h4: Heap, h5: Heap, top: Ptr)
    requires CopyReady(h, c, src, top) && FieldsIndexed(h.tpls[src])
    requires Copying(h, c, src, |h.tpls[src].first|, |h.tpls[src].head|, corr, h4)
    requires Tree(h5.tpls, h5.brk) && ListsThere(h4) && Relinked(h4, c, h5)
    ensures CopyShape(src, c, corr[src := c], h5) && src !in corr && c != src && Kept(h, c, h5)
    ensures Below(src, h5.tpls, h5.brk) == Below(src, h.tpls, h.brk)
    ensures BelowFirst(src, |h.tpls[src].first|, h.tpls, h.brk) == corr.Keys
    ensures forall u | u in corr :: SameBody(u, corr[u], corr[src := c], h5) && SameLink(u, corr[u], corr[src := c], h5)
    ensures c < h.brk && Separate(corr, h.brk) && OnlyCopies(h, corr, h5)
  {
    hide Below, BelowFirst, Copying, Bodies, Links, FieldsIndexed, Tree, SameBody, SameLink, Kept, Relinked,
      LinksDown, ListsThere, Blank;
    assert c < h.brk by { TreeBelow(h, c); }
    CopyingMeans(h, c, src, |h.tpls[src].first|, |h.tpls[src].head|, corr, h4);
    BelowAll(src, h.tpls, h.brk);
    BelowNothing(src, h.tpls, h.brk);
    OffOriginals(h, c, src, |h.tpls[src].first|, corr);
    RelinkedKept(h4, c, h5);
    KeptTrans(h, c, h4, c, h5);
    OldTreeKept(h, c, src, h5);
    BodiesKept(corr, h4, c, h5, corr[src := c]);
    RootBody(h, c, src, corr, h4, h5);
    RelinkedThere(h4, c, h5);
    assert Bodies(corr[src := c], h5) by { BodiesFrom(corr[src := c], h5); }
  }

  lemma TreeBelow(h: Heap, c: Ptr)
    requires Tree(h.tpls, h.brk) && c in h.tpls
    ensures c < h.brk
  {
  }

  lemma RelinkedThere(h: Heap, c: Ptr, h': Heap)
    requires Relinked(h, c, h')
    ensures c in h.tpls && c in h'.tpls && h'.tpls.Keys == h.tpls.Keys
  {
  }

  lemma BodiesFrom(corr: Match, h: Heap)
    requires forall u | u in corr :: SameBody(u, corr[u], corr, h)
    ensures Bodies(corr, h)
  {
  }

  lemma BodyRelinked(u: Ptr, v: Ptr, corr: Match, h: Heap, c: Ptr, h': Heap)
    requires Relinked(h, c, h')
    ensures SameBody(u, v, corr, h) ==> SameBody(u, v, corr, h')
    ensures SameLink(u, v, corr, h) && u != c && v != c ==> SameLink(u, v, corr, h')
  {
    hide AddedText;
  }

  /** With the selection adjusted, the copy is made. */
  lemma FinishLinks(h: Heap, c: Ptr, src: Ptr, corr: Match, h5: Heap, h6: Heap)
    requires Tree(h.tpls, h.brk) && src in h.tpls && c !in Below(src, h.tpls, h.brk) && LinksDown(src, h.tpls, h.brk)
    requires CopyShape(src, c, corr[src := c], h5) && src !in corr && c != src && Kept(h, c, h5) && c < h.brk
    requires Separate(corr, h.brk)
    requires corr.Keys == BelowFirst(src, |h.tpls[src].first|, h.tpls, h.brk)
    requires forall u | u in corr ::
      SameBody(u, corr[u], corr[src := c], h5) && SameLink(u, corr[u], corr[src := c], h5)
    requires Relinked(h5, c, h6)
    requires h6.tpls[c].tpl == Adjusted(src, c, c, corr.Keys, corr[src := c], h5) && OnlyCopies(h, corr, h5)
    ensures CopyMade(h, c, src, corr[src := c], h6)
  {
    hide Below, BelowFirst, SameBody, SameLink, Tree, Kept, Relinked, Adjusted, CopyShape, LinksDown, Bodies, Links;
    var corr' := corr[src := c];
    RelinkedKept(h5, c, h6);
    KeptTrans(h, c, h5, c, h6);
    OffOriginals(h, c, src, |h.tpls[src].first|, corr);
    ShapeMeans(src, c, corr', h5);
    forall u | u in corr' ensures SameBody(u, corr'[u], corr', h6) {
      BodyRelinked(u, corr'[u], corr', h5, c, h6);
    }
    forall u | u in corr ensures SameLink(u, corr'[u], corr', h6) {
      BodyRelinked(u, corr'[u], corr', h5, c, h6);
    }
    BelowAll(src, h.tpls, h.brk);
    RootLink(h, c, src, corr, h5, h6);
    RootOnly(h, c, src, corr, h5, h6);
    BodiesFrom(corr', h6);
    LinksFrom(corr', h6);
  }

  lemma RootOnly(h: Heap, c: Ptr, src: Ptr, corr: Match, h5: Heap, h6: Heap)
    requires OnlyCopies(h, corr, h5) && Relinked(h5, c, h6) && src !in corr
    ensures OnlyCopies(h, corr[src := c], h6)
  {
    forall t | t in h6.tpls && t !in h.tpls ensures t in corr[src := c].Values {
      assert t in corr.Values;
      var u :| u in corr && corr[u] == t;
      assert corr[src := c][u] == t;
    }
  }

  lemma LinksFrom(corr: Match, h: Heap)
    requires forall u | u in corr :: SameLink(u, corr[u], corr, h)
    ensures Links(corr, h)
  {
  }

  lemma ShapeMeans(src: Ptr, c: Ptr, corr: Match, h: Heap)
    requires CopyShape(src, c, corr, h)
    ensures forall u | u in corr :: SameBody(u, corr[u], corr, h)
    ensures Tree(h.tpls, h.brk) && src in h.tpls && corr.Keys == Below(src, h.tpls, h.brk) && c !in corr
  {
    hide Below, SameBody;
  }

  lemma RootLink(h: Heap, c: Ptr, src: Ptr, corr: Match, h5: Heap, h6: Heap)
    requires Tree(h.tpls, h.brk) && src in h.tpls && LinksDown(src, h.tpls, h.brk) && Kept(h, c, h5) && c != src
    requires Below(src, h.tpls, h.brk) == {src} + corr.Keys && src in Below(src, h.tpls, h.brk)
    requires Relinked(h5, c, h6) && h6.tpls[c].tpl == Adjusted(src, c, c, corr.Keys, corr[src := c], h5)
    ensures SameLink(src, c, corr[src := c], h6)
  {
    hide Below, Tree;
  }

  /** What the loop of the copy needs to know of its two templates. */
  lemma CopyFacts(st: Store, h: Heap, c: Ptr, src: Ptr, n: nat, k: nat, corr: Match, top: Ptr)
    requires st.Valid() && CopyReady(h, c, src, top) && Copying(h, c, src, n, k, corr, HeapOf(st))
    ensures c in st.tpls && src in st.tpls && c != src && st.tpls[src] == h.tpls[src] && c < h.brk
    ensures |st.tpls[src].fields| == BUCKETS && k <= |st.tpls[src].head| && n <= |st.tpls[src].first|
    ensures |st.tpls[c].sections| == BUCKETS
    ensures st.tpls[c] == NodesUpTo(st.tpls[c], st.tpls[src], k)
    ensures Tree(st.tpls, st.brk) && ListsThere(HeapOf(st)) && FieldsIndexed(st.tpls[src])
    ensures SectionsOrdered(st.tpls[src])
    ensures n < |st.tpls[src].first| ==>
      var cell := st.tpls[src].first[n];
      && k <= cell.preceding <= |st.tpls[src].head| && GoodName(cell.key)
      && cell.tpl in st.tpls && cell.tpl in st.added && cell.tpl != c
  {
    hide FieldsIndexed, FieldsUpTo, SameSections, Bodies, Links, Separate, Linked, SoundStore, SectionsChained,
      GoodName, BelowFirst, Below;
    BelowNothing(src, h.tpls, h.brk);
    WholeOf(st.tpls, st.chunks, st.brk, st.added, st.owner, src);
    WholeOf(st.tpls, st.chunks, st.brk, st.added, st.owner, c);
    ListInChunks(st.tpls, st.chunks, st.brk, st.added, st.owner);
    if n < |h.tpls[src].first| {
      assert h.tpls[src].first[n] in h.tpls[src].first;
      BelowNext(src, n, h.tpls, h.brk);
      BelowNothing(h.tpls[src].first[n].tpl, h.tpls, h.brk);
    }
  }

  lemma NextIsNew(st: Store, h: Heap, c: Ptr, src: Ptr, n: nat, k: nat, corr: Match)
    requires st.Valid() && Tree(h.tpls, h.brk) && src in h.tpls && Copying(h, c, src, n, k, corr, HeapOf(st))
    requires src in st.tpls && st.tpls[src] == h.tpls[src] && n < |h.tpls[src].first|
    ensures c in st.tpls && SectionFor(st.tpls[c], h.tpls[src].first[n].key) == None
  {
    hide FieldsIndexed, FieldsUpTo, SameSections, Bodies, Links, Separate, Linked, SoundStore, SectionsChained,
      SectionsOrdered, GoodName,
      BelowFirst, SectionFor;
    WholeOf(st.tpls, st.chunks, st.brk, st.added, st.owner, src);
    WholeOf(st.tpls, st.chunks, st.brk, st.added, st.owner, c);
    NextSectionIsNew(h.tpls[src], st.tpls[c], n);
  }

  /** Copy the nodes up to the next section, and then that section. */
  method CopySection(st: Store, c: Ptr, src: Ptr, n: nat, k: nat, ghost h: Heap, ghost corr: Match, ghost top: Ptr)
      returns (ghost corr': Match)
    requires st.Valid() && CopyReady(h, c, src, top) && Copying(h, c, src, n, k, corr, HeapOf(st))
    requires src in st.tpls && st.tpls[src] == h.tpls[src] && n < |st.tpls[src].first|
    modifies st`tpls, st`chunks, st`brk, st`added, st`owner
    ensures st.Valid() && Copying(h, c, src, n + 1, h.tpls[src].first[n].preceding, corr', HeapOf(st))
    decreases top - src, 0
  {
    hide SoundStore, CopyReady, Copying, Tree, FieldsIndexed, SectionsOrdered, GoodName, SectionFor, FieldsUpTo,
      Prepared, CopyMade,
      ListsThere, Kept, Blank, Below;
    CopyFacts(st, h, c, src, n, k, corr, top);
    assert Tree(h.tpls, h.brk) && c !in Below(src, h.tpls, h.brk) && src < top by { ReadyMeans(h, c, src, top); }
    ghost var r := st.tpls[src];
    ghost var h0 := HeapOf(st);
    CopyNodes(st, c, src, k, st.tpls[src].first[n].preceding, st.tpls[c]);
    ghost var h1 := HeapOf(st);
    CopyNodesStep(h, c, src, n, k, corr, h0, r.first[n].preceding, h1);
    CopyFacts(st, h, c, src, n, r.first[n].preceding, corr, top);
    NextIsNew(st, h, c, src, n, r.first[n].preceding, corr);
    var d := PrepareSection(st, c, st.tpls[src].first[n]);
    ghost var h2 := HeapOf(st);
    StoreFacts(st);
    ChildReady(h, c, src, n, r.first[n].preceding, corr, h1, d, h2, top);
    PreparedKeeps(h1, c, r.first[n], d, h2, src);
    ghost var b := CopyTemplate(st, d, st.tpls[src].first[n].tpl, top);
    CopySectionStep(h, c, src, n, corr, h1, d, h2, b, HeapOf(st), top);
    corr' := corr + b;
  }

  lemma ReadyMeans(h: Heap, c: Ptr, src: Ptr, top: Ptr)
    requires CopyReady(h, c, src, top)
    ensures Tree(h.tpls, h.brk) && c in h.tpls && src in h.tpls && c !in Below(src, h.tpls, h.brk) && src < top
    ensures LinksDown(src, h.tpls, h.brk)
  {
    BelowNothing(src, h.tpls, h.brk);
  }

  lemma PreparedKeeps(h: Heap, c: Ptr, cell: SectionCell, d: Ptr, h': Heap, src: Ptr)
    requires c in h.tpls && Prepared(h, c, cell, d, h') && src in h.tpls && src != c
    ensures src in h'.tpls && h'.tpls[src] == h.tpls[src]
  {
  }

  lemma StoreFacts(st: Store)
    requires st.Valid()
    ensures Tree(st.tpls, st.brk) && ListsThere(HeapOf(st))
  {
    ListInChunks(st.tpls, st.chunks, st.brk, st.added, st.owner);
  }

  /** `tpl_copy` into an empty template. */
  method CopyTemplate(st: Store, c: Ptr, src: Ptr, ghost top: Ptr) returns (ghost corr: Match)
    requires st.Valid() && CopyReady(HeapOf(st), c, src, top)
    modifies st`tpls, st`chunks, st`brk, st`added, st`owner
    ensures st.Valid() && CopyMade(old(HeapOf(st)), c, src, corr, HeapOf(st))
    decreases top - src, 1
  {
    hide SoundStore, CopyReady, Copying, Tree, FieldsIndexed, SectionsOrdered, GoodName, SectionFor, FieldsUpTo,
      Prepared, CopyMade,
      ListsThere, Kept, Blank, Below, BelowFirst, CopyShape, Relinked, LinksDown, SameBody, SameLink, Separate,
      Adjusted;
    ghost var h := HeapOf(st);
    ReadyMeans(h, c, src, top);
    WholeOf(st.tpls, st.chunks, st.brk, st.added, st.owner, src);
    CopyStart(h, c, src, top);
    corr := map[];
    var n, k: nat := 0, 0;
    while n < |st.tpls[src].first|
      invariant src in st.tpls && st.tpls[src] == h.tpls[src] && 0 <= n <= |h.tpls[src].first|
      invariant st.Valid() && Copying(h, c, src, n, k, corr, HeapOf(st))
      decreases |h.tpls[src].first| - n
    {
      var next := st.tpls[src].first[n].preceding;
      corr := CopySection(st, c, src, n, k, h, corr, top);
      k := next;
      n := n + 1;
      CopyFacts(st, h, c, src, n, k, corr, top);
    }
    CopyFacts(st, h, c, src, n, k, corr, top);
    ghost var h3 := HeapOf(st);
    CopyNodes(st, c, src, k, |st.tpls[src].head|, st.tpls[c]);
    ghost var h4 := HeapOf(st);
    CopyNodesStep(h, c, src, n, k, corr, h3, |h.tpls[src].head|, h4);
    CopyFacts(st, h, c, src, n, |h.tpls[src].head|, corr, top);
    RelinkedSound(st, c, c);
    st.tpls := st.tpls[c := st.tpls[c].(tpl := c)];
    ghost var h5 := HeapOf(st);
    assert Relinked(h4, c, h5) by { RelinkedBy(h4, c, c); }
    StoreFacts(st);
    FinishShape(h, c, src, corr, h4, h5, top);
    assert Relinked(h5, c, h5) by { RelinkedSelf(h5, c); }
    assert st.tpls[src] == h.tpls[src];
    AdjustSelection(st, c, src, src, c, corr[src := c], h5);
    SameBelowFirst(h, src, h5);
    FinishLinks(h, c, src, corr, h5, HeapOf(st));
    corr := corr[src := c];
  }

  lemma RelinkedBy(h: Heap, c: Ptr, link: Ptr)
    requires c in h.tpls
    ensures Relinked(h, c, h.(tpls := h.tpls[c := h.tpls[c].(tpl := link)]))
  {
  }

  lemma RelinkedSelf(h: Heap, c: Ptr)
    requires c in h.tpls
    ensures Relinked(h, c, h)
  {
    assert h.tpls[c := h.tpls[c].(tpl := h.tpls[c].tpl)] == h.tpls;
  }

  lemma SameBelowFirst(h: Heap, src: Ptr, h': Heap)
    requires Tree(h.tpls, h.brk) && Tree(h'.tpls, h'.brk) && src in h.tpls && src in h'.tpls
    requires h'.tpls[src].first == h.tpls[src].first && Below(src, h'.tpls, h'.brk) == Below(src, h.tpls, h.brk)
    ensures BelowFirst(src, |h.tpls[src].first|, h'.tpls, h'.brk) == BelowFirst(src, |h.tpls[src].first|, h.tpls, h.brk)
  {
    hide Below, BelowFirst;
    BelowAll(src, h.tpls, h.brk);
    BelowAll(src, h'.tpls, h'.brk);
  }
}
