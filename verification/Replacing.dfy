/** Replacing a whole section by given bytes. */
module Replacing {
  import opened ByteStrings
  import opened Chains
  import opened TemplateObjects
  import opened Templates
  import opened Weaving
  import opened Selecting
  import opened Appending

  /** The template of a replaced section: one text node, and one added node at `n`. */
  function Replaced(c: Ptr, parent: Ptr, val: Bytes, n: Ptr): Tpl {
    Initial(c).(parent := Some(parent), head := [TextNode(val)], addedHead := Some(n), addedTail := AtNext(n))
  }

  function NodeLen(n: Node): nat {
    if n.TextNode? then |n.text| else 0
  }

  predicate SingleField(r: Tpl, val: Bytes) {
    r.first == [] && |r.head| == 1 && r.head[0].FieldNode? && val == []
  }

  /** A template whose only content is one text node has empty tables, so it is as good as new. */
  lemma SingleTextIsPlain(r: Tpl, c: Ptr)
    requires FieldsIndexed(r) && SectionsIndexed(r) && r.first == [] && |r.head| == 1 && r.head[0].TextNode?
    requires r.tpl == c
    ensures r == Initial(c).(parent := r.parent, head := r.head, addedHead := r.addedHead, addedTail := r.addedTail)
  {
    assert Seen(r.head[..0], 0) == 0;
    forall b | 0 <= b < BUCKETS ensures r.fields[b] == [] && r.sections[b] == [] {
      assert r.head[..|r.head| - 1] == [];
      assert Seen(r.head, b) == Seen([], b) == 0;
      assert SectionsIn(r.first, b) == [];
    }
    assert r.fields == seq(BUCKETS, b => []);
    assert r.sections == seq(BUCKETS, b => []);
  }

  lemma PlainIndexed(c: Ptr, parent: Option<Ptr>, text: Bytes, h: Option<Ptr>, link: Link)
    ensures var r := Initial(c).(parent := parent, head := [TextNode(text)], addedHead := h, addedTail := link);
            FieldsIndexed(r) && SectionsIndexed(r)
  {
    var r := Initial(c).(parent := parent, head := [TextNode(text)], addedHead := h, addedTail := link);
    assert r.head[..|r.head| - 1] == [];
    assert forall b :: Seen(r.head, b) == Seen([], b) == 0;
  }

  /** First half of `tpl_set_section_ex`: the content becomes the single text node `val`. */
  method ReplaceContent(st: Store, c: Ptr, sel: Ptr, val: Bytes)
    requires c in st.tpls && c in st.added && !SingleField(st.tpls[c], val)
    requires FieldsIndexed(st.tpls[c]) && SectionsIndexed(st.tpls[c]) && Linked(c, st.tpls[c], st.added[c], st.chunks)
    requires st.tpls[c].tpl == c && st.tpls[c].parent == Some(sel)
    modifies st`tpls, st`added
    ensures exists h, link ::
      && var r := Initial(c).(parent := Some(sel), head := [TextNode(val)], addedHead := h, addedTail := link);
      st.tpls == old(st.tpls)[c := r]
    ensures st.added == old(st.added) || st.added == old(st.added)[c := []]
    ensures c in st.tpls && c in st.added && Linked(c, st.tpls[c], st.added[c], st.chunks)
  {
    hide FieldsIndexed, SectionsIndexed;
    var r := st.tpls[c];
    if r.first != [] || r.head == [] || |r.head| != 1 || NodeLen(r.head[0]) != |val| {
      st.Init(c);
      st.tpls := st.tpls[c := st.tpls[c].(parent := Some(sel), head := [TextNode(val)])];
      ghost var fresh0 := Initial(c).(parent := Some(sel), head := [TextNode(val)], addedHead := None,
        addedTail := AtHead(c));
      assert st.tpls == old(st.tpls)[c := fresh0];
    } else {
      SingleTextIsPlain(r, c);
      st.tpls := st.tpls[c := r.(head := [TextNode(val)])];
    }
  }

  /** The nodes of `rest` are chained from `next` on, to the end of the list. */
  ghost predicate Chained(next: Option<Ptr>, rest: seq<Ptr>, chunks: map<Ptr, Chunk>) {
    && (forall i | 0 <= i < |rest| :: rest[i] in chunks)
    && next == (if rest == [] then None else Some(rest[0]))
    && (forall i, j | 0 <= i && j == i + 1 < |rest| :: chunks[rest[i]].next == Some(rest[j]))
    && (rest != [] ==> chunks[rest[|rest| - 1]].next == None)
  }

  /** Drop every node behind the one at `n`. */
  method DropRest(st: Store, n: Ptr, ghost rest: seq<Ptr>)
    requires n in st.chunks && n !in rest && Chained(st.chunks[n].next, rest, st.chunks)
    modifies st`chunks
    ensures st.chunks == old(st.chunks)[n := Chunk(old(st.chunks)[n].val, None)]
  {
    ghost var left := rest;
    while st.chunks[n].next.Some?
      invariant n in st.chunks && n !in left && Chained(st.chunks[n].next, left, st.chunks)
      invariant st.chunks == old(st.chunks)[n := Chunk(old(st.chunks)[n].val, st.chunks[n].next)]
      decreases |left|
    {
      var deleted := st.chunks[n].next.value;
      st.chunks := st.chunks[n := st.chunks[n].(next := st.chunks[deleted].next)];
      left := left[1..];
    }
  }

  lemma LinkedIsChained(t: Ptr, r: Tpl, list: seq<Ptr>, chunks: map<Ptr, Chunk>, n: Ptr, val: Bytes)
    requires Linked(t, r, list, chunks)
    ensures n !in list ==> Chained(r.addedHead, list, chunks[n := Chunk(val, r.addedHead)])
    ensures list != [] && n == list[0] ==>
      list[0] in chunks && n !in list[1..] && Chained(chunks[n].next, list[1..], chunks[n := chunks[n].(val := val)])
  {
  }

  /** The node that is to hold the value, with what is behind it in `rest`: the first node of the list if its
      length fits, else a new one before it. */
  method FirstOrNew(st: Store, c: Ptr, val: Bytes) returns (n: Ptr, ghost rest: seq<Ptr>)
    requires c in st.tpls && c in st.added && Linked(c, st.tpls[c], st.added[c], st.chunks)
    requires forall x | x in st.chunks :: x < st.brk
    modifies st`tpls, st`chunks, st`brk
    ensures n in st.chunks && n !in rest && Chained(st.chunks[n].next, rest, st.chunks)
    ensures st.tpls == old(st.tpls)[c := old(st.tpls)[c].(addedHead := Some(n))]
    ensures st.chunks == old(st.chunks)[n := Chunk(val, st.chunks[n].next)]
    ensures n in old(st.added[c]) || n == old(st.brk)
    ensures n in old(st.added[c]) ==> n in old(st.chunks)
    ensures st.brk == old(st.brk) + (if n in old(st.added[c]) then 0 else 1)
  {
    hide Chained;
    var first := st.tpls[c].addedHead;
    rest := st.added[c];
    if first == None || |st.chunks[first.value].val| != |val| {
      n := st.brk;
      LinkedIsChained(c, st.tpls[c], rest, st.chunks, n, val);
      st.brk := st.brk + 1;
      st.chunks := st.chunks[n := Chunk([], first)];
      st.tpls := st.tpls[c := st.tpls[c].(addedHead := Some(n))];
    } else {
      n := first.value;
      LinkedIsChained(c, st.tpls[c], rest, st.chunks, n, val);
      rest := rest[1..];
    }
    st.chunks := st.chunks[n := st.chunks[n].(val := val)];
    assert st.chunks == old(st.chunks)[n := Chunk(val, st.chunks[n].next)];
    assert st.tpls == old(st.tpls)[c := old(st.tpls)[c].(addedHead := Some(n))];
  }

  /** Second half: the added list becomes the single node `val`, reusing the first node if its length fits. */
  method ReplaceAdded(st: Store, c: Ptr, val: Bytes) returns (n: Ptr)
    requires c in st.tpls && c in st.added && Linked(c, st.tpls[c], st.added[c], st.chunks)
    requires forall x | x in st.chunks :: x < st.brk
    modifies st`tpls, st`chunks, st`brk, st`added, st`owner
    ensures st.tpls == old(st.tpls)[c := old(st.tpls)[c].(addedHead := Some(n), addedTail := AtNext(n))]
    ensures st.chunks == old(st.chunks)[n := Chunk(val, None)] && st.added == old(st.added)[c := [n]]
    ensures st.owner == old(st.owner)[n := c]
    ensures n in old(st.added[c]) || n == old(st.brk)
    ensures n in old(st.added[c]) ==> n in old(st.chunks)
    ensures st.brk == old(st.brk) + (if n in old(st.added[c]) then 0 else 1)
  {
    hide Chained, Linked;
    ghost var rest;
    n, rest := FirstOrNew(st, c, val);
    DropRest(st, n, rest);
    st.tpls := st.tpls[c := st.tpls[c].(addedTail := AtNext(n))];
    st.added := st.added[c := [n]];
    st.owner := st.owner[n := c];
  }

  lemma WholeReplaced(c: Ptr, parent: Ptr, val: Bytes, n: Ptr, chunks: map<Ptr, Chunk>)
    requires n in chunks && chunks[n] == Chunk(val, None)
    ensures Whole(c, Replaced(c, parent, val, n), [n], chunks)
  {
    PlainIndexed(c, Some(parent), val, Some(n), AtNext(n));
  }

  /** Another template is as whole as it was: the nodes of its list are not those of the list replaced. */
  lemma OtherWhole(tpls: Tpls, chunks: map<Ptr, Chunk>, brk: Ptr, added: Lists, owner: map<Ptr, Ptr>,
                   c: Ptr, t: Ptr, n: Ptr, chunks': map<Ptr, Chunk>)
    requires SoundStore(tpls, chunks, brk, added, owner) && c in tpls && t in tpls && t != c
    requires n in added[c] || n == brk
    requires forall x | x in chunks && x !in added[c] && x != n :: x in chunks' && chunks'[x] == chunks[x]
    ensures t in added && Whole(t, tpls[t], added[t], chunks') && n !in added[t]
  {
    hide Whole, Owned, SoundStore, Tree, FieldsIndexed, SectionsIndexed, Linked;
    ListInChunks(tpls, chunks, brk, added, owner);
    OwnedApart(added, owner, t, c);
    WholeOf(tpls, chunks, brk, added, owner, t);
    WholeFrame(t, tpls[t], added[t], chunks, chunks');
  }

  lemma OwnedReplaced(added: Lists, owner: map<Ptr, Ptr>, c: Ptr, n: Ptr)
    requires Owned(added, owner) && forall t | t in added && t != c :: n !in added[t]
    ensures Owned(added[c := [n]], owner[n := c])
  {
    forall t, i | t in added && t != c && 0 <= i < |added[t]| ensures added[t][i] != n {
      assert added[t][i] in added[t];
    }
  }

  /** The tree of a store in which the template at `c` has no sections any more. */
  lemma TreeReplaced(tpls: Tpls, brk: Ptr, brk': Ptr, c: Ptr, r: Tpl)
    requires Tree(tpls, brk) && Rooted(tpls) && brk <= brk' && c in tpls && r.first == [] && r.parent == tpls[c].parent
    ensures Tree(tpls[c := r], brk') && Rooted(tpls[c := r])
  {
    hide Rooted;
    RootedSame(tpls, tpls[c := r]);
    assert forall t, s | t in tpls[c := r] && s in tpls[c := r][t].first :: t in tpls && s in tpls[t].first;
  }

  /** The store after the list and the content of the template at `c` were replaced. */
  lemma ReplacedSound(tpls: Tpls, chunks: map<Ptr, Chunk>, brk: Ptr, added: Lists, owner: map<Ptr, Ptr>,
                      c: Ptr, sel: Ptr, val: Bytes, n: Ptr, chunks': map<Ptr, Chunk>, brk': Ptr)
    requires SoundStore(tpls, chunks, brk, added, owner) && c in tpls && tpls[c].parent == Some(sel)
    requires n in chunks' && chunks'[n] == Chunk(val, None) && (n in added[c] || n == brk)
    requires brk' == brk + (if n in added[c] then 0 else 1)
    requires chunks'.Keys == chunks.Keys + {n}
    requires forall x | x in chunks && x !in added[c] && x != n :: chunks'[x] == chunks[x]
    ensures SoundStore(tpls[c := Replaced(c, sel, val, n)], chunks', brk', added[c := [n]], owner[n := c])
  {
    hide Whole, Replaced, Rooted, Tree, Owned;
    var tpls', added' := tpls[c := Replaced(c, sel, val, n)], added[c := [n]];
    ListInStore(tpls, chunks, brk, added, owner, c);
    WholeReplaced(c, sel, val, n, chunks');
    ReplacedShape(c, sel, val, n);
    forall t | t in tpls && t != c ensures Whole(t, tpls'[t], added'[t], chunks') && n !in added[t] {
      OtherWhole(tpls, chunks, brk, added, owner, c, t, n, chunks');
    }
    OwnedReplaced(added, owner, c, n);
    TreeReplaced(tpls, brk, brk', c, Replaced(c, sel, val, n));
  }

  lemma ReplacedShape(c: Ptr, sel: Ptr, val: Bytes, n: Ptr)
    ensures Replaced(c, sel, val, n).first == [] && Replaced(c, sel, val, n).parent == Some(sel)
    ensures Replaced(c, sel, val, n).tpl == c
  {
  }

  /** Replacing a section next to the end of the path leaves the path as it is. */
  lemma ReplaceKeepsSelection(root: Ptr, c: Ptr, tpls: Tpls, brk: Ptr, r: Tpl)
    requires Tree(tpls, brk) && root in tpls && Selection(root, tpls) && Listed(tpls[root].tpl, c, tpls)
    requires c in tpls && r.parent == tpls[c].parent && r.tpl == c
    ensures tpls[c].tpl == c && tpls[c].parent == Some(tpls[root].tpl)
    ensures root in tpls[c := r] && Selection(root, tpls[c := r]) && Path(root, tpls[c := r]) == Path(root, tpls)
  {
    hide PathTo, Inside, Threaded, LooseOff, Listed;
    var tpls' := tpls[c := r];
    var p := Path(root, tpls);
    NextIsOffPath(root, c, tpls, brk);
    assert p[0] == root && p[|p| - 1] == tpls[root].tpl;
    PathFrame(root, tpls[root].tpl, tpls, tpls');
    ReplaceKeepsThread(p, c, tpls, r);
    ReplaceKeepsLoose(p, root, c, tpls, r);
  }

  lemma ReplaceKeepsThread(p: seq<Ptr>, c: Ptr, tpls: Tpls, r: Tpl)
    requires p != [] && Threaded(p, tpls) && c !in p && c in tpls
    ensures Threaded(p, tpls[c := r])
  {
    forall i, j | 0 <= i && j == i + 1 < |p| ensures Listed(p[i], p[j], tpls[c := r]) {
      assert Listed(p[i], p[j], tpls) && p[i] != c;
    }
    forall i, j | 0 < i && j == i + 1 < |p| ensures LinksTo(p[i], p[j], tpls[c := r]) {
      assert LinksTo(p[i], p[j], tpls) && p[i] != c;
    }
  }

  lemma ReplaceKeepsLoose(p: seq<Ptr>, root: Ptr, c: Ptr, tpls: Tpls, r: Tpl)
    requires LooseOff(p, root, tpls) && c in tpls && r.parent == tpls[c].parent && r.tpl == c
    ensures LooseOff(p, root, tpls[c := r])
  {
    hide PathTo, Inside;
    forall u { PathFrame(root, u, tpls, tpls[c := r]); }
  }

  /** The section found is not a single field that is to be replaced by nothing. */
  predicate Settable(root: Ptr, key: Bytes, val: Bytes, tpls: Tpls) {
    var sel := SelectedOf(root, tpls);
    sel in tpls ==>
      match SectionFor(tpls[sel], key)
      case None => true
      case Some(s) => s.tpl in tpls ==> !SingleField(tpls[s.tpl], val)
  }

  /** `tpl_set_section`; the code does not support an empty value for a section that is a single field. */
  method SetSection(st: Store, root: Ptr, key: Bytes, val: Bytes) returns (ok: bool)
    requires st.Valid() && root in st.tpls && Selection(root, st.tpls) && GoodName(key)
    requires Settable(root, key, val, st.tpls)
    modifies st`tpls, st`chunks, st`brk, st`added, st`owner
    ensures st.Valid() && root in st.tpls && Selection(root, st.tpls) && Path(root, st.tpls) == Path(root, old(st.tpls))
    ensures SelectedOf(root, old(st.tpls)) in old(st.tpls)
    ensures var sel := SelectedOf(root, old(st.tpls));
            var found := SectionFor(old(st.tpls)[sel], key);
            if found == None then
              && !ok && st.tpls == old(st.tpls) && st.chunks == old(st.chunks)
              && st.added == old(st.added) && st.brk == old(st.brk)
            else
              && ok
              && SectionReplaced(found.value.tpl, sel, val, old(st.tpls), st.tpls, old(st.added), st.added,
                old(st.chunks), st.chunks)
  {
    hide SoundStore, Selection, Path, FieldsIndexed, SectionsIndexed, Linked, Whole, SectionFor, Tree, Listed,
      SingleField;
    var sel := st.tpls[root].tpl;
    SelectedIsThere(root, st.tpls);
    WholeOf(st.tpls, st.chunks, st.brk, st.added, st.owner, sel);
    TreeOf(st.tpls, st.chunks, st.brk, st.added, st.owner);
    var section := st.GetSection(sel, key);
    if section == None {
      return false;
    }
    var c := section.value.tpl;
    FoundIsListed(sel, st.tpls, key);
    WholeOf(st.tpls, st.chunks, st.brk, st.added, st.owner, c);
    ghost var was, chunks, brk, added, owner := st.tpls, st.chunks, st.brk, st.added, st.owner;
    ReplaceKeepsSelection(root, c, was, brk, Initial(c).(parent := Some(sel)));
    ReplaceContent(st, c, sel, val);
    ChunksBelow(was, chunks, brk, added, owner);
    ListInStore(was, chunks, brk, added, owner, c);
    var n := ReplaceAdded(st, c, val);
    ReplacedSound(was, chunks, brk, added, owner, c, sel, val, n, st.chunks, st.brk);
    assert st.added == added[c := [n]] && st.owner == owner[n := c];
    ReplaceKeepsSelection(root, c, was, brk, Replaced(c, sel, val, n));
    assert st.tpls == was[c := Replaced(c, sel, val, n)];
    return true;
  }

  /** The section's template shows `val`, as content and as added content; nothing else is different. */
  ghost predicate SectionReplaced(c: Ptr, sel: Ptr, val: Bytes, tpls: Tpls, tpls': Tpls, added: Lists, added': Lists,
                                  chunks: map<Ptr, Chunk>, chunks': map<Ptr, Chunk>) {
    exists n ::
      && n in chunks' && chunks' == chunks[n := Chunk(val, None)] && (n in chunks ==> n in ListOf(c, added))
      && added' == added[c := [n]] && tpls' == tpls[c := Replaced(c, sel, val, n)]
  }

  lemma ChunksBelow(tpls: Tpls, chunks: map<Ptr, Chunk>, brk: Ptr, added: Lists, owner: map<Ptr, Ptr>)
    requires SoundStore(tpls, chunks, brk, added, owner)
    ensures forall x | x in chunks :: x < brk
  {
  }

  lemma ListInStore(tpls: Tpls, chunks: map<Ptr, Chunk>, brk: Ptr, added: Lists, owner: map<Ptr, Ptr>, c: Ptr)
    requires SoundStore(tpls, chunks, brk, added, owner) && c in tpls
    ensures c in added && forall x | x in added[c] :: x in chunks && x < brk
  {
    WholeOf(tpls, chunks, brk, added, owner, c);
  }

  /** A replaced section renders as the value and has it for its added content; what any other template has
      appended is as it was. */
  lemma ReplacedShows(c: Ptr, sel: Ptr, val: Bytes, tpls: Tpls, tpls': Tpls, added: Lists, added': Lists,
                      chunks: map<Ptr, Chunk>, chunks': map<Ptr, Chunk>, owner: map<Ptr, Ptr>)
    requires SectionReplaced(c, sel, val, tpls, tpls', added, added', chunks, chunks')
    requires Owned(added, owner) && c in added && forall t, x | t in added && x in added[t] :: x in chunks
    ensures c in tpls' && Rendered(tpls'[c], added', chunks') == val && AddedText(ListOf(c, added'), chunks') == val
    ensures forall t | t != c :: AddedText(ListOf(t, added'), chunks') == AddedText(ListOf(t, added), chunks)
  {
    hide Owned, AddedText, Rendered, Replaced;
    var n :| n in chunks' && chunks' == chunks[n := Chunk(val, None)] && (n in chunks ==> n in ListOf(c, added))
      && added' == added[c := [n]] && tpls' == tpls[c := Replaced(c, sel, val, n)];
    AddedTextOne(n, chunks');
    OneTextRendered(c, sel, val, n, added', chunks');
    forall t | t != c ensures AddedText(ListOf(t, added'), chunks') == AddedText(ListOf(t, added), chunks) {
      OthersText(c, n, t, val, added, chunks, owner);
    }
  }

  lemma OthersText(c: Ptr, n: Ptr, t: Ptr, val: Bytes, added: Lists, chunks: map<Ptr, Chunk>, owner: map<Ptr, Ptr>)
    requires Owned(added, owner) && c in added && (n in chunks ==> n in added[c]) && t != c
    requires forall t, x | t in added && x in added[t] :: x in chunks
    ensures AddedText(ListOf(t, added), chunks[n := Chunk(val, None)]) == AddedText(ListOf(t, added), chunks)
  {
    hide Owned;
    var list, chunks' := ListOf(t, added), chunks[n := Chunk(val, None)];
    if t in added {
      OwnedApart(added, owner, t, c);
    }
    assert n !in list;
    assert ChunkTexts(list, chunks') == ChunkTexts(list, chunks);
  }

  lemma OneTextRendered(c: Ptr, sel: Ptr, val: Bytes, n: Ptr, added: Lists, chunks: map<Ptr, Chunk>)
    ensures Rendered(Replaced(c, sel, val, n), added, chunks) == val
  {
    hide Weave, Concat, AddedText;
    var r := Replaced(c, sel, val, n);
    assert Texts(r) == [val] && Contributions(r, added, chunks) == [];
    OneText(val);
  }

  lemma OneText(val: Bytes)
    ensures Concat(Weave([val], [])) == val
  {
    ConcatSnoc([], val);
    assert [] + [val] == [val] && Concat([]) == [];
  }
}
