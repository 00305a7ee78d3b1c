/** What operations on values, links and added content leave as it is, and what a template is like when it
    has just been read. */
module Freshness {
  import opened ByteStrings
  import opened Chains
  import opened Weaving
  import opened Markup
  import opened TemplateObjects
  import opened Templates
  import opened Selecting
  import opened Setting
  import opened Appending
  import opened Correspondence
  import opened Resetting

  /** The same nodes, sections and field names; values, links and added lists may differ. */
  ghost predicate SameShape(r: Tpl, q: Tpl) {
    && q.head == r.head && q.first == r.first && q.sections == r.sections && q.parent == r.parent
    && |q.fields| == |r.fields| && forall b | 0 <= b < |r.fields| :: CellKeys(q.fields[b]) == CellKeys(r.fields[b])
  }

  ghost predicate SameShapes(tpls: Tpls, tpls': Tpls) {
    forall u | u in tpls :: u in tpls' && SameShape(tpls[u], tpls'[u])
  }

  lemma ShapesTrans(a: Tpls, b: Tpls, c: Tpls)
    requires SameShapes(a, b) && SameShapes(b, c)
    ensures SameShapes(a, c)
  {
    hide CellKeys;
  }

  lemma LinksKeepShapes(tpls: Tpls, tpls': Tpls)
    requires SameButLinks(tpls, tpls')
    ensures SameShapes(tpls, tpls')
  {
    hide CellKeys;
  }

  lemma RelistKeepsShapes(tpls: Tpls, tpls': Tpls)
    requires tpls'.Keys == tpls.Keys && forall u | u in tpls :: SameButAdded(tpls[u], tpls'[u])
    ensures SameShapes(tpls, tpls') && SameLinks(tpls, tpls')
  {
    hide CellKeys;
  }

  ghost predicate SameLinks(tpls: Tpls, tpls': Tpls) {
    tpls'.Keys == tpls.Keys && forall u | u in tpls ::
      tpls'[u].tpl == tpls[u].tpl && tpls'[u].first == tpls[u].first && tpls'[u].parent == tpls[u].parent
  }

  /** A selection depends on links, sections and parents only. */
  lemma SelectionSame(root: Ptr, tpls: Tpls, tpls': Tpls)
    requires root in tpls && SameLinks(tpls, tpls') && Selection(root, tpls)
    ensures Selection(root, tpls') && Path(root, tpls') == Path(root, tpls)
  {
    hide PathTo, Inside, Listed;
    var p := Path(root, tpls);
    forall u ensures PathTo(root, u, tpls') == PathTo(root, u, tpls)
      && (Inside(root, u, tpls') <==> Inside(root, u, tpls)) {
      PathFrame(root, u, tpls, tpls');
    }
    forall i, j | 0 <= i && j == i + 1 < |p| ensures Listed(p[i], p[j], tpls') {
      ListedSame(p[i], p[j], tpls, tpls');
    }
    forall i, j | 0 < i && j == i + 1 < |p| ensures LinksTo(p[i], p[j], tpls') {
      assert LinksTo(p[i], p[j], tpls);
    }
  }

  lemma ListedSame(t: Ptr, c: Ptr, tpls: Tpls, tpls': Tpls)
    requires SameLinks(tpls, tpls') && Listed(t, c, tpls)
    ensures Listed(t, c, tpls')
  {
  }

  lemma SetKeepsShapes(tpls: Tpls, tpls': Tpls, where: iset<Ptr>, key: Bytes, val: Bytes)
    requires SetWhere(tpls, tpls', where, key, val) && forall u | u in tpls :: |tpls[u].fields| == BUCKETS
    ensures SameShapes(tpls, tpls') && SameLinks(tpls, tpls')
  {
    hide SetIn, CellKeys;
    forall u | u in tpls ensures SameShape(tpls[u], tpls'[u]) && tpls'[u].tpl == tpls[u].tpl {
      SetKeepsKeys(tpls[u], key, val);
    }
  }

  lemma RelistedKeeps(tpls: Tpls, chunks: map<Ptr, Chunk>, tpls': Tpls, chunks': map<Ptr, Chunk>, added: Lists,
                      added': Lists, changed: set<Ptr>)
    requires Relisted(tpls, chunks, tpls', chunks', added, added', changed)
    ensures SameShapes(tpls, tpls') && SameLinks(tpls, tpls')
  {
    hide SameButAdded, SameShapes, SameLinks;
    RelistKeepsShapes(tpls, tpls');
  }

  lemma ShapesSelf(tpls: Tpls)
    ensures SameShapes(tpls, tpls)
  {
  }

  lemma SelectedShapes(root: Ptr, next: Ptr, tpls: Tpls)
    requires root in tpls && tpls[root].tpl in tpls && next in tpls
    ensures SameShapes(tpls, SelectLinks(root, next, tpls))
  {
    hide SameShapes;
    LinksKeepShapes(tpls, SelectLinks(root, next, tpls));
  }

  lemma DeselectedShapes(root: Ptr, tpls: Tpls)
    requires root in tpls
    ensures SameShapes(tpls, DeselectLinks(root, tpls))
  {
    hide SameShapes;
    LinksKeepShapes(tpls, DeselectLinks(root, tpls));
  }

  lemma KeptRoot(root: Ptr, tpls: Tpls, tpls': Tpls)
    requires root in tpls && SameLinks(tpls, tpls') && Selection(root, tpls)
    ensures root in tpls' && Selection(root, tpls')
  {
    hide Selection, Path;
    SelectionSame(root, tpls, tpls');
  }

  /** As a template is when it has just been read: no value set, nothing selected, nothing appended. */
  ghost predicate Fresh(t: Ptr, h: Heap)
    requires Tree(h.tpls, h.brk) && t in h.tpls
  {
    forall u | u in Below(t, h.tpls, h.brk) :: Unset(u, h.tpls[u]) && u in h.added && h.added[u] == []
  }

  lemma {:induction false} GrownBelow(base: Snapshot, t: Ptr, h: Heap, c: Ptr, u: Ptr)
    requires Tree(h.tpls, h.brk) && Grown(base, t, h.tpls, h.added, h.brk)
    requires c in h.tpls && (c == t || c !in base.tpls) && Reach(c, u, h.tpls, h.brk)
    ensures u in h.tpls && u in h.added && Unset(u, h.tpls[u]) && h.added[u] == []
    decreases h.brk - c
  {
    hide Unset;
    if u != c {
      var s :| s in h.tpls[c].first && Reach(s.tpl, u, h.tpls, h.brk);
      assert OwnSections(base, h.tpls[c]);
      GrownBelow(base, t, h, s.tpl, u);
    }
  }

  /** A template just read into an empty one is fresh, and ready for any history. */
  lemma ParsedIsReady(base: Snapshot, t: Ptr, h: Heap)
    requires Tree(h.tpls, h.brk) && Grown(base, t, h.tpls, h.added, h.brk) && Childless(t, base.tpls)
    ensures t in h.tpls && Fresh(t, h) && Selection(t, h.tpls)
  {
    hide Unset, OwnSections, Reach, Listed;
    forall u | u in Below(t, h.tpls, h.brk) ensures Unset(u, h.tpls[u]) && u in h.added && h.added[u] == [] {
      GrownBelow(base, t, h, t, u);
    }
    assert h.tpls[t].tpl == t by { UnsetLink(t, h.tpls[t]); }
    var p := Path(t, h.tpls);
    assert p == [t];
    forall u | u in h.tpls && Inside(t, u, h.tpls) && u !in p ensures h.tpls[u].tpl == u {
      if u in base.tpls {
        OldOutside(base, t, h, u);
      } else {
        UnsetLink(u, h.tpls[u]);
      }
    }
  }

  lemma UnsetLink(u: Ptr, r: Tpl)
    requires Unset(u, r)
    ensures r.tpl == u
  {
  }

  lemma {:induction false} OldOutside(base: Snapshot, t: Ptr, h: Heap, u: Ptr)
    requires Grown(base, t, h.tpls, h.added, h.brk) && Childless(t, base.tpls) && u in base.tpls && u != t
    ensures !Inside(t, u, h.tpls)
    decreases u
  {
    hide Unset, OwnSections;
    if base.tpls[u].parent.Some? && base.tpls[u].parent.value < u {
      OldOutside(base, t, h, base.tpls[u].parent.value);
    }
  }

  /** Two templates of the same shape with no values show the same. */
  lemma SameTexts(u: Ptr, r: Tpl, q: Tpl)
    requires Unset(u, r) && SameShape(r, q) && |r.fields| == BUCKETS
    requires forall b, i | 0 <= b < |q.fields| && 0 <= i < |q.fields[b]| :: q.fields[b][i].val == []
    ensures Texts(q) == Texts(r)
  {
    hide CellKeys;
    assert forall b | 0 <= b < |r.fields| :: |CellKeys(q.fields[b])| == |CellKeys(r.fields[b])|;
    forall k | 0 <= k < |r.head| ensures NodeText(r.head[k], q.fields) == NodeText(r.head[k], r.fields) {
    }
  }

  lemma ShapesKeepBelow(t: Ptr, tpls: Tpls, brk: Ptr, tpls': Tpls, brk': Ptr)
    requires Tree(tpls, brk) && Tree(tpls', brk') && t in tpls && SameShapes(tpls, tpls')
    ensures t in tpls' && Below(t, tpls', brk') == Below(t, tpls, brk)
  {
    hide Reach, CellKeys;
    BelowKept(t, tpls, brk, tpls', brk');
  }

  lemma ShapesKeepDocument(t: Ptr, tpls: Tpls, brk: Ptr, tpls': Tpls, brk': Ptr)
    requires Tree(tpls, brk) && Tree(tpls', brk') && t in tpls && SameShapes(tpls, tpls')
    requires forall u | u in tpls :: FieldsIndexed(tpls[u])
    ensures t in tpls' && Document(t, tpls', brk') == Document(t, tpls, brk)
  {
    hide FieldsIndexed, CellKeys;
    forall u | u in tpls ensures Items(tpls'[u]) == Items(tpls[u]) {
      ShapeItems(tpls[u], tpls'[u]);
    }
    DocumentFrame(t, tpls, brk, tpls', brk');
  }

  lemma ShapeItems(r: Tpl, q: Tpl)
    requires FieldsIndexed(r) && SameShape(r, q)
    ensures Items(q) == Items(r)
  {
    SameKeysIndexed(r, q);
  }

  /** After any history, a reset makes every section render as when the template was fresh. */
  lemma ResetIsFresh(t: Ptr, h0: Heap, h1: Heap, h2: Heap, u: Ptr)
    requires Tree(h0.tpls, h0.brk) && t in h0.tpls && Fresh(t, h0) && u in Below(t, h0.tpls, h0.brk)
    requires forall v | v in h0.tpls :: |h0.tpls[v].fields| == BUCKETS
    requires SameShapes(h0.tpls, h1.tpls)
    requires ResetOver(h1, Below(t, h0.tpls, h0.brk), Below(t, h0.tpls, h0.brk) - {t}, h2)
    requires h1.added.Keys == h1.tpls.Keys
    ensures u in h0.tpls && u in h2.tpls
    ensures Rendered(h2.tpls[u], h2.added, h2.chunks) == Rendered(h0.tpls[u], h0.added, h0.chunks)
    ensures u != t ==>
      u in h2.added && h2.added[u] == [] && h2.tpls[u].addedHead == None && h2.tpls[u].addedTail == AtHead(u)
  {
    hide Unset, CellKeys, Reach, AddedText;
    var r0, r1, r2 := h0.tpls[u], h1.tpls[u], h2.tpls[u];
    assert SameShape(r0, r1) && SameShape(r0, r2) by { EmptiedShape(u, r0, r1, u in Below(t, h0.tpls, h0.brk) - {t}); }
    SameTexts(u, r0, r2);
    forall i | 0 <= i < |r0.first|
      ensures ListOf(r0.first[i].tpl, h2.added) == [] && ListOf(r0.first[i].tpl, h0.added) == []
    {
      var s := r0.first[i];
      assert s in r0.first;
      SectionBelow(t, u, s, h0);
    }
    EmptyText(h0.chunks);
    EmptyText(h2.chunks);
    assert Contributions(r2, h2.added, h2.chunks) == Contributions(r0, h0.added, h0.chunks);
  }

  lemma EmptiedShape(u: Ptr, r0: Tpl, r1: Tpl, list: bool)
    requires SameShape(r0, r1)
    ensures SameShape(r0, Emptied(u, r1, true, list))
  {
    forall b | 0 <= b < |r0.fields| ensures CellKeys(ClearedCells(r1.fields[b])) == CellKeys(r0.fields[b]) {
      assert CellKeys(ClearedCells(r1.fields[b])) == CellKeys(r1.fields[b]);
    }
  }

  lemma SectionBelow(t: Ptr, u: Ptr, s: SectionCell, h: Heap)
    requires Tree(h.tpls, h.brk) && t in h.tpls && u in Below(t, h.tpls, h.brk) && s in h.tpls[u].first
    ensures s.tpl in Below(t, h.tpls, h.brk) && s.tpl != t
  {
    BelowNothing(s.tpl, h.tpls, h.brk);
    ReachStep(u, s, s.tpl, h.tpls, h.brk);
    ReachTrans(t, u, s.tpl, h.tpls, h.brk);
    BelowAll(t, h.tpls, h.brk);
  }

  lemma ValidFields(st: Store)
    requires st.Valid()
    ensures st.added.Keys == st.tpls.Keys && forall u | u in st.tpls :: FieldsIndexed(st.tpls[u])
  {
    forall u | u in st.tpls ensures FieldsIndexed(st.tpls[u]) {
      WholeOf(st.tpls, st.chunks, st.brk, st.added, st.owner, u);
    }
  }

  lemma ResetShapes(h: Heap, fields: set<Ptr>, lists: set<Ptr>, h': Heap)
    requires ResetOver(h, fields, lists, h')
    ensures SameShapes(h.tpls, h'.tpls)
  {
    hide Emptied;
    forall u | u in h.tpls ensures SameShape(h.tpls[u], h'.tpls[u]) {
      EmptiedAnyShape(u, h.tpls[u], u in fields, u in lists);
    }
  }

  lemma EmptiedAnyShape(u: Ptr, r: Tpl, fields: bool, list: bool)
    ensures SameShape(r, Emptied(u, r, fields, list))
  {
    if fields {
      EmptiedShape(u, r, r, list);
    }
  }

  // ---- What a fresh template renders

  /** The text that stands in a document itself: fields have no value yet, sections nothing appended. */
  function PlainOf(p: Piece): Bytes {
    if p.Text? then p.text else []
  }

  function PlainTexts(ps: seq<Piece>): (q: seq<Bytes>)
    ensures |q| == |ps| && forall i | 0 <= i < |q| :: q[i] == PlainOf(ps[i])
  {
    seq(|ps|, i requires 0 <= i < |ps| => PlainOf(ps[i]))
  }

  function PlainText(ps: seq<Piece>): Bytes {
    Concat(PlainTexts(ps))
  }

  lemma {:induction false} PlainWeave(items: seq<Piece>, parts: seq<Placed<Piece>>, texts: seq<Bytes>,
                       placed: seq<Placed<Bytes>>)
    requires |texts| == |items| && forall i | 0 <= i < |items| :: texts[i] == PlainOf(items[i])
    requires |placed| == |parts|
    requires forall j | 0 <= j < |parts| :: placed[j] == Placed(parts[j].pos, PlainOf(parts[j].what))
    ensures PlainTexts(Weave(items, parts)) == Weave(texts, placed)
    decreases |items| + |parts|
  {
    if parts != [] && |items| <= parts[|parts| - 1].pos {
      PlainWeave(items, parts[..|parts| - 1], texts, placed[..|placed| - 1]);
    } else if items != [] {
      PlainWeave(items[..|items| - 1], parts, texts[..|texts| - 1], placed);
    }
  }

  lemma FreshTexts(t: Ptr, r: Tpl)
    requires Unset(t, r)
    ensures forall i | 0 <= i < |r.head| :: Texts(r)[i] == PlainOf(Items(r)[i])
  {
  }

  /** Sections that have nothing appended contribute nothing, at the places they have in the document. */
  lemma FreshParts(t: Ptr, h: Heap, j: nat)
    requires Tree(h.tpls, h.brk) && t in h.tpls && j < |h.tpls[t].first|
    requires ListOf(h.tpls[t].first[j].tpl, h.added) == []
    ensures var part := Parts(t, |h.tpls[t].first|, h.tpls, h.brk)[j];
            Contributions(h.tpls[t], h.added, h.chunks)[j] == Placed(part.pos, PlainOf(part.what))
  {
    hide AddedText, ListOf, Tree, Document;
    EmptyText(h.chunks);
  }

  /** A fresh template, or one that was reset, renders as the plain text of its document, on every level. */
  lemma FreshRendersPlain(t: Ptr, r: Tpl, h: Heap)
    requires Tree(h.tpls, h.brk) && t in h.tpls && r == h.tpls[t] && Unset(t, r.(tpl := t))
    requires forall s | s in r.first :: ListOf(s.tpl, h.added) == []
    ensures Rendered(r, h.added, h.chunks) == PlainText(Document(t, h.tpls, h.brk))
  {
    hide AddedText, ListOf, Tree, Unset, PlainOf, Contributions, Weave, Concat, PlainTexts;
    var parts, shown := Parts(t, |r.first|, h.tpls, h.brk), Contributions(r, h.added, h.chunks);
    FreshTexts(t, r.(tpl := t));
    assert Texts(r.(tpl := t)) == Texts(r) && Items(r.(tpl := t)) == Items(r);
    forall j | 0 <= j < |r.first| ensures shown[j] == Placed(parts[j].pos, PlainOf(parts[j].what)) {
      assert r.first[j] in r.first;
      FreshParts(t, h, j);
    }
    PlainWeave(Items(r), parts, Texts(r), shown);
  }
}
