/** What it means for one template tree to be a copy of another. */
module Correspondence {
  import opened ByteStrings
  import opened Chains
  import opened TemplateObjects
  import opened Templates
  import opened Appending

  /** All of a store that the content of a template depends on. */
  datatype Heap = Heap(tpls: Tpls, brk: Ptr, added: Lists, chunks: map<Ptr, Chunk>)

  ghost function HeapOf(st: Store): Heap
    reads st
  {
    Heap(st.tpls, st.brk, st.added, st.chunks)
  }

  /** A template and all sections inside it, at any depth. */
  ghost function Below(t: Ptr, tpls: Tpls, brk: Ptr): set<Ptr>
    requires Tree(tpls, brk) && t in tpls
  {
    set u | u in tpls && Reach(t, u, tpls, brk)
  }

  /** The first `n` sections and all inside them. */
  ghost function BelowFirst(t: Ptr, n: nat, tpls: Tpls, brk: Ptr): set<Ptr>
    requires Tree(tpls, brk) && t in tpls && n <= |tpls[t].first|
  {
    set u | u in tpls && exists s :: s in tpls[t].first[..n] && Reach(s.tpl, u, tpls, brk)
  }

  lemma BelowNothing(t: Ptr, tpls: Tpls, brk: Ptr)
    requires Tree(tpls, brk) && t in tpls
    ensures BelowFirst(t, 0, tpls, brk) == {}
    ensures t in Below(t, tpls, brk)
  {
  }

  lemma BelowNext(t: Ptr, n: nat, tpls: Tpls, brk: Ptr)
    requires Tree(tpls, brk) && t in tpls && n < |tpls[t].first|
    ensures tpls[t].first[n] in tpls[t].first
    ensures BelowFirst(t, n + 1, tpls, brk) == BelowFirst(t, n, tpls, brk) + Below(tpls[t].first[n].tpl, tpls, brk)
    ensures Below(tpls[t].first[n].tpl, tpls, brk) <= Below(t, tpls, brk)
  {
    hide Reach;
    var first := tpls[t].first;
    assert first[..n + 1] == first[..n] + [first[n]];
    forall u | Reach(first[n].tpl, u, tpls, brk) ensures Reach(t, u, tpls, brk) {
      ReachStep(t, first[n], u, tpls, brk);
    }
  }

  lemma ReachStep(t: Ptr, s: SectionCell, u: Ptr, tpls: Tpls, brk: Ptr)
    requires Tree(tpls, brk) && t in tpls && s in tpls[t].first && Reach(s.tpl, u, tpls, brk)
    ensures Reach(t, u, tpls, brk)
  {
  }

  lemma BelowAll(t: Ptr, tpls: Tpls, brk: Ptr)
    requires Tree(tpls, brk) && t in tpls
    ensures Below(t, tpls, brk) == {t} + BelowFirst(t, |tpls[t].first|, tpls, brk)
    ensures t !in BelowFirst(t, |tpls[t].first|, tpls, brk)
    ensures forall u | u in Below(t, tpls, brk) :: t <= u < brk && u in tpls
  {
    assert tpls[t].first[..|tpls[t].first|] == tpls[t].first;
    forall u: Ptr | Reach(t, u, tpls, brk) ensures t <= u < brk && u in tpls {
      ReachIsAbove(t, u, tpls, brk);
    }
    forall s | s in tpls[t].first ensures !Reach(s.tpl, t, tpls, brk) {
      if Reach(s.tpl, t, tpls, brk) {
        ReachIsAbove(s.tpl, t, tpls, brk);
      }
    }
  }

  /** A tree is the same tree as long as none of its templates changes its sections. */
  lemma {:induction false} ReachKept(t: Ptr, u: Ptr, tpls: Tpls, brk: Ptr, tpls': Tpls, brk': Ptr)
    requires Tree(tpls, brk) && Tree(tpls', brk') && t in tpls
    requires forall v | v in tpls && Reach(t, v, tpls, brk) :: v in tpls' && tpls'[v].first == tpls[v].first
    ensures t in tpls' && (Reach(t, u, tpls', brk') <==> Reach(t, u, tpls, brk))
    decreases brk - t
  {
    assert Reach(t, t, tpls, brk);
    forall s | s in tpls[t].first ensures Reach(s.tpl, u, tpls', brk') <==> Reach(s.tpl, u, tpls, brk) {
      forall v | Reach(s.tpl, v, tpls, brk) ensures Reach(t, v, tpls, brk) {
        ReachStep(t, s, v, tpls, brk);
      }
      ReachKept(s.tpl, u, tpls, brk, tpls', brk');
    }
  }

  lemma BelowKept(t: Ptr, tpls: Tpls, brk: Ptr, tpls': Tpls, brk': Ptr)
    requires Tree(tpls, brk) && Tree(tpls', brk') && t in tpls
    requires forall v | v in Below(t, tpls, brk) :: v in tpls' && tpls'[v].first == tpls[v].first
    ensures t in tpls' && Below(t, tpls', brk') == Below(t, tpls, brk)
  {
    hide Reach;
    forall u ensures t in tpls' && (Reach(t, u, tpls', brk') <==> Reach(t, u, tpls, brk)) {
      ReachKept(t, u, tpls, brk, tpls', brk');
    }
    forall u | u in tpls' && Reach(t, u, tpls, brk) ensures u in tpls {
      ReachIsAbove(t, u, tpls, brk);
    }
  }

  lemma BelowTrans(t: Ptr, u: Ptr, tpls: Tpls, brk: Ptr)
    requires Tree(tpls, brk) && t in tpls && u in Below(t, tpls, brk)
    ensures Below(u, tpls, brk) <= Below(t, tpls, brk)
  {
    forall v | v in Below(u, tpls, brk) ensures v in Below(t, tpls, brk) {
      ReachTrans(t, u, v, tpls, brk);
    }
  }

  lemma {:induction false} ReachParent(s: Ptr, u: Ptr, tpls: Tpls, brk: Ptr)
    requires Tree(tpls, brk) && s in tpls && Reach(s, u, tpls, brk) && u != s
    ensures u in tpls && tpls[u].parent.Some? && tpls[u].parent.value in tpls && s <= tpls[u].parent.value < u
    ensures Reach(s, tpls[u].parent.value, tpls, brk)
    decreases brk - s
  {
    var c :| c in tpls[s].first && Reach(c.tpl, u, tpls, brk);
    if c.tpl == u {
      assert Reach(s, s, tpls, brk);
    } else {
      ReachParent(c.tpl, u, tpls, brk);
      ReachStep(s, c, tpls[u].parent.value, tpls, brk);
    }
  }

  /** Different sections of a template have nothing below them in common. */
  lemma {:induction false} SiblingsApart(t: Ptr, a: Ptr, b: Ptr, u: Ptr, tpls: Tpls, brk: Ptr)
    requires Tree(tpls, brk) && t in tpls && a in tpls && b in tpls && a != b && t < a && t < b
    requires tpls[a].parent == Some(t) && tpls[b].parent == Some(t)
    requires Reach(a, u, tpls, brk)
    ensures !Reach(b, u, tpls, brk)
    decreases u
  {
    if Reach(b, u, tpls, brk) {
      if u == a {
        ReachParent(b, u, tpls, brk);
      } else if u == b {
        ReachParent(a, u, tpls, brk);
      } else {
        ReachParent(a, u, tpls, brk);
        ReachParent(b, u, tpls, brk);
        SiblingsApart(t, a, b, tpls[u].parent.value, tpls, brk);
      }
    }
  }

  lemma NextApart(t: Ptr, n: nat, tpls: Tpls, brk: Ptr)
    requires Tree(tpls, brk) && t in tpls && n < |tpls[t].first| && SectionsOrdered(tpls[t])
    ensures tpls[t].first[n] in tpls[t].first
    ensures BelowFirst(t, n, tpls, brk) !! Below(tpls[t].first[n].tpl, tpls, brk)
  {
    hide Reach, GoodName;
    var first := tpls[t].first;
    assert first[n] in first;
    forall s, u | s in first[..n] && Reach(s.tpl, u, tpls, brk) ensures !Reach(first[n].tpl, u, tpls, brk) {
      assert s in first;
      SiblingsApart(t, s.tpl, first[n].tpl, u, tpls, brk);
    }
  }

  /** From a template to its copy, for a template and all sections inside it. */
  type Match = map<Ptr, Ptr>

  ghost predicate SameSections(from: seq<SectionCell>, copy: seq<SectionCell>, n: nat, corr: Match, added: Lists,
                               chunks: map<Ptr, Chunk>) {
    && n <= |from| && n <= |copy|
    && forall i | 0 <= i < n ::
         && copy[i].key == from[i].key && copy[i].preceding == from[i].preceding
         && from[i].tpl in corr && copy[i].tpl == corr[from[i].tpl]
         && from[i].tpl in added && copy[i].tpl in added
         && AddedText(added[copy[i].tpl], chunks) == AddedText(added[from[i].tpl], chunks)
  }

  /** The copy at `v` has the nodes, the field cells and the sections of the template at `u`, at the same
      positions, and its sections have the same appended bytes. */
  ghost predicate SameBody(u: Ptr, v: Ptr, corr: Match, h: Heap) {
    && u in h.tpls && v in h.tpls
    && h.tpls[v].head == h.tpls[u].head && h.tpls[v].fields == h.tpls[u].fields
    && |h.tpls[v].first| == |h.tpls[u].first|
    && SameSections(h.tpls[u].first, h.tpls[v].first, |h.tpls[u].first|, corr, h.added, h.chunks)
  }

  /** It links to the copy of what the original links to. */
  ghost predicate SameLink(u: Ptr, v: Ptr, corr: Match, h: Heap) {
    u in h.tpls && v in h.tpls && h.tpls[u].tpl in corr && h.tpls[v].tpl == corr[h.tpls[u].tpl]
  }

  /** Different templates have different copies, all of them at or above `lo`. */
  ghost predicate Separate(corr: Match, lo: Ptr) {
    && (forall u | u in corr :: lo <= corr[u])
    && (forall u, v | u in corr && v in corr && u != v :: corr[u] != corr[v])
  }

  ghost predicate Bodies(corr: Match, h: Heap) {
    forall u | u in corr :: SameBody(u, corr[u], corr, h)
  }

  ghost predicate Links(corr: Match, h: Heap) {
    forall u | u in corr :: SameLink(u, corr[u], corr, h)
  }

  /** `corr` takes exactly the templates inside `src` to copies of them, which are linked as they are. */
  ghost predicate Copied(src: Ptr, corr: Match, h: Heap)
    requires Tree(h.tpls, h.brk) && src in h.tpls
  {
    && corr.Keys == Below(src, h.tpls, h.brk)
    && Bodies(corr, h) && Links(corr, h) && Separate(corr, 0)
    && (forall u | u in corr :: corr[u] !in corr)
  }

  /** Every template below `t` links to one below itself. */
  ghost predicate LinksDown(t: Ptr, tpls: Tpls, brk: Ptr)
    requires Tree(tpls, brk) && t in tpls
  {
    forall u | u in Below(t, tpls, brk) :: tpls[u].tpl in Below(u, tpls, brk)
  }

  lemma SameContributions(u: Ptr, v: Ptr, corr: Match, h: Heap)
    requires SameBody(u, v, corr, h)
    ensures Contributions(h.tpls[v], h.added, h.chunks) == Contributions(h.tpls[u], h.added, h.chunks)
  {
    hide AddedText;
  }

  /** Each copy renders as its original does, so `tpl_get_content` and `tpl_length` cannot tell them apart. */
  lemma CopyRendersEqual(u: Ptr, corr: Match, h: Heap)
    requires Bodies(corr, h) && u in corr
    ensures u in h.tpls && corr[u] in h.tpls
    ensures Rendered(h.tpls[corr[u]], h.added, h.chunks) == Rendered(h.tpls[u], h.added, h.chunks)
  {
    hide SameSections;
    assert SameBody(u, corr[u], corr, h);
    SameContributions(u, corr[u], corr, h);
    assert Texts(h.tpls[corr[u]]) == Texts(h.tpls[u]);
  }

  /** Of what was there at `base`, nothing changed but the nodes, fields and sections of the template at `c`. */
  ghost predicate Kept(base: Heap, c: Ptr, h: Heap) {
    && (forall u | u in base.tpls && u != c :: u in h.tpls && h.tpls[u] == base.tpls[u])
    && (c in base.tpls ==> c in h.tpls && h.tpls[c].parent == base.tpls[c].parent)
    && (forall u | u in base.added :: u in h.added && h.added[u] == base.added[u])
    && (forall x | x in base.chunks :: x in h.chunks && h.chunks[x].val == base.chunks[x].val)
    && base.brk <= h.brk
  }

  lemma KeptTrans(h: Heap, c: Ptr, h1: Heap, d: Ptr, h2: Heap)
    requires Kept(h, c, h1) && Kept(h1, d, h2) && (d == c || d !in h.tpls)
    ensures Kept(h, c, h2)
  {
  }

  /** The nodes of every list exist. */
  ghost predicate ListsThere(h: Heap) {
    forall t, x | t in h.added && x in h.added[t] :: x in h.chunks
  }

  lemma SameSectionsKept(from: seq<SectionCell>, copy: seq<SectionCell>, n: nat, corr: Match, base: Heap, c: Ptr,
                         h: Heap, corr': Match)
    requires SameSections(from, copy, n, corr, base.added, base.chunks)
    requires Kept(base, c, h) && ListsThere(base)
    requires forall u | u in corr :: u in corr' && corr'[u] == corr[u]
    ensures SameSections(from, copy, n, corr', h.added, h.chunks)
  {
    hide AddedText;
    forall i | 0 <= i < n
      ensures AddedText(h.added[copy[i].tpl], h.chunks) == AddedText(base.added[copy[i].tpl], base.chunks)
      ensures AddedText(h.added[from[i].tpl], h.chunks) == AddedText(base.added[from[i].tpl], base.chunks)
    {
      AddedTextFrame(base.added[copy[i].tpl], base.chunks, h.chunks);
      AddedTextFrame(base.added[from[i].tpl], base.chunks, h.chunks);
    }
  }

  /** Copies stay copies while templates other than they and their originals change, and as more are made. */
  lemma BodiesKept(corr: Match, base: Heap, c: Ptr, h: Heap, corr': Match)
    requires Bodies(corr, base) && Links(corr, base) && Kept(base, c, h) && ListsThere(base)
    requires c !in corr && forall u | u in corr :: corr[u] != c
    requires forall u | u in corr :: u in corr' && corr'[u] == corr[u]
    ensures forall u | u in corr :: SameBody(u, corr'[u], corr', h) && SameLink(u, corr'[u], corr', h)
  {
    hide SameSections, ListsThere;
    forall u | u in corr ensures SameBody(u, corr'[u], corr', h) && SameLink(u, corr'[u], corr', h) {
      assert SameBody(u, corr[u], corr, base) && SameLink(u, corr[u], corr, base);
      SameSectionsKept(base.tpls[u].first, base.tpls[corr[u]].first, |base.tpls[u].first|, corr, base, c, h, corr');
    }
  }

  /** Two sets of copies side by side. */
  lemma BodiesTogether(a: Match, b: Match, lo: Ptr, mid: Ptr, h: Heap)
    requires Bodies(b, h) && Links(b, h) && Separate(a, lo) && Separate(b, mid) && lo <= mid
    requires forall u | u in a :: SameBody(u, a[u], a + b, h) && SameLink(u, a[u], a + b, h)
    requires a.Keys !! b.Keys && forall u | u in a :: a[u] < mid
    ensures Bodies(a + b, h) && Links(a + b, h) && Separate(a + b, lo)
  {
    hide SameBody, SameLink;
    forall u | u in b ensures SameBody(u, b[u], a + b, h) && SameLink(u, b[u], a + b, h) {
      BodyMore(u, b[u], b, a + b, h);
    }
  }

  lemma BodyMore(u: Ptr, v: Ptr, corr: Match, corr': Match, h: Heap)
    requires SameBody(u, v, corr, h) && SameLink(u, v, corr, h)
    requires forall u | u in corr :: u in corr' && corr'[u] == corr[u]
    ensures SameBody(u, v, corr', h) && SameLink(u, v, corr', h)
  {
    hide AddedText;
  }
}
