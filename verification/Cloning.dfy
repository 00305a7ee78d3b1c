/** A template in use and its clone: a new template into which the original is copied. */
module Cloning {
  import opened ByteStrings
  import opened TemplateObjects
  import opened Templates
  import opened Selecting
  import opened Appending
  import opened Correspondence
  import opened Copying
  import opened CopiedSelection

  /** `corr` takes every template inside `src` to one that was not there, which renders as the original did,
      and `src` to `c`. */
  ghost predicate ClonedTree(src: Ptr, c: Ptr, corr: Match, h: Heap, h': Heap)
    requires Tree(h.tpls, h.brk) && src in h.tpls
  {
    && corr.Keys == Below(src, h.tpls, h.brk) && src in corr && corr[src] == c
    && (forall u | u in corr ::
          && u in h.tpls && corr[u] !in h.tpls && corr[u] in h'.tpls
          && Rendered(h'.tpls[corr[u]], h'.added, h'.chunks) == Rendered(h.tpls[u], h.added, h.chunks))
  }

  /** The original is selected in as before, and the clone is selected in the same way. */
  ghost predicate ClonedSelection(src: Ptr, c: Ptr, corr: Match, h: Heap, h': Heap) {
    && src in h.tpls && src in h'.tpls && c in h'.tpls
    && Selection(src, h'.tpls) && Path(src, h'.tpls) == Path(src, h.tpls)
    && (forall v | v in Path(src, h.tpls) :: v in corr)
    && Selection(c, h'.tpls) && Path(c, h'.tpls) == Renamed(Path(src, h.tpls), corr)
  }

  /** The template at `c` is a clone of that at `src`; nothing that was there at `h` has changed. */
  ghost predicate Cloned(src: Ptr, c: Ptr, corr: Match, h: Heap, h': Heap)
    requires Tree(h.tpls, h.brk) && src in h.tpls
  {
    && c !in h.tpls && Kept(h, c, h') && Tree(h'.tpls, h'.brk)
    && ClonedTree(src, c, corr, h, h') && ClonedSelection(src, c, corr, h, h')
    && Document(c, h'.tpls, h'.brk) == Document(src, h.tpls, h.brk)
  }

  /** A heap with one more template that belongs to nobody. */
  ghost predicate OneMore(h: Heap, c: Ptr, h1: Heap) {
    && c == h.brk && h1.brk == c + 1 && h1.tpls == h.tpls[c := Initial(c)]
    && h1.added == h.added[c := []] && h1.chunks == h.chunks
  }

  lemma OneMoreKept(h: Heap, c: Ptr, h1: Heap)
    requires Tree(h.tpls, h.brk) && OneMore(h, c, h1) && forall u | u in h.added :: u in h.tpls
    ensures c !in h.tpls && c in h1.tpls && Kept(h, c, h1) && Blank(c, h1.tpls[c]) && h1.tpls[c].parent == None
    ensures Tree(h1.tpls, h1.brk)
  {
  }

  /** A new template that belongs to nobody changes no selection. */
  lemma OneMoreSelection(src: Ptr, h: Heap, c: Ptr, h1: Heap)
    requires Tree(h.tpls, h.brk) && Rooted(h.tpls) && OneMore(h, c, h1) && src in h.tpls && Selection(src, h.tpls)
    requires c !in h.tpls && Kept(h, c, h1)
    ensures src in h1.tpls && Selection(src, h1.tpls) && Path(src, h1.tpls) == Path(src, h.tpls)
  {
    hide PathTo, Listed, Inside, Tree, Rooted, Kept;
    var p := Path(src, h.tpls);
    RecordKept(h, c, h1, src);
    assert h.tpls[src].tpl in h.tpls by { SelectedIsThere(src, h.tpls); }
    OldWayUp(src, h.tpls[src].tpl, h, c, h1);
    forall i, j | 0 <= i && j == i + 1 < |p| ensures Listed(p[i], p[j], h1.tpls) {
      ListedIsThere(p[i], p[j], h.tpls);
      ListedSurvives(p[i], p[j], h, c, h1);
    }
    forall i, j | 0 < i && j == i + 1 < |p| ensures LinksTo(p[i], p[j], h1.tpls) {
      assert LinksTo(p[i], p[j], h.tpls);
    }
    forall u | u in h1.tpls && Inside(src, u, h1.tpls) && u !in p ensures h1.tpls[u].tpl == u {
      if u != c {
        OldWayUp(src, u, h, c, h1);
      }
    }
  }

  lemma ListedIsThere(t: Ptr, u: Ptr, tpls: Tpls)
    requires Listed(t, u, tpls)
    ensures t in tpls
  {
  }

  lemma OneMoreBelow(src: Ptr, h: Heap, c: Ptr, h1: Heap)
    requires Tree(h.tpls, h.brk) && Tree(h1.tpls, h1.brk) && src in h.tpls && c !in h.tpls && Kept(h, c, h1)
    ensures src in h1.tpls && Below(src, h1.tpls, h1.brk) == Below(src, h.tpls, h.brk)
    ensures c !in Below(src, h1.tpls, h1.brk)
  {
    hide Reach;
    BelowAll(src, h.tpls, h.brk);
    BelowKept(src, h.tpls, h.brk, h1.tpls, h1.brk);
  }

  /** A template in use is ready to be copied into a new one. */
  lemma CloneReady(src: Ptr, h: Heap, c: Ptr, h1: Heap)
    requires Tree(h.tpls, h.brk) && Rooted(h.tpls) && OneMore(h, c, h1) && src in h.tpls && Selection(src, h.tpls)
    requires forall u | u in h.added :: u in h.tpls
    ensures CopyReady(h1, c, src, h1.brk) && h1.tpls[c].parent == None && Selection(src, h1.tpls)
    ensures Path(src, h1.tpls) == Path(src, h.tpls)
  {
    hide Tree, Rooted, Below, Kept, Blank, OneMore, Selection, Path;
    OneMoreKept(h, c, h1);
    OneMoreSelection(src, h, c, h1);
    OneMoreBelow(src, h, c, h1);
    SelectionLinksDown(src, h1.tpls, h1.brk);
    BelowAll(src, h1.tpls, h1.brk);
  }

  lemma CloneRenders(src: Ptr, c: Ptr, corr: Match, h: Heap, h1: Heap, h': Heap)
    requires Tree(h.tpls, h.brk) && src in h.tpls && c !in h.tpls && Kept(h, c, h1) && ListsThere(h) && ListsThere(h1)
    requires CopyReady(h1, c, src, h1.brk) && CopyMade(h1, c, src, corr, h')
    requires forall u | u in h.tpls :: u in h.added
    requires forall u | u in h1.tpls :: u in h1.added
    ensures ClonedTree(src, c, corr, h, h')
  {
    hide Reach, Rendered, Kept, Blank, LinksDown, Bodies, Links, ListsThere;
    OneMoreBelow(src, h, c, h1);
    BelowAll(src, h.tpls, h.brk);
    forall u | u in corr
      ensures u in h.tpls && corr[u] !in h.tpls && corr[u] in h'.tpls
      ensures Rendered(h'.tpls[corr[u]], h'.added, h'.chunks) == Rendered(h.tpls[u], h.added, h.chunks)
    {
      CopyRendersAsBefore(h1, c, src, corr, h', u, h1.brk);
      RenderedKept(h, c, h1, u);
      OldStays(h, c, h1);
    }
  }

  lemma OldStays(h: Heap, c: Ptr, h1: Heap)
    requires Kept(h, c, h1) && c !in h.tpls
    ensures forall u | u in h.tpls :: u in h1.tpls
  {
  }

  lemma CloneDocument(src: Ptr, c: Ptr, corr: Match, h: Heap, h': Heap)
    requires Tree(h.tpls, h.brk) && Tree(h'.tpls, h'.brk) && src in h.tpls && c !in h.tpls && Kept(h, c, h')
    requires Bodies(corr, h') && src in corr && corr[src] == c
    ensures src in h'.tpls && c in h'.tpls && Document(c, h'.tpls, h'.brk) == Document(src, h.tpls, h.brk)
  {
    hide Bodies, Items;
    DocumentFrame(src, h.tpls, h.brk, h'.tpls, h'.brk);
    CopiedDocument(src, corr, h', src);
  }

  /** `tpl_alloc`, and `tpl_copy` of a template in use into it. */
  method Clone(st: Store, src: Ptr) returns (c: Ptr, ghost corr: Match)
    requires st.Valid() && Tree(st.tpls, st.brk) && src in st.tpls && Selection(src, st.tpls)
    modifies st`tpls, st`chunks, st`brk, st`added, st`owner
    ensures st.Valid() && Cloned(src, c, corr, old(HeapOf(st)), HeapOf(st))
  {
    hide SoundStore, Tree, Rooted, CopyReady, CopyMade, Selection, Path, OneMore, Kept, ClonedTree, ClonedSelection,
      Childless, Bodies, Document, Renamed, Copied, ListsThere;
    ghost var h := HeapOf(st);
    StoreIsRooted(st);
    c := st.Alloc(None);
    ghost var h1 := HeapOf(st);
    StoreIsRooted(st);
    assert OneMore(h, c, h1) by { NewIsOneMore(h, c, h1); }
    OneMoreKept(h, c, h1);
    CloneReady(src, h, c, h1);
    corr := CopyTemplate(st, c, src, h1.brk);
    ghost var h' := HeapOf(st);
    StoreIsRooted(st);
    CopyIsSelected(h1, c, src, corr, h', h1.brk);
    MadeKept(h1, c, src, corr, h');
    KeptTrans(h, c, h1, c, h');
    CloneRenders(src, c, corr, h, h1, h');
    MadeHasBodies(h1, c, src, corr, h');
    CloneDocument(src, c, corr, h, h');
    SelectionCloned(src, c, corr, h, h1, h');
  }

  lemma NewIsOneMore(h: Heap, c: Ptr, h1: Heap)
    requires c == h.brk && h1 == Heap(h.tpls[c := Initial(c).(parent := None)], c + 1, h.added[c := []], h.chunks)
    ensures OneMore(h, c, h1)
  {
  }

  lemma MadeHasBodies(h: Heap, c: Ptr, src: Ptr, corr: Match, h': Heap)
    requires CopyMade(h, c, src, corr, h')
    ensures Bodies(corr, h') && src in corr && corr[src] == c
  {
  }

  lemma SelectionCloned(src: Ptr, c: Ptr, corr: Match, h: Heap, h1: Heap, h': Heap)
    requires src in h.tpls && src in h1.tpls && Path(src, h1.tpls) == Path(src, h.tpls)
    requires src in h'.tpls && Selection(src, h'.tpls) && Path(src, h'.tpls) == Path(src, h1.tpls)
    requires c in h'.tpls && Selection(c, h'.tpls) && forall v | v in Path(src, h1.tpls) :: v in corr
    requires Path(c, h'.tpls) == Renamed(Path(src, h1.tpls), corr)
    ensures ClonedSelection(src, c, corr, h, h')
  {
    hide Selection, Path, Renamed;
  }

  lemma StoreIsRooted(st: Store)
    requires st.Valid()
    ensures Tree(st.tpls, st.brk) && Rooted(st.tpls) && st.added.Keys == st.tpls.Keys && ListsThere(HeapOf(st))
  {
    ListInChunks(st.tpls, st.chunks, st.brk, st.added, st.owner);
  }
}
