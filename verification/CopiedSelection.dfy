/** What a finished deep copy is good for: the copy shows the same document, renders the same bytes, has
    the same section selected, and shares nothing with the original. */
module CopiedSelection {
  import opened ByteStrings
  import opened TemplateObjects
  import opened Templates
  import opened Selecting
  import opened Appending
  import opened Correspondence
  import opened Copying

  /** The copies are templates of their own, and each renders as its original did before the copy. */
  lemma CopyRendersAsBefore(h: Heap, c: Ptr, src: Ptr, corr: Match, h': Heap, u: Ptr, top: Ptr)
    requires CopyReady(h, c, src, top) && CopyMade(h, c, src, corr, h') && ListsThere(h)
    requires forall t, s | t in h.tpls && s in h.tpls[t].first :: s.tpl in h.added
    requires u in Below(src, h.tpls, h.brk)
    ensures u in h.tpls && u in corr && corr[u] in h'.tpls
    ensures corr[u] !in Below(src, h.tpls, h.brk) && (u != src ==> corr[u] !in h.tpls)
    ensures Rendered(h'.tpls[corr[u]], h'.added, h'.chunks) == Rendered(h.tpls[u], h.added, h.chunks)
  {
    hide Reach, SameBody, SameLink, Links, LinksDown, Rendered, Blank;
    CopyRendersEqual(u, corr, h');
    BelowAll(src, h.tpls, h.brk);
    RenderedKept(h, c, h', u);
  }

  lemma RenderedKept(h: Heap, c: Ptr, h': Heap, u: Ptr)
    requires Kept(h, c, h') && ListsThere(h) && u in h.tpls && u != c
    requires forall s | s in h.tpls[u].first :: s.tpl in h.added
    ensures u in h'.tpls && Rendered(h'.tpls[u], h'.added, h'.chunks) == Rendered(h.tpls[u], h.added, h.chunks)
  {
    hide AddedText, ListsThere;
    var first := h.tpls[u].first;
    forall i | 0 <= i < |first|
      ensures AddedText(ListOf(first[i].tpl, h'.added), h'.chunks) == AddedText(ListOf(first[i].tpl, h.added), h.chunks)
    {
      assert first[i] in first;
      AddedTextSame(first[i].tpl, h, c, h');
    }
    assert Contributions(h'.tpls[u], h'.added, h'.chunks) == Contributions(h.tpls[u], h.added, h.chunks);
  }

  /** The documents are the same, sections and all. */
  lemma {:induction false} CopiedDocument(src: Ptr, corr: Match, h: Heap, u: Ptr)
    requires Tree(h.tpls, h.brk) && src in h.tpls && u in h.tpls && Bodies(corr, h) && u in corr
    ensures corr[u] in h.tpls
    ensures Document(corr[u], h.tpls, h.brk) == Document(u, h.tpls, h.brk)
    decreases h.brk - u
  {
    hide AddedText;
    var v := corr[u];
    assert SameBody(u, v, corr, h);
    var first, copy := h.tpls[u].first, h.tpls[v].first;
    forall i | 0 <= i < |first|
      ensures copy[i].tpl in h.tpls && Document(copy[i].tpl, h.tpls, h.brk) == Document(first[i].tpl, h.tpls, h.brk)
    {
      assert first[i] in first && copy[i] in copy;
      CopiedDocument(src, corr, h, first[i].tpl);
    }
    SameItems(h.tpls[u], h.tpls[v]);
    assert Parts(v, |copy|, h.tpls, h.brk) == Parts(u, |first|, h.tpls, h.brk);
  }

  lemma SameItems(r: Tpl, q: Tpl)
    requires q.head == r.head && q.fields == r.fields
    ensures Items(q) == Items(r)
  {
  }

  function Renamed(p: seq<Ptr>, corr: Match): seq<Ptr>
    requires forall u | u in p :: u in corr
  {
    seq(|p|, i requires 0 <= i < |p| => assert p[i] in p; corr[p[i]])
  }

  /** The copy of a section is inside the copy of the template the section is in. */
  lemma CopiedParent(src: Ptr, corr: Match, h: Heap, u: Ptr)
    requires Tree(h.tpls, h.brk) && src in h.tpls && corr.Keys == Below(src, h.tpls, h.brk) && Bodies(corr, h)
    requires u in corr && u != src
    ensures u in h.tpls && h.tpls[u].parent.Some? && h.tpls[u].parent.value in corr && src <= h.tpls[u].parent.value < u
    ensures corr[u] in h.tpls && h.tpls[corr[u]].parent == Some(corr[h.tpls[u].parent.value])
    ensures corr[h.tpls[u].parent.value] < corr[u]
  {
    hide AddedText;
    ReachParent(src, u, h.tpls, h.brk);
    var p := h.tpls[u].parent.value;
    var i := PlaceInParent(src, h, u);
    assert SameBody(p, corr[p], corr, h);
    assert h.tpls[corr[p]].first[i] in h.tpls[corr[p]].first;
  }

  lemma {:induction false} PlaceInParent(src: Ptr, h: Heap, u: Ptr) returns (i: nat)
    requires Tree(h.tpls, h.brk) && src in h.tpls && Reach(src, u, h.tpls, h.brk) && u != src
    ensures u in h.tpls && h.tpls[u].parent.Some? && h.tpls[u].parent.value in h.tpls
    ensures i < |h.tpls[h.tpls[u].parent.value].first| && h.tpls[h.tpls[u].parent.value].first[i].tpl == u
    decreases h.brk - src
  {
    var s :| s in h.tpls[src].first && Reach(s.tpl, u, h.tpls, h.brk);
    if s.tpl == u {
      i :| 0 <= i < |h.tpls[src].first| && h.tpls[src].first[i] == s;
    } else {
      i := PlaceInParent(s.tpl, h, u);
    }
  }

  /** The way down to a copy is the copy of the way down. */
  lemma {:induction false} CopiedPath(src: Ptr, corr: Match, h: Heap, u: Ptr)
    requires Tree(h.tpls, h.brk) && src in h.tpls && corr.Keys == Below(src, h.tpls, h.brk) && Bodies(corr, h)
    requires Separate(corr, 0)
    requires u in corr && src in corr
    ensures forall v | v in PathTo(src, u, h.tpls) :: v in corr
    ensures PathTo(corr[src], corr[u], h.tpls) == Renamed(PathTo(src, u, h.tpls), corr)
    decreases u
  {
    hide Below, Bodies;
    if u != src {
      CopiedParent(src, corr, h, u);
      var p := h.tpls[u].parent.value;
      CopiedPath(src, corr, h, p);
      assert PathTo(src, u, h.tpls) == PathTo(src, p, h.tpls) + [u];
      assert PathTo(corr[src], corr[u], h.tpls) == PathTo(corr[src], corr[p], h.tpls) + [corr[u]];
      assert Renamed(PathTo(src, p, h.tpls) + [u], corr) == Renamed(PathTo(src, p, h.tpls), corr) + [corr[u]];
    }
  }

  /** In particular, the section selected in the copy is the counterpart of the one selected in the
      original, by the same way down. */
  lemma CopiedSelectedPath(src: Ptr, corr: Match, h: Heap)
    requires Tree(h.tpls, h.brk) && src in h.tpls && Copied(src, corr, h) && src in corr && corr[src] in h.tpls
    ensures h.tpls[corr[src]].tpl in h.tpls && h.tpls[src].tpl in corr
    ensures forall v | v in Path(src, h.tpls) :: v in corr
    ensures Path(corr[src], h.tpls) == Renamed(Path(src, h.tpls), corr)
  {
    hide Below, Bodies;
    assert SameLink(src, corr[src], corr, h);
    CopiedPath(src, corr, h, h.tpls[src].tpl);
    assert Bodies(corr, h) && corr[h.tpls[src].tpl] in h.tpls by { CopyThere(corr, h, h.tpls[src].tpl); }
  }

  lemma CopyThere(corr: Match, h: Heap, u: Ptr)
    requires Bodies(corr, h) && u in corr
    ensures corr[u] in h.tpls
  {
    assert SameBody(u, corr[u], corr, h);
  }

  /** In the terms of the heap it leaves behind, a finished copy takes each template inside the original to
      one with the same nodes, cells, sections, appended bytes and link, and none of these is an original. */
  lemma MadeIsCopied(h: Heap, c: Ptr, src: Ptr, corr: Match, h': Heap, top: Ptr)
    requires CopyReady(h, c, src, top) && CopyMade(h, c, src, corr, h') && Tree(h'.tpls, h'.brk)
    ensures src in h'.tpls && corr[src] == c && Copied(src, corr, h')
  {
    hide Reach, SameBody, SameLink, LinksDown, Blank, Kept;
    BelowAll(src, h.tpls, h.brk);
    OldTreeKept(h, c, src, h');
  }

  lemma {:induction false} ReachDown(root: Ptr, p: seq<Ptr>, i: nat, j: nat, tpls: Tpls, brk: Ptr)
    requires Tree(tpls, brk) && i <= j < |p| && p[i] in tpls
    requires forall k, l | 0 <= k && l == k + 1 < |p| :: Listed(p[k], p[l], tpls)
    ensures p[j] in tpls && Reach(p[i], p[j], tpls, brk)
    decreases j - i
  {
    if i < j {
      assert Listed(p[i], p[i + 1], tpls);
      var s :| s in tpls[p[i]].first && s.tpl == p[i + 1];
      ReachDown(root, p, i + 1, j, tpls, brk);
      ReachStep(p[i], s, p[j], tpls, brk);
    }
  }

  lemma {:induction false} ReachedInside(root: Ptr, u: Ptr, tpls: Tpls, brk: Ptr)
    requires Tree(tpls, brk) && root in tpls && Reach(root, u, tpls, brk)
    ensures Inside(root, u, tpls)
    decreases u
  {
    if u != root {
      ReachParent(root, u, tpls, brk);
      ReachedInside(root, tpls[u].parent.value, tpls, brk);
    }
  }

  /** With a selection, every template links downwards, so a template in use can be copied. */
  lemma SelectionLinksDown(root: Ptr, tpls: Tpls, brk: Ptr)
    requires Tree(tpls, brk) && root in tpls && Selection(root, tpls)
    ensures LinksDown(root, tpls, brk)
  {
    hide Listed, PathTo, Inside, Reach;
    var p := Path(root, tpls);
    forall u | u in Below(root, tpls, brk) ensures tpls[u].tpl in Below(u, tpls, brk) {
      ReachedInside(root, u, tpls, brk);
      BelowNothing(u, tpls, brk);
      if u in p {
        var i :| 0 <= i < |p| && p[i] == u;
        if i == 0 {
          ReachDown(root, p, 0, |p| - 1, tpls, brk);
        } else if i < |p| - 1 {
          assert LinksTo(p[i], p[i + 1], tpls);
          ReachDown(root, p, i, i + 1, tpls, brk);
        }
      }
    }
  }

  lemma CopiedSection(u: Ptr, v: Ptr, corr: Match, h: Heap)
    requires Bodies(corr, h) && u in corr && v in corr && Listed(u, v, h.tpls)
    ensures Listed(corr[u], corr[v], h.tpls)
  {
    hide AddedText;
    assert SameBody(u, corr[u], corr, h);
    var i :| 0 <= i < |h.tpls[u].first| && h.tpls[u].first[i].tpl == v;
    assert h.tpls[corr[u]].first[i] in h.tpls[corr[u]].first;
  }

  lemma {:induction false} CopiesInside(h: Heap, c: Ptr, src: Ptr, corr: Match, h': Heap, t: Ptr)
    requires CopyMade(h, c, src, corr, h') && c in h.tpls && t in h'.tpls && Inside(c, t, h'.tpls)
    requires Childless(c, h.tpls)
    ensures t in corr.Values
    decreases t
  {
    hide Below, Bodies, Links;
    if t == c {
      assert corr[src] == c;
    } else if t in h.tpls {
      OldNotInside(h, c, h', t);
    }
  }

  lemma {:induction false} OldNotInside(h: Heap, c: Ptr, h': Heap, t: Ptr)
    requires Kept(h, c, h') && c in h.tpls && t in h.tpls && t != c
    requires Childless(c, h.tpls)
    ensures !Inside(c, t, h'.tpls)
    decreases t
  {
    if h.tpls[t].parent.Some? && h.tpls[t].parent.value < t {
      OldNotInside(h, c, h', h.tpls[t].parent.value);
    }
  }

  lemma LinkCopied(src: Ptr, corr: Match, h: Heap, u: Ptr)
    requires Tree(h.tpls, h.brk) && src in h.tpls && Copied(src, corr, h) && u in corr
    ensures u in h.tpls && corr[u] in h.tpls && h.tpls[u].tpl in corr && h.tpls[corr[u]].tpl == corr[h.tpls[u].tpl]
  {
    hide Below, Bodies;
    assert SameLink(u, corr[u], corr, h);
  }

  lemma ThreadCopied(p: seq<Ptr>, src: Ptr, corr: Match, h: Heap)
    requires Tree(h.tpls, h.brk) && src in h.tpls && Copied(src, corr, h) && p != []
    requires Threaded(p, h.tpls) && forall v | v in p :: v in corr
    ensures Renamed(p, corr) != [] && Threaded(Renamed(p, corr), h.tpls)
  {
    hide Listed, Copied;
    assert Bodies(corr, h) by { CopiedBodies(src, corr, h); }
    hide Bodies;
    var q := Renamed(p, corr);
    forall i, j | 0 <= i && j == i + 1 < |q| ensures Listed(q[i], q[j], h.tpls) {
      CopiedSection(p[i], p[j], corr, h);
    }
    forall i, j | 0 < i && j == i + 1 < |q| ensures LinksTo(q[i], q[j], h.tpls) {
      LinkCopied(src, corr, h, p[i]);
      assert LinksTo(p[i], p[j], h.tpls);
    }
    LinkCopied(src, corr, h, p[|p| - 1]);
  }

  lemma CopiedBodies(src: Ptr, corr: Match, h: Heap)
    requires Tree(h.tpls, h.brk) && src in h.tpls && Copied(src, corr, h)
    ensures Bodies(corr, h) && corr.Keys == Below(src, h.tpls, h.brk)
  {
  }

  lemma CopiedThread(src: Ptr, corr: Match, h: Heap)
    requires Tree(h.tpls, h.brk) && src in h.tpls && Copied(src, corr, h) && src in corr && corr[src] in h.tpls
    requires Selection(src, h.tpls)
    ensures forall v | v in Path(src, h.tpls) :: v in corr
    ensures Path(corr[src], h.tpls) == Renamed(Path(src, h.tpls), corr)
    ensures Path(corr[src], h.tpls)[0] == corr[src] && Threaded(Path(corr[src], h.tpls), h.tpls)
  {
    hide PathTo, Copied, LooseOff, Threaded, Renamed, Tree;
    CopiedSelectedPath(src, corr, h);
    ThreadCopied(Path(src, h.tpls), src, corr, h);
    RenamedHas(Path(src, h.tpls), corr, src);
  }

  lemma RenamedHas(p: seq<Ptr>, corr: Match, u: Ptr)
    requires forall v | v in p :: v in corr
    ensures u in p ==> corr[u] in Renamed(p, corr)
    ensures |Renamed(p, corr)| == |p| && (p != [] ==> Renamed(p, corr)[0] == corr[p[0]])
  {
    if u in p {
      var i :| 0 <= i < |p| && p[i] == u;
      assert Renamed(p, corr)[i] == corr[u];
    }
  }

  lemma LooseAt(h: Heap, c: Ptr, src: Ptr, corr: Match, h': Heap, p: seq<Ptr>, t: Ptr)
    requires CopyMade(h, c, src, corr, h') && c in h.tpls && Tree(h'.tpls, h'.brk) && src in h'.tpls
    requires Copied(src, corr, h')
    requires Childless(c, h.tpls) && LooseOff(p, src, h'.tpls) && forall v | v in p :: v in corr
    requires t in h'.tpls && Inside(c, t, h'.tpls) && t !in Renamed(p, corr)
    ensures h'.tpls[t].tpl == t
  {
    hide Bodies, CopyMade, Inside, Copied, Reach, Renamed, Tree, Childless;
    CopiesInside(h, c, src, corr, h', t);
    var u :| u in corr && corr[u] == t;
    LinkCopied(src, corr, h', u);
    CopiedBodies(src, corr, h');
    ReachedInside(src, u, h'.tpls, h'.brk);
    RenamedHas(p, corr, u);
    assert u !in p;
  }

  lemma CopiedLoose(h: Heap, c: Ptr, src: Ptr, corr: Match, h': Heap, p: seq<Ptr>)
    requires CopyMade(h, c, src, corr, h') && c in h.tpls && Tree(h'.tpls, h'.brk) && src in h'.tpls
    requires Copied(src, corr, h')
    requires Childless(c, h.tpls) && LooseOff(p, src, h'.tpls) && forall v | v in p :: v in corr
    ensures LooseOff(Renamed(p, corr), c, h'.tpls)
  {
    hide CopyMade, Inside, Copied, Renamed, Tree, Childless;
    forall t | t in h'.tpls && Inside(c, t, h'.tpls) && t !in Renamed(p, corr) ensures h'.tpls[t].tpl == t {
      LooseAt(h, c, src, corr, h', p, t);
    }
  }

  /** The ways up from what was there before the copy are what they were. */
  lemma {:induction false} OldWayUp(src: Ptr, u: Ptr, h: Heap, c: Ptr, h': Heap)
    requires Rooted(h.tpls) && Kept(h, c, h') && u in h.tpls
    ensures PathTo(src, u, h'.tpls) == PathTo(src, u, h.tpls)
    ensures Inside(src, u, h'.tpls) <==> Inside(src, u, h.tpls)
    decreases u
  {
    assert ParentThere(u, h.tpls);
    if h.tpls[u].parent.Some? {
      OldWayUp(src, h.tpls[u].parent.value, h, c, h');
    }
  }

  /** No copy is inside the original. */
  lemma {:induction false} CopiesOutside(src: Ptr, corr: Match, h: Heap, v: Ptr)
    requires Tree(h.tpls, h.brk) && src in h.tpls && Copied(src, corr, h) && src in corr && v in corr
    requires corr[src] in h.tpls && h.tpls[corr[src]].parent == None
    ensures !Inside(src, corr[v], h.tpls)
    decreases v
  {
    hide Below, Links;
    CopiedBodies(src, corr, h);
    assert corr[v] != src;
    if v != src {
      CopiedParent(src, corr, h, v);
      CopiesOutside(src, corr, h, h.tpls[v].parent.value);
    }
  }

  /** A template without a parent is listed nowhere. */
  lemma ListedHasParent(t: Ptr, c: Ptr, tpls: Tpls, brk: Ptr)
    requires Tree(tpls, brk) && Listed(t, c, tpls)
    ensures c in tpls && tpls[c].parent == Some(t)
  {
  }

  lemma ThreadSurvives(p: seq<Ptr>, h: Heap, c: Ptr, h': Heap)
    requires p != [] && Tree(h.tpls, h.brk) && Threaded(p, h.tpls) && Kept(h, c, h') && p[0] != c
    requires c in h.tpls && h.tpls[c].parent == None && h.tpls[c].first == []
    ensures c !in p && Threaded(p, h'.tpls)
  {
    hide Listed, Tree, Kept;
    forall i | 0 < i < |p| ensures p[i] != c {
      assert Listed(p[i - 1], p[i], h.tpls);
      ListedHasParent(p[i - 1], p[i], h.tpls, h.brk);
    }
    forall i, j | 0 <= i && j == i + 1 < |p| ensures Listed(p[i], p[j], h'.tpls) {
      ListedSurvives(p[i], p[j], h, c, h');
    }
    forall i, j | 0 < i && j == i + 1 < |p| ensures LinksTo(p[i], p[j], h'.tpls) {
      assert LinksTo(p[i], p[j], h.tpls);
      LinkSurvives(p[i], p[j], h, c, h');
    }
    LinkSurvives(p[|p| - 1], p[|p| - 1], h, c, h');
  }

  lemma ListedSurvives(t: Ptr, u: Ptr, h: Heap, c: Ptr, h': Heap)
    requires Kept(h, c, h') && t != c && Listed(t, u, h.tpls)
    ensures Listed(t, u, h'.tpls)
  {
  }

  lemma LinkSurvives(t: Ptr, u: Ptr, h: Heap, c: Ptr, h': Heap)
    requires Kept(h, c, h') && t != c && LinksTo(t, u, h.tpls)
    ensures LinksTo(t, u, h'.tpls)
  {
  }

  /** Whatever is inside the original afterwards was there before. */
  lemma InsideIsOld(h: Heap, c: Ptr, src: Ptr, corr: Match, h': Heap, u: Ptr)
    requires CopyMade(h, c, src, corr, h') && c in h.tpls && c in h'.tpls && h.tpls[c].parent == None && c != src
    requires Tree(h'.tpls, h'.brk) && src in h'.tpls && Copied(src, corr, h')
    requires u in h'.tpls && Inside(src, u, h'.tpls)
    ensures u in h.tpls && u != c
  {
    hide Below, Bodies, Links, Copied;
    assert h'.tpls[c].parent == None;
    if u !in h.tpls {
      var v :| v in corr && corr[v] == u;
      CopiesOutside(src, corr, h', v);
    }
  }

  lemma LooseSurvives(h: Heap, c: Ptr, src: Ptr, corr: Match, h': Heap, p: seq<Ptr>)
    requires CopyMade(h, c, src, corr, h') && c in h.tpls && c in h'.tpls && h.tpls[c].parent == None && c != src
    requires Tree(h'.tpls, h'.brk) && src in h'.tpls && Copied(src, corr, h')
    requires Rooted(h.tpls) && LooseOff(p, src, h.tpls)
    ensures LooseOff(p, src, h'.tpls)
  {
    hide CopyMade, Inside, Copied, Tree, Rooted, Kept;
    assert Kept(h, c, h') by { MadeKept(h, c, src, corr, h'); }
    forall u | u in h'.tpls && Inside(src, u, h'.tpls) && u !in p ensures h'.tpls[u].tpl == u {
      InsideIsOld(h, c, src, corr, h', u);
      OldWayUp(src, u, h, c, h');
      RecordKept(h, c, h', u);
    }
  }

  lemma MadeKept(h: Heap, c: Ptr, src: Ptr, corr: Match, h': Heap)
    requires CopyMade(h, c, src, corr, h')
    ensures Kept(h, c, h') && src in h.tpls
  {
  }

  lemma RecordKept(h: Heap, c: Ptr, h': Heap, u: Ptr)
    requires Kept(h, c, h') && u in h.tpls && u != c
    ensures u in h'.tpls && h'.tpls[u] == h.tpls[u]
  {
  }

  /** The copy leaves the selection in the original as it is. */
  lemma SelectionSurvives(h: Heap, c: Ptr, src: Ptr, corr: Match, h': Heap, top: Ptr)
    requires CopyReady(h, c, src, top) && CopyMade(h, c, src, corr, h') && Tree(h'.tpls, h'.brk)
    requires Rooted(h.tpls) && c in h.tpls && h.tpls[c].parent == None && src in h.tpls && Selection(src, h.tpls)
    ensures src in h'.tpls && Selection(src, h'.tpls) && Path(src, h'.tpls) == Path(src, h.tpls)
  {
    hide PathTo, Listed, Threaded, CopyMade, Inside, Copied, LooseOff, CopyReady, Kept, Tree, Rooted;
    MadeIsCopied(h, c, src, corr, h', top);
    TargetIsNew(h, c, src, top);
    MadeHasRoot(h, c, src, corr, h', top);
    MadeKept(h, c, src, corr, h');
    RecordKept(h, c, h', src);
    var p := Path(src, h.tpls);
    assert h.tpls[src].tpl in h.tpls by { SelectedIsThere(src, h.tpls); }
    OldWayUp(src, h.tpls[src].tpl, h, c, h');
    ThreadSurvives(p, h, c, h');
    LooseSurvives(h, c, src, corr, h', p);
  }

  lemma TargetIsNew(h: Heap, c: Ptr, src: Ptr, top: Ptr)
    requires CopyReady(h, c, src, top)
    ensures c != src && Tree(h.tpls, h.brk) && c in h.tpls && src in h.tpls && h.tpls[c].first == []
  {
    BelowNothing(src, h.tpls, h.brk);
  }

  /** The copy has a selection of its own: the counterpart of the one the original had and still has. */
  lemma CopyIsSelected(h: Heap, c: Ptr, src: Ptr, corr: Match, h': Heap, top: Ptr)
    requires CopyReady(h, c, src, top) && CopyMade(h, c, src, corr, h') && Tree(h'.tpls, h'.brk)
    requires Childless(c, h.tpls) && c in h.tpls && h.tpls[c].parent == None
    requires src in h.tpls && Selection(src, h.tpls)
    ensures src in h'.tpls && Selection(src, h'.tpls) && Path(src, h'.tpls) == Path(src, h.tpls)
    ensures c in h'.tpls && Selection(c, h'.tpls)
    ensures forall v | v in Path(src, h.tpls) :: v in corr
    ensures Path(c, h'.tpls) == Renamed(Path(src, h.tpls), corr)
  {
    assert Rooted(h.tpls);
    SelectionSurvives(h, c, src, corr, h', top);
    MadeIsCopied(h, c, src, corr, h', top);
    hide PathTo, Listed, Threaded, Bodies, CopyMade, Inside, Childless, Copied, LooseOff, CopyReady;
    assert src in corr && c in h.tpls && c in h'.tpls by { MadeHasRoot(h, c, src, corr, h', top); }
    CopiedThread(src, corr, h');
    CopiedLoose(h, c, src, corr, h', Path(src, h'.tpls));
  }

  lemma MadeHasRoot(h: Heap, c: Ptr, src: Ptr, corr: Match, h': Heap, top: Ptr)
    requires CopyReady(h, c, src, top) && CopyMade(h, c, src, corr, h')
    ensures src in corr && c in h.tpls && c in h'.tpls && corr[src] == c
  {
  }

  /** No node of added content is in the lists of two templates, be they originals or copies. */
  lemma NothingShared(st: Store, u: Ptr, v: Ptr)
    requires st.Valid() && u in st.tpls && v in st.tpls && u != v
    ensures u in st.added && v in st.added && forall x | x in st.added[u] :: x !in st.added[v]
  {
    ListInChunks(st.tpls, st.chunks, st.brk, st.added, st.owner);
    OwnedApart(st.added, st.owner, u, v);
  }
}
