/** The selection cursor: which section of a document the field, append and set operations act on. */
module Selecting {
  import opened ByteStrings
  import opened Chains
  import opened TemplateObjects
  import opened Templates

  /** The templates from the root down to `u`, following parents upwards. */
  ghost function PathTo(root: Ptr, u: Ptr, tpls: Tpls): (p: seq<Ptr>)
    ensures p != [] && p[|p| - 1] == u
    ensures forall i, j | 0 <= i < j < |p| :: p[i] < p[j]
    decreases u
  {
    if u != root && u in tpls && tpls[u].parent.Some? && tpls[u].parent.value < u
    then PathTo(root, tpls[u].parent.value, tpls) + [u]
    else [u]
  }

  ghost predicate Inside(root: Ptr, u: Ptr, tpls: Tpls)
    decreases u
  {
    u == root || (u in tpls && tpls[u].parent.Some? && tpls[u].parent.value < u
      && Inside(root, tpls[u].parent.value, tpls))
  }

  ghost predicate Listed(t: Ptr, c: Ptr, tpls: Tpls) {
    t in tpls && exists s :: s in tpls[t].first && s.tpl == c
  }

  ghost predicate LinksTo(t: Ptr, u: Ptr, tpls: Tpls) {
    t in tpls && tpls[t].tpl == u
  }

  ghost function Path(root: Ptr, tpls: Tpls): seq<Ptr>
    requires root in tpls
  {
    PathTo(root, tpls[root].tpl, tpls)
  }

  /** Nested sections, the inner ones linking to the next and the last to itself. */
  ghost predicate Threaded(p: seq<Ptr>, tpls: Tpls)
    requires p != []
  {
    && (forall i, j | 0 <= i && j == i + 1 < |p| :: Listed(p[i], p[j], tpls))
    && (forall i, j | 0 < i && j == i + 1 < |p| :: LinksTo(p[i], p[j], tpls))
    && LinksTo(p[|p| - 1], p[|p| - 1], tpls)
  }

  ghost predicate LooseOff(p: seq<Ptr>, root: Ptr, tpls: Tpls) {
    forall u | u in tpls && Inside(root, u, tpls) && u !in p :: tpls[u].tpl == u
  }

  /** The links from the root form one path of nested sections, at the end of which the root points;
      everything off the path links to itself. */
  ghost predicate Selection(root: Ptr, tpls: Tpls)
    requires root in tpls
  {
    var p := Path(root, tpls);
    p[0] == root && Threaded(p, tpls) && LooseOff(p, root, tpls)
  }

  /** Only links differ. */
  ghost predicate SameButLinks(tpls: Tpls, tpls': Tpls) {
    tpls'.Keys == tpls.Keys && forall u | u in tpls :: tpls'[u] == tpls[u].(tpl := tpls'[u].tpl)
  }

  lemma {:induction false} PathFrame(root: Ptr, u: Ptr, tpls: Tpls, tpls': Tpls)
    requires tpls'.Keys == tpls.Keys && forall v | v in tpls :: tpls'[v].parent == tpls[v].parent
    ensures PathTo(root, u, tpls') == PathTo(root, u, tpls)
    ensures Inside(root, u, tpls') <==> Inside(root, u, tpls)
    decreases u
  {
    if u in tpls && tpls[u].parent.Some? && tpls[u].parent.value < u {
      PathFrame(root, tpls[u].parent.value, tpls, tpls');
    }
  }

  function SelectLinks(root: Ptr, next: Ptr, tpls: Tpls): Tpls
    requires root in tpls && tpls[root].tpl in tpls && next in tpls
  {
    var end := tpls[root].tpl;
    var linked := tpls[end := tpls[end].(tpl := next)];
    linked[root := linked[root].(tpl := linked[linked[root].tpl].tpl)]
  }

  function DeselectLinks(root: Ptr, tpls: Tpls): Tpls
    requires root in tpls
  {
    var end := tpls[root].tpl;
    if end in tpls && tpls[end].parent.Some? && tpls[end].parent.value in tpls then
      var up := tpls[end].parent.value;
      var linked := tpls[root := tpls[root].(tpl := up)];
      linked[up := linked[up].(tpl := up)]
    else tpls
  }

  lemma ListedFrame(tpls: Tpls, tpls': Tpls)
    requires SameButLinks(tpls, tpls')
    ensures forall t, c | Listed(t, c, tpls) :: Listed(t, c, tpls')
  {
  }

  lemma PathStep(root: Ptr, u: Ptr, tpls: Tpls)
    requires u in tpls && root < u && tpls[u].parent.Some? && tpls[u].parent.value < u
    ensures PathTo(root, u, tpls) == PathTo(root, tpls[u].parent.value, tpls) + [u]
    ensures Inside(root, u, tpls) <==> Inside(root, tpls[u].parent.value, tpls)
  {
  }

  /** A listed section that is next to the end of the path is off the path, and links to itself. */
  lemma NextIsOffPath(root: Ptr, next: Ptr, tpls: Tpls, brk: Ptr)
    requires Tree(tpls, brk) && root in tpls && Selection(root, tpls) && Listed(tpls[root].tpl, next, tpls)
    ensures next in tpls && tpls[root].tpl < next && tpls[next].parent == Some(tpls[root].tpl)
    ensures next !in Path(root, tpls) && tpls[next].tpl == next
    ensures PathTo(root, next, tpls) == Path(root, tpls) + [next]
  {
    hide PathTo, Inside, Threaded;
    var p := Path(root, tpls);
    assert p[|p| - 1] == tpls[root].tpl && root <= p[|p| - 1];
    assert forall i | 0 <= i < |p| :: p[i] <= p[|p| - 1];
    PathInside(root, tpls[root].tpl, tpls);
    PathStep(root, next, tpls);
  }

  lemma {:induction false} PathInside(root: Ptr, u: Ptr, tpls: Tpls)
    requires PathTo(root, u, tpls)[0] == root
    ensures Inside(root, u, tpls) && root <= u
    decreases u
  {
    if u != root && u in tpls && tpls[u].parent.Some? && tpls[u].parent.value < u {
      assert PathTo(root, u, tpls)[0] == PathTo(root, tpls[u].parent.value, tpls)[0];
      PathInside(root, tpls[u].parent.value, tpls);
    }
  }

  lemma ThreadedExtends(p: seq<Ptr>, next: Ptr, tpls: Tpls, tpls': Tpls)
    requires p != [] && Threaded(p, tpls) && SameButLinks(tpls, tpls') && Listed(p[|p| - 1], next, tpls)
    requires next in tpls && tpls'[next].tpl == next && (|p| > 1 ==> tpls'[p[|p| - 1]].tpl == next)
    requires forall i | 0 < i < |p| - 1 :: p[i] in tpls ==> tpls'[p[i]].tpl == tpls[p[i]].tpl
    ensures Threaded(p + [next], tpls')
  {
    hide Listed;
    ListedFrame(tpls, tpls');
    var q := p + [next];
    assert forall i | 0 <= i < |p| :: q[i] == p[i];
    forall i, j | 0 <= i && j == i + 1 < |q| ensures Listed(q[i], q[j], tpls') {
      assert Listed(q[i], q[j], tpls);
    }
    forall i, j | 0 < i && j == i + 1 < |q| ensures LinksTo(q[i], q[j], tpls') {
      assert j < |p| ==> LinksTo(p[i], p[j], tpls);
    }
  }

  lemma ThreadedShrinks(p: seq<Ptr>, tpls: Tpls, tpls': Tpls)
    requires |p| > 1 && Threaded(p, tpls) && SameButLinks(tpls, tpls')
    requires p[|p| - 2] in tpls && tpls'[p[|p| - 2]].tpl == p[|p| - 2]
    requires forall i | 0 < i < |p| - 2 :: p[i] in tpls ==> tpls'[p[i]].tpl == tpls[p[i]].tpl
    ensures Threaded(p[..|p| - 1], tpls')
  {
    hide Listed;
    ListedFrame(tpls, tpls');
    var q := p[..|p| - 1];
    assert forall i | 0 <= i < |q| :: q[i] == p[i];
    forall i, j | 0 <= i && j == i + 1 < |q| ensures Listed(q[i], q[j], tpls') {
      assert Listed(p[i], p[j], tpls);
    }
    forall i, j | 0 < i && j == i + 1 < |q| ensures LinksTo(q[i], q[j], tpls') {
      assert LinksTo(p[i], p[j], tpls);
    }
    assert q[|q| - 1] == p[|p| - 2];
  }

  lemma LooseFrame(p: seq<Ptr>, p': seq<Ptr>, root: Ptr, tpls: Tpls, tpls': Tpls)
    requires LooseOff(p, root, tpls) && SameButLinks(tpls, tpls')
    requires forall u | u in tpls && u !in p' :: tpls'[u].tpl == if u in p then u else tpls[u].tpl
    ensures LooseOff(p', root, tpls')
  {
    hide Inside, PathTo;
    forall u { PathFrame(root, u, tpls, tpls'); }
  }

  /** What selecting a section of the selected template does. */
  lemma SelectKeeps(root: Ptr, next: Ptr, tpls: Tpls, brk: Ptr)
    requires Tree(tpls, brk) && root in tpls && Selection(root, tpls) && Listed(tpls[root].tpl, next, tpls)
    ensures next in tpls
    ensures var tpls' := SelectLinks(root, next, tpls);
            && SameButLinks(tpls, tpls') && Selection(root, tpls')
            && Path(root, tpls') == Path(root, tpls) + [next]
  {
    hide PathTo, Inside, Listed, Threaded, LooseOff;
    NextIsOffPath(root, next, tpls, brk);
    EndLinksToItself(Path(root, tpls), tpls);
    var tpls' := SelectLinks(root, next, tpls);
    PathFrame(root, next, tpls, tpls');
    var p := Path(root, tpls);
    assert p[0] == root && p[|p| - 1] == tpls[root].tpl;
    ThreadedExtends(p, next, tpls, tpls');
    LooseFrame(p, p + [next], root, tpls, tpls');
  }

  lemma SelectedHasParent(root: Ptr, tpls: Tpls, brk: Ptr)
    requires Tree(tpls, brk) && root in tpls && Selection(root, tpls) && tpls[root].tpl != root
    ensures var end := tpls[root].tpl;
            && end in tpls && tpls[end].parent.Some? && tpls[end].parent.value in tpls
            && tpls[end].parent.value < end
            && Path(root, tpls) == PathTo(root, tpls[end].parent.value, tpls) + [end]
  {
    var p, end := Path(root, tpls), tpls[root].tpl;
    assert |p| > 1;
    assert Listed(p[|p| - 2], p[|p| - 1], tpls);
  }

  lemma DeselectKeeps(root: Ptr, tpls: Tpls, brk: Ptr)
    requires Tree(tpls, brk) && root in tpls && Selection(root, tpls) && tpls[root].tpl != root
    ensures var tpls' := DeselectLinks(root, tpls);
            && SameButLinks(tpls, tpls') && Selection(root, tpls')
            && Path(root, tpls') + [tpls[root].tpl] == Path(root, tpls)
  {
    hide PathTo, Inside, Listed, Threaded, LooseOff;
    SelectedHasParent(root, tpls, brk);
    var tpls' := DeselectLinks(root, tpls);
    var p, end := Path(root, tpls), tpls[root].tpl;
    var up := tpls[end].parent.value;
    PathFrame(root, up, tpls, tpls');
    assert p[..|p| - 1] == PathTo(root, up, tpls);
    assert p[|p| - 2] == PathTo(root, up, tpls)[|p| - 2] == up;
    EndLinksToItself(p, tpls);
    ThreadedShrinks(p, tpls, tpls');
    LooseFrame(p, p[..|p| - 1], root, tpls, tpls');
  }

  lemma EndLinksToItself(p: seq<Ptr>, tpls: Tpls)
    requires p != [] && Threaded(p, tpls)
    ensures p[|p| - 1] in tpls && tpls[p[|p| - 1]].tpl == p[|p| - 1]
  {
  }

  /** Deselecting undoes selecting: every link is what it was. */
  lemma DeselectUndoesSelect(root: Ptr, next: Ptr, tpls: Tpls, brk: Ptr)
    requires Tree(tpls, brk) && root in tpls && Selection(root, tpls) && Listed(tpls[root].tpl, next, tpls)
    ensures next in tpls && DeselectLinks(root, SelectLinks(root, next, tpls)) == tpls
  {
    NextIsOffPath(root, next, tpls, brk);
    var p := Path(root, tpls);
    hide PathTo, Inside, Listed;
    assert p[|p| - 1] == tpls[root].tpl;
  }

  /** A section that a failed parse left without a parent is found by its name and can be selected, but not
      deselected again: its parent, which `tpl_deselect_section` writes to, is null. */
  lemma OrphanBreaksDeselect(t: Ptr, tpls: Tpls, brk: Ptr)
    requires Orphaned(t, tpls)
    ensures !Tree(tpls, brk)
    ensures var s := tpls[t].first[|tpls[t].first| - 1];
            var selected := SelectLinks(t, s.tpl, tpls);
            && SelectedOf(t, tpls) == t && SectionFor(tpls[t], s.key) == Some(s)
            && t in selected && selected[t].tpl == s.tpl
            && s.tpl in selected && selected[s.tpl].parent == None
  {
    hide SectionFor;
    assert tpls[t].first[|tpls[t].first| - 1] in tpls[t].first;
  }

  /** `tpl_select_section` */
  method SelectSection(st: Store, root: Ptr, key: Bytes) returns (ok: bool)
    requires st.Valid() && root in st.tpls && Selection(root, st.tpls) && GoodName(key)
    modifies st`tpls
    ensures st.Valid() && root in st.tpls && Selection(root, st.tpls)
    ensures SelectedOf(root, old(st.tpls)) in old(st.tpls)
    ensures var found := SectionFor(old(st.tpls)[SelectedOf(root, old(st.tpls))], key);
            if found == None then !ok && st.tpls == old(st.tpls)
            else
              && ok && found.value.tpl in old(st.tpls)
              && st.tpls == SelectLinks(root, found.value.tpl, old(st.tpls))
              && Path(root, st.tpls) == Path(root, old(st.tpls)) + [found.value.tpl]
  {
    hide SoundStore, Selection, Path, FieldsIndexed, SectionsIndexed, Linked, Whole, SectionFor, Tree;
    SelectedIsThere(root, st.tpls);
    WholeOf(st.tpls, st.chunks, st.brk, st.added, st.owner, st.tpls[root].tpl);
    TreeOf(st.tpls, st.chunks, st.brk, st.added, st.owner);
    var section := st.GetSection(st.tpls[root].tpl, key);
    if section == None {
      return false;
    }
    FoundIsListed(st.tpls[root].tpl, st.tpls, key);
    SelectKeeps(root, section.value.tpl, st.tpls, st.brk);
    LinksKeepSound(st.tpls, st.chunks, st.brk, st.added, st.owner, SelectLinks(root, section.value.tpl, st.tpls));
    var end := st.tpls[root].tpl;
    st.tpls := st.tpls[end := st.tpls[end].(tpl := section.value.tpl)];
    st.tpls := st.tpls[root := st.tpls[root].(tpl := st.tpls[st.tpls[root].tpl].tpl)];
    return true;
  }

  function SelectedOf(root: Ptr, tpls: Tpls): Ptr {
    if root in tpls then tpls[root].tpl else root
  }

  lemma SelectedIsThere(root: Ptr, tpls: Tpls)
    requires root in tpls && Selection(root, tpls)
    ensures tpls[root].tpl in tpls
  {
    hide PathTo, LooseOff, Listed;
    assert LinksTo(Path(root, tpls)[|Path(root, tpls)| - 1], tpls[root].tpl, tpls);
  }

  lemma TreeOf(tpls: Tpls, chunks: map<Ptr, Chunk>, brk: Ptr, added: Lists, owner: map<Ptr, Ptr>)
    requires SoundStore(tpls, chunks, brk, added, owner)
    ensures Tree(tpls, brk) && added.Keys == tpls.Keys
  {
  }

  lemma FoundIsListed(t: Ptr, tpls: Tpls, key: Bytes)
    requires t in tpls && SectionsIndexed(tpls[t]) && SectionFor(tpls[t], key).Some?
    ensures Listed(t, SectionFor(tpls[t], key).value.tpl, tpls)
    ensures SectionFor(tpls[t], key).value in tpls[t].first && key <= SectionFor(tpls[t], key).value.key
  {
    var r, b := tpls[t], Bucket(key);
    assert SectionFor(r, key).value in r.sections[b] && r.sections[b] == SectionsIn(r.first, b);
  }

  lemma LinksKeepSound(tpls: Tpls, chunks: map<Ptr, Chunk>, brk: Ptr, added: Lists, owner: map<Ptr, Ptr>, tpls': Tpls)
    requires SoundStore(tpls, chunks, brk, added, owner) && SameButLinks(tpls, tpls')
    ensures SoundStore(tpls', chunks, brk, added, owner)
  {
    hide Whole, Owned, Rooted;
    RootedSame(tpls, tpls');
    forall t | t in tpls ensures Whole(t, tpls'[t], added[t], chunks) {
      WholeIgnoresLink(t, tpls[t], tpls'[t].tpl, added[t], chunks);
    }
  }

  lemma WholeIgnoresLink(t: Ptr, r: Tpl, link: Ptr, list: seq<Ptr>, chunks: map<Ptr, Chunk>)
    requires Whole(t, r, list, chunks)
    ensures Whole(t, r.(tpl := link), list, chunks)
  {
  }

  /** `tpl_deselect_section` */
  method DeselectSection(st: Store, root: Ptr) returns (ok: bool)
    requires st.Valid() && root in st.tpls && Selection(root, st.tpls)
    modifies st`tpls
    ensures st.Valid() && root in st.tpls && Selection(root, st.tpls)
    ensures ok <==> SelectedOf(root, old(st.tpls)) != root
    ensures !ok ==> st.tpls == old(st.tpls)
    ensures ok ==>
      && st.tpls == DeselectLinks(root, old(st.tpls))
      && Path(root, st.tpls) + [SelectedOf(root, old(st.tpls))] == Path(root, old(st.tpls))
  {
    hide SoundStore, Selection, Path, Tree;
    if st.tpls[root].tpl == root {
      return false;
    }
    TreeOf(st.tpls, st.chunks, st.brk, st.added, st.owner);
    SelectedHasParent(root, st.tpls, st.brk);
    DeselectKeeps(root, st.tpls, st.brk);
    LinksKeepSound(st.tpls, st.chunks, st.brk, st.added, st.owner, DeselectLinks(root, st.tpls));
    st.tpls := st.tpls[root := st.tpls[root].(tpl := st.tpls[st.tpls[root].tpl].parent.value)];
    var up := st.tpls[root].tpl;
    st.tpls := st.tpls[up := st.tpls[up].(tpl := up)];
    return true;
  }
}
