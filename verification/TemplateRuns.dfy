/** Histories of operations on a template: what each operation does, what all of them keep, and what a
    reset makes of it. */
module TemplateRuns {
  import opened ByteStrings
  import opened Chains
  import opened Markup
  import opened Weaving
  import opened Shadowing
  import opened ParseSteps
  import opened TemplateObjects
  import opened Templates
  import opened Selecting
  import opened Setting
  import opened Replacing
  import opened Appending
  import opened Correspondence
  import opened CopiedSelection
  import opened Cloning
  import opened Resetting
  import opened Freshness

  datatype Op =
    | Select(key: Bytes)
    | Deselect
    | Append
    | Set(key: Bytes, val: Bytes)
    | SetEverywhere(key: Bytes, val: Bytes)
    | Replace(key: Bytes, val: Bytes)
    | ResetAll
    | Copy

  predicate GoodOp(op: Op) {
    op.Select? || op.Set? || op.SetEverywhere? || op.Replace? ==> GoodName(op.key)
  }

  /** The section of the selected template that a name finds. */
  function Found(root: Ptr, key: Bytes, tpls: Tpls): Option<SectionCell> {
    if SelectedOf(root, tpls) in tpls then SectionFor(tpls[SelectedOf(root, tpls)], key) else None
  }

  /** The program writes through a null pointer: a lone field is to be replaced by nothing. */
  predicate Crashes(root: Ptr, op: Op, tpls: Tpls) {
    op.Replace? && !Settable(root, op.key, op.val, tpls)
  }

  /** The name finds a section of the selected template whose whole document is one field. */
  ghost predicate FindsLoneField(root: Ptr, key: Bytes, tpls: Tpls, brk: Ptr)
    requires Tree(tpls, brk)
  {
    exists s: SectionCell, name: Bytes ::
      && Found(root, key, tpls) == Some(s) && s.tpl in tpls && Document(s.tpl, tpls, brk) == [Field(name)]
  }

  /** What is written through the null pointer, told by the document. */
  lemma CrashesIff(st: Store, root: Ptr, op: Op)
    requires st.Valid() && Tree(st.tpls, st.brk) && root in st.tpls && Selection(root, st.tpls) && GoodOp(op)
    ensures Crashes(root, op, st.tpls)
      <==> op.Replace? && op.val == [] && FindsLoneField(root, op.key, st.tpls, st.brk)
  {
    hide SoundStore, Selection, SectionFor, GoodName, FieldsIndexed, SectionsIndexed, Document, SingleField;
    SelectedIsThere(root, st.tpls);
    var sel := SelectedOf(root, st.tpls);
    WholeOf(st.tpls, st.chunks, st.brk, st.added, st.owner, sel);
    if op.Replace? && SectionFor(st.tpls[sel], op.key).Some? {
      FoundIsListed(sel, st.tpls, op.key);
      var c := SectionFor(st.tpls[sel], op.key).value.tpl;
      assert Found(root, op.key, st.tpls).value.tpl == c && c in st.tpls;
      LoneFieldIff(c, st.tpls, st.brk, op.val);
    }
  }

  lemma LoneFieldIff(c: Ptr, tpls: Tpls, brk: Ptr, val: Bytes)
    requires Tree(tpls, brk) && c in tpls
    ensures SingleField(tpls[c], val)
      <==> val == [] && exists name: Bytes :: Document(c, tpls, brk) == [Field(name)]
  {
    hide Tree;
    var r := tpls[c];
    var parts := Parts(c, |r.first|, tpls, brk);
    WeaveSize(Items(r), parts);
    if |Document(c, tpls, brk)| == 1 {
      if r.first == [] {
        assert parts == [] && Items(r)[..0] == [];
        assert Weave(Items(r), parts) == [Items(r)[0]];
        assert Items(r)[0].Field? ==> Document(c, tpls, brk) == [Field(Items(r)[0].name)];
      } else {
        assert parts[..0] == [] && Items(r) == [];
        assert Weave(Items(r), parts) == [parts[0].what];
      }
    }
  }

  lemma {:induction false} WeaveSize<T>(nodes: seq<T>, placed: seq<Placed<T>>)
    ensures |Weave(nodes, placed)| == |nodes| + |placed|
    decreases |nodes| + |placed|
  {
    if placed != [] && |nodes| <= placed[|placed| - 1].pos {
      WeaveSize(nodes, placed[..|placed| - 1]);
    } else if nodes != [] {
      WeaveSize(nodes[..|nodes| - 1], placed);
    }
  }

  predicate Succeeds(root: Ptr, op: Op, tpls: Tpls) {
    match op
    case Select(key) => Found(root, key, tpls).Some?
    case Replace(key, _) => Found(root, key, tpls).Some?
    case Deselect => SelectedOf(root, tpls) != root
    case Append => SelectedOf(root, tpls) != root
    case _ => true
  }

  // ---- What each operation does

  ghost predicate Selected(root: Ptr, key: Bytes, tpls: Tpls, tpls': Tpls) {
    match Found(root, key, tpls)
    case None => tpls' == tpls
    case Some(s) =>
      && root in tpls && tpls[root].tpl in tpls && s.tpl in tpls && root in tpls'
      && tpls' == SelectLinks(root, s.tpl, tpls) && Path(root, tpls') == Path(root, tpls) + [s.tpl]
  }

  ghost predicate Deselected(root: Ptr, tpls: Tpls, tpls': Tpls) {
    if SelectedOf(root, tpls) == root then tpls' == tpls
    else
      && root in tpls && root in tpls'
      && tpls' == DeselectLinks(root, tpls) && Path(root, tpls') + [SelectedOf(root, tpls)] == Path(root, tpls)
  }

  ghost predicate AppendedTo(root: Ptr, h: Heap, h': Heap) {
    var s := SelectedOf(root, h.tpls);
    if s == root then h' == h
    else
      && s in h.tpls
      && AddedText(ListOf(s, h'.added), h'.chunks)
         == AddedText(ListOf(s, h.added), h.chunks) + Rendered(h.tpls[s], h.added, h.chunks)
      && (forall c | c in Kids(h.tpls[s].first) :: ListOf(c, h'.added) == [])
      && Relisted(h.tpls, h.chunks, h'.tpls, h'.chunks, h.added, h'.added, {s} + Kids(h.tpls[s].first))
  }

  ghost predicate ReplacedIn(root: Ptr, key: Bytes, val: Bytes, h: Heap, h': Heap) {
    match Found(root, key, h.tpls)
    case None => h' == h
    case Some(s) =>
      SectionReplaced(s.tpl, SelectedOf(root, h.tpls), val, h.tpls, h'.tpls, h.added, h'.added, h.chunks, h'.chunks)
  }

  ghost predicate SetInSelected(root: Ptr, key: Bytes, val: Bytes, tpls: Tpls, tpls': Tpls) {
    var t := SelectedOf(root, tpls);
    t in tpls && tpls' == tpls[t := SetIn(tpls[t], key, val)]
  }

  ghost predicate CopiedFrom(root: Ptr, h: Heap, h': Heap)
    requires Tree(h.tpls, h.brk) && root in h.tpls
  {
    exists c, corr :: Cloned(root, c, corr, h, h')
  }

  /** The step from `h` to `h'` is what the operation does. */
  ghost predicate Did(root: Ptr, op: Op, h: Heap, h': Heap) {
    && Tree(h.tpls, h.brk) && root in h.tpls && !Crashes(root, op, h.tpls)
    && match op
       case Select(key) => h' == h.(tpls := h'.tpls) && Selected(root, key, h.tpls, h'.tpls)
       case Deselect => h' == h.(tpls := h'.tpls) && Deselected(root, h.tpls, h'.tpls)
       case Append => AppendedTo(root, h, h')
       case Set(key, val) => h' == h.(tpls := h'.tpls) && SetInSelected(root, key, val, h.tpls, h'.tpls)
       case SetEverywhere(key, val) =>
         h' == h.(tpls := h'.tpls) && SetWhere(h.tpls, h'.tpls, Targets(root, h.tpls, h.brk), key, val)
       case Replace(key, val) => ReplacedIn(root, key, val, h, h')
       case ResetAll => ResetOver(h, Below(root, h.tpls, h.brk), Below(root, h.tpls, h.brk) - {root}, h')
       case Copy => CopiedFrom(root, h, h')
  }

  /** The operations were carried out one after the other, each as it does. */
  ghost predicate Ran(root: Ptr, ops: seq<Op>, h: Heap, h': Heap) {
    if ops == [] then h' == h
    else
      var front, last := ops[..|ops| - 1], ops[|ops| - 1];
      exists m: Heap :: Ran(root, front, h, m) && Did(root, last, m, h')
  }

  lemma RanMore(root: Ptr, ops: seq<Op>, op: Op, h: Heap, m: Heap, h': Heap)
    requires Ran(root, ops, h, m) && Did(root, op, m, h')
    ensures Ran(root, ops + [op], h, h')
  {
    assert (ops + [op])[..|ops + [op]| - 1] == ops;
  }

  // ---- What all of them keep

  lemma LinksDownThere(root: Ptr, tpls: Tpls, brk: Ptr)
    requires Tree(tpls, brk) && root in tpls && Selection(root, tpls)
    ensures forall u | u in tpls && Reach(root, u, tpls, brk) :: tpls[u].tpl in tpls
  {
    hide Selection, Reach;
    SelectionLinksDown(root, tpls, brk);
    forall u | u in tpls && Reach(root, u, tpls, brk) ensures tpls[u].tpl in tpls {
      assert u in Below(root, tpls, brk);
    }
  }

  lemma CloneKeepsShapes(src: Ptr, c: Ptr, corr: Match, h: Heap, h': Heap)
    requires Tree(h.tpls, h.brk) && src in h.tpls && Cloned(src, c, corr, h, h')
    ensures SameShapes(h.tpls, h'.tpls) && src in h'.tpls && Selection(src, h'.tpls)
  {
    hide ClonedTree, Document, Selection, Path, CellKeys, Tree;
  }

  lemma ResetKeepsLinks(h: Heap, fields: set<Ptr>, lists: set<Ptr>, h': Heap)
    requires ResetOver(h, fields, lists, h')
    ensures SameLinks(h.tpls, h'.tpls)
  {
    hide ResetOver;
    ResetKeepsShape(h, fields, lists, h');
  }

  /** Selecting and deselecting, with what they do. */
  method PerformSelect(st: Store, root: Ptr, key: Bytes) returns (ok: bool)
    requires st.Valid() && root in st.tpls && Selection(root, st.tpls) && GoodName(key)
    modifies st`tpls
    ensures st.Valid() && root in st.tpls && Selection(root, st.tpls) && SameShapes(old(st.tpls), st.tpls)
    ensures Selected(root, key, old(st.tpls), st.tpls) && ok == Found(root, key, old(st.tpls)).Some?
  {
    hide SoundStore, Selection, SameShapes, GoodName, SelectLinks, SectionFor;
    ghost var was := st.tpls;
    SelectedIsThere(root, was);
    ShapesSelf(was);
    ok := SelectSection(st, root, key);
    if ok {
      SelectedShapes(root, SectionFor(was[was[root].tpl], key).value.tpl, was);
    }
  }

  method PerformDeselect(st: Store, root: Ptr) returns (ok: bool)
    requires st.Valid() && root in st.tpls && Selection(root, st.tpls)
    modifies st`tpls
    ensures st.Valid() && root in st.tpls && Selection(root, st.tpls) && SameShapes(old(st.tpls), st.tpls)
    ensures Deselected(root, old(st.tpls), st.tpls) && ok == (SelectedOf(root, old(st.tpls)) != root)
  {
    hide SoundStore, Selection, SameShapes, DeselectLinks;
    ghost var was := st.tpls;
    ShapesSelf(was);
    ok := DeselectSection(st, root);
    if ok {
      DeselectedShapes(root, was);
    }
  }

  method PerformAppend(st: Store, root: Ptr) returns (ok: bool)
    requires st.Valid() && root in st.tpls && Selection(root, st.tpls)
    modifies st`tpls, st`chunks, st`brk, st`added, st`owner
    ensures st.Valid() && root in st.tpls && Selection(root, st.tpls) && SameShapes(old(st.tpls), st.tpls)
    ensures AppendedTo(root, old(HeapOf(st)), HeapOf(st)) && ok == (SelectedOf(root, old(st.tpls)) != root)
  {
    hide SoundStore, Selection, SameShapes, SameLinks, Relisted, Rendered, AddedText;
    ghost var was := st.tpls;
    SelectedIsThere(root, was);
    ShapesSelf(was);
    ok := AppendSection(st, root);
    if ok {
      ghost var s := was[root].tpl;
      RelistedKeeps(was, old(st.chunks), st.tpls, st.chunks, old(st.added), st.added, {s} + Kids(was[s].first));
      KeptRoot(root, was, st.tpls);
    }
  }

  method PerformSet(st: Store, root: Ptr, key: Bytes, val: Bytes)
    requires st.Valid() && root in st.tpls && Selection(root, st.tpls) && GoodName(key)
    modifies st`tpls
    ensures st.Valid() && root in st.tpls && Selection(root, st.tpls) && SameShapes(old(st.tpls), st.tpls)
    ensures SetInSelected(root, key, val, old(st.tpls), st.tpls)
  {
    hide SoundStore, Selection, SameShapes, SameLinks, SetIn, GoodName, SetWhere;
    ghost var was := st.tpls;
    SelectedIsThere(root, was);
    ValidSizes(st);
    SetField(st, root, key, val);
    SetOne(was, was[root].tpl, key, val);
    SetKeepsShapes(was, st.tpls, iset{was[root].tpl}, key, val);
    KeptRoot(root, was, st.tpls);
  }

  method PerformSetEverywhere(st: Store, root: Ptr, key: Bytes, val: Bytes)
    requires st.Valid() && Tree(st.tpls, st.brk) && root in st.tpls && Selection(root, st.tpls) && GoodName(key)
    modifies st`tpls
    ensures st.Valid() && root in st.tpls && Selection(root, st.tpls) && SameShapes(old(st.tpls), st.tpls)
    ensures SetWhere(old(st.tpls), st.tpls, old(Targets(root, st.tpls, st.brk)), key, val)
  {
    hide SoundStore, Selection, SameShapes, SameLinks, SetIn, GoodName, SetWhere, Tree, Reach, Targets;
    ghost var was := st.tpls;
    ValidSizes(st);
    LinksDownThere(root, was, st.brk);
    SetFieldGlobal(st, root, key, val);
    SetKeepsShapes(was, st.tpls, old(Targets(root, st.tpls, st.brk)), key, val);
    KeptRoot(root, was, st.tpls);
  }

  method PerformReset(st: Store, root: Ptr)
    requires st.Valid() && Tree(st.tpls, st.brk) && root in st.tpls && Selection(root, st.tpls)
    modifies st`tpls, st`added
    ensures st.Valid() && root in st.tpls && Selection(root, st.tpls) && SameShapes(old(st.tpls), st.tpls)
    ensures ResetOver(old(HeapOf(st)), old(Below(root, st.tpls, st.brk)), old(Below(root, st.tpls, st.brk)) - {root},
      HeapOf(st))
  {
    hide SoundStore, Selection, SameShapes, SameLinks, ResetOver, Below, Tree;
    ghost var h, all := HeapOf(st), Below(root, st.tpls, st.brk);
    Reset(st, root);
    ResetShapes(h, all, all - {root}, HeapOf(st));
    ResetKeepsLinks(h, all, all - {root}, HeapOf(st));
    KeptRoot(root, h.tpls, st.tpls);
  }

  method PerformCopy(st: Store, root: Ptr)
    requires st.Valid() && Tree(st.tpls, st.brk) && root in st.tpls && Selection(root, st.tpls)
    modifies st`tpls, st`chunks, st`brk, st`added, st`owner
    ensures st.Valid() && root in st.tpls && Selection(root, st.tpls) && SameShapes(old(st.tpls), st.tpls)
    ensures CopiedFrom(root, old(HeapOf(st)), HeapOf(st))
  {
    hide SoundStore, Selection, SameShapes, Cloned, Tree;
    ghost var h := HeapOf(st);
    var c;
    ghost var corr;
    c, corr := Clone(st, root);
    CloneKeepsShapes(root, c, corr, h, HeapOf(st));
  }

  /** One step of a history: it crashes, or it does what the operation does. */
  method Perform(st: Store, root: Ptr, op: Op) returns (ok: bool, crashed: bool)
    requires st.Valid() && root in st.tpls && Selection(root, st.tpls) && GoodOp(op)
    modifies st`tpls, st`chunks, st`brk, st`added, st`owner
    ensures st.Valid() && root in st.tpls && Selection(root, st.tpls)
    ensures crashed == Crashes(root, op, old(st.tpls))
    ensures Tree(old(st.tpls), old(st.brk))
    ensures crashed <==> op.Replace? && op.val == [] && FindsLoneField(root, op.key, old(st.tpls), old(st.brk))
    ensures crashed ==> HeapOf(st) == old(HeapOf(st))
    ensures !crashed ==> Did(root, op, old(HeapOf(st)), HeapOf(st)) && ok == Succeeds(root, op, old(st.tpls))
    ensures !op.Replace? ==> SameShapes(old(st.tpls), st.tpls)
  {
    hide SoundStore, Selection, SameShapes, SectionReplaced, GoodName, SetWhere, Tree, Selected, Deselected, AppendedTo,
      SetInSelected, ResetOver, CopiedFrom, Below, Targets, Settable, SectionFor, FindsLoneField;
    ok, crashed := true, false;
    StoreIsRooted(st);
    CrashesIff(st, root, op);
    match op
    case Select(key) => ok := PerformSelect(st, root, key);
    case Deselect => ok := PerformDeselect(st, root);
    case Append => ok := PerformAppend(st, root);
    case Set(key, val) => PerformSet(st, root, key, val);
    case SetEverywhere(key, val) => PerformSetEverywhere(st, root, key, val);
    case Replace(key, val) =>
      if Settable(root, key, val, st.tpls) {
        ok := SetSection(st, root, key, val);
      } else {
        crashed := true;
      }
    case ResetAll => PerformReset(st, root);
    case Copy => PerformCopy(st, root);
  }

  /** A history: any operations, in any order, up to the first that crashes. The selection stays one path of
      nested sections throughout. */
  method Run(st: Store, root: Ptr, ops: seq<Op>) returns (done: nat, crashed: bool)
    requires st.Valid() && root in st.tpls && Selection(root, st.tpls) && forall op | op in ops :: GoodOp(op)
    modifies st`tpls, st`chunks, st`brk, st`added, st`owner
    ensures st.Valid() && root in st.tpls && Selection(root, st.tpls)
    ensures done <= |ops| && Ran(root, ops[..done], old(HeapOf(st)), HeapOf(st))
    ensures if crashed then done < |ops| && Crashes(root, ops[done], st.tpls) else done == |ops|
    ensures Tree(st.tpls, st.brk)
    ensures crashed ==> done < |ops| && ops[done].Replace? && FindsLoneField(root, ops[done].key, st.tpls, st.brk)
    ensures (forall op | op in ops :: !op.Replace?) ==> SameShapes(old(st.tpls), st.tpls)
  {
    hide SoundStore, Selection, SameShapes, GoodOp, Did, Ran, Crashes, FindsLoneField, Tree;
    StoreIsRooted(st);
    ShapesSelf(st.tpls);
    assert Ran(root, [], HeapOf(st), HeapOf(st)) by { RanNothing(root, HeapOf(st)); }
    done, crashed := 0, false;
    while done < |ops|
      invariant done <= |ops| && st.Valid() && root in st.tpls && Selection(root, st.tpls) && Tree(st.tpls, st.brk)
      invariant Ran(root, ops[..done], old(HeapOf(st)), HeapOf(st))
      invariant (forall op | op in ops :: !op.Replace?) ==> SameShapes(old(st.tpls), st.tpls)
    {
      ghost var mid := HeapOf(st);
      assert ops[done] in ops;
      var ok;
      ok, crashed := Perform(st, root, ops[done]);
      StoreIsRooted(st);
      if crashed {
        return;
      }
      if forall op | op in ops :: !op.Replace? {
        ShapesTrans(old(st.tpls), mid.tpls, st.tpls);
      }
      RanMore(root, ops[..done], ops[done], old(HeapOf(st)), mid, HeapOf(st));
      assert ops[..done + 1] == ops[..done] + [ops[done]];
      done := done + 1;
    }
  }

  lemma RanNothing(root: Ptr, h: Heap)
    ensures Ran(root, [], h, h)
  {
  }

  // ---- Running and resetting

  /** A history ran, and then everything was reset. */
  ghost predicate RanThenReset(root: Ptr, ops: seq<Op>, h: Heap, h': Heap)
    requires Tree(h.tpls, h.brk) && root in h.tpls
  {
    exists m: Heap :: Ran(root, ops, h, m) && ResetWhole(root, h, m, h')
  }

  /** The tree of `h`, as it is in `m`, was reset. */
  ghost predicate ResetWhole(root: Ptr, h: Heap, m: Heap, h': Heap)
    requires Tree(h.tpls, h.brk) && root in h.tpls
  {
    ResetOver(m, Below(root, h.tpls, h.brk), Below(root, h.tpls, h.brk) - {root}, h')
  }

  /** Every section renders as before, and none has anything appended. */
  ghost predicate RendersAsFresh(root: Ptr, h: Heap, h': Heap)
    requires Tree(h.tpls, h.brk) && root in h.tpls
  {
    forall u | u in Below(root, h.tpls, h.brk) ::
      && u in h.tpls && u in h'.tpls
      && Rendered(h'.tpls[u], h'.added, h'.chunks) == Rendered(h.tpls[u], h.added, h.chunks)
      && (u != root ==> u in h'.added && h'.added[u] == [] && h'.tpls[u].addedTail == AtHead(u))
  }

  /** Any history without replaced sections on a fresh template, and then `tpl_reset`: the document and every
      section render as they did when the template was fresh, and no section has anything appended. */
  method RunThenReset(st: Store, root: Ptr, ops: seq<Op>)
    requires st.Valid() && Tree(st.tpls, st.brk) && root in st.tpls && Selection(root, st.tpls)
    requires Fresh(root, HeapOf(st)) && forall op | op in ops :: GoodOp(op) && !op.Replace?
    modifies st`tpls, st`chunks, st`brk, st`added, st`owner
    ensures st.Valid() && Tree(st.tpls, st.brk) && root in st.tpls && Selection(root, st.tpls)
    ensures RanThenReset(root, ops, old(HeapOf(st)), HeapOf(st))
    ensures SameShapes(old(st.tpls), st.tpls)
    ensures Document(root, st.tpls, st.brk) == old(Document(root, st.tpls, st.brk))
    ensures RendersAsFresh(root, old(HeapOf(st)), HeapOf(st))
  {
    hide SoundStore, Selection, SameShapes, GoodOp, Fresh, Rendered, Document, Below, ResetOver, FieldsIndexed, Tree,
      Ran, Crashes;
    ghost var h0 := HeapOf(st);
    ValidSizes(st);
    ValidFields(st);
    var done, crashed := Run(st, root, ops);
    assert !crashed by { NoCrash(root, ops, done, st.tpls); }
    assert ops[..done] == ops;
    ghost var h1 := HeapOf(st);
    ValidSizes(st);
    ValidFields(st);
    ShapesKeepBelow(root, h0.tpls, h0.brk, h1.tpls, h1.brk);
    PerformReset(st, root);
    ghost var h2 := HeapOf(st);
    ValidSizes(st);
    assert ResetWhole(root, h0, h1, h2);
    forall u | u in Below(root, h0.tpls, h0.brk)
      ensures u in h0.tpls && u in h2.tpls
      ensures Rendered(h2.tpls[u], h2.added, h2.chunks) == Rendered(h0.tpls[u], h0.added, h0.chunks)
      ensures u != root ==> u in h2.added && h2.added[u] == [] && h2.tpls[u].addedTail == AtHead(u)
    {
      ResetIsFresh(root, h0, h1, h2, u);
    }
    ShapesTrans(h0.tpls, h1.tpls, h2.tpls);
    ShapesKeepDocument(root, h0.tpls, h0.brk, h2.tpls, h2.brk);
  }

  lemma NoCrash(root: Ptr, ops: seq<Op>, done: nat, tpls: Tpls)
    requires forall op | op in ops :: !op.Replace?
    ensures done < |ops| ==> !Crashes(root, ops[done], tpls)
  {
  }

  /** Every section of the tree renders as the plain text of its own document. */
  ghost predicate RendersPlain(root: Ptr, h: Heap) {
    && Tree(h.tpls, h.brk) && root in h.tpls
    && forall u | u in Below(root, h.tpls, h.brk) ::
         && u in h.tpls && Rendered(h.tpls[u], h.added, h.chunks) == PlainText(Document(u, h.tpls, h.brk))
         && (u != root ==> u in h.added && h.added[u] == [] && h.tpls[u].addedTail == AtHead(u))
  }

  lemma FreshPlain(root: Ptr, h: Heap, u: Ptr)
    requires Tree(h.tpls, h.brk) && root in h.tpls && Fresh(root, h) && u in Below(root, h.tpls, h.brk)
    ensures u in h.tpls && Rendered(h.tpls[u], h.added, h.chunks) == PlainText(Document(u, h.tpls, h.brk))
  {
    hide Unset, Reach, Rendered, Document, PlainText;
    assert h.tpls[u].(tpl := u) == h.tpls[u] by { UnsetLink(u, h.tpls[u]); }
    forall s | s in h.tpls[u].first ensures ListOf(s.tpl, h.added) == [] {
      SectionBelow(root, u, s, h);
    }
    FreshRendersPlain(u, h.tpls[u], h);
  }

  /** What was fresh at `h0` and renders so again at `h2` renders plainly. */
  lemma PlainAgain(root: Ptr, h0: Heap, h2: Heap)
    requires Tree(h0.tpls, h0.brk) && Tree(h2.tpls, h2.brk) && root in h0.tpls && Fresh(root, h0)
    requires forall u | u in h0.tpls :: FieldsIndexed(h0.tpls[u])
    requires SameShapes(h0.tpls, h2.tpls) && RendersAsFresh(root, h0, h2)
    ensures RendersPlain(root, h2)
  {
    hide SameShapes, Fresh, Rendered, Document, Below, FieldsIndexed, Tree, PlainText;
    ShapesKeepBelow(root, h0.tpls, h0.brk, h2.tpls, h2.brk);
    forall u | u in Below(root, h0.tpls, h0.brk)
      ensures u in h2.tpls && Rendered(h2.tpls[u], h2.added, h2.chunks) == PlainText(Document(u, h2.tpls, h2.brk))
    {
      FreshPlain(root, h0, u);
      ShapesKeepDocument(u, h0.tpls, h0.brk, h2.tpls, h2.brk);
    }
  }

  /** From a text to a new template. When the text parses, the template is fresh and holds its document, which
      gives the text back exactly when no field of it is shadowed; stored again, the document is the same. When
      it does not, no other template is touched. */
  method Read(st: Store, buf: Bytes, begin: nat, end: nat) returns (root: Ptr, ok: bool)
    requires st.Valid() && 1 <= begin <= end <= |buf| && buf[begin - 1] != '<' && CleanText(buf[begin..end])
    modifies st`tpls, st`brk, st`added, st`owner
    ensures ok <==> Parse(buf[begin..end], Empty()).Some?
    ensures root !in old(st.tpls) && forall u | u in old(st.tpls) :: u in st.tpls && st.tpls[u] == old(st.tpls)[u]
    ensures !ok && FailsInside(buf[begin..end], Empty()) ==> Orphaned(root, st.tpls)
    ensures !ok && !FailsInside(buf[begin..end], Empty()) ==> st.Valid()
    ensures ok ==>
      && st.Valid() && Tree(st.tpls, st.brk) && root in st.tpls && Selection(root, st.tpls)
      && Fresh(root, HeapOf(st))
    ensures ok ==>
      var ps, held := Parse(buf[begin..end], Empty()).value, Document(root, st.tpls, st.brk);
      && held == Attach(ps, Empty()) && NoneShadowed(held, [])
      && (Unparse(held) == buf[begin..end] <==> NoneShadowed(ps, []))
  {
    hide SoundStore, Selection, Fresh, Document, Tree, Childless, Grown, Parse, Attach, CleanText, Initial, Orphaned,
      NoneShadowed, Unparse, FailsInside;
    StoreIsRooted(st);
    NewAddress(st);
    root := st.Alloc(None);
    ghost var base := Snapshot(st.tpls, st.added, st.brk);
    ok := st.Construct(root, buf, begin, end);
    if ok {
      ParsedIsReady(base, root, HeapOf(st));
      GrownTouched(base, root, st.tpls, st.added, st.brk);
      ghost var ps := Parse(buf[begin..end], Empty()).value;
      LosslessIffNoneShadowed(buf[begin..end], ps);
      StoredIsUnshadowed(ps);
    }
  }

  /** From a text to a template, any history on it, and a reset. When the text parses, the template holds the
      document of the text and renders its plain text, as does every section; and it is ready for more. */
  method ReadRunReset(st: Store, buf: Bytes, begin: nat, end: nat, ops: seq<Op>)
    returns (root: Ptr, ok: bool, ghost read: Heap)
    requires st.Valid() && 1 <= begin <= end <= |buf| && buf[begin - 1] != '<' && CleanText(buf[begin..end])
    requires forall op | op in ops :: GoodOp(op) && !op.Replace?
    modifies st`tpls, st`chunks, st`brk, st`added, st`owner
    ensures ok <==> Parse(buf[begin..end], Empty()).Some?
    ensures ok ==>
      && st.Valid() && Tree(st.tpls, st.brk) && root in st.tpls && root !in old(st.tpls) && Selection(root, st.tpls)
      && Tree(read.tpls, read.brk) && root in read.tpls && Fresh(root, read)
      && RanThenReset(root, ops, read, HeapOf(st))
      && Document(root, read.tpls, read.brk) == Document(root, st.tpls, st.brk)
         == Attach(Parse(buf[begin..end], Empty()).value, Empty())
      && RendersPlain(root, HeapOf(st))
  {
    hide SoundStore, Selection, SameShapes, GoodOp, Fresh, Document, ResetOver, FieldsIndexed, Tree, Ran, RanThenReset,
      RendersAsFresh, RendersPlain, Parse, Attach, CleanText, NoneShadowed, Unparse, Orphaned, FailsInside;
    read := HeapOf(st);
    root, ok := Read(st, buf, begin, end);
    if !ok {
      return;
    }
    ValidFields(st);
    read := HeapOf(st);
    RunThenReset(st, root, ops);
    PlainAgain(root, read, HeapOf(st));
  }

  lemma NewAddress(st: Store)
    requires st.Valid()
    ensures st.brk !in st.tpls
  {
  }
}
