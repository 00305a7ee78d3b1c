/** Filling a template in: field values in one section or all of them, and whole section contents. */
module Setting {
  import opened ByteStrings
  import opened Chains
  import opened TemplateObjects
  import opened Templates
  import opened Selecting

  /** A template with the cell that a lookup of `key` hits set to `val`. */
  function SetIn(r: Tpl, key: Bytes, val: Bytes): Tpl {
    var b := Bucket(key);
    if |r.fields| <= b then r
    else match FindKey(CellKeys(r.fields[b]), key)
         case None => r
         case Some(i) => r.(fields := r.fields[b := r.fields[b][i := Cell(r.fields[b][i].key, val)]])
  }

  lemma SetKeepsKeys(r: Tpl, key: Bytes, val: Bytes)
    requires |r.fields| == BUCKETS
    ensures var q := SetIn(r, key, val);
            && |q.fields| == BUCKETS && (forall b | 0 <= b < BUCKETS :: CellKeys(q.fields[b]) == CellKeys(r.fields[b]))
            && q.head == r.head && q.first == r.first && q.sections == r.sections && q.parent == r.parent
            && q.tpl == r.tpl && q.addedHead == r.addedHead && q.addedTail == r.addedTail
  {
  }

  lemma SetKeepsIndexed(r: Tpl, key: Bytes, val: Bytes)
    requires FieldsIndexed(r) && SectionsIndexed(r)
    ensures FieldsIndexed(SetIn(r, key, val)) && SectionsIndexed(SetIn(r, key, val))
    ensures Items(SetIn(r, key, val)) == Items(r)
  {
    hide SectionsChained, FindKey;
    var q := SetIn(r, key, val);
    SetKeepsKeys(r, key, val);
    SameKeysIndexed(r, q);
    NodeKeepsSections(r, q);
  }

  lemma SameKeysIndexed(r: Tpl, q: Tpl)
    requires FieldsIndexed(r) && |q.fields| == BUCKETS && q.head == r.head
    requires forall b | 0 <= b < BUCKETS :: CellKeys(q.fields[b]) == CellKeys(r.fields[b])
    ensures FieldsIndexed(q) && Items(q) == Items(r)
  {
    hide NoPrefix, Bucket, GoodName;
    forall b, c | 0 <= b < BUCKETS && c in q.fields[b] ensures GoodName(c.key) && Bucket(c.key) == b {
      var i :| 0 <= i < |q.fields[b]| && q.fields[b][i] == c;
      assert CellKeys(q.fields[b])[i] == r.fields[b][i].key && r.fields[b][i] in r.fields[b];
    }
    assert forall b | 0 <= b < BUCKETS :: |q.fields[b]| == |CellKeys(q.fields[b])| == |r.fields[b]|;
    assert forall b, i | 0 <= b < BUCKETS && 0 <= i < |q.fields[b]| ::
      CellKeys(q.fields[b])[i] == q.fields[b][i].key == r.fields[b][i].key;
  }

  /** What the field's nodes show afterwards, and that no other node shows anything else. */
  lemma SetShows(r: Tpl, key: Bytes, val: Bytes, n: Node)
    requires FieldsIndexed(r) && n in r.head
    ensures NodeText(n, SetIn(r, key, val).fields) ==
      if n.FieldNode? && Some(r.fields[n.bucket][n.index].key) == HitKey(r, key) then val else NodeText(n, r.fields)
  {
    var b := Bucket(key);
    if FindKey(CellKeys(r.fields[b]), key).Some? && n.FieldNode? {
      var i := FindKey(CellKeys(r.fields[b]), key).value;
      assert CellKeys(r.fields[b])[i] == r.fields[b][i].key;
      assert r.fields[n.bucket][n.index] in r.fields[n.bucket] && r.fields[b][i] in r.fields[b];
      if n.bucket == b {
        assert CellKeys(r.fields[b])[n.index] == r.fields[b][n.index].key;
        assert n.index < i ==> !(CellKeys(r.fields[b])[i] <= CellKeys(r.fields[b])[n.index]);
        assert i < n.index ==> !(CellKeys(r.fields[b])[n.index] <= CellKeys(r.fields[b])[i]);
      }
    }
  }

  /** The key of the cell a lookup hits. */
  function HitKey(r: Tpl, key: Bytes): Option<Bytes> {
    var b := Bucket(key);
    if |r.fields| <= b then None
    else match FindKey(CellKeys(r.fields[b]), key)
         case None => None
         case Some(i) => Some(r.fields[b][i].key)
  }

  /** `tpl_set_field` */
  method SetField(st: Store, root: Ptr, key: Bytes, val: Bytes)
    requires st.Valid() && root in st.tpls && st.tpls[root].tpl in st.tpls && GoodName(key)
    modifies st`tpls
    ensures st.Valid()
    ensures var t := SelectedOf(root, old(st.tpls));
            t in old(st.tpls) && st.tpls == old(st.tpls)[t := SetIn(old(st.tpls)[t], key, val)]
  {
    hide SoundStore, FieldsIndexed, SectionsIndexed, Linked, Whole, Items;
    var t := st.tpls[root].tpl;
    WholeOf(st.tpls, st.chunks, st.brk, st.added, st.owner, t);
    SetKeepsKeys(st.tpls[t], key, val);
    SetKeepsIndexed(st.tpls[t], key, val);
    UpdateSound(st.tpls, st.chunks, st.brk, st.added, st.owner, t, SetIn(st.tpls[t], key, val));
    var cell := st.ProduceField(t, key, false);
    if cell.Some? {
      var b, i := cell.value.0, cell.value.1;
      var fields: seq<seq<Cell>> := st.tpls[t].fields;
      st.tpls := st.tpls[t := st.tpls[t].(fields := fields[b := fields[b][i := Cell(fields[b][i].key, val)]])];
    }
    assert st.tpls == old(st.tpls)[t := SetIn(old(st.tpls)[t], key, val)];
  }

  /** `v` is what some template inside `t` (or `t` itself) links to. */
  ghost predicate Targeted(t: Ptr, v: Ptr, tpls: Tpls, brk: Ptr)
    requires Tree(tpls, brk) && t in tpls
  {
    exists u :: u in tpls && Reach(t, u, tpls, brk) && tpls[u].tpl == v
  }

  ghost predicate TargetedBefore(t: Ptr, n: nat, v: Ptr, tpls: Tpls, brk: Ptr)
    requires Tree(tpls, brk) && t in tpls && n <= |tpls[t].first|
  {
    v == tpls[t].tpl || exists i :: 0 <= i < n && Targeted(tpls[t].first[i].tpl, v, tpls, brk)
  }

  /** The store with `key` set to `val` in the templates of `where`. */
  ghost predicate SetWhere(tpls: Tpls, tpls': Tpls, where: iset<Ptr>, key: Bytes, val: Bytes) {
    && tpls'.Keys == tpls.Keys
    && forall v | v in tpls :: tpls'[v] == if v in where then SetIn(tpls[v], key, val) else tpls[v]
  }

  lemma SetTwice(r: Tpl, key: Bytes, val: Bytes)
    ensures SetIn(SetIn(r, key, val), key, val) == SetIn(r, key, val)
  {
    var q, b := SetIn(r, key, val), Bucket(key);
    if b < |r.fields| {
      assert CellKeys(q.fields[b]) == CellKeys(r.fields[b]);
      match FindKey(CellKeys(r.fields[b]), key)
      case None =>
      case Some(i) =>
        assert q.fields[b][i := Cell(q.fields[b][i].key, val)] == q.fields[b];
        assert q.fields[b := q.fields[b]] == q.fields;
    }
  }

  lemma SetWhereAgain(tpls: Tpls, mid: Tpls, tpls': Tpls, a: iset<Ptr>, b: iset<Ptr>, key: Bytes, val: Bytes)
    requires SetWhere(tpls, mid, a, key, val) && SetWhere(mid, tpls', b, key, val)
    ensures SetWhere(tpls, tpls', a + b, key, val)
  {
    hide SetIn;
    forall v | v in tpls { SetTwice(tpls[v], key, val); }
  }

  lemma TargetedIsTargetedBefore(t: Ptr, v: Ptr, tpls: Tpls, brk: Ptr)
    requires Tree(tpls, brk) && t in tpls
    ensures Targeted(t, v, tpls, brk) <==> TargetedBefore(t, |tpls[t].first|, v, tpls, brk)
  {
    var first := tpls[t].first;
    if Targeted(t, v, tpls, brk) {
      var u :| u in tpls && Reach(t, u, tpls, brk) && tpls[u].tpl == v;
      if u != t {
        var s :| s in first && Reach(s.tpl, u, tpls, brk);
        var i :| 0 <= i < |first| && first[i] == s;
        assert Targeted(first[i].tpl, v, tpls, brk);
      }
    }
    if TargetedBefore(t, |first|, v, tpls, brk) {
      if v == tpls[t].tpl {
        assert Reach(t, t, tpls, brk);
      } else {
        var i :| 0 <= i < |first| && Targeted(first[i].tpl, v, tpls, brk);
        var u :| u in tpls && Reach(first[i].tpl, u, tpls, brk) && tpls[u].tpl == v;
        assert first[i] in first;
      }
    }
  }

  ghost function Targets(t: Ptr, tpls: Tpls, brk: Ptr): iset<Ptr>
    requires Tree(tpls, brk) && t in tpls
  {
    iset v | Targeted(t, v, tpls, brk)
  }

  ghost function TargetsBefore(t: Ptr, n: nat, tpls: Tpls, brk: Ptr): iset<Ptr>
    requires Tree(tpls, brk) && t in tpls && n <= |tpls[t].first|
  {
    iset v | TargetedBefore(t, n, v, tpls, brk)
  }

  lemma SetWhereSameTargets(t: Ptr, tpls: Tpls, tpls': Tpls, brk: Ptr, where: iset<Ptr>, key: Bytes, val: Bytes)
    requires Tree(tpls, brk) && Tree(tpls', brk) && t in tpls && SetWhere(tpls, tpls', where, key, val)
    requires forall u | u in tpls :: |tpls[u].fields| == BUCKETS
    ensures t in tpls' && tpls'[t].tpl == tpls[t].tpl && tpls'[t].first == tpls[t].first
    ensures Targets(t, tpls', brk) == Targets(t, tpls, brk)
  {
    hide Reach, SetIn;
    forall u | u in tpls { SetKeepsKeys(tpls[u], key, val); }
    forall u { ReachFrame(t, u, tpls, brk, tpls', brk); }
    assert forall u | u in tpls :: tpls'[u].tpl == tpls[u].tpl;
  }

  lemma SetKeepsRest(r: Tpl, key: Bytes, val: Bytes)
    ensures SetIn(r, key, val).first == r.first && SetIn(r, key, val).tpl == r.tpl && SetIn(r, key, val).head == r.head
  {
  }

  lemma SetWhereRecord(tpls: Tpls, tpls': Tpls, where: iset<Ptr>, t: Ptr, key: Bytes, val: Bytes)
    requires SetWhere(tpls, tpls', where, key, val) && t in tpls
    ensures t in tpls' && tpls'[t].first == tpls[t].first && tpls'[t].tpl == tpls[t].tpl
  {
    SetKeepsRest(tpls[t], key, val);
  }

  lemma SetOne(tpls: Tpls, v: Ptr, key: Bytes, val: Bytes)
    requires v in tpls
    ensures SetWhere(tpls, tpls[v := SetIn(tpls[v], key, val)], iset{v}, key, val)
  {
    hide SetIn;
  }

  lemma GlobalStart(t: Ptr, tpls: Tpls, brk: Ptr)
    requires Tree(tpls, brk) && t in tpls
    ensures TargetsBefore(t, 0, tpls, brk) == iset{tpls[t].tpl} && Reach(t, t, tpls, brk)
  {
  }

  lemma GlobalStep(t: Ptr, i: nat, was: Tpls, mid: Tpls, brk: Ptr, where: iset<Ptr>, key: Bytes, val: Bytes)
    requires Tree(was, brk) && Tree(mid, brk) && t in was && i < |was[t].first|
    requires SetWhere(was, mid, where, key, val)
    requires forall u | u in was :: |was[u].fields| == BUCKETS
    requires forall u | u in was && Reach(t, u, was, brk) :: was[u].tpl in was
    ensures var c := was[t].first[i].tpl;
            && t < c < brk && c in was && c in mid
            && (forall u | u in mid && Reach(c, u, mid, brk) :: mid[u].tpl in mid)
            && Targets(c, mid, brk) == Targets(c, was, brk)
  {
    hide SetIn, Targets, Reach;
    var c := was[t].first[i].tpl;
    assert was[t].first[i] in was[t].first;
    SetWhereSameTargets(c, was, mid, brk, where, key, val);
    forall u | u in mid && Reach(c, u, mid, brk) ensures mid[u].tpl in mid {
      GlobalLink(t, c, u, was, mid, brk, where, key, val);
    }
  }

  lemma GlobalLink(t: Ptr, c: Ptr, u: Ptr, was: Tpls, mid: Tpls, brk: Ptr, where: iset<Ptr>, key: Bytes, val: Bytes)
    requires Tree(was, brk) && Tree(mid, brk) && t in was && Listed(t, c, was) && c in mid && u in mid
    requires Reach(c, u, mid, brk)
    requires SetWhere(was, mid, where, key, val)
    requires forall u | u in was && Reach(t, u, was, brk) :: was[u].tpl in was
    ensures mid[u].tpl in mid
  {
    hide SetIn, Reach, Listed;
    forall v | v in was { SetKeepsRest(was[v], key, val); }
    ReachFrame(c, u, was, brk, mid, brk);
    ListedReach(t, c, u, was, brk);
  }

  lemma ListedReach(t: Ptr, c: Ptr, u: Ptr, tpls: Tpls, brk: Ptr)
    requires Tree(tpls, brk) && t in tpls && c in tpls && Listed(t, c, tpls) && Reach(c, u, tpls, brk)
    ensures Reach(t, u, tpls, brk)
  {
  }

  lemma TargetsGrow(t: Ptr, i: nat, was: Tpls, brk: Ptr)
    requires Tree(was, brk) && t in was && i < |was[t].first|
    ensures was[t].first[i].tpl in was
    ensures TargetsBefore(t, i + 1, was, brk) == TargetsBefore(t, i, was, brk) + Targets(was[t].first[i].tpl, was, brk)
  {
    hide Targeted;
    assert was[t].first[i] in was[t].first;
  }

  /** One more section inside `t` is done. */
  lemma GlobalNext(t: Ptr, i: nat, was: Tpls, mid: Tpls, now: Tpls, brk: Ptr, key: Bytes, val: Bytes)
    requires Tree(was, brk) && t in was && i < |was[t].first| && was[t].first[i].tpl in was
    requires SetWhere(was, mid, TargetsBefore(t, i, was, brk), key, val)
    requires SetWhere(mid, now, Targets(was[t].first[i].tpl, was, brk), key, val)
    ensures SetWhere(was, now, TargetsBefore(t, i + 1, was, brk), key, val)
    ensures t in now && t in mid && now[t].first == mid[t].first
  {
    hide Tree, SetIn, Targets, TargetsBefore;
    var c := was[t].first[i].tpl;
    TargetsGrow(t, i, was, brk);
    SetWhereAgain(was, mid, now, TargetsBefore(t, i, was, brk), Targets(c, was, brk), key, val);
    SetWhereRecord(mid, now, Targets(c, was, brk), t, key, val);
  }

  lemma TargetsBeforeAll(t: Ptr, tpls: Tpls, brk: Ptr)
    requires Tree(tpls, brk) && t in tpls
    ensures TargetsBefore(t, |tpls[t].first|, tpls, brk) == Targets(t, tpls, brk)
  {
    forall v { TargetedIsTargetedBefore(t, v, tpls, brk); }
  }

  /** `tpl_set_field_global`: sets the field wherever a template inside `t` links to. */
  method SetFieldGlobal(st: Store, t: Ptr, key: Bytes, val: Bytes)
    requires st.Valid() && Tree(st.tpls, st.brk) && t in st.tpls && GoodName(key)
    requires forall u | u in st.tpls && Reach(t, u, st.tpls, st.brk) :: st.tpls[u].tpl in st.tpls
    modifies st`tpls
    ensures st.Valid() && SetWhere(old(st.tpls), st.tpls, old(Targets(t, st.tpls, st.brk)), key, val)
    decreases st.brk - t, 1
  {
    hide SoundStore, FieldsIndexed, SectionsIndexed, Linked, Whole, Items, Tree, SetIn, Reach, Targets,
      TargetsBefore, SetWhere;
    ghost var was, brk := st.tpls, st.brk;
    ValidSizes(st);
    GlobalStart(t, was, brk);
    SetOne(was, was[t].tpl, key, val);
    SetField(st, t, key, val);
    SetWhereRecord(was, st.tpls, iset{was[t].tpl}, t, key, val);
    var first := st.tpls[t].first;
    var i := 0;
    while i < |first|
      invariant 0 <= i <= |first| && st.Valid() && t in st.tpls && st.tpls[t].first == first == was[t].first
      invariant SetWhere(was, st.tpls, TargetsBefore(t, i, was, brk), key, val)
    {
      SetInside(st, t, i, was, brk, key, val);
      i := i + 1;
    }
    TargetsBeforeAll(t, was, brk);
  }

  /** The same in the section at `i`, those before it being done */
  method SetInside(st: Store, t: Ptr, i: nat, ghost was: Tpls, ghost brk: Ptr, key: Bytes,
                   val: Bytes)
    requires st.Valid() && st.brk == brk && Tree(was, brk) && t in was && t in st.tpls && GoodName(key)
    requires i < |was[t].first| && st.tpls[t].first == was[t].first
    requires forall u | u in was :: |was[u].fields| == BUCKETS
    requires forall u | u in was && Reach(t, u, was, brk) :: was[u].tpl in was
    requires SetWhere(was, st.tpls, TargetsBefore(t, i, was, brk), key, val)
    modifies st`tpls
    ensures st.Valid() && t in st.tpls && st.tpls[t].first == was[t].first
    ensures SetWhere(was, st.tpls, TargetsBefore(t, i + 1, was, brk), key, val)
    decreases brk - t, 0
  {
    hide SoundStore, FieldsIndexed, SectionsIndexed, Linked, Whole, Items, Tree, SetIn, Reach, Targets,
      TargetsBefore, SetWhere;
    ghost var mid := st.tpls;
    ValidSizes(st);
    GlobalStep(t, i, was, mid, brk, TargetsBefore(t, i, was, brk), key, val);
    SetFieldGlobal(st, st.tpls[t].first[i].tpl, key, val);
    GlobalNext(t, i, was, mid, st.tpls, brk, key, val);
  }

  lemma ValidSizes(st: Store)
    requires st.Valid()
    ensures Tree(st.tpls, st.brk) && forall u | u in st.tpls :: |st.tpls[u].fields| == BUCKETS
  {
    forall u | u in st.tpls { WholeOf(st.tpls, st.chunks, st.brk, st.added, st.owner, u); }
  }

  lemma {:induction false} ReachedIsInside(root: Ptr, t: Ptr, u: Ptr, tpls: Tpls, brk: Ptr)
    requires Tree(tpls, brk) && t in tpls && Reach(t, u, tpls, brk) && Inside(root, t, tpls)
    ensures Inside(root, u, tpls)
    decreases brk - t
  {
    if u != t {
      var s :| s in tpls[t].first && Reach(s.tpl, u, tpls, brk);
      ReachedIsInside(root, s.tpl, u, tpls, brk);
    }
  }

  lemma LinksAreNotRoot(root: Ptr, u: Ptr, tpls: Tpls, brk: Ptr)
    requires Tree(tpls, brk) && root in tpls && Selection(root, tpls) && u in tpls && u != root && Inside(root, u, tpls)
    ensures tpls[u].tpl != root
  {
    hide PathTo, Inside, Listed;
    var p := Path(root, tpls);
    if u in p {
      var i :| 0 <= i < |p| && p[i] == u;
      if i + 1 < |p| {
        assert LinksTo(p[i], p[i + 1], tpls) && p[0] < p[i + 1];
      }
    }
  }

  /** The field is set in every section of a document exactly when nothing in it is selected: with a
      section selected, the document's own fields are passed over. */
  lemma GlobalCoversIffNothingSelected(root: Ptr, tpls: Tpls, brk: Ptr)
    requires Tree(tpls, brk) && root in tpls && Selection(root, tpls)
    ensures (forall v | v in tpls && Reach(root, v, tpls, brk) :: v in Targets(root, tpls, brk))
      <==> tpls[root].tpl == root
  {
    hide PathTo, Inside, Listed, Threaded, LooseOff;
    assert Reach(root, root, tpls, brk);
    InsideSelf(root, tpls);
    forall u | u in tpls && Reach(root, u, tpls, brk) ensures Inside(root, u, tpls) {
      ReachedIsInside(root, root, u, tpls, brk);
    }
    if tpls[root].tpl == root {
      PathSelf(root, tpls);
      forall v | v in tpls && Reach(root, v, tpls, brk) ensures v in Targets(root, tpls, brk) {
        if v != root {
          LooseLink(Path(root, tpls), root, v, tpls);
        }
      }
    } else if root in Targets(root, tpls, brk) {
      var u :| u in tpls && Reach(root, u, tpls, brk) && tpls[u].tpl == root;
      LinksAreNotRoot(root, u, tpls, brk);
    }
  }

  lemma InsideSelf(root: Ptr, tpls: Tpls)
    ensures Inside(root, root, tpls)
  {
  }

  lemma PathSelf(root: Ptr, tpls: Tpls)
    ensures PathTo(root, root, tpls) == [root]
  {
  }

  lemma LooseLink(p: seq<Ptr>, root: Ptr, u: Ptr, tpls: Tpls)
    requires LooseOff(p, root, tpls) && u in tpls && Inside(root, u, tpls) && u !in p
    ensures tpls[u].tpl == u
  {
  }
}
