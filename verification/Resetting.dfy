/** Resetting a template to what it was when it had just been read. */
module Resetting {
  import opened ByteStrings
  import opened Chains
  import opened TemplateObjects
  import opened Templates
  import opened Setting
  import opened Replacing
  import opened Appending
  import opened Correspondence

  function ClearedCells(cells: seq<Cell>): (q: seq<Cell>)
    ensures |q| == |cells| && forall i | 0 <= i < |q| :: q[i] == Cell(cells[i].key, [])
  {
    seq(|cells|, i requires 0 <= i < |cells| => Cell(cells[i].key, []))
  }

  function ClearedFields(fields: seq<seq<Cell>>): (f: seq<seq<Cell>>)
    ensures |f| == |fields| && forall b | 0 <= b < |f| :: f[b] == ClearedCells(fields[b])
  {
    seq(|fields|, b requires 0 <= b < |fields| => ClearedCells(fields[b]))
  }

  /** A record with its field values, or its added list, or both, emptied. */
  function Emptied(t: Ptr, r: Tpl, fields: bool, list: bool): Tpl {
    var q := if fields then r.(fields := ClearedFields(r.fields)) else r;
    if list then q.(addedHead := None, addedTail := AtHead(t)) else q
  }

  lemma EmptiedTwice(t: Ptr, r: Tpl, f1: bool, l1: bool, f2: bool, l2: bool)
    ensures Emptied(t, Emptied(t, r, f1, l1), f2, l2) == Emptied(t, r, f1 || f2, l1 || l2)
  {
    var f := ClearedFields(r.fields);
    forall b | 0 <= b < |f| ensures ClearedFields(f)[b] == f[b] {
      assert ClearedCells(f[b]) == f[b];
    }
    assert ClearedFields(f) == f;
  }

  /** Since `h`, the field values in the templates of `fields` and the added lists of those of `lists` are
      emptied, and nothing else is changed. */
  ghost predicate ResetOver(h: Heap, fields: set<Ptr>, lists: set<Ptr>, h': Heap) {
    && h'.tpls.Keys == h.tpls.Keys && h'.added.Keys == h.added.Keys && h'.chunks == h.chunks && h'.brk == h.brk
    && (forall u | u in h.tpls :: h'.tpls[u] == Emptied(u, h.tpls[u], u in fields, u in lists))
    && (forall u | u in h.added :: h'.added[u] == if u in lists then [] else h.added[u])
  }

  lemma ResetMore(h: Heap, f1: set<Ptr>, l1: set<Ptr>, h1: Heap, f2: set<Ptr>, l2: set<Ptr>, h2: Heap)
    requires ResetOver(h, f1, l1, h1) && ResetOver(h1, f2, l2, h2)
    ensures ResetOver(h, f1 + f2, l1 + l2, h2)
  {
    hide Emptied;
    forall u | u in h.tpls ensures h2.tpls[u] == Emptied(u, h.tpls[u], u in f1 + f2, u in l1 + l2) {
      EmptiedTwice(u, h.tpls[u], u in f1, u in l1, u in f2, u in l2);
    }
  }

  /** The reset loop over the chains, from the last bucket to the first. */
  method ClearFields(st: Store, t: Ptr)
    requires st.Valid() && t in st.tpls
    modifies st`tpls
    ensures st.Valid()
    ensures ResetOver(old(HeapOf(st)), {t}, {}, HeapOf(st))
  {
    hide SoundStore, FieldsIndexed, SectionsIndexed, Linked, Whole;
    WholeOf(st.tpls, st.chunks, st.brk, st.added, st.owner, t);
    ghost var r := st.tpls[t];
    ClearedSound(st.tpls, st.chunks, st.brk, st.added, st.owner, t);
    var i := BUCKETS;
    while i != 0
      invariant 0 <= i <= BUCKETS && t in st.tpls && |st.tpls[t].fields| == BUCKETS
      invariant st.tpls == old(st.tpls)[t := r.(fields := st.tpls[t].fields)]
      invariant forall b | 0 <= b < i :: st.tpls[t].fields[b] == r.fields[b]
      invariant forall b | i <= b < BUCKETS :: st.tpls[t].fields[b] == ClearedCells(r.fields[b])
    {
      i := i - 1;
      ClearChain(st, t, i);
    }
    assert st.tpls[t].fields == ClearedFields(r.fields);
    assert st.tpls == old(st.tpls)[t := Emptied(t, r, true, false)];
  }

  /** Set every value of one chain to the empty string. */
  method ClearChain(st: Store, t: Ptr, b: nat)
    requires t in st.tpls && b < |st.tpls[t].fields|
    modifies st`tpls
    ensures st.tpls == old(st.tpls)[t := old(st.tpls)[t].(fields :=
      old(st.tpls)[t].fields[b := ClearedCells(old(st.tpls)[t].fields[b])])]
  {
    hide ClearedUpTo, ClearedCells;
    ghost var r := st.tpls[t];
    ghost var chain := r.fields[b];
    var k := 0;
    ClearedNothing(chain);
    assert r.(fields := r.fields[b := chain]) == r;
    while k < |st.tpls[t].fields[b]|
      invariant 0 <= k <= |chain|
      invariant st.tpls == old(st.tpls)[t := r.(fields := r.fields[b := ClearedUpTo(chain, k)])]
      decreases |chain| - k
    {
      var fields: seq<seq<Cell>> := st.tpls[t].fields;
      ClearedOneMore(chain, k);
      st.tpls := st.tpls[t := st.tpls[t].(fields := fields[b := fields[b][k := Cell(fields[b][k].key, [])]])];
      k := k + 1;
      assert st.tpls[t].fields == r.fields[b := ClearedUpTo(chain, k)];
    }
    ClearedAll(chain);
  }

  function ClearedUpTo(cells: seq<Cell>, k: nat): (q: seq<Cell>)
    requires k <= |cells|
    ensures |q| == |cells|
  {
    ClearedCells(cells)[..k] + cells[k..]
  }

  lemma ClearedNothing(cells: seq<Cell>)
    ensures ClearedUpTo(cells, 0) == cells
  {
  }

  lemma ClearedOneMore(cells: seq<Cell>, k: nat)
    requires k < |cells|
    ensures ClearedUpTo(cells, k)[k] == cells[k]
    ensures ClearedUpTo(cells, k)[k := Cell(cells[k].key, [])] == ClearedUpTo(cells, k + 1)
  {
  }

  lemma ClearedAll(cells: seq<Cell>)
    ensures ClearedUpTo(cells, |cells|) == ClearedCells(cells)
  {
  }

  lemma ClearedIndexed(r: Tpl)
    requires FieldsIndexed(r) && SectionsIndexed(r)
    ensures var q := r.(fields := ClearedFields(r.fields));
            FieldsIndexed(q) && SectionsIndexed(q) && Items(q) == Items(r)
  {
    hide SectionsChained;
    var q := r.(fields := ClearedFields(r.fields));
    forall b | 0 <= b < BUCKETS ensures CellKeys(q.fields[b]) == CellKeys(r.fields[b]) {
    }
    SameKeysIndexed(r, q);
    NodeKeepsSections(r, q);
  }

  lemma ClearedSound(tpls: Tpls, chunks: map<Ptr, Chunk>, brk: Ptr, added: Lists, owner: map<Ptr, Ptr>, t: Ptr)
    requires SoundStore(tpls, chunks, brk, added, owner) && t in tpls
    ensures SoundStore(tpls[t := Emptied(t, tpls[t], true, false)], chunks, brk, added, owner)
  {
    hide SoundStore, FieldsIndexed, SectionsIndexed, Whole;
    WholeOf(tpls, chunks, brk, added, owner, t);
    ClearedIndexed(tpls[t]);
    UpdateSound(tpls, chunks, brk, added, owner, t, Emptied(t, tpls[t], true, false));
  }

  /** Destroy the nodes a section had appended, and point its tail at the head again. */
  method DropAdded(st: Store, c: Ptr)
    requires st.Valid() && c in st.tpls
    modifies st`tpls, st`added
    ensures st.Valid()
    ensures ResetOver(old(HeapOf(st)), {}, {c}, HeapOf(st))
  {
    hide SoundStore, FieldsIndexed, SectionsIndexed, Linked, Whole;
    WholeOf(st.tpls, st.chunks, st.brk, st.added, st.owner, c);
    DroppedSound(st.tpls, st.chunks, st.brk, st.added, st.owner, c);
    ghost var r, left := st.tpls[c], st.added[c];
    HeadChained(c, r, left, st.chunks);
    while st.tpls[c].addedHead.Some?
      invariant c in st.tpls && st.added == old(st.added) && Chained(st.tpls[c].addedHead, left, st.chunks)
      invariant st.tpls == old(st.tpls)[c := r.(addedHead := st.tpls[c].addedHead)]
      decreases |left|
    {
      var n := st.tpls[c].addedHead.value;
      st.tpls := st.tpls[c := st.tpls[c].(addedHead := st.chunks[n].next)];
      left := left[1..];
    }
    st.tpls := st.tpls[c := st.tpls[c].(addedTail := AtHead(c))];
    st.added := st.added[c := []];
    assert st.tpls == old(st.tpls)[c := Emptied(c, r, false, true)];
  }

  lemma HeadChained(t: Ptr, r: Tpl, list: seq<Ptr>, chunks: map<Ptr, Chunk>)
    requires Linked(t, r, list, chunks)
    ensures Chained(r.addedHead, list, chunks)
  {
  }

  lemma WholeDropped(c: Ptr, r: Tpl, list: seq<Ptr>, chunks: map<Ptr, Chunk>)
    requires Whole(c, r, list, chunks)
    ensures Whole(c, Emptied(c, r, false, true), [], chunks)
  {
    hide FieldsIndexed, SectionsIndexed;
    IndexedIgnoreAdded(r, Emptied(c, r, false, true));
  }

  lemma DroppedSound(tpls: Tpls, chunks: map<Ptr, Chunk>, brk: Ptr, added: Lists, owner: map<Ptr, Ptr>, c: Ptr)
    requires SoundStore(tpls, chunks, brk, added, owner) && c in tpls
    ensures SoundStore(tpls[c := Emptied(c, tpls[c], false, true)], chunks, brk, added[c := []], owner)
  {
    hide SoundStore, FieldsIndexed, SectionsIndexed, Whole, Tree, Owned;
    WholeOf(tpls, chunks, brk, added, owner, c);
    ListInChunks(tpls, chunks, brk, added, owner);
    WholeDropped(c, tpls[c], added[c], chunks);
    assert Owned(added[c := []], owner) by { OwnedLess(added, owner, c); }
    RelistSound(tpls, chunks, brk, added, owner,
      tpls[c := Emptied(c, tpls[c], false, true)], chunks, brk, added[c := []], owner, {c});
  }

  lemma OwnedLess(added: Lists, owner: map<Ptr, Ptr>, c: Ptr)
    requires Owned(added, owner)
    ensures Owned(added[c := []], owner)
  {
    var added' := added[c := []];
    forall t, i | t in added' && 0 <= i < |added'[t]| ensures added'[t][i] in owner && owner[added'[t][i]] == t {
      assert t != c && added[t][i] in owner;
    }
  }

  /** `tpl_reset`: the field values of `t` and of every section inside it, and all that these sections had
      appended, are gone; nothing else is. */
  method Reset(st: Store, t: Ptr)
    requires st.Valid() && t in st.tpls && Tree(st.tpls, st.brk)
    modifies st`tpls, st`added
    ensures st.Valid()
    ensures ResetOver(old(HeapOf(st)), old(Below(t, st.tpls, st.brk)), old(Below(t, st.tpls, st.brk)) - {t}, HeapOf(st))
    decreases st.brk - t
  {
    hide SoundStore, Tree, ResetOver, Below, BelowFirst;
    ghost var h := HeapOf(st);
    ClearFields(st, t);
    var i := 0;
    BelowNothing(t, h.tpls, h.brk);
    ghost var first := h.tpls[t].first;
    assert {t} + {} == {t};
    assert st.tpls.Keys == h.tpls.Keys && st.tpls[t].first == first && st.brk == h.brk by {
      ResetKeepsShape(h, {t}, {}, HeapOf(st));
    }
    while i < |st.tpls[t].first|
      invariant 0 <= i <= |first| && st.Valid() && st.brk == h.brk && t in st.tpls && st.tpls[t].first == first
      invariant ResetOver(h, {t} + BelowFirst(t, i, h.tpls, h.brk), BelowFirst(t, i, h.tpls, h.brk), HeapOf(st))
    {
      ghost var seen := BelowFirst(t, i, h.tpls, h.brk);
      ghost var h1 := HeapOf(st);
      BelowNext(t, i, h.tpls, h.brk);
      var c := st.tpls[t].first[i].tpl;
      assert c in h.tpls && t < c && c in Below(c, h.tpls, h.brk) by { ChildThere(t, i, h); }
      ResetKeepsShape(h, {t} + seen, seen, h1);
      DropAdded(st, c);
      ghost var h2 := HeapOf(st);
      ResetMore(h, {t} + seen, seen, h1, {}, {c}, h2);
      ResetKeepsShape(h, {t} + seen + {}, seen + {c}, h2);
      StoreTree(st);
      ResetSameBelow(h, {t} + seen + {}, seen + {c}, h2, c);
      Reset(st, c);
      ghost var inner := Below(c, h.tpls, h.brk);
      ResetMore(h, {t} + seen + {}, seen + {c}, h2, inner, inner - {c}, HeapOf(st));
      assert {t} + seen + {} + inner == {t} + BelowFirst(t, i + 1, h.tpls, h.brk);
      assert seen + {c} + (inner - {c}) == BelowFirst(t, i + 1, h.tpls, h.brk);
      i := i + 1;
      ResetKeepsShape(h, {t} + BelowFirst(t, i, h.tpls, h.brk), BelowFirst(t, i, h.tpls, h.brk), HeapOf(st));
    }
    BelowAll(t, h.tpls, h.brk);
    assert BelowFirst(t, i, h.tpls, h.brk) == Below(t, h.tpls, h.brk) - {t};
  }

  lemma StoreTree(st: Store)
    requires st.Valid()
    ensures Tree(st.tpls, st.brk)
  {
  }

  lemma ChildThere(t: Ptr, i: nat, h: Heap)
    requires Tree(h.tpls, h.brk) && t in h.tpls && i < |h.tpls[t].first|
    ensures var c := h.tpls[t].first[i].tpl; c in h.tpls && t < c && c in Below(c, h.tpls, h.brk)
  {
    assert h.tpls[t].first[i] in h.tpls[t].first;
    BelowNothing(h.tpls[t].first[i].tpl, h.tpls, h.brk);
  }

  lemma ResetKeepsShape(h: Heap, fields: set<Ptr>, lists: set<Ptr>, h': Heap)
    requires ResetOver(h, fields, lists, h')
    ensures h'.tpls.Keys == h.tpls.Keys && h'.brk == h.brk
    ensures forall u | u in h.tpls ::
      h'.tpls[u].first == h.tpls[u].first && h'.tpls[u].parent == h.tpls[u].parent && h'.tpls[u].tpl == h.tpls[u].tpl
  {
  }

  lemma ResetSameBelow(h: Heap, fields: set<Ptr>, lists: set<Ptr>, h': Heap, c: Ptr)
    requires ResetOver(h, fields, lists, h') && c in h.tpls && Tree(h.tpls, h.brk) && Tree(h'.tpls, h'.brk)
    ensures c in h'.tpls && Below(c, h'.tpls, h'.brk) == Below(c, h.tpls, h.brk)
  {
    hide Reach;
    BelowKept(c, h.tpls, h.brk, h'.tpls, h'.brk);
  }
}
