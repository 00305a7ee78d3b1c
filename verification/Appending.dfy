/** Appending the selected section: its rendering goes behind what was appended before, and what its own
    sections had appended is moved into it. */
module Appending {
  import opened ByteStrings
  import opened Weaving
  import opened TemplateObjects
  import opened Templates
  import opened Selecting
  import opened Rendering

  ghost predicate SameButAdded(r: Tpl, q: Tpl) {
    q == r.(addedHead := q.addedHead, addedTail := q.addedTail)
  }

  /** Changing added lists of some templates keeps the store sound if each of them is whole again and the
      nodes of all other lists are untouched. */
  lemma RelistSound(tpls: Tpls, chunks: map<Ptr, Chunk>, brk: Ptr, added: Lists, owner: map<Ptr, Ptr>,
                    tpls': Tpls, chunks': map<Ptr, Chunk>, brk': Ptr, added': Lists, owner': map<Ptr, Ptr>,
                      changed: set<Ptr>)
    requires SoundStore(tpls, chunks, brk, added, owner) && brk <= brk'
    requires tpls'.Keys == tpls.Keys && added'.Keys == added.Keys && Owned(added', owner')
    requires forall t | t in tpls :: SameButAdded(tpls[t], tpls'[t])
    requires forall t | t in tpls && t !in changed :: tpls'[t] == tpls[t] && added'[t] == added[t]
    requires forall t, x | t in tpls && t !in changed && x in added[t] && x in chunks ::
      x in chunks' && chunks'[x] == chunks[x]
    requires forall t | t in tpls && t in changed :: Whole(t, tpls'[t], added'[t], chunks')
    requires forall x | x in chunks' :: x < brk'
    ensures SoundStore(tpls', chunks', brk', added', owner')
  {
    hide Whole, Owned, Rooted;
    RootedSame(tpls, tpls');
    forall t | t in tpls && t !in changed ensures Whole(t, tpls'[t], added'[t], chunks') {
      WholeFrame(t, tpls[t], added[t], chunks, chunks');
    }
    assert forall t, s | t in tpls' && s in tpls'[t].first ::
      s in tpls[t].first && tpls'[s.tpl].parent == tpls[s.tpl].parent;
  }

  lemma WholeFrame(t: Ptr, r: Tpl, list: seq<Ptr>, chunks: map<Ptr, Chunk>, chunks': map<Ptr, Chunk>)
    requires Whole(t, r, list, chunks)
    requires forall x | x in list && x in chunks :: x in chunks' && chunks'[x] == chunks[x]
    ensures Whole(t, r, list, chunks')
  {
    hide FieldsIndexed, SectionsIndexed;
  }

  /** `*link = p` where the link is a template's list head */
  function HeadStored(link: Link, p: Option<Ptr>, t: Ptr, r: Tpl): Tpl {
    if link == AtHead(t) then r.(addedHead := p) else r
  }

  /** `*link = p` where the link is a node's `next` */
  function NextStored(link: Link, p: Option<Ptr>, chunks: map<Ptr, Chunk>): map<Ptr, Chunk> {
    if link.AtNext? && link.chunk in chunks then chunks[link.chunk := chunks[link.chunk].(next := p)] else chunks
  }

  lemma HookWhole(t: Ptr, r: Tpl, list: seq<Ptr>, chunks: map<Ptr, Chunk>, n: Ptr, text: Bytes)
    requires Whole(t, r, list, chunks) && n !in chunks
    ensures var chunks' := NextStored(r.addedTail, Some(n), chunks[n := Chunk(text, None)]);
            && Whole(t, HeadStored(r.addedTail, Some(n), t, r).(addedTail := AtNext(n)), list + [n], chunks')
            && (forall x | x in chunks && x !in list :: chunks'[x] == chunks[x])
            && chunks'.Keys == chunks.Keys + {n} && chunks'[n].val == text
            && (forall x | x in chunks :: chunks'[x].val == chunks[x].val)
  {
    hide FieldsIndexed, SectionsIndexed;
    var r' := HeadStored(r.addedTail, Some(n), t, r).(addedTail := AtNext(n));
    IndexedIgnoreAdded(r, r');
  }

  lemma IndexedIgnoreAdded(r: Tpl, q: Tpl)
    requires SameButAdded(r, q)
    ensures FieldsIndexed(q) <==> FieldsIndexed(r)
    ensures SectionsIndexed(q) <==> SectionsIndexed(r)
  {
  }

  lemma SpliceWhole(t: Ptr, r: Tpl, list: seq<Ptr>, c: Ptr, q: Tpl, list2: seq<Ptr>, chunks: map<Ptr, Chunk>)
    requires Whole(t, r, list, chunks) && Whole(c, q, list2, chunks) && list2 != []
    requires forall x | x in list :: x !in list2
    ensures var chunks' := NextStored(r.addedTail, q.addedHead, chunks);
            && Whole(t, HeadStored(r.addedTail, q.addedHead, t, r).(addedTail := q.addedTail), list + list2, chunks')
            && Whole(c, q.(addedHead := None, addedTail := AtHead(c)), [], chunks')
            && (forall x | x in chunks && x !in list :: chunks'[x] == chunks[x])
            && chunks'.Keys == chunks.Keys && (forall x | x in chunks :: chunks'[x].val == chunks[x].val)
  {
    hide FieldsIndexed, SectionsIndexed;
    forall i, j | 0 <= i < |list| && 0 <= j < |list2| ensures list[i] != list2[j] {
      assert list[i] in list && list2[j] in list2;
    }
    IndexedIgnoreAdded(r, HeadStored(r.addedTail, q.addedHead, t, r).(addedTail := q.addedTail));
    IndexedIgnoreAdded(q, q.(addedHead := None, addedTail := AtHead(c)));
  }

  method StoreAt(st: Store, link: Link, p: Option<Ptr>)
    requires match link case AtHead(t) => t in st.tpls case AtNext(x) => x in st.chunks
    modifies st`tpls, st`chunks
    ensures st.chunks == NextStored(link, p, old(st.chunks))
    ensures st.tpls == match link
                       case AtHead(t) => old(st.tpls)[t := HeadStored(link, p, t, old(st.tpls)[t])]
                       case AtNext(_) => old(st.tpls)
  {
    match link
    case AtHead(t) => st.tpls := st.tpls[t := st.tpls[t].(addedHead := p)];
    case AtNext(x) => st.chunks := st.chunks[x := st.chunks[x].(next := p)];
  }

  /** Since `was`, nothing but added lists changed, no node changed its bytes, and only the templates of
      `changed` changed their lists. */
  ghost predicate Relisted(tpls: Tpls, chunks: map<Ptr, Chunk>, tpls': Tpls, chunks': map<Ptr, Chunk>,
                           added: Lists, added': Lists, changed: set<Ptr>) {
    && tpls'.Keys == tpls.Keys && added'.Keys == added.Keys
    && (forall t | t in tpls :: SameButAdded(tpls[t], tpls'[t]))
    && (forall t | t in tpls && t !in changed :: tpls'[t] == tpls[t])
    && (forall t | t in added && t !in changed :: added'[t] == added[t])
    && (forall x | x in chunks :: x in chunks' && chunks'[x].val == chunks[x].val)
  }

  lemma LinkTarget(t: Ptr, r: Tpl, list: seq<Ptr>, chunks: map<Ptr, Chunk>)
    requires Linked(t, r, list, chunks)
    ensures match r.addedTail case AtHead(u) => u == t && list == [] case AtNext(x) => x in chunks && x in list
  {
  }

  lemma ListInChunks(tpls: Tpls, chunks: map<Ptr, Chunk>, brk: Ptr, added: Lists, owner: map<Ptr, Ptr>)
    requires SoundStore(tpls, chunks, brk, added, owner)
    ensures Owned(added, owner) && added.Keys == tpls.Keys && Tree(tpls, brk) && (forall x | x in chunks :: x < brk)
    ensures forall t, x | t in added && x in added[t] :: x in chunks
  {
    forall t, x | t in added && x in added[t] ensures x in chunks {
      WholeOf(tpls, chunks, brk, added, owner, t);
    }
  }

  lemma OwnedApart(added: Lists, owner: map<Ptr, Ptr>, t: Ptr, u: Ptr)
    requires Owned(added, owner) && t in added && u in added && t != u
    ensures forall x | x in added[t] :: x !in added[u]
  {
    forall x | x in added[t] ensures x !in added[u] {
      var i :| 0 <= i < |added[t]| && added[t][i] == x;
      assert owner[added[t][i]] == t;
    }
  }

  lemma OwnedHook(added: Lists, owner: map<Ptr, Ptr>, t: Ptr, n: Ptr)
    requires Owned(added, owner) && t in added && forall u, x | u in added && x in added[u] :: x != n
    ensures Owned(added[t := added[t] + [n]], owner[n := t])
  {
    var added' := added[t := added[t] + [n]];
    forall u, i | u in added' && 0 <= i < |added'[u]|
      ensures added'[u][i] in owner[n := t] && owner[n := t][added'[u][i]] == u
    {
      assert u != t || i < |added[t]| ==> added[u][i] in added[u];
    }
  }

  function Hooked(t: Ptr, r: Tpl, n: Ptr): Tpl {
    HeadStored(r.addedTail, Some(n), t, r).(addedTail := AtNext(n))
  }

  lemma HookSound(tpls: Tpls, chunks: map<Ptr, Chunk>, brk: Ptr, added: Lists, owner: map<Ptr, Ptr>, s: Ptr,
                  text: Bytes)
    requires SoundStore(tpls, chunks, brk, added, owner) && s in tpls && s in added
    ensures var tpls' := tpls[s := Hooked(s, tpls[s], brk)];
            var chunks' := NextStored(tpls[s].addedTail, Some(brk), chunks[brk := Chunk(text, None)]);
            var added' := added[s := added[s] + [brk]];
            && SoundStore(tpls', chunks', brk + 1, added', owner[brk := s])
            && Relisted(tpls, chunks, tpls', chunks', added, added', {s})
            && brk in chunks' && chunks'[brk].val == text
  {
    hide SoundStore, Whole, Owned, FieldsIndexed, SectionsIndexed, Linked, Tree, HeadStored, NextStored;
    WholeOf(tpls, chunks, brk, added, owner, s);
    ListInChunks(tpls, chunks, brk, added, owner);
    HookWhole(s, tpls[s], added[s], chunks, brk, text);
    OwnedHook(added, owner, s, brk);
    HookedRecord(s, tpls[s], brk);
    forall t | t in tpls && t != s { OwnedApart(added, owner, t, s); }
    RelistSound(tpls, chunks, brk, added, owner, tpls[s := Hooked(s, tpls[s], brk)],
      NextStored(tpls[s].addedTail, Some(brk), chunks[brk := Chunk(text, None)]), brk + 1,
      added[s := added[s] + [brk]], owner[brk := s], {s});
  }

  /** Create an added node for the template at `s` and hook it to the end of its list. */
  method HookText(st: Store, s: Ptr, text: Bytes)
    requires st.Valid() && s in st.tpls && s in st.added
    modifies st`tpls, st`chunks, st`brk, st`added, st`owner
    ensures st.Valid()
    ensures Relisted(old(st.tpls), old(st.chunks), st.tpls, st.chunks, old(st.added), st.added, {s})
    ensures st.added == old(st.added)[s := old(st.added)[s] + [old(st.brk)]]
    ensures st.brk == old(st.brk) + 1 && old(st.brk) in st.chunks && st.chunks[old(st.brk)].val == text
  {
    hide SoundStore, Whole, FieldsIndexed, SectionsIndexed, Linked, HeadStored, NextStored, Relisted;
    ghost var was := st.tpls[s];
    HookSound(st.tpls, st.chunks, st.brk, st.added, st.owner, s, text);
    WholeOf(st.tpls, st.chunks, st.brk, st.added, st.owner, s);
    LinkTarget(s, was, st.added[s], st.chunks);
    HookedRecord(s, was, st.brk);
    var n := st.brk;
    st.brk := st.brk + 1;
    st.chunks := st.chunks[n := Chunk(text, None)];
    StoreAt(st, st.tpls[s].addedTail, Some(n));
    st.tpls := st.tpls[s := st.tpls[s].(addedTail := AtNext(n))];
    st.added := st.added[s := st.added[s] + [n]];
    st.owner := st.owner[n := s];
    assert st.tpls == old(st.tpls)[s := Hooked(s, was, n)];
  }

  lemma HookedRecord(t: Ptr, r: Tpl, n: Ptr)
    ensures SameButAdded(r, HeadStored(r.addedTail, Some(n), t, r).(addedTail := AtNext(n)))
    ensures r.addedTail.AtNext? ==> HeadStored(r.addedTail, Some(n), t, r) == r
    ensures HeadStored(r.addedTail, Some(n), t, r).addedTail == r.addedTail
  {
  }

  function Spliced(t: Ptr, r: Tpl, q: Tpl): Tpl {
    HeadStored(r.addedTail, q.addedHead, t, r).(addedTail := q.addedTail)
  }

  function Drained(c: Ptr, q: Tpl): Tpl {
    q.(addedHead := None, addedTail := AtHead(c))
  }

  ghost function OwnersMoved(list: seq<Ptr>, owner: map<Ptr, Ptr>, t: Ptr): map<Ptr, Ptr> {
    owner + map x | x in list :: t
  }

  lemma OwnedSplice(added: Lists, owner: map<Ptr, Ptr>, t: Ptr, c: Ptr)
    requires Owned(added, owner) && t in added && c in added && t != c
    ensures Owned(added[t := added[t] + added[c]][c := []], OwnersMoved(added[c], owner, t))
  {
    var added', owner' := added[t := added[t] + added[c]][c := []], OwnersMoved(added[c], owner, t);
    forall u, i | u in added' && 0 <= i < |added'[u]| ensures added'[u][i] in owner' && owner'[added'[u][i]] == u {
      if u != t || i < |added[t]| {
        assert added[u][i] in added[u];
        OwnedApart(added, owner, u, c);
      } else {
        assert added'[u][i] == added[c][i - |added[t]|];
      }
    }
  }

  lemma SplicedRecord(t: Ptr, r: Tpl, q: Tpl, c: Ptr)
    ensures SameButAdded(r, Spliced(t, r, q)) && SameButAdded(q, Drained(c, q))
    ensures r.addedTail.AtNext? ==> HeadStored(r.addedTail, q.addedHead, t, r) == r
  {
  }

  function SplicedTpls(s: Ptr, c: Ptr, tpls: Tpls): Tpls
    requires s in tpls && c in tpls
  {
    tpls[s := Spliced(s, tpls[s], tpls[c])][c := Drained(c, tpls[c])]
  }

  function SplicedLists(s: Ptr, c: Ptr, added: Lists): Lists
    requires s in added && c in added
  {
    added[s := added[s] + added[c]][c := []]
  }

  lemma SplicedRecords(s: Ptr, c: Ptr, tpls: Tpls)
    requires s in tpls && c in tpls && s != c
    ensures var tpls' := SplicedTpls(s, c, tpls);
            && tpls'.Keys == tpls.Keys && (forall t | t in tpls :: SameButAdded(tpls[t], tpls'[t]))
            && (forall t | t in tpls && t !in {s, c} :: tpls'[t] == tpls[t])
            && tpls'[s] == Spliced(s, tpls[s], tpls[c]) && tpls'[c] == Drained(c, tpls[c])
  {
    hide Spliced, Drained;
    SplicedRecord(s, tpls[s], tpls[c], c);
  }

  lemma OthersApart(s: Ptr, tpls: Tpls, added: Lists, owner: map<Ptr, Ptr>)
    requires Owned(added, owner) && added.Keys == tpls.Keys && s in added
    ensures forall t, x | t in tpls && t != s && x in added[t] :: x !in added[s]
  {
    hide Owned;
    forall t | t in tpls && t != s { OwnedApart(added, owner, t, s); }
  }

  lemma SpliceSound(tpls: Tpls, chunks: map<Ptr, Chunk>, brk: Ptr, added: Lists, owner: map<Ptr, Ptr>, s: Ptr, c: Ptr)
    requires SoundStore(tpls, chunks, brk, added, owner) && s in tpls && c in tpls && s in added && c in added
    requires s != c && added[c] != []
    ensures var chunks' := NextStored(tpls[s].addedTail, tpls[c].addedHead, chunks);
            && SoundStore(SplicedTpls(s, c, tpls), chunks', brk, SplicedLists(s, c, added),
              OwnersMoved(added[c], owner, s))
            && Relisted(tpls, chunks, SplicedTpls(s, c, tpls), chunks', added, SplicedLists(s, c, added), {s, c})
  {
    hide SoundStore, Whole, Owned, FieldsIndexed, SectionsIndexed, Linked, Tree, NextStored, Spliced, SplicedTpls,
      Drained, OwnersMoved, SameButAdded;
    var tpls', added' := SplicedTpls(s, c, tpls), SplicedLists(s, c, added);
    var chunks' := NextStored(tpls[s].addedTail, tpls[c].addedHead, chunks);
    WholeOf(tpls, chunks, brk, added, owner, s);
    WholeOf(tpls, chunks, brk, added, owner, c);
    ListInChunks(tpls, chunks, brk, added, owner);
    OwnedApart(added, owner, s, c);
    SpliceStep(s, c, tpls, added, chunks);
    OwnedSplice(added, owner, s, c);
    SplicedRecords(s, c, tpls);
    OthersApart(s, tpls, added, owner);
    RelistSound(tpls, chunks, brk, added, owner, tpls', chunks', brk, added', OwnersMoved(added[c], owner, s), {s, c});
  }

  ghost predicate SpliceRecords(s: Ptr, c: Ptr, tpls: Tpls, added: Lists, chunks: map<Ptr, Chunk>)
    requires s in tpls && c in tpls && s in added && c in added
  {
    var chunks' := NextStored(tpls[s].addedTail, tpls[c].addedHead, chunks);
    && Whole(s, Spliced(s, tpls[s], tpls[c]), added[s] + added[c], chunks')
    && Whole(c, Drained(c, tpls[c]), [], chunks')
    && (forall x | x in chunks && x !in added[s] :: chunks'[x] == chunks[x])
    && chunks'.Keys == chunks.Keys && (forall x | x in chunks :: chunks'[x].val == chunks[x].val)
  }

  lemma SpliceStep(s: Ptr, c: Ptr, tpls: Tpls, added: Lists, chunks: map<Ptr, Chunk>)
    requires s in tpls && c in tpls && s in added && c in added
    requires Whole(s, tpls[s], added[s], chunks) && Whole(c, tpls[c], added[c], chunks) && added[c] != []
    requires forall x | x in added[s] :: x !in added[c]
    ensures SpliceRecords(s, c, tpls, added, chunks)
  {
    hide Whole;
    SpliceWhole(s, tpls[s], added[s], c, tpls[c], added[c], chunks);
  }

  /** Cut the added list of the template at `c` and paste it to the end of that of the template at `s`. */
  method Splice(st: Store, s: Ptr, c: Ptr)
    requires st.Valid() && s in st.tpls && c in st.tpls && s in st.added && c in st.added && s != c
    requires st.added[c] != []
    modifies st`tpls, st`chunks, st`added, st`owner
    ensures st.Valid()
    ensures Relisted(old(st.tpls), old(st.chunks), st.tpls, st.chunks, old(st.added), st.added, {s, c})
    ensures st.added == old(st.added)[s := old(st.added)[s] + old(st.added)[c]][c := []]
  {
    hide SoundStore, Whole, FieldsIndexed, SectionsIndexed, Linked, HeadStored, NextStored, Relisted, OwnersMoved;
    ghost var r, q := st.tpls[s], st.tpls[c];
    SpliceSound(st.tpls, st.chunks, st.brk, st.added, st.owner, s, c);
    WholeOf(st.tpls, st.chunks, st.brk, st.added, st.owner, s);
    LinkTarget(s, r, st.added[s], st.chunks);
    SplicedRecord(s, r, q, c);
    StoreAt(st, st.tpls[s].addedTail, st.tpls[c].addedHead);
    st.tpls := st.tpls[s := st.tpls[s].(addedTail := st.tpls[c].addedTail)];
    st.tpls := st.tpls[c := st.tpls[c].(addedTail := AtHead(c))];
    st.tpls := st.tpls[c := st.tpls[c].(addedHead := None)];
    assert st.tpls == old(st.tpls)[s := Spliced(s, r, q)][c := Drained(c, q)];
    st.owner := OwnersMoved(st.added[c], st.owner, s);
    st.added := st.added[s := st.added[s] + st.added[c]][c := []];
  }

  /** The bytes of a run of nodes, in one node: measure first, then copy. */
  method Coalesce(r: Tpl, from: nat, upTo: nat) returns (text: Bytes)
    requires from <= upTo <= |r.head|
    ensures text == Concat(Texts(r)[from..upTo])
  {
    hide Concat, NodeText;
    ghost var texts := Texts(r)[from..upTo];
    ConcatPrefixNothing(texts);
    var len, some: nat := 0, from;
    while some != upTo
      invariant from <= some <= upTo && len == |Concat(texts[..some - from])|
      decreases upTo - some
    {
      ConcatPrefix(texts, some - from);
      len := len + |NodeText(r.head[some], r.fields)|;
      some := some + 1;
    }
    text := [];
    var curr: nat := from;
    while curr != upTo
      invariant from <= curr <= upTo && text == Concat(texts[..curr - from])
      decreases upTo - curr
    {
      ConcatPrefix(texts, curr - from);
      text := text + NodeText(r.head[curr], r.fields);
      curr := curr + 1;
    }
    assert texts[..upTo - from] == texts;
    assert |text| == len;
  }

  lemma ConcatPrefixNothing(texts: seq<Bytes>)
    ensures Concat(texts[..0]) == []
  {
  }

  function Kids(first: seq<SectionCell>): set<Ptr> {
    set s | s in first :: s.tpl
  }

  lemma {:induction false} AddedTextFrame(list: seq<Ptr>, chunks: map<Ptr, Chunk>, chunks': map<Ptr, Chunk>)
    requires forall x | x in list :: x in chunks && x in chunks' && chunks'[x].val == chunks[x].val
    ensures AddedText(list, chunks') == AddedText(list, chunks)
  {
    assert ChunkTexts(list, chunks') == ChunkTexts(list, chunks);
  }

  lemma AddedTextAppend(a: seq<Ptr>, b: seq<Ptr>, chunks: map<Ptr, Chunk>)
    ensures AddedText(a + b, chunks) == AddedText(a, chunks) + AddedText(b, chunks)
  {
    assert ChunkTexts(a + b, chunks) == ChunkTexts(a, chunks) + ChunkTexts(b, chunks);
    ConcatAppend(ChunkTexts(a, chunks), ChunkTexts(b, chunks));
  }

  lemma AddedTextOne(n: Ptr, chunks: map<Ptr, Chunk>)
    requires n in chunks
    ensures AddedText([n], chunks) == chunks[n].val
  {
    assert ChunkTexts([n], chunks) == [chunks[n].val];
    assert [chunks[n].val][..0] == [];
    assert Concat([chunks[n].val]) == Concat([]) + chunks[n].val;
  }

  /** Text hooked behind a list is behind its bytes. */
  lemma HookedText(list: seq<Ptr>, n: Ptr, text: Bytes, chunks: map<Ptr, Chunk>, chunks': map<Ptr, Chunk>)
    requires forall x | x in chunks :: x in chunks' && chunks'[x].val == chunks[x].val
    requires forall x | x in list :: x in chunks
    requires n in chunks' && chunks'[n].val == text
    ensures AddedText(list + [n], chunks') == AddedText(list, chunks) + text
  {
    AddedTextAppend(list, [n], chunks');
    AddedTextFrame(list, chunks, chunks');
    AddedTextOne(n, chunks');
  }

  lemma SplicedText(list: seq<Ptr>, list2: seq<Ptr>, chunks: map<Ptr, Chunk>, chunks': map<Ptr, Chunk>)
    requires forall x | x in chunks :: x in chunks' && chunks'[x].val == chunks[x].val
    requires forall x | x in list + list2 :: x in chunks
    ensures AddedText(list + list2, chunks') == AddedText(list, chunks) + AddedText(list2, chunks)
  {
    AddedTextAppend(list, list2, chunks');
    AddedTextFrame(list, chunks, chunks');
    AddedTextFrame(list2, chunks, chunks');
  }

  /** The sections before `k` that are placed behind node `n` have contributed nothing. */
  ghost predicate NothingBehind(placed: seq<Placed<Bytes>>, n: nat, k: nat)
    requires k <= |placed|
  {
    forall j | 0 <= j < k && n < placed[j].pos :: placed[j].what == []
  }

  lemma RunAcross(texts: seq<Bytes>, placed: seq<Placed<Bytes>>, n: nat, m: nat, k: nat)
    requires n <= m <= |texts| && k <= |placed| && Sorted(placed) && Within(placed[..k], m)
    requires NothingBehind(placed, n, k)
    ensures Run(texts, placed, m, k) == Run(texts, placed, n, k) + Concat(texts[n..m])
  {
    WeaveAcrossEmpty(texts, placed[..k], n, m);
  }

  lemma RunOverEmpty(texts: seq<Bytes>, placed: seq<Placed<Bytes>>, n: nat, k: nat)
    requires n <= |texts| && k < |placed| && n <= placed[k].pos && placed[k].what == []
    ensures Run(texts, placed, n, k + 1) == Run(texts, placed, n, k)
  {
    assert placed[..k + 1][..k] == placed[..k];
    DropEmptyLast(texts[..n], placed[..k + 1]);
  }

  /** The sections before `k` have nothing appended any more; the others have what they had. */
  ghost predicate Moved(first: seq<SectionCell>, k: nat, added: Lists, added': Lists) {
    && (forall j | 0 <= j < k && j < |first| :: ListOf(first[j].tpl, added') == [])
    && (forall j | k <= j < |first| :: ListOf(first[j].tpl, added') == ListOf(first[j].tpl, added))
  }

  /** How far an append has come: `k` sections done, nodes up to `n` written. */
  ghost predicate Appended(s: Ptr, n: nat, k: nat, was: Tpls, chunks: map<Ptr, Chunk>, added: Lists,
                           tpls': Tpls, chunks': map<Ptr, Chunk>, added': Lists)
    requires s in was
  {
    var r := was[s];
    var texts, placed := Texts(r), Contributions(r, added, chunks);
    && n <= |r.head| && k <= |r.first| && s in added && s in added'
    && Relisted(was, chunks, tpls', chunks', added, added', {s} + Kids(r.first))
    && AddedText(added'[s], chunks') == AddedText(added[s], chunks) + Run(texts, placed, n, k)
    && Moved(r.first, k, added, added') && NothingBehind(placed, n, k)
    && (forall j | k <= j < |r.first| :: n <= placed[j].pos)
  }

  lemma AppendStart(s: Ptr, was: Tpls, chunks: map<Ptr, Chunk>, added: Lists)
    requires s in was && s in added && was.Keys == added.Keys
    ensures Appended(s, 0, 0, was, chunks, added, was, chunks, added)
  {
    RunIsRendering(was[s], added, chunks);
  }

  lemma RelistedTrans(tpls: Tpls, chunks: map<Ptr, Chunk>, added: Lists, tpls1: Tpls, chunks1: map<Ptr, Chunk>,
                      added1: Lists,
                      tpls2: Tpls, chunks2: map<Ptr, Chunk>, added2: Lists, a: set<Ptr>, b: set<Ptr>)
    requires Relisted(tpls, chunks, tpls1, chunks1, added, added1, a)
    requires Relisted(tpls1, chunks1, tpls2, chunks2, added1, added2, b)
    requires b <= a
    ensures Relisted(tpls, chunks, tpls2, chunks2, added, added2, a)
  {
  }

  lemma MovedNext(first: seq<SectionCell>, k: nat, added: Lists, added': Lists)
    requires Moved(first, k, added, added') && k < |first| && ListOf(first[k].tpl, added') == []
    ensures Moved(first, k + 1, added, added') && ListOf(first[k].tpl, added) == []
  {
  }

  /** Only the list of the section at `k` was changed, if any, and the list at `s`, which is none of them. */
  lemma MovedKept(r: Tpl, s: Ptr, k: nat, added: Lists, added1: Lists, list: seq<Ptr>)
    requires Moved(r.first, k, added, added1) && forall c | c in r.first :: c.tpl != s
    ensures Moved(r.first, k, added, added1[s := list])
  {
    forall j | 0 <= j < |r.first|
      ensures ListOf(r.first[j].tpl, added1[s := list]) == ListOf(r.first[j].tpl, added1)
    {
      assert r.first[j] in r.first;
    }
  }

  lemma MovedEmptied(r: Tpl, k: nat, added: Lists, added1: Lists)
    requires SectionsOrdered(r) && k < |r.first| && Moved(r.first, k, added, added1)
    ensures Moved(r.first, k + 1, added, added1[r.first[k].tpl := []])
  {
    forall j | 0 <= j < |r.first| && j != k
      ensures ListOf(r.first[j].tpl, added1[r.first[k].tpl := []]) == ListOf(r.first[j].tpl, added1)
    {
      assert r.first[j].tpl != r.first[k].tpl;
    }
  }

  lemma EmptyText(chunks: map<Ptr, Chunk>)
    ensures AddedText([], chunks) == []
  {
    assert ChunkTexts([], chunks) == [];
  }

  lemma NothingNext(placed: seq<Placed<Bytes>>, n: nat, k: nat)
    requires k < |placed| && NothingBehind(placed, n, k) && (placed[k].what == [] || placed[k].pos <= n)
    ensures NothingBehind(placed, n, k + 1)
  {
  }

  /** A section with nothing appended is passed over; the nodes before it are left for later. */
  lemma AppendEmpty(s: Ptr, n: nat, k: nat, was: Tpls, chunks: map<Ptr, Chunk>, added: Lists,
                    tpls': Tpls, chunks': map<Ptr, Chunk>, added': Lists)
    requires s in was && Appended(s, n, k, was, chunks, added, tpls', chunks', added') && k < |was[s].first|
    requires ListOf(was[s].first[k].tpl, added') == []
    ensures Appended(s, n, k + 1, was, chunks, added, tpls', chunks', added')
  {
    hide Relisted, Texts, Run, Moved, NothingBehind, AddedText, ListOf;
    var r := was[s];
    var placed := Contributions(r, added, chunks);
    MovedNext(r.first, k, added, added');
    EmptyText(chunks);
    NothingNext(placed, n, k);
    RunOverEmpty(Texts(r), placed, n, k);
  }

  /** The nodes up to `m` are written in one node of text. */
  lemma AppendHook(s: Ptr, n: nat, m: nat, k: nat, b: Ptr, was: Tpls, chunks: map<Ptr, Chunk>, added: Lists,
                   tpls1: Tpls, chunks1: map<Ptr, Chunk>, added1: Lists,
                   tpls2: Tpls, chunks2: map<Ptr, Chunk>, added2: Lists)
    requires s in was && Appended(s, n, k, was, chunks, added, tpls1, chunks1, added1)
    requires n <= m <= |was[s].head| && SectionsOrdered(was[s]) && forall c | c in was[s].first :: c.tpl != s
    requires Within(Contributions(was[s], added, chunks)[..k], m)
    requires forall j | k <= j < |was[s].first| :: m <= was[s].first[j].preceding
    requires Relisted(tpls1, chunks1, tpls2, chunks2, added1, added2, {s}) && added2 == added1[s := added1[s] + [b]]
    requires forall x | x in added1[s] :: x in chunks1
    requires b in chunks2 && chunks2[b].val == Concat(Texts(was[s])[n..m])
    ensures Appended(s, m, k, was, chunks, added, tpls2, chunks2, added2)
  {
    hide Texts, Run, SectionsOrdered, AddedText, Moved, Relisted, Kids, ListOf, NothingBehind;
    var r := was[s];
    var placed := Contributions(r, added, chunks);
    RelistedTrans(was, chunks, added, tpls1, chunks1, added1, tpls2, chunks2, added2, {s} + Kids(r.first), {s});
    MovedKept(r, s, k, added, added1, added1[s] + [b]);
    HookGrows(placed, n, m, k);
    assert Run(Texts(r), placed, m, k) == Run(Texts(r), placed, n, k) + Concat(Texts(r)[n..m]) by {
      PlacedAt(r, added, chunks);
      RunAcross(Texts(r), placed, n, m, k);
    }
    assert AddedText(added2[s], chunks2) == AddedText(added1[s], chunks1) + Concat(Texts(r)[n..m]) by {
      RelistedValues(tpls1, chunks1, tpls2, chunks2, added1, added2, {s});
      HookedText(added1[s], b, Concat(Texts(r)[n..m]), chunks1, chunks2);
    }
  }

  lemma HookGrows(placed: seq<Placed<Bytes>>, n: nat, m: nat, k: nat)
    requires k <= |placed| && n <= m && NothingBehind(placed, n, k)
    ensures NothingBehind(placed, m, k)
  {
  }

  lemma RelistedValues(tpls: Tpls, chunks: map<Ptr, Chunk>, tpls': Tpls, chunks': map<Ptr, Chunk>,
                       added: Lists, added': Lists, changed: set<Ptr>)
    requires Relisted(tpls, chunks, tpls', chunks', added, added', changed)
    ensures forall x | x in chunks :: x in chunks' && chunks'[x].val == chunks[x].val
  {
  }

  /** The added list of the next section is moved over. */
  lemma AppendSplice(s: Ptr, k: nat, was: Tpls, chunks: map<Ptr, Chunk>, added: Lists,
                     tpls1: Tpls, chunks1: map<Ptr, Chunk>, added1: Lists,
                     tpls2: Tpls, chunks2: map<Ptr, Chunk>, added2: Lists)
    requires s in was && k < |was[s].first| && SectionsOrdered(was[s]) && forall c | c in was[s].first :: c.tpl != s
    requires Appended(s, was[s].first[k].preceding, k, was, chunks, added, tpls1, chunks1, added1)
    requires was[s].first[k].tpl in added1
    requires Relisted(tpls1, chunks1, tpls2, chunks2, added1, added2, {s, was[s].first[k].tpl})
    requires added2 == added1[s := added1[s] + added1[was[s].first[k].tpl]][was[s].first[k].tpl := []]
    requires forall x | x in added1[s] + added1[was[s].first[k].tpl] :: x in chunks1
    requires forall x | x in ListOf(was[s].first[k].tpl, added) :: x in chunks
    ensures Appended(s, was[s].first[k].preceding, k + 1, was, chunks, added, tpls2, chunks2, added2)
  {
    hide Texts, Run, AddedText, Moved, Relisted, Kids, NothingBehind, SectionsOrdered;
    var r := was[s];
    var c, m := r.first[k].tpl, r.first[k].preceding;
    var placed := Contributions(r, added, chunks);
    SpliceKids(s, r, k);
    RelistedTrans(was, chunks, added, tpls1, chunks1, added1, tpls2, chunks2, added2, {s} + Kids(r.first), {s, c});
    MovedKept(r, s, k, added, added1, added1[s] + added1[c]);
    MovedEmptied(r, k, added, added1[s := added1[s] + added1[c]]);
    NothingNext(placed, m, k);
    OrderedBehind(r, k);
    assert AddedText(added2[s], chunks2) == AddedText(added1[s], chunks1) + placed[k].what by {
      RelistedValues(was, chunks, tpls1, chunks1, added, added1, {s} + Kids(r.first));
      RelistedValues(tpls1, chunks1, tpls2, chunks2, added1, added2, {s, c});
      SpliceText(s, c, r, k, added, chunks, added1, chunks1, chunks2);
    }
    RunSection(Texts(r), placed, m, k);
  }

  lemma SpliceKids(s: Ptr, r: Tpl, k: nat)
    requires k < |r.first| && forall c | c in r.first :: c.tpl != s
    ensures r.first[k].tpl != s && {s, r.first[k].tpl} <= {s} + Kids(r.first)
  {
    assert r.first[k] in r.first;
  }

  lemma OrderedBehind(r: Tpl, k: nat)
    requires SectionsOrdered(r) && k < |r.first|
    ensures r.first[k].preceding <= |r.head|
    ensures forall j | k < j < |r.first| :: r.first[k].preceding <= r.first[j].preceding
  {
    assert r.first[k] in r.first;
  }

  lemma SpliceText(s: Ptr, c: Ptr, r: Tpl, k: nat, added: Lists, chunks: map<Ptr, Chunk>,
                   added1: Lists, chunks1: map<Ptr, Chunk>, chunks2: map<Ptr, Chunk>)
    requires k < |r.first| && c == r.first[k].tpl && s in added1 && c in added1 && Moved(r.first, k, added, added1)
    requires forall x | x in chunks :: x in chunks1 && chunks1[x].val == chunks[x].val
    requires forall x | x in chunks1 :: x in chunks2 && chunks2[x].val == chunks1[x].val
    requires forall x | x in added1[s] + added1[c] :: x in chunks1
    requires forall x | x in ListOf(c, added) :: x in chunks
    ensures AddedText(added1[s] + added1[c], chunks2)
         == AddedText(added1[s], chunks1) + AddedText(ListOf(c, added), chunks)
  {
    hide AddedText;
    assert ListOf(c, added1) == ListOf(c, added);
    SplicedText(added1[s], added1[c], chunks1, chunks2);
    AddedTextFrame(added1[c], chunks, chunks1);
  }

  /** A section with appended content: write the nodes before it, then move its content over. */
  method AppendFrom(st: Store, s: Ptr, r: Tpl, n: nat, k: nat, ghost was: Tpls, ghost chunks: map<Ptr, Chunk>,
                    ghost added: Lists)
    requires st.Valid() && s in was && r == was[s] && k < |r.first|
    requires Appended(s, n, k, was, chunks, added, st.tpls, st.chunks, st.added)
    requires ListOf(r.first[k].tpl, st.added) != []
    requires SectionsOrdered(r) && forall c | c in r.first :: c.tpl != s && c.tpl in was
    requires forall t, x | t in added && x in added[t] :: x in chunks
    modifies st`tpls, st`chunks, st`brk, st`added, st`owner
    ensures st.Valid()
    ensures Appended(s, r.first[k].preceding, k + 1, was, chunks, added, st.tpls, st.chunks, st.added)
  {
    hide SoundStore, SectionsOrdered, AddedText, Texts, Relisted, Appended, NothingBehind, Within;
    var c, m := r.first[k].tpl, r.first[k].preceding;
    AppendStep(st, s, n, k, was, chunks, added);
    var text := Coalesce(r, n, m);
    ghost var tpls1, chunks1, added1, b := st.tpls, st.chunks, st.added, st.brk;
    HookText(st, s, text);
    AppendHook(s, n, m, k, b, was, chunks, added, tpls1, chunks1, added1, st.tpls, st.chunks, st.added);
    AppendStep(st, s, m, k, was, chunks, added);
    tpls1, chunks1, added1 := st.tpls, st.chunks, st.added;
    Splice(st, s, c);
    AppendSplice(s, k, was, chunks, added, tpls1, chunks1, added1, st.tpls, st.chunks, st.added);
  }

  /** The rest of the nodes */
  method AppendRest(st: Store, s: Ptr, r: Tpl, n: nat, ghost was: Tpls, ghost chunks: map<Ptr, Chunk>,
                    ghost added: Lists)
    requires st.Valid() && s in was && r == was[s]
    requires Appended(s, n, |r.first|, was, chunks, added, st.tpls, st.chunks, st.added)
    requires SectionsOrdered(r) && forall c | c in r.first :: c.tpl != s && c.tpl in was
    modifies st`tpls, st`chunks, st`brk, st`added, st`owner
    ensures st.Valid()
    ensures Appended(s, |r.head|, |r.first|, was, chunks, added, st.tpls, st.chunks, st.added)
  {
    hide SoundStore, SectionsOrdered, AddedText, Texts, Relisted, Appended, NothingBehind, Within;
    AppendStep(st, s, n, |r.first|, was, chunks, added);
    var text := Coalesce(r, n, |r.head|);
    ghost var tpls1, chunks1, added1, b := st.tpls, st.chunks, st.added, st.brk;
    HookText(st, s, text);
    AppendHook(s, n, |r.head|, |r.first|, b, was, chunks, added, tpls1, chunks1, added1, st.tpls, st.chunks, st.added);
  }

  /** `tpl_append_section`: with a section selected, its rendering goes behind what it had appended, each
      section directly inside it ends up with nothing appended, and nothing else changes. */
  method AppendSection(st: Store, root: Ptr) returns (ok: bool)
    requires st.Valid() && root in st.tpls && st.tpls[root].tpl in st.tpls
    modifies st`tpls, st`chunks, st`brk, st`added, st`owner
    ensures st.Valid()
    ensures ok <==> SelectedOf(root, old(st.tpls)) != root
    ensures !ok ==>
      st.tpls == old(st.tpls) && st.chunks == old(st.chunks) && st.added == old(st.added) && st.brk == old(st.brk)
    ensures ok ==>
      var s := SelectedOf(root, old(st.tpls));
      var r := old(st.tpls)[s];
      && AddedText(ListOf(s, st.added), st.chunks)
         == AddedText(ListOf(s, old(st.added)), old(st.chunks)) + Rendered(r, old(st.added), old(st.chunks))
      && (forall c | c in Kids(r.first) :: ListOf(c, st.added) == [])
      && Relisted(old(st.tpls), old(st.chunks), st.tpls, st.chunks, old(st.added), st.added, {s} + Kids(r.first))
  {
    hide SoundStore, SectionsOrdered, AddedText, Texts, Rendered, Relisted, Appended, Kids, Contributions, Within;
    if st.tpls[root].tpl == root {
      return false;
    }
    var s := st.tpls[root].tpl;
    var r := st.tpls[s];
    ghost var was, chunks, added := st.tpls, st.chunks, st.added;
    AppendFacts(st, s);
    AppendStart(s, was, chunks, added);
    var k: nat, n: nat := 0, 0;
    while k < |r.first|
      invariant 0 <= k <= |r.first| && st.Valid()
      invariant Appended(s, n, k, was, chunks, added, st.tpls, st.chunks, st.added)
    {
      AppendStep(st, s, n, k, was, chunks, added);
      if st.tpls[r.first[k].tpl].addedHead.Some? {
        AppendFrom(st, s, r, n, k, was, chunks, added);
        n := r.first[k].preceding;
      } else {
        AppendEmpty(s, n, k, was, chunks, added, st.tpls, st.chunks, st.added);
      }
      k := k + 1;
    }
    AppendRest(st, s, r, n, was, chunks, added);
    AppendDone(s, was, chunks, added, st.tpls, st.chunks, st.added);
    return true;
  }

  lemma AppendFacts(st: Store, s: Ptr)
    requires st.Valid() && s in st.tpls
    ensures st.added.Keys == st.tpls.Keys && SectionsOrdered(st.tpls[s])
    ensures forall c | c in st.tpls[s].first :: c.tpl != s && c.tpl in st.tpls
    ensures forall t, x | t in st.added && x in st.added[t] :: x in st.chunks
  {
    WholeOf(st.tpls, st.chunks, st.brk, st.added, st.owner, s);
    ListInChunks(st.tpls, st.chunks, st.brk, st.added, st.owner);
  }

  /** What is known each time round the loop of the append. */
  lemma AppendStep(st: Store, s: Ptr, n: nat, k: nat, was: Tpls, chunks: map<Ptr, Chunk>, added: Lists)
    requires st.Valid() && s in was && Appended(s, n, k, was, chunks, added, st.tpls, st.chunks, st.added)
    requires SectionsOrdered(was[s]) && forall c | c in was[s].first :: c.tpl != s && c.tpl in was
    ensures s in st.tpls && s in st.added && n <= |was[s].head|
    ensures forall t, x | t in st.added && x in st.added[t] :: x in st.chunks
    ensures var placed := Contributions(was[s], added, chunks);
            if k < |was[s].first| then
              var c, m := was[s].first[k].tpl, was[s].first[k].preceding;
              && n <= m <= |was[s].head| && Within(placed[..k], m)
              && (forall j | k <= j < |was[s].first| :: m <= was[s].first[j].preceding)
              && c in st.tpls && c in st.added && c != s && (st.tpls[c].addedHead.Some? <==> st.added[c] != [])
            else Within(placed[..k], |was[s].head|)
  {
    hide SoundStore, Whole, FieldsIndexed, SectionsChained, Run, Texts, AddedText, Rendered, Tree, Owned;
    ListInChunks(st.tpls, st.chunks, st.brk, st.added, st.owner);
    PlacedAt(was[s], added, chunks);
    if k < |was[s].first| {
      var c := was[s].first[k];
      assert c in was[s].first;
      WholeOf(st.tpls, st.chunks, st.brk, st.added, st.owner, c.tpl);
    }
  }

  lemma AppendDone(s: Ptr, was: Tpls, chunks: map<Ptr, Chunk>, added: Lists, tpls': Tpls, chunks': map<Ptr, Chunk>,
                   added': Lists)
    requires s in was && Appended(s, |was[s].head|, |was[s].first|, was, chunks, added, tpls', chunks', added')
    ensures AddedText(ListOf(s, added'), chunks')
      == AddedText(ListOf(s, added), chunks) + Rendered(was[s], added, chunks)
    ensures forall c | c in Kids(was[s].first) :: ListOf(c, added') == []
    ensures Relisted(was, chunks, tpls', chunks', added, added', {s} + Kids(was[s].first))
  {
    RunIsRendering(was[s], added, chunks);
  }
}
