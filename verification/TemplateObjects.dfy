/** The objects of tpllib and their invariants. Templates and nodes of added content live at addresses
    of a store; a pointer is an address, and a field cell is named by its bucket and its place in the
    chain, since chains only grow. */
module TemplateObjects {
  import opened ByteStrings
  import opened Chains
  import opened Weaving
  import opened Markup

  type Ptr = nat

  /** `tpl_fcell_t` */
  datatype Cell = Cell(key: Bytes, val: Bytes)

  /** A node of the parsed content. */
  datatype Node = TextNode(text: Bytes) | FieldNode(bucket: nat, index: nat)

  /** A node of added content. */
  datatype Chunk = Chunk(val: Bytes, next: Option<Ptr>)

  /** The pointer a new added node is hooked to: a template's list head, or a node's `next`. */
  datatype Link = AtHead(of: Ptr) | AtNext(chunk: Ptr)

  /** `tpl_tcell_t`; `preceding` is how many nodes of the enclosing template come before it. */
  datatype SectionCell = SectionCell(key: Bytes, tpl: Ptr, preceding: nat)

  /** `tpl_t` */
  datatype Tpl = Tpl(
    head: seq<Node>,
    addedHead: Option<Ptr>,
    addedTail: Link,
    first: seq<SectionCell>,
    fields: seq<seq<Cell>>,
    sections: seq<seq<SectionCell>>,
    tpl: Ptr,
    parent: Option<Ptr>)

  type Tpls = map<Ptr, Tpl>

  function CellKeys(cells: seq<Cell>): (r: seq<Bytes>)
    ensures |r| == |cells| && forall i | 0 <= i < |r| :: r[i] == cells[i].key
  {
    seq(|cells|, i requires 0 <= i < |cells| => cells[i].key)
  }

  function SectionKeys(secs: seq<SectionCell>): (r: seq<Bytes>)
    ensures |r| == |secs| && forall i | 0 <= i < |r| :: r[i] == secs[i].key
  {
    seq(|secs|, i requires 0 <= i < |secs| => secs[i].key)
  }

  function KeyTable(fields: seq<seq<Cell>>): (t: Table)
    requires |fields| == BUCKETS
    ensures forall b | 0 <= b < BUCKETS :: t[b] == CellKeys(fields[b])
  {
    seq(BUCKETS, b requires 0 <= b < BUCKETS => CellKeys(fields[b]))
  }

  function SectionTable(sections: seq<seq<SectionCell>>): (t: Table)
    requires |sections| == BUCKETS
    ensures forall b | 0 <= b < BUCKETS :: t[b] == SectionKeys(sections[b])
  {
    seq(BUCKETS, b requires 0 <= b < BUCKETS => SectionKeys(sections[b]))
  }

  function SectionsIn(secs: seq<SectionCell>, b: nat): (r: seq<SectionCell>)
    ensures forall s | s in r :: s in secs && Bucket(s.key) == b
    ensures forall s | s in secs && Bucket(s.key) == b :: s in r
  {
    if secs == [] then []
    else
      var front, last := SectionsIn(secs[..|secs| - 1], b), secs[|secs| - 1];
      if Bucket(last.key) == b then front + [last] else front
  }

  /** How many cells of bucket `b` the nodes refer to, given that they do so in order. */
  function Seen(nodes: seq<Node>, b: nat): nat {
    if nodes == [] then 0
    else
      var front, last := Seen(nodes[..|nodes| - 1], b), nodes[|nodes| - 1];
      if last.FieldNode? && last.bucket == b && front <= last.index then last.index + 1 else front
  }

  /** The chains hold exactly the cells the nodes refer to, in the order of first reference. */
  ghost predicate FieldsIndexed(r: Tpl) {
    && |r.fields| == BUCKETS
    && (forall b | 0 <= b < BUCKETS :: NoPrefix(CellKeys(r.fields[b])) && Seen(r.head, b) == |r.fields[b]|)
    && (forall b, c | 0 <= b < BUCKETS && c in r.fields[b] :: GoodName(c.key) && Bucket(c.key) == b)
    && (forall n | n in r.head && n.FieldNode? :: n.bucket < BUCKETS && n.index < |r.fields[n.bucket]|)
    && (forall i | 0 <= i < |r.head| && r.head[i].FieldNode? :: r.head[i].index <= Seen(r.head[..i], r.head[i].bucket))
  }

  /** The section chains hold the sections of the list. */
  ghost predicate SectionsChained(r: Tpl) {
    && |r.sections| == BUCKETS
    && (forall b | 0 <= b < BUCKETS :: r.sections[b] == SectionsIn(r.first, b) && NoPrefix(SectionKeys(r.sections[b])))
  }

  /** The section list is in order of position, and each section has a template of its own. */
  ghost predicate SectionsOrdered(r: Tpl) {
    && (forall s | s in r.first :: GoodName(s.key) && s.preceding <= |r.head|)
    && (forall i, j | 0 <= i < j < |r.first| ::
          r.first[i].preceding <= r.first[j].preceding && r.first[i].tpl != r.first[j].tpl)
  }

  ghost predicate SectionsIndexed(r: Tpl) {
    SectionsChained(r) && SectionsOrdered(r)
  }

  /** The linked list of added content of the template at `t` is `list`; its tail pointer is at the end. */
  ghost predicate Linked(t: Ptr, r: Tpl, list: seq<Ptr>, chunks: map<Ptr, Chunk>) {
    && (forall i, j | 0 <= i < j < |list| :: list[i] != list[j])
    && (forall i | 0 <= i < |list| :: list[i] in chunks)
    && (forall i, j | 0 <= i && j == i + 1 < |list| :: chunks[list[i]].next == Some(list[j]))
    && r.addedHead == (if list == [] then None else Some(list[0]))
    && (if list == [] then r.addedTail == AtHead(t)
        else r.addedTail == AtNext(list[|list| - 1]) && chunks[list[|list| - 1]].next == None)
  }

  /** Sections lie above their parents in the store, so they form trees. */
  ghost predicate Tree(tpls: Tpls, brk: Ptr) {
    && (forall t | t in tpls :: t < brk)
    && (forall t, s | t in tpls && s in tpls[t].first ::
          t < s.tpl && s.tpl in tpls && tpls[s.tpl].parent == Some(t))
  }

  /** A template that has a parent lies above it, and the parent is there. */
  ghost predicate ParentThere(t: Ptr, tpls: Tpls)
    requires t in tpls
  {
    tpls[t].parent.Some? ==> tpls[t].parent.value in tpls && tpls[t].parent.value < t
  }

  /** All of the ways up from a template are in the store, whether or not they lead to where it is listed. */
  ghost predicate Rooted(tpls: Tpls) {
    forall t | t in tpls :: ParentThere(t, tpls)
  }

  /** No template has the one at `c` for its parent. */
  ghost predicate Childless(c: Ptr, tpls: Tpls) {
    Rooted(tpls) && forall u | u in tpls :: tpls[u].parent != Some(c)
  }

  lemma RootedSame(tpls: Tpls, tpls': Tpls)
    requires Rooted(tpls) && tpls'.Keys == tpls.Keys
    requires forall u | u in tpls :: tpls'[u].parent == tpls[u].parent
    ensures Rooted(tpls')
  {
    forall t | t in tpls' ensures ParentThere(t, tpls') {
      assert ParentThere(t, tpls);
    }
  }

  lemma RootedMore(tpls: Tpls, c: Ptr, r: Tpl)
    requires Rooted(tpls) && c !in tpls && (forall t | t in tpls :: t < c)
    requires r.parent.Some? ==> r.parent.value in tpls
    ensures Rooted(tpls[c := r]) && Childless(c, tpls[c := r])
  {
    var tpls' := tpls[c := r];
    forall t | t in tpls' ensures ParentThere(t, tpls') && tpls'[t].parent != Some(c) {
      assert t != c ==> ParentThere(t, tpls);
    }
  }

  type Lists = map<Ptr, seq<Ptr>>

  /** Everything said of one template: its tables, positions and added list. */
  ghost predicate Whole(t: Ptr, r: Tpl, list: seq<Ptr>, chunks: map<Ptr, Chunk>) {
    FieldsIndexed(r) && SectionsIndexed(r) && Linked(t, r, list, chunks)
  }

  /** No node is in the added lists of two templates. */
  ghost predicate Owned(added: Lists, owner: map<Ptr, Ptr>) {
    forall t, i | t in added && 0 <= i < |added[t]| :: added[t][i] in owner && owner[added[t][i]] == t
  }

  ghost predicate SoundStore(tpls: Tpls, chunks: map<Ptr, Chunk>, brk: Ptr, added: Lists, owner: map<Ptr, Ptr>) {
    && Tree(tpls, brk) && Rooted(tpls) && added.Keys == tpls.Keys
    && (forall t | t in tpls :: Whole(t, tpls[t], added[t], chunks))
    && Owned(added, owner)
    && (forall c | c in chunks :: c < brk)
  }

  function ChunkTexts(list: seq<Ptr>, chunks: map<Ptr, Chunk>): (r: seq<Bytes>)
    ensures |r| == |list| && forall i | 0 <= i < |r| :: r[i] == if list[i] in chunks then chunks[list[i]].val else []
  {
    seq(|list|, i requires 0 <= i < |list| => if list[i] in chunks then chunks[list[i]].val else [])
  }

  /** The bytes of an added list. */
  function AddedText(list: seq<Ptr>, chunks: map<Ptr, Chunk>): Bytes {
    Concat(ChunkTexts(list, chunks))
  }

  function NodeText(n: Node, fields: seq<seq<Cell>>): Bytes {
    match n
    case TextNode(text) => text
    case FieldNode(b, i) => if b < |fields| && i < |fields[b]| then fields[b][i].val else []
  }

  function Texts(r: Tpl): (q: seq<Bytes>)
    ensures |q| == |r.head| && forall i | 0 <= i < |q| :: q[i] == NodeText(r.head[i], r.fields)
  {
    seq(|r.head|, i requires 0 <= i < |r.head| => NodeText(r.head[i], r.fields))
  }

  function ListOf(t: Ptr, added: Lists): seq<Ptr> {
    if t in added then added[t] else []
  }

  function Contributions(r: Tpl, added: Lists, chunks: map<Ptr, Chunk>): (q: seq<Placed<Bytes>>)
    ensures |q| == |r.first|
    ensures forall i | 0 <= i < |q| ::
      q[i] == Placed(r.first[i].preceding, AddedText(ListOf(r.first[i].tpl, added), chunks))
  {
    seq(|r.first|, i requires 0 <= i < |r.first| =>
      Placed(r.first[i].preceding, AddedText(ListOf(r.first[i].tpl, added), chunks)))
  }

  /** What `tpl_get_content` is to write: the nodes, with each section's added content at its place. */
  function Rendered(r: Tpl, added: Lists, chunks: map<Ptr, Chunk>): Bytes {
    Concat(Weave(Texts(r), Contributions(r, added, chunks)))
  }

  function ItemOf(n: Node, fields: seq<seq<Cell>>): Piece {
    match n
    case TextNode(text) => Text(text)
    case FieldNode(b, i) => Field(if b < |fields| && i < |fields[b]| then fields[b][i].key else [])
  }

  function Items(r: Tpl): (q: seq<Piece>)
    ensures |q| == |r.head| && forall i | 0 <= i < |q| :: q[i] == ItemOf(r.head[i], r.fields)
  {
    seq(|r.head|, i requires 0 <= i < |r.head| => ItemOf(r.head[i], r.fields))
  }

  /** The document a template holds, sections and all. */
  ghost function Document(t: Ptr, tpls: Tpls, brk: Ptr): seq<Piece>
    requires Tree(tpls, brk) && t in tpls
    decreases brk - t, 1
  {
    Weave(Items(tpls[t]), Parts(t, |tpls[t].first|, tpls, brk))
  }

  ghost function Parts(t: Ptr, n: nat, tpls: Tpls, brk: Ptr): (q: seq<Placed<Piece>>)
    requires Tree(tpls, brk) && t in tpls && n <= |tpls[t].first|
    ensures |q| == n
    ensures forall i | 0 <= i < n ::
      var s := tpls[t].first[i];
      q[i] == Placed(s.preceding, Section(s.key, Document(s.tpl, tpls, brk)))
    decreases brk - t, 0, n
  {
    if n == 0 then []
    else
      var s := tpls[t].first[n - 1];
      Parts(t, n - 1, tpls, brk) + [Placed(s.preceding, Section(s.key, Document(s.tpl, tpls, brk)))]
  }

  /** `tpl_init` */
  function Initial(t: Ptr): Tpl {
    Tpl([], None, AtHead(t), [], seq(BUCKETS, b => []), seq(BUCKETS, b => []), t, None)
  }

  function WithNode(r: Tpl, n: Node): Tpl {
    r.(head := r.head + [n])
  }

  lemma SeenAfter(nodes: seq<Node>, n: Node, b: nat)
    ensures Seen(nodes + [n], b) ==
      if n.FieldNode? && n.bucket == b && Seen(nodes, b) <= n.index then n.index + 1 else Seen(nodes, b)
  {
    assert (nodes + [n])[..|nodes + [n]| - 1] == nodes;
  }

  lemma SeenBefore(r: Tpl, n: Node)
    requires FieldsIndexed(r)
    requires n.FieldNode? ==> n.index <= Seen(r.head, n.bucket)
    ensures var head := r.head + [n];
            forall i | 0 <= i < |head| && head[i].FieldNode? :: head[i].index <= Seen(head[..i], head[i].bucket)
  {
    var head := r.head + [n];
    forall i | 0 <= i < |head| && head[i].FieldNode? ensures head[i].index <= Seen(head[..i], head[i].bucket) {
      if i < |r.head| {
        assert head[..i] == r.head[..i];
      } else {
        assert head[..i] == r.head;
      }
    }
  }

  /** Appending text, or a reference to a cell already there, keeps the field tables. */
  lemma NodeKeepsFields(r: Tpl, n: Node)
    requires FieldsIndexed(r)
    requires n.FieldNode? ==> n.bucket < BUCKETS && n.index < |r.fields[n.bucket]|
    ensures FieldsIndexed(WithNode(r, n))
  {
    forall b { SeenAfter(r.head, n, b); }
    SeenBefore(r, n);
  }

  function WithCell(r: Tpl, key: Bytes): Tpl {
    var b := Bucket(key);
    if b < |r.fields| then
      r.(fields := r.fields[b := r.fields[b] + [Cell(key, [])]], head := r.head + [FieldNode(b, |r.fields[b]|)])
    else r
  }

  lemma NewCellChains(r: Tpl, key: Bytes, b: nat)
    requires FieldsIndexed(r) && FindKey(CellKeys(r.fields[Bucket(key)]), key) == None && b < BUCKETS
    ensures var q := WithCell(r, key);
            |q.fields| == BUCKETS && NoPrefix(CellKeys(q.fields[b])) && Seen(q.head, b) == |q.fields[b]|
  {
    hide Seen, Bucket, GoodName;
    var q, k := WithCell(r, key), Bucket(key);
    SeenAfter(r.head, FieldNode(k, |r.fields[k]|), b);
    assert CellKeys(q.fields[k]) == CellKeys(r.fields[k]) + [key];
  }

  lemma NewCellNodes(r: Tpl, key: Bytes)
    requires FieldsIndexed(r) && GoodName(key)
    ensures var q := WithCell(r, key);
            && |q.fields| == BUCKETS
            && (forall b, c | 0 <= b < BUCKETS && c in q.fields[b] :: GoodName(c.key) && Bucket(c.key) == b)
            && (forall n | n in q.head && n.FieldNode? :: n.bucket < BUCKETS && n.index < |q.fields[n.bucket]|)
  {
    hide Seen, Bucket, GoodName, NoPrefix, CellKeys;
  }

  /** So does a reference to a new cell at the end of its chain, when no key there extends the new one. */
  lemma NewCellKeepsFields(r: Tpl, key: Bytes)
    requires FieldsIndexed(r) && GoodName(key) && FindKey(CellKeys(r.fields[Bucket(key)]), key) == None
    ensures FieldsIndexed(WithCell(r, key))
    ensures KeyTable(WithCell(r, key).fields) == Put(KeyTable(r.fields), key)
  {
    hide Seen, Bucket, GoodName, NoPrefix, CellKeys;
    var b := Bucket(key);
    forall k: nat | k < BUCKETS { NewCellChains(r, key, k); }
    NewCellNodes(r, key);
    SeenBefore(r, FieldNode(b, |r.fields[b]|));
    CellPut(r, key);
  }

  lemma CellPut(r: Tpl, key: Bytes)
    requires |r.fields| == BUCKETS && FindKey(CellKeys(r.fields[Bucket(key)]), key) == None
    ensures KeyTable(WithCell(r, key).fields) == Put(KeyTable(r.fields), key)
  {
    hide FindKey, Bucket;
    var q, b := WithCell(r, key), Bucket(key);
    assert CellKeys(q.fields[b]) == CellKeys(r.fields[b]) + [key];
  }

  lemma NodeKeepsSections(r: Tpl, q: Tpl)
    requires SectionsIndexed(r) && q.first == r.first && q.sections == r.sections && |r.head| <= |q.head|
    ensures SectionsIndexed(q)
  {
  }

  function AfterField(r: Tpl, key: Bytes): Tpl {
    var b := Bucket(key);
    if |r.fields| <= b then r
    else match FindKey(CellKeys(r.fields[b]), key)
         case Some(i) => WithNode(r, FieldNode(b, i))
         case None => WithCell(r, key)
  }

  lemma FieldHit(r: Tpl, key: Bytes, i: nat)
    requires FieldsIndexed(r) && FindKey(CellKeys(r.fields[Bucket(key)]), key) == Some(i)
    ensures Put(KeyTable(r.fields), key) == KeyTable(r.fields)
    ensures r.fields[Bucket(key)][i].key == Resolve(KeyTable(r.fields), key)
    ensures Items(WithNode(r, FieldNode(Bucket(key), i))) == Items(r) + [Field(r.fields[Bucket(key)][i].key)]
  {
    hide FindKey, Bucket, NoPrefix, GoodName, Seen, Items;
    HitItems(r, Bucket(key), i);
  }

  lemma HitItems(r: Tpl, b: nat, i: nat)
    requires b < |r.fields| && i < |r.fields[b]|
    ensures Items(WithNode(r, FieldNode(b, i))) == Items(r) + [Field(r.fields[b][i].key)]
  {
    var q := WithNode(r, FieldNode(b, i));
    forall j | 0 <= j < |r.head| ensures ItemOf(q.head[j], q.fields) == ItemOf(r.head[j], r.fields) {
      assert q.head[j] == r.head[j];
    }
  }

  lemma FieldMiss(r: Tpl, key: Bytes)
    requires FieldsIndexed(r) && FindKey(CellKeys(r.fields[Bucket(key)]), key) == None
    ensures Resolve(KeyTable(r.fields), key) == key
    ensures Items(WithCell(r, key)) == Items(r) + [Field(key)]
  {
    assert |r.fields| == BUCKETS;
    hide FindKey, FieldsIndexed, KeyTable, Resolve;
    ResolveMiss(KeyTable(r.fields), key);
    CellItems(r, key);
  }

  lemma CellItems(r: Tpl, key: Bytes)
    requires FieldsIndexed(r)
    ensures Items(WithCell(r, key)) == Items(r) + [Field(key)]
  {
    hide NoPrefix, GoodName, Seen, Bucket;
    var q := WithCell(r, key);
    forall i | 0 <= i < |r.head| ensures ItemOf(q.head[i], q.fields) == ItemOf(r.head[i], r.fields) {
      assert q.head[i] == r.head[i] && r.head[i] in r.head;
    }
  }

  lemma ResolveMiss(t: Table, key: Bytes)
    requires Lookup(t, key) == None
    ensures Resolve(t, key) == key
  {
  }

  /** What appending a field does to the tables and to the document. */
  lemma FieldAppended(r: Tpl, key: Bytes)
    requires FieldsIndexed(r) && GoodName(key)
    ensures var q := AfterField(r, key);
            && FieldsIndexed(q) && (SectionsIndexed(r) ==> SectionsIndexed(q))
            && KeyTable(q.fields) == Put(KeyTable(r.fields), key)
            && Items(q) == Items(r) + [Field(Resolve(KeyTable(r.fields), key))]
  {
    assert |r.fields| == BUCKETS;
    var i := FindKey(CellKeys(r.fields[Bucket(key)]), key);
    if i.Some? {
      FieldHit(r, key, i.value);
      NodeKeepsFields(r, FieldNode(Bucket(key), i.value));
    } else {
      FieldMiss(r, key);
      NewCellKeepsFields(r, key);
    }
    hide FieldsIndexed, KeyTable, Put, Resolve, Items;
    if SectionsIndexed(r) {
      NodeKeepsSections(r, AfterField(r, key));
    }
  }

  lemma TextAppended(r: Tpl, text: Bytes)
    requires FieldsIndexed(r)
    ensures var q := WithNode(r, TextNode(text));
            && FieldsIndexed(q) && (SectionsIndexed(r) ==> SectionsIndexed(q))
            && Items(q) == Items(r) + [Text(text)]
  {
    NodeKeepsFields(r, TextNode(text));
    if SectionsIndexed(r) {
      NodeKeepsSections(r, WithNode(r, TextNode(text)));
    }
  }

  function WithSection(r: Tpl, key: Bytes, child: Ptr): Tpl {
    var b, s := Bucket(key), SectionCell(key, child, |r.head|);
    if |r.sections| <= b then r
    else r.(first := r.first + [s], sections := r.sections[b := r.sections[b] + [s]])
  }

  lemma SectionTableAppended(r: Tpl, key: Bytes, child: Ptr)
    requires |r.sections| == BUCKETS && FindKey(SectionKeys(r.sections[Bucket(key)]), key) == None
    ensures var q := WithSection(r, key, child);
            && SectionTable(q.sections) == Put(SectionTable(r.sections), key)
            && (NoPrefix(SectionKeys(r.sections[Bucket(key)])) ==> NoPrefix(SectionKeys(q.sections[Bucket(key)])))
  {
    var b := Bucket(key);
    assert SectionKeys(WithSection(r, key, child).sections[b]) == SectionKeys(r.sections[b]) + [key];
  }

  lemma FieldsDependOn(r: Tpl, q: Tpl)
    requires q.head == r.head && q.fields == r.fields
    ensures FieldsIndexed(r) <==> FieldsIndexed(q)
  {
  }

  lemma SectionChainAppended(r: Tpl, key: Bytes, child: Ptr)
    requires SectionsChained(r) && FindKey(SectionKeys(r.sections[Bucket(key)]), key) == None
    ensures SectionsChained(WithSection(r, key, child))
  {
    hide FindKey, NoPrefix, SectionKeys, SectionTable, Put, SectionsIn;
    var s := SectionCell(key, child, |r.head|);
    SectionTableAppended(r, key, child);
    forall b { SectionsInAfter(r.first, s, b); }
  }

  lemma SectionAppended(r: Tpl, key: Bytes, child: Ptr)
    requires SectionsIndexed(r) && GoodName(key) && FindKey(SectionKeys(r.sections[Bucket(key)]), key) == None
    requires forall s | s in r.first :: s.tpl != child
    ensures var q := WithSection(r, key, child);
            && SectionsIndexed(q) && (FieldsIndexed(r) ==> FieldsIndexed(q))
            && SectionTable(q.sections) == Put(SectionTable(r.sections), key)
  {
    hide FieldsIndexed, SectionsChained, SectionsOrdered, FindKey, GoodName, SectionKeys, SectionTable, Put, Bucket;
    FieldsDependOn(r, WithSection(r, key, child));
    assert |r.sections| == BUCKETS by { ChainCount(r); }
    SectionTableAppended(r, key, child);
    SectionChainAppended(r, key, child);
    SectionOrderAppended(r, key, child);
  }

  lemma ChainCount(r: Tpl)
    requires SectionsChained(r)
    ensures |r.sections| == BUCKETS
  {
  }

  lemma SectionOrderAppended(r: Tpl, key: Bytes, child: Ptr)
    requires SectionsOrdered(r) && GoodName(key) && forall s | s in r.first :: s.tpl != child
    ensures SectionsOrdered(WithSection(r, key, child))
  {
    hide GoodName, Bucket;
    assert forall i | 0 <= i < |r.first| :: r.first[i] in r.first;
  }

  lemma SectionsInAfter(secs: seq<SectionCell>, s: SectionCell, b: nat)
    ensures SectionsIn(secs + [s], b) == if Bucket(s.key) == b then SectionsIn(secs, b) + [s] else SectionsIn(secs, b)
  {
    assert (secs + [s])[..|secs + [s]| - 1] == secs;
  }

  /** The section a lookup by name finds. */
  function SectionFor(r: Tpl, key: Bytes): Option<SectionCell> {
    var b := Bucket(key);
    if |r.sections| <= b then None
    else match FindKey(SectionKeys(r.sections[b]), key)
         case None => None
         case Some(i) => Some(r.sections[b][i])
  }

  lemma AllocSound(tpls: Tpls, chunks: map<Ptr, Chunk>, brk: Ptr, added: Lists, owner: map<Ptr, Ptr>,
                   parent: Option<Ptr>)
    requires SoundStore(tpls, chunks, brk, added, owner) && (parent.Some? ==> parent.value in tpls)
    ensures SoundStore(tpls[brk := Initial(brk).(parent := parent)], chunks, brk + 1, added[brk := []], owner)
    ensures Childless(brk, tpls[brk := Initial(brk).(parent := parent)])
  {
    hide Whole, Rooted, Childless;
    RootedMore(tpls, brk, Initial(brk).(parent := parent));
    WholeInitial(brk, chunks, parent);
  }

  lemma WholeInitial(t: Ptr, chunks: map<Ptr, Chunk>, parent: Option<Ptr>)
    ensures Whole(t, Initial(t).(parent := parent), [], chunks)
  {
  }

  lemma WholeUpdate(t: Ptr, r: Tpl, q: Tpl, list: seq<Ptr>, chunks: map<Ptr, Chunk>)
    requires Whole(t, r, list, chunks) && FieldsIndexed(q) && SectionsIndexed(q)
    requires q.addedHead == r.addedHead && q.addedTail == r.addedTail
    ensures Whole(t, q, list, chunks)
  {
    hide FieldsIndexed, SectionsIndexed;
  }

  /** A record may be replaced by one with the same sections and the same added list. */
  lemma UpdateSound(tpls: Tpls, chunks: map<Ptr, Chunk>, brk: Ptr, added: Lists, owner: map<Ptr, Ptr>, t: Ptr, r: Tpl)
    requires SoundStore(tpls, chunks, brk, added, owner) && t in tpls
    requires r.parent == tpls[t].parent && r.first == tpls[t].first
    requires r.addedHead == tpls[t].addedHead && r.addedTail == tpls[t].addedTail
    requires FieldsIndexed(r) && SectionsIndexed(r)
    ensures SoundStore(tpls[t := r], chunks, brk, added, owner)
  {
    hide Whole, FieldsIndexed, SectionsIndexed, Owned, Rooted;
    RootedSame(tpls, tpls[t := r]);
    WholeUpdate(t, tpls[t], r, added[t], chunks);
    assert forall u | u in tpls[t := r] :: u in tpls;
  }

  lemma WholeSection(t: Ptr, r: Tpl, list: seq<Ptr>, chunks: map<Ptr, Chunk>, key: Bytes, c: Ptr)
    requires Whole(t, r, list, chunks) && GoodName(key) && SectionFor(r, key) == None
    requires forall s | s in r.first :: s.tpl != c
    ensures Whole(t, WithSection(r, key, c), list, chunks)
    ensures WithSection(r, key, c).first == r.first + [SectionCell(key, c, |r.head|)]
    ensures SectionTable(WithSection(r, key, c).sections) == Put(SectionTable(r.sections), key)
  {
    hide FieldsIndexed, SectionsOrdered, GoodName, Put, SectionTable;
    SectionAppended(r, key, c);
  }

  lemma SectionSound(tpls: Tpls, chunks: map<Ptr, Chunk>, brk: Ptr, added: Lists, owner: map<Ptr, Ptr>, t: Ptr,
                     key: Bytes, c: Ptr)
    requires SoundStore(tpls, chunks, brk, added, owner) && t in tpls && GoodName(key)
    requires SectionFor(tpls[t], key) == None
    requires t < c && c in tpls && tpls[c].parent == Some(t) && forall s | s in tpls[t].first :: s.tpl != c
    ensures SoundStore(tpls[t := WithSection(tpls[t], key, c)], chunks, brk, added, owner)
  {
    hide Whole, GoodName, SectionFor, WithSection, SectionTable, Put, Owned, Rooted;
    WholeSection(t, tpls[t], added[t], chunks, key, c);
    assert WithSection(tpls[t], key, c).parent == tpls[t].parent by { SectionParent(tpls[t], key, c); }
    RootedSame(tpls, tpls[t := WithSection(tpls[t], key, c)]);
  }

  lemma SectionParent(r: Tpl, key: Bytes, c: Ptr)
    ensures WithSection(r, key, c).parent == r.parent
  {
  }

  lemma WholeOf(tpls: Tpls, chunks: map<Ptr, Chunk>, brk: Ptr, added: Lists, owner: map<Ptr, Ptr>, t: Ptr)
    requires SoundStore(tpls, chunks, brk, added, owner) && t in tpls
    ensures t < brk && t in added && Whole(t, tpls[t], added[t], chunks)
    ensures FieldsIndexed(tpls[t]) && SectionsIndexed(tpls[t]) && Linked(t, tpls[t], added[t], chunks)
    ensures |tpls[t].fields| == |tpls[t].sections| == BUCKETS
    ensures forall s | s in tpls[t].first :: t < s.tpl < brk && s.tpl in tpls && tpls[s.tpl].parent == Some(t)
  {
    assert Whole(t, tpls[t], added[t], chunks);
  }

  /** A document depends only on the nodes and sections of the templates at or above its address. */
  lemma {:induction false} DocumentFrame(c: Ptr, tpls: Tpls, brk: Ptr, tpls': Tpls, brk': Ptr)
    requires Tree(tpls, brk) && Tree(tpls', brk') && c in tpls
    requires forall u | u in tpls && c <= u ::
      u in tpls' && Items(tpls'[u]) == Items(tpls[u]) && tpls'[u].first == tpls[u].first
    ensures c in tpls' && Document(c, tpls', brk') == Document(c, tpls, brk)
    decreases brk - c
  {
    hide Items;
    var n := |tpls[c].first|;
    forall i | 0 <= i < n
      ensures Document(tpls[c].first[i].tpl, tpls', brk') == Document(tpls[c].first[i].tpl, tpls, brk)
    {
      var s := tpls[c].first[i];
      assert s in tpls[c].first;
      DocumentFrame(s.tpl, tpls, brk, tpls', brk');
    }
    assert Parts(c, n, tpls', brk') == Parts(c, n, tpls, brk);
  }

  function Placings(first: seq<SectionCell>, bodies: seq<seq<Piece>>): (q: seq<Placed<Piece>>)
    requires |bodies| == |first|
    ensures |q| == |first|
    ensures forall i | 0 <= i < |q| :: q[i] == Placed(first[i].preceding, Section(first[i].key, bodies[i]))
  {
    seq(|first|, i requires 0 <= i < |first| => Placed(first[i].preceding, Section(first[i].key, bodies[i])))
  }

  /** The part of a document built so far, given the documents of the sections built so far. */
  ghost predicate Built(t: Ptr, tpls: Tpls, brk: Ptr, bodies: seq<seq<Piece>>, done: seq<Piece>)
    requires Tree(tpls, brk) && t in tpls
  {
    && |bodies| == |tpls[t].first|
    && (forall i | 0 <= i < |bodies| :: Document(tpls[t].first[i].tpl, tpls, brk) == bodies[i])
    && Weave(Items(tpls[t]), Placings(tpls[t].first, bodies)) == done
  }

  lemma BuiltIsDocument(t: Ptr, tpls: Tpls, brk: Ptr, bodies: seq<seq<Piece>>, done: seq<Piece>)
    requires Tree(tpls, brk) && t in tpls && Built(t, tpls, brk, bodies, done)
    ensures Document(t, tpls, brk) == done
  {
    assert Parts(t, |tpls[t].first|, tpls, brk) == Placings(tpls[t].first, bodies);
  }

  lemma BuiltNode(t: Ptr, tpls: Tpls, brk: Ptr, bodies: seq<seq<Piece>>, done: seq<Piece>, r: Tpl, item: Piece)
    requires Tree(tpls, brk) && t in tpls && Built(t, tpls, brk, bodies, done) && SectionsOrdered(tpls[t])
    requires Tree(tpls[t := r], brk) && r.first == tpls[t].first && Items(r) == Items(tpls[t]) + [item]
    ensures Built(t, tpls[t := r], brk, bodies, done + [item])
  {
    hide Items, GoodName, Document, Weave;
    forall i | 0 <= i < |bodies| ensures Document(r.first[i].tpl, tpls[t := r], brk) == bodies[i] {
      assert r.first[i] in tpls[t].first;
      DocumentFrame(r.first[i].tpl, tpls, brk, tpls[t := r], brk);
    }
    var placed := Placings(tpls[t].first, bodies);
    assert forall i | 0 <= i < |placed| ::
      placed[i].pos == tpls[t].first[i].preceding && tpls[t].first[i] in tpls[t].first;
    WeaveNode(Items(tpls[t]), placed, item);
  }

  lemma BuiltSection(t: Ptr, tpls: Tpls, brk: Ptr, bodies: seq<seq<Piece>>, done: seq<Piece>,
                     tpls': Tpls, brk': Ptr, key: Bytes, c: Ptr)
    requires Tree(tpls, brk) && t in tpls && Built(t, tpls, brk, bodies, done)
    requires Tree(tpls', brk') && t in tpls'
    requires tpls'[t].first == tpls[t].first + [SectionCell(key, c, |tpls[t].head|)]
    requires Items(tpls'[t]) == Items(tpls[t])
    requires forall u | u in tpls && u != t :: u in tpls' && tpls'[u] == tpls[u]
    ensures c in tpls' && Built(t, tpls', brk', bodies + [Document(c, tpls', brk')],
                                done + [Section(key, Document(c, tpls', brk'))])
  {
    hide Items, Document, Weave;
    var first, s := tpls[t].first, SectionCell(key, c, |tpls[t].head|);
    assert s in tpls'[t].first;
    var bodies' := bodies + [Document(c, tpls', brk')];
    forall i | 0 <= i < |bodies| ensures Document(tpls'[t].first[i].tpl, tpls', brk') == bodies[i] {
      assert first[i] in first;
      DocumentFrame(first[i].tpl, tpls, brk, tpls', brk');
    }
    assert Placings(first + [s], bodies')
      == Placings(first, bodies) + [Placed(|tpls[t].head|, Section(key, bodies'[|bodies|]))];
    WeavePlaced(Items(tpls[t]), Placings(first, bodies), Placed(|tpls[t].head|, Section(key, bodies'[|bodies|])));
  }

  /** Nothing selected, no field set. */
  ghost predicate Unset(u: Ptr, r: Tpl) {
    r.tpl == u && forall b, i | 0 <= b < |r.fields| && 0 <= i < |r.fields[b]| :: r.fields[b][i].val == []
  }

  datatype Snapshot = Snapshot(tpls: Tpls, added: Lists, brk: Ptr)

  /** Since `base`, only the template at `t` was changed and others were added, and none of these has
      anything set, selected or appended. */
  ghost predicate Grown(base: Snapshot, t: Ptr, tpls: Tpls, added: Lists, brk: Ptr) {
    && t in base.tpls && t in tpls && base.brk <= brk && added.Keys == tpls.Keys
    && tpls[t].parent == base.tpls[t].parent
    && (forall u | u in base.tpls && u != t :: u in tpls && tpls[u] == base.tpls[u])
    && (forall u | u in base.tpls && u != t && u in base.added :: added[u] == base.added[u])
    && (forall u | u in tpls && (u == t || u !in base.tpls) :: base.brk <= u || u == t)
    && (forall u | u in tpls && (u == t || u !in base.tpls) ::
          Unset(u, tpls[u]) && added[u] == [] && OwnSections(base, tpls[u]))
  }

  /** Since `base`, no template that was there changed but the one at `t`. */
  ghost predicate Touched(base: Snapshot, t: Ptr, tpls: Tpls, added: Lists, brk: Ptr) {
    && base.brk <= brk && t in tpls
    && (forall u | u in base.tpls && u != t :: u in tpls && tpls[u] == base.tpls[u])
    && (forall u | u in base.tpls && u != t && u in base.added :: u in added && added[u] == base.added[u])
  }

  lemma TouchedNothing(base: Snapshot, t: Ptr)
    requires t in base.tpls
    ensures Touched(base, t, base.tpls, base.added, base.brk)
  {
  }

  lemma TouchedInit(base: Snapshot, t: Ptr, tpls: Tpls, added: Lists, brk: Ptr)
    requires Touched(base, t, tpls, added, brk)
    ensures Touched(base, t, tpls[t := Initial(t)], added[t := []], brk)
  {
    hide Initial;
  }

  lemma GrownTouched(base: Snapshot, t: Ptr, tpls: Tpls, added: Lists, brk: Ptr)
    requires Grown(base, t, tpls, added, brk)
    ensures Touched(base, t, tpls, added, brk)
  {
    hide Unset, OwnSections;
  }

  /** The last section of the template at `t`, which lookups by its name find, is empty and has lost its parent;
      nothing is selected in that template. */
  ghost predicate Orphaned(t: Ptr, tpls: Tpls) {
    && t in tpls && tpls[t].tpl == t && tpls[t].first != []
    && var s := tpls[t].first[|tpls[t].first| - 1];
       SectionFor(tpls[t], s.key) == Some(s) && s.tpl in tpls && s.tpl != t && tpls[s.tpl] == Initial(s.tpl)
  }

  /** What became of a section whose content could not be read is seen in the template it is a section of. */
  lemma SectionOrphaned(base: Snapshot, t: Ptr, at: Snapshot, key: Bytes, tpls: Tpls, added: Lists, brk: Ptr)
    requires Grown(base, t, at.tpls, at.added, at.brk) && t in at.tpls && |at.tpls[t].sections| == BUCKETS
    requires Tree(at.tpls, at.brk) && SectionFor(at.tpls[t], key) == None
    requires Touched(AfterNewSection(t, key, at), at.brk, tpls, added, brk) && tpls[at.brk] == Initial(at.brk)
    ensures Touched(base, t, tpls, added, brk) && Orphaned(t, tpls)
  {
    hide Grown, Touched, Initial, WithSection, SectionFor;
    GrownTouched(base, t, at.tpls, at.added, at.brk);
    TouchedInside(base, t, at, key, tpls, added, brk);
    WithSectionMeans(at.tpls[t], key, at.brk);
    NewSectionFound(at.tpls[t], key, at.brk);
    GrownUnset(base, t, at.tpls, at.added, at.brk);
  }

  lemma GrownUnset(base: Snapshot, t: Ptr, tpls: Tpls, added: Lists, brk: Ptr)
    requires Grown(base, t, tpls, added, brk)
    ensures t in tpls && tpls[t].tpl == t
  {
  }

  lemma NewSectionFound(r: Tpl, key: Bytes, c: Ptr)
    requires |r.sections| == BUCKETS && SectionFor(r, key) == None
    ensures var q := WithSection(r, key, c);
            SectionFor(q, key) == Some(SectionCell(key, c, |r.head|)) && q.tpl == r.tpl
  {
    hide Bucket, FindKey;
    var b, q := Bucket(key), WithSection(r, key, c);
    var keys, keys' := SectionKeys(r.sections[b]), SectionKeys(q.sections[b]);
    assert forall i | 0 <= i < |keys| :: keys'[i] == keys[i];
    assert keys'[|keys|] == key;
  }

  lemma TouchedInside(base: Snapshot, t: Ptr, at: Snapshot, key: Bytes, tpls: Tpls, added: Lists, brk: Ptr)
    requires Touched(base, t, at.tpls, at.added, at.brk) && t in at.tpls && t < at.brk
    requires forall u | u in at.tpls :: u < at.brk
    requires Touched(AfterNewSection(t, key, at), at.brk, tpls, added, brk)
    ensures Touched(base, t, tpls, added, brk)
    ensures t in tpls && at.brk in tpls && tpls[t] == WithSection(at.tpls[t], key, at.brk)
  {
    hide WithSection, Initial;
  }

  /** None of its sections was there at `base`. */
  ghost predicate OwnSections(base: Snapshot, r: Tpl) {
    forall s | s in r.first :: s.tpl !in base.tpls
  }

  lemma GrownUpdate(base: Snapshot, t: Ptr, tpls: Tpls, added: Lists, brk: Ptr, r: Tpl)
    requires Grown(base, t, tpls, added, brk) && Unset(t, r) && r.parent == tpls[t].parent && r.first == tpls[t].first
    ensures Grown(base, t, tpls[t := r], added, brk)
  {
    hide Unset;
  }

  lemma GrownChild(base: Snapshot, t: Ptr, mid: Snapshot, c: Ptr, tpls: Tpls, added: Lists, brk: Ptr)
    requires Grown(base, t, mid.tpls, mid.added, mid.brk) && c !in base.tpls && base.brk <= c
    requires Grown(mid, c, tpls, added, brk)
    ensures Grown(base, t, tpls, added, brk)
  {
    hide Unset;
  }

  lemma UnsetAfter(u: Ptr, r: Tpl, key: Bytes, text: Bytes, c: Ptr)
    requires Unset(u, r)
    ensures Unset(u, AfterField(r, key)) && Unset(u, WithNode(r, TextNode(text))) && Unset(u, WithSection(r, key, c))
    ensures AfterField(r, key).parent == r.parent && AfterField(r, key).first == r.first
    ensures WithSection(r, key, c).parent == r.parent
    ensures forall s | s in WithSection(r, key, c).first :: s in r.first || s.tpl == c
  {
  }

  lemma GrownSection(base: Snapshot, t: Ptr, tpls: Tpls, added: Lists, brk: Ptr, key: Bytes)
    requires Grown(base, t, tpls, added, brk) && (forall u | u in tpls :: u < brk)
    ensures Grown(base, t, tpls[brk := Initial(brk).(parent := Some(t))][t := WithSection(tpls[t], key, brk)],
                  added[brk := []], brk + 1)
    ensures brk !in tpls && brk !in base.tpls && t != brk
  {
    hide WithSection, Initial, Unset;
    UnsetAfter(t, tpls[t], key, [], brk);
    UnsetInitial(brk, t);
  }

  lemma UnsetInitial(c: Ptr, t: Ptr)
    ensures Unset(c, Initial(c).(parent := Some(t))) && Initial(c).(parent := Some(t)).first == []
  {
  }

  lemma WithSectionMeans(r: Tpl, key: Bytes, c: Ptr)
    requires |r.sections| == BUCKETS
    ensures var q := WithSection(r, key, c);
            && q.first == r.first + [SectionCell(key, c, |r.head|)] && Items(q) == Items(r)
            && q.head == r.head && q.fields == r.fields
  {
  }

  lemma GrownFrame(base: Snapshot, t: Ptr, tpls: Tpls, added: Lists, brk: Ptr)
    requires Grown(base, t, tpls, added, brk)
    ensures t in tpls && base.brk <= brk
    ensures forall u | u in base.tpls && u != t :: u in tpls && tpls[u] == base.tpls[u]
  {
  }

  /** The store just after a section was made in the template at `t`. */
  ghost function AfterNewSection(t: Ptr, key: Bytes, at: Snapshot): Snapshot
    requires t in at.tpls
  {
    Snapshot(at.tpls[at.brk := Initial(at.brk).(parent := Some(t))][t := WithSection(at.tpls[t], key, at.brk)],
             at.added[at.brk := []], at.brk + 1)
  }

  /** A section was made in the template at `t` and its content read into it. */
  lemma SectionLoaded(base: Snapshot, t: Ptr, at: Snapshot, key: Bytes, bodies: seq<seq<Piece>>, done: seq<Piece>,
                      tpls: Tpls, added: Lists, brk: Ptr)
    requires Grown(base, t, at.tpls, at.added, at.brk) && t in at.tpls && |at.tpls[t].sections| == BUCKETS
    requires Tree(at.tpls, at.brk) && Built(t, at.tpls, at.brk, bodies, done)
    requires Grown(AfterNewSection(t, key, at), at.brk, tpls, added, brk) && Tree(tpls, brk)
    ensures Grown(base, t, tpls, added, brk)
    ensures at.brk in tpls && t in tpls && tpls[t] == WithSection(at.tpls[t], key, at.brk)
    ensures Built(t, tpls, brk, bodies + [Document(at.brk, tpls, brk)],
                  done + [Section(key, Document(at.brk, tpls, brk))])
  {
    hide Grown, Built, Items, WithSection, Initial;
    var mid := AfterNewSection(t, key, at);
    GrownSection(base, t, at.tpls, at.added, at.brk, key);
    GrownFrame(base, t, at.tpls, at.added, at.brk);
    GrownFrame(mid, at.brk, tpls, added, brk);
    GrownChild(base, t, mid, at.brk, tpls, added, brk);
    WithSectionMeans(at.tpls[t], key, at.brk);
    BuiltSection(t, at.tpls, at.brk, bodies, done, tpls, brk, key, at.brk);
  }

  lemma SectionTableOf(r: Tpl, key: Bytes, c: Ptr)
    requires |r.sections| == BUCKETS && SectionFor(r, key) == None
    ensures var q := WithSection(r, key, c);
            |q.sections| == BUCKETS && SectionTable(q.sections) == Put(SectionTable(r.sections), key)
              && q.fields == r.fields
  {
    SectionTableAppended(r, key, c);
  }

  lemma BuiltNothing(t: Ptr, tpls: Tpls, brk: Ptr)
    requires Tree(tpls, brk) && t in tpls && tpls[t].first == [] && tpls[t].head == []
    ensures Built(t, tpls, brk, [], [])
  {
    assert Items(tpls[t]) == [] && Placings(tpls[t].first, []) == [];
  }

  lemma GrownNothing(t: Ptr, base: Snapshot)
    requires t in base.tpls && base.added.Keys == base.tpls.Keys && base.added[t] == []
    requires base.tpls[t] == Initial(t).(parent := base.tpls[t].parent)
    ensures Grown(base, t, base.tpls, base.added, base.brk)
  {
  }

  lemma SectionHit(r: Tpl, key: Bytes)
    requires |r.sections| == BUCKETS
    ensures SectionFor(r, key).Some? <==> Lookup(SectionTable(r.sections), key).Some?
  {
  }

  /** `u` is the template at `t` or one of the sections inside it, at any depth. */
  ghost predicate Reach(t: Ptr, u: Ptr, tpls: Tpls, brk: Ptr)
    requires Tree(tpls, brk) && t in tpls
    decreases brk - t
  {
    u == t || exists s :: s in tpls[t].first && Reach(s.tpl, u, tpls, brk)
  }

  lemma {:induction false} ReachIsAbove(t: Ptr, u: Ptr, tpls: Tpls, brk: Ptr)
    requires Tree(tpls, brk) && t in tpls && Reach(t, u, tpls, brk)
    ensures u in tpls && t <= u < brk
    decreases brk - t
  {
    if u != t {
      var s :| s in tpls[t].first && Reach(s.tpl, u, tpls, brk);
      ReachIsAbove(s.tpl, u, tpls, brk);
    }
  }

  lemma {:induction false} ReachFrame(t: Ptr, u: Ptr, tpls: Tpls, brk: Ptr, tpls': Tpls, brk': Ptr)
    requires Tree(tpls, brk) && Tree(tpls', brk') && t in tpls
    requires forall v | v in tpls && t <= v :: v in tpls' && tpls'[v].first == tpls[v].first
    ensures t in tpls' && (Reach(t, u, tpls', brk') <==> Reach(t, u, tpls, brk))
    decreases brk - t
  {
    forall s | s in tpls[t].first ensures Reach(s.tpl, u, tpls', brk') <==> Reach(s.tpl, u, tpls, brk) {
      ReachFrame(s.tpl, u, tpls, brk, tpls', brk');
    }
  }

  lemma {:induction false} ReachTrans(t: Ptr, u: Ptr, v: Ptr, tpls: Tpls, brk: Ptr)
    requires Tree(tpls, brk) && t in tpls && Reach(t, u, tpls, brk) && u in tpls && Reach(u, v, tpls, brk)
    ensures Reach(t, v, tpls, brk)
    decreases brk - t
  {
    if u != t {
      var s :| s in tpls[t].first && Reach(s.tpl, u, tpls, brk);
      ReachTrans(s.tpl, u, v, tpls, brk);
    }
  }
}
