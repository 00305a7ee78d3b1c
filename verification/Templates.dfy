/** tpllib's operations on a store of templates. */
module Templates {
  import opened ByteStrings
  import opened Chains
  import opened Markup
  import opened TemplateObjects
  import opened Shadowing
  import opened ParseSteps

  class Store {
    var tpls: Tpls
    var chunks: map<Ptr, Chunk>
    var brk: Ptr                     // every address in use is below

    ghost var added: Lists           // the list of added content of each template, as addresses
    ghost var owner: map<Ptr, Ptr>   // the template whose list a node is in

    ghost predicate Valid()
      reads this
    {
      SoundStore(tpls, chunks, brk, added, owner)
    }

    constructor ()
      ensures Valid() && tpls == map[]
    {
      tpls, chunks, brk, added, owner := map[], map[], 0, map[], map[];
    }

    /** `tpl_alloc`, and the template part of `create_tcell` */
    method Alloc(parent: Option<Ptr>) returns (t: Ptr)
      requires Valid() && (parent.Some? ==> parent.value in tpls)
      modifies this`tpls, this`brk, this`added
      ensures Valid() && Childless(t, tpls) && t == old(brk) && brk == old(brk) + 1
      ensures tpls == old(tpls)[t := Initial(t).(parent := parent)] && added == old(added)[t := []]
    {
      hide SoundStore, Childless;
      AllocSound(tpls, chunks, brk, added, owner, parent);
      t := brk;
      tpls := tpls[t := Initial(t).(parent := parent)];
      brk := brk + 1;
      added := added[t := []];
    }

    method AppendText(t: Ptr, text: Bytes)
      requires Valid() && t in tpls
      modifies this`tpls
      ensures Valid()
      ensures tpls == old(tpls)[t := WithNode(old(tpls)[t], TextNode(text))]
    {
      hide SoundStore, Whole, FieldsIndexed, SectionsIndexed, Linked, Items;
      WholeOf(tpls, chunks, brk, added, owner, t);
      TextAppended(tpls[t], text);
      UpdateSound(tpls, chunks, brk, added, owner, t, WithNode(tpls[t], TextNode(text)));
      tpls := tpls[t := WithNode(tpls[t], TextNode(text))];
    }

    /** `tpl_produce_field`; the result is the cell's bucket and place in the chain. */
    method ProduceField(t: Ptr, key: Bytes, mayCreate: bool) returns (cell: Option<(nat, nat)>)
      requires t in tpls && |tpls[t].fields| == BUCKETS
      modifies this`tpls
      ensures var b := Bucket(key);
              var chain := old(tpls)[t].fields[b];
              match FindKey(CellKeys(chain), key)
              case Some(i) => cell == Some((b, i)) && tpls == old(tpls)
              case None =>
                if mayCreate then
                  && cell == Some((b, |chain|))
                  && tpls == old(tpls)[t := old(tpls)[t].(fields := old(tpls)[t].fields[b := chain + [Cell(key, [])]])]
                else cell == None && tpls == old(tpls)
    {
      var b := Bucket(key);
      var chain := tpls[t].fields[b];
      var i := 0;
      while i < |chain|
        invariant 0 <= i <= |chain|
        invariant forall k | 0 <= k < i :: !(key <= chain[k].key)
      {
        if key <= chain[i].key {
          return Some((b, i));
        }
        i := i + 1;
      }
      if mayCreate {
        tpls := tpls[t := tpls[t].(fields := tpls[t].fields[b := chain + [Cell(key, [])]])];
        return Some((b, |chain|));
      }
      return None;
    }

    method AppendField(t: Ptr, key: Bytes)
      requires Valid() && t in tpls && GoodName(key)
      modifies this`tpls
      ensures Valid()
      ensures tpls == old(tpls)[t := AfterField(old(tpls)[t], key)]
    {
      hide SoundStore, Whole, FieldsIndexed, SectionsIndexed, Linked, Items, KeyTable, Put, Resolve, GoodName;
      WholeOf(tpls, chunks, brk, added, owner, t);
      FieldAppended(tpls[t], key);
      UpdateSound(tpls, chunks, brk, added, owner, t, AfterField(tpls[t], key));
      var cell := ProduceField(t, key, true);
      tpls := tpls[t := tpls[t].(head := tpls[t].head + [FieldNode(cell.value.0, cell.value.1)])];
      assert tpls == old(tpls)[t := AfterField(old(tpls)[t], key)];
    }

    /** `tpl_produce_section` with `must_create` clear */
    method GetSection(t: Ptr, key: Bytes) returns (section: Option<SectionCell>)
      requires t in tpls && |tpls[t].sections| == BUCKETS
      ensures section == SectionFor(tpls[t], key)
    {
      var chain := tpls[t].sections[Bucket(key)];
      var i := 0;
      while i < |chain|
        invariant 0 <= i <= |chain|
        invariant forall k | 0 <= k < i :: !(key <= chain[k].key)
      {
        if key <= chain[i].key {
          return Some(chain[i]);
        }
        i := i + 1;
      }
      return None;
    }

    /** `tpl_produce_section` with `must_create` set, and chaining the new section behind the nodes so far */
    method NewSection(t: Ptr, key: Bytes) returns (child: Option<Ptr>)
      requires Valid() && t in tpls && GoodName(key)
      modifies this`tpls, this`brk, this`added
      ensures Valid()
      ensures child == None <==> SectionFor(old(tpls)[t], key).Some?
      ensures child == None ==> tpls == old(tpls) && brk == old(brk) && added == old(added)
      ensures child.Some? ==>
        && child.value == old(brk) && brk == old(brk) + 1 && added == old(added)[child.value := []]
        && tpls == old(tpls)[child.value := Initial(child.value).(parent := Some(t))]
                            [t := WithSection(old(tpls)[t], key, child.value)]
    {
      hide SoundStore, Whole, FieldsIndexed, SectionsIndexed, Linked, SectionFor, WithSection, GoodName;
      WholeOf(tpls, chunks, brk, added, owner, t);
      var hit := GetSection(t, key);
      if hit.Some? {
        return None;
      }
      var c := Alloc(Some(t));
      SectionSound(tpls, chunks, brk, added, owner, t, key, c);
      tpls := tpls[t := WithSection(tpls[t], key, c)];
      return Some(c);
    }

    ghost predicate Loading(base: Snapshot, t: Ptr)
      reads this
    {
      Valid() && Grown(base, t, tpls, added, brk)
    }

    lemma LoadingMeans(base: Snapshot, t: Ptr)
      requires Loading(base, t)
      ensures t in tpls && t in added && t < brk && Tree(tpls, brk) && Unset(t, tpls[t])
      ensures FieldsIndexed(tpls[t]) && SectionsIndexed(tpls[t]) && SectionsOrdered(tpls[t])
      ensures |tpls[t].fields| == |tpls[t].sections| == BUCKETS
    {
      WholeOf(tpls, chunks, brk, added, owner, t);
    }

    /** A run of text before a mark, if there is any */
    method LoadText(t: Ptr, text: Bytes, ghost base: Snapshot, ghost bodies: seq<seq<Piece>>, ghost done: seq<Piece>)
      requires Loading(base, t) && Built(t, tpls, brk, bodies, done)
      modifies this`tpls
      ensures Loading(base, t) && Built(t, tpls, brk, bodies, done + TextPiece(text))
      ensures tpls[t].fields == old(tpls)[t].fields && tpls[t].sections == old(tpls)[t].sections
    {
      hide SoundStore, Whole, FieldsIndexed, SectionsIndexed, Linked, Items, Unset, Grown, Built;
      if text != [] {
        LoadingMeans(base, t);
        TextAppended(tpls[t], text);
        UnsetAfter(t, tpls[t], [], text, 0);
        GrownUpdate(base, t, tpls, added, brk, WithNode(tpls[t], TextNode(text)));
        ghost var was := tpls;
        AppendText(t, text);
        LoadingMeans(base, t);
        BuiltNode(t, was, brk, bodies, done, tpls[t], Text(text));
      } else {
        assert done + TextPiece(text) == done;
      }
    }

    method LoadField(t: Ptr, name: Bytes, ghost base: Snapshot, ghost bodies: seq<seq<Piece>>, ghost done: seq<Piece>)
      requires Loading(base, t) && Built(t, tpls, brk, bodies, done) && GoodName(name)
      modifies this`tpls
      ensures Loading(base, t)
      ensures Built(t, tpls, brk, bodies, done + [Field(Resolve(KeyTable(old(tpls)[t].fields), name))])
      ensures KeyTable(tpls[t].fields) == Put(KeyTable(old(tpls)[t].fields), name)
      ensures tpls[t].sections == old(tpls)[t].sections
    {
      hide SoundStore, Whole, FieldsIndexed, SectionsIndexed, Linked, Items, Unset, Grown, Built;
      LoadingMeans(base, t);
      FieldAppended(tpls[t], name);
      UnsetAfter(t, tpls[t], name, [], 0);
      GrownUpdate(base, t, tpls, added, brk, AfterField(tpls[t], name));
      ghost var was := tpls;
      AppendField(t, name);
      LoadingMeans(base, t);
      BuiltNode(t, was, brk, bodies, done, tpls[t], Field(Resolve(KeyTable(was[t].fields), name)));
    }

    /** The loop of `tpl_construct` between two marks: everything before `last` is in the template, as
        `done`, and `total` is what the whole slice stands for. */
    ghost predicate Between(t: Ptr, buf: Bytes, begin: nat, last: nat, end: nat,
                            base: Snapshot, bodies: seq<seq<Piece>>, done: seq<Piece>, total: Option<seq<Piece>>)
      reads this
    {
      && 1 <= begin <= last <= end <= |buf|
      && (if last == begin then buf[begin - 1] != '<' else buf[last - 1] == '>')
      && Loading(base, t) && t in tpls && Tree(tpls, brk) && Built(t, tpls, brk, bodies, done)
      && |tpls[t].fields| == |tpls[t].sections| == BUCKETS
      && Progress(total, done, buf[last..end], SectionTable(tpls[t].sections), KeyTable(tpls[t].fields))
      && CleanText(buf[last..end])
      && FailsInside(buf[begin..end], Empty()) == FailsInside(buf[last..end], SectionTable(tpls[t].sections))
    }

    /** What a failed parse leaves: nothing but the template at `t` is touched, which is a sound part of a
        template, or has a last section without content and parent if the failure was inside that one. */
    ghost predicate Failed(base: Snapshot, t: Ptr, inside: bool)
      reads this
    {
      Touched(base, t, tpls, added, brk) && if inside then Orphaned(t, tpls) else Loading(base, t)
    }

    lemma LoadingFailed(base: Snapshot, t: Ptr)
      requires Loading(base, t)
      ensures Failed(base, t, false)
    {
      GrownTouched(base, t, tpls, added, brk);
    }

    /** `tpl_construct`: read the template in `buf[begin..end]` into the empty template at `t`. */
    method Construct(t: Ptr, buf: Bytes, begin: nat, end: nat) returns (ok: bool)
      requires Valid() && t in tpls && tpls[t] == Initial(t).(parent := tpls[t].parent) && added[t] == []
      requires 1 <= begin <= end <= |buf| && buf[begin - 1] != '<' && CleanText(buf[begin..end])
      modifies this`tpls, this`brk, this`added
      ensures ok <==> Parse(buf[begin..end], Empty()).Some?
      ensures ok ==> Loading(old(Snapshot(tpls, added, brk)), t)
      ensures !ok ==> Failed(old(Snapshot(tpls, added, brk)), t, FailsInside(buf[begin..end], Empty()))
      ensures ok ==>
        && Tree(tpls, brk) && t in tpls
        && Document(t, tpls, brk) == Attach(Parse(buf[begin..end], Empty()).value, Empty())
      decreases end - begin, 2
    {
      hide SoundStore, Whole, FieldsIndexed, SectionsIndexed, Linked, Items, Unset, Grown, Built, Progress, TagShaped,
        Initial, Parse, Attach, Find, GoodName, CleanText, Put, SectionTable, KeyTable, Scan, FailsInside, Touched,
        Orphaned;
      ghost var base := Snapshot(tpls, added, brk);
      ghost var total := Parse(buf[begin..end], Empty());
      ghost var bodies, done := [], [];
      StartLoading(base, t, buf[begin..end]);
      var last := begin;
      var at := StrStr(buf, last, end, LEFT);
      while at.Some?
        invariant Between(t, buf, begin, last, end, base, bodies, done, total)
        invariant at == match Find(buf[last..end], LEFT) case None => None case Some(i) => Some(last + i)
        decreases end - last
      {
        var name := at.value + 2;
        FindFits(buf, last, end);
        var close := StrStr(buf, name, end, RIGHT);
        if close == None {
          BrokenScan(buf, last, end, name);
          ProgressBroken(total, done, buf[last..end], SectionTable(tpls[t].sections), KeyTable(tpls[t].fields));
          NoCloseFails(buf, last, end, name, SectionTable(tpls[t].sections));
          LoadingFailed(base, t);
          return false;
        }
        MarkBytes(buf, last, end, name, close.value);
        HeadStaysInRest(buf, begin, last, end, name, close.value);
        var next;
        if && name + 1 >= begin + 7 && end - close.value >= 5
           && buf[name - 7..name] == HEAD && buf[close.value..close.value + 5] == TAIL {
          next, bodies, done := LoadTag(t, buf, begin, last, end, name, close.value, base, bodies, done, total);
          if next == None {
            return false;
          }
        } else {
          next, done := LoadPlainField(t, buf, begin, last, end, name, close.value, base, bodies, done, total);
        }
        last := next.value;
        at := StrStr(buf, last, end, LEFT);
      }
      NoMarkScan(buf[last..end]);
      EndStep(total, done, buf[last..end], SectionTable(tpls[t].sections), KeyTable(tpls[t].fields));
      LoadText(t, buf[last..end], base, bodies, done);
      LoadingMeans(base, t);
      BuiltIsDocument(t, tpls, brk, bodies, done + TextPiece(buf[last..end]));
      ok := true;
    }

    lemma StartLoading(base: Snapshot, t: Ptr, s: Bytes)
      requires Valid() && base == Snapshot(tpls, added, brk)
      requires t in tpls && tpls[t] == Initial(t).(parent := tpls[t].parent) && added[t] == []
      ensures Loading(base, t) && Tree(tpls, brk) && Built(t, tpls, brk, [], [])
      ensures |tpls[t].fields| == |tpls[t].sections| == BUCKETS
      ensures SectionTable(tpls[t].sections) == Empty()
      ensures Progress(Parse(s, Empty()), [], s, SectionTable(tpls[t].sections), KeyTable(tpls[t].fields))
    {
      hide Parse, Whole, Built, Progress, Grown;
      assert SectionTable(tpls[t].sections) == Empty() && KeyTable(tpls[t].fields) == Empty();
      ProgressStart(s);
      BuiltNothing(t, tpls, brk);
      GrownNothing(t, base);
    }

    /** A mark that is a field */
    method LoadPlainField(t: Ptr, buf: Bytes, begin: nat, last: nat, end: nat, name: nat, close: nat,
                          ghost base: Snapshot, ghost bodies: seq<seq<Piece>>, ghost done: seq<Piece>,
                          ghost total: Option<seq<Piece>>)
        returns (next: Option<nat>, ghost done': seq<Piece>)
      requires Between(t, buf, begin, last, end, base, bodies, done, total)
      requires last + 2 <= name <= close < end
      requires Find(buf[last..end], LEFT) == Some(name - 2 - last) && Find(buf[name..end], RIGHT) == Some(close - name)
      requires !TagShaped(buf[last..end], name - 2 - last, close - last)
      modifies this`tpls
      ensures next == Some(close + 1)
      ensures Between(t, buf, begin, close + 1, end, base, bodies, done', total)
    {
      hide SoundStore, Whole, FieldsIndexed, SectionsIndexed, Linked, Items, Unset, Grown, Built, Progress, TagShaped,
        Initial, Parse, Attach, Find, GoodName, CleanText, Put, SectionTable, KeyTable, Scan, ScanAt, Resolve,
        FailsInside;
      ScanInBuffer(buf, last, end, name, close);
      MarkBytes(buf, last, end, name, close);
      FieldInBuffer(buf, last, end, name, close);
      CleanName(buf, last, end, name, close);
      FieldStep(total, done, buf[last..end], SectionTable(tpls[t].sections), KeyTable(tpls[t].fields));
      FieldFails(buf[last..end], SectionTable(tpls[t].sections));
      LoadText(t, buf[last..name - 2], base, bodies, done);
      ghost var text := done + TextPiece(buf[last..name - 2]);
      LoadingMeans(base, t);
      done' := text + [Field(Resolve(KeyTable(tpls[t].fields), buf[name..close]))];
      LoadField(t, buf[name..close], base, bodies, text);
      LoadingMeans(base, t);
      next := Some(close + 1);
    }

    /** A mark that is a section tag */
    method LoadTag(t: Ptr, buf: Bytes, begin: nat, last: nat, end: nat, name: nat, close: nat,
                   ghost base: Snapshot, ghost bodies: seq<seq<Piece>>, ghost done: seq<Piece>,
                   ghost total: Option<seq<Piece>>)
        returns (next: Option<nat>, ghost bodies': seq<seq<Piece>>, ghost done': seq<Piece>)
      requires Between(t, buf, begin, last, end, base, bodies, done, total)
      requires last + 2 <= name <= close < end
      requires Find(buf[last..end], LEFT) == Some(name - 2 - last) && Find(buf[name..end], RIGHT) == Some(close - name)
      requires TagShaped(buf[last..end], name - 2 - last, close - last)
      modifies this`tpls, this`brk, this`added
      ensures next == None ==> total == None && Failed(base, t, FailsInside(buf[begin..end], Empty()))
      ensures next.Some? ==> last < next.value && Between(t, buf, begin, next.value, end, base, bodies', done', total)
      decreases end - name, 2
    {
      hide SoundStore, Whole, FieldsIndexed, SectionsIndexed, Linked, Items, Unset, Grown, Built, Progress, TagShaped,
        Initial, Parse, Attach, Find, GoodName, CleanText, CleanTagged, Put, SectionTable, KeyTable, Scan, ScanAt, Tag,
        TagBody, WithSection, SectionFor, FailsInside, Failed, Touched, Orphaned, Lookup;
      next, bodies', done' := None, bodies, done;
      TagFacts(buf, last, end, name, close, total, done, SectionTable(tpls[t].sections), KeyTable(tpls[t].fields));
      ghost var key, after := buf[name..close], buf[close + 5..end];
      LoadText(t, buf[last..name - 7], base, bodies, done);
      LoadingMeans(base, t);
      SectionHit(tpls[t], key);
      ghost var text := done + TextPiece(buf[last..name - 7]);
      ghost var was := tpls[t];
      ghost var c := brk;
      next, bodies' := LoadSection(t, buf, name, close, end, base, bodies, text);
      if next == None {
        return;
      }
      ghost var e, body := TagBody(after, key).value.0, TagBody(after, key).value.1;
      done' := text + [Section(key, Attach(body, Empty()))];
      SectionTableOf(was, key, c);
      RestAfterTag(buf, close, end, key, e);
    }

    /** The section part of the loop of `tpl_construct`: the tag's name is `buf[name..close]`. */
    method LoadSection(t: Ptr, buf: Bytes, name: nat, close: nat, end: nat,
                       ghost base: Snapshot, ghost bodies: seq<seq<Piece>>, ghost done: seq<Piece>)
        returns (next: Option<nat>, ghost bodies': seq<seq<Piece>>)
      requires Loading(base, t) && Built(t, tpls, brk, bodies, done)
      requires 7 <= name <= close && close + 5 <= end <= |buf|
      requires CleanTagged(buf[close + 5..end], buf[name..close])
      requires buf[name - 7..close + 5] == Tag(buf[name..close]) && GoodName(buf[name..close])
      modifies this`tpls, this`brk, this`added
      ensures var key := buf[name..close];
              var inner := TagBody(buf[close + 5..end], key);
              if SectionFor(old(tpls)[t], key).Some? then next == None && Failed(base, t, false)
              else if inner == None then next == None && Failed(base, t, true)
              else
                var body := Attach(inner.value.1, Empty());
                && next == Some(close + 5 + inner.value.0 + |Tag(key)|)
                && Loading(base, t) && Tree(tpls, brk) && t in tpls
                && Built(t, tpls, brk, bodies', done + [Section(key, body)])
                && tpls[t] == WithSection(old(tpls)[t], key, old(brk))
      decreases end - name, 1
    {
      hide SoundStore, Whole, FieldsIndexed, SectionsIndexed, Linked, Items, Unset, Grown, Built, WithSection,
        SectionFor, Initial, Parse, Attach, Find, GoodName, CleanTagged, CleanText, Put, SectionTable, TagBody, Tag,
        Touched, Orphaned;
      bodies' := bodies;
      LoadingMeans(base, t);
      var made := NewSection(t, buf[name..close]);
      if made == None {
        LoadingFailed(base, t);
        return None, bodies;
      }
      next := LoadBody(made.value, buf, name, close, end);
      if next == None {
        SectionOrphaned(base, t, old(Snapshot(tpls, added, brk)), buf[name..close], tpls, added, brk);
        return;
      }
      SectionLoaded(base, t, old(Snapshot(tpls, added, brk)), buf[name..close], bodies, done, tpls, added, brk);
      bodies' := bodies + [Document(made.value, tpls, brk)];
    }

    /** The content of a new section, up to the next occurrence of its tag. */
    method LoadBody(c: Ptr, buf: Bytes, name: nat, close: nat, end: nat) returns (next: Option<nat>)
      requires Valid() && c in tpls && tpls[c] == Initial(c).(parent := tpls[c].parent) && added[c] == []
      requires 7 <= name <= close && close + 5 <= end <= |buf|
      requires CleanTagged(buf[close + 5..end], buf[name..close])
      requires buf[name - 7..close + 5] == Tag(buf[name..close])
      modifies this`tpls, this`brk, this`added
      ensures match TagBody(buf[close + 5..end], buf[name..close])
              case None =>
                && next == None && c in tpls && tpls[c] == Initial(c)
                && Touched(old(Snapshot(tpls, added, brk)), c, tpls, added, brk)
              case Some((e, body)) =>
                && next == Some(close + 5 + e + |Tag(buf[name..close])|)
                && Loading(old(Snapshot(tpls, added, brk)), c) && Tree(tpls, brk) && c in tpls
                && Document(c, tpls, brk) == Attach(body, Empty())
      decreases end - name, 0
    {
      hide SoundStore, Grown, Initial, Parse, Attach, Find, GoodName, CleanText, Tag, FailsInside, Touched, Orphaned,
        Loading, CleanTagged, TagBody;
      ghost var base := Snapshot(tpls, added, brk);
      var beginning := close + 5;
      var ending := StrStr(buf, beginning, end, buf[name - 7..beginning]);
      TouchedNothing(base, c);
      BodyFound(buf, name, close, end);
      if ending == None {
        TouchedInit(base, c, tpls, added, brk);
        Init(c);
        return None;
      }
      BodyInBuffer(buf, name, close, ending.value, end);
      var ok := Construct(c, buf, beginning, ending.value);
      if !ok {
        TouchedInit(base, c, tpls, added, brk);
        Init(c);
        return None;
      }
      next := Some(ending.value + (beginning - name + 7));
    }

    /** `tpl_release` and `tpl_init`; what the template held is no longer reachable from it. */
    method Init(t: Ptr)
      modifies this`tpls, this`added
      ensures tpls == old(tpls)[t := Initial(t)] && added == old(added)[t := []]
    {
      tpls := tpls[t := Initial(t)];
      added := added[t := []];
    }
  }
}
