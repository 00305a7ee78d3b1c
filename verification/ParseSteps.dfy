/** How the parser's loop, which works with positions in a buffer, follows the parser on text. */
module ParseSteps {
  import opened ByteStrings
  import opened Chains
  import opened Markup
  import opened Shadowing

  /** Between two marks: what was read is `done`, as the template holds it; `rest` is still to be read. */
  ghost predicate Progress(total: Option<seq<Piece>>, done: seq<Piece>, rest: Bytes, seen: Table, fields: Table) {
    && (total.Some? <==> Parse(rest, seen).Some?)
    && (total.Some? ==> Attach(total.value, Empty()) == done + Attach(Parse(rest, seen).value, fields))
  }

  lemma AttachCons(p: Piece, rest: seq<Piece>, t: Table)
    ensures Attach([p] + rest, t) == [AttachPiece(p, t)] + Attach(rest, PutPiece(t, p))
  {
    assert ([p] + rest)[1..] == rest;
  }

  lemma AttachMark(text: Bytes, mark: Piece, rest: seq<Piece>, t: Table)
    ensures Attach(TextPiece(text) + [mark] + rest, t)
         == TextPiece(text) + [AttachPiece(mark, t)] + Attach(rest, PutPiece(t, mark))
  {
    AttachCons(mark, rest, t);
    AttachCons(Text(text), [mark] + rest, t);
    hide Attach;
    assert TextPiece(text) + [mark] + rest == TextPiece(text) + ([mark] + rest);
    assert text == [] ==> TextPiece(text) + ([mark] + rest) == [mark] + rest;
  }

  lemma FieldStep(total: Option<seq<Piece>>, done: seq<Piece>, rest: Bytes, seen: Table, fields: Table)
    requires Progress(total, done, rest, seen, fields) && Scan(rest).FieldMark?
    ensures var FieldMark(text, name, after) := Scan(rest);
            Progress(total, done + TextPiece(text) + [Field(Resolve(fields, name))], after, seen, Put(fields, name))
  {
    var FieldMark(text, name, after) := Scan(rest);
    if Parse(after, seen).Some? {
      var ps := Parse(after, seen).value;
      hide Scan, Put, Resolve, Attach;
      AttachMark(text, Field(name), ps, fields);
      assert Parse(rest, seen).value == TextPiece(text) + [Field(name)] + ps;
      Associate(done, TextPiece(text), [Field(Resolve(fields, name))], Attach(ps, Put(fields, name)));
    }
  }

  lemma Associate(a: seq<Piece>, b: seq<Piece>, c: seq<Piece>, d: seq<Piece>)
    ensures a + (b + c + d) == a + b + c + d
  {
  }

  lemma TagStep(total: Option<seq<Piece>>, done: seq<Piece>, rest: Bytes, seen: Table, fields: Table)
    requires Progress(total, done, rest, seen, fields) && Scan(rest).TagMark?
    ensures var TagMark(text, name, inner, after) := Scan(rest);
            if Lookup(seen, name).Some? || Parse(inner, Empty()) == None then total == None
            else Progress(total,
              done + TextPiece(text) + [Section(name, Attach(Parse(inner, Empty()).value, Empty()))],
              after, Put(seen, name), fields)
  {
    var TagMark(text, name, inner, after) := Scan(rest);
    if Lookup(seen, name) == None && Parse(inner, Empty()).Some? && Parse(after, Put(seen, name)).Some? {
      var body, ps := Parse(inner, Empty()).value, Parse(after, Put(seen, name)).value;
      hide Scan, Put, Attach, Lookup;
      AttachMark(text, Section(name, body), ps, fields);
      assert Parse(rest, seen).value == TextPiece(text) + [Section(name, body)] + ps;
      Associate(done, TextPiece(text), [Section(name, Attach(body, Empty()))], Attach(ps, fields));
    }
  }

  lemma EndStep(total: Option<seq<Piece>>, done: seq<Piece>, rest: Bytes, seen: Table, fields: Table)
    requires Progress(total, done, rest, seen, fields) && Scan(rest).NoMark?
    ensures total.Some? && Attach(total.value, Empty()) == done + TextPiece(rest)
  {
    assert rest != [] ==> Attach([Text(rest)], fields) == [Text(rest)] + Attach([Text(rest)][1..], fields);
  }

  /** The byte before the unread text cannot belong to a section tag's head, so testing the head from
      one byte before the beginning is the same as testing it within the unread text. */
  lemma HeadStaysInRest(buf: Bytes, begin: nat, last: nat, end: nat, name: nat, close: nat)
    requires 1 <= begin <= last && last + 2 <= name <= close < end <= |buf|
    requires if last == begin then buf[begin - 1] != '<' else buf[last - 1] == '>'
    requires buf[name - 2..name] == LEFT && buf[close] == '>'
    ensures (&& name + 1 >= begin + 7 && end - close >= 5
             && buf[name - 7..name] == HEAD && buf[close..close + 5] == TAIL)
       <==> TagShaped(buf[last..end], name - 2 - last, close - last)
  {
    var rest, i, c := buf[last..end], name - 2 - last, close - last;
    if 5 <= i {
      assert rest[i - 5..i] == buf[name - 7..name - 2];
      assert buf[name - 7..name] == buf[name - 7..name - 2] + buf[name - 2..name];
      assert buf[name - 7..name][..5] == buf[name - 7..name - 2] && HEAD[..5] == OPEN;
    } else if name + 1 >= begin + 7 {
      var k := last - 1 - (name - 7);
      HeadBytes(k);
      SliceAt(buf, name - 7, name, last - 1);
    }
    if close + 5 <= end {
      Sub(buf, last, close, close + 5, end);
    }
  }

  lemma SliceAt(buf: Bytes, a: nat, b: nat, i: nat)
    requires a <= i < b <= |buf|
    ensures buf[a..b][i - a] == buf[i] && buf[a..b][0] == buf[a]
  {
  }

  /** A section head begins with `<` and has no `>` among its first bytes. */
  lemma HeadBytes(k: nat)
    requires k < 5
    ensures HEAD[k] != '>' && HEAD[0] == '<'
  {
    assert HEAD == "<!-- $<";
  }

  /** Every name the parser comes to in a slice is neither empty nor holds a NUL. */
  predicate CleanText(s: Bytes)
    decreases |s|
  {
    match NameSpan(s)
    case None => true
    case Some((from, to)) =>
      && GoodName(s[from..to])
      && match Scan(s) {
           case NoMark => true
           case Broken => true
           case FieldMark(_, _, rest) => CleanText(rest)
           case TagMark(_, _, inner, rest) => CleanText(inner) && CleanText(rest)
         }
  }

  /** Where the first name of a slice is, if its delimiter is closed. */
  function NameSpan(s: Bytes): (r: Option<(nat, nat)>)
    ensures r.Some? ==> 2 <= r.value.0 <= r.value.1 < |s|
  {
    match Find(s, LEFT)
    case None => None
    case Some(i) =>
      match Find(s[i + 2..], RIGHT)
      case None => None
      case Some(j) => Some((i + 2, i + 2 + j))
  }

  /** All names of a document, at every depth, are names a C string can hold. */
  predicate NamesGood(ps: seq<Piece>)
    decreases ps, 1
  {
    ps == [] || (PieceGood(ps[0]) && NamesGood(ps[1..]))
  }

  predicate PieceGood(p: Piece)
    decreases p, 0
  {
    match p
    case Text(_) => true
    case Field(name) => GoodName(name)
    case Section(name, body) => GoodName(name) && NamesGood(body)
  }

  lemma NamesGoodMark(text: Bytes, mark: Piece, rest: seq<Piece>)
    ensures NamesGood(TextPiece(text) + [mark] + rest) <==> PieceGood(mark) && NamesGood(rest)
  {
    var tail := [mark] + rest;
    assert tail[1..] == rest;
    assert TextPiece(text) + [mark] + rest == TextPiece(text) + tail;
    if text == [] {
      assert TextPiece(text) + tail == tail;
    } else {
      assert (TextPiece(text) + tail)[1..] == tail;
    }
  }

  lemma SpanIsName(s: Bytes)
    ensures Scan(s) == NoMark ==> NameSpan(s) == None
    ensures Scan(s).FieldMark? || Scan(s).TagMark? ==>
      NameSpan(s).Some? && s[NameSpan(s).value.0..NameSpan(s).value.1] == Scan(s).name
  {
    hide Find, TagShaped;
  }

  /** A text that can be parsed is clean exactly if all names of its document are good. */
  lemma {:induction false} CleanIff(s: Bytes, seen: Table)
    requires Parse(s, seen).Some?
    ensures CleanText(s) <==> NamesGood(Parse(s, seen).value)
    decreases |s|
  {
    hide GoodName, NamesGood, Scan, NameSpan, Put, Lookup;
    SpanIsName(s);
    match Scan(s)
    case NoMark =>
      assert NamesGood(TextPiece(s)) by { NamesGoodText(s); }
    case FieldMark(text, name, rest) =>
      CleanIff(rest, seen);
      NamesGoodMark(text, Field(name), Parse(rest, seen).value);
    case TagMark(text, name, inner, rest) =>
      CleanIff(inner, Empty());
      CleanIff(rest, Put(seen, name));
      NamesGoodMark(text, Section(name, Parse(inner, Empty()).value), Parse(rest, Put(seen, name)).value);
  }

  lemma NamesGoodText(text: Bytes)
    ensures NamesGood(TextPiece(text))
  {
    if text != [] {
      assert [Text(text)][1..] == [];
      assert PieceGood(Text(text)) && NamesGood([Text(text)][1..]);
    }
  }

  /** What follows a section's opening tag: where the next such tag is, and the document in between. */
  function TagBody(after: Bytes, name: Bytes): Option<(nat, seq<Piece>)> {
    match Find(after, Tag(name))
    case None => None
    case Some(e) =>
      match Parse(after[..e], Empty())
      case None => None
      case Some(body) => Some((e, body))
  }

  /** A parse fails inside a section: a new section has been made for a tag whose body is then missing or
      does not parse. All other failures come before a section is made, or from a delimiter never closed. */
  predicate FailsInside(s: Bytes, seen: Table)
    decreases |s|
  {
    match Scan(s)
    case NoMark => false
    case Broken =>
      (match NameSpan(s)
       case None => false
       case Some((from, upTo)) => Lookup(seen, s[from..upTo]) == None)
    case FieldMark(_, _, rest) => FailsInside(rest, seen)
    case TagMark(_, name, inner, rest) =>
      Lookup(seen, name) == None && (Parse(inner, Empty()) == None || FailsInside(rest, Put(seen, name)))
  }

  lemma OpenTagScan(text: Bytes, name: Bytes)
    requires Find(text + OPEN, LEFT) == None && '>' !in name
    ensures var s := text + Tag(name);
            Scan(s) == Broken && NameSpan(s) == Some((|text| + 7, |text| + 7 + |name|))
            && s[|text| + 7..|text| + 7 + |name|] == name
  {
    hide TagShaped, Tag, Find;
    var s, at := text + Tag(name), text + OPEN;
    assert s == text + Tag(name) + [];
    TagLayout(text, name, []);
    Layout(at, name, " -->" + []);
    FindLeft(at, name + RIGHT + (" -->" + []));
    FindRight(name, " -->" + []);
    TagEnds(s, text, name, []);
    TagEndsClosed(name);
    assert !MatchAt([], 0, Tag(name));
  }

  /** A text on which it does: one that ends in an opening tag. */
  lemma OpenTagFails(text: Bytes, name: Bytes)
    requires Find(text + OPEN, LEFT) == None && '>' !in name
    ensures Parse(text + Tag(name), Empty()) == None && FailsInside(text + Tag(name), Empty())
  {
    hide Scan, NameSpan, Tag, Find;
    OpenTagScan(text, name);
    assert Lookup(Empty(), name) == None;
  }

  /** One such text */
  lemma OpenTagExample()
    ensures Parse("<!-- $<a> -->", Empty()) == None && FailsInside("<!-- $<a> -->", Empty())
  {
    assert "" + Tag("a") == "<!-- $<a> -->";
    forall k: nat ensures !MatchAt("" + OPEN, k, LEFT) {
      assert k + 2 <= 5 ==> ("" + OPEN)[k..k + 2][0] == ("" + OPEN)[k];
    }
    OpenTagFails("", "a");
  }

  lemma FieldFails(s: Bytes, seen: Table)
    requires Scan(s).FieldMark?
    ensures FailsInside(s, seen) == FailsInside(Scan(s).rest, seen)
  {
  }

  lemma NoCloseFails(buf: Bytes, last: nat, end: nat, name: nat, seen: Table)
    requires last <= end <= |buf| && last + 2 <= name <= end
    requires Find(buf[last..end], LEFT) == Some(name - 2 - last) && Find(buf[name..end], RIGHT) == None
    ensures !FailsInside(buf[last..end], seen)
  {
    hide Find;
    assert buf[last..end][name - last..] == buf[name..end];
  }

  lemma TagFails(s: Bytes, seen: Table, text: Bytes, name: Bytes, after: Bytes)
    requires Scan(s) == Enclosed(text, name, after) && NameSpan(s).Some?
    requires s[NameSpan(s).value.0..NameSpan(s).value.1] == name
    ensures Lookup(seen, name).Some? ==> !FailsInside(s, seen)
    ensures Lookup(seen, name) == None && TagBody(after, name) == None ==> FailsInside(s, seen)
    ensures Lookup(seen, name) == None && TagBody(after, name).Some? ==>
      var e := TagBody(after, name).value.0;
      e + |Tag(name)| <= |after| && FailsInside(s, seen) == FailsInside(after[e + |Tag(name)|..], Put(seen, name))
  {
    hide Find, Lookup, Put, Parse, Tag;
    if Find(after, Tag(name)).Some? {
      FindBounds(after, Tag(name));
    }
  }

  /** All that is known of a mark in the buffer that is a section tag. */
  lemma TagFacts(buf: Bytes, last: nat, end: nat, name: nat, close: nat, total: Option<seq<Piece>>, done: seq<Piece>,
                 seen: Table, fields: Table)
    requires last + 2 <= name <= close < end <= |buf|
    requires Find(buf[last..end], LEFT) == Some(name - 2 - last) && Find(buf[name..end], RIGHT) == Some(close - name)
    requires TagShaped(buf[last..end], name - 2 - last, close - last)
    requires CleanText(buf[last..end]) && Progress(total, done, buf[last..end], seen, fields)
    ensures last + 7 <= name && close + 5 <= end && GoodName(buf[name..close])
    ensures buf[name - 7..close + 5] == Tag(buf[name..close]) && CleanTagged(buf[close + 5..end], buf[name..close])
    ensures var key, after, rest := buf[name..close], buf[close + 5..end], buf[last..end];
            if Lookup(seen, key).Some? then total == None && !FailsInside(rest, seen)
            else if TagBody(after, key) == None then total == None && FailsInside(rest, seen)
            else
              var (e, body) := TagBody(after, key).value;
              var text := done + TextPiece(buf[last..name - 7]);
              && e + |Tag(key)| <= |after| && after[e..e + |Tag(key)|] == Tag(key)
              && Progress(total, text + [Section(key, Attach(body, Empty()))], after[e + |Tag(key)|..], Put(seen, key),
                fields)
              && CleanText(after[e + |Tag(key)|..])
              && FailsInside(rest, seen) == FailsInside(after[e + |Tag(key)|..], Put(seen, key))
  {
    hide Find, TagShaped, CleanText, Progress, Tag, Parse, Lookup, Put, Attach, Scan, ScanAt, FailsInside, TagBody,
      GoodName, NameSpan;
    ScanInBuffer(buf, last, end, name, close);
    MarkBytes(buf, last, end, name, close);
    TagInBuffer(buf, last, end, name, close);
    var key, after, rest := buf[name..close], buf[close + 5..end], buf[last..end];
    CleanName(buf, last, end, name, close);
    CleanInner(buf[last..name - 7], key, after);
    TagProgress(total, done, rest, seen, fields, buf[last..name - 7], key, after);
    Sub(buf, last, name, close, end);
    TagFails(rest, seen, buf[last..name - 7], key, after);
  }

  predicate CleanTagged(after: Bytes, name: Bytes) {
    Find(after, Tag(name)).Some? ==> CleanText(after[..Find(after, Tag(name)).value])
  }

  lemma TagEndsClosed(name: Bytes)
    ensures |Tag(name)| == 12 + |name| && Tag(name)[|Tag(name)| - 1] == '>'
  {
  }

  lemma Sub(buf: Bytes, a: nat, x: nat, y: nat, b: nat)
    requires a <= x <= y <= b <= |buf|
    ensures buf[a..b][x - a..y - a] == buf[x..y]
  {
    forall k | 0 <= k < y - x ensures buf[a..b][x - a..y - a][k] == buf[x..y][k] {
      assert buf[a..b][x - a + k] == buf[a + (x - a + k)];
    }
  }

  /** The positions found in the buffer are those a scan of the unread text finds. */
  lemma ScanInBuffer(buf: Bytes, last: nat, end: nat, name: nat, close: nat)
    requires last <= end <= |buf| && last + 2 <= name <= close < end
    requires Find(buf[last..end], LEFT) == Some(name - 2 - last)
    requires Find(buf[name..end], RIGHT) == Some(close - name)
    ensures Scan(buf[last..end]) == ScanAt(buf[last..end], name - 2 - last, close - last)
    ensures NameSpan(buf[last..end]) == Some((name - last, close - last))
  {
    hide Find, ScanAt;
    assert buf[last..end][name - last..] == buf[name..end];
  }

  lemma MarkBytes(buf: Bytes, last: nat, end: nat, name: nat, close: nat)
    requires last <= end <= |buf| && last + 2 <= name <= close < end
    requires Find(buf[last..end], LEFT) == Some(name - 2 - last)
    requires Find(buf[name..end], RIGHT) == Some(close - name)
    ensures buf[name - 2..name] == LEFT && buf[close] == '>'
  {
    hide Find;
    Sub(buf, last, name - 2, name, end);
    Sub(buf, name, close, close + 1, end);
    assert MatchAt(buf[last..end], name - 2 - last, LEFT) && MatchAt(buf[name..end], close - name, RIGHT);
    assert buf[close..close + 1] == RIGHT;
    assert buf[close] == buf[close..close + 1][0];
  }

  lemma CleanName(buf: Bytes, last: nat, end: nat, name: nat, close: nat)
    requires last <= end <= |buf| && last + 2 <= name <= close < end
    requires NameSpan(buf[last..end]) == Some((name - last, close - last)) && CleanText(buf[last..end])
    ensures GoodName(buf[name..close])
    ensures var m := Scan(buf[last..end]);
            && (m.FieldMark? || m.TagMark? ==> CleanText(m.rest)) && (m.TagMark? ==> CleanText(m.inner))
  {
    hide NameSpan, Scan;
    Sub(buf, last, name, close, end);
  }

  lemma FieldInBuffer(buf: Bytes, last: nat, end: nat, name: nat, close: nat)
    requires last <= end <= |buf| && last + 2 <= name <= close < end
    requires !TagShaped(buf[last..end], name - 2 - last, close - last)
    ensures ScanAt(buf[last..end], name - 2 - last, close - last)
         == FieldMark(buf[last..name - 2], buf[name..close], buf[close + 1..end])
  {
    var rest := buf[last..end];
    assert rest[..name - 2 - last] == buf[last..name - 2];
    Sub(buf, last, name, close, end);
    assert rest[close - last + 1..] == buf[close + 1..end];
  }

  function Enclosed(text: Bytes, name: Bytes, after: Bytes): Mark {
    match Find(after, Tag(name))
    case None => Broken
    case Some(e) => TagMark(text, name, after[..e], after[e + |Tag(name)|..])
  }

  lemma TagInBuffer(buf: Bytes, last: nat, end: nat, name: nat, close: nat)
    requires last <= end <= |buf| && last + 2 <= name <= close < end
    requires buf[name - 2..name] == LEFT
    requires TagShaped(buf[last..end], name - 2 - last, close - last)
    ensures last + 7 <= name && close + 5 <= end && buf[name - 7..close + 5] == Tag(buf[name..close])
    ensures ScanAt(buf[last..end], name - 2 - last, close - last)
         == Enclosed(buf[last..name - 7], buf[name..close], buf[close + 5..end])
  {
    hide Find, Tag;
    var rest := buf[last..end];
    Sub(buf, last, last, name - 7, end);
    Sub(buf, last, name, close, end);
    Sub(buf, last, close + 5, end, end);
    assert rest[..name - 7 - last] == rest[last - last..name - 7 - last];
    assert rest[close - last + 5..] == rest[close + 5 - last..end - last];
    TagBytes(buf, last, end, name, close);
  }

  lemma TagBytes(buf: Bytes, last: nat, end: nat, name: nat, close: nat)
    requires last <= end <= |buf| && last + 2 <= name <= close < end
    requires buf[name - 2..name] == LEFT
    requires TagShaped(buf[last..end], name - 2 - last, close - last)
    ensures last + 7 <= name && close + 5 <= end && buf[name - 7..close + 5] == Tag(buf[name..close])
  {
    Sub(buf, last, name - 7, name - 2, end);
    Sub(buf, last, close, close + 5, end);
    assert buf[name - 7..close + 5]
      == buf[name - 7..name - 2] + buf[name - 2..name] + buf[name..close] + buf[close..close + 5];
  }

  lemma ProgressStart(s: Bytes)
    ensures Progress(Parse(s, Empty()), [], s, Empty(), Empty())
  {
  }

  lemma FindFits(buf: Bytes, last: nat, end: nat)
    requires last <= end <= |buf| && Find(buf[last..end], LEFT).Some?
    ensures last + Find(buf[last..end], LEFT).value + 2 <= end
  {
  }

  lemma BrokenScan(buf: Bytes, last: nat, end: nat, name: nat)
    requires last <= end <= |buf| && last + 2 <= name <= end
    requires Find(buf[last..end], LEFT) == Some(name - 2 - last) && Find(buf[name..end], RIGHT) == None
    ensures Scan(buf[last..end]) == Broken
  {
    hide Find;
    assert buf[last..end][name - last..] == buf[name..end];
  }

  lemma ProgressBroken(total: Option<seq<Piece>>, done: seq<Piece>, rest: Bytes, seen: Table, fields: Table)
    requires Progress(total, done, rest, seen, fields) && Scan(rest).Broken?
    ensures total == None
  {
  }

  lemma NoMarkScan(rest: Bytes)
    requires Find(rest, LEFT) == None
    ensures Scan(rest) == NoMark
  {
  }

  lemma CleanInner(text: Bytes, name: Bytes, after: Bytes)
    requires var m := Enclosed(text, name, after);
             m.TagMark? ==> CleanText(m.inner) && CleanText(m.rest)
    ensures CleanTagged(after, name)
  {
  }

  /** What the text from a section tag on says about the whole. */
  lemma TagProgress(total: Option<seq<Piece>>, done: seq<Piece>, rest: Bytes, seen: Table, fields: Table,
                    text: Bytes, name: Bytes, after: Bytes)
    requires Progress(total, done, rest, seen, fields) && Scan(rest) == Enclosed(text, name, after)
    requires CleanText(rest) && NameSpan(rest).Some?
    ensures if Lookup(seen, name).Some? || TagBody(after, name) == None then total == None
            else
              var (e, body) := TagBody(after, name).value;
              && e + |Tag(name)| <= |after| && after[e..e + |Tag(name)|] == Tag(name)
              && Progress(total, done + TextPiece(text) + [Section(name, Attach(body, Empty()))],
                          after[e + |Tag(name)|..], Put(seen, name), fields)
              && CleanText(after[e + |Tag(name)|..])
  {
    hide Lookup, Put, Attach, Parse, Tag, Find;
    if Find(after, Tag(name)).Some? {
      TagStep(total, done, rest, seen, fields);
      FindBounds(after, Tag(name));
    } else {
      ProgressBroken(total, done, rest, seen, fields);
    }
  }

  lemma FindBounds(s: Bytes, needle: Bytes)
    requires Find(s, needle).Some?
    ensures Find(s, needle).value + |needle| <= |s|
    ensures s[Find(s, needle).value..Find(s, needle).value + |needle|] == needle
  {
  }

  /** A section's content starts behind its tag, which ends with `>`. */
  lemma BodyInBuffer(buf: Bytes, name: nat, close: nat, ending: nat, end: nat)
    requires 7 <= name <= close && close + 5 <= ending <= end <= |buf|
    requires buf[name - 7..close + 5] == Tag(buf[name..close])
    ensures buf[close + 4] != '<' && |Tag(buf[name..close])| == close + 12 - name
  {
    TagEndsClosed(buf[name..close]);
    assert buf[close + 4] == buf[name - 7..close + 5][close + 11 - name];
  }

  /** Whether the next equal tag was found, and what the text up to there is, decide about the body. */
  lemma BodyFound(buf: Bytes, name: nat, close: nat, end: nat)
    requires 7 <= name <= close && close + 5 <= end <= |buf| && CleanTagged(buf[close + 5..end], buf[name..close])
    ensures var after, tag := buf[close + 5..end], Tag(buf[name..close]);
            if Find(after, tag) == None then TagBody(after, buf[name..close]) == None
            else
              var e := Find(after, tag).value;
              && close + 5 + e <= end && CleanText(buf[close + 5..close + 5 + e])
              && TagBody(after, buf[name..close]) ==
                 (match Parse(buf[close + 5..close + 5 + e], Empty())
                  case None => None
                  case Some(body) => Some((e, body)))
  {
    hide Tag, CleanText, Parse;
    var after, tag := buf[close + 5..end], Tag(buf[name..close]);
    if Find(after, tag).Some? {
      FindBounds(after, tag);
      assert after[..Find(after, tag).value] == buf[close + 5..close + 5 + Find(after, tag).value];
    }
  }

  lemma RestAfterTag(buf: Bytes, close: nat, end: nat, name: Bytes, e: nat)
    requires close + 5 <= end <= |buf| && e + |Tag(name)| <= end - close - 5
    requires buf[close + 5..end][e..e + |Tag(name)|] == Tag(name)
    ensures var next := close + 5 + e + |Tag(name)|;
            buf[close + 5..end][e + |Tag(name)|..] == buf[next..end] && buf[next - 1] == '>'
  {
    TagEndsClosed(name);
    var n := |Tag(name)|;
    assert buf[close + 5..end][e..e + n][n - 1] == buf[close + 5 + e + n - 1];
  }
}
