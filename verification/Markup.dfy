/** The template language: documents, their source text, and the parser as a function on text. */
module Markup {
  import opened ByteStrings
  import opened Chains

  const LEFT: Bytes := "$<"
  const RIGHT: Bytes := ">"
  const OPEN: Bytes := "<!-- "
  const HEAD: Bytes := OPEN + LEFT
  const TAIL: Bytes := "> -->"

  datatype Piece =
    | Text(text: Bytes)
    | Field(name: Bytes)
    | Section(name: Bytes, body: seq<Piece>)

  function Tag(name: Bytes): Bytes {
    HEAD + name + TAIL
  }

  function Unparse(ps: seq<Piece>): Bytes
    decreases ps
  {
    if ps == [] then [] else UnparsePiece(ps[0]) + Unparse(ps[1..])
  }

  function UnparsePiece(p: Piece): Bytes
    decreases p
  {
    match p
    case Text(text) => text
    case Field(name) => LEFT + name + RIGHT
    case Section(name, body) => Tag(name) + Unparse(body) + Tag(name)
  }

  lemma {:induction false} UnparseAppend(a: seq<Piece>, b: seq<Piece>)
    ensures Unparse(a + b) == Unparse(a) + Unparse(b)
  {
    if a == [] {
      assert a + b == b;
    } else {
      assert (a + b)[1..] == a[1..] + b;
      UnparseAppend(a[1..], b);
    }
  }

  function TextPiece(text: Bytes): seq<Piece> {
    if text == [] then [] else [Text(text)]
  }

  /** The first thing other than text in a slice: a field, a section with all it encloses up to the
      next identical tag, or a delimiter or tag that is never closed. */
  datatype Mark =
    | NoMark
    | Broken
    | FieldMark(text: Bytes, name: Bytes, rest: Bytes)
    | TagMark(text: Bytes, name: Bytes, inner: Bytes, rest: Bytes)

  /** Whether the delimiters at `i` and `close` are those of a section tag. */
  predicate TagShaped(s: Bytes, i: nat, close: nat) {
    5 <= i <= close && close + 5 <= |s| && s[i - 5..i] == OPEN && s[close..close + 5] == TAIL
  }

  function Scan(s: Bytes): (m: Mark)
    ensures m.FieldMark? || m.TagMark? ==> |m.rest| < |s|
    ensures m.TagMark? ==> |m.inner| < |s|
  {
    match Find(s, LEFT)
    case None => NoMark
    case Some(i) =>
      match Find(s[i + 2..], RIGHT)
      case None => Broken
      case Some(j) => ScanAt(s, i, i + 2 + j)
  }

  function ScanAt(s: Bytes, i: nat, close: nat): (m: Mark)
    requires i + 2 <= close < |s|
    ensures m.FieldMark? || m.TagMark? ==> |m.rest| < |s|
    ensures m.TagMark? ==> |m.inner| < |s|
  {
    var name := s[i + 2..close];
    if TagShaped(s, i, close) then
      var after := s[close + 5..];
      match Find(after, Tag(name))
      case None => Broken
      case Some(e) => TagMark(s[..i - 5], name, after[..e], after[e + |Tag(name)|..])
    else FieldMark(s[..i], name, s[close + 1..])
  }

  /** The document a slice stands for, or None on a syntax error. `seen` holds the names of the
      sections already made at this level: a name that hits one of them is an error. */
  function Parse(s: Bytes, seen: Table): Option<seq<Piece>>
    decreases |s|
  {
    match Scan(s)
    case NoMark => Some(TextPiece(s))
    case Broken => None
    case FieldMark(text, name, rest) => After(text, Some(Field(name)), Parse(rest, seen))
    case TagMark(text, name, inner, rest) =>
      if Lookup(seen, name).Some? then None
      else After(text, Enclose(name, Parse(inner, Empty())), Parse(rest, Put(seen, name)))
  }

  function Enclose(name: Bytes, body: Option<seq<Piece>>): Option<Piece> {
    if body == None then None else Some(Section(name, body.value))
  }

  function After(text: Bytes, mark: Option<Piece>, rest: Option<seq<Piece>>): Option<seq<Piece>> {
    if mark == None || rest == None then None else Some(TextPiece(text) + [mark.value] + rest.value)
  }

  predicate StartsWith(s: Bytes, t: Bytes) { t <= s }
  predicate EndsWith(s: Bytes, t: Bytes) { |t| <= |s| && s[|s| - |t|..] == t }

  predicate FieldHere(text: Bytes, name: Bytes, rest: Bytes) {
    && '>' !in name
    && Find(text, LEFT) == None
    && !(EndsWith(text, OPEN) && StartsWith(rest, " -->"))
  }

  predicate TagHere(text: Bytes, name: Bytes, inner: Bytes) {
    && '>' !in name
    && Find(text + OPEN, LEFT) == None
    && Find(inner + Tag(name), Tag(name)) == Some(|inner|)
  }

  /** The documents that are their own normal form, said piece by piece: text is maximal and holds no
      field delimiter, no field sits where it would read as a section tag, a section's first closing tag
      is its own, and no section name hits an earlier one of its level. */
  predicate Canonical(ps: seq<Piece>, seen: Table)
    decreases ps, 1
  {
    if ps == [] then true
    else if !ps[0].Text? then CanonicalAfter([], ps, seen)
    else
      && ps[0].text != []
      && if |ps| == 1 then Find(ps[0].text, LEFT) == None
         else !ps[1].Text? && CanonicalAfter(ps[0].text, ps[1..], seen)
  }

  predicate CanonicalAfter(text: Bytes, ps: seq<Piece>, seen: Table)
    requires ps != [] && !ps[0].Text?
    decreases ps, 0
  {
    match ps[0]
    case Field(name) =>
      FieldHere(text, name, Unparse(ps[1..])) && Canonical(ps[1..], seen)
    case Section(name, body) =>
      && TagHere(text, name, Unparse(body)) && Lookup(seen, name) == None
      && Canonical(body, Empty()) && Canonical(ps[1..], Put(seen, name))
  }

  lemma FindByte(s: Bytes)
    ensures match Find(s, RIGHT)
            case None => '>' !in s
            case Some(j) => s[j] == '>' && '>' !in s[..j]
  {
    assert forall k: nat | k < |s| && s[k] == '>' :: MatchAt(s, k, RIGHT);
    match Find(s, RIGHT)
    case None =>
    case Some(j) => assert s[j..j + 1][0] == '>';
  }

  lemma NoneInPrefix(s: Bytes, needle: Bytes, n: nat)
    requires n <= |s|
    requires forall k: nat | k + |needle| <= n :: !MatchAt(s, k, needle)
    ensures Find(s[..n], needle) == None
  {
    forall k: nat ensures !MatchAt(s[..n], k, needle) {
      if k + |needle| <= n {
        assert s[..n][k..k + |needle|] == s[k..k + |needle|];
        assert !MatchAt(s, k, needle);
      }
    }
  }

  lemma UnparseMark(text: Bytes, mark: Piece, rest: seq<Piece>)
    ensures Unparse(TextPiece(text) + [mark] + rest) == text + UnparsePiece(mark) + Unparse(rest)
  {
    var ps := [mark] + rest;
    assert ps[1..] == rest;
    assert TextPiece(text) + [mark] + rest == TextPiece(text) + ps;
    UnparseAppend(TextPiece(text), ps);
    UnparseText(text);
    assert Unparse(ps) == UnparsePiece(mark) + Unparse(rest);
  }

  lemma UnparseText(text: Bytes)
    ensures Unparse(TextPiece(text)) == text
  {
    assert text != [] ==> Unparse([Text(text)]) == text + Unparse([]);
  }

  lemma CanonicalMark(text: Bytes, ps: seq<Piece>, seen: Table)
    requires ps != [] && !ps[0].Text? && CanonicalAfter(text, ps, seen)
    ensures Canonical(TextPiece(text) + ps, seen)
  {
    if text == [] {
      assert TextPiece(text) + ps == ps;
    } else {
      var all := [Text(text)] + ps;
      assert TextPiece(text) + ps == all && all[1..] == ps && all[1] == ps[0] && |all| > 1;
      assert Canonical(all, seen) == CanonicalAfter(text, all[1..], seen);
    }
  }

  lemma MatchInPrefix(s: Bytes, needle: Bytes, e: nat)
    requires Find(s, needle) == Some(e)
    ensures Find(s[..e] + needle, needle) == Some(e)
  {
    var t := s[..e] + needle;
    assert t == s[..e + |needle|];
    forall k: nat | k < e ensures !MatchAt(t, k, needle) {
      assert !MatchAt(s, k, needle);
      assert k + |needle| <= |t| ==> t[k..k + |needle|] == s[k..k + |needle|];
    }
    assert t[e..e + |needle|] == needle;
    FindIs(t, needle, e);
  }

  lemma Split(s: Bytes, a: nat, b: nat)
    requires a <= b <= |s|
    ensures s == s[..a] + s[a..b] + s[b..]
  {
  }

  /** The field delimiter a scan stopped at, and what precedes and follows the name. */
  lemma ScanName(s: Bytes, i: nat, close: nat)
    requires Find(s, LEFT) == Some(i) && i + 2 <= close && Find(s[i + 2..], RIGHT) == Some(close - i - 2)
    ensures close < |s| && s[i..close + 1] == LEFT + s[i + 2..close] + RIGHT
    ensures '>' !in s[i + 2..close]
    ensures Find(s[..i], LEFT) == None
  {
    var rest := s[i + 2..];
    FindByte(rest);
    assert rest[..close - i - 2] == s[i + 2..close];
    assert rest[close - i - 2] == s[close];
    assert s[i..close + 1] == s[i..i + 2] + s[i + 2..close] + [s[close]];
    NoneInPrefix(s, LEFT, i);
  }

  lemma ScanField(s: Bytes, i: nat, close: nat)
    requires Find(s, LEFT) == Some(i) && i + 2 <= close && Find(s[i + 2..], RIGHT) == Some(close - i - 2)
    requires close < |s| && !TagShaped(s, i, close)
    ensures s == s[..i] + UnparsePiece(Field(s[i + 2..close])) + s[close + 1..]
    ensures FieldHere(s[..i], s[i + 2..close], s[close + 1..])
  {
    ScanName(s, i, close);
    Split(s, i, close + 1);
    assert 5 <= i ==> s[i - 5..i] == s[..i][i - 5..];
    assert close + 5 <= |s| ==> s[close..close + 5] == s[close..close + 1] + s[close + 1..][..4];
    assert s[close..close + 1] == s[i..close + 1][close - i..];
  }

  lemma ScanTag(s: Bytes, i: nat, close: nat)
    requires Find(s, LEFT) == Some(i) && i + 2 <= close && Find(s[i + 2..], RIGHT) == Some(close - i - 2)
    requires TagShaped(s, i, close)
    ensures s == s[..i - 5] + Tag(s[i + 2..close]) + s[close + 5..]
    ensures '>' !in s[i + 2..close]
    ensures Find(s[..i - 5] + OPEN, LEFT) == None
  {
    ScanName(s, i, close);
    Split(s, i - 5, close + 5);
    assert s[..i] == s[..i - 5] + OPEN;
    assert s[i..i + 2] == LEFT;
    var mid := s[i - 5..close + 5];
    Split(mid, 7, close - i + 5);
    assert mid[..5] == s[i - 5..i] && mid[5..7] == s[i..i + 2];
    assert mid[..7] == mid[..5] + mid[5..7];
    assert mid[7..close - i + 5] == s[i + 2..close] && mid[close - i + 5..] == s[close..close + 5];
  }

  lemma ScanEnclosed(s: Bytes, i: nat, close: nat)
    requires Find(s, LEFT) == Some(i) && i + 2 <= close && Find(s[i + 2..], RIGHT) == Some(close - i - 2)
    requires TagShaped(s, i, close)
    ensures var m := ScanAt(s, i, close);
            m.TagMark? ==>
              s == m.text + Tag(m.name) + (m.inner + Tag(m.name) + m.rest) && TagHere(m.text, m.name, m.inner)
  {
    ScanTag(s, i, close);
    var after, tag := s[close + 5..], Tag(s[i + 2..close]);
    if Find(after, tag).Some? {
      var e := Find(after, tag).value;
      Split(after, e, e + |tag|);
      MatchInPrefix(after, tag, e);
    }
  }

  lemma ScanMeans(s: Bytes)
    ensures match Scan(s)
            case NoMark => Find(s, LEFT) == None
            case Broken => true
            case FieldMark(text, name, rest) =>
              s == text + UnparsePiece(Field(name)) + rest && FieldHere(text, name, rest)
            case TagMark(text, name, inner, rest) =>
              s == text + Tag(name) + (inner + Tag(name) + rest) && TagHere(text, name, inner)
  {
    hide Find, UnparsePiece, Tag, FieldHere, TagHere;
    if Find(s, LEFT).Some? {
      var i := Find(s, LEFT).value;
      if Find(s[i + 2..], RIGHT).Some? {
        var close := i + 2 + Find(s[i + 2..], RIGHT).value;
        FindByte(s[i + 2..]);
        if TagShaped(s, i, close) {
          ScanEnclosed(s, i, close);
        } else {
          ScanField(s, i, close);
        }
      }
    }
  }

  lemma CanonicalCons(text: Bytes, mark: Piece, rest: seq<Piece>, seen: Table)
    requires !mark.Text? && CanonicalAfter(text, [mark] + rest, seen)
    ensures Canonical(TextPiece(text) + [mark] + rest, seen)
  {
    CanonicalMark(text, [mark] + rest, seen);
    assert TextPiece(text) + [mark] + rest == TextPiece(text) + ([mark] + rest);
  }

  lemma UnparseSection(text: Bytes, name: Bytes, body: seq<Piece>, rest: seq<Piece>)
    ensures Unparse(TextPiece(text) + [Section(name, body)] + rest)
         == text + Tag(name) + (Unparse(body) + Tag(name) + Unparse(rest))
  {
    UnparseMark(text, Section(name, body), rest);
    Regroup(text, Tag(name), Unparse(body), Tag(name), Unparse(rest));
  }

  lemma Regroup(a: Bytes, b: Bytes, c: Bytes, d: Bytes, e: Bytes)
    ensures a + (b + c + d) + e == a + b + (c + d + e)
  {
  }

  /** Lossless parsing: a document unparses to exactly the text it was read from, and it is the
      normal form of that text. */
  lemma {:induction false} ParseIsLossless(s: Bytes, seen: Table)
    requires Parse(s, seen).Some?
    ensures Unparse(Parse(s, seen).value) == s
    ensures Canonical(Parse(s, seen).value, seen)
    decreases |s|
  {
    ScanMeans(s);
    match Scan(s)
    case NoMark =>
      UnparseText(s);
    case FieldMark(text, name, rest) =>
      ParseIsLossless(rest, seen);
      var ps := Parse(rest, seen).value;
      UnparseMark(text, Field(name), ps);
      assert ([Field(name)] + ps)[1..] == ps;
      CanonicalCons(text, Field(name), ps, seen);
    case TagMark(text, name, inner, rest) =>
      ParseIsLossless(inner, Empty());
      ParseIsLossless(rest, Put(seen, name));
      var body, ps := Parse(inner, Empty()).value, Parse(rest, Put(seen, name)).value;
      UnparseSection(text, name, body, ps);
      assert ([Section(name, body)] + ps)[1..] == ps;
      CanonicalCons(text, Section(name, body), ps, seen);
  }

  lemma FindLeft(text: Bytes, rest: Bytes)
    requires Find(text, LEFT) == None
    ensures Find(text + LEFT + rest, LEFT) == Some(|text|)
  {
    var s := text + LEFT + rest;
    forall k: nat | k < |text| ensures !MatchAt(s, k, LEFT) {
      assert s[k..k + 2][1] == s[k + 1];
      if k + 2 <= |text| {
        assert !MatchAt(text, k, LEFT);
        assert s[k..k + 2] == text[k..k + 2];
      }
    }
    assert s[|text|..|text| + 2] == LEFT;
    FindIs(s, LEFT, |text|);
  }

  lemma FindRight(name: Bytes, rest: Bytes)
    requires '>' !in name
    ensures Find(name + RIGHT + rest, RIGHT) == Some(|name|)
  {
    var s := name + RIGHT + rest;
    forall k: nat | k < |name| ensures !MatchAt(s, k, RIGHT) {
      assert s[k..k + 1][0] == name[k];
    }
    assert s[|name|..|name| + 1] == RIGHT;
    FindIs(s, RIGHT, |name|);
  }

  lemma FindInLonger(s: Bytes, needle: Bytes, rest: Bytes)
    requires Find(s + needle, needle) == Some(|s|)
    ensures Find(s + needle + rest, needle) == Some(|s|)
  {
    var t := s + needle + rest;
    forall k: nat | k < |s| ensures !MatchAt(t, k, needle) {
      assert !MatchAt(s + needle, k, needle);
      assert t[k..k + |needle|] == (s + needle)[k..k + |needle|];
    }
    assert t[|s|..|s| + |needle|] == needle;
    FindIs(t, needle, |s|);
  }

  /** Reading back the parts of `text + LEFT + name + RIGHT + rest`. */
  lemma Layout(text: Bytes, name: Bytes, rest: Bytes)
    ensures var s, close := text + LEFT + (name + RIGHT + rest), |text| + 2 + |name|;
            && s[..|text|] == text && s[|text| + 2..] == name + RIGHT + rest
            && s[|text| + 2..close] == name && s[close + 1..] == rest && s[close] == '>'
            && forall k | 0 <= k <= |text| :: s[k..|text|] == text[k..]
  {
  }

  lemma ScanPast(s: Bytes, text: Bytes, name: Bytes, rest: Bytes)
    requires Find(text, LEFT) == None && '>' !in name
    requires s == text + LEFT + (name + RIGHT + rest)
    ensures Scan(s) == ScanAt(s, |text|, |text| + 2 + |name|)
  {
    hide Find, ScanAt;
    Layout(text, name, rest);
    FindLeft(text, name + RIGHT + rest);
    FindRight(name, rest);
  }

  lemma FieldNotShaped(s: Bytes, i: nat, close: nat)
    requires i + 2 <= close < |s| && s[close] == '>'
    requires !(EndsWith(s[..i], OPEN) && StartsWith(s[close + 1..], " -->"))
    ensures !TagShaped(s, i, close)
  {
    assert 5 <= i ==> s[i - 5..i] == s[..i][i - 5..];
    assert close + 5 <= |s| ==> s[close..close + 5][1..] == s[close + 1..][..4];
  }

  lemma FieldLayout(text: Bytes, name: Bytes, rest: Bytes)
    ensures text + UnparsePiece(Field(name)) + rest == text + LEFT + (name + RIGHT + rest)
  {
  }

  lemma ScanFindsField(s: Bytes, text: Bytes, name: Bytes, rest: Bytes)
    requires FieldHere(text, name, rest)
    requires s == text + UnparsePiece(Field(name)) + rest
    ensures Scan(s) == FieldMark(text, name, rest)
  {
    hide Scan;
    FieldLayout(text, name, rest);
    ScanPast(s, text, name, rest);
    Layout(text, name, rest);
    FieldNotShaped(s, |text|, |text| + 2 + |name|);
  }

  lemma TagLayout(text: Bytes, name: Bytes, after: Bytes)
    ensures text + Tag(name) + after == (text + OPEN) + LEFT + (name + RIGHT + (" -->" + after))
  {
  }

  lemma ScanFindsTag(s: Bytes, text: Bytes, name: Bytes, inner: Bytes, rest: Bytes)
    requires TagHere(text, name, inner)
    requires s == text + Tag(name) + (inner + Tag(name) + rest)
    ensures Scan(s) == TagMark(text, name, inner, rest)
  {
    hide Scan, ScanAt;
    var after := inner + Tag(name) + rest;
    TagLayout(text, name, after);
    ScanPast(s, text + OPEN, name, " -->" + after);
    ScanAtTag(s, text, name, inner, rest);
  }

  lemma ScanAtTag(s: Bytes, text: Bytes, name: Bytes, inner: Bytes, rest: Bytes)
    requires TagHere(text, name, inner)
    requires s == text + Tag(name) + (inner + Tag(name) + rest)
    ensures ScanAt(s, |text| + 5, |text| + 7 + |name|) == TagMark(text, name, inner, rest)
  {
    var after := inner + Tag(name) + rest;
    TagEnds(s, text, name, after);
    FindInLonger(inner, Tag(name), rest);
    assert after[..|inner|] == inner && after[|inner| + |Tag(name)|..] == rest;
  }

  lemma TagEnds(s: Bytes, text: Bytes, name: Bytes, after: Bytes)
    requires s == text + Tag(name) + after
    ensures TagShaped(s, |text| + 5, |text| + 7 + |name|)
    ensures s[..|text|] == text && s[|text| + 7..|text| + 7 + |name|] == name && s[|text| + 7 + |name| + 5..] == after
  {
    assert s[|text|..|text| + 5] == OPEN;
    assert s[|text| + 7 + |name|..|text| + 7 + |name| + 5] == TAIL;
  }

  /** Every document in normal form is read back from its own text, so a text has at most one. */
  lemma {:induction false} ParseIsComplete(ps: seq<Piece>, seen: Table)
    requires Canonical(ps, seen)
    ensures Parse(Unparse(ps), seen) == Some(ps)
    decreases ps, 1
  {
    if ps == [] {
    } else if !ps[0].Text? {
      ParseAfterIsComplete([], ps, seen);
      assert [] + Unparse(ps) == Unparse(ps) && TextPiece([]) + ps == ps;
    } else {
      var text := ps[0].text;
      UnparseAppend([ps[0]], ps[1..]);
      assert ps == [ps[0]] + ps[1..];
      UnparseText(text);
      if |ps| == 1 {
        assert ps == TextPiece(text);
      } else {
        ParseAfterIsComplete(text, ps[1..], seen);
      }
    }
  }

  lemma {:induction false} ParseAfterIsComplete(text: Bytes, ps: seq<Piece>, seen: Table)
    requires ps != [] && !ps[0].Text? && CanonicalAfter(text, ps, seen)
    ensures Parse(text + Unparse(ps), seen) == Some(TextPiece(text) + ps)
    decreases ps, 0
  {
    var rest := ps[1..];
    assert ps == [ps[0]] + rest;
    UnparseMark(text, ps[0], rest);
    assert TextPiece(text) + [ps[0]] + rest == TextPiece(text) + ps;
    UnparseAppend(TextPiece(text), ps);
    UnparseText(text);
    match ps[0]
    case Field(name) =>
      ParseIsComplete(rest, seen);
      ScanFindsField(text + Unparse(ps), text, name, Unparse(rest));
    case Section(name, body) =>
      ParseIsComplete(body, Empty());
      ParseIsComplete(rest, Put(seen, name));
      Regroup(text, Tag(name), Unparse(body), Tag(name), Unparse(rest));
      ScanFindsTag(text + Unparse(ps), text, name, Unparse(body), Unparse(rest));
  }

  /** The parser accepts exactly the texts of normal-form documents, and returns that document. */
  lemma ParseCharacterized(s: Bytes, ps: seq<Piece>)
    ensures Parse(s, Empty()) == Some(ps) <==> Unparse(ps) == s && Canonical(ps, Empty())
  {
    if Parse(s, Empty()) == Some(ps) {
      ParseIsLossless(s, Empty());
    }
    if Canonical(ps, Empty()) {
      ParseIsComplete(ps, Empty());
    }
  }
}
