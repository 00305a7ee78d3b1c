/** A field in a template refers to a cell found by prefix matching, so the template may hold a longer
    name than the text did. This module says what that does to the parser's promise. */
module Shadowing {
  import opened ByteStrings
  import opened Chains
  import opened Markup

  /** A document as the template holds it: every field carries the key of its cell. `t` is the field
      table of the level so far. */
  function Attach(ps: seq<Piece>, t: Table): seq<Piece>
    decreases ps, 1
  {
    if ps == [] then [] else [AttachPiece(ps[0], t)] + Attach(ps[1..], PutPiece(t, ps[0]))
  }

  function AttachPiece(p: Piece, t: Table): Piece
    decreases p, 0
  {
    match p
    case Text(_) => p
    case Field(name) => Field(Resolve(t, name))
    case Section(name, body) => Section(name, Attach(body, Empty()))
  }

  function PutPiece(t: Table, p: Piece): Table {
    if p.Field? then Put(t, p.name) else t
  }

  function FieldNames(ps: seq<Piece>): seq<Bytes> {
    if ps == [] then []
    else (if ps[0].Field? then [ps[0].name] else []) + FieldNames(ps[1..])
  }

  /** No field, at any level, comes after a longer name of its bucket that extends it without having
      appeared before that one itself. `before` holds the level's earlier field names. */
  ghost predicate NoneShadowed(ps: seq<Piece>, before: seq<Bytes>)
    decreases ps, 1
  {
    NamesUnshadowed(before + FieldNames(ps), |before|) && forall i | 0 <= i < |ps| :: BodyUnshadowed(ps[i])
  }

  ghost predicate NamesUnshadowed(names: seq<Bytes>, from: nat) {
    forall j | from <= j < |names| :: !ShadowedAt(names, j)
  }

  ghost predicate BodyUnshadowed(p: Piece)
    decreases p, 0
  {
    p.Section? ==> NoneShadowed(p.body, [])
  }

  lemma {:induction false} AttachGrows(ps: seq<Piece>, t: Table)
    ensures |Attach(ps, t)| == |ps|
    ensures |Unparse(Attach(ps, t))| >= |Unparse(ps)|
    ensures |Unparse(Attach(ps, t))| == |Unparse(ps)| ==> Attach(ps, t) == ps
    decreases ps, 1
  {
    if ps != [] {
      AttachPieceGrows(ps[0], t);
      AttachGrows(ps[1..], PutPiece(t, ps[0]));
      assert Attach(ps, t)[1..] == Attach(ps[1..], PutPiece(t, ps[0]));
      assert ps == [ps[0]] + ps[1..];
    }
  }

  lemma {:induction false} AttachPieceGrows(p: Piece, t: Table)
    ensures |UnparsePiece(AttachPiece(p, t))| >= |UnparsePiece(p)|
    ensures |UnparsePiece(AttachPiece(p, t))| == |UnparsePiece(p)| ==> AttachPiece(p, t) == p
    decreases p, 0
  {
    if p.Section? {
      AttachGrows(p.body, Empty());
    }
  }

  function Extend(before: seq<Bytes>, p: Piece): seq<Bytes> {
    if p.Field? then before + [p.name] else before
  }

  lemma NamesStep(names: seq<Bytes>, from: nat)
    ensures from < |names| ==>
      (NamesUnshadowed(names, from) <==> !ShadowedAt(names, from) && NamesUnshadowed(names, from + 1))
  {
    hide ShadowedAt;
  }

  lemma BodiesStep(ps: seq<Piece>)
    requires ps != []
    ensures (forall i | 0 <= i < |ps| :: BodyUnshadowed(ps[i])) <==>
      BodyUnshadowed(ps[0]) && forall i | 0 <= i < |ps[1..]| :: BodyUnshadowed(ps[1..][i])
  {
    hide BodyUnshadowed;
    assert ps == [ps[0]] + ps[1..];
  }

  lemma ExtendNames(ps: seq<Piece>, before: seq<Bytes>)
    requires ps != []
    ensures before + FieldNames(ps) == Extend(before, ps[0]) + FieldNames(ps[1..])
    ensures |Extend(before, ps[0])| == |before| + if ps[0].Field? then 1 else 0
    ensures ps[0].Field? ==> |before| < |before + FieldNames(ps)|
  {
  }

  lemma NoneShadowedStep(ps: seq<Piece>, before: seq<Bytes>)
    requires ps != []
    ensures NoneShadowed(ps, before) <==>
      && (ps[0].Field? ==> !ShadowedAt(before + FieldNames(ps), |before|))
      && BodyUnshadowed(ps[0]) && NoneShadowed(ps[1..], Extend(before, ps[0]))
  {
    hide ShadowedAt, NamesUnshadowed, BodyUnshadowed, FieldNames, Extend;
    var names := before + FieldNames(ps);
    ExtendNames(ps, before);
    NamesStep(names, |before|);
    BodiesStep(ps);
  }

  lemma AttachStep(ps: seq<Piece>, t: Table)
    requires ps != []
    ensures Attach(ps, t) == ps <==>
      AttachPiece(ps[0], t) == ps[0] && Attach(ps[1..], PutPiece(t, ps[0])) == ps[1..]
  {
    assert ps == [ps[0]] + ps[1..];
    assert Attach(ps, t)[1..] == Attach(ps[1..], PutPiece(t, ps[0]));
  }

  lemma {:induction false} UnchangedIffNoneShadowed(ps: seq<Piece>, before: seq<Bytes>)
    ensures Attach(ps, TableOf(before)) == ps <==> NoneShadowed(ps, before)
    decreases ps, 2
  {
    if ps == [] {
      assert before + FieldNames(ps) == before;
    } else {
      UnchangedCons(ps, before);
    }
  }

  lemma {:induction false} UnchangedCons(ps: seq<Piece>, before: seq<Bytes>)
    requires ps != []
    ensures Attach(ps, TableOf(before)) == ps <==> NoneShadowed(ps, before)
    decreases ps, 1
  {
    hide NoneShadowed, Attach, AttachPiece, PutPiece, ShadowedAt, BodyUnshadowed, TableOf, Extend, FieldNames;
    NoneShadowedStep(ps, before);
    AttachStep(ps, TableOf(before));
    PieceUnchanged(ps[0], before, FieldNames(ps[1..]));
    UnchangedIffNoneShadowed(ps[1..], Extend(before, ps[0]));
    NamesCons(ps, before);
  }

  lemma NamesCons(ps: seq<Piece>, before: seq<Bytes>)
    requires ps != []
    ensures ps[0].Field? ==> before + [ps[0].name] + FieldNames(ps[1..]) == before + FieldNames(ps)
  {
  }

  lemma {:induction false} PieceUnchanged(p: Piece, before: seq<Bytes>, after: seq<Bytes>)
    ensures TableOf(Extend(before, p)) == PutPiece(TableOf(before), p)
    ensures AttachPiece(p, TableOf(before)) == p <==>
      (p.Field? ==> !ShadowedAt(before + [p.name] + after, |before|)) && BodyUnshadowed(p)
    decreases p, 0
  {
    match p
    case Text(_) =>
    case Field(name) =>
      var names := before + [name] + after;
      assert (before + [name])[..|before|] == before == names[..|before|];
      ExactIffNotShadowed(names, |before|);
    case Section(_, body) =>
      UnchangedIffNoneShadowed(body, []);
  }

  /** The template unparses to the text it was read from exactly when no field is shadowed. */
  lemma LosslessIffNoneShadowed(s: Bytes, ps: seq<Piece>)
    requires Parse(s, Empty()) == Some(ps)
    ensures Unparse(Attach(ps, Empty())) == s <==> NoneShadowed(ps, [])
  {
    ParseIsLossless(s, Empty());
    AttachGrows(ps, Empty());
    UnchangedIffNoneShadowed(ps, []);
  }

  /** What a template holds is stable: stored once more, it is the same, at every level. */
  lemma {:induction false} AttachAgain(ps: seq<Piece>, t: Table)
    requires Sound(t)
    ensures Attach(Attach(ps, t), t) == Attach(ps, t)
    decreases ps, 1
  {
    hide Put, Resolve, Sound;
    if ps != [] {
      var first, rest := AttachPiece(ps[0], t), Attach(ps[1..], PutPiece(t, ps[0]));
      assert Attach(ps, t) == [first] + rest && ([first] + rest)[1..] == rest;
      AttachPieceAgain(ps[0], t);
      AttachAgain(ps[1..], PutPiece(t, ps[0]));
    }
  }

  lemma {:induction false} AttachPieceAgain(p: Piece, t: Table)
    requires Sound(t)
    ensures AttachPiece(AttachPiece(p, t), t) == AttachPiece(p, t)
    ensures PutPiece(t, AttachPiece(p, t)) == PutPiece(t, p) && Sound(PutPiece(t, p))
    decreases p, 0
  {
    hide Put, Resolve, Sound;
    match p
    case Text(_) =>
    case Field(name) =>
      PutResolved(t, name);
      PutKeepsSound(t, name);
    case Section(_, body) =>
      assert Sound(Empty()) by { TableOfIsSound([]); }
      AttachAgain(body, Empty());
  }

  /** So nothing in it is shadowed any more: names are lost at most once. */
  lemma StoredIsUnshadowed(ps: seq<Piece>)
    ensures NoneShadowed(Attach(ps, Empty()), [])
  {
    hide NoneShadowed, Attach;
    assert Sound(Empty()) by { TableOfIsSound([]); }
    AttachAgain(ps, Empty());
    UnchangedIffNoneShadowed(Attach(ps, Empty()), []);
  }

  lemma SameBucket()
    ensures Bucket("aC") == Bucket("a") == 10
  {
    assert "aC"[1..] == "C" && "a"[1..] == "" && "C"[1..] == "";
    MixOne();
    hide Mix;
    assert Fold(3171, "") == 3171;
  }

  lemma MixOne()
    ensures Mix(97, 'C') == 3171
  {
    assert 97 * 32 + Word('C') == 3171;
    assert 3171 % WORD == 3171 && 3171 / TOP == 0;
  }

  lemma TwoFields(a: Bytes, b: Bytes)
    ensures Unparse([Field(a), Field(b)]) == "$<" + a + ">$<" + b + ">"
    ensures '>' !in a && '>' !in b ==> Canonical([Field(a), Field(b)], Empty())
  {
    var ps, last := [Field(a), Field(b)], [Field(b)];
    assert ps[1..] == last && last[1..] == [];
    assert Unparse(last) == "$<" + b + ">" + [];
    assert Unparse(ps) == "$<" + a + ">" + Unparse(last);
    assert '>' !in b ==> CanonicalAfter([], last, Empty());
    assert '>' !in a && '>' !in b ==> CanonicalAfter([], ps, Empty());
  }

  lemma AttachTwoFields(a: Bytes, b: Bytes)
    requires Resolve(Put(Empty(), a), b) == a
    ensures Attach([Field(a), Field(b)], Empty()) == [Field(a), Field(a)]
  {
    var ps, t := [Field(a), Field(b)], Empty();
    assert ps[1..] == [Field(b)] && [Field(b)][1..] == [];
    assert Attach([Field(b)], Put(t, a)) == [Field(a)];
    assert Resolve(t, a) == a;
  }

  /** A text the promise fails on: the names `aC` and `a` share a bucket, so the second field is
      attached to the cell of the first. */
  lemma ShadowedExample()
    ensures Parse("$<aC>$<a>", Empty()) == Some([Field("aC"), Field("a")])
    ensures Unparse(Attach([Field("aC"), Field("a")], Empty())) == "$<aC>$<aC>"
  {
    hide Parse, Attach, Unparse, Canonical, Bucket;
    SameBucket();
    assert "$<" + "aC" + ">$<" + "a" + ">" == "$<aC>$<a>" && "$<" + "aC" + ">$<" + "aC" + ">" == "$<aC>$<aC>";
    TwoFields("aC", "a");
    TwoFields("aC", "aC");
    ParseIsComplete([Field("aC"), Field("a")], Empty());
    assert Resolve(Put(Empty(), "aC"), "a") == "aC" by {
      assert Put(Empty(), "aC")[10] == ["aC"];
      assert "a" <= "aC";
    }
    AttachTwoFields("aC", "a");
  }

  /** And one it holds on only because the hash folds its top bits: without that the two names would share a
      bucket. */
  lemma FoldedExample()
    ensures Parse("$<counter>$<count>", Empty()) == Some([Field("counter"), Field("count")])
    ensures NoneShadowed([Field("counter"), Field("count")], [])
  {
    hide Parse, Attach, Unparse, Canonical, Bucket, NoneShadowed;
    CounterBuckets();
    var ps := [Field("counter"), Field("count")];
    TwoFields("counter", "count");
    assert "$<" + "counter" + ">$<" + "count" + ">" == "$<counter>$<count>";
    ParseIsComplete(ps, Empty());
    assert Attach(ps, Empty()) == ps by { AttachApart("counter", "count"); }
    UnchangedIffNoneShadowed(ps, []);
  }

  lemma AttachApart(a: Bytes, b: Bytes)
    requires Bucket(a) != Bucket(b)
    ensures Attach([Field(a), Field(b)], Empty()) == [Field(a), Field(b)]
  {
    hide Bucket;
    var ps, t := [Field(a), Field(b)], Empty();
    assert ps[1..] == [Field(b)] && [Field(b)][1..] == [];
    assert Resolve(t, a) == a;
    assert Put(t, a)[Bucket(b)] == [];
    assert Resolve(Put(t, a), b) == b;
    assert Attach([Field(b)], Put(t, a)) == [Field(b)];
  }
}
