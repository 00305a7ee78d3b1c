/** The order in which a template's own nodes and its sections' content come out:
    a section placed at position `p` stands before node `p` and after every node before it. */
module Weaving {
  import opened ByteStrings

  datatype Placed<+T> = Placed(pos: nat, what: T)

  function Weave<T>(nodes: seq<T>, placed: seq<Placed<T>>): seq<T>
    decreases |nodes| + |placed|
  {
    if placed != [] && |nodes| <= placed[|placed| - 1].pos then
      Weave(nodes, placed[..|placed| - 1]) + [placed[|placed| - 1].what]
    else if nodes == [] then
      []
    else
      Weave(nodes[..|nodes| - 1], placed) + [nodes[|nodes| - 1]]
  }

  predicate Sorted<T>(placed: seq<Placed<T>>) {
    forall i, j | 0 <= i < j < |placed| :: placed[i].pos <= placed[j].pos
  }

  predicate Within<T>(placed: seq<Placed<T>>, n: nat) {
    forall i | 0 <= i < |placed| :: placed[i].pos <= n
  }

  /** How many of `placed` stand at or before position `p`. */
  function UpTo<T>(placed: seq<Placed<T>>, p: nat): (n: nat)
    ensures n <= |placed|
  {
    if placed == [] then 0
    else UpTo(placed[..|placed| - 1], p) + if placed[|placed| - 1].pos <= p then 1 else 0
  }

  lemma {:induction false} UpToAll<T>(placed: seq<Placed<T>>, p: nat)
    requires Within(placed, p)
    ensures UpTo(placed, p) == |placed|
  {
    if placed != [] {
      UpToAll(placed[..|placed| - 1], p);
    }
  }

  /** Closed form: nothing is lost or repeated, the `j`-th placed element is at index `pos + j`,
      and node `i` comes right after the placed elements at or before `i` and the nodes before it. */
  lemma {:induction false} WeaveAt<T>(nodes: seq<T>, placed: seq<Placed<T>>)
    requires Sorted(placed) && Within(placed, |nodes|)
    ensures |Weave(nodes, placed)| == |nodes| + |placed|
    ensures forall j | 0 <= j < |placed| :: Weave(nodes, placed)[placed[j].pos + j] == placed[j].what
    ensures forall i | 0 <= i < |nodes| :: Weave(nodes, placed)[i + UpTo(placed, i)] == nodes[i]
    decreases |nodes| + |placed|
  {
    if placed != [] && |nodes| <= placed[|placed| - 1].pos {
      var front := placed[..|placed| - 1];
      WeaveAt(nodes, front);
      assert forall i | 0 <= i < |nodes| :: UpTo(placed, i) == UpTo(front, i);
    } else if nodes != [] {
      var n := |nodes| - 1;
      WeaveAt(nodes[..n], placed);
      UpToAll(placed, n);
    }
  }

  lemma WeaveNode<T>(nodes: seq<T>, placed: seq<Placed<T>>, x: T)
    requires Within(placed, |nodes|)
    ensures Weave(nodes + [x], placed) == Weave(nodes, placed) + [x]
  {
    assert (nodes + [x])[..|nodes + [x]| - 1] == nodes;
  }

  lemma WeavePlaced<T>(nodes: seq<T>, placed: seq<Placed<T>>, p: Placed<T>)
    requires p.pos == |nodes|
    ensures Weave(nodes, placed + [p]) == Weave(nodes, placed) + [p.what]
  {
    assert (placed + [p])[..|placed + [p]| - 1] == placed;
  }

  function Total(parts: seq<Bytes>): nat {
    if parts == [] then 0 else Total(parts[..|parts| - 1]) + |parts[|parts| - 1]|
  }

  function Contents<T>(placed: seq<Placed<T>>): (r: seq<T>)
    ensures |r| == |placed| && forall i | 0 <= i < |r| :: r[i] == placed[i].what
  {
    seq(|placed|, i requires 0 <= i < |placed| => placed[i].what)
  }

  lemma {:induction false} WovenLength(nodes: seq<Bytes>, placed: seq<Placed<Bytes>>)
    ensures |Concat(Weave(nodes, placed))| == Total(nodes) + Total(Contents(placed))
    decreases |nodes| + |placed|
  {
    if placed != [] && |nodes| <= placed[|placed| - 1].pos {
      var front := placed[..|placed| - 1];
      WovenLength(nodes, front);
      ConcatSnoc(Weave(nodes, front), placed[|placed| - 1].what);
      assert Contents(placed)[..|placed| - 1] == Contents(front);
    } else if nodes != [] {
      WovenLength(nodes[..|nodes| - 1], placed);
      ConcatSnoc(Weave(nodes[..|nodes| - 1], placed), nodes[|nodes| - 1]);
    } else {
      assert placed == [];
    }
  }

  /** A run of nodes may be written in one piece across sections that contribute nothing. */
  lemma {:induction false} WeaveAcrossEmpty(nodes: seq<Bytes>, placed: seq<Placed<Bytes>>, n: nat, m: nat)
    requires n <= m <= |nodes|
    requires Sorted(placed) && Within(placed, m)
    requires forall j | 0 <= j < |placed| && n < placed[j].pos :: placed[j].what == []
    ensures Concat(Weave(nodes[..m], placed)) == Concat(Weave(nodes[..n], placed)) + Concat(nodes[n..m])
    decreases m + |placed|
  {
    hide Weave, Concat;
    if n == m {
      assert nodes[n..m] == [] && Concat([]) == [] by { ConcatNothing(); }
    } else if placed != [] && m <= placed[|placed| - 1].pos {
      var front := placed[..|placed| - 1];
      WeaveAcrossEmpty(nodes, front, n, m);
      DropEmptyLast(nodes[..m], placed);
      DropEmptyLast(nodes[..n], placed);
    } else {
      WeaveAcrossEmpty(nodes, placed, n, m - 1);
      AddRun(nodes, placed, n, m - 1);
    }
  }

  lemma ConcatNothing()
    ensures Concat([]) == []
  {
  }

  lemma DropEmptyLast(nodes: seq<Bytes>, placed: seq<Placed<Bytes>>)
    requires placed != [] && placed[|placed| - 1].what == [] && |nodes| <= placed[|placed| - 1].pos
    ensures Concat(Weave(nodes, placed)) == Concat(Weave(nodes, placed[..|placed| - 1]))
  {
    ConcatSnoc(Weave(nodes, placed[..|placed| - 1]), []);
  }

  lemma AddRun(nodes: seq<Bytes>, placed: seq<Placed<Bytes>>, n: nat, m: nat)
    requires n <= m < |nodes| && Within(placed, m)
    ensures Concat(Weave(nodes[..m + 1], placed)) == Concat(Weave(nodes[..m], placed)) + nodes[m]
    ensures Concat(nodes[n..m + 1]) == Concat(nodes[n..m]) + nodes[m]
  {
    assert nodes[..m] + [nodes[m]] == nodes[..m + 1];
    WeaveNode(nodes[..m], placed, nodes[m]);
    ConcatSnoc(Weave(nodes[..m], placed), nodes[m]);
    assert nodes[n..m + 1] == nodes[n..m] + [nodes[m]];
    ConcatSnoc(nodes[n..m], nodes[m]);
  }
}
