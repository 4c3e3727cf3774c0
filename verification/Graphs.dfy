/** Adjacency lists over region indices, walks, and the connectivity they induce. */
module Graphs {
  import opened Sequences

  type Graph = seq<seq<nat>>

  predicate WellFormed(g: Graph) {
    forall i, k :: 0 <= i < |g| && 0 <= k < |g[i]| ==> g[i][k] < |g|
  }

  ghost predicate Symmetric(g: Graph)
    requires WellFormed(g)
  {
    forall i, j :: 0 <= i < |g| && j in g[i] ==> i in g[j]
  }

  ghost predicate Walk(g: Graph, p: seq<nat>) {
    && p != []
    && (forall k :: 0 <= k < |p| ==> p[k] < |g|)
    && (forall k :: 0 < k < |p| ==> p[k] in g[p[k - 1]])
  }

  ghost predicate WalkFromTo(g: Graph, p: seq<nat>, i: nat, j: nat) {
    Walk(g, p) && p[0] == i && Last(p) == j
  }

  ghost predicate Linked(g: Graph, i: nat, j: nat) {
    exists p :: WalkFromTo(g, p, i, j)
  }

  lemma {:induction false} LinkedReflexive(g: Graph, i: nat)
    requires i < |g|
    ensures Linked(g, i, i)
  {
    assert WalkFromTo(g, [i], i, i);
  }

  lemma {:induction false} LinkedStep(g: Graph, i: nat, j: nat, k: nat)
    requires Linked(g, i, j) && k in g[j] && k < |g|
    ensures Linked(g, i, k)
  {
    var p :| WalkFromTo(g, p, i, j);
    assert WalkFromTo(g, p + [k], i, k);
  }

  lemma {:induction false} LinkedTransitive(g: Graph, i: nat, j: nat, k: nat)
    requires Linked(g, i, j) && Linked(g, j, k)
    ensures Linked(g, i, k)
  {
    var p :| WalkFromTo(g, p, i, j);
    var q :| WalkFromTo(g, q, j, k);
    assert WalkFromTo(g, p + q[1..], i, k);
  }

  lemma {:induction false} WalkReversed(g: Graph, p: seq<nat>)
    requires WellFormed(g) && Symmetric(g) && Walk(g, p)
    ensures WalkFromTo(g, Reverse(p), Last(p), p[0])
  {
    ReverseAt(p);
    var r := Reverse(p);
    forall k | 0 < k < |r| ensures r[k] in g[r[k - 1]] {
      var m := |p| - k;
      assert p[m] in g[p[m - 1]];
    }
  }

  lemma {:induction false} LinkedSymmetric(g: Graph, i: nat, j: nat)
    requires WellFormed(g) && Symmetric(g) && Linked(g, i, j)
    ensures Linked(g, j, i)
  {
    var p :| WalkFromTo(g, p, i, j);
    WalkReversed(g, p);
  }
}
