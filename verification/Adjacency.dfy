/** The adjacency graph of a region table and its connected components. */
module Adjacency {
  import opened Sequences
  import opened Boxes
  import opened Graphs
  import opened Assembly

  /** Different regions whose boxes overlap within the tolerance. */
  predicate Adjacent(regions: seq<SafeRegion>, tolerance: real, i: nat, j: nat)
    requires i < |regions| && j < |regions|
  {
    i != j && Overlaps(regions[i].bounds, regions[j].bounds, tolerance)
  }

  /** The neighbours of region `i` among the first `n`, in increasing order. */
  function NeighborsBelow(regions: seq<SafeRegion>, tolerance: real, i: nat, n: nat): seq<nat>
    requires i < |regions| && n <= |regions|
  {
    if n == 0 then [] else
      var before := NeighborsBelow(regions, tolerance, i, n - 1);
      if Adjacent(regions, tolerance, i, n - 1) then before + [n - 1] else before
  }

  lemma {:induction false} NeighborsAreExact(regions: seq<SafeRegion>, tolerance: real, i: nat, n: nat)
    requires i < |regions| && n <= |regions|
    ensures var list := NeighborsBelow(regions, tolerance, i, n);
            && (forall j: nat :: j in list <==> j < n && Adjacent(regions, tolerance, i, j))
            && (forall a :: 0 <= a < |list| ==> list[a] < n)
            && (forall a, b :: 0 <= a < b < |list| ==> list[a] < list[b])
  {
    if n > 0 {
      NeighborsAreExact(regions, tolerance, i, n - 1);
    }
  }

  function AdjacencyOf(regions: seq<SafeRegion>, tolerance: real): (g: Graph)
    ensures |g| == |regions|
  {
    seq(|regions|, i requires 0 <= i < |regions| => NeighborsBelow(regions, tolerance, i, |regions|))
  }

  /** Symmetric, without self-edges, and each list strictly increasing. */
  lemma {:induction false} AdjacencyIsCanonical(regions: seq<SafeRegion>, tolerance: real)
    ensures var g := AdjacencyOf(regions, tolerance);
            && WellFormed(g) && Symmetric(g)
            && (forall i, j :: 0 <= i < |g| && j in g[i] ==> j != i)
            && (forall i, a, b :: 0 <= i < |g| && 0 <= a < b < |g[i]| ==> g[i][a] < g[i][b])
  {
    var g := AdjacencyOf(regions, tolerance);
    forall i | 0 <= i < |g|
      ensures forall j: nat :: j in g[i] <==> j < |g| && Adjacent(regions, tolerance, i, j)
      ensures forall a :: 0 <= a < |g[i]| ==> g[i][a] < |g|
      ensures forall a, b :: 0 <= a < b < |g[i]| ==> g[i][a] < g[i][b]
    {
      NeighborsAreExact(regions, tolerance, i, |regions|);
    }
    forall i, j | 0 <= i < |g| && j in g[i] ensures i in g[j] {
      OverlapsSymmetric(regions[i].bounds, regions[j].bounds, tolerance);
      assert Adjacent(regions, tolerance, j, i);
    }
  }

  lemma {:induction false} OverlapsSymmetric(a: Box, b: Box, tolerance: real)
    ensures Overlaps(a, b, tolerance) == Overlaps(b, a, tolerance)
  {
    if |a| == |b| {
      assert forall i :: 0 <= i < |a| ==> a[i].Overlaps(b[i], tolerance) == b[i].Overlaps(a[i], tolerance);
    }
  }

  /** How far the pairwise loop has filled the list of region `i` when it is about to compare `left` with `right`. */
  function Compared(n: nat, left: nat, right: nat, i: nat): nat
    requires left < right <= n
  {
    if i < left then n else if i == left then right else if i < right then left + 1 else left
  }

  method BuildAdjacency(regions: seq<SafeRegion>, tolerance: real) returns (adjacency: Graph)
    ensures adjacency == AdjacencyOf(regions, tolerance)
  {
    var n := |regions|;
    adjacency := seq(n, _ => []);
    for left := 0 to n
      invariant |adjacency| == n
      invariant forall i :: 0 <= i < n ==>
                  adjacency[i] == NeighborsBelow(regions, tolerance, i, if i < left then n else left)
    {
      forall i | 0 <= i < n
        ensures adjacency[i] == NeighborsBelow(regions, tolerance, i, Compared(n, left, left + 1, i))
      {
      }
      for right := left + 1 to n
        invariant |adjacency| == n
        invariant forall i :: 0 <= i < n ==>
                    adjacency[i] == NeighborsBelow(regions, tolerance, i, Compared(n, left, right, i))
      {
        OverlapsSymmetric(regions[left].bounds, regions[right].bounds, tolerance);
        ghost var before := adjacency;
        if Overlaps(regions[left].bounds, regions[right].bounds, tolerance) {
          adjacency := adjacency[left := adjacency[left] + [right]];
          adjacency := adjacency[right := adjacency[right] + [left]];
        }
        forall i | 0 <= i < n
          ensures adjacency[i] == NeighborsBelow(regions, tolerance, i, Compared(n, left, right + 1, i))
        {
          assert before[i] == NeighborsBelow(regions, tolerance, i, Compared(n, left, right, i));
        }
      }
    }
  }

  // ----- components

  /** The least region linked to `i`, searching upward from `k`. */
  ghost function LeastFrom(g: Graph, i: nat, k: nat): (least: nat)
    requires k <= i < |g| && forall j :: 0 <= j < k ==> !Linked(g, i, j)
    ensures least <= i && Linked(g, i, least) && forall j :: 0 <= j < least ==> !Linked(g, i, j)
    decreases i - k
  {
    LinkedReflexive(g, i);
    if Linked(g, i, k) then k else LeastFrom(g, i, k + 1)
  }

  /** The least region of the component of `i`. */
  ghost function Least(g: Graph, i: nat): (least: nat)
    requires i < |g|
    ensures least <= i && Linked(g, i, least) && forall j :: 0 <= j < least ==> !Linked(g, i, j)
  {
    LeastFrom(g, i, 0)
  }

  /** How many of the first `n` regions are the least of their component. */
  ghost function Roots(g: Graph, n: nat): nat
    requires n <= |g|
  {
    if n == 0 then 0 else Roots(g, n - 1) + if Least(g, n - 1) == n - 1 then 1 else 0
  }

  /** Components numbered from 1 by their least region. */
  ghost function Label(g: Graph, i: nat): nat
    requires i < |g|
  {
    Roots(g, Least(g, i) + 1)
  }

  lemma {:induction false} LinkedSameLeast(g: Graph, i: nat, j: nat)
    requires WellFormed(g) && Symmetric(g) && i < |g| && j < |g|
    ensures Linked(g, i, j) <==> Least(g, i) == Least(g, j)
  {
    var a, b := Least(g, i), Least(g, j);
    if Linked(g, i, j) {
      LinkedTransitive(g, i, j, b);
      LinkedSymmetric(g, i, j);
      LinkedTransitive(g, j, i, a);
    }
    if a == b {
      LinkedSymmetric(g, j, b);
      LinkedTransitive(g, i, a, j);
    }
  }

  lemma {:induction false} LeastIsRoot(g: Graph, i: nat)
    requires WellFormed(g) && Symmetric(g) && i < |g|
    ensures Least(g, Least(g, i)) == Least(g, i)
  {
    LinkedSameLeast(g, i, Least(g, i));
  }

  lemma {:induction false} RootsIncrease(g: Graph, m: nat, n: nat)
    requires m < n <= |g| && Least(g, n - 1) == n - 1
    ensures Roots(g, m) < Roots(g, n)
  {
    RootsMonotone(g, m, n - 1);
  }

  lemma {:induction false} RootsMonotone(g: Graph, m: nat, n: nat)
    requires m <= n <= |g|
    ensures Roots(g, m) <= Roots(g, n)
  {
    if m < n {
      RootsMonotone(g, m, n - 1);
    }
  }

  lemma {:induction false} LabelsFollowLeast(g: Graph, i: nat, j: nat)
    requires WellFormed(g) && Symmetric(g) && i < |g| && j < |g| && Least(g, i) < Least(g, j)
    ensures Label(g, i) < Label(g, j)
  {
    LeastIsRoot(g, j);
    RootsIncrease(g, Least(g, i) + 1, Least(g, j) + 1);
  }

  lemma {:induction false} LabelBounds(g: Graph, i: nat)
    requires WellFormed(g) && Symmetric(g) && i < |g|
    ensures 1 <= Label(g, i) <= Roots(g, |g|)
    ensures Least(g, i) == 0 ==> Label(g, i) == 1
  {
    LeastIsRoot(g, i);
    RootsIncrease(g, 0, Least(g, i) + 1);
    RootsMonotone(g, Least(g, i) + 1, |g|);
  }

  /** Labels are equal exactly within a component, and ordered by least region. */
  lemma {:induction false} LabelsAreComponents(g: Graph, i: nat, j: nat)
    requires WellFormed(g) && Symmetric(g) && i < |g| && j < |g|
    ensures Label(g, i) == Label(g, j) <==> Linked(g, i, j)
    ensures Label(g, i) < Label(g, j) <==> Least(g, i) < Least(g, j)
  {
    LinkedSameLeast(g, i, j);
    if Least(g, i) < Least(g, j) {
      LabelsFollowLeast(g, i, j);
    } else if Least(g, j) < Least(g, i) {
      LabelsFollowLeast(g, j, i);
    }
  }

  /** Graphs that link the same pairs number their components alike. */
  lemma {:induction false} SameLinksSameRoots(g: Graph, h: Graph, n: nat)
    requires n <= |g| == |h| && forall i, j :: 0 <= i < |g| && 0 <= j < |g| ==> (Linked(g, i, j) <==> Linked(h, i, j))
    ensures Roots(g, n) == Roots(h, n)
  {
    if n > 0 {
      SameLinksSameRoots(g, h, n - 1);
      SameLinksSameLeast(g, h, n - 1);
    }
  }

  lemma {:induction false} SameLinksSameLeast(g: Graph, h: Graph, i: nat)
    requires i < |g| == |h| && forall i, j :: 0 <= i < |g| && 0 <= j < |g| ==> (Linked(g, i, j) <==> Linked(h, i, j))
    ensures Least(g, i) == Least(h, i)
  {
    assert Linked(h, i, Least(g, i)) && Linked(g, i, Least(h, i));
  }

  lemma {:induction false} SameLinksSameLabels(g: Graph, h: Graph, i: nat)
    requires i < |g| == |h| && forall i, j :: 0 <= i < |g| && 0 <= j < |g| ==> (Linked(g, i, j) <==> Linked(h, i, j))
    ensures Label(g, i) == Label(h, i)
  {
    SameLinksSameLeast(g, h, i);
    SameLinksSameRoots(g, h, Least(g, i) + 1);
  }

  /** Every number up to the count labels some component. */
  lemma {:induction false} EveryLabelIsUsed(g: Graph, n: nat, number: nat) returns (i: nat)
    requires n <= |g| && 1 <= number <= Roots(g, n)
    ensures i < n && Least(g, i) == i && Label(g, i) == number
  {
    if number <= Roots(g, n - 1) {
      i := EveryLabelIsUsed(g, n - 1, number);
    } else {
      i := n - 1;
    }
  }

  // ----- the labelling loop

  /** `order[..done]` were expanded; everything discovered belongs to the component of `start`. */
  ghost predicate Flooded(g: Graph, start: nat, order: seq<nat>, done: nat) {
    && done <= |order| && NoDuplicates(order) && start in order
    && (forall k :: 0 <= k < |order| ==> order[k] < |g| && Linked(g, start, order[k]))
    && (forall k, v {:trigger v in g[order[k]]} :: 0 <= k < done && v in g[order[k]] ==> v in order)
  }

  /** A closed flood is the whole component. */
  lemma {:induction false} FloodReaches(g: Graph, start: nat, order: seq<nat>, p: seq<nat>, n: nat)
    requires Flooded(g, start, order, |order|) && Walk(g, p) && p[0] == start && n < |p|
    ensures p[n] in order
  {
    if n > 0 {
      FloodReaches(g, start, order, p, n - 1);
      var k :| 0 <= k < |order| && order[k] == p[n - 1];
      assert p[n] in g[order[k]];
    }
  }

  lemma {:induction false} FloodIsComponent(g: Graph, start: nat, order: seq<nat>, v: nat)
    requires Flooded(g, start, order, |order|)
    ensures v in order <==> Linked(g, start, v)
  {
    if Linked(g, start, v) {
      var p :| WalkFromTo(g, p, start, v);
      FloodReaches(g, start, order, p, |p| - 1);
    }
    if v in order {
      var k :| 0 <= k < |order| && order[k] == v;
    }
  }

  /** Discovers the unvisited neighbours of the region expanded last. */
  method FloodNeighbors(g: Graph, start: nat, ghost order0: seq<nat>, ghost done: nat, index: nat,
                        visited0: seq<bool>, frontier0: seq<nat>, ghost earlier: seq<bool>)
    returns (visited: seq<bool>, frontier: seq<nat>, ghost order: seq<nat>)
    requires WellFormed(g) && |visited0| == |earlier| == |g|
    requires Flooded(g, start, order0, done) && done < |order0| && order0[done] == index
    requires frontier0 == order0[done + 1..]
    requires forall v :: 0 <= v < |g| ==> (visited0[v] <==> earlier[v] || v in order0)
    requires forall v :: 0 <= v < |g| && earlier[v] ==> !Linked(g, start, v)
    ensures |visited| == |g| && Flooded(g, start, order, done + 1) && order[..done + 1] == order0[..done + 1]
    ensures frontier == order[done + 1..]
    ensures forall v :: 0 <= v < |g| ==> (visited[v] <==> earlier[v] || v in order)
  {
    visited, frontier, order := visited0, frontier0, order0;
    for k := 0 to |g[index]|
      invariant |visited| == |g| && Flooded(g, start, order, done) && done < |order|
      invariant order[..done + 1] == order0[..done + 1] && frontier == order[done + 1..]
      invariant forall v :: 0 <= v < |g| ==> (visited[v] <==> earlier[v] || v in order)
      invariant forall m :: 0 <= m < k ==> visited[g[index][m]]
    {
      var neighbor := g[index][k];
      if !visited[neighbor] {
        FloodStep(g, start, order, done, order0, index, neighbor);
        visited := visited[neighbor := true];
        frontier := frontier + [neighbor];
        order := order + [neighbor];
      }
    }
    assert order[done] == order[..done + 1][done] == order0[..done + 1][done] == index;
    forall k, v | 0 <= k < done + 1 && v in g[order[k]] ensures v in order {
      if k == done {
        var m :| 0 <= m < |g[index]| && g[index][m] == v;
        LinkedStep(g, start, index, v);
        assert !earlier[v];
      }
    }
  }

  lemma {:induction false} FloodStep(g: Graph, start: nat, order: seq<nat>, done: nat, order0: seq<nat>, index: nat,
                                     neighbor: nat)
    requires Flooded(g, start, order, done) && done < |order| && done < |order0|
    requires order[..done + 1] == order0[..done + 1] && order0[done] == index && index < |g|
    requires neighbor in g[index] && neighbor < |g| && neighbor !in order
    ensures Flooded(g, start, order + [neighbor], done)
    ensures (order + [neighbor])[..done + 1] == order0[..done + 1]
    ensures (order + [neighbor])[done + 1..] == order[done + 1..] + [neighbor]
  {
    assert order[done] == order[..done + 1][done] == order0[..done + 1][done] == index;
    LinkedStep(g, start, index, neighbor);
    forall k, v | 0 <= k < done && v in g[(order + [neighbor])[k]] ensures v in order + [neighbor] {
      assert v in g[order[k]];
    }
  }

  /** Labels the component of an unvisited region. */
  method FloodComponent(g: Graph, start: nat, component: nat, visited0: seq<bool>, labels0: seq<nat>)
    returns (visited: seq<bool>, labels: seq<nat>)
    requires WellFormed(g) && |visited0| == |labels0| == |g| && start < |g| && !visited0[start]
    requires forall v :: 0 <= v < |g| && visited0[v] ==> !Linked(g, start, v)
    ensures |visited| == |labels| == |g|
    ensures forall v :: 0 <= v < |g| ==> (visited[v] <==> visited0[v] || Linked(g, start, v))
    ensures forall v :: 0 <= v < |g| ==> labels[v] == if Linked(g, start, v) then component else labels0[v]
  {
    visited, labels := visited0[start := true], labels0;
    var frontier := [start];
    ghost var order, done := [start], 0;
    LinkedReflexive(g, start);
    while frontier != []
      invariant |visited| == |labels| == |g| && Flooded(g, start, order, done) && frontier == order[done..]
      invariant forall v :: 0 <= v < |g| ==> (visited[v] <==> visited0[v] || v in order)
      invariant forall v :: 0 <= v < |g| ==> labels[v] == if v in order[..done] then component else labels0[v]
      decreases |g| - done
    {
      var index := frontier[0];
      labels := labels[index := component];
      ghost var before := order;
      assert order[..done + 1] == order[..done] + [index];
      visited, frontier, order := FloodNeighbors(g, start, order, done, index, visited, frontier[1..], visited0);
      done := done + 1;
      DistinctIsBounded(order, |g|);
    }
    assert order[..done] == order;
    forall v | 0 <= v < |g| ensures v in order <==> Linked(g, start, v) {
      FloodIsComponent(g, start, order, v);
    }
  }

  /** An unvisited start is the least of its component, and numbers it. */
  lemma {:induction false} NewComponent(g: Graph, start: nat, v: nat)
    requires WellFormed(g) && Symmetric(g) && start < |g| && v < |g| && Least(g, start) >= start
    ensures Least(g, v) < start + 1 <==> Least(g, v) < start || Linked(g, start, v)
    ensures Linked(g, start, v) ==> Label(g, v) == Roots(g, start) + 1
    ensures Linked(g, start, v) ==> Least(g, v) == start
    ensures Roots(g, start + 1) == Roots(g, start) + 1
  {
    LinkedSameLeast(g, start, v);
  }

  /** A region visited before its turn is the least of no component. */
  lemma {:induction false} NoNewComponent(g: Graph, start: nat)
    requires WellFormed(g) && Symmetric(g) && start < |g| && Least(g, start) < start
    ensures Roots(g, start + 1) == Roots(g, start)
    ensures forall v :: 0 <= v < |g| ==> (Least(g, v) < start + 1 <==> Least(g, v) < start)
  {
    forall v | 0 <= v < |g| ensures Least(g, v) != start {
      LeastIsRoot(g, v);
    }
  }

  /** Regions of the components met before `start` are visited and carry their labels. */
  ghost predicate Labelled(g: Graph, start: nat, visited: seq<bool>, labels: seq<nat>) {
    && |visited| == |labels| == |g|
    && (forall v :: 0 <= v < |g| ==> (visited[v] <==> Least(g, v) < start))
    && (forall v :: 0 <= v < |g| && visited[v] ==> labels[v] == Label(g, v))
  }

  lemma {:induction false} VisitedAreUnlinked(g: Graph, start: nat, visited: seq<bool>, labels: seq<nat>)
    requires WellFormed(g) && Symmetric(g) && start < |g| && Labelled(g, start, visited, labels) && !visited[start]
    ensures forall v :: 0 <= v < |g| && visited[v] ==> !Linked(g, start, v)
    ensures Roots(g, start + 1) == Roots(g, start) + 1
  {
    NewComponent(g, start, start);
    forall v | 0 <= v < |g| && visited[v] ensures !Linked(g, start, v) {
      NewComponent(g, start, v);
    }
  }

  lemma {:induction false} LabelledNext(g: Graph, start: nat, visited: seq<bool>, labels: seq<nat>, visited': seq<bool>,
                                        labels': seq<nat>)
    requires WellFormed(g) && Symmetric(g) && start < |g| && Labelled(g, start, visited, labels) && !visited[start]
    requires |visited'| == |labels'| == |g|
    requires forall v :: 0 <= v < |g| ==> (visited'[v] <==> visited[v] || Linked(g, start, v))
    requires forall v :: 0 <= v < |g| ==> labels'[v] == if Linked(g, start, v) then Roots(g, start) + 1 else labels[v]
    ensures Labelled(g, start + 1, visited', labels')
  {
    forall v | 0 <= v < |g|
      ensures visited'[v] <==> Least(g, v) < start + 1
      ensures visited'[v] ==> labels'[v] == Label(g, v)
    {
      NewComponent(g, start, v);
    }
  }

  lemma {:induction false} NoneLabelled(g: Graph, visited: seq<bool>, labels: seq<nat>)
    requires |visited| == |labels| == |g| && forall v :: 0 <= v < |g| ==> !visited[v]
    ensures Labelled(g, 0, visited, labels) && Roots(g, 0) == 0
  {
  }

  /** A region visited before its turn changes nothing. */
  lemma {:induction false} StillLabelled(g: Graph, start: nat, visited: seq<bool>, labels: seq<nat>)
    requires WellFormed(g) && Symmetric(g) && start < |g| && Labelled(g, start, visited, labels) && visited[start]
    ensures Labelled(g, start + 1, visited, labels) && Roots(g, start + 1) == Roots(g, start)
  {
    NoNewComponent(g, start);
  }

  lemma {:induction false} AllLabelled(g: Graph, visited: seq<bool>, labels: seq<nat>)
    requires Labelled(g, |g|, visited, labels)
    ensures |labels| == |g| && forall v :: 0 <= v < |g| ==> labels[v] == Label(g, v)
  {
    forall v | 0 <= v < |g| ensures visited[v] {
      assert Least(g, v) <= v;
    }
  }

  /** Labels the component of the next unvisited region. */
  method LabelNext(g: Graph, start: nat, component: nat, visited: seq<bool>, labels: seq<nat>)
    returns (flooded: seq<bool>, relabelled: seq<nat>)
    requires WellFormed(g) && Symmetric(g) && start < |g| && Labelled(g, start, visited, labels) && !visited[start]
    requires component == Roots(g, start) + 1
    ensures Labelled(g, start + 1, flooded, relabelled) && component == Roots(g, start + 1)
  {
    VisitedAreUnlinked(g, start, visited, labels);
    flooded, relabelled := FloodComponent(g, start, component, visited, labels);
    LabelledNext(g, start, visited, labels, flooded, relabelled);
  }

  /** Labels every region with the number of its component. */
  method LabelComponents(g: Graph) returns (labels: seq<nat>)
    requires WellFormed(g) && Symmetric(g)
    ensures |labels| == |g| && forall v :: 0 <= v < |g| ==> labels[v] == Label(g, v)
  {
    var component := 0;
    var visited := seq(|g|, _ => false);
    labels := seq(|g|, _ => 0);
    NoneLabelled(g, visited, labels);
    for start := 0 to |g|
      invariant component == Roots(g, start) && Labelled(g, start, visited, labels)
    {
      if visited[start] {
        StillLabelled(g, start, visited, labels);
      } else {
        component := component + 1;
        visited, labels := LabelNext(g, start, component, visited, labels);
      }
    }
    AllLabelled(g, visited, labels);
  }
}
