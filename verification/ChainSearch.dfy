/** The breadth-first search at the heart of routing: several start regions,
    several goal regions, and a first-discovery predecessor table. The chain it
    returns is the least of all chains, shorter chains first and equally long
    ones in lexicographic order of their region ids. */
module ChainSearch {
  import opened Support
  import opened Sequences
  import opened Graphs

  predicate IdLess(a: U64, b: U64) {
    a < b
  }

  /** The region ids along a sequence of region indices. */
  function IdsOf(ids: seq<U64>, p: seq<nat>): (r: seq<U64>)
    requires forall k :: 0 <= k < |p| ==> p[k] < |ids|
    ensures |r| == |p|
  {
    seq(|p|, k requires 0 <= k < |p| => ids[p[k]])
  }

  /** Shorter first; equally long sequences in lexicographic order. */
  predicate ShortLexLe(a: seq<U64>, b: seq<U64>) {
    |a| < |b| || (|a| == |b| && LexLe(IdLess, a, b))
  }

  predicate ShortLexLess(a: seq<U64>, b: seq<U64>) {
    ShortLexLe(a, b) && a != b
  }

  lemma {:induction false} ShortLexReflexive(a: seq<U64>)
    ensures ShortLexLe(a, a)
  {
    LexReflexive(IdLess, a);
  }

  lemma {:induction false} ShortLexTransitive(a: seq<U64>, b: seq<U64>, c: seq<U64>)
    requires ShortLexLe(a, b) && ShortLexLe(b, c)
    ensures ShortLexLe(a, c)
  {
    if |a| == |b| == |c| {
      LexTransitive(IdLess, a, b, c);
    }
  }

  lemma {:induction false} ShortLexAntisymmetric(a: seq<U64>, b: seq<U64>)
    requires ShortLexLe(a, b) && ShortLexLe(b, a)
    ensures a == b
  {
    LexAntisymmetric(IdLess, a, b);
  }

  /** Appending one id to each of two sequences keeps them in strict order. */
  lemma {:induction false} ShortLexAppend(a: seq<U64>, b: seq<U64>, x: U64, y: U64)
    requires ShortLexLess(a, b) || (a == b && x < y)
    ensures ShortLexLess(a + [x], b + [y])
  {
    if |a| == |b| {
      if a == b {
        LexReflexive(IdLess, a);
      }
      LexAppend(IdLess, a, b, x, y);
      assert (a + [x])[..|a|] == a && (b + [y])[..|b|] == b;
      assert (a + [x])[|a|] == x && (b + [y])[|b|] == y;
    }
  }

  lemma {:induction false} ShortLexAppendSame(a: seq<U64>, b: seq<U64>, x: U64)
    requires ShortLexLe(a, b)
    ensures ShortLexLe(a + [x], b + [x])
  {
    if |a| == |b| {
      LexAppend(IdLess, a, b, x, x);
    }
  }

  predicate UniqueIds(ids: seq<U64>) {
    forall i, j :: 0 <= i < j < |ids| ==> ids[i] != ids[j]
  }

  predicate SortedById(ids: seq<U64>, s: seq<nat>)
    requires forall k :: 0 <= k < |s| ==> s[k] < |ids|
  {
    forall i, j :: 0 <= i < j < |s| ==> ids[s[i]] < ids[s[j]]
  }

  /** What the search runs on: every neighbour and every start is a region, and starts are listed once. */
  ghost predicate Problem(ids: seq<U64>, g: Graph, starts: seq<nat>, isGoal: seq<bool>) {
    && |ids| == |g| == |isGoal|
    && WellFormed(g)
    && (forall k :: 0 <= k < |starts| ==> starts[k] < |g|)
    && NoDuplicates(starts)
  }

  /** Starts and neighbour lists are in increasing id order. */
  ghost predicate Ordered(ids: seq<U64>, g: Graph, starts: seq<nat>)
    requires |ids| == |g| && WellFormed(g)
    requires forall k :: 0 <= k < |starts| ==> starts[k] < |g|
  {
    SortedById(ids, starts) && forall i :: 0 <= i < |g| ==> SortedById(ids, g[i])
  }

  /** A chain of adjacent regions from a start to a goal. */
  ghost predicate Chain(g: Graph, starts: seq<nat>, isGoal: seq<bool>, p: seq<nat>)
    requires |isGoal| == |g|
  {
    Walk(g, p) && p[0] in starts && isGoal[Last(p)]
  }

  // ----- the search as a discovery order

  /** `order` lists the regions in the order they were discovered, `via` the
      position of the region each was discovered from (a start from itself). */
  datatype Discovery = Discovery(order: seq<nat>, via: seq<nat>)

  ghost predicate InRange(n: nat, d: Discovery) {
    |d.order| == |d.via| && forall j {:trigger d.order[j]} :: 0 <= j < |d.order| ==> d.order[j] < n
  }

  /** The starts come first, each its own origin; every later region has an earlier one, in order. */
  ghost predicate Rooted(starts: seq<nat>, d: Discovery)
    requires |d.order| == |d.via|
  {
    && |starts| <= |d.order|
    && (forall j :: 0 <= j < |starts| ==> d.order[j] == starts[j] && d.via[j] == j)
    && (forall j :: |starts| <= j < |d.order| ==> d.via[j] < j)
    && (forall i, j :: |starts| <= i < j < |d.order| ==> d.via[i] <= d.via[j])
  }

  /** Regions discovered from the same region come in increasing id order. */
  ghost predicate SiblingsSorted(ids: seq<U64>, starts: seq<nat>, d: Discovery)
    requires InRange(|ids|, d)
  {
    forall i, j {:trigger ids[d.order[i]], ids[d.order[j]]} ::
      |starts| <= i < j < |d.order| && d.via[i] == d.via[j] ==> ids[d.order[i]] < ids[d.order[j]]
  }

  /** Every later region is a neighbour of the region it was discovered from,
      and of no region popped before that one. */
  ghost predicate EarliestParent(g: Graph, starts: seq<nat>, d: Discovery)
    requires InRange(|g|, d) && Rooted(starts, d)
  {
    && (forall j {:trigger d.via[j]} :: |starts| <= j < |d.order| ==> d.order[j] in g[d.order[d.via[j]]])
    && (forall j, k {:trigger d.order[j] in g[d.order[k]]} ::
          |starts| <= j < |d.order| && 0 <= k < d.via[j] ==> d.order[j] !in g[d.order[k]])
  }

  /** All neighbours of the first `done` regions have been discovered. */
  ghost predicate Expanded(g: Graph, d: Discovery, done: nat)
    requires InRange(|g|, d) && done <= |d.order|
  {
    forall k, v {:trigger v in g[d.order[k]]} :: 0 <= k < done && v in g[d.order[k]] ==> v in d.order
  }

  ghost function PathTo(d: Discovery, j: nat): (p: seq<nat>)
    requires |d.order| == |d.via| && j < |d.order|
    ensures p != [] && Last(p) == d.order[j]
    ensures forall k :: 0 <= k < |p| ==> p[k] in d.order
  {
    if d.via[j] < j then PathTo(d, d.via[j]) + [d.order[j]] else [d.order[j]]
  }

  /** The ids along `PathTo(d, j)`. */
  ghost function KeyTo(ids: seq<U64>, d: Discovery, j: nat): (key: seq<U64>)
    requires InRange(|ids|, d) && j < |d.order|
    ensures key == IdsOf(ids, PathTo(d, j))
  {
    if d.via[j] < j then
      var key := KeyTo(ids, d, d.via[j]) + [ids[d.order[j]]];
      assert key == IdsOf(ids, PathTo(d, j));
      key
    else
      [ids[d.order[j]]]
  }

  lemma {:induction false} PathIsWalk(g: Graph, starts: seq<nat>, d: Discovery, j: nat)
    requires InRange(|g|, d) && Rooted(starts, d) && EarliestParent(g, starts, d) && j < |d.order|
    ensures Walk(g, PathTo(d, j)) && PathTo(d, j)[0] in starts
  {
    if d.via[j] < j {
      PathIsWalk(g, starts, d, d.via[j]);
    }
  }

  /** Later discoveries have greater paths. */
  lemma {:induction false} KeysIncrease(ids: seq<U64>, starts: seq<nat>, d: Discovery, i: nat, j: nat)
    requires InRange(|ids|, d) && Rooted(starts, d) && i < j < |d.order|
    requires forall k :: 0 <= k < |starts| ==> starts[k] < |ids|
    requires SortedById(ids, starts) && SiblingsSorted(ids, starts, d)
    ensures ShortLexLess(KeyTo(ids, d, i), KeyTo(ids, d, j))
    decreases j
  {
    if i < |starts| {
      assert |KeyTo(ids, d, i)| == 1;
    } else {
      var a, b := KeyTo(ids, d, d.via[i]), KeyTo(ids, d, d.via[j]);
      if d.via[i] < d.via[j] {
        KeysIncrease(ids, starts, d, d.via[i], d.via[j]);
      }
      ShortLexAppend(a, b, ids[d.order[i]], ids[d.order[j]]);
    }
  }

  lemma {:induction false} KeysIncreaseWeakly(ids: seq<U64>, starts: seq<nat>, d: Discovery, i: nat, j: nat)
    requires InRange(|ids|, d) && Rooted(starts, d) && i <= j < |d.order|
    requires forall k :: 0 <= k < |starts| ==> starts[k] < |ids|
    requires SortedById(ids, starts) && SiblingsSorted(ids, starts, d)
    ensures ShortLexLe(KeyTo(ids, d, i), KeyTo(ids, d, j))
  {
    if i < j {
      KeysIncrease(ids, starts, d, i, j);
    } else {
      ShortLexReflexive(KeyTo(ids, d, i));
    }
  }

  /** Appending to a walk a region discovered at `j`, its recorded path stays no greater. */
  lemma {:induction false} ExtendLeast(ids: seq<U64>, g: Graph, starts: seq<nat>, d: Discovery, m: nat, j: nat,
                                       walked: seq<U64>)
    requires |ids| == |g| && InRange(|ids|, d) && Rooted(starts, d)
    requires forall k :: 0 <= k < |starts| ==> starts[k] < |ids|
    requires SortedById(ids, starts) && SiblingsSorted(ids, starts, d) && EarliestParent(g, starts, d)
    requires j < |d.order| && m < |d.order| && d.order[j] in g[d.order[m]]
    requires ShortLexLe(KeyTo(ids, d, m), walked) && walked != []
    ensures ShortLexLe(KeyTo(ids, d, j), walked + [ids[d.order[j]]])
  {
    if j >= |starts| {
      assert d.via[j] <= m;
      var a := KeyTo(ids, d, d.via[j]);
      KeysIncreaseWeakly(ids, starts, d, d.via[j], m);
      ShortLexTransitive(a, KeyTo(ids, d, m), walked);
      ShortLexAppendSame(a, walked, ids[d.order[j]]);
    }
  }

  /** One of the first `done` discoveries. */
  ghost predicate Popped(d: Discovery, done: nat, v: nat) {
    exists k :: 0 <= k < done && k < |d.order| && d.order[k] == v
  }

  /** The region after a popped one on a walk was discovered. */
  lemma {:induction false} NextIsDiscovered(g: Graph, d: Discovery, done: nat, p: seq<nat>, n: nat)
    returns (m: nat, j: nat)
    requires InRange(|g|, d) && done <= |d.order| && Expanded(g, d, done)
    requires Walk(g, p) && 1 <= n < |p| && Popped(d, done, p[n - 1])
    ensures m < done && d.order[m] == p[n - 1]
    ensures j < |d.order| && d.order[j] == p[n] && p[n] in g[d.order[m]]
  {
    m :| 0 <= m < done && m < |d.order| && d.order[m] == p[n - 1];
    assert p[n] in d.order;
    j :| 0 <= j < |d.order| && d.order[j] == p[n];
  }

  lemma {:induction false} SameDiscovery(d: Discovery, i: nat, j: nat)
    requires NoDuplicates(d.order) && i < |d.order| && j < |d.order| && d.order[i] == d.order[j]
    ensures i == j
  {
  }

  /** The discoveries after `done` pops of a search over sorted lists. */
  ghost predicate Settled(ids: seq<U64>, g: Graph, starts: seq<nat>, d: Discovery, done: nat) {
    && |ids| == |g| && InRange(|g|, d) && Rooted(starts, d) && done <= |d.order| && NoDuplicates(d.order)
    && (forall k :: 0 <= k < |starts| ==> starts[k] < |ids|)
    && SortedById(ids, starts) && SiblingsSorted(ids, starts, d)
    && EarliestParent(g, starts, d) && Expanded(g, d, done)
  }

  lemma {:induction false} StartIsLeast(ids: seq<U64>, g: Graph, starts: seq<nat>, d: Discovery, done: nat, j: nat)
    requires Settled(ids, g, starts, d, done) && j < |d.order| && d.order[j] in starts
    ensures KeyTo(ids, d, j) == [ids[d.order[j]]]
    ensures ShortLexLe(KeyTo(ids, d, j), [ids[d.order[j]]])
  {
    var k :| 0 <= k < |starts| && starts[k] == d.order[j];
    SameDiscovery(d, j, k);
    LexReflexive(IdLess, [ids[d.order[j]]]);
  }

  /** One more step keeps a path no greater than a walk. */
  ghost predicate StepBound(ids: seq<U64>, d: Discovery, m: nat, j: nat, id: U64)
    requires InRange(|ids|, d) && m < |d.order| && j < |d.order|
  {
    forall walked: seq<U64> :: walked != [] && ShortLexLe(KeyTo(ids, d, m), walked) ==>
        ShortLexLe(KeyTo(ids, d, j), walked + [id])
  }

  lemma {:induction false} StepIsLeast(ids: seq<U64>, g: Graph, starts: seq<nat>, d: Discovery, done: nat, p: seq<nat>,
                                       n: nat, j: nat) returns (m: nat)
    requires Settled(ids, g, starts, d, done)
    requires Walk(g, p) && 1 <= n < |p| && Popped(d, done, p[n - 1])
    requires j < |d.order| && d.order[j] == p[n]
    ensures m < |d.order| && d.order[m] == p[n - 1] && StepBound(ids, d, m, j, ids[p[n]])
  {
    var j';
    m, j' := NextIsDiscovered(g, d, done, p, n);
    SameDiscovery(d, j, j');
    forall walked: seq<U64> | walked != [] && ShortLexLe(KeyTo(ids, d, m), walked)
      ensures ShortLexLe(KeyTo(ids, d, j), walked + [ids[p[n]]])
    {
      ExtendLeast(ids, g, starts, d, m, j, walked);
    }
  }

  lemma {:induction false} BoundedWalk(ids: seq<U64>, d: Discovery, p: seq<nat>, n: nat, m: nat, j: nat)
    requires InRange(|ids|, d) && m < |d.order| && j < |d.order| && 1 <= n < |p|
             && forall k :: 0 <= k < |p| ==> p[k] < |ids|
    requires StepBound(ids, d, m, j, ids[p[n]]) && ShortLexLe(KeyTo(ids, d, m), IdsOf(ids, p)[..n])
    ensures ShortLexLe(KeyTo(ids, d, j), IdsOf(ids, p)[..n + 1])
  {
    IdsOfPrefix(ids, p, n);
    assert IdsOf(ids, p)[..n] != [];
  }

  lemma {:induction false} IdsOfPrefix(ids: seq<U64>, p: seq<nat>, n: nat)
    requires n < |p| && forall k :: 0 <= k < |p| ==> p[k] < |ids|
    ensures IdsOf(ids, p)[..n + 1] == IdsOf(ids, p)[..n] + [ids[p[n]]]
  {
  }

  /** Along a walk from a start whose first regions were all popped, the path
      recorded for the next region is no greater than the walk up to it. */
  lemma {:induction false} PathIsLeast(ids: seq<U64>, g: Graph, starts: seq<nat>, d: Discovery, done: nat, p: seq<nat>,
                                       n: nat, j: nat)
    requires Settled(ids, g, starts, d, done)
    requires Walk(g, p) && p[0] in starts && n < |p|
    requires forall k :: 0 <= k < n ==> Popped(d, done, p[k])
    requires j < |d.order| && d.order[j] == p[n]
    ensures ShortLexLe(KeyTo(ids, d, j), IdsOf(ids, p)[..n + 1])
    decreases n
  {
    if n == 0 {
      IdsOfPrefix(ids, p, 0);
      StartIsLeast(ids, g, starts, d, done, j);
    } else {
      var m := StepIsLeast(ids, g, starts, d, done, p, n, j);
      PathIsLeast(ids, g, starts, d, done, p, n - 1, m);
      BoundedWalk(ids, d, p, n, m, j);
    }
  }

  // ----- the search

  /** Invariant of the search: `done` regions were expanded, and every later
      discovery was made from one of the first `limit`. */
  ghost predicate Progress(g: Graph, starts: seq<nat>, d: Discovery, done: nat, limit: nat) {
    && InRange(|g|, d) && Rooted(starts, d) && NoDuplicates(d.order)
    && done <= limit <= |d.order|
    && EarliestParent(g, starts, d) && Expanded(g, d, done)
    && (forall j :: |starts| <= j < |d.order| ==> d.via[j] < limit)
  }

  /** The predecessor table describes exactly the discoveries. */
  ghost predicate Recorded(predecessor: seq<Option<nat>>, d: Discovery)
    requires |d.order| == |d.via|
  {
    && (forall v :: 0 <= v < |predecessor| ==> (predecessor[v].Some? <==> v in d.order))
    && (forall j {:trigger d.via[j]} :: 0 <= j < |d.order| ==>
          d.order[j] < |predecessor| && d.via[j] < |d.order| && predecessor[d.order[j]] == Some(d.order[d.via[j]]))
  }

  /** The discoveries followed by that of `v` from position `current`. */
  ghost function Extended(d: Discovery, current: nat, v: nat): Discovery {
    Discovery(d.order + [v], d.via + [current])
  }

  lemma {:induction false} DiscoverRooted(g: Graph, starts: seq<nat>, d: Discovery, current: nat, v: nat)
    requires Progress(g, starts, d, current, current + 1)
    requires v < |g| && v !in d.order
    ensures InRange(|g|, Extended(d, current, v)) && Rooted(starts, Extended(d, current, v))
    ensures NoDuplicates(Extended(d, current, v).order)
  {
  }

  lemma {:induction false} DiscoverParent(g: Graph, starts: seq<nat>, d: Discovery, current: nat, v: nat)
    requires Progress(g, starts, d, current, current + 1)
    requires v < |g| && v !in d.order && v in g[d.order[current]]
    requires InRange(|g|, Extended(d, current, v)) && Rooted(starts, Extended(d, current, v))
    ensures EarliestParent(g, starts, Extended(d, current, v))
  {
    var e := Extended(d, current, v);
    forall j, k | |starts| <= j < |e.order| && 0 <= k < e.via[j] ensures e.order[j] !in g[e.order[k]] {
      assert e.order[k] == d.order[k];
      if j < |d.order| {
        assert d.order[j] !in g[d.order[k]];
      }
    }
  }

  lemma {:induction false} DiscoverExpanded(g: Graph, starts: seq<nat>, d: Discovery, current: nat, v: nat)
    requires Progress(g, starts, d, current, current + 1) && v < |g|
    requires InRange(|g|, Extended(d, current, v))
    ensures Expanded(g, Extended(d, current, v), current)
  {
    var e := Extended(d, current, v);
    forall k, w | 0 <= k < current && w in g[e.order[k]] ensures w in e.order {
      assert w in g[d.order[k]];
    }
  }

  /** Discovering `v` from the region popped last keeps the invariant. */
  lemma {:induction false} Discover(g: Graph, starts: seq<nat>, d: Discovery, current: nat, v: nat)
    requires Progress(g, starts, d, current, current + 1)
    requires v < |g| && v !in d.order && v in g[d.order[current]]
    ensures Progress(g, starts, Extended(d, current, v), current, current + 1)
  {
    DiscoverRooted(g, starts, d, current, v);
    DiscoverParent(g, starts, d, current, v);
    DiscoverExpanded(g, starts, d, current, v);
  }

  /** While the sorted neighbour list of position `current` is at entry `i`:
      siblings are sorted and the entries to come are greater than them all. */
  ghost predicate SortedSoFar(ids: seq<U64>, starts: seq<nat>, d: Discovery, current: nat, list: seq<nat>, i: nat)
    requires InRange(|ids|, d) && forall m :: 0 <= m < |list| ==> list[m] < |ids|
  {
    && SiblingsSorted(ids, starts, d)
    && (forall j, m {:trigger d.via[j], list[m]} ::
          |starts| <= j < |d.order| && d.via[j] == current && i <= m < |list| ==> ids[d.order[j]] < ids[list[m]])
  }

  lemma {:induction false} SortedStep(ids: seq<U64>, starts: seq<nat>, d: Discovery, current: nat, list: seq<nat>,
                                      i: nat)
    requires InRange(|ids|, d) && i < |list| && forall m :: 0 <= m < |list| ==> list[m] < |ids|
    requires SortedSoFar(ids, starts, d, current, list, i) && SortedById(ids, list)
    requires InRange(|ids|, Extended(d, current, list[i]))
    ensures SortedSoFar(ids, starts, Extended(d, current, list[i]), current, list, i + 1)
  {
    var e := Extended(d, current, list[i]);
    forall j, k | |starts| <= j < k < |e.order| && e.via[j] == e.via[k]
      ensures ids[e.order[j]] < ids[e.order[k]]
    {
      assert e.order[j] == d.order[j] && e.via[j] == d.via[j];
      if k < |d.order| {
        assert e.order[k] == d.order[k] && e.via[k] == d.via[k];
      }
    }
  }

  /** The table entry for a new discovery keeps the table and the frontier in step. */
  lemma {:induction false} RecordDiscovery(predecessor: seq<Option<nat>>, d: Discovery, current: nat, v: nat)
    requires |d.order| == |d.via| && Recorded(predecessor, d)
    requires v < |predecessor| && v !in d.order && current < |d.order|
    ensures Recorded(predecessor[v := Some(d.order[current])], Extended(d, current, v))
    ensures Extended(d, current, v).order[current + 1..] == d.order[current + 1..] + [v]
    ensures Extended(d, current, v).order[..current + 1] == d.order[..current + 1]
  {
    var table, e := predecessor[v := Some(d.order[current])], Extended(d, current, v);
    forall j | 0 <= j < |e.order|
      ensures e.order[j] < |table| && e.via[j] < |e.order| && table[e.order[j]] == Some(e.order[e.via[j]])
    {
      if j < |d.order| {
        assert e.via[j] == d.via[j];
      }
    }
  }

  lemma {:induction false} AllDiscovered(g: Graph, starts: seq<nat>, d: Discovery, current: nat,
                                         predecessor: seq<Option<nat>>)
    requires WellFormed(g) && |predecessor| == |g|
    requires Progress(g, starts, d, current, current + 1) && Recorded(predecessor, d)
    requires forall v :: v in g[d.order[current]] ==> predecessor[v].Some?
    ensures Progress(g, starts, d, current + 1, current + 1)
  {
  }

  /** What holds while the neighbours of the region at position `current` are visited. */
  ghost predicate Visiting(ids: seq<U64>, g: Graph, starts: seq<nat>, d: Discovery, current: nat,
                           predecessor: seq<Option<nat>>, i: nat) {
    && |ids| == |g| == |predecessor| && WellFormed(g) && (forall k :: 0 <= k < |starts| ==> starts[k] < |g|)
    && Progress(g, starts, d, current, current + 1) && Recorded(predecessor, d) && i <= |g[d.order[current]]|
    && (forall m :: 0 <= m < i ==> predecessor[g[d.order[current]][m]].Some?)
    && (Ordered(ids, g, starts) ==> SortedSoFar(ids, starts, d, current, g[d.order[current]], i))
  }

  /** Visits one neighbour. */
  method Visit(ids: seq<U64>, g: Graph, ghost starts: seq<nat>, ghost d0: Discovery, ghost current: nat, region: nat,
               i: nat, predecessor0: seq<Option<nat>>, frontier0: seq<nat>)
    returns (predecessor: seq<Option<nat>>, frontier: seq<nat>, ghost d: Discovery)
    requires Visiting(ids, g, starts, d0, current, predecessor0, i) && d0.order[current] == region && i < |g[region]|
    requires frontier0 == d0.order[current + 1..]
    ensures Visiting(ids, g, starts, d, current, predecessor, i + 1) && current < |d.order|
            && d.order[current] == region
    ensures d.order[..current + 1] == d0.order[..current + 1] && frontier == d.order[current + 1..]
  {
    predecessor, frontier, d := predecessor0, frontier0, d0;
    var neighbor := g[region][i];
    if predecessor[neighbor].None? {
      Discover(g, starts, d, current, neighbor);
      RecordDiscovery(predecessor, d, current, neighbor);
      if Ordered(ids, g, starts) {
        SortedStep(ids, starts, d, current, g[region], i);
      }
      predecessor := predecessor[neighbor := Some(region)];
      frontier := frontier + [neighbor];
      d := Extended(d, current, neighbor);
      assert d0.order[..current + 1] == d.order[..current + 1];
    }
  }

  /** Visits the neighbours of the region at position `current`, in list order. */
  method Expand(ids: seq<U64>, g: Graph, ghost starts: seq<nat>, ghost d0: Discovery, ghost current: nat, region: nat,
                predecessor0: seq<Option<nat>>, frontier0: seq<nat>)
    returns (predecessor: seq<Option<nat>>, frontier: seq<nat>, ghost d: Discovery)
    requires |ids| == |g| == |predecessor0| && WellFormed(g)
    requires forall k :: 0 <= k < |starts| ==> starts[k] < |g|
    requires Progress(g, starts, d0, current, current) && current < |d0.order| && d0.order[current] == region
    requires Recorded(predecessor0, d0) && frontier0 == d0.order[current + 1..]
    requires Ordered(ids, g, starts) ==> SiblingsSorted(ids, starts, d0)
    ensures |predecessor| == |g|
    ensures Progress(g, starts, d, current + 1, current + 1) && d.order[..current + 1] == d0.order[..current + 1]
    ensures Recorded(predecessor, d) && frontier == d.order[current + 1..]
    ensures Ordered(ids, g, starts) ==> SiblingsSorted(ids, starts, d)
  {
    predecessor, frontier, d := predecessor0, frontier0, d0;
    for i := 0 to |g[region]|
      invariant current < |d.order| && d.order[..current + 1] == d0.order[..current + 1] && d.order[current] == region
      invariant Visiting(ids, g, starts, d, current, predecessor, i) && frontier == d.order[current + 1..]
    {
      predecessor, frontier, d := Visit(ids, g, starts, d, current, region, i, predecessor, frontier);
    }
    AllDiscovered(g, starts, d, current, predecessor);
  }

  /** A walk from a start whose first `n` regions were popped has its next region discovered. */
  lemma {:induction false} WalkIsDiscovered(g: Graph, starts: seq<nat>, d: Discovery, done: nat, p: seq<nat>, n: nat)
    returns (j: nat)
    requires Progress(g, starts, d, done, done)
    requires Walk(g, p) && p[0] in starts && n < |p|
    requires n > 0 ==> Popped(d, done, p[n - 1])
    ensures j < |d.order| && d.order[j] == p[n]
  {
    if n == 0 {
      var k :| 0 <= k < |starts| && starts[k] == p[0];
      j := k;
    } else {
      var m;
      m, j := NextIsDiscovered(g, d, done, p, n);
    }
  }

  lemma {:induction false} FirstUnpopped(d: Discovery, done: nat, p: seq<nat>) returns (n: nat)
    requires p != [] && !Popped(d, done, Last(p))
    ensures n < |p| && !Popped(d, done, p[n]) && forall k :: 0 <= k < n ==> Popped(d, done, p[k])
  {
    n := 0;
    while Popped(d, done, p[n])
      invariant n < |p| && forall k :: 0 <= k < n ==> Popped(d, done, p[k])
      decreases |p| - n
    {
      n := n + 1;
    }
  }

  /** If every discovered region was popped and none is a goal, there is no chain. */
  lemma {:induction false} ExhaustedMeansNoChain(g: Graph, starts: seq<nat>, isGoal: seq<bool>, d: Discovery,
                                                 p: seq<nat>)
    requires |isGoal| == |g| && Progress(g, starts, d, |d.order|, |d.order|)
    requires forall k :: 0 <= k < |d.order| ==> !isGoal[d.order[k]]
    ensures !Chain(g, starts, isGoal, p)
  {
    if Chain(g, starts, isGoal, p) {
      var n := FirstUnpopped(d, |d.order|, p);
      var j := WalkIsDiscovered(g, starts, d, |d.order|, p, n);
      assert false;
    }
  }

  lemma {:induction false} PrefixIsLess(a: seq<U64>, b: seq<U64>, n: nat)
    requires n <= |b| && ShortLexLe(a, b[..n])
    ensures ShortLexLe(a, b)
  {
    if n == |b| {
      assert b[..n] == b;
    }
  }

  /** The path recorded for the first popped goal is the least chain. */
  lemma {:induction false} FirstGoalIsLeast(ids: seq<U64>, g: Graph, starts: seq<nat>, isGoal: seq<bool>, d: Discovery,
                                            done: nat, p: seq<nat>)
    requires |isGoal| == |g| && Settled(ids, g, starts, d, done) && Progress(g, starts, d, done, done)
    requires done < |d.order| && forall k :: 0 <= k < done ==> !isGoal[d.order[k]]
    requires Chain(g, starts, isGoal, p)
    ensures ShortLexLe(KeyTo(ids, d, done), IdsOf(ids, p))
  {
    var n := FirstUnpopped(d, done, p);
    var j := WalkIsDiscovered(g, starts, d, done, p, n);
    assert j >= done;
    PathIsLeast(ids, g, starts, d, done, p, n, j);
    KeysIncreaseWeakly(ids, starts, d, done, j);
    ShortLexTransitive(KeyTo(ids, d, done), KeyTo(ids, d, j), IdsOf(ids, p)[..n + 1]);
    PrefixIsLess(KeyTo(ids, d, done), IdsOf(ids, p), n + 1);
  }

  lemma {:induction false} GoalIsLeast(ids: seq<U64>, g: Graph, starts: seq<nat>, isGoal: seq<bool>, d: Discovery,
                                       done: nat)
    requires Problem(ids, g, starts, isGoal) && Progress(g, starts, d, done, done) && done < |d.order|
    requires Ordered(ids, g, starts) ==> SiblingsSorted(ids, starts, d)
    requires forall k :: 0 <= k < done ==> !isGoal[d.order[k]]
    ensures Ordered(ids, g, starts) ==>
              forall p :: Chain(g, starts, isGoal, p) ==> ShortLexLe(KeyTo(ids, d, done), IdsOf(ids, p))
  {
    if Ordered(ids, g, starts) {
      forall p | Chain(g, starts, isGoal, p) ensures ShortLexLe(KeyTo(ids, d, done), IdsOf(ids, p)) {
        FirstGoalIsLeast(ids, g, starts, isGoal, d, done, p);
      }
    }
  }

  /** The path recorded so far, one predecessor longer. */
  lemma {:induction false} BackOneStep(d: Discovery, j: nat, c: nat, reversed: seq<nat>, next: nat)
    requires |d.order| == |d.via| && j < |d.order| && c < |d.order| && d.via[c] < c && d.order[d.via[c]] == next
    requires reversed != [] && Last(reversed) == d.order[c]
    requires PathTo(d, j) == PathTo(d, c) + Reverse(reversed[..|reversed| - 1])
    ensures PathTo(d, j) == PathTo(d, d.via[c]) + Reverse((reversed + [next])[..|reversed|])
  {
    assert (reversed + [next])[..|reversed|] == reversed;
    assert Reverse(reversed) == [d.order[c]] + Reverse(reversed[..|reversed| - 1]);
    assert PathTo(d, c) == PathTo(d, d.via[c]) + [d.order[c]];
  }

  /** Follows the predecessor table back from the region at position `j`. */
  method Backtrack(predecessor: seq<Option<nat>>, ghost d: Discovery, ghost starts: seq<nat>, ghost j: nat, goal: nat)
    returns (chain: seq<nat>)
    requires |d.order| == |d.via| && Recorded(predecessor, d) && Rooted(starts, d) && NoDuplicates(d.order)
    requires j < |d.order| && d.order[j] == goal
    ensures chain == PathTo(d, j)
  {
    var reversed := [goal];
    var current := goal;
    ghost var c: nat := j;
    assert d.via[c] <= c;
    while predecessor[current].value != current
      invariant c < |d.order| && d.order[c] == current && current < |predecessor| && predecessor[current].Some?
      invariant d.via[c] <= c && predecessor[current].value == d.order[d.via[c]]
      invariant reversed != [] && Last(reversed) == current
      invariant PathTo(d, j) == PathTo(d, c) + Reverse(reversed[..|reversed| - 1])
      decreases c
    {
      var next := predecessor[current].value;
      BackOneStep(d, j, c, reversed, next);
      reversed := reversed + [next];
      current := next;
      c := d.via[c];
      assert d.via[c] <= c;
    }
    SameDiscovery(d, c, d.via[c]);
    assert Reverse(reversed) == [current] + Reverse(reversed[..|reversed| - 1]);
    chain := Reverse(reversed);
  }

  /** Every start is its own predecessor, and the frontier begins with the starts. */
  method Begin(starts: seq<nat>, n: nat) returns (predecessor: seq<Option<nat>>, frontier: seq<nat>)
    requires forall k :: 0 <= k < |starts| ==> starts[k] < n
    ensures |predecessor| == n && frontier == starts
    ensures forall v :: 0 <= v < n ==> (predecessor[v].Some? <==> v in starts)
    ensures forall k :: 0 <= k < |starts| ==> predecessor[starts[k]] == Some(starts[k])
  {
    predecessor, frontier := seq(n, _ => None), [];
    for i := 0 to |starts|
      invariant |predecessor| == n && frontier == starts[..i]
      invariant forall v :: 0 <= v < n ==> (predecessor[v].Some? <==> v in starts[..i])
      invariant forall k :: 0 <= k < i ==> predecessor[starts[k]] == Some(starts[k])
    {
      predecessor := predecessor[starts[i] := Some(starts[i])];
      frontier := frontier + [starts[i]];
    }
  }

  ghost function Initial(starts: seq<nat>): Discovery {
    Discovery(starts, seq(|starts|, k => k))
  }

  lemma {:induction false} InitialProgress(ids: seq<U64>, g: Graph, starts: seq<nat>, predecessor: seq<Option<nat>>)
    requires |ids| == |g| == |predecessor| && WellFormed(g) && NoDuplicates(starts)
             && forall k :: 0 <= k < |starts| ==> starts[k] < |g|
    requires forall v :: 0 <= v < |g| ==> (predecessor[v].Some? <==> v in starts)
    requires forall k :: 0 <= k < |starts| ==> predecessor[starts[k]] == Some(starts[k])
    ensures Progress(g, starts, Initial(starts), 0, 0) && Recorded(predecessor, Initial(starts))
    ensures SiblingsSorted(ids, starts, Initial(starts))
  {
  }

  lemma {:induction false} ExhaustedMeansNone(g: Graph, starts: seq<nat>, isGoal: seq<bool>, d: Discovery)
    requires |isGoal| == |g| && Progress(g, starts, d, |d.order|, |d.order|)
    requires forall k :: 0 <= k < |d.order| ==> !isGoal[d.order[k]]
    ensures forall p :: !Chain(g, starts, isGoal, p)
  {
    forall p ensures !Chain(g, starts, isGoal, p) {
      ExhaustedMeansNoChain(g, starts, isGoal, d, p);
    }
  }

  lemma {:induction false} NoGoalBefore(isGoal: seq<bool>, before: Discovery, d: Discovery, done: nat)
    requires InRange(|isGoal|, before) && InRange(|isGoal|, d) && done < |before.order| && done < |d.order|
    requires d.order[..done + 1] == before.order[..done + 1]
    requires !isGoal[before.order[done]] && forall k :: 0 <= k < done ==> !isGoal[before.order[k]]
    ensures forall k :: 0 <= k < done + 1 ==> !isGoal[d.order[k]]
  {
    forall k | 0 <= k < done + 1 ensures !isGoal[d.order[k]] {
      assert d.order[k] == d.order[..done + 1][k] == before.order[..done + 1][k];
    }
  }

  /** The least chain of adjacent regions from a start to a goal, or the empty
      sequence when there is none. */
  method FindChain(ids: seq<U64>, g: Graph, starts: seq<nat>, isGoal: seq<bool>) returns (chain: seq<nat>)
    requires Problem(ids, g, starts, isGoal)
    ensures chain == [] ==> forall p :: !Chain(g, starts, isGoal, p)
    ensures chain != [] ==> Chain(g, starts, isGoal, chain)
    ensures chain != [] && Ordered(ids, g, starts) ==>
              forall p :: Chain(g, starts, isGoal, p) ==> ShortLexLe(IdsOf(ids, chain), IdsOf(ids, p))
  {
    var predecessor, frontier := Begin(starts, |g|);
    ghost var d := Initial(starts);
    ghost var done := 0;
    InitialProgress(ids, g, starts, predecessor);
    while frontier != []
      invariant |predecessor| == |g| && Progress(g, starts, d, done, done)
      invariant Recorded(predecessor, d) && frontier == d.order[done..]
      invariant Ordered(ids, g, starts) ==> SiblingsSorted(ids, starts, d)
      invariant forall k :: 0 <= k < done ==> !isGoal[d.order[k]]
      decreases |g| - done
    {
      var current := frontier[0];
      if isGoal[current] {
        chain := Backtrack(predecessor, d, starts, done, current);
        PathIsWalk(g, starts, d, done);
        GoalIsLeast(ids, g, starts, isGoal, d, done);
        return;
      }
      ghost var before := d;
      predecessor, frontier, d := Expand(ids, g, starts, d, done, current, predecessor, frontier[1..]);
      NoGoalBefore(isGoal, before, d, done);
      done := done + 1;
      DistinctIsBounded(d.order, |g|);
    }
    ExhaustedMeansNone(g, starts, isGoal, d);
    chain := [];
  }
}
