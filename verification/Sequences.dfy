/** Sequence vocabulary: last element, reversal, lexicographic order over an
    arbitrary element order, and stable sorting by a total preorder. */
module Sequences {

  function Last<T>(s: seq<T>): T
    requires s != []
  {
    s[|s| - 1]
  }

  function Reverse<T>(s: seq<T>): seq<T> {
    if s == [] then [] else [Last(s)] + Reverse(s[..|s| - 1])
  }

  lemma {:induction false} ReverseAt<T>(s: seq<T>)
    ensures |Reverse(s)| == |s|
    ensures forall i :: 0 <= i < |s| ==> Reverse(s)[i] == s[|s| - 1 - i]
  {
    if s != [] {
      ReverseAt(s[..|s| - 1]);
    }
  }

  ghost predicate NoDuplicates<T>(s: seq<T>) {
    forall i, j :: 0 <= i < j < |s| ==> s[i] != s[j]
  }

  lemma {:induction false} LastIsNew<T>(s: seq<T>)
    requires s != [] && NoDuplicates(s)
    ensures NoDuplicates(s[..|s| - 1]) && Last(s) !in s[..|s| - 1]
    ensures s == s[..|s| - 1] + [Last(s)]
  {
  }

  // ----- counting

  ghost function Below(n: nat): (s: set<nat>)
    ensures |s| == n && forall i :: i in s <==> 0 <= i < n
  {
    if n == 0 then {} else Below(n - 1) + {n - 1}
  }

  ghost function Members<T(!new)>(s: seq<T>): (r: set<T>)
    ensures forall x :: x in r <==> x in s
  {
    set x | x in s
  }

  lemma {:induction false} MembersSize<T(!new)>(s: seq<T>)
    requires NoDuplicates(s)
    ensures |Members(s)| == |s|
  {
    if s != [] {
      var t := s[..|s| - 1];
      MembersSize(t);
      assert s == t + [Last(s)];
      assert Members(s) == Members(t) + {Last(s)};
    }
  }

  lemma {:induction false} SubsetSize<T>(a: set<T>, b: set<T>)
    requires a <= b
    ensures |a| <= |b|
  {
    if a != {} {
      var x :| x in a;
      SubsetSize(a - {x}, b - {x});
    }
  }

  /** Distinct numbers below `n` number at most `n`. */
  lemma {:induction false} DistinctIsBounded(s: seq<nat>, n: nat)
    requires NoDuplicates(s) && forall i :: 0 <= i < |s| ==> s[i] < n
    ensures |s| <= n
  {
    MembersSize(s);
    SubsetSize(Members(s), Below(n));
  }

  // ----- lexicographic order

  /** `a` comes no later than `b`, comparing elements with `less`. */
  predicate LexLe<T(==)>(less: (T, T) -> bool, a: seq<T>, b: seq<T>) {
    if a == [] then true
    else if b == [] then false
    else less(a[0], b[0]) || (a[0] == b[0] && LexLe(less, a[1..], b[1..]))
  }

  ghost predicate StrictTotalOrder<T(!new)>(less: (T, T) -> bool) {
    && (forall x :: !less(x, x))
    && (forall x, y :: x == y || less(x, y) || less(y, x))
    && (forall x, y, z :: less(x, y) && less(y, z) ==> less(x, z))
  }

  lemma {:induction false} LexReflexive<T(!new)>(less: (T, T) -> bool, a: seq<T>)
    ensures LexLe(less, a, a)
  {
    if a != [] {
      LexReflexive(less, a[1..]);
    }
  }

  lemma {:induction false} LexTotal<T(!new)>(less: (T, T) -> bool, a: seq<T>, b: seq<T>)
    requires StrictTotalOrder(less)
    ensures LexLe(less, a, b) || LexLe(less, b, a)
  {
    if a != [] && b != [] {
      LexTotal(less, a[1..], b[1..]);
    }
  }

  lemma {:induction false} LexTransitive<T(!new)>(less: (T, T) -> bool, a: seq<T>, b: seq<T>, c: seq<T>)
    requires StrictTotalOrder(less)
    requires LexLe(less, a, b) && LexLe(less, b, c)
    ensures LexLe(less, a, c)
  {
    if a != [] {
      if a[0] == b[0] && b[0] == c[0] {
        LexTransitive(less, a[1..], b[1..], c[1..]);
      }
    }
  }

  lemma {:induction false} LexAntisymmetric<T(!new)>(less: (T, T) -> bool, a: seq<T>, b: seq<T>)
    requires StrictTotalOrder(less)
    requires LexLe(less, a, b) && LexLe(less, b, a)
    ensures a == b
  {
    if a != [] {
      LexAntisymmetric(less, a[1..], b[1..]);
      assert a == [a[0]] + a[1..] && b == [b[0]] + b[1..];
    }
  }

  /** Equal-length sequences keep their order when an element is appended to each. */
  lemma {:induction false} LexAppend<T(!new)>(less: (T, T) -> bool, a: seq<T>, b: seq<T>, x: T, y: T)
    requires |a| == |b| && LexLe(less, a, b)
    requires a == b ==> x == y || less(x, y)
    ensures LexLe(less, a + [x], b + [y])
  {
    if a != [] {
      assert (a + [x])[1..] == a[1..] + [x] && (b + [y])[1..] == b[1..] + [y];
      if !less(a[0], b[0]) {
        assert a == [a[0]] + a[1..] && b == [b[0]] + b[1..];
        LexAppend(less, a[1..], b[1..], x, y);
      }
    }
  }

  // ----- sorting

  ghost predicate TotalPreorder<T(!new)>(le: (T, T) -> bool) {
    && (forall x, y :: le(x, y) || le(y, x))
    && (forall x, y, z :: le(x, y) && le(y, z) ==> le(x, z))
  }

  ghost predicate SortedBy<T>(le: (T, T) -> bool, s: seq<T>) {
    forall i, j :: 0 <= i < j < |s| ==> le(s[i], s[j])
  }

  function Insert<T>(le: (T, T) -> bool, x: T, s: seq<T>): seq<T> {
    if s == [] then [x]
    else if le(x, s[0]) then [x] + s
    else [s[0]] + Insert(le, x, s[1..])
  }

  function Sort<T>(le: (T, T) -> bool, s: seq<T>): seq<T> {
    if s == [] then [] else Insert(le, s[0], Sort(le, s[1..]))
  }

  lemma {:induction false} InsertAdds<T>(le: (T, T) -> bool, x: T, s: seq<T>)
    ensures multiset(Insert(le, x, s)) == multiset(s) + multiset{x}
    ensures |Insert(le, x, s)| == |s| + 1
  {
    if s != [] && !le(x, s[0]) {
      InsertAdds(le, x, s[1..]);
      assert s == [s[0]] + s[1..];
    }
  }

  lemma {:induction false} PrependSorted<T(!new)>(le: (T, T) -> bool, x: T, s: seq<T>)
    requires SortedBy(le, s) && forall k :: 0 <= k < |s| ==> le(x, s[k])
    ensures SortedBy(le, [x] + s)
  {
    var r := [x] + s;
    forall i, j | 0 <= i < j < |r| ensures le(r[i], r[j]) {
      assert r[j] == s[j - 1];
      if i > 0 {
        assert r[i] == s[i - 1];
      }
    }
  }

  lemma {:induction false} InsertSorted<T(!new)>(le: (T, T) -> bool, x: T, s: seq<T>)
    requires TotalPreorder(le) && SortedBy(le, s)
    ensures SortedBy(le, Insert(le, x, s))
  {
    if s == [] {
    } else if le(x, s[0]) {
      forall k | 0 <= k < |s| ensures le(x, s[k]) {
        if k > 0 {
          assert le(s[0], s[k]);
        }
      }
      PrependSorted(le, x, s);
    } else {
      InsertSorted(le, x, s[1..]);
      InsertAdds(le, x, s[1..]);
      var tail := Insert(le, x, s[1..]);
      forall k | 0 <= k < |tail| ensures le(s[0], tail[k]) {
        assert tail[k] in multiset(tail);
        assert tail[k] in s[1..] || tail[k] == x;
      }
      PrependSorted(le, s[0], tail);
    }
  }

  lemma {:induction false} SortPermutes<T>(le: (T, T) -> bool, s: seq<T>)
    ensures multiset(Sort(le, s)) == multiset(s) && |Sort(le, s)| == |s|
  {
    if s != [] {
      SortPermutes(le, s[1..]);
      InsertAdds(le, s[0], Sort(le, s[1..]));
      assert s == [s[0]] + s[1..];
    }
  }

  lemma {:induction false} SortSorts<T(!new)>(le: (T, T) -> bool, s: seq<T>)
    requires TotalPreorder(le)
    ensures SortedBy(le, Sort(le, s))
  {
    if s != [] {
      SortSorts(le, s[1..]);
      InsertSorted(le, s[0], Sort(le, s[1..]));
    }
  }

  lemma {:induction false} SortMembers<T>(le: (T, T) -> bool, s: seq<T>)
    ensures forall x :: x in Sort(le, s) <==> x in s
    ensures |Sort(le, s)| == |s|
  {
    SortPermutes(le, s);
    forall x ensures x in Sort(le, s) <==> x in s {
      assert x in multiset(Sort(le, s)) <==> x in multiset(s);
    }
  }

  lemma {:induction false} DuplicatesAreCounted<T>(s: seq<T>, i: nat, j: nat)
    requires i < j < |s| && s[i] == s[j]
    ensures multiset(s)[s[i]] >= 2
  {
    assert s == s[..j] + [s[j]] + s[j + 1..];
    assert s[i] in multiset(s[..j]);
  }

  lemma {:induction false} CountedAreDuplicates<T>(s: seq<T>, x: T)
    requires NoDuplicates(s)
    ensures multiset(s)[x] <= 1
  {
    if s != [] {
      assert s == [s[0]] + s[1..];
      CountedAreDuplicates(s[1..], x);
      if x == s[0] {
        assert x !in s[1..];
      }
    }
  }

  lemma {:induction false} SortKeepsDistinct<T>(le: (T, T) -> bool, s: seq<T>)
    requires NoDuplicates(s)
    ensures NoDuplicates(Sort(le, s))
  {
    SortPermutes(le, s);
    forall i, j | 0 <= i < j < |s| ensures Sort(le, s)[i] != Sort(le, s)[j] {
      if Sort(le, s)[i] == Sort(le, s)[j] {
        DuplicatesAreCounted(Sort(le, s), i, j);
        CountedAreDuplicates(s, Sort(le, s)[i]);
      }
    }
  }

  /** Drops each element equal to its predecessor, as `std::unique` does. */
  function DropRepeats<T(==)>(s: seq<T>): seq<T> {
    if |s| < 2 then s
    else if s[0] == s[1] then DropRepeats(s[1..])
    else [s[0]] + DropRepeats(s[1..])
  }

  lemma {:induction false} DropRepeatsKeeps<T>(s: seq<T>)
    ensures forall x :: x in DropRepeats(s) <==> x in s
    ensures s != [] ==> DropRepeats(s) != [] && DropRepeats(s)[0] == s[0]
  {
    if |s| >= 2 {
      DropRepeatsKeeps(s[1..]);
      assert s == [s[0]] + s[1..];
    }
  }

  /** With a sequence sorted by an antisymmetric order, dropping repeats leaves it strictly sorted. */
  lemma {:induction false} DropRepeatsSorts<T(!new)>(le: (T, T) -> bool, s: seq<T>)
    requires SortedBy(le, s)
    requires forall x, y :: x in s && y in s && le(x, y) && le(y, x) ==> x == y
    ensures SortedBy(le, DropRepeats(s)) && NoDuplicates(DropRepeats(s))
  {
    if |s| >= 2 {
      DropRepeatsSorts(le, s[1..]);
      DropRepeatsKeeps(s[1..]);
      if s[0] != s[1] {
        var tail := DropRepeats(s[1..]);
        forall k | 0 <= k < |tail| ensures le(s[0], tail[k]) && s[0] != tail[k] {
          assert tail[k] in s[1..];
          var m :| 0 <= m < |s[1..]| && s[1..][m] == tail[k];
        }
      }
    }
  }

  /** A strictly sorted sequence is determined by its elements. */
  lemma {:induction false} SortedSetIsUnique<T(!new)>(le: (T, T) -> bool, s: seq<T>, t: seq<T>)
    requires SortedBy(le, s) && NoDuplicates(s) && SortedBy(le, t) && NoDuplicates(t)
    requires forall x, y :: le(x, y) && le(y, x) ==> x == y
    requires forall x :: x in s <==> x in t
    ensures s == t
  {
    if s != [] {
      assert s[0] in t && t != [] && t[0] in s;
      var i :| 0 <= i < |t| && t[i] == s[0];
      var j :| 0 <= j < |s| && s[j] == t[0];
      assert s[0] == t[0];
      TailElements(s, t);
      SortedSetIsUnique(le, s[1..], t[1..]);
      assert s == [s[0]] + s[1..] && t == [t[0]] + t[1..];
    } else {
      HasElement(t);
    }
  }

  lemma {:induction false} HasElement<T(!new)>(t: seq<T>)
    ensures t != [] ==> exists x :: x in t
  {
    if t != [] {
      assert t[0] in t;
    }
  }

  lemma {:induction false} TailElements<T(!new)>(s: seq<T>, t: seq<T>)
    requires s != [] && t != [] && s[0] == t[0] && NoDuplicates(s) && NoDuplicates(t)
    requires forall x :: x in s <==> x in t
    ensures forall x :: x in s[1..] <==> x in t[1..]
  {
    forall x ensures x in s[1..] <==> x in t[1..] {
      assert s == [s[0]] + s[1..] && t == [t[0]] + t[1..];
      assert x in s[1..] <==> x in s && x != s[0];
      assert x in t[1..] <==> x in t && x != t[0];
    }
  }
}
