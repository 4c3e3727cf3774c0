/** Sums and maxima of a real-valued measure over a sequence, accumulated from
    the left as the loops of the calibration statistics do. */
module Sums {
  import opened Support
  import opened Sequences

  function Sum<T>(items: seq<T>, measure: T -> real): real {
    if items == [] then 0.0 else Sum(items[..|items| - 1], measure) + measure(Last(items))
  }

  /** The largest measure, and zero when there is none above it. */
  function Largest<T>(items: seq<T>, measure: T -> real): real {
    if items == [] then 0.0 else Max(Largest(items[..|items| - 1], measure), measure(Last(items)))
  }

  lemma {:induction false} OneMore<T>(items: seq<T>, item: T, measure: T -> real)
    ensures Sum(items + [item], measure) == Sum(items, measure) + measure(item)
    ensures Largest(items + [item], measure) == Max(Largest(items, measure), measure(item))
  {
    var more := items + [item];
    assert more[..|more| - 1] == items && Last(more) == item;
  }

  lemma {:induction false} LargestBounds<T>(items: seq<T>, measure: T -> real)
    ensures Largest(items, measure) >= 0.0
    ensures forall i :: 0 <= i < |items| ==> measure(items[i]) <= Largest(items, measure)
  {
    if items != [] {
      LargestBounds(items[..|items| - 1], measure);
      forall i | 0 <= i < |items| ensures measure(items[i]) <= Largest(items, measure) {
        if i < |items| - 1 {
          assert items[i] == items[..|items| - 1][i];
        }
      }
    }
  }

  lemma {:induction false} LargestAtMost<T>(items: seq<T>, measure: T -> real, limit: real)
    requires limit >= 0.0 && forall i :: 0 <= i < |items| ==> measure(items[i]) <= limit
    ensures Largest(items, measure) <= limit
  {
    if items != [] {
      LargestAtMost(items[..|items| - 1], measure, limit);
    }
  }

  lemma {:induction false} SumAtMost<T>(items: seq<T>, f: T -> real, g: T -> real)
    requires forall i :: 0 <= i < |items| ==> f(items[i]) <= g(items[i])
    ensures Sum(items, f) <= Sum(items, g)
  {
    if items != [] {
      SumAtMost(items[..|items| - 1], f, g);
    }
  }

  lemma {:induction false} SumIsNonNegative<T>(items: seq<T>, f: T -> real)
    requires forall i :: 0 <= i < |items| ==> 0.0 <= f(items[i])
    ensures 0.0 <= Sum(items, f)
  {
    if items != [] {
      SumIsNonNegative(items[..|items| - 1], f);
    }
  }

  lemma {:induction false} SumAtLeast<T>(items: seq<T>, f: T -> real, i: nat)
    requires i < |items| && forall k :: 0 <= k < |items| ==> 0.0 <= f(items[k])
    ensures f(items[i]) <= Sum(items, f)
  {
    var before := items[..|items| - 1];
    if i == |items| - 1 {
      SumIsNonNegative(before, f);
    } else {
      SumAtLeast(before, f, i);
    }
  }

  lemma {:induction false} SumAdds<T>(items: seq<T>, f: T -> real, g: T -> real, sum: T -> real)
    requires forall i :: 0 <= i < |items| ==> sum(items[i]) == f(items[i]) + g(items[i])
    ensures Sum(items, sum) == Sum(items, f) + Sum(items, g)
  {
    if items != [] {
      SumAdds(items[..|items| - 1], f, g, sum);
    }
  }

  lemma {:induction false} SumScales<T>(items: seq<T>, f: T -> real, factor: real, scaled: T -> real)
    requires forall i :: 0 <= i < |items| ==> scaled(items[i]) == factor * f(items[i])
    ensures Sum(items, scaled) == factor * Sum(items, f)
  {
    if items != [] {
      SumScales(items[..|items| - 1], f, factor, scaled);
      Distributes(factor, Sum(items[..|items| - 1], f), f(Last(items)));
    }
  }

  /** Terms within `factor` times a weight add up to within `factor` times the total weight. */
  lemma {:induction false} SumWithin<T>(items: seq<T>, f: T -> real, factor: real, weight: T -> real)
    requires forall i :: 0 <= i < |items| ==> 0.0 <= f(items[i]) <= factor * weight(items[i])
    ensures 0.0 <= Sum(items, f) <= factor * Sum(items, weight)
  {
    if items != [] {
      SumWithin(items[..|items| - 1], f, factor, weight);
      Distributes(factor, Sum(items[..|items| - 1], weight), weight(Last(items)));
    }
  }

  lemma {:induction false} Distributes(factor: real, a: real, b: real)
    ensures factor * (a + b) == factor * a + factor * b
  {
  }
}
