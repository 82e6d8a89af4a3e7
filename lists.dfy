/** The array operations the catalog code builds its lists with:
    `filter`, and the de-duplication `[...new Set(xs)]`, with the facts
    about them that the rest of the model relies on. */
module Lists {

  /** `xs.filter(keep)` */
  function Filter<T>(xs: seq<T>, keep: T -> bool): (r: seq<T>)
    ensures |r| <= |xs|
  {
    if xs == [] then [] else (if keep(xs[0]) then [xs[0]] else []) + Filter(xs[1..], keep)
  }

  /** `a` is `b` with some elements dropped and the rest in their original order. */
  predicate IsSubsequence<T(==)>(a: seq<T>, b: seq<T>)
  {
    if a == [] then true
    else if b == [] then false
    else if a[0] == b[0] then IsSubsequence(a[1..], b[1..])
    else IsSubsequence(a, b[1..])
  }

  lemma {:induction false} SubsequenceLength<T>(a: seq<T>, b: seq<T>)
    requires IsSubsequence(a, b)
    ensures |a| <= |b|
  {
    if a != [] && b != [] {
      if a[0] == b[0] {
        SubsequenceLength(a[1..], b[1..]);
      } else {
        SubsequenceLength(a, b[1..]);
      }
    }
  }

  /** A filtered list holds exactly the elements of the list that pass the test. */
  lemma {:induction false} FilterMembership<T>(xs: seq<T>, keep: T -> bool)
    ensures forall x :: x in Filter(xs, keep) <==> x in xs && keep(x)
  {
    if xs != [] {
      FilterMembership(xs[1..], keep);
      assert xs == [xs[0]] + xs[1..];
    }
  }

  /** Each element that passes the test is kept as many times as it occurs;
      each one that fails is dropped entirely. */
  lemma {:induction false} FilterCount<T>(xs: seq<T>, keep: T -> bool)
    ensures forall x :: multiset(Filter(xs, keep))[x] == if keep(x) then multiset(xs)[x] else 0
  {
    if xs != [] {
      FilterCount(xs[1..], keep);
      assert xs == [xs[0]] + xs[1..];
    }
  }

  /** Filtering keeps the relative order of what it keeps. */
  lemma {:induction false} FilterSubsequence<T>(xs: seq<T>, keep: T -> bool)
    ensures IsSubsequence(Filter(xs, keep), xs)
  {
    if xs != [] {
      FilterSubsequence(xs[1..], keep);
      var rest := Filter(xs[1..], keep);
      if keep(xs[0]) {
        assert Filter(xs, keep) == [xs[0]] + rest;
        assert ([xs[0]] + rest)[1..] == rest;
      } else {
        assert Filter(xs, keep) == rest;
        SkipOne(rest, xs);
      }
    }
  }

  lemma {:induction false} SkipOne<T>(a: seq<T>, b: seq<T>)
    requires b != [] && IsSubsequence(a, b[1..])
    ensures IsSubsequence(a, b)
  {
    if a != [] && a[0] == b[0] {
      SkipHead(a, b[1..]);
    }
  }

  lemma {:induction false} SkipHead<T>(a: seq<T>, b: seq<T>)
    requires a != [] && IsSubsequence(a, b)
    ensures IsSubsequence(a[1..], b)
  {
    if b != [] {
      if a[0] == b[0] {
        if a[1..] != [] {
          SkipHead(a[1..], b[1..]);
          SkipOne(a[1..], b);
        }
      } else {
        SkipHead(a, b[1..]);
        SkipOne(a[1..], b);
      }
    }
  }

  /** When every element passes, filtering changes nothing. */
  lemma {:induction false} FilterAll<T>(xs: seq<T>, keep: T -> bool)
    requires forall x :: x in xs ==> keep(x)
    ensures Filter(xs, keep) == xs
  {
    if xs != [] {
      FilterAll(xs[1..], keep);
    }
  }

  /** The position of the first occurrence of `x` in `xs`. */
  function FirstIndex<T(==)>(xs: seq<T>, x: T): (i: nat)
    requires x in xs
    ensures i < |xs| && xs[i] == x && x !in xs[..i]
  {
    if xs[0] == x then 0 else 1 + FirstIndex(xs[1..], x)
  }

  lemma {:induction false} FirstIndexAppend<T>(p: seq<T>, q: seq<T>, x: T)
    requires x in p + q
    ensures x in p ==> FirstIndex(p + q, x) == FirstIndex(p, x)
    ensures x !in p ==> FirstIndex(p + q, x) == |p| + FirstIndex(q, x)
  {
    if p != [] && p[0] != x {
      assert (p + q)[1..] == p[1..] + q;
      FirstIndexAppend(p[1..], q, x);
    } else if p == [] {
      assert p + q == q;
    }
  }

  /** `[...new Set(xs)]`: the distinct elements of `xs`, in the order of their
      first occurrence. */
  function Distinct<T(==)>(xs: seq<T>): (r: seq<T>)
    ensures |r| <= |xs|
  {
    if xs == [] then []
    else
      var d := Distinct(xs[..|xs| - 1]);
      if xs[|xs| - 1] in d then d else d + [xs[|xs| - 1]]
  }

  lemma {:induction false} DistinctHas<T>(xs: seq<T>, x: T)
    ensures x in Distinct(xs) <==> x in xs
  {
    if xs != [] {
      assert xs == xs[..|xs| - 1] + [xs[|xs| - 1]];
      DistinctHas(xs[..|xs| - 1], x);
    }
  }

  /** The distinct list has the same elements as the list. */
  lemma DistinctMembership<T>(xs: seq<T>)
    ensures forall x :: x in Distinct(xs) <==> x in xs
  {
    forall x ensures x in Distinct(xs) <==> x in xs {
      DistinctHas(xs, x);
    }
  }

  /** The distinct list holds each element once. */
  lemma {:induction false} DistinctNoDuplicates<T>(xs: seq<T>)
    ensures forall i, j :: 0 <= i < j < |Distinct(xs)| ==> Distinct(xs)[i] != Distinct(xs)[j]
  {
    if xs != [] {
      DistinctNoDuplicates(xs[..|xs| - 1]);
    }
  }

  /** The elements at positions `i` and `j` of `d` occur in `xs`, and the
      first occurrence of the one at `i` comes first. */
  predicate PairInOrder<T(==)>(d: seq<T>, xs: seq<T>, i: nat, j: nat)
    requires i < j < |d|
  {
    d[i] in xs && d[j] in xs && FirstIndex(xs, d[i]) < FirstIndex(xs, d[j])
  }

  /** The elements of `d` occur in `xs`, and their first occurrences there
      are in the order in which `d` lists them. */
  predicate InFirstOccurrenceOrder<T(==)>(d: seq<T>, xs: seq<T>)
  {
    forall i: nat, j: nat :: i < j < |d| ==> PairInOrder(d, xs, i, j)
  }

  /** Two positions of the distinct list hold elements of `xs` whose first
      occurrences are in the same order. */
  lemma {:induction false} DistinctPairOrder<T>(xs: seq<T>, i: nat, j: nat)
    requires i < j < |Distinct(xs)|
    ensures Distinct(xs)[i] in xs && Distinct(xs)[j] in xs
    ensures FirstIndex(xs, Distinct(xs)[i]) < FirstIndex(xs, Distinct(xs)[j])
  {
    var init, last := xs[..|xs| - 1], xs[|xs| - 1];
    assert xs == init + [last];
    var d, r := Distinct(init), Distinct(xs);
    assert r[i] == d[i] && d[i] in d;
    DistinctHas(init, d[i]);
    FirstIndexAppend(init, [last], d[i]);
    if j < |d| {
      DistinctPairOrder(init, i, j);
      assert r[j] == d[j] && d[j] in d;
      DistinctHas(init, d[j]);
      FirstIndexAppend(init, [last], d[j]);
    } else {
      assert r[j] == last && last !in d;
      DistinctHas(init, last);
      FirstIndexAppend(init, [last], last);
    }
  }

  /** The distinct list is in the order in which its elements first occur. */
  lemma DistinctFirstOccurrenceOrder<T>(xs: seq<T>)
    ensures InFirstOccurrenceOrder(Distinct(xs), xs)
  {
    forall i: nat, j: nat | i < j < |Distinct(xs)| ensures PairInOrder(Distinct(xs), xs, i, j) {
      DistinctPairOrder(xs, i, j);
    }
  }
}
