/** A stable sort by a "goes before" relation, standing for `Array.prototype.sort`. */
module Sorting {
  function Insert<T>(x: T, xs: seq<T>, before: (T, T) -> bool): seq<T>
  {
    if |xs| == 0 || !before(xs[0], x) then [x] + xs else [xs[0]] + Insert(x, xs[1..], before)
  }

  function Sort<T>(xs: seq<T>, before: (T, T) -> bool): seq<T>
  {
    if |xs| == 0 then [] else Insert(xs[0], Sort(xs[1..], before), before)
  }

  lemma {:induction false} InsertPermutes<T>(x: T, xs: seq<T>, before: (T, T) -> bool)
    ensures multiset(Insert(x, xs, before)) == multiset{x} + multiset(xs)
  {
    if |xs| == 0 || !before(xs[0], x) {
    } else {
      InsertPermutes(x, xs[1..], before);
      assert xs == [xs[0]] + xs[1..];
    }
  }

  /** Whatever the comparator answers, sorting only permutes. */
  lemma {:induction false} SortPermutes<T>(xs: seq<T>, before: (T, T) -> bool)
    ensures multiset(Sort(xs, before)) == multiset(xs)
    ensures |Sort(xs, before)| == |xs|
  {
    if |xs| > 0 {
      SortPermutes(xs[1..], before);
      InsertPermutes(xs[0], Sort(xs[1..], before), before);
      assert xs == [xs[0]] + xs[1..];
    }
    assert |Sort(xs, before)| == |multiset(Sort(xs, before))| == |multiset(xs)| == |xs|;
  }

  /** The comparator is a strict weak order, which is what `sort` asks of it. */
  ghost predicate StrictWeakOrder<T(!new)>(before: (T, T) -> bool)
  {
    && (forall x, y :: before(x, y) ==> !before(y, x))
    && (forall x, y, z :: !before(y, x) && !before(z, y) ==> !before(z, x))
  }

  /** No element goes before an earlier one. */
  ghost predicate Sorted<T>(xs: seq<T>, before: (T, T) -> bool)
  {
    forall i, j :: 0 <= i < j < |xs| ==> !before(xs[j], xs[i])
  }

  lemma {:induction false} InsertSorts<T(!new)>(x: T, xs: seq<T>, before: (T, T) -> bool)
    requires StrictWeakOrder(before) && Sorted(xs, before)
    ensures Sorted(Insert(x, xs, before), before)
  {
    if |xs| == 0 {
    } else if !before(xs[0], x) {
      forall j | 0 <= j < |xs| ensures !before(xs[j], x) {
        if j > 0 { assert !before(xs[j], xs[0]); }
      }
    } else {
      var rest := Insert(x, xs[1..], before);
      InsertSorts(x, xs[1..], before);
      InsertPermutes(x, xs[1..], before);
      forall j | 0 <= j < |rest| ensures !before(rest[j], xs[0]) {
        assert rest[j] in multiset(rest);
        if rest[j] != x { assert rest[j] in xs[1..]; }
      }
    }
  }

  lemma {:induction false} SortSorts<T(!new)>(xs: seq<T>, before: (T, T) -> bool)
    requires StrictWeakOrder(before)
    ensures Sorted(Sort(xs, before), before)
  {
    if |xs| > 0 {
      SortSorts(xs[1..], before);
      InsertSorts(xs[0], Sort(xs[1..], before), before);
    }
  }
}
