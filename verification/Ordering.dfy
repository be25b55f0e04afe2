/** Sorting by a key order, and why the sorted form of a collection is unique: insertion by rank, the
    same result for every order of arrival, collecting with a choice function, and the removal of repeated
    values. Every component that sorts, ranks or filters a list uses these facts. */
module Ordering {
  import opened Prelude

  /** Text order by code point. */
  predicate TextLeq(a: string, b: string) {
    a == "" || (b != "" && (a[0] < b[0] || (a[0] == b[0] && TextLeq(a[1..], b[1..]))))
  }

  lemma {:induction false} TextLeqTotal(a: string, b: string)
    ensures TextLeq(a, b) || TextLeq(b, a)
  {
    if a != "" && b != "" {
      TextLeqTotal(a[1..], b[1..]);
    }
  }

  lemma {:induction false} TextLeqAntisymmetric(a: string, b: string)
    requires TextLeq(a, b) && TextLeq(b, a)
    ensures a == b
  {
    if a != "" {
      TextLeqAntisymmetric(a[1..], b[1..]);
      assert a == [a[0]] + a[1..] && b == [b[0]] + b[1..];
    }
  }

  lemma {:induction false} TextLeqTransitive(a: string, b: string, c: string)
    requires TextLeq(a, b) && TextLeq(b, c)
    ensures TextLeq(a, c)
  {
    if a != "" && a[0] == b[0] && b[0] == c[0] {
      TextLeqTransitive(a[1..], b[1..], c[1..]);
    }
  }

  ghost predicate Transitive<T(!new)>(leq: (T, T) -> bool) {
    forall x, y, z :: leq(x, y) && leq(y, z) ==> leq(x, z)
  }

  ghost predicate Total<T(!new)>(leq: (T, T) -> bool) {
    forall x, y :: leq(x, y) || leq(y, x)
  }

  /** No two different listed elements are equivalent under the order. */
  ghost predicate Separated<T>(leq: (T, T) -> bool, xs: seq<T>) {
    forall x, y :: x in xs && y in xs && leq(x, y) && leq(y, x) ==> x == y
  }

  predicate SortedBy<T>(leq: (T, T) -> bool, xs: seq<T>) {
    forall i, j :: 0 <= i < j < |xs| ==> leq(xs[i], xs[j])
  }

  function Insert<T>(leq: (T, T) -> bool, x: T, xs: seq<T>): (ys: seq<T>)
    ensures multiset(ys) == multiset(xs) + multiset{x}
  {
    if xs == [] then [x]
    else if leq(x, xs[0]) then [x] + xs
    else
      assert xs == [xs[0]] + xs[1..];
      [xs[0]] + Insert(leq, x, xs[1..])
  }

  function Sort<T>(leq: (T, T) -> bool, xs: seq<T>): (ys: seq<T>)
    ensures multiset(ys) == multiset(xs)
  {
    if xs == [] then []
    else
      assert xs == [xs[0]] + xs[1..];
      Insert(leq, xs[0], Sort(leq, xs[1..]))
  }

  lemma SameMembers<T>(xs: seq<T>, ys: seq<T>)
    requires multiset(xs) == multiset(ys)
    ensures |xs| == |ys|
    ensures forall x :: x in xs <==> x in ys
  {
    assert |multiset(xs)| == |xs| && |multiset(ys)| == |ys|;
    forall x ensures x in xs <==> x in ys {
      assert x in xs <==> x in multiset(xs);
      assert x in ys <==> x in multiset(ys);
    }
  }

  lemma {:induction false} InsertSorted<T(!new)>(leq: (T, T) -> bool, x: T, xs: seq<T>)
    requires Transitive(leq) && Total(leq) && SortedBy(leq, xs)
    ensures SortedBy(leq, Insert(leq, x, xs))
  {
    if xs != [] && !leq(x, xs[0]) {
      var rest := Insert(leq, x, xs[1..]);
      InsertSorted(leq, x, xs[1..]);
      forall j | 0 <= j < |rest| ensures leq(xs[0], rest[j]) {
        assert rest[j] in multiset(rest);
        assert rest[j] == x || rest[j] in multiset(xs[1..]);
      }
    }
  }

  lemma {:induction false} SortSorts<T(!new)>(leq: (T, T) -> bool, xs: seq<T>)
    requires Transitive(leq) && Total(leq)
    ensures SortedBy(leq, Sort(leq, xs))
  {
    if xs != [] {
      SortSorts(leq, xs[1..]);
      InsertSorted(leq, xs[0], Sort(leq, xs[1..]));
    }
  }

  lemma HeadIsLeast<T(!new)>(leq: (T, T) -> bool, xs: seq<T>, x: T)
    requires Total(leq) && SortedBy(leq, xs) && x in xs
    ensures leq(xs[0], x)
  {
    var i :| 0 <= i < |xs| && xs[i] == x;
    assert leq(x, x);
  }

  lemma SameHead<T(!new)>(leq: (T, T) -> bool, xs: seq<T>, ys: seq<T>)
    requires Total(leq) && SortedBy(leq, xs) && SortedBy(leq, ys) && xs != []
    requires Separated(leq, xs) && multiset(xs) == multiset(ys)
    ensures ys != [] && xs[0] == ys[0]
    ensures multiset(xs[1..]) == multiset(ys[1..])
  {
    SameMembers(xs, ys);
    assert xs[0] in ys && ys[0] in xs;
    HeadIsLeast(leq, ys, xs[0]);
    HeadIsLeast(leq, xs, ys[0]);
    hide Total, SortedBy, Separated;
    RestOf(xs);
    RestOf(ys);
  }

  lemma RestOf<T>(xs: seq<T>)
    requires xs != []
    ensures multiset(xs[1..]) == multiset(xs) - multiset{xs[0]}
  {
    assert xs == [xs[0]] + xs[1..];
  }

  /** Two sorted arrangements of the same separated elements are the same. */
  lemma {:induction false} SortedIsUnique<T(!new)>(leq: (T, T) -> bool, xs: seq<T>, ys: seq<T>)
    requires Total(leq) && SortedBy(leq, xs) && SortedBy(leq, ys)
    requires Separated(leq, xs) && multiset(xs) == multiset(ys)
    ensures xs == ys
  {
    if xs == [] {
      SameMembers(xs, ys);
    } else {
      SameHead(leq, xs, ys);
      TailSeparated(leq, xs);
      SortedIsUnique(leq, xs[1..], ys[1..]);
      assert xs == [xs[0]] + xs[1..] && ys == [ys[0]] + ys[1..];
    }
  }

  lemma TailSeparated<T>(leq: (T, T) -> bool, xs: seq<T>)
    requires xs != [] && Separated(leq, xs)
    ensures Separated(leq, xs[1..])
  {
    assert forall x :: x in xs[1..] ==> x in xs;
  }

  /** Sorting does not depend on the order the elements arrive in. */
  lemma SortIgnoresArrival<T(!new)>(leq: (T, T) -> bool, xs: seq<T>, ys: seq<T>)
    requires Transitive(leq) && Total(leq) && Separated(leq, xs) && multiset(xs) == multiset(ys)
    ensures Sort(leq, xs) == Sort(leq, ys)
  {
    SortSorts(leq, xs);
    SortSorts(leq, ys);
    SameMembers(Sort(leq, xs), xs);
    SortedIsUnique(leq, Sort(leq, xs), Sort(leq, ys));
  }

  /** Taking the first of a sorted list out of its source leaves the sorted rest. */
  lemma SortWithoutFirst<T(!new)>(leq: (T, T) -> bool, xs: seq<T>, top: T)
    requires Transitive(leq) && Total(leq) && Separated(leq, xs + [top])
    requires |Sort(leq, xs + [top])| > 0 && Sort(leq, xs + [top])[0] == top
    ensures Sort(leq, xs) == Sort(leq, xs + [top])[1..]
  {
    var sorted := Sort(leq, xs + [top]);
    hide Sort;
    SortSorts(leq, xs);
    SortSorts(leq, xs + [top]);
    assert sorted == [top] + sorted[1..];
    SameRemainder(xs, [], sorted[1..], top);
    SameMembers(Sort(leq, xs), xs);
    assert [] + sorted[1..] == sorted[1..];
    SortedIsUnique(leq, Sort(leq, xs), sorted[1..]);
  }

  lemma TextOrder(xs: seq<string>)
    ensures Transitive(TextLeq) && Total(TextLeq) && Separated(TextLeq, xs)
  {
    forall x, y ensures TextLeq(x, y) || TextLeq(y, x) {
      TextLeqTotal(x, y);
    }
    forall x, y | TextLeq(x, y) && TextLeq(y, x) ensures x == y {
      TextLeqAntisymmetric(x, y);
    }
    forall x, y, z | TextLeq(x, y) && TextLeq(y, z) ensures TextLeq(x, z) {
      TextLeqTransitive(x, y, z);
    }
  }

  // ----- Selecting from a list

  /** The values a partial function takes along a list, in order: a comprehension with a condition. */
  function Collect<A, B>(pick: A -> Option<B>, xs: seq<A>): seq<B> {
    if xs == [] then []
    else Collect(pick, xs[..|xs| - 1]) + Picked(pick(xs[|xs| - 1]))
  }

  function Picked<B>(choice: Option<B>): seq<B> {
    if choice.Some? then [choice.value] else []
  }

  lemma {:induction false} CollectMembers<A, B>(pick: A -> Option<B>, xs: seq<A>)
    ensures forall y :: y in Collect(pick, xs) ==> exists x :: x in xs && pick(x) == Some(y)
    ensures forall x :: x in xs && pick(x).Some? ==> pick(x).value in Collect(pick, xs)
  {
    if xs != [] {
      CollectMembers(pick, xs[..|xs| - 1]);
      assert xs == xs[..|xs| - 1] + [xs[|xs| - 1]];
    }
  }

  lemma CollectOne<A, B>(pick: A -> Option<B>, x: A)
    ensures Collect(pick, [x]) == Picked(pick(x))
  {
    assert [x][..0] == [];
    assert Collect(pick, [x][..0]) == [];
  }

  lemma CollectMore<A, B>(pick: A -> Option<B>, xs: seq<A>, x: A)
    ensures Collect(pick, xs + [x]) == Collect(pick, xs) + Picked(pick(x))
  {
    assert (xs + [x])[..|xs|] == xs;
  }

  lemma {:induction false} CollectConcat<A, B>(pick: A -> Option<B>, xs: seq<A>, ys: seq<A>)
    ensures Collect(pick, xs + ys) == Collect(pick, xs) + Collect(pick, ys)
    decreases |ys|
  {
    if ys == [] {
      assert xs + ys == xs;
    } else {
      hide Collect;
      var rest, last := ys[..|ys| - 1], ys[|ys| - 1];
      assert rest + [last] == ys;
      CollectConcat(pick, xs, rest);
      ConcatMore(pick, xs, rest, last);
    }
  }

  lemma ConcatMore<A, B>(pick: A -> Option<B>, xs: seq<A>, ys: seq<A>, y: A)
    requires Collect(pick, xs + ys) == Collect(pick, xs) + Collect(pick, ys)
    ensures Collect(pick, xs + (ys + [y])) == Collect(pick, xs) + Collect(pick, ys + [y])
  {
    hide Collect;
    CollectMore(pick, xs + ys, y);
    CollectMore(pick, ys, y);
    Regroup(xs, ys, [y]);
    Regroup(Collect(pick, xs), Collect(pick, ys), Picked(pick(y)));
  }

  function PickedTwice<B, C>(choice: Option<B>, pick: B -> Option<C>): seq<C> {
    if choice.Some? then Picked(pick(choice.value)) else []
  }

  lemma CollectTwice<A, B, C>(pick: A -> Option<B>, pick': B -> Option<C>, rest: seq<A>, last: A)
    ensures Collect(pick', Collect(pick, rest + [last]))
      == Collect(pick', Collect(pick, rest)) + PickedTwice(pick(last), pick')
  {
    CollectMore(pick, rest, last);
    if pick(last).Some? {
      CollectMore(pick', Collect(pick, rest), pick(last).value);
    } else {
      assert Collect(pick, rest) + [] == Collect(pick, rest);
    }
  }

  /** Which values are collected, and how often, does not depend on the order of the list. */
  lemma {:induction false} CollectIgnoresOrder<A, B>(pick: A -> Option<B>, xs: seq<A>, ys: seq<A>)
    requires multiset(xs) == multiset(ys)
    ensures multiset(Collect(pick, xs)) == multiset(Collect(pick, ys))
    decreases |xs|
  {
    SameMembers(xs, ys);
    if xs != [] {
      var rest, last := xs[..|xs| - 1], xs[|xs| - 1];
      assert xs == rest + [last] && last in ys;
      var i :| 0 <= i < |ys| && ys[i] == last;
      var before, after := ys[..i], ys[i + 1..];
      assert ys == before + [last] + after;
      SameRemainder(rest, before, after, last);
      hide Collect;
      CollectIgnoresOrder(pick, rest, before + after);
      CollectMore(pick, rest, last);
      CollectConcat(pick, before, after);
      CollectMore(pick, before, last);
      CollectConcat(pick, before + [last], after);
    }
  }

  lemma SameRemainder<T>(rest: seq<T>, before: seq<T>, after: seq<T>, x: T)
    requires multiset(rest + [x]) == multiset(before + [x] + after)
    ensures multiset(rest) == multiset(before + after)
  {
    assert multiset(rest) == multiset(rest + [x]) - multiset{x};
    assert multiset(before + after) == multiset(before + [x] + after) - multiset{x};
  }

  lemma CollectNothing<A, B>(pick: A -> Option<B>)
    ensures Collect(pick, []) == []
  {
  }

  lemma CollectedWhen<A, B>(pick: A -> Option<B>, xs: seq<A>)
    ensures Collect(pick, xs) != [] <==> exists x :: x in xs && pick(x).Some?
  {
    CollectMembers(pick, xs);
    hide Collect;
    if Collect(pick, xs) != [] {
      assert Collect(pick, xs)[0] in Collect(pick, xs);
    }
  }

  lemma CollectPair<A, B>(pick: A -> Option<B>, x: A, y: A)
    ensures Collect(pick, [x, y]) == Picked(pick(x)) + Picked(pick(y))
  {
    CollectOne(pick, x);
    assert [x, y] == [x] + [y];
    CollectMore(pick, [x], y);
  }

  lemma SortOne<T>(leq: (T, T) -> bool, x: T)
    ensures Sort(leq, [x]) == [x]
  {
    assert [x][1..] == [];
    assert Sort(leq, [x][1..]) == [];
  }

  // ----- Lists without repetition

  /** A list is as long as the set of its values exactly when no value repeats. */
  lemma {:induction false} DistinctCount<T>(xs: seq<T>)
    ensures |Elements(xs)| <= |xs|
    ensures |Elements(xs)| == |xs| <==> Distinct(xs)
  {
    if xs != [] {
      var rest, last := xs[..|xs| - 1], xs[|xs| - 1];
      assert xs == rest + [last];
      DistinctCount(rest);
      assert Elements(xs) == Elements(rest) + {last};
      assert last in rest ==> exists i :: 0 <= i < |rest| && rest[i] == xs[|rest|];
    }
  }

  /** The first occurrence of every value, in order. */
  function Dedup<T(==, !new)>(xs: seq<T>): (ys: seq<T>)
    ensures Distinct(ys)
    ensures forall x :: x in ys <==> x in xs
  {
    if xs == [] then []
    else
      var rest, last := xs[..|xs| - 1], xs[|xs| - 1];
      assert xs == rest + [last];
      if last in rest then Dedup(rest) else Dedup(rest) + [last]
  }

  lemma {:induction false} DistinctMultiset<T>(xs: seq<T>)
    requires Distinct(xs)
    ensures multiset(xs) == multiset(Elements(xs))
  {
    if xs != [] {
      var rest, last := xs[..|xs| - 1], xs[|xs| - 1];
      assert xs == rest + [last];
      DistinctMultiset(rest);
      assert Elements(xs) == Elements(rest) + {last};
    }
  }

  /** Two lists with the same values have the same sorted list of distinct values. */
  lemma SameElementsSameSort(xs: seq<string>, ys: seq<string>)
    requires Elements(xs) == Elements(ys)
    ensures Sort(TextLeq, Dedup(xs)) == Sort(TextLeq, Dedup(ys))
  {
    TextOrder(Dedup(xs));
    DistinctMultiset(Dedup(xs));
    DistinctMultiset(Dedup(ys));
    assert Elements(Dedup(xs)) == Elements(xs) && Elements(Dedup(ys)) == Elements(ys);
    SortIgnoresArrival(TextLeq, Dedup(xs), Dedup(ys));
  }
}
