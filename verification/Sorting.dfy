/** A stable sort, as `list.sort` with a key: equal elements keep their order. */
module Sorting {
  import opened Records

  /** A stable insertion: the new element goes after everything it does not precede. */
  function Insert<T>(sorted: seq<T>, x: T, precedes: (T, T) -> bool): seq<T> {
    if sorted == [] || !precedes(x, sorted[|sorted| - 1]) then sorted + [x]
    else Insert(sorted[..|sorted| - 1], x, precedes) + [sorted[|sorted| - 1]]
  }

  function StableSort<T>(xs: seq<T>, precedes: (T, T) -> bool): seq<T> {
    if xs == [] then []
    else Insert(StableSort(xs[..|xs| - 1], precedes), xs[|xs| - 1], precedes)
  }

  lemma {:induction false} SortKeepsOrdered<T>(xs: seq<T>, precedes: (T, T) -> bool)
    requires forall i, j | 0 <= i < j < |xs| :: !precedes(xs[j], xs[i])
    ensures StableSort(xs, precedes) == xs
  {
    if xs != [] {
      var n := |xs| - 1;
      SortKeepsOrdered(xs[..n], precedes);
      assert xs == xs[..n] + [xs[n]];
    }
  }

  lemma {:induction false} InsertMembers<T>(sorted: seq<T>, x: T, precedes: (T, T) -> bool)
    ensures forall y :: y in Insert(sorted, x, precedes) <==> y == x || y in sorted
  {
    if sorted != [] && precedes(x, sorted[|sorted| - 1]) {
      var n := |sorted| - 1;
      assert sorted == sorted[..n] + [sorted[n]];
      InsertMembers(sorted[..n], x, precedes);
    }
  }

  lemma {:induction false} SortMembers<T>(xs: seq<T>, precedes: (T, T) -> bool)
    ensures forall y :: y in StableSort(xs, precedes) <==> y in xs
  {
    if xs != [] {
      var n := |xs| - 1;
      assert xs == xs[..n] + [xs[n]];
      SortMembers(xs[..n], precedes);
      InsertMembers(StableSort(xs[..n], precedes), xs[n], precedes);
    }
  }

  lemma {:induction false} InsertAdds<T>(sorted: seq<T>, x: T, precedes: (T, T) -> bool)
    ensures multiset(Insert(sorted, x, precedes)) == multiset(sorted) + multiset{x}
  {
    if sorted != [] && precedes(x, sorted[|sorted| - 1]) {
      var n := |sorted| - 1;
      assert sorted == sorted[..n] + [sorted[n]];
      InsertAdds(sorted[..n], x, precedes);
    }
  }

  /** Sorting loses and repeats nothing. */
  lemma {:induction false} SortPermutes<T>(xs: seq<T>, precedes: (T, T) -> bool)
    ensures multiset(StableSort(xs, precedes)) == multiset(xs)
  {
    if xs != [] {
      var n := |xs| - 1;
      assert xs == xs[..n] + [xs[n]];
      SortPermutes(xs[..n], precedes);
      InsertAdds(StableSort(xs[..n], precedes), xs[n], precedes);
    }
  }

  // ----- sorting orders -----

  /** Preceding is an order up to ties. */
  ghost predicate Orders<T(!new)>(precedes: (T, T) -> bool) {
    && (forall a, b :: precedes(a, b) ==> !precedes(b, a))
    && (forall a, b, c :: !precedes(b, a) && !precedes(c, b) ==> !precedes(c, a))
  }

  ghost predicate IsSorted<T>(xs: seq<T>, precedes: (T, T) -> bool) {
    forall i, j | 0 <= i < j < |xs| :: !precedes(xs[j], xs[i])
  }

  lemma {:induction false} InsertSorts<T(!new)>(sorted: seq<T>, x: T, precedes: (T, T) -> bool)
    requires Orders(precedes) && IsSorted(sorted, precedes)
    ensures IsSorted(Insert(sorted, x, precedes), precedes)
  {
    if sorted != [] {
      var n := |sorted| - 1;
      var front, last := sorted[..n], sorted[n];
      if precedes(x, last) {
        InsertSorts(front, x, precedes);
        InsertMembers(front, x, precedes);
        var more := Insert(front, x, precedes);
        forall i | 0 <= i < |more| ensures !precedes(last, more[i]) {
          assert more[i] in more;
        }
      } else {
        forall i | 0 <= i < n ensures !precedes(x, sorted[i]) {
          assert !precedes(last, sorted[i]);
        }
      }
    }
  }

  /** A sorted list has no element before one that precedes it. */
  lemma {:induction false} SortSorts<T(!new)>(xs: seq<T>, precedes: (T, T) -> bool)
    requires Orders(precedes)
    ensures IsSorted(StableSort(xs, precedes), precedes)
  {
    if xs != [] {
      SortSorts(xs[..|xs| - 1], precedes);
      InsertSorts(StableSort(xs[..|xs| - 1], precedes), xs[|xs| - 1], precedes);
    }
  }

  lemma DistinctSnoc<T>(xs: seq<T>, x: T)
    requires Distinct(xs) && x !in xs
    ensures Distinct(xs + [x])
  {
  }

  lemma {:induction false} InsertDistinct<T>(sorted: seq<T>, x: T, precedes: (T, T) -> bool)
    requires x !in sorted && Distinct(sorted)
    ensures Distinct(Insert(sorted, x, precedes))
  {
    if sorted != [] && precedes(x, sorted[|sorted| - 1]) {
      var n := |sorted| - 1;
      InsertDistinct(sorted[..n], x, precedes);
      InsertMembers(sorted[..n], x, precedes);
      DistinctSnoc(Insert(sorted[..n], x, precedes), sorted[n]);
    } else {
      DistinctSnoc(sorted, x);
    }
  }

  lemma {:induction false} SortDistinct<T>(xs: seq<T>, precedes: (T, T) -> bool)
    requires Distinct(xs)
    ensures Distinct(StableSort(xs, precedes))
  {
    if xs != [] {
      var n := |xs| - 1;
      SortDistinct(xs[..n], precedes);
      SortMembers(xs[..n], precedes);
      assert xs[n] !in xs[..n];
      InsertDistinct(StableSort(xs[..n], precedes), xs[n], precedes);
    }
  }

  // ----- sorting by a flag -----

  function Filter<T>(xs: seq<T>, p: T -> bool): seq<T> {
    if xs == [] then []
    else Filter(xs[..|xs| - 1], p) + if p(xs[|xs| - 1]) then [xs[|xs| - 1]] else []
  }

  lemma {:induction false} FilterConcat<T>(left: seq<T>, right: seq<T>, p: T -> bool)
    ensures Filter(left + right, p) == Filter(left, p) + Filter(right, p)
    decreases |right|
  {
    if right == [] {
      assert left + right == left;
    } else {
      assert (left + right)[..|left + right| - 1] == left + right[..|right| - 1];
      FilterConcat(left, right[..|right| - 1], p);
    }
  }

  lemma {:induction false} FilterMembers<T>(xs: seq<T>, p: T -> bool)
    ensures forall x :: x in Filter(xs, p) <==> x in xs && p(x)
  {
    if xs != [] {
      FilterMembers(xs[..|xs| - 1], p);
      assert xs == xs[..|xs| - 1] + [xs[|xs| - 1]];
    }
  }

  lemma {:induction false} FilterKept<T>(xs: seq<T>, p: T -> bool)
    requires forall x | x in xs :: p(x)
    ensures Filter(xs, p) == xs
  {
    if xs != [] {
      assert xs[|xs| - 1] in xs;
      FilterKept(xs[..|xs| - 1], p);
      assert xs == xs[..|xs| - 1] + [xs[|xs| - 1]];
    }
  }

  lemma {:induction false} FilterDropped<T>(xs: seq<T>, p: T -> bool)
    requires forall x | x in xs :: !p(x)
    ensures Filter(xs, p) == []
  {
    if xs != [] {
      assert xs[|xs| - 1] in xs;
      FilterDropped(xs[..|xs| - 1], p);
    }
  }

  lemma {:induction false} InsertPast<T>(front: seq<T>, back: seq<T>, x: T, precedes: (T, T) -> bool)
    requires forall b | b in back :: precedes(x, b)
    requires front == [] || !precedes(x, front[|front| - 1])
    ensures Insert(front + back, x, precedes) == front + [x] + back
    decreases |back|
  {
    if back == [] {
      assert front + back == front;
    } else {
      var n := |back| - 1;
      assert (front + back)[..|front + back| - 1] == front + back[..n];
      assert back[n] in back;
      InsertPast(front, back[..n], x, precedes);
      assert back == back[..n] + [back[n]];
    }
  }

  function Unless<T(!new)>(flag: T -> bool): (rest: T -> bool)
    ensures forall x :: rest(x) <==> !flag(x)
  {
    x => !flag(x)
  }

  ghost predicate ByFlag<T(!new)>(precedes: (T, T) -> bool, flag: T -> bool) {
    forall a, b :: precedes(a, b) <==> flag(a) && !flag(b)
  }

  lemma InsertByFlag<T(!new)>(first: seq<T>, rest: seq<T>, x: T, flag: T -> bool, precedes: (T, T) -> bool)
    requires ByFlag(precedes, flag)
    requires (forall a | a in first :: flag(a)) && forall b | b in rest :: !flag(b)
    ensures Insert(first + rest, x, precedes) == if flag(x) then first + [x] + rest else first + rest + [x]
  {
    if flag(x) {
      assert first != [] ==> first[|first| - 1] in first;
      InsertPast(first, rest, x, precedes);
    }
  }

  lemma FilterSnoc<T>(xs: seq<T>, p: T -> bool)
    requires xs != []
    ensures Filter(xs, p) == Filter(xs[..|xs| - 1], p) + if p(xs[|xs| - 1]) then [xs[|xs| - 1]] else []
  {
  }

  lemma FilterAll<T>(xs: seq<T>, p: T -> bool)
    ensures forall x | x in Filter(xs, p) :: p(x)
  {
  }

  /** Sorting by a flag is the stable partition: the flagged elements, then the others, each in their order. */
  lemma {:induction false} SortByFlag<T(!new)>(xs: seq<T>, flag: T -> bool, precedes: (T, T) -> bool)
    requires ByFlag(precedes, flag)
    ensures StableSort(xs, precedes) == Filter(xs, flag) + Filter(xs, Unless(flag))
  {
    if xs != [] {
      hide ByFlag, Insert, Filter;
      var n := |xs| - 1;
      var first, rest := Filter(xs[..n], flag), Filter(xs[..n], Unless(flag));
      FilterAll(xs[..n], flag);
      FilterAll(xs[..n], Unless(flag));
      SortByFlag(xs[..n], flag, precedes);
      InsertByFlag(first, rest, xs[n], flag, precedes);
      FilterSnoc(xs, flag);
      FilterSnoc(xs, Unless(flag));
    } else {
      assert Filter(xs, flag) == [] && Filter(xs, Unless(flag)) == [];
    }
  }
}
