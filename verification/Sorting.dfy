/** Sorted, duplicate-free listing under a strict total order, and least elements. */
module Sorting {
  ghost predicate StrictTotal<T(!new)>(lt: (T, T) -> bool) {
    && (forall x :: !lt(x, x))
    && (forall x, y, z :: lt(x, y) && lt(y, z) ==> lt(x, z))
    && (forall x, y :: x != y ==> lt(x, y) || lt(y, x))
  }

  ghost predicate Ascending<T>(xs: seq<T>, lt: (T, T) -> bool) {
    forall i, j :: 0 <= i < j < |xs| ==> lt(xs[i], xs[j])
  }

  function Elements<T>(xs: seq<T>): set<T> { set x | x in xs }

  function Insert<T(==)>(xs: seq<T>, x: T, lt: (T, T) -> bool): (r: seq<T>) {
    if xs == [] then [x]
    else if xs[0] == x then xs
    else if lt(x, xs[0]) then [x] + xs
    else [xs[0]] + Insert(xs[1..], x, lt)
  }

  /** `[...new Set(xs)].sort()`. */
  function SortUnique<T(==)>(xs: seq<T>, lt: (T, T) -> bool): (r: seq<T>) {
    if xs == [] then [] else Insert(SortUnique(xs[1..], lt), xs[0], lt)
  }

  lemma {:induction false} InsertSorted<T(!new)>(xs: seq<T>, x: T, lt: (T, T) -> bool)
    requires StrictTotal(lt) && Ascending(xs, lt)
    ensures Ascending(Insert(xs, x, lt), lt)
    ensures Elements(Insert(xs, x, lt)) == Elements(xs) + {x}
  {
    if xs != [] && xs[0] != x && !lt(x, xs[0]) {
      var rest := Insert(xs[1..], x, lt);
      InsertSorted(xs[1..], x, lt);
      forall y | y in rest ensures lt(xs[0], y) {
        assert y in Elements(rest);
        assert y in Elements(xs[1..]) + {x};
      }
      assert Elements([xs[0]] + rest) == {xs[0]} + Elements(rest);
      assert Elements(xs) == {xs[0]} + Elements(xs[1..]) by { assert xs == [xs[0]] + xs[1..]; }
    } else if xs != [] && xs[0] != x {
      assert Elements([x] + xs) == {x} + Elements(xs);
    }
  }

  lemma {:induction false} SortUniqueSorted<T(!new)>(xs: seq<T>, lt: (T, T) -> bool)
    requires StrictTotal(lt)
    ensures Ascending(SortUnique(xs, lt), lt) && Elements(SortUnique(xs, lt)) == Elements(xs)
  {
    if xs != [] {
      SortUniqueSorted(xs[1..], lt);
      InsertSorted(SortUnique(xs[1..], lt), xs[0], lt);
      assert xs == [xs[0]] + xs[1..];
    }
  }

  /** An ascending listing is determined by its elements. */
  lemma {:induction false} AscendingUnique<T(!new)>(xs: seq<T>, ys: seq<T>, lt: (T, T) -> bool)
    requires StrictTotal(lt) && Ascending(xs, lt) && Ascending(ys, lt) && Elements(xs) == Elements(ys)
    ensures xs == ys
  {
    assert ys != [] ==> ys[0] in Elements(xs);
    if xs == [] {
    } else {
      assert xs[0] in Elements(ys);
      assert ys != [];
      assert xs[0] == ys[0];
      forall z ensures z in Elements(xs[1..]) <==> z in Elements(ys[1..]) {
        if z in Elements(xs[1..]) { assert z in Elements(ys); assert z != ys[0]; }
        if z in Elements(ys[1..]) { assert z in Elements(xs); assert z != xs[0]; }
      }
      AscendingUnique(xs[1..], ys[1..], lt);
    }
  }

  /** The sorted, deduplicated listings agree exactly when the element sets do. */
  lemma SortUniqueIff<T(!new)>(xs: seq<T>, ys: seq<T>, lt: (T, T) -> bool)
    requires StrictTotal(lt)
    ensures SortUnique(xs, lt) == SortUnique(ys, lt) <==> Elements(xs) == Elements(ys)
  {
    SortUniqueSorted(xs, lt);
    SortUniqueSorted(ys, lt);
    if Elements(xs) == Elements(ys) { AscendingUnique(SortUnique(xs, lt), SortUnique(ys, lt), lt); }
  }

  /** The least of a nonempty list: the running `candidate < best`. */
  function Least<T>(xs: seq<T>, lt: (T, T) -> bool): (r: T)
    requires xs != []
  {
    if |xs| == 1 then xs[0]
    else
      var best := Least(xs[..|xs| - 1], lt);
      if lt(xs[|xs| - 1], best) then xs[|xs| - 1] else best
  }

  lemma {:induction false} LeastIsLeast<T(!new)>(xs: seq<T>, lt: (T, T) -> bool)
    requires StrictTotal(lt) && xs != []
    ensures Least(xs, lt) in xs && forall x :: x in xs ==> x == Least(xs, lt) || lt(Least(xs, lt), x)
  {
    if |xs| > 1 {
      LeastIsLeast(xs[..|xs| - 1], lt);
      assert xs == xs[..|xs| - 1] + [xs[|xs| - 1]];
    }
  }

  lemma LeastOfSame<T(!new)>(xs: seq<T>, ys: seq<T>, lt: (T, T) -> bool)
    requires StrictTotal(lt) && xs != [] && ys != [] && Elements(xs) == Elements(ys)
    ensures Least(xs, lt) == Least(ys, lt)
  {
    LeastIsLeast(xs, lt);
    LeastIsLeast(ys, lt);
    assert Least(xs, lt) in Elements(ys) && Least(ys, lt) in Elements(xs);
  }
}
