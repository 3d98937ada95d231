/** All permutations of each group, concatenated in group order: complete, without repeats, counted. */
module Permutations {
  ghost predicate NoDup<T>(xs: seq<T>) {
    forall i, j :: 0 <= i < j < |xs| ==> xs[i] != xs[j]
  }

  function Fact(n: nat): nat { if n < 2 then 1 else n * Fact(n - 1) }

  method Factorial(value: nat) returns (result: nat)
    ensures result == Fact(value)
  {
    result := 1;
    var n := 2;
    while n <= value
      invariant 2 <= n && (n <= value + 1 || n == 2)
      invariant result == Fact(n - 1)
    {
      result := result * n;
      n := n + 1;
    }
  }

  function Without<T>(values: seq<T>, index: nat): seq<T>
    requires index < |values|
  {
    values[..index] + values[index + 1..]
  }

  function Prefixed<T>(prefix: seq<T>, rests: seq<seq<T>>): (r: seq<seq<T>>)
    ensures |r| == |rests| && forall i :: 0 <= i < |r| ==> r[i] == prefix + rests[i]
  {
    seq(|rests|, i requires 0 <= i < |rests| => prefix + rests[i])
  }

  function Perms<T>(values: seq<T>): seq<seq<T>>
    decreases |values|, |values| + 1
  {
    if |values| < 2 then [values] else PermsFrom(values, 0)
  }

  /** The permutations that start with the value at `index` or a later one. */
  function PermsFrom<T>(values: seq<T>, index: nat): seq<seq<T>>
    requires index <= |values|
    decreases |values|, |values| - index
  {
    if index == |values| then []
    else Prefixed([values[index]], Perms(Without(values, index))) + PermsFrom(values, index + 1)
  }

  lemma WithoutMultiset<T>(values: seq<T>, index: nat)
    requires index < |values|
    ensures multiset(values) == multiset(Without(values, index)) + multiset{values[index]}
    ensures |Without(values, index)| == |values| - 1
  {
    assert values == values[..index] + [values[index]] + values[index + 1..];
  }

  lemma WithoutNoDup<T>(values: seq<T>, index: nat)
    requires index < |values| && NoDup(values)
    ensures NoDup(Without(values, index)) && values[index] !in Without(values, index)
  {}

  /** `p` is the value at `i` followed by a permutation of the others. */
  ghost predicate StartsAt<T>(values: seq<T>, i: nat, p: seq<T>)
    requires i < |values|
  {
    p != [] && p[0] == values[i] && multiset(p[1..]) == multiset(Without(values, i))
  }

  lemma SplitHead<T>(p: seq<T>)
    requires p != []
    ensures multiset(p) == multiset{p[0]} + multiset(p[1..])
  {
    assert p == [p[0]] + p[1..];
  }

  /** A rearrangement starts with one of the values, and continues with the others. */
  lemma StartsSomewhere<T>(values: seq<T>, p: seq<T>)
    requires values != []
    ensures multiset(p) == multiset(values) <==> exists i :: 0 <= i < |values| && StartsAt(values, i, p)
  {
    if multiset(p) == multiset(values) {
      assert |multiset(p)| == |p| && |multiset(values)| == |values|;
      SplitHead(p);
      assert p[0] in multiset(values);
      var i :| 0 <= i < |values| && values[i] == p[0];
      WithoutMultiset(values, i);
      assert multiset(p[1..]) == multiset(values) - multiset{p[0]};
      assert StartsAt(values, i, p);
    }
    if i :| 0 <= i < |values| && StartsAt(values, i, p) {
      WithoutMultiset(values, i);
      SplitHead(p);
    }
  }

  lemma SmallExact<T>(values: seq<T>, p: seq<T>)
    requires |values| < 2
    ensures p in [values] <==> multiset(p) == multiset(values)
  {
    if multiset(p) == multiset(values) {
      assert |multiset(p)| == |p| && |multiset(values)| == |values|;
      if |values| == 1 {
        assert p == [p[0]] && values == [values[0]];
        assert p[0] in multiset(values);
      }
    }
  }

  /** The enumeration is exactly the permutations of its values. */
  lemma {:induction false} PermsExact<T>(values: seq<T>, p: seq<T>)
    ensures p in Perms(values) <==> multiset(p) == multiset(values)
    decreases |values|, |values| + 1
  {
    if |values| < 2 {
      SmallExact(values, p);
    } else {
      PermsFromExact(values, 0, p);
      StartsSomewhere(values, p);
    }
  }

  lemma {:induction false} PermsFromExact<T>(values: seq<T>, index: nat, p: seq<T>)
    requires index <= |values|
    ensures p in PermsFrom(values, index) <==> exists i :: index <= i < |values| && StartsAt(values, i, p)
    decreases |values|, |values| - index
  {
    if index < |values| {
      PermsFromExact(values, index + 1, p);
      BlockExact(values, index, p);
      assert (exists i :: index <= i < |values| && StartsAt(values, i, p))
        <==> StartsAt(values, index, p) || (exists i :: index + 1 <= i < |values| && StartsAt(values, i, p));
    }
  }

  lemma {:induction false} BlockExact<T>(values: seq<T>, index: nat, p: seq<T>)
    requires index < |values|
    ensures p in Prefixed([values[index]], Perms(Without(values, index))) <==> StartsAt(values, index, p)
    decreases |values|, 0
  {
    WithoutMultiset(values, index);
    PrefixedIn([values[index]], Perms(Without(values, index)), p);
    if p != [] {
      PermsExact(Without(values, index), p[1..]);
      assert p[..1] == [p[0]];
    }
  }

  lemma PrefixedIn<T>(prefix: seq<T>, rests: seq<seq<T>>, p: seq<T>)
    ensures p in Prefixed(prefix, rests) <==> (|p| >= |prefix| && p[..|prefix|] == prefix && p[|prefix|..] in rests)
  {
    var r := Prefixed(prefix, rests);
    if p in r {
      var i :| 0 <= i < |r| && r[i] == p;
      assert p == prefix + rests[i];
    }
    if |p| >= |prefix| && p[..|prefix|] == prefix && p[|prefix|..] in rests {
      var i :| 0 <= i < |rests| && rests[i] == p[|prefix|..];
      assert p == prefix + rests[i] == r[i];
    }
  }

  lemma {:induction false} PermsCount<T>(values: seq<T>)
    ensures |Perms(values)| == Fact(|values|)
    decreases |values|, |values| + 1
  {
    if |values| >= 2 { PermsFromCount(values, 0); }
  }

  lemma {:induction false} PermsFromCount<T>(values: seq<T>, index: nat)
    requires index <= |values| && |values| >= 2
    ensures |PermsFrom(values, index)| == (|values| - index) * Fact(|values| - 1)
    decreases |values|, |values| - index
  {
    if index < |values| {
      WithoutMultiset(values, index);
      PermsCount(Without(values, index));
      PermsFromCount(values, index + 1);
      OneMore(|values| - index - 1, Fact(|values| - 1));
    }
  }

  lemma OneMore(k: nat, x: nat)
    ensures (k + 1) * x == x + k * x
  {}

  lemma {:induction false} PermsDistinct<T>(values: seq<T>)
    requires NoDup(values)
    ensures NoDup(Perms(values))
    decreases |values|, |values| + 1
  {
    if |values| >= 2 { PermsFromDistinct(values, 0); }
  }

  lemma {:induction false} PermsFromDistinct<T>(values: seq<T>, index: nat)
    requires index <= |values| && NoDup(values)
    ensures NoDup(PermsFrom(values, index))
    decreases |values|, |values| - index
  {
    if index < |values| {
      var head := Prefixed([values[index]], Perms(Without(values, index)));
      var tail := PermsFrom(values, index + 1);
      WithoutNoDup(values, index);
      PermsDistinct(Without(values, index));
      PrefixedDistinct([values[index]], Perms(Without(values, index)));
      PermsFromDistinct(values, index + 1);
      forall p | p in head ensures p !in tail {
        BlockExact(values, index, p);
        PermsFromExact(values, index + 1, p);
      }
      AppendDistinct(head, tail);
    }
  }

  lemma PrefixedDistinct<T>(prefix: seq<T>, rests: seq<seq<T>>)
    requires NoDup(rests)
    ensures NoDup(Prefixed(prefix, rests))
  {
    var r := Prefixed(prefix, rests);
    forall i, j | 0 <= i < j < |r| ensures r[i] != r[j] {
      assert r[i][|prefix|..] == rests[i] && r[j][|prefix|..] == rests[j];
    }
  }

  lemma AppendDistinct<T>(xs: seq<T>, ys: seq<T>)
    requires NoDup(xs) && NoDup(ys) && forall x :: x in xs ==> x !in ys
    ensures NoDup(xs + ys)
  {
    forall i, j | 0 <= i < j < |xs + ys| ensures (xs + ys)[i] != (xs + ys)[j] {
      if i < |xs| <= j { assert xs[i] in xs; }
    }
  }

  /** `permutations`: for each index, that value before each permutation of the others. */
  method ListPermutations<T>(values: seq<T>) returns (result: seq<seq<T>>)
    ensures result == Perms(values)
    decreases |values|
  {
    if |values| < 2 { return [values]; }
    result := [];
    var index := 0;
    while index < |values|
      invariant index <= |values|
      invariant result + PermsFrom(values, index) == Perms(values)
    {
      var rests := ListPermutations(Without(values, index));
      var block := [];
      for r := 0 to |rests|
        invariant block == Prefixed([values[index]], rests)[..r]
      {
        block := block + [[values[index]] + rests[r]];
      }
      assert block == Prefixed([values[index]], rests);
      assert result + (block + PermsFrom(values, index + 1)) == (result + block) + PermsFrom(values, index + 1);
      result := result + block;
      index := index + 1;
    }
  }

  // -------------------------------------------------- cartesian products

  function Product(groups: seq<seq<string>>): nat {
    if groups == [] then 1 else Fact(|groups[0]|) * Product(groups[1..])
  }

  function Orders(groups: seq<seq<string>>): seq<seq<string>>
    decreases |groups|, 0
  {
    if groups == [] then [[]] else OrdersFrom(Perms(groups[0]), groups[1..])
  }

  /** Each of `heads` before every order of the remaining groups. */
  function OrdersFrom(heads: seq<seq<string>>, rest: seq<seq<string>>): seq<seq<string>>
    decreases |rest|, 1 + |heads|
  {
    if heads == [] then [] else Prefixed(heads[0], Orders(rest)) + OrdersFrom(heads[1..], rest)
  }

  /** `order` runs through the groups one after another, each in some order. */
  predicate Blocks(groups: seq<seq<string>>, order: seq<string>) {
    if groups == [] then order == []
    else
      && |order| >= |groups[0]| && multiset(order[..|groups[0]|]) == multiset(groups[0])
      && Blocks(groups[1..], order[|groups[0]|..])
  }

  lemma {:induction false} OrdersExact(groups: seq<seq<string>>, order: seq<string>)
    ensures order in Orders(groups) <==> Blocks(groups, order)
    decreases |groups|, 0
  {
    if groups != [] {
      var heads, n := Perms(groups[0]), |groups[0]|;
      forall h | h in heads ensures |h| == n {
        PermsExact(groups[0], h);
        assert |multiset(h)| == |multiset(groups[0])|;
      }
      OrdersFromExact(heads, groups[1..], n, order);
      if |order| >= n {
        PermsExact(groups[0], order[..n]);
        OrdersExact(groups[1..], order[n..]);
      }
    }
  }

  lemma {:induction false} OrdersFromExact(heads: seq<seq<string>>, rest: seq<seq<string>>, n: nat, order: seq<string>)
    requires forall h :: h in heads ==> |h| == n
    ensures order in OrdersFrom(heads, rest) <==> |order| >= n && order[..n] in heads && order[n..] in Orders(rest)
    decreases |rest|, 1 + |heads|
  {
    if heads != [] {
      PrefixedIn(heads[0], Orders(rest), order);
      OrdersFromExact(heads[1..], rest, n, order);
      assert heads == [heads[0]] + heads[1..];
    }
  }

  lemma {:induction false} OrdersCount(groups: seq<seq<string>>)
    ensures |Orders(groups)| == Product(groups)
    decreases |groups|, 0
  {
    if groups != [] {
      PermsCount(groups[0]);
      OrdersFromCount(Perms(groups[0]), groups[1..]);
    }
  }

  lemma {:induction false} OrdersFromCount(heads: seq<seq<string>>, rest: seq<seq<string>>)
    ensures |OrdersFrom(heads, rest)| == |heads| * Product(rest)
    decreases |rest|, 1 + |heads|
  {
    if heads != [] {
      OrdersCount(rest);
      OrdersFromCount(heads[1..], rest);
      assert |heads| * Product(rest) == Product(rest) + (|heads| - 1) * Product(rest);
    }
  }

  ghost predicate AllNoDup(groups: seq<seq<string>>) {
    forall i :: 0 <= i < |groups| ==> NoDup(groups[i])
  }

  lemma {:induction false} OrdersDistinct(groups: seq<seq<string>>)
    requires AllNoDup(groups)
    ensures NoDup(Orders(groups))
    decreases |groups|, 0
  {
    if groups != [] {
      var heads, n := Perms(groups[0]), |groups[0]|;
      PermsDistinct(groups[0]);
      forall h | h in heads ensures |h| == n {
        PermsExact(groups[0], h);
        assert |multiset(h)| == |multiset(groups[0])|;
      }
      OrdersFromDistinct(heads, groups[1..], n);
    }
  }

  lemma {:induction false} OrdersFromDistinct(heads: seq<seq<string>>, rest: seq<seq<string>>, n: nat)
    requires NoDup(heads) && AllNoDup(rest) && forall h :: h in heads ==> |h| == n
    ensures NoDup(OrdersFrom(heads, rest))
    decreases |rest|, 1 + |heads|
  {
    if heads != [] {
      OrdersDistinct(rest);
      PrefixedDistinct(heads[0], Orders(rest));
      OrdersFromDistinct(heads[1..], rest, n);
      forall o | o in Prefixed(heads[0], Orders(rest)) ensures o !in OrdersFrom(heads[1..], rest) {
        PrefixedIn(heads[0], Orders(rest), o);
        OrdersFromExact(heads[1..], rest, n, o);
      }
      AppendDistinct(Prefixed(heads[0], Orders(rest)), OrdersFrom(heads[1..], rest));
    }
  }

  /** `cartesianPermutations`: yields every order with its accumulated prefix. */
  method ListOrders(groups: seq<seq<string>>, index: nat, prefix: seq<string>) returns (yielded: seq<seq<string>>)
    requires index <= |groups|
    ensures yielded == Prefixed(prefix, Orders(groups[index..]))
    decreases |groups| - index
  {
    if index == |groups| {
      assert prefix + [] == prefix;
      return [prefix];
    }
    var heads := ListPermutations(groups[index]);
    assert groups[index..][1..] == groups[index + 1..];
    yielded := [];
    for h := 0 to |heads|
      invariant yielded + Prefixed(prefix, OrdersFrom(heads[h..], groups[index + 1..]))
        == Prefixed(prefix, Orders(groups[index..]))
    {
      var more := ListOrders(groups, index + 1, prefix + heads[h]);
      PrefixedTwice(prefix, heads[h], Orders(groups[index + 1..]), OrdersFrom(heads[h + 1..], groups[index + 1..]));
      assert heads[h..][1..] == heads[h + 1..];
      assert yielded + (more + Prefixed(prefix, OrdersFrom(heads[h + 1..], groups[index + 1..])))
          == (yielded + more) + Prefixed(prefix, OrdersFrom(heads[h + 1..], groups[index + 1..]));
      yielded := yielded + more;
    }
  }

  lemma PrefixedTwice(prefix: seq<string>, head: seq<string>, rests: seq<seq<string>>, others: seq<seq<string>>)
    ensures Prefixed(prefix, Prefixed(head, rests) + others) == Prefixed(prefix + head, rests)
      + Prefixed(prefix, others)
  {
    var a := Prefixed(prefix, Prefixed(head, rests) + others);
    var b := Prefixed(prefix + head, rests) + Prefixed(prefix, others);
    forall i | 0 <= i < |a| ensures a[i] == b[i] {
      if i < |rests| { assert prefix + (head + rests[i]) == (prefix + head) + rests[i]; }
    }
  }
}
