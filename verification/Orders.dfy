/** Strict orders over finite sets, the one increasing arrangement of a set, and sorting. */
module Orders {

  /** Some member of a set that has one. */
  ghost function Member<T>(s: set<T>): (x: T)
    requires s != {}
    ensures x in s
  {
    var x :| x in s;
    x
  }

  lemma {:induction false} HasMember(ids: set<int>)
    requires ids != {}
    ensures exists id :: id in ids
  {
    var id := Member(ids);
    assert id in ids;
  }

  /** less is irreflexive and transitive on s, and compares any two different members. */
  ghost predicate LinearOn<T(!new)>(s: set<T>, less: (T, T) -> bool) {
    && (forall x | x in s :: !less(x, x))
    && (forall x, y, z | x in s && y in s && z in s && less(x, y) && less(y, z) :: less(x, z))
    && (forall x, y | x in s && y in s && x != y :: less(x, y) || less(y, x))
  }

  ghost predicate Increasing<T>(xs: seq<T>, less: (T, T) -> bool) {
    forall i, j | 0 <= i < j < |xs| :: less(xs[i], xs[j])
  }

  lemma {:induction false} LeastExists<T(!new)>(s: set<T>, less: (T, T) -> bool)
    requires LinearOn(s, less) && s != {}
    ensures exists m :: m in s && forall x | x in s && x != m :: less(m, x)
  {
    var a :| a in s;
    var rest := s - {a};
    if rest == {} {
      assert s == {a};
      assert a in s && forall x | x in s && x != a :: less(a, x);
    } else {
      LeastExists(rest, less);
      var b :| b in rest && forall x | x in rest && x != b :: less(b, x);
      var m := if less(a, b) then a else b;
      forall x | x in s && x != m
        ensures less(m, x)
      {
        assert x == a || x in rest;
      }
      assert m in s && forall x | x in s && x != m :: less(m, x);
    }
  }

  /** The members of s in increasing order. */
  ghost function Arrange<T(!new)>(s: set<T>, less: (T, T) -> bool): (r: seq<T>)
    requires LinearOn(s, less)
    ensures Increasing(r, less)
    ensures forall x :: x in r <==> x in s
    ensures |r| == |s|
    decreases |s|
  {
    if s == {} then []
    else
      LeastExists(s, less);
      var m :| m in s && forall x | x in s && x != m :: less(m, x);
      assert |s - {m}| < |s|;
      var rest := Arrange(s - {m}, less);
      assert forall x | x in rest :: x in s && x != m;
      assert forall x | x in rest :: less(m, x);
      assert forall j | 0 <= j < |rest| :: rest[j] in rest;
      [m] + rest
  }

  /** Two increasing sequences with the same members are the same sequence. */
  lemma {:induction false} IncreasingIsUnique<T(!new)>(s: set<T>, xs: seq<T>, ys: seq<T>, less: (T, T) -> bool)
    requires LinearOn(s, less)
    requires forall x :: x in xs <==> x in s
    requires forall y :: y in ys <==> y in s
    requires Increasing(xs, less) && Increasing(ys, less)
    ensures xs == ys
    decreases |xs|
  {
    assert xs != [] ==> xs[0] in xs;
    assert ys != [] ==> ys[0] in ys;
    if xs != [] && ys != [] {
      assert xs[0] in ys && ys[0] in xs;
      var i :| 0 <= i < |xs| && xs[i] == ys[0];
      var j :| 0 <= j < |ys| && ys[j] == xs[0];
      assert xs[0] == ys[0];
      TailMembers(s, xs, less);
      TailMembers(s, ys, less);
      IncreasingIsUnique(s - {xs[0]}, xs[1..], ys[1..], less);
      assert xs == [xs[0]] + xs[1..] && ys == [ys[0]] + ys[1..];
    }
  }

  lemma {:induction false} TailMembers<T(!new)>(s: set<T>, xs: seq<T>, less: (T, T) -> bool)
    requires LinearOn(s, less) && xs != []
    requires forall x :: x in xs <==> x in s
    requires Increasing(xs, less)
    ensures forall x :: x in xs[1..] <==> x in s - {xs[0]}
  {
  }

  /** Any increasing listing of s is its arrangement. */
  lemma {:induction false} ArrangeIsUnique<T(!new)>(s: set<T>, xs: seq<T>, less: (T, T) -> bool)
    requires LinearOn(s, less)
    requires forall x :: x in xs <==> x in s
    requires Increasing(xs, less)
    ensures xs == Arrange(s, less)
  {
    IncreasingIsUnique(s, xs, Arrange(s, less), less);
  }

  lemma {:induction false} SubsetSize<T>(a: set<T>, b: set<T>)
    requires a <= b
    ensures |a| <= |b|
  {
    assert b == a + (b - a);
  }

  // ------------------------------------------------------------- sorting

  /** less is a strict weak order on the members of xs: what a comparison sort asks of its comparator. */
  ghost predicate WeakOn<T>(xs: seq<T>, less: (T, T) -> bool) {
    && (forall x, y | x in xs && y in xs && less(x, y) :: !less(y, x))
    && (forall x, y, z | x in xs && y in xs && z in xs && less(x, z) :: less(x, y) || less(y, z))
  }

  ghost predicate NonDecreasing<T>(xs: seq<T>, less: (T, T) -> bool) {
    forall i, j | 0 <= i < j < |xs| :: !less(xs[j], xs[i])
  }

  ghost predicate NoRepeats<T>(xs: seq<T>) {
    forall i, j | 0 <= i < j < |xs| :: xs[i] != xs[j]
  }

  /** The library sort: some rearrangement in which no element is less than an earlier one. */
  method Sort<T>(xs: seq<T>, less: (T, T) -> bool) returns (ys: seq<T>)
    requires WeakOn(xs, less)
    ensures multiset(ys) == multiset(xs)
    ensures NonDecreasing(ys, less)
  {
    ys := [];
    for n := 0 to |xs|
      invariant multiset(ys) == multiset(xs[..n])
      invariant NonDecreasing(ys, less)
    {
      assert forall y | y in ys :: y in multiset(xs[..n]);
      assert forall y | y in xs[..n] :: y in xs;
      assert xs[..n + 1] == xs[..n] + [xs[n]];
      ys := Insert(ys, xs[n], less);
    }
    assert xs[..|xs|] == xs;
  }

  method Insert<T>(xs: seq<T>, x: T, less: (T, T) -> bool) returns (ys: seq<T>)
    requires WeakOn(xs + [x], less) && NonDecreasing(xs, less)
    ensures multiset(ys) == multiset(xs) + multiset{x}
    ensures NonDecreasing(ys, less)
  {
    var k := |xs|;
    while k > 0 && less(x, xs[k - 1])
      invariant 0 <= k <= |xs|
      invariant forall j | k <= j < |xs| :: less(x, xs[j])
    {
      k := k - 1;
    }
    ys := xs[..k] + [x] + xs[k..];
    assert xs == xs[..k] + xs[k..];
    InsertedInOrder(xs, x, k, less);
  }

  lemma {:induction false} InsertedInOrder<T>(xs: seq<T>, x: T, k: nat, less: (T, T) -> bool)
    requires WeakOn(xs + [x], less) && NonDecreasing(xs, less)
    requires k <= |xs| && (k > 0 ==> !less(x, xs[k - 1]))
    requires forall j | k <= j < |xs| :: less(x, xs[j])
    ensures NonDecreasing(xs[..k] + [x] + xs[k..], less)
  {
  }

  /** Sorting the distinct members of s gives its arrangement, whatever order they came in. */
  lemma {:induction false} SortedIsArranged<T(!new)>(s: set<T>, xs: seq<T>, ys: seq<T>, less: (T, T) -> bool)
    requires LinearOn(s, less)
    requires NoRepeats(xs) && forall x :: x in xs <==> x in s
    requires multiset(ys) == multiset(xs) && NonDecreasing(ys, less)
    ensures ys == Arrange(s, less)
  {
    forall y
      ensures y in ys <==> y in s
    {
      assert y in ys <==> y in multiset(ys);
      assert y in xs <==> y in multiset(xs);
    }
    PermutationKeepsNoRepeats(xs, ys);
    forall i, j | 0 <= i < j < |ys|
      ensures less(ys[i], ys[j])
    {
      assert ys[i] in ys && ys[j] in ys;
    }
    ArrangeIsUnique(s, ys, less);
  }

  lemma {:induction false} PermutationKeepsNoRepeats<T>(xs: seq<T>, ys: seq<T>)
    requires NoRepeats(xs) && multiset(ys) == multiset(xs)
    ensures NoRepeats(ys)
  {
    forall i, j | 0 <= i < j < |ys|
      ensures ys[i] != ys[j]
    {
      var y := ys[i];
      assert ys == ys[..i] + [ys[i]] + ys[i + 1..j] + [ys[j]] + ys[j + 1..];
      if y == ys[j] {
        assert multiset(ys)[y] >= 2;
        CountOnce(xs, y);
        assert false;
      }
    }
  }

  lemma {:induction false} CountOnce<T>(xs: seq<T>, y: T)
    requires NoRepeats(xs)
    ensures multiset(xs)[y] <= 1
  {
    if xs != [] {
      var rest := xs[1..];
      assert xs == [xs[0]] + rest;
      CountOnce(rest, y);
      assert xs[0] !in rest;
      assert xs[0] == y ==> y !in multiset(rest);
    }
  }

  lemma {:induction false} WeakFromLinear<T(!new)>(s: set<T>, xs: seq<T>, less: (T, T) -> bool)
    requires LinearOn(s, less) && forall x | x in xs :: x in s
    ensures WeakOn(xs, less)
  {
  }
}
