/** Sums and counts over sequences, and the laws the other modules need. */
module Folds {

  function Sum<A>(xs: seq<A>, f: A -> int): int {
    if xs == [] then 0 else f(xs[0]) + Sum(xs[1..], f)
  }

  function Count<A>(xs: seq<A>, p: A -> bool): nat {
    if xs == [] then 0 else (if p(xs[0]) then 1 else 0) + Count(xs[1..], p)
  }

  function Filter<A>(xs: seq<A>, p: A -> bool): seq<A> {
    if xs == [] then [] else (if p(xs[0]) then [xs[0]] else []) + Filter(xs[1..], p)
  }

  function Map<A, B>(xs: seq<A>, f: A -> B): (ys: seq<B>)
    ensures |ys| == |xs|
    ensures forall i :: 0 <= i < |xs| ==> ys[i] == f(xs[i])
  {
    if xs == [] then [] else [f(xs[0])] + Map(xs[1..], f)
  }

  function FlatMap<A, B>(xs: seq<A>, f: A -> seq<B>): seq<B> {
    if xs == [] then [] else f(xs[0]) + FlatMap(xs[1..], f)
  }

  lemma Regroup<A>(xs: seq<A>, ys: seq<A>, zs: seq<A>)
    ensures xs + ys + zs == xs + (ys + zs)
  {
  }

  // Named forms of the function values used below, so that equal ones are recognised as equal.

  function Both<A>(p: A -> bool, q: A -> bool): A -> bool { x => p(x) && q(x) }

  function Through<A, B>(f: A -> B, p: B -> bool): A -> bool { x => p(f(x)) }

  function Is<A(==)>(a: A): A -> bool { x => x == a }

  function Indicator<A>(p: A -> bool): A -> int { x => if p(x) then 1 else 0 }

  function Plus<A>(f: A -> int, p: A -> bool): A -> int { x => f(x) + (if p(x) then 1 else 0) }

  function Row<A, B>(w: (A, B) -> bool, x: A): B -> bool { y => w(x, y) }

  function Col<A, B>(w: (A, B) -> bool, y: B): A -> bool { x => w(x, y) }

  function RowCount<A, B>(ys: seq<B>, w: (A, B) -> bool): A -> int { x => Count(ys, Row(w, x)) }

  function ColCount<A, B>(xs: seq<A>, w: (A, B) -> bool): B -> int { y => Count(xs, Col(w, y)) }

  // ---------- sums ----------

  lemma {:induction false} SumConcat<A>(xs: seq<A>, ys: seq<A>, f: A -> int)
    ensures Sum(xs + ys, f) == Sum(xs, f) + Sum(ys, f)
  {
    if xs == [] {
      assert xs + ys == ys;
    } else {
      assert (xs + ys)[1..] == xs[1..] + ys;
      SumConcat(xs[1..], ys, f);
    }
  }

  lemma SumAppend<A>(xs: seq<A>, x: A, f: A -> int)
    ensures Sum(xs + [x], f) == Sum(xs, f) + f(x)
  {
    SumConcat(xs, [x], f);
  }

  lemma SumUpdate<A>(xs: seq<A>, i: nat, x: A, f: A -> int)
    requires i < |xs|
    ensures Sum(xs[i := x], f) == Sum(xs, f) - f(xs[i]) + f(x)
  {
    var pre, post := xs[..i], xs[i + 1..];
    assert xs == pre + ([xs[i]] + post) && xs[i := x] == pre + ([x] + post);
    SumConcat(pre, [xs[i]] + post, f);
    SumConcat(pre, [x] + post, f);
    assert ([xs[i]] + post)[1..] == post == ([x] + post)[1..];
  }

  lemma {:induction false} SumMonotone<A>(xs: seq<A>, ys: seq<A>, f: A -> int)
    requires |xs| == |ys|
    requires forall i :: 0 <= i < |xs| ==> f(xs[i]) <= f(ys[i])
    ensures Sum(xs, f) <= Sum(ys, f)
  {
    if xs != [] {
      SumMonotone(xs[1..], ys[1..], f);
    }
  }

  lemma {:induction false} SumNonNegative<A>(xs: seq<A>, f: A -> int)
    requires forall x :: x in xs ==> f(x) >= 0
    ensures Sum(xs, f) >= 0
    ensures forall x :: x in xs ==> f(x) <= Sum(xs, f)
  {
    if xs != [] {
      SumNonNegative(xs[1..], f);
    }
  }

  lemma {:induction false} SumExt<A>(xs: seq<A>, f: A -> int, g: A -> int)
    requires forall x :: x in xs ==> f(x) == g(x)
    ensures Sum(xs, f) == Sum(xs, g)
  {
    if xs != [] {
      SumExt(xs[1..], f, g);
    }
  }

  // ---------- counts ----------

  lemma {:induction false} CountConcat<A>(xs: seq<A>, ys: seq<A>, p: A -> bool)
    ensures Count(xs + ys, p) == Count(xs, p) + Count(ys, p)
  {
    if xs == [] {
      assert xs + ys == ys;
    } else {
      assert (xs + ys)[1..] == xs[1..] + ys;
      CountConcat(xs[1..], ys, p);
    }
  }

  lemma {:induction false} CountExt<A>(xs: seq<A>, p: A -> bool, q: A -> bool)
    requires forall x :: x in xs ==> p(x) == q(x)
    ensures Count(xs, p) == Count(xs, q)
  {
    if xs != [] {
      CountExt(xs[1..], p, q);
    }
  }

  lemma {:induction false} CountZero<A>(xs: seq<A>, p: A -> bool)
    ensures Count(xs, p) == 0 <==> forall x :: x in xs ==> !p(x)
  {
    if xs != [] {
      CountZero(xs[1..], p);
    }
  }

  lemma {:induction false} CountAll<A>(xs: seq<A>, p: A -> bool)
    requires forall x :: x in xs ==> p(x)
    ensures Count(xs, p) == |xs|
  {
    if xs != [] {
      CountAll(xs[1..], p);
    }
  }

  lemma {:induction false} CountPartition<A>(xs: seq<A>, all: A -> bool, p: A -> bool, q: A -> bool)
    requires forall x :: x in xs ==> (all(x) <==> p(x) || q(x)) && !(p(x) && q(x))
    ensures Count(xs, all) == Count(xs, p) + Count(xs, q)
  {
    if xs != [] {
      CountPartition(xs[1..], all, p, q);
    }
  }

  lemma {:induction false} CountMonotone<A>(xs: seq<A>, p: A -> bool, q: A -> bool)
    requires forall x :: x in xs && p(x) ==> q(x)
    ensures Count(xs, p) <= Count(xs, q)
  {
    if xs != [] {
      CountMonotone(xs[1..], p, q);
    }
  }

  lemma {:induction false} CountFilter<A>(xs: seq<A>, p: A -> bool, q: A -> bool)
    ensures Count(Filter(xs, p), q) == Count(xs, Both(p, q))
  {
    if xs != [] {
      CountFilter(xs[1..], p, q);
      assert Filter(xs, p) == (if p(xs[0]) then [xs[0]] else []) + Filter(xs[1..], p);
      CountConcat(if p(xs[0]) then [xs[0]] else [], Filter(xs[1..], p), q);
    }
  }

  lemma {:induction false} FilterLength<A>(xs: seq<A>, p: A -> bool)
    ensures |Filter(xs, p)| == Count(xs, p)
  {
    if xs != [] {
      FilterLength(xs[1..], p);
    }
  }

  lemma {:induction false} FilterMember<A>(xs: seq<A>, p: A -> bool, x: A)
    ensures x in Filter(xs, p) <==> x in xs && p(x)
  {
    if xs != [] {
      FilterMember(xs[1..], p, x);
    }
  }

  lemma {:induction false} FilterConcat<A>(xs: seq<A>, ys: seq<A>, p: A -> bool)
    ensures Filter(xs + ys, p) == Filter(xs, p) + Filter(ys, p)
  {
    if xs == [] {
      assert xs + ys == ys;
    } else {
      var head, rest, all := if p(xs[0]) then [xs[0]] else [], xs[1..], xs + ys;
      FilterConcat(rest, ys, p);
      assert all[0] == xs[0] && all[1..] == rest + ys;
      Regroup(head, Filter(rest, p), Filter(ys, p));
    }
  }

  lemma {:induction false} FilterExt<A>(xs: seq<A>, p: A -> bool, q: A -> bool)
    requires forall x :: x in xs ==> p(x) == q(x)
    ensures Filter(xs, p) == Filter(xs, q)
  {
    if xs != [] {
      FilterExt(xs[1..], p, q);
    }
  }

  lemma {:induction false} FilterTwice<A>(xs: seq<A>, p: A -> bool, q: A -> bool)
    ensures Filter(Filter(xs, p), q) == Filter(xs, Both(p, q))
  {
    if xs != [] {
      FilterTwice(xs[1..], p, q);
      FilterConcat(if p(xs[0]) then [xs[0]] else [], Filter(xs[1..], p), q);
    }
  }

  lemma {:induction false} FilterAll<A>(xs: seq<A>, p: A -> bool)
    requires forall x :: x in xs ==> p(x)
    ensures Filter(xs, p) == xs
  {
    if xs != [] {
      FilterAll(xs[1..], p);
    }
  }

  lemma {:induction false} FilterButOne<A>(xs: seq<A>, i: nat, p: A -> bool)
    requires i < |xs| && forall k :: 0 <= k < |xs| ==> (p(xs[k]) <==> k != i)
    ensures Filter(xs, p) == xs[..i] + xs[i + 1..]
  {
    var rest := xs[1..];
    if i == 0 {
      FilterAll(rest, p);
    } else {
      FilterButOne(rest, i - 1, p);
      assert xs[..i] + xs[i + 1..] == [xs[0]] + (rest[..i - 1] + rest[i..]);
    }
  }

  lemma {:induction false} SumIndicator<A>(xs: seq<A>, p: A -> bool)
    ensures Sum(xs, Indicator(p)) == Count(xs, p)
  {
    if xs != [] {
      SumIndicator(xs[1..], p);
    }
  }

  lemma {:induction false} SumPlusIndicator<A>(xs: seq<A>, f: A -> int, p: A -> bool)
    ensures Sum(xs, Plus(f, p)) == Sum(xs, f) + Count(xs, p)
  {
    if xs != [] {
      SumPlusIndicator(xs[1..], f, p);
    }
  }

  /** Counting the pairs of a relation by rows or by columns gives the same number. */
  lemma {:induction false} DoubleCount<A, B>(xs: seq<A>, ys: seq<B>, w: (A, B) -> bool)
    ensures Sum(xs, RowCount(ys, w)) == Sum(ys, ColCount(xs, w))
  {
    if ys == [] {
      SumExt(xs, RowCount(ys, w), x => 0);
      SumZero(xs);
    } else {
      var rest := ys[1..];
      DoubleCount(xs, rest, w);
      SumPlusIndicator(xs, RowCount(rest, w), Col(w, ys[0]));
      SumExt(xs, RowCount(ys, w), Plus(RowCount(rest, w), Col(w, ys[0])));
    }
  }

  lemma {:induction false} SumZero<A>(xs: seq<A>)
    ensures Sum(xs, x => 0) == 0
  {
    if xs != [] {
      SumZero(xs[1..]);
    }
  }

  // ---------- distinctness ----------

  ghost predicate Distinct<A>(xs: seq<A>) {
    forall i, j :: 0 <= i < j < |xs| ==> xs[i] != xs[j]
  }

  lemma {:induction false} CountDistinct<A>(xs: seq<A>, a: A)
    requires Distinct(xs)
    ensures Count(xs, Is(a)) == if a in xs then 1 else 0
  {
    if xs != [] {
      CountDistinct(xs[1..], a);
    }
  }

  lemma {:induction false} DistinctMultiplicity<A>(xs: seq<A>, a: A)
    requires Distinct(xs)
    ensures multiset(xs)[a] == if a in xs then 1 else 0
  {
    if xs != [] {
      assert xs == [xs[0]] + xs[1..];
      DistinctMultiplicity(xs[1..], a);
    }
  }

  /** Two duplicate-free sequences with the same elements are permutations of each other. */
  lemma SameElements<A>(xs: seq<A>, ys: seq<A>)
    requires Distinct(xs) && Distinct(ys)
    requires forall a :: a in xs <==> a in ys
    ensures multiset(xs) == multiset(ys) && |xs| == |ys|
  {
    forall a ensures multiset(xs)[a] == multiset(ys)[a] {
      DistinctMultiplicity(xs, a);
      DistinctMultiplicity(ys, a);
    }
    assert |multiset(xs)| == |xs| && |multiset(ys)| == |ys|;
  }

  lemma {:induction false} PermutedDistinct<A>(xs: seq<A>, ys: seq<A>)
    requires Distinct(xs) && multiset(xs) == multiset(ys)
    ensures Distinct(ys)
    ensures forall a :: a in xs <==> a in ys
  {
    forall a ensures a in xs <==> a in ys {
      assert a in xs <==> a in multiset(xs);
      assert a in ys <==> a in multiset(ys);
    }
    forall i, j | 0 <= i < j < |ys| ensures ys[i] != ys[j] {
      DistinctMultiplicity(xs, ys[i]);
      TwiceCounted(ys, i, j);
    }
  }

  lemma TwiceCounted<A>(ys: seq<A>, i: nat, j: nat)
    requires i < j < |ys|
    ensures ys[i] == ys[j] ==> multiset(ys)[ys[i]] >= 2
  {
    assert ys == ys[..j] + ([ys[j]] + ys[j + 1..]);
    assert ys[i] in ys[..j] by { assert ys[..j][i] == ys[i]; }
  }

  lemma {:induction false} CountMap<A, B>(xs: seq<A>, f: A -> B, p: B -> bool)
    ensures Count(Map(xs, f), p) == Count(xs, Through(f, p))
  {
    if xs != [] {
      CountMap(xs[1..], f, p);
    }
  }

  lemma MapMember<A, B>(xs: seq<A>, f: A -> B, y: B)
    ensures y in Map(xs, f) <==> exists x :: x in xs && f(x) == y
  {
    if y in Map(xs, f) {
      var i :| 0 <= i < |xs| && Map(xs, f)[i] == y;
      assert xs[i] in xs && f(xs[i]) == y;
    }
    if x :| x in xs && f(x) == y {
      var i :| 0 <= i < |xs| && xs[i] == x;
      assert Map(xs, f)[i] == y;
    }
  }
}
