/**
  The fragment of SQL that the two statistics queries use: nested-loop joins, grouping by a key, and
  ORDER BY, which fixes the order of the result only up to ties.
*/
module Relational {
  import opened Folds

  function Pairs<A, B>(x: A, ys: seq<B>, on: (A, B) -> bool): seq<(A, B)> {
    if ys == [] then [] else (if on(x, ys[0]) then [(x, ys[0])] else []) + Pairs(x, ys[1..], on)
  }

  function Join<A, B>(xs: seq<A>, ys: seq<B>, on: (A, B) -> bool): seq<(A, B)> {
    if xs == [] then [] else Pairs(xs[0], ys, on) + Join(xs[1..], ys, on)
  }

  /** The distinct keys of a table: one per group. */
  function Keys<A, K(==)>(xs: seq<A>, key: A -> K): seq<K> {
    if xs == [] then []
    else
      var rest := Keys(xs[1..], key);
      if key(xs[0]) in rest then rest else [key(xs[0])] + rest
  }

  /** `rows` is one of the results ORDER BY may return for `groups`; `before(b, a)` forbids a, b in that order. */
  ghost predicate OrderedResult<R>(rows: seq<R>, groups: seq<R>, before: (R, R) -> bool) {
    && multiset(rows) == multiset(groups)
    && forall i, j :: 0 <= i < j < |rows| ==> !before(rows[j], rows[i])
  }

  // ---------- joins ----------

  lemma {:induction false} PairsMember<A, B>(x: A, ys: seq<B>, on: (A, B) -> bool, r: (A, B))
    ensures r in Pairs(x, ys, on) <==> r.0 == x && r.1 in ys && on(r.0, r.1)
  {
    if ys != [] {
      PairsMember(x, ys[1..], on, r);
    }
  }

  lemma {:induction false} JoinMember<A, B>(xs: seq<A>, ys: seq<B>, on: (A, B) -> bool, r: (A, B))
    ensures r in Join(xs, ys, on) <==> r.0 in xs && r.1 in ys && on(r.0, r.1)
  {
    if xs != [] {
      PairsMember(xs[0], ys, on, r);
      JoinMember(xs[1..], ys, on, r);
    }
  }

  function Matched<A, B>(on: (A, B) -> bool, q: ((A, B)) -> bool): (A, B) -> bool { (x, y) => on(x, y) && q((x, y)) }

  lemma {:induction false} CountPairs<A, B>(x: A, ys: seq<B>, on: (A, B) -> bool, q: ((A, B)) -> bool)
    ensures Count(Pairs(x, ys, on), q) == Count(ys, Row(Matched(on, q), x))
  {
    if ys != [] {
      CountPairs(x, ys[1..], on, q);
      CountConcat(if on(x, ys[0]) then [(x, ys[0])] else [], Pairs(x, ys[1..], on), q);
    }
  }

  /** The joined rows that satisfy `q`, summed over the left-hand table. */
  lemma {:induction false} CountJoin<A, B>(xs: seq<A>, ys: seq<B>, on: (A, B) -> bool, q: ((A, B)) -> bool)
    ensures Count(Join(xs, ys, on), q) == Sum(xs, RowCount(ys, Matched(on, q)))
  {
    if xs != [] {
      CountJoin(xs[1..], ys, on, q);
      CountConcat(Pairs(xs[0], ys, on), Join(xs[1..], ys, on), q);
      CountPairs(xs[0], ys, on, q);
    }
  }

  /** The same number, summed over the right-hand table. */
  lemma CountJoinByRight<A, B>(xs: seq<A>, ys: seq<B>, on: (A, B) -> bool, q: ((A, B)) -> bool)
    ensures Count(Join(xs, ys, on), q) == Sum(ys, ColCount(xs, Matched(on, q)))
  {
    CountJoin(xs, ys, on, q);
    DoubleCount(xs, ys, Matched(on, q));
  }

  // ---------- keys ----------

  lemma {:induction false} KeysMember<A, K>(xs: seq<A>, key: A -> K, k: K)
    ensures k in Keys(xs, key) <==> exists x :: x in xs && key(x) == k
  {
    if xs != [] {
      KeysMember(xs[1..], key, k);
    }
  }

  lemma {:induction false} KeysDistinct<A, K>(xs: seq<A>, key: A -> K)
    ensures Distinct(Keys(xs, key))
  {
    if xs != [] {
      KeysDistinct(xs[1..], key);
    }
  }

  // ---------- ORDER BY has a result ----------

  ghost predicate Ordering<R(!new)>(before: (R, R) -> bool) {
    && (forall a, b :: before(a, b) ==> !before(b, a))
    && forall a, b, c :: !before(b, a) && !before(c, b) ==> !before(c, a)
  }

  lemma {:induction false} Inserted<R(!new)>(x: R, rows: seq<R>, groups: seq<R>, before: (R, R) -> bool) returns (more: seq<R>)
    requires Ordering(before) && OrderedResult(rows, groups, before)
    ensures OrderedResult(more, [x] + groups, before)
    decreases |rows|
  {
    assert multiset([x] + groups) == multiset{x} + multiset(rows);
    if rows == [] || !before(rows[0], x) {
      more := [x] + rows;
    } else {
      var head, tail := rows[0], rows[1..];
      assert rows == [head] + tail;
      var rest := Inserted(x, tail, tail, before);
      more := [head] + rest;
      assert !before(x, head);
      FirstFits(head, x, tail, rest, before);
    }
  }

  lemma FirstFits<R(!new)>(head: R, x: R, tail: seq<R>, rest: seq<R>, before: (R, R) -> bool)
    requires multiset(rest) == multiset([x] + tail)
    requires !before(x, head) && forall j :: 0 <= j < |tail| ==> !before(tail[j], head)
    ensures forall j :: 0 <= j < |rest| ==> !before(rest[j], head)
  {
    forall j | 0 <= j < |rest| ensures !before(rest[j], head) {
      assert rest[j] in multiset(rest);
      assert rest[j] in [x] + tail;
    }
  }

  /** Whatever the groups are, some order of them is one that ORDER BY may return. */
  lemma {:induction false} ResultExists<R(!new)>(groups: seq<R>, before: (R, R) -> bool) returns (rows: seq<R>)
    requires Ordering(before)
    ensures OrderedResult(rows, groups, before)
  {
    if groups == [] {
      rows := [];
    } else {
      rows := ResultExists(groups[1..], before);
      rows := Inserted(groups[0], rows, groups[1..], before);
      assert [groups[0]] + groups[1..] == groups;
    }
  }
}
