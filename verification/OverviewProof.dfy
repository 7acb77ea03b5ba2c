/** The overview query returns exactly the direct counts, one row per unit the user has tried. */
module OverviewProof {
  import opened Bytes
  import opened Folds
  import opened Relational
  import opened Tables
  import opened Statistics

  function IdIs(k: int): Problem -> bool { (p: Problem) => p.id == k }

  lemma {:induction false} CountProblems(problems: seq<Problem>, k: int)
    requires forall i, j :: 0 <= i < j < |problems| ==> problems[i].id != problems[j].id
    ensures Count(problems, IdIs(k)) == if exists p :: p in problems && p.id == k then 1 else 0
  {
    if problems != [] {
      var rest := problems[1..];
      CountProblems(rest, k);
      if p :| p in problems && p.id == k {
        assert p == problems[0] || p in rest;
      }
    }
  }

  function TagRow(problem: int, t: Text): ((TypeRow, Problem)) -> bool {
    (x: (TypeRow, Problem)) => x.1.id == problem && x.0.unit == t
  }

  /** Exactly one joined row for a tag that exists, none for one that does not. */
  lemma TagCount(db: Db, problem: int, t: Text)
    requires Valid(db)
    ensures Count(TypedProblems(db), TagRow(problem, t)) == if Tagged(db, problem, t) then 1 else 0
  {
    var row := TypeRow(problem, t);
    var w := Matched(OnProblem, TagRow(problem, t));
    CountJoin(db.types, db.problems, OnProblem, TagRow(problem, t));
    forall r | r in db.types ensures RowCount(db.problems, w)(r) == Indicator(Is(row))(r) {
      CountProblems(db.problems, r.problemId);
      assert HasProblem(db, r.problemId);
      if r == row {
        forall p | p in db.problems ensures Row(w, r)(p) == IdIs(r.problemId)(p) {
          assert TagRow(problem, t)((r, p)) == (p.id == problem && r.unit == t);
        }
        CountExt(db.problems, Row(w, r), IdIs(r.problemId));
      } else {
        forall p | p in db.problems ensures !Row(w, r)(p) {
          assert TagRow(problem, t)((r, p)) == (p.id == problem && r.unit == t);
        }
        CountZero(db.problems, Row(w, r));
      }
    }
    SumExt(db.types, RowCount(db.problems, w), Indicator(Is(row)));
    SumIndicator(db.types, Is(row));
    CountDistinct(db.types, row);
  }

  function Chosen(u: int, t: Text, c: Submission -> bool): UnitJoin -> bool {
    (r: UnitJoin) => r.1.userId == u && r.0.0.unit == t && c(r.1)
  }

  lemma ColumnCount(db: Db, u: int, t: Text, c: Submission -> bool, s: Submission)
    requires Valid(db)
    ensures ColCount(TypedProblems(db), Matched(OnSubmission, Chosen(u, t, c)))(s) == Indicator(Matching(db, u, t, c))(s)
  {
    var w := Matched(OnSubmission, Chosen(u, t, c));
    forall x | x in TypedProblems(db) ensures Col(w, s)(x) == (s.userId == u && c(s) && TagRow(s.problemId, t)(x)) {
      assert Chosen(u, t, c)((x, s)) == (s.userId == u && x.0.unit == t && c(s));
    }
    TagCount(db, s.problemId, t);
    if s.userId == u && c(s) {
      CountExt(TypedProblems(db), Col(w, s), TagRow(s.problemId, t));
    } else {
      CountZero(TypedProblems(db), Col(w, s));
    }
  }

  lemma UnitFilter(db: Db, u: int, t: Text, c: Submission -> bool)
    ensures Count(Filter(UnitRows(db, u), InUnit(t)), When(c))
            == Count(Join(TypedProblems(db), db.subs, OnSubmission), Chosen(u, t, c))
  {
    var all := Join(TypedProblems(db), db.subs, OnSubmission);
    CountFilter(UnitRows(db, u), InUnit(t), When(c));
    CountFilter(all, ByUser(u), Both(InUnit(t), When(c)));
    forall r: UnitJoin | r in all ensures Both(ByUser(u), Both(InUnit(t), When(c)))(r) == Chosen(u, t, c)(r) {
      assert Both(InUnit(t), When(c))(r) == (r.0.0.unit == t && c(r.1));
    }
    CountExt(all, Both(ByUser(u), Both(InUnit(t), When(c))), Chosen(u, t, c));
  }

  /** Counting the joined rows of a unit is counting the user's submissions in it. */
  lemma UnitCount(db: Db, u: int, t: Text, c: Submission -> bool)
    requires Valid(db)
    ensures Count(Filter(UnitRows(db, u), InUnit(t)), When(c)) == InUnitCount(db, u, t, c)
  {
    var w, m := Matched(OnSubmission, Chosen(u, t, c)), Matching(db, u, t, c);
    UnitFilter(db, u, t, c);
    CountJoinByRight(TypedProblems(db), db.subs, OnSubmission, Chosen(u, t, c));
    forall s | s in db.subs ensures ColCount(TypedProblems(db), w)(s) == Indicator(m)(s) {
      ColumnCount(db, u, t, c, s);
    }
    SumExt(db.subs, ColCount(TypedProblems(db), w), Indicator(m));
    SumIndicator(db.subs, m);
  }

  // ---------- COUNT(DISTINCT p.id) ----------

  lemma UnitRowMember(db: Db, u: int, t: Text, r: UnitJoin)
    ensures r in Filter(UnitRows(db, u), InUnit(t)) <==>
            && r.0.0 in db.types && r.0.1 in db.problems && r.1 in db.subs
            && r.0.1.id == r.0.0.problemId && r.1.problemId == r.0.1.id && r.1.userId == u && r.0.0.unit == t
  {
    FilterMember(UnitRows(db, u), InUnit(t), r);
    FilterMember(Join(TypedProblems(db), db.subs, OnSubmission), ByUser(u), r);
    JoinMember(TypedProblems(db), db.subs, OnSubmission, r);
    JoinMember(db.types, db.problems, OnProblem, r.0);
  }

  lemma UnitProblems(db: Db, u: int, t: Text, k: int)
    requires Valid(db)
    ensures k in Keys(Filter(UnitRows(db, u), InUnit(t)), ProblemOf) <==> Tagged(db, k, t) && Tried(db, u, k)
  {
    var g := Filter(UnitRows(db, u), InUnit(t));
    KeysMember(g, ProblemOf, k);
    if r :| r in g && ProblemOf(r) == k {
      UnitRowMember(db, u, t, r);
      assert r.0.0 == TypeRow(k, t);
    }
    if Tagged(db, k, t) && Tried(db, u, k) {
      var s :| s in db.subs && s.userId == u && s.problemId == k;
      assert HasProblem(db, k);
      var p :| p in db.problems && p.id == k;
      var r: UnitJoin := ((TypeRow(k, t), p), s);
      UnitRowMember(db, u, t, r);
      assert r in g && ProblemOf(r) == k;
    }
  }

  lemma TriedIdsMember(db: Db, u: int, t: Text, k: int)
    requires Valid(db)
    ensures k in TriedIds(db, u, t) <==> Tagged(db, k, t) && Tried(db, u, k)
  {
    var ps := Filter(db.problems, TriedInUnit(db, u, t));
    MapMember(ps, Id, k);
    if p :| p in ps && Id(p) == k {
      FilterMember(db.problems, TriedInUnit(db, u, t), p);
    }
    if Tagged(db, k, t) && Tried(db, u, k) {
      var row := TypeRow(k, t);
      assert row in db.types && HasProblem(db, row.problemId);
      var p :| p in db.problems && p.id == k;
      FilterMember(db.problems, TriedInUnit(db, u, t), p);
      assert p in ps && Id(p) == k;
    }
  }

  lemma IdsDistinct(problems: seq<Problem>, p: Problem -> bool, ps: seq<Problem>, ids: seq<int>)
    requires forall i, j :: 0 <= i < j < |problems| ==> problems[i].id != problems[j].id
    requires ps == Filter(problems, p) && ids == Map(ps, Id)
    ensures Distinct(ids)
  {
    FilterKeepsOrder(problems, p, (a: Problem, b: Problem) => a.id != b.id);
  }

  lemma SolvedCount(db: Db, u: int, t: Text)
    requires Valid(db)
    ensures |Keys(Filter(UnitRows(db, u), InUnit(t)), ProblemOf)| == |TriedIds(db, u, t)|
  {
    var keys, ids := Keys(Filter(UnitRows(db, u), InUnit(t)), ProblemOf), TriedIds(db, u, t);
    KeysDistinct(Filter(UnitRows(db, u), InUnit(t)), ProblemOf);
    IdsDistinct(db.problems, TriedInUnit(db, u, t), Filter(db.problems, TriedInUnit(db, u, t)), ids);
    forall k ensures k in keys <==> k in ids {
      UnitProblems(db, u, t, k);
      TriedIdsMember(db, u, t, k);
    }
    SameElements(keys, ids);
  }

  // ---------- the whole result ----------

  lemma GroupIsDirect(db: Db, u: int, t: Text)
    requires Valid(db)
    ensures UnitGroup(db, u, t) == DirectUnit(db, u, t)
  {
    var g := Filter(UnitRows(db, u), InUnit(t));
    SolvedCount(db, u, t);
    forall r: UnitJoin | r in g ensures When(Any)(r) {
      assert Any(r.1);
    }
    CountAll(g, When(Any));
    UnitCount(db, u, t, Any);
    UnitCount(db, u, t, Within20);
    UnitCount(db, u, t, Within30);
    UnitCount(db, u, t, Over30);
  }

  lemma RowsPresent(rows: seq<UnitJoin>, t: Text)
    ensures t in Keys(rows, UnitOf) <==> Count(Filter(rows, InUnit(t)), When(Any)) > 0
  {
    KeysMember(rows, UnitOf, t);
    CountFilter(rows, InUnit(t), When(Any));
    forall r | r in rows ensures Both(InUnit(t), When(Any))(r) == InUnit(t)(r) {
      assert Any(r.1);
    }
    CountExt(rows, Both(InUnit(t), When(Any)), InUnit(t));
    CountZero(rows, InUnit(t));
  }

  lemma UnitPresent(db: Db, u: int, t: Text)
    requires Valid(db)
    ensures t in Keys(UnitRows(db, u), UnitOf) <==> InUnitCount(db, u, t, Any) > 0
  {
    UnitCount(db, u, t, Any);
    RowsPresent(UnitRows(db, u), t);
  }

  /** A row of direct counts, for a unit in which the user has a submission. */
  ghost predicate Reported(db: Db, u: int, r: UnitAgg) {
    r == DirectUnit(db, u, r.unit) && r.total > 0
  }

  /**
    What the overview promises: one row for each unit in which the user has a submission, no other
    rows, the direct counts in each, in the stated order.
  */
  ghost predicate OverviewSpec(db: Db, u: int, rows: seq<UnitAgg>) {
    && (forall i, j :: 0 <= i < j < |rows| ==> rows[i].unit != rows[j].unit)
    && (forall i, j :: 0 <= i < j < |rows| ==> !UnitBefore(rows[j], rows[i]))
    && (forall r :: r in rows <==> Reported(db, u, r))
  }

  lemma GroupsMember(db: Db, u: int, r: UnitAgg)
    requires Valid(db)
    ensures r in UnitGroups(db, u) <==> Reported(db, u, r)
  {
    var keys := Keys(UnitRows(db, u), UnitOf);
    UnitPresent(db, u, r.unit);
    GroupIsDirect(db, u, r.unit);
    if r in UnitGroups(db, u) {
      var i :| 0 <= i < |keys| && UnitGroups(db, u)[i] == r;
      assert r == UnitGroup(db, u, keys[i]) && r.unit == keys[i];
    }
    if r.unit in keys {
      var i :| 0 <= i < |keys| && keys[i] == r.unit;
      assert UnitGroups(db, u)[i] == UnitGroup(db, u, r.unit);
    }
  }

  lemma GroupsDistinct(db: Db, u: int)
    ensures Distinct(UnitGroups(db, u))
  {
    var keys, groups := Keys(UnitRows(db, u), UnitOf), UnitGroups(db, u);
    KeysDistinct(UnitRows(db, u), UnitOf);
    forall i, j | 0 <= i < j < |groups| ensures groups[i] != groups[j] {
      assert groups[i].unit == keys[i] && groups[j].unit == keys[j];
    }
  }

  lemma ResultMeetsSpec(db: Db, u: int, rows: seq<UnitAgg>)
    requires Valid(db) && Overview(db, u, rows)
    ensures OverviewSpec(db, u, rows)
  {
    var groups := UnitGroups(db, u);
    GroupsDistinct(db, u);
    PermutedDistinct(groups, rows);
    forall r ensures r in rows <==> Reported(db, u, r) {
      GroupsMember(db, u, r);
    }
    forall i, j | 0 <= i < j < |rows| ensures rows[i].unit != rows[j].unit {
      assert Reported(db, u, rows[i]) && Reported(db, u, rows[j]);
    }
  }

  lemma SpecIsResult(db: Db, u: int, rows: seq<UnitAgg>)
    requires Valid(db) && OverviewSpec(db, u, rows)
    ensures Overview(db, u, rows)
  {
    var groups := UnitGroups(db, u);
    GroupsDistinct(db, u);
    forall r ensures r in groups <==> r in rows {
      GroupsMember(db, u, r);
    }
    assert Distinct(rows);
    SameElements(groups, rows);
  }

  /** The pipeline returns a result exactly when it is the promised one. */
  lemma OverviewRefines(db: Db, u: int, rows: seq<UnitAgg>)
    requires Valid(db)
    ensures Overview(db, u, rows) <==> OverviewSpec(db, u, rows)
  {
    if Overview(db, u, rows) {
      ResultMeetsSpec(db, u, rows);
    } else if OverviewSpec(db, u, rows) {
      SpecIsResult(db, u, rows);
    }
  }
}
