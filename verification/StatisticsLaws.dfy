/** How the two queries relate to each other and to updates, for every result the server may return. */
module StatisticsLaws {
  import opened Bytes
  import opened Folds
  import opened Tables
  import opened Statistics
  import Relational
  import OverviewProof
  import DetailProof

  // ---------- the buckets of one row ----------

  lemma UnitBuckets(db: Db, u: int, t: Text)
    ensures InUnitCount(db, u, t, Any) == InUnitCount(db, u, t, Within30) + InUnitCount(db, u, t, Over30)
    ensures InUnitCount(db, u, t, Within20) <= InUnitCount(db, u, t, Within30)
  {
    var all, within, over, fast :=
      Matching(db, u, t, Any), Matching(db, u, t, Within30), Matching(db, u, t, Over30), Matching(db, u, t, Within20);
    forall s: Submission
      ensures (all(s) <==> within(s) || over(s)) && !(within(s) && over(s)) && (fast(s) ==> within(s))
    {
      assert Any(s) && Within30(s) == (s.status && s.minutes <= 30) && Over30(s) == (!s.status || s.minutes > 30);
      assert Within20(s) == (s.status && s.minutes <= 20);
    }
    CountPartition(db.subs, all, within, over);
    CountMonotone(db.subs, fast, within);
  }

  // ---------- roll-up ----------

  function Holds(u: int, c: Submission -> bool): (int, Submission) -> bool {
    (k: int, s: Submission) => s.userId == u && s.problemId == k && c(s)
  }

  function OnEach(db: Db, u: int, c: Submission -> bool): int -> int {
    (k: int) => OnProblemCount(db, u, k, c)
  }

  /** Summing over the tried problems of a unit counts every submission in the unit exactly once. */
  lemma ProblemsSumToUnit(db: Db, u: int, t: Text, ids: seq<int>, c: Submission -> bool)
    requires Distinct(ids)
    requires forall k :: k in ids <==> Tagged(db, k, t) && Tried(db, u, k)
    ensures Sum(ids, OnEach(db, u, c)) == InUnitCount(db, u, t, c)
  {
    var w, m := Holds(u, c), Matching(db, u, t, c);
    forall k | k in ids ensures OnEach(db, u, c)(k) == RowCount(db.subs, w)(k) {
      forall s | s in db.subs ensures Against(u, k, c)(s) == Row(w, k)(s) {
      }
      CountExt(db.subs, Against(u, k, c), Row(w, k));
    }
    SumExt(ids, OnEach(db, u, c), RowCount(db.subs, w));
    DoubleCount(ids, db.subs, w);
    forall s | s in db.subs ensures ColCount(ids, w)(s) == Indicator(m)(s) {
      forall k | k in ids ensures Col(w, s)(k) == (s.userId == u && c(s) && Is(s.problemId)(k)) {
      }
      if s.userId == u && c(s) {
        CountExt(ids, Col(w, s), Is(s.problemId));
        CountDistinct(ids, s.problemId);
      } else {
        CountZero(ids, Col(w, s));
      }
    }
    SumExt(db.subs, ColCount(ids, w), Indicator(m));
    SumIndicator(db.subs, m);
  }

  lemma TriedIdsAll(db: Db, u: int, t: Text)
    requires Valid(db)
    ensures Distinct(TriedIds(db, u, t))
    ensures forall k :: k in TriedIds(db, u, t) <==> Tagged(db, k, t) && Tried(db, u, k)
  {
    OverviewProof.IdsDistinct(db.problems, TriedInUnit(db, u, t), Filter(db.problems, TriedInUnit(db, u, t)), TriedIds(db, u, t));
    forall k ensures k in TriedIds(db, u, t) <==> Tagged(db, k, t) && Tried(db, u, k) {
      OverviewProof.TriedIdsMember(db, u, t, k);
    }
  }

  lemma SolvedAtMostTotal(db: Db, u: int, t: Text)
    requires Valid(db)
    ensures |TriedIds(db, u, t)| <= InUnitCount(db, u, t, Any)
  {
    var ids := TriedIds(db, u, t);
    TriedIdsAll(db, u, t);
    ProblemsSumToUnit(db, u, t, ids, Any);
    forall i | 0 <= i < |ids| ensures 1 <= OnEach(db, u, Any)(ids[i]) {
      assert ids[i] in ids && Tried(db, u, ids[i]);
      var s :| s in db.subs && s.userId == u && s.problemId == ids[i];
      assert Any(s) && Against(u, ids[i], Any)(s);
      CountZero(db.subs, Against(u, ids[i], Any));
    }
    SumAtLeast(ids, OnEach(db, u, Any));
  }

  lemma {:induction false} SumAtLeast<A>(xs: seq<A>, f: A -> int)
    requires forall i :: 0 <= i < |xs| ==> 1 <= f(xs[i])
    ensures |xs| <= Sum(xs, f)
  {
    if xs != [] {
      SumAtLeast(xs[1..], f);
    }
  }

  /** Every overview row, in every result: the buckets nest, partition the total, and bound the problems. */
  lemma OverviewRow(db: Db, u: int, rows: seq<UnitAgg>, r: UnitAgg)
    requires Valid(db) && Overview(db, u, rows) && r in rows
    ensures r.solved20 <= r.solved30
    ensures r.solved30 + r.over30 == r.total
    ensures 1 <= r.solved <= r.total
  {
    OverviewProof.OverviewRefines(db, u, rows);
    assert OverviewProof.Reported(db, u, r);
    UnitBuckets(db, u, r.unit);
    SolvedAtMostTotal(db, u, r.unit);
    var m := Matching(db, u, r.unit, Any);
    CountZero(db.subs, m);
    var s :| s in db.subs && m(s);
    TriedIdsAll(db, u, r.unit);
    assert s.problemId in TriedIds(db, u, r.unit);
  }

  function ExamNo(r: DetailAgg): int { r.examNo }

  function Total(r: DetailAgg): int { r.total }

  function Solved20(r: DetailAgg): int { r.solved20 }

  function Solved30(r: DetailAgg): int { r.solved30 }

  function Overs30(r: DetailAgg): int { r.over30 }

  lemma {:induction false} SumMap<A, B>(xs: seq<A>, f: A -> B, g: B -> int, h: A -> int)
    requires forall x :: x in xs ==> h(x) == g(f(x))
    ensures Sum(xs, h) == Sum(Map(xs, f), g)
  {
    if xs != [] {
      SumMap(xs[1..], f, g, h);
    }
  }

  lemma DetailExamNos(db: Db, u: int, t: Text, rows: seq<DetailAgg>)
    requires Valid(db) && DetailProof.DetailSpec(db, u, t, rows)
    ensures Distinct(Map(rows, ExamNo))
    ensures forall k :: k in Map(rows, ExamNo) <==> Tagged(db, k, t) && Tried(db, u, k)
    ensures |rows| == |TriedIds(db, u, t)|
  {
    var nos := Map(rows, ExamNo);
    forall k ensures k in nos <==> Tagged(db, k, t) && Tried(db, u, k) {
      MapMember(rows, ExamNo, k);
      if r :| r in rows && ExamNo(r) == k {
        assert DetailProof.Listed(db, u, t, r);
      }
      if Tagged(db, k, t) && Tried(db, u, k) {
        var row := TypeRow(k, t);
        assert row in db.types && HasProblem(db, row.problemId);
        var p :| p in db.problems && p.id == k;
        var r := DirectDetail(db, u, p);
        assert DetailProof.Listed(db, u, t, r);
        assert r in rows && ExamNo(r) == k;
      }
    }
    TriedIdsAll(db, u, t);
    SameElements(nos, TriedIds(db, u, t));
  }

  lemma ColumnSum(db: Db, u: int, t: Text, rows: seq<DetailAgg>, c: Submission -> bool, column: DetailAgg -> int)
    requires Valid(db) && DetailProof.DetailSpec(db, u, t, rows)
    requires forall r :: r in rows ==> column(r) == OnProblemCount(db, u, r.examNo, c)
    ensures Sum(rows, column) == InUnitCount(db, u, t, c)
  {
    DetailExamNos(db, u, t, rows);
    SumMap(rows, ExamNo, OnEach(db, u, c), column);
    ProblemsSumToUnit(db, u, t, Map(rows, ExamNo), c);
  }

  /**
    Roll-up: for every database, user and unit, and whatever order either query returned, the detail
    rows add up to the overview row of the unit; without an overview row there are no detail rows.
  */
  lemma RollUp(db: Db, u: int, t: Text, rows: seq<DetailAgg>, overview: seq<UnitAgg>)
    requires Valid(db) && Detail(db, u, t, rows) && Overview(db, u, overview)
    ensures forall r :: r in overview && r.unit == t ==>
              && Sum(rows, Total) == r.total && Sum(rows, Solved20) == r.solved20
              && Sum(rows, Solved30) == r.solved30 && Sum(rows, Overs30) == r.over30
              && |rows| == r.solved
    ensures (rows == []) <==> !exists r :: r in overview && r.unit == t
  {
    DetailProof.DetailRefines(db, u, t, rows);
    OverviewProof.OverviewRefines(db, u, overview);
    forall r | r in rows ensures DetailProof.Listed(db, u, t, r) {
    }
    ColumnSum(db, u, t, rows, Any, Total);
    ColumnSum(db, u, t, rows, Within20, Solved20);
    ColumnSum(db, u, t, rows, Within30, Solved30);
    ColumnSum(db, u, t, rows, Over30, Overs30);
    DetailExamNos(db, u, t, rows);
    var d := DirectUnit(db, u, t);
    if r :| r in overview && r.unit == t {
      assert OverviewProof.Reported(db, u, r);
      OverviewRow(db, u, overview, r);
    } else {
      assert d !in overview;
      assert !OverviewProof.Reported(db, u, d);
      SolvedAtMostTotal(db, u, t);
    }
  }

  // ---------- the sum of all totals ----------

  function UnitTotal(r: UnitAgg): int { r.total }

  function TypesOf(db: Db, u: int): Submission -> int {
    (s: Submission) => if s.userId == u then Count(db.types, ForProblem(s.problemId)) else 0
  }

  function ForProblem(k: int): TypeRow -> bool { (r: TypeRow) => r.problemId == k }

  function CountsIn(db: Db, u: int): (UnitAgg, Submission) -> bool {
    (r: UnitAgg, s: Submission) => s.userId == u && Tagged(db, s.problemId, r.unit)
  }

  function TaggedAs(db: Db, k: int): UnitAgg -> bool { (r: UnitAgg) => Tagged(db, k, r.unit) }

  function Unit(r: UnitAgg): Text { r.unit }

  function RowUnit(r: TypeRow): Text { r.unit }

  /** The overview rows a submission is counted in are the types of its problem. */
  lemma UnitsOfProblem(db: Db, u: int, rows: seq<UnitAgg>, s: Submission)
    requires Valid(db) && OverviewProof.OverviewSpec(db, u, rows) && s in db.subs && s.userId == u
    ensures Count(rows, TaggedAs(db, s.problemId)) == Count(db.types, ForProblem(s.problemId))
  {
    var k := s.problemId;
    var mine, types := Filter(rows, TaggedAs(db, k)), Filter(db.types, ForProblem(k));
    var xs, ys := Map(mine, Unit), Map(types, RowUnit);
    FilterLength(rows, TaggedAs(db, k));
    FilterLength(db.types, ForProblem(k));
    UnitsDistinct(rows, TaggedAs(db, k), mine);
    TypesDistinct(db.types, k, types);
    forall t ensures t in xs <==> Tagged(db, k, t) {
      UnitListed(db, u, rows, s, t);
    }
    forall t ensures t in ys <==> Tagged(db, k, t) {
      MapMember(types, RowUnit, t);
      if r :| r in types && RowUnit(r) == t {
        FilterMember(db.types, ForProblem(k), r);
      }
      if Tagged(db, k, t) {
        FilterMember(db.types, ForProblem(k), TypeRow(k, t));
        assert TypeRow(k, t) in types && RowUnit(TypeRow(k, t)) == t;
      }
    }
    SameElements(xs, ys);
  }

  lemma UnitsDistinct(rows: seq<UnitAgg>, p: UnitAgg -> bool, mine: seq<UnitAgg>)
    requires mine == Filter(rows, p)
    requires forall i, j :: 0 <= i < j < |rows| ==> rows[i].unit != rows[j].unit
    ensures Distinct(Map(mine, Unit))
  {
    FilterKeepsOrder(rows, p, (a: UnitAgg, b: UnitAgg) => a.unit != b.unit);
  }

  lemma TypesDistinct(types: seq<TypeRow>, k: int, mine: seq<TypeRow>)
    requires Distinct(types) && mine == Filter(types, ForProblem(k))
    ensures Distinct(Map(mine, RowUnit))
  {
    FilterMembers(types, ForProblem(k));
    FilterKeepsOrder(types, ForProblem(k), (a: TypeRow, b: TypeRow) => a != b);
    forall i, j | 0 <= i < j < |mine| ensures mine[i].unit != mine[j].unit {
      assert mine[i] in mine && mine[j] in mine;
    }
  }

  lemma UnitListed(db: Db, u: int, rows: seq<UnitAgg>, s: Submission, t: Text)
    requires Valid(db) && OverviewProof.OverviewSpec(db, u, rows) && s in db.subs && s.userId == u
    ensures t in Map(Filter(rows, TaggedAs(db, s.problemId)), Unit) <==> Tagged(db, s.problemId, t)
  {
    var k, mine := s.problemId, Filter(rows, TaggedAs(db, s.problemId));
    MapMember(mine, Unit, t);
    if r :| r in mine && Unit(r) == t {
      FilterMember(rows, TaggedAs(db, k), r);
    }
    if Tagged(db, k, t) {
      var r := DirectUnit(db, u, t);
      assert Any(s) && Matching(db, u, t, Any)(s);
      CountZero(db.subs, Matching(db, u, t, Any));
      assert OverviewProof.Reported(db, u, r);
      FilterMember(rows, TaggedAs(db, k), r);
      assert r in mine && Unit(r) == t;
    }
  }

  /** The totals of all units add up to the user's submissions, each counted once per type of its problem. */
  lemma TotalsCountTypes(db: Db, u: int, rows: seq<UnitAgg>)
    requires Valid(db) && Overview(db, u, rows)
    ensures Sum(rows, UnitTotal) == Sum(db.subs, TypesOf(db, u))
  {
    OverviewProof.OverviewRefines(db, u, rows);
    var w := CountsIn(db, u);
    forall r | r in rows ensures UnitTotal(r) == RowCount(db.subs, w)(r) {
      assert OverviewProof.Reported(db, u, r);
      forall s | s in db.subs ensures Matching(db, u, r.unit, Any)(s) == Row(w, r)(s) {
        assert Any(s);
      }
      CountExt(db.subs, Matching(db, u, r.unit, Any), Row(w, r));
    }
    SumExt(rows, UnitTotal, RowCount(db.subs, w));
    DoubleCount(rows, db.subs, w);
    forall s | s in db.subs ensures ColCount(rows, w)(s) == TypesOf(db, u)(s) {
      if s.userId == u {
        UnitsOfProblem(db, u, rows, s);
        forall r | r in rows ensures Col(w, s)(r) == TaggedAs(db, s.problemId)(r) {
        }
        CountExt(rows, Col(w, s), TaggedAs(db, s.problemId));
      } else {
        forall r | r in rows ensures !Col(w, s)(r) {
        }
        CountZero(rows, Col(w, s));
      }
    }
    SumExt(db.subs, ColCount(rows, w), TypesOf(db, u));
  }

  // ---------- the list of a user's submissions ----------

  lemma ListingNext(rows: seq<Submission>, last: Submission)
    ensures Listing(rows + [last]) == Listing(rows)[last.id := last]
  {
    assert (rows + [last])[..|rows|] == rows;
  }

  predicate HasRow(rows: seq<Submission>, id: int) { exists s :: s in rows && s.id == id }

  /** What is true of the entries of a list of rows with increasing numbers. */
  ghost predicate Lists(m: map<int, Submission>, rows: seq<Submission>) {
    && |m| == |rows|
    && (forall id :: id in m <==> HasRow(rows, id))
    && forall s :: s in rows ==> s.id in m && m[s.id] == s
  }

  lemma ListsMore(m: map<int, Submission>, rows: seq<Submission>, last: Submission)
    requires Lists(m, rows) && forall s :: s in rows ==> s.id < last.id
    ensures Lists(m[last.id := last], rows + [last])
  {
    assert last.id !in m;
    forall id ensures HasRow(rows + [last], id) <==> HasRow(rows, id) || id == last.id {
      if HasRow(rows, id) {
        var s :| s in rows && s.id == id;
        assert s in rows + [last];
      }
      assert last in rows + [last];
    }
  }

  lemma {:induction false} ListingOf(rows: seq<Submission>)
    requires forall i, j :: 0 <= i < j < |rows| ==> rows[i].id < rows[j].id
    ensures Lists(Listing(rows), rows)
  {
    if rows != [] {
      var n := |rows| - 1;
      var init, last := rows[..n], rows[n];
      ListingOf(init);
      assert rows == init + [last];
      ListingNext(init, last);
      ListsMore(Listing(init), init, last);
    }
  }

  lemma ListedRows(db: Db, u: int, k: int, rows: seq<Submission>)
    requires Valid(db) && rows == Filter(db.subs, Against(u, k, Any))
    ensures |rows| == OnProblemCount(db, u, k, Any)
    ensures forall i, j :: 0 <= i < j < |rows| ==> rows[i].id < rows[j].id
    ensures forall s :: s in rows <==> s in db.subs && s.userId == u && s.problemId == k
  {
    FilterLength(db.subs, Against(u, k, Any));
    FilterKeepsOrder(db.subs, Against(u, k, Any), (a: Submission, b: Submission) => a.id < b.id);
    forall s: Submission ensures s in rows <==> s in db.subs && s.userId == u && s.problemId == k {
      FilterMember(db.subs, Against(u, k, Any), s);
      assert Any(s);
    }
  }

  /**
    The list of a user's submissions to a problem agrees with the detail query: it has as many entries
    as the row's total, and the entry with the largest number carries the row's last date, time and state.
  */
  lemma ListingMatchesDetail(db: Db, u: int, t: Text, details: seq<DetailAgg>, r: DetailAgg)
    requires Valid(db) && Detail(db, u, t, details) && r in details
    ensures var m := Listing(Filter(db.subs, Against(u, r.examNo, Any)));
            && |m| == r.total
            && exists id :: id in m && (forall j :: j in m ==> j <= id)
                 && m[id].date == r.lastDate && m[id].timeSpent == r.lastTime && m[id].status == r.lastStatus
  {
    DetailProof.ResultMeetsSpec(db, u, t, details);
    assert DetailProof.Listed(db, u, t, r);
    var p :| p in db.problems && Tagged(db, p.id, t) && Tried(db, u, p.id) && r == DirectDetail(db, u, p);
    var rows := Filter(db.subs, Against(u, p.id, Any));
    ListedRows(db, u, p.id, rows);
    ListingOf(rows);
    DetailProof.NewestIs(db.subs, u, p.id);
    var last := Newest(db.subs, u, p.id).value;
    assert last in rows && last.id in Listing(rows);
  }

  // ---------- every query has a result ----------

  /** Both orders are total preorders, so the server always has something to return. */
  lemma ResultsExist(db: Db, u: int, t: Text) returns (rows: seq<UnitAgg>, details: seq<DetailAgg>)
    ensures Overview(db, u, rows) && Detail(db, u, t, details)
  {
    rows := Relational.ResultExists(UnitGroups(db, u), UnitBefore);
    details := Relational.ResultExists(DetailGroups(db, u, t), DetailBefore);
  }
}
