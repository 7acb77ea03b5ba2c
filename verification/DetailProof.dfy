/** The detail query returns exactly the direct counts and the newest submission of each problem. */
module DetailProof {
  import opened Bytes
  import opened Folds
  import opened Relational
  import opened Tables
  import opened Statistics
  import opened OverviewProof

  // ---------- the newest submission ----------

  lemma {:induction false} NewestIs(xs: seq<Submission>, u: int, k: int)
    requires forall i, j :: 0 <= i < j < |xs| ==> xs[i].id < xs[j].id
    ensures Newest(xs, u, k).None? <==> forall s :: s in xs ==> !(s.userId == u && s.problemId == k)
    ensures Newest(xs, u, k).Some? ==>
              var n := Newest(xs, u, k).value;
              && n in xs && n.userId == u && n.problemId == k
              && forall s :: s in xs && s.userId == u && s.problemId == k ==> s.id <= n.id
  {
    if xs != [] {
      var n := |xs| - 1;
      assert xs == xs[..n] + [xs[n]];
      NewestIs(xs[..n], u, k);
    }
  }

  lemma {:induction false} MaxIdBounds(xs: seq<Submission>)
    requires forall s :: s in xs ==> s.id >= 1
    ensures forall s :: s in xs ==> s.id <= MaxId(xs)
    ensures xs != [] ==> exists s :: s in xs && s.id == MaxId(xs)
  {
    if xs != [] {
      MaxIdBounds(xs[1..]);
      if xs[0].id > MaxId(xs[1..]) {
        assert xs[0] in xs;
      } else if xs[1..] != [] {
        var s :| s in xs[1..] && s.id == MaxId(xs[1..]);
        assert s in xs;
      }
    }
  }

  function Mine(db: Db, u: int, k: int): seq<Submission> {
    Filter(Filter(db.subs, OfUser(u)), OfProblem(k))
  }

  lemma MineMember(db: Db, u: int, k: int, s: Submission)
    ensures s in Mine(db, u, k) <==> s in db.subs && s.userId == u && s.problemId == k
  {
    FilterMember(Filter(db.subs, OfUser(u)), OfProblem(k), s);
    FilterMember(db.subs, OfUser(u), s);
  }

  /** MAX(id) over one of the user's problems picks the newest submission to it. */
  lemma MaxIdIsNewest(db: Db, u: int, k: int)
    requires Valid(db) && Tried(db, u, k)
    ensures Newest(db.subs, u, k).Some?
    ensures forall s :: s in db.subs ==> (s.id == MaxId(Mine(db, u, k)) <==> s == Newest(db.subs, u, k).value)
  {
    NewestIs(db.subs, u, k);
    var mine, n := Mine(db, u, k), Newest(db.subs, u, k).value;
    forall s ensures s in mine <==> s in db.subs && s.userId == u && s.problemId == k {
      MineMember(db, u, k, s);
    }
    MaxIdBounds(mine);
    assert n in mine;
    var m :| m in mine && m.id == MaxId(mine);
    assert n.id == MaxId(mine);
    IdsIdentify(db);
  }

  lemma IdsIdentify(db: Db)
    requires Valid(db)
    ensures forall s, r :: s in db.subs && r in db.subs && s.id == r.id ==> s == r
    ensures Distinct(db.subs)
  {
  }

  lemma TriedKey(db: Db, u: int, k: int)
    ensures k in Keys(Filter(db.subs, OfUser(u)), ProblemIdOf) <==> Tried(db, u, k)
  {
    var mine := Filter(db.subs, OfUser(u));
    KeysMember(mine, ProblemIdOf, k);
    forall s ensures s in mine <==> s in db.subs && s.userId == u {
      FilterMember(db.subs, OfUser(u), s);
    }
    if Tried(db, u, k) {
      var s :| s in db.subs && s.userId == u && s.problemId == k;
      assert s in mine && ProblemIdOf(s) == k;
    }
  }

  function WithMax(db: Db, u: int): int -> (int, int) {
    (k: int) => (k, MaxId(Mine(db, u, k)))
  }

  lemma MaxIdsMember(db: Db, u: int, m: (int, int))
    ensures m in MaxIds(db, u) <==> Tried(db, u, m.0) && m.1 == MaxId(Mine(db, u, m.0))
  {
    var keys := Keys(Filter(db.subs, OfUser(u)), ProblemIdOf);
    TriedKey(db, u, m.0);
    assert MaxIds(db, u) == Map(keys, WithMax(db, u));
    MapMember(keys, WithMax(db, u), m);
    if m.0 in keys {
      assert WithMax(db, u)(m.0) == (m.0, MaxId(Mine(db, u, m.0)));
    }
  }

  lemma MaxIdsDistinct(db: Db, u: int)
    ensures Distinct(MaxIds(db, u))
  {
    var keys := Keys(Filter(db.subs, OfUser(u)), ProblemIdOf);
    KeysDistinct(Filter(db.subs, OfUser(u)), ProblemIdOf);
    forall i, j | 0 <= i < j < |keys| ensures MaxIds(db, u)[i] != MaxIds(db, u)[j] {
      assert MaxIds(db, u)[i].0 == keys[i] && MaxIds(db, u)[j].0 == keys[j];
    }
  }

  lemma LatestIsNewest(db: Db, u: int, e: Submission)
    requires Valid(db) && e in LatestRows(db, u)
    ensures Newest(db.subs, u, e.problemId) == Some(e)
  {
    var joined := Join(db.subs, MaxIds(db, u), OnMaxId);
    var firsts := Map(joined, First);
    FilterMember(firsts, OfUser(u), e);
    var i :| 0 <= i < |firsts| && firsts[i] == e;
    var r := joined[i];
    JoinMember(db.subs, MaxIds(db, u), OnMaxId, r);
    MaxIdsMember(db, u, r.1);
    MaxIdIsNewest(db, u, r.1.0);
    NewestIs(db.subs, u, r.1.0);
  }

  lemma NewestIsLatest(db: Db, u: int, e: Submission)
    requires Valid(db) && Newest(db.subs, u, e.problemId) == Some(e)
    ensures e in LatestRows(db, u)
  {
    var joined := Join(db.subs, MaxIds(db, u), OnMaxId);
    var firsts := Map(joined, First);
    NewestIs(db.subs, u, e.problemId);
    MaxIdIsNewest(db, u, e.problemId);
    var r := (e, (e.problemId, MaxId(Mine(db, u, e.problemId))));
    MaxIdsMember(db, u, r.1);
    JoinMember(db.subs, MaxIds(db, u), OnMaxId, r);
    var i :| 0 <= i < |joined| && joined[i] == r;
    assert firsts[i] == e;
    FilterMember(firsts, OfUser(u), e);
  }

  /** The derived table holds the newest submission of each problem the user has tried. */
  lemma LatestMember(db: Db, u: int, e: Submission)
    requires Valid(db)
    ensures e in LatestRows(db, u) <==> Newest(db.subs, u, e.problemId) == Some(e)
  {
    if e in LatestRows(db, u) {
      LatestIsNewest(db, u, e);
    } else if Newest(db.subs, u, e.problemId) == Some(e) {
      NewestIsLatest(db, u, e);
    }
  }

  lemma LatestCell(db: Db, u: int, k: int, s: Submission, m: (int, int))
    requires Valid(db) && Tried(db, u, k) && s in db.subs && m in MaxIds(db, u) && Newest(db.subs, u, k).Some?
    ensures var e := Newest(db.subs, u, k).value;
            s.id == m.1 && s.userId == u && s.problemId == k <==> s == e && m == (k, e.id)
  {
    MaxIdsMember(db, u, m);
    MaxIdIsNewest(db, u, m.0);
    MaxIdIsNewest(db, u, k);
    NewestIs(db.subs, u, m.0);
    NewestIs(db.subs, u, k);
  }

  lemma TopPresent(db: Db, u: int, k: int)
    requires Valid(db) && Tried(db, u, k) && Newest(db.subs, u, k).Some?
    ensures (k, Newest(db.subs, u, k).value.id) in MaxIds(db, u)
  {
    MaxIdIsNewest(db, u, k);
    NewestIs(db.subs, u, k);
    MaxIdsMember(db, u, (k, Newest(db.subs, u, k).value.id));
  }

  lemma MatchedCell(u: int, k: int, s: Submission, m: (int, int))
    ensures Row(Matched(OnMaxId, Through(First, Both(OfUser(u), OfProblem(k)))), s)(m)
            == (s.id == m.1 && s.userId == u && s.problemId == k)
  {
    var both := Both(OfUser(u), OfProblem(k));
    assert both(s) == (s.userId == u && s.problemId == k);
    assert Through(First, both)((s, m)) == both(First((s, m)));
    assert OnMaxId(s, m) == (s.id == m.1);
  }

  lemma LatestColumn(db: Db, u: int, k: int, s: Submission)
    requires Valid(db) && Tried(db, u, k) && s in db.subs && Newest(db.subs, u, k).Some?
    ensures RowCount(MaxIds(db, u), Matched(OnMaxId, Through(First, Both(OfUser(u), OfProblem(k)))))(s)
            == Indicator(Is(Newest(db.subs, u, k).value))(s)
  {
    var e := Newest(db.subs, u, k).value;
    var w := Matched(OnMaxId, Through(First, Both(OfUser(u), OfProblem(k))));
    var top := (k, e.id);
    forall m | m in MaxIds(db, u) ensures Row(w, s)(m) == (s == e && m == top) {
      LatestCell(db, u, k, s, m);
      MatchedCell(u, k, s, m);
    }
    if s == e {
      TopPresent(db, u, k);
      MaxIdsDistinct(db, u);
      CountExt(MaxIds(db, u), Row(w, s), Is(top));
      CountDistinct(MaxIds(db, u), top);
    } else {
      CountZero(MaxIds(db, u), Row(w, s));
    }
  }

  /** The derived table neither misses nor repeats a problem the user has tried. */
  lemma LatestCount(db: Db, u: int, k: int)
    requires Valid(db) && Tried(db, u, k)
    ensures Count(LatestRows(db, u), OfProblem(k)) == 1
  {
    MaxIdIsNewest(db, u, k);
    NewestIs(db.subs, u, k);
    var e := Newest(db.subs, u, k).value;
    var joined := Join(db.subs, MaxIds(db, u), OnMaxId);
    var q := Through(First, Both(OfUser(u), OfProblem(k)));
    CountFilter(Map(joined, First), OfUser(u), OfProblem(k));
    CountMap(joined, First, Both(OfUser(u), OfProblem(k)));
    CountJoin(db.subs, MaxIds(db, u), OnMaxId, q);
    forall s | s in db.subs ensures RowCount(MaxIds(db, u), Matched(OnMaxId, q))(s) == Indicator(Is(e))(s) {
      LatestColumn(db, u, k, s);
    }
    SumExt(db.subs, RowCount(MaxIds(db, u), Matched(OnMaxId, q)), Indicator(Is(e)));
    SumIndicator(db.subs, Is(e));
    IdsIdentify(db);
    CountDistinct(db.subs, e);
  }

  // ---------- counting through the joins ----------

  function TagPair(k: int, t: Text): ((Problem, TypeRow)) -> bool {
    (x: (Problem, TypeRow)) => x.0.id == k && x.1.unit == t
  }

  lemma TagPairCount(db: Db, k: int, t: Text)
    requires Valid(db)
    ensures Count(Join(db.problems, db.types, OnType), TagPair(k, t)) == if Tagged(db, k, t) then 1 else 0
  {
    var row, w := TypeRow(k, t), Matched(OnType, TagPair(k, t));
    CountJoinByRight(db.problems, db.types, OnType, TagPair(k, t));
    forall r | r in db.types ensures ColCount(db.problems, w)(r) == Indicator(Is(row))(r) {
      CountProblems(db.problems, r.problemId);
      assert HasProblem(db, r.problemId);
      forall p | p in db.problems ensures Col(w, r)(p) == (r == row && IdIs(r.problemId)(p)) {
        assert TagPair(k, t)((p, r)) == (p.id == k && r.unit == t);
      }
      if r == row {
        CountExt(db.problems, Col(w, r), IdIs(r.problemId));
      } else {
        CountZero(db.problems, Col(w, r));
      }
    }
    SumExt(db.types, ColCount(db.problems, w), Indicator(Is(row)));
    SumIndicator(db.types, Is(row));
    CountDistinct(db.types, row);
  }

  type SubmittedJoin = ((Problem, TypeRow), Submission)

  function Picked(t: Text, k: int, c: Submission -> bool): SubmittedJoin -> bool {
    (y: SubmittedJoin) => y.0.1.unit == t && y.0.0.id == k && c(y.1)
  }

  lemma SubmittedColumn(db: Db, u: int, t: Text, k: int, c: Submission -> bool, s: Submission)
    requires Valid(db) && Tagged(db, k, t)
    ensures ColCount(Join(db.problems, db.types, OnType), Matched(OnSubmissionOf(u), Picked(t, k, c)))(s)
            == Indicator(Against(u, k, c))(s)
  {
    var pt, w := Join(db.problems, db.types, OnType), Matched(OnSubmissionOf(u), Picked(t, k, c));
    forall x | x in pt ensures Col(w, s)(x) == (Against(u, k, c)(s) && TagPair(k, t)(x)) {
      assert Picked(t, k, c)((x, s)) == (x.1.unit == t && x.0.id == k && c(s));
    }
    TagPairCount(db, k, t);
    if Against(u, k, c)(s) {
      CountExt(pt, Col(w, s), TagPair(k, t));
    } else {
      CountZero(pt, Col(w, s));
    }
  }

  lemma SubmittedCount(db: Db, u: int, t: Text, k: int, c: Submission -> bool)
    requires Valid(db) && Tagged(db, k, t)
    ensures Count(SubmittedRows(db, u), Picked(t, k, c)) == OnProblemCount(db, u, k, c)
  {
    var pt, w := Join(db.problems, db.types, OnType), Matched(OnSubmissionOf(u), Picked(t, k, c));
    CountJoinByRight(pt, db.subs, OnSubmissionOf(u), Picked(t, k, c));
    forall s | s in db.subs ensures ColCount(pt, w)(s) == Indicator(Against(u, k, c))(s) {
      SubmittedColumn(db, u, t, k, c, s);
    }
    SumExt(db.subs, ColCount(pt, w), Indicator(Against(u, k, c)));
    SumIndicator(db.subs, Against(u, k, c));
  }

  function Selected(k: int, c: Submission -> bool): DetailJoin -> bool {
    (r: DetailJoin) => r.0.0.0.id == k && c(r.0.1)
  }

  lemma LatestRowCount(db: Db, u: int, t: Text, k: int, c: Submission -> bool, y: SubmittedJoin)
    requires Valid(db) && y in SubmittedRows(db, u)
    ensures RowCount(LatestRows(db, u), Matched(OnLatest, Both(OfUnit(t), Selected(k, c))))(y) == Indicator(Picked(t, k, c))(y)
  {
    var w := Matched(OnLatest, Both(OfUnit(t), Selected(k, c)));
    JoinMember(Join(db.problems, db.types, OnType), db.subs, OnSubmissionOf(u), y);
    assert Tried(db, u, y.0.0.id);
    forall e | e in LatestRows(db, u) ensures Row(w, y)(e) == (Picked(t, k, c)(y) && OfProblem(k)(e)) {
      assert Both(OfUnit(t), Selected(k, c))((y, e)) == Picked(t, k, c)(y);
    }
    if Picked(t, k, c)(y) {
      CountExt(LatestRows(db, u), Row(w, y), OfProblem(k));
      LatestCount(db, u, k);
    } else {
      CountZero(LatestRows(db, u), Row(w, y));
    }
  }

  /** The join with the derived table neither duplicates nor drops a submission. */
  lemma DetailCount(db: Db, u: int, t: Text, k: int, c: Submission -> bool)
    requires Valid(db) && Tagged(db, k, t)
    ensures Count(DetailRows(db, u, t), Selected(k, c)) == OnProblemCount(db, u, k, c)
  {
    var x, l := SubmittedRows(db, u), LatestRows(db, u);
    var w := Matched(OnLatest, Both(OfUnit(t), Selected(k, c)));
    CountFilter(Join(x, l, OnLatest), OfUnit(t), Selected(k, c));
    CountJoin(x, l, OnLatest, Both(OfUnit(t), Selected(k, c)));
    forall y | y in x ensures RowCount(l, w)(y) == Indicator(Picked(t, k, c))(y) {
      LatestRowCount(db, u, t, k, c, y);
    }
    SumExt(x, RowCount(l, w), Indicator(Picked(t, k, c)));
    SumIndicator(x, Picked(t, k, c));
    SubmittedCount(db, u, t, k, c);
  }

  // ---------- groups ----------

  lemma DetailMember(db: Db, u: int, t: Text, r: DetailJoin)
    requires Valid(db)
    ensures r in DetailRows(db, u, t) <==>
            && r.0.0.0 in db.problems && r.0.0.1 in db.types && r.0.1 in db.subs
            && r.0.0.1 == TypeRow(r.0.0.0.id, t) && r.0.1.problemId == r.0.0.0.id && r.0.1.userId == u
            && r.1.problemId == r.0.0.0.id && Newest(db.subs, u, r.0.0.0.id) == Some(r.1)
  {
    FilterMember(Join(SubmittedRows(db, u), LatestRows(db, u), OnLatest), OfUnit(t), r);
    JoinMember(SubmittedRows(db, u), LatestRows(db, u), OnLatest, r);
    JoinMember(Join(db.problems, db.types, OnType), db.subs, OnSubmissionOf(u), r.0);
    JoinMember(db.problems, db.types, OnType, r.0.0);
    LatestMember(db, u, r.1);
  }

  /** Within the joined rows the five GROUP BY columns say no more than the problem number. */
  lemma KeyIsProblem(db: Db, u: int, t: Text, r: DetailJoin, q: DetailJoin)
    requires Valid(db) && r in DetailRows(db, u, t) && q in DetailRows(db, u, t)
    ensures KeyOf(r) == KeyOf(q) <==> r.0.0.0.id == q.0.0.0.id
    ensures r.0.0.0.id == q.0.0.0.id ==> r.0.0.0 == q.0.0.0
  {
    DetailMember(db, u, t, r);
    DetailMember(db, u, t, q);
  }

  lemma GroupCount(db: Db, u: int, t: Text, r: DetailJoin, c: Submission -> bool)
    requires Valid(db) && r in DetailRows(db, u, t)
    ensures Count(Filter(DetailRows(db, u, t), HasKey(KeyOf(r))), Whenever(c)) == OnProblemCount(db, u, r.0.0.0.id, c)
  {
    var rows, k := DetailRows(db, u, t), r.0.0.0.id;
    CountFilter(rows, HasKey(KeyOf(r)), Whenever(c));
    forall q: DetailJoin | q in rows ensures Both(HasKey(KeyOf(r)), Whenever(c))(q) == Selected(k, c)(q) {
      KeyIsProblem(db, u, t, r, q);
    }
    CountExt(rows, Both(HasKey(KeyOf(r)), Whenever(c)), Selected(k, c));
    DetailMember(db, u, t, r);
    DetailCount(db, u, t, k, c);
  }

  lemma GroupIsDirect(db: Db, u: int, t: Text, r: DetailJoin)
    requires Valid(db) && r in DetailRows(db, u, t)
    ensures DetailGroup(db, u, t, KeyOf(r)) == DirectDetail(db, u, r.0.0.0)
  {
    var g := Filter(DetailRows(db, u, t), HasKey(KeyOf(r)));
    DetailMember(db, u, t, r);
    forall q: DetailJoin | q in g ensures Whenever(Any)(q) {
      assert Any(q.0.1);
    }
    CountAll(g, Whenever(Any));
    GroupCount(db, u, t, r, Any);
    GroupCount(db, u, t, r, Within20);
    GroupCount(db, u, t, r, Within30);
    GroupCount(db, u, t, r, Over30);
  }

  // ---------- the whole result ----------

  /** A row of direct counts, for a problem of the unit that the user has tried. */
  ghost predicate Listed(db: Db, u: int, t: Text, r: DetailAgg) {
    exists p :: p in db.problems && Tagged(db, p.id, t) && Tried(db, u, p.id) && r == DirectDetail(db, u, p)
  }

  /**
    What the detail promises: one row for each problem of the unit that the user has tried, no other
    rows, the direct counts and the newest submission in each, in the stated order.
  */
  ghost predicate DetailSpec(db: Db, u: int, t: Text, rows: seq<DetailAgg>) {
    && (forall i, j :: 0 <= i < j < |rows| ==> rows[i].examNo != rows[j].examNo)
    && (forall i, j :: 0 <= i < j < |rows| ==> !DetailBefore(rows[j], rows[i]))
    && (forall r :: r in rows <==> Listed(db, u, t, r))
  }

  lemma RowFor(db: Db, u: int, t: Text, p: Problem) returns (r: DetailJoin)
    requires Valid(db) && p in db.problems && Tagged(db, p.id, t) && Tried(db, u, p.id)
    ensures r in DetailRows(db, u, t) && r.0.0.0 == p
  {
    var s :| s in db.subs && s.userId == u && s.problemId == p.id;
    MaxIdIsNewest(db, u, p.id);
    NewestIs(db.subs, u, p.id);
    r := (((p, TypeRow(p.id, t)), s), Newest(db.subs, u, p.id).value);
    DetailMember(db, u, t, r);
  }

  lemma KeyRow(db: Db, u: int, t: Text, k: DetailKey) returns (r: DetailJoin)
    requires k in Keys(DetailRows(db, u, t), KeyOf)
    ensures r in DetailRows(db, u, t) && KeyOf(r) == k
  {
    KeysMember(DetailRows(db, u, t), KeyOf, k);
    r :| r in DetailRows(db, u, t) && KeyOf(r) == k;
  }

  lemma GroupListed(db: Db, u: int, t: Text, g: DetailAgg)
    requires Valid(db) && g in DetailGroups(db, u, t)
    ensures Listed(db, u, t, g)
  {
    var keys := Keys(DetailRows(db, u, t), KeyOf);
    var i :| 0 <= i < |keys| && DetailGroups(db, u, t)[i] == g;
    var r := KeyRow(db, u, t, keys[i]);
    GroupIsDirect(db, u, t, r);
    DetailMember(db, u, t, r);
    var p := r.0.0.0;
    assert Tried(db, u, p.id) && g == DirectDetail(db, u, p);
  }

  lemma ListedGroup(db: Db, u: int, t: Text, p: Problem)
    requires Valid(db) && p in db.problems && Tagged(db, p.id, t) && Tried(db, u, p.id)
    ensures DirectDetail(db, u, p) in DetailGroups(db, u, t)
  {
    var r := RowFor(db, u, t, p);
    KeysMember(DetailRows(db, u, t), KeyOf, KeyOf(r));
    GroupOfKey(db, u, t, KeyOf(r));
    GroupIsDirect(db, u, t, r);
  }

  lemma GroupOfKey(db: Db, u: int, t: Text, k: DetailKey)
    requires k in Keys(DetailRows(db, u, t), KeyOf)
    ensures DetailGroup(db, u, t, k) in DetailGroups(db, u, t)
  {
    var keys := Keys(DetailRows(db, u, t), KeyOf);
    var i :| 0 <= i < |keys| && keys[i] == k;
    assert DetailGroups(db, u, t)[i] == DetailGroup(db, u, t, k);
  }

  lemma GroupsMember(db: Db, u: int, t: Text, g: DetailAgg)
    requires Valid(db)
    ensures g in DetailGroups(db, u, t) <==> Listed(db, u, t, g)
  {
    if g in DetailGroups(db, u, t) {
      GroupListed(db, u, t, g);
    } else if Listed(db, u, t, g) {
      var p :| p in db.problems && Tagged(db, p.id, t) && Tried(db, u, p.id) && g == DirectDetail(db, u, p);
      ListedGroup(db, u, t, p);
    }
  }

  lemma GroupsDistinct(db: Db, u: int, t: Text)
    requires Valid(db)
    ensures var groups := DetailGroups(db, u, t);
            forall i, j :: 0 <= i < j < |groups| ==> groups[i].examNo != groups[j].examNo
  {
    var rows := DetailRows(db, u, t);
    var keys, groups := Keys(rows, KeyOf), DetailGroups(db, u, t);
    KeysDistinct(rows, KeyOf);
    forall i, j | 0 <= i < j < |groups| ensures groups[i].examNo != groups[j].examNo {
      KeysMember(rows, KeyOf, keys[i]);
      KeysMember(rows, KeyOf, keys[j]);
      var r :| r in rows && KeyOf(r) == keys[i];
      var q :| q in rows && KeyOf(q) == keys[j];
      KeyIsProblem(db, u, t, r, q);
    }
  }

  lemma ListedUnique(db: Db, u: int, t: Text, r: DetailAgg, q: DetailAgg)
    requires Valid(db) && Listed(db, u, t, r) && Listed(db, u, t, q)
    ensures r.examNo == q.examNo ==> r == q
  {
  }

  lemma ResultMeetsSpec(db: Db, u: int, t: Text, rows: seq<DetailAgg>)
    requires Valid(db) && Detail(db, u, t, rows)
    ensures DetailSpec(db, u, t, rows)
  {
    var groups := DetailGroups(db, u, t);
    GroupsDistinct(db, u, t);
    assert Distinct(groups);
    PermutedDistinct(groups, rows);
    forall r ensures r in rows <==> Listed(db, u, t, r) {
      GroupsMember(db, u, t, r);
    }
    forall i, j | 0 <= i < j < |rows| ensures rows[i].examNo != rows[j].examNo {
      assert rows[i] in rows && rows[j] in rows;
      ListedUnique(db, u, t, rows[i], rows[j]);
    }
  }

  lemma SpecIsResult(db: Db, u: int, t: Text, rows: seq<DetailAgg>)
    requires Valid(db) && DetailSpec(db, u, t, rows)
    ensures Detail(db, u, t, rows)
  {
    var groups := DetailGroups(db, u, t);
    GroupsDistinct(db, u, t);
    assert Distinct(groups) && Distinct(rows);
    forall r ensures r in groups <==> r in rows {
      GroupsMember(db, u, t, r);
    }
    SameElements(groups, rows);
  }

  /** The pipeline returns a result exactly when it is the promised one. */
  lemma DetailRefines(db: Db, u: int, t: Text, rows: seq<DetailAgg>)
    requires Valid(db)
    ensures Detail(db, u, t, rows) <==> DetailSpec(db, u, t, rows)
  {
    if Detail(db, u, t, rows) {
      ResultMeetsSpec(db, u, t, rows);
    } else if DetailSpec(db, u, t, rows) {
      SpecIsResult(db, u, t, rows);
    }
  }
}
