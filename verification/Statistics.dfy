/**
  The two statistics queries as the join, filter, group and order pipelines that `Select_UnitsData` and
  `Select_Unitdetail` send to the server, and the direct counts they are meant to report.
*/
module Statistics {
  import opened Bytes
  import opened Folds
  import opened Relational
  import opened Tables

  // ---------- the three CASE expressions ----------

  predicate Any(s: Submission) { true }

  predicate Within20(s: Submission) { s.status && s.minutes <= 20 }

  predicate Within30(s: Submission) { s.status && s.minutes <= 30 }

  predicate Over30(s: Submission) { !s.status || s.minutes > 30 }

  // ---------- overview query ----------

  type UnitJoin = ((TypeRow, Problem), Submission)

  predicate OnProblem(t: TypeRow, p: Problem) { p.id == t.problemId }

  predicate OnSubmission(x: (TypeRow, Problem), s: Submission) { s.problemId == x.1.id }

  function TypedProblems(db: Db): seq<(TypeRow, Problem)> {
    Join(db.types, db.problems, OnProblem)
  }

  function ByUser(u: int): UnitJoin -> bool { (r: UnitJoin) => r.1.userId == u }

  function InUnit(t: Text): UnitJoin -> bool { (r: UnitJoin) => r.0.0.unit == t }

  function UnitOf(r: UnitJoin): Text { r.0.0.unit }

  function ProblemOf(r: UnitJoin): int { r.0.1.id }

  function When(c: Submission -> bool): UnitJoin -> bool { (r: UnitJoin) => c(r.1) }

  function UnitRows(db: Db, u: int): seq<UnitJoin> {
    Filter(Join(TypedProblems(db), db.subs, OnSubmission), ByUser(u))
  }

  datatype UnitAgg = UnitAgg(unit: Text, solved: nat, total: nat, solved20: nat, solved30: nat, over30: nat)

  function AggregateUnit(t: Text, g: seq<UnitJoin>): UnitAgg {
    UnitAgg(t, |Keys(g, ProblemOf)|, |g|, Count(g, When(Within20)), Count(g, When(Within30)), Count(g, When(Over30)))
  }

  function UnitGroup(db: Db, u: int, t: Text): UnitAgg {
    AggregateUnit(t, Filter(UnitRows(db, u), InUnit(t)))
  }

  function UnitGroups(db: Db, u: int): seq<UnitAgg> {
    Map(Keys(UnitRows(db, u), UnitOf), (t: Text) => UnitGroup(db, u, t))
  }

  predicate UnitBefore(a: UnitAgg, b: UnitAgg) {
    || a.over30 > b.over30
    || (a.over30 == b.over30 && a.solved30 > b.solved30)
    || (a.over30 == b.over30 && a.solved30 == b.solved30 && a.solved20 > b.solved20)
  }

  /** `rows` is one of the results the server may return for the overview query. */
  ghost predicate Overview(db: Db, u: int, rows: seq<UnitAgg>) {
    OrderedResult(rows, UnitGroups(db, u), UnitBefore)
  }

  // ---------- detail query ----------

  type DetailJoin = (((Problem, TypeRow), Submission), Submission)

  predicate OnType(p: Problem, t: TypeRow) { p.id == t.problemId }

  function OnSubmissionOf(u: int): ((Problem, TypeRow), Submission) -> bool {
    (x: (Problem, TypeRow), s: Submission) => s.problemId == x.0.id && s.userId == u
  }

  predicate OnLatest(y: ((Problem, TypeRow), Submission), e: Submission) { e.problemId == y.0.0.id }

  function OfUser(u: int): Submission -> bool { (s: Submission) => s.userId == u }

  function ProblemIdOf(s: Submission): int { s.problemId }

  function OfProblem(k: int): Submission -> bool { (s: Submission) => s.problemId == k }

  function MaxId(xs: seq<Submission>): int {
    if xs == [] then 0
    else if xs[0].id > MaxId(xs[1..]) then xs[0].id else MaxId(xs[1..])
  }

  /** The innermost select: for each problem of the user, the largest submission number. */
  function MaxIds(db: Db, u: int): seq<(int, int)> {
    var mine := Filter(db.subs, OfUser(u));
    Map(Keys(mine, ProblemIdOf), (k: int) => (k, MaxId(Filter(mine, OfProblem(k)))))
  }

  predicate OnMaxId(s: Submission, m: (int, int)) { s.id == m.1 }

  function First(r: (Submission, (int, int))): Submission { r.0 }

  function LatestRows(db: Db, u: int): seq<Submission> {
    Filter(Map(Join(db.subs, MaxIds(db, u), OnMaxId), First), OfUser(u))
  }

  function SubmittedRows(db: Db, u: int): seq<((Problem, TypeRow), Submission)> {
    Join(Join(db.problems, db.types, OnType), db.subs, OnSubmissionOf(u))
  }

  function OfUnit(t: Text): DetailJoin -> bool { (r: DetailJoin) => r.0.0.1.unit == t }

  function DetailRows(db: Db, u: int, t: Text): seq<DetailJoin> {
    Filter(Join(SubmittedRows(db, u), LatestRows(db, u), OnLatest), OfUnit(t))
  }

  datatype DetailKey = DetailKey(id: int, title: Text, date: int, time: Text, status: bool)

  datatype DetailAgg = DetailAgg(
    examNo: int, name: Text, total: nat, solved20: nat, solved30: nat, over30: nat,
    lastDate: int, lastTime: Text, lastStatus: bool)

  function KeyOf(r: DetailJoin): DetailKey {
    DetailKey(r.0.0.0.id, r.0.0.0.title, r.1.date, r.1.timeSpent, r.1.status)
  }

  function Whenever(c: Submission -> bool): DetailJoin -> bool { (r: DetailJoin) => c(r.0.1) }

  function HasKey(k: DetailKey): DetailJoin -> bool { (r: DetailJoin) => KeyOf(r) == k }

  function AggregateDetail(k: DetailKey, g: seq<DetailJoin>): DetailAgg {
    DetailAgg(k.id, k.title, |g|, Count(g, Whenever(Within20)), Count(g, Whenever(Within30)), Count(g, Whenever(Over30)),
              k.date, k.time, k.status)
  }

  function DetailGroup(db: Db, u: int, t: Text, k: DetailKey): DetailAgg {
    AggregateDetail(k, Filter(DetailRows(db, u, t), HasKey(k)))
  }

  function DetailGroups(db: Db, u: int, t: Text): seq<DetailAgg> {
    Map(Keys(DetailRows(db, u, t), KeyOf), (k: DetailKey) => DetailGroup(db, u, t, k))
  }

  predicate DetailBefore(a: DetailAgg, b: DetailAgg) {
    || a.lastDate > b.lastDate
    || (a.lastDate == b.lastDate && a.over30 > b.over30)
    || (a.lastDate == b.lastDate && a.over30 == b.over30 && a.solved30 > b.solved30)
    || (a.lastDate == b.lastDate && a.over30 == b.over30 && a.solved30 == b.solved30 && a.solved20 > b.solved20)
  }

  /** `rows` is one of the results the server may return for the detail query. */
  ghost predicate Detail(db: Db, u: int, t: Text, rows: seq<DetailAgg>) {
    OrderedResult(rows, DetailGroups(db, u, t), DetailBefore)
  }

  // ---------- direct counts ----------

  predicate Tagged(db: Db, problem: int, t: Text) { TypeRow(problem, t) in db.types }

  function Matching(db: Db, u: int, t: Text, c: Submission -> bool): Submission -> bool {
    (s: Submission) => s.userId == u && Tagged(db, s.problemId, t) && c(s)
  }

  /** The user's submissions, of class `c`, to problems tagged with the unit. */
  function InUnitCount(db: Db, u: int, t: Text, c: Submission -> bool): nat {
    Count(db.subs, Matching(db, u, t, c))
  }

  function Against(u: int, problem: int, c: Submission -> bool): Submission -> bool {
    (s: Submission) => s.userId == u && s.problemId == problem && c(s)
  }

  /** The user's submissions, of class `c`, to one problem. */
  function OnProblemCount(db: Db, u: int, problem: int, c: Submission -> bool): nat {
    Count(db.subs, Against(u, problem, c))
  }

  predicate Tried(db: Db, u: int, problem: int) {
    exists s :: s in db.subs && s.userId == u && s.problemId == problem
  }

  function TriedInUnit(db: Db, u: int, t: Text): Problem -> bool {
    (p: Problem) => Tagged(db, p.id, t) && Tried(db, u, p.id)
  }

  function Id(p: Problem): int { p.id }

  function TriedIds(db: Db, u: int, t: Text): seq<int> {
    Map(Filter(db.problems, TriedInUnit(db, u, t)), Id)
  }

  function DirectUnit(db: Db, u: int, t: Text): UnitAgg {
    UnitAgg(t, |TriedIds(db, u, t)|, InUnitCount(db, u, t, Any), InUnitCount(db, u, t, Within20),
            InUnitCount(db, u, t, Within30), InUnitCount(db, u, t, Over30))
  }

  /** The user's newest surviving submission to a problem: the last one in insertion order. */
  function Newest(xs: seq<Submission>, u: int, problem: int): Option<Submission> {
    if xs == [] then None
    else
      var last := xs[|xs| - 1];
      if last.userId == u && last.problemId == problem then Some(last) else Newest(xs[..|xs| - 1], u, problem)
  }

  /** Rows keyed by their number, as `getSubmissions` returns them. */
  function Listing(rows: seq<Submission>): map<int, Submission> {
    if rows == [] then map[]
    else
      var last := rows[|rows| - 1];
      Listing(rows[..|rows| - 1])[last.id := last]
  }

  function DirectDetail(db: Db, u: int, p: Problem): DetailAgg {
    var last := Newest(db.subs, u, p.id);
    DetailAgg(p.id, p.title, OnProblemCount(db, u, p.id, Any), OnProblemCount(db, u, p.id, Within20),
              OnProblemCount(db, u, p.id, Within30), OnProblemCount(db, u, p.id, Over30),
              if last.Some? then last.value.date else 0,
              if last.Some? then last.value.timeSpent else [],
              last.Some? && last.value.status)
  }
}
