/** What each change of the database does to the results of the two queries. */
module StatisticsUpdates {
  import opened Bytes
  import opened Folds
  import opened Tables
  import opened Statistics
  import OverviewProof
  import DetailProof
  import StatisticsLaws
  import TimeSpent

  // ---------- the queries see one user's submissions only ----------

  /** Same catalogue, and the same submissions of this user in the same order. */
  ghost predicate SameFor(a: Db, b: Db, u: int) {
    && a.problems == b.problems && a.types == b.types
    && Filter(a.subs, OfUser(u)) == Filter(b.subs, OfUser(u))
  }

  lemma CountOfUser(db: Db, u: int, c: Submission -> bool)
    requires forall s :: c(s) ==> s.userId == u
    ensures Count(db.subs, c) == Count(Filter(db.subs, OfUser(u)), c)
  {
    CountFilter(db.subs, OfUser(u), c);
    CountExt(db.subs, c, Both(OfUser(u), c));
  }

  lemma SameCounts(a: Db, b: Db, u: int, t: Text, k: int, c: Submission -> bool)
    requires SameFor(a, b, u)
    ensures InUnitCount(a, u, t, c) == InUnitCount(b, u, t, c)
    ensures OnProblemCount(a, u, k, c) == OnProblemCount(b, u, k, c)
  {
    CountOfUser(a, u, Matching(a, u, t, c));
    CountOfUser(b, u, Matching(b, u, t, c));
    CountExt(Filter(b.subs, OfUser(u)), Matching(a, u, t, c), Matching(b, u, t, c));
    CountOfUser(a, u, Against(u, k, c));
    CountOfUser(b, u, Against(u, k, c));
  }

  lemma SameTried(a: Db, b: Db, u: int, k: int)
    requires SameFor(a, b, u)
    ensures Tried(a, u, k) <==> Tried(b, u, k)
  {
    FilterMembers(a.subs, OfUser(u));
    FilterMembers(b.subs, OfUser(u));
    if s :| s in a.subs && s.userId == u && s.problemId == k {
      assert s in Filter(b.subs, OfUser(u));
    }
    if s :| s in b.subs && s.userId == u && s.problemId == k {
      assert s in Filter(a.subs, OfUser(u));
    }
  }

  lemma NewestAppend(xs: seq<Submission>, s: Submission, u: int, k: int)
    ensures Newest(xs + [s], u, k) == if s.userId == u && s.problemId == k then Some(s) else Newest(xs, u, k)
  {
    assert (xs + [s])[..|xs|] == xs;
  }

  lemma {:induction false} NewestOfUser(xs: seq<Submission>, u: int, k: int)
    ensures Newest(xs, u, k) == Newest(Filter(xs, OfUser(u)), u, k)
  {
    if xs != [] {
      var n := |xs| - 1;
      var s := xs[n];
      NewestOfUser(xs[..n], u, k);
      assert xs == xs[..n] + [s];
      NewestAppend(xs[..n], s, u, k);
      FilterConcat(xs[..n], [s], OfUser(u));
      assert Filter([s], OfUser(u)) == if s.userId == u then [s] else [];
      if s.userId == u {
        NewestAppend(Filter(xs[..n], OfUser(u)), s, u, k);
      } else {
        assert Filter(xs[..n], OfUser(u)) + [] == Filter(xs[..n], OfUser(u));
      }
    }
  }

  lemma SameUnit(a: Db, b: Db, u: int, t: Text)
    requires SameFor(a, b, u)
    ensures DirectUnit(a, u, t) == DirectUnit(b, u, t)
  {
    SameCounts(a, b, u, t, 0, Any);
    SameCounts(a, b, u, t, 0, Within20);
    SameCounts(a, b, u, t, 0, Within30);
    SameCounts(a, b, u, t, 0, Over30);
    forall p | p in a.problems ensures TriedInUnit(a, u, t)(p) == TriedInUnit(b, u, t)(p) {
      SameTried(a, b, u, p.id);
    }
    FilterExt(a.problems, TriedInUnit(a, u, t), TriedInUnit(b, u, t));
  }

  lemma SameDetail(a: Db, b: Db, u: int, p: Problem)
    requires SameFor(a, b, u)
    ensures DirectDetail(a, u, p) == DirectDetail(b, u, p)
  {
    SameCounts(a, b, u, [], p.id, Any);
    SameCounts(a, b, u, [], p.id, Within20);
    SameCounts(a, b, u, [], p.id, Within30);
    SameCounts(a, b, u, [], p.id, Over30);
    NewestOfUser(a.subs, u, p.id);
    NewestOfUser(b.subs, u, p.id);
  }

  lemma OverviewCongruent(a: Db, b: Db, u: int, rows: seq<UnitAgg>)
    requires Valid(a) && Valid(b) && Overview(a, u, rows)
    requires forall r :: OverviewProof.Reported(a, u, r) <==> OverviewProof.Reported(b, u, r)
    ensures Overview(b, u, rows)
  {
    OverviewProof.ResultMeetsSpec(a, u, rows);
    assert OverviewProof.OverviewSpec(b, u, rows);
    OverviewProof.SpecIsResult(b, u, rows);
  }

  lemma DetailCongruent(a: Db, b: Db, u: int, t: Text, rows: seq<DetailAgg>)
    requires Valid(a) && Valid(b) && Detail(a, u, t, rows)
    requires forall r :: DetailProof.Listed(a, u, t, r) <==> DetailProof.Listed(b, u, t, r)
    ensures Detail(b, u, t, rows)
  {
    DetailProof.ResultMeetsSpec(a, u, t, rows);
    assert DetailProof.DetailSpec(b, u, t, rows);
    DetailProof.SpecIsResult(b, u, t, rows);
  }

  /** Results are equal when the rows that may be reported are. */
  lemma ResultsCongruent(a: Db, b: Db, u: int, t: Text, rows: seq<UnitAgg>, details: seq<DetailAgg>)
    requires Valid(a) && Valid(b)
    requires forall r :: OverviewProof.Reported(a, u, r) <==> OverviewProof.Reported(b, u, r)
    requires forall r :: DetailProof.Listed(a, u, t, r) <==> DetailProof.Listed(b, u, t, r)
    ensures Overview(a, u, rows) <==> Overview(b, u, rows)
    ensures Detail(a, u, t, details) <==> Detail(b, u, t, details)
  {
    if Overview(a, u, rows) {
      OverviewCongruent(a, b, u, rows);
    } else if Overview(b, u, rows) {
      OverviewCongruent(b, a, u, rows);
    }
    if Detail(a, u, t, details) {
      DetailCongruent(a, b, u, t, details);
    } else if Detail(b, u, t, details) {
      DetailCongruent(b, a, u, t, details);
    }
  }

  /** Two databases that agree on a user's submissions give that user exactly the same results. */
  lemma SameResults(a: Db, b: Db, u: int, t: Text, rows: seq<UnitAgg>, details: seq<DetailAgg>)
    requires Valid(a) && Valid(b) && SameFor(a, b, u)
    ensures Overview(a, u, rows) <==> Overview(b, u, rows)
    ensures Detail(a, u, t, details) <==> Detail(b, u, t, details)
  {
    forall r ensures OverviewProof.Reported(a, u, r) <==> OverviewProof.Reported(b, u, r) {
      SameUnit(a, b, u, r.unit);
    }
    forall r ensures DetailProof.Listed(a, u, t, r) <==> DetailProof.Listed(b, u, t, r) {
      if DetailProof.Listed(a, u, t, r) {
        SameListed(a, b, u, t, r);
      } else if DetailProof.Listed(b, u, t, r) {
        SameListed(b, a, u, t, r);
      }
    }
    ResultsCongruent(a, b, u, t, rows, details);
  }

  lemma SameListed(a: Db, b: Db, u: int, t: Text, r: DetailAgg)
    requires SameFor(a, b, u) && DetailProof.Listed(a, u, t, r)
    ensures DetailProof.Listed(b, u, t, r)
  {
    var p :| p in a.problems && Tagged(a, p.id, t) && Tried(a, u, p.id) && r == DirectDetail(a, u, p);
    SameTried(a, b, u, p.id);
    SameDetail(a, b, u, p);
  }

  // ---------- whom a call concerns ----------

  /** The users whose results a call may change; deleting a problem or changing types concerns everybody. */
  ghost predicate Concerns(db: Db, c: Call, v: int) {
    match c
    case Register(_) => false
    case DeleteUser(n) => Named(db, v, n)
    case InsertProblem(_, _, _) => false
    case DeleteProblem(_) => true
    case InsertType(_, _) => true
    case DeleteType(_, _) => true
    case Submit(user, _, _, _) => user == v
    case Unsubmit(_, user) => user == v
  }

  lemma FilterIrrelevant(xs: seq<Submission>, p: Submission -> bool, v: int)
    requires forall s :: s in xs && s.userId == v ==> p(s)
    ensures Filter(Filter(xs, p), OfUser(v)) == Filter(xs, OfUser(v))
  {
    FilterTwice(xs, p, OfUser(v));
    forall s | s in xs ensures Both(p, OfUser(v))(s) == OfUser(v)(s) {
    }
    FilterExt(xs, Both(p, OfUser(v)), OfUser(v));
  }

  lemma UnconcernedSame(db: Db, c: Call, today: int, v: int)
    requires Accepts(db, c) && !Concerns(db, c, v) && !c.InsertProblem?
    ensures SameFor(db, Effect(db, c, today), v)
  {
    match c
    case Register(_) =>
    case DeleteUser(n) => FilterIrrelevant(db.subs, NotBy(db, n), v);
    case Submit(_, _, _, _) => FilterConcat(db.subs, [NewSubmission(db, c, today)], OfUser(v));
    case Unsubmit(sub, user) => FilterIrrelevant(db.subs, NotSub(sub, user), v);
  }

  /** A problem that has just been inserted has no tags and no submissions. */
  lemma NewProblemUntouched(db: Db, c: Call, v: int, t: Text)
    requires Valid(db) && c.InsertProblem? && Accepts(db, c)
    ensures !Tagged(db, c.id, t) && !Tried(db, v, c.id)
  {
    forall r | r in db.types ensures r.problemId != c.id {
      assert HasProblem(db, r.problemId);
    }
  }

  lemma NewProblemUnit(db: Db, c: Call, today: int, v: int, t: Text)
    requires Valid(db) && c.InsertProblem? && Accepts(db, c)
    ensures DirectUnit(Effect(db, c, today), v, t) == DirectUnit(db, v, t)
  {
    var after, p := Effect(db, c, today), Problem(c.id, c.title, c.difficulty);
    NewProblemUntouched(db, c, v, t);
    FilterConcat(db.problems, [p], TriedInUnit(after, v, t));
    FilterExt(db.problems, TriedInUnit(after, v, t), TriedInUnit(db, v, t));
    assert Filter([p], TriedInUnit(after, v, t)) == [];
    assert Filter(db.problems, TriedInUnit(db, v, t)) + [] == Filter(db.problems, TriedInUnit(db, v, t));
    SameKindCounts(db, after, v, t, Any);
    SameKindCounts(db, after, v, t, Within20);
    SameKindCounts(db, after, v, t, Within30);
    SameKindCounts(db, after, v, t, Over30);
  }

  lemma SameKindCounts(a: Db, b: Db, u: int, t: Text, c: Submission -> bool)
    requires a.subs == b.subs && a.types == b.types
    ensures InUnitCount(a, u, t, c) == InUnitCount(b, u, t, c)
  {
    CountExt(a.subs, Matching(a, u, t, c), Matching(b, u, t, c));
  }

  lemma NewProblemListed(db: Db, c: Call, today: int, v: int, t: Text, r: DetailAgg)
    requires Valid(db) && c.InsertProblem? && Accepts(db, c)
    ensures DetailProof.Listed(Effect(db, c, today), v, t, r) <==> DetailProof.Listed(db, v, t, r)
  {
    var after := Effect(db, c, today);
    if DetailProof.Listed(after, v, t, r) {
      var p :| p in after.problems && Tagged(after, p.id, t) && Tried(after, v, p.id) && r == DirectDetail(after, v, p);
      NewProblemUntouched(db, c, v, t);
      SameRow(db, after, v, t, p);
    } else if DetailProof.Listed(db, v, t, r) {
      var p :| p in db.problems && Tagged(db, p.id, t) && Tried(db, v, p.id) && r == DirectDetail(db, v, p);
      SameRow(db, after, v, t, p);
    }
  }

  lemma SameRow(a: Db, b: Db, u: int, t: Text, p: Problem)
    requires a.subs == b.subs && a.types == b.types
    ensures DirectDetail(a, u, p) == DirectDetail(b, u, p)
    ensures (Tagged(a, p.id, t) <==> Tagged(b, p.id, t)) && (Tried(a, u, p.id) <==> Tried(b, u, p.id))
  {
  }

  lemma NewProblemSame(db: Db, c: Call, today: int, v: int, t: Text, rows: seq<UnitAgg>, details: seq<DetailAgg>)
    requires Valid(db) && c.InsertProblem? && Accepts(db, c)
    ensures Overview(db, v, rows) <==> Overview(Effect(db, c, today), v, rows)
    ensures Detail(db, v, t, details) <==> Detail(Effect(db, c, today), v, t, details)
  {
    var after := Effect(db, c, today);
    InsertProblemKeepsValid(db, c, today);
    forall r ensures OverviewProof.Reported(db, v, r) <==> OverviewProof.Reported(after, v, r) {
      NewProblemUnit(db, c, today, v, r.unit);
    }
    forall r ensures DetailProof.Listed(db, v, t, r) <==> DetailProof.Listed(after, v, t, r) {
      NewProblemListed(db, c, today, v, t, r);
    }
    ResultsCongruent(db, after, v, t, rows, details);
  }

  /**
    Isolation: registering, inserting a problem, deleting another user, and other users' submissions
    and deletions leave a user's two results exactly as they were, and so does every call that fails.
  */
  lemma OthersUnchanged(db: Db, c: Call, env: Env, after: Db, ok: bool, v: int, t: Text, rows: seq<UnitAgg>, details: seq<DetailAgg>)
    requires Valid(db) && Transition(db, c, env, after, ok)
    requires ok ==> !Concerns(db, c, v)
    ensures Overview(db, v, rows) <==> Overview(after, v, rows)
    ensures Detail(db, v, t, details) <==> Detail(after, v, t, details)
  {
    TransitionKeepsValid(db, c, env, after, ok);
    if ok && c.InsertProblem? {
      NewProblemSame(db, c, env.today, v, t, rows, details);
    } else {
      if ok {
        UnconcernedSame(db, c, env.today, v);
      }
      SameResults(db, after, v, t, rows, details);
    }
  }

  // ---------- a submission and its deletion ----------

  /** The overview figures of a unit, all zero when the unit has no row. */
  ghost function Figures(rows: seq<UnitAgg>, t: Text): UnitAgg {
    if exists r :: r in rows && r.unit == t then
      var r :| r in rows && r.unit == t; r
    else UnitAgg(t, 0, 0, 0, 0, 0)
  }

  lemma FiguresAreCounts(db: Db, u: int, rows: seq<UnitAgg>, t: Text)
    requires Valid(db) && Overview(db, u, rows)
    ensures Figures(rows, t) == DirectUnit(db, u, t)
  {
    OverviewProof.ResultMeetsSpec(db, u, rows);
    if exists r :: r in rows && r.unit == t {
      assert OverviewProof.Reported(db, u, Figures(rows, t));
    } else {
      assert DirectUnit(db, u, t) !in rows;
      NothingToReport(db, u, t);
    }
  }

  lemma NothingToReport(db: Db, u: int, t: Text)
    requires Valid(db) && !OverviewProof.Reported(db, u, DirectUnit(db, u, t))
    ensures DirectUnit(db, u, t) == UnitAgg(t, 0, 0, 0, 0, 0)
  {
    StatisticsLaws.UnitBuckets(db, u, t);
    StatisticsLaws.SolvedAtMostTotal(db, u, t);
  }

  function IfProblem(k: int, here: bool): Problem -> bool { (p: Problem) => here && p.id == k }

  lemma OneProblem(db: Db, k: int, here: bool)
    requires Valid(db) && (here ==> HasProblem(db, k))
    ensures Count(db.problems, IfProblem(k, here)) == if here then 1 else 0
  {
    OverviewProof.CountProblems(db.problems, k);
    if here {
      CountExt(db.problems, IfProblem(k, here), OverviewProof.IdIs(k));
    } else {
      CountZero(db.problems, IfProblem(k, here));
    }
  }

  /** `b` has the submission at place `i` that `a` has not, and is equal otherwise. */
  ghost predicate OneMore(a: Db, b: Db, i: nat) {
    && i < |b.subs| && a.subs == b.subs[..i] + b.subs[i + 1..]
    && a.problems == b.problems && a.types == b.types
  }

  lemma {:induction false} CountOneMore<A>(xs: seq<A>, i: nat, p: A -> bool)
    requires i < |xs|
    ensures Count(xs, p) == Count(xs[..i] + xs[i + 1..], p) + (if p(xs[i]) then 1 else 0)
  {
    var rest, less := xs[1..], xs[..i] + xs[i + 1..];
    if i == 0 {
      assert less == rest;
    } else {
      CountOneMore(rest, i - 1, p);
      assert less[0] == xs[0] && less[1..] == rest[..i - 1] + rest[i..];
    }
  }

  lemma UnitOneMore(a: Db, b: Db, i: nat, u: int, t: Text, c: Submission -> bool)
    requires OneMore(a, b, i)
    ensures InUnitCount(b, u, t, c) == InUnitCount(a, u, t, c) + if Matching(b, u, t, c)(b.subs[i]) then 1 else 0
  {
    CountOneMore(b.subs, i, Matching(b, u, t, c));
    CountExt(a.subs, Matching(a, u, t, c), Matching(b, u, t, c));
  }

  lemma ProblemOneMore(a: Db, b: Db, i: nat, u: int, k: int, c: Submission -> bool)
    requires OneMore(a, b, i)
    ensures OnProblemCount(b, u, k, c) == OnProblemCount(a, u, k, c) + if Against(u, k, c)(b.subs[i]) then 1 else 0
  {
    CountOneMore(b.subs, i, Against(u, k, c));
  }

  lemma TriedOneMore(a: Db, b: Db, i: nat, u: int, k: int)
    requires OneMore(a, b, i)
    ensures Tried(b, u, k) <==> Tried(a, u, k) || (b.subs[i].userId == u && b.subs[i].problemId == k)
  {
    if Tried(a, u, k) {
      var s :| s in a.subs && s.userId == u && s.problemId == k;
      assert s in b.subs;
    }
    if Tried(b, u, k) {
      var s :| s in b.subs && s.userId == u && s.problemId == k;
      assert s == b.subs[i] || s in a.subs;
    }
  }

  lemma SolvedOneMore(a: Db, b: Db, i: nat, u: int, t: Text)
    requires OneMore(a, b, i) && Valid(b)
    ensures var x := b.subs[i];
            |TriedIds(b, u, t)| == |TriedIds(a, u, t)|
            + if x.userId == u && Tagged(b, x.problemId, t) && !Tried(a, u, x.problemId) then 1 else 0
  {
    var x := b.subs[i];
    var here := x.userId == u && Tagged(b, x.problemId, t) && !Tried(a, u, x.problemId);
    FilterLength(b.problems, TriedInUnit(b, u, t));
    FilterLength(b.problems, TriedInUnit(a, u, t));
    forall p | p in b.problems
      ensures TriedInUnit(b, u, t)(p) == (TriedInUnit(a, u, t)(p) || IfProblem(x.problemId, here)(p))
    {
      TriedOneMore(a, b, i, u, p.id);
    }
    CountPartition(b.problems, TriedInUnit(b, u, t), TriedInUnit(a, u, t), IfProblem(x.problemId, here));
    assert x in b.subs;
    OneProblem(b, x.problemId, here);
  }

  /**
    The figures with and without one submission of the user's, with this status and these minutes; `only`
    says that it is the only one for its problem.
  */
  ghost predicate DiffersBy(less: UnitAgg, more: UnitAgg, status: bool, minutes: int, tagged: bool, only: bool) {
    var here := if tagged then 1 else 0;
    && more.total == less.total + here
    && more.solved20 == less.solved20 + (if status && minutes <= 20 then here else 0)
    && more.solved30 == less.solved30 + (if status && minutes <= 30 then here else 0)
    && more.over30 == less.over30 + (if status && minutes <= 30 then 0 else here)
    && more.solved == less.solved + (if only then here else 0)
  }

  /** Which columns a submission belongs to. */
  lemma Columns(s: Submission)
    ensures Any(s)
    ensures Within20(s) <==> s.status && s.minutes <= 20
    ensures Within30(s) <==> s.status && s.minutes <= 30
    ensures Over30(s) <==> !s.status || s.minutes > 30
  {
  }

  lemma FiguresOneMore(a: Db, b: Db, i: nat, u: int, t: Text)
    requires OneMore(a, b, i) && Valid(b) && b.subs[i].userId == u
    ensures var x := b.subs[i];
            DiffersBy(DirectUnit(a, u, t), DirectUnit(b, u, t), x.status, x.minutes,
                      Tagged(b, x.problemId, t), !Tried(a, u, x.problemId))
  {
    var x := b.subs[i];
    Columns(x);
    UnitOneMore(a, b, i, u, t, Any);
    UnitOneMore(a, b, i, u, t, Within20);
    UnitOneMore(a, b, i, u, t, Within30);
    UnitOneMore(a, b, i, u, t, Over30);
    SolvedOneMore(a, b, i, u, t);
  }

  lemma SubmitIsOne(db: Db, c: Call, today: int)
    requires c.Submit?
    ensures OneMore(db, Effect(db, c, today), |db.subs|)
    ensures Effect(db, c, today).subs[|db.subs|] == NewSubmission(db, c, today)
  {
    var after := Effect(db, c, today);
    assert after.subs[..|db.subs|] == db.subs && after.subs[|db.subs| + 1..] == [];
    assert db.subs + [] == db.subs;
  }

  /**
    A successful submission adds one to the total of each unit of its problem and one to exactly one
    of the 30-minute and over-30 columns there, one to the 20-minute column exactly when it was solved
    within 20, one to the problem count exactly when it is the first for its problem, and changes no
    other unit of the user.
  */
  lemma SubmissionCounted(db: Db, c: Call, env: Env, after: Db, t: Text, rows: seq<UnitAgg>, now: seq<UnitAgg>)
    requires Valid(db) && c.Submit? && Transition(db, c, env, after, true)
    requires Overview(db, c.user, rows) && Overview(after, c.user, now)
    ensures DiffersBy(Figures(rows, t), Figures(now, t), c.status, TimeSpent.MinuteFromTime(c.time),
                      Tagged(db, c.problem, t), !Tried(db, c.user, c.problem))
    ensures TimeSpent.ValidTime(c.time) ==> TimeSpent.MinuteFromTime(c.time) == TimeSpent.Seconds(c.time) / 60
  {
    if TimeSpent.ValidTime(c.time) {
      TimeSpent.MinutesOfValid(c.time);
    }
    TransitionKeepsValid(db, c, env, after, true);
    FiguresAreCounts(db, c.user, rows, t);
    FiguresAreCounts(after, c.user, now, t);
    SubmitIsOne(db, c, env.today);
    FiguresOneMore(db, after, |db.subs|, c.user, t);
  }

  /** Deleting the submission just made restores every table, and with them both results of every user. */
  lemma SubmitThenDelete(db: Db, c: Call, today: int, v: int, t: Text, rows: seq<UnitAgg>, details: seq<DetailAgg>)
    requires Valid(db) && c.Submit? && Accepts(db, c)
    ensures var after := Effect(Effect(db, c, today), Unsubmit(db.nextSub, c.user), today);
            && Accepts(Effect(db, c, today), Unsubmit(db.nextSub, c.user))
            && SameTables(db, after)
            && (Overview(db, v, rows) <==> Overview(after, v, rows))
            && (Detail(db, v, t, details) <==> Detail(after, v, t, details))
  {
    var mid, n := Effect(db, c, today), NewSubmission(db, c, today);
    var undo := Unsubmit(db.nextSub, c.user);
    var after := Effect(mid, undo, today);
    assert n in mid.subs;
    FilterConcat(db.subs, [n], NotSub(db.nextSub, c.user));
    FilterAll(db.subs, NotSub(db.nextSub, c.user));
    assert after.subs == db.subs;
    TransitionKeepsValid(db, c, Env(true, None, today), mid, true);
    TransitionKeepsValid(mid, undo, Env(true, None, today), after, true);
    SameResults(db, after, v, t, rows, details);
  }

  // ---------- deleting a problem ----------

  lemma DeleteProblemCounts(db: Db, id: int, today: int, u: int, t: Text, c: Submission -> bool)
    ensures InUnitCount(db, u, t, c)
            == InUnitCount(Effect(db, DeleteProblem(id), today), u, t, c) + if Tagged(db, id, t) then OnProblemCount(db, u, id, c) else 0
  {
    var after := Effect(db, DeleteProblem(id), today);
    var m, kept := Matching(db, u, t, c), Matching(after, u, t, c);
    CountFilter(db.subs, NotFor(id), kept);
    forall s | s in db.subs ensures Both(NotFor(id), kept)(s) == (m(s) && s.problemId != id) {
      FilterMember(db.types, NotTyped(id), TypeRow(s.problemId, t));
    }
    if Tagged(db, id, t) {
      CountPartition(db.subs, m, Both(NotFor(id), kept), Against(u, id, c));
    } else {
      CountExt(db.subs, m, Both(NotFor(id), kept));
    }
  }

  lemma DeleteProblemSolved(db: Db, id: int, today: int, u: int, t: Text)
    requires Valid(db)
    ensures |TriedIds(db, u, t)|
            == |TriedIds(Effect(db, DeleteProblem(id), today), u, t)| + if Tagged(db, id, t) && Tried(db, u, id) then 1 else 0
  {
    var after := Effect(db, DeleteProblem(id), today);
    var before, kept, here := TriedInUnit(db, u, t), TriedInUnit(after, u, t), Tagged(db, id, t) && Tried(db, u, id);
    FilterLength(db.problems, before);
    FilterLength(after.problems, kept);
    CountFilter(db.problems, NotProblem(id), kept);
    forall p | p in db.problems ensures before(p) == (Both(NotProblem(id), kept)(p) || IfProblem(id, here)(p)) {
      if p.id != id {
        StillListed(db, id, today, u, t, p);
      }
    }
    CountPartition(db.problems, before, Both(NotProblem(id), kept), IfProblem(id, here));
    if here {
      assert HasProblem(db, TypeRow(id, t).problemId);
    }
    OneProblem(db, id, here);
  }

  /** Deleting a problem takes exactly its own submissions out of every overview figure of every user. */
  lemma ProblemRemoved(db: Db, id: int, env: Env, after: Db, u: int, t: Text, rows: seq<UnitAgg>, now: seq<UnitAgg>)
    requires Valid(db) && Transition(db, DeleteProblem(id), env, after, true)
    requires Overview(db, u, rows) && Overview(after, u, now)
    ensures var f, g := Figures(rows, t), Figures(now, t);
            var here := (c: Submission -> bool) => if Tagged(db, id, t) then OnProblemCount(db, u, id, c) else 0;
            && f.total == g.total + here(Any) && f.solved20 == g.solved20 + here(Within20)
            && f.solved30 == g.solved30 + here(Within30) && f.over30 == g.over30 + here(Over30)
            && f.solved == g.solved + (if Tagged(db, id, t) && Tried(db, u, id) then 1 else 0)
  {
    TransitionKeepsValid(db, DeleteProblem(id), env, after, true);
    FiguresAreCounts(db, u, rows, t);
    FiguresAreCounts(after, u, now, t);
    DeleteProblemCounts(db, id, env.today, u, t, Any);
    DeleteProblemCounts(db, id, env.today, u, t, Within20);
    DeleteProblemCounts(db, id, env.today, u, t, Within30);
    DeleteProblemCounts(db, id, env.today, u, t, Over30);
    DeleteProblemSolved(db, id, env.today, u, t);
  }

  lemma {:induction false} NewestFiltered(xs: seq<Submission>, p: Submission -> bool, u: int, k: int)
    requires forall s :: s in xs && s.userId == u && s.problemId == k ==> p(s)
    ensures Newest(Filter(xs, p), u, k) == Newest(xs, u, k)
  {
    if xs != [] {
      var n := |xs| - 1;
      var s := xs[n];
      assert xs == xs[..n] + [s];
      NewestFiltered(xs[..n], p, u, k);
      NewestAppend(xs[..n], s, u, k);
      FilterConcat(xs[..n], [s], p);
      assert Filter([s], p) == if p(s) then [s] else [];
      if p(s) {
        NewestAppend(Filter(xs[..n], p), s, u, k);
      } else {
        assert Filter(xs[..n], p) + [] == Filter(xs[..n], p);
      }
    }
  }

  lemma OtherProblemSame(db: Db, id: int, today: int, u: int, p: Problem)
    requires p.id != id
    ensures DirectDetail(Effect(db, DeleteProblem(id), today), u, p) == DirectDetail(db, u, p)
  {
    OtherProblemCount(db, id, u, p.id, Any);
    OtherProblemCount(db, id, u, p.id, Within20);
    OtherProblemCount(db, id, u, p.id, Within30);
    OtherProblemCount(db, id, u, p.id, Over30);
    NewestFiltered(db.subs, NotFor(id), u, p.id);
  }

  lemma OtherProblemCount(db: Db, id: int, u: int, k: int, c: Submission -> bool)
    requires k != id
    ensures Count(Filter(db.subs, NotFor(id)), Against(u, k, c)) == OnProblemCount(db, u, k, c)
  {
    CountFilter(db.subs, NotFor(id), Against(u, k, c));
    CountExt(db.subs, Both(NotFor(id), Against(u, k, c)), Against(u, k, c));
  }

  lemma StillListed(db: Db, id: int, today: int, u: int, t: Text, p: Problem)
    requires p.id != id
    ensures var after := Effect(db, DeleteProblem(id), today);
            && (p in after.problems <==> p in db.problems)
            && (Tagged(after, p.id, t) <==> Tagged(db, p.id, t)) && (Tried(after, u, p.id) <==> Tried(db, u, p.id))
  {
    var after := Effect(db, DeleteProblem(id), today);
    FilterMember(db.problems, NotProblem(id), p);
    FilterMember(db.types, NotTyped(id), TypeRow(p.id, t));
    FilterMembers(db.subs, NotFor(id));
    if s :| s in db.subs && s.userId == u && s.problemId == p.id {
      assert s in after.subs;
    }
  }

  /** In every result of the detail query it removes the problem's own row and leaves every other row as it was. */
  lemma ProblemDelisted(db: Db, id: int, env: Env, after: Db, u: int, t: Text, rows: seq<DetailAgg>, now: seq<DetailAgg>)
    requires Valid(db) && Transition(db, DeleteProblem(id), env, after, true)
    requires Detail(db, u, t, rows) && Detail(after, u, t, now)
    ensures forall r :: r in now <==> r in rows && r.examNo != id
  {
    TransitionKeepsValid(db, DeleteProblem(id), env, after, true);
    DetailProof.ResultMeetsSpec(db, u, t, rows);
    DetailProof.ResultMeetsSpec(after, u, t, now);
    forall r ensures r in now <==> r in rows && r.examNo != id {
      RowDelisted(db, id, env.today, u, t, r);
    }
  }

  lemma RowDelisted(db: Db, id: int, today: int, u: int, t: Text, r: DetailAgg)
    ensures DetailProof.Listed(Effect(db, DeleteProblem(id), today), u, t, r)
            <==> DetailProof.Listed(db, u, t, r) && r.examNo != id
  {
    var after := Effect(db, DeleteProblem(id), today);
    FilterMembers(db.problems, NotProblem(id));
    if DetailProof.Listed(after, u, t, r) {
      var p :| p in after.problems && Tagged(after, p.id, t) && Tried(after, u, p.id) && r == DirectDetail(after, u, p);
      assert p.id != id;
      OtherProblemSame(db, id, today, u, p);
      StillListed(db, id, today, u, t, p);
    }
    if DetailProof.Listed(db, u, t, r) && r.examNo != id {
      var p :| p in db.problems && Tagged(db, p.id, t) && Tried(db, u, p.id) && r == DirectDetail(db, u, p);
      OtherProblemSame(db, id, today, u, p);
      StillListed(db, id, today, u, t, p);
    }
  }
}
