/** Further effects of single changes: on a detail row, of a deletion, and of adding or removing a type. */
module StatisticsChanges {
  import opened Bytes
  import opened Folds
  import opened Tables
  import opened Statistics
  import DetailProof
  import TimeSpent
  import opened StatisticsUpdates

  // ---------- deleting a submission ----------

  lemma UnsubmitIsOne(db: Db, c: Call, today: int) returns (i: nat)
    requires Valid(db) && c.Unsubmit? && Accepts(db, c)
    ensures OneMore(Effect(db, c, today), db, i) && db.subs[i].id == c.sub && db.subs[i].userId == c.user
  {
    var s :| s in db.subs && s.id == c.sub && s.userId == c.user;
    i :| 0 <= i < |db.subs| && db.subs[i] == s;
    FilterButOne(db.subs, i, NotSub(c.sub, c.user));
  }

  /**
    A successful deletion takes the submission `x` out of the figures of each unit of its problem and
    nothing else: one off the total, one off the columns it was counted in, and one off the problem
    count exactly when it was the user's only one for the problem.
  */
  lemma DeletionCounted(db: Db, c: Call, env: Env, after: Db, t: Text, rows: seq<UnitAgg>, now: seq<UnitAgg>)
    returns (x: Submission)
    requires Valid(db) && c.Unsubmit? && Transition(db, c, env, after, true)
    requires Overview(db, c.user, rows) && Overview(after, c.user, now)
    ensures x in db.subs && x.id == c.sub && x.userId == c.user
    ensures DiffersBy(Figures(now, t), Figures(rows, t), x.status, x.minutes,
                      Tagged(db, x.problemId, t), !Tried(after, c.user, x.problemId))
  {
    TransitionKeepsValid(db, c, env, after, true);
    FiguresAreCounts(db, c.user, rows, t);
    FiguresAreCounts(after, c.user, now, t);
    var i := UnsubmitIsOne(db, c, env.today);
    x := db.subs[i];
    FiguresOneMore(after, db, i, c.user, t);
  }

  // ---------- adding and removing a type ----------

  /** `b` has the problem tagged with one unit more than `a`, and is equal otherwise. */
  ghost predicate TagMore(a: Db, b: Db, id: int, unit: Text) {
    && a.problems == b.problems && a.subs == b.subs && !Tagged(a, id, unit)
    && forall k, t :: Tagged(b, k, t) <==> Tagged(a, k, t) || (k == id && t == unit)
  }

  lemma UnitTagMore(a: Db, b: Db, id: int, unit: Text, u: int, t: Text, c: Submission -> bool)
    requires TagMore(a, b, id, unit)
    ensures InUnitCount(b, u, t, c) == InUnitCount(a, u, t, c) + if t == unit then OnProblemCount(a, u, id, c) else 0
  {
    if t == unit {
      CountPartition(a.subs, Matching(b, u, t, c), Matching(a, u, t, c), Against(u, id, c));
    } else {
      CountExt(a.subs, Matching(b, u, t, c), Matching(a, u, t, c));
    }
  }

  lemma SolvedTagMore(a: Db, b: Db, id: int, unit: Text, u: int, t: Text)
    requires TagMore(a, b, id, unit) && Valid(a) && HasProblem(a, id)
    ensures |TriedIds(b, u, t)| == |TriedIds(a, u, t)| + if t == unit && Tried(a, u, id) then 1 else 0
  {
    var here := t == unit && Tried(a, u, id);
    FilterLength(a.problems, TriedInUnit(b, u, t));
    FilterLength(a.problems, TriedInUnit(a, u, t));
    forall p | p in a.problems
      ensures TriedInUnit(b, u, t)(p) == (TriedInUnit(a, u, t)(p) || IfProblem(id, here)(p))
    {
      assert Tried(b, u, p.id) == Tried(a, u, p.id);
    }
    CountPartition(a.problems, TriedInUnit(b, u, t), TriedInUnit(a, u, t), IfProblem(id, here));
    OneProblem(a, id, here);
  }

  /** What the problem contributes to the figures of any user in the unit it is tagged with. */
  ghost predicate Contributes(db: Db, u: int, id: int, here: bool, less: UnitAgg, more: UnitAgg) {
    var part := (c: Submission -> bool) => if here then OnProblemCount(db, u, id, c) else 0;
    && more.total == less.total + part(Any) && more.solved20 == less.solved20 + part(Within20)
    && more.solved30 == less.solved30 + part(Within30) && more.over30 == less.over30 + part(Over30)
    && more.solved == less.solved + if here && Tried(db, u, id) then 1 else 0
  }

  lemma FiguresTagMore(a: Db, b: Db, id: int, unit: Text, u: int, t: Text, rows: seq<UnitAgg>, more: seq<UnitAgg>)
    requires TagMore(a, b, id, unit) && Valid(a) && Valid(b) && HasProblem(a, id)
    requires Overview(a, u, rows) && Overview(b, u, more)
    ensures Contributes(a, u, id, t == unit, Figures(rows, t), Figures(more, t))
  {
    FiguresAreCounts(a, u, rows, t);
    FiguresAreCounts(b, u, more, t);
    UnitTagMore(a, b, id, unit, u, t, Any);
    UnitTagMore(a, b, id, unit, u, t, Within20);
    UnitTagMore(a, b, id, unit, u, t, Within30);
    UnitTagMore(a, b, id, unit, u, t, Over30);
    SolvedTagMore(a, b, id, unit, u, t);
  }

  /** Tagging a problem adds all its submissions to the figures of that unit, for every user, and to no other. */
  lemma TypeInserted(db: Db, c: Call, env: Env, after: Db, u: int, t: Text, rows: seq<UnitAgg>, now: seq<UnitAgg>)
    requires Valid(db) && c.InsertType? && Transition(db, c, env, after, true)
    requires Overview(db, u, rows) && Overview(after, u, now)
    ensures Contributes(db, u, c.id, t == c.unit, Figures(rows, t), Figures(now, t))
  {
    TransitionKeepsValid(db, c, env, after, true);
    InsertTags(db, c, env.today);
    FiguresTagMore(db, after, c.id, c.unit, u, t, rows, now);
  }

  lemma InsertTags(db: Db, c: Call, today: int)
    requires c.InsertType? && Accepts(db, c)
    ensures TagMore(db, Effect(db, c, today), c.id, c.unit)
  {
  }

  lemma DeleteTags(db: Db, c: Call, today: int)
    requires c.DeleteType? && Accepts(db, c)
    ensures TagMore(Effect(db, c, today), db, c.id, c.unit)
  {
    FilterMembers(db.types, NotRow(TypeRow(c.id, c.unit)));
  }

  /** Removing the tag takes exactly these out again. */
  lemma TypeDeleted(db: Db, c: Call, env: Env, after: Db, u: int, t: Text, rows: seq<UnitAgg>, now: seq<UnitAgg>)
    requires Valid(db) && c.DeleteType? && Transition(db, c, env, after, true)
    requires Overview(db, u, rows) && Overview(after, u, now)
    ensures Contributes(after, u, c.id, t == c.unit, Figures(now, t), Figures(rows, t))
  {
    TransitionKeepsValid(db, c, env, after, true);
    DeleteTags(db, c, env.today);
    assert HasProblem(db, TypeRow(c.id, c.unit).problemId);
    FiguresTagMore(after, db, c.id, c.unit, u, t, now, rows);
  }

  // ---------- a submission in the detail query ----------

  /** The detail figures of a problem, all zero when it has no row. */
  ghost function DetailFigures(rows: seq<DetailAgg>, k: int): DetailAgg {
    if exists r :: r in rows && r.examNo == k then
      var r :| r in rows && r.examNo == k; r
    else DetailAgg(k, [], 0, 0, 0, 0, 0, [], false)
  }

  lemma ListedIsShown(db: Db, u: int, t: Text, rows: seq<DetailAgg>, r: DetailAgg)
    requires Valid(db) && Detail(db, u, t, rows)
    ensures r in rows <==> DetailProof.Listed(db, u, t, r)
  {
    DetailProof.ResultMeetsSpec(db, u, t, rows);
  }

  lemma DetailFiguresAreCounts(db: Db, u: int, t: Text, rows: seq<DetailAgg>, k: int)
    requires Valid(db) && Detail(db, u, t, rows) && Tagged(db, k, t)
    ensures var f := DetailFigures(rows, k);
            && f.total == OnProblemCount(db, u, k, Any) && f.solved20 == OnProblemCount(db, u, k, Within20)
            && f.solved30 == OnProblemCount(db, u, k, Within30) && f.over30 == OnProblemCount(db, u, k, Over30)
  {
    var f := DetailFigures(rows, k);
    if exists r :: r in rows && r.examNo == k {
      ListedIsShown(db, u, t, rows, f);
    } else {
      if Tried(db, u, k) {
        TriedHasRow(db, u, t, rows, k);
      }
      NoCounts(db, u, k);
    }
  }

  lemma TriedHasRow(db: Db, u: int, t: Text, rows: seq<DetailAgg>, k: int)
    requires Valid(db) && Detail(db, u, t, rows) && Tagged(db, k, t) && Tried(db, u, k)
    ensures exists r :: r in rows && r.examNo == k
  {
    assert HasProblem(db, TypeRow(k, t).problemId);
    var p :| p in db.problems && p.id == k;
    var r := DirectDetail(db, u, p);
    assert DetailProof.Listed(db, u, t, r);
    ListedIsShown(db, u, t, rows, r);
  }

  lemma NoCounts(db: Db, u: int, k: int)
    requires !Tried(db, u, k)
    ensures forall c :: OnProblemCount(db, u, k, c) == 0
  {
    forall c ensures OnProblemCount(db, u, k, c) == 0 {
      CountZero(db.subs, Against(u, k, c));
    }
  }

  lemma OtherProblemsKept(db: Db, c: Call, today: int, t: Text, r: DetailAgg)
    requires c.Submit? && r.examNo != c.problem
    ensures DetailProof.Listed(Effect(db, c, today), c.user, t, r) <==> DetailProof.Listed(db, c.user, t, r)
  {
    var after := Effect(db, c, today);
    SubmitIsOne(db, c, today);
    forall p | p in db.problems && p.id == r.examNo
      ensures Tried(after, c.user, p.id) == Tried(db, c.user, p.id) && DirectDetail(after, c.user, p) == DirectDetail(db, c.user, p)
    {
      TriedOneMore(db, after, |db.subs|, c.user, p.id);
      ProblemOneMore(db, after, |db.subs|, c.user, p.id, Any);
      ProblemOneMore(db, after, |db.subs|, c.user, p.id, Within20);
      ProblemOneMore(db, after, |db.subs|, c.user, p.id, Within30);
      ProblemOneMore(db, after, |db.subs|, c.user, p.id, Over30);
      NewestAppend(db.subs, NewSubmission(db, c, today), c.user, p.id);
    }
    assert forall p :: p in db.problems && DirectDetail(db, c.user, p) == r ==> p.id == r.examNo;
    assert forall p :: p in after.problems && DirectDetail(after, c.user, p) == r ==> p.id == r.examNo;
  }

  lemma RowsAgree(a: Db, b: Db, u: int, t: Text, rows: seq<DetailAgg>, now: seq<DetailAgg>, r: DetailAgg)
    requires Valid(a) && Valid(b) && Detail(a, u, t, rows) && Detail(b, u, t, now)
    requires DetailProof.Listed(a, u, t, r) <==> DetailProof.Listed(b, u, t, r)
    ensures r in now <==> r in rows
  {
    DetailProof.ResultMeetsSpec(a, u, t, rows);
    DetailProof.ResultMeetsSpec(b, u, t, now);
  }

  lemma NotTaggedNotListed(db: Db, u: int, t: Text, r: DetailAgg)
    requires !Tagged(db, r.examNo, t)
    ensures !DetailProof.Listed(db, u, t, r)
  {
  }

  /** A successful submission leaves the rows of all other problems of the unit as they were. */
  lemma OtherRowsKept(db: Db, c: Call, env: Env, after: Db, t: Text, rows: seq<DetailAgg>, now: seq<DetailAgg>, r: DetailAgg)
    requires Valid(db) && c.Submit? && Transition(db, c, env, after, true)
    requires Detail(db, c.user, t, rows) && Detail(after, c.user, t, now) && r.examNo != c.problem
    ensures r in now <==> r in rows
  {
    TransitionKeepsValid(db, c, env, after, true);
    OtherProblemsKept(db, c, env.today, t, r);
    RowsAgree(db, after, c.user, t, rows, now, r);
  }

  /** One more submission of the user's on the problem `p`, seen by the counts and as the newest. */
  lemma CountedOnProblem(db: Db, c: Call, today: int, p: Problem)
    requires c.Submit? && p.id == c.problem
    ensures var (m, r) := (TimeSpent.MinuteFromTime(c.time), DirectDetail(Effect(db, c, today), c.user, p));
            && r.examNo == c.problem
            && r.lastDate == today && r.lastTime == c.time && r.lastStatus == c.status
            && r.total == OnProblemCount(db, c.user, p.id, Any) + 1
            && r.solved20 == OnProblemCount(db, c.user, p.id, Within20) + (if c.status && m <= 20 then 1 else 0)
            && r.solved30 == OnProblemCount(db, c.user, p.id, Within30) + (if c.status && m <= 30 then 1 else 0)
            && r.over30 == OnProblemCount(db, c.user, p.id, Over30) + (if c.status && m <= 30 then 0 else 1)
  {
    var n, after, u, i := NewSubmission(db, c, today), Effect(db, c, today), c.user, |db.subs|;
    SubmitIsOne(db, c, today);
    Columns(n);
    ProblemOneMore(db, after, i, u, p.id, Any);
    ProblemOneMore(db, after, i, u, p.id, Within20);
    ProblemOneMore(db, after, i, u, p.id, Within30);
    ProblemOneMore(db, after, i, u, p.id, Over30);
    NewestAppend(db.subs, n, u, p.id);
  }

  lemma SubmittedIsListed(db: Db, c: Call, today: int, t: Text) returns (p: Problem)
    requires c.Submit? && Accepts(db, c) && Tagged(db, c.problem, t)
    ensures p.id == c.problem
    ensures DetailProof.Listed(Effect(db, c, today), c.user, t, DirectDetail(Effect(db, c, today), c.user, p))
  {
    var after := Effect(db, c, today);
    p :| p in db.problems && p.id == c.problem;
    SubmitIsOne(db, c, today);
    TriedOneMore(db, after, |db.subs|, c.user, p.id);
    assert Tagged(after, p.id, t);
  }

  /**
    In each unit of its problem a successful submission appears in the problem's row: one more in the
    total and in the columns it belongs to, and its own date, time and state as the last ones, whether
    or not there was a row before.
  */
  lemma SubmissionListed(db: Db, c: Call, env: Env, after: Db, t: Text, rows: seq<DetailAgg>, now: seq<DetailAgg>)
    returns (r: DetailAgg)
    requires Valid(db) && c.Submit? && Transition(db, c, env, after, true) && Tagged(db, c.problem, t)
    requires Detail(db, c.user, t, rows) && Detail(after, c.user, t, now)
    ensures r in now && r.examNo == c.problem
    ensures var (m, f) := (TimeSpent.MinuteFromTime(c.time), DetailFigures(rows, c.problem));
            && r.lastDate == env.today && r.lastTime == c.time && r.lastStatus == c.status
            && r.total == f.total + 1
            && r.solved20 == f.solved20 + (if c.status && m <= 20 then 1 else 0)
            && r.solved30 == f.solved30 + (if c.status && m <= 30 then 1 else 0)
            && r.over30 == f.over30 + (if c.status && m <= 30 then 0 else 1)
    ensures TimeSpent.ValidTime(c.time) ==> TimeSpent.MinuteFromTime(c.time) == TimeSpent.Seconds(c.time) / 60
  {
    if TimeSpent.ValidTime(c.time) {
      TimeSpent.MinutesOfValid(c.time);
    }
    TransitionKeepsValid(db, c, env, after, true);
    DetailFiguresAreCounts(db, c.user, t, rows, c.problem);
    var p := SubmittedIsListed(db, c, env.today, t);
    CountedOnProblem(db, c, env.today, p);
    r := DirectDetail(after, c.user, p);
    ListedIsShown(after, c.user, t, now, r);
  }

  /** In a unit that the problem is not tagged with, the detail query shows no row for it before or after. */
  lemma SubmissionNotListed(db: Db, c: Call, env: Env, after: Db, t: Text, rows: seq<DetailAgg>, now: seq<DetailAgg>, r: DetailAgg)
    requires Valid(db) && c.Submit? && Transition(db, c, env, after, true) && !Tagged(db, c.problem, t)
    requires Detail(db, c.user, t, rows) && Detail(after, c.user, t, now)
    ensures r in now <==> r in rows
  {
    TransitionKeepsValid(db, c, env, after, true);
    if r.examNo != c.problem {
      OtherProblemsKept(db, c, env.today, t, r);
    } else {
      NotTaggedNotListed(db, c.user, t, r);
      NotTaggedNotListed(after, c.user, t, r);
    }
    RowsAgree(db, after, c.user, t, rows, now, r);
  }
}
