/**
  What the columns of the two queries say about the submissions in the table, as numbers of set elements
  and with durations in seconds, and in which order the rows come.
*/
module StatisticsMeaning {
  import opened Bytes
  import opened Folds
  import opened Tables
  import opened Statistics
  import opened TimeSpent
  import History
  import OverviewProof
  import DetailProof
  import StatisticsLaws
  import StatisticsUpdates

  /** Every stored time is a valid `hh:mm:ss`, and the stored minutes are its whole minutes. */
  ghost predicate Timed(db: Db) {
    forall s :: s in db.subs ==> ValidTime(s.timeSpent) && s.minutes == Seconds(s.timeSpent) / 60
  }

  // ---------- counting as set size ----------

  lemma {:induction false} CountAsSet(xs: seq<Submission>, p: Submission -> bool, elements: set<Submission>)
    requires Distinct(xs) && forall s :: s in elements <==> s in xs && p(s)
    ensures Count(xs, p) == |elements|
  {
    if xs == [] {
      assert elements == {};
    } else {
      assert xs[0] !in xs[1..];
      CountAsSet(xs[1..], p, elements - {xs[0]});
    }
  }

  lemma {:induction false} DistinctAsSet<A(!new)>(xs: seq<A>, elements: set<A>)
    requires Distinct(xs) && forall x :: x in elements <==> x in xs
    ensures |xs| == |elements|
  {
    if xs == [] {
      assert elements == {};
    } else {
      assert xs[0] !in xs[1..];
      DistinctAsSet(xs[1..], elements - {xs[0]});
    }
  }

  // ---------- the sets ----------

  /** The user's submissions to the problems of a unit. */
  ghost function InUnit(db: Db, u: int, t: Text): set<Submission> {
    set s | s in db.subs && s.userId == u && TypeRow(s.problemId, t) in db.types
  }

  /** The user's submissions to one problem. */
  ghost function ToProblem(db: Db, u: int, k: int): set<Submission> {
    set s | s in db.subs && s.userId == u && s.problemId == k
  }

  /** Those that solved the problem in less than so many minutes. */
  ghost function SolvedUnder(subs: set<Submission>, minutes: int): set<Submission> {
    set s | s in subs && s.status && ValidTime(s.timeSpent) && Seconds(s.timeSpent) < minutes * 60
  }

  /** Those that did not solve it, or took at least so many minutes. */
  ghost function OtherThanUnder(subs: set<Submission>, minutes: int): set<Submission> {
    set s | s in subs && (!s.status || (ValidTime(s.timeSpent) && Seconds(s.timeSpent) >= minutes * 60))
  }

  lemma SubsDistinct(db: Db)
    requires Valid(db)
    ensures Distinct(db.subs)
  {
  }

  lemma Columns(db: Db, s: Submission)
    requires Timed(db) && s in db.subs
    ensures Any(s)
    ensures Within20(s) <==> s.status && Seconds(s.timeSpent) < 21 * 60
    ensures Within30(s) <==> s.status && Seconds(s.timeSpent) < 31 * 60
    ensures Over30(s) <==> !s.status || Seconds(s.timeSpent) >= 31 * 60
  {
    StatisticsUpdates.Columns(s);
  }

  // ---------- the overview ----------

  lemma UnitSet(db: Db, u: int, t: Text, c: Submission -> bool, elements: set<Submission>)
    requires Valid(db) && elements <= InUnit(db, u, t)
    requires forall s :: s in InUnit(db, u, t) ==> (s in elements <==> c(s))
    ensures InUnitCount(db, u, t, c) == |elements|
  {
    SubsDistinct(db);
    forall s ensures s in elements <==> s in db.subs && Matching(db, u, t, c)(s) {
      assert s in InUnit(db, u, t) <==> s in db.subs && s.userId == u && TypeRow(s.problemId, t) in db.types;
    }
    CountAsSet(db.subs, Matching(db, u, t, c), elements);
  }

  lemma UnitColumns(db: Db, u: int, t: Text)
    requires Valid(db) && Timed(db)
    ensures InUnitCount(db, u, t, Any) == |InUnit(db, u, t)|
    ensures InUnitCount(db, u, t, Within20) == |SolvedUnder(InUnit(db, u, t), 21)|
    ensures InUnitCount(db, u, t, Within30) == |SolvedUnder(InUnit(db, u, t), 31)|
    ensures InUnitCount(db, u, t, Over30) == |OtherThanUnder(InUnit(db, u, t), 31)|
  {
    forall s | s in InUnit(db, u, t)
      ensures Any(s) && (s in SolvedUnder(InUnit(db, u, t), 21) <==> Within20(s))
      ensures s in SolvedUnder(InUnit(db, u, t), 31) <==> Within30(s)
      ensures s in OtherThanUnder(InUnit(db, u, t), 31) <==> Over30(s)
    {
      Columns(db, s);
    }
    UnitSet(db, u, t, Any, InUnit(db, u, t));
    UnitSet(db, u, t, Within20, SolvedUnder(InUnit(db, u, t), 21));
    UnitSet(db, u, t, Within30, SolvedUnder(InUnit(db, u, t), 31));
    UnitSet(db, u, t, Over30, OtherThanUnder(InUnit(db, u, t), 31));
  }

  lemma UnitTried(db: Db, u: int, t: Text)
    requires Valid(db)
    ensures |TriedIds(db, u, t)| == |set s | s in InUnit(db, u, t) :: s.problemId|
  {
    var ids := set s | s in InUnit(db, u, t) :: s.problemId;
    StatisticsLaws.TriedIdsAll(db, u, t);
    forall k ensures k in ids <==> k in TriedIds(db, u, t) {
      if k in TriedIds(db, u, t) {
        var s :| s in db.subs && s.userId == u && s.problemId == k;
        assert s in InUnit(db, u, t);
      }
    }
    DistinctAsSet(TriedIds(db, u, t), ids);
  }

  /**
    What a row of the overview says, in any result: how many submissions the user has in the unit, to how
    many problems, how many of them solved it in less than 21 and in less than 31 minutes, and how many
    did not. There is a row exactly for the units in which the user has a submission.
  */
  lemma OverviewMeans(db: Db, u: int, rows: seq<UnitAgg>, r: UnitAgg)
    requires Valid(db) && Timed(db) && Overview(db, u, rows) && r in rows
    ensures var subs := InUnit(db, u, r.unit);
            && subs != {} && r.total == |subs| && r.solved == |set s | s in subs :: s.problemId|
            && r.solved20 == |SolvedUnder(subs, 21)|
            && r.solved30 == |SolvedUnder(subs, 31)|
            && r.over30 == |OtherThanUnder(subs, 31)|
  {
    OverviewProof.ResultMeetsSpec(db, u, rows);
    assert OverviewProof.Reported(db, u, r);
    UnitColumns(db, u, r.unit);
    UnitTried(db, u, r.unit);
  }

  lemma OverviewLists(db: Db, u: int, rows: seq<UnitAgg>, t: Text)
    requires Valid(db) && Timed(db) && Overview(db, u, rows)
    ensures (exists r :: r in rows && r.unit == t) <==> InUnit(db, u, t) != {}
  {
    if r :| r in rows && r.unit == t {
      OverviewMeans(db, u, rows, r);
    }
    if InUnit(db, u, t) != {} {
      OverviewProof.ResultMeetsSpec(db, u, rows);
      UnitColumns(db, u, t);
      assert OverviewProof.Reported(db, u, DirectUnit(db, u, t));
    }
  }

  /** The rows come with falling numbers of long or failed tries, then of solutions within 30, then within 20. */
  lemma OverviewOrder(db: Db, u: int, rows: seq<UnitAgg>, i: nat, j: nat)
    requires Overview(db, u, rows) && i < j < |rows|
    ensures rows[i].over30 >= rows[j].over30
    ensures rows[i].over30 == rows[j].over30 ==> rows[i].solved30 >= rows[j].solved30
    ensures rows[i].over30 == rows[j].over30 && rows[i].solved30 == rows[j].solved30 ==> rows[i].solved20 >= rows[j].solved20
  {
    assert !UnitBefore(rows[j], rows[i]);
  }

  // ---------- the detail ----------

  lemma ProblemSet(db: Db, u: int, k: int, c: Submission -> bool, elements: set<Submission>)
    requires Valid(db) && elements <= ToProblem(db, u, k)
    requires forall s :: s in ToProblem(db, u, k) ==> (s in elements <==> c(s))
    ensures OnProblemCount(db, u, k, c) == |elements|
  {
    SubsDistinct(db);
    forall s ensures s in elements <==> s in db.subs && Against(u, k, c)(s) {
      assert s in ToProblem(db, u, k) <==> s in db.subs && s.userId == u && s.problemId == k;
    }
    CountAsSet(db.subs, Against(u, k, c), elements);
  }

  lemma ProblemColumns(db: Db, u: int, k: int)
    requires Valid(db) && Timed(db)
    ensures OnProblemCount(db, u, k, Any) == |ToProblem(db, u, k)|
    ensures OnProblemCount(db, u, k, Within20) == |SolvedUnder(ToProblem(db, u, k), 21)|
    ensures OnProblemCount(db, u, k, Within30) == |SolvedUnder(ToProblem(db, u, k), 31)|
    ensures OnProblemCount(db, u, k, Over30) == |OtherThanUnder(ToProblem(db, u, k), 31)|
  {
    forall s | s in ToProblem(db, u, k)
      ensures Any(s) && (s in SolvedUnder(ToProblem(db, u, k), 21) <==> Within20(s))
      ensures s in SolvedUnder(ToProblem(db, u, k), 31) <==> Within30(s)
      ensures s in OtherThanUnder(ToProblem(db, u, k), 31) <==> Over30(s)
    {
      Columns(db, s);
    }
    ProblemSet(db, u, k, Any, ToProblem(db, u, k));
    ProblemSet(db, u, k, Within20, SolvedUnder(ToProblem(db, u, k), 21));
    ProblemSet(db, u, k, Within30, SolvedUnder(ToProblem(db, u, k), 31));
    ProblemSet(db, u, k, Over30, OtherThanUnder(ToProblem(db, u, k), 31));
  }

  /** The user's submission to the problem with the largest number. */
  ghost predicate IsLast(db: Db, u: int, k: int, s: Submission) {
    s in ToProblem(db, u, k) && forall o :: o in ToProblem(db, u, k) ==> o.id <= s.id
  }

  lemma LastIs(db: Db, u: int, k: int) returns (last: Submission)
    requires Valid(db) && Tried(db, u, k)
    ensures IsLast(db, u, k, last) && Newest(db.subs, u, k) == Some(last)
  {
    DetailProof.NewestIs(db.subs, u, k);
    last := Newest(db.subs, u, k).value;
  }

  /**
    What a row of the detail query says, in any result: the same numbers for one problem of the unit, and
    the date, time and state of the submission `last` with the largest number.
  */
  lemma DetailMeans(db: Db, u: int, t: Text, rows: seq<DetailAgg>, r: DetailAgg) returns (last: Submission)
    requires Valid(db) && Timed(db) && Detail(db, u, t, rows) && r in rows
    ensures TypeRow(r.examNo, t) in db.types
    ensures exists p :: p in db.problems && p.id == r.examNo && p.title == r.name
    ensures var subs := ToProblem(db, u, r.examNo);
            && r.total == |subs|
            && r.solved20 == |SolvedUnder(subs, 21)|
            && r.solved30 == |SolvedUnder(subs, 31)|
            && r.over30 == |OtherThanUnder(subs, 31)|
    ensures IsLast(db, u, r.examNo, last)
    ensures r.lastDate == last.date && r.lastTime == last.timeSpent && r.lastStatus == last.status
  {
    DetailProof.ResultMeetsSpec(db, u, t, rows);
    assert DetailProof.Listed(db, u, t, r);
    var p :| p in db.problems && Tagged(db, p.id, t) && Tried(db, u, p.id) && r == DirectDetail(db, u, p);
    ProblemColumns(db, u, p.id);
    last := LastIs(db, u, p.id);
  }

  lemma DetailLists(db: Db, u: int, t: Text, rows: seq<DetailAgg>, k: int)
    requires Valid(db) && Detail(db, u, t, rows)
    ensures (exists r :: r in rows && r.examNo == k) <==> TypeRow(k, t) in db.types && ToProblem(db, u, k) != {}
  {
    DetailProof.ResultMeetsSpec(db, u, t, rows);
    if r :| r in rows && r.examNo == k {
      assert DetailProof.Listed(db, u, t, r);
      var s :| s in db.subs && s.userId == u && s.problemId == k;
      assert s in ToProblem(db, u, k);
    }
    if TypeRow(k, t) in db.types && ToProblem(db, u, k) != {} {
      var s :| s in ToProblem(db, u, k);
      assert HasProblem(db, TypeRow(k, t).problemId);
      var p :| p in db.problems && p.id == k;
      assert Tried(db, u, p.id) && Tagged(db, p.id, t);
      assert DetailProof.Listed(db, u, t, DirectDetail(db, u, p));
      assert DirectDetail(db, u, p) in rows;
    }
  }

  /** The rows come with falling last dates, then as in the overview. */
  lemma DetailOrder(db: Db, u: int, t: Text, rows: seq<DetailAgg>, i: nat, j: nat)
    requires Detail(db, u, t, rows) && i < j < |rows|
    ensures rows[i].lastDate >= rows[j].lastDate
    ensures rows[i].lastDate == rows[j].lastDate ==> rows[i].over30 >= rows[j].over30
    ensures rows[i].lastDate == rows[j].lastDate && rows[i].over30 == rows[j].over30 ==> rows[i].solved30 >= rows[j].solved30
    ensures rows[i].lastDate == rows[j].lastDate && rows[i].over30 == rows[j].over30 && rows[i].solved30 == rows[j].solved30 ==>
              rows[i].solved20 >= rows[j].solved20
  {
    assert !DetailBefore(rows[j], rows[i]);
  }

  // ---------- runs ----------

  /** What the client lets through: every submission made carries a valid time. */
  ghost predicate TimesValid(events: seq<History.Event>) {
    forall k :: 0 <= k < |events| && events[k].call.Submit? ==> ValidTime(events[k].call.time)
  }

  lemma EventTimed(db: Db, e: History.Event)
    requires Timed(db) && Transition(db, e.call, e.env, e.after, e.ok)
    requires e.call.Submit? ==> ValidTime(e.call.time)
    ensures Timed(e.after)
  {
    if e.ok && e.call.Submit? {
      MinutesOfValid(e.call.time);
    } else if e.ok {
      match e.call
      case DeleteUser(n) => FilterMembers(db.subs, NotBy(db, n));
      case DeleteProblem(id) => FilterMembers(db.subs, NotFor(id));
      case Unsubmit(sub, user) => FilterMembers(db.subs, NotSub(sub, user));
      case _ =>
    }
  }

  lemma {:induction false} RunTimed(db: Db, events: seq<History.Event>)
    requires Valid(db) && Timed(db) && History.IsRun(db, events) && TimesValid(events)
    ensures Valid(History.Final(db, events)) && Timed(History.Final(db, events))
    decreases |events|
  {
    if events != [] {
      var e := events[0];
      History.RunHead(db, events);
      TransitionKeepsValid(db, e.call, e.env, e.after, e.ok);
      EventTimed(db, e);
      assert forall k :: 0 <= k < |events[1..]| ==> events[1..][k] == events[k + 1];
      RunTimed(e.after, events[1..]);
    }
  }

  /** All this holds after every run, from the empty schema or any timed tables, in which only valid times are submitted. */
  lemma AfterRun(
    start: Db, events: seq<History.Event>, u: int, t: Text,
    rows: seq<UnitAgg>, r: UnitAgg, details: seq<DetailAgg>, d: DetailAgg)
    requires Valid(start) && Timed(start) && History.IsRun(start, events) && TimesValid(events)
    requires Overview(History.Final(start, events), u, rows) && r in rows
    requires Detail(History.Final(start, events), u, t, details) && d in details
    ensures var (db, subs, tries) := (History.Final(start, events), InUnit(History.Final(start, events), u, r.unit),
                                      ToProblem(History.Final(start, events), u, d.examNo));
            && r.total == |subs| && r.solved20 == |SolvedUnder(subs, 21)| && r.solved30 == |SolvedUnder(subs, 31)|
            && r.over30 == |OtherThanUnder(subs, 31)|
            && d.total == |tries| && d.solved20 == |SolvedUnder(tries, 21)| && d.solved30 == |SolvedUnder(tries, 31)|
            && d.over30 == |OtherThanUnder(tries, 31)|
            && forall s :: s in db.subs ==> ValidTime(s.timeSpent)
  {
    RunTimed(start, events);
    OverviewMeans(History.Final(start, events), u, rows, r);
    var last := DetailMeans(History.Final(start, events), u, t, details, d);
  }
}
