/** Whole runs of the database, from the empty schema through any sequence of calls, failures included. */
module History {
  import opened Bytes
  import opened Folds
  import opened Tables
  import opened Statistics
  import DetailProof

  datatype Event = Event(call: Call, env: Env, ok: bool, after: Db)

  /** `events` is a run from `db`: each call takes the database from the state the last one left. */
  ghost predicate IsRun(db: Db, events: seq<Event>)
    decreases |events|
  {
    && (events != [] ==>
          && Transition(db, events[0].call, events[0].env, events[0].after, events[0].ok)
          && IsRun(events[0].after, events[1..]))
  }

  function Final(db: Db, events: seq<Event>): Db {
    if events == [] then db else events[|events| - 1].after
  }

  /** The submission that `e` inserted, if any. */
  function Added(db: Db, e: Event): seq<Submission> {
    if e.ok && e.call.Submit? then [NewSubmission(db, e.call, e.env.today)] else []
  }

  /** Every submission ever inserted, in order. */
  function Log(db: Db, events: seq<Event>): seq<Submission>
    decreases |events|
  {
    if events == [] then [] else Added(db, events[0]) + Log(events[0].after, events[1..])
  }

  function In(xs: seq<Submission>): Submission -> bool { (s: Submission) => s in xs }

  /** The table holds what survives of `log`, in the order of insertion; `log` holds each number once. */
  ghost predicate Survivors(log: seq<Submission>, db: Db) {
    && db.subs == Filter(log, In(db.subs))
    && (forall s :: s in log ==> s.id < db.nextSub)
    && forall i, j :: 0 <= i < j < |log| ==> log[i].id < log[j].id
  }

  lemma DeleteKeepsSurvivors(log: seq<Submission>, db: Db, p: Submission -> bool, after: Db)
    requires Survivors(log, db) && after.subs == Filter(db.subs, p) && after.nextSub >= db.nextSub
    ensures Survivors(log, after)
  {
    FilterMembers(db.subs, p);
    FilterTwice(log, In(db.subs), p);
    forall s | s in log ensures Both(In(db.subs), p)(s) == In(after.subs)(s) {
    }
    FilterExt(log, Both(In(db.subs), p), In(after.subs));
  }

  lemma SubmitKeepsSurvivors(log: seq<Submission>, db: Db, n: Submission, after: Db)
    requires Survivors(log, db) && n.id == db.nextSub && after.subs == db.subs + [n] && after.nextSub == db.nextSub + 1
    ensures Survivors(log + [n], after)
  {
    FilterConcat(log, [n], In(after.subs));
    forall s | s in log ensures In(db.subs)(s) == In(after.subs)(s) {
    }
    FilterExt(log, In(db.subs), In(after.subs));
    assert In(after.subs)(n);
    assert Filter([n], In(after.subs)) == [n];
  }

  lemma EventKeepsSurvivors(log: seq<Submission>, db: Db, e: Event)
    requires Valid(db) && Survivors(log, db) && Transition(db, e.call, e.env, e.after, e.ok)
    ensures Survivors(log + Added(db, e), e.after)
  {
    if e.ok && e.call.Submit? {
      SubmitKeepsSurvivors(log, db, NewSubmission(db, e.call, e.env.today), e.after);
    } else {
      assert log + [] == log;
      if e.ok {
        OtherKeepsSurvivors(log, db, e);
      }
    }
  }

  lemma OtherKeepsSurvivors(log: seq<Submission>, db: Db, e: Event)
    requires Survivors(log, db) && !e.call.Submit? && e.after == Effect(db, e.call, e.env.today)
    ensures Survivors(log, e.after)
  {
    match e.call
    case DeleteUser(n) => DeleteKeepsSurvivors(log, db, NotBy(db, n), e.after);
    case DeleteProblem(id) => DeleteKeepsSurvivors(log, db, NotFor(id), e.after);
    case Unsubmit(sub, user) => DeleteKeepsSurvivors(log, db, NotSub(sub, user), e.after);
    case _ =>
  }

  lemma FirstKeeps(log: seq<Submission>, db: Db, events: seq<Event>)
    requires events != [] && Valid(db) && Survivors(log, db) && IsRun(db, events)
    ensures var e := events[0];
            && Valid(e.after) && Survivors(log + Added(db, e), e.after) && IsRun(e.after, events[1..])
            && Final(db, events) == Final(e.after, events[1..])
  {
    var e := events[0];
    RunHead(db, events);
    TransitionKeepsValid(db, e.call, e.env, e.after, e.ok);
    EventKeepsSurvivors(log, db, e);
  }

  lemma RunHead(db: Db, events: seq<Event>)
    requires events != [] && IsRun(db, events)
    ensures var e := events[0];
            && Transition(db, e.call, e.env, e.after, e.ok) && IsRun(e.after, events[1..])
            && Final(db, events) == Final(e.after, events[1..])
  {
  }

  lemma {:induction false} RunKeeps(log: seq<Submission>, db: Db, events: seq<Event>)
    requires Valid(db) && Survivors(log, db) && IsRun(db, events)
    ensures Valid(Final(db, events))
    ensures Survivors(log + Log(db, events), Final(db, events))
    decreases |events|
  {
    if events == [] {
      assert log + [] == log;
    } else {
      var e := events[0];
      FirstKeeps(log, db, events);
      RunKeeps(log + Added(db, e), e.after, events[1..]);
      Regroup(log, Added(db, e), Log(e.after, events[1..]));
    }
  }

  ghost predicate ReportsLast(r: DetailAgg, last: Option<Submission>) {
    last.Some? && r.lastDate == last.value.date && r.lastTime == last.value.timeSpent && r.lastStatus == last.value.status
  }

  lemma RowReportsNewest(db: Db, u: int, t: Text, rows: seq<DetailAgg>, r: DetailAgg)
    requires Valid(db) && Detail(db, u, t, rows) && r in rows
    ensures ReportsLast(r, Newest(db.subs, u, r.examNo))
  {
    DetailProof.ResultMeetsSpec(db, u, t, rows);
    assert DetailProof.Listed(db, u, t, r);
    var p :| p in db.problems && Tagged(db, p.id, t) && Tried(db, u, p.id) && r == DirectDetail(db, u, p);
    DetailProof.NewestIs(db.subs, u, p.id);
  }

  /**
    After any run from the empty schema, all keys hold, and the newest submission that the detail query
    reports for a problem is the one inserted last among those of the user that still exist.
  */
  lemma LastReportedIsLastInserted(events: seq<Event>, u: int, t: Text, rows: seq<DetailAgg>, r: DetailAgg)
    requires IsRun(EMPTY, events) && Detail(Final(EMPTY, events), u, t, rows) && r in rows
    ensures Valid(Final(EMPTY, events))
    ensures ReportsLast(r, Newest(Filter(Log(EMPTY, events), In(Final(EMPTY, events).subs)), u, r.examNo))
  {
    RunKeeps([], EMPTY, events);
    assert [] + Log(EMPTY, events) == Log(EMPTY, events);
    RowReportsNewest(Final(EMPTY, events), u, t, rows, r);
  }
}
