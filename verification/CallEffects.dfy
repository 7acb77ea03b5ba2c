/**
  What each call does to the tables, said without the specification the driver is proved against: when
  it succeeds, which rows are there afterwards and which are not, and what is free again.
*/
module CallEffects {
  import opened Bytes
  import opened Folds
  import opened Tables
  import TimeSpent
  import Driver

  /** A connection is obtained, and none of the call's statements, so many with the commit, raises. */
  ghost predicate Undisturbed(env: Env, statements: nat) {
    env.connected && (env.fault.None? || env.fault.value >= statements)
  }

  ghost predicate Unchanged(db: Db, after: Db) {
    after.users == db.users && after.problems == db.problems && after.types == db.types && after.subs == db.subs
  }

  // ---------- users ----------

  lemma RegisterMeans(db: Db, name: Text, env: Env, after: Db, ok: bool)
    requires Valid(db) && Transition(db, Register(name), env, after, ok)
    ensures ok <==> Undisturbed(env, 3) && forall u :: u in db.users ==> u.username != name
    ensures !ok ==> Unchanged(db, after)
    ensures ok ==> after.problems == db.problems && after.types == db.types && after.subs == db.subs
    ensures ok ==>
              && |after.users| == |db.users| + 1 && after.users[..|db.users|] == db.users
              && var u := after.users[|db.users|];
              u.username == name && u.createdAt == env.today && forall o :: o in db.users ==> o.id != u.id
  {
  }

  /** Row `i` of the users, and with it that user's submissions, is gone; everything else is still there, in order. */
  ghost predicate UserGone(db: Db, after: Db, i: nat, name: Text) {
    && i < |db.users| && db.users[i].username == name
    && after.users == db.users[..i] + db.users[i + 1..]
    && after.problems == db.problems && after.types == db.types
    && (forall s :: s in after.subs <==> s in db.subs && s.userId != db.users[i].id)
    && forall j, k :: 0 <= j < k < |after.subs| ==> after.subs[j].id < after.subs[k].id
  }

  lemma DeleteUserMeans(db: Db, name: Text, env: Env, after: Db, ok: bool) returns (i: nat)
    requires Valid(db) && Transition(db, DeleteUser(name), env, after, ok)
    ensures ok <==> Undisturbed(env, 3) && exists u :: u in db.users && u.username == name
    ensures !ok ==> Unchanged(db, after)
    ensures ok ==> UserGone(db, after, i, name) && forall u :: u in after.users ==> u.username != name
  {
    i := 0;
    if ok {
      i := UserRemoved(db, name, env.today);
    }
  }

  lemma UserRemoved(db: Db, name: Text, today: int) returns (i: nat)
    requires Valid(db) && exists u :: u in db.users && u.username == name
    ensures var after := Effect(db, DeleteUser(name), today);
            UserGone(db, after, i, name) && forall u :: u in after.users ==> u.username != name
  {
    var u :| u in db.users && u.username == name;
    i :| 0 <= i < |db.users| && db.users[i] == u;
    UserRowGone(db, i, name);
    UserSubsGone(db, i, name);
  }

  lemma UserRowGone(db: Db, i: nat, name: Text)
    requires Valid(db) && i < |db.users| && db.users[i].username == name
    ensures var left := Filter(db.users, NotNamed(name));
            left == db.users[..i] + db.users[i + 1..] && forall u :: u in left ==> u.username != name
  {
    FilterButOne(db.users, i, NotNamed(name));
    FilterMembers(db.users, NotNamed(name));
  }

  lemma UserSubsGone(db: Db, i: nat, name: Text)
    requires Valid(db) && i < |db.users| && db.users[i].username == name
    ensures var left := Filter(db.subs, NotBy(db, name));
            && (forall s :: s in left <==> s in db.subs && s.userId != db.users[i].id)
            && forall j, k :: 0 <= j < k < |left| ==> left[j].id < left[k].id
  {
    OneUserNamed(db, i, name);
    FilterMembers(db.subs, NotBy(db, name));
    FilterKeepsOrder(db.subs, NotBy(db, name), (a: Submission, b: Submission) => a.id < b.id);
  }

  lemma OneUserNamed(db: Db, i: nat, name: Text)
    requires Valid(db) && i < |db.users| && db.users[i].username == name
    ensures forall id :: Named(db, id, name) <==> id == db.users[i].id
  {
    forall id ensures Named(db, id, name) <==> id == db.users[i].id {
      assert db.users[i] in db.users;
    }
  }

  /** After a deletion the name finds nobody, and can be registered again. */
  lemma DeletedNameIsFree(db: Db, name: Text, env: Env, mid: Db, again: Env, after: Db, ok: bool)
    requires Valid(db) && Transition(db, DeleteUser(name), env, mid, true)
    requires Undisturbed(again, 3) && Transition(mid, Register(name), again, after, ok)
    ensures ok && Driver.IdOf(mid.users, name) == -1 && Driver.IdOf(after.users, name) == mid.nextUser
  {
    var i := DeleteUserMeans(db, name, env, mid, true);
    TransitionKeepsValid(db, DeleteUser(name), env, mid, true);
    RegisterMeans(mid, name, again, after, ok);
    assert forall u :: u in mid.users ==> u.username != name;
    assert Driver.Finds(mid.users, name, Driver.IdOf(mid.users, name));
    assert Driver.Finds(after.users, name, Driver.IdOf(after.users, name));
    assert after.users[|mid.users|] in after.users;
  }

  // ---------- problems ----------

  lemma InsertProblemMeans(db: Db, id: int, title: Text, difficulty: Text, env: Env, after: Db, ok: bool)
    requires Valid(db) && Transition(db, InsertProblem(id, title, difficulty), env, after, ok)
    ensures ok <==> Undisturbed(env, 3) && forall p :: p in db.problems ==> p.id != id && p.title != title
    ensures !ok ==> Unchanged(db, after)
    ensures ok ==> after.users == db.users && after.types == db.types && after.subs == db.subs
    ensures ok ==>
              && |after.problems| == |db.problems| + 1 && after.problems[..|db.problems|] == db.problems
              && var p := after.problems[|db.problems|];
              p.id == id && p.title == title && p.difficulty == difficulty
  {
  }

  /** Row `i` of the problems, and with it its types and submissions, is gone; everything else is still there, in order. */
  ghost predicate ProblemGone(db: Db, after: Db, i: nat, id: int) {
    && i < |db.problems| && db.problems[i].id == id
    && after.problems == db.problems[..i] + db.problems[i + 1..]
    && after.users == db.users
    && (forall r :: r in after.types <==> r in db.types && r.problemId != id)
    && (forall s :: s in after.subs <==> s in db.subs && s.problemId != id)
    && forall j, k :: 0 <= j < k < |after.subs| ==> after.subs[j].id < after.subs[k].id
  }

  lemma DeleteProblemMeans(db: Db, id: int, env: Env, after: Db, ok: bool) returns (i: nat)
    requires Valid(db) && Transition(db, DeleteProblem(id), env, after, ok)
    ensures ok <==> Undisturbed(env, 4) && exists p :: p in db.problems && p.id == id
    ensures !ok ==> Unchanged(db, after)
    ensures ok ==> ProblemGone(db, after, i, id)
    ensures ok ==> forall p :: p in after.problems ==> p.id != id && p.title != db.problems[i].title
  {
    i := 0;
    if ok {
      var p :| p in db.problems && p.id == id;
      i :| 0 <= i < |db.problems| && db.problems[i] == p;
      ProblemRowGone(db, i, id);
      ProblemRestGone(db, id);
    }
  }

  lemma ProblemRowGone(db: Db, i: nat, id: int)
    requires Valid(db) && i < |db.problems| && db.problems[i].id == id
    ensures var left := Filter(db.problems, NotProblem(id));
            && left == db.problems[..i] + db.problems[i + 1..]
            && forall p :: p in left ==> p.id != id && p.title != db.problems[i].title
  {
    FilterButOne(db.problems, i, NotProblem(id));
    FilterMembers(db.problems, NotProblem(id));
  }

  lemma ProblemRestGone(db: Db, id: int)
    requires Valid(db)
    ensures forall r :: r in Filter(db.types, NotTyped(id)) <==> r in db.types && r.problemId != id
    ensures var left := Filter(db.subs, NotFor(id));
            && (forall s :: s in left <==> s in db.subs && s.problemId != id)
            && forall j, k :: 0 <= j < k < |left| ==> left[j].id < left[k].id
  {
    FilterMembers(db.types, NotTyped(id));
    FilterMembers(db.subs, NotFor(id));
    FilterKeepsOrder(db.subs, NotFor(id), (a: Submission, b: Submission) => a.id < b.id);
  }

  /** After a deletion both the number and the title can be used again. */
  lemma DeletedProblemIsFree(
    db: Db, id: int, env: Env, mid: Db, title: Text, difficulty: Text, again: Env, after: Db, ok: bool)
    requires Valid(db) && Transition(db, DeleteProblem(id), env, mid, true)
    requires exists p :: p in db.problems && p.id == id && p.title == title
    requires Undisturbed(again, 3) && Transition(mid, InsertProblem(id, title, difficulty), again, after, ok)
    ensures ok
  {
    var i := DeleteProblemMeans(db, id, env, mid, true);
    TransitionKeepsValid(db, DeleteProblem(id), env, mid, true);
    InsertProblemMeans(mid, id, title, difficulty, again, after, ok);
  }

  // ---------- types ----------

  lemma InsertTypeMeans(db: Db, id: int, unit: Text, env: Env, after: Db, ok: bool)
    requires Valid(db) && Transition(db, InsertType(id, unit), env, after, ok)
    ensures ok <==> && Undisturbed(env, 4) && (exists p :: p in db.problems && p.id == id)
                    && forall r :: r in db.types ==> !(r.problemId == id && r.unit == unit)
    ensures !ok ==> Unchanged(db, after)
    ensures ok ==> after.users == db.users && after.problems == db.problems && after.subs == db.subs
    ensures ok ==>
              && |after.types| == |db.types| + 1 && after.types[..|db.types|] == db.types
              && after.types[|db.types|].problemId == id && after.types[|db.types|].unit == unit
  {
    assert forall r: TypeRow :: r == TypeRow(id, unit) <==> r.problemId == id && r.unit == unit;
  }

  lemma DeleteTypeMeans(db: Db, id: int, unit: Text, env: Env, after: Db, ok: bool) returns (i: nat)
    requires Valid(db) && Transition(db, DeleteType(id, unit), env, after, ok)
    ensures ok <==> Undisturbed(env, 4) && exists r :: r in db.types && r.problemId == id && r.unit == unit
    ensures !ok ==> Unchanged(db, after)
    ensures ok ==> after.users == db.users && after.problems == db.problems && after.subs == db.subs
    ensures ok ==>
              && i < |db.types| && db.types[i].problemId == id && db.types[i].unit == unit
              && after.types == db.types[..i] + db.types[i + 1..]
              && forall r :: r in after.types ==> !(r.problemId == id && r.unit == unit)
  {
    i := 0;
    assert forall r: TypeRow :: r == TypeRow(id, unit) <==> r.problemId == id && r.unit == unit;
    if ok {
      i :| 0 <= i < |db.types| && db.types[i] == TypeRow(id, unit);
      FilterButOne(db.types, i, NotRow(TypeRow(id, unit)));
      FilterMembers(db.types, NotRow(TypeRow(id, unit)));
    }
  }

  // ---------- submissions ----------

  lemma SubmitMeans(db: Db, user: int, problem: int, status: bool, time: Text, env: Env, after: Db, ok: bool)
    requires Valid(db) && Transition(db, Submit(user, problem, status, time), env, after, ok)
    ensures ok <==> && Undisturbed(env, 4) && (exists u :: u in db.users && u.id == user)
                    && exists p :: p in db.problems && p.id == problem
    ensures !ok ==> Unchanged(db, after)
    ensures ok ==> after.users == db.users && after.problems == db.problems && after.types == db.types
    ensures ok ==>
              && |after.subs| == |db.subs| + 1 && after.subs[..|db.subs|] == db.subs
              && var s := after.subs[|db.subs|];
              && s.userId == user && s.problemId == problem && s.status == status && s.timeSpent == time
              && s.date == env.today && (forall o :: o in db.subs ==> o.id < s.id)
              && (TimeSpent.ValidTime(time) ==> s.minutes == TimeSpent.Seconds(time) / 60)
  {
    if TimeSpent.ValidTime(time) {
      TimeSpent.MinutesOfValid(time);
    }
  }

  lemma UnsubmitMeans(db: Db, sub: int, user: int, env: Env, after: Db, ok: bool) returns (i: nat)
    requires Valid(db) && Transition(db, Unsubmit(sub, user), env, after, ok)
    ensures ok <==> Undisturbed(env, 5) && exists s :: s in db.subs && s.id == sub && s.userId == user
    ensures !ok ==> Unchanged(db, after)
    ensures ok ==> after.users == db.users && after.problems == db.problems && after.types == db.types
    ensures ok ==>
              && i < |db.subs| && db.subs[i].id == sub && db.subs[i].userId == user
              && after.subs == db.subs[..i] + db.subs[i + 1..]
              && forall s :: s in after.subs ==> s.id != sub
  {
    i := 0;
    UserNumbers(db);
    if ok {
      i := SubmissionRemoved(db, sub, user);
    }
  }

  lemma SubmissionRemoved(db: Db, sub: int, user: int) returns (i: nat)
    requires Valid(db) && exists s :: s in db.subs && s.id == sub && s.userId == user
    ensures i < |db.subs| && db.subs[i].id == sub && db.subs[i].userId == user
    ensures var left := Filter(db.subs, NotSub(sub, user));
            left == db.subs[..i] + db.subs[i + 1..] && forall s :: s in left ==> s.id != sub
  {
    var s :| s in db.subs && s.id == sub && s.userId == user;
    i :| 0 <= i < |db.subs| && db.subs[i] == s;
    FilterButOne(db.subs, i, NotSub(sub, user));
    FilterMembers(db.subs, NotSub(sub, user));
  }

  /** A stored submission never belongs to the number that stands for nobody. */
  lemma UserNumbers(db: Db)
    requires Valid(db)
    ensures forall s :: s in db.subs ==> s.userId != -1
  {
    forall s | s in db.subs ensures s.userId != -1 {
      assert HasUser(db, s.userId);
    }
  }
}
