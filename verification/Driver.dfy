/**
  `SQL_Driver`: each mutator as one transaction over the tables, statement by statement, with an
  exception possible at any statement before the commit has taken effect; and the two statistics
  reads with their fetch loops.
*/
module Driver {
  import opened Bytes
  import opened Folds
  import opened Tables
  import opened Statistics
  import StatisticsLaws
  import TimeSpent

  /** `Units`: an overview row and the rates computed on the client side of the connection. */
  datatype Units = Units(row: UnitAgg, rate20: real, rate30: real, rateOver30: real)

  datatype Word = Solved | Unsolved

  /** `UnitStat`: a detail row with its last state in words. */
  datatype UnitStat = UnitStat(row: DetailAgg, state: Word)

  function Rate(n: nat, total: nat): real {
    if total != 0 then n as real / total as real * 100.0 else 0.0
  }

  function Rated(r: UnitAgg): Units {
    Units(r, Rate(r.solved20, r.total), Rate(r.solved30, r.total), Rate(r.over30, r.total))
  }

  function Worded(r: DetailAgg): UnitStat {
    UnitStat(r, if r.lastStatus then Solved else Unsolved)
  }

  /** How many rows have been fetched when statement `fault` raises; the first `before` come before the fetch. */
  function Fetched(n: nat, fault: Option<nat>, before: nat): (k: nat)
    ensures k <= n
  {
    if fault.None? || fault.value >= before + n then n
    else if fault.value < before then 0
    else fault.value - before
  }

  // The rows a client sees of a result set that the server returned.

  function UnitsReply(user: int, env: Env, res: seq<UnitAgg>): seq<Units> {
    if user == -1 || !env.connected then [] else Map(res, Rated)[..Fetched(|res|, env.fault, 3)]
  }

  function DetailReply(user: int, env: Env, res: seq<DetailAgg>): seq<UnitStat> {
    if user == -1 || !env.connected then [] else Map(res, Worded)[..Fetched(|res|, env.fault, 3)]
  }

  function ListingReply(db: Db, user: int, problem: int, env: Env): map<int, Submission> {
    var rows := Filter(db.subs, Against(user, problem, Any));
    if env.connected then Listing(rows[..Fetched(|rows|, env.fault, 3)]) else map[]
  }

  /** The replies that show the user's own overview, in one of the orders the server may return. */
  ghost predicate UnitsAnswer(db: Db, user: int, env: Env, stats: seq<Units>) {
    exists res :: Overview(db, user, res) && stats == UnitsReply(user, env, res)
  }

  /** The same for the user's rows of one unit. */
  ghost predicate DetailAnswer(db: Db, user: int, unit: Text, env: Env, stats: seq<UnitStat>) {
    exists res :: Detail(db, user, unit, res) && stats == DetailReply(user, env, res)
  }

  /** The id a lookup by name finds, or -1. */
  function IdOf(users: seq<User>, name: Text): (id: int)
    ensures Finds(users, name, id)
  {
    if users == [] then -1
    else if users[0].username == name then users[0].id
    else IdOf(users[1..], name)
  }

  /** `id` is stored under the name, or it is -1 and nobody has the name. */
  ghost predicate Finds(users: seq<User>, name: Text, id: int) {
    || (exists u :: u in users && u.username == name && u.id == id)
    || (id == -1 && forall u :: u in users ==> u.username != name)
  }

  /** The driver and the database behind it, which several managers may share. */
  class SqlDriver {
    var users: seq<User>
    var problems: seq<Problem>
    var types: seq<TypeRow>
    var subs: seq<Submission>
    var nextUser: int
    var nextSub: int

    function View(): Db
      reads this
    {
      Db(users, problems, types, subs, nextUser, nextSub)
    }

    constructor ()
      ensures View() == EMPTY
    {
      users, problems, types, subs, nextUser, nextSub := [], [], [], [], 1, 1;
    }

    /** Undoes what the transaction did to the tables; numbers drawn from a counter stay drawn. */
    method Rollback(saved: Db)
      modifies this
      ensures View() == saved.(nextUser := old(nextUser), nextSub := old(nextSub))
    {
      users, problems, types, subs := saved.users, saved.problems, saved.types, saved.subs;
    }

    method RegisterUser(name: Text, env: Env) returns (ok: bool)
      modifies this
      ensures Transition(old(View()), Register(name), env, View(), ok)
    {
      if !env.connected {
        return false;
      }
      var saved := View();
      if env.fault == Some(0) {
        return false;
      }
      if env.fault == Some(1) {
        Rollback(saved);
        return false;
      }
      var id := nextUser;
      nextUser := nextUser + 1;
      if HasName(saved, name) {
        Rollback(saved);
        return false;
      }
      users := users + [User(id, name, env.today)];
      if env.fault == Some(2) {
        Rollback(saved);
        return false;
      }
      return true;
    }

    method DeleteUser(name: Text, env: Env) returns (ok: bool)
      modifies this
      ensures Transition(old(View()), Call.DeleteUser(name), env, View(), ok)
      ensures ok ==> forall u :: u in users <==> u in old(users) && u.username != name
    {
      if !env.connected {
        return false;
      }
      var saved := View();
      if env.fault == Some(0) || env.fault == Some(1) {
        Rollback(saved);
        return false;
      }
      subs := Filter(subs, NotBy(saved, name));
      users := Filter(users, NotNamed(name));
      FilterMembers(saved.users, NotNamed(name));
      FilterLength(saved.users, NotNamed(name));
      DeletedRows(saved, name);
      var rows := |saved.users| - |users|;
      if rows <= 0 {
        Rollback(saved);
        return false;
      }
      if env.fault == Some(2) {
        Rollback(saved);
        return false;
      }
      return true;
    }

    method InsertProblem(id: int, title: Text, difficulty: Text, env: Env) returns (ok: bool)
      modifies this
      ensures Transition(old(View()), Call.InsertProblem(id, title, difficulty), env, View(), ok)
    {
      if !env.connected {
        return false;
      }
      var saved := View();
      if env.fault == Some(0) || env.fault == Some(1) {
        Rollback(saved);
        return false;
      }
      if HasProblem(saved, id) || HasTitle(saved, title) {
        Rollback(saved);
        return false;
      }
      problems := problems + [Problem(id, title, difficulty)];
      if env.fault == Some(2) {
        Rollback(saved);
        return false;
      }
      return true;
    }

    method DeleteProblem(id: int, env: Env) returns (ok: bool)
      modifies this
      ensures Transition(old(View()), Call.DeleteProblem(id), env, View(), ok)
      ensures ok ==> forall p :: p in problems <==> p in old(problems) && p.id != id
    {
      if !env.connected {
        return false;
      }
      var saved := View();
      if env.fault == Some(0) || env.fault == Some(1) {
        Rollback(saved);
        return false;
      }
      if !HasProblem(saved, id) {
        Rollback(saved);
        return false;
      }
      if env.fault == Some(2) {
        Rollback(saved);
        return false;
      }
      types := Filter(types, NotTyped(id));
      subs := Filter(subs, NotFor(id));
      problems := Filter(problems, NotProblem(id));
      FilterMembers(saved.problems, NotProblem(id));
      FilterLength(saved.problems, NotProblem(id));
      DeletedProblemRows(saved, id);
      var affected := |saved.problems| - |problems|;
      if affected <= 0 {
        assert false;
      }
      if env.fault == Some(3) {
        Rollback(saved);
        return false;
      }
      return true;
    }

    method InsertProblemType(id: int, unit: Text, env: Env) returns (ok: bool)
      modifies this
      ensures Transition(old(View()), InsertType(id, unit), env, View(), ok)
    {
      if !env.connected {
        return false;
      }
      var saved := View();
      if env.fault == Some(0) || env.fault == Some(1) {
        Rollback(saved);
        return false;
      }
      if TypeRow(id, unit) in types {
        Rollback(saved);
        return false;
      }
      if env.fault == Some(2) || !HasProblem(saved, id) {
        Rollback(saved);
        return false;
      }
      types := types + [TypeRow(id, unit)];
      if env.fault == Some(3) {
        Rollback(saved);
        return false;
      }
      return true;
    }

    method DeleteProblemType(id: int, unit: Text, env: Env) returns (ok: bool)
      modifies this
      ensures Transition(old(View()), DeleteType(id, unit), env, View(), ok)
    {
      if !env.connected {
        return false;
      }
      var saved := View();
      if env.fault == Some(0) || env.fault == Some(1) {
        Rollback(saved);
        return false;
      }
      if TypeRow(id, unit) !in types {
        Rollback(saved);
        return false;
      }
      if env.fault == Some(2) {
        Rollback(saved);
        return false;
      }
      types := Filter(types, NotRow(TypeRow(id, unit)));
      FilterLength(saved.types, NotRow(TypeRow(id, unit)));
      CountLess(saved.types, NotRow(TypeRow(id, unit)), TypeRow(id, unit));
      var affected := |saved.types| - |types|;
      if affected <= 0 {
        assert false;
      }
      if env.fault == Some(3) {
        Rollback(saved);
        return false;
      }
      return true;
    }

    method InsertSubmitted(user: int, problem: int, status: bool, time: Text, env: Env) returns (ok: bool)
      modifies this
      ensures Transition(old(View()), Submit(user, problem, status, time), env, View(), ok)
      ensures ok ==> |subs| == |old(subs)| + 1 && subs[..|old(subs)|] == old(subs)
      ensures ok ==>
                var s := subs[|subs| - 1];
                && s.userId == user && s.problemId == problem && s.status == status && s.timeSpent == time
                && s.date == env.today && s.minutes == TimeSpent.MinuteFromTime(time)
    {
      if user == -1 {
        return false;
      }
      if !env.connected {
        return false;
      }
      var saved := View();
      if env.fault == Some(0) || env.fault == Some(1) {
        Rollback(saved);
        return false;
      }
      if !HasUser(saved, user) {
        Rollback(saved);
        return false;
      }
      if env.fault == Some(2) {
        Rollback(saved);
        return false;
      }
      var id := nextSub;
      nextSub := nextSub + 1;
      if !HasProblem(saved, problem) {
        Rollback(saved);
        return false;
      }
      subs := subs + [Submission(id, problem, user, status, time, TimeSpent.MinuteFromTime(time), env.today)];
      if env.fault == Some(3) {
        Rollback(saved);
        return false;
      }
      return true;
    }

    method DeleteSubmission(sub: int, user: int, env: Env) returns (ok: bool)
      modifies this
      ensures Transition(old(View()), Unsubmit(sub, user), env, View(), ok)
    {
      if user == -1 {
        return false;
      }
      if !env.connected {
        return false;
      }
      var saved := View();
      if env.fault == Some(0) || env.fault == Some(1) {
        Rollback(saved);
        return false;
      }
      if !(exists s :: s in subs && s.id == sub && s.userId == user) {
        Rollback(saved);
        return false;
      }
      if env.fault == Some(2) {
        Rollback(saved);
        return false;
      }
      subs := Filter(subs, NotSub(sub, user));
      FilterLength(saved.subs, NotSub(sub, user));
      ghost var s :| s in saved.subs && s.id == sub && s.userId == user;
      CountLess(saved.subs, NotSub(sub, user), s);
      var affected := |saved.subs| - |subs|;
      if affected > 0 {
        // The name is only looked up for a message, but the lookup can still raise and undo the deletion.
        if env.fault == Some(3) {
          Rollback(saved);
          return false;
        }
      } else {
        assert false;
      }
      if env.fault == Some(4) {
        Rollback(saved);
        return false;
      }
      return true;
    }

    /** `getUserId`: a commit that raises comes too late to hide the id already read. */
    method GetUserId(name: Text, env: Env) returns (id: int)
      ensures id == if env.connected && (env.fault.None? || env.fault.value >= 3) then IdOf(users, name) else -1
      ensures id != -1 ==> exists u :: u in users && u.username == name && u.id == id
      ensures id == -1 && env.connected && env.fault.None? ==> Finds(users, name, -1)
    {
      if !env.connected {
        return -1;
      }
      id := -1;
      if env.fault.Some? && env.fault.value < 3 {
        return id;
      }
      id := IdOf(users, name);
    }

    /** `getSubmissions`; the table is in the order of its numbers, so the ORDER BY changes nothing. */
    method GetSubmissions(user: int, problem: int, env: Env) returns (listing: map<int, Submission>)
      ensures listing == ListingReply(View(), user, problem, env)
    {
      listing := map[];
      if env.connected {
        listing := FetchSubmissions(env, Filter(subs, Against(user, problem, Any)));
      }
    }

    /** `Select_UnitsData`; `res` is the result set of the overview query, in one of the orders the server may return. */
    method SelectUnitsData(user: int, env: Env, res: seq<UnitAgg>) returns (stats: seq<Units>)
      requires Overview(View(), user, res)
      ensures UnitsAnswer(View(), user, env, stats)
    {
      stats := [];
      if user != -1 && env.connected {
        stats := FetchUnits(env, res);
      }
      assert stats == UnitsReply(user, env, res);
    }

    /** `Select_Unitdetail`; `res` is the result set of the detail query, in one of the orders the server may return. */
    method SelectUnitDetail(user: int, unit: Text, env: Env, res: seq<DetailAgg>) returns (stats: seq<UnitStat>)
      requires Detail(View(), user, unit, res)
      ensures DetailAnswer(View(), user, unit, env, stats)
    {
      stats := [];
      if user != -1 && env.connected {
        stats := FetchDetail(env, res);
      }
      assert stats == DetailReply(user, env, res);
    }
  }

  /** The loop over the user's rows for a problem, which files them under their numbers. */
  method FetchSubmissions(env: Env, res: seq<Submission>) returns (listing: map<int, Submission>)
    ensures listing == Listing(res[..Fetched(|res|, env.fault, 3)])
  {
    listing := map[];
    if env.fault.Some? && env.fault.value < 3 {
      return;
    }
    var i := 0;
    while i < |res|
      invariant 0 <= i <= |res|
      invariant listing == Listing(res[..i])
      invariant env.fault.Some? ==> env.fault.value >= 3 + i
    {
      if env.fault == Some(3 + i) {
        return;
      }
      assert res[..i + 1][..i] == res[..i];
      listing := listing[res[i].id := res[i]];
      i := i + 1;
    }
    assert res[..i] == res;
  }

  /** The loop over the result set of the overview query, which computes the rates. */
  method FetchUnits(env: Env, res: seq<UnitAgg>) returns (stats: seq<Units>)
    ensures stats == Map(res, Rated)[..Fetched(|res|, env.fault, 3)]
  {
    stats := [];
    if env.fault.Some? && env.fault.value < 3 {
      return;
    }
    var i := 0;
    while i < |res|
      invariant 0 <= i <= |res|
      invariant |stats| == i && forall k :: 0 <= k < i ==> stats[k] == Rated(res[k])
      invariant env.fault.Some? ==> env.fault.value >= 3 + i
    {
      if env.fault == Some(3 + i) {
        return;
      }
      var r := res[i];
      var u := Units(r, 0.0, 0.0, 0.0);
      if r.total != 0 {
        u := u.(rate20 := r.solved20 as real / r.total as real * 100.0);
        u := u.(rate30 := r.solved30 as real / r.total as real * 100.0);
        u := u.(rateOver30 := r.over30 as real / r.total as real * 100.0);
      }
      stats := stats + [u];
      i := i + 1;
    }
  }

  /** The loop over the result set of the detail query, which puts the state into words. */
  method FetchDetail(env: Env, res: seq<DetailAgg>) returns (stats: seq<UnitStat>)
    ensures stats == Map(res, Worded)[..Fetched(|res|, env.fault, 3)]
  {
    stats := [];
    if env.fault.Some? && env.fault.value < 3 {
      return;
    }
    var i := 0;
    while i < |res|
      invariant 0 <= i <= |res|
      invariant |stats| == i && forall k :: 0 <= k < i ==> stats[k] == Worded(res[k])
      invariant env.fault.Some? ==> env.fault.value >= 3 + i
    {
      if env.fault == Some(3 + i) {
        return;
      }
      var u := UnitStat(res[i], if res[i].lastStatus then Solved else Unsolved);
      stats := stats + [u];
      i := i + 1;
    }
  }

  // ---------- counting deleted rows ----------

  lemma {:induction false} CountLess<A>(xs: seq<A>, p: A -> bool, x: A)
    requires x in xs && !p(x)
    ensures Count(xs, p) < |xs|
  {
    if x in xs[1..] {
      CountLess(xs[1..], p, x);
    } else {
      CountAtMost(xs[1..], p);
    }
  }

  lemma {:induction false} CountAtMost<A>(xs: seq<A>, p: A -> bool)
    ensures Count(xs, p) <= |xs|
  {
    if xs != [] {
      CountAtMost(xs[1..], p);
    }
  }

  lemma DeletedRows(db: Db, name: Text)
    ensures Count(db.users, NotNamed(name)) < |db.users| <==> HasName(db, name)
  {
    if u :| u in db.users && u.username == name {
      CountLess(db.users, NotNamed(name), u);
    } else {
      CountAll(db.users, NotNamed(name));
    }
  }

  lemma DeletedProblemRows(db: Db, id: int)
    ensures Count(db.problems, NotProblem(id)) < |db.problems| <==> HasProblem(db, id)
  {
    if p :| p in db.problems && p.id == id {
      CountLess(db.problems, NotProblem(id), p);
    } else {
      CountAll(db.problems, NotProblem(id));
    }
  }

  /**
    In every result the rates are the counts as percentages of the total; the 30-minute and over-30 rates
    make up the whole, and the 20-minute rate is part of the first.
  */
  lemma RatesAddUp(db: Db, u: int, rows: seq<UnitAgg>, r: UnitAgg)
    requires Valid(db) && Overview(db, u, rows) && r in rows
    ensures r.total > 0 && Rated(r).row == r
    ensures Rated(r).rate20 * r.total as real == 100.0 * r.solved20 as real
    ensures Rated(r).rate30 * r.total as real == 100.0 * r.solved30 as real
    ensures Rated(r).rateOver30 * r.total as real == 100.0 * r.over30 as real
    ensures Rated(r).rate30 + Rated(r).rateOver30 == 100.0
    ensures 0.0 <= Rated(r).rate20 <= Rated(r).rate30 <= 100.0
  {
    StatisticsLaws.OverviewRow(db, u, rows, r);
    RatesOf(r);
  }

  lemma RatesOf(r: UnitAgg)
    requires r.total > 0 && r.solved20 <= r.solved30 && r.solved30 + r.over30 == r.total
    ensures Rated(r).row == r
    ensures Rated(r).rate20 * r.total as real == 100.0 * r.solved20 as real
    ensures Rated(r).rate30 * r.total as real == 100.0 * r.solved30 as real
    ensures Rated(r).rateOver30 * r.total as real == 100.0 * r.over30 as real
    ensures Rated(r).rate30 + Rated(r).rateOver30 == 100.0
    ensures 0.0 <= Rated(r).rate20 <= Rated(r).rate30 <= 100.0
  {
    var n := r.total as real;
    DivideSum(r.solved30 as real, r.over30 as real, n);
    DivideMonotone(r.solved20 as real, r.solved30 as real, n);
    DivideMonotone(r.solved30 as real, n, n);
    Percentage(r.solved20, r.total);
    Percentage(r.solved30, r.total);
    Percentage(r.over30, r.total);
  }

  lemma Percentage(a: nat, n: nat)
    requires n > 0
    ensures Rate(a, n) * n as real == 100.0 * a as real
  {
    assert a as real / n as real * n as real == a as real;
  }

  /**
    A listing holds submissions of that user to that problem under their own numbers; one that no
    exception cut short holds all of them.
  */
  lemma ListingIsOwn(db: Db, user: int, problem: int, env: Env)
    requires Valid(db)
    ensures var m := ListingReply(db, user, problem, env);
            && (forall id :: id in m ==> m[id].id == id && m[id] in db.subs && m[id].userId == user && m[id].problemId == problem)
            && (env.connected && env.fault.None? ==>
                  forall s :: s in db.subs && s.userId == user && s.problemId == problem ==> s.id in m && m[s.id] == s)
  {
    var rows := Filter(db.subs, Against(user, problem, Any));
    StatisticsLaws.ListedRows(db, user, problem, rows);
    var shown := rows[..Fetched(|rows|, env.fault, 3)];
    assert forall s :: s in shown ==> s in rows;
    StatisticsLaws.ListingOf(shown);
  }

  /** An exception while row `i` is fetched leaves the reply with exactly the rows before it. */
  lemma CutShort(user: int, env: Env, units: seq<UnitAgg>, details: seq<DetailAgg>, i: nat)
    requires user != -1 && env.connected && env.fault == Some(3 + i)
    ensures i <= |units| ==> |UnitsReply(user, env, units)| == i
    ensures i <= |details| ==> |DetailReply(user, env, details)| == i
    ensures forall k :: 0 <= k < i && k < |units| ==> UnitsReply(user, env, units)[k].row == units[k]
    ensures forall k :: 0 <= k < i && k < |details| ==> DetailReply(user, env, details)[k].row == details[k]
  {
  }

  lemma DivideSum(a: real, b: real, n: real)
    requires n > 0.0 && a + b == n
    ensures a / n + b / n == 1.0
  {
    assert a / n + b / n == (a + b) / n;
  }

  lemma DivideMonotone(a: real, b: real, n: real)
    requires 0.0 <= a <= b && n > 0.0
    ensures 0.0 <= a / n <= b / n
  {
    assert b / n - a / n == (b - a) / n >= 0.0;
  }
}
