/**
  The schema of `init.sql` and the effect of each statement group of `SQL_Driver` on it. Tables are
  sequences in insertion order; AUTO_INCREMENT counters are part of the state because a rolled back
  INSERT does not give its number back.
*/
module Tables {
  import opened Bytes
  import opened Folds
  import opened TimeSpent

  datatype User = User(id: int, username: Text, createdAt: int)

  datatype Problem = Problem(id: int, title: Text, difficulty: Text)

  datatype TypeRow = TypeRow(problemId: int, unit: Text)

  datatype Submission = Submission(
    id: int, problemId: int, userId: int, status: bool, timeSpent: Text, minutes: int, date: int)

  datatype Db = Db(
    users: seq<User>, problems: seq<Problem>, types: seq<TypeRow>, subs: seq<Submission>, nextUser: int, nextSub: int)

  const EMPTY := Db([], [], [], [], 1, 1)

  // ---------- constraints ----------

  predicate HasUser(db: Db, id: int) { exists u :: u in db.users && u.id == id }

  predicate HasName(db: Db, name: Text) { exists u :: u in db.users && u.username == name }

  predicate HasProblem(db: Db, id: int) { exists p :: p in db.problems && p.id == id }

  predicate HasTitle(db: Db, title: Text) { exists p :: p in db.problems && p.title == title }

  ghost predicate UsersOk(db: Db) {
    && db.nextUser >= 1
    && (forall u :: u in db.users ==> 1 <= u.id < db.nextUser)
    && (forall i, j :: 0 <= i < j < |db.users| ==> db.users[i].id < db.users[j].id && db.users[i].username != db.users[j].username)
  }

  ghost predicate ProblemsOk(db: Db) {
    forall i, j :: 0 <= i < j < |db.problems| ==> db.problems[i].id != db.problems[j].id && db.problems[i].title != db.problems[j].title
  }

  ghost predicate TypesOk(db: Db) {
    && Distinct(db.types)
    && forall t :: t in db.types ==> HasProblem(db, t.problemId)
  }

  ghost predicate SubsOk(db: Db) {
    && db.nextSub >= 1
    && (forall s :: s in db.subs ==> 1 <= s.id < db.nextSub && HasUser(db, s.userId) && HasProblem(db, s.problemId))
    && (forall i, j :: 0 <= i < j < |db.subs| ==> db.subs[i].id < db.subs[j].id)
  }

  /** Primary, unique and foreign keys, and counters ahead of every stored number. */
  ghost predicate Valid(db: Db) {
    UsersOk(db) && ProblemsOk(db) && TypesOk(db) && SubsOk(db)
  }

  // ---------- calls ----------

  datatype Call =
    | Register(name: Text)
    | DeleteUser(name: Text)
    | InsertProblem(id: int, title: Text, difficulty: Text)
    | DeleteProblem(id: int)
    | InsertType(id: int, unit: Text)
    | DeleteType(id: int, unit: Text)
    | Submit(user: int, problem: int, status: bool, time: Text)
    | Unsubmit(sub: int, user: int)

  /** The constraints and lookups of the call let it through. */
  predicate Accepts(db: Db, c: Call) {
    match c
    case Register(n) => !HasName(db, n)
    case DeleteUser(n) => HasName(db, n)
    case InsertProblem(id, title, _) => !HasProblem(db, id) && !HasTitle(db, title)
    case DeleteProblem(id) => HasProblem(db, id)
    case InsertType(id, unit) => TypeRow(id, unit) !in db.types && HasProblem(db, id)
    case DeleteType(id, unit) => TypeRow(id, unit) in db.types
    case Submit(user, problem, _, _) => user != -1 && HasUser(db, user) && HasProblem(db, problem)
    case Unsubmit(sub, user) => user != -1 && exists s :: s in db.subs && s.id == sub && s.userId == user
  }

  predicate Named(db: Db, id: int, name: Text) { exists u :: u in db.users && u.id == id && u.username == name }

  // The rows a DELETE leaves standing.

  function NotNamed(name: Text): User -> bool { (u: User) => u.username != name }

  function NotBy(db: Db, name: Text): Submission -> bool { (s: Submission) => !Named(db, s.userId, name) }

  function NotProblem(id: int): Problem -> bool { (p: Problem) => p.id != id }

  function NotTyped(id: int): TypeRow -> bool { (t: TypeRow) => t.problemId != id }

  function NotFor(id: int): Submission -> bool { (s: Submission) => s.problemId != id }

  function NotRow(row: TypeRow): TypeRow -> bool { (t: TypeRow) => t != row }

  function NotSub(sub: int, user: int): Submission -> bool { (s: Submission) => !(s.id == sub && s.userId == user) }

  function NewSubmission(db: Db, c: Call, today: int): Submission
    requires c.Submit?
  {
    Submission(db.nextSub, c.problem, c.user, c.status, c.time, MinuteFromTime(c.time), today)
  }

  function Effect(db: Db, c: Call, today: int): Db {
    match c
    case Register(n) => db.(users := db.users + [User(db.nextUser, n, today)], nextUser := db.nextUser + 1)
    case DeleteUser(n) =>
      db.(users := Filter(db.users, NotNamed(n)),
          subs := Filter(db.subs, NotBy(db, n)))
    case InsertProblem(id, title, difficulty) => db.(problems := db.problems + [Problem(id, title, difficulty)])
    case DeleteProblem(id) =>
      db.(problems := Filter(db.problems, NotProblem(id)),
          types := Filter(db.types, NotTyped(id)),
          subs := Filter(db.subs, NotFor(id)))
    case InsertType(id, unit) => db.(types := db.types + [TypeRow(id, unit)])
    case DeleteType(id, unit) => db.(types := Filter(db.types, NotRow(TypeRow(id, unit))))
    case Submit(_, _, _, _) => db.(subs := db.subs + [NewSubmission(db, c, today)], nextSub := db.nextSub + 1)
    case Unsubmit(sub, user) => db.(subs := Filter(db.subs, NotSub(sub, user)))
  }

  ghost predicate SameTables(a: Db, b: Db) {
    && a.users == b.users && a.problems == b.problems && a.types == b.types && a.subs == b.subs
    && a.nextUser <= b.nextUser && a.nextSub <= b.nextSub
  }

  /** What surrounds a call: whether a connection is obtained, the statement that raises, and the date. */
  datatype Env = Env(connected: bool, fault: Option<nat>, today: int)

  /** How many statements, the commit included, can raise before a call has taken effect. */
  function Statements(c: Call): nat {
    match c
    case Register(_) => 3
    case DeleteUser(_) => 3
    case InsertProblem(_, _, _) => 3
    case DeleteProblem(_) => 4
    case InsertType(_, _) => 4
    case DeleteType(_, _) => 4
    case Submit(_, _, _, _) => 4
    case Unsubmit(_, _) => 5
  }

  /**
    One call of the driver: all or nothing, and `true` exactly when it is all. Raising at any one of
    the statements is enough for nothing.
  */
  ghost predicate Transition(db: Db, c: Call, env: Env, after: Db, ok: bool) {
    && (ok <==> env.connected && Accepts(db, c) && (env.fault.Some? ==> env.fault.value >= Statements(c)))
    && (ok ==> after == Effect(db, c, env.today))
    && (!ok ==> SameTables(db, after))
  }

  // ---------- every call keeps the constraints ----------

  lemma {:induction false} FilterKeepsOrder<A>(xs: seq<A>, p: A -> bool, r: (A, A) -> bool)
    requires forall i, j :: 0 <= i < j < |xs| ==> r(xs[i], xs[j])
    ensures var ys := Filter(xs, p); forall i, j :: 0 <= i < j < |ys| ==> r(ys[i], ys[j])
  {
    if xs != [] {
      FilterKeepsOrder(xs[1..], p, r);
      var rest := Filter(xs[1..], p);
      forall j | 0 <= j < |rest| ensures r(xs[0], rest[j]) {
        FilterMember(xs[1..], p, rest[j]);
        var k :| 0 <= k < |xs[1..]| && xs[1..][k] == rest[j];
        assert xs[k + 1] == rest[j];
      }
    }
  }

  lemma FilterMembers<A>(xs: seq<A>, p: A -> bool)
    ensures forall x :: x in Filter(xs, p) <==> x in xs && p(x)
  {
    forall x ensures x in Filter(xs, p) <==> x in xs && p(x) {
      FilterMember(xs, p, x);
    }
  }

  lemma SubsFiltered(db: Db, p: Submission -> bool, after: Db)
    requires SubsOk(db) && after.subs == Filter(db.subs, p) && after.nextSub == db.nextSub
    requires forall s :: s in db.subs && p(s) ==> HasUser(after, s.userId) && HasProblem(after, s.problemId)
    ensures SubsOk(after)
  {
    FilterMembers(db.subs, p);
    FilterKeepsOrder(db.subs, p, (a: Submission, b: Submission) => a.id < b.id);
  }

  lemma TypesFiltered(db: Db, p: TypeRow -> bool, after: Db)
    requires TypesOk(db) && after.types == Filter(db.types, p)
    requires forall t :: t in db.types && p(t) ==> HasProblem(after, t.problemId)
    ensures TypesOk(after)
  {
    FilterMembers(db.types, p);
    FilterKeepsOrder(db.types, p, (a: TypeRow, b: TypeRow) => a != b);
  }

  lemma UsersFiltered(db: Db, p: User -> bool, after: Db)
    requires UsersOk(db) && after.users == Filter(db.users, p) && after.nextUser == db.nextUser
    ensures UsersOk(after)
  {
    FilterMembers(db.users, p);
    FilterKeepsOrder(db.users, p, (a: User, b: User) => a.id < b.id && a.username != b.username);
  }

  lemma ProblemsFiltered(db: Db, p: Problem -> bool, after: Db)
    requires ProblemsOk(db) && after.problems == Filter(db.problems, p)
    ensures ProblemsOk(after)
  {
    FilterKeepsOrder(db.problems, p, (a: Problem, b: Problem) => a.id != b.id && a.title != b.title);
  }

  lemma SameUsers(db: Db, after: Db)
    requires db.users <= after.users
    ensures forall id :: HasUser(db, id) ==> HasUser(after, id)
  {
    forall id | HasUser(db, id) ensures HasUser(after, id) {
      var u :| u in db.users && u.id == id;
      assert u in after.users;
    }
  }

  lemma SameProblems(db: Db, after: Db)
    requires db.problems <= after.problems
    ensures forall id :: HasProblem(db, id) ==> HasProblem(after, id)
  {
    forall id | HasProblem(db, id) ensures HasProblem(after, id) {
      var p :| p in db.problems && p.id == id;
      assert p in after.problems;
    }
  }

  lemma RegisterKeepsValid(db: Db, name: Text, today: int)
    requires Valid(db) && Accepts(db, Register(name))
    ensures Valid(Effect(db, Register(name), today))
  {
    var after := Effect(db, Register(name), today);
    SameUsers(db, after);
    SameProblems(db, after);
  }

  lemma DeleteUserKeepsValid(db: Db, name: Text, today: int)
    requires Valid(db)
    ensures Valid(Effect(db, DeleteUser(name), today))
  {
    var after := Effect(db, DeleteUser(name), today);
    UsersFiltered(db, NotNamed(name), after);
    SameProblems(db, after);
    FilterMembers(db.users, NotNamed(name));
    forall s | s in db.subs && !Named(db, s.userId, name) ensures HasUser(after, s.userId) {
      var u :| u in db.users && u.id == s.userId;
      assert u in after.users;
    }
    SubsFiltered(db, NotBy(db, name), after);
  }

  lemma InsertProblemKeepsValid(db: Db, c: Call, today: int)
    requires Valid(db) && c.InsertProblem? && Accepts(db, c)
    ensures Valid(Effect(db, c, today))
  {
    var after := Effect(db, c, today);
    SameUsers(db, after);
    SameProblems(db, after);
  }

  lemma DeleteProblemKeepsValid(db: Db, id: int, today: int)
    requires Valid(db)
    ensures Valid(Effect(db, DeleteProblem(id), today))
  {
    var after := Effect(db, DeleteProblem(id), today);
    ProblemsFiltered(db, NotProblem(id), after);
    SameUsers(db, after);
    FilterMembers(db.problems, NotProblem(id));
    forall k | HasProblem(db, k) && k != id ensures HasProblem(after, k) {
      var p :| p in db.problems && p.id == k;
      assert p in after.problems;
    }
    TypesFiltered(db, NotTyped(id), after);
    SubsFiltered(db, NotFor(id), after);
  }

  lemma TypesKeepValid(db: Db, c: Call, today: int)
    requires Valid(db) && (c.InsertType? || c.DeleteType?) && Accepts(db, c)
    ensures Valid(Effect(db, c, today))
  {
    var after := Effect(db, c, today);
    SameUsers(db, after);
    SameProblems(db, after);
    if c.DeleteType? {
      TypesFiltered(db, NotRow(TypeRow(c.id, c.unit)), after);
    }
  }

  lemma SubsKeepValid(db: Db, c: Call, today: int)
    requires Valid(db) && (c.Submit? || c.Unsubmit?) && Accepts(db, c)
    ensures Valid(Effect(db, c, today))
  {
    var after := Effect(db, c, today);
    SameUsers(db, after);
    SameProblems(db, after);
    if c.Unsubmit? {
      SubsFiltered(db, NotSub(c.sub, c.user), after);
    }
  }

  /** Every call, whether it succeeds, is refused or fails half-way, keeps the whole schema invariant. */
  lemma TransitionKeepsValid(db: Db, c: Call, env: Env, after: Db, ok: bool)
    requires Valid(db) && Transition(db, c, env, after, ok)
    ensures Valid(after)
  {
    if !ok {
      SameUsers(db, after);
      SameProblems(db, after);
    } else {
      match c
      case Register(n) => RegisterKeepsValid(db, n, env.today);
      case DeleteUser(n) => DeleteUserKeepsValid(db, n, env.today);
      case InsertProblem(_, _, _) => InsertProblemKeepsValid(db, c, env.today);
      case DeleteProblem(id) => DeleteProblemKeepsValid(db, id, env.today);
      case InsertType(_, _) => TypesKeepValid(db, c, env.today);
      case DeleteType(_, _) => TypesKeepValid(db, c, env.today);
      case Submit(_, _, _, _) => SubsKeepValid(db, c, env.today);
      case Unsubmit(_, _) => SubsKeepValid(db, c, env.today);
    }
  }
}
