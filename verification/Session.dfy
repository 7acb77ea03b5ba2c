/** `SQLManager`: who is logged in on which descriptor, and what each request may do to the database. */
module Session {
  import opened Bytes
  import opened Codec
  import opened Fields
  import opened Numbers
  import opened Tables
  import opened Statistics
  import opened Driver

  const REGISTER_USER: byte := 0
  const LOGIN: byte := 1
  const SELECT_UNITS_DATA: byte := 2
  const SELECT_UNIT_DETAIL: byte := 3
  const GET_PROBLEM_SUBMISSIONS: byte := 5
  const INSERT_SUBMITTED: byte := 6
  const DELETE_SUBMITTED: byte := 7
  const DELETE_USER: byte := 8
  const INSERT_PROBLEM: byte := 9
  const DELETE_PROBLEM: byte := 10
  const INSERT_PROBLEM_TYPE: byte := 11
  const DELETE_PROBLEM_TYPE: byte := 12

  /** "Oscar", "true" and "1". */
  const OSCAR: Text := [79, 115, 99, 97, 114]
  const TRUE_WORD: Text := [116, 114, 117, 101]
  const ONE: Text := [49]

  datatype State = State(sessions: map<int, int>, special: int, db: Db)

  /** A new manager on a database that may have been in use for years. */
  function Initial(db: Db): State { State(map[], -1, db) }

  function Lower(s: Text): Text {
    if s == [] then [] else [if 65 <= s[0] <= 90 then s[0] + 32 else s[0]] + Lower(s[1..])
  }

  function StringToBool(s: Text): bool { Lower(s) == TRUE_WORD || Lower(s) == ONE }

  // ---------- what a request asks of the database ----------

  predicate Privileged(s: State, fd: int) { fd in s.sessions && s.sessions[fd] == s.special }

  /** The mutator a request reaches, with its arguments; None when a guard or a malformed field stops it first. */
  function DbCall(s: State, fd: int, kind: byte, fields: seq<Text>): Option<Call> {
    if kind == REGISTER_USER then
      if fields == [] then None else Some(Register(fields[0]))
    else if kind == INSERT_SUBMITTED then
      if fd !in s.sessions || |fields| != 3 || Stoi(fields[0]).None? then None
      else Some(Submit(s.sessions[fd], Stoi(fields[0]).value, StringToBool(fields[1]), fields[2]))
    else if kind == DELETE_SUBMITTED then
      if fd !in s.sessions || fields == [] || Stoll(fields[0]).None? then None
      else Some(Unsubmit(Stoll(fields[0]).value, s.sessions[fd]))
    else if !Privileged(s, fd) then None
    else if kind == DELETE_USER then
      if fields == [] then None else Some(DeleteUser(fields[0]))
    else if kind == INSERT_PROBLEM then
      if |fields| < 3 || Stoi(fields[0]).None? then None
      else Some(InsertProblem(Stoi(fields[0]).value, fields[1], fields[2]))
    else if kind == DELETE_PROBLEM then
      if fields == [] || Stoi(fields[0]).None? then None else Some(DeleteProblem(Stoi(fields[0]).value))
    else if kind == INSERT_PROBLEM_TYPE then
      if |fields| < 2 || Stoi(fields[0]).None? then None else Some(InsertType(Stoi(fields[0]).value, fields[1]))
    else if kind == DELETE_PROBLEM_TYPE then
      if |fields| < 2 || Stoi(fields[0]).None? then None else Some(DeleteType(Stoi(fields[0]).value, fields[1]))
    else None
  }

  /** The id a login finds; a lookup that fails finds -1. */
  function Lookup(db: Db, name: Text, env: Env): int {
    if env.connected && (env.fault.None? || env.fault.value >= 3) then IdOf(db.users, name) else -1
  }

  function LoggedIn(s: State, fd: int, name: Text, env: Env): State {
    var id := Lookup(s.db, name, env);
    s.(special := if name == OSCAR then id else s.special,
       sessions := if id != -1 then s.sessions[fd := id] else s.sessions)
  }

  function Erased(s: State, fd: int): State {
    if fd !in s.sessions then s
    else s.(special := if s.sessions[fd] == s.special then -1 else s.special, sessions := s.sessions - {fd})
  }

  /** `t` is a state that serving one request in `s` may lead to. */
  ghost predicate Served(s: State, fd: int, kind: byte, fields: seq<Text>, env: Env, t: State) {
    if kind == LOGIN then
      t == if fields == [] then s else LoggedIn(s, fd, fields[0], env)
    else
      var c := DbCall(s, fd, kind, fields);
      && t.sessions == s.sessions && t.special == s.special
      && (c.None? ==> t.db == s.db)
      && (c.Some? ==> exists ok :: Transition(s.db, c.value, env, t.db, ok))
  }

  // ---------- the class ----------

  datatype Answer =
    | Silence | LoginFirst | Malformed | Outcome(ok: bool) | Welcome(id: int)
    | UnitsTable(units: seq<Units>) | DetailTable(details: seq<UnitStat>)
    | SubmissionTable(listing: map<int, Submission>)

  /** `answer` is the reply to a request in `s` that led to `t`. */
  ghost predicate Replied(
    s: State, fd: int, kind: byte, fields: seq<Text>, env: Env, t: State, answer: Answer)
  {
    var c := DbCall(s, fd, kind, fields);
    if kind == LOGIN then
      if fields == [] then answer == Malformed
      else
        var id := Lookup(s.db, fields[0], env);
        answer == if id != -1 then Welcome(id) else Outcome(false)
    else if kind == 4 || kind > DELETE_PROBLEM_TYPE then answer == Silence
    else if kind != REGISTER_USER && fd !in s.sessions then answer == LoginFirst
    else if kind >= DELETE_USER && !Privileged(s, fd) then answer == Silence
    else if kind == SELECT_UNITS_DATA then answer.UnitsTable? && UnitsAnswer(s.db, s.sessions[fd], env, answer.units)
    else if kind == SELECT_UNIT_DETAIL then
      if fields == [] then answer == Malformed
      else answer.DetailTable? && DetailAnswer(s.db, s.sessions[fd], fields[0], env, answer.details)
    else if kind == GET_PROBLEM_SUBMISSIONS then
      answer == if fields == [] || Stoi(fields[0]).None? then Malformed
                else SubmissionTable(ListingReply(s.db, s.sessions[fd], Stoi(fields[0]).value, env))
    else if c.None? then answer == Malformed
    else answer.Outcome? && Transition(s.db, c.value, env, t.db, answer.ok)
  }

  /** What the server may return for the query that a request makes, if it makes one. */
  ghost predicate QueryResults(
    s: State, fd: int, kind: byte, fields: seq<Text>, overview: seq<UnitAgg>, detail: seq<DetailAgg>)
  {
    && (kind == SELECT_UNITS_DATA && fd in s.sessions ==> Overview(s.db, s.sessions[fd], overview))
    && (kind == SELECT_UNIT_DETAIL && fd in s.sessions && fields != [] ==> Detail(s.db, s.sessions[fd], fields[0], detail))
  }

  class SqlManager {
    var userFdToId: map<int, int>
    var specialId: int
    const db: SqlDriver

    function View(): State
      reads this, db
    {
      State(userFdToId, specialId, db.View())
    }

    constructor (db: SqlDriver)
      ensures View() == Initial(db.View()) && this.db == db
    {
      userFdToId, specialId := map[], -1;
      this.db := db;
    }

    method EraseFd(fd: int)
      modifies this
      ensures View() == Erased(old(View()), fd)
    {
      if fd !in userFdToId {
        return;
      }
      if userFdToId[fd] == specialId {
        specialId := -1;
      }
      userFdToId := userFdToId - {fd};
    }

    method HandleRegister(fd: int, pkg: SocketPackage, env: Env) returns (answer: Answer)
      requires 0 <= pkg.nLen <= pkg.pDataBuf.Length
      modifies db
      ensures Served(old(View()), fd, REGISTER_USER, Split(old(pkg.pDataBuf[..pkg.nLen])), env, View())
      ensures Replied(old(View()), fd, REGISTER_USER, Split(old(pkg.pDataBuf[..pkg.nLen])), env, View(), answer)
    {
      var data := GetData(pkg);
      if data == [] {
        return Malformed;
      }
      var ok := db.RegisterUser(data[0], env);
      return Outcome(ok);
    }

    method HandleLogin(fd: int, pkg: SocketPackage, env: Env) returns (answer: Answer)
      requires 0 <= pkg.nLen <= pkg.pDataBuf.Length
      modifies this
      ensures Served(old(View()), fd, LOGIN, Split(old(pkg.pDataBuf[..pkg.nLen])), env, View())
      ensures Replied(old(View()), fd, LOGIN, Split(old(pkg.pDataBuf[..pkg.nLen])), env, View(), answer)
      ensures answer.Welcome? ==> fd in userFdToId && userFdToId[fd] == answer.id != -1
      ensures !answer.Welcome? ==> userFdToId == old(userFdToId)
    {
      var data := GetData(pkg);
      if data == [] {
        return Malformed;
      }
      var username := data[0];
      var userId := db.GetUserId(username, env);
      if username == OSCAR {
        specialId := userId;
      }
      if userId != -1 {
        userFdToId := userFdToId[fd := userId];
        return Welcome(userId);
      }
      return Outcome(false);
    }

    method HandleUnitsData(fd: int, env: Env, overview: seq<UnitAgg>) returns (answer: Answer)
      requires fd in userFdToId ==> Overview(db.View(), userFdToId[fd], overview)
      ensures forall fields :: Replied(View(), fd, SELECT_UNITS_DATA, fields, env, View(), answer)
    {
      if fd !in userFdToId {
        return LoginFirst;
      }
      var units := db.SelectUnitsData(userFdToId[fd], env, overview);
      return UnitsTable(units);
    }

    method HandleUnitDetail(fd: int, pkg: SocketPackage, env: Env, detail: seq<DetailAgg>) returns (answer: Answer)
      requires 0 <= pkg.nLen <= pkg.pDataBuf.Length
      requires var fields := Split(pkg.pDataBuf[..pkg.nLen]);
               fd in userFdToId && fields != [] ==> Detail(db.View(), userFdToId[fd], fields[0], detail)
      ensures Replied(View(), fd, SELECT_UNIT_DETAIL, Split(pkg.pDataBuf[..pkg.nLen]), env, View(), answer)
    {
      if fd !in userFdToId {
        return LoginFirst;
      }
      var data := GetData(pkg);
      if data == [] {
        return Malformed;
      }
      var details := db.SelectUnitDetail(userFdToId[fd], data[0], env, detail);
      return DetailTable(details);
    }

    method HandleProblemSubmissions(fd: int, pkg: SocketPackage, env: Env) returns (answer: Answer)
      requires 0 <= pkg.nLen <= pkg.pDataBuf.Length
      ensures Replied(View(), fd, GET_PROBLEM_SUBMISSIONS, Split(pkg.pDataBuf[..pkg.nLen]), env, View(), answer)
    {
      if fd !in userFdToId {
        return LoginFirst;
      }
      var data := GetData(pkg);
      if data == [] {
        return Malformed;
      }
      var problemId := Stoi(data[0]);
      if problemId == None {
        return Malformed;
      }
      var listing := db.GetSubmissions(userFdToId[fd], problemId.value, env);
      return SubmissionTable(listing);
    }

    method HandleInsertSubmission(fd: int, pkg: SocketPackage, env: Env) returns (answer: Answer)
      requires 0 <= pkg.nLen <= pkg.pDataBuf.Length
      modifies db
      ensures Served(old(View()), fd, INSERT_SUBMITTED, Split(old(pkg.pDataBuf[..pkg.nLen])), env, View())
      ensures Replied(old(View()), fd, INSERT_SUBMITTED, Split(old(pkg.pDataBuf[..pkg.nLen])), env, View(), answer)
    {
      if fd !in userFdToId {
        return LoginFirst;
      }
      var data := GetData(pkg);
      if |data| != 3 {
        return Malformed;
      }
      var problemId := Stoi(data[0]);
      if problemId == None {
        return Malformed;
      }
      var ok := db.InsertSubmitted(userFdToId[fd], problemId.value, StringToBool(data[1]), data[2], env);
      return Outcome(ok);
    }

    method HandleDeleteSubmission(fd: int, pkg: SocketPackage, env: Env) returns (answer: Answer)
      requires 0 <= pkg.nLen <= pkg.pDataBuf.Length
      modifies db
      ensures Served(old(View()), fd, DELETE_SUBMITTED, Split(old(pkg.pDataBuf[..pkg.nLen])), env, View())
      ensures Replied(old(View()), fd, DELETE_SUBMITTED, Split(old(pkg.pDataBuf[..pkg.nLen])), env, View(), answer)
    {
      if fd !in userFdToId {
        return LoginFirst;
      }
      var data := GetData(pkg);
      if data == [] {
        return Malformed;
      }
      var submissionId := Stoll(data[0]);
      if submissionId == None {
        return Malformed;
      }
      var ok := db.DeleteSubmission(submissionId.value, userFdToId[fd], env);
      return Outcome(ok);
    }

    // The five handlers behind the `user_id != special_id` guard.

    method HandleDeleteUser(fd: int, pkg: SocketPackage, env: Env) returns (answer: Answer)
      requires 0 <= pkg.nLen <= pkg.pDataBuf.Length
      modifies db
      ensures Served(old(View()), fd, DELETE_USER, Split(old(pkg.pDataBuf[..pkg.nLen])), env, View())
      ensures Replied(old(View()), fd, DELETE_USER, Split(old(pkg.pDataBuf[..pkg.nLen])), env, View(), answer)
    {
      if fd !in userFdToId {
        return LoginFirst;
      }
      if userFdToId[fd] != specialId {
        return Silence;
      }
      var data := GetData(pkg);
      if data == [] {
        return Malformed;
      }
      var ok := db.DeleteUser(data[0], env);
      return Outcome(ok);
    }

    method HandleInsertProblem(fd: int, pkg: SocketPackage, env: Env) returns (answer: Answer)
      requires 0 <= pkg.nLen <= pkg.pDataBuf.Length
      modifies db
      ensures Served(old(View()), fd, INSERT_PROBLEM, Split(old(pkg.pDataBuf[..pkg.nLen])), env, View())
      ensures Replied(old(View()), fd, INSERT_PROBLEM, Split(old(pkg.pDataBuf[..pkg.nLen])), env, View(), answer)
    {
      if fd !in userFdToId {
        return LoginFirst;
      }
      if userFdToId[fd] != specialId {
        return Silence;
      }
      var data := GetData(pkg);
      if |data| < 3 {
        return Malformed;
      }
      var problemId := Stoi(data[0]);
      if problemId == None {
        return Malformed;
      }
      var ok := db.InsertProblem(problemId.value, data[1], data[2], env);
      return Outcome(ok);
    }

    method HandleDeleteProblem(fd: int, pkg: SocketPackage, env: Env) returns (answer: Answer)
      requires 0 <= pkg.nLen <= pkg.pDataBuf.Length
      modifies db
      ensures Served(old(View()), fd, DELETE_PROBLEM, Split(old(pkg.pDataBuf[..pkg.nLen])), env, View())
      ensures Replied(old(View()), fd, DELETE_PROBLEM, Split(old(pkg.pDataBuf[..pkg.nLen])), env, View(), answer)
    {
      if fd !in userFdToId {
        return LoginFirst;
      }
      if userFdToId[fd] != specialId {
        return Silence;
      }
      var data := GetData(pkg);
      if data == [] {
        return Malformed;
      }
      var problemId := Stoi(data[0]);
      if problemId == None {
        return Malformed;
      }
      var ok := db.DeleteProblem(problemId.value, env);
      return Outcome(ok);
    }

    method HandleInsertProblemType(fd: int, pkg: SocketPackage, env: Env) returns (answer: Answer)
      requires 0 <= pkg.nLen <= pkg.pDataBuf.Length
      modifies db
      ensures Served(old(View()), fd, INSERT_PROBLEM_TYPE, Split(old(pkg.pDataBuf[..pkg.nLen])), env, View())
      ensures Replied(old(View()), fd, INSERT_PROBLEM_TYPE, Split(old(pkg.pDataBuf[..pkg.nLen])), env, View(), answer)
    {
      if fd !in userFdToId {
        return LoginFirst;
      }
      if userFdToId[fd] != specialId {
        return Silence;
      }
      var data := GetData(pkg);
      if |data| < 2 {
        return Malformed;
      }
      var problemId := Stoi(data[0]);
      if problemId == None {
        return Malformed;
      }
      var ok := db.InsertProblemType(problemId.value, data[1], env);
      return Outcome(ok);
    }

    method HandleDeleteProblemType(fd: int, pkg: SocketPackage, env: Env) returns (answer: Answer)
      requires 0 <= pkg.nLen <= pkg.pDataBuf.Length
      modifies db
      ensures Served(old(View()), fd, DELETE_PROBLEM_TYPE, Split(old(pkg.pDataBuf[..pkg.nLen])), env, View())
      ensures Replied(old(View()), fd, DELETE_PROBLEM_TYPE, Split(old(pkg.pDataBuf[..pkg.nLen])), env, View(), answer)
    {
      if fd !in userFdToId {
        return LoginFirst;
      }
      if userFdToId[fd] != specialId {
        return Silence;
      }
      var data := GetData(pkg);
      if |data| < 2 {
        return Malformed;
      }
      var problemId := Stoi(data[0]);
      if problemId == None {
        return Malformed;
      }
      var ok := db.DeleteProblemType(problemId.value, data[1], env);
      return Outcome(ok);
    }

    /**
      `handle_request`: the dispatch on the package type. `overview` and `detail` are what the server
      returns when the request makes one of the two queries.
    */
    method HandleRequest(fd: int, pkg: SocketPackage, env: Env, overview: seq<UnitAgg>, detail: seq<DetailAgg>)
      returns (answer: Answer)
      requires 0 <= pkg.nLen <= pkg.pDataBuf.Length
      requires QueryResults(View(), fd, pkg.cType, Split(pkg.pDataBuf[..pkg.nLen]), overview, detail)
      modifies this, db
      ensures Served(old(View()), fd, old(pkg.cType), Split(old(pkg.pDataBuf[..pkg.nLen])), env, View())
      ensures Replied(old(View()), fd, old(pkg.cType), Split(old(pkg.pDataBuf[..pkg.nLen])), env, View(), answer)
    {
      if pkg.cType == REGISTER_USER {
        answer := HandleRegister(fd, pkg, env);
      } else if pkg.cType == LOGIN {
        answer := HandleLogin(fd, pkg, env);
      } else if pkg.cType == SELECT_UNITS_DATA {
        answer := HandleUnitsData(fd, env, overview);
      } else if pkg.cType == SELECT_UNIT_DETAIL {
        answer := HandleUnitDetail(fd, pkg, env, detail);
      } else if pkg.cType == GET_PROBLEM_SUBMISSIONS {
        answer := HandleProblemSubmissions(fd, pkg, env);
      } else if pkg.cType == INSERT_SUBMITTED {
        answer := HandleInsertSubmission(fd, pkg, env);
      } else if pkg.cType == DELETE_SUBMITTED {
        answer := HandleDeleteSubmission(fd, pkg, env);
      } else if pkg.cType == DELETE_USER {
        answer := HandleDeleteUser(fd, pkg, env);
      } else if pkg.cType == INSERT_PROBLEM {
        answer := HandleInsertProblem(fd, pkg, env);
      } else if pkg.cType == DELETE_PROBLEM {
        answer := HandleDeleteProblem(fd, pkg, env);
      } else if pkg.cType == INSERT_PROBLEM_TYPE {
        answer := HandleInsertProblemType(fd, pkg, env);
      } else if pkg.cType == DELETE_PROBLEM_TYPE {
        answer := HandleDeleteProblemType(fd, pkg, env);
      } else {
        answer := Silence;
      }
    }
  }
}
