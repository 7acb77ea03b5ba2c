/**
  What each request message does, from its fields to the answer, the tables and the sessions: said with
  the numbers and words of the protocol, for every descriptor, every text and every failure.
*/
module Requests {
  import opened Bytes
  import opened Numbers
  import opened Tables
  import opened Driver
  import opened Session
  import opened CallEffects
  import Fields
  import TimeSpent

  /** In `s` a package of that kind with these fields came in on `fd`; it left `t` and got `answer`. */
  ghost predicate Answered(s: State, fd: int, kind: byte, fields: seq<Text>, env: Env, t: State, answer: Answer) {
    Served(s, fd, kind, fields, env, t) && Replied(s, fd, kind, fields, env, t, answer)
  }

  ghost predicate SameSessions(s: State, t: State) { t.sessions == s.sessions && t.special == s.special }

  /** `fd` is logged in as `special_id`. */
  ghost predicate Operator(s: State, fd: int) { fd in s.sessions && s.sessions[fd] == s.special }

  /** The field does not begin with a number from -bound to bound - 1. */
  ghost predicate NoNumber(field: Text, bound: int) {
    forall n :: Denotes(field, n) ==> n < -bound || n >= bound
  }

  lemma NotANumber(field: Text)
    ensures Stoi(field).None? <==> NoNumber(field, 2147483648)
    ensures Stoll(field).None? <==> NoNumber(field, 9223372036854775808)
  {
    forall n ensures Stoi(field) == Some(n) <==> Denotes(field, n) && -2147483648 <= n <= 2147483647
             ensures Stoll(field) == Some(n) <==> Denotes(field, n) && -9223372036854775808 <= n <= 9223372036854775807
    {
      NumbersRead(field, n);
    }
    if Stoi(field).Some? {
      assert Denotes(field, Stoi(field).value);
    }
    if Stoll(field).Some? {
      assert Denotes(field, Stoll(field).value);
    }
  }

  // ---------- requests that change nothing ----------

  /** Without a session everything but registering and logging in is answered with the advice to log in. */
  lemma LoginFirstOtherwise(s: State, fd: int, kind: byte, fields: seq<Text>, env: Env, t: State, answer: Answer)
    requires Answered(s, fd, kind, fields, env, t, answer) && fd !in s.sessions
    requires kind in {2, 3, 5, 6, 7, 8, 9, 10, 11, 12}
    ensures answer == LoginFirst && t == s
  {
  }

  /** The five requests of the operator get no answer from anybody else. */
  lemma OperatorOnly(s: State, fd: int, kind: byte, fields: seq<Text>, env: Env, t: State, answer: Answer)
    requires Answered(s, fd, kind, fields, env, t, answer) && fd in s.sessions && s.sessions[fd] != s.special
    requires kind in {8, 9, 10, 11, 12}
    ensures answer == Silence && t == s
  {
  }

  /** Reading, and packages of unknown kind, change nothing. */
  lemma ReadsChangeNothing(s: State, fd: int, kind: byte, fields: seq<Text>, env: Env, t: State, answer: Answer)
    requires Answered(s, fd, kind, fields, env, t, answer)
    requires kind in {2, 3, 4, 5} || kind > 12
    ensures t == s && (kind == 4 || kind > 12 ==> answer == Silence)
  {
  }

  /** Too few fields, for a submission also too many, or a first field that is no number of the right size. */
  ghost predicate Misformed(kind: byte, fields: seq<Text>) {
    || (kind in {0, 1, 3, 5, 7, 8, 10} && |fields| < 1)
    || (kind in {11, 12} && |fields| < 2)
    || (kind == 9 && |fields| < 3)
    || (kind == 6 && |fields| != 3)
    || (kind in {5, 6, 9, 10, 11, 12} && NoNumber(fields[0], 2147483648))
    || (kind == 7 && NoNumber(fields[0], 9223372036854775808))
  }

  lemma MisformedRefused(s: State, fd: int, kind: byte, fields: seq<Text>, env: Env, t: State, answer: Answer)
    requires Answered(s, fd, kind, fields, env, t, answer)
    requires kind > 1 ==> fd in s.sessions
    requires kind in {8, 9, 10, 11, 12} ==> s.sessions[fd] == s.special
    ensures Misformed(kind, fields) <==> answer == Malformed
    ensures answer == Malformed ==> t == s
  {
    if fields != [] {
      NotANumber(fields[0]);
    }
  }

  // ---------- users ----------

  /** REGISTER_USER `#name`. */
  lemma RegisterRequest(s: State, fd: int, fields: seq<Text>, env: Env, t: State, answer: Answer)
    requires Valid(s.db) && |fields| >= 1 && Answered(s, fd, 0, fields, env, t, answer)
    ensures answer.Outcome? && SameSessions(s, t) && (!answer.ok ==> Unchanged(s.db, t.db))
    ensures answer.ok <==> Undisturbed(env, 3) && forall u :: u in s.db.users ==> u.username != fields[0]
    ensures answer.ok ==>
              && |t.db.users| == |s.db.users| + 1 && t.db.users[..|s.db.users|] == s.db.users
              && t.db.users[|s.db.users|].username == fields[0]
              && t.db.problems == s.db.problems && t.db.types == s.db.types && t.db.subs == s.db.subs
  {
    RegisterMeans(s.db, fields[0], env, t.db, answer.ok);
  }

  /** LOGIN `#name`: the number of the name is put down for the descriptor, and for Oscar also as the special one. */
  lemma LoginRequest(s: State, fd: int, fields: seq<Text>, env: Env, t: State, answer: Answer)
    requires Valid(s.db) && |fields| >= 1 && Answered(s, fd, 1, fields, env, t, answer)
    ensures t.db == s.db
    ensures Undisturbed(env, 3) ==>
              forall u :: u in s.db.users && u.username == fields[0] ==> answer == Welcome(u.id) && t.sessions == s.sessions[fd := u.id]
    ensures !Undisturbed(env, 3) || (forall u :: u in s.db.users ==> u.username != fields[0]) ==>
              answer == Outcome(false) && t.sessions == s.sessions
    ensures fields[0] != [79, 115, 99, 97, 114] ==> t.special == s.special
    ensures fields[0] == [79, 115, 99, 97, 114] ==> t.special == if answer.Welcome? then answer.id else -1
  {
    var id := IdOf(s.db.users, fields[0]);
    assert Finds(s.db.users, fields[0], id);
  }

  /** DELETE_USER `#name`, from the operator. */
  lemma DeleteUserRequest(s: State, fd: int, fields: seq<Text>, env: Env, t: State, answer: Answer) returns (i: nat)
    requires Valid(s.db) && Operator(s, fd) && |fields| >= 1 && Answered(s, fd, 8, fields, env, t, answer)
    ensures answer.Outcome? && SameSessions(s, t) && (!answer.ok ==> Unchanged(s.db, t.db))
    ensures answer.ok <==> Undisturbed(env, 3) && exists u :: u in s.db.users && u.username == fields[0]
    ensures answer.ok ==> UserGone(s.db, t.db, i, fields[0]) && forall u :: u in t.db.users ==> u.username != fields[0]
  {
    i := DeleteUserMeans(s.db, fields[0], env, t.db, answer.ok);
  }

  // ---------- the catalogue ----------

  /** INSERT_PROBLEM `#number#title#difficulty`. */
  lemma InsertProblemRequest(s: State, fd: int, fields: seq<Text>, id: int, env: Env, t: State, answer: Answer)
    requires Valid(s.db) && Operator(s, fd) && |fields| >= 3 && Stoi(fields[0]) == Some(id)
    requires Answered(s, fd, 9, fields, env, t, answer)
    ensures answer.Outcome? && SameSessions(s, t) && (!answer.ok ==> Unchanged(s.db, t.db))
    ensures answer.ok <==> Undisturbed(env, 3) && forall p :: p in s.db.problems ==> p.id != id && p.title != fields[1]
    ensures answer.ok ==>
              && |t.db.problems| == |s.db.problems| + 1 && t.db.problems[..|s.db.problems|] == s.db.problems
              && var p := t.db.problems[|s.db.problems|];
              && p.id == id && p.title == fields[1] && p.difficulty == fields[2]
              && t.db.users == s.db.users && t.db.types == s.db.types && t.db.subs == s.db.subs
  {
    InsertProblemMeans(s.db, id, fields[1], fields[2], env, t.db, answer.ok);
  }

  /** DELETE_PROBLEM `#number`. */
  lemma DeleteProblemRequest(s: State, fd: int, fields: seq<Text>, id: int, env: Env, t: State, answer: Answer) returns (i: nat)
    requires Valid(s.db) && Operator(s, fd) && |fields| >= 1 && Stoi(fields[0]) == Some(id)
    requires Answered(s, fd, 10, fields, env, t, answer)
    ensures answer.Outcome? && SameSessions(s, t) && (!answer.ok ==> Unchanged(s.db, t.db))
    ensures answer.ok <==> Undisturbed(env, 4) && exists p :: p in s.db.problems && p.id == id
    ensures answer.ok ==> ProblemGone(s.db, t.db, i, id)
  {
    i := DeleteProblemMeans(s.db, id, env, t.db, answer.ok);
  }

  /** INSERT_PROBLEM_TYPE `#number#unit`. */
  lemma InsertTypeRequest(s: State, fd: int, fields: seq<Text>, id: int, env: Env, t: State, answer: Answer)
    requires Valid(s.db) && Operator(s, fd) && |fields| >= 2 && Stoi(fields[0]) == Some(id)
    requires Answered(s, fd, 11, fields, env, t, answer)
    ensures answer.Outcome? && SameSessions(s, t) && (!answer.ok ==> Unchanged(s.db, t.db))
    ensures answer.ok <==> && Undisturbed(env, 4) && (exists p :: p in s.db.problems && p.id == id)
                           && forall r :: r in s.db.types ==> !(r.problemId == id && r.unit == fields[1])
    ensures answer.ok ==>
              && |t.db.types| == |s.db.types| + 1 && t.db.types[..|s.db.types|] == s.db.types
              && t.db.types[|s.db.types|].problemId == id && t.db.types[|s.db.types|].unit == fields[1]
              && t.db.users == s.db.users && t.db.problems == s.db.problems && t.db.subs == s.db.subs
  {
    InsertTypeMeans(s.db, id, fields[1], env, t.db, answer.ok);
  }

  /** DELETE_PROBLEM_TYPE `#number#unit`. */
  lemma DeleteTypeRequest(s: State, fd: int, fields: seq<Text>, id: int, env: Env, t: State, answer: Answer) returns (i: nat)
    requires Valid(s.db) && Operator(s, fd) && |fields| >= 2 && Stoi(fields[0]) == Some(id)
    requires Answered(s, fd, 12, fields, env, t, answer)
    ensures answer.Outcome? && SameSessions(s, t) && (!answer.ok ==> Unchanged(s.db, t.db))
    ensures answer.ok <==> Undisturbed(env, 4) && exists r :: r in s.db.types && r.problemId == id && r.unit == fields[1]
    ensures answer.ok ==>
              && i < |s.db.types| && s.db.types[i].problemId == id && s.db.types[i].unit == fields[1]
              && t.db.types == s.db.types[..i] + s.db.types[i + 1..]
              && t.db.users == s.db.users && t.db.problems == s.db.problems && t.db.subs == s.db.subs
  {
    i := DeleteTypeMeans(s.db, id, fields[1], env, t.db, answer.ok);
  }

  // ---------- submissions ----------

  /** The word for a solved submission: "1", or "true" in any mixture of cases. */
  ghost predicate MeansTrue(word: Text) {
    || word == [49]
    || (&& |word| == 4 && (word[0] == 116 || word[0] == 84) && (word[1] == 114 || word[1] == 82)
        && (word[2] == 117 || word[2] == 85) && (word[3] == 101 || word[3] == 69))
  }

  lemma {:induction false} Lowered(s: Text)
    ensures |Lower(s)| == |s|
    ensures forall i :: 0 <= i < |s| ==> Lower(s)[i] == if 65 <= s[i] <= 90 then s[i] + 32 else s[i]
  {
    if s != [] {
      Lowered(s[1..]);
    }
  }

  lemma WordRead(word: Text)
    ensures StringToBool(word) <==> MeansTrue(word)
  {
    var low := Lower(word);
    Lowered(word);
    assert low == [116, 114, 117, 101] <==> |low| == 4 && low[0] == 116 && low[1] == 114 && low[2] == 117 && low[3] == 101;
    assert low == [49] <==> |low| == 1 && low[0] == 49;
    assert word == [49] <==> |word| == 1 && word[0] == 49;
  }

  /** INSERT_SUBMITTED `#number#solved#time`: the submission is stored for the session's own user. */
  lemma SubmitRequest(s: State, fd: int, fields: seq<Text>, problem: int, env: Env, t: State, answer: Answer)
    requires Valid(s.db) && fd in s.sessions && |fields| == 3 && Stoi(fields[0]) == Some(problem)
    requires Answered(s, fd, 6, fields, env, t, answer)
    ensures answer.Outcome? && SameSessions(s, t) && (!answer.ok ==> Unchanged(s.db, t.db))
    ensures answer.ok <==> && Undisturbed(env, 4) && (exists u :: u in s.db.users && u.id == s.sessions[fd])
                           && exists p :: p in s.db.problems && p.id == problem
    ensures answer.ok ==> t.db.users == s.db.users && t.db.problems == s.db.problems && t.db.types == s.db.types
    ensures answer.ok ==>
              && |t.db.subs| == |s.db.subs| + 1 && t.db.subs[..|s.db.subs|] == s.db.subs
              && var x := t.db.subs[|s.db.subs|];
              && x.userId == s.sessions[fd] && x.problemId == problem && (x.status <==> MeansTrue(fields[1]))
              && x.timeSpent == fields[2] && x.date == env.today && (forall o :: o in s.db.subs ==> o.id < x.id)
              && (TimeSpent.ValidTime(fields[2]) ==> x.minutes == TimeSpent.Seconds(fields[2]) / 60)
  {
    WordRead(fields[1]);
    SubmitMeans(s.db, s.sessions[fd], problem, StringToBool(fields[1]), fields[2], env, t.db, answer.ok);
  }

  /** DELETE_SUBMITTED `#number`: only a submission of the session's own user goes. */
  lemma UnsubmitRequest(s: State, fd: int, fields: seq<Text>, sub: int, env: Env, t: State, answer: Answer) returns (i: nat)
    requires Valid(s.db) && fd in s.sessions && |fields| >= 1 && Stoll(fields[0]) == Some(sub)
    requires Answered(s, fd, 7, fields, env, t, answer)
    ensures answer.Outcome? && SameSessions(s, t) && (!answer.ok ==> Unchanged(s.db, t.db))
    ensures answer.ok <==> Undisturbed(env, 5) && exists x :: x in s.db.subs && x.id == sub && x.userId == s.sessions[fd]
    ensures answer.ok ==>
              && i < |s.db.subs| && s.db.subs[i].id == sub && s.db.subs[i].userId == s.sessions[fd]
              && t.db.subs == s.db.subs[..i] + s.db.subs[i + 1..]
              && t.db.users == s.db.users && t.db.problems == s.db.problems && t.db.types == s.db.types
  {
    i := UnsubmitMeans(s.db, sub, s.sessions[fd], env, t.db, answer.ok);
  }

  /** GET_PROBLEM_SUBMISSIONS `#number`: the session's own submissions to the problem, all of them if nothing fails. */
  lemma ListingRequest(s: State, fd: int, fields: seq<Text>, problem: int, env: Env, t: State, answer: Answer)
    requires Valid(s.db) && fd in s.sessions && |fields| >= 1 && Stoi(fields[0]) == Some(problem)
    requires Answered(s, fd, 5, fields, env, t, answer)
    ensures answer.SubmissionTable?
    ensures forall id :: id in answer.listing ==>
              var x := answer.listing[id];
              x.id == id && x in s.db.subs && x.userId == s.sessions[fd] && x.problemId == problem
    ensures env.connected && env.fault.None? ==>
              forall x :: x in s.db.subs && x.userId == s.sessions[fd] && x.problemId == problem ==>
                x.id in answer.listing && answer.listing[x.id] == x
  {
    ListingIsOwn(s.db, s.sessions[fd], problem, env);
  }

  // ---------- the end of a session ----------

  /** A disconnection ends that session and no other, and the special one only if it was its. */
  lemma Disconnected(s: State, fd: int)
    ensures var t := Erased(s, fd);
            && t.db == s.db && fd !in t.sessions
            && (forall other :: other != fd ==>
                  (other in t.sessions <==> other in s.sessions) && (other in s.sessions ==> t.sessions[other] == s.sessions[other]))
            && t.special == (if fd in s.sessions && s.sessions[fd] == s.special then -1 else s.special)
  {
  }

  ghost predicate Plain(field: Text) {
    field != [] && forall i :: 0 <= i < |field| ==> field[i] != 35
  }

  /** On the wire: what the console sends for a list of non-empty fields free of separators is answered as that list. */
  lemma FromTheWire(s: State, fd: int, kind: byte, fields: seq<Text>, env: Env, t: State, answer: Answer)
    requires forall f :: f in fields ==> Plain(f)
    ensures Answered(s, fd, kind, Fields.Split(Fields.Message(fields)), env, t, answer) <==> Answered(s, fd, kind, fields, env, t, answer)
  {
    Fields.MessageSplits(fields);
  }
}
