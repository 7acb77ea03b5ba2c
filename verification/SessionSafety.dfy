/**
  What holds in every run of one manager's requests and disconnections, on any valid database, with
  its database calls failing at will and other managers changing the same tables in between.
*/
module SessionSafety {
  import opened Bytes
  import opened Tables
  import opened Statistics
  import opened Driver
  import opened Session
  import opened Folds
  import OverviewProof
  import DetailProof
  import Fields
  import StatisticsUpdates
  import StatisticsMeaning

  /** `Elsewhere` is a call that another worker's manager makes on the shared database. */
  datatype Event =
    | Request(fd: int, kind: byte, payload: Text, env: Env)
    | Erase(fd: int)
    | Elsewhere(call: Call, env: Env)

  ghost predicate StepOk(s: State, e: Event, t: State) {
    match e
    case Request(fd, kind, payload, env) => Served(s, fd, kind, Fields.Split(payload), env, t)
    case Erase(fd) => t == Erased(s, fd)
    case Elsewhere(c, env) => t == s.(db := t.db) && exists ok :: Transition(s.db, c, env, t.db, ok)
  }

  /**
    `states` are the successive states of a run from the start of a manager on whatever the database
    then holds, `events` what happened between them.
  */
  ghost predicate IsRun(states: seq<State>, events: seq<Event>) {
    && |states| == |events| + 1 && states[0] == Initial(states[0].db) && Valid(states[0].db)
    && forall k :: 0 <= k < |events| ==> StepOk(states[k], events[k], states[k + 1])
  }

  // ---------- who got which id ----------

  /** The registration that succeeded between two states, if the event was one. */
  function Registered(s: State, e: Event, t: State): Option<(int, Text)> {
    if e.Request? then
      var c := DbCall(s, e.fd, e.kind, Fields.Split(e.payload));
      if c.Some? && c.value.Register? && |t.db.users| > |s.db.users| then Some((s.db.nextUser, c.value.name)) else None
    else if e.Elsewhere? && e.call.Register? && |t.db.users| > |s.db.users| then Some((s.db.nextUser, e.call.name))
    else None
  }

  function NamesOf(users: seq<User>): map<int, Text> {
    if users == [] then map[]
    else
      var last := users[|users| - 1];
      NamesOf(users[..|users| - 1])[last.id := last.username]
  }

  lemma {:induction false} NamesOfFound(users: seq<User>)
    requires forall i, j :: 0 <= i < j < |users| ==> users[i].id < users[j].id
    ensures forall u :: u in users ==> u.id in NamesOf(users) && NamesOf(users)[u.id] == u.username
    ensures forall id :: id in NamesOf(users) ==> exists u :: u in users && u.id == id
  {
    if users != [] {
      var n := |users| - 1;
      assert users == users[..n] + [users[n]];
      NamesOfFound(users[..n]);
    }
  }

  /** The name each id was issued to: the names on record at the start, and those of the first `k` events. */
  function Issued(states: seq<State>, events: seq<Event>, k: nat): map<int, Text>
    requires |states| == |events| + 1 && k <= |events|
  {
    if k == 0 then NamesOf(states[0].db.users)
    else
      var before := Issued(states, events, k - 1);
      var r := Registered(states[k - 1], events[k - 1], states[k]);
      if r.Some? then before[r.value.0 := r.value.1] else before
  }

  ghost predicate Inv(s: State, issued: map<int, Text>) {
    && Valid(s.db)
    && (forall id :: id in issued ==> 1 <= id < s.db.nextUser)
    && (forall u :: u in s.db.users ==> u.id in issued && issued[u.id] == u.username)
    && (forall fd :: fd in s.sessions ==> s.sessions[fd] in issued)
    && (s.special != -1 ==> s.special in issued && issued[s.special] == OSCAR)
  }

  lemma LoginKeepsInv(s: State, issued: map<int, Text>, fd: int, name: Text, env: Env)
    requires Inv(s, issued)
    ensures Inv(LoggedIn(s, fd, name, env), issued)
  {
    assert Finds(s.db.users, name, IdOf(s.db.users, name));
  }

  /** What a call does to the users: one more with a fresh number, or none that was not there before. */
  lemma UsersAfter(db: Db, c: Call, env: Env, after: Db, ok: bool)
    requires Transition(db, c, env, after, ok)
    ensures after.nextUser >= db.nextUser
    ensures ok && c.Register? ==> after.nextUser > db.nextUser && after.users == db.users + [User(db.nextUser, c.name, env.today)]
    ensures !(ok && c.Register?) ==> forall u :: u in after.users ==> u in db.users
    ensures !ok ==> after.users == db.users
  {
    if ok && c.DeleteUser? {
      FilterMembers(db.users, NotNamed(c.name));
    }
  }

  lemma CallKeepsInv(s: State, issued: map<int, Text>, c: Call, env: Env, t: State, ok: bool)
    requires Inv(s, issued) && Transition(s.db, c, env, t.db, ok) && t.sessions == s.sessions && t.special == s.special
    ensures Inv(t, if ok && c.Register? then issued[s.db.nextUser := c.name] else issued)
    ensures c.Register? ==> (ok <==> |t.db.users| > |s.db.users|)
  {
    TransitionKeepsValid(s.db, c, env, t.db, ok);
    UsersAfter(s.db, c, env, t.db, ok);
    UsersKeepInv(s, issued, c.Register? && ok, if c.Register? then c.name else [], env.today, t);
  }

  lemma UsersKeepInv(s: State, issued: map<int, Text>, more: bool, name: Text, today: int, t: State)
    requires Inv(s, issued) && Valid(t.db) && t.sessions == s.sessions && t.special == s.special
    requires if more then t.db.nextUser > s.db.nextUser && t.db.users == s.db.users + [User(s.db.nextUser, name, today)]
             else t.db.nextUser >= s.db.nextUser && forall u :: u in t.db.users ==> u in s.db.users
    ensures Inv(t, if more then issued[s.db.nextUser := name] else issued)
  {
  }

  lemma StepKeepsInv(s: State, issued: map<int, Text>, e: Event, t: State)
    requires Inv(s, issued) && StepOk(s, e, t)
    ensures var r := Registered(s, e, t);
            Inv(t, if r.Some? then issued[r.value.0 := r.value.1] else issued)
  {
    if e.Request? {
      var fields := Fields.Split(e.payload);
      if e.kind == LOGIN {
        assert DbCall(s, e.fd, e.kind, fields).None?;
        if fields != [] {
          LoginKeepsInv(s, issued, e.fd, fields[0], e.env);
        }
      } else {
        var c := DbCall(s, e.fd, e.kind, fields);
        if c.Some? {
          var ok :| Transition(s.db, c.value, e.env, t.db, ok);
          CallKeepsInv(s, issued, c.value, e.env, t, ok);
        }
      }
    } else if e.Elsewhere? {
      var ok :| Transition(s.db, e.call, e.env, t.db, ok);
      CallKeepsInv(s, issued, e.call, e.env, t, ok);
    }
  }

  lemma {:induction false} RunKeepsInv(states: seq<State>, events: seq<Event>, k: nat)
    requires IsRun(states, events) && k <= |events|
    ensures Inv(states[k], Issued(states, events, k))
  {
    if k == 0 {
      NamesOfFound(states[0].db.users);
    } else {
      RunKeepsInv(states, events, k - 1);
      StepKeepsInv(states[k - 1], Issued(states, events, k - 1), events[k - 1], states[k]);
    }
  }

  /** In every run no stored user id is -1, and no id is ever issued to two names. */
  lemma NoInvalidSession(states: seq<State>, events: seq<Event>, k: nat, fd: int)
    requires IsRun(states, events) && k < |events|
    ensures fd in states[k].sessions ==> states[k].sessions[fd] != -1
    ensures Registered(states[k], events[k], states[k + 1]).Some? ==>
              Registered(states[k], events[k], states[k + 1]).value.0 !in Issued(states, events, k)
  {
    RunKeepsInv(states, events, k);
  }

  /** The descriptor holds an id that was issued to a registration under the name Oscar. */
  ghost predicate OscarSession(states: seq<State>, events: seq<Event>, k: nat, fd: int)
    requires |states| == |events| + 1 && k <= |events|
  {
    var issued := Issued(states, events, k);
    fd in states[k].sessions && states[k].sessions[fd] in issued && issued[states[k].sessions[fd]] == OSCAR
  }

  lemma PrivilegedIsOscar(states: seq<State>, events: seq<Event>, k: nat, fd: int)
    requires IsRun(states, events) && k <= |events| && Privileged(states[k], fd)
    ensures OscarSession(states, events, k, fd)
  {
    RunKeepsInv(states, events, k);
  }

  /**
    Authorisation over whole runs: if serving a request changed the catalogue of problems or types, or
    removed a user, then the descriptor was logged in under an id issued to Oscar, and that id was the
    current special one. This survives users being deleted and registered again.
  */
  lemma OnlyOscarChangesCatalogue(states: seq<State>, events: seq<Event>, k: nat)
    requires IsRun(states, events) && k < |events| && !events[k].Elsewhere?
    requires var (a, b) := (states[k].db, states[k + 1].db);
             a.problems != b.problems || a.types != b.types || exists u :: u in a.users && u !in b.users
    ensures events[k].Request? && OscarSession(states, events, k, events[k].fd)
    ensures states[k].special != -1 && states[k].sessions[events[k].fd] == states[k].special
  {
    var s, e, t := states[k], events[k], states[k + 1];
    assert StepOk(s, e, t);
    RunKeepsInv(states, events, k);
    assert e.Request? && e.kind != LOGIN;
    var c := DbCall(s, e.fd, e.kind, Fields.Split(e.payload));
    var ok :| Transition(s.db, c.value, e.env, t.db, ok);
    assert ok && !c.value.Register? && !c.value.Submit? && !c.value.Unsubmit?;
    assert Privileged(s, e.fd);
    PrivilegedIsOscar(states, events, k, e.fd);
  }

  /**
    Isolation over whole runs: a request from a descriptor without Oscar's privileges leaves both query
    results of every user but its own exactly as they were.
  */
  lemma OthersResultsUntouched(states: seq<State>, events: seq<Event>, k: nat, v: int, t: Text, rows: seq<UnitAgg>, details: seq<DetailAgg>)
    requires IsRun(states, events) && k < |events|
    requires events[k].Request? && !Privileged(states[k], events[k].fd)
    requires events[k].fd in states[k].sessions ==> states[k].sessions[events[k].fd] != v
    ensures Overview(states[k].db, v, rows) <==> Overview(states[k + 1].db, v, rows)
    ensures Detail(states[k].db, v, t, details) <==> Detail(states[k + 1].db, v, t, details)
  {
    var s, e, next := states[k], events[k], states[k + 1];
    assert StepOk(s, e, next);
    RunKeepsInv(states, events, k);
    var c := DbCall(s, e.fd, e.kind, Fields.Split(e.payload));
    if e.kind != LOGIN && c.Some? {
      var ok :| Transition(s.db, c.value, e.env, next.db, ok);
      assert !StatisticsUpdates.Concerns(s.db, c.value, v);
      StatisticsUpdates.OthersUnchanged(s.db, c.value, e.env, next.db, ok, v, t, rows, details);
    } else {
      assert next.db == s.db;
    }
  }

  // ---------- the history of `special_id` ----------

  ghost predicate OscarLogin(e: Event) {
    e.Request? && e.kind == LOGIN && Fields.Split(e.payload) != [] && Fields.Split(e.payload)[0] == OSCAR
  }

  /** A disconnection of a session that held `id`. */
  ghost predicate Ends(s: State, e: Event, id: int) {
    e.Erase? && e.fd in s.sessions && s.sessions[e.fd] == id
  }

  /** Event `j` was a login as Oscar that found `id`, and nothing before `k` has replaced or ended it. */
  ghost predicate Stands(states: seq<State>, events: seq<Event>, j: nat, k: nat, id: int)
    requires |states| == |events| + 1 && j < k <= |events|
  {
    && OscarLogin(events[j]) && Lookup(states[j].db, OSCAR, events[j].env) == id
    && forall m :: j < m < k ==> !OscarLogin(events[m]) && !Ends(states[m], events[m], id)
  }

  lemma SpecialStep(s: State, e: Event, t: State)
    requires StepOk(s, e, t)
    ensures t.special == if OscarLogin(e) then Lookup(s.db, OSCAR, e.env) else if Ends(s, e, s.special) then -1 else s.special
  {
  }

  lemma StandsOn(states: seq<State>, events: seq<Event>, j: nat, n: nat, id: int)
    requires |states| == |events| + 1 && j < n < |events|
    ensures Stands(states, events, j, n + 1, id) <==>
              Stands(states, events, j, n, id) && !OscarLogin(events[n]) && !Ends(states[n], events[n], id)
  {
  }

  /**
    `special_id` holds an id exactly when the latest login as Oscar found that id and no session
    holding it has been disconnected since.
  */
  lemma {:induction false} SpecialHistory(states: seq<State>, events: seq<Event>, k: nat, id: int)
    requires IsRun(states, events) && k <= |events| && id != -1
    ensures states[k].special == id <==> exists j :: 0 <= j < k && Stands(states, events, j, k, id)
  {
    if k > 0 {
      SpecialHistory(states, events, k - 1, id);
      SpecialNext(states, events, k - 1, k, id);
    }
  }

  lemma SpecialNext(states: seq<State>, events: seq<Event>, n: nat, k: nat, id: int)
    requires IsRun(states, events) && n + 1 == k <= |events| && id != -1
    requires states[n].special == id <==> exists j :: 0 <= j < n && Stands(states, events, j, n, id)
    ensures states[k].special == id <==> exists j :: 0 <= j < k && Stands(states, events, j, k, id)
  {
    assert StepOk(states[n], events[n], states[k]);
    SpecialStep(states[n], events[n], states[k]);
    forall j | 0 <= j < n
      ensures Stands(states, events, j, k, id) <==>
                Stands(states, events, j, n, id) && !OscarLogin(events[n]) && !Ends(states[n], events[n], id)
    {
      StandsOn(states, events, j, n, id);
    }
    assert Stands(states, events, n, k, id) <==> OscarLogin(events[n]) && Lookup(states[n].db, OSCAR, events[n].env) == id;
  }

  /**
    A descriptor has the privilege exactly when it is logged in under the id that the latest login as
    Oscar found, on whichever descriptor, and no session holding that id has been disconnected since.
  */
  lemma PrivilegedIff(states: seq<State>, events: seq<Event>, k: nat, fd: int)
    requires IsRun(states, events) && k <= |events|
    ensures Privileged(states[k], fd) <==>
            && fd in states[k].sessions
            && exists j :: 0 <= j < k && Stands(states, events, j, k, states[k].sessions[fd])
  {
    RunKeepsInv(states, events, k);
    if fd in states[k].sessions {
      SpecialHistory(states, events, k, states[k].sessions[fd]);
    }
  }

  // ---------- the history of a session ----------

  /** A login on `fd` that found `id`, under whatever name. */
  ghost predicate LogsIn(s: State, e: Event, fd: int, id: int) {
    && e.Request? && e.kind == LOGIN && e.fd == fd && Fields.Split(e.payload) != []
    && id != -1 && Lookup(s.db, Fields.Split(e.payload)[0], e.env) == id
  }

  /** A later login on `fd` that finds somebody, or the disconnection of `fd`. */
  ghost predicate Displaces(s: State, e: Event, fd: int) {
    (exists id :: LogsIn(s, e, fd, id)) || e == Erase(fd)
  }

  /** Event `j` logged `fd` in under `id`, and nothing before `k` has displaced that. */
  ghost predicate Lasts(states: seq<State>, events: seq<Event>, j: nat, k: nat, fd: int, id: int)
    requires |states| == |events| + 1 && j < k <= |events|
  {
    && LogsIn(states[j], events[j], fd, id)
    && forall m :: j < m < k ==> !Displaces(states[m], events[m], fd)
  }

  ghost predicate InSession(s: State, fd: int, id: int) { fd in s.sessions && s.sessions[fd] == id }

  lemma SessionStep(s: State, e: Event, t: State, fd: int, id: int)
    requires StepOk(s, e, t)
    ensures InSession(t, fd, id) <==> LogsIn(s, e, fd, id) || (InSession(s, fd, id) && !Displaces(s, e, fd))
  {
    if e.Request? && e.kind == LOGIN && e.fd == fd && Fields.Split(e.payload) != [] {
      var found := Lookup(s.db, Fields.Split(e.payload)[0], e.env);
      assert found != -1 ==> LogsIn(s, e, fd, found);
    }
  }

  lemma LastsOn(states: seq<State>, events: seq<Event>, j: nat, n: nat, k: nat, fd: int, id: int)
    requires |states| == |events| + 1 && j < n && n + 1 == k <= |events|
    ensures Lasts(states, events, j, k, fd, id) <==>
              Lasts(states, events, j, n, fd, id) && !Displaces(states[n], events[n], fd)
  {
  }

  /**
    A descriptor is logged in under an id exactly when some login on it found that id, no later login
    on it found anybody, and it has not been disconnected since.
  */
  lemma {:induction false} SessionHistory(states: seq<State>, events: seq<Event>, k: nat, fd: int, id: int)
    requires IsRun(states, events) && k <= |events|
    ensures fd in states[k].sessions && states[k].sessions[fd] == id <==>
              exists j :: 0 <= j < k && Lasts(states, events, j, k, fd, id)
  {
    if k > 0 {
      SessionHistory(states, events, k - 1, fd, id);
      SessionNext(states, events, k - 1, k, fd, id);
    }
  }

  lemma SessionNext(states: seq<State>, events: seq<Event>, n: nat, k: nat, fd: int, id: int)
    requires IsRun(states, events) && n + 1 == k <= |events|
    requires InSession(states[n], fd, id) <==> exists j :: 0 <= j < n && Lasts(states, events, j, n, fd, id)
    ensures InSession(states[k], fd, id) <==> exists j :: 0 <= j < k && Lasts(states, events, j, k, fd, id)
  {
    assert StepOk(states[n], events[n], states[k]);
    SessionStep(states[n], events[n], states[k], fd, id);
    forall j | 0 <= j < n
      ensures Lasts(states, events, j, k, fd, id) <==>
                Lasts(states, events, j, n, fd, id) && !Displaces(states[n], events[n], fd)
    {
      LastsOn(states, events, j, n, k, fd, id);
    }
    assert Lasts(states, events, n, k, fd, id) <==> LogsIn(states[n], events[n], fd, id);
  }

  /**
    A client that is welcomed as `id` is logged in as `id`, which is the number of a user of the name it
    gave; and with an undisturbed database it is welcomed exactly when there is such a user.
  */
  lemma WelcomedIsLoggedIn(s: State, fd: int, fields: seq<Text>, env: Env, t: State, answer: Answer)
    requires Valid(s.db) && fields != []
    requires Served(s, fd, LOGIN, fields, env, t) && Replied(s, fd, LOGIN, fields, env, t, answer)
    ensures answer.Welcome? ==> InSession(t, fd, answer.id)
    ensures answer.Welcome? ==> exists u :: u in s.db.users && u.username == fields[0] && u.id == answer.id
    ensures !answer.Welcome? ==> answer == Outcome(false) && t.sessions == s.sessions
    ensures env.connected && env.fault.None? ==>
              (answer.Welcome? <==> exists u :: u in s.db.users && u.username == fields[0])
  {
    assert Finds(s.db.users, fields[0], IdOf(s.db.users, fields[0]));
  }

  /** Any run goes on with a login of Oscar on `fd`, if somebody of that name is registered. */
  lemma LoginOnce(states: seq<State>, events: seq<Event>, fd: int, env: Env) returns (more: seq<State>, e: Event)
    requires IsRun(states, events) && env.connected && env.fault.None?
    requires HasName(states[|events|].db, OSCAR)
    ensures OscarLogin(e) && e.fd == fd && IsRun(more, events + [e])
    ensures var (s, t) := (states[|events|], more[|events| + 1]);
            var id := IdOf(s.db.users, OSCAR);
            id != -1 && t == s.(special := id, sessions := s.sessions[fd := id])
  {
    var s := states[|events|];
    e := Request(fd, LOGIN, OSCAR, env);
    RunKeepsInv(states, events, |events|);
    Fields.SplitSeparatorFree(OSCAR);
    more := RunOn(states, events, e, LoggedIn(s, fd, OSCAR, env));
  }

  lemma RunOn(states: seq<State>, events: seq<Event>, e: Event, t: State) returns (more: seq<State>)
    requires IsRun(states, events) && StepOk(states[|events|], e, t)
    ensures IsRun(more, events + [e]) && more == states + [t]
  {
    more := states + [t];
    forall k | 0 <= k < |events + [e]| ensures StepOk(more[k], (events + [e])[k], more[k + 1]) {
      if k < |events| {
        assert StepOk(states[k], events[k], states[k + 1]);
      }
    }
  }

  /**
    Being logged in as Oscar is not enough: every run goes on so that two descriptors of one's choice
    are logged in as Oscar with the privilege, and the disconnection of one takes it from the other,
    which stays logged in.
  */
  lemma SecondOscarLosesPrivilege(states: seq<State>, events: seq<Event>, a: int, b: int, env: Env)
    returns (more: seq<State>, later: seq<Event>)
    requires IsRun(states, events) && a != b && env.connected && env.fault.None?
    requires HasName(states[|events|].db, OSCAR)
    ensures IsRun(more, events + later) && |later| == 3 && later[2] == Erase(a)
    ensures var (both, left) := (more[|events| + 2], more[|events| + 3]);
            && Privileged(both, a) && Privileged(both, b)
            && b in left.sessions && left.sessions[b] == both.sessions[b] && !Privileged(left, b)
  {
    var one, e := LoginOnce(states, events, a, env);
    var two, f := LoginOnce(one, events + [e], b, env);
    var left := Erased(two[|events| + 2], a);
    more := RunOn(two, events + [e] + [f], Erase(a), left);
    later := [e, f, Erase(a)];
    assert events + later == events + [e] + [f] + [Erase(a)];
  }

  // ---------- what the tables in a reply show ----------

  function OverviewRow(u: Units): UnitAgg { u.row }

  function DetailRow(u: UnitStat): DetailAgg { u.row }

  lemma {:induction false} RowsOfRated(res: seq<UnitAgg>)
    ensures Map(Map(res, Rated), OverviewRow) == res
  {
    if res != [] {
      RowsOfRated(res[1..]);
    }
  }

  lemma {:induction false} RowsOfWorded(res: seq<DetailAgg>)
    ensures Map(Map(res, Worded), DetailRow) == res
  {
    if res != [] {
      RowsOfWorded(res[1..]);
    }
  }

  /** The three rates of a row are what its counts make of its total. */
  ghost predicate Percentages(u: Units) {
    && u.row.total > 0
    && u.rate20 * u.row.total as real == 100.0 * u.row.solved20 as real
    && u.rate30 * u.row.total as real == 100.0 * u.row.solved30 as real
    && u.rateOver30 * u.row.total as real == 100.0 * u.row.over30 as real
  }

  /** The row shows when and how the user's last submission to the problem went, and says in words whether it solved it. */
  ghost predicate ShowsLast(db: Db, user: int, u: UnitStat) {
    exists last ::
      && StatisticsMeaning.IsLast(db, user, u.row.examNo, last)
      && (u.state == Solved <==> last.status)
      && u.row.lastDate == last.date && u.row.lastTime == last.timeSpent
  }

  ghost predicate WordOfNewest(db: Db, user: int, u: UnitStat) {
    var last := Newest(db.subs, user, u.row.examNo);
    last.Some? && (u.state == Solved <==> last.value.status)
  }

  lemma RateHolds(db: Db, user: int, res: seq<UnitAgg>, r: UnitAgg)
    requires Valid(db) && Overview(db, user, res) && r in res
    ensures Percentages(Rated(r))
  {
    RatesAddUp(db, user, res, r);
  }

  lemma WordHolds(db: Db, user: int, unit: Text, res: seq<DetailAgg>, r: DetailAgg)
    requires Valid(db) && Detail(db, user, unit, res) && r in res
    ensures WordOfNewest(db, user, Worded(r)) && ShowsLast(db, user, Worded(r))
  {
    DetailProof.ResultMeetsSpec(db, user, unit, res);
    assert DetailProof.Listed(db, user, unit, r);
    var last := StatisticsMeaning.LastIs(db, user, r.examNo);
  }

  lemma WordsHold(db: Db, user: int, unit: Text, res: seq<DetailAgg>)
    requires Valid(db) && Detail(db, user, unit, res)
    ensures forall u :: u in Map(res, Worded) ==> WordOfNewest(db, user, u) && ShowsLast(db, user, u)
  {
    forall u | u in Map(res, Worded) ensures WordOfNewest(db, user, u) && ShowsLast(db, user, u) {
      MapMember(res, Worded, u);
      var r :| r in res && Worded(r) == u;
      WordHolds(db, user, unit, res, r);
    }
  }

  lemma RatesHold(db: Db, user: int, res: seq<UnitAgg>)
    requires Valid(db) && Overview(db, user, res)
    ensures forall u :: u in Map(res, Rated) ==> Percentages(u)
  {
    forall u | u in Map(res, Rated) ensures Percentages(u) {
      MapMember(res, Rated, u);
      var r :| r in res && Rated(r) == u;
      RateHolds(db, user, res, r);
    }
  }

  lemma CompleteUnits(db: Db, user: int, env: Env, stats: seq<Units>)
    requires Valid(db) && user != -1 && env.connected && env.fault.None? && UnitsAnswer(db, user, env, stats)
    ensures OverviewProof.OverviewSpec(db, user, Map(stats, OverviewRow))
    ensures forall u :: u in stats ==> Percentages(u)
  {
    var res :| Overview(db, user, res) && stats == UnitsReply(user, env, res);
    assert Map(res, Rated)[..|res|] == Map(res, Rated);
    RowsOfRated(res);
    OverviewProof.ResultMeetsSpec(db, user, res);
    RatesHold(db, user, res);
  }

  lemma CompleteDetail(db: Db, user: int, unit: Text, env: Env, stats: seq<UnitStat>)
    requires Valid(db) && user != -1 && env.connected && env.fault.None? && DetailAnswer(db, user, unit, env, stats)
    ensures DetailProof.DetailSpec(db, user, unit, Map(stats, DetailRow))
    ensures forall u :: u in stats ==> WordOfNewest(db, user, u) && ShowsLast(db, user, u)
  {
    var res :| Detail(db, user, unit, res) && stats == DetailReply(user, env, res);
    assert Map(res, Worded)[..|res|] == Map(res, Worded);
    RowsOfWorded(res);
    DetailProof.ResultMeetsSpec(db, user, unit, res);
    WordsHold(db, user, unit, res);
  }

  /**
    In every run, a complete answer to an overview request shows the session's own user: one row of
    direct counts for each unit in which that user has a submission, no other row, and in each the
    percentages of its counts.
  */
  lemma UnitsTableIsOwn(states: seq<State>, events: seq<Event>, k: nat, answer: Answer)
    requires IsRun(states, events) && k < |events|
    requires var e := events[k];
             && e.Request? && e.kind == SELECT_UNITS_DATA && e.fd in states[k].sessions
             && e.env.connected && e.env.fault.None?
             && Replied(states[k], e.fd, e.kind, Fields.Split(e.payload), e.env, states[k + 1], answer)
    ensures answer.UnitsTable?
    ensures OverviewProof.OverviewSpec(states[k].db, states[k].sessions[events[k].fd], Map(answer.units, OverviewRow))
    ensures forall u :: u in answer.units ==> Percentages(u)
  {
    RunKeepsInv(states, events, k);
    CompleteUnits(states[k].db, states[k].sessions[events[k].fd], events[k].env, answer.units);
  }

  /**
    The same for a detail request: the session's own user, the unit that was asked for, and in each row
    the word for the state of the newest submission, with its date and time.
  */
  lemma DetailTableIsOwn(states: seq<State>, events: seq<Event>, k: nat, answer: Answer)
    requires IsRun(states, events) && k < |events|
    requires var e := events[k];
             && e.Request? && e.kind == SELECT_UNIT_DETAIL && e.fd in states[k].sessions
             && Fields.Split(e.payload) != [] && e.env.connected && e.env.fault.None?
             && Replied(states[k], e.fd, e.kind, Fields.Split(e.payload), e.env, states[k + 1], answer)
    ensures answer.DetailTable?
    ensures var (db, user) := (states[k].db, states[k].sessions[events[k].fd]);
            && DetailProof.DetailSpec(db, user, Fields.Split(events[k].payload)[0], Map(answer.details, DetailRow))
            && forall u :: u in answer.details ==> WordOfNewest(db, user, u) && ShowsLast(db, user, u)
  {
    RunKeepsInv(states, events, k);
    CompleteDetail(states[k].db, states[k].sessions[events[k].fd], Fields.Split(events[k].payload)[0], events[k].env, answer.details);
  }
}
