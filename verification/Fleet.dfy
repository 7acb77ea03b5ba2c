/**
  The server as it is deployed: several workers, each with a manager of its own, on one database that
  outlives them.
*/
module Fleet {
  import opened Bytes
  import opened Tables
  import opened Session
  import Fields
  import SessionSafety

  type Event = e: SessionSafety.Event | !e.Elsewhere? witness SessionSafety.Erase(0)

  datatype Manager = Manager(sessions: map<int, int>, special: int)

  datatype Server = Server(managers: seq<Manager>, db: Db)

  /** Event `e` happens at worker `w`. */
  datatype Move = Move(w: nat, e: Event)

  function At(s: Server, w: nat): State
    requires w < |s.managers|
  {
    State(s.managers[w].sessions, s.managers[w].special, s.db)
  }

  ghost predicate StepOk(s: Server, m: Move, t: Server) {
    && m.w < |s.managers| == |t.managers|
    && SessionSafety.StepOk(At(s, m.w), m.e, At(t, m.w))
    && forall w :: 0 <= w < |s.managers| && w != m.w ==> t.managers[w] == s.managers[w]
  }

  ghost predicate IsRun(servers: seq<Server>, moves: seq<Move>) {
    && |servers| == |moves| + 1
    && Valid(servers[0].db)
    && (forall w :: 0 <= w < |servers[0].managers| ==> servers[0].managers[w] == Manager(map[], -1))
    && forall k :: 0 <= k < |moves| ==> StepOk(servers[k], moves[k], servers[k + 1])
  }

  // ---------- what one worker sees of it ----------

  /** What worker `w` sees of a move at another worker: a call on the database, a failed one if it made none. */
  function Abroad(s: Server, m: Move): SessionSafety.Event
    requires m.w < |s.managers|
  {
    var c := if m.e.Request? then DbCall(At(s, m.w), m.e.fd, m.e.kind, Fields.Split(m.e.payload)) else None;
    if c.Some? then SessionSafety.Elsewhere(c.value, m.e.env)
    else SessionSafety.Elsewhere(Register([]), Env(false, None, 0))
  }

  lemma {:induction false} SameSize(servers: seq<Server>, moves: seq<Move>, k: nat)
    requires IsRun(servers, moves) && k <= |moves|
    ensures |servers[k].managers| == |servers[0].managers|
  {
    if k > 0 {
      SameSize(servers, moves, k - 1);
      assert StepOk(servers[k - 1], moves[k - 1], servers[k]);
    }
  }

  /** The run of the whole server is a run of each of its managers, with the others elsewhere. */
  lemma SeenByOne(servers: seq<Server>, moves: seq<Move>, w: nat) returns (states: seq<State>, events: seq<SessionSafety.Event>)
    requires IsRun(servers, moves) && w < |servers[0].managers|
    ensures SessionSafety.IsRun(states, events) && |events| == |moves|
    ensures forall k :: 0 <= k <= |moves| ==> |servers[k].managers| > w && states[k] == At(servers[k], w)
    ensures forall k :: 0 <= k < |moves| && moves[k].w == w ==> events[k] == moves[k].e
  {
    forall k | 0 <= k <= |moves| ensures |servers[k].managers| > w {
      SameSize(servers, moves, k);
    }
    forall k | 0 <= k < |moves| ensures moves[k].w < |servers[k].managers| {
      assert StepOk(servers[k], moves[k], servers[k + 1]);
    }
    states := seq(|servers|, k requires 0 <= k < |servers| && w < |servers[k].managers| => At(servers[k], w));
    events := seq(|moves|, k requires 0 <= k < |moves| < |servers| && moves[k].w < |servers[k].managers| =>
      if moves[k].w == w then moves[k].e else Abroad(servers[k], moves[k]));
    forall k | 0 <= k < |moves| ensures SessionSafety.StepOk(states[k], events[k], states[k + 1]) {
      assert StepOk(servers[k], moves[k], servers[k + 1]);
      SeenStep(servers[k], moves[k], servers[k + 1], w);
    }
  }

  lemma SeenStep(s: Server, m: Move, t: Server, w: nat)
    requires w < |s.managers| && StepOk(s, m, t)
    ensures SessionSafety.StepOk(At(s, w), if m.w == w then m.e else Abroad(s, m), At(t, w))
  {
    if m.w != w {
      var e := Abroad(s, m);
      if m.e.Request? && DbCall(At(s, m.w), m.e.fd, m.e.kind, Fields.Split(m.e.payload)).Some? {
        assert exists ok :: Transition(s.db, e.call, e.env, t.db, ok);
      } else {
        assert Transition(s.db, e.call, e.env, t.db, false);
      }
    }
  }

  // ---------- what holds of the whole server ----------

  /**
    Authorisation across all workers: if a move anywhere changed the catalogue of problems or types, or
    removed a user, it was a request on a descriptor whose session at that worker held the worker's
    special id, and that id is one issued to Oscar.
  */
  lemma OnlyOscarChangesCatalogue(servers: seq<Server>, moves: seq<Move>, k: nat)
    returns (states: seq<State>, events: seq<SessionSafety.Event>)
    requires IsRun(servers, moves) && k < |moves|
    requires var (a, b) := (servers[k].db, servers[k + 1].db);
             a.problems != b.problems || a.types != b.types || exists u :: u in a.users && u !in b.users
    ensures moves[k].w < |servers[k].managers|
    ensures var (m, e) := (servers[k].managers[moves[k].w], moves[k].e);
            e.Request? && e.fd in m.sessions && m.sessions[e.fd] == m.special != -1
    ensures SessionSafety.IsRun(states, events) && |events| == |moves| && states[k] == At(servers[k], moves[k].w)
    ensures SessionSafety.OscarSession(states, events, k, moves[k].e.fd)
  {
    assert StepOk(servers[k], moves[k], servers[k + 1]);
    SameSize(servers, moves, k);
    states, events := SeenByOne(servers, moves, moves[k].w);
    SessionSafety.OnlyOscarChangesCatalogue(states, events, k);
  }

  /** No two registrations, at whichever workers, are ever given the same number; no session holds -1. */
  lemma SessionsValid(servers: seq<Server>, moves: seq<Move>, k: nat, w: nat, fd: int)
    requires IsRun(servers, moves) && k < |moves| && w < |servers[k].managers|
    ensures Valid(servers[k].db)
    ensures fd in servers[k].managers[w].sessions ==> 1 <= servers[k].managers[w].sessions[fd] < servers[k].db.nextUser
  {
    SameSize(servers, moves, k);
    var states, events := SeenByOne(servers, moves, w);
    SessionSafety.RunKeepsInv(states, events, k);
  }
}
