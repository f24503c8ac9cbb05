/**
 One utterance at a time: the lock around Siri sessions, taken by a starter and
 handed back by the watcher of the session it started.
 */
module SiriMutex {
  import opened Bytes
  import opened Dicts

  type Task = int
  type Id = int
  type Conn = int

  /**
   A session: the data stream it runs over, the stream identifier it was given, whether it
   is done, and whether its watcher still waits.
   */
  datatype Session = Session(conn: Conn, stream: Option<int>, closed: bool, watched: bool)

  /**
   `inside` is the starter between taking the lock and leaving `start_siri`; `releases` is
   the history of watchers that handed the lock back.
   */
  datatype State = State(
    locked: bool, inside: Option<Task>, active: Option<Id>,
    sessions: map<Id, Session>, streams: map<int, Id>, releases: seq<Id>)

  function Init(): State {
    State(false, None, None, map[], map[], [])
  }

  datatype Step =
    | Acquire(task: Task)
    | Fail(task: Task)                      // no target, not active, no stream, Siri disabled, ...
    | Begin(task: Task, id: Id, conn: Conn)
    | Opened(id: Id, stream: int)           // _siri_session_opened
    | End(id: Id)                           // acknowledged, cancelled, timed out or failed
    | PeerClose(conn: Conn, stream: int)    // dataSend/close from a data stream
    | ConnLost(conn: Conn)                  // _hds_connection_closed
    | Watch(id: Id)                         // the watcher wakes

  predicate Enabled(s: State, step: Step) {
    match step
    case Acquire(task) => !s.locked
    case Fail(task) => s.inside == Some(task)
    case Begin(task, id, conn) => s.inside == Some(task) && id !in s.sessions
    case Opened(id, stream) => id in s.sessions && s.sessions[id].stream.None?
    case End(id) => id in s.sessions
    case PeerClose(conn, stream) => true
    case ConnLost(conn) => true
    case Watch(id) => id in s.sessions && s.sessions[id].watched && s.sessions[id].closed
  }

  /** `_mark_done`. */
  function Done(s: State, id: Id): State
    requires id in s.sessions
  {
    s.(sessions := s.sessions[id := s.sessions[id].(closed := true)])
  }

  /** Registering a stream; one that another session has makes the opener fail. */
  function Register(s: State, id: Id, stream: int): State
    requires id in s.sessions
  {
    var s1 := s.(sessions := s.sessions[id := s.sessions[id].(stream := Some(stream))]);
    if stream in s.streams && s.streams[stream] != id then Done(s1, id)
    else s1.(streams := s.streams[stream := id])
  }

  /** The active session of a lost connection ends first. */
  function LoseActive(s: State, conn: Conn): State {
    if s.active.Some? && s.active.value in s.sessions && s.sessions[s.active.value].conn == conn
    then Done(s, s.active.value)
    else s
  }

  /** One turn of the loop over the known streams and the sessions they belong to. */
  function LoseStream(s: State, item: (int, Id), conn: Conn): State {
    if item.1 !in s.sessions || s.sessions[item.1].conn != conn then s
    else Done(s, item.1).(streams := s.streams - {item.0})
  }

  function LoseEach(s: State, items: seq<(int, Id)>, conn: Conn): State
    decreases |items|
  {
    if items == [] then s else LoseEach(LoseStream(s, items[0], conn), items[1..], conn)
  }

  /** `list(streams.items())`, for the given keys. */
  function Items(streams: map<int, Id>, ks: seq<int>): (items: seq<(int, Id)>)
    requires AllIn(streams, ks)
    ensures |items| == |ks| && forall i | 0 <= i < |ks| :: items[i] == (ks[i], streams[ks[i]])
  {
    if ks == [] then [] else [(ks[0], streams[ks[0]])] + Items(streams, ks[1..])
  }

  function AllItems(streams: map<int, Id>): seq<(int, Id)> {
    AscendingSorted(streams.Keys);
    Items(streams, Ascending(streams.Keys))
  }

  /** `_hds_connection_closed`. */
  function LoseConn(s: State, conn: Conn): State {
    LoseEach(LoseActive(s, conn), AllItems(s.streams), conn)
  }

  /** The `finally` of the watcher. */
  function Release(s: State, id: Id): State
    requires id in s.sessions
  {
    var session := s.sessions[id];
    var streams := if session.stream.Some? && session.stream.value in s.streams && s.streams[session.stream.value] == id
                   then s.streams - {session.stream.value} else s.streams;
    var s1 := s.(sessions := s.sessions[id := session.(watched := false)], streams := streams);
    if s.active != Some(id) then s1
    else s1.(active := None, locked := false, releases := if s.locked then s.releases + [id] else s.releases)
  }

  function Apply(s: State, step: Step): State
    requires Enabled(s, step)
  {
    match step
    case Acquire(task) => s.(locked := true, inside := Some(task))
    case Fail(task) => s.(locked := false, inside := None)
    case Begin(task, id, conn) =>
      s.(inside := None, active := Some(id), sessions := s.sessions[id := Session(conn, None, false, true)])
    case Opened(id, stream) => Register(s, id, stream)
    case End(id) => Done(s, id)
    case PeerClose(conn, stream) =>
      if stream in s.streams && s.streams[stream] in s.sessions && s.sessions[s.streams[stream]].conn == conn
      then Done(s, s.streams[stream]) else s
    case ConnLost(conn) => LoseConn(s, conn)
    case Watch(id) => Release(s, id)
  }

  // ---------------------------------------------------------------- every step

  /** Held by exactly one: a starter in its critical section or an active session. */
  predicate LockIsHeldByOne(s: State) {
    && (s.locked <==> s.inside.Some? || s.active.Some?)
    && !(s.inside.Some? && s.active.Some?)
  }

  predicate WatchedIsActive(s: State) {
    && (s.active.Some? ==> s.active.value in s.sessions)
    && (forall id | id in s.sessions :: s.sessions[id].watched <==> s.active == Some(id))
    && (forall id | id in s.sessions :: !s.sessions[id].closed ==> s.sessions[id].watched)
  }

  predicate ReleasedOnce(s: State) {
    && (forall i | 0 <= i < |s.releases| :: s.releases[i] in s.sessions && !s.sessions[s.releases[i]].watched)
    && (forall i, j | 0 <= i < j < |s.releases| :: s.releases[i] != s.releases[j])
    && (forall id | id in s.sessions && !s.sessions[id].watched :: id in s.releases)
  }

  /** Each registered stream is the one its session was given. */
  predicate StreamsKnown(s: State) {
    forall k | k in s.streams :: s.streams[k] in s.sessions && s.sessions[s.streams[k]].stream == Some(k)
  }

  predicate Inv(s: State) {
    LockIsHeldByOne(s) && WatchedIsActive(s) && ReleasedOnce(s) && StreamsKnown(s)
  }

  /** What a lost connection can do to one session: nothing, or end it if it runs over it. */
  predicate LostAt(s: State, t: State, conn: Conn, id: Id) {
    if id in s.sessions then
      && id in t.sessions
      && (|| t.sessions[id] == s.sessions[id]
          || (s.sessions[id].conn == conn && t.sessions[id] == s.sessions[id].(closed := true)))
    else id !in t.sessions
  }

  /** And to one stream: forget it. */
  predicate ForgottenAt(s: State, t: State, k: int) {
    k in t.streams ==> k in s.streams && t.streams[k] == s.streams[k]
  }

  lemma {:induction false} LoseEachAt(s: State, items: seq<(int, Id)>, conn: Conn, id: Id, k: int)
    ensures var t := LoseEach(s, items, conn);
            && t.locked == s.locked && t.inside == s.inside && t.active == s.active && t.releases == s.releases
            && LostAt(s, t, conn, id) && ForgottenAt(s, t, k)
            && ((k, id) in items && id in s.sessions && s.sessions[id].conn == conn ==> k !in t.streams)
    decreases |items|
  {
    if items == [] {
    } else {
      LoseEachAt(LoseStream(s, items[0], conn), items[1..], conn, id, k);
      assert items == [items[0]] + items[1..];
    }
  }

  /** The snapshot of the streams holds each of them, and nothing else. */
  lemma {:induction false} AllItemsHave(streams: map<int, Id>, k: int)
    ensures k in streams ==> (k, streams[k]) in AllItems(streams)
    ensures var items := AllItems(streams);
            forall i | 0 <= i < |items| :: items[i].0 in streams && items[i].1 == streams[items[i].0]
  {
    AscendingSorted(streams.Keys);
    var ks := Ascending(streams.Keys);
    if k in streams {
      var i :| 0 <= i < |ks| && ks[i] == k;
      assert AllItems(streams)[i] == (k, streams[k]);
    }
  }

  predicate Held(streams: map<int, Id>, sessions: map<Id, Session>) {
    forall k | k in streams :: streams[k] in sessions
  }

  lemma {:induction false} ItemsAreHeld(streams: map<int, Id>, sessions: map<Id, Session>)
    requires Held(streams, sessions)
    ensures forall i | 0 <= i < |AllItems(streams)| :: AllItems(streams)[i].1 in sessions
  {
    AllItemsHave(streams, 0);
    var items := AllItems(streams);
    forall i | 0 <= i < |items| ensures items[i].1 in sessions {
      var (k, id) := items[i];
      assert k in streams && streams[k] == id;
    }
  }

  /** A lost connection changes nothing but its own sessions and their streams. */
  lemma {:induction false} LoseConnAt(s: State, conn: Conn, id: Id, k: int)
    ensures var t := LoseConn(s, conn);
            && t.locked == s.locked && t.inside == s.inside && t.active == s.active && t.releases == s.releases
            && LostAt(s, t, conn, id) && ForgottenAt(s, t, k)
  {
    LoseEachAt(LoseActive(s, conn), AllItems(s.streams), conn, id, k);
  }

  /** It ends its session if that is the active one, and forgets all of its streams. */
  lemma {:induction false} LoseConnEnds(s: State, conn: Conn, id: Id, k: int)
    requires id in s.sessions && s.sessions[id].conn == conn
    ensures var t := LoseConn(s, conn);
            && id in t.sessions && (s.active == Some(id) ==> t.sessions[id].closed)
            && !(k in t.streams && t.streams[k] == id)
  {
    LoseEachAt(LoseActive(s, conn), AllItems(s.streams), conn, id, k);
    AllItemsHave(s.streams, k);
  }

  /** Everything a lost connection leaves of the invariant. */
  lemma {:induction false} ConnLostKeeps(s: State, conn: Conn)
    requires Inv(s)
    ensures Inv(LoseConn(s, conn))
  {
    var t := LoseConn(s, conn);
    LoseConnAt(s, conn, 0, 0);
    forall id ensures LostAt(s, t, conn, id) {
      LoseConnAt(s, conn, id, 0);
    }
    forall k ensures ForgottenAt(s, t, k) {
      LoseConnAt(s, conn, 0, k);
    }
    LostKeeps(s, t, conn);
  }

  lemma {:induction false} LostKeeps(s: State, t: State, conn: Conn)
    requires Inv(s)
    requires t.locked == s.locked && t.inside == s.inside && t.active == s.active && t.releases == s.releases
    requires (forall id :: LostAt(s, t, conn, id)) && (forall k :: ForgottenAt(s, t, k))
    ensures Inv(t)
  {
    assert s.active.Some? ==> LostAt(s, t, conn, s.active.value);
    forall id | id in t.sessions
      ensures (t.sessions[id].watched <==> t.active == Some(id)) && (!t.sessions[id].closed ==> t.sessions[id].watched)
      ensures !t.sessions[id].watched ==> id in t.releases
    {
      assert LostAt(s, t, conn, id);
    }
    forall i | 0 <= i < |t.releases| ensures t.releases[i] in t.sessions && !t.sessions[t.releases[i]].watched {
      assert LostAt(s, t, conn, s.releases[i]);
    }
    forall k | k in t.streams ensures t.streams[k] in t.sessions && t.sessions[t.streams[k]].stream == Some(k) {
      assert ForgottenAt(s, t, k) && LostAt(s, t, conn, s.streams[k]);
    }
  }

  lemma {:induction false} StepKeepsLock(s: State, step: Step)
    requires Inv(s) && Enabled(s, step) && !step.ConnLost?
    ensures LockIsHeldByOne(Apply(s, step)) && WatchedIsActive(Apply(s, step))
  {
  }

  lemma {:induction false} StepKeepsStreams(s: State, step: Step)
    requires StreamsKnown(s) && Enabled(s, step) && !step.ConnLost?
    ensures StreamsKnown(Apply(s, step))
  {
  }

  lemma {:induction false} WatchKeepsReleases(s: State, id: Id)
    requires Inv(s) && Enabled(s, Watch(id))
    ensures ReleasedOnce(Apply(s, Watch(id)))
  {
    var t := Apply(s, Watch(id));
    assert t.releases == s.releases + [id];
    assert t.releases[|s.releases|] == id;
    forall other | other in t.sessions && !t.sessions[other].watched ensures other in t.releases {
      if other != id {
        assert other in s.releases;
      }
    }
  }

  lemma {:induction false} StepKeepsReleases(s: State, step: Step)
    requires Inv(s) && Enabled(s, step) && !step.ConnLost? && !step.Watch?
    ensures ReleasedOnce(Apply(s, step))
  {
    assert Apply(s, step).releases == s.releases;
  }

  lemma {:induction false} StepKeeps(s: State, step: Step)
    requires Inv(s) && Enabled(s, step)
    ensures Inv(Apply(s, step))
  {
    if step.ConnLost? {
      ConnLostKeeps(s, step.conn);
    } else {
      StepKeepsLock(s, step);
      StepKeepsStreams(s, step);
      if step.Watch? {
        WatchKeepsReleases(s, step.id);
      } else {
        StepKeepsReleases(s, step);
      }
    }
  }

  /** What a watcher's waking does: it finds its own session active, hands the lock back and forgets the stream. */
  lemma {:induction false} WatcherReleases(s: State, id: Id)
    requires Inv(s) && Enabled(s, Watch(id))
    ensures var t := Apply(s, Watch(id));
            s.locked && s.active == Some(id) && s.sessions[id].closed && !t.locked && t.active == None
            && t.releases == s.releases + [id] && forall k | k in t.streams :: t.streams[k] != id
  {
  }

  // ---------------------------------------------------------------- every run

  predicate AllEnabled(s: State, steps: seq<Step>)
    decreases |steps|
  {
    steps == [] || (Enabled(s, steps[0]) && AllEnabled(Apply(s, steps[0]), steps[1..]))
  }

  function Run(s: State, steps: seq<Step>): State
    requires AllEnabled(s, steps)
    decreases |steps|
  {
    if steps == [] then s else Run(Apply(s, steps[0]), steps[1..])
  }

  lemma {:induction false} RunKeeps(s: State, steps: seq<Step>)
    requires Inv(s) && AllEnabled(s, steps)
    ensures Inv(Run(s, steps))
    decreases |steps|
  {
    if steps == [] {
    } else {
      StepKeeps(s, steps[0]);
      RunKeeps(Apply(s, steps[0]), steps[1..]);
    }
  }

  /**
   In every run the lock is held exactly while one starter is inside or one session
   is active, never both; at most one session is not closed; and each session whose
   watcher is through was closed and handed the lock back exactly once.
   */
  lemma {:induction false} OneUtteranceAtATime(steps: seq<Step>)
    requires AllEnabled(Init(), steps)
    ensures var s := Run(Init(), steps);
            && (s.locked <==> s.inside.Some? || s.active.Some?) && !(s.inside.Some? && s.active.Some?)
            && (forall a, b | a in s.sessions && b in s.sessions ::
                  !s.sessions[a].closed && !s.sessions[b].closed ==> a == b)
            && (forall id | id in s.sessions :: !s.sessions[id].watched ==> s.sessions[id].closed && id in s.releases)
            && (forall i | 0 <= i < |s.releases| :: s.releases[i] in s.sessions && !s.sessions[s.releases[i]].watched)
            && (forall i, j | 0 <= i < j < |s.releases| :: s.releases[i] != s.releases[j])
  {
    RunKeeps(Init(), steps);
  }

  /**
   Losing a data stream closes whatever session runs over it and forgets its streams, so
   that its watcher can free the lock.
   */
  lemma {:induction false} LostStreamFreesTheLock(s: State, conn: Conn)
    requires Inv(s) && s.active.Some? && s.sessions[s.active.value].conn == conn
    ensures var t := Apply(s, ConnLost(conn));
            && (forall id | id in t.sessions :: t.sessions[id].conn == conn ==> t.sessions[id].closed)
            && (forall k | k in t.streams :: t.streams[k] in t.sessions && t.sessions[t.streams[k]].conn != conn)
            && Enabled(t, Watch(s.active.value)) && !Apply(t, Watch(s.active.value)).locked
  {
    var t := Apply(s, ConnLost(conn));
    ConnLostKeeps(s, conn);
    LoseConnAt(s, conn, s.active.value, 0);
    LoseConnEnds(s, conn, s.active.value, 0);
    forall id | id in t.sessions && t.sessions[id].conn == conn ensures t.sessions[id].closed {
      LoseConnAt(s, conn, id, 0);
    }
    forall k | k in t.streams ensures t.streams[k] in t.sessions && t.sessions[t.streams[k]].conn != conn {
      LoseConnAt(s, conn, t.streams[k], k);
      if s.sessions[t.streams[k]].conn == conn {
        LoseConnEnds(s, conn, t.streams[k], k);
      }
    }
  }

  /** A close from one data stream never ends a session that runs over another. */
  lemma {:induction false} CloseStaysOnItsStream(s: State, conn: Conn, stream: int, id: Id)
    requires Inv(s) && id in s.sessions && s.sessions[id].conn != conn
    ensures Apply(s, PeerClose(conn, stream)).sessions[id] == s.sessions[id]
  {
  }
}
