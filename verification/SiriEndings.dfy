/**
 How a Siri session ends, and only so: by itself, by a close of its own stream from its
 own data stream, by the loss of that data stream, or by a stream number somebody has.
 */
module SiriEndings {
  import opened Bytes
  import opened SiriMutex

  /** Every open session is found under its stream number. */
  predicate Registered(s: State) {
    forall id | id in s.sessions :: RegisteredAt(s, id)
  }

  predicate RegisteredAt(s: State, id: Id)
    requires id in s.sessions
  {
    var session := s.sessions[id];
    !session.closed && session.stream.Some? ==>
      session.stream.value in s.streams && s.streams[session.stream.value] == id
  }

  /** The steps that end an open session. */
  predicate Ends(s: State, step: Step, id: Id)
    requires id in s.sessions
  {
    match step
    case End(other) => other == id
    case PeerClose(conn, stream) => s.sessions[id].conn == conn && s.sessions[id].stream == Some(stream)
    case ConnLost(conn) => s.sessions[id].conn == conn
    case Opened(other, stream) => other == id && stream in s.streams && s.streams[stream] != id
    case _ => false
  }

  // ---------------------------------------------------------------- a lost data stream

  lemma {:induction false} LoseEachSpares(s: State, items: seq<(int, Id)>, conn: Conn, id: Id, k: int)
    requires id in s.sessions && s.sessions[id].conn != conn
    requires forall i | 0 <= i < |items| :: items[i].0 == k ==> items[i].1 == id
    ensures var t := LoseEach(s, items, conn);
            && id in t.sessions && t.sessions[id] == s.sessions[id]
            && (k in s.streams ==> k in t.streams && t.streams[k] == s.streams[k])
    decreases |items|
  {
    if items == [] {
    } else {
      LoseEachSpares(LoseStream(s, items[0], conn), items[1..], conn, id, k);
    }
  }

  lemma {:induction false} LossSpares(s: State, conn: Conn, id: Id, k: int)
    requires id in s.sessions && s.sessions[id].conn != conn && k in s.streams && s.streams[k] == id
    ensures var t := LoseConn(s, conn);
            && id in t.sessions && t.sessions[id] == s.sessions[id] && k in t.streams && t.streams[k] == id
  {
    AllItemsHave(s.streams, k);
    LoseEachSpares(LoseActive(s, conn), AllItems(s.streams), conn, id, k);
  }

  lemma {:induction false} LossEnds(s: State, conn: Conn, id: Id)
    requires Inv(s) && id in s.sessions && !s.sessions[id].closed
    ensures var t := LoseConn(s, conn);
            && id in t.sessions && (t.sessions[id].closed <==> s.sessions[id].conn == conn)
            && (!t.sessions[id].closed ==> t.sessions[id] == s.sessions[id])
  {
    LoseConnAt(s, conn, id, 0);
    if s.sessions[id].conn == conn {
      LoseConnEnds(s, conn, id, 0);
    }
  }

  // ---------------------------------------------------------------- every step

  lemma {:induction false} LossKeepsRegistered(s: State, conn: Conn)
    requires Inv(s) && Registered(s)
    ensures Registered(LoseConn(s, conn))
  {
    var t := LoseConn(s, conn);
    forall id | id in t.sessions ensures RegisteredAt(t, id) {
      LoseConnAt(s, conn, id, 0);
      if !t.sessions[id].closed && t.sessions[id].stream.Some? {
        LossEnds(s, conn, id);
        assert RegisteredAt(s, id);
        LossSpares(s, conn, id, s.sessions[id].stream.value);
      }
    }
  }

  lemma {:induction false} StepKeepsRegistered(s: State, step: Step)
    requires Inv(s) && Registered(s) && Enabled(s, step)
    ensures Registered(Apply(s, step))
  {
    if step.ConnLost? {
      LossKeepsRegistered(s, step.conn);
    } else {
      var t := Apply(s, step);
      forall id | id in t.sessions ensures RegisteredAt(t, id) {
        assert id in s.sessions ==> RegisteredAt(s, id);
      }
    }
  }

  lemma {:induction false} RunKeepsRegistered(s: State, steps: seq<Step>)
    requires Inv(s) && Registered(s) && AllEnabled(s, steps)
    ensures Inv(Run(s, steps)) && Registered(Run(s, steps))
    decreases |steps|
  {
    if steps == [] {
    } else {
      StepKeeps(s, steps[0]);
      StepKeepsRegistered(s, steps[0]);
      RunKeepsRegistered(Apply(s, steps[0]), steps[1..]);
    }
  }

  lemma {:induction false} StepEnds(s: State, step: Step, id: Id)
    requires Inv(s) && Registered(s) && Enabled(s, step) && id in s.sessions
    ensures id in Apply(s, step).sessions
    ensures s.sessions[id].closed ==> Apply(s, step).sessions[id].closed
    ensures !s.sessions[id].closed ==> (Apply(s, step).sessions[id].closed <==> Ends(s, step, id))
  {
    assert RegisteredAt(s, id);
    if step.ConnLost? {
      LoseConnAt(s, step.conn, id, 0);
      if !s.sessions[id].closed {
        LossEnds(s, step.conn, id);
      }
    }
  }

  /** A starter that begins a session leaves it open, active and watched, over its data stream. */
  lemma {:induction false} BeginOpens(s: State, task: Task, id: Id, conn: Conn)
    requires Enabled(s, Begin(task, id, conn))
    ensures var t := Apply(s, Begin(task, id, conn));
            && t.active == Some(id) && t.inside.None? && t.locked == s.locked
            && id in t.sessions && t.sessions[id] == Session(conn, None, false, true)
            && t.sessions - {id} == s.sessions && t.streams == s.streams
  {
    var t := Apply(s, Begin(task, id, conn));
    assert t.sessions - {id} == s.sessions;
  }

  // ---------------------------------------------------------------- every run

  /**
   In every run, a session that is open is ended by the next step if and only if that step is
   one of `Ends`; then its watcher can wake and frees the lock, and a starter can take it.
   */
  lemma {:induction false} SessionEnds(steps: seq<Step>, step: Step, id: Id)
    requires AllEnabled(Init(), steps) && Enabled(Run(Init(), steps), step)
    requires id in Run(Init(), steps).sessions && !Run(Init(), steps).sessions[id].closed
    ensures var s := Run(Init(), steps); var t := Apply(s, step);
            && id in t.sessions && (t.sessions[id].closed <==> Ends(s, step, id))
            && (Ends(s, step, id) ==>
                  && t.active == Some(id) && Enabled(t, Watch(id))
                  && forall task :: Enabled(Apply(t, Watch(id)), Acquire(task)))
  {
    RunKeepsRegistered(Init(), steps);
    var s := Run(Init(), steps);
    StepEnds(s, step, id);
    StepKeeps(s, step);
    if Ends(s, step, id) {
      WatchedStays(s, step, id);
      WatcherReleases(Apply(s, step), id);
    }
  }

  lemma {:induction false} WatchedStays(s: State, step: Step, id: Id)
    requires Inv(s) && Enabled(s, step) && id in s.sessions && !s.sessions[id].closed && Ends(s, step, id)
    ensures Apply(s, step).active == Some(id) && id in Apply(s, step).sessions && Apply(s, step).sessions[id].watched
  {
    if step.ConnLost? {
      LoseConnAt(s, step.conn, id, 0);
    }
  }
}
