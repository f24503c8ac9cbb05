/**
 The Siri bookkeeping of the remote, updated in place by `start_siri`, the session
 watcher and the data-stream callbacks. Each method is one step of `SiriMutex`.
 */
module SiriGate {
  import opened Bytes
  import opened SiriMutex
  import Registry
  import Remote
  import SiriTogether

  class Gate {
    var lockHeld: bool
    var activeSession: Option<Id>
    var sessions: map<Id, Session>
    var siriSessions: map<int, Id>
    ghost var inside: Option<Task>
    ghost var releases: seq<Id>

    ghost function View(): State
      reads this
    {
      State(lockHeld, inside, activeSession, sessions, siriSessions, releases)
    }

    constructor ()
      ensures View() == Init()
    {
      lockHeld, activeSession, sessions, siriSessions := false, None, map[], map[];
      inside, releases := None, [];
    }

    /** The lock is granted to a starter. */
    method Enter(task: Task)
      requires Enabled(View(), Acquire(task))
      modifies this
      ensures View() == Apply(old(View()), Acquire(task))
    {
      lockHeld := true;
      inside := Some(task);
    }

    /** A starter leaves with a session. */
    method BeginSession(task: Task, id: Id, link: Conn)
      requires Enabled(View(), Begin(task, id, link))
      modifies this
      ensures View() == Apply(old(View()), Begin(task, id, link))
    {
      inside := None;
      sessions := sessions[id := Session(link, None, false, true)];
      activeSession := Some(id);
    }

    /** A starter leaves without one and gives the lock back. */
    method GiveUp(task: Task)
      requires Enabled(View(), Fail(task))
      modifies this
      ensures View() == Apply(old(View()), Fail(task))
    {
      inside := None;
      lockHeld := false;
    }

    /** The critical section of `start_siri`: the checks of the remote decide which. */
    method StartSiri(task: Task, id: Id, remote: Remote.Controller, target: Option<int>, advertised: bool)
      returns (outcome: Registry.Outcome)
      requires inside == Some(task) && id !in sessions
      modifies this, remote
      ensures Registry.After(remote.View(), outcome) == Registry.StartSpeechTo(old(remote.View()), target, advertised)
      ensures SiriTogether.State(remote.View(), View())
           == SiriTogether.StartSiri(
                SiriTogether.State(old(remote.View()), old(View())), task, id, target, advertised)
    {
      outcome := remote.StartSiri(target, advertised);
      if outcome.Done? {
        BeginSession(task, id, remote.siriSession.value.link);
      } else {
        GiveUp(task);
      }
    }

    method MarkDone(id: Id)
      requires id in sessions
      modifies `sessions
      ensures View() == Done(old(View()), id)
    {
      sessions := sessions[id := sessions[id].(closed := true)];
    }

    /** `_siri_session_opened` as called by the opener. */
    method SessionOpened(id: Id, stream: int)
      requires Enabled(View(), Opened(id, stream))
      modifies `sessions, `siriSessions
      ensures View() == Apply(old(View()), Opened(id, stream))
    {
      sessions := sessions[id := sessions[id].(stream := Some(stream))];
      if stream in siriSessions && siriSessions[stream] != id {
        MarkDone(id);
        return;
      }
      siriSessions := siriSessions[stream := id];
    }

    /** `_hds_event` with a close: the stream must be known and run over this connection. */
    method HdsClose(connection: Conn, stream: int)
      modifies `sessions
      ensures View() == Apply(old(View()), PeerClose(connection, stream))
    {
      if stream !in siriSessions {
        return;
      }
      var id := siriSessions[stream];
      if id !in sessions || sessions[id].conn != connection {
        return;
      }
      MarkDone(id);
    }

    /** The `finally` of `_watch_siri_session`. */
    method WatcherDone(id: Id)
      requires Enabled(View(), Watch(id))
      modifies this
      ensures View() == Apply(old(View()), Watch(id))
    {
      var session := sessions[id];
      if session.stream.Some? && session.stream.value in siriSessions && siriSessions[session.stream.value] == id {
        siriSessions := siriSessions - {session.stream.value};
      }
      sessions := sessions[id := session.(watched := false)];
      if activeSession == Some(id) {
        activeSession := None;
        if lockHeld {
          lockHeld := false;
          releases := releases + [id];
        }
      }
    }

    /** One turn of that loop. */
    method ForgetIfOver(item: (int, Id), connection: Conn)
      requires item.1 in sessions
      modifies `sessions, `siriSessions
      ensures View() == LoseStream(old(View()), item, connection)
    {
      var (stream, id) := item;
      if sessions[id].conn == connection {
        if !sessions[id].closed {
          MarkDone(id);
        } else {
          assert sessions[id := sessions[id].(closed := true)] == sessions;
        }
        siriSessions := siriSessions - {stream};
      }
    }

    /** `_hds_connection_closed`: the active session, then the loop over the known streams. */
    method HdsConnectionClosed(connection: Conn)
      requires Held(siriSessions, sessions)
      requires activeSession.Some? ==> activeSession.value in sessions
      modifies `sessions, `siriSessions
      ensures View() == Apply(old(View()), ConnLost(connection))
    {
      var items := AllItems(siriSessions);
      ItemsAreHeld(siriSessions, sessions);
      if activeSession.Some? && sessions[activeSession.value].conn == connection {
        MarkDone(activeSession.value);
      }
      ghost var start := View();
      var n := 0;
      assert items[0..] == items;
      while n < |items|
        invariant n <= |items| && Same(LoseEach(start, items, connection), LoseEach(View(), items[n..], connection))
        invariant forall i | 0 <= i < |items| :: items[i].1 in sessions
      {
        assert items[n..][1..] == items[n + 1..];
        ForgetIfOver(items[n], connection);
        n := n + 1;
      }
    }
  }
}
