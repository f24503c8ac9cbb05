/**
 The remote and its Siri lock as one machine. The registry knows the open session
 by target and data stream, the lock by its bookkeeping; in every run they speak of
 the same session.
 */
module SiriTogether {
  import opened Bytes
  import opened Dicts
  import opened JsonValues
  import Registry
  import RegistryProofs
  import SavedTargets
  import Mutex = SiriMutex

  datatype State = State(remote: Registry.State, gate: Mutex.State)

  datatype Step =
    | Enter(task: Mutex.Task)                       // the lock is granted to a starter
    | Start(task: Mutex.Task, id: Mutex.Id, target: Option<int>, advertised: bool)  // the rest of start_siri
    | Outside(step: Registry.Step)                  // writes, selections, data streams, disconnects
    | Opened(id: Mutex.Id, stream: int)
    | End(id: Mutex.Id)
    | PeerClose(conn: Mutex.Conn, stream: int)
    | Watch(id: Mutex.Id)
    | Restart

  /** What reaches the remote from outside: no step that opens or closes a session by itself. */
  predicate FromOutside(step: Registry.Step) {
    !step.Speak? && !step.Silence? && !step.Restart?
  }

  /** The step of the lock alone, for those that are. */
  function OfGate(step: Step): Mutex.Step
    requires step.Enter? || step.Opened? || step.End? || step.PeerClose? || step.Watch?
  {
    match step
    case Enter(task) => Mutex.Acquire(task)
    case Opened(id, stream) => Mutex.Opened(id, stream)
    case End(id) => Mutex.End(id)
    case PeerClose(conn, stream) => Mutex.PeerClose(conn, stream)
    case Watch(id) => Mutex.Watch(id)
  }

  predicate Enabled(s: State, step: Step) {
    match step
    case Start(task, id, _, _) => s.gate.inside == Some(task) && id !in s.gate.sessions
    case Outside(outside) => FromOutside(outside)
    case Restart => true
    case _ => Mutex.Enabled(s.gate, OfGate(step))
  }

  /** The active session is not closed. */
  predicate IsOpen(gate: Mutex.State) {
    gate.active.Some? && gate.active.value in gate.sessions && !gate.sessions[gate.active.value].closed
  }

  /** The data streams that a step of the remote closed, each of which reports its end. */
  function Lost(before: map<Registry.Link, Registry.Conn>, after: map<Registry.Link, Registry.Conn>)
    : seq<Registry.Link>
  {
    Ascending(set c | c in before && Registry.IsOpen(before, c) && !Registry.IsOpen(after, c))
  }

  function LoseAll(gate: Mutex.State, conns: seq<Mutex.Conn>): Mutex.State
    decreases |conns|
  {
    if conns == [] then gate else LoseAll(Mutex.LoseConn(gate, conns[0]), conns[1..])
  }

  function StartSiri(s: State, task: Mutex.Task, id: Mutex.Id, target: Option<int>, advertised: bool): State
    requires s.gate.inside == Some(task) && id !in s.gate.sessions
  {
    var r := Registry.StartSpeechTo(s.remote, target, advertised);
    if r.outcome.Done? && r.state.speech.Some? then
      State(r.state, Mutex.Apply(s.gate, Mutex.Begin(task, id, r.state.speech.value.link)))
    else State(r.state, Mutex.Apply(s.gate, Mutex.Fail(task)))
  }

  /** The remote once its session is over, if it is. */
  function Settled(remote: Registry.State, before: Mutex.State, after: Mutex.State): Registry.State {
    if IsOpen(before) && !IsOpen(after) then remote.(speech := None) else remote
  }

  function Apply(s: State, step: Step): State
    requires Enabled(s, step)
  {
    match step
    case Start(task, id, target, advertised) => StartSiri(s, task, id, target, advertised)
    case Outside(outside) =>
      var remote := Registry.Apply(s.remote, outside).state;
      State(remote, LoseAll(s.gate, Lost(s.remote.conns, remote.conns)))
    case Restart => State(Registry.Apply(s.remote, Registry.Restart).state, Mutex.Init())
    case _ =>
      var gate := Mutex.Apply(s.gate, OfGate(step));
      State(Settled(s.remote, s.gate, gate), gate)
  }

  function Boot(file: Option<Json>): State {
    State(Registry.Boot(file), Mutex.Init())
  }

  predicate AllEnabled(s: State, steps: seq<Step>)
    decreases |steps|
  {
    steps == [] || (Enabled(s, steps[0]) && AllEnabled(Apply(s, steps[0]), steps[1..]))
  }

  function Run(s: State, steps: seq<Step>): State
    requires AllEnabled(s, steps)
    decreases |steps|
  {
    if steps == [] then s else Run(Apply(s, steps[0]), steps[1..])
  }

  // ---------------------------------------------------------------- the invariant

  /** Both speak of the same open session, or of none. */
  predicate Agree(remote: Registry.State, gate: Mutex.State) {
    && (remote.speech.Some? <==> IsOpen(gate))
    && (IsOpen(gate) && remote.speech.Some? ==> remote.speech.value.link == gate.sessions[gate.active.value].conn)
  }

  predicate Inv(s: State) {
    RegistryProofs.Inv(s.remote) && Mutex.Inv(s.gate) && Agree(s.remote, s.gate)
  }

  // ---------------------------------------------------------------- what the remote does to its session

  /** Data streams never reopen, and a session only ever ends with the data stream under it. */
  predicate Follows(s: Registry.State, t: Registry.State) {
    && (forall c | c in s.conns :: c in t.conns && (s.conns[c].closed ==> t.conns[c].closed))
    && (t.speech.Some? ==> s.speech.Some? && t.speech.value.link == s.speech.value.link)
    && (s.speech.Some? && t.speech.None? ==> s.speech.value.link in t.conns && t.conns[s.speech.value.link].closed)
  }

  lemma {:induction false} FollowsOn(s: Registry.State, t: Registry.State, u: Registry.State)
    requires Follows(s, t) && Follows(t, u)
    ensures Follows(s, u)
  {
  }

  lemma {:induction false} CloseFollows(s: Registry.State, link: Registry.Link)
    ensures Follows(s, Registry.Close(s, link))
  {
  }

  lemma {:induction false} CloseEachFollows(s: Registry.State, links: seq<Registry.Link>)
    ensures Follows(s, Registry.CloseEach(s, links))
    decreases |links|
  {
    if links == [] {
    } else {
      var t := Registry.Close(s, links[0]);
      CloseFollows(s, links[0]);
      CloseEachFollows(t, links[1..]);
      FollowsOn(s, t, Registry.CloseEach(t, links[1..]));
    }
  }

  lemma {:induction false} QuietFollows(s: Registry.State, t: Registry.State)
    requires t.conns == s.conns && (t.speech.Some? <==> s.speech.Some?)
    requires t.speech.Some? ==> t.speech.value.link == s.speech.value.link
    ensures Follows(s, t)
  {
  }

  lemma {:induction false} CancelIsQuiet(s: Registry.State)
    ensures var t := Registry.CancelSpeech(s);
            && t.conns == s.conns && (t.speech.Some? <==> s.speech.Some?)
            && (t.speech.Some? ==> t.speech.value.link == s.speech.value.link)
  {
  }

  lemma {:induction false} SaveIsQuiet(s: Registry.State)
    ensures var t := Registry.Save(s); t.conns == s.conns && t.speech == s.speech
  {
  }

  lemma {:induction false} SetActiveFollows(s: Registry.State, identifier: int)
    ensures Follows(s, Registry.SetActive(s, identifier).state)
  {
    var t := Registry.SetActive(s, identifier).state;
    if t != s {
      var selected := s.(active := identifier, client := None);
      var saved := Registry.Save(selected);
      SaveIsQuiet(selected);
      CancelIsQuiet(saved);
      assert t == saved || t == Registry.CancelSpeech(saved);
    }
    QuietFollows(s, t);
  }

  lemma {:induction false} RemoveFollows(s: Registry.State, request: Registry.Request)
    requires request.operation.Remove? && Registry.Perform(s, request).Ok?
    ensures Follows(s, Registry.Perform(s, request).value)
  {
    var id := request.config.value.identifier;
    if request.config.value.buttons == map[] {
      var s1 := s.(targets := s.targets - {id});
      var s2 := Registry.DropLink(s1, id);
      if id in s1.links {
        CloseFollows(s1.(links := s1.links - {id}), s1.links[id]);
      }
      assert Follows(s, s2);
      if s2.active == id {
        var smallest := SavedTargets.Smallest(s2.targets);
        SetActiveFollows(s2, smallest);
        FollowsOn(s, s2, Registry.SetActive(s2, smallest).state);
      }
    }
  }

  lemma {:induction false} ResetFollows(s: Registry.State, request: Registry.Request)
    requires request.operation.Reset? && Registry.Perform(s, request).Ok?
    ensures Follows(s, Registry.Perform(s, request).value)
  {
    CloseEachFollows(s.(targets := map[]), Registry.OpenOf(s.conns, None));
  }

  lemma {:induction false} PerformFollows(s: Registry.State, request: Registry.Request)
    requires Registry.Perform(s, request).Ok?
    ensures Follows(s, Registry.Perform(s, request).value)
  {
    if request.operation.Remove? {
      RemoveFollows(s, request);
    } else if request.operation.Reset? {
      ResetFollows(s, request);
    }
  }

  lemma {:induction false} IdentifyFollows(s: Registry.State, link: Registry.Link, identifier: int)
    ensures Follows(s, Registry.Identify(s, link, identifier))
  {
    if link in s.conns {
      var s1 := s.(conns := s.conns[link := s.conns[link].(identifier := Some(identifier))]);
      CloseFollows(s1, link);
      if identifier in s1.links {
        CloseFollows(s1, s1.links[identifier]);
      }
    }
  }

  lemma {:induction false} LoseHapFollows(s: Registry.State, client: Registry.Client)
    ensures Follows(s, Registry.LoseHap(s, client))
  {
    CloseEachFollows(s, Registry.OpenOf(s.conns, Some(client)));
  }

  lemma {:induction false} WriteFollows(s: Registry.State, raw: Option<seq<byte>>, admin: bool)
    ensures Follows(s, Registry.WriteList(s, raw, admin).state)
  {
    var request := Registry.Admitted(raw, admin);
    if request.Ok? && Registry.Perform(s, request.value).Ok? {
      PerformFollows(s, request.value);
    }
  }

  lemma {:induction false} OutsideFollows(s: Registry.State, step: Registry.Step)
    requires FromOutside(step)
    ensures Follows(s, Registry.Apply(s, step).state)
  {
    match step
    case ListWrite(raw, admin) => WriteFollows(s, raw, admin);
    case Select(identifier) => SetActiveFollows(s, identifier);
    case SelectWrite(identifier, _) => SetActiveFollows(s, identifier);
    case WhoAmI(link, identifier) => IdentifyFollows(s, link, identifier);
    case Closed(link) => CloseFollows(s, link);
    case HapLost(client) => LoseHapFollows(s, client);
    case _ =>
  }

  // ---------------------------------------------------------------- what that does to the lock

  /** Losing some data streams ends the active session exactly when it ran over one of them. */
  lemma {:induction false} LoseAllEnds(gate: Mutex.State, conns: seq<Mutex.Conn>)
    requires Mutex.Inv(gate)
    ensures var t := LoseAll(gate, conns);
            && Mutex.Inv(t) && t.active == gate.active && t.inside == gate.inside
            && (gate.active.Some? ==> t.sessions[gate.active.value].conn == gate.sessions[gate.active.value].conn)
            && (IsOpen(t) <==> IsOpen(gate) && gate.sessions[gate.active.value].conn !in conns)
    decreases |conns|
  {
    if conns == [] {
    } else {
      var next := Mutex.LoseConn(gate, conns[0]);
      Mutex.ConnLostKeeps(gate, conns[0]);
      Mutex.LoseConnAt(gate, conns[0], 0, 0);
      if gate.active.Some? {
        var id := gate.active.value;
        Mutex.LoseConnAt(gate, conns[0], id, 0);
        if gate.sessions[id].conn == conns[0] {
          Mutex.LoseConnEnds(gate, conns[0], id, 0);
        }
      }
      LoseAllEnds(next, conns[1..]);
      assert conns == [conns[0]] + conns[1..];
    }
  }

  lemma {:induction false} LostHas(
    before: map<Registry.Link, Registry.Conn>, after: map<Registry.Link, Registry.Conn>, c: Registry.Link)
    ensures c in Lost(before, after) <==> Registry.IsOpen(before, c) && !Registry.IsOpen(after, c)
  {
    AscendingSorted(set link | link in before && Registry.IsOpen(before, link) && !Registry.IsOpen(after, link));
  }

  /** What the loss of its own data stream, and of no other, does to the session on either side. */
  lemma {:induction false} LossAgrees(s: State, remote: Registry.State)
    requires Inv(s) && Follows(s.remote, remote) && RegistryProofs.SpeechInPlace(remote)
    ensures Agree(remote, LoseAll(s.gate, Lost(s.remote.conns, remote.conns)))
  {
    var lost := Lost(s.remote.conns, remote.conns);
    LoseAllEnds(s.gate, lost);
    if IsOpen(s.gate) {
      LostHas(s.remote.conns, remote.conns, s.remote.speech.value.link);
    }
  }

  lemma {:induction false} OutsideAgrees(s: State, step: Registry.Step)
    requires Inv(s) && FromOutside(step)
    ensures var t := Apply(s, Outside(step)); Mutex.Inv(t.gate) && Agree(t.remote, t.gate)
  {
    var remote := Registry.Apply(s.remote, step).state;
    OutsideFollows(s.remote, step);
    RegistryProofs.StepKeeps(s.remote, step);
    LoseAllEnds(s.gate, Lost(s.remote.conns, remote.conns));
    LossAgrees(s, remote);
  }

  // ---------------------------------------------------------------- every step

  lemma {:induction false} StartKeeps(s: State, step: Step)
    requires Inv(s) && Enabled(s, step) && step.Start?
    ensures Inv(Apply(s, step))
  {
    var r := Registry.StartSpeechTo(s.remote, step.target, step.advertised);
    RegistryProofs.SpeakingStarts(s.remote, step.target, step.advertised);
    RegistryProofs.StartSpeechToKeeps(s.remote, step.target, step.advertised);
    if r.outcome.Done? {
      Mutex.StepKeeps(s.gate, Mutex.Begin(step.task, step.id, r.state.speech.value.link));
    } else {
      Mutex.StepKeeps(s.gate, Mutex.Fail(step.task));
    }
  }

  /** A step of the lock alone opens no session, and moves none to another data stream. */
  lemma {:induction false} GateOpensNothing(gate: Mutex.State, step: Mutex.Step)
    requires Mutex.Inv(gate) && Mutex.Enabled(gate, step) && !step.Begin? && !step.ConnLost?
    ensures var t := Mutex.Apply(gate, step);
            IsOpen(t) ==> IsOpen(gate) && t.active == gate.active
                          && t.sessions[gate.active.value].conn == gate.sessions[gate.active.value].conn
  {
  }

  lemma {:induction false} SilenceKeeps(remote: Registry.State)
    requires RegistryProofs.Inv(remote)
    ensures RegistryProofs.Inv(remote.(speech := None))
  {
  }

  lemma {:induction false} SettledAgrees(remote: Registry.State, before: Mutex.State, after: Mutex.State)
    requires Agree(remote, before)
    requires IsOpen(after) ==> IsOpen(before) && after.active == before.active
                               && after.sessions[before.active.value].conn == before.sessions[before.active.value].conn
    ensures Agree(Settled(remote, before, after), after)
  {
  }

  lemma {:induction false} GateKeeps(s: State, step: Step)
    requires Inv(s) && Enabled(s, step) && !step.Start? && !step.Outside? && !step.Restart?
    ensures Inv(Apply(s, step))
  {
    var gate := Mutex.Apply(s.gate, OfGate(step));
    Mutex.StepKeeps(s.gate, OfGate(step));
    GateOpensNothing(s.gate, OfGate(step));
    SilenceKeeps(s.remote);
    SettledAgrees(s.remote, s.gate, gate);
    assert Apply(s, step) == State(Settled(s.remote, s.gate, gate), gate);
  }

  lemma {:induction false} OutsideKeeps(s: State, step: Registry.Step)
    requires Inv(s) && FromOutside(step)
    ensures Inv(Apply(s, Outside(step)))
  {
    RegistryProofs.StepKeeps(s.remote, step);
    OutsideAgrees(s, step);
  }

  lemma {:induction false} FreeGate()
    ensures Mutex.Inv(Mutex.Init()) && !IsOpen(Mutex.Init())
  {
  }

  lemma {:induction false} BootIsSound(file: Option<Json>)
    ensures Inv(Boot(file))
  {
    RegistryProofs.BootIsSound(file);
    FreeGate();
  }

  lemma {:induction false} RestartKeeps(s: State)
    ensures Inv(Apply(s, Restart))
  {
    BootIsSound(s.remote.saved);
    assert Apply(s, Restart) == Boot(s.remote.saved);
  }

  lemma {:induction false} StepKeeps(s: State, step: Step)
    requires Inv(s) && Enabled(s, step)
    ensures Inv(Apply(s, step))
  {
    if step.Start? {
      StartKeeps(s, step);
    } else if step.Outside? {
      OutsideKeeps(s, step.step);
    } else if step.Restart? {
      RestartKeeps(s);
    } else {
      GateKeeps(s, step);
    }
  }

  lemma {:induction false} RunKeeps(s: State, steps: seq<Step>)
    requires Inv(s) && AllEnabled(s, steps)
    ensures Inv(Run(s, steps))
    decreases |steps|
  {
    if steps == [] {
    } else {
      StepKeeps(s, steps[0]);
      RunKeeps(Apply(s, steps[0]), steps[1..]);
    }
  }

  // ---------------------------------------------------------------- every run

  /**
   From any file and in every run of the remote with its lock: there is an open session in
   the registry exactly when the active session of the lock is not closed, over the same
   data stream, which is open; the lock is held then, by no starter; no other session is
   open; and the session speaks to the selected and activated target, or its cancellation
   is scheduled.
   */
  lemma {:induction false} OneOpenSession(file: Option<Json>, steps: seq<Step>)
    requires AllEnabled(Boot(file), steps)
    ensures var s := Run(Boot(file), steps);
            && (s.remote.speech.Some? <==> IsOpen(s.gate))
            && (s.gate.inside.Some? ==> s.remote.speech.None?)
            && (forall id | id in s.gate.sessions && !s.gate.sessions[id].closed ::
                  && s.gate.active == Some(id) && s.gate.locked && s.gate.inside.None?
                  && s.remote.speech.Some? && s.remote.speech.value.link == s.gate.sessions[id].conn
                  && Registry.IsOpen(s.remote.conns, s.gate.sessions[id].conn)
                  && (|| s.remote.speech.value.cancelling
                      || (s.remote.client.Some? && s.remote.speech.value.target == s.remote.active)))
  {
    BootIsSound(file);
    RunKeeps(Boot(file), steps);
  }

  /** What a starter with the lock comes to. */
  predicate StartOutcome(s: State, t: State, step: Step)
    requires step.Start?
  {
    && s.remote.speech.None?
    && (t.gate.active == Some(step.id) <==> RegistryProofs.MayStart(s.remote, step.target, step.advertised))
    && (t.gate.locked <==> t.gate.active == Some(step.id)) && t.gate.inside.None?
  }

  lemma {:induction false} StartComesTo(s: State, step: Step)
    requires Inv(s) && Enabled(s, step) && step.Start?
    ensures StartOutcome(s, Apply(s, step), step)
  {
    RegistryProofs.SpeakingStarts(s.remote, step.target, step.advertised);
  }

  /**
   A starter that holds the lock never finds a session open: it begins one exactly when
   the target it names, if any, is the selected one, which is activated and has an open
   data stream while Siri is advertised; and otherwise it gives the lock back.
   */
  lemma {:induction false} StartersFindNoSession(file: Option<Json>, steps: seq<Step>, step: Step)
    requires AllEnabled(Boot(file), steps) && step.Start? && Enabled(Run(Boot(file), steps), step)
    ensures var s := Run(Boot(file), steps);
            && StartOutcome(s, Apply(s, step), step)
            && Registry.StartSpeechTo(s.remote, step.target, step.advertised).outcome
               != Registry.Rejected(Registry.Busy)
  {
    var s := Run(Boot(file), steps);
    BootIsSound(file);
    RunKeeps(Boot(file), steps);
    StartComesTo(s, step);
    RegistryProofs.NeverBusy(s.remote, step.target, step.advertised);
  }
}
