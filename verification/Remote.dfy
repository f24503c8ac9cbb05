/**
 The registry as the remote runs it: fields updated in place by the HAP writes and
 the data-stream callbacks. Each method is one step of `Registry`.
 */
module Remote {
  import opened Bytes
  import opened Dicts
  import opened JsonValues
  import Tlv8Codec
  import opened Targets
  import TargetCodec
  import opened SavedTargets
  import opened Registry

  // ---------------------------------------------------------------- loading

  method ReadButtons(fields: seq<Field>) returns (r: Result<map<int, Button>, Corrupt>)
    ensures r == LoadButtons(fields, map[])
  {
    var buttons: map<int, Button> := map[];
    var n := 0;
    assert fields[0..] == fields;
    while n < |fields|
      invariant n <= |fields|
      invariant Same(LoadButtons(fields, map[]), LoadButtons(fields[n..], buttons))
    {
      assert fields[n..][1..] == fields[n + 1..];
      var parsed := LoadButton(fields[n].key, fields[n].val);
      if parsed.Err? {
        return Err(parsed.error);
      }
      buttons := buttons[parsed.value.id := parsed.value];
      n := n + 1;
    }
    r := Ok(buttons);
  }

  method ReadTarget(key: string, raw: Json) returns (r: Result<Target, Corrupt>)
    ensures r == LoadTarget(key, raw)
  {
    if !raw.Object? {
      return Err(Corrupt);
    }
    var identifier := IntOr(raw.fields, "target_identifier", key);
    if identifier.Err? {
      return Err(identifier.error);
    }
    if !(1 <= identifier.value < UINT32) {
      return Err(Corrupt);
    }
    var rawButtons := FieldsOr(raw.fields, "buttons");
    if rawButtons.Err? {
      return Err(rawButtons.error);
    }
    var buttons := ReadButtons(rawButtons.value);
    if buttons.Err? {
      return Err(buttons.error);
    }
    var name := NameOf(raw.fields, "target_name");
    var category := CategoryOf(raw.fields);
    if category.Err? {
      return Err(category.error);
    }
    r := Ok(Target(identifier.value, name, category.value, buttons.value));
  }

  method ReadTargets(fields: seq<Field>) returns (r: Result<map<int, Target>, Corrupt>)
    ensures r == LoadTargets(fields, map[])
  {
    var loaded: map<int, Target> := map[];
    var n := 0;
    assert fields[0..] == fields;
    while n < |fields|
      invariant n <= |fields|
      invariant Same(LoadTargets(fields, map[]), LoadTargets(fields[n..], loaded))
    {
      assert fields[n..][1..] == fields[n + 1..];
      var target := ReadTarget(fields[n].key, fields[n].val);
      if target.Err? {
        return Err(target.error);
      }
      loaded := loaded[target.value.identifier := target.value];
      n := n + 1;
    }
    r := Ok(loaded);
  }

  method ReadPayload(payload: Json) returns (r: Result<Kept, Corrupt>)
    ensures r == LoadPayload(payload)
  {
    if !payload.Object? {
      return Err(Corrupt);
    }
    var raw := FieldsOr(payload.fields, "targets");
    if raw.Err? {
      return Err(raw.error);
    }
    if |raw.value| > MAX_TARGETS {
      return Err(Corrupt);
    }
    var loaded := ReadTargets(raw.value);
    if loaded.Err? {
      return Err(loaded.error);
    }
    var active := 0;
    var rawActive := Get(payload.fields, "active_identifier");
    if rawActive.Some? {
      var selected := IntOf(rawActive.value);
      if selected.Err? {
        return Err(selected.error);
      }
      active := selected.value;
    }
    if active != 0 && active !in loaded.value {
      active := Smallest(loaded.value);
    }
    r := Ok(Kept(loaded.value, active));
  }

  // ---------------------------------------------------------------- the request

  method ReadRequest(raw: seq<byte>) returns (r: Result<Request, Reason>)
    ensures r == ParseRequest(raw)
  {
    var data := Tlv8Codec.Decode(raw);
    if data.Err? {
      return Err(BadData(BadTlv(data.error)));
    }
    var operation := ParseOperation(data.value);
    if operation.Err? {
      return Err(operation.error);
    }
    var config: Option<Target> := None;
    if LIST_TARGET_CONFIGURATION in data.value {
      var parsed := TargetCodec.ParseTargetRecord(data.value[LIST_TARGET_CONFIGURATION]);
      if parsed.Err? {
        return Err(BadData(parsed.error));
      }
      config := Some(parsed.value);
    }
    r := Ok(Request(operation.value, config));
  }

  /** The loop that pops the named buttons of a target. */
  method WithoutButtons(buttons: map<int, Button>, gone: map<int, Button>) returns (left: map<int, Button>)
    ensures left == buttons - gone.Keys
  {
    var ids := Ascending(gone.Keys);
    PopAll(buttons, gone.Keys);
    left := buttons;
    var n := 0;
    assert ids[0..] == ids;
    while n < |ids|
      invariant n <= |ids| && Same(Pop(buttons, ids), Pop(left, ids[n..]))
    {
      assert ids[n..][1..] == ids[n + 1..];
      left := left - {ids[n]};
      n := n + 1;
    }
  }

  // ---------------------------------------------------------------- the object

  class Controller {
    var targets: map<int, Target>
    var activeIdentifier: int
    var activeClient: Option<Client>
    var hdsConnections: map<int, Link>
    var connections: map<Link, Conn>
    var siriSession: Option<Speech>
    var file: Option<Json>

    ghost function View(): State
      reads this
    {
      State(targets, activeIdentifier, activeClient, hdsConnections, connections, siriSession, file)
    }

    constructor (file: Option<Json>)
      ensures View() == Boot(file)
    {
      targets := map[];
      activeIdentifier := 0;
      activeClient := None;
      hdsConnections := map[];
      connections := map[];
      siriSession := None;
      this.file := file;
      new;
      if file.Some? {
        var kept := ReadPayload(Loads(file.value));
        if kept.Ok? {
          targets := kept.value.targets;
          activeIdentifier := kept.value.active;
        } else {
          this.file := None;
        }
      }
    }

    method SaveTargets()
      modifies `file
      ensures View() == Save(old(View()))
    {
      file := Some(ToJson(Kept(targets, activeIdentifier)));
    }

    /** `_schedule_session_cancel` of the active session, if it is not closed. */
    method ScheduleSessionCancel()
      modifies `siriSession
      ensures View() == CancelSpeech(old(View()))
    {
      if siriSession.None? {
        return;
      }
      siriSession := Some(siriSession.value.(cancelling := true));
    }

    /** `HDSConnection.close`, and `_hds_connection_closed` behind it, which ends the session over it. */
    method CloseConnection(link: Link)
      modifies `connections, `hdsConnections, `siriSession
      ensures View() == Close(old(View()), link)
    {
      if link !in connections || connections[link].closed {
        return;
      }
      var conn := connections[link];
      connections := connections[link := conn.(closed := true)];
      if conn.identifier.Some? {
        var id := conn.identifier.value;
        if id in hdsConnections && hdsConnections[id] == link {
          hdsConnections := hdsConnections - {id};
        }
      }
      if siriSession.Some? && siriSession.value.link == link {
        siriSession := None;
      }
    }

    /** The loops of `close_for_client` and `close_all`. */
    method CloseAllOf(client: Option<Client>)
      modifies `connections, `hdsConnections, `siriSession
      ensures View() == CloseEach(old(View()), OpenOf(old(connections), client))
    {
      var all := OpenOf(connections, client);
      var n := 0;
      assert all[0..] == all;
      while n < |all|
        invariant n <= |all|
        invariant Same(CloseEach(old(View()), all), CloseEach(View(), all[n..]))
      {
        assert all[n..][1..] == all[n + 1..];
        CloseConnection(all[n]);
        n := n + 1;
      }
    }

    method SetActiveIdentifier(identifier: int) returns (outcome: Outcome)
      modifies this
      ensures After(View(), outcome) == SetActive(old(View()), identifier)
    {
      if !(0 <= identifier < UINT32) {
        return Rejected(OutOfRange);
      }
      if identifier != 0 && identifier !in targets {
        return Rejected(Unknown);
      }
      outcome := Done;
      if identifier == activeIdentifier {
        return;
      }
      var oldIdentifier := activeIdentifier;
      activeIdentifier := identifier;
      activeClient := None;
      SaveTargets();
      if siriSession.Some? && siriSession.value.target == oldIdentifier {
        ScheduleSessionCancel();
      }
    }

    method HapActiveIdentifierWrite(identifier: int, client: Option<Client>) returns (outcome: Outcome)
      modifies this
      ensures After(View(), outcome) == Apply(old(View()), SelectWrite(identifier, client))
    {
      if client.None? {
        return Rejected(NoContext);
      }
      outcome := SetActiveIdentifier(identifier);
    }

    method HapActiveWrite(on: bool, client: Option<Client>) returns (outcome: Outcome)
      modifies `activeClient, `siriSession
      ensures After(View(), outcome) == Activate(old(View()), on, client)
      ensures outcome.Done? ==> activeClient == if on then client else None
    {
      if activeIdentifier == 0 {
        return Rejected(NothingSelected);
      }
      if client.None? {
        return Rejected(NoContext);
      }
      outcome := Done;
      if on {
        activeClient := client;
        return;
      }
      if activeClient.Some? && client != activeClient {
        return Rejected(NotOwner);
      }
      activeClient := None;
      ScheduleSessionCancel();
    }

    method AddOne(config: Option<Target>) returns (why: Option<Reason>)
      modifies `targets, `activeIdentifier
      ensures Performs(old(View()), AddTarget(old(View()), config), View(), why)
    {
      if config.None? {
        return Some(NeedsConfig);
      }
      var t := config.value;
      if t.identifier !in targets && |targets| >= MAX_TARGETS {
        return Some(Full);
      }
      targets := targets[t.identifier := t];
      if activeIdentifier == 0 {
        activeIdentifier := t.identifier;
      }
      why := None;
    }

    method UpdateOne(config: Option<Target>) returns (why: Option<Reason>)
      modifies `targets
      ensures Performs(old(View()), UpdateTarget(old(View()), config), View(), why)
    {
      if config.None? || config.value.identifier !in targets {
        return Some(Unknown);
      }
      var t := config.value;
      var current := targets[t.identifier];
      if t.name.Some? {
        current := current.(name := t.name);
      }
      if t.category.Some? {
        current := current.(category := t.category);
      }
      if t.buttons != map[] {
        current := current.(buttons := current.buttons + t.buttons);
      } else {
        assert current.buttons + t.buttons == current.buttons;
      }
      targets := targets[t.identifier := current];
      why := None;
    }

    method RemoveOne(config: Option<Target>) returns (why: Option<Reason>)
      modifies this
      ensures Performs(old(View()), RemoveTarget(old(View()), config), View(), why)
    {
      if config.None? || config.value.identifier !in targets {
        return Some(Unknown);
      }
      why := None;
      var id := config.value.identifier;
      var current := targets[id];
      if config.value.buttons != map[] {
        var left := WithoutButtons(current.buttons, config.value.buttons);
        targets := targets[id := current.(buttons := left)];
        return;
      }
      targets := targets - {id};
      if id in hdsConnections {
        var link := hdsConnections[id];
        hdsConnections := hdsConnections - {id};
        CloseConnection(link);
      }
      if activeIdentifier == id {
        var _ := SetActiveIdentifier(Smallest(targets));
      }
    }

    method ResetTargets(config: Option<Target>) returns (why: Option<Reason>)
      modifies this
      ensures Performs(old(View()), ResetAll(old(View()), config), View(), why)
    {
      if config.Some? {
        return Some(UnwantedConfig);
      }
      targets := map[];
      CloseAllOf(None);
      hdsConnections := map[];
      activeIdentifier := 0;
      activeClient := None;
      ScheduleSessionCancel();
      why := None;
    }

    method PerformRequest(request: Request) returns (why: Option<Reason>)
      modifies this
      ensures Performs(old(View()), Perform(old(View()), request), View(), why)
    {
      match request.operation
      case Add => why := AddOne(request.config);
      case Update => why := UpdateOne(request.config);
      case Remove => why := RemoveOne(request.config);
      case Reset => why := ResetTargets(request.config);
      case ListAll => why := if request.config.Some? then Some(UnwantedConfig) else None;
      case Undefined => why := Some(BadOperation);
    }

    method HapTargetListWrite(raw: Option<seq<byte>>, admin: bool) returns (outcome: Outcome)
      modifies this
      ensures After(View(), outcome) == WriteList(old(View()), raw, admin)
      ensures !admin ==> outcome == Rejected(NotAdmin) && View() == old(View())
    {
      if !admin {
        return Rejected(NotAdmin);
      }
      if raw.None? {
        return Rejected(NotBase64);
      }
      var request := ReadRequest(raw.value);
      if request.Err? {
        return Rejected(request.error);
      }
      var why := PerformRequest(request.value);
      if why.Some? {
        return Rejected(why.value);
      }
      SaveTargets();
      if !PrintableTargets(targets) {
        return Unprintable;
      }
      var list := TargetCodec.TargetListValue(targets);
      outcome := Reply(list);
    }

    /** A connection made by the accept handler. */
    method Accept(link: Link, client: Client)
      requires link !in connections
      modifies `connections
      ensures View() == Apply(old(View()), Accepted(link, client)).state
    {
      connections := connections[link := Conn(client, false, None)];
    }

    /** `targetControl/whoami`, as dispatched by the server and handled by the remote. */
    method HdsWhoAmI(identifier: int, link: Link)
      requires link in connections
      modifies `connections, `hdsConnections, `siriSession
      ensures View() == Identify(old(View()), link, identifier)
    {
      connections := connections[link := connections[link].(identifier := Some(identifier))];
      if identifier <= 0 || identifier !in targets {
        CloseConnection(link);
        return;
      }
      if identifier in hdsConnections && hdsConnections[identifier] != link {
        CloseConnection(hdsConnections[identifier]);
      }
      hdsConnections := hdsConnections[identifier := link];
    }

    method HapConnectionLost(client: Client)
      modifies `connections, `hdsConnections, `activeClient, `siriSession
      ensures View() == LoseHap(old(View()), client)
    {
      CloseAllOf(Some(client));
      if activeClient == Some(client) {
        activeClient := None;
        ScheduleSessionCancel();
      }
    }

    /** What `start_siri` does with the lock: select, check, and note the session. */
    method StartSiri(target: Option<int>, advertised: bool) returns (outcome: Outcome)
      modifies this
      ensures After(View(), outcome) == StartSpeechTo(old(View()), target, advertised)
      ensures outcome.Done? ==> siriSession.Some?
    {
      if siriSession.Some? {
        return Rejected(Busy);
      }
      if target.Some? && target.value != activeIdentifier {
        outcome := SetActiveIdentifier(target.value);
        if outcome.Rejected? {
          return;
        }
      }
      if activeIdentifier == 0 {
        return Rejected(NothingSelected);
      }
      if activeClient.None? {
        return Rejected(NotActivated);
      }
      if activeIdentifier !in hdsConnections || !IsOpen(connections, hdsConnections[activeIdentifier]) {
        return Rejected(NoStream);
      }
      if !advertised {
        return Rejected(SiriDisabled);
      }
      siriSession := Some(Speech(activeIdentifier, hdsConnections[activeIdentifier], false));
      outcome := Done;
    }

    /** The session is closed. */
    method SessionClosed()
      modifies `siriSession
      ensures View() == Apply(old(View()), Silence).state
    {
      siriSession := None;
    }
  }

  /** An operation either succeeds with its new state or gives its reason and changes nothing. */
  ghost predicate Performs(before: State, done: Result<State, Reason>, after: State, why: Option<Reason>) {
    match done
    case Ok(s) => why == None && after == s
    case Err(e) => why == Some(e) && after == before
  }
}
