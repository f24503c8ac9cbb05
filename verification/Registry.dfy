/**
 The target registry of the remote: which Apple TVs are configured, which one is
 selected, who activated it, which data streams belong to it, and what is saved.
 Every operation is a step on one state value.
 */
module Registry {
  import opened Bytes
  import opened Dicts
  import opened JsonValues
  import opened Tlv8
  import opened Targets
  import opened SavedTargets

  const LIST_OPERATION: byte := 0x01

  /** `TargetOperation`; 0 is a name without a meaning. */
  datatype Operation = Undefined | ListAll | Add | Remove | Reset | Update

  /** A HAP session and a data-stream connection are known by number. */
  type Client = int
  type Link = int

  /** A data stream: the HAP session it derives from, and who it says it is. */
  datatype Conn = Conn(client: Client, closed: bool, identifier: Option<int>)

  /**
   A Siri session that is not closed: whom it speaks to and over which data stream, and
   whether its cancellation is scheduled.
   */
  datatype Speech = Speech(target: int, link: Link, cancelling: bool)

  datatype State = State(
    targets: map<int, Target>,
    active: int,
    client: Option<Client>,
    links: map<int, Link>,
    conns: map<Link, Conn>,
    speech: Option<Speech>,
    saved: Option<Json>)

  datatype Reason =
    | NotAdmin | NotBase64 | BadData(error: ParseError) | BadOperation
    | NeedsConfig | Full | Unknown | UnwantedConfig
    | OutOfRange | NoContext | NothingSelected | NotOwner
    | Busy | NotActivated | NoStream | SiriDisabled

  /** `Unprintable`: the write was performed and saved, and then its reply raised. */
  datatype Outcome = Done | Reply(data: seq<byte>) | Unprintable | Rejected(why: Reason)

  datatype After = After(state: State, outcome: Outcome)

  datatype Request = Request(operation: Operation, config: Option<Target>)

  datatype Step =
    | ListWrite(raw: Option<seq<byte>>, admin: bool)        // None: not base64
    | Select(identifier: int)                               // set_active_identifier
    | SelectWrite(identifier: int, from: Option<Client>)    // hap_active_identifier_write
    | ActiveWrite(on: bool, from: Option<Client>)           // hap_active_write
    | Accepted(link: Link, client: Client)                  // HDSServer._accept made a connection
    | WhoAmI(link: Link, identifier: int)                   // targetControl/whoami
    | Closed(link: Link)                                    // HDSConnection.close
    | HapLost(client: Client)                               // _hap_connection_lost
    | Speak(advertised: bool)                               // start_siri, with the lock
    | Silence                                               // the Siri session is closed
    | Restart

  // ---------------------------------------------------------------- connections

  predicate IsOpen(conns: map<Link, Conn>, link: Link) {
    link in conns && !conns[link].closed
  }

  /** The links left once a connection is gone: its own entry goes, if it still is its own. */
  function Unlinked(links: map<int, Link>, link: Link, identifier: Option<int>): map<int, Link> {
    if identifier.Some? && identifier.value in links && links[identifier.value] == link
    then links - {identifier.value}
    else links
  }

  /** `HDSConnection.close` and the callbacks it runs. */
  function Close(s: State, link: Link): State {
    if !IsOpen(s.conns, link) then s
    else
      var conn := s.conns[link];
      s.(
        conns := s.conns[link := conn.(closed := true)],
        links := Unlinked(s.links, link, conn.identifier),
        speech := if s.speech.Some? && s.speech.value.link == link then None else s.speech)
  }

  function CloseEach(s: State, links: seq<Link>): State
    decreases |links|
  {
    if links == [] then s else CloseEach(Close(s, links[0]), links[1..])
  }

  /** The open connections of `client`, or all of them. */
  function OpenOf(conns: map<Link, Conn>, client: Option<Client>): seq<Link> {
    Ascending(set link | link in conns && !conns[link].closed && (client.None? || conns[link].client == client.value))
  }

  // ---------------------------------------------------------------- selection

  /** `_save_targets`. */
  function Save(s: State): State {
    s.(saved := Some(ToJson(Kept(s.targets, s.active))))
  }

  /** `_schedule_session_cancel` of the active session. */
  function CancelSpeech(s: State): State {
    s.(speech := match s.speech case Some(speech) => Some(speech.(cancelling := true)) case None => None)
  }

  /** `set_active_identifier`: another selection is saved, deactivates, and cancels the session of the old one. */
  function SetActive(s: State, identifier: int): After {
    if !(0 <= identifier < UINT32) then After(s, Rejected(OutOfRange))
    else if identifier != 0 && identifier !in s.targets then After(s, Rejected(Unknown))
    else if identifier == s.active then After(s, Done)
    else
      var s1 := Save(s.(active := identifier, client := None));
      After(if s.speech.Some? && s.speech.value.target == s.active then CancelSpeech(s1) else s1, Done)
  }

  /** `hap_active_write`. */
  function Activate(s: State, on: bool, from: Option<Client>): After {
    if s.active == 0 then After(s, Rejected(NothingSelected))
    else if from.None? then After(s, Rejected(NoContext))
    else if on then After(s.(client := from), Done)
    else if s.client.Some? && s.client != from then After(s, Rejected(NotOwner))
    else After(CancelSpeech(s.(client := None)), Done)
  }

  /** The checks of `start_siri` and, where they pass, its session. */
  function StartSpeech(s: State, advertised: bool): After {
    if s.speech.Some? then After(s, Rejected(Busy))
    else if s.active == 0 then After(s, Rejected(NothingSelected))
    else if s.client.None? then After(s, Rejected(NotActivated))
    else if s.active !in s.links || !IsOpen(s.conns, s.links[s.active]) then After(s, Rejected(NoStream))
    else if !advertised then After(s, Rejected(SiriDisabled))
    else After(s.(speech := Some(Speech(s.active, s.links[s.active], false))), Done)
  }

  /** `start_siri(target=...)`: with the lock, another target is selected first. */
  function StartSpeechTo(s: State, target: Option<int>, advertised: bool): After {
    if s.speech.Some? then After(s, Rejected(Busy))
    else if target.None? || target.value == s.active then StartSpeech(s, advertised)
    else
      var selected := SetActive(s, target.value);
      if selected.outcome.Rejected? then selected else StartSpeech(selected.state, advertised)
  }

  // ---------------------------------------------------------------- target-list writes

  function OperationOf(n: byte): Result<Operation, Reason> {
    match n
    case 0 => Ok(Undefined)
    case 1 => Ok(ListAll)
    case 2 => Ok(Add)
    case 3 => Ok(Remove)
    case 4 => Ok(Reset)
    case 5 => Ok(Update)
    case _ => Err(BadOperation)
  }

  function ParseConfig(data: map<byte, seq<byte>>): Result<Option<Target>, Reason> {
    if LIST_TARGET_CONFIGURATION !in data then Ok(None)
    else
      match ParseTarget(data[LIST_TARGET_CONFIGURATION])
      case Ok(t) => Ok(Some(t))
      case Err(e) => Err(BadData(e))
  }

  function ParseOperation(data: map<byte, seq<byte>>): Result<Operation, Reason> {
    match Required(data, LIST_OPERATION)
    case Err(e) => Err(BadData(e))
    case Ok(raw) => if |raw| != 1 then Err(BadOperation) else OperationOf(raw[0])
  }

  function ParseRequest(raw: seq<byte>): Result<Request, Reason> {
    match DecodeMap(raw)
    case Err(e) => Err(BadData(BadTlv(e)))
    case Ok(data) =>
      var operation :- ParseOperation(data);
      var config :- ParseConfig(data);
      Ok(Request(operation, config))
  }

  function AddTarget(s: State, config: Option<Target>): Result<State, Reason> {
    if config.None? then Err(NeedsConfig)
    else
      var t := config.value;
      if t.identifier !in s.targets && |s.targets| >= MAX_TARGETS then Err(Full)
      else Ok(s.(targets := s.targets[t.identifier := t], active := if s.active == 0 then t.identifier else s.active))
  }

  /** Fields given in the update win; buttons are merged. */
  function Merged(current: Target, config: Target): Target {
    Target(
      current.identifier,
      if config.name.Some? then config.name else current.name,
      if config.category.Some? then config.category else current.category,
      current.buttons + config.buttons)
  }

  function UpdateTarget(s: State, config: Option<Target>): Result<State, Reason> {
    if config.None? || config.value.identifier !in s.targets then Err(Unknown)
    else
      var id := config.value.identifier;
      Ok(s.(targets := s.targets[id := Merged(s.targets[id], config.value)]))
  }

  /** Closing the data stream of a target that is being removed. */
  function DropLink(s: State, id: int): State {
    if id !in s.links then s else Close(s.(links := s.links - {id}), s.links[id])
  }

  /** With buttons, only those go; without, the target goes, its data stream is closed and the selection moves on. */
  function RemoveTarget(s: State, config: Option<Target>): Result<State, Reason> {
    if config.None? || config.value.identifier !in s.targets then Err(Unknown)
    else
      var id := config.value.identifier;
      var current := s.targets[id];
      if config.value.buttons != map[] then
        Ok(s.(targets := s.targets[id := current.(buttons := current.buttons - config.value.buttons.Keys)]))
      else
        var s1 := DropLink(s.(targets := s.targets - {id}), id);
        Ok(if s1.active == id then SetActive(s1, Smallest(s1.targets)).state else s1)
  }

  function ResetAll(s: State, config: Option<Target>): Result<State, Reason> {
    if config.Some? then Err(UnwantedConfig)
    else
      var s1 := CloseEach(s.(targets := map[]), OpenOf(s.conns, None));
      Ok(CancelSpeech(s1.(links := map[], active := 0, client := None)))
  }

  /** What a well-formed request does, before saving. */
  function Perform(s: State, request: Request): Result<State, Reason> {
    match request.operation
    case Add => AddTarget(s, request.config)
    case Update => UpdateTarget(s, request.config)
    case Remove => RemoveTarget(s, request.config)
    case Reset => ResetAll(s, request.config)
    case ListAll => if request.config.Some? then Err(UnwantedConfig) else Ok(s)
    case Undefined => Err(BadOperation)
  }

  /** The request of a write by an administrator, or why there is none. */
  function Admitted(raw: Option<seq<byte>>, admin: bool): Result<Request, Reason> {
    if !admin then Err(NotAdmin) else if raw.None? then Err(NotBase64) else ParseRequest(raw.value)
  }

  /** `hap_target_list_write`: perform, save, and answer with the whole list. */
  function WriteList(s: State, raw: Option<seq<byte>>, admin: bool): After {
    var request := Admitted(raw, admin);
    if request.Err? then After(s, Rejected(request.error))
    else
      var done := Perform(s, request.value);
      if done.Err? then After(s, Rejected(done.error))
      else
        After(Save(done.value),
              if PrintableTargets(done.value.targets) then Reply(PrintTargets(done.value.targets)) else Unprintable)
  }

  // ---------------------------------------------------------------- data streams

  /** `_hds_whoami`, after the connection noted the identifier. */
  function Identify(s: State, link: Link, identifier: int): State {
    if link !in s.conns then s
    else
      var s1 := s.(conns := s.conns[link := s.conns[link].(identifier := Some(identifier))]);
      if identifier <= 0 || identifier !in s1.targets then Close(s1, link)
      else
        var other := identifier in s1.links && s1.links[identifier] != link;
        var s2 := if other then Close(s1, s1.links[identifier]) else s1;
        s2.(links := s2.links[identifier := link])
  }

  /** `_hap_connection_lost`. */
  function LoseHap(s: State, client: Client): State {
    var s1 := CloseEach(s, OpenOf(s.conns, Some(client)));
    if s1.client == Some(client) then CancelSpeech(s1.(client := None)) else s1
  }

  /** A new process: only the file survives, and an unusable one is moved away. */
  function Boot(file: Option<Json>): State {
    var kept := Load(file);
    State(
      kept.targets, kept.active, None, map[], map[], None,
      if file.Some? && LoadPayload(Loads(file.value)).Err? then None else file)
  }

  function Apply(s: State, step: Step): After {
    match step
    case ListWrite(raw, admin) => WriteList(s, raw, admin)
    case Select(identifier) => SetActive(s, identifier)
    case SelectWrite(identifier, from) => if from.None? then After(s, Rejected(NoContext)) else SetActive(s, identifier)
    case ActiveWrite(on, from) => Activate(s, on, from)
    case Accepted(link, client) =>
      After(if link in s.conns then s else s.(conns := s.conns[link := Conn(client, false, None)]), Done)
    case WhoAmI(link, identifier) => After(Identify(s, link, identifier), Done)
    case Closed(link) => After(Close(s, link), Done)
    case HapLost(client) => After(LoseHap(s, client), Done)
    case Speak(advertised) => StartSpeech(s, advertised)
    case Silence => After(s.(speech := None), Done)
    case Restart => After(Boot(s.saved), Done)
  }

  function Run(s: State, steps: seq<Step>): State
    decreases |steps|
  {
    if steps == [] then s else Run(Apply(s, steps[0]).state, steps[1..])
  }
}
