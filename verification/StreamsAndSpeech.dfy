/**
 What every step of the remote does to its data streams and its Siri session: which streams
 stay open, which of them speaks for a target, and when a session ends or is cancelled.
 */
module StreamsAndSpeech {
  import opened Bytes
  import opened SavedTargets
  import opened Targets
  import opened Registry
  import opened RegistryProofs

  /** The open data stream that speaks for a target. */
  predicate Live(s: State, id: int, link: Link) {
    id in s.links && s.links[id] == link && IsOpen(s.conns, link)
  }

  /** The steps that shut a data stream. */
  predicate Shuts(s: State, step: Step, link: Link) {
    match step
    case Closed(other) => other == link
    case HapLost(client) => link in s.conns && s.conns[link].client == client
    case WhoAmI(other, id) =>
      other in s.conns && if other == link then !MayClaim(s, id) else MayClaim(s, id) && Live(s, id, link)
    case ListWrite(raw, admin) => !Apply(s, step).outcome.Rejected? && Drops(s, Admitted(raw, admin), link)
    case Restart => true
    case _ => false
  }

  predicate MayClaim(s: State, id: int) {
    id > 0 && id in s.targets
  }

  /** The removal of the target it speaks for, or a reset. */
  predicate Drops(s: State, request: Result<Request, Reason>, link: Link) {
    && request.Ok?
    && match request.value.operation
       case Reset => true
       case Remove =>
         && request.value.config.Some? && request.value.config.value.buttons == map[]
         && Live(s, request.value.config.value.identifier, link)
       case _ => false
  }

  /** A data stream is open after a step if it was and the step does not shut it, or if it is new. */
  predicate OpenAfter(s: State, step: Step, link: Link) {
    if step.Accepted? && step.link == link && link !in s.conns then true
    else IsOpen(s.conns, link) && !Shuts(s, step, link)
  }

  /** It speaks for a target if it is open and did before, or just said so. */
  predicate LiveAfter(s: State, step: Step, t: State, id: int, link: Link) {
    && IsOpen(t.conns, link)
    && (Live(s, id, link) || (step == WhoAmI(link, id) && MayClaim(s, id) && IsOpen(s.conns, link)))
  }

  /** What a step that ends no session by itself makes of one: it stays while its data stream is open. */
  predicate Fares(s: State, t: State) {
    match s.speech
    case None => t.speech.None?
    case Some(speech) =>
      if IsOpen(t.conns, speech.link) then
        t.speech == Some(Speech(speech.target, speech.link, speech.cancelling || t.client.None?))
      else t.speech.None?
  }

  // ---------------------------------------------------------------- closing

  lemma {:induction false} CloseExactly(s: State, link: Link, l: Link, id: int)
    ensures var t := Close(s, link);
            && (IsOpen(t.conns, l) <==> IsOpen(s.conns, l) && l != link)
            && (Live(t, id, l) <==> Live(s, id, l) && l != link)
            && t.speech == if s.speech.Some? && s.speech.value.link == link && IsOpen(s.conns, link) then None
                           else s.speech
  {
  }

  /** Closing an open data stream forgets the link it last named, if that still is its own, and no other. */
  lemma {:induction false} CloseForgets(s: State, link: Link, id: int)
    ensures var t := Apply(s, Closed(link)).state;
            && (id in t.links <==>
                  id in s.links
                  && !(IsOpen(s.conns, link) && s.conns[link].identifier == Some(id) && s.links[id] == link))
            && (id in t.links ==> t.links[id] == s.links[id])
  {
  }

  lemma {:induction false} CloseEachExactly(s: State, links: seq<Link>, l: Link, id: int)
    ensures var t := CloseEach(s, links);
            && (IsOpen(t.conns, l) <==> IsOpen(s.conns, l) && l !in links)
            && (Live(t, id, l) <==> Live(s, id, l) && l !in links)
    decreases |links|
  {
    if links == [] {
    } else {
      CloseExactly(s, links[0], l, id);
      CloseEachExactly(Close(s, links[0]), links[1..], l, id);
      assert l in links <==> l == links[0] || l in links[1..];
    }
  }

  lemma {:induction false} CloseFares(s: State, link: Link)
    requires SpeechInPlace(s)
    ensures Fares(s, Close(s, link)) && SpeechInPlace(Close(s, link))
  {
    CloseKeepsSpeech(s, link);
  }

  lemma {:induction false} FaresOn(s: State, t: State, u: State)
    requires Fares(s, t) && Fares(t, u) && (t.client.None? ==> u.client.None?)
    requires s.speech.Some? && IsOpen(u.conns, s.speech.value.link) ==> IsOpen(t.conns, s.speech.value.link)
    ensures Fares(s, u)
  {
  }

  lemma {:induction false} CloseEachFares(s: State, links: seq<Link>)
    requires SpeechInPlace(s)
    ensures Fares(s, CloseEach(s, links))
    decreases |links|
  {
    if links == [] {
    } else {
      var t := Close(s, links[0]);
      CloseFares(s, links[0]);
      CloseEachFares(t, links[1..]);
      CloseEachKeeps(t, links[1..]);
      LinksMeanNothing(s, links[0], 0);
      if s.speech.Some? {
        CloseExactly(s, links[0], s.speech.value.link, 0);
        CloseEachExactly(t, links[1..], s.speech.value.link, 0);
      }
      FaresOn(s, t, CloseEach(t, links[1..]));
    }
  }

  // ---------------------------------------------------------------- each operation

  /** Only the session may change, and only with the activation. */
  predicate Still(s: State, t: State) {
    t.conns == s.conns && t.links == s.links && Fares(s, t)
  }

  lemma {:induction false} SelectIsStill(s: State, identifier: int)
    requires SpeechInPlace(s)
    ensures Still(s, SetActive(s, identifier).state)
  {
    if 0 <= identifier < UINT32 && (identifier == 0 || identifier in s.targets) && identifier != s.active {
      MovesTo(s, identifier);
    } else {
      StaysPut(s, identifier);
    }
  }

  lemma {:induction false} StaysPut(s: State, identifier: int)
    requires !(0 <= identifier < UINT32 && (identifier == 0 || identifier in s.targets) && identifier != s.active)
    ensures SetActive(s, identifier).state == s
  {
  }

  lemma {:induction false} ActivateIsStill(s: State, on: bool, from: Option<Client>)
    requires SpeechInPlace(s)
    ensures Still(s, Activate(s, on, from).state)
  {
  }

  lemma {:induction false} IdentifyExactly(s: State, link: Link, identifier: int, l: Link, id: int)
    ensures var t, step := Identify(s, link, identifier), WhoAmI(link, identifier);
            && (IsOpen(t.conns, l) <==> OpenAfter(s, step, l))
            && (Live(t, id, l) <==> LiveAfter(s, step, t, id, l))
  {
    if link in s.conns {
      var s1 := s.(conns := s.conns[link := s.conns[link].(identifier := Some(identifier))]);
      CloseExactly(s1, link, l, id);
      if identifier in s1.links {
        CloseExactly(s1, s1.links[identifier], l, id);
      }
    }
  }

  lemma {:induction false} IdentifyFares(s: State, link: Link, identifier: int)
    requires SpeechInPlace(s)
    ensures Fares(s, Identify(s, link, identifier))
  {
    if link in s.conns {
      var s1 := s.(conns := s.conns[link := s.conns[link].(identifier := Some(identifier))]);
      CloseFares(s1, link);
      if identifier in s1.links {
        CloseFares(s1, s1.links[identifier]);
      }
    }
  }

  lemma {:induction false} LossExactly(s: State, client: Client, l: Link, id: int)
    ensures var t := LoseHap(s, client);
            && (IsOpen(t.conns, l) <==> OpenAfter(s, HapLost(client), l))
            && (Live(t, id, l) <==> LiveAfter(s, HapLost(client), t, id, l))
  {
    var ids := OpenOf(s.conns, Some(client));
    OpenOfHas(s.conns, Some(client), l);
    CloseEachExactly(s, ids, l, id);
  }

  lemma {:induction false} CancelFares(s: State)
    ensures Fares(s, CancelSpeech(s.(client := None))) || (s.speech.Some? && !IsOpen(s.conns, s.speech.value.link))
  {
  }

  lemma {:induction false} LossFares(s: State, client: Client)
    requires SpeechInPlace(s)
    ensures Fares(s, LoseHap(s, client))
  {
    var ids := OpenOf(s.conns, Some(client));
    var s1 := CloseEach(s, ids);
    CloseEachFares(s, ids);
    CloseEachKeepsSpeech(s, ids);
    CancelFares(s1);
    if s1.client == Some(client) {
      FaresOn(s, s1, LoseHap(s, client));
    }
  }

  // ---------------------------------------------------------------- writes

  /** The data stream of a target that goes. */
  predicate Speaks(s: State, id: int, link: Link) {
    id in s.links && s.links[id] == link
  }

  lemma {:induction false} DropExactly(s: State, id: int, l: Link, k: int)
    ensures var t := Dropped(s, id);
            && (IsOpen(t.conns, l) <==> IsOpen(s.conns, l) && !Speaks(s, id, l))
            && (Live(t, k, l) <==> Live(s, k, l) && !Speaks(s, id, l))
  {
    if id in s.links {
      CloseExactly(s.(targets := s.targets - {id}, links := s.links - {id}), s.links[id], l, k);
    }
  }

  lemma {:induction false} DropFares(s: State, id: int)
    requires SpeechInPlace(s)
    ensures Fares(s, Dropped(s, id))
  {
    if id in s.links {
      CloseFares(s.(targets := s.targets - {id}, links := s.links - {id}), s.links[id]);
    }
  }

  /** What becomes of the registry when a target goes. */
  function Removal(s: State, id: int): State {
    var s1 := Dropped(s, id);
    if s1.active == id then SetActive(s1, Smallest(s1.targets)).state else s1
  }

  lemma {:induction false} RemovalExactly(s: State, id: int, l: Link, k: int)
    requires SpeechInPlace(s)
    ensures var t := Removal(s, id);
            && (IsOpen(t.conns, l) <==> IsOpen(s.conns, l) && !Speaks(s, id, l))
            && (Live(t, k, l) <==> Live(s, k, l) && !Speaks(s, id, l))
  {
    DropExactly(s, id, l, k);
    DropLinkKeepsSpeech(s, id);
    SelectIsStill(Dropped(s, id), Smallest(Dropped(s, id).targets));
  }

  lemma {:induction false} SelectOnlyDeactivates(s: State, identifier: int)
    ensures s.client.None? ==> SetActive(s, identifier).state.client.None?
  {
  }

  lemma {:induction false} RemovalFares(s: State, id: int)
    requires SpeechInPlace(s)
    ensures Fares(s, Removal(s, id))
  {
    var s1 := Dropped(s, id);
    DropFares(s, id);
    DropLinkKeepsSpeech(s, id);
    if s1.active == id {
      var smallest := Smallest(s1.targets);
      SelectIsStill(s1, smallest);
      SelectOnlyDeactivates(s1, smallest);
      FaresOn(s, s1, SetActive(s1, smallest).state);
    }
  }

  lemma {:induction false} ResetShutsAll(s: State, l: Link)
    ensures !IsOpen(Perform(s, Request(Reset, None)).value.conns, l)
  {
    ResetEffect(s);
  }

  lemma {:induction false} ResetFares(s: State)
    requires SpeechInPlace(s)
    ensures Fares(s, Perform(s, Request(Reset, None)).value)
  {
    var s0, ids := s.(targets := map[]), OpenOf(s.conns, None);
    var s1 := CloseEach(s0, ids);
    CloseEachFares(s0, ids);
    if s.speech.Some? {
      ResetShutsAll(s, s.speech.value.link);
    }
  }

  /** The state a write leaves, saving apart. */
  lemma {:induction false} WriteLeaves(s: State, raw: Option<seq<byte>>, admin: bool)
    ensures var t, request := Apply(s, ListWrite(raw, admin)), Admitted(raw, admin);
            if request.Ok? && Perform(s, request.value).Ok? then
              var u := Perform(s, request.value).value;
              && !t.outcome.Rejected? && t.state.conns == u.conns && t.state.links == u.links
              && t.state.speech == u.speech && t.state.client == u.client
            else t.outcome.Rejected? && t.state == s
  {
  }

  lemma {:induction false} PerformExactly(s: State, request: Request, l: Link, id: int)
    requires SpeechInPlace(s) && Perform(s, request).Ok?
    ensures var t := Perform(s, request).value;
            && (IsOpen(t.conns, l) <==> IsOpen(s.conns, l) && !Drops(s, Ok(request), l))
            && (Live(t, id, l) <==> IsOpen(t.conns, l) && Live(s, id, l))
            && Fares(s, t)
  {
    if request.operation.Remove? && request.config.value.buttons == map[] {
      RemovalExactly(s, request.config.value.identifier, l, id);
      RemovalFares(s, request.config.value.identifier);
    } else if request.operation.Reset? {
      ResetShutsAll(s, l);
      ResetFares(s);
    }
  }

  lemma {:induction false} WriteExactly(s: State, raw: Option<seq<byte>>, admin: bool, l: Link, id: int)
    requires SpeechInPlace(s)
    ensures var t, step := Apply(s, ListWrite(raw, admin)).state, ListWrite(raw, admin);
            && (IsOpen(t.conns, l) <==> OpenAfter(s, step, l))
            && (Live(t, id, l) <==> LiveAfter(s, step, t, id, l))
            && Fares(s, t)
  {
    var request := Admitted(raw, admin);
    WriteLeaves(s, raw, admin);
    if request.Ok? && Perform(s, request.value).Ok? {
      PerformExactly(s, request.value, l, id);
    }
  }

  // ---------------------------------------------------------------- every step

  lemma {:induction false} AcceptExactly(s: State, step: Step, l: Link, id: int)
    requires step.Accepted? || step.Restart? || step.Speak? || step.Silence?
    ensures var t := Apply(s, step).state;
            && (IsOpen(t.conns, l) <==> OpenAfter(s, step, l))
            && (LinksRegistered(s) ==> (Live(t, id, l) <==> LiveAfter(s, step, t, id, l)))
  {
  }

  lemma {:induction false} StillExactly(s: State, step: Step, l: Link, id: int)
    requires Inv(s) && (step.Select? || step.SelectWrite? || step.ActiveWrite?)
    ensures var t := Apply(s, step).state;
            && (IsOpen(t.conns, l) <==> OpenAfter(s, step, l))
            && (Live(t, id, l) <==> LiveAfter(s, step, t, id, l))
  {
    if step.ActiveWrite? {
      ActivateIsStill(s, step.on, step.from);
    } else {
      SelectIsStill(s, step.identifier);
    }
  }

  /**
   After any step of a sound registry: a data stream is open exactly if it was and the step
   does not shut it, or if it is new; and it speaks for a target exactly if it is open and
   did before, or has just said so.
   */
  lemma {:induction false} StreamsExactly(s: State, step: Step, l: Link, id: int)
    requires Inv(s)
    ensures var t := Apply(s, step).state;
            && (IsOpen(t.conns, l) <==> OpenAfter(s, step, l))
            && (Live(t, id, l) <==> LiveAfter(s, step, t, id, l))
  {
    if step.ListWrite? {
      WriteExactly(s, step.raw, step.admin, l, id);
    } else if step.Select? || step.SelectWrite? || step.ActiveWrite? {
      StillExactly(s, step, l, id);
    } else if step.WhoAmI? {
      IdentifyExactly(s, step.link, step.identifier, l, id);
    } else if step.Closed? {
      CloseExactly(s, step.link, l, id);
    } else if step.HapLost? {
      LossExactly(s, step.client, l, id);
    } else {
      AcceptExactly(s, step, l, id);
    }
  }

  /** Selecting works for no target and for registered ones; another than before deactivates. */
  lemma {:induction false} SelectExactly(s: State, identifier: int)
    requires Inv(s)
    ensures var r := Apply(s, Select(identifier));
            && (r.outcome == Done <==> identifier == 0 || identifier in s.targets)
            && (r.outcome != Done ==> r.outcome.Rejected? && r.state == s)
            && (r.outcome == Done ==>
                  && r.state.active == identifier && r.state.targets == s.targets
                  && r.state.client == (if identifier == s.active then s.client else None)
                  && Load(r.state.saved) == Kept(s.targets, identifier))
  {
    SetActiveKeeps(s, identifier);
    SelectMeans(s, identifier);
    if identifier in s.targets {
      assert FitsUnder(identifier, s.targets[identifier]);
    }
  }

  /**
   And its Siri session: a start that may happen opens one over the stream of the selected
   target, and its own end ends it; any other step ends it exactly with its data stream, and
   otherwise schedules its cancellation exactly if nobody has activated the target after it.
   */
  lemma {:induction false} SpeechExactly(s: State, step: Step)
    requires Inv(s)
    ensures var t := Apply(s, step).state;
            match step
            case Speak(advertised) =>
              t.speech == if MayStart(s, None, advertised) then Some(Speech(s.active, s.links[s.active], false))
                          else s.speech
            case Silence => t.speech.None?
            case _ => Fares(s, t)
  {
    match step
    case ListWrite(raw, admin) => WriteExactly(s, raw, admin, 0, 0);
    case Select(identifier) => SelectIsStill(s, identifier);
    case SelectWrite(identifier, _) => SelectIsStill(s, identifier);
    case ActiveWrite(on, from) => ActivateIsStill(s, on, from);
    case WhoAmI(link, identifier) => IdentifyFares(s, link, identifier);
    case Closed(link) => CloseFares(s, link);
    case HapLost(client) => LossFares(s, client);
    case Speak(advertised) => StartsHere(s, None, advertised);
    case _ =>
  }

  // ---------------------------------------------------------------- whose data stream

  /** A data stream of this HAP session. */
  predicate Owned(s: State, link: Link, client: Client) {
    link in s.conns && s.conns[link].client == client
  }

  lemma {:induction false} CloseEachOwns(s: State, links: seq<Link>, link: Link, client: Client)
    ensures Owned(CloseEach(s, links), link, client) <==> Owned(s, link, client)
  {
    CloseEachEffect(s, links);
  }

  lemma {:induction false} SelectOwns(s: State, identifier: int)
    ensures SetActive(s, identifier).state.conns == s.conns
  {
  }

  lemma {:induction false} RemovalOwns(s: State, id: int, link: Link, client: Client)
    ensures Owned(Removal(s, id), link, client) <==> Owned(s, link, client)
  {
    SelectOwns(Dropped(s, id), Smallest(Dropped(s, id).targets));
  }

  lemma {:induction false} ResetOwns(s: State, link: Link, client: Client)
    ensures Owned(Perform(s, Request(Reset, None)).value, link, client) <==> Owned(s, link, client)
  {
    CloseEachOwns(s.(targets := map[]), OpenOf(s.conns, None), link, client);
  }

  lemma {:induction false} PerformOwns(s: State, request: Request, link: Link, client: Client)
    requires Perform(s, request).Ok?
    ensures Owned(Perform(s, request).value, link, client) <==> Owned(s, link, client)
  {
    if request.operation.Remove? && request.config.value.buttons == map[] {
      RemovalOwns(s, request.config.value.identifier, link, client);
    } else if request.operation.Reset? {
      ResetOwns(s, link, client);
    }
  }

  lemma {:induction false} WriteOwns(s: State, raw: Option<seq<byte>>, admin: bool, link: Link, client: Client)
    ensures Owned(Apply(s, ListWrite(raw, admin)).state, link, client) <==> Owned(s, link, client)
  {
    var request := Admitted(raw, admin);
    WriteLeaves(s, raw, admin);
    if request.Ok? && Perform(s, request.value).Ok? {
      PerformOwns(s, request.value, link, client);
    }
  }

  lemma {:induction false} QuietOwns(s: State, step: Step, link: Link, client: Client)
    requires !step.ListWrite? && !step.Select? && !step.SelectWrite? && !step.HapLost?
    ensures Owned(Apply(s, step).state, link, client) <==>
              || (step == Accepted(link, client) && link !in s.conns)
              || (Owned(s, link, client) && !step.Restart?)
  {
  }

  /** A data stream belongs to the HAP session it was accepted for, until a restart. */
  lemma {:induction false} OwnersExactly(s: State, step: Step, link: Link, client: Client)
    ensures Owned(Apply(s, step).state, link, client) <==>
              || (step == Accepted(link, client) && link !in s.conns)
              || (Owned(s, link, client) && !step.Restart?)
  {
    if step.ListWrite? {
      WriteOwns(s, step.raw, step.admin, link, client);
    } else if step.Select? || step.SelectWrite? {
      SelectOwns(s, step.identifier);
    } else if step.HapLost? {
      CloseEachOwns(s, OpenOf(s.conns, Some(step.client)), link, client);
    } else {
      QuietOwns(s, step, link, client);
    }
  }
}
