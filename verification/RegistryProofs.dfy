/**
 What holds of the registry in every run of target-list writes, selections,
 activations, data streams coming and going, and restarts.
 */
module RegistryProofs {
  import opened Bytes
  import opened Dicts
  import opened JsonValues
  import opened Tlv8
  import opened Targets
  import TargetProofs
  import Tlv8Proofs
  import opened SavedTargets
  import opened Registry

  function KeptOf(s: State): Kept {
    Kept(s.targets, s.active)
  }

  /** The file holds exactly what memory does. */
  predicate InSync(s: State) {
    Load(s.saved) == KeptOf(s)
  }

  predicate LinksRegistered(s: State) {
    forall id | id in s.links :: id in s.targets && s.links[id] in s.conns
  }

  /**
   A Siri session is open only over an open data stream; and it speaks to the target that is
   selected and activated, or is being cancelled.
   */
  predicate SpeechInPlace(s: State) {
    s.speech.Some? ==>
      var speech := s.speech.value;
      IsOpen(s.conns, speech.link) && (speech.cancelling || (s.client.Some? && speech.target == s.active))
  }

  /** All of the invariant but what saving restores. */
  predicate Mostly(s: State) {
    GoodKept(KeptOf(s)) && (s.client.Some? ==> s.active != 0) && LinksRegistered(s) && SpeechInPlace(s)
  }

  predicate Inv(s: State) {
    Mostly(s) && InSync(s)
  }

  // ---------------------------------------------------------------- closing connections

  /** Closing connections marks exactly those closed, and only ever removes links. */
  lemma {:induction false} CloseEachEffect(s: State, links: seq<Link>)
    ensures var r := CloseEach(s, links);
            && (forall id | id in r.links :: id in s.links && r.links[id] == s.links[id])
            && r.conns.Keys == s.conns.Keys
            && (forall c | c in s.conns :: r.conns[c] == s.conns[c].(closed := s.conns[c].closed || c in links))
    decreases |links|
  {
    if links == [] {
    } else {
      CloseEachEffect(Close(s, links[0]), links[1..]);
    }
  }

  lemma {:induction false} CloseEachKeeps(s: State, links: seq<Link>)
    ensures var r := CloseEach(s, links);
            r.targets == s.targets && r.active == s.active && r.client == s.client && r.saved == s.saved
    decreases |links|
  {
    if links == [] {
    } else {
      CloseEachKeeps(Close(s, links[0]), links[1..]);
    }
  }

  lemma {:induction false} CloseEachKeepsLinks(s: State, links: seq<Link>)
    requires LinksRegistered(s)
    ensures LinksRegistered(CloseEach(s, links))
  {
    CloseEachKeeps(s, links);
    CloseEachEffect(s, links);
  }

  lemma {:induction false} CloseKeepsSpeech(s: State, link: Link)
    requires SpeechInPlace(s)
    ensures SpeechInPlace(Close(s, link))
  {
  }

  lemma {:induction false} CloseEachKeepsSpeech(s: State, links: seq<Link>)
    requires SpeechInPlace(s)
    ensures SpeechInPlace(CloseEach(s, links))
    decreases |links|
  {
    if links == [] {
    } else {
      CloseKeepsSpeech(s, links[0]);
      CloseEachKeepsSpeech(Close(s, links[0]), links[1..]);
    }
  }

  // ---------------------------------------------------------------- every operation keeps the targets

  lemma {:induction false} PutKeepsFit(targets: map<int, Target>, id: int, t: Target)
    requires FitTargets(targets) && FitsUnder(id, t)
    ensures FitTargets(targets[id := t])
  {
    var after := targets[id := t];
    forall k | k in after ensures FitsUnder(k, after[k]) {
      assert k in targets ==> FitsUnder(k, targets[k]);
    }
  }

  lemma {:induction false} DropKeepsFit(targets: map<int, Target>, id: int)
    requires FitTargets(targets)
    ensures FitTargets(targets - {id})
  {
    var after := targets - {id};
    forall k | k in after ensures FitsUnder(k, after[k]) {
      assert FitsUnder(k, targets[k]);
    }
  }

  /** A target without the buttons that are taken from it. */
  function Fewer(current: Target, config: Target): Target {
    current.(buttons := current.buttons - config.buttons.Keys)
  }

  lemma {:induction false} ButtonsStayFit(current: Target, config: Target)
    requires Fits(current) && Fits(config)
    ensures Fits(Merged(current, config)) && Fits(Fewer(current, config))
  {
    forall id | id in Merged(current, config).buttons ensures FitButton(id, Merged(current, config).buttons[id]) {
      assert id in config.buttons ==> FitButton(id, config.buttons[id]);
      assert id in current.buttons ==> FitButton(id, current.buttons[id]);
    }
    forall id | id in Fewer(current, config).buttons ensures FitButton(id, Fewer(current, config).buttons[id]) {
      assert FitButton(id, current.buttons[id]);
    }
  }

  lemma {:induction false} ButtonsStayPrintable(current: Target, config: Target)
    requires Printable(current) && Printable(config)
    ensures Printable(Merged(current, config)) && Printable(Fewer(current, config))
  {
    forall id | id in Merged(current, config).buttons ensures GoodButton(id, Merged(current, config).buttons[id]) {
      assert id in config.buttons ==> GoodButton(id, config.buttons[id]);
      assert id in current.buttons ==> GoodButton(id, current.buttons[id]);
    }
    forall id | id in Fewer(current, config).buttons ensures GoodButton(id, Fewer(current, config).buttons[id]) {
      assert GoodButton(id, current.buttons[id]);
    }
  }

  lemma {:induction false} GoodFits(t: Target)
    requires Printable(t)
    ensures Fits(t)
  {
    forall id | id in t.buttons ensures FitButton(id, t.buttons[id]) {
      assert GoodButton(id, t.buttons[id]);
    }
  }

  lemma {:induction false} AdmittedConfigIsGood(raw: Option<seq<byte>>, admin: bool)
    requires Admitted(raw, admin).Ok?
    ensures var config := Admitted(raw, admin).value.config;
            config.Some? ==> GoodTarget(config.value) && Fits(config.value)
  {
    var data := DecodeMap(raw.value).value;
    if LIST_TARGET_CONFIGURATION in data {
      TargetProofs.ParsedTargetIsGood(data[LIST_TARGET_CONFIGURATION]);
      GoodFits(ParseTarget(data[LIST_TARGET_CONFIGURATION]).value);
    }
  }

  // ---------------------------------------------------------------- every step

  lemma {:induction false} SaveSyncs(s: State)
    requires GoodKept(KeptOf(s))
    ensures InSync(Save(s))
  {
    LoadSaved(KeptOf(s));
  }

  lemma {:induction false} SetActiveIsMostly(s: State, identifier: int)
    requires Mostly(s)
    ensures Mostly(SetActive(s, identifier).state)
  {
  }

  lemma {:induction false} SetActiveKeeps(s: State, identifier: int)
    requires Inv(s)
    ensures Inv(SetActive(s, identifier).state)
  {
    SetActiveIsMostly(s, identifier);
    if SetActive(s, identifier).state.active != s.active {
      SaveSyncs(s.(active := identifier, client := None));
    }
  }

  lemma {:induction false} CountsAfter(targets: map<int, Target>, id: int, t: Target)
    ensures |targets[id := t]| == if id in targets then |targets| else |targets| + 1
    ensures |targets - {id}| <= |targets|
  {
    assert targets[id := t].Keys == targets.Keys + {id};
    assert (targets - {id}).Keys == targets.Keys - {id};
  }

  lemma {:induction false} AddKeeps(s: State, config: Option<Target>)
    requires Mostly(s) && AddTarget(s, config).Ok? && Fits(config.value)
    ensures Mostly(AddTarget(s, config).value)
  {
    var t := config.value;
    PutKeepsFit(s.targets, t.identifier, t);
    CountsAfter(s.targets, t.identifier, t);
  }

  /** Replacing a registered target. */
  lemma {:induction false} ReplaceKeeps(s: State, id: int, t: Target)
    requires Mostly(s) && id in s.targets && FitsUnder(id, t)
    ensures Mostly(s.(targets := s.targets[id := t]))
  {
    PutKeepsFit(s.targets, id, t);
    CountsAfter(s.targets, id, t);
  }

  lemma {:induction false} UpdateKeeps(s: State, config: Option<Target>)
    requires Mostly(s) && UpdateTarget(s, config).Ok? && Fits(config.value)
    ensures Mostly(UpdateTarget(s, config).value)
  {
    var id := config.value.identifier;
    assert FitsUnder(id, s.targets[id]);
    ButtonsStayFit(s.targets[id], config.value);
    ReplaceKeeps(s, id, Merged(s.targets[id], config.value));
  }

  lemma {:induction false} RemoveButtonsKeeps(s: State, config: Option<Target>)
    requires Mostly(s) && RemoveTarget(s, config).Ok? && Fits(config.value) && config.value.buttons != map[]
    ensures Mostly(RemoveTarget(s, config).value)
  {
    var id := config.value.identifier;
    assert FitsUnder(id, s.targets[id]);
    ButtonsStayFit(s.targets[id], config.value);
    ReplaceKeeps(s, id, Fewer(s.targets[id], config.value));
  }

  lemma {:induction false} SmallestInRange(targets: map<int, Target>)
    requires FitTargets(targets)
    ensures 0 <= Smallest(targets) < UINT32
  {
    if targets.Keys != {} {
      assert FitsUnder(Smallest(targets), targets[Smallest(targets)]);
    }
  }

  /** The target gone and its data stream closed; the selection is still to move on. */
  function Dropped(s: State, id: int): State {
    DropLink(s.(targets := s.targets - {id}), id)
  }

  lemma {:induction false} DropLinkKeeps(s: State, id: int)
    requires Mostly(s) && id in s.targets
    ensures var s1 := Dropped(s, id);
            && s1.targets == s.targets - {id} && s1.active == s.active && s1.client == s.client && s1.saved == s.saved
            && LinksRegistered(s1)
  {
  }

  lemma {:induction false} DropLinkKeepsSpeech(s: State, id: int)
    requires SpeechInPlace(s)
    ensures SpeechInPlace(Dropped(s, id))
  {
    var s1 := s.(targets := s.targets - {id});
    if id in s.links {
      CloseKeepsSpeech(s1.(links := s1.links - {id}), s.links[id]);
    }
  }

  lemma {:induction false} DroppedKept(s: State, id: int)
    requires Mostly(s) && id in s.targets
    ensures FitTargets(s.targets - {id}) && |s.targets - {id}| <= MAX_TARGETS
    ensures 0 <= Smallest(s.targets - {id}) < UINT32
  {
    assert FitsUnder(id, s.targets[id]);
    DropKeepsFit(s.targets, id);
    CountsAfter(s.targets, id, s.targets[id]);
    SmallestInRange(s.targets - {id});
  }

  lemma {:induction false} RemoveTargetKeeps(s: State, config: Option<Target>)
    requires Mostly(s) && RemoveTarget(s, config).Ok? && config.value.buttons == map[]
    ensures Mostly(RemoveTarget(s, config).value)
  {
    var id := config.value.identifier;
    DroppedKept(s, id);
    DropLinkKeeps(s, id);
    DropLinkKeepsSpeech(s, id);
    var s1 := Dropped(s, id);
    if s1.active == id {
      MoveOnKeeps(s1, Smallest(s1.targets));
    }
  }

  /** What another selection does, saving apart. */
  lemma {:induction false} MovesTo(s: State, identifier: int)
    requires 0 <= identifier < UINT32 && (identifier == 0 || identifier in s.targets) && identifier != s.active
    ensures var r := SetActive(s, identifier).state;
            && r.targets == s.targets && r.active == identifier && r.client == None && r.links == s.links
            && r.conns == s.conns
            && (r.speech == s.speech || (s.speech.Some? && r.speech == Some(s.speech.value.(cancelling := true))))
            && (s.speech.Some? && s.speech.value.target == s.active ==> r.speech.value.cancelling)
  {
  }

  /** The selection moves from a target that is gone to one that is there. */
  lemma {:induction false} MoveOnKeeps(s: State, identifier: int)
    requires FitTargets(s.targets) && |s.targets| <= MAX_TARGETS && LinksRegistered(s) && SpeechInPlace(s)
    requires 0 <= identifier < UINT32 && (identifier == 0 || identifier in s.targets) && identifier != s.active
    ensures Mostly(SetActive(s, identifier).state)
  {
    MovesTo(s, identifier);
  }

  lemma {:induction false} ResetKeeps(s: State, config: Option<Target>)
    requires Mostly(s) && ResetAll(s, config).Ok?
    ensures Mostly(ResetAll(s, config).value)
  {
    var s0, links := s.(targets := map[]), OpenOf(s.conns, None);
    CloseEachKeeps(s0, links);
    CloseEachKeepsSpeech(s0, links);
  }

  lemma {:induction false} PerformKeeps(s: State, request: Request)
    requires Mostly(s) && Perform(s, request).Ok? && (request.config.Some? ==> Fits(request.config.value))
    ensures Mostly(Perform(s, request).value)
  {
    match request.operation
    case Add => AddKeeps(s, request.config);
    case Update => UpdateKeeps(s, request.config);
    case Remove =>
      if request.config.value.buttons != map[] {
        RemoveButtonsKeeps(s, request.config);
      } else {
        RemoveTargetKeeps(s, request.config);
      }
    case Reset => ResetKeeps(s, request.config);
    case ListAll =>
    case Undefined =>
  }

  lemma {:induction false} WriteListKeeps(s: State, raw: Option<seq<byte>>, admin: bool)
    requires Inv(s)
    ensures Inv(WriteList(s, raw, admin).state)
  {
    var request := Admitted(raw, admin);
    if request.Ok? && Perform(s, request.value).Ok? {
      AdmittedConfigIsGood(raw, admin);
      PerformKeeps(s, request.value);
      SaveSyncs(Perform(s, request.value).value);
    }
  }

  lemma {:induction false} IdentifyKeepsSpeech(s: State, link: Link, identifier: int)
    requires SpeechInPlace(s)
    ensures SpeechInPlace(Identify(s, link, identifier))
  {
    if link in s.conns {
      var s1 := s.(conns := s.conns[link := s.conns[link].(identifier := Some(identifier))]);
      CloseKeepsSpeech(s1, link);
      if identifier in s1.links {
        CloseKeepsSpeech(s1, s1.links[identifier]);
      }
    }
  }

  lemma {:induction false} IdentifyKeepsLinks(s: State, link: Link, identifier: int)
    requires LinksRegistered(s)
    ensures LinksRegistered(Identify(s, link, identifier))
  {
  }

  lemma {:induction false} IdentifyKeeps(s: State, link: Link, identifier: int)
    requires Inv(s)
    ensures Inv(Identify(s, link, identifier))
  {
    IdentifyKeepsSpeech(s, link, identifier);
    IdentifyKeepsLinks(s, link, identifier);
    LinksMeanNothing(s, link, identifier);
  }

  /** Data streams naming themselves or closing touch neither configuration, activation nor file. */
  lemma {:induction false} LinksMeanNothing(s: State, link: Link, identifier: int)
    ensures var r := Identify(s, link, identifier);
            KeptOf(r) == KeptOf(s) && r.client == s.client && r.saved == s.saved
    ensures var r := Close(s, link);
            KeptOf(r) == KeptOf(s) && r.client == s.client && r.saved == s.saved
  {
  }

  lemma {:induction false} CloseKeeps(s: State, link: Link)
    requires Inv(s)
    ensures Inv(Close(s, link))
  {
    CloseKeepsSpeech(s, link);
    LinksMeanNothing(s, link, 0);
  }

  lemma {:induction false} LoseHapKeeps(s: State, client: Client)
    requires Inv(s)
    ensures Inv(LoseHap(s, client))
  {
    var ids := OpenOf(s.conns, Some(client));
    CloseEachKeeps(s, ids);
    CloseEachKeepsLinks(s, ids);
    CloseEachKeepsSpeech(s, ids);
  }

  lemma {:induction false} ActivateKeeps(s: State, on: bool, from: Option<Client>)
    requires Inv(s)
    ensures Inv(Activate(s, on, from).state)
  {
  }

  lemma {:induction false} StartSpeechKeeps(s: State, advertised: bool)
    requires Inv(s)
    ensures Inv(StartSpeech(s, advertised).state)
  {
  }

  /** A process started on any file. */
  lemma {:induction false} BootIsSound(file: Option<Json>)
    ensures Inv(Boot(file))
  {
    LoadIsSound(file);
  }

  /** No operation, accepted or rejected, breaks the registry. */
  lemma {:induction false} StepKeeps(s: State, step: Step)
    requires Inv(s)
    ensures Inv(Apply(s, step).state)
  {
    match step
    case ListWrite(raw, admin) => WriteListKeeps(s, raw, admin);
    case Select(identifier) => SetActiveKeeps(s, identifier);
    case SelectWrite(identifier, from) => SetActiveKeeps(s, identifier);
    case ActiveWrite(on, from) => ActivateKeeps(s, on, from);
    case Accepted(link, client) =>
    case WhoAmI(link, identifier) => IdentifyKeeps(s, link, identifier);
    case Closed(link) => CloseKeeps(s, link);
    case HapLost(client) => LoseHapKeeps(s, client);
    case Speak(advertised) => StartSpeechKeeps(s, advertised);
    case Silence =>
    case Restart => BootIsSound(s.saved);
  }

  // ---------------------------------------------------------------- every run

  lemma {:induction false} RunKeeps(s: State, steps: seq<Step>)
    requires Inv(s)
    ensures Inv(Run(s, steps))
    decreases |steps|
  {
    if steps == [] {
    } else {
      StepKeeps(s, steps[0]);
      RunKeeps(Apply(s, steps[0]).state, steps[1..]);
    }
  }

  predicate Sound(s: State) {
    && |s.targets| <= MAX_TARGETS
    && (forall id | id in s.targets :: s.targets[id].identifier == id && 1 <= id < UINT32)
    && (s.active == 0 || s.active in s.targets)
    && (s.client.Some? ==> s.active in s.targets)
    && (forall id | id in s.links :: id in s.targets)
    && SpeechInPlace(s)
  }

  lemma {:induction false} InvIsSound(s: State)
    requires Inv(s)
    ensures Sound(s)
  {
    forall id | id in s.targets ensures s.targets[id].identifier == id && 1 <= id < UINT32 {
      assert FitsUnder(id, s.targets[id]);
    }
  }

  /**
   In every run of a process started on any file: at most ten targets under their
   own identifiers, a registered selection, activation only of one, data streams
   only of registered targets, and a Siri session only to the target that is
   selected and activated, unless it is being cancelled.
   */
  lemma {:induction false} EveryRunIsSound(file: Option<Json>, steps: seq<Step>)
    ensures Sound(Run(Boot(file), steps))
  {
    BootIsSound(file);
    RunKeeps(Boot(file), steps);
    InvIsSound(Run(Boot(file), steps));
  }

  /**
   In every reachable state a restart gives back exactly the same targets, buttons and
   selection, and nothing volatile.
   */
  lemma {:induction false} RestartForgetsNothing(file: Option<Json>, steps: seq<Step>)
    ensures var s := Run(Boot(file), steps);
            var r := Run(s, [Restart]);
            && r.targets == s.targets && r.active == s.active
            && r.client == None && r.links == map[] && r.conns == map[] && r.speech == None
  {
    BootIsSound(file);
    RunKeeps(Boot(file), steps);
    assert [Restart][1..] == [];
  }

  // ---------------------------------------------------------------- replies

  lemma {:induction false} PutKeepsPrintable(targets: map<int, Target>, id: int, t: Target)
    requires PrintableTargets(targets) && Printable(t)
    ensures PrintableTargets(targets[id := t])
  {
    var after := targets[id := t];
    forall k | k in after ensures PrintableAt(after, k) {
      assert k in targets ==> PrintableAt(targets, k);
    }
  }

  lemma {:induction false} DropKeepsPrintable(targets: map<int, Target>, id: int)
    requires PrintableTargets(targets)
    ensures PrintableTargets(targets - {id})
  {
    var after := targets - {id};
    forall k | k in after ensures PrintableAt(after, k) {
      assert PrintableAt(targets, k);
    }
  }

  /** What a write makes of targets that can be printed can be printed. */
  lemma {:induction false} EffectKeepsPrintable(kept: Kept, request: Request)
    requires PrintableTargets(kept.targets) && (request.config.Some? ==> Printable(request.config.value))
    ensures PrintableTargets(Effect(kept, request).targets)
  {
    if request.config.Some? {
      var t := request.config.value;
      PutKeepsPrintable(kept.targets, t.identifier, t);
      DropKeepsPrintable(kept.targets, t.identifier);
      if t.identifier in kept.targets {
        var current := kept.targets[t.identifier];
        assert PrintableAt(kept.targets, t.identifier);
        ButtonsStayPrintable(current, t);
        PutKeepsPrintable(kept.targets, t.identifier, Merged(current, t));
        PutKeepsPrintable(kept.targets, t.identifier, Fewer(current, t));
      }
    }
  }

  lemma {:induction false} StepKeepsPrintable(s: State, step: Step)
    requires Inv(s) && PrintableTargets(s.targets)
    ensures PrintableTargets(Apply(s, step).state.targets) && !Apply(s, step).outcome.Unprintable?
  {
    StepMeans(s, step);
    if step.ListWrite? && Admitted(step.raw, step.admin).Ok? {
      AdmittedConfigIsGood(step.raw, step.admin);
      EffectKeepsPrintable(KeptOf(s), Admitted(step.raw, step.admin).value);
    }
  }

  /** A write raises while its reply is printed exactly when it was performed and left a target that cannot be. */
  lemma {:induction false} UnprintableExactly(s: State, raw: Option<seq<byte>>, admin: bool)
    ensures WriteList(s, raw, admin).outcome.Unprintable? <==>
              && Admitted(raw, admin).Ok? && Perform(s, Admitted(raw, admin).value).Ok?
              && !PrintableTargets(WriteList(s, raw, admin).state.targets)
  {
  }

  /** No step after any run fails to print its reply. */
  ghost predicate AlwaysReplies(file: Option<Json>) {
    forall steps, step :: !Apply(Run(Boot(file), steps), step).outcome.Unprintable?
  }

  /**
   A process started on a file always gets its replies printed if and only if it can print
   the targets the file loads to: what controllers send can always be printed.
   */
  lemma {:induction false} RepliesArePrintable(file: Option<Json>)
    ensures AlwaysReplies(file) <==> PrintableTargets(Load(file).targets)
  {
    var s := Boot(file);
    if PrintableTargets(s.targets) {
      BootIsSound(file);
      forall steps, step ensures !Apply(Run(s, steps), step).outcome.Unprintable? {
        RunKeepsPrintable(s, steps);
        StepKeepsPrintable(Run(s, steps), step);
      }
    } else {
      ListRequest();
      assert Run(s, []) == s;
      assert Apply(Run(s, []), ListWrite(Some([LIST_OPERATION, 1, 1]), true)).outcome == Unprintable;
    }
  }

  lemma {:induction false} RunKeepsPrintable(s: State, steps: seq<Step>)
    requires Inv(s) && PrintableTargets(s.targets)
    ensures Inv(Run(s, steps)) && PrintableTargets(Run(s, steps).targets)
    decreases |steps|
  {
    if steps == [] {
    } else {
      StepKeeps(s, steps[0]);
      StepKeepsPrintable(s, steps[0]);
      RunKeepsPrintable(Apply(s, steps[0]).state, steps[1..]);
    }
  }

  /** A file with a category above 16 bits: it loads, and from then on asking for the list raises. */
  lemma {:induction false} LargeCategoryCannotBePrinted(category: int)
    requires category == 70000
    ensures var file := Some(ToJson(Kept(map[1 := Target(1, None, Some(category), map[])], 1)));
            Apply(Boot(file), ListWrite(Some([LIST_OPERATION, 1, 1]), true)).outcome == Unprintable
  {
    var t := Target(1, None, Some(category), map[]);
    var targets := map[1 := t];
    var kept := Kept(targets, 1);
    assert FitsUnder(1, t);
    assert targets.Keys == {1};
    assert |targets.Keys| == |targets| == 1;
    LoadSaved(kept);
    ListRequest();
    assert !PrintableAt(targets, 1);
  }

  lemma {:induction false} ListRequest()
    ensures Admitted(Some([LIST_OPERATION, 1, 1]), true) == Ok(Request(ListAll, None))
  {
    var segment := Segment(LIST_OPERATION, [1]);
    Tlv8Proofs.SegmentsOfWire([segment]);
    assert Wire([segment]) == [LIST_OPERATION, 1] + [1] + Wire([segment][1..]) == [LIST_OPERATION, 1, 1];
    var none: map<byte, seq<byte>> := map[];
    assert Merge(none, segment, None) == map[LIST_OPERATION := [1]];
    assert Collect([segment], none, None) == Collect([segment][1..], map[LIST_OPERATION := [1]], Some(segment));
  }

  // ---------------------------------------------------------------- rejected operations

  lemma {:induction false} RejectedChangesNothing(s: State, step: Step)
    requires Apply(s, step).outcome.Rejected?
    ensures Apply(s, step).state == s
  {
  }

  /** The steps of a run that are not rejected where they fall. */
  function Heeded(s: State, steps: seq<Step>): seq<Step>
    decreases |steps|
  {
    if steps == [] then []
    else
      var r := Apply(s, steps[0]);
      (if r.outcome.Rejected? then [] else [steps[0]]) + Heeded(r.state, steps[1..])
  }

  /** Rejected operations leave no trace, in memory or in the file: a run ends as it would have without them. */
  lemma {:induction false} RejectedLeaveNoTrace(s: State, steps: seq<Step>)
    ensures Run(s, Heeded(s, steps)) == Run(s, steps)
    ensures Heeded(s, Heeded(s, steps)) == Heeded(s, steps)
    decreases |steps|
  {
    if steps == [] {
    } else {
      var r, heeded := Apply(s, steps[0]), Heeded(Apply(s, steps[0]).state, steps[1..]);
      RejectedLeaveNoTrace(r.state, steps[1..]);
      if r.outcome.Rejected? {
        RejectedChangesNothing(s, steps[0]);
        assert [] + heeded == heeded;
      } else {
        assert ([steps[0]] + heeded)[1..] == heeded;
      }
    }
  }

  // ---------------------------------------------------------------- what is configured

  /** What an accepted request means for the configuration alone. */
  function Effect(kept: Kept, request: Request): Kept {
    var targets, active := kept.targets, kept.active;
    if request.operation.Reset? then if request.config.None? then Kept(map[], 0) else kept
    else if request.config.None? then kept
    else
      var t := request.config.value;
      var id := t.identifier;
      if request.operation.Add? then
        if id !in targets && |targets| >= MAX_TARGETS then kept
        else Kept(targets[id := t], if active == 0 then id else active)
      else if id !in targets then kept
      else if request.operation.Update? then Kept(targets[id := Merged(targets[id], t)], active)
      else if !request.operation.Remove? then kept
      else if t.buttons != map[] then
        Kept(targets[id := targets[id].(buttons := targets[id].buttons - t.buttons.Keys)], active)
      else Kept(targets - {id}, if active == id then Smallest(targets - {id}) else active)
  }

  /** What a step means for the configuration: only list writes and selections count. */
  function Meaning(kept: Kept, step: Step): Kept {
    match step
    case ListWrite(raw, admin) =>
      var request := Admitted(raw, admin);
      if request.Ok? then Effect(kept, request.value) else kept
    case Select(identifier) => Selected(kept, identifier)
    case SelectWrite(identifier, from) => if from.Some? then Selected(kept, identifier) else kept
    case _ => kept
  }

  function Selected(kept: Kept, identifier: int): Kept {
    if identifier == 0 || identifier in kept.targets then kept.(active := identifier) else kept
  }

  function MeaningOf(kept: Kept, steps: seq<Step>): Kept
    decreases |steps|
  {
    if steps == [] then kept else MeaningOf(Meaning(kept, steps[0]), steps[1..])
  }

  /** The state an operation leaves, accepted or not. */
  function Settled(s: State, done: Result<State, Reason>): State {
    if done.Ok? then done.value else s
  }

  lemma {:induction false} RemoveMeans(s: State, config: Option<Target>)
    requires Mostly(s)
    ensures KeptOf(Settled(s, RemoveTarget(s, config))) == Effect(KeptOf(s), Request(Remove, config))
  {
    if config.Some? && config.value.identifier in s.targets && config.value.buttons == map[] {
      var id := config.value.identifier;
      DroppedKept(s, id);
      DropLinkKeeps(s, id);
      var s1 := Dropped(s, id);
      if s1.active == id {
        MovesTo(s1, Smallest(s1.targets));
      }
    }
  }

  lemma {:induction false} ResetMeans(s: State, config: Option<Target>)
    ensures KeptOf(Settled(s, ResetAll(s, config))) == Effect(KeptOf(s), Request(Reset, config))
  {
    CloseEachKeeps(s.(targets := map[]), OpenOf(s.conns, None));
  }

  lemma {:induction false} PerformMeans(s: State, request: Request)
    requires Mostly(s)
    ensures KeptOf(Settled(s, Perform(s, request))) == Effect(KeptOf(s), request)
  {
    match request.operation
    case Add =>
    case Update =>
    case Remove => RemoveMeans(s, request.config);
    case Reset => ResetMeans(s, request.config);
    case ListAll =>
    case Undefined =>
  }

  lemma {:induction false} SelectMeans(s: State, identifier: int)
    requires Mostly(s)
    ensures KeptOf(SetActive(s, identifier).state) == Selected(KeptOf(s), identifier)
  {
    if identifier in s.targets {
      assert FitsUnder(identifier, s.targets[identifier]);
    }
  }

  lemma {:induction false} WriteListMeans(s: State, raw: Option<seq<byte>>, admin: bool)
    requires Inv(s)
    ensures KeptOf(WriteList(s, raw, admin).state) == Meaning(KeptOf(s), ListWrite(raw, admin))
  {
    var request := Admitted(raw, admin);
    if request.Ok? {
      PerformMeans(s, request.value);
    }
  }

  lemma {:induction false} QuietMeans(s: State, step: Step)
    requires step.ActiveWrite? || step.Accepted? || step.Speak? || step.Silence?
    ensures KeptOf(Apply(s, step).state) == KeptOf(s)
  {
  }

  lemma {:induction false} BootMeans(s: State)
    requires InSync(s)
    ensures KeptOf(Boot(s.saved)) == KeptOf(s)
  {
  }

  lemma {:induction false} StepMeans(s: State, step: Step)
    requires Inv(s)
    ensures KeptOf(Apply(s, step).state) == Meaning(KeptOf(s), step)
  {
    match step
    case ListWrite(raw, admin) => WriteListMeans(s, raw, admin);
    case Select(identifier) => SelectMeans(s, identifier);
    case SelectWrite(identifier, from) => SelectMeans(s, identifier);
    case ActiveWrite(_, _) => QuietMeans(s, step);
    case Accepted(_, _) => QuietMeans(s, step);
    case WhoAmI(link, identifier) => LinksMeanNothing(s, link, identifier);
    case Closed(link) => LinksMeanNothing(s, link, 0);
    case HapLost(client) => CloseEachKeeps(s, OpenOf(s.conns, Some(client)));
    case Speak(_) => QuietMeans(s, step);
    case Silence => QuietMeans(s, step);
    case Restart => BootMeans(s);
  }

  /**
   The configuration after a run is decided by its list writes and selections alone:
   activations, data streams and restarts, wherever they fall, change nothing.
   */
  lemma {:induction false} RunMeans(s: State, steps: seq<Step>)
    requires Inv(s)
    ensures KeptOf(Run(s, steps)) == MeaningOf(KeptOf(s), steps)
    decreases |steps|
  {
    if steps == [] {
    } else {
      StepKeeps(s, steps[0]);
      StepMeans(s, steps[0]);
      RunMeans(Apply(s, steps[0]).state, steps[1..]);
    }
  }

  /**
   Removing a target that was just added restores the targets; it restores the selection too
   if and only if one was made or none is left to make.
   */
  lemma {:induction false} AddRemove(kept: Kept, t: Target, bare: Target)
    requires GoodKept(kept) && Fits(t)
    requires t.identifier !in kept.targets && |kept.targets| < MAX_TARGETS
    requires bare.identifier == t.identifier && bare.buttons == map[]
    ensures var r := Effect(Effect(kept, Request(Add, Some(t))), Request(Remove, Some(bare)));
            && r.targets == kept.targets
            && (r.active == kept.active <==> kept.active != 0 || kept.targets == map[])
  {
  }

  // ---------------------------------------------------------------- what controllers see

  /**
   What a controller reads in a reply: one entry per target less one per aligned payload,
   each parsing to its target when there is none.
   */
  ghost predicate Shows(data: seq<byte>, targets: map<int, Target>)
    requires PrintableTargets(targets)
  {
    var ts := SortedTargets(targets);
    var seen := DecodeItems(data, LIST_TARGET_CONFIGURATION);
    && seen.Ok? && |seen.value| == |ts| - TargetProofs.Aligned(ts)
    && (TargetProofs.Aligned(ts) == 0 ==> forall i | 0 <= i < |ts| ::
          && LIST_TARGET_CONFIGURATION in seen.value[i]
          && (ParseTarget(seen.value[i][LIST_TARGET_CONFIGURATION]) == Ok(TargetProofs.NormalTarget(ts[i])) <==>
              GoodTarget(ts[i])))
  }

  /** The reply to an accepted write shows the registry after it. */
  lemma {:induction false} ReplyShowsRegistry(s: State, raw: Option<seq<byte>>, admin: bool)
    ensures var after := WriteList(s, raw, admin);
            && (after.outcome.Reply? ==> PrintableTargets(after.state.targets))
            && (after.outcome.Reply? && after.state.targets != map[] ==> Shows(after.outcome.data, after.state.targets))
  {
    var after := WriteList(s, raw, admin);
    if after.outcome.Reply? && after.state.targets != map[] {
      TargetProofs.TargetListRoundTrip(after.state.targets);
    }
  }

  lemma {:induction false} OpenOfHas(conns: map<Link, Conn>, client: Option<Client>, c: Link)
    ensures c in OpenOf(conns, client) <==> IsOpen(conns, c) && (client.None? || conns[c].client == client.value)
  {
    var all := set link | link in conns && !conns[link].closed && (client.None? || conns[link].client == client.value);
    AscendingSorted(all);
    assert c in Ascending(all) <==> c in all;
  }

  /** Losing a HAP session closes all its data streams and no other, and deactivates exactly its own activation. */
  lemma {:induction false} HapLostEffect(s: State, client: Client)
    ensures var r := LoseHap(s, client);
            && r.conns.Keys == s.conns.Keys
            && (forall c | c in s.conns :: IsOpen(r.conns, c) <==> IsOpen(s.conns, c) && s.conns[c].client != client)
            && r.client == if s.client == Some(client) then None else s.client
  {
    var ids := OpenOf(s.conns, Some(client));
    CloseEachEffect(s, ids);
    CloseEachKeeps(s, ids);
    var r := LoseHap(s, client);
    forall c | c in s.conns ensures IsOpen(r.conns, c) <==> IsOpen(s.conns, c) && s.conns[c].client != client {
      OpenOfHas(s.conns, Some(client), c);
    }
  }

  /** An accepted reset leaves nothing: no targets, selection, activation or link, and no open data stream. */
  lemma {:induction false} ResetEffect(s: State)
    ensures var r := Perform(s, Request(Reset, None)).value;
            && r.targets == map[] && r.active == 0 && r.client == None && r.links == map[]
            && forall c | c in r.conns :: !IsOpen(r.conns, c)
  {
    var ids := OpenOf(s.conns, None);
    var s1 := s.(targets := map[]);
    CloseEachEffect(s1, ids);
    CloseEachKeeps(s1, ids);
    var r := Perform(s, Request(Reset, None)).value;
    assert r.conns == CloseEach(s1, ids).conns;
    forall c | c in r.conns ensures !IsOpen(r.conns, c) {
      OpenOfHas(s.conns, None, c);
    }
  }

  /**
   No session is open; the target that is named, if any, is the one already selected; it is
   activated and has an open data stream; and Siri is advertised.
   */
  predicate MayStart(s: State, target: Option<int>, advertised: bool) {
    && s.speech.None? && (target.None? || target.value == s.active)
    && s.active != 0 && s.client.Some? && advertised
    && s.active in s.links && IsOpen(s.conns, s.links[s.active])
  }

  /** Starting on the selected target. */
  lemma {:induction false} StartsHere(s: State, target: Option<int>, advertised: bool)
    requires target.None? || target.value == s.active
    ensures var r := StartSpeechTo(s, target, advertised);
            if MayStart(s, target, advertised) then
              r == After(s.(speech := Some(Speech(s.active, s.links[s.active], false))), Done)
            else r.outcome.Rejected? && r.state == s
  {
  }

  /** Another target is selected, if it is registered, which deactivates it: the next check fails. */
  lemma {:induction false} FailsElsewhere(s: State, target: int, advertised: bool)
    requires Inv(s) && target != s.active
    ensures var r := StartSpeechTo(s, Some(target), advertised);
            && r.outcome.Rejected?
            && r.state == if s.speech.None? then SetActive(s, target).state else s
  {
    if s.speech.None? {
      assert SetActive(s, target).outcome.Done? ==> SetActive(s, target).state.client.None?;
    }
  }

  lemma {:induction false} SelectionMoves(s: State, target: int)
    requires Inv(s) && target != s.active
    ensures SetActive(s, target).state.active == if target == 0 || target in s.targets then target else s.active
    ensures s.speech.None? ==> SetActive(s, target).state.speech.None?
  {
    if target in s.targets {
      assert FitsUnder(target, s.targets[target]);
    }
  }

  lemma {:induction false} NeverBusy(s: State, target: Option<int>, advertised: bool)
    requires s.speech.None?
    ensures StartSpeechTo(s, target, advertised).outcome != Rejected(Busy)
  {
    if target.Some? && target.value != s.active {
      assert SetActive(s, target.value).state.speech.None?;
    }
  }

  lemma {:induction false} StartSpeechToKeeps(s: State, target: Option<int>, advertised: bool)
    requires Inv(s)
    ensures Inv(StartSpeechTo(s, target, advertised).state)
  {
    StartSpeechKeeps(s, advertised);
    if target.Some? {
      SetActiveKeeps(s, target.value);
      StartSpeechKeeps(SetActive(s, target.value).state, advertised);
    }
  }

  /**
   `start_siri` starts exactly when it may, and otherwise opens no session. Naming another
   registered target than the selected one only selects it.
   */
  lemma {:induction false} SpeakingStarts(s: State, target: Option<int>, advertised: bool)
    requires Inv(s)
    ensures var r := StartSpeechTo(s, target, advertised);
            && (r.outcome == Done <==> MayStart(s, target, advertised))
            && (r.outcome == Done ==> r.state == s.(speech := Some(Speech(s.active, s.links[s.active], false))))
            && (r.outcome != Done ==> r.outcome.Rejected? && r.state.speech == s.speech)
            && r.state.active == if s.speech.None? && target.Some? && (target.value == 0 || target.value in s.targets)
                                 then target.value else s.active
  {
    if target.None? || target.value == s.active {
      StartsHere(s, target, advertised);
    } else {
      FailsElsewhere(s, target.value, advertised);
      SelectionMoves(s, target.value);
    }
  }

  /**
   A registered target has one live data stream: the one that identified itself last. Any
   other claim closes the claimant.
   */
  lemma {:induction false} WhoAmIEffect(s: State, link: Link, identifier: int)
    requires Inv(s) && IsOpen(s.conns, link)
    ensures var r := Identify(s, link, identifier);
            if identifier in s.targets then
              && identifier in r.links && r.links[identifier] == link && IsOpen(r.conns, link)
              && (identifier in s.links && s.links[identifier] != link ==> !IsOpen(r.conns, s.links[identifier]))
            else !IsOpen(r.conns, link)
  {
  }
}
