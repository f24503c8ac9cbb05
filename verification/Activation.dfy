/**
 Who has activated the selected target, in every run: the last to say so, until he or
 nobody takes it back, another target is selected, his HAP session is lost or the
 process ends. And that one can get from an empty registry to a spoken utterance.
 */
module Activation {
  import opened Bytes
  import opened Targets
  import opened SavedTargets
  import opened Registry
  import opened RegistryProofs
  import ListWrites

  // ---------------------------------------------------------------- one write

  /** Switching on, with a target selected and a HAP session known: that session has it, and nothing else changed. */
  lemma {:induction false} OnTakesIt(s: State, c: Client)
    requires s.active != 0
    ensures Apply(s, ActiveWrite(true, Some(c))) == After(s.(client := Some(c)), Done)
  {
  }

  /** Switching off: whoever has it, or anybody if nobody has, leaves it to nobody and an open session to its end. */
  lemma {:induction false} OffGivesItBack(s: State, c: Client)
    requires s.active != 0
    ensures var r := Apply(s, ActiveWrite(false, Some(c)));
            if s.client.Some? && s.client.value != c then r == After(s, Rejected(NotOwner))
            else && r.outcome == Done && r.state == s.(client := None, speech := r.state.speech)
                 && (r.state.speech.Some? <==> s.speech.Some?)
                 && (s.speech.Some? ==>
                       r.state.speech == Some(Speech(s.speech.value.target, s.speech.value.link, true)))
  {
  }

  /** Neither works without a selection, or without knowing who asks. */
  lemma {:induction false} NoneTakesIt(s: State, on: bool, from: Option<Client>)
    ensures s.active == 0 ==> Apply(s, ActiveWrite(on, from)) == After(s, Rejected(NothingSelected))
    ensures s.active != 0 && from.None? ==> Apply(s, ActiveWrite(on, from)) == After(s, Rejected(NoContext))
  {
  }

  // ---------------------------------------------------------------- every run

  /** Who has it after a step, given what was selected before it and is after it. */
  function Holder(before: Kept, after: Kept, client: Option<Client>, step: Step): Option<Client> {
    match step
    case ActiveWrite(on, Some(c)) =>
      if before.active == 0 then client
      else if on then Some(c)
      else if client == Some(c) then None
      else client
    case HapLost(c) => if client == Some(c) then None else client
    case Restart => None
    case _ => if before.active == after.active || before.active == 0 then client else None
  }

  /** Who has it after a run. */
  function HolderOf(kept: Kept, client: Option<Client>, steps: seq<Step>): Option<Client>
    decreases |steps|
  {
    if steps == [] then client
    else
      var next := Meaning(kept, steps[0]);
      HolderOf(next, Holder(kept, next, client, steps[0]), steps[1..])
  }

  lemma {:induction false} PerformHolds(s: State, request: Request)
    requires Inv(s) && Perform(s, request).Ok?
    ensures var t := Perform(s, request).value;
            t.client == if t.active == s.active || s.active == 0 then s.client else None
  {
    match request.operation
    case Remove =>
      if request.config.value.buttons == map[] {
        ListWrites.BareRemoval(s, request.config.value);
        Gone(s, request.config.value.identifier);
      }
    case Reset => CloseEachKeeps(s.(targets := map[]), OpenOf(s.conns, None));
    case _ =>
  }

  /** The first of what is left is not what went. */
  lemma {:induction false} Gone(s: State, id: int)
    requires Inv(s) && id in s.targets
    ensures forall k | IsFirst(s.targets - {id}, k) :: k != id
  {
    assert FitsUnder(id, s.targets[id]);
  }

  lemma {:induction false} WriteHolds(s: State, raw: Option<seq<byte>>, admin: bool)
    requires Inv(s)
    ensures var t := Apply(s, ListWrite(raw, admin)).state;
            t.client == if t.active == s.active || s.active == 0 then s.client else None
  {
    var request := Admitted(raw, admin);
    if request.Ok? && Perform(s, request.value).Ok? {
      PerformHolds(s, request.value);
    }
  }

  lemma {:induction false} SelectHolds(s: State, identifier: int)
    requires Inv(s)
    ensures var t := SetActive(s, identifier).state;
            t.client == if t.active == s.active || s.active == 0 then s.client else None
  {
  }

  lemma {:induction false} ActivationHolds(s: State, on: bool, from: Option<Client>)
    ensures var t := Apply(s, ActiveWrite(on, from)).state;
            && t.active == s.active && t.client == Holder(KeptOf(s), KeptOf(t), s.client, ActiveWrite(on, from))
  {
  }

  lemma {:induction false} QuietHolds(s: State, step: Step)
    requires step.Accepted? || step.Speak? || step.Silence? || step.WhoAmI? || step.Closed?
    ensures var t := Apply(s, step).state; t.active == s.active && t.client == s.client
  {
    if step.WhoAmI? {
      LinksMeanNothing(s, step.link, step.identifier);
    } else if step.Closed? {
      LinksMeanNothing(s, step.link, 0);
    }
  }

  lemma {:induction false} LossHolds(s: State, c: Client)
    ensures var t := LoseHap(s, c); t.active == s.active && t.client == if s.client == Some(c) then None else s.client
  {
    HapLostEffect(s, c);
    CloseEachKeeps(s, OpenOf(s.conns, Some(c)));
  }

  lemma {:induction false} StepHolds(s: State, step: Step)
    requires Inv(s)
    ensures var t := Apply(s, step).state; t.client == Holder(KeptOf(s), KeptOf(t), s.client, step)
  {
    if step.ListWrite? {
      WriteHolds(s, step.raw, step.admin);
    } else if step.Select? || step.SelectWrite? {
      SelectHolds(s, step.identifier);
    } else if step.ActiveWrite? {
      ActivationHolds(s, step.on, step.from);
    } else if step.HapLost? {
      LossHolds(s, step.client);
    } else if !step.Restart? {
      QuietHolds(s, step);
    }
  }

  /** The holder after a run is what its steps say, step by step. */
  lemma {:induction false} HolderMeans(s: State, steps: seq<Step>)
    requires Inv(s)
    ensures Run(s, steps).client == HolderOf(KeptOf(s), s.client, steps)
    decreases |steps|
  {
    if steps == [] {
    } else {
      StepKeeps(s, steps[0]);
      StepMeans(s, steps[0]);
      StepHolds(s, steps[0]);
      HolderMeans(Apply(s, steps[0]).state, steps[1..]);
    }
  }

  // ---------------------------------------------------------------- from nothing to speech

  lemma {:induction false} RunOn(s: State, step: Step, more: seq<Step>)
    ensures Run(s, [step] + more) == Run(Apply(s, step).state, more)
  {
    assert ([step] + more)[1..] == more;
  }

  lemma {:induction false} FourSteps(s: State, a: Step, b: Step, c: Step, d: Step)
    ensures Run(s, [a, b, c, d]) == Apply(Apply(Apply(Apply(s, a).state, b).state, c).state, d).state
  {
    var none: seq<Step> := [];
    RunOn(s, a, [b, c, d]);
    RunOn(Apply(s, a).state, b, [c, d]);
    RunOn(Apply(Apply(s, a).state, b).state, c, [d]);
    RunOn(Apply(Apply(Apply(s, a).state, b).state, c).state, d, none);
    assert [a, b, c, d] == [a] + [b, c, d] && [b, c, d] == [b] + [c, d] && [c, d] == [c] + [d] && [d] == [d] + none;
  }

  lemma {:induction false} Added(t: Target)
    requires GoodTarget(t)
    ensures var s := Apply(Boot(None), ListWrite(Some(ListWrites.RequestBytes(2, t)), true)).state;
            && t.identifier in s.targets && s.active == t.identifier && s.client.None?
            && s.conns == map[] && s.speech.None? && Inv(s)
  {
    BootIsSound(None);
    StepKeeps(Boot(None), ListWrite(Some(ListWrites.RequestBytes(2, t)), true));
    ListWrites.AddByBytes(Boot(None), t);
  }

  lemma {:induction false} Streaming(s: State, c: Client, l: Link)
    requires Inv(s) && s.active != 0 && s.active in s.targets && s.conns == map[] && s.speech.None?
    ensures var u := Apply(Apply(s, ActiveWrite(true, Some(c))).state, Accepted(l, c)).state;
            && Inv(u) && u.active == s.active && u.targets == s.targets && u.client == Some(c)
            && IsOpen(u.conns, l) && u.speech.None?
  {
    OnTakesIt(s, c);
    StepKeeps(s, ActiveWrite(true, Some(c)));
    StepKeeps(s.(client := Some(c)), Accepted(l, c));
  }

  lemma {:induction false} Known(s: State, l: Link)
    requires Inv(s) && s.active != 0 && s.active in s.targets && s.client.Some? && IsOpen(s.conns, l) && s.speech.None?
    ensures var u := Apply(s, WhoAmI(l, s.active)).state;
            MayStart(u, None, true) && u.active == s.active && u.client == s.client
  {
    WhoAmIEffect(s, l, s.active);
    LinksMeanNothing(s, l, s.active);
    StaysSilent(s, l, s.active);
  }

  lemma {:induction false} StaysSilent(s: State, link: Link, identifier: int)
    requires s.speech.None?
    ensures Identify(s, link, identifier).speech.None?
  {
  }

  lemma {:induction false} SpeakSpeaks(s: State)
    requires MayStart(s, None, true)
    ensures Apply(s, Speak(true)).outcome == Done
  {
    StartsHere(s, None, true);
  }

  /**
   An administrator adds a target, a HAP session activates it and opens a data stream
   that says who it is: then Siri can be started, whatever the target, the session and
   the stream.
   */
  lemma {:induction false} SpeechIsReachable(t: Target, c: Client, l: Link)
    requires GoodTarget(t)
    ensures var add := ListWrite(Some(ListWrites.RequestBytes(2, t)), true);
            var s := Run(Boot(None), [add, ActiveWrite(true, Some(c)), Accepted(l, c), WhoAmI(l, t.identifier)]);
            && MayStart(s, None, true) && s.active == t.identifier && s.client == Some(c)
            && Apply(s, Speak(true)).outcome == Done
  {
    var add := ListWrite(Some(ListWrites.RequestBytes(2, t)), true);
    var one := Apply(Boot(None), add).state;
    var three := Apply(Apply(one, ActiveWrite(true, Some(c))).state, Accepted(l, c)).state;
    FourSteps(Boot(None), add, ActiveWrite(true, Some(c)), Accepted(l, c), WhoAmI(l, t.identifier));
    Added(t);
    Streaming(one, c, l);
    Known(three, l);
    SpeakSpeaks(Apply(three, WhoAmI(l, t.identifier)).state);
  }
}
