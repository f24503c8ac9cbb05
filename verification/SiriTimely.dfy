/**
 A Siri session speaks as it is spoken to: five frames are an event at once, what a
 cancelled session never opened it never says, and how it ended is what happened.
 */
module SiriTimely {
  import opened Bytes
  import opened SiriAudio
  import opened SiriAudioProofs

  // ---------------------------------------------------------------- no five frames wait

  /** With the stream open, the opener through and nobody flushing, fewer than five frames wait. */
  predicate Prompt(s: State) {
    s.streamId.Some? && s.opener == Done && s.lock.Free? && !s.closed && !s.ending ==> |s.frames| < 5
  }

  /** What sending leaves alone. */
  predicate Apart(s: State, t: State) {
    && t.closed == s.closed && t.error == s.error && t.ending == s.ending && t.cancelled == s.cancelled
    && t.streamId == s.streamId && (t.opener == s.opener || t.opener == Done)
  }

  lemma {:induction false} SendLeaves(s: State, owner: Owner, force: bool, event: DataEvent)
    ensures Apart(s, SendData(s, owner, force, event)) && SendData(s, owner, force, event).lock.Flushing?
  {
  }

  lemma {:induction false} BatchLeaves(s: State, owner: Owner, force: bool, count: nat)
    requires count <= |s.frames|
    ensures Apart(s, SendBatch(s, owner, force, count)) && SendBatch(s, owner, force, count).lock.Flushing?
  {
    var s1 := s.(frames := s.frames[count..], sequence := s.sequence + count);
    SendLeaves(s1, owner, force, BatchEvent(s, force, count));
  }

  /** A turn of the flush loop holds on to the lock, or leaves fewer than five frames. */
  lemma {:induction false} LoopLeaves(s: State, owner: Owner, force: bool)
    ensures var t := FlushLoop(s, owner, force); Apart(s, t) && (t.lock.Flushing? || (t.lock.Free? && |t.frames| < 5))
  {
    if |s.frames| >= FRAMES_PER_EVENT {
      BatchLeaves(s, owner, force, FRAMES_PER_EVENT);
    } else if force && s.frames != [] {
      BatchLeaves(s, owner, force, |s.frames|);
    } else if force && !s.eosSent {
      SendLeaves(s, owner, force, DataEvent([], true));
    }
  }

  lemma {:induction false} LoopIsPrompt(s: State, owner: Owner, force: bool)
    ensures Prompt(FlushLoop(s, owner, force))
  {
    LoopLeaves(s, owner, force);
  }

  lemma {:induction false} FlushIsPrompt(s: State, owner: Owner, force: bool)
    requires Inv(s) && s.lock.Free? && (force ==> s.ending)
    ensures Prompt(Flush(s, owner, force))
  {
    LoopIsPrompt(s, owner, force);
  }

  lemma {:induction false} WriteIsPrompt(s: State, raw: Pcm)
    requires Inv(s) && Prompt(s) && Enabled(s, Write(raw))
    ensures Prompt(Apply(s, Write(raw)))
  {
    if !s.ending && !s.closed {
      var s1 := s.(accepted := s.accepted + raw, pcmBuffer := s.pcmBuffer + raw);
      DrainLeaves(s1);
      LoopIsPrompt(Drain(s1), Writer, false);
    }
  }

  /** Cutting frames off the buffer touches nothing but the buffer and the frames. */
  lemma {:induction false} DrainLeaves(s: State)
    ensures var d := Drain(s);
            && d == s.(pcmBuffer := d.pcmBuffer, frames := d.frames, encoded := d.encoded)
            && |d.frames| == |s.frames| + |s.pcmBuffer| / FRAME_BYTES
            && s.frames <= d.frames
    decreases |s.pcmBuffer|
  {
    if |s.pcmBuffer| < FRAME_BYTES {
    } else {
      DrainLeaves(Encode(s.(pcmBuffer := s.pcmBuffer[FRAME_BYTES..]), s.pcmBuffer[..FRAME_BYTES]));
    }
  }

  lemma {:induction false} ResumeIsPrompt(s: State)
    requires Inv(s) && s.lock.Flushing?
    ensures Prompt(Apply(s, Resume))
  {
    if !s.lock.final {
      LoopIsPrompt(s, s.lock.owner, s.lock.force);
    }
  }

  /** With an end in sight, or an opener at work, nothing is asked. */
  lemma {:induction false} UnaskedIsPrompt(t: State)
    requires t.closed || t.ending || t.opener != Done
    ensures Prompt(t)
  {
  }

  lemma {:induction false} FinishEnds(s: State, pad: bool)
    ensures EndOfInput(s, pad).ending
  {
  }

  lemma {:induction false} OtherIsPrompt(s: State, step: Step)
    requires Prompt(s) && Enabled(s, step)
    requires !step.Write? && !step.OpenerFlushes? && !step.FinishFlushes? && !step.Resume?
    ensures Prompt(Apply(s, step))
  {
    if step.Finish? {
      FinishEnds(s, step.pad);
      UnaskedIsPrompt(Apply(s, step));
    } else if step.Ack? {
      AckEnds(s);
    } else {
      UnaskedIsPrompt(if Apply(s, step) == s then s.(closed := true) else Apply(s, step));
    }
  }

  lemma {:induction false} StepIsPrompt(s: State, step: Step)
    requires Inv(s) && Prompt(s) && Enabled(s, step)
    ensures Prompt(Apply(s, step))
  {
    if step.Write? {
      WriteIsPrompt(s, step.raw);
    } else if step.OpenerFlushes? {
      FlushIsPrompt(s, Opener, s.ending);
    } else if step.FinishFlushes? {
      if !s.closed {
        FlushIsPrompt(s, Finisher, true);
      }
    } else if step.Resume? {
      ResumeIsPrompt(s);
    } else {
      OtherIsPrompt(s, step);
    }
  }

  lemma {:induction false} RunIsPrompt(s: State, steps: seq<Step>)
    requires Inv(s) && Prompt(s) && Exec(s, steps).Some?
    ensures Prompt(Exec(s, steps).value)
    decreases |steps|
  {
    if steps == [] {
    } else {
      StepKeeps(s, steps[0]);
      StepIsPrompt(s, steps[0]);
      RunIsPrompt(Apply(s, steps[0]), steps[1..]);
    }
  }

  /**
   Speech is streamed: in every state a session can reach with its stream open, its opener
   through, nobody flushing and no end in sight, all whole groups of five frames of what
   was accepted have been sent, and fewer than five frames wait.
   */
  lemma {:induction false} SpeechIsStreamed(steps: seq<Step>, s: State)
    requires Exec(Init(), steps) == Some(s)
    requires s.streamId.Some? && s.opener == Done && s.lock.Free? && !s.closed && !s.ending
    ensures |s.frames| < 5
    ensures |Packets(s.sent)| == 5 * (|Framing(s.accepted)| / 5)
    ensures |s.sent| == |Framing(s.accepted)| / 5
  {
    InitIsPrompt(steps, s);
    AudioIsConserved(steps, s);
    UnendedIsFull(steps, s);
    FullCount(s.sent);
  }

  lemma {:induction false} InitIsPrompt(steps: seq<Step>, s: State)
    requires Exec(Init(), steps) == Some(s)
    ensures Prompt(s)
  {
    InitKeeps();
    RunIsPrompt(Init(), steps);
  }

  lemma {:induction false} UnendedIsFull(steps: seq<Step>, s: State)
    requires Exec(Init(), steps) == Some(s) && !s.ending
    ensures Full(s.sent) && s.tail == Open
  {
    ReachableKeeps(steps, s);
  }

  // ---------------------------------------------------------------- at once

  /** The packets of these frames under numbers from `first` on. */
  predicate Carries(event: DataEvent, frames: seq<AudioFrame>, first: nat) {
    |event.packets| == |frames| && forall k | 0 <= k < |frames| :: event.packets[k] == Packet(frames[k], first + k)
  }

  lemma {:induction false} NumberedAt(frames: seq<AudioFrame>, first: nat, k: nat)
    requires k < |frames|
    ensures Numbered(frames, first)[k] == Packet(frames[k], first + k)
  {
    if k < |frames| - 1 {
      NumberedAt(frames[..|frames| - 1], first, k);
    }
  }

  lemma {:induction false} BatchCarries(s: State, owner: Owner, force: bool, count: nat)
    requires count <= |s.frames|
    ensures var t := SendBatch(s, owner, force, count);
            && |t.sent| == |s.sent| + 1 && t.sent[..|s.sent|] == s.sent
            && Carries(t.sent[|s.sent|], s.frames[..count], s.sequence)
            && t.frames == s.frames[count..] && t.sequence == s.sequence + count
  {
    forall k | 0 <= k < count
      ensures Numbered(s.frames[..count], s.sequence)[k] == Packet(s.frames[..count][k], s.sequence + k)
    {
      NumberedAt(s.frames[..count], s.sequence, k);
    }
  }

  /** The first five frames went out as one event. */
  predicate SentFive(s: State, t: State) {
    && |s.frames| >= 5 && |t.sent| == |s.sent| + 1 && t.sent[..|s.sent|] == s.sent
    && Carries(t.sent[|s.sent|], s.frames[..5], s.sequence) && t.frames == s.frames[5..]
  }

  /** A turn of the flush loop sends the next five frames, if they are there, whether it is forced or not. */
  lemma {:induction false} FlushSendsFive(s: State, owner: Owner, force: bool)
    ensures |s.frames| >= 5 ==> SentFive(s, FlushLoop(s, owner, force))
  {
    if |s.frames| >= 5 {
      BatchCarries(s, owner, force, 5);
    }
  }

  /** What a write sent: five packets, if with it five frames are there, and nothing otherwise. */
  predicate SentAtOnce(s: State, raw: Pcm, t: State) {
    var frames := |s.frames| + (|s.pcmBuffer| + |raw|) / 640;
    && t.accepted == s.accepted + raw
    && if frames < 5 then t.sent == s.sent && |t.frames| == frames && t.lock.Free?
       else && |t.sent| == |s.sent| + 1 && t.sent[..|s.sent|] == s.sent
            && |t.sent[|s.sent|].packets| == 5 && !t.sent[|s.sent|].endOfStream
            && |t.frames| == frames - 5 && t.sequence == s.sequence + 5
  }

  /**
   A write to an open stream that nobody flushes: once five frames are there, the first
   five go out as one event before the write is over; with fewer, nothing is sent.
   */
  lemma {:induction false} WriteSendsAtOnce(s: State, raw: Pcm)
    requires Enabled(s, Write(raw)) && s.streamId.Some? && !s.ending && !s.closed
    ensures SentAtOnce(s, raw, Apply(s, Write(raw)))
  {
    var s1 := s.(accepted := s.accepted + raw, pcmBuffer := s.pcmBuffer + raw);
    DrainLeaves(s1);
    var d := Drain(s1);
    if |d.frames| >= 5 {
      BatchCarries(d, Writer, false, 5);
    }
  }

  /** A flush that goes on sends the next five frames, if they are there. */
  lemma {:induction false} ResumeSendsFive(s: State)
    requires s.lock.Flushing? && !s.lock.final && |s.frames| >= 5
    ensures SentFive(s, Apply(s, Resume))
  {
    FlushSendsFive(s, s.lock.owner, s.lock.force);
  }

  /** A forced one sends all that is left, and with the last of it the end. */
  lemma {:induction false} ForcedResumeSendsAll(s: State)
    requires s.lock.Flushing? && !s.lock.final && s.lock.force && 0 < |s.frames| <= 5
    ensures var t := Apply(s, Resume);
            && |t.sent| == |s.sent| + 1 && t.sent[..|s.sent|] == s.sent
            && Carries(t.sent[|s.sent|], s.frames, s.sequence) && t.sent[|s.sent|].endOfStream && t.frames == []
  {
    BatchCarries(s, s.lock.owner, true, |s.frames|);
    assert s.frames[..|s.frames|] == s.frames;
  }

  // ---------------------------------------------------------------- how a session ended

  /** A step that closes the session. */
  predicate Ending(s: State, step: Step) {
    match step
    case Refuse(_) => true
    case OpenerCloses => true
    case Ack => s.streamId.Some?
    case PeerClose(_) => true
    case CancelCloses => true
    case Timeout => true
    case _ => false
  }

  /** One that makes `finish` raise: the stream was refused, closed for a reason, or never acknowledged. */
  predicate Spoiling(s: State, step: Step) {
    step.Refuse? || (!s.closed && (step.Timeout? || step == PeerClose(false)))
  }

  lemma {:induction false} FlushLeaves(s: State, owner: Owner, force: bool)
    ensures Apart(s, Flush(s, owner, force))
  {
    LoopLeaves(s, owner, force);
  }

  lemma {:induction false} WriteLeaves(s: State, raw: Pcm)
    requires Enabled(s, Write(raw))
    ensures Apart(s, Apply(s, Write(raw)))
    ensures s.streamId.None? || s.ending || s.closed ==> Apply(s, Write(raw)).lock.Free?
    ensures s.streamId.None? ==> Apply(s, Write(raw)).opener == s.opener
  {
    if !s.ending && !s.closed {
      var s1 := s.(accepted := s.accepted + raw, pcmBuffer := s.pcmBuffer + raw);
      DrainLeaves(s1);
      FlushLeaves(Drain(s1), Writer, false);
    }
  }

  lemma {:induction false} ResumeLeaves(s: State)
    requires s.lock.Flushing?
    ensures Apart(s, Apply(s, Resume))
  {
    if !s.lock.final {
      LoopLeaves(s, s.lock.owner, s.lock.force);
    }
  }

  lemma {:induction false} StepEnds(s: State, step: Step)
    requires Enabled(s, step)
    ensures Apply(s, step).closed <==> s.closed || Ending(s, step)
    ensures Apply(s, step).error <==> s.error || Spoiling(s, step)
  {
    if step.Write? {
      WriteLeaves(s, step.raw);
    } else if step.OpenerFlushes? {
      FlushLeaves(s, Opener, s.ending);
    } else if step.FinishFlushes? {
      FlushLeaves(s, Finisher, true);
    } else if step.Resume? {
      ResumeLeaves(s);
    } else {
      OtherEnds(s, step);
    }
  }

  lemma {:induction false} EndOfInputLeaves(s: State, pad: bool)
    ensures var t := EndOfInput(s, pad); t.closed == s.closed && t.error == s.error
  {
    if !s.ending {
      var s1 := s.(ending := true, tail := TailOf(pad));
      assert s1.closed == s.closed && s1.error == s.error;
    }
  }

  lemma {:induction false} PeerEnds(s: State, normal: bool)
    ensures var t := Apply(s, PeerClose(normal)); t.closed && (t.error <==> s.error || (!s.closed && !normal))
  {
  }

  lemma {:induction false} AckEnds(s: State)
    ensures var t := Apply(s, Ack); t.error == s.error && (t.closed <==> s.closed || s.streamId.Some?)
  {
  }

  lemma {:induction false} OtherEnds(s: State, step: Step)
    requires Enabled(s, step)
    requires !step.Write? && !step.OpenerFlushes? && !step.FinishFlushes? && !step.Resume?
    ensures Apply(s, step).closed <==> s.closed || Ending(s, step)
    ensures Apply(s, step).error <==> s.error || Spoiling(s, step)
  {
    if step.Finish? {
      EndOfInputLeaves(s, step.pad);
    } else if step.PeerClose? {
      PeerEnds(s, step.normal);
    } else if step.Ack? {
      AckEnds(s);
    }
  }

  /** Some step of the run did it, in the state it found. */
  predicate SomeStep(s: State, steps: seq<Step>, does: (State, Step) -> bool)
    decreases |steps|
  {
    steps != [] && Enabled(s, steps[0]) && (does(s, steps[0]) || SomeStep(Apply(s, steps[0]), steps[1..], does))
  }

  lemma {:induction false} RunEnds(s: State, steps: seq<Step>)
    requires Exec(s, steps).Some?
    ensures Exec(s, steps).value.closed <==> s.closed || SomeStep(s, steps, Ending)
    ensures Exec(s, steps).value.error <==> s.error || SomeStep(s, steps, Spoiling)
    decreases |steps|
  {
    if steps == [] {
    } else {
      StepEnds(s, steps[0]);
      RunEnds(Apply(s, steps[0]), steps[1..]);
    }
  }

  /**
   A session is closed exactly when something closed it, and its `finish` raises exactly
   when the stream was refused, or while it was open closed for a reason or timed out.
   */
  lemma {:induction false} EndMeans(steps: seq<Step>, s: State)
    requires Exec(Init(), steps) == Some(s)
    ensures s.closed <==> SomeStep(Init(), steps, Ending)
    ensures s.error <==> SomeStep(Init(), steps, Spoiling)
  {
    RunEnds(Init(), steps);
  }

  // ---------------------------------------------------------------- cancelled before it was open

  /** A cancelled session whose stream the opener has not begun to use. */
  predicate Stillborn(s: State) {
    s.cancelled && s.ending && s.sent == [] && s.lock.Free?
    && (s.opener == Asked || s.opener == Closing || (s.opener == Done && s.closed))
  }

  lemma {:induction false} StaysStillborn(s: State, step: Step)
    requires Stillborn(s) && Enabled(s, step)
    ensures Stillborn(Apply(s, step))
  {
  }

  lemma {:induction false} StillbornRun(s: State, steps: seq<Step>)
    requires Stillborn(s) && Exec(s, steps).Some?
    ensures Stillborn(Exec(s, steps).value)
    decreases |steps|
  {
    if steps == [] {
    } else {
      StaysStillborn(s, steps[0]);
      StillbornRun(Apply(s, steps[0]), steps[1..]);
    }
  }

  /** Cancelling a session whose stream is not open yet: whatever happens then, no audio is ever sent. */
  lemma {:induction false} CancelledIsSilent(before: seq<Step>, after: seq<Step>, s: State, t: State)
    requires Exec(Init(), before) == Some(s) && s.opener == Asked && !s.closed
    requires Exec(s, [Cancel] + after) == Some(t)
    ensures t.sent == [] && t.ending && t.cancelled
  {
    InitKeeps();
    ReachableKeeps(before, s);
    UnopenedIsIdle(Init(), before);
    assert ([Cancel] + after)[1..] == after;
    StillbornRun(Apply(s, Cancel), after);
  }

  /** Nobody flushes before the stream is open. */
  predicate Idle(s: State) {
    s.opener == Asked ==> s.lock.Free? && s.streamId.None?
  }

  lemma {:induction false} StaysIdle(s: State, step: Step)
    requires Idle(s) && Enabled(s, step)
    ensures Idle(Apply(s, step))
  {
    if step.Write? {
      WriteLeaves(s, step.raw);
    } else if step.OpenerFlushes? {
      FlushLeaves(s, Opener, s.ending);
    } else if step.FinishFlushes? {
      FlushLeaves(s, Finisher, true);
    } else if step.Resume? {
      ResumeLeaves(s);
    }
  }

  lemma {:induction false} UnopenedIsIdle(s: State, steps: seq<Step>)
    requires Idle(s) && Exec(s, steps).Some?
    ensures Idle(Exec(s, steps).value)
    decreases |steps|
  {
    if steps == [] {
    } else {
      StaysIdle(s, steps[0]);
      UnopenedIsIdle(Apply(s, steps[0]), steps[1..]);
    }
  }

  // ---------------------------------------------------------------- which stream

  /** The stream a step names. */
  function Named(stream: Option<nat>, step: Step): Option<nat> {
    match step
    case Answer(id) => Some(id)
    case Refuse(id) => id
    case _ => stream
  }

  function LastNamed(stream: Option<nat>, steps: seq<Step>): Option<nat>
    decreases |steps|
  {
    if steps == [] then stream else LastNamed(Named(stream, steps[0]), steps[1..])
  }

  lemma {:induction false} EndOfInputNames(s: State, pad: bool)
    ensures EndOfInput(s, pad).streamId == s.streamId
  {
  }

  lemma {:induction false} StepNames(s: State, step: Step)
    requires Enabled(s, step)
    ensures Apply(s, step).streamId == Named(s.streamId, step)
  {
    if step.Write? {
      WriteLeaves(s, step.raw);
    } else if step.OpenerFlushes? {
      FlushLeaves(s, Opener, s.ending);
    } else if step.FinishFlushes? {
      FlushLeaves(s, Finisher, true);
    } else if step.Resume? {
      ResumeLeaves(s);
    } else if step.Finish? {
      EndOfInputNames(s, step.pad);
    }
  }

  lemma {:induction false} RunNames(s: State, steps: seq<Step>)
    requires Exec(s, steps).Some?
    ensures Exec(s, steps).value.streamId == LastNamed(s.streamId, steps)
    decreases |steps|
  {
    if steps == [] {
    } else {
      StepNames(s, steps[0]);
      RunNames(Apply(s, steps[0]), steps[1..]);
    }
  }

  /** A session speaks over the stream its open request was answered with, and over none before. */
  lemma {:induction false} StreamIsTheAnswered(steps: seq<Step>, s: State)
    requires Exec(Init(), steps) == Some(s)
    ensures s.streamId == LastNamed(None, steps)
  {
    RunNames(Init(), steps);
  }
}
