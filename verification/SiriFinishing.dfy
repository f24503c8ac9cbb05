/**
 An utterance can always be finished: from wherever an undisturbed session is, ending the
 input, letting the sends return and an acknowledgement deliver all of it and close it.
 */
module SiriFinishing {
  import opened Bytes
  import opened SiriAudio
  import opened SiriAudioProofs
  import opened SiriTimely

  /** That many sends return. */
  function Resumes(n: nat): seq<Step> {
    if n == 0 then [] else [Resume] + Resumes(n - 1)
  }

  /** What a forced flush leaves alone. */
  predicate SameInputs(s: State, t: State) {
    && t.accepted == s.accepted && t.tail == s.tail && t.streamId == s.streamId && t.closed == s.closed
    && t.error == s.error && t.ending == s.ending && t.cancelled == s.cancelled
    && t.peerClosed == s.peerClosed && t.earlyAck == s.earlyAck
  }

  /** A forced flush that has something left to send, or has just sent the last of it. */
  predicate Underway(s: State) {
    && s.lock.Flushing? && s.lock.force && !s.eosSent
    && if s.lock.final then EndIssued(s) && s.frames == [] else s.frames != []
  }

  lemma {:induction false} BatchGoesOn(s: State, owner: Owner, count: nat)
    requires 0 < count <= |s.frames| && !s.eosSent
    ensures var t := SendBatch(s, owner, true, count);
            && SameInputs(s, t) && Underway(t) && |t.frames| == |s.frames| - count && t.lock.owner == owner
            && t.opener == s.opener
  {
    SentIsLast(
      s.(frames := s.frames[count..], sequence := s.sequence + count), owner, true, BatchEvent(s, true, count));
  }

  /** One turn of a forced flush sends something. */
  lemma {:induction false} LoopGoesOn(s: State, owner: Owner)
    requires !s.eosSent
    ensures var t := FlushLoop(s, owner, true);
            && SameInputs(s, t) && Underway(t) && t.lock.owner == owner && t.opener == s.opener
            && |t.frames| <= |s.frames| && (|t.frames| < |s.frames| || t.lock.final)
  {
    if s.frames != [] {
      BatchGoesOn(s, owner, if |s.frames| >= FRAMES_PER_EVENT then FRAMES_PER_EVENT else |s.frames|);
    } else {
      SentIsLast(s, owner, true, DataEvent([], true));
    }
  }

  lemma {:induction false} OneResume(s: State, n: nat)
    requires s.lock.Flushing?
    ensures Exec(s, Resumes(n + 1)) == Exec(Apply(s, Resume), Resumes(n))
  {
    assert Resumes(n + 1)[1..] == Resumes(n);
  }

  /** The end of the stream is out, its send has returned, and nothing is queued. */
  predicate Ended(t: State) {
    t.lock.Free? && t.eosSent && EndIssued(t) && t.frames == []
  }

  lemma {:induction false} LastResume(s: State)
    requires Underway(s) && s.lock.final
    ensures var t := Apply(s, Resume);
            && Ended(t) && SameInputs(s, t)
            && t.opener == if s.lock.owner == Opener then Done else s.opener
  {
  }

  lemma {:induction false} ResumeGoesOn(s: State)
    requires Underway(s) && !s.lock.final
    ensures var t := Apply(s, Resume);
            && Underway(t) && SameInputs(s, t) && t.lock.owner == s.lock.owner && t.opener == s.opener
            && |t.frames| <= |s.frames| && (|t.frames| < |s.frames| || t.lock.final)
  {
    LoopGoesOn(s, s.lock.owner);
  }

  lemma {:induction false} SameInputsOn(s: State, t: State, u: State)
    requires SameInputs(s, t) && SameInputs(t, u)
    ensures SameInputs(s, u)
  {
  }

  /** It comes to an end after finitely many sends. */
  lemma {:induction false} FlushCompletes(s: State) returns (n: nat, t: State)
    requires Underway(s)
    ensures Exec(s, Resumes(n)) == Some(t) && Ended(t) && SameInputs(s, t)
    ensures t.opener == if s.lock.owner == Opener then Done else s.opener
    decreases |s.frames|, !s.lock.final
  {
    var next := Apply(s, Resume);
    if s.lock.final {
      LastResume(s);
      n, t := 1, next;
      OneResume(s, 0);
    } else {
      ResumeGoesOn(s);
      var m;
      m, t := FlushCompletes(next);
      n := m + 1;
      OneResume(s, m);
      SameInputsOn(s, next, t);
    }
  }

  // ---------------------------------------------------------------- from any reachable state

  lemma {:induction false} SpoilingEnds(s: State, steps: seq<Step>)
    requires SomeStep(s, steps, Spoiling)
    ensures SomeStep(s, steps, Ending)
    decreases |steps|
  {
    if !Spoiling(s, steps[0]) {
      SpoilingEnds(Apply(s, steps[0]), steps[1..]);
    }
  }

  /** A session that is not closed has no error to raise. */
  lemma {:induction false} OpenIsFine(steps: seq<Step>, s: State)
    requires Exec(Init(), steps) == Some(s) && !s.closed
    ensures !s.error
  {
    EndMeans(steps, s);
    if s.error {
      SpoilingEnds(Init(), steps);
    }
  }

  lemma {:induction false} Then(s: State, step: Step, more: seq<Step>)
    requires Enabled(s, step)
    ensures Exec(s, [step] + more) == Exec(Apply(s, step), more)
  {
    assert ([step] + more)[1..] == more;
  }

  /** An acknowledgement after the end closes the session without an error. */
  lemma {:induction false} AckCloses(s: State)
    requires Ended(s) && s.streamId.Some? && !s.closed
    ensures var t := Apply(s, Ack);
            && t == s.(closed := true) && t.closed
  {
  }

  lemma {:induction false} FlushedAndAcknowledged(s: State) returns (rest: seq<Step>, t: State)
    requires Underway(s) && s.streamId.Some? && !s.closed
    ensures Exec(s, rest) == Some(t) && t.closed && Ended(t)
    ensures t.accepted == s.accepted && t.tail == s.tail && t.error == s.error && t.earlyAck == s.earlyAck
    ensures exists n :: rest == Resumes(n) + [Ack]
  {
    var n, u := FlushCompletes(s);
    rest := Resumes(n) + [Ack];
    t := Apply(u, Ack);
    AckCloses(u);
    ExecSplits(s, Resumes(n), [Ack]);
    var none: seq<Step> := [];
    Then(u, Ack, none);
    assert [Ack] + none == [Ack];
  }

  /** Ending the input settles the tail and nothing else that a flush looks at. */
  lemma {:induction false} InputEnds(s: State, pad: bool)
    requires Inv(s) && !s.ending
    ensures var t := EndOfInput(s, pad);
            && t.ending && t.accepted == s.accepted && t.tail == (if pad then Padded else Dropped)
            && t.streamId == s.streamId && t.closed == s.closed && t.error == s.error && t.earlyAck == s.earlyAck
            && t.eosSent == s.eosSent && t.opener == s.opener && t.lock == s.lock && t.cancelled == s.cancelled
  {
  }

  /** What was delivered when a session is over. */
  ghost predicate Delivered(t: State, accepted: Pcm, pad: bool) {
    var frames := Framing(Whole(accepted, if pad then Padded else Dropped));
    t.closed && !t.error && EndIssued(t) && Packets(t.sent) == FirstPackets(frames, |frames|)
  }

  lemma {:induction false} AllIsDelivered(steps: seq<Step>, t: State, pad: bool)
    requires Exec(Init(), steps) == Some(t) && t.closed && !t.error && Ended(t)
    requires t.tail == if pad then Padded else Dropped
    ensures Delivered(t, t.accepted, pad)
  {
    ReachableKeeps(steps, t);
    FramingIsUnique(t.encoded, t.pcmBuffer);
  }

  /** From an open stream: the end of input, the forced flush, its sends and the acknowledgement. */
  lemma {:induction false} FinishSucceeds(steps: seq<Step>, s: State, pad: bool) returns (ending: seq<Step>, t: State)
    requires Exec(Init(), steps) == Some(s)
    requires s.streamId.Some? && s.opener == Done && s.lock.Free? && !s.closed && !s.ending
    ensures Exec(s, ending) == Some(t) && Delivered(t, s.accepted, pad)
    ensures exists n :: ending == [Finish(pad)] + ([FinishFlushes] + (Resumes(n) + [Ack]))
  {
    ReachableKeeps(steps, s);
    OpenIsFine(steps, s);
    InputEnds(s, pad);
    var s1 := Apply(s, Finish(pad));
    StepKeeps(s, Finish(pad));
    LoopGoesOn(s1, Finisher);
    var s2 := Apply(s1, FinishFlushes);
    var rest;
    rest, t := FlushedAndAcknowledged(s2);
    ending := [Finish(pad)] + ([FinishFlushes] + rest);
    Then(s, Finish(pad), [FinishFlushes] + rest);
    Then(s1, FinishFlushes, rest);
    ExecSplits(Init(), steps, ending);
    AllIsDelivered(steps + ending, t, pad);
  }

  /** Before the stream is open: the end of input, the answer, the opener's flush, its sends, the acknowledgement. */
  lemma {:induction false} EarlyFinishSucceeds(steps: seq<Step>, s: State, pad: bool, id: nat)
    returns (ending: seq<Step>, t: State)
    requires Exec(Init(), steps) == Some(s) && s.opener == Asked && !s.closed && !s.ending
    ensures Exec(s, ending) == Some(t) && Delivered(t, s.accepted, pad)
    ensures exists n :: ending == [Finish(pad)] + ([Answer(id)] + ([OpenerFlushes] + (Resumes(n) + [Ack])))
  {
    ReachableKeeps(steps, s);
    OpenIsFine(steps, s);
    UnopenedIsIdle(Init(), steps);
    InputEnds(s, pad);
    var s1 := Apply(s, Finish(pad));
    StepKeeps(s, Finish(pad));
    var s2 := Apply(s1, Answer(id));
    StepKeeps(s1, Answer(id));
    LoopGoesOn(s2, Opener);
    var s3 := Apply(s2, OpenerFlushes);
    var rest;
    rest, t := FlushedAndAcknowledged(s3);
    ending := [Finish(pad)] + ([Answer(id)] + ([OpenerFlushes] + rest));
    Then(s, Finish(pad), [Answer(id)] + ([OpenerFlushes] + rest));
    Then(s1, Answer(id), [OpenerFlushes] + rest);
    Then(s2, OpenerFlushes, rest);
    ExecSplits(Init(), steps, ending);
    AllIsDelivered(steps + ending, t, pad);
  }
}
