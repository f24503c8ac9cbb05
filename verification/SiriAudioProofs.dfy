/**
 What every run of a Siri session keeps: no PCM is lost, repeated or reordered,
 packets are numbered without gaps, events hold five packets until the last one,
 and nothing follows the end of the stream.
 */
module SiriAudioProofs {
  import opened Bytes
  import opened SiriAudio

  // ---------------------------------------------------------------- the invariant

  /** What was sent is the first `sequence` packets of the stream; the queue is the rest of its frames. */
  ghost predicate Conserved(s: State) {
    && s.sequence <= |s.encoded|
    && Same(Packets(s.sent), FirstPackets(s.encoded, s.sequence))
    && Same(s.frames, Remaining(s.encoded, s.sequence))
  }

  predicate AllWhole(frames: seq<Pcm>) {
    frames == [] || (|frames[0]| == FRAME_BYTES && AllWhole(frames[1..]))
  }

  /** The frames and the residual buffer are what was accepted. */
  ghost predicate Framed(s: State) {
    AllWhole(s.encoded) && Same(Flatten(s.encoded) + s.pcmBuffer, Whole(s.accepted, s.tail))
  }

  /** Events of exactly five packets, none of them ending the stream. */
  predicate Full(sent: seq<DataEvent>) {
    sent == [] ||
    var last := sent[|sent| - 1];
    !last.endOfStream && |last.packets| == FRAMES_PER_EVENT && Full(sent[..|sent| - 1])
  }

  /** Five packets in every event but the last of the stream, which alone ends it. */
  predicate Batched(sent: seq<DataEvent>) {
    Full(sent) || (sent != [] && Ends(sent[|sent| - 1]) && Full(sent[..|sent| - 1]))
  }

  predicate Ends(event: DataEvent) {
    event.endOfStream && |event.packets| <= FRAMES_PER_EVENT
  }

  /** What the flags say about each other and about the stream. */
  ghost predicate Disciplined(s: State) {
    && (EndIssued(s) ==> s.ending && s.frames == [])
    && (s.streamId.None? ==> s.sent == [])
    && (s.opener == Asked ==> s.streamId.None?)
    && (s.opener == Closing ==> s.cancelled)
    && (s.cancelled ==> s.ending)
    && (s.tail != Open ==> s.ending && s.pcmBuffer == [])
    && (s.ending ==> s.cancelled || s.tail != Open)
    && (s.closed && !s.error ==> s.cancelled || s.peerClosed || s.earlyAck || EndIssued(s))
  }

  /** What a flush in progress is allowed to be, and when the end of the stream is out. */
  ghost predicate Locked(s: State) {
    match s.lock
    case Free => EndIssued(s) == s.eosSent
    case Flushing(owner, force, final) =>
      && EndIssued(s) == final && !s.eosSent && s.streamId.Some?
      && (final ==> force) && (force ==> s.ending)
      && (owner == Opener ==> s.opener == Answered)
  }

  /** Everything that does not depend on who holds the lock. */
  ghost predicate Sound(s: State) {
    Conserved(s) && Framed(s) && |s.pcmBuffer| < FRAME_BYTES && Batched(s.sent) && Disciplined(s)
  }

  ghost predicate Inv(s: State) {
    Sound(s) && Locked(s)
  }

  // ---------------------------------------------------------------- sequences

  lemma {:induction false} FlattenAppend(frames: seq<Pcm>, x: Pcm)
    ensures Flatten(frames + [x]) == Flatten(frames) + x
    ensures AllWhole(frames) && |x| == FRAME_BYTES ==> AllWhole(frames + [x])
  {
    if frames == [] {
      assert [x][1..] == [];
    } else {
      assert (frames + [x])[1..] == frames[1..] + [x];
      FlattenAppend(frames[1..], x);
    }
  }

  lemma {:induction false} PacketsAppend(sent: seq<DataEvent>, event: DataEvent)
    ensures Packets(sent + [event]) == Packets(sent) + event.packets
  {
    assert (sent + [event])[..|sent|] == sent;
  }

  /** A stream of whole frames and a shorter rest is cut back into the same frames. */
  lemma {:induction false} FramingIsUnique(frames: seq<Pcm>, rest: Pcm)
    requires AllWhole(frames) && |rest| < FRAME_BYTES
    ensures Framing(Flatten(frames) + rest) == frames
  {
    if frames == [] {
    } else {
      var pcm := Flatten(frames) + rest;
      assert pcm == frames[0] + (Flatten(frames[1..]) + rest);
      assert pcm[..FRAME_BYTES] == frames[0] && pcm[FRAME_BYTES..] == Flatten(frames[1..]) + rest;
      FramingIsUnique(frames[1..], rest);
    }
  }

  lemma {:induction false} FlattenLength(frames: seq<Pcm>)
    requires AllWhole(frames)
    ensures |Flatten(frames)| == FRAME_BYTES * |frames|
  {
    if frames == [] {
    } else {
      FlattenLength(frames[1..]);
    }
  }

  // ---------------------------------------------------------------- pieces of a step

  lemma {:induction false} FirstExtends(frames: seq<Pcm>, n: nat, pcm: Pcm)
    requires n <= |frames|
    ensures FirstPackets(frames + [pcm], n) == FirstPackets(frames, n)
  {
    if n == 0 {
    } else {
      assert (frames + [pcm])[..n - 1] == frames[..n - 1];
      FirstExtends(frames, n - 1, pcm);
    }
  }

  lemma {:induction false} RemainingExtends(frames: seq<Pcm>, n: nat, pcm: Pcm)
    requires n <= |frames|
    ensures Remaining(frames + [pcm], n) == Remaining(frames, n) + [AudioFrame(frames, pcm)]
    decreases |frames| - n
  {
    assert (frames + [pcm])[..n] == frames[..n];
    if n < |frames| {
      RemainingExtends(frames, n + 1, pcm);
    } else {
      assert frames[..n] == frames;
    }
  }

  lemma {:induction false} EncodeKeeps(s: State, pcm: Pcm)
    requires Conserved(s)
    ensures Conserved(Encode(s, pcm))
  {
    FirstExtends(s.encoded, s.sequence, pcm);
    RemainingExtends(s.encoded, s.sequence, pcm);
  }

  lemma {:induction false} RemainingDrops(frames: seq<Pcm>, n: nat, count: nat)
    requires n + count <= |frames|
    ensures Remaining(frames, n)[count..] == Remaining(frames, n + count)
  {
    if count == 0 {
    } else {
      RemainingDrops(frames, n, count - 1);
      var queue := Remaining(frames, n);
      assert queue[count..] == queue[count - 1..][1..];
    }
  }

  /** The next frames of the queue, numbered on, are the next packets of the stream. */
  lemma {:induction false} Requeue(frames: seq<Pcm>, n: nat, count: nat)
    requires n + count <= |frames|
    ensures FirstPackets(frames, n) + Numbered(Remaining(frames, n)[..count], n) == FirstPackets(frames, n + count)
  {
    if count == 0 {
    } else {
      var k := count - 1;
      var queue := Remaining(frames, n);
      RemainingDrops(frames, n, k);
      Requeue(frames, n, k);
      assert queue[k] == queue[k..][0] && queue[..count][..k] == queue[..k];
      Associative(FirstPackets(frames, n), Numbered(queue[..k], n), [Packet(queue[k], n + k)]);
    }
  }

  lemma {:induction false} DrainKeeps(s: State)
    requires Conserved(s) && Framed(s)
    ensures var d := Drain(s);
            && Conserved(d) && Framed(d) && |d.pcmBuffer| < FRAME_BYTES
            && d == s.(pcmBuffer := d.pcmBuffer, frames := d.frames, encoded := d.encoded)
    decreases |s.pcmBuffer|
  {
    if |s.pcmBuffer| < FRAME_BYTES {
    } else {
      var head, rest := s.pcmBuffer[..FRAME_BYTES], s.pcmBuffer[FRAME_BYTES..];
      EncodeKeeps(s, head);
      FlattenAppend(s.encoded, head);
      assert (Flatten(s.encoded) + head) + rest == Flatten(s.encoded) + s.pcmBuffer;
      DrainKeeps(Encode(s.(pcmBuffer := rest), head));
    }
  }

  /** Everything but the lock, the opener, the queue and what was sent is left alone by a flush. */
  ghost predicate SameInput(s: State, t: State) {
    t == s.(lock := t.lock, opener := t.opener, frames := t.frames, sequence := t.sequence, sent := t.sent)
  }

  lemma {:induction false} BatchedAppend(sent: seq<DataEvent>, event: DataEvent)
    requires Batched(sent) && (sent == [] || !sent[|sent| - 1].endOfStream)
    requires Ends(event) || (!event.endOfStream && |event.packets| == FRAMES_PER_EVENT)
    ensures Batched(sent + [event])
  {
    assert (sent + [event])[..|sent|] == sent;
  }

  lemma {:induction false} BatchConserves(s: State, owner: Owner, force: bool, count: nat)
    requires Conserved(s) && count <= |s.frames|
    ensures Conserved(SendBatch(s, owner, force, count))
  {
    RemainingDrops(s.encoded, s.sequence, count);
    Requeue(s.encoded, s.sequence, count);
    PacketsAppend(s.sent, BatchEvent(s, force, count));
  }

  lemma {:induction false} BatchBatches(s: State, owner: Owner, force: bool, count: nat)
    requires Batched(s.sent) && !EndIssued(s) && count <= |s.frames|
    requires count == FRAMES_PER_EVENT || (force && count == |s.frames| < FRAMES_PER_EVENT)
    ensures Batched(SendBatch(s, owner, force, count).sent)
  {
    BatchedAppend(s.sent, BatchEvent(s, force, count));
  }

  /** A flush may go on: it has a stream, its end is not out, and it forces only once input has ended. */
  ghost predicate MayFlush(s: State, owner: Owner, force: bool) {
    && Sound(s) && !EndIssued(s) && !s.eosSent && s.streamId.Some?
    && (force ==> s.ending) && (owner == Opener ==> s.opener == Answered)
  }

  lemma {:induction false} BatchKeeps(s: State, owner: Owner, force: bool, count: nat)
    requires MayFlush(s, owner, force) && count <= |s.frames|
    requires count == FRAMES_PER_EVENT || (force && count == |s.frames| < FRAMES_PER_EVENT)
    ensures Inv(SendBatch(s, owner, force, count)) && SameInput(s, SendBatch(s, owner, force, count))
  {
    var t := SendBatch(s, owner, force, count);
    BatchConserves(s, owner, force, count);
    BatchBatches(s, owner, force, count);
    assert t.sent[|s.sent|] == BatchEvent(s, force, count);
  }

  lemma {:induction false} EmptyEndKeeps(s: State, owner: Owner)
    requires MayFlush(s, owner, true) && s.frames == []
    ensures var t := SendData(s, owner, true, DataEvent([], true)); Inv(t) && SameInput(s, t)
  {
    PacketsAppend(s.sent, DataEvent([], true));
    assert Packets(s.sent) + [] == Packets(s.sent);
    BatchedAppend(s.sent, DataEvent([], true));
  }

  lemma {:induction false} FlushLoopKeeps(s: State, owner: Owner, force: bool)
    requires MayFlush(s, owner, force)
    ensures Inv(FlushLoop(s, owner, force)) && SameInput(s, FlushLoop(s, owner, force))
  {
    if |s.frames| >= FRAMES_PER_EVENT {
      BatchKeeps(s, owner, force, FRAMES_PER_EVENT);
    } else if force && s.frames != [] {
      BatchKeeps(s, owner, force, |s.frames|);
    } else if force {
      EmptyEndKeeps(s, owner);
    }
  }

  lemma {:induction false} ReleaseKeeps(s: State, owner: Owner)
    requires Inv(s) && s.lock.Free?
    ensures Inv(Release(s, owner)) && SameInput(s, Release(s, owner))
  {
  }

  /** Once the end is out there is nothing left to flush. */
  lemma {:induction false} NothingToFlush(s: State, owner: Owner, force: bool)
    requires Inv(s) && s.lock.Free? && s.eosSent
    ensures FlushLoop(s, owner, force) == Release(s, owner)
  {
  }

  lemma {:induction false} FlushKeeps(s: State, owner: Owner, force: bool)
    requires Inv(s) && s.lock.Free? && (force ==> s.ending)
    requires owner == Opener ==> s.opener == Answered
    ensures Inv(Flush(s, owner, force)) && SameInput(s, Flush(s, owner, force))
  {
    if s.streamId.None? || s.closed || s.eosSent {
      NothingToFlushYet(s, owner, force);
      ReleaseKeeps(s, owner);
    } else {
      FlushLoopKeeps(s, owner, force);
    }
  }

  lemma {:induction false} NothingToFlushYet(s: State, owner: Owner, force: bool)
    requires Inv(s) && s.lock.Free? && (s.streamId.None? || s.closed || s.eosSent)
    ensures Flush(s, owner, force) == Release(s, owner)
  {
    if s.eosSent {
      NothingToFlush(s, owner, force);
    }
  }

  lemma {:induction false} ResidueLength(encoded: seq<Pcm>, rest: Pcm, accepted: Pcm)
    requires AllWhole(encoded) && Flatten(encoded) + rest == accepted && |rest| < FRAME_BYTES
    ensures Residue(accepted) == |rest|
  {
    FlattenLength(encoded);
  }

  lemma {:induction false} PaddedWhole(encoded: seq<Pcm>, rest: Pcm, accepted: Pcm)
    requires AllWhole(encoded) && Flatten(encoded) + rest == accepted && 0 < |rest| < FRAME_BYTES
    ensures var frames := encoded + [rest + Zeros(FRAME_BYTES - |rest|)];
            AllWhole(frames) && Flatten(frames) + [] == Whole(accepted, Padded)
  {
    ResidueLength(encoded, rest, accepted);
    var zeros := Zeros(FRAME_BYTES - |rest|);
    FlattenAppend(encoded, rest + zeros);
    assert Flatten(encoded) + (rest + zeros) + [] == accepted + zeros;
  }

  lemma {:induction false} UnpaddedWhole(encoded: seq<Pcm>, rest: Pcm, accepted: Pcm, tail: Tail)
    requires AllWhole(encoded) && Flatten(encoded) + rest == accepted && |rest| < FRAME_BYTES
    requires rest == [] || tail == Dropped
    ensures Flatten(encoded) + [] == Whole(accepted, tail)
  {
    ResidueLength(encoded, rest, accepted);
    if rest == [] {
      assert accepted + [] == accepted;
    }
  }

  lemma {:induction false} EndOfInputFrames(s: State, pad: bool)
    requires Framed(s) && s.tail == Open && |s.pcmBuffer| < FRAME_BYTES && !s.ending
    ensures Framed(EndOfInput(s, pad))
  {
    if s.pcmBuffer == [] || !pad {
      UnpaddedWhole(s.encoded, s.pcmBuffer, s.accepted, TailOf(pad));
    } else {
      PaddedWhole(s.encoded, s.pcmBuffer, s.accepted);
    }
  }

  lemma {:induction false} EndOfInputConserves(s: State, pad: bool)
    requires Conserved(s)
    ensures Conserved(EndOfInput(s, pad))
  {
    if !s.ending && s.pcmBuffer != [] && pad && |s.pcmBuffer| <= FRAME_BYTES {
      EncodeKeeps(s.(ending := true, tail := Padded), s.pcmBuffer + Zeros(FRAME_BYTES - |s.pcmBuffer|));
    }
  }

  lemma {:induction false} EndOfInputKeeps(s: State, pad: bool)
    requires Inv(s) && s.lock.Free?
    ensures Inv(EndOfInput(s, pad))
  {
    if !s.ending {
      EndOfInputConserves(s, pad);
      EndOfInputFrames(s, pad);
    }
  }

  lemma {:induction false} WriteKeeps(s: State, raw: Pcm)
    requires Inv(s) && Enabled(s, Write(raw))
    ensures Inv(Apply(s, Write(raw)))
  {
    if !s.ending && !s.closed {
      var s0 := s.(accepted := s.accepted + raw, pcmBuffer := s.pcmBuffer + raw);
      assert Flatten(s.encoded) + (s.pcmBuffer + raw) == (Flatten(s.encoded) + s.pcmBuffer) + raw;
      DrainKeeps(s0);
      if s.streamId.Some? {
        FlushKeeps(Drain(s0), Writer, false);
      }
    }
  }

  /** What neither input nor a flush does: flags and the opener change, the audio does not. */
  ghost predicate SameAudio(s: State, t: State) {
    && t.sequence == s.sequence
    && Same(t.pcmBuffer, s.pcmBuffer) && Same(t.frames, s.frames) && Same(t.encoded, s.encoded)
    && Same(t.accepted, s.accepted) && t.tail == s.tail && Same(t.sent, s.sent)
  }

  lemma {:induction false} OpenerKeeps(s: State, step: Step)
    requires Inv(s) && Enabled(s, step) && (step.Answer? || step.Refuse? || step.OpenerCloses?)
    ensures Inv(Apply(s, step)) && SameAudio(s, Apply(s, step))
  {
  }

  lemma {:induction false} AckKeeps(s: State)
    requires Inv(s)
    ensures Inv(Apply(s, Ack)) && SameAudio(s, Apply(s, Ack))
  {
  }

  lemma {:induction false} PeerCloseKeeps(s: State, normal: bool)
    requires Inv(s)
    ensures Inv(Apply(s, PeerClose(normal))) && SameAudio(s, Apply(s, PeerClose(normal)))
  {
  }

  lemma {:induction false} CancelKeeps(s: State)
    requires Inv(s)
    ensures Inv(Apply(s, Cancel)) && SameAudio(s, Apply(s, Cancel))
  {
  }

  lemma {:induction false} CancelClosesKeeps(s: State)
    requires Inv(s) && s.cancelled
    ensures Inv(Apply(s, CancelCloses)) && SameAudio(s, Apply(s, CancelCloses))
  {
  }

  lemma {:induction false} TimeoutKeeps(s: State)
    requires Inv(s) && Enabled(s, Timeout)
    ensures Inv(Apply(s, Timeout)) && SameAudio(s, Apply(s, Timeout))
  {
  }

  lemma {:induction false} ResumeKeeps(s: State)
    requires Inv(s) && Enabled(s, Resume)
    ensures Inv(Apply(s, Resume))
    ensures var t := Apply(s, Resume);
            t == s.(lock := t.lock, opener := t.opener, frames := t.frames, sequence := t.sequence, sent := t.sent,
                    eosSent := t.eosSent)
  {
    if s.lock.final {
    } else {
      FlushLoopKeeps(s, s.lock.owner, s.lock.force);
    }
  }

  lemma {:induction false} StepKeeps(s: State, step: Step)
    requires Inv(s) && Enabled(s, step)
    ensures Inv(Apply(s, step))
  {
    match step
    case Write(raw) => WriteKeeps(s, raw);
    case Finish(pad) => EndOfInputKeeps(s, pad);
    case OpenerFlushes => FlushKeeps(s, Opener, s.ending);
    case FinishFlushes =>
      if !s.closed {
        FlushKeeps(s, Finisher, true);
      }
    case Resume => ResumeKeeps(s);
    case Answer(_) => OpenerKeeps(s, step);
    case Refuse(_) => OpenerKeeps(s, step);
    case OpenerCloses => OpenerKeeps(s, step);
    case Ack => AckKeeps(s);
    case PeerClose(normal) => PeerCloseKeeps(s, normal);
    case Cancel => CancelKeeps(s);
    case CancelCloses => CancelClosesKeeps(s);
    case Timeout => TimeoutKeeps(s);
  }

  // ---------------------------------------------------------------- every run

  /** Every state a session can reach, whatever the interleaving, satisfies the invariant. */
  lemma {:induction false} RunKeeps(s: State, steps: seq<Step>)
    requires Inv(s)
    ensures Exec(s, steps).Some? ==> Inv(Exec(s, steps).value)
    decreases |steps|
  {
    if steps == [] || !Enabled(s, steps[0]) {
    } else {
      StepKeeps(s, steps[0]);
      RunKeeps(Apply(s, steps[0]), steps[1..]);
    }
  }

  lemma {:induction false} InitKeeps()
    ensures Inv(Init())
  {
    assert Flatten<byte>([]) + [] == [];
  }

  lemma {:induction false} ReachableKeeps(steps: seq<Step>, s: State)
    requires Exec(Init(), steps) == Some(s)
    ensures Inv(s)
  {
    InitKeeps();
    RunKeeps(Init(), steps);
  }

  lemma {:induction false} FirstPacketIs(frames: seq<Pcm>, n: nat, k: nat)
    requires k < n <= |frames|
    ensures FirstPackets(frames, n)[k] == Packet(Encoding(frames, k), k)
  {
    if k >= n - 1 {
    } else {
      FirstPacketIs(frames, n - 1, k);
    }
  }

  lemma {:induction false} RemainingIs(frames: seq<Pcm>, n: nat, k: nat)
    requires n + k < |frames|
    ensures Remaining(frames, n)[k] == Encoding(frames, n + k)
    decreases k
  {
    if k == 0 {
    } else {
      RemainingIs(frames, n + 1, k - 1);
    }
  }

  lemma {:induction false} PacketsAre(frames: seq<Pcm>, n: nat)
    requires n <= |frames|
    ensures forall k | 0 <= k < n :: FirstPackets(frames, n)[k] == Packet(Encoding(frames, k), k)
  {
    forall k | 0 <= k < n ensures FirstPackets(frames, n)[k] == Packet(Encoding(frames, k), k) {
      FirstPacketIs(frames, n, k);
    }
  }

  lemma {:induction false} QueueIs(frames: seq<Pcm>, n: nat)
    requires n <= |frames|
    ensures forall k | 0 <= k < |frames| - n :: Remaining(frames, n)[k] == Encoding(frames, n + k)
  {
    forall k | 0 <= k < |frames| - n ensures Remaining(frames, n)[k] == Encoding(frames, n + k) {
      RemainingIs(frames, n, k);
    }
  }

  /**
   Conservation: in every reachable state, sent packets and queued frames together
   are one encoding of each 640-byte frame of the accepted PCM, in order and
   numbered from 0, with the incomplete frame still in the buffer.
   */
  lemma {:induction false} AudioIsConserved(steps: seq<Step>, s: State)
    requires Exec(Init(), steps) == Some(s)
    ensures s.encoded == Framing(Whole(s.accepted, s.tail))
    ensures Flatten(s.encoded) + s.pcmBuffer == Whole(s.accepted, s.tail)
    ensures |Packets(s.sent)| + |s.frames| == |s.encoded|
    ensures forall k | 0 <= k < |Packets(s.sent)| :: Packets(s.sent)[k] == Packet(Encoding(s.encoded, k), k)
    ensures forall k | 0 <= k < |s.frames| :: s.frames[k] == Encoding(s.encoded, |Packets(s.sent)| + k)
  {
    ReachableKeeps(steps, s);
    FramingIsUnique(s.encoded, s.pcmBuffer);
    PacketsAre(s.encoded, s.sequence);
    QueueIs(s.encoded, s.sequence);
  }

  /** The audio does not depend on how the PCM was cut into writes or on when the stream opened. */
  lemma {:induction false} AudioIsIndependentOfChunks(a: seq<Step>, b: seq<Step>, s: State, t: State)
    requires Exec(Init(), a) == Some(s) && Exec(Init(), b) == Some(t)
    requires s.accepted == t.accepted && s.tail == t.tail && EndIssued(s) && EndIssued(t)
    ensures Packets(s.sent) == Packets(t.sent)
  {
    AudioIsConserved(a, s);
    AudioIsConserved(b, t);
    ReachableKeeps(a, s);
    ReachableKeeps(b, t);
  }

  lemma {:induction false} FullCount(sent: seq<DataEvent>)
    requires Full(sent)
    ensures |Packets(sent)| == FRAMES_PER_EVENT * |sent|
    ensures forall k | 0 <= k < |sent| :: !sent[k].endOfStream && |sent[k].packets| == FRAMES_PER_EVENT
  {
    if sent == [] {
    } else {
      FullCount(sent[..|sent| - 1]);
    }
  }

  /** In every reachable state, only the last event may end the stream or hold other than five packets. */
  lemma {:induction false} EventsAreBatched(steps: seq<Step>, s: State, k: nat)
    requires Exec(Init(), steps) == Some(s) && k < |s.sent|
    ensures k < |s.sent| - 1 || !EndIssued(s) ==> !s.sent[k].endOfStream && |s.sent[k].packets| == FRAMES_PER_EVENT
  {
    ReachableKeeps(steps, s);
    if Full(s.sent) {
      FullCount(s.sent);
    } else {
      FullCount(s.sent[..|s.sent| - 1]);
    }
  }

  /** The end of the stream is out, and nothing is left to send. */
  predicate Over(s: State) {
    && EndIssued(s) && s.ending && s.frames == []
    && (s.lock.Free? ==> s.eosSent) && (s.lock.Flushing? ==> s.lock.final)
  }

  lemma {:induction false} EndIsOver(s: State)
    requires Inv(s) && EndIssued(s)
    ensures Over(s)
  {
  }

  lemma {:induction false} OverFlush(s: State, owner: Owner, force: bool)
    requires Over(s) && s.lock.Free?
    ensures Flush(s, owner, force) == Release(s, owner)
  {
  }

  lemma {:induction false} EndedStream(s: State, step: Step)
    requires Over(s) && Enabled(s, step)
    ensures Over(Apply(s, step)) && Same(Apply(s, step).sent, s.sent) && Same(Apply(s, step).encoded, s.encoded)
  {
    match step
    case OpenerFlushes => OverFlush(s, Opener, s.ending);
    case FinishFlushes => OverFlush(s, Finisher, true);
    case _ =>
  }

  /** Once the end of the stream is out, the run sends no further data event. */
  lemma {:induction false} NothingAfterEnd(s: State, steps: seq<Step>)
    requires Inv(s) && EndIssued(s) && Exec(s, steps).Some?
    ensures Exec(s, steps).value.sent == s.sent
  {
    EndIsOver(s);
    OverRun(s, steps);
  }

  lemma {:induction false} OverRun(s: State, steps: seq<Step>)
    requires Over(s) && Exec(s, steps).Some?
    ensures var t := Exec(s, steps).value; Over(t) && Same(t.sent, s.sent) && Same(t.encoded, s.encoded)
    decreases |steps|
  {
    if steps == [] {
    } else {
      EndedStream(s, steps[0]);
      OverRun(Apply(s, steps[0]), steps[1..]);
    }
  }

  // ---------------------------------------------------------------- how many events

  lemma {:induction false} EventCountByLast(s: State)
    requires Inv(s) && EndIssued(s)
    ensures var n, last := |s.encoded|, s.sent[|s.sent| - 1];
            if |last.packets| == FRAMES_PER_EVENT then
              n > 0 && n % FRAMES_PER_EVENT == 0 && |s.sent| == n / FRAMES_PER_EVENT
            else |last.packets| == n % FRAMES_PER_EVENT && |s.sent| == n / FRAMES_PER_EVENT + 1
  {
    if Full(s.sent) {
      FullCount(s.sent);
    } else {
      FullCount(s.sent[..|s.sent| - 1]);
    }
  }

  /** The step with which the forced flush begins: input has ended, the stream is open, nothing was forced before. */
  predicate Forces(s: State, step: Step) {
    && (step.FinishFlushes? || (step.OpenerFlushes? && s.ending))
    && Enabled(s, step) && s.streamId.Some? && !s.closed && !s.eosSent
  }

  /** Packets in the last event when `queued` frames wait at that moment. */
  function LastEvent(queued: nat): nat {
    if queued > 0 && queued % FRAMES_PER_EVENT == 0 then FRAMES_PER_EVENT else queued % FRAMES_PER_EVENT
  }

  /** A forced flush of `queued` frames is under way, or has put the end out. */
  predicate Forced(s: State, queued: nat) {
    if EndIssued(s) then Over(s) && |s.sent[|s.sent| - 1].packets| == LastEvent(queued)
    else
      && s.ending && !s.eosSent && s.lock.Flushing? && s.lock.force && !s.lock.final
      && |s.frames| > 0 && queued > 0 && |s.frames| % FRAMES_PER_EVENT == queued % FRAMES_PER_EVENT
  }

  lemma {:induction false} SentIsLast(s: State, owner: Owner, force: bool, event: DataEvent)
    ensures var t := SendData(s, owner, force, event);
            t.sent != [] && t.sent[|t.sent| - 1] == event && (EndIssued(t) <==> event.endOfStream)
  {
  }

  lemma {:induction false} ForcedBatch(s: State, owner: Owner, count: nat)
    requires s.ending && !s.eosSent && 0 < count <= |s.frames| && count <= FRAMES_PER_EVENT
    requires count == FRAMES_PER_EVENT || count == |s.frames|
    ensures Forced(SendBatch(s, owner, true, count), |s.frames|)
  {
    var event := BatchEvent(s, true, count);
    SentIsLast(s.(frames := s.frames[count..], sequence := s.sequence + count), owner, true, event);
    assert |event.packets| == count;
  }

  /** Only the count of what is queued, modulo five, matters further on. */
  lemma {:induction false} ForcedAlike(s: State, a: nat, b: nat)
    requires Forced(s, a) && a % FRAMES_PER_EVENT == b % FRAMES_PER_EVENT && (a > 0 <==> b > 0)
    ensures Forced(s, b)
  {
  }

  lemma {:induction false} ForcedEmpty(s: State, owner: Owner)
    requires s.ending && !s.eosSent && s.frames == []
    ensures Forced(FlushLoop(s, owner, true), 0)
  {
    SentIsLast(s, owner, true, DataEvent([], true));
  }

  lemma {:induction false} ForcedLoop(s: State, owner: Owner, queued: nat)
    requires s.ending && !s.eosSent
    requires |s.frames| % FRAMES_PER_EVENT == queued % FRAMES_PER_EVENT && (|s.frames| > 0 <==> queued > 0)
    ensures Forced(FlushLoop(s, owner, true), queued)
  {
    if s.frames == [] {
      ForcedEmpty(s, owner);
    } else {
      var count := if |s.frames| >= FRAMES_PER_EVENT then FRAMES_PER_EVENT else |s.frames|;
      ForcedBatch(s, owner, count);
      assert FlushLoop(s, owner, true) == SendBatch(s, owner, true, count);
      ForcedAlike(FlushLoop(s, owner, true), |s.frames|, queued);
    }
  }

  lemma {:induction false} BatchLeavesInput(s: State, owner: Owner, force: bool, count: nat)
    requires count <= |s.frames|
    ensures SameInput(s, SendBatch(s, owner, force, count))
  {
  }

  lemma {:induction false} SendLeavesInput(s: State, owner: Owner, force: bool, event: DataEvent)
    ensures SameInput(s, SendData(s, owner, force, event)) && SameInput(s, Release(s, owner))
  {
  }

  lemma {:induction false} LoopLeavesInput(s: State, owner: Owner, force: bool)
    ensures SameInput(s, FlushLoop(s, owner, force))
  {
    if |s.frames| >= FRAMES_PER_EVENT {
      BatchLeavesInput(s, owner, force, FRAMES_PER_EVENT);
    } else if force && s.frames != [] {
      BatchLeavesInput(s, owner, force, |s.frames|);
    } else {
      SendLeavesInput(s, owner, force, DataEvent([], true));
    }
  }

  lemma {:induction false} ForcedStep(s: State, step: Step, queued: nat)
    requires Forced(s, queued) && Enabled(s, step)
    ensures Forced(Apply(s, step), queued) && Same(Apply(s, step).encoded, s.encoded)
  {
    if EndIssued(s) {
      EndedStream(s, step);
    } else if step.Resume? {
      ForcedLoop(s, s.lock.owner, queued);
      LoopLeavesInput(s, s.lock.owner, true);
    }
  }

  /** From the start of a forced flush on, the last event and the frames are settled. */
  lemma {:induction false} ForcedRun(s: State, steps: seq<Step>, queued: nat)
    requires Forced(s, queued) && Exec(s, steps).Some?
    ensures Forced(Exec(s, steps).value, queued) && Same(Exec(s, steps).value.encoded, s.encoded)
    decreases |steps|
  {
    if steps == [] {
    } else {
      ForcedStep(s, steps[0], queued);
      ForcedRun(Apply(s, steps[0]), steps[1..], queued);
    }
  }

  /** No end is out, and no forced flush is under way. */
  predicate Unforced(s: State) {
    !EndIssued(s) && (s.lock.Flushing? ==> !s.lock.force && !s.lock.final)
  }

  lemma {:induction false} UnforcedLoop(s: State, owner: Owner)
    requires !EndIssued(s)
    ensures Unforced(FlushLoop(s, owner, false))
  {
    if |s.frames| >= FRAMES_PER_EVENT {
      var count := FRAMES_PER_EVENT;
      SentIsLast(
        s.(frames := s.frames[count..], sequence := s.sequence + count), owner, false, BatchEvent(s, false, count));
    }
  }

  lemma {:induction false} DrainOnly(s: State)
    ensures var d := Drain(s); d == s.(pcmBuffer := d.pcmBuffer, frames := d.frames, encoded := d.encoded)
    decreases |s.pcmBuffer|
  {
    if |s.pcmBuffer| < FRAME_BYTES {
    } else {
      DrainOnly(Encode(s.(pcmBuffer := s.pcmBuffer[FRAME_BYTES..]), s.pcmBuffer[..FRAME_BYTES]));
    }
  }

  lemma {:induction false} UnforcedWrite(s: State, raw: Pcm)
    requires Unforced(s) && Enabled(s, Write(raw))
    ensures Unforced(Apply(s, Write(raw)))
  {
    var s0 := s.(accepted := s.accepted + raw, pcmBuffer := s.pcmBuffer + raw);
    DrainOnly(s0);
    UnforcedLoop(Drain(s0), Writer);
  }

  lemma {:induction false} UnforcedFlush(s: State, step: Step)
    requires Unforced(s) && Enabled(s, step) && !Forces(s, step) && (step.OpenerFlushes? || step.FinishFlushes?)
    ensures Unforced(Apply(s, step))
  {
    if step.OpenerFlushes? && !s.ending {
      UnforcedLoop(s, Opener);
    }
  }

  lemma {:induction false} UnforcedOther(s: State, step: Step)
    requires Unforced(s) && Enabled(s, step)
    requires !step.Write? && !step.OpenerFlushes? && !step.FinishFlushes? && !step.Resume?
    ensures Unforced(Apply(s, step))
  {
  }

  lemma {:induction false} UnforcedStep(s: State, step: Step)
    requires Unforced(s) && Enabled(s, step) && !Forces(s, step)
    ensures Unforced(Apply(s, step))
  {
    if step.Write? {
      UnforcedWrite(s, step.raw);
    } else if step.OpenerFlushes? || step.FinishFlushes? {
      UnforcedFlush(s, step);
    } else if step.Resume? {
      UnforcedLoop(s, s.lock.owner);
    } else {
      UnforcedOther(s, step);
    }
  }

  /** Every end of a stream comes out of a forced flush: the run has a step that begins one. */
  lemma {:induction false} EndIsForced(s: State, steps: seq<Step>) returns (k: nat)
    requires Unforced(s) && Exec(s, steps).Some? && EndIssued(Exec(s, steps).value)
    ensures k < |steps| && Exec(s, steps[..k]).Some? && Forces(Exec(s, steps[..k]).value, steps[k])
    decreases |steps|
  {
    if Forces(s, steps[0]) {
      k := 0;
    } else {
      UnforcedStep(s, steps[0]);
      var later := EndIsForced(Apply(s, steps[0]), steps[1..]);
      k := later + 1;
      assert steps[..k][1..] == steps[1..][..later];
    }
  }

  lemma {:induction false} ForcedFrom(a: State, step: Step, steps: seq<Step>)
    requires Inv(a) && Forces(a, step) && Exec(Apply(a, step), steps).Some?
    ensures Forced(Exec(Apply(a, step), steps).value, |a.frames|)
    ensures Same(Exec(Apply(a, step), steps).value.encoded, a.encoded)
  {
    var owner := if step.FinishFlushes? then Finisher else Opener;
    NotOverYet(a);
    assert Apply(a, step) == FlushLoop(a, owner, true);
    ForcedLoop(a, owner, |a.frames|);
    LoopLeavesInput(a, owner, true);
    ForcedRun(Apply(a, step), steps, |a.frames|);
  }

  lemma {:induction false} NotOverYet(a: State)
    requires Inv(a) && a.lock.Free? && !a.eosSent
    ensures !EndIssued(a)
  {
  }

  /** The state before step `k` of a run. */
  function Before(steps: seq<Step>, k: nat): Option<State>
    requires k < |steps|
  {
    Exec(Init(), steps[..k])
  }

  /**
   A completed stream of n frames took n/5 + 1 events, or n/5 when 5 divides n > 0
   and its last group was still queued as the forced flush began.
   */
  lemma {:induction false} EventCount(steps: seq<Step>, s: State)
    requires Exec(Init(), steps) == Some(s) && EndIssued(s)
    ensures exists k | 0 <= k < |steps| ::
              && Before(steps, k).Some? && Forces(Before(steps, k).value, steps[k])
              && |s.sent| == |s.encoded| / FRAMES_PER_EVENT + LateEvents(|Before(steps, k).value.frames|)
  {
    InitKeeps();
    ReachableKeeps(steps, s);
    var k := EndIsForced(Init(), steps);
    var a := Before(steps, k).value;
    ReachableKeeps(steps[..k], a);
    assert steps == steps[..k] + steps[k..] && steps[k..][1..] == steps[k + 1..];
    ExecSplits(Init(), steps[..k], steps[k..]);
    ForcedFrom(a, steps[k], steps[k + 1..]);
    EventCountByLast(s);
    LateEventsAre(s, |a.frames|);
  }

  /** Events beyond one for every five frames. */
  function LateEvents(queued: nat): nat {
    if queued > 0 && queued % FRAMES_PER_EVENT == 0 then 0 else 1
  }

  lemma {:induction false} LateEventsAre(s: State, queued: nat)
    requires Inv(s) && EndIssued(s) && Forced(s, queued)
    ensures |s.sent| == |s.encoded| / FRAMES_PER_EVENT + LateEvents(queued)
  {
    EventCountByLast(s);
  }

  // ---------------------------------------------------------------- delivery

  /** The PCM handed to the writes of a run. */
  function Fed(steps: seq<Step>): Pcm {
    if steps == [] then [] else Input(steps[0]) + Fed(steps[1..])
  }

  function Input(step: Step): Pcm {
    if step.Write? then step.raw else []
  }

  lemma {:induction false} FedSplits(pcm: Pcm, steps: seq<Step>)
    requires steps != []
    ensures (pcm + Input(steps[0])) + Fed(steps[1..]) == pcm + Fed(steps)
  {
    Associative(pcm, Input(steps[0]), Fed(steps[1..]));
  }

  /** A step that leaves the session open for input. */
  predicate KeepsOpen(step: Step) {
    step.Answer? || step.OpenerFlushes? || step.Write? || step.Resume?
  }

  predicate AllKeepOpen(steps: seq<Step>) {
    steps == [] || (KeepsOpen(steps[0]) && AllKeepOpen(steps[1..]))
  }

  /** Neither a cancellation nor a close by the peer. */
  predicate Undisturbed(step: Step) {
    !step.Cancel? && !step.PeerClose?
  }

  predicate AllUndisturbed(steps: seq<Step>) {
    steps == [] || (Undisturbed(steps[0]) && AllUndisturbed(steps[1..]))
  }

  /** The peer acknowledges the end of the stream only once it is out. */
  predicate AcksFollowEnd(s: State, steps: seq<Step>)
    decreases |steps|
  {
    steps == [] || !Enabled(s, steps[0]) ||
    ((steps[0].Ack? ==> EndIssued(s)) && AcksFollowEnd(Apply(s, steps[0]), steps[1..]))
  }

  lemma {:induction false} AcksSplit(s: State, a: seq<Step>, b: seq<Step>)
    requires AcksFollowEnd(s, a + b) && Exec(s, a).Some?
    ensures AcksFollowEnd(Exec(s, a).value, b)
    decreases |a|
  {
    if a == [] {
      assert a + b == b;
    } else {
      assert (a + b)[1..] == a[1..] + b;
      AcksSplit(Apply(s, a[0]), a[1..], b);
    }
  }

  /** The session takes input, and has taken `pcm` so far. */
  ghost predicate Taking(s: State, pcm: Pcm) {
    !s.ending && !s.closed && !s.peerClosed && !s.earlyAck && Same(s.accepted, pcm)
  }

  lemma {:induction false} OpenRunAccepts(s: State, steps: seq<Step>, pcm: Pcm)
    requires Inv(s) && Taking(s, pcm) && Exec(s, steps).Some?
    requires AllKeepOpen(steps)
    ensures Taking(Exec(s, steps).value, pcm + Fed(steps))
    decreases |steps|
  {
    if steps == [] {
      assert pcm + [] == pcm;
    } else {
      StepKeeps(s, steps[0]);
      OpenStep(s, steps[0], pcm);
      OpenRunAccepts(Apply(s, steps[0]), steps[1..], pcm + Input(steps[0]));
      FedSplits(pcm, steps);
    }
  }

  lemma {:induction false} OpenStep(s: State, step: Step, pcm: Pcm)
    requires Inv(s) && Taking(s, pcm) && Enabled(s, step) && KeepsOpen(step)
    ensures Taking(Apply(s, step), pcm + Input(step))
  {
    assert pcm + [] == pcm;
    match step
    case Write(raw) =>
      var s0 := s.(accepted := s.accepted + raw, pcmBuffer := s.pcmBuffer + raw);
      assert Flatten(s.encoded) + (s.pcmBuffer + raw) == (Flatten(s.encoded) + s.pcmBuffer) + raw;
      DrainKeeps(s0);
      if s.streamId.Some? {
        FlushKeeps(Drain(s0), Writer, false);
      }
    case OpenerFlushes => FlushKeeps(s, Opener, false);
    case Resume => ResumeKeeps(s);
    case _ =>
  }

  /** After the end of input the accepted PCM and what became of its tail are settled. */
  lemma {:induction false} EndedRunKeeps(s: State, steps: seq<Step>)
    requires Inv(s) && Unspoilt(s) && Exec(s, steps).Some?
    requires AllUndisturbed(steps) && AcksFollowEnd(s, steps)
    ensures var t := Exec(s, steps).value; Unspoilt(t) && t.accepted == s.accepted && t.tail == s.tail
    decreases |steps|
  {
    if steps == [] {
    } else {
      StepKeeps(s, steps[0]);
      EndedStep(s, steps[0]);
      EndedRunKeeps(Apply(s, steps[0]), steps[1..]);
    }
  }

  /** Input has ended, and nothing but the end of the stream has closed the session. */
  predicate Unspoilt(s: State) {
    s.ending && !s.cancelled && !s.peerClosed && !s.earlyAck
  }

  lemma {:induction false} EndedStep(s: State, step: Step)
    requires Inv(s) && Unspoilt(s) && Enabled(s, step) && Undisturbed(step) && (step.Ack? ==> EndIssued(s))
    ensures var t := Apply(s, step); Unspoilt(t) && t.accepted == s.accepted && t.tail == s.tail
  {
    match step
    case OpenerFlushes => FlushKeeps(s, Opener, true);
    case FinishFlushes =>
      if !s.closed {
        FlushKeeps(s, Finisher, true);
      }
    case Resume => ResumeKeeps(s);
    case _ =>
  }

  lemma {:induction false} ExecSplits(s: State, a: seq<Step>, b: seq<Step>)
    ensures Exec(s, a + b) == (match Exec(s, a) case Some(t) => Exec(t, b) case None => None)
    decreases |a|
  {
    if a == [] {
      assert a + b == b;
    } else {
      assert (a + b)[1..] == a[1..] + b;
      if Enabled(s, a[0]) {
        ExecSplits(Apply(s, a[0]), a[1..], b);
      }
    }
  }

  /** What the end of such a run looks like. */
  lemma {:induction false} FinishedRun(feeding: seq<Step>, ending: seq<Step>, s: State)
    requires Exec(Init(), feeding + [Finish(true)] + ending) == Some(s)
    requires AllKeepOpen(feeding) && AllUndisturbed(ending) && s.closed && !s.error
    requires AcksFollowEnd(Init(), feeding + [Finish(true)] + ending)
    ensures Inv(s) && Same(s.accepted, Fed(feeding)) && s.tail == Padded && EndIssued(s)
  {
    ReachableKeeps(feeding + [Finish(true)] + ending, s);
    ExecSplits(Init(), feeding + [Finish(true)], ending);
    ExecSplits(Init(), feeding, [Finish(true)]);
    var a := Exec(Init(), feeding).value;
    FinishStep(feeding, a);
    assert [Finish(true)][1..] == [];
    assert Exec(a, [Finish(true)]) == Some(EndOfInput(a, true));
    AcksSplit(Init(), feeding + [Finish(true)], ending);
    EndedRunKeeps(EndOfInput(a, true), ending);
  }

  lemma {:induction false} FinishStep(feeding: seq<Step>, a: State)
    requires Exec(Init(), feeding) == Some(a) && AllKeepOpen(feeding) && a.lock.Free?
    ensures var b := EndOfInput(a, true);
            Inv(b) && Unspoilt(b) && Same(b.accepted, Fed(feeding)) && b.tail == Padded
  {
    InitKeeps();
    OpenRunAccepts(Init(), feeding, []);
    assert [] + Fed(feeding) == Fed(feeding);
    ReachableKeeps(feeding, a);
    EndOfInputKeeps(a, true);
  }

  /**
   End-to-end delivery: an utterance fed in any pieces, then finished with padding,
   whose `finish` returned normally (the session is closed without an error) and
   which nobody cancelled or closed and no acknowledgement came before its time, has
   been delivered: the packets carry exactly the frames of the PCM, the last one
   padded with zeros, and one end of stream followed them.
   */
  lemma {:induction false} FinishedMeansDelivered(feeding: seq<Step>, ending: seq<Step>, s: State)
    requires Exec(Init(), feeding + [Finish(true)] + ending) == Some(s)
    requires AllKeepOpen(feeding)
    requires AllUndisturbed(ending)
    requires AcksFollowEnd(Init(), feeding + [Finish(true)] + ending)
    requires s.closed && !s.error
    ensures var frames := Framing(Whole(Fed(feeding), Padded));
            && Packets(s.sent) == FirstPackets(frames, |frames|)
            && Flatten(frames) == Whole(Fed(feeding), Padded)
            && |frames| == (|Fed(feeding)| + FRAME_BYTES - 1) / FRAME_BYTES
            && EndIssued(s)
  {
    FinishedRun(feeding, ending, s);
    FramingIsUnique(s.encoded, s.pcmBuffer);
    assert Flatten(s.encoded) + [] == Flatten(s.encoded);
    FlattenLength(s.encoded);
  }

  // ---------------------------------------------------------------- send_pcm

  /** The pieces a whole buffer is written in: nothing is lost, and no piece is empty or above one frame. */
  lemma {:induction false} SlicesAreWhole(raw: Pcm)
    ensures Flatten(Slices(raw)) == raw
    ensures forall c | c in Slices(raw) :: 0 < |c| <= FRAME_BYTES
  {
    if |raw| > FRAME_BYTES {
      SlicesAreWhole(raw[FRAME_BYTES..]);
      assert Slices(raw)[1..] == Slices(raw[FRAME_BYTES..]);
    } else if raw != [] {
      assert [raw][1..] == [];
    }
  }
}
