/**
 `SiriSession` as the object it is. Each method is what runs between two awaits
 and is proved to be the step of `SiriAudio` of the same name.
 */
module SiriSession {
  import opened Bytes
  import opened SiriAudio
  import opened SiriTimely

  class SiriSession {
    var streamId: Option<nat>
    var sequence: nat
    var pcmBuffer: Pcm
    var frames: seq<AudioFrame>
    var encoded: seq<Pcm>  // what the encoder has seen: it is stateful
    var ending: bool
    var closed: bool
    var eosSent: bool
    var error: bool
    var cancelled: bool
    var opener: OpenPhase
    var lock: Lock
    ghost var accepted: Pcm
    ghost var tail: Tail
    ghost var peerClosed: bool
    ghost var earlyAck: bool
    ghost var sent: seq<DataEvent>

    constructor ()
      ensures View() == Init()
    {
      streamId, sequence, pcmBuffer, frames, encoded := None, 0, [], [], [];
      ending, closed, eosSent, error, cancelled := false, false, false, false, false;
      opener, lock := Asked, Free;
      accepted, tail, peerClosed, earlyAck, sent := [], Open, false, false, [];
    }

    ghost function View(): State
      reads this
    {
      State(streamId, sequence, pcmBuffer, frames, encoded, ending, closed, eosSent, error, cancelled,
            opener, lock, accepted, tail, peerClosed, earlyAck, sent)
    }

    /** `dataSend/open` was answered and the stream registered; a cancel that came first closes it instead. */
    method Answer(id: nat)
      requires Enabled(View(), Step.Answer(id))
      modifies this
      ensures View() == Apply(old(View()), Step.Answer(id))
    {
      streamId := Some(id);
      if cancelled {
        opener := Closing;
      } else {
        opener := Answered;
      }
    }

    method Refuse(refused: Option<nat>)
      requires Enabled(View(), Step.Refuse(refused))
      modifies this
      ensures View() == Apply(old(View()), Step.Refuse(refused))
    {
      streamId := refused;
      error := true;
      opener := Done;
      MarkDone();
    }

    method OpenerCloses()
      requires Enabled(View(), Step.OpenerCloses)
      modifies this
      ensures View() == Apply(old(View()), Step.OpenerCloses)
    {
      opener := Done;
      MarkDone();
    }

    method OpenerFlushes()
      requires Enabled(View(), Step.OpenerFlushes)
      modifies this
      ensures View() == Apply(old(View()), Step.OpenerFlushes)
    {
      FlushLocked(Opener, ending);
    }

    /** `raised` says that the session was already ending or closed. */
    method Write(raw: Pcm) returns (raised: bool)
      requires Enabled(View(), Step.Write(raw))
      modifies this
      ensures View() == Apply(old(View()), Step.Write(raw))
      ensures raised <==> old(ending) || old(closed)
      ensures !raised && old(streamId).Some? ==> SentAtOnce(old(View()), raw, View())
    {
      if ending || closed {
        return true;
      }
      ghost var before, after := View(), Apply(View(), Step.Write(raw));
      if streamId.Some? {
        WriteSendsAtOnce(before, raw);
      }
      pcmBuffer := pcmBuffer + raw;
      accepted := accepted + raw;
      DrainBuffer();
      if streamId.Some? {
        FlushLocked(Writer, false);
      }
      assert View() == after;
      raised := false;
    }

    /** The loop of `write` that cuts whole frames off the buffer and encodes them. */
    method DrainBuffer()
      modifies this
      ensures View() == Drain(old(View()))
    {
      ghost var drained := Drain(View());
      while |pcmBuffer| >= FRAME_BYTES
        invariant Drain(View()) == drained
        decreases |pcmBuffer|
      {
        var frame := pcmBuffer[..FRAME_BYTES];
        pcmBuffer := pcmBuffer[FRAME_BYTES..];
        EncodeFrame(frame);
      }
    }

    method EncodeFrame(pcm: Pcm)
      modifies this`frames, this`encoded
      ensures View() == Encode(old(View()), pcm)
    {
      frames := frames + [AudioFrame(encoded, pcm)];
      encoded := encoded + [pcm];
    }

    /** The entry of `_flush_locked`, up to its first await. */
    method FlushLocked(owner: Owner, force: bool)
      modifies this
      ensures View() == Flush(old(View()), owner, force)
    {
      if streamId.None? || closed || (force && eosSent) {
        Unlock(owner);
      } else {
        FlushOn(owner, force);
      }
    }

    /** The flush loop from its head to the next await. */
    method FlushOn(owner: Owner, force: bool)
      modifies this
      ensures View() == FlushLoop(old(View()), owner, force)
      ensures |old(frames)| >= 5 ==> SentFive(old(View()), View())
    {
      FlushSendsFive(View(), owner, force);
      if |frames| >= FRAMES_PER_EVENT || (force && frames != []) {
        SendFrames(owner, force, if |frames| < FRAMES_PER_EVENT then |frames| else FRAMES_PER_EVENT);
      } else if force && !eosSent {
        SendEvent(owner, force, DataEvent([], true));
      } else {
        Unlock(owner);
      }
    }

    method SendFrames(owner: Owner, force: bool, count: nat)
      requires count <= |frames|
      modifies this
      ensures View() == SendBatch(old(View()), owner, force, count)
    {
      var batch := frames[..count];
      frames := frames[count..];
      var packets := NumberPackets(batch);
      var isEos := force && frames == [];
      assert DataEvent(packets, isEos) == BatchEvent(old(View()), force, count);
      SendEvent(owner, force, DataEvent(packets, isEos));
    }

    /** The loop that numbers the packets of one event. */
    method NumberPackets(batch: seq<AudioFrame>) returns (packets: seq<Packet>)
      modifies this`sequence
      ensures packets == Numbered(batch, old(sequence)) && sequence == old(sequence) + |batch|
    {
      packets := [];
      var n := 0;
      while n < |batch|
        invariant n <= |batch| && sequence == old(sequence) + n && packets == Numbered(batch[..n], old(sequence))
      {
        packets := packets + [Packet(batch[n], sequence)];
        assert batch[..n + 1][..n] == batch[..n];
        sequence := sequence + 1;
        n := n + 1;
      }
      assert batch[..n] == batch;
    }

    method SendEvent(owner: Owner, force: bool, event: DataEvent)
      modifies this`sent, this`lock
      ensures View() == SendData(old(View()), owner, force, event)
    {
      sent := sent + [event];
      lock := Flushing(owner, force, event.endOfStream);
    }

    method Unlock(owner: Owner)
      modifies this`lock, this`opener
      ensures View() == Release(old(View()), owner)
    {
      lock := Free;
      if owner == Opener {
        opener := Done;
      }
    }

    /** `send_event` came back to the flush that holds the lock. */
    method Resume()
      requires Enabled(View(), Step.Resume)
      modifies this
      ensures View() == Apply(old(View()), Step.Resume)
    {
      if lock.final {
        eosSent := true;
        Unlock(lock.owner);
      } else {
        FlushOn(lock.owner, lock.force);
      }
    }

    /** The first critical section of `finish`: the last frame is padded or dropped, once. */
    method Finish(pad: bool)
      requires Enabled(View(), Step.Finish(pad)) && |pcmBuffer| < FRAME_BYTES
      modifies this
      ensures View() == Apply(old(View()), Step.Finish(pad))
    {
      if !ending {
        ending := true;
        tail := TailOf(pad);
        if pcmBuffer != [] {
          if pad {
            EncodeFrame(pcmBuffer + Zeros(FRAME_BYTES - |pcmBuffer|));
          }
          pcmBuffer := [];
        }
      }
    }

    method FinishFlushes()
      requires Enabled(View(), Step.FinishFlushes)
      modifies this
      ensures View() == Apply(old(View()), Step.FinishFlushes)
    {
      if !closed {
        FlushLocked(Finisher, true);
      }
    }

    /** `handle_ack(True)`. */
    method Ack()
      modifies this
      ensures View() == Apply(old(View()), Step.Ack)
    {
      if closed || streamId.None? {
        return;
      }
      earlyAck := earlyAck || !EndIssued(View());
      MarkDone();
    }

    /** `handle_close`. */
    method PeerClose(normal: bool)
      modifies this
      ensures View() == Apply(old(View()), Step.PeerClose(normal))
    {
      if closed {
        return;
      }
      peerClosed := true;
      if !normal {
        error := true;
      }
      MarkDone();
    }

    method Cancel()
      modifies this
      ensures View() == Apply(old(View()), Step.Cancel)
    {
      if closed {
        return;
      }
      ending := true;
      cancelled := true;
    }

    /** Nobody acknowledged in time. */
    method Timeout()
      requires Enabled(View(), Step.Timeout)
      modifies this
      ensures View() == Apply(old(View()), Step.Timeout)
    {
      if closed {
        return;
      }
      error := true;
      MarkDone();
    }

    /** `_mark_done`: what a cancel ends with. */
    method MarkDone()
      modifies this`closed
      ensures View() == Close(old(View()))
    {
      closed := true;
    }
  }

  /** The loop of `send_pcm` over a whole buffer: the pieces handed to `write`, in order. */
  method CutUtterance(raw: Pcm) returns (chunks: seq<Pcm>)
    ensures chunks == Slices(raw)
  {
    chunks := [];
    var offset := 0;
    while offset < |raw|
      invariant 0 <= offset
      invariant Slices(raw) == chunks + (if offset < |raw| then Slices(raw[offset..]) else [])
    {
      var end := if offset + FRAME_BYTES < |raw| then offset + FRAME_BYTES else |raw|;
      var chunk := raw[offset..end];
      ghost var rest := raw[offset..];
      assert rest[..end - offset] == chunk;
      if end < |raw| {
        assert rest[FRAME_BYTES..] == raw[end..];
        assert chunks + ([chunk] + Slices(raw[end..])) == (chunks + [chunk]) + Slices(raw[end..]);
      } else {
        assert rest == chunk;
      }
      chunks := chunks + [chunk];
      offset := offset + FRAME_BYTES;
    }
  }
}
