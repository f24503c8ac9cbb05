/**
 One Siri utterance as a machine whose steps are what runs between two awaits:
 writers, the opener, finishers, acknowledgements, closes and cancellations in
 any order, with an explicit owner of `_io_lock`.
 */
module SiriAudio {
  import opened Bytes

  const FRAME_BYTES: nat := 640
  const FRAMES_PER_EVENT: nat := 5

  type Pcm = seq<byte>

  /** What the stateful Opus encoder makes of `pcm` once it has encoded `history`. */
  datatype AudioFrame = AudioFrame(history: seq<Pcm>, pcm: Pcm)
  datatype Packet = Packet(data: AudioFrame, sequenceNumber: nat)
  datatype DataEvent = DataEvent(packets: seq<Packet>, endOfStream: bool)

  datatype Owner = Writer | Opener | Finisher

  /** `_io_lock`: free, or held by a flush suspended in `send_event`; `final` is its `is_eos`. */
  datatype Lock = Free | Flushing(owner: Owner, force: bool, final: bool)

  /** How far the task running `_open` is. */
  datatype OpenPhase = Asked | Answered | Closing | Done

  /** What became of the last, incomplete frame: still open, padded, or dropped. */
  datatype Tail = Open | Padded | Dropped

  datatype State = State(
    streamId: Option<nat>, sequence: nat, pcmBuffer: Pcm, frames: seq<AudioFrame>, encoded: seq<Pcm>,
    ending: bool, closed: bool, eosSent: bool, error: bool, cancelled: bool,
    opener: OpenPhase, lock: Lock,
    accepted: Pcm, tail: Tail, peerClosed: bool, earlyAck: bool, sent: seq<DataEvent>)

  function Init(): State {
    State(None, 0, [], [], [], false, false, false, false, false, Asked, Free, [], Open, false, false, [])
  }

  // ---------------------------------------------------------------- steps

  datatype Step =
    | Answer(id: nat)               // dataSend/open succeeded and the stream was registered
    | Refuse(refused: Option<nat>)  // it failed, before or after a stream identifier was stored
    | OpenerCloses                  // it succeeded after a cancel: the close is out
    | OpenerFlushes                 // it got the lock
    | Write(raw: Pcm)
    | Finish(pad: bool)             // the first critical section of `finish`
    | FinishFlushes                 // the second one
    | Resume                        // `send_event` returned to the flush that holds the lock
    | Ack
    | PeerClose(normal: bool)
    | Cancel
    | CancelCloses
    | Timeout

  /** `encoder.encode(frame)` appended to the queue. */
  function Encode(s: State, pcm: Pcm): State {
    s.(frames := s.frames + [AudioFrame(s.encoded, pcm)], encoded := s.encoded + [pcm])
  }

  /** The loop that cuts whole frames off the buffer. */
  function Drain(s: State): State
    decreases |s.pcmBuffer|
  {
    if |s.pcmBuffer| < FRAME_BYTES then s
    else Drain(Encode(s.(pcmBuffer := s.pcmBuffer[FRAME_BYTES..]), s.pcmBuffer[..FRAME_BYTES]))
  }

  function Numbered(frames: seq<AudioFrame>, sequence: nat): (packets: seq<Packet>)
    ensures |packets| == |frames|
  {
    if frames == [] then []
    else
      var k := |frames| - 1;
      Numbered(frames[..k], sequence) + [Packet(frames[k], sequence + k)]
  }

  function Release(s: State, owner: Owner): State {
    s.(lock := Free, opener := if owner == Opener then Done else s.opener)
  }

  function SendData(s: State, owner: Owner, force: bool, event: DataEvent): State {
    s.(sent := s.sent + [event], lock := Flushing(owner, force, event.endOfStream))
  }

  /** The event for the first `count` frames of the queue; it ends the stream if it empties it at a forced flush. */
  function BatchEvent(s: State, force: bool, count: nat): DataEvent
    requires count <= |s.frames|
  {
    DataEvent(Numbered(s.frames[..count], s.sequence), force && count == |s.frames|)
  }

  /** One turn of the flush loop. */
  function SendBatch(s: State, owner: Owner, force: bool, count: nat): State
    requires count <= |s.frames|
  {
    SendData(s.(frames := s.frames[count..], sequence := s.sequence + count), owner, force, BatchEvent(s, force, count))
  }

  /** From the head of the flush loop to the next await, or to the end. */
  function FlushLoop(s: State, owner: Owner, force: bool): State {
    if |s.frames| >= FRAMES_PER_EVENT then SendBatch(s, owner, force, FRAMES_PER_EVENT)
    else if force && s.frames != [] then SendBatch(s, owner, force, |s.frames|)
    else if force && !s.eosSent then SendData(s, owner, force, DataEvent([], true))
    else Release(s, owner)
  }

  function Flush(s: State, owner: Owner, force: bool): State {
    if s.streamId.None? || s.closed || (force && s.eosSent) then Release(s, owner)
    else FlushLoop(s, owner, force)
  }

  function TailOf(pad: bool): Tail {
    if pad then Padded else Dropped
  }

  function EndOfInput(s: State, pad: bool): State {
    if s.ending then s
    else
      var s1 := s.(ending := true, tail := TailOf(pad));
      if s.pcmBuffer == [] then s1
      else if pad && |s.pcmBuffer| <= FRAME_BYTES then
        Encode(s1, s.pcmBuffer + Zeros(FRAME_BYTES - |s.pcmBuffer|)).(pcmBuffer := [])
      else s1.(pcmBuffer := [])
  }

  function Zeros(n: nat): (z: Pcm)
    ensures |z| == n
  {
    if n == 0 then [] else [0] + Zeros(n - 1)
  }

  function Close(s: State): State {
    s.(closed := true)
  }

  /** Whether the end of the stream is out. */
  predicate EndIssued(s: State) {
    s.sent != [] && s.sent[|s.sent| - 1].endOfStream
  }

  predicate Enabled(s: State, step: Step) {
    match step
    case Answer(_) => s.opener == Asked
    case Refuse(_) => s.opener == Asked
    case OpenerCloses => s.opener == Closing
    case OpenerFlushes => s.opener == Answered && s.lock.Free?
    case Write(raw) => raw != [] && s.lock.Free?
    case Finish(_) => s.lock.Free?
    case FinishFlushes => s.ending && s.opener == Done && s.lock.Free?
    case Resume => s.lock.Flushing?
    case Ack => true
    case PeerClose(_) => true
    case Cancel => true
    case CancelCloses => s.cancelled
    case Timeout => s.ending
  }

  function Apply(s: State, step: Step): State
    requires Enabled(s, step)
  {
    match step
    case Answer(id) => s.(streamId := Some(id), opener := if s.cancelled then Closing else Answered)
    case Refuse(id) => Close(s.(streamId := id, error := true, opener := Done))
    case OpenerCloses => Close(s.(opener := Done))
    case OpenerFlushes => Flush(s, Opener, s.ending)
    case Write(raw) =>
      if s.ending || s.closed then s
      else
        var s1 := Drain(s.(accepted := s.accepted + raw, pcmBuffer := s.pcmBuffer + raw));
        if s1.streamId.Some? then Flush(s1, Writer, false) else s1
    case Finish(pad) => EndOfInput(s, pad)
    case FinishFlushes => if s.closed then s else Flush(s, Finisher, true)
    case Resume =>
      if s.lock.final then Release(s.(eosSent := true), s.lock.owner)
      else FlushLoop(s, s.lock.owner, s.lock.force)
    case Ack => if s.closed || s.streamId.None? then s else Close(s.(earlyAck := s.earlyAck || !EndIssued(s)))
    case PeerClose(normal) =>
      if s.closed then s else Close(s.(peerClosed := true, error := s.error || !normal))
    case Cancel => if s.closed then s else s.(ending := true, cancelled := true)
    case CancelCloses => Close(s)
    case Timeout => if s.closed then s else Close(s.(error := true))
  }

  /** The state after a run, if every step of it was possible. */
  function Exec(s: State, steps: seq<Step>): Option<State>
    decreases |steps|
  {
    if steps == [] then Some(s)
    else if !Enabled(s, steps[0]) then None
    else Exec(Apply(s, steps[0]), steps[1..])
  }

  // ---------------------------------------------------------------- what a stream carries

  /** The whole 640-byte frames of a PCM stream. */
  function Framing(pcm: Pcm): seq<Pcm> {
    if |pcm| < FRAME_BYTES then [] else [pcm[..FRAME_BYTES]] + Framing(pcm[FRAME_BYTES..])
  }

  /** The encoder's output for frame `k` of `frames`, each of them encoded once and in order. */
  function Encoding(frames: seq<Pcm>, k: nat): AudioFrame
    requires k < |frames|
  {
    AudioFrame(frames[..k], frames[k])
  }

  /** The first `n` packets of a stream: frame k's encoding under number k. */
  function FirstPackets(frames: seq<Pcm>, n: nat): (packets: seq<Packet>)
    requires n <= |frames|
    ensures |packets| == n
  {
    if n == 0 then [] else FirstPackets(frames, n - 1) + [Packet(Encoding(frames, n - 1), n - 1)]
  }

  /** The encodings of the frames from number `n` on. */
  function Remaining(frames: seq<Pcm>, n: nat): (rest: seq<AudioFrame>)
    requires n <= |frames|
    ensures |rest| == |frames| - n
    decreases |frames| - n
  {
    if n == |frames| then [] else [Encoding(frames, n)] + Remaining(frames, n + 1)
  }

  /** All packets of a list of events. */
  function Packets(sent: seq<DataEvent>): seq<Packet> {
    if sent == [] then [] else Packets(sent[..|sent| - 1]) + sent[|sent| - 1].packets
  }

  /** Bytes in the last, incomplete frame. */
  function Residue(pcm: Pcm): (r: nat)
    ensures r < FRAME_BYTES && r <= |pcm|
  {
    |pcm| % FRAME_BYTES
  }

  /** The PCM that the frames of a session with this tail stand for. */
  function Whole(accepted: Pcm, tail: Tail): Pcm {
    match tail
    case Open => accepted
    case Padded => accepted + Zeros(if Residue(accepted) == 0 then 0 else FRAME_BYTES - Residue(accepted))
    case Dropped => accepted[..|accepted| - Residue(accepted)]
  }

  /** How `send_pcm` cuts a whole buffer. */
  function Slices(raw: Pcm): seq<Pcm> {
    if raw == [] then []
    else if |raw| <= FRAME_BYTES then [raw]
    else [raw[..FRAME_BYTES]] + Slices(raw[FRAME_BYTES..])
  }
}
