# Verified model of the Apple TV HomeKit remote's protocol stack

The repository implements a HomeKit accessory that an Apple TV treats as a remote
control with a microphone. This project models the protocol code under
`src/atv_homekit_remote/` in Dafny and proves what that code relies on:

* **The HDS codec** (`hds_codec.py`): a recursive printer and parser that build
  a table of back references on both sides without ever sending it. The tables
  do diverge (a repeat found past slot 47 is written out again, which only the
  decoder tracks); the proof is a simulation in which the first 48 slots agree.
* **The Siri audio session** (`audio.py`): an asyncio object modelled as atomic
  steps between awaits with an explicit owner of its I/O lock; conservation,
  batching and end-of-stream discipline hold in every interleaving.
* **The framed transport** (`hds.py`): message envelopes, frames under counted
  nonces, the accept handler and the connection loop that share one byte stream,
  and the pool of prepared sessions.
* **TLV8** (`tlv8.py`) and the **target records** built on it (`remote.py`).
* **The target registry and its state file**, and **the Siri lock** (`remote.py`).

Code that changes objects in place is a Dafny class (`HdsEncoder.Encoder`,
`HdsDecoder.Decoder`, `SiriSession.SiriSession`, `HdsConnection.Connection`,
`HdsServer.Server`, `Remote.Controller`, `SiriGate.Gate`), each method proved equal
to a step of a specification on values; loops are methods with invariants. The
theorems are lemmas about those specifications, stated over all inputs and all runs.
Each specification is in turn pinned down by laws that do not mention it: the bytes of
each format by a grammar or by their positions, each operation by the state it leaves.

## What does not hold, and exactly when

* **The integer 39 cannot be decoded.** The encoder writes integers 0 to 39 as
  `0x08 + n`, so 39 is tag `0x2F`, but the decoder stops at `INTEGER_39 = 0x2E` and
  rejects it. `HdsRoundTrip.ThirtyNineIsLost` shows the input; the round trip
  (`HdsRoundTrip.RoundTrip`) holds if and only if no bare 39 occurs and the keys of
  each dictionary are hashable and differ in Python's equality. The messages of a
  Siri session and all message headers use fixed-width integers, and are proved to be
  unaffected (`SiriMessages`, `Envelopes`).
* **Keys equal as numbers collapse.** 1 and 1.0 are one Python key, and so is a number
  sent as both widths of float: `HdsRoundTrip.EqualNumbersAreLost` shows the one entry
  that comes back, `HdsRoundTrip.EqualKeysCollapse` says the same of any two equal keys.
* **A printed target list can lose targets.** A list entry whose payload length is
  a multiple of 255 makes the reader take the next entry for its continuation.
  `TargetProofs.AlignedTargetsAreLost` shows two targets that print as one;
  `TargetProofs.TargetListRoundTrip` and `Tlv8Lists.ListRoundTrip` say exactly how
  many entries come back, hence when all of them do.
* **Empty button names** are printed as no name (`TargetProofs.EmptyNameIsDropped`;
  `TargetProofs.TargetRoundTrip` says this is all that is lost of what a controller may
  send, and that a name of another type, which only the file can bring, never reads back).
* **A file can bring a target that cannot be printed**, as the loader does not check
  what the parser of a controller's records does: after loading category 70000 the
  reply to a list request raises (`RegistryProofs.LargeCategoryCannotBePrinted`). No
  reply in any run raises if and only if the targets of the file can be printed
  (`RegistryProofs.RepliesArePrintable`).
* **`start_siri(target=...)` with another target never starts.** Selecting it clears
  the activation that the next check requires. `RegistryProofs.SpeakingStarts` says
  exactly when a start succeeds.

## Files

| files | content |
|---|---|
| `Bytes`, `Dicts` | bytes, results, little-endian integers; dictionaries visited in key order |
| `HdsValues`, `HdsCodec`, `HdsEncoder`, `HdsDecoder` | values and their meaning, the codec as functions, the two classes |
| `HdsRoundTrip`, `HdsBounds`, `HdsShortest`, `HdsCompression` | round trip, expansion bound and its measure, effect of sharing |
| `HdsAcceptance`, `HdsGrammar`, `HdsCanonical` | which values are accepted, the format as a grammar of literal bytes, what is written in it |
| `SiriAudio`, `SiriAudioProofs`, `SiriSession`, `SiriMessages` | the audio session, its runs, the class, its messages on the wire |
| `SiriTimely`, `SiriFinishing` | what is sent when, how a session ends, that it can be finished |
| `SiriDelivery`, `SiriSending`, `MessageTexts` | from the PCM to the other end of the wire; that it can be sent; the words of the messages |
| `SiriMutex`, `SiriEndings`, `SiriGate`, `SiriTogether` | one utterance at a time; what ends it; the lock and the registry in one run |
| `Framing`, `FramingProofs`, `FrameReading`, `Envelopes`, `HdsConnection` | frames, lockstep, frames by their bytes, envelopes, the connection and end-to-end delivery |
| `SessionPool`, `SessionPoolProofs`, `SessionKeys`, `HdsServer` | prepared sessions, their runs, which key serves which direction, the class |
| `Tlv8`, `Tlv8Proofs`, `Tlv8Lists`, `Tlv8Bytes`, `Tlv8Codec` | TLV8: functions, laws, lists, any bytes, the loops |
| `Targets`, `TargetProofs`, `TargetBytes`, `TargetCodec` | target records: functions, round trips, records by their bytes, the loops |
| `JsonValues`, `SavedTargets`, `FileReading` | the state file: values, saving and loading, any file field by field |
| `Registry`, `RegistryProofs`, `ListWrites`, `Activation`, `StreamsAndSpeech`, `Remote` | the registry as steps, its runs, each operation from its bytes and by its effect, the class |

## Model

| member | source | states |
|---|---|---|
| HdsRoundTrip.RoundTrip | src/atv_homekit_remote/hds_codec.py:98-391 | for every value without NaN the encoder accepts, decoding the encoding gives the value with its wrappers dropped if and only if it holds no bare 39 and its dictionary keys are hashable and different in Python's equality, where 1, 1.0 and True are one key |
| HdsRoundTrip.DecodeEncode | src/atv_homekit_remote/hds_codec.py:120-391 | for every accepted value without NaN the decoder returns what reading it entry by entry into Python dictionaries means (a later equal key overwrites), and fails when there is no such meaning |
| HdsRoundTrip.ValueReads | src/atv_homekit_remote/hds_codec.py:106-252 | the simulation: from any related tables, with any bytes behind, the reader recovers the value, stops exactly where the printer stopped and leaves related tables |
| HdsRoundTrip.RelatedGrows | src/atv_homekit_remote/hds_codec.py:106-118 | the first-48-slots relation survives the encoder tracking a value, and survives the decoder alone tracking one once the table is past 48 |
| HdsRoundTrip.ThirtyNineIsLost | src/atv_homekit_remote/hds_codec.py:171-177 | a bare 39 is accepted by the encoder and its one byte is rejected by the decoder, while 38 comes back |
| HdsValues.MeaningIsErasure | src/atv_homekit_remote/hds_codec.py:239-252 | the meaning of a value is the value itself without wrappers exactly when it is faithful |
| HdsValues.LowestIsExact | src/atv_homekit_remote/hds_codec.py:372-391 | the normal form in which number keys are compared is exact: two numbers of the form m times 2 to the e have the same one if and only if they are equal |
| HdsValues.KeyPair | src/atv_homekit_remote/hds_codec.py:372-391 | two keys are one if and only if they are the same value, or both are integers, truth values or floats of the same number |
| HdsValues.KeysAreEquivalent | src/atv_homekit_remote/hds_codec.py:372-391 | and being one key is an equivalence |
| HdsValues.EqualNumbersAreOneKey | src/atv_homekit_remote/hds_codec.py:372-391 | the inputs: a dictionary under 1 and 1.0, or under 0.5 sent as both widths of float, is not faithful, so one entry is lost |
| HdsRoundTrip.EqualKeysCollapse | src/atv_homekit_remote/hds_codec.py:98-391 | two entries under any two keys Python holds equal come back as one: the key of the first with the value of the last |
| HdsRoundTrip.EqualNumbersAreLost | src/atv_homekit_remote/hds_codec.py:98-391 | at both of these inputs: what decoding the encoding returns is a dictionary of one entry |
| HdsBounds.DecodedIsBounded | src/atv_homekit_remote/hds_codec.py:268-391 | on n input bytes a decoded value has at most n nodes; its scalars, counted at every place they occur, take at most n squared bytes on the wire if each were written out in full as short as can be, and (2 n + 2) n as held; and it is nested no deeper than the limit allows |
| HdsBounds.NoneIsShorter | src/atv_homekit_remote/hds_codec.py:268-391 | no literal that decodes to a scalar is shorter than the wire size the bound counts |
| HdsShortest.SomeIsAsShort | src/atv_homekit_remote/hds_codec.py:268-391 | every scalar a literal decodes to has a literal of exactly that size |
| HdsAcceptance.EncodeAccepts | src/atv_homekit_remote/hds_codec.py:98-252 | a value is accepted if and only if, looking at the value alone, every integer and wrapper is in its range, every float and UUID wrapper packs, every text is well formed, no length reaches 2 to the 64 and nothing is nested deeper than 64 |
| HdsAcceptance.EncodingLength | src/atv_homekit_remote/hds_codec.py:120-252 | an accepted value takes as many bytes as its parts spelled out take, or fewer where something repeats |
| HdsCanonical.EncodesCanonically | src/atv_homekit_remote/hds_codec.py:120-252 | where nothing repeats the bytes are those of one document of the literal grammar: the shortest tag for each integer, length and container |
| HdsCanonical.PairIsShared | src/atv_homekit_remote/hds_codec.py:106-118 | of two scalars in a list the second is the one byte 0xA0 if and only if Python holds the two equal as they stand in the table (integers by their narrowest width, 0.0 and -0.0 alike), and its literal otherwise |
| HdsCanonical.SharedExactly | src/atv_homekit_remote/hds_codec.py:106-118 | a scalar that stands first in slot i of the table becomes the byte 0xA0 + i below 48 and its literal from there on; one that stands nowhere becomes its literal and the last slot |
| HdsGrammar.DecodesExactly | src/atv_homekit_remote/hds_codec.py:268-391 | bytes decode to a value if and only if they are a document of a grammar of literal tags, lengths, terminators and references that means this value |
| HdsGrammar.NothingMayFollow | src/atv_homekit_remote/hds_codec.py:268-274 | a message with any bytes behind it is no message |
| HdsGrammar.UuidIsSpelled | src/atv_homekit_remote/hds_codec.py:323-324 | the text of a UUID is its hexadecimal digits with dashes behind the 8th, 12th, 16th and 20th |
| HdsCompression.CompressionNeverHurts | src/atv_homekit_remote/hds_codec.py:106-252 | the encoder with sharing accepts the same values as without, is never longer, and is byte for byte the same when no searched-for scalar repeats |
| HdsCompression.ValueCompresses | src/atv_homekit_remote/hds_codec.py:106-252 | the same from any table an encoder can have built |
| HdsEncoder.Encode | src/atv_homekit_remote/hds_codec.py:394-395 | the stateful encoder computes the specified bytes, and raises exactly for values that are not acceptable |
| HdsEncoder.Encoder.Compress | src/atv_homekit_remote/hds_codec.py:106-115 | a value found in the first 48 slots becomes one byte naming its first slot; otherwise it is tracked if and only if it is new |
| HdsEncoder.Encoder.Value | src/atv_homekit_remote/hds_codec.py:120-163 | appends exactly the specified bytes to the buffer and leaves the specified table; which bytes those are `HdsCanonical.EncodesCanonically` and `HdsCanonical.SharedExactly` say |
| HdsEncoder.Encoder.Items | src/atv_homekit_remote/hds_codec.py:227-237 | the loop over array items, table threaded through |
| HdsEncoder.Encoder.Entries | src/atv_homekit_remote/hds_codec.py:239-252 | the loop over dictionary entries, table threaded through |
| HdsDecoder.Decode | src/atv_homekit_remote/hds_codec.py:398-399 | the stateful decoder computes the specified value or fails as specified, on every byte string |
| HdsDecoder.Decoder.Value | src/atv_homekit_remote/hds_codec.py:310-391 | from any position and table it reads what the specification reads from the remaining bytes, never past the end |
| HdsDecoder.Decoder.ReadTerminated | src/atv_homekit_remote/hds_codec.py:300-308 | takes the bytes before the first terminator, or fails without one |
| HdsDecoder.Decoder.ItemsOpen | src/atv_homekit_remote/hds_codec.py:362-371 | the loop that fills a list up to the terminator |
| HdsDecoder.Decoder.EntriesOpen | src/atv_homekit_remote/hds_codec.py:372-391 | the loop that fills a dictionary up to the terminator |
| SiriAudioProofs.AudioIsConserved | src/atv_homekit_remote/audio.py:130-187 | in every reachable state sent packets and queued frames are one encoding of each 640-byte frame of the accepted PCM, in order, numbered from 0 |
| SiriAudioProofs.AudioIsIndependentOfChunks | src/atv_homekit_remote/audio.py:130-187 | two completed sessions that accepted the same PCM sent the same packets, whatever the writes and whenever the stream opened |
| SiriAudioProofs.EventsAreBatched | src/atv_homekit_remote/audio.py:145-187 | every event but the last of an ended stream holds exactly five packets and does not end the stream |
| SiriAudioProofs.NothingAfterEnd | src/atv_homekit_remote/audio.py:145-187 | once the end of the stream is out no data event follows, in any continuation |
| SiriAudioProofs.EventCount | src/atv_homekit_remote/audio.py:145-187 | a completed stream of n frames takes n/5 events before its end, and the flush that was first forced decides the rest: one event more if the queue held anything but a nonzero multiple of five frames when it began, none otherwise |
| SiriAudioProofs.EndIsForced | src/atv_homekit_remote/audio.py:145-243 | every run that sent the end of its stream has a step that begins a forced flush, and returns it |
| SiriAudioProofs.FinishedMeansDelivered | src/atv_homekit_remote/audio.py:189-243 | a padded finish that returns normally on an undisturbed session, whose peer acknowledges the end only once it is out, delivered exactly ceil(length/640) frames, the last zero-padded, and the end of the stream |
| SiriTimely.SpeechIsStreamed | src/atv_homekit_remote/audio.py:130-187 | in every reachable state with the stream open, its opener through, nobody flushing and no end in sight, fewer than five frames wait and every full group of five has been sent |
| SiriTimely.WriteSendsAtOnce | src/atv_homekit_remote/audio.py:130-143 | a write to an open stream sends the first five queued frames before it is over, if there are five, and nothing otherwise |
| SiriTimely.ResumeSendsFive | src/atv_homekit_remote/audio.py:151-176 | a flush that goes on sends the next five frames under the next numbers, forced or not |
| SiriTimely.ForcedResumeSendsAll | src/atv_homekit_remote/audio.py:151-187 | a forced one sends what is left and with the last of it the end |
| SiriTimely.EndMeans | src/atv_homekit_remote/audio.py:97-295 | in every run a session is closed exactly if some step closed it, and has an error exactly if its open failed or, while it was open, the peer closed it for a reason or nobody acknowledged in time |
| SiriTimely.CancelledIsSilent | src/atv_homekit_remote/audio.py:112-116 | cancelled before its stream was open, a session never sends audio, whatever happens then |
| SiriTimely.StreamIsTheAnswered | src/atv_homekit_remote/audio.py:97-110 | a session speaks over the stream its open request was answered with, and over none before |
| SiriFinishing.FinishSucceeds | src/atv_homekit_remote/audio.py:189-243 | from every reachable state with an open, unended stream there is a number of sends after which the end of input, the forced flush and an acknowledgement leave the session closed without an error and every frame of the accepted PCM sent in order, the last padded or dropped |
| SiriFinishing.EarlyFinishSucceeds | src/atv_homekit_remote/audio.py:97-128 | the same for a session finished before its stream is open: the opener sends all of it |
| SiriAudioProofs.StepKeeps | src/atv_homekit_remote/audio.py:97-295 | every step of writers, opener, finisher, acknowledgements, closes and cancellations keeps the session invariant |
| SiriAudioProofs.SlicesAreWhole | src/atv_homekit_remote/remote.py:331-335 | the pieces a buffer is written in join up to it; none is empty or above one frame |
| SiriSession.CutUtterance | src/atv_homekit_remote/remote.py:331-336 | the loop hands those pieces to write in order |
| SiriSession.SiriSession.Write | src/atv_homekit_remote/audio.py:130-143 | one write is one step, raises exactly when the session is ending or closed, and on an open stream sends five frames at once if five are there |
| SiriSession.SiriSession.FlushOn | src/atv_homekit_remote/audio.py:151-187 | the flush loop up to the next await is the specified turn, which sends the first five frames whenever there are five |
| SiriSession.SiriSession.Finish | src/atv_homekit_remote/audio.py:197-205 | the first critical section of finish pads or drops the last frame, once |
| SiriMessages.DataEventArrives | src/atv_homekit_remote/audio.py:151-187 | every data event the session sends is read back with its packets, their numbers and the end mark |
| SiriSending.EventIsSent | src/atv_homekit_remote/audio.py:151-176 | any data event of up to five packets of up to 200000 bytes, with 64-bit numbers and loudness that packs, is a payload the transport accepts |
| SiriSending.UtteranceIsSent | src/atv_homekit_remote/hds.py:167-183 | an open connection seals all data events of an utterance, in order and nothing else, as long as its counter reaches |
| SiriSending.PayloadAccepts | src/atv_homekit_remote/hds.py:167-175 | a message becomes a payload if and only if both its dictionaries are acceptable, its header takes at most 255 bytes and the whole fits into 20 bits of length |
| MessageTexts.DataSays | src/atv_homekit_remote/audio.py:151-176 | a data event is read as a dictionary of packets, streamId and endOfStream |
| MessageTexts.PacketSays | src/atv_homekit_remote/audio.py:155-164 | a packet is read as its data and, under metadata, its rms and sequenceNumber |
| MessageTexts.OpenSays | src/atv_homekit_remote/audio.py:99-103 | the request that opens a stream is read as target controller and type audio.siri |
| MessageTexts.CloseSays | src/atv_homekit_remote/audio.py:283-291 | the event that closes one is read with the stream under streamId and the reason under reason |
| SiriMessages.OpenArrives | src/atv_homekit_remote/audio.py:99-103 | the request that opens a stream is read back |
| SiriMessages.CloseArrives | src/atv_homekit_remote/audio.py:283-291 | the event that closes a stream is read back |
| SiriDelivery.UtteranceIsHeard | src/atv_homekit_remote/audio.py:130-243 | end to end: the data events of a padded finish that returned normally, sent in order among whatever else the connection sends and cut anywhere, are heard as one sound per frame of the PCM, made of the encoder's output for it, in order and numbered from 0, with the end mark on the last event and no other |
| SiriDelivery.EventIsHeard | src/atv_homekit_remote/audio.py:151-187 | reading one data event of a stream gives exactly its packets, in order, and its end mark |
| SiriMutex.OneUtteranceAtATime | src/atv_homekit_remote/remote.py:285-319 | in every run the lock is held exactly while one starter is inside or one session is active, at most one session is not closed, and each finished watcher's session was closed and released the lock exactly once |
| SiriEndings.SessionEnds | src/atv_homekit_remote/remote.py:598-660 | in every run the next step ends an open session if and only if it is its own end, a close of its stream from its data stream, the loss of that data stream, or a stream number another session has; then its watcher can free the lock and a starter take it |
| SiriEndings.BeginOpens | src/atv_homekit_remote/remote.py:306-313 | a starter that begins a session leaves it open, active and watched over its data stream, and no other changed |
| SiriMutex.WatcherReleases | src/atv_homekit_remote/remote.py:623-638 | a watcher wakes only after its session closed, finds it active, frees the lock and forgets the stream |
| SiriMutex.LostStreamFreesTheLock | src/atv_homekit_remote/remote.py:640-652 | losing a data stream closes every session over it, forgets its streams and lets the watcher free the lock |
| SiriMutex.CloseStaysOnItsStream | src/atv_homekit_remote/remote.py:598-613 | a close from one data stream never ends a session that runs over another |
| SiriTogether.OneOpenSession | src/atv_homekit_remote/remote.py:285-319 | from any file and in every run of the remote together with its lock: a session is open in the one exactly when it is in the other, over the same data stream, which is open; the lock is held by it and no starter is inside; and it speaks to the selected and activated target or its cancellation is scheduled |
| SiriTogether.StartersFindNoSession | src/atv_homekit_remote/remote.py:285-319 | in every such run a starter that has the lock finds no session open, and begins one if and only if the checks pass; otherwise it gives the lock back |
| SiriGate.Gate.StartSiri | src/atv_homekit_remote/remote.py:285-319 | the critical section of a starter, checks included, is one step of the remote together with its lock |
| SiriGate.Gate.WatcherDone | src/atv_homekit_remote/remote.py:630-638 | the watcher's cleanup is one step |
| SiriGate.Gate.HdsConnectionClosed | src/atv_homekit_remote/remote.py:645-652 | the loop over the known streams is one step |
| FramingProofs.Lockstep | src/atv_homekit_remote/hds.py:349-383 | the accept handler under counter 0 and the loop from counter 1 recover exactly the payloads sealed under 0, 1, 2, ..., however the stream is cut, as long as the handlers let the connection go on |
| FramingProofs.SentIsReceived | src/atv_homekit_remote/hds.py:103-129 | what a sender's run put on the wire is read back from any cut as its accepted payloads, in order |
| FramingProofs.ArrivalsJoin | src/atv_homekit_remote/hds.py:349-383 | for any bytes and any cut, the two readers end where one arrival of all bytes would |
| FrameReading.AnyBytes | src/atv_homekit_remote/hds.py:109-129 | on any bytes at all, the loop takes frame by frame what opens under the next counter and is a message, up to an incomplete frame, where it waits, or one of another type, above 20 bits, that does not open, is no message or is the last its handler wants, where it is over |
| FrameReading.TakesOnce | src/atv_homekit_remote/hds.py:109-129 | there is only one such outcome |
| FrameReading.HeadExactly | src/atv_homekit_remote/hds.py:110-117 | by the first four bytes: type 1, 24 bits of length with the high byte first, and 16 bytes more than that |
| FramingProofs.CutDoesNotMatter | src/atv_homekit_remote/hds.py:109-121 | the same for the loop alone |
| FramingProofs.NeverAhead | src/atv_homekit_remote/hds.py:109-121 | what was accepted after some bytes begins what is accepted after more |
| FramingProofs.FramesRead | src/atv_homekit_remote/hds.py:109-129 | frames are accepted in order up to the first that is no message, or whose handler ends the connection |
| FramingProofs.RunExplained | src/atv_homekit_remote/hds.py:167-183 | in every run of sends the k-th frame carries the k-th accepted payload under counter k |
| FramingProofs.SendCounts | src/atv_homekit_remote/hds.py:167-183 | a send on a closed connection, of more than 20 bits of length, behind the last of the 64-bit counters or of what cannot be built consumes no counter and writes nothing; any other consumes one |
| FramingProofs.NoncesDiffer | src/atv_homekit_remote/hds.py:34-37 | different counters give different nonces |
| FrameReading.NonceBytes | src/atv_homekit_remote/hds.py:34-37 | a nonce is four zeros and the counter in eight bytes, the low one first |
| FrameReading.StartIsHeader | src/atv_homekit_remote/hds.py:176 | a frame begins with 1 and the length in three bytes, the high one first |
| FramingProofs.LengthReads | src/atv_homekit_remote/hds.py:113-116 | the three-byte length of a frame header reads back |
| Envelopes.EnvelopeRoundTrip | src/atv_homekit_remote/hds.py:131-154 | for any event, request or response that is sent, decoding gives back kind, identifiers, protocol, topic and erased message if and only if the protocol is not empty and the codec carries the message |
| Envelopes.HeaderReads | src/atv_homekit_remote/hds.py:141-154 | a header that was built is read as its kind, protocol and topic, and rejected only for an empty protocol |
| MessageTexts.PayloadSays | src/atv_homekit_remote/hds.py:167-204 | a payload is one byte with the length of the header, the header with protocol, event, request or response, id and status under these words, and the message |
| MessageTexts.PayloadExactly | src/atv_homekit_remote/hds.py:131-154 | any bytes are received as a message if and only if they are two dictionaries behind a length byte and the first names a protocol and, an event before a request before a response, a topic and its numbers |
| Envelopes.HeaderIsFaithful | src/atv_homekit_remote/hds.py:185-227 | the codec carries every header |
| HdsConnection.MessagesArrive | src/atv_homekit_remote/hds.py:103-183 | a greeting and any further messages, framed by a peer and cut anywhere, arrive as those messages in order, as long as their handlers let the connection go on |
| HdsConnection.Connection.SendMessage | src/atv_homekit_remote/hds.py:167-183 | one send is one step, and succeeds exactly when the message can be built and the connection admits it |
| HdsConnection.Connection.Start | src/atv_homekit_remote/hds.py:103-108 | a first message that is no greeting closes the connection; a greeting is answered under counter 0, as `SessionKeys.GreetingIsAnswered` says |
| HdsConnection.Connection.ReadFrame | src/atv_homekit_remote/hds.py:110-121 | one turn of the loop takes one whole frame off the stream, waits for more of it, or gives up |
| HdsConnection.Connection.HandleFrame | src/atv_homekit_remote/hds.py:117-129 | a box that does not open, a message that does not decode and a handler that raises or closes end the connection; anything else leaves it open behind the frame |
| HdsConnection.Connection.Receive | src/atv_homekit_remote/hds.py:109-129 | the loop, woken by a chunk, ends where the specification does, closed by a handler or not |
| SessionPoolProofs.EveryRunIsSound | src/atv_homekit_remote/hds.py:302-347 | in every run at most 16 sessions wait, at most one per client, and no key is bound to two connections |
| SessionPoolProofs.GoneForGood | src/atv_homekit_remote/hds.py:334-383 | a key that left the pool is never bound later, in any continuation |
| SessionPoolProofs.WhoeverLeavesIsGone | src/atv_homekit_remote/hds.py:302-383 | whatever step takes a session out of the pool (bound, replaced, expired, disconnected, cleared) records its key as gone |
| SessionPoolProofs.NeverAgain | src/atv_homekit_remote/hds.py:302-383 | a session that waited before a step and does not after it is never bound in any continuation of the run |
| SessionKeys.PeerIsIdentified | src/atv_homekit_remote/hds.py:302-383 | after a granted request a first frame sealed under a zero nonce with the key derived from its secret and both salts as HDS-Write-Encryption-Key is accepted and bound to that client, under that key and the one derived as HDS-Read-Encryption-Key, if no other pending key opens it |
| SessionKeys.GreetingIsAnswered | src/atv_homekit_remote/hds.py:103-108 | a control/hello request opens the connection, and the one frame it then has written is sealed under the key derived as HDS-Read-Encryption-Key and answers that very request with status 0 |
| SessionKeys.GreetsExactly | src/atv_homekit_remote/hds.py:103-108 | a connection opens on a control/hello request whose number has 64 bits, and on nothing else |
| SessionKeys.StrangersAreRefused | src/atv_homekit_remote/hds.py:360-374 | a first frame is refused exactly when no pending key opens it, and then changes nothing |
| SessionPoolProofs.AcceptBinds | src/atv_homekit_remote/hds.py:360-383 | an accepted frame binds a pending session whose key opens it and takes out that session only |
| SessionPoolProofs.RefusedWhenFull | src/atv_homekit_remote/hds.py:302-332 | a request is refused for room if and only if it passes the checks on port, secret and salt and 16 other clients wait; a failed check names its reason; and no refused request, for whatever reason, drops anybody |
| SessionPoolProofs.PrepareReplaces | src/atv_homekit_remote/hds.py:302-332 | a granted request adds the session under the keys derived from its secret and both salts as HDS-Write-Encryption-Key and HDS-Read-Encryption-Key, replaces its client's and leaves all others |
| SessionPoolProofs.OnlyTheirOwn | src/atv_homekit_remote/hds.py:343-347 | a timeout or a lost HAP session takes out its own sessions only, and closing all leaves none |
| HdsServer.Server.PrepareSession | src/atv_homekit_remote/hds.py:302-332 | preparing is one step on the list: checks, replacement, limit, and the two keys under their names |
| HdsServer.Server.AcceptFirst | src/atv_homekit_remote/hds.py:360-383 | the loop over the candidates is one step |
| HdsServer.Server.AcceptConnection | src/atv_homekit_remote/hds.py:360-383 | the session a first frame identifies gets a connection that reads under the one of its keys, writes under the other and answers the greeting |
| HdsServer.Server.RemovePrepared | src/atv_homekit_remote/hds.py:334-341 | the first equal session goes, if there is one |
| HdsServer.Server.DropClient | src/atv_homekit_remote/hds.py:420-424 | the loop drops exactly the sessions of one client |
| Tlv8Proofs.DecodeEncode | src/atv_homekit_remote/tlv8.py:25-84 | for any accepted entries decoding gives the fold that appends where a tag repeats at once after a nonzero multiple of 255 bytes, and overwrites otherwise |
| Tlv8Bytes.EncodesExactly | src/atv_homekit_remote/tlv8.py:15-47 | entries are encoded if and only if every tag and number is a byte and every text well formed, as pieces of at most 255 bytes, each behind the tag and its length |
| Tlv8Bytes.ReadsExactly | src/atv_homekit_remote/tlv8.py:50-66 | bytes are read as these segments if and only if they are these segments laid out |
| Tlv8Bytes.DecodesLatest | src/atv_homekit_remote/tlv8.py:69-84 | whatever the bytes, under each tag the dictionary holds the last value there is, continued as long as full segments of the tag precede it, and nothing else |
| Tlv8Proofs.DistinctTagsMeanThemselves | src/atv_homekit_remote/tlv8.py:69-84 | with distinct tags every value comes back under its tag and nothing else does |
| Tlv8Proofs.WireOfSegments | src/atv_homekit_remote/tlv8.py:50-66 | printing the segments of any accepted input reproduces it byte for byte |
| Tlv8Proofs.SegmentsOfWire | src/atv_homekit_remote/tlv8.py:50-66 | and the segments of a printed list are that list |
| Tlv8.FixedWidthRoundTrip | src/atv_homekit_remote/tlv8.py:122-147 | the 16-bit and 32-bit integers read back |
| Tlv8Lists.ListRoundTrip | src/atv_homekit_remote/tlv8.py:87-119 | a list of records decodes to their meanings if and only if no record but the last is a separator entry that fills its segments; otherwise one entry is lost per such record |
| Tlv8Lists.DecodeJoined | src/atv_homekit_remote/tlv8.py:87-119 | what any list decodes to, exactly |
| Tlv8Bytes.ListsExactly | src/atv_homekit_remote/tlv8.py:87-119 | whatever the bytes, a list has one dictionary per item, which begins at a segment of the separator that continues none, and holds the last values of that item |
| Tlv8Codec.Encode | src/atv_homekit_remote/tlv8.py:32-47 | the encoding loops compute the specified bytes, or the first error |
| Tlv8Codec.ParseSegments | src/atv_homekit_remote/tlv8.py:50-66 | the index loop computes the specified segments or error |
| Tlv8Codec.Decode | src/atv_homekit_remote/tlv8.py:69-84 | the merging loop computes the specified dictionary or error |
| Tlv8Codec.DecodeList | src/atv_homekit_remote/tlv8.py:87-119 | grouping, printing again and decoding computes the specified list or error |
| TargetProofs.TargetRoundTrip | src/atv_homekit_remote/remote.py:399-419 | parsing a target that prints gives it back, empty button names dropped, if and only if its names are ones a controller may send |
| TargetProofs.ParsedTargetIsGood | src/atv_homekit_remote/remote.py:678-710 | whatever bytes parse, the target can be printed |
| TargetBytes.ParsesExactly | src/atv_homekit_remote/remote.py:678-710 | bytes parse as a target if and only if tag 1 holds its number in four bytes, not zero, tag 2 a text of 1 to 255 bytes, tag 3 two bytes, and tag 4 a list of buttons with a byte, two bytes and a text, the last of a number counting |
| TargetBytes.NamePrints | src/atv_homekit_remote/tlv8.py:15-22 | a name of any type from the file is printed as its text, as one byte, byte by byte or as nothing, and raises exactly where it is none of these |
| TargetBytes.NumberIsRefused | src/atv_homekit_remote/remote.py:678-684 | a record without a number, with an empty one, one of another size or zero is refused for that reason |
| TargetProofs.TargetListRoundTrip | src/atv_homekit_remote/remote.py:399-419 | a printed list reads as one entry per target less one per non-last payload of a length divisible by 255; when there is none each entry parses to its target if and only if that target is one a controller may send |
| TargetProofs.AlignedTargetsAreLost | src/atv_homekit_remote/remote.py:399-419 | the input: two targets with names of 247 bytes, each of which a controller may send and reads back alone, print as a list of one entry |
| TargetProofs.EmptyNameIsDropped | src/atv_homekit_remote/remote.py:411-418 | the input: a button with an empty name parses, and comes back from its printed form without a name |
| TargetProofs.NormalPrintsAlike | src/atv_homekit_remote/remote.py:411-418 | dropping empty names is done after one round |
| TargetCodec.TargetListValue | src/atv_homekit_remote/remote.py:399-419 | the printing loops compute the specified list |
| TargetCodec.ParseTargetRecord | src/atv_homekit_remote/remote.py:678-710 | the parsing code and its loop compute the specified target or error |
| SavedTargets.LoadSaved | src/atv_homekit_remote/remote.py:743-812 | loading what was saved gives back the same targets, buttons and selection, for every registry that loading can produce |
| SavedTargets.LoadIsSound | src/atv_homekit_remote/remote.py:769-827 | whatever the file holds (repeated keys, numbers written as text, names of any type), at most ten targets load, each under its own 32-bit identifier, with a selection among them |
| FileReading.FileIsRead | src/atv_homekit_remote/remote.py:769-827 | a file is loaded as a registry if and only if its fields say so: a number of its own or its key for each target and button, ranges, names and categories that may be null, the last of a number counting, at most ten, and a selection that falls back to the first target; otherwise the registry is empty |
| FileReading.UnusableIsMovedAway | src/atv_homekit_remote/remote.py:818-827 | a file that holds no registry is moved away, and a new process has no activation, link, data stream or session |
| FileReading.SavedSays | src/atv_homekit_remote/remote.py:727-748 | the file that is written is version 1 with the selection and, under the decimal text of its number, each target with its number, name, category and buttons |
| FileReading.TextReads | src/atv_homekit_remote/remote.py:783-795 | a text is an integer if and only if it is spaces, a sign or none, digits with single underscores between them, and spaces |
| JsonValues.LastCounts | src/atv_homekit_remote/remote.py:773 | of repeated keys in the file the last counts |
| JsonValues.LoadsGivesValue | src/atv_homekit_remote/remote.py:773 | no object of the value that is read has two fields under one key |
| SavedTargets.SavedKeysAreDistinct | src/atv_homekit_remote/remote.py:743-748 | no two targets share a key of the saved object |
| SavedTargets.KeyReads | src/atv_homekit_remote/remote.py:743-781 | the key an entry is saved under reads back as its identifier, in Python's reading of numbers (signs, spaces, underscores) |
| RegistryProofs.EveryRunIsSound | src/atv_homekit_remote/remote.py:421-502 | from any file and in every run: at most ten targets, under their own identifiers, a registered selection, activation only of one, data streams only of registered targets, a Siri session only over an open stream |
| RegistryProofs.StepKeeps | src/atv_homekit_remote/remote.py:239-660 | every write, selection, activation, data-stream event, disconnect, Siri session and restart keeps the invariant, file included; what each does `ListWrites`, `Activation` and `StreamsAndSpeech` say |
| RegistryProofs.RestartForgetsNothing | src/atv_homekit_remote/remote.py:743-812 | from any file and in every reachable state a restart gives back the same targets, buttons and selection, and no activation, link or session |
| RegistryProofs.RejectedLeaveNoTrace | src/atv_homekit_remote/remote.py:421-502 | dropping the rejected operations of a run changes neither memory nor the file |
| RegistryProofs.RepliesArePrintable | src/atv_homekit_remote/remote.py:399-484 | in every run from a file no write fails to print its reply, if and only if the targets the file loads to can be printed |
| RegistryProofs.UnprintableExactly | src/atv_homekit_remote/remote.py:421-484 | a write raises while its reply is printed if and only if it was accepted and performed and left a target that cannot be printed |
| RegistryProofs.LargeCategoryCannotBePrinted | src/atv_homekit_remote/remote.py:399-419 | the input: a file with category 70000 loads, and the next accepted list request raises |
| RegistryProofs.SpeakingStarts | src/atv_homekit_remote/remote.py:285-319 | starting Siri succeeds if and only if no session is open, the target it names, if any, is the selected one, that is activated and has an open data stream, and Siri is advertised; naming another registered target only selects it |
| ListWrites.AdmittedExactly | src/atv_homekit_remote/remote.py:421-432 | a write is admitted if and only if an administrator sent TLV8 in base64 whose tag 1 is one byte from 0 to 5 and whose tag 2, if there, is a target |
| ListWrites.OnlyAdministrators | src/atv_homekit_remote/remote.py:421-424 | a write by anybody else is refused and changes nothing |
| ListWrites.AddByBytes | src/atv_homekit_remote/remote.py:434-442 | operation 2 with the record of a target registers it, selects it if nothing was selected, and is refused exactly when ten others are there |
| ListWrites.UpdateByBytes | src/atv_homekit_remote/remote.py:443-452 | operation 5 overlays the registered target, field by field and button by button |
| ListWrites.RemoveButtonsByBytes | src/atv_homekit_remote/remote.py:453-460 | operation 3 with buttons takes exactly those from the target |
| ListWrites.RemoveByBytes | src/atv_homekit_remote/remote.py:461-466 | operation 3 without takes the target, closes its data stream and moves the selection to the first one left if it was selected |
| ListWrites.ResetByBytes | src/atv_homekit_remote/remote.py:467-477 | operation 4 leaves no target, selection, activation, link or open data stream |
| ListWrites.ListByBytes | src/atv_homekit_remote/remote.py:478-480 | operation 1 changes nothing |
| ListWrites.RefusedByBytes | src/atv_homekit_remote/remote.py:434-481 | a record where none may be, none where one must be, a target that is not registered or another operation are refused with their reasons |
| Activation.OnTakesIt | src/atv_homekit_remote/remote.py:491-498 | switching on with a selection and a known HAP session gives it to that session and changes nothing else |
| Activation.OffGivesItBack | src/atv_homekit_remote/remote.py:499-502 | switching off leaves it to nobody and cancels the open session, and is refused to anyone but its owner |
| Activation.NoneTakesIt | src/atv_homekit_remote/remote.py:491-496 | neither works without a selection or a known HAP session |
| Activation.HolderMeans | src/atv_homekit_remote/remote.py:239-660 | in every run the activation is with the last HAP session that switched on, not undone by its own off, another selection, its loss or a restart |
| Activation.SpeechIsReachable | src/atv_homekit_remote/remote.py:285-596 | whatever the target, session and data stream: once an administrator added it, the session switched on and its data stream named the target, Siri starts |
| StreamsAndSpeech.StreamsExactly | src/atv_homekit_remote/remote.py:587-660 | after every step, which data streams are open, and which of them speaks for which target, exactly |
| StreamsAndSpeech.OwnersExactly | src/atv_homekit_remote/hds.py:41-53 | a data stream belongs to the HAP session it was accepted for, whatever happens, until a restart |
| StreamsAndSpeech.CloseForgets | src/atv_homekit_remote/remote.py:640-644 | closing an open data stream forgets the link it last named, if that still is its own, and no other |
| StreamsAndSpeech.SelectExactly | src/atv_homekit_remote/remote.py:239-257 | selecting works exactly for no target and registered ones, saves, and deactivates if it changes anything |
| StreamsAndSpeech.SpeechExactly | src/atv_homekit_remote/remote.py:239-660 | after every step but a start and its own end, a Siri session is open exactly if it was and its data stream is, and is being cancelled exactly if it was or its target has lost its activation |
| RegistryProofs.RunMeans | src/atv_homekit_remote/remote.py:421-484 | the configuration after a run is that of a registry without activations, data streams, Siri sessions, files and restarts |
| RegistryProofs.AddRemove | src/atv_homekit_remote/remote.py:434-473 | removing what was just added restores the targets, and the selection if and only if one was made or no target was there |
| RegistryProofs.ReplyShowsRegistry | src/atv_homekit_remote/remote.py:483-484 | a reply is only made of targets that print, and lists the registry after the write, as far as printed lists can be read |
| RegistryProofs.ResetEffect | src/atv_homekit_remote/remote.py:467-477 | an accepted reset leaves no target, selection, activation, link or open data stream |
| RegistryProofs.WhoAmIEffect | src/atv_homekit_remote/remote.py:587-596 | a registered target has one live data stream, the last that named it; any other claim closes the claimant |
| RegistryProofs.HapLostEffect | src/atv_homekit_remote/remote.py:654-660 | a lost HAP session closes its data streams and no other, and undoes its own activation only |
| Remote.Controller.HapTargetListWrite | src/atv_homekit_remote/remote.py:421-484 | a target-list write is one step, reply included, and nobody but an administrator changes anything; what the bytes do `ListWrites` says |
| Remote.Controller.SetActiveIdentifier | src/atv_homekit_remote/remote.py:239-252 | selecting is one step, the cancellation of a session that speaks to the target before included |
| Remote.Controller.HapActiveWrite | src/atv_homekit_remote/remote.py:491-502 | switching on and off is one step, which leaves the activation to the client that switched on or to nobody |
| Remote.Controller.HdsWhoAmI | src/atv_homekit_remote/remote.py:587-596 | a connection naming itself is one step |
| Remote.Controller.CloseConnection | src/atv_homekit_remote/remote.py:640-644 | closing a connection forgets its link if it still is its own |
| Remote.Controller.HapConnectionLost | src/atv_homekit_remote/remote.py:654-658 | a lost HAP session is one step, loop and cancellation included |
| Remote.Controller.StartSiri | src/atv_homekit_remote/remote.py:293-319 | the checks of a starter in order, and the session it opens over the stream of the selected target |
| Remote.ReadPayload | src/atv_homekit_remote/remote.py:769-812 | the loading loops compute the specified registry or give up |
| Remote.Controller.constructor | src/atv_homekit_remote/remote.py:769-827 | a new process starts from what the file holds, or empty |

## Left out

- HdsRoundTrip.RoundTrip: excludes NaN (`NoNan`), which Python tells apart by the object it is; and compares floats as Python's `==` does, so the sign of a zero, which the table of back references does not keep either, is not part of a decoded value.
- HdsRoundTrip.DecodeEncode: the same.
- Floats are bit patterns read as exact numbers; the rounding of `Float32` is not modelled. `Float32` and `HDSUUID` carry their packed form.
- Text is its UTF-8 form; characters outside UTF-8 appear as byte strings that are not valid UTF-8.
- Sends that fail or are interrupted after a frame was taken from the queue or sealed; they end a session.
- SiriAudioProofs.FinishedMeansDelivered: that the peer acknowledges the end of the stream only once it is out is a hypothesis on the run (`AcksFollowEnd`).
- Opus and loudness: the encoder is a function of the frames it has seen.
- Cryptography: an authenticated cipher and a key derivation given as functions, of which it is only assumed that opening undoes sealing and a box is 16 bytes longer. That no other pending key opens a frame is a hypothesis where it is needed; that derived keys are new is one of pool runs.
- What a handler does with a message: only whether the connection goes on after it is modelled, as a function of the message and its number. The ten-second accept timeout.
- Python's `str` and `int` on header fields are functions known to be the identity on text and integers.
- Responses and the futures that wait for them (`_dispatch`, `_responses`), and `_handle_message` routing.
- Connections and sessions are known by number in `Registry`, `SiriMutex`, `SiriTogether` and their classes; these know of an audio session only its stream, its target, whether it is done and whether its cancellation is scheduled.
- The state file as JSON: its characters (a file is the tree they spell), the order in which keys are written, digits outside ASCII in numbers written as text and Python's limit on how many, file-system failures, permissions and the name of the quarantined copy.
- The Siri lock after `stop()`, `recover_hds()`, button presses, and the audio configuration characteristics.
- `uint_le`, `target_supported_value`, the HAP glue, the HTTP API, the command line and constants tables.
