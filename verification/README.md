# Recording and replaying touch input: a verified model

The program records the input events of an Android device, ships them to a host
together with screen captures, files them there, and replays such a file on a device.
This project models its five working parts and proves what they guarantee, alone and
put together.

| file | what it holds |
|---|---|
| `Words.dfy` | 32-bit words, `timeval`, little-endian byte images |
| `Recorder.dfy` | the gesture buffer, the slot table and `parse_event`, as classes and as functions on values |
| `Session.dfy`, `RecordingThread.dfy` | the recording thread: packets over a run of events, and over a run of polls |
| `Tracking.dfy`, `Mishaps.dfy` | the slot table and counter against the kernel's multi-touch protocol, type B |
| `Recording.dfy` | what ends up in the packets, as an account of the input |
| `Account.dfy`, `Bracketing.dfy` | that account against the kernel's; downs, positions and lifts bracketed |
| `SendQueue.dfy`, `Pipeline.dfy`, `Modes.dfy` | the linked send queue; the threads around it; the modes they obey |
| `ControlWords.dfy` | the control words of the connection |
| `Sampling.dfy`, `Scaler.dfy`, `FrameReader.dfy` | fixed-point sampling, size fitting, pixel loops, chunked reads |
| `PacketCodec.dfy` | packet builders, receiver parser and service loop |
| `EventFile.dfy`, `EventList.dfy`, `Players.dfy` | event file writer and readers, event list, replay, play commands |
| `Fidelity.dfy`, `Replay.dfy` | which event types a replay restores; what it is to the kernel it is written to |
| `EndToEnd.dfy` | all of it in a row |

## Conventions

- Every 32-bit field, signed or not, is its unsigned bit pattern; -1 is `0xffffffff`.
  `long` and `timeval` have the 32-bit widths of the ARM build, and byte order is little-endian.
- One device delivers at most one event per poll. The code shares one buffer between
  devices (evtCap/jni/event/event_getter.h:423-426).
- A method that follows a loop or an in-place update of the program is proved equal to a
  function on values; the lemmas are about that function.
- The kernel's protocol is the one of the Linux kernel document "Multi-touch (MT)
  Protocol", section "Protocol Example B": a slot cursor moved by ABS_MT_SLOT only, and one
  contact per slot. A new contact may take an occupied slot, which replaces the contact there
  without a lift. A driver may also repeat the id of the current contact, as the comment at
  evtCap/jni/event/event_getter.h:490-494 reports.
- `push`, `pop` and `is_empty` are atomic steps, as they are meant to be. In the code the
  macro that should lock, `_NODE_TRYLOCK`, unlocks (evtCap/jni/common/fz_common.h:76-78),
  and `pop` on an empty queue returns without the matching unlock (lines 155-161).
- The receiver and the writer of the event file follow evtRcv/jni/CEvtRcv.cpp; the rows
  about them cite its header and the formats it shares with the sender and the readers. The
  on-device writer (evtCap/jni/event/event_getter.h:611-630), which is compiled out, differs:
  it does not normalise types and writes no end token.
- The float `ratio` of the size-fitting loop is the exact quotient of width and height.

## What holds, and what only holds under a condition

- Four conditions on a legal stream, each exact for what it is about:
  - the recorder's count of contacts is the kernel's after every event if and only if each
    contact id for a free slot comes after a slot was named or all contacts lifted, and one
    for an occupied slot does not (`Tracking.CounterExact`, `Prompt`).
  - every touch event ends a packet exactly when it takes the last contact away if and only
    if at every lift the count, drifted from the kernel's by the contact ids that were not
    due, is 1 exactly when the kernel's is (`Tracking.GestureEndsWithLastContact`, `Steady`).
    This is weaker than the first, and is also the exact condition for there being one packet
    per flushing key and per last lift after every event (`Recording.PacketsCounted`).
  - the slot table is the kernel's too if and only if, beyond the first condition, no contact
    is replaced, and the first contact after all lifted has its slot named first, or finds the
    kernel's cursor on slot 0 (`Tracking.TrackingExact`, `Timely`).
  - packets and buffer are the kernel's account after every event if and only if each contact
    id but a repeat comes when it is let in, no repeat does, lifts are steady, and the stream
    does not come back, after naming a slot, to a slot in which the recorder's books are
    astray: that of a contact booked under slot 0 in its place, or slot 0 while it has no
    contact of its own (`Account.AccountExact`, `Truthful`).

  Where these fail, contacts are lost or booked under the wrong slot (`Mishaps`): a finger
  put back in its slot is dropped, because `slot_flag` stays 0 after a lift with contacts
  remaining; a contact that replaces another is counted twice; and the recorder's cursor goes
  to slot 0 when all contacts lift while the kernel's does not.
- ABS_MT_SLOT events are never recorded, nor are touch events other than contacts, lifts and
  positions, so what is said of the account and of replays is about the events that are. A
  replay names no slot: all its contacts go to slot 0 of an idle kernel. Over a complete recording of touches
  it is what protocol B allows if and only if the contacts came one at a time
  (`Replay.ReplayLegalExactly`, `EndToEnd.TouchesReplayLegally`); a gesture of two fingers,
  recorded without a fault, is not (`Mishaps.TwoFingersCollide`).
- A packet carries one event type, that of the event which ended it. Every packet replays
  as the events it was recorded from if and only if no flushing key arrives with a touch
  recorded before it in its packet, no last contact lifts with a BTN_TOUCH recorded before it
  in its packet, no SYN_REPORT of a value other than 0 is kept, and no key of code and value
  0 is kept (`Fidelity.ReplayExact`, `Unmixed`); a key pressed during a gesture makes the
  touches before it replay as key events (`Fidelity.KeyRelabelsTouches`).
- Every packet handed on has a record, so that the debug output at
  evtCap/jni/main.cpp:294-301 has something to print, if and only if no idle poll directly
  follows the end of a packet and no key of code 0 arrives while the buffer is empty
  (`RecordingThread.PacketsHaveRecords`). With that output compiled out, the thread pushes one
  extra, empty packet for each such idle poll, and otherwise none
  (`RecordingThread.IdlePollsExact`).
- The send queue holds at most 52 packets more than the number of one-shot captures
  requested, and some run attains this for every number (`Pipeline.QueueBound`,
  `Pipeline.QueueBoundIsTight`).
- The threads obey their modes in every interleaving: capturing and recording are as the last
  message about them says, every packet under construction follows a test at which its mode
  was on, and the program runs exactly until a terminate message, a full queue or a failed
  send (`Modes.CapturingFollows`, `Modes.CaptureObeys`, `Modes.RecordingObeys`,
  `Modes.RunsUntilStopped`).
- What each input event does to the recorder, and the bytes of packets and files, are stated
  with the numbers of the formats, apart from the names the model uses
  (`Recorder`, section "event by event"; `PacketCodec` and `EventFile`, sections "byte by
  byte").
- `main` drains the queue and returns, and the destructor of the queue drains it again. No
  buffer is freed twice. When the last empty test passes, every continuation ends with all
  pushed buffers freed if and only if no one-shot thread, none of which is joined, is still
  grabbing, holding a packet, or about to find the capture mode off
  (`Pipeline.LastDrainExact`, `Pipeline.OneShotCanLeak`).
- The fixed-point sample is the exact floor if and only if the remainder of j * side / target
  leaves room for the rounding of the ratio, a condition on the three numbers alone
  (`Sampling.SampleExact`).
- The chunked frame reader stays within the frame if and only if the frame is at least
  1024 bytes or the first read stays within it (`FrameReader.FrameNotOverrunExactly`).
- The byte stream parses back into the packets sent, with all their fields, if and only if
  every surface packet has sides below 0x8000 and a body; the file parses back into its groups
  if and only if no record bears a token for its time (`PacketCodec.StreamRoundTrip`,
  `EventFile.FileRoundTrip`). An empty body ends the receiver's loop, since its read then
  looks like a closed connection.
- From the polls of the event thread, through every interleaving with the capture threads,
  over the wire, the file and the on-device player, the packets that hold a record come
  back in order, as many as were sent (`EndToEnd.RecordedAndReplayed`); on streams meeting
  the conditions above they come back as the kernel's account (`EndToEnd.EventsComeBack`).

## Model

| member | source | states |
|---|---|---|
| Recorder.EventInfo.Add | evtCap/jni/event/event_getter.h:295-323 | the four parallel arrays grow together by one record, or stay as they are when a SYN_REPORT would open the buffer or follow another |
| Recorder.EventInfo.Clear | evtCap/jni/event/event_getter.h:324-330 | the buffer becomes empty, type and device id stay |
| Recorder.EventIdMap.AddTouchId | evtCap/jni/event/event_getter.h:364-374 | the current slot takes the id and the old count, the count goes up, no other slot changes |
| Recorder.EventIdMap.RemoveCurrentTouchId | evtCap/jni/event/event_getter.h:375-384 | the current slot becomes free, the count goes down, no other slot changes |
| Recorder.EventIdMap.Get | evtCap/jni/event/event_getter.h:398-405 | first slot with the id, or -1 when no slot has it |
| Recorder.EventIdMap.Clear | evtCap/jni/event/event_getter.h:406-410 | all 32 slots free, count and cursor 0 |
| Recorder.EventGetter.ParseTracking | evtCap/jni/event/event_getter.h:512-546 | the contact branch on table, cursor, counter, flag and buffer is the function the lemmas are about |
| Recorder.EventGetter.ParseEvent | evtCap/jni/event/event_getter.h:476-600 | new state and verdict of `parse_event` on every event |
| Recorder.ReportStep | evtCap/jni/event/event_getter.h:500-508 | a SYN_REPORT is recorded unless the buffer is empty or ends with a record of code 0 |
| Recorder.PositionStep | evtCap/jni/event/event_getter.h:551-563 | codes 0x35 and 0x36 are recorded under the id in the current slot and reported as PARSE_CON, or ignored when the slot is free |
| Recorder.ContactStep | evtCap/jni/event/event_getter.h:535-546 | code 0x39 with an id: into the current slot and the buffer when the flag is up, dropped otherwise |
| Recorder.LiftStep | evtCap/jni/event/event_getter.h:513-534 | code 0x39 with -1 and a count other than 1: the slot is freed, the lift recorded under its id |
| Recorder.LastLiftStep | evtCap/jni/event/event_getter.h:519-528 | with count 1: the lift and a zero report recorded, all slots freed, cursor and count 0, flag up, PARSE_END |
| Recorder.SlotStep | evtCap/jni/event/event_getter.h:547-550 | code 0x2f moves the cursor and raises the flag |
| Recorder.KeyStep | evtCap/jni/event/event_getter.h:568-594 | codes 53 and 0x145 are ignored, 0x14a is recorded, any other key is recorded and ends the packet |
| Recorder.OtherStep | evtCap/jni/event/event_getter.h:476-600 | any other event changes nothing but the type |
| Recorder.StartsFree | evtCap/jni/event/event_getter.h:343-362 | at first 32 free slots, count and cursor 0, the flag up, an empty buffer |
| Session.EventEnds | evtCap/jni/main.cpp:292-307 | an event that ends a packet hands on all that is pending under its own type and empties the buffer; any other hands on nothing |
| Tracking.EventTracks | evtCap/jni/event/event_getter.h:509-566 | from a right table, a legal event leaves table and counter right exactly when it is timely |
| Tracking.CounterExact | evtCap/jni/event/event_getter.h:364-384 | over every legal stream the contact count is the kernel's after every event if and only if each contact id is due: one for a free slot after a slot was named or all contacts lifted, one for an occupied slot otherwise |
| Tracking.CounterWithinTable | evtCap/jni/event/event_getter.h:343-362 | on such streams the count stays in 0..32 |
| Tracking.TrackingExact | evtCap/jni/event/event_getter.h:343-414 | over every legal stream, table and counter equal the kernel's contacts after every event if and only if every contact id is due, none is a replacement, and the first after all lifted has its slot named or the kernel's cursor on slot 0 |
| Tracking.GestureEndsWithLastContact | evtCap/jni/event/event_getter.h:513-533 | over every legal stream, every touch event ends a packet exactly when it takes the last contact away, if and only if at every lift the drifted count is 1 exactly when the kernel's is |
| Mishaps.ReplacedFingerIsLost | evtCap/jni/event/event_getter.h:529-545 | after any timely stream, a finger that comes back in the current slot while another stays down is not recorded |
| Mishaps.GestureCutShort | evtCap/jni/event/event_getter.h:516-528 | a legal six-event stream ends its gesture while the first finger is still down |
| Mishaps.TouchInTheWrongSlot | evtCap/jni/event/event_getter.h:406-410 | a legal four-event stream whose second touch is booked under slot 0 instead of slot 1 |
| Mishaps.WrongSlotRightRecord | evtCap/jni/event/event_getter.h:406-410 | after such a touch lifts, the table was wrong, yet the record is the kernel's account and both gestures end right |
| Mishaps.RepeatMakesUp | evtCap/jni/event/event_getter.h:529-545 | a legal stream on which the count is wrong for a while, yet the gesture ends with the last contact |
| Mishaps.ReplacementHangs | evtCap/jni/event/event_getter.h:529-545 | a legal four-event stream with a replacement: all contacts lift and no packet is ended |
| Recording.RecordingConserves | evtCap/jni/event/event_getter.h:476-600 | on every stream with slots below 32, packets and pending buffer are the stream's contributions, cut where the stream says, less every SYN_REPORT not directly after another record |
| Account.AccountExact | evtCap/jni/event/event_getter.h:476-600 | over every legal stream packets and buffer are the kernel's account after every event if and only if contact ids other than repeats, and no repeats, come when one is let in, lifts are steady, and the stream does not come back to a slot whose books are astray after naming a slot |
| Account.RecordsTheKernelTrace | evtCap/jni/event/event_getter.h:476-600 | on those streams packets and buffer are the kernel's account: each contact, replacement, position and lift under the id owning the kernel's slot |
| Recording.PacketsCounted | evtCap/jni/main.cpp:292-307 | over every legal stream there are, after every event, as many packets as flushing keys plus times the last contact lifted, if and only if the stream is steady |
| Recording.OutputCompact | evtCap/jni/event/event_getter.h:303-309 | no packet, nor the buffer, starts with a SYN_REPORT or holds two in a row, on every stream |
| Recording.GestureCloses | evtCap/jni/event/event_getter.h:519-527 | a packet ended by a touch closes with the lift and one SYN_REPORT at its time |
| Recording.PacketLabels | evtCap/jni/event/event_getter.h:497-497 | packets are labelled EV_ABS or EV_KEY |
| Bracketing.WellBracketed | evtCap/jni/event/event_getter.h:509-594 | on legal and truthful streams all records ever output scan as properly bracketed downs, positions and lifts, across flushes by keys, and leave down the kernel's contacts, if and only if no contact was replaced |
| Bracketing.DownsMatchLifts | evtCap/jni/event/event_getter.h:519-526 | whenever no contact is down, downs and lifts recorded are equal in number |
| RecordingThread.GetEvent | evtCap/jni/event/event_getter.h:417-466 | one poll: the caller's pointer, the device id and the state; an idle poll changes none |
| RecordingThread.GetEvents | evtCap/jni/main.cpp:279-312 | the packets pushed over a run of polls are those of the value-level thread |
| RecordingThread.PacketsHaveRecords | evtCap/jni/main.cpp:292-301 | every packet handed on has a record, and so the debug output something to read, if and only if no idle poll directly follows the end of a packet and no key of code 0 meets the empty buffer |
| RecordingThread.IdlePollsExact | evtCap/jni/main.cpp:302-307 | the packets pushed, with the debug output compiled out, are those of the events and nothing else exactly when no idle poll directly follows the end of a packet; each such poll adds one packet, and no record is lost or repeated |
| SendQueue.QList.Push | evtCap/jni/common/fz_common.h:118-148 | appends to the queue's contents; chain, head, tail and count stay consistent |
| SendQueue.QList.Pop | evtCap/jni/common/fz_common.h:149-179 | takes the oldest, or nothing exactly when empty |
| SendQueue.QList.IsEmpty | evtCap/jni/common/fz_common.h:192-208 | true exactly when there are no contents |
| SendQueue.QList.Size | evtCap/jni/common/fz_common.h:209-216 | the count is the number of contents |
| SendQueue.QList.Destroy | evtCap/jni/common/fz_common.h:181-189 | frees all that is left in order and ends, the count as measure |
| Pipeline.StepBounded | evtCap/jni/main.cpp:208-315 | every step of every thread keeps the bound that counts packets between test and push |
| Pipeline.QueueBound | evtCap/jni/main.cpp:95-99 | in every interleaving the queue holds at most 52 packets plus the one-shot captures requested |
| Pipeline.QueueBoundIsTight | evtCap/jni/main.cpp:224-309 | for each number of requests some run reaches that bound |
| Modes.CapturingFollows | evtCap/jni/main.cpp:396-403 | after every run the capture mode is on if and only if a start message has been handled and no stop message since |
| Modes.RecordingFollows | evtCap/jni/main.cpp:411-418 | the same for the record mode |
| Modes.RequestsCounted | evtCap/jni/main.cpp:404-410 | as many one-shots as messages that asked for one |
| Modes.CaptureObeys | evtCap/jni/main.cpp:217-258 | every packet the capture thread holds follows, in its last four actions, a test that the program runs, one that its mode is on, one that at most 5 packets are queued, and a grab that succeeded |
| Modes.RecordingObeys | evtCap/jni/main.cpp:279-309 | every packet the event thread holds follows a test that the program runs, one that its mode is on, and a queue test, which at 50 packets or more is followed by stopping the program |
| Modes.NoCaptureUnasked | evtCap/jni/main.cpp:219-222 | without a start message the capture thread never gets past its mode test |
| Modes.NoRecordingUnasked | evtCap/jni/main.cpp:281-284 | without a start message the event thread never gets past its mode test |
| Modes.RunsUntilStopped | evtCap/jni/main.cpp:86-93 | the program runs until, and only until, a terminate message, a queue found full, or a failed send |
| Modes.SenderObeys | evtCap/jni/main.cpp:339-376 | the sender takes a packet only after seeing the program run, and gives up only after a send that failed |
| ControlWords.WordsMean | evtCap/jni/main.cpp:395-442 | bytes 0 and 2 of a control word alone decide which capture, record or terminate message it is |
| Pipeline.Fifo | evtCap/jni/main.cpp:334-376 | popped then queued is what was pushed; packets sent without error are a prefix of push order |
| Pipeline.FreedAtMostOnce | evtCap/jni/main.cpp:334-376 | nothing is freed twice or out of order, and at the end the buffers not freed are those pushed after the last drain |
| Pipeline.LastDrainExact | evtCap/jni/common/fz_common.h:224-227 | when the destructor's last empty test passes, every continuation has freed all pushed buffers if and only if no one-shot is grabbing or holding, and none is starting unless the capture mode is on |
| Pipeline.OneShotCanLeak | evtCap/jni/main.cpp:404-410 | a run in which an unjoined one-shot pushes after both drains and its buffer is never freed |
| Sampling.SampleErrorBound | evtCap/jni/capture/surface_getter.h:210-219 | no 32-bit overflow, the sample is within the side, the exact position or the next, and exact while j * target < 65536 |
| Sampling.SampleExact | evtCap/jni/capture/surface_getter.h:210-219 | the sample is the exact floor if and only if the scaled remainder plus the accumulated rounding stays below the target times 65536 |
| Sampling.SamplesAscend | evtCap/jni/capture/surface_getter.h:217-219 | samples never go back |
| Sampling.SampleCanMiss | evtCap/jni/capture/surface_getter.h:211-219 | the off-by-one does occur |
| Scaler.FitSize | evtCap/jni/capture/surface_getter.h:112-121 | ends with the largest height that fits the threshold among those tried, both sides at least 9, the width the proportional one |
| Scaler.OffsetInFrame | evtCap/jni/capture/surface_getter.h:221-228 | every source read is within the frame |
| Scaler.ResizeRawImage | evtCap/jni/capture/surface_getter.h:208-233 | the target is exactly the sampled image |
| Scaler.ImageChannel | evtCap/jni/capture/surface_getter.h:221-228 | each target byte is the opposite channel of the sampled source pixel |
| Scaler.ScaledPicture | evtCap/jni/capture/surface_getter.h:217-228 | byte c of the target pixel in row i, column j is byte 2 - c of the source pixel at the sampled row and the sampled column |
| Scaler.ConvImageBpp | evtCap/jni/capture/surface_getter.h:234-248 | gives the image that `resize_raw_image` gives at full size |
| Scaler.FullSizeChannel | evtCap/jni/capture/surface_getter.h:239-245 | that image is the source pixel by pixel, channels swapped |
| Scaler.ShrinkFrame | evtCap/jni/capture/surface_getter.h:110-146 | both branches of the resize phase: the target stays within the threshold, is no larger than the frame and is the sampled image; a small frame keeps its size, or is refused exactly when it is not 32 bits deep |
| FrameReader.GetRawBuffer | evtCap/jni/capture/surface_getter.h:307-327 | for any short reads, the frame receives exactly the front of the stream, in order, and nothing past it |
| FrameReader.FrameNotOverrunExactly | evtCap/jni/capture/surface_getter.h:312-324 | never past the frame if and only if the frame has 1024 bytes or the first read stays within it |
| PacketCodec.MakeEventPacket | evtCap/jni/main.cpp:128-185 | the buffer is the format's byte image, 26 + 18 * count bytes, the pointer ending at its end |
| PacketCodec.MakeSurfacePacket | evtCap/jni/main.cpp:102-126 | the buffer is the format's byte image |
| PacketCodec.EventPacketLayout | evtCap/jni/main.cpp:131-144 | the bytes of an event packet by offset: time, type word 0x80008000, length, type, count, device, and 18 bytes a record |
| PacketCodec.SurfacePacketLayout | evtCap/jni/main.cpp:102-126 | the bytes of a surface packet by offset: time, sides, length, body |
| PacketCodec.ByteOrder | evtCap/jni/main.cpp:165-182 | words are laid out lowest byte first |
| PacketCodec.ReceiverReads | evtRcv/jni/CEvtRcv.h:19-23 | what the receiver makes of the next whole packet, by bits 31 and 15 of the type word, and of the rest of the stream |
| PacketCodec.RowsRead | evtRcv/jni/CEvtRcv.h:22-22 | the fields of the rows it reads, by offset |
| PacketCodec.ReceiverStops | evtRcv/jni/CEvtRcv.h:19-19 | a stream that breaks off, or has an empty body, yields nothing more |
| PacketCodec.ParseEvtPacket | evtCap/jni/main.cpp:131-144 | the fields and rows at the format's offsets, and the bytes consumed |
| PacketCodec.Svc | evtRcv/jni/CEvtRcv.h:19-23 | the service loop, packet after packet, handles what the value-level receiver lists |
| PacketCodec.SidesMasked | evtCap/jni/common/fz_common.h:34-58 | the type mask takes a pair of sides for a capture exactly when both are below 0x8000 |
| PacketCodec.ReceiveOne | evtCap/jni/common/fz_common.h:34-58 | the packet at the head of the stream is taken for what it is exactly when distinguishable, and the rest goes on behind it |
| PacketCodec.StreamRoundTrip | evtCap/jni/main.cpp:102-185 | back-to-back packets of both kinds arrive as exactly that sequence if and only if each surface has a body and sides below 0x8000 |
| PacketCodec.StreamsApart | evtCap/jni/main.cpp:102-185 | two such sequences have the same bytes only if they are the same, field by field |
| EventFile.EventWriter.WriteEventFile | evtRcv/jni/CEvtRcv.h:29-30 | appends a group: its records field by field, with the type already normalised as the readers do it, and the group token |
| EventFile.EventWriter.CloseEventFile | evtRcv/jni/CEvtRcv.h:31-31 | appends the end token the readers stop at |
| EventFile.FileLayout | evtPly/jni/CEvtPlayer.cpp:33-91 | the bytes of a file by offset: 20 a record, a zero one with type 0, then the group token and the end token |
| EventFile.GroupsEndToEnd | evtPly/jni/CEvtPlayer.cpp:33-65 | groups follow one another in the file, with one end token at the end |
| EventFile.ReaderReads | evtPly/jni/CEvtPlayer.cpp:33-91 | what a reader makes of the next bytes, by their words |
| EventFile.ReadersAgree | evtCap/jni/event/event_player.h:48-111 | on every byte string the on-device reader gets the other reader's groups without the empty ones, and reaches the end exactly when that one meets the end token |
| EventFile.FileRoundTrip | evtPly/jni/CEvtPlayer.cpp:33-91 | a printed file reads back as its groups, types normalised, if and only if no record time is a token |
| EventFile.FileRoundTripOnDevice | evtCap/jni/event/event_player.h:34-111 | the same for the on-device reader, without the empty groups |
| EventFile.TruncationKeepsPrefix | evtPly/jni/CEvtPlayer.cpp:35-65 | a file cut anywhere yields an initial part of the whole file's groups |
| EventList.List.Insert | evtPly/jni/event_list.cpp:7-27 | appends, numbers 0, 1, 2, ... along the chain, returns the new number of groups |
| EventList.List.GetCount | evtPly/jni/event_list.cpp:29-38 | the number of groups |
| EventList.List.GetEventData | evtPly/jni/event_list.cpp:40-49 | the group at that position, or none |
| EventList.List.Destroy | evtPly/jni/event_list.cpp:51-63 | every node and its events released once, in order; the list empty, numbering back at 0 |
| Players.ReadEvent | evtPly/jni/CEvtPlayer.cpp:19-92 | ends on every byte string with the completed groups in the list; the count, or -1 without the end token |
| Players.ReadGroupOnDevice | evtCap/jni/event/event_player.h:48-111 | one group consumed and inserted unless empty, or the end met |
| Players.OpenEventFile | evtCap/jni/event/event_player.h:34-47 | all groups of a file with an end token appended to the list |
| Players.PlayEvent | evtCap/jni/event/event_player.h:119-180 | the group's events in order, then a report of type, code and value 0 at the time of the last event, or at -1, -1 when there is none; the sleeps in all; nothing without the group or when its device cannot be opened |
| Players.ReplayKeepsTime | evtPly/jni/CEvtPlayer.cpp:114-143 | the sleeps fall short of the recorded span by at most 100 microseconds a gap, and never exceed it when times do not go back |
| Players.StepWordRoundTrip | evtCap/jni/main.cpp:428-433 | 16-bit indices and step words correspond one to one |
| Players.WordsAsk | evtCap/jni/main.cpp:419-438 | bytes 0 and 2 of a word decide which play command it is, and bytes 3 and 1 are a step's index |
| Players.HandlePlay | evtCap/jni/main.cpp:419-438 | what a play command does to the list and sends to the device |
| Players.PlaySession | evtCap/jni/main.cpp:386-448 | a session of commands sends to the device what the value-level player does, command by command |
| Players.StepsPlayByIndex | evtCap/jni/main.cpp:419-438 | over every history, a step command plays the group at its index in the files opened since the last stop, and nothing when there is none |
| Players.SessionAddressing | evtCap/jni/event/event_player.cpp:8-53 | the list holds the groups of the files opened since the last stop, laid end to end |
| Players.StopForgets | evtCap/jni/main.cpp:434-438 | a stop wipes out what was opened before it; without one, later files are added behind the earlier ones |
| EndToEnd.WireToPlayer | evtCap/jni/main.cpp:128-185 | bytes sent, received, filed and read give the event packets back, whatever captures lie between |
| EndToEnd.GroupsInOrder | evtCap/jni/main.cpp:281-309 | in every interleaving with the capture threads, the event thread's packets enter the queue in its own order |
| EndToEnd.RecordedAndFiled | evtCap/jni/main.cpp:270-376 | from polls through every interleaving and the wire to the file: both readers get the thread's packets as groups, as many as were sent, in order |
| EndToEnd.RecordedAndReplayed | evtCap/jni/event/event_player.h:34-180 | step k of the on-device player plays the k-th recorded packet that holds a record: its records in order, a zero one with type 0 and any other with the packet's type, then a zero report at the last time, whatever idle polls and captures lie between |
| Fidelity.ReplayExact | evtCap/jni/main.cpp:148-181 | over every stream, all packets replay as the events they came from if and only if no key ends a packet with a touch in it, no last lift one with a BTN_TOUCH, none holds a report other than 0, and no key of code and value 0 is kept |
| Fidelity.TouchesReplayExactly | evtCap/jni/event/event_getter.h:499-567 | in a recording of touches alone, discarded keys aside, every packet replays as the contacts, lifts, positions and reports it was recorded from; ABS_MT_SLOT events are not among them |
| Fidelity.KeyRelabelsTouches | evtCap/jni/event/event_getter.h:568-594 | a key that flushes a gesture makes its touches replay as key events |
| Replay.SlotsAreDropped | evtCap/jni/event/event_getter.h:547-550 | no record of a recording of touches comes from an ABS_MT_SLOT event |
| Replay.SoloFollowed | evtCap/jni/event/event_getter.h:512-550 | contacts that come one at a time are legal without their slots, and the same contact is down after every event |
| Replay.ReplayLegalExactly | evtCap/jni/event/event_player.h:119-180 | over every legal and truthful stream of touches, the contacts and lifts replayed are those recorded, and what is written to the device for all ended packets is legal if and only if at most one contact was ever down at a time |
| Mishaps.TwoFingersCollide | evtCap/jni/event/event_getter.h:547-550 | a gesture of two fingers recorded without a fault whose replay is not legal |
| EndToEnd.SomeRunSendsAll | evtCap/jni/main.cpp:281-376 | whatever the polls bring, some interleaving sends every packet of it, so that what is said of complete runs is said of every recording |
| EndToEnd.EventsComeBack | evtPly/jni/CEvtPlayer.cpp:94-148 | a legal, truthful and unmixed stream without bare keys, polled, recorded, sent, filed and played, comes out packet by packet as exactly the events of the kernel's account, which has no ABS_MT_SLOT events |
| EndToEnd.TouchesComeBack | evtCap/jni/event/event_getter.h:499-567 | touches alone come back as one group per gesture, with the events of the kernel's account; ABS_MT_SLOT events are not recorded and do not come back |
| EndToEnd.TouchesReplayLegally | evtCap/jni/event/event_player.h:34-180 | all that the player writes for a complete recording of touches is legal to the kernel if and only if the contacts came one at a time |

## Left out

- Sockets (evtCap/jni/common/fz_tcp_server.h): a buffer is delivered whole or reported failed. `send_buffer` advances by the last write only, so after two partial writes it would send the wrong bytes.
- The receiver's fixed buffer (evtRcv/jni/CEvtRcv.cpp:90): bodies are taken to fit.
- Compression, the `screencap` pipe, inotify, poll and ioctl: their results are inputs. Memory exhaustion is not modelled.
- Slot numbers of 32 and above: the code would index past its table.
- What the debug output at evtCap/jni/main.cpp:294-301 does with a packet that has no record: the model says when there is one, and goes on as if the output were compiled out.
- Several devices sharing the one gesture buffer, and the device table (evtCap/jni/event/event_getter.h:62-263).
- The locking inside the queue, described under Conventions.
- Single-precision rounding of `ratio`, and RGB_565 frames on the resize path, where the third channel index leaves the pixel.
- Reuse of the resize buffer for frames whose size changes: the frame size is read once.
- The on-device reader on a file without an end token: its reads never report the end of the file (evtCap/jni/event/event_player.h:58), so it does not finish.
- A play start whose file cannot be opened: the on-device reader then does not finish either.
- Gesture classification and the text log of the receiver (evtRcv/jni/CEvtRcv.cpp:132-315): it reads packets and changes none.
- Identity of one-shot threads: they are counted by program location, which distinguishes all their effects on shared state.
- The time a send or a sleep takes, and whether the threads make progress: the statements about threads are about safety.
