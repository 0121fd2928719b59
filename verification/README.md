# gb_stream_server: verified model

gb_stream_server takes camera frames from a media server, packs them into an MPEG-2 program stream,
cuts the stream into RTP packets and sends these to clients invited over SIP.  This project models the
parts of it whose correctness is not visible from any single function and proves what they promise.
`dafny verify dfyconfig.toml` checks everything.

| files | part of the program |
|---|---|
| `lf_queue.dfy`, `lf_queue_object.dfy`, `queue_refusal.dfy` | the lock-free frame queue: one producer and one consumer, every memory access a step; the same steps on an object; when a push that follows a length check is refused |
| `queue_refines.dfy` | that queue seen as the frame queue of a stream node, whose operations are atomic |
| `ps_clock.dfy`, `ps_stream.dfy`, `ps_fields.dfy`, `ps_mux.dfy` | the program stream: clocks (ISO/IEC 13818-1 sections 2.4.3.6, 2.5.3.3 to 2.5.4), layout with a reference demultiplexer, its fields one by one, and the writing of it into a buffer |
| `rtp.dfy`, `rtp_pack.dfy`, `sender.dfy`, `end_to_end.dfy`, `delivery.dfy` | RTP packets (section 5.1 of RFC 3550), made in place; the sending loop; frames from end to end; when clients are sure to get them |
| `list_race.dfy`, `simclist_race.dfy` | `list_get_at` without the lock while `list_append` runs: every access a step; then the same accesses on the nodes |
| `fan_out.dfy`, `fan_race.dfy` | the delivery of packets to a client list that PLAY and STOP change meanwhile, and exactly when it can fail |
| `timestamp.dfy` | the output clock of the send task |
| `stream_life.dfy`, `stream_system.dfy`, `stream_locks.dfy`, `stream_race.dfy` | the life of stream nodes, shared by the event loop and pool tasks, and the two runs that its checks do not exclude |
| `stream_effects.dfy`, `stream_walk.dfy`, `stream_removal.dfy` | what each callback and each round of the send task does to clients, frames and node; the removal of flagged clients, left alone and interleaved; how a node comes to its end |
| `wire.dfy`, `reassembly.dfy`, `frame_bytes.dfy`, `wire_io.dfy`, `command_reply.dfy` | the 28-byte-header blocks exchanged with the media server: commands, the stream, and the reply that opens it |
| `chains.dfy`, `simclist.dfy`, `simclist_concat.dfy`, `rearrange.dfy`, `simclist_sort.dfy` | the linked list with a middle pointer, on heap nodes |
| `hash_tables.dfy`, `call_ids.dfy` | the session and stream tables, and Call-IDs as their fields hold them |
| `sdp_text.dfy`, `sdp_lines.dfy`, `sdp_kinds.dfy`, `sdp_answer.dfy`, `sdp_parser.dfy`, `sdp_store.dfy`, `sdp_description.dfy` | the SDP parser (RFC 4566 section 5) on text and in place, what it makes of each kind of line, the SDP answer, and what the getters find |
| `bytes.dfy`, `buffers.dfy` | bytes and buffers |

Assumptions: memory is sequentially consistent; callbacks of the event loop run one at a time; no callback
runs on a connection after it was freed; each queue has one producer and one consumer; memory allocation
and the creation of the send task succeed.  The send task looks clients up without the bucket lock: its
lookups and the appends of PLAY are taken apart into single accesses.  A search or a removal made under the
lock is one step.

Where the code departs from what one would expect, the model keeps the code, gives the input, and says
exactly when it matters:

- A client lookup that an append overtakes can return another client: it is right in every interleaving with
  appends if and only if the client is in the first quarter of the list (`ListRace.AlwaysRightExactly`), and
  with a single append if and only if that holds or the list is odd and the client not in its last quarter
  (`ListRace.OnceRightExactly`).  So the walk for a packet can go wrong if and only if the last client it
  comes to is then beyond the first quarter; with nobody flagged, if and only if more than a quarter of those
  listed now were listed when the frame began (`FanRace.WalkExactly`, `FanRace.UnflaggedWalkExactly`).  A client
  in service can lose a packet in the middle of a frame (`FanRace.LosesPacket`); every client is sure to be served
  without a gap if and only if no more than one is ever listed (`FanRace.GapFreeExactly`), and exactly then its
  frames and its sequence numbers are sure to be whole (`Delivery.DeliveryExactly`, `Delivery.NumbersExactly`).
- Such a lookup can end at the head sentinel, whose NULL the send task then uses, if and only if it asks for
  the first client and began on at most three (`ListRace.SentinelExactly`); runs are free of it if and only if
  no stream ever has more than two clients (`StreamRace.SafeExactly`).
- A frame that passed the length check is refused by the queue, and its buffer lost, if and only if the length
  was one below the maximum when a pop was in flight (`QueueRefusal.RefusalExactly`, `StreamRace.RefusedRun`).
- The stream callback asks for more than its buffer holds if and only if a block is shorter than its own head
  or the frame does not fit (`WireIo.Receiver.RecvStreamCb`, `WireIo.UnsaneInputs`).
- The callback for the reply that opens a stream clears the front of its buffer each time it runs but goes on
  writing where the last run stopped.  However a reply is cut its outcome is the same if and only if it carries no
  payload before its last block, or does not grant the stream anyway, or does not fit at all
  (`CommandReply.CuttingExactly`); in two blocks and two callbacks any granting reply is dropped
  (`CommandReply.TwoBlocksCut`).
- A Call-ID of 32 or more characters is found again if and only if the same is stored behind both of its
  fields (`CallIds.InsertTwice`, `CallIds.LongCallIdReadsOn`).
- The SDP parser reads behind the end of its text if and only if the last line is not empty and all blanks,
  and every line before it is taken (`SdpLines.OverrunsExactly`); of the formats of a media line only the
  thirteenth is kept, and a blank behind it ends the parsing (`SdpLines.FormatsKept`).
- The two program stream clocks agree only while bit 32 of the time is clear (`PsClock.ClocksAgreeExactly`); a
  frame fits the send buffer only up to a size (`PsStream.FitsBufferExactly`); the stream map gives the length of
  its entries as 8 bytes where they take 14 (`PsFields.SectionsSay`); the first stamp alone leaves
  the output clock where it is (`Timestamp.AdvancesExactly`); deleting a whole list as a range computes a
  middle outside the list (`Chains.MidposAfterIs`, `SimcList.List.DeleteRange`).

- Only a walk removes clients: once all that are listed are flagged, the send task finishes by itself if and only if
  there are none or more than fifteen frames wait (`StreamWalk.TaskFinishesExactly`).  Frames that arrive then
  can always bring the node to its end (`StreamWalk.FreedAtLast`).

## Model

| member | source | states |
|---|---|---|
| LfQueue.FifoOverEveryRun | src/common/lf_queue.c:126-225 | for every interleaving of one pusher's and one popper's memory accesses, the values popped are a prefix of those pushed, and at most `max_unit_num` are outstanding |
| LfQueue.AllocatorIsSafe | src/common/lf_queue.c:144-180 | the unit a push is given is unmarked, is none of the units on the list from the dummy on, and is not the one a pop reads; the tail walk never runs and the linking CAS finds the end of the list |
| LfQueue.CountersBetweenPushes | src/common/lf_queue.c:135-142 | while no push runs, `w_len` is `r_len`, plus one exactly while a pop is in flight |
| QueueRefusal.RefusalExactly | src/stream/get_frame_from_hbserver.c:207-225 | for every maximum, a push can be refused after a length below the maximum was read if and only if that length was the maximum less one: a caller that asks for one unit more is never refused |
| QueueRefusal.FullButOne | src/common/lf_queue.c:134-142 | a run in which it is, for every maximum |
| LfQueue.PopAfterCheckSucceeds | src/stream/send_av_data.c:183-209 | a pop begun when the length was positive stays sure of a value, whatever the producer does, until it returns one |
| LfQueue.ProducerKeeps | src/common/lf_queue.c:134-186 | each step of a push keeps the queue's list, marks and counters in order, appending the value at the linking step only |
| LfQueue.ConsumerKeeps | src/common/lf_queue.c:199-222 | each step of a pop keeps them too: the last step removes the first value, makes its unit the dummy and moves the ring on by one, all others leave list and ring alone |
| LfQueueObject.Queue.PushAccess | src/common/lf_queue.c:134-186 | one memory access of a push on the object changes it as the step machine says, and nothing else |
| LfQueueObject.Queue.PopAccess | src/common/lf_queue.c:199-222 | one memory access of a pop likewise, the copy of the data and the clearing of the mark being accesses of their own |
| LfQueueObject.Queue.Push | src/common/lf_queue.c:126-189 | an undisturbed push appends the value, or returns -1 and changes nothing when the queue is full |
| LfQueueObject.Queue.Pop | src/common/lf_queue.c:191-225 | an undisturbed pop takes the first value, or returns -1 and changes nothing when the queue is empty |
| LfQueueObject.Queue.Len | src/common/lf_queue.c:227-233 | the length is the number of readable values |
| LfQueueObject.Init | src/common/lf_queue.c:71-124 | the error codes for zero sizes and over-large units, and otherwise a queue at its start |
| QueueRefines.EveryStepRefines | src/common/lf_queue.c:126-225 | in every run each memory access either changes nothing observable or is one whole push, take or hand-over of the frame queue that the life of a node is told with: the queue is linearizable |
| QueueRefines.RefusalsAgree | src/common/lf_queue.c:135-142 | a push is refused exactly when the frames shown and the one in flight are 512, a pop exactly when none is shown |
| PsClock.MakeTimePrefix | src/stream/ps.c:452-467 | the first clock byte built by shift-and-or has the prefix, the three high bits and the marker where section 2.4.3.6 puts them |
| PsClock.MakeTimeRest | src/stream/ps.c:469-483 | the other four bytes have the low thirty bits and both markers |
| PsClock.TimeRoundTrip | src/stream/ps.c:407-484 | PTS and DTS read back as the time modulo 2^33, with prefix and markers right, for every 64-bit time |
| PsClock.MakeScr1 | src/stream/ps.c:503-514 | the first system clock word has its marker, prefix and thirteen clock bits |
| PsClock.MakeScr2 | src/stream/ps.c:516-526 | the second word likewise |
| PsClock.MakeScr3 | src/stream/ps.c:528-535 | the third word likewise, with a zero extension |
| PsClock.ScrRoundTrip | src/stream/ps.c:496-541 | the system clock reads back as the time modulo 2^33 with its markers right and a zero extension |
| PsClock.ClocksAgreeExactly | src/stream/ps.c:653-662 | the packet clocks, made from a 32-bit copy, equal the system clock if and only if bit 32 of the time is 0 |
| PsClock.ClocksDifferAt | src/stream/ps.c:653-662 | a time for which they differ |
| PsStream.DemuxUndoesMux | src/stream/ps.c:736-816 | the reference demultiplexer, led only by length fields, finds the pack clock and exactly the pieces put in |
| PsStream.PesHeaderReads | src/stream/ps.c:638-687 | each PES length field is payload plus thirteen and at most 65535, and the header reads back |
| PsStream.PiecesAreTheFrame | src/stream/ps.c:789-816 | the pieces joined are the frame |
| PsStream.FrameSurvives | src/stream/ps.c:736-816 | demultiplexing what was multiplexed gives back the frame, its system clock and both packet clocks |
| PsStream.SectionsAreSkipped | src/stream/ps.c:553-636 | the system header and stream map are skipped by their own length fields |
| PsStream.MuxHasSize | src/stream/ps.c:760-816 | a frame of n bytes takes 14, 48 more for an I frame, n, and 19 for each started 65522 bytes |
| PsFields.PackFields | src/stream/ps.c:486-541 | the pack header has its start code, a multiplex rate of 26215, its markers and no stuffing |
| PsFields.SectionsSay | src/stream/ps.c:553-636 | behind it an I frame, and no other, has the system header and the stream map with these values in each field, H.264 for stream 0xE0 and G.711 for 0xC0; then come the packets |
| PsFields.PesFields | src/stream/ps.c:638-687 | each packet header has the video stream's code, its length, both clocks and ten header bytes |
| PsStream.FitsBufferExactly | src/stream/send_av_data.c:159-273 | with the headroom of src/stream/get_frame_from_hbserver.c line 212 the stream fits the 716800-byte buffer if and only if n is at most 705049 (I frames) or 705097 |
| PsMux.PesMake | src/stream/ps.c:789-816 | one turn writes exactly one PES packet and leaves the rest of the buffer |
| PsMux.PsProcess | src/stream/ps.c:736-816 | the buffer receives exactly the frame's program stream at the given place, nothing else changes, the length is right |
| Rtp.PacketAt | src/stream/rtp_pack.c:77-219 | packet i of a frame has number first plus i modulo 65536, the frame's timestamp, the marker exactly when it is the last, and bytes 1400 i onwards, at most 1400 of them |
| Rtp.CountIs | src/stream/rtp_pack.c:77-219 | there are n / 1400 packets, rounded up |
| Rtp.SeqAfterIs | src/stream/rtp_pack.c:77-219 | the next frame goes on with the next number modulo 65536 |
| Rtp.PayloadsAreTheData | src/stream/rtp_pack.c:77-219 | the payloads joined are the data |
| RtpPack.RtpInfo.constructor | src/stream/rtp_pack.c:54-66 | a session starts with number 0 and the given payload type and source |
| RtpPack.RtpInfo.SetRtpPack1 | src/stream/rtp_pack.c:222-255 | the cutting state for a frame, fragmented exactly above 1400 bytes; the number is kept |
| RtpPack.RtpInfo.GetRtpPsPack | src/stream/rtp_pack.c:77-219 | the next packet's place and size, with its header written over the twelve bytes before the payload and nothing else changed, or nothing at the end of the frame |
| RtpPack.PacketInPlace | src/stream/rtp_pack.c:77-219 | that overwriting leaves this packet's payload and everything not yet sent as it was |
| Sender.StreamNode.SendToClients | src/stream/rtp_pack.c:496-522 | while nothing else touches the client list, the inner loop, which deletes while it walks, does to it what one pass over every listed client does |
| Sender.StreamNode.NextPacket | src/stream/rtp_pack.c:489-495 | each packet, as it stands in the buffer when it is made, is the next one of the frame |
| Sender.StreamNode.PackPsRtpAndAddNode | src/stream/rtp_pack.c:470-529 | likewise, a stream of more than three bytes goes out as exactly its packets, in order, to the clients listed; less goes out as nothing |
| FanOut.WalkVisitsEachOnce | src/stream/rtp_pack.c:496-522 | one pass leaves exactly the unflagged clients, in order, each visited once |
| FanOut.UndisturbedWalk | src/stream/rtp_pack.c:496-522 | the walk that takes one access at a time, if no append disturbs it, comes to that pass |
| FanOut.FlaggedGetsNoMore | src/stream/rtp_pack.c:502-514 | in every run a client that is flagged gets at most one packet more, the one for which it had been found unflagged before, until it is removed |
| FanOut.FlaggedGetNothing | src/stream/rtp_pack.c:496-522 | in an undisturbed pass a client flagged before the packet gets neither it nor a place; clients added after the frame began keep theirs and get nothing |
| FanOut.NextKeeps | src/stream/rtp_pack.c:494-522 | each access of the walk, each write of an append, STOP and each new frame or packet keep every client's log an unbroken stretch of the packets made if and only if no visit ends at another client than the one at its index |
| FanOut.ServedOverEveryRun | src/stream/rtp_pack.c:489-526 | over every run without such a visit a client has received an unbroken stretch of the packets, from right after the first packet of a key frame, which switched it on, complete up to its last turn until it is flagged |
| FanOut.OneClientPerCallId | src/stream/stream_moudle.c:124-168 | in no run is a Call-ID listed twice |
| FanOut.StopExactly | src/stream/stream_moudle.c:185-204 | after every run STOP flags exactly the client of its Call-ID, if there is one, and changes nothing else |
| FanOut.PlayExactly | src/stream/stream_moudle.c:135-168 | PLAY begins to append a client, behind all others, not flagged, not switched on and with nothing sent, if and only if none has its Call-ID |
| FanOut.FrameReaches | src/stream/rtp_pack.c:489-526 | a frame that nothing disturbs leaves exactly the unflagged clients, each of which has got all its packets if it was switched on before, all but the first if this key frame switches it on, and none otherwise |
| FanRace.VisitExactly | src/stream/rtp_pack.c:501 | whatever PLAY and STOP do, a visit of the walk gets the client at its index if and only if that index is in the first quarter of the list |
| FanRace.WalkExactly | src/stream/rtp_pack.c:498-522 | the walk for a packet can be led to a wrong client if and only if the last client it comes to is then beyond the first quarter, counting that the flagged ones before it have gone |
| FanRace.UnflaggedWalkExactly | src/stream/rtp_pack.c:498-522 | with nobody flagged, if and only if four times the clients listed when the frame began exceed those listed now |
| FanRace.GapFreeExactly | src/stream/rtp_pack.c:489-526 | in all runs with at most n clients listed at any time every client is served without a gap, if and only if n is at most one |
| FanRace.LosesPacket | src/stream/rtp_pack.c:501 | a run with two clients in which one that is switched on and not flagged gets the first and third packet of a key frame and not the second |
| ListRace.AlwaysRightExactly | src/common/simclist.c:407-431 | an unlocked lookup finds the listed element in every interleaving with appends if and only if the element is in the first quarter |
| ListRace.OnceRightExactly | src/common/simclist.c:451-498 | with at most one append, if and only if that holds, or the list is odd and the element not in its last quarter |
| ListRace.SentinelExactly | src/common/simclist.c:407-431 | it can end at the head sentinel if and only if it asks for the first element and began on at most three |
| ListRace.LookStepSound | src/common/simclist.c:415-428 | wherever an append stands, each access of a lookup keeps it on the chain, no further left than one before the asked element |
| SimcListRace.LookAccess | src/common/simclist.c:407-431 | one access of the lookup, on the nodes and fields as they stand in the middle of an append, is the step of that race |
| SimcListRace.MoveMid | src/common/simclist.c:486-493 | the last write of an append is the step too, and leaves the list at rest with one element more |
| SimcListRace.LinkBack | src/common/simclist.c:476-482 | so is each of the linking writes |
| SimcListRace.Append | src/common/simclist.c:360-362 | these six writes, one after the other, do what the insertion at the end of the list does |
| EndToEnd.FramesArrive | src/stream/send_av_data.c:262-274 | for any frames, multiplexing, packetizing, regrouping by marker and demultiplexing by lengths gives back exactly the frames in order |
| EndToEnd.RegroupUndoesCutting | src/stream/rtp_pack.c:470-526 | grouping packets by marker gives back each frame's program stream |
| EndToEnd.DemuxAllUndoesMux | src/stream/ps.c:736-816 | demultiplexing these streams gives back the frames |
| EndToEnd.NumberedAcrossFrames | src/stream/rtp_pack.c:77-219 | numbers run consecutively modulo 65536 across all packets of all frames |
| EndToEnd.FramesReachClients | src/stream/rtp_pack.c:489-526 | in every run without a wrong visit that has sent whole frames, a client in service was switched on by a key frame, and what it has got after that frame regroups and demultiplexes to exactly the later frames |
| Delivery.DeliveryExactly | src/stream/rtp_pack.c:489-526 | that is so in all runs with at most n clients listed at any time, if and only if n is at most one |
| EndToEnd.OneMoreUnit | src/stream/send_av_data.c:262-274 | sending a frame adds its packets, numbered on, to those made |
| EndToEnd.ClientSeesConsecutiveNumbers | src/stream/rtp_pack.c:489-526 | in every run without a wrong visit a client sees consecutive numbers, from the one after the packet that switched it on |
| Delivery.NumbersExactly | src/stream/rtp_pack.c:489-526 | that is so in all runs with at most n clients listed at any time, if and only if n is at most one |
| EndToEnd.PacketsAreStamped | src/stream/send_av_data.c:262-274 | every packet made of any frames belongs, by its place, to one of them, and read back carries as a number that frame's time modulo 2^32, with the payload type and source of the session |
| EndToEnd.SendFrame | src/stream/send_av_data.c:262-274 | a video frame taken through both buffers goes, while nothing else touches the client list, to the clients as exactly the packets of its program stream, each of which reads back with the frame's time modulo 2^32, the payload type and the source |
| EndToEnd.SendQueued | src/stream/send_av_data.c:262-285 | a queued frame of kind 1 is sent as a key frame, one of kind 2 as another, and of any other kind nothing is sent |
| Timestamp.SendClock.OnFrame | src/stream/send_av_data.c:216-257 | the branches of the normaliser change the clock as the step function says |
| Timestamp.AmountsAre | src/stream/send_av_data.c:216-257 | a frame advances the clock by nothing for the first stamp, by 3600 for a missing or repeated one, by the frame before's amount after a backward jump, and else by the difference |
| Timestamp.AdvancesExactly | src/stream/send_av_data.c:216-257 | a frame's increment is positive if and only if a non-zero stamp is already stored or the frame has none |
| Timestamp.IncreasesExactly | src/stream/send_av_data.c:252-256 | the clock then moves forward if and only if the 64-bit sum does not wrap |
| Timestamp.NeverFalls | src/stream/send_av_data.c:216-257 | over any stamps the clock is the sum of non-negative increments, each at least one once a stamp is stored |
| Timestamp.FollowsSourceFromStart | src/stream/send_av_data.c:216-257 | over rising non-zero stamps the clock shows the last stamp minus the first |
| StreamLife.LoopKeeps | src/stream/get_frame_from_hbserver.c:138-262 | each step of the event loop on a node, single writes of an append included, uses only live memory and keeps the relations between the two flags, the lock, the client list and the queue |
| StreamLife.TaskKeeps | src/stream/send_av_data.c:164-491 | so does each step of the send task, single accesses of a lookup included, except the use of the head sentinel after a lookup of the first client that saw a length of three |
| StreamLife.FrameFlow | src/stream/get_frame_from_hbserver.c:138-226 | in particular the steps of the stream callback, of which the start of the send task finds both flags clear and the queue empty |
| StreamLife.DropKeeps | src/stream/get_frame_from_hbserver.c:236-253 | in particular the teardown by the event loop, which happens only when no task was ever made |
| StreamLife.LeaveKeeps | src/stream/get_frame_from_hbserver.c:255-262 | in particular handing the node over to the send task |
| StreamLife.WalkKeeps | src/stream/rtp_pack.c:489-523 | in particular the walk over the clients while others are appended: no client is freed twice, and none is missing but as just said |
| StreamSystem.OnlyFault | src/stream/send_av_data.c:464-491 | in no run of any callbacks and tasks is a node or client used after it was freed, freed twice, or an empty queue popped; the only element ever missing is the first of a list of three that is being extended |
| StreamRace.SafeExactly | src/stream/rtp_pack.c:501-502 | runs in which no stream has more than k clients are free of faults if and only if k is at most two |
| StreamRace.FaultRun | src/stream/rtp_pack.c:501-502 | a run of three PLAY requests in which the send task uses the sentinel's NULL as a client |
| StreamSystem.FreedWhenBothAreDone | src/stream/send_av_data.c:464-491 | a freed node is out of the table, its receiver has exited, its task has finished or was never made, and every frame queued and every client listed has been freed |
| StreamSystem.NothingLeaks | src/stream/get_frame_from_hbserver.c:232-319 | once the connection is closed, no callback runs and the send task has finished or was never made, the node has been freed |
| StreamSystem.FoundIsLive | src/stream/stream_moudle.c:124-204 | what PLAY and STOP find in the table is live, and there is at most one node of a key |
| StreamSystem.StartNeverOverwritesFinish | src/stream/get_frame_from_hbserver.c:145-174 | when the receiver writes "started" the flag is 0: it never overwrites the send task's "finished" |
| StreamSystem.FramesAreConserved | src/stream/send_av_data.c:96-114 | at all times the frames queued are those freed, the one being sent and those waiting, in this order |
| StreamSystem.RefusedExactlyDuringPop | src/stream/get_frame_from_hbserver.c:207-226 | after the length check a push is refused if and only if 511 frames are readable and a pop is in flight |
| StreamRace.RefusedRun | src/stream/get_frame_from_hbserver.c:207-226 | a run of the whole program in which that happens |
| StreamSystem.OneOwner | src/stream/client_opt.c:85-122 | of the tasks and callbacks of one bucket at most one is between locking and unlocking |
| StreamRemoval.FlaggedClientGoes | src/stream/rtp_pack.c:502-511 | in every run a flagged client that the send task has looked up is off the list and freed after at most five of that task's steps with the lock free, whatever all others do; at that moment the others are where they were, but for appended ones, and it never comes back |
| StreamRemoval.UnflaggedStay | src/stream/client_opt.c:85-122 | from any reachable state on, as long as the node is in the table, the clients not flagged stay listed, in order, before those appended |
| StreamWalk.WalkEffect | src/stream/rtp_pack.c:496-522 | an undisturbed walk, from any reachable state, leaves exactly the unflagged clients in order, and frees exactly the flagged ones |
| StreamWalk.RoundEffect | src/stream/send_av_data.c:164-274 | left alone, a round of the send task takes the node down when the receiver has left, finishes when nobody is listed, takes, sends and frees one video frame when more than fifteen frames wait, and else changes nothing |
| StreamWalk.TaskFinishesExactly | src/stream/send_av_data.c:164-209 | once every client is flagged, the task left alone finishes if and only if nobody is listed or more than fifteen frames wait |
| StreamWalk.FreedAtLast | src/stream/send_av_data.c:464-491 | once every client is flagged, from every reachable state at the head of the task's loop, there are steps with frames alone, and no error, after which the node is out of the table and freed, with every client it ever had and every frame |
| StreamEffects.StopEffect | src/stream/stream_moudle.c:185-204 | STOP flags the client it names in the listed node of the key and changes nothing else |
| StreamEffects.PlayEffect | src/stream/stream_moudle.c:124-174 | PLAY of a listed stream appends one client unless it is known, and makes the connection if there is none |
| StreamEffects.FirstPlayEffect | src/stream/stream_moudle.c:124-174 | PLAY of another makes a node with this one client |
| StreamEffects.FrameEffect | src/stream/get_frame_from_hbserver.c:138-262 | a completed frame closes the stream if nobody is listed or the task has finished, starts the task if it is the first key frame, is dropped before that, and else is queued up to 512 |
| StreamEffects.ErrorEffect | src/stream/get_frame_from_hbserver.c:232-319 | an error hands the node over to the task if there is one and frees it otherwise |
| StreamLocks.TaskGivesBack | src/stream/send_av_data.c:464-491 | in every run without a fault a task that owns a bucket lock is at most five of its own steps from giving it back, and never waits meanwhile |
| StreamLocks.LoopGivesBack | src/stream/get_frame_from_hbserver.c:232-319 | the event loop likewise, at most ten |
| Wire.CommandSurvives | src/stream/get_frame_from_hbserver.c:20-88 | parsing the blocks of any non-empty command gives back the command as one message |
| Wire.BlocksAre | src/stream/get_frame_from_hbserver.c:20-88 | block k of a command begins at byte 8220 k of what is sent, with each of the 28 bytes of its head said, and holds 8192 bytes of the command or the rest |
| Wire.OneHeadOneEnd | src/stream/get_frame_from_hbserver.c:51-80 | exactly the first block has the head flag and exactly the last the end flag |
| WireIo.SendDataToStream | src/stream/get_frame_from_hbserver.c:20-88 | the loop over one refilled struct writes exactly the blocks of the command |
| WireIo.SplitInBlocks | src/stream/get_frame_from_hbserver.c:38-48 | every block but the last is full and the last is not empty |
| Reassembly.ParseInTwoGoes | src/stream/get_frame_from_hbserver.c:120-138 | parsing what has arrived and then the rest is parsing everything at once |
| Reassembly.FramesArePrefix | src/stream/get_frame_from_hbserver.c:111-230 | for streams whose block lengths are at least 28, however bytes arrive and whenever callbacks run, the frames completed are a prefix of those a one-shot parser finds, and the queue holds exactly the media frames among them from the first key frame on |
| Reassembly.ChunkingDoesNotMatter | src/stream/get_frame_from_hbserver.c:111-230 | two runs of the stream callback over the same bytes, cut differently, queue the same frames once drained |
| Reassembly.NothingBeforeKeyFrame | src/stream/get_frame_from_hbserver.c:145-180 | in no run is anything queued before a key frame has been completed |
| FrameBytes.QueueByBytes | src/stream/get_frame_from_hbserver.c:176-225 | on the bytes received: the frames completed have their last blocks at places in order, those are queued whose data type byte is 13 from the first with frame type byte 1 on, with kind 1, 2 or 3 for frame type 1, 0 or 4, and stamp high times 2^32 plus low, times 90, modulo 2^64 |
| FrameBytes.ClosesExactly | src/stream/get_frame_from_hbserver.c:138-210 | a callback closes the stream if and only if it completes a frame with nobody left, or one that is to be queued while the queue is full |
| WireIo.Receiver.RecvStreamCb | src/stream/get_frame_from_hbserver.c:111-230 | the callback never asks for more than its buffer has room for if and only if the blocks up to the end of the frame are at least 28 bytes and fit, and then does what the state machine says |
| CommandReply.Receiver.RecvCmd | src/stream/get_frame_from_hbserver.c:324-390 | the callback for the reply, which clears 2048 bytes, takes blocks at the kept offset and looks for SUCCESS in what the buffer says, does what its state machine says |
| CommandReply.DecidedExactly | src/stream/get_frame_from_hbserver.c:331-389 | however the bytes arrive, a reply that has been decided on was accepted if and only if it is readable and grants the stream and no payload of it was taken before the callback that took its last block; what followed it is left for the stream callback |
| CommandReply.CuttingExactly | src/stream/get_frame_from_hbserver.c:331-351 | the outcome is the same however a reply is cut if and only if it carries no payload before its last block, or does not grant the stream anyway, or does not fit at all |
| CommandReply.ReplySurvivesExactly | src/stream/get_frame_from_hbserver.c:324-390 | a granting reply, sent in blocks as commands are, is accepted however it is cut if and only if it takes one block |
| CommandReply.TwoBlocksCut | src/stream/get_frame_from_hbserver.c:331-351 | any granting reply sent in two blocks with payload is accepted in one callback and dropped in two |
| CommandReply.CutReplyIsDropped | src/stream/get_frame_from_hbserver.c:331-351 | one such reply |
| WireIo.ArrivedIsComplete | src/stream/get_frame_from_hbserver.c:122-132 | the program's test lets a block pass that the state machine does not take if and only if its length field is below 28 |
| WireIo.UnsaneInputs | src/stream/get_frame_from_hbserver.c:134-137 | two inputs for which it asks for too much: a length field of 27, and for every buffer a block one byte too long |
| Chains.Join | src/common/simclist.c:616-617 | two nodes joined over a stretch leave the chain without the stretch linked both ways |
| Chains.LinkBetween | src/common/simclist.c:476-482 | the four assignments put a node into the chain |
| Chains.MidposAfterIs | src/common/simclist.c:575-579 | the unsigned midpoint of a range delete is inside the list if and only if an element remains, and is then the right one |
| SimcList.List.constructor | src/common/simclist.c:238-272 | an empty list |
| SimcList.List.FindPos | src/common/simclist.c:407-431 | the node at the asked index, sentinels included, by whichever of the four walks; none outside |
| SimcList.QuarterIsExact | src/common/simclist.c:415-423 | up to two million elements the single-precision quotient chooses the same walk as the exact ratio |
| SimcList.List.FixMidAfterInsert | src/common/simclist.c:486-493 | the middle pointer is at (numels - 1) / 2 after an insertion |
| SimcList.List.FixMidBeforeDrop | src/common/simclist.c:1379-1387 | and after a removal |
| SimcList.List.InsertAt | src/common/simclist.c:451-498 | the element is put in at its position, or -1 is returned and nothing changes; only spare or new nodes are used |
| SimcList.List.ExtractAt | src/common/simclist.c:433-449 | the element is taken out and returned, or nothing happens |
| SimcList.List.DropElem | src/common/simclist.c:1376-1402 | exactly this element goes from the chain; its node becomes the last of the spares if there are fewer than five, and is freed otherwise |
| SimcList.List.DeleteAt | src/common/simclist.c:532-548 | the element at a position goes |
| SimcList.List.Delete | src/common/simclist.c:500-514 | the first element that is the same as the data goes; -1 if there is none or an iteration is on |
| SimcList.List.Locate | src/common/simclist.c:676-694 | the first position of an element that is the same as the data, by the comparator or as pointers, or -1 |
| SimcList.List.DeleteRange | src/common/simclist.c:564-624 | the range goes, in agreement with slicing, with the middle right; the range that is the whole list crashes |
| SimcList.List.Clear | src/common/simclist.c:626-666 | all elements go, and their nodes, from the first on, become spares while there is room |
| SimcList.List.GetAt | src/common/simclist.c:372-378 | the data at a position |
| SimcList.List.Seek | src/common/simclist.c:696-706 | the first element the seeker accepts |
| SimcList.List.IteratorNext | src/common/simclist.c:945-955 | the next element, and at the end the data of the tail sentinel |
| SimcList.List.Elements | src/common/simclist.c:935-973 | a whole iteration gives the elements in order and changes nothing |
| ListConcat.Concat | src/common/simclist.c:712-763 | a new list with the elements of both, fully linked, its middle right |
| ListConcat.MovesToMid | src/common/simclist.c:751-758 | the signed correction, with C's division, ends at the middle for all sizes and parities |
| ListSort.SelectionSort | src/common/simclist.c:793-812 | the stretch is rearranged into order, the rest untouched |
| ListSort.Meet | src/common/simclist.c:850-867 | when an iterator meets the pivot, what they passed is on its proper side and nothing is lost |
| ListSort.MoveLeft | src/common/simclist.c:870-883 | the moving pivot ends with everything on its proper side |
| ListSort.MoveRight | src/common/simclist.c:884-899 | and so in the other direction |
| ListSort.QuickSort | src/common/simclist.c:814-935 | for any choice of pivots the recursion ends, rearranges only its stretch and sorts it |
| ListSort.Sort | src/common/simclist.c:765-774 | the list becomes a permutation of itself in the comparator's order, either way; nodes, links and middle stay |
| Rearrange.SortedAround | src/common/simclist.c:932-933 | sorted parts on the proper sides of a pivot make a sorted whole |
| HashTables.Table.Insert | src/sip_hash.c:173-206 | a node is searched for by the key as it reads in the request; what searches found before they find still, and a new node is found by the key as it reads in the node, in its bucket |
| HashTables.Table.InsertExact | src/stream_hash.c:56-85 | if the key reads the same in both, a table that is a finite map stays one, with this key added |
| CallIds.ReadsTheSame | src/sip_hash.c:22 | a Call-ID reads the same in the request and in the node if and only if it is shorter than 32 characters or the same is stored behind both fields |
| CallIds.InsertTwice | src/sip_hash.c:173-206 | so a second INVITE gets the node of the first if and only if there was one already, or one of these holds |
| CallIds.LongCallIdReadsOn | src/sip_hash.c:191 | a Call-ID of 32 characters for which it does not |
| HashTables.Table.Find | src/stream_hash.c:87-97 | a node of the key in its bucket, or none if there is none |
| HashTables.Table.Delete | src/stream_hash.c:101-106 | the node is removed through its stored bucket and no other search changes; for any hash function a table that is a finite map stays one, without this key |
| SdpText.WordIs | src/sdp.c:217-222 | a token is the text before the first character that ends it |
| SdpAnswer.AnswerReadsBack | src/sip.c:405-415 | parsing the printed answer gives back every line with its fields, for all whitespace-free tokens |
| SdpDescription.GettersFindTheLines | src/sdp.c:1381-1394 | for all lines, the structure filled line by line holds the last origin and y, the session's last connection, every media line, and gives for a media line and a name the first attribute of that name before the next media line |
| SdpDescription.GettersFindTheAnswer | src/sip.c:233-286 | in the printed answer, parsed, the getters find the user name, both addresses, the port, the stream mode and y |
| SdpDescription.ParsedAreFormed | src/sdp.c:1273-1373 | the lines the parser finds in any text can be entered in the structure |
| SdpLines.FormatsKept | src/sdp.c:1085-1123 | for every text of a media line: three words are kept and, of the formats, the thirteenth alone; the parsing ends, and all text behind the line is lost, if and only if a blank follows the sixteenth word |
| SdpLines.OverrunsExactly | src/sdp.c:1286-1292 | for every text: the parser reads behind the terminator if and only if the last line is not empty and all blanks, and every line before it is taken |
| SdpLines.LineMore | src/sdp.c:224-240 | what a line comes to does not depend on the text behind its end |
| SdpKinds.OneTextKept | src/sdp.c:353-441 | among any other lines a session name, information, URI, e-mail or y line is taken with its whole text as its only field |
| SdpKinds.PhoneKept | src/sdp.c:480-525 | likewise a phone line, without the spaces behind it |
| SdpKinds.PairKept | src/sdp.c:947-1005 | bandwidth, key and attribute lines are split at the first colon, both parts without the blanks around them |
| SdpKinds.NameKept | src/sdp.c:947-1005 | without a colon the whole is the name, and the value empty |
| SdpKinds.ConnectionKept | src/sdp.c:527-589 | a connection line is two words and a trimmed text |
| SdpKinds.TimingKept | src/sdp.c:668-713 | a timing line is one word and a trimmed text |
| SdpKinds.VersionKept | src/sdp.c:275-293 | a version written in decimal is read as that number |
| SdpKinds.OtherLines | src/sdp.c:1286-1373 | an empty line ends the parsing, a missing equals sign rejects the text, an unknown letter or a second URI aborts |
| SdpParser.Parser.SkipSpace | src/sdp.c:210-215 | the cursor passes blanks and nothing else |
| SdpParser.Parser.TokenWord | src/sdp.c:217-222 | the cursor passes one token |
| SdpParser.Parser.TokenCrlf | src/sdp.c:224-240 | the cursor passes a line end, or stays at the end of the text |
| SdpParser.Parser.TrimRight | src/sdp.c:242-256 | trailing blanks are dropped from the length |
| SdpParser.Parser.MarkAndRecord | src/sdp.c:335-346 | the NULs written behind the tokens of a line leave every token, those of earlier lines included, and all text behind the line's end unchanged |
| SdpParser.Parser.Enter | src/sdp.c:335-346 | so the unread text is still the original when the next line begins |
| SdpParser.Parser.ParseOrigin | src/sdp.c:302-351 | the line is taken if and only if it has six non-empty words and ends, with these fields |
| SdpParser.Parser.ParseConnection | src/sdp.c:527-589 | likewise for two words and a trimmed rest |
| SdpParser.Parser.ParseTiming | src/sdp.c:668-713 | likewise for one word and a trimmed rest, either of which may be empty |
| SdpParser.Parser.ParsePair | src/sdp.c:947-1005 | likewise for a name and a value around an optional colon |
| SdpParser.Parser.ParseRest | src/sdp.c:353-525 | likewise for the lines that are one text |
| SdpParser.Parser.ParseMedia | src/sdp.c:1041-1123 | likewise for media lines, with the case that stops the parser |
| SdpParser.Parser.ParseVersion | src/sdp.c:275-293 | likewise for the version number |
| SdpParser.Parser.Parse | src/sdp.c:1273-1373 | on every text the in-place parser ends as the text-level parser does, and every pointer it leaves reads, up to its NUL, the field found; it runs over the end if and only if the last line is not empty and all blanks and every line before it is taken |
| SdpParser.ReadAnswer | src/sip.c:405-415 | parsing the answer in place recovers, through the pointers, everything printed |
| SdpStore.Attributes.Append | src/sdp.c:947-1005 | an attribute goes behind all others, in the five slots or in the block that grows by eight |
| SdpStore.Attributes.Find | src/sdp.c:1699-1718 | the value of the first attribute of a name in text order |

## Left out

- Sockets, epoll, libevent, stpool, osip, host lookup, port probing and configuration files: callbacks and tasks are steps, a send appends to a log.
- Weak memory orderings, several producers or consumers, and the shared-memory mode of the queue: the program uses none of the latter two; a unit's data is copied in one step.
- LfQueueObject.Init: negative sizes and the overflow of the memory size in 32 bits are not modelled; a failed allocation is not either.
- The audio branch of the multiplexer, and the inner length of the stream map as a guide to parsing.
- Sender.StreamNode.SendToClients: the loop on a client list that nothing else touches; the walk with appends in between is in `FanOut`.
- Sender.StreamNode.PackPsRtpAndAddNode: likewise.
- EndToEnd.SendFrame: likewise.
- EndToEnd.SendQueued: likewise.
- Clients are values in `FanOut`; closing their sockets and freeing them is in `StreamLife`, which in turn leaves out packet contents and Call-IDs (which client a request names is free).
- The RTCP timers, whose time-out acts on a client as STOP does.
- Timestamp.SendClock.OnFrame: the signed difference of two stamps is undefined in C when it overflows; the model takes the exact difference.
- The branch taken when the pool refuses the send task.
- Liveness of the node handshake beyond the return of locks and `StreamWalk.FreedAtLast`: that frames go on arriving, or that a closed connection is eventually noticed, depends on the media server and on timers.
- CommandReply.Receiver.RecvCmd: what happens after the buffer was asked for too much, or when its text has no end, is not modelled; the queue made when a reply is accepted is assumed to be made.
- Reassembly.FramesArePrefix: streams with a block whose length field is below 28, for which the program asks for a negative number of bytes; what happens after the buffer was asked for too much is not modelled.
- SimcList.List.FindPos: the quarter is chosen by an exact ratio instead of a single-precision one; `SimcList.QuarterIsExact` says that this is the same up to two million elements.
- SimcList.List.DeleteRange: with fewer than 2^31 elements.
- SimcList.List.IteratorNext: a further call after the one that answered from the tail sentinel uses a missing node.
- SimcList.List.GetAt: at the position just behind the last element it reads the tail sentinel, whose data is not part of the model's list.
- List attributes (comparator, seeker) are arguments of the operations; copying element data, minimum and maximum, hashing, dump and restore of lists are left out; the program uses none of them.
- HashTables.Table.Insert: socket binding; the buckets are the contents of their lists, not list objects, changed as the contracts of `SimcList.List.InsertAt`, `SimcList.List.Seek` and `SimcList.List.Delete` say (`SimcList.FirstSameIsRemoved` for the last).  The Call-ID fields of clients, which are compared in the same way, are abstract there.
- SDP lines `r=` and `z=`, the RTSP URI helpers, and the number conversion of ports: the parser's end is then `OutOfScope`, or not modelled.
- SdpParser.Parser.ParseVersion: the overflow of a version number in 32 bits.
- The description structure of SDP keeps what the getters in use read; the growth of stores other than the attributes is the same and not repeated.
- src/stream/get_frame_from_box.c, which is not the selected source, and src/stream/rtcp_pack.c.
