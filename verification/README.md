# castserver: a verified model

castserver streams wave files to speakers on a local network. A client sends a wave file over a
control socket; the server cuts it into chunks, de-interleaves every chunk into one packet per
channel and sends each packet to the speakers of that channel. Speakers announce themselves by
multicast, are swept offline when they fall silent, and synchronise their clocks by asking the
server for the time. A starting server first asks whether another one is running.

The model follows the program's own files. Code that updates state in place is imperative here too:
classes with the same fields, arrays written in place, loops with invariants. Every such method is
proved against a function on values, and the results about whole runs are proved about those
functions.

| file | what it models |
|---|---|
| `Arithmetic.dfy`, `Bytes.dfy`, `CText.dfy` | products and remainders, lists of blocks, `strncasecmp` |
| `Interleaving.dfy` | what an interleaved block means, channel by channel |
| `Registry.dfy` | the speaker table as a value, and every operation on it as a function |
| `FanOut.dfy` | who is sent what in a push, and the packet counter |
| `SpeakerTable.dfy`, `SpeakerPusher.dfy`, `SpeakerControl.dfy`, `ServerDetect.dfy` | the table, audio push, control and detection, updating objects in place |
| `RegistryRuns.dfy`, `RegistryTiming.dfy` | all runs of announcements, visits of the sweep, pushes, requests and format changes |
| `Newcomers.dfy`, `Descriptors.dfy` | what detection makes of every datagram and newcomer, and which descriptors are closed |
| `CommandControl.dfy` | frames on the control socket and their dispatch |
| `ServerMutex.dfy`, `Election.dfy` | the probe of one starting server, and start-ups of any number of hosts |
| `ClientPipe.dfy`, `WaveProtocol.dfy` | the client, and client and server as interleaved steps |
| `WaveSchedules.dfy` | which runs of the two there are |
| `PushWave.dfy`, `WaveStreams.dfy`, `SpeakerStreams.dfy` | the wave command, its byte accounting, and what reaches a speaker |
| `CommandPackets.dfy` | what a finished wave command has sent, told from the wave's format |
| `WaveRuns.dfy` | the pushes of a wave command with announcements, sweeps and requests between them |
| `Sessions.dfy`, `FileToSpeaker.dfy` | client and server on one file, told from the file, and what a speaker is sent of it |

Some things the code does that its shape does not suggest, all proved below:

* The client waits for one ack more than it sends chunks. That ack comes in every run if bytes of the
  first block are left over for an extra read. If nothing is left over (no chunk follows, or the
  payload of the first block is a whole number of chunks), full reads leave both sides waiting for
  each other. A server that refuses what it got of the first block goes back to wait for other
  connections without closing this one, and the client then waits for ever in every run
  (`WaveProtocol.StuckExactly`, `WaveProtocol.RefusedAlwaysHangs`, and told from the file
  `Sessions.SessionHangsExactly`).
* A push is given the length of a chunk divided by the number of channels, so only that prefix of
  the chunk is de-interleaved. It is the whole chunk exactly for one channel
  (`SpeakerStreams.CoverageExactly`, with a stereo chunk in `StereoDropsTheSecondFrame`, and of the
  command itself `CommandPackets.ChannelsTogether`), and nothing behind it makes any difference to any
  speaker (`SpeakerStreams.OnlyPrefixesMatter`).
* The buffers pushed are the stream cut into chunks exactly if every read fills its window; a short
  read pushes a full buffer whose rest is old content (`WaveStreams.PushedIsStreamExactly`). Some
  delivery of a file does that exactly if the first block's payload is a whole number of chunks
  (`Sessions.FileCanBeExactly`). With the first block received in one piece the client
  can hang on every such file, and no session that finishes is such a delivery
  (`Sessions.SessionFillsExactly`, `Sessions.OnePieceIsNeverExact`). What does occur is that all
  windows but the last are filled: then the song ends with a repetition of the bytes one chunk
  before its end (`WaveStreams.OnlyTheTailIsStale`, `WaveStreams.StaleTailRepeats`).
* A residue with no read after it is never pushed (`WaveStreams.StreamConservation`), so a file that
  fits into the first block may lose its end (`Sessions.FilePushedExactly`).
* Two servers can run at once (`Election.OverlapGivesTwo`). Whether one more start-up can lead to that
  is decided before its probe, in any state: it cannot if and only if at most one host is running or
  about to, and nobody is about to (`Election.ProbeIsSafeExactly`). A server that is running is no
  protection while another start-up is pending. A run is safe throughout if and only if its start-ups
  do not overlap (`Election.SafeRunsExactly`).
* The server acknowledges every read, the client takes one ack more than it sent chunks. With more
  reads than that, acks are left over, and the server may come to ack a client that has closed: it can
  as soon as there are two bytes more than chunks (`WaveSchedules.AckAfterCloseExactly`). No ack is
  left over only if late bytes and residue fit into one window (`WaveSchedules.LeavesNoAckExactly`).
* A speaker whose first announcement is unsupported is not answered, but its second one is, supported
  or not (`RegistryRuns.SecondAnnouncement`).
* A speaker whose first announcement was unsupported is never connected and never given a time
  base, whatever it announces later (`RegistryTiming.LateSupportGetsNoAudio`,
  `RegistryRuns.TimeBase`).

## Assumptions

`common/` is not part of this model. What its functions are taken to do:

* `header_check` returns a size no larger than its input, 0 on failure; `get_chunksize` gives client
  and server the same positive size; `get_format` and `get_channel_list` describe the wave at hand.
  Together they are the `inspect` argument of `CmdWave` and the arguments of `PipeInit`.
* `BITS_CPY` copies the given number of bytes; `pcm_header_encode` writes the header bytes only, and
  writes the same ones each time.
* `find_speaker_by_id` and `add_speaker` are map operations; `add_speaker` appends to the table's order
  and to its channel's list, and hands out a fixed blank record (`Config.blank`).
* `speaker_check_online` on an announcement sets the speaker online with a fixed timeout
  (`Config.refresh`). What it makes of state and timeout when the push gate calls it for a speaker that
  cannot be reached is any function of the two (`Config.recheck`), so it depends on nothing else, such
  as the clock; it changes nothing else.
* `SPEAKER_STRUCT_INIT_FROM_HEADER` copies address and port and does not touch `supported`.
  `MASK_ISSET(m, b)` tests bit `b`.
* `spk_detect_request_size` and `spk_detect_request_decode` are a fixed size and a function of the datagram
  (`Config.requestSize`, `Config.decode`); `control_package_encode` loses nothing of a package.
* The fields of a time reply are 64-bit, as `utime` is.

Sockets: a datagram handed to `sendto` counts as sent. A read of the stream socket returns 0 at the
end of the stream and otherwise any part of what is there, up to the window. A 4-byte ack arrives whole.
Socket buffers do not fill up. On the election's network nothing is lost, replies arrive before the
timeout, and different hosts are different machines.

## Model

| member | source | states |
|---|---|---|
| Interleaving.ChannelAt | server_speaker_pusher.c:157-165 | byte c of the i-th sample of frame f is at position f*b+c of channel i's payload, for every shape |
| Interleaving.ChannelLength | server_speaker_pusher.c:152-165 | every channel gets the same whole number of samples, an n-th of the block |
| Interleaving.InterleaveSplit | server_speaker_pusher.c:148-165 | putting the channel payloads back together, frame by frame, gives the block |
| Interleaving.SplitInterleave | server_speaker_pusher.c:148-165 | splitting re-interleaved payloads gives each of them back, so nothing else splits into them |
| Interleaving.SplitConserves | server_speaker_pusher.c:157-165 | over all channels the copied bytes are the bytes of the block, each exactly once |
| Interleaving.SourceIndexOnto | server_speaker_pusher.c:157-165 | every byte of a block is some byte of some channel's sample in some frame |
| Interleaving.SourceIndexOneToOne | server_speaker_pusher.c:157-165 | and of one only: frame, channel and byte are determined by the position |
| Interleaving.ChannelAppend | server_speaker_pusher.c:157-165 | a channel of two blocks in a row is the two channels in a row |
| Arithmetic.WholeIff | server_speaker_pusher.c:152 | the whole-frames precondition of a push is the divisibility its assertion checks |
| SpeakerPusher.Pusher.CopyStrided | server_speaker_pusher.c:158-165 | the pointer loop packs the strided samples behind the header, reads only inside the block, and leaves the rest of the buffer alone |
| SpeakerPusher.Pusher.Push | server_speaker_pusher.c:146-172 | one block: the turns taken and packets sent are those of the block's channels in order, the counter advances by the number of channels, and the buffer behind the fresh payload keeps its content |
| SpeakerPusher.Pusher.PushChannel | server_speaker_pusher.c:129-144 | one channel: counter advanced even without members, then one turn per member with header, payload and old tail; returns 1 exactly if there is no list |
| SpeakerPusher.Pusher.SendToSpeaker | server_speaker_pusher.c:93-127 | sends exactly if online, supported, with port and descriptor; otherwise at most state and timeout change, and the descriptor is closed unless it is the push connection's |
| SpeakerPusher.Pusher.Connect | server_speaker_pusher.c:65-91 | a descriptor is assigned only to a supported online speaker, the push connection's if no socket can be opened |
| FanOut.FanOutExact | server_speaker_pusher.c:106-144 | the send log is the turns in order, keeping exactly those whose speaker passes the gate on that turn, its state being the initial one put through the gate once per earlier turn of its own |
| FanOut.BlockTurnAt | server_speaker_pusher.c:137-168 | the turns of a block are channel after channel, and within each its members in list order, each with the channel's packet |
| FanOut.GateExactly | server_speaker_pusher.c:106-126 | one turn, on the record's fields: who is sent the packet, and who is put through the online check instead |
| FanOut.EveryTurnRechecks | server_speaker_pusher.c:109-113 | a speaker without port or descriptor is put through the online check once on each of its turns, and nothing else of it changes |
| FanOut.SingleTurnsDecided | server_speaker_pusher.c:106-144 | where no speaker has two turns, a turn sends exactly if its speaker passed the gate before the first |
| FanOut.ReadySpeakerGetsAll | server_speaker_pusher.c:106-144 | a speaker that passes at the start is sent the packet of each of its turns, in order |
| FanOut.UnfitSpeakerGetsNothing | server_speaker_pusher.c:109-118 | without port, descriptor or support no turn sends anything, whatever happens at the gate |
| FanOut.PushTouchesLivenessOnly | server_speaker_pusher.c:106-127 | a push changes at most online states and timeouts, and nothing of a reachable speaker |
| FanOut.SequenceCounter | server_speaker_pusher.c:129-132 | after any number of channel pushes the counter is 1 plus that number modulo 65535, never 0 |
| SpeakerControl.Control.TimeRequest | server_speaker_control.c:86-102 | a known reachable speaker is answered with the clock and its 64-bit distance from the speaker's time base; others are not |
| RegistryTiming.AnsweredExactly | server_speaker_control.c:86-102 | a request sends one reply, to the one who asked, exactly if it is listed, online and has a port, supported or not; nothing else is sent and nothing changes |
| RegistryTiming.OnlyRequestsAnswered | server_speaker_control.c:86-102 | no other event sends a time reply |
| RegistryTiming.KeptAliveIsAnswered | server_speaker_control.c:86-102 | over runs, a speaker with a port that is heard often enough is answered at each of its requests |
| SpeakerControl.Control.Format | server_speaker_control.c:132-148 | the commands sent are those of the table in order, though one package is rewritten for all |
| SpeakerControl.FormatExact | server_speaker_control.c:132-148 | one format change sends one command to each online speaker with a port, with its own channel and the common rate and bits, and nothing to anybody else |
| SpeakerControl.FormatOrder | server_speaker_control.c:142-147 | the commands go out in table order |
| RegistryRuns.FormatChangeExactly | server_speaker_control.c:132-148 | the same as an event of a run: nothing else is sent, and the table stays as it is |
| ServerDetect.Detector.ValidSpeaker | server_detect.c:56-119 | table, datagrams and return code after an announcement, in every branch |
| ServerDetect.Detector.DetectRead | server_detect.c:243-297 | table, datagrams and return code after any datagram: probe, announcement, wrong source, wrong size |
| Newcomers.NotAnnounced | server_detect.c:243-297 | a probe is answered with the mutex text, any other datagram that is no well-formed announcement from its own address with nothing; the table stays as it is |
| Newcomers.AnnouncementAnswered | server_detect.c:261-288 | every outcome of an announcement: return code, datagrams in order, and whether the speaker is then listed |
| Newcomers.AnnouncementCodes | server_detect.c:56-119 | when each of the return codes 1, -1 and 0 is given |
| Newcomers.SupportExactly | server_detect.c:70-77 | support is bit `config_speaker_bits` of one mask and bit `config_speaker_rate` of the other, counted by shifting |
| Newcomers.OnlyTheAnnounced | server_detect.c:79-85 | a datagram changes no known speaker but the one announced, and of that support, state and timeout |
| ServerDetect.Detector.SweepOnce | server_detect.c:299-311 | one pass visits every speaker once: timeout down by one, offline and descriptor closed if it had run out, in table order |
| Descriptors.VisitClosesExactly | server_detect.c:306-308 | a visit that leaves its speaker online closes nothing; one that takes it offline closes its descriptor, unless that is negative or the push connection's |
| Descriptors.VisitsAlone | server_detect.c:306-308 | any number of visits in a row: the timeout counts them all, the speaker is online while it lasts, and every visit after that closes the descriptor once more |
| Descriptors.OfflineCloses | server_detect.c:299-310 | over runs: the descriptor is closed exactly at the visit that takes the speaker offline |
| Descriptors.PassCloses | server_detect.c:299-310 | what a pass closes is what its visits close, in table order |
| Descriptors.TurnClosesExactly | server_speaker_pusher.c:109-118 | one turn at the gate closes the descriptor of a speaker that is not sent the packet, with the same exceptions |
| Descriptors.KeptAliveKeepsDescriptor | server_detect.c:299-310 | over runs, neither sweep nor push closes anything on account of a ready speaker that is heard often enough |
| RegistryRuns.PassIsVisits | server_detect.c:299-311 | a pass is one visit to each speaker in table order; the runs below take the visits one by one, with anything in between |
| ServerDetect.Detector.constructor | server_detect.c:339-342 | the group is told of the first run, and later answers carry kind 0 |
| ServerDetect.Detector.Deinit | server_detect.c:359-361 | the group is told of the exit |
| RegistryRuns.RunKeepsEntries | server_detect.c:56-119 | over any run ids stay unique, and table order and channel lists only grow at their ends |
| RegistryRuns.IdsExact | server_detect.c:56-96 | the ids in the table are exactly those announced from their own address with positive masks when adding succeeded, supported or not |
| RegistryRuns.IdentityIsSettled | server_detect.c:79-106 | over any run, address, port, channel, descriptor and time base of a listed speaker never change |
| RegistryRuns.FirstAnnouncementDecides | server_detect.c:87-106 | they are for good what the first accepted announcement made them |
| Newcomers.NewcomerIs | server_detect.c:87-101 | after the first announcement and any later run: address the datagram's source, port the announced one, line and channel the configured ones, descriptor the one opened if supported |
| Newcomers.NewcomerIsListed | server_detect.c:87 | and for good a member of that channel's list, once, and of no other |
| Newcomers.NewcomerIsReady | server_detect.c:94-118 | supported, with a port and a descriptor: ready for audio at once, and sent one format command with its channel and the configured rate and bits, then the server's address |
| Newcomers.NewcomerHearsWave | server_detect.c:94-118 | and if it goes on announcing itself it is sent its part of every block of a wave command that follows |
| RegistryRuns.SecondAnnouncement | server_detect.c:79-106 | announcing twice leaves the table as announcing once does; the second time is always answered, the first only if known or supported |
| RegistryRuns.TimeBase | server_detect.c:94-106 | the time base is the arrival of a speaker supported at first, and never assigned for any other |
| RegistryRuns.StableTimeBase | server_speaker_control.c:86-102 | in any run, every time reply gives its speaker the same server time minus offset: its time base |
| RegistryTiming.OffsetsNeverDecrease | server_speaker_control.c:98-101 | while the clock does not go back, neither do the offsets sent to a speaker, and none wraps around |
| RegistryTiming.StaysOnline | server_detect.c:299-310 | a speaker heard at least once in every T visits of the sweep is online throughout, with T minus the visits since as timeout, whatever else happens; without port or descriptor, as long as no push gives it a turn |
| RegistryTiming.OfflineExactly | server_detect.c:299-310 | it goes offline exactly at the (T+1)-th visit in a row without an announcement |
| RegistryTiming.StaysOffline | server_detect.c:299-310 | and stays offline until announced, if no push gives it a turn or the push gate's check does not revive it |
| RegistryTiming.OwnHistoryDecides | server_detect.c:79-85 | along any run, the record of any known speaker is made by its own announcements, visits and turns in their order, whatever the online check does |
| RegistryTiming.LateSupportGetsNoAudio | server_detect.c:94-104 | a speaker unsupported at first is sent no audio in any later run |
| CommandControl.CallCommand | command_control.c:49-69 | rejects what is not a frame, else finds the first command of that name and hands it payload and length; bytes behind the frame do not matter |
| CommandControl.CommandServer.Serve | command_control.c:95-114 | the outcome depends on the bytes received only, not on an older frame left in the buffer |
| CommandControl.FrameRoundTrip | command_control.c:51-67 | a framed word and payload reach handler j with exactly that payload if and only if the word is the name of j but for case |
| CommandControl.CalledOnlyIfFramed | command_control.c:51-67 | whatever is called was framed: `cntl`, the handler's name but for case, no earlier name that matches, and the payload it gets |
| CommandControl.RejectedExactly | command_control.c:51-56 | rejected exactly if under twelve bytes came or the first four do not spell `cntl` |
| CommandControl.UndefinedExactly | command_control.c:61-68 | frames with an unregistered name, and only those, run past the registered entries |
| ServerMutex.CreateMutex | server_mutex.c:88-106 | sends the tag; exits exactly on a reply that starts with the answer text, but for case |
| Election.TwoServersOverlapped | server_mutex.c:88-104 | in any run, of two running servers each probed before the other was installed |
| Election.TurnedAwayExactly | server_mutex.c:88-104 | in any run, servers being stopped and started again included, a host is turned away exactly if some server was up at its probe |
| Election.AtMostOneServer | server.c:199-210 | if no start-up goes ahead while another is pending, at most one host is running or about to |
| Election.ProbeIsSafeExactly | server_mutex.c:88-104 | in any state, one more start-up can never end in two servers if and only if at most one host is running or pending and none is pending |
| Election.SafeRunsExactly | server_mutex.c:88-104 | in any run, two servers are out of the question at every point if and only if no start-up goes ahead while another is pending |
| Election.OverlapGivesTwo | server_mutex.c:88-104 | two overlapping start-ups, the second installed although the first already runs |
| ClientPipe.Client.PipeInit | client/pipe.c:41-91 | frames the head of the file, exits if it is no wave, else sends chunk after chunk with a receive after each and one at the end; a send that fails because the server is gone ends all that at once; the chunks carry the file in order |
| ClientPipe.SessionIsScript | client/pipe.c:66-80 | those calls are the script the protocol's client steps through |
| ClientPipe.BrokenOffIsScript | client/pipe.c:66-83 | a client that loses the server makes the same calls up to that send and then closes, without a last receive |
| WaveProtocol.StreamingNeverStuck | client/pipe.c:66-77 | under any interleaving and any short reads, no chunk waits for its ack while the server waits for bytes |
| WaveProtocol.ReadsBound | command/pushwave.c:74-81 | bytes read and residue never exceed the number of reads times the chunk size |
| WaveProtocol.DrainIsServed | client/pipe.c:78-80 | the final receive is served if a residue or late bytes of the first block remain |
| WaveProtocol.StuckExactly | client/pipe.c:66-80 | the client can end up waiting for ever exactly if its first block was refused, or no late bytes remain and there is no chunk or no residue |
| WaveProtocol.RefusedAlwaysHangs | command_control.c:95-117 | after a refusal the server neither reads nor acks nor closes, and every run ends with the client waiting |
| WaveProtocol.TerminalStates | client/pipe.c:66-80 | a run that cannot go on is complete or stuck in the final receive, and only then |
| WaveProtocol.EveryRunCompletes | command/pushwave.c:66-81 | if bytes remain, every run is bounded and can only end with both sides done |
| WaveSchedules.FinishedReadsExactly | command/pushwave.c:74-81 | a sequence of reads is that of a finished run if and only if each got something and stayed in its window, together they got all that was sent, and there are more of them than chunks |
| WaveSchedules.FinishedCountExactly | command/pushwave.c:74-81 | in how many reads a run can finish: more than chunks, no more than bytes, enough for the bytes to fit |
| WaveSchedules.CanFillAllExactly | command/pushwave.c:74-81 | a finished run can have filled all its windows exactly if late bytes of the first block and the residue are whole chunks |
| WaveSchedules.UntakenAcks | client/pipe.c:66-83 | a finished run leaves one ack for every read beyond the chunks and one; at least one if late bytes and residue exceed a window |
| WaveSchedules.LeavesNoAckExactly | client/pipe.c:66-83 | some finished run leaves none exactly if late bytes and residue fit into one window and there are more bytes than chunks |
| WaveSchedules.AckAfterCloseExactly | command/pushwave.c:74-81 | the server can be left to ack a client that has closed exactly if there are two bytes more than chunks |
| WaveProtocol.StepsAreCalls | command/pushwave.c:74-81 | each step of the protocol's server is the next call of one that acknowledges every read before the next, and no step of the client is |
| PushWave.WaveCommand.SplitFirst | command/pushwave.c:62-70 | the first loop ends with whole chunks pushed in order, the pointer behind them and less than a chunk left |
| PushWave.WaveCommand.Receive | command/pushwave.c:74 | a read lands in its window inside the buffer, the rest of which keeps its content |
| PushWave.WaveCommand.CmdWave | command/pushwave.c:42-93 | everything pushed, sent, received and acknowledged by the command, in the protocol's order, and what it leaves behind, for every file and every way the stream is delivered |
| CommandPackets.CommandPacketSize | command/pushwave.c:60-77 | every packet the command sends is the header and p bytes, p being the whole part of the chunk over the format's channels |
| CommandPackets.CommandPackets | command/pushwave.c:60-77 | a ready speaker of channel i is sent one packet per block: header, its channel of the block's first p bytes, old buffer tail |
| CommandPackets.TailIsOldBuffer | server_speaker_pusher.c:159-168 | that tail is what the packet buffer holds there when the command starts |
| CommandPackets.ChannelsTogether | command/pushwave.c:60-77 | put together again, what the speakers of all channels are sent is the first p bytes of every block, and that is all that was pushed if and only if the format has one channel |
| CommandPackets.FormatComesFirst | command/pushwave.c:64 | before the first push each online speaker with a port is told the wave's rate and sample size and its own channel, once, and nobody else anything |
| WaveStreams.PiecesAndResidue | command/pushwave.c:66-72 | the chunks and the residue make up the payload; the residue is its length modulo the chunk size |
| WaveStreams.SegmentInPlace | command/pushwave.c:71-77 | in each buffer pushed, the segment read for it is where it was read to, behind the residue in the first; around it is the older content |
| WaveStreams.FreshPartsFlatten | command/pushwave.c:71-77 | for any reads, the new parts of the pushed buffers are residue and received bytes, once and in order |
| WaveStreams.StreamConservation | command/pushwave.c:62-77 | chunks and new parts make up payload and stream, but for a residue that no read follows |
| WaveStreams.PushedIsStreamExactly | command/pushwave.c:62-77 | the blocks pushed are payload and stream cut into chunks exactly if all windows are filled and no residue is left alone |
| WaveStreams.ExactDeliveryExists | command/pushwave.c:62-77 | some delivery of a stream makes the pushes exactly payload and stream if and only if together they are whole chunks |
| WaveStreams.OnlyTheTailIsStale | command/pushwave.c:74-77 | if all windows but the last are filled, the pushes are payload and stream, and then what the buffer held where the last read did not reach |
| WaveStreams.StaleTailRepeats | command/pushwave.c:74-77 | from the second read on, that is the part of the stream one chunk before its end |
| WaveStreams.FinishedIsNotExact | command/pushwave.c:74-81 | a finished session pushes exactly what was sent only if late bytes of the first block and the residue are whole chunks |
| SpeakerStreams.ChannelStream | command/pushwave.c:60-77 | over a run, channel i's payloads are the channel-i projection of the prefixes of all chunks, in order |
| SpeakerStreams.CommandReachesSpeaker | command/pushwave.c:60-77 | when nothing else happens between the pushes, a ready speaker on one channel is sent one packet per chunk with its channel's bytes, and nothing else |
| SpeakerStreams.PayloadStream | server_speaker_pusher.c:157-168 | the fresh parts of those packets, end to end, are its channel of the de-interleaved bytes |
| SpeakerStreams.MonoIsComplete | command/pushwave.c:60-77 | with one channel the speaker is sent payload and stream exactly if all windows are filled and no residue is left alone |
| SpeakerStreams.MonoHearsAll | command/pushwave.c:60-77 | with one channel the speaker is sent all that is pushed, however it was delivered |
| SpeakerStreams.MonoTail | command/pushwave.c:60-77 | with one channel and all windows but the last filled: payload and stream, then the stale rest of the last window |
| SpeakerStreams.CoverageExactly | command/pushwave.c:60-67 | what is de-interleaved is all that was pushed exactly for one channel |
| SpeakerStreams.OnlyPrefixesMatter | command/pushwave.c:60-67 | two runs of blocks are the same to all speakers exactly if each block agrees on its first chunk / channels bytes: the rest is sent to nobody, and no byte of the prefix is lost |
| WaveRuns.KeptAliveHearsAll | server_speaker_pusher.c:106-144 | whatever else happens in a run, a ready speaker heard often enough is sent the packet of each of its turns, in order, and no other audio |
| WaveRuns.WaveReachesSpeaker | command/pushwave.c:60-77 | the same over a whole wave command with announcements, sweeps and requests between its pushes: one packet per chunk, with its channel's bytes |
| WaveRuns.SweptOffHearsNoMore | server_detect.c:299-310 | a speaker that falls silent is sent its packets up to the visit that finds its timeout used up, and none after it, if the push gate's check does not revive it |
| WaveRuns.MembershipsSettled | server_detect.c:87-96 | along any run a known speaker stays in the channel lists it is in, and in no others |
| WaveRuns.UninterruptedPushes | command/pushwave.c:66-77 | the pushes of a command as events of a run amount to the turns of all its blocks |
| WaveRuns.CommandIsItsPushes | command/pushwave.c:66-77 | what the command leaves in the table and has sent is the run of its pushes |
| Sessions.FirstBlockDispatched | command_control.c:49-69 | however much of the client's first block is received: refused below 12 bytes, else the wave command gets exactly the file part of it, null if there is none |
| Sessions.SessionHangsExactly | client/pipe.c:66-80 | told from the file: the client can wait for ever exactly if too little of the first block was received for a wave, or it arrives in one piece and either ends the file or carries a whole number of chunks |
| Sessions.FileGoesThrough | client/pipe.c:50-77 | payload and stream carry the file behind its header to its end, then less than a chunk of padding, or for a short file the rest of the first block |
| Sessions.FilePushedExactly | command/pushwave.c:62-77 | the file is pushed to its end exactly if something follows the first block's first receive, or the file ends before the last incomplete chunk of that block |
| Sessions.FileCanBeExactly | command/pushwave.c:62-77 | some delivery makes the pushes exactly what was sent if and only if the first block's payload is whole chunks |
| Sessions.SessionFillsExactly | client/pipe.c:66-80 | a session that finishes can fill every window exactly if moreover the first block does not arrive in one piece |
| Sessions.OnePieceIsNeverExact | client/pipe.c:66-80 | received in one piece, a session that finishes never pushes exactly what was sent |
| Sessions.DeliveryFinishesExactly | client/pipe.c:66-80 | a way to deliver the stream is that of a session that finishes exactly if it takes more reads than chunks |
| FileToSpeaker.MonoHearsFile | command/pushwave.c:60-77 | with one channel and all windows but the last filled, the speaker is sent the whole file behind its header exactly if the end of the file is pushed at all |
| FileToSpeaker.FileReachesSpeaker | command/pushwave.c:60-77 | over a run with anything between the pushes, a speaker kept alive is sent its channel of the prefixes of all blocks made from the file |
| FileToSpeaker.FileReachesMonoSpeaker | command/pushwave.c:60-77 | and with one channel that begins with the whole file, under the same condition |

## Left out

- Ownership of descriptors: a speaker keeps its descriptor after it is closed, so it may be closed more than once and used after that; what a use or a close then does is not modelled. Closings are told by the speaker they are made for; another entry may hold the same number.
- SpeakerPusher.Pusher.Push: the descriptors closed by the turns of a push are told turn by turn (`SendToSpeaker`); they are summed up for runs (`Descriptors`), not in its contract; the packet counter is never put into the packet header, so only the counter itself is modelled.
- CommandControl.CallCommand: an unknown name runs into table entries without a name; that is the outcome `Undefined`, and nothing is said beyond it.
- PushWave.WaveCommand.CmdWave: a failing `recv`, whose negative result is stored in an unsigned variable, is not modelled; the call on line 77, which lacks the channel list, is read like the one on line 67.
- WaveProtocol.EveryRunCompletes: what the server's ack to a client that has already closed does to the server (a signal, or an error it does not look at) is not modelled; when there is such an ack is `WaveSchedules.AckAfterCloseExactly`.
- RegistryTiming.StaysOnline: for a speaker without port or descriptor nothing is said once a push gives it a turn, because the online check is then called, whose effect is unknown; `OwnHistoryDecides` still says what it can depend on.
- RegistryTiming.OfflineExactly: the same.
- RegistryTiming.StaysOffline: the same call may revive an offline speaker; nothing is said then.
- ClientPipe.Client.PipeInit: a chunk whose send fails for another reason than a lost server is followed by a receive like any other and counts as handed over; whether it arrives is not modelled.
- The mac address and the masks copied into a speaker on its first announcement: nothing reads them later.
- The command `speakers`: a filtered copy of the table.
- Socket set-up, multicast membership, signals, options, threads, logging, the HTTP server, the receiver, the daemon, sleeping.
- SpeakerStreams.CommandReachesSpeaker: takes the whole command as one step on the table; `WaveRuns.WaveReachesSpeaker` does not.
- Races inside one step: each announcement, each visit of the sweep, each push of one block and each request is one atomic step.
