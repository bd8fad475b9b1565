# Verified model of the dx messaging library

A Dafny model of an event-driven messaging library over non-blocking sockets, with the movie
playback, file transfer and scheduling built on it.

Each stateful part has two layers. A module of functions says on values what every operation
does, and carries the theorems over all runs. A module of classes changes objects in place, as the
program does, and each method is proved to do exactly what its function says.

| part | values and theorems | in place |
|---|---|---|
| send queue, partial writes, discarding | `SendQueue` | `PacketIo.Writer` over `LinkedList`, `Buffers` |
| reassembly from partial reads | `Framing`, `Reassembly` | `PacketIo.PacketReader` over `Buffers` |
| handlers, two joined endpoints | `Connection` | `PacketIo.EventContext`, `Multiplexer` |
| packet builders | `Packets` | `Packets` |
| AVI index, seek and play | `AviIndex`, `AviPlayback` | `AviCursor.MovieContext` |
| movie frame packet | `MovieFrame` | `MovieFrame` |
| partial file transfer | `FileTransfer` | `FileTransfer` |
| scheduler | `Schedules` | `Scheduler` |
| playback session | `PlaybackSession` | `DriveMovie` |

The kernel is a parameter: `Kernel.Outcome` is one answer of `read` or `write` (any count, EAGAIN,
another error), and every theorem is for all sequences of answers. A socket is the bytes written,
the bytes waiting and those sequences; a file is a byte sequence; the clock is a parameter. One API
call or handler run is one atomic step, and buffers carry an identity so that ownership can be
counted.

Where the code does not do what it sets out to do, the condition under which it does is proved to be
exact:

- a read leaves a connection alive if and only if something waits, its first read finds a byte and the
  read after the length field does not fail (`Reassembly.WhenReceiveSucceeds`; on an honest
  non-blocking kernel, `Reassembly.HonestReceive`; an input that fails, `Reassembly.LoneLengthFails`), and
  an endpoint lives through a run if and only if no read of it fails so, no write of it meets an error
  and it is not removed (`Connection.LivesExactlyWhenNeverFatal`);
- a queued CONNECT is the first packet on its wire, whatever follows, if and only if the header flag that
  nothing initialises is clear (`Connection.ConnectLeads`; an input that fails,
  `Connection.FlaggedConnectIsDropped`);
- deleting a context destroys that one if and only if no other on its descriptor was added before it
  (`Multiplexer.Multiplexer.DeletesTheRightOne`; an input that fails,
  `Multiplexer.Multiplexer.DeletesAnother`);
- the playback cursor agrees with the seek scan if and only if every frame fits the track table and the
  octet that counts its tracks (`AviPlayback.AgreesExactlyWhenInterleaved`; an input that fails,
  `AviPlayback.SecondFrameMissed`);
- the scheduler's wait is clamped at 0 if and only if nothing live is overdue
  (`Schedules.WaitIsClampedExactlyWhenNotLate`; an input that fails, `Schedules.LateLooksIdle`);
- what is copied into a movie frame packet is the frame length it was sized by if and only if the entries
  left out of the one-octet count hold no bytes (`MovieFrame.CopyFits`; with bytes in every entry, if and
  only if at most 255 are read, `MovieFrame.CountsUpTo255`; an input that fails,
  `MovieFrame.WideFrameIsNotCopied`);
- a get-info request leaves playback intact if and only if no session is live and its file does not open,
  or it reopens the very movie of a live session that has queued nothing, is at frame 0 and, unless it
  sought a negative number, has no entry before its base entry
  (`PlaybackSession.GetInfoKeepsExactlyWhen`; inputs that fail, `PlaybackSession.GetInfoRepeatsAFrame` and
  `PlaybackSession.GetInfoMovesTheFragment`).

Verify with `dafny verify dfyconfig.toml`.

## Model

| member | source | states |
|---|---|---|
| SendQueue.OfferKeeps | src/dx_net_packet_io.c:102-141 | `dx_write` keeps the sender's invariant on every path: wire = whole sent packets + started part of the head; accepted = departed + still waiting, in order; drops legal; a discardable entry at place 11 or earlier; every buffer queued once or freed once; EPOLLOUT armed exactly while something waits; when a packet is accepted is `Connection.WriteQueuesOrFrees` |
| SendQueue.PollKeeps | src/dx_net_packet_io.c:35-97 | a poller call keeps the same invariant whatever the kernel answers to its writes |
| SendQueue.PollLoopKeeps | src/dx_net_packet_io.c:59-96 | the poller's loop from any invariant state: drops, partial writes, completed writes and failures in any mixture |
| SendQueue.PushKeeps | src/dx_net_packet_io.c:71-80 | a partial write advances wire and head position together |
| SendQueue.DropKeeps | src/dx_net_packet_io.c:61-69 | a drop removes an unstarted, flagged head with at least three packets behind it, and leaves the wire at a packet boundary |
| SendQueue.FinishKeeps | src/dx_net_packet_io.c:78-94 | a completed write leaves the wire at a packet boundary |
| SendQueue.TeardownKeeps | src/dx_event_mplexer.c:158-182 | destroying the context frees exactly the buffers not freed before, each once |
| SendQueue.AtMostElevenDiscardable | src/dx_net_packet_io.c:124-128 | the queue never holds more than 11 packets accepted as discardable |
| SendQueue.NothingProtectedIsLost | src/dx_net_packet_io.c:61-69 | packets with argument and header flag both clear are, in order and with repetitions, those sent followed by those waiting |
| Connection.WriteQueuesOrFrees | src/dx_net_packet_io.c:102-141 | in every reachable state, any framed packet: on a live connection that has a list or an open descriptor it is appended, EPOLLOUT armed and 0 returned, unless it is discardable and more than ten packets wait; otherwise it is freed, with -1 exactly if there is no such connection; nothing else changes |
| Connection.TwelfthIsRefused | src/dx_net_packet_io.c:124-128 | the bound is attained: on a new connection eleven stream packets are queued and the twelfth is freed |
| Connection.ProtectedWriteIsKept | src/dx_net_packet_io.c:102-141 | in every reachable state: a packet with argument and header flag both clear, written to a live connection that something was queued on before, is accepted with result 0, and through every continuation it has been sent or is still queued while the connection lives |
| Connection.ProtectedWriteIsHandled | src/dx_net_packet_io.c:35-235 | ... and when everything is through, the peer's handler has been called with exactly that packet |
| SendQueue.PollAccounts | src/dx_net_packet_io.c:59-96 | result, bytes moved and answers used, told by the kernel's answers and the sizes of the packets that are not dropped, which are all but those that come to the head unstarted, with at least three behind them and the lowest bit of the header's flags octet set: if every write completes, all of them, with the queue empty; otherwise the result of the write that stopped the call, after all before it |
| SendQueue.PollFailsExactlyOnError | src/dx_net_packet_io.c:71-80 | the call fails with other than EAGAIN if and only if the answer to the first write the kernel does not complete is an error |
| SendQueue.PollGrows | src/dx_net_packet_io.c:71-78 | a poller call only appends to the wire and never touches what was accepted |
| SendQueue.GenerousPollEmpties | src/dx_net_packet_io.c:59-96 | given room for each queued packet, one call empties the queue, disarms EPOLLOUT and returns the number of bytes moved |
| Framing.ParseRecovers | src/dx_net_packet_io.c:202-232 | a packet list is recovered from its concatenation plus an unfinished tail: the reference reading of a stream is the inverse of sending |
| Framing.ParseGrows | src/dx_net_packet_io.c:174-235 | further bytes never change the packets already read |
| Framing.StreamPrefix | src/dx_net_packet_io.c:174-235 | if one packet stream is a prefix of another, so are their packet lists |
| Reassembly.ReceiveExplained | src/dx_net_packet_io.c:174-235 | one call: the bytes it takes extend the unfinished packet, and either complete exactly one packet leaving the buffer empty, or leave a longer unfinished packet under a limit that is its length |
| Reassembly.WhenReceiveSucceeds | src/dx_net_packet_io.c:193-225 | a call succeeds if and only if something waits, the first read finds a byte, and no failing read follows the one that completes the length field; in that last case taken bytes are lost and the buffer is cleared |
| Reassembly.HonestReceive | src/dx_net_packet_io.c:189-225 | on a kernel that answers EAGAIN when nothing waits and a positive count otherwise, a call with something waiting fails if and only if exactly a length field is there and the first read gets the rest of it |
| Reassembly.LoneLengthFails | src/dx_net_packet_io.c:220-225 | an input that fails: the four length octets alone, then EAGAIN, are taken and end the connection |
| Reassembly.HowMuchIsTaken | src/dx_net_packet_io.c:193-234 | how many bytes a call takes and returns, told by the bytes there and the two answers: what the first read gets of the missing length octets, then what the second gets of the rest of the packet; it delivers if and only if the second gets all of it |
| Reassembly.WholePacketIsDelivered | src/dx_net_packet_io.c:189-235 | a packet that is all there is delivered by one call whose reads are given what they ask for |
| Reassembly.CapacityGrows | src/dx_net_packet_io.c:207-217 | the buffer is replaced only for a packet that does not fit, by one of exactly its length |
| Reassembly.ReceiveAccounts | src/dx_net_packet_io.c:174-235 | delivered packets plus pending bytes account for every byte consumed, across reuse and replacement of the buffer |
| Reassembly.ReadAll | src/dx_net_packet_io.c:174-235 | for any sequence of calls with any kernel answers: consumed bytes = concatenated packets + pending, and pending is the buffer's contents while the connection lives |
| Reassembly.ReassemblyIsParsing | src/dx_net_packet_io.c:174-235 | the packets delivered and the buffer's contents are the reference parse of the bytes consumed; after an error they are still a prefix of the stream's packets |
| Reassembly.CutsDoNotMatter | src/dx_net_packet_io.c:174-235 | two cuttings of one stream that consumed equally many bytes delivered the same packets and hold the same unfinished one |
| Connection.WritableKeeps | src/dx_net_server.c:148-168 | the writable handler keeps the endpoint invariant, CONNECT included |
| Connection.ReadableKeeps | src/dx_net_server.c:170-211 | the readable handler keeps the endpoint invariant, DISCONNECT included |
| Connection.Run | src/dx_net_client.c:86-148 | in every interleaving of API calls and handler runs on two connected endpoints, every invariant holds and each reads the other's wire from its beginning and in order |
| Connection.EndToEnd | src/dx_net_packet_io.c:35-235 | in both directions, in every run, failing ones included: what the peer's handler sees is, byte for byte and in order, a prefix of what `dx_write` accepted minus what the poller dropped |
| Connection.DrainedIsComplete | src/dx_net_packet_io.c:35-235 | once queue and stream are empty and the reader lives, the handler has seen every accepted packet but the dropped ones |
| Connection.DrainedDeliversAll | src/dx_net_packet_io.c:35-235 | for either side of every run in which each of its reads finds its bytes and nothing else ends it: once the other queue and the stream are empty, its handler has seen every accepted packet but the dropped ones |
| Connection.HonestReadSurvives | src/dx_net_packet_io.c:174-235 | on every honest non-blocking kernel, no read of something waiting fails when only whole packets are on the wire |
| Connection.HonestPullsSurvive | src/dx_net_packet_io.c:174-235 | so every sequence of readable events such a kernel raises leaves the reader alive and takes a byte per event: as many events as bytes wait empty the stream |
| Connection.AlwaysDrainable | src/dx_net_packet_io.c:174-235 | from any reachable state with the other side's queue empty and a live reader, such events exist that bring every remaining packet to its handler |
| Connection.SenderFraming | src/dx_net_packet_io.c:59-96 | in every run the wire is a concatenation of whole framed packets followed by exactly the first `position` bytes of the head |
| Connection.DiscardPolicy | src/dx_net_packet_io.c:61-132 | over every run: a dropped packet had the lowest bit of its flags octet set and at least three behind it, nothing protected is lost, at most eleven discardable entries are queued |
| Connection.LifeCycleHolds | src/dx_net_server.c:148-211 | on either side of every run: CONNECT accepted at most once and then first; DISCONNECT handled at most once and then last; EPOLLOUT armed exactly while a started live connection has something queued |
| Connection.ConnectLeads | src/dx_net_client.c:86-94 | a CONNECT that a connection queues is carried first by its wire in every continuation if and only if the lowest bit of its flags octet is clear, an octet that setting the header leaves as the allocation held it |
| Connection.FlaggedConnectIsDropped | src/dx_net_packet.c:30-35 | an input that fails: a flagged CONNECT, three ordinary writes and one writable event answered EAGAIN, and CONNECT has been dropped |
| Connection.UnflaggedLeads | src/dx_net_packet_io.c:61-69 | an unflagged packet accepted first is first on the wire and first at the peer's handler |
| Connection.FirstWritableConnects | src/dx_net_server.c:150-155 | the first writable event of a connection with nothing queued queues CONNECT unless the descriptor is closed, and EPOLLOUT is armed exactly then |
| Connection.DeadIsSilent | src/dx_net_server.c:207-208 | after a context is deleted no handler call, no byte and no buffer of it is left, whatever follows; buffers offered to it are freed at once |
| Connection.OnlyFatalActionsKill | src/dx_net_client.c:96-147 | a live context goes away if and only if it is removed, the first write the kernel does not complete is answered with an error, or a read does not find its bytes; failing reads call the handler with DISCONNECT, and only they do |
| Connection.WritableReturns | src/dx_net_server.c:148-168 | the writable handler returns 0 before anything was queued, then the bytes moved if every write completes, otherwise the result of the write that stopped it, with -2 for an error other than EAGAIN |
| Connection.LivesExactlyWhenNeverFatal | src/dx_net_client.c:86-148 | an endpoint lives through exactly the runs in which none of this happens to it |
| Connection.OneOwner | src/dx_net_packet_io.c:102-141 | a buffer offered once is at every moment queued once or freed once, and freed when the context is gone |
| PacketIo.Writer.Write | src/dx_net_packet_io.c:102-141 | the in-place `dx_write` over the linked list: state and return value are those of `Offer` |
| PacketIo.Writer.WriteByPoller | src/dx_net_packet_io.c:35-97 | the in-place poller over the linked list: state, return value, errno and unused kernel answers are those of `Poll`; the call terminates |
| PacketIo.Writer.WriteHead | src/dx_net_packet_io.c:71-80 | one write of the head's remaining bytes moves position and wire by the bytes taken |
| PacketIo.Writer.HeadIsDroppable | src/dx_net_packet_io.c:61-64 | the drop test is true exactly for an unstarted flagged head of a list longer than 3 |
| PacketIo.Writer.RemoveHead | src/dx_net_packet_io.c:83-86 | removal by address takes the head, and the destroyer is called with it once |
| PacketIo.Writer.Teardown | src/dx_event_mplexer.c:169-173 | closing the list destroys each queued buffer once, after the departed ones |
| PacketIo.PacketReader.ReceivePacket | src/dx_net_packet_io.c:174-235 | the in-place receive over a position/limit buffer: buffer, return value, packet and remaining stream are those of `Receive` |
| PacketIo.PacketReader.SizeFor | src/dx_net_packet_io.c:207-217 | the buffer is kept under a new limit, or replaced by one of the packet's length with the four bytes copied |
| PacketIo.PacketReader.ReadBody | src/dx_net_packet_io.c:220-234 | the read for the rest of a packet, its failure and its completion |
| PacketIo.EventContext.Write | src/dx_net_packet_io.c:102-141 | `dx_write` with and without a context for the descriptor |
| PacketIo.EventContext.SendConnect | src/dx_net_server.c:150-155 | the first writable event disarms, then offers a well-formed CONNECT |
| PacketIo.EventContext.WritableHandler | src/dx_net_client.c:86-107 | the in-place writable handler is `Writable` |
| PacketIo.EventContext.ReadableHandler | src/dx_net_client.c:109-148 | the in-place readable handler is `Readable` |
| PacketIo.EventContext.Delete | src/dx_event_mplexer.c:209-213 | deletion is `Delete` |
| Buffers.Buffer.NreadFrom | src/dx_util_buffer.c:128-136 | one read: position, contents up to it and the stream all move by the bytes read, or nothing does |
| Buffers.Buffer.Put | src/dx_util_buffer.c:100-109 | copies at most what remains and advances by it |
| LinkedList.List.Add | src/dx_util_list.c:73-95 | appends; earlier nodes stay; links stay mutually consistent |
| LinkedList.List.Remove | src/dx_util_list.c:97-132 | deletes the first element the finder matches and destroys it once; -1 and no change if none matches |
| LinkedList.List.Unlink | src/dx_util_list.c:113-123 | the pointer surgery, at head, tail and in between |
| LinkedList.List.Clear | src/dx_util_list.c:155-168 | destroys every element once, in order, and leaves head and tail null |
| LinkedList.List.Size | src/dx_util_list.c:55-71 | counts the elements |
| LinkedList.FirstMatch | src/dx_util_list.c:104-106 | the place the search stops at: the first match, or the end |
| Multiplexer.Multiplexer.Get | src/dx_event_mplexer.c:221-230 | finds the first context on the descriptor, or none is registered |
| Multiplexer.Multiplexer.Delete | src/dx_event_mplexer.c:158-213 | the first context on the given one's descriptor leaves the list, its destroyer is run on it as `Delete` says, and the others stay in order |
| Multiplexer.Multiplexer.DeletesTheRightOne | src/dx_util_list.c:104-127 | that is the given context if and only if no other on its descriptor was added before it |
| Multiplexer.Multiplexer.DeletesAnother | src/dx_util_list.c:104-127 | an input that fails: two contexts are added for one descriptor and the second is deleted; the first is destroyed, the second stays registered and alive |
| Multiplexer.Multiplexer.NotFoundAgain | src/dx_event_mplexer.c:209-230 | with at most one context per descriptor, a deleted one's descriptor is not found again |
| Packets.SetHeader | src/dx_net_packet.c:30-35 | writes every header field but the flags octet, and nothing else |
| Packets.NewHeader | src/dx_net_packet.c:45-59 | the length written is the length queued |
| Packets.NewPrimitive32 | src/dx_net_packet.c:61-117 | the length written is the length queued; the value reads back |
| Packets.NewString | src/dx_net_packet.c:223-242 | the length written is the length queued; text and its length read back |
| Packets.NewStream | src/dx_net_packet.c:244-269 | the length written is the length queued; payload, flags, sequence and time stamp read back; of the encoding type only its upper 16 bits; the discardable flag is set |
| Bytes.Htonl | src/dx_net_packet.c:31 | a 32-bit field reads back as the value written |
| AviIndex.SelectFrom | src/dx_file_avi.c:77-88 | the place of the n-th "00" entry is a base entry inside the index if and only if n is below their number, and the end otherwise |
| AviIndex.SelectCounts | src/dx_file_avi.c:77-88 | exactly n frames start before the n-th base entry |
| AviIndex.SelectUnique | src/dx_file_avi.c:77-88 | no other base entry has n frames before it |
| AviIndex.SelectNext | src/dx_file_avi.c:113-120 | the next frame starts at the next base entry |
| AviIndex.FramesAreBaseEntries | src/dx_file_avi_parser.c:316-322 | the frames of an index are its base entries, counted |
| AviIndex.BaseIsTrackZero | src/dx_file_avi.c:80 | a frame starts at an entry whose chunk id begins with the name of track 0 |
| AviIndex.NameNextTrack | src/dx_file_avi_parser.c:234-273 | each stream header names the first unnamed track; after the first, track 0 is "00" |
| AviIndex.NameReadsBack | src/dx_file_avi_parser.c:262 | a track's name is its number in decimal digits, two of them below 100 |
| AviCursor.MovieContext.CountFrames | src/dx_file_avi_parser.c:316-322 | the frame count is the number of "00" entries |
| AviCursor.MovieContext.SeekFrame | src/dx_file_avi.c:45-92 | the scan, which has no bound on its index, never reads past the last entry, terminates, and is `Seek`: select inside the movie, both totals at or past its end, no change for a negative target |
| AviCursor.MovieContext.GetFrameIndex | src/dx_file_avi.c:97-138 | fills the track table from the cursor up to the next base entry, the table's size or the end; nothing but the cleared table changes at the end |
| AviCursor.MovieContext.ReadTracks | src/dx_file_avi.c:109-130 | the reading loop: how many entries it takes, which, and the sum of their lengths |
| AviCursor.MovieContext.GetFrameData | src/dx_file_avi.c:143-170 | reads the tracks' fragments into rooms of their lengths back to back, each starting with what the file has of it, short reads included, and moves the cursor past the frame |
| AviCursor.MovieContext.HoldsAll | src/dx_file_avi.c:148-156 | fragments that lie in the file are there in full and without a gap |
| AviPlayback.SeekIsSelection | src/dx_file_avi.c:70-89 | inside the movie, seek lands on the one base entry with n frames before it, returns its place and changes nothing else |
| AviPlayback.SeekComposes | src/dx_file_avi.c:53-68 | SEEK_CUR after SEEK_SET to any number, past the end included, is SEEK_SET of the sum with where that arrived; a negative sum leaves the cursor alone |
| AviPlayback.SeekFromEnd | src/dx_file_avi.c:65-67 | SEEK_END is SEEK_SET to the sum with the number of frames |
| AviPlayback.SeekOutside | src/dx_file_avi.c:70-91 | a number at or past the end goes to both totals and returns the number of frames; a negative one changes nothing and returns the current frame |
| AviPlayback.TakesLocate | src/dx_file_avi.c:97-170 | k frames after frame n the incremental cursor stands where a scan finds frame n + k |
| AviPlayback.CursorRefinesScan | src/dx_file_avi.c:45-170 | for interleaved movies, seeking to n and taking k frames gives the frame and fragment numbers of seeking to n + k, up to and including the end |
| AviPlayback.AgreesExactlyWhenInterleaved | src/dx_file_avi.c:113-135 | the cursor agrees with the scan throughout if and only if no frame has more entries than the track table, or the octet that counts them, holds |
| AviPlayback.SecondFrameMissed | src/dx_file_avi.c:113-165 | an input that fails: one track and entries "00", "01", "00"; after one frame the cursor stands on the second entry, the scan on the third |
| AviPlayback.LookupIsGroup | src/dx_file_avi.c:97-138 | the tracks looked up at a frame are exactly that frame's entries, and their summed length its frame length |
| AviPlayback.LookupReads | src/dx_file_avi.c:97-138 | from any cursor, of any movie: the entries looked up run up to the table's size, the next base entry or the end of the index; the count is kept in one octet, and where nothing is read count and length stay |
| AviPlayback.StepMoves | src/dx_file_avi.c:160-167 | from any cursor: the frame number moves by one up to the total, the fragment by exactly the number of records the frame's packet has, which are the entries passed; at the end of the index it stays |
| AviPlayback.PlayedIsContiguous | src/dx_file_avi.c:97-170 | for every movie, interleaved or not, every cursor and every k frames inside the movie: their payloads concatenate to the data of the entries between the cursor and where it stands after them, each once and in order |
| AviPlayback.PlaybackConserves | src/dx_file_avi.c:97-170 | played from frame n to the end: exactly total - n frames, numbered n, n + 1, ..., whose payloads concatenate to the data of every fragment from there on, each once and in order |
| AviPlayback.PlaySendsFragments | src/dx_file_avi.c:143-170 | the payloads alone, from any cursor standing at frame n |
| MovieFrame.BuildFrame | src/dx_net_packet_movie_playback.c:90-142 | the packet built in place has the header, fields, records and data of the frame under the cursor, and the cursor moves past it |
| MovieFrame.PutRecords | src/dx_net_packet_movie_playback.c:121-131 | the record loop: each track's id, length, flags and running offset |
| MovieFrame.SegmentsAreFragments | src/dx_net_packet_movie_playback.c:121-137 | record offsets are the prefix sums of the lengths, so segments are disjoint and in order; segment i starts with what the file has of fragment i, and is exactly fragment i's file bytes if they lie in the file |
| MovieFrame.SegmentsFillPacket | src/dx_net_packet_movie_playback.c:133-136 | from any cursor: the data part is as long as its segments together if and only if the one-octet count leaves no bytes of the entries read out; and with these fragments in the file it then is exactly their bytes |
| MovieFrame.CopyFits | src/dx_net_packet_movie_playback.c:107-137 | from any cursor: what is copied is never more than the frame length the packet was sized by, and equals it if and only if the entries read but not counted hold no bytes |
| MovieFrame.CountsUpTo255 | src/dx_file_avi.c:101-135 | entries with bytes are all counted if and only if at most 255 are read |
| MovieFrame.WideFrameIsNotCopied | src/dx_file_avi.c:132-135 | an input that fails: a frame of 256 entries in a table that holds them; the count wraps to 0, the packet is sized for at least 256 octets, and none is copied |
| FileTransfer.ExchangeTiles | demo/omnid_host_handler_file.c:78-103 | successive replies cover the file from min(begin, size - 1) to its end with no gap or overlap, the first up to min(end, size - 1); they concatenate to exactly those bytes, each follow-up is at most 500000 bytes, and the exchange stops after exactly ceil((size - 1 - min(end, size - 1)) / 500000) follow-ups |
| FileTransfer.MissingFileStops | src/dx_net_packet_file.c:177-184 | a file that does not open is answered with zeros and ends the exchange |
| FileTransfer.SendFile | src/dx_net_packet_file.c:171-242 | the reply's fields are the range from min(begin, size - 1) to min(end, size - 1) whatever the reads did; its content begins with the file's bytes that they found, and is all of them if and only if they found all |
| FileTransfer.ReadRange | src/dx_net_packet_file.c:202-212 | how many bytes the reading loop gets, told by the kernel's answers: it goes on after a block that got a byte or ended in EINPROGRESS; they are the file's, in order, and all of the range when as many reads find a byte before one makes it give up |
| FileTransfer.ReadBlock | src/dx_net_packet_io.c:146-172 | how many bytes a block of reads gets, told by the answers: they add up, in order, until the size is reached or one finds nothing; which answers are left, and whether errno is EINPROGRESS then |
| FileTransfer.FindingFills | src/dx_net_packet_io.c:156-163 | reads that each find a byte fill a block |
| FileTransfer.NewQuery | src/dx_net_packet_file.c:143-160 | the request packet carries range and path |
| Packets.PathRoundTrip | src/dx_net_packet_file.c:155 | a path without NULs that fits survives the fixed field |
| Packets.PathFieldBytes | src/dx_net_packet_file.c:155 | the field holds what fits of the path, then zeros |
| FileTransfer.QueryRoundTrip | demo/omnid_drive_handler_file.c:70-85 | the drive reads back the request the host wrote |
| FileTransfer.ReplyRoundTrip | demo/omnid_host_handler_file.c:83-88 | the host reads back the reply the drive wrote |
| FileTransfer.DriveFileGet | demo/omnid_drive_handler_file.c:70-85 | the drive answers the request in the packet with the fields of its range whatever the reads did, and with the bytes they found |
| FileTransfer.HostFile | demo/omnid_host_handler_file.c:78-103 | the host requests the next range if and only if the reply did not reach the end |
| FileTransfer.PacketsCarryExchange | demo/omnid_host_handler_file.c:78-103 | a run over the packets themselves, each request computed from what is read in the reply packet before it, carries exactly the exchange on values, so it tiles the file too |
| FileTransfer.RunExchange | demo/omnid_drive_handler_file.c:70-85 | the two handlers, called in turn on each other's packets, each request with reads of its own, end and produce such a run when those reads find their bytes |
| Schedules.CancellationIsPermanent | src/dx_util_schedule.c:149-151 | once its deadline is 0 a schedule never changes or fires again in any later run |
| Schedules.CancelledInPass | src/dx_util_schedule.c:85-91 | what a callback cancels, itself included, is dead when it returns and untouched by the rest of the pass |
| Schedules.WalkFreezes | src/dx_util_schedule.c:78-92 | a dead schedule is left alone by a pass whose callbacks register and cancel others while the list is walked |
| Schedules.NoDriftNeverEarly | src/dx_util_schedule.c:78-147 | every run keeps: a live repeatable schedule's deadline = registration + initial interval + interval * firings; firing j had deadline first + interval * j and came no earlier; one-shots fire at most once |
| Schedules.NoDriftFromStart | src/dx_util_schedule.c:130-147 | the same for every schedule of every run from the empty list |
| Schedules.RegisteredRuns | src/dx_util_schedule.c:130-147 | over every run that registers a schedule: firing j has deadline clock + initial + interval * j and comes no earlier, a one-shot fires at most once; and as long as nothing cancels it, it is live with exactly the next such deadline, a one-shot until it has fired |
| Schedules.AtMostOncePerPass | src/dx_util_list.c:134-153 | a pass appends firings in list order, none twice |
| Schedules.PassFiresExactlyTheDue | src/dx_util_schedule.c:85-91 | a pass fires a schedule, once, if and only if its deadline is not 0 and not after the time of the pass, however long past, and no callback entered before it in the pass cancels it; later callbacks and its own do not matter |
| Schedules.NothingDueIsLeft | src/dx_util_list.c:134-153 | after a pass, every live schedule whose deadline is not after its time has fired in it, those included that callbacks appended while the list was walked |
| Schedules.FirstPassFires | src/dx_util_schedule.c:109-128 | the first pass at any time at or after a live deadline fires the schedule, whatever came before it, if nothing cancels it |
| Schedules.WaitIsClampedExactlyWhenNotLate | src/dx_util_schedule.c:64-76 | the wait is the intended clamped one if and only if no live deadline is past: the comparison with 0 is unsigned |
| Schedules.LateLooksIdle | src/dx_util_schedule.c:72-75 | an input on which a live overdue schedule yields -1, the value for none |
| Schedules.WakeUpFires | src/dx_util_schedule.c:52-92 | with nothing overdue: -1 exactly when nothing is live; no live deadline before the wake-up; a pass then fires the earliest if and only if no callback entered before it cancels it |
| Schedules.Earliest | src/dx_util_schedule.c:52-62 | the accumulated value is the minimum of the live deadlines, 0 if there is none |
| Scheduler.Scheduler.Register | src/dx_util_schedule.c:130-147 | registration appends to the list in place |
| Scheduler.Scheduler.Cancel | src/dx_util_schedule.c:149-151 | cancellation through the pointer clears that schedule's deadline and no other |
| Scheduler.Scheduler.Do | src/dx_util_schedule.c:109-128 | the pointer walk, over a list callbacks append to, is `Pass` |
| Scheduler.Scheduler.Call | src/dx_util_schedule.c:85-91 | calling back and then moving or ending the schedule is `Fire` |
| Scheduler.Scheduler.NextWait | src/dx_util_schedule.c:64-76 | the walk with an accumulator is `Wait` |
| PlaybackSession.StartKeeps | demo/omnid_drive_handler_movie.c:85-142 | a start request keeps the session invariant on each of its paths |
| PlaybackSession.StartBegins | demo/omnid_drive_handler_movie.c:110-139 | with no live session, the movie plays from the requested frame, or its end, with the cursor on that frame's base entry; one schedule is appended, due at once and then at the interval of the rate, and no other changes |
| PlaybackSession.StartWhenNothingBegins | demo/omnid_drive_handler_movie.c:98-117 | a start request while a session is live, or whose file does not open, changes nothing |
| PlaybackSession.Interval | demo/omnid_drive_handler_movie.c:131-136 | the interval is as many milliseconds as the rate, at most 40 a second, allows in a second, rounded down; 33 for a rate of 0 |
| PlaybackSession.StopKeeps | demo/omnid_drive_handler_movie.c:144-158 | after a stop no movie is open and no playback schedule is live; other schedules and what was played stay as they were |
| PlaybackSession.FireOneKeeps | demo/omnid_drive_handler_movie.c:52-68 | a callback run inside a pass keeps the invariant: it never finds the movie closed |
| PlaybackSession.TickSendsNext | demo/omnid_drive_handler_movie.c:52-68 | a tick queues exactly the frame under the cursor, or at the end closes the movie and ends its own schedule |
| PlaybackSession.TickEffects | demo/omnid_drive_handler_movie.c:52-68 | a tick cancels its own schedule at the end of the movie, and does nothing to the schedule list before |
| PlaybackSession.PassTicksOnce | src/dx_util_schedule.c:109-128 | a pass, whatever else is scheduled, ticks exactly once if a session is live and its deadline is reached, and otherwise leaves movie, cursor and queued frames alone |
| PlaybackSession.WalkIsPass | src/dx_util_schedule.c:109-128 | what such a pass does to the schedule list is the scheduler's pass with what the ticks do |
| PlaybackSession.Run | demo/omnid_drive_handler_movie.c:49-158 | over any run of starts, stops, passes and other registrations the invariant holds |
| PlaybackSession.OneLiveSession | demo/omnid_drive_handler_movie.c:98-157 | at most one playback schedule is live, and one is live exactly while a movie is open |
| PlaybackSession.FramesAreConsecutive | demo/omnid_drive_handler_movie.c:52-68 | queued frame numbers run on from the first frame by one per tick; a session that ended by itself queued all up to the last |
| PlaybackSession.SessionsPlay | demo/omnid_drive_handler_movie.c:52-68 | in every run, for a movie whose fragments lie in its file: the frames a session has queued, numbers and payloads, are the beginning of what playing the movie from its first frame sends, and all of it once it ended by itself |
| PlaybackSession.QueuedIsPlay | src/dx_net_packet_movie_playback.c:90-142 | the same of any session in order, frame by frame |
| PlaybackSession.CursorIsLocated | demo/omnid_drive_handler_movie.c:128-139 | a session begins at the frame asked for or at the end, and while an interleaved movie plays its cursor stands where a scan finds the frame it is at |
| AviPlayback.PlayAt | src/dx_file_avi.c:97-170 | the k-th frame played is the look-up k frames on from the cursor |
| PlaybackSession.GetInfoKeepsExactlyWhen | demo/omnid_drive_handler_movie.c:70-83 | a get-info request keeps the invariant, which ties the whole cursor to the frames queued, if and only if with no session live its file does not open, or it reopens the very movie of a live session at the very beginning of it: nothing queued, at frame 0, no entry before the base entry unless the seek was to a negative number; it then changes nothing |
| PlaybackSession.WhatGetInfoBreaks | demo/omnid_drive_handler_movie.c:52-83 | otherwise: the next tick queues frame 0 of the movie asked about; or a live schedule's callback finds no movie; or a movie is open that no schedule plays |
| PlaybackSession.GetInfoRepeatsAFrame | demo/omnid_drive_handler_movie.c:70-83 | an input that fails: start, tick, get-info on the same file, tick; frame 0 is queued twice |
| PlaybackSession.GetInfoMovesTheFragment | demo/omnid_drive_handler_movie.c:70-83 | another: the index begins with an entry of another track, and get-info before the first tick moves the cursor from the base entry back to it |
| DriveMovie.Playback.Start | demo/omnid_drive_handler_movie.c:85-142 | the in-place start handler is `Start`, and returns 0 if and only if no session was live and the file opens |
| DriveMovie.Playback.Stop | demo/omnid_drive_handler_movie.c:144-158 | the in-place stop handler is `Stop` |
| DriveMovie.Playback.Tick | demo/omnid_drive_handler_movie.c:52-68 | the in-place callback is `Tick` with its cancellation, and hands on the packet of the frame under the cursor, or none at the end |

## Left out

- Threads and mutexes: every API call or handler run is one step; arming EPOLLOUT between two statements of the poller is not interleaved.
- Handlers of one epoll batch: `dx_event_mplexer_poll` may run the writable handler of a context its readable handler deleted; here a deleted context runs no handler.
- What user handlers do inside a delivery: their `dx_write` calls are separate steps after it.
- Descriptor numbers that are reused, or set to -1 before deletion (src/dx_net_server.c:161): a context is deleted as itself, and `PacketIo.EventContext` keeps an `alive` flag for its place in the list of `Multiplexer`.
- Unsound streams: a peer length field below 4 or above 2^31 - 1, for which the reading buffer's arithmetic has no meaning.
- The default list finder's narrowing of an address difference to 32 bits: buffers and schedules are compared as objects.
- Passes that never end: a pass is run with a finite list of what its callbacks do, so it ends; in the source, callbacks that each register another schedule already due keep a pass going for ever.
- The scheduler's cleanup after a pass: it works on a temporary list and leaves the schedule list as it is; negative intervals and 64-bit overflow of deadlines.
- The recursive AVI chunk walk, and `strn` track renaming: the model starts from the index entries.
- AviCursor.MovieContext.GetFrameIndex: requires the frame's summed length to stay below 2^31, because the source accumulates it in a signed int.
- MovieFrame.BuildFrame: requires the packet to be shorter than 2^31 bytes, the range of the signed sizes it is built with.
- Packets.NewStream: for a little-endian machine, as `htonll` in include/dx_net.h assumes too.
- FileTransfer.SendFile: requires a file of 1 to 2^31 - 1 bytes and a clamped range of no negative length: with an empty file the unsigned comparison clamps nothing and the reply's content is uninitialised memory, and a negative length is used as a size.
- FileTransfer.ExchangeTiles: for a file that does not change during the exchange.
- PlaybackSession.OneLiveSession: for runs without get-info requests; exactly which of those keep it is `GetInfoKeepsExactlyWhen`.
- Callbacks of schedules other than playback's: in `PlaybackSession` they run but neither register nor cancel.
- SeekEnd overflow: the sum of the total and a large offset wraps to 32 bits here, as SEEK_CUR does.
- Datagram discovery, camera and V4L2 capture, console menus, logging, settings and state tables, file lists and deletion: user interface, foreign calls or easy members.
