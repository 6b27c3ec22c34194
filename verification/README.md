# Socket chat, verified

A model of a C++ chat server and of the parts of its client that speak the same
protocol, with proofs. The server reads length-prefixed packets from many TCP
connections, queues them for a pool of workers, and keeps rooms of clients who
chat with each other. The interesting behaviour is where these parts meet: a
byte stream becomes tasks, tasks become handlers, handlers update two records
of who is in which room, and every client has to make sense of the packets it
is sent.

`dafny verify dfyconfig.toml` checks everything.

## How the model is laid out

Values first. `Protocol` and `Framing` say what bytes mean: frames, the buffered
decoder of the server, the blocking decoder of the client. `Rooms`, `Clients` and
`Payloads` are the tables and the message contents as values; `Handlers` is every
packet handler as one step on a `State`, and `Run` strings steps together. An
event is an accepted connection, a closed one, or a packet handled for a
descriptor; packets of a connection that is already gone may still be handled.

Objects second. The program's classes are classes here, with the same fields
updated in the same order, and each method is proved to be the value-level
operation on the object's abstract value: `Room` and `RoomManager` (module
`RoomManagement`), `ClientInfo`, `ClientManager` and `PacketReceiver` (module
`ClientManagement`), `SafeQueue` and `ThreadPool` (module `TaskQueue`),
`Server` (module `ChatServer`), the send loops, `NetworkClient` (module
`Endpoints`) and `RoomService` (module `RoomServices`).

`Answers` and `Records` say once more, without those functions, what each request by
its number on the wire is answered and what it leaves in the tables, down to the texts.

Runs third. `Membership`, `EmptyRooms`, `Nicknames`, `Outboxes`, `Sessions`, `Chats`
and `Mirror` are about all runs of whole handlers. `Pipeline` starts from bytes: what
arrives, what is queued, who claims it, what is handled; `Server.RunActions` carries
the objects through any such run. `Streams` and `Failures` are about what the send
loops put on the wire and what is read from it. `Interleaving` cuts the handlers at
their lock acquisitions and shows that a handler running alone is the handler of
`Handlers`; `InterleavedRuns`, `InterleavedNames`, `InterleavedCalls`,
`InterleavedSessions` and `InterleavedChats` are about every interleaving, and
`JoinRace`, `ChatRace` and `Overlap` show what some of them do.

### The rooms, recorded twice

Who is in which room is stored in `ClientInfo::roomCode` and in `Room::clients`,
and the handlers update the two separately. They need not agree: closing a
connection does not leave the room (ConnectionManager.cpp, 34-45), and creating a
room does not check that the client is in one already (RoomHandler.cpp, 75-82).
`MembershipsAccounted` settles the matter for every run: each membership is
either live or was left behind by exactly such a step, never both. From it follow
when the records agree, when a room disappears, and how the room sizes add up.

A run is *clean* when no connection closes while its client is in a room, and
every CREATE_ROOM that parses comes from a connected client outside any room and
asks for a number of places other than 0. A negative number is fine here: it is
compared as a `size_t` (Room.cpp, 13), so it means no limit. CREATE_ROOM
requests that do not parse are allowed, since they change nothing.

Under interleaving two things are assumed: one room request in flight per
descriptor, and no disconnection while a handler of the descriptor is in flight. A
third cause of a membership then appears: the handler has joined the room and has
not written the record yet. `MembershipHasOneCause` is the exact statement. The first
assumption is one about the client, which sends a room request and waits for one
packet; as that packet need not be the answer (see below), the client can break it.
`Overlap` shows what then happens: two exits and a join of one client, and a schedule
after which its record names a room that does not list it.

### What turned out to be false, and exactly when

- Delivery in order, after a failed send. The failure leaves the connection open,
  at both ends, so a later send writes a frame behind part of one. For a script of
  kernel results, the wire holds every list of packets in order, and both readers
  read every list in order, if and only if no result in the script makes the send
  loop give up (`InOrderExactlyWithoutFailure`). A particular list still arrives in
  order if nothing is written after its failure (`EndToEnd`). What a reader sees
  otherwise: a payload that broke off is filled with whatever is written next
  (`BrokenPayloadIsFilled`), for instance with the next packet's frame
  (`FailureThenSendMixesFrames`, for two packets of which the first breaks off in
  its payload and the second is long enough to fill it).
- The client takes the next packet for the answer to its request. With whole
  handlers, and whatever chats the client sent before, it is the answer if and only
  if nothing was sent to the client between its last read and the handling of the
  request; from outside a room nothing ever is. After CREATE_ROOM and JOIN_ROOM, from
  anywhere, the client's room code is the server's all the same
  (`EnteringCallAgrees`); after EXIT_ROOM only if the answer was read
  (`ExitCallAgrees`), and otherwise the client keeps a room code the server has
  cleared. `ExitRace` has a concrete run, for any request that creates a room
  with two places and any request to join the room by the code drawn for it.
- Under interleaving this gets worse: a client is listed in the room before its
  answer goes out, so even from outside a join can read something else first
  (`JoinRace` has a run in which another client's exit comes before ROOM_JOIN_OK).
  For every room request, under every interleaving, the packet read is the answer if
  and only if nothing else was sent to the client between the request's beginning
  and its answer. The two room codes agree exactly if the answer was read and was a
  refusal or the server's record moved, or if it was not read and the record did
  not move (`CallReadsItsAnswer`).
- The two decoders agree exactly on the streams whose complete frames hold at most
  1024 bytes of payload (`DecodersAgree`).
- Distinct nicknames, proved for whole handlers (`NamesReserved`), need not survive
  interleaving (`NicknamesCollide`). Along a run they were distinct and reserved if
  and only if no move of it wrote a connected client a name that another had
  (`DistinctExactlyWithoutRobbing`). That can be foreseen: as long as no two handlers
  of different descriptors are about to write the same name, no move does
  (`UncontestedNeverRobs`, `UncontestedNamesAreDistinct`). A contest can end in a
  collision (`ContestedNamesCollide`, `EveryContestCanCollide`) and need not
  (`HarmlessContest`).
- The order of one client's chats, proved for whole handlers (`ChatsInOrder`), is kept
  under interleaving while the client has one chat in flight at a time
  (`ChatsKeepOrder`). Two together can overtake each other, from any run that leaves
  sender and recipient in one room (`ChatsOvertake`).
- Rooms can stand empty. On every run the empty ones are exactly those created with 0
  places or for a client already gone, and not joined since (`EmptyIffVacant`); one
  with 0 places is never removed (`EmptyRoomForGood`).

### What is a parameter

- JSON: a `Codec` says what a payload parses to and which bytes an object becomes.
  Parsing may fail in every way the handlers distinguish; rendering is total. Where
  a proof needs it, `Faithful` assumes that a reply with a room code reads back as
  that code and fits a payload and that a chat reads back with its sender, and
  `Worded` that the error texts are the program's. `ExitRace.PLAIN` meets both at
  once. A chat's `message` may be any JSON value in the program; here it is its
  text.
- Random draws: a function from positions to indices into the character table.
- The clock: text handed to the handler.
- The kernel: a script of results for `send` (some bytes, try again, failure), the
  bytes `recv` brings (at most 4096 for the server), the descriptors `accept`
  returns (positive, not open).
- The byte order of each host: little or big endian.

## Model

| member | source | states |
|---|---|---|
| Protocol.HostsAgree | server/src/network/PacketSender.cpp:13-19 | whatever the byte orders of the two hosts, the sender's memory after htons is the frame, and the receiver's ntohs gives back type and size |
| Framing.CutFrame | server/src/network/PacketReceiver.cpp:50-60 | the packet copied out of the buffer encodes again to exactly the bytes removed from it |
| Framing.ParseThenFrame | server/src/network/PacketReceiver.cpp:37-62 | consumed frames and residue re-encode to the bytes received, and the residue is no complete frame |
| Framing.FramesParse | server/src/network/PacketReceiver.cpp:37-62 | the decoder inverts the encoder on any list of fitting packets, whatever follows them |
| Framing.ParseInTwo | server/src/network/PacketReceiver.cpp:22-26 | parsing what has come and then the residue with the next bytes is parsing everything at once |
| Framing.ChunkingDoesNotMatter | server/src/network/PacketReceiver.cpp:65-72 | any chunks, each appended and parsed at once, give the packets and the residue of one parse of the whole |
| Framing.CutStream | server/src/network/PacketReceiver.cpp:37-62 | a stream cut anywhere gives the first packets sent and leaves a proper prefix of the next frame |
| Framing.SentIsReceived | server/src/network/PacketReceiver.cpp:65-72 | the same for a cut stream that arrives in any chunks |
| Framing.DecodersAgree | client/src/network/NetworkClient.cpp:43-84 | the client's repeated Receive sees a prefix of what the server's parser sees, and all of it exactly when every complete frame respects the payload bound |
| Framing.ClientReadsWhatWasSent | client/src/network/NetworkClient.cpp:65-81 | on a cut stream of fitting frames both decoders return the same first packets and the oversized exit is not taken |
| Rooms.CharAtTable | server/src/domain/room/RoomManager.cpp:8-11 | the character for a draw is the one at its place in the program's table |
| Rooms.SameCodeSameDraws | server/src/domain/room/RoomManager.cpp:20-22 | two times eight draws give the same code exactly if they are the same draws |
| Rooms.CodesAreCodes | server/src/domain/room/RoomManager.cpp:5-25 | every code generated is 8 letters or digits |
| Rooms.AddRoomPicks | server/src/domain/room/RoomManager.cpp:27-51 | addRoom succeeds exactly when fewer than 100 rooms exist and one of the first 100 draws is unused; it then takes the first unused one for one new empty room, and otherwise changes nothing |
| Rooms.FreshDrawMakesRoom | server/src/domain/room/RoomManager.cpp:32-45 | with a place, and eight of the first hundred times eight draws different from all draws that gave rooms their codes, a room is made |
| Rooms.AddRoomKeeps | server/src/domain/room/RoomManager.cpp:27-51 | at most 100 rooms, each well formed under its own key; nobody's membership changes |
| Rooms.JoinRoomKeeps | server/src/domain/room/RoomManager.cpp:61-74 | succeeds exactly for an existing room with a place that does not list the descriptor, adds that one membership, keeps every limit |
| Rooms.LeaveRoomKeeps | server/src/domain/room/RoomManager.cpp:76-94 | removes that one membership and the room exactly when nobody else is listed, keeps every limit |
| Rooms.NegativeIsNoLimit | server/src/domain/room/Room.cpp:11-13 | a negative number of places, compared as unsigned, turns nobody away |
| Rooms.WithoutKeeps | server/src/domain/room/Room.cpp:25-31 | erasing the first occurrence from a list without duplicates removes that element and no other |
| Rooms.RoomAnswers | server/src/domain/room/Room.cpp:10-23 | full first, then listed already, else taken in behind the others; a negative number of places counts as its unsigned value |
| RoomManagement.Find | server/src/domain/room/Room.cpp:16 | the position found is the first occurrence, the end exactly when there is none |
| RoomManagement.Room.AcceptNewUser | server/src/domain/room/Room.cpp:10-23 | the object's update and result are those of the value operation, the size compared as an unsigned number |
| RoomManagement.Room.LeaveUser | server/src/domain/room/Room.cpp:25-31 | find and erase remove the first occurrence and nothing else |
| RoomManagement.RoomManager.GenerateRoomCode | server/src/domain/room/RoomManager.cpp:5-25 | the loop concatenates the next eight draws |
| RoomManagement.RoomManager.DrawUnusedCode | server/src/domain/room/RoomManager.cpp:34-45 | the retry loop ends at the first of the first 100 draws that is unused, or gives up |
| RoomManagement.RoomManager.AddRoom | server/src/domain/room/RoomManager.cpp:27-51 | the object's table and result after addRoom are those of the value operation that AddRoomPicks characterises |
| RoomManagement.RoomManager.JoinRoom | server/src/domain/room/RoomManager.cpp:61-74 | the object's table and result are those of the value operation; the set of rooms stays |
| RoomManagement.RoomManager.LeaveRoom | server/src/domain/room/RoomManager.cpp:76-94 | the object's table is that of the value operation, deletion of the emptied room included |
| ClientManagement.ClientManager.AddClient | server/src/domain/client/ClientManager.cpp:3-7 | one new unnamed client outside any room with an empty buffer; the others stay |
| ClientManagement.ClientManager.RemoveClient | server/src/domain/client/ClientManager.cpp:9-19 | the client goes, its name is released exactly if it was authenticated, the others stay |
| ClientManagement.ClientManager.SetNickname | server/src/domain/client/ClientManager.cpp:48-58 | names and authenticates one existing client and reserves the name; an old name stays reserved |
| ClientManagement.ClientManager.GetAllAuthenticatedClientFds | server/src/domain/client/ClientManager.cpp:30-40 | the loop collects every authenticated descriptor but the excluded one, each once |
| ClientManagement.PacketReceiver.Receive | server/src/network/PacketReceiver.cpp:9-27 | the bytes join that client's buffer and nothing else changes; false for an unknown client or no bytes |
| ClientManagement.PacketReceiver.ParseBuffer | server/src/network/PacketReceiver.cpp:37-62 | the loop calls back the frames at the front of the buffer in order, leaves the residue, and terminates |
| ClientManagement.PacketReceiver.ParsePackets | server/src/network/PacketReceiver.cpp:29-63 | the same on the client's own buffer, every other buffer and every record unchanged |
| ClientManagement.PacketReceiver.ReceiveAndParse | server/src/network/PacketReceiver.cpp:65-72 | one call is one chunk of Feed, and fails exactly for an unknown client or no bytes |
| Membership.HandlerMoves | server/src/domain/handler/RoomHandler.cpp:26-282 | a handler moves at most its own client: stay, enter one room, or leave the recorded one; it leaves exactly on EXIT_ROOM from inside |
| Membership.MembershipsAccounted | server/src/domain/handler/RoomHandler.cpp:75-82 | on every run each membership is live or left behind by a close in a room or a create in a room, never both, and nothing else is |
| Membership.LeftBehindForGood | server/src/network/ConnectionManager.cpp:34-45 | a membership left behind stays in its room for ever, and so does the room |
| Membership.RecordsAgree | server/src/domain/handler/RoomHandler.cpp:26-282 | on clean runs a descriptor is listed in a room exactly when its client's record names that room |
| Membership.AgreeIffNothingLeft | server/src/domain/handler/RoomHandler.cpp:75-82 | on every run the records agree exactly as long as nothing was left behind |
| Membership.RoomLimits | server/src/domain/room/Room.cpp:10-31 | in every reachable state at most 100 rooms, each under its own 8-character code, no member twice, no more members than a non-negative limit |
| Membership.SizesAddUp | server/src/domain/room/RoomManager.cpp:61-94 | the room sizes add up to the clients in a room plus what was left behind |
| Membership.RoomGoes | server/src/domain/room/RoomManager.cpp:87-93 | a room disappears exactly when its only listed member exits |
| Membership.NoEmptyRooms | server/src/domain/room/RoomManager.cpp:76-94 | on clean runs no room is empty between handlers, so there are no more rooms than clients in one |
| Membership.EmptyRoomForGood | server/src/domain/handler/RoomHandler.cpp:61-84 | a room created with 0 places stays empty and is never removed |
| EmptyRooms.EmptyIffVacant | server/src/domain/handler/RoomHandler.cpp:75-82 | on every run the empty rooms are exactly those created with 0 places or for a client gone, and not joined since |
| EmptyRooms.OccupiedIffNoneVacant | server/src/domain/room/RoomManager.cpp:61-94 | so no room stands empty exactly as long as each of those was joined |
| Nicknames.NamesReserved | server/src/domain/handler/NicknameHandler.cpp:31-45 | on every run authenticated clients have distinct names, all reserved; the reserved names are exactly those and the names given up by renaming |
| Nicknames.RetiredForGood | server/src/domain/client/ClientManager.cpp:48-58 | a name given up by renaming is refused to everybody from then on |
| Records.AcceptRecords | server/src/domain/client/ClientManager.cpp:3-7 | an accepted connection is recorded under its address, without name, authentication or room; nothing else changes |
| Records.CloseRecords | server/src/domain/client/ClientManager.cpp:9-19 | a closed one is gone, with its name if it was authenticated; nothing else changes |
| Records.AddressesRecorded | server/src/network/ConnectionManager.cpp:30 | on every run the connected clients are those accepted and not closed since, each under the address of its last accept |
| Records.NicknameRecords | server/src/domain/handler/NicknameHandler.cpp:29-45 | a request for a free name gives a connected client exactly that name, reserves it and changes nothing else; any other changes no record |
| Records.RoomsAreAsAsked | server/src/domain/handler/RoomHandler.cpp:58-62 | on every run each room has the name and places some handled CREATE_ROOM asked for, under a code spelt from that handler's draws |
| Outboxes.FanOutReaches | server/src/application/Server.cpp:111-115 | the loop sends each member but the excluded one exactly one copy, and nobody else any |
| Outboxes.CreateSends | server/src/domain/handler/RoomHandler.cpp:26-107 | one reply to the requester and nothing else: OK with the code of the new room exactly if one is made, and it is the room on the client's record if the client is there and the room has a place; FAIL otherwise, the record unchanged |
| Outboxes.JoinSends | server/src/domain/handler/RoomHandler.cpp:109-209 | one reply, OK exactly for a client outside and an existing room that has a place and does not list it; then, and only then, one ROOM_USER_JOIN with the client's descriptor and shown name to everybody else in the room |
| Outboxes.ExitSends | server/src/domain/handler/RoomHandler.cpp:211-282 | one reply; from inside, one ROOM_USER_EXIT with the client's descriptor and shown name to everybody else in the room and EXIT_OK, from outside EXIT_FAIL alone |
| Outboxes.MessageSends | server/src/domain/handler/MessageHandler.cpp:8-67 | no reply; one chat to everybody else in the sender's room exactly when the message may be sent, parses and fits |
| Outboxes.NicknameSends | server/src/domain/handler/NicknameHandler.cpp:8-57 | exactly one reply to the requester, OK exactly if the request parses and the name is not reserved |
| Answers.CreateMalformedTold | server/src/domain/handler/RoomHandler.cpp:36-56 | a CREATE_ROOM that does not parse or lacks a field is told so in the program's words; nothing else happens |
| Answers.CreateRefusedTold | server/src/domain/handler/RoomHandler.cpp:65-73 | without a place or a free code it is told that no room is left; nothing else happens |
| Answers.CreateGranted | server/src/domain/handler/RoomHandler.cpp:61-95 | otherwise the room comes up as asked under the first free code, its creator in it if connected and there is a place, and the code is the answer |
| Answers.JoinMalformedTold | server/src/domain/handler/RoomHandler.cpp:115-128 | a JOIN_ROOM that does not parse or lacks the code is told so; nothing else happens |
| Answers.JoinRefusedToClient | server/src/domain/handler/RoomHandler.cpp:132-153 | a client that is gone, or in a room, is told which of the two; nothing else happens |
| Answers.JoinRefusedByRoom | server/src/domain/handler/RoomHandler.cpp:156-166 | a room that is missing, full or lists the client already is told as not found or full; nothing else happens |
| Answers.JoinGranted | server/src/domain/handler/RoomHandler.cpp:168-197 | otherwise the client is added behind the members, its record names the room, it is sent the code and each member its descriptor and shown name |
| Answers.ExitRefusedTold | server/src/domain/handler/RoomHandler.cpp:217-238 | an exit of a client gone or in no room is told which; nothing else happens |
| Answers.ExitGranted | server/src/domain/handler/RoomHandler.cpp:240-270 | otherwise the room lists the client no more, its record is cleared, it is sent EXIT_OK and each other member its descriptor and shown name |
| Answers.NicknameTold | server/src/domain/handler/NicknameHandler.cpp:18-56 | what a name request is told, by cause, in the program's words |
| Answers.OthersIgnored | server/src/domain/handler/PacketHandler.cpp:22-34 | a packet of a type without a handler changes nothing and sends nothing |
| Sessions.LogsAreSessions | server/src/domain/handler/RoomHandler.cpp:84-106 | on clean runs a reader of a client's whole log knows the room the server has on record for it |
| Sessions.SessionGrammar | server/src/domain/handler/RoomHandler.cpp:170-208 | on clean runs chats and presence come only between an entry and the next EXIT_OK, and entries and EXIT_OKs alternate |
| Sessions.EverythingFits | server/src/domain/handler/MessageHandler.cpp:43-57 | on every run every packet handed to the sender, error replies included, fits a payload |
| Sessions.ClientNeverOversized | client/src/network/NetworkClient.cpp:65-73 | a client reading the server's output to it, cut anywhere, reads the packets sent and never takes the oversized exit |
| Chats.MessageReaches | server/src/domain/handler/MessageHandler.cpp:8-67 | a handled MESSAGE_SEND adds to every other listed member's outbox one packet with the sender's descriptor, address, name, message and time, exactly if the sender is connected, authenticated and in a room, the payload parses and the text is at most 1024 bytes; otherwise nothing changes |
| Chats.ChatsInOrder | server/src/domain/handler/MessageHandler.cpp:8-67 | on clean runs the chats a recipient gets from a sender are, in order, exactly those for the sender's requests that could be sent while both were in the same room |
| Chats.ChatShowsAddress | server/src/domain/handler/MessageHandler.cpp:26-37 | on every run a chat due shows the address of the sender's last accept |
| Chats.BroadcastReaches | server/src/application/Server.cpp:105-116 | on every run a room broadcast reaches every other descriptor recorded or left behind in the room exactly once, and nobody else |
| Chats.BroadcastReachesTheRoom | server/src/application/Server.cpp:105-116 | on clean runs that is exactly the other clients whose record names the room |
| Mirror.CallShape | client/src/core/RoomService.cpp:16-30 | between a client's request and its next read, its own chats included, its log grows by room traffic, the reply, and room traffic, and the reply follows the server's record |
| Mirror.EnteringCallAgrees | client/src/core/RoomService.cpp:8-113 | creating or joining, from anywhere: the two room codes agree afterwards; the packet read is the reply if and only if nothing reached the client before, which from outside is always so |
| Mirror.ExitCallAgrees | client/src/core/RoomService.cpp:129-162 | the packet read is the answer, and the two room codes agree, if and only if nothing reached the client before its exit was handled |
| ExitRace.ExitReadsArrival | client/src/core/RoomService.cpp:137-162 | for any create request with two places and any join request for its code, a clean run in which an exit reads the other client's arrival, fails, and leaves the client with a room code the server has cleared |
| ExitRace.DisturbedExit | client/src/core/RoomService.cpp:137-162 | that happens whenever anything reaches the client between its last read and its exit |
| ExitRace.PlainIsFaithful | server/src/domain/handler/RoomHandler.cpp:89-91 | one codec meets all the assumptions about JSON and error texts together |
| ExitRace.PlainSuits | server/src/domain/handler/RoomHandler.cpp:89-91 | with it, any create payload that is not empty and the drawn code written out are such requests |
| Endpoints.TransmitOutcome | server/src/network/PacketSender.cpp:22-36 | a send loop succeeds exactly when every byte went out, which only a fatal kernel result prevents |
| Endpoints.SendPacket | server/src/network/PacketSender.cpp:11-37 | at every moment the wire holds a prefix of the frame, the whole frame exactly on success; terminates on any finite number of retries |
| Endpoints.NetworkClient.Send | client/src/network/NetworkClient.cpp:86-122 | refuses without a connection or for a large payload, otherwise the wire always holds a prefix of the frame, all of it exactly on success |
| Endpoints.NetworkClient.Receive | client/src/network/NetworkClient.cpp:43-84 | one whole frame off the stream, or the connection is closed: on a short header, a short payload, an oversized one; nothing on a connection closed before |
| Streams.EndToEnd | server/src/network/PacketReceiver.cpp:9-63 | from a sender's loop to the callbacks: any short writes, any cut, any chunks give the first packets sent and leave a proper prefix of the next frame, as long as nothing is written after a failure |
| Failures.InOrderExactlyWithoutFailure | client/src/network/NetworkClient.cpp:109-119 | for a script of kernel results: every list is on the wire in order, and read in order by both readers, if and only if no result makes the loop give up |
| Streams.SendAll | client/src/network/NetworkClient.cpp:86-122 | a loop of Send leaves on the wire exactly what SendEvery says, refusals and failures included |
| Streams.SendAllPackets | server/src/network/PacketSender.cpp:11-37 | likewise for the server's sender, which retries |
| Streams.PartialWritesSendEverything | client/src/network/NetworkClient.cpp:109-119 | without a fatal result the wire holds exactly the frames of the packets not refused |
| Streams.ServerToClient | server/src/network/PacketSender.cpp:11-37 | on every run, whatever the kernel does to the server's writes, the client reads the first of the packets the handlers sent it |
| Streams.BrokenPayloadIsFilled | client/src/network/NetworkClient.cpp:113-117 | a payload that breaks off is read with its first bytes and then the first of whatever is written next |
| Streams.FailureThenSendMixesFrames | client/src/network/NetworkClient.cpp:113-117 | so it goes with the next frame, for any packet that breaks off in its payload and any next packet long enough to fill it |
| RoomServices.RoomService.CreateRoom | client/src/core/RoomService.cpp:8-60 | a packet of type 301 with the request text goes out as far as the kernel takes it; what the client's room code is and what is returned, for every answer or none |
| RoomServices.RoomService.JoinRoom | client/src/core/RoomService.cpp:62-113 | likewise with type 303 for joining |
| RoomServices.RoomService.ExitRoom | client/src/core/RoomService.cpp:115-163 | likewise with type 302 and no payload for leaving; without a room nothing is sent |
| RoomServices.JoinBytesJoin | client/src/network/PacketHandler.cpp:89-101 | the bytes of a join request, parsed and handled by the server, bring a client outside into a room with a place |
| RoomServices.CreateBytesCreate | client/src/network/PacketHandler.cpp:74-87 | those of a create request bring up the room asked for, with the client in it |
| RoomServices.ExitBytesExit | client/src/network/PacketHandler.cpp:103-110 | those of an exit request take the client out |
| RoomServices.EnteringKeepsMirror | client/src/core/RoomService.cpp:8-113 | from the bytes: after CreateRoom or JoinRoom, from anywhere, the client's code is the server's |
| RoomServices.ExitKeepsMirror | client/src/core/RoomService.cpp:129-162 | from the bytes: after ExitRoom it is, if and only if nothing reached the client before |
| TaskQueue.SafeQueue.Push | server/include/containers/SafeQueue.h:11-16 | appends, with everything pushed always equal to everything popped and then the queue |
| TaskQueue.SafeQueue.WaitAndPop | server/include/containers/SafeQueue.h:18-26 | takes the front of a queue that is not empty, with the same law |
| TaskQueue.ThreadPool.WorkerThread | server/src/concurrency/ThreadPool.cpp:26-36 | one worker alone runs a prefix of the queue, none after it is told to stop, and stops only then or at an empty queue |
| TaskQueue.ClaimedThenWaiting | server/include/containers/SafeQueue.h:11-26 | with any producers and workers in any order, what was pushed is what was claimed and then what waits |
| TaskQueue.ClaimsInOrder | server/src/concurrency/ThreadPool.cpp:26-36 | the i-th claim is of the i-th push, so each task has one worker and those of a connection are claimed in its order |
| ChatServer.Server.SendToEach | server/src/application/Server.cpp:112-115 | the loop hands the sender exactly the fan-out, in member order |
| ChatServer.Server.BroadcastPacketForRoom | server/src/application/Server.cpp:105-116 | the object's state after it is that of the value operation; nothing for a room that is gone |
| ChatServer.Server.HandleCreateRoom | server/src/domain/handler/RoomHandler.cpp:26-107 | every path through the objects, early returns included, is the handler on values |
| ChatServer.Server.HandleJoinRoom | server/src/domain/handler/RoomHandler.cpp:109-209 | likewise for joining |
| ChatServer.Server.HandleExitRoom | server/src/domain/handler/RoomHandler.cpp:211-282 | likewise for leaving |
| ChatServer.Server.HandleChat | server/src/domain/handler/MessageHandler.cpp:8-67 | likewise for chats |
| ChatServer.Server.HandleNicknameRequest | server/src/domain/handler/NicknameHandler.cpp:8-57 | likewise for names |
| ChatServer.Server.Handle | server/src/domain/handler/PacketHandler.cpp:22-34 | dispatch by type; an unknown type changes nothing |
| ChatServer.Server.AcceptNewConnection | server/src/network/ConnectionManager.cpp:11-32 | a valid connection that can be watched becomes a client with an empty buffer; otherwise nothing changes |
| ChatServer.Server.CloseConnection | server/src/network/ConnectionManager.cpp:34-45 | the client, its name and its buffer go; its room is not left |
| ChatServer.Server.HandleEvent | server/src/application/Server.cpp:73-93 | the complete frames that arrived are queued in order, or the connection is closed |
| ChatServer.Server.RunTask | server/src/concurrency/ThreadPool.cpp:26-36 | a worker's turn takes the front of the queue and runs its handler; the buffers stay |
| ChatServer.Serve | server/src/application/Server.cpp:5-17 | a new server carried through any actions stands where the run on values ends |
| ChatServer.Server.RunActions | server/src/application/Server.cpp:73-93 | from construction on, through any accepts, arrivals and worker turns, the objects stand where the run on values ends |
| Pipeline.BuffersAreClients | server/src/application/Server.cpp:73-93 | on every run the receive buffers are those of the clients the handlers know |
| Pipeline.QueuedInStreamOrder | server/src/application/Server.cpp:82-88 | for each descriptor the queue was pushed exactly the frames of its streams, in order, and its buffer is the residue of the current one |
| Pipeline.HandledInStreamOrder | server/src/concurrency/ThreadPool.cpp:26-36 | what was handled for a descriptor, then what waits, is what its streams brought |
| Pipeline.HandledWasSent | server/src/network/PacketReceiver.cpp:65-72 | the packets handled for a descriptor are what its earlier connections brought and then the first the present client sent |
| Pipeline.ChatsEndToEnd | server/src/domain/handler/MessageHandler.cpp:10-57 | on a clean run the chats a recipient gets carry, one by one and in order, requests that came in on the sender's descriptor, exactly those due |
| Interleaving.AloneIsAtomic | server/src/domain/handler/RoomHandler.cpp:62-81 | the steps of a handler run back to back are the whole handler, for every packet and state |
| Interleaving.StepsEnd | server/src/domain/handler/RoomHandler.cpp:259-281 | every handler ends after finitely many steps |
| InterleavedRuns.RecordNamesItsRoom | server/src/domain/handler/RoomHandler.cpp:145-168 | under any interleaving a client whose record names a room, and whose exit is not between leaving and clearing, is listed in that room |
| InterleavedRuns.MembershipHasOneCause | server/src/domain/handler/RoomHandler.cpp:230-265 | under any interleaving each membership is recorded, about to be recorded, or left behind, exactly one of them, and each of them is a membership |
| InterleavedRuns.LimitsUnderInterleaving | server/src/domain/room/Room.cpp:10-31 | under any interleaving at most 100 rooms, each within its limits |
| InterleavedRuns.QuietIsAccounted | server/src/domain/handler/RoomHandler.cpp:211-282 | whenever no room request is in flight the account of the atomic runs holds |
| InterleavedNames.UncontestedNamesAreDistinct | server/src/domain/handler/NicknameHandler.cpp:32-41 | under any interleaving, as long as no two descriptors were about to write one name, authenticated names are distinct and reserved |
| InterleavedNames.UndoubledNamesAreFree | server/src/domain/handler/NicknameHandler.cpp:32-41 | as long as no two handlers were, every name about to be written is free and nobody's |
| InterleavedNames.ContestedNamesCollide | server/src/domain/client/ClientManager.cpp:48-58 | from any run in which two connected clients are about to be given one name, two moves give it to both |
| InterleavedNames.DistinctExactlyWithoutRobbing | server/src/domain/handler/NicknameHandler.cpp:32-41 | along any interleaved run names were distinct and reserved if and only if no move wrote a connected client a name another had |
| InterleavedNames.UncontestedNeverRobs | server/src/domain/handler/NicknameHandler.cpp:32-41 | no move does as long as no name is contested |
| InterleavedNames.HarmlessContest | server/src/domain/client/ClientManager.cpp:48-58 | a contested name can be written by both handlers with nobody robbed, one connection being gone |
| InterleavedNames.NicknamesCollide | server/src/domain/handler/NicknameHandler.cpp:32-41 | for any request for a free name, a run that gives the name to two clients |
| InterleavedCalls.CallReadsItsAnswer | client/src/core/RoomService.cpp:70-162 | under any interleaving the packet read is the answer if and only if nothing else was sent to the client since the request began, and the room codes agree afterwards exactly if either it was read and the request was refused or moved the record, or it was not and the record did not move |
| InterleavedCalls.OtherMoves | server/src/application/Server.cpp:111-115 | whatever other handlers do meanwhile leaves the request and its client's record alone, and nothing they send is an answer to a room request |
| InterleavedSessions.EntriesAndExitsInTurn | server/src/domain/handler/RoomHandler.cpp:84-106 | on clean interleaved runs each client's entries and EXIT_OKs alternate and, with no request of it in flight, lead to the room on its record |
| InterleavedSessions.NeverOversizedInterleaved | server/src/domain/handler/MessageHandler.cpp:43-57 | under any interleaving every packet sent fits, and a client reading the output meets no oversized one |
| InterleavedChats.ChatsKeepOrder | server/src/domain/handler/MessageHandler.cpp:8-67 | under any interleaving, with one chat of the sender in flight at a time, a recipient's chats from it carry requests begun, in order, none invented or repeated |
| InterleavedChats.ChatChecked | server/src/domain/handler/MessageHandler.cpp:10-53 | the check of a chat as a step of its own: which it lets through, with the record of that moment |
| ChatRace.ChatsOvertake | server/src/domain/handler/MessageHandler.cpp:8-67 | from any run that leaves both in one room, two chats in flight together can arrive in the other order |
| Overlap.TwoExitsAndAJoin | server/src/domain/handler/RoomHandler.cpp:158-265 | from any state in which a client is in a room with another, two exits and a join of it in flight together can end with its record naming a room that does not list it |
| JoinRace.WholeRequest | server/src/domain/handler/RoomHandler.cpp:7-24 | from any interleaved run a room request can be handled as a whole, with the atomic handler's effect |
| JoinRace.JoinReadsExit | server/src/domain/handler/RoomHandler.cpp:156-208 | a run in which a client joining from outside is sent another client's exit before its ROOM_JOIN_OK and stays without a room code |

## Left out

- Sockets, epoll, fcntl, listen and accept themselves: they are the scripts and parameters listed above.
- JSON parsing and dumping: a parameter. An exception from dumping, or the type error that a response without a string code would raise in the client, is not modelled.
- The random generator: its draws are a parameter.
- Logging, environment loading, time formatting, console UI, lobby, message display: no property here depends on them.
- `removeRoom`, `removeNickname`, `broadcastPacket`: nothing calls the first two, and the last would add an easy fan-out.
- Pool shutdown: the wait looks only at the queue, so nothing is claimed about the destructor. A worker at an empty queue goes on waiting.
- Memory races: a `ClientInfo*` or `Room*` used after its removal, the unlocked copy of a room's members, two workers writing one socket at once. Taking the members and sending one packet are single steps.
- Two client threads reading one socket: `RoomService` is the only reader in `Mirror` and `RoomServices`.
- `handleExitRoom`'s catch clause: nothing between its braces throws once rendering is total.
- ClientManagement.PacketReceiver.ParseBuffer: asks that no complete frame in the buffer is larger than the payload array; the program copies such a frame without a check.
- ClientManagement.PacketReceiver.ParsePackets: likewise.
- ClientManagement.PacketReceiver.ReceiveAndParse: likewise, of the buffer with the arriving bytes.
- ChatServer.Server.HandleEvent: likewise; and it queues the frames after the parse instead of during it, which is the same order since one thread does both.
- ChatServer.Serve: likewise, of every action.
- ChatServer.Server.RunActions: likewise, of every action; handlers run to completion between two actions.
- RoomServices.RoomService.CreateRoom: asks that the request fits the payload array, which the packet builders do not check. The check for a null network client is not modelled.
- RoomServices.RoomService.JoinRoom: likewise.
- RoomServices.JoinBytesJoin: for a request the server's reader reads back as the client wrote it; both JSON libraries are parameters.
- RoomServices.CreateBytesCreate: likewise, with at least one place, since a room with 0 places does not admit its creator.
- TaskQueue.ThreadPool.WorkerThread: one worker alone; what several workers and producers do together is `ClaimsInOrder`.
- InterleavedRuns.RecordNamesItsRoom: assumes one room request in flight per descriptor; `Overlap` shows what happens without.
- InterleavedRuns.MembershipHasOneCause: likewise.
- InterleavedRuns.LimitsUnderInterleaving: likewise.
- InterleavedRuns.QuietIsAccounted: likewise.
- InterleavedCalls.CallReadsItsAnswer: likewise.
- Streams.EndToEnd: asks that nothing is written after a failed send; `InOrderExactlyWithoutFailure` says what is lost without that.
- Streams.ServerToClient: likewise.
- Streams.FailureThenSendMixesFrames: two packets; `BrokenPayloadIsFilled` is the general form, `InOrderExactlyWithoutFailure` the exact one.
- Mirror.CallShape: between its last read and its request the client may have sent chats, and no other request, as each of the others waits for its answer.
- Mirror.ExitCallAgrees: from inside a room by the client's own account, since `ExitRoom` sends nothing otherwise.
- Pipeline.ChatsEndToEnd: handlers run to completion in queue order; under interleaving the chats are followed from the beginning of their handlers, not from the bytes.
- InterleavedChats.ChatsKeepOrder: says that chats are not invented, repeated or reordered, and not which of them are due, since membership can change between a chat's check and its sending.
- InterleavedSessions.EntriesAndExitsInTurn: clean means, besides what it means for whole handlers, that nobody takes the places of a new room before its creator joins it.
- Nicknames.NamesReserved: for whole handlers; `InterleavedNames` is about interleaving.
