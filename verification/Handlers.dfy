/** The packet handlers, each run to completion, as functions on the server's
    state and the list of packets handed to the sender. */
module Handlers {
  import opened Protocol
  import opened Rooms
  import opened Clients
  import opened Payloads

  datatype Sent = Sent(to: int, packet: Packet)

  datatype State = State(clients: ClientMap, nicknames: set<string>, rooms: RoomMap, out: seq<Sent>)

  const INITIAL := State(map[], {}, map[], [])

  // What a handler takes from its environment: random draws and the clock.
  datatype Env = Env(draws: Draws, now: string)

  function Fail(codec: Codec, ptype: uint16, reason: Reason): (packet: Packet) {
    Packet(ptype, codec.reasonText(reason))
  }

  function Failure(codec: Codec, ptype: uint16, what: Bytes): (packet: Packet) {
    Packet(ptype, Clip(codec.reasonText(PARSE_ERROR) + what))
  }

  function Reply(s: State, fd: int, packet: Packet): (s': State) {
    s.(out := s.out + [Sent(fd, packet)])
  }

  function FanOut(members: seq<int>, packet: Packet, exclude: int): (sent: seq<Sent>) {
    if members == [] then []
    else if members[0] == exclude then FanOut(members[1..], packet, exclude)
    else [Sent(members[0], packet)] + FanOut(members[1..], packet, exclude)
  }

  /** The members of a room as getRoom and getClientFds find them. */
  function MembersOf(rooms: RoomMap, code: string): (members: seq<int>) {
    if code in rooms then rooms[code].members else []
  }

  function Broadcast(s: State, packet: Packet, code: string, exclude: int): (s': State) {
    s.(out := s.out + FanOut(MembersOf(s.rooms, code), packet, exclude))
  }

  function DisplayName(nickname: string): (shown: string) {
    if nickname == "" then "Anonymous" else nickname
  }

  function CreateOk(codec: Codec, code: string): (packet: Packet) {
    Packet(ROOM_CREATE_OK, Clip(codec.roomCodeText(code)))
  }

  function JoinOk(codec: Codec, code: string): (packet: Packet) {
    Packet(ROOM_JOIN_OK, Clip(codec.roomCodeText(code)))
  }

  function UserJoin(codec: Codec, fd: int, nickname: string): (packet: Packet) {
    Packet(ROOM_USER_JOIN, Clip(codec.presenceText(fd, DisplayName(nickname))))
  }

  function UserExit(codec: Codec, fd: int, nickname: string): (packet: Packet) {
    Packet(ROOM_USER_EXIT, Clip(codec.presenceText(fd, DisplayName(nickname))))
  }

  /** The table updates of handleCreateRoom: a new room, its creator in it if the
      client exists and the room takes it. */
  function CreateRoom(clients: ClientMap, rooms: RoomMap, fd: int, name: string, maxUsers: int32, draws: Draws)
    : (next: (ClientMap, RoomMap, string))
  {
    var (added, code) := AddRoom(rooms, name, maxUsers, draws);
    if code == "" || fd !in clients then (clients, added, code)
    else
      var (joinedRooms, joined) := JoinRoom(added, fd, code);
      (if joined then SetRoomCode(clients, fd, code) else clients, joinedRooms, code)
  }

  function HandleCreate(codec: Codec, s: State, fd: int, payload: Bytes, draws: Draws): (s': State) {
    match codec.create(payload)
    case CreateMalformed(what) => Reply(s, fd, Failure(codec, ROOM_CREATE_FAIL, what))
    case NoRoomName => Reply(s, fd, Fail(codec, ROOM_CREATE_FAIL, NO_ROOM_NAME))
    case NoMaxUsers => Reply(s, fd, Fail(codec, ROOM_CREATE_FAIL, NO_MAX_USERS))
    case Create(roomName, maxUsers) =>
      var (clients, rooms, code) := CreateRoom(s.clients, s.rooms, fd, roomName, maxUsers, draws);
      if code == "" then
        Reply(s, fd, Fail(codec, ROOM_CREATE_FAIL, NO_ROOM_LEFT))
      else
        Reply(s.(rooms := rooms, clients := clients), fd, CreateOk(codec, code))
  }

  /** handleJoinRoom past its checks. */
  function EnterRoom(codec: Codec, s: State, fd: int, code: string): (end: State)
    requires fd in s.clients
  {
    var (rooms, joined) := JoinRoom(s.rooms, fd, code);
    if !joined then Reply(s, fd, Fail(codec, ROOM_JOIN_FAIL, CANNOT_JOIN))
    else
      var s' := s.(rooms := rooms, clients := SetRoomCode(s.clients, fd, code));
      Reply(Broadcast(s', UserJoin(codec, fd, s.clients[fd].nickname), code, fd), fd, JoinOk(codec, code))
  }

  function HandleJoin(codec: Codec, s: State, fd: int, payload: Bytes): (s': State) {
    match codec.join(payload)
    case JoinMalformed(what) => Reply(s, fd, Failure(codec, ROOM_JOIN_FAIL, what))
    case NoRoomCode => Reply(s, fd, Fail(codec, ROOM_JOIN_FAIL, NO_ROOM_CODE))
    case Join(code) =>
      if fd !in s.clients then Reply(s, fd, Fail(codec, ROOM_JOIN_FAIL, NO_CLIENT))
      else if s.clients[fd].roomCode != "" then
        Reply(s, fd, Fail(codec, ROOM_JOIN_FAIL, ALREADY_IN_A_ROOM))
      else EnterRoom(codec, s, fd, code)
  }

  function HandleExit(codec: Codec, s: State, fd: int): (s': State) {
    if fd !in s.clients then Reply(s, fd, Fail(codec, ROOM_EXIT_FAIL, NO_CLIENT))
    else if s.clients[fd].roomCode == "" then Reply(s, fd, Fail(codec, ROOM_EXIT_FAIL, NOT_IN_A_ROOM))
    else
      var code := s.clients[fd].roomCode;
      var told := Broadcast(s, UserExit(codec, fd, s.clients[fd].nickname), code, fd);
      Reply(told.(rooms := LeaveRoom(s.rooms, fd, code), clients := SetRoomCode(s.clients, fd, "")), fd,
            Packet(ROOM_EXIT_OK, []))
  }

  /** The chat packet a MESSAGE_SEND becomes, if its sender may send, it parses
      and the result fits a payload. */
  function ChatPacket(codec: Codec, clients: ClientMap, fd: int, payload: Bytes, now: string)
    : (chat: Option<Packet>)
  {
    if fd !in clients || !clients[fd].isAuthenticated || clients[fd].roomCode == "" then None
    else
      match codec.message(payload)
      case None => None
      case Some(message) =>
        var text := codec.chatText(Chat(fd, clients[fd].ip, clients[fd].nickname, message, now));
        if |text| > MAX_PAYLOAD_SIZE then None else Some(Packet(MESSAGE_CHAT, text))
  }

  function HandleMessage(codec: Codec, s: State, fd: int, payload: Bytes, now: string): (s': State) {
    match ChatPacket(codec, s.clients, fd, payload, now)
    case None => s
    case Some(packet) => Broadcast(s, packet, s.clients[fd].roomCode, fd)
  }

  function HandleNickname(codec: Codec, s: State, fd: int, payload: Bytes): (s': State) {
    match codec.nickname(payload)
    case NicknameMalformed(what) => Reply(s, fd, Failure(codec, NICKNAME_RESPONSE_FAIL, what))
    case NoNickname => Reply(s, fd, Fail(codec, NICKNAME_RESPONSE_FAIL, NO_NICKNAME))
    case Nickname(nickname) =>
      if nickname in s.nicknames then Reply(s, fd, Fail(codec, NICKNAME_RESPONSE_FAIL, DUPLICATED_NICKNAME))
      else
        var (clients, nicknames) := SetNickname(s.clients, s.nicknames, fd, nickname);
        Reply(s.(clients := clients, nicknames := nicknames), fd, Packet(NICKNAME_RESPONSE_OK, []))
  }

  /** Dispatch by packet type; unknown types are only logged. */
  function HandlePacket(codec: Codec, s: State, fd: int, packet: Packet, env: Env): (s': State) {
    if packet.ptype == NICKNAME_REQUEST then HandleNickname(codec, s, fd, packet.payload)
    else if packet.ptype == MESSAGE_SEND then HandleMessage(codec, s, fd, packet.payload, env.now)
    else if packet.ptype == CREATE_ROOM then HandleCreate(codec, s, fd, packet.payload, env.draws)
    else if packet.ptype == JOIN_ROOM then HandleJoin(codec, s, fd, packet.payload)
    else if packet.ptype == EXIT_ROOM then HandleExit(codec, s, fd)
    else s
  }

  // ----- runs -----

  datatype Event =
    | Accept(fd: int, ip: string)
    | Close(fd: int)
    | Handle(fd: int, packet: Packet, env: Env)

  function Step(codec: Codec, s: State, e: Event): (s': State) {
    match e
    case Accept(fd, ip) => s.(clients := AddClient(s.clients, fd, ip))
    case Close(fd) =>
      var (clients, nicknames) := RemoveClient(s.clients, s.nicknames, fd);
      s.(clients := clients, nicknames := nicknames)
    case Handle(fd, packet, env) => HandlePacket(codec, s, fd, packet, env)
  }

  function Run(codec: Codec, events: seq<Event>): (s': State) {
    if events == [] then INITIAL
    else Step(codec, Run(codec, events[..|events| - 1]), events[|events| - 1])
  }

  /** The kernel hands out a positive descriptor that is not open. Packets of a
      connection that is gone may still be handled. */
  predicate Legal(s: State, e: Event) {
    e.Accept? ==> e.fd > 0 && e.fd !in s.clients
  }

  predicate LegalRun(codec: Codec, events: seq<Event>) {
    events == [] ||
    var before := events[..|events| - 1];
    LegalRun(codec, before) && Legal(Run(codec, before), events[|events| - 1])
  }

  /** No connection closes while in a room; a well-formed CREATE_ROOM comes from
      a connected client outside any room and asks for at least one place. */
  predicate Clean(codec: Codec, s: State, e: Event) {
    && Legal(s, e)
    && (e.Close? ==> RoomOf(s.clients, e.fd) == "")
    && (e.Handle? && e.packet.ptype == CREATE_ROOM && codec.create(e.packet.payload).Create? ==>
          && e.fd in s.clients
          && s.clients[e.fd].roomCode == ""
          && codec.create(e.packet.payload).maxUsers != 0)
  }

  predicate CleanRun(codec: Codec, events: seq<Event>) {
    events == [] ||
    var before := events[..|events| - 1];
    CleanRun(codec, before) && Clean(codec, Run(codec, before), events[|events| - 1])
  }

  lemma {:induction false} CleanIsLegal(codec: Codec, events: seq<Event>)
    requires CleanRun(codec, events)
    ensures LegalRun(codec, events)
  {
    if events != [] {
      CleanIsLegal(codec, events[..|events| - 1]);
    }
  }
}
