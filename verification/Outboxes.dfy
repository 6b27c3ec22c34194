/** What each step hands to the sender, seen from every recipient. */
module Outboxes {
  import opened Protocol
  import opened Rooms
  import opened Clients
  import opened Payloads
  import opened Handlers
  import opened Membership

  /** The packets sent to one descriptor, in order. */
  function Outbox(out: seq<Sent>, fd: int): (packets: seq<Packet>) {
    if out == [] then []
    else
      var last := out[|out| - 1];
      Outbox(out[..|out| - 1], fd) + if last.to == fd then [last.packet] else []
  }

  lemma OutboxOne(out: seq<Sent>, to: int, packet: Packet, fd: int)
    ensures Outbox(out + [Sent(to, packet)], fd) == Outbox(out, fd) + if to == fd then [packet] else []
  {
    assert (out + [Sent(to, packet)])[..|out|] == out;
  }

  lemma {:induction false} OutboxConcat(a: seq<Sent>, b: seq<Sent>, fd: int)
    ensures Outbox(a + b, fd) == Outbox(a, fd) + Outbox(b, fd)
  {
    if b == [] {
      assert a + b == a;
    } else {
      var n := |b| - 1;
      assert a + b == (a + b[..n]) + [b[n]];
      OutboxOne(a + b[..n], b[n].to, b[n].packet, fd);
      OutboxConcat(a, b[..n], fd);
    }
  }

  lemma OutboxSingle(to: int, packet: Packet, fd: int)
    ensures Outbox([Sent(to, packet)], fd) == if to == fd then [packet] else []
  {
    OutboxOne([], to, packet, fd);
    assert [] + [Sent(to, packet)] == [Sent(to, packet)];
  }

  /** Each member but the excluded one gets the packet once, nobody else any. */
  lemma {:induction false} FanOutReaches(members: seq<int>, packet: Packet, exclude: int, fd: int)
    requires NoDuplicates(members)
    ensures Outbox(FanOut(members, packet, exclude), fd)
         == if fd in members && fd != exclude then [packet] else []
  {
    if members != [] {
      var x, rest := members[0], members[1..];
      assert members == [x] + rest;
      FanOutReaches(rest, packet, exclude, fd);
      if x != exclude {
        OutboxSingle(x, packet, fd);
        OutboxConcat([Sent(x, packet)], FanOut(rest, packet, exclude), fd);
      }
    }
  }

  // ----- the sends of a step -----

  predicate IsEntry(p: Packet) {
    p.ptype == ROOM_CREATE_OK || p.ptype == ROOM_JOIN_OK
  }

  predicate IsLeave(p: Packet) {
    p.ptype == ROOM_EXIT_OK
  }

  /** What reaches a client only through a room. */
  predicate IsTraffic(p: Packet) {
    p.ptype == MESSAGE_CHAT || p.ptype == ROOM_USER_JOIN || p.ptype == ROOM_USER_EXIT
  }

  /** A broadcast to the others listed in a room, if any, then a reply, if any. */
  datatype Sends = Sends(cast: Option<Packet>, code: string, members: seq<int>, reply: Option<Packet>)

  function Cast(d: Sends, fd: int): (sent: seq<Sent>) {
    if d.cast.Some? then FanOut(d.members, d.cast.value, fd) else []
  }

  function Answer(d: Sends, fd: int): (sent: seq<Sent>) {
    if d.reply.Some? then [Sent(fd, d.reply.value)] else []
  }

  /** The recipients are the others listed in the room before the step. */
  ghost predicate ToTheOthers(rooms: RoomMap, fd: int, d: Sends) {
    d.cast.Some? ==>
      && IsTraffic(d.cast.value)
      && NoDuplicates(d.members)
      && d.code != ""
      && forall x :: x != fd ==> (x in d.members <==> In(rooms, x, d.code))
  }

  ghost predicate Emits(s: State, s': State, fd: int, d: Sends) {
    && s'.out == s.out + Cast(d, fd) + Answer(d, fd)
    && ToTheOthers(s.rooms, fd, d)
  }

  /** What one descriptor gets of it. */
  function Delivered(rooms: RoomMap, fd: int, d: Sends, x: int): (packets: seq<Packet>) {
    if x == fd then if d.reply.Some? then [d.reply.value] else []
    else if d.cast.Some? && In(rooms, x, d.code) then [d.cast.value]
    else []
  }

  lemma CastReaches(rooms: RoomMap, fd: int, d: Sends, x: int)
    requires ToTheOthers(rooms, fd, d)
    ensures Outbox(Cast(d, fd), x) == if x != fd then Delivered(rooms, fd, d, x) else []
  {
    if d.cast.Some? {
      FanOutReaches(d.members, d.cast.value, fd, x);
    }
  }

  lemma AnswerReaches(rooms: RoomMap, fd: int, d: Sends, x: int)
    ensures Outbox(Answer(d, fd), x) == if x == fd then Delivered(rooms, fd, d, x) else []
  {
    if d.reply.Some? {
      OutboxSingle(fd, d.reply.value, x);
    }
  }

  lemma OutboxAfter(s: State, s': State, fd: int, d: Sends, x: int)
    requires Emits(s, s', fd, d)
    ensures Outbox(s'.out, x) == Outbox(s.out, x) + Delivered(s.rooms, fd, d, x)
  {
    OutboxConcat(s.out + Cast(d, fd), Answer(d, fd), x);
    OutboxConcat(s.out, Cast(d, fd), x);
    CastReaches(s.rooms, fd, d, x);
    AnswerReaches(s.rooms, fd, d, x);
  }

  lemma JustReplies(s: State, s0: State, fd: int, packet: Packet) returns (d: Sends)
    requires s0.out == s.out
    ensures Emits(s, Reply(s0, fd, packet), fd, d)
    ensures d == Sends(None, "", [], Some(packet))
  {
    d := Sends(None, "", [], Some(packet));
    assert s.out + [] == s.out;
  }

  /** The room a CREATE_ROOM makes, by the code drawn for it; "" if it makes none. */
  function NewRoomFor(codec: Codec, rooms: RoomMap, payload: Bytes, draws: Draws): (code: string) {
    match codec.create(payload)
    case Create(name, maxUsers) => AddRoom(rooms, name, maxUsers, draws).1
    case _ => ""
  }

  /** A JOIN_ROOM is granted to a client outside any room, for a room with a place. */
  predicate CanJoin(codec: Codec, s: State, fd: int, payload: Bytes) {
    var request := codec.join(payload);
    request.Join? && fd in s.clients && s.clients[fd].roomCode == "" && request.roomCode in s.rooms &&
    var room := s.rooms[request.roomCode];
    fd !in room.members && |room.members| < AsSize(room.maxUsers)
  }

  lemma CreateSends(codec: Codec, s: State, fd: int, payload: Bytes, draws: Draws) returns (d: Sends)
    requires RoomsOk(s.rooms)
    ensures var s' := HandleCreate(codec, s, fd, payload, draws);
            && Emits(s, s', fd, d) && d.cast == None && d.reply.Some?
            && (d.reply.value.ptype == ROOM_CREATE_OK || d.reply.value.ptype == ROOM_CREATE_FAIL)
            && (d.reply.value.ptype == ROOM_CREATE_FAIL ==> RoomOf(s'.clients, fd) == RoomOf(s.clients, fd))
            && (d.reply.value.ptype == ROOM_CREATE_OK <==> NewRoomFor(codec, s.rooms, payload, draws) != "")
            && (d.reply.value.ptype == ROOM_CREATE_OK ==>
                  && codec.create(payload).Create?
                  && d.reply.value.payload == Clip(codec.roomCodeText(NewRoomFor(codec, s.rooms, payload, draws)))
                  && (fd in s.clients && codec.create(payload).maxUsers != 0 ==>
                        && IsCode(RoomOf(s'.clients, fd))
                        && d.reply.value.payload == Clip(codec.roomCodeText(RoomOf(s'.clients, fd)))))
  {
    match codec.create(payload)
    case CreateMalformed(what) => d := JustReplies(s, s, fd, Failure(codec, ROOM_CREATE_FAIL, what));
    case NoRoomName => d := JustReplies(s, s, fd, Fail(codec, ROOM_CREATE_FAIL, NO_ROOM_NAME));
    case NoMaxUsers => d := JustReplies(s, s, fd, Fail(codec, ROOM_CREATE_FAIL, NO_MAX_USERS));
    case Create(name, maxUsers) =>
      var (clients, rooms, code) := CreateRoom(s.clients, s.rooms, fd, name, maxUsers, draws);
      if code == "" {
        d := JustReplies(s, s, fd, Fail(codec, ROOM_CREATE_FAIL, NO_ROOM_LEFT));
      } else {
        CreatedFor(s.clients, s.rooms, fd, name, maxUsers, draws);
        d := JustReplies(s, s.(rooms := rooms, clients := clients), fd, CreateOk(codec, code));
      }
  }

  lemma CreatedFor(clients: ClientMap, rooms: RoomMap, fd: int, name: string, maxUsers: int32, draws: Draws)
    requires RoomsOk(rooms)
    ensures var (clients', rooms', code) := CreateRoom(clients, rooms, fd, name, maxUsers, draws);
            code != "" && fd in clients && maxUsers != 0 ==> IsCode(code) && RoomOf(clients', fd) == code
  {
    AddRoomKeeps(rooms, name, maxUsers, draws);
    CreatorJoins(rooms, fd, name, maxUsers, draws);
  }

  /** What the others are told a client is called. */
  function ShownName(clients: ClientMap, fd: int): (shown: string) {
    if fd in clients && clients[fd].nickname != "" then clients[fd].nickname else "Anonymous"
  }

  lemma CanJoinJoins(codec: Codec, s: State, fd: int, payload: Bytes)
    ensures CanJoin(codec, s, fd, payload) <==>
            var request := codec.join(payload);
            request.Join? && fd in s.clients && s.clients[fd].roomCode == ""
                && JoinRoom(s.rooms, fd, request.roomCode).1
  {
  }

  lemma GrantedJoinSends(codec: Codec, s: State, fd: int, code: string) returns (d: Sends)
    requires RoomsOk(s.rooms) && fd in s.clients && JoinRoom(s.rooms, fd, code).1
    ensures var s' := EnterRoom(codec, s, fd, code);
            && Emits(s, s', fd, d)
            && RoomOf(s'.clients, fd) == code && IsCode(code)
            && d.cast == Some(UserJoin(codec, fd, s.clients[fd].nickname)) && d.code == code
            && d.reply == Some(JoinOk(codec, code))
  {
    var s' := EnterRoom(codec, s, fd, code);
    JoinRoomKeeps(s.rooms, fd, code);
    assert RoomOk(code, s.rooms[code]) && RoomOk(code, s'.rooms[code]);
    d := Sends(Some(UserJoin(codec, fd, s.clients[fd].nickname)), code, s'.rooms[code].members, Some(JoinOk(codec,
        code)));
    assert forall x :: x in d.members <==> In(s'.rooms, x, code);
  }

  lemma JoinSends(codec: Codec, s: State, fd: int, payload: Bytes) returns (d: Sends)
    requires RoomsOk(s.rooms)
    ensures var s' := HandleJoin(codec, s, fd, payload);
            && Emits(s, s', fd, d) && d.reply.Some?
            && d.reply.value.ptype == (if CanJoin(codec, s, fd, payload) then ROOM_JOIN_OK else ROOM_JOIN_FAIL)
            && (d.reply.value.ptype == ROOM_JOIN_FAIL ==>
                  d.cast == None && RoomOf(s'.clients, fd) == RoomOf(s.clients, fd))
            && (d.reply.value.ptype == ROOM_JOIN_OK ==>
                  && RoomOf(s.clients, fd) == ""
                  && IsCode(RoomOf(s'.clients, fd))
                  && d.cast == Some(Packet(ROOM_USER_JOIN, Clip(codec.presenceText(fd, ShownName(s.clients, fd)))))
                  && d.code == RoomOf(s'.clients, fd)
                  && d.reply.value.payload == Clip(codec.roomCodeText(RoomOf(s'.clients, fd))))
  {
    var s' := HandleJoin(codec, s, fd, payload);
    CanJoinJoins(codec, s, fd, payload);
    if CanJoin(codec, s, fd, payload) {
      d := GrantedJoinSends(codec, s, fd, codec.join(payload).roomCode);
    } else {
      d := JustReplies(s, s, fd, s'.out[|s.out|].packet);
    }
  }

  lemma ExitSends(codec: Codec, s: State, fd: int) returns (d: Sends)
    requires RoomsOk(s.rooms)
    ensures var s' := HandleExit(codec, s, fd);
            && Emits(s, s', fd, d) && d.reply.Some?
            && (RoomOf(s.clients, fd) == "" ==> d.cast == None && d.reply.value.ptype == ROOM_EXIT_FAIL)
            && (RoomOf(s.clients, fd) != "" ==>
                  && d.cast == Some(Packet(ROOM_USER_EXIT, Clip(codec.presenceText(fd, ShownName(s.clients, fd)))))
                  && d.code == RoomOf(s.clients, fd)
                  && d.reply.value == Packet(ROOM_EXIT_OK, []))
            && RoomOf(s'.clients, fd) == ""
  {
    var s' := HandleExit(codec, s, fd);
    var code := RoomOf(s.clients, fd);
    if code != "" {
      var cast := UserExit(codec, fd, s.clients[fd].nickname);
      var members := MembersOf(s.rooms, code);
      d := Sends(Some(cast), code, members, Some(Packet(ROOM_EXIT_OK, [])));
      assert code in s.rooms ==> RoomOk(code, s.rooms[code]);
    } else {
      d := JustReplies(s, s, fd, s'.out[|s.out|].packet);
    }
  }

  /** A MESSAGE_SEND may go out if its sender is connected, authenticated and in a room,
      it parses, and the text it becomes is at most 1024 bytes. */
  predicate MayChat(codec: Codec, clients: ClientMap, fd: int, payload: Bytes, now: string) {
    && fd in clients && clients[fd].isAuthenticated && clients[fd].roomCode != ""
    && codec.message(payload).Some?
    && |ChatTextOf(codec, clients[fd], fd, payload, now)| <= 1024
  }

  /** The text: the sender's descriptor, address and name, the message and the time. */
  function ChatTextOf(codec: Codec, sender: ClientView, fd: int, payload: Bytes, now: string): (text: Bytes)
    requires codec.message(payload).Some?
  {
    codec.chatText(Chat(fd, sender.ip, sender.nickname, codec.message(payload).value, now))
  }

  lemma MessageSends(codec: Codec, s: State, fd: int, payload: Bytes, now: string) returns (d: Sends)
    requires RoomsOk(s.rooms)
    ensures Emits(s, HandleMessage(codec, s, fd, payload, now), fd, d) && d.reply == None
    ensures d.cast == if MayChat(codec, s.clients, fd, payload, now)
                      then Some(Packet(1101, ChatTextOf(codec, s.clients[fd], fd, payload, now)))
                      else None
    ensures d.cast.Some? ==> d.code == RoomOf(s.clients, fd) && d.cast.value.ptype == MESSAGE_CHAT
  {
    var code := RoomOf(s.clients, fd);
    d := Sends(ChatPacket(codec, s.clients, fd, payload, now), code, MembersOf(s.rooms, code), None);
    assert code in s.rooms ==> RoomOk(code, s.rooms[code]);
    var out := s.out + Cast(d, fd);
    assert out + [] == out;
    assert s.out + [] == s.out;
  }

  lemma NicknameSends(codec: Codec, s: State, fd: int, payload: Bytes) returns (d: Sends)
    ensures Emits(s, HandleNickname(codec, s, fd, payload), fd, d) && d.cast == None && d.reply.Some?
    ensures var request := codec.nickname(payload);
            d.reply.value.ptype == if request.Nickname? && request.nickname !in s.nicknames then NICKNAME_RESPONSE_OK
                                   else NICKNAME_RESPONSE_FAIL
  {
    var s' := HandleNickname(codec, s, fd, payload);
    d := JustReplies(s, s, fd, s'.out[|s.out|].packet);
  }
}
