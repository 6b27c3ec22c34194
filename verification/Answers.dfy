/** Every request by its number on the wire: what it is answered, to the letter, and what
    it leaves in the tables. */
module Answers {
  import opened Protocol
  import opened Rooms
  import opened Clients
  import opened Payloads
  import opened Handlers
  import opened Membership
  import opened Outboxes

  /** The only effect is this packet to the requester. */
  ghost predicate OnlyTold(s: State, s': State, fd: int, packet: Packet) {
    && s'.clients == s.clients && s'.nicknames == s.nicknames && s'.rooms == s.rooms
    && s'.out == s.out + [Sent(fd, packet)]
  }

  lemma ParseErrorText(codec: Codec, ptype: uint16, what: Bytes)
    requires Worded(codec)
    ensures Failure(codec, ptype, what) == Packet(ptype, Clip(Ascii("JSON parse error: ") + what))
  {
  }

  // ----- CREATE_ROOM -----

  lemma CreateMalformedTold(codec: Codec, s: State, fd: int, payload: Bytes, env: Env)
    requires Worded(codec)
    ensures var s' := HandlePacket(codec, s, fd, Packet(301, payload), env);
            var request := codec.create(payload);
            && (request.CreateMalformed? ==>
                  OnlyTold(s, s', fd, Packet(3012, Clip(Ascii("JSON parse error: ") + request.what))))
            && (request.NoRoomName? ==>
                  OnlyTold(s, s', fd, Packet(3012, Ascii("Invalid JSON format: missing 'roomName' field."))))
            && (request.NoMaxUsers? ==>
                  OnlyTold(s, s', fd, Packet(3012, Ascii("Invalid JSON format: missing 'maxUsers' field."))))
  {
    var request := codec.create(payload);
    if request.CreateMalformed? {
      ParseErrorText(codec, 3012, request.what);
    }
  }

  lemma CreateRefusedTold(codec: Codec, s: State, fd: int, payload: Bytes, env: Env)
    requires Worded(codec) && codec.create(payload).Create?
    requires |s.rooms| >= 100 || forall k :: 0 <= k < 100 ==> Code(env.draws, k) in s.rooms
    ensures OnlyTold(s, HandlePacket(codec, s, fd, Packet(301, payload), env), fd,
                     Packet(3012, Ascii("Failed to create room. Maximum room count reached.")))
  {
    AddRoomPicks(s.rooms, codec.create(payload).roomName, codec.create(payload).maxUsers, env.draws);
  }

  /** Otherwise a room comes up, as asked and under the first code drawn that is free,
      with its creator in it if it is connected and the room has a place. */
  lemma CreateGranted(codec: Codec, s: State, fd: int, payload: Bytes, env: Env, k: nat)
    requires codec.create(payload).Create? && |s.rooms| < 100
    requires k < 100 && Code(env.draws, k) !in s.rooms && forall j :: 0 <= j < k ==> Code(env.draws, j) in s.rooms
    ensures var s' := HandlePacket(codec, s, fd, Packet(301, payload), env);
            var request, code := codec.create(payload), Code(env.draws, k);
            var inside := fd in s.clients && request.maxUsers != 0;
            var room := RoomView(code, request.roomName, request.maxUsers, if inside then [fd] else []);
            && s'.rooms == s.rooms[code := room]
            && s'.clients == (if inside then s.clients[fd := s.clients[fd].(roomCode := code)] else s.clients)
            && s'.nicknames == s.nicknames
            && s'.out == s.out + [Sent(fd, Packet(3011, Clip(codec.roomCodeText(code))))]
  {
    var name, maxUsers, code := codec.create(payload).roomName, codec.create(payload).maxUsers, Code(env.draws, k);
    var room := RoomView(code, name, maxUsers, []);
    assert FirstUnused(s.rooms, env.draws, 0) == k;
    assert AddRoom(s.rooms, name, maxUsers, env.draws) == (s.rooms[code := room], code);
    JoinsNewRoom(s.rooms, room, fd, code);
    CodesAreCodes(env.draws, k);
  }

  lemma JoinsNewRoom(rooms: RoomMap, room: RoomView, fd: int, code: string)
    requires room.members == []
    ensures JoinRoom(rooms[code := room], fd, code)
         == if room.maxUsers != 0 then (rooms[code := room.(members := [fd])], true) else (rooms[code := room], false)
  {
    EmptyRoomTakes(rooms, room, fd, code);
    assert [] + [fd] == [fd];
    assert rooms[code := room][code := room.(members := [fd])] == rooms[code := room.(members := [fd])];
    assert rooms[code := room][code := room] == rooms[code := room];
  }

  // ----- JOIN_ROOM -----

  lemma JoinMalformedTold(codec: Codec, s: State, fd: int, payload: Bytes, env: Env)
    requires Worded(codec)
    ensures var s' := HandlePacket(codec, s, fd, Packet(303, payload), env);
            var request := codec.join(payload);
            && (request.JoinMalformed? ==>
                  OnlyTold(s, s', fd, Packet(3032, Clip(Ascii("JSON parse error: ") + request.what))))
            && (request.NoRoomCode? ==>
                  OnlyTold(s, s', fd, Packet(3032, Ascii("Invalid JSON format: missing 'roomCode' field."))))
  {
    var request := codec.join(payload);
    if request.JoinMalformed? {
      ParseErrorText(codec, 3032, request.what);
    }
  }

  /** The client is the cause: there is no such client, or it is in a room. */
  lemma JoinRefusedToClient(codec: Codec, s: State, fd: int, payload: Bytes, env: Env)
    requires Worded(codec) && codec.join(payload).Join?
    ensures var s' := HandlePacket(codec, s, fd, Packet(303, payload), env);
            && (fd !in s.clients ==> OnlyTold(s, s', fd, Packet(3032, Ascii("Client not found."))))
            && (fd in s.clients && s.clients[fd].roomCode != "" ==>
                  OnlyTold(s, s', fd, Packet(3032, Ascii("Already in another room. Please exit first."))))
  {
  }

  /** The room is the cause: there is none, it has no place, or it lists the client. */
  lemma JoinRefusedByRoom(codec: Codec, s: State, fd: int, payload: Bytes, env: Env, code: string)
    requires Worded(codec) && codec.join(payload) == Join(code)
    requires fd in s.clients && s.clients[fd].roomCode == ""
    requires code in s.rooms ==>
             |s.rooms[code].members| >= AsSize(s.rooms[code].maxUsers) || fd in s.rooms[code].members
    ensures OnlyTold(s, HandlePacket(codec, s, fd, Packet(303, payload), env), fd,
                     Packet(3032, Ascii("Failed to join room. Room not found or full.")))
  {
    RefusedJoinChangesNothing(s.rooms, fd, code);
  }

  /** Otherwise the client is added behind the members and its record names the room; it
      is sent the code, and every other member its descriptor and shown name. */
  lemma JoinGranted(codec: Codec, s: State, fd: int, payload: Bytes, env: Env, code: string, x: int)
    requires RoomsOk(s.rooms) && codec.join(payload) == Join(code)
    requires fd in s.clients && s.clients[fd].roomCode == "" && code in s.rooms
    requires |s.rooms[code].members| < AsSize(s.rooms[code].maxUsers) && fd !in s.rooms[code].members
    ensures var s' := HandlePacket(codec, s, fd, Packet(303, payload), env);
            var room, name := s.rooms[code], s.clients[fd].nickname;
            var shown := if name == "" then "Anonymous" else name;
            && s'.rooms == s.rooms[code := room.(members := room.members + [fd])]
            && s'.clients == s.clients[fd := s.clients[fd].(roomCode := code)] && s'.nicknames == s.nicknames
            && Outbox(s'.out, x) == Outbox(s.out, x)
                                    + if x == fd then [Packet(3031, Clip(codec.roomCodeText(code)))]
                                      else if x in room.members
                                      then [Packet(3041, Clip(codec.presenceText(fd, shown)))]
                                      else []
  {
    var d := GrantedJoinSends(codec, s, fd, code);
    OutboxAfter(s, EnterRoom(codec, s, fd, code), fd, d, x);
  }

  // ----- EXIT_ROOM -----

  lemma ExitRefusedTold(codec: Codec, s: State, fd: int, payload: Bytes, env: Env)
    requires Worded(codec)
    ensures var s' := HandlePacket(codec, s, fd, Packet(302, payload), env);
            && (fd !in s.clients ==> OnlyTold(s, s', fd, Packet(3022, Ascii("Client not found."))))
            && (fd in s.clients && s.clients[fd].roomCode == "" ==>
                  OnlyTold(s, s', fd, Packet(3022, Ascii("Not in any room."))))
  {
  }

  /** Otherwise the client's record is cleared and the room lists it no more; it is sent
      EXIT_OK, and every other member its descriptor and shown name. */
  lemma ExitGranted(codec: Codec, s: State, fd: int, payload: Bytes, env: Env, x: int)
    requires RoomsOk(s.rooms) && fd in s.clients && s.clients[fd].roomCode != ""
    ensures var s' := HandlePacket(codec, s, fd, Packet(302, payload), env);
            var code, name := s.clients[fd].roomCode, s.clients[fd].nickname;
            var shown := if name == "" then "Anonymous" else name;
            && s'.clients == s.clients[fd := s.clients[fd].(roomCode := "")] && s'.nicknames == s.nicknames
            && (forall y, c :: In(s'.rooms, y, c) <==> In(s.rooms, y, c) && !(y == fd && c == code))
            && Outbox(s'.out, x) == Outbox(s.out, x)
                                    + if x == fd then [Packet(3021, [])]
                                      else if In(s.rooms, x, code)
                                      then [Packet(3042, Clip(codec.presenceText(fd, shown)))]
                                      else []
  {
    var d := ExitSends(codec, s, fd);
    OutboxAfter(s, HandleExit(codec, s, fd), fd, d, x);
    LeaveRoomKeeps(s.rooms, fd, s.clients[fd].roomCode);
  }

  // ----- NICKNAME_REQUEST and the rest -----

  /** What a NICKNAME_REQUEST is told; `Records` has what it does. */
  lemma NicknameTold(codec: Codec, s: State, fd: int, payload: Bytes, env: Env)
    requires Worded(codec)
    ensures var s' := HandlePacket(codec, s, fd, Packet(101, payload), env);
            var request := codec.nickname(payload);
            && (request.NicknameMalformed? ==>
                  OnlyTold(s, s', fd, Packet(1002, Clip(Ascii("JSON parse error: ") + request.what))))
            && (request.NoNickname? ==>
                  OnlyTold(s, s', fd, Packet(1002, Ascii("Invalid JSON format: missing 'nickname' field."))))
            && (request.Nickname? && request.nickname in s.nicknames ==>
                  OnlyTold(s, s', fd, Packet(1002, Ascii("Duplicated nickname."))))
            && (request.Nickname? && request.nickname !in s.nicknames ==>
                  s'.out == s.out + [Sent(fd, Packet(1001, []))])
  {
    var request := codec.nickname(payload);
    if request.NicknameMalformed? {
      ParseErrorText(codec, 1002, request.what);
    }
  }

  /** Packets of any other type do nothing. */
  lemma OthersIgnored(codec: Codec, s: State, fd: int, packet: Packet, env: Env)
    requires packet.ptype !in {101, 201, 301, 302, 303}
    ensures HandlePacket(codec, s, fd, packet, env) == s
  {
  }
}
