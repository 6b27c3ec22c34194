/** The handlers cut at their lock acquisitions, any number of them in flight. */
module Interleaving {
  import opened Protocol
  import opened Rooms
  import opened Clients
  import opened Payloads
  import opened Handlers
  import opened Membership

  // Where a handler stands between two steps. Each step takes one lock, or reads or
  // writes the client's own record, or sends one packet.
  datatype Pc =
    | Start(packet: Packet, env: Env)
    | CreateAdded(code: string)      // the room exists; getClient is next
    | CreateJoin(code: string)       // the client was found; joinRoom is next
    | CreateWrite(code: string)      // joined; roomCode is written next
    | JoinCheck(code: string)        // the client was found; roomCode is read next
    | JoinEnter(code: string)        // it was empty; joinRoom is next
    | JoinWrite(code: string)        // joined; roomCode is written next
    | JoinAnnounce(code: string)     // the members are looked up next
    | ExitRead                       // the client was found; roomCode is read next
    | ExitAnnounce(code: string)     // the members are looked up next
    | ExitLeave(code: string)        // everybody was told; leaveRoom is next
    | ExitClear                      // left; roomCode is cleared next
    | ChatCheck(payload: Bytes, now: string)
    | ChatAnnounce(chat: Packet)
    | NicknameWrite(nickname: string)
    | Sending(cast: Packet, targets: seq<int>, next: Pc)
    | Respond(reply: Packet)
    | Done

  function Others(members: seq<int>, exclude: int): (others: seq<int>) {
    if members == [] then []
    else if members[0] == exclude then Others(members[1..], exclude)
    else [members[0]] + Others(members[1..], exclude)
  }

  function Begin(codec: Codec, s: State, fd: int, packet: Packet, env: Env): (next: (State, Pc)) {
    if packet.ptype == NICKNAME_REQUEST then
      match codec.nickname(packet.payload)
      case NicknameMalformed(what) => (s, Respond(Failure(codec, NICKNAME_RESPONSE_FAIL, what)))
      case NoNickname => (s, Respond(Fail(codec, NICKNAME_RESPONSE_FAIL, NO_NICKNAME)))
      case Nickname(nickname) =>
        if nickname in s.nicknames then (s, Respond(Fail(codec, NICKNAME_RESPONSE_FAIL, DUPLICATED_NICKNAME)))
        else (s, NicknameWrite(nickname))
    else if packet.ptype == MESSAGE_SEND then
      (s, if fd in s.clients then ChatCheck(packet.payload, env.now) else Done)
    else if packet.ptype == CREATE_ROOM then
      match codec.create(packet.payload)
      case CreateMalformed(what) => (s, Respond(Failure(codec, ROOM_CREATE_FAIL, what)))
      case NoRoomName => (s, Respond(Fail(codec, ROOM_CREATE_FAIL, NO_ROOM_NAME)))
      case NoMaxUsers => (s, Respond(Fail(codec, ROOM_CREATE_FAIL, NO_MAX_USERS)))
      case Create(name, maxUsers) =>
        var (rooms, code) := AddRoom(s.rooms, name, maxUsers, env.draws);
        (s.(rooms := rooms), if code == "" then Respond(Fail(codec, ROOM_CREATE_FAIL, NO_ROOM_LEFT))
            else CreateAdded(code))
    else if packet.ptype == JOIN_ROOM then
      match codec.join(packet.payload)
      case JoinMalformed(what) => (s, Respond(Failure(codec, ROOM_JOIN_FAIL, what)))
      case NoRoomCode => (s, Respond(Fail(codec, ROOM_JOIN_FAIL, NO_ROOM_CODE)))
      case Join(code) =>
        (s, if fd in s.clients then JoinCheck(code) else Respond(Fail(codec, ROOM_JOIN_FAIL, NO_CLIENT)))
    else if packet.ptype == EXIT_ROOM then
      (s, if fd in s.clients then ExitRead else Respond(Fail(codec, ROOM_EXIT_FAIL, NO_CLIENT)))
    else (s, Done)
  }

  /** One step of a handler past its beginning. A handler whose client is gone does
      not get here: a connection with a handler in flight is not closed. */
  function Advance(codec: Codec, s: State, fd: int, pc: Pc): (next: (State, Pc)) {
    match pc
    case Start(packet, env) => Begin(codec, s, fd, packet, env)
    case CreateAdded(code) => (s, if fd in s.clients then CreateJoin(code) else Respond(CreateOk(codec, code)))
    case CreateJoin(code) =>
      var (rooms, joined) := JoinRoom(s.rooms, fd, code);
      (s.(rooms := rooms), if joined then CreateWrite(code) else Respond(CreateOk(codec, code)))
    case CreateWrite(code) => (Write(s, fd, code), Respond(CreateOk(codec, code)))
    case JoinCheck(code) =>
      (s, if RoomOf(s.clients, fd) != "" then Respond(Fail(codec, ROOM_JOIN_FAIL, ALREADY_IN_A_ROOM))
          else JoinEnter(code))
    case JoinEnter(code) =>
      var (rooms, joined) := JoinRoom(s.rooms, fd, code);
      (s.(rooms := rooms), if joined then JoinWrite(code) else Respond(Fail(codec, ROOM_JOIN_FAIL, CANNOT_JOIN)))
    case JoinWrite(code) => (Write(s, fd, code), JoinAnnounce(code))
    case JoinAnnounce(code) =>
      (s, Sending(UserJoin(codec, fd, NicknameOf(s, fd)), Others(MembersOf(s.rooms, code), fd),
                  Respond(JoinOk(codec, code))))
    case ExitRead =>
      (s, if RoomOf(s.clients, fd) == "" then Respond(Fail(codec, ROOM_EXIT_FAIL, NOT_IN_A_ROOM))
          else ExitAnnounce(RoomOf(s.clients, fd)))
    case ExitAnnounce(code) =>
      (s, Sending(UserExit(codec, fd, NicknameOf(s, fd)), Others(MembersOf(s.rooms, code), fd), ExitLeave(code)))
    case ExitLeave(code) => (s.(rooms := LeaveRoom(s.rooms, fd, code)), ExitClear)
    case ExitClear => (Write(s, fd, ""), Respond(Packet(ROOM_EXIT_OK, [])))
    case ChatCheck(payload, now) =>
      (s, match ChatPacket(codec, s.clients, fd, payload, now)
          case None => Done
          case Some(chat) => ChatAnnounce(chat))
    case ChatAnnounce(chat) =>
      (s, Sending(chat, Others(MembersOf(s.rooms, RoomOf(s.clients, fd)), fd), Done))
    case NicknameWrite(nickname) =>
      var (clients, nicknames) := SetNickname(s.clients, s.nicknames, fd, nickname);
      (s.(clients := clients, nicknames := nicknames), Respond(Packet(NICKNAME_RESPONSE_OK, [])))
    case Sending(cast, targets, next) =>
      if targets == [] then (s, next)
      else (Reply(s, targets[0], cast), Sending(cast, targets[1..], next))
    case Respond(reply) => (Reply(s, fd, reply), Done)
    case Done => (s, Done)
  }

  function Write(s: State, fd: int, code: string): (s': State) {
    if fd in s.clients then s.(clients := SetRoomCode(s.clients, fd, code)) else s
  }

  function NicknameOf(s: State, fd: int): (nickname: string) {
    if fd in s.clients then s.clients[fd].nickname else ""
  }

  // ----- a handler that runs alone is the atomic handler -----

  function Stage(pc: Pc): (n: nat) {
    match pc
    case Done => 0
    case Respond(_) => 1
    case Sending(_, _, next) => Stage(next) + 1
    case NicknameWrite(_) => 2
    case CreateWrite(_) => 2
    case CreateJoin(_) => 3
    case CreateAdded(_) => 4
    case ExitClear => 2
    case ExitLeave(_) => 3
    case ExitAnnounce(_) => 5
    case ExitRead => 6
    case JoinAnnounce(_) => 3
    case JoinWrite(_) => 4
    case JoinEnter(_) => 5
    case JoinCheck(_) => 6
    case ChatAnnounce(_) => 2
    case ChatCheck(_, _) => 3
    case Start(_, _) => 7
  }

  function Ahead(pc: Pc): (n: nat) {
    if pc.Sending? then |pc.targets| else 0
  }

  predicate Lower(next: Pc, pc: Pc) {
    Stage(next) < Stage(pc) || (Stage(next) == Stage(pc) && Ahead(next) < Ahead(pc))
  }

  lemma CreatesEnd(codec: Codec, s: State, fd: int, pc: Pc)
    requires pc.CreateAdded? || pc.CreateJoin? || pc.CreateWrite?
    ensures Lower(Advance(codec, s, fd, pc).1, pc)
  {
  }

  lemma JoinsEnd(codec: Codec, s: State, fd: int, pc: Pc)
    requires pc.JoinCheck? || pc.JoinEnter? || pc.JoinWrite? || pc.JoinAnnounce?
    ensures Lower(Advance(codec, s, fd, pc).1, pc)
  {
  }

  lemma ExitsEnd(codec: Codec, s: State, fd: int, pc: Pc)
    requires pc.ExitRead? || pc.ExitAnnounce? || pc.ExitLeave? || pc.ExitClear?
    ensures Lower(Advance(codec, s, fd, pc).1, pc)
  {
  }

  lemma StepsEnd(codec: Codec, s: State, fd: int, pc: Pc)
    requires !pc.Done?
    ensures Lower(Advance(codec, s, fd, pc).1, pc)
  {
    if pc.Start? {
      BeginsLow(codec, s, fd, pc.packet, pc.env);
    } else if pc.CreateAdded? || pc.CreateJoin? || pc.CreateWrite? {
      CreatesEnd(codec, s, fd, pc);
    } else if pc.JoinCheck? || pc.JoinEnter? || pc.JoinWrite? || pc.JoinAnnounce? {
      JoinsEnd(codec, s, fd, pc);
    } else if pc.ExitRead? || pc.ExitAnnounce? || pc.ExitLeave? || pc.ExitClear? {
      ExitsEnd(codec, s, fd, pc);
    }
  }

  lemma BeginsLow(codec: Codec, s: State, fd: int, packet: Packet, env: Env)
    ensures Stage(Begin(codec, s, fd, packet, env).1) < 7
  {
  }

  /** The handler's remaining steps, one after the other. */
  function Finish(codec: Codec, s: State, fd: int, pc: Pc): (end: State)
    decreases Stage(pc), Ahead(pc)
  {
    if pc.Done? then s
    else
      var (s', pc') := Advance(codec, s, fd, pc);
      StepsEnd(codec, s, fd, pc);
      Finish(codec, s', fd, pc')
  }

  lemma FinishOne(codec: Codec, s: State, fd: int, cast: Packet, targets: seq<int>, next: Pc)
    requires targets != []
    ensures Finish(codec, s, fd, Sending(cast, targets, next))
         == Finish(codec, Reply(s, targets[0], cast), fd, Sending(cast, targets[1..], next))
  {
  }

  lemma FanOutOne(s: State, cast: Packet, members: seq<int>, fd: int)
    requires members != [] && members[0] != fd
    ensures var s' := Reply(s, members[0], cast);
            s'.(out := s'.out + FanOut(members[1..], cast, fd)) == s.(out := s.out + FanOut(members, cast, fd))
  {
    Associative(s.out, [Sent(members[0], cast)], FanOut(members[1..], cast, fd));
  }

  lemma {:induction false} FinishSending(codec: Codec, s: State, fd: int, cast: Packet, members: seq<int>, next: Pc)
    ensures Finish(codec, s, fd, Sending(cast, Others(members, fd), next))
         == Finish(codec, s.(out := s.out + FanOut(members, cast, fd)), fd, next)
    decreases |members|
  {
    if members == [] {
      assert s.out + [] == s.out;
    } else if members[0] == fd {
      FinishSending(codec, s, fd, cast, members[1..], next);
    } else {
      var targets := Others(members, fd);
      assert targets[1..] == Others(members[1..], fd);
      FinishOne(codec, s, fd, cast, targets, next);
      FanOutOne(s, cast, members, fd);
      FinishSending(codec, Reply(s, members[0], cast), fd, cast, members[1..], next);
    }
  }

  lemma FinishRespond(codec: Codec, s: State, fd: int, reply: Packet)
    ensures Finish(codec, s, fd, Respond(reply)) == Reply(s, fd, reply)
  {
  }

  lemma CreateAlone(codec: Codec, s: State, fd: int, code: string)
    ensures Finish(codec, s, fd, CreateAdded(code))
         == if fd !in s.clients then Reply(s, fd, CreateOk(codec, code))
            else
              var (rooms, joined) := JoinRoom(s.rooms, fd, code);
              Reply(s.(rooms := rooms, clients := if joined then SetRoomCode(s.clients, fd, code) else s.clients),
                    fd, CreateOk(codec, code))
  {
    var ok := CreateOk(codec, code);
    if fd !in s.clients {
      FinishRespond(codec, s, fd, ok);
    } else {
      var (rooms, joined) := JoinRoom(s.rooms, fd, code);
      var s1 := s.(rooms := rooms);
      assert Finish(codec, s, fd, CreateAdded(code)) == Finish(codec, s, fd, CreateJoin(code));
      if joined {
        var s2 := Write(s1, fd, code);
        assert Finish(codec, s, fd, CreateJoin(code)) == Finish(codec, s1, fd, CreateWrite(code));
        assert Finish(codec, s1, fd, CreateWrite(code)) == Finish(codec, s2, fd, Respond(ok));
        FinishRespond(codec, s2, fd, ok);
      } else {
        FinishRespond(codec, s1, fd, ok);
      }
    }
  }

  lemma JoinAlone(codec: Codec, s: State, fd: int, code: string)
    requires fd in s.clients && s.clients[fd].roomCode == ""
    ensures Finish(codec, s, fd, JoinEnter(code)) == EnterRoom(codec, s, fd, code)
  {
    var (rooms, joined) := JoinRoom(s.rooms, fd, code);
    var s1 := s.(rooms := rooms);
    if joined {
      var s2 := Write(s1, fd, code);
      var cast, ok := UserJoin(codec, fd, s.clients[fd].nickname), JoinOk(codec, code);
      var members := MembersOf(s2.rooms, code);
      assert Finish(codec, s, fd, JoinEnter(code)) == Finish(codec, s1, fd, JoinWrite(code));
      assert Finish(codec, s1, fd, JoinWrite(code)) == Finish(codec, s2, fd, JoinAnnounce(code));
      assert Finish(codec, s2, fd, JoinAnnounce(code))
          == Finish(codec, s2, fd, Sending(cast, Others(members, fd), Respond(ok)));
      FinishSending(codec, s2, fd, cast, members, Respond(ok));
      FinishRespond(codec, Broadcast(s2, cast, code, fd), fd, ok);
    } else {
      assert s1 == s by { assert s1.rooms == s.rooms; }
      FinishRespond(codec, s, fd, Fail(codec, ROOM_JOIN_FAIL, CANNOT_JOIN));
    }
  }

  lemma ExitAlone(codec: Codec, s: State, fd: int)
    requires fd in s.clients
    ensures Finish(codec, s, fd, ExitRead) == HandleExit(codec, s, fd)
  {
    var code := s.clients[fd].roomCode;
    if code == "" {
      FinishRespond(codec, s, fd, Fail(codec, ROOM_EXIT_FAIL, NOT_IN_A_ROOM));
    } else {
      var cast, ok := UserExit(codec, fd, s.clients[fd].nickname), Packet(ROOM_EXIT_OK, []);
      var members := MembersOf(s.rooms, code);
      var told := Broadcast(s, cast, code, fd);
      var gone := told.(rooms := LeaveRoom(s.rooms, fd, code));
      assert Finish(codec, s, fd, ExitRead) == Finish(codec, s, fd, ExitAnnounce(code));
      assert Finish(codec, s, fd, ExitAnnounce(code))
          == Finish(codec, s, fd, Sending(cast, Others(members, fd), ExitLeave(code)));
      FinishSending(codec, s, fd, cast, members, ExitLeave(code));
      assert Finish(codec, told, fd, ExitLeave(code)) == Finish(codec, gone, fd, ExitClear);
      assert Finish(codec, gone, fd, ExitClear) == Finish(codec, Write(gone, fd, ""), fd, Respond(ok));
      FinishRespond(codec, Write(gone, fd, ""), fd, ok);
    }
  }

  lemma ChatAlone(codec: Codec, s: State, fd: int, payload: Bytes, now: string)
    requires fd in s.clients
    ensures Finish(codec, s, fd, ChatCheck(payload, now)) == HandleMessage(codec, s, fd, payload, now)
  {
    match ChatPacket(codec, s.clients, fd, payload, now)
    case None =>
    case Some(chat) =>
      var members := MembersOf(s.rooms, RoomOf(s.clients, fd));
      assert Finish(codec, s, fd, ChatCheck(payload, now)) == Finish(codec, s, fd, ChatAnnounce(chat));
      FinishSending(codec, s, fd, chat, members, Done);
  }

  lemma NicknameAlone(codec: Codec, s: State, fd: int, nickname: string)
    ensures Finish(codec, s, fd, NicknameWrite(nickname))
         == var (clients, nicknames) := SetNickname(s.clients, s.nicknames, fd, nickname);
            Reply(s.(clients := clients, nicknames := nicknames), fd, Packet(NICKNAME_RESPONSE_OK, []))
  {
    FinishRespond(codec, Advance(codec, s, fd, NicknameWrite(nickname)).0, fd, Packet(NICKNAME_RESPONSE_OK, []));
  }

  lemma FirstStep(codec: Codec, s: State, fd: int, packet: Packet, env: Env)
    ensures var (s', pc) := Begin(codec, s, fd, packet, env);
            Finish(codec, s, fd, Start(packet, env)) == Finish(codec, s', fd, pc)
  {
  }

  lemma CreateFromStart(codec: Codec, s: State, fd: int, packet: Packet, env: Env)
    requires packet.ptype == CREATE_ROOM
    ensures var (s', pc) := Begin(codec, s, fd, packet, env);
            Finish(codec, s', fd, pc) == HandleCreate(codec, s, fd, packet.payload, env.draws)
  {
    var (s', pc) := Begin(codec, s, fd, packet, env);
    match pc
    case CreateAdded(code) => CreateAlone(codec, s', fd, code);
    case Respond(reply) =>
      assert s'.rooms == s.rooms;
      FinishRespond(codec, s', fd, reply);
  }

  lemma JoinFromStart(codec: Codec, s: State, fd: int, packet: Packet, env: Env)
    requires packet.ptype == JOIN_ROOM
    ensures var (s', pc) := Begin(codec, s, fd, packet, env);
            Finish(codec, s', fd, pc) == HandleJoin(codec, s, fd, packet.payload)
  {
    var (s', pc) := Begin(codec, s, fd, packet, env);
    match pc
    case JoinCheck(code) =>
      if RoomOf(s.clients, fd) == "" {
        assert Finish(codec, s, fd, JoinCheck(code)) == Finish(codec, s, fd, JoinEnter(code));
        JoinAlone(codec, s, fd, code);
      } else {
        FinishRespond(codec, s, fd, Fail(codec, ROOM_JOIN_FAIL, ALREADY_IN_A_ROOM));
      }
    case Respond(reply) => FinishRespond(codec, s, fd, reply);
  }

  lemma NicknameFromStart(codec: Codec, s: State, fd: int, packet: Packet, env: Env)
    requires packet.ptype == NICKNAME_REQUEST
    ensures var (s', pc) := Begin(codec, s, fd, packet, env);
            Finish(codec, s', fd, pc) == HandleNickname(codec, s, fd, packet.payload)
  {
    var (s', pc) := Begin(codec, s, fd, packet, env);
    match pc
    case NicknameWrite(nickname) => NicknameAlone(codec, s, fd, nickname);
    case Respond(reply) => FinishRespond(codec, s, fd, reply);
  }

  lemma ExitFromStart(codec: Codec, s: State, fd: int, packet: Packet, env: Env)
    requires packet.ptype == EXIT_ROOM
    ensures var (s', pc) := Begin(codec, s, fd, packet, env);
            Finish(codec, s', fd, pc) == HandleExit(codec, s, fd)
  {
    if fd in s.clients {
      ExitAlone(codec, s, fd);
    } else {
      FinishRespond(codec, s, fd, Fail(codec, ROOM_EXIT_FAIL, NO_CLIENT));
    }
  }

  /** Cutting a handler into steps changes nothing when they run back to back. */
  lemma AloneIsAtomic(codec: Codec, s: State, fd: int, packet: Packet, env: Env)
    ensures Finish(codec, s, fd, Start(packet, env)) == HandlePacket(codec, s, fd, packet, env)
  {
    FirstStep(codec, s, fd, packet, env);
    if packet.ptype == CREATE_ROOM {
      CreateFromStart(codec, s, fd, packet, env);
    } else if packet.ptype == JOIN_ROOM {
      JoinFromStart(codec, s, fd, packet, env);
    } else if packet.ptype == EXIT_ROOM {
      ExitFromStart(codec, s, fd, packet, env);
    } else if packet.ptype == NICKNAME_REQUEST {
      NicknameFromStart(codec, s, fd, packet, env);
    } else if packet.ptype == MESSAGE_SEND && fd in s.clients {
      ChatAlone(codec, s, fd, packet.payload, env.now);
    }
  }
}
