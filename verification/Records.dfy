/** What the two tables hold, over every run: each record is what its connection and
    its requests made it. */
module Records {
  import opened Protocol
  import opened Rooms
  import opened Clients
  import opened Payloads
  import opened Handlers

  // ----- connections -----

  /** An accepted connection is recorded with its address, without a name, a room or
      authentication; nothing else changes. */
  lemma AcceptRecords(codec: Codec, s: State, fd: int, ip: string, other: int)
    requires other != fd
    ensures var s' := Step(codec, s, Accept(fd, ip));
            && fd in s'.clients
            && (var record := s'.clients[fd];
                record.ip == ip && record.nickname == "" && !record.isAuthenticated && record.roomCode == "")
            && (other in s'.clients <==> other in s.clients)
            && (other in s.clients ==> s'.clients[other] == s.clients[other])
            && s'.nicknames == s.nicknames && s'.rooms == s.rooms && s'.out == s.out
  {
  }

  /** A closed one is gone, its name with it if it had been authenticated under one. */
  lemma CloseRecords(codec: Codec, s: State, fd: int, other: int)
    requires other != fd
    ensures var s' := Step(codec, s, Close(fd));
            && fd !in s'.clients
            && (other in s'.clients <==> other in s.clients)
            && (other in s.clients ==> s'.clients[other] == s.clients[other])
            && s'.nicknames == s.nicknames
               - (if fd in s.clients && s.clients[fd].isAuthenticated then {s.clients[fd].nickname} else {})
            && s'.rooms == s.rooms && s'.out == s.out
  {
  }

  /** The address given at the descriptor's last accept, unless it was closed since. */
  function AddressOf(events: seq<Event>, fd: int): (ip: Option<string>) {
    if events == [] then None
    else
      var e := events[|events| - 1];
      if e.Accept? && e.fd == fd then Some(e.ip)
      else if e.Close? && e.fd == fd then None
      else AddressOf(events[..|events| - 1], fd)
  }

  ghost predicate SameAddresses(clients: ClientMap, clients': ClientMap) {
    clients'.Keys == clients.Keys && forall x :: x in clients ==> clients'[x].ip == clients[x].ip
  }

  lemma CreateSameAddresses(codec: Codec, s: State, fd: int, payload: Bytes, draws: Draws)
    ensures SameAddresses(s.clients, HandleCreate(codec, s, fd, payload, draws).clients)
  {
  }

  lemma JoinSameAddresses(codec: Codec, s: State, fd: int, payload: Bytes)
    ensures SameAddresses(s.clients, HandleJoin(codec, s, fd, payload).clients)
  {
  }

  lemma NicknameSameAddresses(codec: Codec, s: State, fd: int, payload: Bytes)
    ensures SameAddresses(s.clients, HandleNickname(codec, s, fd, payload).clients)
  {
  }

  lemma HandlersKeepAddresses(codec: Codec, s: State, fd: int, packet: Packet, env: Env)
    ensures SameAddresses(s.clients, HandlePacket(codec, s, fd, packet, env).clients)
  {
    if packet.ptype == CREATE_ROOM {
      CreateSameAddresses(codec, s, fd, packet.payload, env.draws);
    } else if packet.ptype == JOIN_ROOM {
      JoinSameAddresses(codec, s, fd, packet.payload);
    } else if packet.ptype == NICKNAME_REQUEST {
      NicknameSameAddresses(codec, s, fd, packet.payload);
    }
  }

  /** On every run the connected clients are those accepted and not closed since, each
      recorded under the address of its last accept. */
  lemma {:induction false} AddressesRecorded(codec: Codec, events: seq<Event>, fd: int)
    ensures var clients := Run(codec, events).clients;
            && (fd in clients <==> AddressOf(events, fd).Some?)
            && (fd in clients ==> clients[fd].ip == AddressOf(events, fd).value)
  {
    if events != [] {
      var before, e := events[..|events| - 1], events[|events| - 1];
      AddressesRecorded(codec, before, fd);
      match e
      case Handle(x, packet, env) => HandlersKeepAddresses(codec, Run(codec, before), x, packet, env);
      case _ =>
    }
  }

  // ----- names -----

  /** A request for a free name gives its client that name and reserves it; any other
      changes no record and no reservation. */
  lemma NicknameRecords(codec: Codec, s: State, fd: int, payload: Bytes, env: Env, other: int)
    requires other != fd
    ensures var s' := HandlePacket(codec, s, fd, Packet(101, payload), env);
            var granted := && fd in s.clients && codec.nickname(payload).Nickname?
                           && codec.nickname(payload).nickname !in s.nicknames;
            && s'.rooms == s.rooms
            && (!granted ==> s'.clients == s.clients && s'.nicknames == s.nicknames)
            && (granted ==>
                  var name := codec.nickname(payload).nickname;
                  && s'.clients.Keys == s.clients.Keys
                  && s'.clients[fd].nickname == name && s'.clients[fd].isAuthenticated
                  && s'.clients[fd].ip == s.clients[fd].ip && s'.clients[fd].roomCode == s.clients[fd].roomCode
                  && s'.nicknames == s.nicknames + {name}
                  && (other in s.clients ==> s'.clients[other] == s.clients[other]))
  {
  }

  // ----- rooms -----

  /** The room was asked for by this event, by name and places, and its code spelt from
      the event's draws. */
  ghost predicate AskedBy(codec: Codec, code: string, room: RoomView, e: Event) {
    && e.Handle? && e.packet.ptype == 301
    && codec.create(e.packet.payload) == Create(room.name, room.maxUsers)
    && room.code == code && exists k :: 0 <= k < 100 && code == Code(e.env.draws, k)
  }

  predicate SameRoom(room: RoomView, room': RoomView) {
    room'.code == room.code && room'.name == room.name && room'.maxUsers == room.maxUsers
  }

  /** Each room is one of those before, or asked for by this event. */
  ghost predicate OldOrAsked(codec: Codec, rooms: RoomMap, rooms': RoomMap, e: Event) {
    forall code :: code in rooms' ==>
      (code in rooms && SameRoom(rooms[code], rooms'[code])) || AskedBy(codec, code, rooms'[code], e)
  }

  lemma CreateAsks(codec: Codec, s: State, e: Event)
    requires e.Handle? && e.packet.ptype == CREATE_ROOM
    ensures OldOrAsked(codec, s.rooms, HandleCreate(codec, s, e.fd, e.packet.payload, e.env.draws).rooms, e)
  {
    match codec.create(e.packet.payload)
    case Create(name, maxUsers) => AddRoomPicks(s.rooms, name, maxUsers, e.env.draws);
    case _ =>
  }

  lemma JoinAsksNothing(codec: Codec, s: State, e: Event, payload: Bytes)
    requires e.Handle?
    ensures OldOrAsked(codec, s.rooms, HandleJoin(codec, s, e.fd, payload).rooms, e)
  {
  }

  lemma ExitAsksNothing(codec: Codec, s: State, e: Event)
    requires e.Handle?
    ensures OldOrAsked(codec, s.rooms, HandleExit(codec, s, e.fd).rooms, e)
  {
  }

  lemma StepAsks(codec: Codec, s: State, e: Event)
    ensures OldOrAsked(codec, s.rooms, Step(codec, s, e).rooms, e)
  {
    if e.Handle? {
      if e.packet.ptype == CREATE_ROOM {
        CreateAsks(codec, s, e);
      } else if e.packet.ptype == JOIN_ROOM {
        JoinAsksNothing(codec, s, e, e.packet.payload);
      } else if e.packet.ptype == EXIT_ROOM {
        ExitAsksNothing(codec, s, e);
      }
    }
  }

  /** On every run each room is as some handled CREATE_ROOM asked for it, under a code
      spelt from that handler's first hundred draws. */
  lemma {:induction false} RoomsAreAsAsked(codec: Codec, events: seq<Event>, code: string) returns (i: nat)
    requires code in Run(codec, events).rooms
    ensures i < |events| && AskedBy(codec, code, Run(codec, events).rooms[code], events[i])
  {
    var before, e := events[..|events| - 1], events[|events| - 1];
    StepAsks(codec, Run(codec, before), e);
    if AskedBy(codec, code, Run(codec, events).rooms[code], e) {
      i := |events| - 1;
    } else {
      i := RoomsAreAsAsked(codec, before, code);
      assert before[i] == events[i];
    }
  }
}
