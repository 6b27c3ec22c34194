/** The server object: its handlers are written the way the program writes them,
    against the managers' objects, and proved to be the handlers on values. */
module ChatServer {
  import opened Protocol
  import opened Framing
  import opened Rooms
  import opened RoomManagement
  import opened Clients
  import opened ClientManagement
  import opened Payloads
  import opened Handlers
  import opened TaskQueue
  import opened Pipeline

  lemma {:induction false} FanOutOneMore(fds: seq<int>, packet: Packet, exclude: int, fd: int)
    ensures FanOut(fds + [fd], packet, exclude)
         == FanOut(fds, packet, exclude) + if fd != exclude then [Sent(fd, packet)] else []
  {
    if fds == [] {
      assert [] + [fd] == [fd] && [fd][1..] == [];
    } else {
      assert (fds + [fd])[1..] == fds[1..] + [fd];
      FanOutOneMore(fds[1..], packet, exclude, fd);
      if fds[0] != exclude {
        Associative([Sent(fds[0], packet)], FanOut(fds[1..], packet, exclude),
                    if fd != exclude then [Sent(fd, packet)] else []);
      }
    }
  }

  class Server {
    const codec: Codec
    const host: Host
    const clients: ClientManager
    const rooms: RoomManager
    const receiver: PacketReceiver
    const pool: ThreadPool<Task>
    var out: seq<Sent> // the packets handed to the sender
    ghost var claims: seq<Claim>

    constructor (codec: Codec, host: Host)
      ensures Valid() && fresh(clients) && fresh(rooms) && fresh(pool.tasks)
      ensures this.codec == codec && StateOf() == INITIAL && Follows([])
      ensures clients.clients == map[] && rooms.rooms == map[]
    {
      this.codec, this.host := codec, host;
      var clientManager := new ClientManager();
      clients := clientManager;
      rooms := new RoomManager();
      receiver := new PacketReceiver(clientManager);
      pool := new ThreadPool<Task>();
      out := [];
      claims := [];
    }

    ghost predicate Valid()
      reads this, clients, clients.clients.Values, rooms, rooms.rooms.Values, pool.tasks
    {
      clients.Valid() && rooms.Valid() && receiver.clients == clients && pool.tasks.Valid()
    }

    /** The state the handlers work on. */
    ghost function StateOf(): (s': State)
      reads this, clients, clients.clients.Values, rooms, rooms.rooms.Values
    {
      State(clients.View(), clients.nicknames, rooms.View(), out)
    }

    /** The receive buffers and the queue. */
    ghost function IntakeOf(): (q': Intake)
      reads this, clients, clients.clients.Values, pool.tasks
    {
      Intake(clients.Buffers(), Pool(pool.tasks.queue, pool.tasks.pushed, claims))
    }

    method SendPacket(fd: int, packet: Packet)
      requires Valid()
      modifies this`out
      ensures Valid() && StateOf() == Reply(old(StateOf()), fd, packet)
    {
      out := out + [Sent(fd, packet)];
      clients.Same();
      rooms.Same();
    }

    method BroadcastPacketForRoom(packet: Packet, roomCode: string, excludeFd: int)
      requires Valid()
      modifies this`out
      ensures Valid() && StateOf() == Broadcast(old(StateOf()), packet, roomCode, excludeFd)
    {
      var room := rooms.GetRoom(roomCode);
      if room == null {
        assert out + [] == out;
        return;
      }
      SendToEach(room.clients, packet, excludeFd);
      clients.Same();
      rooms.Same();
    }

    method SendToEach(fds: seq<int>, packet: Packet, excludeFd: int)
      modifies this`out
      ensures out == old(out) + FanOut(fds, packet, excludeFd)
    {
      var i := 0;
      while i < |fds|
        invariant 0 <= i <= |fds|
        invariant out == old(out) + FanOut(fds[..i], packet, excludeFd)
      {
        FanOutOneMore(fds[..i], packet, excludeFd, fds[i]);
        assert fds[..i + 1] == fds[..i] + [fds[i]];
        ghost var soFar := FanOut(fds[..i], packet, excludeFd);
        if fds[i] != excludeFd {
          Associative(old(out), soFar, [Sent(fds[i], packet)]);
          out := out + [Sent(fds[i], packet)];
        } else {
          assert soFar + [] == soFar;
        }
        i := i + 1;
      }
      assert fds[..|fds|] == fds;
    }

    // ----- the managers' operations, seen on the whole state -----

    method AddRoom(roomName: string, maxUsers: int32, draws: Draws) returns (roomCode: string)
      requires Valid()
      modifies rooms
      ensures Valid() && fresh(rooms.rooms.Values - old(rooms.rooms.Values))
      ensures StateOf() == old(StateOf()).(rooms := rooms.View())
      ensures (rooms.View(), roomCode) == Rooms.AddRoom(old(rooms.View()), roomName, maxUsers, draws)
    {
      roomCode := rooms.AddRoom(roomName, maxUsers, draws);
      clients.Same();
    }

    method JoinRoom(fd: int, roomCode: string) returns (joined: bool)
      requires Valid()
      modifies rooms.rooms.Values
      ensures Valid() && rooms.rooms == old(rooms.rooms)
      ensures var (rooms', ok) := Rooms.JoinRoom(old(StateOf()).rooms, fd, roomCode);
              StateOf() == old(StateOf()).(rooms := rooms') && joined == ok
    {
      joined := rooms.JoinRoom(fd, roomCode);
      clients.Same();
    }

    method LeaveRoom(fd: int, roomCode: string)
      requires Valid()
      modifies rooms, rooms.rooms.Values
      ensures Valid() && rooms.rooms.Values <= old(rooms.rooms.Values)
      ensures StateOf() == old(StateOf()).(rooms := Rooms.LeaveRoom(old(StateOf()).rooms, fd, roomCode))
    {
      rooms.LeaveRoom(fd, roomCode);
      clients.Same();
    }

    method WriteRoomCode(fd: int, client: ClientInfo, roomCode: string)
      requires Valid() && fd in clients.clients && client == clients.clients[fd]
      modifies client`roomCode
      ensures Valid() && StateOf() == old(StateOf()).(clients := SetRoomCode(old(StateOf()).clients, fd, roomCode))
    {
      clients.WriteRoomCode(fd, client, roomCode);
      rooms.Same();
    }

    method SetNickname(fd: int, nickname: string)
      requires Valid()
      modifies clients`nicknames, clients.clients.Values`nickname, clients.clients.Values`isAuthenticated
      ensures Valid() && clients.clients == old(clients.clients)
      ensures var (clients', nicknames') := Clients.SetNickname(old(StateOf()).clients, old(StateOf()).nicknames, fd,
          nickname);
              StateOf() == old(StateOf()).(clients := clients', nicknames := nicknames')
    {
      clients.SetNickname(fd, nickname);
      rooms.Same();
    }

    // ----- the handlers -----

    method HandleCreateRoom(fd: int, packet: Packet, draws: Draws)
      requires Valid()
      modifies this`out, rooms, rooms.rooms.Values, clients.clients.Values`roomCode
      ensures Valid() && fresh(rooms.rooms.Values - old(rooms.rooms.Values))
      ensures StateOf() == HandleCreate(codec, old(StateOf()), fd, packet.payload, draws)
    {
      var response: Packet;
      match codec.create(packet.payload) {
        case NoRoomName =>
          SendPacket(fd, Fail(codec, ROOM_CREATE_FAIL, NO_ROOM_NAME));
          return;
        case NoMaxUsers =>
          SendPacket(fd, Fail(codec, ROOM_CREATE_FAIL, NO_MAX_USERS));
          return;
        case Create(roomName, maxUsers) =>
          var roomCode := AddRoom(roomName, maxUsers, draws);
          if roomCode == "" {
            response := Fail(codec, ROOM_CREATE_FAIL, NO_ROOM_LEFT);
          } else {
            PutCreatorIn(fd, roomCode);
            response := CreateOk(codec, roomCode);
          }
        case CreateMalformed(what) =>
          response := Failure(codec, ROOM_CREATE_FAIL, what);
      }
      SendPacket(fd, response);
    }

    /** The creator, if still connected, joins the new room. */
    method PutCreatorIn(fd: int, roomCode: string)
      requires Valid()
      modifies rooms.rooms.Values, clients.clients.Values`roomCode
      ensures Valid() && rooms.rooms == old(rooms.rooms)
      ensures var s := old(StateOf());
              var (rooms', joined) := Rooms.JoinRoom(s.rooms, fd, roomCode);
              StateOf() == if fd !in s.clients then s
                           else s.(rooms := rooms', clients := if joined then SetRoomCode(s.clients, fd,
                               roomCode) else s.clients)
    {
      var client := clients.GetClient(fd);
      if client != null {
        var joined := JoinRoom(fd, roomCode);
        if joined {
          WriteRoomCode(fd, client, roomCode);
        }
      }
    }

    method HandleJoinRoom(fd: int, packet: Packet)
      requires Valid()
      modifies this`out, rooms.rooms.Values, clients.clients.Values`roomCode
      ensures Valid() && rooms.rooms == old(rooms.rooms)
      ensures StateOf() == HandleJoin(codec, old(StateOf()), fd, packet.payload)
    {
      match codec.join(packet.payload) {
        case NoRoomCode =>
          SendPacket(fd, Fail(codec, ROOM_JOIN_FAIL, NO_ROOM_CODE));
          return;
        case Join(roomCode) =>
          var client := clients.GetClient(fd);
          if client == null {
            SendPacket(fd, Fail(codec, ROOM_JOIN_FAIL, NO_CLIENT));
            return;
          }
          if client.roomCode != "" {
            SendPacket(fd, Fail(codec, ROOM_JOIN_FAIL, ALREADY_IN_A_ROOM));
            return;
          }
          TryToEnter(fd, client, roomCode);
        case JoinMalformed(what) =>
          SendPacket(fd, Failure(codec, ROOM_JOIN_FAIL, what));
      }
    }

    method TryToEnter(fd: int, client: ClientInfo, roomCode: string)
      requires Valid() && fd in clients.clients && client == clients.clients[fd]
      modifies this`out, rooms.rooms.Values, client`roomCode
      ensures Valid() && rooms.rooms == old(rooms.rooms)
      ensures StateOf() == EnterRoom(codec, old(StateOf()), fd, roomCode)
    {
      var success := JoinRoom(fd, roomCode);
      if !success {
        RefusedJoinChangesNothing(old(StateOf()).rooms, fd, roomCode);
        SendPacket(fd, Fail(codec, ROOM_JOIN_FAIL, CANNOT_JOIN));
        return;
      }
      Arrive(fd, client, roomCode);
      SendPacket(fd, JoinOk(codec, roomCode));
    }

    /** A joined client's record is written and the others in the room are told. */
    method Arrive(fd: int, client: ClientInfo, roomCode: string)
      requires Valid() && fd in clients.clients && client == clients.clients[fd]
      modifies this`out, client`roomCode
      ensures Valid()
      ensures var s := old(StateOf()).(clients := SetRoomCode(old(StateOf()).clients, fd, roomCode));
              StateOf() == Broadcast(s, UserJoin(codec, fd, old(client.nickname)), roomCode, fd)
    {
      WriteRoomCode(fd, client, roomCode);
      BroadcastPacketForRoom(UserJoin(codec, fd, client.nickname), roomCode, fd);
    }

    method HandleExitRoom(fd: int)
      requires Valid()
      modifies this`out, rooms, rooms.rooms.Values, clients.clients.Values`roomCode
      ensures Valid() && rooms.rooms.Values <= old(rooms.rooms.Values)
      ensures StateOf() == HandleExit(codec, old(StateOf()), fd)
    {
      var client := clients.GetClient(fd);
      if client == null {
        SendPacket(fd, Fail(codec, ROOM_EXIT_FAIL, NO_CLIENT));
        return;
      }
      if client.roomCode == "" {
        SendPacket(fd, Fail(codec, ROOM_EXIT_FAIL, NOT_IN_A_ROOM));
        return;
      }
      Depart(fd, client);
      SendPacket(fd, Packet(ROOM_EXIT_OK, []));
    }

    /** The others are told, the room lets the client go, and its record is cleared. */
    method Depart(fd: int, client: ClientInfo)
      requires Valid() && fd in clients.clients && client == clients.clients[fd]
      modifies this`out, rooms, rooms.rooms.Values, client`roomCode
      ensures Valid() && rooms.rooms.Values <= old(rooms.rooms.Values)
      ensures var s, code := old(StateOf()), old(client.roomCode);
              StateOf() == Broadcast(s, UserExit(codec, fd, old(client.nickname)), code, fd)
                           .(rooms := Rooms.LeaveRoom(s.rooms, fd, code), clients := SetRoomCode(s.clients, fd, ""))
    {
      var roomCode := client.roomCode;
      BroadcastPacketForRoom(UserExit(codec, fd, client.nickname), roomCode, fd);
      LeaveRoom(fd, roomCode);
      WriteRoomCode(fd, client, "");
    }

    method HandleChat(fd: int, packet: Packet, now: string)
      requires Valid()
      modifies this`out
      ensures Valid() && StateOf() == HandleMessage(codec, old(StateOf()), fd, packet.payload, now)
    {
      var sender := clients.GetClient(fd);
      if sender == null || !sender.isAuthenticated {
        return;
      }
      if sender.roomCode == "" {
        return;
      }
      match codec.message(packet.payload) {
        case None =>
        case Some(message) =>
          var text := codec.chatText(Chat(fd, sender.ip, sender.nickname, message, now));
          if |text| <= MAX_PAYLOAD_SIZE {
            BroadcastPacketForRoom(Packet(MESSAGE_CHAT, text), sender.roomCode, fd);
          }
      }
    }

    method HandleNicknameRequest(fd: int, packet: Packet)
      requires Valid()
      modifies this`out
      modifies clients`nicknames, clients.clients.Values`nickname, clients.clients.Values`isAuthenticated
      ensures Valid() && clients.clients == old(clients.clients)
      ensures StateOf() == HandleNickname(codec, old(StateOf()), fd, packet.payload)
    {
      var response: Packet;
      match codec.nickname(packet.payload) {
        case NoNickname =>
          SendPacket(fd, Fail(codec, NICKNAME_RESPONSE_FAIL, NO_NICKNAME));
          return;
        case Nickname(nickname) =>
          var taken := clients.IsNicknameTaken(nickname);
          if taken {
            response := Fail(codec, NICKNAME_RESPONSE_FAIL, DUPLICATED_NICKNAME);
          } else {
            SetNickname(fd, nickname);
            response := Packet(NICKNAME_RESPONSE_OK, []);
          }
        case NicknameMalformed(what) =>
          response := Failure(codec, NICKNAME_RESPONSE_FAIL, what);
      }
      SendPacket(fd, response);
    }

    /** PacketHandler::handle: the handler registered for the type, if any. */
    method Handle(fd: int, packet: Packet, env: Env)
      requires Valid()
      modifies this`out, rooms, rooms.rooms.Values, clients.clients.Values`roomCode
      modifies clients`nicknames, clients.clients.Values`nickname, clients.clients.Values`isAuthenticated
      ensures Valid() && fresh(rooms.rooms.Values - old(rooms.rooms.Values))
      ensures StateOf() == HandlePacket(codec, old(StateOf()), fd, packet, env)
      ensures clients.clients == old(clients.clients)
    {
      if packet.ptype == NICKNAME_REQUEST {
        HandleNicknameRequest(fd, packet);
      } else if packet.ptype == MESSAGE_SEND {
        HandleChat(fd, packet, env.now);
      } else if packet.ptype == CREATE_ROOM {
        HandleCreateRoom(fd, packet, env.draws);
      } else if packet.ptype == JOIN_ROOM {
        HandleJoinRoom(fd, packet);
      } else if packet.ptype == EXIT_ROOM {
        HandleExitRoom(fd);
      }
    }

    // ----- the input thread and the workers -----

    /** What accept returned, if it is a valid connection; `added` says whether the
        descriptor could be watched. */
    method AcceptNewConnection(connection: Option<(int, string)>, added: bool)
      requires Valid()
      modifies clients`clients
      ensures Valid() && fresh(clients.clients.Values - old(clients.clients.Values))
      ensures connection.Some? && added ==>
              var (fd, ip) := connection.value;
              StateOf() == Step(codec, old(StateOf()), Accept(fd, ip)) && IntakeOf()
                  == TakeIn(old(IntakeOf()), Connect(fd, ip))
      ensures !(connection.Some? && added) ==> StateOf() == old(StateOf()) && IntakeOf() == old(IntakeOf())
    {
      if connection == None || !added {
        return;
      }
      var (fd, ip) := connection.value;
      clients.AddClient(fd, ip);
      rooms.Same();
    }

    method CloseConnection(fd: int)
      requires Valid()
      modifies clients
      ensures Valid() && clients.clients.Values <= old(clients.clients.Values)
      ensures StateOf() == Step(codec, old(StateOf()), Close(fd))
      ensures IntakeOf() == old(IntakeOf()).(buffers := old(IntakeOf()).buffers - {fd})
    {
      var client := clients.GetClient(fd);
      if client != null {
        clients.RemoveClient(fd);
      } else {
        assert clients.Buffers() - {fd} == clients.Buffers();
      }
      rooms.Same();
    }

    /** A descriptor is readable: parse and queue what arrived, or close. */
    method HandleEvent(fd: int, arrived: Bytes)
      requires Valid() && |arrived| <= RECV_BUFFER_SIZE
      requires fd in clients.clients ==> Bounded(clients.clients[fd].recvBuffer + arrived)
      modifies clients, clients.clients.Values`recvBuffer, pool.tasks
      ensures Valid() && clients.clients.Values <= old(clients.clients.Values)
      ensures IntakeOf() == TakeIn(old(IntakeOf()), Readable(fd, arrived))
      ensures var events := EventOf(old(IntakeOf()), Readable(fd, arrived));
              StateOf() == if events == [] then old(StateOf()) else Step(codec, old(StateOf()), events[0])
    {
      var success, packets := receiver.ReceiveAndParse(host, fd, arrived);
      rooms.Same();
      EnqueueAll(fd, packets);
      if !success {
        CloseConnection(fd);
      }
    }

    method EnqueueAll(fd: int, packets: seq<Packet>)
      requires Valid()
      modifies pool.tasks
      ensures Valid() && clients.Buffers() == old(clients.Buffers()) && StateOf() == old(StateOf())
      ensures IntakeOf() == old(IntakeOf()).(pool := PushAll(old(IntakeOf()).pool, fd, packets))
    {
      ghost var before := IntakeOf().pool;
      var i := 0;
      while i < |packets|
        invariant 0 <= i <= |packets| && pool.tasks.Valid()
        invariant PushAll(Pool(pool.tasks.queue, pool.tasks.pushed, claims), fd, packets[i..])
            == PushAll(before, fd, packets)
      {
        pool.Enqueue(Task(fd, packets[i]));
        assert packets[i..][1..] == packets[i + 1..];
        i := i + 1;
      }
      clients.Same();
      rooms.Same();
    }

    method ClaimTask(worker: int) returns (task: Task)
      requires Valid() && pool.tasks.queue != []
      modifies this`claims, pool.tasks
      ensures Valid() && task == old(pool.tasks.queue)[0] && StateOf() == old(StateOf())
      ensures IntakeOf() == old(IntakeOf()).(pool := TakeTurn(old(IntakeOf()).pool, Pop(worker)))
    {
      task := pool.tasks.WaitAndPop();
      claims := claims + [Claim(worker, task)];
      clients.Same();
      rooms.Same();
    }

    twostate lemma HandlersKeepIntake()
      requires claims == old(claims) && unchanged(pool.tasks) && clients.clients == old(clients.clients)
      requires forall k :: k in clients.clients ==> clients.clients[k].recvBuffer == old(clients.clients[k].recvBuffer)
      ensures IntakeOf() == old(IntakeOf())
    {
      forall k | k in clients.clients
        ensures clients.Buffers()[k] == old(clients.Buffers())[k]
      {
        assert clients.clients[k].recvBuffer == old(clients.clients[k].recvBuffer);
      }
      assert clients.Buffers().Keys == old(clients.Buffers()).Keys;
    }

    /** A worker's turn on a queue that is not empty. */
    method RunTask(worker: int, env: Env)
      requires Valid() && pool.tasks.queue != []
      modifies this, pool.tasks, rooms, rooms.rooms.Values, clients.clients.Values`roomCode
      modifies clients`nicknames, clients.clients.Values`nickname, clients.clients.Values`isAuthenticated
      ensures Valid() && fresh(rooms.rooms.Values - old(rooms.rooms.Values))
      ensures IntakeOf() == TakeIn(old(IntakeOf()), Work(worker, env))
      ensures StateOf() == Step(codec, old(StateOf()), EventOf(old(IntakeOf()), Work(worker, env))[0])
    {
      var task := ClaimTask(worker);
      label Claimed:
      Handle(task.fd, task.packet, env);
      HandlersKeepIntake@Claimed();
    }

    // ----- whole runs -----

    method WorkerTurn(worker: int, env: Env)
      requires Valid()
      modifies this, pool.tasks, rooms, rooms.rooms.Values, clients, clients.clients.Values
      ensures Valid() && fresh(rooms.rooms.Values - old(rooms.rooms.Values))
      ensures clients.clients.Values <= old(clients.clients.Values)
      ensures Performed(Work(worker, env), old(StateOf()), old(IntakeOf()))
    {
      if pool.tasks.queue != [] {
        RunTask(worker, env);
      }
    }

    /** The object after an action, against the object before. */
    ghost predicate Performed(a: Action, s: State, q: Intake)
      reads this, clients, clients.clients.Values, rooms, rooms.rooms.Values, pool.tasks
    {
      && IntakeOf() == TakeIn(q, a)
      && StateOf() == if EventOf(q, a) == [] then s else Step(codec, s, EventOf(q, a)[0])
    }

    method Perform(a: Action)
      requires Valid() && Receivable(IntakeOf(), a)
      modifies this, pool.tasks, rooms, rooms.rooms.Values, clients, clients.clients.Values
      ensures Valid() && fresh(rooms.rooms.Values - old(rooms.rooms.Values))
      ensures fresh(clients.clients.Values - old(clients.clients.Values))
      ensures Performed(a, old(StateOf()), old(IntakeOf()))
    {
      match a
      case Connect(fd, ip) => AcceptNewConnection(Some((fd, ip)), true);
      case Readable(fd, arrived) => HandleEvent(fd, arrived);
      case Work(worker, env) => WorkerTurn(worker, env);
    }

    /** The objects stand where the run of these actions ends. */
    ghost predicate Follows(actions: seq<Action>)
      reads this, clients, clients.clients.Values, rooms, rooms.rooms.Values, pool.tasks
    {
      Valid() && StateOf() == Run(codec, Events(actions)) && IntakeOf() == Taken(actions)
    }

    method PerformNext(actions: seq<Action>, i: nat)
      requires i < |actions| && AllReceivable(actions) && Follows(actions[..i])
      modifies this, pool.tasks, rooms, rooms.rooms.Values, clients, clients.clients.Values
      ensures Follows(actions[..i + 1])
      ensures fresh(rooms.rooms.Values - old(rooms.rooms.Values))
      ensures fresh(clients.clients.Values - old(clients.clients.Values))
    {
      ReceivableAt(actions, i);
      ActionsTo(codec, actions, i);
      Perform(actions[i]);
    }

    /** From its construction on, the server's objects follow the run of their actions. */
    method RunActions(actions: seq<Action>)
      requires Follows([]) && AllReceivable(actions)
      modifies this, pool.tasks, rooms, rooms.rooms.Values, clients, clients.clients.Values
      ensures Follows(actions)
    {
      var i := 0;
      while i < |actions|
        invariant 0 <= i <= |actions| && Follows(actions[..i])
        invariant fresh(rooms.rooms.Values - old(rooms.rooms.Values))
        invariant fresh(clients.clients.Values - old(clients.clients.Values))
      {
        PerformNext(actions, i);
        i := i + 1;
      }
      assert actions[..|actions|] == actions;
    }
  }

  /** A new server, and any run of it. */
  method Serve(codec: Codec, host: Host, actions: seq<Action>) returns (server: Server)
    requires AllReceivable(actions)
    ensures fresh(server) && server.codec == codec && server.Follows(actions)
  {
    server := new Server(codec, host);
    server.RunActions(actions);
  }
}
