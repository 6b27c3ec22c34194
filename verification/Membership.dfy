/** Who is in which room is recorded twice, in the room and in the client. This
    module settles, for every run of whole handlers, how the two records relate. */
module Membership {
  import Counting
  import opened Protocol
  import opened Rooms
  import opened Clients
  import opened Payloads
  import opened Handlers

  /** The client's own record names the room. */
  ghost predicate Live(clients: ClientMap, fd: int, code: string) {
    code != "" && RoomOf(clients, fd) == code
  }

  /** The memberships a step leaves behind in the room's list: the client closed
      while in the room, or its record moved on to a room it created. */
  function LeftBehindBy(codec: Codec, s: State, e: Event): (pairs: set<(int, string)>) {
    var code := RoomOf(s.clients, e.fd);
    if code == "" then {}
    else if e.Close? then {(e.fd, code)}
    else if e.Handle? && e.packet.ptype == CREATE_ROOM && RoomOf(Step(codec, s, e).clients, e.fd) != code
    then {(e.fd, code)}
    else {}
  }

  function LeftBehind(codec: Codec, events: seq<Event>): (pairs: set<(int, string)>) {
    if events == [] then {}
    else
      var before := events[..|events| - 1];
      LeftBehind(codec, before) + LeftBehindBy(codec, Run(codec, before), events[|events| - 1])
  }

  /** Every membership is live or left behind, never both, and nothing else is. */
  ghost predicate Accounted(s: State, left: set<(int, string)>) {
    && RoomsOk(s.rooms)
    && (forall fd, code :: In(s.rooms, fd, code) <==> Live(s.clients, fd, code) || (fd, code) in left)
    && (forall fd, code :: Live(s.clients, fd, code) ==> (fd, code) !in left)
  }

  // ----- what one step does to the memberships -----

  /** The four ways a step can change who is where: not at all, its client enters
      a room, its client leaves its room, or its client's record is dropped. */
  datatype Move = Stay | Enter(code: string) | Leave(code: string) | Drop

  /** What the move of one client does to both records. */
  ghost predicate Moves(clients: ClientMap, rooms: RoomMap, clients': ClientMap, rooms': RoomMap, fd: int, m: Move) {
    && RoomsOk(rooms')
    && (forall x :: x != fd ==> RoomOf(clients', x) == RoomOf(clients, x))
    && (match m
        case Stay => RoomOf(clients', fd) == RoomOf(clients, fd)
        case Enter(code) => code != "" && !In(rooms, fd, code) && RoomOf(clients', fd) == code
        case Leave(code) => code != "" && RoomOf(clients, fd) == code && RoomOf(clients', fd) == ""
        case Drop => RoomOf(clients', fd) == "")
    && (forall x, c :: In(rooms', x, c) <==>
                       (In(rooms, x, c) && !(x == fd && m == Leave(c))) || (x == fd && m == Enter(c)))
    && (forall c :: c in rooms ==> (c !in rooms' <==> m == Leave(c) && OnlyMember(rooms, fd, c)))
  }

  ghost predicate OnlyMember(rooms: RoomMap, fd: int, code: string) {
    forall x :: In(rooms, x, code) ==> x == fd
  }

  lemma Unmoved(clients: ClientMap, rooms: RoomMap, clients': ClientMap, fd: int)
    requires RoomsOk(rooms)
    requires forall x :: RoomOf(clients', x) == RoomOf(clients, x)
    ensures Moves(clients, rooms, clients', rooms, fd, Stay)
  {
  }

  lemma AddRoomMoves(clients: ClientMap, rooms: RoomMap, fd: int, name: string, maxUsers: int32, draws: Draws)
    requires RoomsOk(rooms)
    ensures Moves(clients, rooms, clients, AddRoom(rooms, name, maxUsers, draws).0, fd, Stay)
  {
    AddRoomKeeps(rooms, name, maxUsers, draws);
  }

  lemma JoinRoomMoves(clients: ClientMap, rooms: RoomMap, fd: int, code: string)
    requires RoomsOk(rooms)
    requires fd in clients
    ensures var (rooms', joined) := JoinRoom(rooms, fd, code);
            && rooms'.Keys == rooms.Keys
            && (!joined ==> rooms' == rooms)
            && (joined ==> Moves(clients, rooms, SetRoomCode(clients, fd, code), rooms', fd, Enter(code)))
  {
    JoinRoomKeeps(rooms, fd, code);
    if code in rooms {
      assert RoomOk(code, rooms[code]);
    }
  }

  lemma StayThenEnter(clients: ClientMap, rooms: RoomMap, rooms': RoomMap, clients'': ClientMap, rooms'': RoomMap,
                      fd: int, code: string)
    requires Moves(clients, rooms, clients, rooms', fd, Stay)
    requires Moves(clients, rooms', clients'', rooms'', fd, Enter(code))
    ensures Moves(clients, rooms, clients'', rooms'', fd, Enter(code))
  {
  }

  lemma EmptyRoomTakes(rooms: RoomMap, room: RoomView, fd: int, code: string)
    requires room.members == []
    ensures JoinRoom(rooms[code := room], fd, code).1 <==> room.maxUsers != 0
  {
    assert AsSize(room.maxUsers) == 0 <==> room.maxUsers == 0;
  }

  /** A new room takes its creator unless it has no place at all. */
  lemma CreatorJoins(rooms: RoomMap, fd: int, name: string, maxUsers: int32, draws: Draws)
    ensures var (added, code) := AddRoom(rooms, name, maxUsers, draws);
            && (code == "" ==> added == rooms)
            && (code != "" ==> added.Keys == rooms.Keys + {code} && (JoinRoom(added, fd, code).1 <==> maxUsers != 0))
  {
    AddRoomPicks(rooms, name, maxUsers, draws);
    var code := AddRoom(rooms, name, maxUsers, draws).1;
    EmptyRoomTakes(rooms, RoomView(code, name, maxUsers, []), fd, code);
  }

  lemma CreateRoomMoves(clients: ClientMap, rooms: RoomMap, fd: int, name: string, maxUsers: int32, draws: Draws)
    returns (m: Move)
    requires RoomsOk(rooms)
    ensures var (clients', rooms', code) := CreateRoom(clients, rooms, fd, name, maxUsers, draws);
            && Moves(clients, rooms, clients', rooms', fd, m)
            && (m.Stay? || m.Enter?)
            && (code == "" ==> clients' == clients && rooms' == rooms)
            && (fd in clients && maxUsers != 0 ==> forall c :: c in rooms' && c !in rooms ==> m == Enter(c))
  {
    AddRoomMoves(clients, rooms, fd, name, maxUsers, draws);
    CreatorJoins(rooms, fd, name, maxUsers, draws);
    var (added, code) := AddRoom(rooms, name, maxUsers, draws);
    if code == "" || fd !in clients {
      return Stay;
    }
    JoinRoomMoves(clients, added, fd, code);
    var (rooms', joined) := JoinRoom(added, fd, code);
    if !joined {
      return Stay;
    }
    StayThenEnter(clients, rooms, added, SetRoomCode(clients, fd, code), rooms', fd, code);
    return Enter(code);
  }

  lemma LeaveRoomMoves(clients: ClientMap, rooms: RoomMap, fd: int)
    requires RoomsOk(rooms)
    requires fd in clients && clients[fd].roomCode != ""
    ensures var code := clients[fd].roomCode;
            && Moves(clients, rooms, SetRoomCode(clients, fd, ""), LeaveRoom(rooms, fd, code), fd, Leave(code))
            && LeaveRoom(rooms, fd, code).Keys <= rooms.Keys
  {
    LeaveRoomKeeps(rooms, fd, clients[fd].roomCode);
  }

  /** The move of a step between two states. */
  ghost predicate StepIs(s: State, s': State, fd: int, m: Move) {
    Moves(s.clients, s.rooms, s'.clients, s'.rooms, fd, m)
  }

  lemma CreateMoves(codec: Codec, s: State, fd: int, payload: Bytes, draws: Draws) returns (m: Move)
    requires RoomsOk(s.rooms)
    ensures StepIs(s, HandleCreate(codec, s, fd, payload, draws), fd, m)
    ensures m.Stay? || m.Enter?
    ensures codec.create(payload).Create? && fd in s.clients && codec.create(payload).maxUsers != 0 ==>
            forall c :: c in HandleCreate(codec, s, fd, payload, draws).rooms && c !in s.rooms ==> m == Enter(c)
    ensures !codec.create(payload).Create? ==> HandleCreate(codec, s, fd, payload, draws).rooms == s.rooms
  {
    m := Stay;
    Unmoved(s.clients, s.rooms, s.clients, fd);
    match codec.create(payload)
    case Create(name, maxUsers) => m := CreateRoomMoves(s.clients, s.rooms, fd, name, maxUsers, draws);
    case _ =>
  }

  lemma JoinMoves(codec: Codec, s: State, fd: int, payload: Bytes) returns (m: Move)
    requires RoomsOk(s.rooms)
    ensures StepIs(s, HandleJoin(codec, s, fd, payload), fd, m)
    ensures m.Stay? || (m.Enter? && RoomOf(s.clients, fd) == "")
    ensures HandleJoin(codec, s, fd, payload).rooms.Keys == s.rooms.Keys
  {
    m := Stay;
    Unmoved(s.clients, s.rooms, s.clients, fd);
    match codec.join(payload)
    case Join(code) =>
      if fd in s.clients && s.clients[fd].roomCode == "" {
        JoinRoomMoves(s.clients, s.rooms, fd, code);
        m := if JoinRoom(s.rooms, fd, code).1 then Enter(code) else Stay;
      }
    case _ =>
  }

  lemma ExitMoves(codec: Codec, s: State, fd: int)
    requires RoomsOk(s.rooms)
    ensures var code := RoomOf(s.clients, fd);
            StepIs(s, HandleExit(codec, s, fd), fd, if code == "" then Stay else Leave(code))
    ensures HandleExit(codec, s, fd).rooms.Keys <= s.rooms.Keys
  {
    Unmoved(s.clients, s.rooms, s.clients, fd);
    if RoomOf(s.clients, fd) != "" {
      LeaveRoomMoves(s.clients, s.rooms, fd);
    }
  }

  lemma NicknameStays(codec: Codec, s: State, fd: int, payload: Bytes)
    ensures var s' := HandleNickname(codec, s, fd, payload);
            s'.rooms == s.rooms && forall x :: RoomOf(s'.clients, x) == RoomOf(s.clients, x)
  {
  }

  lemma MessageStays(codec: Codec, s: State, fd: int, payload: Bytes, now: string)
    ensures HandleMessage(codec, s, fd, payload, now) == s.(out := HandleMessage(codec, s, fd, payload, now).out)
  {
  }

  lemma AcceptStays(clients: ClientMap, fd: int, ip: string)
    requires fd !in clients
    ensures forall x :: RoomOf(AddClient(clients, fd, ip), x) == RoomOf(clients, x)
  {
  }

  lemma CloseDrops(clients: ClientMap, nicknames: set<string>, rooms: RoomMap, fd: int)
    requires RoomsOk(rooms)
    ensures Moves(clients, rooms, RemoveClient(clients, nicknames, fd).0, rooms, fd, Drop)
  {
  }

  lemma ConnectionMoves(codec: Codec, s: State, e: Event)
    requires RoomsOk(s.rooms)
    requires !e.Handle? && Legal(s, e)
    ensures Step(codec, s, e).rooms == s.rooms
    ensures StepIs(s, Step(codec, s, e), e.fd, if e.Close? then Drop else Stay)
  {
    match e
    case Accept(fd, ip) =>
      AcceptStays(s.clients, fd, ip);
      Unmoved(s.clients, s.rooms, AddClient(s.clients, fd, ip), fd);
    case Close(fd) =>
      CloseDrops(s.clients, s.nicknames, s.rooms, fd);
  }

  lemma OtherPacketStays(codec: Codec, s: State, fd: int, packet: Packet, env: Env)
    requires packet.ptype !in {CREATE_ROOM, JOIN_ROOM, EXIT_ROOM}
    ensures var s' := HandlePacket(codec, s, fd, packet, env);
            s'.rooms == s.rooms && forall x :: RoomOf(s'.clients, x) == RoomOf(s.clients, x)
  {
    if packet.ptype == NICKNAME_REQUEST {
      NicknameStays(codec, s, fd, packet.payload);
    } else if packet.ptype == MESSAGE_SEND {
      MessageStays(codec, s, fd, packet.payload, env.now);
    }
  }

  lemma HandlerMoves(codec: Codec, s: State, e: Event) returns (m: Move)
    requires RoomsOk(s.rooms)
    requires e.Handle?
    ensures StepIs(s, Step(codec, s, e), e.fd, m)
    ensures !m.Drop?
    ensures m.Leave? <==> e.packet.ptype == EXIT_ROOM && RoomOf(s.clients, e.fd) != ""
    ensures m.Enter? && RoomOf(s.clients, e.fd) != "" ==> e.packet.ptype == CREATE_ROOM
    ensures Clean(codec, s, e) ==> forall c :: c in Step(codec, s, e).rooms && c !in s.rooms ==> m == Enter(c)
  {
    var fd, payload := e.fd, e.packet.payload;
    if e.packet.ptype == CREATE_ROOM {
      m := CreateMoves(codec, s, fd, payload, e.env.draws);
    } else if e.packet.ptype == JOIN_ROOM {
      m := JoinMoves(codec, s, fd, payload);
    } else if e.packet.ptype == EXIT_ROOM {
      ExitMoves(codec, s, fd);
      m := if RoomOf(s.clients, fd) == "" then Stay else Leave(RoomOf(s.clients, fd));
    } else {
      m := Stay;
      OtherPacketStays(codec, s, fd, e.packet, e.env);
      Unmoved(s.clients, s.rooms, Step(codec, s, e).clients, fd);
    }
  }

  lemma StepMoves(codec: Codec, s: State, e: Event) returns (m: Move)
    requires RoomsOk(s.rooms)
    requires Legal(s, e)
    ensures StepIs(s, Step(codec, s, e), e.fd, m)
    ensures m.Drop? <==> e.Close?
    ensures m.Leave? <==> e.Handle? && e.packet.ptype == EXIT_ROOM && RoomOf(s.clients, e.fd) != ""
    ensures m.Enter? && RoomOf(s.clients, e.fd) != "" ==> e.Handle? && e.packet.ptype == CREATE_ROOM
    ensures Clean(codec, s, e) ==> forall c :: c in Step(codec, s, e).rooms && c !in s.rooms ==> m == Enter(c)
  {
    if e.Handle? {
      m := HandlerMoves(codec, s, e);
    } else {
      ConnectionMoves(codec, s, e);
      m := if e.Close? then Drop else Stay;
    }
  }

  // ----- the account -----

  function Abandoned(s: State, fd: int, m: Move): (pairs: set<(int, string)>) {
    if (m.Drop? || m.Enter?) && RoomOf(s.clients, fd) != "" then {(fd, RoomOf(s.clients, fd))} else {}
  }

  lemma MoveKeepsAccount(s: State, s': State, fd: int, m: Move, left: set<(int, string)>)
    requires Accounted(s, left) && StepIs(s, s', fd, m)
    ensures Accounted(s', left + Abandoned(s, fd, m))
  {
    var left' := left + Abandoned(s, fd, m);
    forall x, c
      ensures In(s'.rooms, x, c) <==> Live(s'.clients, x, c) || (x, c) in left'
      ensures Live(s'.clients, x, c) ==> (x, c) !in left'
    {
      assert In(s.rooms, x, c) <==> Live(s.clients, x, c) || (x, c) in left;
      if x != fd {
        assert (x, c) in left' <==> (x, c) in left;
      }
    }
  }

  lemma AbandonedIsLeftBehind(codec: Codec, s: State, e: Event, m: Move, left: set<(int, string)>)
    requires Accounted(s, left) && StepIs(s, Step(codec, s, e), e.fd, m)
    requires m.Drop? <==> e.Close?
    requires m.Enter? && RoomOf(s.clients, e.fd) != "" ==> e.Handle? && e.packet.ptype == CREATE_ROOM
    requires m.Leave? ==> e.Handle? && e.packet.ptype == EXIT_ROOM
    ensures LeftBehindBy(codec, s, e) == Abandoned(s, e.fd, m)
  {
    assert RoomOf(s.clients, e.fd) != "" ==> Live(s.clients, e.fd, RoomOf(s.clients, e.fd));
  }

  lemma {:induction false} MembershipsAccounted(codec: Codec, events: seq<Event>)
    requires LegalRun(codec, events)
    ensures Accounted(Run(codec, events), LeftBehind(codec, events))
  {
    if events != [] {
      var before, e := events[..|events| - 1], events[|events| - 1];
      var s, left := Run(codec, before), LeftBehind(codec, before);
      MembershipsAccounted(codec, before);
      var m := StepMoves(codec, s, e);
      MoveKeepsAccount(s, Step(codec, s, e), e.fd, m, left);
      AbandonedIsLeftBehind(codec, s, e, m, left);
    }
  }

  /** What is left behind stays in its room for ever, and so keeps the room. */
  lemma {:induction false} LeftBehindForGood(codec: Codec, events: seq<Event>, n: nat, fd: int, code: string)
    requires LegalRun(codec, events) && n <= |events|
    requires (fd, code) in LeftBehind(codec, events[..n])
    ensures (fd, code) in LeftBehind(codec, events)
    ensures In(Run(codec, events).rooms, fd, code)
  {
    MembershipsAccounted(codec, events);
    if n < |events| {
      var before := events[..|events| - 1];
      assert before[..n] == events[..n];
      LeftBehindForGood(codec, before, n, fd, code);
    } else {
      assert events[..n] == events;
    }
  }

  lemma {:induction false} CleanLeavesNothing(codec: Codec, events: seq<Event>)
    requires CleanRun(codec, events)
    ensures LeftBehind(codec, events) == {}
  {
    if events != [] {
      var before, e := events[..|events| - 1], events[|events| - 1];
      CleanLeavesNothing(codec, before);
      if e.Handle? && e.packet.ptype == CREATE_ROOM {
        assert RoomOf(Run(codec, before).clients, e.fd) == "" || !codec.create(e.packet.payload).Create?;
      }
    }
  }

  /** Listed in a room exactly when the client's own record names that room. */
  ghost predicate Agreed(s: State) {
    RoomsOk(s.rooms) && forall fd, code :: In(s.rooms, fd, code) <==> Live(s.clients, fd, code)
  }

  lemma NothingLeftAgrees(s: State, left: set<(int, string)>)
    requires Accounted(s, left) && left == {}
    ensures Agreed(s)
  {
  }

  /** On clean runs the two records agree. */
  lemma RecordsAgree(codec: Codec, events: seq<Event>)
    requires CleanRun(codec, events)
    ensures Agreed(Run(codec, events))
  {
    CleanIsLegal(codec, events);
    MembershipsAccounted(codec, events);
    CleanLeavesNothing(codec, events);
    NothingLeftAgrees(Run(codec, events), LeftBehind(codec, events));
  }

  lemma LeftOverDisagrees(s: State, left: set<(int, string)>, fd: int, code: string)
    requires Accounted(s, left) && (fd, code) in left
    ensures !Agreed(s)
  {
    assert In(s.rooms, fd, code) && !Live(s.clients, fd, code);
  }

  /** On every run the two records agree exactly as long as nothing was left behind. */
  lemma AgreeIffNothingLeft(codec: Codec, events: seq<Event>)
    requires LegalRun(codec, events)
    ensures Agreed(Run(codec, events)) <==> LeftBehind(codec, events) == {}
  {
    var s, left := Run(codec, events), LeftBehind(codec, events);
    MembershipsAccounted(codec, events);
    if left == {} {
      NothingLeftAgrees(s, left);
    } else {
      var p := Counting.SomeElement(left);
      LeftOverDisagrees(s, left, p.0, p.1);
    }
  }

  /** In every reachable state: at most 100 rooms, each under its own code of 8
      alphanumeric characters, no member twice, no more members than allowed. */
  lemma RoomLimits(codec: Codec, events: seq<Event>, code: string)
    requires LegalRun(codec, events)
    ensures |Run(codec, events).rooms| <= 100
    ensures code in Run(codec, events).rooms ==> WithinLimits(code, Run(codec, events).rooms[code])
  {
    MembershipsAccounted(codec, events);
    LimitsOf(Run(codec, events).rooms, code);
  }

  lemma LimitsOf(rooms: RoomMap, code: string)
    requires RoomsOk(rooms)
    ensures code in rooms ==> WithinLimits(code, rooms[code])
  {
    if code in rooms {
      assert RoomOk(code, rooms[code]);
    }
  }

  ghost predicate WithinLimits(code: string, room: RoomView) {
    && room.code == code
    && |code| == 8 && (forall i :: 0 <= i < 8 ==> IsAlphanumeric(code[i]))
    && NoDuplicates(room.members)
    && (room.maxUsers >= 0 ==> |room.members| <= room.maxUsers)
  }

  // ----- counting -----

  ghost function InARoom(clients: ClientMap): (fds: set<int>) {
    set fd | fd in clients && clients[fd].roomCode != ""
  }

  /** The room sizes add up to the clients in a room and what was left behind. */
  lemma SizesAddUp(codec: Codec, events: seq<Event>)
    requires LegalRun(codec, events)
    ensures Total(Run(codec, events).rooms)
         == |InARoom(Run(codec, events).clients)| + |LeftBehind(codec, events)|
  {
    MembershipsAccounted(codec, events);
    AccountAddsUp(Run(codec, events), LeftBehind(codec, events));
  }

  ghost function LivePairs(clients: ClientMap): (pairs: set<(int, string)>) {
    set fd | fd in InARoom(clients) :: (fd, RoomOf(clients, fd))
  }

  lemma LivePairsAre(clients: ClientMap, p: (int, string))
    ensures p in LivePairs(clients) <==> Live(clients, p.0, p.1)
  {
    if Live(clients, p.0, p.1) {
      assert p.0 in InARoom(clients) && p == (p.0, RoomOf(clients, p.0));
    }
  }

  lemma CountLivePairs(clients: ClientMap)
    ensures |LivePairs(clients)| == |InARoom(clients)|
  {
    var codeOf := fd => RoomOf(clients, fd);
    Counting.PairsAsMany(InARoom(clients), codeOf);
    assert LivePairs(clients) == set fd | fd in InARoom(clients) :: (fd, codeOf(fd));
  }

  lemma MembershipsAre(rooms: RoomMap, p: (int, string))
    ensures p in Memberships(rooms) <==> In(rooms, p.0, p.1)
  {
    assert p == (p.0, p.1);
  }

  lemma MembershipsSplit(s: State, left: set<(int, string)>)
    requires Accounted(s, left)
    ensures Memberships(s.rooms) == LivePairs(s.clients) + left
    ensures LivePairs(s.clients) !! left
  {
    forall p: (int, string)
      ensures p in Memberships(s.rooms) <==> p in LivePairs(s.clients) || p in left
      ensures p !in LivePairs(s.clients) || p !in left
    {
      MembershipsAre(s.rooms, p);
      LivePairsAre(s.clients, p);
      assert p == (p.0, p.1);
    }
  }

  lemma AccountAddsUp(s: State, left: set<(int, string)>)
    requires Accounted(s, left)
    ensures Total(s.rooms) == |InARoom(s.clients)| + |left|
  {
    forall code | code in s.rooms
      ensures NoDuplicates(s.rooms[code].members)
    {
      assert RoomOk(code, s.rooms[code]);
    }
    TotalIsMemberships(s.rooms);
    MembershipsSplit(s, left);
    CountLivePairs(s.clients);
  }

  // ----- when rooms go -----

  /** On every run, a step removes a room exactly when it is the exit of a client
      of that room and nobody else is listed. */
  lemma RoomGoes(codec: Codec, events: seq<Event>, e: Event, code: string)
    requires LegalRun(codec, events) && Legal(Run(codec, events), e)
    requires code in Run(codec, events).rooms
    ensures var s := Run(codec, events);
            code !in Step(codec, s, e).rooms
            <==>
            && e.Handle? && e.packet.ptype == EXIT_ROOM
            && RoomOf(s.clients, e.fd) == code
            && s.rooms[code].members == [e.fd]
  {
    var s := Run(codec, events);
    MembershipsAccounted(codec, events);
    assert RoomOk(code, s.rooms[code]);
    var m := StepMoves(codec, s, e);
    if m == Leave(code) {
      assert In(s.rooms, e.fd, code);
      OnlyMemberIs(s.rooms, e.fd, code);
    }
  }

  lemma OnlyMemberIs(rooms: RoomMap, fd: int, code: string)
    requires In(rooms, fd, code) && NoDuplicates(rooms[code].members)
    ensures OnlyMember(rooms, fd, code) <==> rooms[code].members == [fd]
  {
    var members := rooms[code].members;
    assert |members| >= 2 ==> members[0] != members[1];
    if OnlyMember(rooms, fd, code) {
      forall i | 0 <= i < |members|
        ensures members[i] == fd
      {
        assert In(rooms, members[i], code);
      }
      assert |members| < 2;
    }
  }

  ghost predicate Occupied(rooms: RoomMap) {
    forall code :: code in rooms ==> rooms[code].members != []
  }

  lemma OccupiedAfter(codec: Codec, s: State, e: Event)
    requires RoomsOk(s.rooms) && Occupied(s.rooms) && Clean(codec, s, e)
    ensures Occupied(Step(codec, s, e).rooms)
  {
    var rooms := Step(codec, s, e).rooms;
    var m := StepMoves(codec, s, e);
    forall code | code in rooms
      ensures rooms[code].members != []
    {
      if code in s.rooms {
        assert In(s.rooms, s.rooms[code].members[0], code);
        var x :| In(s.rooms, x, code) && (m == Leave(code) ==> x != e.fd);
        assert In(rooms, x, code);
      } else {
        assert In(rooms, e.fd, code);
      }
    }
  }

  /** On clean runs no room is empty between handlers, so there are never more
      rooms than clients in a room. */
  lemma {:induction false} NoEmptyRooms(codec: Codec, events: seq<Event>)
    requires CleanRun(codec, events)
    ensures var s := Run(codec, events);
            Occupied(s.rooms) && |s.rooms| <= |InARoom(s.clients)|
  {
    CleanIsLegal(codec, events);
    if events != [] {
      var before := events[..|events| - 1];
      NoEmptyRooms(codec, before);
      CleanIsLegal(codec, before);
      MembershipsAccounted(codec, before);
      OccupiedAfter(codec, Run(codec, before), events[|events| - 1]);
    }
    OccupiedRoomsAreFew(Run(codec, events).rooms);
    SizesAddUp(codec, events);
    CleanLeavesNothing(codec, events);
  }

  // ----- rooms without a place -----

  /** The rooms that stay keep their limits. */
  ghost predicate SameLimits(rooms: RoomMap, rooms': RoomMap) {
    forall code :: code in rooms && code in rooms' ==> rooms'[code].maxUsers == rooms[code].maxUsers
  }

  lemma CreateKeepsLimits(clients: ClientMap, rooms: RoomMap, fd: int, name: string, maxUsers: int32, draws: Draws)
    ensures SameLimits(rooms, CreateRoom(clients, rooms, fd, name, maxUsers, draws).1)
  {
    AddRoomPicks(rooms, name, maxUsers, draws);
  }

  lemma JoinKeepsLimits(codec: Codec, s: State, fd: int, payload: Bytes)
    ensures SameLimits(s.rooms, HandleJoin(codec, s, fd, payload).rooms)
  {
  }

  lemma ExitKeepsLimits(codec: Codec, s: State, fd: int)
    ensures SameLimits(s.rooms, HandleExit(codec, s, fd).rooms)
  {
  }

  lemma StepKeepsLimits(codec: Codec, s: State, e: Event)
    ensures SameLimits(s.rooms, Step(codec, s, e).rooms)
  {
    if e.Handle? {
      if e.packet.ptype == CREATE_ROOM {
        match codec.create(e.packet.payload)
        case Create(name, maxUsers) => CreateKeepsLimits(s.clients, s.rooms, e.fd, name, maxUsers, e.env.draws);
        case _ =>
      } else if e.packet.ptype == JOIN_ROOM {
        JoinKeepsLimits(codec, s, e.fd, e.packet.payload);
      } else if e.packet.ptype == EXIT_ROOM {
        ExitKeepsLimits(codec, s, e.fd);
      } else {
        OtherPacketStays(codec, s, e.fd, e.packet, e.env);
      }
    }
  }

  /** A room made for nobody is empty and takes one of the 100 places for ever. */
  lemma {:induction false} EmptyRoomForGood(codec: Codec, events: seq<Event>, n: nat, code: string)
    requires LegalRun(codec, events) && n <= |events|
    requires code in Run(codec, events[..n]).rooms && Run(codec, events[..n]).rooms[code].maxUsers == 0
    ensures code in Run(codec, events).rooms
    ensures Run(codec, events).rooms[code].maxUsers == 0 && Run(codec, events).rooms[code].members == []
  {
    if n < |events| {
      var before := events[..|events| - 1];
      assert before[..n] == events[..n];
      EmptyRoomForGood(codec, before, n, code);
      RoomGoes(codec, before, events[|events| - 1], code);
      StepKeepsLimits(codec, Run(codec, before), events[|events| - 1]);
    } else {
      assert events[..n] == events;
    }
    MembershipsAccounted(codec, events);
    assert RoomOk(code, Run(codec, events).rooms[code]);
  }
}
