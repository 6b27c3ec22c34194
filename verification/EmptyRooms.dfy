/** Which rooms stand empty between handlers, on every run. */
module EmptyRooms {
  import opened Protocol
  import opened Rooms
  import opened Clients
  import opened Payloads
  import opened Handlers
  import opened Membership

  ghost function EmptyOnes(rooms: RoomMap): (codes: set<string>) {
    set code | code in rooms && rooms[code].members == []
  }

  /** The room a step makes without putting anybody in: its creator is gone, or it has
      no place. */
  function MadeEmpty(codec: Codec, s: State, e: Event): (codes: set<string>) {
    if !(e.Handle? && e.packet.ptype == CREATE_ROOM) then {}
    else
      match codec.create(e.packet.payload)
      case Create(name, maxUsers) =>
        if e.fd in s.clients && maxUsers != 0 then {} else {AddRoom(s.rooms, name, maxUsers, e.env.draws).1} - {""}
      case _ => {}
  }

  /** The room a JOIN_ROOM brings its client into. */
  function JoinedBy(codec: Codec, s: State, e: Event): (codes: set<string>) {
    if !(e.Handle? && e.packet.ptype == JOIN_ROOM) then {}
    else
      var code := RoomOf(Step(codec, s, e).clients, e.fd);
      if code == RoomOf(s.clients, e.fd) then {} else {code}
  }

  /** The rooms made empty and not joined since. */
  function Vacant(codec: Codec, events: seq<Event>): (codes: set<string>) {
    if events == [] then {}
    else
      var before, e := events[..|events| - 1], events[|events| - 1];
      var s := Run(codec, before);
      Vacant(codec, before) - JoinedBy(codec, s, e) + MadeEmpty(codec, s, e)
  }

  // ----- the table -----

  lemma AddRoomEmpties(rooms: RoomMap, name: string, maxUsers: int32, draws: Draws)
    ensures var (rooms', code) := AddRoom(rooms, name, maxUsers, draws);
            EmptyOnes(rooms') == EmptyOnes(rooms) + ({code} - {""})
  {
    AddRoomPicks(rooms, name, maxUsers, draws);
  }

  lemma JoinRoomFills(rooms: RoomMap, fd: int, code: string)
    requires RoomsOk(rooms)
    ensures var (rooms', joined) := JoinRoom(rooms, fd, code);
            EmptyOnes(rooms') == EmptyOnes(rooms) - if joined then {code} else {}
  {
    JoinRoomKeeps(rooms, fd, code);
  }

  lemma LeaveRoomDeletes(rooms: RoomMap, fd: int, code: string)
    requires In(rooms, fd, code)
    ensures EmptyOnes(LeaveRoom(rooms, fd, code)) == EmptyOnes(rooms)
  {
  }

  // ----- the handlers -----

  lemma WithRoom(rooms: RoomMap, code: string, room: RoomView)
    requires code !in rooms
    ensures EmptyOnes(rooms[code := room]) == EmptyOnes(rooms) + if room.members == [] then {code} else {}
  {
  }

  /** A new room that is joined at once is empty only if it has no place. */
  lemma JoinedAtOnce(rooms: RoomMap, code: string, room: RoomView, fd: int)
    requires code !in rooms && room.members == []
    ensures EmptyOnes(JoinRoom(rooms[code := room], fd, code).0)
         == EmptyOnes(rooms) + if room.maxUsers != 0 then {} else {code}
  {
    var joined := AcceptNewUser(room, fd).0;
    EmptyRoomTakes(rooms, room, fd, code);
    assert rooms[code := room][code := joined] == rooms[code := joined];
    WithRoom(rooms, code, joined);
  }

  lemma JoinNewRoom(rooms: RoomMap, fd: int, name: string, maxUsers: int32, draws: Draws)
    requires AddRoom(rooms, name, maxUsers, draws).1 != ""
    ensures var (added, code) := AddRoom(rooms, name, maxUsers, draws);
            EmptyOnes(JoinRoom(added, fd, code).0) == EmptyOnes(rooms) + if maxUsers != 0 then {} else {code}
  {
    var code := AddRoom(rooms, name, maxUsers, draws).1;
    AddRoomPicks(rooms, name, maxUsers, draws);
    JoinedAtOnce(rooms, code, RoomView(code, name, maxUsers, []), fd);
  }

  lemma CreateEmpties(clients: ClientMap, rooms: RoomMap, fd: int, name: string, maxUsers: int32, draws: Draws)
    ensures var made := {AddRoom(rooms, name, maxUsers, draws).1} - {""};
            EmptyOnes(CreateRoom(clients, rooms, fd, name, maxUsers, draws).1)
            == EmptyOnes(rooms) + if fd in clients && maxUsers != 0 then {} else made
  {
    var code := AddRoom(rooms, name, maxUsers, draws).1;
    if code == "" || fd !in clients {
      AddRoomEmpties(rooms, name, maxUsers, draws);
      assert code == "" ==> {code} - {""} == {};
    } else {
      JoinNewRoom(rooms, fd, name, maxUsers, draws);
      assert {code} - {""} == {code};
    }
  }

  lemma HandleCreateEmpties(codec: Codec, s: State, e: Event)
    requires RoomsOk(s.rooms) && e.Handle? && e.packet.ptype == CREATE_ROOM
    ensures EmptyOnes(HandleCreate(codec, s, e.fd, e.packet.payload, e.env.draws).rooms)
         == EmptyOnes(s.rooms) + MadeEmpty(codec, s, e)
  {
    match codec.create(e.packet.payload)
    case Create(name, maxUsers) =>
      CreateEmpties(s.clients, s.rooms, e.fd, name, maxUsers, e.env.draws);
      AddRoomPicks(s.rooms, name, maxUsers, e.env.draws);
    case _ =>
  }

  /** A join brings its client into a room exactly if it succeeds. */
  lemma JoinedByJoining(codec: Codec, s: State, e: Event, code: string)
    requires RoomsOk(s.rooms) && e.Handle? && e.packet.ptype == JOIN_ROOM && codec.join(e.packet.payload) == Join(code)
    ensures JoinedBy(codec, s, e)
         == if RoomOf(s.clients, e.fd) == "" && e.fd in s.clients && JoinRoom(s.rooms, e.fd, code).1 then {code} else {}
  {
    assert code in s.rooms ==> RoomOk(code, s.rooms[code]);
  }

  lemma HandleJoinFills(codec: Codec, s: State, e: Event)
    requires RoomsOk(s.rooms) && e.Handle? && e.packet.ptype == JOIN_ROOM
    ensures EmptyOnes(HandleJoin(codec, s, e.fd, e.packet.payload).rooms) == EmptyOnes(s.rooms) - JoinedBy(codec, s, e)
  {
    match codec.join(e.packet.payload)
    case Join(code) =>
      JoinedByJoining(codec, s, e, code);
      JoinRoomFills(s.rooms, e.fd, code);
    case _ =>
  }

  lemma HandleExitDeletes(codec: Codec, s: State, fd: int)
    requires RoomOf(s.clients, fd) != "" ==> In(s.rooms, fd, RoomOf(s.clients, fd))
    ensures EmptyOnes(HandleExit(codec, s, fd).rooms) == EmptyOnes(s.rooms)
  {
    if RoomOf(s.clients, fd) != "" {
      LeaveRoomDeletes(s.rooms, fd, RoomOf(s.clients, fd));
    }
  }

  lemma OtherPacketsEmptyNone(codec: Codec, s: State, e: Event)
    requires e.Handle? && e.packet.ptype !in {CREATE_ROOM, JOIN_ROOM}
    requires RoomOf(s.clients, e.fd) != "" ==> In(s.rooms, e.fd, RoomOf(s.clients, e.fd))
    ensures EmptyOnes(HandlePacket(codec, s, e.fd, e.packet, e.env).rooms) == EmptyOnes(s.rooms)
  {
    if e.packet.ptype == EXIT_ROOM {
      HandleExitDeletes(codec, s, e.fd);
    } else {
      OtherPacketStays(codec, s, e.fd, e.packet, e.env);
    }
  }

  ghost predicate EmptiesAs(codec: Codec, s: State, e: Event) {
    EmptyOnes(Step(codec, s, e).rooms) == EmptyOnes(s.rooms) - JoinedBy(codec, s, e) + MadeEmpty(codec, s, e)
  }

  lemma CreateStep(codec: Codec, s: State, e: Event)
    requires RoomsOk(s.rooms) && e.Handle? && e.packet.ptype == CREATE_ROOM
    ensures EmptiesAs(codec, s, e)
  {
    HandleCreateEmpties(codec, s, e);
    assert JoinedBy(codec, s, e) == {};
  }

  lemma JoinStep(codec: Codec, s: State, e: Event)
    requires RoomsOk(s.rooms) && e.Handle? && e.packet.ptype == JOIN_ROOM
    ensures EmptiesAs(codec, s, e)
  {
    HandleJoinFills(codec, s, e);
    assert MadeEmpty(codec, s, e) == {};
  }

  lemma StepEmpties(codec: Codec, s: State, e: Event)
    requires RoomsOk(s.rooms)
    requires RoomOf(s.clients, e.fd) != "" ==> In(s.rooms, e.fd, RoomOf(s.clients, e.fd))
    ensures EmptiesAs(codec, s, e)
  {
    if e.Handle? && e.packet.ptype == CREATE_ROOM {
      CreateStep(codec, s, e);
    } else if e.Handle? && e.packet.ptype == JOIN_ROOM {
      JoinStep(codec, s, e);
    } else if e.Handle? {
      OtherPacketsEmptyNone(codec, s, e);
    }
  }

  /** On every run the empty rooms are exactly those made empty and not joined since. */
  lemma {:induction false} EmptyIffVacant(codec: Codec, events: seq<Event>)
    requires LegalRun(codec, events)
    ensures EmptyOnes(Run(codec, events).rooms) == Vacant(codec, events)
  {
    if events != [] {
      var before, e := events[..|events| - 1], events[|events| - 1];
      var s := Run(codec, before);
      EmptyIffVacant(codec, before);
      MembershipsAccounted(codec, before);
      assert RoomOf(s.clients, e.fd) != "" ==> Live(s.clients, e.fd, RoomOf(s.clients, e.fd));
      StepEmpties(codec, s, e);
    }
  }

  lemma OccupiedHasNone(rooms: RoomMap)
    ensures Occupied(rooms) <==> EmptyOnes(rooms) == {}
  {
    if EmptyOnes(rooms) == {} {
      forall code | code in rooms
        ensures rooms[code].members != []
      {
        assert code !in EmptyOnes(rooms);
      }
    }
  }

  /** So no room stands empty exactly as long as every room made empty was joined. */
  lemma OccupiedIffNoneVacant(codec: Codec, events: seq<Event>)
    requires LegalRun(codec, events)
    ensures Occupied(Run(codec, events).rooms) <==> Vacant(codec, events) == {}
  {
    EmptyIffVacant(codec, events);
    OccupiedHasNone(Run(codec, events).rooms);
  }
}
