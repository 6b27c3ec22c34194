/** What two room requests of one client in flight at once can do. */
module Overlap {
  import opened Protocol
  import opened Rooms
  import opened Clients
  import opened Payloads
  import opened Handlers
  import opened Interleaving

  // ----- handlers of one descriptor, scheduled freely -----

  datatype Scene = Scene(s: State, pcs: seq<Pc>)

  /** Each turn lets the handler of that number take one step. */
  function Play(codec: Codec, fd: int, c: Scene, turns: seq<nat>): (end: Scene)
    decreases |turns|
  {
    if turns == [] then c
    else if turns[0] >= |c.pcs| then Play(codec, fd, c, turns[1..])
    else
      var (s', pc') := Advance(codec, c.s, fd, c.pcs[turns[0]]);
      Play(codec, fd, Scene(s', c.pcs[turns[0] := pc']), turns[1..])
  }

  lemma PlayOne(codec: Codec, fd: int, c: Scene, i: nat)
    requires i < |c.pcs|
    ensures var (s', pc') := Advance(codec, c.s, fd, c.pcs[i]);
            Play(codec, fd, c, [i]) == Scene(s', c.pcs[i := pc'])
  {
    assert [i][1..] == [];
  }

  lemma {:induction false} PlayMore(codec: Codec, fd: int, c: Scene, turns: seq<nat>, more: seq<nat>)
    ensures Play(codec, fd, c, turns + more) == Play(codec, fd, Play(codec, fd, c, turns), more)
    decreases |turns|
  {
    if turns == [] {
      assert turns + more == more;
    } else {
      assert (turns + more)[1..] == turns[1..] + more;
      var i := turns[0];
      if i >= |c.pcs| {
        PlayMore(codec, fd, c, turns[1..], more);
      } else {
        var (s', pc') := Advance(codec, c.s, fd, c.pcs[i]);
        PlayMore(codec, fd, Scene(s', c.pcs[i := pc']), turns[1..], more);
      }
    }
  }

  lemma ThenOne(codec: Codec, fd: int, c: Scene, turns: seq<nat>, i: nat) returns (longer: seq<nat>)
    requires var d := Play(codec, fd, c, turns); i < |d.pcs|
    ensures var d := Play(codec, fd, c, turns);
            var (s', pc') := Advance(codec, d.s, fd, d.pcs[i]);
            Play(codec, fd, c, longer) == Scene(s', d.pcs[i := pc'])
  {
    longer := turns + [i];
    PlayMore(codec, fd, c, turns, [i]);
    PlayOne(codec, fd, Play(codec, fd, c, turns), i);
  }

  predicate SameTables(s: State, s': State) {
    s'.clients == s.clients && s'.rooms == s.rooms
  }

  /** An exit tells the others, one by one. */
  lemma {:induction false} ToldEverybody(codec: Codec, fd: int, c: Scene, turns: seq<nat>, i: nat, cast: Packet,
                                         targets: seq<int>, next: Pc)
    returns (longer: seq<nat>)
    requires var d := Play(codec, fd, c, turns); i < |d.pcs| && d.pcs[i] == Sending(cast, targets, next)
    ensures var d, d' := Play(codec, fd, c, turns), Play(codec, fd, c, longer);
            SameTables(d.s, d'.s) && d'.pcs == d.pcs[i := next]
    decreases |targets|
  {
    var d := Play(codec, fd, c, turns);
    longer := ThenOne(codec, fd, c, turns, i);
    if targets != [] {
      var rest := Sending(cast, targets[1..], next);
      longer := ToldEverybody(codec, fd, c, longer, i, cast, targets[1..], next);
      assert d.pcs[i := rest][i := next] == d.pcs[i := next];
    }
  }

  /** An exit up to its leaving, with nothing changed but what was sent. */
  lemma ExitToLeave(codec: Codec, fd: int, c: Scene, turns: seq<nat>, i: nat, packet: Packet, env: Env)
    returns (longer: seq<nat>)
    requires packet.ptype == EXIT_ROOM
    requires var d := Play(codec, fd, c, turns);
             && i < |d.pcs| && d.pcs[i] == Start(packet, env)
             && fd in d.s.clients && RoomOf(d.s.clients, fd) != ""
    ensures var d, d' := Play(codec, fd, c, turns), Play(codec, fd, c, longer);
            SameTables(d.s, d'.s) && d'.pcs == d.pcs[i := ExitLeave(RoomOf(d.s.clients, fd))]
  {
    var d := Play(codec, fd, c, turns);
    var code := RoomOf(d.s.clients, fd);
    var cast := UserExit(codec, fd, NicknameOf(d.s, fd));
    var others := Others(MembersOf(d.s.rooms, code), fd);
    longer := ThenOne(codec, fd, c, turns, i);
    longer := ThenOne(codec, fd, c, longer, i);
    longer := ThenOne(codec, fd, c, longer, i);
    assert Play(codec, fd, c, longer) == Scene(d.s, d.pcs[i := Sending(cast, others, ExitLeave(code))]);
    longer := ToldEverybody(codec, fd, c, longer, i, cast, others, ExitLeave(code));
    assert Play(codec, fd, c, longer).pcs == d.pcs[i := ExitLeave(code)];
  }

  // ----- the tables meanwhile -----

  /** Left, joined again, left again, and the record written last. */
  lemma TablesAfter(s: State, fd: int, code: string, other: int)
    requires RoomsOk(s.rooms) && fd in s.clients && code != ""
    requires In(s.rooms, fd, code) && In(s.rooms, other, code) && other != fd
    ensures var left := LeaveRoom(s.rooms, fd, code);
            var (joined, ok) := JoinRoom(left, fd, code);
            var gone := LeaveRoom(joined, fd, code);
            ok && code in gone && !In(gone, fd, code)
  {
    var left := LeaveRoom(s.rooms, fd, code);
    LeaveRoomKeeps(s.rooms, fd, code);
    assert In(left, other, code);
    LeaveMakesAPlace(s.rooms, fd, code);
    JoinRoomKeeps(left, fd, code);
    var joined := JoinRoom(left, fd, code).0;
    assert In(joined, other, code);
    LeaveRoomKeeps(joined, fd, code);
    assert In(LeaveRoom(joined, fd, code), other, code);
  }

  lemma LeaveMakesAPlace(rooms: RoomMap, fd: int, code: string)
    requires RoomsOk(rooms) && In(rooms, fd, code) && code in LeaveRoom(rooms, fd, code)
    ensures var room := LeaveRoom(rooms, fd, code)[code];
            fd !in room.members && |room.members| < AsSize(room.maxUsers)
  {
    assert RoomOk(code, rooms[code]);
    WithoutKeeps(rooms[code].members, fd);
  }

  // ----- the schedule -----

  /** The rest of an exit. */
  lemma ExitEnds(codec: Codec, fd: int, c: Scene, turns: seq<nat>, i: nat, code: string) returns (longer: seq<nat>)
    requires var d := Play(codec, fd, c, turns); i < |d.pcs| && d.pcs[i] == ExitLeave(code) && fd in d.s.clients
    ensures var d, d' := Play(codec, fd, c, turns), Play(codec, fd, c, longer);
            && d'.s.rooms == LeaveRoom(d.s.rooms, fd, code) && d'.s.clients == SetRoomCode(d.s.clients, fd, "")
            && d'.pcs == d.pcs[i := Done]
  {
    var d := Play(codec, fd, c, turns);
    longer := ThenOne(codec, fd, c, turns, i);
    longer := ThenOne(codec, fd, c, longer, i);
    longer := ThenOne(codec, fd, c, longer, i);
    assert d.pcs[i := ExitClear][i := Respond(Packet(ROOM_EXIT_OK, []))][i := Done] == d.pcs[i := Done];
  }

  /** A join up to its record. */
  lemma JoinsList(codec: Codec, fd: int, c: Scene, turns: seq<nat>, i: nat, join: Packet, env: Env, code: string)
    returns (longer: seq<nat>)
    requires join.ptype == JOIN_ROOM && codec.join(join.payload) == Join(code)
    requires var d := Play(codec, fd, c, turns);
             && i < |d.pcs| && d.pcs[i] == Start(join, env)
             && fd in d.s.clients && RoomOf(d.s.clients, fd) == "" && JoinRoom(d.s.rooms, fd, code).1
    ensures var d, d' := Play(codec, fd, c, turns), Play(codec, fd, c, longer);
            && d'.s == d.s.(rooms := JoinRoom(d.s.rooms, fd, code).0)
            && d'.pcs == d.pcs[i := JoinWrite(code)]
  {
    var d := Play(codec, fd, c, turns);
    longer := ThenOne(codec, fd, c, turns, i);
    longer := ThenOne(codec, fd, c, longer, i);
    longer := ThenOne(codec, fd, c, longer, i);
    assert d.pcs[i := JoinCheck(code)][i := JoinEnter(code)][i := JoinWrite(code)] == d.pcs[i := JoinWrite(code)];
  }

  /** The first exit ends, the join enters the list, the second exit ends, and the join
      writes the record. */
  lemma LeaveJoinLeave(codec: Codec, fd: int, c: Scene, turns: seq<nat>, join: Packet, env: Env, code: string)
    returns (longer: seq<nat>)
    requires join.ptype == JOIN_ROOM && codec.join(join.payload) == Join(code)
    requires var d := Play(codec, fd, c, turns);
             && d.pcs == [ExitLeave(code), ExitLeave(code), Start(join, env)] && fd in d.s.clients
             && JoinRoom(LeaveRoom(d.s.rooms, fd, code), fd, code).1
    ensures var d, d' := Play(codec, fd, c, turns), Play(codec, fd, c, longer);
            && d'.pcs == [Done, Done, JoinAnnounce(code)]
            && RoomOf(d'.s.clients, fd) == code
            && d'.s.rooms == LeaveRoom(JoinRoom(LeaveRoom(d.s.rooms, fd, code), fd, code).0, fd, code)
  {
    longer := ExitEnds(codec, fd, c, turns, 0, code);
    longer := JoinsList(codec, fd, c, longer, 2, join, env, code);
    longer := ExitEnds(codec, fd, c, longer, 1, code);
    assert Play(codec, fd, c, longer).pcs == [Done, Done, JoinWrite(code)];
    longer := ThenOne(codec, fd, c, longer, 2);
    assert [Done, Done, JoinWrite(code)][2 := JoinAnnounce(code)] == [Done, Done, JoinAnnounce(code)];
  }

  /** The client is in a room with somebody else. It sends EXIT_ROOM twice and JOIN_ROOM
      for the same room. There is a schedule after which both exits have ended, the
      client's record names the room, and the room does not list it. */
  lemma TwoExitsAndAJoin(codec: Codec, s: State, fd: int, other: int, exit: Packet, join: Packet, env: Env)
    returns (turns: seq<nat>)
    requires exit.ptype == EXIT_ROOM && join.ptype == JOIN_ROOM
    requires RoomsOk(s.rooms) && fd in s.clients
    requires var code := RoomOf(s.clients, fd);
             && code != "" && In(s.rooms, fd, code) && In(s.rooms, other, code) && other != fd
             && codec.join(join.payload) == Join(code)
    ensures var code := RoomOf(s.clients, fd);
            var end := Play(codec, fd, Scene(s, [Start(exit, env), Start(exit, env), Start(join, env)]), turns);
            && end.pcs == [Done, Done, JoinAnnounce(code)]
            && RoomOf(end.s.clients, fd) == code && code in end.s.rooms && !In(end.s.rooms, fd, code)
  {
    var code := RoomOf(s.clients, fd);
    var start := Scene(s, [Start(exit, env), Start(exit, env), Start(join, env)]);
    turns := ExitToLeave(codec, fd, start, [], 0, exit, env);
    turns := ExitToLeave(codec, fd, start, turns, 1, exit, env);
    assert Play(codec, fd, start, turns).pcs == [ExitLeave(code), ExitLeave(code), Start(join, env)];
    TablesAfter(Play(codec, fd, start, turns).s, fd, code, other);
    turns := LeaveJoinLeave(codec, fd, start, turns, join, env, code);
  }
}
