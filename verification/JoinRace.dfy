/** A join whose answer comes second, on a concrete run: between its joining the room's
    list and its answer, another client's whole exit is handled. */
module JoinRace {
  import opened Protocol
  import opened Rooms
  import opened Clients
  import opened Payloads
  import opened Handlers
  import opened Outboxes
  import opened Sessions
  import opened Mirror
  import opened ExitRace
  import opened Interleaving
  import opened InterleavedRuns

  /** From any run, the request in flight can run to its end undisturbed. */
  lemma {:induction false} FinishMoves(codec: Codec, moves: seq<Move>, fd: int) returns (more: seq<Move>)
    requires AllEnabled(codec, moves) && fd in After(codec, moves).inFlight
    ensures AllEnabled(codec, more)
    ensures var y, y' := After(codec, moves), After(codec, more);
            && y'.s == Finish(codec, y.s, fd, y.inFlight[fd])
            && y'.inFlight == y.inFlight - {fd} && y'.others == y.others
    decreases Stage(After(codec, moves).inFlight[fd]), Ahead(After(codec, moves).inFlight[fd])
  {
    var y := After(codec, moves);
    var pc := y.inFlight[fd];
    OneMoreMove(codec, moves, StepRoom(fd));
    var pc' := Advance(codec, y.s, fd, pc).1;
    more := moves + [StepRoom(fd)];
    if !pc.Done? {
      StepsEnd(codec, y.s, fd, pc);
      if !pc'.Done? {
        more := FinishMoves(codec, more, fd);
        assert y.inFlight[fd := pc'] - {fd} == y.inFlight - {fd};
      }
    }
  }

  /** A whole room request, from its beginning to its end. */
  lemma WholeRequest(codec: Codec, moves: seq<Move>, fd: int, packet: Packet, env: Env) returns (more: seq<Move>)
    requires AllEnabled(codec, moves) && fd !in After(codec, moves).inFlight && IsRoomRequest(packet)
    ensures AllEnabled(codec, more)
    ensures var y, y' := After(codec, moves), After(codec, more);
            && y'.s == HandlePacket(codec, y.s, fd, packet, env)
            && y'.inFlight == y.inFlight && y'.others == y.others
  {
    var y := After(codec, moves);
    OneMoreMove(codec, moves, BeginRoom(fd, packet, env));
    more := FinishMoves(codec, moves + [BeginRoom(fd, packet, env)], fd);
    AloneIsAtomic(codec, y.s, fd, packet, env);
    assert y.inFlight[fd := Start(packet, env)] - {fd} == y.inFlight;
  }

  lemma TwoClients(codec: Codec) returns (moves: seq<Move>)
    ensures AllEnabled(codec, moves)
    ensures After(codec, moves).s == CONNECTED && After(codec, moves).inFlight == map[]
  {
    OneMoreMove(codec, [], Connect(1, ""));
    OneMoreMove(codec, [] + [Connect(1, "")], Connect(2, ""));
    moves := [] + [Connect(1, "")] + [Connect(2, "")];
  }

  lemma JoinAdvances(codec: Codec, s: State, fd: int, packet: Packet, env: Env, code: string)
    requires packet.ptype == JOIN_ROOM && codec.join(packet.payload) == Join(code)
    requires fd in s.clients && s.clients[fd].roomCode == "" && JoinRoom(s.rooms, fd, code).1
    ensures Advance(codec, s, fd, Start(packet, env)) == (s, JoinCheck(code))
    ensures Advance(codec, s, fd, JoinCheck(code)) == (s, JoinEnter(code))
    ensures Advance(codec, s, fd, JoinEnter(code)) == (s.(rooms := JoinRoom(s.rooms, fd, code).0), JoinWrite(code))
  {
  }

  /** A join up to the point where its client is listed and its record not written. */
  lemma JoinHalfway(codec: Codec, moves: seq<Move>, fd: int, packet: Packet, env: Env, code: string)
    returns (more: seq<Move>)
    requires AllEnabled(codec, moves) && fd !in After(codec, moves).inFlight
    requires packet.ptype == JOIN_ROOM && codec.join(packet.payload) == Join(code)
    requires var s := After(codec, moves).s;
             fd in s.clients && s.clients[fd].roomCode == "" && JoinRoom(s.rooms, fd, code).1
    ensures AllEnabled(codec, more)
    ensures var y, y' := After(codec, moves), After(codec, more);
            && y'.s == y.s.(rooms := JoinRoom(y.s.rooms, fd, code).0)
            && y'.inFlight == y.inFlight[fd := JoinWrite(code)]
  {
    var y := After(codec, moves);
    JoinAdvances(codec, y.s, fd, packet, env, code);
    OneMoreMove(codec, moves, BeginRoom(fd, packet, env));
    more := moves + [BeginRoom(fd, packet, env)];
    more := StepTo(codec, more, fd, y.s, Start(packet, env), JoinCheck(code), y.s, y.inFlight);
    more := StepTo(codec, more, fd, y.s, JoinCheck(code), JoinEnter(code), y.s, y.inFlight);
    more := StepTo(codec, more, fd, y.s, JoinEnter(code), JoinWrite(code),
                   y.s.(rooms := JoinRoom(y.s.rooms, fd, code).0), y.inFlight);
  }

  /** One step of a request, the other requests standing at `rest`. */
  lemma StepTo(codec: Codec, moves: seq<Move>, fd: int, s: State, pc: Pc, pc': Pc, s': State, rest: map<int, Pc>)
    returns (more: seq<Move>)
    requires AllEnabled(codec, moves)
    requires After(codec, moves).s == s && After(codec, moves).inFlight == rest[fd := pc]
    requires Advance(codec, s, fd, pc) == (s', pc') && !pc'.Done?
    ensures AllEnabled(codec, more)
    ensures After(codec, more).s == s' && After(codec, more).inFlight == rest[fd := pc']
  {
    OneMoreMove(codec, moves, StepRoom(fd));
    more := moves + [StepRoom(fd)];
    assert rest[fd := pc][fd := pc'] == rest[fd := pc'];
  }

  /** What an exit sends the others in the room. */
  lemma ExitIsHeard(codec: Codec, s: State, fd: int, member: int)
    requires RoomsOk(s.rooms) && RoomOf(s.clients, fd) != ""
    requires In(s.rooms, member, RoomOf(s.clients, fd)) && member != fd
    ensures var s' := HandleExit(codec, s, fd);
            && Outbox(s'.out, member) == Outbox(s.out, member) + [UserExit(codec, fd, s.clients[fd].nickname)]
            && (member in s'.clients <==> member in s.clients)
            && RoomsOk(s'.rooms)
  {
    var d := ExitSends(codec, s, fd);
    OutboxAfter(s, HandleExit(codec, s, fd), fd, d, member);
    LeaveRoomKeeps(s.rooms, fd, RoomOf(s.clients, fd));
  }

  lemma JoinFinishes(codec: Codec, s: State, fd: int, code: string)
    requires fd in s.clients
    ensures var s2 := Write(s, fd, code);
            var told := Broadcast(s2, UserJoin(codec, fd, s.clients[fd].nickname), code, fd);
            Finish(codec, s, fd, JoinWrite(code)) == Reply(told, fd, JoinOk(codec, code))
  {
    var s2 := Write(s, fd, code);
    var cast, ok := UserJoin(codec, fd, s.clients[fd].nickname), JoinOk(codec, code);
    var members := MembersOf(s2.rooms, code);
    assert Finish(codec, s, fd, JoinWrite(code)) == Finish(codec, s2, fd, JoinAnnounce(code));
    assert Finish(codec, s2, fd, JoinAnnounce(code))
        == Finish(codec, s2, fd, Sending(cast, Others(members, fd), Respond(ok)));
    FinishSending(codec, s2, fd, cast, members, Respond(ok));
    FinishRespond(codec, Broadcast(s2, cast, code, fd), fd, ok);
  }

  lemma TellsOthersOnly(s: State, cast: Packet, code: string, fd: int, reply: Packet)
    requires RoomsOk(s.rooms)
    ensures Outbox(Reply(Broadcast(s, cast, code, fd), fd, reply).out, fd) == Outbox(s.out, fd) + [reply]
  {
    var members := MembersOf(s.rooms, code);
    assert code in s.rooms ==> RoomOk(code, s.rooms[code]);
    FanOutReaches(members, cast, fd, fd);
    OutboxConcat(s.out, FanOut(members, cast, fd), fd);
    OutboxOne(s.out + FanOut(members, cast, fd), fd, reply, fd);
    assert Outbox(s.out, fd) + [] == Outbox(s.out, fd);
  }

  /** The rest of a join sends its client the answer and nothing else. */
  lemma JoinEnds(codec: Codec, s: State, fd: int, code: string)
    requires RoomsOk(s.rooms) && fd in s.clients
    ensures var s' := Finish(codec, s, fd, JoinWrite(code));
            && Outbox(s'.out, fd) == Outbox(s.out, fd) + [JoinOk(codec, code)]
            && RoomOf(s'.clients, fd) == code
  {
    JoinFinishes(codec, s, fd, code);
    TellsOthersOnly(Write(s, fd, code), UserJoin(codec, fd, s.clients[fd].nickname), code, fd, JoinOk(codec, code));
  }

  /** The state in which client 2 is listed in client 1's room and does not know. */
  ghost predicate HalfIn(codec: Codec, s: State, code: string) {
    && RoomsOk(s.rooms) && In(s.rooms, 2, code) && code != ""
    && 1 in s.clients && s.clients[1] == NEWCOMER.(roomCode := code)
    && 2 in s.clients && s.clients[2] == NEWCOMER
    && Outbox(s.out, 2) == []
  }

  lemma NothingYet(codec: Codec, r: Requests)
    requires Suits(codec, r)
    ensures Outbox(CreatedBy1(codec, r).out, 2) == []
  {
    OutboxSingle(1, CreateOk(codec, NewCode(r)), 2);
    assert [] + [Sent(1, CreateOk(codec, NewCode(r)))] == [Sent(1, CreateOk(codec, NewCode(r)))];
  }

  lemma JoinedLists(rooms: RoomMap, fd: int, code: string)
    requires RoomsOk(rooms) && JoinRoom(rooms, fd, code).1
    ensures var rooms' := JoinRoom(rooms, fd, code).0;
            RoomsOk(rooms') && In(rooms', fd, code)
  {
    JoinRoomKeeps(rooms, fd, code);
  }

  lemma CreatedThenHalfIn(codec: Codec, r: Requests)
    requires Suits(codec, r)
    ensures var s, code := CreatedBy1(codec, r), NewCode(r);
            HalfIn(codec, s.(rooms := JoinRoom(s.rooms, 2, code).0), code)
  {
    CreatedTakesJoin(codec, r);
    JoinedLists(CreatedBy1(codec, r).rooms, 2, NewCode(r));
    NothingYet(codec, r);
  }

  lemma RoomMade(codec: Codec, r: Requests) returns (moves: seq<Move>)
    requires Suits(codec, r)
    ensures AllEnabled(codec, moves)
    ensures After(codec, moves).s == CreatedBy1(codec, r) && After(codec, moves).inFlight == map[]
  {
    moves := TwoClients(codec);
    moves := WholeRequest(codec, moves, 1, Packet(CREATE_ROOM, r.create), r.env);
    assert codec.create(r.create).maxUsers != 0;
    CreateFirst(codec, CONNECTED, 1, r.create, r.env.draws);
  }

  lemma HalfInMade(codec: Codec, r: Requests) returns (moves: seq<Move>)
    requires Suits(codec, r)
    ensures AllEnabled(codec, moves) && After(codec, moves).inFlight == map[2 := JoinWrite(NewCode(r))]
    ensures HalfIn(codec, After(codec, moves).s, NewCode(r))
  {
    moves := RoomMade(codec, r);
    CreatedTakesJoin(codec, r);
    moves := JoinHalfway(codec, moves, 2, Packet(JOIN_ROOM, r.join), r.env, NewCode(r));
    CreatedThenHalfIn(codec, r);
  }

  lemma ExitMeanwhile(codec: Codec, s: State, env: Env, code: string)
    requires HalfIn(codec, s, code)
    ensures var s' := HandlePacket(codec, s, 1, Packet(EXIT_ROOM, []), env);
            RoomsOk(s'.rooms) && 2 in s'.clients && Outbox(s'.out, 2) == [UserExit(codec, 1, "")]
  {
    ExitIsHeard(codec, s, 1, 2);
  }

  lemma ExitThenAnswer(codec: Codec, moves: seq<Move>, env: Env, code: string) returns (more: seq<Move>)
    requires AllEnabled(codec, moves) && After(codec, moves).inFlight == map[2 := JoinWrite(code)]
    requires HalfIn(codec, After(codec, moves).s, code)
    ensures AllEnabled(codec, more)
    ensures Outbox(After(codec, more).s.out, 2) == [UserExit(codec, 1, ""), JoinOk(codec, code)]
    ensures RoomOf(After(codec, more).s.clients, 2) == code
  {
    ExitMeanwhile(codec, After(codec, moves).s, env, code);
    more := WholeRequest(codec, moves, 1, Packet(EXIT_ROOM, []), env);
    JoinEnds(codec, After(codec, more).s, 2, code);
    more := FinishMoves(codec, more, 2);
  }

  /** Client 2 has read everything and joins. The first packet it is sent is that
      client 1 left; it takes the join for failed, and the server has it in the room. */
  lemma JoinReadsExit(codec: Codec, r: Requests) returns (moves: seq<Move>)
    requires Suits(codec, r)
    ensures AllEnabled(codec, moves)
    ensures var log := Outbox(After(codec, moves).s.out, 2);
            && log == [UserExit(codec, 1, ""), JoinOk(codec, NewCode(r))]
            && MirrorAfter(codec, JOIN_ROOM, "", log[0]) == ""
    ensures RoomOf(After(codec, moves).s.clients, 2) == NewCode(r) != ""
  {
    moves := HalfInMade(codec, r);
    moves := ExitThenAnswer(codec, moves, r.env, NewCode(r));
  }
}
