/** RoomService calls under every interleaving: when the packet a call reads is its
    answer, and a run in which the answer to a join comes second. */
module InterleavedCalls {
  import opened Protocol
  import opened Rooms
  import opened Clients
  import opened Payloads
  import opened Handlers
  import opened Outboxes
  import opened Sessions
  import opened Mirror
  import opened Interleaving
  import opened InterleavedRuns

  // ----- what a move sends -----

  function Emission(fd: int, pc: Pc): (sent: seq<Sent>) {
    match pc
    case Sending(cast, targets, _) => if targets == [] then [] else [Sent(targets[0], cast)]
    case Respond(reply) => [Sent(fd, reply)]
    case _ => []
  }

  function Emitted(y: System, m: Move): (sent: seq<Sent>)
    ensures |sent| <= 1
  {
    match m
    case StepRoom(fd) => if fd in y.inFlight then Emission(fd, y.inFlight[fd]) else []
    case StepOther(id) => if id in y.others then Emission(y.others[id].fd, y.others[id].pc) else []
    case _ => []
  }

  predicate SendsTo(y: System, m: Move, fd: int) {
    Emitted(y, m) != [] && Emitted(y, m)[0].to == fd
  }

  lemma AdvanceEmits(codec: Codec, s: State, fd: int, pc: Pc)
    ensures Advance(codec, s, fd, pc).0.out == s.out + Emission(fd, pc)
  {
    assert s.out + [] == s.out;
  }

  lemma MoveEmits(codec: Codec, y: System, m: Move, fd: int)
    requires Enabled(y, m)
    ensures Outbox(Take(codec, y, m).s.out, fd)
         == Outbox(y.s.out, fd) + if SendsTo(y, m, fd) then [Emitted(y, m)[0].packet] else []
  {
    var sent := Emitted(y, m);
    assert Take(codec, y, m).s.out == y.s.out + sent by {
      match m
      case StepRoom(x) => AdvanceEmits(codec, y.s, x, y.inFlight[x]);
      case StepOther(id) => AdvanceEmits(codec, y.s, y.others[id].fd, y.others[id].pc);
      case _ => assert y.s.out + [] == y.s.out;
    }
    if sent == [] {
      assert y.s.out + sent == y.s.out;
    } else {
      assert sent == [sent[0]];
      OutboxOne(y.s.out, sent[0].to, sent[0].packet, fd);
    }
  }

  // ----- what others send is never an answer to a room request -----

  predicate Casts(pc: Pc) {
    pc.Sending? ==> IsTraffic(pc.cast)
  }

  predicate NoRoomAnswer(p: Packet) {
    IsTraffic(p) || p.ptype in {NICKNAME_RESPONSE_OK, NICKNAME_RESPONSE_FAIL}
  }

  /** A handler of a chat or a name: what it sends or will send. */
  predicate SmallTalk(pc: Pc) {
    match pc
    case Start(packet, env) => !IsRoomRequest(packet)
    case Sending(cast, _, next) => IsTraffic(cast) && next.Done?
    case ChatCheck(_, _) => true
    case ChatAnnounce(chat) => IsTraffic(chat)
    case NicknameWrite(_) => true
    case Respond(reply) => NoRoomAnswer(reply)
    case _ => false
  }

  ghost predicate WellTyped(y: System) {
    && (forall fd :: fd in y.inFlight ==> Casts(y.inFlight[fd]))
    && (forall id :: id in y.others ==> SmallTalk(y.others[id].pc))
  }

  lemma RoomCasts(codec: Codec, s: State, fd: int, pc: Pc)
    requires Knows(s.clients, fd, pc) && Casts(pc)
    ensures Casts(Advance(codec, s, fd, pc).1)
  {
  }

  lemma SmallTalkStays(codec: Codec, s: State, fd: int, pc: Pc)
    requires SmallTalk(pc)
    ensures var pc' := Advance(codec, s, fd, pc).1;
            SmallTalk(pc') || pc'.Done?
  {
  }

  lemma TakeTyped(codec: Codec, y: System, m: Move)
    requires Consistent(y) && WellTyped(y) && Enabled(y, m)
    ensures WellTyped(Take(codec, y, m))
  {
    match m
    case StepRoom(fd) =>
      assert Placed(y.s, y.left, fd, PcOf(y, fd));
      RoomCasts(codec, y.s, fd, y.inFlight[fd]);
    case StepOther(id) => SmallTalkStays(codec, y.s, y.others[id].fd, y.others[id].pc);
    case _ =>
  }

  lemma {:induction false} AlwaysTyped(codec: Codec, moves: seq<Move>)
    requires AllEnabled(codec, moves)
    ensures WellTyped(After(codec, moves))
    decreases |moves|
  {
    if moves != [] {
      var before := moves[..|moves| - 1];
      AlwaysTyped(codec, before);
      AlwaysConsistent(codec, before);
      TakeTyped(codec, After(codec, before), moves[|moves| - 1]);
    }
  }

  // ----- a call, step by step -----

  /** The answer tells its reader how the client's record moved: a refusal not at all,
      a grant to another room than before. (A room may be created and others take its
      places before its creator does; then the record has not moved.) */
  predicate Settles(codec: Codec, request: uint16, mirror: string, code: string, reply: Packet) {
    && IsReplyTo(request, reply)
    && (Refuses(reply) ==> code == mirror)
    && (!Refuses(reply) ==>
          && MirrorAfter(codec, request, mirror, reply) != mirror
          && (code == MirrorAfter(codec, request, mirror, reply) || (request == CREATE_ROOM && code == mirror)))
  }

  predicate Refuses(reply: Packet) {
    reply.ptype in {ROOM_CREATE_FAIL, ROOM_JOIN_FAIL, ROOM_EXIT_FAIL}
  }

  /** Where a room request stands, and the client's record meanwhile; `mirror` is the
      record at its start. */
  ghost predicate Underway(codec: Codec, clients: ClientMap, fd: int, pc: Pc, request: uint16, mirror: string) {
    var code := RoomOf(clients, fd);
    match pc
    case Start(packet, env) => packet.ptype == request && code == mirror
    case CreateAdded(room) => request == CREATE_ROOM && code == mirror != room && IsCode(room)
    case CreateJoin(room) => request == CREATE_ROOM && code == mirror != room && IsCode(room)
    case CreateWrite(room) => request == CREATE_ROOM && code == mirror != room && IsCode(room)
    case JoinCheck(_) => request == JOIN_ROOM && code == mirror
    case JoinEnter(_) => request == JOIN_ROOM && code == mirror == ""
    case JoinWrite(room) => request == JOIN_ROOM && code == mirror == "" && IsCode(room)
    case JoinAnnounce(room) => request == JOIN_ROOM && mirror == "" && code == room && IsCode(room)
    case ExitRead => request == EXIT_ROOM && code == mirror
    case ExitAnnounce(room) => request == EXIT_ROOM && code == mirror == room != ""
    case ExitLeave(room) => request == EXIT_ROOM && code == mirror == room != ""
    case ExitClear => request == EXIT_ROOM && code == mirror != ""
    case Sending(_, targets, next) =>
      fd !in targets
      && (next.Respond? ==> Settles(codec, request, mirror, code, next.reply))
      && (next.ExitLeave? ==> request == EXIT_ROOM && code == mirror == next.code != "")
    case Respond(reply) => Settles(codec, request, mirror, code, reply)
    case _ => false
  }

  lemma NotAmongOthers(members: seq<int>, fd: int)
    ensures fd !in Others(members, fd)
  {
  }

  lemma JoinOkSettles(codec: Codec, code: string)
    requires Faithful(codec) && IsCode(code)
    ensures Settles(codec, JOIN_ROOM, "", code, JoinOk(codec, code))
  {
  }

  lemma CreateOkSettles(codec: Codec, code: string, mirror: string)
    requires Faithful(codec) && IsCode(code) && code != mirror
    ensures Settles(codec, CREATE_ROOM, mirror, code, CreateOk(codec, code))
    ensures Settles(codec, CREATE_ROOM, mirror, mirror, CreateOk(codec, code))
  {
  }

  lemma BeginUnderway(codec: Codec, s: State, fd: int, packet: Packet, env: Env, mirror: string)
    requires packet.ptype == JOIN_ROOM || packet.ptype == EXIT_ROOM
    requires RoomOf(s.clients, fd) == mirror
    ensures var (s', pc') := Begin(codec, s, fd, packet, env);
            Underway(codec, s'.clients, fd, pc', packet.ptype, mirror)
  {
  }

  /** The new room is another than the client's own. */
  lemma BeginCreateUnderway(codec: Codec, s: State, fd: int, packet: Packet, env: Env, mirror: string)
    requires RoomsOk(s.rooms) && packet.ptype == CREATE_ROOM
    requires RoomOf(s.clients, fd) == mirror && (mirror != "" ==> In(s.rooms, fd, mirror))
    ensures var (s', pc') := Begin(codec, s, fd, packet, env);
            Underway(codec, s'.clients, fd, pc', CREATE_ROOM, mirror)
  {
    match codec.create(packet.payload)
    case Create(name, maxUsers) => AddRoomKeeps(s.rooms, name, maxUsers, env.draws);
    case _ =>
  }

  lemma CreateUnderway(codec: Codec, s: State, fd: int, pc: Pc, mirror: string)
    requires Faithful(codec) && Knows(s.clients, fd, pc)
    requires pc.CreateAdded? || pc.CreateJoin? || pc.CreateWrite?
    requires Underway(codec, s.clients, fd, pc, CREATE_ROOM, mirror)
    ensures var (s', pc') := Advance(codec, s, fd, pc);
            Underway(codec, s'.clients, fd, pc', CREATE_ROOM, mirror)
  {
    CreateOkSettles(codec, pc.code, mirror);
  }

  lemma JoinUnderway(codec: Codec, s: State, fd: int, pc: Pc, mirror: string)
    requires Faithful(codec) && RoomsOk(s.rooms) && Knows(s.clients, fd, pc)
    requires pc.JoinCheck? || pc.JoinEnter? || pc.JoinWrite? || pc.JoinAnnounce?
    requires Underway(codec, s.clients, fd, pc, JOIN_ROOM, mirror)
    ensures var (s', pc') := Advance(codec, s, fd, pc);
            Underway(codec, s'.clients, fd, pc', JOIN_ROOM, mirror)
  {
    match pc
    case JoinEnter(code) => assert code in s.rooms ==> RoomOk(code, s.rooms[code]);
    case JoinAnnounce(code) =>
      NotAmongOthers(MembersOf(s.rooms, code), fd);
      JoinOkSettles(codec, code);
    case _ =>
  }

  lemma ExitUnderway(codec: Codec, s: State, fd: int, pc: Pc, mirror: string)
    requires Knows(s.clients, fd, pc)
    requires pc.ExitRead? || pc.ExitAnnounce? || pc.ExitLeave? || pc.ExitClear?
    requires Underway(codec, s.clients, fd, pc, EXIT_ROOM, mirror)
    ensures var (s', pc') := Advance(codec, s, fd, pc);
            Underway(codec, s'.clients, fd, pc', EXIT_ROOM, mirror)
  {
    match pc
    case ExitAnnounce(code) => NotAmongOthers(MembersOf(s.rooms, code), fd);
    case _ =>
  }

  /** Its own step keeps a call underway, and before the answer sends its client nothing. */
  lemma OwnAdvance(codec: Codec, s: State, fd: int, pc: Pc, request: uint16, mirror: string)
    requires Faithful(codec) && RoomsOk(s.rooms) && Knows(s.clients, fd, pc)
    requires request in {CREATE_ROOM, JOIN_ROOM, EXIT_ROOM}
    requires pc.Start? && mirror != "" ==> In(s.rooms, fd, mirror)
    requires Underway(codec, s.clients, fd, pc, request, mirror) && !pc.Respond?
    ensures var (s', pc') := Advance(codec, s, fd, pc);
            Underway(codec, s'.clients, fd, pc', request, mirror)
    ensures Emission(fd, pc) != [] ==> Emission(fd, pc)[0].to != fd
  {
    if pc.Start? {
      if request == CREATE_ROOM {
        BeginCreateUnderway(codec, s, fd, pc.packet, pc.env, mirror);
      } else {
        BeginUnderway(codec, s, fd, pc.packet, pc.env, mirror);
      }
    } else if pc.CreateAdded? || pc.CreateJoin? || pc.CreateWrite? {
      CreateUnderway(codec, s, fd, pc, mirror);
    } else if pc.JoinCheck? || pc.JoinEnter? || pc.JoinWrite? || pc.JoinAnnounce? {
      JoinUnderway(codec, s, fd, pc, mirror);
    } else if pc.ExitRead? || pc.ExitAnnounce? || pc.ExitLeave? || pc.ExitClear? {
      ExitUnderway(codec, s, fd, pc, mirror);
    }
  }

  // ----- other moves meanwhile -----

  /** A move that is not this request's own leaves it and the client's record alone,
      and what it sends the client is no answer to a room request. */
  lemma OtherMoves(codec: Codec, y: System, m: Move, fd: int)
    requires Consistent(y) && WellTyped(y) && Enabled(y, m)
    requires fd in y.inFlight && m != StepRoom(fd)
    ensures var y' := Take(codec, y, m);
            && fd in y'.inFlight && y'.inFlight[fd] == y.inFlight[fd]
            && RoomOf(y'.s.clients, fd) == RoomOf(y.s.clients, fd)
            && (SendsTo(y, m, fd) ==> NoRoomAnswer(Emitted(y, m)[0].packet))
  {
    match m
    case StepRoom(x) =>
      assert Placed(y.s, y.left, x, PcOf(y, x));
      RoomStep(codec, y.s, y.left, x, y.inFlight[x]);
    case StepOther(id) => OtherStep(codec, y.s, y.others[id].fd, y.others[id].pc);
    case _ =>
  }

  // ----- a call in a run -----

  /** The run `begun` ends with the request's beginning; in `moves`, which goes on from
      there, it has stayed in flight. */
  ghost predicate Pending(codec: Codec, begun: seq<Move>, moves: seq<Move>, fd: int)
    requires AllEnabled(codec, moves)
    decreases |moves|
  {
    && begun <= moves
    && fd in After(codec, moves).inFlight
    && (moves == begun || Pending(codec, begun, moves[..|moves| - 1], fd))
  }

  /** No move since has sent the client anything. */
  ghost predicate Undisturbed(codec: Codec, begun: seq<Move>, moves: seq<Move>, fd: int)
    requires AllEnabled(codec, moves)
    decreases |moves|
  {
    |moves| <= |begun| ||
    var before := moves[..|moves| - 1];
    Undisturbed(codec, begun, before, fd) && !SendsTo(After(codec, before), moves[|moves| - 1], fd)
  }

  ghost predicate NoRoomAnswers(log: seq<Packet>) {
    forall i :: 0 <= i < |log| ==> NoRoomAnswer(log[i])
  }

  lemma UnderwayMove(codec: Codec, y: System, m: Move, fd: int, request: uint16, mirror: string)
    requires Faithful(codec) && Consistent(y) && WellTyped(y) && Enabled(y, m)
    requires request in {CREATE_ROOM, JOIN_ROOM, EXIT_ROOM}
    requires fd in y.inFlight && fd in Take(codec, y, m).inFlight
    requires Underway(codec, y.s.clients, fd, y.inFlight[fd], request, mirror)
    ensures var y' := Take(codec, y, m);
            Underway(codec, y'.s.clients, fd, y'.inFlight[fd], request, mirror)
    ensures SendsTo(y, m, fd) ==> NoRoomAnswer(Emitted(y, m)[0].packet)
  {
    if m == StepRoom(fd) {
      assert Placed(y.s, y.left, fd, PcOf(y, fd));
      assert !y.inFlight[fd].Respond?;
      assert SettledIn(y.s.clients, fd, y.inFlight[fd]) != "" ==> In(y.s.rooms, fd, RoomOf(y.s.clients, fd));
      OwnAdvance(codec, y.s, fd, y.inFlight[fd], request, mirror);
    } else {
      OtherMoves(codec, y, m, fd);
    }
  }

  lemma OneMoreRead(box0: seq<Packet>, t: seq<Packet>, more: seq<Packet>)
    requires NoRoomAnswers(t) && NoRoomAnswers(more)
    ensures box0 + t + more == box0 + (t + more) && NoRoomAnswers(t + more)
    ensures t + more == [] <==> t == [] && more == []
  {
  }

  lemma {:induction false} CallSoFar(codec: Codec, begun: seq<Move>, moves: seq<Move>, fd: int, packet: Packet,
                                     env: Env, y0: System)
    returns (t: seq<Packet>)
    requires Faithful(codec) && AllEnabled(codec, moves) && Pending(codec, begun, moves, fd)
    requires begun != [] && begun[|begun| - 1] == BeginRoom(fd, packet, env)
    requires IsRoomRequest(packet)
    requires AllEnabled(codec, begun) && y0 == After(codec, begun[..|begun| - 1])
    ensures var y := After(codec, moves);
            && Underway(codec, y.s.clients, fd, y.inFlight[fd], packet.ptype, RoomOf(y0.s.clients, fd))
            && Outbox(y.s.out, fd) == Outbox(y0.s.out, fd) + t
            && NoRoomAnswers(t) && (t == [] <==> Undisturbed(codec, begun, moves, fd))
    decreases |moves|
  {
    if moves == begun {
      t := [];
      assert Outbox(y0.s.out, fd) + [] == Outbox(y0.s.out, fd);
    } else {
      var before, m := moves[..|moves| - 1], moves[|moves| - 1];
      var y := After(codec, before);
      var t0 := CallSoFar(codec, begun, before, fd, packet, env, y0);
      AlwaysConsistent(codec, before);
      AlwaysTyped(codec, before);
      UnderwayMove(codec, y, m, fd, packet.ptype, RoomOf(y0.s.clients, fd));
      MoveEmits(codec, y, m, fd);
      var more := if SendsTo(y, m, fd) then [Emitted(y, m)[0].packet] else [];
      OneMoreRead(Outbox(y0.s.out, fd), t0, more);
      t := t0 + more;
    }
  }

  /** Under any interleaving, for a room request whose client has read its whole log
      before: the packet read is the answer if and only if nothing else was sent to it
      between the request's beginning and its answer. The client's room code, if it
      was the server's, is the server's afterwards exactly if it read the answer and
      that was a refusal or the record moved, or if it did not and the record did not
      move. For joins and exits the record moves exactly if they are granted. */
  lemma CallReadsItsAnswer(codec: Codec, begun: seq<Move>, moves: seq<Move>, fd: int, packet: Packet, env: Env)
    requires Faithful(codec) && AllEnabled(codec, moves) && Pending(codec, begun, moves, fd)
    requires AllEnabled(codec, begun) && begun != [] && begun[|begun| - 1] == BeginRoom(fd, packet, env)
    requires After(codec, moves).inFlight[fd].Respond?
    ensures var y0, y := After(codec, begun[..|begun| - 1]), After(codec, moves);
            var y1 := Take(codec, y, StepRoom(fd));
            var box0, box1 := Outbox(y0.s.out, fd), Outbox(y1.s.out, fd);
            var undisturbed, refused := Undisturbed(codec, begun, moves, fd), Refuses(y.inFlight[fd].reply);
            var mirror, code := RoomOf(y0.s.clients, fd), RoomOf(y1.s.clients, fd);
            && |box0| < |box1|
            && (IsReplyTo(packet.ptype, FirstRead(box0, box1)) <==> undisturbed)
            && (MirrorAfter(codec, packet.ptype, mirror, FirstRead(box0, box1)) == code
                <==> if undisturbed then refused || code != mirror else code == mirror)
            && (packet.ptype != CREATE_ROOM ==> (code != mirror <==> !refused))
  {
    var y0, y := After(codec, begun[..|begun| - 1]), After(codec, moves);
    BegunIsRoomRequest(codec, begun, fd, packet, env);
    var t := CallSoFar(codec, begun, moves, fd, packet, env, y0);
    var reply := y.inFlight[fd].reply;
    MoveEmits(codec, y, StepRoom(fd), fd);
    FirstIs(Outbox(y0.s.out, fd), t, reply, []);
    assert Outbox(y0.s.out, fd) + t + [reply] + [] == Outbox(y0.s.out, fd) + t + [reply];
    FirstSettles(codec, packet.ptype, RoomOf(y0.s.clients, fd), RoomOf(y.s.clients, fd), t, reply);
  }

  lemma BegunIsRoomRequest(codec: Codec, begun: seq<Move>, fd: int, packet: Packet, env: Env)
    requires AllEnabled(codec, begun) && begun != [] && begun[|begun| - 1] == BeginRoom(fd, packet, env)
    ensures IsRoomRequest(packet)
  {
  }

  lemma FirstSettles(codec: Codec, request: uint16, mirror: string, code: string, t: seq<Packet>, reply: Packet)
    requires request in {CREATE_ROOM, JOIN_ROOM, EXIT_ROOM}
    requires Settles(codec, request, mirror, code, reply) && NoRoomAnswers(t)
    ensures var read := if t == [] then reply else t[0];
            && (IsReplyTo(request, read) <==> t == [])
            && (MirrorAfter(codec, request, mirror, read) == code
                <==> if t == [] then Refuses(reply) || code != mirror else code == mirror)
            && (request != CREATE_ROOM ==> (code != mirror <==> !Refuses(reply)))
  {
  }
}
