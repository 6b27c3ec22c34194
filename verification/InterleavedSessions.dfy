/** What survives of the session logs under every interleaving: entries and exits in
    turn, following the client's record, and the sizes. */
module InterleavedSessions {
  import opened Protocol
  import opened Framing
  import opened Rooms
  import opened Clients
  import opened Payloads
  import opened Handlers
  import opened Outboxes
  import opened Sessions
  import opened Interleaving
  import opened InterleavedRuns
  import opened InterleavedCalls

  // ----- sizes -----

  /** What the handler holds to send fits a payload. */
  predicate Light(pc: Pc) {
    match pc
    case Sending(cast, _, next) => Fits(cast) && Light(next)
    case ChatAnnounce(chat) => Fits(chat)
    case Respond(reply) => Fits(reply)
    case _ => true
  }

  ghost predicate ShortTexts(codec: Codec) {
    forall reason :: |codec.reasonText(reason)| <= 50
  }

  lemma WordedIsShort(codec: Codec)
    requires Worded(codec)
    ensures ShortTexts(codec)
  {
    forall reason
      ensures |codec.reasonText(reason)| <= 50
    {
      TextsAreShort(codec, reason);
    }
  }

  lemma BeginLight(codec: Codec, s: State, fd: int, packet: Packet, env: Env)
    requires ShortTexts(codec)
    ensures Light(Begin(codec, s, fd, packet, env).1)
  {
  }

  lemma AdvanceLight(codec: Codec, s: State, fd: int, pc: Pc)
    requires ShortTexts(codec) && Light(pc)
    ensures Light(Advance(codec, s, fd, pc).1)
    ensures AllSentFit(Emission(fd, pc))
  {
    if pc.Start? {
      BeginLight(codec, s, fd, pc.packet, pc.env);
    }
  }

  ghost predicate AllLight(y: System) {
    && AllSentFit(y.s.out)
    && (forall fd :: fd in y.inFlight ==> Light(y.inFlight[fd]))
    && (forall id :: id in y.others ==> Light(y.others[id].pc))
  }

  lemma MoreSentFit(out: seq<Sent>, more: seq<Sent>)
    requires AllSentFit(out) && AllSentFit(more)
    ensures AllSentFit(out + more)
  {
  }

  lemma TakeLight(codec: Codec, y: System, m: Move)
    requires ShortTexts(codec) && AllLight(y) && Enabled(y, m)
    ensures AllLight(Take(codec, y, m))
  {
    match m
    case StepRoom(fd) =>
      AdvanceLight(codec, y.s, fd, y.inFlight[fd]);
      AdvanceEmits(codec, y.s, fd, y.inFlight[fd]);
      MoreSentFit(y.s.out, Emission(fd, y.inFlight[fd]));
    case StepOther(id) =>
      AdvanceLight(codec, y.s, y.others[id].fd, y.others[id].pc);
      AdvanceEmits(codec, y.s, y.others[id].fd, y.others[id].pc);
      MoreSentFit(y.s.out, Emission(y.others[id].fd, y.others[id].pc));
    case _ =>
  }

  lemma {:induction false} AlwaysLight(codec: Codec, moves: seq<Move>)
    requires Worded(codec) && AllEnabled(codec, moves)
    ensures AllLight(After(codec, moves))
    decreases |moves|
  {
    if moves != [] {
      AlwaysLight(codec, moves[..|moves| - 1]);
      WordedIsShort(codec);
      TakeLight(codec, After(codec, moves[..|moves| - 1]), moves[|moves| - 1]);
    }
  }

  /** Under any interleaving every packet handed to the sender fits a payload, so a
      client reading the output to it, cut anywhere, meets no oversized one. */
  lemma NeverOversizedInterleaved(codec: Codec, moves: seq<Move>, fd: int, w: Bytes)
    requires Worded(codec) && AllEnabled(codec, moves)
    requires w <= FrameAll(Outbox(After(codec, moves).s.out, fd))
    ensures AllSentFit(After(codec, moves).s.out)
    ensures !ReceiveAll(w).oversized && ReceiveAll(w).packets <= Outbox(After(codec, moves).s.out, fd)
  {
    AlwaysLight(codec, moves);
    OutboxFits(After(codec, moves).s.out, fd);
    ClientReadsWhatWasSent(Outbox(After(codec, moves).s.out, fd), w);
  }

  // ----- entries and exits -----

  /** The grammar without its rule for room traffic. */
  function DoorFollow(codec: Codec, at: Option<string>, p: Packet): (at': Option<string>) {
    if IsTraffic(p) then at else Follow(codec, at, p)
  }

  /** The room a reader of the log is in, by entries and exits alone. */
  function DoorTrack(codec: Codec, log: seq<Packet>): (at: Option<string>) {
    if log == [] then Some("")
    else DoorFollow(codec, DoorTrack(codec, log[..|log| - 1]), log[|log| - 1])
  }

  lemma DoorTrackOne(codec: Codec, log: seq<Packet>, p: Packet)
    ensures DoorTrack(codec, log + [p]) == DoorFollow(codec, DoorTrack(codec, log), p)
  {
    assert (log + [p])[..|log|] == log;
  }

  lemma {:induction false} DoorInside(codec: Codec, log: seq<Packet>)
    requires DoorTrack(codec, log).Some?
    ensures DoorTrack(codec, log).value != "" <==> Inside(log)
  {
    if log != [] {
      var n := |log| - 1;
      DoorInside(codec, log[..n]);
      InsideOne(log[..n], log[n]);
      assert log[..n] + [log[n]] == log;
    }
  }

  /** Such a log has entries only outside and EXIT_OKs only inside: they alternate. */
  lemma {:induction false} DoorShape(codec: Codec, log: seq<Packet>, i: nat)
    requires DoorTrack(codec, log).Some? && i < |log|
    ensures IsLeave(log[i]) ==> Inside(log[..i])
    ensures IsEntry(log[i]) ==> !Inside(log[..i])
  {
    var n := |log| - 1;
    if i < n {
      DoorShape(codec, log[..n], i);
      assert log[..n][i] == log[i] && log[..n][..i] == log[..i];
    } else {
      DoorInside(codec, log[..n]);
    }
  }

  // ----- clean runs -----

  /** As for whole handlers; and nobody takes the places of a new room before its
      creator does. */
  predicate CleanMove(codec: Codec, y: System, m: Move) {
    match m
    case Disconnect(fd) => RoomOf(y.s.clients, fd) == ""
    case BeginRoom(fd, packet, env) => Creatable(codec, y.s.clients, fd, packet)
    case StepRoom(fd) =>
      fd in y.inFlight && y.inFlight[fd].CreateJoin? ==> JoinRoom(y.s.rooms, fd, y.inFlight[fd].code).1
    case _ => true
  }

  /** A CREATE_ROOM that parses comes from a connected client outside any room. */
  predicate Creatable(codec: Codec, clients: ClientMap, fd: int, packet: Packet) {
    packet.ptype == CREATE_ROOM && codec.create(packet.payload).Create? ==>
      fd in clients && clients[fd].roomCode == ""
  }

  predicate CleanMoves(codec: Codec, moves: seq<Move>)
    requires AllEnabled(codec, moves)
  {
    moves == [] ||
    var before := moves[..|moves| - 1];
    CleanMoves(codec, before) && CleanMove(codec, After(codec, before), moves[|moves| - 1])
  }

  // ----- a request and the log -----

  /** Where a room request stands whose client's log leads to the room `at`. */
  ghost predicate DoorAt(codec: Codec, clients: ClientMap, fd: int, pc: Pc, at: string) {
    var code := RoomOf(clients, fd);
    match pc
    case Start(packet, env) => code == at && Creatable(codec, clients, fd, packet) && IsRoomRequest(packet)
    case CreateAdded(room) => code == at == "" && fd in clients && IsCode(room)
    case CreateJoin(room) => code == at == "" && fd in clients && IsCode(room)
    case CreateWrite(room) => code == at == "" && fd in clients && IsCode(room)
    case JoinCheck(_) => code == at
    case JoinEnter(_) => code == at == ""
    case JoinWrite(room) => code == at == "" && fd in clients && IsCode(room)
    case JoinAnnounce(room) => at == "" && code == room && IsCode(room)
    case ExitRead => code == at
    case ExitAnnounce(room) => code == at == room != ""
    case ExitLeave(room) => code == at == room != ""
    case ExitClear => code == at != ""
    case Sending(_, targets, next) =>
      fd !in targets
      && (next.Respond? ==> DoorFollow(codec, Some(at), next.reply) == Some(code))
      && (next.ExitLeave? ==> code == at == next.code != "")
    case Respond(reply) => DoorFollow(codec, Some(at), reply) == Some(code)
    case _ => false
  }

  lemma EntryOpens(codec: Codec, code: string)
    requires Faithful(codec) && IsCode(code)
    ensures DoorFollow(codec, Some(""), CreateOk(codec, code)) == Some(code)
    ensures DoorFollow(codec, Some(""), JoinOk(codec, code)) == Some(code)
  {
    EntryFollows(codec, CreateOk(codec, code), code);
    EntryFollows(codec, JoinOk(codec, code), code);
  }

  lemma BeginCreateDoor(codec: Codec, s: State, fd: int, packet: Packet, env: Env, at: string)
    requires RoomsOk(s.rooms) && packet.ptype == CREATE_ROOM
    requires RoomOf(s.clients, fd) == at && Creatable(codec, s.clients, fd, packet)
    ensures var (s', pc') := Begin(codec, s, fd, packet, env);
            DoorAt(codec, s'.clients, fd, pc', at)
  {
    match codec.create(packet.payload)
    case Create(name, maxUsers) => AddRoomKeeps(s.rooms, name, maxUsers, env.draws);
    case _ =>
  }

  lemma BeginDoor(codec: Codec, s: State, fd: int, packet: Packet, env: Env, at: string)
    requires packet.ptype == JOIN_ROOM || packet.ptype == EXIT_ROOM
    requires RoomOf(s.clients, fd) == at
    ensures var (s', pc') := Begin(codec, s, fd, packet, env);
            DoorAt(codec, s'.clients, fd, pc', at)
  {
  }

  lemma CreateDoor(codec: Codec, s: State, fd: int, pc: Pc, at: string)
    requires Faithful(codec) && DoorAt(codec, s.clients, fd, pc, at)
    requires pc.CreateAdded? || pc.CreateWrite? || (pc.CreateJoin? && JoinRoom(s.rooms, fd, pc.code).1)
    ensures var (s', pc') := Advance(codec, s, fd, pc);
            DoorAt(codec, s'.clients, fd, pc', at)
  {
    EntryOpens(codec, pc.code);
  }

  lemma JoinDoor(codec: Codec, s: State, fd: int, pc: Pc, at: string)
    requires Faithful(codec) && RoomsOk(s.rooms) && Knows(s.clients, fd, pc) && DoorAt(codec, s.clients, fd, pc, at)
    requires pc.JoinCheck? || pc.JoinEnter? || pc.JoinWrite? || pc.JoinAnnounce?
    ensures var (s', pc') := Advance(codec, s, fd, pc);
            DoorAt(codec, s'.clients, fd, pc', at)
  {
    match pc
    case JoinEnter(code) => assert code in s.rooms ==> RoomOk(code, s.rooms[code]);
    case JoinAnnounce(code) =>
      NotAmongOthers(MembersOf(s.rooms, code), fd);
      EntryOpens(codec, code);
    case _ =>
  }

  lemma ExitDoor(codec: Codec, s: State, fd: int, pc: Pc, at: string)
    requires Knows(s.clients, fd, pc) && DoorAt(codec, s.clients, fd, pc, at)
    requires pc.ExitRead? || pc.ExitAnnounce? || pc.ExitLeave? || pc.ExitClear?
    ensures var (s', pc') := Advance(codec, s, fd, pc);
            DoorAt(codec, s'.clients, fd, pc', at)
  {
    match pc
    case ExitAnnounce(code) => NotAmongOthers(MembersOf(s.rooms, code), fd);
    case _ =>
  }

  lemma OwnDoor(codec: Codec, s: State, fd: int, pc: Pc, at: string)
    requires Faithful(codec) && RoomsOk(s.rooms) && Knows(s.clients, fd, pc)
    requires DoorAt(codec, s.clients, fd, pc, at) && !pc.Respond?
    requires pc.CreateJoin? ==> JoinRoom(s.rooms, fd, pc.code).1
    ensures var (s', pc') := Advance(codec, s, fd, pc);
            DoorAt(codec, s'.clients, fd, pc', at)
    ensures Emission(fd, pc) != [] ==> Emission(fd, pc)[0].to != fd
  {
    if pc.Start? {
      if pc.packet.ptype == CREATE_ROOM {
        BeginCreateDoor(codec, s, fd, pc.packet, pc.env, at);
      } else {
        BeginDoor(codec, s, fd, pc.packet, pc.env, at);
      }
    } else if pc.CreateAdded? || pc.CreateJoin? || pc.CreateWrite? {
      CreateDoor(codec, s, fd, pc, at);
    } else if pc.JoinCheck? || pc.JoinEnter? || pc.JoinWrite? || pc.JoinAnnounce? {
      JoinDoor(codec, s, fd, pc, at);
    } else if pc.ExitRead? || pc.ExitAnnounce? || pc.ExitLeave? || pc.ExitClear? {
      ExitDoor(codec, s, fd, pc, at);
    }
  }

  // ----- the invariant -----

  /** The client's log leads to the room on record, or to where its request started. */
  ghost predicate Door(codec: Codec, y: System, fd: int) {
    var at := DoorTrack(codec, Outbox(y.s.out, fd));
    at.Some? &&
    if fd in y.inFlight then DoorAt(codec, y.s.clients, fd, y.inFlight[fd], at.value)
    else RoomOf(y.s.clients, fd) == at.value
  }

  lemma LogAfterMove(codec: Codec, y: System, m: Move, fd: int)
    requires Enabled(y, m)
    ensures DoorTrack(codec, Outbox(Take(codec, y, m).s.out, fd))
         == var at := DoorTrack(codec, Outbox(y.s.out, fd));
            if SendsTo(y, m, fd) then DoorFollow(codec, at, Emitted(y, m)[0].packet) else at
  {
    MoveEmits(codec, y, m, fd);
    if SendsTo(y, m, fd) {
      DoorTrackOne(codec, Outbox(y.s.out, fd), Emitted(y, m)[0].packet);
    } else {
      assert Outbox(y.s.out, fd) + [] == Outbox(y.s.out, fd);
    }
  }

  lemma NoAnswerNoDoor(codec: Codec, at: Option<string>, p: Packet)
    requires NoRoomAnswer(p)
    ensures DoorFollow(codec, at, p) == at
  {
  }

  lemma OwnStepDoor(codec: Codec, y: System, fd: int)
    requires Faithful(codec) && Consistent(y) && fd in y.inFlight
    requires CleanMove(codec, y, StepRoom(fd)) && Door(codec, y, fd)
    ensures Door(codec, Take(codec, y, StepRoom(fd)), fd)
  {
    var pc := y.inFlight[fd];
    LogAfterMove(codec, y, StepRoom(fd), fd);
    if !pc.Respond? {
      assert Placed(y.s, y.left, fd, PcOf(y, fd));
      OwnDoor(codec, y.s, fd, pc, DoorTrack(codec, Outbox(y.s.out, fd)).value);
    }
  }

  /** Another move, while the client's request is in flight. */
  lemma MeanwhileDoor(codec: Codec, y: System, m: Move, fd: int)
    requires Consistent(y) && WellTyped(y) && Enabled(y, m) && Door(codec, y, fd)
    requires fd in y.inFlight && m != StepRoom(fd)
    ensures Door(codec, Take(codec, y, m), fd)
  {
    var y' := Take(codec, y, m);
    var at := DoorTrack(codec, Outbox(y.s.out, fd));
    OtherMoves(codec, y, m, fd);
    LogAfterMove(codec, y, m, fd);
    if SendsTo(y, m, fd) {
      NoAnswerNoDoor(codec, at, Emitted(y, m)[0].packet);
    }
    KeysKept(codec, y, m, fd);
    SameDoor(codec, y.s.clients, y'.s.clients, fd, y.inFlight[fd], at.value);
  }

  lemma SameDoor(codec: Codec, clients: ClientMap, clients': ClientMap, fd: int, pc: Pc, at: string)
    requires DoorAt(codec, clients, fd, pc, at)
    requires RoomOf(clients', fd) == RoomOf(clients, fd) && (fd in clients ==> fd in clients')
    ensures DoorAt(codec, clients', fd, pc, at)
  {
  }

  /** No handler's step removes a client. */
  lemma AdvanceKeepsClients(codec: Codec, s: State, fd: int, pc: Pc)
    ensures Advance(codec, s, fd, pc).0.clients.Keys == s.clients.Keys
  {
  }

  /** A client with a request in flight stays connected. */
  lemma KeysKept(codec: Codec, y: System, m: Move, fd: int)
    requires Enabled(y, m) && fd in y.inFlight
    ensures fd in y.s.clients ==> fd in Take(codec, y, m).s.clients
  {
    match m
    case StepRoom(x) => AdvanceKeepsClients(codec, y.s, x, y.inFlight[x]);
    case StepOther(id) => AdvanceKeepsClients(codec, y.s, y.others[id].fd, y.others[id].pc);
    case _ =>
  }

  /** A step of a handler of anybody else's request, or of no request. */
  lemma StepElsewhere(codec: Codec, y: System, m: Move, fd: int)
    requires Consistent(y) && WellTyped(y) && Enabled(y, m) && fd !in y.inFlight
    requires m.StepRoom? || m.StepOther?
    ensures var y' := Take(codec, y, m);
            fd !in y'.inFlight && RoomOf(y'.s.clients, fd) == RoomOf(y.s.clients, fd)
    ensures SendsTo(y, m, fd) ==> NoRoomAnswer(Emitted(y, m)[0].packet)
  {
    match m
    case StepRoom(x) =>
      assert Placed(y.s, y.left, x, PcOf(y, x));
      RoomStep(codec, y.s, y.left, x, y.inFlight[x]);
    case StepOther(id) => OtherStep(codec, y.s, y.others[id].fd, y.others[id].pc);
  }

  /** A move while the client has no request in flight. */
  lemma IdleDoor(codec: Codec, y: System, m: Move, fd: int)
    requires Consistent(y) && WellTyped(y) && Enabled(y, m) && CleanMove(codec, y, m) && Door(codec, y, fd)
    requires fd !in y.inFlight
    ensures Door(codec, Take(codec, y, m), fd)
  {
    LogAfterMove(codec, y, m, fd);
    if m.StepRoom? || m.StepOther? {
      StepElsewhere(codec, y, m, fd);
      if SendsTo(y, m, fd) {
        NoAnswerNoDoor(codec, DoorTrack(codec, Outbox(y.s.out, fd)), Emitted(y, m)[0].packet);
      }
    }
  }

  lemma TakeDoor(codec: Codec, y: System, m: Move, fd: int)
    requires Faithful(codec) && Consistent(y) && WellTyped(y) && Enabled(y, m) && CleanMove(codec, y, m)
    requires Door(codec, y, fd)
    ensures Door(codec, Take(codec, y, m), fd)
  {
    if m == StepRoom(fd) {
      OwnStepDoor(codec, y, fd);
    } else if fd in y.inFlight {
      MeanwhileDoor(codec, y, m, fd);
    } else {
      IdleDoor(codec, y, m, fd);
    }
  }

  lemma {:induction false} LogsLeadToRecords(codec: Codec, moves: seq<Move>, fd: int)
    requires Faithful(codec) && AllEnabled(codec, moves) && CleanMoves(codec, moves)
    ensures Door(codec, After(codec, moves), fd)
    decreases |moves|
  {
    if moves != [] {
      var before := moves[..|moves| - 1];
      LogsLeadToRecords(codec, before, fd);
      AlwaysConsistent(codec, before);
      AlwaysTyped(codec, before);
      TakeDoor(codec, After(codec, before), moves[|moves| - 1], fd);
    }
  }

  /** On clean runs, under any interleaving: each client is sent entries and EXIT_OKs in
      turn, and whenever it has no request in flight they lead to the room on its
      record. (Room traffic may come before the entry, as in `JoinRace`.) */
  lemma EntriesAndExitsInTurn(codec: Codec, moves: seq<Move>, fd: int, i: nat)
    requires Faithful(codec) && AllEnabled(codec, moves) && CleanMoves(codec, moves)
    ensures var y := After(codec, moves);
            var log := Outbox(y.s.out, fd);
            && (i < |log| && IsLeave(log[i]) ==> Inside(log[..i]))
            && (i < |log| && IsEntry(log[i]) ==> !Inside(log[..i]))
            && (fd !in y.inFlight ==> DoorTrack(codec, log) == Some(RoomOf(y.s.clients, fd)))
  {
    LogsLeadToRecords(codec, moves, fd);
    if i < |Outbox(After(codec, moves).s.out, fd)| {
      DoorShape(codec, Outbox(After(codec, moves).s.out, fd), i);
    }
  }
}
