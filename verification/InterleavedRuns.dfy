/** Every interleaving of handlers, connections and disconnections: who is in which
    room when handlers of different clients overlap at their lock steps. */
module InterleavedRuns {
  import opened Protocol
  import opened Rooms
  import opened Clients
  import opened Payloads
  import opened Handlers
  import opened Membership
  import opened Interleaving

  datatype Handler = Handler(fd: int, pc: Pc)

  // The tables; the room request in flight of each descriptor, if any; the other
  // handlers in flight, any number of them; and the memberships left behind so far.
  datatype System = System(s: State, inFlight: map<int, Pc>, others: map<nat, Handler>, left: set<(int, string)>)

  datatype Move =
    | Connect(fd: int, ip: string)
    | Disconnect(fd: int)
    | BeginRoom(fd: int, packet: Packet, env: Env)
    | BeginOther(id: nat, fd: int, packet: Packet, env: Env)
    | StepRoom(fd: int)
    | StepOther(id: nat)

  predicate IsRoomRequest(packet: Packet) {
    packet.ptype == CREATE_ROOM || packet.ptype == JOIN_ROOM || packet.ptype == EXIT_ROOM
  }

  /** One room request in flight per descriptor, as its client waits for the reply;
      no disconnection while a handler of the descriptor is in flight. */
  predicate Enabled(y: System, m: Move) {
    match m
    case Connect(fd, ip) => fd > 0 && fd !in y.s.clients
    case Disconnect(fd) => fd !in y.inFlight && forall id :: id in y.others ==> y.others[id].fd != fd
    case BeginRoom(fd, packet, env) => fd !in y.inFlight && IsRoomRequest(packet)
    case BeginOther(id, fd, packet, env) => id !in y.others && !IsRoomRequest(packet)
    case StepRoom(fd) => fd in y.inFlight
    case StepOther(id) => id in y.others
  }

  /** The room a client's record names when the step is about to name another. */
  function Overwritten(clients: ClientMap, fd: int, pc: Pc): (pairs: set<(int, string)>) {
    if pc.CreateWrite? && RoomOf(clients, fd) != "" then {(fd, RoomOf(clients, fd))} else {}
  }

  function Take(codec: Codec, y: System, m: Move): (y': System)
    requires Enabled(y, m)
  {
    match m
    case Connect(fd, ip) => y.(s := Step(codec, y.s, Accept(fd, ip)))
    case Disconnect(fd) =>
      y.(s := Step(codec, y.s, Close(fd)),
         left := y.left + if RoomOf(y.s.clients, fd) != "" then {(fd, RoomOf(y.s.clients, fd))} else {})
    case BeginRoom(fd, packet, env) => y.(inFlight := y.inFlight[fd := Start(packet, env)])
    case BeginOther(id, fd, packet, env) => y.(others := y.others[id := Handler(fd, Start(packet, env))])
    case StepRoom(fd) =>
      var pc := y.inFlight[fd];
      var (s', pc') := Advance(codec, y.s, fd, pc);
      y.(s := s', inFlight := if pc'.Done? then y.inFlight - {fd} else y.inFlight[fd := pc'],
         left := y.left + Overwritten(y.s.clients, fd, pc))
    case StepOther(id) =>
      var h := y.others[id];
      var (s', pc') := Advance(codec, y.s, h.fd, h.pc);
      y.(s := s', others := if pc'.Done? then y.others - {id} else y.others[id := Handler(h.fd, pc')])
  }

  const QUIET := System(INITIAL, map[], map[], {})

  predicate AllEnabled(codec: Codec, moves: seq<Move>)
    decreases |moves|, 0
  {
    moves == [] ||
    var before := moves[..|moves| - 1];
    AllEnabled(codec, before) && Enabled(After(codec, before), moves[|moves| - 1])
  }

  function After(codec: Codec, moves: seq<Move>): (y': System)
    requires AllEnabled(codec, moves)
    decreases |moves|, 1
  {
    if moves == [] then QUIET
    else Take(codec, After(codec, moves[..|moves| - 1]), moves[|moves| - 1])
  }

  // ----- the invariant, descriptor by descriptor -----

  function PcOf(y: System, fd: int): (pc': Pc) {
    if fd in y.inFlight then y.inFlight[fd] else Done
  }

  /** The room the client's record names, unless its exit has left the list already. */
  function SettledIn(clients: ClientMap, fd: int, pc: Pc): (code: string) {
    if pc == ExitClear then "" else RoomOf(clients, fd)
  }

  /** The room whose list has the descriptor while its record does not say so yet. */
  function EnteringInto(pc: Pc): (code: string) {
    match pc
    case CreateWrite(code) => code
    case JoinWrite(code) => code
    case _ => ""
  }

  /** What a room handler in flight relies on about its own client's record. */
  predicate Knows(clients: ClientMap, fd: int, pc: Pc) {
    match pc
    case Start(packet, env) => IsRoomRequest(packet)
    case CreateAdded(code) => code != ""
    case CreateJoin(code) => fd in clients && code != ""
    case CreateWrite(code) => fd in clients && code != ""
    case JoinCheck(_) => fd in clients
    case JoinEnter(_) => fd in clients && clients[fd].roomCode == ""
    case JoinWrite(code) => fd in clients && clients[fd].roomCode == "" && code != ""
    case JoinAnnounce(_) => fd in clients
    case ExitRead => fd in clients
    case ExitAnnounce(code) => fd in clients && clients[fd].roomCode == code != ""
    case ExitLeave(code) => fd in clients && clients[fd].roomCode == code != ""
    case ExitClear => fd in clients && clients[fd].roomCode != ""
    case Sending(_, _, next) =>
      next.Respond? || (next.ExitLeave? && fd in clients && clients[fd].roomCode == next.code != "")
    case Respond(_) => true
    case Done => true
    case _ => false
  }

  /** The rooms that list the descriptor: the one it is settled in, the one it is
      entering and those it was left behind in, all of them different. */
  ghost predicate Listed(rooms: RoomMap, left: set<(int, string)>, fd: int, settled: string, entering: string) {
    && (forall code :: In(rooms, fd, code) <==>
                       (code != "" && (code == settled || code == entering)) || (fd, code) in left)
    && (settled != "" ==> settled != entering && (fd, settled) !in left)
    && (entering != "" ==> (fd, entering) !in left)
  }

  ghost predicate Placed(s: State, left: set<(int, string)>, fd: int, pc: Pc) {
    Knows(s.clients, fd, pc) && Listed(s.rooms, left, fd, SettledIn(s.clients, fd, pc), EnteringInto(pc))
  }

  /** Handlers other than room requests never stand at a room step. */
  predicate Harmless(pc: Pc) {
    match pc
    case Start(packet, env) => !IsRoomRequest(packet)
    case Sending(_, _, next) => next.Done?
    case ChatCheck(_, _) => true
    case ChatAnnounce(_) => true
    case NicknameWrite(_) => true
    case Respond(_) => true
    case _ => false
  }

  ghost predicate Consistent(y: System) {
    && RoomsOk(y.s.rooms)
    && (forall fd :: Placed(y.s, y.left, fd, PcOf(y, fd)))
    && (forall id :: id in y.others ==> Harmless(y.others[id].pc))
  }

  // ----- the tables under one step of a room request -----

  lemma JoinLists(rooms: RoomMap, left: set<(int, string)>, fd: int, settled: string, code: string)
    requires RoomsOk(rooms) && Listed(rooms, left, fd, settled, "")
    ensures var (rooms', joined) := JoinRoom(rooms, fd, code);
            && RoomsOk(rooms')
            && (joined ==> code != "")
            && Listed(rooms', left, fd, settled, if joined then code else "")
            && forall x, c :: x != fd ==> (In(rooms', x, c) <==> In(rooms, x, c))
  {
    JoinRoomKeeps(rooms, fd, code);
    if code in rooms {
      assert RoomOk(code, rooms[code]);
    }
    if JoinRoom(rooms, fd, code).1 {
      assert !In(rooms, fd, code);
    }
  }

  lemma WriteLists(rooms: RoomMap, left: set<(int, string)>, fd: int, settled: string, entering: string)
    requires Listed(rooms, left, fd, settled, entering) && entering != ""
    ensures Listed(rooms, left + if settled != "" then {(fd, settled)} else {}, fd, entering, "")
  {
  }

  lemma LeaveLists(rooms: RoomMap, left: set<(int, string)>, fd: int, settled: string)
    requires RoomsOk(rooms) && Listed(rooms, left, fd, settled, "") && settled != ""
    ensures var rooms' := LeaveRoom(rooms, fd, settled);
            && RoomsOk(rooms')
            && Listed(rooms', left, fd, "", "")
            && forall x, c :: x != fd ==> (In(rooms', x, c) <==> In(rooms, x, c))
  {
    LeaveRoomKeeps(rooms, fd, settled);
  }

  lemma CloseLists(rooms: RoomMap, left: set<(int, string)>, fd: int, settled: string)
    requires Listed(rooms, left, fd, settled, "")
    ensures Listed(rooms, left + if settled != "" then {(fd, settled)} else {}, fd, "", "")
  {
  }

  // ----- steps of room requests -----

  /** Everybody else's record and memberships stay. */
  ghost predicate OthersSame(s: State, s': State, fd: int) {
    && (forall x :: x != fd ==> (x in s'.clients <==> x in s.clients))
    && (forall x :: x != fd ==> RoomOf(s'.clients, x) == RoomOf(s.clients, x))
    && (forall x, c :: x != fd ==> (In(s'.rooms, x, c) <==> In(s.rooms, x, c)))
  }

  lemma StillPlaced(s: State, s': State, left: set<(int, string)>, left': set<(int, string)>, x: int, pc: Pc)
    requires Placed(s, left, x, pc)
    requires x in s'.clients <==> x in s.clients
    requires RoomOf(s'.clients, x) == RoomOf(s.clients, x)
    requires forall c :: In(s'.rooms, x, c) <==> In(s.rooms, x, c)
    requires forall c :: (x, c) in left' <==> (x, c) in left
    ensures Placed(s', left', x, pc)
  {
    assert Knows(s'.clients, x, pc);
    assert SettledIn(s'.clients, x, pc) == SettledIn(s.clients, x, pc);
  }

  /** The step of a room request keeps its own descriptor placed. */
  ghost predicate GoodStep(s: State, s': State, left: set<(int, string)>, fd: int, pc: Pc, pc': Pc) {
    && RoomsOk(s'.rooms)
    && OthersSame(s, s', fd)
    && Placed(s', left + Overwritten(s.clients, fd, pc), fd, pc')
  }

  /** The steps that change neither table. */
  predicate OnlyLooks(pc: Pc) {
    match pc
    case Start(packet, env) => packet.ptype != CREATE_ROOM
    case CreateJoin(_) => false
    case JoinEnter(_) => false
    case CreateWrite(_) => false
    case JoinWrite(_) => false
    case ExitLeave(_) => false
    case ExitClear => false
    case _ => true
  }

  lemma LooksAhead(codec: Codec, s: State, fd: int, pc: Pc)
    requires OnlyLooks(pc) && Knows(s.clients, fd, pc)
    ensures var (s', pc') := Advance(codec, s, fd, pc);
            && s'.clients == s.clients && s'.rooms == s.rooms
            && Knows(s.clients, fd, pc') && pc' != ExitClear && EnteringInto(pc') == ""
  {
  }

  lemma RoomsStep(s: State, rooms: RoomMap, left: set<(int, string)>, fd: int, pc: Pc, pc': Pc)
    requires RoomsOk(rooms) && !pc.CreateWrite?
    requires forall x, c :: x != fd ==> (In(rooms, x, c) <==> In(s.rooms, x, c))
    requires Knows(s.clients, fd, pc')
    requires Listed(rooms, left, fd, SettledIn(s.clients, fd, pc'), EnteringInto(pc'))
    ensures GoodStep(s, s.(rooms := rooms), left, fd, pc, pc')
  {
    var s' := s.(rooms := rooms);
    assert OthersSame(s, s', fd);
    assert left + Overwritten(s.clients, fd, pc) == left;
    assert Placed(s', left, fd, pc');
  }

  lemma OnlySent(s: State, s': State, left: set<(int, string)>, fd: int, pc: Pc, pc': Pc)
    requires GoodStep(s, s, left, fd, pc, pc') && s'.clients == s.clients && s'.rooms == s.rooms
    ensures GoodStep(s, s', left, fd, pc, pc')
  {
  }

  lemma LookStep(codec: Codec, s: State, left: set<(int, string)>, fd: int, pc: Pc)
    requires RoomsOk(s.rooms) && Placed(s, left, fd, pc) && OnlyLooks(pc)
    ensures var (s', pc') := Advance(codec, s, fd, pc);
            GoodStep(s, s', left, fd, pc, pc')
  {
    var (s', pc') := Advance(codec, s, fd, pc);
    LooksAhead(codec, s, fd, pc);
    LooksKeepPlace(s, left, fd, pc, pc');
    OnlySent(s, s', left, fd, pc, pc');
  }

  lemma LooksKeepPlace(s: State, left: set<(int, string)>, fd: int, pc: Pc, pc': Pc)
    requires RoomsOk(s.rooms) && Placed(s, left, fd, pc) && OnlyLooks(pc)
    requires Knows(s.clients, fd, pc') && pc' != ExitClear && EnteringInto(pc') == ""
    ensures GoodStep(s, s, left, fd, pc, pc')
  {
    assert EnteringInto(pc) == "" && SettledIn(s.clients, fd, pc) == SettledIn(s.clients, fd, pc');
    RoomsStep(s, s.rooms, left, fd, pc, pc');
  }

  lemma SameLists(rooms: RoomMap, rooms': RoomMap, left: set<(int, string)>, fd: int, settled: string)
    requires Listed(rooms, left, fd, settled, "")
    requires forall x, c :: In(rooms', x, c) <==> In(rooms, x, c)
    ensures Listed(rooms', left, fd, settled, "")
  {
  }

  lemma AddRoomStep(s: State, left: set<(int, string)>, fd: int, pc: Pc, name: string, maxUsers: int32, draws: Draws,
          pc': Pc)
    requires RoomsOk(s.rooms) && Placed(s, left, fd, pc) && pc.Start?
    requires pc'.Respond? || (pc' == CreateAdded(AddRoom(s.rooms, name, maxUsers, draws).1) && pc'.code != "")
    ensures GoodStep(s, s.(rooms := AddRoom(s.rooms, name, maxUsers, draws).0), left, fd, pc, pc')
  {
    var rooms := AddRoom(s.rooms, name, maxUsers, draws).0;
    AddRoomKeeps(s.rooms, name, maxUsers, draws);
    SameLists(s.rooms, rooms, left, fd, RoomOf(s.clients, fd));
    RoomsStep(s, rooms, left, fd, pc, pc');
  }

  lemma CreateStep(codec: Codec, s: State, left: set<(int, string)>, fd: int, packet: Packet, env: Env)
    requires RoomsOk(s.rooms) && Placed(s, left, fd, Start(packet, env)) && packet.ptype == CREATE_ROOM
    ensures var (s', pc') := Begin(codec, s, fd, packet, env);
            GoodStep(s, s', left, fd, Start(packet, env), pc')
  {
    var pc' := Begin(codec, s, fd, packet, env).1;
    match codec.create(packet.payload)
    case Create(name, maxUsers) =>
      AddRoomStep(s, left, fd, Start(packet, env), name, maxUsers, env.draws, pc');
    case _ =>
      RoomsStep(s, s.rooms, left, fd, Start(packet, env), pc');
  }

  lemma JoinStep(s: State, left: set<(int, string)>, fd: int, pc: Pc, code: string, pc': Pc)
    requires RoomsOk(s.rooms) && Placed(s, left, fd, pc)
    requires pc == CreateJoin(code) || pc == JoinEnter(code)
    requires if !JoinRoom(s.rooms, fd, code).1 then pc'.Respond?
             else pc' == if pc.CreateJoin? then CreateWrite(code) else JoinWrite(code)
    ensures GoodStep(s, s.(rooms := JoinRoom(s.rooms, fd, code).0), left, fd, pc, pc')
  {
    var rooms := JoinRoom(s.rooms, fd, code).0;
    JoinLists(s.rooms, left, fd, RoomOf(s.clients, fd), code);
    RoomsStep(s, rooms, left, fd, pc, pc');
  }

  lemma WriteStep(s: State, left: set<(int, string)>, fd: int, pc: Pc, code: string, pc': Pc)
    requires RoomsOk(s.rooms) && Placed(s, left, fd, pc)
    requires (pc == CreateWrite(code) && pc'.Respond?) || (pc == JoinWrite(code) && pc' == JoinAnnounce(code))
    ensures GoodStep(s, Write(s, fd, code), left, fd, pc, pc')
  {
    WriteLists(s.rooms, left, fd, RoomOf(s.clients, fd), code);
  }

  lemma LeaveStep(s: State, left: set<(int, string)>, fd: int, code: string)
    requires RoomsOk(s.rooms) && Placed(s, left, fd, ExitLeave(code))
    ensures GoodStep(s, s.(rooms := LeaveRoom(s.rooms, fd, code)), left, fd, ExitLeave(code), ExitClear)
  {
    LeaveLists(s.rooms, left, fd, code);
    RoomsStep(s, LeaveRoom(s.rooms, fd, code), left, fd, ExitLeave(code), ExitClear);
  }

  lemma ClearStep(s: State, left: set<(int, string)>, fd: int, pc': Pc)
    requires RoomsOk(s.rooms) && Placed(s, left, fd, ExitClear)
    requires pc'.Respond?
    ensures GoodStep(s, Write(s, fd, ""), left, fd, ExitClear, pc')
  {
    assert left + {} == left;
    assert RoomOf(Write(s, fd, "").clients, fd) == "";
  }

  lemma RoomStep(codec: Codec, s: State, left: set<(int, string)>, fd: int, pc: Pc)
    requires RoomsOk(s.rooms) && Placed(s, left, fd, pc)
    ensures var (s', pc') := Advance(codec, s, fd, pc);
            GoodStep(s, s', left, fd, pc, pc')
  {
    var pc' := Advance(codec, s, fd, pc).1;
    if OnlyLooks(pc) {
      LookStep(codec, s, left, fd, pc);
    } else if pc.Start? {
      CreateStep(codec, s, left, fd, pc.packet, pc.env);
    } else if pc.CreateJoin? || pc.JoinEnter? {
      JoinStep(s, left, fd, pc, pc.code, pc');
    } else if pc.CreateWrite? || pc.JoinWrite? {
      WriteStep(s, left, fd, pc, pc.code, pc');
    } else if pc.ExitLeave? {
      LeaveStep(s, left, fd, pc.code);
    } else {
      ClearStep(s, left, fd, pc');
    }
  }

  lemma StepRoomKeeps(codec: Codec, y: System, fd: int)
    requires Consistent(y) && fd in y.inFlight
    ensures Consistent(Take(codec, y, StepRoom(fd)))
  {
    var y' := Take(codec, y, StepRoom(fd));
    var pc := y.inFlight[fd];
    assert Placed(y.s, y.left, fd, PcOf(y, fd));
    RoomStep(codec, y.s, y.left, fd, pc);
    var (s', pc') := Advance(codec, y.s, fd, pc);
    StepPlacesAll(y, s', y.left + Overwritten(y.s.clients, fd, pc), fd, pc, pc', y');
  }

  lemma StepPlacesAll(y: System, s': State, left': set<(int, string)>, fd: int, pc: Pc, pc': Pc, y': System)
    requires Consistent(y) && GoodStep(y.s, s', y.left, fd, pc, pc')
    requires left' == y.left + Overwritten(y.s.clients, fd, pc)
    requires y'.s == s' && y'.left == left' && y'.others == y.others
    requires forall x :: PcOf(y', x) == if x == fd then pc' else PcOf(y, x)
    ensures Consistent(y')
  {
    forall x
      ensures Placed(s', left', x, PcOf(y', x))
    {
      if x != fd {
        StillPlaced(y.s, s', y.left, left', x, PcOf(y, x));
      }
    }
  }

  // ----- the other moves -----

  lemma OtherStep(codec: Codec, s: State, fd: int, pc: Pc)
    requires Harmless(pc)
    ensures var (s', pc') := Advance(codec, s, fd, pc);
            && s'.rooms == s.rooms
            && (forall x :: x in s'.clients <==> x in s.clients)
            && (forall x :: RoomOf(s'.clients, x) == RoomOf(s.clients, x))
            && (Harmless(pc') || pc'.Done?)
  {
  }

  lemma StepOtherKeeps(codec: Codec, y: System, id: nat)
    requires Consistent(y) && id in y.others
    ensures Consistent(Take(codec, y, StepOther(id)))
  {
    var y' := Take(codec, y, StepOther(id));
    var h := y.others[id];
    OtherStep(codec, y.s, h.fd, h.pc);
    forall x
      ensures Placed(y'.s, y'.left, x, PcOf(y', x))
    {
      StillPlaced(y.s, y'.s, y.left, y'.left, x, PcOf(y, x));
    }
  }

  lemma ConnectKeeps(codec: Codec, y: System, fd: int, ip: string)
    requires Consistent(y) && Enabled(y, Connect(fd, ip))
    ensures Consistent(Take(codec, y, Connect(fd, ip)))
  {
    var y' := Take(codec, y, Connect(fd, ip));
    forall x
      ensures Placed(y'.s, y'.left, x, PcOf(y', x))
    {
      assert Placed(y.s, y.left, x, PcOf(y, x)) && PcOf(y', x) == PcOf(y, x);
      assert RoomOf(y'.s.clients, x) == RoomOf(y.s.clients, x);
    }
  }

  lemma DropPlaced(s: State, s': State, left: set<(int, string)>, fd: int, x: int, pc: Pc)
    requires Placed(s, left, x, pc) && (x == fd ==> pc == Done)
    requires s'.rooms == s.rooms && s'.clients == RemoveClient(s.clients, s.nicknames, fd).0
    ensures Placed(s', left + if RoomOf(s.clients, fd) != "" then {(fd, RoomOf(s.clients, fd))} else {}, x, pc)
  {
    var left' := left + if RoomOf(s.clients, fd) != "" then {(fd, RoomOf(s.clients, fd))} else {};
    if x == fd {
      CloseLists(s.rooms, left, fd, RoomOf(s.clients, fd));
      assert RoomOf(s'.clients, fd) == "";
    } else {
      StillPlaced(s, s', left, left', x, pc);
    }
  }

  lemma DisconnectKeeps(codec: Codec, y: System, fd: int)
    requires Consistent(y) && Enabled(y, Disconnect(fd))
    ensures Consistent(Take(codec, y, Disconnect(fd)))
  {
    var y' := Take(codec, y, Disconnect(fd));
    forall x
      ensures Placed(y'.s, y'.left, x, PcOf(y', x))
    {
      DropPlaced(y.s, y'.s, y.left, fd, x, PcOf(y, x));
    }
  }

  lemma StartPlaced(s: State, left: set<(int, string)>, fd: int, packet: Packet, env: Env)
    requires Placed(s, left, fd, Done) && IsRoomRequest(packet)
    ensures Placed(s, left, fd, Start(packet, env))
  {
    assert SettledIn(s.clients, fd, Start(packet, env)) == SettledIn(s.clients, fd, Done);
  }

  lemma BeginRoomKeeps(y: System, y': System, fd: int, packet: Packet, env: Env)
    requires Consistent(y) && fd !in y.inFlight && IsRoomRequest(packet)
    requires y' == y.(inFlight := y.inFlight[fd := Start(packet, env)])
    ensures Consistent(y')
  {
    forall x
      ensures Placed(y.s, y.left, x, PcOf(y', x))
    {
      assert Placed(y.s, y.left, x, PcOf(y, x));
      if x == fd {
        StartPlaced(y.s, y.left, fd, packet, env);
      }
    }
  }

  lemma TakeKeeps(codec: Codec, y: System, m: Move)
    requires Consistent(y) && Enabled(y, m)
    ensures Consistent(Take(codec, y, m))
  {
    match m
    case Connect(fd, ip) => ConnectKeeps(codec, y, fd, ip);
    case Disconnect(fd) => DisconnectKeeps(codec, y, fd);
    case BeginRoom(fd, packet, env) => BeginRoomKeeps(y, Take(codec, y, m), fd, packet, env);
    case BeginOther(id, fd, packet, env) =>
      forall x
        ensures Placed(y.s, y.left, x, PcOf(Take(codec, y, m), x))
      {
        assert Placed(y.s, y.left, x, PcOf(y, x));
      }
    case StepRoom(fd) => StepRoomKeeps(codec, y, fd);
    case StepOther(id) => StepOtherKeeps(codec, y, id);
  }

  // ----- every reachable state -----

  lemma {:induction false} AlwaysConsistent(codec: Codec, moves: seq<Move>)
    requires AllEnabled(codec, moves)
    ensures Consistent(After(codec, moves))
    decreases |moves|
  {
    if moves != [] {
      var before := moves[..|moves| - 1];
      AlwaysConsistent(codec, before);
      TakeKeeps(codec, After(codec, before), moves[|moves| - 1]);
    }
  }

  /** Under any interleaving: a client whose record names a room, and whose exit is
      not between leaving the list and clearing the record, names an existing room
      that lists it. */
  lemma RecordNamesItsRoom(codec: Codec, moves: seq<Move>, fd: int)
    requires AllEnabled(codec, moves)
    requires var y := After(codec, moves);
             fd in y.s.clients && y.s.clients[fd].roomCode != "" && PcOf(y, fd) != ExitClear
    ensures var y := After(codec, moves);
            In(y.s.rooms, fd, y.s.clients[fd].roomCode)
  {
    AlwaysConsistent(codec, moves);
    var y := After(codec, moves);
    assert Placed(y.s, y.left, fd, PcOf(y, fd));
  }

  /** Under any interleaving: a membership has exactly one of three causes, and each
      of them is a membership. */
  lemma MembershipHasOneCause(codec: Codec, moves: seq<Move>, fd: int, code: string)
    requires AllEnabled(codec, moves)
    ensures var y := After(codec, moves);
            var settled := code != "" && SettledIn(y.s.clients, fd, PcOf(y, fd)) == code;
            var entering := code != "" && EnteringInto(PcOf(y, fd)) == code;
            var left := (fd, code) in y.left;
            && (In(y.s.rooms, fd, code) <==> settled || entering || left)
            && !(settled && entering) && !(settled && left) && !(entering && left)
  {
    AlwaysConsistent(codec, moves);
    var y := After(codec, moves);
    assert Placed(y.s, y.left, fd, PcOf(y, fd));
  }

  /** Under any interleaving: at most 100 rooms, each within its limits. */
  lemma LimitsUnderInterleaving(codec: Codec, moves: seq<Move>, code: string)
    requires AllEnabled(codec, moves)
    ensures var rooms := After(codec, moves).s.rooms;
            |rooms| <= MAX_ROOM_CNT && (code in rooms ==> WithinLimits(code, rooms[code]))
  {
    AlwaysConsistent(codec, moves);
    LimitsOf(After(codec, moves).s.rooms, code);
  }

  /** When no room request is in flight the two records are accounted for as they
      are between atomic handlers. */
  lemma QuietIsAccounted(codec: Codec, moves: seq<Move>)
    requires AllEnabled(codec, moves) && After(codec, moves).inFlight == map[]
    ensures var y := After(codec, moves);
            Accounted(y.s, y.left)
  {
    AlwaysConsistent(codec, moves);
    QuietMeansAccounted(After(codec, moves));
  }

  lemma QuietMeansAccounted(y: System)
    requires Consistent(y) && y.inFlight == map[]
    ensures Accounted(y.s, y.left)
  {
    forall fd
      ensures Listed(y.s.rooms, y.left, fd, RoomOf(y.s.clients, fd), "")
    {
      assert Placed(y.s, y.left, fd, Done) by { assert PcOf(y, fd) == Done; }
    }
    ListedIsAccounted(y.s, y.left);
  }

  lemma ListedIsAccounted(s: State, left: set<(int, string)>)
    requires RoomsOk(s.rooms)
    requires forall fd :: Listed(s.rooms, left, fd, RoomOf(s.clients, fd), "")
    ensures Accounted(s, left)
  {
    forall fd, code
      ensures In(s.rooms, fd, code) <==> Live(s.clients, fd, code) || (fd, code) in left
      ensures Live(s.clients, fd, code) ==> (fd, code) !in left
    {
      assert Listed(s.rooms, left, fd, RoomOf(s.clients, fd), "");
    }
  }

  /** One move more. */
  lemma OneMoreMove(codec: Codec, moves: seq<Move>, m: Move)
    requires AllEnabled(codec, moves) && Enabled(After(codec, moves), m)
    ensures AllEnabled(codec, moves + [m]) && After(codec, moves + [m]) == Take(codec, After(codec, moves), m)
  {
    assert (moves + [m])[..|moves + [m]| - 1] == moves;
  }
}
