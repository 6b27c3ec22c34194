/** The one call whose answer can be something else, on a concrete codec and run:
    a client leaves while another one's arrival is on its way to it. */
module ExitRace {
  import opened Protocol
  import opened Rooms
  import opened Clients
  import opened Payloads
  import opened Handlers
  import opened Membership
  import opened Outboxes
  import opened Sessions
  import opened Mirror

  // ----- a codec that meets the assumptions -----

  /** Every descriptor as a length: even for those from 0 up, odd below. */
  function FdText(fd: int): (bytes: Bytes) {
    if fd >= 0 then seq(2 * fd, i requires 0 <= i => 0) else seq(-2 * fd - 1, i requires 0 <= i => 0)
  }

  function TextFd(b: Bytes): (k: int) {
    if |b| % 2 == 0 then |b| / 2 else -(|b| + 1) / 2
  }

  function Characters(b: Bytes): (text: string) {
    seq(|b|, i requires 0 <= i < |b| => b[i] as char)
  }

  /** Payloads are bare texts, none of them empty; a created room has two places. */
  const PLAIN := Codec(
    reason => Ascii(Text(reason)),
    b => if b == [] then CreateMalformed(b) else Create(Characters(b), 2),
    b => if b == [] then JoinMalformed(b) else Join(Characters(b)),
    b => if b == [] then NicknameMalformed(b) else Nickname(Characters(b)),
    b => if b == [] then None else Some(Characters(b)),
    code => Ascii(code),
    (fd, nickname) => FdText(fd),
    (chat: Chat) => FdText(chat.senderFd),
    b => Characters(b),
    b => TextFd(b),
    (name, maxUsers) => Ascii(name),
    code => Ascii(code))

  lemma CodeComesBack(code: string)
    requires IsCode(code)
    ensures Characters(Ascii(code)) == code
  {
  }

  lemma FdComesBack(fd: int)
    ensures TextFd(FdText(fd)) == fd
  {
  }

  /** The assumptions about payloads can be met, all at once. */
  lemma PlainIsFaithful()
    ensures Faithful(PLAIN) && Worded(PLAIN)
  {
    forall code | IsCode(code)
      ensures 0 < |PLAIN.roomCodeText(code)| <= MAX_PAYLOAD_SIZE && PLAIN.roomCode(PLAIN.roomCodeText(code)) == code
    {
      CodeComesBack(code);
    }
    forall chat: Chat
      ensures PLAIN.senderFd(PLAIN.chatText(chat)) == chat.senderFd
    {
      FdComesBack(chat.senderFd);
    }
  }

  // ----- the run -----

  // The payloads of client 1's CREATE_ROOM and of client 2's JOIN_ROOM.
  datatype Requests = Requests(create: Bytes, join: Bytes, env: Env)

  /** They are a request for a room with at least two places (or, with a negative
      number, no limit) and a request for the first code drawn. */
  ghost predicate Suits(codec: Codec, r: Requests) {
    && Faithful(codec)
    && codec.create(r.create).Create? && AsSize(codec.create(r.create).maxUsers) >= 2
    && codec.join(r.join) == Join(NewCode(r))
  }

  function NewCode(r: Requests): (code: string) {
    Code(r.env.draws, 0)
  }

  const NEWCOMER := ClientView("", "", false, "")

  const CONNECTED := State(map[1 := NEWCOMER, 2 := NEWCOMER], {}, map[], [])

  function CreateEvent(r: Requests): (e: Event) {
    Handle(1, Packet(CREATE_ROOM, r.create), r.env)
  }

  function JoinEvent(r: Requests): (e: Event) {
    Handle(2, Packet(JOIN_ROOM, r.join), r.env)
  }

  function ExitEvent(r: Requests): (e: Event) {
    Handle(1, Packet(EXIT_ROOM, []), r.env)
  }

  function Before(r: Requests): (events: seq<Event>) {
    [Accept(1, ""), Accept(2, ""), CreateEvent(r)]
  }

  function NewRoom(code: string, request: CreateRequest, fd: int): (room: RoomView)
    requires request.Create?
  {
    RoomView(code, request.roomName, request.maxUsers, [fd])
  }

  /** The state in which one client has created the only room. */
  function Created(codec: Codec, s: State, fd: int, code: string, request: CreateRequest): (s': State)
    requires request.Create? && fd in s.clients
  {
    Reply(s.(rooms := map[code := NewRoom(code, request, fd)], clients := SetRoomCode(s.clients, fd, code)),
          fd, CreateOk(codec, code))
  }

  lemma CreateFirst(codec: Codec, s: State, fd: int, payload: Bytes, draws: Draws)
    requires s.rooms == map[] && fd in s.clients
    requires codec.create(payload).Create? && codec.create(payload).maxUsers != 0
    ensures HandleCreate(codec, s, fd, payload, draws) == Created(codec, s, fd, Code(draws, 0), codec.create(payload))
  {
    var code, name, maxUsers := Code(draws, 0), codec.create(payload).roomName, codec.create(payload).maxUsers;
    assert FirstUnused(s.rooms, draws, 0) == 0;
    var added := map[code := RoomView(code, name, maxUsers, [])];
    assert AddRoom(s.rooms, name, maxUsers, draws) == (added, code);
    var joined := NewRoom(code, codec.create(payload), fd);
    EmptyRoomTakes(map[], added[code], fd, code);
    assert [] + [fd] == [fd];
    assert added[code := joined] == map[code := joined];
    assert JoinRoom(added, fd, code).0 == map[code := joined];
  }

  /** The members hear of a join that succeeds. */
  lemma JoinIsHeard(codec: Codec, s: State, fd: int, payload: Bytes, code: string, member: int)
    requires codec.join(payload) == Join(code) && fd in s.clients && s.clients[fd].roomCode == ""
    requires JoinRoom(s.rooms, fd, code).1
    requires RoomsOk(s.rooms) && In(s.rooms, member, code) && member != fd
    ensures var s' := HandleJoin(codec, s, fd, payload);
            && Outbox(s'.out, member) == Outbox(s.out, member) + [UserJoin(codec, fd, s.clients[fd].nickname)]
            && RoomOf(s'.clients, member) == RoomOf(s.clients, member)
  {
    var s' := HandleJoin(codec, s, fd, payload);
    var cast := UserJoin(codec, fd, s.clients[fd].nickname);
    JoinRoomKeeps(s.rooms, fd, code);
    var rooms := JoinRoom(s.rooms, fd, code).0;
    assert RoomOk(code, rooms[code]) && In(rooms, member, code);
    var told := s.out + FanOut(rooms[code].members, cast, fd);
    FanOutReaches(rooms[code].members, cast, fd, member);
    OutboxConcat(s.out, FanOut(rooms[code].members, cast, fd), member);
    OutboxOne(told, fd, JoinOk(codec, code), member);
  }

  lemma BothConnected(codec: Codec)
    ensures Run(codec, [Accept(1, ""), Accept(2, "")]) == CONNECTED
    ensures CleanRun(codec, [Accept(1, ""), Accept(2, "")])
  {
    RunOneMore(codec, [], Accept(1, ""));
    RunOneMore(codec, [Accept(1, "")], Accept(2, ""));
    assert [] + [Accept(1, "")] == [Accept(1, "")];
    assert [Accept(1, "")] + [Accept(2, "")] == [Accept(1, ""), Accept(2, "")];
  }

  function CreatedBy1(codec: Codec, r: Requests): (s: State)
    requires Suits(codec, r)
  {
    Created(codec, CONNECTED, 1, NewCode(r), codec.create(r.create))
  }

  lemma RoomCreated(codec: Codec, r: Requests)
    requires Suits(codec, r)
    ensures Run(codec, Before(r)) == CreatedBy1(codec, r) && CleanRun(codec, Before(r))
  {
    var two, e := [Accept(1, ""), Accept(2, "")], CreateEvent(r);
    BothConnected(codec);
    assert two + [e] == Before(r);
    RunOneMore(codec, two, e);
    assert codec.create(r.create).maxUsers != 0;
    CreateFirst(codec, CONNECTED, 1, r.create, r.env.draws);
    assert Clean(codec, CONNECTED, e);
  }

  lemma OneRoomIsOk(code: string, room: RoomView, fd: int)
    requires IsCode(code) && room.code == code && room.members == [fd] && AsSize(room.maxUsers) >= 1
    ensures RoomsOk(map[code := room])
  {
    var rooms := map[code := room];
    assert rooms.Keys == {code} && |rooms| == |rooms.Keys|;
  }

  lemma CreatedTakesJoin(codec: Codec, r: Requests)
    requires Suits(codec, r)
    ensures var s, code := CreatedBy1(codec, r), NewCode(r);
            && JoinRoom(s.rooms, 2, code).1 && In(s.rooms, 1, code) && RoomsOk(s.rooms)
            && 2 in s.clients && s.clients[2] == NEWCOMER && RoomOf(s.clients, 1) == code != ""
  {
    CodesAreCodes(r.env.draws, 0);
    OneRoomIsOk(NewCode(r), NewRoom(NewCode(r), codec.create(r.create), 1), 1);
  }

  lemma ArrivalComesFirst(codec: Codec, r: Requests)
    requires Suits(codec, r)
    ensures var during := Before(r) + [JoinEvent(r)];
            && CleanRun(codec, during)
            && Outbox(Run(codec, during).out, 1) == Outbox(CreatedBy1(codec, r).out, 1) + [UserJoin(codec, 2, "")]
  {
    RoomCreated(codec, r);
    CreatedTakesJoin(codec, r);
    RunOneMore(codec, Before(r), JoinEvent(r));
    JoinIsHeard(codec, CreatedBy1(codec, r), 2, r.join, NewCode(r), 1);
  }

  /** Whatever reaches a client between its last read and its exit is what the exit
      call reads. */
  lemma DisturbedExit(codec: Codec, before: seq<Event>, during: seq<Event>, exit: Event, mirror: string,
          more: seq<Packet>)
    requires Faithful(codec) && CleanRun(codec, before + during + [exit] + [])
    requires exit.Handle? && exit.packet.ptype == EXIT_ROOM && Quiet(during, exit.fd)
    requires mirror == RoomOf(Run(codec, before).clients, exit.fd) != ""
    requires more != []
    requires Outbox(Run(codec, before + during).out, exit.fd) == Outbox(Run(codec, before).out, exit.fd) + more
    ensures Stale(codec, Run(codec, before), Run(codec, before + during + [exit] + []), exit.fd, mirror)
  {
    ExitCallAgrees(codec, before, during, exit, [], mirror);
  }

  /** The exit call between the two states reads something else than its answer; the
      server has cleared the room, the client has not. */
  ghost predicate Stale(codec: Codec, s0: State, s1: State, fd: int, mirror: string) {
    var box0, box1 := Outbox(s0.out, fd), Outbox(s1.out, fd);
    && RoomOf(s0.clients, fd) == mirror && RoomOf(s1.clients, fd) == ""
    && |box0| < |box1| && !IsReplyTo(EXIT_ROOM, FirstRead(box0, box1))
    && MirrorAfter(codec, EXIT_ROOM, mirror, FirstRead(box0, box1)) != ""
  }

  lemma ExitIsClean(codec: Codec, events: seq<Event>, r: Requests)
    requires CleanRun(codec, events)
    ensures CleanRun(codec, events + [ExitEvent(r)] + [])
  {
    RunOneMore(codec, events, ExitEvent(r));
    assert events + [ExitEvent(r)] + [] == events + [ExitEvent(r)];
  }

  /** The run up to the exit, as `DisturbedExit` wants it. */
  lemma ArrivalDisturbs(codec: Codec, r: Requests)
    requires Suits(codec, r)
    ensures CleanRun(codec, Before(r) + During(r))
    ensures RoomOf(Run(codec, Before(r)).clients, 1) == NewCode(r) != ""
    ensures Outbox(Run(codec, Before(r) + During(r)).out, 1)
         == Outbox(Run(codec, Before(r)).out, 1) + [UserJoin(codec, 2, "")]
  {
    RoomCreated(codec, r);
    CreatedTakesJoin(codec, r);
    ArrivalComesFirst(codec, r);
  }

  function During(r: Requests): (events: seq<Event>) {
    [JoinEvent(r)]
  }

  /** Client 1 has read its log, leaves, and reads: it finds the arrival of client 2,
      takes the call for failed, and keeps a room code the server has cleared. */
  lemma ExitReadsArrival(codec: Codec, r: Requests)
    requires Suits(codec, r)
    ensures var events := Before(r) + During(r) + [ExitEvent(r)] + [];
            CleanRun(codec, events) && Stale(codec, Run(codec, Before(r)), Run(codec, events), 1, NewCode(r))
  {
    ArrivalDisturbs(codec, r);
    ExitIsClean(codec, Before(r) + During(r), r);
    DisturbedExit(codec, Before(r), During(r), ExitEvent(r), NewCode(r), [UserJoin(codec, 2, "")]);
  }

  /** With the plain codec, any payload that is not empty creates a room, and the code
      drawn, written out, joins it. */
  lemma PlainSuits(create: Bytes, env: Env)
    requires create != []
    ensures Suits(PLAIN, Requests(create, Ascii(Code(env.draws, 0)), env))
  {
    PlainIsFaithful();
    CodesAreCodes(env.draws, 0);
    CodeComesBack(Code(env.draws, 0));
    assert |Ascii(Code(env.draws, 0))| == CODE_LENGTH;
  }
}
