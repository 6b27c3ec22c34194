/** The client's RoomService: one request, one packet read, and the room code kept. */
module RoomServices {
  import opened Protocol
  import opened Framing
  import opened Endpoints
  import opened Answers
  import opened Rooms
  import opened Clients
  import opened Payloads
  import opened Handlers
  import opened Outboxes
  import opened Sessions
  import opened Mirror

  /** The packets the client builds. The payload array holds MAX_PAYLOAD_SIZE bytes. */
  function CreateRequestPacket(codec: Codec, roomName: string, maxUsers: int32): (packet: Packet) {
    Packet(CREATE_ROOM, codec.createText(roomName, maxUsers))
  }

  function JoinRequestPacket(codec: Codec, roomCode: string): (packet: Packet) {
    Packet(JOIN_ROOM, codec.joinText(roomCode))
  }

  const EXIT_REQUEST := Packet(EXIT_ROOM, [])

  /** The packet an exchange reads from what is coming in, if a whole one comes. */
  function AnswerIn(inbox: Bytes): (r: Option<Packet>) {
    match Receive(inbox)
    case Got(p, rest) => Some(p)
    case _ => None
  }

  /** The room code after a call that read an answer, or none. */
  function CodeAfter(codec: Codec, request: uint16, mirror: string, answer: Option<Packet>): (text: string) {
    if answer == None then mirror else MirrorAfter(codec, request, mirror, answer.value)
  }

  class RoomService {
    const codec: Codec
    const net: NetworkClient
    var currentRoomCode: string

    constructor (codec: Codec, net: NetworkClient)
      ensures this.codec == codec && this.net == net && currentRoomCode == ""
    {
      this.codec, this.net, currentRoomCode := codec, net, "";
    }

    /** What an exchange reads: the request must go out whole, a whole frame come in. */
    ghost function Answer(request: Packet): (answer: Option<Packet>)
      reads net, net.socket
    {
      if !net.connected || !Transmit(|Frame(request)|, 0, net.socket.script, false).ok then None
      else AnswerIn(net.socket.inbox)
    }

    /** What went out: nothing without a connection, otherwise the frame as far as the
        kernel took it, all of it unless it failed. */
    ghost predicate Wrote(request: Packet, connected: bool, wire: Bytes, script: seq<IoResult>)
      reads net.socket
    {
      net.socket.wire
      == wire + if connected then Frame(request)[..Transmit(|Frame(request)|, 0, script, false).sent] else []
    }

    /** Send, then receive one packet. */
    method Exchange(request: Packet) returns (response: Option<Packet>)
      requires Fits(request)
      modifies net`connected, net.socket
      ensures response == old(Answer(request))
      ensures Wrote(request, old(net.connected), old(net.socket.wire), old(net.socket.script))
    {
      var sent := net.Send(request);
      if !sent {
        return None;
      }
      response := net.Receive();
    }

    method CreateRoom(roomName: string, maxUsers: int32) returns (ok: bool, outRoomCode: string)
      requires |codec.createText(roomName, maxUsers)| <= MAX_PAYLOAD_SIZE
      modifies this`currentRoomCode, net`connected, net.socket
      ensures var answer := old(Answer(CreateRequestPacket(codec, roomName, maxUsers)));
              && currentRoomCode == CodeAfter(codec, CREATE_ROOM, old(currentRoomCode), answer)
              && (ok <==>
                    answer.Some? && answer.value.ptype == ROOM_CREATE_OK && ReadRoomCode(codec, answer.value) != "")
      ensures ok ==> outRoomCode == currentRoomCode != ""
      ensures ok ==> var payload := old(Answer(CreateRequestPacket(codec, roomName, maxUsers))).value.payload;
                     payload != [] && currentRoomCode == codec.roomCode(payload)
      ensures !ok ==> currentRoomCode == old(currentRoomCode)
      ensures Wrote(Packet(301, codec.createText(roomName, maxUsers)), old(net.connected), old(net.socket.wire),
                    old(net.socket.script))
    {
      outRoomCode := "";
      var answer := Exchange(CreateRequestPacket(codec, roomName, maxUsers));
      if answer == None {
        return false, "";
      }
      var response := answer.value;
      if response.ptype == ROOM_CREATE_OK {
        var roomCode := ReadRoomCode(codec, response);
        if roomCode != "" {
          currentRoomCode := roomCode;
          return true, roomCode;
        }
      }
      return false, "";
    }

    method JoinRoom(roomCode: string) returns (ok: bool)
      requires |codec.joinText(roomCode)| <= MAX_PAYLOAD_SIZE
      modifies this`currentRoomCode, net`connected, net.socket
      ensures var answer := old(Answer(JoinRequestPacket(codec, roomCode)));
              && currentRoomCode == CodeAfter(codec, JOIN_ROOM, old(currentRoomCode), answer)
              && (ok <==> answer.Some? && answer.value.ptype == ROOM_JOIN_OK && ReadRoomCode(codec, answer.value) != "")
      ensures ok ==> var payload := old(Answer(JoinRequestPacket(codec, roomCode))).value.payload;
                     payload != [] && currentRoomCode == codec.roomCode(payload) != ""
      ensures !ok ==> currentRoomCode == old(currentRoomCode)
      ensures Wrote(Packet(303, codec.joinText(roomCode)), old(net.connected), old(net.socket.wire),
                    old(net.socket.script))
    {
      var answer := Exchange(JoinRequestPacket(codec, roomCode));
      if answer == None {
        return false;
      }
      var response := answer.value;
      if response.ptype == ROOM_JOIN_OK {
        var joinedRoomCode := ReadRoomCode(codec, response);
        if joinedRoomCode != "" {
          currentRoomCode := joinedRoomCode;
          return true;
        }
      }
      return false;
    }

    /** Without a room of its own the client does not even ask. */
    method ExitRoom() returns (ok: bool)
      modifies this`currentRoomCode, net`connected, net.socket
      ensures currentRoomCode == if ok then "" else old(currentRoomCode)
      ensures old(currentRoomCode) == "" ==> !ok && currentRoomCode == "" && unchanged(net) && unchanged(net.socket)
      ensures old(currentRoomCode) != "" ==>
              var answer := old(Answer(EXIT_REQUEST));
              && currentRoomCode == CodeAfter(codec, EXIT_ROOM, old(currentRoomCode), answer)
              && (ok <==> answer.Some? && answer.value.ptype == ROOM_EXIT_OK)
              && Wrote(Packet(302, []), old(net.connected), old(net.socket.wire), old(net.socket.script))
    {
      if currentRoomCode == "" {
        return false;
      }
      var answer := Exchange(EXIT_REQUEST);
      if answer == None {
        return false;
      }
      if answer.value.ptype == ROOM_EXIT_OK {
        currentRoomCode := "";
        return true;
      }
      return false;
    }
  }

  // ----- the calls against the server's runs -----

  lemma ReadsNext(box0: seq<Packet>, box1: seq<Packet>)
    requires AllFit(box1) && |box0| < |box1|
    ensures AnswerIn(FrameAll(box1[|box0|..])) == Some(FirstRead(box0, box1))
  {
    var unread := box1[|box0|..];
    FrameParses(unread[0], FrameAll(unread[1..]));
  }

  lemma MirrorAfterReading(codec: Codec, request: uint16, mirror: string, box0: seq<Packet>, box1: seq<Packet>,
          code: string)
    requires AllFit(box1) && |box0| < |box1|
    ensures CodeAfter(codec, request, mirror, AnswerIn(FrameAll(box1[|box0|..]))) == code
            <==> MirrorAfter(codec, request, mirror, FirstRead(box0, box1)) == code
  {
    ReadsNext(box0, box1);
  }

  lemma LogFits(codec: Codec, events: seq<Event>, fd: int)
    requires Worded(codec)
    ensures AllFit(Outbox(Run(codec, events).out, fd))
  {
    EverythingFits(codec, events);
    OutboxFits(Run(codec, events).out, fd);
  }

  /** CreateRoom and JoinRoom, called from anywhere, leave the client's room code as
      the server's, reading the bytes of everything sent since its last read. */
  lemma EnteringKeepsMirror(codec: Codec, before: seq<Event>, during: seq<Event>, req: Event, after: seq<Event>,
                            mirror: string)
    requires Faithful(codec) && Worded(codec) && CleanRun(codec, before + during + [req] + after)
    requires req.Handle? && req.packet.ptype in {CREATE_ROOM, JOIN_ROOM}
    requires Quiet(during, req.fd) && Quiet(after, req.fd)
    requires mirror == RoomOf(Run(codec, before).clients, req.fd)
    ensures var s0, s1 := Run(codec, before), Run(codec, before + during + [req] + after);
            var box0, box1 := Outbox(s0.out, req.fd), Outbox(s1.out, req.fd);
            && |box0| < |box1|
            && CodeAfter(codec, req.packet.ptype, mirror, AnswerIn(FrameAll(box1[|box0|..])))
                == RoomOf(s1.clients, req.fd)
  {
    var events := before + during + [req] + after;
    EnteringCallAgrees(codec, before, during, req, after, mirror);
    LogFits(codec, events, req.fd);
    MirrorAfterReading(codec, req.packet.ptype, mirror, Outbox(Run(codec, before).out, req.fd),
                       Outbox(Run(codec, events).out, req.fd), RoomOf(Run(codec, events).clients, req.fd));
  }

  /** ExitRoom from inside does so if and only if nothing reached the client between
      its last read and the handling of its request. */
  lemma ExitKeepsMirror(codec: Codec, before: seq<Event>, during: seq<Event>, req: Event, after: seq<Event>,
          mirror: string)
    requires Faithful(codec) && Worded(codec) && CleanRun(codec, before + during + [req] + after)
    requires req.Handle? && req.packet.ptype == EXIT_ROOM
    requires Quiet(during, req.fd) && Quiet(after, req.fd)
    requires mirror == RoomOf(Run(codec, before).clients, req.fd) != ""
    ensures var s0, s1 := Run(codec, before), Run(codec, before + during + [req] + after);
            var box0, box1 := Outbox(s0.out, req.fd), Outbox(s1.out, req.fd);
            && |box0| < |box1|
            && (CodeAfter(codec, EXIT_ROOM, mirror, AnswerIn(FrameAll(box1[|box0|..]))) == RoomOf(s1.clients, req.fd)
                <==> Outbox(Run(codec, before + during).out, req.fd) == box0)
  {
    var events := before + during + [req] + after;
    ExitCallAgrees(codec, before, during, req, after, mirror);
    LogFits(codec, events, req.fd);
    MirrorAfterReading(codec, EXIT_ROOM, mirror, Outbox(Run(codec, before).out, req.fd),
                       Outbox(Run(codec, events).out, req.fd), RoomOf(Run(codec, events).clients, req.fd));
  }

  // ----- what the server makes of the requests -----

  /** The bytes of a request are one packet to the server. */
  lemma RequestParses(request: Packet)
    requires Fits(request)
    ensures Parse(Frame(request)) == Parsed([request], [])
  {
    FrameParses(request, []);
    assert Frame(request) + [] == Frame(request);
    assert [request] + [] == [request];
  }

  /** The bytes JoinRoom sends, parsed and handled, bring a client outside into the room,
      if it has a place and the server reads what the client writes. */
  lemma JoinBytesJoin(codec: Codec, s: State, fd: int, code: string, env: Env)
    requires |codec.joinText(code)| <= MAX_PAYLOAD_SIZE && codec.join(codec.joinText(code)) == Join(code)
    requires RoomsOk(s.rooms) && fd in s.clients && s.clients[fd].roomCode == "" && code in s.rooms
    requires |s.rooms[code].members| < AsSize(s.rooms[code].maxUsers) && fd !in s.rooms[code].members
    ensures var packets := Parse(Frame(JoinRequestPacket(codec, code))).packets;
            |packets| == 1 &&
            var s' := HandlePacket(codec, s, fd, packets[0], env);
            RoomOf(s'.clients, fd) == code && In(s'.rooms, fd, code)
  {
    RequestParses(JoinRequestPacket(codec, code));
    JoinGranted(codec, s, fd, codec.joinText(code), env, code, fd);
  }

  /** Those CreateRoom sends bring up the room asked for, with the client in it. */
  lemma CreateBytesCreate(codec: Codec, s: State, fd: int, name: string, maxUsers: int32, env: Env, k: nat)
    requires |codec.createText(name, maxUsers)| <= MAX_PAYLOAD_SIZE
    requires codec.create(codec.createText(name, maxUsers)) == Create(name, maxUsers) && maxUsers != 0
    requires fd in s.clients && |s.rooms| < 100
    requires k < 100 && Code(env.draws, k) !in s.rooms && forall j :: 0 <= j < k ==> Code(env.draws, j) in s.rooms
    ensures var packets := Parse(Frame(CreateRequestPacket(codec, name, maxUsers))).packets;
            |packets| == 1 &&
            var s', code := HandlePacket(codec, s, fd, packets[0], env), Code(env.draws, k);
            RoomOf(s'.clients, fd) == code && s'.rooms == s.rooms[code := RoomView(code, name, maxUsers, [fd])]
  {
    RequestParses(CreateRequestPacket(codec, name, maxUsers));
    CreateGranted(codec, s, fd, codec.createText(name, maxUsers), env, k);
  }

  /** And those ExitRoom sends take it out. */
  lemma ExitBytesExit(codec: Codec, s: State, fd: int, env: Env)
    requires RoomsOk(s.rooms) && fd in s.clients && s.clients[fd].roomCode != ""
    ensures var packets := Parse(Frame(EXIT_REQUEST)).packets;
            |packets| == 1 &&
            var s' := HandlePacket(codec, s, fd, packets[0], env);
            RoomOf(s'.clients, fd) == "" && !In(s'.rooms, fd, s.clients[fd].roomCode)
  {
    RequestParses(EXIT_REQUEST);
    ExitGranted(codec, s, fd, [], env, fd);
  }
}
