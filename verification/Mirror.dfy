/** The client's own idea of its room, against the server's. */
module Mirror {
  import opened Protocol
  import opened Rooms
  import opened Clients
  import opened Payloads
  import opened Handlers
  import opened Membership
  import opened Outboxes
  import opened Sessions

  /** m_current_room_code after a RoomService call that sent `request` and took
      `response` for its answer. */
  function MirrorAfter(codec: Codec, request: uint16, mirror: string, response: Packet): (mirror': string) {
    if request == CREATE_ROOM && response.ptype == ROOM_CREATE_OK && ReadRoomCode(codec, response) != "" then
      ReadRoomCode(codec, response)
    else if request == JOIN_ROOM && response.ptype == ROOM_JOIN_OK && ReadRoomCode(codec, response) != "" then
      ReadRoomCode(codec, response)
    else if request == EXIT_ROOM && response.ptype == ROOM_EXIT_OK then ""
    else mirror
  }

  predicate IsChatRequest(e: Event, fd: int) {
    e.fd == fd && e.Handle? && e.packet.ptype == MESSAGE_SEND
  }

  /** Nothing in this stretch of events is of this descriptor but the chats it sends,
      which ask for no answer. */
  ghost predicate Quiet(events: seq<Event>, fd: int) {
    forall i :: 0 <= i < |events| ==> events[i].fd != fd || IsChatRequest(events[i], fd)
  }

  ghost predicate AllTraffic(log: seq<Packet>) {
    forall i :: 0 <= i < |log| ==> IsTraffic(log[i])
  }

  lemma OthersStep(codec: Codec, s: State, e: Event, fd: int) returns (t: seq<Packet>)
    requires Faithful(codec) && Agreed(s) && Clean(codec, s, e) && e.fd != fd
    ensures Outbox(Step(codec, s, e).out, fd) == Outbox(s.out, fd) + t
    ensures AllTraffic(t) && (RoomOf(s.clients, fd) == "" ==> t == [])
    ensures RoomOf(Step(codec, s, e).clients, fd) == RoomOf(s.clients, fd)
  {
    if e.Handle? {
      var d := HandlerSends(codec, s, e);
      var m := HandlerMoves(codec, s, e);
      OutboxAfter(s, Step(codec, s, e), e.fd, d, fd);
      t := Delivered(s.rooms, e.fd, d, fd);
      assert In(s.rooms, fd, d.code) <==> Live(s.clients, fd, d.code);
    } else {
      SilentStep(codec, s, e);
      t := [];
      assert Outbox(s.out, fd) + [] == Outbox(s.out, fd);
    }
  }

  lemma OwnChat(codec: Codec, s: State, e: Event, fd: int)
    requires RoomsOk(s.rooms) && IsChatRequest(e, fd)
    ensures Outbox(Step(codec, s, e).out, fd) == Outbox(s.out, fd)
    ensures RoomOf(Step(codec, s, e).clients, fd) == RoomOf(s.clients, fd)
  {
    var d := MessageSends(codec, s, fd, e.packet.payload, e.env.now);
    OutboxAfter(s, Step(codec, s, e), fd, d, fd);
    assert Outbox(s.out, fd) + [] == Outbox(s.out, fd);
    MessageStays(codec, s, fd, e.packet.payload, e.env.now);
  }

  lemma QuietStep(codec: Codec, s: State, e: Event, fd: int) returns (t: seq<Packet>)
    requires Faithful(codec) && Agreed(s) && Clean(codec, s, e) && (e.fd != fd || IsChatRequest(e, fd))
    ensures Outbox(Step(codec, s, e).out, fd) == Outbox(s.out, fd) + t
    ensures AllTraffic(t) && (RoomOf(s.clients, fd) == "" ==> t == [])
    ensures RoomOf(Step(codec, s, e).clients, fd) == RoomOf(s.clients, fd)
  {
    if e.fd != fd {
      t := OthersStep(codec, s, e, fd);
    } else {
      OwnChat(codec, s, e, fd);
      t := [];
      assert Outbox(s.out, fd) + [] == Outbox(s.out, fd);
    }
  }

  /** While others act and it chats, a client is sent only room traffic, and only
      inside. */
  lemma {:induction false} OthersBringTraffic(codec: Codec, events: seq<Event>, more: seq<Event>, fd: int)
    returns (t: seq<Packet>)
    requires Faithful(codec) && CleanRun(codec, events + more) && Quiet(more, fd)
    ensures CleanRun(codec, events)
    ensures Outbox(Run(codec, events + more).out, fd) == Outbox(Run(codec, events).out, fd) + t
    ensures AllTraffic(t) && (RoomOf(Run(codec, events).clients, fd) == "" ==> t == [])
    ensures RoomOf(Run(codec, events + more).clients, fd) == RoomOf(Run(codec, events).clients, fd)
    decreases |more|
  {
    if more == [] {
      assert events + more == events;
      t := [];
      assert Outbox(Run(codec, events).out, fd) + [] == Outbox(Run(codec, events).out, fd);
    } else {
      var n := |more| - 1;
      assert events + more == (events + more[..n]) + [more[n]];
      RunOneMore(codec, events + more[..n], more[n]);
      var t0 := OthersBringTraffic(codec, events, more[..n], fd);
      RecordsAgree(codec, events + more[..n]);
      var t1 := QuietStep(codec, Run(codec, events + more[..n]), more[n], fd);
      Associative(Outbox(Run(codec, events).out, fd), t0, t1);
      t := t0 + t1;
    }
  }

  lemma OwnStep(codec: Codec, s: State, req: Event) returns (reply: Packet)
    requires Faithful(codec) && Agreed(s) && Clean(codec, s, req)
    requires req.Handle? && req.packet.ptype in {CREATE_ROOM, JOIN_ROOM, EXIT_ROOM}
    ensures Outbox(Step(codec, s, req).out, req.fd) == Outbox(s.out, req.fd) + [reply]
    ensures !IsTraffic(reply)
    ensures req.packet.ptype == CREATE_ROOM ==> reply.ptype in {ROOM_CREATE_OK, ROOM_CREATE_FAIL}
    ensures req.packet.ptype == JOIN_ROOM ==> reply.ptype in {ROOM_JOIN_OK, ROOM_JOIN_FAIL}
    ensures req.packet.ptype == EXIT_ROOM && RoomOf(s.clients, req.fd) != "" ==> reply.ptype == ROOM_EXIT_OK
    ensures Follow(codec, Some(RoomOf(s.clients, req.fd)), reply) == Some(RoomOf(Step(codec, s, req).clients, req.fd))
  {
    var d := HandlerSends(codec, s, req);
    OutboxAfter(s, Step(codec, s, req), req.fd, d, req.fd);
    reply := d.reply.value;
  }

  /** A call in a clean run: the client has read everything (`before`), others act and
      its own chats are handled while its request is on the way (`during`), the server
      handles it, and so on until the client reads (`after`). Its log then grew by
      traffic, the reply, and traffic. */
  lemma CallShape(codec: Codec, before: seq<Event>, during: seq<Event>, req: Event, after: seq<Event>)
    returns (t0: seq<Packet>, reply: Packet, t1: seq<Packet>)
    requires Faithful(codec) && CleanRun(codec, before + during + [req] + after)
    requires req.Handle? && req.packet.ptype in {CREATE_ROOM, JOIN_ROOM, EXIT_ROOM}
    requires Quiet(during, req.fd) && Quiet(after, req.fd)
    ensures var s0, s1 := Run(codec, before), Run(codec, before + during + [req] + after);
            && Outbox(Run(codec, before + during).out, req.fd) == Outbox(s0.out, req.fd) + t0
            && Outbox(s1.out, req.fd) == Outbox(s0.out, req.fd) + t0 + [reply] + t1
            && AllTraffic(t0) && (RoomOf(s0.clients, req.fd) == "" ==> t0 == [])
            && AllTraffic(t1)
            && Follow(codec, Some(RoomOf(s0.clients, req.fd)), reply) == Some(RoomOf(s1.clients, req.fd))
            && (req.packet.ptype == EXIT_ROOM && RoomOf(s0.clients, req.fd) != "" ==> reply.ptype == ROOM_EXIT_OK)
    ensures !IsTraffic(reply)
    ensures req.packet.ptype == CREATE_ROOM ==> reply.ptype in {ROOM_CREATE_OK, ROOM_CREATE_FAIL}
    ensures req.packet.ptype == JOIN_ROOM ==> reply.ptype in {ROOM_JOIN_OK, ROOM_JOIN_FAIL}
  {
    var handled := before + during + [req];
    t1 := OthersBringTraffic(codec, handled, after, req.fd);
    RunOneMore(codec, before + during, req);
    t0 := OthersBringTraffic(codec, before, during, req.fd);
    RecordsAgree(codec, before + during);
    reply := OwnStep(codec, Run(codec, before + during), req);
  }

  /** The packet read first after the drained log. */
  function FirstRead(box0: seq<Packet>, box1: seq<Packet>): (read: Packet)
    requires |box0| < |box1|
  {
    box1[|box0|]
  }

  lemma FirstIs(box0: seq<Packet>, t0: seq<Packet>, reply: Packet, t1: seq<Packet>)
    ensures var box1 := box0 + t0 + [reply] + t1;
            |box0| < |box1| && FirstRead(box0, box1) == if t0 == [] then reply else t0[0]
  {
  }

  /** CREATE_ROOM and JOIN_ROOM, from anywhere: the client's room code, if it was the
      server's, is the server's afterwards. The packet read is the reply if and only
      if nothing was sent to the client before its request was handled, and from
      outside any room nothing ever is. */
  lemma EnteringCallAgrees(codec: Codec, before: seq<Event>, during: seq<Event>, req: Event, after: seq<Event>,
          mirror: string)
    requires Faithful(codec) && CleanRun(codec, before + during + [req] + after)
    requires req.Handle? && req.packet.ptype in {CREATE_ROOM, JOIN_ROOM}
    requires Quiet(during, req.fd) && Quiet(after, req.fd)
    requires mirror == RoomOf(Run(codec, before).clients, req.fd)
    ensures var s0, s1 := Run(codec, before), Run(codec, before + during + [req] + after);
            var box0, box1 := Outbox(s0.out, req.fd), Outbox(s1.out, req.fd);
            var undisturbed := Outbox(Run(codec, before + during).out, req.fd) == box0;
            && |box0| < |box1|
            && (mirror == "" ==> undisturbed)
            && (IsReplyTo(req.packet.ptype, FirstRead(box0, box1)) <==> undisturbed)
            && MirrorAfter(codec, req.packet.ptype, mirror, FirstRead(box0, box1)) == RoomOf(s1.clients, req.fd)
  {
    var t0, reply, t1 := CallShape(codec, before, during, req, after);
    var box0 := Outbox(Run(codec, before).out, req.fd);
    FirstIs(box0, t0, reply, t1);
    assert t0 == [] ==> box0 + t0 == box0;
    assert t0 != [] ==> |box0 + t0| > |box0| && IsTraffic(t0[0]);
    var s1 := Run(codec, before + during + [req] + after);
    EntryMirrored(codec, req.packet.ptype, mirror, reply, RoomOf(s1.clients, req.fd));
  }

  predicate IsReplyTo(request: uint16, p: Packet) {
    || (request == CREATE_ROOM && p.ptype in {ROOM_CREATE_OK, ROOM_CREATE_FAIL})
    || (request == JOIN_ROOM && p.ptype in {ROOM_JOIN_OK, ROOM_JOIN_FAIL})
    || (request == EXIT_ROOM && p.ptype in {ROOM_EXIT_OK, ROOM_EXIT_FAIL})
  }

  /** Taken for the answer, the reply moves the mirror as it moves the record; from
      inside, neither moves. */
  lemma EntryMirrored(codec: Codec, request: uint16, mirror: string, reply: Packet, code: string)
    requires request in {CREATE_ROOM, JOIN_ROOM} && IsReplyTo(request, reply)
    requires Follow(codec, Some(mirror), reply) == Some(code)
    ensures MirrorAfter(codec, request, mirror, reply) == code
    ensures mirror != "" ==> code == mirror
  {
  }

  /** EXIT_ROOM from inside: the client's room code is the server's afterwards if and
      only if no room traffic was sent to it before the exit was handled. If some
      was, the call takes that for its answer and the client stays behind. (From
      outside, the client does not even ask.) */
  lemma ExitCallAgrees(codec: Codec, before: seq<Event>, during: seq<Event>, req: Event, after: seq<Event>,
          mirror: string)
    requires Faithful(codec) && CleanRun(codec, before + during + [req] + after)
    requires req.Handle? && req.packet.ptype == EXIT_ROOM
    requires Quiet(during, req.fd) && Quiet(after, req.fd)
    requires mirror == RoomOf(Run(codec, before).clients, req.fd) != ""
    ensures var s0, s1 := Run(codec, before), Run(codec, before + during + [req] + after);
            var box0, box1 := Outbox(s0.out, req.fd), Outbox(s1.out, req.fd);
            var undisturbed := Outbox(Run(codec, before + during).out, req.fd) == box0;
            && |box0| < |box1|
            && RoomOf(s1.clients, req.fd) == ""
            && (IsReplyTo(EXIT_ROOM, FirstRead(box0, box1)) <==> undisturbed)
            && (undisturbed ==> FirstRead(box0, box1).ptype == ROOM_EXIT_OK)
            && (MirrorAfter(codec, EXIT_ROOM, mirror, FirstRead(box0, box1)) == RoomOf(s1.clients, req.fd)
                <==> undisturbed)
  {
    var t0, reply, t1 := CallShape(codec, before, during, req, after);
    var box0 := Outbox(Run(codec, before).out, req.fd);
    FirstIs(box0, t0, reply, t1);
    assert t0 == [] ==> box0 + t0 == box0;
    assert t0 != [] ==> |box0 + t0| > |box0| && IsTraffic(t0[0]);
  }
}
