/** The stream of packets each client is sent: its session shape, its sizes, and
    what a client can conclude from it. */
module Sessions {
  import opened Protocol
  import opened Framing
  import opened Rooms
  import opened Clients
  import opened Payloads
  import opened Handlers
  import opened Membership
  import opened Outboxes

  /** ParseRoomResponsePacket. */
  function ReadRoomCode(codec: Codec, p: Packet): (text: string) {
    if p.payload == [] then "" else codec.roomCode(p.payload)
  }

  /** One packet of the grammar: entries only from outside, leaves and room
      traffic only inside, anything else anywhere. None: out of grammar. */
  function Follow(codec: Codec, at: Option<string>, p: Packet): (at': Option<string>) {
    match at
    case None => None
    case Some(code) =>
      if IsEntry(p) then
        if code == "" && ReadRoomCode(codec, p) != "" then Some(ReadRoomCode(codec, p)) else None
      else if IsLeave(p) then if code != "" then Some("") else None
      else if IsTraffic(p) then if code != "" then at else None
      else at
  }

  /** The room a reader of the whole log is in. */
  function Track(codec: Codec, log: seq<Packet>): (at': Option<string>) {
    if log == [] then Some("")
    else Follow(codec, Track(codec, log[..|log| - 1]), log[|log| - 1])
  }

  lemma TrackOne(codec: Codec, log: seq<Packet>, p: Packet)
    ensures Track(codec, log + [p]) == Follow(codec, Track(codec, log), p)
  {
    assert (log + [p])[..|log|] == log;
  }

  // ----- what the grammar means -----

  /** The last entry or leave in the log is an entry. */
  ghost predicate Inside(log: seq<Packet>) {
    exists j :: 0 <= j < |log| && IsEntry(log[j]) && NoneAfter(log, j)
  }

  ghost predicate NoneAfter(log: seq<Packet>, j: nat) {
    forall k :: j < k < |log| ==> !IsLeave(log[k]) && !IsEntry(log[k])
  }

  lemma InsideOne(log: seq<Packet>, p: Packet)
    ensures Inside(log + [p]) <==> IsEntry(p) || (Inside(log) && !IsLeave(p))
  {
    var n, longer := |log|, log + [p];
    if IsEntry(p) {
      assert IsEntry(longer[n]) && NoneAfter(longer, n);
    } else {
      forall j | 0 <= j < n
        ensures longer[j] == log[j] && (NoneAfter(longer, j) <==> NoneAfter(log, j) && !IsLeave(p))
      {
        assert forall k :: j < k < n ==> longer[k] == log[k];
        assert longer[n] == p;
      }
    }
  }

  lemma {:induction false} TrackedInside(codec: Codec, log: seq<Packet>)
    requires Track(codec, log).Some?
    ensures Track(codec, log).value != "" <==> Inside(log)
  {
    if log != [] {
      var n := |log| - 1;
      TrackedInside(codec, log[..n]);
      InsideOne(log[..n], log[n]);
      assert log[..n] + [log[n]] == log;
    }
  }

  /** A log in the grammar: room traffic and EXIT_OK only inside, entries only
      outside; so entries and exits alternate. */
  lemma {:induction false} SessionShape(codec: Codec, log: seq<Packet>, i: nat)
    requires Track(codec, log).Some? && i < |log|
    ensures IsTraffic(log[i]) || IsLeave(log[i]) ==> Inside(log[..i])
    ensures IsEntry(log[i]) ==> !Inside(log[..i])
  {
    var n := |log| - 1;
    if i < n {
      SessionShape(codec, log[..n], i);
      assert log[..n][i] == log[i] && log[..n][..i] == log[..i];
    } else {
      TrackedInside(codec, log[..n]);
    }
  }

  // ----- every client's log, on clean runs -----

  ghost predicate Tracked(codec: Codec, s: State) {
    forall x :: Track(codec, Outbox(s.out, x)) == Some(RoomOf(s.clients, x))
  }

  /** A reply moves the reader's room as the step moves the client's. */
  ghost predicate Answers(codec: Codec, s: State, s': State, fd: int, d: Sends) {
    if d.reply.Some? then
      Follow(codec, Some(RoomOf(s.clients, fd)), d.reply.value) == Some(RoomOf(s'.clients, fd))
    else RoomOf(s'.clients, fd) == RoomOf(s.clients, fd)
  }

  lemma EntryFollows(codec: Codec, p: Packet, code: string)
    requires Faithful(codec) && IsCode(code)
    requires IsEntry(p) && p.payload == Clip(codec.roomCodeText(code))
    ensures Follow(codec, Some(""), p) == Some(code)
  {
  }

  lemma HandlerSends(codec: Codec, s: State, e: Event) returns (d: Sends)
    requires Faithful(codec) && RoomsOk(s.rooms)
    requires e.Handle? && Clean(codec, s, e)
    ensures Emits(s, Step(codec, s, e), e.fd, d)
    ensures Answers(codec, s, Step(codec, s, e), e.fd, d)
    ensures e.packet.ptype in {CREATE_ROOM, JOIN_ROOM, EXIT_ROOM} ==> d.reply.Some? && !IsTraffic(d.reply.value)
    ensures e.packet.ptype == CREATE_ROOM ==> d.reply.value.ptype in {ROOM_CREATE_OK, ROOM_CREATE_FAIL}
    ensures e.packet.ptype == JOIN_ROOM ==> d.reply.value.ptype in {ROOM_JOIN_OK, ROOM_JOIN_FAIL}
    ensures e.packet.ptype == EXIT_ROOM && RoomOf(s.clients, e.fd) != "" ==> d.reply.value.ptype == ROOM_EXIT_OK
  {
    var fd, payload := e.fd, e.packet.payload;
    if e.packet.ptype == CREATE_ROOM {
      d := CreateSends(codec, s, fd, payload, e.env.draws);
      if d.reply.value.ptype == ROOM_CREATE_OK {
        EntryFollows(codec, d.reply.value, RoomOf(HandleCreate(codec, s, fd, payload, e.env.draws).clients, fd));
      }
    } else if e.packet.ptype == JOIN_ROOM {
      d := JoinSends(codec, s, fd, payload);
      if d.reply.value.ptype == ROOM_JOIN_OK {
        EntryFollows(codec, d.reply.value, RoomOf(HandleJoin(codec, s, fd, payload).clients, fd));
      }
    } else if e.packet.ptype == EXIT_ROOM {
      d := ExitSends(codec, s, fd);
    } else if e.packet.ptype == NICKNAME_REQUEST {
      d := NicknameSends(codec, s, fd, payload);
      NicknameStays(codec, s, fd, payload);
    } else if e.packet.ptype == MESSAGE_SEND {
      d := MessageSends(codec, s, fd, payload, e.env.now);
      MessageStays(codec, s, fd, payload, e.env.now);
    } else {
      d := Sends(None, "", [], None);
      assert s.out + [] + [] == s.out;
    }
  }

  lemma SilentStep(codec: Codec, s: State, e: Event)
    requires !e.Handle?
    ensures Step(codec, s, e).out == s.out
    ensures Clean(codec, s, e) ==> forall x :: RoomOf(Step(codec, s, e).clients, x) == RoomOf(s.clients, x)
  {
  }

  /** What reaches anyone is in the grammar at that point. */
  lemma DeliveredFollows(codec: Codec, s: State, s': State, fd: int, d: Sends, x: int)
    requires Agreed(s)
    requires x != fd ==> RoomOf(s'.clients, x) == RoomOf(s.clients, x)
    requires ToTheOthers(s.rooms, fd, d) && Answers(codec, s, s', fd, d)
    ensures var more := Delivered(s.rooms, fd, d, x);
            if more == [] then RoomOf(s'.clients, x) == RoomOf(s.clients, x)
            else |more| == 1 && Follow(codec, Some(RoomOf(s.clients, x)), more[0]) == Some(RoomOf(s'.clients, x))
  {
  }

  lemma TrackMore(codec: Codec, log: seq<Packet>, more: seq<Packet>, code: string, code': string)
    requires Track(codec, log) == Some(code)
    requires if more == [] then code' == code
             else |more| == 1 && Follow(codec, Some(code), more[0]) == Some(code')
    ensures Track(codec, log + more) == Some(code')
  {
    if more == [] {
      assert log + more == log;
    } else {
      TrackOne(codec, log, more[0]);
      assert more == [more[0]];
    }
  }

  lemma EmissionKeepsTracked(codec: Codec, s: State, s': State, fd: int, d: Sends)
    requires Tracked(codec, s)
    requires Agreed(s)
    requires forall x :: x != fd ==> RoomOf(s'.clients, x) == RoomOf(s.clients, x)
    requires Emits(s, s', fd, d) && Answers(codec, s, s', fd, d)
    ensures Tracked(codec, s')
  {
    forall x
      ensures Track(codec, Outbox(s'.out, x)) == Some(RoomOf(s'.clients, x))
    {
      OutboxAfter(s, s', fd, d, x);
      DeliveredFollows(codec, s, s', fd, d, x);
      TrackMore(codec, Outbox(s.out, x), Delivered(s.rooms, fd, d, x), RoomOf(s.clients, x), RoomOf(s'.clients, x));
    }
  }

  lemma StepKeepsTracked(codec: Codec, s: State, e: Event)
    requires Faithful(codec) && Clean(codec, s, e)
    requires Agreed(s)
    requires Tracked(codec, s)
    ensures Tracked(codec, Step(codec, s, e))
  {
    if e.Handle? {
      var d := HandlerSends(codec, s, e);
      var m := HandlerMoves(codec, s, e);
      EmissionKeepsTracked(codec, s, Step(codec, s, e), e.fd, d);
    } else {
      SilentStep(codec, s, e);
    }
  }

  lemma RunOneMore(codec: Codec, events: seq<Event>, e: Event)
    ensures Run(codec, events + [e]) == Step(codec, Run(codec, events), e)
    ensures CleanRun(codec, events + [e]) <==> CleanRun(codec, events) && Clean(codec, Run(codec, events), e)
  {
    assert (events + [e])[..|events|] == events;
  }

  /** On every clean run each client's log follows the session grammar, and the
      room its reader is in is the server's record for that client. */
  lemma {:induction false} LogsAreSessions(codec: Codec, events: seq<Event>)
    requires Faithful(codec) && CleanRun(codec, events)
    ensures Tracked(codec, Run(codec, events))
  {
    if events != [] {
      var before := events[..|events| - 1];
      LogsAreSessions(codec, before);
      RecordsAgree(codec, before);
      StepKeepsTracked(codec, Run(codec, before), events[|events| - 1]);
    }
  }

  /** On every clean run, each client is sent chats and presence only between an
      entry and the next EXIT_OK, and entries and EXIT_OKs in turn. */
  lemma SessionGrammar(codec: Codec, events: seq<Event>, fd: int, i: nat)
    requires Faithful(codec) && CleanRun(codec, events)
    requires i < |Outbox(Run(codec, events).out, fd)|
    ensures var log := Outbox(Run(codec, events).out, fd);
            && (IsTraffic(log[i]) || IsLeave(log[i]) ==> Inside(log[..i]))
            && (IsEntry(log[i]) ==> !Inside(log[..i]))
  {
    LogsAreSessions(codec, events);
    SessionShape(codec, Outbox(Run(codec, events).out, fd), i);
  }

  // ----- sizes -----

  ghost predicate AllSentFit(out: seq<Sent>) {
    forall i :: 0 <= i < |out| ==> Fits(out[i].packet)
  }

  lemma {:induction false} FanOutFits(members: seq<int>, packet: Packet, exclude: int)
    requires Fits(packet)
    ensures AllSentFit(FanOut(members, packet, exclude))
  {
    if members != [] {
      FanOutFits(members[1..], packet, exclude);
    }
  }

  lemma BroadcastFits(s: State, packet: Packet, code: string, exclude: int)
    requires AllSentFit(s.out) && Fits(packet)
    ensures AllSentFit(Broadcast(s, packet, code, exclude).out)
  {
    FanOutFits(MembersOf(s.rooms, code), packet, exclude);
  }

  lemma StepFits(codec: Codec, s: State, e: Event)
    requires Worded(codec) && AllSentFit(s.out)
    ensures AllSentFit(Step(codec, s, e).out)
  {
    if e.Handle? {
      var fd, payload := e.fd, e.packet.payload;
      forall reason
        ensures |codec.reasonText(reason)| <= 50
      {
        TextsAreShort(codec, reason);
      }
      if e.packet.ptype == JOIN_ROOM {
        JoinFits(codec, s, fd, payload);
      } else if e.packet.ptype == EXIT_ROOM {
        if fd in s.clients && s.clients[fd].roomCode != "" {
          BroadcastFits(s, UserExit(codec, fd, s.clients[fd].nickname), s.clients[fd].roomCode, fd);
        }
      } else if e.packet.ptype == MESSAGE_SEND {
        match ChatPacket(codec, s.clients, fd, payload, e.env.now)
        case None =>
        case Some(packet) => BroadcastFits(s, packet, s.clients[fd].roomCode, fd);
      } else if e.packet.ptype == CREATE_ROOM {
        CreateFits(codec, s, fd, payload, e.env.draws);
      } else if e.packet.ptype == NICKNAME_REQUEST {
        NicknameFits(codec, s, fd, payload);
      }
    }
  }

  lemma JoinFits(codec: Codec, s: State, fd: int, payload: Bytes)
    requires AllSentFit(s.out) && forall reason :: |codec.reasonText(reason)| <= 50
    ensures AllSentFit(HandleJoin(codec, s, fd, payload).out)
  {
    match codec.join(payload)
    case Join(code) =>
      if fd in s.clients && s.clients[fd].roomCode == "" {
        var (rooms, joined) := JoinRoom(s.rooms, fd, code);
        if joined {
          var s' := s.(rooms := rooms, clients := SetRoomCode(s.clients, fd, code));
          BroadcastFits(s', UserJoin(codec, fd, s.clients[fd].nickname), code, fd);
        }
      }
    case _ =>
  }

  lemma CreateFits(codec: Codec, s: State, fd: int, payload: Bytes, draws: Draws)
    requires AllSentFit(s.out) && forall reason :: |codec.reasonText(reason)| <= 50
    ensures AllSentFit(HandleCreate(codec, s, fd, payload, draws).out)
  {
  }

  lemma NicknameFits(codec: Codec, s: State, fd: int, payload: Bytes)
    requires AllSentFit(s.out) && forall reason :: |codec.reasonText(reason)| <= 50
    ensures AllSentFit(HandleNickname(codec, s, fd, payload).out)
  {
  }

  lemma {:induction false} EverythingFits(codec: Codec, events: seq<Event>)
    requires Worded(codec)
    ensures AllSentFit(Run(codec, events).out)
  {
    if events != [] {
      var before := events[..|events| - 1];
      EverythingFits(codec, before);
      StepFits(codec, Run(codec, before), events[|events| - 1]);
    }
  }

  lemma {:induction false} OutboxFits(out: seq<Sent>, fd: int)
    requires AllSentFit(out)
    ensures AllFit(Outbox(out, fd))
  {
    if out != [] {
      OutboxFits(out[..|out| - 1], fd);
    }
  }

  /** On every run, a client reading the server's output to it, cut anywhere, reads
      the packets sent and never meets an oversized payload. */
  lemma ClientNeverOversized(codec: Codec, events: seq<Event>, fd: int, w: Bytes)
    requires Worded(codec)
    requires w <= FrameAll(Outbox(Run(codec, events).out, fd))
    ensures !ReceiveAll(w).oversized
    ensures ReceiveAll(w).packets <= Outbox(Run(codec, events).out, fd)
  {
    EverythingFits(codec, events);
    OutboxFits(Run(codec, events).out, fd);
    ClientReadsWhatWasSent(Outbox(Run(codec, events).out, fd), w);
  }
}
