/** Who gets which chat message, and in which order. */
module Chats {
  import opened Protocol
  import opened Rooms
  import opened Clients
  import opened Payloads
  import opened Handlers
  import opened Membership
  import opened Outboxes
  import opened Records

  predicate IsChatFrom(codec: Codec, p: Packet, sender: int) {
    p.ptype == MESSAGE_CHAT && codec.senderFd(p.payload) == sender
  }

  /** The chats in a log that name the sender, as their reader sees it. */
  function ChatsFrom(codec: Codec, log: seq<Packet>, sender: int): (chats: seq<Packet>) {
    if log == [] then []
    else
      var last := log[|log| - 1];
      ChatsFrom(codec, log[..|log| - 1], sender) + if IsChatFrom(codec, last, sender) then [last] else []
  }

  /** The chat this step owes the recipient: the sender's MESSAGE_SEND that may be
      sent and fits, handled while both are in the same room. */
  function ChatDue(codec: Codec, s: State, e: Event, sender: int, recipient: int): (due: seq<Packet>) {
    if !(e.Handle? && e.fd == sender && e.packet.ptype == MESSAGE_SEND) || recipient == sender
       || RoomOf(s.clients, recipient) != RoomOf(s.clients, sender)
    then []
    else if MayChat(codec, s.clients, sender, e.packet.payload, e.env.now) then
      [Packet(1101, ChatTextOf(codec, s.clients[sender], sender, e.packet.payload, e.env.now))]
    else []
  }

  /** A handled MESSAGE_SEND adds to the outbox of every other descriptor listed in its
      sender's room one packet, with the sender's descriptor, address and name, the
      parsed message and the time. It does so exactly if the sender is connected,
      authenticated and in a room, the payload parses and the text is at most 1024
      bytes. Otherwise no outbox changes, and no table ever does. */
  lemma MessageReaches(codec: Codec, s: State, fd: int, payload: Bytes, env: Env, x: int)
    requires RoomsOk(s.rooms)
    ensures var s' := HandlePacket(codec, s, fd, Packet(201, payload), env);
            var allowed := && fd in s.clients && s.clients[fd].isAuthenticated && s.clients[fd].roomCode != ""
                           && codec.message(payload).Some?;
            && s'.clients == s.clients && s'.nicknames == s.nicknames && s'.rooms == s.rooms
            && (!allowed ==> s'.out == s.out)
            && (allowed ==>
                  var text := codec.chatText(Chat(fd, s.clients[fd].ip, s.clients[fd].nickname,
                                                  codec.message(payload).value, env.now));
                  && (|text| > 1024 ==> s'.out == s.out)
                  && (|text| <= 1024 ==>
                        Outbox(s'.out, x) == Outbox(s.out, x)
                                             + if x != fd && In(s.rooms, x, s.clients[fd].roomCode)
                                               then [Packet(1101, text)]
                                               else []))
  {
    var d := MessageSends(codec, s, fd, payload, env.now);
    OutboxAfter(s, HandleMessage(codec, s, fd, payload, env.now), fd, d, x);
    MessageStays(codec, s, fd, payload, env.now);
    assert s.out + [] == s.out;
  }

  function ChatsDue(codec: Codec, events: seq<Event>, sender: int, recipient: int): (due: seq<Packet>) {
    if events == [] then []
    else
      var before := events[..|events| - 1];
      ChatsDue(codec, before, sender, recipient)
      + ChatDue(codec, Run(codec, before), events[|events| - 1], sender, recipient)
  }

  lemma ChatsFromMore(codec: Codec, log: seq<Packet>, more: seq<Packet>, sender: int)
    requires |more| <= 1
    ensures ChatsFrom(codec, log + more, sender)
         == ChatsFrom(codec, log, sender) + if more != [] && IsChatFrom(codec, more[0], sender) then more else []
  {
    if more == [] {
      assert log + more == log;
      assert ChatsFrom(codec, log, sender) + [] == ChatsFrom(codec, log, sender);
    } else {
      assert (log + more)[..|log + more| - 1] == log;
      assert more == [more[0]];
    }
  }

  /** The chat a handled MESSAGE_SEND makes, if any. */
  function ChatOut(codec: Codec, s: State, e: Event): (chat: Option<Packet>)
    requires e.Handle?
  {
    if MayChat(codec, s.clients, e.fd, e.packet.payload, e.env.now)
    then Some(Packet(1101, ChatTextOf(codec, s.clients[e.fd], e.fd, e.packet.payload, e.env.now)))
    else None
  }

  /** Only a handled MESSAGE_SEND makes a chat. */
  lemma HandlerChats(codec: Codec, s: State, e: Event) returns (d: Sends)
    requires RoomsOk(s.rooms) && e.Handle?
    ensures Emits(s, Step(codec, s, e), e.fd, d)
    ensures d.reply.Some? ==> d.reply.value.ptype != MESSAGE_CHAT
    ensures e.packet.ptype != MESSAGE_SEND && d.cast.Some? ==> d.cast.value.ptype != MESSAGE_CHAT
    ensures e.packet.ptype == MESSAGE_SEND ==>
            && d.cast == ChatOut(codec, s, e)
            && (d.cast.Some? ==> d.code == RoomOf(s.clients, e.fd))
  {
    var fd, payload := e.fd, e.packet.payload;
    if e.packet.ptype == CREATE_ROOM {
      d := CreateSends(codec, s, fd, payload, e.env.draws);
    } else if e.packet.ptype == JOIN_ROOM {
      d := JoinSends(codec, s, fd, payload);
    } else if e.packet.ptype == EXIT_ROOM {
      d := ExitSends(codec, s, fd);
    } else if e.packet.ptype == NICKNAME_REQUEST {
      d := NicknameSends(codec, s, fd, payload);
    } else if e.packet.ptype == MESSAGE_SEND {
      d := MessageSends(codec, s, fd, payload, e.env.now);
    } else {
      d := Sends(None, "", [], None);
      assert s.out + [] + [] == s.out;
    }
  }

  lemma ChatNamesSender(codec: Codec, s: State, e: Event)
    requires Faithful(codec) && e.Handle?
    ensures var chat := ChatOut(codec, s, e);
            chat.Some? ==> IsChatFrom(codec, chat.value, e.fd) && RoomOf(s.clients, e.fd) != ""
  {
  }

  /** What reaches the recipient of it is the chat due. */
  lemma DeliveredIsDue(codec: Codec, s: State, e: Event, d: Sends, sender: int, recipient: int)
    requires Faithful(codec) && Agreed(s) && e.Handle?
    requires d.reply.Some? ==> d.reply.value.ptype != MESSAGE_CHAT
    requires e.packet.ptype != MESSAGE_SEND && d.cast.Some? ==> d.cast.value.ptype != MESSAGE_CHAT
    requires e.packet.ptype == MESSAGE_SEND ==>
             && d.cast == ChatOut(codec, s, e)
             && (d.cast.Some? ==> d.code == RoomOf(s.clients, e.fd))
    ensures var more := Delivered(s.rooms, e.fd, d, recipient);
            && |more| <= 1
            && ChatDue(codec, s, e, sender, recipient)
            == if more != [] && IsChatFrom(codec, more[0], sender) then more else []
  {
    if e.packet.ptype == MESSAGE_SEND {
      ChatNamesSender(codec, s, e);
      assert In(s.rooms, recipient, d.code) <==> Live(s.clients, recipient, d.code);
    }
  }

  lemma StepDelivers(codec: Codec, s: State, e: Event, sender: int, recipient: int)
    requires Faithful(codec) && Agreed(s)
    ensures ChatsFrom(codec, Outbox(Step(codec, s, e).out, recipient), sender)
         == ChatsFrom(codec, Outbox(s.out, recipient), sender) + ChatDue(codec, s, e, sender, recipient)
  {
    var log := Outbox(s.out, recipient);
    if e.Handle? {
      var d := HandlerChats(codec, s, e);
      OutboxAfter(s, Step(codec, s, e), e.fd, d, recipient);
      DeliveredIsDue(codec, s, e, d, sender, recipient);
      ChatsFromMore(codec, log, Delivered(s.rooms, e.fd, d, recipient), sender);
    } else {
      ChatsFromMore(codec, log, [], sender);
      assert Step(codec, s, e).out == s.out;
    }
  }

  /** On clean runs the chats a recipient is sent from a sender are, in order,
      exactly those due. */
  lemma {:induction false} ChatsInOrder(codec: Codec, events: seq<Event>, sender: int, recipient: int)
    requires Faithful(codec) && CleanRun(codec, events)
    ensures ChatsFrom(codec, Outbox(Run(codec, events).out, recipient), sender)
         == ChatsDue(codec, events, sender, recipient)
  {
    if events != [] {
      var before := events[..|events| - 1];
      ChatsInOrder(codec, before, sender, recipient);
      RecordsAgree(codec, before);
      StepDelivers(codec, Run(codec, before), events[|events| - 1], sender, recipient);
    }
  }

  /** On every run the chat due shows the address of the sender's last accept. */
  lemma ChatShowsAddress(codec: Codec, events: seq<Event>, e: Event, sender: int, recipient: int)
    requires ChatDue(codec, Run(codec, events), e, sender, recipient) != []
    ensures var due := ChatDue(codec, Run(codec, events), e, sender, recipient);
            && AddressOf(events, sender).Some? && sender in Run(codec, events).clients
            && codec.message(e.packet.payload).Some?
            && due == [Packet(1101, codec.chatText(Chat(sender, AddressOf(events, sender).value,
                                                        Run(codec, events).clients[sender].nickname,
                                                        codec.message(e.packet.payload).value, e.env.now)))]
  {
    AddressesRecorded(codec, events, sender);
  }

  // ----- a broadcast in a reachable state -----

  lemma BroadcastReachesListed(s: State, packet: Packet, code: string, exclude: int, fd: int)
    requires RoomsOk(s.rooms)
    ensures Outbox(Broadcast(s, packet, code, exclude).out, fd)
         == Outbox(s.out, fd) + if fd != exclude && In(s.rooms, fd, code) then [packet] else []
  {
    var members := MembersOf(s.rooms, code);
    assert code in s.rooms ==> RoomOk(code, s.rooms[code]);
    assert fd in members <==> In(s.rooms, fd, code);
    FanOutReaches(members, packet, exclude, fd);
    OutboxConcat(s.out, FanOut(members, packet, exclude), fd);
  }

  /** On every run a broadcast sends one copy to every other descriptor whose client
      names the room or that was left behind in it, and none to anybody else. */
  lemma BroadcastReaches(codec: Codec, events: seq<Event>, packet: Packet, code: string, exclude: int, fd: int)
    requires LegalRun(codec, events)
    ensures var s := Run(codec, events);
            Outbox(Broadcast(s, packet, code, exclude).out, fd)
            == Outbox(s.out, fd)
               + if fd != exclude && (Live(s.clients, fd, code) || (fd, code) in LeftBehind(codec, events))
                 then [packet]
                 else []
  {
    MembershipsAccounted(codec, events);
    BroadcastReachesListed(Run(codec, events), packet, code, exclude, fd);
  }

  /** On clean runs that is exactly the other clients in the room. */
  lemma BroadcastReachesTheRoom(codec: Codec, events: seq<Event>, packet: Packet, code: string, exclude: int, fd: int)
    requires CleanRun(codec, events)
    ensures var s := Run(codec, events);
            Outbox(Broadcast(s, packet, code, exclude).out, fd)
            == Outbox(s.out, fd) + if fd != exclude && Live(s.clients, fd, code) then [packet] else []
  {
    CleanIsLegal(codec, events);
    CleanLeavesNothing(codec, events);
    BroadcastReaches(codec, events, packet, code, exclude, fd);
  }
}
