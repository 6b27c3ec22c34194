/** The order of chats under every interleaving: kept while a client has one chat in
    flight at a time, and otherwise not. */
module InterleavedChats {
  import opened Protocol
  import opened Rooms
  import opened Clients
  import opened Payloads
  import opened Handlers
  import opened Outboxes
  import opened Chats
  import opened Interleaving
  import opened InterleavedRuns
  import opened InterleavedCalls
  import Pipeline

  // ----- chats in flight -----

  /** A handler of the sender's MESSAGE_SEND. */
  predicate Chatting(h: Handler, sender: int) {
    h.fd == sender &&
    match h.pc
    case Start(packet, env) => packet.ptype == MESSAGE_SEND
    case ChatCheck(_, _) => true
    case ChatAnnounce(_) => true
    case Sending(_, _, _) => true
    case _ => false
  }

  function BegunBy(m: Move, sender: int): (begun: seq<Packet>)
    ensures |begun| <= 1
  {
    if m.BeginOther? && m.fd == sender && m.packet.ptype == MESSAGE_SEND then [m.packet] else []
  }

  /** The sender's chat requests, in the order their handlers began. */
  function Begun(moves: seq<Move>, sender: int): (begun: seq<Packet>) {
    if moves == [] then []
    else Begun(moves[..|moves| - 1], sender) + BegunBy(moves[|moves| - 1], sender)
  }

  predicate InFlight(y: System, id: nat, sender: int) {
    id in y.others && Chatting(y.others[id], sender)
  }

  ghost predicate NoneInFlight(y: System, sender: int) {
    forall id :: !InFlight(y, id, sender)
  }

  /** No handler of a chat of the sender begins while another one is in flight. */
  ghost predicate OneAtATime(codec: Codec, moves: seq<Move>, sender: int)
    requires AllEnabled(codec, moves)
  {
    moves == [] ||
    var before, m := moves[..|moves| - 1], moves[|moves| - 1];
    OneAtATime(codec, before, sender) && (BegunBy(m, sender) != [] ==> NoneInFlight(After(codec, before), sender))
  }

  // ----- who chats -----

  predicate Names(codec: Codec, p: Packet, fd: int) {
    p.ptype == MESSAGE_CHAT ==> codec.senderFd(p.payload) == fd
  }

  /** The chats a handler has or will send name its own client. */
  predicate Honest(codec: Codec, fd: int, pc: Pc) {
    match pc
    case Sending(cast, _, next) => Names(codec, cast, fd) && Honest(codec, fd, next)
    case ChatAnnounce(chat) => Names(codec, chat, fd)
    case Respond(reply) => reply.ptype != MESSAGE_CHAT
    case _ => true
  }

  /** A room request chats nothing. */
  predicate Mute(pc: Pc) {
    match pc
    case Sending(cast, _, next) => cast.ptype != MESSAGE_CHAT && Mute(next)
    case ChatCheck(_, _) => false
    case ChatAnnounce(_) => false
    case Respond(reply) => reply.ptype != MESSAGE_CHAT
    case Start(packet, env) => IsRoomRequest(packet)
    case _ => true
  }

  ghost predicate WhoChats(codec: Codec, y: System) {
    && (forall fd :: fd in y.inFlight ==> Mute(y.inFlight[fd]))
    && (forall id :: id in y.others ==> Honest(codec, y.others[id].fd, y.others[id].pc))
  }

  lemma MuteStays(codec: Codec, s: State, fd: int, pc: Pc)
    requires Mute(pc)
    ensures Mute(Advance(codec, s, fd, pc).1)
  {
  }

  lemma ChatPacketCarries(codec: Codec, clients: ClientMap, fd: int, source: Packet, now: string)
    requires source.ptype == MESSAGE_SEND
    ensures var chat := ChatPacket(codec, clients, fd, source.payload, now);
            chat.Some? ==> Pipeline.Carries(codec, chat.value, fd, source)
  {
    var chat := ChatPacket(codec, clients, fd, source.payload, now);
    if chat.Some? {
      assert chat.value == Packet(1101, ChatTextOf(codec, clients[fd], fd, source.payload, now));
    }
  }

  /** The check of a chat, as its own step: what it lets through, with the record of that
      moment. */
  lemma ChatChecked(codec: Codec, s: State, fd: int, payload: Bytes, now: string)
    ensures Advance(codec, s, fd, ChatCheck(payload, now))
         == (s, if MayChat(codec, s.clients, fd, payload, now)
                then ChatAnnounce(Packet(1101, ChatTextOf(codec, s.clients[fd], fd, payload, now))) else Done)
  {
  }

  lemma CarriesNames(codec: Codec, chat: Packet, fd: int, source: Packet)
    requires Faithful(codec) && Pipeline.Carries(codec, chat, fd, source)
    ensures IsChatFrom(codec, chat, fd)
  {
  }

  lemma HonestStays(codec: Codec, s: State, fd: int, pc: Pc)
    requires Faithful(codec) && Honest(codec, fd, pc) && Harmless(pc)
    ensures Honest(codec, fd, Advance(codec, s, fd, pc).1)
  {
    match pc
    case ChatCheck(payload, now) =>
      ChatPacketCarries(codec, s.clients, fd, Packet(MESSAGE_SEND, payload), now);
    case _ =>
  }

  lemma StepRoomWho(codec: Codec, y: System, fd: int)
    requires WhoChats(codec, y) && fd in y.inFlight
    ensures WhoChats(codec, Take(codec, y, StepRoom(fd)))
  {
    MuteStays(codec, y.s, fd, y.inFlight[fd]);
  }

  /** The handler of this number is gone or stands elsewhere. */
  ghost predicate Moved(y: System, y': System, id: nat, pc': Pc) {
    id in y.others && y'.inFlight == y.inFlight &&
    y'.others == if pc'.Done? then y.others - {id} else y.others[id := Handler(y.others[id].fd, pc')]
  }

  lemma StepMoves(codec: Codec, y: System, id: nat)
    requires id in y.others
    ensures Moved(y, Take(codec, y, StepOther(id)), id, Advance(codec, y.s, y.others[id].fd, y.others[id].pc).1)
  {
  }

  lemma MovedWho(codec: Codec, y: System, y': System, id: nat, pc': Pc)
    requires WhoChats(codec, y) && Moved(y, y', id, pc') && Honest(codec, y.others[id].fd, pc')
    ensures WhoChats(codec, y')
  {
  }

  lemma StepOtherWho(codec: Codec, y: System, id: nat)
    requires Faithful(codec) && Consistent(y) && WhoChats(codec, y) && id in y.others
    ensures WhoChats(codec, Take(codec, y, StepOther(id)))
  {
    var h := y.others[id];
    HonestStays(codec, y.s, h.fd, h.pc);
    StepMoves(codec, y, id);
    MovedWho(codec, y, Take(codec, y, StepOther(id)), id, Advance(codec, y.s, h.fd, h.pc).1);
  }

  lemma TakeWho(codec: Codec, y: System, m: Move)
    requires Faithful(codec) && Consistent(y) && WhoChats(codec, y) && Enabled(y, m)
    ensures WhoChats(codec, Take(codec, y, m))
  {
    match m
    case StepRoom(fd) => StepRoomWho(codec, y, fd);
    case StepOther(id) => StepOtherWho(codec, y, id);
    case _ =>
  }

  lemma {:induction false} AlwaysWho(codec: Codec, moves: seq<Move>)
    requires Faithful(codec) && AllEnabled(codec, moves)
    ensures WhoChats(codec, After(codec, moves))
    decreases |moves|
  {
    if moves != [] {
      var before := moves[..|moves| - 1];
      AlwaysWho(codec, before);
      AlwaysConsistent(codec, before);
      TakeWho(codec, After(codec, before), moves[|moves| - 1]);
    }
  }

  // ----- a chat on its way -----

  /** The handler is about this request of the sender. */
  ghost predicate About(codec: Codec, sender: int, pc: Pc, source: Packet) {
    match pc
    case Start(packet, env) => packet == source
    case ChatCheck(payload, now) => source.ptype == MESSAGE_SEND && payload == source.payload
    case ChatAnnounce(chat) => Pipeline.Carries(codec, chat, sender, source)
    case Sending(cast, targets, _) => Pipeline.Carries(codec, cast, sender, source) && NoDuplicates(targets)
    case _ => false
  }

  /** It has not sent the recipient its chat yet, and may. */
  predicate Owes(pc: Pc, recipient: int) {
    pc.Sending? ==> recipient in pc.targets
  }

  ghost predicate AllBelow(positions: seq<nat>, n: int) {
    forall i :: 0 <= i < |positions| ==> positions[i] < n
  }

  lemma {:induction false} OthersNoDuplicates(members: seq<int>, fd: int)
    requires NoDuplicates(members)
    ensures NoDuplicates(Others(members, fd))
    ensures forall x :: x in Others(members, fd) <==> x in members && x != fd
  {
    if members != [] {
      var rest := members[1..];
      assert members == [members[0]] + rest;
      OthersNoDuplicates(rest, fd);
      assert members[0] !in rest;
    }
  }

  /** The next step is about the same request, and owes no more than before. */
  lemma AboutStays(codec: Codec, s: State, sender: int, pc: Pc, source: Packet, recipient: int)
    requires RoomsOk(s.rooms) && Harmless(pc) && Chatting(Handler(sender, pc), sender)
    requires About(codec, sender, pc, source)
    ensures var pc' := Advance(codec, s, sender, pc).1;
            !pc'.Done? ==>
              && Chatting(Handler(sender, pc'), sender) && About(codec, sender, pc', source)
              && (Owes(pc', recipient) ==> Owes(pc, recipient))
              && (pc.Sending? && pc.targets[0] == recipient ==> !Owes(pc', recipient))
  {
    match pc
    case ChatCheck(payload, now) => ChatPacketCarries(codec, s.clients, sender, source, now);
    case ChatAnnounce(chat) =>
      var code := RoomOf(s.clients, sender);
      assert code in s.rooms ==> RoomOk(code, s.rooms[code]);
      OthersNoDuplicates(MembersOf(s.rooms, code), sender);
    case Sending(cast, targets, next) =>
      if targets != [] {
        assert targets == [targets[0]] + targets[1..];
      }
    case _ =>
  }

  // ----- the invariant -----

  /** The chats the recipient was sent match some of the requests begun, in order; the
      one in flight, if any, is the last begun, and comes behind them if it still owes. */
  ghost predicate Ordered(codec: Codec, y: System, sender: int, recipient: int, begun: seq<Packet>,
          positions: seq<nat>) {
    && Pipeline.Matched(codec, sender, ChatsFrom(codec, Outbox(y.s.out, recipient), sender), positions, begun)
    && (forall id, id' :: InFlight(y, id, sender) && InFlight(y, id', sender) ==> id == id')
    && (forall id :: InFlight(y, id, sender) ==>
          Last(codec, sender, recipient, y.others[id].pc, begun, positions))
  }

  ghost predicate Last(codec: Codec, sender: int, recipient: int, pc: Pc, begun: seq<Packet>, positions: seq<nat>) {
    && begun != [] && About(codec, sender, pc, begun[|begun| - 1])
    && (Owes(pc, recipient) ==> AllBelow(positions, |begun| - 1))
  }

  /** What a move adds to the recipient's chats from the sender. */
  lemma ChatsAfterMove(codec: Codec, y: System, m: Move, sender: int, recipient: int)
    requires Enabled(y, m)
    ensures ChatsFrom(codec, Outbox(Take(codec, y, m).s.out, recipient), sender)
         == ChatsFrom(codec, Outbox(y.s.out, recipient), sender)
            + if SendsTo(y, m, recipient) && IsChatFrom(codec, Emitted(y, m)[0].packet, sender)
              then [Emitted(y, m)[0].packet] else []
  {
    MoveEmits(codec, y, m, recipient);
    var more := if SendsTo(y, m, recipient) then [Emitted(y, m)[0].packet] else [];
    ChatsFromMore(codec, Outbox(y.s.out, recipient), more, sender);
  }

  /** Only the sender's own chat handlers add to them. */
  lemma OthersAddNothing(codec: Codec, y: System, m: Move, sender: int, recipient: int)
    requires WhoChats(codec, y) && Consistent(y) && Enabled(y, m)
    requires m.StepOther? ==> !Chatting(y.others[m.id], sender)
    ensures ChatsFrom(codec, Outbox(Take(codec, y, m).s.out, recipient), sender)
         == ChatsFrom(codec, Outbox(y.s.out, recipient), sender)
  {
    ChatsAfterMove(codec, y, m, sender, recipient);
    var chats := ChatsFrom(codec, Outbox(y.s.out, recipient), sender);
    assert chats + [] == chats;
  }

  lemma NotChattingStays(codec: Codec, s: State, h: Handler, sender: int)
    requires Harmless(h.pc) && !Chatting(h, sender)
    ensures !Chatting(Handler(h.fd, Advance(codec, s, h.fd, h.pc).1), sender)
  {
  }

  /** A move of nobody's chat. */
  lemma ElsewhereOrdered(codec: Codec, y: System, m: Move, sender: int, recipient: int, begun: seq<Packet>,
                         positions: seq<nat>)
    requires WhoChats(codec, y) && Consistent(y) && Enabled(y, m)
    requires Ordered(codec, y, sender, recipient, begun, positions)
    requires BegunBy(m, sender) == [] && (m.StepOther? ==> !Chatting(y.others[m.id], sender))
    ensures Ordered(codec, Take(codec, y, m), sender, recipient, begun, positions)
  {
    var y' := Take(codec, y, m);
    OthersAddNothing(codec, y, m, sender, recipient);
    if m.StepOther? {
      NotChattingStays(codec, y.s, y.others[m.id], sender);
    }
    SameChatting(codec, y, y', sender, recipient, begun, positions);
  }

  lemma SameChatting(codec: Codec, y: System, y': System, sender: int, recipient: int, begun: seq<Packet>,
                     positions: seq<nat>)
    requires Ordered(codec, y, sender, recipient, begun, positions)
    requires ChatsFrom(codec, Outbox(y'.s.out, recipient), sender)
        == ChatsFrom(codec, Outbox(y.s.out, recipient), sender)
    requires forall id :: InFlight(y', id, sender) ==> id in y.others && y.others[id] == y'.others[id]
    ensures Ordered(codec, y', sender, recipient, begun, positions)
  {
  }

  /** The only chat in flight is this one. */
  lemma OneChatting(codec: Codec, y: System, id: nat, sender: int, recipient: int, begun: seq<Packet>,
          positions: seq<nat>)
    requires Pipeline.Matched(codec, sender, ChatsFrom(codec, Outbox(y.s.out, recipient), sender), positions, begun)
    requires forall x :: InFlight(y, x, sender) ==> x == id
    requires InFlight(y, id, sender) ==> Last(codec, sender, recipient, y.others[id].pc, begun, positions)
    ensures Ordered(codec, y, sender, recipient, begun, positions)
  {
  }

  lemma MoreBegun(codec: Codec, sender: int, chats: seq<Packet>, positions: seq<nat>, begun: seq<Packet>, p: Packet)
    requires Pipeline.Matched(codec, sender, chats, positions, begun)
    ensures Pipeline.Matched(codec, sender, chats, positions, begun + [p])
    ensures AllBelow(positions, |begun + [p]| - 1)
  {
  }

  /** A chat of the sender begins, none being in flight. */
  lemma BeginOrdered(codec: Codec, y: System, m: Move, sender: int, recipient: int, begun: seq<Packet>,
                     positions: seq<nat>)
    requires WhoChats(codec, y) && Consistent(y) && Enabled(y, m)
    requires Ordered(codec, y, sender, recipient, begun, positions)
    requires BegunBy(m, sender) != [] && NoneInFlight(y, sender)
    ensures Ordered(codec, Take(codec, y, m), sender, recipient, begun + BegunBy(m, sender), positions)
  {
    var y' := Take(codec, y, m);
    OthersAddNothing(codec, y, m, sender, recipient);
    MoreBegun(codec, sender, ChatsFrom(codec, Outbox(y.s.out, recipient), sender), positions, begun, m.packet);
    assert forall x :: InFlight(y', x, sender) ==> x == m.id || InFlight(y, x, sender);
    OneChatting(codec, y', m.id, sender, recipient, begun + [m.packet], positions);
  }

  /** What a step of the chat in flight adds to the recipient's chats. */
  lemma StepAdds(codec: Codec, y: System, id: nat, sender: int, recipient: int, source: Packet)
    requires Faithful(codec) && InFlight(y, id, sender) && About(codec, sender, y.others[id].pc, source)
    ensures var pc := y.others[id].pc;
            ChatsFrom(codec, Outbox(Take(codec, y, StepOther(id)).s.out, recipient), sender)
            == ChatsFrom(codec, Outbox(y.s.out, recipient), sender) + if Sends(pc, recipient) then [pc.cast] else []
  {
    ChatsAfterMove(codec, y, StepOther(id), sender, recipient);
    var pc := y.others[id].pc;
    if Sends(pc, recipient) {
      CarriesNames(codec, pc.cast, sender, source);
    }
  }

  predicate Sends(pc: Pc, recipient: int) {
    pc.Sending? && pc.targets != [] && pc.targets[0] == recipient
  }

  lemma MovedOrdered(codec: Codec, y: System, y': System, id: nat, pc': Pc, sender: int, recipient: int,
                     begun: seq<Packet>, positions: seq<nat>, positions': seq<nat>)
    requires Ordered(codec, y, sender, recipient, begun, positions)
    requires Moved(y, y', id, pc') && InFlight(y, id, sender)
    requires !pc'.Done? ==> Last(codec, sender, recipient, pc', begun, positions')
    requires Pipeline.Matched(codec, sender, ChatsFrom(codec, Outbox(y'.s.out, recipient), sender), positions', begun)
    ensures Ordered(codec, y', sender, recipient, begun, positions')
  {
    assert forall x :: InFlight(y', x, sender) ==> x == id || InFlight(y, x, sender);
    OneChatting(codec, y', id, sender, recipient, begun, positions');
  }

  /** A step of the chat in flight. */
  lemma StepOrdered(codec: Codec, y: System, id: nat, sender: int, recipient: int, begun: seq<Packet>,
                    positions: seq<nat>)
    returns (positions': seq<nat>)
    requires Faithful(codec) && Consistent(y) && InFlight(y, id, sender)
    requires Ordered(codec, y, sender, recipient, begun, positions)
    ensures Ordered(codec, Take(codec, y, StepOther(id)), sender, recipient, begun, positions')
  {
    var y', pc := Take(codec, y, StepOther(id)), y.others[id].pc;
    var chats := ChatsFrom(codec, Outbox(y.s.out, recipient), sender);
    StepAdds(codec, y, id, sender, recipient, begun[|begun| - 1]);
    positions' := LastStays(codec, y.s, sender, pc, recipient, chats, begun, positions);
    StepMoves(codec, y, id);
    MovedOrdered(codec, y, y', id, Advance(codec, y.s, sender, pc).1, sender, recipient, begun, positions, positions');
  }

  lemma LastStays(codec: Codec, s: State, sender: int, pc: Pc, recipient: int, chats: seq<Packet>, begun: seq<Packet>,
                  positions: seq<nat>)
    returns (positions': seq<nat>)
    requires RoomsOk(s.rooms) && Harmless(pc) && Chatting(Handler(sender, pc), sender)
    requires Last(codec, sender, recipient, pc, begun, positions)
    requires Pipeline.Matched(codec, sender, chats, positions, begun)
    ensures var pc' := Advance(codec, s, sender, pc).1;
            !pc'.Done? ==> Last(codec, sender, recipient, pc', begun, positions')
    ensures Pipeline.Matched(codec, sender, chats + if Sends(pc, recipient) then [pc.cast] else [], positions', begun)
  {
    AboutStays(codec, s, sender, pc, begun[|begun| - 1], recipient);
    if Sends(pc, recipient) {
      positions' := positions + [|begun| - 1];
      OneMoreMatched(codec, sender, chats, positions, begun, pc.cast);
    } else {
      positions' := positions;
      assert chats + [] == chats;
    }
  }

  lemma OneMoreMatched(codec: Codec, sender: int, chats: seq<Packet>, positions: seq<nat>, begun: seq<Packet>,
          chat: Packet)
    requires Pipeline.Matched(codec, sender, chats, positions, begun)
    requires begun != [] && AllBelow(positions, |begun| - 1)
    requires Pipeline.Carries(codec, chat, sender, begun[|begun| - 1])
    ensures Pipeline.Matched(codec, sender, chats + [chat], positions + [|begun| - 1], begun)
  {
  }

  lemma {:induction false} OrderSoFar(codec: Codec, moves: seq<Move>, sender: int, recipient: int)
    returns (positions: seq<nat>)
    requires Faithful(codec) && AllEnabled(codec, moves) && OneAtATime(codec, moves, sender)
    ensures Ordered(codec, After(codec, moves), sender, recipient, Begun(moves, sender), positions)
    decreases |moves|
  {
    if moves == [] {
      positions := [];
    } else {
      var before, m := moves[..|moves| - 1], moves[|moves| - 1];
      var y, begun := After(codec, before), Begun(before, sender);
      positions := OrderSoFar(codec, before, sender, recipient);
      AlwaysConsistent(codec, before);
      AlwaysWho(codec, before);
      assert begun + [] == begun;
      if BegunBy(m, sender) != [] {
        BeginOrdered(codec, y, m, sender, recipient, begun, positions);
      } else if m.StepOther? && InFlight(y, m.id, sender) {
        positions := StepOrdered(codec, y, m.id, sender, recipient, begun, positions);
      } else {
        ElsewhereOrdered(codec, y, m, sender, recipient, begun, positions);
      }
    }
  }

  /** Under any interleaving in which the sender has one chat in flight at a time: the
      chats a recipient is sent from it carry, one by one and in order, chats it asked
      to send, none invented, repeated or reordered. */
  lemma ChatsKeepOrder(codec: Codec, moves: seq<Move>, sender: int, recipient: int) returns (positions: seq<nat>)
    requires Faithful(codec) && AllEnabled(codec, moves) && OneAtATime(codec, moves, sender)
    ensures Pipeline.Matched(codec, sender, ChatsFrom(codec, Outbox(After(codec, moves).s.out, recipient), sender),
                             positions, Begun(moves, sender))
  {
    positions := OrderSoFar(codec, moves, sender, recipient);
  }
}
