/** Two chats of one client in flight together: the later one can arrive first. */
module ChatRace {
  import opened Protocol
  import opened Rooms
  import opened Clients
  import opened Payloads
  import opened Handlers
  import opened Outboxes
  import opened Interleaving
  import opened InterleavedRuns
  import opened InterleavedChats

  lemma FinishStep(codec: Codec, s: State, fd: int, pc: Pc)
    requires !pc.Done?
    ensures var (s', pc') := Advance(codec, s, fd, pc);
            Finish(codec, s, fd, pc) == Finish(codec, s', fd, pc')
  {
  }

  /** One step of a handler. */
  lemma OneStep(codec: Codec, moves: seq<Move>, id: nat, sender: int) returns (more: seq<Move>)
    requires AllEnabled(codec, moves) && id in After(codec, moves).others
    ensures AllEnabled(codec, more) && Begun(more, sender) == Begun(moves, sender)
    ensures var y, y' := After(codec, moves), After(codec, more);
            var h := y.others[id];
            y'.s == Advance(codec, y.s, h.fd, h.pc).0 && Moved(y, y', id, Advance(codec, y.s, h.fd, h.pc).1)
  {
    OneMoreMove(codec, moves, StepOther(id));
    StepMoves(codec, After(codec, moves), id);
    more := moves + [StepOther(id)];
    assert more[..|more| - 1] == moves;
    assert Begun(moves, sender) + [] == Begun(moves, sender);
  }

  /** From any run, a handler that is no room request can run to its end undisturbed. */
  lemma {:induction false} FinishOther(codec: Codec, moves: seq<Move>, id: nat, sender: int, fd: int, pc: Pc)
    returns (more: seq<Move>)
    requires AllEnabled(codec, moves)
    requires id in After(codec, moves).others && After(codec, moves).others[id] == Handler(fd, pc) && !pc.Done?
    ensures AllEnabled(codec, more) && Begun(more, sender) == Begun(moves, sender)
    ensures After(codec, more).s == Finish(codec, After(codec, moves).s, fd, pc)
    ensures After(codec, more).others == After(codec, moves).others - {id}
    decreases Stage(pc), Ahead(pc)
  {
    var y := After(codec, moves);
    var pc' := Advance(codec, y.s, fd, pc).1;
    StepsEnd(codec, y.s, fd, pc);
    FinishStep(codec, y.s, fd, pc);
    more := OneStep(codec, moves, id, sender);
    if !pc'.Done? {
      more := FinishOther(codec, more, id, sender, fd, pc');
      assert y.others[id := Handler(fd, pc')] - {id} == y.others - {id};
    }
  }

  lemma ChatAdvances(codec: Codec, s: State, sender: int, p: Packet, env: Env, chat: Packet)
    requires p.ptype == MESSAGE_SEND && ChatPacket(codec, s.clients, sender, p.payload, env.now) == Some(chat)
    ensures Advance(codec, s, sender, Start(p, env)) == (s, ChatCheck(p.payload, env.now))
    ensures Advance(codec, s, sender, ChatCheck(p.payload, env.now)) == (s, ChatAnnounce(chat))
  {
  }

  /** A chat request, up to where its chat is ready to be sent. */
  lemma ReadyToSend(codec: Codec, moves: seq<Move>, id: nat, sender: int, p: Packet, env: Env, chat: Packet)
    returns (more: seq<Move>)
    requires AllEnabled(codec, moves) && id !in After(codec, moves).others && p.ptype == MESSAGE_SEND
    requires ChatPacket(codec, After(codec, moves).s.clients, sender, p.payload, env.now) == Some(chat)
    ensures AllEnabled(codec, more) && Begun(more, sender) == Begun(moves, sender) + [p]
    ensures var y, y' := After(codec, moves), After(codec, more);
            y'.s == y.s && y'.others == y.others[id := Handler(sender, ChatAnnounce(chat))]
  {
    var y := After(codec, moves);
    ChatAdvances(codec, y.s, sender, p, env, chat);
    more := BeginChat(codec, moves, id, sender, p, env);
    more := OneStep(codec, more, id, sender);
    more := OneStep(codec, more, id, sender);
    Replaced(y.others, id, Handler(sender, Start(p, env)), Handler(sender, ChatCheck(p.payload, env.now)),
             Handler(sender, ChatAnnounce(chat)));
  }

  lemma BeginChat(codec: Codec, moves: seq<Move>, id: nat, sender: int, p: Packet, env: Env) returns (more: seq<Move>)
    requires AllEnabled(codec, moves) && id !in After(codec, moves).others && p.ptype == MESSAGE_SEND
    ensures AllEnabled(codec, more) && Begun(more, sender) == Begun(moves, sender) + [p]
    ensures var y, y' := After(codec, moves), After(codec, more);
            y'.s == y.s && y'.others == y.others[id := Handler(sender, Start(p, env))]
  {
    OneMoreMove(codec, moves, BeginOther(id, sender, p, env));
    more := moves + [BeginOther(id, sender, p, env)];
    assert more[..|more| - 1] == moves;
  }

  lemma Replaced<T>(m: map<nat, T>, id: nat, a: T, b: T, c: T)
    ensures m[id := a][id := b] == m[id := b] && m[id := b][id := c] == m[id := c]
    ensures m[id := a][id := b][id := c] == m[id := c]
  {
  }

  /** The rest of a chat reaches everybody else in the room. */
  lemma ChatEnds(codec: Codec, s: State, sender: int, chat: Packet, recipient: int)
    requires RoomsOk(s.rooms) && In(s.rooms, recipient, RoomOf(s.clients, sender)) && recipient != sender
    ensures var s' := Finish(codec, s, sender, ChatAnnounce(chat));
            && s'.clients == s.clients && s'.rooms == s.rooms
            && Outbox(s'.out, recipient) == Outbox(s.out, recipient) + [chat]
  {
    var code := RoomOf(s.clients, sender);
    var members := MembersOf(s.rooms, code);
    FinishStep(codec, s, sender, ChatAnnounce(chat));
    FinishSending(codec, s, sender, chat, members, Done);
    assert RoomOk(code, s.rooms[code]);
    FanOutReaches(members, chat, sender, recipient);
    OutboxConcat(s.out, FanOut(members, chat, sender), recipient);
  }

  lemma SendNow(codec: Codec, moves: seq<Move>, id: nat, sender: int, chat: Packet, recipient: int)
    returns (more: seq<Move>)
    requires AllEnabled(codec, moves) && recipient != sender
    requires var y := After(codec, moves);
             && id in y.others && y.others[id] == Handler(sender, ChatAnnounce(chat))
             && In(y.s.rooms, recipient, RoomOf(y.s.clients, sender))
    ensures AllEnabled(codec, more) && Begun(more, sender) == Begun(moves, sender)
    ensures var y, y' := After(codec, moves), After(codec, more);
            && y'.s.clients == y.s.clients && y'.s.rooms == y.s.rooms && y'.others == y.others - {id}
            && Outbox(y'.s.out, recipient) == Outbox(y.s.out, recipient) + [chat]
  {
    AlwaysConsistent(codec, moves);
    ChatEnds(codec, After(codec, moves).s, sender, chat, recipient);
    more := FinishOther(codec, moves, id, sender, sender, ChatAnnounce(chat));
  }

  lemma BothReady(codec: Codec, moves: seq<Move>, sender: int, p: Packet, q: Packet, env: Env, first: Packet,
                  second: Packet, id: nat, id': nat)
    returns (more: seq<Move>)
    requires AllEnabled(codec, moves) && p.ptype == MESSAGE_SEND && q.ptype == MESSAGE_SEND
    requires id != id' && id !in After(codec, moves).others && id' !in After(codec, moves).others
    requires ChatPacket(codec, After(codec, moves).s.clients, sender, p.payload, env.now) == Some(first)
    requires ChatPacket(codec, After(codec, moves).s.clients, sender, q.payload, env.now) == Some(second)
    ensures AllEnabled(codec, more) && Begun(more, sender) == Begun(moves, sender) + [p] + [q]
    ensures var y, y' := After(codec, moves), After(codec, more);
            && y'.s == y.s && id in y'.others && id' in y'.others
            && y'.others[id] == Handler(sender, ChatAnnounce(first))
            && y'.others[id'] == Handler(sender, ChatAnnounce(second))
  {
    more := ReadyToSend(codec, moves, id, sender, p, env, first);
    more := ReadyToSend(codec, more, id', sender, q, env, second);
  }

  /** From any run that leaves the two clients in one room: the sender asks for two
      chats, and the recipient gets the second before the first. */
  lemma ChatsOvertake(codec: Codec, moves: seq<Move>, sender: int, recipient: int, p: Packet, q: Packet, env: Env,
                      first: Packet, second: Packet, id: nat, id': nat)
    returns (more: seq<Move>)
    requires AllEnabled(codec, moves) && p.ptype == MESSAGE_SEND && q.ptype == MESSAGE_SEND
    requires id != id' && id !in After(codec, moves).others && id' !in After(codec, moves).others
    requires ChatPacket(codec, After(codec, moves).s.clients, sender, p.payload, env.now) == Some(first)
    requires ChatPacket(codec, After(codec, moves).s.clients, sender, q.payload, env.now) == Some(second)
    requires var s := After(codec, moves).s;
             In(s.rooms, recipient, RoomOf(s.clients, sender)) && recipient != sender
    ensures AllEnabled(codec, more) && Begun(more, sender) == Begun(moves, sender) + [p] + [q]
    ensures Outbox(After(codec, more).s.out, recipient)
         == Outbox(After(codec, moves).s.out, recipient) + [second] + [first]
  {
    more := BothReady(codec, moves, sender, p, q, env, first, second, id, id');
    more := SendNow(codec, more, id', sender, second, recipient);
    more := SendNow(codec, more, id, sender, first, recipient);
  }
}
