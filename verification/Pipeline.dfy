/** From bytes to handlers: the input thread parses what arrives and queues it,
    workers claim tasks in queue order and run each handler to completion. */
module Pipeline {
  import opened Protocol
  import opened Framing
  import opened Rooms
  import opened Clients
  import opened Payloads
  import opened Handlers
  import opened Membership
  import opened TaskQueue
  import opened Outboxes
  import opened Chats

  // The receive buffers of the open connections, and the queue.
  datatype Intake = Intake(buffers: map<int, Bytes>, pool: Pool)

  // A connection is accepted; a descriptor is readable and recv brings these bytes,
  // none at the end of the connection; a worker takes a turn.
  datatype Action =
    | Connect(fd: int, ip: string)
    | Readable(fd: int, arrived: Bytes)
    | Work(worker: int, env: Env)

  function PushAll(p: Pool, fd: int, packets: seq<Packet>): (p': Pool)
    decreases |packets|
  {
    if packets == [] then p else PushAll(TakeTurn(p, Push(Task(fd, packets[0]))), fd, packets[1..])
  }

  predicate Receives(q: Intake, fd: int, arrived: Bytes) {
    fd in q.buffers && arrived != []
  }

  function TakeIn(q: Intake, a: Action): (q': Intake) {
    match a
    case Connect(fd, ip) => q.(buffers := q.buffers[fd := []])
    case Readable(fd, arrived) =>
      if Receives(q, fd, arrived) then
        var now := Feed(q.buffers[fd], [arrived]);
        Intake(q.buffers[fd := now.rest], PushAll(q.pool, fd, now.packets))
      else q.(buffers := q.buffers - {fd})
    case Work(worker, env) => q.(pool := TakeTurn(q.pool, Pop(worker)))
  }

  /** What the action is to the handlers' state. */
  function EventOf(q: Intake, a: Action): (events: seq<Event>) {
    match a
    case Connect(fd, ip) => [Accept(fd, ip)]
    case Readable(fd, arrived) => if Receives(q, fd, arrived) then [] else [Close(fd)]
    case Work(worker, env) =>
      if q.pool.waiting == [] then [] else [Handle(q.pool.waiting[0].fd, q.pool.waiting[0].packet, env)]
  }

  function Taken(actions: seq<Action>): (q': Intake) {
    if actions == [] then Intake(map[], Pool([], [], []))
    else TakeIn(Taken(actions[..|actions| - 1]), actions[|actions| - 1])
  }

  function Events(actions: seq<Action>): (events: seq<Event>) {
    if actions == [] then []
    else
      var before := actions[..|actions| - 1];
      Events(before) + EventOf(Taken(before), actions[|actions| - 1])
  }

  /** What the receiver can copy: at most RECV_BUFFER_SIZE bytes at once, and no complete
      frame larger than the payload array. */
  predicate Receivable(q: Intake, a: Action) {
    a.Readable? ==> |a.arrived| <= RECV_BUFFER_SIZE && (a.fd in q.buffers ==> Bounded(q.buffers[a.fd] + a.arrived))
  }

  predicate AllReceivable(actions: seq<Action>) {
    actions == [] ||
    var before := actions[..|actions| - 1];
    AllReceivable(before) && Receivable(Taken(before), actions[|actions| - 1])
  }

  lemma {:induction false} ReceivableAt(actions: seq<Action>, i: nat)
    requires AllReceivable(actions) && i < |actions|
    ensures Receivable(Taken(actions[..i]), actions[i])
    decreases |actions|
  {
    var before := actions[..|actions| - 1];
    if i < |before| {
      ReceivableAt(before, i);
      assert before[..i] == actions[..i];
    }
  }

  lemma ActionsTo(codec: Codec, actions: seq<Action>, i: nat)
    requires i < |actions|
    ensures var q, a := Taken(actions[..i]), actions[i];
            && Taken(actions[..i + 1]) == TakeIn(q, a)
            && Run(codec, Events(actions[..i + 1]))
               == if EventOf(q, a) == [] then Run(codec, Events(actions[..i]))
                  else Step(codec, Run(codec, Events(actions[..i])), EventOf(q, a)[0])
  {
    assert actions[..i + 1][..i] == actions[..i];
    RunMore(codec, Events(actions[..i]), EventOf(Taken(actions[..i]), actions[i]));
  }

  // ----- the buffers belong to the connected clients -----

  lemma HandlersKeepClients(codec: Codec, s: State, fd: int, packet: Packet, env: Env)
    ensures HandlePacket(codec, s, fd, packet, env).clients.Keys == s.clients.Keys
  {
    if packet.ptype == CREATE_ROOM {
      CreateKeepsClients(codec, s, fd, packet.payload, env.draws);
    } else if packet.ptype == JOIN_ROOM {
      JoinKeepsClients(codec, s, fd, packet.payload);
    } else if packet.ptype == NICKNAME_REQUEST {
      NicknameKeepsClients(codec, s, fd, packet.payload);
    }
  }

  lemma CreateKeepsClients(codec: Codec, s: State, fd: int, payload: Bytes, draws: Draws)
    ensures HandleCreate(codec, s, fd, payload, draws).clients.Keys == s.clients.Keys
  {
  }

  lemma JoinKeepsClients(codec: Codec, s: State, fd: int, payload: Bytes)
    ensures HandleJoin(codec, s, fd, payload).clients.Keys == s.clients.Keys
  {
  }

  lemma NicknameKeepsClients(codec: Codec, s: State, fd: int, payload: Bytes)
    ensures HandleNickname(codec, s, fd, payload).clients.Keys == s.clients.Keys
  {
  }

  lemma RunMore(codec: Codec, events: seq<Event>, more: seq<Event>)
    requires |more| <= 1
    ensures Run(codec, events + more) == if more == [] then Run(codec, events)
        else Step(codec, Run(codec, events), more[0])
  {
    if more == [] {
      assert events + more == events;
    } else {
      assert (events + more)[..|events + more| - 1] == events;
    }
  }

  lemma ActionKeepsKeys(codec: Codec, s: State, q: Intake, a: Action)
    requires s.clients.Keys == q.buffers.Keys
    ensures var more := EventOf(q, a);
            (if more == [] then s else Step(codec, s, more[0])).clients.Keys == TakeIn(q, a).buffers.Keys
  {
    match a
    case Work(worker, env) =>
      if q.pool.waiting != [] {
        HandlersKeepClients(codec, s, q.pool.waiting[0].fd, q.pool.waiting[0].packet, env);
      }
    case _ =>
  }

  /** The receive buffers are those of the clients the handlers know. */
  lemma {:induction false} BuffersAreClients(codec: Codec, actions: seq<Action>)
    ensures Run(codec, Events(actions)).clients.Keys == Taken(actions).buffers.Keys
  {
    if actions != [] {
      var before, a := actions[..|actions| - 1], actions[|actions| - 1];
      BuffersAreClients(codec, before);
      RunMore(codec, Events(before), EventOf(Taken(before), a));
      ActionKeepsKeys(codec, Run(codec, Events(before)), Taken(before), a);
    }
  }

  // ----- what was queued is what the streams contain -----

  predicate Open(actions: seq<Action>, fd: int) {
    actions != [] &&
    var before, a := actions[..|actions| - 1], actions[|actions| - 1];
    match a
    case Connect(x, ip) => x == fd || Open(before, fd)
    case Readable(x, arrived) => Open(before, fd) && (x == fd ==> arrived != [])
    case Work(_, _) => Open(before, fd)
  }

  /** The bytes that came in on the connection the descriptor stands for now. */
  function Stream(actions: seq<Action>, fd: int): (bytes: Bytes) {
    if actions == [] then []
    else
      var before, a := actions[..|actions| - 1], actions[|actions| - 1];
      if a.Work? || a.fd != fd then Stream(before, fd)
      else if a.Readable? && Open(before, fd) && a.arrived != [] then Stream(before, fd) + a.arrived
      else []
  }

  /** The complete frames of the descriptor's earlier connections. */
  function Earlier(actions: seq<Action>, fd: int): (log: seq<Packet>) {
    if actions == [] then []
    else
      var before, a := actions[..|actions| - 1], actions[|actions| - 1];
      if a.Work? || a.fd != fd then Earlier(before, fd)
      else if a.Readable? && Open(before, fd) && a.arrived != [] then Earlier(before, fd)
      else Earlier(before, fd) + Parse(Stream(before, fd)).packets
  }

  /** Everything the descriptor's connections have brought so far. */
  function Arrived(actions: seq<Action>, fd: int): (log: seq<Packet>) {
    Earlier(actions, fd) + Parse(Stream(actions, fd)).packets
  }

  function AsTasks(fd: int, packets: seq<Packet>): (tasks: seq<Task>) {
    seq(|packets|, i requires 0 <= i < |packets| => Task(fd, packets[i]))
  }

  lemma {:induction false} PushAllAppends(p: Pool, fd: int, packets: seq<Packet>)
    ensures PushAll(p, fd, packets)
         == p.(waiting := p.waiting + AsTasks(fd, packets), pushed := p.pushed + AsTasks(fd, packets))
    decreases |packets|
  {
    if packets == [] {
      assert p.waiting + [] == p.waiting && p.pushed + [] == p.pushed;
    } else {
      var first := [Task(fd, packets[0])];
      PushAllAppends(TakeTurn(p, Push(first[0])), fd, packets[1..]);
      assert AsTasks(fd, packets) == first + AsTasks(fd, packets[1..]);
      Associative(p.waiting, first, AsTasks(fd, packets[1..]));
      Associative(p.pushed, first, AsTasks(fd, packets[1..]));
    }
  }

  lemma {:induction false} TasksOfOne(fd: int, packets: seq<Packet>, x: int)
    ensures TasksOf(AsTasks(fd, packets), x) == if x == fd then packets else []
  {
    if packets != [] {
      var n := |packets| - 1;
      assert AsTasks(fd, packets)[..n] == AsTasks(fd, packets[..n]);
      TasksOfOne(fd, packets[..n], x);
    }
  }

  lemma PushedGrows(q: Intake, a: Action, x: int)
    ensures TasksOf(TakeIn(q, a).pool.pushed, x)
         == TasksOf(q.pool.pushed, x)
            + if a.Readable? && a.fd == x && Receives(q, x, a.arrived) then Feed(q.buffers[x], [a.arrived]).packets
              else []
  {
    if a.Readable? && Receives(q, a.fd, a.arrived) {
      var packets := Feed(q.buffers[a.fd], [a.arrived]).packets;
      PushAllAppends(q.pool, a.fd, packets);
      TasksOfConcat(q.pool.pushed, AsTasks(a.fd, packets), x);
      TasksOfOne(a.fd, packets, x);
    }
  }

  lemma FeedMore(stream: Bytes, chunk: Bytes)
    ensures var now := Feed(Parse(stream).rest, [chunk]);
            Parse(stream + chunk) == Parsed(Parse(stream).packets + now.packets, now.rest)
  {
    ParseThenFrame(stream);
    ChunkingDoesNotMatter(Parse(stream).rest, [chunk]);
    assert Concat([chunk]) == chunk by { assert [chunk][1..] == []; assert chunk + [] == chunk; }
    ParseInTwo(stream, chunk);
  }

  /** The queue was pushed, for each descriptor, the frames its streams contain, in
      stream order; its buffer holds what no complete frame has used yet. */
  lemma {:induction false} QueuedInStreamOrder(actions: seq<Action>, fd: int)
    ensures var q := Taken(actions);
            && TasksOf(q.pool.pushed, fd) == Arrived(actions, fd)
            && (fd in q.buffers <==> Open(actions, fd))
            && (if fd in q.buffers then q.buffers[fd] == Parse(Stream(actions, fd)).rest else Stream(actions, fd) == [])
  {
    if actions != [] {
      var before, a := actions[..|actions| - 1], actions[|actions| - 1];
      QueuedInStreamOrder(before, fd);
      PushedGrows(Taken(before), a, fd);
      if !a.Work? && a.fd == fd {
        OwnAction(actions, fd);
      }
    }
  }

  lemma OwnAction(actions: seq<Action>, fd: int)
    requires actions != []
    requires var before, a := actions[..|actions| - 1], actions[|actions| - 1];
             var q := Taken(before);
             && !a.Work? && a.fd == fd
             && TasksOf(q.pool.pushed, fd) == Arrived(before, fd)
             && (fd in q.buffers <==> Open(before, fd))
             && (if fd in q.buffers then q.buffers[fd] == Parse(Stream(before, fd)).rest else Stream(before, fd) == [])
             && TasksOf(Taken(actions).pool.pushed, fd)
                == TasksOf(q.pool.pushed, fd)
                   + if a.Readable? && Receives(q, fd, a.arrived) then Feed(q.buffers[fd], [a.arrived]).packets else []
    ensures var q := Taken(actions);
            && TasksOf(q.pool.pushed, fd) == Arrived(actions, fd)
            && (fd in q.buffers <==> Open(actions, fd))
            && (if fd in q.buffers then q.buffers[fd] == Parse(Stream(actions, fd)).rest else Stream(actions, fd) == [])
  {
    var before, a := actions[..|actions| - 1], actions[|actions| - 1];
    var q := Taken(before);
    if a.Readable? && Receives(q, fd, a.arrived) {
      FeedMore(Stream(before, fd), a.arrived);
      Associative(Earlier(before, fd), Parse(Stream(before, fd)).packets, Feed(q.buffers[fd], [a.arrived]).packets);
    } else {
      assert Parse([]) == Parsed([], []);
      assert Arrived(before, fd) + [] == Arrived(before, fd);
    }
  }

  // ----- what was handled -----

  function HandledOf(events: seq<Event>, fd: int): (packets: seq<Packet>) {
    if events == [] then []
    else
      var e := events[|events| - 1];
      HandledOf(events[..|events| - 1], fd) + if e.Handle? && e.fd == fd then [e.packet] else []
  }

  lemma HandledMore(events: seq<Event>, more: seq<Event>, fd: int)
    requires |more| <= 1
    ensures HandledOf(events + more, fd)
         == HandledOf(events, fd) + if more != [] && more[0].Handle? && more[0].fd == fd then [more[0].packet] else []
  {
    if more == [] {
      assert events + more == events;
    } else {
      assert (events + more)[..|events + more| - 1] == events;
    }
  }

  lemma ClaimedMore(claims: seq<Claim>, claim: Claim, fd: int)
    ensures TasksOf(Tasks(claims + [claim]), fd)
         == TasksOf(Tasks(claims), fd) + if claim.task.fd == fd then [claim.task.packet] else []
  {
    assert (claims + [claim])[..|claims + [claim]| - 1] == claims;
    assert (Tasks(claims) + [claim.task])[..|Tasks(claims) + [claim.task]| - 1] == Tasks(claims);
  }

  lemma PushAllOnlyPushes(p: Pool, fd: int, packets: seq<Packet>)
    requires p.pushed == Tasks(p.claims) + p.waiting
    ensures var p' := PushAll(p, fd, packets);
            p'.claims == p.claims && p'.pushed == Tasks(p'.claims) + p'.waiting
  {
    PushAllAppends(p, fd, packets);
    Associative(Tasks(p.claims), p.waiting, AsTasks(fd, packets));
  }

  lemma PopMovesOne(p: Pool, worker: int)
    requires p.pushed == Tasks(p.claims) + p.waiting
    ensures var p' := TakeTurn(p, Pop(worker));
            p'.pushed == Tasks(p'.claims) + p'.waiting
  {
    if p.waiting != [] {
      var claim := Claim(worker, p.waiting[0]);
      assert (p.claims + [claim])[..|p.claims|] == p.claims;
      Associative(Tasks(p.claims), [claim.task], p.waiting[1..]);
      assert p.waiting == [claim.task] + p.waiting[1..];
    }
  }

  lemma ClaimsGrow(q: Intake, a: Action, fd: int)
    ensures var more := EventOf(q, a);
            TasksOf(Tasks(TakeIn(q, a).pool.claims), fd)
            == TasksOf(Tasks(q.pool.claims), fd)
               + if more != [] && more[0].Handle? && more[0].fd == fd then [more[0].packet] else []
  {
    match a
    case Work(worker, env) =>
      if q.pool.waiting != [] {
        ClaimedMore(q.pool.claims, Claim(worker, q.pool.waiting[0]), fd);
      }
    case Readable(x, arrived) =>
      if Receives(q, x, arrived) {
        PushAllAppends(q.pool, x, Feed(q.buffers[x], [arrived]).packets);
      }
    case _ =>
  }

  lemma ClaimedThenWaits(q: Intake, a: Action)
    requires q.pool.pushed == Tasks(q.pool.claims) + q.pool.waiting
    ensures var p := TakeIn(q, a).pool;
            p.pushed == Tasks(p.claims) + p.waiting
  {
    match a
    case Readable(x, arrived) =>
      if Receives(q, x, arrived) {
        PushAllOnlyPushes(q.pool, x, Feed(q.buffers[x], [arrived]).packets);
      }
    case Work(worker, env) => PopMovesOne(q.pool, worker);
    case _ =>
  }

  /** The handlers have run on the claimed tasks, in the order of the claims. */
  lemma {:induction false} HandledIsClaimed(actions: seq<Action>, fd: int)
    ensures var p := Taken(actions).pool;
            && HandledOf(Events(actions), fd) == TasksOf(Tasks(p.claims), fd)
            && p.pushed == Tasks(p.claims) + p.waiting
  {
    if actions != [] {
      var before, a := actions[..|actions| - 1], actions[|actions| - 1];
      HandledIsClaimed(before, fd);
      HandledMore(Events(before), EventOf(Taken(before), a), fd);
      ClaimsGrow(Taken(before), a, fd);
      ClaimedThenWaits(Taken(before), a);
    }
  }

  /** The packets handled for a descriptor are those its streams brought, in stream
      order, up to what still waits in the queue. */
  lemma HandledInStreamOrder(actions: seq<Action>, fd: int)
    ensures HandledOf(Events(actions), fd) + TasksOf(Taken(actions).pool.waiting, fd) == Arrived(actions, fd)
  {
    var p := Taken(actions).pool;
    HandledIsClaimed(actions, fd);
    QueuedInStreamOrder(actions, fd);
    TasksOfConcat(Tasks(p.claims), p.waiting, fd);
  }

  /** What is handled for a descriptor is what its earlier connections brought and then
      a prefix of what its present client sent, however the bytes were cut. */
  lemma HandledWasSent(actions: seq<Action>, fd: int, sent: seq<Packet>)
    requires AllFit(sent) && Stream(actions, fd) <= FrameAll(sent)
    ensures HandledOf(Events(actions), fd) <= Earlier(actions, fd) + sent
  {
    CutStream(sent, Stream(actions, fd));
    HandledInStreamOrder(actions, fd);
    PrefixBehind(HandledOf(Events(actions), fd), TasksOf(Taken(actions).pool.waiting, fd), Earlier(actions, fd),
                 Parse(Stream(actions, fd)).packets, sent);
  }

  lemma PrefixBehind(handled: seq<Packet>, waiting: seq<Packet>, earlier: seq<Packet>, now: seq<Packet>,
          sent: seq<Packet>)
    requires handled + waiting == earlier + now && now <= sent
    ensures handled <= earlier + sent
  {
    assert handled == (earlier + now)[..|handled|];
    assert earlier + now == (earlier + sent)[..|earlier + now|];
  }

  // ----- chats, from the sender's stream to the recipient's outbox -----

  /** Which of the sender's handled packets the chats due to the recipient come from. */
  function Positions(codec: Codec, events: seq<Event>, sender: int, recipient: int): (positions: seq<nat>) {
    if events == [] then []
    else
      var before, e := events[..|events| - 1], events[|events| - 1];
      Positions(codec, before, sender, recipient)
      + if ChatDue(codec, Run(codec, before), e, sender, recipient) != [] then [|HandledOf(before, sender)|] else []
  }

  /** The chat carries the message of the request, with its sender's descriptor and the
      address and name of a record. */
  ghost predicate Carries(codec: Codec, chat: Packet, sender: int, source: Packet) {
    && source.ptype == MESSAGE_SEND
    && codec.message(source.payload).Some?
    && exists record: ClientView, now: string ::
         chat == Packet(1101, ChatTextOf(codec, record, sender, source.payload, now))
  }

  /** One chat for each position, the positions increasing. */
  ghost predicate Matched(codec: Codec, sender: int, chats: seq<Packet>, positions: seq<nat>, sources: seq<Packet>) {
    && |chats| == |positions|
    && (forall i, j :: 0 <= i < j < |positions| ==> positions[i] < positions[j])
    && (forall i :: 0 <= i < |positions| ==>
          positions[i] < |sources| && Carries(codec, chats[i], sender, sources[positions[i]]))
  }

  lemma MatchedMore(codec: Codec, sender: int, chats: seq<Packet>, positions: seq<nat>, sources: seq<Packet>,
                    chat: seq<Packet>, more: seq<Packet>)
    requires Matched(codec, sender, chats, positions, sources)
    requires chat != [] ==> |chat| == 1 && |more| == 1 && Carries(codec, chat[0], sender, more[0])
    ensures Matched(codec, sender, chats + chat, positions + if chat != [] then [|sources|] else [], sources + more)
  {
    if chat == [] {
      assert chats + chat == chats && positions + [] == positions;
    }
  }

  lemma DueCarries(codec: Codec, s: State, e: Event, sender: int, recipient: int)
    ensures var due := ChatDue(codec, s, e, sender, recipient);
            due != [] ==> |due| == 1 && e.Handle? && e.fd == sender && Carries(codec, due[0], sender, e.packet)
  {
    var due := ChatDue(codec, s, e, sender, recipient);
    if due != [] {
      assert due[0] == Packet(1101, ChatTextOf(codec, s.clients[sender], sender, e.packet.payload, e.env.now));
    }
  }

  lemma {:induction false} DueMatched(codec: Codec, events: seq<Event>, sender: int, recipient: int)
    ensures Matched(codec, sender, ChatsDue(codec, events, sender, recipient),
                    Positions(codec, events, sender, recipient), HandledOf(events, sender))
  {
    if events != [] {
      var before, e := events[..|events| - 1], events[|events| - 1];
      DueMatched(codec, before, sender, recipient);
      DueCarries(codec, Run(codec, before), e, sender, recipient);
      MatchedMore(codec, sender, ChatsDue(codec, before, sender, recipient),
                  Positions(codec, before, sender, recipient),
                  HandledOf(before, sender), ChatDue(codec, Run(codec, before), e, sender, recipient),
                  if e.Handle? && e.fd == sender then [e.packet] else []);
    }
  }

  /** Decoder, queue, handlers and fan-out together: on a clean run, the chats a
      recipient is sent from a sender carry, one by one and in order, requests of the
      clients that had the sender's descriptor, what earlier connections brought and
      then what the present client sent: none invented, repeated or reordered. */
  lemma ChatsEndToEnd(codec: Codec, actions: seq<Action>, sender: int, recipient: int, sent: seq<Packet>)
    requires Faithful(codec) && CleanRun(codec, Events(actions))
    requires AllFit(sent) && Stream(actions, sender) <= FrameAll(sent)
    ensures var chats := ChatsFrom(codec, Outbox(Run(codec, Events(actions)).out, recipient), sender);
            && chats == ChatsDue(codec, Events(actions), sender, recipient)
            && Matched(codec, sender, chats, Positions(codec, Events(actions), sender, recipient),
                       Earlier(actions, sender) + sent)
  {
    ChatsInOrder(codec, Events(actions), sender, recipient);
    DueMatched(codec, Events(actions), sender, recipient);
    HandledWasSent(actions, sender, sent);
  }
}
