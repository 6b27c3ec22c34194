/** Nicknames under every interleaving: when they stay distinct, and that otherwise
    they need not. */
module InterleavedNames {
  import opened Protocol
  import opened Rooms
  import opened Clients
  import opened Payloads
  import opened Handlers
  import opened Interleaving
  import opened InterleavedRuns
  import opened Nicknames

  /** A handler has found the name free and is about to write it. */
  predicate Awaits(y: System, id: nat, fd: int, name: string) {
    id in y.others && y.others[id] == Handler(fd, NicknameWrite(name))
  }

  /** Two handlers of different descriptors are about to write the same name. Only
      positive numbers are ever a connection's descriptor. */
  ghost predicate Contested(y: System) {
    exists id, id', fd, fd', name :: Contest(y, id, id', fd, fd', name)
  }

  predicate Contest(y: System, id: nat, id': nat, fd: int, fd': int, name: string) {
    Awaits(y, id, fd, name) && Awaits(y, id', fd', name) && fd != fd' && fd > 0 && fd' > 0
  }

  /** Two handlers are, of the same descriptor or not. */
  ghost predicate Doubled(y: System) {
    exists id, id', fd, fd', name :: Awaits(y, id, fd, name) && Awaits(y, id', fd', name) && id != id'
  }

  /** Before no move of the run is a name contested. */
  ghost predicate Uncontested(codec: Codec, moves: seq<Move>)
    requires AllEnabled(codec, moves)
  {
    moves == [] ||
    var before := moves[..|moves| - 1];
    Uncontested(codec, before) && !Contested(After(codec, before))
  }

  ghost predicate Undoubled(codec: Codec, moves: seq<Move>)
    requires AllEnabled(codec, moves)
  {
    moves == [] ||
    var before := moves[..|moves| - 1];
    Undoubled(codec, before) && !Doubled(After(codec, before))
  }

  // ----- the invariant -----

  /** Authenticated clients have distinct names, all of them reserved. */
  ghost predicate Distinct(clients: ClientMap, nicknames: set<string>) {
    && (forall fd, name :: Named(clients, fd, name) ==> name in nicknames)
    && (forall fd, fd', name :: Named(clients, fd, name) && Named(clients, fd', name) ==> fd == fd')
  }

  /** Nobody else has a name that is about to be written. */
  ghost predicate Open(y: System) {
    forall id, fd, name, x :: Awaits(y, id, fd, name) && fd > 0 && Named(y.s.clients, x, name) ==> x == fd
  }

  predicate Positive(clients: ClientMap) {
    forall fd :: fd in clients ==> fd > 0
  }

  /** A name that is about to be written is free. */
  ghost predicate Free(y: System) {
    forall id, fd, name :: Awaits(y, id, fd, name) ==> name !in y.s.nicknames
  }

  ghost predicate SameNamed(clients: ClientMap, clients': ClientMap) {
    forall fd, name :: Named(clients', fd, name) <==> Named(clients, fd, name)
  }

  // ----- what one step of a handler does to the names -----

  lemma BeginNames(codec: Codec, s: State, fd: int, packet: Packet, env: Env)
    ensures var (s', pc') := Begin(codec, s, fd, packet, env);
            && s'.clients == s.clients && s'.nicknames == s.nicknames
            && (pc'.NicknameWrite? ==> pc'.nickname !in s.nicknames)
  {
  }

  /** Only the writing changes names, and only the check leads to it. */
  lemma AdvanceNames(codec: Codec, s: State, fd: int, pc: Pc)
    requires !pc.NicknameWrite? && (pc.Sending? ==> !pc.next.NicknameWrite?)
    ensures var (s', pc') := Advance(codec, s, fd, pc);
            && s'.nicknames == s.nicknames && s'.clients.Keys == s.clients.Keys
            && SameNamed(s.clients, s'.clients)
            && (pc'.NicknameWrite? ==> pc'.nickname !in s.nicknames)
  {
    if pc.Start? {
      BeginNames(codec, s, fd, pc.packet, pc.env);
    }
  }

  lemma WritingNames(clients: ClientMap, nicknames: set<string>, fd: int, name: string)
    requires Distinct(clients, nicknames)
    requires fd in clients ==> forall x :: Named(clients, x, name) ==> x == fd
    ensures var (clients', nicknames') := SetNickname(clients, nicknames, fd, name);
            && Distinct(clients', nicknames')
            && (forall x, n :: Named(clients', x, n) ==>
                               Named(clients, x, n) || (x == fd && n == name && fd in clients))
            && nicknames' <= nicknames + {name}
  {
    var (clients', nicknames') := SetNickname(clients, nicknames, fd, name);
    forall x, n
      ensures Named(clients', x, n) <==> if x == fd && fd in clients then n == name else Named(clients, x, n)
    {
    }
  }

  lemma RemovingNames(clients: ClientMap, nicknames: set<string>, fd: int)
    requires Distinct(clients, nicknames)
    ensures var (clients', nicknames') := RemoveClient(clients, nicknames, fd);
            && Distinct(clients', nicknames')
            && (forall x, n :: Named(clients', x, n) ==> Named(clients, x, n))
            && nicknames' <= nicknames
  {
    var (clients', nicknames') := RemoveClient(clients, nicknames, fd);
    assert fd in clients && clients[fd].isAuthenticated ==> Named(clients, fd, clients[fd].nickname);
    forall x, n
      ensures Named(clients', x, n) <==> x != fd && Named(clients, x, n)
    {
    }
  }

  // ----- the moves -----

  ghost predicate NamesOk(y: System) {
    Distinct(y.s.clients, y.s.nicknames) && Open(y) && Positive(y.s.clients)
  }

  /** Nothing new is about to be written, nobody has a new name. */
  lemma NothingNew(y: System, y': System)
    requires Open(y)
    requires forall id, fd, name :: Awaits(y', id, fd, name) ==> Awaits(y, id, fd, name)
    requires forall x, name :: Named(y'.s.clients, x, name) ==> Named(y.s.clients, x, name)
    ensures Open(y')
  {
  }

  lemma NothingNewFree(y: System, y': System)
    requires Free(y)
    requires forall id, fd, name :: Awaits(y', id, fd, name) ==> Awaits(y, id, fd, name)
    requires y'.s.nicknames <= y.s.nicknames
    ensures Free(y')
  {
  }

  lemma DisconnectNames(codec: Codec, y: System, fd: int)
    requires NamesOk(y) && Enabled(y, Disconnect(fd))
    ensures var y' := Take(codec, y, Disconnect(fd));
            NamesOk(y') && (Free(y) ==> Free(y'))
  {
    var y' := Take(codec, y, Disconnect(fd));
    RemovingNames(y.s.clients, y.s.nicknames, fd);
    NothingNew(y, y');
    if Free(y) {
      NothingNewFree(y, y');
    }
  }

  lemma ConnectNames(codec: Codec, y: System, fd: int, ip: string)
    requires NamesOk(y) && Enabled(y, Connect(fd, ip))
    ensures var y' := Take(codec, y, Connect(fd, ip));
            NamesOk(y') && (Free(y) ==> Free(y'))
  {
    var y' := Take(codec, y, Connect(fd, ip));
    assert SameNamed(y.s.clients, y'.s.clients);
    SameDistinct(y.s.clients, y'.s.clients, y.s.nicknames);
    NothingNew(y, y');
    if Free(y) {
      NothingNewFree(y, y');
    }
  }

  lemma SameDistinct(clients: ClientMap, clients': ClientMap, nicknames: set<string>)
    requires Distinct(clients, nicknames) && SameNamed(clients, clients')
    ensures Distinct(clients', nicknames)
  {
  }

  lemma BeginOtherNames(codec: Codec, y: System, m: Move)
    requires NamesOk(y) && Enabled(y, m) && (m.BeginOther? || m.BeginRoom?)
    ensures var y' := Take(codec, y, m);
            NamesOk(y') && (Free(y) ==> Free(y'))
  {
    var y' := Take(codec, y, m);
    NothingNew(y, y');
    if Free(y) {
      NothingNewFree(y, y');
    }
  }

  lemma StepRoomNames(codec: Codec, y: System, fd: int)
    requires NamesOk(y) && Consistent(y) && fd in y.inFlight
    ensures var y' := Take(codec, y, StepRoom(fd));
            NamesOk(y') && (Free(y) ==> Free(y'))
  {
    var y' := Take(codec, y, StepRoom(fd));
    assert Placed(y.s, y.left, fd, PcOf(y, fd));
    AdvanceNames(codec, y.s, fd, y.inFlight[fd]);
    SameDistinct(y.s.clients, y'.s.clients, y.s.nicknames);
    NothingNew(y, y');
    if Free(y) {
      NothingNewFree(y, y');
    }
  }

  /** A handler's step that does not write a name, and may have found one free. */
  lemma CheckNames(codec: Codec, y: System, id: nat)
    requires NamesOk(y) && id in y.others && Harmless(y.others[id].pc) && !y.others[id].pc.NicknameWrite?
    ensures var y' := Take(codec, y, StepOther(id));
            NamesOk(y') && (Free(y) ==> Free(y'))
  {
    var y' := Take(codec, y, StepOther(id));
    var h := y.others[id];
    AdvanceNames(codec, y.s, h.fd, h.pc);
    SameDistinct(y.s.clients, y'.s.clients, y.s.nicknames);
    forall i, fd, name | Awaits(y', i, fd, name)
      ensures Awaits(y, i, fd, name) || name !in y.s.nicknames
    {
    }
  }

  lemma WriteNames(codec: Codec, y: System, id: nat, fd: int, name: string)
    requires NamesOk(y) && Awaits(y, id, fd, name) && !Contested(y)
    ensures var y' := Take(codec, y, StepOther(id));
            NamesOk(y') && (Free(y) && !Doubled(y) ==> Free(y'))
  {
    var y' := Take(codec, y, StepOther(id));
    WritingNames(y.s.clients, y.s.nicknames, fd, name);
    forall i, f, n, x | Awaits(y', i, f, n) && f > 0 && Named(y'.s.clients, x, n)
      ensures x == f
    {
      assert Awaits(y, i, f, n);
      assert x == fd && n == name && fd > 0 ==> f == fd || Contest(y, id, i, fd, f, name);
    }
    if Free(y) && !Doubled(y) {
      forall i, f, n | Awaits(y', i, f, n)
        ensures n !in y'.s.nicknames
      {
        assert Awaits(y, i, f, n);
      }
    }
  }

  lemma TakeNames(codec: Codec, y: System, m: Move)
    requires NamesOk(y) && Consistent(y) && Enabled(y, m) && !Contested(y)
    ensures var y' := Take(codec, y, m);
            NamesOk(y') && (Free(y) && !Doubled(y) ==> Free(y'))
  {
    match m
    case Connect(fd, ip) => ConnectNames(codec, y, fd, ip);
    case Disconnect(fd) => DisconnectNames(codec, y, fd);
    case BeginRoom(_, _, _) => BeginOtherNames(codec, y, m);
    case BeginOther(_, _, _, _) => BeginOtherNames(codec, y, m);
    case StepRoom(fd) => StepRoomNames(codec, y, fd);
    case StepOther(id) =>
      if y.others[id].pc.NicknameWrite? {
        WriteNames(codec, y, id, y.others[id].fd, y.others[id].pc.nickname);
      } else {
        CheckNames(codec, y, id);
      }
  }

  lemma {:induction false} UncontestedIsOk(codec: Codec, moves: seq<Move>)
    requires AllEnabled(codec, moves) && Uncontested(codec, moves)
    ensures NamesOk(After(codec, moves))
    ensures Undoubled(codec, moves) ==> Free(After(codec, moves))
    decreases |moves|
  {
    if moves != [] {
      var before := moves[..|moves| - 1];
      UncontestedIsOk(codec, before);
      AlwaysConsistent(codec, before);
      TakeNames(codec, After(codec, before), moves[|moves| - 1]);
    }
  }

  /** As long as no name was contested, authenticated clients have pairwise distinct
      names, all of them reserved. */
  lemma UncontestedNamesAreDistinct(codec: Codec, moves: seq<Move>, fd: int, fd': int, name: string)
    requires AllEnabled(codec, moves) && Uncontested(codec, moves)
    requires Named(After(codec, moves).s.clients, fd, name)
    ensures name in After(codec, moves).s.nicknames
    ensures Named(After(codec, moves).s.clients, fd', name) ==> fd' == fd
  {
    UncontestedIsOk(codec, moves);
  }

  lemma {:induction false} UndoubledIsUncontested(codec: Codec, moves: seq<Move>)
    requires AllEnabled(codec, moves) && Undoubled(codec, moves)
    ensures Uncontested(codec, moves)
    decreases |moves|
  {
    if moves != [] {
      UndoubledIsUncontested(codec, moves[..|moves| - 1]);
    }
  }

  /** As long as no two handlers were about to write the same name, every name about
      to be written is still free. */
  lemma UndoubledNamesAreFree(codec: Codec, moves: seq<Move>, id: nat, fd: int, name: string)
    requires AllEnabled(codec, moves) && Undoubled(codec, moves)
    requires Awaits(After(codec, moves), id, fd, name)
    ensures name !in After(codec, moves).s.nicknames
    ensures forall x :: !Named(After(codec, moves).s.clients, x, name)
  {
    UndoubledIsUncontested(codec, moves);
    UncontestedIsOk(codec, moves);
  }

  // ----- contested names collide -----

  /** From any run: if the name is contested by two connected clients, two moves give
      it to both. */
  lemma ContestedNamesCollide(codec: Codec, moves: seq<Move>, id: nat, id': nat, fd: int, fd': int, name: string)
    requires AllEnabled(codec, moves) && fd != fd'
    requires Awaits(After(codec, moves), id, fd, name) && Awaits(After(codec, moves), id', fd', name)
    requires fd in After(codec, moves).s.clients && fd' in After(codec, moves).s.clients
    ensures var more := moves + [StepOther(id)] + [StepOther(id')];
            && AllEnabled(codec, more)
            && Named(After(codec, more).s.clients, fd, name) && Named(After(codec, more).s.clients, fd', name)
  {
    WriteName(codec, moves, id, fd, name);
    WriteName(codec, moves + [StepOther(id)], id', fd', name);
  }

  lemma WriteName(codec: Codec, moves: seq<Move>, id: nat, fd: int, name: string)
    requires AllEnabled(codec, moves)
    requires Awaits(After(codec, moves), id, fd, name)
    ensures var more := moves + [StepOther(id)];
            && AllEnabled(codec, more)
            && var y, y' := After(codec, moves), After(codec, more);
               && y'.s.clients == SetNickname(y.s.clients, y.s.nicknames, fd, name).0
               && forall x :: x in y.others && x != id ==> x in y'.others && y'.others[x] == y.others[x]
  {
    OneMoreMove(codec, moves, StepOther(id));
  }

  lemma Longer(moves: seq<Move>, more: seq<Move>, m: Move)
    requires moves <= more
    ensures moves <= more + [m]
  {
  }

  /** A connection that is gone can come back while its old handler still runs. */
  lemma Reconnect(codec: Codec, moves: seq<Move>, fd: int) returns (more: seq<Move>)
    requires AllEnabled(codec, moves) && fd > 0
    ensures moves <= more && AllEnabled(codec, more) && After(codec, more).others == After(codec, moves).others
    ensures After(codec, more).s.clients.Keys == After(codec, moves).s.clients.Keys + {fd}
  {
    more := moves;
    if fd !in After(codec, moves).s.clients {
      OneMoreMove(codec, moves, Connect(fd, ""));
      more := moves + [Connect(fd, "")];
    }
  }

  lemma TwoOwners(y: System, fd: int, fd': int, name: string)
    requires fd != fd' && Named(y.s.clients, fd, name) && Named(y.s.clients, fd', name)
    ensures !Distinct(y.s.clients, y.s.nicknames)
  {
  }

  /** So from every contest a collision can be reached. */
  lemma EveryContestCanCollide(codec: Codec, moves: seq<Move>, id: nat, id': nat, fd: int, fd': int, name: string)
    returns (more: seq<Move>)
    requires AllEnabled(codec, moves) && Contest(After(codec, moves), id, id', fd, fd', name)
    ensures moves <= more && AllEnabled(codec, more)
    ensures !Distinct(After(codec, more).s.clients, After(codec, more).s.nicknames)
  {
    more := Reconnect(codec, moves, fd);
    more := Reconnect(codec, more, fd');
    ContestedNamesCollide(codec, more, id, id', fd, fd', name);
    Longer(moves, more, StepOther(id));
    more := more + [StepOther(id)];
    Longer(moves, more, StepOther(id'));
    more := more + [StepOther(id')];
    TwoOwners(After(codec, more), fd, fd', name);
  }

  // ----- exactly when -----

  /** The move writes a connected client a name that another client has. */
  ghost predicate Robs(y: System, m: Move) {
    m.StepOther? && m.id in y.others &&
    var h := y.others[m.id];
    h.pc.NicknameWrite? && h.fd in y.s.clients && exists x :: x != h.fd && Named(y.s.clients, x, h.pc.nickname)
  }

  /** No move of the run does, in the state it is taken in. */
  ghost predicate NeverRobs(codec: Codec, moves: seq<Move>)
    requires AllEnabled(codec, moves)
  {
    moves == [] ||
    var before := moves[..|moves| - 1];
    NeverRobs(codec, before) && !Robs(After(codec, before), moves[|moves| - 1])
  }

  /** Names were distinct and reserved all along. */
  ghost predicate DistinctThroughout(codec: Codec, moves: seq<Move>)
    requires AllEnabled(codec, moves)
  {
    && Distinct(After(codec, moves).s.clients, After(codec, moves).s.nicknames)
    && (moves == [] || DistinctThroughout(codec, moves[..|moves| - 1]))
  }

  lemma WriteStepNames(codec: Codec, y: System, id: nat)
    requires Distinct(y.s.clients, y.s.nicknames) && id in y.others && y.others[id].pc.NicknameWrite?
    ensures var y' := Take(codec, y, StepOther(id));
            Distinct(y'.s.clients, y'.s.nicknames) <==> !Robs(y, StepOther(id))
  {
    var fd, name := y.others[id].fd, y.others[id].pc.nickname;
    if Robs(y, StepOther(id)) {
      var x :| x != fd && Named(y.s.clients, x, name);
      var y' := Take(codec, y, StepOther(id));
      assert Named(y'.s.clients, fd, name) && Named(y'.s.clients, x, name);
    } else {
      WritingNames(y.s.clients, y.s.nicknames, fd, name);
    }
  }

  lemma OtherStepNames(codec: Codec, y: System, m: Move)
    requires Distinct(y.s.clients, y.s.nicknames) && Consistent(y) && Enabled(y, m)
    requires m.StepOther? ==> !y.others[m.id].pc.NicknameWrite?
    ensures var y' := Take(codec, y, m);
            Distinct(y'.s.clients, y'.s.nicknames)
  {
    var y' := Take(codec, y, m);
    match m
    case Disconnect(fd) => RemovingNames(y.s.clients, y.s.nicknames, fd);
    case StepRoom(fd) =>
      assert Placed(y.s, y.left, fd, PcOf(y, fd));
      AdvanceNames(codec, y.s, fd, y.inFlight[fd]);
      SameDistinct(y.s.clients, y'.s.clients, y.s.nicknames);
    case StepOther(id) =>
      AdvanceNames(codec, y.s, y.others[id].fd, y.others[id].pc);
      SameDistinct(y.s.clients, y'.s.clients, y.s.nicknames);
    case _ =>
      assert SameNamed(y.s.clients, y'.s.clients);
      SameDistinct(y.s.clients, y'.s.clients, y.s.nicknames);
  }

  /** A move keeps the names distinct exactly if it does not rob. */
  lemma DistinctAfterMove(codec: Codec, y: System, m: Move)
    requires Distinct(y.s.clients, y.s.nicknames) && Consistent(y) && Enabled(y, m)
    ensures var y' := Take(codec, y, m);
            Distinct(y'.s.clients, y'.s.nicknames) <==> !Robs(y, m)
  {
    if m.StepOther? && y.others[m.id].pc.NicknameWrite? {
      WriteStepNames(codec, y, m.id);
    } else {
      OtherStepNames(codec, y, m);
    }
  }

  /** Under any interleaving: names were distinct and reserved all along the run if and
      only if no move of it wrote a connected client a name that another had. */
  lemma {:induction false} DistinctExactlyWithoutRobbing(codec: Codec, moves: seq<Move>)
    requires AllEnabled(codec, moves)
    ensures DistinctThroughout(codec, moves) <==> NeverRobs(codec, moves)
    decreases |moves|
  {
    if moves != [] {
      var before := moves[..|moves| - 1];
      DistinctExactlyWithoutRobbing(codec, before);
      AlwaysConsistent(codec, before);
      if DistinctThroughout(codec, before) {
        DistinctAfterMove(codec, After(codec, before), moves[|moves| - 1]);
      }
    }
  }

  lemma OpenNeverRobs(y: System, m: Move)
    requires NamesOk(y)
    ensures !Robs(y, m)
  {
    if m.StepOther? && m.id in y.others && y.others[m.id].pc.NicknameWrite? {
      assert Awaits(y, m.id, y.others[m.id].fd, y.others[m.id].pc.nickname);
    }
  }

  /** Without a contest no move robs: a robbery is foreseen in an earlier state. The
      converse fails (`HarmlessContest`). */
  lemma {:induction false} UncontestedNeverRobs(codec: Codec, moves: seq<Move>)
    requires AllEnabled(codec, moves) && Uncontested(codec, moves)
    ensures NeverRobs(codec, moves)
    decreases |moves|
  {
    if moves != [] {
      var before := moves[..|moves| - 1];
      UncontestedNeverRobs(codec, before);
      UncontestedIsOk(codec, before);
      OpenNeverRobs(After(codec, before), moves[|moves| - 1]);
    }
  }

  // ----- a contest -----

  lemma OneMoreHonest(codec: Codec, moves: seq<Move>, m: Move)
    requires AllEnabled(codec, moves) && Enabled(After(codec, moves), m) && AllEnabled(codec, moves + [m])
    ensures NeverRobs(codec, moves + [m]) <==> NeverRobs(codec, moves) && !Robs(After(codec, moves), m)
    ensures Uncontested(codec, moves + [m]) <==> Uncontested(codec, moves) && !Contested(After(codec, moves))
  {
    assert (moves + [m])[..|moves + [m]| - 1] == moves;
  }

  /** Two connected clients and nothing in flight. */
  lemma TwoConnect(codec: Codec) returns (moves: seq<Move>)
    ensures AllEnabled(codec, moves)
    ensures var y := After(codec, moves);
            1 in y.s.clients && 2 in y.s.clients && y.s.nicknames == {} && y.others == map[]
  {
    OneMoreMove(codec, [], Connect(1, ""));
    OneMoreMove(codec, [] + [Connect(1, "")], Connect(2, ""));
    moves := [] + [Connect(1, "")] + [Connect(2, "")];
  }

  /** A request for a free name, begun and checked but not written. */
  lemma CheckName(codec: Codec, moves: seq<Move>, id: nat, fd: int, packet: Packet, env: Env, name: string)
    returns (more: seq<Move>)
    requires AllEnabled(codec, moves) && id !in After(codec, moves).others
    requires packet.ptype == NICKNAME_REQUEST && codec.nickname(packet.payload) == Nickname(name)
    requires name !in After(codec, moves).s.nicknames
    ensures AllEnabled(codec, more)
    ensures var y := After(codec, moves);
            After(codec, more) == y.(others := y.others[id := Handler(fd, NicknameWrite(name))])
    ensures NeverRobs(codec, moves) ==> NeverRobs(codec, more)
  {
    var y := After(codec, moves);
    OneMoreMove(codec, moves, BeginOther(id, fd, packet, env));
    OneMoreHonest(codec, moves, BeginOther(id, fd, packet, env));
    BegunThenChecked(codec, y, id, fd, packet, env, name);
    OneMoreMove(codec, moves + [BeginOther(id, fd, packet, env)], StepOther(id));
    OneMoreHonest(codec, moves + [BeginOther(id, fd, packet, env)], StepOther(id));
    more := moves + [BeginOther(id, fd, packet, env)] + [StepOther(id)];
  }

  lemma BegunThenChecked(codec: Codec, y: System, id: nat, fd: int, packet: Packet, env: Env, name: string)
    requires id !in y.others && packet.ptype == NICKNAME_REQUEST
    requires codec.nickname(packet.payload) == Nickname(name) && name !in y.s.nicknames
    ensures Enabled(y, BeginOther(id, fd, packet, env))
    ensures var begun := Take(codec, y, BeginOther(id, fd, packet, env));
            && Enabled(begun, StepOther(id))
            && !Robs(begun, StepOther(id))
            && Take(codec, begun, StepOther(id)) == y.(others := y.others[id := Handler(fd, NicknameWrite(name))])
  {
    var started := y.others[id := Handler(fd, Start(packet, env))];
    assert started[id := Handler(fd, NicknameWrite(name))] == y.others[id := Handler(fd, NicknameWrite(name))];
  }

  /** Two clients, one free name, any codec: both are given it. */
  lemma NicknamesCollide(codec: Codec, packet: Packet, env: Env, name: string) returns (moves: seq<Move>)
    requires packet.ptype == NICKNAME_REQUEST && codec.nickname(packet.payload) == Nickname(name)
    ensures AllEnabled(codec, moves)
    ensures Named(After(codec, moves).s.clients, 1, name) && Named(After(codec, moves).s.clients, 2, name)
  {
    moves := TwoConnect(codec);
    moves := CheckName(codec, moves, 1, 1, packet, env, name);
    moves := CheckName(codec, moves, 2, 2, packet, env, name);
    ContestedNamesCollide(codec, moves, 1, 2, 1, 2, name);
    moves := moves + [StepOther(1)] + [StepOther(2)];
  }

  lemma OneConnects(codec: Codec) returns (moves: seq<Move>)
    ensures AllEnabled(codec, moves) && NeverRobs(codec, moves)
    ensures var y := After(codec, moves);
            1 in y.s.clients && 2 !in y.s.clients && y.s.nicknames == {} && y.others == map[]
            && forall x, name :: !Named(y.s.clients, x, name)
  {
    OneMoreMove(codec, [], Connect(1, ""));
    OneMoreHonest(codec, [], Connect(1, ""));
    moves := [] + [Connect(1, "")];
  }

  /** The name is contested, both handlers write it, and nobody is robbed: one of them
      works for a connection that is gone. */
  lemma HarmlessContest(codec: Codec, packet: Packet, env: Env, name: string) returns (moves: seq<Move>)
    requires packet.ptype == NICKNAME_REQUEST && codec.nickname(packet.payload) == Nickname(name)
    ensures AllEnabled(codec, moves) && !Uncontested(codec, moves) && NeverRobs(codec, moves)
  {
    moves := OneConnects(codec);
    moves := CheckName(codec, moves, 1, 1, packet, env, name);
    moves := CheckName(codec, moves, 2, 2, packet, env, name);
    assert Contest(After(codec, moves), 1, 2, 1, 2, name);
    WriteName(codec, moves, 1, 1, name);
    OneMoreHonest(codec, moves, StepOther(1));
    moves := moves + [StepOther(1)];
    WriteName(codec, moves, 2, 2, name);
    OneMoreHonest(codec, moves, StepOther(2));
    moves := moves + [StepOther(2)];
  }
}
