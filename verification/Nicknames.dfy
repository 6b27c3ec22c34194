/** Which names the server holds, over every run of whole handlers. */
module Nicknames {
  import opened Protocol
  import opened Rooms
  import opened Clients
  import opened Payloads
  import opened Handlers

  predicate Named(clients: ClientMap, fd: int, name: string) {
    fd in clients && clients[fd].isAuthenticated && clients[fd].nickname == name
  }

  /** The old name a step gives up without releasing it: its owner took another. */
  function RetiredBy(codec: Codec, s: State, e: Event): (names: set<string>) {
    if e.Handle? && e.packet.ptype == NICKNAME_REQUEST && e.fd in s.clients && s.clients[e.fd].isAuthenticated
       && codec.nickname(e.packet.payload).Nickname? && codec.nickname(e.packet.payload).nickname !in s.nicknames
    then {s.clients[e.fd].nickname}
    else {}
  }

  function Retired(codec: Codec, events: seq<Event>): (r: set<string>) {
    if events == [] then {}
    else
      var before := events[..|events| - 1];
      Retired(codec, before) + RetiredBy(codec, Run(codec, before), events[|events| - 1])
  }

  /** The reserved names are the names of authenticated clients, each with one
      owner, and the retired ones, which nobody has. */
  ghost predicate Reserved(clients: ClientMap, nicknames: set<string>, retired: set<string>) {
    && (forall fd, name :: Named(clients, fd, name) ==> name in nicknames && name !in retired)
    && (forall fd, fd', name :: Named(clients, fd, name) && Named(clients, fd', name) ==> fd == fd')
    && (forall name :: name in nicknames ==> name in retired || exists fd :: Named(clients, fd, name))
    && retired <= nicknames
  }

  lemma RemovingReleases(clients: ClientMap, nicknames: set<string>, retired: set<string>, fd: int)
    requires Reserved(clients, nicknames, retired)
    ensures var (clients', nicknames') := RemoveClient(clients, nicknames, fd);
            Reserved(clients', nicknames', retired)
  {
    var (clients', nicknames') := RemoveClient(clients, nicknames, fd);
    assert fd in clients && clients[fd].isAuthenticated ==> Named(clients, fd, clients[fd].nickname);
    forall x, name
      ensures Named(clients', x, name) <==> x != fd && Named(clients, x, name)
    {
    }
    forall name | name in nicknames' && name !in retired
      ensures exists x :: Named(clients', x, name)
    {
      var x :| Named(clients, x, name);
      assert Named(clients', x, name);
    }
  }

  lemma AddingNamesNobody(clients: ClientMap, nicknames: set<string>, retired: set<string>, fd: int, ip: string)
    requires Reserved(clients, nicknames, retired) && fd !in clients
    ensures Reserved(AddClient(clients, fd, ip), nicknames, retired)
  {
    SameNames(clients, AddClient(clients, fd, ip), nicknames, retired);
  }

  lemma SameNames(clients: ClientMap, clients': ClientMap, nicknames: set<string>, retired: set<string>)
    requires Reserved(clients, nicknames, retired)
    requires forall fd, name :: Named(clients', fd, name) <==> Named(clients, fd, name)
    ensures Reserved(clients', nicknames, retired)
  {
    forall name | name in nicknames && name !in retired
      ensures exists fd :: Named(clients', fd, name)
    {
      var fd :| Named(clients, fd, name);
      assert Named(clients', fd, name);
    }
  }

  lemma RenamingRetires(clients: ClientMap, nicknames: set<string>, retired: set<string>, fd: int, name: string)
    requires Reserved(clients, nicknames, retired)
    requires fd in clients && name !in nicknames
    ensures var (clients', nicknames') := SetNickname(clients, nicknames, fd, name);
            Reserved(clients', nicknames', retired + if clients[fd].isAuthenticated then {clients[fd].nickname} else {})
  {
    var (clients', nicknames') := SetNickname(clients, nicknames, fd, name);
    forall x, n
      ensures Named(clients', x, n) <==> if x == fd then n == name else Named(clients, x, n)
    {
    }
    var retired' := retired + if clients[fd].isAuthenticated then {clients[fd].nickname} else {};
    forall n | n in nicknames' && n !in retired'
      ensures exists x :: Named(clients', x, n)
    {
      if n == name {
        assert Named(clients', fd, n);
      } else {
        var x :| Named(clients, x, n);
        assert Named(clients', x, n);
      }
    }
    assert clients[fd].isAuthenticated ==> Named(clients, fd, clients[fd].nickname);
  }

  /** Room and chat requests leave the names alone. */
  lemma NamesUntouched(codec: Codec, s: State, fd: int, packet: Packet, env: Env)
    requires packet.ptype != NICKNAME_REQUEST
    ensures var s' := HandlePacket(codec, s, fd, packet, env);
            && s'.nicknames == s.nicknames
            && forall x, name :: Named(s'.clients, x, name) <==> Named(s.clients, x, name)
  {
  }

  lemma NicknameKeeps(codec: Codec, s: State, e: Event, retired: set<string>)
    requires e.Handle? && e.packet.ptype == NICKNAME_REQUEST
    requires Reserved(s.clients, s.nicknames, retired)
    ensures var s' := HandleNickname(codec, s, e.fd, e.packet.payload);
            Reserved(s'.clients, s'.nicknames, retired + RetiredBy(codec, s, e))
  {
    assert retired + {} == retired;
    match codec.nickname(e.packet.payload)
    case Nickname(name) =>
      if name !in s.nicknames {
        if e.fd in s.clients {
          RenamingRetires(s.clients, s.nicknames, retired, e.fd, name);
        }
      }
    case _ =>
  }

  /** Over every run: authenticated clients have pairwise distinct names, all
      reserved; beyond those exactly the retired names are reserved. */
  lemma {:induction false} NamesReserved(codec: Codec, events: seq<Event>)
    requires LegalRun(codec, events)
    ensures var s := Run(codec, events);
            Reserved(s.clients, s.nicknames, Retired(codec, events))
  {
    if events != [] {
      var before, e := events[..|events| - 1], events[|events| - 1];
      var s, retired := Run(codec, before), Retired(codec, before);
      NamesReserved(codec, before);
      assert retired + {} == retired;
      match e
      case Accept(fd, ip) => AddingNamesNobody(s.clients, s.nicknames, retired, fd, ip);
      case Close(fd) => RemovingReleases(s.clients, s.nicknames, retired, fd);
      case Handle(fd, packet, env) =>
        if packet.ptype == NICKNAME_REQUEST {
          NicknameKeeps(codec, s, e, retired);
        } else {
          NamesUntouched(codec, s, fd, packet, env);
          SameNames(s.clients, HandlePacket(codec, s, fd, packet, env).clients, s.nicknames, retired);
        }
    }
  }

  /** A retired name is refused to everybody from then on. */
  lemma {:induction false} RetiredForGood(codec: Codec, events: seq<Event>, n: nat, name: string)
    requires LegalRun(codec, events) && n <= |events|
    requires name in Retired(codec, events[..n])
    ensures name in Retired(codec, events)
    ensures name in Run(codec, events).nicknames
    ensures forall fd :: !Named(Run(codec, events).clients, fd, name)
  {
    NamesReserved(codec, events);
    if n < |events| {
      var before := events[..|events| - 1];
      assert before[..n] == events[..n];
      RetiredForGood(codec, before, n, name);
    } else {
      assert events[..n] == events;
    }
  }
}
