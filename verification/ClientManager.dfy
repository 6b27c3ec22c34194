/** ClientInfo, ClientManager and PacketReceiver, the objects. */
module ClientManagement {
  import opened Protocol
  import opened Framing
  import opened Clients

  class ClientInfo {
    const fd: int
    const ip: string
    var nickname: string
    var isAuthenticated: bool
    var recvBuffer: Bytes
    var roomCode: string

    constructor (fd: int, ip: string)
      ensures this.fd == fd && View() == ClientView(ip, "", false, "") && recvBuffer == []
    {
      this.fd, this.ip := fd, ip;
      nickname, isAuthenticated, recvBuffer, roomCode := "", false, [], "";
    }

    function View(): (client: ClientView)
      reads this
    {
      ClientView(ip, nickname, isAuthenticated, roomCode)
    }
  }

  class ClientManager {
    var clients: map<int, ClientInfo>
    var nicknames: set<string>

    constructor ()
      ensures Valid() && clients == map[] && nicknames == {}
    {
      clients, nicknames := map[], {};
    }

    /** Each entry carries its own key; so no two keys share an entry. */
    ghost predicate Valid()
      reads this, clients.Values
    {
      forall fd :: fd in clients ==> clients[fd].fd == fd
    }

    ghost function View(): (clients': ClientMap)
      reads this, clients.Values
    {
      map fd | fd in clients :: clients[fd].View()
    }

    ghost function Buffers(): (r: map<int, Bytes>)
      reads this, clients.Values
    {
      map fd | fd in clients :: clients[fd].recvBuffer
    }

    twostate lemma Same()
      requires unchanged(this) && forall k :: k in clients ==> unchanged(clients[k])
      ensures View() == old(View()) && Buffers() == old(Buffers())
    {
      forall fd | fd in clients
        ensures View()[fd] == old(View())[fd] && Buffers()[fd] == old(Buffers())[fd]
      {
        assert clients[fd].View() == old(clients[fd].View());
      }
      assert View().Keys == old(View()).Keys && Buffers().Keys == old(Buffers()).Keys;
    }

    lemma Distinct(fd: int)
      requires Valid() && fd in clients
      ensures forall other :: other in clients && other != fd ==> clients[other] != clients[fd]
    {
      assert clients[fd].fd == fd;
    }

    twostate lemma OneChanged(fd: int)
      requires fd in clients && clients == old(clients)
      requires forall k :: k in clients && k != fd ==> unchanged(clients[k])
      ensures View() == old(View())[fd := clients[fd].View()]
      ensures Buffers() == old(Buffers())[fd := clients[fd].recvBuffer]
    {
      OneViewChanged(fd);
      assert Buffers().Keys == old(Buffers()).Keys;
    }

    twostate lemma OneViewChanged(fd: int)
      requires fd in clients && clients == old(clients)
      requires forall k :: k in clients && k != fd ==> unchanged(clients[k])
      ensures View() == old(View())[fd := clients[fd].View()]
    {
      forall k | k in clients && k != fd
        ensures View()[k] == old(View())[k]
      {
        assert clients[k].View() == old(clients[k].View());
      }
    }

    method AddClient(fd: int, ip: string)
      requires Valid()
      modifies this`clients
      ensures Valid() && fresh(clients.Values - old(clients.Values))
      ensures View() == Clients.AddClient(old(View()), fd, ip)
      ensures Buffers() == old(Buffers())[fd := []]
    {
      var client := new ClientInfo(fd, ip);
      clients := clients[fd := client];
    }

    method RemoveClient(fd: int)
      requires Valid()
      modifies this
      ensures Valid() && clients.Values <= old(clients.Values)
      ensures (View(), nicknames) == Clients.RemoveClient(old(View()), old(nicknames), fd)
      ensures Buffers() == old(Buffers()) - {fd}
    {
      if fd in clients {
        if clients[fd].isAuthenticated {
          nicknames := nicknames - {clients[fd].nickname};
        }
        clients := clients - {fd};
        assert View() == old(View()) - {fd};
      } else {
        assert Buffers() == old(Buffers()) - {fd};
      }
    }

    method GetClient(fd: int) returns (client: ClientInfo?)
      requires Valid()
      ensures client == if fd in clients then clients[fd] else null
      ensures client != null ==> client in clients.Values && client.View() == View()[fd]
    {
      client := if fd in clients then clients[fd] else null;
    }

    /** The authenticated descriptors but one, in whatever order the table has. */
    method GetAllAuthenticatedClientFds(excludeFd: int) returns (fds: seq<int>)
      requires Valid()
      ensures forall fd :: fd in fds <==> fd in clients && fd != excludeFd && clients[fd].isAuthenticated
      ensures |fds| == |set fd | fd in fds|
    {
      fds := [];
      var rest := clients.Keys;
      ghost var seen: set<int> := {};
      while |rest| > 0
        invariant rest <= clients.Keys
        invariant forall fd :: fd in fds <==>
                               fd in clients.Keys - rest && fd != excludeFd && clients[fd].isAuthenticated
        invariant seen == set fd | fd in fds
        invariant |fds| == |seen|
        decreases |rest|
      {
        var fd := SomeKey(rest);
        if fd != excludeFd && clients[fd].isAuthenticated {
          assert fd !in seen;
          fds, seen := fds + [fd], seen + {fd};
        }
        rest := rest - {fd};
      }
    }

    static method SomeKey<T(==)>(keys: set<T>) returns (key: T)
      requires keys != {}
      ensures key in keys
    {
      key :| key in keys;
    }

    method IsNicknameTaken(nickname: string) returns (taken: bool)
      ensures taken <==> nickname in nicknames
    {
      taken := nickname in nicknames;
    }

    method SetNickname(fd: int, nickname: string)
      requires Valid()
      modifies this`nicknames, clients.Values`nickname, clients.Values`isAuthenticated
      ensures Valid() && clients == old(clients)
      ensures (View(), nicknames) == Clients.SetNickname(old(View()), old(nicknames), fd, nickname)
      ensures Buffers() == old(Buffers())
    {
      if fd in clients {
        Distinct(fd);
        assert clients[fd] in clients.Values;
        clients[fd].nickname := nickname;
        clients[fd].isAuthenticated := true;
        nicknames := nicknames + {nickname};
        OneChanged(fd);
      }
    }

    /** client->roomCode = code, through the pointer getClient gave. */
    method WriteRoomCode(fd: int, client: ClientInfo, code: string)
      requires Valid() && fd in clients && client == clients[fd]
      modifies client`roomCode
      ensures Valid() && View() == SetRoomCode(old(View()), fd, code)
      ensures Buffers() == old(Buffers())
    {
      Distinct(fd);
      client.roomCode := code;
      OneChanged(fd);
    }
  }

  class PacketReceiver {
    const clients: ClientManager

    constructor (clients: ClientManager)
      ensures this.clients == clients
    {
      this.clients := clients;
    }

    /** What recv brought, at most RECV_BUFFER_SIZE bytes, joins the buffer; nothing
        means the peer closed or failed. */
    method Receive(fd: int, arrived: Bytes) returns (ok: bool)
      requires clients.Valid() && |arrived| <= RECV_BUFFER_SIZE
      modifies clients.clients.Values`recvBuffer
      ensures clients.Valid() && clients.View() == old(clients.View())
      ensures ok <==> fd in clients.clients && arrived != []
      ensures clients.Buffers() == if ok then old(clients.Buffers())[fd := old(clients.Buffers())[fd] + arrived]
                                   else old(clients.Buffers())
    {
      var client := clients.GetClient(fd);
      if client == null {
        return false;
      }
      if |arrived| == 0 {
        return false;
      }
      clients.Distinct(fd);
      client.recvBuffer := client.recvBuffer + arrived;
      clients.OneChanged(fd);
      return true;
    }

    /** Cut frames off the front of the buffer; `called` are the callback's packets. */
    method ParsePackets(host: Host, fd: int) returns (called: seq<Packet>)
      requires clients.Valid()
      requires fd in clients.clients ==> Bounded(clients.clients[fd].recvBuffer)
      modifies clients.clients.Values`recvBuffer
      ensures clients.Valid() && clients.View() == old(clients.View())
      ensures fd !in clients.clients ==> called == [] && clients.Buffers() == old(clients.Buffers())
      ensures fd in clients.clients ==>
              && called == Parse(old(clients.Buffers())[fd]).packets
              && clients.Buffers() == old(clients.Buffers())[fd := Parse(old(clients.Buffers())[fd]).rest]
    {
      called := [];
      var client := clients.GetClient(fd);
      if client == null {
        return;
      }
      clients.Distinct(fd);
      called := ParseBuffer(host, client);
      clients.OneChanged(fd);
    }

    static method ParseBuffer(host: Host, client: ClientInfo) returns (called: seq<Packet>)
      requires Bounded(client.recvBuffer)
      modifies client`recvBuffer
      ensures called == Parse(old(client.recvBuffer)).packets
      ensures client.recvBuffer == Parse(old(client.recvBuffer)).rest
    {
      called := [];
      ghost var whole := Parse(client.recvBuffer);
      while |client.recvBuffer| >= HEADER_SIZE
        invariant Bounded(client.recvBuffer)
        invariant whole.packets == called + Parse(client.recvBuffer).packets
        invariant whole.rest == Parse(client.recvBuffer).rest
        decreases |client.recvBuffer|
      {
        var buffer := client.recvBuffer;
        var ptype, payloadSize := ReadHeader(host, buffer);
        var packetSize := HEADER_SIZE + payloadSize;
        if |buffer| < packetSize {
          break;
        }
        var packet := Packet(ptype, buffer[HEADER_SIZE..packetSize]);
        Associative(called, [packet], Parse(buffer[packetSize..]).packets);
        called := called + [packet];
        client.recvBuffer := buffer[packetSize..];
      }
      assert called + [] == called;
    }

    static method ReadHeader(host: Host, b: Bytes) returns (ptype: uint16, size: uint16)
      requires |b| >= HEADER_SIZE
      ensures ptype == DeclaredType(b) && size == DeclaredSize(b)
    {
      assert b[0..2] == [b[0], b[1]];
      assert b[2..4] == [b[2], b[3]];
      LoadedFromNetworkOrder(host, DeclaredType(b));
      LoadedFromNetworkOrder(host, DeclaredSize(b));
      ptype := Htons(host, Load16(host, b[0..2]));
      size := Htons(host, Load16(host, b[2..4]));
    }

    method ReceiveAndParse(host: Host, fd: int, arrived: Bytes) returns (ok: bool, called: seq<Packet>)
      requires clients.Valid() && |arrived| <= RECV_BUFFER_SIZE
      requires fd in clients.clients ==> Bounded(clients.clients[fd].recvBuffer + arrived)
      modifies clients.clients.Values`recvBuffer
      ensures clients.Valid() && clients.View() == old(clients.View())
      ensures ok <==> fd in clients.clients && arrived != []
      ensures !ok ==> called == [] && clients.Buffers() == old(clients.Buffers())
      ensures ok ==> var now := Feed(old(clients.Buffers())[fd], [arrived]);
                     called == now.packets && clients.Buffers() == old(clients.Buffers())[fd := now.rest]
    {
      called := [];
      ok := Receive(fd, arrived);
      if !ok {
        return;
      }
      FeedOne(old(clients.Buffers())[fd], arrived);
      assert clients.clients[fd].recvBuffer == clients.Buffers()[fd];
      called := ParsePackets(host, fd);
    }
  }

  lemma FeedOne(buffer: Bytes, chunk: Bytes)
    ensures Feed(buffer, [chunk]) == Parse(buffer + chunk)
  {
    var now := Parse(buffer + chunk);
    assert Feed(now.rest, []) == Parsed([], now.rest);
    assert [chunk][1..] == [];
    assert now.packets + [] == now.packets;
  }
}
