/** Room and RoomManager, the objects, proved against the operations on values.
    Each lock-protected method is one atomic step. */
module RoomManagement {
  import opened Rooms

  /** std::find: the first position of x, or the end. */
  method Find(s: seq<int>, x: int) returns (it: nat)
    ensures it <= |s|
    ensures x !in s[..it]
    ensures it < |s| ==> s[it] == x
    ensures it < |s| <==> x in s
  {
    it := 0;
    while it < |s| && s[it] != x
      invariant it <= |s|
      invariant x !in s[..it]
    {
      it := it + 1;
    }
    if it == |s| {
      assert s == s[..it];
    }
  }

  lemma {:induction false} EraseAtFirst(s: seq<int>, x: int, it: nat)
    requires it <= |s| && x !in s[..it] && (it < |s| ==> s[it] == x)
    ensures Without(s, x) == if it < |s| then s[..it] + s[it + 1..] else s
  {
    if s == [] {
    } else if it == 0 {
      assert s[..0] + s[1..] == s[1..];
    } else {
      var t := s[1..];
      assert s[..it][0] == s[0];
      assert t[..it - 1] == s[..it][1..];
      EraseAtFirst(t, x, it - 1);
      PutBack(s, it);
    }
  }

  lemma PutBack(s: seq<int>, it: nat)
    requires 0 < it <= |s|
    ensures s == [s[0]] + s[1..]
    ensures it < |s| ==> s[..it] + s[it + 1..] == [s[0]] + (s[1..][..it - 1] + s[1..][it..])
  {
  }

  class Room {
    const roomCode: string
    const roomName: string
    const maxUserCnt: int32
    var clients: seq<int>

    constructor (code: string, name: string, maxUsers: int32)
      ensures View() == RoomView(code, name, maxUsers, [])
    {
      roomCode, roomName, maxUserCnt, clients := code, name, maxUsers, [];
    }

    function View(): (room: RoomView)
      reads this
    {
      RoomView(roomCode, roomName, maxUserCnt, clients)
    }

    method AcceptNewUser(clientFd: int) returns (result: JoinResult)
      modifies this
      ensures (View(), result) == Rooms.AcceptNewUser(old(View()), clientFd)
    {
      if |clients| >= AsSize(maxUserCnt) {
        return ROOM_FULL;
      }
      var it := Find(clients, clientFd);
      if it < |clients| {
        return ALREADY_IN;
      }
      clients := clients + [clientFd];
      return SUCCESS;
    }

    method LeaveUser(clientFd: int)
      modifies this
      ensures View() == old(View()).(members := Without(old(clients), clientFd))
    {
      var it := Find(clients, clientFd);
      EraseAtFirst(clients, clientFd, it);
      if it < |clients| {
        clients := clients[..it] + clients[it + 1..];
      }
    }
  }

  class RoomManager {
    var rooms: map<string, Room>

    constructor ()
      ensures Valid() && View() == map[] && rooms == map[]
    {
      rooms := map[];
    }

    /** Each room sits under its own code; so no two keys share a room. */
    ghost predicate Valid()
      reads this, rooms.Values
    {
      forall code :: code in rooms ==> rooms[code].roomCode == code
    }

    ghost function View(): (rooms': RoomMap)
      reads this, rooms.Values
    {
      map code | code in rooms :: rooms[code].View()
    }

    twostate lemma Same()
      requires unchanged(this) && forall code :: code in rooms ==> unchanged(rooms[code])
      ensures View() == old(View())
    {
    }

    /** Eight draws, one character each. */
    static method GenerateRoomCode(draws: Draws, k: nat) returns (code: string)
      ensures code == Code(draws, k)
    {
      code := "";
      for i := 0 to CODE_LENGTH
        invariant code == Code(draws, k)[..i]
      {
        code := code + [CharAt(draws(CODE_LENGTH * k + i))];
      }
    }

    /** The retry loop: draw until a code is free, at most 100 times in vain. */
    method DrawUnusedCode(draws: Draws) returns (roomCode: string)
      ensures var k := FirstUnused(View(), draws, 0);
              roomCode == if k == MAX_ATTEMPTS then "" else Code(draws, k)
    {
      roomCode := GenerateRoomCode(draws, 0);
      var attempts := 1;
      while roomCode in rooms
        invariant 1 <= attempts <= MAX_ATTEMPTS
        invariant roomCode == Code(draws, attempts - 1)
        invariant forall i :: 0 <= i < attempts - 1 ==> Code(draws, i) in rooms
        decreases MAX_ATTEMPTS - attempts
      {
        roomCode := GenerateRoomCode(draws, attempts);
        attempts := attempts + 1;
        if attempts > MAX_ATTEMPTS {
          assert forall i :: 0 <= i < MAX_ATTEMPTS ==> Code(draws, i) in View();
          return "";
        }
      }
      assert FirstUnused(View(), draws, 0) == attempts - 1;
    }

    /** try_emplace under a code known to be free. */
    method Emplace(roomCode: string, roomName: string, maxUserCnt: int32)
      requires Valid() && roomCode !in rooms
      modifies this
      ensures Valid() && fresh(rooms.Values - old(rooms.Values))
      ensures View() == old(View())[roomCode := RoomView(roomCode, roomName, maxUserCnt, [])]
    {
      var room := new Room(roomCode, roomName, maxUserCnt);
      rooms := rooms[roomCode := room];
      assert rooms.Values <= old(rooms.Values) + {room};
    }

    lemma SameSize()
      ensures |View()| == |rooms|
    {
      assert View().Keys == rooms.Keys && |View()| == |View().Keys| && |rooms| == |rooms.Keys|;
    }

    method AddRoom(roomName: string, maxUserCnt: int32, draws: Draws) returns (roomCode: string)
      requires Valid()
      modifies this
      ensures Valid() && fresh(rooms.Values - old(rooms.Values))
      ensures (View(), roomCode) == Rooms.AddRoom(old(View()), roomName, maxUserCnt, draws)
    {
      SameSize();
      if |rooms| >= MAX_ROOM_CNT {
        return "";
      }
      roomCode := DrawUnusedCode(draws);
      if roomCode != "" {
        Emplace(roomCode, roomName, maxUserCnt);
      }
    }

    method JoinRoom(clientFd: int, roomCode: string) returns (joined: bool)
      requires Valid()
      modifies rooms.Values
      ensures Valid() && rooms == old(rooms)
      ensures (View(), joined) == Rooms.JoinRoom(old(View()), clientFd, roomCode)
    {
      if roomCode !in rooms {
        return false;
      }
      assert rooms[roomCode] in rooms.Values;
      var result := rooms[roomCode].AcceptNewUser(clientFd);
      assert View() == old(View())[roomCode := rooms[roomCode].View()];
      return result == SUCCESS;
    }

    method LeaveRoom(clientFd: int, roomCode: string)
      requires Valid()
      modifies this, rooms.Values
      ensures Valid() && rooms.Values <= old(rooms.Values)
      ensures View() == Rooms.LeaveRoom(old(View()), clientFd, roomCode)
    {
      if roomCode !in rooms {
        return;
      }
      assert rooms[roomCode] in rooms.Values;
      rooms[roomCode].LeaveUser(clientFd);
      if |rooms[roomCode].clients| == 0 {
        rooms := rooms - {roomCode};
      }
    }

    method GetRoom(roomCode: string) returns (room: Room?)
      requires Valid()
      ensures room == if roomCode in rooms then rooms[roomCode] else null
      ensures room != null ==> roomCode in View() && room.View() == View()[roomCode]
    {
      return if roomCode in rooms then rooms[roomCode] else null;
    }
  }
}
