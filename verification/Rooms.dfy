/** Counting pairs by their first component. */
module Counting {

  lemma SomeElement<T>(s: set<T>) returns (x: T)
    requires s != {}
    ensures x in s
  {
    x :| x in s;
  }

  lemma {:induction false} PairsAsMany(fds: set<int>, codeOf: int -> string)
    ensures |set fd | fd in fds :: (fd, codeOf(fd))| == |fds|
  {
    if fds != {} {
      var x := SomeElement(fds);
      PairsAsMany(fds - {x}, codeOf);
      assert (set fd | fd in fds :: (fd, codeOf(fd)))
          == (set fd | fd in fds - {x} :: (fd, codeOf(fd))) + {(x, codeOf(x))};
    }
  }
}

/** The room table as a value: what each operation of Room and RoomManager does
    to it, and which memberships it leaves. */
module Rooms {

  const MAX_ROOM_CNT := 100
  const MAX_ATTEMPTS := 100
  const CODE_LENGTH := 8
  const CHARS_LENGTH := 62

  type int32 = x: int | -0x8000_0000 <= x < 0x8000_0000

  datatype RoomView = RoomView(code: string, name: string, maxUsers: int32, members: seq<int>)

  type RoomMap = map<string, RoomView>

  datatype JoinResult = SUCCESS | ROOM_FULL | ALREADY_IN

  // ----- random room codes -----

  type Index = i: nat | i < CHARS_LENGTH

  /** The successive results of the random distribution, in the order drawn. */
  type Draws = nat -> Index

  /** The table of characters: a to z, then A to Z, then 0 to 9. */
  function CharAt(i: Index): (c: char) {
    if i < 26 then ('a' as int + i) as char
    else if i < 52 then ('A' as int + (i - 26)) as char
    else ('0' as int + (i - 52)) as char
  }

  /** The k-th code drawn. */
  function Code(draws: Draws, k: nat): (code: string)
    ensures |code| == CODE_LENGTH
  {
    seq(CODE_LENGTH, i requires 0 <= i < CODE_LENGTH => CharAt(draws(CODE_LENGTH * k + i)))
  }

  lemma LowerAt(i: nat)
    requires i < 26
    ensures "abcdefghijklmnopqrstuvwxyz"[i] == ('a' as int + i) as char
  {
    var letters := "abcdefghijklmnopqrstuvwxyz";
    assert i == 0 || i == 1 || i == 2 || i == 3 || i == 4 || i == 5 || i == 6 || i == 7
           || i == 8 || i == 9 || i == 10 || i == 11 || i == 12 || i == 13 || i == 14 || i == 15
           || i == 16 || i == 17 || i == 18 || i == 19 || i == 20 || i == 21 || i == 22 || i == 23
           || i == 24 || i == 25;
  }

  lemma UpperAt(i: nat)
    requires i < 26
    ensures "ABCDEFGHIJKLMNOPQRSTUVWXYZ"[i] == ('A' as int + i) as char
  {
    var letters := "ABCDEFGHIJKLMNOPQRSTUVWXYZ";
    assert i == 0 || i == 1 || i == 2 || i == 3 || i == 4 || i == 5 || i == 6 || i == 7
           || i == 8 || i == 9 || i == 10 || i == 11 || i == 12 || i == 13 || i == 14 || i == 15
           || i == 16 || i == 17 || i == 18 || i == 19 || i == 20 || i == 21 || i == 22 || i == 23
           || i == 24 || i == 25;
  }

  lemma DigitAt(i: nat)
    requires i < 10
    ensures "0123456789"[i] == ('0' as int + i) as char
  {
    var letters := "0123456789";
    assert i == 0 || i == 1 || i == 2 || i == 3 || i == 4 || i == 5 || i == 6 || i == 7
           || i == 8 || i == 9;
  }

  /** It is the table of the program, three texts one after the other. */
  lemma CharAtTable(i: Index)
    ensures CharAt(i) == ("abcdefghijklmnopqrstuvwxyz" + "ABCDEFGHIJKLMNOPQRSTUVWXYZ" + "0123456789")[i]
  {
    if i < 26 {
      LowerAt(i);
    } else if i < 52 {
      UpperAt(i - 26);
    } else {
      DigitAt(i - 52);
    }
  }

  /** Different draws are different characters. */
  lemma CharAtInjective(i: Index, j: Index)
    requires CharAt(i) == CharAt(j)
    ensures i == j
  {
  }

  /** The k-th eight draws. */
  function Block(draws: Draws, k: nat): (block: seq<Index>)
    ensures |block| == 8
  {
    seq(8, i requires 0 <= i < 8 => draws(8 * k + i))
  }

  /** The k-th code spells the k-th eight draws. */
  lemma CodeSpells(draws: Draws, k: nat)
    ensures |Code(draws, k)| == 8
    ensures forall i :: 0 <= i < 8 ==> Code(draws, k)[i] == CharAt(Block(draws, k)[i])
  {
  }

  /** Two draws of eight give the same code only if they are the same. */
  lemma SameCodeSameDraws(draws: Draws, k: nat, draws': Draws, k': nat)
    ensures Code(draws, k) == Code(draws', k') <==> Block(draws, k) == Block(draws', k')
  {
    if Code(draws, k) == Code(draws', k') {
      forall i | 0 <= i < 8
        ensures Block(draws, k)[i] == Block(draws', k')[i]
      {
        assert CharAt(draws(8 * k + i)) == Code(draws, k)[i] == Code(draws', k')[i] == CharAt(draws'(8 * k' + i));
        CharAtInjective(draws(8 * k + i), draws'(8 * k' + i));
      }
    } else {
      assert Block(draws, k) != Block(draws', k') by {
        SameDrawsSameCode(draws, k, draws', k');
      }
    }
  }

  lemma SameDrawsSameCode(draws: Draws, k: nat, draws': Draws, k': nat)
    ensures Block(draws, k) == Block(draws', k') ==> Code(draws, k) == Code(draws', k')
  {
    if Block(draws, k) == Block(draws', k') {
      forall i | 0 <= i < 8
        ensures Code(draws, k)[i] == Code(draws', k')[i]
      {
        assert Block(draws, k)[i] == Block(draws', k')[i];
      }
    }
  }

  predicate IsAlphanumeric(c: char) {
    'a' <= c <= 'z' || 'A' <= c <= 'Z' || '0' <= c <= '9'
  }

  predicate IsCode(code: string) {
    |code| == CODE_LENGTH && forall i :: 0 <= i < |code| ==> IsAlphanumeric(code[i])
  }

  lemma CodesAreCodes(draws: Draws, k: nat)
    ensures IsCode(Code(draws, k))
  {
    assert forall i: Index :: IsAlphanumeric(CharAt(i));
  }

  // ----- operations -----

  /** An `int` compared with a `size_t`: a negative one wraps around. */
  function AsSize(n: int32): (count: nat) {
    n % 0x1_0000_0000_0000_0000
  }

  function AcceptNewUser(room: RoomView, fd: int): (r: (RoomView, JoinResult)) {
    if |room.members| >= AsSize(room.maxUsers) then (room, ROOM_FULL)
    else if fd in room.members then (room, ALREADY_IN)
    else (room.(members := room.members + [fd]), SUCCESS)
  }

  /** A vector after erasing the first occurrence found. */
  function Without(s: seq<int>, x: int): (rest: seq<int>) {
    if s == [] then [] else if s[0] == x then s[1..] else [s[0]] + Without(s[1..], x)
  }

  /** The first of the first 100 draws that is no room's code, or 100. */
  function FirstUnused(rooms: RoomMap, draws: Draws, k: nat): (n: nat)
    requires k <= MAX_ATTEMPTS
    ensures k <= n <= MAX_ATTEMPTS
    ensures n < MAX_ATTEMPTS ==> Code(draws, n) !in rooms
    ensures forall i :: k <= i < n ==> Code(draws, i) in rooms
    decreases MAX_ATTEMPTS - k
  {
    if k == MAX_ATTEMPTS || Code(draws, k) !in rooms then k else FirstUnused(rooms, draws, k + 1)
  }

  function AddRoom(rooms: RoomMap, name: string, maxUsers: int32, draws: Draws): (r: (RoomMap, string)) {
    if |rooms| >= MAX_ROOM_CNT then (rooms, "")
    else
      var k := FirstUnused(rooms, draws, 0);
      if k == MAX_ATTEMPTS then (rooms, "")
      else (rooms[Code(draws, k) := RoomView(Code(draws, k), name, maxUsers, [])], Code(draws, k))
  }

  function JoinRoom(rooms: RoomMap, fd: int, code: string): (r: (RoomMap, bool)) {
    if code !in rooms then (rooms, false)
    else
      var (room, result) := AcceptNewUser(rooms[code], fd);
      (rooms[code := room], result == SUCCESS)
  }

  function LeaveRoom(rooms: RoomMap, fd: int, code: string): (rooms': RoomMap) {
    if code !in rooms then rooms
    else
      var rest := Without(rooms[code].members, fd);
      if rest == [] then rooms - {code} else rooms[code := rooms[code].(members := rest)]
  }

  lemma RefusedJoinChangesNothing(rooms: RoomMap, fd: int, code: string)
    requires !JoinRoom(rooms, fd, code).1
    ensures JoinRoom(rooms, fd, code).0 == rooms
  {
  }

  /** addRoom succeeds exactly when there is a place and one of the first 100
      draws is free; it then takes the first free draw for one new, empty room. */
  lemma AddRoomPicks(rooms: RoomMap, name: string, maxUsers: int32, draws: Draws)
    ensures var (rooms', code) := AddRoom(rooms, name, maxUsers, draws);
            && (code != "" <==> |rooms| < 100 && exists k :: 0 <= k < 100 && Code(draws, k) !in rooms)
            && (code == "" ==> rooms' == rooms)
            && (code != "" ==>
                && code !in rooms && rooms' == rooms[code := RoomView(code, name, maxUsers, [])]
                && exists k :: 0 <= k < 100 && code == Code(draws, k)
                               && forall j :: 0 <= j < k ==> Code(draws, j) in rooms)
  {
    CodesAreCodes(draws, FirstUnused(rooms, draws, 0));
  }

  /** Every room's code was spelt by some eight draws of this list. */
  ghost predicate Spelt(rooms: RoomMap, used: seq<(Draws, nat)>) {
    forall code :: code in rooms ==> exists i :: 0 <= i < |used| && code == Code(used[i].0, used[i].1)
  }

  /** So a room is made whenever there is a place and one of the first 100 draws of
      eight differs from every draw that gave a room its code. */
  lemma FreshDrawMakesRoom(rooms: RoomMap, name: string, maxUsers: int32, draws: Draws, k: nat, used: seq<(Draws, nat)>)
    requires |rooms| < 100 && k < 100 && Spelt(rooms, used)
    requires forall i :: 0 <= i < |used| ==> Block(used[i].0, used[i].1) != Block(draws, k)
    ensures AddRoom(rooms, name, maxUsers, draws).1 != ""
  {
    if Code(draws, k) in rooms {
      var i :| 0 <= i < |used| && Code(draws, k) == Code(used[i].0, used[i].1);
      SameCodeSameDraws(draws, k, used[i].0, used[i].1);
    }
    AddRoomPicks(rooms, name, maxUsers, draws);
  }

  /** What a room answers: full first, then listed already, else it takes the client
      behind the others. */
  lemma RoomAnswers(room: RoomView, fd: int)
    ensures var (room', result) := AcceptNewUser(room, fd);
            && (result == ROOM_FULL <==> |room.members| >= AsSize(room.maxUsers))
            && (result == ALREADY_IN <==> |room.members| < AsSize(room.maxUsers) && fd in room.members)
            && room' == if result == SUCCESS then room.(members := room.members + [fd]) else room
    ensures room.maxUsers >= 0 ==> AsSize(room.maxUsers) == room.maxUsers
    ensures room.maxUsers < 0 ==> AsSize(room.maxUsers) == room.maxUsers + 0x1_0000_0000_0000_0000
  {
  }

  /** A negative number of places is no limit: it is compared as a number of at least
      2 to the 63rd. */
  lemma NegativeIsNoLimit(room: RoomView, fd: int)
    requires room.maxUsers < 0 && |room.members| < 0x8000_0000_0000_0000
    ensures var (room', result) := AcceptNewUser(room, fd);
            && (result == SUCCESS <==> fd !in room.members)
            && (result == ALREADY_IN <==> fd in room.members)
  {
  }

  // ----- what every operation keeps -----

  ghost predicate NoDuplicates(s: seq<int>) {
    forall i, j :: 0 <= i < j < |s| ==> s[i] != s[j]
  }

  ghost predicate RoomOk(code: string, room: RoomView) {
    && IsCode(code)
    && room.code == code
    && NoDuplicates(room.members)
    && |room.members| <= AsSize(room.maxUsers)
  }

  /** At most 100 rooms, each under its own 8-character code, within its limit
      and without a member listed twice. */
  ghost predicate RoomsOk(rooms: RoomMap) {
    |rooms| <= MAX_ROOM_CNT && forall code :: code in rooms ==> RoomOk(code, rooms[code])
  }

  /** The room exists and lists the descriptor. */
  predicate In(rooms: RoomMap, fd: int, code: string) {
    code in rooms && fd in rooms[code].members
  }

  lemma {:induction false} WithoutKeeps(s: seq<int>, x: int)
    requires NoDuplicates(s)
    ensures NoDuplicates(Without(s, x))
    ensures forall y :: y in Without(s, x) <==> y in s && y != x
    ensures |Without(s, x)| == if x in s then |s| - 1 else |s|
  {
    if s != [] {
      assert s == [s[0]] + s[1..];
      WithoutKeeps(s[1..], x);
      assert forall i :: 0 < i < |s| ==> s[i] == s[1..][i - 1];
      assert s[0] !in s[1..];
    }
  }

  lemma AddRoomKeeps(rooms: RoomMap, name: string, maxUsers: int32, draws: Draws)
    requires RoomsOk(rooms)
    ensures var (rooms', code) := AddRoom(rooms, name, maxUsers, draws);
            && RoomsOk(rooms')
            && (code == "" ==> rooms' == rooms)
            && (code != "" ==> code !in rooms && IsCode(code) && rooms' == rooms[code := RoomView(code, name,
                maxUsers, [])])
            && forall x, c :: In(rooms', x, c) <==> In(rooms, x, c)
  {
    var (rooms', code) := AddRoom(rooms, name, maxUsers, draws);
    var k := FirstUnused(rooms, draws, 0);
    CodesAreCodes(draws, k);
    if code != "" {
      assert rooms'.Keys == rooms.Keys + {code};
      assert |rooms'| == |rooms'.Keys|;
    }
  }

  lemma JoinRoomKeeps(rooms: RoomMap, fd: int, code: string)
    requires RoomsOk(rooms)
    ensures var (rooms', joined) := JoinRoom(rooms, fd, code);
            && RoomsOk(rooms')
            && (!joined ==> rooms' == rooms)
            && (joined ==> code in rooms && !In(rooms, fd, code))
            && (joined ==> rooms' == rooms[code := rooms[code].(members := rooms[code].members + [fd])])
            && (joined <==> code in rooms && fd !in rooms[code].members
                            && |rooms[code].members| < AsSize(rooms[code].maxUsers))
            && (forall x, c :: In(rooms', x, c) <==> In(rooms, x, c) || (joined && x == fd && c == code))
            && rooms'.Keys == rooms.Keys
  {
    var (rooms', joined) := JoinRoom(rooms, fd, code);
    if code in rooms {
      assert rooms'.Keys == rooms.Keys;
      assert |rooms'| == |rooms'.Keys|;
      if !joined {
        assert rooms' == rooms;
      }
    }
  }

  lemma LeaveRoomKeeps(rooms: RoomMap, fd: int, code: string)
    requires RoomsOk(rooms)
    ensures var rooms' := LeaveRoom(rooms, fd, code);
            && RoomsOk(rooms')
            && (forall x, c :: In(rooms', x, c) <==> In(rooms, x, c) && !(x == fd && c == code))
            && (forall c :: c in rooms' <==> c in rooms && !(c == code && (forall x :: In(rooms, x, c) ==> x == fd)))
  {
    var rooms' := LeaveRoom(rooms, fd, code);
    if code in rooms {
      var members := rooms[code].members;
      WithoutKeeps(members, fd);
      var rest := Without(members, fd);
      if rest == [] {
        assert rooms'.Keys == rooms.Keys - {code};
        assert |rooms'| == |rooms'.Keys|;
        assert forall x :: In(rooms, x, code) ==> x in rest || x == fd;
      } else {
        assert rooms'.Keys == rooms.Keys;
        assert |rooms'| == |rooms'.Keys|;
        assert rest[0] in rest && In(rooms, rest[0], code) && rest[0] != fd;
      }
    }
  }

  // ----- counting -----

  /** The sum of the rooms' sizes. */
  ghost function Total(rooms: RoomMap): (n: nat) {
    if rooms == map[] then 0
    else
      var code :| code in rooms;
      |rooms[code].members| + Total(rooms - {code})
  }

  ghost function Memberships(rooms: RoomMap): (pairs: set<(int, string)>) {
    set code, fd | code in rooms && fd in rooms[code].members :: (fd, code)
  }

  lemma {:induction false} SizeOfMembers(s: seq<int>, code: string)
    requires NoDuplicates(s)
    ensures |set fd | fd in s :: (fd, code)| == |s|
  {
    var pairs := set fd | fd in s :: (fd, code);
    if s == [] {
      assert pairs == {};
    } else {
      SizeOfMembers(s[1..], code);
      assert s == [s[0]] + s[1..];
      assert pairs == (set fd | fd in s[1..] :: (fd, code)) + {(s[0], code)};
    }
  }

  /** Without duplicates, the sizes add up to the number of memberships. */
  lemma {:induction false} TotalIsMemberships(rooms: RoomMap)
    requires forall code :: code in rooms ==> NoDuplicates(rooms[code].members)
    ensures Total(rooms) == |Memberships(rooms)|
  {
    if rooms == map[] {
      assert Memberships(rooms) == {};
    } else {
      var code :| code in rooms && Total(rooms) == |rooms[code].members| + Total(rooms - {code});
      TotalIsMemberships(rooms - {code});
      SizeOfMembers(rooms[code].members, code);
      OneRoomApart(rooms, code);
    }
  }

  lemma OneRoomApart(rooms: RoomMap, code: string)
    requires code in rooms
    ensures var here := set fd | fd in rooms[code].members :: (fd, code);
            && Memberships(rooms) == here + Memberships(rooms - {code})
            && here !! Memberships(rooms - {code})
  {
  }

  /** Rooms that are all occupied number at most their members. */
  lemma {:induction false} OccupiedRoomsAreFew(rooms: RoomMap)
    requires forall code :: code in rooms ==> rooms[code].members != []
    ensures |rooms| <= Total(rooms)
  {
    if rooms != map[] {
      var code :| code in rooms && Total(rooms) == |rooms[code].members| + Total(rooms - {code});
      OccupiedRoomsAreFew(rooms - {code});
      assert (rooms - {code}).Keys == rooms.Keys - {code};
      assert |rooms| == |rooms.Keys| && |rooms - {code}| == |(rooms - {code}).Keys|;
    }
  }
}
