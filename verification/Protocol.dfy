/** The wire protocol: packet types, the four-byte header and its byte order. */
module Protocol {

  type byte = x: int | 0 <= x < 256
  type uint16 = x: int | 0 <= x < 0x1_0000
  type Bytes = seq<byte>

  const RECV_BUFFER_SIZE := 4096
  const MAX_PAYLOAD_SIZE := 1024
  const HEADER_SIZE := 4

  const NICKNAME_REQUEST: uint16 := 101
  const MESSAGE_SEND: uint16 := 201
  const CREATE_ROOM: uint16 := 301
  const EXIT_ROOM: uint16 := 302
  const JOIN_ROOM: uint16 := 303
  const NICKNAME_RESPONSE_OK: uint16 := 1001
  const NICKNAME_RESPONSE_FAIL: uint16 := 1002
  const MESSAGE_CHAT: uint16 := 1101
  const ROOM_CREATE_OK: uint16 := 3011
  const ROOM_CREATE_FAIL: uint16 := 3012
  const ROOM_EXIT_OK: uint16 := 3021
  const ROOM_EXIT_FAIL: uint16 := 3022
  const ROOM_JOIN_OK: uint16 := 3031
  const ROOM_JOIN_FAIL: uint16 := 3032
  const ROOM_USER_JOIN: uint16 := 3041
  const ROOM_USER_EXIT: uint16 := 3042

  datatype Option<+T> = None | Some(value: T)

  /** A packet with the `header.size` bytes of its payload that are in use. */
  datatype Packet = Packet(ptype: uint16, payload: Bytes)

  predicate Fits(p: Packet) {
    |p.payload| <= MAX_PAYLOAD_SIZE
  }

  predicate AllFit(ps: seq<Packet>) {
    forall i :: 0 <= i < |ps| ==> Fits(ps[i])
  }

  /** A string's characters as payload bytes (the server's texts are ASCII). */
  function Ascii(s: string): (b: Bytes)
    ensures |b| == |s|
    ensures forall i :: 0 <= i < |s| && s[i] as int < 256 ==> b[i] == s[i] as int
  {
    seq(|s|, i requires 0 <= i < |s| => (s[i] as int) % 256)
  }

  /** `std::min(length, MAX_PAYLOAD_SIZE)` before the copy into a payload. */
  function Clip(b: Bytes): (c: Bytes)
    ensures |c| <= MAX_PAYLOAD_SIZE && c <= b
    ensures |b| <= MAX_PAYLOAD_SIZE ==> c == b
  {
    if |b| <= MAX_PAYLOAD_SIZE then b else b[..MAX_PAYLOAD_SIZE]
  }

  // The byte order of the machine an endpoint runs on.
  datatype Host = LittleEndian | BigEndian

  function High(x: uint16): (b: byte) {
    x / 256
  }

  function Low(x: uint16): (b: byte) {
    x % 256
  }

  function Word(high: byte, low: byte): (x: uint16)
    ensures High(x) == high && Low(x) == low
  {
    (high as int) * 256 + low
  }

  lemma WordOfParts(x: uint16)
    ensures Word(High(x), Low(x)) == x
  {
  }

  function Swap16(x: uint16): (r: uint16) {
    Word(Low(x), High(x))
  }

  /** htons and ntohs are the same function of the host. */
  function Htons(h: Host, x: uint16): (r: uint16) {
    if h.LittleEndian? then Swap16(x) else x
  }

  /** How a 16-bit field lies in memory, and how it is read back. */
  function Store16(h: Host, x: uint16): (b: Bytes)
    ensures |b| == 2
  {
    if h.LittleEndian? then [Low(x), High(x)] else [High(x), Low(x)]
  }

  function Load16(h: Host, b: Bytes): (r: uint16)
    requires |b| == 2
  {
    if h.LittleEndian? then Word(b[1], b[0]) else Word(b[0], b[1])
  }

  /** The bytes a sender passes to the kernel: the packed struct after htons. */
  function MemoryImage(h: Host, p: Packet): (bytes: Bytes)
    requires Fits(p)
  {
    Store16(h, Htons(h, p.ptype)) + Store16(h, Htons(h, |p.payload|)) + p.payload
  }

  /** A length stored in a 16-bit field. */
  function Size16(n: nat): (size: uint16)
    ensures n < 0x1_0000 ==> size == n
  {
    n % 0x1_0000
  }

  /** A frame on the wire: type and size in network byte order, then the payload. */
  function Frame(p: Packet): (f: Bytes)
    ensures |f| == HEADER_SIZE + |p.payload|
  {
    var size := Size16(|p.payload|);
    [High(p.ptype), Low(p.ptype), High(size), Low(size)] + p.payload
  }

  function FrameAll(ps: seq<Packet>): (bytes: Bytes) {
    if ps == [] then [] else Frame(ps[0]) + FrameAll(ps[1..])
  }

  lemma Associative<T>(a: seq<T>, b: seq<T>, c: seq<T>)
    ensures (a + b) + c == a + (b + c)
  {
  }

  lemma FrameAllCons(p: Packet, ps: seq<Packet>)
    ensures FrameAll([p] + ps) == Frame(p) + FrameAll(ps)
  {
    assert ([p] + ps)[1..] == ps;
  }

  lemma FrameHeader(p: Packet)
    requires Fits(p)
    ensures Frame(p)[0] == High(p.ptype) && Frame(p)[1] == Low(p.ptype)
    ensures Frame(p)[2] == High(|p.payload|) && Frame(p)[3] == Low(|p.payload|)
    ensures Frame(p)[HEADER_SIZE..] == p.payload
  {
  }

  /** The field as htons leaves it in memory is in network order, on any host. */
  lemma StoredInNetworkOrder(h: Host, x: uint16)
    ensures Store16(h, Htons(h, x)) == [High(x), Low(x)]
  {
  }

  lemma LoadedFromNetworkOrder(h: Host, x: uint16)
    ensures Htons(h, Load16(h, [High(x), Low(x)])) == x
  {
    WordOfParts(x);
  }

  lemma SenderWritesFrame(h: Host, p: Packet)
    requires Fits(p)
    ensures MemoryImage(h, p) == Frame(p)
  {
    StoredInNetworkOrder(h, p.ptype);
    StoredInNetworkOrder(h, |p.payload|);
    assert Size16(|p.payload|) == |p.payload|;
  }

  /** Whatever the hosts' byte orders, sender and receiver meet in the same frame. */
  lemma HostsAgree(sender: Host, receiver: Host, p: Packet)
    requires Fits(p)
    ensures MemoryImage(sender, p) == Frame(p)
    ensures Htons(receiver, Load16(receiver, MemoryImage(sender, p)[0..2])) == p.ptype
    ensures Htons(receiver, Load16(receiver, MemoryImage(sender, p)[2..4])) == |p.payload|
  {
    SenderWritesFrame(sender, p);
    FrameFields(p);
    LoadedFromNetworkOrder(receiver, p.ptype);
    LoadedFromNetworkOrder(receiver, |p.payload|);
  }

  lemma FrameFields(p: Packet)
    requires Fits(p)
    ensures Frame(p)[0..2] == [High(p.ptype), Low(p.ptype)]
    ensures Frame(p)[2..4] == [High(|p.payload|), Low(|p.payload|)]
  {
    FrameHeader(p);
  }
}
