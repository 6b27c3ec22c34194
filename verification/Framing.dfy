/** What a byte stream means: the frames in it, and why the way it is cut into
    chunks cannot matter. */
module Framing {
  import opened Protocol

  function DeclaredType(b: Bytes): (ptype: uint16)
    requires |b| >= HEADER_SIZE
  {
    Word(b[0], b[1])
  }

  function DeclaredSize(b: Bytes): (size: uint16)
    requires |b| >= HEADER_SIZE
  {
    Word(b[2], b[3])
  }

  /** A header and the payload it announces have arrived. */
  predicate Complete(b: Bytes) {
    |b| >= HEADER_SIZE && |b| >= HEADER_SIZE + DeclaredSize(b)
  }

  datatype Parsed = Parsed(packets: seq<Packet>, rest: Bytes)

  /** The complete frames at the front of a buffer and the bytes behind them. */
  function Parse(b: Bytes): (parsed: Parsed)
    decreases |b|
  {
    if !Complete(b) then Parsed([], b)
    else
      var n := HEADER_SIZE + DeclaredSize(b);
      var tail := Parse(b[n..]);
      Parsed([Packet(DeclaredType(b), b[HEADER_SIZE..n])] + tail.packets, tail.rest)
  }

  /** No complete frame is larger than the payload array it is copied into. */
  predicate Bounded(b: Bytes)
    decreases |b|
  {
    Complete(b) ==>
      DeclaredSize(b) <= MAX_PAYLOAD_SIZE && Bounded(b[HEADER_SIZE + DeclaredSize(b)..])
  }

  // ----- the encoder and the buffered decoder are inverse -----

  function Header(b: Bytes): (bytes: Bytes)
    requires |b| >= HEADER_SIZE
  {
    [b[0], b[1], b[2], b[3]]
  }

  lemma FrameOfHeader(b: Bytes, payload: Bytes)
    requires |b| >= HEADER_SIZE && |payload| == DeclaredSize(b)
    ensures Frame(Packet(DeclaredType(b), payload)) == Header(b) + payload
  {
    var t, n := DeclaredType(b), DeclaredSize(b);
    assert High(t) == b[0] && Low(t) == b[1];
    assert High(n) == b[2] && Low(n) == b[3];
    assert Size16(|payload|) == n;
  }

  lemma HeaderThenPayload(b: Bytes, n: nat)
    requires HEADER_SIZE <= n <= |b|
    ensures Header(b) + b[HEADER_SIZE..n] == b[..n]
  {
  }

  /** A frame cut out of a buffer and encoded again is the bytes it was cut from. */
  lemma CutFrame(b: Bytes)
    requires Complete(b)
    ensures var n := HEADER_SIZE + DeclaredSize(b);
            Frame(Packet(DeclaredType(b), b[HEADER_SIZE..n])) == b[..n]
  {
    var n := HEADER_SIZE + DeclaredSize(b);
    FrameOfHeader(b, b[HEADER_SIZE..n]);
    HeaderThenPayload(b, n);
  }

  lemma {:induction false} ParseThenFrame(b: Bytes)
    ensures FrameAll(Parse(b).packets) + Parse(b).rest == b
    ensures !Complete(Parse(b).rest)
    decreases |b|
  {
    if Complete(b) {
      var n := HEADER_SIZE + DeclaredSize(b);
      var p, tail := Packet(DeclaredType(b), b[HEADER_SIZE..n]), Parse(b[n..]);
      CutFrame(b);
      ParseThenFrame(b[n..]);
      FrameAllCons(p, tail.packets);
      Associative(Frame(p), FrameAll(tail.packets), tail.rest);
      assert b == b[..n] + b[n..];
    }
  }

  lemma HeaderOf(p: Packet, b: Bytes)
    requires Fits(p)
    requires |b| >= HEADER_SIZE
    requires forall i :: 0 <= i < HEADER_SIZE ==> b[i] == Frame(p)[i]
    ensures DeclaredSize(b) == |p.payload| && DeclaredType(b) == p.ptype
  {
    FrameHeader(p);
    WordOfParts(p.ptype);
    WordOfParts(|p.payload|);
    assert b[0] == Frame(p)[0] && b[1] == Frame(p)[1] && b[2] == Frame(p)[2] && b[3] == Frame(p)[3];
  }

  lemma FrameParses(p: Packet, r: Bytes)
    requires Fits(p)
    ensures Complete(Frame(p) + r)
    ensures Parse(Frame(p) + r) == Parsed([p] + Parse(r).packets, Parse(r).rest)
    ensures Bounded(Frame(p) + r) == Bounded(r)
    ensures Receive(Frame(p) + r) == Got(p, r)
  {
    var b := Frame(p) + r;
    HeaderOf(p, b);
    FrameHeader(p);
    var n := HEADER_SIZE + |p.payload|;
    assert b[HEADER_SIZE..n] == Frame(p)[HEADER_SIZE..];
    assert b[n..] == r;
    ReceiveWhole(b);
  }

  lemma {:induction false} FramesParse(ps: seq<Packet>, r: Bytes)
    requires AllFit(ps)
    ensures Parse(FrameAll(ps) + r) == Parsed(ps + Parse(r).packets, Parse(r).rest)
    ensures Bounded(FrameAll(ps) + r) == Bounded(r)
  {
    if ps == [] {
      assert FrameAll(ps) + r == r;
      assert ps + Parse(r).packets == Parse(r).packets;
    } else {
      FramesParse(ps[1..], r);
      ParseInFront(ps[0], ps[1..], FrameAll(ps[1..]), r);
      BoundedInFront(ps[0], FrameAll(ps[1..]), r);
      assert [ps[0]] + ps[1..] == ps;
    }
  }

  lemma ParseInFront(p: Packet, qs: seq<Packet>, tail: Bytes, r: Bytes)
    requires Fits(p)
    requires Parse(tail + r) == Parsed(qs + Parse(r).packets, Parse(r).rest)
    ensures Parse((Frame(p) + tail) + r) == Parsed(([p] + qs) + Parse(r).packets, Parse(r).rest)
  {
    ParseFrameFirst(p, qs, tail + r, Parse(r));
    Associative(Frame(p), tail, r);
    Regroup(Frame(p) + (tail + r), (Frame(p) + tail) + r, p, qs, Parse(r));
  }

  lemma BoundedInFront(p: Packet, tail: Bytes, r: Bytes)
    requires Fits(p)
    ensures Bounded((Frame(p) + tail) + r) == Bounded(tail + r)
  {
    FrameParses(p, tail + r);
    Associative(Frame(p), tail, r);
  }

  lemma ParseFrameFirst(p: Packet, qs: seq<Packet>, b: Bytes, q: Parsed)
    requires Fits(p)
    requires Parse(b) == Parsed(qs + q.packets, q.rest)
    ensures Parse(Frame(p) + b) == Parsed([p] + (qs + q.packets), q.rest)
  {
    FrameParses(p, b);
  }

  lemma Regroup(x: Bytes, y: Bytes, p: Packet, qs: seq<Packet>, q: Parsed)
    requires x == y
    requires Parse(x) == Parsed([p] + (qs + q.packets), q.rest)
    ensures Parse(y) == Parsed(([p] + qs) + q.packets, q.rest)
  {
    Associative([p], qs, q.packets);
  }

  // ----- chunking does not matter -----

  lemma CompleteWithMore(a: Bytes, b: Bytes)
    requires Complete(a)
    ensures Complete(a + b)
    ensures DeclaredSize(a + b) == DeclaredSize(a) && DeclaredType(a + b) == DeclaredType(a)
    ensures var n := HEADER_SIZE + DeclaredSize(a);
            (a + b)[HEADER_SIZE..n] == a[HEADER_SIZE..n] && (a + b)[n..] == a[n..] + b
  {
  }

  /** Parsing what has arrived and then the rest with the next bytes behind it
      is parsing everything at once. */
  lemma {:induction false} ParseInTwo(a: Bytes, b: Bytes)
    ensures Parse(a + b).packets == Parse(a).packets + Parse(Parse(a).rest + b).packets
    ensures Parse(a + b).rest == Parse(Parse(a).rest + b).rest
    ensures Bounded(a + b) <==> Bounded(a) && Bounded(Parse(a).rest + b)
    decreases |a|
  {
    if Complete(a) {
      var n := HEADER_SIZE + DeclaredSize(a);
      var p, tail := Packet(DeclaredType(a), a[HEADER_SIZE..n]), Parse(a[n..]);
      CompleteWithMore(a, b);
      ParseInTwo(a[n..], b);
      Associative([p], tail.packets, Parse(tail.rest + b).packets);
    } else {
      assert Parse(a).packets + Parse(a + b).packets == Parse(a + b).packets;
    }
  }

  function Concat(chunks: seq<Bytes>): (bytes: Bytes) {
    if chunks == [] then [] else chunks[0] + Concat(chunks[1..])
  }

  /** recv after recv: every chunk is appended to the buffer and parsed at once. */
  function Feed(buffer: Bytes, chunks: seq<Bytes>): (parsed: Parsed)
    decreases |chunks|
  {
    if chunks == [] then Parsed([], buffer)
    else
      var now := Parse(buffer + chunks[0]);
      var later := Feed(now.rest, chunks[1..]);
      Parsed(now.packets + later.packets, later.rest)
  }

  lemma {:induction false} ChunkingDoesNotMatter(buffer: Bytes, chunks: seq<Bytes>)
    requires !Complete(buffer)
    ensures Feed(buffer, chunks) == Parse(buffer + Concat(chunks))
    decreases |chunks|
  {
    if chunks == [] {
      assert buffer + Concat(chunks) == buffer;
    } else {
      var now := Parse(buffer + chunks[0]);
      ParseThenFrame(buffer + chunks[0]);
      ChunkingDoesNotMatter(now.rest, chunks[1..]);
      ParseInTwo(buffer + chunks[0], Concat(chunks[1..]));
      Associative(buffer, chunks[0], Concat(chunks[1..]));
    }
  }

  // ----- a cut stream -----

  lemma ConsPrefix<T>(ps: seq<T>, qs: seq<T>)
    requires ps != [] && qs <= ps[1..]
    ensures [ps[0]] + qs <= ps
    ensures qs == ps[1..] ==> [ps[0]] + qs == ps
    ensures |qs| < |ps| - 1 ==> ps[1..][|qs|] == ps[1 + |qs|]
  {
  }

  lemma BrokenFrame(p: Packet, w: Bytes)
    requires Fits(p)
    requires w < Frame(p)
    ensures !Complete(w)
    ensures Receive(w).Ended?
  {
    ReceiveWhole(w);
    if |w| >= HEADER_SIZE {
      assert w == Frame(p)[..|w|];
      HeaderOf(p, w);
    }
  }

  /** A cut stream starts with a whole first frame or ends inside it. */
  lemma FirstFrame(ps: seq<Packet>, w: Bytes) returns (r: Bytes)
    requires ps != []
    requires w <= FrameAll(ps)
    ensures |w| < |Frame(ps[0])| ==> w < Frame(ps[0])
    ensures |w| >= |Frame(ps[0])| ==> w == Frame(ps[0]) + r && r <= FrameAll(ps[1..])
    ensures |w| >= |Frame(ps[0])| ==> (w == FrameAll(ps) <==> r == FrameAll(ps[1..]))
  {
    var f, g := Frame(ps[0]), FrameAll(ps[1..]);
    r := if |w| >= |f| then w[|f|..] else [];
    assert w == (f + g)[..|w|];
    if |w| >= |f| {
      assert w == f + g[..|w| - |f|];
    } else {
      assert w == f[..|w|];
    }
  }

  /** A stream of fitting frames cut anywhere: the packets are the first of those
      sent, and a proper prefix of the next frame is left over. */
  lemma {:induction false} CutStream(ps: seq<Packet>, w: Bytes)
    requires AllFit(ps)
    requires w <= FrameAll(ps)
    ensures Bounded(w)
    ensures Parse(w).packets <= ps
    ensures |Parse(w).packets| == |ps| ==> Parse(w).rest == []
    ensures |Parse(w).packets| < |ps| ==> Parse(w).rest < Frame(ps[|Parse(w).packets|])
    decreases |ps|
  {
    if ps != [] {
      var r := FirstFrame(ps, w);
      if |w| >= |Frame(ps[0])| {
        CutStream(ps[1..], r);
        CutLater(ps, r);
      } else {
        BrokenFrame(ps[0], w);
      }
    }
  }

  lemma CutLater(ps: seq<Packet>, r: Bytes)
    requires ps != [] && Fits(ps[0])
    requires Bounded(r) && Parse(r).packets <= ps[1..]
    requires |Parse(r).packets| == |ps| - 1 ==> Parse(r).rest == []
    requires |Parse(r).packets| < |ps| - 1 ==> Parse(r).rest < Frame(ps[1..][|Parse(r).packets|])
    ensures var w := Frame(ps[0]) + r;
            && Bounded(w)
            && Parse(w).packets <= ps
            && (|Parse(w).packets| == |ps| ==> Parse(w).rest == [])
            && (|Parse(w).packets| < |ps| ==> Parse(w).rest < Frame(ps[|Parse(w).packets|]))
  {
    FrameParses(ps[0], r);
    ConsPrefix(ps, Parse(r).packets);
  }

  /** Sender to callback: any cut of the stream, delivered in any chunks. */
  lemma SentIsReceived(sent: seq<Packet>, chunks: seq<Bytes>)
    requires AllFit(sent)
    requires Concat(chunks) <= FrameAll(sent)
    ensures Bounded(Concat(chunks))
    ensures var got := Feed([], chunks);
            && got.packets <= sent
            && FrameAll(got.packets) + got.rest == Concat(chunks)
            && (|got.packets| == |sent| ==> got.rest == [])
            && (|got.packets| < |sent| ==> got.rest < Frame(sent[|got.packets|]))
  {
    var w := Concat(chunks);
    assert [] + w == w;
    ChunkingDoesNotMatter([], chunks);
    CutStream(sent, w);
    ParseThenFrame(w);
  }

  // ----- the client's blocking decoder -----

  datatype Received = Got(packet: Packet, rest: Bytes) | Ended | Oversized

  /** One call of the client's Receive on the bytes still to come before the
      connection ends: the header, then what the header announces. */
  function Receive(b: Bytes): (received: Received) {
    if |b| < HEADER_SIZE then Ended
    else ReceivePayload(DeclaredType(b), DeclaredSize(b), b[HEADER_SIZE..])
  }

  function ReceivePayload(ptype: uint16, size: uint16, rest: Bytes): (received: Received) {
    if size > MAX_PAYLOAD_SIZE then Oversized
    else if |rest| < size then Ended
    else Got(Packet(ptype, rest[..size]), rest[size..])
  }

  /** Seen from the buffered decoder's side. */
  lemma ReceiveWhole(b: Bytes)
    ensures Receive(b).Got? <==> Complete(b) && DeclaredSize(b) <= MAX_PAYLOAD_SIZE
    ensures Receive(b).Got? ==>
            var n := HEADER_SIZE + DeclaredSize(b);
            Receive(b) == Got(Packet(DeclaredType(b), b[HEADER_SIZE..n]), b[n..])
  {
    if Complete(b) {
      var n := DeclaredSize(b);
      assert b[HEADER_SIZE..][..n] == b[HEADER_SIZE..HEADER_SIZE + n];
      assert b[HEADER_SIZE..][n..] == b[HEADER_SIZE + n..];
    }
  }

  datatype Drained = Drained(packets: seq<Packet>, oversized: bool)

  /** Receive called until it fails. */
  function ReceiveAll(b: Bytes): (drained: Drained)
    decreases |b|
  {
    ReceiveWhole(b);
    match Receive(b)
    case Got(p, rest) =>
      var more := ReceiveAll(rest);
      Drained([p] + more.packets, more.oversized)
    case Ended => Drained([], false)
    case Oversized => Drained([], true)
  }

  /** The two decoders see the same packets exactly on the streams whose complete
      frames respect the payload bound; otherwise the client stops short. */
  lemma {:induction false} DecodersAgree(b: Bytes)
    ensures ReceiveAll(b).packets <= Parse(b).packets
    ensures ReceiveAll(b).packets == Parse(b).packets <==> Bounded(b)
    decreases |b|
  {
    ReceiveWhole(b);
    if Complete(b) {
      var n := HEADER_SIZE + DeclaredSize(b);
      var tail := Parse(b[n..]);
      assert Parse(b).packets[1..] == tail.packets;
      if DeclaredSize(b) <= MAX_PAYLOAD_SIZE {
        DecodersAgree(b[n..]);
        assert ReceiveAll(b).packets[1..] == ReceiveAll(b[n..]).packets;
      }
    }
  }

  /** Both decoders invert the encoder, and a cut never shows an oversized frame. */
  lemma {:induction false} ClientReadsWhatWasSent(ps: seq<Packet>, w: Bytes)
    requires AllFit(ps)
    requires w <= FrameAll(ps)
    ensures !ReceiveAll(w).oversized
    ensures ReceiveAll(w).packets == Parse(w).packets <= ps
    ensures w == FrameAll(ps) ==> ReceiveAll(w).packets == ps
    decreases |ps|
  {
    if ps != [] {
      var r := FirstFrame(ps, w);
      if |w| >= |Frame(ps[0])| {
        FrameParses(ps[0], r);
        ClientReadsWhatWasSent(ps[1..], r);
        ConsPrefix(ps, Parse(r).packets);
      } else {
        BrokenFrame(ps[0], w);
      }
    }
  }
}
