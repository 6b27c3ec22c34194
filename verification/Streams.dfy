/** From the calls of one end's send loop to the packets the other end reads. */
module Streams {
  import opened Protocol
  import opened Framing
  import opened Endpoints
  import opened Payloads
  import opened Handlers
  import opened Outboxes
  import opened Sessions

  /** What an end puts on the wire when it sends every packet in turn; a failed
      send leaves the connection open, so the next one goes on behind it. The
      client refuses large packets and gives up where the server retries. */
  function SendEvery(ps: seq<Packet>, script: seq<IoResult>, retries: bool): (bytes: Bytes)
    decreases |ps|
  {
    if ps == [] then []
    else if !Fits(ps[0]) then SendEvery(ps[1..], script, retries)
    else
      var t := Transmit(|Frame(ps[0])|, 0, script, retries);
      Frame(ps[0])[..t.sent] + SendEvery(ps[1..], t.script, retries)
  }

  /** A client that sends one packet after the other, whatever Send answers. */
  method SendAll(client: NetworkClient, ps: seq<Packet>)
    requires client.connected
    modifies client.socket`wire, client.socket`script, client.socket`moments
    ensures client.socket.wire == old(client.socket.wire) + SendEvery(ps, old(client.socket.script), false)
  {
    ghost var all := SendEvery(ps, client.socket.script, false);
    ghost var written: Bytes := [];
    assert client.socket.wire + [] == client.socket.wire && [] + all == all;
    var i := 0;
    while i < |ps|
      invariant 0 <= i <= |ps|
      invariant client.socket.wire == old(client.socket.wire) + written
      invariant all == written + SendEvery(ps[i..], client.socket.script, false)
    {
      ghost var script := client.socket.script;
      ghost var more := if Fits(ps[i]) then Frame(ps[i])[..Transmit(|Frame(ps[i])|, 0, script, false).sent] else [];
      assert ps[i..][1..] == ps[i + 1..];
      var sent := client.Send(ps[i]);
      Associative(old(client.socket.wire), written, more);
      Associative(written, more, SendEvery(ps[i + 1..], client.socket.script, false));
      assert written + [] == written && old(client.socket.wire) + written + [] == old(client.socket.wire) + written;
      written := written + more;
      i := i + 1;
    }
    assert written + [] == written;
  }

  /** The server's sender, likewise; its packets all fit. */
  method SendAllPackets(host: Host, socket: Socket, ps: seq<Packet>)
    requires AllFit(ps)
    modifies socket`wire, socket`script, socket`moments
    ensures socket.wire == old(socket.wire) + SendEvery(ps, old(socket.script), true)
  {
    ghost var all := SendEvery(ps, socket.script, true);
    ghost var written: Bytes := [];
    assert socket.wire + [] == socket.wire && [] + all == all;
    var i := 0;
    while i < |ps|
      invariant 0 <= i <= |ps|
      invariant socket.wire == old(socket.wire) + written
      invariant all == written + SendEvery(ps[i..], socket.script, true)
    {
      ghost var more := Frame(ps[i])[..Transmit(|Frame(ps[i])|, 0, socket.script, true).sent];
      assert ps[i..][1..] == ps[i + 1..];
      var sent := SendPacket(host, socket, ps[i]);
      Associative(old(socket.wire), written, more);
      Associative(written, more, SendEvery(ps[i + 1..], socket.script, true));
      written := written + more;
      i := i + 1;
    }
    assert written + [] == written;
  }

  /** The packets Send does not refuse. */
  function Fitting(ps: seq<Packet>): (r: seq<Packet>)
    ensures AllFit(r)
  {
    if ps == [] then [] else if Fits(ps[0]) then [ps[0]] + Fitting(ps[1..]) else Fitting(ps[1..])
  }

  /** Nothing is written after a Send that failed. */
  predicate StopsAtFailure(ps: seq<Packet>, script: seq<IoResult>, retries: bool)
    decreases |ps|
  {
    ps == [] ||
    if !Fits(ps[0]) then StopsAtFailure(ps[1..], script, retries)
    else
      var t := Transmit(|Frame(ps[0])|, 0, script, retries);
      if t.ok then StopsAtFailure(ps[1..], t.script, retries) else Fitting(ps[1..]) == []
  }

  lemma {:induction false} NothingFitting(ps: seq<Packet>, script: seq<IoResult>, retries: bool)
    requires Fitting(ps) == []
    ensures SendEvery(ps, script, retries) == []
  {
    if ps != [] {
      NothingFitting(ps[1..], script, retries);
    }
  }

  lemma {:induction false} WireIsPrefix(ps: seq<Packet>, script: seq<IoResult>, retries: bool)
    requires StopsAtFailure(ps, script, retries)
    ensures SendEvery(ps, script, retries) <= FrameAll(Fitting(ps))
  {
    if ps != [] {
      if !Fits(ps[0]) {
        WireIsPrefix(ps[1..], script, retries);
      } else {
        var f := Frame(ps[0]);
        var t := Transmit(|f|, 0, script, retries);
        TransmitOutcome(|f|, 0, script, retries);
        FrameAllCons(ps[0], Fitting(ps[1..]));
        if t.ok {
          WireIsPrefix(ps[1..], t.script, retries);
          WholePrefix(f, SendEvery(ps[1..], t.script, retries), FrameAll(Fitting(ps[1..])));
        } else {
          NothingFitting(ps[1..], t.script, retries);
          PartPrefix(f, t.sent, FrameAll(Fitting(ps[1..])));
        }
      }
    }
  }

  /** Short writes, and retries where the loop retries, change nothing. */
  lemma {:induction false} PartialWritesSendEverything(ps: seq<Packet>, script: seq<IoResult>, retries: bool)
    requires forall i :: 0 <= i < |script| ==> !Fatal(script[i], retries)
    ensures StopsAtFailure(ps, script, retries)
    ensures SendEvery(ps, script, retries) == FrameAll(Fitting(ps))
    decreases |ps|
  {
    if ps != [] {
      if !Fits(ps[0]) {
        PartialWritesSendEverything(ps[1..], script, retries);
      } else {
        var f := Frame(ps[0]);
        var t := Transmit(|f|, 0, script, retries);
        TransmitOutcome(|f|, 0, script, retries);
        PartialWritesSendEverything(ps[1..], t.script, retries);
        FrameAllCons(ps[0], Fitting(ps[1..]));
        assert f[..|f|] == f;
      }
    }
  }

  lemma WholePrefix(f: Bytes, a: Bytes, b: Bytes)
    requires a <= b
    ensures f[..|f|] + a <= f + b
  {
    assert f[..|f|] == f;
  }

  lemma PartPrefix(f: Bytes, n: nat, b: Bytes)
    requires n <= |f|
    ensures f[..n] + [] <= f + b
  {
  }

  /** End to end: whatever the kernels do to the writes and however the bytes that
      arrive are cut, the packets called back are the first of those sent, and the
      buffer holds a proper prefix of the next one's frame. */
  lemma EndToEnd(ps: seq<Packet>, script: seq<IoResult>, retries: bool, chunks: seq<Bytes>)
    requires StopsAtFailure(ps, script, retries)
    requires Concat(chunks) <= SendEvery(ps, script, retries)
    ensures Bounded(Concat(chunks))
    ensures var sent, got := Fitting(ps), Feed([], chunks);
            && got.packets <= sent
            && FrameAll(got.packets) + got.rest == Concat(chunks)
            && (|got.packets| == |sent| ==> got.rest == [])
            && (|got.packets| < |sent| ==> got.rest < Frame(sent[|got.packets|]))
  {
    WireIsPrefix(ps, script, retries);
    SentIsReceived(Fitting(ps), chunks);
  }

  lemma {:induction false} AllOfThemFit(ps: seq<Packet>)
    requires AllFit(ps)
    ensures Fitting(ps) == ps
  {
    if ps != [] {
      AllOfThemFit(ps[1..]);
      assert [ps[0]] + ps[1..] == ps;
    }
  }

  /** The other way: on every run, whatever the kernel does to the server's writes and
      wherever the stream ends, the client's Receive returns the first of the packets
      the handlers sent it and meets no oversized one. */
  lemma ServerToClient(codec: Codec, events: seq<Event>, fd: int, script: seq<IoResult>, w: Bytes)
    requires Worded(codec)
    requires var log := Outbox(Run(codec, events).out, fd);
             StopsAtFailure(log, script, true) && w <= SendEvery(log, script, true)
    ensures ReceiveAll(w).packets <= Outbox(Run(codec, events).out, fd)
    ensures !ReceiveAll(w).oversized
  {
    var log := Outbox(Run(codec, events).out, fd);
    EverythingFits(codec, events);
    OutboxFits(Run(codec, events).out, fd);
    AllOfThemFit(log);
    WireIsPrefix(log, script, true);
    ClientReadsWhatWasSent(log, w);
  }

  /** A payload that breaks off is filled with whatever is written next: the reader
      gets its first bytes and then somebody else's. */
  lemma BrokenPayloadIsFilled(p: Packet, sent: nat, next: Bytes)
    requires Fits(p) && sent < |p.payload| && |p.payload| - sent <= |next|
    ensures var wire := Frame(p)[..HEADER_SIZE + sent] + next;
            && Parse(wire).packets != []
            && Parse(wire).packets[0] == Packet(p.ptype, p.payload[..sent] + next[..|p.payload| - sent])
  {
    var head, rest := Frame(p)[..HEADER_SIZE], p.payload[..sent] + next;
    HeaderThenMore(p, rest);
    SplitFrame(p, sent, next);
    SliceBehind(head, rest, |p.payload|);
    assert rest[..|p.payload|] == p.payload[..sent] + next[..|p.payload| - sent];
    FirstParsed(head + rest, p.ptype, rest[..|p.payload|]);
  }

  lemma SplitFrame(p: Packet, sent: nat, next: Bytes)
    requires sent <= |p.payload|
    ensures Frame(p)[..HEADER_SIZE + sent] + next == Frame(p)[..HEADER_SIZE] + (p.payload[..sent] + next)
  {
    assert Frame(p)[..HEADER_SIZE + sent] == Frame(p)[..HEADER_SIZE] + p.payload[..sent];
    Associative(Frame(p)[..HEADER_SIZE], p.payload[..sent], next);
  }

  /** So it goes with the frame sent after a failure, for any two packets of which the
      first breaks off in its payload and the second is long enough to fill it. */
  lemma FailureThenSendMixesFrames(p: Packet, q: Packet, sent: nat, retries: bool)
    requires Fits(p) && Fits(q)
    requires sent < |p.payload| && |p.payload| - sent <= |Frame(q)|
    ensures var wire := SendEvery([p, q], [Taken(HEADER_SIZE + sent), Failed], retries);
            && Parse(wire).packets != []
            && Parse(wire).packets[0] == Packet(p.ptype, p.payload[..sent] + Frame(q)[..|p.payload| - sent])
  {
    FirstSendFails(|Frame(p)|, HEADER_SIZE + sent, retries);
    assert [p, q][1..] == [q] && [q][1..] == [];
    assert Frame(q)[..|Frame(q)|] + [] == Frame(q);
    assert SendEvery([q], [], retries) == Frame(q);
    BrokenPayloadIsFilled(p, sent, Frame(q));
  }

  lemma FirstSendFails(size: nat, sent: nat, retries: bool)
    requires 0 < sent < size
    ensures Transmit(size, 0, [Taken(sent), Failed], retries) == Transmission(sent, false, [])
  {
    assert [Taken(sent), Failed][1..] == [Failed];
    assert Transmit(size, sent, [Failed], retries) == Transmission(sent, false, []);
  }

  lemma HeaderThenMore(p: Packet, more: Bytes)
    requires Fits(p)
    ensures var b := Frame(p)[..HEADER_SIZE] + more;
            |b| == HEADER_SIZE + |more| && DeclaredType(b) == p.ptype && DeclaredSize(b) == |p.payload|
  {
    HeaderOf(p, Frame(p)[..HEADER_SIZE] + more);
  }

  lemma SliceBehind(head: Bytes, more: Bytes, n: nat)
    requires n <= |more|
    ensures (head + more)[|head|..|head| + n] == more[..n]
  {
  }

  lemma FirstParsed(b: Bytes, ptype: uint16, payload: Bytes)
    requires |b| >= HEADER_SIZE + |payload|
    requires DeclaredType(b) == ptype && DeclaredSize(b) == |payload|
    requires b[HEADER_SIZE..HEADER_SIZE + |payload|] == payload
    ensures Parse(b).packets != [] && Parse(b).packets[0] == Packet(ptype, payload)
  {
  }
}
