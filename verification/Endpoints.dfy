/** The two senders' partial-write loops and the client's connection object. */
module Endpoints {
  import opened Protocol
  import opened Framing

  // One result of the kernel's send: it takes some bytes (at most those offered),
  // asks to try again, or fails.
  datatype IoResult = Taken(count: nat) | TryAgain | Failed

  function Min(a: nat, b: nat): (n: nat) {
    if a < b then a else b
  }

  // ----- what a send loop transmits -----

  datatype Transmission = Transmission(sent: nat, ok: bool, script: seq<IoResult>)

  /** The loop from `sent` on against a script of kernel results, after which the
      kernel takes what it is offered. The server retries, the client gives up. */
  function Transmit(size: nat, sent: nat, script: seq<IoResult>, retries: bool): (t: Transmission)
    requires sent <= size
    ensures sent <= t.sent <= size
    decreases |script|
  {
    if sent == size then Transmission(sent, true, script)
    else if script == [] then Transmission(size, true, [])
    else
      match script[0]
      case Taken(count) => Transmit(size, sent + Min(count, size - sent), script[1..], retries)
      case TryAgain =>
        if retries then Transmit(size, sent, script[1..], retries) else Transmission(sent, false, script[1..])
      case Failed => Transmission(sent, false, script[1..])
  }

  function Fatal(r: IoResult, retries: bool): (result: bool) {
    r.Failed? || (r.TryAgain? && !retries)
  }

  /** The loop succeeds exactly when every byte went out, which only a fatal
      result of the kernel prevents; it uses up the script from the front. */
  lemma {:induction false} TransmitOutcome(size: nat, sent: nat, script: seq<IoResult>, retries: bool)
    requires sent <= size
    ensures var t := Transmit(size, sent, script, retries);
            && (t.ok <==> t.sent == size)
            && |t.script| <= |script| && t.script == script[|script| - |t.script|..]
            && (!t.ok ==> |t.script| < |script| && Fatal(script[|script| - |t.script| - 1], retries))
            && (t.ok ==> forall i :: 0 <= i < |script| - |t.script| ==> !Fatal(script[i], retries))
    decreases |script|
  {
    if sent < size && script != [] {
      match script[0]
      case Taken(count) => TransmitOutcome(size, sent + Min(count, size - sent), script[1..], retries);
      case TryAgain => if retries { TransmitOutcome(size, sent, script[1..], retries); }
      case Failed =>
    }
  }

  class Socket {
    var wire: Bytes              // every byte the kernel has taken
    var script: seq<IoResult>    // how its next sends will go
    var inbox: Bytes             // the bytes that will arrive before the peer ends
    ghost var moments: seq<Bytes> // the wire after each call of send

    constructor (script: seq<IoResult>, inbox: Bytes)
      ensures wire == [] && this.script == script && this.inbox == inbox && moments == []
    {
      wire, this.script, this.inbox, moments := [], script, inbox, [];
    }

    /** ::send */
    method Send(buffer: Bytes) returns (sent: int, again: bool)
      requires buffer != []
      modifies this`wire, this`script, this`moments
      ensures old(script) == [] ==> sent == |buffer| && script == []
      ensures old(script) != [] ==> script == old(script)[1..]
      ensures old(script) != [] && old(script)[0].Taken? ==> sent == Min(old(script)[0].count, |buffer|)
      ensures old(script) != [] && !old(script)[0].Taken? ==> sent == -1 && (again <==> old(script)[0].TryAgain?)
      ensures wire == old(wire) + if sent > 0 then buffer[..sent] else []
      ensures moments == old(moments) + [wire]
    {
      again := false;
      if script == [] {
        sent := |buffer|;
      } else {
        match script[0] {
          case Taken(count) => sent := Min(count, |buffer|);
          case TryAgain => sent, again := -1, true;
          case Failed => sent := -1;
        }
        script := script[1..];
      }
      if sent > 0 {
        wire := wire + buffer[..sent];
      } else {
        assert wire == wire + [];
      }
      moments := moments + [wire];
    }

    /** recv with MSG_WAITALL: all the bytes asked for, or what is left. */
    method Receive(count: nat) returns (bytes: Bytes)
      modifies this`inbox
      ensures old(inbox) == bytes + inbox
      ensures |bytes| == Min(count, |old(inbox)|)
    {
      var n := Min(count, |inbox|);
      bytes := inbox[..n];
      inbox := inbox[n..];
    }
  }

  /** Between `before` and `after`, the wire always held `base` and a prefix of `frame`. */
  ghost predicate AlwaysPrefix(before: seq<Bytes>, after: seq<Bytes>, base: Bytes, frame: Bytes) {
    && before <= after
    && forall i :: |before| <= i < |after| ==> exists n :: 0 <= n <= |frame| && after[i] == base + frame[..n]
  }

  lemma OneMoreMoment(before: seq<Bytes>, after: seq<Bytes>, base: Bytes, frame: Bytes, n: nat)
    requires AlwaysPrefix(before, after, base, frame) && n <= |frame|
    ensures AlwaysPrefix(before, after + [base + frame[..n]], base, frame)
  {
    var later := after + [base + frame[..n]];
    forall i | |before| <= i < |later|
      ensures exists k :: 0 <= k <= |frame| && later[i] == base + frame[..k]
    {
      if i == |after| {
        assert later[i] == base + frame[..n];
      } else {
        assert later[i] == after[i];
      }
    }
  }

  lemma PrefixGrows(base: Bytes, frame: Bytes, n: nat, m: nat)
    requires n <= m <= |frame|
    ensures base + frame[..n] + frame[n..][..m - n] == base + frame[..m]
  {
    assert frame[..n] + frame[n..][..m - n] == frame[..m];
  }

  /** The copy of the packet with its header fields passed through htons. */
  method ToNetwork(host: Host, packet: Packet) returns (buffer: Bytes)
    requires Fits(packet)
    ensures buffer == Frame(packet)
  {
    SenderWritesFrame(host, packet);
    buffer := MemoryImage(host, packet);
  }

  /** The header fields passed through ntohs. */
  method FromNetwork(host: Host, header: Bytes) returns (ptype: uint16, size: uint16)
    requires |header| == HEADER_SIZE
    ensures ptype == DeclaredType(header) && size == DeclaredSize(header)
  {
    assert header[0..2] == [header[0], header[1]];
    assert header[2..4] == [header[2], header[3]];
    LoadedFromNetworkOrder(host, DeclaredType(header));
    LoadedFromNetworkOrder(host, DeclaredSize(header));
    ptype := Htons(host, Load16(host, header[0..2]));
    size := Htons(host, Load16(host, header[2..4]));
  }

  /** PacketSender::send: write until done, retry when told to, stop on errors. */
  method SendPacket(host: Host, socket: Socket, packet: Packet) returns (ok: bool)
    requires Fits(packet)
    modifies socket`wire, socket`script, socket`moments
    ensures var t := Transmit(|Frame(packet)|, 0, old(socket.script), true);
            && ok == t.ok && socket.script == t.script
            && socket.wire == old(socket.wire) + Frame(packet)[..t.sent]
    ensures AlwaysPrefix(old(socket.moments), socket.moments, old(socket.wire), Frame(packet))
    ensures ok <==> socket.wire == old(socket.wire) + Frame(packet)
  {
    var buffer := ToNetwork(host, packet);
    ghost var goal := Transmit(|buffer|, 0, socket.script, true);
    ghost var base := socket.wire;
    TransmitOutcome(|buffer|, 0, socket.script, true);
    WholeFrame(base, buffer, goal.sent);
    var totalSent := 0;
    while totalSent < |buffer|
      invariant 0 <= totalSent <= |buffer|
      invariant Transmit(|buffer|, totalSent, socket.script, true) == goal
      invariant socket.wire == base + buffer[..totalSent]
      invariant AlwaysPrefix(old(socket.moments), socket.moments, base, buffer)
      decreases |socket.script|, |buffer| - totalSent
    {
      ghost var start, moments := totalSent, socket.moments;
      var sent, again := socket.Send(buffer[totalSent..]);
      if sent < 0 {
        OneMoreMoment(old(socket.moments), moments, base, buffer, start);
        if again {
          continue;
        }
        return false;
      }
      totalSent := totalSent + sent;
      PrefixGrows(base, buffer, start, totalSent);
      OneMoreMoment(old(socket.moments), moments, base, buffer, totalSent);
    }
    return true;
  }

  lemma WholeFrame(base: Bytes, frame: Bytes, n: nat)
    requires n <= |frame|
    ensures base + frame[..n] == base + frame <==> n == |frame|
    ensures base + frame[..0] == base
  {
    assert |base + frame[..n]| == |base| + n;
    if n == |frame| {
      assert frame[..n] == frame;
    }
  }

  class NetworkClient {
    const host: Host
    const socket: Socket
    var connected: bool

    constructor (host: Host, socket: Socket)
      ensures this.host == host && this.socket == socket && connected
    {
      this.host, this.socket, connected := host, socket, true;
    }

    method Close()
      modifies this`connected
      ensures !connected
    {
      if connected {
        connected := false;
      }
    }

    /** Refuses without a connection or for a payload too large; otherwise writes
        the frame until done or the kernel refuses. It does not close on failure. */
    method Send(packet: Packet) returns (ok: bool)
      modifies socket`wire, socket`script, socket`moments
      ensures !connected || !Fits(packet) ==>
              !ok && socket.wire == old(socket.wire) && socket.script == old(socket.script)
      ensures connected && Fits(packet) ==>
              var t := Transmit(|Frame(packet)|, 0, old(socket.script), false);
              && ok == t.ok && socket.script == t.script
              && socket.wire == old(socket.wire) + Frame(packet)[..t.sent]
              && AlwaysPrefix(old(socket.moments), socket.moments, old(socket.wire), Frame(packet))
    {
      if !connected {
        return false;
      }
      if |packet.payload| > MAX_PAYLOAD_SIZE {
        return false;
      }
      var buffer := ToNetwork(host, packet);
      ghost var goal := Transmit(|buffer|, 0, socket.script, false);
      ghost var base := socket.wire;
      WholeFrame(base, buffer, goal.sent);
      var totalSent := 0;
      while totalSent < |buffer|
        invariant 0 <= totalSent <= |buffer|
        invariant Transmit(|buffer|, totalSent, socket.script, false) == goal
        invariant socket.wire == base + buffer[..totalSent]
        invariant AlwaysPrefix(old(socket.moments), socket.moments, base, buffer)
        decreases |socket.script|, |buffer| - totalSent
      {
        ghost var start, moments := totalSent, socket.moments;
        var sent, again := socket.Send(buffer[totalSent..]);
        if sent == -1 {
          OneMoreMoment(old(socket.moments), moments, base, buffer, start);
          return false;
        }
        totalSent := totalSent + sent;
        PrefixGrows(base, buffer, start, totalSent);
        OneMoreMoment(old(socket.moments), moments, base, buffer, totalSent);
      }
      return true;
    }

    /** How a call of Receive on an open connection ends. */
    ghost predicate Ends(result: Received, packet: Option<Packet>)
      reads this, socket
    {
      if result.Got? then packet == Some(result.packet) && socket.inbox == result.rest && connected
      else packet == None && !connected
    }

    /** ::recv with MSG_WAITALL; on a closed descriptor it fails. */
    method Recv(count: nat) returns (bytes: Bytes)
      modifies socket`inbox
      ensures connected ==> old(socket.inbox) == bytes + socket.inbox && |bytes| == Min(count, |old(socket.inbox)|)
      ensures !connected ==> bytes == [] && socket.inbox == old(socket.inbox)
    {
      if !connected {
        return [];
      }
      bytes := socket.Receive(count);
    }

    /** The payload a header announced, or the connection is closed. */
    method ReceiveAnnounced(ptype: uint16, size: uint16) returns (packet: Option<Packet>)
      requires connected
      modifies this`connected, socket`inbox
      ensures Ends(Framing.ReceivePayload(ptype, size, old(socket.inbox)), packet)
    {
      var payload: Bytes := [];
      if size > 0 {
        if size > MAX_PAYLOAD_SIZE {
          Close();
          return None;
        }
        payload := Recv(size);
        if |payload| != size {
          Close();
          return None;
        }
      }
      return Some(Packet(ptype, payload));
    }

    /** One whole frame from an open connection's stream, or it is closed. */
    method Receive() returns (packet: Option<Packet>)
      modifies this`connected, socket`inbox
      ensures old(connected) ==> Ends(Framing.Receive(old(socket.inbox)), packet)
      ensures !old(connected) ==> packet == None && !connected && socket.inbox == old(socket.inbox)
    {
      var header := Recv(HEADER_SIZE);
      if |header| != HEADER_SIZE {
        if connected {
          Close();
        }
        return None;
      }
      HeaderRead(header, socket.inbox);
      var ptype, size := FromNetwork(host, header);
      packet := ReceiveAnnounced(ptype, size);
    }
  }

  lemma HeaderRead(header: Bytes, rest: Bytes)
    requires |header| == HEADER_SIZE
    ensures Framing.Receive(header + rest) == ReceivePayload(DeclaredType(header), DeclaredSize(header), rest)
  {
    assert (header + rest)[HEADER_SIZE..] == rest;
  }
}
