/** What a failed send breaks, and that nothing else does: for a script of kernel
    results, delivery in order holds of every list of packets exactly if no result
    in it makes a send loop give up. */
module Failures {
  import opened Protocol
  import opened Framing
  import opened Endpoints
  import opened Streams

  predicate Harmless(script: seq<IoResult>, retries: bool) {
    forall i :: 0 <= i < |script| ==> !Fatal(script[i], retries)
  }

  // ----- two packets whose frames no one can mistake for each other -----

  const ZERO := Packet(0, [])

  /** A packet whose frame starts with 255. */
  const LOUD := Packet(0xFF00, [])

  lemma Frames()
    ensures Frame(ZERO) == [0, 0, 0, 0]
    ensures Frame(LOUD) == [255, 0, 0, 0]
  {
  }

  function Louds(n: nat): (louds: seq<Packet>)
    ensures AllFit(louds)
  {
    if n == 0 then [] else [LOUD] + Louds(n - 1)
  }

  /** Enough of them outlast the script, and the first byte they write is 255. */
  lemma {:induction false} LoudsGetThrough(n: nat, script: seq<IoResult>, retries: bool)
    ensures var wire := SendEvery(Louds(n), script, retries);
            |wire| >= HEADER_SIZE * (n - |script|) && (wire != [] ==> wire[0] == 255)
  {
    if n > 0 {
      var t := Transmit(HEADER_SIZE, 0, script, retries);
      Frames();
      TransmitOutcome(HEADER_SIZE, 0, script, retries);
      LoudsGetThrough(n - 1, t.script, retries);
      assert Louds(n)[1..] == Louds(n - 1);
    }
  }

  // ----- what a reader finds behind a frame that broke off -----

  /** A stream that starts with part of a ZERO frame and then 255, and is long enough
      for any payload its header may announce. */
  predicate Garbled(b: Bytes) {
    |b| >= HEADER_SIZE + 0x1_0000 && exists i :: 0 <= i < HEADER_SIZE && b[i] == 255
  }

  function FirstFrameOf(b: Bytes): (first: Packet)
    requires Complete(b)
  {
    Packet(DeclaredType(b), b[HEADER_SIZE..HEADER_SIZE + DeclaredSize(b)])
  }

  lemma NotZero(p: Packet, frame: Bytes, i: nat)
    requires Frame(p) == frame && i < HEADER_SIZE && frame[i] == 255
    ensures p != ZERO
  {
    Frames();
  }

  lemma FirstIsNotZero(b: Bytes, i: nat)
    requires Complete(b) && i < HEADER_SIZE && b[i] == 255
    ensures FirstFrameOf(b) != ZERO
  {
    CutFrame(b);
    NotZero(FirstFrameOf(b), b[..HEADER_SIZE + DeclaredSize(b)], i);
  }

  lemma ReadersSeeFirst(b: Bytes)
    requires Complete(b)
    ensures Parse(b).packets != [] && Parse(b).packets[0] == FirstFrameOf(b)
    ensures ReceiveAll(b).oversized || (ReceiveAll(b).packets != [] && ReceiveAll(b).packets[0] == FirstFrameOf(b))
  {
    ReceiveWhole(b);
  }

  lemma GarbledIsNotZero(b: Bytes)
    requires Garbled(b)
    ensures Parse(b).packets != [] && Parse(b).packets[0] != ZERO
    ensures ReceiveAll(b).oversized || (ReceiveAll(b).packets != [] && ReceiveAll(b).packets[0] != ZERO)
  {
    var i :| 0 <= i < HEADER_SIZE && b[i] == 255;
    FirstIsNotZero(b, i);
    ReadersSeeFirst(b);
  }

  /** Neither reader of the wire gets the packets in the order sent. */
  predicate Misread(wire: Bytes, sent: seq<Packet>) {
    && !(Parse(wire).packets <= sent)
    && (ReceiveAll(wire).oversized || !(ReceiveAll(wire).packets <= sent))
  }

  lemma GarbledIsMisread(wire: Bytes, sent: seq<Packet>)
    requires Garbled(wire) && sent != [] && sent[0] == ZERO
    ensures Misread(wire, sent)
  {
    GarbledIsNotZero(wire);
  }

  lemma MisreadBehindAFrame(wire: Bytes, sent: seq<Packet>)
    requires Misread(wire, sent)
    ensures Misread(Frame(ZERO) + wire, [ZERO] + sent)
  {
    FrameParses(ZERO, wire);
    assert ReceiveAll(Frame(ZERO) + wire) == Drained([ZERO] + ReceiveAll(wire).packets, ReceiveAll(wire).oversized);
    ConsPrefixBack(ZERO, Parse(wire).packets, sent);
    ConsPrefixBack(ZERO, ReceiveAll(wire).packets, sent);
  }

  lemma ConsPrefixBack<T>(x: T, xs: seq<T>, ys: seq<T>)
    ensures [x] + xs <= [x] + ys ==> xs <= ys
  {
    if [x] + xs <= [x] + ys {
      assert xs == ([x] + xs)[1..] && ys == ([x] + ys)[1..];
    }
  }

  lemma BrokenThenLoud(n: nat, wire: Bytes)
    requires n < HEADER_SIZE && |wire| >= HEADER_SIZE + 0x1_0000 && wire[0] == 255
    ensures Garbled(Frame(ZERO)[..n] + wire)
  {
    assert (Frame(ZERO)[..n] + wire)[n] == 255;
  }

  /** ZERO packets up to the one whose send fails, then enough of the others. */
  lemma {:induction false} FailureMisleads(script: seq<IoResult>, retries: bool) returns (ps: seq<Packet>)
    requires !Harmless(script, retries)
    ensures AllFit(ps) && Fitting(ps) == ps
    ensures Misread(SendEvery(ps, script, retries), ps)
    decreases |script|
  {
    var t := Transmit(HEADER_SIZE, 0, script, retries);
    Frames();
    TransmitOutcome(HEADER_SIZE, 0, script, retries);
    if t.ok {
      ConsumesSome(script, retries);
      StillHarmful(script, t.script, retries);
      var rest := FailureMisleads(t.script, retries);
      ps := [ZERO] + rest;
      assert ps[1..] == rest;
      assert Frame(ZERO)[..HEADER_SIZE] == Frame(ZERO);
      MisreadBehindAFrame(SendEvery(rest, t.script, retries), rest);
    } else {
      var louds := Louds(|t.script| + 0x1_0000);
      ps := [ZERO] + louds;
      assert ps[1..] == louds;
      LoudsGetThrough(|t.script| + 0x1_0000, t.script, retries);
      BrokenThenLoud(t.sent, SendEvery(louds, t.script, retries));
      GarbledIsMisread(SendEvery(ps, script, retries), ps);
    }
    AllOfThemFit(ps);
  }

  lemma ConsumesSome(script: seq<IoResult>, retries: bool)
    requires script != []
    ensures |Transmit(HEADER_SIZE, 0, script, retries).script| < |script|
  {
    match script[0]
    case Taken(count) => TransmitOutcome(HEADER_SIZE, Min(count, HEADER_SIZE), script[1..], retries);
    case TryAgain => TransmitOutcome(HEADER_SIZE, 0, script[1..], retries);
    case Failed =>
  }

  lemma StillHarmful(script: seq<IoResult>, later: seq<IoResult>, retries: bool)
    requires !Harmless(script, retries)
    requires |later| <= |script| && later == script[|script| - |later|..]
    requires forall i :: 0 <= i < |script| - |later| ==> !Fatal(script[i], retries)
    ensures !Harmless(later, retries)
  {
    var i :| 0 <= i < |script| && Fatal(script[i], retries);
    assert later[i - (|script| - |later|)] == script[i];
  }

  // ----- exactly when -----

  /** The wire holds the frames of the packets not refused, in order and cut at most
      at the end. */
  predicate InOrder(ps: seq<Packet>, script: seq<IoResult>, retries: bool) {
    SendEvery(ps, script, retries) <= FrameAll(Fitting(ps))
  }

  /** What arrives, all of it, is read as the first of the packets sent, by the
      server's parser and by the client's Receive. */
  predicate ReadInOrder(ps: seq<Packet>, script: seq<IoResult>, retries: bool) {
    var wire := SendEvery(ps, script, retries);
    && Parse(wire).packets <= Fitting(ps)
    && ReceiveAll(wire).packets <= Fitting(ps)
    && !ReceiveAll(wire).oversized
  }

  lemma OrderIsRead(ps: seq<Packet>, script: seq<IoResult>, retries: bool)
    requires InOrder(ps, script, retries)
    ensures ReadInOrder(ps, script, retries)
  {
    CutStream(Fitting(ps), SendEvery(ps, script, retries));
    ClientReadsWhatWasSent(Fitting(ps), SendEvery(ps, script, retries));
  }

  /** Short writes and, where the loop retries, retries are all that may happen. */
  lemma InOrderExactlyWithoutFailure(script: seq<IoResult>, retries: bool)
    ensures (forall ps :: InOrder(ps, script, retries)) <==> Harmless(script, retries)
    ensures (forall ps :: ReadInOrder(ps, script, retries)) <==> Harmless(script, retries)
  {
    if Harmless(script, retries) {
      forall ps
        ensures InOrder(ps, script, retries) && ReadInOrder(ps, script, retries)
      {
        PartialWritesSendEverything(ps, script, retries);
        OrderIsRead(ps, script, retries);
      }
    } else {
      var ps := FailureMisleads(script, retries);
      assert !ReadInOrder(ps, script, retries);
      if InOrder(ps, script, retries) {
        OrderIsRead(ps, script, retries);
      }
      assert !InOrder(ps, script, retries);
    }
  }
}
