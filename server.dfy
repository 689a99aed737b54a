/**
 * The Responder role of a hole-punch session: an endless receive loop that
 * echoes every datagram to its sender, forwards it to the configured peer
 * when the sender is someone else, and sends a "PUNCH" keepalive to the peer
 * whenever the receive times out.
 *
 * Each receive outcome is an event; the loop is modelled over any finite
 * prefix of the event stream, recording the datagrams it sends. Whether a
 * send succeeds is only logged, so the model records every send attempted.
 */
module Server {
  import opened Wire

  /** The 5-byte ASCII payload "PUNCH". */
  const Punch: seq<bv8> := [0x50, 0x55, 0x4E, 0x43, 0x48]

  lemma PunchIsAscii()
    ensures |Punch| == 5
    ensures forall k :: 0 <= k < 5 ==> Punch[k] as int == "PUNCH"[k] as int
  {
  }

  /** The outcome of one `recv_from` with a read timeout. */
  datatype RecvEvent =
    | Datagram(payload: seq<bv8>, src: SocketAddr)
    | TimedOut
    | WouldBlock
    | OtherError

  /** One `send_to`. */
  datatype Send = Send(payload: seq<bv8>, dest: SocketAddr)

  /** The sends of one loop iteration, with a receive buffer of `packetSize` bytes. */
  function Reaction(target: SocketAddr, packetSize: nat, ev: RecvEvent): seq<Send>
  {
    match ev
    case Datagram(payload, src) =>
      var data := payload[..Received(payload, packetSize)];
      [Send(data, src)] + (if src != target then [Send(data, target)] else [])
    case TimedOut => [Send(Punch, target)]
    case WouldBlock => [Send(Punch, target)]
    case OtherError => []
  }

  /** All sends of the loop over `events`, in order. */
  function Trace(target: SocketAddr, packetSize: nat, events: seq<RecvEvent>): seq<Send>
  {
    if events == [] then []
    else Trace(target, packetSize, events[..|events| - 1]) + Reaction(target, packetSize, events[|events| - 1])
  }

  /** One loop iteration: receive into the reused buffer, then echo, forward or keep alive. */
  method Step(buf: array<bv8>, target: SocketAddr, ev: RecvEvent) returns (sends: seq<Send>)
    modifies buf
    ensures sends == Reaction(target, buf.Length, ev)
    ensures ev.Datagram? ==>
              var n := Received(ev.payload, buf.Length);
              buf[..n] == ev.payload[..n] && buf[n..] == old(buf[n..])
    ensures !ev.Datagram? ==> buf[..] == old(buf[..])
  {
    match ev
    case Datagram(payload, src) =>
      var size := RecvInto(buf, payload);
      sends := [Send(buf[0..size], src)];
      if src != target {
        sends := sends + [Send(buf[0..size], target)];
      }
    case TimedOut =>
      sends := [Send(Punch, target)];
    case WouldBlock =>
      sends := [Send(Punch, target)];
    case OtherError =>
      sends := [];
  }

  /** The `loop` of `Server::init`, run over a finite prefix of receive outcomes. */
  method Serve(target: SocketAddr, packetSize: nat, events: seq<RecvEvent>) returns (sends: seq<Send>)
    ensures sends == Trace(target, packetSize, events)
  {
    var buf := new bv8[packetSize](_ => 0);
    sends := [];
    for i := 0 to |events|
      invariant buf.Length == packetSize
      invariant sends == Trace(target, packetSize, events[..i])
    {
      var more := Step(buf, target, events[i]);
      assert events[..i + 1][..i] == events[..i];
      sends := sends + more;
    }
    assert events[..|events|] == events;
  }

  datatype ServerError =
    | InvalidLocalPort   // "0.0.0.0:<port>" does not parse
    | Socket(step: SocketSetup)

  /**
   * How far `Server::init` gets: it returns only with a setup error;
   * otherwise it is still looping, having made the given sends.
   */
  datatype Run = SetupError(error: ServerError) | Looping(sends: seq<Send>)

  function ServerRun(target: SocketAddr, localPort: nat, setup: SocketSetup, packetSize: nat, events: seq<RecvEvent>): Run
  {
    if localPort > MaxPort then SetupError(InvalidLocalPort)
    else if setup != SetupOk then SetupError(Socket(setup))
    else Looping(Trace(target, packetSize, events))
  }

  /** `Server::init`. */
  method Init(target: SocketAddr, localPort: nat, setup: SocketSetup, packetSize: nat, events: seq<RecvEvent>) returns (run: Run)
    ensures run == ServerRun(target, localPort, setup, packetSize, events)
  {
    if localPort > MaxPort {
      return SetupError(InvalidLocalPort);
    }
    if setup != SetupOk {
      return SetupError(Socket(setup));
    }
    var sends := Serve(target, packetSize, events);
    run := Looping(sends);
  }

  /**
   * One datagram of `size` received bytes from `src`: the first send echoes
   * exactly those bytes to `src`; a second send of the same bytes goes to
   * the peer iff `src` is not the peer, and there is no other send.
   */
  lemma DatagramReaction(target: SocketAddr, packetSize: nat, payload: seq<bv8>, src: SocketAddr)
    ensures var sends := Reaction(target, packetSize, Datagram(payload, src));
            var size := Received(payload, packetSize);
            |sends| == (if src != target then 2 else 1) &&
            sends[0] == Send(payload[..size], src) &&
            (src != target ==> sends[1] == Send(payload[..size], target)) &&
            (|payload| <= packetSize ==> sends[0].payload == payload)
  {
  }

  /** Time-outs and would-block produce exactly one PUNCH to the peer; other errors nothing. */
  lemma ErrorReaction(target: SocketAddr, packetSize: nat, ev: RecvEvent)
    requires !ev.Datagram?
    ensures Reaction(target, packetSize, ev) == if ev.OtherError? then [] else [Send(Punch, target)]
  {
  }

  lemma {:induction false} TraceAppend(target: SocketAddr, packetSize: nat, e1: seq<RecvEvent>, e2: seq<RecvEvent>)
    ensures Trace(target, packetSize, e1 + e2) == Trace(target, packetSize, e1) + Trace(target, packetSize, e2)
    decreases |e2|
  {
    if e2 == [] {
      assert e1 + e2 == e1;
    } else {
      var init := e2[..|e2| - 1];
      assert (e1 + e2)[..|e1 + e2| - 1] == e1 + init;
      TraceAppend(target, packetSize, e1, init);
    }
  }

  /**
   * Everything the loop sends is either the PUNCH keepalive to the peer or
   * at most `packetSize` bytes received from some datagram's sender, going
   * back to that sender or to the peer.
   */
  lemma {:induction false} TraceSends(target: SocketAddr, packetSize: nat, events: seq<RecvEvent>)
    ensures forall s :: s in Trace(target, packetSize, events) ==>
              (s == Send(Punch, target)) ||
              (|s.payload| <= packetSize &&
               exists k :: 0 <= k < |events| && events[k].Datagram? &&
                 s.payload <= events[k].payload &&
                 (s.dest == events[k].src || s.dest == target))
  {
    if events != [] {
      var n := |events| - 1;
      var init := events[..n];
      TraceSends(target, packetSize, init);
      assert forall k :: 0 <= k < n ==> init[k] == events[k];
    }
  }

  /** Receive errors never end the loop and never cause a send beyond the keepalive. */
  lemma {:induction false} KeepaliveCount(target: SocketAddr, packetSize: nat, events: seq<RecvEvent>)
    requires forall k :: 0 <= k < |events| ==> !events[k].Datagram?
    ensures |Trace(target, packetSize, events)| == |events| - CountOtherErrors(events)
    ensures forall s :: s in Trace(target, packetSize, events) ==> s == Send(Punch, target)
  {
    if events != [] {
      KeepaliveCount(target, packetSize, events[..|events| - 1]);
    }
  }

  function CountOtherErrors(events: seq<RecvEvent>): (n: nat)
    ensures n <= |events|
  {
    if events == [] then 0
    else CountOtherErrors(events[..|events| - 1]) + (if events[|events| - 1].OtherError? then 1 else 0)
  }
}
