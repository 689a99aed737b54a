/**
 * The Initiator role of a hole-punch session: build a probe packet, send it,
 * accept the reply only if it echoes the sequence number just sent, and over
 * `count` attempts collect latency samples and their minimum and maximum.
 *
 * Time is opaque: each attempt carries the timestamp written into the probe
 * and the elapsed time measured on success. The packet size is a parameter
 * of at least 12 bytes (sequence number and timestamp).
 */
module Client {
  import opened Wire

  /** `seq as u32` keeps the sequence number modulo this. */
  const SequenceModulus: nat := 0x1_0000_0000
  /** `as_nanos() as u64` keeps the timestamp modulo this. */
  const TimestampModulus: nat := 0x1_0000_0000_0000_0000
  /** Sequence number (4 bytes) and timestamp (8 bytes) precede the filler. */
  const ProbeHeader: nat := 12
  /** Hole-punching datagrams sent before the first probe. */
  const PunchCount: nat := 5

  lemma Widths()
    ensures Pow256(4) == SequenceModulus && Pow256(8) == TimestampModulus
  {
    assert Pow256(4) == 256 * 256 * 256 * 256;
  }

  /** Bytes 12.. of a probe: byte i holds `i % 256`. */
  function Filler(packetSize: nat): seq<bv8>
    requires packetSize >= ProbeHeader
  {
    seq(packetSize - ProbeHeader, k => ((ProbeHeader + k) % 256) as bv8)
  }

  /** The probe for sequence number `seqNo` with the sender-local `timestamp`. */
  function ProbePacket(seqNo: nat, timestamp: nat, packetSize: nat): (p: seq<bv8>)
    requires packetSize >= ProbeHeader
    ensures |p| == packetSize
  {
    LittleEndian(seqNo, 4) + LittleEndian(timestamp, 8) + Filler(packetSize)
  }

  /** `u32::from_le_bytes` of the first four bytes. */
  function SequenceOf(packet: seq<bv8>): nat
    requires |packet| >= 4
  {
    FromLittleEndian(packet[..4])
  }

  function TimestampOf(packet: seq<bv8>): nat
    requires |packet| >= ProbeHeader
  {
    FromLittleEndian(packet[4..12])
  }

  /** The wire layout of a probe, read back field by field. */
  lemma ProbeLayout(seqNo: nat, timestamp: nat, packetSize: nat)
    requires packetSize >= ProbeHeader
    ensures SequenceOf(ProbePacket(seqNo, timestamp, packetSize)) == seqNo % SequenceModulus
    ensures TimestampOf(ProbePacket(seqNo, timestamp, packetSize)) == timestamp % TimestampModulus
    ensures forall i :: ProbeHeader <= i < packetSize ==> ProbePacket(seqNo, timestamp, packetSize)[i] == (i % 256) as bv8
  {
    var p := ProbePacket(seqNo, timestamp, packetSize);
    assert p[..4] == LittleEndian(seqNo, 4);
    assert p[4..12] == LittleEndian(timestamp, 8);
    DecodeEncode(seqNo, 4);
    DecodeEncode(timestamp, 8);
    Widths();
  }

  /** `measure_latency`'s packet construction, in place on a zeroed array. */
  method BuildProbe(seqNo: nat, timestamp: nat, packetSize: nat) returns (packet: seq<bv8>)
    requires packetSize >= ProbeHeader
    ensures packet == ProbePacket(seqNo, timestamp, packetSize)
  {
    var a := new bv8[packetSize](_ => 0);
    var seqBytes := LittleEndian(seqNo, 4);
    for k := 0 to 4
      invariant forall j :: 0 <= j < k ==> a[j] == seqBytes[j]
    {
      a[k] := seqBytes[k];
    }
    var timeBytes := LittleEndian(timestamp, 8);
    for k := 0 to 8
      invariant forall j :: 0 <= j < 4 ==> a[j] == seqBytes[j]
      invariant forall j :: 0 <= j < k ==> a[4 + j] == timeBytes[j]
    {
      a[4 + k] := timeBytes[k];
    }
    for i := ProbeHeader to packetSize
      invariant forall j :: 0 <= j < 4 ==> a[j] == seqBytes[j]
      invariant forall j :: 0 <= j < 8 ==> a[4 + j] == timeBytes[j]
      invariant forall j :: ProbeHeader <= j < i ==> a[j] == (j % 256) as bv8
    {
      a[i] := (i % 256) as bv8;
    }
    packet := a[..];
    ghost var spec := ProbePacket(seqNo, timestamp, packetSize);
    forall j | 0 <= j < packetSize
      ensures packet[j] == spec[j]
    {
      if j < 4 {
      } else if j < ProbeHeader {
        assert packet[j] == a[4 + (j - 4)];
      }
    }
  }

  /** What the receive produced: nothing (an I/O error or timeout), or a datagram. */
  datatype Reply = NoReply | Datagram(payload: seq<bv8>, src: SocketAddr)

  /** The environment of one attempt: clock readings and socket outcomes. */
  datatype Attempt = Attempt(timestamp: nat, sendOk: bool, reply: Reply, elapsed: nat)

  datatype ProbeError =
    | SendFailed
    | RecvFailed
    | EmptyResponse
    | SequenceMismatch(expected: nat, got: nat)

  /** The result of `measure_latency` for sequence number `seqNo`. */
  function ProbeOutcome(seqNo: nat, packetSize: nat, at: Attempt): Result<nat, ProbeError>
    requires packetSize >= ProbeHeader
  {
    if !at.sendOk then Err(SendFailed)
    else match at.reply
      case NoReply => Err(RecvFailed)
      case Datagram(payload, _) =>
        if Received(payload, packetSize) == 0 then Err(EmptyResponse)
        else
          var got := SequenceOf(ReceiveBuffer(payload, packetSize));
          if got != seqNo % SequenceModulus then Err(SequenceMismatch(seqNo, got))
          else Ok(at.elapsed)
  }

  /** `measure_latency`: the probe it sends and the latency or error it returns. */
  method MeasureLatency(seqNo: nat, packetSize: nat, at: Attempt) returns (packet: seq<bv8>, r: Result<nat, ProbeError>)
    requires packetSize >= ProbeHeader
    ensures packet == ProbePacket(seqNo, at.timestamp, packetSize)
    ensures r == ProbeOutcome(seqNo, packetSize, at)
  {
    packet := BuildProbe(seqNo, at.timestamp, packetSize);
    if !at.sendOk {
      r := Err(SendFailed);
      return;
    }
    match at.reply
    case NoReply =>
      r := Err(RecvFailed);
    case Datagram(payload, src) =>
      var response := new bv8[packetSize](_ => 0);
      ghost var zeros := response[..];
      var bytesReceived := RecvInto(response, payload);
      ReceivedIntoZeros(zeros, response[..], payload, bytesReceived);
      if bytesReceived == 0 {
        r := Err(EmptyResponse);
        return;
      }
      // A reply from a source other than the target is only logged.
      var receivedSeq := FromLittleEndian(response[..4]);
      if receivedSeq != seqNo % SequenceModulus {
        r := Err(SequenceMismatch(seqNo, receivedSeq));
      } else {
        r := Ok(at.elapsed);
      }
  }

  /**
   * Acceptance in terms of the datagram alone: it must be non-empty and its
   * first four bytes, zero-filled when shorter, must decode to the sequence
   * number sent. Where the reply came from plays no part.
   */
  lemma AcceptedIff(seqNo: nat, packetSize: nat, at: Attempt)
    requires packetSize >= ProbeHeader
    ensures ProbeOutcome(seqNo, packetSize, at).Ok? <==>
              at.sendOk && at.reply.Datagram? && |at.reply.payload| > 0 &&
              FromLittleEndian((at.reply.payload + [0, 0, 0, 0])[..4]) == seqNo % SequenceModulus
    ensures ProbeOutcome(seqNo, packetSize, at).Ok? ==> ProbeOutcome(seqNo, packetSize, at).value == at.elapsed
    ensures at.sendOk && at.reply.Datagram? && at.reply.payload == [] ==> ProbeOutcome(seqNo, packetSize, at) == Err(EmptyResponse)
  {
    if at.sendOk && at.reply.Datagram? && |at.reply.payload| > 0 {
      var payload := at.reply.payload;
      var buf := ReceiveBuffer(payload, packetSize);
      assert buf[..4] == (payload + [0, 0, 0, 0])[..4];
    }
  }

  /**
   * A faithful echo of a probe is accepted exactly when the echoed probe
   * carried the same 32-bit sequence number; otherwise it is a mismatch.
   */
  lemma EchoedProbe(seqNo: nat, echoed: nat, timestamp: nat, packetSize: nat, at: Attempt)
    requires packetSize >= ProbeHeader
    requires at.sendOk && at.reply.Datagram? && at.reply.payload == ProbePacket(echoed, timestamp, packetSize)
    ensures ProbeOutcome(seqNo, packetSize, at) ==
              if echoed % SequenceModulus == seqNo % SequenceModulus then Ok(at.elapsed)
              else Err(SequenceMismatch(seqNo, echoed % SequenceModulus))
  {
    var payload := at.reply.payload;
    assert ReceiveBuffer(payload, packetSize) == payload;
    ProbeLayout(echoed, timestamp, packetSize);
  }

  /** Outcome of attempt k, which uses sequence number k + 1. */
  function Outcomes(packetSize: nat, attempts: seq<Attempt>): (os: seq<Result<nat, ProbeError>>)
    requires packetSize >= ProbeHeader
    ensures |os| == |attempts|
  {
    seq(|attempts|, k requires 0 <= k < |attempts| => ProbeOutcome(k + 1, packetSize, attempts[k]))
  }

  /** The latencies of the successful attempts, in attempt order. */
  function Samples(os: seq<Result<nat, ProbeError>>): seq<nat>
  {
    if os == [] then []
    else
      var last := os[|os| - 1];
      Samples(os[..|os| - 1]) + (if last.Ok? then [last.value] else [])
  }

  /** How many attempts failed. */
  function Failures(os: seq<Result<nat, ProbeError>>): nat
  {
    if os == [] then 0
    else Failures(os[..|os| - 1]) + (if os[|os| - 1].Err? then 1 else 0)
  }

  /** Every attempt either adds a sample or counts as lost. */
  lemma {:induction false} SamplesAndFailures(os: seq<Result<nat, ProbeError>>)
    ensures |Samples(os)| + Failures(os) == |os|
    ensures forall x :: x in Samples(os) ==> Ok(x) in os
  {
    if os != [] {
      var init := os[..|os| - 1];
      SamplesAndFailures(init);
      assert forall y :: y in init ==> y in os;
    }
  }

  /** When every attempt succeeds, nothing is lost and every latency is sampled in order. */
  lemma {:induction false} AllAccepted(os: seq<Result<nat, ProbeError>>)
    requires forall k :: 0 <= k < |os| ==> os[k].Ok?
    ensures Failures(os) == 0
    ensures Samples(os) == seq(|os|, k requires 0 <= k < |os| => os[k].value)
  {
    if os != [] {
      var init := os[..|os| - 1];
      AllAccepted(init);
    }
  }

  lemma SamplesExtend(os: seq<Result<nat, ProbeError>>, n: nat)
    requires 0 < n <= |os|
    ensures Samples(os[..n]) == Samples(os[..n - 1]) + (if os[n - 1].Ok? then [os[n - 1].value] else [])
  {
    assert os[..n][..n - 1] == os[..n - 1];
  }

  /** The `for i in 1..=count` loop of `Client::init`. */
  method RunProbes(packetSize: nat, attempts: seq<Attempt>) returns (probes: seq<seq<bv8>>, received: nat, latencies: seq<nat>)
    requires packetSize >= ProbeHeader
    ensures |probes| == |attempts|
    ensures forall k :: 0 <= k < |attempts| ==> probes[k] == ProbePacket(k + 1, attempts[k].timestamp, packetSize)
    ensures latencies == Samples(Outcomes(packetSize, attempts))
    ensures received == |latencies| <= |attempts|
    ensures |attempts| - received == Failures(Outcomes(packetSize, attempts))
  {
    ghost var os := Outcomes(packetSize, attempts);
    ghost var sent := seq(|attempts|, k requires 0 <= k < |attempts| => ProbePacket(k + 1, attempts[k].timestamp, packetSize));
    probes, received, latencies := [], 0, [];
    // Attempt n carries the loop's 1-based sequence number i = n + 1.
    for n := 0 to |attempts|
      invariant probes == sent[..n]
      invariant latencies == Samples(os[..n])
      invariant received == |latencies|
    {
      var packet, r := MeasureLatency(n + 1, packetSize, attempts[n]);
      assert packet == sent[n];
      assert sent[..n + 1] == sent[..n] + [packet];
      assert r == os[n];
      SamplesExtend(os, n + 1);
      probes := probes + [packet];
      if r.Ok? {
        latencies := latencies + [r.value];
        received := received + 1;
      }
    }
    assert os[..|attempts|] == os;
    assert sent[..|attempts|] == sent;
    SamplesAndFailures(os);
  }

  /** The smallest sample (`latencies.iter().min()`). */
  function MinOf(s: seq<nat>): (m: nat)
    requires |s| > 0
    ensures m in s && forall x :: x in s ==> m <= x
  {
    if |s| == 1 then s[0]
    else
      var rest := MinOf(s[1..]);
      assert forall x :: x in s ==> x == s[0] || x in s[1..];
      if s[0] <= rest then s[0] else rest
  }

  /** The largest sample (`latencies.iter().max()`). */
  function MaxOf(s: seq<nat>): (m: nat)
    requires |s| > 0
    ensures m in s && forall x :: x in s ==> x <= m
  {
    if |s| == 1 then s[0]
    else
      var rest := MaxOf(s[1..]);
      assert forall x :: x in s ==> x == s[0] || x in s[1..];
      if s[0] >= rest then s[0] else rest
  }

  /** The integer part of the printed statistics. */
  datatype Stats = Stats(sent: nat, received: nat, lost: nat, min: nat, max: nat)

  /** Statistics exist only when some sample was collected. */
  function Statistics(count: nat, received: nat, latencies: seq<nat>): (st: Option<Stats>)
    requires received <= count
    ensures st.Some? <==> latencies != []
    ensures st.Some? ==> st.value.min in latencies && st.value.max in latencies
    ensures st.Some? ==> forall x :: x in latencies ==> st.value.min <= x <= st.value.max
  {
    if latencies == [] then None
    else Some(Stats(count, received, count - received, MinOf(latencies), MaxOf(latencies)))
  }

  datatype ClientError =
    | InvalidLocalPort      // `parse().unwrap()` of "0.0.0.0:<port>" panics
    | Socket(step: SocketSetup)
    | PunchSendFailed

  /** `Client::init` as a function of its environment; `count` is the number of attempts. */
  function ClientRun(localPort: nat, setup: SocketSetup, punchSends: seq<bool>, packetSize: nat, attempts: seq<Attempt>): Result<Option<Stats>, ClientError>
    requires packetSize >= ProbeHeader && |punchSends| == PunchCount
  {
    if localPort > MaxPort then Err(InvalidLocalPort)
    else if setup != SetupOk then Err(Socket(setup))
    else if false in punchSends then Err(PunchSendFailed)
    else
      var latencies := Samples(Outcomes(packetSize, attempts));
      SamplesAndFailures(Outcomes(packetSize, attempts));
      Ok(Statistics(|attempts|, |latencies|, latencies))
  }

  /** `Client::init`: setup, five hole-punching sends, the probe loop, then statistics. */
  method Init(localPort: nat, setup: SocketSetup, punchSends: seq<bool>, packetSize: nat, attempts: seq<Attempt>)
    returns (r: Result<Option<Stats>, ClientError>)
    requires packetSize >= ProbeHeader && |punchSends| == PunchCount
    ensures r == ClientRun(localPort, setup, punchSends, packetSize, attempts)
  {
    if localPort > MaxPort {
      return Err(InvalidLocalPort);
    }
    if setup != SetupOk {
      return Err(Socket(setup));
    }
    for k := 0 to PunchCount
      invariant forall j :: 0 <= j < k ==> punchSends[j]
    {
      if !punchSends[k] {
        return Err(PunchSendFailed);
      }
    }
    var probes, received, latencies := RunProbes(packetSize, attempts);
    r := Ok(Statistics(|attempts|, received, latencies));
  }

  /**
   * The report of a completed run: all `count` probes counted as sent, the
   * lost ones exactly the failed attempts, and every sample within [min, max].
   * No report at all exactly when every attempt failed.
   */
  lemma RunReport(localPort: nat, setup: SocketSetup, punchSends: seq<bool>, packetSize: nat, attempts: seq<Attempt>)
    requires packetSize >= ProbeHeader && |punchSends| == PunchCount
    requires ClientRun(localPort, setup, punchSends, packetSize, attempts).Ok?
    ensures var os := Outcomes(packetSize, attempts);
            var report := ClientRun(localPort, setup, punchSends, packetSize, attempts).value;
            (report.None? <==> Failures(os) == |attempts|) &&
            (report.Some? ==>
               report.value.sent == |attempts| &&
               report.value.lost == Failures(os) &&
               report.value.received + report.value.lost == |attempts| &&
               forall x :: x in Samples(os) ==> report.value.min <= x <= report.value.max)
  {
    SamplesAndFailures(Outcomes(packetSize, attempts));
  }

  /**
   * Against a peer that echoes every probe unchanged, every attempt is
   * accepted: nothing is lost and the samples are the measured latencies.
   */
  lemma FaithfulEchoNoLoss(packetSize: nat, attempts: seq<Attempt>)
    requires packetSize >= ProbeHeader
    requires forall k :: 0 <= k < |attempts| ==>
               attempts[k].sendOk && attempts[k].reply.Datagram? &&
               attempts[k].reply.payload == ProbePacket(k + 1, attempts[k].timestamp, packetSize)
    ensures Failures(Outcomes(packetSize, attempts)) == 0
    ensures Samples(Outcomes(packetSize, attempts)) == seq(|attempts|, k requires 0 <= k < |attempts| => attempts[k].elapsed)
  {
    var os := Outcomes(packetSize, attempts);
    forall k | 0 <= k < |attempts|
      ensures os[k] == Ok(attempts[k].elapsed)
    {
      EchoedProbe(k + 1, k + 1, attempts[k].timestamp, packetSize, attempts[k]);
    }
    AllAccepted(os);
  }
}
