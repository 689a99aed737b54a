/**
 * Byte-level vocabulary shared by the STUN resolver and the two roles of the
 * hole-punch session: results, socket addresses, little- and big-endian
 * integer encodings, and what a `recv_from` leaves in the caller's buffer.
 */
module Wire {

  datatype Option<+T> = None | Some(value: T)

  datatype Result<+T, +E> = Ok(value: T) | Err(error: E)

  /** A UDP endpoint as the socket layer reports it; only compared for equality. */
  datatype SocketAddr = SocketAddr(ip: seq<bv8>, port: nat)

  /** The steps that open a UDP socket before any datagram is exchanged. */
  datatype SocketSetup =
    | SetupOk           // bind, local_addr and set_read_timeout all succeed
    | BindFailed        // UdpSocket::bind
    | LocalAddrFailed   // socket.local_addr()
    | TimeoutFailed     // socket.set_read_timeout(..)

  /** Largest port a `SocketAddr` text form accepts. */
  const MaxPort: nat := 65535

  function Pow256(k: nat): (p: nat)
    ensures p > 0
  {
    if k == 0 then 1 else 256 * Pow256(k - 1)
  }

  /**
   * The `k` low-order bytes of `n`, least significant first: Rust's
   * `(n as uK).to_le_bytes()`, the cast dropping every higher byte.
   */
  function LittleEndian(n: nat, k: nat): (bs: seq<bv8>)
    ensures |bs| == k
  {
    if k == 0 then [] else [(n % 256) as bv8] + LittleEndian(n / 256, k - 1)
  }

  /** Rust's `uK::from_le_bytes`: the number whose little-endian bytes are `bs`. */
  function FromLittleEndian(bs: seq<bv8>): (n: nat)
    ensures n < Pow256(|bs|)
  {
    if bs == [] then 0
    else
      var rest := FromLittleEndian(bs[1..]);
      assert rest <= Pow256(|bs| - 1) - 1;
      bs[0] as nat + 256 * rest
  }

  lemma {:induction false} MulAtLeast(d: nat, x: nat)
    requires x >= 1
    ensures d * x >= d
  {
    if x > 1 {
      MulAtLeast(d, x - 1);
      assert d * x == d * (x - 1) + d;
    }
  }

  /** Euclidean division is the only way of writing `n` as `d * q + r` with `r < d`. */
  lemma DivModUnique(n: nat, d: nat, q: nat, r: nat)
    requires d > 0 && n == d * q + r && r < d
    ensures n / d == q && n % d == r
  {
    var q', r' := n / d, n % d;
    assert n == d * q' + r';
    if q' > q {
      MulAtLeast(d, q' - q);
    } else if q' < q {
      MulAtLeast(d, q - q');
    }
  }

  /** Splitting off the low byte commutes with reducing modulo `256 * p`. */
  lemma ModSplit(n: nat, p: nat)
    requires p > 0
    ensures n % (256 * p) == n % 256 + 256 * ((n / 256) % p)
  {
    var q, r := n / 256, n % 256;
    var a, b := q / p, q % p;
    assert q == p * a + b;
    assert (256 * p) * a == 256 * (p * a);
    assert n == (256 * p) * a + (256 * b + r);
    DivModUnique(n, 256 * p, a, 256 * b + r);
  }

  // The cast from `nat` to `bv8` is costly for the solver to reason about
  // directly; counting up in 8-bit arithmetic keeps the proof of `ByteValue` cheap.
  /** The byte with value `v`, reached by counting up from zero in 8-bit arithmetic. */
  ghost function CountedByte(v: nat): bv8
    requires v < 256
  {
    if v == 0 then 0 else CountedByte(v - 1) + 1
  }

  lemma Successor(b: bv8)
    requires b as nat < 255
    ensures (b + 1) as nat == b as nat + 1
  {
  }

  lemma {:induction false} CountedByteValue(v: nat)
    requires v < 256
    ensures CountedByte(v) as nat == v
  {
    if v > 0 {
      CountedByteValue(v - 1);
      Successor(CountedByte(v - 1));
    }
  }

  lemma ByteBits(b: bv8)
    ensures (b as nat) as bv8 == b
  {
  }

  /** A value below 256 survives the cast to a byte (`v as u8`). */
  lemma ByteValue(v: nat)
    requires v < 256
    ensures (v as bv8) as nat == v
  {
    CountedByteValue(v);
    ByteBits(CountedByte(v));
  }

  /** Decoding what was encoded gives back the number modulo the width. */
  lemma {:induction false} DecodeEncode(n: nat, k: nat)
    ensures FromLittleEndian(LittleEndian(n, k)) == n % Pow256(k)
  {
    if k > 0 {
      var bs := LittleEndian(n, k);
      assert bs[1..] == LittleEndian(n / 256, k - 1);
      ByteValue(n % 256);
      DecodeEncode(n / 256, k - 1);
      ModSplit(n, Pow256(k - 1));
      assert Pow256(k) == 256 * Pow256(k - 1);
      assert FromLittleEndian(bs) == bs[0] as nat + 256 * FromLittleEndian(bs[1..]);
    }
  }

  /** Encoding what was decoded gives back the same bytes. */
  lemma {:induction false} EncodeDecode(bs: seq<bv8>)
    ensures LittleEndian(FromLittleEndian(bs), |bs|) == bs
  {
    if bs != [] {
      var n := FromLittleEndian(bs);
      var rest := FromLittleEndian(bs[1..]);
      DivModUnique(n, 256, rest, bs[0] as nat);
      EncodeDecode(bs[1..]);
      assert LittleEndian(n, |bs|) == [bs[0]] + bs[1..];
    }
  }

  /** Big-endian 16-bit field: `(hi as u16) << 8 | lo as u16`. */
  function Be16(hi: bv8, lo: bv8): bv16
  {
    ((hi as bv16) << 8) | (lo as bv16)
  }

  /** The two bytes of a 16-bit field, high byte first. */
  function Be16Bytes(v: bv16): (bs: seq<bv8>)
    ensures |bs| == 2
  {
    [(v >> 8) as bv8, (v & 0xFF) as bv8]
  }

  lemma Be16RoundTrip(v: bv16)
    ensures Be16(Be16Bytes(v)[0], Be16Bytes(v)[1]) == v
  {
  }

  /** How many bytes `recv_from` reports when `payload` arrives at a buffer of `capacity` bytes (the excess is discarded). */
  function Received(payload: seq<bv8>, capacity: nat): (size: nat)
    ensures size <= capacity && size <= |payload|
    ensures size == capacity || size == |payload|
  {
    if |payload| < capacity then |payload| else capacity
  }

  /** A fresh zero-filled buffer of `capacity` bytes after `payload` was received into it. */
  function ReceiveBuffer(payload: seq<bv8>, capacity: nat): (buf: seq<bv8>)
    ensures |buf| == capacity
    ensures forall k :: 0 <= k < capacity ==> buf[k] == if k < |payload| then payload[k] else 0
  {
    if |payload| < capacity then payload + seq(capacity - |payload|, _ => 0)
    else payload[..capacity]
  }

  /**
   * The effect of `socket.recv_from(&mut buf)` on the buffer: the first
   * `size` bytes are the datagram's, the rest keep what was there.
   */
  method RecvInto(buf: array<bv8>, payload: seq<bv8>) returns (size: nat)
    modifies buf
    ensures size == Received(payload, buf.Length)
    ensures buf[..size] == payload[..size]
    ensures buf[size..] == old(buf[size..])
  {
    size := Received(payload, buf.Length);
    for k := 0 to size
      invariant buf[..k] == payload[..k]
      invariant buf[k..] == old(buf[k..])
    {
      buf[k] := payload[k];
      assert buf[..k + 1] == buf[..k] + [payload[k]];
    }
  }

  /** A zero-filled buffer that `RecvInto` wrote holds exactly `ReceiveBuffer`. */
  lemma ReceivedIntoZeros(old_buf: seq<bv8>, buf: seq<bv8>, payload: seq<bv8>, size: nat)
    requires |buf| == |old_buf| && size == Received(payload, |buf|)
    requires forall k :: 0 <= k < |old_buf| ==> old_buf[k] == 0
    requires buf[..size] == payload[..size] && buf[size..] == old_buf[size..]
    ensures buf == ReceiveBuffer(payload, |buf|)
  {
    forall k | 0 <= k < |buf|
      ensures buf[k] == ReceiveBuffer(payload, |buf|)[k]
    {
      if k < size {
        assert buf[k] == buf[..size][k];
      } else {
        assert buf[k] == buf[size..][k - size];
      }
    }
  }
}
