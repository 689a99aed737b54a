/**
 * Public-address discovery: the fixed STUN Binding Request, the scan of a
 * Binding Response's attributes and the decoding of XOR-MAPPED-ADDRESS
 * (section 15.2 of RFC 5389), for IPv4 and IPv6 server candidates.
 *
 * Socket work is abstracted: each candidate server address comes with the
 * outcome of its exchange (setup failure, send or receive failure, or the
 * datagram received). The scan is modelled as written, including two
 * departures from RFC 5389: the cursor advances by `4 + length` without the
 * padding of section 15 of RFC 5389, and the IPv6 address is XORed with the cookie
 * repeated four times rather than with cookie and transaction ID.
 */
module Stun {
  import opened Wire

  /** The magic cookie 0x2112A442 of section 6 of RFC 5389, as wire bytes. */
  const MagicCookie: seq<bv8> := [0x21, 0x12, 0xA4, 0x42]

  /** The Binding Request sent to every candidate server: fixed, never randomised. */
  const BindingRequest: seq<bv8> := [
    0x00, 0x01,
    0x00, 0x00,
    0x21, 0x12, 0xA4, 0x42,
    0x00, 0x01, 0x02, 0x03, 0x04, 0x05, 0x06, 0x07, 0x08, 0x09, 0x0A, 0x0B
  ]

  const HeaderSize: nat := 20
  const BufferSize: nat := 512
  const XorMappedAddressType: bv16 := 0x0020
  const FamilyIPv6: bv16 := 0x0002
  const PortMask: bv16 := 0x2112

  lemma BindingRequestLayout()
    ensures |BindingRequest| == HeaderSize
    ensures Be16(BindingRequest[0], BindingRequest[1]) == 0x0001
    ensures Be16(BindingRequest[2], BindingRequest[3]) == 0x0000
    ensures BindingRequest[4..8] == MagicCookie
    ensures BindingRequest[8..] == [0x00, 0x01, 0x02, 0x03, 0x04, 0x05, 0x06, 0x07, 0x08, 0x09, 0x0A, 0x0B]
  {
    assert BindingRequest[4..8] == [BindingRequest[4], BindingRequest[5], BindingRequest[6], BindingRequest[7]];
  }

  datatype Family = IPv4 | IPv6

  /** A decoded XOR-MAPPED-ADDRESS: 4 or 16 address bytes and a port. */
  datatype MappedAddress = MappedAddress(ip: seq<bv8>, port: bv16)

  /** The two result lists, in the order their attributes were parsed. */
  datatype PublicAddresses = PublicAddresses(v4: seq<MappedAddress>, v6: seq<MappedAddress>)

  datatype StunError =
    | LookupFailed       // the STUN server's host name did not resolve
    | SocketSetupFailed  // bind, local_addr or set_read_timeout failed
    | ReadPastBuffer     // an index past the 512-byte buffer: the Rust code panics

  /** What one candidate's socket exchange produced. */
  datatype Exchange =
    | SetupFailed
    | SendFailed
    | RecvFailed
    | Response(payload: seq<bv8>)

  datatype Candidate = Candidate(family: Family, exchange: Exchange)

  /** The port mask applied to a transmitted port; its own inverse. */
  function XorPort(p: bv16): bv16
  {
    p ^ PortMask
  }

  /** Address byte k XORed with cookie byte k mod 4 (both address lengths). */
  function XorAddress(a: seq<bv8>): (r: seq<bv8>)
    ensures |r| == |a|
  {
    seq(|a|, k requires 0 <= k < |a| => a[k] ^ MagicCookie[k % 4])
  }

  lemma XorInvolution(a: seq<bv8>, p: bv16)
    ensures XorAddress(XorAddress(a)) == a
    ensures XorPort(XorPort(p)) == p
  {
    assert forall k :: 0 <= k < |a| ==> XorAddress(XorAddress(a))[k] == a[k];
  }

  /** For a 4-byte address the mask is the cookie itself, byte for byte. */
  lemma XorAddressIPv4(a: seq<bv8>)
    requires |a| == 4
    ensures XorAddress(a) == [a[0] ^ 0x21, a[1] ^ 0x12, a[2] ^ 0xA4, a[3] ^ 0x42]
  {
    var c := MagicCookie;
    assert c[0] == 0x21 && c[1] == 0x12 && c[2] == 0xA4 && c[3] == 0x42;
    var r := XorAddress(a);
    var s := [a[0] ^ 0x21, a[1] ^ 0x12, a[2] ^ 0xA4, a[3] ^ 0x42];
    forall k | 0 <= k < 4
      ensures r[k] == s[k]
    {
      if k == 0 {
      } else if k == 1 {
      } else if k == 2 {
      } else {
        assert k == 3;
      }
    }
  }

  function AttrType(buf: seq<bv8>, i: nat): bv16
    requires i + 1 < |buf|
  {
    Be16(buf[i], buf[i + 1])
  }

  function AttrLength(buf: seq<bv8>, i: nat): nat
    requires i + 3 < |buf|
  {
    Be16(buf[i + 2], buf[i + 3]) as nat
  }

  /**
   * What the attribute whose header starts at `i` contributes: `None` for an
   * attribute the scan skips, a decoded address, or a read past the buffer.
   */
  function AttributeEntry(family: Family, buf: seq<bv8>, i: nat): Result<Option<MappedAddress>, StunError>
    requires i + 3 < |buf|
  {
    if AttrType(buf, i) != XorMappedAddressType then Ok(None)
    else match family
      case IPv4 => IPv4Entry(buf, i)
      case IPv6 => IPv6Entry(buf, i)
  }

  /** An XOR-MAPPED-ADDRESS read by an IPv4 socket: the family field is not consulted. */
  function IPv4Entry(buf: seq<bv8>, i: nat): Result<Option<MappedAddress>, StunError>
    requires i + 3 < |buf|
  {
    if AttrLength(buf, i) < 8 then Ok(None)
    else if i + 11 >= |buf| then Err(ReadPastBuffer)
    else Ok(Some(MappedAddress(XorAddress(buf[i + 8 .. i + 12]), XorPort(Be16(buf[i + 6], buf[i + 7])))))
  }

  /** An XOR-MAPPED-ADDRESS read by an IPv6 socket: only family 0x0002 is decoded. */
  function IPv6Entry(buf: seq<bv8>, i: nat): Result<Option<MappedAddress>, StunError>
    requires i + 3 < |buf|
  {
    if AttrLength(buf, i) < 20 then Ok(None)
    else if i + 5 >= |buf| then Err(ReadPastBuffer)
    else if Be16(buf[i + 4], buf[i + 5]) != FamilyIPv6 then Ok(None)
    else if i + 23 >= |buf| then Err(ReadPastBuffer)
    else Ok(Some(MappedAddress(XorAddress(buf[i + 8 .. i + 24]), XorPort(Be16(buf[i + 6], buf[i + 7])))))
  }

  function Entries(e: Option<MappedAddress>): seq<MappedAddress>
  {
    match e
    case None => []
    case Some(m) => [m]
  }

  /** `found` followed by what a scan result holds; an error stays an error. */
  function Prepend(found: seq<MappedAddress>, r: Result<seq<MappedAddress>, StunError>): Result<seq<MappedAddress>, StunError>
  {
    match r
    case Ok(rest) => Ok(found + rest)
    case Err(e) => Err(e)
  }

  /** The attribute scan from cursor `i` over the first `size` bytes of `buf`. */
  function ScanFrom(family: Family, buf: seq<bv8>, size: nat, i: nat): Result<seq<MappedAddress>, StunError>
    requires size <= |buf|
    decreases size - i
  {
    if i >= size then Ok([])
    else if i + 3 >= |buf| then Err(ReadPastBuffer)
    else match AttributeEntry(family, buf, i)
      case Err(e) => Err(e)
      case Ok(entry) => Prepend(Entries(entry), ScanFrom(family, buf, size, i + 4 + AttrLength(buf, i)))
  }

  lemma CookieInRequest(k: nat)
    requires k < 4
    ensures BindingRequest[4 + k] == MagicCookie[k]
  {
  }

  /** The `for j in 0..16` loop that unmasks an IPv6 address into a zeroed array. */
  method DecodeIPv6Address(buf: array<bv8>, i: nat) returns (ip: seq<bv8>)
    requires i + 24 <= buf.Length
    ensures ip == XorAddress(buf[i + 8 .. i + 24])
  {
    ghost var want := XorAddress(buf[i + 8 .. i + 24]);
    var bytes := new bv8[16](_ => 0);
    for j := 0 to 16
      invariant forall k :: 0 <= k < j ==> bytes[k] == want[k]
    {
      ghost var unmasked := buf[i + 8 + j] ^ MagicCookie[j % 4];
      assert want[j] == unmasked;
      if j < 4 {
        CookieInRequest(j);
        bytes[j] := buf[i + 8 + j] ^ BindingRequest[4 + j];
      } else {
        CookieInRequest(j % 4);
        bytes[j] := buf[i + 8 + j] ^ BindingRequest[4 + j % 4];
      }
      assert bytes[j] == unmasked;
    }
    ip := bytes[..];
  }

  lemma PrependJoin(found: seq<MappedAddress>, more: seq<MappedAddress>, r: Result<seq<MappedAddress>, StunError>)
    ensures Prepend(found, Prepend(more, r)) == Prepend(found + more, r)
  {
    if r.Ok? {
      assert found + (more + r.value) == (found + more) + r.value;
    }
  }

  /** The IPv4 branch of the loop body, for an attribute of type 0x0020 and length `attrLength`. */
  method ReadIPv4(buf: array<bv8>, i: nat, attrLength: nat) returns (entry: Result<Option<MappedAddress>, StunError>)
    requires i + 3 < buf.Length && attrLength == AttrLength(buf[..], i)
    ensures entry == IPv4Entry(buf[..], i)
  {
    if attrLength < 8 {
      return Ok(None);
    }
    if i + 11 >= buf.Length {
      return Err(ReadPastBuffer);
    }
    var port := Be16(buf[i + 6], buf[i + 7]) ^ PortMask;
    var ip := [buf[i + 8] ^ 0x21, buf[i + 9] ^ 0x12, buf[i + 10] ^ 0xA4, buf[i + 11] ^ 0x42];
    ghost var a := buf[..][i + 8 .. i + 12];
    assert a == [buf[i + 8], buf[i + 9], buf[i + 10], buf[i + 11]];
    XorAddressIPv4(a);
    entry := Ok(Some(MappedAddress(ip, port)));
  }

  /** The IPv6 branch of the loop body, for an attribute of type 0x0020 and length `attrLength`. */
  method ReadIPv6(buf: array<bv8>, i: nat, attrLength: nat) returns (entry: Result<Option<MappedAddress>, StunError>)
    requires i + 3 < buf.Length && attrLength == AttrLength(buf[..], i)
    ensures entry == IPv6Entry(buf[..], i)
  {
    if attrLength < 20 {
      return Ok(None);
    }
    if i + 5 >= buf.Length {
      return Err(ReadPastBuffer);
    }
    var fam := Be16(buf[i + 4], buf[i + 5]);
    if fam != FamilyIPv6 {
      return Ok(None);
    }
    if i + 23 >= buf.Length {
      return Err(ReadPastBuffer);
    }
    var port := Be16(buf[i + 6], buf[i + 7]) ^ PortMask;
    var ip := DecodeIPv6Address(buf, i);
    assert buf[i + 8 .. i + 24] == buf[..][i + 8 .. i + 24];
    entry := Ok(Some(MappedAddress(ip, port)));
  }

  /**
   * One iteration of the attribute loop at cursor `i`: read the header and,
   * for an XOR-MAPPED-ADDRESS, decode it the way the socket's family does.
   */
  method ReadAttribute(family: Family, buf: array<bv8>, i: nat) returns (entry: Result<Option<MappedAddress>, StunError>, next: nat)
    requires i + 3 < buf.Length
    ensures entry == AttributeEntry(family, buf[..], i)
    ensures next == i + 4 + AttrLength(buf[..], i)
  {
    var attrType := Be16(buf[i], buf[i + 1]);
    var attrLength := Be16(buf[i + 2], buf[i + 3]) as nat;
    next := i + 4 + attrLength;
    if attrType != XorMappedAddressType {
      entry := Ok(None);
    } else {
      match family
      case IPv4 =>
        entry := ReadIPv4(buf, i, attrLength);
      case IPv6 =>
        entry := ReadIPv6(buf, i, attrLength);
    }
  }

  /** The `while i < size` attribute loop, from offset 20. */
  method ScanAttributes(family: Family, buf: array<bv8>, size: nat) returns (r: Result<seq<MappedAddress>, StunError>)
    requires HeaderSize <= size <= buf.Length
    ensures r == ScanFrom(family, buf[..], size, HeaderSize)
  {
    ghost var b := buf[..];
    var found: seq<MappedAddress> := [];
    var i := HeaderSize;
    ghost var whole := ScanFrom(family, b, size, HeaderSize);
    assert whole.Ok? ==> [] + whole.value == whole.value;
    while i < size
      invariant whole == Prepend(found, ScanFrom(family, b, size, i))
      decreases size - i
    {
      if i + 3 >= buf.Length {
        return Err(ReadPastBuffer);
      }
      var entry, next := ReadAttribute(family, buf, i);
      ScanStep(family, b, size, i);
      match entry
      case Err(e) =>
        return Err(e);
      case Ok(e) =>
        PrependJoin(found, Entries(e), ScanFrom(family, b, size, next));
        found := found + Entries(e);
      i := next;
    }
    assert found + [] == found;
    r := Ok(found);
  }

  /** One scan step: the cursor moves past the attribute's header and value, whatever its type. */
  lemma ScanStep(family: Family, buf: seq<bv8>, size: nat, i: nat)
    requires size <= |buf| && i < size && i + 3 < |buf|
    ensures AttributeEntry(family, buf, i).Err? ==>
              ScanFrom(family, buf, size, i) == Err(AttributeEntry(family, buf, i).error)
    ensures AttributeEntry(family, buf, i).Ok? ==>
              ScanFrom(family, buf, size, i) ==
              Prepend(Entries(AttributeEntry(family, buf, i).value), ScanFrom(family, buf, size, i + 4 + AttrLength(buf, i)))
    ensures AttrType(buf, i) != XorMappedAddressType ==>
              ScanFrom(family, buf, size, i) == ScanFrom(family, buf, size, i + 4 + AttrLength(buf, i))
  {
    var rest := ScanFrom(family, buf, size, i + 4 + AttrLength(buf, i));
    assert rest.Ok? ==> [] + rest.value == rest.value;
  }

  /** IPv4: port and address are unmasked with the cookie; the family field is never read. */
  lemma IPv4Decode(buf: seq<bv8>, i: nat, x: bv8, y: bv8)
    requires i + 11 < |buf|
    requires AttrType(buf, i) == XorMappedAddressType && AttrLength(buf, i) >= 8
    ensures AttributeEntry(IPv4, buf, i).Ok? && AttributeEntry(IPv4, buf, i).value.Some?
    ensures var m := AttributeEntry(IPv4, buf, i).value.value;
            m.port == Be16(buf[i + 6], buf[i + 7]) ^ 0x2112 &&
            m.ip == [buf[i + 8] ^ 0x21, buf[i + 9] ^ 0x12, buf[i + 10] ^ 0xA4, buf[i + 11] ^ 0x42]
    ensures AttributeEntry(IPv4, buf[i + 4 := x][i + 5 := y], i) == AttributeEntry(IPv4, buf, i)
  {
    XorAddressIPv4(buf[i + 8 .. i + 12]);
    var buf' := buf[i + 4 := x][i + 5 := y];
    assert buf'[i + 8 .. i + 12] == buf[i + 8 .. i + 12];
  }

  /** IPv6: decoded only for family 0x0002; byte j is unmasked with cookie byte j mod 4. */
  lemma IPv6Decode(buf: seq<bv8>, i: nat)
    requires i + 23 < |buf|
    requires AttrType(buf, i) == XorMappedAddressType && AttrLength(buf, i) >= 20
    ensures AttributeEntry(IPv6, buf, i).Ok?
    ensures AttributeEntry(IPv6, buf, i).value.Some? <==> Be16(buf[i + 4], buf[i + 5]) == 0x0002
    ensures AttributeEntry(IPv6, buf, i).value.Some? ==>
              var m := AttributeEntry(IPv6, buf, i).value.value;
              m.port == Be16(buf[i + 6], buf[i + 7]) ^ 0x2112 && |m.ip| == 16 &&
              forall j :: 0 <= j < 16 ==> m.ip[j] == buf[i + 8 + j] ^ MagicCookie[j % 4]
  {
  }

  /** Family code and value length of an XOR-MAPPED-ADDRESS as each branch expects it. */
  function FamilyCode(family: Family): bv16
  {
    match family
    case IPv4 => 0x0001
    case IPv6 => FamilyIPv6
  }

  function AddressLength(family: Family): nat
  {
    match family
    case IPv4 => 4
    case IPv6 => 16
  }

  /** An XOR-MAPPED-ADDRESS attribute as a server transmits it (header, family, masked port and address). */
  function EncodeAttribute(family: Family, m: MappedAddress): (bs: seq<bv8>)
    requires |m.ip| == AddressLength(family)
    ensures |bs| == 8 + AddressLength(family)
  {
    Be16Bytes(XorMappedAddressType) + Be16Bytes((4 + AddressLength(family)) as bv16)
      + Be16Bytes(FamilyCode(family)) + Be16Bytes(XorPort(m.port)) + XorAddress(m.ip)
  }

  ghost predicate WellFormed(family: Family, ms: seq<MappedAddress>)
  {
    forall k :: 0 <= k < |ms| ==> |ms[k].ip| == AddressLength(family)
  }

  function EncodeAttributes(family: Family, ms: seq<MappedAddress>): (bs: seq<bv8>)
    requires WellFormed(family, ms)
    ensures |bs| == |ms| * (8 + AddressLength(family))
  {
    if ms == [] then [] else EncodeAttribute(family, ms[0]) + EncodeAttributes(family, ms[1..])
  }

  /** A transmitted attribute decodes back to the address and port it carries. */
  lemma DecodeEncodedAttribute(family: Family, m: MappedAddress, buf: seq<bv8>, i: nat)
    requires |m.ip| == AddressLength(family)
    requires i + 8 + AddressLength(family) <= |buf|
    requires buf[i .. i + 8 + AddressLength(family)] == EncodeAttribute(family, m)
    ensures i + 3 < |buf| && AttrLength(buf, i) == 4 + AddressLength(family)
    ensures AttributeEntry(family, buf, i) == Ok(Some(m))
  {
    var n := 8 + AddressLength(family);
    var e := EncodeAttribute(family, m);
    assert forall k :: 0 <= k < n ==> buf[i + k] == e[k] by {
      forall k | 0 <= k < n ensures buf[i + k] == e[k] {
        assert buf[i .. i + n][k] == buf[i + k];
      }
    }
    Be16RoundTrip(XorMappedAddressType);
    Be16RoundTrip((4 + AddressLength(family)) as bv16);
    Be16RoundTrip(FamilyCode(family));
    Be16RoundTrip(XorPort(m.port));
    XorInvolution(m.ip, m.port);
    assert buf[i + 8 .. i + n] == XorAddress(m.ip) by {
      assert e[8..] == XorAddress(m.ip);
      assert buf[i + 8 .. i + n] == buf[i .. i + n][8..];
    }
    assert AttrType(buf, i) == XorMappedAddressType;
    assert AttrLength(buf, i) == 4 + AddressLength(family);
    assert Be16(buf[i + 6], buf[i + 7]) == XorPort(m.port);
    assert Be16(buf[i + 4], buf[i + 5]) == FamilyCode(family);
  }

  /**
   * A response whose attributes are XOR-MAPPED-ADDRESSes of the socket's
   * family scans to exactly those addresses, one entry each, in order.
   */
  lemma {:induction false} ScanEncoded(family: Family, ms: seq<MappedAddress>, buf: seq<bv8>, size: nat, i: nat)
    requires WellFormed(family, ms)
    requires size <= |buf| && i + |EncodeAttributes(family, ms)| == size
    requires buf[i .. size] == EncodeAttributes(family, ms)
    ensures ScanFrom(family, buf, size, i) == Ok(ms)
    decreases |ms|
  {
    if ms != [] {
      var n := 8 + AddressLength(family);
      var tail := EncodeAttributes(family, ms[1..]);
      assert EncodeAttributes(family, ms) == EncodeAttribute(family, ms[0]) + tail;
      assert buf[i .. i + n] == buf[i .. size][..n];
      DecodeEncodedAttribute(family, ms[0], buf, i);
      assert buf[i + n .. size] == buf[i .. size][n..];
      ScanEncoded(family, ms[1..], buf, size, i + n);
      assert [ms[0]] + ms[1..] == ms;
    }
  }

  /**
   * The cursor ignores the 4-byte padding of section 15 of RFC 5389: when a
   * 5-byte SOFTWARE attribute padded to 8 bytes precedes an IPv4
   * XOR-MAPPED-ADDRESS, the scan reads out of step and decodes nothing,
   * although the attribute at the padded offset 32 would decode.
   */
  lemma PaddedAttributeMisread(buf: seq<bv8>)
    requires |buf| == BufferSize
    requires buf[20..32] == [0x80, 0x22, 0x00, 0x05, 0x70, 0x69, 0x6E, 0x67, 0x6F, 0x00, 0x00, 0x00]
    requires buf[32..36] == [0x00, 0x20, 0x00, 0x08]
    ensures ScanFrom(IPv4, buf, 44, HeaderSize) == Ok([])
    ensures AttributeEntry(IPv4, buf, 32).Ok? && AttributeEntry(IPv4, buf, 32).value.Some?
  {
    assert buf[20] == 0x80 && buf[21] == 0x22 && buf[22] == 0x00 && buf[23] == 0x05 by {
      assert buf[20..32][0] == buf[20];
      assert buf[20..32][1] == buf[21];
      assert buf[20..32][2] == buf[22];
      assert buf[20..32][3] == buf[23];
    }
    assert buf[29] == 0x00 && buf[30] == 0x00 && buf[31] == 0x00 by {
      assert buf[20..32][9] == buf[29];
      assert buf[20..32][10] == buf[30];
      assert buf[20..32][11] == buf[31];
    }
    assert buf[32] == 0x00 && buf[33] == 0x20 && buf[34] == 0x00 && buf[35] == 0x08 by {
      assert buf[32..36][0] == buf[32];
      assert buf[32..36][1] == buf[33];
      assert buf[32..36][2] == buf[34];
      assert buf[32..36][3] == buf[35];
    }
    MisreadScan(buf);
    assert AttrType(buf, 32) == XorMappedAddressType && AttrLength(buf, 32) == 8;
  }

  /** The unpadded cursor of `PaddedAttributeMisread`: 20, then 29, then 33, then past 44. */
  lemma MisreadScan(buf: seq<bv8>)
    requires |buf| == BufferSize
    requires buf[20] == 0x80 && buf[21] == 0x22 && buf[22] == 0x00 && buf[23] == 0x05
    requires buf[29] == 0x00 && buf[30] == 0x00 && buf[31] == 0x00 && buf[32] == 0x00
    requires buf[33] == 0x20 && buf[34] == 0x00 && buf[35] == 0x08
    ensures ScanFrom(IPv4, buf, 44, HeaderSize) == Ok([])
  {
    SkipAttribute(buf, 20, 0x80, 0x22, 0x00, 0x05);
    SkipAttribute(buf, 29, 0x00, 0x00, 0x00, 0x00);
    SkipAttribute(buf, 33, 0x20, 0x00, 0x08, buf[36]);
    LongLength(buf[36]);
  }

  /** An IPv4 scan passes over an attribute that is not XOR-MAPPED-ADDRESS. */
  lemma SkipAttribute(buf: seq<bv8>, i: nat, t0: bv8, t1: bv8, l0: bv8, l1: bv8)
    requires |buf| == BufferSize && i < 44
    requires buf[i] == t0 && buf[i + 1] == t1 && buf[i + 2] == l0 && buf[i + 3] == l1
    requires Be16(t0, t1) != XorMappedAddressType
    ensures ScanFrom(IPv4, buf, 44, i) == ScanFrom(IPv4, buf, 44, i + 4 + Be16(l0, l1) as nat)
  {
    ScanStep(IPv4, buf, 44, i);
  }

  /** A length field whose high byte is 0x08 is at least 2048. */
  lemma LongLength(lo: bv8)
    ensures Be16(0x08, lo) as nat >= 0x0800
  {
    assert Be16(0x08, lo) >= 0x0800;
  }

  /** What one candidate contributes to its family's list, or the error that aborts the call. */
  function CandidateEntries(c: Candidate): Result<seq<MappedAddress>, StunError>
  {
    match c.exchange
    case SetupFailed => Err(SocketSetupFailed)
    case SendFailed => Ok([])
    case RecvFailed => Ok([])
    case Response(payload) =>
      var size := Received(payload, BufferSize);
      if size < HeaderSize then Ok([])
      else ScanFrom(c.family, ReceiveBuffer(payload, BufferSize), size, HeaderSize)
  }

  /** Round trip through a whole Binding Response: header followed by encoded attributes. */
  lemma ResponseRoundTrip(family: Family, header: seq<bv8>, ms: seq<MappedAddress>)
    requires |header| == HeaderSize && WellFormed(family, ms)
    requires HeaderSize + |EncodeAttributes(family, ms)| <= BufferSize
    ensures CandidateEntries(Candidate(family, Response(header + EncodeAttributes(family, ms)))) == Ok(ms)
  {
    var payload := header + EncodeAttributes(family, ms);
    var buf := ReceiveBuffer(payload, BufferSize);
    assert buf[HeaderSize .. |payload|] == EncodeAttributes(family, ms) by {
      assert forall k :: HeaderSize <= k < |payload| ==> buf[k] == payload[k];
    }
    ScanEncoded(family, ms, buf, |payload|, HeaderSize);
  }

  function Collect(acc: PublicAddresses, family: Family, found: seq<MappedAddress>): PublicAddresses
  {
    match family
    case IPv4 => acc.(v4 := acc.v4 + found)
    case IPv6 => acc.(v6 := acc.v6 + found)
  }

  /** The candidate loop: per-candidate results accumulated in order, the first error aborting. */
  function Resolve(cands: seq<Candidate>): Result<PublicAddresses, StunError>
    decreases |cands|
  {
    if cands == [] then Ok(PublicAddresses([], []))
    else
      var last := cands[|cands| - 1];
      match Resolve(cands[..|cands| - 1])
      case Err(e) => Err(e)
      case Ok(acc) =>
        match CandidateEntries(last)
        case Err(e) => Err(e)
        case Ok(found) => Ok(Collect(acc, last.family, found))
  }

  /** The whole operation, `None` standing for a host name that did not resolve. */
  function PublicAddressesOf(lookup: Option<seq<Candidate>>): Result<PublicAddresses, StunError>
  {
    match lookup
    case None => Err(LookupFailed)
    case Some(cands) => Resolve(cands)
  }

  /** Once a prefix of the candidates has failed, the rest change nothing. */
  lemma {:induction false} ResolveErrSticks(cands: seq<Candidate>, k: nat)
    requires k <= |cands| && Resolve(cands[..k]).Err?
    ensures Resolve(cands) == Resolve(cands[..k])
    decreases |cands| - k
  {
    if k == |cands| {
      assert cands[..k] == cands;
    } else {
      assert cands[..k + 1][..k] == cands[..k];
      ResolveErrSticks(cands, k + 1);
    }
  }

  /** A candidate whose setup failed, or whose response made the scan read past the buffer, ends the call with that error. */
  lemma AbortingCandidate(pre: seq<Candidate>, c: Candidate, post: seq<Candidate>)
    requires Resolve(pre).Ok? && CandidateEntries(c).Err?
    ensures Resolve(pre + [c] + post) == Err(CandidateEntries(c).error)
  {
    var all := pre + [c] + post;
    assert all[..|pre| + 1][..|pre|] == pre;
    assert all[..|pre| + 1][|pre|] == c;
    ResolveErrSticks(all, |pre| + 1);
  }

  /** A candidate whose send or receive failed, or whose response is under 20 bytes, is skipped. */
  lemma {:induction false} FailedCandidateSkipped(pre: seq<Candidate>, c: Candidate, post: seq<Candidate>)
    requires c.exchange.SendFailed? || c.exchange.RecvFailed? || (c.exchange.Response? && |c.exchange.payload| < HeaderSize)
    ensures Resolve(pre + [c] + post) == Resolve(pre + post)
    decreases |post|
  {
    if post == [] {
      assert (pre + [c] + post)[..|pre|] == pre;
      assert pre + post == pre;
      var r := Resolve(pre);
      assert r.Ok? ==> Collect(r.value, c.family, []) == r.value;
    } else {
      var post' := post[..|post| - 1];
      var all := pre + [c] + post;
      assert all[..|all| - 1] == pre + [c] + post';
      assert (pre + post)[..|pre + post| - 1] == pre + post';
      FailedCandidateSkipped(pre, c, post');
    }
  }

  /** Reference definition: every entry of one family's candidates, head first. */
  function Gather(cands: seq<Candidate>, family: Family): seq<MappedAddress>
  {
    if cands == [] then []
    else
      var c := cands[0];
      (if c.family == family && CandidateEntries(c).Ok? then CandidateEntries(c).value else [])
        + Gather(cands[1..], family)
  }

  lemma {:induction false} GatherAppend(a: seq<Candidate>, b: seq<Candidate>, family: Family)
    ensures Gather(a + b, family) == Gather(a, family) + Gather(b, family)
  {
    if a == [] {
      assert a + b == b;
    } else {
      assert (a + b)[1..] == a[1..] + b;
      GatherAppend(a[1..], b, family);
    }
  }

  /**
   * The call succeeds iff no candidate fails hard, and then the IPv4 list
   * holds exactly the entries of the IPv4 candidates and the IPv6 list those
   * of the IPv6 candidates, in candidate order.
   */
  lemma {:induction false} ResolveByFamily(cands: seq<Candidate>)
    ensures Resolve(cands).Ok? <==> forall k :: 0 <= k < |cands| ==> CandidateEntries(cands[k]).Ok?
    ensures Resolve(cands).Ok? ==> Resolve(cands).value == PublicAddresses(Gather(cands, IPv4), Gather(cands, IPv6))
    decreases |cands|
  {
    if cands != [] {
      var n := |cands| - 1;
      var init, last := cands[..n], cands[n];
      ResolveByFamily(init);
      assert init + [last] == cands;
      GatherAppend(init, [last], IPv4);
      GatherAppend(init, [last], IPv6);
      assert forall k :: 0 <= k < n ==> init[k] == cands[k];
    }
  }

  /** `Stun::resolve_public_address`: one socket exchange per candidate, results split by family. */
  method ResolvePublicAddress(lookup: Option<seq<Candidate>>) returns (r: Result<PublicAddresses, StunError>)
    ensures r == PublicAddressesOf(lookup)
  {
    if lookup.None? {
      return Err(LookupFailed);
    }
    var cands := lookup.value;
    var v4: seq<MappedAddress> := [];
    var v6: seq<MappedAddress> := [];
    var k := 0;
    while k < |cands|
      invariant k <= |cands|
      invariant Resolve(cands[..k]) == Ok(PublicAddresses(v4, v6))
    {
      var c := cands[k];
      assert cands[..k + 1][..k] == cands[..k];
      assert v4 + [] == v4 && v6 + [] == v6;
      if c.exchange.SetupFailed? {
        ResolveErrSticks(cands, k + 1);
        return Err(SocketSetupFailed);
      }
      if c.exchange.Response? {
        var buf := new bv8[BufferSize](_ => 0);
        ghost var zeros := buf[..];
        var size := RecvInto(buf, c.exchange.payload);
        ReceivedIntoZeros(zeros, buf[..], c.exchange.payload, size);
        if size >= HeaderSize {
          var scanned := ScanAttributes(c.family, buf, size);
          if scanned.Err? {
            ResolveErrSticks(cands, k + 1);
            return Err(scanned.error);
          }
          match c.family
          case IPv4 => v4 := v4 + scanned.value;
          case IPv6 => v6 := v6 + scanned.value;
        }
      }
      k := k + 1;
    }
    assert cands[..k] == cands;
    r := Ok(PublicAddresses(v4, v6));
  }
}
