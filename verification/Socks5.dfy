/** Bytes, addresses and ports as internal/socks5 puts them on the wire. */
module Wire {
  import opened Common

  type Bytes = seq<byte>
  type Port = x: int | 0 <= x < 0x1_0000

  const VERSION: byte := 0x05
  const CMD_CONNECT: byte := 0x01
  const CMD_UDP_ASSOCIATE: byte := 0x03
  const ATYP_IPV4: byte := 0x01
  const ATYP_DOMAIN: byte := 0x03
  const ATYP_IPV6: byte := 0x04

  /** `binary.BigEndian.PutUint16` and `Uint16`. */
  function PutPort(p: Port): (b: Bytes)
    ensures |b| == 2 && GetPort(b) == p
  {
    [p / 256, p % 256]
  }

  function GetPort(b: Bytes): Port
    requires |b| == 2
  {
    var hi: int, lo: int := b[0], b[1];
    hi * 256 + lo
  }

  /** The byte sequence of a port: the high byte first. */
  lemma PortBytes(p: Port, b: Bytes)
    ensures PutPort(p) == [p / 256, p % 256]
    ensures |b| == 2 ==> var hi: int, lo: int := b[0], b[1]; GetPort(b) == 256 * hi + lo
  {
  }

  lemma PortRoundTrip(b: Bytes)
    requires |b| == 2
    ensures PutPort(GetPort(b)) == b
  {
  }

  /** A domain name behind its length byte. */
  function DomainField(host: Bytes): Bytes
    requires |host| <= 255
  {
    var n: byte := |host|;
    [n] + host
  }

  const MAPPED_PREFIX: Bytes := [0, 0, 0, 0, 0, 0, 0, 0, 0, 0, 0xff, 0xff]

  /** A 16-byte address that embeds an IPv4 address. */
  predicate Mapped(ip: Bytes) {
    |ip| == 16 && ip[..12] == MAPPED_PREFIX
  }

  /** Ten zeros, two bytes of ones and an IPv4 address. */
  ghost predicate EmbedsV4(ip: Bytes) {
    |ip| == 16 && (forall i :: 0 <= i < 10 ==> ip[i] == 0) && ip[10] == 0xff && ip[11] == 0xff
  }

  /** What is written for an address: 1 and four bytes, or 4 and sixteen bytes that embed no IPv4 address. */
  lemma CanonicalForm(ip: Bytes)
    ensures |ip| == 4 ==> Canonical(ip) == Some((1, ip))
    ensures EmbedsV4(ip) ==> Canonical(ip) == Some((1, ip[12..]))
    ensures |ip| == 16 && !EmbedsV4(ip) ==> Canonical(ip) == Some((4, ip))
    ensures |ip| != 4 && |ip| != 16 ==> Canonical(ip) == None
    ensures Mapped(ip) <==> EmbedsV4(ip)
  {
    if |ip| == 16 {
      assert EmbedsV4(ip) <==> ip[..12] == MAPPED_PREFIX by {
        if EmbedsV4(ip) {
          assert forall i :: 0 <= i < 12 ==> ip[..12][i] == MAPPED_PREFIX[i];
        } else {
          assert forall i :: 0 <= i < 12 ==> ip[i] == ip[..12][i];
        }
      }
    }
  }

  /** `net.IP.To4`. */
  function To4(ip: Bytes): Option<Bytes> {
    if |ip| == 4 then Some(ip)
    else if Mapped(ip) then Some(ip[12..])
    else None
  }

  /** `net.IP.To16`. */
  function To16(ip: Bytes): Option<Bytes> {
    if |ip| == 4 then Some(MAPPED_PREFIX + ip)
    else if |ip| == 16 then Some(ip)
    else None
  }

  /** The address type and bytes under which both encoders write an IP; None for an invalid one. */
  function Canonical(ip: Bytes): (r: Option<(byte, Bytes)>)
    ensures r.None? <==> |ip| != 4 && |ip| != 16
    ensures r.Some? ==>
              || (r.value.0 == ATYP_IPV4 && |r.value.1| == 4)
              || (r.value.0 == ATYP_IPV6 && |r.value.1| == 16 && !Mapped(r.value.1))
  {
    if To4(ip).Some? then Some((ATYP_IPV4, To4(ip).value))
    else if To16(ip).Some? then Some((ATYP_IPV6, To16(ip).value))
    else None
  }

  lemma SliceOfRest(input: Bytes, pos: nat, a: nat, b: nat)
    requires pos <= |input| && a <= b <= |input| - pos
    ensures input[pos..][a..b] == input[pos + a..pos + b]
  {
  }

  lemma Glue(input: Bytes, a: nat, b: nat, c: nat)
    requires a <= b <= c <= |input|
    ensures input[a..b] + input[b..c] == input[a..c]
  {
  }

  /** A connection, read front to back. */
  class Reader {
    const input: Bytes
    var pos: nat

    ghost predicate Valid()
      reads this
    {
      pos <= |input|
    }

    constructor (input: Bytes)
      ensures Valid() && this.input == input && pos == 0
    {
      this.input, pos := input, 0;
    }

    /** `io.ReadFull`: on a short read what is left is consumed. */
    method ReadFull(n: nat) returns (buf: Option<Bytes>)
      requires Valid()
      modifies this
      ensures Valid()
      ensures buf == if old(pos) + n <= |input| then Some(input[old(pos)..old(pos) + n]) else None
      ensures pos == if buf.Some? then old(pos) + n else |input|
    {
      if pos + n <= |input| {
        buf := Some(input[pos..pos + n]);
        pos := pos + n;
      } else {
        buf := None;
        pos := |input|;
      }
    }
  }
}

/** The UDP request header of section 7 of RFC 1928 (internal/socks5/udp.go). */
module UdpCodec {
  import opened Common
  import opened Wire

  datatype Error =
    | TooShort | RsvNonzero | Fragmented | Ipv6Truncated | EmptyDomain | DomainTruncated | BadAtyp
    | InvalidIP | DomainTooLong | NoDestination

  datatype Datagram = Datagram(atyp: byte, host: Bytes, ip: Option<Bytes>, port: Port, data: Bytes, headerLen: nat)

  /** The datagram whose address ends, and whose port starts, at `off`. */
  function Rest(pkt: Bytes, atyp: byte, host: Bytes, ip: Option<Bytes>, off: nat): Datagram
    requires off + 2 <= |pkt|
  {
    Datagram(atyp, host, ip, GetPort(pkt[off..off + 2]), pkt[off + 2..], off + 2)
  }

  /** What decoding means; `text` is the printed form of an IP address. */
  function Decode(pkt: Bytes, text: Bytes -> Bytes): Result<Datagram, Error> {
    if |pkt| < 10 then Err(TooShort)
    else if pkt[0] != 0 || pkt[1] != 0 then Err(RsvNonzero)
    else if pkt[2] != 0 then Err(Fragmented)
    else if pkt[3] == ATYP_IPV4 then Ok(Rest(pkt, ATYP_IPV4, text(pkt[4..8]), Some(pkt[4..8]), 8))
    else if pkt[3] == ATYP_IPV6 then
      if |pkt| < 22 then Err(Ipv6Truncated)
      else Ok(Rest(pkt, ATYP_IPV6, text(pkt[4..20]), Some(pkt[4..20]), 20))
    else if pkt[3] == ATYP_DOMAIN then
      var n: nat := pkt[4];
      if n == 0 then Err(EmptyDomain)
      else if |pkt| < 5 + n + 2 then Err(DomainTruncated)
      else Ok(Rest(pkt, ATYP_DOMAIN, pkt[5..5 + n], None, 5 + n))
    else Err(BadAtyp)
  }

  /**
   `DecodeUDPDatagram`. With at least ten bytes the checks for a truncated IPv4
   address and a missing length byte cannot fail.
   */
  method DecodeUDPDatagram(pkt: Bytes, text: Bytes -> Bytes) returns (r: Result<Datagram, Error>)
    ensures r == Decode(pkt, text)
  {
    if |pkt| < 10 {
      return Err(TooShort);
    }
    if pkt[0] != 0 || pkt[1] != 0 {
      return Err(RsvNonzero);
    }
    if pkt[2] != 0 {
      return Err(Fragmented);
    }
    var off: nat := 4;
    var host: Bytes := [];
    var ip: Option<Bytes> := None;
    if pkt[3] == ATYP_IPV4 {
      ip := Some(pkt[off..off + 4]);
      host := text(ip.value);
      off := off + 4;
    } else if pkt[3] == ATYP_IPV6 {
      if |pkt| < off + 16 + 2 {
        return Err(Ipv6Truncated);
      }
      ip := Some(pkt[off..off + 16]);
      host := text(ip.value);
      off := off + 16;
    } else if pkt[3] == ATYP_DOMAIN {
      var dl: nat := pkt[off];
      off := off + 1;
      if dl == 0 {
        return Err(EmptyDomain);
      }
      if |pkt| < off + dl + 2 {
        return Err(DomainTruncated);
      }
      host := pkt[off..off + dl];
      off := off + dl;
    } else {
      return Err(BadAtyp);
    }
    var port := GetPort(pkt[off..off + 2]);
    off := off + 2;
    return Ok(Datagram(pkt[3], host, ip, port, pkt[off..], off));
  }

  /** The address type and the address bytes an encoder writes for a destination. */
  function Destination(ip: Option<Bytes>, host: Bytes): Result<(byte, Bytes), Error> {
    if ip.Some? then
      if Canonical(ip.value).Some? then Ok(Canonical(ip.value).value) else Err(InvalidIP)
    else if host != [] then
      if |host| > 255 then Err(DomainTooLong) else Ok((ATYP_DOMAIN, DomainField(host)))
    else Err(NoDestination)
  }

  function Encode(ip: Option<Bytes>, host: Bytes, port: Port, data: Bytes): Result<Bytes, Error> {
    var d := Destination(ip, host);
    if d.Err? then Err(d.error)
    else Ok([0, 0, 0, d.value.0] + d.value.1 + PutPort(port) + data)
  }

  method EncodeUDPDatagram(dstIP: Option<Bytes>, dstHost: Bytes, dstPort: Port, data: Bytes)
    returns (r: Result<Bytes, Error>)
    ensures r == Encode(dstIP, dstHost, dstPort, data)
  {
    var atyp: byte;
    var addr: Bytes;
    if dstIP.Some? {
      var v4, v6 := To4(dstIP.value), To16(dstIP.value);
      if v4.Some? {
        atyp, addr := ATYP_IPV4, v4.value;
      } else if v6.Some? {
        atyp, addr := ATYP_IPV6, v6.value;
      } else {
        return Err(InvalidIP);
      }
    } else if dstHost != [] {
      if |dstHost| > 255 {
        return Err(DomainTooLong);
      }
      atyp, addr := ATYP_DOMAIN, DomainField(dstHost);
    } else {
      return Err(NoDestination);
    }
    var out := [0, 0, 0, atyp];
    out := out + addr;
    out := out + PutPort(dstPort);
    out := out + data;
    return Ok(out);
  }

  /** The wire form of a packet: two reserved bytes, fragment 0, address type, address, port, payload. */
  lemma EncodedForm(ip: Option<Bytes>, host: Bytes, port: Port, data: Bytes)
    ensures var r, tail := Encode(ip, host, port, data), [port / 256, port % 256] + data;
            if ip.Some? then
              && (r == Err(InvalidIP) <==> |ip.value| != 4 && |ip.value| != 16)
              && (|ip.value| == 4 ==> r == Ok([0, 0, 0, 1] + ip.value + tail))
              && (EmbedsV4(ip.value) ==> r == Ok([0, 0, 0, 1] + ip.value[12..] + tail))
              && (|ip.value| == 16 && !EmbedsV4(ip.value) ==> r == Ok([0, 0, 0, 4] + ip.value + tail))
            else
              && (r == Err(NoDestination) <==> host == [])
              && (r == Err(DomainTooLong) <==> |host| > 255)
              && (0 < |host| <= 255 ==> r == Ok([0, 0, 0, 3, |host|] + host + tail))
  {
    if ip.Some? {
      CanonicalForm(ip.value);
    }
    var d := Destination(ip, host);
    if d.Ok? {
      var tail := [port / 256, port % 256] + data;
      assert Encode(ip, host, port, data).value == [0, 0, 0, d.value.0] + d.value.1 + tail;
      if ip.None? {
        var n: byte := |host|;
        assert [0, 0, 0, 3] + ([n] + host) + tail == [0, 0, 0, 3, n] + host + tail;
      }
    }
  }

  /** The length of the header of a packet that starts like `pkt`, by its address type. */
  function HeaderLen(pkt: Bytes): nat
    requires |pkt| >= 5
  {
    var n: nat := pkt[4];
    if pkt[3] == 1 then 10 else if pkt[3] == 4 then 22 else 7 + n
  }

  /** Which packets are accepted, what is read from them, and which error each of the others gives. */
  lemma DecodedForm(pkt: Bytes, text: Bytes -> Bytes)
    ensures var r := Decode(pkt, text);
            if |pkt| < 10 then r == Err(TooShort)
            else if pkt[0] != 0 || pkt[1] != 0 then r == Err(RsvNonzero)
            else if pkt[2] != 0 then r == Err(Fragmented)
            else if pkt[3] != 1 && pkt[3] != 3 && pkt[3] != 4 then r == Err(BadAtyp)
            else if pkt[3] == 3 && pkt[4] == 0 then r == Err(EmptyDomain)
            else if |pkt| < HeaderLen(pkt) then r == Err(if pkt[3] == 3 then DomainTruncated else Ipv6Truncated)
            else
              var h := HeaderLen(pkt);
              var hi: int, lo: int := pkt[h - 2], pkt[h - 1];
              && r.Ok? && r.value.atyp == pkt[3] && r.value.headerLen == h
              && r.value.port == 256 * hi + lo && r.value.data == pkt[h..]
              && (pkt[3] == 3 ==> r.value.ip == None && r.value.host == pkt[5..h - 2])
              && (pkt[3] != 3 ==> r.value.ip == Some(pkt[4..h - 2]) && r.value.host == text(pkt[4..h - 2]))
  {
  }

  /** The destination a decoder should see for what an encoder was given. */
  ghost predicate SameDestination(dg: Datagram, ip: Option<Bytes>, host: Bytes, text: Bytes -> Bytes) {
    if ip.Some? then
      dg.ip.Some? && Canonical(ip.value) == Some((dg.atyp, dg.ip.value)) && dg.host == text(dg.ip.value)
    else dg.atyp == ATYP_DOMAIN && dg.ip == None && dg.host == host
  }

  /** Only a short domain with almost no payload makes a packet too short to decode. */
  lemma ShortPackets(ip: Option<Bytes>, host: Bytes, port: Port, data: Bytes)
    requires Encode(ip, host, port, data).Ok?
    ensures |Encode(ip, host, port, data).value| < 10 <==> ip.None? && |host| + |data| < 3
  {
  }

  /** Decoding undoes encoding exactly for the packets of at least ten bytes. */
  lemma DecodeEncoded(ip: Option<Bytes>, host: Bytes, port: Port, data: Bytes, text: Bytes -> Bytes)
    requires Encode(ip, host, port, data).Ok?
    ensures var pkt := Encode(ip, host, port, data).value;
            var r := Decode(pkt, text);
            && (r.Ok? <==> |pkt| >= 10)
            && (r.Ok? ==> && SameDestination(r.value, ip, host, text)
                          && r.value.port == port && r.value.data == data
                          && r.value.headerLen == |pkt| - |data|)
  {
    var pkt, d := Encode(ip, host, port, data).value, Destination(ip, host).value;
    var off := 4 + |d.1|;
    assert pkt[3] == d.0 && pkt[4..off] == d.1;
    assert pkt[off..off + 2] == PutPort(port) && pkt[off + 2..] == data;
    if ip.None? {
      assert pkt[4] == |host| && pkt[5..off] == host;
    }
  }

  /**
   Encoding what was decoded rebuilds the packet, for every accepted packet except
   those that carry an IPv4-mapped IPv6 address.
   */
  lemma EncodeDecoded(pkt: Bytes, text: Bytes -> Bytes)
    requires Decode(pkt, text).Ok?
    ensures var dg := Decode(pkt, text).value;
            Encode(dg.ip, dg.host, dg.port, dg.data) == Ok(pkt) <==> !(pkt[3] == ATYP_IPV6 && Mapped(pkt[4..20]))
  {
    var dg := Decode(pkt, text).value;
    var off := dg.headerLen - 2;
    PortRoundTrip(pkt[off..off + 2]);
    assert pkt == [0, 0, 0, pkt[3]] + pkt[4..off] + pkt[off..off + 2] + pkt[off + 2..];
    if dg.ip.None? {
      assert pkt[4..off] == [pkt[4]] + pkt[5..off];
    } else if pkt[3] == ATYP_IPV6 && Mapped(pkt[4..20]) {
      assert Encode(dg.ip, dg.host, dg.port, dg.data).value[3] == ATYP_IPV4;
    }
  }
}

/** The requests of section 4 of RFC 1928 (internal/socks5/protocol.go). */
module RequestCodec {
  import opened Common
  import opened Wire

  const REP_GENERAL_FAILURE: byte := 0x01
  const REP_COMMAND_NOT_SUPPORTED: byte := 0x07
  const REP_ADDR_TYPE_NOT_SUPPORTED: byte := 0x08

  /** `raw` includes the length byte of a domain; `dstLabel` is the destination for people. */
  datatype Request = Request(cmd: byte, atyp: byte, raw: Bytes, port: Port, dstLabel: Bytes)

  /** A request and the bytes it took, or the reply code written before giving up, if any. */
  datatype Outcome = Parsed(req: Request, consumed: nat) | Failed(reply: Option<byte>)

  /** The length of the address field that starts `rest`, if it is of a known type and not empty. */
  function AddrLen(atyp: byte, rest: Bytes): Option<nat> {
    if atyp == ATYP_IPV4 then Some(4)
    else if atyp == ATYP_IPV6 then Some(16)
    else if atyp == ATYP_DOMAIN && rest != [] && rest[0] != 0 then
      var n: nat := rest[0];
      Some(1 + n)
    else None
  }

  function LabelOf(atyp: byte, raw: Bytes, text: Bytes -> Bytes): Bytes {
    if atyp == ATYP_DOMAIN && raw != [] then raw[1..] else text(raw)
  }

  function Parse(input: Bytes, text: Bytes -> Bytes): Outcome {
    if |input| < 4 || input[0] != VERSION then Failed(None)
    else if input[2] != 0 then Failed(Some(REP_GENERAL_FAILURE))
    else if input[1] != CMD_CONNECT && input[1] != CMD_UDP_ASSOCIATE then Failed(Some(REP_COMMAND_NOT_SUPPORTED))
    else
      var len := AddrLen(input[3], input[4..]);
      if len.None? || |input| < 4 + len.value + 2 then Failed(Some(REP_ADDR_TYPE_NOT_SUPPORTED))
      else
        var off := 4 + len.value;
        var raw := input[4..off];
        Parsed(Request(input[1], input[3], raw, GetPort(input[off..off + 2]), LabelOf(input[3], raw, text)), off + 2)
  }

  /** The request `clientRequest` writes to the upstream. */
  function Print(cmd: byte, atyp: byte, raw: Bytes, port: Port): Bytes {
    [VERSION, cmd, 0, atyp] + raw + PutPort(port)
  }

  function PrintRequest(req: Request): Bytes {
    Print(req.cmd, req.atyp, req.raw, req.port)
  }

  /** The address field of `readDest`. */
  method ReadAddr(br: Reader, atyp: byte) returns (raw: Option<Bytes>)
    requires br.Valid()
    modifies br
    ensures br.Valid()
    ensures var start := old(br.pos);
            var len := AddrLen(atyp, br.input[start..]);
            if len.Some? && start + len.value <= |br.input| then
              raw == Some(br.input[start..start + len.value]) && br.pos == start + len.value
            else raw == None
  {
    raw := None;
    if atyp == ATYP_IPV4 {
      raw := br.ReadFull(4);
    } else if atyp == ATYP_IPV6 {
      raw := br.ReadFull(16);
    } else if atyp == ATYP_DOMAIN {
      ghost var start := br.pos;
      var lb := br.ReadFull(1);
      if lb.Some? && lb.value[0] != 0 {
        var n: nat := lb.value[0];
        var dom := br.ReadFull(n);
        if dom.Some? {
          raw := Some(lb.value + dom.value);
          Glue(br.input, start, start + 1, start + 1 + n);
        }
      }
    }
  }

  /** `readDest`: the address field and the port. */
  method ReadDest(br: Reader, atyp: byte) returns (r: Option<(Bytes, Port)>)
    requires br.Valid()
    modifies br
    ensures br.Valid()
    ensures var start := old(br.pos);
            var len := AddrLen(atyp, br.input[start..]);
            if len.Some? && start + len.value + 2 <= |br.input| then
              var off := start + len.value;
              r == Some((br.input[start..off], GetPort(br.input[off..off + 2]))) && br.pos == off + 2
            else r == None
  {
    var raw := ReadAddr(br, atyp);
    if raw.None? {
      return None;
    }
    var port := br.ReadFull(2);
    if port.None? {
      return None;
    }
    return Some((raw.value, GetPort(port.value)));
  }

  method ReadRequest(br: Reader, text: Bytes -> Bytes) returns (r: Outcome)
    requires br.Valid()
    modifies br
    ensures br.Valid()
    ensures r == Parse(br.input[old(br.pos)..], text)
    ensures r.Parsed? ==> br.pos == old(br.pos) + r.consumed
  {
    ghost var start := br.pos;
    ghost var rest := br.input[start..];
    var hdr := br.ReadFull(4);
    if hdr.None? || hdr.value[0] != VERSION {
      return Failed(None);
    }
    if hdr.value[2] != 0 {
      return Failed(Some(REP_GENERAL_FAILURE));
    }
    var cmd, atyp := hdr.value[1], hdr.value[3];
    if cmd != CMD_CONNECT && cmd != CMD_UDP_ASSOCIATE {
      return Failed(Some(REP_COMMAND_NOT_SUPPORTED));
    }
    assert br.input[br.pos..] == rest[4..] && br.pos == start + 4;
    assert rest[1] == cmd && rest[3] == atyp;
    var dest := ReadDest(br, atyp);
    if dest.None? {
      return Failed(Some(REP_ADDR_TYPE_NOT_SUPPORTED));
    }
    var (raw, port) := dest.value;
    ghost var off := 4 + |raw|;
    SliceOfRest(br.input, start, 4, off);
    SliceOfRest(br.input, start, off, off + 2);
    return Parsed(Request(cmd, atyp, raw, port, LabelOf(atyp, raw, text)), 4 + |raw| + 2);
  }

  /** The length of a request that starts like `input`, by its address type. */
  function RequestLen(input: Bytes): nat
    requires |input| >= 4
  {
    if input[3] == 1 then 10 else if input[3] == 4 then 22
    else if |input| == 4 then 7
    else
      var n: nat := input[4];
      7 + n
  }

  /**
   The wire form of a request: version 5, command 1 or 3, a zero, address type 1, 3 or
   4, address, port; and the reply code that each other input is answered with.
   */
  lemma ParsedForm(input: Bytes, text: Bytes -> Bytes)
    ensures var r := Parse(input, text);
            if |input| < 4 || input[0] != 5 then r == Failed(None)
            else if input[2] != 0 then r == Failed(Some(1))
            else if input[1] != 1 && input[1] != 3 then r == Failed(Some(7))
            else if || (input[3] != 1 && input[3] != 3 && input[3] != 4)
                    || (input[3] == 3 && |input| > 4 && input[4] == 0)
                    || |input| < RequestLen(input) then r == Failed(Some(8))
            else
              var n := RequestLen(input);
              var hi: int, lo: int := input[n - 2], input[n - 1];
              && r.Parsed? && r.consumed == n
              && r.req.cmd == input[1] && r.req.atyp == input[3] && r.req.raw == input[4..n - 2]
              && r.req.port == 256 * hi + lo
              && r.req.dstLabel == if input[3] == 3 then input[5..n - 2] else text(input[4..n - 2])
  {
    if |input| > 4 {
      assert input[4..][0] == input[4];
    }
    if Parse(input, text).Parsed? {
      var off := Parse(input, text).consumed - 2;
      assert input[off..off + 2] == [input[off], input[off + 1]];
      assert input[4..off][1..] == input[5..off];
    }
  }

  /** The bytes of a request: version 5, command, zero, address type, address, and the port with its high byte first. */
  lemma PrintedForm(req: Request)
    ensures PrintRequest(req) == [5, req.cmd, 0, req.atyp] + req.raw + [req.port / 256, req.port % 256]
  {
  }

  /** A request the parser can produce. */
  ghost predicate WellFormed(req: Request, text: Bytes -> Bytes) {
    && (req.cmd == CMD_CONNECT || req.cmd == CMD_UDP_ASSOCIATE)
    && AddrLen(req.atyp, req.raw) == Some(|req.raw|)
    && req.dstLabel == LabelOf(req.atyp, req.raw, text)
  }

  /** The request forwarded upstream is byte for byte what was consumed from the client. */
  lemma ForwardedIsConsumed(input: Bytes, text: Bytes -> Bytes)
    requires Parse(input, text).Parsed?
    ensures var p := Parse(input, text);
            && p.consumed <= |input|
            && PrintRequest(p.req) == input[..p.consumed]
            && WellFormed(p.req, text)
  {
    var p := Parse(input, text);
    var off := p.consumed - 2;
    PortRoundTrip(input[off..off + 2]);
    assert input[..p.consumed] == [input[0], input[1], input[2], input[3]] + input[4..off] + input[off..off + 2];
  }

  /** Parsing what was printed gives the request back, whatever follows it. */
  lemma ParsePrinted(req: Request, rest: Bytes, text: Bytes -> Bytes)
    requires WellFormed(req, text)
    ensures Parse(PrintRequest(req) + rest, text) == Parsed(req, |PrintRequest(req)|)
  {
    var input, off := PrintRequest(req) + rest, 4 + |req.raw|;
    assert input[4..] == req.raw + (PutPort(req.port) + rest);
    assert input[4..off] == req.raw && input[off..off + 2] == PutPort(req.port);
  }

  /**
   Requests are self-delimiting: the outcome depends on the consumed bytes only,
   and no shorter prefix of them is a request.
   */
  lemma SelfDelimiting(input: Bytes, rest: Bytes, cut: nat, text: Bytes -> Bytes)
    requires Parse(input, text).Parsed?
    ensures var p := Parse(input, text);
            && Parse(input[..p.consumed] + rest, text) == p
            && (cut < p.consumed ==> Parse(input[..cut], text).Failed?)
  {
    ForwardedIsConsumed(input, text);
    var p := Parse(input, text);
    ParsePrinted(p.req, rest, text);
    if cut < p.consumed {
      NoShorterRequest(input, cut, text);
    }
  }

  lemma NoShorterRequest(input: Bytes, cut: nat, text: Bytes -> Bytes)
    requires Parse(input, text).Parsed? && cut < Parse(input, text).consumed <= |input|
    ensures Parse(input[..cut], text).Failed?
  {
    ParsedForm(input, text);
    ParsedForm(input[..cut], text);
    assert forall i :: 0 <= i < cut ==> input[..cut][i] == input[i];
  }
}

/** The replies of section 6 of RFC 1928 (internal/socks5/protocol.go). */
module ReplyCodec {
  import opened Common
  import opened Wire

  datatype Reply = Reply(rep: byte, atyp: byte, ip: Option<Bytes>, host: Bytes, port: Port)

  datatype Error = Short | BadVersion | BadReserved | BadAtyp

  /** `ReplyBytes`: the address 0.0.0.0 and port 0. */
  function ReplyBytes(rep: byte): Bytes {
    [VERSION, rep, 0, ATYP_IPV4, 0, 0, 0, 0, 0, 0]
  }

  function Build(rep: byte, ip: Option<Bytes>, port: Port): Bytes {
    if ip.None? || Canonical(ip.value).None? then ReplyBytes(rep)
    else
      var (atyp, addr) := Canonical(ip.value).value;
      [VERSION, rep, 0, atyp] + addr + PutPort(port)
  }

  method BuildReply(rep: byte, bindIP: Option<Bytes>, bindPort: Port) returns (out: Bytes)
    ensures out == Build(rep, bindIP, bindPort)
  {
    if bindIP.None? {
      return ReplyBytes(rep);
    }
    var atyp: byte;
    var addr: Bytes;
    var v4, v6 := To4(bindIP.value), To16(bindIP.value);
    if v4.Some? {
      atyp, addr := ATYP_IPV4, v4.value;
    } else if v6.Some? {
      atyp, addr := ATYP_IPV6, v6.value;
    } else {
      return ReplyBytes(rep);
    }
    out := [VERSION, rep, 0, atyp];
    out := out + addr;
    out := out + PutPort(bindPort);
  }

  /** The wire form of a reply: version 5, code, zero, address type, address, port; zeros without a usable address. */
  lemma BuiltForm(rep: byte, ip: Option<Bytes>, port: Port)
    ensures var out, tail := Build(rep, ip, port), [port / 256, port % 256];
            if ip.None? || (|ip.value| != 4 && |ip.value| != 16) then out == [5, rep, 0, 1, 0, 0, 0, 0, 0, 0]
            else if |ip.value| == 4 then out == [5, rep, 0, 1] + ip.value + tail
            else if EmbedsV4(ip.value) then out == [5, rep, 0, 1] + ip.value[12..] + tail
            else out == [5, rep, 0, 4] + ip.value + tail
  {
    if ip.Some? {
      CanonicalForm(ip.value);
    }
  }

  /** The reply whose address ends, and whose port starts, at `off`. */
  function Finish(input: Bytes, ip: Option<Bytes>, host: Bytes, off: nat): Result<(Reply, nat), Error>
    requires |input| >= 4
  {
    if |input| < off + 2 then Err(Short)
    else Ok((Reply(input[1], input[3], ip, host, GetPort(input[off..off + 2])), off + 2))
  }

  /** The reading half of `clientRequest`: the reply and the bytes it took. */
  function Parse(input: Bytes): Result<(Reply, nat), Error> {
    if |input| < 4 then Err(Short)
    else if input[0] != VERSION then Err(BadVersion)
    else if input[2] != 0 then Err(BadReserved)
    else if input[3] == ATYP_IPV4 then
      if |input| < 8 then Err(Short) else Finish(input, Some(input[4..8]), [], 8)
    else if input[3] == ATYP_IPV6 then
      if |input| < 20 then Err(Short) else Finish(input, Some(input[4..20]), [], 20)
    else if input[3] == ATYP_DOMAIN then
      if |input| < 5 then Err(Short)
      else
        var n: nat := input[4];
        if |input| < 5 + n then Err(Short) else Finish(input, None, input[5..5 + n], 5 + n)
    else Err(BadAtyp)
  }

  /** The reading half of `clientRequest`, field by field. */
  method ReadReply(br: Reader) returns (r: Result<Reply, Error>)
    requires br.Valid()
    modifies br
    ensures br.Valid()
    ensures var p := Parse(br.input[old(br.pos)..]);
            if p.Ok? then r == Ok(p.value.0) && br.pos == old(br.pos) + p.value.1 else r == Err(p.error)
  {
    ghost var start := br.pos;
    var hdr := br.ReadFull(4);
    if hdr.None? {
      return Err(Short);
    }
    if hdr.value[0] != VERSION {
      return Err(BadVersion);
    }
    if hdr.value[2] != 0 {
      return Err(BadReserved);
    }
    var ip: Option<Bytes>, host: Bytes := None, [];
    var atyp := hdr.value[3];
    if atyp == ATYP_IPV4 {
      ip := br.ReadFull(4);
      if ip.None? {
        return Err(Short);
      }
    } else if atyp == ATYP_IPV6 {
      ip := br.ReadFull(16);
      if ip.None? {
        return Err(Short);
      }
    } else if atyp == ATYP_DOMAIN {
      var lb := br.ReadFull(1);
      if lb.None? {
        return Err(Short);
      }
      var dom := br.ReadFull(lb.value[0]);
      if dom.None? {
        return Err(Short);
      }
      host := dom.value;
    } else {
      return Err(BadAtyp);
    }
    ghost var off := br.pos - start;
    SliceOfRest(br.input, start, if atyp == ATYP_DOMAIN then 5 else 4, off);
    var port := br.ReadFull(2);
    if port.None? {
      return Err(Short);
    }
    SliceOfRest(br.input, start, off, off + 2);
    return Ok(Reply(hdr.value[1], atyp, ip, host, GetPort(port.value)));
  }

  /** The length of a reply that starts like `input`, by its address type. */
  function ReplyLen(input: Bytes): nat
    requires |input| >= 5
  {
    var n: nat := input[4];
    if input[3] == 1 then 10 else if input[3] == 4 then 22 else 7 + n
  }

  /** Which replies are accepted, what is read from them, and which error each of the others gives. */
  lemma ParsedForm(input: Bytes)
    ensures var r := Parse(input);
            if |input| < 4 then r == Err(Short)
            else if input[0] != 5 then r == Err(BadVersion)
            else if input[2] != 0 then r == Err(BadReserved)
            else if input[3] != 1 && input[3] != 3 && input[3] != 4 then r == Err(BadAtyp)
            else if |input| < 5 || |input| < ReplyLen(input) then r == Err(Short)
            else
              var n := ReplyLen(input);
              var hi: int, lo: int := input[n - 2], input[n - 1];
              && r.Ok? && r.value.1 == n && r.value.0.rep == input[1] && r.value.0.atyp == input[3]
              && r.value.0.port == 256 * hi + lo
              && (input[3] == 3 ==> r.value.0.ip == None && r.value.0.host == input[5..n - 2])
              && (input[3] != 3 ==> r.value.0.ip == Some(input[4..n - 2]) && r.value.0.host == [])
  {
  }

  /**
   Parsing a built reply recovers its code, address and port, whatever follows;
   without a usable address it recovers 0.0.0.0 and port 0.
   */
  lemma ParseBuilt(rep: byte, ip: Option<Bytes>, port: Port, rest: Bytes)
    ensures var out := Build(rep, ip, port);
            var usable := ip.Some? && Canonical(ip.value).Some?;
            && Parse(out + rest).Ok?
            && var (reply, consumed) := Parse(out + rest).value;
               && consumed == |out| && reply.rep == rep && reply.ip.Some? && reply.host == []
               && (usable ==> Canonical(ip.value) == Some((reply.atyp, reply.ip.value)) && reply.port == port)
               && (!usable ==> reply.ip == Some([0, 0, 0, 0]) && reply.port == 0)
  {
    var usable := ip.Some? && Canonical(ip.value).Some?;
    var (atyp, addr) := if usable then Canonical(ip.value).value else (ATYP_IPV4, [0, 0, 0, 0]);
    ZeroReply(rep);
    ParseFields(rep, atyp, addr, if usable then port else 0, rest);
  }

  lemma ZeroReply(rep: byte)
    ensures ReplyBytes(rep) == [VERSION, rep, 0, ATYP_IPV4] + [0, 0, 0, 0] + PutPort(0)
  {
  }

  /** Parsing a reply with an IP address recovers its fields, whatever follows. */
  lemma ParseFields(rep: byte, atyp: byte, addr: Bytes, port: Port, rest: Bytes)
    requires (atyp == ATYP_IPV4 && |addr| == 4) || (atyp == ATYP_IPV6 && |addr| == 16)
    ensures var out := [VERSION, rep, 0, atyp] + addr + PutPort(port);
            Parse(out + rest) == Ok((Reply(rep, atyp, Some(addr), [], port), |out|))
  {
    var input, off := [VERSION, rep, 0, atyp] + addr + PutPort(port) + rest, 4 + |addr|;
    assert input[4..off] == addr;
    assert input[off..off + 2] == PutPort(port);
  }
}
