/** The kernel connection-tracking record as libnetfilter_conntrack hands it to
    the exporter, reduced to the attributes the exporter reads, together with
    the library and socket-API constants and conversions the exporter relies on.
    Multi-byte address and port attributes are kept as their bytes in network
    order, so `Ntohs` and `InetNtop` below do not depend on the host's byte
    order. */
module Conntrack {
  import opened Options
  import opened Text

  type byte = x: int | 0 <= x < 0x100
  type uint16 = x: int | 0 <= x < 0x1_0000
  type uint32 = x: int | 0 <= x < 0x1_0000_0000

  /** IPPROTO_TCP of <netinet/in.h>. */
  const IPPROTO_TCP: byte := 6

  /** enum tcp_state of libnetfilter_conntrack_tcp.h. */
  const TCP_CONNTRACK_NONE: byte := 0
  const TCP_CONNTRACK_SYN_SENT: byte := 1
  const TCP_CONNTRACK_SYN_RECV: byte := 2
  const TCP_CONNTRACK_ESTABLISHED: byte := 3
  const TCP_CONNTRACK_FIN_WAIT: byte := 4
  const TCP_CONNTRACK_CLOSE_WAIT: byte := 5
  const TCP_CONNTRACK_LAST_ACK: byte := 6
  const TCP_CONNTRACK_TIME_WAIT: byte := 7
  const TCP_CONNTRACK_CLOSE: byte := 8
  /** Shares its value with the obsolete TCP_CONNTRACK_LISTEN. */
  const TCP_CONNTRACK_SYN_SENT2: byte := 9
  const TCP_CONNTRACK_MAX: byte := 10
  const TCP_CONNTRACK_IGNORE: byte := 11

  /** INET_ADDRSTRLEN of <netinet/in.h>: room for "255.255.255.255" and its NUL. */
  const INET_ADDRSTRLEN: nat := 16

  /** enum nf_conntrack_msg_type: the notification a record is delivered with. */
  datatype MsgType = Unknown | New | Update | Destroy | Error

  /** enum nfct_cb: what a callback asks the library to do with the rest of a dump. */
  datatype Verdict = Stop | Continue

  /** A 16-bit attribute in network byte order: its two bytes, most significant first. */
  datatype NetU16 = NetU16(hi: byte, lo: byte)

  /** An IPv4 address attribute: its four bytes as they lie in memory (network order). */
  datatype Ipv4Addr = Ipv4Addr(b0: byte, b1: byte, b2: byte, b3: byte)

  /** One direction of a connection: ATTR_{ORIG,REPL}_{IPV4,PORT}_{SRC,DST}. */
  datatype Tuple = Tuple(srcIP: Ipv4Addr, srcPort: NetU16, dstIP: Ipv4Addr, dstPort: NetU16)

  /** The attributes of one `nf_conntrack` object the exporter reads:
      ATTR_L4PROTO, the original and reply tuples, ATTR_TCP_STATE and ATTR_ID. */
  datatype Record = Record(l4proto: byte, orig: Tuple, reply: Tuple, tcpState: byte, id: uint32)

  /** ntohs: the host value of a port kept in network byte order. */
  function Ntohs(v: NetU16): uint16 {
    v.hi * 0x100 + v.lo
  }

  /** htons: the network-order form of a host value. */
  function Htons(n: uint16): NetU16 {
    NetU16(n / 0x100, n % 0x100)
  }

  lemma NtohsHtons(n: uint16)
    ensures Ntohs(Htons(n)) == n
  {
  }

  lemma HtonsNtohs(v: NetU16)
    ensures Htons(Ntohs(v)) == v
  {
  }

  /** The dotted-decimal text of an address: its four bytes in memory order. */
  function DottedQuad(a: Ipv4Addr): string {
    Join([Decimal(a.b0), Decimal(a.b1), Decimal(a.b2), Decimal(a.b3)], '.')
  }

  function ParseOctet(s: string): Option<byte> {
    if IsCanonicalDecimal(s) && ParseDecimal(s) < 0x100 then Some(ParseDecimal(s)) else None
  }

  /** Reads back exactly the texts `DottedQuad` produces. */
  function ParseDottedQuad(s: string): Option<Ipv4Addr> {
    var parts := Split(s, '.');
    if |parts| != 4 then None
    else
      match (ParseOctet(parts[0]), ParseOctet(parts[1]), ParseOctet(parts[2]), ParseOctet(parts[3]))
      case (Some(b0), Some(b1), Some(b2), Some(b3)) => Some(Ipv4Addr(b0, b1, b2, b3))
      case _ => None
  }

  lemma OctetRoundTrip(b: byte)
    ensures ParseOctet(Decimal(b)) == Some(b)
  {
    DecimalRoundTrip(b);
  }

  lemma DigitsHaveNoDot(s: string)
    requires AllDigits(s)
    ensures '.' !in s
  {
  }

  lemma {:induction false} DottedQuadRoundTrip(a: Ipv4Addr)
    ensures ParseDottedQuad(DottedQuad(a)) == Some(a)
  {
    var parts := [Decimal(a.b0), Decimal(a.b1), Decimal(a.b2), Decimal(a.b3)];
    forall k | 0 <= k < 4
      ensures '.' !in parts[k]
    {
      DigitsHaveNoDot(parts[k]);
    }
    SplitJoin(parts, '.');
    OctetRoundTrip(a.b0);
    OctetRoundTrip(a.b1);
    OctetRoundTrip(a.b2);
    OctetRoundTrip(a.b3);
  }

  /** The text of an address consists of digits and dots only. */
  predicate IsAddressText(s: string) {
    forall i :: 0 <= i < |s| ==> IsDigit(s[i]) || s[i] == '.'
  }

  lemma {:induction false} DottedQuadShape(a: Ipv4Addr)
    ensures IsAddressText(DottedQuad(a))
    ensures 7 <= |DottedQuad(a)| <= INET_ADDRSTRLEN - 1
  {
    var d0, d1, d2, d3 := Decimal(a.b0), Decimal(a.b1), Decimal(a.b2), Decimal(a.b3);
    var parts := [d0, d1, d2, d3];
    var s := DottedQuad(a);
    assert parts[1..] == [d1, d2, d3];
    assert [d1, d2, d3][1..] == [d2, d3];
    assert [d2, d3][1..] == [d3];
    assert Join([d2, d3], '.') == d2 + ['.'] + d3;
    assert Join([d1, d2, d3], '.') == d1 + ['.'] + (d2 + ['.'] + d3);
    assert s == d0 + ['.'] + (d1 + ['.'] + (d2 + ['.'] + d3));
    ByteDecimalLength(a.b0);
    ByteDecimalLength(a.b1);
    ByteDecimalLength(a.b2);
    ByteDecimalLength(a.b3);
  }

  /** inet_ntop(AF_INET, ...) into a buffer of `size` bytes: the dotted-decimal
      text, or the failure (NULL, ENOSPC) when the text and its terminating NUL
      do not fit. */
  function InetNtop(a: Ipv4Addr, size: nat): (r: Option<string>)
    ensures r.Some? <==> |DottedQuad(a)| < size
    ensures r.Some? ==> r.value == DottedQuad(a)
  {
    var text := DottedQuad(a);
    if |text| + 1 <= size then Some(text) else None
  }
}
