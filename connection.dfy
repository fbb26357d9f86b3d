/** One tracked TCP connection: the four-valued lifecycle state derived from
    the kernel's TCP sub-state, the "ip:port" host texts of its tuples, its
    compact textual form, and its order by kernel id. */
module ConnectionModel {
  import opened Options
  import opened Text
  import opened Conntrack

  /** The lifecycle states the exporter publishes, declared in this order. */
  datatype ConnectionState = Opening | Open | Closing | Closed {

    /** The underlying `unsigned char` value of the enumerator. */
    function Ordinal(): (n: nat)
      ensures n < 4 && StateOfOrdinal(n) == Some(this)
    {
      match this
      case Opening => 0
      case Open => 1
      case Closing => 2
      case Closed => 3
    }
  }

  function StateOfOrdinal(n: nat): Option<ConnectionState> {
    if n == 0 then Some(Opening)
    else if n == 1 then Some(Open)
    else if n == 2 then Some(Closing)
    else if n == 3 then Some(Closed)
    else None
  }

  /** Exactly four enumerators, numbered 0 to 3 in declaration order. */
  lemma StateOrdinals(n: nat)
    ensures StateOfOrdinal(n).Some? <==> n < 4
    ensures StateOfOrdinal(n).Some? ==> StateOfOrdinal(n).value.Ordinal() == n
  {
  }

  /** Raw sub-states that classify as Opening and as Closing. */
  const OpeningSubStates: set<byte> := {TCP_CONNTRACK_SYN_SENT, TCP_CONNTRACK_SYN_SENT2, TCP_CONNTRACK_SYN_RECV}
  const ClosingSubStates: set<byte> :=
    {TCP_CONNTRACK_FIN_WAIT, TCP_CONNTRACK_CLOSE_WAIT, TCP_CONNTRACK_LAST_ACK, TCP_CONNTRACK_TIME_WAIT}

  /** The name a state is published and logged under. */
  function StateToString(state: ConnectionState): (name: string)
    ensures name != ""
    ensures ParseStateName(name) == Some(state)
  {
    match state
    case Opening => "Opening"
    case Open => "Open"
    case Closing => "Closing"
    case Closed => "Closed"
  }

  /** The state a name stands for, if any. */
  function ParseStateName(name: string): Option<ConnectionState> {
    if name == "Opening" then Some(Opening)
    else if name == "Open" then Some(Open)
    else if name == "Closing" then Some(Closing)
    else if name == "Closed" then Some(Closed)
    else None
  }

  /** Only TCP records are turned into connections. */
  predicate IsConnTrackSupported(ct: Record) {
    ct.l4proto == IPPROTO_TCP
  }

  /** The text of an address attribute; the empty fallback for a failing
      inet_ntop is never taken, because a dotted quad always fits. */
  function Ip32ToString(ip: Ipv4Addr): (text: string)
    ensures text != "" && IsAddressText(text)
    ensures ParseDottedQuad(text) == Some(ip)
  {
    DottedQuadShape(ip);
    DottedQuadRoundTrip(ip);
    var r := InetNtop(ip, INET_ADDRSTRLEN);
    if r.Some? then r.value else ""
  }

  /** The "ip:port" text of an endpoint. */
  function JoinHost(ipText: string, port: uint16): string {
    ipText + ":" + Decimal(port)
  }

  /** Reads back an endpoint: an address, a colon and the port in canonical decimal. */
  function ParseHost(s: string): Option<(Ipv4Addr, uint16)> {
    var i := IndexOf(s, ':');
    if i == |s| then None
    else
      var portText := s[i + 1..];
      if !IsCanonicalDecimal(portText) || ParseDecimal(portText) >= 0x1_0000 then None
      else
        match ParseDottedQuad(s[..i])
        case Some(ip) => Some((ip, ParseDecimal(portText) as uint16))
        case None => None
  }

  lemma HostRoundTrip(ip: Ipv4Addr, port: uint16)
    ensures ParseHost(JoinHost(Ip32ToString(ip), port)) == Some((ip, port))
  {
    var ipText := Ip32ToString(ip);
    var s := JoinHost(ipText, port);
    assert ':' !in ipText;
    IndexOfFirst(ipText, ':', Decimal(port));
    assert s[..|ipText|] == ipText;
    assert s[|ipText| + 1..] == Decimal(port);
    DecimalRoundTrip(port);
  }

  /** A dotted quad is read back only from the text it was rendered as. */
  lemma {:induction false} ParseDottedQuadInverse(t: string)
    requires ParseDottedQuad(t).Some?
    ensures DottedQuad(ParseDottedQuad(t).value) == t
  {
    var parts := Split(t, '.');
    var a := ParseDottedQuad(t).value;
    ParseDecimalRoundTrip(parts[0]);
    ParseDecimalRoundTrip(parts[1]);
    ParseDecimalRoundTrip(parts[2]);
    ParseDecimalRoundTrip(parts[3]);
    assert parts == [Decimal(a.b0), Decimal(a.b1), Decimal(a.b2), Decimal(a.b3)];
    JoinSplit(t, '.');
  }

  /** The other direction of `HostRoundTrip`: a host text is read back only
      from the text it was rendered as. */
  lemma {:induction false} ParseHostInverse(s: string)
    requires ParseHost(s).Some?
    ensures JoinHost(Ip32ToString(ParseHost(s).value.0), ParseHost(s).value.1) == s
  {
    var i := IndexOf(s, ':');
    var portText := s[i + 1..];
    ParseDottedQuadInverse(s[..i]);
    ParseDecimalRoundTrip(portText);
    assert s == s[..i] + ":" + portText;
  }

  /** The fixed pieces of the compact record `Connection.ToString` renders. */
  const RecordHead := "{\"remote_host\":\""
  const RecordMiddle := "\",\"state\":\""
  const RecordTail := "\"}"

  /** The compact record of a remote address text, a remote port and a state name. */
  function RenderRecord(ipText: string, port: uint16, name: string): string {
    RecordHead + ipText + ":" + Decimal(port) + RecordMiddle + name + RecordTail
  }

  /** The record's host field is the `ip:port` text. */
  lemma RenderRecordHost(ipText: string, port: uint16, name: string)
    ensures RenderRecord(ipText, port, name) == RecordHead + JoinHost(ipText, port) + RecordMiddle + name + RecordTail
  {
  }

  /** What the compact record carries: remote address, remote port and state. */
  datatype RecordView = RecordView(remoteIP: Ipv4Addr, remotePort: uint16, state: ConnectionState)

  /** Reads back a compact record; the host ends at the first double quote. */
  function ParseRecord(s: string): Option<RecordView> {
    if !(RecordHead <= s) then None
    else
      var rest := s[|RecordHead|..];
      var k := IndexOf(rest, '"');
      var tail := rest[k..];
      if !(RecordMiddle <= tail) then None
      else
        var t := tail[|RecordMiddle|..];
        if |t| < |RecordTail| || t[|t| - |RecordTail|..] != RecordTail then None
        else RecordOf(rest[..k], t[..|t| - |RecordTail|])
  }

  /** The record whose host field and state field read as given. */
  function RecordOf(hostText: string, name: string): Option<RecordView> {
    match (ParseHost(hostText), ParseStateName(name))
    case (Some(host), Some(state)) => Some(RecordView(host.0, host.1, state))
    case _ => None
  }

  /** A connection-tracking entry as the exporter sees it. */
  class Connection {
    /** The kernel record, cloned when the connection is built and never changed. */
    const conntrack: Record
    /** The notification the connection was tagged with. */
    var eventType: MsgType

    constructor (ct: Record)
      ensures conntrack == ct
      ensures eventType == Unknown && !HasEventType()
    {
      conntrack := ct;
      eventType := Unknown;
    }

    predicate HasEventType()
      reads this
    {
      eventType != Unknown
    }

    method SetEventType(t: MsgType)
      modifies this
      ensures eventType == t
      ensures HasEventType() <==> t != Unknown
    {
      eventType := t;
    }

    function OriginalSourceIP(): (ip: string)
      ensures ParseDottedQuad(ip) == Some(conntrack.orig.srcIP)
    {
      Ip32ToString(conntrack.orig.srcIP)
    }

    function OriginalSourcePort(): (port: uint16)
      ensures Htons(port) == conntrack.orig.srcPort
    {
      HtonsNtohs(conntrack.orig.srcPort);
      Ntohs(conntrack.orig.srcPort)
    }

    function OriginalDestinationIP(): (ip: string)
      ensures ParseDottedQuad(ip) == Some(conntrack.orig.dstIP)
    {
      Ip32ToString(conntrack.orig.dstIP)
    }

    function OriginalDestinationPort(): (port: uint16)
      ensures Htons(port) == conntrack.orig.dstPort
    {
      HtonsNtohs(conntrack.orig.dstPort);
      Ntohs(conntrack.orig.dstPort)
    }

    function ReplySourceIP(): (ip: string)
      ensures ParseDottedQuad(ip) == Some(conntrack.reply.srcIP)
    {
      Ip32ToString(conntrack.reply.srcIP)
    }

    function ReplySourcePort(): (port: uint16)
      ensures Htons(port) == conntrack.reply.srcPort
    {
      HtonsNtohs(conntrack.reply.srcPort);
      Ntohs(conntrack.reply.srcPort)
    }

    function ReplyDestinationIP(): (ip: string)
      ensures ParseDottedQuad(ip) == Some(conntrack.reply.dstIP)
    {
      Ip32ToString(conntrack.reply.dstIP)
    }

    function ReplyDestinationPort(): (port: uint16)
      ensures Htons(port) == conntrack.reply.dstPort
    {
      HtonsNtohs(conntrack.reply.dstPort);
      Ntohs(conntrack.reply.dstPort)
    }

    function OriginalSourceHost(): (host: string)
      ensures ParseHost(host) == Some((conntrack.orig.srcIP, Ntohs(conntrack.orig.srcPort)))
    {
      HostRoundTrip(conntrack.orig.srcIP, OriginalSourcePort());
      JoinHost(OriginalSourceIP(), OriginalSourcePort())
    }

    function OriginalDestinationHost(): (host: string)
      ensures ParseHost(host) == Some((conntrack.orig.dstIP, Ntohs(conntrack.orig.dstPort)))
    {
      HostRoundTrip(conntrack.orig.dstIP, OriginalDestinationPort());
      JoinHost(OriginalDestinationIP(), OriginalDestinationPort())
    }

    function ReplySourceHost(): (host: string)
      ensures ParseHost(host) == Some((conntrack.reply.srcIP, Ntohs(conntrack.reply.srcPort)))
    {
      HostRoundTrip(conntrack.reply.srcIP, ReplySourcePort());
      JoinHost(ReplySourceIP(), ReplySourcePort())
    }

    function ReplyDestinationHost(): (host: string)
      ensures ParseHost(host) == Some((conntrack.reply.dstIP, Ntohs(conntrack.reply.dstPort)))
    {
      HostRoundTrip(conntrack.reply.dstIP, ReplyDestinationPort());
      JoinHost(ReplyDestinationIP(), ReplyDestinationPort())
    }

    /** The remote end as the compact record reports it: the address of the
        original source with the port of the original destination, read from
        the same attributes as those two getters. */
    function RemoteIP(): (ip: string)
      ensures ParseDottedQuad(ip) == Some(conntrack.orig.srcIP)
    {
      OriginalSourceIP()
    }

    function RemotePort(): (port: uint16)
      ensures Htons(port) == conntrack.orig.dstPort
    {
      OriginalDestinationPort()
    }

    /** The lifecycle state of the kernel's TCP sub-state; every value outside
        the Opening, Open and Closing groups, listed or not, is Closed. */
    function GetState(): (state: ConnectionState)
      ensures state == Opening <==> conntrack.tcpState in OpeningSubStates
      ensures state == Open <==> conntrack.tcpState == TCP_CONNTRACK_ESTABLISHED
      ensures state == Closing <==> conntrack.tcpState in ClosingSubStates
      ensures state == Closed <==>
                conntrack.tcpState !in OpeningSubStates + ClosingSubStates + {TCP_CONNTRACK_ESTABLISHED}
    {
      var raw := conntrack.tcpState;
      if raw == TCP_CONNTRACK_SYN_SENT || raw == TCP_CONNTRACK_SYN_SENT2 || raw == TCP_CONNTRACK_SYN_RECV then
        Opening
      else if raw == TCP_CONNTRACK_ESTABLISHED then
        Open
      else if raw == TCP_CONNTRACK_FIN_WAIT || raw == TCP_CONNTRACK_CLOSE_WAIT
           || raw == TCP_CONNTRACK_LAST_ACK || raw == TCP_CONNTRACK_TIME_WAIT then
        Closing
      else
        // CLOSE, NONE, MAX and IGNORE leave the switch, and so does any other value.
        Closed
    }

    function GetStateString(): (name: string)
      ensures name != "" && ParseStateName(name) == Some(GetState())
    {
      StateToString(GetState())
    }

    /** The compact record used for logging; it reads back as the original
        source's address, the original destination's port in host order and
        the classified state. */
    function ToString(): (s: string)
      ensures ParseRecord(s) ==
              Some(RecordView(conntrack.orig.srcIP, Ntohs(conntrack.orig.dstPort), GetState()))
    {
      RecordRoundTrip(conntrack.orig.srcIP, RemotePort(), GetState());
      RenderRecord(RemoteIP(), RemotePort(), GetStateString())
    }

    /** Order by kernel connection id only. */
    predicate Less(other: Connection) {
      conntrack.id < other.conntrack.id
    }
  }

  /** A host text holds no double quote, so the record's host field ends at the first one. */
  lemma HostHasNoQuote(ip: Ipv4Addr, port: uint16)
    ensures '"' !in JoinHost(Ip32ToString(ip), port)
  {
    var ipText, portText := Ip32ToString(ip), Decimal(port);
    var host := JoinHost(ipText, port);
    forall k | 0 <= k < |host|
      ensures host[k] != '"'
    {
      if k < |ipText| {
        assert host[k] == ipText[k];
      } else if k > |ipText| {
        assert host[k] == portText[k - |ipText| - 1];
      }
    }
  }

  /** A record splits back into its two fields when the host field holds no double quote. */
  lemma RecordFields(host: string, name: string)
    requires '"' !in host
    ensures ParseRecord(RecordHead + host + RecordMiddle + name + RecordTail) == RecordOf(host, name)
  {
    var s := RecordHead + host + RecordMiddle + name + RecordTail;
    var rest := s[|RecordHead|..];
    assert rest == host + ['"'] + (RecordMiddle[1..] + name + RecordTail);
    IndexOfFirst(host, '"', RecordMiddle[1..] + name + RecordTail);
    var k := IndexOf(rest, '"');
    assert rest[..k] == host;
    var tail := rest[k..];
    assert tail == RecordMiddle + (name + RecordTail);
    var t := tail[|RecordMiddle|..];
    assert t == name + RecordTail;
    assert t[..|t| - |RecordTail|] == name;
  }

  lemma RecordRoundTrip(ip: Ipv4Addr, port: uint16, state: ConnectionState)
    ensures ParseRecord(RenderRecord(Ip32ToString(ip), port, StateToString(state))) == Some(RecordView(ip, port, state))
  {
    var ipText := Ip32ToString(ip);
    assert RenderRecord(ipText, port, StateToString(state))
        == RecordHead + JoinHost(ipText, port) + RecordMiddle + StateToString(state) + RecordTail;
    HostHasNoQuote(ip, port);
    RecordFields(JoinHost(Ip32ToString(ip), port), StateToString(state));
    HostRoundTrip(ip, port);
  }

  /** A state name is read back only from the name it was rendered as. */
  lemma ParseStateNameInverse(name: string)
    requires ParseStateName(name).Some?
    ensures StateToString(ParseStateName(name).value) == name
  {
  }

  /** A text cut after a head, at a position, after a middle and before a
      tail is the concatenation of the pieces. */
  lemma Reassemble(s: string, head: string, k: nat, middle: string, tail: string)
    requires head <= s && k <= |s| - |head|
    requires middle <= s[|head|..][k..]
    requires |tail| <= |s[|head|..][k..][|middle|..]|
    requires s[|head|..][k..][|middle|..][|s| - |head| - k - |middle| - |tail|..] == tail
    ensures var t := s[|head|..][k..][|middle|..];
            s == head + s[|head|..][..k] + middle + t[..|t| - |tail|] + tail
  {
    var rest := s[|head|..];
    var t := rest[k..][|middle|..];
    assert t == t[..|t| - |tail|] + tail;
    assert rest[k..] == middle + t;
    assert rest == rest[..k] + rest[k..];
    assert s == head + rest;
  }

  /** A text that reads as a record is the head, a host field, the middle,
      a state field and the tail, and it reads as those two fields do. */
  lemma RecordParts(s: string) returns (host: string, name: string)
    requires ParseRecord(s).Some?
    ensures s == RecordHead + host + RecordMiddle + name + RecordTail
    ensures ParseRecord(s) == RecordOf(host, name)
  {
    var rest := s[|RecordHead|..];
    var k := IndexOf(rest, '"');
    var t := rest[k..][|RecordMiddle|..];
    host, name := rest[..k], t[..|t| - |RecordTail|];
    Reassemble(s, RecordHead, k, RecordMiddle, RecordTail);
  }

  /** Fields that read as a record are exactly the rendering of what they read as. */
  lemma RecordOfInverse(host: string, name: string)
    requires RecordOf(host, name).Some?
    ensures var v := RecordOf(host, name).value;
            RenderRecord(Ip32ToString(v.remoteIP), v.remotePort, StateToString(v.state))
            == RecordHead + host + RecordMiddle + name + RecordTail
  {
    var v := RecordOf(host, name).value;
    ParseHostInverse(host);
    ParseStateNameInverse(name);
    RenderRecordHost(Ip32ToString(v.remoteIP), v.remotePort, StateToString(v.state));
  }

  /** The other direction of `RecordRoundTrip`: a text that reads as a record
      is exactly the rendering of what it reads as. */
  lemma ParseRecordInverse(s: string)
    requires ParseRecord(s).Some?
    ensures var v := ParseRecord(s).value;
            RenderRecord(Ip32ToString(v.remoteIP), v.remotePort, StateToString(v.state)) == s
  {
    var host, name := RecordParts(s);
    RecordOfInverse(host, name);
  }

  /** `Less` is a strict order that looks at the kernel id and nothing else. */
  lemma LessIsStrictOrder(a: Connection, b: Connection, c: Connection)
    ensures !a.Less(a)
    ensures a.Less(b) ==> !b.Less(a)
    ensures a.Less(b) && b.Less(c) ==> a.Less(c)
    ensures a.Less(b) <==> a.conntrack.id < b.conntrack.id
  {
  }
}
