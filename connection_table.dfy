/** The in-memory connection table: the connections found by the last full
    dump of the kernel's table, the hosts to ignore, and the logging and
    debugging settings. */
module ConnectionTableModel {
  import opened Conntrack
  import opened ConnectionModel

  /** One row of a full dump: the record and the notification type the
      library reports it with. */
  datatype DumpRow = DumpRow(msgType: MsgType, ct: Record)

  /** The kernel records behind a list of connections. */
  function Records(cs: seq<Connection>): (rs: seq<Record>)
    ensures |rs| == |cs|
  {
    if cs == [] then [] else Records(cs[..|cs| - 1]) + [cs[|cs| - 1].conntrack]
  }

  lemma {:induction false} RecordsAt(cs: seq<Connection>, k: nat)
    requires k < |cs|
    ensures Records(cs)[k] == cs[k].conntrack
  {
    if k < |cs| - 1 {
      RecordsAt(cs[..|cs| - 1], k);
    }
  }

  /** The records of a dump that the callback keeps, in dump order. */
  function SupportedRecords(dump: seq<DumpRow>): (rs: seq<Record>)
    ensures |rs| <= |dump|
    ensures forall r :: r in rs ==> IsConnTrackSupported(r)
  {
    if dump == [] then []
    else
      var last := dump[|dump| - 1].ct;
      SupportedRecords(dump[..|dump| - 1]) + (if IsConnTrackSupported(last) then [last] else [])
  }

  /** A record is kept exactly when it is TCP and some row of the dump carries it. */
  lemma {:induction false} SupportedRecordsMembers(dump: seq<DumpRow>, r: Record)
    ensures r in SupportedRecords(dump) <==>
            IsConnTrackSupported(r) && exists i :: 0 <= i < |dump| && dump[i].ct == r
  {
    if dump != [] {
      var init, last := dump[..|dump| - 1], dump[|dump| - 1];
      SupportedRecordsMembers(init, r);
      if r in SupportedRecords(dump) && r in SupportedRecords(init) {
        var i :| 0 <= i < |init| && init[i].ct == r;
        assert dump[i].ct == r;
      }
      if IsConnTrackSupported(r) && exists i :: 0 <= i < |dump| && dump[i].ct == r {
        var i :| 0 <= i < |dump| && dump[i].ct == r;
        if i < |init| {
          assert init[i].ct == r;
        }
      }
    }
  }

  /** One more row of a dump adds its record when, and only when, it is TCP. */
  lemma SupportedRecordsPrefix(dump: seq<DumpRow>, i: nat)
    requires i < |dump|
    ensures SupportedRecords(dump[..i + 1]) ==
            SupportedRecords(dump[..i]) + (if IsConnTrackSupported(dump[i].ct) then [dump[i].ct] else [])
  {
    assert dump[..i + 1][..i] == dump[..i];
  }

  /** The number of TCP rows of a dump, counted from the front. */
  function CountTcp(dump: seq<DumpRow>): nat {
    if dump == [] then 0 else (if IsConnTrackSupported(dump[0].ct) then 1 else 0) + CountTcp(dump[1..])
  }

  lemma {:induction false} CountTcpAppend(a: seq<DumpRow>, b: seq<DumpRow>)
    ensures CountTcp(a + b) == CountTcp(a) + CountTcp(b)
  {
    if a != [] {
      assert (a + b)[1..] == a[1..] + b;
      CountTcpAppend(a[1..], b);
    } else {
      assert a + b == b;
    }
  }

  /** Filtering from the back and counting from the front agree. */
  lemma {:induction false} SupportedRecordsCount(dump: seq<DumpRow>)
    ensures |SupportedRecords(dump)| == CountTcp(dump)
  {
    if dump != [] {
      var init, last := dump[..|dump| - 1], dump[|dump| - 1];
      SupportedRecordsCount(init);
      assert dump == init + [last];
      CountTcpAppend(init, [last]);
      assert [last][1..] == [];
    }
  }

  /** Connections holding the same records as a dump's TCP rows are all TCP. */
  lemma SameRecordsSupported(cs: seq<Connection>, dump: seq<DumpRow>)
    requires Records(cs) == SupportedRecords(dump)
    ensures forall c :: c in cs ==> IsConnTrackSupported(c.conntrack)
  {
    forall c | c in cs
      ensures IsConnTrackSupported(c.conntrack)
    {
      var k :| 0 <= k < |cs| && cs[k] == c;
      RecordsAt(cs, k);
      assert c.conntrack in SupportedRecords(dump);
    }
  }

  /** No connection object occurs twice. */
  predicate Distinct(cs: seq<Connection>) {
    forall j, k :: 0 <= j < k < |cs| ==> cs[j] != cs[k]
  }

  /** No connection has been tagged with an event type. */
  predicate AllUntagged(cs: seq<Connection>)
    reads set c | c in cs
  {
    forall j :: 0 <= j < |cs| ==> cs[j].eventType == Unknown
  }

  /** Appending an object that is not yet in the list keeps the list free of
      repeats, and appending an untagged one keeps it untagged. */
  lemma AppendUntaggedDistinct(cs: seq<Connection>, c: Connection)
    requires c !in cs
    ensures Distinct(cs) ==> Distinct(cs + [c])
    ensures AllUntagged(cs) && c.eventType == Unknown ==> AllUntagged(cs + [c])
  {
    var cs' := cs + [c];
    if Distinct(cs) {
      forall j, k | 0 <= j < k < |cs'|
        ensures cs'[j] != cs'[k]
      {
        if k == |cs| {
          assert cs'[j] == cs[j];
        }
      }
    }
  }

  class ConnectionTable {
    var logEvents: bool
    var logEventsFormat: string
    var debugging: bool
    var connections: seq<Connection>
    var ignoredHosts: seq<string>

    constructor ()
      ensures !logEvents && logEventsFormat == "netfilter" && !debugging
      ensures connections == [] && ignoredHosts == []
    {
      logEvents := false;
      logEventsFormat := "netfilter";
      debugging := false;
      connections := [];
      ignoredHosts := [];
    }

    method EnableLogging(enable: bool := true)
      modifies this
      ensures logEvents == enable
      ensures logEventsFormat == old(logEventsFormat) && debugging == old(debugging)
      ensures connections == old(connections) && ignoredHosts == old(ignoredHosts)
    {
      logEvents := enable;
    }

    method EnableDebugging(enable: bool := true)
      modifies this
      ensures debugging == enable
      ensures logEvents == old(logEvents) && logEventsFormat == old(logEventsFormat)
      ensures connections == old(connections) && ignoredHosts == old(ignoredHosts)
    {
      debugging := enable;
    }

    method SetLoggingFormat(format: string)
      modifies this
      ensures logEventsFormat == format
      ensures logEvents == old(logEvents) && debugging == old(debugging)
      ensures connections == old(connections) && ignoredHosts == old(ignoredHosts)
    {
      logEventsFormat := format;
    }

    method AddIgnoredHost(host: string)
      modifies this
      ensures ignoredHosts == old(ignoredHosts) + [host]
      ensures logEvents == old(logEvents) && logEventsFormat == old(logEventsFormat) && debugging == old(debugging)
      ensures connections == old(connections)
    {
      ignoredHosts := ignoredHosts + [host];
    }

    function GetConnections(): (cs: seq<Connection>)
      reads this
      ensures cs == connections
    {
      connections
    }

    /** The callback that stops a query at its first row. */
    static function CallbackDummy(msgType: MsgType, ct: Record): (verdict: Verdict)
      ensures verdict == Stop
    {
      Stop
    }

    /** The dump callback: a TCP record becomes one new connection in the
        table, any other record is passed over; the dump always goes on. */
    method DumpCallback(msgType: MsgType, ct: Record) returns (verdict: Verdict)
      modifies this
      ensures verdict == Continue
      ensures logEvents == old(logEvents) && logEventsFormat == old(logEventsFormat) && debugging == old(debugging)
      ensures ignoredHosts == old(ignoredHosts)
      ensures !IsConnTrackSupported(ct) ==> connections == old(connections)
      ensures IsConnTrackSupported(ct) ==>
                && |connections| == |old(connections)| + 1
                && (forall k :: 0 <= k < |old(connections)| ==> connections[k] == old(connections)[k])
                && Records(connections) == Records(old(connections)) + [ct]
                && fresh(connections[|connections| - 1])
                && connections[|connections| - 1].eventType == Unknown
      ensures Distinct(old(connections)) ==> Distinct(connections)
      ensures old(AllUntagged(connections)) ==> AllUntagged(connections)
    {
      if !IsConnTrackSupported(ct) {
        return Continue;
      }
      var ci := new Connection(ct);
      AppendUntaggedDistinct(connections, ci);
      connections := connections + [ci];
      assert Records(connections) == Records(old(connections)) + [ct] by {
        assert connections[..|connections| - 1] == old(connections);
      }
      return Continue;
    }

    /** A dump query: the library hands every row of the dump, in order, to
        the dump callback, and goes on while the callback asks it to. */
    method QueryDump(dump: seq<DumpRow>)
      modifies this
      ensures logEvents == old(logEvents) && logEventsFormat == old(logEventsFormat) && debugging == old(debugging)
      ensures ignoredHosts == old(ignoredHosts)
      ensures |old(connections)| <= |connections| && forall k :: 0 <= k < |old(connections)| ==> connections[k] == old(connections)[k]
      ensures Records(connections) == Records(old(connections)) + SupportedRecords(dump)
      ensures forall k :: |old(connections)| <= k < |connections| ==> fresh(connections[k]) && connections[k].eventType == Unknown
      ensures old(AllUntagged(connections)) ==> AllUntagged(connections)
      ensures Distinct(old(connections)) ==> Distinct(connections)
    {
      var i := 0;
      var verdict := Continue;
      while i < |dump| && verdict == Continue
        invariant 0 <= i <= |dump|
        invariant verdict == Continue
        invariant logEvents == old(logEvents) && logEventsFormat == old(logEventsFormat) && debugging == old(debugging)
        invariant ignoredHosts == old(ignoredHosts)
        invariant |old(connections)| <= |connections| && forall k :: 0 <= k < |old(connections)| ==> connections[k] == old(connections)[k]
        invariant Records(connections) == Records(old(connections)) + SupportedRecords(dump[..i])
        invariant forall k :: |old(connections)| <= k < |connections| ==> fresh(connections[k]) && connections[k].eventType == Unknown
        invariant old(AllUntagged(connections)) ==> AllUntagged(connections)
        invariant Distinct(old(connections)) ==> Distinct(connections)
      {
        SupportedRecordsPrefix(dump, i);
        verdict := DumpCallback(dump[i].msgType, dump[i].ct);
        i := i + 1;
      }
      assert dump[..i] == dump;
    }

    /** Empties the table, then refills it from a full dump of the kernel's
        table when the query handle could be opened. */
    method Rebuild(handleOpened: bool, dump: seq<DumpRow>)
      modifies this
      ensures logEvents == old(logEvents) && logEventsFormat == old(logEventsFormat) && debugging == old(debugging)
      ensures ignoredHosts == old(ignoredHosts)
      ensures !handleOpened ==> connections == []
      ensures handleOpened ==> Records(connections) == SupportedRecords(dump)
      ensures handleOpened ==> |connections| == CountTcp(dump)
      ensures forall c :: c in connections ==> IsConnTrackSupported(c.conntrack)
      ensures forall c :: c in connections ==> fresh(c)
      ensures AllUntagged(connections) && Distinct(connections)
    {
      connections := [];
      if !handleOpened {
        return;
      }
      QueryDump(dump);
      SupportedRecordsCount(dump);
      SameRecordsSupported(connections, dump);
    }
  }
}
