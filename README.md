# conntrack_exporter: connections and the connection table

conntrack_exporter is a Prometheus exporter. It reads the Linux kernel's
connection-tracking table through libnetfilter_conntrack and publishes the
TCP connections it finds. This Dafny project models the core of it:

- **The connection entity** (`src/connection.h`, `src/connection.cc`):
  - which records are supported (TCP only);
  - how the kernel's TCP sub-state is classified into the four lifecycle
    states Opening, Open, Closing and Closed, and the name of each state;
  - the `ip:port` host texts of the four endpoints of a connection;
  - the compact record that `toString` renders;
  - the order of connections by kernel id;
  - the event-type tag a connection carries.
- **The connection table** (`src/connection_table.h`,
  `src/connection_table.cc`):
  - its settings and the list of ignored hosts;
  - the full rebuild, which empties the table and refills it from a dump of
    the kernel's table, keeping the TCP records only.

The project has four modules, in four files:

- `text.dfy` (`Options`, `Text`): decimal rendering and parsing of
  unsigned numbers, and splitting and joining at a separator.
- `conntrack.dfy` (`Conntrack`): the kernel record, reduced to the
  attributes the exporter reads; the library and socket constants; `ntohs`;
  `inet_ntop`.
- `connection.dfy` (`ConnectionModel`): `ConnectionState` and the class
  `Connection`.
- `connection_table.dfy` (`ConnectionTableModel`): the class
  `ConnectionTable`.

Address and port attributes are kept as their bytes in network order.
`Ntohs` and the dotted-quad rendering therefore do not depend on the host's
byte order.

Each rendering comes with a parser, and the proofs show that the two invert
each other in both directions:

- a decimal number and its digits;
- an address and its dotted quad;
- an endpoint and its `ip:port` text;
- a state and its name;
- a connection's remote address, remote port and state, and its compact record.

The full rebuild hands the dump to `QueryDump`, an imperative method that
loops over the rows and passes each to the dump callback, as the library's
dump query does. Both are proved against `SupportedRecords`, the TCP records
of a dump in dump order.
Lemmas give that function's count and say which records it keeps.

The model follows the code as written:

- The rebuild neither removes duplicate records nor reconciles them with
  earlier contents. It clears the table and appends every TCP record.
- Every TCP sub-state outside the Opening, Open and Closing groups,
  whether listed in the switch or not, is classified Closed. No state is
  fatal.
- The compact record's remote host is the original direction's source
  address together with the original direction's destination port.
- `src/connection_table.cc` registers and defines a callback named
  `nfct_callback`. The header declares `nfct_callback_rebuild` and
  `nfct_callback_attach` instead. The model's `DumpCallback` is the body
  defined in `src/connection_table.cc:24-41`.

## Model

| member | source | states |
|---|---|---|
| Text.Decimal | src/connection.h:35 | `to_string` of a port: a non-empty digit string with no leading zero, starting with '0' exactly for zero |
| Text.DecimalRoundTrip | src/connection.cc:69 | the decimal text of a number reads back as that number |
| Text.ParseDecimalRoundTrip | src/connection.cc:69 | every canonical digit string is the decimal text of the number it denotes (the other direction) |
| Conntrack.NtohsHtons | src/connection.cc:36 | `ntohs` undoes `htons` for every 16-bit value |
| Conntrack.HtonsNtohs | src/connection.cc:36 | `htons` undoes `ntohs` for every network-order port |
| Conntrack.DottedQuadRoundTrip | src/connection.cc:85-92 | the dotted quad of an address parses back to that address |
| Conntrack.DottedQuadShape | src/connection.cc:87-89 | a dotted quad is made of digits and dots and is 7 to 15 characters long, so it fits in INET_ADDRSTRLEN with its NUL |
| Conntrack.InetNtop | src/connection.cc:89 | definition of the library call: `inet_ntop` succeeds exactly when the text and its NUL fit the buffer, and then yields the dotted quad (that it always fits is `DottedQuadShape`) |
| ConnectionModel.ConnectionState.Ordinal | src/connection.h:15-21 | each enumerator's underlying value is below 4 and maps back to the enumerator |
| ConnectionModel.StateOrdinals | src/connection.h:15-21 | exactly the values 0 to 3 are enumerators, and each maps back to its value |
| ConnectionModel.StateToString | src/connection.cc:94-104 | every state has a non-empty name that reads back as that state |
| ConnectionModel.ParseStateNameInverse | src/connection.cc:94-104 | a text that reads as a state is exactly that state's name |
| ConnectionModel.IsConnTrackSupported | src/connection.cc:8-14 | definition: a record is supported exactly when its layer-4 protocol is TCP (6) |
| ConnectionModel.Ip32ToString | src/connection.cc:85-92 | the address text is never empty (the fallback is unreachable), holds only digits and dots, and parses back to the address |
| ConnectionModel.HostRoundTrip | src/connection.h:35 | an `ip:port` text parses back to its address and port |
| ConnectionModel.ParseDottedQuadInverse | src/connection.cc:85-92 | a text that parses as an address is exactly that address's dotted quad |
| ConnectionModel.ParseHostInverse | src/connection.h:35 | a text that parses as a host is exactly the `ip:port` text of what it parses to |
| ConnectionModel.Connection.constructor | src/connection.cc:16-19 | the connection holds the given record and starts untagged (event type unknown) |
| ConnectionModel.Connection.HasEventType | src/connection.h:62 | definition: the connection has an event type exactly when its tag is not unknown |
| ConnectionModel.Connection.SetEventType | src/connection.h:52 | the tag becomes the given type, and the connection has an event type exactly when that type is not unknown |
| ConnectionModel.Connection.OriginalSourceIP | src/connection.h:33 | the text parses back to the original source address |
| ConnectionModel.Connection.OriginalSourcePort | src/connection.h:34 | the original source port in host order: `htons` of it gives back the attribute |
| ConnectionModel.Connection.OriginalDestinationIP | src/connection.h:36 | the text parses back to the original destination address |
| ConnectionModel.Connection.OriginalDestinationPort | src/connection.h:37 | the original destination port in host order: `htons` of it gives back the attribute |
| ConnectionModel.Connection.ReplySourceIP | src/connection.h:39 | the text parses back to the reply source address |
| ConnectionModel.Connection.ReplySourcePort | src/connection.h:40 | the reply source port in host order: `htons` of it gives back the attribute |
| ConnectionModel.Connection.ReplyDestinationIP | src/connection.h:42 | the text parses back to the reply destination address |
| ConnectionModel.Connection.ReplyDestinationPort | src/connection.h:43 | the reply destination port in host order: `htons` of it gives back the attribute |
| ConnectionModel.Connection.OriginalSourceHost | src/connection.h:35 | the text parses back to the original source address and its port in host order |
| ConnectionModel.Connection.OriginalDestinationHost | src/connection.h:38 | the text parses back to the original destination address and its port in host order |
| ConnectionModel.Connection.ReplySourceHost | src/connection.h:41 | the text parses back to the reply source address and its port in host order |
| ConnectionModel.Connection.ReplyDestinationHost | src/connection.h:44 | the text parses back to the reply destination address and its port in host order |
| ConnectionModel.Connection.RemoteIP | src/connection.cc:27-31 | the text parses back to the original source address |
| ConnectionModel.Connection.RemotePort | src/connection.cc:33-37 | the original destination port in host order: `htons` of it gives back the attribute |
| ConnectionModel.Connection.GetState | src/connection.cc:39-62 | Opening exactly for SYN_SENT, SYN_SENT2 and SYN_RECV; Open exactly for ESTABLISHED; Closing exactly for FIN_WAIT, CLOSE_WAIT, LAST_ACK and TIME_WAIT; Closed exactly for every other value |
| ConnectionModel.Connection.GetStateString | src/connection.h:50 | a non-empty name that reads back as the connection's state |
| ConnectionModel.RecordRoundTrip | src/connection.cc:64-73 | the compact record of an address, a port and a state parses back to those three |
| ConnectionModel.ParseRecordInverse | src/connection.cc:64-73 | a text that reads as a compact record is exactly the rendering of what it reads as |
| ConnectionModel.Connection.ToString | src/connection.cc:64-73 | a connection's compact record reads back as its original source address, its original destination port in host order, and its classified state |
| ConnectionModel.Connection.Less | src/connection.cc:75-78 | definition: compares kernel ids only (its properties are `LessIsStrictOrder`) |
| ConnectionModel.LessIsStrictOrder | src/connection.cc:75-78 | ordering by kernel id is irreflexive, asymmetric and transitive, and compares ids only |
| ConnectionTableModel.SupportedRecords | src/connection_table.cc:28-29 | the kept records are no more than the rows of the dump, and every one is TCP |
| ConnectionTableModel.SupportedRecordsMembers | src/connection_table.cc:28-38 | a record is kept exactly when it is TCP and some row of the dump carries it |
| ConnectionTableModel.SupportedRecordsCount | src/connection_table.cc:28-38 | the number of kept records is the number of TCP rows |
| ConnectionTableModel.ConnectionTable.constructor | src/connection_table.h:45-49 | logging off, format "netfilter", debugging off, no connections, no ignored hosts |
| ConnectionTableModel.ConnectionTable.EnableLogging | src/connection_table.h:21 | event logging is set as given (on by default), and nothing else changes |
| ConnectionTableModel.ConnectionTable.EnableDebugging | src/connection_table.h:22 | debugging is set as given (on by default), and nothing else changes |
| ConnectionTableModel.ConnectionTable.SetLoggingFormat | src/connection_table.h:23 | the logging format is replaced, and nothing else changes |
| ConnectionTableModel.ConnectionTable.AddIgnoredHost | src/connection_table.h:24 | the host is appended to the ignored hosts, and nothing else changes |
| ConnectionTableModel.ConnectionTable.GetConnections | src/connection_table.h:29 | definition: the table's connections, as stored |
| ConnectionTableModel.ConnectionTable.CallbackDummy | src/connection_table.h:40 | definition: always asks the library to stop |
| ConnectionTableModel.ConnectionTable.DumpCallback | src/connection_table.cc:24-41 | always continues; a non-TCP record leaves the table unchanged; a TCP record adds one newly allocated, untagged connection holding it, after the existing ones, which stay as they were; a table without repeated or tagged connections keeps that property; the settings and ignored hosts do not change |
| ConnectionTableModel.ConnectionTable.QueryDump | src/connection_table.cc:16-19 | every row of the dump is handed to the callback in order: the earlier connections stay as they were and are followed by one newly allocated, untagged connection per TCP row, holding that row's record, in dump order; a table without repeated or tagged connections keeps that property; the settings and ignored hosts do not change |
| ConnectionTableModel.ConnectionTable.Rebuild | src/connection_table.cc:8-22 | the table is emptied. If the handle opens, its connections then hold exactly the records of the dump's TCP rows, in dump order, one per row. Every connection left in the table is TCP, untagged and newly allocated, and no connection object occurs twice. The settings and ignored hosts do not change |

## Left out

- The netlink transport is not modelled: `nfct_open`, `nfct_callback_register`, the socket traffic of `nfct_query`, and `nfct_close`. Whether `nfct_open` succeeds is a parameter of `Rebuild`. The dump the query would deliver is an input sequence of rows, each with its notification type. `QueryDump` models only how the query hands those rows to the registered callback.
- The `AF_INET` family argument of the query is not modelled. All records in the model are IPv4.
- `nfct_clone` and `nfct_destroy` are not modelled, and neither is the destructor. The record is an immutable value, so cloning it is a copy.
- The `Connection` allocated with `new` in the callback is never freed. Memory is not modelled.
- `Connection`'s copy constructor and the value semantics of `list<Connection>` are not modelled. The model's table holds references to connections.
- `operator==` compares records through `nfct_compare`, whose matching rules live in the library. It is not modelled.
- These members are declared, but their bodies are not defined in src/connection.cc or src/connection_table.cc: `getRemoteHost`, `hasState`, `loadLocalIPAddresses`, `isLocalIPAddress`, `toNetFilterString`, `getEventTypeString`, `attach`, `update`, `updateConnection`, `isIgnoredHost`, `makeConntrackHandle` and the attach callback. The table's own constructor and destructor are in the same position, apart from the field defaults the header gives. src/main.cc is not part of this model.
- `is_rebuilding` and the two handle fields are never set in src/connection_table.cc. They are not modelled.
- The `default: return ""` branch of `stateToString` is not modelled. `ConnectionState` has the fixed underlying type `unsigned char`, so a value outside the four enumerators could exist. The branch is still never taken, because the only caller, `getStateString` (src/connection.h:50), passes `getState()`, and `getState` returns one of the four enumerators (src/connection.cc:39-62). The model's `ConnectionState` holds exactly those four values.
- The eight endpoint getters, from `getOriginalSourceIP` to `getReplyDestinationPort`, are declared but their bodies are not defined in src/connection.cc or src/connection_table.cc. They are modelled like `getRemoteIP` and `getRemotePort`: `ip32ToString` of the address attribute and `ntohs` of the port attribute.
- ConnectionTableModel.ConnectionTable.DumpCallback: the callback calls `insert` on a `std::list` with one argument, which names no position. The model appends, so the table keeps dump order; the source does not guarantee that order.
