# pktlab in Dafny

A model of pktlab, a Python control plane and a C packet-forwarding daemon joined by framed JSON over a Unix
socket, with proofs about its four hard parts.

1. **The IPC codec.** `JsonGrammar` is the language the daemon's hand-written scanner really accepts, `JsonScanner` the
   scanner as functions of the unread text with both directions of the language theorem, `RequestParser` the request
   parser, `JsonCursor` the cursor-and-buffer code refining both, `JsonEscape` the escaper, `Responses`,
   `ResponseFields` and `StandardJson` the renderers, `Framing` the length-prefixed frames of both languages, `Connection`, `IpcServer`
   and `Answers` the request loop, the dispatcher and what a client finds in each answer.
2. **The datapath.** `Burst` is one forwarding burst over an array that is compacted in place, `Counters` (in
   `Burst.dfy`) the counter tracker, `Lifecycle` the control thread and the worker as interleaved steps with every
   start-up call free to fail.
3. **The topology transaction.** `Kernel` is the host state, `Netns` the commands, each free to fail, `TopologyOps` the
   loops that build and tear down, `TopologyManager` apply, rollback and destroy, `Controller` the desired, observed
   and health state on top.
4. **Validation and runtime policy.** `Validation` collects issues and accepts exactly a declarative predicate,
   `RuntimePolicy` sizes the datapath, `Lcores` (in `RuntimePolicy.dfy`) parses core lists, `Argv` takes a profile to
   the daemon's command line and back.

On a host marked `calm` no command fails without a reason in its state, except the deletion of a namespace, whose fate is
given for each name; on any other host each command may fail. What the process supervisor answers is an input of each controller operation.

Source files that work step by step are methods and classes proved against functions; the theorems are lemmas about
those functions, or contracts over every outcome where a command may fail.

## Where the code differs from its documentation

- The scanner is not RFC 8259 (sections 2 to 7): `\u` escapes are refused, a comma may stand before a closing bracket,
  the last brace of a request may be missing, control bytes inside strings pass in both directions. The grammar
  follows the code; `StandardJson` states exactly which responses are text of the standard.
- A request may lose its last brace only if that does not leave white space behind a comma:
  `RequestParser.FinalBraceOptional` is the exact rule and `RequestParser.BraceNeeded` an input.
- Keys, ids and commands live in C strings, so a decoded NUL cuts them off; the request theorems speak of what is left.
- Validation asks for the bridge-side interfaces "through the topology links" but accepts a DPDK port of that name. If
  the ingress port is called `veth-out-k`, or the egress port `veth-in-k`, a finished build has put it on the other
  side's bridge. `TopologyOps.LayoutIsAsDocumented` gives the exact condition and `CROSSED` an accepted topology.
- Validation also accepts link ends and ports of the datapath namespace named `br-in` or `br-out`. Such a topology can
  never be built, and every other accepted one is when no command fails (`TopologyManager.Manager.Build`).
- Asking about an interface of a missing namespace is an error, so a teardown that deleted the datapath namespace or that of a
  link's first end and failed on another can never be completed: destroy and apply fail for good and the record stays
  (`TopologyManager.StuckForever`; `TopologyManager.GetStuck` is such a run).
- `start()` replaces the desired state. With a topology applied while the controller is not started, its name is lost
  and the four views of the topology disagree; the same happens when the
  supervisor's stop raises after a teardown. `Controller.StepAgrees` states exactly when.
- Validation bounds neither the length of a core list nor that of port names, while the daemon does;
  `Argv.CommandLineRoundTrip` gives the exact condition under which the daemon accepts an accepted profile, and
  `Argv.LongCoreListRefused` core lists that it refuses.

## Model

| member | source | states |
|---|---|---|
| `JsonScanner.ScannerLanguage` | dpdkd/src/json_proto.c:192-595 | for every input and nesting level the value scanner succeeds with a given rest exactly when the input is white space, a value of the scanner's grammar nesting at most 16 containers, and that rest, which cannot extend a number |
| `JsonScanner.DeepValuesRefused` | dpdkd/src/json_proto.c:322-340 | a well-formed value is refused for its nesting exactly when it exceeds the limit |
| `JsonScanner.ValueScanned` | dpdkd/src/json_proto.c:553-595 | every value tree, printed with any white space, is scanned to its exact end or refused as too deep |
| `JsonScanner.ValueRead` | dpdkd/src/json_proto.c:553-595 | whatever the scanner accepts is the printed form of a tree |
| `JsonScanner.MembersRead` | dpdkd/src/json_proto.c:322-414 | an accepted object body is a list of members, trailing comma allowed |
| `JsonScanner.ItemsRead` | dpdkd/src/json_proto.c:416-480 | an accepted array body is a list of items, trailing comma allowed |
| `JsonScanner.StringScanned` | dpdkd/src/json_proto.c:204-312 | a printed string is decoded if it fits the buffer, otherwise refused with the part that fits stored |
| `JsonScanner.StringRead` | dpdkd/src/json_proto.c:204-312 | a string the scanner reads is white space and a quoted body whose meaning is the output |
| `JsonScanner.EscapeLetters` | dpdkd/src/json_proto.c:244-285 | the byte of each of the eight escape letters; there are no others |
| `JsonScanner.NumberScanned` | dpdkd/src/json_proto.c:506-551 | every number of the grammar is skipped to its exact end |
| `JsonScanner.NumberRead` | dpdkd/src/json_proto.c:506-551 | whatever is skipped as a number is a number of the grammar that the rest cannot extend |
| `RequestParser.RequestLanguage` | dpdkd/src/json_proto.c:597-758 | a request parses to an id and a cmd exactly when its whole text holds each of the three keys exactly once with these meanings |
| `RequestParser.AnyFieldOrder` | dpdkd/src/json_proto.c:597-758 | the three fields in any order and with any white space give exactly their id and cmd |
| `RequestParser.FinalBraceOptional` | dpdkd/src/json_proto.c:626-736 | an accepted request is accepted without its last brace, with the same id and cmd, exactly when dropping it leaves no white space behind a comma; otherwise it is refused |
| `RequestParser.OnlyBraceDropped` | dpdkd/src/json_proto.c:626-736 | what is dropped there is one closing brace with only white space behind it |
| `RequestParser.BraceNeeded` | dpdkd/src/json_proto.c:626-638 | a request with a trailing comma and a blank is accepted, and refused without its brace |
| `RequestParser.FieldsScanned` | dpdkd/src/json_proto.c:626-758 | a list of fields is accepted from any progress exactly when it completes that progress |
| `RequestParser.FieldsJudged` | dpdkd/src/json_proto.c:626-758 | a well-formed text is accepted, or refused for the first repeated field or for a missing one, with the id so far |
| `RequestParser.OuterRefusals` | dpdkd/src/json_proto.c:615-623 | a text that does not start with a brace is no object, and only white space may follow a closed request |
| `JsonCursor.SkipWsAt` | dpdkd/src/json_proto.c:192-202 | the cursor stops at the first byte that is not white space |
| `JsonCursor.ParseStringAt` | dpdkd/src/json_proto.c:204-312 | the cursor and the output buffer agree with the string scanner, the buffer keeping its terminator |
| `JsonCursor.SkipNumberAt` | dpdkd/src/json_proto.c:506-551 | the cursor agrees with the number scanner |
| `JsonCursor.SkipLiteralAt` | dpdkd/src/json_proto.c:482-504 | the cursor agrees with the literal scanner |
| `JsonCursor.SkipValueAt` | dpdkd/src/json_proto.c:553-595 | the mutually recursive cursor code agrees with the value scanner, terminates and never passes the end |
| `JsonCursor.SkipObjectAt` | dpdkd/src/json_proto.c:322-414 | the object loop agrees with the object scanner |
| `JsonCursor.SkipArrayAt` | dpdkd/src/json_proto.c:416-480 | the array loop agrees with the array scanner |
| `JsonCursor.ParseRequestAt` | dpdkd/src/json_proto.c:597-758 | the loop over id and cmd buffers ends with the same request or error as the specification |
| `JsonCursor.FieldPassAt` | dpdkd/src/json_proto.c:626-736 | one pass of that loop consumes a field or the closing brace |
| `JsonEscape.ScanUndoesEscape` | dpdkd/src/json_proto.c:204-312 | the string scanner gives back every string that was escaped and quoted |
| `JsonEscape.EscapeFits` | dpdkd/src/json_proto.c:760-830 | an escaped string needs less than twice its length plus one, and a string of quotes needs twice its length |
| `JsonEscape.EscapeString` | dpdkd/src/json_proto.c:760-830 | the escaping loop fills the buffer with the escaped string and succeeds exactly when it fits |
| `Responses.RenderItems` | dpdkd/src/json_proto.c:979-1056 | the loop with one bounded print per port produces the whole list exactly when the list and its terminator fit |
| `Responses.RenderPorts` | dpdkd/src/json_proto.c:979-1056 | rendering ports equals the specified text or fails |
| `Responses.StatsIsObject` | dpdkd/src/json_proto.c:1058-1086 | the rendered counters are one object of the scanner's grammar |
| `Responses.HealthIsObject` | dpdkd/src/json_proto.c:919-953 | the rendered health is one object of the scanner's grammar |
| `Responses.PortsIsObject` | dpdkd/src/json_proto.c:979-1056 | the rendered port list is one object of the scanner's grammar |
| `Responses.VersionIsObject` | dpdkd/src/json_proto.c:903-917 | the rendered version is one object of the scanner's grammar |
| `Responses.AckIsObject` | dpdkd/src/json_proto.c:866-901 | the rendered acknowledgement is one object of the scanner's grammar |
| `Responses.SuccessIsObject` | dpdkd/src/json_proto.c:1088-1118 | a success response around an object payload is one object |
| `Responses.ErrorIsObject` | dpdkd/src/json_proto.c:1120-1174 | an error response is one object |
| `Responses.StatsFit` | dpdkd/src/json_proto.c:1058-1086 | any 64-bit counters fit the 1024-byte payload buffer |
| `Responses.HealthFits` | dpdkd/src/json_proto.c:919-953 | any health state fits the payload buffer |
| `Responses.PortsFit` | dpdkd/src/json_proto.c:979-1056 | any two ports fit the payload buffer |
| `Responses.SuccessFits` | dpdkd/src/json_proto.c:1088-1118 | any success response fits the 16384-byte response buffer |
| `Responses.ErrorFits` | dpdkd/src/json_proto.c:1120-1174 | any error response fits the response buffer |
| `Responses.SuccessAnswersId` | dpdkd/src/json_proto.c:1088-1118 | the id of a success response decodes to the request's id |
| `Responses.ErrorAnswersId` | dpdkd/src/json_proto.c:1120-1174 | the id of an error response decodes to the request's id |
| `ResponseFields.StatsReadBack` | dpdkd/src/json_proto.c:1058-1086 | each of the eight counters is found, as a number, under its own name |
| `ResponseFields.HealthReadBack` | dpdkd/src/json_proto.c:919-953 | state name, message, rule version and flags are found under their names |
| `ResponseFields.PortReadBack` | dpdkd/src/json_proto.c:1005-1035 | a port's name, id, role and state are found under their names |
| `ResponseFields.PortsReadBack` | dpdkd/src/json_proto.c:979-1056 | every port is found in the list, in order, and no more |
| `ResponseFields.ErrorReadBack` | dpdkd/src/json_proto.c:1120-1174 | an error response carries its id, ok false, the code's name and the message |
| `ResponseFields.SuccessReadBack` | dpdkd/src/json_proto.c:1088-1118 | a success response carries its id, ok true and the payload object under its name |
| `ResponseFields.VersionReadBack` | dpdkd/src/json_proto.c:903-917 | service, version and DPDK version are found under their names |
| `ResponseFields.AckReadBack` | dpdkd/src/json_proto.c:866-901 | the message is found under its name |
| `StandardJson.ErrorIsStandard` | dpdkd/src/json_proto.c:1120-1174 | an error response is text of RFC 8259 exactly when id and message hold no control byte below 0x20 other than newline, carriage return and tab |
| `StandardJson.SuccessIsStandard` | dpdkd/src/json_proto.c:1088-1118 | a success response around a standard payload is text of RFC 8259 exactly under the same condition on its id |
| `StandardJson.HealthIsStandard` | dpdkd/src/json_proto.c:919-953 | the health payload is standard exactly under that condition on its message |
| `StandardJson.AckIsStandard` | dpdkd/src/json_proto.c:866-901 | an acknowledgement is standard exactly under that condition on its message |
| `StandardJson.PortIsStandard` | dpdkd/src/json_proto.c:1005-1035 | a port is standard exactly under that condition on its name |
| `StandardJson.PortsAreStrict` | dpdkd/src/json_proto.c:979-1056 | a list of such ports is standard |
| `StandardJson.StatsIsStandard` | dpdkd/src/json_proto.c:1058-1086 | the counters are standard whatever their values |
| `StandardJson.EscapeIsStrict` | dpdkd/src/json_proto.c:803-817 | the escaper writes a standard string body exactly for such strings |
| `Framing.HeaderRoundTrip` | dpdkd/src/json_proto.c:106-190 | the four-byte big-endian length is read back as written |
| `Framing.HeaderIsBigEndian` | dpdkd/src/json_proto.c:106-190 | the most significant byte of a length is written and read first |
| `Framing.FramesRoundTrip` | dpdkd/src/json_proto.c:106-190 | framed payloads of 1 to 16383 bytes are recovered in order, whatever follows them |
| `Framing.FramesOnly` | ctrld/pktlab_ctrld/dpdk_client/protocol.py:40-50 | a stream of such frames alone is recovered completely and ends cleanly |
| `Framing.ReadExact` | dpdkd/src/json_proto.c:57-81 | however the stream is split into reads, exactly the requested bytes are read, or the end or error is reported |
| `Framing.PyReadExact` | ctrld/pktlab_ctrld/dpdk_client/protocol.py:102-116 | the chunk-collecting loop reads exactly the requested bytes, whatever the chunks |
| `Framing.ReadFrame` | dpdkd/src/json_proto.c:106-146 | the C reader takes exactly the next frame of the stream |
| `Framing.RecvFrame` | ctrld/pktlab_ctrld/dpdk_client/protocol.py:40-50 | the Python reader takes exactly the next frame of the stream |
| `Framing.ReadAllFrames` | dpdkd/src/json_proto.c:106-146 | the C reader recovers any list of payloads from any splitting of the stream |
| `Framing.RecvAllFrames` | ctrld/pktlab_ctrld/dpdk_client/protocol.py:40-50 | the Python reader recovers any list of payloads from any splitting of the stream |
| `Framing.WriteExact` | dpdkd/src/json_proto.c:83-104 | partial writes add up to the whole buffer, or to a prefix of it on an error |
| `Framing.WriteFrame` | dpdkd/src/json_proto.c:148-190 | a successful write sends the frame and a failed one a proper prefix |
| `Framing.FramePayload` | ctrld/pktlab_ctrld/dpdk_client/protocol.py:89-99 | the Python sender frames exactly the payloads that the readers accept |
| `Connection.OneResponsePerFrame` | dpdkd/src/ipc_server.c:150-204 | serving any list of frames gives one response per frame, in order, each as good as the handler's |
| `Connection.Exchange` | dpdkd/src/ipc_server.c:166-203 | one exchange adds the framed response to what was sent, or a proper part of it when the write fails, or nothing when there is no response |
| `Connection.HandleClient` | dpdkd/src/ipc_server.c:150-204 | over any byte stream the loop sends the framed responses of the frames it took, in order, the last one cut short only by a failed write; it ends only with the stream, a missing response or a failed write |
| `Connection.ResponsesRecovered` | ctrld/pktlab_ctrld/dpdk_client/protocol.py:40-50 | from what is on the wire the other end recovers exactly the responses sent completely |
| `IpcServer.Process.DispatchRequest` | dpdkd/src/daemon.c:45-182 | the in-place dispatch, branch by branch, ends in the specified daemon state and counters with the specified reply |
| `IpcServer.Process.Report` | dpdkd/src/daemon.c:53-133 | the commands that only report, and the reset of the counters |
| `IpcServer.Process.RefreshStartedHealth` | dpdkd/src/daemon.c:22-36 | health after the start follows the datapath's readiness |
| `IpcServer.Process.RefreshPausedHealth` | dpdkd/src/daemon.c:38-43 | health after a pause or resume follows the pause flag |
| `IpcServer.ServingAtStart` | dpdkd/src/daemon.c:238-253 | the serving invariant holds when the server loop is entered |
| `IpcServer.DispatchKeepsServing` | dpdkd/src/daemon.c:45-182 | every command keeps it: paused state iff the flag is set, running iff ready and not paused, degraded iff not ready |
| `IpcServer.OnlyFlipsChange` | dpdkd/src/datapath.c:502-546 | the daemon changes exactly when the pause flag flips, the acknowledgement says so, and a rejected command changes nothing |
| `IpcServer.DispatchRenders` | dpdkd/src/daemon.c:45-182 | every granted reply is an object text below 1024 bytes, and the only denials are inactive forwarding and unknown command |
| `IpcServer.FrameIdIsShort` | dpdkd/src/json_proto.c:597-758 | the id found in any frame has at most 64 bytes |
| `IpcServer.EveryFrameAnswered` | dpdkd/src/ipc_server.c:150-204 | every frame, parseable or not, gets a response that fits, is one object and answers the request's id |
| `IpcServer.DaemonIsGood` | dpdkd/src/daemon.c:45-182 | the daemon is a handler for which the connection theorems hold |
| `IpcServer.ConnectionServed` | dpdkd/src/ipc_server.c:150-204 | over any list of frames the responses match one to one and can be deframed by the client |
| `IpcServer.ServeClient` | dpdkd/src/ipc_server.c:150-204 | over any byte stream in any splitting a serving daemon always answers: state and responses are those of serving the frames taken, each answers its frame, they are on the wire in order, and the client recovers every one sent completely |
| `Answers.StatsAnswered` | dpdkd/src/daemon.c:106-115 | get_stats is answered with each counter under its name |
| `Answers.HealthAnswered` | dpdkd/src/daemon.c:79-89 | get_health is answered with the state that the datapath's flags tell, both flags and the message |
| `Answers.PortsAnswered` | dpdkd/src/daemon.c:90-105 | get_ports is answered with both ports, ingress first, with name, id, role and state |
| `Answers.VersionAnswered` | dpdkd/src/daemon.c:70-78 | get_version is answered with service, version and DPDK version |
| `Answers.PingAnswered` | dpdkd/src/daemon.c:65-69 | ping is answered with pong |
| `Answers.ResetAnswered` | dpdkd/src/daemon.c:117-127 | reset_stats is acknowledged and zeroes the counters |
| `Answers.PauseAnswered` | dpdkd/src/daemon.c:128-146 | pause_datapath sets the flag and health of an active datapath and says whether that changed anything |
| `Answers.ResumeAnswered` | dpdkd/src/daemon.c:147-165 | resume_datapath clears the flag and says whether that changed anything |
| `Answers.InactiveAnswered` | dpdkd/src/datapath.c:49-64 | pausing or resuming a datapath that does not forward is a state conflict and changes nothing |
| `Answers.UnknownAnswered` | dpdkd/src/daemon.c:166-169 | any other command is answered as unknown |
| `Answers.UnparsedAnswered` | dpdkd/src/ipc_server.c:129-148 | a request that does not parse is answered with the message of what is wrong and the code of a bad request or payload |
| `Burst.PacketFieldsReadBack` | dpdkd/src/parser.c:28-110 | the fields of any TCP or UDP packet laid out by RFC 791 and RFC 9293 are read back |
| `Burst.OtherTypesPass` | dpdkd/src/parser.c:41-44 | a packet of any other EtherType passes with that type and no further fields |
| `Burst.OtherProtocolsPass` | dpdkd/src/parser.c:54-78 | an IPv4 packet of any protocol but TCP and UDP passes with its addresses and without ports |
| `Burst.RefusedExactly` | dpdkd/src/parser.c:28-110 | exactly these packets do not parse: too short for Ethernet; IPv4 and too short, of another version, with a short header, or without its ports |
| `Burst.GoodExactly` | dpdkd/src/datapath.c:171-184 | the candidates are exactly the received packets that are not refused |
| `Burst.LongerStillParses` | dpdkd/src/parser.c:16-112 | appending bytes keeps a successful parse and its fields |
| `Burst.GoodOrUnparsed` | dpdkd/src/datapath.c:171-184 | the parseable and the other packets together are the received ones |
| `Burst.Compact` | dpdkd/src/datapath.c:170-184 | in-place compaction leaves exactly the parseable packets in order and frees the others |
| `Burst.DropBurst` | dpdkd/src/actions.c:8-20 | the loop frees exactly the given range |
| `Burst.ForwardBurst` | dpdkd/src/actions.c:22-45 | a prefix is handed to the device and the rest is freed |
| `Counters.ForwardDirection` | dpdkd/src/datapath.c:144-206 | a burst's transmitted and freed packets and its counters are the specified ones, for any receive and transmit count, and the counters are added to the tracker |
| `Counters.ForwardAll` | dpdkd/src/datapath.c:236-251 | after any number of passes the tracker holds exactly the bursts of the passes that brought packets, and the packets sent and freed are those of the passes in order |
| `Counters.CountersMatchPackets` | dpdkd/src/datapath.c:157-204 | the sums of the counters are the numbers of packets received, transmitted and freed, and of passes that brought some |
| `Counters.DropCountersMatch` | dpdkd/src/datapath.c:157-204 | the drop counters tell parse errors and unsent packets apart |
| `Counters.PassesConserve` | dpdkd/src/actions.c:8-45 | over all passes every packet received is transmitted or freed, once |
| `Counters.PassesAreBursts` | dpdkd/src/ports.c:44-60 | the counted bursts of the passes satisfy the premise of every theorem about snapshots |
| `Burst.BurstConserves` | dpdkd/src/datapath.c:144-206 | received packets are transmitted plus freed ones, rx = tx + drop and drop = parse errors + unsent |
| `Burst.ExactlyOneOwner` | dpdkd/src/actions.c:8-45 | each received packet is transmitted once or freed once, never both |
| `Counters.Tracker.AddBurst` | dpdkd/src/stats.c:37-56 | all eight counters are added with 64-bit wrap-around |
| `Counters.Tracker.Reset` | dpdkd/src/stats.c:26-35 | an initialized tracker is zeroed |
| `Counters.Tracker.Snapshot` | dpdkd/src/stats.c:58-71 | a snapshot is the tracker's counters |
| `Counters.RunCalls` | dpdkd/src/stats.c:26-71 | a tracker given any list of calls holds what the specification says |
| `Counters.TrackerIsSum` | dpdkd/src/stats.c:26-71 | every snapshot is the sum of bursts since the last reset, modulo 2^64 |
| `Counters.SumIsBalanced` | dpdkd/src/datapath.c:157-204 | every sum of bursts satisfies the relations between counters |
| `Counters.SnapshotsBalance` | dpdkd/src/stats.c:26-71 | rx = tx + drop holds in every snapshot of every run, modulo 2^64 |
| `Counters.SnapshotsExact` | dpdkd/src/stats.c:26-71 | without wrap-around, tx bursts <= rx bursts <= rx packets <= 256 * rx bursts and exact balance |
| `Lifecycle.ReachableInv` | dpdkd/src/datapath.c:209-446 | the two-thread invariant holds after every schedule, with any start-up call failing |
| `Lifecycle.StartKeepsClaims` | dpdkd/src/ports.c:150-287 | each start-up call acquires what its position says, a failing one nothing |
| `Lifecycle.CleaningKeepsClaims` | dpdkd/src/ports.c:289-312 | each cleanup call releases a held resource once and skips one that is not held |
| `Lifecycle.NoUseAfterRelease` | dpdkd/src/datapath.c:432-446 | while the worker lives every resource is held, and teardown starts only after it is joined |
| `Lifecycle.ReleasedExactlyOnce` | dpdkd/src/eal.c:185-230 | EAL, pool, ports and synchronization are acquired at most once, released only if held, and none is held at the end |
| `Lifecycle.NoLostWakeup` | dpdkd/src/datapath.c:123-141 | a control thread asleep without a signal has a worker that has yet to send it |
| `Lifecycle.NeverStuck` | dpdkd/src/datapath.c:258-329 | until the end one of the two threads can move, without relying on spurious wake-ups |
| `Lifecycle.HandshakeEnds` | dpdkd/src/datapath.c:258-315 | in every fair run without spurious wake-ups the start handshake ends within 42 stretches that pick both threads |
| `Lifecycle.JoinReturns` | dpdkd/src/datapath.c:317-329 | once asked to stop, the worker exits within seven of its own steps, so join returns |
| `Lifecycle.PauseBound` | dpdkd/src/datapath.c:236-251 | from any paused state, no more bursts start than the worker had committed to |
| `Lifecycle.PausedRunIsBounded` | dpdkd/src/datapath.c:502-523 | in every run a pause of a forwarding datapath raises the flag, and until a resume at most two more bursts start and at most 2 * burst_size packets are received |
| `Lifecycle.CommandsSetTheFlag` | dpdkd/src/datapath.c:502-546 | pause raises and resume lowers the flag of a forwarding datapath and are refused otherwise; a shutdown leads to the stop of the worker |
| `Lifecycle.ResumeStartsAgain` | dpdkd/src/datapath.c:236-251 | after a resume the worker starts a burst within four of its steps |
| `Lifecycle.CanServe` | dpdkd/src/datapath.c:362-430 | with every call succeeding the daemon comes to serve a forwarding datapath |
| `Lifecycle.ShutdownCompletes` | dpdkd/src/datapath.c:432-446 | from any point of a shutdown every fair run ends, within twenty stretches that pick both threads, with everything released |
| `TopologyConfig.RefRoundTrip` | ctrld/pktlab_ctrld/config/validation.py:718-734 | a namespace:interface reference is read back as its two parts |
| `TopologyConfig.ParseRef` | ctrld/pktlab_ctrld/topology/links.py:62-64 | a reference that validation accepts is split the same way when links are built |
| `TopologyConfig.ShiftDivides` | ctrld/pktlab_ctrld/config/validation.py:447-456 | the leading bits of an address are its quotient by a power of two |
| `TopologyConfig.NetworkIsBlock` | ctrld/pktlab_ctrld/config/validation.py:554-561 | an address is in a network exactly when it lies in the block, of the size of the prefix, around the interface address |
| `TopologyConfig.SameNetwork` | ctrld/pktlab_ctrld/config/validation.py:447-456 | two interface addresses share a network exactly when prefixes are equal and one lies in the block of the other |
| `Validation.CollectDuplicateNames` | ctrld/pktlab_ctrld/config/validation.py:349-368 | no issue exactly when the names are distinct; the set of names is returned |
| `Validation.CheckEnd` | ctrld/pktlab_ctrld/config/validation.py:394-420 | an end is in order exactly when its namespace is declared and no earlier link uses it |
| `Validation.CheckAddresses` | ctrld/pktlab_ctrld/config/validation.py:422-459 | no issue exactly when both ends or neither are addressed, in one network |
| `Validation.CollectLinkIssues` | ctrld/pktlab_ctrld/config/validation.py:371-459 | no issue exactly when all links are in order and their ends pairwise distinct; interfaces and connected networks are collected |
| `Validation.CollectPortIssues` | ctrld/pktlab_ctrld/config/validation.py:462-516 | no issue exactly when there is one ingress and one egress port, distinct and in the datapath namespace |
| `Validation.CollectRouteIssues` | ctrld/pktlab_ctrld/config/validation.py:519-561 | no issue exactly when each gateway lies in a directly connected network |
| `Validation.CollectCaptureIssues` | ctrld/pktlab_ctrld/config/validation.py:564-594 | no issue exactly when captures have distinct names and resolve |
| `Validation.CollectBridgeSideIssues` | ctrld/pktlab_ctrld/config/validation.py:597-615 | no issue exactly when both bridge-side interfaces are declared |
| `Validation.CheckMatch` | ctrld/pktlab_ctrld/config/validation.py:661-695 | no issue exactly when a rule's match is consistent and readable |
| `Validation.CollectRuleIssues` | ctrld/pktlab_ctrld/config/validation.py:618-652 | no issue exactly when rule ids are unique, matches in order and targets resolve |
| `Validation.ValidateTopology` | ctrld/pktlab_ctrld/config/validation.py:90-171 | a topology is accepted exactly when the declarative predicate holds, with the derived profile |
| `Validation.RolesNeverMissing` | ctrld/pktlab_ctrld/topology/taps.py:69-73 | in an accepted topology both role lookups succeed with two distinct ports that no link uses |
| `Lcores.ParseLcoreSpec` | ctrld/pktlab_ctrld/config/validation.py:847-912 | the token loop with its early exits equals the specification |
| `Lcores.PrintedSpecParses` | ctrld/pktlab_ctrld/config/validation.py:847-912 | any printed list of ids and ascending ranges, with blanks and empty tokens, parses to their concatenation, without an issue exactly when no id repeats |
| `Lcores.CoreListLanguage` | ctrld/pktlab_ctrld/config/validation.py:847-912 | a core list is accepted with given ids exactly when it is such a printed list with these ids and none repeats |
| `RuntimePolicy.RoundUpIsLeast` | ctrld/pktlab_ctrld/config/validation.py:927-930 | the rounded size is the least power of two not below the argument |
| `RuntimePolicy.MempoolRule` | ctrld/pktlab_ctrld/config/validation.py:279-304 | a mempool reaches the recommended size exactly when a power of two below it covers four times the queues |
| `RuntimePolicy.HugepagesRule` | ctrld/pktlab_ctrld/config/validation.py:915-924 | an even number of megabytes suffices exactly when floor, overhead and mempool fit |
| `RuntimePolicy.AcceptedIffInEnvelope` | ctrld/pktlab_ctrld/config/validation.py:223-346 | a request is accepted exactly when its profile stays in the resource envelope |
| `RuntimePolicy.GivenFieldsStand` | ctrld/pktlab_ctrld/config/validation.py:230-244 | a field that is given is the field of the profile, and one left out has its default |
| `RuntimePolicy.DerivingIsAFixedPoint` | ctrld/pktlab_ctrld/config/validation.py:223-346 | deriving again from a derived profile changes nothing |
| `RuntimePolicy.EveryQueuePairFits` | ctrld/pktlab_ctrld/config/validation.py:223-346 | with two ports and sizes left out, every queue pair up to 4096 with a fitting burst is accepted |
| `RuntimePolicy.CapIsTight` | ctrld/pktlab_ctrld/config/validation.py:279-284 | the largest queues need exactly the 65536-buffer cap |
| `Argv.DigitsParse` | dpdkd/src/main.c:65-88 | a run of digits is read as its value exactly when that fits 32 bits |
| `Argv.ParseArguments` | dpdkd/src/main.c:90-202 | the argv loop equals the specification, including help, unknown options and missing values |
| `Argv.CommandLineRoundTrip` | ctrld/pktlab_ctrld/app.py:547-577 | rendering an accepted profile and reading it back gives the same configuration, which passes the daemon's checks exactly when the core list is under 64 and both names under 32 characters |
| `Argv.CommandLineText` | ctrld/pktlab_ctrld/app.py:547-570 | the command line word by word |
| `Argv.SignedNumbers` | dpdkd/src/main.c:65-88 | blanks in front and signs are read as strtoul reads them |
| `Argv.EarlyExits` | dpdkd/src/main.c:90-202 | help, unknown words and missing values end the program |
| `Argv.DefaultsPrepare` | dpdkd/src/main.c:98-108 | the defaults, which pass the daemon's own checks |
| `Argv.LongCoreListRefused` | dpdkd/src/eal.c:41-50 | core 1 behind any number of blanks is accepted by validation, and from 63 blanks on refused by the daemon |
| `Kernel.DelNamespaceWithin` | ctrld/pktlab_ctrld/util/netns.py:51-56 | deleting a namespace changes nothing outside a closed set of namespaces |
| `Kernel.DelIfaceWithin` | ctrld/pktlab_ctrld/util/netns.py:99-104 | deleting an interface with its peer changes nothing outside a closed set of namespaces |
| `Kernel.Restored` | ctrld/pktlab_ctrld/topology/manager.py:159-184 | two hosts that agree outside the declared namespaces and have nothing inside are equal |
| `Netns.Host.EnsureNamespace` | ctrld/pktlab_ctrld/util/netns.py:44-49 | the namespace exists afterwards, or an error and no change |
| `Netns.Host.DeleteNamespace` | ctrld/pktlab_ctrld/util/netns.py:51-56 | the namespace and all that goes with it is gone, or an error and no change, as the fate given for this deletion says |
| `Netns.Host.LinkExists` | ctrld/pktlab_ctrld/util/netns.py:58-69 | whether the interface exists; a missing namespace is an error |
| `Netns.Host.EnsureVethPair` | ctrld/pktlab_ctrld/util/netns.py:71-97 | both ends exist already or are created as a pair, or an error and no change |
| `Netns.Host.DeleteLink` | ctrld/pktlab_ctrld/util/netns.py:99-104 | the interface and its peer are gone, or an error and no change |
| `Netns.Host.EnsureBridge` | ctrld/pktlab_ctrld/util/netns.py:106-111 | an interface of that name exists, or an error and no change |
| `Netns.Host.AttachToBridge` | ctrld/pktlab_ctrld/util/netns.py:123-126 | the interface joins an existing bridge, or an error and no change |
| `Netns.Host.StartDatapath` | ctrld/pktlab_ctrld/app.py:520-539 | a running datapath is stopped first; a failure leaves one of the states on the way |
| `TopologyOps.EnsureNamespaces` | ctrld/pktlab_ctrld/topology/namespaces.py:9-13 | success creates every declared namespace and nothing else |
| `TopologyOps.DestroyNamespaces` | ctrld/pktlab_ctrld/topology/namespaces.py:16-20 | success leaves none of the declared namespaces; nothing outside changes; the first deletion that fails, from the back, ends it with all later ones gone |
| `TopologyOps.EnsureLinks` | ctrld/pktlab_ctrld/topology/links.py:14-29 | from a start without these interfaces, success joins every link with its addresses |
| `TopologyOps.EnsureBridges` | ctrld/pktlab_ctrld/topology/links.py:32-37 | success has both bridge names taken, by bridges unless the names were in use; nothing else is added and nothing lost |
| `TopologyOps.BringLinkEndpointsUp` | ctrld/pktlab_ctrld/topology/links.py:40-47 | success has every link end up, memberships unchanged |
| `TopologyOps.DestroyLinksAndBridges` | ctrld/pktlab_ctrld/topology/links.py:50-59 | only interfaces of declared namespaces go; success has bridges and first ends gone and needs every namespace it asks about, which is also enough when no command fails |
| `TopologyOps.OtherEndsGone` | ctrld/pktlab_ctrld/topology/links.py:50-59 | with the first ends of joined links their other ends are gone |
| `TopologyOps.ReconcileTaps` | ctrld/pktlab_ctrld/topology/taps.py:16-66 | success has both bridges, their four members and all of them up |
| `TopologyOps.LayoutIsAsDocumented` | ctrld/pktlab_ctrld/topology/taps.py:37-56 | each port shares a bridge with its side's kernel interface exactly when no port has the other side's kernel interface name |
| `TopologyOps.CrossedIsAccepted` | ctrld/pktlab_ctrld/config/validation.py:597-615 | validation accepts a topology whose ingress port is named veth-out-k |
| `TopologyOps.CrossedNeverAsDocumented` | ctrld/pktlab_ctrld/topology/taps.py:37-56 | a finished build of that topology never has the documented layout |
| `TopologyOps.EnsureRoutes` | ctrld/pktlab_ctrld/topology/routes.py:9-13 | success replaces the routes one by one |
| `TopologyOps.LastGatewayStands` | ctrld/pktlab_ctrld/topology/routes.py:9-13 | for each destination the last declared gateway stands |
| `TopologyManager.Manager.Build` | ctrld/pktlab_ctrld/topology/manager.py:88-101 | a build stays within the declared namespaces; from a clear start success has everything in place, is possible only for buildable names, and is certain for them when no command fails |
| `TopologyManager.InPlaceIsBuildable` | ctrld/pktlab_ctrld/topology/taps.py:37-56 | a topology in place has no link end or port named like a bridge of the datapath namespace |
| `TopologyManager.BridgeNamedNeverInPlace` | ctrld/pktlab_ctrld/config/validation.py:462-516 | validation accepts a topology whose egress port is named br-out, and it can never be in place |
| `TopologyManager.Manager.DestroyLocked` | ctrld/pktlab_ctrld/topology/manager.py:159-184 | each of the three phases does its part whatever the others did, and those that raised are counted; when no command fails the teardown succeeds exactly if every namespace it asks about is there |
| `TopologyManager.Manager.Apply` | ctrld/pktlab_ctrld/topology/manager.py:76-128 | every way an apply can end, with host and record after it; a load or validation failure changes nothing; a rollback is a teardown from where the build gave up and is clean only if that state is open; undisturbed, it succeeds exactly for buildable names and is otherwise rolled back cleanly |
| `TopologyManager.Manager.Destroy` | ctrld/pktlab_ctrld/topology/manager.py:130-157 | success clears the record and the topology; a failure keeps the record; when no command fails it succeeds exactly if every namespace the teardown asks about is there |
| `TopologyManager.ApplyBuildsEverything` | ctrld/pktlab_ctrld/topology/manager.py:76-128 | a returning apply has built every namespace, veth pair, address, bridge membership and route |
| `TopologyManager.FailedBuildIsUndone` | ctrld/pktlab_ctrld/topology/manager.py:101-118 | a failed build whose cleanup reports no error leaves the host exactly as it was before the build, and no record |
| `TopologyManager.DestroyUndoesApply` | ctrld/pktlab_ctrld/topology/manager.py:130-157 | apply and then a successful destroy restore the host |
| `TopologyManager.UndeclaredUntouched` | ctrld/pktlab_ctrld/topology/manager.py:76-128 | however an apply ends, namespaces declared by neither topology are untouched |
| `TopologyManager.SuccessStaysClosed` | ctrld/pktlab_ctrld/topology/manager.py:83-86 | after a success, applying over the same namespaces starts clear again |
| `TopologyManager.Session` | ctrld/pktlab_ctrld/topology/manager.py:76-157 | any sequence of operations is a run of apply and destroy steps from the host and record before to those after |
| `TopologyManager.RecordIsLastStanding` | ctrld/pktlab_ctrld/topology/manager.py:79-149 | over every run, told by operations and outcomes alone: there is a record exactly when some apply succeeded and no later operation tore it down, and it is that topology |
| `TopologyManager.StuckForever` | ctrld/pktlab_ctrld/topology/manager.py:159-184 | once a namespace that the teardown asks about is gone, every destroy and every accepted apply fails for good and the record stays |
| `TopologyManager.GetStuck` | ctrld/pktlab_ctrld/topology/manager.py:130-157 | a run from an empty host that ends so: apply, then a destroy that deletes one namespace and fails on the other |
| `Controller.Runtime.Start` | ctrld/pktlab_ctrld/app.py:133-158 | the in-place start ends as specified for the supervisor's answers |
| `Controller.Runtime.Stop` | ctrld/pktlab_ctrld/app.py:160-187 | the in-place stop ends as specified for the manager's outcome and the supervisor's answers |
| `Controller.Runtime.ApplyTopology` | ctrld/pktlab_ctrld/app.py:189-237 | the in-place apply ends as specified, refused for a blank path |
| `Controller.Runtime.DestroyTopology` | ctrld/pktlab_ctrld/app.py:239-272 | the in-place destroy ends as specified |
| `Controller.Runtime.HealthSnapshot` | ctrld/pktlab_ctrld/app.py:274-295 | a snapshot shows the supervisor's status, and running exactly when the datapath is as wanted, degraded with its reason otherwise, or the standing failure |
| `Controller.Runtime.ControlDatapath` | ctrld/pktlab_ctrld/app.py:384-412 | pause and resume end as specified |
| `Controller.Runtime.Recompute` | ctrld/pktlab_ctrld/app.py:414-456 | the chain of health cases equals the specified health, a standing failure first |
| `Controller.HealthIsExact` | ctrld/pktlab_ctrld/app.py:414-456 | health without a standing failure: running exactly when a wanted datapath runs, is reachable and reports running, or an unwanted one does not run; every other case is degraded with the named message |
| `Controller.StartAndStopTell` | ctrld/pktlab_ctrld/app.py:133-187 | how start and stop end, and what they leave started and wanted |
| `Controller.ApplyTells` | ctrld/pktlab_ctrld/app.py:189-237 | an apply is refused for a blank path and otherwise returns exactly on success, with the topology and its request wanted |
| `Controller.DestroyTells` | ctrld/pktlab_ctrld/app.py:239-272 | a destroy fails exactly with the manager, and leaves nothing wanted when it returns |
| `Controller.StepAgrees` | ctrld/pktlab_ctrld/app.py:133-295 | agreement of desired name and path, observed flag, effective profile and record survives a call exactly unless it starts a stopped controller with a topology on record, or the supervisor's stop raises behind a teardown |
| `Controller.ApplyRestores` | ctrld/pktlab_ctrld/app.py:222-237 | an apply that returns brings the views together from any state |
| `Controller.RunAgrees` | ctrld/pktlab_ctrld/app.py:133-295 | in every sequential run, further starts included, the views agree as long as no such call occurs |
| `Controller.FirstDetachBreaks` | ctrld/pktlab_ctrld/app.py:143-146 | the first such call of a run does break the agreement |
| `Controller.StepShows` | ctrld/pktlab_ctrld/app.py:414-456 | a standing failure is shown and survives every call but apply, destroy, a stop once started and a start once stopped |
| `Controller.FailureStands` | ctrld/pktlab_ctrld/app.py:189-295 | after a failed apply or destroy every view of a run shows that failure until the next such call |
| `Controller.StartForgetsTopology` | ctrld/pktlab_ctrld/app.py:143-146 | applying before the start and then starting breaks the agreement |
| `Controller.Session` | ctrld/pktlab_ctrld/app.py:133-412 | any list of calls with any answers is a run of specified steps from the view before to the view after |

## Left out

- Bytes are modelled as `char`; nothing depends on values above 255, and whether bytes above 127 form UTF-8 is not modelled.
- The renderers' calls to vsnprintf are functions from values to text with a capacity; only the port list and the escaper, which the source writes with loops, are methods.
- A write that returns 0 without an error, and signals other than an interrupted call.
- The Python side of requests and responses (`encode_request`, `parse_response`): JSON library calls and pydantic models.
- DPDK itself: receive and transmit are arbitrary counts up to what is asked for, a packet is a byte sequence, and port, pool and EAL calls acquire, release or fail.
- Weak memory, sleeps and timeouts: threads interleave at the granularity of the steps in `Lifecycle`; the start handshake's liveness is shown for fair runs without spurious wake-ups.
- Lifecycle.ReachableInv: covers runs that reach `pktlab_daemon_run`; failures of the initialization before it return without a thread or a device.
- Routes are kept per destination network, are accepted in any existing namespace and go only with their namespace, not with the interface they use.
- Waiting for a TAP interface is one question, since nothing else changes the host meanwhile.
- A datapath stop or kernel command that fails with an exception other than the project's own error type, and a topology manager built without its datapath callbacks.
- TopologyManager.ApplyBuildsEverything: assumes that declared namespaces exist beforehand only if the topology on record declares them, since commands skip what is already there.
- Process supervision: the supervisor's answers are inputs, and its status does not raise; whether it runs a datapath outside a topology is not part of the host state.
- Concurrent calls on the controller: each operation is one sequential step.
- Issue paths and messages, the namespace-to-interfaces table of a validated topology, and standalone ruleset validation; which issue is reported when the profile cannot be constructed.
- YAML and address parsing: an address field is a value or malformed; digits, blanks and hugepage arithmetic are ASCII and integer.
- Argv.CommandLineRoundTrip: names and paths hold no NUL, which an argument vector cannot carry.
- The reconcile plan, REST routes, the CLI, logging, captures, rules engine, scenarios and metrics: plumbing or not implemented.
