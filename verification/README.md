# NipoVPN: a verified model

NipoVPN carries a client's TCP stream inside HTTP requests and responses between an agent and a
server. This project models that path, from bytes to protocol, and proves what it is meant to keep:
bytes arrive once and in order, sessions do not disturb each other, a closed tunnel stays closed, and
each layer of encoding is undone by its partner. Nothing here runs; every claim is stated as a lemma or
as a method's contract, in Dafny 4.11. `dafny verify dfyconfig.toml` checks the whole project.

## How it is built

| layer | files | what of the program it models |
|---|---|---|
| bytes and codecs | `Bytes`, `HexCodec`, `Base64` | `general.hpp`: hex and base64; `std::string` searches and number parsing |
| headers and streams | `HttpUtils`, `Streams`, `Readers` | `http_utils.hpp`, the streambuf helpers, the two incremental message readers |
| parsers | `HostPort`, `Sni`, `HttpRequest`, `PartialHello`, `Socks5` | `http.cpp`, what it makes of a ClientHello given in part, the SOCKS5 handshake of `tcpconnection.cpp` |
| messages | `Wire`, `WireHeaders`, `Dial` | requests and responses through hex, cipher, base64 and HTTP, and the headers others see; the first request of a tunnel |
| server | `Server`, `ServerAnswers`, `ServerHandlers`, `Sessions` | `ServerHandler::handle` on `sessions_`, as a function, what it answers and when it acts, as an object, and with handlers interleaved |
| client | `ClientLifecycle` | the lifecycle of `TCPClient`: `closed_`, `tlsEnabled_`, two sockets, the timeout; the agent's two uses of it |
| agent | `AgentLoop`, `AgentTunnel` | the strand of a polled tunnel, as transitions and as an object |
| polled tunnel | `PolledTunnel`, `TunnelInvariants`, `TunnelUplink`, `TunnelDownlink`, `TunnelLifecycle`, `TunnelRetry`, `TunnelAlive`, `TunnelRounds` | agent, connection, server table and destination as one step system; what all its runs keep, and which runs it has: every exchange can be carried through |
| polled tunnel on bytes | `WireTunnel`, `WireReach` | the same system with real messages on one connection; every run of it is the run of its messages, and the other way round |
| direct tunnel | `DirectTunnel`, `DirectRounds` | the four relay loops, their buffers and the link between the ends; that every exchange can be carried through them |

Code that changes things in place is modelled by classes and loops (`HexCodec.StrToHexArrLoop`,
`Streams.Socket`, `Readers`, `Sni.TlsRequest`, `Socks5.ClientConnection`, `ServerHandlers.ServerHandler`,
`ClientLifecycle.TcpClient`, `AgentTunnel.TunnelConnection`, `DirectTunnel.RelayLoop`). Each method is
proved equal to a specification function, and the theorems are about those functions. The two tunnels
are step systems: network, client, destination, other sessions, faults and timing are events that may
occur in any order, so a theorem over runs holds for every schedule of them.

Sockets are sequences of non-empty pieces: the pieces fix how reads are cut and where the stream
fails, so quantifying over them is quantifying over all segmentations. The cipher is a pair of
functions with one assumed law, that unsealing undoes sealing (and that sealed text is not empty);
where sizes matter it is also assumed to add at most 32 bytes, the IV and the padding. A run of bytes
determines the run of its messages (`NetSteps`, event by event) and what the client's socket took
(`NetTook`), and the theorems about bytes are stated over these.

## What turned out not to hold

Five expectations are false of the code as written. Each has a concrete witness and the exact condition
under which the property does hold.

* *With TLS configured, `AgentHandler::handle` writes only over TLS.* It checks the mode first and
  whether the client is open second; a timeout between the two closes an open client and clears its
  TLS mode, and the reconnect is in clear (`SecondRequestInClear`, from a new client).
  `HandleKeepsTlsExactlyWhen`: it holds under every schedule if and only if the client is not already
  open with a timer behind it on entry. `postTunnelAction` has no such gap (`AttemptKeepsTls`).
* *A client that is neither open nor closed never connected.* Read with `isOpen` this fails after
  enabling TLS on an open plain client (`NotOpenNotClosedYetConnected`); it holds of the two layers
  themselves, and `NotOpenNotClosedMeansNeverConnected`: such a client has connected if and only if a
  plain connection is still open behind its TLS mode.
* *The uplink never repeats a chunk.* With connection reuse a send whose answer is lost is sent again,
  and the destination gets it twice (`RetryCanDuplicate`). `NeverTwiceExactlyWithoutReuse`: no schedule
  of faults repeats a chunk if and only if connection reuse is off. Exact conservation is proved for
  runs without faults, and the multiplicity bound for all runs.
* *The server recovers every body.* Its parser keeps Beast's default limit of one mebibyte on a request
  body and drops the connection beyond it (`LongBodyDropped`). `RequestRoundTrip`: the body comes back if
  and only if its encoded form is within the limit, and `OneReadFits`: whatever the agent reads from a
  client in one go is.
* *A ClientHello is recognised with its server name, or not at all.* `detectType` is
  given what was read up to a blank line or the end of the stream, and on the server what stands up to
  the first blank line; of a ClientHello that ends inside the name it reports a shorter name
  (`CutHelloDetected`, for every place it can end). `NameIsWholeExactly`: the name is right if and only
  if all of it is there.

The hex decoders also differ off the image of the encoder (`DecodersDisagreeOffImage`), which no
caller depends on.

## Model

| member | source | states |
|---|---|---|
| TunnelUplink.UplinkConserved | core/src/tcpconnection.cpp:676-695 | in every fault-free run the destination has been given a prefix of the early data followed by all the client's socket delivered, and while the destination is open and no chunk is in flight exactly that, but for a chunk not yet posted |
| TunnelUplink.ChunksAreClientBytes | core/src/tcpconnection.cpp:676-695 | over every run, faults included, the chunks posted by the agent plus the one it holds are the client's bytes: none lost, repeated or reordered on the agent's side |
| TunnelUplink.ChunksAtMostTwice | core/src/tcpconnection.cpp:527-534 | under every schedule of faults an open destination has the early data and then each chunk as adjacent copies in chunk order, at most two with connection reuse and at most one without |
| TunnelUplink.ExactStep | core/src/serverhandler.cpp:150-173 | every step keeps the uplink invariant: which chunks were written how often, what was torn, and whose target it is |
| TunnelLifecycle.NothingAfterShut | core/src/serverhandler.cpp:150-165 | in any run, once the open has been handled and no destination is open (refused, failed or closed), none ever is again or is given another byte |
| TunnelLifecycle.NothingAfterClose | core/src/serverhandler.cpp:218-229 | over whole runs: whatever came before the server handled the close and whatever comes after, a late send included and whether or not the open succeeded, the session stays out of the table, no destination of it is open and none is given another byte |
| TunnelUplink.ShutStaysShut | core/src/serverhandler.cpp:162-165 | no single event, of ours or of another session, reopens a shut destination or writes to it |
| TunnelDownlink.DownlinkConserved | core/src/tcpconnection.cpp:697-733 | in every fault-free run what the destination emitted is what the client's socket took, then what is in transit, then what is unread at the server |
| TunnelDownlink.NoPayloadTwice | core/src/serverhandler.cpp:175-216 | under every schedule of faults the client has an in-order subsequence of the payloads the server read, none twice, then at most part of the last |
| TunnelDownlink.PollsAwaitTheClient | core/src/tcpconnection.cpp:711-732 | payloads are 1 to bufferSize bytes, and no poll is armed, fired or answered while a client write is pending |
| TunnelDownlink.DownlinkStep | core/src/tcpconnection.cpp:697-733 | every step keeps the downlink invariant: the fate of each payload, and where the last one is |
| TunnelLifecycle.OneCloseThenAtMostOneSend | core/src/tcpconnection.cpp:676-742 | in every run no operation overlaps one of its kind, at most one of poll timer, recv and client write is pending, a started tunnel whose socket is shut was closed, a closed tunnel posted exactly one close, and after it came at most one send and nothing else |
| TunnelLifecycle.EndingPostsClose | core/src/tcpconnection.cpp:684-724 | client EOF, a read error and a write error each post the close, unless it was posted before, and then the socket is shut |
| TunnelLifecycle.CloseThenShut | core/src/tcpconnection.cpp:684-688 | however the attempt at the close ends, the socket is shut after it |
| TunnelLifecycle.LifecycleStep | core/src/tcpconnection.cpp:735-742 | every step keeps the list of posted actions in that shape |
| TunnelLifecycle.CloseShutsTarget | core/src/serverhandler.cpp:218-229 | handling the close shuts the destination, removes the session and writes nothing |
| TunnelRetry.NeverTwiceExactlyWithoutReuse | core/src/tcpconnection.cpp:527-534 | no schedule of faults hands a chunk to the destination twice, if and only if connection reuse is off |
| TunnelRetry.RetryCanDuplicate | core/src/tcpconnection.cpp:527-534 | from every reachable state with a first attempt on the wire, reuse on and the destination open, there is a continuation in which the destination gets the chunk twice |
| TunnelRetry.SendReachable | core/src/tcpconnection.cpp:275-310 | from every start the tunnel can open, start and put a send on the wire, by the nine events named |
| TunnelRetry.StartReachable | core/src/tcpconnection.cpp:275-310 | from every start six events dial the destination, hand it the early data, write the open reply and leave the tunnel started, its first read and first poll armed |
| TunnelRounds.PollCarries | core/src/tcpconnection.cpp:697-733 | what the destination sends, up to the buffer size, reaches the client by one poll: the timer expires, a recv is posted, served and answered, the payload written, and the next poll armed |
| TunnelRounds.SendCarries | core/src/tcpconnection.cpp:676-695 | what the client sends in one read reaches the destination by one send, and the next read is armed |
| TunnelRounds.TunnelCarries | core/src/tcpconnection.cpp:676-733 | any list of chunks and payloads, in any interleaving, is carried through by its rounds, one after the other: the destination has exactly the chunks more, the client exactly the payloads |
| TunnelRounds.ExchangeReachable | core/src/tcpconnection.cpp:270-310 | from every start, over any table, for any such list: a run without faults after which the destination has the early data and the chunks, the client the payloads, and the tunnel is ready for more |
| TunnelRounds.ClientEndsTunnel | core/src/tcpconnection.cpp:735-742 | from there the client's end of stream leads to a close that removes the session, shuts its destination without another byte, and shuts both sockets |
| TunnelAlive.NeverAsleep | core/src/tcpconnection.cpp:676-733 | in every state of every run an open started tunnel has a read pending, arrived or being posted, and a poll waiting, due, being posted or followed by a client write; a closed one with an open socket is posting its close |
| TunnelAlive.AliveStep | core/src/tcpconnection.cpp:676-742 | every event keeps it so |
| TunnelAlive.TimerPolls | core/src/tcpconnection.cpp:703-711 | an expired poll timer on an open tunnel posts a recv, clears the flag and arms nothing else |
| TunnelAlive.LateTimerPostsNothing | core/src/tcpconnection.cpp:706-709 | a cancelled timer, or one after the end, posts nothing |
| TunnelAlive.ChunkPosted | core/src/tcpconnection.cpp:690-692 | a chunk read from the client is posted whole as a send, and no read is armed before its answer |
| TunnelAlive.ReplyWritten | core/src/tcpconnection.cpp:277-310 | once the open reply is written read and poll are armed and the connection is kept exactly with connection reuse; if it cannot be written everything is shut |
| TunnelAlive.PayloadWritten | core/src/tcpconnection.cpp:714-727 | once a payload is written the next poll is armed |
| TunnelAlive.AnswerFollowed | core/src/tcpconnection.cpp:692-732 | after each answered action: an open's reply or a poll's payload is written, an empty poll is followed by the next poll, a send by the next read, a close or an unanswered open by the shutdown, with the connection kept exactly as announced |
| TunnelAlive.FailureFollowed | core/src/tcpconnection.cpp:527-534 | after a failed attempt: a second one exactly for a first send or recv with connection reuse, otherwise the next read or poll, or the shutdown |
| TunnelAlive.SealFailureFollowed | core/src/tcpconnection.cpp:464-470 | a refused seal is followed likewise, but the connection stays open where nothing shuts it |
| WireTunnel.NetStep | core/src/tcpconnection.cpp:440-546 | one step on real bytes is at most one step on messages, and keeps lockstep: the connection is empty, or carries exactly the current request, or exactly its response |
| WireTunnel.NetRefines | core/src/tcpconnection.cpp:440-546 | every run of bytes is the run of its messages, over the same agent, connection and table, with the same bytes read from the client and taken by the client |
| WireTunnel.Lockstep | core/src/tcpclient.cpp:367-445 | in every run of bytes, whenever no action is on the wire the connection holds no byte either way, and a response on it decodes to the answer given, in the run of its messages, to the action the agent waits for, after failures, reconnects and retries too |
| WireTunnel.BytesConserved | core/src/tcpconnection.cpp:676-733 | in every fault-free run of bytes the destination has a prefix of what the client's socket delivered, and what it emitted is what the client's socket took, then what is in transit, then what is unread |
| WireTunnel.BytesAtMostTwice | core/src/tcpconnection.cpp:527-534 | in every run of bytes, under every schedule of faults, an open destination has the client's stream with each chunk it was read in at most twice, or at most once without connection reuse |
| WireTunnel.BytesNeverTwice | core/src/serverhandler.cpp:175-216 | in every run of bytes what the client's socket took is an in-order subsequence of the payloads the server read, none twice, then at most part of the last |
| WireTunnel.NetStepFollows | core/src/tcpconnection.cpp:440-546 | one byte step, its meaning as a message step and what the client's socket takes in it go side by side |
| WireReach.RunRealized | core/src/tcpconnection.cpp:440-546 | the other direction: every run of messages without other sessions' requests or refused seals is the run behind some run of bytes |
| WireReach.BytesReachSend | core/src/tcpconnection.cpp:275-310 | from every start some run of bytes opens the tunnel, starts it and has the request of a send on the wire, to a live session |
| WireReach.BytesCarry | core/src/tcpconnection.cpp:440-546 | from every start, for any list of chunks and payloads, there is a run of bytes in which the client's socket delivers exactly the chunks and takes exactly the payloads, and the live destination has been given the early data and the chunks |
| WireReach.WaitingIsServable | core/src/serverhandler.cpp:84-113 | a request on the wire can be served, exactly if the size of the answer can be counted |
| WireReach.AnsweredIsReceivable | core/src/tcpclient.cpp:367-445 | a response on the wire can be received |
| WireReach.DeployedHasRoom | core/src/general.hpp:187-238 | with sizes any deployment has, every message of the tunnel fits its parser and a `size_t` |
| WireTunnel.RequestUnderstood | core/src/serverhandler.cpp:98-150 | the server frames the bytes of any posted action exactly and reads back its session, action and body |
| WireTunnel.ReceiveSimulates | core/src/tcpconnection.cpp:536-545 | what the agent decodes is the answer to the very action it posted, and nothing is left on the connection |
| WireTunnel.ServeSimulates | core/src/serverhandler.cpp:84-386 | serving the bytes of a request is serving its action, and leaves one decodable response |
| TunnelInvariants.AgentStep | core/src/tcpconnection.cpp:676-742 | every event, in any order, keeps the relation between the agent's flags and its pending operations |
| TunnelInvariants.OursStep | core/src/serverhandler.cpp:150-343 | every step keeps the session's entry its own target's, nobody else's, and its target shut once the entry is gone |
| TunnelInvariants.OtherKeepsTarget | core/src/serverhandler.cpp:150-343 | other sessions' actions leave our target as it was even after our entry is gone |
| AgentLoop.ReturnKeeps | core/src/tcpconnection.cpp:692-733 | the return from any posted action keeps at most one read, wait and write pending and polls only when no write is |
| AgentLoop.AttemptsKeep | core/src/tcpconnection.cpp:527-545 | answered, failed and unsealed attempts, with or without retry, keep the agent's invariant |
| AgentLoop.RunReadKeeps | core/src/tcpconnection.cpp:679-695 | so does the read handler |
| AgentLoop.RunTimerKeeps | core/src/tcpconnection.cpp:703-733 | so does the poll timer's handler, aborted or expired; that it posts a recv is `TunnelAlive.TimerPolls` |
| AgentLoop.RunWriteKeeps | core/src/tcpconnection.cpp:277-310 | so do the handlers of the open reply's write and of a payload's write |
| AgentTunnel.TunnelConnection.constructor | core/src/tcpconnection.cpp:275-291 | a connection writing its open reply is the agent's state before the tunnel starts |
| AgentTunnel.TunnelConnection.StartTunnelReadFromClient | core/src/tcpconnection.cpp:676-682 | arms a read unless closed, and does nothing else |
| AgentTunnel.TunnelConnection.StartTunnelPollServer | core/src/tcpconnection.cpp:697-705 | arms the timer and sets the flag unless closed or polling, and does nothing else |
| AgentTunnel.TunnelConnection.SendOnce | core/src/tcpconnection.cpp:446-525 | for each way an attempt can end, whether the connection is open after it |
| AgentTunnel.TunnelConnection.PostTunnelAction | core/src/tcpconnection.cpp:527-545 | one attempt, or two with reuse unless closing; the result is the answer of the attempt that got one |
| AgentTunnel.TunnelConnection.CloseTunnelAndShutdown | core/src/tcpconnection.cpp:735-742 | one close, posted before the shutdown, never again |
| AgentTunnel.TunnelConnection.OnClientRead | core/src/tcpconnection.cpp:683-694 | the read handler with its whole post is the transition system's handler run to its end |
| AgentTunnel.TunnelConnection.OnPollTimer | core/src/tcpconnection.cpp:706-732 | likewise the poll handler, its recv and what follows the answer (`TunnelAlive.TimerPolls`, `AnswerFollowed`) |
| AgentTunnel.TunnelConnection.OnClientWritten | core/src/tcpconnection.cpp:714-727 | likewise the write handlers |
| AgentTunnel.TunnelConnection.SocketShutdown | core/src/tcpconnection.cpp:782-840 | once only: the client socket, the server connection and the timer are closed and pending operations end in error |
| DirectTunnel.FarIsPrefixOfNear | core/src/tcpconnection.cpp:927-1053 | over every run from relay start, through both relays and the link, each far end has a prefix of what was read at the near end, and while nothing is closed the rest is exactly what buffers and link hold |
| DirectTunnel.StepKeepsInv | core/src/tcpconnection.cpp:927-1053 | every event keeps each loop's buffer, pending operation and link consistent |
| DirectTunnel.OneOperationEach | core/src/tcpconnection.cpp:927-1053 | in every state of every run no loop has begun a read or a write over one of its kind or has both pending, and no step refills a buffer whose write goes on |
| DirectTunnel.ClosedForGood | core/src/tcpconnection.cpp:782-785 | an end once closed is closed in every later state of every run |
| DirectRounds.ErrorShutsItsEnd | core/src/tcpconnection.cpp:934-955 | an error on a loop closes its end, stops both its loops, and changes nothing that was read, written or is under way |
| DirectRounds.LoopRelays | core/src/tcpconnection.cpp:927-1053 | a loop that reads a chunk writes exactly that chunk and reads on, the other three untouched |
| DirectRounds.RelaysDeliver | core/src/tcpconnection.cpp:927-1053 | any list of chunks, in any interleaving of the two directions, is carried through both relays: the target has exactly the client's chunks more, the client exactly the target's, and every loop reads again |
| DirectRounds.StartsAtRest | core/src/tcpconnection.cpp:927-1053 | the relays start in a state from which that holds |
| DirectTunnel.RelayLoop.OnRead | core/src/tcpconnection.cpp:933-956 | a chunk read into the fixed buffer, byte by byte, is the chunk its write sends, and the loop's invariant holds |
| DirectTunnel.RelayLoop.OnProgress | core/src/tcpconnection.cpp:945-955 | partial writes pass on the buffer's bytes in order |
| DirectTunnel.RelayLoop.OnWritten | core/src/tcpconnection.cpp:948-955 | a finished write starts the loop over; an error stops it |
| Wire.RequestRoundTrip | core/src/tcpconnection.cpp:464-489 | for every body, blank lines included, every session, action and decoy free of CR and LF, the message is one frame, and the server recovers session, action and body exactly if the encoded body is within its parser's limit, and otherwise drops the request |
| Wire.LongBodyDropped | core/src/http.cpp:52-64 | with a cipher that adds one byte, for every session, action and decoy: a body is dropped if and only if it is longer than 393215 bytes |
| Wire.OneReadFits | core/src/general.hpp:187-238 | what the agent reads from a client in one go, open or send, always fits once sealed |
| Wire.ResponseRoundTrip | core/src/serverhandler.cpp:50-82 | the response is one frame and the agent recovers exactly the plain body, though the sealed body is arbitrary binary |
| Wire.DeliverRequest | core/src/tcpconnection.cpp:1099-1156 | the same through the server's reader, for every segmentation of the stream |
| Wire.DeliverResponse | core/src/tcpclient.cpp:643-721 | the same through the agent's reader, for every segmentation of the stream |
| Wire.RequestFrame | core/src/agenthandler.cpp:98-110 | a request's declared length and outer headers are what its reader finds, and its body exactly if it is within the limit |
| WireHeaders.RequestNamesHost | core/src/agenthandler.cpp:98-99 | the Host a reader finds in a request is the configured one, whatever the decoy path, session and action contain |
| WireHeaders.RequestNamesAgent | core/src/agenthandler.cpp:98-100 | likewise its User-Agent |
| WireHeaders.RequestSaysConnection | core/src/agenthandler.cpp:106-110 | and its Connection header says keep-alive exactly if the connection is to be kept |
| WireHeaders.ActionSaysConnection | core/src/tcpconnection.cpp:473-486 | in a tunnel that is exactly with connection reuse, but for the close, and for send, recv and close it is what the agent then does |
| WireHeaders.RequestIsTheDecoy | core/src/agenthandler.cpp:98-112 | Beast sees the decoy method and path and exactly the encoded body |
| WireHeaders.RequestSaysAccept | core/src/agenthandler.cpp:98-104 | it accepts anything |
| WireHeaders.RequestSaysType | core/src/agenthandler.cpp:98-104 | and calls its body text |
| WireHeaders.ResponseSaysStatus | core/src/serverhandler.cpp:50-82 | a response's first line carries the status, or a 500 if it could not be sealed |
| WireHeaders.ResponseSaysConnection | core/src/serverhandler.cpp:50-82 | and its Connection header the decision, or close |
| Dial.ServerDialsRequested | core/src/tcpconnection.cpp:618-672 | for every SOCKS5 CONNECT to a dialable host and port 1 to 65535, the address the server dials, through CONNECT text, hex, seal, base64, HTTP and back, is the one requested |
| Dial.DialledDeterminesRequest | core/src/tcpconnection.cpp:618-672 | what the server dials determines what was asked for: the four or sixteen octets, or the name, and the port |
| Dial.TextDeterminesAddress | core/src/tcpconnection.cpp:620-643 | the host text of a numeric address stands for one address: dotted decimals are told apart octet by octet |
| Dial.OpenReachesServer | core/src/agenthandler.cpp:79-112 | the agent's request for any CONNECT, HTTP/1.1 or 1.0, makes the server dial that target, file the session and hand over the early data, exactly if it fits the parser |
| Dial.ForwardOfConnect | core/src/serverhandler.cpp:231-343 | the server takes the bytes behind the inner header block as the destination's first data |
| ServerAnswers.AgentForwardsWhole | core/src/agenthandler.cpp:79-112 | whatever a client sends that is a request or TLS reaches the server whole, as an open exactly if it is a CONNECT, announced as kept exactly with connection reuse or for a direct tunnel; anything else is not sent |
| ServerAnswers.AgentToldTheTruth | core/src/serverhandler.cpp:264-348 | through seal and HTTP both ways, what the agent of any CONNECT reads back says 200 exactly if the server's dial succeeded, and 502 otherwise |
| Socks5.HandshakeAccepted | core/src/tcpconnection.cpp:577-673 | every complete greeting and CONNECT of sections 3 to 6 of RFC 1928 is accepted and consumes exactly its own bytes |
| Socks5.AcceptedIsHandshake | core/src/tcpconnection.cpp:577-673 | and nothing else is: an accepted stream starts with such a greeting and request |
| Socks5.DottedReadsBack | core/src/tcpconnection.cpp:620-628 | the host text of an IPv4 address reads back as its four octets, in order |
| Socks5.RefusedExactly | core/src/tcpconnection.cpp:577-616 | a refused client has been sent nothing without a greeting, the failure reply exactly for a wrong version or command, and otherwise only the chosen method |
| Socks5.RepliesAreStandard | core/src/tcpconnection.cpp:601-616 | both replies are laid out as in sections 3 and 6 of RFC 1928 |
| Socks5.ClientConnection.ReadExactFromClient | core/src/tcpconnection.cpp:548-575 | consumes exactly the first n bytes of buffer followed by socket, or fails because there are fewer |
| Socks5.ClientConnection.HandleSocks5Handshake | core/src/tcpconnection.cpp:577-673 | result, replies and CONNECT text depend only on buffer followed by socket, not on the split; what was still buffered is dropped |
| Socks5.ClientConnection.ReadRequest | core/src/tcpconnection.cpp:609-670 | the request part, with the failure reply exactly for a wrong version or command |
| Socks5.ClientConnection.ReadHost | core/src/tcpconnection.cpp:618-646 | address by type; any other type is refused |
| Socks5.ClientConnection.ReadGreeting | core/src/tcpconnection.cpp:583-599 | the greeting is taken whole or refused |
| HostPort.ParseInvertsMake | core/src/http_utils.hpp:10-17 | parseHostPort undoes makeHostPort for every non-empty host free of brackets, IPv6 text included, and port 1 to 65535 |
| HostPort.ParseHostPort | core/src/http.cpp:190-252 | stays in range on every string and answers as specified, down to what the out-parameters hold after a false; which port that is, shape by shape, is `HostAndText` and its neighbours |
| HostPort.EndpointIsPartOfInput | core/src/http.cpp:190-252 | on any accepted string the host is a non-empty contiguous part of it and the port the default or 1 to 65535 |
| HostPort.BracketedHostComesBackBare | core/src/http_utils.hpp:11-13 | an already bracketed host is not bracketed again |
| HostPort.BareHostGetsDefault | core/src/http.cpp:243-251 | a host without a colon gets the default port, whatever it is |
| HostPort.BracketedHostGetsDefault | core/src/http.cpp:211-223 | so does a bracketed host; an empty one and an unclosed one are refused |
| HostPort.BracketedHostWithMore | core/src/http.cpp:217-222 | behind a closed bracket only a colon and a readable port are accepted, and the port is then that one |
| HostPort.HostAndText | core/src/http.cpp:228-251 | for any text and its last colon: with a readable port the host is all before it; without one, text with an earlier colon is all host at the default port, and other text is refused |
| HostPort.PortExactly | core/src/http.cpp:199-209 | of the printed numbers exactly 1 to 65535 are read as ports |
| HostPort.PortWithText | core/src/http.cpp:199-209 | blanks before the digits and any text behind them make no difference |
| HostPort.RefusedLeaves | core/src/http.cpp:190-251 | what a refused text leaves in the out-parameters: the host before its colon, and the default port unless one was read |
| HostPort.RefusedBracketLeaves | core/src/http.cpp:211-222 | likewise for brackets, closed or not |
| Sni.ParseFindsServerName | core/src/http.cpp:94-156 | for every ClientHello (section 7.4.1.2 of RFC 5246) in one complete record, if server_name (section 3 of RFC 6066) is the first extension the parsed name is its host name, whatever follows the record |
| Sni.ParseIgnoresLaterServerName | core/src/http.cpp:94-142 | and if another extension is first the name stays empty |
| Sni.CursorReachesExtension | core/src/http.cpp:103-130 | over such a record every substr is in range and the 16-bit positions never wrap |
| Sni.CursorWraps | core/src/http.cpp:108-128 | over any other text they do: positions count modulo 2^16 |
| Sni.RecordLength | core/src/http.cpp:94-142 | the record layout used counts its own bytes correctly |
| Sni.TlsRequest.ParseTls | core/src/http.cpp:94-156 | the cursor code, on any text at all, ends as specified: exception, rejection, or type and name |
| Sni.TlsRequest.SkipToExtensions | core/src/http.cpp:108-128 | the two 16-bit cursors walk session id, ciphers and compression, with wrap-around as in the source |
| Sni.TlsRequest.ReadServerName | core/src/http.cpp:130-138 | the name is set only for extension type 0 and only when all reads are in range |
| HttpRequest.ParseRequestOfMessage | core/src/http.cpp:52-75 | a message made of clean lines parses into its method, target and declared body, exactly if the declared length is within the limit |
| HttpRequest.TextIsHttp | core/src/http.cpp:29-50 | a message starting with a printable byte is never taken for TLS |
| HttpRequest.RequestLineIs | core/src/http.cpp:52-75 | a token, a target of path characters and a version parse into method and target |
| HttpRequest.RequestLineExactly | core/src/http.cpp:52-75 | and nothing else does: an accepted line is its method, its target and HTTP/1.1 or HTTP/1.0 |
| HttpRequest.HelloDetected | core/src/http.cpp:29-50 | a ClientHello in one record is taken for TLS with the name of its first server_name extension |
| HttpRequest.OtherHelloDetected | core/src/http.cpp:29-50 | and without a name if another extension is first |
| HttpRequest.CutHelloThrows | core/src/http.cpp:94-112 | anything that starts like a ClientHello and ends before the session id length is an exception |
| HttpRequest.OtherMessageDetected | core/src/http.cpp:94-105 | a handshake record of another message is TLS without a name; one too short to tell is an exception |
| PartialHello.CutHelloDetected | core/src/http.cpp:94-156 | for every ClientHello with server_name first and every n, its first n bytes alone are an exception if they end before the host name, and otherwise TLS with as much of the name as they hold |
| PartialHello.NameIsWholeExactly | core/src/http.cpp:130-138 | so the name is right if and only if all of it is there |
| HttpRequest.OtherRecordDetected | core/src/http.cpp:29-50 | records of application data and cipher changes are TLS without a name |
| HttpRequest.RecordKinds | core/src/http.cpp:94-156 | the type of a record is told by its first byte, and only three types are accepted |
| HttpRequest.TargetWithoutPort | core/src/http.cpp:254-322 | a CONNECT target without a port goes to 443; one with an unreadable port goes to no host |
| Readers.ReadHttpMessage | core/src/tcpclient.cpp:643-721 | the agent's reader succeeds exactly if the stream reaches the end of its first message, then holds that message, after at most one read per missing body byte, and loses nothing |
| Readers.ReadRemainingHttpBody | core/src/tcpconnection.cpp:1099-1156 | the server's loop meets the same specification from the header read on |
| Readers.ServerReceive | core/src/tcpconnection.cpp:318-350 | so does the server's header read followed by its loop |
| Readers.ReadersAgree | core/src/tcpclient.cpp:643-693 | on one stream, cut in two unrelated ways, both readers agree on success and on the message |
| Readers.ReadsFrameExact | core/src/tcpclient.cpp:643-693 | when the stream is one message: success, that message, nothing beyond it consumed |
| Readers.FrameEndInLonger | core/src/http_utils.hpp:43-85 | where a message ends is decided by its header block, however much has arrived after it |
| Readers.ReadBody | core/src/tcpclient.cpp:664-692 | the Content-Length loop ends, reads no more than is missing and conserves the stream |
| Readers.ReadChunks | core/src/tcpclient.cpp:694-719 | the chunked loop conserves the stream and stops only at a last chunk |
| Streams.CopyStringToStreambuf | core/src/general.hpp:58-63 | old contents are dropped |
| Streams.MoveStreambuf | core/src/general.hpp:65-71 | bytes move to the end of the target and leave the source |
| Streams.CopyStreambuf | core/src/general.hpp:73-78 | bytes are appended to the target and kept in the source |
| Streams.Socket.ReadUntil | core/src/tcpclient.cpp:607-641 | finds the first delimiter of buffer followed by socket, and loses nothing |
| HttpUtils.HeaderEndOfMessage | core/src/http_utils.hpp:43-59 | headers and body of a message of clean lines are cut at its own blank line, whatever blank lines the body holds |
| HttpUtils.ScanFinds | core/src/http_utils.hpp:106-124 | a scan of clean lines stops at the first line with the prefix, ignoring case |
| HttpUtils.ScanMisses | core/src/http_utils.hpp:106-124 | and finds nothing when no line has it |
| HttpUtils.ParseContentLength | core/src/http_utils.hpp:61-85 | the first content-length line decides, and an unreadable value is a failure |
| HttpUtils.GetRawHeader | core/src/http_utils.hpp:106-124 | the trimmed value of the first matching line, or nothing; its substr never leaves the line |
| HttpUtils.IsChunked | core/src/http_utils.hpp:87-104 | true exactly if some transfer-encoding line mentions chunked |
| HttpUtils.TrimCopy | core/src/http_utils.hpp:27-41 | what is left is the specified trim: no blank in front, no blank or line end behind |
| HttpUtils.TrimOfField | core/src/http_utils.hpp:27-41 | a value without blanks at its ends comes back unchanged behind one space |
| HttpUtils.TrimExactly | core/src/http_utils.hpp:27-41 | a text between blanks, and blanks and line ends behind, is what trimming leaves |
| HttpUtils.FirstLengthDecides | core/src/http_utils.hpp:61-85 | the first content-length line of a block of clean lines decides the declared length, readable or not |
| HttpUtils.NoLengthDeclared | core/src/http_utils.hpp:61-85 | and without such a line there is none |
| HttpUtils.FirstHeaderDecides | core/src/http_utils.hpp:106-124 | the value of any other field is its first line behind the colon, trimmed, in whatever case its name is written |
| HttpUtils.MissingHeader | core/src/http_utils.hpp:106-124 | and empty without such a line |
| HttpUtils.AlphabetLowered | core/src/http_utils.hpp:19-25 | each letter of a name is folded to its own lower-case form and nothing else is touched |
| HttpUtils.ChunkedExactly | core/src/http_utils.hpp:87-104 | a block is chunked exactly if one of its transfer-encoding lines mentions chunked |
| Base64.DecodeInvertsEncode | core/src/general.hpp:157-185 | decode64 undoes encode64 on every byte string |
| Base64.EncodeShape | core/src/general.hpp:173-185 | length 4*ceil(n/3), alphabet characters only, then 0 to 2 pads (section 4 of RFC 4648) |
| Base64.EncodeKeepsBits | core/src/general.hpp:173-185 | read as a bit stream, independently of the encoder, the text carries the input's bits in order and then only zero fill |
| Base64.DecodeExactly | core/src/general.hpp:157-171 | decode64 fails exactly for a character outside the alphabet before the trailing pads and for a single left-over sextet |
| Base64.InnerPadIsZero | core/src/general.hpp:157-171 | a pad before the end reads as the symbol of zero |
| HexCodec.HexToAsciiInvertsHex | core/src/general.hpp:80-108 | hexToASCII undoes hexArrToStr on every byte string |
| HexCodec.StrToHexArrInvertsHex | core/src/general.hpp:80-125 | so does strToHexArr, so the two agree on its image |
| HexCodec.DecodersDisagreeOffImage | core/src/general.hpp:98-125 | off that image they differ: one throws where the other reads zero |
| HexCodec.BadPairThrows | core/src/general.hpp:98-108 | hexToASCII throws at a pair that starts with no digit, sign or blank, behind whatever well-formed pairs it stands |
| HexCodec.OddPartsRead | core/src/general.hpp:98-108 | a lone digit, and one behind a plus or a blank, is read as itself, and one behind a minus as its negative modulo 256 |
| HexCodec.UpperCaseReads | core/src/general.hpp:98-125 | both decoders read the encoder's text in upper case as well |
| HexCodec.HexToIntOfPair | core/src/general.hpp:91-96 | four hex digits of two bytes read as their 16-bit value |
| HexCodec.HexArrToStr | core/src/general.hpp:80-89 | the loop writes two lower-case digits a byte |
| HexCodec.HexToAsciiLoop | core/src/general.hpp:98-108 | the loop decodes pair by pair, odd tail and stoul's prefixes and exceptions included |
| HexCodec.StrToHexArrLoop | core/src/general.hpp:117-125 | the array is filled in place, an odd last digit ignored |
| Bytes.LeadingIntOfDecimal | core/src/http.cpp:199-209 | a printed number is read back by stoi and stoull |
| Bytes.NumberRead | core/src/http.cpp:199-209 | also behind blanks and a sign and before any text |
| Bytes.NoNumberRead | core/src/http.cpp:199-209 | and where no digit comes next there is none |
| Bytes.SizeRead | core/src/http_utils.hpp:61-85 | stoull reads exactly what a size_t holds, and a minus sign modulo 2^64 |
| Server.ActionIsIsolated | core/src/serverhandler.cpp:150-343 | any action keeps the table sound and every other session's entry and target as they were |
| Server.SendRecvKeepKeys | core/src/serverhandler.cpp:150-216 | send and recv never change the key set or any entry |
| Server.ForwardShape | core/src/serverhandler.cpp:231-353 | any other action leaves the table alone or files exactly one new target under one key |
| ServerAnswers.SealedOtherwiseIsRefused | core/src/serverhandler.cpp:120-144 | a body that is no base64, or that the token does not open, is answered with a plain 400 and touches nothing, whatever session and action its headers name |
| ServerAnswers.OnlyOpenedBodiesAct | core/src/serverhandler.cpp:84-148 | the table changes, a destination is dialled or a direct tunnel starts only for a request whose body opens under the token |
| ServerAnswers.NoRequestNoAnswer | core/src/serverhandler.cpp:87-96 | what is no request is not answered and touches nothing |
| ServerAnswers.RefusalReadsAsNothing | core/src/tcpconnection.cpp:536-545 | the agent reads nothing out of a refusal, nor out of a response that does not open |
| ServerAnswers.UndeclaredBodyIsRead | core/src/serverhandler.cpp:116-118 | a body no header declares is taken all the same |
| ServerAnswers.RecordBodyIsRead | core/src/serverhandler.cpp:116-118 | so is one behind what starts like a TLS record |
| ServerAnswers.NoBlankLineNoHeaders | core/src/serverhandler.cpp:100-111 | a request without a blank line names no session and no action |
| ServerAnswers.BodyIsReadAsDeclared | core/src/http.cpp:52-64 | a body is read as far as declared, sent in part or with more behind it, unless the declared length is beyond the limit |
| ServerAnswers.BadHexIsDropped | core/src/serverhandler.cpp:168-169 | a body that opens to no hex changes nothing and is not answered, for a send to a live session and for every forwarded request |
| ServerAnswers.BadInnerIsRefused | core/src/serverhandler.cpp:231-261 | an inner request without header end, or that is none, is a 400 and touches nothing |
| ServerAnswers.InnerRecordForwarded | core/src/serverhandler.cpp:249-384 | an inner request that starts like a TLS record is passed on like a plain one; one that starts like a ClientHello and is cut short is an exception and is not answered |
| ServerAnswers.PlainRequestAnswered | core/src/serverhandler.cpp:355-384 | a request other than CONNECT touches no session: a 502 if its destination cannot be dialled, otherwise a 200 with what came back |
| ServerAnswers.RecvTakesTheLeast | core/src/serverhandler.cpp:175-216 | a recv from a live session answers 200 with the prefix of the unread bytes whose length is the least of available, read length, unread and buffer size; the rest stays unread and nothing else changes |
| ServerAnswers.RecvTakesAll | core/src/serverhandler.cpp:200-213 | in particular all of it, if all is available, read and fits |
| ServerAnswers.SendWritesAll | core/src/serverhandler.cpp:167-172 | a send to a live session puts exactly the decoded bytes behind what the destination had and keeps it open, or, if the write fails, the part that went out, and shuts it |
| ServerAnswers.EmptySendShuts | core/src/tcpclient.cpp:303-365 | a send of nothing shuts the destination and writes nothing |
| ServerAnswers.CloseAnswers | core/src/serverhandler.cpp:218-229 | a close is always an empty 200; it shuts the session's target, forgets the session and leaves every other target alone |
| ServerAnswers.NobodyThere | core/src/serverhandler.cpp:162-165 | send and recv for a session that is not live are an empty 200 and touch nothing |
| ServerAnswers.OpenTellsTheTruth | core/src/serverhandler.cpp:264-353 | status line and inner reply say 200 exactly if the dial succeeded, else 502; a direct tunnel starts, or a target is filed with the pending data, exactly then, by mode |
| ServerAnswers.KeyIsNeverEmpty | core/src/serverhandler.cpp:340-343 | a session is filed under its own name, or under the connection's if it has none |
| ServerHandlers.ServerHandler.Handle | core/src/serverhandler.cpp:84-386 | on the mutable map of target objects, `handle` does what the table functions say, from request bytes to response bytes; `ServerAnswers` says what that is, refusals included |
| ServerHandlers.ServerHandler.HandleSend | core/src/serverhandler.cpp:150-173 | writes the decoded bytes to the session's own live target, or to nobody |
| ServerHandlers.ServerHandler.HandleRecv | core/src/serverhandler.cpp:175-216 | takes the prefix `ServerAnswers.RecvTakesTheLeast` names off the session's own target and replies with exactly it |
| ServerHandlers.ServerHandler.HandleClose | core/src/serverhandler.cpp:218-229 | shuts the session's target and removes its entry |
| ServerHandlers.ServerHandler.HandleOpen | core/src/serverhandler.cpp:264-353 | dials, hands over pending data, files the target; or a 502 and no entry; or a direct tunnel |
| ServerHandlers.ServerHandler.HandleOther | core/src/serverhandler.cpp:231-385 | the inner request decides, with each malformed case and each failed dial answered as in the source |
| Sessions.StepKeepsInv | core/src/serverhandler.cpp:150-353 | with lookup and use split, and dial and filing split, every interleaving keeps each held target its own session's |
| Sessions.LookAndUseKeepEntries | core/src/serverhandler.cpp:153-173 | neither half of send or recv changes the table's keys or entries |
| Sessions.UseIsIsolated | core/src/serverhandler.cpp:162-169 | whatever ran in between, the use touches no other session's target |
| Sessions.ShutIsIsolated | core/src/serverhandler.cpp:218-225 | nor does a close |
| Sessions.FileNeverOverwrites | core/src/serverhandler.cpp:340-343 | given distinct keys an open never overwrites a live entry |
| Sessions.CloseIsFinal | core/src/serverhandler.cpp:218-229 | once a close has completed no run appends a byte to that target, not even a send that looked it up before |
| Sessions.UsedKeyStaysOut | core/src/serverhandler.cpp:340-343 | a key whose open is over never comes back |
| Sessions.LookThenUseIsAtomic | core/src/serverhandler.cpp:150-216 | uninterrupted, the two halves are the atomic handler |
| Sessions.DialThenFileIsAtomic | core/src/serverhandler.cpp:301-343 | uninterrupted, dial and filing are the atomic open |
| ClientLifecycle.RunKeepsInv | core/src/tcpclient.cpp:36-175 | after every sequence of calls and timeouts: closed means both layers closed, an open layer means connected, TLS mode means a TLS stream exists, and two closed layers without `closed_` mean never connected |
| ClientLifecycle.StepKeepsInv | core/src/tcpclient.cpp:303-585 | each method and each stale timeout keeps it |
| ClientLifecycle.NotOpenNotClosedYetConnected | core/src/tcpclient.cpp:36-39 | with `isOpen` in place of the two layers the last clause is false: a witness |
| ClientLifecycle.NotOpenNotClosedMeansNeverConnected | core/src/tcpclient.cpp:36-39 | a client neither open nor closed has connected if and only if a plain connection is open behind its TLS mode |
| ClientLifecycle.PostKeepsTls | core/src/tcpconnection.cpp:446-518 | with TLS configured postTunnelAction writes over a handshaken TLS stream or not at all, under every schedule of failures and timeouts |
| ClientLifecycle.AttemptKeepsTls | core/src/tcpconnection.cpp:446-525 | so does a whole attempt, with its read and the shutdowns after failures |
| ClientLifecycle.AttemptLeavesOpen | core/src/tcpconnection.cpp:446-525 | timeouts aside, an attempt leaves the client open exactly if only sealing failed, or if a response was read and the connection is kept |
| ClientLifecycle.WriteSendsAll | core/src/tcpclient.cpp:303-365 | a write answers true exactly for an open client, some data and no error, and then the layer in use has exactly the data more and the other two are unchanged |
| ClientLifecycle.SucceedsExactly | core/src/tcpclient.cpp:41-445 | the other calls answer true exactly if there is nothing to do or if all goes well |
| ClientLifecycle.SuccessLeaves | core/src/tcpclient.cpp:41-445 | what they leave then: an unopened TLS stream without a handshake, an open layer, a handshaken stream, and a timer behind all but the first |
| ClientLifecycle.IdleCallsChangeNothing | core/src/tcpclient.cpp:41-585 | a name that does not resolve, a TLS setup that fails, a read of a closed client, a second shutdown and a timer never armed change nothing |
| ClientLifecycle.SmoothSendsAll | core/src/tcpconnection.cpp:446-525 | when nothing fails and no timeout intervenes, postTunnelAction, handle and a whole attempt each put exactly the message on the TLS stream; the attempt reads a response and leaves the client open exactly if the connection is kept |
| ClientLifecycle.SmoothSendsAllInClear | core/src/tcpconnection.cpp:446-525 | and on the plain socket, and there only, when TLS is not configured |
| ClientLifecycle.RespondedMeansAllWell | core/src/tcpconnection.cpp:446-525 | conversely a response is read only after a connect and a handshake, or on a client already open, and after a write of some data and a read that went well |
| ClientLifecycle.FailuresShut | core/src/tcpclient.cpp:303-585 | every failing connect, handshake, write or read, a shutdown and an expired timer leaves the client closed with both layers closed, and takes back nothing already sent |
| ClientLifecycle.SendOnce | core/src/tcpconnection.cpp:446-525 | the attempt on the mutable client, call by call with timeouts between, is that function |
| ClientLifecycle.WriteRequest | core/src/agenthandler.cpp:44-114 | likewise `handle` up to its write |
| ClientLifecycle.HandleKeepsTls | core/src/agenthandler.cpp:44-77 | so does `handle`, except under one schedule |
| ClientLifecycle.HandleKeepsTlsExactlyWhen | core/src/agenthandler.cpp:44-77 | under every schedule if and only if the client is not open with a timer behind it on entry |
| ClientLifecycle.SecondRequestInClear | core/src/agenthandler.cpp:44-77 | the witness: a new client, one smooth request, and the next goes out in clear |
| ClientLifecycle.UsesKeepTls | core/src/agenthandler.cpp:44-114 | over any number of uses, shutdowns and timeouts without that schedule no byte leaves outside a handshaken TLS stream |
| ClientLifecycle.TcpClient.IsOpen | core/src/tcpclient.cpp:36-39 | the layer that counts is the TLS one in TLS mode, the plain one otherwise |
| ClientLifecycle.TcpClient.EnableTlsClient | core/src/tcpclient.cpp:41-96 | a fresh, unopened TLS stream, once; nothing on failure |
| ClientLifecycle.TcpClient.DoConnect | core/src/tcpclient.cpp:98-175 | all its exits, with the state each leaves |
| ClientLifecycle.TcpClient.DoHandshakeClient | core/src/tcpclient.cpp:177-296 | all its exits; a failed handshake shuts the client down |
| ClientLifecycle.TcpClient.DoWrite | core/src/tcpclient.cpp:303-365 | exactly the data goes out on the layer in use (`WriteSendsAll`); a closed client, an empty buffer or an error shuts it down |
| ClientLifecycle.TcpClient.DoReadAgent | core/src/tcpclient.cpp:367-445 | an error shuts the client down; a closed client is left alone |
| ClientLifecycle.TcpClient.OnTimeout | core/src/tcpclient.cpp:532-542 | an aborted timer does nothing, an expired one shuts the client down |
| ClientLifecycle.TcpClient.SocketShutdown | core/src/tcpclient.cpp:544-585 | once only: both layers closed and TLS mode dropped |

## Left out

- Boost.Asio, OpenSSL and Beast internals: sockets are lists of non-empty pieces, AES is a lawful pair of functions, and Beast is reduced to the request line, the Content-Length body and its limit.
- ParseRequestOfMessage: Beast's grammar of header fields, its 8 KiB limit on the header and its folded lines are not modelled; the messages written by agent and server are taken to pass them.
- AgentHandler::handle: the part on the client is an object (`ClientLifecycle.WriteRequest`); the building of the request and the reading of the response are on values (`Dial.AgentRequest`, the open action of `AgentLoop`), which does not capture that the two streambufs are rewritten in place.
- PolledTunnel: the step system is on values, because the network and other sessions move between handlers; `AgentTunnel` and `ServerHandlers` are the objects behind its agent and server.
- SendOnce: in `AgentTunnel` the way an attempt ends is a parameter; `ClientLifecycle.SendOnce` is the attempt itself, and `AttemptLeavesOpen` says the same of the connection it leaves.
- HandleOther: the answer to a forwarded plain request is an input (`forwarded`), as is whether the connection's own client is still open (`reused`); the address a plain request is sent to is not modelled.
- Base64: encode64 and decode64 are expressions over Boost iterators and are modelled as functions; input of length 4k+1, where decode64 reads past its end, is modelled as a failure.
- HandleKeepsTls: excludes one schedule by its `requires`, because the property is false there; `HandleKeepsTlsExactlyWhen` is the exact statement.
- UsesKeepTls: excludes the same schedule for each use of `handle`.
- UplinkConserved: for runs without faults only, because a fault can lose or, with reuse, repeat a chunk (`TunnelRetry`); early data is the data sent along with the CONNECT of an http client.
- DownlinkConserved: for runs without faults only, because a response that is lost after the server read from the destination loses its payload; `NoPayloadTwice` covers the other runs.
- BytesConserved: for runs of bytes without failed attempts and with a cipher that always seals, for the same reasons; `BytesAtMostTwice` and `BytesNeverTwice` cover the others.
- ReadChunks: the chunked branches, which agent and server never use between themselves, are proved to conserve the stream and to stop at a terminator, not to decode chunks.
- HandleSocks5Handshake: its two small writes are taken to succeed, and the text of an IPv6 address is a parameter; bytes still buffered behind the handshake are lost in the source and named `dropped` here.
- ServerDialsRequested: hosts are non-empty and free of blanks, control characters and brackets, since anything else is not a legal CONNECT target; the printer of IPv6 addresses is assumed to tell addresses apart, to write a colon and to stay within 45 characters.
- TcpClient: a timeout inside a blocking method is not modelled, only between calls; the second timeout of a call is the same event.
- A failed request that another server thread still handles later: an attempt was handled before it failed or never.
- Lifetime of the payload captured by reference in an asynchronous write: the payload is owned until the write completes.
- Direct tunnel before the relays start: early data is not forwarded by the source in that mode, so the theorem starts with the relays; that one end's shutdown closes the other is an event, not a consequence.
- Successful zero-byte reads, which the source treats like errors.
- The fixed SOCKS5 success reply that replaces the decoded open reply on its way to the client; neither is counted as tunnel data.
- Distinct session ids are assumed (they are random UUIDs), as the condition of the events that start another session.
- Message sizes above `size_t`, and memory exhaustion for a huge declared length.
- Liveness: a polled tunnel whose destination is silent polls on, and nothing here says it ends.
- Configuration, logging, runner, acceptor, TLS contexts, decoy choice and packaging.
