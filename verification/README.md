# hyprwire: a verified model of the wire protocol

hyprwire is a wire protocol for two parties over a local socket: a binary codec for typed calls, a
client and a server that agree on objects by sequence numbers and ids, and a server whose event loop
is shared between a dispatcher and a poll thread. This project models all three in Dafny and proves
what they promise. Check it with `dafny verify dfyconfig.toml`.

## Layout

| files | what they model |
|---|---|
| `Bytes`, `VarInt`, `WireFormat`, `ArgWalk` | words, variable-length counts (unsigned LEB128, section 7.6 of DWARF 5) and the grammar of self-describing arguments, as one reference reader and writer |
| `Scanner`, `Demarshal`, `Marshal`, `Calls` | the frame scanner, the two walks of `called`, the marshaller of `call`, as cursor loops proved against that grammar, and the theorems that join them |
| `Messages`, `ControlMessages`, `Stream`, `Batches`, `Handshake` | the ten messages, the nine control messages' own parsers and encoders, the `handleMessage` loops, the cutting of a stream into batches, the handshake |
| `Spec`, `ServerModel`, `ClientModel`, `Waiting`, `Conduct` | what each call, each event, each received message and each wait does to a party's state, as functions; and the same told from the inputs and the source's own conditions |
| `ServerClient` (module `ServerParty`), `ClientSocket` (module `ClientParty`) | the same as classes with fields and loops, proved equal to the functions, down to the octets sent and queued |
| `TwoParty`, `Refinement` | both parties joined by two FIFO channels: every interleaving of calls, binds, batches, listener calls, server events, errors and disconnects; and the proof that batches of octets are runs of those steps |
| `RoundtripSafety`, `ObjectAgreement`, `Origins`, `Delivery`, `Events`, `Greeting`, `Deferral`, `CallOrder`, `Chains`, `Progress`, `Draining` | inductive invariants over all runs and the theorems drawn from them |
| `Returns` | the client's waits as parts of those runs, and what has come about once one is over |
| `Scenarios` | two runs of two small programs, from the first message on, in which a deferred call goes astray |
| `EventLoop`, `PollTable` | the poll thread and the dispatcher as interleaved steps; the client list with its poll table |

## Main results

- **One grammar, three walks.** Every frame the scanner accepts is a list of arguments of the grammar;
  if the type check passes it, scanner, checker and demarshaller stop at the same offsets, no index is
  out of range, and the values that come out begin with one of the right kind for each foreign type
  (`ThreeWalkAgreement`, `ScanFrame`, `TypeCheck`, `DemarshalArgs`). A call arrives as exactly the
  caller's arguments if and only if no string or array is 2^28 or more long (`CallArrivesExactly`).
- **Streams.** The octets of any list of messages a party may send are dispatched as just that list
  (`ServerStream`, `ClientStream`), and all cuts of what a client may post into batches come to the same
  if and only if its requests and what refuses a batch are `Steady` (`BatchIndependence`); without an
  error that is a condition on the requests alone, which every client meets (`RequestsDecide`,
  `NumberedRequests`). Arbitrary octets are accepted only as frames without gaps (`ClientTiles`,
  `ServerTiles`). In every reachable state the octets of a party's next messages do to the other what a
  run of the two-party steps does (`ServerBatchIsRun`, `ClientBatchIsRun`).
- **Objects.** In every reachable state an id of the client stands for the server object created for the
  very sequence the client chose; no two client objects share an id; and as long as no deferred message
  was resolved to an id of 256 or more, protocol and object spec agree (`TablesAgree`) and every call
  that is handled is that of one step of the run, known by its number, and delivered with exactly that
  step's arguments (`NoCallIsRefused`).
- **Deliveries.** In every such run the server's listeners have heard just the calls handled, each once,
  in the order of the wire, with the arguments of the step that made each (`CallsAreHeardOnce`,
  `HeardAsMade`). An event the server sends on an object finds the client's object of the same sequence,
  which has had its id by then, and its listener is called once with the arguments sent
  (`EventReachesObject`). Every way a call can end is told from the frame and the method's description
  (`CalledExactly`), and so is what a call, a bind and an event do when they are made (`CallDoes`,
  `BindDoes`, `EmitDoes`).
- **Roundtrips and waits.** An acknowledged roundtrip has flushed everything before it, in both directions
  (`RoundtripFlushes`). Each of the client's three waits ends at the first poll that gives it reason to, and
  exactly then (`WaitEnds`, `AnswerIsAwaited`, `HandshakeIsAwaited`, `ObjectIsAwaited`). Between its polls
  anything may happen on the server's side; from every reachable state, a `roundtrip` that has returned has
  flushed, a bind that has returned stands for the server's object, and a handshake that has returned has
  told the client just what the server offers (`RoundtripIsDone`, `BindIsDone`, `HandshakeIsDone`).
- **Handshake.** In every run its messages pass at most once, and the client knows the server's protocols
  exactly if it counts the handshake as done (`HandshakeIsHeldOnce`).
- **Deferral.** No waiting call is dropped, lost or doubled (`NothingIsDropped`, `FlushPlaces`); the calls
  made outside of listeners go out in order (`CallsGoOutInOrder`), and of the calls of either origin the
  order is kept if and only if none is made on a resolved object for which others still wait
  (`OrderIsKeptExactly`, `NextFlushKeepsOrder`). A deferred call's octets are those of an immediate one
  exactly when the id is below 256 (`DeferralIsTransparent`), and a client that has used fewer than 256
  sequences never leaves that range (`FewSequencesSuffice`). Chains of objects created on one another
  resolve in as many laps as there are objects without an id, whatever else happens meanwhile
  (`ChainsDrain`), and from every calm state there is a run that drains them (`CanBeDrained`).
- **Event loop.** No sleeping poll thread is forgotten, in any interleaving, spurious wake-ups included
  (`NoParkedThreadIsForgotten`, `DispatchReleases`); the poll table stays aligned with the clients,
  and a pass drops exactly the clients in error, those that hung up among them (`ErrorsBehindPass`,
  `DispatchExistingConnections`).

Some promises fail as they stand. For each the model has an input that shows it and the exact condition
under which it holds:

- counts of 2^28 and more do not arrive (`EncodedCountReadsBack`, `CallArrivesExactly`,
  `VersionsArriveExactly`, `NamesArriveExactly`, `BindArrivesExactly`, `FatalArrivesExactly`);
- `resolveSeq` writes one octet, so a deferred call on an id of 256 or more goes to another object or to
  none (`DeferralIsTransparent`, `WideIdsGoAstray`; a run in which it does: `CallIsLost`). It cannot
  happen below 256 server objects or 256 sequences of the client (`FewObjectsSuffice`,
  `FewSequencesSuffice`), and it does with 256 of them;
- a listener's call on an object resolved in the same batch overtakes the calls deferred for it
  (`OrderIsKeptExactly`, `NextFlushKeepsOrder`; a run in which it does: `CallIsOvertaken`);
- the cut of a stream into batches shows in the last answer if descriptors are left behind an error, if
  a bind to version 0 follows, or if the last request is numbered 0, which no client sends
  (`BatchIndependence`, `RequestsDecide`; `StraysHideAnswer`, `RefusalHidesAnswer`, `ZeroIsNotAnswered`);
- the destructor clears the event and notifies without the mutex; the notification is missed exactly when
  it comes between the thread's last look at the stop flag and its falling asleep, and the thread sets the
  event after that or has seen it set before; then only the wait's timeout ends the thread
  (`StopIsMissedExactly`, `NotificationReaches`, `TimeoutEndsIt`; a run in which it is missed: `StopMayBeMissed`);
- `waitForObject` polls on forever when the server has hung up, where the other two waits end
  (`HangupIsWaitedOut`, `HangupEnds`).

Where the code and its documentation differ, the model follows the code: the header calls the counts
VLQ, the code puts the least significant group first; OBJECT takes four octets; a bind carries the
protocol's bare name with the version in a word of its own.

## Model

| member | source | states |
|---|---|---|
| VarInt.ParseVarInt | src/core/message/MessageParser.cpp:285-295 | the loop returns value and width of the count that stands there, or went past the span inside an unfinished one |
| VarInt.EncodeVarInt | src/core/message/MessageParser.cpp:297-311 | the 64-bit shifts and the trimming spell the shortest base-128 digit list of the low 28 bits |
| VarInt.EncodedCountReadsBack | src/core/message/MessageParser.cpp:285-311 | parsing what was encoded, before any suffix, gives back the number if and only if it is below 2^28 |
| VarInt.ReadIsSpelled | src/core/message/MessageParser.cpp:285-295 | whatever is read is the spelling of that value in that width |
| VarInt.SpelledIsRead | src/core/message/MessageParser.cpp:285-295 | every spelling of one to four octets is read, wherever it stands |
| VarInt.SpellingsArePrefixFree | src/core/message/MessageParser.cpp:285-311 | no spelling is a proper prefix of another |
| VarInt.MinimalReencodes | src/core/message/MessageParser.cpp:285-311 | a count read re-encodes to its own octets if and only if it was minimal |
| WireFormat.ArgsAreRead | src/core/message/messages/GenericProtocolMessage.cpp:45-107 | an argument list followed by END is read back at any offset before any octets |
| WireFormat.ReadArgsAreThere | src/core/message/messages/GenericProtocolMessage.cpp:45-107 | whatever is read is the octets of valid arguments followed by END, inside the buffer |
| WireFormat.ArgsArePrefixFree | src/core/message/messages/GenericProtocolMessage.cpp:45-107 | two argument lists whose octets begin alike up to END are the same list |
| Scanner.ScanFrame | src/core/message/messages/GenericProtocolMessage.cpp:13-113 | accepts exactly the frames of the grammar that have their descriptors, with span, ids and length, claims just those descriptors, and stops at exactly the argument boundaries |
| Scanner.ScanArray | src/core/message/messages/GenericProtocolMessage.cpp:52-97 | steps over an array of words, strings or descriptors to where the grammar ends it |
| Scanner.ClaimFds | src/core/message/messages/GenericProtocolMessage.cpp:78-90 | moves descriptors off the front of the queue in order, and fails exactly when there are too few |
| Demarshal.TypeCheck | src/core/wireObject/IWireObject.cpp:245-335 | the check's loop gives the verdict and the foreign types of the list's own check (`CheckFrom`, which `CheckPassesOnPrefix`, `CheckThrowsAtEnd` and `ThreeWalkAgreement` describe), visiting the grammar's argument boundaries |
| Demarshal.DemarshalArgs | src/core/wireObject/IWireObject.cpp:363-502 | the demarshaller's loop produces the values of all arguments with their descriptors in order, visiting the same boundaries |
| Calls.ThreeWalkAgreement | src/core/wireObject/IWireObject.cpp:245-502 | for every buffer: an accepted frame that passes the check is read alike by all three walks, with one value per foreign type: a float for F32 alone, a signed word for INT or a descriptor, an unsigned word for the other words or a length, and an address for the rest |
| Calls.CheckPassesOnPrefix | src/core/wireObject/IWireObject.cpp:245-335 | the check passes if and only if the parameters describe some first arguments of the frame |
| Calls.CheckThrowsAtEnd | src/core/wireObject/IWireObject.cpp:245-335 | the check throws if and only if the parameters describe some first arguments and break off inside of an array that follows them |
| Calls.Called | src/core/wireObject/IWireObject.cpp:218-506 | the whole of `called`: unknown method, no listener, too new, wrong types, or the values the listener gets |
| Calls.CalledExactly | src/core/wireObject/IWireObject.cpp:218-506 | when each way of ending occurs, told from the frame and the method: no such method, nobody listens, too new, parameters that break off, wrong types; else the listener gets the object and the values of exactly the declared arguments |
| Marshal.MarshalCall | src/core/wireObject/IWireObject.cpp:53-185 | the marshaller's loop produces header, return sequence, packed arguments and END, and the descriptors in order |
| Marshal.PackIsWire | src/core/wireObject/IWireObject.cpp:84-183 | what is packed is, octet for octet, valid arguments of the grammar |
| Marshal.ValuesArrive | src/core/wireObject/IWireObject.cpp:363-502 | those arguments demarshal to the caller's values, strings and arrays with length and elements, descriptors in order |
| Calls.CallArrives | src/core/wireObject/IWireObject.cpp:24-185 | end to end at any offset with any descriptors behind: the frame of a call is scanned, passes the check and yields exactly the caller's arguments, the return sequence first |
| Calls.CallIsDelivered | src/core/wireObject/IWireObject.cpp:218-506 | the listener is called with the object and exactly those values |
| Calls.CallArrivesExactly | src/core/wireObject/IWireObject.cpp:24-185 | this happens if and only if no string or array has 2^28 or more elements |
| Messages.EncodedIsRead | src/core/message/MessageParser.cpp:63-279 | each of the ten messages, encoded at any offset with any octets and descriptors behind, is read back with its length and its own descriptors |
| Messages.ReadFrameIsThere | src/core/message/MessageParser.cpp:46-61 | every frame read lies inside the buffer, ends in END and is as long as its grammar says |
| Messages.BindToZeroIsRefused | src/core/message/messages/BindProtocol.cpp:13-57 | the octets of a bind to version 0, which can be posted, are read as no message |
| Messages.GreetingOctets | docs/WIRE.md:27-35 | the greeting is, octet for octet, the documentation's example |
| Messages.WordFrames | src/core/message/messages/NewObject.cpp:43-52 | acknowledgement, new object, roundtrip request and answer, octet for octet, for values below 256 |
| Messages.TextFrames | src/core/message/messages/BindProtocol.cpp:59-78 | bind and fatal error, octet for octet, with a text shorter than 128 |
| Messages.ListFrames | src/core/message/messages/HandshakeProtocols.cpp:51-68 | the two lists of the handshake with one entry, octet for octet |
| Messages.CallFrame | src/core/wireObject/IWireObject.cpp:53-81 | the header of a call, octet for octet, with the arguments behind it |
| Messages.PlainOctets | src/core/wireObject/IWireObject.cpp:84-128 | the octets of words of each kind, of a string and of a descriptor |
| Messages.ArrayOctets | src/core/wireObject/IWireObject.cpp:129-183 | the octets of arrays of words, strings and descriptors |
| ControlMessages.ParseHello | src/core/message/messages/Hello.cpp:12-29 | accepts exactly the constant frame |
| ControlMessages.EncodeHello | src/core/message/messages/Hello.cpp:31-37 | spells the constant frame |
| ControlMessages.ParseHandshakeBegin | src/core/message/messages/HandshakeBegin.cpp:12-48 | accepts exactly the grammar's list of words, with its length |
| ControlMessages.EncodeHandshakeBegin | src/core/message/messages/HandshakeBegin.cpp:50-72 | lays out the list of versions, the low 28 bits of its length; the message's encoding if it is shorter than 2^28 |
| ControlMessages.VersionsArriveExactly | src/core/message/messages/HandshakeBegin.cpp:12-72 | those octets are read as that list if and only if it is shorter than 2^28 |
| ControlMessages.ParseHandshakeAck | src/core/message/messages/HandshakeAck.cpp:12-39 | accepts exactly the grammar's frame, with its length |
| ControlMessages.EncodeHandshakeAck | src/core/message/messages/HandshakeAck.cpp:41-56 | spells the version |
| ControlMessages.ParseHandshakeProtocols | src/core/message/messages/HandshakeProtocols.cpp:12-49 | accepts exactly the grammar's list of strings, with its length |
| ControlMessages.EncodeHandshakeProtocols | src/core/message/messages/HandshakeProtocols.cpp:51-68 | lays out the list of strings, the low 28 bits of each length; the message's encoding if all are below 2^28 |
| ControlMessages.NamesArriveExactly | src/core/message/messages/HandshakeProtocols.cpp:12-68 | those octets are read as that list if and only if list and strings are shorter than 2^28 |
| ControlMessages.ParseBindProtocol | src/core/message/messages/BindProtocol.cpp:13-57 | accepts exactly the grammar's frame of a version other than 0, with its length |
| ControlMessages.EncodeBindProtocol | src/core/message/messages/BindProtocol.cpp:59-78 | lays out name, sequence and version in their places, the low 28 bits of the name's length; the message's octets if it is shorter than 2^28 |
| ControlMessages.BindArrivesExactly | src/core/message/messages/BindProtocol.cpp:13-78 | those octets are read as that bind if and only if the name is shorter than 2^28 and the version is not 0 |
| ControlMessages.ParseNewObject | src/core/message/messages/NewObject.cpp:12-41 | accepts exactly the grammar's frame, id before sequence |
| ControlMessages.EncodeNewObject | src/core/message/messages/NewObject.cpp:43-52 | spells id and sequence in that order |
| ControlMessages.ParseFatalError | src/core/message/messages/FatalProtocolError.cpp:14-53 | accepts exactly the grammar's frame, with its length |
| ControlMessages.EncodeFatalError | src/core/message/messages/FatalProtocolError.cpp:55-67 | lays out object, error and text, the low 28 bits of its length; no object is 0; the message's encoding if the text is shorter than 2^28 |
| ControlMessages.FatalArrivesExactly | src/core/message/messages/FatalProtocolError.cpp:14-67 | those octets are read as that error if and only if the text is shorter than 2^28 |
| ControlMessages.ParseRoundtripRequest | src/core/message/messages/RoundtripRequest.cpp:13-37 | accepts exactly the grammar's frame |
| ControlMessages.EncodeRoundtripRequest | src/core/message/messages/RoundtripRequest.cpp:39-45 | spells the sequence |
| ControlMessages.ParseRoundtripDone | src/core/message/messages/RoundtripDone.cpp:13-37 | accepts exactly the grammar's frame |
| ControlMessages.EncodeRoundtripDone | src/core/message/messages/RoundtripDone.cpp:39-45 | spells the sequence |
| Stream.ServerStream | src/core/message/MessageParser.cpp:28-44 | on the octets of any list of messages a client may post the server handles just that list in order, up to a bind to version 0, which refuses the batch, or an error; otherwise everything is consumed, and descriptors are stray exactly when more came than the messages own |
| Stream.ClientStream | src/core/message/MessageParser.cpp:46-61 | the same for the client, up to a refused handshake |
| Stream.ClientTiles | src/core/message/MessageParser.cpp:46-61 | on any octets: what was passed is a row of whole frames ending in END, and an accepted batch is filled by them |
| Stream.ServerTiles | src/core/message/MessageParser.cpp:28-44 | the same for the server, whose loop may stop at an error |
| Stream.PostedOutcome | src/core/server/ServerSocket.cpp:317-341 | what dispatchClient makes of anything a client may post, a bind to version 0 and left-over descriptors included: a fatal error or the answer to the roundtrip |
| Batches.BatchIndependence | src/core/server/ServerSocket.cpp:317-341 | for every stream a client may post: all cuts into batches end with the same objects, listener calls, messages and last roundtrip answer if and only if at most one message is left to refuse it for (a bind to version 0, or descriptors behind that or behind an error) and the handled requests either end in one that is not 0 with nothing left, or ask for nothing new |
| Batches.RequestsDecide | src/core/server/ServerSocket.cpp:337-340 | without an error: if and only if the last request is not 0 or all are 0 or the number answered last |
| Batches.NumberedRequests | src/core/client/ClientSocket.cpp:360-365 | without an error, requests numbered from 1, as a client numbers them, may be cut anywhere |
| Batches.BatchIsAnsweredOnce | src/core/server/ServerSocket.cpp:329-341 | a batch that raises no error is answered once, behind everything else, with the number of its last request, or not at all without one; nothing stays to be answered |
| Batches.ZeroIsNotAnswered | src/core/server/ServerSocket.cpp:337-340 | a stream with a request numbered 0 of which two cuts differ in the last answer |
| Batches.StraysHideAnswer | src/core/server/ServerSocket.cpp:329-340 | a stream with descriptors behind an error of which two cuts differ in the last answer |
| Batches.RefusalHidesAnswer | src/core/server/ServerSocket.cpp:329-340 | a stream with a bind to version 0 of which two cuts differ in the last answer |
| Handshake.SpecListArrives | src/core/message/messages/HandshakeProtocols.cpp:12-68 | the list of `name@version` strings, encoded, parsed and split, is every name and version in order, names with '@' included |
| Handshake.SpecIsParsed | src/core/client/ClientSocket.cpp:221-233 | splitting at the last '@' recovers name and 32-bit version |
| Handshake.StoulReads | src/core/client/ClientSocket.cpp:221-226 | what std::stoul makes of white space, a sign, digits and whatever follows them, 64 bits and negative numbers included |
| Handshake.SpecWithoutAt | src/core/client/ClientSocket.cpp:221-226 | an entry without '@' is name and version at once |
| Handshake.ListIsTaken | src/core/client/ClientSocket.cpp:221-233 | for any list: the specs ahead of the first entry that cannot be read are kept, that entry disconnects, and the handshake counts as done either way |
| Handshake.HandshakeCompletes | src/core/message/MessageParser.cpp:63-98 | the four messages octet for octet: both parties end without error and the client knows the server's protocols |
| Greeting.HandshakeIsHeldOnce | src/core/client/ClientSocket.cpp:221-244 | over all runs: one beginning and one list at most; the client's specs are the server's, in order, exactly if the handshake is done, and the server then has the version; before it the client knows none |
| ServerModel.HandleKeepsTable | src/core/server/ServerClient.cpp:95-144 | every message keeps the ids 1, 2, 3, ... and, until an error, a declared spec and a version in range for every object; so no frame meets an object without a spec |
| ServerModel.ChildrenInherit | src/core/server/ServerSocket.cpp:423-436 | a child has its creator's protocol and bound version and is made for the sequence received |
| Conduct.CreationDoes | src/core/server/ServerClient.cpp:95-144 | an object is made, with the next id, an answer and its listeners, exactly if its protocol is offered, declares it and is as new as asked; otherwise an entry stays behind, with an error and no answer |
| Conduct.FirstProtocolCounts | src/core/server/ServerClient.cpp:102-104 | of several protocols of a name the first is the one that is meant |
| Conduct.FirstOfName | src/core/server/ServerClient.cpp:106-112 | of several objects of a name the first of the protocol is the one that is meant |
| Conduct.BindIsServed | src/core/message/MessageParser.cpp:107-119 | a bind asks for the first object of its protocol |
| Conduct.CallIsServed | src/core/server/ServerClient.cpp:164-173 | what any call does to the server, told from the frame: refused with a fatal error about the object, left alone, or heard with its declared arguments, the returned object made at the caller's sequence and version |
| Conduct.EmitDoes | src/core/wireObject/IWireObject.cpp:24-209 | a call on the server goes out as an event exactly if the method exists, is as new as the object and returns nothing; otherwise it is a fatal error about the object |
| ServerParty.ServerClient.CreateObject | src/core/server/ServerClient.cpp:95-144 | the search through implementations and objects, with its failures that leave an entry behind, equals the specification |
| ServerParty.ServerClient.OnGeneric | src/core/server/ServerClient.cpp:164-173 | finds the object, runs `called`, lets the handler create its object once, or complains |
| ServerParty.ServerClient.Emit | src/core/wireObject/IWireObject.cpp:24-209 | the server side of `call` on fields: the three refusals, or the marshalled octets and descriptors |
| ServerParty.ServerClient.ParseSingleMessage | src/core/message/MessageParser.cpp:63-168 | takes exactly the frames a server may get, with their effect; otherwise only the error flag may change |
| ServerParty.ServerClient.HandleMessage | src/core/message/MessageParser.cpp:28-44 | the loop equals the specification's parse of the batch, verdict, state and left-over descriptors |
| ServerParty.ServerClient.Dispatch | src/core/server/ServerSocket.cpp:317-341 | a batch ends in a fatal error or in the one answer to its roundtrips |
| ClientParty.ClientSocket.SendBind | src/core/client/ClientSocket.cpp:269-285 | allocates the next sequence, adds the object, sends the octets of the bind; a version beyond the client's own disconnects |
| ClientParty.ClientSocket.BindProtocol | src/core/client/ClientSocket.cpp:269-290 | the same with the wait for the object's id behind it; it is over exactly when the object has its id or an error was raised |
| ClientParty.ClientSocket.MakeObject | src/core/client/ClientSocket.cpp:292-318 | adds the child exactly when an implementation declares it |
| ClientParty.ClientSocket.Call | src/core/wireObject/IWireObject.cpp:24-209 | marshals, allocates a sequence for a return value, sends or defers the octets, adds the child; returns the new sequence exactly if the method exists, is not newer than the object and has a return type |
| Conduct.CallDoes | src/core/wireObject/IWireObject.cpp:24-209 | a call goes through exactly if the method exists and is not newer than the object: one message, behind those waiting if the object has no id, on the wire if it has one and the connection stands, with the next sequence and the child for a return value; any other call changes nothing |
| Conduct.BindDoes | src/core/client/ClientSocket.cpp:269-285 | a bind goes out with the next sequence exactly if the client's protocol is as new as asked; a newer version disconnects |
| Conduct.AskDoes | src/core/client/ClientSocket.cpp:360-366 | a request bears the next number; a client in error asks for none |
| ClientParty.ClientSocket.OnSeq | src/core/client/ClientSocket.cpp:258-267 | the first object of the sequence gets the id, nothing else changes |
| ClientParty.ClientSocket.Flush | src/core/client/ClientSocket.cpp:152-165 | the erase_if with its effects: sends the resolvable messages in queue order, keeps the unresolved ones, drops those without object |
| Conduct.FlushDoes | src/core/client/ClientSocket.cpp:152-165 | for any queue, orphaned messages included: those stay whose object has no id, those go out, with the octet patched, whose object has one, if the connection stands, the others are dropped |
| ClientParty.ClientSocket.ResolveSeq | src/core/message/messages/GenericProtocolMessage.cpp:124-128 | overwriting one octet turns the message into the one for the id modulo 256 |
| ClientParty.ClientSocket.ServerSpecs | src/core/client/ClientSocket.cpp:221-233 | keeps the specs up to the first that fails to parse, disconnects on that, and ends the handshake either way |
| ClientParty.ClientSocket.ParseSingleMessage | src/core/message/MessageParser.cpp:170-279 | takes exactly the frames a client may get, with the effect that the rows below tell from the message |
| Conduct.EventIsDelivered | src/core/client/ClientSocket.cpp:328-337 | an event for an object of the client calls its listener once, with the object and exactly the arguments sent, if the method is listened to and not too new, and changes nothing else |
| Conduct.StrayEventIsIgnored | src/core/client/ClientSocket.cpp:328-337 | an event for no object, for no method or with other arguments than declared changes nothing |
| Conduct.VersionsAreMet | src/core/message/MessageParser.cpp:179-197 | a server that speaks version 1 is answered, any other is refused |
| Conduct.NoticesAreNoted | src/core/message/MessageParser.cpp:248-272 | a fatal error sets the error flag, an answer is remembered, and nothing else changes |
| Conduct.IdIsTaken | src/core/client/ClientSocket.cpp:258-267 | the one object of the sequence gets the id, all others keep theirs |
| Conduct.StraysDisconnect | src/core/client/ClientSocket.cpp:131-150 | a batch with descriptors that belong to no message disconnects behind its messages; one without is flushed |
| ClientParty.ClientSocket.HandleMessage | src/core/message/MessageParser.cpp:46-61 | the loop equals the specification's parse of the batch |
| ClientParty.ClientSocket.Dispatch | src/core/client/ClientSocket.cpp:131-168 | a batch ends in the flush of deferred messages or in a disconnect |
| ClientParty.ClientSocket.DispatchEvents | src/core/client/ClientSocket.cpp:106-168 | the branches around the poll: error, handshake timeout, hangup, nothing to read, a failed read, a batch |
| ClientParty.ClientSocket.WaitForHandshake | src/core/client/ClientSocket.cpp:235-244 | the loop equals the specified wait and returns whether the handshake is done without an error |
| ClientParty.ClientSocket.WaitForObject | src/core/client/ClientSocket.cpp:320-326 | the loop equals the specified wait; it is over exactly when the object has its id or an error was raised |
| ClientParty.ClientSocket.Roundtrip | src/core/client/ClientSocket.cpp:360-371 | numbers and sends the next request unless in error, then waits; it is over exactly when an answer numbered at least so has come or a dispatch has failed |
| Waiting.WaitEnds | src/core/client/ClientSocket.cpp:235-371 | a wait is over if and only if some number of polls gives it reason to end (wish granted, error, failed dispatch), has then used the smallest such number and leaves the state behind these |
| Waiting.AnswerIsAwaited | src/core/client/ClientSocket.cpp:360-371 | roundtrip: over if and only if the number acknowledged has reached the request's or the last dispatch failed, and neither was so behind fewer polls |
| Waiting.HandshakeIsAwaited | src/core/client/ClientSocket.cpp:235-244 | waitForHandshake: over if and only if the handshake is done, an error was raised or the last dispatch failed, and none was so behind fewer polls |
| Waiting.ObjectIsAwaited | src/core/client/ClientSocket.cpp:320-326 | waitForObject: over if and only if the object has its id or an error was raised, and neither was so behind fewer polls |
| Waiting.PollDoes | src/core/client/ClientSocket.cpp:106-168 | what each outcome of a poll does to a client not in error, and when its dispatch succeeds |
| Waiting.ErrorStays | src/core/client/ClientSocket.cpp:108-109 | a client in error polls no more, and every dispatch of it fails |
| Waiting.LateHandshakeDisconnects | src/core/client/ClientSocket.cpp:112-119 | a poll that times out ends the wait for the handshake at the latest, with a disconnect if the handshake was not done |
| Returns.WaitIsRun | src/core/client/ClientSocket.cpp:106-168 | a wait whose polls give what the server has sent meanwhile, whatever it did between them, is part of a run of both parties and leaves the client as that run does |
| Returns.RoundtripIsDone | src/core/client/ClientSocket.cpp:360-371 | from every reachable state to the return: unless a dispatch failed, the server has handled every message the client had sent before and the client has taken every answer to them |
| Returns.BindIsDone | src/core/client/ClientSocket.cpp:269-290 | from every reachable state to the return: unless in error, the new object has the id of the server's object made for this very bind, with protocol and spec agreeing while no deferred id was cut |
| Greeting.HandshakeIsDone | src/core/client/ClientSocket.cpp:235-244 | from every reachable state to the return: without an error or a failed dispatch the client knows the server's protocols and versions, in order |
| Waiting.HangupIsWaitedOut | src/core/client/ClientSocket.cpp:320-326 | of hangups alone, however many: they change nothing, and the wait for an object is over if and only if the id or an error was there before |
| Waiting.HangupEnds | src/core/client/ClientSocket.cpp:235-371 | the first hangup at the latest ends the other two waits |
| Refinement.Reached | src/core/client/ClientSocket.cpp:146-168 | over all runs: what either party has sent can be spelled and is of a kind the other takes, and a party that is not dispatching has taken what it has read or is in error |
| Refinement.ServerBatchIsRun | src/core/server/ServerSocket.cpp:317-341 | in every reachable state between batches, behind an error too: dispatching the octets and descriptors of the client's next messages, binds to version 0 included, is a run of the two-party steps |
| Refinement.ClientBatchIsRun | src/core/client/ClientSocket.cpp:131-168 | the same for the client, while it is connected and not in error |
| RoundtripSafety.RoundtripFlushes | src/core/client/ClientSocket.cpp:360-371 | over all runs: an acknowledged request means the server has handled every earlier message and the client every answer to them; acknowledged never exceeds sent |
| RoundtripSafety.StepKeeps | src/core/message/MessageParser.cpp:143-155 | every step of either party keeps the roundtrip invariant |
| ObjectAgreement.TablesAgree | src/core/client/ClientSocket.cpp:258-318 | over all runs: client ids are distinct and name the server object made for the client's sequence; unless a deferred message was resolved to an id of 256 or more (`truncated`), with the same protocol and spec |
| Origins.NoCallIsRefused | src/core/wireObject/IWireObject.cpp:24-361 | over all runs in which no deferred message was resolved to an id of 256 or more (`!truncated`): the next call of the client is that of the step of the run that bears its number; it finds the object made for the one called and its method, and is delivered with exactly the arguments of that step |
| Origins.NumbersDiffer | src/core/wireObject/IWireObject.cpp:24-209 | no two calls of a run bear the same number, so the step is unique |
| Delivery.CallsAreHeardOnce | src/core/server/ServerClient.cpp:164-173 | over all runs in which no deferred id was cut: the server's listeners have heard just the calls it has handled, each once, in the order of the wire |
| Delivery.HeardAsMade | src/core/wireObject/IWireObject.cpp:24-506 | what is heard of a call on the wire is the object, the method and the arguments of the one step that made it, if it is listened to |
| Events.EventReachesObject | src/core/client/ClientSocket.cpp:328-337 | over all runs in which no deferred id was cut: an event the server sends on an object finds the client's object of its sequence, which has its id and the same spec by then, and calls its listener once with exactly the arguments sent |
| Events.EmitIsStep | src/core/wireObject/IWireObject.cpp:24-209 | what `call` does on the server is a step of the runs: such an event, or a complaint |
| ObjectAgreement.ServerTableHolds | src/core/server/ServerClient.cpp:95-144 | over all runs: ids are positions, objects are declared until an error, no frame meets a spec-less object |
| ObjectAgreement.FewObjectsSuffice | src/core/message/messages/GenericProtocolMessage.cpp:124-128 | with fewer than 256 server objects no deferred id is ever cut |
| ObjectAgreement.WideIdsGoAstray | src/core/message/messages/GenericProtocolMessage.cpp:124-128 | a deferred message finds its object if and only if the id is below 256 |
| Draining.FewSequencesSuffice | src/core/message/messages/GenericProtocolMessage.cpp:124-128 | over all runs: a client that has used fewer than 256 sequences has had no deferred id cut, and the server has at most as many objects as the client has used sequences |
| Scenarios.CallIsLost | src/core/message/messages/GenericProtocolMessage.cpp:124-128 | a run from the beginning in which a call waits for the 256th object, goes out for object 0 and is dropped by the server |
| ObjectAgreement.StepKeeps | src/core/server/ServerClient.cpp:95-144 | every step of either party keeps the agreement invariant |
| Deferral.NothingIsDropped | src/core/client/ClientSocket.cpp:152-165 | over all runs: the object of every waiting message is in the list, so the drop branch never fires |
| Deferral.FlushPlaces | src/core/client/ClientSocket.cpp:152-165 | each message goes out behind the released ones before it or stays behind the kept ones before it, and nothing else does |
| Deferral.CallsGoOutInOrder | src/core/wireObject/IWireObject.cpp:187-206 | over all runs on a standing connection: an object's calls made outside of listeners are those on the wire followed by those waiting, in call order; all are on the wire once it is resolved and the client idle |
| CallOrder.OrderIsKeptExactly | src/core/wireObject/IWireObject.cpp:187-206 | over all runs on a standing connection, calls of either origin: an object's calls on the wire and those waiting are in the order they were made if and only if none was made on it after it got its id while others waited for it |
| CallOrder.NextFlushKeepsOrder | src/core/client/ClientSocket.cpp:146-165 | in every reachable state, for one call of either origin: behind the next flush it is the last of its object's calls, the others in order before it, if and only if the object had no id or nothing waited for it |
| Scenarios.CallIsOvertaken | src/core/client/ClientSocket.cpp:146-165 | a run from the beginning in which a listener's call, the third, is on the wire before the second, which waited |
| Deferral.DeferralIsTransparent | src/core/wireObject/IWireObject.cpp:53-81 | the patched octets of a deferred call are those of an immediate one if and only if the id is below 256 |
| Deferral.CallIsEncoded | src/core/wireObject/IWireObject.cpp:53-185 | the octets of `call` are the encoding of the message the two-party model sends |
| Deferral.DeferredIsRead | src/core/message/messages/GenericProtocolMessage.cpp:124-128 | the flushed octets parse to the same call on the id modulo 256 with its own descriptors |
| Progress.RequestIsAnswered | src/core/server/ServerClient.cpp:95-144 | in every state with the agreement invariant: a server whose methods are listened to and return declared objects answers the request it handles, and only a bind it cannot do raises an error |
| Progress.LapResolves | src/core/client/ClientSocket.cpp:258-267 | in every such state reached by a run: what was asked for on the wire has its id once the server has handled it and the client has taken what the server had sent by then |
| Progress.ChainsDrain | src/core/client/ClientSocket.cpp:152-165 | over all runs, whatever else is called meanwhile: after as many such laps as there were objects without an id, all of these have ids and nothing waits for them |
| Draining.CanBeDrained | src/core/client/ClientSocket.cpp:106-168 | from every reachable state without error, both parties idle, the binds ahead possible and fewer than 256 sequences used, there is a run to a state in which all objects have ids and nothing waits |
| Chains.ChainsGoBack | src/core/wireObject/IWireObject.cpp:69-82 | over all runs: a waiting creation depends on an earlier sequence, and sequences rise along the object list |
| EventLoop.MutualExclusion | src/core/server/ServerSocket.cpp:152-178 | a sanity fact of the steps' guards: no mutex is held twice |
| EventLoop.PendingEventIsVisible | src/core/server/ServerSocket.cpp:402-416 | a pending event means a readable descriptor or a dispatcher that will acknowledge, outside of the two statements that raise it |
| EventLoop.NoParkedThreadIsForgotten | src/core/server/ServerSocket.cpp:372-416 | a sleeping thread has been notified, is about to be, or the descriptor is readable |
| EventLoop.EventIsAwaited | src/core/server/ServerSocket.cpp:402-416 | from any state of the wait with the event set: until it is cleared or the wait times out, in every interleaving the thread stays in the wait and writes nothing, stray wake-ups included |
| EventLoop.AcknowledgedInOnePiece | src/core/server/ServerSocket.cpp:173-175 | in every interleaving, from where the dispatcher holds the export mutex until it has notified: the thread neither enters nor leaves its wait |
| EventLoop.ThreadServesOn | src/core/server/ServerSocket.cpp:372-402 | in every interleaving the thread ends only behind the beginning of the destructor |
| EventLoop.DispatchReleases | src/core/server/ServerSocket.cpp:152-198 | the dispatcher alone, in a bounded number of steps, empties the pipe, clears the event and notifies the sleeping thread |
| EventLoop.DrainReads | src/core/server/ServerSocket.cpp:180-202 | clearEventFd takes one read for every 127 octets begun and leaves the pipe empty, nothing else changed |
| EventLoop.LocksAreReleased | src/core/server/ServerSocket.cpp:372-416 | the thread holds no mutex after at most four steps of its own |
| EventLoop.RestMeansNoStep | src/core/server/ServerSocket.cpp:372-416 | once the destructor waits to join, the thread is asleep without a notification or gone if and only if no step of its own can be taken |
| EventLoop.StopIsMissedExactly | src/core/server/ServerSocket.cpp:60-68 | over all runs, once the destructor waits to join: the thread's own steps come to rest within seven, asleep with no notification to come if and only if it is now at a place from which it sets the event again or has seen it set, or sleeps un-notified or with the event set, and gone otherwise |
| EventLoop.NotificationReaches | src/core/server/ServerSocket.cpp:60-68 | over all runs, told from the state the notification is given in: within seven steps of its own the thread is gone, unless it is on its way to sleep, or asleep, with the event set |
| EventLoop.TimeoutEndsIt | src/core/server/ServerSocket.cpp:409-416 | a thread that was missed is ended by the timeout of its wait |
| EventLoop.StopMayBeMissed | src/core/server/ServerSocket.cpp:60-68 | a run from the beginning in which the destructor's notification is missed |
| PollTable.ServerSocket.RecheckPollFds | src/core/server/ServerSocket.cpp:239-265 | rebuilds the table: the listening descriptor if there is one, exit, wakeup, then the clients' in order |
| PollTable.ServerSocket.ExtractLoopFD | src/core/server/ServerSocket.cpp:343-370 | opens the two pipes once, with its two ways to fail; the table then has the exit descriptor in its place and stays aligned |
| PollTable.ServerSocket.AddClient | src/core/server/ServerSocket.cpp:208-223 | appends a valid client and keeps the alignment |
| PollTable.ServerSocket.RemoveClient | src/core/server/ServerSocket.cpp:225-232 | exactly the clients of the descriptor go, order and alignment stay; reports whether there was one |
| PollTable.ServerSocket.Poll | src/core/server/ServerSocket.cpp:144-150 | what poll does to the table: the returned events are the kernel's, descriptors and alignment stay |
| PollTable.ServerSocket.DispatchNewConnections | src/core/server/ServerSocket.cpp:267-284 | accepts exactly when the listening descriptor is readable, and keeps the alignment |
| PollTable.ServerSocket.DispatchExistingConnections | src/core/server/ServerSocket.cpp:286-315 | dispatches each readable client in order; behind a readable hangup exactly those stay that had no error, got none and did not hang up, without one all stay; keeps the alignment |
| PollTable.SoundPlaces | src/core/server/ServerSocket.cpp:309-312 | the clients that stay are exactly those without error, each behind the staying ones before it |
| PollTable.ErrorsBehindPass | src/core/server/ServerSocket.cpp:290-303 | a client is in error behind the pass if and only if it was before, or was readable and its dispatch raised an error or it hung up |
| PollTable.OthersPlaces | src/core/server/ServerSocket.cpp:225-232 | the clients that stay are exactly those of other descriptors, each behind the staying ones before it |
| PollTable.DispatchedOnce | src/core/server/ServerSocket.cpp:290-294 | with distinct descriptors each readable client is dispatched once and no other |

## Left out

- Sockets, `sendmsg`, `recvmsg`, control messages, clocks (a poll that times out is one of its outcomes), pid lookup, paths: replaced by FIFO lists of whole messages and by batches of octets and descriptors.
- `ffi_call`, `malloc`, `free`, varargs: arguments and delivered values are lists; a float is its four octets.
- Counts the parser would read past its bounds or in more than four octets: the source leaves them open, the model reports them as `None`, `Open`, `Undefined` or `Unclear` and claims nothing more.
- Wrap-around of the 32-bit sequence, id and roundtrip counters: runs stop before it (`Room`).
- The texts of fatal errors, logging, tracing and `parseData`: diagnostics only.
- ClientParty.ClientSocket.Call: takes parameter lists as the generator emits them and arguments below 2^28; its branches for others are in `Marshal.MarshalCall`.
- ClientParty.ClientSocket.BindProtocol: what poll and read give is a list, at whose end the wait stops and says that it is not over; the original would poll on.
- ClientParty.ClientSocket.Roundtrip: the same of its wait.
- Refinement.ServerBatchIsRun: supposes protocol names and lists below 2^28 (`Transmissible`), because longer ones are no messages of the grammar.
- Refinement.ClientBatchIsRun: supposes the same.
- ClientParty.ClientSocket.SendBind: a name of 2^28 octets or more is excluded for the same reason; any protocol may be bound, registered or not, but in `TwoParty` only registered ones are.
- `TwoParty` and with it the results over all runs have each wait as the steps that happen during it.
- ServerParty.ServerClient.OnGeneric: the exception that escapes from a parameter list ending in ARRAY changes nothing; what the application does about it is not modelled.
- ServerParty.ServerClient.Emit: takes parameter lists as the generator emits them and arguments below 2^28, as the client's `Call` does.
- Returns.WaitIsRun: listeners make no calls while the client waits (in `TwoParty` they may at any time), and the bounds of `Refinement` hold.
- ServerParty.ServerClient.CreateObject: objects are values in the list, so handles the application keeps to them are not modelled.
- Listeners that re-enter `dispatchEvents`, `roundtrip` or `bindProtocol`, smart-pointer lifetimes and destructor methods, which the documentation describes and the code does not implement.
- Agreement on versions of child objects: the client gives them version 0, so only client version at most server version is claimed.
- Parties generated from different editions of one protocol description: `TwoParty` takes the object specs of a shared protocol to be the same on both sides; their versions may differ.
- Malformed messages from the server inside of `TwoParty`: a disconnect may happen at any step instead; `Stream` and `ClientParty` treat the octets.
- How fresh the poll thread's copy of the descriptors is after `addClient`, and `addClient` or `removeClient` racing with the thread: they take no lock in the source.
- The protocol generator `scanner/main.cpp`: only that a method's index is its position and that the parameter lists it emits are well formed.
