# gloox: algorithms and protocol state, modelled and proved in Dafny

gloox is a C++ library for XMPP. This project models the parts of it that carry algorithms or
protocol state, and proves what they promise:

- **MD5** (`Bytes`, `Blocks`, `Rfc1321`, `Md5Rounds`, `Md5Count`, `HexText`, `Md5`): the incremental hash with its
  block buffer and two-word bit counter refines the one-shot definition of RFC 1321, for every way of
  cutting the message into pieces, on hosts of both byte orders.
- **BOSH transport** (`HttpFraming`, `HttpHeaders`, `Bosh`, `BoshChunks`, `HttpResponses`, `BoshRuns`,
  `BoshPool`, `BoshWrites`, `BoshTags`, `BoshFallback`, `BoshSends`, `BoshRids`, `ConnectionBosh`): HTTP over a growing buffer, a request window, two lists of
  connections, request ids and a send buffer. Framing does not depend on how the network cuts the stream,
  exactly for the buffers named by `Clean`; the pool invariant holds over all runs; after a fallback to
  HTTP/1.0 so many responses find a connection as there are active ones; sent data is conserved, and
  request ids are consecutive, exactly under named conditions on the run.
- **Base64 and in-band bytestreams** (`Base64`, `Base64Bits`, `Base64Loops`, `Ibb`, `IbbTransfer`, `IbbSession`,
  `InBandBytestream`): encoder and decoder are inverse, the decoder on all inputs; what one stream sends
  another receives, exactly up to 65536 blocks, none empty.
- **JIDs** (`JidEscape`, `Jid`, `JidObject`): ten replacement passes act as one simultaneous substitution
  and are undone by ten others; a printed JID is taken apart again exactly under a condition on its parts.
- **Capabilities and service discovery** (`StringOrder`, `Tags`, `Capabilities`, `CapabilityForms`,
  `DiscoInfo`, `InfoWire`, `Discovery`): the string that a client announces and the one that a peer recomputes from the answer to
  its query are the same, exactly under a condition on identities, features and form.
- **Data forms** (`DataFormFields`, `DataForms`, `FieldWire`, `FormWire`, `DataFormObjects`): what is sent and what
  is read from any element, and both round trips, each with its exact condition.
- **Stream negotiation and IQ dispatch** (`Negotiation`, `NegotiationWire`, `NegotiationRuns`,
  `NegotiationScripts`, `NegotiationLayers`, `ClientStream`, `IqDispatch`, `IqAsked`, `IqDispatcher`): which
  layers an element leaves in follows from the events before it; where TLS is required, no login
  request leaves a client but through the encryption, whatever a server sends, and passwords and hashes of
  them do so exactly if none is asked for while connected without it; a request is answered once where
  handlers return true exactly if they replied once; a tracked request is answered to its handler at most
  once.
- **SOCKS5** (`Socks5`, `Socks5Handshake`, `Socks5Runs`, `Socks5Proxy`): packets fill their buffers, a server that reads
  by RFC 1928 and RFC 1929 recovers what was meant, and the handshake gets through exactly if it should.

`Text` holds the operations of `std::string` and the C library that the rest relies on.

## How to read it

Each component has value-level functions (a state record and one function an operation, with the
branches of the source), lemmas about them, and, where the source updates objects, a class whose fields
are the source's and whose methods are proved to compute those functions. Byte strings are sequences of
numbers below 256 in MD5 and Base64 and strings elsewhere. The machine's integers are written out where
they matter: the 32-bit counter and `int` conversions of MD5, the 64-bit sizes of the HTTP framer and of
the JID parser, `atoi`, the length bytes and the port of SOCKS5.

## Where the code does not do what one would expect

Each of these is a lemma with the exact condition, or with a concrete input.

- A negative `Content-Length` no larger than the header wraps the sum of the two, and the response framing
  then depends on how the stream was cut (`HttpFraming.WrapsIffNegative`,
  `BoshChunks.CutInvariantIffClean`, `HttpResponses.NegativeLengthDependsOnChunks`).
- Losing a connection in pipelining mode with two requests open leaves the second response without an
  active connection, in whatever run it happens (`BoshFallback.FallbackSuppliedIff`,
  `BoshFallback.FallbackStarves`).
- A stream restart drops data that waits in the send buffer, and a closing request that fails drops it and
  uses up a request id (`BoshSends.ConservedIffNothingDropped`, `BoshSends.HeaderDropsBuffer`,
  `BoshRids.RidsIff`, `BoshRids.SkippedId`).
- `setJID` on a JID that has a username or a resource keeps it when the text has none, and a `setJID` that
  fails half-way leaves the strings behind the parts (`Jid.SetJidIff`, `Jid.ConsistentIff`,
  `Jid.StaleStrings`).
- A client with a form, or with an identity or a feature that cannot be printed, announces a capability
  string that no peer can recompute (`DiscoInfo.CapabilitiesAgreeIff`).
- A title or a description with an invalid character prints an empty element once and none the next time
  (`DataForms.FormPrintsAgainIff`).
- An open in-band bytestream that refuses a block sends an error and reports that it did nothing, so that
  the dispatch sends a second one (`IqDispatcher.RefusedBlockAnsweredTwice`).
- A login query that is outstanding when its connection ends stays tracked, and the selected SASL mechanism
  stays selected (`m_selectedSaslMech`, gloox/clientbase.cpp:447-449, is never reset). On the next connection
  an answer or a challenge that comes before STARTTLS is answered in the clear, with the password or a hash
  of it, even where TLS is required (`NegotiationScripts.StaleQuery`, `NegotiationScripts.StaleMechanism`,
  `NegotiationRuns.TlsRequiredSealsPasswords`).
- A <compressed/> or a <proceed/> that comes behind the stream error that ended a connection, in the same
  data, is acted upon, so that the next connection opens with a deflated or encrypted header
  (`NegotiationLayers.FirstHeader`, `NegotiationLayers.LateCompression`).
- The port bytes of SOCKS5 are in network order on little-endian hosts only (`Socks5.NameRequestIff`,
  `Socks5.AddressRequestIff`).

## Model

| member | source | states |
|---|---|---|
| `Blocks.FoldMore` | gloox/md5.cpp:378-414 | what has been folded and the unfinished block are all that is needed to go on with more bytes |
| `Rfc1321.ZeroCountLeast` | gloox/md5.cpp:427-428 | the zeros of section 3.1 of RFC 1321 bring the length to 56 modulo 64, and no shorter run does |
| `Rfc1321.PaddedIsBlocks` | gloox/md5.cpp:416-434 | a padded message is a whole number of 64-byte blocks |
| `Rfc1321.PaddedAt` | gloox/md5.cpp:416-434 | a padded message is the message, the byte 128 and zero bytes up to the length |
| `Rfc1321.OutputInjective` | gloox/md5.cpp:436-459 | the sixteen output bytes determine the four digest words |
| `Md5Rounds.SetIsRfcSet` | gloox/md5.cpp:247-255 | rotating the sum and then adding `b` is the step of section 3.4 of RFC 1321, for any words whose addition commutes |
| `Md5Rounds.FourSteps` | gloox/md5.cpp:256-272 | four unrolled steps, in which the roles of the variables rotate, are four steps of the looped form in which the registers rotate |
| `Md5Rounds.Round1` | gloox/md5.cpp:249-273 | the unrolled first round, with its literal indices and shifts, is steps 0 to 15 of the looped form |
| `Md5Rounds.Round2` | gloox/md5.cpp:275-299 | the unrolled second round is steps 16 to 31 |
| `Md5Rounds.Round3` | gloox/md5.cpp:301-325 | the unrolled third round is steps 32 to 47 |
| `Md5Rounds.Round4` | gloox/md5.cpp:327-351 | the unrolled fourth round is steps 48 to 63 |
| `Md5.TablesAgree` | gloox/md5.cpp:93-157 | the 64 constants, some written as complements, are the table of section 3.4 of RFC 1321 |
| `Md5.RotateLeftRotates` | gloox/md5.cpp:247 | the shift-and-or macro is a rotation, for every word and every shift |
| `Md5.CodeMixIsRfcMix` | gloox/md5.cpp:247-255 | one macro step of the code is one step of RFC 1321, for every operand |
| `Md5.ShiftAddIsWord` | gloox/md5.cpp:227-240 | the shift-and-add decoding of the big-endian path reads the low-order byte first |
| `Md5.DecodeBlock` | gloox/md5.cpp:185-242 | both code paths read the same sixteen words of a block |
| `Md5.CodeCompresses` | gloox/md5.cpp:178-360 | the compression function of RFC 1321 equals the 64 steps of the code followed by the addition of the old words |
| `Md5.MD5.Process` | gloox/md5.cpp:178-360 | `process` replaces the digest words by the compression of RFC 1321 of them and the block |
| `Md5Count.Offset` | gloox/md5.cpp:382 | the buffer fill read off the counter is the number of bytes fed modulo 64, however often the counter has wrapped |
| `Md5Count.Add` | gloox/md5.cpp:383-392 | truncated shift, carry and high part together add 8 times the bytes to the two-word count modulo 2^64 |
| `Md5Count.PadLengthIsZeros` | gloox/md5.cpp:427-428 | the computed padding length is one more than the number of zeros that RFC 1321 asks for |
| `Md5Count.LengthBytes` | gloox/md5.cpp:423-425 | the eight length bytes are the bit length modulo 2^64, low-order byte first |
| `Md5.MD5.AddLength` | gloox/md5.cpp:388-392 | after the length update of `feed` the words count the bytes fed so far |
| `Md5.MD5.Init` | gloox/md5.cpp:362-371 | `init` makes the object as if nothing had been fed |
| `Md5.MD5.Feed` | gloox/md5.cpp:378-414 | `feed` keeps the invariant that ties count, digest words and buffer to the bytes fed, and adds exactly its bytes to them |
| `Md5.MD5.FullBlocks` | gloox/md5.cpp:407-409 | the block loop folds all full blocks of the rest and stops with less than 64 bytes left |
| `Md5.MD5.FinalBlock` | gloox/md5.cpp:411-413 | the unfinished block goes to the front of the buffer |
| `Md5.MD5.FeedString` | gloox/md5.cpp:373-376 | the string overload feeds as many bytes as its length is when converted to `int` |
| `Md5.TakenIsAll` | gloox/md5.cpp:373-376 | that is the whole string exactly if its length is an `int` |
| `Md5.MD5.Finalize` | gloox/md5.cpp:416-434 | `finalize` makes the bytes fed the padded message of RFC 1321, and does nothing the second time |
| `Md5.MD5.Binary` | gloox/md5.cpp:449-459 | `binary` returns the output bytes of the fold over the padded message, and again the same when it is called again |
| `Md5.MD5.Hex` | gloox/md5.cpp:436-447 | `hex` prints the same bytes: they are read back from it digit by digit |
| `Md5.HexStringIff` | gloox/md5.cpp:443-444 | a text is what is printed for a byte string exactly if a reader, by character ranges and high digit first, reads that byte string from it |
| `Md5.MD5.Reset` | gloox/md5.cpp:461-464 | `reset` makes the object as new |
| `Md5.DigestOfChunks` | gloox/md5.cpp:373-459 | any number of `feed`s and then `binary` give the digest by RFC 1321 of the concatenation, however it is cut |
| `HttpFraming.WrapsIffNegative` | gloox/connectionbosh.cpp:375-386 | header length plus content length wraps exactly for a negative `Content-Length` that is no larger in size than the header |
| `HttpFraming.HeadStable` | gloox/connectionbosh.cpp:364-368 | a complete header is found as the same header when more data arrives |
| `HttpFraming.NextStable` | gloox/connectionbosh.cpp:364-403 | without wrapping, more data changes a pass of the loop only from a body that is too short to the same one complete |
| `HttpFraming.NextWraps` | gloox/connectionbosh.cpp:364-403 | with wrapping, a pass erases the same whatever has arrived behind the header |
| `BoshChunks.ReceiveSettles` | gloox/connectionbosh.cpp:362-404 | the loop leaves nothing that it would feed, and running it again changes nothing |
| `BoshChunks.ReceiveEarly` | gloox/connectionbosh.cpp:357-404 | running the loop before the rest arrives comes to the same as running it once at the end |
| `BoshChunks.ChunksIrrelevant` | gloox/connectionbosh.cpp:357-404 | one call a piece, for any cutting of the stream, ends in the same state as one call for all: bodies fed, left-over buffer, connections, window |
| `BoshChunks.CutInvariantIffClean` | gloox/connectionbosh.cpp:357-404 | every cutting of a buffer leads to the same state exactly if no wrapping length in it has data behind its header |
| `HttpResponses.NextOfResponse` | gloox/connectionbosh.cpp:364-403 | a pass over a well-formed 200 response finds exactly its header and body and erases exactly the response |
| `HttpResponses.ResponsesDelivered` | gloox/connectionbosh.cpp:357-404 | of a stream of well-formed responses exactly the bodies are fed, in order, one request closed each, and nothing is left over |
| `HttpResponses.ResponsesDeliveredInPieces` | gloox/connectionbosh.cpp:357-404 | the same for every cutting of the stream into pieces |
| `HttpResponses.PlainResponseWellFormed` | gloox/connectionbosh.cpp:319-333 | a status line and a decimal `Content-Length` make a well-formed response for every body |
| `HttpResponses.NegativeLengthDependsOnChunks` | gloox/connectionbosh.cpp:375-400 | with a `Content-Length` of -1 and one byte behind it, the result depends on the cutting |
| `HttpHeaders.FieldIsValue` | gloox/connectionbosh.cpp:319-333 | in a header made of a status line and fields, the search finds the value of the first field of that name, whatever the case of ASCII letters, and nothing if there is none |
| `HttpHeaders.HeaderIsHead` | gloox/connectionbosh.cpp:364-368 | the header found in front of a body is exactly that header |
| `HttpHeaders.ResponseHandled` | gloox/connectionbosh.cpp:357-404 | after a response with such a header: the session is down exactly if the code is not 200; the mode is that of one request a connection exactly if the server says `Connection: close` or HTTP/1.0, or it was so already; and then the front active connection is last in the pool |
| `BoshRuns.GetConnectionShape` | gloox/connectionbosh.cpp:546-598 | `getConnection` moves connections between the lists, adds at most a new instance, and returns one only below the request window |
| `BoshRuns.TurnKeeps` | gloox/connectionbosh.cpp:388-397 | a response finds an active connection, and closing it keeps the pool invariant and the set of connections |
| `BoshRuns.RunKeeps` | gloox/connectionbosh.cpp:270-302 | in every reachable state no connection is in both lists or twice in one, at most two requests are open, each has a connection for its response, no connection is dropped, and none appears but from `newInstance` |
| `BoshRuns.InitialOk` | gloox/connectionbosh.cpp:31-74 | a new object satisfies that invariant |
| `BoshPool.RequestLeavesIff` | gloox/connectionbosh.cpp:270-302 | a request leaves exactly if the window is open, the connection takes it, and there is one: the active one while pipelining, or else the one that has waited longest, if it is up |
| `BoshPool.ConnectionsTaken` | gloox/connectionbosh.cpp:546-614 | in what order connections are taken from the pool, put off and added |
| `BoshPool.EachInTurn` | gloox/connectionbosh.cpp:600-614 | connections that are down are tried in turn, and the first that is up is found when its turn comes |
| `BoshPool.ResponsesGiveBack` | gloox/connectionbosh.cpp:616-639 | responses give connections back in the order in which requests took them |
| `BoshTags.WindowIs` | gloox/connectionbosh.cpp:458-544 | over every run the window is the smallest that a session body asked for, and what it was before |
| `BoshTags.TerminatedIsSilent` | gloox/connectionbosh.cpp:458-544 | after a terminating body, nothing is sent or accepted over any run without a connect() or a body that takes the session up |
| `BoshTags.TagState` | gloox/connectionbosh.cpp:458-544 | a body ends the session exactly if it says so, and else takes it up exactly if it has an id; it clears the restart and may lower the window, nothing else |
| `BoshWrites.StanzaLeavesIff` | gloox/connectionbosh.cpp:183-268 | a stanza is accepted exactly if the session is not down, and leaves, with all that waited, exactly if the session is up and a request can go out |
| `BoshWrites.HeaderLeavesIff` | gloox/connectionbosh.cpp:183-268 | a stream header leaves as a restart under the same condition |
| `BoshWrites.EndTagStays` | gloox/connectionbosh.cpp:200-205 | an end tag changes nothing |
| `BoshWrites.PollLeavesIff` | gloox/connectionbosh.cpp:161-181 | a poll leaves exactly if the session is up, a request can go out, and none is open or data waits |
| `BoshWrites.SessionLeavesIff` | gloox/connectionbosh.cpp:406-431 | the session request leaves exactly if the client is connecting and a request can go out |
| `BoshWrites.CloseLeavesIff` | gloox/connectionbosh.cpp:121-159 | the closing request leaves with what waits exactly if there is a connection and a request can go out; the session is down either way |
| `BoshWrites.LifeCycle` | gloox/connectionbosh.cpp:103-119 | the application connects once; a connection lost while connecting ends the attempt, and one lost while pipelining ends pipelining |
| `BoshFallback.RunOne` | gloox/connectionbosh.cpp:546-598 | in every state of every run, whatever the environment does, at most one connection is active while pipelining |
| `BoshFallback.SuppliedIff` | gloox/connectionbosh.cpp:362-404 | without pipelining, or with a first response that ends it, every pass over a stream of responses finds an active connection exactly if there are as many |
| `BoshFallback.FallbackSuppliedIff` | gloox/connectionbosh.cpp:433-456 | whatever the run, after a connection lost while pipelining the responses find their connections exactly if there are no more of them than active connections, so for all open requests exactly if at most one is open |
| `BoshFallback.FallbackStarves` | gloox/connectionbosh.cpp:433-456 | a run from a new object, with the session response and two stanzas, after which a lost connection leaves the second response without a connection, for all texts |
| `BoshSends.RunLedger` | gloox/connectionbosh.cpp:183-268 | over every run, what `send` accepted is what was transmitted or lost, followed by the buffer, in order, and the transmitted part is the payloads of the requests |
| `BoshSends.RunDrops` | gloox/connectionbosh.cpp:121-268 | over every run, the lost text is what restarts that left and closes that failed found waiting |
| `BoshSends.ConservedIffNothingDropped` | gloox/connectionbosh.cpp:121-268 | payloads of transmitted bodies followed by the buffer are what `send` accepted exactly if no restart left and no close failed while data was waiting |
| `BoshSends.HeaderDropsBuffer` | gloox/connectionbosh.cpp:183-196 | a stream header written while data waits and the window is open drops that data |
| `BoshRids.StopRidsIff` | gloox/connectionbosh.cpp:121-159 | a closing request leaves the counter at the last transmitted id exactly if it is sent or not attempted, or nothing was transmitted before |
| `BoshRids.ConsecutiveIff` | gloox/connectionbosh.cpp:121-268 | transmitted ids are consecutive within every session exactly if no body or closing request leaves while the counter is ahead |
| `BoshRids.RidsIff` | gloox/connectionbosh.cpp:121-431 | from a new object: the counter is right after every event exactly if no closing or session request is lost after a transmission, which makes all ids consecutive |
| `BoshRids.SkippedId` | gloox/connectionbosh.cpp:121-268 | a run from a new object, for all texts, in which a closing request fails, the session is taken up again, and the next stanza skips an id |
| `ConnectionBosh.ConnectionBOSH.ActivateConnection` | gloox/connectionbosh.cpp:600-614 | a connection that is up moves to the end of the active list and is returned, another to the end of the pool |
| `ConnectionBosh.ConnectionBOSH.GetConnection` | gloox/connectionbosh.cpp:546-598 | nothing beyond the window; an active connection while pipelining, else one of the pool, else a new instance for later |
| `ConnectionBosh.ConnectionBOSH.PutConnection` | gloox/connectionbosh.cpp:616-639 | the first active connection stays while pipelining, else goes back to the pool |
| `ConnectionBosh.ConnectionBOSH.SendRequest` | gloox/connectionbosh.cpp:270-302 | counts and records a request exactly if a connection was there and took it |
| `ConnectionBosh.ConnectionBOSH.SendXML` | gloox/connectionbosh.cpp:214-268 | on success empties the buffer into the request and moves on the id, on failure takes the id back; returns false exactly if it refused |
| `ConnectionBosh.ConnectionBOSH.Send` | gloox/connectionbosh.cpp:183-212 | stream headers ask for a restart, end tags are swallowed, other data is buffered and sent if possible |
| `ConnectionBosh.ConnectionBOSH.Recv` | gloox/connectionbosh.cpp:161-181 | sends when nothing is open or data waits |
| `ConnectionBosh.ConnectionBOSH.Connect` | gloox/connectionbosh.cpp:103-119 | starts connecting and asks for a connection |
| `ConnectionBosh.ConnectionBOSH.HandleConnect` | gloox/connectionbosh.cpp:406-431 | sends the session request under the starting id |
| `ConnectionBosh.ConnectionBOSH.HandleDisconnect` | gloox/connectionbosh.cpp:433-456 | gives up while connecting, falls back while pipelining |
| `ConnectionBosh.ConnectionBOSH.Disconnect` | gloox/connectionbosh.cpp:121-159 | sends the buffer with the closing request and records what became of it |
| `ConnectionBosh.ConnectionBOSH.HandleTag` | gloox/connectionbosh.cpp:458-544 | takes over a session, a smaller window and a termination from a body |
| `ConnectionBosh.ConnectionBOSH.GetHTTPField` | gloox/connectionbosh.cpp:319-333 | returns the value of a field found by a search that ignores case |
| `ConnectionBosh.ConnectionBOSH.OnePass` | gloox/connectionbosh.cpp:364-403 | one pass of the loop does what one pass is specified to do, and says whether the loop goes on, returns, throws or repeats itself for ever |
| `ConnectionBosh.ConnectionBOSH.HandleReceivedData` | gloox/connectionbosh.cpp:357-404 | the loop ends in the specified state, returns, throws or repeats itself as specified, and keeps the pool invariant where the responses answer open requests |
| `Base64.ValueOfLetter` | gloox/base64.cpp:22-36 | the decoding table is the inverse of the alphabet |
| `Base64.LetterOfValue` | gloox/base64.cpp:22-36 | only a letter has a value other than the marker, and it is the letter of that value |
| `Base64.EncodeLength` | gloox/base64.cpp:38-81 | n bytes become 4 times the third of n rounded up characters |
| `Base64.DecodeEncode` | gloox/base64.cpp:38-122 | decoding undoes encoding, for every byte string |
| `Base64.EncodeCanonical` | gloox/base64.cpp:38-81 | what the encoder returns is canonical: whole groups, right padding, zero trailing bits |
| `Base64.EncodeDecode` | gloox/base64.cpp:38-122 | encoding undoes decoding on canonical texts |
| `Base64.EncodeDecodeIffCanonical` | gloox/base64.cpp:38-122 | and on no others, malformed ones included |
| `Base64.Vectors` | gloox/base64.cpp:38-81 | the test vectors of section 10 of RFC 4648 for one, two and three bytes |
| `Base64.LastLetters` | gloox/base64.cpp:22-36 | 62 and 63 are plus and slash |
| `Base64Loops.Encode64` | gloox/base64.cpp:38-81 | the loop, with its shifts and masks and a body that advances the index itself, returns the encoding and reads in bounds |
| `Base64Loops.Decode64` | gloox/base64.cpp:83-122 | the loop, with its shifts and masks, returns the decoding of any text, reading at most the terminating zero behind it |
| `Base64Bits.S0Bits` | gloox/base64.cpp:48 | the mask and shift of the first character is the arithmetic used in the encoding |
| `Base64Bits.S1Bits` | gloox/base64.cpp:51-53 | likewise for the second, joined from two bytes |
| `Base64Bits.S2Bits` | gloox/base64.cpp:58-60 | likewise for the third |
| `Base64Bits.LastBits` | gloox/base64.cpp:51-60 | without a next byte, second and third are those of a zero byte |
| `Base64Bits.S3Bits` | gloox/base64.cpp:71 | likewise for the fourth |
| `Base64Bits.O0Bits` | gloox/base64.cpp:93-96 | likewise for the first byte of the decoding, on all table values |
| `Base64Bits.O1Bits` | gloox/base64.cpp:104-105 | likewise for the second byte |
| `Base64Bits.O2Bits` | gloox/base64.cpp:115-116 | likewise for the third byte, on whatever the table holds |
| `Ibb.ParsePrint` | gloox/inbandbytestream.cpp:34-95 | open, data and close blocks come back from their elements as they were, Base64 and decimal numbers included |
| `Ibb.OnTheWire` | gloox/inbandbytestream.cpp:34-95 | three elements as XEP-0047 writes them, character by character |
| `Ibb.Foreign` | gloox/inbandbytestream.cpp:44-58 | an element of another namespace is no block |
| `IbbTransfer.ApplyInOrder` | gloox/inbandbytestream.cpp:163-206 | no event takes back or reorders delivered data, and a closed stream delivers nothing |
| `IbbTransfer.RunInOrder` | gloox/inbandbytestream.cpp:144-206 | over every run, gaps, duplicates, closes and reopenings included, delivered blocks are numbered 0, 1, 2, ... without an empty one, and the counter is the last of them |
| `IbbTransfer.SplitConcat` | gloox/inbandbytestream.cpp:254-267 | the blocks of one `send` make up its data, and one is empty only if the data is |
| `IbbTransfer.SendAllNumbers` | gloox/inbandbytestream.cpp:249-270 | several `send`s number their blocks through |
| `IbbTransfer.NumbersWrap` | gloox/inbandbytestream.cpp:260-265 | block i carries its number modulo 65536 |
| `IbbTransfer.ClosedTakesNothing` | gloox/inbandbytestream.cpp:169-179 | data blocks leave a closed stream as it is |
| `IbbTransfer.DeliverAllIff` | gloox/inbandbytestream.cpp:188-205 | an open stream in step takes and acknowledges all blocks exactly if none is empty and its count stays within 65536; otherwise it delivers something else |
| `IbbTransfer.Transfer` | gloox/inbandbytestream.cpp:163-270 | what a new stream sends, printed and parsed, a new stream delivers exactly if no `send` was empty and there are at most 65536 blocks, and then the data is the data sent |
| `IbbSession.WholeSession` | gloox/inbandbytestream.cpp:98-297 | two new objects: the request to open is accepted, and all that is sent is delivered exactly if no `send` was empty and there are at most 65536 blocks, every request acknowledged; the stream ends closed in any case |
| `IbbSession.AsksToOpen` | gloox/inbandbytestream.cpp:129-142 | a stream asks its peer to open behind all that it sent, and never itself |
| `IbbSession.NothingWithoutHandler` | gloox/inbandbytestream.cpp:163-167 | without a handler no stream opens, over any run |
| `IbbSession.RefusesIff` | gloox/inbandbytestream.cpp:182-205 | what an open stream answers, delivers and says for every block, and when it closes |
| `IbbSession.OpensIff` | gloox/inbandbytestream.cpp:163-180 | a closed stream is opened by a request to open and by nothing else |
| `IbbSession.AnswerIff` | gloox/inbandbytestream.cpp:144-161 | an error closes the stream, the answer to the request to open opens it where there is a handler |
| `IbbSession.SendsIff` | gloox/inbandbytestream.cpp:249-252 | a stream sends, and says so, exactly if it is open |
| `InBandBytestreams.InBandBytestream.Send` | gloox/inbandbytestream.cpp:249-270 | the do-while loop sends the specified numbered blocks and leaves the specified counter |
| `InBandBytestreams.InBandBytestream.HandleIq` | gloox/inbandbytestream.cpp:163-206 | state, answer and result for every stanza; nothing delivered is taken back, and nothing is delivered while closed |
| `InBandBytestreams.InBandBytestream.HandleIqID` | gloox/inbandbytestream.cpp:144-161 | a result opens the stream, an error closes it |
| `InBandBytestreams.InBandBytestream.Connect` | gloox/inbandbytestream.cpp:129-142 | sends the request to open, but not to oneself |
| `InBandBytestreams.InBandBytestream.Closed` | gloox/inbandbytestream.cpp:272-281 | the stream is closed and nothing else changes |
| `InBandBytestreams.InBandBytestream.Close` | gloox/inbandbytestream.cpp:283-297 | sends a close block and closes |
| `JidEscape.ReplaceAll` | gloox/util.cpp:101-116 | the loop of `find` and `replace` is a left-to-right substitution that goes on after the inserted text |
| `JidEscape.EscapePass` | gloox/jid.cpp:91-100 | one more pass extends the simultaneous escaping by its character: no token holds a character of a later pass |
| `JidEscape.EscapeNode` | gloox/jid.cpp:87-103 | the ten passes escape every character on its own |
| `JidEscape.UnescapePass` | gloox/jid.cpp:109-118 | one more pass extends the simultaneous unescaping by its token: no pass makes or breaks a token of another |
| `JidEscape.UnescapeNode` | gloox/jid.cpp:105-121 | the ten passes are one substitution of tokens from left to right |
| `JidEscape.UnescapeEscape` | gloox/jid.cpp:87-121 | unescaping undoes escaping, for every string, and escaped strings hold the ten characters in tokens only |
| `JidEscape.EscapeUnescapeIff` | gloox/jid.cpp:87-121 | escaping undoes unescaping exactly on escaped strings |
| `JidEscape.EscapeOne` | gloox/jid.cpp:91-100 | by XEP-0106, each of the ten characters becomes a backslash and the hexadecimal code of the character, and every other character stays |
| `JidEscape.EscapeEach` | gloox/jid.cpp:87-103 | a concatenation is escaped by its parts |
| `JidEscape.UnescapeFront` | gloox/jid.cpp:105-121 | a backslash and the code of one of the ten stand for that character, all else for itself, from left to right, in every string |
| `Jid.WrappedLength` | gloox/jid.cpp:36 | `slash - at - 1` modulo 2^64 is the length of the server, or enough for the rest, in all four cases |
| `Jid.SplitJoined` | gloox/jid.cpp:30-41 | taking a text apart loses nothing, and cuts at the first '@' and the first '/' behind it |
| `Jid.WellSplitUnique` | gloox/jid.cpp:30-41 | there is one way to cut a text like that |
| `Jid.SplitPrintIff` | gloox/jid.cpp:30-85 | the parts of a printed JID are found again exactly if the server has no '/' and either the username is there and has no '@', or neither server nor resource has one |
| `Jid.SetJidValid` | gloox/jid.cpp:21-47 | `setJID` succeeds exactly if the text is not empty and all its parts can be prepared |
| `Jid.ApplyValidIff` | gloox/jid.cpp:21-69 | an object is valid exactly if its last call could prepare what it was given |
| `Jid.ApplyServerRaw` | gloox/jid.cpp:21-55 | the raw server is the last that was given, prepared or not; a username that cannot be prepared keeps `setJID` from it, and an empty JID takes it away |
| `Jid.RunPrepared` | gloox/jid.cpp:21-69 | over every run of setters with idempotent profiles, every part that is set is prepared |
| `Jid.ConsistentIff` | gloox/jid.cpp:21-69 | one setter keeps bare and full JID equal to the printed parts exactly if it is no `setJID` that fails half-way having got to parts with another bare JID |
| `Jid.RunConsistent` | gloox/jid.cpp:21-85 | over runs in which no `setJID` fails, bare and full JID are the printed parts |
| `Jid.SetJidIff` | gloox/jid.cpp:21-47 | after a successful `setJID` username and resource are those of the text exactly if the text has one or the object had none |
| `Jid.Reparse` | gloox/jid.cpp:21-85 | the full JID that a run leaves, given to a new object, makes the same JID if its parts can be told apart |
| `Jid.StaleStrings` | gloox/jid.cpp:21-69 | a run after which a valid object has the username of one JID and the full JID of another |
| `JidObject.JID.SetJID` | gloox/jid.cpp:21-47 | every field after every way out, early returns included; set parts stay prepared; true exactly if the text is accepted, and then the strings are the printed parts; strings that were stay so exactly if the call does not fail half-way at another bare JID |
| `JidObject.JID.SetUsername` | gloox/jid.cpp:49-54 | the prepared username or the old one; set parts stay prepared, and the strings are the printed parts either way |
| `JidObject.JID.SetServer` | gloox/jid.cpp:56-62 | the raw server, the prepared one or the old one; likewise |
| `JidObject.JID.SetResource` | gloox/jid.cpp:64-69 | the prepared resource or the old one; set parts stay prepared, and the full JID is made anew from the old bare one, so that strings that were the printed parts stay so |
| `JidObject.JID.SetFull` | gloox/jid.cpp:71-76 | the full JID is the bare one and the resource, if there is one |
| `JidObject.JID.SetBare` | gloox/jid.cpp:78-85 | the bare JID is the printed username and server |
| `JidObject.JID.FromString` | gloox/jid.h:43 | a new object from a text has prepared parts, is valid exactly if the text is accepted, and then has the printed parts as strings |
| `JidObject.JID.BareJID` | gloox/jid.h:83 | `bareJID` is the same JID without its resource, if username and server can be told apart |
| `JidObject.SentOver` | gloox/jid.cpp:21-85 | whatever `setJID` accepts comes back from its full JID in another object, if the parts can be told apart |
| `Tags.ValidXmlIff` | gloox/util.cpp:82-99 | character data is dropped exactly if it holds a control character other than tab, line feed and carriage return, or a byte that UTF-8 does not have |
| `Tags.FindChildIsFirst` | gloox/tag.cpp:619-628 | `findChild` finds the first child of the name |
| `StringOrder.SortPermutation` | gloox/capabilities.cpp:80-91 | what sorting returns depends on the elements and not on their order |
| `StringOrder.LeqIff` | gloox/capabilities.cpp:80-91 | the order is by the first character that differs, a prefix first |
| `StringOrder.SortSorts` | gloox/capabilities.cpp:80-91 | sorting keeps the elements and puts them in this order |
| `StringOrder.MergeKeeps` | gloox/disco.cpp:325-328 | merging keeps all elements of both lists |
| `StringOrder.MergeSorted` | gloox/disco.cpp:325-328 | merging sorted lists leaves a sorted one |
| `Capabilities.GenerateString` | gloox/capabilities.cpp:65-130 | the loops build the sorted identities, the sorted features and the form's text |
| `Capabilities.FormPermutation` | gloox/capabilities.cpp:99-128 | the form's text does not depend on the order of fields with distinct names |
| `Capabilities.GeneratePermutation` | gloox/capabilities.cpp:65-130 | the string does not depend on the order of identities, features and form fields |
| `Capabilities.GenerateBack` | gloox/capabilities.cpp:65-99 | without a form and with no '<' in any text, the string gives back the sorted identities and the sorted features |
| `CapabilityForms.GenerateIs` | gloox/capabilities.cpp:65-130 | the string is the sorted identities, the sorted features and the lines of the form, each ended by a bracket: form types, and then by ascending name every other field, its name and all its values |
| `CapabilityForms.GenerateFormBack` | gloox/capabilities.cpp:65-130 | with no bracket in any text all of that is read back from the string, equal field names included |
| `Capabilities.IdTextBack` | gloox/capabilities.cpp:71-78 | an identity can be read off its text if category and type hold no slash |
| `DiscoInfo.ParsePrintInfo` | gloox/disco.cpp:35-154 | a peer reads in a printed answer the identities and features that can be printed, and the normalised form |
| `InfoWire.InfoElement` | gloox/disco.cpp:132-154 | the element that is sent, child by child: the identities that are complete, every feature, and a form that can be printed |
| `InfoWire.InfoNode` | gloox/disco.cpp:132-137 | it is a query in the namespace of XEP-0030 about the node |
| `InfoWire.IdentityElement` | gloox/disco.cpp:55-68 | an identity with a category and a type says them and its name |
| `InfoWire.NoQuery` | gloox/disco.cpp:84-85 | nothing is read from any other element |
| `InfoWire.CopySends` | gloox/dataform.cpp:43-48 | the copy of a form that an answer holds says the same as the form, the report after one round trip, and has no items |
| `DiscoInfo.NodeFeaturesSame` | gloox/disco.h:169-174 | default features, two sorts and two merges leave the same features as appending the defaults |
| `DiscoInfo.SeenString` | gloox/disco.cpp:300-351 | the string that a peer computes from the answer about a node, identities in any order |
| `DiscoInfo.CapabilitiesAgreeIff` | gloox/capabilities.cpp:52-130 | it is the string that was announced exactly if every identity has a category and a type, every feature is a text, all of them can be printed, and there is no form field |
| `Discovery.VerRegisters` | gloox/capabilities.cpp:52-63 | whatever was registered before, the capabilities answer at the announced node, once, and nowhere else |
| `Discovery.Capability.Ver` | gloox/capabilities.cpp:52-63 | announces the hash of the string and moves the registration to its node |
| `Discovery.Disco.HandleInfo` | gloox/disco.cpp:300-351 | the answer to a query: not found, the own information, or the merged answers of the node's handlers |
| `Discovery.AllAnswer` | gloox/disco.cpp:318-329 | the answer about a node has what each of its handlers answers, identities one after the other, features in ascending order |
| `Discovery.Disco.RegisterNodeHandler` | gloox/disco.cpp:497-500 | the handler goes behind the others of the node |
| `Discovery.Disco.RemoveNodeHandler` | gloox/disco.cpp:502-511 | the handler is gone from the node, and an empty node with it |
| `Discovery.Disco.RemoveNodeHandlers` | gloox/disco.cpp:513-522 | the loop removes the handler everywhere and leaves the others |
| `Discovery.Announce` | gloox/capabilities.cpp:52-176 | a client announces, a peer asks about the announced node, and its string is the announced one under the condition above |
| `DataFormFields.ParsePrintField` | gloox/dataformfield.cpp:38-132 | printing and parsing a field normalises it |
| `DataFormFields.InsertAllIff` | gloox/dataformfield.cpp:74-79 | reading options into the multimap keeps their order exactly if they are sorted by label |
| `DataFormFields.FieldRoundTripIff` | gloox/dataformfield.cpp:38-132 | a field comes back as it was exactly if it is normal: texts that XML admits, as many values as its type says, "0" or "1" for a boolean, options in order and with lists only |
| `DataFormFields.PrintsAgainIff` | gloox/dataformfield.cpp:38-132 | print, parse, print gives the same element exactly if the description is valid and no option changes its place |
| `FieldWire.FieldHead` | gloox/dataformfield.cpp:88-96 | a printed field has the name of its type in the table of XEP-0004, its name and its label |
| `FieldWire.FieldValues` | gloox/dataformfield.cpp:112-131 | all values of the types of several; for a boolean "0" exactly if there is no value or the first is "false" or "0", else "1"; the first value of all other types |
| `FieldWire.FieldOptions` | gloox/dataformfield.cpp:103-111 | the options of the two list types in their order, and of no other |
| `FieldWire.OptionElement` | gloox/dataformfield.cpp:108-109 | an option has its label, if any, and its value in an element |
| `FieldWire.NamedRequired` | gloox/dataformfield.cpp:97-98 | the mark of a required field, and of no other |
| `FieldWire.NamedDesc` | gloox/dataformfield.cpp:100-101 | the description, if there is one |
| `FieldWire.TypeRead` | gloox/dataformfield.cpp:44-51 | from any element, the type is the one that its name has in the table, and none without a name |
| `FieldWire.FieldRead` | gloox/dataformfield.cpp:53-74 | from any element, in any order of children: all the values of the types of several and else the last, the last description, the mark, name and label |
| `FieldWire.OptionsRead` | gloox/dataformfield.cpp:75-80 | the options of any element come out sorted by label, and each label keeps its values in their order |
| `DataForms.ParsePrintForm` | gloox/dataform.cpp:62-135 | printing and parsing a form normalises it, with fields, instructions, reported and items in order |
| `DataForms.FormRoundTripIff` | gloox/dataform.cpp:62-135 | a form comes back as it was exactly if it is normal |
| `DataForms.FormPrintsAgainIff` | gloox/dataform.cpp:62-135 | print, parse, print gives the same element exactly if no title or description is dropped and no option changes its place |
| `FormWire.FormHead` | gloox/dataform.cpp:106-113 | a printed form is an `x` in the namespace of XEP-0004 with the name of its type |
| `FormWire.FormElement` | gloox/dataform.cpp:106-135 | its children: the title, all instructions, every field that can be printed, the report and all items, field by field |
| `FormWire.KindRead` | gloox/dataform.cpp:62-74 | from any element, the type is the one of the name, a form without one, and invalid exactly for another element, namespace or name |
| `FormWire.FormRead` | gloox/dataform.cpp:76-96 | from any element, in any order of children: the last title, all instructions, fields and items, the first report and no other |
| `DataFormObjects.DataFormField.FromTag` | gloox/dataformfield.cpp:38-82 | the loop over the children fills the specified field |
| `DataFormObjects.DataFormField.ToTag` | gloox/dataformfield.cpp:88-132 | adds the specified attributes and children, type by type |
| `DataFormObjects.DataForm.Parse` | gloox/dataform.cpp:62-98 | the loop over the children fills the specified form, and false is returned exactly for no valid form |
| `DataFormObjects.DataForm.ToTag` | gloox/dataform.cpp:106-135 | adds the specified attributes and children |
| `DataFormObjects.DataForm.Container` | gloox/dataformitem.cpp:25-37 | every child of an item or a report becomes a field |
| `DataFormObjects.DataForm.PrintAll` | gloox/dataformreported.cpp:43-52 | fields of no valid type are left out, the others keep their order |
| `NegotiationWire.StepAdds` | gloox/client.cpp:148-303 | what one event adds to the wire: at most two layers, encryption outside; all sealed while the encryption is active; nothing unsealed of a login unless the offered features are unprotected, or a password or a hash of it is asked for in the clear |
| `NegotiationWire.StepLeaks` | gloox/clientbase.cpp:586-669 | and where one is asked for in the clear, it is sent in the clear |
| `NegotiationRuns.RunSealsIff` | gloox/client.cpp:148-303 | over runs with protected features logins, bind and compress requests leave only as output of the encryption; passwords and hashes of them do exactly if no step is asked for one while connected without encryption |
| `NegotiationRuns.TlsRequiredSealsLogins` | gloox/client.cpp:148-303 | where TLS is required, every run from the start, whatever the server sends, has login, bind and compress requests sealed |
| `NegotiationRuns.UnprotectedLogin` | gloox/client.cpp:382-407 | with features that are not protected, a client that can log in does so in the clear |
| `NegotiationRuns.TlsRequiredSealsPasswords` | gloox/nonsaslauth.cpp:116-172 | where TLS is required, a run from the start has every password sealed exactly if no login query is answered while connected without encryption, and every hash of one exactly if no DIGEST-MD5 challenge is |
| `NegotiationRuns.AfreshNeverInClear` | gloox/clientbase.cpp:354-369 | no password and no hash is sent in the clear if no connection comes up with a login query outstanding or DIGEST-MD5 selected |
| `NegotiationRuns.EncryptionStays` | gloox/clientbase.cpp:846-859 | once the encryption is active, all that a connection sends goes through it, to its end |
| `NegotiationScripts.WholeNegotiation` | gloox/client.cpp:148-575 | with a cooperating server the client is encrypted, authenticated, bound and in session, and the wire holds exactly nine elements, all but the first two sealed |
| `NegotiationScripts.StaleQuery` | gloox/nonsaslauth.cpp:116-172 | a run from the start, over two connections, that ends with the password in the clear, also where TLS is required |
| `NegotiationScripts.StaleMechanism` | gloox/clientbase.cpp:447-449 | one that ends with the response to a DIGEST-MD5 challenge in the clear |
| `NegotiationLayers.ActiveIff` | gloox/client.cpp:253-285 | over every run the compression is in use exactly if a `compressed` has come since the last connection ended, and the encryption, where there is one, if a `proceed` has |
| `NegotiationLayers.LayersExact` | gloox/clientbase.cpp:846-859 | so whatever the next event sends is deflated, and sealed, exactly then |
| `NegotiationLayers.FirstHeader` | gloox/clientbase.cpp:349-394 | a connection that comes up gets its header in the clear exactly if no layer is left over, and none is if layers are switched on over a connection only |
| `NegotiationLayers.LateCompression` | gloox/client.cpp:280-285 | a run in which the compression is switched on behind the end of a connection, and the next one opens with a deflated header |
| `NegotiationSends.SentIff` | gloox/client.cpp:148-575 | every element that a connected client sends, every end of its connection and every report that it is connected, with the exact event and condition that causes it, both directions |
| `ClientStream.Client.Send` | gloox/clientbase.cpp:846-859 | through the compression, then the encryption, as far as they are active |
| `ClientStream.Client.HandleCompressedData` | gloox/clientbase.cpp:286-294 | compressed data is sealed exactly if the encryption is active |
| `ClientStream.Client.SendTracked` | gloox/clientbase.cpp:773-790 | the request is tracked and sent |
| `ClientStream.Client.Disconnect` | gloox/client.cpp:589-595 | flags, features and connection are reset after the end tag, which a failed handshake leaves out |
| `ClientStream.Client.HandleDisconnect` | gloox/clientbase.cpp:354-369 | flags and features are reset |
| `ClientStream.Client.Login` | gloox/client.cpp:382-407 | the first mechanism that both sides know, then the old login; nothing changes where it returns false |
| `ClientStream.Client.HandleFeatures` | gloox/client.cpp:150-246 | the branches on stream features, in their order |
| `ClientStream.Client.Authenticate` | gloox/client.cpp:175-223 | the branches under SASL, in their order |
| `ClientStream.Client.ProcessResourceBind` | gloox/client.cpp:450-482 | a bound resource leads to a session or to the end |
| `ClientStream.Client.ProcessLogin` | gloox/nonsaslauth.cpp:116-172 | the two answers of the old login |
| `ClientStream.Client.HandleEvent` | gloox/client.cpp:148-303 | every event does what a step is specified to do and is recorded in the run that led here |
| `ClientStream.Client.Serve` | gloox/client.cpp:148-303 | any sequence of events keeps the object in the state of its run; where TLS is required, its wire has logins sealed, and passwords and hashes exactly if none was asked for while connected without encryption |
| `IqDispatch.OneReply` | gloox/clientbase.cpp:1386-1430 | with handlers that return true exactly when they replied once, a get or set is answered once and a result or error not at all |
| `IqDispatch.OneReplyIff` | gloox/clientbase.cpp:1397-1430 | with one candidate, exactly if that handler is such a one |
| `IqAsked.DispatchIs` | gloox/clientbase.cpp:1386-1430 | a request is refused as unavailable exactly if no handler registered under one of its extensions takes it; the first that does, by extension and then by registration, is the last that is asked, and the replies are its own and those of all before it |
| `IqDispatch.UnregisterRemoves` | gloox/clientbase.cpp:1165-1181 | a removed handler is gone and no other is added |
| `IqAsked.RegisterAdds` | gloox/clientbase.cpp:1148-1163 | a registration goes behind the others unless it is there |
| `IqDispatch.AtMostOneCall` | gloox/clientbase.cpp:1369-1384 | over every run, no more answers under an id reach handlers than tracked requests went out under it, whatever handlers do while they are called |
| `IqDispatch.RemovedIsNeverCalled` | gloox/clientbase.cpp:1133-1146 | after `removeIDHandler`, over every run in which the handler sends nothing, no answer reaches it |
| `IqDispatch.NeverAfterRemoval` | gloox/clientbase.cpp:1133-1146 | likewise over every run from a state that tracks no request of the handler |
| `IqDispatch.FirstAnswerIsDelivered` | gloox/clientbase.cpp:773-790 | the first answer after a tracked request goes to its handler with its context, whatever happens to other requests in between |
| `IqDispatcher.ClientBase.SendTracked` | gloox/clientbase.cpp:773-790 | the entry of the id is replaced |
| `IqDispatcher.ClientBase.RemoveIdHandler` | gloox/clientbase.cpp:1133-1146 | the loop removes exactly the entries of the handler |
| `IqDispatcher.ClientBase.RegisterIqHandler` | gloox/clientbase.cpp:1148-1163 | the handler is added unless it is there, so that none is there twice |
| `IqDispatcher.ClientBase.RemoveIqHandler` | gloox/clientbase.cpp:1165-1181 | the loop removes exactly that registration |
| `IqDispatcher.ClientBase.NotifyIqHandlers` | gloox/clientbase.cpp:1369-1431 | answers go to tracked handlers, everything else is dispatched |
| `IqDispatcher.ClientBase.AskAll` | gloox/clientbase.cpp:1386-1430 | the nested loops ask exactly those handlers, in that order, up to the first that returns true |
| `IqDispatcher.ClientBase.Ask` | gloox/clientbase.cpp:1386-1430 | so a request is refused as unavailable exactly if nobody takes it, and the replies are those of the first that does and of all in front of it |
| `IqDispatcher.RefusedBlockAnsweredTwice` | gloox/inbandbytestream.cpp:188-200 | a bytestream as the only candidate is answered once, except for a block that it refuses while open, which is answered twice |
| `Socks5.PacketSizes` | gloox/connectionsocks5proxy.cpp:207-315 | packets are as long as their buffers, and an address packet is at most as long, for every text |
| `Socks5.CredentialsIff` | gloox/connectionsocks5proxy.cpp:207-216 | a reader by section 2 of RFC 1929 recovers user and password exactly if both are below 256 bytes and hold no text after a zero |
| `Socks5.NameRequestIff` | gloox/connectionsocks5proxy.cpp:297-316 | a reader by section 4 of RFC 1928 recovers host and port exactly if the host is below 256 bytes, holds no text after a zero, and the port bytes are in order |
| `Socks5.PortRead` | gloox/connectionsocks5proxy.cpp:309-315 | on a big-endian host the server reads the port with its bytes swapped |
| `Socks5.DottedQuad` | gloox/connectionsocks5proxy.cpp:278-296 | any four bytes, printed as a dotted quad, are the octets of the request |
| `Socks5.AddressRequestIff` | gloox/connectionsocks5proxy.cpp:268-316 | a reader by section 4 of RFC 1928 recovers them and the port exactly if the port bytes are in order |
| `Socks5Handshake.ExchangeIff` | gloox/connectionsocks5proxy.cpp:175-365 | with a server that keeps to the standards the client gets connected exactly if the server takes what it has, and is told so once; otherwise it is told one error |
| `Socks5Handshake.ConnectsByName` | gloox/connectionsocks5proxy.cpp:175-365 | user, password, host and port within the limits arrive at the server |
| `Socks5Runs.BeginIs` | gloox/connectionsocks5proxy.cpp:330-365 | the greeting, byte by byte: two methods exactly if there are a user and a password |
| `Socks5Runs.NotTaken` | gloox/connectionsocks5proxy.cpp:218-230 | a packet that the connection does not take ends it, with one error more and nothing else changed |
| `Socks5Runs.MethodIff` | gloox/connectionsocks5proxy.cpp:194-231 | for every answer to the greeting: what is sent, the next phase, and which error |
| `Socks5Runs.LoginIff` | gloox/connectionsocks5proxy.cpp:247-252 | the answer to the login is taken exactly if it is the two bytes 1 and 0 |
| `Socks5Runs.GrantIff` | gloox/connectionsocks5proxy.cpp:232-246 | the answer to the request connects exactly if it has six bytes and begins with 5 and 0 |
| `Socks5Runs.RunKept` | gloox/connectionsocks5proxy.cpp:175-365 | whatever the server sends, greeting, login and request go out at most once and in this order, the handler is told once that it is connected, and nothing is passed on before |
| `Socks5Runs.PassedOn` | gloox/connectionsocks5proxy.cpp:175-266 | once connected, everything behind the granting answer is passed on, in order |
| `Socks5Proxy.StringCopy` | gloox/connectionsocks5proxy.cpp:211 | the copy writes inside the buffer, the text up to its first zero and then zeros |
| `Socks5Proxy.ConnectionSOCKS5Proxy.CredentialsPacket` | gloox/connectionsocks5proxy.cpp:207-217 | every write is inside the buffer, which ends up full |
| `Socks5Proxy.ConnectionSOCKS5Proxy.RequestPacket` | gloox/connectionsocks5proxy.cpp:268-322 | likewise; an address may leave the end unused |
| `Socks5Proxy.ConnectionSOCKS5Proxy.Address` | gloox/connectionsocks5proxy.cpp:278-296 | the loop writes one octet a piece, four at most |
| `Socks5Proxy.ConnectionSOCKS5Proxy.HandleConnect` | gloox/connectionsocks5proxy.cpp:330-365 | sends the greeting, with two methods exactly if there is a login |
| `Socks5Proxy.ConnectionSOCKS5Proxy.HandleReceivedData` | gloox/connectionsocks5proxy.cpp:175-266 | the specified transition for every state and every answer, malformed ones included |

## Left out

- Md5.MD5.Feed: requires that the buffered bytes and the new ones are together an `int`, because the source adds them as `int` and the sum would overflow; so does every piece of `Md5.DigestOfChunks`.
- ConnectionBosh.ConnectionBOSH.PutConnection: requires an active connection, since the source reads the front of the list without looking; `ConnectionBosh.ConnectionBOSH.HandleReceivedData` therefore requires one for each response that it feeds.
- The session tag that a fed body leads to arrives inside the parser's `feed` in the source and as an event of its own, after the data, here.
- Bosh requests are records of kind, id and payload; how they are written as HTTP and XML, and the optional host, path, wait and hold values, is not modelled.
- A repeated pass of the HTTP loop that erases nothing is reported as divergence and not run; an exception of `substr` is reported as such.
- Request ids are unbounded integers; the library prints them through `int`.
- `atol` saturates at the limits of a 64-bit `long`, as the GNU C library does.
- The starting request id, stanza ids, addresses of objects and clocks are inputs.
- InBandBytestreams.InBandBytestream.Send: requires a positive block size; with zero the loop of the source does not end.
- The calls to a bytestream's handler when it opens and closes.
- In-band data in `Message` stanzas, which checks sequence numbers differently.
- The addressing of in-band IQs, and streams without a client.
- The Stringprep profiles are parameters that may fail; idempotence is assumed where a lemma says so.
- JidObject.JID.SetJID: requires a text shorter than the largest `size_type`, which every `std::string` is.
- Jid.Reparse: one direction only, since a profile may map a wrong part to the right one by accident; `Jid.SplitPrintIff` has both.
- Discovery.Announce: requires that the application registers no handler of its own at the announced node.
- The disco#items branch, software versions and the tracking of disco requests.
- SHA-1 and the digest's Base64 form are one uninterpreted function of the capability string.
- Tags are trees of name, attributes, text and children; prefixes, the order of text among children, and printing and parsing of XML text are not modelled.
- DataFormObjects.DataForm holds its fields as values; that the source shares field objects between lists is not captured.
- The encryption and the compression hand on what they are given; handshakes and their records are not modelled.
- The Windows mechanisms GSSAPI and NTLM.
- What applications do in callbacks, such as logging in by themselves or reconnecting.
- IqDispatcher.ClientBase.NotifyIqHandlers: handlers do not remove their own entry or registration while they are called, which the source does not survive; deletion of handlers is not modelled.
- Roster, presence, messages, MUC, ad-hoc commands and the attribute wrappers, which would add only easy members.
- Sockets, DNS, TLS and zlib internals, mutexes, logging and statistics.
- Socks5Proxy.ConnectionSOCKS5Proxy.HandleReceivedData: reads a zero behind the end of the data, which the source may do for one byte and not for an empty string; the port is the resolved one.
