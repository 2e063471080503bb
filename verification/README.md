# SeeHandshake in Dafny

A verified model of the path from a TCP segment to what the user sees in SeeHandshake, a passive TLS
observer: record framing and reassembly, the per-connection handshake tracker, the byte-level decoders of
hello messages and their extensions, the cursor machine of the user interface, two layout algorithms, and
the attribution of flows to local processes.

The proofs are of four kinds.

* Byte formats. `Items` proves once, for any self-delimiting item, that reading a list is the exact inverse of
  writing it. `Framing`, `Extensions` and `Hello` instantiate it; `ExtensionLaws`, `ExtensionTypes` and
  `HelloLaws` say, in both directions, which octets each decoder accepts, and `HelloErrors` how a hello that is
  cut short is refused.
* Runs of one connection. `Connection` says what a record and a segment do to a connection; the class
  `TrackedConnection` does it in place. `History` shows that a run is a fold of the records it completes.
  `Timeline` says, from those records alone, what the timeline must hold; `TimelineLaws`, `LogLaws`,
  `RecordLaws`, `StageLaws`, `StageHistory` and `FieldLaws` prove it, and what stage and fields are shown, in
  every reachable state. `Streams` and `Segmentation` relate a run to the two octet streams behind it.
* Runs of many connections. `Tracker` is the table, as a class and as a function; `TrackerLaws` proves that
  connections do not disturb one another, and lifts the results above to every tracked connection.
* The user interface. `App` and the class of `AppMachine` are the cursors, `KeyLaws` the geometry of the
  keys; `Pipeline` joins tracker and interface, with the queue between them; `Layout` is the right pane;
  `Attribution` (file Origin.dfy) is the process lookup.

Every method that changes state is proved to compute a function of the old state, and the theorems are about
those functions. `hide` is used inside proofs to keep definitions folded that a step does not need.

## Where code and documentation differ

The model follows the code.

* A connection's ends are told apart by port, then by address order (src/model/connection.rs:63-87), never by
  who sends the ClientHello, as the type's comment suggests.
* When the reassembly cap would be exceeded the segment is dropped and the buffer kept
  (src/tracker/reassembly.rs:176-182); docs/architecture.md speaks of truncated buffers.
* The payload bound is 2^14 for every record type (src/parser/record.rs:56), so ciphertext records between
  2^14 and 2^14 + 256 octets, legal in section 5.2 of RFC 8446, count as oversize.
* What a buffer keeps is called an incomplete final record (src/parser/record.rs:63-65). It may also be four
  octets whose last one exceeds 0x40, which no record starts with: the length is only checked with its second
  octet (src/parser/record.rs:76-86). `ResidualExact` gives the exact forms, `DoomedIsKept` an input.
* An oversize header discards the records found before it in the same call (src/parser/record.rs:82-86). So
  cutting a segment in two can change what is learned: `SplitKeepsRecords` gives the exact condition and
  `SplitMatters` the plainest inputs, any record followed by such a header.
* Logging stops at the second client record after the first encrypted server record, consecutive or not
  (src/tracker/reassembly.rs:246-268); docs/tls13-visibility.md speaks of two consecutive ones.
* A client key_share list with no entry, and a server entry whose group code is its key length plus two, do
  not decode to what was sent: `KeyShareClientRoundTrip` and `KeyShareServerRoundTrip` give the exact
  conditions, `KeyShareServerFormLost` an input.
* The order of the two endpoints matters to attribution when the socket table holds both orders with different
  owners: `ResolveIsUndirected` gives the exact condition, `LoopbackIsDirected` an input.
* The interface never forgets an evicted connection (src/ui/app.rs:474-491). When it sends again its short new
  log replaces the one shown: the cursor may move, or stay on another record. `UpdateMovesCursors` gives the
  exact conditions, `EvictedAndBack` and `EvictedAndReplaced` inputs, and `JumpsNeedEvictions` bounds how
  often it happens.

## Model

| member | source | states |
|---|---|---|
| `Framing.ParseRecords` | src/parser/record.rs:72-104 | the loop returns what peeling whole records off the front gives, or the length of the first oversize header |
| `Framing.ParseIsExact` | src/parser/record.rs:61-104 | a buffer parses to these records with c octets consumed iff its first c octets are their encoding and the rest is a proper prefix of one record, or four octets that no record starts with because the last exceeds 0x40 |
| `Framing.ResidualExact` | src/parser/record.rs:76-101 | the two guards of the loop leave exactly that, and the two cases exclude each other |
| `Framing.ParseFailsExactly` | src/parser/record.rs:67-86 | parsing fails with length n iff a run of whole records is followed by a header announcing n octets, n above the maximum |
| `Framing.ParseComposes` | src/parser/record.rs:63-65 | parsing a buffer in two portions gives the records and count of parsing it at once |
| `Framing.OversizeIsFinal` | src/parser/record.rs:82-86 | no later octets repair an oversize header or change the records before it |
| `Framing.OversizeShowsAtFifthOctet` | src/parser/record.rs:76-86 | a prefix of a bad stream fails iff it reaches the fifth octet of the bad header |
| `Items.ChopIsExact` | src/parser/extensions.rs:103-117 | reading a list of self-delimiting items is exact: iff the buffer is their encoding followed by octets that hold no further item |
| `Items.ChopComposes` | src/tracker/reassembly.rs:184-207 | reading the first part, then what it left with the second, is reading the whole |
| `Extensions.DecodeServerName` | src/parser/extensions.rs:95-118 | the loop returns the server names that the list holds, or nothing when one is cut short |
| `ExtensionLaws.ServerNameExact` | src/parser/extensions.rs:95-118 | decodes to these names iff their encoding fills the announced list up to two stray octets |
| `ExtensionLaws.ServerNameRoundTrip` | src/parser/extensions.rs:95-118 | every name list that can be written is read back, whatever follows it |
| `Extensions.DecodeAlpn` | src/parser/extensions.rs:144-158 | the loop returns the protocols of the list, or nothing when one is cut short |
| `ExtensionLaws.AlpnExact` | src/parser/extensions.rs:144-158 | decodes to these protocols iff the body is their encoding (section 3.1 of RFC 7301) |
| `ExtensionLaws.SupportedGroupsExact` | src/parser/extensions.rs:120-130 | decodes to these groups iff the body is their encoding |
| `ExtensionLaws.SignatureAlgorithmsExact` | src/parser/extensions.rs:132-142 | decodes to these schemes iff the body is their encoding |
| `ExtensionLaws.SupportedVersionsExact` | src/parser/extensions.rs:160-179 | decodes to these versions iff the body is their client form, or the server form of the only one |
| `ExtensionLaws.SupportedVersionsFormsDiffer` | src/parser/extensions.rs:160-179 | the client and server forms never collide |
| `ExtensionLaws.PskKeyExchangeModesExact` | src/parser/extensions.rs:181-190 | decodes to these modes iff the body is their one-octet vector |
| `ExtensionLaws.OpaqueExact` | src/parser/extensions.rs:273-282 | a cookie or opaque vector is read iff the body is a two-octet length and exactly these octets |
| `Extensions.ParseKeyShareEntries` | src/parser/extensions.rs:207-227 | the loop returns the key shares if they fill the body, else nothing |
| `Extensions.DecodeKeyShare` | src/parser/extensions.rs:192-205 | chooses the list form when the prefix counts the rest, else the bare form |
| `ExtensionLaws.KeyShareExact` | src/parser/extensions.rs:192-227 | decodes to these entries iff the body is their non-empty client list, or their concatenation and its first two octets do not count the rest |
| `ExtensionLaws.KeyShareClientRoundTrip` | src/parser/extensions.rs:192-205 | a client list comes back iff it is not empty |
| `ExtensionLaws.KeyShareServerRoundTrip` | src/parser/extensions.rs:192-205 | a server entry comes back iff its group code is not its key length plus two |
| `ExtensionLaws.KeyShareServerFormLost` | src/parser/extensions.rs:197-202 | an x25519 entry with a 27-octet key does not come back |
| `Extensions.DecodePreSharedKey` | src/parser/extensions.rs:229-271 | the loop returns the identities and the length of the binder list |
| `ExtensionLaws.PreSharedKeyExact` | src/parser/extensions.rs:229-271 | decodes to these identities and binder length iff their encoding fills the announced list up to one stray octet and the next two octets are that length |
| `ExtensionLaws.PreSharedKeyRoundTrip` | src/parser/extensions.rs:229-271 | every identity list is read back with the length of the binders after it |
| `Extensions.DecodeBody` | src/parser/extensions.rs:75-89 | each extension type goes to its decoder, unknown types to none |
| `ExtensionTypes.BodyExact` | src/parser/extensions.rs:75-89 | under each literal type code the octets yield a body iff they spell it; types 13 and 50 alike |
| `ExtensionTypes.TypedRoundTrip` | src/parser/handshake.rs:337-351 | a written extension is read back with exactly its typed body, whatever follows |
| `ExtensionTypes.OpaqueOtherwise` | src/parser/extensions.rs:75-89 | any other type, and octets that spell nothing, are kept as opaque |
| `ExtensionTypes.RegisteredGroups` | src/parser/extensions.rs:120-130 | the named groups by their registered codes, any other code kept, no two codes confused |
| `ExtensionTypes.GroupsOnTheWire` | src/parser/extensions.rs:78-79 | the same four octets are x25519 under type 10 and scheme 29 under type 13 |
| `ExtensionTypes.NameOnTheWire` | src/parser/extensions.rs:95-158 | a server name and a protocol, octet by octet |
| `ExtensionTypes.KeyShareOnTheWire` | src/parser/extensions.rs:207-227 | a key share, octet by octet |
| `ExtensionTypes.IdentityOnTheWire` | src/parser/extensions.rs:229-271 | a pre-shared key identity, octet by octet |
| `ExtensionTypes.EarlyDataOnTheWire` | src/parser/handshake.rs:337-351 | a whole extension, octet by octet |
| `Hello.Cursor.ReadU8` | src/parser/handshake.rs:301-307 | takes one octet and advances, or fails and stays |
| `Hello.Cursor.ReadU16` | src/parser/handshake.rs:309-316 | takes a big-endian pair and advances, or fails and stays |
| `Hello.Cursor.ReadBytes` | src/parser/handshake.rs:318-335 | takes n octets and advances, or fails and stays |
| `Hello.WalkExtensionBodies` | src/parser/handshake.rs:337-351 | the loop returns the whole extensions at the front, each with its decoded body |
| `HelloLaws.WalkIsLongestPrefix` | src/parser/handshake.rs:337-351 | what is walked re-encodes to a prefix of the input, and every other run of whole extensions that starts the input is a prefix of it |
| `HelloLaws.ExtensionBlockExact` | src/parser/handshake.rs:205-214 | reads as these extensions iff the block is absent and they are none, or it is a length and their encodings, then octets holding no further whole one, whatever follows |
| `HelloLaws.MessageBodyExact` | src/parser/handshake.rs:284-299 | a body is found iff the buffer starts with the four-octet header of its type and length followed by it |
| `Hello.DecodeClientHello` | src/parser/handshake.rs:173-224 | reads the fields of a ClientHello in order, with the first failure met |
| `Hello.DecodeServerHello` | src/parser/handshake.rs:237-271 | reads the fields of a ServerHello in order, with the first failure met |
| `HelloLaws.ClientHelloExact` | src/parser/handshake.rs:173-224 | decodes to m iff the buffer starts with a ClientHello message that encodes the fields of m, the last of them such an extension block (section 4.1.2 of RFC 8446) |
| `HelloLaws.ServerHelloExact` | src/parser/handshake.rs:237-271 | decodes to m iff the buffer starts with a ServerHello message that encodes the fields of m, the last of them such an extension block (section 4.1.3 of RFC 8446) |
| `HelloLaws.ClientHelloRoundTrip` | src/parser/handshake.rs:164-224 | every encodable ClientHello comes back, its extension block present, empty or absent, and is shown as one |
| `HelloLaws.ServerHelloRoundTrip` | src/tracker/reassembly.rs:380-413 | every encodable ServerHello comes back, shown as a HelloRetryRequest iff its random is the fixed one |
| `HelloLaws.RetryIsExact` | src/parser/handshake.rs:273-278 | a payload is shown as a HelloRetryRequest iff it carries a ServerHello with the fixed random |
| `HelloLaws.HelloRetryConstant` | src/parser/handshake.rs:273-278 | the fixed random, word by word |
| `HelloLaws.UnknownIsExact` | src/tracker/reassembly.rs:380-413 | a payload is shown as unknown iff it carries neither hello, with its first octet, or 0, and all its octets |
| `HelloLaws.HeaderErrors` | src/parser/handshake.rs:284-299 | which of the three header errors is returned, exactly |
| `HelloErrors.ClientCut` | src/parser/handshake.rs:173-224 | a ClientHello body cut anywhere before its extensions gives the size of the field that is not all there |
| `HelloErrors.ServerCut` | src/parser/handshake.rs:237-271 | the same of a ServerHello body |
| `HelloErrors.OddSuitesRefused` | src/parser/handshake.rs:186-190 | a cipher suite list of odd length is refused before it is read |
| `HelloErrors.BlockCut` | src/parser/handshake.rs:205-214 | an extension block fails exactly when it is one octet or shorter than it announces, with the missing size |
| `HelloLaws.TruncatedMessageRejected` | src/parser/handshake.rs:284-299 | no proper prefix of a message is accepted |
| `HelloLaws.KeyShareReadersAgree` | src/parser/handshake.rs:415-432 | whenever the full decoder yields entries, the compact reader returns the group of the first |
| `HelloLaws.FirstGroupOfClientList` | src/parser/handshake.rs:415-432 | the compact reader finds the first group of every client list |
| `HelloLaws.CompactReader` | src/parser/handshake.rs:415-432 | nothing below four octets, else the group named by the first two of the list, or of the body in bare form |
| `Model.CanonicalIsUndirected` | src/model/connection.rs:54-87 | both orientations of a flow get the same key, and opposite directions iff its ends differ |
| `Model.WellKnownPortIsServer` | src/model/connection.rs:63-87 | the end on port 443 or 8443 is the server if only one is, else the lesser address, then port, is the client |
| `TrackedConnections.TrackedConnection.MergeClientHello` | src/tracker/reassembly.rs:557-573 | merges a client summary: fields present replace, the version only fills a gap |
| `TrackedConnections.TrackedConnection.MergeServerHello` | src/tracker/reassembly.rs:575-589 | merges a server summary: fields present replace |
| `TrackedConnections.TrackedConnection.ApplyHandshakeRecord` | src/tracker/reassembly.rs:504-555 | applies the messages of a payload in order up to the first that does not parse |
| `TrackedConnections.TrackedConnection.ApplyCcs` | src/tracker/reassembly.rs:591-608 | a ChangeCipherSpec moves the stage only from the one that expects it |
| `TrackedConnections.TrackedConnection.ApplyEncryptedRecord` | src/tracker/reassembly.rs:610-662 | counters, finished marker, stage and certificate fields after an encrypted record |
| `TrackedConnections.TrackedConnection.PushRecordEvent` | src/tracker/reassembly.rs:308-332 | appends one numbered entry with raw octets and body unless logging stopped or the log is full |
| `TrackedConnections.TrackedConnection.ProcessHandshake` | src/tracker/reassembly.rs:211-245 | a handshake record: plaintext messages, or after ChangeCipherSpec the post-CCS count and the stop |
| `TrackedConnections.TrackedConnection.ProcessApplicationData` | src/tracker/reassembly.rs:246-268 | an application record: counters, the two stop conditions, then the log |
| `TrackedConnections.TrackedConnection.ProcessCcs` | src/tracker/reassembly.rs:270-276 | a ChangeCipherSpec record: stage, flag, log |
| `TrackedConnections.TrackedConnection.ProcessRecords` | src/tracker/reassembly.rs:209-279 | the record loop folds the records in order |
| `TrackedConnections.TrackedConnection.Ingest` | src/tracker/reassembly.rs:169-281 | one segment: time, cap branch, framing, failure branch, drained buffer, records, snapshot |
| `History.RunCore` | src/tracker/reassembly.rs:127-282 | after any run, failures included, all but buffers, stage, error and last time is the fold of the completed records |
| `TimelineLaws.TimelineOfRun` | src/tracker/reassembly.rs:209-279 | in every reachable state the counters, flags, version, stop flag and the whole timeline are the functions of the completed records given in module Timeline, labels by place in the flight |
| `RecordLaws.RecordActs` | src/tracker/reassembly.rs:610-662 | an application record up to TLS 1.2 counts nothing and is plain; from TLS 1.3, or without a version, it moves counters, stage, certificate fields and label by its place in the flight |
| `RecordLaws.RecordActsInRun` | src/tracker/reassembly.rs:246-268 | that in every reachable state, by the version the plaintext messages settled |
| `RecordLaws.MessagesAreAll` | src/tracker/reassembly.rs:504-555 | the messages applied are all the parser yields until it ends or fails |
| `RecordLaws.MessagesAreLongest` | src/tracker/reassembly.rs:504-555 | the parser yields no other messages and no longer run of them |
| `StageHistory.StageOfEveryRun` | src/tracker/reassembly.rs:504-662 | in every reachable state, after failures too, the stage is that of the last message, ChangeCipherSpec, application record or failure to set one |
| `StageHistory.ServerFlight12` | src/tracker/reassembly.rs:524-546 | ServerHello, Certificate, ServerKeyExchange and ServerHelloDone of TLS 1.2 lead through their four stages |
| `StageHistory.Handshake12` | src/tracker/reassembly.rs:591-608 | the rest of that handshake leads through ClientKeyExchange and ClientFinished to ServerFinished |
| `TimelineLaws.LastServer` | src/tracker/reassembly.rs:575-579 | the version that counts first is of a ServerHello after which none names one |
| `TimelineLaws.FirstClient` | src/tracker/reassembly.rs:570-572 | the one that fills in is of a ClientHello before which none offers one |
| `TimelineLaws.VersionIsSettled` | src/tracker/reassembly.rs:557-589 | the former goes before the latter |
| `LogLaws.LogIsPrefix` | src/tracker/reassembly.rs:308-332 | the timeline shows, in order and numbered from 1, the first records of types 20, 22 and 23; one is missing only if logging is over or the log full |
| `LogLaws.GapIsFinal` | src/tracker/reassembly.rs:314-319 | once such a record is left out nothing is ever appended again |
| `LogLaws.GapInRunIsFinal` | src/tracker/reassembly.rs:314-319 | the same of runs: once a run has left such a record out, no later segment changes the timeline |
| `LogLaws.LogGrows` | src/tracker/reassembly.rs:314-332 | the timeline only grows at its end |
| `LogLaws.NeverApplicationData` | src/tracker/reassembly.rs:254-260 | no timeline contains the label "encrypted application data" |
| `LogLaws.EarlyDataPrecedes` | src/tracker/reassembly.rs:446-453 | every early-data entry precedes every TLS 1.3 server-flight entry |
| `LogLaws.AfterBothCcs` | src/tracker/reassembly.rs:239-267 | after both ChangeCipherSpecs at most one more record of another type is logged, a handshake record |
| `LogLaws.AfterBothCcsInRun` | src/tracker/reassembly.rs:239-267 | the same of runs: once both sides have sent a ChangeCipherSpec, later segments add at most one entry of another type, a handshake record, and none once logging is over |
| `LogLaws.CountersBounded` | src/tracker/reassembly.rs:230-238 | the counters together never exceed the number of completed records |
| `FieldLaws.FieldsOfRun` | src/tracker/reassembly.rs:557-589 | each field shown is that of the last plaintext message of the right kind and direction that carries it |
| `FieldLaws.LastCarrier` | src/tracker/reassembly.rs:557-589 | that is the value of a message after which none carries one, and none if no message does |
| `StageLaws.StageFollowsDirections` | src/tracker/reassembly.rs:610-662 | over encrypted records of a connection not older than TLS 1.3 the stage is a closed function of their directions |
| `StageLaws.FirstServerIsFirst` | src/tracker/reassembly.rs:644-661 | the place from which client records count as answers is that of the first server record |
| `Segmentation.StageOfRun` | src/tracker/reassembly.rs:610-662 | the same of runs of segments without a failure that complete only encrypted records |
| `StageLaws.StageNeverGoesBack` | src/tracker/reassembly.rs:631-661 | from the first server record the stage only advances through Certificate, ServerFinished, ClientFinished, ApplicationData, where it ends |
| `StageLaws.MarkersOfRun` | src/tracker/reassembly.rs:633-661 | finished marker iff a client record was counted, which needs a server record; certificate fields set iff a server record was counted |
| `StageLaws.RunEvolves` | src/tracker/reassembly.rs:165-194 | no populated field becomes empty, the origin never changes, an errored stage has its error recorded |
| `Segmentation.ErrorIffFailure` | src/tracker/reassembly.rs:176-195 | a reachable connection shows an error iff some segment of its run failed |
| `StageLaws.ErrorOfRun` | src/tracker/reassembly.rs:176-195 | the error shown is that of the last segment that failed, and right after such a segment the stage is errored |
| `Streams.BuffersOfRun` | src/tracker/reassembly.rs:176-207 | after every segment each buffer is a proper prefix of one record or such a doomed header, at most 16,388 octets |
| `Streams.DoomedIsKept` | src/parser/record.rs:76-86 | a doomed header is a reachable buffer that no record starts with; any later segment of its direction fails |
| `Streams.CapUnreachable` | src/tracker/reassembly.rs:176-182 | the cap branch is never taken for segments of up to 114,684 octets |
| `Streams.RunFramesStream` | src/tracker/reassembly.rs:184-207 | while no segment of a direction fails, its completed records and its buffer are the one-shot framing of its octets, whatever the other direction does |
| `Streams.RunFramesLive` | src/tracker/reassembly.rs:176-207 | over any run, failures included: the buffer of a direction is what framing leaves of the octets that count, and its completed records are what each segment adds to that framing |
| `Streams.CleanInExactly` | src/tracker/reassembly.rs:186-195 | however the octets are cut, a segment of a direction fails iff framing the whole stream of that direction does |
| `Streams.CleanExactly` | src/tracker/reassembly.rs:186-195 | however the octets are cut, a run fails iff framing one of its two streams fails |
| `Streams.FailureIsPrompt` | src/tracker/reassembly.rs:186-195 | in every run the first segments hold no failure of a direction exactly until the fifth octet of its first bad header arrives |
| `Streams.RunConservesOctets` | src/tracker/reassembly.rs:184-207 | while no segment of a direction fails, its encoded records followed by its buffer are the octets that arrived in it |
| `Streams.TimelineConservesOctets` | src/tracker/reassembly.rs:315-332 | while no record of a direction is left out and no segment of it fails, the raw octets of its entries followed by its buffer are all its octets |
| `Streams.RawReparses` | src/tracker/reassembly.rs:322-328 | the raw octets of every entry parse back to exactly its record |
| `Streams.TypesOnTheWire` | src/parser/record.rs:31-40 | the octets 20 to 23 are ChangeCipherSpec, Alert, Handshake and ApplicationData, and every bounded record comes back |
| `Streams.HelloDoneOnTheWire` | src/parser/record.rs:72-104 | the nine octets of a ServerHelloDone in a TLS 1.2 record |
| `Segmentation.SplitSegment` | src/tracker/reassembly.rs:171-281 | two consecutive pieces at one time leave the very state of the joined segment, unless that fails |
| `Segmentation.SplitKeepsRecords` | src/parser/record.rs:82-86 | below the cap, cutting a segment completes the same records iff no oversize header is in it or nothing is lost either way |
| `Segmentation.SplitMatters` | src/tracker/reassembly.rs:186-194 | a record and a bad header: joined the record is lost, cut between them it is completed |
| `Segmentation.SegmentationIndependence` | src/tracker/reassembly.rs:127-282 | two runs without a failure over the same streams, with the same order of completion, end in the same state, but for times |
| `Segmentation.StreamsDecide` | src/tracker/reassembly.rs:171-281 | for segments too short to fill a buffer the same follows from the streams alone: neither has an oversize header |
| `Tracker.ConnectionTracker.constructor` | src/tracker/reassembly.rs:92-97 | a new tracker is empty |
| `Tracker.ConnectionTracker.Ingest` | src/tracker/reassembly.rs:127-282 | only the connection of the key changes, created with its origin if new; the snapshot is returned unless the payload is empty |
| `Tracker.ConnectionTracker.EvictStale` | src/tracker/reassembly.rs:293-299 | keeps the connections seen at the cutoff or later and returns how many were removed |
| `TrackerLaws.EvictionIsExact` | src/tracker/reassembly.rs:293-299 | removes exactly the connections with last_seen + timeout below now over the naturals, and the sizes account for all |
| `TrackerLaws.Isolation` | src/tracker/reassembly.rs:140-174 | the state of a key after any run is that of the run restricted to it |
| `TrackerLaws.EveryConnectionIsARun` | src/tracker/reassembly.rs:140-167 | every tracked connection is the run of its own segments since its creation, before which the key was missing and since when it has been there |
| `TrackerLaws.EveryConnection` | src/tracker/reassembly.rs:140-281 | key, markers, buffers and error of every connection in every reachable table, and origin and times as settled by the operation that created it and those since |
| `TrackerLaws.EveryTimeline` | src/tracker/reassembly.rs:308-332 | every timeline in every reachable table is numbered, capped, free of application data and ordered |
| `AppMachine.App.ToggleMiddleMode` | src/ui/app.rs:121-132 | flips the mode and, for the flow view, parks the cursor |
| `App.FlowStartsAtClientHello` | src/ui/app.rs:114-148 | the flow view starts at the first ClientHello, or moves nothing if there is none |
| `KeyLaws.DownMoves` | src/ui/app.rs:231-289 | down moves the cursor of the focused pane one place on and resets those to its right, or does nothing at the end |
| `KeyLaws.UpMoves` | src/ui/app.rs:222-275 | up moves it one place back and resets those to its right, or does nothing at the start |
| `KeyLaws.UpAfterDown` | src/ui/app.rs:222-289 | up undoes down but for the reset |
| `KeyLaws.DownAfterUp` | src/ui/app.rs:222-289 | down undoes up but for the reset |
| `KeyLaws.FocusComesBack` | src/ui/app.rs:186-220 | left undoes right, right undoes left, and three tabs come round |
| `KeyLaws.WalkKeepsCursors` | src/ui/app.rs:186-220 | with a record selected, or none to select, walking the panes moves no cursor |
| `KeyLaws.FlowFlips` | src/ui/app.rs:121-132 | the flow key flips the mode and moves the row only on the way in, if there is a ClientHello |
| `KeyLaws.SwitchesFlip` | src/ui/app.rs:150-158 | the switches flip, flip back, and touch nothing else |
| `KeyLaws.ClearForgets` | src/ui/app.rs:164-171 | clearing leaves a new state but for mode, switches, ticks and the count of evictions |
| `KeyLaws.TickCounts` | src/ui/app.rs:448-452 | a tick counts one, modulo the width of the counter |
| `App.SelectionShows` | src/ui/app.rs:410-446 | which record the cursors show: row 0 none, row i the i-th of the selected connection |
| `AppMachine.App.FocusRight` | src/ui/app.rs:198-207 | focus moves right and past the metadata row |
| `AppMachine.App.SelectPrev` | src/ui/app.rs:222-275 | moves the cursor of the focused pane up, clamped |
| `AppMachine.App.SelectNext` | src/ui/app.rs:231-289 | moves the cursor of the focused pane down, clamped |
| `AppMachine.App.HandshakeUpdated` | src/ui/app.rs:461-473 | stores the snapshot, appends new keys, clamps if selected |
| `AppMachine.App.StaleEvicted` | src/ui/app.rs:474-491 | counts, drops unknown keys, follows the selected key |
| `App.EvictionOnlyCounts` | src/ui/app.rs:474-491 | under the invariant an eviction notice changes the counter and nothing else |
| `AppMachine.App.ClampIndices` | src/ui/app.rs:495-506 | brings row and section index into range |
| `AppMachine.App.React` | src/ui/mod.rs:182-213 | every key, event and tick computes the reaction |
| `AppMachine.App.RunLoop` | src/ui/mod.rs:158-213 | the event loop folds its inputs |
| `App.ReactKeepsInvariant` | src/ui/app.rs:121-506 | every input keeps the order distinct, its keys those of the map, and all four cursors in range |
| `App.InvariantOfRun` | src/ui/app.rs:66-506 | that invariant after every sequence of inputs |
| `App.UpdateMovesCursors` | src/ui/app.rs:461-506 | an update leaves the selected connection; it moves row or section iff it is of that connection and lacks them, and replaces the selected record iff it is of that connection and another one is under the cursor |
| `App.UpdateShowsSection` | src/ui/app.rs:495-506 | after an update of the selected connection the section is the same, or the last one there is |
| `App.GrowthKeepsCursors` | src/ui/app.rs:461-473 | an update that extends the records leaves the selected connection, record and section as they are |
| `Pipeline.SegmentGrowsTimeline` | src/tracker/reassembly.rs:330-332 | no segment removes or changes an entry |
| `Pipeline.RunCatchesUp` | src/ui/mod.rs:107-162 | over every interleaving of traffic, deliveries from the queue and keys: cursors in range; the shown and queued snapshots of a connection end in the tracker's state and extend one another, the exceptions, with the disturbed selections they caused, being no more than its evictions |
| `Pipeline.DrainedIsCurrent` | src/ui/mod.rs:159-162 | with the queue drained every live connection is shown in its current state, unless the user cleared the list; what is shown of one is current even then |
| `Pipeline.EvictionsAreCounted` | src/ui/app.rs:474-491 | the counter with what is announced in the queue is every connection ever evicted, up to saturation |
| `Pipeline.DeliveryMovesCursors` | src/ui/app.rs:461-506 | in every reachable state: a delivered snapshot leaves the selected connection, moves row or section iff it is of that connection and lacks them, and replaces the selected record iff another one is under the cursor |
| `Pipeline.JumpsNeedEvictions` | src/ui/app.rs:461-506 | snapshots of a connection move a cursor or replace the selected record at most once per eviction of it |
| `Pipeline.EvictedAndBack` | src/ui/app.rs:474-506 | that bound is met: a connection shown with a record, evicted and begun anew moves the row |
| `Pipeline.EvictedAndReplaced` | src/ui/app.rs:461-506 | and met in place: when the new connection brings another record, the row stays, and the octets of the record under the cursor are those of the new one |
| `Pipeline.UnevictedKeepsCursors` | src/ui/app.rs:461-473 | in every reachable state a snapshot of a connection never evicted moves no cursor and keeps the selected record |
| `Layout.RowEnd` | src/ui/panels/right.rs:221-233 | a row ends after the last space that leaves content, else where it is full, else with the line |
| `Layout.RowSpans` | src/ui/panels/right.rs:235-251 | coalescing keeps every character and style; the spans added hold text, and neighbours differ in style |
| `Layout.WrapLine` | src/ui/panels/right.rs:177-257 | appends the line itself if it fits, else rows cut at good places with the hanging indent; the room is never zero |
| `Layout.WrapIsUnique` | src/ui/panels/right.rs:177-257 | that determines the rows, but for how their cells are split into spans |
| `Layout.WrapOfUnitWidth` | src/ui/panels/right.rs:177-186 | where each character takes one column a line is left alone iff it has no more than fit, and no row has more |
| `Layout.WidthAddsUp` | src/ui/panels/right.rs:177-182 | the width of a line is the sum of those of its characters |
| `Layout.ContinuationsAreIndented` | src/ui/panels/right.rs:188-209 | continuation rows start with as many spaces as the line, leaving a column at least, and go on with the line |
| `Layout.WrapIsLossless` | src/ui/panels/right.rs:175-257 | dropping the indents and joining gives the line back with its styles, and no wrapped row exceeds the width |
| `Layout.WrapAll` | src/ui/panels/right.rs:104-108 | the rows of a section are those of its lines, each wrapped, in order |
| `Layout.SectionsView` | src/ui/panels/right.rs:78-117 | section spans are non-empty, start at row 0 and lie two rows apart, with separator and blank rows in place, and each holds the wrapped rows of its section |
| `Layout.SeparatorFills` | src/ui/panels/right.rs:119-126 | a separator is a rule of the width of the pane, one column at least |
| `Layout.SelectionVisible` | src/ui/panels/right.rs:128-164 | the offset never passes the last row, shows all of a section that fits (and the top of the next when there is room), and else puts its first row on top |
| `Layout.ScrollIsLeast` | src/ui/panels/right.rs:131-164 | of the offsets that show a fitting section, and three rows beyond it when there is room, the least is taken |
| `Layout.NothingScrolls` | src/ui/panels/right.rs:131-164 | without a selected section, or without room, the pane is not scrolled |
| `Attribution.ReadProcs` | src/origin/linux.rs:214-268 | the scan with early exit finds for each wanted inode the first process that holds it, and misses none |
| `Attribution.ScanDescriptors` | src/origin/linux.rs:239-265 | one process takes the wanted inodes among its descriptors |
| `Attribution.OwnersAreUnique` | src/origin/linux.rs:214-268 | the full scan has one result, so early exit gives the same map |
| `Attribution.ResolveIsUndirected` | src/origin/linux.rs:101-120 | the order of endpoints matters iff the table holds both orders and their sockets belong to different processes, to a process and none, or to different users |
| `Attribution.UnlistedIsUnknown` | src/origin/linux.rs:101-120 | the origin is unknown iff the flow is listed in neither order |
| `Attribution.LoopbackIsDirected` | src/origin/linux.rs:101-120 | a loopback flow between two processes, listed once for each end, is attributed by the order of the endpoints |
| `Attribution.ResolveFindsFirstOwner` | src/origin/linux.rs:101-120 | a flow listed in either order is attributed to the first process holding its socket, or to the recorded user if none does |

## Left out

- u32 counters: `encrypted_records_*` and `post_ccs_records_*` are naturals; `LogLaws.CountersBounded` bounds them by the number of records, so the code agrees below 2^32 records per connection. The sequence number saturates as in the code, out of reach of the cap of 64.
- Handshake message parsing by the tls_parser crate, and the extraction of hello summaries from its types: the parser is any function that consumes something, the summaries are given values.
- The resolver inside the tracker is a function of the two endpoints: the cache with its time-to-live, reading of /proc and parsing of its text are not modelled.
- Error messages are modelled by their cause and length, not their wording.
- Names: extension names, cipher suite names, label wording and other display strings; labels are constructors and cipher suites their codes.
- Display columns: the width of a line is the sum of a given width per character; sequences the terminal joins are not modelled.
- Sections of a record are an abstract count; their text, colours and the metadata, flow and diagram panels are not modelled.
- The channel between tracker and interface is a queue that never closes: what happens to either thread when the other is gone is not modelled. Notices are taken in one at a time at any moment, of which the drain loop is one schedule.
- Packet capture, frame slicing, interfaces, threads, terminal, command line and logging.
- ScrollOffset: sums of two u32 row numbers are not wrapped; `SelectionVisible` is stated below 65,536 rows, where none can.
- `selected_record_stage` and the read-only getters of the user interface.
