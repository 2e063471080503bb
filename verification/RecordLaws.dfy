/**
 What one application record does to a connection, by its protocol version: nothing is counted before
 TLS 1.3, and from TLS 1.3 on the record counts as part of an encrypted flight.
 */
module RecordLaws {
  import opened Wire
  import opened Framing
  import opened Model
  import opened Connection
  import opened History
  import opened Timeline
  import opened TimelineLaws

  /** At most one entry is added to the log, and it has this body. */
  ghost predicate AddsOnly(before: seq<RecordEvent>, after: seq<RecordEvent>, body: RecordBody) {
    after == before || (before < after && |after| == |before| + 1 && after[|before|].body == body)
  }

  /** Real application data: the stage says so and nothing is counted. */
  ghost predicate AsApplicationData(c: Tracked, s: Step, after: Tracked) {
    && after.encryptedFromServer == c.encryptedFromServer && after.encryptedFromClient == c.encryptedFromClient
    && after.sawClientFinished == c.sawClientFinished
    && after.state.handshake == c.state.handshake.(stage := ApplicationDataFlowing)
    && AddsOnly(c.state.records, after.state.records, EncryptedRecord(PlainApplicationData, Head(s.record.payload)))
  }

  /** A record of the server's encrypted flight. */
  ghost predicate AsServerFlight(c: Tracked, s: Step, after: Tracked) {
    var (n, hs) := (c.encryptedFromServer + 1, c.state.handshake);
    var stage := if c.sawClientFinished then ApplicationDataFlowing else if n <= 3 then Certificate else ServerFinished;
    var subject := if hs.certificateSubject.None? then Some("encrypted (TLS 1.3)") else hs.certificateSubject;
    var issuer := if hs.certificateSubject.None? then Some("encrypted (TLS 1.3)") else hs.certificateIssuer;
    && after.encryptedFromServer == n && after.encryptedFromClient == c.encryptedFromClient
    && after.sawClientFinished == c.sawClientFinished
    && after.state.handshake == hs.(stage := stage, certificateSubject := subject, certificateIssuer := issuer)
    && AddsOnly(c.state.records, after.state.records,
                EncryptedRecord(FlightLabel(ServerToClient, n, c.encryptedFromClient, |s.record.payload|),
                                Head(s.record.payload)))
  }

  /** A record of the client: early data before the server's flight, an answer after it. */
  ghost predicate AsClientFlight(c: Tracked, s: Step, after: Tracked) {
    var (servers, hs) := (c.encryptedFromServer, c.state.handshake);
    var n := c.encryptedFromClient + if servers > 0 then 1 else 0;
    var stage := if servers == 0 then hs.stage
                 else if c.sawClientFinished then ApplicationDataFlowing else ClientFinished;
    && after.encryptedFromServer == servers && after.encryptedFromClient == n
    && after.sawClientFinished == (c.sawClientFinished || servers > 0)
    && after.state.handshake == hs.(stage := stage)
    && AddsOnly(c.state.records, after.state.records,
                EncryptedRecord(FlightLabel(ClientToServer, servers, n, |s.record.payload|), Head(s.record.payload)))
  }

  /** The versions are written out; an absent version and an unknown code count as TLS 1.3. */
  ghost predicate ActsByVersion(version: Option<TlsVersion>, c: Tracked, s: Step, after: Tracked) {
    match version
    case Some(Ssl30) => AsApplicationData(c, s, after)
    case Some(Tls10) => AsApplicationData(c, s, after)
    case Some(Tls11) => AsApplicationData(c, s, after)
    case Some(Tls12) => AsApplicationData(c, s, after)
    case _ => if s.direction == ServerToClient then AsServerFlight(c, s, after) else AsClientFlight(c, s, after)
  }

  lemma PushAdds(c: Tracked, record: TlsRecord, d: Direction, nowMs: nat)
    ensures AddsOnly(c.state.records, PushRecordEvent(c, record, d, nowMs).state.records, BuildBody(record, d, c))
  {
    hide EncodeRecord, Preview;
  }

  /** The entry shows the state of the counters after the record. */
  lemma RecordAdds(parser: MessageParser, c: Tracked, s: Step)
    requires s.record.recordType == ApplicationData
    ensures var x := ApplyEncrypted(c, s.direction);
            AddsOnly(c.state.records, ProcessStep(parser, c, s).state.records, Shown(x, s))
  {
    hide PushRecordEvent, ApplyEncrypted, BuildBody, Head, AddsOnly, Shown;
    var (r, d, t) := (s.record, s.direction, s.nowMs);
    var x := ApplyEncrypted(c, d);
    var stopped := x.(stopLogging := x.stopLogging || x.encryptedFromClient >= 2 || x.BothCcs());
    EncryptedKeepsRest(c, d);
    PushAdds(stopped, r, d, t);
    BodyShown(stopped, s);
    StopIsNotShown(x, stopped.stopLogging, s);
  }

  function Shown(c: Tracked, s: Step): RecordBody {
    EncryptedRecord(if IsOld(c.state.handshake.tlsVersion) then PlainApplicationData
                    else FlightLabel(s.direction, c.encryptedFromServer, c.encryptedFromClient, |s.record.payload|),
                    Head(s.record.payload))
  }

  lemma StopIsNotShown(c: Tracked, stop: bool, s: Step)
    ensures Shown(c.(stopLogging := stop), s) == Shown(c, s)
  {
  }

  lemma BodyShown(c: Tracked, s: Step)
    requires s.record.recordType == ApplicationData
    ensures BuildBody(s.record, s.direction, c) == Shown(c, s)
  {
    hide Preview, Head;
    PreviewIsHead(s.record.payload);
  }

  lemma RecordActs(parser: MessageParser, c: Tracked, s: Step)
    requires s.record.recordType == ApplicationData
    ensures ActsByVersion(c.state.handshake.tlsVersion, c, s, ProcessStep(parser, c, s))
  {
    hide ProcessStep, ApplyEncrypted, Head, AddsOnly, AsApplicationData, AsServerFlight, AsClientFlight;
    StepParts(parser, c, s);
    RecordAdds(parser, c, s);
    var after := ProcessStep(parser, c, s);
    if IsOld(c.state.handshake.tlsVersion) {
      OldActs(c, s, after);
    } else if s.direction == ServerToClient {
      ServerActs(c, s, after);
    } else {
      ClientActs(c, s, after);
    }
  }

  ghost predicate Follows(c: Tracked, s: Step, after: Tracked) {
    var x := ApplyEncrypted(c, s.direction);
    && after.encryptedFromServer == x.encryptedFromServer && after.encryptedFromClient == x.encryptedFromClient
    && after.sawClientFinished == x.sawClientFinished && after.state.handshake == x.state.handshake
    && AddsOnly(c.state.records, after.state.records, Shown(x, s))
  }

  lemma OldActs(c: Tracked, s: Step, after: Tracked)
    requires IsOld(c.state.handshake.tlsVersion) && Follows(c, s, after)
    ensures AsApplicationData(c, s, after)
  {
    hide ApplyEncrypted, Head, AddsOnly;
    OldApplied(c, s.direction);
  }

  lemma ServerActs(c: Tracked, s: Step, after: Tracked)
    requires !IsOld(c.state.handshake.tlsVersion) && s.direction == ServerToClient && Follows(c, s, after)
    ensures AsServerFlight(c, s, after)
  {
    hide ApplyEncrypted, Head, AddsOnly;
    ServerApplied(c);
  }

  lemma ClientActs(c: Tracked, s: Step, after: Tracked)
    requires !IsOld(c.state.handshake.tlsVersion) && s.direction == ClientToServer && Follows(c, s, after)
    ensures AsClientFlight(c, s, after)
  {
    hide ApplyEncrypted, Head, AddsOnly;
    ClientApplied(c);
  }

  lemma OldApplied(c: Tracked, d: Direction)
    requires IsOld(c.state.handshake.tlsVersion)
    ensures ApplyEncrypted(c, d) == c.WithHandshake(c.state.handshake.(stage := ApplicationDataFlowing))
  {
  }

  lemma ServerApplied(c: Tracked)
    requires !IsOld(c.state.handshake.tlsVersion)
    ensures var n := c.encryptedFromServer + 1;
            var stage := if c.sawClientFinished then ApplicationDataFlowing
                         else if n <= 3 then Certificate else ServerFinished;
            var hs := c.state.handshake.(stage := stage);
            ApplyEncrypted(c, ServerToClient) ==
            c.(encryptedFromServer := n).WithHandshake(
              if hs.certificateSubject.Some? then hs
              else hs.(certificateSubject := Some("encrypted (TLS 1.3)"),
                       certificateIssuer := Some("encrypted (TLS 1.3)")))
  {
  }

  lemma ClientApplied(c: Tracked)
    requires !IsOld(c.state.handshake.tlsVersion)
    ensures var hs := c.state.handshake;
            ApplyEncrypted(c, ClientToServer) ==
            if c.encryptedFromServer == 0 then c
            else c.(encryptedFromClient := c.encryptedFromClient + 1, sawClientFinished := true).WithHandshake(
                   hs.(stage := if c.sawClientFinished then ApplicationDataFlowing else ClientFinished))
  {
  }

  /** In every reachable state the version that decides is the one settled by the plaintext messages. */
  lemma RecordActsInRun(parser: MessageParser, key: ConnectionKey, nowMs: nat, origin: Option<Origin>,
                        segments: seq<Segment>, s: Step)
    requires s.record.recordType == ApplicationData
    ensures var born := Born(key, nowMs, origin);
            var c := Run(parser, born, segments);
            ActsByVersion(VersionOf(Applied(parser, Completed(parser, born, segments))), c, s,
                          ProcessStep(parser, c, s))
  {
    hide Run, Completed, VersionOf, Applied, ProcessStep, ActsByVersion, Log, Over;
    TimelineOfRun(parser, key, nowMs, origin, segments);
    RecordActs(parser, Run(parser, Born(key, nowMs, origin), segments), s);
  }

  // ----- the messages of a plaintext record

  /** The parser yields these messages one after the other and leaves `rest`. */
  ghost predicate Yields(parser: MessageParser, payload: bytes, messages: seq<HandshakeMessage>, rest: bytes)
    decreases |messages|
  {
    if messages == [] then rest == payload
    else payload != [] && parser(payload).Some? && parser(payload).value.1 == messages[0] &&
         Yields(parser, parser(payload).value.0, messages[1..], rest)
  }

  /** The messages of a payload are all that the parser yields until it ends or fails. */
  lemma {:induction false} MessagesAreAll(parser: MessageParser, payload: bytes) returns (rest: bytes)
    ensures Yields(parser, payload, Messages(parser, payload), rest)
    ensures rest == [] || parser(rest).None?
    decreases |payload|
  {
    if payload == [] || parser(payload).None? {
      rest := payload;
    } else {
      rest := MessagesAreAll(parser, parser(payload).value.0);
      assert Messages(parser, payload)[1..] == Messages(parser, parser(payload).value.0);
    }
  }

  /** No other messages are yielded, and no longer run of them. */
  lemma {:induction false} MessagesAreLongest(parser: MessageParser, payload: bytes, messages: seq<HandshakeMessage>,
                                              rest: bytes)
    requires Yields(parser, payload, messages, rest)
    ensures messages <= Messages(parser, payload)
    decreases |messages|
  {
    if messages == [] {
    } else {
      MessagesAreLongest(parser, parser(payload).value.0, messages[1..], rest);
      assert messages == [messages[0]] + messages[1..];
    }
  }
}
