/**
 One tracked connection as a value, and what a record and a segment do to it.
 */
module Connection {
  import opened Wire
  import opened Framing
  import opened Hello
  import opened Model

  const MAX_REASSEMBLY_BYTES := 128 * 1024
  const CIPHERTEXT_PREVIEW_LEN := 64

  datatype Tracked = Tracked(
    state: ConnectionState,
    clientToServerBuf: bytes,
    serverToClientBuf: bytes,
    encryptedFromServer: nat,
    encryptedFromClient: nat,
    sawClientFinished: bool,
    clientCcsSeen: bool,
    serverCcsSeen: bool,
    postCcsFromClient: nat,
    postCcsFromServer: nat,
    seqCounter: u32,
    stopLogging: bool)
  {
    function Buffer(d: Direction): bytes {
      if d == ClientToServer then clientToServerBuf else serverToClientBuf
    }

    function WithBuffer(d: Direction, buf: bytes): Tracked {
      if d == ClientToServer then this.(clientToServerBuf := buf) else this.(serverToClientBuf := buf)
    }

    function Ccs(d: Direction): bool {
      if d == ClientToServer then clientCcsSeen else serverCcsSeen
    }

    function PostCcs(d: Direction): nat {
      if d == ClientToServer then postCcsFromClient else postCcsFromServer
    }

    predicate BothCcs() {
      clientCcsSeen && serverCcsSeen
    }

    function WithHandshake(hs: HandshakeInfo): Tracked {
      this.(state := state.(handshake := hs))
    }
  }

  function NewConnection(key: ConnectionKey, nowMs: nat): Tracked {
    Tracked(ConnectionState(key, nowMs, nowMs, NEW_HANDSHAKE, []), [], [], 0, 0, false, false, false, 0, 0, 0, false)
  }

  // ----- plaintext handshake messages

  /** The messages of a payload, up to the first that does not parse. */
  function Messages(parser: MessageParser, payload: bytes): seq<HandshakeMessage>
    decreases |payload|
  {
    if payload == [] then []
    else
      match parser(payload)
      case None => []
      case Some((rest, message)) => [message] + Messages(parser, rest)
  }

  function MergeClientHello(dst: HandshakeInfo, src: ClientHelloInfo): HandshakeInfo {
    dst.(stage := ClientHelloSeen,
         sni := Or(src.sni, dst.sni),
         alpnOffered := if src.alpnOffered != [] then src.alpnOffered else dst.alpnOffered,
         cipherSuitesOffered := if src.cipherSuites != [] then src.cipherSuites else dst.cipherSuitesOffered,
         groupsOffered := if src.groupsOffered != [] then src.groupsOffered else dst.groupsOffered,
         keyShareGroup := Or(src.keyShareGroup, dst.keyShareGroup),
         tlsVersion := Or(dst.tlsVersion, src.maxVersion))
  }

  function MergeServerHello(dst: HandshakeInfo, src: ServerHelloInfo): HandshakeInfo {
    dst.(stage := ServerHelloSeen,
         tlsVersion := Or(src.tlsVersion, dst.tlsVersion),
         cipherSuiteSelected := Or(src.cipherSuiteSelected, dst.cipherSuiteSelected),
         keyShareGroup := Or(src.keyShareGroup, dst.keyShareGroup),
         alpnSelected := Or(src.alpnSelected, dst.alpnSelected))
  }

  function ApplyMessage(hs: HandshakeInfo, message: HandshakeMessage, d: Direction): HandshakeInfo {
    match (message, d)
    case (ClientHelloMsg(info), ClientToServer) => MergeClientHello(hs, info)
    case (ServerHelloMsg(info), ServerToClient) => MergeServerHello(hs, info)
    case (CertificateMsg, ServerToClient) =>
      if hs.tlsVersion.None? || Before13(hs.tlsVersion) then hs.(stage := ServerCertificate) else hs
    case (ServerKeyExchangeMsg, _) => hs.(stage := ServerKeyExchange)
    case (ServerDoneMsg, _) => hs.(stage := ServerHelloDone)
    case (ClientKeyExchangeMsg, ClientToServer) => hs.(stage := ClientKeyExchange)
    case _ => hs
  }

  function ApplyMessages(hs: HandshakeInfo, messages: seq<HandshakeMessage>, d: Direction): HandshakeInfo
    decreases |messages|
  {
    if messages == [] then hs else ApplyMessages(ApplyMessage(hs, messages[0], d), messages[1..], d)
  }

  // ----- ChangeCipherSpec and encrypted records

  function ApplyCcs(hs: HandshakeInfo, d: Direction): HandshakeInfo {
    match d
    case ClientToServer => if hs.stage == ClientKeyExchange then hs.(stage := ClientFinished) else hs
    case ServerToClient => if hs.stage == ClientFinished then hs.(stage := ServerFinished) else hs
  }

  const ENCRYPTED_FIELD := "encrypted (TLS 1.3)"

  /** The certificate of TLS 1.3 is encrypted, and its fields say so once it may have passed. */
  function WithCertificate(hs: HandshakeInfo): HandshakeInfo {
    if hs.certificateSubject.Some? then hs
    else hs.(certificateSubject := Some(ENCRYPTED_FIELD), certificateIssuer := Some(ENCRYPTED_FIELD))
  }

  function ApplyEncrypted(c: Tracked, d: Direction): Tracked {
    var hs := c.state.handshake;
    if Before13(hs.tlsVersion) then c.WithHandshake(hs.(stage := ApplicationDataFlowing))
    else if d == ServerToClient then
      var n := c.encryptedFromServer + 1;
      var stage := if c.sawClientFinished then ApplicationDataFlowing
                   else if 1 <= n <= 3 then Certificate else ServerFinished;
      c.(encryptedFromServer := n).WithHandshake(WithCertificate(hs.(stage := stage)))
    else if c.encryptedFromServer > 0 then
      c.(encryptedFromClient := c.encryptedFromClient + 1, sawClientFinished := true).WithHandshake(
        hs.(stage := if !c.sawClientFinished then ClientFinished else ApplicationDataFlowing))
    else c
  }

  // ----- the timeline

  function EncryptedFlightLabel(d: Direction, c: Tracked, payloadLen: nat): Label {
    if Before13(c.state.handshake.tlsVersion) then PlainApplicationData
    else
      match d
      case ServerToClient =>
        if c.encryptedFromServer == 1 then
          if payloadLen < 200 then LikelyExtensionsOnly
          else if payloadLen < 800 then LikelyExtensionsAndFinished
          else LikelyFullServerFlight
        else if c.encryptedFromServer == 2 then
          if payloadLen < 120 then LikelyServerFinishedOnly else LikelyServerFlightContinued
        else LikelyNewSessionTicket
      case ClientToServer =>
        if c.encryptedFromServer == 0 then LikelyEarlyData
        else if c.encryptedFromClient == 1 then
          if payloadLen < 120 then LikelyClientFinishedOnly else LikelyClientCertificateFlight
        else EncryptedApplicationData
  }

  function PostCcsHandshakeLabel(d: Direction, c: Tracked): Label {
    match d
    case ClientToServer => if c.postCcsFromClient == 0 then EncryptedClientFinished else EncryptedPostCcsHandshake
    case ServerToClient =>
      if c.postCcsFromServer == 0 then EncryptedTicketOrServerFinished
      else if c.postCcsFromServer == 1 then EncryptedServerFinished
      else EncryptedPostCcsHandshake
  }

  function Preview(payload: bytes): bytes {
    payload[..if |payload| < CIPHERTEXT_PREVIEW_LEN then |payload| else CIPHERTEXT_PREVIEW_LEN]
  }

  function BuildBody(record: TlsRecord, d: Direction, c: Tracked): RecordBody {
    match record.recordType
    case Handshake =>
      if c.Ccs(d) then EncryptedRecord(PostCcsHandshakeLabel(d, c), Preview(record.payload))
      else HandshakeRecord(HandshakeBody(record.payload))
    case ApplicationData =>
      EncryptedRecord(EncryptedFlightLabel(d, c, |record.payload|), Preview(record.payload))
    case ChangeCipherSpec => ChangeCipherSpecRecord
    case _ => EncryptedRecord(UnknownRecordType, [])
  }

  function SaturatingNext(n: u32): u32 {
    if n == 0xFFFF_FFFF then n else n + 1
  }

  function PushRecordEvent(c: Tracked, record: TlsRecord, d: Direction, nowMs: nat): Tracked {
    if c.stopLogging || |c.state.records| >= RECORD_LOG_CAP then c
    else
      var c' := c.(seqCounter := SaturatingNext(c.seqCounter));
      var event := RecordEvent(d, nowMs, c'.seqCounter, record.recordType, LengthField(record.payload),
                               EncodeRecord(record), BuildBody(record, d, c'));
      c'.(state := c'.state.(records := c'.state.records + [event]))
  }

  // ----- records

  function ProcessHandshake(parser: MessageParser, c: Tracked, record: TlsRecord, d: Direction, nowMs: nat): Tracked {
    if !c.Ccs(d) then
      var hs := ApplyMessages(c.state.handshake, Messages(parser, record.payload), d);
      PushRecordEvent(c.WithHandshake(hs), record, d, nowMs)
    else
      var pushed := PushRecordEvent(c, record, d, nowMs);
      var counted := if d == ClientToServer then pushed.(postCcsFromClient := pushed.postCcsFromClient + 1)
                     else pushed.(postCcsFromServer := pushed.postCcsFromServer + 1);
      if counted.BothCcs() then counted.(stopLogging := true) else counted
  }

  function ProcessApplicationData(c: Tracked, record: TlsRecord, d: Direction, nowMs: nat): Tracked {
    var applied := ApplyEncrypted(c, d);
    var stop := applied.stopLogging || applied.encryptedFromClient >= 2 || applied.BothCcs();
    PushRecordEvent(applied.(stopLogging := stop), record, d, nowMs)
  }

  function ProcessCcs(c: Tracked, record: TlsRecord, d: Direction, nowMs: nat): Tracked {
    var applied := c.WithHandshake(ApplyCcs(c.state.handshake, d));
    var marked := if d == ClientToServer then applied.(clientCcsSeen := true) else applied.(serverCcsSeen := true);
    PushRecordEvent(marked, record, d, nowMs)
  }

  function ProcessRecord(parser: MessageParser, c: Tracked, record: TlsRecord, d: Direction, nowMs: nat): Tracked {
    match record.recordType
    case Handshake => ProcessHandshake(parser, c, record, d, nowMs)
    case ApplicationData => ProcessApplicationData(c, record, d, nowMs)
    case ChangeCipherSpec => ProcessCcs(c, record, d, nowMs)
    case _ => c
  }

  function ProcessAll(parser: MessageParser, c: Tracked, records: seq<TlsRecord>, d: Direction, nowMs: nat): Tracked
    decreases |records|
  {
    if records == [] then c
    else ProcessAll(parser, ProcessRecord(parser, c, records[0], d, nowMs), records[1..], d, nowMs)
  }

  // ----- segments

  datatype Segment = Segment(direction: Direction, payload: bytes, nowMs: nat)

  function Fail(c: Tracked, error: TrackError): Tracked {
    c.WithHandshake(c.state.handshake.(stage := Errored, error := Some(error)))
  }

  function Touch(c: Tracked, nowMs: nat): Tracked {
    c.(state := c.state.(lastSeenMs := nowMs))
  }

  predicate OverCap(c: Tracked, s: Segment) {
    |c.Buffer(s.direction)| + |s.payload| > MAX_REASSEMBLY_BYTES
  }

  /** The buffered octets of the direction with the payload behind them. */
  function Arrived(c: Tracked, s: Segment): bytes {
    c.Buffer(s.direction) + s.payload
  }

  function IngestSegment(parser: MessageParser, c: Tracked, s: Segment): Tracked {
    if s.payload == [] then c
    else if OverCap(c, s) then Fail(Touch(c, s.nowMs), BufferWouldExceed)
    else
      var p := Peel(Arrived(c, s));
      if OversizeHeader(p.rest) then
        Fail(Touch(c, s.nowMs).WithBuffer(s.direction, []), Unparsable(RecordTooLong(HeaderLength(p.rest))))
      else
        ProcessAll(parser, Touch(c, s.nowMs).WithBuffer(s.direction, p.rest), p.items, s.direction, s.nowMs)
  }
}
