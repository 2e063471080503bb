/**
 What the timeline of a connection must be, said from the completed records alone: which records are
 kept, and what is shown of each according to its position among the others.
 */
module Timeline {
  import opened Wire
  import opened Framing
  import opened Hello
  import opened Model
  import opened Connection
  import opened History

  predicate IsCcs(s: Step, d: Direction) {
    s.direction == d && s.record.recordType == ChangeCipherSpec
  }

  /** A ChangeCipherSpec of this direction is among the records. */
  predicate CcsIn(h: seq<Step>, d: Direction) {
    exists i :: 0 <= i < |h| && IsCcs(h[i], d)
  }

  predicate BothCcsIn(h: seq<Step>) {
    CcsIn(h, ClientToServer) && CcsIn(h, ServerToClient)
  }

  // ----- the plaintext messages and the version they settle

  datatype Sent = Sent(message: HandshakeMessage, direction: Direction)

  function SentBy(messages: seq<HandshakeMessage>, d: Direction): (r: seq<Sent>)
    ensures |r| == |messages|
  {
    seq(|messages|, i requires 0 <= i < |messages| => Sent(messages[i], d))
  }

  /** The handshake messages seen in the clear: those of records before the ChangeCipherSpec of their side. */
  function Applied(parser: MessageParser, h: seq<Step>): seq<Sent>
    decreases |h|
  {
    if h == [] then []
    else
      var s := Last(h);
      Applied(parser, Front(h)) +
      if s.record.recordType == Handshake && !CcsIn(Front(h), s.direction)
      then SentBy(Messages(parser, s.record.payload), s.direction) else []
  }

  function ServerVersion(m: Sent): Option<TlsVersion> {
    if m.message.ServerHelloMsg? && m.direction == ServerToClient then m.message.server.tlsVersion else None
  }

  function ClientVersion(m: Sent): Option<TlsVersion> {
    if m.message.ClientHelloMsg? && m.direction == ClientToServer then m.message.client.maxVersion else None
  }

  function LastServerVersion(sent: seq<Sent>): Option<TlsVersion>
    decreases |sent|
  {
    if sent == [] then None else Or(ServerVersion(Last(sent)), LastServerVersion(Front(sent)))
  }

  function FirstClientVersion(sent: seq<Sent>): Option<TlsVersion>
    decreases |sent|
  {
    if sent == [] then None else Or(ClientVersion(sent[0]), FirstClientVersion(sent[1..]))
  }

  /** The version of the last ServerHello that names one, or else of the first ClientHello that does. */
  function VersionOf(sent: seq<Sent>): Option<TlsVersion> {
    Or(LastServerVersion(sent), FirstClientVersion(sent))
  }

  /** The version is known to be one before TLS 1.3. */
  predicate IsOld(version: Option<TlsVersion>) {
    version == Some(Ssl30) || version == Some(Tls10) || version == Some(Tls11) || version == Some(Tls12)
  }

  predicate Before13At(parser: MessageParser, h: seq<Step>) {
    IsOld(VersionOf(Applied(parser, h)))
  }

  // ----- positions among the records

  /** The last record counts as part of an encrypted TLS 1.3 flight. */
  predicate InFlight(parser: MessageParser, h: seq<Step>)
    requires h != []
  {
    Last(h).record.recordType == ApplicationData && !Before13At(parser, Front(h))
  }

  /** Encrypted records the server has sent. */
  function ServerFlight(parser: MessageParser, h: seq<Step>): nat
    decreases |h|
  {
    if h == [] then 0
    else ServerFlight(parser, Front(h)) + if InFlight(parser, h) && Last(h).direction == ServerToClient then 1 else 0
  }

  /** Encrypted records the client has sent since the first one of the server. */
  function ClientFlight(parser: MessageParser, h: seq<Step>): nat
    decreases |h|
  {
    if h == [] then 0
    else
      ClientFlight(parser, Front(h)) +
      if InFlight(parser, h) && Last(h).direction == ClientToServer && ServerFlight(parser, Front(h)) > 0 then 1 else 0
  }

  /** Handshake records sent by one side after its ChangeCipherSpec. */
  function PostCcs(h: seq<Step>, d: Direction): nat
    decreases |h|
  {
    if h == [] then 0
    else
      PostCcs(Front(h), d) +
      if Last(h).record.recordType == Handshake && Last(h).direction == d && CcsIn(Front(h), d) then 1 else 0
  }

  // ----- what is shown of a record

  /** The label of an encrypted record by its place in the flight and its size. */
  function FlightLabel(d: Direction, serverPlace: nat, clientPlace: nat, size: nat): Label {
    match d
    case ServerToClient =>
      (match serverPlace
       case 1 => if size >= 800 then LikelyFullServerFlight
                 else if size >= 200 then LikelyExtensionsAndFinished else LikelyExtensionsOnly
       case 2 => if size >= 120 then LikelyServerFlightContinued else LikelyServerFinishedOnly
       case _ => LikelyNewSessionTicket)
    case ClientToServer =>
      if serverPlace == 0 then LikelyEarlyData
      else
        match clientPlace
        case 1 => if size >= 120 then LikelyClientCertificateFlight else LikelyClientFinishedOnly
        case _ => EncryptedApplicationData
  }

  /** The label of a handshake record after the ChangeCipherSpec of its side, by how many came before it. */
  function SealedLabel(d: Direction, before: nat): Label {
    match (d, before)
    case (ClientToServer, 0) => EncryptedClientFinished
    case (ServerToClient, 0) => EncryptedTicketOrServerFinished
    case (ServerToClient, 1) => EncryptedServerFinished
    case _ => EncryptedPostCcsHandshake
  }

  /** At most the first 64 octets. */
  function Head(payload: bytes): bytes {
    if |payload| <= 64 then payload else payload[..64]
  }

  function BodyAt(parser: MessageParser, h: seq<Step>): RecordBody
    requires h != []
  {
    var s := Last(h);
    match s.record.recordType
    case Handshake =>
      if CcsIn(Front(h), s.direction)
      then EncryptedRecord(SealedLabel(s.direction, PostCcs(Front(h), s.direction)), Head(s.record.payload))
      else HandshakeRecord(HandshakeBody(s.record.payload))
    case ApplicationData =>
      var l := if Before13At(parser, h) then PlainApplicationData
               else FlightLabel(s.direction, ServerFlight(parser, h), ClientFlight(parser, h), |s.record.payload|);
      EncryptedRecord(l, Head(s.record.payload))
    case _ => ChangeCipherSpecRecord
  }

  function EventAt(parser: MessageParser, h: seq<Step>, sequence: u32): RecordEvent
    requires h != []
  {
    var s := Last(h);
    RecordEvent(s.direction, s.nowMs, sequence, s.record.recordType, LengthField(s.record.payload),
                EncodeRecord(s.record), BodyAt(parser, h))
  }

  // ----- which records are kept

  predicate Loggable(s: Step) {
    s.record.recordType == Handshake || s.record.recordType == ApplicationData ||
    s.record.recordType == ChangeCipherSpec
  }

  predicate EndsHandshake(h: seq<Step>, i: nat)
    requires i < |h|
  {
    BothCcsIn(h[..i]) && (h[i].record.recordType == Handshake || h[i].record.recordType == ApplicationData)
  }

  /**
   Logging is over: the client has sent a second encrypted record after the server's first, or some
   handshake or application record came after both ChangeCipherSpecs.
   */
  predicate Over(parser: MessageParser, h: seq<Step>) {
    ClientFlight(parser, h) >= 2 || exists i :: 0 <= i < |h| && EndsHandshake(h, i)
  }

  /** The last record goes on the timeline when `kept` are there already. */
  predicate Keeps(parser: MessageParser, h: seq<Step>, kept: nat)
    requires h != []
  {
    Loggable(Last(h)) && kept < 64 &&
    !Over(parser, if Last(h).record.recordType == ApplicationData then h else Front(h))
  }

  /** The whole timeline. */
  function Log(parser: MessageParser, h: seq<Step>): (log: seq<RecordEvent>)
    ensures |log| <= 64
    decreases |h|
  {
    if h == [] then []
    else
      var log := Log(parser, Front(h));
      if Keeps(parser, h, |log|) then log + [EventAt(parser, h, |log| + 1)] else log
  }

  /** The records of the timeline types, kept or not. */
  function LoggableOf(h: seq<Step>): seq<Step>
    decreases |h|
  {
    if h == [] then []
    else LoggableOf(Front(h)) + if Loggable(Last(h)) then [Last(h)] else []
  }
}
