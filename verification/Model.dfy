/**
 The values shared by the tracker and the user interface.
 */
module Model {
  import opened Wire
  import Framing
  import opened Extensions
  import opened Hello

  // ----- flows

  datatype Ip = V4(octets: nat) | V6(segments: nat)

  datatype Endpoint = Endpoint(ip: Ip, port: u16)

  /** Version 4 addresses come before version 6 addresses; within a version the order is numeric. */
  predicate IpLess(a: Ip, b: Ip) {
    match (a, b)
    case (V4(x), V4(y)) => x < y
    case (V4(_), V6(_)) => true
    case (V6(_), V4(_)) => false
    case (V6(x), V6(y)) => x < y
  }

  predicate AtMost(a: Endpoint, b: Endpoint) {
    IpLess(a.ip, b.ip) || (a.ip == b.ip && a.port <= b.port)
  }

  datatype ConnectionKey = ConnectionKey(client: Endpoint, server: Endpoint)

  datatype Direction = ClientToServer | ServerToClient

  function Opposite(d: Direction): Direction {
    if d == ClientToServer then ServerToClient else ClientToServer
  }

  predicate IsTlsServerPort(port: u16) {
    port == 443 || port == 8443
  }

  function Canonical(a: Endpoint, b: Endpoint): ConnectionKey {
    match (IsTlsServerPort(a.port), IsTlsServerPort(b.port))
    case (false, true) => ConnectionKey(a, b)
    case (true, false) => ConnectionKey(b, a)
    case _ => if AtMost(a, b) then ConnectionKey(a, b) else ConnectionKey(b, a)
  }

  /** The direction given to a segment sent by `source`. */
  function DirectionOf(source: Endpoint, key: ConnectionKey): Direction {
    if source == key.client then ClientToServer else ServerToClient
  }

  /** Both orientations of a flow share a key, and get opposite directions unless its ends coincide. */
  lemma CanonicalIsUndirected(a: Endpoint, b: Endpoint)
    ensures Canonical(a, b) == Canonical(b, a)
    ensures {Canonical(a, b).client, Canonical(a, b).server} == {a, b}
    ensures DirectionOf(a, Canonical(a, b)) == Opposite(DirectionOf(b, Canonical(b, a))) <==> a != b
  {
  }

  /** The end on port 443 or 8443 is the server, if only one is; else the lesser endpoint is the client. */
  lemma WellKnownPortIsServer(a: Endpoint, b: Endpoint)
    ensures a.port !in {443, 8443} && b.port in {443, 8443} ==> Canonical(a, b) == ConnectionKey(a, b)
    ensures a.port in {443, 8443} && b.port !in {443, 8443} ==> Canonical(a, b) == ConnectionKey(b, a)
    ensures (a.port in {443, 8443} <==> b.port in {443, 8443}) ==>
              var key := Canonical(a, b);
              (key.client.ip.V6? ==> key.server.ip.V6?) &&
              (key.client.ip.V4? && key.server.ip.V4? ==> key.client.ip.octets <= key.server.ip.octets) &&
              (key.client.ip.V6? && key.server.ip.V6? ==> key.client.ip.segments <= key.server.ip.segments) &&
              (key.client.ip == key.server.ip ==> key.client.port <= key.server.port)
    ensures a.port in {443, 8443} && b.port !in {443, 8443} ==> DirectionOf(a, Canonical(a, b)) == ServerToClient
    ensures DirectionOf(Canonical(a, b).client, Canonical(a, b)) == ClientToServer
    ensures a != b ==> DirectionOf(Canonical(a, b).server, Canonical(a, b)) == ServerToClient
  {
  }

  // ----- handshakes

  datatype TlsVersion = Ssl30 | Tls10 | Tls11 | Tls12 | Tls13 | OtherVersion(code: u16)

  /** The version is known and older than TLS 1.3. */
  predicate Before13(version: Option<TlsVersion>) {
    version.Some? && (version.value.Ssl30? || version.value.Tls10? || version.value.Tls11? || version.value.Tls12?)
  }

  datatype HandshakeStage =
    | Idle
    | ClientHelloSeen
    | ServerHelloSeen
    | Certificate
    | ServerCertificate
    | ServerKeyExchange
    | ServerHelloDone
    | ClientKeyExchange
    | ClientFinished
    | ServerFinished
    | ApplicationDataFlowing
    | Errored

  datatype TrackError = BufferWouldExceed | Unparsable(cause: Framing.ParseError)

  datatype Origin =
    | Local(pid: u32, comm: string, cmdline: string, uid: u32)
    | OtherUser(ownerUid: u32)
    | UnknownOrigin
    | Unsupported

  datatype HandshakeInfo = HandshakeInfo(
    stage: HandshakeStage,
    sni: Option<string>,
    alpnOffered: seq<string>,
    alpnSelected: Option<string>,
    cipherSuitesOffered: seq<u16>,
    cipherSuiteSelected: Option<u16>,
    groupsOffered: seq<NamedGroup>,
    keyShareGroup: Option<NamedGroup>,
    tlsVersion: Option<TlsVersion>,
    certificateSubject: Option<string>,
    certificateIssuer: Option<string>,
    error: Option<TrackError>,
    origin: Option<Origin>)

  const NEW_HANDSHAKE := HandshakeInfo(Idle, None, [], None, [], None, [], None, None, None, None, None, None)

  /** The summary of a ClientHello, as the compact parser hands it to the tracker. */
  datatype ClientHelloInfo = ClientHelloInfo(
    sni: Option<string>,
    alpnOffered: seq<string>,
    cipherSuites: seq<u16>,
    groupsOffered: seq<NamedGroup>,
    keyShareGroup: Option<NamedGroup>,
    maxVersion: Option<TlsVersion>)

  datatype ServerHelloInfo = ServerHelloInfo(
    tlsVersion: Option<TlsVersion>,
    cipherSuiteSelected: Option<u16>,
    keyShareGroup: Option<NamedGroup>,
    alpnSelected: Option<string>)

  datatype HandshakeMessage =
    | ClientHelloMsg(client: ClientHelloInfo)
    | ServerHelloMsg(server: ServerHelloInfo)
    | CertificateMsg
    | ServerKeyExchangeMsg
    | ServerDoneMsg
    | ClientKeyExchangeMsg
    | OtherMsg

  /**
   The foreign handshake parser: it takes one message off the front of a payload, or fails. Nothing is
   known of it but that it consumes something.
   */
  type MessageParser = p: bytes -> Option<(bytes, HandshakeMessage)> |
    forall s: bytes {:trigger p(s)} :: p(s).Some? ==> |p(s).value.0| < |s|
    witness NoMessage

  function NoMessage(s: bytes): Option<(bytes, HandshakeMessage)> {
    None
  }

  // ----- the timeline

  /** The inferred labels of encrypted records; each constructor stands for one fixed phrase. */
  datatype Label =
    | PlainApplicationData
    | LikelyExtensionsOnly
    | LikelyExtensionsAndFinished
    | LikelyFullServerFlight
    | LikelyServerFinishedOnly
    | LikelyServerFlightContinued
    | LikelyNewSessionTicket
    | LikelyEarlyData
    | LikelyClientFinishedOnly
    | LikelyClientCertificateFlight
    | EncryptedApplicationData
    | EncryptedClientFinished
    | EncryptedTicketOrServerFinished
    | EncryptedServerFinished
    | EncryptedPostCcsHandshake
    | UnknownRecordType

  datatype RecordBody =
    | HandshakeRecord(message: DecodedHandshake)
    | EncryptedRecord(inferredLabel: Label, preview: bytes)
    | ChangeCipherSpecRecord

  datatype RecordEvent = RecordEvent(
    direction: Direction,
    timestampMs: nat,
    sequence: u32,
    outerType: Framing.RecordType,
    outerLength: u16,
    raw: bytes,
    body: RecordBody)

  const RECORD_LOG_CAP := 64

  datatype ConnectionState = ConnectionState(
    key: ConnectionKey,
    firstSeenMs: nat,
    lastSeenMs: nat,
    handshake: HandshakeInfo,
    records: seq<RecordEvent>)
}
