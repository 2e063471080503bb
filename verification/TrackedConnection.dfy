/**
 The mutable connection of the tracker: its methods update fields in place, and each is tied to the
 function of module `Connection` that says what it computes.
 */
module TrackedConnections {
  import opened Wire
  import opened Framing
  import opened Model
  import opened C = Connection

  class TrackedConnection {
    const key: ConnectionKey
    const firstSeenMs: nat
    var lastSeenMs: nat
    var handshake: HandshakeInfo
    var records: seq<RecordEvent>
    var clientToServerBuf: bytes
    var serverToClientBuf: bytes
    var encryptedFromServer: nat
    var encryptedFromClient: nat
    var sawClientFinished: bool
    var clientCcsSeen: bool
    var serverCcsSeen: bool
    var postCcsFromClient: nat
    var postCcsFromServer: nat
    var seqCounter: u32
    var stopLogging: bool

    /** The snapshot handed to the user interface. */
    function State(): ConnectionState
      reads this
    {
      ConnectionState(key, firstSeenMs, lastSeenMs, handshake, records)
    }

    function View(): Tracked
      reads this
    {
      Tracked(State(), clientToServerBuf, serverToClientBuf, encryptedFromServer, encryptedFromClient,
              sawClientFinished, clientCcsSeen, serverCcsSeen, postCcsFromClient, postCcsFromServer,
              seqCounter, stopLogging)
    }

    constructor (key: ConnectionKey, nowMs: nat)
      ensures View() == NewConnection(key, nowMs)
    {
      this.key, firstSeenMs, lastSeenMs := key, nowMs, nowMs;
      handshake, records := NEW_HANDSHAKE, [];
      clientToServerBuf, serverToClientBuf := [], [];
      encryptedFromServer, encryptedFromClient, sawClientFinished := 0, 0, false;
      clientCcsSeen, serverCcsSeen := false, false;
      postCcsFromClient, postCcsFromServer := 0, 0;
      seqCounter, stopLogging := 0, false;
    }

    method SetOrigin(origin: Origin)
      modifies this`handshake
      ensures View() == old(View()).WithHandshake(old(handshake).(origin := Some(origin)))
    {
      handshake := handshake.(origin := Some(origin));
    }

    lemma LastSeen()
      ensures View().state.lastSeenMs == lastSeenMs && View().state.handshake == handshake
    {
    }

    method MergeClientHello(src: ClientHelloInfo)
      modifies this`handshake
      ensures handshake == C.MergeClientHello(old(handshake), src)
    {
      handshake := handshake.(stage := ClientHelloSeen);
      handshake := handshake.(sni := Or(src.sni, handshake.sni));
      if src.alpnOffered != [] {
        handshake := handshake.(alpnOffered := src.alpnOffered);
      }
      if src.cipherSuites != [] {
        handshake := handshake.(cipherSuitesOffered := src.cipherSuites);
      }
      if src.groupsOffered != [] {
        handshake := handshake.(groupsOffered := src.groupsOffered);
      }
      handshake := handshake.(keyShareGroup := Or(src.keyShareGroup, handshake.keyShareGroup));
      if src.maxVersion.Some? && handshake.tlsVersion.None? {
        handshake := handshake.(tlsVersion := src.maxVersion);
      }
    }

    method MergeServerHello(src: ServerHelloInfo)
      modifies this`handshake
      ensures handshake == C.MergeServerHello(old(handshake), src)
    {
      handshake := handshake.(stage := ServerHelloSeen);
      if src.tlsVersion.Some? {
        handshake := handshake.(tlsVersion := src.tlsVersion);
      }
      if src.cipherSuiteSelected.Some? {
        handshake := handshake.(cipherSuiteSelected := src.cipherSuiteSelected);
      }
      if src.keyShareGroup.Some? {
        handshake := handshake.(keyShareGroup := src.keyShareGroup);
      }
      if src.alpnSelected.Some? {
        handshake := handshake.(alpnSelected := src.alpnSelected);
      }
    }

    method ApplyHandshakeRecord(parser: MessageParser, payload: bytes, direction: Direction)
      modifies this`handshake
      ensures handshake == ApplyMessages(old(handshake), Messages(parser, payload), direction)
    {
      var remaining := payload;
      while remaining != []
        invariant ApplyMessages(handshake, Messages(parser, remaining), direction) ==
                  ApplyMessages(old(handshake), Messages(parser, payload), direction)
        decreases |remaining|
      {
        var parsed := parser(remaining);
        if parsed.None? {
          break;
        }
        var (rest, message) := parsed.value;
        ghost var next := ApplyMessage(handshake, message, direction);
        match (message, direction) {
          case (ClientHelloMsg(info), ClientToServer) => MergeClientHello(info);
          case (ServerHelloMsg(info), ServerToClient) => MergeServerHello(info);
          case (CertificateMsg, ServerToClient) =>
            if handshake.tlsVersion.None? || Before13(handshake.tlsVersion) {
              handshake := handshake.(stage := ServerCertificate);
            }
          case (ServerKeyExchangeMsg, _) => handshake := handshake.(stage := ServerKeyExchange);
          case (ServerDoneMsg, _) => handshake := handshake.(stage := ServerHelloDone);
          case (ClientKeyExchangeMsg, ClientToServer) => handshake := handshake.(stage := ClientKeyExchange);
          case _ =>
        }
        assert handshake == next;
        assert Messages(parser, remaining)[1..] == Messages(parser, rest);
        remaining := rest;
      }
    }

    method ApplyCcs(direction: Direction)
      modifies this`handshake
      ensures handshake == C.ApplyCcs(old(handshake), direction)
    {
      match direction {
        case ClientToServer =>
          if handshake.stage == ClientKeyExchange {
            handshake := handshake.(stage := ClientFinished);
          }
        case ServerToClient =>
          if handshake.stage == ClientFinished {
            handshake := handshake.(stage := ServerFinished);
          }
      }
    }

    method ApplyEncryptedRecord(direction: Direction)
      modifies this`handshake, this`encryptedFromServer, this`encryptedFromClient, this`sawClientFinished
      ensures View() == ApplyEncrypted(old(View()), direction)
    {
      if Before13(handshake.tlsVersion) {
        handshake := handshake.(stage := ApplicationDataFlowing);
        return;
      }
      if direction == ServerToClient {
        encryptedFromServer := encryptedFromServer + 1;
        var stage;
        if sawClientFinished {
          stage := ApplicationDataFlowing;
        } else if 1 <= encryptedFromServer <= 3 {
          stage := Certificate;
        } else {
          stage := ServerFinished;
        }
        handshake := handshake.(stage := stage);
        if handshake.certificateSubject.None? {
          handshake := handshake.(certificateSubject := Some(ENCRYPTED_FIELD));
          handshake := handshake.(certificateIssuer := Some(ENCRYPTED_FIELD));
        }
      } else if encryptedFromServer > 0 {
        encryptedFromClient := encryptedFromClient + 1;
        if !sawClientFinished {
          sawClientFinished := true;
          handshake := handshake.(stage := ClientFinished);
        } else {
          handshake := handshake.(stage := ApplicationDataFlowing);
        }
      }
    }

    method PushRecordEvent(record: TlsRecord, direction: Direction, nowMs: nat)
      modifies this`seqCounter, this`records
      ensures View() == C.PushRecordEvent(old(View()), record, direction, nowMs)
    {
      hide BuildBody;
      if stopLogging || |records| >= RECORD_LOG_CAP {
        return;
      }
      seqCounter := SaturatingNext(seqCounter);
      var body := BuildBody(record, direction, View());
      var raw := [TypeByte(record.recordType)];
      raw := raw + PutU16(record.legacyVersion);
      var len := LengthField(record.payload);
      raw := raw + PutU16(len);
      raw := raw + record.payload;
      records := records + [RecordEvent(direction, nowMs, seqCounter, record.recordType, len, raw, body)];
    }

    method ProcessHandshake(parser: MessageParser, record: TlsRecord, direction: Direction, nowMs: nat)
      modifies this
      ensures View() == C.ProcessHandshake(parser, old(View()), record, direction, nowMs)
    {
      hide C.PushRecordEvent, ApplyMessages, Messages;
      var postCcs := if direction == ClientToServer then clientCcsSeen else serverCcsSeen;
      if !postCcs {
        ApplyHandshakeRecord(parser, record.payload, direction);
      }
      PushRecordEvent(record, direction, nowMs);
      if postCcs {
        if direction == ClientToServer {
          postCcsFromClient := postCcsFromClient + 1;
        } else {
          postCcsFromServer := postCcsFromServer + 1;
        }
        if clientCcsSeen && serverCcsSeen {
          stopLogging := true;
        }
      }
    }

    method ProcessApplicationData(record: TlsRecord, direction: Direction, nowMs: nat)
      modifies this
      ensures View() == C.ProcessApplicationData(old(View()), record, direction, nowMs)
    {
      hide C.PushRecordEvent, ApplyEncrypted;
      ApplyEncryptedRecord(direction);
      if encryptedFromClient >= 2 {
        stopLogging := true;
      }
      if clientCcsSeen && serverCcsSeen {
        stopLogging := true;
      }
      PushRecordEvent(record, direction, nowMs);
    }

    method ProcessCcs(record: TlsRecord, direction: Direction, nowMs: nat)
      modifies this
      ensures View() == C.ProcessCcs(old(View()), record, direction, nowMs)
    {
      hide C.PushRecordEvent;
      ApplyCcs(direction);
      if direction == ClientToServer {
        clientCcsSeen := true;
      } else {
        serverCcsSeen := true;
      }
      PushRecordEvent(record, direction, nowMs);
    }

    /** The record loop of `ingest`. */
    method ProcessRecords(parser: MessageParser, completed: seq<TlsRecord>, direction: Direction, nowMs: nat)
      modifies this
      ensures View() == ProcessAll(parser, old(View()), completed, direction, nowMs)
    {
      hide C.ProcessHandshake, C.ProcessApplicationData, C.ProcessCcs;
      var i := 0;
      while i < |completed|
        invariant 0 <= i <= |completed|
        invariant ProcessAll(parser, View(), completed[i..], direction, nowMs) ==
                  ProcessAll(parser, old(View()), completed, direction, nowMs)
      {
        var record := completed[i];
        assert completed[i..][1..] == completed[i + 1..];
        match record.recordType {
          case Handshake => ProcessHandshake(parser, record, direction, nowMs);
          case ApplicationData => ProcessApplicationData(record, direction, nowMs);
          case ChangeCipherSpec => ProcessCcs(record, direction, nowMs);
          case _ =>
        }
        i := i + 1;
      }
    }

    /** Everything `ingest` does to a connection once it is in the table; the result is the snapshot. */
    method Ingest(parser: MessageParser, direction: Direction, payload: bytes, nowMs: nat) returns (r: ConnectionState)
      requires payload != []
      modifies this
      ensures View() == IngestSegment(parser, old(View()), Segment(direction, payload, nowMs))
      ensures r == View().state
    {
      hide ProcessAll, Peel;
      lastSeenMs := nowMs;
      var buf := if direction == ClientToServer then clientToServerBuf else serverToClientBuf;
      if |buf| + |payload| > MAX_REASSEMBLY_BYTES {
        handshake := handshake.(stage := Errored);
        handshake := handshake.(error := Some(BufferWouldExceed));
        return State();
      }
      buf := buf + payload;
      PeelIsLocated(buf);
      var parsed := ParseRecords(buf);
      if parsed.Err? {
        handshake := handshake.(stage := Errored);
        handshake := handshake.(error := Some(Unparsable(parsed.error)));
        SetBuffer(direction, []);
        return State();
      }
      SetBuffer(direction, buf[parsed.consumed..]);
      ProcessRecords(parser, parsed.records, direction, nowMs);
      return State();
    }

    method SetBuffer(direction: Direction, buf: bytes)
      modifies this`clientToServerBuf, this`serverToClientBuf
      ensures View() == old(View()).WithBuffer(direction, buf)
    {
      if direction == ClientToServer {
        clientToServerBuf := buf;
      } else {
        serverToClientBuf := buf;
      }
    }
  }

  lemma PeelIsLocated(buf: bytes)
    ensures |Peel(buf).rest| <= |buf| && buf[|buf| - |Peel(buf).rest|..] == Peel(buf).rest
  {
    var c := PeelSplits(buf);
  }
}
