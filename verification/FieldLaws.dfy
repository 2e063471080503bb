/**
 The fields shown for a handshake are those of the plaintext messages seen: for each field, the last
 message that carries one decides.
 */
module FieldLaws {
  import opened Wire
  import opened Framing
  import opened Model
  import opened Connection
  import opened History
  import opened Timeline
  import opened TimelineLaws

  /** The value of the last message that carries one. */
  function LastValue<T>(sent: seq<Sent>, field: Sent -> Option<T>): Option<T>
    decreases |sent|
  {
    if sent == [] then None else Or(field(Last(sent)), LastValue(Front(sent), field))
  }

  predicate FromClient(m: Sent) {
    m.message.ClientHelloMsg? && m.direction == ClientToServer
  }

  predicate FromServer(m: Sent) {
    m.message.ServerHelloMsg? && m.direction == ServerToClient
  }

  function Filled<T>(values: seq<T>): Option<seq<T>> {
    if values == [] then None else Some(values)
  }

  function OrEmpty<T>(values: Option<seq<T>>): seq<T> {
    if values.Some? then values.value else []
  }

  const SNI := (m: Sent) => if FromClient(m) then m.message.client.sni else None
  const ALPN_OFFERED := (m: Sent) => if FromClient(m) then Filled(m.message.client.alpnOffered) else None
  const SUITES_OFFERED := (m: Sent) => if FromClient(m) then Filled(m.message.client.cipherSuites) else None
  const GROUPS_OFFERED := (m: Sent) => if FromClient(m) then Filled(m.message.client.groupsOffered) else None
  const KEY_SHARE_GROUP := (m: Sent) =>
    if FromClient(m) then m.message.client.keyShareGroup
    else if FromServer(m) then m.message.server.keyShareGroup
    else None
  const SUITE_SELECTED := (m: Sent) => if FromServer(m) then m.message.server.cipherSuiteSelected else None
  const ALPN_SELECTED := (m: Sent) => if FromServer(m) then m.message.server.alpnSelected else None

  ghost predicate FieldsMatch(hs: HandshakeInfo, sent: seq<Sent>) {
    && hs.sni == LastValue(sent, SNI)
    && hs.alpnOffered == OrEmpty(LastValue(sent, ALPN_OFFERED))
    && hs.cipherSuitesOffered == OrEmpty(LastValue(sent, SUITES_OFFERED))
    && hs.groupsOffered == OrEmpty(LastValue(sent, GROUPS_OFFERED))
    && hs.keyShareGroup == LastValue(sent, KEY_SHARE_GROUP)
    && hs.cipherSuiteSelected == LastValue(sent, SUITE_SELECTED)
    && hs.alpnSelected == LastValue(sent, ALPN_SELECTED)
  }

  /** The value is that of the message `i`, after which none carries one; there is none if no message does. */
  lemma {:induction false} LastCarrier<T>(sent: seq<Sent>, field: Sent -> Option<T>) returns (i: int)
    ensures -1 <= i < |sent| && forall j :: i < j < |sent| ==> field(sent[j]).None?
    ensures if i < 0 then LastValue(sent, field).None? else LastValue(sent, field) == field(sent[i]) != None
    decreases |sent|
  {
    if sent == [] {
      i := -1;
    } else if field(Last(sent)).Some? {
      i := |sent| - 1;
    } else {
      i := LastCarrier(Front(sent), field);
      assert forall j :: 0 <= j < |Front(sent)| ==> Front(sent)[j] == sent[j];
    }
  }

  lemma LastValueSnoc<T>(sent: seq<Sent>, m: Sent, field: Sent -> Option<T>)
    ensures LastValue(sent + [m], field) == Or(field(m), LastValue(sent, field))
  {
  }

  /** Message `m` moves the fields: those it carries replace, the others stay. */
  ghost predicate FieldsMove(a: HandshakeInfo, m: Sent, b: HandshakeInfo) {
    && b.sni == Or(SNI(m), a.sni)
    && b.alpnOffered == OrEmpty(Or(ALPN_OFFERED(m), Some(a.alpnOffered)))
    && b.cipherSuitesOffered == OrEmpty(Or(SUITES_OFFERED(m), Some(a.cipherSuitesOffered)))
    && b.groupsOffered == OrEmpty(Or(GROUPS_OFFERED(m), Some(a.groupsOffered)))
    && b.keyShareGroup == Or(KEY_SHARE_GROUP(m), a.keyShareGroup)
    && b.cipherSuiteSelected == Or(SUITE_SELECTED(m), a.cipherSuiteSelected)
    && b.alpnSelected == Or(ALPN_SELECTED(m), a.alpnSelected)
  }

  lemma MessageMoves(hs: HandshakeInfo, message: HandshakeMessage, d: Direction)
    ensures FieldsMove(hs, Sent(message, d), ApplyMessage(hs, message, d))
  {
    match (message, d)
    case (ClientHelloMsg(_), ClientToServer) =>
    case (ServerHelloMsg(_), ServerToClient) =>
    case _ =>
  }

  lemma MovedFields(a: HandshakeInfo, sent: seq<Sent>, m: Sent, b: HandshakeInfo)
    requires FieldsMatch(a, sent) && FieldsMove(a, m, b)
    ensures FieldsMatch(b, sent + [m])
  {
    hide LastValue;
    LastValueSnoc(sent, m, SNI);
    LastValueSnoc(sent, m, ALPN_OFFERED);
    LastValueSnoc(sent, m, SUITES_OFFERED);
    LastValueSnoc(sent, m, GROUPS_OFFERED);
    LastValueSnoc(sent, m, KEY_SHARE_GROUP);
    LastValueSnoc(sent, m, SUITE_SELECTED);
    LastValueSnoc(sent, m, ALPN_SELECTED);
  }

  lemma {:induction false} MessagesFields(hs: HandshakeInfo, sent: seq<Sent>, messages: seq<HandshakeMessage>,
                                          d: Direction)
    requires FieldsMatch(hs, sent)
    ensures FieldsMatch(ApplyMessages(hs, messages, d), sent + SentBy(messages, d))
    decreases |messages|
  {
    hide FieldsMatch, FieldsMove, ApplyMessage;
    if messages == [] {
      assert sent + SentBy(messages, d) == sent;
    } else {
      MessageMoves(hs, messages[0], d);
      MovedFields(hs, sent, Sent(messages[0], d), ApplyMessage(hs, messages[0], d));
      MessagesFields(ApplyMessage(hs, messages[0], d), sent + [Sent(messages[0], d)], messages[1..], d);
      assert sent + [Sent(messages[0], d)] + SentBy(messages[1..], d) == sent + SentBy(messages, d);
    }
  }

  /** The message fields of two handshakes agree. */
  ghost predicate SameFields(a: HandshakeInfo, b: HandshakeInfo) {
    a.sni == b.sni && a.alpnOffered == b.alpnOffered && a.cipherSuitesOffered == b.cipherSuitesOffered &&
    a.groupsOffered == b.groupsOffered && a.keyShareGroup == b.keyShareGroup &&
    a.cipherSuiteSelected == b.cipherSuiteSelected && a.alpnSelected == b.alpnSelected
  }

  lemma SameFieldsMatch(a: HandshakeInfo, b: HandshakeInfo, sent: seq<Sent>)
    requires SameFields(a, b) && FieldsMatch(a, sent)
    ensures FieldsMatch(b, sent)
  {
  }

  lemma EncryptedSameFields(c: Tracked, d: Direction)
    ensures SameFields(c.state.handshake, ApplyEncrypted(c, d).state.handshake)
  {
    if Before13(c.state.handshake.tlsVersion) {
    } else if d == ServerToClient {
      if c.state.handshake.certificateSubject.None? {
      } else {
      }
    } else if c.encryptedFromServer > 0 {
    } else {
    }
  }

  /** A record that is not a plaintext handshake record leaves the message fields alone. */
  lemma StepSameFields(parser: MessageParser, c: Tracked, s: Step)
    requires s.record.recordType == Handshake ==> c.Ccs(s.direction)
    ensures SameFields(c.state.handshake, ProcessStep(parser, c, s).state.handshake)
  {
    hide ProcessStep, ApplyEncrypted;
    StepParts(parser, c, s);
    match s.record.recordType {
      case ApplicationData => EncryptedSameFields(c, s.direction);
      case _ =>
    }
  }

  lemma StepFields(parser: MessageParser, c: Tracked, h: seq<Step>)
    requires h != [] && CountersMatch(parser, c, Front(h)) && FieldsMatch(c.state.handshake, Applied(parser, Front(h)))
    ensures FieldsMatch(ProcessStep(parser, c, Last(h)).state.handshake, Applied(parser, h))
  {
    hide ProcessStep, ApplyEncrypted, Messages, ApplyMessages, FieldsMatch, VersionOf;
    var s := Last(h);
    StepParts(parser, c, s);
    if s.record.recordType == Handshake && !CcsIn(Front(h), s.direction) {
      MessagesFields(c.state.handshake, Applied(parser, Front(h)), Messages(parser, s.record.payload), s.direction);
    } else {
      AppliedUnmoved(parser, h);
      StepSameFields(parser, c, s);
      SameFieldsMatch(c.state.handshake, ProcessStep(parser, c, s).state.handshake, Applied(parser, h));
    }
  }

  lemma {:induction false} StepsFields(parser: MessageParser, key: ConnectionKey, nowMs: nat, origin: Option<Origin>,
                                       h: seq<Step>)
    ensures FieldsMatch(RunSteps(parser, Born(key, nowMs, origin), h).state.handshake, Applied(parser, h))
    decreases |h|
  {
    if h == [] {
    } else {
      hide ProcessStep, CountersMatch, TimelineMatches, FieldsMatch, Applied;
      StepsFields(parser, key, nowMs, origin, Front(h));
      StepsMatch(parser, key, nowMs, origin, Front(h));
      StepFields(parser, RunSteps(parser, Born(key, nowMs, origin), Front(h)), h);
    }
  }

  /**
   In every reachable state each field of the handshake is the one carried by the last plaintext message
   of the right kind and direction that carries it.
   */
  lemma FieldsOfRun(parser: MessageParser, key: ConnectionKey, nowMs: nat, origin: Option<Origin>,
                    segments: seq<Segment>)
    ensures var born := Born(key, nowMs, origin);
            FieldsMatch(Run(parser, born, segments).state.handshake, Applied(parser, Completed(parser, born, segments)))
  {
    hide RunSteps, Run, Completed, FieldsMatch, Applied;
    var born := Born(key, nowMs, origin);
    var h := Completed(parser, born, segments);
    RunCore(parser, born, segments);
    StepsFields(parser, key, nowMs, origin, h);
    assert Core(Run(parser, born, segments)) == Core(RunSteps(parser, born, h));
    SameFieldsMatch(RunSteps(parser, born, h).state.handshake, Run(parser, born, segments).state.handshake,
                    Applied(parser, h));
  }
}
