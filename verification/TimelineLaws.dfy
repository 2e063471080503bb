/**
 The timeline a connection holds is the one its completed records call for, in every reachable state,
 and what follows from that.
 */
module TimelineLaws {
  import opened Wire
  import opened Framing
  import opened Hello
  import opened Model
  import opened Connection
  import opened History
  import opened Timeline

  /** A connection as it is created: nothing seen, its origin settled. */
  function Born(key: ConnectionKey, nowMs: nat, origin: Option<Origin>): Tracked {
    NewConnection(key, nowMs).WithHandshake(NEW_HANDSHAKE.(origin := origin))
  }

  /** The counters and flags say what the completed records say. */
  ghost predicate CountersMatch(parser: MessageParser, c: Tracked, h: seq<Step>) {
    && c.clientCcsSeen == CcsIn(h, ClientToServer)
    && c.serverCcsSeen == CcsIn(h, ServerToClient)
    && c.state.handshake.tlsVersion == VersionOf(Applied(parser, h))
    && c.encryptedFromServer == ServerFlight(parser, h)
    && c.encryptedFromClient == ClientFlight(parser, h)
    && c.postCcsFromClient == PostCcs(h, ClientToServer)
    && c.postCcsFromServer == PostCcs(h, ServerToClient)
  }

  ghost predicate TimelineMatches(parser: MessageParser, c: Tracked, h: seq<Step>) {
    c.state.records == Log(parser, h) && c.seqCounter == |c.state.records| && c.stopLogging == Over(parser, h)
  }

  // ----- histories one record longer

  lemma CcsSnoc(h: seq<Step>, d: Direction)
    requires h != []
    ensures CcsIn(h, d) <==> CcsIn(Front(h), d) || IsCcs(Last(h), d)
  {
  }

  ghost predicate Ended(h: seq<Step>) {
    exists i :: 0 <= i < |h| && EndsHandshake(h, i)
  }

  lemma EndedSnoc(h: seq<Step>)
    requires h != []
    ensures Ended(h) <==> Ended(Front(h)) || EndsHandshake(h, |h| - 1)
  {
    var f := Front(h);
    assert h[..|h| - 1] == f;
    forall i | 0 <= i < |f|
      ensures EndsHandshake(f, i) <==> EndsHandshake(h, i)
    {
      assert f[..i] == h[..i];
    }
  }

  // ----- the version

  lemma {:induction false} FirstClientSnoc(sent: seq<Sent>, m: Sent)
    ensures FirstClientVersion(sent + [m]) == Or(FirstClientVersion(sent), ClientVersion(m))
    decreases |sent|
  {
    if sent == [] {
      assert [m][1..] == [];
    } else {
      FirstClientSnoc(sent[1..], m);
      assert (sent + [m])[1..] == sent[1..] + [m];
    }
  }

  /** The ServerHello `i` names a version and none after it does; or none does at all. */
  lemma {:induction false} LastServer(sent: seq<Sent>) returns (i: int)
    ensures -1 <= i < |sent| && forall j :: i < j < |sent| ==> ServerVersion(sent[j]).None?
    ensures if i < 0 then LastServerVersion(sent).None? else LastServerVersion(sent) == ServerVersion(sent[i]) != None
    decreases |sent|
  {
    if sent == [] {
      i := -1;
    } else if ServerVersion(Last(sent)).Some? {
      i := |sent| - 1;
    } else {
      i := LastServer(Front(sent));
      assert forall j :: 0 <= j < |Front(sent)| ==> Front(sent)[j] == sent[j];
    }
  }

  /** The ClientHello `i` offers a version and none before it does; or none does at all. */
  lemma {:induction false} FirstClient(sent: seq<Sent>) returns (i: nat)
    ensures i <= |sent| && forall j :: 0 <= j < i ==> ClientVersion(sent[j]).None?
    ensures if i == |sent| then FirstClientVersion(sent).None?
            else FirstClientVersion(sent) == ClientVersion(sent[i]) != None
    decreases |sent|
  {
    if sent == [] || ClientVersion(sent[0]).Some? {
      i := 0;
    } else {
      i := FirstClient(sent[1..]);
      i := i + 1;
      assert forall j :: 1 <= j < |sent| ==> sent[j] == sent[1..][j - 1];
    }
  }

  lemma VersionIsSettled(sent: seq<Sent>)
    ensures VersionOf(sent) ==
            if LastServerVersion(sent) != None then LastServerVersion(sent) else FirstClientVersion(sent)
  {
  }

  /** One more message moves the version as merging it does. */
  lemma VersionSnoc(hs: HandshakeInfo, sent: seq<Sent>, message: HandshakeMessage, d: Direction)
    requires hs.tlsVersion == VersionOf(sent)
    ensures ApplyMessage(hs, message, d).tlsVersion == VersionOf(sent + [Sent(message, d)])
  {
    FirstClientSnoc(sent, Sent(message, d));
    assert Front(sent + [Sent(message, d)]) == sent;
  }

  lemma {:induction false} VersionAppend(hs: HandshakeInfo, sent: seq<Sent>, messages: seq<HandshakeMessage>,
                                         d: Direction)
    requires hs.tlsVersion == VersionOf(sent)
    ensures ApplyMessages(hs, messages, d).tlsVersion == VersionOf(sent + SentBy(messages, d))
    decreases |messages|
  {
    if messages == [] {
      assert sent + SentBy(messages, d) == sent;
    } else {
      VersionSnoc(hs, sent, messages[0], d);
      VersionAppend(ApplyMessage(hs, messages[0], d), sent + [Sent(messages[0], d)], messages[1..], d);
      assert sent + [Sent(messages[0], d)] + SentBy(messages[1..], d) == sent + SentBy(messages, d);
    }
  }

  /** Records other than plaintext handshake records apply no message. */
  lemma AppliedUnmoved(parser: MessageParser, h: seq<Step>)
    requires h != [] && (Last(h).record.recordType == Handshake ==> CcsIn(Front(h), Last(h).direction))
    ensures Applied(parser, h) == Applied(parser, Front(h))
  {
  }

  /** A record other than application data moves no flight, and ends logging only as a sealed handshake record. */
  lemma FlightsUnmoved(parser: MessageParser, h: seq<Step>)
    requires h != [] && Last(h).record.recordType != ApplicationData
    ensures ServerFlight(parser, h) == ServerFlight(parser, Front(h))
    ensures ClientFlight(parser, h) == ClientFlight(parser, Front(h))
    ensures Over(parser, h) <==>
            Over(parser, Front(h)) || (BothCcsIn(Front(h)) && Last(h).record.recordType == Handshake)
  {
    hide BothCcsIn;
    EndedSnoc(h);
    assert h[..|h| - 1] == Front(h);
  }

  // ----- one record

  lemma PreviewIsHead(payload: bytes)
    ensures Preview(payload) == Head(payload)
  {
  }


  /** Pushing keeps the record exactly when the history says so, and shows what it says. */
  lemma PushMatches(parser: MessageParser, x: Tracked, h: seq<Step>) returns (y: Tracked)
    requires h != [] && Loggable(Last(h))
    requires x.state.records == Log(parser, Front(h)) && x.seqCounter == |x.state.records|
    requires x.stopLogging == Over(parser, if Last(h).record.recordType == ApplicationData then h else Front(h))
    requires BuildBody(Last(h).record, Last(h).direction, x) == BodyAt(parser, h)
    ensures y == PushRecordEvent(x, Last(h).record, Last(h).direction, Last(h).nowMs)
    ensures y.state.records == Log(parser, h) && y.seqCounter == |y.state.records|
    ensures y == x.(seqCounter := y.seqCounter, state := x.state.(records := y.state.records))
  {
    hide Over, HandshakeBody, EncodeRecord, BodyAt, Preview, Head;
    var s := Last(h);
    y := PushRecordEvent(x, s.record, s.direction, s.nowMs);
    assert |x.state.records| <= 64;
    assert BuildBody(s.record, s.direction, x.(seqCounter := SaturatingNext(x.seqCounter))) ==
           BuildBody(s.record, s.direction, x);
  }

  /** A plaintext handshake record. */
  lemma HandshakeMatches(parser: MessageParser, c: Tracked, h: seq<Step>)
    requires h != [] && Last(h).record.recordType == Handshake && !CcsIn(Front(h), Last(h).direction)
    requires CountersMatch(parser, c, Front(h)) && TimelineMatches(parser, c, Front(h))
    ensures CountersMatch(parser, ProcessStep(parser, c, Last(h)), h)
    ensures TimelineMatches(parser, ProcessStep(parser, c, Last(h)), h)
  {
    hide PushRecordEvent, Messages, ApplyMessages, Log, HandshakeBody, Over, ServerFlight, ClientFlight, VersionOf;
    var s, messages := Last(h), Messages(parser, Last(h).record.payload);
    CcsSnoc(h, ClientToServer);
    CcsSnoc(h, ServerToClient);
    FlightsUnmoved(parser, h);
    VersionAppend(c.state.handshake, Applied(parser, Front(h)), messages, s.direction);
    var x := c.WithHandshake(ApplyMessages(c.state.handshake, messages, s.direction));
    var y := PushMatches(parser, x, h);
    assert ProcessStep(parser, c, s) == y;
  }

  /** A handshake record after the ChangeCipherSpec of its side. */
  lemma SealedHandshakeMatches(parser: MessageParser, c: Tracked, h: seq<Step>)
    requires h != [] && Last(h).record.recordType == Handshake && CcsIn(Front(h), Last(h).direction)
    requires CountersMatch(parser, c, Front(h)) && TimelineMatches(parser, c, Front(h))
    ensures CountersMatch(parser, ProcessStep(parser, c, Last(h)), h)
    ensures TimelineMatches(parser, ProcessStep(parser, c, Last(h)), h)
  {
    hide PushRecordEvent, Log, HandshakeBody, Preview, Head, Over, ServerFlight, ClientFlight, VersionOf, Applied;
    CcsSnoc(h, ClientToServer);
    CcsSnoc(h, ServerToClient);
    FlightsUnmoved(parser, h);
    AppliedUnmoved(parser, h);
    PreviewIsHead(Last(h).record.payload);
    var y := PushMatches(parser, c, h);
  }

  lemma EncryptedCounters(parser: MessageParser, c: Tracked, h: seq<Step>)
    requires h != [] && Last(h).record.recordType == ApplicationData && CountersMatch(parser, c, Front(h))
    ensures CountersMatch(parser, ApplyEncrypted(c, Last(h).direction), h)
    ensures var x := ApplyEncrypted(c, Last(h).direction);
            x.state.records == c.state.records && x.seqCounter == c.seqCounter && x.stopLogging == c.stopLogging
  {
    hide VersionOf, Applied, CcsIn;
    CcsSnoc(h, ClientToServer);
    CcsSnoc(h, ServerToClient);
    AppliedUnmoved(parser, h);
    if Before13(c.state.handshake.tlsVersion) {
    } else if Last(h).direction == ServerToClient {
    } else if c.encryptedFromServer > 0 {
    } else {
    }
  }

  /** The label computed from the counters is the one for the place in the flight. */
  lemma EncryptedBody(parser: MessageParser, x: Tracked, h: seq<Step>)
    requires h != [] && Last(h).record.recordType == ApplicationData && CountersMatch(parser, x, h)
    ensures BuildBody(Last(h).record, Last(h).direction, x) == BodyAt(parser, h)
  {
    hide HandshakeBody, Preview, Head, VersionOf, Applied, ServerFlight, ClientFlight;
    PreviewIsHead(Last(h).record.payload);
  }

  lemma ApplicationDataMatches(parser: MessageParser, c: Tracked, h: seq<Step>)
    requires h != [] && Last(h).record.recordType == ApplicationData
    requires CountersMatch(parser, c, Front(h)) && TimelineMatches(parser, c, Front(h))
    ensures CountersMatch(parser, ProcessStep(parser, c, Last(h)), h)
    ensures TimelineMatches(parser, ProcessStep(parser, c, Last(h)), h)
  {
    hide PushRecordEvent, ApplyEncrypted, BuildBody, BodyAt, Log, Applied, VersionOf;
    EndedSnoc(h);
    assert h[..|h| - 1] == Front(h);
    CcsSnoc(h, ClientToServer);
    CcsSnoc(h, ServerToClient);
    EncryptedCounters(parser, c, h);
    var x := ApplyEncrypted(c, Last(h).direction);
    var stopped := x.(stopLogging := x.stopLogging || x.encryptedFromClient >= 2 || x.BothCcs());
    assert CountersMatch(parser, stopped, h);
    EncryptedBody(parser, stopped, h);
    var y := PushMatches(parser, stopped, h);
  }

  lemma CcsMatches(parser: MessageParser, c: Tracked, h: seq<Step>)
    requires h != [] && Last(h).record.recordType == ChangeCipherSpec
    requires CountersMatch(parser, c, Front(h)) && TimelineMatches(parser, c, Front(h))
    ensures CountersMatch(parser, ProcessStep(parser, c, Last(h)), h)
    ensures TimelineMatches(parser, ProcessStep(parser, c, Last(h)), h)
  {
    hide PushRecordEvent, Log, VersionOf, Over, ServerFlight, ClientFlight, Applied;
    CcsSnoc(h, ClientToServer);
    CcsSnoc(h, ServerToClient);
    FlightsUnmoved(parser, h);
    AppliedUnmoved(parser, h);
    var d := Last(h).direction;
    var applied := c.WithHandshake(ApplyCcs(c.state.handshake, d));
    var marked := if d == ClientToServer then applied.(clientCcsSeen := true) else applied.(serverCcsSeen := true);
    var y := PushMatches(parser, marked, h);
  }

  lemma OtherMatches(parser: MessageParser, c: Tracked, h: seq<Step>)
    requires h != [] && !Loggable(Last(h))
    requires CountersMatch(parser, c, Front(h)) && TimelineMatches(parser, c, Front(h))
    ensures CountersMatch(parser, ProcessStep(parser, c, Last(h)), h)
    ensures TimelineMatches(parser, ProcessStep(parser, c, Last(h)), h)
  {
    hide VersionOf, Over, ServerFlight, ClientFlight, Applied;
    CcsSnoc(h, ClientToServer);
    CcsSnoc(h, ServerToClient);
    FlightsUnmoved(parser, h);
    AppliedUnmoved(parser, h);
  }

  // ----- every reachable state

  lemma StepMatches(parser: MessageParser, c: Tracked, h: seq<Step>)
    requires h != [] && CountersMatch(parser, c, Front(h)) && TimelineMatches(parser, c, Front(h))
    ensures CountersMatch(parser, ProcessStep(parser, c, Last(h)), h)
    ensures TimelineMatches(parser, ProcessStep(parser, c, Last(h)), h)
  {
    hide ProcessStep, CountersMatch, TimelineMatches;
    match Last(h).record.recordType {
      case Handshake =>
        if CcsIn(Front(h), Last(h).direction) {
          SealedHandshakeMatches(parser, c, h);
        } else {
          HandshakeMatches(parser, c, h);
        }
      case ApplicationData => ApplicationDataMatches(parser, c, h);
      case ChangeCipherSpec => CcsMatches(parser, c, h);
      case _ => OtherMatches(parser, c, h);
    }
  }

  lemma {:induction false} StepsMatch(parser: MessageParser, key: ConnectionKey, nowMs: nat, origin: Option<Origin>,
                                      h: seq<Step>)
    ensures var c := RunSteps(parser, Born(key, nowMs, origin), h);
            CountersMatch(parser, c, h) && TimelineMatches(parser, c, h)
    decreases |h|
  {
    hide ProcessStep;
    if h == [] {
    } else {
      StepsMatch(parser, key, nowMs, origin, Front(h));
      StepMatches(parser, RunSteps(parser, Born(key, nowMs, origin), Front(h)), h);
    }
  }

  /**
   After any run of segments from the creation of a connection, failures included, its counters, its
   negotiated version and its whole timeline are functions of the records completed so far.
   */
  lemma TimelineOfRun(parser: MessageParser, key: ConnectionKey, nowMs: nat, origin: Option<Origin>,
                      segments: seq<Segment>)
    ensures var c := Run(parser, Born(key, nowMs, origin), segments);
            var h := Completed(parser, Born(key, nowMs, origin), segments);
            CountersMatch(parser, c, h) && TimelineMatches(parser, c, h)
  {
    hide Log, Over, VersionOf, Applied, RunSteps, Run, Completed;
    var born := Born(key, nowMs, origin);
    var h := Completed(parser, born, segments);
    RunCore(parser, born, segments);
    StepsMatch(parser, key, nowMs, origin, h);
    assert Core(Run(parser, born, segments)) == Core(RunSteps(parser, born, h));
  }
}
