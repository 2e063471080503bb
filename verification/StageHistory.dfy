/**
 The stage shown for a connection, said from what happened to it: the last event that sets one decides.
 */
module StageHistory {
  import opened Wire
  import opened Framing
  import opened Model
  import opened Connection
  import opened History
  import opened Timeline
  import opened TimelineLaws
  import StageLaws
  import RecordLaws

  // ----- what may set the stage

  datatype Cue =
    | Said(sent: Sent)
    | Switched(direction: Direction)
    | Flowed(stage: HandshakeStage)
    | Failed

  /** The stage that a plaintext message sets, given those before it. */
  function StageSet(m: Sent, earlier: seq<Sent>): Option<HandshakeStage> {
    match (m.message, m.direction)
    case (ClientHelloMsg(_), ClientToServer) => Some(ClientHelloSeen)
    case (ServerHelloMsg(_), ServerToClient) => Some(ServerHelloSeen)
    case (CertificateMsg, ServerToClient) =>
      if VersionOf(earlier) == None || IsOld(VersionOf(earlier)) then Some(ServerCertificate) else None
    case (ServerKeyExchangeMsg, _) => Some(ServerKeyExchange)
    case (ServerDoneMsg, _) => Some(ServerHelloDone)
    case (ClientKeyExchangeMsg, ClientToServer) => Some(ClientKeyExchange)
    case _ => None
  }

  /** The stage that an application record sets, by its place in the flight. */
  function StageFlowed(parser: MessageParser, h: seq<Step>): Option<HandshakeStage>
    requires h != []
  {
    if Before13At(parser, h) then Some(ApplicationDataFlowing)
    else if Last(h).direction == ServerToClient then
      Some(if ClientFlight(parser, h) >= 1 then ApplicationDataFlowing
           else if ServerFlight(parser, h) <= 3 then Certificate else ServerFinished)
    else if ServerFlight(parser, h) == 0 then None
    else Some(if ClientFlight(parser, h) == 1 then ClientFinished else ApplicationDataFlowing)
  }

  function Saids(sent: seq<Sent>): (cues: seq<Cue>)
    ensures |cues| == |sent|
  {
    seq(|sent|, i requires 0 <= i < |sent| => Said(sent[i]))
  }

  function SentIn(cues: seq<Cue>): seq<Sent>
    decreases |cues|
  {
    if cues == [] then [] else SentIn(Front(cues)) + if Last(cues).Said? then [Last(cues).sent] else []
  }

  /** What the last of these records has to say about the stage. */
  function StepCues(parser: MessageParser, h: seq<Step>): seq<Cue>
    requires h != []
  {
    var s := Last(h);
    match s.record.recordType
    case Handshake =>
      if CcsIn(Front(h), s.direction) then [] else Saids(SentBy(Messages(parser, s.record.payload), s.direction))
    case ApplicationData => if StageFlowed(parser, h).Some? then [Flowed(StageFlowed(parser, h).value)] else []
    case ChangeCipherSpec => [Switched(s.direction)]
    case _ => []
  }

  function CuesFrom(parser: MessageParser, h: seq<Step>, steps: seq<Step>): seq<Cue>
    decreases |steps|
  {
    if steps == [] then [] else CuesFrom(parser, h, Front(steps)) + StepCues(parser, h + steps)
  }

  /** What a run has to say: the cues of its records, and its failures. */
  function RunCues(parser: MessageParser, c: Tracked, segments: seq<Segment>): seq<Cue>
    decreases |segments|
  {
    if segments == [] then []
    else
      var before, s := Run(parser, c, Front(segments)), Last(segments);
      RunCues(parser, c, Front(segments)) +
      if Fails(before, s) then [Failed] else CuesFrom(parser, Completed(parser, c, Front(segments)), StepsOf(before, s))
  }

  /** The last cue that sets a stage decides; a ChangeCipherSpec only moves on from the stage before it. */
  function StageShown(cues: seq<Cue>): HandshakeStage
    decreases |cues|
  {
    if cues == [] then Idle
    else
      var before := StageShown(Front(cues));
      match Last(cues)
      case Said(m) =>
        var sets := StageSet(m, SentIn(Front(cues)));
        if sets.Some? then sets.value else before
      case Switched(ClientToServer) => if before == ClientKeyExchange then ClientFinished else before
      case Switched(ServerToClient) => if before == ClientFinished then ServerFinished else before
      case Flowed(stage) => stage
      case Failed => Errored
  }

  // ----- the connection follows its cues

  ghost predicate Follows(parser: MessageParser, c: Tracked, h: seq<Step>, cues: seq<Cue>) {
    && c.state.handshake.stage == StageShown(cues) && SentIn(cues) == Applied(parser, h)
    && CountersMatch(parser, c, h) && TimelineMatches(parser, c, h)
    && (c.sawClientFinished <==> ClientFlight(parser, h) >= 1)
  }

  lemma Snoc(cues: seq<Cue>, cue: Cue)
    ensures Front(cues + [cue]) == cues && Last(cues + [cue]) == cue
    ensures SentIn(cues + [cue]) == SentIn(cues) + if cue.Said? then [cue.sent] else []
  {
    assert Front(cues + [cue]) == cues;
  }

  lemma MessageSets(hs: HandshakeInfo, message: HandshakeMessage, d: Direction, earlier: seq<Sent>)
    requires hs.tlsVersion == VersionOf(earlier)
    ensures var sets := StageSet(Sent(message, d), earlier);
            ApplyMessage(hs, message, d).stage == if sets.Some? then sets.value else hs.stage
  {
    hide VersionOf;
    match (message, d)
    case (ClientHelloMsg(_), ClientToServer) =>
    case (ServerHelloMsg(_), ServerToClient) =>
    case _ =>
  }

  lemma {:induction false} MessagesFollow(hs: HandshakeInfo, messages: seq<HandshakeMessage>, d: Direction,
                                          cues: seq<Cue>)
    requires hs.tlsVersion == VersionOf(SentIn(cues)) && hs.stage == StageShown(cues)
    ensures var all := cues + Saids(SentBy(messages, d));
            ApplyMessages(hs, messages, d).stage == StageShown(all) && SentIn(all) == SentIn(cues) + SentBy(messages, d)
    decreases |messages|
  {
    hide VersionOf, ApplyMessage, StageSet, SentIn;
    if messages == [] {
      assert cues + Saids(SentBy(messages, d)) == cues;
      assert SentIn(cues) + SentBy(messages, d) == SentIn(cues);
    } else {
      var m := Sent(messages[0], d);
      Snoc(cues, Said(m));
      MessageSets(hs, messages[0], d, SentIn(cues));
      VersionSnoc(hs, SentIn(cues), messages[0], d);
      MessagesFollow(ApplyMessage(hs, messages[0], d), messages[1..], d, cues + [Said(m)]);
      assert cues + [Said(m)] + Saids(SentBy(messages[1..], d)) == cues + Saids(SentBy(messages, d));
      assert SentIn(cues) + [m] + SentBy(messages[1..], d) == SentIn(cues) + SentBy(messages, d);
    }
  }

  lemma HandshakeFollows(parser: MessageParser, c: Tracked, h: seq<Step>, cues: seq<Cue>)
    requires h != [] && Last(h).record.recordType == Handshake && Follows(parser, c, Front(h), cues)
    ensures var after := HandshakeAfter(parser, c, Last(h));
            after.stage == StageShown(cues + StepCues(parser, h)) &&
            SentIn(cues + StepCues(parser, h)) == Applied(parser, h)
  {
    hide StageShown, SentIn, VersionOf, TimelineMatches, Messages, ApplyMessages, ServerFlight, ClientFlight;
    var s := Last(h);
    if CcsIn(Front(h), s.direction) {
      assert cues + StepCues(parser, h) == cues;
      AppliedUnmoved(parser, h);
    } else {
      MessagesFollow(c.state.handshake, Messages(parser, s.record.payload), s.direction, cues);
    }
  }

  lemma CcsFollows(parser: MessageParser, c: Tracked, h: seq<Step>, cues: seq<Cue>)
    requires h != [] && Last(h).record.recordType == ChangeCipherSpec && Follows(parser, c, Front(h), cues)
    ensures var after := HandshakeAfter(parser, c, Last(h));
            after.stage == StageShown(cues + StepCues(parser, h)) &&
            SentIn(cues + StepCues(parser, h)) == Applied(parser, h)
  {
    hide SentIn, VersionOf, TimelineMatches, CountersMatch, ServerFlight, ClientFlight;
    Snoc(cues, Switched(Last(h).direction));
    AppliedUnmoved(parser, h);
    assert SentIn(cues) + [] == SentIn(cues);
  }

  lemma StageOfFlow(parser: MessageParser, c: Tracked, h: seq<Step>)
    requires h != [] && Last(h).record.recordType == ApplicationData
    requires CountersMatch(parser, c, Front(h)) && TimelineMatches(parser, c, Front(h))
    requires c.sawClientFinished <==> ClientFlight(parser, Front(h)) >= 1
    ensures var sets := StageFlowed(parser, h);
            ProcessStep(parser, c, Last(h)).state.handshake.stage ==
            if sets.Some? then sets.value else c.state.handshake.stage
    ensures ProcessStep(parser, c, Last(h)).sawClientFinished <==> ClientFlight(parser, h) >= 1
  {
    hide ProcessStep, VersionOf, TimelineMatches, Applied, CcsIn, RecordLaws.AddsOnly;
    AppliedUnmoved(parser, h);
    StepMatches(parser, c, h);
    RecordLaws.RecordActs(parser, c, Last(h));
  }

  lemma FlowFollows(parser: MessageParser, c: Tracked, h: seq<Step>, cues: seq<Cue>)
    requires h != [] && Last(h).record.recordType == ApplicationData && Follows(parser, c, Front(h), cues)
    ensures ProcessStep(parser, c, Last(h)).state.handshake.stage == StageShown(cues + StepCues(parser, h))
    ensures SentIn(cues + StepCues(parser, h)) == Applied(parser, h)
  {
    hide ProcessStep, SentIn, VersionOf, TimelineMatches, Applied;
    AppliedUnmoved(parser, h);
    StageOfFlow(parser, c, h);
    if StageFlowed(parser, h).Some? {
      Snoc(cues, Flowed(StageFlowed(parser, h).value));
    } else {
      assert cues + StepCues(parser, h) == cues;
    }
    assert SentIn(cues) + [] == SentIn(cues);
  }

  lemma StepFollows(parser: MessageParser, c: Tracked, h: seq<Step>, cues: seq<Cue>)
    requires h != [] && Follows(parser, c, Front(h), cues)
    ensures Follows(parser, ProcessStep(parser, c, Last(h)), h, cues + StepCues(parser, h))
  {
    hide ProcessStep, StageShown, SentIn, Applied, CountersMatch, TimelineMatches, ClientFlight, ApplyEncrypted,
         ApplyCcs;
    StepMatches(parser, c, h);
    StepParts(parser, c, Last(h));
    match Last(h).record.recordType {
      case Handshake =>
        HandshakeFollows(parser, c, h, cues);
        FlightsUnmoved(parser, h);
      case ApplicationData =>
        FlowFollows(parser, c, h, cues);
        StageOfFlow(parser, c, h);
      case ChangeCipherSpec =>
        CcsFollows(parser, c, h, cues);
        FlightsUnmoved(parser, h);
      case _ =>
        assert cues + StepCues(parser, h) == cues;
        AppliedUnmoved(parser, h);
        FlightsUnmoved(parser, h);
    }
  }

  lemma {:induction false} StepsFollow(parser: MessageParser, c: Tracked, h: seq<Step>, steps: seq<Step>,
                                       cues: seq<Cue>)
    requires Follows(parser, c, h, cues)
    ensures Follows(parser, RunSteps(parser, c, steps), h + steps, cues + CuesFrom(parser, h, steps))
    decreases |steps|
  {
    hide ProcessStep, Follows, StepCues;
    if steps == [] {
      assert h + steps == h && cues + CuesFrom(parser, h, steps) == cues;
    } else {
      StepsFollow(parser, c, h, Front(steps), cues);
      assert Front(h + steps) == h + Front(steps) && Last(h + steps) == Last(steps);
      StepFollows(parser, RunSteps(parser, c, Front(steps)), h + steps, cues + CuesFrom(parser, h, Front(steps)));
      assert cues + CuesFrom(parser, h, steps) ==
             cues + CuesFrom(parser, h, Front(steps)) + StepCues(parser, h + steps);
    }
  }

  // ----- every reachable state

  lemma SameCore(parser: MessageParser, c: Tracked, d: Tracked, h: seq<Step>, cues: seq<Cue>)
    requires Follows(parser, c, h, cues) && Core(d) == Core(c) && d.state.handshake.stage == c.state.handshake.stage
    ensures Follows(parser, d, h, cues)
  {
    hide StageShown, SentIn, Applied, VersionOf, Log, Over, ServerFlight, ClientFlight, Timeline.PostCcs;
  }

  lemma SegmentFollows(parser: MessageParser, c: Tracked, s: Segment, h: seq<Step>, cues: seq<Cue>)
    requires Follows(parser, c, h, cues)
    ensures Follows(parser, IngestSegment(parser, c, s), h + StepsOf(c, s),
                    cues + if Fails(c, s) then [Failed] else CuesFrom(parser, h, StepsOf(c, s)))
  {
    hide IngestSegment, Follows, Peel, ProcessAll, AsSteps, Fails, RunSteps, Core;
    if Fails(c, s) {
      FailedIngest(parser, c, s);
      StageLaws.SegmentError(parser, c, s);
      FailureFollows(parser, c, IngestSegment(parser, c, s), h, cues);
      assert h + [] == h;
    } else if s.payload == [] {
      EmptyIngest(parser, c, s);
      assert h + [] == h && cues + [] == cues;
    } else {
      var p := Peel(Arrived(c, s));
      var c0 := Touch(c, s.nowMs).WithBuffer(s.direction, p.rest);
      CleanIngest(parser, c, s);
      ProcessAllIsRun(parser, c0, p.items, s.direction, s.nowMs);
      CoreOfTouched(c, s.nowMs, s.direction, p.rest);
      SameCore(parser, c, c0, h, cues);
      StepsFollow(parser, c0, h, StepsOf(c, s), cues);
    }
  }

  lemma FailureFollows(parser: MessageParser, c: Tracked, d: Tracked, h: seq<Step>, cues: seq<Cue>)
    requires Follows(parser, c, h, cues) && Core(d) == Core(c) && d.state.handshake.stage == Errored
    ensures Follows(parser, d, h, cues + [Failed])
  {
    hide Applied, VersionOf, Log, Over, ServerFlight, ClientFlight, Timeline.PostCcs, SentIn;
    Snoc(cues, Failed);
    assert SentIn(cues) + [] == SentIn(cues);
  }

  lemma {:induction false} RunFollows(parser: MessageParser, key: ConnectionKey, nowMs: nat, origin: Option<Origin>,
                                      segments: seq<Segment>)
    ensures var born := Born(key, nowMs, origin);
            Follows(parser, Run(parser, born, segments), Completed(parser, born, segments),
                    RunCues(parser, born, segments))
    decreases |segments|
  {
    hide IngestSegment, StepsOf, Fails, CuesFrom;
    if segments == [] {
    } else {
      hide Follows;
      var born, f := Born(key, nowMs, origin), Front(segments);
      RunFollows(parser, key, nowMs, origin, f);
      SegmentFollows(parser, Run(parser, born, f), Last(segments), Completed(parser, born, f),
                     RunCues(parser, born, f));
    }
  }

  /** In every reachable state, after failures too, the stage is the one that the last cue to set one calls for. */
  lemma StageOfEveryRun(parser: MessageParser, key: ConnectionKey, nowMs: nat, origin: Option<Origin>,
                        segments: seq<Segment>)
    ensures var born := Born(key, nowMs, origin);
            Run(parser, born, segments).state.handshake.stage == StageShown(RunCues(parser, born, segments))
  {
    hide Run, RunCues, StageShown, CountersMatch, TimelineMatches;
    RunFollows(parser, key, nowMs, origin, segments);
  }

  // ----- a TLS 1.2 handshake

  ghost predicate Carries(parser: MessageParser, s: Step, d: Direction, messages: seq<HandshakeMessage>) {
    s.direction == d && s.record.recordType == Handshake && Messages(parser, s.record.payload) == messages
  }

  lemma {:induction false} ApplySnoc(hs: HandshakeInfo, messages: seq<HandshakeMessage>, m: HandshakeMessage,
                                     d: Direction)
    ensures ApplyMessages(hs, messages + [m], d) == ApplyMessage(ApplyMessages(hs, messages, d), m, d)
    decreases |messages|
  {
    hide ApplyMessage;
    if messages == [] {
      assert [m][1..] == [];
    } else {
      ApplySnoc(ApplyMessage(hs, messages[0], d), messages[1..], m, d);
      assert (messages + [m])[1..] == messages[1..] + [m];
    }
  }

  /** The server's plaintext flight passes through its stages. */
  lemma ServerFlight12(hs: HandshakeInfo, sh: ServerHelloInfo)
    requires sh.tlsVersion == Some(Tls12)
    ensures var flight := [ServerHelloMsg(sh), CertificateMsg, ServerKeyExchangeMsg, ServerDoneMsg];
            ApplyMessages(hs, flight[..1], ServerToClient).stage == ServerHelloSeen &&
            ApplyMessages(hs, flight[..2], ServerToClient).stage == ServerCertificate &&
            ApplyMessages(hs, flight[..3], ServerToClient).stage == ServerKeyExchange &&
            ApplyMessages(hs, flight, ServerToClient).stage == ServerHelloDone
  {
    var flight := [ServerHelloMsg(sh), CertificateMsg, ServerKeyExchangeMsg, ServerDoneMsg];
    assert flight[..0] == [];
    ApplySnoc(hs, flight[..0], flight[0], ServerToClient);
    ApplySnoc(hs, flight[..1], flight[1], ServerToClient);
    ApplySnoc(hs, flight[..2], flight[2], ServerToClient);
    ApplySnoc(hs, flight[..3], flight[3], ServerToClient);
    assert flight[..0] + [flight[0]] == flight[..1] && flight[..1] + [flight[1]] == flight[..2];
    assert flight[..2] + [flight[2]] == flight[..3] && flight[..3] + [flight[3]] == flight;
  }

  lemma StepKeepsFlags(parser: MessageParser, c: Tracked, s: Step)
    requires s.record.recordType == Handshake || s.record.recordType == ChangeCipherSpec
    ensures var after := ProcessStep(parser, c, s);
            var ccs := s.record.recordType == ChangeCipherSpec;
            after.clientCcsSeen == (c.clientCcsSeen || (ccs && s.direction == ClientToServer)) &&
            after.serverCcsSeen == (c.serverCcsSeen || (ccs && s.direction == ServerToClient))
  {
    hide BuildBody, EncodeRecord, Messages, ApplyMessages, ApplyCcs;
  }

  /** A whole TLS 1.2 handshake, one record for each flight, ends with the server's Finished. */
  lemma Handshake12(parser: MessageParser, c: Tracked, sh: ServerHelloInfo, flight: Step, key: Step, client: Step,
                    server: Step)
    requires !c.clientCcsSeen && !c.serverCcsSeen && sh.tlsVersion == Some(Tls12)
    requires Carries(parser, flight, ServerToClient,
                     [ServerHelloMsg(sh), CertificateMsg, ServerKeyExchangeMsg, ServerDoneMsg])
    requires Carries(parser, key, ClientToServer, [ClientKeyExchangeMsg])
    requires IsCcs(client, ClientToServer) && IsCcs(server, ServerToClient)
    ensures var c1 := ProcessStep(parser, c, flight);
            var c2 := ProcessStep(parser, c1, key);
            var c3 := ProcessStep(parser, c2, client);
            var c4 := ProcessStep(parser, c3, server);
            c1.state.handshake.stage == ServerHelloDone && c2.state.handshake.stage == ClientKeyExchange &&
            c3.state.handshake.stage == ClientFinished && c4.state.handshake.stage == ServerFinished
  {
    hide ProcessStep, Messages, ApplyMessages;
    var c1 := ProcessStep(parser, c, flight);
    var c2 := ProcessStep(parser, c1, key);
    var c3 := ProcessStep(parser, c2, client);
    StepParts(parser, c, flight);
    StepKeepsFlags(parser, c, flight);
    ServerFlight12(c.state.handshake, sh);
    StepParts(parser, c1, key);
    ApplySnoc(c1.state.handshake, [], ClientKeyExchangeMsg, ClientToServer);
    assert [] + [ClientKeyExchangeMsg] == [ClientKeyExchangeMsg];
    StepParts(parser, c2, client);
    StepParts(parser, c3, server);
  }
}
