/**
 The stage of a connection and the fields of its handshake over whole runs.
 */
module StageLaws {
  import opened Wire
  import opened Framing
  import opened Model
  import opened Connection
  import opened History
  import opened Timeline
  import opened TimelineLaws

  // ----- the inferred stages of TLS 1.3

  function Count(dirs: seq<Direction>, d: Direction): nat
    decreases |dirs|
  {
    if dirs == [] then 0 else Count(Front(dirs), d) + if Last(dirs) == d then 1 else 0
  }

  /** The place of the first server record, or the length if there is none. */
  function FirstServer(dirs: seq<Direction>): (f: nat)
    ensures f <= |dirs|
    decreases |dirs|
  {
    if dirs == [] || dirs[0] == ServerToClient then 0 else 1 + FirstServer(dirs[1..])
  }

  lemma {:induction false} FirstServerIsFirst(dirs: seq<Direction>)
    ensures FirstServer(dirs) < |dirs| ==> dirs[FirstServer(dirs)] == ServerToClient
    ensures forall i :: 0 <= i < FirstServer(dirs) ==> dirs[i] == ClientToServer
    decreases |dirs|
  {
    if dirs == [] || dirs[0] == ServerToClient {
    } else {
      FirstServerIsFirst(dirs[1..]);
      forall i | 0 < i < FirstServer(dirs)
        ensures dirs[i] == ClientToServer
      {
        assert dirs[i] == dirs[1..][i - 1];
      }
    }
  }

  /** Client records that answer: those after the first server record. */
  function Answers(dirs: seq<Direction>): nat {
    Count(dirs[FirstServer(dirs)..], ClientToServer)
  }

  /** The stage after encrypted records with these directions, starting from `initial`. */
  function StageAfter(initial: HandshakeStage, dirs: seq<Direction>): HandshakeStage {
    StageOf(initial, Count(dirs, ServerToClient), Answers(dirs), dirs != [] && Last(dirs) == ClientToServer)
  }

  function StageOf(initial: HandshakeStage, servers: nat, answers: nat, clientLast: bool): HandshakeStage {
    if servers == 0 then initial
    else if answers == 0 then (if servers <= 3 then Certificate else ServerFinished)
    else if answers == 1 && clientLast then ClientFinished
    else ApplicationDataFlowing
  }

  lemma {:induction false} FirstServerSnoc(dirs: seq<Direction>, d: Direction)
    ensures FirstServer(dirs + [d]) ==
            (if FirstServer(dirs) < |dirs| then FirstServer(dirs)
             else if d == ServerToClient then |dirs| else |dirs| + 1)
    decreases |dirs|
  {
    if dirs == [] {
      assert FirstServer([d][1..]) == 0;
    } else if dirs[0] == ClientToServer {
      FirstServerSnoc(dirs[1..], d);
      assert (dirs + [d])[1..] == dirs[1..] + [d];
    }
  }

  lemma {:induction false} NoServerBeforeFirst(dirs: seq<Direction>)
    ensures FirstServer(dirs) == |dirs| <==> Count(dirs, ServerToClient) == 0
    decreases |dirs|
  {
    if dirs == [] {
    } else {
      NoServerBeforeFirst(Front(dirs));
      FirstServerSnoc(Front(dirs), Last(dirs));
      assert Front(dirs) + [Last(dirs)] == dirs;
    }
  }

  lemma AnswersSnoc(dirs: seq<Direction>, d: Direction)
    ensures Answers(dirs + [d]) ==
            Answers(dirs) + if d == ClientToServer && Count(dirs, ServerToClient) > 0 then 1 else 0
  {
    var f := FirstServer(dirs);
    FirstServerSnoc(dirs, d);
    NoServerBeforeFirst(dirs);
    if f < |dirs| {
      assert (dirs + [d])[f..] == dirs[f..] + [d];
      assert Front(dirs[f..] + [d]) == dirs[f..];
    } else {
      assert dirs[f..] == [];
      assert d == ServerToClient ==> (dirs + [d])[f..] == [d] && Front([d]) == [];
    }
  }

  /** Encrypted records, with alerts and unknown types among them. */
  ghost predicate EncryptedRun(h: seq<Step>) {
    forall i :: 0 <= i < |h| ==>
      h[i].record.recordType != Handshake && h[i].record.recordType != ChangeCipherSpec
  }

  function EncryptedDirections(h: seq<Step>): seq<Direction>
    decreases |h|
  {
    if h == [] then []
    else
      EncryptedDirections(Front(h)) +
      if Last(h).record.recordType == ApplicationData then [Last(h).direction] else []
  }

  /** The counters and the stage are those of the directions. */
  ghost predicate FollowsDirections(c: Tracked, initial: HandshakeStage, dirs: seq<Direction>) {
    !IsOld(c.state.handshake.tlsVersion) && c.encryptedFromServer == Count(dirs, ServerToClient) &&
    c.encryptedFromClient == Answers(dirs) && (c.sawClientFinished <==> Answers(dirs) >= 1) &&
    c.state.handshake.stage == StageAfter(initial, dirs)
  }

  lemma DirectionStep(parser: MessageParser, c: Tracked, initial: HandshakeStage, dirs: seq<Direction>, s: Step)
    requires FollowsDirections(c, initial, dirs) && s.record.recordType == ApplicationData
    ensures FollowsDirections(ProcessStep(parser, c, s), initial, dirs + [s.direction])
  {
    hide ProcessStep, ApplyEncrypted, FollowsDirections;
    DirectionApplied(c, initial, dirs, s.direction);
    StepParts(parser, c, s);
    DirectionsFromCounters(ApplyEncrypted(c, s.direction), ProcessStep(parser, c, s), initial, dirs + [s.direction]);
  }

  lemma DirectionApplied(c: Tracked, initial: HandshakeStage, dirs: seq<Direction>, d: Direction)
    requires FollowsDirections(c, initial, dirs)
    ensures FollowsDirections(ApplyEncrypted(c, d), initial, dirs + [d])
  {
    hide Answers, ApplyEncrypted, StageOf;
    AnswersSnoc(dirs, d);
    assert Front(dirs + [d]) == dirs && Last(dirs + [d]) == d;
    assert Count(dirs + [d], ServerToClient) == Count(dirs, ServerToClient) + if d == ServerToClient then 1 else 0;
    AnswersNeedServer(dirs);
    EncryptedStage(c, initial, Count(dirs, ServerToClient), Answers(dirs),
                   dirs != [] && Last(dirs) == ClientToServer, d);
  }

  /** One encrypted record moves the stage as it moves the counts. */
  lemma EncryptedStage(c: Tracked, initial: HandshakeStage, servers: nat, answers: nat, clientLast: bool, d: Direction)
    requires !IsOld(c.state.handshake.tlsVersion) && c.encryptedFromServer == servers &&
             c.encryptedFromClient == answers
    requires (c.sawClientFinished <==> answers >= 1) && (answers > 0 ==> servers > 0)
    requires c.state.handshake.stage == StageOf(initial, servers, answers, clientLast)
    ensures var servers' := servers + if d == ServerToClient then 1 else 0;
            var answers' := answers + if d == ClientToServer && servers > 0 then 1 else 0;
            var x := ApplyEncrypted(c, d);
            x.encryptedFromServer == servers' && x.encryptedFromClient == answers' &&
            (x.sawClientFinished <==> answers' >= 1) && x.state.handshake.tlsVersion == c.state.handshake.tlsVersion &&
            x.state.handshake.stage == StageOf(initial, servers', answers', d == ClientToServer)
  {
  }

  lemma DirectionsFromCounters(a: Tracked, b: Tracked, initial: HandshakeStage, dirs: seq<Direction>)
    requires FollowsDirections(a, initial, dirs) && b.state.handshake == a.state.handshake
    requires b.encryptedFromServer == a.encryptedFromServer && b.encryptedFromClient == a.encryptedFromClient
    requires b.sawClientFinished == a.sawClientFinished
    ensures FollowsDirections(b, initial, dirs)
  {
  }

  lemma AnswersNeedServer(dirs: seq<Direction>)
    ensures Answers(dirs) > 0 ==> Count(dirs, ServerToClient) > 0
  {
    NoServerBeforeFirst(dirs);
    assert FirstServer(dirs) == |dirs| ==> dirs[FirstServer(dirs)..] == [];
  }

  /**
   On a connection not known to be older than TLS 1.3, with nothing encrypted seen yet, the stage after
   any run of encrypted records is a closed function of their directions.
   */
  lemma {:induction false} StageFollowsDirections(parser: MessageParser, c: Tracked, h: seq<Step>)
    requires EncryptedRun(h) && !IsOld(c.state.handshake.tlsVersion)
    requires c.encryptedFromServer == 0 && c.encryptedFromClient == 0 && !c.sawClientFinished
    ensures FollowsDirections(RunSteps(parser, c, h), c.state.handshake.stage, EncryptedDirections(h))
    decreases |h|
  {
    hide FollowsDirections, ProcessApplicationData;
    if h == [] {
      NoDirections(c);
    } else {
      StageFollowsDirections(parser, c, Front(h));
      var before, s := RunSteps(parser, c, Front(h)), Last(h);
      if s.record.recordType == ApplicationData {
        DirectionStep(parser, before, c.state.handshake.stage, EncryptedDirections(Front(h)), s);
      } else {
        assert EncryptedDirections(h) == EncryptedDirections(Front(h));
      }
    }
  }

  lemma NoDirections(c: Tracked)
    requires !IsOld(c.state.handshake.tlsVersion)
    requires c.encryptedFromServer == 0 && c.encryptedFromClient == 0 && !c.sawClientFinished
    ensures FollowsDirections(c, c.state.handshake.stage, [])
  {
  }

  function Rank(stage: HandshakeStage): nat {
    match stage
    case Certificate => 1
    case ServerFinished => 2
    case ClientFinished => 3
    case ApplicationDataFlowing => 4
    case _ => 0
  }

  /** From the first server record on, the stage only advances, and application data is where it ends. */
  lemma {:induction false} StageNeverGoesBack(initial: HandshakeStage, dirs: seq<Direction>, more: seq<Direction>)
    requires Count(dirs, ServerToClient) > 0
    ensures 1 <= Rank(StageAfter(initial, dirs)) <= Rank(StageAfter(initial, dirs + more))
    ensures Count(dirs + more, ServerToClient) >= Count(dirs, ServerToClient)
    decreases |more|
  {
    if more == [] {
      assert dirs + more == dirs;
    } else {
      StageNeverGoesBack(initial, dirs, Front(more));
      assert dirs + more == dirs + Front(more) + [Last(more)];
      StageStep(initial, dirs + Front(more), Last(more));
    }
  }

  lemma StageStep(initial: HandshakeStage, dirs: seq<Direction>, d: Direction)
    requires Count(dirs, ServerToClient) > 0
    ensures 1 <= Rank(StageAfter(initial, dirs)) <= Rank(StageAfter(initial, dirs + [d]))
    ensures Count(dirs + [d], ServerToClient) >= Count(dirs, ServerToClient)
  {
    AnswersSnoc(dirs, d);
    assert Front(dirs + [d]) == dirs;
  }

  // ----- markers, in every reachable state

  ghost predicate MarkersAgree(c: Tracked) {
    && (c.sawClientFinished <==> c.encryptedFromClient >= 1)
    && (c.encryptedFromClient >= 1 ==> c.encryptedFromServer >= 1)
    && (c.state.handshake.certificateSubject.Some? <==> c.encryptedFromServer >= 1)
    && c.state.handshake.certificateIssuer == c.state.handshake.certificateSubject
  }

  lemma {:induction false} MessagesKeepRest(hs: HandshakeInfo, messages: seq<HandshakeMessage>, d: Direction)
    ensures var hs' := ApplyMessages(hs, messages, d);
            hs'.certificateSubject == hs.certificateSubject && hs'.certificateIssuer == hs.certificateIssuer &&
            hs'.error == hs.error
    decreases |messages|
  {
    if messages == [] {
    } else {
      MessagesKeepRest(ApplyMessage(hs, messages[0], d), messages[1..], d);
    }
  }

  lemma MarkersApplied(c: Tracked, d: Direction)
    requires MarkersAgree(c)
    ensures MarkersAgree(ApplyEncrypted(c, d))
  {
  }

  lemma MarkersStep(parser: MessageParser, c: Tracked, s: Step)
    requires MarkersAgree(c)
    ensures MarkersAgree(ProcessStep(parser, c, s))
  {
    hide ProcessStep, ApplyEncrypted, Messages, ApplyMessages;
    StepParts(parser, c, s);
    match s.record.recordType {
      case Handshake => MessagesKeepRest(c.state.handshake, Messages(parser, s.record.payload), s.direction);
      case ApplicationData => MarkersApplied(c, s.direction);
      case _ =>
    }
  }

  lemma {:induction false} MarkersOfSteps(parser: MessageParser, c: Tracked, h: seq<Step>)
    requires MarkersAgree(c)
    ensures MarkersAgree(RunSteps(parser, c, h))
    decreases |h|
  {
    hide ProcessStep, MarkersAgree;
    if h == [] {
    } else {
      MarkersOfSteps(parser, c, Front(h));
      MarkersStep(parser, RunSteps(parser, c, Front(h)), Last(h));
    }
  }

  /** In every reachable state the finished marker, the counters and the certificate fields agree. */
  lemma MarkersOfRun(parser: MessageParser, key: ConnectionKey, nowMs: nat, origin: Option<Origin>,
                     segments: seq<Segment>)
    ensures MarkersAgree(Run(parser, Born(key, nowMs, origin), segments))
  {
    hide RunSteps, Run, Completed;
    var born := Born(key, nowMs, origin);
    var h := Completed(parser, born, segments);
    RunCore(parser, born, segments);
    MarkersOfSteps(parser, born, h);
    assert Core(Run(parser, born, segments)) == Core(RunSteps(parser, born, h));
  }

  // ----- handshake fields are never lost

  ghost predicate StillSome<T>(a: Option<T>, b: Option<T>) {
    a.Some? ==> b.Some?
  }

  ghost predicate StillFull<T>(a: seq<T>, b: seq<T>) {
    a != [] ==> b != []
  }

  /** Every populated field of `a` is populated in `b`, and the origin is the same. */
  ghost predicate FieldsKept(a: HandshakeInfo, b: HandshakeInfo) {
    && StillSome(a.sni, b.sni)
    && StillFull(a.alpnOffered, b.alpnOffered)
    && StillSome(a.alpnSelected, b.alpnSelected)
    && StillFull(a.cipherSuitesOffered, b.cipherSuitesOffered)
    && StillSome(a.cipherSuiteSelected, b.cipherSuiteSelected)
    && StillFull(a.groupsOffered, b.groupsOffered)
    && StillSome(a.keyShareGroup, b.keyShareGroup)
    && StillSome(a.tlsVersion, b.tlsVersion)
    && StillSome(a.certificateSubject, b.certificateSubject)
    && StillSome(a.certificateIssuer, b.certificateIssuer)
    && StillSome(a.error, b.error)
    && a.origin == b.origin
  }

  ghost predicate ErrorRecorded(hs: HandshakeInfo) {
    hs.stage == Errored ==> hs.error.Some?
  }

  /** What may happen to the handshake of a connection while it lives. */
  ghost predicate Evolves(a: HandshakeInfo, b: HandshakeInfo) {
    FieldsKept(a, b) && (ErrorRecorded(a) ==> ErrorRecorded(b))
  }

  lemma EvolvesTransitive(a: HandshakeInfo, b: HandshakeInfo, c: HandshakeInfo)
    requires Evolves(a, b) && Evolves(b, c)
    ensures Evolves(a, c)
  {
  }

  lemma MessageEvolves(hs: HandshakeInfo, message: HandshakeMessage, d: Direction)
    ensures Evolves(hs, ApplyMessage(hs, message, d))
  {
    match (message, d)
    case (ClientHelloMsg(_), ClientToServer) =>
    case (ServerHelloMsg(_), ServerToClient) =>
    case _ =>
  }

  lemma {:induction false} MessagesEvolve(hs: HandshakeInfo, messages: seq<HandshakeMessage>, d: Direction)
    ensures Evolves(hs, ApplyMessages(hs, messages, d))
    decreases |messages|
  {
    hide ApplyMessage;
    if messages == [] {
      StillEvolves(hs);
    } else {
      hide Evolves;
      MessageEvolves(hs, messages[0], d);
      MessagesEvolve(ApplyMessage(hs, messages[0], d), messages[1..], d);
      EvolvesTransitive(hs, ApplyMessage(hs, messages[0], d), ApplyMessages(hs, messages, d));
    }
  }

  lemma StillEvolves(hs: HandshakeInfo)
    ensures Evolves(hs, hs)
  {
  }

  lemma EncryptedEvolves(c: Tracked, d: Direction)
    ensures Evolves(c.state.handshake, ApplyEncrypted(c, d).state.handshake)
  {
    var hs := c.state.handshake;
    if Before13(hs.tlsVersion) {
    } else if d == ServerToClient {
      if hs.certificateSubject.None? {
      } else {
      }
    } else if c.encryptedFromServer > 0 {
    } else {
    }
  }

  lemma StepEvolves(parser: MessageParser, c: Tracked, s: Step)
    ensures Evolves(c.state.handshake, ProcessStep(parser, c, s).state.handshake)
  {
    hide ProcessStep, ApplyEncrypted, Messages, ApplyMessages, ApplyCcs, Evolves;
    var hs := c.state.handshake;
    StepParts(parser, c, s);
    StillEvolves(hs);
    match s.record.recordType {
      case Handshake => MessagesEvolve(hs, Messages(parser, s.record.payload), s.direction);
      case ApplicationData => EncryptedEvolves(c, s.direction);
      case ChangeCipherSpec => CcsEvolves(hs, s.direction);
      case _ =>
    }
  }

  lemma CcsEvolves(hs: HandshakeInfo, d: Direction)
    ensures Evolves(hs, ApplyCcs(hs, d))
  {
  }

  lemma {:induction false} StepsEvolve(parser: MessageParser, c: Tracked, h: seq<Step>)
    ensures Evolves(c.state.handshake, RunSteps(parser, c, h).state.handshake)
    ensures SameIdentity(c, RunSteps(parser, c, h))
    decreases |h|
  {
    hide ProcessStep, Evolves;
    StillEvolves(c.state.handshake);
    if h == [] {
    } else {
      var before := RunSteps(parser, c, Front(h));
      StepsEvolve(parser, c, Front(h));
      StepEvolves(parser, before, Last(h));
      StepParts(parser, before, Last(h));
      EvolvesTransitive(c.state.handshake, before.state.handshake, RunSteps(parser, c, h).state.handshake);
    }
  }

  lemma FailureEvolves(hs: HandshakeInfo, e: TrackError)
    ensures Evolves(hs, hs.(stage := Errored, error := Some(e)))
  {
  }

  lemma SegmentEvolves(parser: MessageParser, c: Tracked, s: Segment)
    ensures var c' := IngestSegment(parser, c, s);
            Evolves(c.state.handshake, c'.state.handshake) &&
            c'.state.key == c.state.key && c'.state.firstSeenMs == c.state.firstSeenMs &&
            c'.state.lastSeenMs == if s.payload == [] then c.state.lastSeenMs else s.nowMs
  {
    hide Peel, ProcessAll, RunSteps, AsSteps, Evolves;
    var p := Peel(Arrived(c, s));
    var c0 := Touch(c, s.nowMs).WithBuffer(s.direction, p.rest);
    StillEvolves(c.state.handshake);
    FailureEvolves(c.state.handshake, BufferWouldExceed);
    if OversizeHeader(p.rest) {
      FailureEvolves(c.state.handshake, Unparsable(RecordTooLong(HeaderLength(p.rest))));
    }
    ProcessAllIsRun(parser, c0, p.items, s.direction, s.nowMs);
    StepsEvolve(parser, c0, AsSteps(p.items, s.direction, s.nowMs));
  }

  /**
   Over any run of segments no populated field of the handshake becomes empty; the origin, key and
   creation time stay; and a connection shown as errored has its error recorded.
   */
  lemma {:induction false} RunEvolves(parser: MessageParser, c: Tracked, segments: seq<Segment>)
    ensures var c' := Run(parser, c, segments);
            FieldsKept(c.state.handshake, c'.state.handshake) &&
            (ErrorRecorded(c.state.handshake) ==> ErrorRecorded(c'.state.handshake)) &&
            c'.state.key == c.state.key && c'.state.firstSeenMs == c.state.firstSeenMs
    decreases |segments|
  {
    hide IngestSegment;
    StillEvolves(c.state.handshake);
    if segments == [] {
    } else {
      var before := Run(parser, c, Front(segments));
      RunEvolves(parser, c, Front(segments));
      SegmentEvolves(parser, before, Last(segments));
      EvolvesTransitive(c.state.handshake, before.state.handshake, Run(parser, c, segments).state.handshake);
    }
  }

  /** The time of the last segment that was not empty. */
  function LastTime(initial: nat, segments: seq<Segment>): nat
    decreases |segments|
  {
    if segments == [] then initial
    else if Last(segments).payload != [] then Last(segments).nowMs
    else LastTime(initial, Front(segments))
  }

  lemma {:induction false} TimeOfRun(parser: MessageParser, c: Tracked, segments: seq<Segment>)
    ensures Run(parser, c, segments).state.lastSeenMs == LastTime(c.state.lastSeenMs, segments)
    decreases |segments|
  {
    hide IngestSegment, Evolves;
    if segments == [] {
    } else {
      TimeOfRun(parser, c, Front(segments));
      SegmentEvolves(parser, Run(parser, c, Front(segments)), Last(segments));
    }
  }

  // ----- the error shown

  function FailureOf(c: Tracked, s: Segment): TrackError
    requires Fails(c, s)
  {
    if OverCap(c, s) then BufferWouldExceed
    else Unparsable(RecordTooLong(HeaderLength(Peel(Arrived(c, s)).rest)))
  }

  /** The error of the last segment that failed, or the one shown before. */
  function LastFailure(parser: MessageParser, c: Tracked, segments: seq<Segment>): Option<TrackError>
    decreases |segments|
  {
    if segments == [] then c.state.handshake.error
    else
      var before := Run(parser, c, Front(segments));
      if Fails(before, Last(segments)) then Some(FailureOf(before, Last(segments)))
      else LastFailure(parser, c, Front(segments))
  }

  lemma EncryptedKeepsError(c: Tracked, d: Direction)
    ensures ApplyEncrypted(c, d).state.handshake.error == c.state.handshake.error
  {
  }

  lemma {:induction false} StepsKeepError(parser: MessageParser, c: Tracked, h: seq<Step>)
    ensures RunSteps(parser, c, h).state.handshake.error == c.state.handshake.error
    decreases |h|
  {
    hide ProcessStep, ApplyEncrypted, Messages, ApplyMessages;
    if h == [] {
    } else {
      var before, s := RunSteps(parser, c, Front(h)), Last(h);
      StepsKeepError(parser, c, Front(h));
      StepParts(parser, before, s);
      match s.record.recordType {
        case Handshake => MessagesKeepRest(before.state.handshake, Messages(parser, s.record.payload), s.direction);
        case ApplicationData => EncryptedKeepsError(before, s.direction);
        case _ =>
      }
    }
  }

  lemma SegmentError(parser: MessageParser, c: Tracked, s: Segment)
    ensures var hs := IngestSegment(parser, c, s).state.handshake;
            if Fails(c, s) then hs.error == Some(FailureOf(c, s)) && hs.stage == Errored
            else hs.error == c.state.handshake.error
  {
    hide Peel, ProcessAll, RunSteps, AsSteps;
    var p := Peel(Arrived(c, s));
    var c0 := Touch(c, s.nowMs).WithBuffer(s.direction, p.rest);
    ProcessAllIsRun(parser, c0, p.items, s.direction, s.nowMs);
    StepsKeepError(parser, c0, AsSteps(p.items, s.direction, s.nowMs));
  }

  /** After any run the error shown is that of the last segment that failed, and such a segment shows as errored. */
  lemma {:induction false} ErrorOfRun(parser: MessageParser, c: Tracked, segments: seq<Segment>)
    ensures Run(parser, c, segments).state.handshake.error == LastFailure(parser, c, segments)
    ensures segments != [] && Fails(Run(parser, c, Front(segments)), Last(segments)) ==>
              Run(parser, c, segments).state.handshake.stage == Errored
    decreases |segments|
  {
    hide IngestSegment, Fails, FailureOf;
    if segments == [] {
    } else {
      ErrorOfRun(parser, c, Front(segments));
      SegmentError(parser, Run(parser, c, Front(segments)), Last(segments));
    }
  }
}
