/**
 Runs of one connection: the records a run of segments completes, and the proof that everything a
 connection knows, apart from buffers, failures and the time of the last segment, is a fold of them.
 */
module History {
  import opened Wire
  import opened Framing
  import opened Model
  import opened Connection

  /** A record completed on one direction at one time. */
  datatype Step = Step(direction: Direction, record: TlsRecord, nowMs: nat)

  function ProcessStep(parser: MessageParser, c: Tracked, s: Step): Tracked {
    ProcessRecord(parser, c, s.record, s.direction, s.nowMs)
  }

  function Front<T>(s: seq<T>): seq<T>
    requires s != []
  {
    s[..|s| - 1]
  }

  function Last<T>(s: seq<T>): T
    requires s != []
  {
    s[|s| - 1]
  }

  function RunSteps(parser: MessageParser, c: Tracked, h: seq<Step>): Tracked
    decreases |h|
  {
    if h == [] then c else ProcessStep(parser, RunSteps(parser, c, Front(h)), Last(h))
  }

  function AsSteps(records: seq<TlsRecord>, d: Direction, nowMs: nat): (h: seq<Step>)
    ensures |h| == |records|
  {
    seq(|records|, i requires 0 <= i < |records| => Step(d, records[i], nowMs))
  }

  // ----- segments

  predicate Fails(c: Tracked, s: Segment) {
    s.payload != [] && (OverCap(c, s) || Oversize(Arrived(c, s)))
  }

  /** The records that a segment completes; none when it fails. */
  function StepsOf(c: Tracked, s: Segment): seq<Step> {
    if s.payload == [] || Fails(c, s) then [] else AsSteps(Peel(Arrived(c, s)).items, s.direction, s.nowMs)
  }

  function Run(parser: MessageParser, c: Tracked, segments: seq<Segment>): Tracked
    decreases |segments|
  {
    if segments == [] then c else IngestSegment(parser, Run(parser, c, Front(segments)), Last(segments))
  }

  /** All the records that a run completes, in order. */
  function Completed(parser: MessageParser, c: Tracked, segments: seq<Segment>): seq<Step>
    decreases |segments|
  {
    if segments == [] then []
    else Completed(parser, c, Front(segments)) + StepsOf(Run(parser, c, Front(segments)), Last(segments))
  }

  // ----- folds

  lemma RunNothing(parser: MessageParser, c: Tracked)
    ensures RunSteps(parser, c, []) == c
  {
  }

  lemma {:induction false} RunStepsAppend(parser: MessageParser, c: Tracked, a: seq<Step>, b: seq<Step>)
    ensures RunSteps(parser, c, a + b) == RunSteps(parser, RunSteps(parser, c, a), b)
    decreases |b|
  {
    if b == [] {
      assert a + b == a;
    } else {
      assert Front(a + b) == a + Front(b) && Last(a + b) == Last(b);
      RunStepsAppend(parser, c, a, Front(b));
    }
  }

  /** The record loop of a segment is a run of steps. */
  lemma {:induction false} ProcessAllIsRun(parser: MessageParser, c: Tracked, records: seq<TlsRecord>, d: Direction,
                                           nowMs: nat)
    ensures ProcessAll(parser, c, records, d, nowMs) == RunSteps(parser, c, AsSteps(records, d, nowMs))
    decreases |records|
  {
    hide ProcessRecord;
    var h := AsSteps(records, d, nowMs);
    if records == [] {
    } else {
      ProcessAllIsRun(parser, ProcessRecord(parser, c, records[0], d, nowMs), records[1..], d, nowMs);
      assert h == [h[0]] + AsSteps(records[1..], d, nowMs);
      RunStepsAppend(parser, c, [h[0]], AsSteps(records[1..], d, nowMs));
      assert Front([h[0]]) == [] && RunSteps(parser, c, []) == c;
    }
  }

  // ----- the core of a connection

  /** Forget the buffers, the time of the last segment, the stage and the error. */
  function Core(c: Tracked): Tracked {
    c.(clientToServerBuf := [], serverToClientBuf := [],
       state := c.state.(lastSeenMs := 0, handshake := c.state.handshake.(stage := Idle, error := None)))
  }

  function Unstaged(hs: HandshakeInfo): HandshakeInfo {
    hs.(stage := Idle, error := None)
  }

  lemma {:induction false} MessagesIgnoreStage(a: HandshakeInfo, b: HandshakeInfo, messages: seq<HandshakeMessage>,
                                               d: Direction)
    requires Unstaged(a) == Unstaged(b)
    ensures Unstaged(ApplyMessages(a, messages, d)) == Unstaged(ApplyMessages(b, messages, d))
    decreases |messages|
  {
    if messages == [] {
    } else {
      MessageIgnoresStage(a, b, messages[0], d);
      MessagesIgnoreStage(ApplyMessage(a, messages[0], d), ApplyMessage(b, messages[0], d), messages[1..], d);
    }
  }

  lemma MessageIgnoresStage(a: HandshakeInfo, b: HandshakeInfo, message: HandshakeMessage, d: Direction)
    requires Unstaged(a) == Unstaged(b)
    ensures Unstaged(ApplyMessage(a, message, d)) == Unstaged(ApplyMessage(b, message, d))
  {
  }

  /** Pushing touches the log and its counter and nothing else. */
  lemma PushOnlyLogs(c: Tracked, record: TlsRecord, d: Direction, nowMs: nat)
    ensures var c' := PushRecordEvent(c, record, d, nowMs);
            c' == c.(seqCounter := c'.seqCounter, state := c.state.(records := c'.state.records)) &&
            c.state.records <= c'.state.records
  {
    hide BuildBody, EncodeRecord;
  }

  /** What a record does to the handshake of a connection. */
  function HandshakeAfter(parser: MessageParser, c: Tracked, s: Step): HandshakeInfo {
    match s.record.recordType
    case Handshake =>
      if c.Ccs(s.direction) then c.state.handshake
      else ApplyMessages(c.state.handshake, Messages(parser, s.record.payload), s.direction)
    case ApplicationData => ApplyEncrypted(c, s.direction).state.handshake
    case ChangeCipherSpec => ApplyCcs(c.state.handshake, s.direction)
    case _ => c.state.handshake
  }

  ghost predicate SameIdentity(a: Tracked, b: Tracked) {
    b.state.key == a.state.key && b.state.firstSeenMs == a.state.firstSeenMs && b.state.lastSeenMs == a.state.lastSeenMs
  }

  /** An encrypted record touches two counters, the marker and the handshake. */
  lemma EncryptedKeepsRest(c: Tracked, d: Direction)
    ensures var x := ApplyEncrypted(c, d);
            x == c.(encryptedFromServer := x.encryptedFromServer, encryptedFromClient := x.encryptedFromClient,
                    sawClientFinished := x.sawClientFinished, state := c.state.(handshake := x.state.handshake))
  {
  }

  /** The counters, the marker and the handshake agree. */
  ghost predicate SameProgress(a: Tracked, b: Tracked) {
    && a.state.handshake == b.state.handshake && a.sawClientFinished == b.sawClientFinished
    && a.encryptedFromServer == b.encryptedFromServer && a.encryptedFromClient == b.encryptedFromClient
  }

  lemma ServerRecordIsLocal(a: Tracked, b: Tracked)
    requires SameProgress(a, b)
    ensures SameProgress(ApplyEncrypted(a, ServerToClient), ApplyEncrypted(b, ServerToClient))
  {
    hide Before13, WithCertificate;
    if Before13(a.state.handshake.tlsVersion) {
    } else {
    }
  }

  lemma ClientRecordIsLocal(a: Tracked, b: Tracked)
    requires SameProgress(a, b)
    ensures SameProgress(ApplyEncrypted(a, ClientToServer), ApplyEncrypted(b, ClientToServer))
  {
    hide Before13;
    if Before13(a.state.handshake.tlsVersion) {
    } else if a.encryptedFromServer > 0 {
    } else {
    }
  }

  /** What an encrypted record does to them depends on nothing else. */
  lemma EncryptedIsLocal(a: Tracked, b: Tracked, d: Direction)
    requires SameProgress(a, b)
    ensures SameProgress(ApplyEncrypted(a, d), ApplyEncrypted(b, d))
  {
    hide ApplyEncrypted, SameProgress;
    match d {
      case ServerToClient => ServerRecordIsLocal(a, b);
      case ClientToServer => ClientRecordIsLocal(a, b);
    }
  }

  /** The connection `c` has the counters of `x`, the handshake `hs`, and the rest of `before` but for a longer log. */
  ghost predicate Parts(before: Tracked, x: Tracked, hs: HandshakeInfo, c: Tracked) {
    && SameIdentity(before, c) && before.state.records <= c.state.records
    && c.clientToServerBuf == before.clientToServerBuf && c.serverToClientBuf == before.serverToClientBuf
    && c.state.handshake == hs
    && c.encryptedFromServer == x.encryptedFromServer && c.encryptedFromClient == x.encryptedFromClient
    && c.sawClientFinished == x.sawClientFinished
  }

  lemma HandshakeParts(parser: MessageParser, c: Tracked, r: TlsRecord, d: Direction, t: nat)
    ensures var hs := ApplyMessages(c.state.handshake, Messages(parser, r.payload), d);
            Parts(c, c, if c.Ccs(d) then c.state.handshake else hs, ProcessHandshake(parser, c, r, d, t))
  {
    hide PushRecordEvent, Messages, ApplyMessages;
    if c.Ccs(d) {
      PushOnlyLogs(c, r, d, t);
    } else {
      PushOnlyLogs(c.WithHandshake(ApplyMessages(c.state.handshake, Messages(parser, r.payload), d)), r, d, t);
    }
  }

  lemma ApplicationDataParts(c: Tracked, r: TlsRecord, d: Direction, t: nat)
    ensures var x := ApplyEncrypted(c, d); Parts(c, x, x.state.handshake, ProcessApplicationData(c, r, d, t))
  {
    hide PushRecordEvent, ApplyEncrypted;
    EncryptedKeepsRest(c, d);
    var x := ApplyEncrypted(c, d);
    PushOnlyLogs(x.(stopLogging := x.stopLogging || x.encryptedFromClient >= 2 || x.BothCcs()), r, d, t);
  }

  lemma CcsParts(c: Tracked, r: TlsRecord, d: Direction, t: nat)
    ensures Parts(c, c, ApplyCcs(c.state.handshake, d), ProcessCcs(c, r, d, t))
  {
    hide PushRecordEvent, ApplyCcs;
    var x := c.WithHandshake(ApplyCcs(c.state.handshake, d));
    PushOnlyLogs(if d == ClientToServer then x.(clientCcsSeen := true) else x.(serverCcsSeen := true), r, d, t);
  }

  /** What one record changes, part by part. */
  lemma StepParts(parser: MessageParser, c: Tracked, s: Step)
    ensures var x := if s.record.recordType == ApplicationData then ApplyEncrypted(c, s.direction) else c;
            Parts(c, x, HandshakeAfter(parser, c, s), ProcessStep(parser, c, s))
  {
    hide ProcessHandshake, ProcessApplicationData, ProcessCcs, ApplyEncrypted, Messages, ApplyMessages, ApplyCcs;
    match s.record.recordType {
      case Handshake => HandshakeParts(parser, c, s.record, s.direction, s.nowMs);
      case ApplicationData => ApplicationDataParts(c, s.record, s.direction, s.nowMs);
      case ChangeCipherSpec => CcsParts(c, s.record, s.direction, s.nowMs);
      case _ =>
    }
  }

  lemma PushIgnoresRest(a: Tracked, b: Tracked, record: TlsRecord, d: Direction, nowMs: nat)
    requires Core(a) == Core(b)
    ensures Core(PushRecordEvent(a, record, d, nowMs)) == Core(PushRecordEvent(b, record, d, nowMs))
  {
  }

  lemma EncryptedIgnoresRest(a: Tracked, b: Tracked, d: Direction)
    requires Core(a) == Core(b)
    ensures Core(ApplyEncrypted(a, d)) == Core(ApplyEncrypted(b, d))
  {
    var x, y := a.state.handshake, b.state.handshake;
    assert Unstaged(x) == Unstaged(y);
    if Before13(x.tlsVersion) {
    } else if d == ServerToClient {
      if x.certificateSubject.None? {
      } else {
      }
    } else if a.encryptedFromServer > 0 {
    } else {
    }
  }

  lemma HandshakeIgnoresRest(parser: MessageParser, a: Tracked, b: Tracked, r: TlsRecord, d: Direction, t: nat)
    requires Core(a) == Core(b)
    ensures Core(ProcessHandshake(parser, a, r, d, t)) == Core(ProcessHandshake(parser, b, r, d, t))
  {
    hide PushRecordEvent, Messages, ApplyMessages;
    if a.Ccs(d) {
      PushIgnoresRest(a, b, r, d, t);
    } else {
      var messages := Messages(parser, r.payload);
      var x, y := ApplyMessages(a.state.handshake, messages, d), ApplyMessages(b.state.handshake, messages, d);
      MessagesIgnoreStage(a.state.handshake, b.state.handshake, messages, d);
      PushIgnoresRest(a.WithHandshake(x), b.WithHandshake(y), r, d, t);
    }
  }

  lemma ApplicationDataIgnoresRest(a: Tracked, b: Tracked, r: TlsRecord, d: Direction, t: nat)
    requires Core(a) == Core(b)
    ensures Core(ProcessApplicationData(a, r, d, t)) == Core(ProcessApplicationData(b, r, d, t))
  {
    hide PushRecordEvent, ApplyEncrypted;
    EncryptedIgnoresRest(a, b, d);
    var x, y := ApplyEncrypted(a, d), ApplyEncrypted(b, d);
    var stop := x.stopLogging || x.encryptedFromClient >= 2 || x.BothCcs();
    PushIgnoresRest(x.(stopLogging := stop), y.(stopLogging := stop), r, d, t);
  }

  lemma CcsIgnoresRest(a: Tracked, b: Tracked, r: TlsRecord, d: Direction, t: nat)
    requires Core(a) == Core(b)
    ensures Core(ProcessCcs(a, r, d, t)) == Core(ProcessCcs(b, r, d, t))
  {
    hide PushRecordEvent;
    var x := a.WithHandshake(ApplyCcs(a.state.handshake, d));
    var y := b.WithHandshake(ApplyCcs(b.state.handshake, d));
    assert Core(x) == Core(a) && Core(y) == Core(b);
    match d {
      case ClientToServer => PushIgnoresRest(x.(clientCcsSeen := true), y.(clientCcsSeen := true), r, d, t);
      case ServerToClient => PushIgnoresRest(x.(serverCcsSeen := true), y.(serverCcsSeen := true), r, d, t);
    }
  }

  /** What a record does to the core does not depend on the rest. */
  lemma StepIgnoresRest(parser: MessageParser, a: Tracked, b: Tracked, s: Step)
    requires Core(a) == Core(b)
    ensures Core(ProcessStep(parser, a, s)) == Core(ProcessStep(parser, b, s))
  {
    hide ProcessHandshake, ProcessApplicationData, ProcessCcs;
    match s.record.recordType {
      case Handshake => HandshakeIgnoresRest(parser, a, b, s.record, s.direction, s.nowMs);
      case ApplicationData => ApplicationDataIgnoresRest(a, b, s.record, s.direction, s.nowMs);
      case ChangeCipherSpec => CcsIgnoresRest(a, b, s.record, s.direction, s.nowMs);
      case _ =>
    }
  }

  lemma {:induction false} StepsIgnoreRest(parser: MessageParser, a: Tracked, b: Tracked, h: seq<Step>)
    requires Core(a) == Core(b)
    ensures Core(RunSteps(parser, a, h)) == Core(RunSteps(parser, b, h))
    decreases |h|
  {
    if h == [] {
    } else {
      StepsIgnoreRest(parser, a, b, Front(h));
      StepIgnoresRest(parser, RunSteps(parser, a, Front(h)), RunSteps(parser, b, Front(h)), Last(h));
    }
  }

  /** A segment that does not fail: its records are processed over what framing left. */
  lemma CleanIngest(parser: MessageParser, c: Tracked, s: Segment)
    requires s.payload != [] && !Fails(c, s)
    ensures IngestSegment(parser, c, s) ==
            var p := Peel(Arrived(c, s));
            ProcessAll(parser, Touch(c, s.nowMs).WithBuffer(s.direction, p.rest), p.items, s.direction, s.nowMs)
  {
    hide Peel, ProcessAll;
  }

  lemma EmptyIngest(parser: MessageParser, c: Tracked, s: Segment)
    requires s.payload == []
    ensures IngestSegment(parser, c, s) == c
  {
    hide Peel, ProcessAll;
  }

  lemma CoreOfTouched(c: Tracked, nowMs: nat, d: Direction, buf: bytes)
    ensures Core(Touch(c, nowMs).WithBuffer(d, buf)) == Core(c)
  {
  }

  lemma CoreOfFailure(c: Tracked, nowMs: nat, d: Direction, buf: bytes, e: TrackError)
    ensures Core(Fail(Touch(c, nowMs), e)) == Core(c) && Core(Fail(Touch(c, nowMs).WithBuffer(d, buf), e)) == Core(c)
  {
  }

  lemma FailedIngest(parser: MessageParser, c: Tracked, s: Segment)
    requires Fails(c, s)
    ensures Core(IngestSegment(parser, c, s)) == Core(c)
  {
    hide Peel, ProcessAll, Fail, Touch, Core;
    CoreOfFailure(c, s.nowMs, s.direction, [], BufferWouldExceed);
    if Oversize(Arrived(c, s)) {
      CoreOfFailure(c, s.nowMs, s.direction, [], Unparsable(RecordTooLong(HeaderLength(Peel(Arrived(c, s)).rest))));
    }
  }

  lemma SegmentCore(parser: MessageParser, c: Tracked, s: Segment)
    ensures Core(IngestSegment(parser, c, s)) == Core(RunSteps(parser, c, StepsOf(c, s)))
  {
    hide Peel, ProcessAll, RunSteps, AsSteps, IngestSegment, Fails, Arrived, Core, Touch;
    RunNothing(parser, c);
    if s.payload == [] {
      EmptyIngest(parser, c, s);
    } else if Fails(c, s) {
      FailedIngest(parser, c, s);
    } else {
      var p := Peel(Arrived(c, s));
      var c0 := Touch(c, s.nowMs).WithBuffer(s.direction, p.rest);
      CleanIngest(parser, c, s);
      ProcessAllIsRun(parser, c0, p.items, s.direction, s.nowMs);
      CoreOfTouched(c, s.nowMs, s.direction, p.rest);
      StepsIgnoreRest(parser, c0, c, StepsOf(c, s));
    }
  }

  /**
   After any run of segments, whatever failures it met, the core of the connection is the fold of the
   records that were completed.
   */
  lemma {:induction false} RunCore(parser: MessageParser, c: Tracked, segments: seq<Segment>)
    ensures Core(Run(parser, c, segments)) == Core(RunSteps(parser, c, Completed(parser, c, segments)))
    decreases |segments|
  {
    if segments == [] {
    } else {
      var before, s := Run(parser, c, Front(segments)), Last(segments);
      var h := Completed(parser, c, Front(segments));
      RunCore(parser, c, Front(segments));
      SegmentCore(parser, before, s);
      StepsIgnoreRest(parser, before, RunSteps(parser, c, h), StepsOf(before, s));
      RunStepsAppend(parser, c, h, StepsOf(before, s));
    }
  }
}
