/**
 How the octets of a connection are cut into segments does not matter to what is learned from them.
 */
module Segmentation {
  import opened Wire
  import opened Items
  import opened Framing
  import opened Model
  import opened Connection
  import opened History
  import opened Streams
  import Hello
  import StageLaws
  import TimelineLaws
  import Timeline

  // ----- cutting one segment in two

  /** Two segments at the same time do what one does, if the joined octets fit and hold no oversize header. */
  lemma SplitSegment(parser: MessageParser, c: Tracked, d: Direction, a: bytes, b: bytes, nowMs: nat)
    requires a != [] && b != [] && !Fails(c, Segment(d, a + b, nowMs))
    ensures IngestSegment(parser, IngestSegment(parser, c, Segment(d, a, nowMs)), Segment(d, b, nowMs)) ==
            IngestSegment(parser, c, Segment(d, a + b, nowMs))
  {
    hide Peel, ProcessAll, IngestSegment, Oversize, Touch;
    var buf := c.Buffer(d);
    var first, second := Peel(buf + a), Peel(Peel(buf + a).rest + b);
    var c0 := Touch(c, nowMs).WithBuffer(d, first.rest);
    var m := IngestSegment(parser, c, Segment(d, a, nowMs));
    JoinedPeel(buf, a, b);
    RestFits(buf + a);
    CleanIngest(parser, c, Segment(d, a, nowMs));
    CleanIngest(parser, c, Segment(d, a + b, nowMs));
    ProcessAllKeeps(parser, c0, first.items, d, nowMs);
    TouchedAlready(c, nowMs, d, first.rest, second.rest);
    TouchedTwice(m, nowMs);
    CleanIngest(parser, m, Segment(d, b, nowMs));
    BufferCommutes(parser, c0, first.items, d, nowMs, second.rest);
    ProcessAllAppend(parser, c0.WithBuffer(d, second.rest), first.items, second.items, d, nowMs);
  }

  lemma TouchedAlready(c: Tracked, nowMs: nat, d: Direction, buf: bytes, buf': bytes)
    ensures var c0 := Touch(c, nowMs).WithBuffer(d, buf);
            c0.state.lastSeenMs == nowMs && c0.Buffer(d) == buf &&
            c0.WithBuffer(d, buf') == Touch(c, nowMs).WithBuffer(d, buf')
  {
  }

  lemma TouchedTwice(m: Tracked, nowMs: nat)
    requires m.state.lastSeenMs == nowMs
    ensures Touch(m, nowMs) == m
  {
  }

  lemma JoinedPeel(buf: bytes, a: bytes, b: bytes)
    ensures Extends(Peel(buf + (a + b)), Peel(buf + a).items, Peel(Peel(buf + a).rest + b))
    ensures Oversize(buf + a) ==> Oversize(buf + (a + b))
    ensures Oversize(Peel(buf + a).rest + b) <==> Oversize(buf + (a + b))
  {
    RecordsLawful();
    Associate(buf, a, b);
    ChopComposes(RECORDS, buf + a, b);
    if Oversize(buf + a) {
      OversizeIsFinal(buf + a, b);
    }
  }

  lemma RestFits(buf: bytes)
    ensures |Peel(buf).rest| <= |buf|
  {
    var c := PeelSplits(buf);
  }

  lemma {:induction false} ProcessAllAppend(parser: MessageParser, c: Tracked, a: seq<TlsRecord>, b: seq<TlsRecord>,
                                            d: Direction, t: nat)
    ensures ProcessAll(parser, c, a + b, d, t) == ProcessAll(parser, ProcessAll(parser, c, a, d, t), b, d, t)
    decreases |a|
  {
    hide ProcessRecord;
    if a == [] {
      assert a + b == b;
    } else {
      assert (a + b)[1..] == a[1..] + b;
      ProcessAllAppend(parser, ProcessRecord(parser, c, a[0], d, t), a[1..], b, d, t);
    }
  }

  lemma ProcessAllKeeps(parser: MessageParser, c: Tracked, records: seq<TlsRecord>, d: Direction, t: nat)
    ensures ProcessAll(parser, c, records, d, t).Buffer(d) == c.Buffer(d)
    ensures ProcessAll(parser, c, records, d, t).state.lastSeenMs == c.state.lastSeenMs
  {
    hide ProcessAll, RunSteps, AsSteps;
    ProcessAllIsRun(parser, c, records, d, t);
    StepsKeepBuffers(parser, c, AsSteps(records, d, t));
    StageLaws.StepsEvolve(parser, c, AsSteps(records, d, t));
  }

  lemma {:induction false} BufferCommutes(parser: MessageParser, c: Tracked, records: seq<TlsRecord>, d: Direction,
                                          t: nat, buf: bytes)
    ensures ProcessAll(parser, c, records, d, t).WithBuffer(d, buf) ==
            ProcessAll(parser, c.WithBuffer(d, buf), records, d, t)
    decreases |records|
  {
    hide ProcessRecord;
    if records == [] {
    } else {
      RecordCommutes(parser, c, records[0], d, t, buf);
      BufferCommutes(parser, ProcessRecord(parser, c, records[0], d, t), records[1..], d, t, buf);
    }
  }

  lemma PushCommutes(c: Tracked, r: TlsRecord, d: Direction, t: nat, e: Direction, buf: bytes)
    ensures PushRecordEvent(c, r, d, t).WithBuffer(e, buf) == PushRecordEvent(c.WithBuffer(e, buf), r, d, t)
  {
    hide EncodeRecord, Hello.HandshakeBody, Preview;
  }

  lemma EncryptedCommutes(c: Tracked, d: Direction, e: Direction, buf: bytes)
    ensures ApplyEncrypted(c, d).WithBuffer(e, buf) == ApplyEncrypted(c.WithBuffer(e, buf), d)
  {
    hide ApplyEncrypted;
    EncryptedKeepsRest(c, d);
    EncryptedKeepsRest(c.WithBuffer(e, buf), d);
    EncryptedIsLocal(c, c.WithBuffer(e, buf), d);
  }

  lemma RecordCommutes(parser: MessageParser, c: Tracked, r: TlsRecord, d: Direction, t: nat, buf: bytes)
    ensures ProcessRecord(parser, c, r, d, t).WithBuffer(d, buf) == ProcessRecord(parser, c.WithBuffer(d, buf), r, d, t)
  {
    hide PushRecordEvent, ApplyEncrypted, Messages, ApplyMessages, ApplyCcs;
    match r.recordType {
      case Handshake =>
        var merged := c.WithHandshake(ApplyMessages(c.state.handshake, Messages(parser, r.payload), d));
        PushCommutes(if c.Ccs(d) then c else merged, r, d, t, d, buf);
      case ApplicationData =>
        EncryptedCommutes(c, d, d, buf);
        var x := ApplyEncrypted(c, d);
        PushCommutes(x.(stopLogging := x.stopLogging || x.encryptedFromClient >= 2 || x.BothCcs()), r, d, t, d, buf);
      case ChangeCipherSpec =>
        var x := c.WithHandshake(ApplyCcs(c.state.handshake, d));
        var marked := if d == ClientToServer then x.(clientCcsSeen := true) else x.(serverCcsSeen := true);
        PushCommutes(marked, r, d, t, d, buf);
      case _ =>
    }
  }

  // ----- when the joined octets do hold an oversize header

  /**
   Below the cap, cutting a segment in two completes the same records if and only if no oversize header
   is in the joined octets, or both ways lose or have nothing: the records before the header when it is
   in the second piece, the records of the second piece when it is in the first.
   */
  lemma SplitKeepsRecords(parser: MessageParser, c: Tracked, d: Direction, a: bytes, b: bytes, nowMs: nat)
    requires a != [] && b != [] && !OverCap(c, Segment(d, a + b, nowMs))
    ensures var m := IngestSegment(parser, c, Segment(d, a, nowMs));
            var buf := c.Buffer(d);
            StepsOf(c, Segment(d, a, nowMs)) + StepsOf(m, Segment(d, b, nowMs)) ==
            StepsOf(c, Segment(d, a + b, nowMs)) <==>
            (!Oversize(buf + (a + b)) ||
             (if Oversize(buf + a) then Oversize(b) || Peel(b).items == [] else Peel(buf + a).items == []))
  {
    hide Peel, ProcessAll, Oversize, AsSteps;
    var buf := c.Buffer(d);
    var m := IngestSegment(parser, c, Segment(d, a, nowMs));
    JoinedPeel(buf, a, b);
    RestFits(buf + a);
    SegmentBuffers(parser, c, Segment(d, a, nowMs));
    assert [] + b == b;
    AsStepsAppend(Peel(buf + a).items, Peel(Peel(buf + a).rest + b).items, d, nowMs);
    assert AsSteps(Peel(b).items, d, nowMs) == [] <==> Peel(b).items == [];
    assert AsSteps(Peel(buf + a).items, d, nowMs) == [] <==> Peel(buf + a).items == [];
  }

  lemma AsStepsAppend(a: seq<TlsRecord>, b: seq<TlsRecord>, d: Direction, nowMs: nat)
    ensures AsSteps(a + b, d, nowMs) == AsSteps(a, d, nowMs) + AsSteps(b, d, nowMs)
  {
  }

  /** A record followed by a header that announces too long a payload. */
  lemma RecordThenOversize(r: TlsRecord, bad: bytes)
    requires RecordOk(r) && OversizeHeader(bad)
    ensures Peel(EncodeRecord(r)) == Chopped([r], []) && Oversize(EncodeRecord(r) + bad)
  {
    hide EncodeRecord, Header, FirstRecord;
    RecordsLawful();
    EncodeCons(RECORDS, r, []);
    assert [r] + [] == [r] && EncodeRecord(r) + [] == EncodeRecord(r);
    ChopNothing(bad);
    ChopNothing([]);
    ChopEncoding(RECORDS, [r], []);
    ChopEncoding(RECORDS, [r], bad);
  }

  lemma ChopNothing(buf: bytes)
    requires !CompleteRecord(buf)
    ensures Chop(RECORDS, buf) == Chopped([], buf)
  {
  }

  /** Joined to an oversize header any record is lost; cut between the two, it is completed. */
  lemma SplitMatters(c: Tracked, d: Direction, r: TlsRecord, bad: bytes, nowMs: nat)
    requires c.Buffer(d) == [] && RecordOk(r) && OversizeHeader(bad)
    ensures StepsOf(c, Segment(d, EncodeRecord(r) + bad, nowMs)) == []
    ensures StepsOf(c, Segment(d, EncodeRecord(r), nowMs)) == [Step(d, r, nowMs)]
  {
    hide Peel;
    RecordThenOversize(r, bad);
    assert [] + EncodeRecord(r) == EncodeRecord(r) && [] + (EncodeRecord(r) + bad) == EncodeRecord(r) + bad;
  }

  // ----- forgetting time

  function Timeless(e: RecordEvent): RecordEvent {
    e.(timestampMs := 0)
  }

  function TimelessLog(log: seq<RecordEvent>): (r: seq<RecordEvent>)
    ensures |r| == |log|
  {
    seq(|log|, i requires 0 <= i < |log| => Timeless(log[i]))
  }

  /** A connection without its buffers and without any time. */
  function Untimed(c: Tracked): Tracked {
    c.(clientToServerBuf := [], serverToClientBuf := [],
       state := c.state.(firstSeenMs := 0, lastSeenMs := 0, records := TimelessLog(c.state.records)))
  }

  predicate SameRecord(s: Step, t: Step) {
    s.record == t.record && s.direction == t.direction
  }

  lemma PushUntimed(a: Tracked, b: Tracked, r: TlsRecord, d: Direction, t: nat, u: nat)
    requires Untimed(a) == Untimed(b)
    ensures Untimed(PushRecordEvent(a, r, d, t)) == Untimed(PushRecordEvent(b, r, d, u))
  {
    hide EncodeRecord;
    var n := SaturatingNext(a.seqCounter);
    assert |a.state.records| == |TimelessLog(a.state.records)| == |b.state.records|;
    assert BuildBody(r, d, a.(seqCounter := n)) == BuildBody(r, d, b.(seqCounter := n)) by {
      BodyUntimed(a.(seqCounter := n), b.(seqCounter := n), r, d);
    }
    if !a.stopLogging && |a.state.records| < RECORD_LOG_CAP {
      var x, y := PushRecordEvent(a, r, d, t), PushRecordEvent(b, r, d, u);
      TimelessAppend(a.state.records, Last(x.state.records));
      TimelessAppend(b.state.records, Last(y.state.records));
    }
  }

  lemma BodyUntimed(a: Tracked, b: Tracked, r: TlsRecord, d: Direction)
    requires Untimed(a) == Untimed(b)
    ensures BuildBody(r, d, a) == BuildBody(r, d, b)
  {
    hide Hello.HandshakeBody, Preview, TimelessLog;
  }

  lemma TimelessAppend(log: seq<RecordEvent>, e: RecordEvent)
    ensures TimelessLog(log + [e]) == TimelessLog(log) + [Timeless(e)]
  {
  }

  lemma EncryptedUntimed(a: Tracked, b: Tracked, d: Direction)
    requires Untimed(a) == Untimed(b)
    ensures Untimed(ApplyEncrypted(a, d)) == Untimed(ApplyEncrypted(b, d))
  {
    hide TimelessLog, ApplyEncrypted;
    EncryptedKeepsRest(a, d);
    EncryptedKeepsRest(b, d);
    EncryptedIsLocal(a, b, d);
  }

  lemma HandshakeUntimed(parser: MessageParser, a: Tracked, b: Tracked, r: TlsRecord, d: Direction, t: nat, u: nat)
    requires Untimed(a) == Untimed(b)
    ensures Untimed(ProcessHandshake(parser, a, r, d, t)) == Untimed(ProcessHandshake(parser, b, r, d, u))
  {
    hide PushRecordEvent, Messages, ApplyMessages, TimelessLog;
    if a.Ccs(d) {
      PushUntimed(a, b, r, d, t, u);
    } else {
      var merged := ApplyMessages(a.state.handshake, Messages(parser, r.payload), d);
      PushUntimed(a.WithHandshake(merged), b.WithHandshake(merged), r, d, t, u);
    }
  }

  lemma ApplicationDataUntimed(a: Tracked, b: Tracked, r: TlsRecord, d: Direction, t: nat, u: nat)
    requires Untimed(a) == Untimed(b)
    ensures Untimed(ProcessApplicationData(a, r, d, t)) == Untimed(ProcessApplicationData(b, r, d, u))
  {
    hide PushRecordEvent, ApplyEncrypted, TimelessLog;
    EncryptedUntimed(a, b, d);
    var x, y := ApplyEncrypted(a, d), ApplyEncrypted(b, d);
    var stop := x.stopLogging || x.encryptedFromClient >= 2 || x.BothCcs();
    PushUntimed(x.(stopLogging := stop), y.(stopLogging := stop), r, d, t, u);
  }

  lemma CcsUntimed(a: Tracked, b: Tracked, r: TlsRecord, d: Direction, t: nat, u: nat)
    requires Untimed(a) == Untimed(b)
    ensures Untimed(ProcessCcs(a, r, d, t)) == Untimed(ProcessCcs(b, r, d, u))
  {
    hide PushRecordEvent, ApplyCcs, TimelessLog;
    var hs := ApplyCcs(a.state.handshake, d);
    var x, y := a.WithHandshake(hs), b.WithHandshake(hs);
    match d {
      case ClientToServer => PushUntimed(x.(clientCcsSeen := true), y.(clientCcsSeen := true), r, d, t, u);
      case ServerToClient => PushUntimed(x.(serverCcsSeen := true), y.(serverCcsSeen := true), r, d, t, u);
    }
  }

  lemma StepUntimed(parser: MessageParser, a: Tracked, b: Tracked, s: Step, t: Step)
    requires Untimed(a) == Untimed(b) && SameRecord(s, t)
    ensures Untimed(ProcessStep(parser, a, s)) == Untimed(ProcessStep(parser, b, t))
  {
    hide ProcessHandshake, ProcessApplicationData, ProcessCcs, Untimed;
    match s.record.recordType {
      case Handshake => HandshakeUntimed(parser, a, b, s.record, s.direction, s.nowMs, t.nowMs);
      case ApplicationData => ApplicationDataUntimed(a, b, s.record, s.direction, s.nowMs, t.nowMs);
      case ChangeCipherSpec => CcsUntimed(a, b, s.record, s.direction, s.nowMs, t.nowMs);
      case _ =>
    }
  }

  ghost predicate SameRecords(h: seq<Step>, g: seq<Step>) {
    |h| == |g| && forall i :: 0 <= i < |h| ==> SameRecord(h[i], g[i])
  }

  lemma {:induction false} StepsUntimed(parser: MessageParser, a: Tracked, b: Tracked, h: seq<Step>, g: seq<Step>)
    requires Untimed(a) == Untimed(b) && SameRecords(h, g)
    ensures Untimed(RunSteps(parser, a, h)) == Untimed(RunSteps(parser, b, g))
    decreases |h|
  {
    hide ProcessStep, Untimed;
    if h == [] {
    } else {
      StepsUntimed(parser, a, b, Front(h), Front(g));
      StepUntimed(parser, RunSteps(parser, a, Front(h)), RunSteps(parser, b, Front(g)), Last(h), Last(g));
    }
  }

  // ----- a clean run is the fold of its records

  lemma SegmentUntimed(parser: MessageParser, c: Tracked, s: Segment)
    requires !Fails(c, s)
    ensures Untimed(IngestSegment(parser, c, s)) == Untimed(RunSteps(parser, c, StepsOf(c, s)))
  {
    hide Peel, ProcessAll, RunSteps, AsSteps, IngestSegment, TimelessLog;
    RunNothing(parser, c);
    if s.payload == [] {
      EmptyIngest(parser, c, s);
    } else {
      var p := Peel(Arrived(c, s));
      var c0 := Touch(c, s.nowMs).WithBuffer(s.direction, p.rest);
      CleanIngest(parser, c, s);
      ProcessAllIsRun(parser, c0, p.items, s.direction, s.nowMs);
      assert Untimed(c0) == Untimed(c);
      StepsUntimed(parser, c0, c, StepsOf(c, s), StepsOf(c, s));
    }
  }

  lemma {:induction false} RunUntimed(parser: MessageParser, c: Tracked, segments: seq<Segment>)
    requires Clean(parser, c, segments)
    ensures Untimed(Run(parser, c, segments)) == Untimed(RunSteps(parser, c, Completed(parser, c, segments)))
    decreases |segments|
  {
    hide IngestSegment, StepsOf, ProcessStep, Untimed;
    if segments == [] {
    } else {
      var before, s := Run(parser, c, Front(segments)), Last(segments);
      var h := Completed(parser, c, Front(segments));
      RunUntimed(parser, c, Front(segments));
      SegmentUntimed(parser, before, s);
      StepsUntimed(parser, before, RunSteps(parser, c, h), StepsOf(before, s), StepsOf(before, s));
      RunStepsAppend(parser, c, h, StepsOf(before, s));
    }
  }

  /** The stage of a run without failures, all of whose completed records are encrypted. */
  lemma StageOfRun(parser: MessageParser, c: Tracked, segments: seq<Segment>)
    requires Clean(parser, c, segments) && StageLaws.EncryptedRun(Completed(parser, c, segments))
    requires !Timeline.IsOld(c.state.handshake.tlsVersion)
    requires c.encryptedFromServer == 0 && c.encryptedFromClient == 0 && !c.sawClientFinished
    ensures StageLaws.FollowsDirections(Run(parser, c, segments), c.state.handshake.stage,
                                        StageLaws.EncryptedDirections(Completed(parser, c, segments)))
  {
    hide Run, Completed, RunSteps, StageLaws.FollowsDirections, StageLaws.EncryptedRun, CleanIn, TimelessLog;
    var h := Completed(parser, c, segments);
    StageLaws.StageFollowsDirections(parser, c, h);
    RunUntimed(parser, c, segments);
    var a, b := RunSteps(parser, c, h), Run(parser, c, segments);
    assert Untimed(a).state.handshake == a.state.handshake && Untimed(b).state.handshake == b.state.handshake;
    StageLaws.DirectionsFromCounters(a, b, c.state.handshake.stage, StageLaws.EncryptedDirections(h));
  }

  /** A reachable connection shows an error exactly if some segment of its run failed. */
  lemma {:induction false} ErrorIffFailure(parser: MessageParser, key: ConnectionKey, nowMs: nat,
                                           origin: Option<Origin>, segments: seq<Segment>)
    ensures var born := TimelineLaws.Born(key, nowMs, origin);
            Run(parser, born, segments).state.handshake.error.None? <==> Clean(parser, born, segments)
    decreases |segments|
  {
    hide Fails, IngestSegment;
    if segments == [] {
    } else {
      var born := TimelineLaws.Born(key, nowMs, origin);
      ErrorIffFailure(parser, key, nowMs, origin, Front(segments));
      StageLaws.SegmentError(parser, Run(parser, born, Front(segments)), Last(segments));
    }
  }

  // ----- the order of completion and the two streams decide the records

  function Directions(h: seq<Step>): seq<Direction> {
    seq(|h|, i requires 0 <= i < |h| => h[i].direction)
  }

  lemma DirectionsSnoc(h: seq<Step>)
    requires h != []
    ensures Directions(h) == Directions(Front(h)) + [Last(h).direction]
  {
  }

  lemma RecordsSnoc(h: seq<Step>, d: Direction)
    requires h != []
    ensures RecordsOf(h, d) ==
            if Last(h).direction == d then RecordsOf(Front(h), d) + [Last(h).record] else RecordsOf(Front(h), d)
  {
  }

  lemma SameEnds<T>(a: seq<T>, x: T, b: seq<T>, y: T)
    requires a + [x] == b + [y]
    ensures a == b && x == y
  {
    assert |a + [x]| == |b + [y]|;
    assert (a + [x])[|a|] == (b + [y])[|b|];
    assert (a + [x])[..|a|] == a && (b + [y])[..|b|] == b;
  }

  lemma {:induction false} OrderAndStreamsDecide(h: seq<Step>, g: seq<Step>)
    requires Directions(h) == Directions(g)
    requires forall d :: RecordsOf(h, d) == RecordsOf(g, d)
    ensures SameRecords(h, g)
    decreases |h|
  {
    assert |Directions(h)| == |h| && |Directions(g)| == |g|;
    if h == [] {
    } else {
      hide Directions, RecordsOf;
      var d := Last(h).direction;
      DirectionsSnoc(h);
      DirectionsSnoc(g);
      SameEnds(Directions(Front(h)), d, Directions(Front(g)), Last(g).direction);
      RecordsSnoc(h, d);
      RecordsSnoc(g, d);
      SameEnds(RecordsOf(Front(h), d), Last(h).record, RecordsOf(Front(g), d), Last(g).record);
      forall e
        ensures RecordsOf(Front(h), e) == RecordsOf(Front(g), e)
      {
        RecordsSnoc(h, e);
        RecordsSnoc(g, e);
      }
      OrderAndStreamsDecide(Front(h), Front(g));
    }
  }

  /**
   Segmentation independence. Two clean runs over the same octets in each direction, cut in any two ways:
   if the directions in which records are completed come in the same order, the runs end in the same
   state, but for times.
   */
  lemma SegmentationIndependence(parser: MessageParser, c: Tracked, one: seq<Segment>, other: seq<Segment>)
    requires ResidualBuffers(c) && Clean(parser, c, one) && Clean(parser, c, other)
    requires forall d :: BytesOf(one, d) == BytesOf(other, d)
    requires Directions(Completed(parser, c, one)) == Directions(Completed(parser, c, other))
    ensures Untimed(Run(parser, c, one)) == Untimed(Run(parser, c, other))
    ensures forall d :: Run(parser, c, one).Buffer(d) == Run(parser, c, other).Buffer(d)
  {
    hide Run, Completed, CleanIn, RunSteps, RecordsOf, BytesOf, Untimed, Peel, Directions;
    var h, g := Completed(parser, c, one), Completed(parser, c, other);
    forall d
      ensures RecordsOf(h, d) == RecordsOf(g, d) && Run(parser, c, one).Buffer(d) == Run(parser, c, other).Buffer(d)
    {
      assert Stream(c, one, d) == Stream(c, other, d);
      assert d == ClientToServer || d == ServerToClient;
      RunFramesStream(parser, c, one, d);
      RunFramesStream(parser, c, other, d);
    }
    OrderAndStreamsDecide(h, g);
    StepsUntimed(parser, c, c, h, g);
    RunUntimed(parser, c, one);
    RunUntimed(parser, c, other);
  }

  /** For segments too short to fill a buffer it is enough that neither stream has an oversize header. */
  lemma StreamsDecide(parser: MessageParser, c: Tracked, one: seq<Segment>, other: seq<Segment>)
    requires ResidualBuffers(c) && Short(one) && Short(other)
    requires forall d :: BytesOf(one, d) == BytesOf(other, d) && !Oversize(Stream(c, one, d))
    requires Directions(Completed(parser, c, one)) == Directions(Completed(parser, c, other))
    ensures Untimed(Run(parser, c, one)) == Untimed(Run(parser, c, other))
    ensures forall d :: Run(parser, c, one).Buffer(d) == Run(parser, c, other).Buffer(d)
  {
    hide Run, Completed, Clean, BytesOf, Untimed, Oversize, Directions;
    assert forall d :: Stream(c, one, d) == Stream(c, other, d);
    assert !Oversize(Stream(c, one, ClientToServer)) && !Oversize(Stream(c, one, ServerToClient));
    CleanExactly(parser, c, one);
    CleanExactly(parser, c, other);
    SegmentationIndependence(parser, c, one, other);
  }
}
