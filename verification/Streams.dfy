/**
 Reassembly over whole runs: the buffers, the octets they hold, when the first failure comes, and the
 octets of the timeline.
 */
module Streams {
  import opened Wire
  import opened Items
  import opened Framing
  import opened Model
  import opened Connection
  import opened History
  import opened Timeline
  import opened TimelineLaws
  import LogLaws

  /** Segments no longer than this never fill a buffer. */
  const MAX_SAFE_SEGMENT := MAX_REASSEMBLY_BYTES - (MAX_RECORD_PAYLOAD + RECORD_HEADER_LEN - 1)

  ghost predicate ResidualBuffers(c: Tracked) {
    Residual(c.clientToServerBuf) && Residual(c.serverToClientBuf)
  }

  function BytesOf(segments: seq<Segment>, d: Direction): bytes
    decreases |segments|
  {
    if segments == [] then []
    else BytesOf(Front(segments), d) + if Last(segments).direction == d then Last(segments).payload else []
  }

  function RecordsOf(h: seq<Step>, d: Direction): seq<TlsRecord>
    decreases |h|
  {
    if h == [] then []
    else RecordsOf(Front(h), d) + if Last(h).direction == d then [Last(h).record] else []
  }

  /** All the octets of one direction: those buffered at the start and those of the segments. */
  function Stream(c: Tracked, segments: seq<Segment>, d: Direction): bytes {
    c.Buffer(d) + BytesOf(segments, d)
  }

  /** No segment of one direction fails, whatever the other direction does. */
  predicate CleanIn(parser: MessageParser, c: Tracked, segments: seq<Segment>, d: Direction)
    decreases |segments|
  {
    segments == [] ||
    (CleanIn(parser, c, Front(segments), d) &&
     (Last(segments).direction == d ==> !Fails(Run(parser, c, Front(segments)), Last(segments))))
  }

  /** No segment of the run fails. */
  predicate Clean(parser: MessageParser, c: Tracked, segments: seq<Segment>) {
    CleanIn(parser, c, segments, ClientToServer) && CleanIn(parser, c, segments, ServerToClient)
  }

  // ----- buffers

  lemma {:induction false} StepsKeepBuffers(parser: MessageParser, c: Tracked, h: seq<Step>)
    ensures forall d :: RunSteps(parser, c, h).Buffer(d) == c.Buffer(d)
    decreases |h|
  {
    hide ProcessStep;
    if h == [] {
    } else {
      StepsKeepBuffers(parser, c, Front(h));
      StepParts(parser, RunSteps(parser, c, Front(h)), Last(h));
    }
  }

  /** The buffer of a direction after a segment. */
  function BufferAfter(c: Tracked, s: Segment, d: Direction): bytes {
    if d != s.direction || s.payload == [] || OverCap(c, s) then c.Buffer(d)
    else if Oversize(Arrived(c, s)) then []
    else Peel(Arrived(c, s)).rest
  }

  lemma SegmentBuffers(parser: MessageParser, c: Tracked, s: Segment)
    ensures forall d :: IngestSegment(parser, c, s).Buffer(d) == BufferAfter(c, s, d)
  {
    hide Peel, ProcessAll, RunSteps, AsSteps;
    var p := Peel(Arrived(c, s));
    var c0 := Touch(c, s.nowMs).WithBuffer(s.direction, p.rest);
    ProcessAllIsRun(parser, c0, p.items, s.direction, s.nowMs);
    StepsKeepBuffers(parser, c0, AsSteps(p.items, s.direction, s.nowMs));
  }

  lemma PeelLeavesResidual(buf: bytes)
    ensures Oversize(buf) || Residual(Peel(buf).rest)
    ensures Residual([])
  {
    var c := PeelSplits(buf);
  }

  /**
   After every segment, whichever branch it took, each buffer is an incomplete record, or four octets that
   no record starts with; it holds at most 16,388 octets.
   */
  lemma {:induction false} BuffersOfRun(parser: MessageParser, c: Tracked, segments: seq<Segment>)
    requires ResidualBuffers(c)
    ensures ResidualBuffers(Run(parser, c, segments))
    ensures forall d :: Unfinished(Run(parser, c, segments).Buffer(d))
    ensures forall d :: |Run(parser, c, segments).Buffer(d)| <= 16_388
    decreases |segments|
  {
    hide Peel, IngestSegment, Unfinished;
    if segments == [] {
    } else {
      var before, s := Run(parser, c, Front(segments)), Last(segments);
      BuffersOfRun(parser, c, Front(segments));
      SegmentBuffers(parser, before, s);
      PeelLeavesResidual(Arrived(before, s));
      assert forall d :: Residual(before.Buffer(d)) && Residual(BufferAfter(before, s, d));
      assert Run(parser, c, segments).Buffer(ClientToServer) == BufferAfter(before, s, ClientToServer);
      assert Run(parser, c, segments).Buffer(ServerToClient) == BufferAfter(before, s, ServerToClient);
    }
    ResidualExact(Run(parser, c, segments).clientToServerBuf);
    ResidualExact(Run(parser, c, segments).serverToClientBuf);
  }

  /** A type, a version and an octet with which every length is too long. */
  const DOOMED_OCTETS: bytes := [22, 3, 3, 0xFF]

  /**
   A buffer need not be an incomplete record: four octets that no record starts with are kept, and any later
   segment of their direction then fails.
   */
  lemma DoomedIsKept(parser: MessageParser, c: Tracked, d: Direction, nowMs: nat, later: Segment)
    requires c.Buffer(d) == [] && later.direction == d && later.payload != []
    ensures Run(parser, c, [Segment(d, DOOMED_OCTETS, nowMs)]).Buffer(d) == DOOMED_OCTETS
    ensures Doomed(DOOMED_OCTETS) && !Incomplete(DOOMED_OCTETS)
    ensures Fails(Run(parser, c, [Segment(d, DOOMED_OCTETS, nowMs)]), later)
  {
    hide Peel, IngestSegment, Incomplete;
    var s := Segment(d, DOOMED_OCTETS, nowMs);
    assert Front([s]) == [] && Run(parser, c, []) == c;
    assert [] + DOOMED_OCTETS == DOOMED_OCTETS;
    SegmentBuffers(parser, c, s);
    PeelResidual(DOOMED_OCTETS);
    ResidualExact(DOOMED_OCTETS);
    DoomedFails(DOOMED_OCTETS, later.payload);
  }

  /** The cap on the buffer is out of reach of segments of up to 114,684 octets. */
  lemma CapUnreachable(parser: MessageParser, c: Tracked, segments: seq<Segment>, s: Segment)
    requires ResidualBuffers(c) && |s.payload| <= MAX_SAFE_SEGMENT
    ensures !OverCap(Run(parser, c, segments), s)
    ensures MAX_SAFE_SEGMENT == 114_684
  {
    hide Run;
    BuffersOfRun(parser, c, segments);
  }

  // ----- the records of a run are the framing of its streams

  lemma {:induction false} RecordsAppend(a: seq<Step>, b: seq<Step>, d: Direction)
    ensures RecordsOf(a + b, d) == RecordsOf(a, d) + RecordsOf(b, d)
    decreases |b|
  {
    if b == [] {
      assert a + b == a;
    } else {
      assert Front(a + b) == a + Front(b) && Last(a + b) == Last(b);
      RecordsAppend(a, Front(b), d);
    }
  }

  lemma {:induction false} RecordsOfSteps(records: seq<TlsRecord>, from: Direction, nowMs: nat, d: Direction)
    ensures RecordsOf(AsSteps(records, from, nowMs), d) == if d == from then records else []
    decreases |records|
  {
    var h := AsSteps(records, from, nowMs);
    if records == [] {
    } else {
      RecordsOfSteps(Front(records), from, nowMs, d);
      assert Front(h) == AsSteps(Front(records), from, nowMs);
    }
  }

  lemma PeelResidual(buf: bytes)
    requires Residual(buf)
    ensures Peel(buf) == Chopped([], buf)
  {
  }

  /**
   While no segment of a direction fails, the records completed in it, and what its buffer holds, are the
   one-shot framing of all its octets, whatever the other direction does.
   */
  lemma {:induction false} RunFramesStream(parser: MessageParser, c: Tracked, segments: seq<Segment>, d: Direction)
    requires ResidualBuffers(c) && CleanIn(parser, c, segments, d)
    ensures Peel(Stream(c, segments, d)) ==
            Chopped(RecordsOf(Completed(parser, c, segments), d), Run(parser, c, segments).Buffer(d))
    decreases |segments|
  {
    hide Peel, IngestSegment, AsSteps, RecordsOf;
    if segments == [] {
      PeelResidual(c.Buffer(d));
      NoRecords(d);
      assert Stream(c, segments, d) == c.Buffer(d);
    } else {
      var before, s := Run(parser, c, Front(segments)), Last(segments);
      var h := Completed(parser, c, Front(segments));
      RunFramesStream(parser, c, Front(segments), d);
      SegmentBuffers(parser, before, s);
      RecordsAppend(h, StepsOf(before, s), d);
      if s.payload == [] || d != s.direction {
        StreamStays(c, segments, d);
        SilentSteps(before, s, d);
      } else {
        StreamGrows(c, segments, d);
        RecordsLawful();
        ChopComposes(RECORDS, Stream(c, Front(segments), d), s.payload);
        RecordsOfSteps(Peel(Arrived(before, s)).items, s.direction, s.nowMs, d);
        assert Peel(Stream(c, segments, d)) == Chop(RECORDS, Stream(c, Front(segments), d) + s.payload) by {
          PeelIsChop(Stream(c, segments, d));
        }
        PeelIsChop(Stream(c, Front(segments), d));
        PeelIsChop(Arrived(before, s));
      }
    }
  }

  lemma PeelIsChop(buf: bytes)
    ensures Peel(buf) == Chop(RECORDS, buf)
  {
  }

  lemma NoRecords(d: Direction)
    ensures RecordsOf([], d) == []
  {
  }

  lemma SilentSteps(c: Tracked, s: Segment, d: Direction)
    requires s.payload == [] || d != s.direction
    ensures RecordsOf(StepsOf(c, s), d) == []
  {
    hide Peel, AsSteps;
    RecordsOfSteps(Peel(Arrived(c, s)).items, s.direction, s.nowMs, d);
    NoRecords(d);
  }

  lemma StreamStays(c: Tracked, segments: seq<Segment>, d: Direction)
    requires segments != [] && (Last(segments).payload == [] || d != Last(segments).direction)
    ensures Stream(c, segments, d) == Stream(c, Front(segments), d)
  {
  }

  lemma StreamGrows(c: Tracked, segments: seq<Segment>, d: Direction)
    requires segments != [] && d == Last(segments).direction
    ensures Stream(c, segments, d) == Stream(c, Front(segments), d) + Last(segments).payload
  {
  }

  // ----- the first failure

  /** Every segment is short enough for its buffer. */
  ghost predicate Short(segments: seq<Segment>) {
    forall i :: 0 <= i < |segments| ==> |segments[i].payload| <= MAX_SAFE_SEGMENT
  }

  /** Whether the newest segment fails is decided by the whole stream of its direction. */
  lemma FailsByStream(parser: MessageParser, c: Tracked, segments: seq<Segment>)
    requires segments != [] && ResidualBuffers(c) && CleanIn(parser, c, Front(segments), Last(segments).direction)
    requires |Last(segments).payload| <= MAX_SAFE_SEGMENT && Last(segments).payload != []
    ensures Fails(Run(parser, c, Front(segments)), Last(segments)) <==>
            Oversize(Stream(c, segments, Last(segments).direction))
  {
    hide Peel, Run, Completed, RecordsOf;
    var before, s := Run(parser, c, Front(segments)), Last(segments);
    CapUnreachable(parser, c, Front(segments), s);
    RunFramesStream(parser, c, Front(segments), s.direction);
    StreamGrows(c, segments, s.direction);
    ArrivedOversize(Stream(c, Front(segments), s.direction), s.payload);
  }

  lemma ArrivedOversize(a: bytes, b: bytes)
    ensures Oversize(a + b) <==> Oversize(Peel(a).rest + b)
  {
    RecordsLawful();
    ChopComposes(RECORDS, a, b);
  }

  /**
   However the octets are cut into segments, a segment of a direction fails if and only if framing the
   whole stream of that direction does.
   */
  lemma {:induction false} CleanInExactly(parser: MessageParser, c: Tracked, segments: seq<Segment>, d: Direction)
    requires ResidualBuffers(c) && Short(segments)
    ensures CleanIn(parser, c, segments, d) <==> !Oversize(Stream(c, segments, d))
    decreases |segments|
  {
    hide Peel, Run, Oversize;
    if segments == [] {
      StartIsNotOversize(c);
      assert Stream(c, segments, d) == c.Buffer(d);
    } else {
      var s := Last(segments);
      CleanInExactly(parser, c, Front(segments), d);
      if s.payload == [] || d != s.direction {
        StreamStays(c, segments, d);
      } else {
        StreamGrows(c, segments, d);
        if Oversize(Stream(c, Front(segments), d)) {
          OversizeIsFinal(Stream(c, Front(segments), d), s.payload);
        } else {
          FailsByStream(parser, c, segments);
        }
      }
    }
  }

  /** The run meets a failure if and only if framing one of the two whole streams does. */
  lemma CleanExactly(parser: MessageParser, c: Tracked, segments: seq<Segment>)
    requires ResidualBuffers(c) && Short(segments)
    ensures Clean(parser, c, segments) <==>
            !Oversize(Stream(c, segments, ClientToServer)) && !Oversize(Stream(c, segments, ServerToClient))
  {
    hide CleanIn, Oversize;
    CleanInExactly(parser, c, segments, ClientToServer);
    CleanInExactly(parser, c, segments, ServerToClient);
  }

  lemma StartIsNotOversize(c: Tracked)
    requires ResidualBuffers(c)
    ensures !Oversize(c.clientToServerBuf) && !Oversize(c.serverToClientBuf)
  {
  }

  lemma {:induction false} BytesPrefix(segments: seq<Segment>, k: nat, d: Direction)
    requires k <= |segments|
    ensures BytesOf(segments[..k], d) <= BytesOf(segments, d)
    decreases |segments|
  {
    if k < |segments| {
      assert Front(segments)[..k] == segments[..k];
      BytesPrefix(Front(segments), k, d);
    } else {
      assert segments[..k] == segments;
    }
  }

  /** The first `k` segments bring the fifth octet of the first oversize header of a direction. */
  ghost predicate BadHeaderArrives(c: Tracked, segments: seq<Segment>, k: nat, d: Direction)
    requires k <= |segments|
  {
    var stream := Stream(c, segments, d);
    Oversize(stream) && |Stream(c, segments[..k], d)| >= |stream| - |Peel(stream).rest| + RECORD_HEADER_LEN
  }

  lemma PrefixOversize(c: Tracked, segments: seq<Segment>, k: nat, d: Direction)
    requires k <= |segments|
    ensures Oversize(Stream(c, segments[..k], d)) <==> BadHeaderArrives(c, segments, k, d)
  {
    hide BytesOf, Peel, Oversize;
    var stream, part := Stream(c, segments, d), Stream(c, segments[..k], d);
    BytesPrefix(segments, k, d);
    assert part == stream[..|part|] && stream == part + stream[|part|..];
    if Oversize(stream) {
      OversizeShowsAtFifthOctet(stream, |part|);
    } else if Oversize(part) {
      OversizeIsFinal(part, stream[|part|..]);
    }
  }

  /**
   However the octets of the two directions are cut, the first `k` segments hold no failure of a direction
   exactly as long as the fifth octet of its first oversize header has not arrived.
   */
  lemma FailureIsPrompt(parser: MessageParser, c: Tracked, segments: seq<Segment>, k: nat)
    requires ResidualBuffers(c) && Short(segments) && k <= |segments|
    ensures forall d :: CleanIn(parser, c, segments[..k], d) <==> !BadHeaderArrives(c, segments, k, d)
    ensures Clean(parser, c, segments[..k]) <==>
            !BadHeaderArrives(c, segments, k, ClientToServer) && !BadHeaderArrives(c, segments, k, ServerToClient)
  {
    hide CleanIn, Oversize, Stream, BadHeaderArrives;
    forall d
      ensures CleanIn(parser, c, segments[..k], d) <==> !BadHeaderArrives(c, segments, k, d)
    {
      CleanInExactly(parser, c, segments[..k], d);
      PrefixOversize(c, segments, k, d);
    }
  }

  // ----- runs with failures

  /**
   The octets of one direction that still count: those of its segments, but for a segment that would
   exceed the cap, which is dropped, and starting anew after one that completes an oversize header.
   */
  function Live(start: bytes, segments: seq<Segment>, d: Direction): bytes
    decreases |segments|
  {
    if segments == [] then start else LiveAfter(Live(start, Front(segments), d), Last(segments), d)
  }

  function LiveAfter(live: bytes, s: Segment, d: Direction): bytes {
    if s.direction != d || |Peel(live).rest| + |s.payload| > MAX_REASSEMBLY_BYTES then live
    else if Oversize(live + s.payload) then []
    else live + s.payload
  }

  /** The records that one segment adds to the framing of the octets that count. */
  function Gained(live: bytes, s: Segment, d: Direction): seq<TlsRecord> {
    var n, after := |Peel(live).items|, Peel(LiveAfter(live, s, d)).items;
    if n <= |after| then after[n..] else []
  }

  /** The records that the segments of one direction add, one after the other. */
  function FramedLive(start: bytes, segments: seq<Segment>, d: Direction): seq<TlsRecord>
    decreases |segments|
  {
    if segments == [] then []
    else FramedLive(start, Front(segments), d) + Gained(Live(start, Front(segments), d), Last(segments), d)
  }

  /** One segment, whichever branch it takes, does to a buffer what it does to the octets that count. */
  lemma LiveStep(c: Tracked, s: Segment, live: bytes, d: Direction)
    requires !Oversize(live) && Peel(live).rest == c.Buffer(d)
    ensures !Oversize(LiveAfter(live, s, d)) && Peel(LiveAfter(live, s, d)).rest == BufferAfter(c, s, d)
    ensures RecordsOf(StepsOf(c, s), d) == Gained(live, s, d)
  {
    hide Chop, AsSteps;
    if s.payload == [] || d != s.direction {
      SilentSteps(c, s, d);
      assert live + [] == live;
    } else if OverCap(c, s) {
      NoRecords(d);
    } else {
      ArrivedOversize(live, s.payload);
      RecordsLawful();
      ChopComposes(RECORDS, live, s.payload);
      RecordsOfSteps(Peel(Arrived(c, s)).items, s.direction, s.nowMs, d);
      NoRecords(d);
      PeelNothing();
    }
  }

  lemma PeelNothing()
    ensures Peel([]) == Chopped([], []) && !Oversize([])
  {
  }

  /**
   Over any run, failures included, the buffer of a direction is what one-shot framing leaves of the octets
   that count, and the records completed in it are those that this framing gained, segment by segment.
   */
  lemma {:induction false} RunFramesLive(parser: MessageParser, c: Tracked, segments: seq<Segment>, d: Direction)
    requires ResidualBuffers(c)
    ensures var live := Live(c.Buffer(d), segments, d);
            !Oversize(live) && Peel(live).rest == Run(parser, c, segments).Buffer(d)
    ensures RecordsOf(Completed(parser, c, segments), d) == FramedLive(c.Buffer(d), segments, d)
    decreases |segments|
  {
    hide Peel, Oversize, IngestSegment, StepsOf, RecordsOf, LiveAfter, Gained;
    if segments == [] {
      StartIsNotOversize(c);
      PeelResidual(c.Buffer(d));
      NoRecords(d);
    } else {
      var before, s := Run(parser, c, Front(segments)), Last(segments);
      RunFramesLive(parser, c, Front(segments), d);
      SegmentBuffers(parser, before, s);
      LiveStep(before, s, Live(c.Buffer(d), Front(segments), d), d);
      RecordsAppend(Completed(parser, c, Front(segments)), StepsOf(before, s), d);
    }
  }

  // ----- conservation of octets

  /** The octets shown on the timeline for one direction. */
  function RawOf(log: seq<RecordEvent>, d: Direction): bytes
    decreases |log|
  {
    if log == [] then []
    else RawOf(Front(log), d) + if Last(log).direction == d then Last(log).raw else []
  }

  /** How many entries of the timeline are of one direction. */
  function EntriesOf(log: seq<RecordEvent>, d: Direction): nat
    decreases |log|
  {
    if log == [] then 0 else EntriesOf(Front(log), d) + if Last(log).direction == d then 1 else 0
  }

  /** What was completed and what is still buffered is everything that arrived. */
  lemma RunConservesOctets(parser: MessageParser, c: Tracked, segments: seq<Segment>, d: Direction)
    requires ResidualBuffers(c) && CleanIn(parser, c, segments, d)
    ensures EncodeAll(RecordsOf(Completed(parser, c, segments), d)) + Run(parser, c, segments).Buffer(d) ==
            Stream(c, segments, d)
  {
    hide Run, Completed, RecordsOf;
    RunFramesStream(parser, c, segments, d);
    RecordsLawful();
    ChopIsSound(RECORDS, Stream(c, segments, d));
  }

  lemma {:induction false} RawOfPrefix(log: seq<RecordEvent>, h: seq<Step>, d: Direction)
    requires |log| == |h| && forall i :: 0 <= i < |log| ==> LogLaws.Shows(log[i], h[i], i + 1)
    ensures RawOf(log, d) == EncodeAll(RecordsOf(h, d)) && EntriesOf(log, d) == |RecordsOf(h, d)|
    decreases |log|
  {
    hide EncodeRecord;
    if log == [] {
    } else {
      RawOfPrefix(Front(log), Front(h), d);
      assert LogLaws.Shows(Last(log), Last(h), |log|);
      EncodeAppend(RECORDS, RecordsOf(Front(h), d), [Last(h).record]);
      assert EncodeItems(RECORDS, [Last(h).record]) == EncodeRecord(Last(h).record) by {
        EncodeCons(RECORDS, Last(h).record, []);
        assert [Last(h).record] + [] == [Last(h).record];
        assert EncodeRecord(Last(h).record) + [] == EncodeRecord(Last(h).record);
      }
      assert RecordsOf(Front(h), d) + [] == RecordsOf(Front(h), d);
    }
  }

  lemma {:induction false} LoggableRecords(h: seq<Step>, d: Direction)
    ensures |RecordsOf(LoggableOf(h), d)| <= |RecordsOf(h, d)|
    ensures |RecordsOf(LoggableOf(h), d)| == |RecordsOf(h, d)| ==> RecordsOf(LoggableOf(h), d) == RecordsOf(h, d)
    decreases |h|
  {
    if h == [] {
    } else {
      LoggableRecords(Front(h), d);
      if Loggable(Last(h)) {
        assert Front(LoggableOf(h)) == LoggableOf(Front(h));
      } else {
        assert LoggableOf(h) == LoggableOf(Front(h));
      }
    }
  }

  /**
   While no record of a direction has been left out of the timeline and no segment of it has failed, the raw
   octets of its entries, followed by its buffer, are exactly the octets that arrived in it.
   */
  lemma TimelineConservesOctets(parser: MessageParser, key: ConnectionKey, nowMs: nat, origin: Option<Origin>,
                                segments: seq<Segment>, d: Direction)
    requires CleanIn(parser, Born(key, nowMs, origin), segments, d)
    requires var born := Born(key, nowMs, origin);
             EntriesOf(Run(parser, born, segments).state.records, d) ==
             |RecordsOf(Completed(parser, born, segments), d)|
    ensures var c := Run(parser, Born(key, nowMs, origin), segments);
            RawOf(c.state.records, d) + c.Buffer(d) == BytesOf(segments, d)
  {
    hide Run, Completed, CleanIn, Log, LoggableOf, RawOf, EntriesOf, RecordsOf, EncodeAll, LogLaws.Shows,
         LogLaws.Closed;
    var born := Born(key, nowMs, origin);
    var h := Completed(parser, born, segments);
    TimelineOfRun(parser, key, nowMs, origin, segments);
    LogLaws.LogIsPrefix(parser, h);
    var shown := LoggableOf(h)[..|Log(parser, h)|];
    RawOfPrefix(Log(parser, h), shown, d);
    RecordsAppend(shown, LoggableOf(h)[|shown|..], d);
    assert shown + LoggableOf(h)[|shown|..] == LoggableOf(h);
    LoggableRecords(h, d);
    assert RecordsOf(shown, d) == RecordsOf(h, d);
    RunConservesOctets(parser, born, segments, d);
    assert Stream(born, segments, d) == BytesOf(segments, d);
  }

  /** Everything completed by a run is a record that framing can produce. */
  lemma {:induction false} CompletedOk(parser: MessageParser, c: Tracked, segments: seq<Segment>)
    ensures forall i :: 0 <= i < |Completed(parser, c, segments)| ==> RecordOk(Completed(parser, c, segments)[i].record)
    decreases |segments|
  {
    hide Run, RecordOk;
    if segments == [] {
    } else {
      CompletedOk(parser, c, Front(segments));
      StepsOk(Run(parser, c, Front(segments)), Last(segments));
    }
  }

  lemma StepsOk(c: Tracked, s: Segment)
    ensures forall i :: 0 <= i < |StepsOf(c, s)| ==> RecordOk(StepsOf(c, s)[i].record)
  {
    RecordsLawful();
    ChopIsSound(RECORDS, Arrived(c, s));
    assert forall i :: 0 <= i < |Peel(Arrived(c, s)).items| ==> RECORDS.ok(Peel(Arrived(c, s)).items[i]);
  }

  /** The raw octets of every entry parse back to exactly the record it shows. */
  lemma RawReparses(parser: MessageParser, key: ConnectionKey, nowMs: nat, origin: Option<Origin>,
                    segments: seq<Segment>, i: nat)
    requires var c := Run(parser, Born(key, nowMs, origin), segments); i < |c.state.records|
    ensures var e := Run(parser, Born(key, nowMs, origin), segments).state.records[i];
            var h := Completed(parser, Born(key, nowMs, origin), segments);
            exists k :: 0 <= k < |h| && Parse(e.raw) == Ok([h[k].record], |e.raw|) &&
                        e.outerType == h[k].record.recordType && e.outerLength == |h[k].record.payload|
  {
    hide Run, Completed, Log, EncodeRecord;
    var born := Born(key, nowMs, origin);
    var h := Completed(parser, born, segments);
    TimelineOfRun(parser, key, nowMs, origin, segments);
    CompletedOk(parser, born, segments);
    var k := LogLaws.EntryMoment(parser, h, i);
    assert Last(h[..k]) == h[k - 1];
    OneRecordParses(h[k - 1].record);
  }

  lemma OneRecordParses(r: TlsRecord)
    requires RecordOk(r)
    ensures Parse(EncodeRecord(r)) == Ok([r], |EncodeRecord(r)|)
  {
    hide EncodeRecord;
    EncodeCons(RECORDS, r, []);
    assert [r] + [] == [r];
    var raw := EncodeRecord(r);
    assert raw + [] == raw && raw[..|raw|] == raw && raw[|raw|..] == [];
    ResidualExact([]);
    ParseIsExact(raw, [r], |raw|);
  }

  // ----- the record types on the wire

  /**
   The four content types by their codes (section 5.1 of RFC 8446): every record with a bounded payload, its
   other types outside 20 to 23, starts with its code and comes back.
   */
  lemma TypesOnTheWire(r: TlsRecord)
    requires |r.payload| <= 16_384 && (r.recordType.Other? ==> r.recordType.code !in {20, 21, 22, 23})
    ensures Parse(EncodeRecord(r)) == Ok([r], 5 + |r.payload|)
    ensures var first := EncodeRecord(r)[0];
            (first == 20 <==> r.recordType == ChangeCipherSpec) && (first == 21 <==> r.recordType == Alert) &&
            (first == 22 <==> r.recordType == Handshake) && (first == 23 <==> r.recordType == ApplicationData)
  {
    assert RecordOk(r);
    OneRecordParses(r);
  }

  /** A ServerHelloDone message in a TLS 1.2 record. */
  lemma HelloDoneOnTheWire()
    ensures Parse([22, 3, 3, 0, 4, 14, 0, 0, 0]) == Ok([TlsRecord(Handshake, 0x303, [14, 0, 0, 0])], 9)
  {
    hide Parse;
    var r := TlsRecord(Handshake, 0x303, [14, 0, 0, 0]);
    PutU16Inverse(3, 3);
    PutU16Inverse(0, 4);
    assert EncodeRecord(r) == [22, 3, 3, 0, 4, 14, 0, 0, 0];
    TypesOnTheWire(r);
  }
}
