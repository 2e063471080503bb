/**
 What holds of every timeline: it is a prefix of the loggable records, it stops for good, and its labels
 respect the order of the handshake.
 */
module LogLaws {
  import opened Wire
  import opened Framing
  import opened Hello
  import opened Model
  import opened Connection
  import opened History
  import opened Timeline
  import opened TimelineLaws

  // ----- logging stops for good

  lemma OverIsFinal(parser: MessageParser, h: seq<Step>)
    requires h != [] && Over(parser, Front(h))
    ensures Over(parser, h)
  {
    hide EndsHandshake, InFlight;
    EndedSnoc(h);
  }

  /** Nothing more is kept once logging is over or the timeline is full. */
  ghost predicate Closed(parser: MessageParser, h: seq<Step>) {
    Over(parser, h) || |Log(parser, h)| >= 64
  }

  lemma ClosedStep(parser: MessageParser, h: seq<Step>)
    requires h != [] && Closed(parser, Front(h))
    ensures Log(parser, h) == Log(parser, Front(h)) && Closed(parser, h)
  {
    hide EventAt;
    if Over(parser, Front(h)) {
      OverIsFinal(parser, h);
    }
  }

  lemma SnocStep(parser: MessageParser, h: seq<Step>)
    requires h != []
    ensures Log(parser, Front(h)) <= Log(parser, h)
    ensures Loggable(Last(h)) && Log(parser, h) == Log(parser, Front(h)) ==> Closed(parser, h)
  {
    hide EventAt;
    if Over(parser, Front(h)) {
      OverIsFinal(parser, h);
    }
  }

  /** The timeline only grows at its end, and not at all once it is closed. */
  lemma {:induction false} LogGrows(parser: MessageParser, h: seq<Step>, more: seq<Step>)
    ensures Log(parser, h) <= Log(parser, h + more)
    ensures Closed(parser, h) ==> Log(parser, h + more) == Log(parser, h) && Closed(parser, h + more)
    decreases |more|
  {
    hide Log, Over;
    if more == [] {
      assert h + more == h;
    } else {
      assert Front(h + more) == h + Front(more);
      LogGrows(parser, h, Front(more));
      SnocStep(parser, h + more);
      if Closed(parser, h) {
        ClosedStep(parser, h + more);
      }
    }
  }

  // ----- the timeline is a prefix of the loggable records

  /** An entry of the timeline shows this record as the `n`-th. */
  ghost predicate Shows(e: RecordEvent, s: Step, n: nat) {
    e.direction == s.direction && e.timestampMs == s.nowMs && e.sequence == n && e.outerType == s.record.recordType &&
    e.raw == EncodeRecord(s.record) && e.outerLength == LengthField(s.record.payload)
  }

  ghost predicate ShowsPrefix(log: seq<RecordEvent>, steps: seq<Step>) {
    |log| <= |steps| && forall i :: 0 <= i < |log| ==> Shows(log[i], steps[i], i + 1)
  }

  /**
   The timeline shows, in order and numbered from one, the first handshake, application and
   ChangeCipherSpec records; when some such record is missing, the timeline is closed.
   */
  lemma {:induction false} LogIsPrefix(parser: MessageParser, h: seq<Step>)
    ensures ShowsPrefix(Log(parser, h), LoggableOf(h))
    ensures |Log(parser, h)| < |LoggableOf(h)| ==> Closed(parser, h)
    decreases |h|
  {
    hide BodyAt, Over;
    if h == [] {
    } else {
      LogIsPrefix(parser, Front(h));
      SnocStep(parser, h);
      if Closed(parser, Front(h)) {
        ClosedStep(parser, h);
      }
    }
  }

  /** Once a loggable record has been left out, the timeline never changes again. */
  lemma GapIsFinal(parser: MessageParser, h: seq<Step>, more: seq<Step>)
    requires |Log(parser, h)| < |LoggableOf(h)|
    ensures Log(parser, h + more) == Log(parser, h)
  {
    hide Log, Over, LoggableOf;
    LogIsPrefix(parser, h);
    LogGrows(parser, h, more);
  }

  // ----- every entry is the one of some moment of the history

  /** The entry at `i` was added when the first `k` records had been completed. */
  lemma {:induction false} EntryMoment(parser: MessageParser, h: seq<Step>, i: nat) returns (k: nat)
    requires i < |Log(parser, h)|
    ensures 0 < k <= |h| && Keeps(parser, h[..k], i) && Log(parser, h)[i] == EventAt(parser, h[..k], i + 1)
    decreases |h|
  {
    hide EventAt, Keeps;
    if i < |Log(parser, Front(h))| {
      k := EntryMoment(parser, Front(h), i);
      assert Front(h)[..k] == h[..k];
    } else {
      k := |h|;
      assert h[..k] == h;
    }
  }

  function LabelOf(e: RecordEvent): Option<Label> {
    if e.body.EncryptedRecord? then Some(e.body.inferredLabel) else None
  }

  /** No timeline ever shows "encrypted application data". */
  lemma NeverApplicationData(parser: MessageParser, h: seq<Step>, i: nat)
    requires i < |Log(parser, h)|
    ensures LabelOf(Log(parser, h)[i]) != Some(EncryptedApplicationData)
  {
    hide Log;
    var k := EntryMoment(parser, h, i);
    LabelBeforeCutoff(parser, h[..k], i);
  }

  lemma LabelBeforeCutoff(parser: MessageParser, h: seq<Step>, kept: nat)
    requires h != [] && Keeps(parser, h, kept) && kept < 64
    ensures LabelOf(EventAt(parser, h, kept + 1)) != Some(EncryptedApplicationData)
  {
    hide VersionOf, HandshakeBody, Head, EncodeRecord, CcsIn;
    match Last(h).record.recordType
    case ApplicationData => AppliedUnmoved(parser, h);
    case _ =>
  }

  // ----- early data comes first

  predicate IsEarlyData(e: RecordEvent) {
    LabelOf(e) == Some(LikelyEarlyData)
  }

  predicate IsServerFlight(e: RecordEvent) {
    LabelOf(e).Some? && LabelOf(e).value in {
      LikelyExtensionsOnly, LikelyExtensionsAndFinished, LikelyFullServerFlight, LikelyServerFinishedOnly,
      LikelyServerFlightContinued, LikelyNewSessionTicket}
  }

  ghost predicate EarlyDataFirst(log: seq<RecordEvent>) {
    forall i, j :: 0 <= i < j < |log| && IsServerFlight(log[i]) ==> !IsEarlyData(log[j])
  }

  lemma PlacesOfLabels(parser: MessageParser, h: seq<Step>, n: u32)
    requires h != [] && Loggable(Last(h))
    ensures IsServerFlight(EventAt(parser, h, n)) ==> ServerFlight(parser, h) > 0
    ensures IsEarlyData(EventAt(parser, h, n)) ==> ServerFlight(parser, h) == 0
  {
    hide VersionOf, HandshakeBody, Head, EncodeRecord, CcsIn;
    match Last(h).record.recordType
    case ApplicationData => AppliedUnmoved(parser, h);
    case _ =>
  }

  lemma {:induction false} EarlyDataPrecedes(parser: MessageParser, h: seq<Step>)
    ensures EarlyDataFirst(Log(parser, h))
    ensures forall i :: 0 <= i < |Log(parser, h)| && IsServerFlight(Log(parser, h)[i]) ==> ServerFlight(parser, h) > 0
    decreases |h|
  {
    hide EventAt, Over, InFlight, IsServerFlight, IsEarlyData;
    if h == [] {
    } else {
      EarlyDataPrecedes(parser, Front(h));
      if Loggable(Last(h)) && |Log(parser, Front(h))| < 64 {
        PlacesOfLabels(parser, h, |Log(parser, Front(h))| + 1);
      }
    }
  }

  // ----- after both ChangeCipherSpecs

  function OtherThanCcs(log: seq<RecordEvent>): nat {
    if log == [] then 0
    else OtherThanCcs(Front(log)) + if Last(log).outerType == ChangeCipherSpec then 0 else 1
  }

  lemma CcsInGrows(h: seq<Step>, more: seq<Step>, d: Direction)
    requires CcsIn(h, d)
    ensures CcsIn(h + more, d)
  {
    var i :| 0 <= i < |h| && IsCcs(h[i], d);
    assert IsCcs((h + more)[i], d);
  }

  /** `added` holds at most `limit` entries other than ChangeCipherSpec, and they are handshake records. */
  ghost predicate FewOthers(added: seq<RecordEvent>, limit: nat) {
    OtherThanCcs(added) <= limit &&
    forall i :: 0 <= i < |added| ==> added[i].outerType == ChangeCipherSpec || added[i].outerType == Handshake
  }

  /** The room left: one entry if logging has ended since `h`, none if it had before or still goes on. */
  ghost function Room(parser: MessageParser, h: seq<Step>, g: seq<Step>): nat {
    if Over(parser, g) && !Over(parser, h) then 1 else 0
  }

  /**
   Once both sides have sent a ChangeCipherSpec, at most one more record of another type is kept, and
   only while logging is not over; it is a handshake record.
   */
  lemma {:induction false} AfterBothCcs(parser: MessageParser, h: seq<Step>, more: seq<Step>)
    requires BothCcsIn(h)
    ensures Log(parser, h) <= Log(parser, h + more)
    ensures FewOthers(Log(parser, h + more)[|Log(parser, h)|..], Room(parser, h, h + more))
    decreases |more|
  {
    hide Over, Log, FewOthers, Room;
    LogGrows(parser, h, more);
    if more == [] {
      assert h + more == h;
      NothingAdded(Room(parser, h, h));
      assert Log(parser, h)[|Log(parser, h)|..] == [];
    } else {
      assert Front(h + more) == h + Front(more);
      AfterBothCcs(parser, h, Front(more));
      OverGrows(parser, h, Front(more));
      CcsInGrows(h, Front(more), ClientToServer);
      CcsInGrows(h, Front(more), ServerToClient);
      AfterBothStep(parser, h, h + more);
    }
  }

  lemma NothingAdded(limit: nat)
    ensures FewOthers([], limit)
  {
  }

  lemma {:induction false} OverGrows(parser: MessageParser, h: seq<Step>, more: seq<Step>)
    ensures Over(parser, h) ==> Over(parser, h + more)
    decreases |more|
  {
    hide Over;
    if more == [] {
      assert h + more == h;
    } else {
      assert Front(h + more) == h + Front(more);
      OverGrows(parser, h, Front(more));
      if Over(parser, Front(h + more)) {
        OverIsFinal(parser, h + more);
      }
    }
  }

  lemma NewEntry(parser: MessageParser, g: seq<Step>)
    requires g != [] && Log(parser, g) != Log(parser, Front(g))
    ensures !Over(parser, Front(g))
    ensures Log(parser, g) != [] && Front(Log(parser, g)) == Log(parser, Front(g))
    ensures var t := Last(Log(parser, g)).outerType;
            t == Last(g).record.recordType &&
            (t == ChangeCipherSpec || t == Handshake || (t == ApplicationData && !Over(parser, g)))
  {
    hide Over, BodyAt;
    if Over(parser, Front(g)) {
      OverIsFinal(parser, g);
    }
  }

  lemma AfterBothStep(parser: MessageParser, h: seq<Step>, g: seq<Step>)
    requires g != [] && BothCcsIn(Front(g)) && Log(parser, h) <= Log(parser, Front(g))
    requires Over(parser, h) ==> Over(parser, Front(g))
    requires FewOthers(Log(parser, Front(g))[|Log(parser, h)|..], Room(parser, h, Front(g)))
    ensures Log(parser, h) <= Log(parser, g)
    ensures FewOthers(Log(parser, g)[|Log(parser, h)|..], Room(parser, h, g))
  {
    hide Log, Over, BothCcsIn;
    var before, added := Log(parser, h), Log(parser, Front(g))[|Log(parser, h)|..];
    if Over(parser, Front(g)) {
      OverIsFinal(parser, g);
    }
    if Log(parser, g) != Log(parser, Front(g)) {
      NewEntry(parser, g);
      var e := Last(Log(parser, g));
      assert Log(parser, g)[|before|..] == added + [e];
      assert Front(added + [e]) == added;
      if e.outerType != ChangeCipherSpec {
        EndsNow(parser, g);
      }
    }
  }

  lemma EndsNow(parser: MessageParser, g: seq<Step>)
    requires g != [] && BothCcsIn(Front(g)) && Last(g).record.recordType in {Handshake, ApplicationData}
    ensures Over(parser, g)
  {
    hide BothCcsIn, ClientFlight;
    assert g[..|g| - 1] == Front(g);
    assert EndsHandshake(g, |g| - 1);
  }

  // ----- the same of runs of segments

  /** Later segments leave the records that were completed, and complete more. */
  lemma {:induction false} CompletedGrows(parser: MessageParser, c: Tracked, segments: seq<Segment>, more: seq<Segment>)
    ensures Completed(parser, c, segments) <= Completed(parser, c, segments + more)
    decreases |more|
  {
    hide Run, StepsOf;
    if more == [] {
      assert segments + more == segments;
    } else {
      assert Front(segments + more) == segments + Front(more);
      CompletedGrows(parser, c, segments, Front(more));
    }
  }

  /** Once a run has left a record out of its timeline, no later segment changes the timeline. */
  lemma GapInRunIsFinal(parser: MessageParser, key: ConnectionKey, nowMs: nat, origin: Option<Origin>,
                        segments: seq<Segment>, more: seq<Segment>)
    requires var born := Born(key, nowMs, origin);
             |Run(parser, born, segments).state.records| < |LoggableOf(Completed(parser, born, segments))|
    ensures var born := Born(key, nowMs, origin);
            Run(parser, born, segments + more).state.records == Run(parser, born, segments).state.records
  {
    hide Run, Completed, Log, LoggableOf, Over;
    var born := Born(key, nowMs, origin);
    var h, g := Completed(parser, born, segments), Completed(parser, born, segments + more);
    TimelineOfRun(parser, key, nowMs, origin, segments);
    TimelineOfRun(parser, key, nowMs, origin, segments + more);
    CompletedGrows(parser, born, segments, more);
    GapIsFinal(parser, h, g[|h|..]);
    assert h + g[|h|..] == g;
  }

  /**
   After both sides have sent a ChangeCipherSpec, later segments add at most one entry of another type, a
   handshake record, and only while logging was still going on.
   */
  lemma AfterBothCcsInRun(parser: MessageParser, key: ConnectionKey, nowMs: nat, origin: Option<Origin>,
                          segments: seq<Segment>, more: seq<Segment>)
    requires Run(parser, Born(key, nowMs, origin), segments).BothCcs()
    ensures var born := Born(key, nowMs, origin);
            var before, after := Run(parser, born, segments), Run(parser, born, segments + more);
            before.state.records <= after.state.records &&
            FewOthers(after.state.records[|before.state.records|..],
                      if after.stopLogging && !before.stopLogging then 1 else 0)
  {
    hide Run, Completed, Log, Over, CcsIn, FewOthers;
    var born := Born(key, nowMs, origin);
    var h, g := Completed(parser, born, segments), Completed(parser, born, segments + more);
    TimelineOfRun(parser, key, nowMs, origin, segments);
    TimelineOfRun(parser, key, nowMs, origin, segments + more);
    CompletedGrows(parser, born, segments, more);
    AfterBothCcs(parser, h, g[|h|..]);
    assert h + g[|h|..] == g;
  }

  // ----- counters

  /** No counter exceeds the number of completed records. */
  lemma {:induction false} CountersBounded(parser: MessageParser, h: seq<Step>)
    ensures ServerFlight(parser, h) + ClientFlight(parser, h) +
            PostCcs(h, ClientToServer) + PostCcs(h, ServerToClient) <= |h|
    decreases |h|
  {
    hide Before13At, CcsIn;
    if h == [] {
    } else {
      CountersBounded(parser, Front(h));
    }
  }
}
