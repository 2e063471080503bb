/**
 Runs of the tracker over many connections: eviction is exact, connections do not disturb one another,
 and every tracked connection is a run of its own segments.
 */
module TrackerLaws {
  import opened Wire
  import Framing
  import opened Model
  import opened Connection
  import opened History
  import opened Tracker
  import Timeline
  import TimelineLaws
  import LogLaws
  import StageLaws
  import Streams

  // ----- eviction

  ghost predicate Stale(table: Table, k: ConnectionKey, nowMs: nat, timeoutMs: nat) {
    k in table && table[k].state.lastSeenMs + timeoutMs < nowMs
  }

  /**
   Eviction removes exactly the connections whose last segment is older than the timeout, saturation
   notwithstanding; the others are untouched, and the sizes account for all of them.
   */
  lemma EvictionIsExact(config: Config, table: Table, nowMs: nat)
    ensures var after := EvictAt(config, table, nowMs);
            (forall k :: k in after <==> k in table && !Stale(table, k, nowMs, config.staleTimeoutMs)) &&
            (forall k :: k in after ==> after[k] == table[k]) &&
            |after| + |set k | k in table && Stale(table, k, nowMs, config.staleTimeoutMs)| == |table|
  {
    var after := EvictAt(config, table, nowMs);
    var stale := set k | k in table && Stale(table, k, nowMs, config.staleTimeoutMs);
    assert after.Keys + stale == table.Keys && after.Keys !! stale;
  }

  // ----- isolation

  predicate Concerns(op: Operation, k: ConnectionKey) {
    op.Evict? || op.key == k
  }

  /** The operations that can touch `k`: its own segments and all evictions. */
  function Restrict(ops: seq<Operation>, k: ConnectionKey): seq<Operation>
    decreases |ops|
  {
    if ops == [] then []
    else Restrict(Front(ops), k) + if Concerns(Last(ops), k) then [Last(ops)] else []
  }

  function Only(table: Table, k: ConnectionKey): Table {
    map j | j in table && j == k :: table[j]
  }

  lemma ApplyLocal(config: Config, table: Table, op: Operation, k: ConnectionKey)
    ensures Only(Apply(config, table, op), k) ==
            if Concerns(op, k) then Apply(config, Only(table, k), op) else Only(table, k)
  {
    hide IngestSegment, Fresh;
  }

  /** The state of a connection after any run is that of the run restricted to it. */
  lemma {:induction false} Isolation(config: Config, table: Table, ops: seq<Operation>, k: ConnectionKey)
    ensures Only(ApplyAll(config, table, ops), k) == ApplyAll(config, Only(table, k), Restrict(ops, k))
    decreases |ops|
  {
    hide Apply, Only, Concerns;
    if ops == [] {
    } else {
      var op := Last(ops);
      Isolation(config, table, Front(ops), k);
      ApplyLocal(config, ApplyAll(config, table, Front(ops)), op, k);
      if Concerns(op, k) {
        assert Front(Restrict(ops, k)) == Restrict(Front(ops), k);
      } else {
        assert Restrict(ops, k) == Restrict(Front(ops), k);
      }
    }
  }

  // ----- every connection is a run

  function SegmentsFor(ops: seq<Operation>, k: ConnectionKey): seq<Segment>
    decreases |ops|
  {
    if ops == [] then []
    else
      SegmentsFor(Front(ops), k) +
      if Last(ops).Ingest? && Last(ops).key == k then [Last(ops).segment] else []
  }

  /** The connection of `k` was created by operation `start` and is the run of its segments since. */
  ghost predicate BornAt(config: Config, ops: seq<Operation>, k: ConnectionKey, start: nat, c: Tracked) {
    start < |ops| && ops[start].Ingest? && ops[start].key == k && ops[start].segment.payload != [] &&
    c == Run(config.parser, Fresh(config, ops[start]), SegmentsFor(ops[start..], k))
  }

  lemma StillBornAt(config: Config, ops: seq<Operation>, k: ConnectionKey, start: nat, c: Tracked)
    requires ops != [] && BornAt(config, Front(ops), k, start, c)
    ensures var op := Last(ops);
            BornAt(config, ops, k, start,
                   if op.Ingest? && op.key == k then IngestSegment(config.parser, c, op.segment) else c)
  {
    hide IngestSegment, Fresh;
    var since, op := SegmentsFor(Front(ops)[start..], k), Last(ops);
    assert Front(ops[start..]) == Front(ops)[start..] && Last(ops[start..]) == op;
    if op.Ingest? && op.key == k {
      assert SegmentsFor(ops[start..], k) == since + [op.segment];
      assert Front(since + [op.segment]) == since;
    } else {
      assert SegmentsFor(ops[start..], k) == since;
    }
  }

  lemma FirstSegment(config: Config, ops: seq<Operation>, k: ConnectionKey)
    requires ops != [] && Last(ops).Ingest? && Last(ops).key == k && Last(ops).segment.payload != []
    ensures BornAt(config, ops, k, |ops| - 1, IngestSegment(config.parser, Fresh(config, Last(ops)), Last(ops).segment))
  {
    hide IngestSegment, Fresh;
    var op := Last(ops);
    assert ops[|ops| - 1..] == [op];
    assert Front([op]) == [] && Front([op.segment]) == [];
    assert SegmentsFor([op], k) == [op.segment];
    var born := Fresh(config, op);
    assert Run(config.parser, born, []) == born;
    assert Run(config.parser, born, [op.segment]) == IngestSegment(config.parser, born, op.segment);
  }

  /** The key is missing from the table before operation `start`, and in it ever since. */
  ghost predicate Since(config: Config, ops: seq<Operation>, k: ConnectionKey, start: nat) {
    start < |ops| && k !in ApplyAll(config, map[], ops[..start]) &&
    forall j :: start < j <= |ops| ==> k in ApplyAll(config, map[], ops[..j])
  }

  lemma StillSince(config: Config, ops: seq<Operation>, k: ConnectionKey, start: nat)
    requires ops != [] && Since(config, Front(ops), k, start) && k in ApplyAll(config, map[], ops)
    ensures Since(config, ops, k, start)
  {
    hide ApplyAll;
    assert Front(ops)[..start] == ops[..start];
    forall j | start < j <= |ops|
      ensures k in ApplyAll(config, map[], ops[..j])
    {
      if j < |ops| {
        assert Front(ops)[..j] == ops[..j];
      } else {
        assert ops[..j] == ops;
      }
    }
  }

  lemma SinceLast(config: Config, ops: seq<Operation>, k: ConnectionKey)
    requires ops != [] && k !in ApplyAll(config, map[], Front(ops)) && k in ApplyAll(config, map[], ops)
    ensures Since(config, ops, k, |ops| - 1)
  {
    hide ApplyAll;
    assert ops[..|ops| - 1] == Front(ops) && ops[..|ops|] == ops;
  }

  /** Every connection in the table is the run, from its creation, of the segments addressed to it since. */
  lemma {:induction false} EveryConnectionIsARun(config: Config, ops: seq<Operation>, k: ConnectionKey)
    returns (start: nat)
    requires k in ApplyAll(config, map[], ops)
    ensures BornAt(config, ops, k, start, ApplyAll(config, map[], ops)[k]) && Since(config, ops, k, start)
    decreases |ops|
  {
    hide IngestSegment, Fresh, BornAt, SegmentsFor, Since;
    var before, op := ApplyAll(config, map[], Front(ops)), Last(ops);
    if k in before {
      start := EveryConnectionIsARun(config, Front(ops), k);
      StillBornAt(config, ops, k, start, before[k]);
      StillSince(config, ops, k, start);
      if op.Ingest? && op.key == k && op.segment.payload == [] {
        EmptyIngest(config.parser, before[k], op.segment);
      }
    } else {
      start := |ops| - 1;
      FirstSegment(config, ops, k);
      SinceLast(config, ops, k);
    }
  }

  /** The connection of `k` was created by operation `i`, and carries its origin and its times. */
  ghost predicate CreatedBy(config: Config, ops: seq<Operation>, k: ConnectionKey, i: nat, c: Tracked) {
    i < |ops| && ops[i].Ingest? && ops[i].key == k && Since(config, ops, k, i) &&
    c.state.handshake.origin == Some(config.resolve(ops[i].endpointA, ops[i].endpointB)) &&
    c.state.firstSeenMs == ops[i].segment.nowMs &&
    c.state.lastSeenMs == StageLaws.LastTime(ops[i].segment.nowMs, SegmentsFor(ops[i..], k))
  }

  /**
   What holds of every connection in every reachable table: its key, its markers, its bounded buffers, a
   recorded error whenever it is shown as errored, and origin and times settled by the operation that created
   it and those since.
   */
  lemma EveryConnection(config: Config, ops: seq<Operation>, k: ConnectionKey)
    requires k in ApplyAll(config, map[], ops)
    ensures var c := ApplyAll(config, map[], ops)[k];
            c.state.key == k && StageLaws.MarkersAgree(c) && StageLaws.ErrorRecorded(c.state.handshake) &&
            Framing.Unfinished(c.clientToServerBuf) && Framing.Unfinished(c.serverToClientBuf) &&
            |c.clientToServerBuf| <= 16_388 && |c.serverToClientBuf| <= 16_388 &&
            exists i :: CreatedBy(config, ops, k, i, c)
  {
    hide IngestSegment, Run, StageLaws.FieldsKept, StageLaws.MarkersAgree, ApplyAll, SegmentsFor, Since;
    var start := EveryConnectionIsARun(config, ops, k);
    var op := ops[start];
    var origin, segments := Some(config.resolve(op.endpointA, op.endpointB)), SegmentsFor(ops[start..], k);
    var born := TimelineLaws.Born(k, op.segment.nowMs, origin);
    StageLaws.MarkersOfRun(config.parser, k, op.segment.nowMs, origin, segments);
    StageLaws.RunEvolves(config.parser, born, segments);
    StageLaws.TimeOfRun(config.parser, born, segments);
    Streams.BuffersOfRun(config.parser, born, segments);
    var c := Run(config.parser, born, segments);
    assert c.Buffer(ClientToServer) == c.clientToServerBuf && c.Buffer(ServerToClient) == c.serverToClientBuf;
    SameOrigin(born.state.handshake, c.state.handshake);
    assert CreatedBy(config, ops, k, start, c);
  }

  lemma SameOrigin(a: HandshakeInfo, b: HandshakeInfo)
    requires StageLaws.FieldsKept(a, b)
    ensures a.origin == b.origin
  {
  }

  /**
   The timeline of every connection in every reachable table: at most 64 entries, numbered from one
   without a gap, none labelled encrypted application data, and no early data after a server flight.
   */
  lemma EveryTimeline(config: Config, ops: seq<Operation>, k: ConnectionKey)
    requires k in ApplyAll(config, map[], ops)
    ensures var records := ApplyAll(config, map[], ops)[k].state.records;
            |records| <= 64 && ApplyAll(config, map[], ops)[k].seqCounter == |records| &&
            (forall i :: 0 <= i < |records| ==>
               records[i].sequence == i + 1 && LogLaws.LabelOf(records[i]) != Some(EncryptedApplicationData)) &&
            LogLaws.EarlyDataFirst(records)
  {
    hide IngestSegment, Run, Completed, ApplyAll, SegmentsFor, Timeline.Log, Timeline.LoggableOf,
         LogLaws.EarlyDataFirst, LogLaws.LabelOf;
    var start := EveryConnectionIsARun(config, ops, k);
    var op := ops[start];
    var origin, segments := Some(config.resolve(op.endpointA, op.endpointB)), SegmentsFor(ops[start..], k);
    var born := TimelineLaws.Born(k, op.segment.nowMs, origin);
    var h := Completed(config.parser, born, segments);
    TimelineLaws.TimelineOfRun(config.parser, k, op.segment.nowMs, origin, segments);
    LogLaws.LogIsPrefix(config.parser, h);
    LogLaws.EarlyDataPrecedes(config.parser, h);
    forall i | 0 <= i < |Timeline.Log(config.parser, h)|
      ensures LogLaws.LabelOf(Timeline.Log(config.parser, h)[i]) != Some(EncryptedApplicationData)
    {
      LogLaws.NeverApplicationData(config.parser, h, i);
    }
    assert forall i :: 0 <= i < |Timeline.Log(config.parser, h)| ==>
             LogLaws.Shows(Timeline.Log(config.parser, h)[i], Timeline.LoggableOf(h)[i], i + 1);
  }
}
