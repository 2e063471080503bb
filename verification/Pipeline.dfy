/**
 The tracker and the user interface with the queue between them: what is shown catches up with the
 tracker, and the exact case in which a snapshot moves a cursor.
 */
module Pipeline {
  import opened Wire
  import opened Framing
  import opened Model
  import opened Connection
  import opened History
  import opened Tracker
  import StageLaws
  import Streams
  import A = App

  // ----- the timeline of a connection only grows

  lemma {:induction false} StepsGrowTimeline(parser: MessageParser, c: Tracked, h: seq<Step>)
    ensures c.state.records <= RunSteps(parser, c, h).state.records
    decreases |h|
  {
    hide ProcessStep;
    if h == [] {
    } else {
      StepsGrowTimeline(parser, c, Front(h));
      StepParts(parser, RunSteps(parser, c, Front(h)), Last(h));
    }
  }

  /** No segment removes or changes an entry of the timeline. */
  lemma SegmentGrowsTimeline(parser: MessageParser, c: Tracked, s: Segment)
    ensures c.state.records <= IngestSegment(parser, c, s).state.records
    ensures IngestSegment(parser, c, s).state.key == c.state.key
  {
    hide RunSteps, Core, StepsOf, IngestSegment;
    SegmentCore(parser, c, s);
    StepsGrowTimeline(parser, c, StepsOf(c, s));
    CoreShowsRecords(IngestSegment(parser, c, s), RunSteps(parser, c, StepsOf(c, s)));
    StageLaws.SegmentEvolves(parser, c, s);
  }

  lemma CoreShowsRecords(a: Tracked, b: Tracked)
    requires Core(a) == Core(b)
    ensures a.state.records == b.state.records
  {
  }

  // ----- the system

  /** The tracker thread, the queue of what it sent and the interface has not taken in, and the interface. */
  datatype System = System(table: Table, pending: seq<A.Input>, app: A.AppState)

  const START := System(map[], [], A.NEW_APP)

  /** One step of either thread: a tracker operation, taking in the oldest notice, or a key press or tick. */
  datatype Event =
    | Traffic(op: Operation)
    | Deliver
    | UserInput(input: A.Input)

  predicate IsUserInput(input: A.Input) {
    !input.Update? && !input.Evicted?
  }

  /** A segment sends the snapshot of its connection; an eviction sends how many were removed, if any. */
  function Notices(config: Config, table: Table, op: Operation): seq<A.Input> {
    var after := Apply(config, table, op);
    match op
    case Ingest(key, _, _, segment) => if segment.payload == [] then [] else [A.Update(after[key].state)]
    case Evict(_) => if |after| < |table| then [A.Evicted(|table| - |after|)] else []
  }

  function OnEvent(config: Config, sections: A.Sections, s: System, e: Event): System {
    match e
    case Traffic(op) => System(Apply(config, s.table, op), s.pending + Notices(config, s.table, op), s.app)
    case Deliver =>
      if s.pending == [] then s else System(s.table, s.pending[1..], A.React(sections, s.app, s.pending[0]))
    case UserInput(input) => if IsUserInput(input) then s.(app := A.React(sections, s.app, input)) else s
  }

  function RunSystem(config: Config, sections: A.Sections, events: seq<Event>): System
    decreases |events|
  {
    if events == [] then START else OnEvent(config, sections, RunSystem(config, sections, Front(events)), Last(events))
  }

  // ----- what is shown and queued of one connection

  /** The snapshots of a connection in the queue, oldest first. */
  function Queued(pending: seq<A.Input>, k: ConnectionKey): seq<ConnectionState>
    decreases |pending|
  {
    if pending == [] then []
    else
      Queued(Front(pending), k) +
      if Last(pending).Update? && Last(pending).state.key == k then [Last(pending).state] else []
  }

  function Shown(a: A.AppState, k: ConnectionKey): seq<ConnectionState> {
    if k in a.connections then [a.connections[k]] else []
  }

  /** What the interface shows of a connection and is yet to be shown of it. */
  function Views(s: System, k: ConnectionKey): seq<ConnectionState> {
    Shown(s.app, k) + Queued(s.pending, k)
  }

  /** How many of these snapshots do not extend the one before. */
  function Breaks(views: seq<ConnectionState>): nat
    decreases |views|
  {
    if |views| <= 1 then 0
    else Breaks(Front(views)) + if Last(Front(views)).records <= Last(views).records then 0 else 1
  }

  /** How often the events evict a connection. */
  function Evictions(config: Config, sections: A.Sections, events: seq<Event>, k: ConnectionKey): nat
    decreases |events|
  {
    if events == [] then 0
    else
      var before := RunSystem(config, sections, Front(events)).table;
      var after := RunSystem(config, sections, events).table;
      Evictions(config, sections, Front(events), k) + if k in before && k !in after then 1 else 0
  }

  lemma {:induction false} QueuedFront(pending: seq<A.Input>, k: ConnectionKey)
    requires pending != []
    ensures Queued(pending, k) == Queued([pending[0]], k) + Queued(pending[1..], k)
    decreases |pending|
  {
    if |pending| == 1 {
      assert pending == [pending[0]];
      assert Queued(pending[1..], k) == [];
    } else {
      QueuedFront(Front(pending), k);
      assert Front(pending)[1..] == Front(pending[1..]);
    }
  }

  lemma QueuedOne(input: A.Input, k: ConnectionKey)
    ensures Queued([input], k) == if input.Update? && input.state.key == k then [input.state] else []
    ensures Queued([], k) == []
  {
    assert Front([input]) == [];
  }

  lemma QueuedBack(pending: seq<A.Input>, more: seq<A.Input>, k: ConnectionKey)
    requires |more| <= 1
    ensures Queued(pending + more, k) == Queued(pending, k) + Queued(more, k)
  {
    if more == [] {
      assert pending + more == pending;
    } else {
      assert more == [more[0]];
      QueuedOne(more[0], k);
      assert Front(pending + more) == pending;
    }
  }

  lemma {:induction false} BreaksOfRest(views: seq<ConnectionState>)
    requires views != []
    ensures Breaks(views) ==
            Breaks(views[1..]) + if |views| == 1 || views[0].records <= views[1].records then 0 else 1
    decreases |views|
  {
    if |views| <= 2 {
      assert |views| == 2 ==> Breaks(Front(views)) == 0 && Breaks(views[1..]) == 0;
    } else {
      BreaksOfRest(Front(views));
      assert Front(views)[1..] == Front(views[1..]);
      assert Last(Front(views)) == Last(Front(views[1..]));
    }
  }

  lemma {:induction false} NoBreaks(views: seq<ConnectionState>, i: nat)
    requires Breaks(views) == 0 && i + 1 < |views|
    ensures views[i].records <= views[i + 1].records
    decreases |views|
  {
    if i + 2 == |views| {
    } else {
      NoBreaks(Front(views), i);
    }
  }

  /** Taking in the oldest notice, a snapshot of `k`, moves the row or the section, or replaces the selected record. */
  predicate Jumps(config: Config, sections: A.Sections, s: System, k: ConnectionKey) {
    var after := OnEvent(config, sections, s, Deliver).app;
    s.pending != [] && s.pending[0].Update? && s.pending[0].state.key == k &&
    !(after.recordsRow == s.app.recordsRow && after.sectionIndex == s.app.sectionIndex &&
      A.RecordSelected(after) == A.RecordSelected(s.app))
  }

  /** How often that happens. */
  function JumpCount(config: Config, sections: A.Sections, events: seq<Event>, k: ConnectionKey): nat
    decreases |events|
  {
    if events == [] then 0
    else
      JumpCount(config, sections, Front(events), k) +
      if Last(events) == Deliver && Jumps(config, sections, RunSystem(config, sections, Front(events)), k) then 1 else 0
  }

  // ----- the invariant

  ghost predicate KeysOk(s: System) {
    && (forall k :: k in s.table ==> s.table[k].state.key == k)
    && (forall k :: k in s.app.connections ==> s.app.connections[k].key == k)
  }

  /**
   The snapshots of a connection, shown or queued, end in the state the tracker has, and extend one
   another but for at most as many breaks as are allowed, with one in reserve for when it is created anew.
   */
  ghost predicate CatchesUp(s: System, k: ConnectionKey, allowed: int) {
    var views := Views(s, k);
    && (k in s.table && views != [] ==> Last(views) == s.table[k].state)
    && Breaks(views) + (if k !in s.table && views != [] then 1 else 0) <= allowed
  }

  lemma InputKeepsConnections(sections: A.Sections, a: A.AppState, input: A.Input)
    requires IsUserInput(input)
    ensures var b := A.React(sections, a, input);
            b.connections == if input == A.KeyClear then map[] else a.connections
  {
    hide A.FirstClientHello;
  }

  lemma UpdateStores(sections: A.Sections, a: A.AppState, state: ConnectionState)
    ensures A.HandshakeUpdated(sections, a, state).connections == a.connections[state.key := state]
  {
  }

  lemma FreshKey(config: Config, op: Operation)
    requires op.Ingest?
    ensures Fresh(config, op).state.key == op.key
  {
  }

  /** What taking in the oldest notice shows. */
  lemma DeliveryShows(sections: A.Sections, a: A.AppState, input: A.Input)
    requires A.CursorsOk(sections, a) && !IsUserInput(input)
    ensures A.CursorsOk(sections, A.React(sections, a, input))
    ensures A.React(sections, a, input).connections ==
            if input.Update? then a.connections[input.state.key := input.state] else a.connections
  {
    hide A.CursorsOk, A.HandshakeUpdated, A.StaleEvicted;
    match input {
      case Update(state) =>
        UpdateStores(sections, a, state);
        A.UpdateKeepsInvariant(sections, a, state);
      case Evicted(n) =>
        A.EvictionOnlyCounts(sections, a, n);
        A.SameCursors(sections, a, A.StaleEvicted(sections, a, n));
    }
  }

  ghost predicate NoticesOnly(pending: seq<A.Input>) {
    forall i :: 0 <= i < |pending| ==> !IsUserInput(pending[i])
  }

  ghost predicate Consistent(sections: A.Sections, s: System) {
    A.CursorsOk(sections, s.app) && KeysOk(s) && NoticesOnly(s.pending)
  }

  lemma EventKeepsConsistent(config: Config, sections: A.Sections, s: System, e: Event)
    requires Consistent(sections, s)
    ensures Consistent(sections, OnEvent(config, sections, s, e))
  {
    hide A.React, A.CursorsOk, IngestSegment, Fresh;
    match e {
      case Traffic(op) =>
        if op.Ingest? && op.segment.payload != [] {
          IngestGrows(config, s.table, op);
        }
      case Deliver =>
        if s.pending != [] {
          DeliveryShows(sections, s.app, s.pending[0]);
        }
      case UserInput(input) =>
        if IsUserInput(input) {
          A.ReactKeepsInvariant(sections, s.app, input);
          InputKeepsConnections(sections, s.app, input);
        }
    }
  }

  /** A segment touches the connection of its key, which grows, and no other. */
  lemma IngestGrows(config: Config, table: Table, op: Operation)
    requires op.Ingest? && op.segment.payload != [] && (op.key in table ==> table[op.key].state.key == op.key)
    ensures var after := Apply(config, table, op);
            op.key in after && after[op.key].state.key == op.key &&
            (op.key in table ==> table[op.key].state.records <= after[op.key].state.records) &&
            after == table[op.key := after[op.key]]
  {
    hide IngestSegment, Fresh;
    var c := if op.key in table then table[op.key] else Fresh(config, op);
    FreshKey(config, op);
    SegmentGrowsTimeline(config.parser, c, op.segment);
  }

  /** A segment queues the new state of its connection; nothing else queues a snapshot. */
  lemma NoticesQueue(config: Config, s: System, op: Operation, k: ConnectionKey)
    requires KeysOk(s)
    ensures Queued(s.pending + Notices(config, s.table, op), k) ==
            Queued(s.pending, k) +
            if op.Ingest? && op.segment.payload != [] && op.key == k then [Apply(config, s.table, op)[k].state] else []
  {
    hide Queued, IngestSegment, Fresh;
    var more := Notices(config, s.table, op);
    QueuedBack(s.pending, more, k);
    if more == [] {
      QueuedOne(A.Tick, k);
    } else {
      assert more == [more[0]];
      QueuedOne(more[0], k);
      if op.Ingest? {
        IngestGrows(config, s.table, op);
      }
    }
  }

  /** What is shown and queued of a connection after an event, in terms of what was before. */
  function ViewsAfter(config: Config, s: System, e: Event, k: ConnectionKey): seq<ConnectionState> {
    var views := Views(s, k);
    match e
    case Traffic(op) =>
      if op.Ingest? && op.segment.payload != [] && op.key == k
      then views + [Apply(config, s.table, op)[k].state] else views
    case Deliver => if s.pending != [] && Replaces(s, k) then views[1..] else views
    case UserInput(input) => if input == A.KeyClear && k in s.app.connections then views[1..] else views
  }

  /** The oldest notice is a snapshot of `k`, which is shown already. */
  predicate Replaces(s: System, k: ConnectionKey)
    requires s.pending != []
  {
    s.pending[0].Update? && s.pending[0].state.key == k && k in s.app.connections
  }

  lemma NextView(s: System, k: ConnectionKey)
    requires s.pending != [] && Replaces(s, k)
    ensures |Views(s, k)| >= 2 && Views(s, k)[0] == s.app.connections[k] && Views(s, k)[1] == s.pending[0].state
  {
    hide Queued;
    QueuedFront(s.pending, k);
    QueuedOne(s.pending[0], k);
  }

  lemma EventViews(config: Config, sections: A.Sections, s: System, e: Event, k: ConnectionKey)
    requires Consistent(sections, s)
    ensures Views(OnEvent(config, sections, s, e), k) == ViewsAfter(config, s, e, k)
  {
    hide A.React, A.CursorsOk, Apply, Notices, Queued;
    match e {
      case Traffic(op) => NoticesQueue(config, s, op, k);
      case Deliver =>
        if s.pending != [] {
          DeliveryShows(sections, s.app, s.pending[0]);
          QueuedFront(s.pending, k);
          QueuedOne(s.pending[0], k);
        }
      case UserInput(input) =>
        if IsUserInput(input) {
          InputKeepsConnections(sections, s.app, input);
        }
    }
  }

  /** What happens to a connection in the table. */
  lemma EventTable(config: Config, sections: A.Sections, s: System, e: Event, k: ConnectionKey)
    requires KeysOk(s)
    ensures var t := OnEvent(config, sections, s, e).table;
            if e.Traffic? && e.op.Ingest? && e.op.segment.payload != [] && e.op.key == k
            then k in t && t[k] == Apply(config, s.table, e.op)[k]
            else k in t ==> k in s.table && t[k] == s.table[k]
    ensures k in s.table && k !in OnEvent(config, sections, s, e).table ==> e.Traffic? && e.op.Evict?
  {
    hide A.React, IngestSegment, Fresh;
    if e.Traffic? && e.op.Ingest? && e.op.segment.payload != [] {
      IngestGrows(config, s.table, e.op);
    }
  }

  /** A snapshot that extends what is shown of its connection, or is its first, moves nothing. */
  lemma GrowthNeverJumps(config: Config, sections: A.Sections, s: System, k: ConnectionKey)
    requires Consistent(sections, s) && s.pending != [] && s.pending[0].Update? && s.pending[0].state.key == k
    requires k in s.app.connections ==> s.app.connections[k].records <= s.pending[0].state.records
    ensures !Jumps(config, sections, s, k)
  {
    hide A.HandshakeUpdated, A.CursorsOk, A.RecordSelected;
    A.GrowthKeepsCursors(sections, s.app, s.pending[0].state);
  }

  lemma BreaksSnoc(views: seq<ConnectionState>, state: ConnectionState)
    ensures Breaks(views + [state]) ==
            Breaks(views) + if views == [] || Last(views).records <= state.records then 0 else 1
  {
    assert Front(views + [state]) == views;
  }

  /** Every event keeps the bound: an eviction adds one to it, a disturbed selection uses one up. */
  lemma EventCatchesUp(config: Config, sections: A.Sections, s: System, e: Event, k: ConnectionKey, allowed: int)
    requires Consistent(sections, s) && CatchesUp(s, k, allowed)
    ensures var t := OnEvent(config, sections, s, e);
            CatchesUp(t, k, allowed + (if k in s.table && k !in t.table then 1 else 0) -
                               if e == Deliver && Jumps(config, sections, s, k) then 1 else 0)
  {
    hide OnEvent, A.CursorsOk, NoticesOnly, Views, Breaks, Jumps, Apply;
    var views := Views(s, k);
    EventViews(config, sections, s, e, k);
    EventTable(config, sections, s, e, k);
    match e {
      case Traffic(op) =>
        if op.Ingest? && op.segment.payload != [] && op.key == k {
          IngestGrows(config, s.table, op);
          BreaksSnoc(views, Apply(config, s.table, op)[k].state);
        }
      case Deliver =>
        if Jumps(config, sections, s, k) {
          JumpsReplace(config, sections, s, k);
        }
        if s.pending != [] && Replaces(s, k) {
          NextView(s, k);
          BreaksOfRest(views);
        }
      case UserInput(_) =>
        if k in s.app.connections {
          ShownFirst(s, k);
          BreaksOfRest(views);
        }
    }
  }

  lemma ShownFirst(s: System, k: ConnectionKey)
    requires k in s.app.connections
    ensures Views(s, k) != []
  {
  }

  /** Only a snapshot that does not extend the one shown disturbs the selection. */
  lemma JumpsReplace(config: Config, sections: A.Sections, s: System, k: ConnectionKey)
    requires Consistent(sections, s) && Jumps(config, sections, s, k)
    ensures s.pending != [] && Replaces(s, k) && !(s.app.connections[k].records <= s.pending[0].state.records)
  {
    hide Jumps, Consistent;
    assert s.pending != [] && s.pending[0].Update? && s.pending[0].state.key == k by {
      JumpsAreUpdates(config, sections, s, k);
    }
    if k !in s.app.connections || s.app.connections[k].records <= s.pending[0].state.records {
      GrowthNeverJumps(config, sections, s, k);
    }
  }

  lemma JumpsAreUpdates(config: Config, sections: A.Sections, s: System, k: ConnectionKey)
    requires Jumps(config, sections, s, k)
    ensures s.pending != [] && s.pending[0].Update? && s.pending[0].state.key == k
  {
  }

  /**
   Over every interleaving of traffic, deliveries and keys: the cursors are in range, and the shown and
   queued snapshots of every connection lead up to the tracker's state, each extending the one before. The
   exceptions still to come, together with the snapshots that moved a cursor, are no more than its evictions.
   */
  lemma {:induction false} RunCatchesUp(config: Config, sections: A.Sections, events: seq<Event>, k: ConnectionKey)
    ensures var s := RunSystem(config, sections, events);
            Consistent(sections, s) &&
            CatchesUp(s, k, Evictions(config, sections, events, k) - JumpCount(config, sections, events, k))
    decreases |events|
  {
    hide OnEvent, Consistent, CatchesUp, Jumps;
    if events == [] {
      StartConsistent(sections, k);
    } else {
      var s, e := RunSystem(config, sections, Front(events)), Last(events);
      RunCatchesUp(config, sections, Front(events), k);
      EventKeepsConsistent(config, sections, s, e);
      EventCatchesUp(config, sections, s, e, k,
                     Evictions(config, sections, Front(events), k) - JumpCount(config, sections, Front(events), k));
    }
  }

  lemma StartConsistent(sections: A.Sections, k: ConnectionKey)
    ensures Consistent(sections, START) && CatchesUp(START, k, 0)
  {
    A.NewAppOk(sections);
  }

  /** The user has not emptied the list of connections. */
  predicate NeverCleared(events: seq<Event>)
    decreases |events|
  {
    events == [] || (NeverCleared(Front(events)) && Last(events) != UserInput(A.KeyClear))
  }

  /** Unless the list was emptied, every live connection is shown or has a snapshot in the queue. */
  lemma {:induction false} LiveIsViewed(config: Config, sections: A.Sections, events: seq<Event>, k: ConnectionKey)
    requires NeverCleared(events)
    ensures var s := RunSystem(config, sections, events); k in s.table ==> Views(s, k) != []
    decreases |events|
  {
    hide OnEvent, Consistent, CatchesUp, Evictions, JumpCount, Views;
    if events == [] {
    } else {
      var s, e := RunSystem(config, sections, Front(events)), Last(events);
      LiveIsViewed(config, sections, Front(events), k);
      RunCatchesUp(config, sections, Front(events), k);
      ViewsStay(config, sections, s, e, k);
    }
  }

  lemma ViewsStay(config: Config, sections: A.Sections, s: System, e: Event, k: ConnectionKey)
    requires Consistent(sections, s) && e != UserInput(A.KeyClear) && (k in s.table ==> Views(s, k) != [])
    ensures var t := OnEvent(config, sections, s, e); k in t.table ==> Views(t, k) != []
  {
    hide OnEvent, A.CursorsOk, NoticesOnly, Views, Apply;
    EventViews(config, sections, s, e, k);
    EventTable(config, sections, s, e, k);
    if e.Deliver? && s.pending != [] && Replaces(s, k) {
      NextView(s, k);
    }
  }

  /**
   Once the queue is drained, every live connection is shown in its current state, unless the user has
   emptied the list; what is shown of a live connection is current even then.
   */
  lemma DrainedIsCurrent(config: Config, sections: A.Sections, events: seq<Event>, k: ConnectionKey)
    requires var s := RunSystem(config, sections, events); s.pending == [] && k in s.table
    ensures var s := RunSystem(config, sections, events);
            (NeverCleared(events) ==> k in s.app.connections) &&
            (k in s.app.connections ==> s.app.connections[k] == s.table[k].state)
  {
    hide RunSystem, Evictions, JumpCount;
    RunCatchesUp(config, sections, events, k);
    if NeverCleared(events) {
      LiveIsViewed(config, sections, events, k);
    }
  }

  // ----- the count of evictions

  /** How many connections the events evict in all. */
  function Removed(config: Config, sections: A.Sections, events: seq<Event>): nat
    decreases |events|
  {
    if events == [] then 0
    else
      var before := |RunSystem(config, sections, Front(events)).table|;
      var after := |RunSystem(config, sections, events).table|;
      Removed(config, sections, Front(events)) + if after < before then before - after else 0
  }

  /** How many evictions are announced in the queue. */
  function Announced(pending: seq<A.Input>): nat
    decreases |pending|
  {
    if pending == [] then 0 else Announced(Front(pending)) + if Last(pending).Evicted? then Last(pending).count else 0
  }

  lemma {:induction false} AnnouncedFront(pending: seq<A.Input>)
    requires pending != []
    ensures Announced(pending) == (if pending[0].Evicted? then pending[0].count else 0) + Announced(pending[1..])
    decreases |pending|
  {
    if |pending| == 1 {
      assert Front(pending) == [] && pending[1..] == [];
    } else {
      AnnouncedFront(Front(pending));
      assert Front(pending)[1..] == Front(pending[1..]);
    }
  }

  lemma AnnouncedBack(pending: seq<A.Input>, more: seq<A.Input>)
    requires |more| <= 1
    ensures Announced(pending + more) ==
            Announced(pending) + if more != [] && more[0].Evicted? then more[0].count else 0
  {
    if more == [] {
      assert pending + more == pending;
    } else {
      assert Front(pending + more) == pending && Last(pending + more) == more[0];
    }
  }

  lemma ReactionCounts(sections: A.Sections, a: A.AppState, input: A.Input)
    requires A.CursorsOk(sections, a)
    ensures A.React(sections, a, input).evicted ==
            if input.Evicted? then A.Min(a.evicted + input.count, 0xFFFF_FFFF_FFFF_FFFF) else a.evicted
  {
    hide A.CursorsOk, A.StaleEvicted, A.FirstClientHello;
    if input.Evicted? {
      A.EvictionOnlyCounts(sections, a, input.count);
    }
  }

  lemma SizeAfter(config: Config, table: Table, op: Operation)
    ensures op.Ingest? ==> |Apply(config, table, op)| >= |table|
    ensures op.Evict? ==> |Apply(config, table, op)| <= |table|
  {
    hide IngestSegment, Fresh;
    if op.Ingest? {
      KeptSize(Apply(config, table, op), table);
    } else {
      KeptSize(table, Apply(config, table, op));
    }
  }

  lemma EventCounts(config: Config, sections: A.Sections, s: System, e: Event, total: nat)
    requires Consistent(sections, s)
    requires A.Min(s.app.evicted + Announced(s.pending), 0xFFFF_FFFF_FFFF_FFFF) == A.Min(total, 0xFFFF_FFFF_FFFF_FFFF)
    ensures var t := OnEvent(config, sections, s, e);
            A.Min(t.app.evicted + Announced(t.pending), 0xFFFF_FFFF_FFFF_FFFF) ==
            A.Min(total + if |t.table| < |s.table| then |s.table| - |t.table| else 0, 0xFFFF_FFFF_FFFF_FFFF)
  {
    hide A.React, A.CursorsOk, Apply, Announced;
    match e {
      case Traffic(op) =>
        SizeAfter(config, s.table, op);
        AnnouncedBack(s.pending, Notices(config, s.table, op));
      case Deliver =>
        if s.pending != [] {
          ReactionCounts(sections, s.app, s.pending[0]);
          AnnouncedFront(s.pending);
        }
      case UserInput(input) =>
        ReactionCounts(sections, s.app, input);
    }
  }

  /** What the status line counts, with what is announced in the queue, is every connection ever evicted. */
  lemma {:induction false} EvictionsAreCounted(config: Config, sections: A.Sections, events: seq<Event>)
    ensures var s := RunSystem(config, sections, events);
            A.Min(s.app.evicted + Announced(s.pending), 0xFFFF_FFFF_FFFF_FFFF) ==
            A.Min(Removed(config, sections, events), 0xFFFF_FFFF_FFFF_FFFF)
    decreases |events|
  {
    hide OnEvent, Consistent, CatchesUp, Evictions, JumpCount;
    if events == [] {
    } else {
      var k: ConnectionKey := ConnectionKey(Endpoint(V4(0), 0), Endpoint(V4(0), 0));
      EvictionsAreCounted(config, sections, Front(events));
      RunCatchesUp(config, sections, Front(events), k);
      EventCounts(config, sections, RunSystem(config, sections, Front(events)), Last(events),
                  Removed(config, sections, Front(events)));
    }
  }

  // ----- cursors

  /**
   In every reachable state, taking in a snapshot never changes which connection is selected. Of the selected
   connection, it moves the row or the section exactly if it has no such row or section, and replaces the
   selected record exactly if that is no longer under the cursor.
   */
  lemma DeliveryMovesCursors(config: Config, sections: A.Sections, events: seq<Event>)
    requires var s := RunSystem(config, sections, events); s.pending != [] && s.pending[0].Update?
    ensures var s := RunSystem(config, sections, events);
            var a, b, state := s.app, OnEvent(config, sections, s, Deliver).app, s.pending[0].state;
            b.selected == a.selected &&
            (b.recordsRow == a.recordsRow && b.sectionIndex == a.sectionIndex <==>
             !A.ShowsSelected(a, state.key) || A.StillThere(sections, a, state.records)) &&
            (A.RecordSelected(b) == A.RecordSelected(a) <==>
             !A.ShowsSelected(a, state.key) || A.SameRecord(a, state.records))
  {
    hide RunSystem, A.HandshakeUpdated, A.CursorsOk, A.StillThere, A.SameRecord, A.RecordSelected, Evictions, JumpCount,
         CatchesUp;
    var s := RunSystem(config, sections, events);
    RunCatchesUp(config, sections, events, s.pending[0].state.key);
    A.UpdateMovesCursors(sections, s.app, s.pending[0].state);
  }

  /** Snapshots of a connection disturb what is selected at most once per eviction of it. */
  lemma JumpsNeedEvictions(config: Config, sections: A.Sections, events: seq<Event>, k: ConnectionKey)
    ensures JumpCount(config, sections, events, k) <= Evictions(config, sections, events, k)
  {
    hide RunSystem, Evictions, JumpCount;
    RunCatchesUp(config, sections, events, k);
  }

  /** Without an eviction the oldest queued snapshot extends what is shown. */
  lemma NextExtends(s: System, state: ConnectionState, allowed: int)
    requires s.pending != [] && s.pending[0] == A.Update(state) && CatchesUp(s, state.key, allowed) && allowed <= 0
    ensures state.key in s.app.connections ==> s.app.connections[state.key].records <= state.records
  {
    hide Queued, Breaks;
    QueuedFront(s.pending, state.key);
    QueuedOne(s.pending[0], state.key);
    if state.key in s.app.connections {
      assert Views(s, state.key)[1] == state;
      NoBreaks(Views(s, state.key), 0);
    }
  }

  /** A snapshot of a connection that was never evicted moves no cursor and keeps the selected record. */
  lemma UnevictedKeepsCursors(config: Config, sections: A.Sections, events: seq<Event>)
    requires var s := RunSystem(config, sections, events); s.pending != [] && s.pending[0].Update?
    requires Evictions(config, sections, events, RunSystem(config, sections, events).pending[0].state.key) == 0
    ensures var s := RunSystem(config, sections, events);
            var a, b := s.app, OnEvent(config, sections, s, Deliver).app;
            b.selected == a.selected && b.recordsRow == a.recordsRow && b.sectionIndex == a.sectionIndex &&
            A.RecordSelected(b) == A.RecordSelected(a) && a.order <= b.order
  {
    hide RunSystem, A.HandshakeUpdated, A.CursorsOk, A.RecordSelected, Evictions, JumpCount;
    var s := RunSystem(config, sections, events);
    var state := s.pending[0].state;
    RunCatchesUp(config, sections, events, state.key);
    NextExtends(s, state, -JumpCount(config, sections, events, state.key));
    A.GrowthKeepsCursors(sections, s.app, state);
  }

  // ----- snapshots that move the cursor or replace the selected record

  lemma RawSize(r: TlsRecord)
    requires RecordOk(r)
    ensures 0 < |EncodeRecord(r)| <= 16_389
  {
  }

  lemma FirstLog(config: Config, op: Operation, r: TlsRecord)
    requires op.Ingest? && op.segment.payload == EncodeRecord(r) && RecordOk(r) && r.recordType == ChangeCipherSpec
    ensures var records := IngestSegment(config.parser, Fresh(config, op), op.segment).state.records;
            |records| == 1 && records[0].raw == EncodeRecord(r)
  {
    hide EncodeRecord, Peel, IngestSegment, BuildBody;
    var c, raw := Fresh(config, op), EncodeRecord(r);
    RawSize(r);
    assert [] + raw == raw;
    Streams.OneRecordParses(r);
    assert Peel(raw).items == [r];
    CleanIngest(config.parser, c, op.segment);
  }

  lemma PartialLog(config: Config, op: Operation)
    requires op.Ingest? && op.segment.payload == [20]
    ensures IngestSegment(config.parser, Fresh(config, op), op.segment).state.records == []
  {
    hide IngestSegment;
    assert [] + [20] == [20];
    Streams.PeelResidual([20]);
    CleanIngest(config.parser, Fresh(config, op), op.segment);
  }

  lemma Next(config: Config, sections: A.Sections, events: seq<Event>, e: Event, k: ConnectionKey)
    ensures RunSystem(config, sections, events + [e]) ==
            OnEvent(config, sections, RunSystem(config, sections, events), e)
    ensures var before := RunSystem(config, sections, events).table;
            var after := RunSystem(config, sections, events + [e]).table;
            Evictions(config, sections, events + [e], k) ==
            Evictions(config, sections, events, k) + if k in before && k !in after then 1 else 0
  {
    hide OnEvent;
    assert Front(events + [e]) == events;
  }

  lemma FirstShown(sections: A.Sections, state: ConnectionState)
    ensures A.React(sections, A.NEW_APP, A.Update(state)) ==
            A.NEW_APP.(order := [state.key], connections := map[state.key := state])
    ensures A.CursorsOk(sections, A.React(sections, A.NEW_APP, A.Update(state)))
  {
    assert [] + [state.key] == [state.key];
  }

  /** From the connections one step to the right and one down select the first record. */
  lemma RightAndDown(sections: A.Sections, a: A.AppState)
    requires A.CursorsOk(sections, a) && a.focus == A.Connections && a.recordsRow == 0 && A.RecordCount(a) == 1
    ensures var b := A.React(sections, A.React(sections, a, A.KeyRight), A.KeyDown);
            b == a.(focus := A.Records, recordsRow := 1, sectionIndex := 0) && A.CursorsOk(sections, b)
  {
    hide A.CursorsOk, A.Selected;
    A.SameCursors(sections, a, a.(focus := A.Records));
    A.SelectKeepsInvariant(sections, a.(focus := A.Records));
  }

  lemma FirstFour(config: Config, sections: A.Sections, first: Operation, r: TlsRecord)
    requires first.Ingest? && first.segment.payload == EncodeRecord(r) && RecordOk(r) &&
             r.recordType == ChangeCipherSpec
    ensures var events := [Traffic(first), Deliver, UserInput(A.KeyRight), UserInput(A.KeyDown)];
            var s := RunSystem(config, sections, events);
            s.table.Keys == {first.key} && s.table[first.key].state.lastSeenMs == first.segment.nowMs &&
            s.pending == [] && A.CursorsOk(sections, s.app) && s.app.order == [first.key] && s.app.selected == 0 &&
            s.app.recordsRow == 1 && s.app.sectionIndex == 0 && A.RecordSelected(s.app).Some? &&
            A.RecordSelected(s.app).value.raw == first.segment.payload &&
            Evictions(config, sections, events, first.key) == 0
  {
    hide Evictions, A.React, A.CursorsOk, IngestSegment, Fresh, RunSystem, EncodeRecord;
    var c := IngestSegment(config.parser, Fresh(config, first), first.segment);
    FreshKey(config, first);
    FirstLog(config, first, r);
    SegmentGrowsTimeline(config.parser, Fresh(config, first), first.segment);
    StageLaws.SegmentEvolves(config.parser, Fresh(config, first), first.segment);
    RawSize(r);
    FirstShown(sections, c.state);
    RightAndDown(sections, A.NEW_APP.(order := [first.key], connections := map[first.key := c.state]));
    Steps4(config, sections, Traffic(first), Deliver, UserInput(A.KeyRight), UserInput(A.KeyDown), first.key);
    assert Apply(config, map[], first) == map[first.key := c];
    assert OnEvent(config, sections, START, Traffic(first)) ==
           System(map[first.key := c], [A.Update(c.state)], A.NEW_APP);
  }

  lemma Steps4(config: Config, sections: A.Sections, e1: Event, e2: Event, e3: Event, e4: Event, k: ConnectionKey)
    requires !e2.Traffic? && !e3.Traffic? && !e4.Traffic?
    ensures RunSystem(config, sections, [e1, e2, e3, e4]) ==
            var s := OnEvent(config, sections, OnEvent(config, sections, START, e1), e2);
            OnEvent(config, sections, OnEvent(config, sections, s, e3), e4)
    ensures Evictions(config, sections, [e1, e2, e3, e4], k) == 0
  {
    hide OnEvent;
    Next(config, sections, [e1, e2, e3], e4, k);
    Next(config, sections, [e1, e2], e3, k);
    Next(config, sections, [e1], e2, k);
    Next(config, sections, [], e1, k);
    assert [e1, e2, e3] + [e4] == [e1, e2, e3, e4] && [e1, e2] + [e3] == [e1, e2, e3];
    assert [e1] + [e2] == [e1, e2] && [] + [e1] == [e1];
    SameTable(config, sections, RunSystem(config, sections, [e1]), e2);
    SameTable(config, sections, RunSystem(config, sections, [e1, e2]), e3);
    SameTable(config, sections, RunSystem(config, sections, [e1, e2, e3]), e4);
  }

  lemma SameTable(config: Config, sections: A.Sections, s: System, e: Event)
    requires !e.Traffic?
    ensures OnEvent(config, sections, s, e).table == s.table
  {
    hide A.React;
  }

  /** A first segment is shown and its record selected; the connection is evicted, and another segment arrives. */
  function BackAgain(config: Config, first: Operation, again: Operation): seq<Event>
    requires first.Ingest?
  {
    [Traffic(first), Deliver, UserInput(A.KeyRight), UserInput(A.KeyDown),
     Traffic(Evict(first.segment.nowMs + config.staleTimeoutMs + 1)), Deliver, Traffic(again)]
  }

  function StateOfFirst(config: Config, op: Operation): ConnectionState
    requires op.Ingest?
  {
    IngestSegment(config.parser, Fresh(config, op), op.segment).state
  }

  lemma AwaitingDelivery(config: Config, sections: A.Sections, first: Operation, r: TlsRecord, again: Operation)
    requires first.Ingest? && first.segment.payload == EncodeRecord(r) && RecordOk(r) &&
             r.recordType == ChangeCipherSpec
    requires again.Ingest? && again.key == first.key && again.segment.payload != []
    ensures var s := RunSystem(config, sections, BackAgain(config, first, again));
            s.pending == [A.Update(StateOfFirst(config, again))] && s.pending[0].state.key == first.key &&
            A.CursorsOk(sections, s.app) && A.ShowsSelected(s.app, first.key) && s.app.recordsRow == 1 &&
            s.app.sectionIndex == 0 && A.RecordSelected(s.app).Some? &&
            A.RecordSelected(s.app).value.raw == first.segment.payload
    ensures Evictions(config, sections, BackAgain(config, first, again), first.key) == 1
  {
    hide RunSystem, Evictions, Fresh, IngestSegment, EncodeRecord, A.React, A.CursorsOk, A.RecordSelected;
    var k, evict := first.key, Evict(first.segment.nowMs + config.staleTimeoutMs + 1);
    var selected := [Traffic(first), Deliver, UserInput(A.KeyRight), UserInput(A.KeyDown)];
    FirstFour(config, sections, first, r);
    var s4 := RunSystem(config, sections, selected);
    var evicted := selected + [Traffic(evict)];
    Next(config, sections, selected, Traffic(evict), k);
    var s5 := RunSystem(config, sections, evicted);
    assert s5.table == map[] && s5.app == s4.app && |s5.pending| == 1;
    var counted := evicted + [Deliver];
    Next(config, sections, evicted, Deliver, k);
    CountedOnly(sections, s4.app, s5.pending[0]);
    Next(config, sections, counted, Traffic(again), k);
    assert counted + [Traffic(again)] == BackAgain(config, first, again);
    FreshKey(config, again);
    SegmentGrowsTimeline(config.parser, Fresh(config, again), again.segment);
  }

  lemma JumpCounts(config: Config, sections: A.Sections, events: seq<Event>, k: ConnectionKey)
    requires Jumps(config, sections, RunSystem(config, sections, events), k) &&
             Evictions(config, sections, events, k) == 1
    ensures JumpCount(config, sections, events + [Deliver], k) == 1
    ensures Evictions(config, sections, events + [Deliver], k) == 1
  {
    hide RunSystem, Evictions, Jumps;
    Next(config, sections, events, Deliver, k);
    SameTable(config, sections, RunSystem(config, sections, events), Deliver);
    assert Front(events + [Deliver]) == events;
    JumpsNeedEvictions(config, sections, events + [Deliver], k);
  }

  lemma DeliveryUpdates(config: Config, sections: A.Sections, s: System, state: ConnectionState)
    requires s.pending == [A.Update(state)]
    ensures OnEvent(config, sections, s, Deliver).app == A.HandshakeUpdated(sections, s.app, state)
    ensures var b := A.HandshakeUpdated(sections, s.app, state);
            Jumps(config, sections, s, state.key) <==>
            !(b.recordsRow == s.app.recordsRow && b.sectionIndex == s.app.sectionIndex &&
              A.RecordSelected(b) == A.RecordSelected(s.app))
  {
    hide A.HandshakeUpdated, A.RecordSelected;
  }

  /**
   The bound on disturbances is met: when the first segment brings one record and the second one octet of
   another, the snapshot of the new connection moves the row.
   */
  lemma EvictedAndBack(config: Config, sections: A.Sections, first: Operation, r: TlsRecord, again: Operation)
    requires first.Ingest? && first.segment.payload == EncodeRecord(r) && RecordOk(r) &&
             r.recordType == ChangeCipherSpec
    requires again.Ingest? && again.key == first.key && again.segment.payload == [20]
    ensures var events := BackAgain(config, first, again);
            RunSystem(config, sections, events).app.recordsRow == 1 &&
            RunSystem(config, sections, events + [Deliver]).app.recordsRow == 0 &&
            JumpCount(config, sections, events + [Deliver], first.key) == 1 &&
            Evictions(config, sections, events + [Deliver], first.key) == 1
  {
    hide RunSystem, Evictions, EncodeRecord, A.CursorsOk, A.HandshakeUpdated, A.RecordSelected, JumpCount, BackAgain,
         OnEvent, Fresh, IngestSegment, Jumps;
    var events := BackAgain(config, first, again);
    var s := RunSystem(config, sections, events);
    AwaitingDelivery(config, sections, first, r, again);
    PartialLog(config, again);
    DeliveryUpdates(config, sections, s, s.pending[0].state);
    A.UpdateMovesCursors(sections, s.app, s.pending[0].state);
    JumpCounts(config, sections, events, first.key);
    Next(config, sections, events, Deliver, first.key);
  }

  /** The record under the cursor has these octets. */
  predicate ShowsRaw(a: A.AppState, raw: bytes) {
    A.RecordSelected(a).Some? && A.RecordSelected(a).value.raw == raw
  }

  /** When the second segment brings another record in place of the first, the row stays and its record is replaced. */
  lemma EvictedAndReplaced(config: Config, sections: A.Sections, first: Operation, r: TlsRecord, again: Operation,
                           r': TlsRecord)
    requires first.Ingest? && first.segment.payload == EncodeRecord(r) && RecordOk(r) &&
             r.recordType == ChangeCipherSpec
    requires again.Ingest? && again.segment.payload == EncodeRecord(r') && RecordOk(r') &&
             r'.recordType == ChangeCipherSpec
    requires again.key == first.key && EncodeRecord(r') != EncodeRecord(r)
    ensures var events := BackAgain(config, first, again);
            var before := RunSystem(config, sections, events).app;
            var after := RunSystem(config, sections, events + [Deliver]).app;
            before.recordsRow == 1 && ShowsRaw(before, EncodeRecord(r)) &&
            after.recordsRow == 1 && ShowsRaw(after, EncodeRecord(r')) &&
            JumpCount(config, sections, events + [Deliver], first.key) == 1 &&
            Evictions(config, sections, events + [Deliver], first.key) == 1
  {
    hide RunSystem, Evictions, EncodeRecord, A.CursorsOk, A.HandshakeUpdated, A.RecordSelected, JumpCount, BackAgain,
         OnEvent, Fresh, IngestSegment, Jumps;
    var events := BackAgain(config, first, again);
    var s := RunSystem(config, sections, events);
    RawSize(r');
    AwaitingDelivery(config, sections, first, r, again);
    FirstLog(config, again, r');
    DeliveryUpdates(config, sections, s, s.pending[0].state);
    A.UpdateMovesCursors(sections, s.app, s.pending[0].state);
    A.UpdateShowsRecord(sections, s.app, s.pending[0].state);
    JumpCounts(config, sections, events, first.key);
    Next(config, sections, events, Deliver, first.key);
  }

  lemma CountedOnly(sections: A.Sections, a: A.AppState, input: A.Input)
    requires A.CursorsOk(sections, a) && input.Evicted?
    ensures var b := A.React(sections, a, input);
            A.CursorsOk(sections, b) && b.order == a.order && b.selected == a.selected &&
            b.recordsRow == a.recordsRow && b.sectionIndex == a.sectionIndex &&
            A.RecordSelected(b) == A.RecordSelected(a)
  {
    hide A.CursorsOk, A.StaleEvicted, A.RecordSelected;
    A.EvictionOnlyCounts(sections, a, input.count);
    A.SameCursors(sections, a, A.StaleEvicted(sections, a, input.count));
  }
}
