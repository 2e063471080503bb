/**
 The table of connections: segments go to the connection of their key, and idle connections are evicted.
 */
module Tracker {
  import opened Wire
  import opened Model
  import opened Connection
  import History
  import TimelineLaws
  import opened TrackedConnections

  /** What the tracker is configured with; the resolver is taken as a function of the two endpoints. */
  datatype Config = Config(
    parser: MessageParser,
    resolve: (Endpoint, Endpoint) -> Origin,
    staleTimeoutMs: nat)

  type Table = map<ConnectionKey, Tracked>

  datatype Operation =
    | Ingest(key: ConnectionKey, endpointA: Endpoint, endpointB: Endpoint, segment: Segment)
    | Evict(nowMs: nat)

  /** A connection when its first segment arrives, its origin resolved. */
  function Fresh(config: Config, op: Operation): Tracked
    requires op.Ingest?
  {
    TimelineLaws.Born(op.key, op.segment.nowMs, Some(config.resolve(op.endpointA, op.endpointB)))
  }

  function IngestAt(config: Config, table: Table, op: Operation): Table
    requires op.Ingest?
  {
    if op.segment.payload == [] then table
    else
      var c := if op.key in table then table[op.key] else Fresh(config, op);
      table[op.key := IngestSegment(config.parser, c, op.segment)]
  }

  function Cutoff(nowMs: nat, staleTimeoutMs: nat): nat {
    if nowMs < staleTimeoutMs then 0 else nowMs - staleTimeoutMs
  }

  function EvictAt(config: Config, table: Table, nowMs: nat): Table {
    map k | k in table && table[k].state.lastSeenMs >= Cutoff(nowMs, config.staleTimeoutMs) :: table[k]
  }

  function Apply(config: Config, table: Table, op: Operation): Table {
    if op.Ingest? then IngestAt(config, table, op) else EvictAt(config, table, op.nowMs)
  }

  function ApplyAll(config: Config, table: Table, ops: seq<Operation>): Table
    decreases |ops|
  {
    if ops == [] then table else Apply(config, ApplyAll(config, table, History.Front(ops)), History.Last(ops))
  }

  lemma FreshHandshake(key: ConnectionKey, nowMs: nat)
    ensures NewConnection(key, nowMs).state.handshake == NEW_HANDSHAKE
  {
  }

  // ----- the mutable table

  class ConnectionTracker {
    const config: Config
    var connections: map<ConnectionKey, TrackedConnection>

    ghost predicate Valid()
      reads this
    {
      forall k, k' :: k in connections && k' in connections && k != k' ==> connections[k] != connections[k']
    }

    ghost function View(): Table
      reads this, connections.Values
    {
      map k | k in connections :: connections[k].View()
    }

    constructor (config: Config)
      ensures Valid() && View() == map[] && this.config == config
    {
      this.config, connections := config, map[];
    }

    method Ingest(key: ConnectionKey, direction: Direction, endpointA: Endpoint, endpointB: Endpoint, payload: bytes,
                  nowMs: nat)
      returns (r: Option<ConnectionState>)
      requires Valid()
      modifies this, connections.Values
      ensures Valid() && fresh(connections.Values - old(connections.Values))
      ensures var op := Operation.Ingest(key, endpointA, endpointB, Segment(direction, payload, nowMs));
              View() == IngestAt(config, old(View()), op)
      ensures r == if payload == [] then None else Some(View()[key].state)
    {
      hide IngestSegment, TrackedConnection.View, NewConnection;
      if payload == [] {
        return None;
      }
      var isNew := key !in connections;
      var conn: TrackedConnection;
      if isNew {
        conn := new TrackedConnection(key, nowMs);
        conn.LastSeen();
        conn.SetOrigin(config.resolve(endpointA, endpointB));
        connections := connections[key := conn];
      } else {
        conn := connections[key];
      }
      ghost var op := Operation.Ingest(key, endpointA, endpointB, Segment(direction, payload, nowMs));
      ghost var before := if key in old(connections) then old(View())[key] else Fresh(config, op);
      assert conn.View() == before by {
        FreshHandshake(key, nowMs);
      }
      var state := conn.Ingest(config.parser, direction, payload, nowMs);
      r := Some(state);
    }

    /** Keeps the connections seen at the cutoff or later. */
    method Retain(cutoff: nat)
      requires Valid()
      modifies this`connections
      ensures Valid() && connections.Keys <= old(connections).Keys
      ensures forall k :: k in old(connections) ==> (k in connections <==> old(connections)[k].lastSeenMs >= cutoff)
      ensures forall k :: k in connections ==> connections[k] == old(connections)[k]
    {
      connections := map k | k in connections && connections[k].lastSeenMs >= cutoff :: connections[k];
    }

    method EvictStale(nowMs: nat) returns (removed: int)
      requires Valid()
      modifies this`connections
      ensures Valid() && View() == EvictAt(config, old(View()), nowMs)
      ensures 0 <= removed && removed + |connections| == |old(connections)|
    {
      hide TrackedConnection.View, Valid, EvictAt;
      ghost var table := View();
      var before := connections;
      var cutoff := if nowMs < config.staleTimeoutMs then 0 else nowMs - config.staleTimeoutMs;
      forall k | k in before
        ensures table[k].state.lastSeenMs == before[k].lastSeenMs
      {
        before[k].LastSeen();
      }
      Retain(cutoff);
      assert forall k :: k in connections ==> View()[k] == table[k];
      KeptIsEvicted(config, table, View(), nowMs);
      KeptSize(before, connections);
      removed := |before| - |connections|;
    }
  }

  lemma KeptIsEvicted(config: Config, table: Table, kept: Table, nowMs: nat)
    requires kept.Keys <= table.Keys
    requires forall k :: k in table ==>
               (k in kept <==> table[k].state.lastSeenMs >= Cutoff(nowMs, config.staleTimeoutMs))
    requires forall k :: k in kept ==> kept[k] == table[k]
    ensures kept == EvictAt(config, table, nowMs)
  {
  }

  lemma KeptSize<K, V>(before: map<K, V>, after: map<K, V>)
    requires after.Keys <= before.Keys
    ensures |after| <= |before|
  {
    SubsetSize(after.Keys, before.Keys);
  }

  lemma {:induction false} SubsetSize<T>(a: set<T>, b: set<T>)
    requires a <= b
    ensures |a| <= |b|
  {
    if a == {} {
    } else {
      var x :| x in a;
      SubsetSize(a - {x}, b - {x});
    }
  }
}
