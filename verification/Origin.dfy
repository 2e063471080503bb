/**
 Attribution of flows to local processes: the scan of the process table and the lookup in a snapshot.
 */
module Attribution {
  import opened Wire
  import opened Model

  datatype SocketRow = SocketRow(inode: nat, uid: u32)

  datatype ProcRow = ProcRow(pid: u32, comm: string, cmdline: string, uid: u32)

  type SocketTable = map<(Endpoint, Endpoint), SocketRow>

  /**
   One entry of the process directory: the number in its name if it is one, its descriptors if they are
   readable (each with the socket inode it links to, if it links to one), and what its files say.
   */
  datatype ProcEntry = ProcEntry(
    pid: Option<u32>,
    descriptors: Option<seq<Option<nat>>>,
    comm: string,
    cmdline: string,
    uid: u32)

  function RowOf(e: ProcEntry): ProcRow
    requires e.pid.Some?
  {
    ProcRow(e.pid.value, e.comm, e.cmdline, e.uid)
  }

  predicate Owns(e: ProcEntry, inode: nat) {
    e.pid.Some? && e.descriptors.Some? && Some(inode) in e.descriptors.value
  }

  // ----- the full scan

  /** The entry at `i` is the first that owns the inode. */
  ghost predicate FirstOwner(entries: seq<ProcEntry>, inode: nat, i: int) {
    0 <= i < |entries| && Owns(entries[i], inode) && forall j :: 0 <= j < i ==> !Owns(entries[j], inode)
  }

  ghost predicate Unowned(entries: seq<ProcEntry>, inode: nat) {
    forall j :: 0 <= j < |entries| ==> !Owns(entries[j], inode)
  }

  /**
   What scanning every process and every descriptor gives: each wanted inode that some process holds,
   with the row of the first such process.
   */
  ghost predicate OwnersOf(entries: seq<ProcEntry>, wanted: set<nat>, out: map<nat, ProcRow>) {
    && out.Keys <= wanted
    && (forall inode :: inode in out ==>
          exists i :: FirstOwner(entries, inode, i) && out[inode] == RowOf(entries[i]))
    && (forall inode :: inode in wanted && inode !in out ==> Unowned(entries, inode))
  }

  /** The full scan has one result. */
  lemma OwnersAreUnique(entries: seq<ProcEntry>, wanted: set<nat>, a: map<nat, ProcRow>, b: map<nat, ProcRow>)
    requires OwnersOf(entries, wanted, a) && OwnersOf(entries, wanted, b)
    ensures a == b
  {
    OwnersWithin(entries, wanted, a, b);
    OwnersWithin(entries, wanted, b, a);
  }

  lemma OwnersWithin(entries: seq<ProcEntry>, wanted: set<nat>, a: map<nat, ProcRow>, b: map<nat, ProcRow>)
    requires OwnersOf(entries, wanted, a) && OwnersOf(entries, wanted, b)
    ensures forall k :: k in a ==> k in b && b[k] == a[k]
  {
  }

  // ----- the scan with early exit

  /** The state of the scan after `n` entries: found and wanted inodes partition the initial ones. */
  ghost predicate ScanState(entries: seq<ProcEntry>, n: nat, initial: set<nat>, wanted: set<nat>,
                            out: map<nat, ProcRow>)
    requires n <= |entries|
  {
    && out.Keys + wanted == initial && out.Keys !! wanted
    && (forall inode :: inode in out ==>
          exists i :: i < n && FirstOwner(entries, inode, i) && out[inode] == RowOf(entries[i]))
    && (forall inode :: inode in wanted ==> Unowned(entries[..n], inode))
  }

  lemma OwnedBefore(entries: seq<ProcEntry>, n: nat, inode: nat)
    requires n < |entries| && Unowned(entries[..n], inode)
    ensures Owns(entries[n], inode) ==> FirstOwner(entries, inode, n)
    ensures !Owns(entries[n], inode) ==> Unowned(entries[..n + 1], inode)
  {
  }

  /** The wanted inodes among the first `m` descriptors of a process. */
  function Taken(e: ProcEntry, m: nat, wanted: set<nat>): set<nat>
    requires e.descriptors.Some? && m <= |e.descriptors.value|
  {
    set inode | inode in wanted && Some(inode) in e.descriptors.value[..m]
  }

  /** What one process contributes: the wanted inodes among its first `m` descriptors. */
  ghost predicate EntryState(e: ProcEntry, m: nat, wanted0: set<nat>, out0: map<nat, ProcRow>, wanted: set<nat>,
                             out: map<nat, ProcRow>)
    requires e.pid.Some? && e.descriptors.Some? && m <= |e.descriptors.value|
  {
    var taken := Taken(e, m, wanted0);
    wanted == wanted0 - taken && out.Keys == out0.Keys + taken &&
    (forall k :: k in out ==> out[k] == if k in taken then RowOf(e) else out0[k])
  }

  lemma EntryDone(entries: seq<ProcEntry>, n: nat, initial: set<nat>, wanted0: set<nat>, out0: map<nat, ProcRow>,
                  wanted: set<nat>, out: map<nat, ProcRow>)
    requires n < |entries| && ScanState(entries, n, initial, wanted0, out0)
    requires entries[n].pid.Some? && entries[n].descriptors.Some?
    requires EntryState(entries[n], |entries[n].descriptors.value|, wanted0, out0, wanted, out)
    ensures ScanState(entries, n + 1, initial, wanted, out)
  {
    var e := entries[n];
    assert e.descriptors.value[..|e.descriptors.value|] == e.descriptors.value;
    forall inode | inode in wanted0
      ensures Owns(e, inode) ==> FirstOwner(entries, inode, n)
      ensures !Owns(e, inode) ==> Unowned(entries[..n + 1], inode)
    {
      OwnedBefore(entries, n, inode);
    }
    forall inode | inode in out
      ensures exists i :: i < n + 1 && FirstOwner(entries, inode, i) && out[inode] == RowOf(entries[i])
    {
      if inode in wanted0 {
        assert FirstOwner(entries, inode, n) && out[inode] == RowOf(entries[n]);
      } else {
        var i :| i < n && FirstOwner(entries, inode, i) && out0[inode] == RowOf(entries[i]);
      }
    }
  }

  lemma EntrySkipped(entries: seq<ProcEntry>, n: nat, initial: set<nat>, wanted: set<nat>, out: map<nat, ProcRow>)
    requires n < |entries| && ScanState(entries, n, initial, wanted, out)
    requires entries[n].pid.None? || entries[n].descriptors.None?
    ensures ScanState(entries, n + 1, initial, wanted, out)
  {
  }

  /** The descriptors of one process, until nothing is wanted any more. */
  method ScanDescriptors(e: ProcEntry, wanted0: set<nat>, out0: map<nat, ProcRow>)
    returns (wanted: set<nat>, out: map<nat, ProcRow>)
    requires e.pid.Some? && e.descriptors.Some? && out0.Keys !! wanted0
    ensures EntryState(e, |e.descriptors.value|, wanted0, out0, wanted, out)
  {
    var fds := e.descriptors.value;
    wanted, out := wanted0, out0;
    for j := 0 to |fds|
      invariant EntryState(e, j, wanted0, out0, wanted, out)
    {
      ghost var m := fds[..j];
      assert fds[..j + 1] == m + [fds[j]];
      if fds[j].None? || fds[j].value !in wanted {
        continue;
      }
      var inode := fds[j].value;
      out := out[inode := RowOf(e)];
      wanted := wanted - {inode};
      if wanted == {} {
        NothingWanted(e, j + 1, wanted0, out0, wanted, out);
        return;
      }
    }
  }

  lemma NothingWanted(e: ProcEntry, m: nat, wanted0: set<nat>, out0: map<nat, ProcRow>, wanted: set<nat>,
                      out: map<nat, ProcRow>)
    requires e.pid.Some? && e.descriptors.Some? && m <= |e.descriptors.value|
    requires EntryState(e, m, wanted0, out0, wanted, out) && wanted == {}
    ensures EntryState(e, |e.descriptors.value|, wanted0, out0, wanted, out)
  {
  }

  /** Owners of the sockets of the table; nothing if the process directory cannot be listed. */
  method ReadProcs(listing: Option<seq<ProcEntry>>, sockets: SocketTable) returns (out: map<nat, ProcRow>)
    ensures OwnersOf(if listing.Some? then listing.value else [], set k | k in sockets :: sockets[k].inode, out)
  {
    var wanted := set k | k in sockets :: sockets[k].inode;
    out := map[];
    if listing.None? {
      return;
    }
    var entries := listing.value;
    ghost var initial := wanted;
    for n := 0 to |entries|
      invariant ScanState(entries, n, initial, wanted, out)
    {
      if wanted == {} {
        break;
      }
      if entries[n].pid.None? || entries[n].descriptors.None? {
        EntrySkipped(entries, n, initial, wanted, out);
        continue;
      }
      ghost var wanted0, out0 := wanted, out;
      wanted, out := ScanDescriptors(entries[n], wanted, out);
      EntryDone(entries, n, initial, wanted0, out0, wanted, out);
    }
    assert entries[..|entries|] == entries;
  }

  // ----- the lookup

  datatype Snapshot = Snapshot(sockets: SocketTable, procs: map<nat, ProcRow>)

  function OriginOf(snap: Snapshot, row: SocketRow): Origin {
    if row.inode in snap.procs then
      var p := snap.procs[row.inode];
      Local(p.pid, p.comm, p.cmdline, p.uid)
    else OtherUser(row.uid)
  }

  function Resolve(snap: Snapshot, a: Endpoint, b: Endpoint): Origin {
    if (a, b) in snap.sockets then OriginOf(snap, snap.sockets[(a, b)])
    else if (b, a) in snap.sockets then OriginOf(snap, snap.sockets[(b, a)])
    else UnknownOrigin
  }

  /** Two sockets have different owners: different processes, a process and none, or different users. */
  predicate OwnersDiffer(procs: map<nat, ProcRow>, x: SocketRow, y: SocketRow) {
    if x.inode in procs && y.inode in procs then procs[x.inode] != procs[y.inode]
    else if x.inode in procs || y.inode in procs then true
    else x.uid != y.uid
  }

  /** The order of the endpoints matters exactly if the table holds both orders and their sockets differ in owner. */
  lemma ResolveIsUndirected(snap: Snapshot, a: Endpoint, b: Endpoint)
    ensures Resolve(snap, a, b) == Resolve(snap, b, a) <==>
            !((a, b) in snap.sockets && (b, a) in snap.sockets &&
              OwnersDiffer(snap.procs, snap.sockets[(a, b)], snap.sockets[(b, a)]))
  {
  }

  /** A flow that is listed in neither order has no known origin. */
  lemma UnlistedIsUnknown(snap: Snapshot, a: Endpoint, b: Endpoint)
    ensures (a, b) !in snap.sockets && (b, a) !in snap.sockets <==> Resolve(snap, a, b) == UnknownOrigin
  {
  }

  // ----- a loopback flow between two processes

  const CLIENT_END := Endpoint(V4(0x7F00_0001), 50_000)
  const SERVER_END := Endpoint(V4(0x7F00_0001), 443)
  const CLIENT_PROCESS := ProcEntry(Some(100), Some([None, Some(7)]), "client", "client", 1000)
  const SERVER_PROCESS := ProcEntry(Some(200), Some([Some(8)]), "server", "server", 1000)
  const LOOPBACK_SOCKETS: SocketTable :=
    map[(CLIENT_END, SERVER_END) := SocketRow(7, 1000), (SERVER_END, CLIENT_END) := SocketRow(8, 1000)]

  /** The kernel lists a loopback flow once for each end, so the order decides which process is shown. */
  lemma LoopbackIsDirected(procs: map<nat, ProcRow>)
    requires OwnersOf([CLIENT_PROCESS, SERVER_PROCESS], {7, 8}, procs)
    ensures {7, 8} == set k | k in LOOPBACK_SOCKETS :: LOOPBACK_SOCKETS[k].inode
    ensures var snap := Snapshot(LOOPBACK_SOCKETS, procs);
            Resolve(snap, CLIENT_END, SERVER_END) == Local(100, "client", "client", 1000) &&
            Resolve(snap, SERVER_END, CLIENT_END) == Local(200, "server", "server", 1000)
  {
    var entries := [CLIENT_PROCESS, SERVER_PROCESS];
    assert CLIENT_PROCESS.descriptors.value[1] == Some(7) && SERVER_PROCESS.descriptors.value[0] == Some(8);
    assert Owns(entries[0], 7) && Owns(entries[1], 8);
    assert 7 in procs && 8 in procs;
    assert LOOPBACK_SOCKETS[(CLIENT_END, SERVER_END)].inode == 7 &&
           LOOPBACK_SOCKETS[(SERVER_END, CLIENT_END)].inode == 8;
  }

  /** The row that a lookup takes: the given order of the endpoints first. */
  function RowFor(sockets: SocketTable, a: Endpoint, b: Endpoint): SocketRow
    requires (a, b) in sockets || (b, a) in sockets
  {
    if (a, b) in sockets then sockets[(a, b)] else sockets[(b, a)]
  }

  /**
   With the process table of a scan, a listed flow is attributed to a process exactly when some process holds
   its socket, and then to the first that does, and else to the user recorded for the socket.
   */
  lemma ResolveFindsFirstOwner(snap: Snapshot, entries: seq<ProcEntry>, a: Endpoint, b: Endpoint)
    requires OwnersOf(entries, set k | k in snap.sockets :: snap.sockets[k].inode, snap.procs)
    requires (a, b) in snap.sockets || (b, a) in snap.sockets
    ensures var row := RowFor(snap.sockets, a, b);
            var r := Resolve(snap, a, b);
            (r.Local? <==> !Unowned(entries, row.inode)) &&
            (r.OtherUser? <==> Unowned(entries, row.inode)) && (r.OtherUser? ==> r.ownerUid == row.uid) &&
            forall i :: FirstOwner(entries, row.inode, i) ==>
                          r == Local(RowOf(entries[i]).pid, entries[i].comm, entries[i].cmdline, entries[i].uid)
  {
    var inode := RowFor(snap.sockets, a, b).inode;
    if inode in snap.procs {
      var i :| FirstOwner(entries, inode, i) && snap.procs[inode] == RowOf(entries[i]);
      forall j | FirstOwner(entries, inode, j)
        ensures j == i
      {
      }
    } else {
      assert Unowned(entries, inode);
    }
  }
}
