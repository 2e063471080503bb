/**
 The cursors of the three panes as a value, and what every key and every tracker event does to them.
 */
module App {
  import opened Wire
  import opened Model
  import Hello

  datatype PaneFocus = Connections | Records | Right

  datatype MiddlePaneMode = RecordList | Flow

  const USIZE_MAX := 0xFFFF_FFFF_FFFF_FFFF

  /** Row 0 of the middle pane is the metadata row; row `i` shows record `i - 1`. */
  datatype AppState = AppState(
    order: seq<ConnectionKey>,
    connections: map<ConnectionKey, ConnectionState>,
    selected: nat,
    focus: PaneFocus,
    middleMode: MiddlePaneMode,
    recordsRow: nat,
    sectionIndex: nat,
    education: bool,
    diagramOverlay: bool,
    tickCount: nat,
    evicted: nat)

  const NEW_APP := AppState([], map[], 0, Connections, RecordList, 0, 0, false, false, 0, 0)

  /** The number of sections shown for a record. */
  type Sections = RecordEvent -> nat

  // ----- what is selected

  function Selected(a: AppState): Option<ConnectionState> {
    if a.selected < |a.order| && a.order[a.selected] in a.connections
    then Some(a.connections[a.order[a.selected]]) else None
  }

  function RecordCount(a: AppState): nat {
    if Selected(a).Some? then |Selected(a).value.records| else 0
  }

  function RecordSelected(a: AppState): Option<RecordEvent> {
    if a.recordsRow == 0 || a.recordsRow > RecordCount(a) then None
    else Some(Selected(a).value.records[a.recordsRow - 1])
  }

  function SectionCount(sections: Sections, a: AppState): nat {
    if RecordSelected(a).Some? then sections(RecordSelected(a).value) else 0
  }

  predicate IsClientHello(e: RecordEvent) {
    e.body.HandshakeRecord? && e.body.message.ClientHelloMessage?
  }

  function FirstClientHello(records: seq<RecordEvent>): Option<nat> {
    if records == [] then None
    else if IsClientHello(records[0]) then Some(0)
    else
      match FirstClientHello(records[1..])
      case None => None
      case Some(i) => Some(i + 1)
  }

  function ClientHelloRow(a: AppState): Option<nat> {
    if Selected(a).None? then None
    else
      match FirstClientHello(Selected(a).value.records)
      case None => None
      case Some(i) => Some(i + 1)
  }

  // ----- keys

  function Pred(n: nat): nat {
    if n == 0 then 0 else n - 1
  }

  function MoveTo(a: AppState, row: nat): AppState {
    a.(recordsRow := row, sectionIndex := 0)
  }

  function ToggleMiddleMode(a: AppState): AppState {
    if a.middleMode == Flow then a.(middleMode := RecordList)
    else
      var flow := a.(middleMode := Flow);
      if ClientHelloRow(flow).Some? then MoveTo(flow, ClientHelloRow(flow).value) else flow
  }

  function ClearConnections(a: AppState): AppState {
    a.(order := [], connections := map[], selected := 0, focus := Connections, recordsRow := 0, sectionIndex := 0)
  }

  function FocusLeft(a: AppState): AppState {
    a.(focus := if a.focus == Right then Records else Connections)
  }

  function AdvancePastMetadataRow(a: AppState): AppState {
    if a.recordsRow == 0 && RecordCount(a) > 0 then MoveTo(a, 1) else a
  }

  function FocusRight(a: AppState): AppState {
    match a.focus
    case Connections => a.(focus := Records)
    case _ => AdvancePastMetadataRow(a.(focus := Right))
  }

  function FocusCycle(a: AppState): AppState {
    match a.focus
    case Connections => a.(focus := Records)
    case Records => AdvancePastMetadataRow(a.(focus := Right))
    case Right => a.(focus := Connections)
  }

  function SelectConnection(a: AppState, i: nat): AppState {
    if i == a.selected then a else a.(selected := i, recordsRow := 0, sectionIndex := 0)
  }

  function SelectRow(a: AppState, row: nat): AppState {
    if row == a.recordsRow then a else MoveTo(a, row)
  }

  function SelectPrev(a: AppState): AppState {
    match a.focus
    case Connections => if a.order == [] then a else SelectConnection(a, Pred(a.selected))
    case Records => SelectRow(a, Pred(a.recordsRow))
    case Right => if a.recordsRow == 0 then a else a.(sectionIndex := Pred(a.sectionIndex))
  }

  function SelectNext(sections: Sections, a: AppState): AppState {
    match a.focus
    case Connections =>
      if a.order == [] then a
      else SelectConnection(a, if a.selected < |a.order| - 1 then a.selected + 1 else a.selected)
    case Records => SelectRow(a, if a.recordsRow < RecordCount(a) then a.recordsRow + 1 else a.recordsRow)
    case Right =>
      if a.recordsRow == 0 then a
      else
        var last := Pred(SectionCount(sections, a));
        a.(sectionIndex := if a.sectionIndex < last then a.sectionIndex + 1 else a.sectionIndex)
  }

  // ----- events of the tracker

  function Min(m: nat, n: nat): nat {
    if m <= n then m else n
  }

  function ClampIndices(sections: Sections, a: AppState): AppState {
    var rowed := a.(recordsRow := Min(a.recordsRow, RecordCount(a)));
    rowed.(sectionIndex := Min(rowed.sectionIndex, Pred(SectionCount(sections, rowed))))
  }

  function HandshakeUpdated(sections: Sections, a: AppState, state: ConnectionState): AppState {
    var order := if state.key in a.connections then a.order else a.order + [state.key];
    var isSelected := a.selected < |order| && order[a.selected] == state.key;
    var updated := a.(order := order, connections := a.connections[state.key := state]);
    if isSelected then ClampIndices(sections, updated) else updated
  }

  /** The keys that are still in the map, in order. */
  function Retained(order: seq<ConnectionKey>, connections: map<ConnectionKey, ConnectionState>): seq<ConnectionKey> {
    if order == [] then []
    else (if order[0] in connections then [order[0]] else []) + Retained(order[1..], connections)
  }

  function Position(order: seq<ConnectionKey>, key: ConnectionKey): (r: Option<nat>)
    ensures r.Some? ==> r.value < |order| && order[r.value] == key
  {
    if order == [] then None
    else if order[0] == key then Some(0)
    else
      match Position(order[1..], key)
      case None => None
      case Some(i) => Some(i + 1)
  }

  function StaleEvicted(sections: Sections, a: AppState, n: nat): AppState {
    var selectedKey := if a.selected < |a.order| then Some(a.order[a.selected]) else None;
    var kept := a.(evicted := Min(a.evicted + n, USIZE_MAX), order := Retained(a.order, a.connections));
    if kept.order == [] then kept.(selected := 0, recordsRow := 0, sectionIndex := 0)
    else
      var position := if selectedKey.Some? then Position(kept.order, selectedKey.value) else None;
      var moved := if position.Some? then kept.(selected := position.value)
                   else kept.(selected := Min(kept.selected, |kept.order| - 1), recordsRow := 0, sectionIndex := 0);
      ClampIndices(sections, moved)
  }

  // ----- runs

  datatype Input =
    | KeyClear | KeyLeft | KeyEducation | KeyDiagram | KeyFlow | KeyRight | KeyTab | KeyUp | KeyDown
    | Update(state: ConnectionState)
    | Evicted(count: nat)
    | Tick

  function React(sections: Sections, a: AppState, input: Input): AppState {
    match input
    case KeyClear => ClearConnections(a)
    case KeyLeft => FocusLeft(a)
    case KeyEducation => a.(education := !a.education)
    case KeyDiagram => a.(diagramOverlay := !a.diagramOverlay)
    case KeyFlow => ToggleMiddleMode(a)
    case KeyRight => FocusRight(a)
    case KeyTab => FocusCycle(a)
    case KeyUp => SelectPrev(a)
    case KeyDown => SelectNext(sections, a)
    case Update(state) => HandshakeUpdated(sections, a, state)
    case Evicted(n) => StaleEvicted(sections, a, n)
    case Tick => a.(tickCount := (a.tickCount + 1) % 0x1_0000_0000_0000_0000)
  }

  function ReactAll(sections: Sections, a: AppState, inputs: seq<Input>): AppState
    decreases |inputs|
  {
    if inputs == [] then a
    else React(sections, ReactAll(sections, a, inputs[..|inputs| - 1]), inputs[|inputs| - 1])
  }

  // ----- the invariant

  ghost predicate Distinct(order: seq<ConnectionKey>) {
    forall i, j :: 0 <= i < j < |order| ==> order[i] != order[j]
  }

  /** The order lists every connection once, and the selection is in it. */
  ghost predicate OrderOk(a: AppState) {
    && Distinct(a.order)
    && (forall k :: k in a.order <==> k in a.connections)
    && (if a.order == [] then a.selected == 0 else a.selected < |a.order|)
  }

  /** The cursors point into what is shown. */
  ghost predicate CursorsOk(sections: Sections, a: AppState) {
    && OrderOk(a)
    && a.recordsRow <= RecordCount(a)
    && (a.sectionIndex == 0 || a.sectionIndex < SectionCount(sections, a))
  }

  lemma ClampKeepsCursors(sections: Sections, a: AppState)
    requires OrderOk(a)
    ensures CursorsOk(sections, ClampIndices(sections, a))
  {
  }

  /** Clamping moves nothing when the cursors are in range already. */
  lemma ClampIsIdle(sections: Sections, a: AppState)
    requires CursorsOk(sections, a)
    ensures ClampIndices(sections, a) == a
  {
  }

  lemma {:induction false} RetainedAll(order: seq<ConnectionKey>, connections: map<ConnectionKey, ConnectionState>)
    requires forall k :: k in order ==> k in connections
    ensures Retained(order, connections) == order
    decreases |order|
  {
    if order == [] {
    } else {
      assert order[0] in order;
      RetainedAll(order[1..], connections);
    }
  }

  lemma {:induction false} PositionOfDistinct(order: seq<ConnectionKey>, i: nat)
    requires Distinct(order) && i < |order|
    ensures Position(order, order[i]) == Some(i)
    decreases |order|
  {
    if i == 0 {
    } else {
      assert order[1..][i - 1] == order[i];
      PositionOfDistinct(order[1..], i - 1);
    }
  }

  /** An eviction notice changes the counter and nothing else. */
  lemma EvictionOnlyCounts(sections: Sections, a: AppState, n: nat)
    requires CursorsOk(sections, a)
    ensures StaleEvicted(sections, a, n) == a.(evicted := Min(a.evicted + n, USIZE_MAX))
  {
    hide ClampIndices, Retained, Position;
    var b := a.(evicted := Min(a.evicted + n, USIZE_MAX));
    RetainedAll(a.order, a.connections);
    if a.order == [] {
      assert Selected(a).None?;
    } else {
      PositionOfDistinct(a.order, a.selected);
      SameCursors(sections, a, b);
      ClampIsIdle(sections, b);
    }
  }

  /** Storing a snapshot keeps the order. */
  lemma StoredInOrder(a: AppState, state: ConnectionState) returns (stored: AppState)
    requires OrderOk(a)
    ensures stored == a.(order := if state.key in a.connections then a.order else a.order + [state.key],
                         connections := a.connections[state.key := state])
    ensures OrderOk(stored)
  {
    stored := a.(order := if state.key in a.connections then a.order else a.order + [state.key],
                 connections := a.connections[state.key := state]);
    assert forall k :: k in stored.order <==> k in a.order || k == state.key;
  }

  lemma UpdateKeepsInvariant(sections: Sections, a: AppState, state: ConnectionState)
    requires CursorsOk(sections, a)
    ensures CursorsOk(sections, HandshakeUpdated(sections, a, state))
  {
    hide ClampIndices;
    var stored := StoredInOrder(a, state);
    ClampKeepsCursors(sections, stored);
    if !(a.selected < |stored.order| && stored.order[a.selected] == state.key) {
      hide OrderOk;
      assert Selected(stored) == Selected(a);
    }
  }

  lemma {:induction false} ClientHelloInRange(records: seq<RecordEvent>)
    ensures FirstClientHello(records).Some? ==>
              var i := FirstClientHello(records).value;
              i < |records| && IsClientHello(records[i]) && forall j :: 0 <= j < i ==> !IsClientHello(records[j])
    ensures FirstClientHello(records).None? ==> forall j :: 0 <= j < |records| ==> !IsClientHello(records[j])
    decreases |records|
  {
    if records == [] {
    } else {
      ClientHelloInRange(records[1..]);
      assert forall j :: 1 <= j < |records| ==> records[j] == records[1..][j - 1];
    }
  }

  /** The invariant is about the lists and the four cursors only. */
  lemma SameCursors(sections: Sections, a: AppState, b: AppState)
    requires b.order == a.order && b.connections == a.connections && b.selected == a.selected
    requires b.recordsRow == a.recordsRow && b.sectionIndex == a.sectionIndex
    ensures RecordCount(b) == RecordCount(a) && Selected(b) == Selected(a) && RecordSelected(b) == RecordSelected(a)
    ensures CursorsOk(sections, b) <==> CursorsOk(sections, a)
  {
  }

  lemma MoveKeepsInvariant(sections: Sections, a: AppState, row: nat)
    requires CursorsOk(sections, a) && row <= RecordCount(a)
    ensures CursorsOk(sections, MoveTo(a, row)) && CursorsOk(sections, SelectRow(a, row))
  {
  }

  lemma ConnectionKeepsInvariant(sections: Sections, a: AppState, i: nat)
    requires CursorsOk(sections, a) && i < |a.order|
    ensures CursorsOk(sections, SelectConnection(a, i))
  {
  }

  lemma FocusKeepsInvariant(sections: Sections, a: AppState, focus: PaneFocus)
    requires CursorsOk(sections, a)
    ensures CursorsOk(sections, a.(focus := focus)) && CursorsOk(sections, AdvancePastMetadataRow(a.(focus := focus)))
  {
    SameCursors(sections, a, a.(focus := focus));
    if RecordCount(a) > 0 {
      MoveKeepsInvariant(sections, a.(focus := focus), 1);
    }
  }

  lemma SelectKeepsInvariant(sections: Sections, a: AppState)
    requires CursorsOk(sections, a)
    ensures CursorsOk(sections, SelectPrev(a)) && CursorsOk(sections, SelectNext(sections, a))
  {
    hide CursorsOk;
    match a.focus {
      case Connections =>
        if a.order != [] {
          SelectedInOrder(sections, a);
          ConnectionKeepsInvariant(sections, a, Pred(a.selected));
          ConnectionKeepsInvariant(sections, a, if a.selected < |a.order| - 1 then a.selected + 1 else a.selected);
        }
      case Records =>
        RowInRange(sections, a);
        MoveKeepsInvariant(sections, a, Pred(a.recordsRow));
        MoveKeepsInvariant(sections, a, if a.recordsRow < RecordCount(a) then a.recordsRow + 1 else a.recordsRow);
      case Right =>
        SectionKeepsInvariant(sections, a, Pred(a.sectionIndex));
        if a.sectionIndex < Pred(SectionCount(sections, a)) {
          SectionKeepsInvariant(sections, a, a.sectionIndex + 1);
        } else {
          SectionKeepsInvariant(sections, a, a.sectionIndex);
        }
    }
  }

  lemma SelectedInOrder(sections: Sections, a: AppState)
    requires CursorsOk(sections, a) && a.order != []
    ensures a.selected < |a.order|
  {
  }

  lemma RowInRange(sections: Sections, a: AppState)
    requires CursorsOk(sections, a)
    ensures a.recordsRow <= RecordCount(a)
  {
  }

  lemma SectionKeepsInvariant(sections: Sections, a: AppState, i: nat)
    requires CursorsOk(sections, a) && (i <= a.sectionIndex || i < SectionCount(sections, a))
    ensures CursorsOk(sections, a.(sectionIndex := i))
  {
  }

  lemma FlowKeepsInvariant(sections: Sections, a: AppState)
    requires CursorsOk(sections, a)
    ensures CursorsOk(sections, ToggleMiddleMode(a))
  {
    hide CursorsOk, FirstClientHello;
    var flow := a.(middleMode := Flow);
    SameCursors(sections, a, a.(middleMode := RecordList));
    SameCursors(sections, a, flow);
    if Selected(a).Some? {
      ClientHelloInRange(Selected(a).value.records);
    }
    if ClientHelloRow(flow).Some? {
      MoveKeepsInvariant(sections, flow, ClientHelloRow(flow).value);
    }
  }

  lemma ClearKeepsInvariant(sections: Sections, a: AppState)
    ensures CursorsOk(sections, ClearConnections(a))
  {
  }

  lemma ReactKeepsInvariant(sections: Sections, a: AppState, input: Input)
    requires CursorsOk(sections, a)
    ensures CursorsOk(sections, React(sections, a, input))
  {
    hide CursorsOk, ToggleMiddleMode, ClearConnections, SelectPrev, SelectNext, AdvancePastMetadataRow,
         HandshakeUpdated;
    hide StaleEvicted;
    match input {
      case KeyLeft => FocusKeepsInvariant(sections, a, if a.focus == Right then Records else Connections);
      case KeyRight =>
        FocusKeepsInvariant(sections, a, Records);
        FocusKeepsInvariant(sections, a, Right);
      case KeyTab =>
        FocusKeepsInvariant(sections, a, Connections);
        FocusKeepsInvariant(sections, a, Records);
        FocusKeepsInvariant(sections, a, Right);
      case KeyUp => SelectKeepsInvariant(sections, a);
      case KeyDown => SelectKeepsInvariant(sections, a);
      case Update(state) => UpdateKeepsInvariant(sections, a, state);
      case Evicted(n) =>
        EvictionOnlyCounts(sections, a, n);
        SameCursors(sections, a, React(sections, a, input));
      case KeyFlow => FlowKeepsInvariant(sections, a);
      case KeyClear => ClearKeepsInvariant(sections, a);
      case _ => SameCursors(sections, a, React(sections, a, input));
    }
  }

  /** The invariant holds after every sequence of keys, tracker events and ticks. */
  lemma {:induction false} InvariantOfRun(sections: Sections, inputs: seq<Input>)
    ensures CursorsOk(sections, ReactAll(sections, NEW_APP, inputs))
    decreases |inputs|
  {
    hide React, CursorsOk;
    if inputs == [] {
      NewAppOk(sections);
    } else {
      InvariantOfRun(sections, inputs[..|inputs| - 1]);
      ReactKeepsInvariant(sections, ReactAll(sections, NEW_APP, inputs[..|inputs| - 1]), inputs[|inputs| - 1]);
    }
  }

  lemma NewAppOk(sections: Sections)
    ensures CursorsOk(sections, NEW_APP)
  {
  }

  // ----- a growing timeline leaves the cursors alone

  /** What the cursors show: the selected connection's records, row 0 none of them and row `i` the `i`-th. */
  lemma SelectionShows(sections: Sections, a: AppState)
    requires CursorsOk(sections, a)
    ensures a.order == [] ==> RecordCount(a) == 0 && RecordSelected(a).None?
    ensures a.order != [] ==>
              a.order[a.selected] in a.connections &&
              var records := a.connections[a.order[a.selected]].records;
              RecordCount(a) == |records| && a.recordsRow <= |records| &&
              RecordSelected(a) == if a.recordsRow == 0 then None else Some(records[a.recordsRow - 1])
    ensures SectionCount(sections, a) == if RecordSelected(a).None? then 0 else sections(RecordSelected(a).value)
  {
  }

  predicate ShowsSelected(a: AppState, key: ConnectionKey) {
    a.selected < |a.order| && a.order[a.selected] == key
  }

  /** The selected row and section exist in these records too. */
  predicate StillThere(sections: Sections, a: AppState, records: seq<RecordEvent>) {
    a.recordsRow <= |records| &&
    (a.sectionIndex == 0 || (a.recordsRow > 0 && a.sectionIndex < sections(records[a.recordsRow - 1])))
  }

  /** The record under the cursor, pulled back if the list got shorter, is the one selected before. */
  predicate SameRecord(a: AppState, records: seq<RecordEvent>) {
    var row := Min(a.recordsRow, |records|);
    a.recordsRow == 0 || (row > 0 && Some(records[row - 1]) == RecordSelected(a))
  }

  /**
   An update keeps the selected connection. If it is of another one, it keeps everything selected; else it
   keeps row and section exactly if its records still have them, and the selected record exactly if it is
   still under the cursor.
   */
  lemma UpdateMovesCursors(sections: Sections, a: AppState, state: ConnectionState)
    requires CursorsOk(sections, a)
    ensures var b := HandshakeUpdated(sections, a, state);
            b.selected == a.selected &&
            b.recordsRow ==
            (if ShowsSelected(a, state.key) then Min(a.recordsRow, |state.records|) else a.recordsRow) &&
            (b.recordsRow == a.recordsRow && b.sectionIndex == a.sectionIndex <==>
             !ShowsSelected(a, state.key) || StillThere(sections, a, state.records)) &&
            (RecordSelected(b) == RecordSelected(a) <==> !ShowsSelected(a, state.key) || SameRecord(a, state.records))
  {
    if ShowsSelected(a, state.key) {
      assert Selected(a.(connections := a.connections[state.key := state])) == Some(state);
    } else {
      hide StillThere, SameRecord;
      OthersStaySelected(sections, a, state);
    }
  }

  /** The record under the cursor after an update of the selected connection. */
  lemma UpdateShowsRecord(sections: Sections, a: AppState, state: ConnectionState)
    requires CursorsOk(sections, a) && ShowsSelected(a, state.key)
    ensures var row := Min(a.recordsRow, |state.records|);
            RecordSelected(HandshakeUpdated(sections, a, state)) ==
            if row == 0 then None else Some(state.records[row - 1])
  {
    assert Selected(a.(connections := a.connections[state.key := state])) == Some(state);
  }

  /** The section after an update of the selected connection: the same, or the last one there is. */
  lemma UpdateShowsSection(sections: Sections, a: AppState, state: ConnectionState)
    requires CursorsOk(sections, a) && ShowsSelected(a, state.key)
    ensures var row := Min(a.recordsRow, |state.records|);
            var count := if row == 0 then 0 else sections(state.records[row - 1]);
            HandshakeUpdated(sections, a, state).sectionIndex ==
            if a.sectionIndex < count then a.sectionIndex else if count == 0 then 0 else count - 1
  {
    assert Selected(a.(connections := a.connections[state.key := state])) == Some(state);
  }

  lemma OthersStaySelected(sections: Sections, a: AppState, state: ConnectionState)
    requires CursorsOk(sections, a) && !ShowsSelected(a, state.key)
    ensures var b := HandshakeUpdated(sections, a, state);
            b.selected == a.selected && b.recordsRow == a.recordsRow && b.sectionIndex == a.sectionIndex &&
            RecordSelected(b) == RecordSelected(a)
  {
  }

  /**
   An update whose records extend the ones shown changes neither the selected connection, nor the
   selected record, nor the selected section.
   */
  lemma GrowthKeepsCursors(sections: Sections, a: AppState, state: ConnectionState)
    requires CursorsOk(sections, a)
    requires state.key in a.connections ==> a.connections[state.key].records <= state.records
    ensures var b := HandshakeUpdated(sections, a, state);
            b.connections == a.connections[state.key := state] && a.order <= b.order &&
            b.selected == a.selected && b.recordsRow == a.recordsRow && b.sectionIndex == a.sectionIndex &&
            b.focus == a.focus && b.middleMode == a.middleMode && RecordSelected(b) == RecordSelected(a)
  {
    var order := if state.key in a.connections then a.order else a.order + [state.key];
    var updated := a.(order := order, connections := a.connections[state.key := state]);
    assert RecordSelected(updated) == RecordSelected(a);
    if a.selected < |order| && order[a.selected] == state.key {
      assert CursorsOk(sections, updated) by {
        assert Distinct(order) && forall k :: k in order <==> k in updated.connections;
      }
      ClampIsIdle(sections, updated);
    }
  }

  /** The entry shows a decoded ClientHello. */
  ghost predicate ShowsClientHello(e: RecordEvent) {
    exists hello :: e.body == HandshakeRecord(Hello.ClientHelloMessage(hello))
  }

  /** The flow view starts at the first ClientHello of the selected connection, when there is one. */
  lemma FlowStartsAtClientHello(sections: Sections, a: AppState)
    requires CursorsOk(sections, a) && a.middleMode == RecordList && Selected(a).Some?
    ensures var b := ToggleMiddleMode(a);
            var records := Selected(a).value.records;
            if exists i :: 0 <= i < |records| && ShowsClientHello(records[i]) then
              b.recordsRow > 0 && RecordSelected(b).Some? && ShowsClientHello(RecordSelected(b).value) &&
              forall j :: 0 <= j < b.recordsRow - 1 ==> !ShowsClientHello(records[j])
            else b == a.(middleMode := Flow)
  {
    ClientHelloInRange(Selected(a).value.records);
  }
}
