/**
 The application state of the user interface thread, updated in place; every method is tied to the
 function of module `App` whose invariants are proved there.
 */
module AppMachine {
  import opened Wire
  import opened Model
  import A = App

  class App {
    const sections: A.Sections
    var order: seq<ConnectionKey>
    var connections: map<ConnectionKey, ConnectionState>
    var selected: nat
    var focus: A.PaneFocus
    var middleMode: A.MiddlePaneMode
    var recordsRow: nat
    var sectionIndex: nat
    var education: bool
    var diagramOverlay: bool
    var tickCount: nat
    var evicted: nat

    function View(): A.AppState
      reads this
    {
      A.AppState(order, connections, selected, focus, middleMode, recordsRow, sectionIndex, education,
                 diagramOverlay, tickCount, evicted)
    }

    constructor (sections: A.Sections)
      ensures View() == A.NEW_APP && this.sections == sections
    {
      this.sections := sections;
      order, connections, selected := [], map[], 0;
      focus, middleMode := A.Connections, A.RecordList;
      recordsRow, sectionIndex := 0, 0;
      education, diagramOverlay, tickCount, evicted := false, false, 0, 0;
    }

    method ToggleMiddleMode()
      modifies this`middleMode, this`recordsRow, this`sectionIndex
      ensures View() == A.ToggleMiddleMode(old(View()))
    {
      middleMode := if middleMode == A.RecordList then A.Flow else A.RecordList;
      if middleMode == A.Flow {
        var row := A.ClientHelloRow(View());
        if row.Some? {
          recordsRow := row.value;
          OnRecordsRowChanged();
        }
      }
    }

    method ClearConnections()
      modifies this
      ensures View() == A.ClearConnections(old(View()))
    {
      order := [];
      connections := map[];
      selected := 0;
      focus := A.Connections;
      recordsRow := 0;
      sectionIndex := 0;
    }

    method FocusLeft()
      modifies this`focus
      ensures View() == A.FocusLeft(old(View()))
    {
      focus := match focus
        case Connections => A.Connections
        case Records => A.Connections
        case Right => A.Records;
    }

    method FocusRight()
      modifies this`focus, this`recordsRow, this`sectionIndex
      ensures View() == A.FocusRight(old(View()))
    {
      focus := match focus
        case Connections => A.Records
        case Records => A.Right
        case Right => A.Right;
      if focus == A.Right {
        AdvancePastMetadataRow();
      }
    }

    method FocusCycle()
      modifies this`focus, this`recordsRow, this`sectionIndex
      ensures View() == A.FocusCycle(old(View()))
    {
      focus := match focus
        case Connections => A.Records
        case Records => A.Right
        case Right => A.Connections;
      if focus == A.Right {
        AdvancePastMetadataRow();
      }
    }

    method AdvancePastMetadataRow()
      modifies this`recordsRow, this`sectionIndex
      ensures View() == A.AdvancePastMetadataRow(old(View()))
    {
      if recordsRow == 0 && A.RecordCount(View()) > 0 {
        recordsRow := 1;
        OnRecordsRowChanged();
      }
    }

    method SelectPrev()
      modifies this`selected, this`recordsRow, this`sectionIndex
      ensures View() == A.SelectPrev(old(View()))
    {
      match focus {
        case Connections =>
          if order != [] {
            var before := selected;
            selected := A.Pred(selected);
            if selected != before {
              OnConnectionChanged();
            }
          }
        case Records =>
          var before := recordsRow;
          recordsRow := A.Pred(recordsRow);
          if recordsRow != before {
            OnRecordsRowChanged();
          }
        case Right =>
          if recordsRow != 0 {
            sectionIndex := A.Pred(sectionIndex);
          }
      }
    }

    method SelectNext()
      modifies this`selected, this`recordsRow, this`sectionIndex
      ensures View() == A.SelectNext(sections, old(View()))
    {
      match focus {
        case Connections =>
          if order != [] {
            var last := |order| - 1;
            var before := selected;
            if selected < last {
              selected := selected + 1;
            }
            if selected != before {
              OnConnectionChanged();
            }
          }
        case Records =>
          var cap := A.RecordCount(View());
          var before := recordsRow;
          if recordsRow < cap {
            recordsRow := recordsRow + 1;
          }
          if recordsRow != before {
            OnRecordsRowChanged();
          }
        case Right =>
          if recordsRow != 0 {
            var cap := A.Pred(A.SectionCount(sections, View()));
            if sectionIndex < cap {
              sectionIndex := sectionIndex + 1;
            }
          }
      }
    }

    method OnConnectionChanged()
      modifies this`recordsRow, this`sectionIndex
      ensures recordsRow == 0 && sectionIndex == 0
    {
      recordsRow := 0;
      sectionIndex := 0;
    }

    method OnRecordsRowChanged()
      modifies this`sectionIndex
      ensures sectionIndex == 0
    {
      sectionIndex := 0;
    }

    method ClampIndices()
      modifies this`recordsRow, this`sectionIndex
      ensures View() == A.ClampIndices(sections, old(View()))
    {
      var rowCap := A.RecordCount(View());
      if recordsRow > rowCap {
        recordsRow := rowCap;
      }
      var sectionCap := A.Pred(A.SectionCount(sections, View()));
      if sectionIndex > sectionCap {
        sectionIndex := sectionCap;
      }
    }

    method HandshakeUpdated(state: ConnectionState)
      modifies this
      ensures View() == A.HandshakeUpdated(sections, old(View()), state)
    {
      hide A.ClampIndices;
      var key := state.key;
      if key !in connections {
        order := order + [key];
      }
      var isSelected := selected < |order| && order[selected] == key;
      connections := connections[key := state];
      if isSelected {
        ClampIndices();
      }
    }

    method StaleEvicted(n: nat)
      modifies this
      ensures View() == A.StaleEvicted(sections, old(View()), n)
    {
      hide A.ClampIndices, A.Retained, A.Position;
      evicted := A.Min(evicted + n, A.USIZE_MAX);
      var selectedKey := if selected < |order| then Some(order[selected]) else None;
      order := A.Retained(order, connections);
      if order == [] {
        selected := 0;
        OnConnectionChanged();
        return;
      }
      var position := if selectedKey.Some? then A.Position(order, selectedKey.value) else None;
      if position.Some? {
        selected := position.value;
      } else {
        selected := A.Min(selected, |order| - 1);
        OnConnectionChanged();
      }
      ClampIndices();
    }

    /** One turn of the event loop: a key press, a tracker event or a tick. */
    method React(input: A.Input)
      modifies this
      ensures View() == A.React(sections, old(View()), input)
    {
      hide A.ToggleMiddleMode, A.HandshakeUpdated, A.StaleEvicted, A.SelectPrev, A.SelectNext;
      match input {
        case KeyClear => ClearConnections();
        case KeyLeft => FocusLeft();
        case KeyEducation => education := !education;
        case KeyDiagram => diagramOverlay := !diagramOverlay;
        case KeyFlow => ToggleMiddleMode();
        case KeyRight => FocusRight();
        case KeyTab => FocusCycle();
        case KeyUp => SelectPrev();
        case KeyDown => SelectNext();
        case Update(state) => HandshakeUpdated(state);
        case Evicted(n) => StaleEvicted(n);
        case Tick => tickCount := (tickCount + 1) % 0x1_0000_0000_0000_0000;
      }
    }

    /** The event loop over a sequence of inputs. */
    method RunLoop(inputs: seq<A.Input>)
      modifies this
      ensures View() == A.ReactAll(sections, old(View()), inputs)
    {
      hide A.React;
      for i := 0 to |inputs|
        invariant View() == A.ReactAll(sections, old(View()), inputs[..i])
      {
        React(inputs[i]);
        assert inputs[..i + 1][..i] == inputs[..i];
      }
      assert inputs[..|inputs|] == inputs;
    }
  }
}
