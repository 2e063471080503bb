/**
 The geometry of the keys: what each press moves, what it resets, and which presses undo one another.
 */
module KeyLaws {
  import opened App

  // ----- up and down

  /** Where the focused pane's cursor is. */
  function CursorOf(a: AppState): nat {
    match a.focus
    case Connections => a.selected
    case Records => a.recordsRow
    case Right => a.sectionIndex
  }

  /** The last place it can go to: a row for each connection, one more than records, a section each. */
  function LastPlace(sections: Sections, a: AppState): nat {
    match a.focus
    case Connections => if a.order == [] then 0 else |a.order| - 1
    case Records => RecordCount(a)
    case Right => if SectionCount(sections, a) == 0 then 0 else SectionCount(sections, a) - 1
  }

  /** The focused cursor at `n`, the cursors of the panes to the right of it back at the start. */
  function At(a: AppState, n: nat): AppState {
    match a.focus
    case Connections => a.(selected := n, recordsRow := 0, sectionIndex := 0)
    case Records => a.(recordsRow := n, sectionIndex := 0)
    case Right => a.(sectionIndex := n)
  }

  /** Down moves the focused cursor one place on, or nothing at the end. */
  lemma DownMoves(sections: Sections, a: AppState)
    requires CursorsOk(sections, a)
    ensures React(sections, a, KeyDown) ==
            if CursorOf(a) < LastPlace(sections, a) then At(a, CursorOf(a) + 1) else a
  {
  }

  /** Up moves it one place back, or nothing at the start. */
  lemma UpMoves(sections: Sections, a: AppState)
    requires CursorsOk(sections, a)
    ensures React(sections, a, KeyUp) == if CursorOf(a) > 0 then At(a, CursorOf(a) - 1) else a
  {
  }

  /** Up undoes down, but for the cursors that the move put back. */
  lemma UpAfterDown(sections: Sections, a: AppState)
    requires CursorsOk(sections, a) && CursorOf(a) < LastPlace(sections, a)
    ensures React(sections, React(sections, a, KeyDown), KeyUp) == At(a, CursorOf(a))
  {
    hide React, CursorsOk;
    DownMoves(sections, a);
    ReactKeepsInvariant(sections, a, KeyDown);
    UpMoves(sections, React(sections, a, KeyDown));
  }

  /** And down undoes up. */
  lemma DownAfterUp(sections: Sections, a: AppState)
    requires CursorsOk(sections, a) && CursorOf(a) > 0
    ensures React(sections, React(sections, a, KeyUp), KeyDown) == At(a, CursorOf(a))
  {
    hide React, CursorsOk;
    UpMoves(sections, a);
    ReactKeepsInvariant(sections, a, KeyUp);
    DownMoves(sections, React(sections, a, KeyUp));
    SamePlaces(sections, a);
  }

  lemma SamePlaces(sections: Sections, a: AppState)
    requires CursorsOk(sections, a) && CursorOf(a) > 0
    ensures CursorOf(a) <= LastPlace(sections, a)
    ensures LastPlace(sections, At(a, CursorOf(a) - 1)) == LastPlace(sections, a)
  {
  }

  // ----- left, right and tab

  function RightOf(focus: PaneFocus): PaneFocus {
    match focus
    case Connections => Records
    case _ => Right
  }

  function LeftOf(focus: PaneFocus): PaneFocus {
    match focus
    case Right => Records
    case _ => Connections
  }

  /** Entering the right pane moves a cursor on the metadata row to the first record, if there is one. */
  function Entered(a: AppState): AppState {
    if a.focus == Right && a.recordsRow == 0 && RecordCount(a) > 0 then a.(recordsRow := 1, sectionIndex := 0) else a
  }

  lemma FocusMoves(sections: Sections, a: AppState)
    ensures React(sections, a, KeyRight) == Entered(a.(focus := RightOf(a.focus)))
    ensures React(sections, a, KeyLeft) == a.(focus := LeftOf(a.focus))
    ensures React(sections, a, KeyTab) ==
            Entered(a.(focus := if a.focus == Right then Connections else RightOf(a.focus)))
  {
  }

  /** Left undoes right and right undoes left, where there is a pane to go to; three tabs come round. */
  lemma FocusComesBack(sections: Sections, a: AppState)
    ensures a.focus != Right ==> React(sections, React(sections, a, KeyRight), KeyLeft).focus == a.focus
    ensures a.focus != Connections ==> React(sections, React(sections, a, KeyLeft), KeyRight).focus == a.focus
    ensures React(sections, React(sections, React(sections, a, KeyTab), KeyTab), KeyTab).focus == a.focus
  {
    hide React;
    FocusMoves(sections, a);
    FocusMoves(sections, React(sections, a, KeyRight));
    FocusMoves(sections, React(sections, a, KeyLeft));
    FocusMoves(sections, React(sections, a, KeyTab));
    FocusMoves(sections, React(sections, React(sections, a, KeyTab), KeyTab));
  }

  /** Once a record is selected, walking the panes moves no cursor. */
  lemma WalkKeepsCursors(sections: Sections, a: AppState, key: Input)
    requires key in {KeyLeft, KeyRight, KeyTab} && (a.recordsRow > 0 || RecordCount(a) == 0)
    ensures var b := React(sections, a, key); b == a.(focus := b.focus)
  {
    hide React;
    FocusMoves(sections, a);
  }

  // ----- switches

  /** The switches flip and flip back, and touch nothing else. */
  lemma SwitchesFlip(sections: Sections, a: AppState)
    ensures React(sections, a, KeyEducation) == a.(education := !a.education)
    ensures React(sections, a, KeyDiagram) == a.(diagramOverlay := !a.diagramOverlay)
    ensures React(sections, React(sections, a, KeyEducation), KeyEducation) == a
    ensures React(sections, React(sections, a, KeyDiagram), KeyDiagram) == a
  {
  }

  /** The flow key flips the mode; it moves the row only on the way in, and then only to a ClientHello. */
  lemma FlowFlips(sections: Sections, a: AppState)
    ensures var b := React(sections, a, KeyFlow);
            b.middleMode != a.middleMode &&
            b == a.(middleMode := b.middleMode, recordsRow := b.recordsRow, sectionIndex := b.sectionIndex) &&
            (a.middleMode == Flow || ClientHelloRow(a).None? ==> b == a.(middleMode := b.middleMode))
  {
    hide FirstClientHello;
  }

  /** Clearing leaves the switches, the ticks and the count of evictions, and nothing else. */
  lemma ClearForgets(sections: Sections, a: AppState)
    ensures React(sections, a, KeyClear) ==
            NEW_APP.(middleMode := a.middleMode, education := a.education, diagramOverlay := a.diagramOverlay,
                     tickCount := a.tickCount, evicted := a.evicted)
  {
  }

  /** A tick counts, modulo the width of the counter. */
  lemma TickCounts(sections: Sections, a: AppState)
    ensures var b := React(sections, a, Tick);
            b == a.(tickCount := b.tickCount) && b.tickCount < 0x1_0000_0000_0000_0000 &&
            (a.tickCount < 0xFFFF_FFFF_FFFF_FFFF ==> b.tickCount == a.tickCount + 1)
  {
  }
}
