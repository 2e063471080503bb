/**
 Layout of the right pane: wrapping of styled lines, the rows of each section, and the scroll offset.
 */
module Layout {
  import opened Wire

  datatype Style = Plain | Styled(code: nat)

  datatype Span = Span(content: string, style: Style)

  type Line = seq<Span>

  type Cell = (char, Style)

  // ----- lines as styled characters

  function CellsOf(content: string, style: Style): (r: seq<Cell>)
    ensures |r| == |content|
  {
    seq(|content|, i requires 0 <= i < |content| => (content[i], style))
  }

  /** The characters of a line with their styles. */
  function Cells(line: Line): seq<Cell>
    decreases |line|
  {
    if line == [] then []
    else Cells(line[..|line| - 1]) + CellsOf(line[|line| - 1].content, line[|line| - 1].style)
  }

  function Text(cells: seq<Cell>): (r: string)
    ensures |r| == |cells|
  {
    seq(|cells|, i requires 0 <= i < |cells| => cells[i].0)
  }

  function LeadingSpaces(cells: seq<Cell>): (n: nat)
    ensures n <= |cells| && forall i :: 0 <= i < n ==> cells[i].0 == ' '
    ensures n < |cells| ==> cells[n].0 != ' '
    decreases |cells|
  {
    if cells == [] || cells[0].0 != ' ' then 0
    else
      assert forall i :: 1 <= i < |cells| ==> cells[i] == cells[1..][i - 1];
      var n := LeadingSpaces(cells[1..]);
      assert n < |cells[1..]| ==> cells[n + 1] == cells[1..][n];
      n + 1
  }

  /** Columns a line takes; the width of a character is that of the terminal. */
  function DisplayWidth(charWidth: char -> nat, cells: seq<Cell>): nat
    decreases |cells|
  {
    if cells == [] then 0 else DisplayWidth(charWidth, cells[..|cells| - 1]) + charWidth(cells[|cells| - 1].0)
  }

  function Spaces(n: nat): (r: string)
    ensures |r| == n
  {
    seq(n, _ => ' ')
  }

  // ----- what wrapping promises

  /** The hanging indent of continuation rows. */
  function HangingIndent(cells: seq<Cell>, width: nat): nat
    requires width > 0
  {
    if LeadingSpaces(cells) <= width - 1 then LeadingSpaces(cells) else width - 1
  }

  ghost predicate NoSpaceIn(cells: seq<Cell>, from: nat, to: nat) {
    forall k :: from <= k < to && k < |cells| ==> cells[k].0 != ' '
  }

  /**
   The place a row that starts at `p` must end: the end of the line if the rest fits, else after the last
   space that leaves at least the required content, else where the row is full.
   */
  ghost predicate EndsWell(cells: seq<Cell>, p: nat, avail: nat, least: nat, e: nat) {
    p < e <= |cells| && e <= p + avail &&
    if p + avail >= |cells| then e == |cells|
    else
      NoSpaceIn(cells, e, p + avail) &&
      ((least < e && cells[e - 1].0 == ' ') || (e == p + avail && NoSpaceIn(cells, least, e)))
  }

  /** The row shows the cells from `p` to `e`, after the indent if it is a continuation. */
  ghost predicate RowOk(cells: seq<Cell>, row: Line, first: bool, indent: nat, width: nat, p: nat, e: nat)
    requires indent < width
  {
    if first then EndsWell(cells, p, width, p + indent + 1, e) && Cells(row) == cells[p..e]
    else EndsWell(cells, p, width - indent, p + 1, e) && Cells(row) == CellsOf(Spaces(indent), Plain) + cells[p..e]
  }

  /** The line cut at `cuts` gives the rows. */
  ghost predicate WrapsAt(cells: seq<Cell>, rows: seq<Line>, indent: nat, width: nat, cuts: seq<nat>)
    requires indent < width
  {
    |cuts| == |rows| + 1 && cuts[0] == 0 &&
    forall i :: 0 <= i < |rows| ==> RowOk(cells, rows[i], i == 0, indent, width, cuts[i], cuts[i + 1])
  }

  /** The rows are the whole line, cut at good places, with the hanging indent on all rows but the first. */
  ghost predicate WrapsTo(cells: seq<Cell>, rows: seq<Line>, indent: nat, width: nat)
    requires indent < width
  {
    rows != [] && exists cuts :: WrapsAt(cells, rows, indent, width, cuts) && cuts[|rows|] == |cells|
  }

  ghost predicate Wrapped(charWidth: char -> nat, line: Line, width: nat, rows: seq<Line>) {
    if width == 0 || DisplayWidth(charWidth, Cells(line)) <= width then rows == [line]
    else WrapsTo(Cells(line), rows, HangingIndent(Cells(line), width), width)
  }

  // ----- consequences

  /** The rows joined again, the indent of continuation rows dropped. */
  function Joined(rows: seq<Line>, indent: nat): seq<Cell>
    decreases |rows|
  {
    if rows == [] then []
    else Joined(rows[..|rows| - 1], indent) + Content(rows[|rows| - 1], |rows| == 1, indent)
  }

  /** The cells of a row that come from the line. */
  function Content(row: Line, first: bool, indent: nat): seq<Cell> {
    if first || |Cells(row)| < indent then Cells(row) else Cells(row)[indent..]
  }

  lemma RowContent(cells: seq<Cell>, row: Line, first: bool, indent: nat, width: nat, p: nat, e: nat)
    requires indent < width && RowOk(cells, row, first, indent, width, p, e)
    ensures p < e <= |cells| && Content(row, first, indent) == cells[p..e] && 0 < |Cells(row)| <= width
  {
  }

  lemma {:induction false} JoinedPrefix(cells: seq<Cell>, rows: seq<Line>, indent: nat, width: nat, cuts: seq<nat>)
    requires indent < width && WrapsAt(cells, rows, indent, width, cuts)
    ensures cuts[|rows|] <= |cells| && Joined(rows, indent) == cells[..cuts[|rows|]]
    ensures forall i :: 0 <= i < |rows| ==> 0 < |Cells(rows[i])| <= width
    decreases |rows|
  {
    hide RowOk, Content, Cells;
    if rows == [] {
    } else {
      var n := |rows| - 1;
      JoinedPrefix(cells, rows[..n], indent, width, cuts[..|rows|]);
      RowContent(cells, rows[n], n == 0, indent, width, cuts[n], cuts[n + 1]);
      assert cells[..cuts[n]] + cells[cuts[n]..cuts[n + 1]] == cells[..cuts[n + 1]];
      forall i | 0 <= i < n
        ensures 0 < |Cells(rows[i])| <= width
      {
        assert rows[..n][i] == rows[i];
      }
    }
  }

  /**
   Wrapping loses nothing: dropping the indent of continuation rows and joining gives back every
   character with its style, and no wrapped row has more characters than the width.
   */
  lemma WrapIsLossless(charWidth: char -> nat, line: Line, width: nat, rows: seq<Line>)
    requires width > 0 && DisplayWidth(charWidth, Cells(line)) > width && Wrapped(charWidth, line, width, rows)
    ensures Joined(rows, HangingIndent(Cells(line), width)) == Cells(line)
    ensures forall i :: 0 <= i < |rows| ==> 0 < |Cells(rows[i])| <= width
  {
    var cells, indent := Cells(line), HangingIndent(Cells(line), width);
    var cuts :| WrapsAt(cells, rows, indent, width, cuts) && cuts[|rows|] == |cells|;
    JoinedPrefix(cells, rows, indent, width, cuts);
    assert cells[..|cells|] == cells;
  }

  /** There is one good end for a row. */
  lemma EndIsUnique(cells: seq<Cell>, p: nat, avail: nat, least: nat, e: nat, e': nat)
    requires EndsWell(cells, p, avail, least, e) && EndsWell(cells, p, avail, least, e')
    ensures e == e'
  {
  }

  lemma {:induction false} SameCuts(cells: seq<Cell>, a: seq<Line>, b: seq<Line>, indent: nat, width: nat,
                                    aCuts: seq<nat>, bCuts: seq<nat>, i: nat)
    requires indent < width && WrapsAt(cells, a, indent, width, aCuts) && WrapsAt(cells, b, indent, width, bCuts)
    requires i <= |a| && i <= |b|
    ensures aCuts[i] == bCuts[i]
    ensures forall j :: 0 <= j < i ==> Cells(a[j]) == Cells(b[j])
    decreases i
  {
    hide EndsWell, Cells, CellsOf;
    if i == 0 {
    } else {
      var k, p := i - 1, aCuts[i - 1];
      SameCuts(cells, a, b, indent, width, aCuts, bCuts, k);
      assert RowOk(cells, a[k], k == 0, indent, width, p, aCuts[i]);
      assert RowOk(cells, b[k], k == 0, indent, width, p, bCuts[i]);
      if k == 0 {
        EndIsUnique(cells, p, width, p + indent + 1, aCuts[i], bCuts[i]);
      } else {
        EndIsUnique(cells, p, width - indent, p + 1, aCuts[i], bCuts[i]);
      }
    }
  }

  /** There is one way to wrap a line, but for how the cells of a row are split into spans. */
  lemma WrapIsUnique(charWidth: char -> nat, line: Line, width: nat, a: seq<Line>, b: seq<Line>)
    requires Wrapped(charWidth, line, width, a) && Wrapped(charWidth, line, width, b)
    ensures |a| == |b| && forall i :: 0 <= i < |a| ==> Cells(a[i]) == Cells(b[i])
  {
    var cells := Cells(line);
    if width == 0 || DisplayWidth(charWidth, cells) <= width {
    } else {
      hide RowOk, Cells;
      var indent := HangingIndent(cells, width);
      var aCuts :| WrapsAt(cells, a, indent, width, aCuts) && aCuts[|a|] == |cells|;
      var bCuts :| WrapsAt(cells, b, indent, width, bCuts) && bCuts[|b|] == |cells|;
      SameCuts(cells, a, b, indent, width, aCuts, bCuts, if |a| <= |b| then |a| else |b|);
      if |a| < |b| {
        RowContent(cells, b[|a|], |a| == 0, indent, width, bCuts[|a|], bCuts[|a| + 1]);
      } else if |b| < |a| {
        RowContent(cells, a[|b|], |b| == 0, indent, width, aCuts[|b|], aCuts[|b| + 1]);
      }
    }
  }

  lemma {:induction false} UnitWidth(charWidth: char -> nat, cells: seq<Cell>)
    requires forall i :: 0 <= i < |cells| ==> charWidth(cells[i].0) == 1
    ensures DisplayWidth(charWidth, cells) == |cells|
    decreases |cells|
  {
    if cells == [] {
    } else {
      UnitWidth(charWidth, cells[..|cells| - 1]);
    }
  }

  /** Where every character takes one column, a line is left alone exactly if it has no more than fit. */
  lemma WrapOfUnitWidth(charWidth: char -> nat, line: Line, width: nat, rows: seq<Line>)
    requires width > 0 && Wrapped(charWidth, line, width, rows)
    requires forall i :: 0 <= i < |Cells(line)| ==> charWidth(Cells(line)[i].0) == 1
    ensures |Cells(line)| <= width ==> rows == [line]
    ensures |Cells(line)| > width ==> |rows| > 1
    ensures forall i :: 0 <= i < |rows| ==> |Cells(rows[i])| <= width
  {
    hide WrapsTo, Cells;
    UnitWidth(charWidth, Cells(line));
    if |Cells(line)| > width {
      WrapIsLossless(charWidth, line, width, rows);
      MoreThanOneRow(Cells(line), rows, HangingIndent(Cells(line), width), width);
    }
  }

  /**
   Continuation rows start with as many plain spaces as the line does, if that leaves a column, and go on
   with the line.
   */
  lemma ContinuationsAreIndented(charWidth: char -> nat, line: Line, width: nat, rows: seq<Line>, n: nat)
    requires width > 0 && DisplayWidth(charWidth, Cells(line)) > width && Wrapped(charWidth, line, width, rows)
    requires n <= |Cells(line)| && (forall i :: 0 <= i < n ==> Cells(line)[i].0 == ' ')
    requires n < |Cells(line)| ==> Cells(line)[n].0 != ' '
    ensures var indent := if n < width then n else width - 1;
            Joined(rows, indent) == Cells(line) &&
            forall i :: 0 < i < |rows| ==>
              indent < |Cells(rows[i])| && Cells(rows[i])[..indent] == seq(indent, _ => (' ', Plain))
  {
    var cells := Cells(line);
    LeadingIs(cells, n);
    WrapIsLossless(charWidth, line, width, rows);
    var indent := HangingIndent(cells, width);
    var cuts :| WrapsAt(cells, rows, indent, width, cuts) && cuts[|rows|] == |cells|;
    forall i | 0 < i < |rows|
      ensures indent < |Cells(rows[i])| && Cells(rows[i])[..indent] == seq(indent, _ => (' ', Plain))
    {
      assert RowOk(cells, rows[i], false, indent, width, cuts[i], cuts[i + 1]);
      assert CellsOf(Spaces(indent), Plain) == seq(indent, _ => (' ', Plain));
    }
  }

  lemma LeadingIs(cells: seq<Cell>, n: nat)
    requires n <= |cells| && (forall i :: 0 <= i < n ==> cells[i].0 == ' ') && (n < |cells| ==> cells[n].0 != ' ')
    ensures LeadingSpaces(cells) == n
  {
  }

  lemma MoreThanOneRow(cells: seq<Cell>, rows: seq<Line>, indent: nat, width: nat)
    requires indent < width < |cells| && WrapsTo(cells, rows, indent, width)
    ensures |rows| > 1
  {
    var cuts :| WrapsAt(cells, rows, indent, width, cuts) && cuts[|rows|] == |cells|;
    assert RowOk(cells, rows[0], true, indent, width, cuts[0], cuts[1]);
  }

  /** A wide character counts as its columns: a line is left alone exactly if its widths add up to no more than fit. */
  lemma WidthAddsUp(charWidth: char -> nat, cells: seq<Cell>, c: Cell)
    ensures DisplayWidth(charWidth, cells + [c]) == DisplayWidth(charWidth, cells) + charWidth(c.0)
    ensures DisplayWidth(charWidth, []) == 0
  {
    assert (cells + [c])[..|cells|] == cells;
  }

  // ----- the algorithm

  lemma CellsAppend(line: Line, span: Span)
    ensures Cells(line + [span]) == Cells(line) + CellsOf(span.content, span.style)
  {
  }

  /** One span for a stretch of cells that share a style. */
  lemma ChunkCells(cells: seq<Cell>, from: nat, to: nat, style: Style)
    requires from <= to <= |cells| && forall k :: from <= k < to ==> cells[k].1 == style
    ensures CellsOf(Text(cells[from..to]), style) == cells[from..to]
  {
  }

  /** The spans after the first `n` hold text, and no two neighbours among them share a style. */
  ghost predicate Coalesced(spans: Line, n: nat) {
    (forall i :: n <= i < |spans| ==> spans[i].content != "") &&
    (forall i :: n < i < |spans| ==> spans[i - 1].style != spans[i].style)
  }

  /** Coalesce the cells of one row into spans, after the spans of its indent. */
  method RowSpans(prefix: Line, cells: seq<Cell>, from: nat, to: nat) returns (spans: Line)
    requires from < to <= |cells|
    ensures Cells(spans) == Cells(prefix) + cells[from..to]
    ensures prefix < spans && Coalesced(spans, |prefix|)
  {
    hide Cells, CellsOf, Text;
    spans := prefix;
    var chunkStart := from;
    var curStyle := cells[from].1;
    assert cells[from..from] == [];
    for j := from + 1 to to
      invariant from <= chunkStart < j
      invariant forall k :: chunkStart <= k < j ==> cells[k].1 == curStyle
      invariant Cells(spans) == Cells(prefix) + cells[from..chunkStart]
      invariant prefix <= spans && Coalesced(spans, |prefix|)
      invariant |spans| > |prefix| ==> spans[|spans| - 1].style != curStyle
    {
      if cells[j].1 != curStyle {
        ChunkCells(cells, chunkStart, j, curStyle);
        CellsAppend(spans, Span(Text(cells[chunkStart..j]), curStyle));
        assert cells[from..chunkStart] + cells[chunkStart..j] == cells[from..j];
        spans := spans + [Span(Text(cells[chunkStart..j]), curStyle)];
        chunkStart := j;
        curStyle := cells[j].1;
      }
    }
    ChunkCells(cells, chunkStart, to, curStyle);
    CellsAppend(spans, Span(Text(cells[chunkStart..to]), curStyle));
    assert cells[from..chunkStart] + cells[chunkStart..to] == cells[from..to];
    spans := spans + [Span(Text(cells[chunkStart..to]), curStyle)];
  }

  /** The end of the row that starts at `i`: prefer to break after the last space in range. */
  method RowEnd(cells: seq<Cell>, i: nat, avail: nat, minContent: nat) returns (end: nat)
    requires i < |cells| && avail > 0 && i < minContent <= i + avail
    ensures EndsWell(cells, i, avail, minContent, end)
  {
    var hardEnd := if i + avail < |cells| then i + avail else |cells|;
    end := hardEnd;
    if end < |cells| {
      var k := end;
      while k > minContent && cells[k - 1].0 != ' '
        invariant minContent <= k <= hardEnd
        invariant NoSpaceIn(cells, k, hardEnd)
      {
        k := k - 1;
      }
      if k > minContent {
        end := k;
      }
    }
  }

  lemma IndentLine(indent: nat)
    ensures indent > 0 ==> Cells([Span(Spaces(indent), Plain)]) == CellsOf(Spaces(indent), Plain)
    ensures Cells([]) == [] && CellsOf(Spaces(0), Plain) == []
  {
  }

  lemma AddRow(cells: seq<Cell>, rows: seq<Line>, indent: nat, width: nat, cuts: seq<nat>, row: Line, e: nat)
    requires indent < width && WrapsAt(cells, rows, indent, width, cuts)
    requires RowOk(cells, row, rows == [], indent, width, cuts[|rows|], e)
    ensures WrapsAt(cells, rows + [row], indent, width, cuts + [e])
  {
  }

  method WrapLine(charWidth: char -> nat, line: Line, width: nat, out: seq<Line>) returns (r: seq<Line>)
    ensures out <= r && Wrapped(charWidth, line, width, r[|out|..])
  {
    var cells := Cells(line);
    if width == 0 || DisplayWidth(charWidth, cells) <= width {
      return out + [line];
    }
    var indent := LeadingSpaces(cells);
    if indent > width - 1 {
      indent := width - 1;
    }
    var n := |cells|;
    var i := 0;
    var isFirst := true;
    var rows := [];
    ghost var cuts := [0];
    while i < n
      invariant 0 <= i <= n && isFirst == (rows == []) && (isFirst ==> i == 0) && (i > 0 ==> rows != [])
      invariant WrapsAt(cells, rows, indent, width, cuts) && cuts[|rows|] == i
    {
      var avail := if isFirst then width else width - indent;
      assert avail > 0;
      var minContent := if isFirst then i + indent + 1 else i + 1;
      var end := RowEnd(cells, i, avail, minContent);
      IndentLine(indent);
      var prefix: Line := [];
      if !isFirst && indent > 0 {
        prefix := [Span(Spaces(indent), Plain)];
      }
      var spans := RowSpans(prefix, cells, i, end);
      assert RowOk(cells, spans, isFirst, indent, width, i, end) by {
        assert [] + cells[i..end] == cells[i..end];
      }
      AddRow(cells, rows, indent, width, cuts, spans, end);
      rows := rows + [spans];
      cuts := cuts + [end];
      i := end;
      isFirst := false;
    }
    r := out + rows;
    assert r[|out|..] == rows;
  }

  // ----- the rows of the sections

  datatype SectionSpan = SectionSpan(start: nat, len: nat)

  /** Sections follow one another with a blank row and a separator between them. */
  ghost predicate SpansOk(bounds: seq<SectionSpan>, rows: nat) {
    && (forall i :: 0 <= i < |bounds| ==> bounds[i].len >= 1)
    && (bounds != [] ==> bounds[0].start == 0)
    && (forall i :: 0 < i < |bounds| ==> bounds[i].start == bounds[i - 1].start + bounds[i - 1].len + 2)
    && (if bounds == [] then rows == 0
        else rows == bounds[|bounds| - 1].start + bounds[|bounds| - 1].len + 1)
  }

  const BLANK: Line := [Span("", Plain)]
  const NO_RECORD: Line := [Span("No record selected. Arrow through the Records pane to explore.", Plain)]
  const RULE_STYLE := Styled(1)

  function Separator(width: nat): Line {
    [Span(seq(if width > 1 then width else 1, _ => '\U{2500}'), RULE_STYLE)]
  }

  /** The rows are those of the lines of a section, each wrapped, in order. */
  ghost predicate WrappedAll(charWidth: char -> nat, section: seq<Line>, width: nat, rows: seq<Line>)
    decreases |section|
  {
    if section == [] then rows == []
    else
      var n := |section| - 1;
      exists p :: 0 <= p < |rows| && WrappedAll(charWidth, section[..n], width, rows[..p]) &&
                  Wrapped(charWidth, section[n], width, rows[p..])
  }

  lemma AddWrapped(charWidth: char -> nat, section: seq<Line>, i: nat, width: nat, rows: seq<Line>, more: seq<Line>)
    requires i < |section| && WrappedAll(charWidth, section[..i], width, rows)
    requires Wrapped(charWidth, section[i], width, more) && more != []
    ensures WrappedAll(charWidth, section[..i + 1], width, rows + more)
  {
    hide Wrapped;
    assert section[..i + 1][..i] == section[..i];
    assert (rows + more)[..|rows|] == rows && (rows + more)[|rows|..] == more;
  }

  method WrapAll(charWidth: char -> nat, section: seq<Line>, width: nat, out: seq<Line>) returns (r: seq<Line>)
    ensures out <= r && WrappedAll(charWidth, section, width, r[|out|..])
    ensures |r| >= |out| + |section|
  {
    r := out;
    for i := 0 to |section|
      invariant out <= r && |r| >= |out| + i
      invariant WrappedAll(charWidth, section[..i], width, r[|out|..])
    {
      var wrapped := WrapLine(charWidth, section[i], width, r);
      assert wrapped[|r|..] != [];
      AddWrapped(charWidth, section, i, width, r[|out|..], wrapped[|r|..]);
      assert wrapped[|out|..] == r[|out|..] + wrapped[|r|..];
      r := wrapped;
    }
    assert section[..|section|] == section;
  }

  /**
   A section lies inside the rows, after a separator unless it is the first, and before a blank row; its
   rows are those of its lines.
   */
  ghost predicate Framed(charWidth: char -> nat, lines: seq<Line>, section: seq<Line>, s: SectionSpan, first: bool,
                         width: nat)
  {
    s.start + s.len < |lines| && lines[s.start + s.len] == BLANK &&
    (!first ==> s.start > 0 && lines[s.start - 1] == Separator(width)) &&
    WrappedAll(charWidth, section, width, lines[s.start..s.start + s.len])
  }

  ghost predicate AllFramed(charWidth: char -> nat, lines: seq<Line>, sections: seq<seq<Line>>,
                            bounds: seq<SectionSpan>, width: nat)
  {
    |bounds| <= |sections| &&
    forall i :: 0 <= i < |bounds| ==> Framed(charWidth, lines, sections[i], bounds[i], i == 0, width)
  }

  lemma FramedGrows(charWidth: char -> nat, lines: seq<Line>, more: seq<Line>, sections: seq<seq<Line>>,
                    bounds: seq<SectionSpan>, width: nat)
    requires AllFramed(charWidth, lines, sections, bounds, width) && lines <= more
    ensures AllFramed(charWidth, more, sections, bounds, width)
  {
    hide WrappedAll;
    forall i | 0 <= i < |bounds|
      ensures Framed(charWidth, more, sections[i], bounds[i], i == 0, width)
    {
      var s := bounds[i];
      assert Framed(charWidth, lines, sections[i], s, i == 0, width);
      assert more[s.start..s.start + s.len] == lines[s.start..s.start + s.len];
    }
  }

  lemma AddSpan(bounds: seq<SectionSpan>, rows: nat, s: SectionSpan)
    requires SpansOk(bounds, rows) && s.len >= 1 && s.start == (if bounds == [] then 0 else rows + 1)
    ensures SpansOk(bounds + [s], s.start + s.len + 1)
  {
  }

  /** The rows of all sections, and where each one lies; every section starts with its title line. */
  method SectionsView(charWidth: char -> nat, sections: seq<seq<Line>>, width: nat)
    returns (lines: seq<Line>, bounds: seq<SectionSpan>)
    requires forall i :: 0 <= i < |sections| ==> sections[i] != []
    ensures |bounds| == |sections| && AllFramed(charWidth, lines, sections, bounds, width)
    ensures if sections == [] then lines == [NO_RECORD] else SpansOk(bounds, |lines|)
  {
    hide SpansOk, Separator, WrappedAll;
    if sections == [] {
      return [NO_RECORD], [];
    }
    lines, bounds := [], [];
    NoSpans();
    for i := 0 to |sections|
      invariant |bounds| == i && SpansOk(bounds, |lines|) && AllFramed(charWidth, lines, sections, bounds, width)
      invariant i == 0 ==> lines == []
    {
      ghost var before := lines;
      if i > 0 {
        lines := lines + [Separator(width)];
      }
      var start := |lines|;
      var wrapped := WrapAll(charWidth, sections[i], width, lines);
      var span := SectionSpan(start, |wrapped| - start);
      AddSpan(bounds, |before|, span);
      FramedGrows(charWidth, before, wrapped + [BLANK], sections, bounds, width);
      assert (wrapped + [BLANK])[start..|wrapped|] == wrapped[start..];
      assert Framed(charWidth, wrapped + [BLANK], sections[i], span, i == 0, width);
      bounds := bounds + [span];
      lines := wrapped + [BLANK];
    }
  }

  lemma NoSpans()
    ensures SpansOk([], 0)
  {
  }

  // ----- scrolling

  function SaturatingSub(a: int, b: int): nat {
    if a <= b then 0 else a - b
  }

  function AsU32(n: nat): nat {
    n % 0x1_0000_0000
  }

  const PEEK := 3

  function Max(a: nat, b: nat): nat {
    if a >= b then a else b
  }

  function Min(a: nat, b: nat): nat {
    if a <= b then a else b
  }

  function TotalRows(bounds: seq<SectionSpan>): nat {
    if bounds == [] then 0 else bounds[|bounds| - 1].start + bounds[|bounds| - 1].len
  }

  function ScrollOffset(bounds: seq<SectionSpan>, selected: nat, innerH: u16): nat {
    if bounds == [] || innerH == 0 || selected >= |bounds| then 0
    else
      var start, height := AsU32(bounds[selected].start), AsU32(bounds[selected].len);
      var maxScroll := SaturatingSub(AsU32(TotalRows(bounds)), innerH);
      var desired := if height + PEEK <= innerH then SaturatingSub(start + height + PEEK, innerH)
                     else if height <= innerH then SaturatingSub(start + height, innerH)
                     else start;
      var floored := Max(desired, SaturatingSub(start, SaturatingSub(innerH, 1)));
      Min(Min(Min(floored, maxScroll), start), 0xFFFF)
  }

  lemma {:induction false} SpansAreOrdered(bounds: seq<SectionSpan>, rows: nat, i: nat, j: nat)
    requires SpansOk(bounds, rows) && i < j < |bounds|
    ensures bounds[i].start + bounds[i].len + 2 <= bounds[j].start
    decreases j - i
  {
    if i + 1 == j {
    } else {
      SpansAreOrdered(bounds, rows, i, j - 1);
    }
  }

  /** The last row is below the selected section, by two rows at least when another section follows. */
  lemma RowsBelow(bounds: seq<SectionSpan>, rows: nat, selected: nat)
    requires SpansOk(bounds, rows) && selected < |bounds|
    ensures var s := bounds[selected];
            s.len >= 1 && s.start + s.len <= TotalRows(bounds) == rows - 1 &&
            (selected + 1 < |bounds| ==> bounds[selected + 1].start == s.start + s.len + 2 < rows - 1)
  {
    var last := |bounds| - 1;
    if selected < last {
      SpansAreOrdered(bounds, rows, selected, last);
      if selected + 1 < last {
        SpansAreOrdered(bounds, rows, selected + 1, last);
      }
    }
  }

  /** Below 65,536 rows the offset without its guards against overflow. */
  lemma OffsetOf(bounds: seq<SectionSpan>, rows: nat, selected: nat, innerH: u16)
    requires SpansOk(bounds, rows) && rows < 0x1_0000 && selected < |bounds| && innerH >= 1
    ensures var (s, offset) := (bounds[selected], ScrollOffset(bounds, selected, innerH));
            if s.len + 3 <= innerH
            then offset == Min(SaturatingSub(s.start + s.len + 3, innerH), SaturatingSub(rows - 1, innerH))
            else if s.len <= innerH then offset == SaturatingSub(s.start + s.len, innerH)
            else offset == s.start
  {
    RowsBelow(bounds, rows, selected);
    AsU32Small(bounds[selected].start);
    AsU32Small(bounds[selected].len);
    AsU32Small(TotalRows(bounds));
    hide SpansOk, TotalRows, AsU32;
  }

  lemma AsU32Small(n: nat)
    requires n < 0x1_0000
    ensures AsU32(n) == n
  {
  }

  /**
   Scrolling never goes past the last row, shows all of the selected section when it fits, with the first
   row of the next one when there is room for that, and otherwise puts its first row on top.
   */
  lemma SelectionVisible(bounds: seq<SectionSpan>, rows: nat, selected: nat, innerH: u16)
    requires SpansOk(bounds, rows) && rows < 0x1_0000 && selected < |bounds| && innerH >= 1
    ensures var offset := ScrollOffset(bounds, selected, innerH);
            var s := bounds[selected];
            offset <= SaturatingSub(rows - 1, innerH) &&
            (if s.len <= innerH then offset <= s.start && s.start + s.len <= offset + innerH else offset == s.start) &&
            (s.len + 3 <= innerH && selected + 1 < |bounds| ==> bounds[selected + 1].start < offset + innerH)
  {
    RowsBelow(bounds, rows, selected);
    OffsetOf(bounds, rows, selected, innerH);
    hide SpansOk, TotalRows, ScrollOffset;
  }

  /**
   Of the offsets that show a section that fits, with three rows beyond it when there is room and as many are
   left, the code takes the least.
   */
  lemma ScrollIsLeast(bounds: seq<SectionSpan>, rows: nat, selected: nat, innerH: u16)
    requires SpansOk(bounds, rows) && rows < 0x1_0000 && selected < |bounds| && bounds[selected].len <= innerH
    ensures var (s, offset) := (bounds[selected], ScrollOffset(bounds, selected, innerH));
            var shown := if s.len + 3 > innerH then s.start + s.len else Min(s.start + s.len + 3, rows - 1);
            shown <= offset + innerH && (offset > 0 ==> offset - 1 + innerH < shown)
  {
    RowsBelow(bounds, rows, selected);
    OffsetOf(bounds, rows, selected, innerH);
    hide SpansOk, TotalRows, ScrollOffset;
  }

  /** Without a selected section, or without room, the pane is not scrolled. */
  lemma NothingScrolls(bounds: seq<SectionSpan>, selected: nat, innerH: u16)
    requires selected >= |bounds| || innerH == 0
    ensures ScrollOffset(bounds, selected, innerH) == 0
  {
  }

  /** The separator is a rule across the pane, one column at least; a blank row is empty. */
  lemma SeparatorFills(width: nat)
    ensures |Cells(Separator(width))| == (if width == 0 then 1 else width) && Cells(BLANK) == []
    ensures forall i :: 0 <= i < |Cells(Separator(width))| ==> Cells(Separator(width))[i].0 == '\U{2500}'
  {
    var line := Separator(width);
    assert line[..0] == [] && BLANK[..0] == [];
    assert Cells(line) == [] + CellsOf(line[0].content, line[0].style);
  }
}
