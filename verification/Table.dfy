/** The CLI's table layout: elastic tab stops, and colours that do not disturb it. */
module Table {
  import opened Lifecycle

  datatype Color = Plain | Green | Yellow | Red
  datatype Segment = Segment(text: string, color: Color)
  type Cell = seq<Segment>
  type Row = seq<Cell>

  const ESC: char := 27 as char
  const RESET := [ESC] + "[0m"

  function Code(color: Color): string {
    match color
    case Plain => ""
    case Green => [ESC] + "[32m"
    case Yellow => [ESC] + "[33m"
    case Red => [ESC] + "[31m"
  }

  function RenderSegment(s: Segment, enabled: bool): string {
    if !enabled || s.color == Plain || s.text == "" then s.text else Code(s.color) + s.text + RESET
  }

  function RenderCell(cell: Cell, enabled: bool): string {
    if cell == [] then "" else RenderCell(cell[..|cell| - 1], enabled) + RenderSegment(cell[|cell| - 1], enabled)
  }

  /** The width of a cell is that of its text without colours. */
  function Width(cell: Cell): nat { |RenderCell(cell, false)| }

  function Max(a: int, b: int): int { if a < b then b else a }

  /** Row `r` has the aligned column `c`: the last cell of a row is not aligned. */
  predicate Has(rows: seq<Row>, r: int, c: nat) { 0 <= r < |rows| && |rows[r]| > c + 1 }

  /** The widest cell of the column in the rows from `r` down, as long as they have the column. */
  function Below(rows: seq<Row>, r: nat, c: nat): nat
    decreases |rows| - r
  {
    if !Has(rows, r, c) then 0 else Max(Width(rows[r][c]), Below(rows, r + 1, c))
  }

  function Above(rows: seq<Row>, r: int, c: nat): nat
    decreases r + 1
  {
    if !Has(rows, r, c) then 0 else Max(Width(rows[r][c]), Above(rows, r - 1, c))
  }

  /** The width of column `c` in row `r`: the widest of the contiguous rows around it that have it. */
  function ColumnWidth(rows: seq<Row>, r: nat, c: nat): nat { Max(Above(rows, r, c), Below(rows, r, c)) }

  lemma NeighboursAlign(rows: seq<Row>, r: nat, c: nat)
    requires Has(rows, r, c) && Has(rows, r + 1, c)
    ensures ColumnWidth(rows, r, c) == ColumnWidth(rows, r + 1, c)
  {
    assert Below(rows, r, c) == Max(Width(rows[r][c]), Below(rows, r + 1, c));
    assert Above(rows, r + 1, c) == Max(Width(rows[r + 1][c]), Above(rows, r, c));
  }

  function Spaces(n: nat): string { if n == 0 then "" else Spaces(n - 1) + " " }

  lemma {:induction false} SpacesLength(n: nat)
    ensures |Spaces(n)| == n && forall i :: 0 <= i < n ==> Spaces(n)[i] == ' '
  {
    if n > 0 { SpacesLength(n - 1); }
  }

  /** How many blanks follow an aligned cell. */
  function Padding(rows: seq<Row>, r: nat, c: nat): int
    requires Has(rows, r, c)
  {
    ColumnWidth(rows, r, c) - Width(rows[r][c]) + 2
  }

  lemma PaddingAtLeastTwo(rows: seq<Row>, r: nat, c: nat)
    requires Has(rows, r, c)
    ensures Padding(rows, r, c) >= 2
  {
  }

  /** The blanks after a cell: none after the last. */
  function Blanks(rows: seq<Row>, r: nat, c: nat): string {
    if Has(rows, r, c) then Spaces(ColumnWidth(rows, r, c) + 2 - Width(rows[r][c])) else ""
  }

  /** The first `n` cells of a row, with the blanks between them. */
  function RenderCells(rows: seq<Row>, r: nat, n: nat, enabled: bool): string
    requires r < |rows| && n <= |rows[r]|
  {
    if n == 0 then ""
    else
      var c := n - 1;
      RenderCells(rows, r, c, enabled) + RenderCell(rows[r][c], enabled) + Blanks(rows, r, c)
  }

  function RenderRows(rows: seq<Row>, n: nat, enabled: bool): string
    requires n <= |rows|
  {
    if n == 0 then "" else RenderRows(rows, n - 1, enabled) + RenderCells(rows, n - 1, |rows[n - 1]|, enabled) + "\n"
  }

  /** Where the cell after column `c` starts in row `r`. */
  function Start(rows: seq<Row>, r: nat, c: nat): int
    requires Has(rows, r, c)
  {
    |RenderCells(rows, r, c + 1, false)|
  }

  /** The start of a cell depends on the column widths alone. */
  lemma {:induction false} StartIsSum(rows: seq<Row>, r: nat, c: nat)
    requires Has(rows, r, c)
    ensures Start(rows, r, c) == (if c == 0 then 0 else Start(rows, r, c - 1)) + ColumnWidth(rows, r, c) + 2
  {
    PaddingAtLeastTwo(rows, r, c);
    hide ColumnWidth;
    var pad := ColumnWidth(rows, r, c) + 2 - Width(rows[r][c]);
    SpacesLength(pad);
    hide Spaces, RenderCell;
    assert RenderCells(rows, r, c + 1, false)
        == RenderCells(rows, r, c, false) + RenderCell(rows[r][c], false) + Spaces(pad);
    assert c == 0 ==> RenderCells(rows, r, c, false) == "";
  }

  /** ELASTIC TAB STOPS. In adjacent rows that share a column the following cell starts at the same
      offset. */
  lemma {:induction false} CellsAlign(rows: seq<Row>, r: nat, c: nat)
    requires Has(rows, r, c) && Has(rows, r + 1, c)
    ensures Start(rows, r, c) == Start(rows, r + 1, c)
  {
    hide Start, ColumnWidth, RenderCells;
    StartIsSum(rows, r, c);
    StartIsSum(rows, r + 1, c);
    NeighboursAlign(rows, r, c);
    if c > 0 { CellsAlign(rows, r, c - 1); }
  }

  /** What follows the first `m`, the end of a colour code. */
  function AfterCode(s: string): (r: string)
    ensures |r| <= |s| && (s != "" ==> |r| < |s|)
  {
    if s == "" then "" else if s[0] == 'm' then s[1..] else AfterCode(s[1..])
  }

  /** A text without its colour codes. */
  function Strip(s: string): string
    decreases |s|
  {
    if s == "" then "" else if s[0] == ESC then Strip(AfterCode(s)) else [s[0]] + Strip(s[1..])
  }

  /** Every code that starts in the text also ends in it. */
  predicate Complete(s: string)
    decreases |s|
  {
    s == "" || (if s[0] == ESC then 'm' in s && Complete(AfterCode(s)) else Complete(s[1..]))
  }

  lemma {:induction false} AfterCodeAppend(x: string, y: string)
    requires 'm' in x
    ensures AfterCode(x + y) == AfterCode(x) + y
  {
    if x[0] != 'm' {
      AfterCodeAppend(x[1..], y);
      assert (x + y)[1..] == x[1..] + y;
    } else {
      assert (x + y)[1..] == x[1..] + y;
    }
  }

  lemma StripNext(s: string)
    requires s != ""
    ensures
      if s[0] == ESC then (Complete(s) <==> 'm' in s && Complete(AfterCode(s))) && Strip(s) == Strip(AfterCode(s))
      else Complete(s) == Complete(s[1..]) && Strip(s) == [s[0]] + Strip(s[1..])
  {
  }

  lemma StripNone()
    ensures Strip("") == ""
  {
  }

  lemma {:induction false} StripAppend(x: string, y: string)
    requires Complete(x) && Complete(y)
    ensures Complete(x + y) && Strip(x + y) == Strip(x) + Strip(y)
    decreases |x|
  {
    hide Strip, Complete, AfterCode;
    if x == "" {
      StripNone();
      assert x + y == y;
    } else {
      StripNext(x);
      StripNext(x + y);
      if x[0] == ESC {
        AfterCodeAppend(x, y);
        StripAppend(AfterCode(x), y);
      } else {
        assert (x + y)[1..] == x[1..] + y;
        StripAppend(x[1..], y);
      }
    }
  }

  lemma {:induction false} StripText(s: string)
    requires ESC !in s
    ensures Complete(s) && Strip(s) == s
  {
    if s != "" {
      assert s[0] in s;
      StripText(s[1..]);
      assert s == [s[0]] + s[1..];
    }
  }

  lemma StripCode(s: string)
    requires |s| > 0 && s[0] == ESC && 'm' in s && AfterCode(s) == ""
    ensures Complete(s) && Strip(s) == ""
  {
  }

  lemma CodesStrip(color: Color)
    requires color != Plain
    ensures Complete(Code(color)) && Strip(Code(color)) == "" && Complete(RESET) && Strip(RESET) == ""
  {
    var digit := match color case Green => '2' case Yellow => '3' case _ => '1';
    CodeEnds([ESC, '[', '3', digit]);
    assert Code(color) == [ESC, '[', '3', digit] + "m";
    CodeEnds([ESC, '[', '0']);
    assert RESET == [ESC, '[', '0'] + "m";
    StripCode(Code(color));
    StripCode(RESET);
  }

  lemma {:induction false} CodeEnds(s: string)
    requires 'm' !in s
    ensures 'm' in s + "m" && AfterCode(s + "m") == ""
  {
    assert (s + "m")[|s|] == 'm';
    if s != "" {
      assert s[0] in s;
      assert (s + "m")[1..] == s[1..] + "m";
      CodeEnds(s[1..]);
    }
  }

  ghost predicate NoEscapes(cell: Cell) { forall s :: s in cell ==> ESC !in s.text }

  lemma SegmentStrips(s: Segment)
    requires ESC !in s.text
    ensures Complete(RenderSegment(s, true)) && Strip(RenderSegment(s, true)) == s.text
  {
    StripText(s.text);
    if s.color != Plain && s.text != "" {
      CodesStrip(s.color);
      hide Code, Strip, Complete;
      StripAppend(Code(s.color), s.text);
      StripAppend(Code(s.color) + s.text, RESET);
      assert "" + s.text + "" == s.text;
    }
  }

  lemma {:induction false} CellStrips(cell: Cell)
    requires NoEscapes(cell)
    ensures Complete(RenderCell(cell, true)) && Strip(RenderCell(cell, true)) == RenderCell(cell, false)
  {
    if cell != [] {
      var n := |cell| - 1;
      assert cell[n] in cell;
      CellStrips(cell[..n]);
      SegmentStrips(cell[n]);
      StripAppend(RenderCell(cell[..n], true), RenderSegment(cell[n], true));
    }
  }

  lemma BlanksStrip(n: nat)
    ensures Complete(Spaces(n)) && Strip(Spaces(n)) == Spaces(n)
  {
    SpacesLength(n);
    StripText(Spaces(n));
  }

  lemma BlanksStripped(rows: seq<Row>, r: nat, c: nat)
    ensures Complete(Blanks(rows, r, c)) && Strip(Blanks(rows, r, c)) == Blanks(rows, r, c)
  {
    hide Strip, Complete;
    if Has(rows, r, c) {
      BlanksStrip(ColumnWidth(rows, r, c) + 2 - Width(rows[r][c]));
    } else {
      BlanksStrip(0);
      assert Spaces(0) == "";
    }
  }

  lemma {:induction false} CellsStrip(rows: seq<Row>, r: nat, n: nat)
    requires r < |rows| && n <= |rows[r]| && forall cell :: cell in rows[r] ==> NoEscapes(cell)
    ensures Complete(RenderCells(rows, r, n, true))
    ensures Strip(RenderCells(rows, r, n, true)) == RenderCells(rows, r, n, false)
  {
    hide NoEscapes, Blanks, RenderCell;
    if n > 0 {
      hide Strip, Complete;
      var c := n - 1;
      CellsStrip(rows, r, c);
      CellStrips(rows[r][c]);
      BlanksStripped(rows, r, c);
      StripAppend(RenderCells(rows, r, c, true), RenderCell(rows[r][c], true));
      StripAppend(RenderCells(rows, r, c, true) + RenderCell(rows[r][c], true), Blanks(rows, r, c));
    }
  }

  /** COLOURS. Removing the colour codes from a coloured block gives the plain block, when no cell contains
      an escape itself. */
  lemma {:induction false} RowsStrip(rows: seq<Row>, n: nat)
    requires n <= |rows| && forall r, cell :: 0 <= r < n && cell in rows[r] ==> NoEscapes(cell)
    ensures Complete(RenderRows(rows, n, true)) && Strip(RenderRows(rows, n, true)) == RenderRows(rows, n, false)
  {
    hide NoEscapes, RenderCells;
    if n > 0 {
      hide Strip, Complete;
      RowsStrip(rows, n - 1);
      CellsStrip(rows, n - 1, |rows[n - 1]|);
      StripText("\n");
      var before, row := RenderRows(rows, n - 1, true), RenderCells(rows, n - 1, |rows[n - 1]|, true);
      StripAppend(before, row);
      StripAppend(before + row, "\n");
    }
  }

  function Columns(row: Row): nat { if |row| > 0 then |row| - 1 else 0 }

  type Widths = seq<seq<int>>

  predicate Shaped(rows: seq<Row>, w: Widths) {
    |w| == |rows| && forall r :: 0 <= r < |rows| ==> |w[r]| == Columns(rows[r])
  }

  /** The widths of column `c` are set in the rows before `r`. */
  ghost predicate Filled(rows: seq<Row>, w: Widths, c: nat, r: nat)
    requires Shaped(rows, w) && r <= |rows|
  {
    forall i :: 0 <= i < r && Has(rows, i, c) ==> w[i][c] == ColumnWidth(rows, i, c)
  }

  ghost predicate OthersSame(rows: seq<Row>, w: Widths, before: Widths, c: nat)
    requires Shaped(rows, w) && Shaped(rows, before)
  {
    forall r, k :: 0 <= r < |rows| && 0 <= k < Columns(rows[r]) && k != c ==> w[r][k] == before[r][k]
  }

  /** The widest cell of one contiguous run of rows that have the column. */
  method MeasureRun(rows: seq<Row>, c: nat, start: nat) returns (end: nat, width: nat)
    requires Has(rows, start, c)
    ensures start < end <= |rows| && !Has(rows, end, c)
    ensures forall i :: start <= i < end ==> Has(rows, i, c)
    ensures width == Below(rows, start, c)
  {
    end, width := start, 0;
    while end < |rows| && |rows[end]| > c + 1
      invariant start <= end <= |rows|
      invariant forall i :: start <= i < end ==> Has(rows, i, c)
      invariant Below(rows, start, c) == Max(width, Below(rows, end, c))
    {
      width := Max(width, Width(rows[end][c]));
      end := end + 1;
    }
  }

  lemma {:induction false} RunIsOneWidth(rows: seq<Row>, c: nat, start: nat, r: nat)
    requires start <= r && !Has(rows, start - 1, c) && forall i :: start <= i <= r ==> Has(rows, i, c)
    ensures ColumnWidth(rows, r, c) == Below(rows, start, c)
    decreases r
  {
    if r > start {
      RunIsOneWidth(rows, c, start, r - 1);
      NeighboursAlign(rows, r - 1, c);
    } else {
      assert Above(rows, r - 1, c) == 0;
    }
  }

  /** One pass of the loop over the columns. */
  method FillColumn(rows: seq<Row>, c: nat, before: Widths) returns (w: Widths)
    requires Shaped(rows, before)
    ensures Shaped(rows, w) && Filled(rows, w, c, |rows|) && OthersSame(rows, w, before, c)
  {
    hide Below, ColumnWidth;
    w := before;
    var start := 0;
    while start < |rows|
      invariant 0 <= start <= |rows| && Shaped(rows, w)
      invariant Filled(rows, w, c, start) && OthersSame(rows, w, before, c)
      invariant start == 0 || start == |rows| || !Has(rows, start - 1, c) || !Has(rows, start, c)
    {
      if |rows[start]| <= c + 1 {
        start := start + 1;
        continue;
      }
      var end, width := MeasureRun(rows, c, start);
      for r := start to end
        invariant Shaped(rows, w) && Filled(rows, w, c, r) && OthersSame(rows, w, before, c)
      {
        assert Has(rows, r, c);
        RunIsOneWidth(rows, c, start, r);
        w := w[r := w[r][c := width]];
      }
      start := end;
    }
  }

  /** The column loop of `writeTableBlock`. */
  method FillWidths(rows: seq<Row>) returns (w: Widths)
    ensures Shaped(rows, w) && forall r, c: nat :: Has(rows, r, c) ==> w[r][c] == ColumnWidth(rows, r, c)
  {
    hide ColumnWidth;
    w := [];
    var columns := 0;
    for r := 0 to |rows|
      invariant |w| == r && forall i :: 0 <= i < r ==> |w[i]| == Columns(rows[i])
      invariant columns >= 0 && forall i :: 0 <= i < r ==> Columns(rows[i]) <= columns
    {
      w := w + [seq(Columns(rows[r]), _ => 0)];
      columns := Max(columns, |rows[r]| - 1);
    }
    for c := 0 to columns
      invariant Shaped(rows, w) && forall k :: 0 <= k < c ==> Filled(rows, w, k, |rows|)
    {
      var before := w;
      w := FillColumn(rows, c, before);
      forall k | 0 <= k < c ensures Filled(rows, w, k, |rows|) {
        assert Filled(rows, before, k, |rows|);
      }
    }
    forall r, c: nat | Has(rows, r, c) ensures w[r][c] == ColumnWidth(rows, r, c) {
      assert c < Columns(rows[r]) <= columns;
      assert Filled(rows, w, c, |rows|);
    }
  }

  /** `writeTableBlock` */
  method WriteTableBlock(rows: seq<Row>, enabled: bool) returns (out: string)
    ensures out == RenderRows(rows, |rows|, enabled)
  {
    var w := FillWidths(rows);
    out := "";
    for r := 0 to |rows|
      invariant out == RenderRows(rows, r, enabled)
    {
      var line := WriteRow(rows, r, w[r], enabled);
      out := out + line + "\n";
    }
  }

  method WriteRow(rows: seq<Row>, r: nat, widths: seq<int>, enabled: bool) returns (out: string)
    requires r < |rows| && |widths| == Columns(rows[r])
    requires forall c: nat :: Has(rows, r, c) ==> widths[c] == ColumnWidth(rows, r, c)
    ensures out == RenderCells(rows, r, |rows[r]|, enabled)
  {
    hide ColumnWidth, RenderCell;
    out := "";
    for c := 0 to |rows[r]|
      invariant out == RenderCells(rows, r, c, enabled)
    {
      var cell := rows[r][c];
      var blanks := "";
      if c < |rows[r]| - 1 {
        assert Has(rows, r, c);
        PaddingAtLeastTwo(rows, r, c);
        blanks := Spaces(widths[c] - Width(cell) + 2);
      }
      out := out + RenderCell(cell, enabled) + blanks;
    }
  }

  /** The rows of one block: those up to the next blank line. */
  function Block(rows: seq<Option<Row>>): seq<Row> {
    if rows == [] || rows[0].None? then [] else [rows[0].value] + Block(rows[1..])
  }

  lemma {:induction false} BlockFits(rows: seq<Option<Row>>)
    ensures |Block(rows)| <= |rows| && (rows != [] && rows[0].Some? ==> |Block(rows)| > 0)
  {
    if rows != [] && rows[0].Some? { BlockFits(rows[1..]); }
  }

  /** A table: its blocks in turn, and a line for each blank row between them. */
  function RenderTable(rows: seq<Option<Row>>, enabled: bool): string
    decreases |rows|
  {
    if rows == [] then ""
    else if rows[0].None? then "\n" + RenderTable(rows[1..], enabled)
    else
      BlockFits(rows);
      var block := Block(rows);
      RenderRows(block, |block|, enabled) + RenderTable(rows[|block|..], enabled)
  }

  method WriteTable(rows: seq<Option<Row>>, enabled: bool) returns (out: string)
    ensures out == RenderTable(rows, enabled)
  {
    hide RenderRows, RenderTable, Block;
    out := "";
    var start := 0;
    ghost var rest := rows;
    while start < |rows|
      invariant 0 <= start <= |rows| && rest == rows[start..]
      invariant out + RenderTable(rest, enabled) == RenderTable(rows, enabled)
    {
      TableStep(rest, enabled);
      if rows[start].None? {
        Regroup(out, "\n", RenderTable(rest[1..], enabled));
        out := out + "\n";
        start := start + 1;
        rest := rest[1..];
      } else {
        var block := CutBlock(rows[start..]);
        var text := WriteTableBlock(block, enabled);
        Regroup(out, text, RenderTable(rest[|block|..], enabled));
        out := out + text;
        start := start + |block|;
        rest := rest[|block|..];
      }
    }
    NoRows(enabled);
  }

  lemma Regroup(a: string, b: string, c: string)
    ensures a + b + c == a + (b + c)
  {
  }

  lemma NoRows(enabled: bool)
    ensures RenderTable([], enabled) == ""
  {
  }

  lemma TableStep(rows: seq<Option<Row>>, enabled: bool)
    requires rows != []
    ensures rows[0].None? ==> RenderTable(rows, enabled) == "\n" + RenderTable(rows[1..], enabled)
    ensures |Block(rows)| <= |rows| && (rows[0].Some? ==> |Block(rows)| > 0)
    ensures
      var n := |Block(rows)|;
      rows[0].Some? ==>
        RenderTable(rows, enabled) == RenderRows(Block(rows), n, enabled) + RenderTable(rows[n..], enabled)
  {
    BlockFits(rows);
    hide RenderRows, Block;
  }

  method CutBlock(rows: seq<Option<Row>>) returns (block: seq<Row>)
    ensures block == Block(rows)
  {
    block := [];
    var end := 0;
    assert rows[0..] == rows;
    while end < |rows| && rows[end].Some?
      invariant 0 <= end <= |rows| && block + Block(rows[end..]) == Block(rows)
    {
      assert rows[end..][1..] == rows[end + 1..];
      block := block + [rows[end].value];
      end := end + 1;
    }
  }

  /** The same for whole tables. */
  lemma {:induction false} TableStrips(rows: seq<Option<Row>>)
    requires forall row, cell :: row in rows && row.Some? && cell in row.value ==> NoEscapes(cell)
    ensures Complete(RenderTable(rows, true)) && Strip(RenderTable(rows, true)) == RenderTable(rows, false)
    decreases |rows|
  {
    hide NoEscapes, RenderRows;
    if rows != [] {
      hide Strip, Complete;
      if rows[0].None? {
        StripText("\n");
        TableStrips(rows[1..]);
        StripAppend("\n", RenderTable(rows[1..], true));
      } else {
        var block := Block(rows);
        BlockFits(rows);
        BlockRows(rows);
        RowsStrip(block, |block|);
        TableStrips(rows[|block|..]);
        StripAppend(RenderRows(block, |block|, true), RenderTable(rows[|block|..], true));
      }
    }
  }

  lemma {:induction false} BlockRows(rows: seq<Option<Row>>)
    ensures forall r :: 0 <= r < |Block(rows)| ==> Some(Block(rows)[r]) in rows
  {
    if rows != [] && rows[0].Some? { BlockRows(rows[1..]); }
  }
}
