/** Reading the terminal grid as plain lines and as styled runs. */
module StyledRuns {
  import opened Wrappers
  import opened Text

  datatype CellStyle = CellStyle(
    fg: Option<string>, bg: Option<string>,
    bold: bool, italic: bool, underline: bool, strikeout: bool, dim: bool, inverse: bool)

  /** A grid cell: its character, combining characters, whether it is the spacer of a wide
      character, and its style. */
  datatype Cell = Cell(c: char, zeroWidth: string, spacer: bool, style: CellStyle)

  datatype Run = Run(text: string, style: CellStyle)

  /** Row and column of the cursor, counted from 1. */
  datatype Cursor = Cursor(row: nat, col: nat)

  datatype Range = Range(start: nat, end: nat)

  datatype ScreenOpts = ScreenOpts(
    rows: Option<Range>, cols: Option<Range>, cursorChar: Option<char>, includeEmpty: bool)

  /** Line or column `i`, counted from 0, is asked for: ranges count from 1 and include their end. */
  predicate Wanted(range: Option<Range>, i: nat) {
    range.None? || range.value.start <= i + 1 <= range.value.end
  }

  function ResolveRange(range: Option<Range>, max: nat): (r: (nat, nat))
    ensures r.0 <= max && r.1 <= max
    ensures forall i: nat :: r.0 <= i < r.1 <==> i < max && Wanted(range, i)
  {
    match range
    case Some(Range(start, end)) => (Min(if start > 0 then start - 1 else 0, max), Min(end, max))
    case None => (0, max)
  }

  // ---------------------------------------------------------------- what a row shows

  type Painted = seq<(char, CellStyle)>

  function Paint(text: string, style: CellStyle): Painted {
    if text == [] then [] else Paint(text[..|text| - 1], style) + [(text[|text| - 1], style)]
  }

  function Chars(p: Painted): string {
    if p == [] then [] else Chars(p[..|p| - 1]) + [p[|p| - 1].0]
  }

  function Shown(cell: Cell, line: nat, col: nat, cursor: Cursor, opts: ScreenOpts): char {
    if cursor.row == line && cursor.col == col + 1 && opts.cursorChar.Some? then opts.cursorChar.value
    else cell.c
  }

  /** Characters and styles of the cells `from..upto` of a row, spacers left out. */
  function PaintRow(row: seq<Cell>, from: nat, upto: nat, line: nat, cursor: Cursor, opts: ScreenOpts): Painted
    requires upto <= |row|
    decreases upto
  {
    if upto <= from then []
    else
      var cell := row[upto - 1];
      var before := PaintRow(row, from, upto - 1, line, cursor, opts);
      if cell.spacer then before
      else before + Paint([Shown(cell, line, upto - 1, cursor, opts)] + cell.zeroWidth, cell.style)
  }

  // ---------------------------------------------------------------- runs

  function Expand(runs: seq<Run>): Painted {
    if runs == [] then [] else Expand(runs[..|runs| - 1]) + Paint(runs[|runs| - 1].text, runs[|runs| - 1].style)
  }

  /** Runs are not empty and neighbours differ in style. */
  ghost predicate Coalesced(runs: seq<Run>) {
    && (forall i :: 0 <= i < |runs| ==> runs[i].text != [])
    && forall i :: 0 <= i < |runs| - 1 ==> runs[i].style != runs[i + 1].style
  }

  function AddText(runs: seq<Run>, text: string, style: CellStyle): seq<Run> {
    var n := |runs| - 1;
    if runs != [] && runs[n].style == style then runs[..n] + [Run(runs[n].text + text, style)]
    else runs + [Run(text, style)]
  }

  function Coalesce(p: Painted): seq<Run> {
    if p == [] then [] else AddText(Coalesce(p[..|p| - 1]), [p[|p| - 1].0], p[|p| - 1].1)
  }

  predicate Droppable(r: Run) {
    Trim(RustSpace, r.text) == "" && r.style.fg.None? && r.style.bg.None? && !r.style.bold
  }

  /** Runs without their trailing blank runs of default colours and weight. */
  function TrimRuns(runs: seq<Run>): seq<Run> {
    if runs != [] && Droppable(runs[|runs| - 1]) then TrimRuns(runs[..|runs| - 1]) else runs
  }

  /** `all` is the finished runs and the run being collected. */
  ghost predicate Pending(runs: seq<Run>, text: string, style: Option<CellStyle>, all: seq<Run>) {
    match style
    case None => runs == [] && text == [] && all == []
    case Some(st) => text != [] && all == runs + [Run(text, st)]
  }

  /** Add one cell: flush the run being collected if the style changes, then collect. */
  method AddCell(
      runs: seq<Run>, currentText: string, currentStyle: Option<CellStyle>,
      ch: char, zeroWidth: string, style: CellStyle, ghost all: seq<Run>)
    returns (runs': seq<Run>, text: string, style': Option<CellStyle>)
    requires Pending(runs, currentText, currentStyle, all)
    ensures Pending(runs', text, style', AddText(all, [ch] + zeroWidth, style))
  {
    runs', text, style' := runs, currentText, currentStyle;
    if currentStyle.Some? {
      assert all[..|runs|] == runs;
      if currentStyle.value != style {
        if text != [] {
          runs' := runs + [Run(text, currentStyle.value)];
          text := [];
        }
        style' := Some(style);
      }
    } else {
      style' := Some(style);
    }
    ghost var kept := text;
    text := text + [ch];
    text := text + zeroWidth;
    assert text == kept + ([ch] + zeroWidth);
    assert kept == [] ==> text == [ch] + zeroWidth;
  }

  lemma NoCells(row: seq<Cell>, from: nat, upto: nat, line: nat, cursor: Cursor, opts: ScreenOpts)
    requires upto <= |row|
    ensures upto <= from ==> Coalesce(PaintRow(row, from, upto, line, cursor, opts)) == []
  {
  }

  method CollectRuns(
      row: seq<Cell>, colStart: nat, colEnd: nat, line: nat, cursor: Cursor, opts: ScreenOpts)
    returns (runs: seq<Run>)
    requires colEnd <= |row|
    ensures runs == Coalesce(PaintRow(row, colStart, colEnd, line, cursor, opts))
  {
    hide Coalesce, AddText, Paint, PaintRow, Shown;
    NoCells(row, colStart, colEnd, line, cursor, opts);
    NoCells(row, colStart, Min(colStart, colEnd), line, cursor, opts);
    runs := [];
    var currentText: string := [];
    var currentStyle: Option<CellStyle> := None;
    ghost var all: seq<Run> := [];
    var col := colStart;
    while col < colEnd
      invariant Pending(runs, currentText, currentStyle, all)
      invariant all == Coalesce(PaintRow(row, colStart, Min(col, colEnd), line, cursor, opts))
      invariant col >= colStart && (col > colEnd ==> col == colStart)
    {
      hide Pending;
      CoalesceNextCell(row, colStart, col, line, cursor, opts);
      var cell := row[col];
      if cell.spacer {
        col := col + 1;
        continue;
      }
      var ch := Shown(cell, line, col, cursor, opts);
      runs, currentText, currentStyle :=
        AddCell(runs, currentText, currentStyle, ch, cell.zeroWidth, cell.style, all);
      all := AddText(all, [ch] + cell.zeroWidth, cell.style);
      col := col + 1;
    }
    if currentText != [] && currentStyle.Some? {
      runs := runs + [Run(currentText, currentStyle.value)];
    }
  }

  method ExtractStyledLine(
      row: seq<Cell>, colStart: nat, colEnd: nat, line: nat, cursor: Cursor, opts: ScreenOpts)
    returns (runs: seq<Run>)
    requires colEnd <= |row|
    ensures runs == StyledRow(row, colStart, colEnd, line, cursor, opts)
  {
    runs := CollectRuns(row, colStart, colEnd, line, cursor, opts);
    ghost var all := runs;
    while runs != [] && Droppable(runs[|runs| - 1])
      invariant TrimRuns(runs) == TrimRuns(all)
      decreases |runs|
    {
      runs := runs[..|runs| - 1];
    }
  }

  function StyledRow(row: seq<Cell>, from: nat, upto: nat, line: nat, cursor: Cursor, opts: ScreenOpts): seq<Run>
    requires upto <= |row|
  {
    TrimRuns(Coalesce(PaintRow(row, from, upto, line, cursor, opts)))
  }

  lemma AddTextTwice(runs: seq<Run>, a: string, b: string, style: CellStyle)
    ensures AddText(AddText(runs, a, style), b, style) == AddText(runs, a + b, style)
  {
    var once := AddText(runs, a, style);
    var n := |runs| - 1;
    if runs != [] && runs[n].style == style {
      assert runs[n].text + a + b == runs[n].text + (a + b);
      assert once[..n] == runs[..n];
    } else {
      assert once[..|runs|] == runs;
    }
  }

  lemma {:induction false} CoalesceExtends(p: Painted, text: string, style: CellStyle)
    requires text != []
    ensures Coalesce(p + Paint(text, style)) == AddText(Coalesce(p), text, style)
    decreases |text|
  {
    var n := |text| - 1;
    var front := text[..n];
    var q := p + Paint(front, style);
    assert p + Paint(text, style) == q + [(text[n], style)];
    assert (q + [(text[n], style)])[..|q|] == q;
    assert Coalesce(p + Paint(text, style)) == AddText(Coalesce(q), [text[n]], style);
    assert text == front + [text[n]];
    if n == 0 {
      assert q == p;
    } else {
      CoalesceExtends(p, front, style);
      AddTextTwice(Coalesce(p), front, [text[n]], style);
    }
  }

  lemma CoalesceNextCell(row: seq<Cell>, from: nat, col: nat, line: nat, cursor: Cursor, opts: ScreenOpts)
    requires from <= col < |row|
    ensures
      var before := Coalesce(PaintRow(row, from, col, line, cursor, opts));
      Coalesce(PaintRow(row, from, col + 1, line, cursor, opts))
      == if row[col].spacer then before
         else AddText(before, [Shown(row[col], line, col, cursor, opts)] + row[col].zeroWidth, row[col].style)
  {
    hide Coalesce, AddText, Paint;
    var cell := row[col];
    CoalesceExtends(PaintRow(row, from, col, line, cursor, opts),
                    [Shown(cell, line, col, cursor, opts)] + cell.zeroWidth, cell.style);
  }

  // ---------------------------------------------------------------- coalescing loses nothing

  lemma {:induction false} PaintConcat(a: string, b: string, style: CellStyle)
    ensures Paint(a + b, style) == Paint(a, style) + Paint(b, style)
    decreases |b|
  {
    if b == [] {
      assert a + b == a;
    } else {
      assert (a + b)[..|a| + |b| - 1] == a + b[..|b| - 1];
      PaintConcat(a, b[..|b| - 1], style);
    }
  }

  lemma ExpandAddText(runs: seq<Run>, text: string, style: CellStyle)
    ensures Expand(AddText(runs, text, style)) == Expand(runs) + Paint(text, style)
  {
    hide Paint;
    var n := |runs| - 1;
    var after := AddText(runs, text, style);
    if runs != [] && runs[n].style == style {
      PaintConcat(runs[n].text, text, style);
      assert after[..n] == runs[..n];
    } else {
      assert after[..|runs|] == runs;
    }
  }

  lemma AddTextCoalesced(runs: seq<Run>, text: string, style: CellStyle)
    requires Coalesced(runs) && text != []
    ensures Coalesced(AddText(runs, text, style))
  {
  }

  /** Coalescing is lossless and yields non-empty runs with differing neighbours. */
  lemma {:induction false} CoalesceLossless(p: Painted)
    ensures Expand(Coalesce(p)) == p && Coalesced(Coalesce(p))
  {
    if p != [] {
      hide AddText, Coalesced;
      var n := |p| - 1;
      CoalesceLossless(p[..n]);
      ExpandAddText(Coalesce(p[..n]), [p[n].0], p[n].1);
      AddTextCoalesced(Coalesce(p[..n]), [p[n].0], p[n].1);
      assert Paint([p[n].0], p[n].1) == [p[n]];
      assert p == p[..n] + [p[n]];
    }
  }

  /** There is no other way to write the same cells as runs of that kind. */
  lemma {:induction false} CoalesceUnique(runs: seq<Run>)
    requires Coalesced(runs)
    ensures Coalesce(Expand(runs)) == runs
  {
    if runs != [] {
      var n := |runs| - 1;
      var front := runs[..n];
      CoalesceUnique(front);
      CoalesceExtends(Expand(front), runs[n].text, runs[n].style);
      assert n > 0 ==> runs[n - 1].style != runs[n - 1 + 1].style;
    }
  }

  function TextOf(runs: seq<Run>): string {
    if runs == [] then [] else TextOf(runs[..|runs| - 1]) + runs[|runs| - 1].text
  }

  lemma {:induction false} CharsOfPaint(p: Painted, text: string, style: CellStyle)
    ensures Chars(p + Paint(text, style)) == Chars(p) + text
    decreases |text|
  {
    if text == [] {
      assert p + Paint(text, style) == p;
    } else {
      var n := |text| - 1;
      CharsOfPaint(p, text[..n], style);
      var q := p + Paint(text[..n], style);
      assert p + Paint(text, style) == q + [(text[n], style)];
      assert (q + [(text[n], style)])[..|q|] == q;
    }
  }

  lemma {:induction false} TextOfExpands(runs: seq<Run>)
    ensures TextOf(runs) == Chars(Expand(runs))
  {
    if runs != [] {
      TextOfExpands(runs[..|runs| - 1]);
      CharsOfPaint(Expand(runs[..|runs| - 1]), runs[|runs| - 1].text, runs[|runs| - 1].style);
    }
  }

  /** A run that trimming may cut off: only white space, in default colours and not bold. Other
      attributes, underlining among them, do not keep it. */
  predicate Invisible(r: Run) {
    (forall i :: 0 <= i < |r.text| ==> RustSpace(r.text[i]))
    && r.style.fg == None && r.style.bg == None && r.style.bold == false
  }

  lemma InvisibleDrops(r: Run)
    ensures Droppable(r) <==> Invisible(r)
  {
    TrimOfBlank(RustSpace, r.text);
  }

  /** Trimming cuts off runs that may go and stops at the first one that must stay. */
  lemma {:induction false} TrimRunsCuts(runs: seq<Run>)
    ensures TrimRuns(runs) <= runs
    ensures forall i :: |TrimRuns(runs)| <= i < |runs| ==> Invisible(runs[i])
    ensures TrimRuns(runs) != [] ==> !Invisible(TrimRuns(runs)[|TrimRuns(runs)| - 1])
  {
    hide Droppable, Invisible;
    if runs != [] {
      InvisibleDrops(runs[|runs| - 1]);
      if Droppable(runs[|runs| - 1]) {
        TrimRunsCuts(runs[..|runs| - 1]);
      }
    }
  }

  /** What is cut off shows only white space. */
  lemma {:induction false} TrimRunsText(runs: seq<Run>)
    ensures TrimEnd(RustSpace, TextOf(TrimRuns(runs))) == TrimEnd(RustSpace, TextOf(runs))
  {
    if runs != [] && Droppable(runs[|runs| - 1]) {
      var last := runs[|runs| - 1];
      TrimRunsText(runs[..|runs| - 1]);
      TrimOfBlank(RustSpace, last.text);
      TrimEndIgnoresBlank(RustSpace, TextOf(runs[..|runs| - 1]), last.text);
    }
  }

  // ---------------------------------------------------------------- plain lines

  /** The characters `screen_content` puts on a line: the cursor character replaces a whole cell. */
  function PlainRow(row: seq<Cell>, from: nat, upto: nat, line: nat, cursor: Cursor, opts: ScreenOpts): string
    requires upto <= |row|
    decreases upto
  {
    if upto <= from then []
    else
      var cell := row[upto - 1];
      var before := PlainRow(row, from, upto - 1, line, cursor, opts);
      if cell.spacer then before
      else if cursor.row == line && cursor.col == upto && opts.cursorChar.Some? then
        before + [opts.cursorChar.value]
      else before + [cell.c] + cell.zeroWidth
  }

  /** The cursor character replaces a cell with combining characters, which only the styled
      reader still shows. */
  predicate MarksDropped(row: seq<Cell>, from: nat, upto: nat, line: nat, cursor: Cursor, opts: ScreenOpts)
    : (dropped: bool)
    requires upto <= |row|
    ensures dropped ==> 0 < cursor.col <= upto && Marks(row, cursor) != ""
  {
    && opts.cursorChar.Some?
    && cursor.row == line
    && from < cursor.col <= upto
    && !row[cursor.col - 1].spacer
    && row[cursor.col - 1].zeroWidth != []
  }

  /** Both readers show the same characters on a line exactly when no marks are dropped. */
  lemma {:induction false} PlainIsPaintedIff(
      row: seq<Cell>, from: nat, upto: nat, line: nat, cursor: Cursor, opts: ScreenOpts)
    requires upto <= |row|
    ensures
      var plain := PlainRow(row, from, upto, line, cursor, opts);
      var painted := Chars(PaintRow(row, from, upto, line, cursor, opts));
      && (plain == painted <==> !MarksDropped(row, from, upto, line, cursor, opts))
      && (plain != painted ==> |plain| < |painted|)
    decreases upto
  {
    if from < upto && !row[upto - 1].spacer {
      var cell := row[upto - 1];
      var before := PaintRow(row, from, upto - 1, line, cursor, opts);
      var shown := Shown(cell, line, upto - 1, cursor, opts);
      PlainIsPaintedIff(row, from, upto - 1, line, cursor, opts);
      CharsOfPaint(before, [shown] + cell.zeroWidth, cell.style);
      assert Chars(before) + [shown] + cell.zeroWidth == Chars(before) + ([shown] + cell.zeroWidth);
    } else if from < upto {
      PlainIsPaintedIff(row, from, upto - 1, line, cursor, opts);
    }
  }

  lemma {:induction false} PlainSplits(
      row: seq<Cell>, from: nat, mid: nat, upto: nat, line: nat, cursor: Cursor, opts: ScreenOpts)
    requires from <= mid <= upto <= |row|
    ensures PlainRow(row, from, upto, line, cursor, opts)
         == PlainRow(row, from, mid, line, cursor, opts) + PlainRow(row, mid, upto, line, cursor, opts)
    decreases upto
  {
    if mid < upto {
      PlainSplits(row, from, mid, upto - 1, line, cursor, opts);
    }
  }

  lemma {:induction false} PaintSplits(
      row: seq<Cell>, from: nat, mid: nat, upto: nat, line: nat, cursor: Cursor, opts: ScreenOpts)
    requires from <= mid <= upto <= |row|
    ensures PaintRow(row, from, upto, line, cursor, opts)
         == PaintRow(row, from, mid, line, cursor, opts) + PaintRow(row, mid, upto, line, cursor, opts)
    decreases upto
  {
    hide Paint, Shown;
    if mid < upto {
      PaintSplits(row, from, mid, upto - 1, line, cursor, opts);
    }
  }

  lemma {:induction false} CharsConcat(p: Painted, q: Painted)
    ensures Chars(p + q) == Chars(p) + Chars(q)
    decreases |q|
  {
    if q == [] {
      assert p + q == p;
    } else {
      assert (p + q)[..|p| + |q| - 1] == p + q[..|q| - 1];
      CharsConcat(p, q[..|q| - 1]);
    }
  }

  /** What one cell adds to a line, for each reader: a spacer nothing; any other cell its character, or
      the cursor character in its place, and its combining characters, which a plain cell under the
      cursor character loses. All of it is painted in the style of the cell. */
  lemma OneCell(row: seq<Cell>, i: nat, line: nat, cursor: Cursor, opts: ScreenOpts)
    requires i < |row|
    ensures
      var plain := PlainRow(row, i, i + 1, line, cursor, opts);
      var painted := PaintRow(row, i, i + 1, line, cursor, opts);
      var covered := cursor == Cursor(line, i + 1) && opts.cursorChar.Some?;
      && (row[i].spacer ==> plain == [] && painted == [])
      && (!row[i].spacer && covered ==>
            plain == [opts.cursorChar.value] && Chars(painted) == [opts.cursorChar.value] + row[i].zeroWidth)
      && (!row[i].spacer && !covered ==>
            plain == [row[i].c] + row[i].zeroWidth && Chars(painted) == [row[i].c] + row[i].zeroWidth)
      && forall k :: 0 <= k < |painted| ==> painted[k].1 == row[i].style
  {
    assert PlainRow(row, i, i, line, cursor, opts) == [] && PaintRow(row, i, i, line, cursor, opts) == [];
    var text := [Shown(row[i], line, i, cursor, opts)] + row[i].zeroWidth;
    CharsOfPaint([], text, row[i].style);
    assert [] + Paint(text, row[i].style) == Paint(text, row[i].style);
    PaintStyles(text, row[i].style);
  }

  lemma {:induction false} PaintStyles(text: string, style: CellStyle)
    ensures forall k :: 0 <= k < |Paint(text, style)| ==> Paint(text, style)[k].1 == style
  {
    if text != [] {
      PaintStyles(text[..|text| - 1], style);
    }
  }

  /** The combining characters of the cell under the cursor. */
  function Marks(row: seq<Cell>, cursor: Cursor): string
    requires 0 < cursor.col <= |row|
  {
    row[cursor.col - 1].zeroWidth
  }

  /** The dropped marks would show: they, or something right of the cursor, are not white space. */
  predicate MarksShow(row: seq<Cell>, from: nat, upto: nat, line: nat, cursor: Cursor, opts: ScreenOpts)
    requires upto <= |row|
  {
    && MarksDropped(row, from, upto, line, cursor, opts)
    && !(Blank(RustSpace, Marks(row, cursor))
         && Blank(RustSpace, PlainRow(row, cursor.col, upto, line, cursor, opts)))
  }

  /** What the two readers put around the marks they differ in. */
  lemma DroppedMarks(row: seq<Cell>, from: nat, upto: nat, line: nat, cursor: Cursor, opts: ScreenOpts)
    returns (left: string)
    requires upto <= |row| && MarksDropped(row, from, upto, line, cursor, opts)
    ensures
      var right := PlainRow(row, cursor.col, upto, line, cursor, opts);
      && PlainRow(row, from, upto, line, cursor, opts) == left + right
      && Chars(PaintRow(row, from, upto, line, cursor, opts)) == left + Marks(row, cursor) + right
  {
    var k := cursor.col;
    var cell, ch := row[k - 1], opts.cursorChar.value;
    left := PlainRow(row, from, k, line, cursor, opts);
    assert left == PlainRow(row, from, k - 1, line, cursor, opts) + [ch];
    PlainSplits(row, from, k, upto, line, cursor, opts);
    PaintSplits(row, from, k, upto, line, cursor, opts);
    CharsConcat(PaintRow(row, from, k, line, cursor, opts), PaintRow(row, k, upto, line, cursor, opts));
    PlainIsPaintedIff(row, k, upto, line, cursor, opts);
    PlainIsPaintedIff(row, from, k - 1, line, cursor, opts);
    CharsOfPaint(PaintRow(row, from, k - 1, line, cursor, opts), [ch] + cell.zeroWidth, cell.style);
    assert left + cell.zeroWidth == PlainRow(row, from, k - 1, line, cursor, opts) + ([ch] + cell.zeroWidth);
  }

  /** One line read both ways: the runs' text and the plain text agree, once trailing white space
      is trimmed, exactly unless the cursor character drops marks that would show. */
  lemma LineAgrees(row: seq<Cell>, from: nat, upto: nat, line: nat, cursor: Cursor, opts: ScreenOpts)
    requires upto <= |row|
    ensures
      var text := TextOf(StyledRow(row, from, upto, line, cursor, opts));
      && (TrimEnd(RustSpace, text) == TrimEnd(RustSpace, PlainRow(row, from, upto, line, cursor, opts))
          <==> !MarksShow(row, from, upto, line, cursor, opts))
      && (MarksShow(row, from, upto, line, cursor, opts) ==> !Blank(RustSpace, text))
  {
    hide StyledRow, TextOf, PaintRow, PlainRow, Chars, TrimEnd, Blank, MarksDropped;
    StyledText(row, from, upto, line, cursor, opts);
    PlainIsPaintedIff(row, from, upto, line, cursor, opts);
    if MarksDropped(row, from, upto, line, cursor, opts) {
      var left := DroppedMarks(row, from, upto, line, cursor, opts);
      InsertedShowsIff(RustSpace, left, Marks(row, cursor), PlainRow(row, cursor.col, upto, line, cursor, opts));
    }
  }

  /** The text of a styled row is what the row shows, up to white space at the end. */
  lemma StyledText(row: seq<Cell>, from: nat, upto: nat, line: nat, cursor: Cursor, opts: ScreenOpts)
    requires upto <= |row|
    ensures
      var text := TextOf(StyledRow(row, from, upto, line, cursor, opts));
      var shown := Chars(PaintRow(row, from, upto, line, cursor, opts));
      && TrimEnd(RustSpace, text) == TrimEnd(RustSpace, shown)
      && (Blank(RustSpace, text) <==> Blank(RustSpace, shown))
  {
    hide TextOf, PaintRow, Chars, TrimEnd, Blank, Coalesce, Expand, TrimRuns;
    var p := PaintRow(row, from, upto, line, cursor, opts);
    CoalesceLossless(p);
    TextOfExpands(Coalesce(p));
    TrimRunsText(Coalesce(p));
    TrimEndOfBlank(RustSpace, TextOf(TrimRuns(Coalesce(p))));
    TrimEndOfBlank(RustSpace, Chars(p));
  }

  lemma AccentShows()
    ensures !Blank(RustSpace, "\U{301}")
  {
    assert "\U{301}"[0] == '\U{301}';
    assert !RustSpace("\U{301}"[0]);
  }

  /** A row of one cell, an accented `a`, with the cursor on it. */
  lemma CursorHidesMark(style: CellStyle)
    ensures
      var row := [Cell('a', "\U{301}", false, style)];
      var opts := ScreenOpts(None, None, Some('#'), false);
      && PlainRow(row, 0, 1, 1, Cursor(1, 1), opts) == "#"
      && Chars(PaintRow(row, 0, 1, 1, Cursor(1, 1), opts)) == "#\U{301}"
      && MarksShow(row, 0, 1, 1, Cursor(1, 1), opts)
  {
    hide RustSpace, Blank;
    var row := [Cell('a', "\U{301}", false, style)];
    var opts := ScreenOpts(None, None, Some('#'), false);
    assert PlainRow(row, 0, 0, 1, Cursor(1, 1), opts) == [];
    assert PaintRow(row, 0, 0, 1, Cursor(1, 1), opts) == [];
    CharsOfPaint([], "#\U{301}", style);
    assert [] + Paint("#\U{301}", style) == Paint("#\U{301}", style);
    assert ['#'] + "\U{301}" == "#\U{301}" && [] + "#\U{301}" == "#\U{301}";
    AccentShows();
  }

  // ---------------------------------------------------------------- whole screens

  type Grid = seq<seq<Cell>>

  ghost predicate Rectangular(grid: Grid, cols: nat) {
    forall i :: 0 <= i < |grid| ==> |grid[i]| == cols
  }

  function RawLines(grid: Grid, from: nat, upto: nat, cs: (nat, nat), cursor: Cursor, opts: ScreenOpts): seq<string>
    requires upto <= |grid| && forall i :: 0 <= i < |grid| ==> cs.1 <= |grid[i]|
    decreases upto
  {
    if upto <= from then []
    else
      RawLines(grid, from, upto - 1, cs, cursor, opts)
      + [PlainRow(grid[upto - 1], cs.0, cs.1, upto, cursor, opts)]
  }

  function DropBlankLines(lines: seq<string>): seq<string> {
    if lines != [] && Trim(RustSpace, lines[|lines| - 1]) == "" then DropBlankLines(lines[..|lines| - 1]) else lines
  }

  function TrimLines(lines: seq<string>): seq<string> {
    if lines == [] then []
    else TrimLines(lines[..|lines| - 1]) + [TrimEnd(RustSpace, lines[|lines| - 1])]
  }

  function PlainLines(grid: Grid, cols: nat, cursor: Cursor, opts: ScreenOpts): seq<string>
    requires forall i :: 0 <= i < |grid| ==> |grid[i]| == cols
  {
    var rs, cs := ResolveRange(opts.rows, |grid|), ResolveRange(opts.cols, cols);
    var raw := RawLines(grid, rs.0, rs.1, cs, cursor, opts);
    TrimLines(if opts.includeEmpty then raw else DropBlankLines(raw))
  }

  method ReadPlainRow(
      row: seq<Cell>, colStart: nat, colEnd: nat, line: nat, cursor: Cursor, opts: ScreenOpts)
    returns (text: string)
    requires colEnd <= |row|
    ensures text == PlainRow(row, colStart, colEnd, line, cursor, opts)
  {
    text := [];
    var colIdx := colStart;
    while colIdx < colEnd
      invariant colIdx <= colEnd || colIdx == colStart
      invariant text == if colIdx == colStart then [] else PlainRow(row, colStart, colIdx, line, cursor, opts)
    {
      var cell := row[colIdx];
      if !cell.spacer {
        if cursor.row == line && cursor.col == colIdx + 1 && opts.cursorChar.Some? {
          text := text + [opts.cursorChar.value];
        } else {
          text := text + [cell.c];
          text := text + cell.zeroWidth;
        }
      }
      colIdx := colIdx + 1;
    }
  }

  method ScreenContent(grid: Grid, cols: nat, cursor: Cursor, opts: ScreenOpts) returns (lines: seq<string>)
    requires Rectangular(grid, cols)
    ensures lines == PlainLines(grid, cols, cursor, opts)
  {
    hide TrimLines;
    var rs := ResolveRange(opts.rows, |grid|);
    var cs := ResolveRange(opts.cols, cols);
    lines := [];
    var lineIdx := rs.0;
    while lineIdx < rs.1
      invariant lineIdx <= rs.1 || lineIdx == rs.0
      invariant lines == if lineIdx == rs.0 then [] else RawLines(grid, rs.0, lineIdx, cs, cursor, opts)
    {
      hide PlainRow;
      var text := ReadPlainRow(grid[lineIdx], cs.0, cs.1, lineIdx + 1, cursor, opts);
      lines := lines + [text];
      lineIdx := lineIdx + 1;
    }
    ghost var raw := RawLines(grid, rs.0, rs.1, cs, cursor, opts);
    if !opts.includeEmpty {
      while lines != [] && Trim(RustSpace, lines[|lines| - 1]) == ""
        invariant DropBlankLines(lines) == DropBlankLines(raw)
        decreases |lines|
      {
        lines := lines[..|lines| - 1];
      }
    }
    lines := RightTrim(lines);
  }

  method RightTrim(lines: seq<string>) returns (trimmed: seq<string>)
    ensures trimmed == TrimLines(lines)
  {
    trimmed := lines;
    for i := 0 to |lines|
      invariant |trimmed| == |lines|
      invariant forall j :: 0 <= j < |lines| ==>
        trimmed[j] == if j < i then TrimEnd(RustSpace, lines[j]) else lines[j]
    {
      trimmed := trimmed[i := TrimEnd(RustSpace, trimmed[i])];
    }
    TrimLinesIndex(lines);
  }

  function RawStyled(grid: Grid, from: nat, upto: nat, cs: (nat, nat), cursor: Cursor, opts: ScreenOpts): seq<seq<Run>>
    requires upto <= |grid| && forall i :: 0 <= i < |grid| ==> cs.1 <= |grid[i]|
    decreases upto
  {
    if upto <= from then []
    else
      RawStyled(grid, from, upto - 1, cs, cursor, opts)
      + [StyledRow(grid[upto - 1], cs.0, cs.1, upto, cursor, opts)]
  }

  function DropEmptyRows(lines: seq<seq<Run>>): seq<seq<Run>> {
    if lines != [] && lines[|lines| - 1] == [] then DropEmptyRows(lines[..|lines| - 1]) else lines
  }

  function StyledLines(grid: Grid, cols: nat, cursor: Cursor, opts: ScreenOpts): seq<seq<Run>>
    requires forall i :: 0 <= i < |grid| ==> |grid[i]| == cols
  {
    var rs, cs := ResolveRange(opts.rows, |grid|), ResolveRange(opts.cols, cols);
    var raw := RawStyled(grid, rs.0, rs.1, cs, cursor, opts);
    if opts.includeEmpty then raw else DropEmptyRows(raw)
  }

  method ScreenStyled(grid: Grid, cols: nat, cursor: Cursor, opts: ScreenOpts) returns (lines: seq<seq<Run>>)
    requires Rectangular(grid, cols)
    ensures lines == StyledLines(grid, cols, cursor, opts)
  {
    hide StyledRow;
    var rs := ResolveRange(opts.rows, |grid|);
    var cs := ResolveRange(opts.cols, cols);
    lines := [];
    var lineIdx := rs.0;
    while lineIdx < rs.1
      invariant lineIdx <= rs.1 || lineIdx == rs.0
      invariant lines == if lineIdx == rs.0 then [] else RawStyled(grid, rs.0, lineIdx, cs, cursor, opts)
    {
      var runs := ExtractStyledLine(grid[lineIdx], cs.0, cs.1, lineIdx + 1, cursor, opts);
      lines := lines + [runs];
      lineIdx := lineIdx + 1;
    }
    ghost var raw := RawStyled(grid, rs.0, rs.1, cs, cursor, opts);
    if !opts.includeEmpty {
      while lines != [] && lines[|lines| - 1] == []
        invariant DropEmptyRows(lines) == DropEmptyRows(raw)
        decreases |lines|
      {
        lines := lines[..|lines| - 1];
      }
    }
  }

  /** What `LineAgrees` says of a line, its runs, and whether dropped marks would show. */
  ghost predicate ReadAlike(text: string, runs: seq<Run>, marksShow: bool) {
    && (TrimEnd(RustSpace, TextOf(runs)) == TrimEnd(RustSpace, text) <==> !marksShow)
    && (marksShow ==> !Blank(RustSpace, TextOf(runs)))
  }

  lemma {:induction false} RawAgree(
      grid: Grid, from: nat, upto: nat, cs: (nat, nat), cursor: Cursor, opts: ScreenOpts)
    requires upto <= |grid| && forall i :: 0 <= i < |grid| ==> cs.1 <= |grid[i]|
    ensures
      var plain := RawLines(grid, from, upto, cs, cursor, opts);
      var styled := RawStyled(grid, from, upto, cs, cursor, opts);
      && |plain| == |styled| == (if from < upto then upto - from else 0)
      && forall i :: 0 <= i < |plain| ==>
           ReadAlike(plain[i], styled[i], MarksShow(grid[from + i], cs.0, cs.1, from + i + 1, cursor, opts))
    decreases upto
  {
    hide StyledRow, PlainRow, MarksShow, TrimEnd, TextOf, Blank;
    if from < upto {
      RawAgree(grid, from, upto - 1, cs, cursor, opts);
      LineAgrees(grid[upto - 1], cs.0, cs.1, upto, cursor, opts);
      hide ReadAlike;
    }
  }

  lemma {:induction false} DroppedLines(lines: seq<string>)
    ensures DropBlankLines(lines) <= lines
    ensures forall i :: |DropBlankLines(lines)| <= i < |lines| ==> Blank(RustSpace, lines[i])
    ensures DropBlankLines(lines) != [] ==>
      !Blank(RustSpace, DropBlankLines(lines)[|DropBlankLines(lines)| - 1])
  {
    if lines != [] {
      TrimOfBlank(RustSpace, lines[|lines| - 1]);
      if Trim(RustSpace, lines[|lines| - 1]) == "" {
        DroppedLines(lines[..|lines| - 1]);
      }
    }
  }

  lemma {:induction false} DroppedRows(lines: seq<seq<Run>>)
    ensures DropEmptyRows(lines) <= lines
    ensures forall i :: |DropEmptyRows(lines)| <= i < |lines| ==> lines[i] == []
    ensures DropEmptyRows(lines) != [] ==> DropEmptyRows(lines)[|DropEmptyRows(lines)| - 1] != []
  {
    if lines != [] && lines[|lines| - 1] == [] {
      DroppedRows(lines[..|lines| - 1]);
    }
  }

  lemma {:induction false} TrimLinesIndex(lines: seq<string>)
    ensures |TrimLines(lines)| == |lines|
    ensures forall i :: 0 <= i < |lines| ==> TrimLines(lines)[i] == TrimEnd(RustSpace, lines[i])
  {
    if lines != [] {
      TrimLinesIndex(lines[..|lines| - 1]);
    }
  }

  lemma {:induction false} RawRows(
      grid: Grid, from: nat, upto: nat, cs: (nat, nat), cursor: Cursor, opts: ScreenOpts)
    requires upto <= |grid| && forall i :: 0 <= i < |grid| ==> cs.1 <= |grid[i]|
    ensures
      var plain := RawLines(grid, from, upto, cs, cursor, opts);
      var styled := RawStyled(grid, from, upto, cs, cursor, opts);
      && |plain| == |styled| == (if from < upto then upto - from else 0)
      && (forall r :: from <= r < upto ==> plain[r - from] == PlainRow(grid[r], cs.0, cs.1, r + 1, cursor, opts))
      && (forall r :: from <= r < upto ==> styled[r - from] == StyledRow(grid[r], cs.0, cs.1, r + 1, cursor, opts))
    decreases upto
  {
    hide StyledRow, PlainRow;
    if from < upto {
      RawRows(grid, from, upto - 1, cs, cursor, opts);
    }
  }

  lemma KeptLines(raw: seq<string>, includeEmpty: bool)
    ensures
      var lines := TrimLines(if includeEmpty then raw else DropBlankLines(raw));
      && |lines| <= |raw|
      && (forall i :: 0 <= i < |lines| ==> lines[i] == TrimEnd(RustSpace, raw[i]))
      && (if includeEmpty then |lines| == |raw| else lines == [] || lines[|lines| - 1] != "")
      && (forall i :: |lines| <= i < |raw| ==> Blank(RustSpace, raw[i]))
  {
    var kept := if includeEmpty then raw else DropBlankLines(raw);
    DroppedLines(raw);
    TrimLinesIndex(kept);
    if kept != [] {
      TrimEndOfBlank(RustSpace, kept[|kept| - 1]);
    }
    hide TrimLines, DropBlankLines, TrimEnd, Blank;
  }

  /** The plain screen: the wanted rows in order, each trimmed at the end; without `includeEmpty`, less
      the blank rows below the last one that is not. */
  lemma PlainLinesAre(grid: Grid, cols: nat, cursor: Cursor, opts: ScreenOpts)
    requires Rectangular(grid, cols)
    ensures
      var rs, cs := ResolveRange(opts.rows, |grid|), ResolveRange(opts.cols, cols);
      var lines := PlainLines(grid, cols, cursor, opts);
      && (lines != [] ==> rs.0 + |lines| <= rs.1)
      && (forall r :: rs.0 <= r < rs.0 + |lines| ==>
            lines[r - rs.0] == TrimEnd(RustSpace, PlainRow(grid[r], cs.0, cs.1, r + 1, cursor, opts)))
      && (opts.includeEmpty && rs.0 < rs.1 ==> rs.0 + |lines| == rs.1)
      && (!opts.includeEmpty && lines != [] ==> lines[|lines| - 1] != "")
      && (forall r :: rs.0 + |lines| <= r < rs.1 ==>
            Blank(RustSpace, PlainRow(grid[r], cs.0, cs.1, r + 1, cursor, opts)))
  {
    hide RawLines, RawStyled, TrimEnd, Trim, DropBlankLines, TrimLines, Blank, PlainRow, StyledRow;
    var rs, cs := ResolveRange(opts.rows, |grid|), ResolveRange(opts.cols, cols);
    var raw := RawLines(grid, rs.0, rs.1, cs, cursor, opts);
    RawRows(grid, rs.0, rs.1, cs, cursor, opts);
    var lines := PlainLines(grid, cols, cursor, opts);
    KeptLines(raw, opts.includeEmpty);
    assert lines == TrimLines(if opts.includeEmpty then raw else DropBlankLines(raw));
    hide PlainLines;
    forall r | rs.0 <= r < rs.0 + |lines|
      ensures lines[r - rs.0] == TrimEnd(RustSpace, PlainRow(grid[r], cs.0, cs.1, r + 1, cursor, opts))
    {
      assert lines[r - rs.0] == TrimEnd(RustSpace, raw[r - rs.0]);
    }
    forall r | rs.0 + |lines| <= r < rs.1
      ensures Blank(RustSpace, PlainRow(grid[r], cs.0, cs.1, r + 1, cursor, opts))
    {
      assert Blank(RustSpace, raw[r - rs.0]);
    }
  }

  /** The styled screen: the wanted rows in order, each its trimmed runs; without `includeEmpty`, less
      the empty rows at the end. */
  lemma StyledLinesAre(grid: Grid, cols: nat, cursor: Cursor, opts: ScreenOpts)
    requires Rectangular(grid, cols)
    ensures
      var rs, cs := ResolveRange(opts.rows, |grid|), ResolveRange(opts.cols, cols);
      var lines := StyledLines(grid, cols, cursor, opts);
      && (lines != [] ==> rs.0 + |lines| <= rs.1)
      && (forall r :: rs.0 <= r < rs.0 + |lines| ==>
            lines[r - rs.0] == TrimRuns(Coalesce(PaintRow(grid[r], cs.0, cs.1, r + 1, cursor, opts))))
      && (opts.includeEmpty && rs.0 < rs.1 ==> rs.0 + |lines| == rs.1)
      && (!opts.includeEmpty && lines != [] ==> lines[|lines| - 1] != [])
      && (forall r :: rs.0 + |lines| <= r < rs.1 ==>
            TrimRuns(Coalesce(PaintRow(grid[r], cs.0, cs.1, r + 1, cursor, opts))) == [])
  {
    hide RawStyled, DropEmptyRows, TrimRuns, Coalesce, PaintRow;
    var rs, cs := ResolveRange(opts.rows, |grid|), ResolveRange(opts.cols, cols);
    var raw := RawStyled(grid, rs.0, rs.1, cs, cursor, opts);
    RawRows(grid, rs.0, rs.1, cs, cursor, opts);
    DroppedRows(raw);
    var lines := StyledLines(grid, cols, cursor, opts);
    assert lines == if opts.includeEmpty then raw else DropEmptyRows(raw);
    hide StyledLines;
    forall r | rs.0 + |lines| <= r < rs.1
      ensures TrimRuns(Coalesce(PaintRow(grid[r], cs.0, cs.1, r + 1, cursor, opts))) == []
    {
      assert raw[r - rs.0] == [];
    }
  }

  /** Every plain line is the right-trimmed text of the styled line in its place, and any styled
      line beyond the last plain one shows only white space. */
  ghost predicate SameScreen(plain: seq<string>, styled: seq<seq<Run>>) {
    && |plain| <= |styled|
    && (forall i :: 0 <= i < |plain| ==> plain[i] == TrimEnd(RustSpace, TextOf(styled[i])))
    && (forall i :: |plain| <= i < |styled| ==> Blank(RustSpace, TextOf(styled[i])))
  }

  /** The styled screen holds the plain screen exactly when on no row asked for the cursor character
      drops marks that would show; in particular when no cursor character is asked for. */
  lemma ScreensAgree(grid: Grid, cols: nat, cursor: Cursor, opts: ScreenOpts)
    requires Rectangular(grid, cols)
    ensures
      var rs, cs := ResolveRange(opts.rows, |grid|), ResolveRange(opts.cols, cols);
      SameScreen(PlainLines(grid, cols, cursor, opts), StyledLines(grid, cols, cursor, opts))
      <==> forall i :: rs.0 <= i < rs.1 ==> !MarksShow(grid[i], cs.0, cs.1, i + 1, cursor, opts)
  {
    hide RawLines, RawStyled, TextOf, TrimEnd, Blank, PlainLines, StyledLines, MarksShow, SameScreen, Cut;
    var rs, cs := ResolveRange(opts.rows, |grid|), ResolveRange(opts.cols, cols);
    var rawPlain := RawLines(grid, rs.0, rs.1, cs, cursor, opts);
    var rawStyled := RawStyled(grid, rs.0, rs.1, cs, cursor, opts);
    var plain, styled := PlainLines(grid, cols, cursor, opts), StyledLines(grid, cols, cursor, opts);
    RawAgree(grid, rs.0, rs.1, cs, cursor, opts);
    LinesAreCut(grid, cols, cursor, opts);
    if forall i :: rs.0 <= i < rs.1 ==> !MarksShow(grid[i], cs.0, cs.1, i + 1, cursor, opts) {
      SameWhenNoneShow(rawPlain, rawStyled, plain, styled);
    } else {
      var i :| rs.0 <= i < rs.1 && MarksShow(grid[i], cs.0, cs.1, i + 1, cursor, opts);
      assert grid[rs.0 + (i - rs.0)] == grid[i];
      ShownMarkDiffers(rawPlain, rawStyled, plain, styled, i - rs.0);
    }
  }

  /** `plain` and `styled` are the raw lines and rows less a suffix of blank ones, trimmed. */
  ghost predicate Cut(rawPlain: seq<string>, rawStyled: seq<seq<Run>>, plain: seq<string>, styled: seq<seq<Run>>) {
    && |plain| <= |rawPlain| == |rawStyled|
    && (forall i :: 0 <= i < |plain| ==> plain[i] == TrimEnd(RustSpace, rawPlain[i]))
    && (forall i :: |plain| <= i < |rawPlain| ==> Blank(RustSpace, rawPlain[i]))
    && styled <= rawStyled
    && (forall i :: |styled| <= i < |rawStyled| ==> rawStyled[i] == [])
    && (styled == rawStyled || plain == [] || !Blank(RustSpace, rawPlain[|plain| - 1]))
  }

  lemma LinesAreCut(grid: Grid, cols: nat, cursor: Cursor, opts: ScreenOpts)
    requires Rectangular(grid, cols)
    ensures
      var rs, cs := ResolveRange(opts.rows, |grid|), ResolveRange(opts.cols, cols);
      Cut(RawLines(grid, rs.0, rs.1, cs, cursor, opts), RawStyled(grid, rs.0, rs.1, cs, cursor, opts),
          PlainLines(grid, cols, cursor, opts), StyledLines(grid, cols, cursor, opts))
  {
    hide RawLines, RawStyled, TrimEnd, Trim, DropBlankLines, DropEmptyRows, TrimLines, Blank, MarksShow;
    var rs, cs := ResolveRange(opts.rows, |grid|), ResolveRange(opts.cols, cols);
    var rawPlain := RawLines(grid, rs.0, rs.1, cs, cursor, opts);
    RawAgree(grid, rs.0, rs.1, cs, cursor, opts);
    TrimLinesIndex(if opts.includeEmpty then rawPlain else DropBlankLines(rawPlain));
    DroppedLines(rawPlain);
    DroppedRows(RawStyled(grid, rs.0, rs.1, cs, cursor, opts));
  }

  lemma SameWhenNoneShow(
      rawPlain: seq<string>, rawStyled: seq<seq<Run>>, plain: seq<string>, styled: seq<seq<Run>>)
    requires Cut(rawPlain, rawStyled, plain, styled)
    requires forall i :: 0 <= i < |rawPlain| ==>
      TrimEnd(RustSpace, TextOf(rawStyled[i])) == TrimEnd(RustSpace, rawPlain[i])
    ensures SameScreen(plain, styled)
  {
    assert TextOf([]) == [];
    forall i | 0 <= i < |rawPlain|
      ensures Blank(RustSpace, rawPlain[i]) <==> Blank(RustSpace, TextOf(rawStyled[i]))
      ensures rawStyled[i] == [] ==> Blank(RustSpace, rawPlain[i])
    {
      TrimEndOfBlank(RustSpace, rawPlain[i]);
      TrimEndOfBlank(RustSpace, TextOf(rawStyled[i]));
    }
    hide TrimEnd, TextOf, Blank;
  }

  lemma ShownMarkDiffers(
      rawPlain: seq<string>, rawStyled: seq<seq<Run>>, plain: seq<string>, styled: seq<seq<Run>>, i: nat)
    requires Cut(rawPlain, rawStyled, plain, styled) && i < |rawPlain|
    requires TrimEnd(RustSpace, TextOf(rawStyled[i])) != TrimEnd(RustSpace, rawPlain[i])
    requires !Blank(RustSpace, TextOf(rawStyled[i]))
    ensures !SameScreen(plain, styled)
  {
    assert TextOf([]) == [] && Blank(RustSpace, []);
    assert rawStyled[i] != [];
    assert styled[i] == rawStyled[i];
  }
}
