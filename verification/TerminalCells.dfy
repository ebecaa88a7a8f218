/** What control characters and sequences do, cell by cell: where every cell's look comes from, and where the cursor
    goes. */
module TerminalCells {
  import opened Common
  import opened Framebuffer
  import opened TerminalSpec
  import opened TerminalRuns

  // ---------- cells ----------

  /** The cursor and the margins are on the screen; the cursor may stand behind the last column. */
  predicate Fits(d: Display) {
    && 0 < d.cols && 0 < d.rows && |d.screen| == d.rows * d.cols
    && d.x <= d.cols && d.y < d.rows && d.top < d.bottom <= d.rows
  }

  /** The look of the cell in column x of row y. */
  ghost function At(d: Display, x: nat, y: nat): Look
    requires |d.screen| == d.rows * d.cols && x < d.cols && y < d.rows
  {
    IndexBound(x, y, d.cols, d.rows);
    d.screen[Index(x, y, d.cols)]
  }

  /** e is a display of d's size, and nothing but its cells and its cursor differs from d. */
  ghost predicate OnlyCells(d: Display, e: Display) {
    |e.screen| == |d.screen| == d.rows * d.cols && e == d.(screen := e.screen, x := e.x, y := e.y)
  }

  /** Nothing but the cursor, which is now here. */
  predicate OnlyMoved(d: Display, e: Display, x: nat, y: nat) { e == d.(x := x, y := y) }

  /** Column x of row y, in one of the rows from first to last, has the look of n rows further down, and is blank if
      there is no such row; in another row it has kept its look. */
  ghost predicate CellUp(d: Display, e: Display, first: nat, last: nat, n: nat, x: nat, y: nat)
    requires OnlyCells(d, e) && last <= d.rows && x < d.cols && y < d.rows
  {
    At(e, x, y) == if first <= y && y + n < last then At(d, x, y + n)
                   else if first <= y < last then Blank(d) else At(d, x, y)
  }

  ghost predicate RowsUp(d: Display, e: Display, first: nat, last: nat, n: nat) {
    && OnlyCells(d, e) && last <= d.rows
    && forall x: nat, y: nat :: x < d.cols && y < d.rows ==> CellUp(d, e, first, last, n, x, y)
  }

  /** And of n rows further up. */
  ghost predicate CellDown(d: Display, e: Display, first: nat, last: nat, n: nat, x: nat, y: nat)
    requires OnlyCells(d, e) && last <= d.rows && x < d.cols && y < d.rows
  {
    At(e, x, y) == if first + n <= y < last then At(d, x, y - n)
                   else if first <= y < last then Blank(d) else At(d, x, y)
  }

  ghost predicate RowsDown(d: Display, e: Display, first: nat, last: nat, n: nat) {
    && OnlyCells(d, e) && last <= d.rows
    && forall x: nat, y: nat :: x < d.cols && y < d.rows ==> CellDown(d, e, first, last, n, x, y)
  }

  /** A range of whole rows is a range of indices. */
  lemma InRows(x: nat, y: nat, cols: nat, a: nat, b: nat)
    requires x < cols
    ensures a * cols <= Index(x, y, cols) < b * cols <==> a <= y < b
  {
    RowStart(x, y, cols, a);
    RowStart(x, y, cols, b);
  }

  lemma RowStart(x: nat, y: nat, cols: nat, a: nat)
    requires x < cols
    ensures a * cols <= Index(x, y, cols) <==> a <= y
  {
    if a <= y {
      assert a * cols <= y * cols;
    } else {
      assert (y + 1) * cols <= a * cols;
    }
  }

  lemma NextRow(x: nat, y: nat, cols: nat)
    ensures Index(x, y + 1, cols) == Index(x, y, cols) + cols
  {
  }

  lemma ScrolledUpCell(s: seq<Look>, cols: nat, rows: nat, first: nat, last: nat, blank: Look, x: nat, y: nat)
    requires |s| == rows * cols && x < cols && y < rows && first < last <= rows
    ensures Index(x, y, cols) < |s| && (y + 1 < rows ==> Index(x, y + 1, cols) < |s|)
    ensures ScrolledUp(s, cols, first, last, blank)[Index(x, y, cols)] ==
            if first <= y && y + 1 < last then s[Index(x, y + 1, cols)]
            else if first <= y < last then blank else s[Index(x, y, cols)]
  {
    IndexBound(x, y, cols, rows);
    if y + 1 < rows { IndexBound(x, y + 1, cols, rows); }
    InRows(x, y, cols, first, last);
    InRows(x, y, cols, first, last - 1);
    InRows(x, y, cols, last - 1, last);
    NextRow(x, y, cols);
    NextRow(0, last - 1, cols);
    hide Index;
  }

  lemma ScrolledDownCell(s: seq<Look>, cols: nat, rows: nat, first: nat, last: nat, blank: Look, x: nat, y: nat)
    requires |s| == rows * cols && x < cols && y < rows && first < last <= rows
    ensures Index(x, y, cols) < |s| && (0 < y ==> Index(x, y - 1, cols) < |s|)
    ensures ScrolledDown(s, cols, first, last, blank)[Index(x, y, cols)] ==
            if first + 1 <= y < last then s[Index(x, y - 1, cols)]
            else if first <= y < last then blank else s[Index(x, y, cols)]
  {
    IndexBound(x, y, cols, rows);
    if 0 < y {
      IndexBound(x, y - 1, cols, rows);
      NextRow(x, y - 1, cols);
    }
    InRows(x, y, cols, first, last);
    InRows(x, y, cols, first + 1, last);
    InRows(x, y, cols, first, first + 1);
    NextRow(0, first, cols);
    hide Index;
  }

  lemma {:induction false} ScrolledCell(s: seq<Look>, cols: nat, rows: nat, first: nat, last: nat, blank: Look,
                                        up: bool, n: nat, x: nat, y: nat)
    requires |s| == rows * cols && x < cols && y < rows && first < last <= rows && n <= last - first
    ensures |Scrolled(s, cols, first, last, blank, up, n)| == |s|
    ensures Index(x, y, cols) < |s| && (y + n < rows ==> Index(x, y + n, cols) < |s|)
    ensures n <= y ==> Index(x, y - n, cols) < |s|
    ensures Scrolled(s, cols, first, last, blank, up, n)[Index(x, y, cols)] ==
            if up && first <= y && y + n < last then s[Index(x, y + n, cols)]
            else if !up && first + n <= y < last then s[Index(x, y - n, cols)]
            else if first <= y < last && 0 < n then blank else s[Index(x, y, cols)]
  {
    hide Index;
    hide ScrolledUp;
    hide ScrolledDown;
    IndexBound(x, y, cols, rows);
    if y + n < rows { IndexBound(x, y + n, cols, rows); }
    if n <= y { IndexBound(x, y - n, cols, rows); }
    if n > 0 {
      var r := Scrolled(s, cols, first, last, blank, up, n - 1);
      ScrolledCell(s, cols, rows, first, last, blank, up, n - 1, x, y);
      if up {
        ScrolledUpCell(r, cols, rows, first, last, blank, x, y);
        if y + 1 < rows { ScrolledCell(s, cols, rows, first, last, blank, up, n - 1, x, y + 1); }
      } else {
        ScrolledDownCell(r, cols, rows, first, last, blank, x, y);
        if 0 < y { ScrolledCell(s, cols, rows, first, last, blank, up, n - 1, x, y - 1); }
      }
    }
  }

  lemma ScrolledRows(d: Display, e: Display, first: nat, last: nat, up: bool, n: nat)
    requires |d.screen| == d.rows * d.cols && first < last <= d.rows && n <= last - first
    requires e == d.(screen := Scrolled(d.screen, d.cols, first, last, Blank(d), up, n), x := e.x, y := e.y)
    ensures if up then RowsUp(d, e, first, last, n) else RowsDown(d, e, first, last, n)
  {
    hide Index;
    hide Scrolled;
    if d.cols == 0 || d.rows == 0 {
      ScrolledEmpty(d.screen, d.cols, first, last, Blank(d), up, n);
    } else {
      ScrolledCell(d.screen, d.cols, d.rows, first, last, Blank(d), up, n, 0, 0);
    }
    assert OnlyCells(d, e);
    forall x: nat, y: nat | x < d.cols && y < d.rows
      ensures if up then CellUp(d, e, first, last, n, x, y) else CellDown(d, e, first, last, n, x, y)
    {
      ScrolledCell(d.screen, d.cols, d.rows, first, last, Blank(d), up, n, x, y);
    }
  }

  lemma {:induction false} ScrolledEmpty(s: seq<Look>, cols: nat, first: nat, last: nat, blank: Look, up: bool, n: nat)
    ensures |Scrolled(s, cols, first, last, blank, up, n)| == |s|
  {
    hide ScrolledUp;
    hide ScrolledDown;
    if n > 0 { ScrolledEmpty(s, cols, first, last, blank, up, n - 1); }
  }

  // ---------- control characters ----------

  /** A control character that is neither NUL, CAN, SUB nor ESC acts at once and leaves the terminal between
      sequences. */
  lemma Controls(k: Tables, t: Term, c: nat)
    requires Ground(t.s) && 0 < c < 0x20 && c != 0x18 && c != 0x1a && c != 0x1b
    ensures var u := Run(k, t, [c]);
            && Ground(u.s) && u.s.insertMode == t.s.insertMode && u.d == Controlled(t.d, c)
            && u.s.currentCharset == if c == 14 then 1 else if c == 15 then 0 else t.s.currentCharset
  {
    hide Run;
    hide Escaped;
    hide Controlled;
    hide Printed;
    hide Continued;
    hide Continue;
    hide BrokenOff;
    hide Abandoned;
    hide CharsetNamed;
    hide EscapeOpened;
    hide PointOpened;
    hide PlainContext;
    hide CharsetShifted;
    hide KeepsBounds;
    RunOne(k, t, c);
    ControlContext(t.s, c);
  }

  lemma ControlContext(s: Context, c: nat)
    requires Ground(s)
    ensures var r := CharsetShifted(PlainContext(s, c), c);
            && Ground(r) && r.insertMode == s.insertMode
            && r.currentCharset == if c == 14 then 1 else if c == 15 then 0 else s.currentCharset
  {
    hide KeepsBounds;
  }

  /** In the middle of a control sequence it acts just so, and the sequence goes on. */
  lemma ControlsWithin(k: Tables, s: Context, d: Display, o: nat, values: seq<nat>, n: nat, digits: bool, c: nat)
    requires Ground(s) && 0 < c < 0x20 && c != 0x18 && c != 0x1a && c != 0x1b && c != 14 && c != 15
    ensures Step(k, Term(Within(s, o, values, n, digits), d), c) ==
            Term(Within(s, o + 1, values, n, digits), Run(k, Term(s, d), [c]).d)
  {
    hide Step;
    hide Within;
    hide Controlled;
    hide ValuesEnded;
    hide DigitAdded;
    hide CharsetShifted;
    WithinStep(k, s, d, o, values, n, digits, c);
    SameCharset(Within(s, o + 1, values, n, digits), c);
    Controls(k, Term(s, d), c);
  }

  /** e is d after a line feed: between the margins everything moves up if the cursor is on the last of their rows, and
      the cursor moves down otherwise, unless it is on the last row of all. */
  ghost predicate FedLine(d: Display, e: Display, home: bool) {
    if d.y == d.bottom - 1 then
      RowsUp(d, e, d.top, d.bottom, 1) && e.x == (if home then 0 else Col(d)) && e.y == d.y
    else if d.y < d.rows - 1 then OnlyMoved(d, e, if home then 0 else Col(d), d.y + 1)
    else OnlyMoved(d, e, if home then 0 else d.x, d.y)
  }

  lemma FedIs(d: Display, home: bool)
    requires Fits(d)
    ensures FedLine(d, LineFed(d, home), home)
  {
    if d.y == d.bottom - 1 {
      ScrolledOnce(d.screen, d.cols, d.top, d.bottom, Blank(d), true);
      ScrolledRows(d, LineFed(d, home), d.top, d.bottom, true, 1);
    }
  }

  /** LF, VT and FF: a line feed, in the same column. */
  lemma LineFeedByte(k: Tables, t: Term, c: nat)
    requires Ground(t.s) && Fits(t.d) && 10 <= c <= 12
    ensures var u := Run(k, t, [c]); Ground(u.s) && FedLine(t.d, u.d, false)
  {
    hide Run;
    hide FedLine;
    hide LineFed;
    Controls(k, t, c);
    FedIs(t.d, false);
  }

  /** CR: to the first column. */
  lemma CarriageReturnByte(k: Tables, t: Term)
    requires Ground(t.s)
    ensures var u := Run(k, t, [13]); Ground(u.s) && OnlyMoved(t.d, u.d, 0, t.d.y)
  {
    hide Run;
    Controls(k, t, 13);
  }

  /** BS: a column back, unless there is none. */
  lemma BackspaceByte(k: Tables, t: Term)
    requires Ground(t.s)
    ensures var u := Run(k, t, [8]);
            Ground(u.s) && OnlyMoved(t.d, u.d, if Col(t.d) == 0 then t.d.x else Col(t.d) - 1, t.d.y)
  {
    hide Run;
    Controls(k, t, 8);
  }

  /** HT: to the next column that is a multiple of eight, or the last if the row has none. */
  lemma TabByte(k: Tables, t: Term)
    requires Ground(t.s) && Fits(t.d)
    ensures var u := Run(k, t, [9]);
            && Ground(u.s) && OnlyMoved(t.d, u.d, u.d.x, t.d.y) && u.d.x < t.d.cols
            && if exists x :: Col(t.d) < x < t.d.cols && x % 8 == 0
               then Col(t.d) < u.d.x <= Col(t.d) + 8 && u.d.x % 8 == 0 else u.d.x == t.d.cols - 1
  {
    hide Run;
    Controls(k, t, 9);
    NextTab(Col(t.d), t.d.cols);
  }

  lemma NextTab(x: nat, cols: nat)
    ensures var next := (x / 8 + 1) * 8;
            && x < next <= x + 8 && next % 8 == 0
            && ((exists y :: x < y < cols && y % 8 == 0) <==> next < cols)
  {
    var next := (x / 8 + 1) * 8;
    assert forall y :: x < y && y % 8 == 0 ==> next <= y;
  }

  /** SO and SI choose the second and the first character set, and show nothing. */
  lemma ShiftBytes(k: Tables, t: Term, out: bool)
    requires Ground(t.s)
    ensures var u := Run(k, t, [if out then 14 else 15]);
            Ground(u.s) && u.s.currentCharset == (if out then 1 else 0) && u.d == t.d
  {
    hide Run;
    Controls(k, t, if out then 14 else 15);
  }

  /** The other control characters do nothing to the display. */
  lemma IgnoredByte(k: Tables, t: Term, c: nat)
    requires Ground(t.s) && (c < 8 || 16 <= c < 0x20 || c == 0x7f) && c != 0x1b
    ensures var u := Run(k, t, [c]); Ground(u.s) && u.d == t.d
  {
    RunOne(k, t, c);
    hide Run;
    if c == 0x18 || c == 0x1a {
      CancelByte(k, t, c);
    } else if c == 0 || c == 0x7f {
      hide Escaped;
      hide Printed;
      hide BrokenOff;
      hide Continued;
    } else {
      Controls(k, t, c);
    }
  }

  /** CAN and SUB, in whatever state, end what is in progress and show nothing. */
  lemma CancelByte(k: Tables, t: Term, c: nat)
    requires c == 0x18 || c == 0x1a
    ensures var u := Run(k, t, [c]); Ground(u.s) && u.d == t.d
  {
    RunOne(k, t, c);
    hide Run;
    hide Received;
    hide BrokenOff;
    hide Continued;
  }

  // ---------- short escapes ----------

  /** What a short escape leaves is between sequences. */
  lemma EscapeEnds(s: Context)
    requires Ground(s)
    ensures Ground(Unescaped(WithOffset(EscapeOpened(s), 1)))
  {
  }

  /** ESC D: a line feed. ESC E: one to the first column. */
  lemma IndexEscape(k: Tables, t: Term, home: bool)
    requires Ground(t.s) && Fits(t.d)
    ensures var u := Run(k, t, [0x1b, if home then 69 else 68]); Ground(u.s) && FedLine(t.d, u.d, home)
  {
    hide Run;
    hide FedLine;
    hide LineFed;
    hide Unescaped;
    hide WithOffset;
    hide EscapeOpened;
    ShortEscapeRuns(k, t, if home then 69 else 68);
    EscapeEnds(t.s);
    FedIs(t.d, home);
  }

  /** ESC M: a row up, and on the top margin everything between the margins moves down. */
  lemma ReverseIndexEscape(k: Tables, t: Term)
    requires Ground(t.s) && Fits(t.d)
    ensures var u := Run(k, t, [0x1b, 77]);
            && Ground(u.s)
            && if t.d.y == t.d.top then
                 RowsDown(t.d, u.d, t.d.top, t.d.bottom, 1) && u.d.x == Col(t.d) && u.d.y == t.d.y
               else if 0 < t.d.y then OnlyMoved(t.d, u.d, Col(t.d), t.d.y - 1)
               else u.d == t.d
  {
    hide Run;
    hide Unescaped;
    hide WithOffset;
    hide EscapeOpened;
    hide ScrolledDown;
    ShortEscapeRuns(k, t, 77);
    EscapeEnds(t.s);
    if t.d.y == t.d.top {
      ScrolledOnce(t.d.screen, t.d.cols, t.d.top, t.d.bottom, Blank(t.d), false);
      ScrolledRows(t.d, ReverseFed(t.d), t.d.top, t.d.bottom, false, 1);
    }
  }

  /** ESC c: everything as at the start, but for the pen's character: blank cells in the plain colours, the cursor home,
      the margins at the edges, and the modes at their defaults. */
  lemma ResetEscape(k: Tables, t: Term)
    requires Ground(t.s) && |t.d.screen| == t.d.rows * t.d.cols
    ensures var u := Run(k, t, [0x1b, 99]);
            && Ground(u.s) && !u.s.insertMode && !u.s.originMode && !u.s.reverseVideo && !u.s.bold && !u.s.bgBold
            && u.s.charsets == [0, 1] && u.s.currentCharset == 0
            && |u.d.screen| == |t.d.screen| && u.d.cols == t.d.cols && u.d.rows == t.d.rows
            && (forall i :: 0 <= i < |u.d.screen| ==> u.d.screen[i] == Look(32, Some(DefaultColour(false)), None))
            && (forall c :: LookOf(u.d.pen.(c := c)) == Look(c, Some(DefaultColour(false)), None))
            && u.d.x == 0 && u.d.y == 0 && u.d.top == 0 && u.d.bottom == t.d.rows
            && u.d.cursorOn && u.d.wrap && u.d.scroll
            && u.d.savedX == 0 && u.d.savedY == 0 && u.d.savedPen == u.d.pen
  {
    hide Run;
    hide Unescaped;
    hide WithOffset;
    hide EscapeOpened;
    hide Reset;
    hide SavedContext;
    ShortEscapeRuns(k, t, 99);
    ResetContext(WithOffset(EscapeOpened(t.s), 1));
    SameReversal(t.s);
  }

  lemma ResetContext(s: Context)
    ensures var r := Unescaped(SavedContext(Reset(s)));
            && Ground(r) && !r.insertMode && !r.originMode && !r.reverseVideo && !r.bold && !r.bgBold
            && r.charsets == [0, 1] && r.currentCharset == 0
  {
  }

  lemma SameReversal(s: Context)
    ensures WithOffset(EscapeOpened(s), 1).reverseVideo == s.reverseVideo
  {
  }

  // ---------- control sequences ----------

  /** ESC [, the parameters, and the final byte. */
  function Sequence(ps: seq<seq<nat>>, c: nat): seq<nat> { [0x1b, 91] + Joined(ps) + [c] }

  /** Parameter i as a decimal number, and the default if it is not given or zero. */
  function Arg(ps: seq<seq<nat>>, i: nat, default: nat): nat {
    if i < |ps| && Decimal(ps[i]) != 0 then Decimal(ps[i]) else default
  }

  function DefaultOf(c: nat): nat { if ZeroDefault(c) then 0 else 1 }

  /** What the final byte finds is the decimal number, as far as a screen of at most a tenth of the range can tell. */
  lemma ArgIs(s: Context, o: nat, ps: seq<seq<nat>>, c: nat, i: nat)
    requires Ground(s) && Parameters(ps) && i < MAX_VALUES
    ensures var v, a := ValueAt(Complete(s, o, ps, c), i), Arg(ps, i, DefaultOf(c));
            && (a <= U32_MAX ==> v == a) && (a > U32_MAX ==> v > U32_MAX / 10)
  {
    hide Complete;
    hide Parameter;
    hide Decimal;
    EndsGround(s, o, ps, c);
    if i < |ps| { ParameterExact(ps[i]); }
    NoDigits(ps);
  }

  function Modes(d: Display, wrap: bool, scroll: bool): Display { d.(wrap := wrap, scroll := scroll) }

  /** Scrolling and wrapping are none of these functions' business. */
  lemma MovesAnyway(d: Display, w: bool, z: bool, origin: bool, c: nat, v: nat, v1: nat)
    ensures Moved(Modes(d, w, z), origin, c, v) == Modes(Moved(d, origin, c, v), w, z)
    ensures Placed(Modes(d, w, z), origin, c, v, v1) == Modes(Placed(d, origin, c, v, v1), w, z)
  {
    hide MovedColumn;
    hide MovedRow;
    hide Place;
  }

  lemma ErasesAnyway(d: Display, w: bool, z: bool, n: nat)
    ensures DisplayErased(Modes(d, w, z), n) == Modes(DisplayErased(d, n), w, z)
    ensures LineErased(Modes(d, w, z), n) == Modes(LineErased(d, n), w, z)
    ensures ErasedChars(Modes(d, w, z), n) == Modes(ErasedChars(d, n), w, z)
  {
    hide ErasedDisplay;
    hide ErasedLine;
    hide Blanked;
  }

  lemma ShiftsAnyway(d: Display, w: bool, z: bool, c: nat, n: nat)
    ensures InsertedChars(Modes(d, w, z), n) == Modes(InsertedChars(d, n), w, z)
    ensures DeletedChars(Modes(d, w, z), n) == Modes(DeletedChars(d, n), w, z)
    ensures ScrolledLines(Modes(d, w, z), c, n) == Modes(ScrolledLines(d, c, n), w, z)
  {
    hide CharsInserted;
    hide CharsDeleted;
    hide ScrolledBy;
  }

  lemma MarginsAnyway(d: Display, w: bool, z: bool, s: Context)
    ensures Margined(Modes(d, w, z), s) == Modes(Margined(d, s), w, z)
  {
  }

  lemma MovedAnyway(d: Display, w: bool, z: bool, x: nat, y: nat)
    ensures MovedTo(Modes(d, w, z), x, y) == Modes(MovedTo(d, x, y), w, z)
  {
  }

  lemma PerformsAnyway(d: Display, w: bool, z: bool, s: Context, c: nat)
    ensures Performed(Modes(d, w, z), s, c) == Modes(Performed(d, s, c), w, z)
  {
    hide Moved;
    hide Placed;
    hide DisplayErased;
    hide LineErased;
    hide ErasedChars;
    hide InsertedChars;
    hide ScrolledLines;
    hide Margined;
    hide ValueAt;
    hide Modes;
    MovedAnyway(d, w, z, s.savedCursorX, s.savedCursorY);
    hide MovedTo;
    var v := ValueAt(s, 0);
    MovesAnyway(d, w, z, s.originMode, c, v, ValueAt(s, 1));
    ErasesAnyway(d, w, z, v);
    ShiftsAnyway(d, w, z, c, v);
    MarginsAnyway(d, w, z, s);
  }

  /** The final bytes that act on the display do just that. */
  lemma Performs(k: Tables, t: Term, ps: seq<seq<nat>>, c: nat)
    requires Ground(t.s) && !t.s.decPrivate && Parameters(ps) && OnDisplay(c)
    ensures var s := Complete(t.s, 2 + |Joined(ps)|, ps, c);
            var u := Run(k, t, Sequence(ps, c));
            u == Term(Ended(s), Performed(t.d, s, c)) && Ground(u.s)
  {
    hide Run;
    hide Performed;
    hide PrivateSet;
    hide Complete;
    hide Ended;
    hide Joined;
    SequenceRuns(k, t, ps, c);
    var s := Complete(t.s, 2 + |Joined(ps)|, ps, c);
    EndsGround(t.s, 2 + |Joined(ps)|, ps, c);
    PerformsAnyway(t.d, true, false, s, c);
    PerformsAnyway(t.d, t.d.wrap, t.d.scroll, s, c);
  }

  // ---------- moving the cursor ----------

  function Max(a: int, b: int): int { if a < b then b else a }

  /** A screen on which every row and column has a number that a parameter can hold. */
  predicate Small(d: Display) { d.cols <= U32_MAX / 10 && d.rows <= U32_MAX / 10 }

  /** The first row the cursor may be moved to, and the one behind the last. */
  function FirstRow(t: Term): nat { if t.s.originMode then t.d.top else 0 }

  function EndRow(t: Term): nat { if t.s.originMode then t.d.bottom else t.d.rows }

  predicate Moves(c: nat) { 65 <= c <= 70 || c == 97 || c == 101 }

  /** Up, down, right, left, and to the start of a line further down or up: by the number given, by one if there is
      none, and no further than the edge, which in origin mode is the margin. */
  lemma MoveSequence(k: Tables, t: Term, ps: seq<seq<nat>>, c: nat)
    requires Ground(t.s) && !t.s.decPrivate && Parameters(ps) && Fits(t.d) && Small(t.d) && Moves(c)
    ensures var u, n := Run(k, t, Sequence(ps, c)), Arg(ps, 0, 1);
            && Ground(u.s) && OnlyMoved(t.d, u.d, u.d.x, u.d.y)
            && u.d.x == (if c == 67 || c == 97 then Min(Col(t.d) + n, t.d.cols - 1)
                         else if c == 68 then Max(Col(t.d) - n, 0)
                         else if c == 69 || c == 70 then 0 else Col(t.d))
            && u.d.y == (if c == 65 || c == 70 then Max(t.d.y - n, FirstRow(t))
                         else if c == 66 || c == 69 || c == 101 then Min(t.d.y + n, EndRow(t) - 1) else t.d.y)
  {
    hide Run;
    hide Ground;
    hide Complete;
    hide Ended;
    hide Joined;
    hide Decimal;
    hide ValueAt;
    hide Performed;
    Performs(k, t, ps, c);
    EndsGround(t.s, 2 + |Joined(ps)|, ps, c);
    ArgIs(t.s, 2 + |Joined(ps)|, ps, c, 0);
    var s := Complete(t.s, 2 + |Joined(ps)|, ps, c);
    PerformedMove(t.d, s, c);
  }

  lemma PerformedMove(d: Display, s: Context, c: nat)
    requires Moves(c)
    ensures Performed(d, s, c) == Moved(d, s.originMode, c, ValueAt(s, 0))
  {
  }

  /** To a column, a row, or both, counted from one, the first if none is given and the nearest if there is no such one;
      in origin mode rows count from the top margin. */
  lemma PlaceSequence(k: Tables, t: Term, ps: seq<seq<nat>>, c: nat)
    requires Ground(t.s) && !t.s.decPrivate && Parameters(ps) && Fits(t.d) && Small(t.d)
    requires c == 71 || c == 96 || c == 100 || c == 72 || c == 102
    ensures var u := Run(k, t, Sequence(ps, c));
            var x := if c == 72 || c == 102 then Arg(ps, 1, 1) else Arg(ps, 0, 1);
            && Ground(u.s) && OnlyMoved(t.d, u.d, u.d.x, u.d.y)
            && u.d.x == (if c == 100 then Col(t.d) else Min(x, t.d.cols) - 1)
            && u.d.y == if c == 71 || c == 96 then t.d.y
                        else Min(FirstRow(t) + Arg(ps, 0, 1), EndRow(t)) - 1
  {
    hide Run;
    hide Ground;
    hide Complete;
    hide Ended;
    hide Joined;
    hide Decimal;
    hide ValueAt;
    hide Performed;
    Performs(k, t, ps, c);
    EndsGround(t.s, 2 + |Joined(ps)|, ps, c);
    ArgIs(t.s, 2 + |Joined(ps)|, ps, c, 0);
    ArgIs(t.s, 2 + |Joined(ps)|, ps, c, 1);
    var s := Complete(t.s, 2 + |Joined(ps)|, ps, c);
    PerformedPlace(t.d, s, c);
  }

  lemma PerformedPlace(d: Display, s: Context, c: nat)
    requires c == 71 || c == 96 || c == 100 || c == 72 || c == 102
    ensures Performed(d, s, c) == Placed(d, s.originMode, c, ValueAt(s, 0), ValueAt(s, 1))
  {
  }

  /** ESC [ p ; q r: margins at rows p to q if these are at least two rows of the screen, else at its edges; a missing p
      is the first row, a missing q the last, and the cursor goes to the first cell it may be moved to. */
  lemma MarginSequence(k: Tables, t: Term, ps: seq<seq<nat>>)
    requires Ground(t.s) && !t.s.decPrivate && Parameters(ps) && Fits(t.d) && Small(t.d)
    ensures var u := Run(k, t, Sequence(ps, 114));
            var p, q := Arg(ps, 0, 1), if Counted(ps) > 1 then Arg(ps, 1, 1) else t.d.rows;
            && Ground(u.s) && u.d == t.d.(top := u.d.top, bottom := u.d.bottom, x := u.d.x, y := u.d.y)
            && u.d.top == (if p < q <= t.d.rows then p - 1 else 0)
            && u.d.bottom == (if p < q <= t.d.rows then q else t.d.rows)
            && u.d.x == 0 && u.d.y == if t.s.originMode then u.d.top else 0
  {
    hide Run;
    hide Ground;
    hide Complete;
    hide Ended;
    hide Joined;
    hide Decimal;
    Performs(k, t, ps, 114);
    EndsGround(t.s, 2 + |Joined(ps)|, ps, 114);
    ArgIs(t.s, 2 + |Joined(ps)|, ps, 114, 0);
    ArgIs(t.s, 2 + |Joined(ps)|, ps, 114, 1);
    var s := Complete(t.s, 2 + |Joined(ps)|, ps, 114);
    NothingCounted(ps);
    assert Performed(t.d, s, 114) == Margined(t.d, s);
    hide ValueAt;
    hide Performed;
  }

  lemma NothingCounted(ps: seq<seq<nat>>)
    requires Parameters(ps)
    ensures Counted(ps) == 0 ==> Arg(ps, 0, 1) == 1
  {
  }

  /** ESC [ s remembers the cursor's cell. */
  lemma PlaceSaved(k: Tables, t: Term, ps: seq<seq<nat>>)
    requires Ground(t.s) && !t.s.decPrivate && Parameters(ps)
    ensures var u := Run(k, t, Sequence(ps, 115));
            Ground(u.s) && u.d == t.d && u.s.savedCursorX == Col(t.d) && u.s.savedCursorY == t.d.y
  {
    hide Run;
    hide PrivateSet;
    hide Joined;
    hide Complete;
    hide Ended;
    hide WithSavedCursor;
    hide Finished;
    SequenceRuns(k, t, ps, 115);
    EndsGround(t.s, 2 + |Joined(ps)|, ps, 115);
    SavesCursor(k, Complete(t.s, 2 + |Joined(ps)|, ps, 115), t.d);
  }

  /** ESC [ u goes to the cell remembered. */
  lemma PlaceRecalled(k: Tables, t: Term, ps: seq<seq<nat>>)
    requires Ground(t.s) && !t.s.decPrivate && Parameters(ps)
    ensures var u := Run(k, t, Sequence(ps, 117));
            Ground(u.s) && OnlyMoved(t.d, u.d, t.s.savedCursorX, t.s.savedCursorY)
  {
    hide Run;
    hide Joined;
    hide Complete;
    hide Ended;
    Performs(k, t, ps, 117);
    SameCursor(t.s, 2 + |Joined(ps)|, ps, 117);
  }

  lemma SameCursor(s: Context, o: nat, ps: seq<seq<nat>>, c: nat)
    requires Parameters(ps)
    ensures var r := Complete(s, o, ps, c);
            r.savedCursorX == s.savedCursorX && r.savedCursorY == s.savedCursorY && r.insertMode == s.insertMode
              && r.lastPrinted == s.lastPrinted && r.lastWasGraphic == s.lastWasGraphic
  {
    hide ValuesOf;
    hide WithDefaults;
  }

  lemma SavesCursor(k: Tables, s: Context, d: Display)
    ensures Finished(k, Term(s, d), 115) == Term(Ended(WithSavedCursor(s, Col(d), d.y)), d)
    ensures var r := Ended(WithSavedCursor(s, Col(d), d.y));
            r.savedCursorX == Col(d) && r.savedCursorY == d.y && (Ground(Ended(s)) ==> Ground(r))
  {
  }

  // ---------- erasing ----------

  /** Indices follow the order in which the cells are read. */
  lemma ReadingOrder(x: nat, y: nat, a: nat, b: nat, cols: nat)
    requires x < cols && a < cols
    ensures Index(x, y, cols) < Index(a, b, cols) <==> y < b || (y == b && x < a)
  {
    if y < b {
      assert (y + 1) * cols <= b * cols;
    } else if b < y {
      assert (b + 1) * cols <= y * cols;
    }
  }

  /** The cells an erasing sequence clears: to the end, from the start, or all, of the screen (74) or of the cursor's
      row (75). */
  predicate Doomed(d: Display, c: nat, mode: nat, x: nat, y: nat) {
    if c == 74 then
      if mode == 0 then d.y < y || (y == d.y && Col(d) <= x)
      else if mode == 1 then y < d.y || (y == d.y && x <= Col(d))
      else mode == 2 || mode == 3
    else y == d.y && if mode == 0 then Col(d) <= x else if mode == 1 then x <= Col(d) else mode == 2
  }

  ghost predicate CellErased(d: Display, e: Display, c: nat, mode: nat, x: nat, y: nat)
    requires OnlyCells(d, e) && x < d.cols && y < d.rows
  {
    At(e, x, y) == if Doomed(d, c, mode, x, y) then Blank(d) else At(d, x, y)
  }

  /** Exactly those cells are blank, and the others are as they were. */
  ghost predicate Erased(d: Display, e: Display, c: nat, mode: nat) {
    && OnlyCells(d, e)
    && forall x: nat, y: nat :: x < d.cols && y < d.rows ==> CellErased(d, e, c, mode, x, y)
  }

  lemma DisplayCell(d: Display, mode: nat, x: nat, y: nat)
    requires Fits(d) && x < d.cols && y < d.rows
    ensures |ErasedDisplay(d.screen, mode, Col(d), d.y, d.cols, d.rows, Blank(d))| == |d.screen|
    ensures Index(x, y, d.cols) < |d.screen|
    ensures ErasedDisplay(d.screen, mode, Col(d), d.y, d.cols, d.rows, Blank(d))[Index(x, y, d.cols)] ==
            if Doomed(d, 74, mode, x, y) then Blank(d) else d.screen[Index(x, y, d.cols)]
  {
    IndexBound(x, y, d.cols, d.rows);
    ReadingOrder(x, y, Col(d), d.y, d.cols);
    ReadingOrder(Col(d), d.y, x, y, d.cols);
    hide Index;
  }

  lemma LineCell(d: Display, mode: nat, x: nat, y: nat)
    requires Fits(d) && x < d.cols && y < d.rows
    ensures |ErasedLine(d.screen, mode, Col(d), d.y, d.cols, Blank(d))| == |d.screen|
    ensures Index(x, y, d.cols) < |d.screen|
    ensures ErasedLine(d.screen, mode, Col(d), d.y, d.cols, Blank(d))[Index(x, y, d.cols)] ==
            if Doomed(d, 75, mode, x, y) then Blank(d) else d.screen[Index(x, y, d.cols)]
  {
    IndexBound(x, y, d.cols, d.rows);
    ReadingOrder(x, y, Col(d), d.y, d.cols);
    ReadingOrder(Col(d), d.y, x, y, d.cols);
    ReadingOrder(x, y, 0, d.y, d.cols);
    ReadingOrder(x, y, 0, d.y + 1, d.cols);
    NextRow(0, d.y, d.cols);
    hide Index;
  }

  lemma ErasedCells(d: Display, c: nat, mode: nat)
    requires Fits(d) && (c == 74 || c == 75)
    ensures Erased(d, if c == 74 then DisplayErased(d, mode) else LineErased(d, mode), c, mode)
  {
    hide Index;
    hide ErasedDisplay;
    hide ErasedLine;
    hide Doomed;
    var e := if c == 74 then DisplayErased(d, mode) else LineErased(d, mode);
    DisplayCell(d, mode, 0, 0);
    LineCell(d, mode, 0, 0);
    forall x: nat, y: nat | x < d.cols && y < d.rows ensures CellErased(d, e, c, mode, x, y) {
      if c == 74 { DisplayCell(d, mode, x, y); } else { LineCell(d, mode, x, y); }
      if c == 75 && mode > 2 { NothingDoomed(d, mode, x, y); }
    }
  }

  lemma NothingDoomed(d: Display, mode: nat, x: nat, y: nat)
    requires 2 < mode
    ensures !Doomed(d, 75, mode, x, y)
  {
  }

  /** ESC [ J and ESC [ K clear exactly the cells their parameter says; a cursor behind the last column comes back to it
      where only a part is cleared, or a row. */
  lemma EraseSequence(k: Tables, t: Term, ps: seq<seq<nat>>, c: nat)
    requires Ground(t.s) && !t.s.decPrivate && Parameters(ps) && Fits(t.d) && (c == 74 || c == 75)
    ensures var u, mode := Run(k, t, Sequence(ps, c)), Arg(ps, 0, 0);
            && Ground(u.s) && Erased(t.d, u.d, c, mode) && u.d.y == t.d.y
            && u.d.x == if mode <= (if c == 74 then 1 else 2) then Col(t.d) else t.d.x
  {
    hide Run;
    hide Ground;
    hide Complete;
    hide Ended;
    hide Joined;
    hide Decimal;
    hide ValueAt;
    hide Erased;
    hide ErasedDisplay;
    hide ErasedLine;
    Performs(k, t, ps, c);
    ArgIs(t.s, 2 + |Joined(ps)|, ps, c, 0);
    var v := ValueAt(Complete(t.s, 2 + |Joined(ps)|, ps, c), 0);
    ErasedCells(t.d, c, v);
    if v != Arg(ps, 0, 0) { SameErased(t.d, if c == 74 then DisplayErased(t.d, v) else LineErased(t.d, v), c, v,
                                       Arg(ps, 0, 0)); }
  }

  /** All the modes there are not are alike. */
  lemma SameErased(d: Display, e: Display, c: nat, v: nat, w: nat)
    requires Erased(d, e, c, v) && 3 < v && 3 < w
    ensures Erased(d, e, c, w)
  {
    forall x: nat, y: nat | x < d.cols && y < d.rows ensures CellErased(d, e, c, w, x, y) {
      assert CellErased(d, e, c, v, x, y);
    }
  }

  // ---------- moving cells in a row ----------

  /** A stretch of a row is a stretch of indices. */
  lemma RowRange(x: nat, y: nat, a: nat, b: nat, row: nat, cols: nat)
    requires x < cols && a <= b <= cols
    ensures Index(a, row, cols) <= Index(x, y, cols) < Index(b, row, cols) <==> y == row && a <= x < b
  {
    if y < row {
      assert (y + 1) * cols <= row * cols;
    } else if row < y {
      assert (row + 1) * cols <= y * cols;
    }
  }

  lemma SameRow(x: nat, y: nat, n: nat, cols: nat)
    ensures Index(x + n, y, cols) == Index(x, y, cols) + n
  {
  }

  ghost predicate CellInserted(d: Display, e: Display, n: nat, x: nat, y: nat)
    requires OnlyCells(d, e) && x < d.cols && y < d.rows
  {
    At(e, x, y) == if y != d.y || x < Col(d) then At(d, x, y)
                   else if x < Col(d) + n then Blank(d) else At(d, x - n, y)
  }

  /** n blanks from the cursor on, with the rest of the row pushed right and out. */
  ghost predicate Inserted(d: Display, e: Display, n: nat) {
    && OnlyCells(d, e)
    && forall x: nat, y: nat :: x < d.cols && y < d.rows ==> CellInserted(d, e, n, x, y)
  }

  ghost predicate CellDeleted(d: Display, e: Display, n: nat, x: nat, y: nat)
    requires OnlyCells(d, e) && x < d.cols && y < d.rows
  {
    At(e, x, y) == if y != d.y || x < Col(d) then At(d, x, y)
                   else if x + n < d.cols then At(d, x + n, y) else Blank(d)
  }

  /** n cells from the cursor on gone, with the rest of the row pulled left and blanks behind it. */
  ghost predicate Deleted(d: Display, e: Display, n: nat) {
    && OnlyCells(d, e)
    && forall x: nat, y: nat :: x < d.cols && y < d.rows ==> CellDeleted(d, e, n, x, y)
  }

  ghost predicate CellCleared(d: Display, e: Display, n: nat, x: nat, y: nat)
    requires OnlyCells(d, e) && x < d.cols && y < d.rows
  {
    At(e, x, y) == if y == d.y && Col(d) <= x < Col(d) + n then Blank(d) else At(d, x, y)
  }

  /** n cells from the cursor on blank. */
  ghost predicate ClearedHere(d: Display, e: Display, n: nat) {
    && OnlyCells(d, e)
    && forall x: nat, y: nat :: x < d.cols && y < d.rows ==> CellCleared(d, e, n, x, y)
  }

  lemma InsertedCell(d: Display, m: nat, x: nat, y: nat)
    requires Fits(d) && x < d.cols && y < d.rows && m <= d.cols - Col(d)
    ensures |CharsInserted(d.screen, Col(d), d.y, d.cols, m, Blank(d))| == |d.screen|
    ensures Index(x, y, d.cols) < |d.screen|
    ensures m <= x ==> Index(x - m, y, d.cols) < |d.screen|
    ensures CharsInserted(d.screen, Col(d), d.y, d.cols, m, Blank(d))[Index(x, y, d.cols)] ==
            if y != d.y || x < Col(d) then d.screen[Index(x, y, d.cols)]
            else if x < Col(d) + m then Blank(d) else d.screen[Index(x - m, y, d.cols)]
  {
    IndexBound(x, y, d.cols, d.rows);
    if m <= x {
      IndexBound(x - m, y, d.cols, d.rows);
      SameRow(x - m, y, m, d.cols);
    }
    SameRow(Col(d), d.y, m, d.cols);
    SameRow(0, d.y, d.cols, d.cols);
    RowRange(x, y, Col(d) + m, d.cols, d.y, d.cols);
    RowRange(x, y, Col(d), Col(d) + m, d.y, d.cols);
    hide Index;
  }

  lemma DeletedCell(d: Display, m: nat, x: nat, y: nat)
    requires Fits(d) && x < d.cols && y < d.rows && m <= d.cols - Col(d)
    ensures |CharsDeleted(d.screen, Col(d), d.y, d.cols, m, Blank(d))| == |d.screen| && Index(x, y, d.cols) < |d.screen|
    ensures x + m < d.cols ==> Index(x + m, y, d.cols) < |d.screen|
    ensures CharsDeleted(d.screen, Col(d), d.y, d.cols, m, Blank(d))[Index(x, y, d.cols)] ==
            if y != d.y || x < Col(d) then d.screen[Index(x, y, d.cols)]
            else if x + m < d.cols then d.screen[Index(x + m, y, d.cols)] else Blank(d)
  {
    IndexBound(x, y, d.cols, d.rows);
    if x + m < d.cols {
      IndexBound(x + m, y, d.cols, d.rows);
      SameRow(x, y, m, d.cols);
    }
    SameRow(0, d.y, d.cols, d.cols);
    SameRow(d.cols - m, d.y, m, d.cols);
    RowRange(x, y, Col(d), d.cols - m, d.y, d.cols);
    RowRange(x, y, d.cols - m, d.cols, d.y, d.cols);
    hide Index;
  }

  lemma ClearedCell(d: Display, m: nat, x: nat, y: nat)
    requires Fits(d) && x < d.cols && y < d.rows && m <= d.cols - Col(d)
    ensures var i := Index(Col(d), d.y, d.cols);
            && Index(x, y, d.cols) < |d.screen|
            && Blanked(d.screen, i, i + m, Blank(d))[Index(x, y, d.cols)] ==
               if y == d.y && Col(d) <= x < Col(d) + m then Blank(d) else d.screen[Index(x, y, d.cols)]
  {
    IndexBound(x, y, d.cols, d.rows);
    SameRow(Col(d), d.y, m, d.cols);
    RowRange(x, y, Col(d), Col(d) + m, d.y, d.cols);
    hide Index;
  }

  lemma InsertedCells(d: Display, n: nat)
    requires Fits(d)
    ensures Inserted(d, InsertedChars(d, n), Fit(n, Col(d), d.cols))
  {
    hide Index;
    hide CharsInserted;
    var m := Fit(n, Col(d), d.cols);
    InsertedCell(d, m, 0, 0);
    forall x: nat, y: nat | x < d.cols && y < d.rows ensures CellInserted(d, InsertedChars(d, n), m, x, y) {
      InsertedCell(d, m, x, y);
    }
  }

  lemma DeletedCells(d: Display, n: nat)
    requires Fits(d)
    ensures Deleted(d, DeletedChars(d, n), Fit(n, Col(d), d.cols))
  {
    hide Index;
    hide CharsDeleted;
    var m := Fit(n, Col(d), d.cols);
    DeletedCell(d, m, 0, 0);
    forall x: nat, y: nat | x < d.cols && y < d.rows ensures CellDeleted(d, DeletedChars(d, n), m, x, y) {
      DeletedCell(d, m, x, y);
    }
  }

  lemma ClearedCells(d: Display, n: nat)
    requires Fits(d)
    ensures ClearedHere(d, ErasedChars(d, n), Fit(n, Col(d), d.cols))
  {
    hide Index;
    hide Blanked;
    var m := Fit(n, Col(d), d.cols);
    assert Col(MovedTo(d, Col(d), d.y)) == Col(d);
    forall x: nat, y: nat | x < d.cols && y < d.rows ensures CellCleared(d, ErasedChars(d, n), m, x, y) {
      ClearedCell(d, m, x, y);
    }
  }

  /** As many as the parameter says, but no more than the row has from the cursor on. */
  lemma FitIs(d: Display, v: nat, a: nat)
    requires Fits(d) && Small(d) && (a <= U32_MAX ==> v == a) && (a > U32_MAX ==> v > U32_MAX / 10)
    ensures Fit(v, Col(d), d.cols) == Min(a, d.cols - Col(d))
  {
  }

  /** ESC [ @ inserts blanks. */
  lemma InsertSequence(k: Tables, t: Term, ps: seq<seq<nat>>)
    requires Ground(t.s) && !t.s.decPrivate && Parameters(ps) && Fits(t.d) && Small(t.d)
    ensures var u := Run(k, t, Sequence(ps, 64));
            && Ground(u.s) && Inserted(t.d, u.d, Min(Arg(ps, 0, 1), t.d.cols - Col(t.d)))
            && u.d.x == Col(t.d) && u.d.y == t.d.y
  {
    hide Run;
    hide Ground;
    hide Complete;
    hide Ended;
    hide Joined;
    hide Decimal;
    hide ValueAt;
    hide Inserted;
    hide CharsInserted;
    Performs(k, t, ps, 64);
    ArgIs(t.s, 2 + |Joined(ps)|, ps, 64, 0);
    var v := ValueAt(Complete(t.s, 2 + |Joined(ps)|, ps, 64), 0);
    FitIs(t.d, v, Arg(ps, 0, 1));
    InsertedCells(t.d, v);
  }

  /** ESC [ X clears cells. */
  lemma ClearSequence(k: Tables, t: Term, ps: seq<seq<nat>>)
    requires Ground(t.s) && !t.s.decPrivate && Parameters(ps) && Fits(t.d) && Small(t.d)
    ensures var u := Run(k, t, Sequence(ps, 88));
            && Ground(u.s) && ClearedHere(t.d, u.d, Min(Arg(ps, 0, 1), t.d.cols - Col(t.d)))
            && u.d.x == Col(t.d) && u.d.y == t.d.y
  {
    hide Run;
    hide Ground;
    hide Complete;
    hide Ended;
    hide Joined;
    hide Decimal;
    hide ValueAt;
    hide ClearedHere;
    hide Blanked;
    Performs(k, t, ps, 88);
    ArgIs(t.s, 2 + |Joined(ps)|, ps, 88, 0);
    var v := ValueAt(Complete(t.s, 2 + |Joined(ps)|, ps, 88), 0);
    FitIs(t.d, v, Arg(ps, 0, 1));
    ClearedCells(t.d, v);
  }

  /** ESC [ P deletes cells. */
  lemma DeleteSequence(k: Tables, t: Term, ps: seq<seq<nat>>)
    requires Ground(t.s) && !t.s.decPrivate && Parameters(ps) && Fits(t.d) && Small(t.d)
    ensures var u := Run(k, t, Sequence(ps, 80));
            && Ground(u.s) && Deleted(t.d, u.d, Min(Arg(ps, 0, 1), t.d.cols - Col(t.d)))
            && u.d.x == Col(t.d) && u.d.y == t.d.y
  {
    hide Run;
    hide Ground;
    hide Complete;
    hide Joined;
    hide Decimal;
    hide ValueAt;
    hide Deleted;
    hide CharsDeleted;
    hide PrivateSet;
    hide Finished;
    hide FirstFits;
    hide Ended;
    SequenceRuns(k, t, ps, 80);
    EndsGround(t.s, 2 + |Joined(ps)|, ps, 80);
    ArgIs(t.s, 2 + |Joined(ps)|, ps, 80, 0);
    var s := Complete(t.s, 2 + |Joined(ps)|, ps, 80);
    FitIs(t.d, ValueAt(s, 0), Arg(ps, 0, 1));
    DeletesOnly(k, s, t.d);
    DeletedCells(t.d, ValueAt(s, 0));
  }

  lemma DeletesOnly(k: Tables, s: Context, d: Display)
    ensures Finished(k, Term(s, d), 80) ==
            Term(Ended(FirstFits(s, Col(d), d.cols)), DeletedChars(d, ValueAt(s, 0)))
    ensures Ground(Ended(s)) ==> Ground(Ended(FirstFits(s, Col(d), d.cols)))
  {
    FirstEnds(s, Col(d), d.cols);
    hide Ended;
    hide FirstFits;
    hide ValueAt;
    hide DeletedChars;
    hide Performed;
    hide Ground;
    ShiftsAnyway(d, true, false, 0, ValueAt(s, 0));
    ShiftsAnyway(d, d.wrap, d.scroll, 0, ValueAt(s, 0));
  }

  lemma FirstEnds(s: Context, x: nat, cols: nat)
    ensures Ground(Ended(s)) ==> Ground(Ended(FirstFits(s, x, cols)))
  {
    hide *;
    EndedGround(s);
    EndedGround(FirstFits(s, x, cols));
    FirstSame(s, x, cols);
  }

  lemma FirstSame(s: Context, x: nat, cols: nat)
    ensures var r := FirstFits(s, x, cols);
            r.osc == s.osc && r.discardNext == s.discardNext && r.unicodeRemaining == s.unicodeRemaining
              && r.gSelect == s.gSelect
  {
    hide KeepsBounds;
    hide Fit;
  }

  lemma EndedGround(s: Context)
    ensures Ground(Ended(s)) <==> !s.osc && !s.discardNext && s.unicodeRemaining == 0 && s.gSelect == 0
  {
    hide KeepsBounds;
  }

  // ---------- moving rows ----------

  lemma PerformedScroll(d: Display, s: Context, c: nat)
    requires c == 83 || c == 84 || c == 77 || c == 76
    ensures Performed(d, s, c) == ScrolledLines(d, c, ValueAt(s, 0))
  {
    hide ScrolledLines;
    hide ValueAt;
  }

  /** ESC [ S and T move everything between the margins up and down, ESC [ M and L the rows from the cursor's to the
      bottom margin, if it is between the margins. */
  lemma ScrollSequence(k: Tables, t: Term, ps: seq<seq<nat>>, c: nat)
    requires Ground(t.s) && !t.s.decPrivate && Parameters(ps) && Fits(t.d) && Small(t.d)
    requires c == 83 || c == 84 || c == 77 || c == 76
    ensures var u := Run(k, t, Sequence(ps, c));
            var first := if c == 83 || c == 84 then t.d.top else t.d.y;
            var n := Min(Arg(ps, 0, 1), t.d.bottom - first);
            && Ground(u.s) && u.d.x == t.d.x && u.d.y == t.d.y
            && if !(t.d.top <= first < t.d.bottom) then u.d == t.d
               else if c == 83 || c == 77 then RowsUp(t.d, u.d, first, t.d.bottom, n)
               else RowsDown(t.d, u.d, first, t.d.bottom, n)
  {
    hide Run;
    hide Ground;
    hide Complete;
    hide Ended;
    hide Joined;
    hide Decimal;
    hide ValueAt;
    hide RowsUp;
    hide RowsDown;
    hide Scrolled;
    hide ScrolledLines;
    hide Performed;
    hide Blank;
    Performs(k, t, ps, c);
    ArgIs(t.s, 2 + |Joined(ps)|, ps, c, 0);
    PerformedScroll(t.d, Complete(t.s, 2 + |Joined(ps)|, ps, c), c);
    var v := ValueAt(Complete(t.s, 2 + |Joined(ps)|, ps, c), 0);
    var first := if c == 83 || c == 84 then t.d.top else t.d.y;
    ScrolledLinesIs(t.d, c, v);
    if t.d.top <= first < t.d.bottom {
      ScrolledRows(t.d, ScrolledLines(t.d, c, v), first, t.d.bottom, c == 83 || c == 77, Min(v, t.d.bottom - first));
    }
  }

  // ---------- characters ----------

  /** A character goes to the next row first if the row is full, wrapping is on, and the row is not the last between the
      margins or scrolling is on. */
  predicate Wraps(d: Display) { d.x == d.cols && d.wrap && (d.y < d.bottom - 1 || d.scroll) }

  /** Where the character goes. */
  function TypeColumn(d: Display): nat
    requires 0 < d.cols
  {
    if d.x < d.cols then d.x else if Wraps(d) then 0 else d.cols - 1
  }

  function TypeRow(d: Display): nat { if Wraps(d) && d.y != d.bottom - 1 && d.y < d.rows - 1 then d.y + 1 else d.y }

  ghost predicate CellTyped(d: Display, e: Display, insert: bool, c: nat, x: nat, y: nat)
    requires Fits(d) && OnlyCells(d, e) && x < d.cols && y < d.rows
  {
    At(e, x, y) ==
    if x == TypeColumn(d) && y == TypeRow(d) then LookOf(d.pen.(c := c))
    else if Wraps(d) && d.y == d.bottom - 1 then
      if d.top <= y && y + 1 < d.bottom then At(d, x, y + 1)
      else if y == d.bottom - 1 then Blank(d) else At(d, x, y)
    else if insert && y == d.y && d.x < x then At(d, x - 1, y)
    else At(d, x, y)
  }

  /** e is d with character c typed: it is in its place in the pen's colours, the cursor is behind it, and the other
      cells are as they were, but for a scroll or, in insert mode, the rest of the row pushed right. */
  ghost predicate TypedCells(d: Display, e: Display, insert: bool, c: nat) {
    && Fits(d) && OnlyCells(d, e) && e.x == TypeColumn(d) + 1 && e.y == TypeRow(d)
    && forall x: nat, y: nat :: x < d.cols && y < d.rows ==> CellTyped(d, e, insert, c, x, y)
  }

  lemma PutCell(s: seq<Look>, cols: nat, rows: nat, a: nat, b: nat, l: Look, x: nat, y: nat)
    requires |s| == rows * cols && a < cols && b < rows && x < cols && y < rows
    ensures |Framebuffer.Put(s, Index(a, b, cols), l)| == |s| && Index(x, y, cols) < |s|
    ensures Framebuffer.Put(s, Index(a, b, cols), l)[Index(x, y, cols)] ==
            if x == a && y == b then l else s[Index(x, y, cols)]
  {
    IndexBound(a, b, cols, rows);
    IndexBound(x, y, cols, rows);
    if Index(x, y, cols) == Index(a, b, cols) { IndexInjective(x, y, a, b, cols); }
  }

  /** Room made in insert mode: nothing moves for a full row. */
  lemma ShiftedCell(d: Display, insert: bool, x: nat, y: nat)
    requires Fits(d) && x < d.cols && y < d.rows
    ensures var e := Shifted(d, insert, 1);
            && |e.screen| == |d.screen| && e == d.(screen := e.screen) && Index(x, y, d.cols) < |d.screen|
            && (0 < x ==> Index(x - 1, y, d.cols) < |d.screen|)
            && e.screen[Index(x, y, d.cols)] == if insert && y == d.y && d.x < x then d.screen[Index(x - 1, y, d.cols)]
                                                else d.screen[Index(x, y, d.cols)]
  {
    IndexBound(x, y, d.cols, d.rows);
    if 0 < x {
      IndexBound(x - 1, y, d.cols, d.rows);
      SameRow(x - 1, y, 1, d.cols);
    }
    SameRow(0, d.y, d.cols, d.cols);
    RowRange(x, y, Col(d) + 1, d.cols, d.y, d.cols);
    hide Index;
  }

  /** The screen a character is put on. */
  ghost function TypeBase(d: Display): seq<Look> {
    if Wraps(d) && d.y == d.bottom - 1 then ScrolledUp(d.screen, d.cols, d.top, d.bottom, Blank(d)) else d.screen
  }

  lemma TypedIs(d: Display, c: nat)
    requires Fits(d)
    ensures Typed(d, c) == d.(screen := Framebuffer.Put(TypeBase(d), Index(TypeColumn(d), TypeRow(d), d.cols),
                                                        LookOf(d.pen.(c := c))),
                              x := TypeColumn(d) + 1, y := TypeRow(d))
    ensures |TypeBase(d)| == |d.screen| && TypeColumn(d) < d.cols && TypeRow(d) < d.rows
  {
    hide ScrolledUp;
    hide Framebuffer.Put;
    hide Index;
  }

  lemma SameType(d: Display, e: Display)
    requires Fits(d) && e == d.(screen := e.screen) && |e.screen| == |d.screen|
    ensures Fits(e) && TypeColumn(e) == TypeColumn(d) && TypeRow(e) == TypeRow(d) && Wraps(e) == Wraps(d)
      && Blank(e) == Blank(d)
  {
  }

  lemma TypedCell(d: Display, insert: bool, c: nat, x: nat, y: nat)
    requires Fits(d) && x < d.cols && y < d.rows && OnlyCells(d, Typed(Shifted(d, insert, 1), c))
    ensures CellTyped(d, Typed(Shifted(d, insert, 1), c), insert, c, x, y)
  {
    hide Index;
    hide ScrolledUp;
    hide Shifted;
    hide Typed;
    hide Framebuffer.Put;
    ShiftedCell(d, insert, x, y);
    var e := Shifted(d, insert, 1);
    SameType(d, e);
    TypedIs(e, c);
    PutCell(TypeBase(e), d.cols, d.rows, TypeColumn(d), TypeRow(d), LookOf(d.pen.(c := c)), x, y);
    if Wraps(d) && d.y == d.bottom - 1 {
      ScrolledUpCell(e.screen, d.cols, d.rows, d.top, d.bottom, Blank(d), x, y);
      if y + 1 < d.rows { ShiftedCell(d, insert, x, y + 1); }
    }
  }

  lemma TypesCells(d: Display, insert: bool, c: nat)
    requires Fits(d)
    ensures TypedCells(d, Typed(Shifted(d, insert, 1), c), insert, c)
  {
    hide Index;
    hide CellTyped;
    hide Typed;
    hide Shifted;
    ShiftedCell(d, insert, 0, 0);
    var e := Shifted(d, insert, 1);
    SameType(d, e);
    TypedIs(e, c);
    forall x: nat, y: nat | x < d.cols && y < d.rows
      ensures CellTyped(d, Typed(e, c), insert, c, x, y)
    {
      TypedCell(d, insert, c, x, y);
    }
  }

  /** A character with a glyph, in UTF-8, wherever the cursor is and whatever the modes. */
  lemma CharacterCells(k: Tables, t: Term, v: nat)
    requires Ground(t.s) && Fits(t.d) && Printable(v) && 0 <= GlyphFor(k, t.s, v)
    ensures var u := Run(k, t, Utf8(v));
            SameStyle(t.s, u.s) && TypedCells(t.d, u.d, t.s.insertMode, GlyphFor(k, t.s, v))
  {
    hide Run;
    hide TypedCells;
    hide Typed;
    hide Shifted;
    hide GlyphFor;
    hide Utf8;
    CharacterDrawn(k, t, v);
    TypesCells(t.d, t.s.insertMode, GlyphFor(k, t.s, v));
  }

  /** An ASCII character is itself while the set in use is ASCII, and in the special set what the table says. */
  lemma AsciiCells(k: Tables, t: Term, c: nat)
    requires Ground(t.s) && Fits(t.d) && 0x20 <= c <= 0x7e
    ensures var u := Run(k, t, [c]);
            var special := if t.s.currentCharset < |t.s.charsets| then t.s.charsets[t.s.currentCharset] == 1 else false;
            TypedCells(t.d, u.d, t.s.insertMode,
                       if special && k.specialOf(c).Some? then k.specialOf(c).value else c)
  {
    hide Run;
    hide TypedCells;
    CharacterCells(k, t, c);
  }

  /** A character without a glyph shows as a mark and blanks, as many cells as it is wide, and not at all if it has no
      width. */
  lemma ReplacementCells(k: Tables, t: Term, v: nat)
    requires Ground(t.s) && Fits(t.d) && !t.s.insertMode && 0x80 <= v && Printable(v) && k.glyphOf(v) < 0
    requires k.widthOf(v) <= t.d.cols - t.d.x
    ensures Index(t.d.x, t.d.y, t.d.cols) + Max(k.widthOf(v), 0) <= |t.d.screen|
    ensures var u, w := Run(k, t, Utf8(v)), k.widthOf(v);
            && Ground(u.s)
            && u.d == if w <= 0 then t.d
                      else Wrote(t.d, [LookOf(t.d.pen.(c := 0xfe))] + seq(w - 1, _ => Blank(t.d)))
  {
    hide Run;
    hide Typed;
    hide Wrote;
    hide Ground;
    hide Encoded;
    RowInside(t.d.y, t.d.cols, t.d.rows);
    ShowsEncoded(k, t, v);
    var w := k.widthOf(v);
    var s := WithPoint(t.s, 0, v);
    GroundShown(t.s, v);
    hide WithPoint;
    hide Graphic;
    if w > 0 {
      NoShift(t.d, w);
      FirstWritten(t.d, 0xfe);
      BlanksTyped(t.d, w - 1);
    }
  }

  lemma GroundShown(s: Context, v: nat)
    ensures var r := WithPoint(s, 0, v);
            r.insertMode == s.insertMode && (Ground(s) ==> Ground(r) && Ground(Graphic(r, 0xfe)))
  {
  }

  lemma FirstWritten(d: Display, c: nat)
    requires Fits(d) && d.x < d.cols
    ensures Index(d.x, d.y, d.cols) + 1 <= |d.screen|
    ensures Typed(d, c) == Wrote(d, [LookOf(d.pen.(c := c))])
  {
    IndexBound(d.x, d.y, d.cols, d.rows);
    hide Index;
    TypedIs(d, c);
    var i := Index(d.x, d.y, d.cols);
    assert Overwritten(d.screen, i, [LookOf(d.pen.(c := c))]) == d.screen[i := LookOf(d.pen.(c := c))];
  }

  lemma {:induction false} BlanksTyped(d: Display, n: nat)
    requires Fits(d) && d.x + n < d.cols
    ensures Index(d.x, d.y, d.cols) + n + 1 <= |d.screen|
    ensures TypedTimes(Typed(d, 0xfe), 32, n) ==
            Wrote(d, [LookOf(d.pen.(c := 0xfe))] + seq(n, _ => Blank(d)))
  {
    hide Typed;
    hide Wrote;
    RowInside(d.y, d.cols, d.rows);
    var mark := [LookOf(d.pen.(c := 0xfe))];
    if n == 0 {
      FirstWritten(d, 0xfe);
      assert mark + seq(0, _ => Blank(d)) == mark;
    } else {
      BlanksTyped(d, n - 1);
      WroteMore(d, mark + seq(n - 1, _ => Blank(d)), 32);
      assert mark + seq(n - 1, _ => Blank(d)) + [Blank(d)] == mark + seq(n, _ => Blank(d));
    }
  }

  /** The same byte over and over. */
  function Times(c: nat, n: nat): seq<nat> { seq(n, _ => c) }

  /** n characters typed one after the other. */
  ghost function TypedOver(d: Display, insert: bool, c: nat, n: nat): Display {
    if n == 0 then d else Typed(Shifted(TypedOver(d, insert, c, n - 1), insert, 1), c)
  }

  lemma {:induction false} TypedAgain(k: Tables, t: Term, c: nat, n: nat)
    requires Ground(t.s) && 0x20 <= c <= 0x7e
    ensures var u := Run(k, t, Times(c, n));
            && SameStyle(t.s, u.s) && u.s.decPrivate == t.s.decPrivate
            && u.d == TypedOver(t.d, t.s.insertMode, CharOf(k, t.s, c), n)
            && (0 < n ==> u.s.lastWasGraphic && u.s.lastPrinted == CharOf(k, t.s, c))
  {
    hide Step;
    hide Typed;
    hide Shifted;
    hide Graphic;
    hide CharOf;
    if n > 0 {
      TypedAgain(k, t, c, n - 1);
      var r := Run(k, t, Times(c, n - 1));
      assert Times(c, n)[..n - 1] == Times(c, n - 1);
      PlainChar(k, r, c);
      StyleKept(r.s, 0, 0, CharOf(k, r.s, c));
      GraphicNow(r.s, CharOf(k, r.s, c));
      SameChar(k, t.s, r.s, c);
      hide Run;
    }
  }

  lemma GraphicNow(s: Context, c: nat)
    ensures var g := Graphic(s, c); g.lastWasGraphic && g.lastPrinted == c && g.decPrivate == s.decPrivate
  {
  }

  lemma SameChar(k: Tables, s: Context, r: Context, c: nat)
    requires CharsetOf(r) == CharsetOf(s)
    ensures CharOf(k, r, c) == CharOf(k, s, c)
  {
  }

  /** ESC [ n b after a character: n more of it, at most a row's length, just as if it had been sent as often. */
  lemma RepeatSequence(k: Tables, t: Term, c: nat, ps: seq<seq<nat>>)
    requires Ground(t.s) && !t.s.decPrivate && 0x20 <= c <= 0x7e && Parameters(ps) && Small(t.d)
    ensures var u := Run(k, t, [c] + Sequence(ps, 98));
            Ground(u.s) && u.d == Run(k, t, Times(c, 1 + Min(Arg(ps, 0, 1), t.d.cols))).d
  {
    hide Run;
    hide Typed;
    hide Shifted;
    hide Complete;
    hide Ended;
    hide Joined;
    hide Decimal;
    hide ValueAt;
    hide Finished;
    hide PrivateSet;
    hide CharOf;
    var n := Min(Arg(ps, 0, 1), t.d.cols);
    var o := 2 + |Joined(ps)|;
    assert Times(c, 1) == [c];
    TypedAgain(k, t, c, 1);
    TypedAgain(k, t, c, 1 + n);
    var r := Run(k, t, [c]);
    RunBoth(k, t, [c], Sequence(ps, 98));
    SequenceRuns(k, r, ps, 98);
    EndsGround(r.s, o, ps, 98);
    ArgIs(r.s, o, ps, 98, 0);
    SameCursor(r.s, o, ps, 98);
    var s := Complete(r.s, o, ps, 98);
    TypedSize(t.d, t.s.insertMode, CharOf(k, t.s, c), 1);
    RepeatsOnly(k, s, r.d);
    RepeatedIs(r.d, s, n);
    TypedFurther(t.d, t.s.insertMode, s.lastPrinted, 1, n);
  }

  lemma {:induction false} TypedSize(d: Display, insert: bool, c: nat, n: nat)
    ensures var e := TypedOver(d, insert, c, n);
            e.cols == d.cols && e.rows == d.rows && e.wrap == d.wrap && e.scroll == d.scroll
  {
    if n > 0 { TypedSize(d, insert, c, n - 1); }
  }

  lemma {:induction false} TypedFurther(d: Display, insert: bool, c: nat, m: nat, n: nat)
    ensures TypedOver(TypedOver(d, insert, c, m), insert, c, n) == TypedOver(d, insert, c, m + n)
  {
    hide Typed;
    hide Shifted;
    if n > 0 { TypedFurther(d, insert, c, m, n - 1); }
  }

  lemma {:induction false} RepeatedIs(d: Display, s: Context, n: nat)
    ensures Repeated(d, s, n) == TypedOver(d, s.insertMode, s.lastPrinted, n)
  {
    hide Typed;
    hide Shifted;
    if n > 0 { RepeatedIs(d, s, n - 1); }
  }

  lemma RepeatsOnly(k: Tables, s: Context, d: Display)
    requires s.lastWasGraphic
    ensures Finished(k, Term(s, d), 98) == Term(Ended(s), Repeated(d, s, Least(ValueAt(s, 0), d.cols)))
  {
    hide Ended;
    hide Repeated;
    hide ValueAt;
    var n := Least(ValueAt(s, 0), d.cols);
    RepeatedIs(d, s, n);
    TypedSize(d, s.insertMode, s.lastPrinted, n);
    assert d.(wrap := true, scroll := false).(wrap := d.wrap, scroll := d.scroll) == d;
  }

  // ---------- modes ----------

  /** ESC [ 4 h and l set and reset insert mode, and show nothing. */
  lemma InsertModeSequence(k: Tables, t: Term, ds: seq<nat>, on: bool)
    requires Ground(t.s) && !t.s.decPrivate && Digits(ds) && Decimal(ds) == 4
    ensures var u := Run(k, t, Sequence([ds], if on then 104 else 108));
            Ground(u.s) && u.s.insertMode == on && u.d == t.d
  {
    hide Run;
    hide Complete;
    hide Ended;
    hide Joined;
    hide Parameter;
    hide Finished;
    hide PrivateSet;
    hide ValueAt;
    hide WithInsert;
    var c := if on then 104 else 108;
    NotEmpty(ds);
    hide Decimal;
    SequenceRuns(k, t, [ds], c);
    EndsGround(t.s, 2 + |Joined([ds])|, [ds], c);
    ArgIs(t.s, 2 + |Joined([ds])|, [ds], c, 0);
    InsertsOnly(k, Complete(t.s, 2 + |Joined([ds])|, [ds], c), t.d, on);
  }

  lemma NotEmpty(ds: seq<nat>)
    requires Decimal(ds) != 0
    ensures ds != []
  {
  }

  lemma InsertsOnly(k: Tables, s: Context, d: Display, on: bool)
    requires 0 < s.valuesCount && ValueAt(s, 0) == 4
    ensures Finished(k, Term(s, d), if on then 104 else 108) == Term(Ended(WithInsert(s, on)), d)
    ensures var r := Ended(WithInsert(s, on)); r.insertMode == on && (Ground(Ended(s)) ==> Ground(r))
  {
    hide ValueAt;
    hide KeepsBounds;
  }

  /** ESC [ ?, one parameter, and h or l. */
  function Private(ds: seq<nat>, on: bool): seq<nat> { [0x1b, 91, 63] + Joined([ds]) + [if on then 104 else 108] }

  /** One private mode is set or reset, and the sequence ends. */
  lemma OneMode(k: Tables, t: Term, ds: seq<nat>, on: bool)
    requires Ground(t.s) && Digits(ds) && 0 < Decimal(ds) <= U32_MAX
    ensures var s := NotPrivate(Complete(Privately(t.s), 3 + |Joined([ds])|, [ds], if on then 104 else 108));
            var r := ModeSet(Term(s, t.d), Decimal(ds), on);
            Run(k, t, Private(ds, on)) == Term(Ended(r.s), r.d)
  {
    hide Run;
    hide Complete;
    hide Ended;
    hide Joined;
    hide Parameter;
    hide NotPrivate;
    hide Privately;
    hide ModeSet;
    NotEmpty(ds);
    hide Decimal;
    var c := if on then 104 else 108;
    PrivateRuns(k, t, [ds], c);
    ParameterExact(ds);
    StillGround(t.s);
    EndsGround(Privately(t.s), 3 + |Joined([ds])|, [ds], c);
    var s := Complete(Privately(t.s), 3 + |Joined([ds])|, [ds], c);
    assert Given(s) == [Decimal(ds)];
    OneOf(Term(NotPrivate(s), t.d), Decimal(ds), on);
  }

  lemma StillGround(s: Context)
    requires Ground(s)
    ensures Ground(Privately(s))
  {
  }

  lemma OneOf(t: Term, mode: nat, on: bool)
    ensures ModesSet(t, [mode], 1, on) == ModeSet(t, mode, on)
  {
    hide ModeSet;
    assert ModesSet(t, [mode], 0, on) == t;
  }

  /** The context a private sequence with one parameter leaves. */
  lemma ModeContext(s: Context, ds: seq<nat>, on: bool)
    requires Ground(s) && Digits(ds)
    ensures var r := NotPrivate(Complete(Privately(s), 3 + |Joined([ds])|, [ds], if on then 104 else 108));
            && Ground(Ended(r)) && r.saved == s.saved && SavedOf(r) == SavedOf(s)
            && Ground(Ended(WithOrigin(r, on))) && Ended(WithOrigin(r, on)).originMode == on
  {
    hide ValuesOf;
    hide WithDefaults;
    hide Joined;
    hide KeepsBounds;
  }

  /** Mode 6: rows count from the top margin, or from the top; the cursor goes to the first. */
  lemma OriginMode(k: Tables, t: Term, ds: seq<nat>, on: bool)
    requires Ground(t.s) && Digits(ds) && Decimal(ds) == 6
    ensures var u := Run(k, t, Private(ds, on));
            Ground(u.s) && u.s.originMode == on && OnlyMoved(t.d, u.d, 0, if on then t.d.top else 0)
  {
    hide Run;
    hide Complete;
    hide Ended;
    hide Joined;
    hide Ground;
    hide NotPrivate;
    hide Privately;
    hide WithOrigin;
    hide Decimal;
    OneMode(k, t, ds, on);
    ModeContext(t.s, ds, on);
  }

  /** Mode 7: wrapping on or off. */
  lemma WrapMode(k: Tables, t: Term, ds: seq<nat>, on: bool)
    requires Ground(t.s) && Digits(ds) && Decimal(ds) == 7
    ensures var u := Run(k, t, Private(ds, on)); Ground(u.s) && u.d == t.d.(wrap := on)
  {
    hide Run;
    hide Complete;
    hide Ended;
    hide Joined;
    hide Ground;
    hide NotPrivate;
    hide Privately;
    hide WithOrigin;
    hide Decimal;
    OneMode(k, t, ds, on);
    ModeContext(t.s, ds, on);
  }

  /** Mode 1049: set, it saves as ESC 7 does, clears the screen and goes home; reset, it clears the screen and brings
      back what was saved. */
  lemma AlternateMode(k: Tables, t: Term, ds: seq<nat>, on: bool)
    requires Ground(t.s) && Digits(ds) && Decimal(ds) == 1049 && |t.d.screen| == t.d.rows * t.d.cols
    ensures var u := Run(k, t, Private(ds, on));
            && Ground(u.s) && |u.d.screen| == |t.d.screen|
            && (forall i :: 0 <= i < |u.d.screen| ==> u.d.screen[i] == Blank(t.d))
            && if on then
                 && u.s.saved == SavedOf(t.s)
                 && u.d == t.d.(screen := u.d.screen, x := 0, y := 0, savedPen := t.d.pen, savedX := t.d.x,
                                savedY := t.d.y)
               else
                 && SavedOf(u.s) == t.s.saved
                 && u.d == t.d.(screen := u.d.screen, x := t.d.savedX, y := t.d.savedY, pen := t.d.savedPen)
  {
    hide Run;
    hide Complete;
    hide Ended;
    hide Joined;
    hide Ground;
    hide NotPrivate;
    hide Privately;
    hide WithOrigin;
    hide Decimal;
    hide SavedContext;
    hide RestoredContext;
    hide SavedOf;
    OneMode(k, t, ds, on);
    ModeContext(t.s, ds, on);
    var s := NotPrivate(Complete(Privately(t.s), 3 + |Joined([ds])|, [ds], if on then 104 else 108));
    SavingContext(s);
  }

  lemma SavingContext(s: Context)
    ensures Ended(SavedContext(s)).saved == SavedOf(s) && SavedOf(Ended(RestoredContext(s))) == s.saved
    ensures Ground(Ended(s)) ==> Ground(Ended(SavedContext(s))) && Ground(Ended(RestoredContext(s)))
  {
    hide KeepsBounds;
  }

  // ---------- what is not understood ----------

  /** A final byte without a function ends its sequence and does nothing, and so does a repetition of nothing. */
  lemma UnknownSequence(k: Tables, t: Term, ps: seq<seq<nat>>, c: nat)
    requires Ground(t.s) && !t.s.decPrivate && Parameters(ps) && 0x40 <= c <= 0x7e && (Joined(ps) != [] || c != 91)
    requires !Known(c) || (c == 98 && !t.s.lastWasGraphic)
    ensures var u := Run(k, t, Sequence(ps, c)); Ground(u.s) && u.d == t.d
  {
    hide Run;
    hide Complete;
    hide Ended;
    hide Joined;
    hide PrivateSet;
    hide Finished;
    SequenceRuns(k, t, ps, c);
    EndsGround(t.s, 2 + |Joined(ps)|, ps, c);
    SameCursor(t.s, 2 + |Joined(ps)|, ps, c);
    EndsOnly(k, Complete(t.s, 2 + |Joined(ps)|, ps, c), t.d, c);
  }

  lemma EndsOnly(k: Tables, s: Context, d: Display, c: nat)
    requires 0x40 <= c <= 0x7e && (!Known(c) || (c == 98 && !s.lastWasGraphic))
    ensures Finished(k, Term(s, d), c) == Term(Ended(s), d)
  {
    hide Ended;
    hide Performed;
    hide RenditionSet;
    hide DeletedChars;
    hide Repeated;
  }

  /** Inside a sequence that is not understood. */
  predicate Skipping(s: Context) {
    && s.escape && s.controlSequence && s.csiUnhandled && !s.osc && !s.discardNext && !s.decPrivate
    && s.unicodeRemaining == 0 && s.gSelect == 0 && 2 <= s.escapeOffset
  }

  lemma OffsetSkips(s: Context, n: nat)
    requires Skipping(s) && 2 <= n
    ensures Skipping(WithOffset(s, n)) && WithOffset(s, n).escapeOffset == n
  {
    hide KeepsBounds;
  }

  lemma ScratchSkips(s: Context, c: nat)
    requires Skipping(s)
    ensures Skipping(ValueEnded(s)) && Skipping(Defaults(s, c))
  {
    hide KeepsBounds;
    hide WithDefaults;
  }

  lemma EmptySkips(s: Context)
    requires Skipping(s)
    ensures Skipping(EmptyAdded(s))
  {
    hide KeepsBounds;
  }

  lemma DigitSkips(s: Context, digit: nat)
    requires Skipping(s) && digit < 10
    ensures Skipping(DigitAdded(s, digit))
  {
    hide KeepsBounds;
    hide AddDigit;
  }

  lemma FinalSkips(s: Context, c: nat)
    requires Skipping(s) && 0x20 <= c <= 0x7e
    ensures if c < 0x40 then Skipped(s, c) == s else Ground(Skipped(s, c))
  {
    hide KeepsBounds;
  }

  lemma SkippingStep(k: Tables, t: Term, c: nat)
    requires Skipping(t.s) && 0x20 <= c <= 0x7e
    ensures var u := Step(k, t, c); u.d == t.d && if c < 0x40 then Skipping(u.s) else Ground(u.s)
  {
    hide Skipping;
    hide Ground;
    hide Step;
    hide ValueEnded;
    hide EmptyAdded;
    hide DigitAdded;
    hide Defaults;
    hide Skipped;
    hide WithOffset;
    hide Finished;
    hide PrivateSet;
    SkippingIs(t.s);
    AfterEscape(k, t, c);
    var s := WithOffset(t.s, t.s.escapeOffset + 1);
    OffsetSkips(t.s, t.s.escapeOffset + 1);
    SkippingIs(s);
    ScratchSkips(s, c);
    EmptySkips(s);
    if 48 <= c <= 57 {
      DigitSkips(s, c - 48);
    } else if c != 59 {
      var r := if s.rrr then ValueEnded(s) else s;
      SkippingIs(r);
      ScratchSkips(r, c);
      FinalSkips(Defaults(r, c), c);
    }
  }

  lemma SkippingIs(s: Context)
    requires Skipping(s)
    ensures s.escape && s.controlSequence && s.csiUnhandled && !s.osc && !s.discardNext && !s.decPrivate
    ensures 2 <= s.escapeOffset
  {
  }

  lemma {:induction false} SkippingRuns(k: Tables, t: Term, mid: seq<nat>)
    requires Skipping(t.s) && forall i :: 0 <= i < |mid| ==> 0x20 <= mid[i] < 0x40
    ensures var u := Run(k, t, mid); Skipping(u.s) && u.d == t.d
  {
    hide Skipping;
    hide Step;
    if mid != [] {
      var n := |mid| - 1;
      SkippingRuns(k, t, mid[..n]);
      SkippingStep(k, Run(k, t, mid[..n]), mid[n]);
    }
  }

  /** A sequence with intermediate bytes is skipped up to its final byte, and does nothing. */
  lemma SkippedSequence(k: Tables, t: Term, ps: seq<seq<nat>>, i: nat, mid: seq<nat>, c: nat)
    requires Ground(t.s) && !t.s.decPrivate && Parameters(ps) && 0x20 <= i < 0x30 && 0x40 <= c <= 0x7e
    requires forall j :: 0 <= j < |mid| ==> 0x20 <= mid[j] < 0x40
    ensures var u := Run(k, t, [0x1b, 91] + Joined(ps) + [i] + mid + [c]); Ground(u.s) && u.d == t.d
  {
    hide Step;
    hide Run;
    hide Skipping;
    hide Ground;
    hide Within;
    hide Joined;
    var open := [0x1b, 91];
    GroundIs(t.s);
    SequenceOpens(k, t);
    ParametersWithin(k, t.s, t.d, 1, ps);
    var w := Term(Within(t.s, 1 + |Joined(ps)|, ValuesOf(ps), |ps| - 1, ps[|ps| - 1] != []), t.d);
    RunBoth(k, t, open, Joined(ps));
    RunBoth(k, t, open + Joined(ps), [i]);
    RunOne(k, w, i);
    StartsSkipping(k, t.s, t.d, 1 + |Joined(ps)|, ValuesOf(ps), |ps| - 1, ps[|ps| - 1] != [], i);
    var v := Step(k, w, i);
    RunBoth(k, t, open + Joined(ps) + [i], mid);
    SkippingRuns(k, v, mid);
    RunBoth(k, t, open + Joined(ps) + [i] + mid, [c]);
    RunOne(k, Run(k, v, mid), c);
    SkippingStep(k, Run(k, v, mid), c);
  }

  lemma GroundIs(s: Context)
    requires Ground(s)
    ensures !s.osc && !s.discardNext && s.unicodeRemaining == 0 && s.gSelect == 0
  {
  }

  lemma StartsSkipping(k: Tables, s: Context, d: Display, o: nat, values: seq<nat>, n: nat, digits: bool, i: nat)
    requires Ground(s) && !s.decPrivate && 0x20 <= i < 0x30 && 1 <= o
    ensures var u := Step(k, Term(Within(s, o, values, n, digits), d), i); Skipping(u.s) && u.d == d
  {
    hide Step;
    hide Within;
    hide ValueEnded;
    hide EmptyAdded;
    hide DigitAdded;
    hide Defaults;
    hide PrivateSet;
    hide Skipped;
    hide Unknown;
    hide Skipping;
    hide Finished;
    hide Ground;
    WithinStep(k, s, d, o, values, n, digits, i) by { GroundIs(s); }
    WithinIs(s, o + 1, values, n, digits);
    WithinIs(s, o + 1, values, n + 1, false);
    if digits { WithinCounts(s, o + 1, values, n, digits); }
    var m := if digits then n + 1 else n;
    BecomesSkipping(s, o + 1, values, m, i);
    NotFinished(k, Defaults(Within(s, o + 1, values, m, false), i), d, i);
  }

  lemma NotFinished(k: Tables, s: Context, d: Display, i: nat)
    requires 0x20 <= i < 0x30
    ensures Finished(k, Term(s, d), i) == Term(Unknown(s), d)
  {
    hide Unknown;
    hide Performed;
    hide RenditionSet;
    hide DeletedChars;
    hide Repeated;
  }

  lemma BecomesSkipping(s: Context, o: nat, values: seq<nat>, n: nat, c: nat)
    requires Ground(s) && !s.decPrivate && 2 <= o
    ensures var r := Defaults(Within(s, o, values, n, false), c);
            !r.decPrivate && !r.csiUnhandled && Skipping(Unknown(r))
  {
    hide KeepsBounds;
    hide WithDefaults;
  }

  // ---------- what is broken off ----------

  /** ESC in the middle of a sequence drops it, and a new one opens as if nothing had come before. */
  lemma EscapeRestarts(k: Tables, t: Term, ps: seq<seq<nat>>)
    requires Ground(t.s) && !t.s.decPrivate && Parameters(ps)
    ensures Run(k, t, [0x1b, 91] + Joined(ps) + [0x1b, 91]) == Run(k, t, [0x1b, 91])
  {
    hide Step;
    hide Run;
    hide Ground;
    hide Within;
    hide Joined;
    var open := [0x1b, 91];
    GroundIs(t.s);
    SequenceOpens(k, t);
    ParametersWithin(k, t.s, t.d, 1, ps);
    var digits := ps[|ps| - 1] != [];
    var w := Term(Within(t.s, 1 + |Joined(ps)|, ValuesOf(ps), |ps| - 1, digits), t.d);
    RunBoth(k, t, open, Joined(ps));
    RunBoth(k, t, open + Joined(ps), [0x1b, 91]);
    assert [0x1b, 91] == [0x1b] + [91];
    RunBoth(k, w, [0x1b], [91]);
    RunOne(k, w, 0x1b);
    Restarts(k, t.s, t.d, 1 + |Joined(ps)|, ValuesOf(ps), |ps| - 1, digits);
    RunOne(k, Step(k, w, 0x1b), 91);
  }

  lemma Restarts(k: Tables, s: Context, d: Display, o: nat, values: seq<nat>, n: nat, digits: bool)
    requires Ground(s) && !s.decPrivate
    ensures var u := Step(k, Term(Within(s, o, values, n, digits), d), 0x1b);
            Step(k, u, 91) == Term(Within(s, 1, Zeros(), 0, false), d)
  {
    hide Step;
    hide Within;
    hide ValueEnded;
    hide EmptyAdded;
    hide DigitAdded;
    hide Defaults;
    hide PrivateSet;
    hide Skipped;
    hide Restarted;
    hide Function;
    hide SequenceOpened;
    hide WithOffset;
    hide ShortEscaped;
    WithinStep(k, s, d, o, values, n, digits, 0x1b);
    WithinIs(s, o + 1, values, n, digits);
    WithinIs(s, o + 1, values, n + 1, false);
    if digits { WithinCounts(s, o + 1, values, n, digits); }
    var m := if digits then n + 1 else n;
    var r := Restarted(Defaults(Within(s, o + 1, values, m, false), 0x1b));
    RestartIs(s, o + 1, values, m);
    AfterEscape(k, Term(r, d), 91);
    OffsetOnly(r, 1);
  }

  lemma RestartIs(s: Context, o: nat, values: seq<nat>, n: nat)
    requires Ground(s) && !s.decPrivate
    ensures var w := Defaults(Within(s, o, values, n, false), 0x1b);
            var r := Restarted(w);
            && !w.decPrivate && !w.csiUnhandled && r.escape && !r.osc && !r.discardNext && !r.controlSequence
            && r.escapeOffset == 0 && SequenceOpened(WithOffset(r, 1)) == Within(s, 1, Zeros(), 0, false)
  {
    hide KeepsBounds;
    hide WithDefaults;
  }

  /** A UTF-8 sequence that an ASCII character breaks off shows as a mark, and then the character is typed. */
  lemma BrokenCells(k: Tables, t: Term, bytes: seq<nat>, c: nat) returns (e: Display)
    requires Ground(t.s) && Fits(t.d) && Tail(bytes) && Decode(bytes).Some? && Decode(bytes).value.Pending?
    requires 0 < Decode(bytes).value.remaining && Decode(bytes).value.point <= 0x10ffff && 0x20 <= c <= 0x7e
    ensures var u := Run(k, t, bytes + [c]);
            && Ground(u.s) && TypedCells(t.d, e, t.s.insertMode, 0xfe)
            && TypedCells(e, u.d, t.s.insertMode, CharOf(k, t.s, c))
  {
    hide Run;
    hide Step;
    hide Typed;
    hide Shifted;
    hide CharOf;
    hide TypedCells;
    hide WithPoint;
    hide Ground;
    hide Decode;
    var u := Decode(bytes).value;
    PendingRuns(k, t, bytes);
    RunBoth(k, t, bytes, [c]);
    var w := Term(WithPoint(t.s, u.remaining, u.point), t.d);
    RunOne(k, w, c);
    e := Typed(Shifted(t.d, t.s.insertMode, 1), 0xfe);
    BrokenStep(k, t, u.remaining, u.point, c);
    TypesCells(t.d, t.s.insertMode, 0xfe);
    StillFits(t.d, e, t.s.insertMode, 0xfe);
    TypesCells(e, t.s.insertMode, CharOf(k, t.s, c));
  }

  lemma StillFits(d: Display, e: Display, insert: bool, c: nat)
    requires TypedCells(d, e, insert, c)
    ensures Fits(e)
  {
    hide CellTyped;
  }

  lemma BrokenStep(k: Tables, t: Term, r: nat, p: nat, c: nat)
    requires Ground(t.s) && 0 < r && p <= 0x10ffff && 0x20 <= c <= 0x7e
    ensures var u := Step(k, Term(WithPoint(t.s, r, p), t.d), c);
            var e := Typed(Shifted(t.d, t.s.insertMode, 1), 0xfe);
            Ground(u.s) && u.d == Typed(Shifted(e, t.s.insertMode, 1), CharOf(k, t.s, c))
  {
    var w := WithPoint(t.s, r, p);
    OpenPoint(t.s, r, p);
    OpenPoint(t.s, 0, 0);
    PointOver(t.s, r, p, 0, 0);
    var s := WithPoint(t.s, 0, 0);
    var e := Typed(Shifted(t.d, t.s.insertMode, 1), 0xfe);
    PlainChar(k, Term(s, e), c);
    StyleKept(s, 0, 0, CharOf(k, s, c));
    SameChar(k, t.s, s, c);
    hide WithPoint;
    hide Typed;
    hide Shifted;
    hide CharOf;
    hide Graphic;
    hide CharsetOf;
    hide Received;
    hide Continue;
    hide Continued;
  }

  /** ESC [ [ takes the byte after it with it, and does nothing. */
  lemma FunctionKeyDropped(k: Tables, t: Term, c: nat)
    requires Ground(t.s)
    ensures var u := Run(k, t, [0x1b, 91, 91, c]); Ground(u.s) && u.d == t.d
  {
    hide Run;
    hide Step;
    hide Within;
    hide Introduced;
    hide Abandoned;
    hide Sequenced;
    GroundIs(t.s);
    SequenceOpens(k, t);
    assert [0x1b, 91, 91, c] == [0x1b, 91] + [91] + [c];
    RunBoth(k, t, [0x1b, 91] + [91], [c]);
    RunBoth(k, t, [0x1b, 91], [91]);
    var w := Within(t.s, 2, Zeros(), 0, false);
    RunOne(k, Term(Within(t.s, 1, Zeros(), 0, false), t.d), 91);
    WithinStep(k, t.s, t.d, 1, Zeros(), 0, false, 91);
    WithinIs(t.s, 2, Zeros(), 0, false);
    Discards(k, Term(w, t.d));
    RunOne(k, Term(Introduced(w, false), t.d), c);
    Discarded(k, Term(Introduced(w, false), t.d), c);
  }

  lemma Discards(k: Tables, t: Term)
    requires t.s.escapeOffset == 2
    ensures Sequenced(k, t, 91) == Term(Introduced(t.s, false), t.d) && Introduced(t.s, false).discardNext
  {
    hide KeepsBounds;
  }

  lemma Discarded(k: Tables, t: Term, c: nat)
    requires t.s.discardNext
    ensures Step(k, t, c) == Term(Abandoned(t.s), t.d) && Ground(Abandoned(t.s))
  {
    hide Received;
    hide BrokenOff;
    hide Continued;
    hide Continue;
    hide KeepsBounds;
  }

  /** ESC in an operating system command ends the command, and with the next byte is an escape of its own. */
  lemma CommandCut(k: Tables, t: Term, text: seq<nat>, c: nat)
    requires Ground(t.s) && CommandText(text) && c in {55, 56, 68, 69, 77}
    ensures var u := Run(k, t, [0x1b, 93] + text + [0x1b, c]); Ground(u.s) && u.d == Run(k, t, [0x1b, c]).d
  {
    hide Step;
    hide Run;
    hide OscStep;
    hide WithOffset;
    hide InCommand;
    hide Ground;
    hide ShortEscaped;
    hide Unescaped;
    hide EscapeOpened;
    CommandOpens(k, t);
    CommandRuns(k, Run(k, t, [0x1b, 93]), text);
    RunBoth(k, t, [0x1b, 93], text);
    var v := Run(k, t, [0x1b, 93] + text);
    RunBoth(k, t, [0x1b, 93] + text, [0x1b, c]);
    assert [0x1b, c] == [0x1b] + [c];
    RunBoth(k, v, [0x1b], [c]);
    RunOne(k, v, 0x1b);
    CommandIs(v.s);
    CommandStep(k, v, 0x1b);
    var s := OscStep(WithOffset(v.s, v.s.escapeOffset + 1), 0x1b);
    CommandLeft(v.s, v.s.escapeOffset + 1);
    RunOne(k, Term(s, v.d), c);
    CutStep(k, Term(s, v.d), c);
    ShortEscapeRuns(k, t, c);
    var w := WithOffset(OscStep(WithOffset(s, s.escapeOffset + 1), c), 1);
    SameEscape(Term(w, t.d), Term(WithOffset(EscapeOpened(t.s), 1), t.d), c);
    CutGround(s, w, t.d, s.escapeOffset + 1, c);
  }

  lemma CommandIs(s: Context)
    requires InCommand(s)
    ensures s.escape && s.osc && !s.discardNext && !s.oscEscape
  {
  }

  /** A command that an ESC has interrupted. */
  predicate CommandOpen(s: Context) {
    && s.escape && s.osc && s.oscEscape && !s.discardNext && !s.controlSequence
    && s.unicodeRemaining == 0 && s.gSelect == 0
  }

  lemma CommandLeft(s: Context, n: nat)
    requires InCommand(s)
    ensures CommandOpen(OscStep(WithOffset(s, n), 0x1b))
  {
    hide KeepsBounds;
  }

  lemma CutStep(k: Tables, t: Term, c: nat)
    requires CommandOpen(t.s) && c in {55, 56, 68, 69, 77}
    ensures var w := WithOffset(OscStep(WithOffset(t.s, t.s.escapeOffset + 1), c), 1);
            var r := ShortEscaped(Term(w, t.d), c);
            Step(k, t, c) == Term(Unescaped(r.s), r.d)
  {
    hide WithOffset;
    hide OscStep;
    hide ShortEscaped;
    hide Unescaped;
    hide Sequenced;
    hide Plain;
    hide BrokenOff;
    hide Continued;
    hide Continue;
    hide Lead;
    hide Abandoned;
    hide PointOpened;
    hide OscOpened;
    hide SequenceOpened;
    CommandOffset(t.s, t.s.escapeOffset + 1);
    var s := WithOffset(t.s, t.s.escapeOffset + 1);
    OffsetOnly(t.s, t.s.escapeOffset + 1);
    CutOpens(s, c);
  }

  lemma CutOpens(s: Context, c: nat)
    requires s.oscEscape && s.escape && c != 92
    ensures WithOffset(OscStep(s, c), 1).controlSequence == s.controlSequence
  {
    hide KeepsBounds;
  }

  lemma SameEscape(t: Term, u: Term, c: nat)
    requires t.d == u.d && c in {55, 56, 68, 69, 77}
    ensures ShortEscaped(t, c).d == ShortEscaped(u, c).d
  {
    hide LineFed;
    hide ReverseFed;
  }

  lemma CutGround(s: Context, w: Context, d: Display, n: nat, c: nat)
    requires CommandOpen(s) && w == WithOffset(OscStep(WithOffset(s, n), c), 1) && c in {55, 56, 68, 69, 77}
    ensures Ground(Unescaped(ShortEscaped(Term(w, d), c).s))
  {
    hide KeepsBounds;
    hide LineFed;
    hide ReverseFed;
    CutContext(s, n, c);
    hide OscStep;
    hide WithOffset;
    SavingEscape(w);
  }

  lemma CutContext(s: Context, n: nat, c: nat)
    requires CommandOpen(s) && c != 92
    ensures var w := WithOffset(OscStep(WithOffset(s, n), c), 1);
            !w.osc && !w.discardNext && !w.controlSequence && w.unicodeRemaining == 0 && w.gSelect == 0
  {
    hide KeepsBounds;
  }

  lemma SavingEscape(w: Context)
    requires !w.osc && !w.discardNext && !w.controlSequence && w.unicodeRemaining == 0 && w.gSelect == 0
    ensures Ground(Unescaped(w)) && Ground(Unescaped(SavedContext(w))) && Ground(Unescaped(RestoredContext(w)))
  {
    hide KeepsBounds;
  }

  /** The other modes of ESC [ h and l, and the private modes there are not, do nothing. */
  lemma UnknownToggle(k: Tables, t: Term, ps: seq<seq<nat>>, on: bool)
    requires Ground(t.s) && !t.s.decPrivate && Parameters(ps) && Arg(ps, 0, 1) != 4
    ensures var u := Run(k, t, Sequence(ps, if on then 104 else 108));
            Ground(u.s) && u.d == t.d && u.s.insertMode == t.s.insertMode
  {
    hide Run;
    hide Complete;
    hide Ended;
    hide Joined;
    hide Decimal;
    hide PrivateSet;
    hide Finished;
    hide ValueAt;
    var c := if on then 104 else 108;
    var o := 2 + |Joined(ps)|;
    SequenceRuns(k, t, ps, c);
    EndsGround(t.s, o, ps, c);
    ArgIs(t.s, o, ps, c, 0);
    SameCursor(t.s, o, ps, c);
    TogglesNothing(k, Complete(t.s, o, ps, c), t.d, c);
  }

  lemma TogglesNothing(k: Tables, s: Context, d: Display, c: nat)
    requires (c == 104 || c == 108) && ValueAt(s, 0) != 4
    ensures Finished(k, Term(s, d), c) == Term(Ended(s), d) && Ended(s).insertMode == s.insertMode
  {
    hide KeepsBounds;
    hide ValueAt;
  }

  lemma UnknownMode(k: Tables, t: Term, ds: seq<nat>, on: bool)
    requires Ground(t.s) && Digits(ds) && 0 < Decimal(ds) <= U32_MAX && Decimal(ds) !in {6, 7, 25, 1049}
    ensures var u := Run(k, t, Private(ds, on)); Ground(u.s) && u.d == t.d
  {
    hide Run;
    hide Complete;
    hide Ended;
    hide Joined;
    hide Ground;
    hide NotPrivate;
    hide Privately;
    hide Decimal;
    OneMode(k, t, ds, on);
    ModeContext(t.s, ds, on);
  }

  // ---------- the first text ----------

  /** A new terminal shows the first text it is sent in the top left corner, on an otherwise blank screen. */
  lemma FirstText(k: Tables, cols: nat, rows: nat, blank: Cell, pen: Cell, x: nat, y: nat, text: seq<nat>)
    requires 0 < rows && 0 < cols && |text| <= cols
    requires var t := NewTerm(cols, rows, blank, pen, x, y); Drawable(k, t.s, text)
    ensures var t := NewTerm(cols, rows, blank, pen, x, y);
            var u := Run(k, t, Utf8Text(text));
            && Ground(t.s) && Fits(t.d) && Fits(u.d) && OnlyCells(t.d, u.d) && u.d.x == |text| && u.d.y == 0
            && forall i :: 0 <= i < rows * cols ==>
                 u.d.screen[i] == if i < |text| then LookOf(blank.(c := GlyphFor(k, t.s, text[i]))) else LookOf(blank)
  {
    hide Run;
    hide Utf8;
    hide GlyphFor;
    hide Printable;
    var t := NewTerm(cols, rows, blank, pen, x, y);
    NewFits(cols, rows, blank, pen, x, y);
    TextDrawn(k, t, text);
  }

  lemma NewFits(cols: nat, rows: nat, blank: Cell, pen: Cell, x: nat, y: nat)
    requires 0 < rows && 0 < cols
    ensures var t := NewTerm(cols, rows, blank, pen, x, y);
            && Ground(t.s) && !t.s.insertMode && !t.s.originMode && !t.s.decPrivate && Fits(t.d)
            && t.d.x == 0 && t.d.y == 0 && t.d.pen == blank && t.d.top == 0 && t.d.bottom == rows
            && t.d.wrap && t.d.scroll && t.d.cursorOn
  {
  }
}
