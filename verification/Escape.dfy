/** The terminal's input side: a byte at a time through UTF-8, escape and control sequences to the framebuffer, in
place.

Every method does to the back end and the context what the specification says of them as values.
*/
module Escape {
  import opened Common
  import opened Framebuffer
  import opened TerminalSpec

  class Parser {
    const t: Terminal
    const k: Tables
    var s: Context

    /** What holds before and after every byte. */
    ghost predicate Inv()
      reads this`s, t, t.grid, t.queue, t.slots, t.pixels
    {
      Bounds(s, t.cols, t.rows) && |k.palette| == 240 && t.Ok()
    }

    /** The display the back end stands for. */
    ghost function Shows(): Display
      requires t.Ok()
      reads t, t.grid, t.queue, t.slots, t.pixels
    {
      Display(t.Screen(), t.cursorX, t.cursorY, t.pen, t.savedPen, t.savedX, t.savedY, t.top, t.bottom,
              t.cursorEnabled, t.wrapEnabled, t.scrollEnabled, t.cols, t.rows)
    }

    /** And with the context the whole terminal. */
    ghost function View(): Term
      requires t.Ok()
      reads this`s, t, t.grid, t.queue, t.slots, t.pixels
    {
      Term(s, Shows())
    }

    /** A parser over a terminal as its initialiser leaves it. */
    constructor (t: Terminal, k: Tables)
      requires t.Ok() && t.cols < U64 / 2 && t.rows < U64 / 2 && |k.palette| == 240
      ensures this.t == t && this.k == k && Inv() && s == NewContext()
    {
      hide NewContext;
      hide Bounds;
      this.t, this.k, s := t, k, NewContext();
      new;
    }

    /** A change of context that keeps the indices in bounds. */
    method Become(s': Context)
      requires Inv() && KeepsBounds(s, s')
      modifies this`s
      ensures Inv() && s == s'
    {
      hide Bounds;
      hide Terminal.Ok;
      s := s';
    }

    // ----- calls to the back end -----

    method Put(c: nat)
      requires Inv()
      modifies t`queued, t`cursorX, t`cursorY, t.queue, t.slots
      ensures Inv() && Shows() == Typed(old(Shows()), c)
    {
      hide Terminal.Valid;
      hide Terminal.PixelsOk;
      hide Terminal.SavedOk;
      hide Terminal.Screen;
      hide ScrolledUp;
      hide Index;
      hide Bounds;
      t.RawPutChar(c);
    }

    method Goto(x: nat, y: nat)
      requires Inv() && x < t.cols < U64 && y < t.rows < U64
      modifies t`cursorX, t`cursorY
      ensures Inv() && Shows() == MovedTo(old(Shows()), x, y)
    {
      hide Terminal.Valid;
      hide Terminal.PixelsOk;
      hide Terminal.SavedOk;
      hide Terminal.Screen;
      hide Bounds;
      t.SetCursorPos(x, y);
    }

    method Where() returns (x: nat, y: nat)
      requires Inv()
      ensures x < t.cols < U64 / 2 && y < t.rows < U64 / 2
      ensures x == Col(Shows()) && y == t.cursorY
    {
      hide Terminal.Valid;
      hide Terminal.PixelsOk;
      hide Terminal.Screen;
      x, y := t.GetCursorPos();
    }

    method Scrolls(count: nat, up: bool)
      requires Inv()
      modifies t`queued, t.queue, t.slots
      ensures Inv()
      ensures Shows() == old(Shows()).(screen := Scrolled(old(t.Screen()), t.cols, t.top, t.bottom,
                                                          LookOf(t.pen.(c := 32)), up, count))
    {
      hide Terminal.Valid;
      hide Terminal.PixelsOk;
      hide Terminal.SavedOk;
      hide Terminal.Screen;
      hide ScrolledUp;
      hide ScrolledDown;
      hide Bounds;
      ghost var was := t.Screen();
      for i := 0 to count
        invariant Inv()
        invariant t.Screen() == Scrolled(was, t.cols, t.top, t.bottom, LookOf(t.pen.(c := 32)), up, i)
      {
        if up { t.Scroll(); } else { t.RevScroll(); }
      }
    }

    method ClearScreen(move: bool)
      requires Inv()
      modifies t`queued, t`cursorX, t`cursorY, t.queue, t.slots
      ensures Inv() && Shows() == Cleared(old(Shows()), move)
    {
      hide Terminal.Valid;
      hide Terminal.PixelsOk;
      hide Terminal.SavedOk;
      hide Terminal.Screen;
      hide Bounds;
      hide Blanked;
      t.Clear(move);
    }

    /** save_state: the back end's part and the parser's. */
    method Save()
      requires Inv()
      modifies this`s, t`savedPen, t`savedX, t`savedY
      ensures Inv() && View() == SavedAll(old(View()))
    {
      hide Terminal.Valid;
      hide Terminal.PixelsOk;
      hide Terminal.Screen;
      t.SaveState();
      hide Bounds;
      s := SavedContext(s);
    }

    /** restore_state. */
    method Restore()
      requires Inv()
      modifies this`s, t`pen, t`cursorX, t`cursorY
      ensures Inv() && View() == RestoredAll(old(View()))
    {
      hide Terminal.Valid;
      hide Terminal.PixelsOk;
      hide Terminal.Screen;
      hide Bounds;
      s := RestoredContext(s);
      hide RestoredContext;
      t.RestoreState();
    }

    lemma Dimensions()
      requires Inv()
      ensures 0 < t.cols < U64 / 2 && 0 < t.rows < U64 / 2 && t.top < t.bottom <= t.rows
      ensures t.cursorX <= t.cols && t.cursorY < t.rows
    {
    }

    // ----- erasing and shifting -----

    /** n blanks from the cursor on, within its row. */
    method PutBlanks(n: nat)
      requires Inv() && t.cursorX + n <= t.cols
      modifies t`queued, t`cursorX, t`cursorY, t.queue, t.slots
      ensures Inv() && Shows() == Filled(old(Shows()), n)
    {
      hide Terminal.Valid;
      hide Terminal.PixelsOk;
      hide Terminal.SavedOk;
      hide Terminal.Screen;
      hide Bounds;
      hide Blanked;
      ghost var was, x, y := t.Screen(), t.cursorX, t.cursorY;
      BlankedNone(was, Index(x, y, t.cols), LookOf(t.pen.(c := 32)));
      for k := 0 to n
        invariant Inv() && t.cursorX == x + k && t.cursorY == y
        invariant t.Screen() == Blanked(was, Index(x, y, t.cols), Index(x, y, t.cols) + k, LookOf(t.pen.(c := 32)))
      {
        BlankedOne(was, Index(x, y, t.cols), Index(x, y, t.cols) + k, LookOf(t.pen.(c := 32)));
        t.RawPutChar(32);
      }
    }

    /** Whole rows from one to another, a row at a time. */
    method BlankRows(from: nat, to: nat)
      requires Inv() && from <= to <= t.rows
      modifies t`queued, t`cursorX, t`cursorY, t.queue, t.slots
      ensures Inv()
      ensures var d := old(Shows());
              Shows() == MovedTo(d.(screen := RowsBlanked(d.screen, from, to, d.cols, Blank(d))), t.cursorX, t.cursorY)
    {
      hide Terminal.Ok;
      hide Terminal.Screen;
      hide Bounds;
      hide Blanked;
      Dimensions();
      ghost var d := Shows();
      BlankedNone(d.screen, from * d.cols, Blank(d));
      for y := from to to
        invariant Inv()
        invariant Shows() == MovedTo(d.(screen := RowsBlanked(d.screen, from, y, d.cols, Blank(d))), t.cursorX,
                                     t.cursorY)
      {
        RowsJoin(d.screen, from, y, d.cols, Blank(d));
        Goto(0, y);
        PutBlanks(t.cols);
      }
    }

    /** Erase in line: to its end, to its start, or all of it. */
    method EraseInLine(mode: nat)
      requires Inv()
      modifies t`queued, t`cursorX, t`cursorY, t.queue, t.slots
      ensures Inv() && Shows() == LineErased(old(Shows()), mode)
    {
      if mode > 2 {
        return;
      }
      Dimensions();
      var x, y := Where();
      LineFilled(Shows(), mode);
      hide Inv;
      hide Terminal.Ok;
      hide Terminal.Screen;
      hide Filled;
      hide LineErased;
      Goto(if mode == 0 then x else 0, y);
      PutBlanks(if mode == 0 then t.cols - x else if mode == 1 then x + 1 else t.cols);
      Goto(x, y);
    }

    /** Erase in display: to its end, to its start, or all of it. */
    method EraseInDisplay(mode: nat)
      requires Inv()
      modifies t`queued, t`cursorX, t`cursorY, t.queue, t.slots
      ensures Inv() && Shows() == DisplayErased(old(Shows()), mode)
    {
      hide Inv;
      hide Terminal.Ok;
      hide Terminal.Screen;
      hide Blanked;
      if mode == 0 {
        EraseBelow();
      } else if mode == 1 {
        EraseAbove();
      } else if mode == 2 || mode == 3 {
        ClearScreen(false);
      }
    }

    method EraseBelow()
      requires Inv()
      modifies t`queued, t`cursorX, t`cursorY, t.queue, t.slots
      ensures Inv() && Shows() == DisplayErased(old(Shows()), 0)
    {
      hide Terminal.Ok;
      hide Terminal.Screen;
      hide Bounds;
      hide Blanked;
      Dimensions();
      var x, y := Where();
      ghost var d := Shows();
      DisplayTail(d.screen, x, y, d.cols, d.rows, Blank(d));
      Goto(x, y);
      PutBlanks(t.cols - x);
      BlankRows(y + 1, t.rows);
      Goto(x, y);
    }

    method EraseAbove()
      requires Inv()
      modifies t`queued, t`cursorX, t`cursorY, t.queue, t.slots
      ensures Inv() && Shows() == DisplayErased(old(Shows()), 1)
    {
      hide Terminal.Ok;
      hide Terminal.Screen;
      hide Bounds;
      hide Blanked;
      Dimensions();
      var x, y := Where();
      ghost var d := Shows();
      BlankedJoin(d.screen, 0, y * d.cols, Index(x, y, d.cols) + 1, Blank(d));
      BlankRows(0, y);
      Goto(0, y);
      PutBlanks(x + 1);
      Goto(x, y);
    }

    /** The cells from x on moved n to the right within row y; those pushed out are lost. */
    method ShiftRight(x: nat, y: nat, n: nat)
      requires Inv() && y < t.rows && 0 < n && x + n <= t.cols
      modifies t`queued, t.queue, t.slots
      ensures Inv() && Shows() == PushedRight(old(Shows()), x, y, n)
    {
      hide Terminal.Valid;
      hide Terminal.PixelsOk;
      hide Terminal.SavedOk;
      hide Terminal.Screen;
      hide Bounds;
      hide ShiftDown;
      ghost var was, base := t.Screen(), y * t.cols;
      RowInside(y, t.cols, t.rows);
      ShiftDownNone(was, n, base + t.cols, base + t.cols);
      var i := t.cols - 1;
      while i >= x + n
        invariant x + n - 1 <= i < t.cols && Inv()
        invariant t.Screen() == ShiftDown(was, n, base + i + 1, base + t.cols)
      {
        ShiftDownMore(was, n, base + i - n, base + t.cols);
        IndexBound(i, y, t.cols, t.rows);
        IndexBound(i - n, y, t.cols, t.rows);
        t.MoveCharacter(i, y, i - n, y);
        i := i - 1;
      }
    }

    /** The cells from x + n on moved n to the left within row y. */
    method ShiftLeft(x: nat, y: nat, n: nat)
      requires Inv() && y < t.rows && 0 < n && x + n <= t.cols
      modifies t`queued, t.queue, t.slots
      ensures Inv() && Shows() == PulledLeft(old(Shows()), x, y, n)
    {
      hide Terminal.Valid;
      hide Terminal.PixelsOk;
      hide Terminal.SavedOk;
      hide Terminal.Screen;
      hide Bounds;
      hide ShiftUp;
      ghost var was, base := t.Screen(), y * t.cols;
      RowInside(y, t.cols, t.rows);
      ShiftUpNone(was, n, base + x, base + x);
      var i := x + n;
      while i < t.cols
        invariant x + n <= i <= t.cols && Inv()
        invariant t.Screen() == ShiftUp(was, n, base + x, base + i - n)
      {
        ShiftUpMore(was, n, base + x, base + i);
        IndexBound(i, y, t.cols, t.rows);
        IndexBound(i - n, y, t.cols, t.rows);
        t.MoveCharacter(i - n, y, i, y);
        i := i + 1;
      }
    }

    /** insert_shift: room for count cells at the cursor, in insert mode. */
    method InsertShift(count: nat)
      requires Inv()
      modifies t`queued, t.queue, t.slots
      ensures Inv() && Shows() == Shifted(old(Shows()), s.insertMode, count)
    {
      hide Inv;
      hide Terminal.Ok;
      hide Terminal.Screen;
      hide PushedRight;
      if s.insertMode && count > 0 {
        var x, y := Where();
        ShiftRight(x, y, if count > t.cols - x then t.cols - x else count);
      }
    }

    /** Insert character: n blanks at the cursor, the rest of the row moved right. */
    method InsertChars(count: nat)
      requires Inv() && 0 < count
      modifies t`queued, t`cursorX, t`cursorY, t.queue, t.slots
      ensures Inv() && Shows() == InsertedChars(old(Shows()), count)
    {
      Dimensions();
      var x, y := Where();
      InsertedFilled(Shows(), count);
      hide Inv;
      hide Terminal.Ok;
      hide Terminal.Screen;
      hide PushedRight;
      hide Filled;
      hide InsertedChars;
      var n := if count > t.cols - x then t.cols - x else count;
      ShiftRight(x, y, n);
      Goto(x, y);
      PutBlanks(n);
      Goto(x, y);
    }

    method BlanksHere(count: nat)
      requires Inv()
      modifies t`queued, t`cursorX, t`cursorY, t.queue, t.slots
      ensures Inv() && Shows() == FilledHere(old(Shows()), count)
    {
      Dimensions();
      hide Inv;
      hide Terminal.Ok;
      hide Terminal.Screen;
      hide Filled;
      var x, y := Where();
      Goto(x, y);
      PutBlanks(if count > t.cols - x then t.cols - x else count);
    }

    lemma DeletesBy(count: nat)
      requires Inv() && 0 < count
      ensures var d := Shows();
              var x, m := Col(d), if count > d.cols - Col(d) then d.cols - Col(d) else count;
              && d.y == t.cursorY && d.cols == t.cols && x < t.cols && 0 < m <= t.cols - x
              && DeletedChars(d, count) == MovedTo(FilledHere(MovedTo(PulledLeft(d, x, d.y, m), d.cols - m, d.y), m),
                                                   x, d.y)
    {
      DeletedFilled(Shows(), count);
    }

    /** Delete character: the rest of the row moved left over n cells, blanks at its end. */
    method DeleteChars(count: nat)
      requires Inv() && 0 < count
      modifies t`queued, t`cursorX, t`cursorY, t.queue, t.slots
      ensures Inv() && Shows() == DeletedChars(old(Shows()), count)
    {
      DeletesBy(count);
      hide Inv;
      hide Terminal.Ok;
      hide PulledLeft;
      hide FilledHere;
      hide DeletedChars;
      hide MovedTo;
      var x, y := Where();
      DeleteAt(x, y, if count > t.cols - x then t.cols - x else count);
    }

    method DeleteAt(x: nat, y: nat, n: nat)
      requires Inv() && y < t.rows < U64 && 0 < n && x + n <= t.cols < U64
      modifies t`queued, t`cursorX, t`cursorY, t.queue, t.slots
      ensures Inv()
      ensures Shows() == MovedTo(FilledHere(MovedTo(PulledLeft(old(Shows()), x, y, n), t.cols - n, y), n), x, y)
    {
      hide Inv;
      hide Shows;
      hide Terminal.Ok;
      hide PulledLeft;
      hide FilledHere;
      hide MovedTo;
      ShiftLeft(x, y, n);
      Goto(t.cols - n, y);
      BlanksHere(n);
      Goto(x, y);
    }

    /** Erase character: n blanks from the cursor on, none past the row's end. */
    method EraseChars(count: nat)
      requires Inv()
      modifies t`queued, t`cursorX, t`cursorY, t.queue, t.slots
      ensures Inv() && Shows() == ErasedChars(old(Shows()), count)
    {
      Dimensions();
      hide Inv;
      hide Terminal.Ok;
      hide Terminal.Screen;
      hide FilledHere;
      var x, y := Where();
      BlanksHere(count);
      Goto(x, y);
    }

    // ----- colours -----

    method Colour(fg: bool, colour: nat, bright: bool)
      requires Inv() && colour < 8
      modifies t`pen
      ensures Inv() && Shows() == old(Shows()).(pen := Coloured(old(t.pen), fg, colour, bright))
    {
      hide Terminal.Valid;
      hide Terminal.PixelsOk;
      hide Terminal.Screen;
      hide Bounds;
      t.SetColour(fg, colour, bright);
    }

    method Rgb(fg: bool, rgb: nat)
      requires Inv()
      modifies t`pen
      ensures Inv() && Shows() == old(Shows()).(pen := Direct(old(t.pen), fg, rgb))
    {
      hide Terminal.Valid;
      hide Terminal.PixelsOk;
      hide Terminal.Screen;
      hide Bounds;
      t.SetRgb(fg, rgb);
    }

    method DefaultColours(fg: bool, bright: bool)
      requires Inv()
      modifies t`pen
      ensures Inv() && Shows() == old(Shows()).(pen := Defaulted(old(t.pen), fg, bright))
    {
      hide Terminal.Valid;
      hide Terminal.PixelsOk;
      hide Terminal.Screen;
      hide Bounds;
      t.SetDefault(fg, bright);
    }

    method SwapIf(b: bool)
      requires Inv()
      modifies t`pen
      ensures Inv() && Shows() == old(Shows()).(pen := SwappedIf(old(t.pen), b))
    {
      hide Terminal.Valid;
      hide Terminal.PixelsOk;
      hide Terminal.Screen;
      hide Bounds;
      if b { t.SwapPalette(); }
    }

    method Recolour(fg: bool, colour: int, bright: bool)
      requires Inv() && ColourOk(colour)
      modifies t`pen
      ensures Inv() && Shows() == old(Shows()).(pen := Recoloured(old(t.pen), fg, colour, bright))
    {
      hide Inv;
      hide Terminal.Ok;
      hide Terminal.Screen;
      hide Coloured;
      hide Defaulted;
      if colour == -2 {
      } else if colour != -1 {
        Colour(fg, colour, bright);
      } else {
        DefaultColours(fg, bright);
      }
    }

    lemma Colours()
      requires Inv()
      ensures ColourOk(s.primary) && ColourOk(s.background)
    {
    }

    method SgrReset()
      requires Inv()
      modifies this`s, t`pen
      ensures Inv() && View() == PenReset(old(View()))
    {
      hide Inv;
      hide Terminal.Ok;
      hide Terminal.Screen;
      hide Unstyled;
      hide Defaulted;
      hide SwappedIf;
      SwapIf(s.reverseVideo);
      Become(Unstyled(s));
      DefaultColours(false, false);
      DefaultColours(true, false);
    }

    /** Bold on or off, and blinking, which is a bold background. */
    method SgrBold(fg: bool, bold: bool)
      requires Inv()
      modifies this`s, t`pen
      ensures Inv() && View() == Bolded(old(View()), fg, bold)
    {
      Colours();
      hide Inv;
      hide Terminal.Ok;
      hide Terminal.Screen;
      hide WithBold;
      hide Recoloured;
      var reverse, colour := s.reverseVideo, if fg then s.primary else s.background;
      Become(WithBold(s, fg, bold));
      if fg {
        Recolour(!reverse, colour, bold);
      } else {
        Recolour(reverse, colour, bold);
      }
    }

    /** Reverse video swaps the colours only when it changes. */
    method SgrReverse(on: bool)
      requires Inv()
      modifies this`s, t`pen
      ensures Inv() && View() == Reversed(old(View()), on)
    {
      hide Inv;
      hide Terminal.Ok;
      hide Terminal.Screen;
      hide WithReverse;
      hide SwappedIf;
      SwapIf(s.reverseVideo != on);
      Become(WithReverse(s, on));
    }

    /** One of the eight colours, for text or background, normal or bright. */
    method SgrColour(v: nat)
      requires Inv() && (30 <= v <= 37 || 40 <= v <= 47 || 90 <= v <= 97 || 100 <= v <= 107)
      modifies this`s, t`pen
      ensures Inv() && View() == ColourSet(old(View()), v)
    {
      hide Inv;
      hide Terminal.Ok;
      hide Terminal.Screen;
      hide Coloured;
      hide WithCurrent;
      var colour := v % 10;
      if v <= 37 {
        Colour(!s.reverseVideo, colour, s.bold);
        Become(WithCurrent(s, true, colour));
      } else if v <= 47 {
        Colour(s.reverseVideo, colour, s.bgBold);
        Become(WithCurrent(s, false, colour));
      } else if v <= 97 {
        Colour(!s.reverseVideo, colour, true);
        Become(WithCurrent(s, true, colour));
      } else {
        Colour(s.reverseVideo, colour, true);
        Become(WithCurrent(s, false, colour));
      }
    }

    method SgrDefault(fg: bool)
      requires Inv()
      modifies this`s, t`pen
      ensures Inv() && View() == DefaultSet(old(View()), fg)
    {
      hide Inv;
      hide Terminal.Ok;
      hide Terminal.Screen;
      hide Defaulted;
      hide SwappedIf;
      hide WithCurrent;
      var reverse, bright := s.reverseVideo, if fg then s.bold else s.bgBold;
      Become(WithCurrent(s, fg, -1));
      SwapIf(reverse);
      DefaultColours(fg, bright);
      SwapIf(reverse);
    }

    /** One graphic rendition parameter other than 38 and 48. */
    method SgrOne(v: nat)
      requires Inv()
      modifies this`s, t`pen
      ensures Inv() && View() == Rendered(old(View()), v)
    {
      hide Inv;
      hide View;
      hide Terminal.Ok;
      hide PenReset;
      hide Bolded;
      hide ColourSet;
      hide DefaultSet;
      hide Reversed;
      if v == 0 {
        SgrReset();
      } else if v == 1 || v == 22 || v == 5 || v == 25 {
        SgrBold(v == 1 || v == 22, v == 1 || v == 5);
      } else if 30 <= v <= 37 || 40 <= v <= 47 || 90 <= v <= 97 || 100 <= v <= 107 {
        SgrColour(v);
      } else if v == 39 || v == 49 {
        SgrDefault(v == 39);
      } else if v == 7 || v == 27 {
        SgrReverse(v == 7);
      }
    }

    method SetNumbered(fg: bool, col: nat)
      requires Inv() && col < 256
      modifies t`pen
      ensures Inv() && Shows() == old(Shows()).(pen := Numbered(k, old(t.pen), fg, col))
    {
      hide Terminal.Ok;
      hide Terminal.Screen;
      hide Bounds;
      hide Coloured;
      hide Direct;
      if col < 8 {
        Colour(fg, col, false);
      } else if col < 16 {
        Colour(fg, col - 8, true);
      } else {
        Rgb(fg, k.palette[col - 16]);
      }
    }

    /** A direct or numbered colour after 38 or 48, from value i on; none if values are missing. */
    method SgrExtended(values: seq<nat>, i: nat, fg: bool) returns (r: Option<nat>)
      requires Inv() && i < |values|
      modifies this`s, t`pen
      ensures Inv() && r == ExtendedEnd(values, i)
      ensures View() == if r.Some? then Extended(k, old(View()), values, i, fg) else old(View())
    {
      hide Inv;
      hide Terminal.Ok;
      hide Terminal.Screen;
      hide WithCurrent;
      hide Direct;
      hide Numbered;
      hide Rgb24;
      var side := if s.reverseVideo then !fg else fg;
      if values[i] == 2 {
        if i + 3 >= |values| {
          return None;
        }
        Rgb(side, Rgb24(values[i + 1], values[i + 2], values[i + 3]));
        Become(WithCurrent(s, fg, -2));
        return Some(i + 3);
      }
      if values[i] == 5 {
        if i + 1 >= |values| {
          return None;
        }
        if values[i + 1] < 256 {
          SetNumbered(side, values[i + 1]);
          Become(WithCurrent(s, fg, -2));
        }
        return Some(i + 1);
      }
      return Some(i);
    }

    lemma ValueBounds()
      requires Inv()
      ensures Values(s.values) && |s.values| == MAX_VALUES && s.valuesCount <= MAX_VALUES
      ensures s.rrr ==> s.valuesCount < MAX_VALUES
    {
    }

    /** Select graphic rendition. */
    method Sgr()
      requires Inv()
      modifies this`s, t`pen
      ensures Inv() && View() == RenditionSet(k, old(View()))
    {
      ValueBounds();
      hide Inv;
      hide Terminal.Ok;
      hide Terminal.Screen;
      hide PenReset;
      hide RenderedFrom;
      if s.valuesCount == 0 {
        SgrReset();
        return;
      }
      SgrValues(s.values[..s.valuesCount]);
    }

    method SgrValues(values: seq<nat>)
      requires Inv()
      modifies this`s, t`pen
      ensures Inv() && View() == RenderedFrom(k, old(View()), values, 0)
    {
      hide View;
      hide Terminal.Ok;
      hide Bounds;
      hide Rendered;
      hide Extended;
      hide ExtendedEnd;
      var i := 0;
      while i < |values|
        invariant Inv()
        invariant RenderedFrom(k, View(), values, i) == RenderedFrom(k, old(View()), values, 0)
        decreases |values| - i
      {
        var v := values[i];
        if v == 38 || v == 48 {
          i := i + 1;
          if i >= |values| {
            break;
          }
          var j := SgrExtended(values, i, v == 38);
          if j.None? {
            break;
          }
          i := j.value;
        } else {
          SgrOne(v);
        }
        i := i + 1;
      }
    }

    // ----- modes and margins -----

    method SetFlags(cursor: bool, wrap: bool, scroll: bool)
      requires Inv()
      modifies t`cursorEnabled, t`wrapEnabled, t`scrollEnabled
      ensures Inv() && Shows() == old(Shows()).(cursorOn := cursor, wrap := wrap, scroll := scroll)
    {
      hide Terminal.Valid;
      hide Terminal.PixelsOk;
      hide Terminal.Screen;
      hide Bounds;
      t.cursorEnabled, t.wrapEnabled, t.scrollEnabled := cursor, wrap, scroll;
    }

    method SetMargins(top: nat, bottom: nat)
      requires Inv() && top < bottom <= t.rows
      modifies t`top, t`bottom
      ensures Inv() && Shows() == old(Shows()).(top := top, bottom := bottom)
    {
      hide Mapped;
      hide Agree;
      hide ScreenOf;
      hide Terminal.PixelsOk;
      hide Bounds;
      t.top, t.bottom := top, bottom;
    }

    /** The rows from y to the bottom margin scrolled; the margins are the same afterwards. */
    method ScrollFrom(y: nat, count: nat, up: bool)
      requires Inv() && t.top <= y < t.bottom
      modifies t`top, t`bottom, t`queued, t.queue, t.slots
      ensures Inv() && Shows() == ScrolledFrom(old(Shows()), y, count, up)
    {
      hide Terminal.Ok;
      hide Terminal.Screen;
      hide Scrolled;
      hide Bounds;
      Dimensions();
      var oldTop := t.top;
      SetMargins(y, t.bottom);
      Scrolls(if count > t.bottom - y then t.bottom - y else count, up);
      SetMargins(oldTop, t.bottom);
    }

    /** Set top and bottom margins: bad ones mean the whole screen. */
    method MarginsFromValues()
      requires Inv() && 0 < ValueAt(s, 0) && 0 < ValueAt(s, 1)
      modifies t`top, t`bottom, t`cursorX, t`cursorY
      ensures Inv() && Shows() == Margined(old(Shows()), s)
    {
      ValueBounds();
      Dimensions();
      var top := if s.valuesCount > 0 then s.values[0] - 1 else 0;
      var bottom := if s.valuesCount > 1 then s.values[1] else t.rows;
      if top >= t.rows || bottom > t.rows || top >= bottom - 1 {
        top, bottom := 0, t.rows;
      }
      assert Margined(Shows(), s) ==
             MovedTo(Shows().(top := top, bottom := bottom), 0, if s.originMode then top else 0);
      hide Inv;
      hide Terminal.Ok;
      hide Terminal.Screen;
      hide Margined;
      SetMargins(top, bottom);
      Goto(0, if s.originMode then top else 0);
    }

    method DecMode(mode: nat, on: bool)
      requires Inv()
      modifies this`s, t, t.queue, t.slots
      ensures Inv() && View() == ModeSet(old(View()), mode, on)
    {
      Dimensions();
      hide Inv;
      hide Terminal.Ok;
      hide Terminal.Screen;
      hide SavedAll;
      hide RestoredAll;
      hide Cleared;
      hide WithOrigin;
      if mode == 6 {
        Become(WithOrigin(s, on));
        Goto(0, if on then t.top else 0);
      } else if mode == 7 {
        SetFlags(t.cursorEnabled, on, t.scrollEnabled);
      } else if mode == 25 {
        SetFlags(on, t.wrapEnabled, t.scrollEnabled);
      } else if mode == 1049 {
        if on {
          Save();
          ClearScreen(true);
        } else {
          ClearScreen(true);
          Restore();
        }
      }
    }

    /** dec_private_parse: modes set or reset. */
    method DecPrivate(c: nat)
      requires Inv()
      modifies this`s, t, t.queue, t.slots
      ensures Inv() && View() == PrivateSet(old(View()), c)
    {
      ValueBounds();
      hide Inv;
      hide Terminal.Ok;
      hide Terminal.Screen;
      hide NotPrivate;
      hide ModesSet;
      var modes := s.values[..s.valuesCount];
      Become(NotPrivate(s));
      if c != 104 && c != 108 {
        return;
      }
      DecModes(modes, c == 104);
    }

    method DecModes(modes: seq<nat>, on: bool)
      requires Inv()
      modifies this`s, t, t.queue, t.slots
      ensures Inv() && View() == ModesSet(old(View()), modes, |modes|, on)
    {
      hide View;
      hide Bounds;
      hide Terminal.Ok;
      hide ModeSet;
      for i := 0 to |modes|
        invariant Inv() && View() == ModesSet(old(View()), modes, i, on)
      {
        DecMode(modes[i], on);
      }
    }

    /** osc_parse: a byte of an operating system command; false if it was cut short by another escape. */
    method OscParse(c: nat) returns (consumed: bool)
      requires Inv()
      modifies this`s
      ensures Inv() && s == OscStep(old(s), c) && (consumed <==> !OscCut(old(s), c))
    {
      hide Inv;
      hide WithOsc;
      hide OscKept;
      consumed := true;
      if s.oscEscape {
        consumed := c == 92;
        Become(WithOsc(s, false, false, s.escape && c != 92));
      } else if c == 0x1b {
        Become(WithOsc(s, s.osc, true, s.escape));
      } else if c == 7 {
        Become(WithOsc(s, false, false, false));
      } else {
        KeepOsc(c);
      }
    }

    method KeepOsc(c: nat)
      requires Inv()
      modifies this`s
      ensures Inv() && s == OscKept(old(s), c)
    {
      OscBounds();
      hide Inv;
      if s.oscLength < OSC_SIZE {
        Become(s.(oscBuffer := s.oscBuffer[s.oscLength := c], oscLength := s.oscLength + 1)) by {
          assert OscKept(s, c) == s.(oscBuffer := s.oscBuffer[s.oscLength := c], oscLength := s.oscLength + 1);
        }
      }
    }

    lemma OscBounds()
      requires Inv()
      ensures |s.oscBuffer| == OSC_SIZE
    {
    }

    /** execute_c0: the control characters. */
    method ExecuteC0(c: nat)
      requires Inv()
      modifies this`s, t`queued, t`cursorX, t`cursorY, t.queue, t.slots
      ensures Inv() && View() == Term(CharsetShifted(old(s), c), Controlled(old(Shows()), c))
    {
      Dimensions();
      hide Inv;
      hide Terminal.Ok;
      hide Terminal.Screen;
      hide LineFed;
      hide CharsetShifted;
      var x, y := Where();
      if c == 14 || c == 15 {
        Become(CharsetShifted(s, c));
        return;
      }
      SameCharset(s, c);
      if c == 8 {
        if x > 0 { Goto(x - 1, y); }
      } else if c == 9 {
        var next := (x / 8 + 1) * 8;
        Goto(if next >= t.cols then t.cols - 1 else next, y);
      } else if c == 10 || c == 11 || c == 12 {
        LineFeed(false);
      } else if c == 13 {
        Goto(0, y);
      }
    }

    /** Down a row, scrolling at the bottom margin, and to its start if asked; on the last row only that. */
    method LineFeed(home: bool)
      requires Inv()
      modifies t`queued, t`cursorX, t`cursorY, t.queue, t.slots
      ensures Inv() && Shows() == LineFed(old(Shows()), home)
    {
      Dimensions();
      hide Inv;
      hide Terminal.Ok;
      hide Terminal.Screen;
      hide ScrolledUp;
      var x, y := Where();
      var column := if home then 0 else x;
      if y == t.bottom - 1 {
        ScrolledOnce(t.Screen(), t.cols, t.top, t.bottom, LookOf(t.pen.(c := 32)), true);
        Scrolls(1, true);
        Goto(column, y);
      } else if y < t.rows - 1 {
        Goto(column, y + 1);
      } else if home {
        Goto(0, y);
      }
    }

    method ReverseLineFeed()
      requires Inv()
      modifies t`queued, t`cursorX, t`cursorY, t.queue, t.slots
      ensures Inv() && Shows() == ReverseFed(old(Shows()))
    {
      Dimensions();
      hide Inv;
      hide Terminal.Ok;
      hide Terminal.Screen;
      hide ScrolledDown;
      var x, y := Where();
      if y == t.top {
        ScrolledOnce(t.Screen(), t.cols, t.top, t.bottom, LookOf(t.pen.(c := 32)), false);
        Scrolls(1, false);
        Goto(x, y);
      } else if y > 0 {
        Goto(x, y - 1);
      }
    }

    // ----- control sequences -----

    /** A digit of a parameter; digits past the last parameter are dropped. */
    method NumberByte(digit: nat)
      requires Inv() && digit < 10
      modifies this`s
      ensures Inv() && s == DigitAdded(old(s), digit)
    {
      ValueBounds();
      hide Inv;
      if s.valuesCount == MAX_VALUES {
        return;
      }
      var v := s.values[s.valuesCount];
      if v > U32_MAX / 10 {
      } else if v * 10 > U32_MAX - digit {
        v := U32_MAX;
      } else {
        v := v * 10 + digit;
      }
      assert v == AddDigit(s.values[s.valuesCount], digit);
      hide AddDigit;
      Become(s.(rrr := true, values := s.values[s.valuesCount := v])) by {
        assert DigitAdded(s, digit) == s.(rrr := true, values := s.values[s.valuesCount := v]);
      }
    }

    /** Parameters not given take the default, and so do zeros unless zero is the default. */
    method FillDefaults(values: seq<nat>, count: nat, value: nat) returns (vs: seq<nat>)
      requires count <= |values|
      ensures vs == WithDefaults(values, count, value)
    {
      vs := values;
      var i := count;
      while i < |vs|
        invariant count <= i <= |vs| == |values|
        invariant forall k :: 0 <= k < |vs| ==> vs[k] == if count <= k < i then value else values[k]
      {
        vs := vs[i := value];
        i := i + 1;
      }
      if value != 0 {
        i := 0;
        while i < count
          invariant i <= count && |vs| == |values|
          invariant forall k :: 0 <= k < |vs| ==>
                      vs[k] == if count <= k || (k < i && values[k] == 0) then value else values[k]
        {
          if vs[i] == 0 {
            vs := vs[i := value];
          }
          i := i + 1;
        }
      }
    }

    method SetDefaults(c: nat)
      requires Inv() && !s.rrr
      modifies this`s
      ensures Inv() && s == Defaults(old(s), c) && !s.rrr
      ensures !ZeroDefault(c) ==> 0 < ValueAt(s, 0) && 0 < ValueAt(s, 1)
    {
      ValueBounds();
      hide Inv;
      var vs := FillDefaults(s.values, s.valuesCount, if ZeroDefault(c) then 0 else 1);
      Become(s.(values := vs)) by {
        assert Defaults(s, c) == s.(values := vs);
      }
    }

    /** control_sequence_parse: one byte of a control sequence. */
    method ControlSequence(c: nat)
      requires Inv()
      modifies this`s, t, t.queue, t.slots
      ensures Inv() && View() == Sequenced(k, old(View()), c)
    {
      hide Inv;
      hide Terminal.Ok;
      hide Terminal.Screen;
      hide Introduced;
      hide CharsetShifted;
      hide Controlled;
      hide DigitAdded;
      hide ValueEnded;
      hide EmptyAdded;
      hide ValuesEnded;
      if s.escapeOffset == 2 && (c == 91 || c == 63) {
        Become(Introduced(s, c == 63));
      } else if c < 0x20 && c != 0x1b {
        ExecuteC0(c);
      } else if 48 <= c <= 57 {
        NumberByte(c - 48);
      } else {
        AfterDigits(c);
      }
    }

    /** A byte that is no digit ends the parameter before it. */
    method AfterDigits(c: nat)
      requires Inv()
      modifies this`s, t, t.queue, t.slots
      ensures Inv()
      ensures var t0 := old(View());
              View() == if c == 59 then Term(if t0.s.rrr then ValueEnded(t0.s) else EmptyAdded(t0.s), t0.d)
                        else ValuesEnded(k, Term(if t0.s.rrr then ValueEnded(t0.s) else t0.s, t0.d), c)
    {
      hide Inv;
      hide Terminal.Ok;
      hide Terminal.Screen;
      hide EmptyAdded;
      hide ValuesEnded;
      if s.rrr {
        Become(ValueEnded(s));
        if c == 59 {
          return;
        }
      } else if c == 59 {
        Become(EmptyAdded(s));
        return;
      }
      EndOfValues(c);
    }

    /** The first byte past the parameters. */
    method EndOfValues(c: nat)
      requires Inv() && !s.rrr
      modifies this`s, t, t.queue, t.slots
      ensures Inv() && View() == ValuesEnded(k, old(View()), c)
    {
      hide Inv;
      hide Terminal.Ok;
      hide Terminal.Screen;
      hide PrivateSet;
      hide Finished;
      hide Skipped;
      hide Ended;
      hide Unknown;
      hide NotPrivate;
      hide ValueAt;
      DefaultsKeep(s, c);
      hide Defaults;
      SetDefaults(c);
      if s.decPrivate {
        if 0x20 <= c <= 0x2f {
          Become(Unknown(NotPrivate(s)));
          return;
        }
        DecPrivate(c);
        Become(Ended(s));
      } else if s.csiUnhandled {
        Become(Skipped(s, c));
      } else {
        FinalByte(c);
      }
    }

    /** The final byte: carry the function out with scrolling off and wrapping on, then put both back. */
    method FinalByte(c: nat)
      requires Inv() && (ZeroDefault(c) || (0 < ValueAt(s, 0) && 0 < ValueAt(s, 1)))
      modifies this`s, t, t.queue, t.slots
      ensures Inv() && View() == Finished(k, old(View()), c)
    {
      hide Inv;
      hide Terminal.Ok;
      hide Terminal.Screen;
      hide Function;
      hide Restarted;
      hide Ended;
      hide Unknown;
      hide ValueAt;
      hide Known;
      var scroll, wrap := t.scrollEnabled, t.wrapEnabled;
      if c == 0x1b {
        Become(Restarted(s));
        return;
      }
      SetFlags(t.cursorEnabled, true, false);
      var known := Perform(c, scroll, wrap);
      SetFlags(t.cursorEnabled, wrap, scroll);
      if known || 0x40 <= c <= 0x7e {
        Become(Ended(s));
      } else {
        Become(Unknown(s));
      }
    }

    /** The control functions, by final byte. */
    method Perform(c: nat, scroll: bool, wrap: bool) returns (known: bool)
      requires Inv() && (ZeroDefault(c) || (0 < ValueAt(s, 0) && 0 < ValueAt(s, 1)))
      modifies this`s, t, t.queue, t.slots
      ensures Inv() && View() == Function(k, old(View()), c, scroll, wrap) && known == Known(c)
    {
      hide Inv;
      hide Terminal.Ok;
      hide Terminal.Screen;
      hide Performed;
      hide RenditionSet;
      hide Repeated;
      hide DeletedChars;
      hide FirstFits;
      hide WithSavedCursor;
      hide WithInsert;
      known := true;
      if OnDisplay(c) {
        PerformOnDisplay(c);
      } else if c == 80 {
        DeleteByValue();
      } else if c == 109 {
        Sgr();
      } else if c == 115 {
        SaveCursor();
      } else if c == 108 || c == 104 {
        ModeToggle(c);
      } else if c == 98 {
        Repeat(scroll, wrap);
      } else {
        known := false;
      }
    }

    method PerformOnDisplay(c: nat)
      requires Inv() && OnDisplay(c) && (ZeroDefault(c) || (0 < ValueAt(s, 0) && 0 < ValueAt(s, 1)))
      modifies t`top, t`bottom, t`queued, t`cursorX, t`cursorY, t.queue, t.slots
      ensures Inv() && Shows() == Performed(old(Shows()), s, c)
    {
      ValueBounds();
      Dimensions();
      CursorBounds();
      hide Inv;
      hide Terminal.Ok;
      hide Terminal.Screen;
      hide Moved;
      hide Placed;
      hide ScrolledLines;
      hide DisplayErased;
      hide LineErased;
      hide InsertedChars;
      hide ErasedChars;
      hide Margined;
      var v := s.values[0];
      if c == 65 || c == 70 || c == 66 || c == 101 || c == 69 || c == 97 || c == 67 || c == 68 {
        MoveBy(c, v);
      } else if c == 100 || c == 71 || c == 96 || c == 72 || c == 102 {
        MoveTo(c, v, s.values[1]);
      } else if c == 77 || c == 76 || c == 83 || c == 84 {
        ScrollBy(c, v);
      } else if c == 74 {
        EraseInDisplay(v);
      } else if c == 75 {
        EraseInLine(v);
      } else if c == 64 {
        InsertChars(v);
      } else if c == 88 {
        EraseChars(v);
      } else if c == 117 {
        Goto(s.savedCursorX, s.savedCursorY);
      } else {
        MarginsFromValues();
      }
    }

    lemma CursorBounds()
      requires Inv()
      ensures s.savedCursorX < t.cols && s.savedCursorY < t.rows
    {
    }

    /** Up, down, forward and back, held within the screen and in origin mode within the margins. */
    method MoveBy(c: nat, v: nat)
      requires Inv() && (c == 65 || c == 70 || c == 66 || c == 101 || c == 69 || c == 97 || c == 67 || c == 68)
      modifies t`cursorX, t`cursorY
      ensures Inv() && Shows() == Moved(old(Shows()), s.originMode, c, v)
    {
      Dimensions();
      hide Inv;
      hide Terminal.Ok;
      hide Terminal.Screen;
      hide MovedColumn;
      hide MovedRow;
      var x, y := Where();
      var least, most := if s.originMode then t.top else 0, if s.originMode then t.bottom else t.rows;
      x, y := MoveTarget(x, y, t.cols, t.rows, least, most, c, v);
      Goto(x, y);
    }

    static method MoveTarget(x0: nat, y0: nat, cols: nat, rows: nat, least: nat, most: nat, c: nat, v: nat)
      returns (x: nat, y: nat)
      requires x0 < cols && y0 < rows && least < most <= rows
      requires c == 65 || c == 70 || c == 66 || c == 101 || c == 69 || c == 97 || c == 67 || c == 68
      ensures x == MovedColumn(x0, cols, c, v) < cols && y == MovedRow(y0, rows, least, most, c, v) < rows
    {
      x, y := x0, y0;
      if c == 70 || c == 69 {
        x := 0;
      }
      if c == 65 || c == 70 {
        var dest := if v > y then 0 else y - v;
        y := if dest < least then least else dest;
      } else if c == 66 || c == 101 || c == 69 {
        var dest := if y + v > rows - 1 then rows - 1 else y + v;
        y := if dest >= most then most - 1 else dest;
      } else if c == 97 || c == 67 {
        x := if x + v > cols - 1 then cols - 1 else x + v;
      } else {
        x := if v > x then 0 else x - v;
      }
    }

    /** To a row, a column or both, counted from one. */
    method MoveTo(c: nat, v0: nat, v1: nat)
      requires Inv()
      modifies t`cursorX, t`cursorY
      ensures Inv() && Shows() == Placed(old(Shows()), s.originMode, c, v0, v1)
    {
      Dimensions();
      var x, y := Where();
      var rows := if s.originMode then t.bottom - t.top else t.rows;
      var first := if s.originMode then t.top else 0;
      var p, q := if v0 != 0 then v0 - 1 else 0, if v1 != 0 then v1 - 1 else 0;
      if c == 71 || c == 96 {
        x := if p >= t.cols then t.cols - 1 else p;
      } else {
        x := if c == 100 then x else if q >= t.cols then t.cols - 1 else q;
        y := first + (if p >= rows then rows - 1 else p);
      }
      assert Placed(Shows(), s.originMode, c, v0, v1) == MovedTo(Shows(), x, y);
      hide Inv;
      hide Terminal.Ok;
      hide Terminal.Screen;
      hide Placed;
      Goto(x, y);
    }

    /** Insert and delete line, scroll up and down. */
    method ScrollBy(c: nat, v: nat)
      requires Inv() && (c == 77 || c == 76 || c == 83 || c == 84)
      modifies t`top, t`bottom, t`queued, t.queue, t.slots
      ensures Inv() && Shows() == ScrolledLines(old(Shows()), c, v)
    {
      Dimensions();
      var x, y := Where();
      ScrolledLinesIs(Shows(), c, v);
      hide Inv;
      hide Terminal.Ok;
      hide Terminal.Screen;
      hide ScrolledLines;
      hide ScrolledFrom;
      var first := if c == 83 || c == 84 then t.top else y;
      if t.top <= first < t.bottom {
        ScrollFrom(first, v, c == 83 || c == 77);
      }
    }

    /** The first parameter is held to the row's rest before it is used. */
    method DeleteByValue()
      requires Inv() && 0 < ValueAt(s, 0)
      modifies this`s, t`queued, t`cursorX, t`cursorY, t.queue, t.slots
      ensures Inv()
      ensures View() == Term(FirstFits(old(s), Col(old(Shows())), t.cols),
                             DeletedChars(old(Shows()), ValueAt(old(s), 0)))
    {
      ValueBounds();
      hide Inv;
      hide Terminal.Ok;
      hide Terminal.Screen;
      hide CharsDeleted;
      var x, y := Where();
      var v := s.values[0];
      Become(FirstFits(s, x, t.cols));
      hide FirstFits;
      DeleteChars(v);
    }

    method SaveCursor()
      requires Inv()
      modifies this`s
      ensures Inv() && s == WithSavedCursor(old(s), Col(Shows()), t.cursorY)
    {
      hide Terminal.Ok;
      hide Bounds;
      hide WithSavedCursor;
      var x, y := Where();
      s := WithSavedCursor(s, x, y);
    }

    method ModeToggle(c: nat)
      requires Inv()
      modifies this`s
      ensures Inv()
      ensures s == if old(s).valuesCount > 0 && ValueAt(old(s), 0) == 4 then WithInsert(old(s), c == 104) else old(s)
    {
      ValueBounds();
      hide Inv;
      hide WithInsert;
      if s.valuesCount > 0 && s.values[0] == 4 {
        Become(WithInsert(s, c == 104));
      }
    }

    /** Repeat the last graphic character, with the caller's scrolling and wrapping. */
    method Repeat(scroll: bool, wrap: bool)
      requires Inv()
      modifies t`cursorEnabled, t`scrollEnabled, t`wrapEnabled, t`queued, t`cursorX, t`cursorY, t.queue, t.slots
      ensures Inv()
      ensures var d := old(Shows());
              Shows() == if s.lastWasGraphic then Repeated(d.(wrap := wrap, scroll := scroll), s,
                                                           Least(ValueAt(s, 0), d.cols)) else d
    {
      ValueBounds();
      hide Terminal.Ok;
      hide Bounds;
      hide Terminal.Screen;
      hide Repeated;
      if !s.lastWasGraphic {
        return;
      }
      SetFlags(t.cursorEnabled, wrap, scroll);
      Again(if s.values[0] > t.cols then t.cols else s.values[0]);
    }

    method Again(n: nat)
      requires Inv()
      modifies t`queued, t`cursorX, t`cursorY, t.queue, t.slots
      ensures Inv() && Shows() == Repeated(old(Shows()), s, n)
    {
      hide Terminal.Ok;
      hide Bounds;
      hide Shows;
      hide Typed;
      hide Shifted;
      for i := 0 to n
        invariant Inv() && Shows() == Repeated(old(Shows()), s, i)
      {
        InsertShift(1);
        Put(s.lastPrinted);
      }
    }

    // ----- escape sequences and characters -----

    /** escape_parse: one byte after an escape. */
    method EscapeByte(c: nat)
      requires Inv()
      modifies this`s, t, t.queue, t.slots
      ensures Inv() && View() == Escaped(k, old(View()), c)
    {
      hide Inv;
      hide Shows;
      hide Terminal.Ok;
      hide Terminal.Screen;
      hide OscStep;
      hide OscCut;
      hide Introduces;
      Become(WithOffset(s, s.escapeOffset + 1));
      ghost var after := s;
      hide WithOffset;
      if s.osc {
        var consumed := OscParse(c);
        if consumed {
          return;
        }
        Become(WithOffset(s, 1));
      }
      Introduce(c);
    }

    method Introduce(c: nat)
      requires Inv()
      modifies this`s, t, t.queue, t.slots
      ensures Inv() && View() == Introduces(k, old(View()), c)
    {
      hide Inv;
      hide Shows;
      hide Terminal.Ok;
      hide Terminal.Screen;
      hide Sequenced;
      hide WithOffset;
      hide OscOpened;
      hide SequenceOpened;
      hide ShortEscaped;
      hide Unescaped;
      if s.controlSequence {
        ControlSequence(c);
      } else if c == 0x1b {
        Become(WithOffset(s, 0));
      } else if c == 93 {
        Become(OscOpened(s));
      } else if c == 91 {
        Become(SequenceOpened(s));
      } else {
        ShortEscape(c);
        Become(Unescaped(s));
      }
    }

    /** The escapes of one byte. */
    method ShortEscape(c: nat)
      requires Inv()
      modifies this`s, t, t.queue, t.slots
      ensures Inv() && View() == ShortEscaped(old(View()), c)
    {
      hide Inv;
      hide Shows;
      hide Terminal.Ok;
      hide Terminal.Screen;
      hide SavedAll;
      hide RestoredAll;
      hide HardReset;
      hide LineFed;
      hide ReverseFed;
      hide WithSelected;
      if c == 55 {
        Save();
      } else if c == 56 {
        Restore();
      } else if c == 99 {
        ResetAll();
      } else if c == 68 || c == 69 {
        LineFeed(c == 69);
      } else if c == 77 {
        ReverseLineFeed();
      } else if c == 40 || c == 41 {
        Become(WithSelected(s, c - 39));
      }
    }

    /** RIS: colours, modes, margins, screen, and what was saved. */
    method ResetAll()
      requires Inv()
      modifies this`s, t, t.queue, t.slots
      ensures Inv() && View() == HardReset(old(View()))
    {
      Dimensions();
      hide Inv;
      hide Terminal.Ok;
      hide Terminal.Screen;
      hide Reset;
      hide SwappedIf;
      hide Defaulted;
      hide Cleared;
      hide SavedAll;
      SwapIf(s.reverseVideo);
      Become(Reset(s));
      SetFlags(true, true, true);
      SetMargins(0, t.rows);
      DefaultColours(false, false);
      DefaultColours(true, false);
      ClearScreen(true);
      Save();
    }

    /** A graphic character, remembered for repetition. */
    method Print(n: nat, c: nat)
      requires Inv()
      modifies this`s, t`queued, t`cursorX, t`cursorY, t.queue, t.slots
      ensures Inv() && View() == Printed(old(View()), n, c)
    {
      hide Inv;
      hide Terminal.Ok;
      hide Terminal.Screen;
      hide Shifted;
      hide Typed;
      hide Graphic;
      InsertShift(n);
      Become(Graphic(s, c));
      Put(c);
    }

    /** The glyph of a code point, or as many cells of replacement as it is wide. */
    method Show(value: nat)
      requires Inv()
      modifies this`s, t`queued, t`cursorX, t`cursorY, t.queue, t.slots
      ensures Inv() && View() == Shown(k, old(View()), value)
    {
      hide Inv;
      hide Terminal.Ok;
      hide Terminal.Screen;
      hide Printed;
      hide TypedTimes;
      var cc := k.glyphOf(value);
      if cc < 0 {
        var width := k.widthOf(value);
        if width > 0 {
          Print(width, 0xfe);
          Blanks(width - 1);
        }
      } else {
        Print(1, cc);
      }
    }

    method Blanks(n: nat)
      requires Inv()
      modifies t`queued, t`cursorX, t`cursorY, t.queue, t.slots
      ensures Inv() && Shows() == TypedTimes(old(Shows()), 32, n)
    {
      hide Terminal.Ok;
      hide Bounds;
      hide Shows;
      hide Typed;
      for i := 0 to n
        invariant Inv() && Shows() == TypedTimes(old(Shows()), 32, i)
      {
        Put(32);
      }
    }

    method BreakOff()
      requires Inv()
      modifies this`s, t`queued, t`cursorX, t`cursorY, t.queue, t.slots
      ensures Inv() && View() == BrokenOff(old(View()))
    {
      hide Inv;
      hide Terminal.Ok;
      hide Terminal.Screen;
      hide Shifted;
      hide Typed;
      hide WithPoint;
      var bad := s.codePoint > 0x10ffff;
      if !bad {
        InsertShift(1);
        Put(0xfe);
      }
      Become(WithPoint(s, 0, 0));
    }

    lemma UnicodeBound()
      requires Inv()
      ensures s.unicodeRemaining <= 3
    {
    }

    /** A byte while a UTF-8 sequence is open; false if the byte is still to be handled. */
    method UnicodeByte(c: nat) returns (consumed: bool)
      requires Inv() && 0 < s.unicodeRemaining
      modifies this`s, t`queued, t`cursorX, t`cursorY, t.queue, t.slots
      ensures Inv()
      ensures var t0 := old(View());
              var u := Continue(t0.s.unicodeRemaining, t0.s.codePoint, c);
              && (consumed <==> c / 0x40 == 2 && !u.Surrogate?)
              && View() == if c / 0x40 != 2 then BrokenOff(t0) else Continued(k, t0, u)
    {
      UnicodeBound();
      hide Inv;
      hide Shows;
      hide Terminal.Ok;
      hide Terminal.Screen;
      hide BrokenOff;
      hide Shown;
      hide Printed;
      hide WithPoint;
      if c / 0x40 != 2 {
        BreakOff();
        return false;
      }
      var u, left := Continue(s.unicodeRemaining, s.codePoint, c), s.unicodeRemaining - 1;
      assert (u.Replace? || u.Drain? ==> u.left == left) && (u.Pending? ==> u.remaining == left);
      hide Continue;
      hide Continued;
      consumed := !u.Surrogate?;
      ContinueTo(u, left);
    }

    method ContinueTo(u: Utf, left: nat)
      requires Inv() && left <= 3 && (u.Replace? || u.Drain? ==> u.left == left) && (u.Pending? ==> u.remaining == left)
      modifies this`s, t`queued, t`cursorX, t`cursorY, t.queue, t.slots
      ensures Inv() && View() == Continued(k, old(View()), u)
    {
      hide Inv;
      hide Shows;
      hide Terminal.Ok;
      hide Terminal.Screen;
      hide Shown;
      hide Printed;
      hide WithPoint;
      if u.Glyph? {
        Become(WithPoint(s, 0, u.value));
        Show(u.value);
      } else if u.Surrogate? {
        Become(WithPoint(s, 0, s.codePoint));
      } else {
        Become(WithPoint(s, left, if u.Pending? then u.point else U64 - 1));
        if u.Replace? {
          Print(1, 0xfe);
        }
      }
    }

    /** A byte outside every sequence. */
    method PlainByte(c: nat)
      requires Inv()
      modifies this`s, t, t.queue, t.slots
      ensures Inv() && View() == Plain(k, old(View()), c)
    {
      CharsetBounds();
      hide Inv;
      hide Shows;
      hide Terminal.Ok;
      hide Terminal.Screen;
      hide CharsetNamed;
      hide EscapeOpened;
      hide CharsetShifted;
      hide Controlled;
      hide Printed;
      if s.gSelect != 0 && !(c <= 0x1f || c == 0x7f) {
        Become(CharsetNamed(s, c));
        return;
      }
      Become(PlainContext(s, c));
      assert |s.charsets| == 2 && s.currentCharset < 2;
      hide PlainContext;
      if c == 0 || c == 0x7f {
        return;
      }
      if c == 0x1b {
        Become(EscapeOpened(s));
      } else if c < 0x20 {
        ExecuteC0(c);
      } else if s.charsets[s.currentCharset] == 1 && k.specialOf(c).Some? {
        Print(1, k.specialOf(c).value);
      } else {
        Print(1, if c <= 0x7e then c else 0xfe);
      }
    }

    lemma CharsetBounds()
      requires Inv()
      ensures |s.charsets| == 2 && s.currentCharset < 2 && s.gSelect <= 2
    {
    }

    method Receive(c: nat)
      requires Inv()
      modifies this`s, t, t.queue, t.slots
      ensures Inv() && View() == Received(k, old(View()), c)
    {
      hide Inv;
      hide Shows;
      hide Terminal.Ok;
      hide Terminal.Screen;
      hide Escaped;
      hide Plain;
      LeadBound(c);
      hide Lead;
      hide PointOpened;
      if s.escape {
        EscapeByte(c);
      } else if Lead(c).Some? {
        Become(PointOpened(s, Lead(c).value));
      } else {
        PlainByte(c);
      }
    }

    /** flanterm_putchar: every byte, whatever came before it, does to the terminal what the specification says. */
    method PutChar(c: nat)
      requires Inv() && c < 256
      modifies this`s, t, t.queue, t.slots
      ensures Inv() && View() == Step(k, old(View()), c)
    {
      hide Inv;
      hide Shows;
      hide Terminal.Ok;
      hide Terminal.Screen;
      hide Abandoned;
      hide Received;
      hide BrokenOff;
      hide Continued;
      hide Continue;
      if s.discardNext || c == 0x18 || c == 0x1a {
        Become(Abandoned(s));
        return;
      }
      if !s.escape && s.unicodeRemaining != 0 {
        var consumed := UnicodeByte(c);
        if consumed {
          return;
        }
      }
      Receive(c);
    }

    /** flanterm_write: the bytes take the plain terminal where the specification says, and with automatic flushing
        the pixels are then a full redraw of its screen and cursor. */
    method Write(bytes: seq<nat>)
      requires Inv() && forall k :: 0 <= k < |bytes| ==> bytes[k] < 256
      modifies this`s, t, t.grid, t.queue, t.slots, t.pixels
      ensures Inv() && View() == Run(k, old(View()), bytes)
      ensures s.autoflush ==> t.pixels[..] == Redraw(View().d.screen, CursorOf(View().d)) && t.queued == 0
    {
      hide Inv;
      hide View;
      hide Shows;
      hide Terminal.Ok;
      hide Redraw;
      PutChars(bytes);
      if s.autoflush {
        FlushNow();
      }
    }

    method PutChars(bytes: seq<nat>)
      requires Inv() && forall k :: 0 <= k < |bytes| ==> bytes[k] < 256
      modifies this`s, t, t.queue, t.slots
      ensures Inv() && View() == Run(k, old(View()), bytes)
    {
      hide Bounds;
      hide View;
      hide Terminal.Ok;
      hide Step;
      for i := 0 to |bytes|
        invariant Inv() && View() == Run(k, old(View()), bytes[..i])
      {
        RunMore(k, old(View()), bytes, i);
        PutChar(bytes[i]);
      }
      assert bytes[..|bytes|] == bytes;
    }

    method FlushNow()
      requires Inv()
      modifies t`oldX, t`oldY, t`queued, t.grid, t.slots, t.pixels
      ensures Inv() && View() == old(View())
      ensures t.pixels[..] == Redraw(View().d.screen, CursorOf(View().d)) && t.queued == 0
    {
      hide Terminal.Valid;
      hide Terminal.PixelsOk;
      hide Terminal.SavedOk;
      hide Terminal.Screen;
      hide Bounds;
      hide Redraw;
      t.Flush();
    }
  }

  /** A new terminal with its parser, drawn once: the state every byte stream starts from. */
  method NewTerminal(cols: nat, rows: nat, blank: Cell, k: Tables) returns (p: Parser)
    requires 0 < cols < U64 / 2 && 0 < rows < U64 / 2 && |k.palette| == 240
    ensures p.Inv() && p.k == k && fresh(p) && fresh(p.t)
    ensures p.View() == NewTerm(cols, rows, blank.(c := 32), p.t.savedPen, p.t.savedX, p.t.savedY)
    ensures p.t.pixels[..] == Redraw(p.View().d.screen, CursorOf(p.View().d))
  {
    hide Mapped;
    hide Agree;
    hide ScreenOf;
    hide Painted;
    hide Redraw;
    hide NewContext;
    var t := new Terminal(cols, rows, blank);
    t.FullRefresh();
    p := new Parser(t, k);
  }
}
