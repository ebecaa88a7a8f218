/** The terminal as a value: a plain screen, a cursor, a pen and the parser's context, and what each byte does to them.

Callbacks to the client are left out; glyph and width tables are parameters.
*/
module TerminalSpec {
  import opened Common
  import opened Framebuffer

  const MAX_VALUES: nat := 16
  const OSC_SIZE: nat := 256
  const U32_MAX: nat := 0xFFFF_FFFF

  // ---------- numeric parameters ----------

  /** One more digit of a parameter, in 32-bit arithmetic. */
  function AddDigit(v: nat, digit: nat): (r: nat)
    requires v <= U32_MAX && digit < 10
    ensures v <= r <= U32_MAX
  {
    if v > U32_MAX / 10 then v
    else if v * 10 > U32_MAX - digit then U32_MAX
    else v * 10 + digit
  }

  function Parameter(digits: seq<nat>): (r: nat)
    requires forall k :: 0 <= k < |digits| ==> digits[k] < 10
    ensures r <= U32_MAX
  {
    if digits == [] then 0 else AddDigit(Parameter(digits[..|digits| - 1]), digits[|digits| - 1])
  }

  function Decimal(digits: seq<nat>): nat {
    if digits == [] then 0 else Decimal(digits[..|digits| - 1]) * 10 + digits[|digits| - 1]
  }

  /** A parameter is its decimal value exactly if that fits 32 bits, and otherwise still at least a tenth of the
      range. */
  lemma {:induction false} ParameterExact(digits: seq<nat>)
    requires forall k :: 0 <= k < |digits| ==> digits[k] < 10
    ensures Parameter(digits) == Decimal(digits) <==> Decimal(digits) <= U32_MAX
    ensures Decimal(digits) > U32_MAX ==> Parameter(digits) > U32_MAX / 10
  {
    if digits != [] { ParameterExact(digits[..|digits| - 1]); }
  }

  /** Past 32 bits it is what the first digits make that exceed a tenth of the range, held to the range. */
  lemma {:induction false} ParameterSticks(digits: seq<nat>, i: nat)
    requires forall k :: 0 <= k < |digits| ==> digits[k] < 10
    requires 0 < i <= |digits| && Decimal(digits[..i - 1]) <= U32_MAX / 10 < Decimal(digits[..i])
    ensures Parameter(digits) == if Decimal(digits[..i]) < U32_MAX then Decimal(digits[..i]) else U32_MAX
  {
    var n := |digits| - 1;
    if i <= n {
      assert digits[..n][..i] == digits[..i] && digits[..n][..i - 1] == digits[..i - 1];
      ParameterSticks(digits[..n], i);
    } else {
      assert digits[..i] == digits && digits[..i - 1] == digits[..n];
      ParameterExact(digits[..n]);
    }
  }

  // ---------- UTF-8 ----------

  /** What a byte does to the decoder. */
  datatype Utf = Pending(remaining: nat,
                         point: nat) | Glyph(value: nat) | Replace(left: nat) | Drain(left: nat) | Surrogate

  /** The bytes that open a sequence of two to four. */
  function Lead(c: nat): Option<Utf> {
    if 0xc2 <= c <= 0xdf then Some(Pending(1, c % 0x20 * 0x40))
    else if 0xe0 <= c <= 0xef then Some(Pending(2, c % 0x10 * 0x1000))
    else if 0xf0 <= c <= 0xf4 then Some(Pending(3, c % 0x08 * 0x40000))
    else None
  }

  function Weight(remaining: nat): nat {
    if remaining == 0 then 1 else if remaining == 1 then 0x40 else 0x1000
  }

  /** A continuation byte. A point past the last one marks a sequence already known bad. */
  function Continue(remaining: nat, point: nat, c: nat): (u: Utf)
    requires 0 < remaining
    ensures u.Pending? ==> u.remaining == remaining - 1 && 0 < u.remaining
  {
    var rem := remaining - 1;
    var p := if point > 0x10ffff then point else point + c % 0x40 * Weight(rem);
    if p > 0x10ffff then Drain(rem)
    else if (rem == 1 && p < 0x800) || (rem == 2 && p < 0x10000) then Replace(rem)
    else if rem != 0 then Pending(rem, p)
    else if 0xd800 <= p <= 0xdfff then Surrogate
    else Glyph(p)
  }

  /** The UTF-8 encoding of a scalar value outside ASCII: section 3 of RFC 3629. */
  function Encoded(v: nat): seq<nat>
    requires 0x80 <= v <= 0x10ffff
  {
    if v < 0x800 then [0xc0 + v / 0x40, 0x80 + v % 0x40]
    else if v < 0x10000 then [0xe0 + v / 0x1000, 0x80 + v / 0x40 % 0x40, 0x80 + v % 0x40]
    else [0xf0 + v / 0x40000, 0x80 + v / 0x1000 % 0x40, 0x80 + v / 0x40 % 0x40, 0x80 + v % 0x40]
  }

  /** What the decoder comes to on a lead byte and the continuation bytes after it; None if it stops early. */
  function Decode(bytes: seq<nat>): Option<Utf> {
    if bytes == [] then None
    else if |bytes| == 1 then Lead(bytes[0])
    else match Decode(bytes[..|bytes| - 1])
         case Some(Pending(remaining, point)) =>
           if 0 < remaining then Some(Continue(remaining, point, bytes[|bytes| - 1])) else None
         case _ => None
  }

  /** Every scalar value's encoding decodes to that value, and the surrogates' to an error. */
  lemma DecodesEncoded(v: nat)
    requires 0x80 <= v <= 0x10ffff
    ensures Decode(Encoded(v)) == Some(if 0xd800 <= v <= 0xdfff then Surrogate else Glyph(v))
  {
    hide Decode;
    hide Lead;
    hide Continue;
    var e := Encoded(v);
    DecodeLead(e[0]);
    LastByte(v);
    if v < 0x800 {
      Lead2(v);
      DecodeNext([e[0]], e[1], 1, v - v % 0x40);
      assert [e[0]] + [e[1]] == e;
    } else if v < 0x10000 {
      Lead3(v);
      DecodeNext([e[0]], e[1], 2, v - v % 0x1000);
      DecodeNext([e[0]] + [e[1]], e[2], 1, v - v % 0x40);
      assert [e[0]] + [e[1]] + [e[2]] == e;
    } else {
      Lead4(v);
      DecodeNext([e[0]], e[1], 3, v - v % 0x40000);
      DecodeNext([e[0]] + [e[1]], e[2], 2, v - v % 0x1000);
      DecodeNext([e[0]] + [e[1]] + [e[2]], e[3], 1, v - v % 0x40);
      assert [e[0]] + [e[1]] + [e[2]] + [e[3]] == e;
    }
  }

  lemma DecodeLead(c: nat)
    ensures Decode([c]) == Lead(c)
  {
  }

  lemma DecodeNext(bytes: seq<nat>, c: nat, remaining: nat, point: nat)
    requires Decode(bytes) == Some(Pending(remaining, point)) && 0 < remaining
    ensures Decode(bytes + [c]) == Some(Continue(remaining, point, c))
  {
    assert (bytes + [c])[..|bytes|] == bytes;
  }

  /** Which second bytes are refused on sight: after E0 and F0 those of overlong forms, with a replacement mark, and
  after F4 those past the last scalar value, without one. */
  lemma SecondByte(c: nat, d: nat)
    requires 0xe0 <= c <= 0xf4 && 0x80 <= d <= 0xbf
    ensures var left := if c < 0xf0 then 1 else 2;
            Decode([c, d]) == Some(
              if (c == 0xe0 && d < 0xa0) || (c == 0xf0 && d < 0x90) then Replace(left)
              else if c == 0xf4 && 0x90 <= d then Drain(left)
              else Pending(left, Lead(c).value.point + d % 0x40 * Weight(left)))
  {
    DecodeLead(c);
    assert [c] + [d] == [c, d];
    DecodeNext([c], d, Lead(c).value.remaining, Lead(c).value.point);
  }

  lemma Lead2(v: nat)
    requires 0x80 <= v < 0x800
    ensures Lead(0xc0 + v / 0x40) == Some(Pending(1, v - v % 0x40))
  {
  }

  lemma Lead3(v: nat)
    requires 0x800 <= v < 0x10000
    ensures Lead(0xe0 + v / 0x1000) == Some(Pending(2, v - v % 0x1000))
    ensures Continue(2, v - v % 0x1000, 0x80 + v / 0x40 % 0x40) == Pending(1, v - v % 0x40)
  {
    Digits64(v);
  }

  lemma Lead4(v: nat)
    requires 0x10000 <= v <= 0x10ffff
    ensures Lead(0xf0 + v / 0x40000) == Some(Pending(3, v - v % 0x40000))
    ensures Continue(3, v - v % 0x40000, 0x80 + v / 0x1000 % 0x40) == Pending(2, v - v % 0x1000)
    ensures Continue(2, v - v % 0x1000, 0x80 + v / 0x40 % 0x40) == Pending(1, v - v % 0x40)
  {
    Lead4First(v);
    hide Lead;
    Digits64(v);
    assert (0x80 + v / 0x1000 % 0x40) % 0x40 == v / 0x1000 % 0x40;
    assert (0x80 + v / 0x40 % 0x40) % 0x40 == v / 0x40 % 0x40;
  }

  lemma Lead4First(v: nat)
    requires 0x10000 <= v <= 0x10ffff
    ensures Lead(0xf0 + v / 0x40000) == Some(Pending(3, v - v % 0x40000))
  {
  }

  lemma LastByte(v: nat)
    requires 0x80 <= v <= 0x10ffff
    ensures Continue(1, v - v % 0x40, 0x80 + v % 0x40) == if 0xd800 <= v <= 0xdfff then Surrogate else Glyph(v)
  {
    assert (0x80 + v % 0x40) % 0x40 == v % 0x40;
  }

  lemma Digits64(v: nat)
    ensures v - v % 0x1000 + v / 0x40 % 0x40 * 0x40 == v - v % 0x40
    ensures v - v % 0x40000 + v / 0x1000 % 0x40 * 0x1000 == v - v % 0x1000
  {
  }

  // ---------- the parser ----------

  /** -1 for the default colour, -2 for a direct one, or one of the eight. */
  predicate ColourOk(c: int) { -2 <= c < 8 }

  /** What save_state keeps. */
  datatype Saved = Saved(bold: bool, bgBold: bool, reverseVideo: bool, originMode: bool,
                         currentCharset: nat, charsets: seq<nat>, primary: int, background: int)

  /** The parser's part of the terminal context. */
  datatype Context = Context(
    autoflush: bool, originMode: bool, controlSequence: bool, escape: bool, osc: bool, oscEscape: bool,
    oscLength: nat, oscBuffer: seq<nat>, rrr: bool, discardNext: bool, bold: bool, bgBold: bool, reverseVideo: bool,
    decPrivate: bool, insertMode: bool, csiUnhandled: bool, codePoint: nat, unicodeRemaining: nat,
    gSelect: nat, charsets: seq<nat>, currentCharset: nat, escapeOffset: nat,
    valuesCount: nat, values: seq<nat>, savedCursorX: nat, savedCursorY: nat, primary: int, background: int,
    lastPrinted: nat, lastWasGraphic: bool, saved: Saved)

  predicate SavedBounds(v: Saved) {
    |v.charsets| == 2 && v.currentCharset < 2 && ColourOk(v.primary) && ColourOk(v.background)
  }

  predicate Values(values: seq<nat>) { |values| == MAX_VALUES && forall k :: 0 <= k < MAX_VALUES ==>
                                      values[k] <= U32_MAX }

  /** Every index the parser keeps stays within what it indexes. */
  predicate Bounds(s: Context, cols: nat, rows: nat) {
    && Values(s.values) && s.valuesCount <= MAX_VALUES && (s.rrr ==> s.valuesCount < MAX_VALUES)
    && |s.oscBuffer| == OSC_SIZE && s.oscLength <= OSC_SIZE
    && |s.charsets| == 2 && s.currentCharset < 2 && s.gSelect <= 2
    && ColourOk(s.primary) && ColourOk(s.background) && SavedBounds(s.saved)
    && s.unicodeRemaining <= 3
    && s.savedCursorX < cols < U64 / 2 && s.savedCursorY < rows < U64 / 2
  }

  /** flanterm_context_reinit, on the parser's part. */
  function Reset(s: Context): (r: Context)
    ensures KeepsBounds(s, r)
  {
    s.(autoflush := true, originMode := false, controlSequence := false, escape := false, osc := false,
       oscEscape := false,
       rrr := false, discardNext := false, bold := false, bgBold := false, reverseVideo := false, decPrivate := false,
       insertMode := false, csiUnhandled := false, unicodeRemaining := 0, gSelect := 0, charsets := [0, 1],
       currentCharset := 0, escapeOffset := 0, valuesCount := 0, savedCursorX := 0, savedCursorY := 0,
       primary := -1, background := -1, saved := Saved(false, false, false, false, 0, [0, 1], -1, -1),
       lastPrinted := 32, lastWasGraphic := false)
  }

  /** The context a terminal starts with. */
  function NewContext(): (r: Context)
    ensures forall cols: nat, rows: nat :: 0 < cols < U64 / 2 && 0 < rows < U64 / 2 ==> Bounds(r, cols, rows)
  {
    Context(true, false, false, false, false, false, 0, seq(OSC_SIZE, _ => 0), false, false, false, false, false,
            false, false, false, 0, 0, 0, [0, 1], 0, 0, 0, seq(MAX_VALUES, _ => 0), 0, 0, -1, -1,
            32, false, Saved(false, false, false, false, 0, [0, 1], -1, -1))
  }

  // ---------- parts of a screen ----------

  function Min(a: int, b: int): int { if a < b then a else b }

  function Rgb24(r: nat, g: nat, b: nat): nat { r % 256 * 65536 + g % 256 * 256 + b % 256 }

  ghost function CharsInserted(s: seq<Look>, x: nat, y: nat, cols: nat, n: nat, blank: Look): seq<Look> {
    var i, end := Index(x, y, cols), Index(0, y, cols) + cols;
    Blanked(ShiftDown(s, n, i + n, end), i, i + n, blank)
  }

  ghost function CharsDeleted(s: seq<Look>, x: nat, y: nat, cols: nat, n: nat, blank: Look): seq<Look>
    requires n <= cols
  {
    var i, end := Index(x, y, cols), Index(0, y, cols) + cols;
    Blanked(ShiftUp(s, n, i, end - n), end - n, end, blank)
  }

  lemma RowInside(y: nat, cols: nat, rows: nat)
    requires y < rows
    ensures y * cols + cols <= rows * cols
  {
    assert (y + 1) * cols <= rows * cols;
  }

  /** A cursor past the last column counts as on it. */
  function Column(cursorX: nat, cols: nat): nat { if cursorX >= cols && 0 < cols then cols - 1 else cursorX }

  /** The rows between the margins scrolled count times. */
  ghost function Scrolled(s: seq<Look>, cols: nat, top: nat, bottom: nat, blank: Look, up: bool,
                          count: nat): seq<Look> {
    if count == 0 then s
    else
      var r := Scrolled(s, cols, top, bottom, blank, up, count - 1);
      if up then ScrolledUp(r, cols, top, bottom, blank) else ScrolledDown(r, cols, top, bottom, blank)
  }

  /** From the top margin for scroll up and down, from the cursor's row for delete and insert line. */
  ghost function ScrolledBy(s: seq<Look>, c: nat, v: nat, y: nat, cols: nat, top: nat, bottom: nat,
                            blank: Look): seq<Look> {
    var first := if c == 83 || c == 84 then top else y;
    if top <= first < bottom then Scrolled(s, cols, first, bottom, blank, c == 83 || c == 77, Min(v, bottom - first))
      else s
  }

  ghost function RowsBlanked(s: seq<Look>, from: nat, to: nat, cols: nat, blank: Look): seq<Look> {
    Blanked(s, from * cols, to * cols, blank)
  }

  ghost function ErasedLine(s: seq<Look>, mode: nat, x: nat, y: nat, cols: nat, blank: Look): seq<Look> {
    if mode == 0 then Blanked(s, Index(x, y, cols), Index(0, y, cols) + cols, blank)
    else if mode == 1 then Blanked(s, Index(0, y, cols), Index(x, y, cols) + 1, blank)
    else if mode == 2 then Blanked(s, Index(0, y, cols), Index(0, y, cols) + cols, blank)
    else s
  }

  ghost function ErasedDisplay(s: seq<Look>, mode: nat, x: nat, y: nat, cols: nat, rows: nat, blank: Look): seq<Look> {
    if mode == 0 then Blanked(s, Index(x, y, cols), rows * cols, blank)
    else if mode == 1 then Blanked(s, 0, Index(x, y, cols) + 1, blank)
    else if mode == 2 || mode == 3 then Blanked(s, 0, rows * cols, blank)
    else s
  }

  lemma RowsJoin(s: seq<Look>, from: nat, y: nat, cols: nat, blank: Look)
    requires from <= y
    ensures Index(0, y, cols) == y * cols && (y + 1) * cols == y * cols + cols
    ensures Blanked(Blanked(s, from * cols, y * cols, blank), y * cols, y * cols + cols, blank)
         == Blanked(s, from * cols, (y + 1) * cols, blank)
  {
    hide Blanked;
    assert from * cols <= y * cols;
    BlankedJoin(s, from * cols, y * cols, y * cols + cols, blank);
  }

  lemma DisplayTail(s: seq<Look>, x: nat, y: nat, cols: nat, rows: nat, blank: Look)
    requires x < cols && y < rows
    ensures Index(x, y, cols) + (cols - x) == (y + 1) * cols
    ensures Blanked(Blanked(s, Index(x, y, cols), (y + 1) * cols, blank), (y + 1) * cols, rows * cols, blank)
         == Blanked(s, Index(x, y, cols), rows * cols, blank)
  {
    hide Blanked;
    assert (y + 1) * cols == y * cols + cols;
    assert (y + 1) * cols <= rows * cols;
    BlankedJoin(s, Index(x, y, cols), (y + 1) * cols, rows * cols, blank);
  }

  lemma BlankedNone(s: seq<Look>, i: nat, blank: Look)
    ensures Blanked(s, i, i, blank) == s
  {
  }

  lemma BlankedOne(s: seq<Look>, lo: nat, hi: nat, blank: Look)
    requires lo <= hi
    ensures Framebuffer.Put(Blanked(s, lo, hi, blank), hi, blank) == Blanked(s, lo, hi + 1, blank)
  {
  }

  lemma BlankedJoin(s: seq<Look>, lo: nat, mid: nat, hi: nat, blank: Look)
    requires lo <= mid <= hi
    ensures Blanked(Blanked(s, lo, mid, blank), mid, hi, blank) == Blanked(s, lo, hi, blank)
  {
  }

  function SavedOf(s: Context): Saved {
    Saved(s.bold, s.bgBold, s.reverseVideo, s.originMode, s.currentCharset, s.charsets, s.primary, s.background)
  }

  /** Whatever the screen's size, the indices of r are in bounds if those of s are. */
  ghost predicate KeepsBounds(s: Context, r: Context) {
    forall cols: nat, rows: nat :: Bounds(s, cols, rows) ==> Bounds(r, cols, rows)
  }

  // ---------- the terminal ----------

  /** The glyph for a code point or -1, its width, the special graphics set, and the colours 16 to 255. */
  datatype Tables = Tables(glyphOf: nat -> int, widthOf: nat -> int, specialOf: nat -> Option<nat>, palette: seq<nat>)

  /** What the back end shows and keeps. */
  datatype Display = Display(screen: seq<Look>, x: nat, y: nat, pen: Cell, savedPen: Cell, savedX: nat, savedY: nat,
                             top: nat, bottom: nat, cursorOn: bool, wrap: bool, scroll: bool, cols: nat, rows: nat)

  datatype Term = Term(s: Context, d: Display)

  /** What the back end saved is as it was. */
  predicate SameKept(d: Display, e: Display) {
    e.savedPen == d.savedPen && e.savedX == d.savedX && e.savedY == d.savedY
  }

  /** And what the parser saved. */
  predicate SameSaved(t: Term, u: Term) { u.s.saved == t.s.saved && SameKept(t.d, u.d) }

  /** A space in the pen's colours. */
  function Blank(d: Display): (l: Look)
    ensures l == Look(32, LookOf(d.pen).fg, LookOf(d.pen).bg)
  {
    LookOf(d.pen.(c := 32))
  }

  function MovedTo(d: Display, x: nat, y: nat): (e: Display)
    ensures SameKept(d, e)
  {
    d.(x := x, y := y)
  }

  /** The column the cursor counts as being in. */
  function Col(d: Display): nat { Column(d.x, d.cols) }

  /** As many of n cells as the row has from x on. */
  function Fit(n: nat, x: nat, cols: nat): nat { if x < cols && cols - x < n then cols - x else n }

  function Less(n: nat, m: nat): nat { if m < n then n - m else 0 }

  /** A character at the cursor, wrapping first if the row is full, and scrolling if the wrap leaves the margin. */
  ghost function Typed(d: Display, c: nat): (e: Display)
    ensures SameKept(d, e)
  {
    var wraps := d.x >= d.cols && d.wrap && (d.y < d.bottom - 1 || d.scroll);
    var scrolls := wraps && d.y == d.bottom - 1;
    var base := if scrolls then ScrolledUp(d.screen, d.cols, d.top, d.bottom, Blank(d)) else d.screen;
    var x := if d.x < d.cols then d.x else if wraps then 0 else Less(d.cols, 1);
    var y := if wraps && !scrolls && d.y < d.rows - 1 then d.y + 1 else d.y;
    d.(screen := Put(base, Index(x, y, d.cols), LookOf(d.pen.(c := c))), x := x + 1, y := y)
  }

  ghost function TypedTimes(d: Display, c: nat, n: nat): (e: Display)
    ensures SameKept(d, e)
  {
    if n == 0 then d else Typed(TypedTimes(d, c, n - 1), c)
  }

  /** The cells of row y from x on moved n to the right; those pushed out are lost. */
  ghost function PushedRight(d: Display, x: nat, y: nat, n: nat): (e: Display)
    ensures SameKept(d, e)
  {
    d.(screen := ShiftDown(d.screen, n, Index(x + n, y, d.cols), Index(0, y, d.cols) + d.cols))
  }

  /** The cells of row y from x + n on moved n to the left. */
  ghost function PulledLeft(d: Display, x: nat, y: nat, n: nat): (e: Display)
    ensures SameKept(d, e)
  {
    if n <= d.cols then d.(screen := ShiftUp(d.screen, n, Index(x, y, d.cols), Index(0, y, d.cols) + d.cols - n)) else d
  }

  /** n blanks from the cursor on. */
  ghost function Filled(d: Display, n: nat): (e: Display)
    ensures SameKept(d, e)
  {
    var i := Index(d.x, d.y, d.cols);
    MovedTo(d.(screen := Blanked(d.screen, i, i + n, Blank(d))), d.x + n, d.y)
  }

  /** Room for n cells at the cursor, in insert mode. */
  ghost function Shifted(d: Display, insert: bool, n: nat): (e: Display)
    ensures SameKept(d, e)
  {
    if insert && n > 0 then PushedRight(d, Col(d), d.y, Fit(n, Col(d), d.cols)) else d
  }

  ghost function Cleared(d: Display, move: bool): (e: Display)
    ensures SameKept(d, e)
  {
    var r := d.(screen := Blanked(d.screen, 0, d.rows * d.cols, Blank(d)));
    if move then MovedTo(r, 0, 0) else r
  }

  function Keeps(d: Display): Display { d.(savedPen := d.pen, savedX := d.x, savedY := d.y) }

  function BringsBack(d: Display): (e: Display)
    ensures SameKept(d, e)
  {
    d.(pen := d.savedPen, x := d.savedX, y := d.savedY)
  }

  function SavedContext(s: Context): (r: Context)
    ensures KeepsBounds(s, r)
  {
    s.(saved := SavedOf(s))
  }

  function SavedAll(t: Term): Term { Term(SavedContext(t.s), Keeps(t.d)) }

  function RestoredContext(s: Context): (r: Context)
    ensures KeepsBounds(s, r)
    ensures r.saved == s.saved
  {
    var v := s.saved;
    s.(bold := v.bold, bgBold := v.bgBold, reverseVideo := v.reverseVideo, originMode := v.originMode,
       currentCharset := v.currentCharset, charsets := v.charsets, primary := v.primary, background := v.background)
  }

  function RestoredAll(t: Term): (u: Term)
    ensures SameSaved(t, u)
  {
    Term(RestoredContext(t.s), BringsBack(t.d))
  }

  // ---------- erasing, shifting and scrolling ----------

  ghost function LineErased(d: Display, mode: nat): (e: Display)
    ensures SameKept(d, e)
  {
    if mode <= 2 then d.(screen := ErasedLine(d.screen, mode, Col(d), d.y, d.cols, Blank(d)), x := Col(d)) else d
  }

  lemma LineFilled(d: Display, mode: nat)
    requires mode <= 2 && 0 < d.cols
    ensures LineErased(d, mode) ==
            var x := Col(d);
            MovedTo(Filled(MovedTo(d, if mode == 0 then x else 0, d.y),
                           if mode == 0 then d.cols - x else if mode == 1 then x + 1 else d.cols), x, d.y)
  {
    hide Blanked;
  }

  ghost function DisplayErased(d: Display, mode: nat): (e: Display)
    ensures SameKept(d, e)
  {
    d.(screen := ErasedDisplay(d.screen, mode, Col(d), d.y, d.cols, d.rows, Blank(d)),
       x := if mode <= 1 then Col(d) else d.x)
  }

  ghost function InsertedChars(d: Display, n: nat): (e: Display)
    ensures SameKept(d, e)
  {
    d.(screen := CharsInserted(d.screen, Col(d), d.y, d.cols, Fit(n, Col(d), d.cols), Blank(d)), x := Col(d))
  }

  lemma InsertedFilled(d: Display, n: nat)
    ensures var x, m := Col(d), Fit(n, Col(d), d.cols);
            InsertedChars(d, n) == MovedTo(Filled(MovedTo(PushedRight(d, x, d.y, m), x, d.y), m), x, d.y)
  {
    hide Blanked;
    hide ShiftDown;
  }

  ghost function DeletedChars(d: Display, n: nat): (e: Display)
    ensures SameKept(d, e)
  {
    var m := Fit(n, Col(d), d.cols);
    if m <= d.cols then d.(screen := CharsDeleted(d.screen, Col(d), d.y, d.cols, m, Blank(d)), x := Col(d)) else d
  }

  lemma DeletedFilled(d: Display, n: nat)
    requires 0 < d.cols && 0 < n
    ensures var x, m := Col(d), Fit(n, Col(d), d.cols);
            && 0 < m <= d.cols
            && DeletedChars(d, n) == MovedTo(FilledHere(MovedTo(PulledLeft(d, x, d.y, m), d.cols - m, d.y), m), x, d.y)
  {
    hide Blanked;
    hide ShiftUp;
  }

  /** n blanks from the cursor on, none past the row's end. */
  ghost function FilledHere(d: Display, n: nat): (e: Display)
    ensures SameKept(d, e)
  {
    Filled(MovedTo(d, Col(d), d.y), Fit(n, Col(d), d.cols))
  }

  ghost function ErasedChars(d: Display, n: nat): (e: Display)
    ensures SameKept(d, e)
  {
    MovedTo(FilledHere(d, n), Col(d), d.y)
  }

  ghost function ScrolledLines(d: Display, c: nat, v: nat): (e: Display)
    ensures SameKept(d, e)
  {
    d.(screen := ScrolledBy(d.screen, c, v, d.y, d.cols, d.top, d.bottom, Blank(d)))
  }

  /** The rows from `first` to the bottom margin scrolled, at most as often as they are many. */
  ghost function ScrolledFrom(d: Display, first: nat, count: nat, up: bool): (e: Display)
    requires first <= d.bottom
    ensures SameKept(d, e)
  {
    d.(screen := Scrolled(d.screen, d.cols, first, d.bottom, Blank(d), up, Min(count, d.bottom - first)))
  }

  lemma ScrolledLinesIs(d: Display, c: nat, v: nat)
    ensures var first := if c == 83 || c == 84 then d.top else d.y;
            ScrolledLines(d, c, v) ==
            if d.top <= first < d.bottom then ScrolledFrom(d, first, v, c == 83 || c == 77) else d
  {
    hide Scrolled;
  }

  lemma ScrolledOnce(s: seq<Look>, cols: nat, top: nat, bottom: nat, blank: Look, up: bool)
    ensures Scrolled(s, cols, top, bottom, blank, up, 1) ==
            if up then ScrolledUp(s, cols, top, bottom, blank) else ScrolledDown(s, cols, top, bottom, blank)
  {
    assert Scrolled(s, cols, top, bottom, blank, up, 0) == s;
  }

  ghost function LineFed(d: Display, home: bool): (e: Display)
    ensures SameKept(d, e)
  {
    var x := if home then 0 else Col(d);
    if d.y == d.bottom - 1 then MovedTo(d.(screen := ScrolledUp(d.screen, d.cols, d.top, d.bottom, Blank(d))), x, d.y)
    else if d.y < d.rows - 1 then MovedTo(d, x, d.y + 1)
    else if home then MovedTo(d, 0, d.y)
    else d
  }

  ghost function ReverseFed(d: Display): (e: Display)
    ensures SameKept(d, e)
  {
    if d.y == d.top then MovedTo(d.(screen := ScrolledDown(d.screen, d.cols, d.top, d.bottom, Blank(d))), Col(d), d.y)
    else if d.y > 0 then MovedTo(d, Col(d), d.y - 1)
    else d
  }

  // ---------- colours ----------

  function Coloured(p: Cell, fg: bool, colour: nat, bright: bool): Cell
    requires colour < 8
  {
    if fg then p.(fg := Ansi(colour, bright), fgDefault := false)
      else p.(bg := Ansi(colour, bright), bgDefault := false)
  }

  function Direct(p: Cell, fg: bool, rgb: nat): Cell {
    if fg then p.(fg := 16 + rgb, fgDefault := false) else p.(bg := 16 + rgb, bgDefault := false)
  }

  function Defaulted(p: Cell, fg: bool, bright: bool): Cell {
    if fg then p.(fg := DefaultColour(bright), fgDefault := false)
    else if bright then p.(bg := DefaultColour(bright), bgDefault := false)
    else p.(bgDefault := true)
  }

  /** The current colour of one side again, normal or bright; a direct colour is left alone. */
  function Recoloured(p: Cell, fg: bool, colour: int, bright: bool): Cell {
    if 0 <= colour < 8 then Coloured(p, fg, colour, bright) else if colour == -1 then Defaulted(p, fg, bright) else p
  }

  function SwappedIf(p: Cell, b: bool): Cell { if b then Swapped(p) else p }

  function WithPen(t: Term, s: Context, p: Cell): Term { Term(s, t.d.(pen := p)) }

  function PlainPen(p: Cell, reverse: bool): Cell {
    Defaulted(Defaulted(SwappedIf(p, reverse), false, false), true, false)
  }

  function Unstyled(s: Context): (r: Context)
    ensures KeepsBounds(s, r)
    ensures r.saved == s.saved
  {
    s.(reverseVideo := false, bold := false, bgBold := false, primary := -1, background := -1)
  }

  function PenReset(t: Term): (u: Term)
    ensures SameSaved(t, u)
  {
    WithPen(t, Unstyled(t.s), PlainPen(t.d.pen, t.s.reverseVideo))
  }

  function WithBold(s: Context, fg: bool, bold: bool): (r: Context)
    ensures KeepsBounds(s, r)
    ensures r.saved == s.saved
  {
    s.(bold := if fg then bold else s.bold, bgBold := if fg then s.bgBold else bold)
  }

  function Bolded(t: Term, fg: bool, bold: bool): (u: Term)
    ensures SameSaved(t, u)
  {
    WithPen(t, WithBold(t.s, fg, bold),
            Recoloured(t.d.pen, fg != t.s.reverseVideo, if fg then t.s.primary else t.s.background, bold))
  }

  function WithReverse(s: Context, on: bool): (r: Context)
    ensures KeepsBounds(s, r)
    ensures r.saved == s.saved
  {
    s.(reverseVideo := on)
  }

  function Reversed(t: Term, on: bool): (u: Term)
    ensures SameSaved(t, u)
  {
    WithPen(t, WithReverse(t.s, on), SwappedIf(t.d.pen, t.s.reverseVideo != on))
  }

  function WithCurrent(s: Context, fg: bool, colour: int): (r: Context)
    ensures ColourOk(colour) ==> KeepsBounds(s, r)
    ensures r.saved == s.saved
  {
    s.(primary := if fg then colour else s.primary, background := if fg then s.background else colour)
  }

  /** One of the eight colours, for text or background, normal or bright. */
  function ColourSet(t: Term, v: nat): (u: Term)
    ensures SameSaved(t, u)
  {
    var text := v < 40 || 90 <= v < 100;
    var bright := 90 <= v || (if text then t.s.bold else t.s.bgBold);
    if v % 10 < 8 then
      WithPen(t, WithCurrent(t.s, text, v % 10), Coloured(t.d.pen, text != t.s.reverseVideo, v % 10, bright))
    else t
  }

  function DefaultSet(t: Term, fg: bool): (u: Term)
    ensures SameSaved(t, u)
  {
    var p := Defaulted(SwappedIf(t.d.pen, t.s.reverseVideo), fg, if fg then t.s.bold else t.s.bgBold);
    WithPen(t, WithCurrent(t.s, fg, -1), SwappedIf(p, t.s.reverseVideo))
  }

  /** One graphic rendition parameter other than 38 and 48. */
  function Rendered(t: Term, v: nat): (u: Term)
    ensures SameSaved(t, u)
  {
    if v == 0 then PenReset(t)
    else if v == 1 || v == 22 || v == 5 || v == 25 then Bolded(t, v == 1 || v == 22, v == 1 || v == 5)
    else if 30 <= v <= 37 || 40 <= v <= 47 || 90 <= v <= 97 || 100 <= v <= 107 then ColourSet(t, v)
    else if v == 39 || v == 49 then DefaultSet(t, v == 39)
    else if v == 7 || v == 27 then Reversed(t, v == 7)
    else t
  }

  function Numbered(k: Tables, p: Cell, fg: bool, col: nat): Cell {
    if col < 8 then Coloured(p, fg, col, false)
    else if col < 16 then Coloured(p, fg, col - 8, true)
    else if col - 16 < |k.palette| then Direct(p, fg, k.palette[col - 16])
    else p
  }

  /** After 38 or 48, where the colour given by the values from i on ends; none if some are missing. */
  function ExtendedEnd(values: seq<nat>, i: nat): (r: Option<nat>)
    requires i < |values|
    ensures r.Some? ==> i <= r.value < |values|
  {
    if values[i] == 2 then if i + 3 < |values| then Some(i + 3) else None
    else if values[i] == 5 then if i + 1 < |values| then Some(i + 1) else None
    else Some(i)
  }

  /** And the colour: direct, or one of 256. */
  function Extended(k: Tables, t: Term, values: seq<nat>, i: nat, fg: bool): (u: Term)
    requires i < |values| && ExtendedEnd(values, i).Some?
    ensures SameSaved(t, u)
  {
    var side := if t.s.reverseVideo then !fg else fg;
    if values[i] == 2 then
      WithPen(t, WithCurrent(t.s, fg, -2), Direct(t.d.pen, side, Rgb24(values[i + 1], values[i + 2], values[i + 3])))
    else if values[i] == 5 && values[i + 1] < 256 then
      WithPen(t, WithCurrent(t.s, fg, -2), Numbered(k, t.d.pen, side, values[i + 1]))
    else t
  }

  /** Select graphic rendition: the parameters from i on, in order. */
  function RenderedFrom(k: Tables, t: Term, values: seq<nat>, i: nat): (u: Term)
    ensures SameSaved(t, u)
    decreases |values| - i
  {
    if i >= |values| then t
    else if values[i] == 38 || values[i] == 48 then
      if i + 1 < |values| && ExtendedEnd(values, i + 1).Some? then
        RenderedFrom(k, Extended(k, t, values, i + 1, values[i] == 38), values, ExtendedEnd(values, i + 1).value + 1)
      else t
    else RenderedFrom(k, Rendered(t, values[i]), values, i + 1)
  }

  /** The parameters given so far. */
  function Given(s: Context): seq<nat> { if s.valuesCount <= |s.values| then s.values[..s.valuesCount] else s.values }

  function RenditionSet(k: Tables, t: Term): (u: Term)
    ensures SameSaved(t, u)
  {
    if t.s.valuesCount == 0 then PenReset(t) else RenderedFrom(k, t, Given(t.s), 0)
  }

  // ---------- modes ----------

  function WithOrigin(s: Context, on: bool): (r: Context)
    ensures KeepsBounds(s, r)
    ensures r.saved == s.saved
  {
    s.(originMode := on)
  }

  function NotPrivate(s: Context): (r: Context)
    ensures KeepsBounds(s, r)
    ensures r.saved == s.saved
  {
    s.(decPrivate := false)
  }

  ghost function ModeSet(t: Term, mode: nat, on: bool): Term {
    if mode == 6 then Term(WithOrigin(t.s, on), MovedTo(t.d, 0, if on then t.d.top else 0))
    else if mode == 7 then t.(d := t.d.(wrap := on))
    else if mode == 25 then t.(d := t.d.(cursorOn := on))
    else if mode == 1049 then
      if on then var r := SavedAll(t); r.(d := Cleared(r.d, true)) else RestoredAll(t.(d := Cleared(t.d, true)))
    else t
  }

  ghost function ModesSet(t: Term, modes: seq<nat>, n: nat, on: bool): Term
    requires n <= |modes|
  {
    if n == 0 then t else ModeSet(ModesSet(t, modes, n - 1, on), modes[n - 1], on)
  }

  /** dec_private_parse. */
  ghost function PrivateSet(t: Term, c: nat): Term {
    var r := Term(NotPrivate(t.s), t.d);
    if c == 104 || c == 108 then ModesSet(r, Given(t.s), |Given(t.s)|, c == 104) else r
  }

  // ---------- control characters ----------

  /** execute_c0, on the display. */
  ghost function Controlled(d: Display, c: nat): (e: Display)
    ensures SameKept(d, e)
  {
    if c == 8 then if Col(d) > 0 then MovedTo(d, Col(d) - 1, d.y) else d
    else if c == 9 then
      var next := (Col(d) / 8 + 1) * 8;
      MovedTo(d, if next >= d.cols then Less(d.cols, 1) else next, d.y)
    else if c == 10 || c == 11 || c == 12 then LineFed(d, false)
    else if c == 13 then MovedTo(d, 0, d.y)
    else d
  }

  /** And on the character set in use. */
  function CharsetShifted(s: Context, c: nat): (r: Context)
    ensures KeepsBounds(s, r)
    ensures r.saved == s.saved
  {
    s.(currentCharset := if c == 14 then 1 else if c == 15 then 0 else s.currentCharset)
  }

  lemma SameCharset(s: Context, c: nat)
    requires c != 14 && c != 15
    ensures CharsetShifted(s, c) == s
  {
  }

  /** A byte of an operating system command: up to BEL or a string terminator, kept as far as the buffer goes. */
  function OscStep(s: Context, c: nat): (r: Context)
    ensures KeepsBounds(s, r)
    ensures r.saved == s.saved
  {
    if s.oscEscape then WithOsc(s, false, false, s.escape && c != 92)
    else if c == 0x1b then WithOsc(s, s.osc, true, s.escape)
    else if c == 7 then WithOsc(s, false, false, false)
    else OscKept(s, c)
  }

  function WithOsc(s: Context, osc: bool, oscEscape: bool, escape: bool): (r: Context)
    ensures KeepsBounds(s, r)
    ensures r.saved == s.saved
  {
    s.(osc := osc, oscEscape := oscEscape, escape := escape)
  }

  function OscKept(s: Context, c: nat): (r: Context)
    ensures KeepsBounds(s, r)
    ensures r.saved == s.saved
  {
    if s.oscLength < |s.oscBuffer| then s.(oscBuffer := s.oscBuffer[s.oscLength := c], oscLength := s.oscLength + 1)
      else s
  }

  /** ESC and any other byte cut the command short. */
  predicate OscCut(s: Context, c: nat) { s.oscEscape && c != 92 }

  // ---------- control sequences ----------

  function ValueAt(s: Context, i: nat): nat { if i < |s.values| then s.values[i] else 0 }

  /** Where the defaults are zero. */
  predicate ZeroDefault(c: nat) { c == 74 || c == 75 || c == 113 || c == 109 || c == 99 || c == 93 }

  function DigitAdded(s: Context, digit: nat): (r: Context)
    requires digit < 10
    ensures KeepsBounds(s, r)
    ensures r.saved == s.saved
  {
    if s.valuesCount < |s.values| && s.values[s.valuesCount] <= U32_MAX then
      s.(rrr := true, values := s.values[s.valuesCount := AddDigit(s.values[s.valuesCount], digit)])
    else s
  }

  function ValueEnded(s: Context): (r: Context)
    ensures s.rrr ==> KeepsBounds(s, r)
    ensures r.saved == s.saved
  {
    s.(valuesCount := s.valuesCount + 1, rrr := false)
  }

  function EmptyAdded(s: Context): (r: Context)
    ensures !s.rrr ==> KeepsBounds(s, r)
    ensures r.saved == s.saved
  {
    if s.valuesCount < |s.values| then s.(values := s.values[s.valuesCount := 0], valuesCount := s.valuesCount + 1)
      else s
  }

  /** Parameters not given take the default, and so do zeros. */
  function WithDefaults(values: seq<nat>, count: nat, value: nat): seq<nat> {
    seq(|values|, i requires 0 <= i < |values| => if count <= i || values[i] == 0 then value else values[i])
  }

  function Defaults(s: Context, c: nat): (r: Context)
    ensures KeepsBounds(s, r)
    ensures r.saved == s.saved
  {
    s.(values := WithDefaults(s.values, s.valuesCount, if ZeroDefault(c) then 0 else 1))
  }

  lemma DefaultsKeep(s: Context, c: nat)
    ensures Defaults(s, c).decPrivate == s.decPrivate && Defaults(s, c).csiUnhandled == s.csiUnhandled
  {
  }

  function Introduced(s: Context, isPrivate: bool): (r: Context)
    ensures KeepsBounds(s, r)
    ensures r.saved == s.saved
  {
    if isPrivate then s.(decPrivate := true) else s.(controlSequence := false, escape := false, discardNext := true)
  }

  function Ended(s: Context): (r: Context)
    ensures KeepsBounds(s, r)
    ensures r.saved == s.saved
  {
    s.(controlSequence := false, escape := false)
  }

  function Restarted(s: Context): (r: Context)
    ensures KeepsBounds(s, r)
    ensures r.saved == s.saved
  {
    s.(controlSequence := false, escapeOffset := 0)
  }

  function Skipped(s: Context, c: nat): (r: Context)
    ensures KeepsBounds(s, r)
    ensures r.saved == s.saved
  {
    if c == 0x1b then s.(controlSequence := false, csiUnhandled := false, escapeOffset := 0)
    else if 0x40 <= c <= 0x7e then s.(controlSequence := false, escape := false, csiUnhandled := false)
    else s
  }

  function MovedColumn(x: nat, cols: nat, c: nat, v: nat): nat {
    if c == 97 || c == 67 then Place(x + v + 1, cols)
    else if c == 68 then Less(x, v)
    else if c == 70 || c == 69 then 0
    else x
  }

  function MovedRow(y: nat, rows: nat, least: nat, most: nat, c: nat, v: nat): nat {
    if c == 65 || c == 70 then if Less(y, v) < least then least else Less(y, v)
    else if c == 66 || c == 101 || c == 69 then Place(y + v + 1, Least(most, rows))
    else y
  }

  /** Up, down, forward and back, held within the screen and in origin mode within the margins. */
  function Moved(d: Display, origin: bool, c: nat, v: nat): (e: Display)
    ensures SameKept(d, e)
  {
    MovedTo(d, MovedColumn(Col(d), d.cols, c, v),
            MovedRow(d.y, d.rows, if origin then d.top else 0, if origin then d.bottom else d.rows, c, v))
  }

  /** To a row, a column or both, counted from one; in origin mode rows are counted from the top margin. */
  function Placed(d: Display, origin: bool, c: nat, v0: nat, v1: nat): (e: Display)
    ensures SameKept(d, e)
  {
    var first, rows := if origin then d.top else 0, if origin then Less(d.bottom, d.top) else d.rows;
    if c == 71 || c == 96 then MovedTo(d, Place(v0, d.cols), d.y)
    else MovedTo(d, if c == 100 then Col(d) else Place(v1, d.cols), first + Place(v0, rows))
  }

  function Least(a: nat, b: nat): nat { if a < b then a else b }

  /** The v-th of n, counted from one, and the nearest if there is none. */
  function Place(v: nat, n: nat): nat { Less(Least(v, n), 1) }

  predicate TwoRows(p: nat, q: nat, rows: nat) { p < q <= rows }

  /** Margins from the first parameter to the second, or the whole screen if they make less than two rows of it. */
  function Margined(d: Display, s: Context): (e: Display)
    ensures SameKept(d, e)
  {
    var p := if s.valuesCount > 0 then ValueAt(s, 0) else 1;
    var q := if s.valuesCount > 1 then ValueAt(s, 1) else d.rows;
    var top, bottom := if TwoRows(p, q, d.rows) then Less(p, 1) else 0, if TwoRows(p, q, d.rows) then q else d.rows;
    MovedTo(d.(top := top, bottom := bottom), 0, if s.originMode then top else 0)
  }

  /** The last graphic character n times more. */
  ghost function Repeated(d: Display, s: Context, n: nat): (e: Display)
    ensures SameKept(d, e)
  {
    if n == 0 then d else Typed(Shifted(Repeated(d, s, n - 1), s.insertMode, 1), s.lastPrinted)
  }

  function WithSavedCursor(s: Context, x: nat, y: nat): (r: Context)
    ensures forall cols: nat, rows: nat :: Bounds(s, cols, rows) && x < cols && y < rows ==> Bounds(r, cols, rows)
    ensures r.saved == s.saved
  {
    s.(savedCursorX := x, savedCursorY := y)
  }

  function WithInsert(s: Context, on: bool): (r: Context)
    ensures KeepsBounds(s, r)
    ensures r.saved == s.saved
  {
    s.(insertMode := on)
  }

  /** A sequence not understood is skipped up to its final byte. */
  function Unknown(s: Context): (r: Context)
    ensures KeepsBounds(s, r)
    ensures r.saved == s.saved
  {
    s.(csiUnhandled := true)
  }

  /** The first parameter, held to what is left of the row. */
  function FirstFits(s: Context, x: nat, cols: nat): (r: Context)
    ensures KeepsBounds(s, r)
    ensures r.saved == s.saved
  {
    s.(values := if 0 < |s.values| then s.values[0 := Fit(s.values[0], x, cols)] else s.values)
  }

  /** The control functions that act on the display. */
  ghost function Performed(d: Display, s: Context, c: nat): (e: Display)
    ensures SameKept(d, e)
  {
    var v := ValueAt(s, 0);
    if c == 65 || c == 70 || c == 66 || c == 101 || c == 69 || c == 97 || c == 67 || c == 68
    then Moved(d, s.originMode, c, v)
    else if c == 100 || c == 71 || c == 96 || c == 72 || c == 102 then Placed(d, s.originMode, c, v, ValueAt(s, 1))
    else if c == 77 || c == 76 || c == 83 || c == 84 then ScrolledLines(d, c, v)
    else if c == 74 then DisplayErased(d, v)
    else if c == 75 then LineErased(d, v)
    else if c == 64 then InsertedChars(d, v)
    else if c == 88 then ErasedChars(d, v)
    else if c == 117 then MovedTo(d, s.savedCursorX, s.savedCursorY)
    else if c == 114 then Margined(d, s)
    else d
  }

  /** The final bytes of these, and of the others. */
  predicate OnDisplay(c: nat) {
    || c == 65 || c == 70 || c == 66 || c == 101 || c == 69 || c == 97 || c == 67 || c == 68
    || c == 100 || c == 71 || c == 96 || c == 72 || c == 102 || c == 77 || c == 76 || c == 83 || c == 84
    || c == 74 || c == 75 || c == 64 || c == 88 || c == 117 || c == 114
  }

  predicate Known(c: nat) { OnDisplay(c) || c == 80 || c == 109 || c == 115 || c == 108 || c == 104 || c == 98 }

  /** The control functions, by final byte. */
  ghost function Function(k: Tables, t: Term, c: nat, scroll: bool, wrap: bool): Term {
    if OnDisplay(c) then Term(t.s, Performed(t.d, t.s, c))
    else if c == 80 then Term(FirstFits(t.s, Col(t.d), t.d.cols), DeletedChars(t.d, ValueAt(t.s, 0)))
    else if c == 109 then RenditionSet(k, t)
    else if c == 115 then Term(WithSavedCursor(t.s, Col(t.d), t.d.y), t.d)
    else if c == 108 || c == 104 then
      if t.s.valuesCount > 0 && ValueAt(t.s, 0) == 4 then Term(WithInsert(t.s, c == 104), t.d) else t
    else if c == 98 && t.s.lastWasGraphic then
      Term(t.s, Repeated(t.d.(wrap := wrap, scroll := scroll), t.s, Least(ValueAt(t.s, 0), t.d.cols)))
    else t
  }

  /** The final byte: the function is carried out with scrolling off and wrapping on, and both are put back. */
  ghost function Finished(k: Tables, t: Term, c: nat): Term {
    if c == 0x1b then Term(Restarted(t.s), t.d)
    else
      var r := Function(k, Term(t.s, t.d.(wrap := true, scroll := false)), c, t.d.scroll, t.d.wrap);
      Term(if Known(c) || 0x40 <= c <= 0x7e then Ended(r.s) else Unknown(r.s),
           r.d.(wrap := t.d.wrap, scroll := t.d.scroll))
  }

  /** The first byte past the parameters. */
  ghost function ValuesEnded(k: Tables, t: Term, c: nat): Term {
    var r := Term(Defaults(t.s, c), t.d);
    if t.s.decPrivate then
      if 0x20 <= c <= 0x2f then Term(Unknown(NotPrivate(r.s)), t.d)
      else var p := PrivateSet(r, c); Term(Ended(p.s), p.d)
    else if t.s.csiUnhandled then Term(Skipped(r.s, c), t.d)
    else Finished(k, r, c)
  }

  /** One byte of a control sequence. */
  ghost function Sequenced(k: Tables, t: Term, c: nat): Term {
    if t.s.escapeOffset == 2 && (c == 91 || c == 63) then Term(Introduced(t.s, c == 63), t.d)
    else if c < 0x20 && c != 0x1b then Term(CharsetShifted(t.s, c), Controlled(t.d, c))
    else if 48 <= c <= 57 then Term(DigitAdded(t.s, c - 48), t.d)
    else if c == 59 then Term(if t.s.rrr then ValueEnded(t.s) else EmptyAdded(t.s), t.d)
    else ValuesEnded(k, Term(if t.s.rrr then ValueEnded(t.s) else t.s, t.d), c)
  }

  // ---------- escapes ----------

  ghost function HardReset(t: Term): Term {
    var d := t.d.(cursorOn := true, scroll := true, wrap := true, top := 0, bottom := t.d.rows,
                  pen := PlainPen(t.d.pen, t.s.reverseVideo));
    SavedAll(Term(Reset(t.s), Cleared(d, true)))
  }

  function WithSelected(s: Context, g: nat): (r: Context)
    ensures g <= 2 ==> KeepsBounds(s, r)
    ensures r.saved == s.saved
  {
    s.(gSelect := g)
  }

  /** The escapes of one byte. */
  ghost function ShortEscaped(t: Term, c: nat): Term {
    if c == 55 then SavedAll(t)
    else if c == 56 then RestoredAll(t)
    else if c == 99 then HardReset(t)
    else if c == 68 || c == 69 then Term(t.s, LineFed(t.d, c == 69))
    else if c == 77 then Term(t.s, ReverseFed(t.d))
    else if c == 40 || c == 41 then Term(WithSelected(t.s, c - 39), t.d)
    else t
  }

  function SequenceOpened(s: Context): (r: Context)
    ensures KeepsBounds(s, r)
    ensures r.saved == s.saved
  {
    s.(values := seq(MAX_VALUES, _ => 0), valuesCount := 0, rrr := false, csiUnhandled := false,
       controlSequence := true)
  }

  function OscOpened(s: Context): (r: Context)
    ensures KeepsBounds(s, r)
    ensures r.saved == s.saved
  {
    s.(oscEscape := false, osc := true, oscLength := 0)
  }

  function WithOffset(s: Context, n: nat): (r: Context)
    ensures KeepsBounds(s, r)
    ensures r.saved == s.saved
  {
    s.(escapeOffset := n)
  }

  function Unescaped(s: Context): (r: Context)
    ensures KeepsBounds(s, r)
    ensures r.saved == s.saved
  {
    s.(escape := false)
  }

  /** The byte after an escape, past any operating system command. */
  ghost function Introduces(k: Tables, t: Term, c: nat): Term {
    if t.s.controlSequence then Sequenced(k, t, c)
    else if c == 0x1b then Term(WithOffset(t.s, 0), t.d)
    else if c == 93 then Term(OscOpened(t.s), t.d)
    else if c == 91 then Term(SequenceOpened(t.s), t.d)
    else var r := ShortEscaped(t, c); Term(Unescaped(r.s), r.d)
  }

  ghost function Escaped(k: Tables, t: Term, c: nat): Term {
    var s := WithOffset(t.s, t.s.escapeOffset + 1);
    if !s.osc then Introduces(k, Term(s, t.d), c)
    else if OscCut(s, c) then Introduces(k, Term(WithOffset(OscStep(s, c), 1), t.d), c)
    else Term(OscStep(s, c), t.d)
  }

  // ---------- characters ----------

  function Graphic(s: Context, c: nat): (r: Context)
    ensures KeepsBounds(s, r)
    ensures r.saved == s.saved
  {
    s.(lastPrinted := c, lastWasGraphic := true)
  }

  /** A graphic character, remembered for repetition. */
  ghost function Printed(t: Term, n: nat, c: nat): (u: Term)
    ensures SameSaved(t, u)
  {
    Term(Graphic(t.s, c), Typed(Shifted(t.d, t.s.insertMode, n), c))
  }

  /** The glyph of a code point, or as many cells of replacement as it is wide. */
  ghost function Shown(k: Tables, t: Term, value: nat): (u: Term)
    ensures SameSaved(t, u)
  {
    var cc, width := k.glyphOf(value), k.widthOf(value);
    if cc >= 0 then Printed(t, 1, cc)
    else if width > 0 then var r := Printed(t, width, 0xfe); Term(r.s, TypedTimes(r.d, 32, width - 1))
    else t
  }

  function WithPoint(s: Context, remaining: nat, point: nat): (r: Context)
    ensures remaining <= 3 ==> KeepsBounds(s, r)
    ensures r.saved == s.saved
  {
    s.(unicodeRemaining := remaining, codePoint := point)
  }

  /** A byte that does not continue the open UTF-8 sequence: a mark for what was read, unless it has had one. */
  ghost function BrokenOff(t: Term): (u: Term)
    ensures SameSaved(t, u)
  {
    Term(WithPoint(t.s, 0, 0),
         if t.s.codePoint > 0x10ffff then t.d else Typed(Shifted(t.d, t.s.insertMode, 1), 0xfe))
  }

  /** A byte that continues it, and brings it to this. */
  ghost function Continued(k: Tables, t: Term, u: Utf): (v: Term)
    ensures SameSaved(t, v)
  {
    match u
    case Glyph(value) => Shown(k, Term(WithPoint(t.s, 0, value), t.d), value)
    case Surrogate => Term(WithPoint(t.s, 0, t.s.codePoint), t.d)
    case Pending(remaining, point) => Term(WithPoint(t.s, remaining, point), t.d)
    case Replace(left) => Printed(Term(WithPoint(t.s, left, U64 - 1), t.d), 1, 0xfe)
    case Drain(left) => Term(WithPoint(t.s, left, U64 - 1), t.d)
  }

  function CharsetNamed(s: Context, c: nat): (r: Context)
    ensures KeepsBounds(s, r)
    ensures r.saved == s.saved
  {
    s.(gSelect := 0,
       charsets := if (c == 66 || c == 48) && 0 < s.gSelect <= |s.charsets|
                   then s.charsets[s.gSelect - 1 := if c == 66 then 0 else 1] else s.charsets)
  }

  function CharsetOf(s: Context): nat { if s.currentCharset < |s.charsets| then s.charsets[s.currentCharset] else 0 }

  /** A character set is selected and not yet named, and this byte names it. */
  predicate Names(s: Context, c: nat) { s.gSelect != 0 && !(c <= 0x1f || c == 0x7f) }

  function PlainContext(s: Context, c: nat): (r: Context)
    ensures KeepsBounds(s, r)
    ensures r.saved == s.saved
  {
    s.(gSelect := 0, lastWasGraphic := s.lastWasGraphic && !((c <= 0x1f && c != 0x1b) || c == 0x7f))
  }

  function EscapeOpened(s: Context): (r: Context)
    ensures KeepsBounds(s, r)
    ensures r.saved == s.saved
  {
    s.(escape := true, escapeOffset := 0)
  }

  /** The character a byte stands for. */
  function CharOf(k: Tables, s: Context, c: nat): nat {
    if CharsetOf(s) == 1 && k.specialOf(c).Some? then k.specialOf(c).value else if c < 0x7f then c else 0xfe
  }

  /** A byte outside every sequence. */
  ghost function Plain(k: Tables, t: Term, c: nat): (u: Term)
    ensures SameSaved(t, u)
  {
    if Names(t.s, c) then Term(CharsetNamed(t.s, c), t.d)
    else
      var s := PlainContext(t.s, c);
      if c == 0 || c == 0x7f then Term(s, t.d)
      else if c == 0x1b then Term(EscapeOpened(s), t.d)
      else if c < 0x20 then Term(CharsetShifted(s, c), Controlled(t.d, c))
      else Printed(Term(s, t.d), 1, CharOf(k, s, c))
  }

  function Abandoned(s: Context): (r: Context)
    ensures KeepsBounds(s, r)
    ensures r.saved == s.saved
  {
    s.(discardNext := false, escape := false, controlSequence := false, unicodeRemaining := 0, osc := false,
       oscEscape := false, gSelect := 0, lastWasGraphic := false)
  }

  lemma LeadBound(c: nat)
    ensures Lead(c).Some? ==> Lead(c).value.Pending? && Lead(c).value.remaining <= 3
  {
  }

  function PointOpened(s: Context, u: Utf): (r: Context)
    ensures (u.Pending? ==> u.remaining <= 3) ==> KeepsBounds(s, r)
    ensures r.saved == s.saved
  {
    if u.Pending? then WithPoint(WithSelected(s, 0), u.remaining, u.point) else s
  }

  /** A byte that continues an escape, opens a UTF-8 sequence, or stands for itself. */
  ghost function Received(k: Tables, t: Term, c: nat): Term {
    if t.s.escape then Escaped(k, t, c)
    else if Lead(c).Some? then Term(PointOpened(t.s, Lead(c).value), t.d)
    else Plain(k, t, c)
  }

  /** flanterm_putchar. */
  ghost function Step(k: Tables, t: Term, c: nat): Term {
    if t.s.discardNext || c == 0x18 || c == 0x1a then Term(Abandoned(t.s), t.d)
    else if t.s.escape || t.s.unicodeRemaining == 0 then Received(k, t, c)
    else if c / 0x40 != 2 then Received(k, BrokenOff(t), c)
    else
      var u := Continue(t.s.unicodeRemaining, t.s.codePoint, c);
      if u.Surrogate? then Received(k, Continued(k, t, u), c) else Continued(k, t, u)
  }

  /** flanterm_write, but for the flush. */
  ghost function Run(k: Tables, t: Term, bytes: seq<nat>): Term {
    if bytes == [] then t else Step(k, Run(k, t, bytes[..|bytes| - 1]), bytes[|bytes| - 1])
  }

  lemma RunMore(k: Tables, t: Term, bytes: seq<nat>, i: nat)
    requires i < |bytes|
    ensures Run(k, t, bytes[..0]) == t
    ensures Run(k, t, bytes[..i + 1]) == Step(k, Run(k, t, bytes[..i]), bytes[i])
  {
    hide Step;
    assert bytes[..i + 1][..i] == bytes[..i];
  }

  /** Where the cursor shows. */
  function CursorOf(d: Display): Option<nat> {
    if d.cursorOn then Spot(d.x, d.y, d.cols, d.rows) else None
  }

  /** The terminal before its first byte: blank, the cursor home, the whole screen between the margins. */
  ghost function NewTerm(cols: nat, rows: nat, blank: Cell, savedPen: Cell, savedX: nat, savedY: nat): Term {
    Term(NewContext(), Display(seq(rows * cols, i => LookOf(blank)), 0, 0, blank, savedPen, savedX, savedY,
                               0, rows, true, true, true, cols, rows))
  }
}
