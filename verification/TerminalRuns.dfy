/** What runs of bytes do to the terminal: text in UTF-8, control sequences with parameters, saving and restoring. */
module TerminalRuns {
  import opened Common
  import opened Framebuffer
  import opened TerminalSpec

  /** Between sequences. */
  predicate Ground(s: Context) {
    !s.escape && !s.controlSequence && !s.osc && !s.discardNext && s.unicodeRemaining == 0 && s.gSelect == 0
  }

  lemma RunOne(k: Tables, t: Term, c: nat)
    ensures Run(k, t, [c]) == Step(k, t, c)
  {
    hide Step;
    assert [c][..0] == [];
    assert Run(k, t, []) == t;
  }

  lemma {:induction false} RunBoth(k: Tables, t: Term, a: seq<nat>, b: seq<nat>)
    ensures Run(k, t, a + b) == Run(k, Run(k, t, a), b)
  {
    hide Step;
    if b == [] {
      assert a + b == a;
    } else {
      var n := |b| - 1;
      assert (a + b)[..|a| + n] == a + b[..n];
      RunBoth(k, t, a, b[..n]);
    }
  }

  // ---------- UTF-8 ----------

  predicate Tail(bytes: seq<nat>) { forall i :: 0 < i < |bytes| ==> bytes[i] / 0x40 == 2 }

  lemma PointOver(s: Context, r: nat, p: nat, r': nat, p': nat)
    ensures WithPoint(WithPoint(s, r, p), r', p') == WithPoint(s, r', p')
  {
  }

  lemma OpensPoint(k: Tables, t: Term, c: nat)
    requires Ground(t.s) && Lead(c).Some?
    ensures Lead(c).value.Pending?
    ensures Step(k, t, c) == Term(WithPoint(t.s, Lead(c).value.remaining, Lead(c).value.point), t.d)
  {
    hide Escaped;
    hide Plain;
    LeadBound(c);
    assert WithSelected(t.s, 0) == t.s;
  }

  /** A byte that continues an open sequence, but for surrogates. */
  lemma ContinuesPoint(k: Tables, t: Term, r: nat, p: nat, c: nat)
    requires Ground(t.s) && 0 < r && c / 0x40 == 2 && !Continue(r, p, c).Surrogate?
    ensures Step(k, Term(WithPoint(t.s, r, p), t.d), c)
            == Continued(k, Term(WithPoint(t.s, r, p), t.d), Continue(r, p, c))
  {
    hide Continue;
    hide Continued;
    hide Received;
    hide BrokenOff;
  }

  /** While the decoder waits for more, nothing shows. */
  lemma {:induction false} PendingRuns(k: Tables, t: Term, bytes: seq<nat>)
    requires Ground(t.s) && Tail(bytes) && Decode(bytes).Some? && Decode(bytes).value.Pending?
             && 0 < Decode(bytes).value.remaining
    ensures var u := Decode(bytes).value; Run(k, t, bytes) == Term(WithPoint(t.s, u.remaining, u.point), t.d)
  {
    hide Step;
    hide Lead;
    hide Continue;
    hide WithPoint;
    var n := |bytes| - 1;
    if n == 0 {
      assert bytes == [bytes[0]];
      RunOne(k, t, bytes[0]);
      OpensPoint(k, t, bytes[0]);
    } else {
      var u := Decode(bytes[..n]).value;
      PendingRuns(k, t, bytes[..n]);
      ContinuesPoint(k, t, u.remaining, u.point, bytes[n]);
      var v := Decode(bytes).value;
      PointOver(t.s, u.remaining, u.point, v.remaining, v.point);
    }
  }

  /** The UTF-8 encoding of a scalar value outside ASCII draws its glyph, or its width in replacements, and
      nothing else. */
  lemma ShowsEncoded(k: Tables, t: Term, v: nat)
    requires Ground(t.s) && 0x80 <= v <= 0x10ffff && !(0xd800 <= v <= 0xdfff)
    ensures Run(k, t, Encoded(v)) == Shown(k, Term(WithPoint(t.s, 0, v), t.d), v)
  {
    hide Step;
    hide Lead;
    hide Continue;
    hide WithPoint;
    hide Shown;
    var bytes := Encoded(v);
    EncodedTail(v);
    hide Encoded;
    var n := |bytes| - 1;
    DecodesEncoded(v);
    var u := Decode(bytes[..n]).value;
    PendingRuns(k, t, bytes[..n]);
    ContinuesPoint(k, t, u.remaining, u.point, bytes[n]);
    PointOver(t.s, u.remaining, u.point, 0, v);
  }

  /** The encoding of a surrogate shows as one mark: its last byte is taken for a character of its own. */
  lemma MarksSurrogate(k: Tables, t: Term, v: nat)
    requires Ground(t.s) && 0xd800 <= v <= 0xdfff
    ensures var bytes := Encoded(v);
            Run(k, t, bytes).d == Typed(Shifted(t.d, t.s.insertMode, 1), CharOf(k, t.s, bytes[2]))
  {
    hide Step;
    hide Continue;
    hide Typed;
    hide Shifted;
    hide CharOf;
    var bytes := Encoded(v);
    EncodedTail(v);
    DecodesEncoded(v);
    LastIsPlain(v);
    hide Encoded;
    var u := Decode(bytes[..2]).value;
    PendingRuns(k, t, bytes[..2]);
    SurrogateStep(k, t, u.remaining, u.point, bytes[2]);
  }

  lemma LastIsPlain(v: nat)
    requires 0xd800 <= v <= 0xdfff
    ensures |Encoded(v)| == 3 && 0x80 <= Encoded(v)[2] < 0xc0
  {
  }

  lemma SurrogateStep(k: Tables, t: Term, r: nat, p: nat, c: nat)
    requires Ground(t.s) && 0 < r && 0x80 <= c < 0xc0 && Continue(r, p, c).Surrogate?
    ensures Step(k, Term(WithPoint(t.s, r, p), t.d), c).d == Typed(Shifted(t.d, t.s.insertMode, 1), CharOf(k, t.s, c))
  {
    OpenPoint(t.s, r, p);
    OpenPoint(t.s, 0, p);
    PointOver(t.s, r, p, 0, p);
    HighByte(k, Term(WithPoint(t.s, 0, p), t.d), c);
    hide WithPoint;
    hide Continue;
    hide Received;
    hide BrokenOff;
    hide Typed;
    hide Shifted;
    hide CharsetOf;
  }

  lemma OpenPoint(s: Context, r: nat, p: nat)
    ensures var w := WithPoint(s, r, p);
            && w.insertMode == s.insertMode && CharsetOf(w) == CharsetOf(s) && w.unicodeRemaining == r
               && w.codePoint == p
            && w.escape == s.escape && w.discardNext == s.discardNext && (Ground(s) && r == 0 ==> Ground(w))
  {
  }

  lemma HighByte(k: Tables, t: Term, c: nat)
    requires Ground(t.s) && 0x80 <= c < 0xc0
    ensures Received(k, t, c) == Printed(t, 1, CharOf(k, t.s, c))
  {
    hide Escaped;
    hide Controlled;
    hide Printed;
    assert PlainContext(t.s, c) == t.s && Lead(c).None?;
  }

  lemma EncodedTail(v: nat)
    requires 0x80 <= v <= 0x10ffff
    ensures Tail(Encoded(v)) && 2 <= |Encoded(v)|
  {
  }

  /** A sequence past the last scalar value is dropped whole, without the mark its comment promises. */
  lemma PastLastShowsNothing(k: Tables, t: Term, d: nat, e: nat, f: nat)
    requires Ground(t.s) && 0x90 <= d <= 0xbf && e / 0x40 == 2 && f / 0x40 == 2
    ensures Run(k, t, [0xf4, d, e, f]) == Term(WithPoint(t.s, 0, U64 - 1), t.d)
  {
    hide Step;
    hide WithPoint;
    var u := Lead(0xf4).value;
    hide Lead;
    SecondByte(0xf4, d);
    assert [0xf4, d][..1] == [0xf4];
    DecodeLead(0xf4);
    PendingRuns(k, t, [0xf4]);
    RunFour(k, t, 0xf4, d, e, f);
    ContinuesPoint(k, t, u.remaining, u.point, d);
    PointOver(t.s, u.remaining, u.point, 2, U64 - 1);
    ContinuesPoint(k, t, 2, U64 - 1, e);
    PointOver(t.s, 2, U64 - 1, 1, U64 - 1);
    ContinuesPoint(k, t, 1, U64 - 1, f);
    PointOver(t.s, 1, U64 - 1, 0, U64 - 1);
  }

  lemma RunFour(k: Tables, t: Term, a: nat, b: nat, c: nat, d: nat)
    ensures Run(k, t, [a, b, c, d]) == Step(k, Step(k, Step(k, Run(k, t, [a]), b), c), d)
  {
    hide Step;
    RunBoth(k, t, [a], [b]);
    RunBoth(k, t, [a] + [b], [c]);
    RunBoth(k, t, [a] + [b] + [c], [d]);
    RunOne(k, Run(k, t, [a]), b);
    RunOne(k, Run(k, t, [a] + [b]), c);
    RunOne(k, Run(k, t, [a] + [b] + [c]), d);
    assert [a, b, c, d] == [a] + [b] + [c] + [d];
  }

  // ---------- text ----------

  predicate Printable(v: nat) { 0x20 <= v <= 0x7e || (0x80 <= v <= 0x10ffff && !(0xd800 <= v <= 0xdfff)) }

  function Utf8(v: nat): seq<nat>
    requires Printable(v)
  {
    if v < 0x80 then [v] else Encoded(v)
  }

  /** The cell a character of the text is drawn as; -1 if it has no glyph. */
  function GlyphFor(k: Tables, s: Context, v: nat): int { if v < 0x80 then CharOf(k, s, v) else k.glyphOf(v) }

  /** The two contexts draw text alike and are both between sequences. */
  predicate SameStyle(s: Context, r: Context) {
    Ground(s) && Ground(r) && r.insertMode == s.insertMode && CharsetOf(r) == CharsetOf(s)
  }

  lemma PlainChar(k: Tables, t: Term, c: nat)
    requires Ground(t.s) && 0x20 <= c <= 0x7e
    ensures Step(k, t, c) == Printed(t, 1, CharOf(k, t.s, c))
  {
    hide Printed;
    hide Escaped;
    hide Controlled;
    assert PlainContext(t.s, c) == t.s;
  }

  lemma StyleKept(s: Context, r: nat, p: nat, c: nat)
    requires Ground(s)
    ensures SameStyle(s, Graphic(s, c)) && (r == 0 ==> SameStyle(s, Graphic(WithPoint(s, r, p), c)))
    ensures WithPoint(s, r, p).insertMode == s.insertMode
  {
    OpenPoint(s, r, p);
    GraphicStyle(s, c);
    GraphicStyle(WithPoint(s, r, p), c);
    hide WithPoint;
    hide Graphic;
    hide CharsetOf;
  }

  lemma GraphicStyle(s: Context, c: nat)
    ensures var g := Graphic(s, c);
            g.insertMode == s.insertMode && CharsetOf(g) == CharsetOf(s) && (Ground(s) ==> Ground(g))
  {
  }

  /** A character with a glyph is drawn as one cell, whatever its encoding's length. */
  lemma CharacterDrawn(k: Tables, t: Term, v: nat)
    requires Ground(t.s) && Printable(v) && 0 <= GlyphFor(k, t.s, v)
    ensures var r := Run(k, t, Utf8(v));
            SameStyle(t.s, r.s) && r.d == Typed(Shifted(t.d, t.s.insertMode, 1), GlyphFor(k, t.s, v))
  {
    hide Step;
    hide Ground;
    hide SameStyle;
    hide Graphic;
    hide WithPoint;
    hide Typed;
    hide Shifted;
    hide CharOf;
    hide Encoded;
    if v < 0x80 {
      RunOne(k, t, v);
      PlainChar(k, t, v);
      StyleKept(t.s, 0, 0, CharOf(k, t.s, v));
    } else {
      ShowsEncoded(k, t, v);
      StyleKept(t.s, 0, v, k.glyphOf(v));
    }
  }

  /** A text has glyphs in this style. */
  predicate Drawable(k: Tables, s: Context, text: seq<nat>) {
    forall i :: 0 <= i < |text| ==> Printable(text[i]) && 0 <= GlyphFor(k, s, text[i])
  }

  function Utf8Text(text: seq<nat>): seq<nat>
    requires forall i :: 0 <= i < |text| ==> Printable(text[i])
  {
    if text == [] then [] else Utf8Text(text[..|text| - 1]) + Utf8(text[|text| - 1])
  }

  /** The text as looks, in the pen's colours. */
  ghost function Looks(k: Tables, s: Context, pen: Cell, text: seq<nat>): (r: seq<Look>)
    requires Drawable(k, s, text)
    ensures |r| == |text|
  {
    seq(|text|, i requires 0 <= i < |text| => LookOf(pen.(c := GlyphFor(k, s, text[i]))))
  }

  ghost function Overwritten(screen: seq<Look>, at: nat, looks: seq<Look>): seq<Look>
    requires at + |looks| <= |screen|
  {
    screen[..at] + looks + screen[at + |looks|..]
  }

  lemma OverwrittenMore(screen: seq<Look>, at: nat, looks: seq<Look>, l: Look)
    requires at + |looks| < |screen|
    ensures Put(Overwritten(screen, at, looks), at + |looks|, l) == Overwritten(screen, at, looks + [l])
  {
  }

  lemma LooksMore(k: Tables, s: Context, r: Context, pen: Cell, text: seq<nat>)
    requires 0 < |text| && Drawable(k, s, text) && CharsetOf(r) == CharsetOf(s)
    ensures Drawable(k, s, text[..|text| - 1]) && GlyphFor(k, r, text[|text| - 1]) == GlyphFor(k, s, text[|text| - 1])
    ensures Looks(k, s, pen, text) ==
            Looks(k, s, pen, text[..|text| - 1]) + [LookOf(pen.(c := GlyphFor(k, s, text[|text| - 1])))]
  {
  }

  /** The looks written from the cursor on, with the cursor behind them. */
  ghost function Wrote(d: Display, looks: seq<Look>): Display
    requires Index(d.x, d.y, d.cols) + |looks| <= |d.screen|
  {
    MovedTo(d.(screen := Overwritten(d.screen, Index(d.x, d.y, d.cols), looks)), d.x + |looks|, d.y)
  }

  lemma WroteMore(d: Display, looks: seq<Look>, c: nat)
    requires Index(d.x, d.y, d.cols) + |looks| < |d.screen| && d.x + |looks| < d.cols
    ensures Typed(Wrote(d, looks), c) == Wrote(d, looks + [LookOf(d.pen.(c := c))])
  {
    hide Overwritten;
    OverwrittenMore(d.screen, Index(d.x, d.y, d.cols), looks, LookOf(d.pen.(c := c)));
  }

  lemma WroteNothing(k: Tables, t: Term)
    requires Index(t.d.x, t.d.y, t.d.cols) <= |t.d.screen|
    ensures Looks(k, t.s, t.d.pen, []) == [] && Wrote(t.d, []) == t.d && Run(k, t, []) == t
  {
    hide Step;
    assert Overwritten(t.d.screen, Index(t.d.x, t.d.y, t.d.cols), []) == t.d.screen;
  }

  /** Text that fits the row appears in it, a cell for a character, with the cursor behind it and nothing else
      changed. */
  lemma {:induction false} TextDrawn(k: Tables, t: Term, text: seq<nat>)
    requires Ground(t.s) && !t.s.insertMode && Drawable(k, t.s, text)
    requires t.d.x + |text| <= t.d.cols && t.d.y < t.d.rows && |t.d.screen| == t.d.rows * t.d.cols
    ensures Index(t.d.x, t.d.y, t.d.cols) + |text| <= |t.d.screen|
    ensures var r := Run(k, t, Utf8Text(text));
            SameStyle(t.s, r.s) && r.d == Wrote(t.d, Looks(k, t.s, t.d.pen, text))
  {
    RowInside(t.d.y, t.d.cols, t.d.rows);
    hide Utf8;
    hide Looks;
    hide GlyphFor;
    hide Printable;
    hide Wrote;
    hide Typed;
    hide Run;
    hide CharsetOf;
    if text == [] {
      WroteNothing(k, t);
    } else {
      var n := |text| - 1;
      TextDrawn(k, t, text[..n]);
      var r := Run(k, t, Utf8Text(text[..n]));
      LooksMore(k, t.s, r.s, t.d.pen, text);
      RunBoth(k, t, Utf8Text(text[..n]), Utf8(text[n]));
      CharacterDrawn(k, r, text[n]);
      NoShift(r.d, 1);
      WroteMore(t.d, Looks(k, t.s, t.d.pen, text[..n]), GlyphFor(k, t.s, text[n]));
    }
  }

  lemma NoShift(d: Display, n: nat)
    ensures Shifted(d, false, n) == d
  {
  }

  // ---------- control sequences ----------

  /** In a control sequence: so many bytes and parameters in, and whether digits of the next have come. */
  function Within(s: Context, offset: nat, values: seq<nat>, count: nat, digits: bool): Context {
    s.(escape := true, controlSequence := true, csiUnhandled := false, escapeOffset := offset,
       values := values, valuesCount := count, rrr := digits)
  }

  function Zeros(): (z: seq<nat>)
    ensures |z| == MAX_VALUES && forall i :: 0 <= i < MAX_VALUES ==> z[i] == 0
  {
    seq(MAX_VALUES, _ => 0)
  }

  lemma SequenceOpens(k: Tables, t: Term)
    requires Ground(t.s)
    ensures Run(k, t, [0x1b, 91]) == Term(Within(t.s, 1, Zeros(), 0, false), t.d)
  {
    assert [0x1b, 91] == [0x1b] + [91];
    RunBoth(k, t, [0x1b], [91]);
    RunOne(k, t, 0x1b);
    EscapeOpens(k, t);
    RunOne(k, Term(EscapeOpened(t.s), t.d), 91);
    BracketOpens(k, t);
  }

  lemma EscapeOpens(k: Tables, t: Term)
    requires Ground(t.s)
    ensures Step(k, t, 0x1b) == Term(EscapeOpened(t.s), t.d)
  {
    hide Escaped;
    hide Controlled;
    hide Printed;
    assert PlainContext(t.s, 0x1b) == t.s;
  }

  lemma OffsetOnly(s: Context, n: nat)
    ensures var r := WithOffset(s, n);
            r.osc == s.osc && r.controlSequence == s.controlSequence && r.escape == s.escape
              && r.discardNext == s.discardNext
  {
  }

  /** A byte after an escape, with no operating system command open. */
  lemma AfterEscape(k: Tables, t: Term, c: nat)
    requires t.s.escape && !t.s.osc && !t.s.discardNext && c != 0x18 && c != 0x1a
    ensures Step(k, t, c) == Introduces(k, Term(WithOffset(t.s, t.s.escapeOffset + 1), t.d), c)
  {
    hide Introduces;
    hide Plain;
    hide PointOpened;
    hide OscStep;
    hide Abandoned;
    hide BrokenOff;
    hide Continued;
    hide Continue;
    hide Lead;
    OffsetOnly(t.s, t.s.escapeOffset + 1);
    hide WithOffset;
  }

  lemma BracketOpens(k: Tables, t: Term)
    requires Ground(t.s)
    ensures Step(k, Term(EscapeOpened(t.s), t.d), 91) == Term(Within(t.s, 1, Zeros(), 0, false), t.d)
  {
    hide Step;
    hide Sequenced;
    hide ShortEscaped;
    hide Within;
    hide SequenceOpened;
    AfterEscape(k, Term(EscapeOpened(t.s), t.d), 91);
    OpenedIs(t.s);
  }

  lemma OpenedIs(s: Context)
    ensures SequenceOpened(WithOffset(EscapeOpened(s), 1)) == Within(s, 1, Zeros(), 0, false)
  {
  }

  lemma WithinIs(s: Context, o: nat, values: seq<nat>, n: nat, digits: bool)
    ensures var w := Within(s, o, values, n, digits);
            && w.escape && w.controlSequence && !w.csiUnhandled && w.osc == s.osc && w.discardNext == s.discardNext
            && w.escapeOffset == o && w.values == values && w.valuesCount == n && w.rrr == digits
               && w.decPrivate == s.decPrivate
  {
  }

  lemma WithinMoves(s: Context, o: nat, values: seq<nat>, n: nat, digits: bool)
    ensures WithOffset(Within(s, o, values, n, digits), o + 1) == Within(s, o + 1, values, n, digits)
  {
  }

  lemma WithinCounts(s: Context, o: nat, values: seq<nat>, n: nat, digits: bool)
    ensures ValueEnded(Within(s, o, values, n, digits)) == Within(s, o, values, n + 1, false)
  {
  }

  lemma WithinAdds(s: Context, o: nat, values: seq<nat>, n: nat, digits: bool, digit: nat)
    requires digit < 10 && n < |values| && values[n] <= U32_MAX
    ensures DigitAdded(Within(s, o, values, n, digits), digit)
            == Within(s, o, values[n := AddDigit(values[n], digit)], n, true)
  {
    hide AddDigit;
    hide KeepsBounds;
    DigitAddedIs(Within(s, o, values, n, digits), digit);
    hide DigitAdded;
  }

  lemma DigitAddedIs(s: Context, digit: nat)
    requires digit < 10 && s.valuesCount < |s.values| && s.values[s.valuesCount] <= U32_MAX
    ensures DigitAdded(s, digit) ==
            s.(rrr := true, values := s.values[s.valuesCount := AddDigit(s.values[s.valuesCount], digit)])
  {
    hide AddDigit;
    hide KeepsBounds;
  }

  /** A byte inside a control sequence. */
  lemma WithinStep(k: Tables, s: Context, d: Display, o: nat, values: seq<nat>, n: nat, digits: bool, c: nat)
    requires !s.osc && !s.discardNext && c != 0x18 && c != 0x1a
    ensures Step(k, Term(Within(s, o, values, n, digits), d), c) ==
            Sequenced(k, Term(Within(s, o + 1, values, n, digits), d), c)
  {
    hide Step;
    hide Within;
    hide WithOffset;
    hide ValueEnded;
    hide Sequenced;
    hide ShortEscaped;
    WithinIs(s, o, values, n, digits);
    WithinIs(s, o + 1, values, n, digits);
    WithinMoves(s, o, values, n, digits);
    AfterEscape(k, Term(Within(s, o, values, n, digits), d), c);
  }

  lemma DigitWithin(k: Tables, s: Context, d: Display, o: nat, values: seq<nat>, n: nat, digits: bool, digit: nat)
    requires !s.osc && !s.discardNext && digit < 10 && n < |values| && values[n] <= U32_MAX
    ensures Step(k, Term(Within(s, o, values, n, digits), d), 48 + digit) ==
            Term(Within(s, o + 1, values[n := AddDigit(values[n], digit)], n, true), d)
  {
    hide Step;
    hide AddDigit;
    hide Within;
    hide DigitAdded;
    hide ValueEnded;
    hide EmptyAdded;
    hide ValuesEnded;
    WithinStep(k, s, d, o, values, n, digits, 48 + digit);
    WithinAdds(s, o + 1, values, n, digits, digit);
  }

  predicate Digits(ds: seq<nat>) { forall i :: 0 <= i < |ds| ==> ds[i] < 10 }

  function Ascii(ds: seq<nat>): seq<nat> { seq(|ds|, i requires 0 <= i < |ds| => 48 + ds[i]) }

  /** A parameter's digits add up to it. */
  lemma {:induction false} DigitsWithin(k: Tables, s: Context, d: Display, o: nat, values: seq<nat>, n: nat,
                                        ds: seq<nat>)
    requires !s.osc && !s.discardNext && Digits(ds) && n < |values| && values[n] == 0
    ensures Run(k, Term(Within(s, o, values, n, false), d), Ascii(ds)) ==
            Term(Within(s, o + |ds|, values[n := Parameter(ds)], n, ds != []), d)
  {
    hide Step;
    hide Within;
    hide AddDigit;
    if ds == [] {
      assert values[n := 0] == values;
    } else {
      var m := |ds| - 1;
      var t := Term(Within(s, o, values, n, false), d);
      DigitsWithin(k, s, d, o, values, n, ds[..m]);
      assert Ascii(ds) == Ascii(ds[..m]) + [48 + ds[m]];
      RunBoth(k, t, Ascii(ds[..m]), [48 + ds[m]]);
      RunOne(k, Run(k, t, Ascii(ds[..m])), 48 + ds[m]);
      DigitWithin(k, s, d, o + m, values[n := Parameter(ds[..m])], n, ds[..m] != [], ds[m]);
      hide Run;
      assert values[n := Parameter(ds[..m])][n := Parameter(ds)] == values[n := Parameter(ds)];
    }
  }

  lemma SemicolonWithin(k: Tables, s: Context, d: Display, o: nat, values: seq<nat>, n: nat, digits: bool)
    requires !s.osc && !s.discardNext && n < |values| && (!digits ==> values[n] == 0)
    ensures Step(k, Term(Within(s, o, values, n, digits), d), 59) == Term(Within(s, o + 1, values, n + 1, false), d)
  {
    hide Step;
    hide Within;
    hide ValueEnded;
    hide EmptyAdded;
    hide ValuesEnded;
    WithinStep(k, s, d, o, values, n, digits, 59);
    WithinIs(s, o + 1, values, n, digits);
    if digits { WithinCounts(s, o + 1, values, n, digits); } else { WithinSkips(s, o + 1, values, n); }
  }

  lemma WithinSkips(s: Context, o: nat, values: seq<nat>, n: nat)
    requires n < |values| && values[n] == 0
    ensures EmptyAdded(Within(s, o, values, n, false)) == Within(s, o, values, n + 1, false)
  {
    assert values[n := 0] == values;
  }

  /** One to sixteen parameters, some perhaps empty. */
  predicate Parameters(ps: seq<seq<nat>>) {
    0 < |ps| <= MAX_VALUES && forall i :: 0 <= i < |ps| ==> Digits(ps[i])
  }

  /** An empty last one does not count. */
  function Counted(ps: seq<seq<nat>>): nat
    requires Parameters(ps)
  {
    if ps[|ps| - 1] == [] then |ps| - 1 else |ps|
  }

  /** Their digits with semicolons between them. */
  function Joined(ps: seq<seq<nat>>): seq<nat> {
    if |ps| == 0 then [] else if |ps| == 1 then Ascii(ps[0]) else Joined(ps[..|ps| - 1]) + [59] + Ascii(ps[|ps| - 1])
  }

  function ValuesOf(ps: seq<seq<nat>>): (values: seq<nat>)
    requires Parameters(ps)
    ensures |values| == MAX_VALUES
  {
    seq(MAX_VALUES, i requires 0 <= i < MAX_VALUES => if i < |ps| then Parameter(ps[i]) else 0)
  }

  lemma {:induction false} ParametersWithin(k: Tables, s: Context, d: Display, o: nat, ps: seq<seq<nat>>)
    requires !s.osc && !s.discardNext && Parameters(ps)
    ensures Run(k, Term(Within(s, o, Zeros(), 0, false), d), Joined(ps)) ==
            Term(Within(s, o + |Joined(ps)|, ValuesOf(ps), |ps| - 1, ps[|ps| - 1] != []), d)
    decreases |ps|
  {
    hide Step;
    hide Within;
    hide Run;
    hide Parameter;
    var m := |ps| - 1;
    var t := Term(Within(s, o, Zeros(), 0, false), d);
    if m == 0 {
      DigitsWithin(k, s, d, o, Zeros(), 0, ps[0]);
      assert ValuesOf(ps) == Zeros()[0 := Parameter(ps[0])];
    } else {
      var front := ps[..m];
      ParametersWithin(k, s, d, o, front);
      RunBoth(k, t, Joined(front) + [59], Ascii(ps[m]));
      RunBoth(k, t, Joined(front), [59]);
      RunOne(k, Run(k, t, Joined(front)), 59);
      NoDigits(front);
      SemicolonWithin(k, s, d, o + |Joined(front)|, ValuesOf(front), m - 1, front[m - 1] != []);
      DigitsWithin(k, s, d, o + |Joined(front)| + 1, ValuesOf(front), m, ps[m]);
      assert ValuesOf(ps) == ValuesOf(front)[m := Parameter(ps[m])];
    }
  }

  lemma NoDigits(ps: seq<seq<nat>>)
    requires Parameters(ps)
    ensures ps[|ps| - 1] == [] ==> ValuesOf(ps)[|ps| - 1] == 0
  {
  }

  /** The context a final byte finds: the parameters and the defaults for the others. */
  function Complete(s: Context, offset: nat, ps: seq<seq<nat>>, c: nat): Context
    requires Parameters(ps)
  {
    Defaults(Within(s, offset, ValuesOf(ps), Counted(ps), false), c)
  }

  lemma FinalWithin(k: Tables, s: Context, d: Display, o: nat, ps: seq<seq<nat>>, c: nat)
    requires !s.osc && !s.discardNext && Parameters(ps) && (2 <= o || c != 91) && 0x40 <= c <= 0x7e
    ensures var r := Term(Complete(s, o + 1, ps, c), d);
            Step(k, Term(Within(s, o, ValuesOf(ps), |ps| - 1, ps[|ps| - 1] != []), d), c) ==
            if s.decPrivate then Term(Ended(PrivateSet(r, c).s), PrivateSet(r, c).d) else Finished(k, r, c)
  {
    hide Step;
    hide Within;
    hide ValueEnded;
    hide EmptyAdded;
    hide Finished;
    hide PrivateSet;
    hide Defaults;
    hide Ended;
    hide Skipped;
    var digits := ps[|ps| - 1] != [];
    WithinStep(k, s, d, o, ValuesOf(ps), |ps| - 1, digits, c);
    WithinIs(s, o + 1, ValuesOf(ps), |ps| - 1, digits);
    WithinIs(s, o + 1, ValuesOf(ps), Counted(ps), false);
    WithinCounts(s, o + 1, ValuesOf(ps), |ps| - 1, true);
  }

  /** A control sequence does what its final byte says with its parameters; it is taken as a private one exactly if the
      mark of an earlier one is still set. */
  lemma SequenceRuns(k: Tables, t: Term, ps: seq<seq<nat>>, c: nat)
    requires Ground(t.s) && Parameters(ps) && 0x40 <= c <= 0x7e && (Joined(ps) != [] || c != 91)
    ensures var r := Term(Complete(t.s, 2 + |Joined(ps)|, ps, c), t.d);
            Run(k, t, [0x1b, 91] + Joined(ps) + [c]) ==
            if t.s.decPrivate then Term(Ended(PrivateSet(r, c).s), PrivateSet(r, c).d) else Finished(k, r, c)
  {
    hide Step;
    hide Within;
    hide Finished;
    hide PrivateSet;
    hide Complete;
    SequenceOpens(k, t);
    ParametersWithin(k, t.s, t.d, 1, ps);
    FinalWithin(k, t.s, t.d, 1 + |Joined(ps)|, ps, c);
    var open := [0x1b, 91];
    RunBoth(k, t, open, Joined(ps));
    RunBoth(k, t, open + Joined(ps), [c]);
    RunOne(k, Run(k, t, open + Joined(ps)), c);
    hide Run;
  }

  /** A cancelled private sequence leaves its mark behind. */
  lemma PrivateOutlivesCancel(k: Tables, t: Term)
    requires Ground(t.s)
    ensures var r := Run(k, t, [0x1b, 91, 63, 0x18]); Ground(r.s) && r.s.decPrivate && r.d == t.d
  {
    hide Step;
    var open := [0x1b, 91];
    SequenceOpens(k, t);
    var w := Within(t.s, 1, Zeros(), 0, false);
    WithinStep(k, t.s, t.d, 1, Zeros(), 0, false, 63);
    var v := Introduced(Within(t.s, 2, Zeros(), 0, false), true);
    MarkSet(k, Term(Within(t.s, 2, Zeros(), 0, false), t.d));
    assert [0x1b, 91, 63, 0x18] == open + [63] + [0x18];
    RunBoth(k, t, open, [63]);
    RunBoth(k, t, open + [63], [0x18]);
    RunOne(k, Term(w, t.d), 63);
    RunOne(k, Term(v, t.d), 0x18);
    Cancels(k, Term(v, t.d));
  }

  lemma MarkSet(k: Tables, t: Term)
    requires t.s.escapeOffset == 2
    ensures Sequenced(k, t, 63) == Term(Introduced(t.s, true), t.d)
  {
  }

  /** Whatever was in progress, CAN ends it, and shows nothing. */
  lemma Cancels(k: Tables, t: Term)
    ensures Step(k, t, 0x18) == Term(Abandoned(t.s), t.d) && Ground(Abandoned(t.s))
  {
    hide Received;
    hide Continued;
  }

  // ---------- what some of them do ----------

  /** Held to a screen of at most a tenth of the range, a parameter of any length counts as its decimal value. */
  lemma PlaceExact(ds: seq<nat>, n: nat)
    requires Digits(ds) && n <= U32_MAX / 10
    ensures Place(Parameter(ds), n) == Place(Decimal(ds), n)
  {
    ParameterExact(ds);
  }

  /** The context a sequence leaves is between sequences. */
  lemma EndsGround(s: Context, o: nat, ps: seq<seq<nat>>, c: nat)
    requires Ground(s) && Parameters(ps)
    ensures Ground(Ended(Complete(s, o, ps, c))) && Complete(s, o, ps, c).originMode == s.originMode
    ensures Complete(s, o, ps, c).valuesCount == Counted(ps)
    ensures Complete(s, o, ps, c).values == WithDefaults(ValuesOf(ps), Counted(ps), if ZeroDefault(c) then 0 else 1)
  {
    hide WithDefaults;
    hide ValuesOf;
  }

  /** Zero and one are the same place. */
  lemma FirstPlace(v: nat, n: nat)
    ensures Place(if v == 0 then 1 else v, n) == Place(v, n)
  {
  }

  /** Cursor position: row r and column c counted from one, whatever the digits, the nearest if the screen has none. */
  lemma CursorPlaced(k: Tables, t: Term, r: seq<nat>, c: seq<nat>)
    requires Ground(t.s) && !t.s.decPrivate && Parameters([r, c]) && Digits(r) && Digits(c)
    requires t.d.cols <= U32_MAX / 10 && t.d.bottom <= t.d.rows <= U32_MAX / 10
    ensures var first := if t.s.originMode then t.d.top else 0;
            var rows := if t.s.originMode then Less(t.d.bottom, t.d.top) else t.d.rows;
            var u := Run(k, t, [0x1b, 91] + Joined([r, c]) + [72]);
            Ground(u.s) && u.d == MovedTo(t.d, Place(Decimal(c), t.d.cols), first + Place(Decimal(r), rows))
  {
    hide Step;
    hide Run;
    hide Ground;
    hide Finished;
    hide PrivateSet;
    hide Complete;
    hide Place;
    hide Decimal;
    hide Parameter;
    SequenceRuns(k, t, [r, c], 72);
    var rows := if t.s.originMode then Less(t.d.bottom, t.d.top) else t.d.rows;
    PlaceExact(c, t.d.cols);
    PlaceExact(r, rows);
    PlacedBy(k, t, 2 + |Joined([r, c])|, r, c);
  }

  lemma PlacedBy(k: Tables, t: Term, o: nat, r: seq<nat>, c: seq<nat>)
    requires Ground(t.s) && Parameters([r, c]) && Digits(r) && Digits(c)
    ensures var u := Finished(k, Term(Complete(t.s, o, [r, c], 72), t.d), 72);
            var first := if t.s.originMode then t.d.top else 0;
            var rows := if t.s.originMode then Less(t.d.bottom, t.d.top) else t.d.rows;
            Ground(u.s) && u.d == MovedTo(t.d, Place(Parameter(c), t.d.cols), first + Place(Parameter(r), rows))
  {
    hide Parameter;
    hide Complete;
    hide Finished;
    hide Ended;
    hide Place;
    hide ValueAt;
    hide WithDefaults;
    var s := Complete(t.s, o, [r, c], 72);
    EndsGround(t.s, o, [r, c], 72);
    PlaceValues(t.s, o, r, c);
    FirstPlace(Parameter(r), t.d.rows);
    FirstPlace(Parameter(r), Less(t.d.bottom, t.d.top));
    FirstPlace(Parameter(c), t.d.cols);
    PlacesOnly(k, s, t.d);
  }

  lemma PlaceValues(s: Context, o: nat, r: seq<nat>, c: seq<nat>)
    requires Ground(s) && Parameters([r, c]) && Digits(r) && Digits(c)
    ensures var w := Complete(s, o, [r, c], 72);
            && ValueAt(w, 0) == (if Parameter(r) == 0 then 1 else Parameter(r))
            && ValueAt(w, 1) == if Parameter(c) == 0 then 1 else Parameter(c)
  {
    EndsGround(s, o, [r, c], 72);
    hide Complete;
    hide Parameter;
  }

  lemma PlacesOnly(k: Tables, s: Context, d: Display)
    ensures Finished(k, Term(s, d), 72) == Term(Ended(s), Placed(d, s.originMode, 72, ValueAt(s, 0), ValueAt(s, 1)))
  {
    hide Ended;
    hide ValueAt;
    hide Moved;
    hide Place;
    hide RenditionSet;
  }

  // ---------- graphic rendition and erasing ----------

  /** q is r but for the display under the pen, which is d. */
  predicate PenOnly(r: Term, q: Term, d: Display) { q.s == r.s && q.d == d.(pen := r.d.pen) }

  lemma WithPenOnly(t: Term, d: Display, s: Context, p: Cell)
    ensures PenOnly(WithPen(t, s, p), WithPen(Term(t.s, d), s, p), d)
  {
  }

  lemma ResetPenOnly(t: Term, d: Display)
    requires d.pen == t.d.pen
    ensures PenOnly(PenReset(t), PenReset(Term(t.s, d)), d)
  {
    hide WithPen;
    hide PenOnly;
    hide PlainPen;
    hide Unstyled;
    WithPenOnly(t, d, Unstyled(t.s), PlainPen(d.pen, t.s.reverseVideo));
  }

  lemma BoldPenOnly(t: Term, d: Display, fg: bool, bold: bool)
    requires d.pen == t.d.pen
    ensures PenOnly(Bolded(t, fg, bold), Bolded(Term(t.s, d), fg, bold), d)
  {
    hide WithPen;
    hide PenOnly;
    hide WithBold;
    hide Recoloured;
    WithPenOnly(t, d, WithBold(t.s, fg, bold),
                Recoloured(d.pen, fg != t.s.reverseVideo, if fg then t.s.primary else t.s.background, bold));
  }

  lemma ReversePenOnly(t: Term, d: Display, on: bool)
    requires d.pen == t.d.pen
    ensures PenOnly(Reversed(t, on), Reversed(Term(t.s, d), on), d)
  {
    hide WithPen;
    hide PenOnly;
    hide WithReverse;
    hide SwappedIf;
    WithPenOnly(t, d, WithReverse(t.s, on), SwappedIf(d.pen, t.s.reverseVideo != on));
  }

  lemma ColourPenOnly(t: Term, d: Display, v: nat)
    requires d.pen == t.d.pen && v % 10 < 8
    ensures PenOnly(ColourSet(t, v), ColourSet(Term(t.s, d), v), d)
  {
    hide WithPen;
    hide PenOnly;
    hide WithCurrent;
    hide Coloured;
    var text := v < 40 || 90 <= v < 100;
    var bright := 90 <= v || (if text then t.s.bold else t.s.bgBold);
    WithPenOnly(t, d, WithCurrent(t.s, text, v % 10), Coloured(d.pen, text != t.s.reverseVideo, v % 10, bright));
  }

  lemma DefaultPenOnly(t: Term, d: Display, fg: bool)
    requires d.pen == t.d.pen
    ensures PenOnly(DefaultSet(t, fg), DefaultSet(Term(t.s, d), fg), d)
  {
    hide WithPen;
    hide PenOnly;
    hide WithCurrent;
    hide Defaulted;
    hide SwappedIf;
    var p := Defaulted(SwappedIf(d.pen, t.s.reverseVideo), fg, if fg then t.s.bold else t.s.bgBold);
    WithPenOnly(t, d, WithCurrent(t.s, fg, -1), SwappedIf(p, t.s.reverseVideo));
  }

  /** A rendition parameter looks at the pen and the context, and changes only these. */
  lemma RenderedPenOnly(t: Term, d: Display, v: nat)
    requires d.pen == t.d.pen
    ensures PenOnly(Rendered(t, v), Rendered(Term(t.s, d), v), d)
  {
    hide PenReset;
    hide Bolded;
    hide ColourSet;
    hide DefaultSet;
    hide Reversed;
    ResetPenOnly(t, d);
    BoldPenOnly(t, d, v == 1 || v == 22, v == 1 || v == 5);
    if v % 10 < 8 { ColourPenOnly(t, d, v); }
    DefaultPenOnly(t, d, v == 39);
    ReversePenOnly(t, d, v == 7);
  }

  lemma OneRendition(k: Tables, t: Term, v: nat)
    requires v != 38 && v != 48
    ensures RenderedFrom(k, t, [v], 0) == Rendered(t, v)
  {
    hide Rendered;
    assert RenderedFrom(k, Rendered(t, v), [v], 1) == Rendered(t, v);
  }

  /** No parameter is zero. */
  lemma BareRendition(k: Tables, t: Term)
    requires t.s.valuesCount == 0
    ensures RenditionSet(k, t) == Rendered(t, 0)
  {
    hide PenReset;
  }

  /** A sequence that gives one rendition parameter, or none, renders it and ends. */
  lemma RenditionRuns(k: Tables, t: Term, ds: seq<nat>)
    requires Ground(t.s) && !t.s.decPrivate && Parameters([ds]) && Digits(ds)
    requires Parameter(ds) != 38 && Parameter(ds) != 48
    ensures var r := Rendered(Term(Complete(t.s, 2 + |Joined([ds])|, [ds], 109), t.d), Parameter(ds));
            Run(k, t, [0x1b, 91] + Joined([ds]) + [109]) == Term(Ended(r.s), r.d)
  {
    hide Step;
    hide Run;
    hide Finished;
    hide PrivateSet;
    hide Complete;
    hide Parameter;
    hide Rendered;
    SequenceRuns(k, t, [ds], 109);
    RenditionFinished(k, t, 2 + |Joined([ds])|, ds);
  }

  lemma RenditionFinished(k: Tables, t: Term, o: nat, ds: seq<nat>)
    requires Ground(t.s) && Parameters([ds]) && Digits(ds) && Parameter(ds) != 38 && Parameter(ds) != 48
    ensures var s := Complete(t.s, o, [ds], 109);
            var r := Rendered(Term(s, t.d), Parameter(ds));
            Finished(k, Term(s, t.d), 109) == Term(Ended(r.s), r.d)
  {
    hide Complete;
    hide Parameter;
    hide Rendered;
    hide RenderedFrom;
    hide Ended;
    hide PenReset;
    var s, v := Complete(t.s, o, [ds], 109), Parameter(ds);
    EndsGround(t.s, o, [ds], 109);
    var d := t.d.(wrap := true, scroll := false);
    if ds == [] {
      assert v == 0 by { NoDigits([ds]); }
      BareRendition(k, Term(s, d));
    } else {
      assert Given(s) == [v];
      OneRendition(k, Term(s, d), v);
    }
    RenderedPenOnly(Term(s, t.d), d, v);
    RenderedPenOnly(Term(s, d), t.d, v);
  }

  /** SGR 0: the plain colours, whatever the pen was, and no attribute left. */
  lemma PlainAgain(k: Tables, t: Term)
    requires Ground(t.s) && !t.s.decPrivate
    ensures var u := Run(k, t, [0x1b, 91, 48, 109]);
            && Ground(u.s) && !u.s.bold && !u.s.bgBold && !u.s.reverseVideo && u.s.primary == u.s.background == -1
            && u.d == t.d.(pen := u.d.pen)
            && forall c :: LookOf(u.d.pen.(c := c)) == Look(c, Some(DefaultColour(false)), None)
  {
    hide Run;
    hide Complete;
    OneDigit(0, 109);
    RenditionRuns(k, t, [0]);
    EndsGround(t.s, 2 + |Joined([[0]])|, [[0]], 109);
    PlainContextAfter(Complete(t.s, 2 + |Joined([[0]])|, [[0]], 109));
  }

  lemma OneDigit(n: nat, c: nat)
    requires n < 10
    ensures Parameters([[n]]) && Digits([n]) && Parameter([n]) == n
    ensures [0x1b, 91] + Joined([[n]]) + [c] == [0x1b, 91, 48 + n, c]
  {
    assert [n][..0] == [] && Parameter([]) == 0;
    assert Ascii([n]) == [48 + n];
  }

  lemma PlainContextAfter(s: Context)
    ensures var r := Ended(Unstyled(s));
            && !r.bold && !r.bgBold && !r.reverseVideo && r.primary == r.background == -1
            && (Ground(Ended(s)) ==> Ground(r))
  {
  }

  /** SGR 7 and 27 turn reverse video on and off: the pen's sides are swapped if that changes anything. */
  lemma ReverseRuns(k: Tables, t: Term, ds: seq<nat>, on: bool)
    requires Ground(t.s) && !t.s.decPrivate && Digits(ds) && Parameters([ds]) && Parameter(ds) == (if on then 7 else 27)
    ensures var u := Run(k, t, [0x1b, 91] + Joined([ds]) + [109]);
            && Ground(u.s) && !u.s.decPrivate && u.s.reverseVideo == on
            && u.d == t.d.(pen := SwappedIf(t.d.pen, t.s.reverseVideo != on))
  {
    hide Run;
    hide Complete;
    hide Joined;
    hide Parameter;
    hide WithReverse;
    hide Ended;
    hide SwappedIf;
    RenditionRuns(k, t, ds);
    var o := 2 + |Joined([ds])|;
    EndsGround(t.s, o, [ds], 109);
    ReversedAfter(Complete(t.s, o, [ds], 109), on);
    SameReverse(t.s, o, [ds], 109);
  }

  /** SGR 7 and then 27: the pen is back exactly if the text was not reversed before, or looks the same both ways. */
  lemma ReverseAndBack(k: Tables, t: Term)
    requires Ground(t.s) && !t.s.decPrivate
    ensures var u := Run(k, t, [0x1b, 91, 55, 109]);
            var v := Run(k, u, [0x1b, 91] + Joined([[2, 7]]) + [109]);
            && u.s.reverseVideo && u.d == t.d.(pen := SwappedIf(t.d.pen, !t.s.reverseVideo))
            && Ground(v.s) && !v.s.reverseVideo
            && (v.d == t.d <==> !t.s.reverseVideo || Swapped(t.d.pen) == t.d.pen)
  {
    hide Run;
    hide Joined;
    hide Ground;
    hide Parameter;
    OneDigit(7, 109);
    TwoDigits();
    ReverseRuns(k, t, [7], true);
    var u := Run(k, t, [0x1b, 91, 55, 109]);
    ReverseRuns(k, u, [2, 7], false);
    assert Swapped(Swapped(t.d.pen)) == t.d.pen;
  }

  lemma TwoDigits()
    ensures Parameters([[2, 7]]) && Digits([2, 7]) && Parameter([2, 7]) == 27
    ensures Parameters([[2, 5]]) && Digits([2, 5]) && Parameter([2, 5]) == 25
  {
    assert [2, 7][..1] == [2] && [2, 5][..1] == [2] && [2][..0] == [];
    assert Parameter([]) == 0;
    assert Parameter([2]) == 2;
  }

  lemma ReversedAfter(s: Context, on: bool)
    ensures var r := Ended(WithReverse(s, on));
            r.reverseVideo == on && r.decPrivate == s.decPrivate && (Ground(Ended(s)) ==> Ground(r))
  {
  }

  lemma SameReverse(s: Context, o: nat, ps: seq<seq<nat>>, c: nat)
    requires Parameters(ps)
    ensures Complete(s, o, ps, c).reverseVideo == s.reverseVideo && Complete(s, o, ps, c).decPrivate == s.decPrivate
  {
    hide ValuesOf;
    hide WithDefaults;
  }

  /** ESC [ 2 J: every cell is a blank in the pen's colours, and nothing else changes. */
  lemma ErasedAll(k: Tables, t: Term)
    requires Ground(t.s) && !t.s.decPrivate && |t.d.screen| == t.d.rows * t.d.cols
    ensures var u := Run(k, t, [0x1b, 91, 50, 74]);
            && Ground(u.s) && u.d == t.d.(screen := u.d.screen) && |u.d.screen| == |t.d.screen|
            && forall i :: 0 <= i < |u.d.screen| ==> u.d.screen[i] == Blank(t.d)
  {
    hide Run;
    hide Finished;
    hide PrivateSet;
    OneDigit(2, 74);
    SequenceRuns(k, t, [[2]], 74);
    var s := Complete(t.s, 2 + |Joined([[2]])|, [[2]], 74);
    EndsGround(t.s, 2 + |Joined([[2]])|, [[2]], 74);
    assert ValueAt(s, 0) == 2;
    hide Complete;
    ErasesOnly(k, s, t.d);
  }

  lemma ErasesOnly(k: Tables, s: Context, d: Display)
    ensures Finished(k, Term(s, d), 74) == Term(Ended(s), DisplayErased(d, ValueAt(s, 0)))
  {
    hide Ended;
    hide ValueAt;
    hide Moved;
    hide Placed;
    hide ErasedDisplay;
    hide RenditionSet;
  }

  // ---------- private sequences ----------

  /** In a private sequence. */
  function Privately(s: Context): Context { s.(decPrivate := true) }

  lemma PrivateOpens(k: Tables, t: Term)
    requires Ground(t.s)
    ensures Run(k, t, [0x1b, 91, 63]) == Term(Within(Privately(t.s), 2, Zeros(), 0, false), t.d)
    ensures !Privately(t.s).osc && !Privately(t.s).discardNext && Privately(t.s).decPrivate
  {
    hide Step;
    SequenceOpens(k, t);
    WithinStep(k, t.s, t.d, 1, Zeros(), 0, false, 63);
    MarkSet(k, Term(Within(t.s, 2, Zeros(), 0, false), t.d));
    PrivateWithin(t.s);
    assert [0x1b, 91, 63] == [0x1b, 91] + [63];
    RunBoth(k, t, [0x1b, 91], [63]);
    RunOne(k, Term(Within(t.s, 1, Zeros(), 0, false), t.d), 63);
    hide Within;
  }

  lemma PrivateWithin(s: Context)
    ensures Introduced(Within(s, 2, Zeros(), 0, false), true) == Within(Privately(s), 2, Zeros(), 0, false)
  {
    hide *;
    PrivateIs(Within(s, 2, Zeros(), 0, false));
    PrivateFirst(s, 2, Zeros(), 0, false);
  }

  lemma PrivateFirst(s: Context, o: nat, values: seq<nat>, n: nat, digits: bool)
    ensures Privately(Within(s, o, values, n, digits)) == Within(Privately(s), o, values, n, digits)
  {
  }

  lemma PrivateIs(s: Context)
    ensures Introduced(s, true) == Privately(s)
  {
    hide KeepsBounds;
  }

  /** ESC [ ? with parameters sets or resets the modes they name. */
  lemma PrivateRuns(k: Tables, t: Term, ps: seq<seq<nat>>, c: nat)
    requires Ground(t.s) && Parameters(ps) && 0x40 <= c <= 0x7e
    ensures var r := PrivateSet(Term(Complete(Privately(t.s), 3 + |Joined(ps)|, ps, c), t.d), c);
            Run(k, t, [0x1b, 91, 63] + Joined(ps) + [c]) == Term(Ended(r.s), r.d)
  {
    hide Step;
    hide Within;
    hide Finished;
    hide PrivateSet;
    hide Complete;
    hide Privately;
    PrivateOpens(k, t);
    ParametersWithin(k, Privately(t.s), t.d, 2, ps);
    FinalWithin(k, Privately(t.s), t.d, 2 + |Joined(ps)|, ps, c);
    var open := [0x1b, 91, 63];
    RunBoth(k, t, open, Joined(ps));
    RunBoth(k, t, open + Joined(ps), [c]);
    RunOne(k, Run(k, t, open + Joined(ps)), c);
    hide Run;
  }

  /** ESC [ ? 25 h and l show and hide the cursor, and do nothing else. */
  lemma CursorShown(k: Tables, t: Term, on: bool)
    requires Ground(t.s)
    ensures var u := Run(k, t, [0x1b, 91, 63] + Joined([[2, 5]]) + [if on then 104 else 108]);
            Ground(u.s) && !u.s.decPrivate && u.d == t.d.(cursorOn := on)
  {
    hide Run;
    hide Complete;
    hide PrivateSet;
    hide Privately;
    hide NotPrivate;
    hide Ended;
    hide Ground;
    hide Joined;
    TwoDigits();
    var c, o := if on then 104 else 108, 3 + |Joined([[2, 5]])|;
    PrivateRuns(k, t, [[2, 5]], c);
    PrivateGiven(t.s, o, c);
    CursorMode(Complete(Privately(t.s), o, [[2, 5]], c), t.d, on);
  }

  lemma CursorMode(s: Context, d: Display, on: bool)
    requires Given(s) == [25]
    ensures PrivateSet(Term(s, d), if on then 104 else 108) == Term(NotPrivate(s), d.(cursorOn := on))
  {
    hide ModesSet;
    hide NotPrivate;
    hide Given;
    OneMode(Term(NotPrivate(s), d), 25, on);
  }

  lemma OneMode(t: Term, mode: nat, on: bool)
    ensures ModesSet(t, [mode], 1, on) == ModeSet(t, mode, on)
  {
    hide ModeSet;
    assert ModesSet(t, [mode], 0, on) == t;
  }

  lemma PrivateGiven(s: Context, o: nat, c: nat)
    requires Ground(s) && Parameters([[2, 5]]) && Parameter([2, 5]) == 25
    ensures var w := Complete(Privately(s), o, [[2, 5]], c);
            Given(w) == [25] && Ground(Ended(NotPrivate(w))) && !Ended(NotPrivate(w)).decPrivate
  {
    hide Parameter;
    var p := Privately(s);
    assert Ground(p);
    EndsGround(p, o, [[2, 5]], c);
    var w := Complete(p, o, [[2, 5]], c);
    assert ValuesOf([[2, 5]])[0] == 25;
    hide Complete;
    assert w.values[0] == 25 && Given(w) == [25];
    PublicAgain(w);
  }

  lemma PublicAgain(s: Context)
    ensures !Ended(NotPrivate(s)).decPrivate && (Ground(Ended(s)) ==> Ground(Ended(NotPrivate(s))))
  {
  }

  // ---------- operating system commands ----------

  /** Inside a command. */
  predicate InCommand(s: Context) {
    && s.escape && s.osc && !s.oscEscape && !s.controlSequence && !s.discardNext
    && s.unicodeRemaining == 0 && s.gSelect == 0
  }

  lemma CommandOpens(k: Tables, t: Term)
    requires Ground(t.s)
    ensures var u := Run(k, t, [0x1b, 93]); InCommand(u.s) && u.d == t.d
  {
    assert [0x1b, 93] == [0x1b] + [93];
    RunBoth(k, t, [0x1b], [93]);
    RunOne(k, t, 0x1b);
    EscapeOpens(k, t);
    RunOne(k, Term(EscapeOpened(t.s), t.d), 93);
    AfterEscape(k, Term(EscapeOpened(t.s), t.d), 93);
    hide Step;
    hide Run;
    hide Sequenced;
    hide ShortEscaped;
  }

  /** A byte of a command goes to the command. */
  lemma CommandStep(k: Tables, t: Term, c: nat)
    requires t.s.escape && t.s.osc && !t.s.discardNext && c != 0x18 && c != 0x1a && !OscCut(t.s, c)
    ensures Step(k, t, c) == Term(OscStep(WithOffset(t.s, t.s.escapeOffset + 1), c), t.d)
  {
    hide WithOffset;
    hide OscStep;
    hide Introduces;
    hide Plain;
    hide BrokenOff;
    hide Continued;
    hide Continue;
    hide Abandoned;
    hide PointOpened;
    hide Lead;
    hide ShortEscaped;
    CommandOffset(t.s, t.s.escapeOffset + 1);
  }

  lemma CommandOffset(s: Context, n: nat)
    ensures var r := WithOffset(s, n);
            r.osc == s.osc && r.oscEscape == s.oscEscape && r.escape == s.escape && (InCommand(s) ==> InCommand(r))
  {
  }

  lemma CommandByte(s: Context, c: nat)
    requires InCommand(s) && c != 0x1b && c != 7
    ensures InCommand(OscStep(s, c))
  {
  }

  lemma CommandBell(s: Context)
    requires InCommand(s)
    ensures Ground(OscStep(s, 7))
  {
  }

  lemma CommandEscape(s: Context, n: nat)
    requires InCommand(s)
    ensures var r := OscStep(s, 0x1b);
            r.escape && r.osc && r.oscEscape && !r.discardNext && Ground(OscStep(WithOffset(r, n), 92))
  {
  }

  /** No byte that ends a command. */
  predicate CommandText(text: seq<nat>) {
    0x1b !in text && 7 !in text && 0x18 !in text && 0x1a !in text
  }

  lemma {:induction false} CommandRuns(k: Tables, t: Term, text: seq<nat>)
    requires InCommand(t.s) && CommandText(text)
    ensures var u := Run(k, t, text); InCommand(u.s) && u.d == t.d
  {
    hide Step;
    hide OscStep;
    hide WithOffset;
    if text != [] {
      var n := |text| - 1;
      CommandRuns(k, t, text[..n]);
      var u := Run(k, t, text[..n]);
      CommandStep(k, u, text[n]);
      CommandOffset(u.s, u.s.escapeOffset + 1);
      CommandByte(WithOffset(u.s, u.s.escapeOffset + 1), text[n]);
    }
  }

  /** A command of any length, ended either way, shows nothing and leaves the terminal between sequences. */
  lemma CommandShowsNothing(k: Tables, t: Term, text: seq<nat>, bell: bool)
    requires Ground(t.s) && CommandText(text)
    ensures var u := Run(k, t, [0x1b, 93] + text + if bell then [7] else [0x1b, 92]); Ground(u.s) && u.d == t.d
  {
    hide Step;
    hide Run;
    hide OscStep;
    hide WithOffset;
    hide InCommand;
    CommandOpens(k, t);
    var u := Run(k, t, [0x1b, 93]);
    CommandRuns(k, u, text);
    RunBoth(k, t, [0x1b, 93], text);
    var v := Run(k, t, [0x1b, 93] + text);
    RunBoth(k, t, [0x1b, 93] + text, if bell then [7] else [0x1b, 92]);
    if bell { BellEnds(k, v); } else { TerminatorEnds(k, v); }
  }

  lemma BellEnds(k: Tables, t: Term)
    requires InCommand(t.s)
    ensures var u := Run(k, t, [7]); Ground(u.s) && u.d == t.d
  {
    RunOne(k, t, 7);
    CommandStep(k, t, 7);
    CommandOffset(t.s, t.s.escapeOffset + 1);
    hide Step;
    hide Run;
    hide OscStep;
    hide WithOffset;
    CommandBell(WithOffset(t.s, t.s.escapeOffset + 1));
  }

  lemma TerminatorEnds(k: Tables, t: Term)
    requires InCommand(t.s)
    ensures var u := Run(k, t, [0x1b, 92]); Ground(u.s) && u.d == t.d
  {
    hide Step;
    hide Run;
    hide OscStep;
    hide WithOffset;
    assert [0x1b, 92] == [0x1b] + [92];
    RunBoth(k, t, [0x1b], [92]);
    RunOne(k, t, 0x1b);
    CommandStep(k, t, 0x1b);
    CommandOffset(t.s, t.s.escapeOffset + 1);
    var s := WithOffset(t.s, t.s.escapeOffset + 1);
    var u := Term(OscStep(s, 0x1b), t.d);
    CommandEscape(s, u.s.escapeOffset + 1);
    RunOne(k, u, 92);
    CommandStep(k, u, 92);
  }

  // ---------- saving and restoring ----------

  lemma ShortEscapeRuns(k: Tables, t: Term, c: nat)
    requires Ground(t.s) && c != 0x1b && c != 93 && c != 91 && c != 0x18 && c != 0x1a
    ensures var r := ShortEscaped(Term(WithOffset(EscapeOpened(t.s), 1), t.d), c);
            Run(k, t, [0x1b, c]) == Term(Unescaped(r.s), r.d)
  {
    assert [0x1b, c] == [0x1b] + [c];
    RunBoth(k, t, [0x1b], [c]);
    RunOne(k, t, 0x1b);
    EscapeOpens(k, t);
    RunOne(k, Term(EscapeOpened(t.s), t.d), c);
    hide ShortEscaped;
    hide Sequenced;
    hide Plain;
    hide Run;
  }

  /** ESC ( B and ESC ( 0 make the first character set ASCII or the special graphics, ESC ) B and ESC ) 0 the second,
      and they show nothing. */
  lemma CharsetChosen(k: Tables, t: Term, second: bool, special: bool)
    requires Ground(t.s) && |t.s.charsets| == 2
    ensures var u := Run(k, t, [0x1b, if second then 41 else 40, if special then 48 else 66]);
            && Ground(u.s) && u.d == t.d && u.s.currentCharset == t.s.currentCharset
            && u.s.charsets == t.s.charsets[(if second then 1 else 0) := if special then 1 else 0]
  {
    hide Run;
    hide Step;
    hide ShortEscaped;
    hide Unescaped;
    hide WithSelected;
    hide WithOffset;
    hide EscapeOpened;
    var g, c := if second then 2 else 1, if special then 48 else 66;
    assert [0x1b, 39 + g, c] == [0x1b, 39 + g] + [c];
    RunBoth(k, t, [0x1b, 39 + g], [c]);
    ShortEscapeRuns(k, t, 39 + g);
    Selects(Term(WithOffset(EscapeOpened(t.s), 1), t.d), g);
    SetSelected(t.s, g);
    var v := Term(Unescaped(WithSelected(WithOffset(EscapeOpened(t.s), 1), g)), t.d);
    RunOne(k, v, c);
    SetNamed(k, v, g, c);
  }

  lemma Selects(t: Term, g: nat)
    requires g == 1 || g == 2
    ensures ShortEscaped(t, 39 + g) == Term(WithSelected(t.s, g), t.d)
  {
    hide WithSelected;
  }

  lemma SetSelected(s: Context, g: nat)
    requires Ground(s)
    ensures var r := Unescaped(WithSelected(WithOffset(EscapeOpened(s), 1), g));
            && r.gSelect == g && !r.escape && !r.discardNext && r.unicodeRemaining == 0 && !r.controlSequence && !r.osc
            && r.charsets == s.charsets && r.currentCharset == s.currentCharset
  {
  }

  lemma NamedSet(s: Context, g: nat, c: nat)
    requires s.gSelect == g && !s.escape && !s.discardNext && s.unicodeRemaining == 0 && !s.controlSequence
    requires !s.osc && |s.charsets| == 2 && (g == 1 || g == 2) && (c == 48 || c == 66)
    ensures var r := CharsetNamed(s, c);
            && Ground(r) && r.currentCharset == s.currentCharset
            && r.charsets == s.charsets[g - 1 := if c == 48 then 1 else 0]
  {
    hide KeepsBounds;
  }

  lemma SetNamed(k: Tables, t: Term, g: nat, c: nat)
    requires t.s.gSelect == g && !t.s.escape && !t.s.discardNext && t.s.unicodeRemaining == 0 && !t.s.controlSequence
    requires !t.s.osc && |t.s.charsets| == 2 && (g == 1 || g == 2) && (c == 48 || c == 66)
    ensures var u := Step(k, t, c);
            && Ground(u.s) && u.d == t.d && u.s.currentCharset == t.s.currentCharset
            && u.s.charsets == t.s.charsets[g - 1 := if c == 48 then 1 else 0]
  {
    hide Escaped;
    hide Printed;
    hide Controlled;
    hide BrokenOff;
    hide Continued;
    hide Continue;
    hide Abandoned;
    hide PointOpened;
    hide PlainContext;
    hide EscapeOpened;
    hide CharsetShifted;
    hide CharsetNamed;
    hide KeepsBounds;
    NamedSet(t.s, g, c);
  }

  /** The parameters a final byte finds. */
  function GivenAtEnd(s: Context): seq<nat> { Given(if s.rrr then ValueEnded(s) else s) }

  /** The byte saves or resets: the last one of ESC 7, of ESC c, or of a private sequence that sets mode 1049. */
  predicate Resaves(s: Context, c: nat) {
    s.escape && (!s.osc || OscCut(s, c)) && EndsSaving(s, c)
  }

  predicate EndsSaving(s: Context, c: nat) {
    if s.controlSequence then c == 104 && s.decPrivate && 1049 in GivenAtEnd(s) else c == 55 || c == 99
  }

  lemma ModeKeeps(t: Term, mode: nat, on: bool)
    requires !(mode == 1049 && on)
    ensures SameSaved(t, ModeSet(t, mode, on))
  {
    hide RestoredAll;
    hide Cleared;
    hide MovedTo;
    hide WithOrigin;
    hide SavedAll;
  }

  lemma {:induction false} ModesKeep(t: Term, modes: seq<nat>, n: nat, on: bool)
    requires n <= |modes| && !(on && 1049 in modes)
    ensures SameSaved(t, ModesSet(t, modes, n, on))
  {
    hide ModeSet;
    if n > 0 {
      ModesKeep(t, modes, n - 1, on);
      ModeKeeps(ModesSet(t, modes, n - 1, on), modes[n - 1], on);
    }
  }

  /** Defaults change zeros only. */
  lemma DefaultsGiven(s: Context, c: nat)
    ensures 1049 in Given(Defaults(s, c)) <==> 1049 in Given(s)
  {
    var r := Defaults(s, c);
    assert r.valuesCount == s.valuesCount && |r.values| == |s.values|;
    var a, b := Given(s), Given(r);
    assert |a| == |b|;
    assert forall i :: 0 <= i < |a| ==> b[i] == if a[i] == 0 then (if ZeroDefault(c) then 0 else 1) else a[i];
    if 1049 in a {
      var i :| 0 <= i < |a| && a[i] == 1049;
      assert b[i] == 1049;
    }
  }

  lemma PrivateKeeps(t: Term, c: nat)
    requires !(c == 104 && 1049 in Given(t.s))
    ensures SameSaved(t, PrivateSet(t, c))
  {
    hide ModesSet;
    hide NotPrivate;
    hide Given;
    var r := Term(NotPrivate(t.s), t.d);
    if c == 104 || c == 108 { ModesKeep(r, Given(t.s), |Given(t.s)|, c == 104); }
  }

  lemma FunctionKeeps(k: Tables, t: Term, c: nat, scroll: bool, wrap: bool)
    ensures SameSaved(t, Function(k, t, c, scroll, wrap))
  {
    hide Performed;
    hide DeletedChars;
    hide RenditionSet;
    hide Repeated;
    hide OnDisplay;
    hide FirstFits;
    hide WithSavedCursor;
    hide WithInsert;
    hide ValueAt;
  }

  lemma FinishedKeeps(k: Tables, t: Term, c: nat)
    ensures SameSaved(t, Finished(k, t, c))
  {
    hide Function;
    hide Known;
    hide Restarted;
    hide Ended;
    hide Unknown;
    FunctionKeeps(k, Term(t.s, t.d.(wrap := true, scroll := false)), c, t.d.scroll, t.d.wrap);
  }

  lemma ValuesEndedKeeps(k: Tables, t: Term, c: nat)
    requires !(c == 104 && t.s.decPrivate && 1049 in Given(t.s))
    ensures SameSaved(t, ValuesEnded(k, t, c))
  {
    hide Finished;
    hide PrivateSet;
    hide Given;
    hide Defaults;
    hide Unknown;
    hide NotPrivate;
    hide Ended;
    hide Skipped;
    DefaultsGiven(t.s, c);
    var r := Term(Defaults(t.s, c), t.d);
    FinishedKeeps(k, r, c);
    if !(c == 104 && 1049 in Given(r.s)) { PrivateKeeps(r, c); }
  }

  /** Counting a parameter does not change whether the sequence is private. */
  lemma CountKeeps(s: Context)
    ensures ValueEnded(s).decPrivate == s.decPrivate
  {
  }

  lemma SequencedKeeps(k: Tables, t: Term, c: nat)
    requires !(c == 104 && t.s.decPrivate && 1049 in GivenAtEnd(t.s))
    ensures SameSaved(t, Sequenced(k, t, c))
  {
    CountKeeps(t.s);
    hide ValuesEnded;
    hide Controlled;
    hide Given;
    hide Introduced;
    hide CharsetShifted;
    hide DigitAdded;
    hide ValueEnded;
    hide EmptyAdded;
    var s := if t.s.rrr then ValueEnded(t.s) else t.s;
    ValuesEndedKeeps(k, Term(s, t.d), c);
  }

  lemma IntroducesKeeps(k: Tables, t: Term, c: nat)
    requires !EndsSaving(t.s, c)
    ensures SameSaved(t, Introduces(k, t, c))
  {
    hide Sequenced;
    hide GivenAtEnd;
    hide HardReset;
    hide LineFed;
    hide ReverseFed;
    hide RestoredAll;
    hide SavedAll;
    hide WithSelected;
    hide WithOffset;
    hide OscOpened;
    hide SequenceOpened;
    hide Unescaped;
    if t.s.controlSequence { SequencedKeeps(k, t, c); }
  }

  /** Counting a byte, or leaving a command, leaves the sequence as it was. */
  lemma OffsetKeeps(s: Context, n: nat)
    ensures var r := WithOffset(s, n); r.osc == s.osc && r.oscEscape == s.oscEscape && SameEnd(s, r)
  {
    hide Given;
    assert WithOffset(s, n).rrr == s.rrr;
    assert ValueEnded(WithOffset(s, n)) == WithOffset(ValueEnded(s), n);
    OffsetGiven(s, n);
    OffsetGiven(ValueEnded(s), n);
  }

  lemma OffsetGiven(s: Context, n: nat)
    ensures Given(WithOffset(s, n)) == Given(s)
  {
  }

  lemma OscKeeps(s: Context, c: nat)
    requires OscCut(s, c)
    ensures SameEnd(s, OscStep(s, c))
  {
    var r := WithOsc(s, false, false, s.escape && c != 92);
    assert OscStep(s, c) == r;
    assert r.rrr == s.rrr && r.values == s.values && r.valuesCount == s.valuesCount;
    assert r.controlSequence == s.controlSequence && r.decPrivate == s.decPrivate;
    hide OscStep;
    hide WithOsc;
    GivenSame(s, r);
  }

  lemma GivenSame(s: Context, r: Context)
    requires r.rrr == s.rrr && r.values == s.values && r.valuesCount == s.valuesCount
    ensures GivenAtEnd(r) == GivenAtEnd(s)
  {
    assert ValueEnded(r).values == ValueEnded(s).values && ValueEnded(r).valuesCount == ValueEnded(s).valuesCount;
    hide ValueEnded;
  }

  /** The two contexts give a final byte the same. */
  predicate SameEnd(s: Context, r: Context) {
    r.controlSequence == s.controlSequence && r.decPrivate == s.decPrivate && GivenAtEnd(r) == GivenAtEnd(s)
  }

  lemma EscapedKeeps(k: Tables, t: Term, c: nat)
    requires t.s.escape && !Resaves(t.s, c)
    ensures SameSaved(t, Escaped(k, t, c))
  {
    hide Introduces;
    hide GivenAtEnd;
    hide WithOffset;
    hide OscStep;
    var s := WithOffset(t.s, t.s.escapeOffset + 1);
    OffsetKeeps(t.s, t.s.escapeOffset + 1);
    if !s.osc {
      IntroducesKeeps(k, Term(s, t.d), c);
    } else if OscCut(s, c) {
      OscKeeps(s, c);
      OffsetKeeps(OscStep(s, c), 1);
      IntroducesKeeps(k, Term(WithOffset(OscStep(s, c), 1), t.d), c);
    }
  }

  lemma ReceivedKeeps(k: Tables, t: Term, c: nat)
    requires !Resaves(t.s, c)
    ensures SameSaved(t, Received(k, t, c))
  {
    hide Escaped;
    hide Plain;
    hide Resaves;
    hide PointOpened;
    hide Lead;
    if t.s.escape { EscapedKeeps(k, t, c); }
  }

  lemma StillOutside(k: Tables, t: Term)
    ensures Continued(k, t, Surrogate).s.escape == t.s.escape && BrokenOff(t).s.escape == t.s.escape
  {
    hide Typed;
    hide Shifted;
  }

  /** Nothing else touches what was saved. */
  lemma StepKeepsSaved(k: Tables, t: Term, c: nat)
    requires !Resaves(t.s, c)
    ensures SameSaved(t, Step(k, t, c))
  {
    hide Received;
    hide BrokenOff;
    hide Continued;
    hide Continue;
    hide Abandoned;
    hide EndsSaving;
    ReceivedKeeps(k, t, c);
    if !t.s.escape && t.s.unicodeRemaining != 0 {
      StillOutside(k, t);
      ReceivedKeeps(k, BrokenOff(t), c);
      ReceivedKeeps(k, Continued(k, t, Surrogate), c);
    }
  }

  /** None of the bytes saves or resets when it comes. */
  ghost predicate NeverResaves(k: Tables, t: Term, bytes: seq<nat>) {
    forall i :: 0 <= i < |bytes| ==> !Resaves(Run(k, t, bytes[..i]).s, bytes[i])
  }

  lemma {:induction false} RunKeepsSaved(k: Tables, t: Term, bytes: seq<nat>)
    requires NeverResaves(k, t, bytes)
    ensures SameSaved(t, Run(k, t, bytes))
  {
    hide Step;
    hide Resaves;
    if bytes != [] {
      var n := |bytes| - 1;
      assert forall i :: 0 <= i < n ==> bytes[..n][..i] == bytes[..i];
      RunKeepsSaved(k, t, bytes[..n]);
      StepKeepsSaved(k, Run(k, t, bytes[..n]), bytes[n]);
    }
  }

  /** It takes a 7, a c or an h. */
  lemma WithoutTheseBytes(k: Tables, t: Term, bytes: seq<nat>)
    requires 55 !in bytes && 99 !in bytes && 104 !in bytes
    ensures NeverResaves(k, t, bytes)
  {
    hide Run;
  }

  /** The attributes, the character sets and the origin mode are the same. */
  predicate SameAttributes(s: Context, r: Context) {
    && s.bold == r.bold && s.bgBold == r.bgBold && s.reverseVideo == r.reverseVideo && s.originMode == r.originMode
    && s.currentCharset == r.currentCharset && s.charsets == r.charsets
    && s.primary == r.primary && s.background == r.background
  }

  /** And that is what is saved. */
  lemma SavedIs(s: Context, r: Context)
    ensures SavedOf(s) == SavedOf(r) <==> SameAttributes(s, r)
  {
  }

  /** What ESC 7 keeps ESC 8 brings back, whatever came between that did not save or reset again. */
  lemma RestoresSaved(k: Tables, t: Term, between: seq<nat>)
    requires Ground(t.s)
    ensures var u := Run(k, t, [0x1b, 55]);
            var v := Run(k, u, between);
            var w := Run(k, v, [0x1b, 56]);
            && Ground(u.s) && u.d == t.d.(savedPen := t.d.pen, savedX := t.d.x, savedY := t.d.y)
            && (NeverResaves(k, u, between) && Ground(v.s) ==>
                  && Ground(w.s) && SameAttributes(w.s, t.s)
                  && w.d == v.d.(x := t.d.x, y := t.d.y, pen := t.d.pen))
  {
    hide NeverResaves;
    ShortEscapeRuns(k, t, 55);
    var u := Run(k, t, [0x1b, 55]);
    var v := Run(k, u, between);
    if NeverResaves(k, u, between) && Ground(v.s) {
      RunKeepsSaved(k, u, between);
      ShortEscapeRuns(k, v, 56);
      SavedIs(Run(k, v, [0x1b, 56]).s, t.s);
    }
    hide Run;
    hide SameAttributes;
  }
}
