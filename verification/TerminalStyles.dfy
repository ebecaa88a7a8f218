/** What sequences of graphic rendition and of private modes do: which colours text then has, and that several
    parameters at once do what they do one by one. */
module TerminalStyles {
  import opened Common
  import opened Framebuffer
  import opened TerminalSpec
  import opened TerminalRuns
  import opened TerminalCells

  // ---------- one parameter ----------

  /** The look with another colour of the text, or of the background. */
  function Paint(l: Look, fg: bool, colour: Option<nat>): Look { if fg then l.(fg := colour) else l.(bg := colour) }

  /** A context's attributes after a control sequence has given its parameters are those before it. */
  lemma SameAfter(s: Context, o: nat, ps: seq<seq<nat>>, c: nat)
    requires Parameters(ps)
    ensures SavedOf(Complete(s, o, ps, c)) == SavedOf(s) && Complete(s, o, ps, c).saved == s.saved
    ensures Complete(s, o, ps, c).decPrivate == s.decPrivate
  {
    hide ValuesOf;
    hide WithDefaults;
    hide KeepsBounds;
  }

  /** The attributes and the pen after one rendition parameter, as a function of those before it. */
  lemma OneRenditionRuns(k: Tables, t: Term, ds: seq<nat>)
    requires Ground(t.s) && !t.s.decPrivate && Digits(ds) && Decimal(ds) <= U32_MAX
    requires Decimal(ds) != 38 && Decimal(ds) != 48
    ensures var s := Complete(t.s, 2 + |Joined([ds])|, [ds], 109);
            var r, u := Rendered(Term(s, t.d), Decimal(ds)), Run(k, t, Sequence([ds], 109));
            u == Term(Ended(r.s), r.d) && SavedOf(s) == SavedOf(t.s) && Ground(Ended(s))
  {
    hide Run;
    hide Complete;
    hide Ended;
    hide Joined;
    hide Parameter;
    hide Decimal;
    hide Rendered;
    ParameterExact(ds);
    RenditionRuns(k, t, ds);
    SameAfter(t.s, 2 + |Joined([ds])|, [ds], 109);
    EndsGround(t.s, 2 + |Joined([ds])|, [ds], 109);
  }

  predicate IsColour(v: nat) { 30 <= v <= 37 || 40 <= v <= 47 || 90 <= v <= 97 || 100 <= v <= 107 }

  /** The parameter is about the text, not about the background. */
  predicate IsText(v: nat) { v < 40 || 90 <= v < 100 }

  /** 30 to 37, 40 to 47, 90 to 97 and 100 to 107: one of eight colours for the text or the background, bright if its
      number says so or bold is on for that side; in reverse video the sides are swapped. */
  lemma ColourSequence(k: Tables, t: Term, ds: seq<nat>)
    requires Ground(t.s) && !t.s.decPrivate && Digits(ds) && IsColour(Decimal(ds))
    ensures var u, v := Run(k, t, Sequence([ds], 109)), Decimal(ds);
            var bright := 90 <= v || if IsText(v) then t.s.bold else t.s.bgBold;
            && Ground(u.s) && u.d == t.d.(pen := u.d.pen)
            && LookOf(u.d.pen) == Paint(LookOf(t.d.pen), IsText(v) != t.s.reverseVideo,
                                        Some(if bright then 8 + v % 10 else v % 10))
            && SavedOf(u.s) == if IsText(v) then SavedOf(t.s).(primary := v % 10)
                               else SavedOf(t.s).(background := v % 10)
  {
    hide Run;
    hide Complete;
    hide Ended;
    hide Joined;
    hide Ground;
    hide Decimal;
    hide WithCurrent;
    hide SavedOf;
    hide Rendered;
    hide IsColour;
    OneRenditionRuns(k, t, ds) by { ColourSmall(Decimal(ds)); }
    var v := Decimal(ds);
    var s := Complete(t.s, 2 + |Joined([ds])|, [ds], 109);
    AttributesAre(s, t.s);
    ColourRendered(Term(s, t.d), v);
    CurrentSet(s, IsText(v), v % 10);
  }

  lemma ColourSmall(v: nat)
    requires IsColour(v)
    ensures v <= U32_MAX && v != 38 && v != 48
  {
  }

  lemma ColourRendered(t: Term, v: nat)
    requires IsColour(v)
    ensures var r := Rendered(t, v);
            var bright := 90 <= v || if IsText(v) then t.s.bold else t.s.bgBold;
            && r.s == WithCurrent(t.s, IsText(v), v % 10) && r.d == t.d.(pen := r.d.pen)
            && LookOf(r.d.pen) == Paint(LookOf(t.d.pen), IsText(v) != t.s.reverseVideo,
                                        Some(if bright then 8 + v % 10 else v % 10))
  {
    hide WithCurrent;
    hide Rendered;
    ColourIs(t, v);
  }

  lemma ColourIs(t: Term, v: nat)
    requires IsColour(v)
    ensures Rendered(t, v) == ColourSet(t, v)
  {
    hide ColourSet;
  }

  lemma AttributesAre(s: Context, r: Context)
    requires SavedOf(s) == SavedOf(r)
    ensures SameAttributes(s, r)
  {
  }

  lemma CurrentSet(s: Context, text: bool, colour: int)
    ensures var r := Ended(WithCurrent(s, text, colour));
            && SavedOf(r) == (if text then SavedOf(s).(primary := colour) else SavedOf(s).(background := colour))
            && (Ground(Ended(s)) ==> Ground(r))
  {
    hide KeepsBounds;
  }

  /** 39 and 49: the default colour of the text or the background, bright if bold is on for that side. */
  lemma DefaultSequence(k: Tables, t: Term, ds: seq<nat>)
    requires Ground(t.s) && !t.s.decPrivate && Digits(ds) && (Decimal(ds) == 39 || Decimal(ds) == 49)
    ensures var u, text := Run(k, t, Sequence([ds], 109)), Decimal(ds) == 39;
            && Ground(u.s) && u.d == t.d.(pen := u.d.pen)
            && LookOf(u.d.pen) == Paint(LookOf(t.d.pen), text != t.s.reverseVideo,
                                        if text then Some(DefaultColour(t.s.bold))
                                        else if t.s.bgBold then Some(DefaultColour(true)) else None)
            && SavedOf(u.s) == if text then SavedOf(t.s).(primary := -1) else SavedOf(t.s).(background := -1)
  {
    hide Run;
    hide Complete;
    hide Ended;
    hide Joined;
    hide Ground;
    hide Decimal;
    hide WithCurrent;
    hide SavedOf;
    OneRenditionRuns(k, t, ds);
    var s := Complete(t.s, 2 + |Joined([ds])|, [ds], 109);
    AttributesAre(s, t.s);
    CurrentSet(s, Decimal(ds) == 39, -1);
  }

  /** 1, 22, 5 and 25: bold on and off, for the text and for the background; the current colour of that side is given
      again, bright or not, and a direct colour is left alone. */
  lemma BoldSequence(k: Tables, t: Term, ds: seq<nat>)
    requires Ground(t.s) && !t.s.decPrivate && Digits(ds) && Decimal(ds) in {1, 22, 5, 25}
    ensures var u, v := Run(k, t, Sequence([ds], 109)), Decimal(ds);
            var text, on := v == 1 || v == 22, v == 1 || v == 5;
            var side, colour := text != t.s.reverseVideo, if text then t.s.primary else t.s.background;
            && Ground(u.s) && u.d == t.d.(pen := u.d.pen)
            && LookOf(u.d.pen) == (if 0 <= colour < 8 then
                                     Paint(LookOf(t.d.pen), side, Some(if on then 8 + colour else colour))
                                   else if colour != -1 then LookOf(t.d.pen)
                                   else Paint(LookOf(t.d.pen), side,
                                              if side || on then Some(DefaultColour(on)) else None))
            && SavedOf(u.s) == if text then SavedOf(t.s).(bold := on) else SavedOf(t.s).(bgBold := on)
  {
    hide Run;
    hide Complete;
    hide Ended;
    hide Joined;
    hide Ground;
    hide Decimal;
    hide WithBold;
    hide SavedOf;
    OneRenditionRuns(k, t, ds);
    var v := Decimal(ds);
    var s := Complete(t.s, 2 + |Joined([ds])|, [ds], 109);
    AttributesAre(s, t.s);
    BoldSet(s, v == 1 || v == 22, v == 1 || v == 5);
  }

  lemma BoldSet(s: Context, text: bool, on: bool)
    ensures var r := Ended(WithBold(s, text, on));
            && SavedOf(r) == (if text then SavedOf(s).(bold := on) else SavedOf(s).(bgBold := on))
            && (Ground(Ended(s)) ==> Ground(r))
  {
    hide KeepsBounds;
  }

  /** Any other parameter below 38, or above 49, changes nothing. */
  lemma UnknownRendition(k: Tables, t: Term, ds: seq<nat>)
    requires Ground(t.s) && !t.s.decPrivate && Digits(ds) && Decimal(ds) <= U32_MAX && !IsColour(Decimal(ds))
    requires Decimal(ds) !in {0, 1, 22, 5, 25, 7, 27, 38, 39, 48, 49}
    ensures var u := Run(k, t, Sequence([ds], 109)); Ground(u.s) && u.d == t.d && SavedOf(u.s) == SavedOf(t.s)
  {
    hide Run;
    hide Complete;
    hide Joined;
    hide Decimal;
    OneRenditionRuns(k, t, ds);
  }

  // ---------- several parameters ----------

  lemma ExtendedPenOnly(k: Tables, t: Term, d: Display, values: seq<nat>, i: nat, fg: bool)
    requires d.pen == t.d.pen && i < |values| && ExtendedEnd(values, i).Some?
    ensures PenOnly(Extended(k, t, values, i, fg), Extended(k, Term(t.s, d), values, i, fg), d)
  {
    hide WithPen;
    hide PenOnly;
    hide WithCurrent;
    hide Direct;
    hide Numbered;
    hide Rgb24;
    var side := if t.s.reverseVideo then !fg else fg;
    if values[i] == 2 {
      WithPenOnly(t, d, WithCurrent(t.s, fg, -2),
                  Direct(d.pen, side, Rgb24(values[i + 1], values[i + 2], values[i + 3])));
    } else if values[i] == 5 && values[i + 1] < 256 {
      WithPenOnly(t, d, WithCurrent(t.s, fg, -2), Numbered(k, d.pen, side, values[i + 1]));
    } else {
      SamePen(t, d);
    }
  }

  lemma SamePen(t: Term, d: Display)
    requires d.pen == t.d.pen
    ensures PenOnly(t, Term(t.s, d), d)
  {
  }

  lemma PenOnlyIs(r: Term, q: Term, d: Display)
    requires PenOnly(r, q, d)
    ensures q == Term(r.s, q.d) && q.d.pen == r.d.pen
    ensures forall a: Term, b: Term :: PenOnly(a, b, q.d) ==> PenOnly(a, b, d)
  {
  }

  /** The parameters look at the pen and the context, and change only these. */
  lemma {:induction false} RenderedFromPenOnly(k: Tables, t: Term, d: Display, values: seq<nat>, i: nat)
    requires d.pen == t.d.pen
    ensures PenOnly(RenderedFrom(k, t, values, i), RenderedFrom(k, Term(t.s, d), values, i), d)
    decreases |values| - i
  {
    hide PenOnly;
    hide Extended;
    hide Rendered;
    if i >= |values| {
      SamePen(t, d);
    } else if values[i] == 38 || values[i] == 48 {
      if i + 1 < |values| && ExtendedEnd(values, i + 1).Some? {
        var fg := values[i] == 38;
        ExtendedPenOnly(k, t, d, values, i + 1, fg);
        var r, q := Extended(k, t, values, i + 1, fg), Extended(k, Term(t.s, d), values, i + 1, fg);
        PenOnlyIs(r, q, d);
        RenderedFromPenOnly(k, r, q.d, values, ExtendedEnd(values, i + 1).value + 1);
      } else {
        SamePen(t, d);
      }
    } else {
      RenderedPenOnly(t, d, values[i]);
      var r, q := Rendered(t, values[i]), Rendered(Term(t.s, d), values[i]);
      PenOnlyIs(r, q, d);
      RenderedFromPenOnly(k, r, q.d, values, i + 1);
    }
  }

  /** The parameters as the sequence gives them. */
  function Given(ps: seq<seq<nat>>): seq<nat>
    requires Parameters(ps)
  {
    seq(|ps|, i requires 0 <= i < |ps| => Parameter(ps[i]))
  }

  predicate NoneEmpty(ps: seq<seq<nat>>) { forall i :: 0 <= i < |ps| ==> ps[i] != [] }

  lemma RenditionListRuns(k: Tables, t: Term, ps: seq<seq<nat>>)
    requires Ground(t.s) && !t.s.decPrivate && Parameters(ps) && NoneEmpty(ps)
    ensures var s := Complete(t.s, 2 + |Joined(ps)|, ps, 109);
            var r := RenderedFrom(k, Term(s, t.d), Given(ps), 0);
            Run(k, t, Sequence(ps, 109)) == Term(Ended(r.s), r.d)
  {
    hide Run;
    hide Complete;
    hide Joined;
    hide Parameter;
    hide Finished;
    hide PrivateSet;
    hide RenderedFrom;
    SequenceRuns(k, t, ps, 109);
    EndsGround(t.s, 2 + |Joined(ps)|, ps, 109);
    var s := Complete(t.s, 2 + |Joined(ps)|, ps, 109);
    assert TerminalSpec.Given(s) == Given(ps);
    ListFinished(k, s, t.d);
  }

  lemma ListFinished(k: Tables, s: Context, d: Display)
    requires s.valuesCount > 0
    ensures var r := RenderedFrom(k, Term(s, d), TerminalSpec.Given(s), 0);
            Finished(k, Term(s, d), 109) == Term(Ended(r.s), r.d)
  {
    hide RenderedFrom;
    hide Ended;
    hide PenReset;
    hide TerminalSpec.Given;
    var e := d.(wrap := true, scroll := false);
    RenderedFromPenOnly(k, Term(s, d), e, TerminalSpec.Given(s), 0);
    RenderedFromPenOnly(k, Term(s, e), d, TerminalSpec.Given(s), 0);
  }

  /** None of them opens an extended colour. */
  predicate Simple(values: seq<nat>) { forall i :: 0 <= i < |values| ==> values[i] != 38 && values[i] != 48 }

  lemma {:induction false} LastRendered(k: Tables, t: Term, values: seq<nat>, i: nat)
    requires Simple(values) && i < |values|
    ensures RenderedFrom(k, t, values, i) ==
            Rendered(RenderedFrom(k, t, values[..|values| - 1], i), values[|values| - 1])
    decreases |values| - i
  {
    hide Rendered;
    var n := |values| - 1;
    if i == n {
      assert RenderedFrom(k, Rendered(t, values[n]), values, n + 1) == Rendered(t, values[n]);
      assert RenderedFrom(k, t, values[..n], n) == t;
    } else {
      LastRendered(k, Rendered(t, values[i]), values, i + 1);
      assert values[..n][i] == values[i];
    }
  }

  /** The pen and the attributes agree. */
  predicate Alike(t: Term, u: Term) { u.d == t.d && SavedOf(u.s) == SavedOf(t.s) }

  lemma UnstyledAlike(s: Context, r: Context)
    requires SavedOf(s) == SavedOf(r)
    ensures SavedOf(Unstyled(s)) == SavedOf(Unstyled(r))
  {
    hide KeepsBounds;
  }

  lemma BoldAlike(s: Context, r: Context, fg: bool, bold: bool)
    requires SavedOf(s) == SavedOf(r)
    ensures SavedOf(WithBold(s, fg, bold)) == SavedOf(WithBold(r, fg, bold))
  {
    hide KeepsBounds;
  }

  lemma ReverseAlike(s: Context, r: Context, on: bool)
    requires SavedOf(s) == SavedOf(r)
    ensures SavedOf(WithReverse(s, on)) == SavedOf(WithReverse(r, on))
  {
    hide KeepsBounds;
  }

  lemma CurrentAlike(s: Context, r: Context, fg: bool, colour: int)
    requires SavedOf(s) == SavedOf(r)
    ensures SavedOf(WithCurrent(s, fg, colour)) == SavedOf(WithCurrent(r, fg, colour))
  {
    hide KeepsBounds;
  }

  lemma PenAlike(t: Term, u: Term, s: Context, r: Context, p: Cell)
    requires Alike(t, u) && SavedOf(s) == SavedOf(r)
    ensures Alike(WithPen(t, s, p), WithPen(u, r, p))
  {
    hide SavedOf;
  }

  /** A rendition looks at nothing else. */
  lemma RenderedAlike(t: Term, u: Term, v: nat)
    requires Alike(t, u)
    ensures Alike(Rendered(t, v), Rendered(u, v))
  {
    hide SavedOf;
    hide Unstyled;
    hide WithBold;
    hide WithReverse;
    hide WithCurrent;
    hide Coloured;
    hide Defaulted;
    hide Recoloured;
    hide SwappedIf;
    hide PlainPen;
    hide WithPen;
    hide KeepsBounds;
    AttributesAre(t.s, u.s);
    var p := t.d.pen;
    var reverse := t.s.reverseVideo;
    if v == 0 {
      UnstyledAlike(t.s, u.s);
      PenAlike(t, u, Unstyled(t.s), Unstyled(u.s), PlainPen(p, reverse));
    } else if v == 1 || v == 22 || v == 5 || v == 25 {
      var fg, on := v == 1 || v == 22, v == 1 || v == 5;
      BoldAlike(t.s, u.s, fg, on);
      PenAlike(t, u, WithBold(t.s, fg, on), WithBold(u.s, fg, on),
               Recoloured(p, fg != reverse, if fg then t.s.primary else t.s.background, on));
    } else if IsColour(v) {
      var bright := 90 <= v || (if IsText(v) then t.s.bold else t.s.bgBold);
      CurrentAlike(t.s, u.s, IsText(v), v % 10);
      PenAlike(t, u, WithCurrent(t.s, IsText(v), v % 10), WithCurrent(u.s, IsText(v), v % 10),
               Coloured(p, IsText(v) != reverse, v % 10, bright));
    } else if v == 39 || v == 49 {
      var fg := v == 39;
      CurrentAlike(t.s, u.s, fg, -1);
      PenAlike(t, u, WithCurrent(t.s, fg, -1), WithCurrent(u.s, fg, -1),
               SwappedIf(Defaulted(SwappedIf(p, reverse), fg, if fg then t.s.bold else t.s.bgBold), reverse));
    } else if v == 7 || v == 27 {
      ReverseAlike(t.s, u.s, v == 7);
      PenAlike(t, u, WithReverse(t.s, v == 7), WithReverse(u.s, v == 7), SwappedIf(p, reverse != (v == 7)));
    }
  }

  lemma {:induction false} RenderedFromAlike(k: Tables, t: Term, u: Term, values: seq<nat>, i: nat)
    requires Alike(t, u) && Simple(values)
    ensures Alike(RenderedFrom(k, t, values, i), RenderedFrom(k, u, values, i))
    decreases |values| - i
  {
    hide Alike;
    hide Rendered;
    if i < |values| {
      RenderedAlike(t, u, values[i]);
      RenderedFromAlike(k, Rendered(t, values[i]), Rendered(u, values[i]), values, i + 1);
    }
  }

  lemma EndedAlike(t: Term, u: Term)
    ensures Alike(Term(Ended(t.s), t.d), Term(Ended(u.s), u.d)) <==> Alike(t, u)
  {
    hide KeepsBounds;
  }

  /** Several rendition parameters in one sequence do what they do in sequences of their own, one after the other. */
  lemma RenditionSplits(k: Tables, t: Term, ps: seq<seq<nat>>)
    requires Ground(t.s) && !t.s.decPrivate && Parameters(ps) && NoneEmpty(ps) && 1 < |ps| && Simple(Given(ps))
    ensures var front, last := ps[..|ps| - 1], [ps[|ps| - 1]];
            Alike(Run(k, t, Sequence(ps, 109)), Run(k, t, Sequence(front, 109) + Sequence(last, 109)))
  {
    hide Run;
    hide Complete;
    hide Ended;
    hide Joined;
    hide Parameter;
    hide Rendered;
    hide RenderedFrom;
    hide Alike;
    hide SavedOf;
    var n := |ps| - 1;
    var front, last := ps[..n], [ps[n]];
    assert Given(front) == Given(ps)[..n] && Given(last) == [Given(ps)[n]];
    var o, p := 2 + |Joined(ps)|, 2 + |Joined(front)|;
    var s, r := Complete(t.s, o, ps, 109), Complete(t.s, p, front, 109);
    RenditionListRuns(k, t, ps);
    RenditionListRuns(k, t, front);
    RunBoth(k, t, Sequence(front, 109), Sequence(last, 109));
    var a, b := RenderedFrom(k, Term(s, t.d), Given(front), 0), RenderedFrom(k, Term(r, t.d), Given(front), 0);
    LastRendered(k, Term(s, t.d), Given(ps), 0);
    SameAfter(t.s, o, ps, 109);
    SameAfter(t.s, p, front, 109);
    SameAlike(t.s, s, r, t.d);
    RenderedFromAlike(k, Term(s, t.d), Term(r, t.d), Given(front), 0);
    var u := Run(k, t, Sequence(front, 109));
    EndsGround(t.s, p, front, 109);
    RenditionGround(k, r, t.d, Given(front), 0);
    var q := 2 + |Joined(last)|;
    RenditionListRuns(k, u, last);
    SameAfter(u.s, q, last, 109);
    var c := Complete(u.s, q, last, 109);
    EndedSame(a, b, c);
    OneRendition(k, Term(c, u.d), Given(ps)[n]);
    RenderedAlike(a, Term(c, u.d), Given(ps)[n]);
    EndedAlike(Rendered(a, Given(ps)[n]), Rendered(Term(c, u.d), Given(ps)[n]));
  }

  lemma SameAlike(t: Context, s: Context, r: Context, d: Display)
    requires SavedOf(s) == SavedOf(t) && SavedOf(r) == SavedOf(t)
    ensures Alike(Term(s, d), Term(r, d))
  {
  }

  lemma EndedSame(a: Term, b: Term, c: Context)
    requires Alike(a, b) && SavedOf(c) == SavedOf(Ended(b.s))
    ensures Alike(a, Term(c, b.d))
  {
    hide KeepsBounds;
  }

  /** Renditions leave a sequence's context one that ends between sequences. */
  lemma {:induction false} RenditionGround(k: Tables, s: Context, d: Display, values: seq<nat>, i: nat)
    requires Ground(Ended(s)) && !s.decPrivate && Simple(values)
    ensures var r := RenderedFrom(k, Term(s, d), values, i); Ground(Ended(r.s)) && !Ended(r.s).decPrivate
    decreases |values| - i
  {
    hide Rendered;
    hide Ground;
    hide Ended;
    if i < |values| {
      RenderedGround(s, d, values[i]);
      var r := Rendered(Term(s, d), values[i]);
      RenditionGround(k, r.s, r.d, values, i + 1);
    } else {
      EndedPrivate(s);
    }
  }

  lemma EndedPrivate(s: Context)
    ensures Ended(s).decPrivate == s.decPrivate
  {
    hide KeepsBounds;
  }

  lemma RenderedGround(s: Context, d: Display, v: nat)
    ensures var r := Rendered(Term(s, d), v);
            (Ground(Ended(s)) ==> Ground(Ended(r.s))) && r.s.decPrivate == s.decPrivate
  {
    hide Ground;
    hide Ended;
    hide Coloured;
    hide Defaulted;
    hide Recoloured;
    hide SwappedIf;
    hide PlainPen;
    hide Unstyled;
    hide WithBold;
    hide WithReverse;
    hide WithCurrent;
    UnstyledGround(s);
    BoldGround(s, v == 1 || v == 22, v == 1 || v == 5);
    ReverseGround(s, v == 7);
    CurrentGround(s, v < 40 || 90 <= v < 100, v % 10);
    CurrentGround(s, v == 39, -1);
  }

  lemma UnstyledGround(s: Context)
    ensures (Ground(Ended(s)) ==> Ground(Ended(Unstyled(s)))) && Unstyled(s).decPrivate == s.decPrivate
  {
    hide KeepsBounds;
  }

  lemma BoldGround(s: Context, fg: bool, bold: bool)
    ensures Ground(Ended(s)) ==> Ground(Ended(WithBold(s, fg, bold)))
    ensures WithBold(s, fg, bold).decPrivate == s.decPrivate
  {
    hide KeepsBounds;
  }

  lemma ReverseGround(s: Context, on: bool)
    ensures (Ground(Ended(s)) ==> Ground(Ended(WithReverse(s, on)))) && WithReverse(s, on).decPrivate == s.decPrivate
  {
    hide KeepsBounds;
  }

  lemma CurrentGround(s: Context, fg: bool, colour: int)
    ensures Ground(Ended(s)) ==> Ground(Ended(WithCurrent(s, fg, colour)))
    ensures WithCurrent(s, fg, colour).decPrivate == s.decPrivate
  {
    hide KeepsBounds;
  }

  // ---------- extended colours ----------

  lemma Exactly(ps: seq<seq<nat>>, i: nat)
    requires Parameters(ps) && i < |ps| && Decimal(ps[i]) <= U32_MAX
    ensures Given(ps)[i] == Decimal(ps[i])
  {
    ParameterExact(ps[i]);
  }

  /** The look with colour n of 256: the sixteen, and then the palette. */
  function NumberedLook(k: Tables, l: Look, side: bool, n: nat): Look {
    if n < 16 then Paint(l, side, Some(n))
    else if n < 256 && n - 16 < |k.palette| then Paint(l, side, Some(16 + k.palette[n - 16]))
    else l
  }

  /** 38 ; 5 ; n and 48 ; 5 ; n: colour n of 256 for the text and for the background. */
  lemma NumberedSequence(k: Tables, t: Term, a: seq<nat>, b: seq<nat>, c: seq<nat>)
    requires Ground(t.s) && !t.s.decPrivate && Digits(a) && Digits(b) && Digits(c) && c != [] && Decimal(c) <= U32_MAX
    requires (Decimal(a) == 38 || Decimal(a) == 48) && Decimal(b) == 5
    ensures var u, n, text := Run(k, t, Sequence([a, b, c], 109)), Decimal(c), Decimal(a) == 38;
            var side := text != t.s.reverseVideo;
            && u.d == t.d.(pen := u.d.pen) && Ground(u.s)
            && LookOf(u.d.pen) == NumberedLook(k, LookOf(t.d.pen), side, n)
            && SavedOf(u.s) == if n >= 256 then SavedOf(t.s)
                               else if text then SavedOf(t.s).(primary := -2) else SavedOf(t.s).(background := -2)
  {
    hide Run;
    hide Complete;
    hide Ended;
    hide Joined;
    hide Parameter;
    hide RenderedFrom;
    hide Extended;
    hide Ground;
    hide SavedOf;
    hide Decimal;
    hide NumberedLook;
    hide LookOf;
    NotEmpty(a);
    NotEmpty(b);
    var ps := [a, b, c];
    var o := 2 + |Joined(ps)|;
    Exactly(ps, 0);
    Exactly(ps, 1);
    Exactly(ps, 2);
    RenditionListRuns(k, t, ps);
    EndsGround(t.s, o, ps, 109);
    SameAfter(t.s, o, ps, 109);
    var s := Complete(t.s, o, ps, 109);
    AttributesAre(s, t.s);
    assert Given(ps) == [Decimal(a), 5, Decimal(c)];
    NumberedFrom(k, Term(s, t.d), Decimal(a), Decimal(c));
    NumberedPen(k, Term(s, t.d), Decimal(a) == 38, Decimal(a), Decimal(c));
    EndedAttributes(s);
    CurrentSet(s, Decimal(a) == 38, -2);
  }

  lemma EndedAttributes(s: Context)
    ensures SavedOf(Ended(s)) == SavedOf(s)
  {
    hide KeepsBounds;
  }

  lemma NumberedFrom(k: Tables, t: Term, v: nat, n: nat)
    requires v == 38 || v == 48
    ensures RenderedFrom(k, t, [v, 5, n], 0) == Extended(k, t, [v, 5, n], 1, v == 38)
  {
    hide Extended;
    assert ExtendedEnd([v, 5, n], 1) == Some(2);
    var r := Extended(k, t, [v, 5, n], 1, v == 38);
    assert RenderedFrom(k, r, [v, 5, n], 3) == r;
  }

  lemma NumberedPen(k: Tables, t: Term, text: bool, v: nat, n: nat)
    ensures var r, side := Extended(k, t, [v, 5, n], 1, text), text != t.s.reverseVideo;
            && r.d == t.d.(pen := r.d.pen)
            && LookOf(r.d.pen) == NumberedLook(k, LookOf(t.d.pen), side, n)
            && r.s == if n < 256 then WithCurrent(t.s, text, -2) else t.s
  {
    hide WithCurrent;
  }

  /** 38 ; 2 ; r ; g ; b and 48 ; 2 ; r ; g ; b: a direct colour, of which eight bits each count. */
  lemma DirectSequence(k: Tables, t: Term, ps: seq<seq<nat>>)
    requires Ground(t.s) && !t.s.decPrivate && Parameters(ps) && |ps| == 5 && NoneEmpty(ps)
    requires forall i :: 0 <= i < 5 ==> Decimal(ps[i]) <= U32_MAX
    requires (Decimal(ps[0]) == 38 || Decimal(ps[0]) == 48) && Decimal(ps[1]) == 2
    ensures var u, text := Run(k, t, Sequence(ps, 109)), Decimal(ps[0]) == 38;
            var rgb := Decimal(ps[2]) % 256 * 0x1_0000 + Decimal(ps[3]) % 256 * 0x100 + Decimal(ps[4]) % 256;
            && u.d == t.d.(pen := u.d.pen) && Ground(u.s)
            && LookOf(u.d.pen) == Paint(LookOf(t.d.pen), text != t.s.reverseVideo, Some(16 + rgb))
            && SavedOf(u.s) == if text then SavedOf(t.s).(primary := -2) else SavedOf(t.s).(background := -2)
  {
    hide Run;
    hide Complete;
    hide Ended;
    hide Joined;
    hide Parameter;
    hide RenderedFrom;
    hide Extended;
    hide Ground;
    hide SavedOf;
    hide Decimal;
    var o := 2 + |Joined(ps)|;
    Exactly(ps, 0);
    Exactly(ps, 1);
    Exactly(ps, 2);
    Exactly(ps, 3);
    Exactly(ps, 4);
    RenditionListRuns(k, t, ps);
    EndsGround(t.s, o, ps, 109);
    SameAfter(t.s, o, ps, 109);
    var s := Complete(t.s, o, ps, 109);
    AttributesAre(s, t.s);
    DirectFrom(k, Term(s, t.d), Given(ps));
    DirectPen(k, Term(s, t.d), Given(ps));
    CurrentSet(s, Decimal(ps[0]) == 38, -2);
  }

  lemma DirectFrom(k: Tables, t: Term, values: seq<nat>)
    requires |values| == 5 && (values[0] == 38 || values[0] == 48) && values[1] == 2
    ensures RenderedFrom(k, t, values, 0) == Extended(k, t, values, 1, values[0] == 38)
  {
    hide Extended;
    assert ExtendedEnd(values, 1) == Some(4);
    var r := Extended(k, t, values, 1, values[0] == 38);
    assert RenderedFrom(k, r, values, 5) == r;
  }

  lemma DirectPen(k: Tables, t: Term, values: seq<nat>)
    requires |values| == 5 && values[1] == 2
    ensures var text := values[0] == 38;
            var r := Extended(k, t, values, 1, text);
            var rgb := values[2] % 256 * 0x1_0000 + values[3] % 256 * 0x100 + values[4] % 256;
            && r.d == t.d.(pen := r.d.pen) && r.s == WithCurrent(t.s, text, -2)
            && LookOf(r.d.pen) == Paint(LookOf(t.d.pen), text != t.s.reverseVideo, Some(16 + rgb))
  {
    hide WithCurrent;
  }

  // ---------- several modes ----------

  /** What private modes look at agrees. */
  predicate SameModes(t: Term, u: Term) { Alike(t, u) && u.s.saved == t.s.saved }

  lemma OriginAlike(s: Context, r: Context, on: bool)
    requires SavedOf(s) == SavedOf(r)
    ensures SavedOf(WithOrigin(s, on)) == SavedOf(WithOrigin(r, on))
  {
    hide KeepsBounds;
  }

  lemma SavingAlike(s: Context, r: Context)
    requires SavedOf(s) == SavedOf(r) && s.saved == r.saved
    ensures SavedOf(SavedContext(s)) == SavedOf(SavedContext(r)) && SavedContext(s).saved == SavedContext(r).saved
    ensures SavedOf(RestoredContext(s)) == SavedOf(RestoredContext(r))
  {
    hide KeepsBounds;
  }

  lemma ModeAlike(t: Term, u: Term, mode: nat, on: bool)
    requires SameModes(t, u)
    ensures SameModes(ModeSet(t, mode, on), ModeSet(u, mode, on))
  {
    hide SavedOf;
    hide WithOrigin;
    hide SavedContext;
    hide RestoredContext;
    hide Cleared;
    hide KeepsBounds;
    OriginAlike(t.s, u.s, on);
    SavingAlike(t.s, u.s);
  }

  lemma {:induction false} ModesAlike(t: Term, u: Term, modes: seq<nat>, n: nat, on: bool)
    requires SameModes(t, u) && n <= |modes|
    ensures SameModes(ModesSet(t, modes, n, on), ModesSet(u, modes, n, on))
  {
    hide SameModes;
    hide ModeSet;
    if n > 0 {
      ModesAlike(t, u, modes, n - 1, on);
      ModeAlike(ModesSet(t, modes, n - 1, on), ModesSet(u, modes, n - 1, on), modes[n - 1], on);
    }
  }

  /** ESC [ ?, the parameters, and h or l. */
  function PrivateAll(ps: seq<seq<nat>>, on: bool): seq<nat> {
    [0x1b, 91, 63] + Joined(ps) + [if on then 104 else 108]
  }

  /** The modes they name; a zero counts as one. */
  function ModesOf(ps: seq<seq<nat>>): seq<nat>
    requires Parameters(ps)
  {
    seq(|ps|, i requires 0 <= i < |ps| => if Parameter(ps[i]) == 0 then 1 else Parameter(ps[i]))
  }

  /** The context in which a private sequence sets its modes. */
  function ModeStart(s: Context, ps: seq<seq<nat>>, on: bool): Context
    requires Parameters(ps)
  {
    NotPrivate(Complete(Privately(s), 3 + |Joined(ps)|, ps, if on then 104 else 108))
  }

  lemma StartsAlike(s: Context, d: Display, ps: seq<seq<nat>>, on: bool)
    requires Parameters(ps) && Ground(s)
    ensures SameModes(Term(s, d), Term(ModeStart(s, ps, on), d)) && Ground(Ended(ModeStart(s, ps, on)))
  {
    var c := if on then 104 else 108;
    SameAfter(Privately(s), 3 + |Joined(ps)|, ps, c);
    StillGround(s);
    EndsGround(Privately(s), 3 + |Joined(ps)|, ps, c);
    PrivateAlike(s);
    PublicAlike(Complete(Privately(s), 3 + |Joined(ps)|, ps, c));
    PublicGround(Complete(Privately(s), 3 + |Joined(ps)|, ps, c));
    hide Complete;
    hide Privately;
    hide NotPrivate;
    hide SavedOf;
    hide Ended;
    hide Ground;
  }

  lemma PrivateAlike(s: Context)
    ensures SavedOf(Privately(s)) == SavedOf(s) && Privately(s).saved == s.saved
  {
  }

  lemma PublicAlike(s: Context)
    ensures SavedOf(NotPrivate(s)) == SavedOf(s) && NotPrivate(s).saved == s.saved
  {
    hide KeepsBounds;
  }

  lemma PublicGround(s: Context)
    ensures Ground(Ended(s)) ==> Ground(Ended(NotPrivate(s)))
  {
    hide KeepsBounds;
  }

  lemma PrivateAllRuns(k: Tables, t: Term, ps: seq<seq<nat>>, on: bool)
    requires Ground(t.s) && Parameters(ps) && NoneEmpty(ps)
    ensures var r := ModesSet(Term(ModeStart(t.s, ps, on), t.d), ModesOf(ps), |ps|, on);
            Run(k, t, PrivateAll(ps, on)) == Term(Ended(r.s), r.d)
  {
    hide Run;
    hide Complete;
    hide Ended;
    hide Joined;
    hide Parameter;
    hide NotPrivate;
    hide Privately;
    hide ModesSet;
    var c := if on then 104 else 108;
    PrivateRuns(k, t, ps, c);
    StillGround(t.s);
    EndsGround(Privately(t.s), 3 + |Joined(ps)|, ps, c);
    var s := Complete(Privately(t.s), 3 + |Joined(ps)|, ps, c);
    assert TerminalSpec.Given(s) == ModesOf(ps);
  }

  lemma OriginGround(s: Context, on: bool)
    ensures Ground(Ended(s)) ==> Ground(Ended(WithOrigin(s, on)))
  {
    hide KeepsBounds;
  }

  lemma {:induction false} ModesGround(t: Term, modes: seq<nat>, n: nat, on: bool)
    requires n <= |modes| && Ground(Ended(t.s))
    ensures Ground(Ended(ModesSet(t, modes, n, on).s))
  {
    hide Ground;
    hide Ended;
    hide WithOrigin;
    hide SavedContext;
    hide RestoredContext;
    hide Cleared;
    if n > 0 {
      ModesGround(t, modes, n - 1, on);
      var r := ModesSet(t, modes, n - 1, on);
      OriginGround(r.s, on);
      SavingContext(r.s);
    }
  }

  lemma {:induction false} ModesPrefix(t: Term, a: seq<nat>, b: seq<nat>, n: nat, on: bool)
    requires n <= |a| && n <= |b| && a[..n] == b[..n]
    ensures ModesSet(t, a, n, on) == ModesSet(t, b, n, on)
  {
    hide ModeSet;
    if n > 0 {
      assert a[n - 1] == a[..n][n - 1] && b[n - 1] == b[..n][n - 1];
      assert a[..n - 1] == a[..n][..n - 1] && b[..n - 1] == b[..n][..n - 1];
      ModesPrefix(t, a, b, n - 1, on);
    }
  }

  lemma EndedModes(t: Term, u: Term)
    ensures SameModes(Term(Ended(t.s), t.d), Term(Ended(u.s), u.d)) <==> SameModes(t, u)
    ensures SameModes(Term(Ended(t.s), t.d), u) <==> SameModes(t, u)
  {
    hide Ended;
    hide SavedOf;
    EndedAttributes(t.s);
    EndedAttributes(u.s);
  }

  lemma ModesThrough(a: Term, b: Term, c: Term)
    requires SameModes(a, b) && SameModes(b, c)
    ensures SameModes(a, c) && SameModes(c, a)
  {
  }

  /** Several private modes in one sequence are set as they would be one after the other. */
  lemma ModesSplit(k: Tables, t: Term, ps: seq<seq<nat>>, on: bool)
    requires Ground(t.s) && Parameters(ps) && NoneEmpty(ps) && 1 < |ps|
    ensures var front, last := ps[..|ps| - 1], [ps[|ps| - 1]];
            SameModes(Run(k, t, PrivateAll(ps, on)), Run(k, t, PrivateAll(front, on) + PrivateAll(last, on)))
  {
    hide Run;
    hide Ended;
    hide Joined;
    hide Parameter;
    hide ModeSet;
    hide SameModes;
    hide ModeStart;
    hide Ground;
    hide PrivateAll;
    var n := |ps| - 1;
    var front, last := ps[..n], [ps[n]];
    var m := ModesOf(ps);
    assert ModesOf(front) == m[..n] && ModesOf(last) == [m[n]];
    PrivateAllRuns(k, t, ps, on);
    PrivateAllRuns(k, t, front, on);
    RunBoth(k, t, PrivateAll(front, on), PrivateAll(last, on));
    StartsAlike(t.s, t.d, ps, on);
    StartsAlike(t.s, t.d, front, on);
    var s, r := Term(ModeStart(t.s, ps, on), t.d), Term(ModeStart(t.s, front, on), t.d);
    ModesThrough(t, t, s) by { SelfModes(t); }
    ModesThrough(s, t, r);
    ModesAlike(s, r, m, n, on);
    ModesPrefix(r, m, m[..n], n, on);
    ModesGround(r, m[..n], n, on);
    var a, b := ModesSet(s, m, n, on), ModesSet(r, m[..n], n, on);
    var u := Term(Ended(b.s), b.d);
    PrivateAllRuns(k, u, last, on);
    StartsAlike(u.s, u.d, last, on);
    var v := Term(ModeStart(u.s, last, on), u.d);
    EndedModes(b, v);
    ModesThrough(a, b, v);
    ModeAlike(a, v, m[n], on);
    OneOf(v, m[n], on);
    EndedModes(ModeSet(a, m[n], on), ModeSet(v, m[n], on));
  }

  lemma SelfModes(t: Term)
    ensures SameModes(t, t)
  {
  }
}
