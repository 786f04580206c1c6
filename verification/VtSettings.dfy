/** What the control sequences that set something set: the pen, the modes, the tab stops, the saved cursor. */
module VtSettings {
  import opened Words
  import opened Grid
  import opened Vt
  import opened VtSafety
  import opened ControlSequences
  import opened VtCommands

  // ---- The pen ----

  predicate Lit(attr: byte, bit: byte)
    requires bit > 0
  {
    attr / bit % 2 == 1
  }

  /** A bit that the codes of `on` set and those of `off`, and 0, clear. */
  predicate BitAfter(a: byte, code: byte, b: byte, bit: byte, on: set<byte>, off: set<byte>)
    requires bit > 0
  {
    Lit(b, bit) <==> code in on || (Lit(a, bit) && code !in off && code != 0)
  }

  /** Eight colours from `base` on, the bright ones 60 further, and the usual one at `base + 9` or 0. */
  predicate ColourAfter(before: byte, code: byte, base: byte, usual: byte, after: byte) {
    after ==
      if base <= code < base + 8 then code - base
      else if base + 60 <= code < base + 68 then code - base - 52
      else if code == 0 || code == base + 9 then usual
      else before
  }

  /** What one code of SGR makes of the pen. */
  predicate Sets(pen: Pen, code: byte, after: Pen) {
    && ColourAfter(pen.fg, code, 30, 7, after.fg)
    && ColourAfter(pen.bg, code, 40, 0, after.bg)
    && BitAfter(pen.attr, code, after.attr, 1 /* underlined */, {4}, {24})
    && BitAfter(pen.attr, code, after.attr, 2 /* blinking */, {5}, {25})
    && BitAfter(pen.attr, code, after.attr, 4 /* bold */, {1}, {2, 22})
    && BitAfter(pen.attr, code, after.attr, 8 /* inverse */, {3, 7}, {23, 27})
    && after.attr / 16 == (if code == 0 then 0 else pen.attr / 16)
  }

  lemma Digits(a: byte, h: nat, d3: nat, d2: nat, d1: nat, d0: nat)
    requires a == 16 * h + 8 * d3 + 4 * d2 + 2 * d1 + d0 && d3 < 2 && d2 < 2 && d1 < 2 && d0 < 2
    ensures a / 16 == h && a / 8 % 2 == d3 && a / 4 % 2 == d2 && a / 2 % 2 == d1 && a / 1 % 2 == d0
  {
    var q3 := 2 * h + d3;
    var q2 := 2 * q3 + d2;
    var q1 := 2 * q2 + d1;
    assert a / 2 == q1 && a / 4 == q2 && a / 8 == q3;
    assert q1 % 2 == d1 && q2 % 2 == d2 && q3 % 2 == d3;
  }

  /** `a` with its four low bits. */
  lemma Parts(a: byte) returns (h: nat, d3: nat, d2: nat, d1: nat, d0: nat)
    ensures a == 16 * h + 8 * d3 + 4 * d2 + 2 * d1 + d0 && d3 < 2 && d2 < 2 && d1 < 2 && d0 < 2
  {
    var a1, a2, a3 := a / 2, a / 2 / 2, a / 2 / 2 / 2;
    d0, d1, d2, d3, h := a % 2, a1 % 2, a2 % 2, a3 % 2, a3 / 2;
  }

  predicate OneBitAs(a: byte, b: byte, bit: byte, on: bool) {
    && b / 16 == a / 16
    && (Lit(b, 1) <==> if bit == 1 then on else Lit(a, 1))
    && (Lit(b, 2) <==> if bit == 2 then on else Lit(a, 2))
    && (Lit(b, 4) <==> if bit == 4 then on else Lit(a, 4))
    && (Lit(b, 8) <==> if bit == 8 then on else Lit(a, 8))
  }

  lemma BitSet(a: byte, bit: byte)
    requires bit in {1, 2, 4, 8}
    ensures OneBitAs(a, SetBit(a, bit), bit, true)
  {
    var h, d3, d2, d1, d0 := Parts(a);
    Digits(a, h, d3, d2, d1, d0);
    match bit
    case 1 => Digits(SetBit(a, 1), h, d3, d2, d1, 1);
    case 2 => Digits(SetBit(a, 2), h, d3, d2, 1, d0);
    case 4 => Digits(SetBit(a, 4), h, d3, 1, d1, d0);
    case _ => Digits(SetBit(a, 8), h, 1, d2, d1, d0);
  }

  lemma BitCleared(a: byte, bit: byte)
    requires bit in {1, 2, 4, 8}
    ensures OneBitAs(a, ClearBit(a, bit), bit, false)
  {
    var h, d3, d2, d1, d0 := Parts(a);
    Digits(a, h, d3, d2, d1, d0);
    match bit
    case 1 => Digits(ClearBit(a, 1), h, d3, d2, d1, 0);
    case 2 => Digits(ClearBit(a, 2), h, d3, d2, 0, d0);
    case 4 => Digits(ClearBit(a, 4), h, d3, 0, d1, d0);
    case _ => Digits(ClearBit(a, 8), h, 0, d2, d1, d0);
  }

  lemma AttributeSets(pen: Pen, code: byte)
    ensures Sets(pen, code, Attribute(pen, code))
  {
    hide SetBit, ClearBit, Lit;
    if code in {1, 3, 4, 5, 7} {
      BitSet(pen.attr, match code case 1 => 4 case 4 => 1 case 5 => 2 case _ => 8);
    } else if code in {2, 22, 23, 24, 25, 27} {
      BitCleared(pen.attr, match code case 24 => 1 case 25 => 2 case 23 => 8 case 27 => 8 case _ => 4);
    } else if code == 0 {
      assert forall bit: byte :: bit > 0 ==> !Lit(0, bit) by { ZeroUnlit(); }
    }
  }

  lemma ZeroUnlit()
    ensures forall bit: byte :: bit > 0 ==> !Lit(0, bit)
  {
  }

  /** Codes work one after another; 38;5;n and 48;5;n choose a colour of the sixteen, an `n` left out any of them. */
  ghost predicate Renders(pen: Pen, codes: seq<byte>, after: Pen)
    decreases |codes|
  {
    if codes == [] then after == pen
    else if |codes| >= 2 && codes[0] in {38, 48} && codes[1] == 5 then
      exists colour: byte ::
        && colour < 16 && (|codes| >= 3 ==> colour == codes[2] % 16)
        && Renders(InColour(pen, codes[0], colour), codes[Min(3, |codes|)..], after)
    else exists mid: Pen :: Sets(pen, codes[0], mid) && Renders(mid, codes[1..], after)
  }

  function InColour(pen: Pen, code: byte, colour: byte): Pen {
    if code == 38 then Pen(colour, pen.bg, pen.attr) else Pen(pen.fg, colour, pen.attr)
  }

  lemma {:induction false} Rendering(pen: Pen, p: Params, num: nat, i: nat, stray: byte)
    requires i <= num <= 16
    ensures Renders(pen, p[i..num], GraphicRendition(pen, p, num, i, stray))
    decreases num - i
  {
    hide Attribute, Sets;
    var codes := p[i..num];
    if i < num && OpensColour(p, num, i) {
      var colour := ParamAt(p, i + 2, stray) % 16;
      var next := InColour(pen, p[i], colour);
      var k := Min(3, |codes|);
      assert codes[k..] == p[i + k..num];
      Rendering(next, p, num, i + k, stray);
    } else if i < num {
      assert codes[1..] == p[i + 1..num];
      AttributeSets(pen, p[i]);
      Rendering(Attribute(pen, p[i]), p, num, i + 1, stray);
    }
  }

  /** SGR changes the pen as its codes say, and nothing else. */
  lemma RenditionSequence(t: Term, question: bool, args: seq<byte>, terse: bool, input: seq<Input>)
    requires IsSent(t, question, args, terse, 109 /* m */, input)
    ensures var r := FeedAll(t, input);
      r == t.(parser := r.parser, pen := r.pen) && Renders(t.pen, args, r.pen)
  {
    var u, start, p, stray := Carried(t, question, args, terse, 109, SGR, input);
    hide FinalOf, FeedAll, Renders;
    Rendering(u.pen, p, |args|, 0, stray);
    assert p[0..|args|] == args;
  }

  // ---- Modes ----

  /** Each mode is switched by the number that stands for it, and by no other. */
  predicate Switched(m: Modes, question: bool, code: byte, on: bool, after: Modes) {
    && after.cursorKeys == (if question && code == 1 then on else m.cursorKeys)
    && after.inverted == (if question && code == 5 then on else m.inverted)
    && after.origin == (if question && code == 6 then on else m.origin)
    && after.autoWrap == (if question && code == 7 then on else m.autoWrap)
    && after.shown == (if question && code == 25 then on else m.shown)
    && after.insert == (if !question && code == 4 then on else m.insert)
    && after.vt52 == m.vt52
  }

  /** Every cell shows its colours the other way round. */
  ghost predicate Exchanged(s: Screen, r: Screen) {
    forall y: nat, x: nat :: y < ROWS && x < COLS ==> IsExchanged(s[y][x], r[y][x])
  }

  /** The inverse bit of a cell is the other, and everything else the same. */
  predicate IsExchanged(a: Cell, b: Cell) {
    && b.ch == a.ch && b.fg == a.fg && b.bg == a.bg
    && (Lit(b.attr, 8) <==> !Lit(a.attr, 8))
    && b.attr / 16 == a.attr / 16 && b.attr % 8 == a.attr % 8
  }

  lemma FlippingExchanges(s: Screen)
    ensures Exchanged(s, FlipAll(s))
  {
    forall y: nat, x: nat | y < ROWS && x < COLS
      ensures IsExchanged(s[y][x], FlipAll(s)[y][x])
    {
      FlippingOne(s[y][x]);
    }
  }

  lemma FlippingOne(a: Cell)
    ensures IsExchanged(a, a.(attr := FlipInverse(a.attr)))
  {
  }

  /** A mode of its own: what else SM and RM do with it. */
  ghost predicate ModeSet(t: Term, r: Term, question: bool, code: byte, on: bool) {
    && Switched(t.modes, question, code, on, r.modes)
    && (if question && code == 5 && on != t.modes.inverted then
          r == t.(parser := r.parser, modes := r.modes, screen := r.screen) && Exchanged(t.screen, r.screen)
        else if question && code == 6 && t.top <= t.row <= t.bottom then
          && r == t.(parser := r.parser, modes := r.modes, row := t.top, col := 0, eol := r.eol)
          && r.eol == (t.eol && t.row == t.top && t.col == 0)
        else r == t.(parser := r.parser, modes := r.modes))
  }

  /** Mode 3: the screen is blank, the cursor is home, the region is the screen. */
  ghost predicate Cleared(t: Term, r: Term) {
    && r == t.(parser := r.parser, screen := r.screen, row := 0, col := 0, eol := false,
         top := 0, bottom := 24, modes := t.modes.(origin := false))
    && forall y: nat, x: nat :: y < ROWS && x < COLS ==> r.screen[y][x] == BlankOf(t)
  }

  /** All is as at power-up, but for the cursor, the screen, the inversion, VT52 mode and half of what was saved. */
  predicate AsNew(t: Term, r: Term, vt52: bool) {
    && r.modes == Modes(true, false, true, false, false, vt52, t.modes.inverted)
    && r.pen == Pen(7, 0, 0) && r.g0 == US && r.g1 == Graphics && !r.useG1
    && r.top == 0 && r.bottom == 24 && !r.eol
    && r.row == t.row && r.col == t.col && r.screen == t.screen && r.start52 == t.start52 && r.row52 == t.row52
    && r.saved == Saved(0, 0, t.saved.eol, t.saved.origin, Pen(t.saved.pen.fg, t.saved.pen.bg, 0), US, Graphics)
    && (forall k :: 0 <= k < 80 ==> !r.tabs[k])
    && (forall k :: 80 <= k < 255 ==> r.tabs[k] == t.tabs[k])
  }

  /** What SM and RM do; mode 2 off is VT52 mode, and everything else as new. */
  ghost predicate ModeOutcome(t: Term, r: Term, question: bool, code: byte, on: bool) {
    if question && code == 3 then Cleared(t, r)
    else if question && code == 2 then
      if on then NothingDone(t, r) else AsNew(t, r, true)
    else ModeSet(t, r, question, code, on)
  }

  lemma Resetting(t: Term)
    ensures AsNew(t, Reset(t), false)
    ensures var r := Reset(t); AsNew(t, r.(modes := r.modes.(vt52 := true)), true)
  {
  }

  lemma Clearing(t: Term)
    ensures Cleared(t, ClearScreen(t))
  {
  }

  lemma Inverting(t: Term, on: bool)
    ensures ModeSet(t, Invert(t, on), true, 5, on)
  {
    hide FlipAll, Exchanged;
    FlippingExchanges(t.screen);
  }

  lemma ToTop(t: Term)
    ensures MoveLimited(t, t.top, 0) ==
      if t.top <= t.row <= t.bottom then t.(row := t.top, col := 0, eol := t.eol && t.row == t.top && t.col == 0)
      else t
  {
  }

  lemma Homing(t: Term, on: bool)
    ensures ModeSet(t, MoveLimited(t.(modes := t.modes.(origin := on)), t.top, 0), true, 6, on)
  {
    hide Exchanged, MoveLimited;
    ToTop(t.(modes := t.modes.(origin := on)));
  }

  lemma Flagging(t: Term, code: byte, on: bool)
    requires code !in {2, 3, 5, 6}
    ensures ModeSet(t, PrivateMode(t, code, on), true, code, on)
  {
    hide Exchanged;
  }

  lemma PrivateModeSets(t: Term, code: byte, on: bool)
    ensures ModeOutcome(t, PrivateMode(t, code, on), true, code, on)
  {
    hide Reset, ClearScreen, Invert, MoveLimited, Cleared, AsNew, ModeSet;
    if code == 2 {
      Resetting(t);
    } else if code == 3 {
      Clearing(t);
    } else if code == 5 {
      Inverting(t, on);
    } else if code == 6 {
      Homing(t, on);
    } else {
      Flagging(t, code, on);
    }
  }

  lemma ModeCommand(u: Term, start: byte, num: nat, p: Params, stray: byte, on: bool)
    requires Safe(u) && num <= 16 && start in {0, QUESTION}
    ensures ModeOutcome(u, Execute(u, start, if on then SetMode else ResetMode, num, p, stray), start != 0, p[0], on)
  {
    hide PrivateMode, Exchanged, Cleared, AsNew;
    PrivateModeSets(u, p[0], on);
  }

  lemma ModeSequence(t: Term, question: bool, args: seq<byte>, terse: bool, final: byte, input: seq<Input>)
    requires IsSent(t, question, args, terse, final, input) && final in {104 /* h */, 108 /* l */}
    ensures ModeOutcome(t, FeedAll(t, input), question, args[0], final == 104)
  {
    var u, start, p, stray :=
      Carried(t, question, args, terse, final, if final == 104 then SetMode else ResetMode, input);
    hide FeedAll, FinalOf, Execute, IsSent, Exchanged;
    ModeCommand(u, start, |args|, p, stray, final == 104);
  }

  // ---- Tab stops and the saved cursor ----

  /** TBC clears the stop at the cursor, or all of them, and nothing else. */
  predicate TabsCleared(t: Term, r: Term, code: byte) {
    && r == t.(parser := r.parser, tabs := r.tabs)
    && forall k :: 0 <= k < 255 ==>
         r.tabs[k] == (t.tabs[k] && !(code == 0 && k == t.col) && !(code == 3 && k < 80))
  }

  lemma TabSequence(t: Term, question: bool, args: seq<byte>, terse: bool, input: seq<Input>)
    requires IsSent(t, question, args, terse, 103 /* g */, input)
    ensures TabsCleared(t, FeedAll(t, input), args[0])
  {
    var u, start, p, stray := Carried(t, question, args, terse, 103, TBC, input);
    hide FeedAll, FinalOf, IsSent;
  }

  /** What saving the cursor saves. */
  predicate Saves(t: Term, r: Term) {
    && r == t.(parser := r.parser, saved := r.saved)
    && r.saved.row == t.row && r.saved.col == t.col && r.saved.eol == t.eol && r.saved.origin == t.modes.origin
    && r.saved.pen == t.pen && r.saved.g0 == t.g0 && r.saved.g1 == t.g1
  }

  /** What restoring it brings back; the cursor itself only from inside the region, and no further than in it. */
  predicate Restores(t: Term, r: Term) {
    && r == t.(parser := r.parser, row := r.row, col := r.col, eol := r.eol, pen := r.pen, g0 := r.g0, g1 := r.g1,
         modes := t.modes.(origin := r.modes.origin))
    && r.eol == t.saved.eol && r.modes.origin == t.saved.origin
    && r.pen == t.saved.pen && r.g0 == t.saved.g0 && r.g1 == t.saved.g1
    && (if t.top <= t.row <= t.bottom then IsNearest(r.row, t.saved.row, t.top, t.bottom) && r.col == t.saved.col
        else r.row == t.row && r.col == t.col)
  }

  lemma CursorSavedCommand(u: Term, start: byte, num: nat, p: Params, stray: byte)
    requires Safe(u) && num <= 16
    ensures Saves(u, Execute(u, start, SCP, num, p, stray))
  {
    hide InStep;
  }

  lemma CursorSavedSequence(t: Term, question: bool, args: seq<byte>, terse: bool, input: seq<Input>)
    requires IsSent(t, question, args, terse, 115 /* s */, input)
    ensures Saves(t, FeedAll(t, input))
  {
    var u, start, p, stray := Carried(t, question, args, terse, 115, SCP, input);
    hide FeedAll, FinalOf, IsSent, Execute, Safe;
    CursorSavedCommand(u, start, |args|, p, stray);
  }

  lemma CursorRestoredCommand(u: Term, start: byte, num: nat, p: Params, stray: byte)
    requires Safe(u) && num <= 16
    ensures Restores(u, Execute(u, start, RCP, num, p, stray))
  {
    hide InStep;
  }

  lemma CursorRestoredSequence(t: Term, question: bool, args: seq<byte>, terse: bool, input: seq<Input>)
    requires IsSent(t, question, args, terse, 117 /* u */, input)
    ensures Restores(t, FeedAll(t, input))
  {
    var u, start, p, stray := Carried(t, question, args, terse, 117, RCP, input);
    hide FeedAll, FinalOf, IsSent, Execute, Safe;
    CursorRestoredCommand(u, start, |args|, p, stray);
  }

  /** DECSTBM gives the region, cut to the screen at its bottom alone, and the cursor goes to its start. */
  predicate RegionGiven(t: Term, r: Term, args: seq<byte>)
    requires 1 <= |args|
  {
    && (if |args| == 2 && args[0] < args[1] then
          r.top == (if args[0] == 0 then 0 else args[0] - 1) && r.bottom == (if args[1] > 25 then 24 else args[1] - 1)
        else if args[0] == 0 then r.top == 0 && r.bottom == 24
        else r.top == t.top && r.bottom == t.bottom)
    && r == t.(parser := r.parser, top := r.top, bottom := r.bottom, row := Min(r.top, r.bottom), col := 0,
         eol := t.eol && t.row == r.top && t.col == 0)
  }

  lemma RegionCommand(u: Term, start: byte, args: seq<byte>, p: Params, stray: byte)
    requires OnScreen(u.row, u.col) && RegionOk(u) && 1 <= |args| <= 16
    requires p[0] == args[0] && (|args| >= 2 ==> p[1] == args[1])
    ensures RegionGiven(u, Execute(u, start, DECSTBM, |args|, p, stray), args)
  {
  }

  lemma RegionGivenSequence(t: Term, question: bool, args: seq<byte>, terse: bool, input: seq<Input>)
    requires IsSent(t, question, args, terse, 114 /* r */, input)
    ensures RegionGiven(t, FeedAll(t, input), args)
  {
    var u, start, p, stray := Carried(t, question, args, terse, 114, DECSTBM, input);
    hide FeedAll, FinalOf, IsSent, Execute;
    RegionCommand(u, start, args, p, stray);
  }
}
