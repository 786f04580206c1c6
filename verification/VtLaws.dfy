/**
 Where the terminal departs from the VT102, ECMA-48 and the VT52, and exactly when: what each of these
 commands comes to, and in which settings and for which parameters that is what it should do, whatever
 is on the screen. Scrolls, and lines inserted or deleted, should keep to the scroll region.
 */
module VtLaws {
  import opened Words
  import opened Grid
  import opened Vt
  import opened VtSafety

  // ---- When two scrolls are the same ----

  /** The number of rows from `top` to `bottom`. */
  function Height(top: int, bottom: int): nat {
    Max(0, bottom - top + 1)
  }

  /** A screen on which no two rows are alike and none is blank. */
  function Striped(): Screen {
    seq(ROWS, r requires 0 <= r < ROWS => seq(COLS, _ => Cell(33 + r, 0, 0, 0)))
  }

  /** Scrolling by `m` and by `n` comes to the same on every screen. */
  ghost predicate AlwaysAgree(top: byte, bottom: byte, m: int, n: int, pen: Pen) {
    forall s: Screen :: Scroll(s, top, bottom, m, pen.fg, pen.bg) == Scroll(s, top, bottom, n, pen.fg, pen.bg)
  }

  /** Two scrolls agree on every screen exactly when they are by as much, or both by the whole region or more. */
  lemma ScrollsAgree(top: byte, bottom: byte, m: int, n: int, pen: Pen)
    requires bottom < ROWS
    ensures AlwaysAgree(top, bottom, m, n, pen) <==>
      m == n || ((m >= Height(top, bottom) || -m >= Height(top, bottom)) &&
                 (n >= Height(top, bottom) || -n >= Height(top, bottom)))
  {
    var h := Height(top, bottom);
    if m != n && -h < m < h {
      StripesTell(top, bottom, m, n, pen);
    } else if m != n && -h < n < h {
      StripesTell(top, bottom, n, m, pen);
    }
  }

  lemma StripesTell(top: byte, bottom: byte, m: int, n: int, pen: Pen)
    requires bottom < ROWS && m != n && m < Height(top, bottom) && -m < Height(top, bottom)
    ensures Scroll(Striped(), top, bottom, m, pen.fg, pen.bg) != Scroll(Striped(), top, bottom, n, pen.fg, pen.bg)
  {
    var a, b := Scroll(Striped(), top, bottom, m, pen.fg, pen.bg), Scroll(Striped(), top, bottom, n, pen.fg, pen.bg);
    var r: int := if m >= 0 then top else bottom;
    assert a[r][0].ch == 33 + r + m != b[r][0].ch;
  }

  // ---- SU and SD ----

  /** 1 + 2 + ... + (n - 1). */
  function Triangle(n: nat): nat {
    n * (n - 1) / 2
  }

  lemma TriangleNext(n: nat)
    requires n > 0
    ensures Triangle(n) == Triangle(n - 1) + (n - 1)
  {
    assert n * (n - 1) == (n - 1) * (n - 2) + 2 * (n - 1);
  }

  /** Scrolls the same way add up, however far. */
  lemma SameWayAdds(s: Screen, top: byte, bottom: byte, m: nat, n: nat, sign: int, fg: byte, bg: byte)
    requires sign == 1 || sign == -1
    ensures Scroll(Scroll(s, top, bottom, sign * m, fg, bg), top, bottom, sign * n, fg, bg) ==
      Scroll(s, top, bottom, sign * (m + n), fg, bg)
  {
    assert sign * (m + n) == sign * m + sign * n;
  }

  /** A scroll by the whole screen or more leaves nothing of what was in the region. */
  lemma FarScrollForgets(s: Screen, top: byte, bottom: byte, m: int, n: int, k: int, fg: byte, bg: byte)
    requires (n >= ROWS || -n >= ROWS) && (k >= ROWS || -k >= ROWS)
    ensures Scroll(Scroll(s, top, bottom, m, fg, bg), top, bottom, n, fg, bg) == Scroll(s, top, bottom, k, fg, bg)
  {
  }

  /**
   What the loop of SU and SD comes to: one scroll by `n * (n - 1) / 2`, for every count. Beyond 128 the
   first of its scrolls go the other way, but the later ones leave nothing of them.
   */
  lemma {:induction false} LoopIsOneScroll(t: Term, top: int, bottom: int, n: nat, sign: int)
    requires n < 256 && (sign == 1 || sign == -1)
    ensures ScrollRepeatedly(t, top, bottom, n, sign) ==
      t.(screen := Scroll(t.screen, U8(top), U8(bottom), sign * Triangle(n), t.pen.fg, t.pen.bg))
    decreases n
  {
    hide Scroll, Triangle;
    var lo, hi, fg, bg := U8(top), U8(bottom), t.pen.fg, t.pen.bg;
    if n == 0 {
      NoScroll(t.screen, lo, hi, fg, bg);
    } else {
      LoopIsOneScroll(ScrollPart(t, top, bottom, sign * (n - 1)), top, bottom, n - 1, sign);
      OneMoreRound(t.screen, lo, hi, n, sign, fg, bg);
    }
  }

  lemma NoScroll(s: Screen, top: byte, bottom: byte, fg: byte, bg: byte)
    ensures Scroll(s, top, bottom, 0, fg, bg) == s && Triangle(0) == 0
  {
  }

  /** The first round of the loop, and what the others come to. */
  lemma OneMoreRound(s: Screen, top: byte, bottom: byte, n: nat, sign: int, fg: byte, bg: byte)
    requires 1 <= n < 256 && (sign == 1 || sign == -1)
    ensures Scroll(Scroll(s, top, bottom, I8(sign * (n - 1)), fg, bg), top, bottom, sign * Triangle(n - 1), fg, bg) ==
      Scroll(s, top, bottom, sign * Triangle(n), fg, bg)
  {
    TriangleNext(n);
    if n > 128 {
      ManyAreFar(n - 1);
    }
    hide Triangle, Scroll;
    var first, rest, all := sign * (n - 1), sign * Triangle(n - 1), sign * Triangle(n);
    if n <= 128 {
      assert I8(first) == first by { FitsInt8(n - 1, sign); }
      SameWayAdds(s, top, bottom, n - 1, Triangle(n - 1), sign, fg, bg);
    } else if sign == 1 {
      FarScrollForgets(s, top, bottom, I8(first), rest, all, fg, bg);
    } else {
      FarScrollForgets(s, top, bottom, I8(first), rest, all, fg, bg);
    }
  }

  lemma FitsInt8(m: nat, sign: int)
    requires m < 128 && (sign == 1 || sign == -1)
    ensures I8(sign * m) == sign * m
  {
  }

  lemma ManyAreFar(n: nat)
    requires n >= 8
    ensures Triangle(n) >= ROWS
  {
    assert n * (n - 1) >= 8 * 7;
  }

  /** `t` with another screen. */
  function Showing(t: Term, s: Screen): Term {
    t.(screen := s)
  }

  /** The parameter of a command, where none or zero is one. */
  function Count(p: Params): nat {
    Max(1, p[0])
  }

  /** Whatever is on the screen, the command scrolls the rows `top` to `bottom` by `n`, and does no more. */
  ghost predicate ScrollsBy(
    t: Term, start: byte, f: Final, num: nat, p: Params, stray: byte, top: byte, bottom: byte, n: int)
    requires num <= 16
  {
    forall s: Screen ::
      Execute(Showing(t, s), start, f, num, p, stray) == Showing(t, Scroll(s, top, bottom, n, t.pen.fg, t.pen.bg))
  }

  /** A command that scrolls by `m` also scrolls by `n` exactly if the two always come to the same. */
  lemma ScrollsByBoth(
    t: Term, start: byte, f: Final, num: nat, p: Params, stray: byte, top: byte, bottom: byte, m: int, n: int)
    requires num <= 16 && ScrollsBy(t, start, f, num, p, stray, top, bottom, m)
    ensures ScrollsBy(t, start, f, num, p, stray, top, bottom, n) <==> AlwaysAgree(top, bottom, m, n, t.pen)
  {
    hide Execute, Scroll;
    if ScrollsBy(t, start, f, num, p, stray, top, bottom, n) {
      forall s: Screen
        ensures Scroll(s, top, bottom, m, t.pen.fg, t.pen.bg) == Scroll(s, top, bottom, n, t.pen.fg, t.pen.bg)
      {
        assert Execute(Showing(t, s), start, f, num, p, stray) ==
          Showing(t, Scroll(s, top, bottom, n, t.pen.fg, t.pen.bg));
      }
    }
  }

  /** A command that moves a row some scroll leaves alone, or leaves alone one it moves, is not that scroll. */
  lemma NotThatScroll(
    t: Term, start: byte, f: Final, num: nat, p: Params, stray: byte,
    top: byte, bottom: byte, m: int, top2: byte, bottom2: byte, n: int, r: nat)
    requires num <= 16 && ScrollsBy(t, start, f, num, p, stray, top, bottom, m) && r < ROWS
    requires var s, pen := Striped(), t.pen;
      Scroll(s, top, bottom, m, pen.fg, pen.bg)[r] != Scroll(s, top2, bottom2, n, pen.fg, pen.bg)[r]
    ensures !ScrollsBy(t, start, f, num, p, stray, top2, bottom2, n)
  {
    hide Execute, Scroll;
    var s := Striped();
    assert Execute(Showing(t, s), start, f, num, p, stray) == Showing(t, Scroll(s, top, bottom, m, t.pen.fg, t.pen.bg));
  }

  /** A scroll by anything at all moves the first and the last of its rows. */
  lemma EndsMove(top: byte, bottom: byte, n: int, pen: Pen)
    requires top <= bottom < ROWS && n != 0
    ensures Scroll(Striped(), top, bottom, n, pen.fg, pen.bg)[top][0] != Striped()[top][0]
    ensures Scroll(Striped(), top, bottom, n, pen.fg, pen.bg)[bottom][0] != Striped()[bottom][0]
  {
  }

  lemma OthersStay(top: byte, bottom: byte, n: int, pen: Pen, r: nat)
    requires bottom < ROWS && r < ROWS && !(top <= r <= bottom)
    ensures Scroll(Striped(), top, bottom, n, pen.fg, pen.bg)[r] == Striped()[r]
  {
  }

  /** What SU and SD come to: one scroll by `n * (n - 1) / 2`, of the region in origin mode, else of all rows. */
  lemma LoopCommand(t: Term, start: byte, up: bool, num: nat, p: Params, stray: byte)
    requires Safe(t) && num <= 16
    ensures ScrollsBy(t, start, if up then SU else SD, num, p, stray, TopLimit(t), BottomLimit(t),
                      (if up then 1 else -1) * Triangle(Count(p)))
  {
    hide Scroll, Triangle;
    var top, bottom, sign: int := TopLimit(t), BottomLimit(t), if up then 1 else -1;
    forall s: Screen
      ensures Execute(Showing(t, s), start, if up then SU else SD, num, p, stray) ==
        Showing(t, Scroll(s, top, bottom, sign * Triangle(Count(p)), t.pen.fg, t.pen.bg))
    {
      LoopIsOneScroll(Showing(t, s), top, bottom, Count(p), sign);
    }
  }

  /** As far as the count goes, that is right exactly if it is 3, or if both are as much as the rows. */
  predicate CountScrollsRight(n: nat, height: nat) {
    n == 3 || (n >= height && Triangle(n) >= height)
  }

  /** The scroll region is what the commands work on: in origin mode, or because it is the whole screen. */
  predicate RegionHeeded(t: Term) {
    t.modes.origin || (t.top == 0 && t.bottom == LAST_ROW)
  }

  /**
   SU and SD scroll the scroll region by `n`, as they should, exactly if the region is what they work on
   and `n` is 3, or both `n` and what it comes to are as much as the region; or, with the region inverted
   and so no rows to scroll, in origin mode or by 1.
   */
  lemma ScrollCommand(t: Term, start: byte, up: bool, num: nat, p: Params, stray: byte)
    requires Safe(t) && num <= 16
    ensures ScrollsBy(t, start, if up then SU else SD, num, p, stray, t.top, t.bottom,
                      (if up then 1 else -1) * Count(p)) <==>
      if Inverted(t) then t.modes.origin || Count(p) == 1
      else RegionHeeded(t) && CountScrollsRight(Count(p), Height(t.top, t.bottom))
  {
    LoopCommand(t, start, up, num, p, stray);
    if RegionHeeded(t) {
      ScrollCountOnly(t, start, up, num, p, stray);
    } else {
      ScrollAstray(t, start, up, num, p, stray);
    }
  }

  lemma ScrollCountOnly(t: Term, start: byte, up: bool, num: nat, p: Params, stray: byte)
    requires Safe(t) && num <= 16 && RegionHeeded(t)
    requires ScrollsBy(t, start, if up then SU else SD, num, p, stray, t.top, t.bottom,
                       (if up then 1 else -1) * Triangle(Count(p)))
    ensures ScrollsBy(t, start, if up then SU else SD, num, p, stray, t.top, t.bottom,
                      (if up then 1 else -1) * Count(p)) <==>
      Inverted(t) || CountScrollsRight(Count(p), Height(t.top, t.bottom))
  {
    var n := Count(p);
    var f, sign: int := if up then SU else SD, if up then 1 else -1;
    ThreeOnly(n);
    hide Triangle, ScrollsBy, AlwaysAgree, Scroll;
    ScrollsAgree(t.top, t.bottom, sign * Triangle(n), sign * n, t.pen);
    ScrollsByBoth(t, start, f, num, p, stray, t.top, t.bottom, sign * Triangle(n), sign * n);
  }

  lemma ScrollAstray(t: Term, start: byte, up: bool, num: nat, p: Params, stray: byte)
    requires Safe(t) && num <= 16 && !RegionHeeded(t)
    requires ScrollsBy(t, start, if up then SU else SD, num, p, stray, 0, LAST_ROW,
                       (if up then 1 else -1) * Triangle(Count(p)))
    ensures ScrollsBy(t, start, if up then SU else SD, num, p, stray, t.top, t.bottom,
                      (if up then 1 else -1) * Count(p)) <==>
      (Inverted(t) && Count(p) == 1)
  {
    var n := Count(p);
    var f, sign: int := if up then SU else SD, if up then 1 else -1;
    var m := sign * Triangle(n);
    ThreeOnly(n);
    assert m == 0 <==> n == 1;
    hide Execute, Triangle, ScrollsBy;
    if n > 1 {
      EndsMove(0, LAST_ROW, m, t.pen);
      var r := if t.top > 0 then 0 else LAST_ROW;
      OthersStay(t.top, t.bottom, sign * n, t.pen, r);
      NotThatScroll(t, start, f, num, p, stray, 0, LAST_ROW, m, t.top, t.bottom, sign * n, r);
    } else if !Inverted(t) {
      EndsMove(t.top, t.bottom, sign * n, t.pen);
      NotThatScroll(t, start, f, num, p, stray, 0, LAST_ROW, 0, t.top, t.bottom, sign * n, t.top);
    } else {
      NoScrolls(t, start, f, num, p, stray, sign * n);
    }
  }

  /** A scroll by nothing and a scroll of no rows are the same. */
  lemma NoScrolls(t: Term, start: byte, f: Final, num: nat, p: Params, stray: byte, n: int)
    requires num <= 16 && ScrollsBy(t, start, f, num, p, stray, 0, LAST_ROW, 0)
    requires Safe(t) && Inverted(t)
    ensures ScrollsBy(t, start, f, num, p, stray, t.top, t.bottom, n)
  {
    hide Execute;
    forall s: Screen
      ensures Execute(Showing(t, s), start, f, num, p, stray) ==
        Showing(t, Scroll(s, t.top, t.bottom, n, t.pen.fg, t.pen.bg))
    {
      assert Scroll(s, 0, LAST_ROW, 0, t.pen.fg, t.pen.bg) == s;
      assert Scroll(s, t.top, t.bottom, n, t.pen.fg, t.pen.bg) == s;
    }
  }

  /** `n * (n - 1) / 2` is nothing for 1 alone, and `n` for 3 alone. */
  lemma ThreeOnly(n: nat)
    requires n >= 1
    ensures Triangle(n) == n <==> n == 3
    ensures Triangle(n) == 0 <==> n == 1
  {
    if n >= 4 {
      TimesMonotone(3, n - 1, n);
      assert n * (n - 1) >= n + 2 * n;
      assert Triangle(n) >= n + n / 2;
    }
  }

  // ---- IL and DL ----

  /** What IL and DL come to: a scroll from the cursor's row to the last the code picks, the count an `int8_t`. */
  lemma LinesMove(t: Term, start: byte, delete: bool, num: nat, p: Params, stray: byte)
    requires Safe(t) && num <= 16
    ensures ScrollsBy(t, start, if delete then DL else IL, num, p, stray, t.row, BottomLimit(t),
                      I8((if delete then 1 else -1) * Count(p)))
  {
    hide Scroll;
  }

  /** The first and the last row that lines should move in: from the cursor down, or nowhere outside the region. */
  function FirstMoved(t: Term): byte
    requires Safe(t)
  {
    if t.top <= t.row <= t.bottom then t.row else t.bottom + 1
  }

  /**
   IL and DL keep to the scroll region and move the lines they are asked for exactly if the cursor is in
   the region, the region ends with the screen or counts because of origin mode, and the count and the
   rows from the cursor down are together no more than 256; or if the cursor is below the region in
   origin mode, where they should do nothing.
   */
  lemma LineCommand(t: Term, start: byte, delete: bool, num: nat, p: Params, stray: byte)
    requires Safe(t) && num <= 16
    ensures ScrollsBy(t, start, if delete then DL else IL, num, p, stray, FirstMoved(t), t.bottom,
                      (if delete then 1 else -1) * Count(p)) <==>
      if t.top <= t.row <= t.bottom then
        (t.modes.origin || t.bottom == LAST_ROW) && Count(p) + Height(t.row, t.bottom) <= 256
      else t.modes.origin && t.row > t.bottom
  {
    LinesMove(t, start, delete, num, p, stray);
    if t.top <= t.row <= t.bottom == BottomLimit(t) {
      LineCountOnly(t, start, delete, num, p, stray);
    } else {
      LinesAstray(t, start, delete, num, p, stray);
    }
  }

  lemma LineCountOnly(t: Term, start: byte, delete: bool, num: nat, p: Params, stray: byte)
    requires Safe(t) && num <= 16 && t.row <= t.bottom
    requires ScrollsBy(t, start, if delete then DL else IL, num, p, stray, t.row, t.bottom,
                       I8((if delete then 1 else -1) * Count(p)))
    ensures ScrollsBy(t, start, if delete then DL else IL, num, p, stray, t.row, t.bottom,
                      (if delete then 1 else -1) * Count(p)) <==>
      Count(p) + Height(t.row, t.bottom) <= 256
  {
    var n := Count(p);
    var f, sign: int := if delete then DL else IL, if delete then 1 else -1;
    hide ScrollsBy, AlwaysAgree, Scroll;
    ScrollsAgree(t.row, t.bottom, I8(sign * n), sign * n, t.pen);
    ScrollsByBoth(t, start, f, num, p, stray, t.row, t.bottom, I8(sign * n), sign * n);
  }

  lemma LinesAstray(t: Term, start: byte, delete: bool, num: nat, p: Params, stray: byte)
    requires Safe(t) && num <= 16 && !(t.top <= t.row <= t.bottom == BottomLimit(t))
    requires ScrollsBy(t, start, if delete then DL else IL, num, p, stray, t.row, BottomLimit(t),
                       I8((if delete then 1 else -1) * Count(p)))
    ensures ScrollsBy(t, start, if delete then DL else IL, num, p, stray, FirstMoved(t), t.bottom,
                      (if delete then 1 else -1) * Count(p)) <==>
      t.row > BottomLimit(t)
  {
    var f, sign: int := if delete then DL else IL, if delete then 1 else -1;
    var n, m, b := sign * Count(p), I8(sign * Count(p)), BottomLimit(t);
    hide Execute;
    if t.row > b {
      forall s: Screen
        ensures Execute(Showing(t, s), start, f, num, p, stray) ==
          Showing(t, Scroll(s, FirstMoved(t), t.bottom, n, t.pen.fg, t.pen.bg))
      {
        assert Scroll(s, t.row, b, m, t.pen.fg, t.pen.bg) == s;
        assert Scroll(s, FirstMoved(t), t.bottom, n, t.pen.fg, t.pen.bg) == s;
      }
    } else {
      hide ScrollsBy;
      EndsMove(t.row, b, m, t.pen);
      OthersStay(FirstMoved(t), t.bottom, n, t.pen, b);
      NotThatScroll(t, start, f, num, p, stray, t.row, b, m, FirstMoved(t), t.bottom, n, b);
    }
  }

  // ---- CHT and CBT ----

  /** The next place a tab goes to from a column of the screen. */
  function Stop(tabs: Tabs, col: nat): (r: nat)
    ensures r <= LAST_COL && (col < LAST_COL ==> col < r)
  {
    Min(NextTab(tabs, col + 1), LAST_COL)
  }

  /** What the standard asks of CHT: the `n`th stop from here. */
  function NthStop(tabs: Tabs, col: nat, n: nat): (r: nat)
    ensures col <= LAST_COL ==> col <= r <= LAST_COL && (n > 0 && col < LAST_COL ==> col < r)
    decreases n
  {
    if n == 0 then col else NthStop(tabs, Stop(tabs, col), n - 1)
  }

  function BackStop(tabs: Tabs, col: nat): (r: nat)
    requires col <= LAST_COL
    ensures r <= col && (col > 0 ==> r < col)
  {
    Max(PrevTab(tabs, col - 1), 0)
  }

  function NthBackStop(tabs: Tabs, col: nat, n: nat): (r: nat)
    requires col <= LAST_COL
    ensures r <= col && (n > 0 && col > 0 ==> r < col)
    decreases n
  {
    if n == 0 then col else NthBackStop(tabs, BackStop(tabs, col), n - 1)
  }

  lemma {:induction false} LastStopStays(tabs: Tabs, n: nat)
    ensures NthStop(tabs, LAST_COL, n) == LAST_COL
    decreases n
  {
    if n > 0 {
      LastStopStays(tabs, n - 1);
    }
  }

  lemma {:induction false} FirstStopStays(tabs: Tabs, n: nat)
    ensures NthBackStop(tabs, 0, n) == 0
    decreases n
  {
    if n > 0 {
      FirstStopStays(tabs, n - 1);
    }
  }

  /** One stop is the `n`th exactly if one is asked for, or if there is no other on the way. */
  lemma StopIsNth(tabs: Tabs, col: nat, n: nat)
    requires col <= LAST_COL && n >= 1
    ensures Stop(tabs, col) == NthStop(tabs, col, n) <==> n == 1 || Stop(tabs, col) == LAST_COL
    ensures BackStop(tabs, col) == NthBackStop(tabs, col, n) <==> n == 1 || BackStop(tabs, col) == 0
  {
    if n > 1 {
      LastStopStays(tabs, n - 1);
      FirstStopStays(tabs, n - 1);
    } else {
      assert NthStop(tabs, Stop(tabs, col), 0) == Stop(tabs, col);
      assert NthBackStop(tabs, BackStop(tabs, col), 0) == BackStop(tabs, col);
    }
  }

  /**
   CHT goes one stop, whatever its count, and none from outside the scroll region. That is as many as
   were asked for exactly if there is nowhere to go, or if from inside the region one is asked for or the
   first stop is the edge.
   */
  lemma TabCommand(t: Term, start: byte, num: nat, p: Params, stray: byte)
    requires Safe(t) && num <= 16
    ensures var n, inside := Count(p), t.top <= t.row <= t.bottom;
      var r := Execute(t, start, CHT, num, p, stray);
      && r.col == (if inside then Stop(t.tabs, t.col) else t.col)
      && (r.col == NthStop(t.tabs, t.col, n) <==>
            t.col == LAST_COL || (inside && (n == 1 || Stop(t.tabs, t.col) == LAST_COL)))
  {
    StopIsNth(t.tabs, t.col, Count(p));
    LastStopStays(t.tabs, Count(p));
    hide NthStop;
  }

  /** And CBT likewise, the other way. */
  lemma BackTabCommand(t: Term, start: byte, num: nat, p: Params, stray: byte)
    requires Safe(t) && num <= 16
    ensures var n, inside := Count(p), t.top <= t.row <= t.bottom;
      var r := Execute(t, start, CBT, num, p, stray);
      && r.col == (if inside then BackStop(t.tabs, t.col) else t.col)
      && (r.col == NthBackStop(t.tabs, t.col, n) <==>
            t.col == 0 || (inside && (n == 1 || BackStop(t.tabs, t.col) == 0)))
  {
    StopIsNth(t.tabs, t.col, Count(p));
    FirstStopStays(t.tabs, Count(p));
    hide NthBackStop;
  }

  // ---- ED ----

  /** What the standard asks of ED 0: the rest of this row, and all rows below. */
  function ErasedAfter(s: Screen, row: int, col: int, cell: Cell): Screen {
    seq(ROWS, r requires 0 <= r < ROWS =>
      if r < row then s[r] else FillRow(s[r], if r == row then col else 0, LAST_COL, cell))
  }

  /** And of ED 1: all rows above, and this row up to here. */
  function ErasedBefore(s: Screen, row: int, col: int, cell: Cell): Screen {
    seq(ROWS, r requires 0 <= r < ROWS =>
      if r > row then s[r] else FillRow(s[r], 0, if r == row then col else LAST_COL, cell))
  }

  predicate ErasesAfter(t: Term, s: Screen) {
    EraseScreen(Showing(t, s), 0) == Showing(t, ErasedAfter(s, t.row, t.col, Blank(t.pen)))
  }

  predicate ErasesBefore(t: Term, s: Screen) {
    EraseScreen(Showing(t, s), 1) == Showing(t, ErasedBefore(s, t.row, t.col, Blank(t.pen)))
  }

  /**
   ED clears a rectangle between the cursor and a corner of the screen. That is what it should clear on
   every screen exactly if the cursor is in the row or the column that makes it so.
   */
  lemma EraseCommand(t: Term)
    requires Safe(t)
    ensures (forall s :: ErasesAfter(t, s)) <==> t.col == 0 || t.row == LAST_ROW
    ensures (forall s :: ErasesBefore(t, s)) <==> t.col == LAST_COL || t.row == 0
  {
    var s := Striped();
    if t.col > 0 && t.row < LAST_ROW {
      assert EraseScreen(Showing(t, s), 0).screen[t.row + 1][0] == s[t.row + 1][0] != Blank(t.pen);
      assert ErasedAfter(s, t.row, t.col, Blank(t.pen))[t.row + 1][0] == Blank(t.pen);
      assert !ErasesAfter(t, s);
    } else {
      forall s ensures ErasesAfter(t, s) {
        assert EraseScreen(Showing(t, s), 0).screen == ErasedAfter(s, t.row, t.col, Blank(t.pen));
      }
    }
    if t.col < LAST_COL && t.row > 0 {
      assert EraseScreen(Showing(t, s), 1).screen[t.row - 1][LAST_COL] == s[t.row - 1][LAST_COL] != Blank(t.pen);
      assert ErasedBefore(s, t.row, t.col, Blank(t.pen))[t.row - 1][LAST_COL] == Blank(t.pen);
      assert !ErasesBefore(t, s);
    } else {
      forall s ensures ErasesBefore(t, s) {
        assert EraseScreen(Showing(t, s), 1).screen == ErasedBefore(s, t.row, t.col, Blank(t.pen));
      }
    }
  }

  // ---- ESC b and ESC c in VT52 mode ----

  /** The terminal is in VT52 mode, reading the parameter of an escape. */
  predicate Reading52(t: Term) {
    t.modes.vt52 && t.parser.state == ReadParam
  }

  /** After `ESC b` or `ESC c` every byte is taken for a colour. */
  lemma {:induction false} ColourForEver(t: Term, input: seq<Input>)
    requires Safe(t) && Reading52(t) && t.start52 != 89
    ensures FeedAll(t, input) == t.(pen := FeedAll(t, input).pen)
    decreases |input|
  {
    if input != [] {
      var u := Feed(t, input[0].c, input[0].stray);
      assert u == t.(pen := u.pen);
      ColourForEver(u, input[1..]);
    }
  }

  /** `ESC Y` ends after two bytes more at most. */
  lemma PositionEnds(t: Term) returns (input: seq<Input>)
    requires Safe(t) && Reading52(t) && t.start52 == 89
    ensures !Reading52(FeedAll(t, input))
  {
    var bang := Input(33, 0);
    var u := Feed(t, 33, 0);
    FeedSafe(t, 33, 0);
    FeedAllOne(t, bang);
    if Reading52(u) {
      input := [bang] + [bang];
      FeedAllAppend(t, [bang], [bang]);
      FeedAllOne(u, bang);
    } else {
      input := [bang];
    }
  }

  /** Some bytes bring the escape to its end. */
  ghost predicate CanEnd(t: Term)
    requires Safe(t)
  {
    exists input: seq<Input> :: !Reading52(FeedAll(t, input))
  }

  /**
   A VT52 escape that reads a parameter can be brought to an end, by some bytes, exactly if it is the
   one that positions the cursor. The other two never end.
   */
  lemma ParameterEnds(t: Term)
    requires Safe(t) && Reading52(t)
    ensures CanEnd(t) <==> t.start52 == 89
  {
    if t.start52 == 89 {
      var input := PositionEnds(t);
    } else if CanEnd(t) {
      var input: seq<Input> :| !Reading52(FeedAll(t, input));
      ColourForEver(t, input);
    }
  }

  // ---- With the region inverted ----

  /** The commands that move the cursor within the region. */
  predicate IsLimited(f: Final) {
    f in {CUU, CUD, CUF, CUB, CNL, CPL, VPA, CHA, CHT, CBT}
  }

  /** They do nothing at all while the region is inverted; a restored cursor stays put as well. */
  lemma LimitedCommandsFreeze(t: Term, start: byte, f: Final, num: nat, p: Params, stray: byte)
    requires Safe(t) && Inverted(t) && num <= 16
    ensures IsLimited(f) ==> Execute(t, start, f, num, p, stray) == t
    ensures f == RCP ==> var r := Execute(t, start, f, num, p, stray); r.row == t.row && r.col == t.col
  {
  }

  /**
   CUP still moves it: to the row asked for, or to the last row in origin mode. A printed character moves
   it on, and a DECSTBM that mends the region sends it to the region's first row. Anything that wraps, so
   CR, LF and a line that overflows, sends it to the last row, unless it asks for where the cursor is
   already; and it scrolls nothing.
   */
  lemma OthersStillMove(
    t: Term, start: byte, num: nat, p: Params, stray: byte, c: byte, row: int, col: int)
    requires Safe(t) && Inverted(t) && num <= 16
    ensures var r := Execute(t, start, CUP, num, p, stray);
      && r.row == (if t.modes.origin then LAST_ROW else Min(Count(p) - 1, LAST_ROW))
      && r.col == (if num < 2 then 0 else Min(Max(p[1], 1) - 1, LAST_COL))
    ensures !t.eol && t.col < LAST_COL ==> var r := PrintChar(t, c); r.row == t.row && r.col == t.col + 1
    ensures !Inverted(SetRegion(t, num, p)) ==> var r := SetRegion(t, num, p); r.row == r.top && r.col == 0
    ensures var r := MoveWrap(t, row, col);
      && r.screen == t.screen
      && (row != t.row || col != t.col ==> r.row == LAST_ROW && r.col == col % 80)
  {
    RoomNowhere(t, row + col / 80);
    RoomNowhere(t, row);
    RoomNowhere(t, Max(row, t.top) + col / 80);
    RoomNowhere(t, Max(row + col / 80, t.top) + col % 80 / 80);
  }

  lemma RoomNowhere(t: Term, row: int)
    requires Safe(t) && Inverted(t)
    ensures RoomAbove(t.screen, t.top, t.bottom, row, t.pen) == t.screen
    ensures RoomBelow(t.screen, t.top, t.bottom, row, t.pen) == t.screen
  {
    assert Scroll(t.screen, U8(t.top), U8(t.bottom), row - t.top, t.pen.fg, t.pen.bg) == t.screen;
    assert Scroll(t.screen, U8(t.top), U8(t.bottom), row - t.bottom, t.pen.fg, t.pen.bg) == t.screen;
  }
}
