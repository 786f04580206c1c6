/** The terminal engine itself, in place: its statics, its cell buffer and its loops (term/terminal.c). */
module Terminal {
  import opened Words
  import opened Grid
  import opened Framebuf
  import opened Vt
  import opened VtSafety

  // ---- What the loops of `move_cursor_wrap` add up to ----

  lemma ScrollNothing(s: Screen, top: byte, bottom: byte, fg: byte, bg: byte)
    ensures Scroll(s, top, bottom, 0, fg, bg) == s
  {
  }

  lemma ScrollOneMore(s: Screen, top: byte, bottom: byte, n: int, d: int, fg: byte, bg: byte)
    requires (n >= 0 && d == 1) || (n <= 0 && d == -1)
    ensures Scroll(Scroll(s, top, bottom, n, fg, bg), top, bottom, d, fg, bg) ==
      Scroll(s, top, bottom, n + d, fg, bg)
  {
  }

  class Engine {
    const buf: CellBuffer
    const tabs: array<bool>
    const params: array<byte>

    var state: State
    var startChar: byte
    var numParams: nat
    var startChar52: byte
    var row52: byte

    var cursorRow: int
    var cursorCol: int
    var cursorEol: bool
    var scrollStart: int
    var scrollEnd: int

    var modes: Modes
    var pen: Pen
    var g0: Charset
    var g1: Charset
    var useG1: bool
    var saved: Saved

    ghost predicate Shape() {
      buf.Valid() && tabs.Length == 255 && params.Length == 16
    }

    ghost function TabStops(): Tabs
      reads tabs
      requires Shape()
    {
      tabs[..]
    }

    ghost function Parameters(): Params
      reads params
      requires Shape()
    {
      params[..]
    }

    ghost function Value(): Term
      reads this, tabs, params, buf.rows
      requires Shape()
    {
      Term(Parser(state, startChar, numParams, Parameters()), startChar52, row52,
        cursorRow, cursorCol, cursorEol, scrollStart, scrollEnd, modes, pen, g0, g1, useG1, saved,
        TabStops(), buf.Picture())
    }

    ghost predicate Valid()
      reads this, tabs, params, buf.rows
    {
      Shape() && Safe(Value())
    }

    /** Power-on statics, then `framebuf_init` and `terminal_init`. */
    constructor ()
      ensures Valid() && fresh(buf) && fresh(buf.rows) && fresh(tabs) && fresh(params)
      ensures Value() == INIT
    {
      buf := new CellBuffer();
      tabs := new bool[255](_ => false);
      params := new byte[16](_ => 0);
      state, startChar, numParams, startChar52, row52 := Normal, 0, 0, 0, 0;
      cursorRow, cursorCol, cursorEol, scrollStart, scrollEnd := 0, 0, false, 0, 0;
      modes := Modes(true, false, true, false, false, false, false);
      pen, g0, g1, useG1 := Pen(0, 0, 0), US, US, false;
      saved := Saved(0, 0, false, false, Pen(0, 0, 0), US, US);
      new;
      TerminalReset();
      FillBlank(buf.Picture(), 0, LAST_ROW, 7, 0);
      ClearWholeScreen();
      assert Value().screen == INIT.screen;
      assert Value().tabs == INIT.tabs;
      assert Parameters() == INIT.parser.params;
    }

    method TerminalReset()
      requires Shape()
      modifies this, tabs
      ensures Value() == Reset(old(Value()))
    {
      ClearAllTabs();
      saved := saved.(row := 0, col := 0, pen := saved.pen.(attr := 0), g0 := US, g1 := Graphics);
      modes := Modes(true, false, true, false, false, false, modes.inverted);
      pen := DEFAULT_PEN;
      scrollStart, scrollEnd, cursorEol := 0, ROWS - 1, false;
      g0, g1, useG1 := US, Graphics, false;
    }

    /** `memset(tabs, 0, 80)`. */
    method ClearAllTabs()
      requires Shape()
      modifies tabs
      ensures TabStops() == seq(COLS, _ => false) + old(TabStops())[COLS..]
    {
      for k := 0 to COLS
        invariant forall j :: 0 <= j < k ==> !tabs[j]
        invariant forall j :: k <= j < 255 ==> tabs[j] == old(tabs[j])
      {
        tabs[k] := false;
      }
      assert TabStops() == seq(COLS, _ => false) + old(TabStops())[COLS..];
    }

    method ClearWholeScreen()
      requires Shape()
      modifies this, buf.rows
      ensures Value() == ClearScreen(old(Value()))
    {
      buf.FillRegion(0, 0, COLS - 1, ROWS - 1, 32, pen.fg, pen.bg);
      InitialiseCursor(0, 0);
      scrollStart, scrollEnd := 0, ROWS - 1;
      modes := modes.(origin := false);
    }

    // ---- Moving the cursor ----

    /** The loop over columns left of the screen. */
    static method WrapLeft(toRow: int, toCol: int) returns (row: int, col: int)
      ensures row == if toCol < 0 then toRow + toCol / 80 else toRow
      ensures col == if toCol < 0 then toCol % 80 else toCol
    {
      row, col := toRow, toCol;
      while col < 0
        invariant toCol >= 0 ==> row == toRow && col == toCol
        invariant toCol < 0 ==> col < COLS && col + 80 * row == toCol + 80 * toRow
        decreases -col
      {
        col := col + COLS;
        row := row - 1;
      }
    }

    /** The loop over columns right of the screen. */
    static method WrapRight(toRow: int, toCol: int) returns (row: int, col: int)
      requires 0 <= toCol
      ensures row == toRow + toCol / 80 && col == toCol % 80
    {
      row, col := toRow, toCol;
      while col >= COLS
        invariant 0 <= col
        invariant col + 80 * row == toCol + 80 * toRow
      {
        col := col - COLS;
        row := row + 1;
      }
    }

    /** The loop over rows above the scroll region. */
    method ScrollDownTo(toRow: int) returns (row: int)
      requires Shape()
      modifies buf.rows
      ensures row == Max(toRow, scrollStart)
      ensures buf.Picture() == RoomAbove(old(buf.Picture()), scrollStart, scrollEnd, toRow, pen)
    {
      hide Scroll;
      ghost var was, top, bottom := buf.Picture(), U8(scrollStart), U8(scrollEnd);
      row := toRow;
      ScrollNothing(was, top, bottom, pen.fg, pen.bg);
      while row < scrollStart
        invariant toRow <= row <= Max(toRow, scrollStart)
        invariant buf.Picture() == Scroll(was, top, bottom, toRow - row, pen.fg, pen.bg)
      {
        ScrollOneMore(was, top, bottom, toRow - row, -1, pen.fg, pen.bg);
        row := row + 1;
        buf.ScrollRegion(U8(scrollStart), U8(scrollEnd), -1, pen.fg, pen.bg);
      }
    }

    /** The loop over rows below the scroll region. */
    method ScrollUpTo(toRow: int) returns (row: int)
      requires Shape()
      modifies buf.rows
      ensures row == Min(toRow, scrollEnd)
      ensures buf.Picture() == RoomBelow(old(buf.Picture()), scrollStart, scrollEnd, toRow, pen)
    {
      hide Scroll;
      ghost var was, top, bottom := buf.Picture(), U8(scrollStart), U8(scrollEnd);
      row := toRow;
      ScrollNothing(was, top, bottom, pen.fg, pen.bg);
      while row > scrollEnd
        invariant Min(toRow, scrollEnd) <= row <= toRow
        invariant buf.Picture() == Scroll(was, top, bottom, toRow - row, pen.fg, pen.bg)
      {
        ScrollOneMore(was, top, bottom, toRow - row, 1, pen.fg, pen.bg);
        row := row - 1;
        buf.ScrollRegion(U8(scrollStart), U8(scrollEnd), 1, pen.fg, pen.bg);
      }
    }

    method SettleCursor(toRow: int, toCol: int)
      requires Shape() && 0 <= toCol
      modifies `cursorRow, `cursorCol, `cursorEol, buf.rows
      ensures Value() == Settle(old(Value()), toRow, toCol)
    {
      hide Scroll;
      ghost var t := Value();
      var row := ScrollDownTo(toRow);
      ghost var above := RoomAbove(t.screen, t.top, t.bottom, toRow, t.pen);
      assert buf.Picture() == above;
      var col;
      row, col := WrapRight(row, toCol);
      ghost var row2 := row;
      assert row2 == Max(toRow, t.top) + toCol / 80;
      row := ScrollUpTo(row);
      assert buf.Picture() == RoomBelow(above, t.top, t.bottom, row2, t.pen);
      cursorRow, cursorCol, cursorEol := row, col, false;
    }

    method MoveCursorWrap(toRow: int, toCol: int)
      requires Shape()
      modifies `cursorRow, `cursorCol, `cursorEol, buf.rows
      ensures Value() == MoveWrap(old(Value()), toRow, toCol)
    {
      hide Scroll;
      if toRow != cursorRow || toCol != cursorCol {
        var row, col := WrapLeft(toRow, toCol);
        SettleCursor(row, col);
      }
    }

    method MoveCursorWithin(toRow: int, toCol: int, top: int, bottom: int)
      requires Shape()
      modifies `cursorRow, `cursorCol, `cursorEol
      ensures Value() == MoveWithin(old(Value()), toRow, toCol, top, bottom)
    {
      if toRow == cursorRow && toCol == cursorCol {
        return;
      }
      var row, col := toRow, toCol;
      if col < 0 {
        col := 0;
      } else if col >= COLS {
        col := COLS - 1;
      }
      if row < top {
        row := top;
      } else if row > bottom {
        row := bottom;
      }
      cursorRow := row;
      cursorCol := col;
      cursorEol := false;
    }

    method MoveCursorLimited(toRow: int, toCol: int)
      requires Shape()
      modifies `cursorRow, `cursorCol, `cursorEol
      ensures Value() == MoveLimited(old(Value()), toRow, toCol)
    {
      if cursorRow >= scrollStart && cursorRow <= scrollEnd {
        MoveCursorWithin(toRow, toCol, scrollStart, scrollEnd);
      }
    }

    method InitialiseCursor(toRow: int, toCol: int)
      requires Shape()
      modifies `cursorRow, `cursorCol, `cursorEol
      ensures Value() == InitCursor(old(Value()), toRow, toCol)
    {
      cursorRow := -1;
      cursorCol := -1;
      MoveCursorWithin(toRow, toCol, 0, ROWS - 1);
    }

    // ---- Text ----

    method Draw(c: byte)
      requires Shape()
      modifies buf.rows
      ensures Value() == DrawChar(old(Value()), c)
    {
      if modes.insert {
        buf.InsertCells(U8(cursorCol), U8(cursorRow), 1, pen.fg, pen.bg);
      }
      var glyph := c;
      var current := if useG1 then g1 else g0;
      if current == UK && c == 35 {
        glyph := GraphicsChar(125);
      } else if current == Graphics {
        glyph := GraphicsChar(c);
      }
      buf.SetCell(U8(cursorCol), U8(cursorRow), glyph, pen.fg, pen.bg, pen.attr);
    }

    method PrintCharVt(c: byte)
      requires Shape()
      modifies `cursorRow, `cursorCol, `cursorEol, buf.rows
      ensures Value() == PrintChar(old(Value()), c)
    {
      hide Scroll, Settle, DrawChar;
      if cursorEol {
        MoveCursorWrap(cursorRow + 1, 0);
        cursorEol := false;
      }
      Draw(c);
      if modes.autoWrap && cursorCol == COLS - 1 {
        cursorEol := true;
      } else {
        InitialiseCursor(cursorRow, cursorCol + 1);
      }
    }

    method Tabulate()
      requires Shape() && 0 <= cursorCol
      modifies `cursorRow, `cursorCol, `cursorEol
      ensures Value() == ProcessText(old(Value()), TAB)
    {
      var col := cursorCol + 1;
      while col < COLS - 1 && !tabs[col]
        invariant cursorCol < col
        invariant NextTab(TabStops(), col) == NextTab(TabStops(), cursorCol + 1)
      {
        col := col + 1;
      }
      MoveCursorLimited(cursorRow, col);
    }

    method BackUp()
      requires Shape()
      modifies `cursorRow, `cursorCol, `cursorEol, buf.rows
      ensures Value() == ProcessText(old(Value()), BS)
    {
      hide Scroll, Settle;
      var topLimit := if modes.origin then scrollStart else 0;
      if cursorRow > topLimit {
        MoveCursorWrap(cursorRow, cursorCol - 1);
      } else {
        MoveCursorLimited(cursorRow, cursorCol - 1);
      }
    }

    method LineFeed()
      requires Shape()
      modifies `cursorRow, `cursorCol, `cursorEol, buf.rows
      ensures Value() == ProcessText(old(Value()), LF)
      ensures Value() == ProcessText(old(Value()), VT)
      ensures Value() == ProcessText(old(Value()), FF)
    {
      hide Scroll;
      MoveCursorWrap(cursorRow + 1, cursorCol);
    }

    method ProcessTextByte(c: byte)
      requires Shape() && 0 <= cursorCol
      modifies `cursorRow, `cursorCol, `cursorEol, `useG1, buf.rows
      ensures Value() == ProcessText(old(Value()), c)
    {
      hide Scroll, Settle;
      match c {
        case 8 => BackUp();
        case 9 => Tabulate();
        case 10 => LineFeed();
        case 11 => LineFeed();
        case 12 => LineFeed();
        case 13 => MoveCursorWrap(cursorRow, 0);
        case 14 => useG1 := true;
        case 15 => useG1 := false;
        case 127 =>
        case _ =>
          if c >= 32 {
            PrintCharVt(c);
          }
      }
    }

    // ---- Commands ----

    method SetScreenInverted(on: bool)
      requires Shape()
      modifies `modes, buf.rows
      ensures Value() == Invert(old(Value()), on)
    {
      hide FlipAll;
      if on != modes.inverted {
        modes := modes.(inverted := on);
        buf.FlipScreen();
      }
    }

    method SetPrivateMode(p: byte, on: bool)
      requires Shape()
      modifies this, tabs, buf.rows
      ensures Value() == PrivateMode(old(Value()), p, on)
    {
      hide Fill, FlipAll;
      match p {
        case 1 => modes := modes.(cursorKeys := on);
        case 2 =>
          if !on {
            TerminalReset();
            modes := modes.(vt52 := true);
          }
        case 3 => ClearWholeScreen();
        case 5 => SetScreenInverted(on);
        case 6 =>
          modes := modes.(origin := on);
          MoveCursorLimited(scrollStart, 0);
        case 7 => modes := modes.(autoWrap := on);
        case 25 => modes := modes.(shown := on);
        case _ =>
      }
    }

    method FillCells(cs: int, rs: int, ce: int, re: int)
      requires Shape()
      modifies buf.rows
      ensures Value() == FillPart(old(Value()), cs, rs, ce, re)
    {
      hide Fill;
      buf.FillRegion(U8(cs), U8(rs), U8(ce), U8(re), 32, pen.fg, pen.bg);
    }

    method EraseInDisplay(p: byte)
      requires Shape()
      modifies buf.rows
      ensures Value() == EraseScreen(old(Value()), p)
    {
      hide Fill;
      match p {
        case 0 => FillCells(cursorCol, cursorRow, COLS - 1, ROWS - 1);
        case 1 => FillCells(0, 0, cursorCol, cursorRow);
        case 2 => FillCells(0, 0, COLS - 1, ROWS - 1);
        case _ =>
      }
    }

    method EraseInLine(p: byte)
      requires Shape()
      modifies buf.rows
      ensures Value() == EraseLine(old(Value()), p)
    {
      hide Fill;
      match p {
        case 0 => FillCells(cursorCol, cursorRow, COLS - 1, cursorRow);
        case 1 => FillCells(0, cursorRow, cursorCol, cursorRow);
        case 2 => FillCells(0, cursorRow, COLS - 1, cursorRow);
        case _ =>
      }
    }

    method ScrollCells(top: int, bottom: int, n: int)
      requires Shape()
      modifies buf.rows
      ensures Value() == ScrollPart(old(Value()), top, bottom, n)
    {
      hide Scroll;
      buf.ScrollRegion(U8(top), U8(bottom), I8(n), pen.fg, pen.bg);
    }

    method ScrollByLoop(count: nat, sign: int)
      requires Shape()
      modifies buf.rows
      ensures var t := old(Value());
        Value() == ScrollRepeatedly(t, TopLimit(t), BottomLimit(t), count, sign)
    {
      hide ScrollPart;
      var topLimit := if modes.origin then scrollStart else 0;
      var bottomLimit := if modes.origin then scrollEnd else ROWS - 1;
      var n := count;
      while n != 0
        invariant 0 <= n <= count
        invariant ScrollRepeatedly(Value(), topLimit, bottomLimit, n, sign) ==
          ScrollRepeatedly(old(Value()), topLimit, bottomLimit, count, sign)
        decreases n
      {
        n := n - 1;
        ScrollCells(topLimit, bottomLimit, sign * n);
      }
    }

    method TabForward(count: nat)
      requires Shape() && 0 <= cursorCol && 1 <= count
      modifies `cursorRow, `cursorCol, `cursorEol
      ensures var t := old(Value()); Value() == MoveLimited(t, t.row, NextTab(t.tabs, t.col + 1))
    {
      var n, col := count, cursorCol + 1;
      while n > 0 && col < COLS - 1
        invariant 0 <= n <= count && cursorCol < col
        invariant NextTab(TabStops(), col) == NextTab(TabStops(), cursorCol + 1)
        invariant n < count ==> col == NextTab(TabStops(), col)
      {
        while col < COLS - 1 && !tabs[col]
          invariant cursorCol < col
          invariant NextTab(TabStops(), col) == NextTab(TabStops(), cursorCol + 1)
        {
          col := col + 1;
        }
        n := n - 1;
      }
      MoveCursorLimited(cursorRow, col);
    }

    method TabBack(count: nat)
      requires Shape() && 0 <= cursorCol < COLS && 1 <= count
      modifies `cursorRow, `cursorCol, `cursorEol
      ensures var t := old(Value()); Value() == MoveLimited(t, t.row, PrevTab(t.tabs, t.col - 1))
    {
      var n, col := count, cursorCol - 1;
      while n > 0 && col > 0
        invariant 0 <= n <= count && col < cursorCol
        invariant PrevTab(TabStops(), col) == PrevTab(TabStops(), cursorCol - 1)
        invariant n < count ==> col == PrevTab(TabStops(), col)
      {
        while col > 0 && !tabs[col]
          invariant col < cursorCol
          invariant PrevTab(TabStops(), col) == PrevTab(TabStops(), cursorCol - 1)
        {
          col := col - 1;
        }
        n := n - 1;
      }
      MoveCursorLimited(cursorRow, col);
    }

    method ClearTabs(p: byte)
      requires Shape() && 0 <= cursorCol < COLS
      modifies tabs
      ensures Value() == ClearTab(old(Value()), p)
    {
      if p == 0 {
        tabs[cursorCol] := false;
        assert TabStops() == old(TabStops())[cursorCol := false];
      } else if p == 3 {
        ClearAllTabs();
      }
    }

    method SelectGraphics(num: nat, stray: byte)
      requires Shape() && num <= 16
      modifies `pen
      ensures var t := old(Value());
        Value() == t.(pen := GraphicRendition(t.pen, t.parser.params, num, 0, stray))
    {
      var i := 0;
      while i < num
        invariant GraphicRendition(pen, Parameters(), num, i, stray) ==
          GraphicRendition(old(pen), Parameters(), num, 0, stray)
        decreases num - i
      {
        var p := params[i];
        if p == 38 && num >= i + 2 && params[i + 1] == 5 {
          pen := pen.(fg := (if i + 2 < 16 then params[i + 2] else stray) % 16);
          i := i + 2;
        } else if p == 48 && num >= i + 2 && params[i + 1] == 5 {
          pen := pen.(bg := (if i + 2 < 16 then params[i + 2] else stray) % 16);
          i := i + 2;
        } else {
          pen := Attribute(pen, p);
        }
        i := i + 1;
      }
    }

    method SetScrollRegion(num: nat)
      requires Shape()
      modifies `scrollStart, `scrollEnd, `cursorRow, `cursorCol, `cursorEol
      ensures Value() == SetRegion(old(Value()), num, old(Parameters()))
    {
      if num == 2 && params[1] > params[0] {
        scrollStart := Max(params[0], 1) - 1;
        scrollEnd := Min(params[1], ROWS) - 1;
      } else if params[0] == 0 {
        scrollStart := 0;
        scrollEnd := ROWS - 1;
      }
      MoveCursorWithin(scrollStart, 0, scrollStart, scrollEnd);
    }

    method SaveCursor()
      requires Shape()
      modifies `saved
      ensures Value() == Save(old(Value()))
    {
      saved := Saved(cursorRow, cursorCol, cursorEol, modes.origin, pen, g0, g1);
    }

    method RestoreCursor()
      requires Shape()
      modifies this
      ensures Value() == Restore(old(Value()))
    {
      MoveCursorLimited(saved.row, saved.col);
      modes := modes.(origin := saved.origin);
      cursorEol := saved.eol;
      pen := saved.pen;
      g0 := saved.g0;
      g1 := saved.g1;
    }

    method RelativeCommand(f: Final, num: nat, ghost stray: byte)
      requires Shape() && num <= 16 && 0 <= cursorCol < COLS
      requires f in {CUU, CUD, CUF, CUB, CNL, CPL, VPA, CHA}
      modifies `cursorRow, `cursorCol, `cursorEol
      ensures Value() == Execute(old(Value()), old(startChar), f, num, Parameters(), stray)
    {
      hide MoveLimited;
      var n := Max(1, params[0]);
      match f {
        case CUU => MoveCursorLimited(cursorRow - n, cursorCol);
        case CUD => MoveCursorLimited(cursorRow + n, cursorCol);
        case CUF => MoveCursorLimited(cursorRow, cursorCol + n);
        case CUB => MoveCursorLimited(cursorRow, cursorCol - n);
        case CNL => MoveCursorLimited(cursorRow + n, 0);
        case CPL => MoveCursorLimited(cursorRow - n, 0);
        case VPA => MoveCursorLimited(n - 1, cursorCol);
        case CHA => MoveCursorLimited(cursorRow, n - 1);
      }
    }

    method CursorCommand(f: Final, num: nat, ghost stray: byte)
      requires Shape() && num <= 16 && 0 <= cursorCol < COLS
      requires f in {CUU, CUD, CUF, CUB, CNL, CPL, VPA, CHA, CUP, CHT, CBT}
      modifies `cursorRow, `cursorCol, `cursorEol
      ensures Value() == Execute(old(Value()), old(startChar), f, num, Parameters(), stray)
    {
      hide MoveLimited, MoveWithin;
      var n := Max(1, params[0]);
      if f == CUP {
        var topLimit := if modes.origin then scrollStart else 0;
        var bottomLimit := if modes.origin then scrollEnd else ROWS - 1;
        MoveCursorWithin(topLimit + n - 1, if num < 2 then 0 else Max(params[1], 1) - 1, topLimit, bottomLimit);
      } else if f == CHT {
        TabForward(n);
      } else if f == CBT {
        TabBack(n);
      } else {
        hide Execute;
        RelativeCommand(f, num, stray);
      }
    }

    method EraseCommand(f: Final, num: nat, ghost stray: byte)
      requires Shape() && num <= 16
      requires f in {ED, EL, IL, DL, ICH, DCH, SU, SD}
      modifies buf.rows
      ensures Value() == Execute(old(Value()), startChar, f, num, Parameters(), stray)
    {
      hide EraseScreen, EraseLine, ScrollPart, ScrollRepeatedly, Insert, Delete;
      var n := Max(1, params[0]);
      var bottomLimit := if modes.origin then scrollEnd else ROWS - 1;
      match f {
        case ED => EraseInDisplay(params[0]);
        case EL => EraseInLine(params[0]);
        case IL => ScrollCells(cursorRow, bottomLimit, -n);
        case DL => ScrollCells(cursorRow, bottomLimit, n);
        case ICH => buf.InsertCells(U8(cursorCol), U8(cursorRow), U8(n), pen.fg, pen.bg);
        case DCH => buf.DeleteCells(U8(cursorCol), U8(cursorRow), U8(n), pen.fg, pen.bg);
        case SU => ScrollByLoop(n, 1);
        case SD => ScrollByLoop(n, -1);
      }
    }

    method EditCommand(f: Final, num: nat, stray: byte)
      requires Shape() && num <= 16 && 0 <= cursorCol < COLS
      requires f in {ED, EL, IL, DL, ICH, DCH, SU, SD, TBC, SGR}
      modifies this, tabs, buf.rows
      ensures Value() == Execute(old(Value()), old(startChar), f, num, old(Parameters()), stray)
    {
      hide ClearTab, GraphicRendition;
      if f == TBC {
        ClearTabs(params[0]);
      } else if f == SGR {
        SelectGraphics(num, stray);
      } else {
        hide Execute;
        EraseCommand(f, num, stray);
      }
    }

    method ModeCommand(on: bool, ghost num: nat, ghost stray: byte)
      requires Shape() && num <= 16
      modifies this, tabs, buf.rows
      ensures Value() ==
        Execute(old(Value()), old(startChar), if on then SetMode else ResetMode, num, old(Parameters()), stray)
    {
      hide PrivateMode;
      if startChar == QUESTION {
        SetPrivateMode(params[0], on);
      } else if startChar == 0 && params[0] == 4 {
        modes := modes.(insert := on);
      }
    }

    method SettingCommand(f: Final, num: nat, ghost stray: byte)
      requires Shape() && num <= 16
      requires f in {SetMode, ResetMode, DECSTBM, SCP, RCP, Other}
      modifies this, tabs, buf.rows
      ensures Value() == Execute(old(Value()), old(startChar), f, num, old(Parameters()), stray)
    {
      hide PrivateMode, SetRegion, Save, Restore;
      match f {
        case SetMode => ModeCommand(true, num, stray);
        case ResetMode => ModeCommand(false, num, stray);
        case DECSTBM => SetScrollRegion(num);
        case SCP => SaveCursor();
        case RCP => RestoreCursor();
        case Other =>
      }
    }

    /** `terminal_process_command`, on the parameters it was sent. */
    method ProcessCommand(f: Final, num: nat, stray: byte)
      requires Shape() && num <= 16 && 0 <= cursorCol < COLS
      modifies this, tabs, buf.rows
      ensures Value() == Execute(old(Value()), old(startChar), f, num, old(Parameters()), stray)
    {
      hide Execute;
      if f in {ED, EL, IL, DL, ICH, DCH, SU, SD, TBC, SGR} {
        EditCommand(f, num, stray);
      } else if f in {SetMode, ResetMode, DECSTBM, SCP, RCP, Other} {
        SettingCommand(f, num, stray);
      } else {
        CursorCommand(f, num, stray);
      }
    }

    method ProcessEscape(c: byte, stray: byte)
      requires Shape() && 0 <= cursorCol < COLS
      modifies this, tabs, buf.rows
      ensures Value() == ExecuteEscape(old(Value()), c, stray)
    {
      hide PrintChar, Reset, Save, Restore, EraseScreen, EraseLine, MoveWrap;
      match c {
        case 27 => PrintCharVt(ESC);
        case 99 => TerminalReset();
        case 55 => SaveCursor();
        case 56 => RestoreCursor();
        case 72 =>
          tabs[cursorCol] := true;
          assert TabStops() == old(TabStops())[cursorCol := true];
        case 74 => EraseInDisplay(stray);
        case 75 => EraseInLine(stray);
        case 68 => MoveCursorWrap(cursorRow + 1, cursorCol);
        case 69 => MoveCursorWrap(cursorRow + 1, 0);
        case 73 => MoveCursorWrap(cursorRow - 1, 0);
        case 77 => MoveCursorWrap(cursorRow - 1, cursorCol);
        case _ =>
      }
    }

    // ---- Bytes from the link ----

    /** Neither a digit nor a separator nor an opening mark: the command is complete. */
    method FinishCommand(c: byte, stray: byte)
      requires Valid() && !modes.vt52 && (state == StartChar || state == ReadParam)
      requires !IsInner(c) && c != VT && !IsDigit(c) && c != SEMICOLON
      requires !(state == StartChar && (c == QUESTION || c == 35))
      modifies this, tabs, buf.rows
      ensures Value() == Feed102(old(Value()), c, stray)
    {
      hide Execute;
      ghost var t := Value();
      ghost var done := t.parser.(state := Normal);
      ghost var args := t.parser.params[..numParams];
      assert Parse(t.parser, c) == (done, Command(startChar, c, args, t.parser.params));
      assert Feed102(t, c, stray) ==
        Execute(t.(parser := done), startChar, FinalOf(c), numParams, t.parser.params, stray);
      state := Normal;
      ProcessCommand(FinalOf(c), numParams, stray);
    }

    /** A byte between the bracket and the end of the command. */
    method ReadParameter(c: byte, stray: byte)
      requires Valid() && !modes.vt52 && (state == StartChar || state == ReadParam)
      requires !IsInner(c) && c != VT
      modifies this, tabs, params, buf.rows
      ensures Value() == Feed102(old(Value()), c, stray)
    {
      hide Execute;
      ghost var was := Parameters();
      if IsDigit(c) {
        params[numParams - 1] := U8(params[numParams - 1] * 10 + (c - 48));
        assert Parameters() == was[numParams - 1 := U8(was[numParams - 1] * 10 + (c - 48))];
        state := ReadParam;
      } else if c == SEMICOLON {
        numParams := numParams + 1;
        if numParams > 16 {
          state := Normal;
        } else {
          params[numParams - 1] := 0;
          assert Parameters() == was[numParams - 1 := 0];
          state := ReadParam;
        }
      } else if state == StartChar && (c == QUESTION || c == 35) {
        startChar := c;
        state := ReadParam;
      } else {
        FinishCommand(c, stray);
      }
    }

    method ReadEscape(c: byte, stray: byte)
      requires Valid() && !modes.vt52 && state == WaitBracket && !IsInner(c) && c != VT
      modifies this, tabs, params, buf.rows
      ensures Value() == Feed102(old(Value()), c, stray)
    {
      hide ExecuteEscape;
      state := Normal;
      match c {
        case 91 =>
          startChar := 0;
          numParams := 1;
          params[0] := 0;
          assert Parameters() == old(Parameters())[0 := 0];
          state := StartChar;
        case 35 => state := Hash;
        case 40 => startChar := c; state := ReadChar;
        case 41 => startChar := c; state := ReadChar;
        case 42 => startChar := c; state := ReadChar;
        case 43 => startChar := c; state := ReadChar;
        case _ => ProcessEscape(c, stray);
      }
    }

    method ReceiveVt102(c: byte, stray: byte)
      requires Valid() && !modes.vt52
      modifies this, tabs, params, buf.rows
      ensures Value() == Feed102(old(Value()), c, stray)
    {
      hide ProcessText, Execute, ExecuteEscape, Fill;
      if state != Normal && IsInner(c) {
        ProcessTextByte(c);
        return;
      }
      if state != Normal && c == VT {
        state := ReadChar;
        return;
      }
      match state {
        case Normal =>
          if c == ESC {
            state := WaitBracket;
          } else {
            ProcessTextByte(c);
          }
        case WaitBracket => ReadEscape(c, stray);
        case StartChar => ReadParameter(c, stray);
        case ReadParam => ReadParameter(c, stray);
        case Hash =>
          if c == 56 {
            var topLimit := if modes.origin then scrollStart else 0;
            var bottomLimit := if modes.origin then scrollEnd else ROWS - 1;
            buf.FillRegion(0, U8(topLimit), COLS - 1, U8(bottomLimit), 69, pen.fg, pen.bg);
          }
          state := Normal;
        case ReadChar =>
          if startChar == 40 {
            g0 := CharsetOf(c);
          } else if startChar == 41 {
            g1 := CharsetOf(c);
          }
          state := Normal;
      }
    }

    method ProcessEscape52(c: byte)
      requires Shape()
      modifies this, tabs, buf.rows
      ensures Value() == Escape52(old(Value()), c)
    {
      hide MoveLimited, MoveWithin, MoveWrap, ScrollPart, Fill, Reset, Invert;
      match c {
        case 65 => MoveCursorLimited(cursorRow - 1, cursorCol);
        case 66 => MoveCursorLimited(cursorRow + 1, cursorCol);
        case 67 => MoveCursorLimited(cursorRow, cursorCol + 1);
        case 68 => MoveCursorLimited(cursorRow, cursorCol - 1);
        case 69 =>
          FillCells(0, 0, COLS - 1, ROWS - 1);
          MoveCursorLimited(0, 0);
        case 72 => MoveCursorLimited(0, 0);
        case 73 => MoveCursorWrap(cursorRow - 1, cursorCol);
        case 74 => FillCells(cursorCol, cursorRow, COLS - 1, ROWS - 1);
        case 75 => FillCells(cursorCol, cursorRow, COLS - 1, cursorRow);
        case 76 => ScrollCells(cursorRow, ROWS - 1, -1);
        case 77 => ScrollCells(cursorRow, ROWS - 1, 1);
        case 89 =>
          startChar52, row52 := c, 0;
          state := ReadParam;
        case 98 =>
          startChar52 := c;
          state := ReadParam;
        case 99 =>
          startChar52 := c;
          state := ReadParam;
        case 100 =>
          FillCells(0, 0, cursorCol, cursorRow);
          InitialiseCursor(cursorCol, cursorRow);
        case 106 => saved := saved.(row := cursorRow, col := cursorCol);
        case 107 => MoveCursorLimited(saved.row, saved.col);
        case 108 =>
          FillCells(0, cursorRow, COLS - 1, cursorRow);
          InitialiseCursor(0, cursorRow);
        case 111 => FillCells(0, cursorRow, cursorCol, cursorRow);
        case 112 => SetScreenInverted(true);
        case 113 => SetScreenInverted(false);
        case 118 => modes := modes.(autoWrap := true);
        case 119 => modes := modes.(autoWrap := false);
        case 60 => TerminalReset();
        case _ =>
      }
    }

    method ReadParameter52(c: byte)
      requires Shape()
      modifies this
      ensures Value() == Param52(old(Value()), c)
    {
      hide MoveLimited;
      if startChar52 == 89 {
        if row52 == 0 {
          row52 := c;
        } else {
          if row52 >= 32 && c >= 32 {
            MoveCursorLimited(row52 - 32, c - 32);
          }
          state := Normal;
        }
      } else if startChar52 == 98 && c >= 32 {
        pen := pen.(fg := (c - 32) % 16);
      } else if startChar52 == 99 && c >= 32 {
        pen := pen.(bg := (c - 32) % 16);
      }
    }

    method ReceiveVt52(c: byte)
      requires Valid() && modes.vt52
      modifies this, tabs, buf.rows
      ensures Value() == Feed52(old(Value()), c)
    {
      hide ProcessText, Escape52, Param52;
      match state {
        case Normal =>
          if c == ESC {
            state := StartChar;
          } else {
            ProcessTextByte(c);
          }
        case StartChar =>
          state := Normal;
          ProcessEscape52(c);
        case ReadParam => ReadParameter52(c);
      }
    }

    /** `terminal_receive_char`: whatever the byte, the engine does what `Feed` says and stays valid. */
    method ReceiveChar(c: byte, stray: byte)
      requires Valid()
      modifies this, tabs, params, buf.rows
      ensures Valid()
      ensures Value() == Feed(old(Value()), c, stray)
    {
      hide Feed52, Feed102;
      FeedSafe(Value(), c, stray);
      if modes.vt52 {
        ReceiveVt52(c);
      } else {
        ReceiveVt102(c, stray);
      }
    }

    /** The loop over a console chunk in the master's service loop. */
    method ReceiveAll(input: seq<Input>)
      requires Valid()
      modifies this, tabs, params, buf.rows
      ensures Valid()
      ensures Value() == FeedAll(old(Value()), input)
    {
      hide Feed;
      ghost var was := Value();
      for i := 0 to |input|
        invariant Valid()
        invariant Value() == FeedAll(was, input[..i])
      {
        ReceiveChar(input[i].c, input[i].stray);
        assert input[..i + 1] == input[..i] + [input[i]];
        FeedAllAppend(was, input[..i], [input[i]]);
        FeedAllOne(FeedAll(was, input[..i]), input[i]);
      }
      assert input[..|input|] == input;
    }
  }
}
