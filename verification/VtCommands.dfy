/**
 What the terminal's commands do, from the bytes that ask for them to the cursor, the cells and the
 settings they change, and what they leave alone (term/terminal.c).
 */
module VtCommands {
  import opened Words
  import opened Grid
  import opened Vt
  import opened VtSafety
  import opened VtLaws
  import opened ControlSequences

  /** The bytes are the control sequence `ESC [ args final`, and the terminal is ready for it. */
  predicate IsSent(t: Term, question: bool, args: seq<byte>, terse: bool, final: byte, input: seq<Input>) {
    && Safe(t) && !t.modes.vt52 && t.parser.state == Normal
    && 1 <= |args| <= 16 && 0x40 <= final <= 0x7E
    && Bytes(input) == Sequence(question, args, terse, final)
  }

  /** An argument, where none or zero is one. */
  function AtLeastOne(arg: byte): byte {
    if arg == 0 then 1 else arg
  }

  /** `v` is `wanted`, or the nearer end of `lo..hi` if that lies outside. */
  predicate IsNearest(v: int, wanted: int, lo: int, hi: int) {
    && lo <= v <= hi
    && (v == wanted || (v == lo && wanted < lo) || (v == hi && wanted > hi))
  }

  /** Nothing but the cursor is another, and its pending wrap is off if it was asked to move. */
  predicate OnlyMoved(t: Term, r: Term, asked: bool) {
    && r == t.(parser := r.parser, row := r.row, col := r.col, eol := r.eol)
    && r.eol == (t.eol && !asked)
  }

  /**
   The cursor goes to a place, or as near to it as the region's rows and the screen's columns allow, if it
   starts from inside the region.
   */
  predicate Limited(t: Term, r: Term, row2: int, col2: int) {
    if t.top <= t.row <= t.bottom then
      && IsNearest(r.row, row2, t.top, t.bottom) && IsNearest(r.col, col2, 0, 79)
      && OnlyMoved(t, r, row2 != t.row || col2 != t.col)
    else NothingDone(t, r)
  }

  /** The parser alone is another. */
  predicate NothingDone(t: Term, r: Term) {
    r == t.(parser := r.parser)
  }

  // ---- The cursor ----

  /** Where a cursor command asks the cursor to go. */
  predicate Asks(final: byte, row: int, col: int, n: byte, row2: int, col2: int) {
    match final
    case 65 /* A */ => row2 == row - n && col2 == col
    case 66 /* B */ => row2 == row + n && col2 == col
    case 67 /* C */ => row2 == row && col2 == col + n
    case 97 /* a */ => row2 == row && col2 == col + n
    case 68 /* D */ => row2 == row && col2 == col - n
    case 106 /* j */ => row2 == row && col2 == col - n
    case 69 /* E */ => row2 == row + n && col2 == 0
    case 101 /* e */ => row2 == row + n && col2 == 0
    case 70 /* F */ => row2 == row - n && col2 == 0
    case 107 /* k */ => row2 == row - n && col2 == 0
    case 100 /* d */ => row2 == n - 1 && col2 == col
    case 71 /* G */ => row2 == row && col2 == n - 1
    case 96 /* ` */ => row2 == row && col2 == n - 1
    case _ => false
  }

  /** Asks for exactly one of these are limited moves. */
  lemma CursorCommand(u: Term, start: byte, final: byte, num: nat, p: Params, stray: byte, row2: int, col2: int)
    requires num <= 16 && Asks(final, u.row, u.col, AtLeastOne(p[0]), row2, col2)
    ensures Execute(u, start, FinalOf(final), num, p, stray) == MoveLimited(u, row2, col2)
  {
    hide MoveLimited;
  }

  lemma LimitedMove(t: Term, row2: int, col2: int)
    requires Safe(t)
    ensures Limited(t, MoveLimited(t, row2, col2), row2, col2)
  {
  }

  /** The command of a sequence is carried out, with its arguments. */
  lemma Carried(t: Term, question: bool, args: seq<byte>, terse: bool, final: byte, f: Final, input: seq<Input>)
    returns (u: Term, start: byte, p: Params, stray: byte)
    requires IsSent(t, question, args, terse, final, input) && f == FinalOf(final)
    ensures u == t.(parser := u.parser) && Safe(u) && u.parser.state == Normal
    ensures p[0] == args[0] && (|args| >= 2 ==> p[1] == args[1]) && p[..|args|] == args
    ensures start == (if question then QUESTION else 0)
    ensures FeedAll(t, input) == Execute(u, start, f, |args|, p, stray)
  {
    SequenceRunsOnce(t, question, args, terse, final, input);
    var q := ParseAll(t.parser, Bytes(input)).0;
    u, p := t.(parser := q), q.params;
    start, stray := if question then QUESTION else 0, input[|input| - 1].stray;
    assert p[0] == p[..|args|][0];
    assert |args| >= 2 ==> p[1] == p[..|args|][1];
  }

  /**
   Each cursor command is the limited move it asks for.
   */
  lemma CursorSequence(
    t: Term, question: bool, args: seq<byte>, terse: bool, final: byte, input: seq<Input>, row2: int, col2: int)
    requires IsSent(t, question, args, terse, final, input)
    requires Asks(final, t.row, t.col, AtLeastOne(args[0]), row2, col2)
    ensures Limited(t, FeedAll(t, input), row2, col2)
  {
    var u, start, p, stray := Carried(t, question, args, terse, final, FinalOf(final), input);
    hide FeedAll, Sequence, Execute, Safe, MoveLimited;
    CursorCommand(u, start, final, |args|, p, stray, row2, col2);
    LimitedMove(u, row2, col2);
  }

  /**
   CUP goes to a row and column counted from 1, within the screen or, in origin mode, within the region;
   if the cursor is there already, it stays as it is.
   */
  predicate GoesTo(t: Term, r: Term, row1: byte, col1: byte) {
    var lo, hi := if t.modes.origin then t.top else 0, if t.modes.origin then t.bottom else 24;
    var row2, col2 := lo + row1 - 1, col1 - 1;
    if row2 == t.row && col2 == t.col then NothingDone(t, r)
    else OnlyMoved(t, r, true) && IsNearest(r.col, col2, 0, 79) && (lo <= hi ==> IsNearest(r.row, row2, lo, hi))
  }

  lemma PositionCommand(u: Term, start: byte, num: nat, p: Params, stray: byte)
    requires num <= 16 && Safe(u)
    ensures GoesTo(u, Execute(u, start, CUP, num, p, stray), AtLeastOne(p[0]), if num < 2 then 1 else AtLeastOne(p[1]))
  {
  }

  lemma PositionSequence(t: Term, question: bool, args: seq<byte>, terse: bool, final: byte, input: seq<Input>)
    requires IsSent(t, question, args, terse, final, input) && final in {72 /* H */, 102 /* f */}
    ensures GoesTo(t, FeedAll(t, input), AtLeastOne(args[0]), if |args| < 2 then 1 else AtLeastOne(args[1]))
  {
    var u, start, p, stray := Carried(t, question, args, terse, final, CUP, input);
    hide FeedAll, FinalOf, Sequence, Execute, Safe, IsSent, Bytes;
    PositionCommand(u, start, |args|, p, stray);
  }

  // ---- Erasing and shifting ----

  /** A blank in the colours of the pen. */
  function BlankOf(t: Term): Cell {
    Cell(32, t.pen.fg, t.pen.bg, 0)
  }

  /** Nothing but cells is another. */
  predicate OnlyDrawn(t: Term, r: Term) {
    r == t.(parser := r.parser, screen := r.screen)
  }

  /** EL: from the cursor on, up to the cursor, or the whole row. */
  predicate InLinePart(arg: byte, y: int, x: int, row: int, col: int) {
    y == row && ((arg == 0 && x >= col) || (arg == 1 && x <= col) || arg == 2)
  }

  /** ED: the rectangle from the cursor on, or up to it, or the whole screen. */
  predicate InScreenPart(arg: byte, y: int, x: int, row: int, col: int) {
    (arg == 0 && y >= row && x >= col) || (arg == 1 && y <= row && x <= col) || arg == 2
  }

  ghost predicate ErasesLine(t: Term, r: Term, arg: byte) {
    OnlyDrawn(t, r) && forall y, x :: 0 <= y < ROWS && 0 <= x < COLS ==>
      r.screen[y][x] == if InLinePart(arg, y, x, t.row, t.col) then BlankOf(t) else t.screen[y][x]
  }

  ghost predicate ErasesScreen(t: Term, r: Term, arg: byte) {
    OnlyDrawn(t, r) && forall y, x :: 0 <= y < ROWS && 0 <= x < COLS ==>
      r.screen[y][x] == if InScreenPart(arg, y, x, t.row, t.col) then BlankOf(t) else t.screen[y][x]
  }

  lemma ErasingLine(u: Term, arg: byte)
    requires Safe(u)
    ensures ErasesLine(u, EraseLine(u, arg), arg)
  {
  }

  lemma ErasingScreen(u: Term, arg: byte)
    requires Safe(u)
    ensures ErasesScreen(u, EraseScreen(u, arg), arg)
  {
  }

  /** EL and ED blank those cells and no others. */
  lemma EraseSequence(t: Term, question: bool, args: seq<byte>, terse: bool, final: byte, input: seq<Input>)
    requires IsSent(t, question, args, terse, final, input)
    ensures final == 75 /* K */ ==> ErasesLine(t, FeedAll(t, input), args[0])
    ensures final == 74 /* J */ ==> ErasesScreen(t, FeedAll(t, input), args[0])
  {
    var u, start, p, stray := Carried(t, question, args, terse, final, FinalOf(final), input);
    hide FeedAll, Sequence, EraseLine, EraseScreen, Safe;
    ErasingLine(u, p[0]);
    ErasingScreen(u, p[0]);
  }

  /** The cell at `y` and `x` after `n` blanks have gone in at the cursor. */
  function AfterInsert(t: Term, n: nat, y: nat, x: nat): Cell
    requires y < ROWS && x < COLS && 0 <= t.col
  {
    if y != t.row || x < t.col then t.screen[y][x] else if x < t.col + n then BlankOf(t) else t.screen[y][x - n]
  }

  /** And after `n` cells at the cursor have gone. */
  function AfterDelete(t: Term, n: nat, y: nat, x: nat): Cell
    requires y < ROWS && x < COLS
  {
    if y != t.row || x < t.col then t.screen[y][x] else if x + n >= COLS then BlankOf(t) else t.screen[y][x + n]
  }

  ghost predicate InsertsBlanks(t: Term, r: Term, n: nat)
    requires 0 <= t.col
  {
    OnlyDrawn(t, r) && forall y: nat, x: nat :: y < ROWS && x < COLS ==> r.screen[y][x] == AfterInsert(t, n, y, x)
  }

  ghost predicate DeletesCells(t: Term, r: Term, n: nat) {
    OnlyDrawn(t, r) && forall y: nat, x: nat :: y < ROWS && x < COLS ==> r.screen[y][x] == AfterDelete(t, n, y, x)
  }

  lemma InsertingBlanks(u: Term, start: byte, num: nat, p: Params, stray: byte)
    requires Safe(u) && num <= 16
    ensures InsertsBlanks(u, Execute(u, start, ICH, num, p, stray), AtLeastOne(p[0]))
  {
    var n, r := AtLeastOne(p[0]), Execute(u, start, ICH, num, p, stray);
    assert r.screen == Insert(u.screen, u.col, u.row, n, u.pen.fg, u.pen.bg);
    assert r.screen[u.row] == InsertRow(u.screen[u.row], u.col, Min(n, COLS - u.col), u.pen.fg, u.pen.bg);
  }

  lemma DeletingCells(u: Term, start: byte, num: nat, p: Params, stray: byte)
    requires Safe(u) && num <= 16
    ensures DeletesCells(u, Execute(u, start, DCH, num, p, stray), AtLeastOne(p[0]))
  {
    var n, r := AtLeastOne(p[0]), Execute(u, start, DCH, num, p, stray);
    assert r.screen == Delete(u.screen, u.col, u.row, n, u.pen.fg, u.pen.bg);
    assert r.screen[u.row] == DeleteRow(u.screen[u.row], u.col, Min(n, COLS - u.col), u.pen.fg, u.pen.bg);
  }

  /** The state of the parser does not enter into it. */
  lemma Same(t: Term, u: Term, r: Term, n: nat)
    requires u == t.(parser := u.parser) && 0 <= t.col
    ensures InsertsBlanks(u, r, n) <==> InsertsBlanks(t, r, n)
    ensures DeletesCells(u, r, n) <==> DeletesCells(t, r, n)
  {
    assert forall y: nat, x: nat :: y < ROWS && x < COLS ==> AfterInsert(u, n, y, x) == AfterInsert(t, n, y, x);
    assert forall y: nat, x: nat :: y < ROWS && x < COLS ==> AfterDelete(u, n, y, x) == AfterDelete(t, n, y, x);
  }

  /** ICH moves the rest of the row right by its count, and blanks come in at the cursor. */
  lemma InsertSequence(t: Term, question: bool, args: seq<byte>, terse: bool, input: seq<Input>)
    requires IsSent(t, question, args, terse, 64 /* @ */, input)
    ensures InsertsBlanks(t, FeedAll(t, input), AtLeastOne(args[0]))
  {
    var u, start, p, stray := Carried(t, question, args, terse, 64, ICH, input);
    hide FeedAll, FinalOf, Execute, InsertsBlanks, DeletesCells, IsSent;
    InsertingBlanks(u, start, |args|, p, stray);
    Same(t, u, FeedAll(t, input), AtLeastOne(p[0]));
  }

  /** DCH moves it left by its count, and blanks come in at the edge. */
  lemma DeleteSequence(t: Term, question: bool, args: seq<byte>, terse: bool, input: seq<Input>)
    requires IsSent(t, question, args, terse, 80 /* P */, input)
    ensures DeletesCells(t, FeedAll(t, input), AtLeastOne(args[0]))
  {
    var u, start, p, stray := Carried(t, question, args, terse, 80, DCH, input);
    hide FeedAll, FinalOf, Execute, InsertsBlanks, DeletesCells, IsSent;
    DeletingCells(u, start, |args|, p, stray);
    Same(t, u, FeedAll(t, input), AtLeastOne(p[0]));
  }

  // ---- Moving lines ----

  /** Rows `top` to `bottom` have each come from `n` rows further down, or up; what has no such row is blank. */
  ghost predicate ShiftsRows(t: Term, r: Term, top: int, bottom: int, n: int) {
    OnlyDrawn(t, r) && forall y: nat :: y < ROWS ==> r.screen[y] == AfterShift(t, top, bottom, n, y)
  }

  function AfterShift(t: Term, top: int, bottom: int, n: int, y: nat): Row
    requires y < ROWS
  {
    if y < top || y > bottom then t.screen[y]
    else if top <= y + n <= bottom && 0 <= y + n < ROWS then t.screen[y + n]
    else seq(COLS, _ => BlankOf(t))
  }

  lemma ShiftingRows(t: Term, r: Term, top: byte, bottom: byte, n: int)
    requires OnlyDrawn(t, r) && r.screen == Scroll(t.screen, top, bottom, n, t.pen.fg, t.pen.bg) && bottom < ROWS
    ensures ShiftsRows(t, r, top, bottom, n)
  {
  }

  /** The last row that IL and DL move: the last of the screen, or of the region in origin mode. */
  function LastMoved(t: Term): int {
    if t.modes.origin then t.bottom else 24
  }

  /** A count made an `int8_t` is still itself, or still as much as the rows. */
  lemma NarrowCount(m: int, h: nat)
    requires m != 0 && m + h <= 256 && -m + h <= 256 && -256 < m < 256
    ensures I8(m) == m || ((m >= h || -m >= h) && (I8(m) >= h || -I8(m) >= h))
  {
  }

  lemma LinesCommand(u: Term, start: byte, delete: bool, num: nat, p: Params, stray: byte, m: int)
    requires Safe(u) && num <= 16 && AtLeastOne(p[0]) + Height(u.row, LastMoved(u)) <= 256
    requires AtLeastOne(p[0]) == if delete then m else -m
    ensures ShiftsRows(u, Execute(u, start, if delete then DL else IL, num, p, stray), u.row, LastMoved(u), m)
  {
    var b: byte, f := LastMoved(u), if delete then DL else IL;
    assert ScrollsBy(u, start, f, num, p, stray, u.row, b, I8(m)) by { LinesMove(u, start, delete, num, p, stray); }
    NarrowCount(m, Height(u.row, b));
    hide Height, I8, Scroll, Safe;
    ScrollsAgree(u.row, b, I8(m), m, u.pen);
    AsScrolled(u, start, f, num, p, stray, u.row, b, I8(m), m);
  }

  lemma AsScrolled(
    u: Term, start: byte, f: Final, num: nat, p: Params, stray: byte, top: byte, bottom: byte, k: int, m: int)
    requires num <= 16 && bottom < ROWS
    requires ScrollsBy(u, start, f, num, p, stray, top, bottom, k) && AlwaysAgree(top, bottom, k, m, u.pen)
    ensures ShiftsRows(u, Execute(u, start, f, num, p, stray), top, bottom, m)
  {
    hide Execute, Scroll;
    assert Showing(u, u.screen) == u;
    assert Execute(Showing(u, u.screen), start, f, num, p, stray) ==
      Showing(u, Scroll(u.screen, top, bottom, k, u.pen.fg, u.pen.bg));
    ShiftingRows(u, Execute(u, start, f, num, p, stray), top, bottom, m);
  }

  /** Nor does the parser's state enter into this. */
  lemma SameShift(t: Term, u: Term, r: Term, top: int, bottom: int, n: int)
    requires u == t.(parser := u.parser) && ShiftsRows(u, r, top, bottom, n)
    ensures ShiftsRows(t, r, top, bottom, n)
  {
    assert forall y: nat :: y < ROWS ==> AfterShift(u, top, bottom, n, y) == AfterShift(t, top, bottom, n, y);
  }

  /** IL moves the rows from the cursor down by its count, as long as that and the rows fit in 256. */
  lemma InsertLinesSequence(t: Term, question: bool, args: seq<byte>, terse: bool, input: seq<Input>)
    requires IsSent(t, question, args, terse, 76 /* L */, input)
    requires AtLeastOne(args[0]) + Height(t.row, LastMoved(t)) <= 256
    ensures ShiftsRows(t, FeedAll(t, input), t.row, LastMoved(t), -(AtLeastOne(args[0]) as int))
  {
    var u, start, p, stray := Carried(t, question, args, terse, 76, IL, input);
    var m: int := -(AtLeastOne(args[0]) as int);
    hide FeedAll, FinalOf, Execute, ShiftsRows, IsSent, AfterShift, Safe;
    LinesCommand(u, start, false, |args|, p, stray, m);
    SameShift(t, u, FeedAll(t, input), t.row, LastMoved(t), m);
  }

  /** And DL moves those below the cursor up. */
  lemma DeleteLinesSequence(t: Term, question: bool, args: seq<byte>, terse: bool, input: seq<Input>)
    requires IsSent(t, question, args, terse, 77 /* M */, input)
    requires AtLeastOne(args[0]) + Height(t.row, LastMoved(t)) <= 256
    ensures ShiftsRows(t, FeedAll(t, input), t.row, LastMoved(t), AtLeastOne(args[0]))
  {
    var u, start, p, stray := Carried(t, question, args, terse, 77, DL, input);
    hide FeedAll, FinalOf, Execute, ShiftsRows, IsSent, AfterShift;
    LinesCommand(u, start, true, |args|, p, stray, AtLeastOne(args[0]));
    SameShift(t, u, FeedAll(t, input), t.row, LastMoved(t), AtLeastOne(args[0]));
  }

  /** The first row that SU and SD move. */
  function FirstScrolled(t: Term): int {
    if t.modes.origin then t.top else 0
  }

  /** SU and SD scroll by every number below the count in turn. */
  lemma ScrollingRows(u: Term, start: byte, up: bool, num: nat, p: Params, stray: byte, m: int)
    requires Safe(u) && num <= 16 && (if up then m else -m) == Triangle(AtLeastOne(p[0]))
    ensures ShiftsRows(u, Execute(u, start, if up then SU else SD, num, p, stray), FirstScrolled(u), LastMoved(u), m)
  {
    var n, top, bottom := AtLeastOne(p[0]), FirstScrolled(u), LastMoved(u);
    hide Scroll, Triangle;
    LoopIsOneScroll(u, top, bottom, n, if up then 1 else -1);
    var r := Execute(u, start, if up then SU else SD, num, p, stray);
    assert r == u.(screen := Scroll(u.screen, top, bottom, m, u.pen.fg, u.pen.bg));
    hide Execute;
    ShiftingRows(u, r, top, bottom, m);
  }

  /** `m` is the sum of the numbers below `n`. */
  predicate IsSumBelow(n: int, m: int) {
    2 * m == n * (n - 1)
  }

  lemma SumBelow(n: nat, m: int)
    requires IsSumBelow(n, m)
    ensures m == Triangle(n)
  {
  }

  /** SU moves its rows up by the sum of the numbers below its count. */
  lemma ScrollUpSequence(t: Term, question: bool, args: seq<byte>, terse: bool, input: seq<Input>, m: int)
    requires IsSent(t, question, args, terse, 83 /* S */, input)
    requires IsSumBelow(AtLeastOne(args[0]), m)
    ensures ShiftsRows(t, FeedAll(t, input), FirstScrolled(t), LastMoved(t), m)
  {
    var u, start, p, stray := Carried(t, question, args, terse, 83, SU, input);
    hide FeedAll, FinalOf, Execute, ShiftsRows, IsSent, AfterShift, IsSumBelow, Triangle, Safe, Sequence, Bytes;
    SumBelow(AtLeastOne(p[0]), m);
    ScrollingRows(u, start, true, |args|, p, stray, m);
    SameShift(t, u, FeedAll(t, input), FirstScrolled(t), LastMoved(t), m);
  }

  /** SD moves them down by as much. */
  lemma ScrollDownSequence(t: Term, question: bool, args: seq<byte>, terse: bool, input: seq<Input>, m: int)
    requires IsSent(t, question, args, terse, 84 /* T */, input)
    requires IsSumBelow(AtLeastOne(args[0]), m)
    ensures ShiftsRows(t, FeedAll(t, input), FirstScrolled(t), LastMoved(t), -m)
  {
    var u, start, p, stray := Carried(t, question, args, terse, 84, SD, input);
    hide FeedAll, FinalOf, Execute, ShiftsRows, IsSent, AfterShift, IsSumBelow, Triangle, Safe, Sequence, Bytes;
    SumBelow(AtLeastOne(p[0]), m);
    ScrollingRows(u, start, false, |args|, p, stray, -m);
    SameShift(t, u, FeedAll(t, input), FirstScrolled(t), LastMoved(t), -m);
  }
}
