/** The screen as a window on an unbounded page of paper. */
module Paper {
  import opened Words
  import opened Grid
  import opened Vt
  import opened VtSafety
  import opened ControlSequences

  /** A page that grows downwards; `row` is its last row, and where the print head is. */
  datatype Page = Page(rows: seq<Row>, col: nat, pending: bool)

  const FRESH := BlankRow(7, 0)
  const EMPTY := Page([FRESH], 0, false)

  predicate PageOk(p: Page) {
    |p.rows| > 0 && p.col < COLS && (p.pending ==> p.col == LAST_COL)
  }

  /** Printable bytes, carriage return and line feed. */
  predicate IsTyped(c: byte) {
    c == CR || c == LF || (c >= 32 && c != DELETE)
  }

  function NewLine(p: Page, col: nat): Page {
    Page(p.rows + [FRESH], col, false)
  }

  function Strike(p: Page, c: byte): Page
    requires PageOk(p)
  {
    var last := |p.rows| - 1;
    var rows := p.rows[last := p.rows[last][p.col := Cell(c, 7, 0, 0)]];
    if p.col == LAST_COL then Page(rows, LAST_COL, true) else Page(rows, p.col + 1, false)
  }

  /** One byte on paper: no screen, no scrolling. */
  function Type(p: Page, c: byte): (r: Page)
    requires PageOk(p) && IsTyped(c)
    ensures PageOk(r)
  {
    if c == CR then p.(col := 0, pending := false)
    else if c == LF then NewLine(p, p.col)
    else Strike(if p.pending then NewLine(p, 0) else p, c)
  }

  function TypeAll(p: Page, input: seq<Input>): (r: Page)
    requires PageOk(p) && forall k :: 0 <= k < |input| ==> IsTyped(input[k].c)
    ensures PageOk(r)
    decreases |input|
  {
    if input == [] then p else TypeAll(Type(p, input[0].c), input[1..])
  }

  /** The first row of the page that is still on the screen. */
  function FirstShown(p: Page): nat
    requires |p.rows| > 0
  {
    Max(0, |p.rows| - 1 - LAST_ROW)
  }

  function ShownRow(p: Page, r: nat): Row
    requires |p.rows| > 0
  {
    if FirstShown(p) + r < |p.rows| then p.rows[FirstShown(p) + r] else FRESH
  }

  /** The last 25 rows of the page, and fresh paper below it. */
  function Window(p: Page): (s: Screen)
    requires |p.rows| > 0
  {
    seq(ROWS, r requires 0 <= r < ROWS => ShownRow(p, r))
  }

  /** The terminal shows the page. */
  predicate Shows(t: Term, p: Page)
    requires PageOk(p)
  {
    && t.screen == Window(p)
    && t.row == |p.rows| - 1 - FirstShown(p)
    && t.col == p.col
    && t.eol == p.pending
  }

  /** No setting has been touched since `terminal_init`. */
  predicate Untouched(t: Term) {
    && t.parser.state == Normal
    && t.top == 0 && t.bottom == LAST_ROW
    && t.pen == DEFAULT_PEN
    && t.g0 == US && !t.useG1
    && t.modes.autoWrap && !t.modes.insert && !t.modes.vt52
  }

  lemma NewLineShows(t: Term, p: Page, col: nat)
    requires PageOk(p) && Untouched(t) && Shows(t, p) && col < COLS
    ensures var r := MoveWrap(t, t.row + 1, col);
      Untouched(r) && Shows(r, NewLine(p, col))
  {
    var q := NewLine(p, col);
    var r := MoveWrap(t, t.row + 1, col);
    if t.row == LAST_ROW {
      assert r.screen == Scroll(t.screen, 0, LAST_ROW, 1, 7, 0);
      assert FirstShown(q) == FirstShown(p) + 1;
      assert forall k :: 0 <= k < ROWS ==> r.screen[k] == Window(q)[k];
    } else {
      assert FirstShown(p) == FirstShown(q) == 0;
      assert forall k :: 0 <= k < ROWS ==> r.screen[k] == Window(q)[k];
    }
  }

  lemma StrikeShows(t: Term, p: Page, c: byte)
    requires PageOk(p) && !p.pending && Untouched(t) && Shows(t, p) && IsTyped(c) && c >= 32
    ensures var r := PrintChar(t, c);
      Untouched(r) && Shows(r, Strike(p, c))
  {
    var q := Strike(p, c);
    var r := PrintChar(t, c);
    var cell := Cell(c, 7, 0, 0);
    assert r.screen == t.screen[t.row := t.screen[t.row][t.col := cell]];
    assert FirstShown(q) == FirstShown(p);
    assert Window(q)[t.row] == t.screen[t.row][t.col := cell];
    assert forall k :: 0 <= k < ROWS && k != t.row ==> Window(p)[k] == Window(q)[k];
    assert r.screen == Window(q);
  }

  lemma TypeShows(t: Term, p: Page, c: byte)
    requires PageOk(p) && Untouched(t) && Shows(t, p) && IsTyped(c)
    ensures var r := ProcessText(t, c);
      Untouched(r) && Shows(r, Type(p, c))
  {
    if c == LF {
      NewLineShows(t, p, t.col);
    } else if c == CR {
      assert Window(Type(p, CR)) == Window(p);
    } else {
      if t.eol {
        NewLineShows(t, p, 0);
        var u := MoveWrap(t, t.row + 1, 0);
        assert u == u.(eol := false);
        assert PrintChar(t, c) == PrintChar(u, c);
        StrikeShows(u, NewLine(p, 0), c);
      } else {
        StrikeShows(t, p, c);
      }
    }
  }

  /** Any text, on any untouched terminal that shows a page: it goes on showing it. */
  lemma {:induction false} TypingShows(t: Term, p: Page, input: seq<Input>)
    requires Safe(t) && PageOk(p) && Untouched(t) && Shows(t, p)
    requires forall k :: 0 <= k < |input| ==> IsTyped(input[k].c)
    ensures var r := FeedAll(t, input);
      Untouched(r) && Shows(r, TypeAll(p, input))
    decreases |input|
  {
    if input != [] {
      var c := input[0].c;
      TypeShows(t, p, c);
      FeedSafe(t, c, input[0].stray);
      assert Feed(t, c, input[0].stray) == ProcessText(t, c);
      TypingShows(ProcessText(t, c), Type(p, c), input[1..]);
    }
  }

  lemma InitShows()
    ensures Safe(INIT) && Untouched(INIT) && Shows(INIT, EMPTY)
  {
    assert forall k :: 0 <= k < ROWS ==> INIT.screen[k] == Window(EMPTY)[k];
  }

  /** From `terminal_init`, the screen is the last 25 rows of the paper, cursor and all. */
  lemma {:induction false} ScreenIsAWindow(input: seq<Input>)
    requires forall k :: 0 <= k < |input| ==> IsTyped(input[k].c)
    ensures Safe(INIT)
    ensures Shows(FeedAll(INIT, input), TypeAll(EMPTY, input))
  {
    InitShows();
    TypingShows(INIT, EMPTY, input);
  }

  /** Clearing the screen and going home is a fresh page, wherever the cursor was. */
  lemma {:induction false} ClearAndHome(t: Term, clear: seq<Input>, home: seq<Input>)
    requires Safe(t) && Untouched(t) && !t.modes.origin && (t.eol ==> t.col == LAST_COL)
    requires Bytes(clear) == Sequence(false, [2], true, 74) && Bytes(home) == Sequence(false, [0], true, 72)
    ensures var r := FeedAll(t, clear + home);
      Untouched(r) && !r.modes.origin && Shows(r, EMPTY)
  {
    SequenceRunsOnce(t, false, [2], true, 74, clear);
    var t1 := t.(parser := ParseAll(t.parser, Bytes(clear)).0);
    assert t1.parser.params[0] == t1.parser.params[..1][0] == 2;
    var u := FeedAll(t, clear);
    assert u == EraseScreen(t1, 2);
    ErasedIsBlank(t1);
    SequenceRunsOnce(u, false, [0], true, 72, home);
    var u1 := u.(parser := ParseAll(u.parser, Bytes(home)).0);
    assert u1.parser.params[0] == u1.parser.params[..1][0] == 0;
    FeedAllAppend(t, clear, home);
    assert FeedAll(u, home) == MoveWithin(u1, 0, 0, 0, LAST_ROW);
  }

  lemma ErasedIsBlank(t: Term)
    requires t.pen == DEFAULT_PEN
    ensures EraseScreen(t, 2) == t.(screen := EraseScreen(t, 2).screen)
    ensures EraseScreen(t, 2).screen == Window(EMPTY)
  {
    var s := EraseScreen(t, 2).screen;
    forall r | 0 <= r < ROWS ensures s[r] == Window(EMPTY)[r] {
      assert s[r] == FRESH;
    }
  }
}
