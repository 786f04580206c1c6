/** What the bytes of VT52 mode do. */
module Vt52 {
  import opened Words
  import opened Grid
  import opened Vt
  import opened VtSafety
  import opened VtCommands
  import opened VtSettings
  import opened VtText

  /** VT52 mode, outside any escape. */
  predicate InVt52(t: Term) {
    Safe(t) && t.modes.vt52 && t.parser.state == Normal
  }

  // ---- Escapes of two bytes ----

  /** The cells an escape of VT52 mode blanks. */
  predicate IsBlanked(t: Term, c: byte, y: int, x: int) {
    match c
    case 69 /* E */ => true
    case 74 /* J */ => y >= t.row && x >= t.col
    case 75 /* K */ => y == t.row && x >= t.col
    case 100 /* d */ => y <= t.row && x <= t.col
    case 108 /* l */ => y == t.row
    case 111 /* o */ => y == t.row && x <= t.col
    case _ => false
  }

  ghost predicate Blanks(t: Term, s: Screen, c: byte) {
    forall y: nat, x: nat :: y < ROWS && x < COLS ==>
      s[y][x] == if IsBlanked(t, c, y, x) then BlankOf(t) else t.screen[y][x]
  }

  /** An escape that draws may also put the cursor elsewhere: `d` and `l` take its column for a row. */
  ghost predicate Erases52(t: Term, r: Term, c: byte) {
    && Blanks(t, r.screen, c)
    && match c
       case 69 => Limited(t.(screen := r.screen), r, 0, 0)
       case 100 => r == t.(parser := r.parser, screen := r.screen, row := Min(t.col, 24), col := t.row, eol := false)
       case 108 => r == t.(parser := r.parser, screen := r.screen, row := 0, col := t.row, eol := false)
       case _ => OnlyDrawn(t, r)
  }

  /** What an escape of two bytes does; Y, b and c await more. */
  ghost predicate Escapes52(t: Term, r: Term, c: byte) {
    match c
    case 65 /* A */ => Limited(t, r, t.row - 1, t.col)
    case 66 /* B */ => Limited(t, r, t.row + 1, t.col)
    case 67 /* C */ => Limited(t, r, t.row, t.col + 1)
    case 68 /* D */ => Limited(t, r, t.row, t.col - 1)
    case 72 /* H */ => Limited(t, r, 0, 0)
    case 73 /* I */ => WrapsTo(t, r, t.row - 1, t.col)
    case 76 /* L */ => ShiftsRows(t, r, t.row, 24, -1)
    case 77 /* M */ => ShiftsRows(t, r, t.row, 24, 1)
    case 106 /* j */ => r == t.(parser := r.parser, saved := t.saved.(row := t.row, col := t.col))
    case 107 /* k */ => Limited(t, r, t.saved.row, t.saved.col)
    case 112 /* p */ => ModeSet(t, r, true, 5, true)
    case 113 /* q */ => ModeSet(t, r, true, 5, false)
    case 118 /* v */ => ModeSet(t, r, true, 7, true)
    case 119 /* w */ => ModeSet(t, r, true, 7, false)
    case 60 /* < */ => AsNew(t, r, false)
    case _ => if c in {69, 74, 75, 100, 108, 111} then Erases52(t, r, c) else NothingDone(t, r)
  }

  lemma Erasing52(t: Term, c: byte)
    requires Safe(t) && c in {69, 74, 75, 100, 108, 111}
    ensures Erases52(t, Escape52(t, c), c)
  {
  }

  lemma Rows52(t: Term, c: byte)
    requires Safe(t) && c in {76, 77}
    ensures ShiftsRows(t, Escape52(t, c), t.row, 24, if c == 77 then 1 else -1)
  {
    ShiftingRows(t, Escape52(t, c), t.row, 24, if c == 77 then 1 else -1);
  }

  lemma Escaping52(t: Term, c: byte)
    requires Safe(t) && c !in {89, 98, 99}
    ensures Escapes52(t, Escape52(t, c), c)
  {
    hide Limited, WrapsTo, ShiftsRows, ModeSet, AsNew, Erases52, MoveLimited, MoveWrap, Invert, Reset;
    if c in {69, 74, 75, 100, 108, 111} {
      Erasing52(t, c);
    } else if c in {76, 77} {
      Rows52(t, c);
    } else {
      match c
      case 65 => LimitedMove(t, t.row - 1, t.col);
      case 66 => LimitedMove(t, t.row + 1, t.col);
      case 67 => LimitedMove(t, t.row, t.col + 1);
      case 68 => LimitedMove(t, t.row, t.col - 1);
      case 72 => LimitedMove(t, 0, 0);
      case 73 => Wrapping(t, t.row - 1, t.col);
      case 107 => LimitedMove(t, t.saved.row, t.saved.col);
      case 112 => Inverting(t, true);
      case 113 => Inverting(t, false);
      case 118 => Flagging(t, 7, true);
      case 119 => Flagging(t, 7, false);
      case 60 => Resetting(t);
      case _ =>
    }
  }

  // ---- From the bytes ----

  predicate IsSent52(t: Term, bytes: seq<byte>, input: seq<Input>) {
    InVt52(t) && |input| == |bytes| && forall k :: 0 <= k < |bytes| ==> input[k].c == bytes[k]
  }

  lemma Same52(t: Term, u: Term, r: Term, c: byte)
    requires u == t.(parser := u.parser) && Escapes52(u, r, c)
    ensures Escapes52(t, r, c)
  {
    hide WrapsTo, ShiftsRows, AsNew, Erases52;
    SameWrap(t, u, r, t.row - 1, t.col);
    SameErase(t, u, r, c);
    if c in {76, 77} {
      SameShift(t, u, r, t.row, 24, if c == 77 then 1 else -1);
    } else if c == 60 {
      SameRest(t, u, r, 0);
    }
  }

  lemma SameErase(t: Term, u: Term, r: Term, c: byte)
    requires u == t.(parser := u.parser)
    ensures Erases52(u, r, c) <==> Erases52(t, r, c)
  {
  }

  /** The escapes of VT52 mode, from their two bytes. */
  lemma EscapeBytes52(t: Term, c: byte, input: seq<Input>)
    requires IsSent52(t, [27, c], input) && c !in {89 /* Y */, 98 /* b */, 99 /* c */}
    ensures Escapes52(t, FeedAll(t, input), c)
  {
    hide Escapes52, Escape52, FeedAll;
    assert input[0].c == 27 && input[1].c == c;
    FeedTwo(t, input);
    var u := To(To(t, StartChar), Normal);
    Escaping52(u, c);
    Same52(t, u, Escape52(u, c), c);
  }

  /** `ESC Y` takes a row and a column from 32 on and goes there, from inside the region and no further than in it. */
  lemma PositionBytes52(t: Term, y: byte, x: byte, input: seq<Input>)
    requires IsSent52(t, [27, 89, y, x], input) && y >= 32
    ensures var r := FeedAll(t, input);
      && r.parser.state == Normal
      && if x >= 32 then Limited(t.(start52 := 89, row52 := y), r, y - 32, x - 32)
         else NothingDone(t.(start52 := 89, row52 := y), r)
  {
    hide FeedAll, Limited, MoveLimited;
    var u := FeedAll(t, input[..2]);
    FeedTwo(t, input[..2]);
    FeedAllAppend(t, input[..2], input[2..]);
    FeedTwo(u, input[2..]);
    assert input == input[..2] + input[2..];
    assert u == To(t.(start52 := 89, row52 := 0), ReadParam);
    hide Feed;
    LastPosition(t, y, x, input[2].stray, input[3].stray);
  }

  lemma LastPosition(t: Term, y: byte, x: byte, stray1: byte, stray2: byte)
    requires InVt52(t) && y >= 32
    ensures var u := To(t.(start52 := 89, row52 := 0), ReadParam);
      var r := Feed(Feed(u, y, stray1), x, stray2);
      && r.parser.state == Normal
      && if x >= 32 then Limited(t.(start52 := 89, row52 := y), r, y - 32, x - 32)
         else NothingDone(t.(start52 := 89, row52 := y), r)
  {
    hide MoveLimited;
    var v := To(t.(start52 := 89, row52 := y), ReadParam);
    LimitedMove(v, y - 32, x - 32);
  }

  /** `ESC b` and `ESC c` take a colour, of the characters or of what is behind them. */
  lemma ColourBytes52(t: Term, c: byte, x: byte, input: seq<Input>)
    requires IsSent52(t, [27, c, x], input) && c in {98, 99} && x >= 32
    ensures var r := FeedAll(t, input);
      && r == t.(parser := r.parser, start52 := c, pen := r.pen)
      && r.pen == if c == 98 then Pen((x - 32) % 16, t.pen.bg, t.pen.attr) else Pen(t.pen.fg, (x - 32) % 16, t.pen.attr)
  {
    hide FeedAll;
    var u := FeedAll(t, input[..2]);
    FeedTwo(t, input[..2]);
    FeedAllAppend(t, input[..2], input[2..]);
    FeedAllOne(u, input[2]);
    assert input == input[..2] + input[2..] && input[2..] == [input[2]];
  }

  /**
   `ESC d`, which erases up to the cursor, leaves the cursor there exactly if its row and column are the same
   number; and `ESC l`, which erases a line, puts it at the start of that line exactly if that is the first.
   */
  lemma ErasingMovesCursor(t: Term, c: byte, input: seq<Input>)
    requires IsSent52(t, [27, c], input)
    ensures var r := FeedAll(t, input);
      && (c == 100 /* d */ ==> (r.row == t.row && r.col == t.col <==> t.row == t.col))
      && (c == 108 /* l */ ==> (r.row == t.row && r.col == 0 <==> t.row == 0))
  {
    hide FeedAll, Blanks;
    if c in {100, 108} {
      EscapeBytes52(t, c, input);
    }
  }
}
