/** The 80x25 screen as a value, and what its editing operations mean. */
module Grid {
  import opened Words

  const ROWS := 25
  const COLS := 80

  datatype Cell = Cell(ch: byte, fg: byte, bg: byte, attr: byte)

  type Row = r: seq<Cell> | |r| == 80 witness seq(80, _ => Cell(32, 0, 0, 0))
  type Screen = s: seq<Row> | |s| == 25 witness seq(25, _ => seq(80, _ => Cell(32, 0, 0, 0)))

  /** A C `uint8_t` made of an `int`. */
  function U8(x: int): (r: byte)
    ensures 0 <= x < 256 ==> r == x
  {
    x % 256
  }

  /** A C `int8_t` made of an `int`. */
  function I8(x: int): (r: int)
    ensures -128 <= r < 128
  {
    (x + 128) % 256 - 128
  }

  function BlankRow(fg: byte, bg: byte): Row {
    seq(COLS, _ => Cell(32, fg, bg, 0))
  }

  function FillRow(row: Row, from: int, to: int, cell: Cell): (r: Row) {
    seq(COLS, c requires 0 <= c < COLS => if from <= c <= to then cell else row[c])
  }

  /** Columns `cs..ce` of rows `rs..re`, as far as they are on the screen. */
  function Fill(s: Screen, cs: int, rs: int, ce: int, re: int, cell: Cell): (t: Screen) {
    seq(ROWS, r requires 0 <= r < ROWS => if rs <= r <= re then FillRow(s[r], cs, ce, cell) else s[r])
  }

  /** Row `r` of a screen whose rows `top..end` have moved up by `n` (down, if `n` is negative). */
  function ScrolledRow(s: Screen, top: int, end: int, n: int, fg: byte, bg: byte, r: int): Row
    requires 0 <= r < ROWS && 0 <= top && end < ROWS
  {
    if !(top <= r <= end) then s[r] else if top <= r + n <= end then s[r + n] else BlankRow(fg, bg)
  }

  /** Rows `top..bottom` moved up (`n > 0`) or down; what is vacated is blank, the rest stays. */
  function Scroll(s: Screen, top: byte, bottom: byte, n: int, fg: byte, bg: byte): (t: Screen) {
    var end := Min(bottom, ROWS - 1);
    seq(ROWS, r requires 0 <= r < ROWS => ScrolledRow(s, top, end, n, fg, bg, r))
  }

  /** `n` blanks at column `x`; what they push past the edge is gone. */
  function InsertRow(row: Row, x: int, n: int, fg: byte, bg: byte): (r: Row)
    requires 0 <= x && 0 <= n
  {
    seq(COLS, c requires 0 <= c < COLS =>
      if c < x then row[c] else if c < x + n then Cell(32, fg, bg, 0) else row[c - n])
  }

  /** `n` cells gone from column `x`; blanks come in at the edge. */
  function DeleteRow(row: Row, x: int, n: int, fg: byte, bg: byte): (r: Row)
    requires 0 <= x && 0 <= n
  {
    seq(COLS, c requires 0 <= c < COLS =>
      if c < x then row[c] else if c + n < COLS then row[c + n] else Cell(32, fg, bg, 0))
  }

  /** Inserting nothing at column 0 wraps the end column to 255 and blanks the row. */
  function Insert(s: Screen, x: byte, y: byte, n: byte, fg: byte, bg: byte): (t: Screen) {
    if y >= ROWS || x >= COLS then s
    else s[y := if n == 0 && x == 0 then BlankRow(fg, bg) else InsertRow(s[y], x, Min(n, COLS - x), fg, bg)]
  }

  function Delete(s: Screen, x: byte, y: byte, n: byte, fg: byte, bg: byte): (t: Screen) {
    if y >= ROWS || x >= COLS then s else s[y := DeleteRow(s[y], x, Min(n, COLS - x), fg, bg)]
  }

  /** `cellbuf_scroll` on the whole screen. */
  function BlockScroll(s: Screen, n: int, fg: byte, bg: byte): (t: Screen) {
    if n >= ROWS || -n >= ROWS then seq(ROWS, _ => BlankRow(fg, bg))
    else if n >= 0 then s[n..] + seq(n, _ => BlankRow(fg, bg))
    else seq(-n, _ => BlankRow(fg, bg)) + s[..ROWS + n]
  }

  /** The inverse-video bit of every cell, flipped. */
  function FlipInverse(a: byte): byte {
    if a / 8 % 2 == 0 then a + 8 else a - 8
  }

  function FlipAll(s: Screen): (t: Screen) {
    seq(ROWS, r requires 0 <= r < ROWS =>
      seq(COLS, c requires 0 <= c < COLS => s[r][c].(attr := FlipInverse(s[r][c].attr))))
  }

  // ---- Laws ----

  /** The two scrolls of the source, one row by row and one in a block, are the same. */
  lemma BlockScrollIsScroll(s: Screen, n: int, fg: byte, bg: byte)
    ensures BlockScroll(s, n, fg, bg) == Scroll(s, 0, 24, n, fg, bg)
  {
    var a, b := BlockScroll(s, n, fg, bg), Scroll(s, 0, 24, n, fg, bg);
    assert forall r :: 0 <= r < ROWS ==> a[r] == b[r];
  }

  /** Two scrolls the same way are one by the sum, which saturates. */
  lemma ScrollsAdd(s: Screen, top: byte, bottom: byte, m: int, n: int, fg: byte, bg: byte)
    requires (0 <= m < 128 && 0 <= n < 128) || (-128 <= m < 0 && -128 <= n < 0)
    ensures Scroll(Scroll(s, top, bottom, m, fg, bg), top, bottom, n, fg, bg) ==
      Scroll(s, top, bottom, if m >= 0 then Min(m + n, 127) else Max(m + n, -128), fg, bg)
  {
  }

  /** Scrolling touches nothing outside its rows and loses only what runs off the end. */
  lemma ScrollKeeps(s: Screen, top: byte, bottom: byte, n: int, fg: byte, bg: byte, r: nat)
    requires r < ROWS && -128 <= n < 128
    ensures var end := Min(bottom, ROWS - 1);
      && (!(top <= r <= end) ==> Scroll(s, top, bottom, n, fg, bg)[r] == s[r])
      && (top <= r <= end && top <= r - n <= end ==> Scroll(s, top, bottom, n, fg, bg)[r - n] == s[r])
      && (top <= r <= end && !(top <= r + n <= end) ==>
            Scroll(s, top, bottom, n, fg, bg)[r] == BlankRow(fg, bg))
  {
  }

  /** Deleting what was just inserted loses only the cells that were pushed off the edge. */
  lemma DeleteAfterInsert(s: Screen, x: byte, y: byte, n: byte, fg: byte, bg: byte)
    requires x < COLS && y < ROWS && 1 <= n
    ensures var k := Min(n, COLS - x);
      Delete(Insert(s, x, y, n, fg, bg), x, y, n, fg, bg) ==
        s[y := s[y][..COLS - k] + seq(k, _ => Cell(32, fg, bg, 0))]
  {
    var k := Min(n, COLS - x);
    var t := Delete(Insert(s, x, y, n, fg, bg), x, y, n, fg, bg);
    assert t[y] == s[y][..COLS - k] + seq(k, _ => Cell(32, fg, bg, 0));
  }

  /** Inserting nothing changes nothing, exactly when it is not done at column 0 (of a row not yet blank). */
  lemma InsertNothing(s: Screen, x: byte, y: byte, fg: byte, bg: byte)
    requires x < COLS && y < ROWS
    ensures Insert(s, x, y, 0, fg, bg) == s <==> x > 0 || s[y] == BlankRow(fg, bg)
  {
    if x > 0 {
      assert InsertRow(s[y], x, 0, fg, bg) == s[y];
      assert s[y := s[y]] == s;
    } else {
      assert Insert(s, x, y, 0, fg, bg)[y] == BlankRow(fg, bg);
      assert s[y := s[y]] == s;
    }
  }
}

/** The cell buffer edited in place (term/framebuf.c and term/cellbuf.c). */
module Framebuf {
  import opened Words
  import opened Grid

  /** The rows `lo..hi` of a half-done scroll, each copied from `d` rows further on. */
  ghost function Moved(s: Screen, lo: int, hi: int, d: int): (t: Screen)
  {
    seq(ROWS, q requires 0 <= q < ROWS => if lo <= q < hi && 0 <= q + d < ROWS then s[q + d] else s[q])
  }

  /** The columns `lo..hi` of a half-done shift, each copied from `d` columns further on. */
  ghost function MovedRow(s: Row, lo: int, hi: int, d: int): (t: Row)
  {
    seq(COLS, q requires 0 <= q < COLS => if lo <= q < hi && 0 <= q + d < COLS then s[q + d] else s[q])
  }

  /** Filling every column of a row with blanks leaves the blank row. */
  lemma FillWhole(row: Row, fg: byte, bg: byte)
    ensures FillRow(row, 0, COLS - 1, Cell(32, fg, bg, 0)) == BlankRow(fg, bg)
  {
  }

  lemma FlipAllAt(s: Screen, r: nat, c: nat)
    requires r < ROWS && c < COLS
    ensures FlipAll(s)[r][c] == s[r][c].(attr := FlipInverse(s[r][c].attr))
  {
  }

  /** Whole rows filled with blanks. */
  lemma FillBlank(s: Screen, lo: int, hi: int, fg: byte, bg: byte)
    ensures Fill(s, 0, lo, COLS - 1, hi, Cell(32, fg, bg, 0)) ==
      seq(ROWS, r requires 0 <= r < ROWS => if lo <= r <= hi then BlankRow(fg, bg) else s[r])
  {
    forall r | 0 <= r < ROWS ensures FillRow(s[r], 0, COLS - 1, Cell(32, fg, bg, 0)) == BlankRow(fg, bg) {
      FillWhole(s[r], fg, bg);
    }
  }

  lemma ScrollUpDone(s: Screen, top: byte, end: byte, n: int, count: int, fg: byte, bg: byte)
    requires top <= end < ROWS && n > 0 && count == Min(n, end - top + 1)
    ensures Fill(Moved(s, top, end - count + 1, count), 0, end - count + 1, COLS - 1, end, Cell(32, fg, bg, 0))
         == Scroll(s, top, end, n, fg, bg)
  {
    FillBlank(Moved(s, top, end - count + 1, count), end - count + 1, end, fg, bg);
  }

  lemma ScrollDownDone(s: Screen, top: byte, end: byte, n: int, count: int, fg: byte, bg: byte)
    requires top <= end < ROWS && n < 0 && count == Min(-n, end - top + 1)
    ensures Fill(Moved(s, top + count, end + 1, -count), 0, top, COLS - 1, top + count - 1, Cell(32, fg, bg, 0))
         == Scroll(s, top, end, n, fg, bg)
  {
    FillBlank(Moved(s, top + count, end + 1, -count), top, top + count - 1, fg, bg);
  }

  /** What the final fill of an insertion makes of the shifted row; the end column is a byte. */
  lemma InsertDone(row: Row, x: byte, k: int, fg: byte, bg: byte)
    requires x < COLS && 0 <= k <= COLS - x
    ensures FillRow(MovedRow(row, x + k, COLS, -k), x, U8(x + k - 1), Cell(32, fg, bg, 0)) ==
      if k == 0 && x == 0 then BlankRow(fg, bg) else InsertRow(row, x, k, fg, bg)
  {
  }

  class CellBuffer {
    const rows: array<Row>

    ghost predicate Valid() {
      rows.Length == ROWS
    }

    ghost function Picture(): (s: Screen)
      reads rows
      requires Valid()
    {
      rows[..]
    }

    constructor ()
      ensures Valid() && fresh(rows)
    {
      rows := new Row[ROWS](_ => BlankRow(7, 0));
    }

    method SetCell(col: byte, row: byte, ch: byte, fg: byte, bg: byte, attr: byte)
      requires Valid()
      modifies rows
      ensures Picture() == if col < COLS && row < ROWS
        then old(Picture())[row := old(rows[row])[col := Cell(ch, fg, bg, attr)]] else old(Picture())
    {
      if col < COLS && row < ROWS {
        rows[row] := rows[row][col := Cell(ch, fg, bg, attr)];
      }
    }

    /** One row of a fill. */
    method FillOneRow(row: nat, cs: int, ce: int, cell: Cell)
      requires Valid() && row < ROWS && 0 <= cs
      modifies rows
      ensures Picture() == old(Picture())[row := FillRow(old(rows[row]), cs, ce, cell)]
    {
      ghost var was := rows[..];
      var c := cs;
      assert FillRow(was[row], cs, Min(c - 1, ce), cell) == was[row];
      while c <= ce && c < COLS
        invariant cs <= c
        invariant rows[..] == was[row := FillRow(was[row], cs, Min(c - 1, ce), cell)]
        decreases COLS - c
      {
        assert FillRow(was[row], cs, c - 1, cell)[c := cell] == FillRow(was[row], cs, c, cell);
        rows[row] := rows[row][c := cell];
        c := c + 1;
      }
      assert FillRow(was[row], cs, Min(c - 1, ce), cell) == FillRow(was[row], cs, ce, cell);
    }

    method FillRegion(cs: byte, rs: byte, ce: byte, re: byte, ch: byte, fg: byte, bg: byte)
      requires Valid()
      modifies rows
      ensures Picture() == Fill(old(Picture()), cs, rs, ce, re, Cell(ch, fg, bg, 0))
    {
      ghost var was, cell := rows[..], Cell(ch, fg, bg, 0);
      var r: int := rs;
      assert Fill(was, cs, rs, ce, rs as int - 1, cell) == was;
      while r <= re && r < ROWS
        invariant rs <= r
        invariant r <= re as int + 1 || r == rs
        invariant rows[..] == Fill(was, cs, rs, ce, r - 1, cell)
        decreases ROWS - r
      {
        FillOneRow(r, cs, ce, Cell(ch, fg, bg, 0));
        assert rows[..] == Fill(was, cs, rs, ce, r, cell);
        r := r + 1;
      }
      assert Fill(was, cs, rs, ce, r - 1, cell) == Fill(was, cs, rs, ce, re, cell);
    }

    method ScrollRegion(top: byte, bottom: byte, n: int, fg: byte, bg: byte)
      requires Valid() && -128 <= n < 128
      modifies rows
      ensures Picture() == Scroll(old(Picture()), top, bottom, n, fg, bg)
    {
      var end := Min(bottom, ROWS - 1);
      ghost var was := rows[..];
      if top > end {
        assert Scroll(was, top, bottom, n, fg, bg) == was;
        return;
      }
      var count := Min(if n < 0 then -n else n, end - top + 1);
      if n > 0 {
        var r: int := top;
        assert Moved(was, top, r, count) == was;
        while r + count <= end
          invariant top <= r && r + count <= end + 1
          invariant rows[..] == Moved(was, top, r, count)
        {
          assert Moved(was, top, r, count)[r := was[r + count]] == Moved(was, top, r + 1, count);
          assert rows[..][r + count] == was[r + count];
          rows[r] := rows[r + count];
          r := r + 1;
        }
        FillRegion(0, end - count + 1, COLS - 1, end, 32, fg, bg);
        ScrollUpDone(was, top, end, n, count, fg, bg);
      } else if n < 0 {
        var r: int := end;
        assert Moved(was, r + 1, end + 1, -count) == was;
        while r - count >= top
          invariant r <= end && top - 1 <= r - count
          invariant rows[..] == Moved(was, r + 1, end + 1, -count)
          decreases r
        {
          assert Moved(was, r + 1, end + 1, -count)[r := was[r - count]] == Moved(was, r, end + 1, -count);
          assert rows[..][r - count] == was[r - count];
          rows[r] := rows[r - count];
          r := r - 1;
        }
        FillRegion(0, top, COLS - 1, top + count - 1, 32, fg, bg);
        ScrollDownDone(was, top, end, n, count, fg, bg);
      } else {
        assert Scroll(was, top, bottom, n, fg, bg) == was;
      }
    }

    method InsertCells(x: byte, y: byte, n: byte, fg: byte, bg: byte)
      requires Valid()
      modifies rows
      ensures Picture() == Insert(old(Picture()), x, y, n, fg, bg)
    {
      if y >= ROWS || x >= COLS {
        return;
      }
      var k := Min(n, COLS - x);
      ghost var was := rows[..];
      var c := COLS - 1;
      assert MovedRow(was[y], c + 1, COLS, -k) == was[y];
      while c >= x + k
        invariant x + k - 1 <= c < COLS
        invariant rows[..] == was[y := MovedRow(was[y], c + 1, COLS, -k)]
      {
        assert MovedRow(was[y], c + 1, COLS, -k)[c := was[y][c - k]] == MovedRow(was[y], c, COLS, -k);
        assert rows[y][c - k] == was[y][c - k];
        rows[y] := rows[y][c := rows[y][c - k]];
        c := c - 1;
      }
      ghost var moved := MovedRow(was[y], x + k, COLS, -k);
      InsertDone(was[y], x, k, fg, bg);
      FillRegion(x, y, U8(x + k - 1), y, 32, fg, bg);
      assert rows[y] == FillRow(moved, x, U8(x + k - 1), Cell(32, fg, bg, 0));
      assert rows[..] == Insert(was, x, y, n, fg, bg);
    }

    method DeleteCells(x: byte, y: byte, n: byte, fg: byte, bg: byte)
      requires Valid()
      modifies rows
      ensures Picture() == Delete(old(Picture()), x, y, n, fg, bg)
    {
      if y >= ROWS || x >= COLS {
        return;
      }
      var k := Min(n, COLS - x);
      ghost var was := rows[..];
      var c: int := x;
      assert MovedRow(was[y], x, c, k) == was[y];
      while c + k < COLS
        invariant x <= c && c + k <= COLS
        invariant rows[..] == was[y := MovedRow(was[y], x, c, k)]
      {
        assert MovedRow(was[y], x, c, k)[c := was[y][c + k]] == MovedRow(was[y], x, c + 1, k);
        assert rows[y][c + k] == was[y][c + k];
        rows[y] := rows[y][c := rows[y][c + k]];
        c := c + 1;
      }
      ghost var moved := MovedRow(was[y], x, COLS - k, k);
      assert rows[y] == moved;
      FillRegion(COLS - k, y, COLS - 1, y, 32, fg, bg);
      assert rows[y] == FillRow(moved, COLS - k, COLS - 1, Cell(32, fg, bg, 0));
      assert FillRow(moved, COLS - k, COLS - 1, Cell(32, fg, bg, 0)) == DeleteRow(was[y], x, k, fg, bg);
      assert rows[..] == Delete(was, x, y, n, fg, bg);
    }

    /** `framebuf_set_screen_inverted`, once it has seen that the setting changes. */
    method FlipScreen()
      requires Valid()
      modifies rows
      ensures Picture() == FlipAll(old(Picture()))
    {
      ghost var was := rows[..];
      ghost var flipped := FlipAll(was);
      hide FlipAll;
      for r := 0 to ROWS
        invariant forall q :: 0 <= q < ROWS ==> rows[q] == if q < r then flipped[q] else was[q]
      {
        for c := 0 to COLS
          invariant forall q :: 0 <= q < ROWS && q != r ==> rows[q] == if q < r then flipped[q] else was[q]
          invariant forall q :: 0 <= q < COLS ==> rows[r][q] == if q < c then flipped[r][q] else was[r][q]
        {
          FlipAllAt(was, r, c);
          rows[r] := rows[r][c := rows[r][c].(attr := FlipInverse(rows[r][c].attr))];
        }
      }
    }

    /** `cellbuf_scroll`: one block move, then a fill. */
    method ScrollBlock(n: int, fg: byte, bg: byte)
      requires Valid()
      modifies rows
      ensures Picture() == BlockScroll(old(Picture()), n, fg, bg)
    {
      ghost var was := rows[..];
      if n == 0 {
      } else if n >= ROWS || -n >= ROWS {
        FillRegion(0, 0, COLS - 1, ROWS - 1, 32, fg, bg);
        FillBlank(was, 0, ROWS - 1, fg, bg);
      } else if n > 0 {
        forall r | 0 <= r < ROWS - n {
          rows[r] := rows[r + n];
        }
        FillBlank(rows[..], ROWS - n, ROWS - 1, fg, bg);
        FillRegion(0, ROWS - n, COLS - 1, ROWS - 1, 32, fg, bg);
      } else {
        forall r | -n <= r < ROWS {
          rows[r] := rows[r + n];
        }
        FillBlank(rows[..], 0, -n - 1, fg, bg);
        FillRegion(0, 0, COLS - 1, -n - 1, 32, fg, bg);
      }
      assert rows[..] == BlockScroll(was, n, fg, bg);
    }
  }
}
