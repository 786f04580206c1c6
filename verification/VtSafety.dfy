/** The cursor stays on the screen, whatever arrives and whatever the scroll region is. */
module VtSafety {
  import opened Words
  import opened Grid
  import opened Vt

  /** A region that runs forwards, or one whose top was set below the screen. */
  predicate RegionOk(t: Term) {
    0 <= t.top < 256 && 0 <= t.bottom <= LAST_ROW && (t.top <= t.bottom || t.bottom == LAST_ROW)
  }

  predicate Inverted(t: Term) {
    t.top > t.bottom
  }

  predicate OnScreen(row: int, col: int) {
    0 <= row < ROWS && 0 <= col < COLS
  }

  predicate Safe(t: Term) {
    && OnScreen(t.row, t.col)
    && OnScreen(t.saved.row, t.saved.col)
    && RegionOk(t)
    && InStep(t)
  }

  /** The cursor is on the screen, and neither region nor modes nor parser changed. */
  predicate Steady(t: Term, r: Term) {
    && OnScreen(r.row, r.col)
    && r.top == t.top && r.bottom == t.bottom
    && r.modes == t.modes && r.parser == t.parser && r.saved == t.saved
  }

  lemma MoveWrapSafe(t: Term, row: int, col: int)
    requires OnScreen(t.row, t.col) && RegionOk(t)
    ensures Steady(t, MoveWrap(t, row, col))
  {
  }

  /** With the region inverted, a move limited to it never happens. */
  lemma InvertedFreezes(t: Term, row: int, col: int)
    requires Safe(t) && Inverted(t)
    ensures MoveLimited(t, row, col) == t
  {
  }

  lemma MoveLimitedSafe(t: Term, row: int, col: int)
    requires OnScreen(t.row, t.col) && RegionOk(t)
    ensures Steady(t, MoveLimited(t, row, col))
  {
  }

  lemma PrintCharSafe(t: Term, c: byte)
    requires OnScreen(t.row, t.col) && RegionOk(t)
    ensures Steady(t, PrintChar(t, c))
  {
    MoveWrapSafe(t, t.row + 1, 0);
  }

  lemma ProcessTextSafe(t: Term, c: byte)
    requires OnScreen(t.row, t.col) && RegionOk(t)
    ensures Steady(t, ProcessText(t, c))
  {
    match c
    case 8 => MoveWrapSafe(t, t.row, t.col - 1); MoveLimitedSafe(t, t.row, t.col - 1);
    case 9 => MoveLimitedSafe(t, t.row, NextTab(t.tabs, t.col + 1));
    case 10 => MoveWrapSafe(t, t.row + 1, t.col);
    case 11 => MoveWrapSafe(t, t.row + 1, t.col);
    case 12 => MoveWrapSafe(t, t.row + 1, t.col);
    case 13 => MoveWrapSafe(t, t.row, 0);
    case 14 =>
    case 15 =>
    case 127 =>
    case _ => if c >= 32 { PrintCharSafe(t, c); }
  }

  lemma ScrollRepeatedlySafe(t: Term, top: int, bottom: int, n: nat, sign: int)
    ensures var r := ScrollRepeatedly(t, top, bottom, n, sign); r == t.(screen := r.screen)
    decreases n
  {
    if n > 0 {
      ScrollRepeatedlySafe(ScrollPart(t, top, bottom, sign * (n - 1)), top, bottom, n - 1, sign);
    }
  }

  lemma ResetSafe(t: Term)
    requires Safe(t) && t.parser.state == Normal
    ensures var r := Reset(t); Safe(r) && Safe(r.(modes := r.modes.(vt52 := true))) && r.parser == t.parser
  {
  }

  lemma ClearScreenSafe(t: Term)
    requires Safe(t)
    ensures var r := ClearScreen(t); Safe(r) && r.parser == t.parser
  {
  }

  lemma ModesSafe(t: Term, m: Modes)
    requires Safe(t) && m.vt52 == t.modes.vt52
    ensures Safe(t.(modes := m))
  {
  }

  lemma InvertSafe(t: Term, on: bool)
    requires Safe(t)
    ensures Safe(Invert(t, on)) && Invert(t, on).parser == t.parser
  {
    hide FlipAll;
  }

  lemma PrivateModeSafe(t: Term, p: byte, on: bool)
    requires Safe(t) && t.parser.state == Normal
    ensures var r := PrivateMode(t, p, on); Safe(r) && r.parser == t.parser
  {
    hide Reset, ClearScreen, Invert, MoveLimited, Safe;
    match p
    case 1 => ModesSafe(t, t.modes.(cursorKeys := on));
    case 2 => ResetSafe(t);
    case 3 => ClearScreenSafe(t);
    case 5 => InvertSafe(t, on);
    case 6 => OriginSafe(t, on);
    case 7 => ModesSafe(t, t.modes.(autoWrap := on));
    case 25 => ModesSafe(t, t.modes.(shown := on));
    case _ =>
  }

  lemma OriginSafe(t: Term, on: bool)
    requires Safe(t)
    ensures var r := MoveLimited(t.(modes := t.modes.(origin := on)), t.top, 0); Safe(r) && r.parser == t.parser
  {
    MoveLimitedSafe(t.(modes := t.modes.(origin := on)), t.top, 0);
  }

  lemma SetRegionSafe(t: Term, num: nat, p: Params)
    requires Safe(t)
    ensures var r := SetRegion(t, num, p); Safe(r) && r.parser == t.parser
  {
  }

  lemma MoveSafe(t: Term, start: byte, f: Final, num: nat, p: Params, stray: byte)
    requires Safe(t) && num <= 16 && f in {CUU, CUD, CUF, CUB, CNL, CPL, VPA, CHA, CUP, CHT, CBT}
    ensures Steady(t, Execute(t, start, f, num, p, stray))
  {
  }

  lemma EditSafe(t: Term, start: byte, f: Final, num: nat, p: Params, stray: byte)
    requires Safe(t) && num <= 16 && f in {ED, EL, IL, DL, ICH, DCH, SU, SD, TBC, SGR, Other}
    ensures Steady(t, Execute(t, start, f, num, p, stray))
  {
    match f
    case SU => ScrollRepeatedlySafe(t, TopLimit(t), BottomLimit(t), Max(1, p[0]), 1);
    case SD => ScrollRepeatedlySafe(t, TopLimit(t), BottomLimit(t), Max(1, p[0]), -1);
    case ED =>
    case EL =>
    case TBC =>
    case _ =>
  }

  lemma ExecuteSafe(t: Term, start: byte, f: Final, num: nat, p: Params, stray: byte)
    requires Safe(t) && t.parser.state == Normal && num <= 16
    ensures Safe(Execute(t, start, f, num, p, stray))
  {
    match f
    case SetMode => PrivateModeSafe(t, p[0], true);
    case ResetMode => PrivateModeSafe(t, p[0], false);
    case DECSTBM => SetRegionSafe(t, num, p);
    case RCP => MoveLimitedSafe(t, t.saved.row, t.saved.col);
    case SCP =>
    case _ =>
      if f in {CUU, CUD, CUF, CUB, CNL, CPL, VPA, CHA, CUP, CHT, CBT} {
        MoveSafe(t, start, f, num, p, stray);
      } else {
        EditSafe(t, start, f, num, p, stray);
      }
  }

  lemma EscapeSafe(t: Term, c: byte, stray: byte)
    requires Safe(t) && t.parser.state == Normal
    ensures Safe(ExecuteEscape(t, c, stray))
  {
    match c
    case 27 => PrintCharSafe(t, ESC);
    case 99 =>
    case 55 =>
    case 56 => MoveLimitedSafe(t, t.saved.row, t.saved.col);
    case 72 =>
    case 74 =>
    case 75 =>
    case 68 => MoveWrapSafe(t, t.row + 1, t.col);
    case 69 => MoveWrapSafe(t, t.row + 1, 0);
    case 73 => MoveWrapSafe(t, t.row - 1, 0);
    case 77 => MoveWrapSafe(t, t.row - 1, t.col);
    case _ =>
  }

  lemma ActSafe(t: Term, e: Event, stray: byte)
    requires Safe(t) && (e.Text? || e == Nothing || t.parser.state == Normal)
    ensures Safe(Act(t, e, stray))
  {
    match e
    case Nothing =>
    case Text(c) => ProcessTextSafe(t, c);
    case Escape(c) => EscapeSafe(t, c, stray);
    case Command(start, final, args, params) =>
      if |args| <= 16 {
        ExecuteSafe(t, start, FinalOf(final), |args|, params, stray);
      }
    case HashCommand(c) =>
    case Designate(slot, c) =>
  }

  lemma Move52Safe(t: Term, c: byte)
    requires Safe(t) && c in {65, 66, 67, 68, 69, 72, 73, 107}
    ensures Steady(t, Escape52(t, c))
  {
    match c
    case 65 => MoveLimitedSafe(t, t.row - 1, t.col);
    case 66 => MoveLimitedSafe(t, t.row + 1, t.col);
    case 67 => MoveLimitedSafe(t, t.row, t.col + 1);
    case 68 => MoveLimitedSafe(t, t.row, t.col - 1);
    case 69 => MoveLimitedSafe(FillPart(t, 0, 0, LAST_COL, LAST_ROW), 0, 0);
    case 72 => MoveLimitedSafe(t, 0, 0);
    case 73 => MoveWrapSafe(t, t.row - 1, t.col);
    case _ => MoveLimitedSafe(t, t.saved.row, t.saved.col);
  }

  lemma Screen52Safe(t: Term, c: byte)
    requires Safe(t) && c in {74, 75, 76, 77, 100, 108, 111, 112, 113, 118, 119}
    ensures var r := Escape52(t, c);
      Steady(t.(modes := r.modes), r) && r.modes.vt52 == t.modes.vt52
  {
    match c
    case 100 =>
    case 108 =>
    case 112 =>
    case 113 =>
    case 118 =>
    case 119 =>
    case _ =>
  }

  lemma Escape52Safe(t: Term, c: byte)
    requires Safe(t) && t.modes.vt52 && t.parser.state == Normal
    ensures Safe(Escape52(t, c))
  {
    if c in {65, 66, 67, 68, 69, 72, 73, 107} {
      Move52Safe(t, c);
    } else if c in {74, 75, 76, 77, 100, 108, 111, 112, 113, 118, 119} {
      Screen52Safe(t, c);
    } else {
      match c
      case 89 =>
      case 98 =>
      case 99 =>
      case 106 =>
      case 60 =>
      case _ => assert Escape52(t, c) == t;
    }
  }

  lemma Param52Safe(t: Term, c: byte)
    requires Safe(t) && t.modes.vt52 && t.parser.state == ReadParam
    ensures Safe(Param52(t, c))
  {
  }

  /** One byte, in either mode, and the cursor is still on the screen. */
  lemma FeedSafe(t: Term, c: byte, stray: byte)
    requires Safe(t)
    ensures Safe(Feed(t, c, stray))
  {
    if !t.modes.vt52 {
      var (parser, event) := Parse(t.parser, c);
      ActSafe(t.(parser := parser), event, stray);
    } else {
      match t.parser.state
      case Normal => if c != ESC { ProcessTextSafe(t, c); }
      case StartChar => Escape52Safe(To(t, Normal), c);
      case ReadParam => Param52Safe(t, c);
    }
  }

  /** Any bytes at all, from any safe terminal. */
  function FeedAll(t: Term, input: seq<Input>): (r: Term)
    requires Safe(t)
    ensures Safe(r)
    decreases |input|
  {
    if input == [] then t
    else
      FeedSafe(t, input[0].c, input[0].stray);
      FeedAll(Feed(t, input[0].c, input[0].stray), input[1..])
  }

  lemma {:induction false} FeedAllAppend(t: Term, a: seq<Input>, b: seq<Input>)
    requires Safe(t)
    ensures FeedAll(t, a + b) == FeedAll(FeedAll(t, a), b)
    decreases |a|
  {
    hide Feed;
    if a == [] {
      assert a + b == b;
    } else {
      FeedSafe(t, a[0].c, a[0].stray);
      FeedAllAppend(Feed(t, a[0].c, a[0].stray), a[1..], b);
      assert (a + b)[0] == a[0] && (a + b)[1..] == a[1..] + b;
    }
  }

  lemma FeedAllOne(t: Term, i: Input)
    requires Safe(t)
    ensures FeedAll(t, [i]) == Feed(t, i.c, i.stray)
  {
    hide Feed;
    FeedSafe(t, i.c, i.stray);
    var rest := [i][1..];
    assert rest == [];
    assert FeedAll(Feed(t, i.c, i.stray), rest) == Feed(t, i.c, i.stray);
  }

  /** DECSTBM changes the region, rather than leave it as it is. */
  predicate SetsRegion(num: nat, p: Params) {
    (num == 2 && p[0] < p[1]) || p[0] == 0
  }

  /**
   After DECSTBM the region is inverted exactly when it is given a top below the screen, or was inverted
   before and is left as it is.
   */
  lemma InvertedExactly(t: Term, num: nat, p: Params)
    requires Safe(t)
    ensures Inverted(SetRegion(t, num, p)) <==>
      (num == 2 && ROWS < p[0] < p[1]) || (Inverted(t) && !SetsRegion(num, p))
  {
  }

  // ---- Saving and restoring ----

  /** What is restored besides the place of the cursor. */
  predicate SameManner(t: Term, r: Term) {
    && r.pen == t.pen && r.g0 == t.g0 && r.g1 == t.g1
    && r.eol == t.eol && r.modes.origin == t.modes.origin
  }

  /**
   Restoring after saving, whatever came in between, brings back pen, character sets, origin mode and
   pending wrap. It brings back the cursor exactly when it is there already, or when both places are in
   the scroll region: a limited move neither leaves the region nor starts outside it.
   */
  lemma RestoreReturns(t: Term, u: Term)
    requires Safe(t) && Safe(u) && u.saved == Save(t).saved
    ensures SameManner(t, Restore(u))
    ensures Restore(u).row == t.row && Restore(u).col == t.col <==>
      (u.row == t.row && u.col == t.col) || (u.top <= u.row <= u.bottom && u.top <= t.row <= u.bottom)
  {
  }

  // ---- Text stays in its region ----

  predicate InRegion(t: Term) {
    t.top <= t.row <= t.bottom
  }

  predicate SameOutside(t: Term, r: Term) {
    && r.top == t.top && r.bottom == t.bottom
    && (forall i :: 0 <= i < ROWS && !(t.top <= i <= t.bottom) ==> r.screen[i] == t.screen[i])
  }

  lemma MoveWrapConfined(t: Term, row: int, col: int)
    requires Safe(t) && InRegion(t)
    ensures var r := MoveWrap(t, row, col); InRegion(r) && SameOutside(t, r)
  {
  }

  lemma PrintCharConfined(t: Term, c: byte)
    requires Safe(t) && InRegion(t)
    ensures var r := PrintChar(t, c); InRegion(r) && SameOutside(t, r)
  {
    MoveWrapConfined(t, t.row + 1, 0);
  }

  lemma MoveLimitedConfined(t: Term, row: int, col: int)
    requires Safe(t) && InRegion(t)
    ensures var r := MoveLimited(t, row, col); InRegion(r) && SameOutside(t, r)
  {
  }

  lemma TextConfined(t: Term, c: byte)
    requires Safe(t) && InRegion(t)
    ensures var r := ProcessText(t, c); InRegion(r) && SameOutside(t, r)
  {
    match c
    case 8 => MoveWrapConfined(t, t.row, t.col - 1); MoveLimitedConfined(t, t.row, t.col - 1);
    case 10 => MoveWrapConfined(t, t.row + 1, t.col);
    case 11 => MoveWrapConfined(t, t.row + 1, t.col);
    case 12 => MoveWrapConfined(t, t.row + 1, t.col);
    case 13 => MoveWrapConfined(t, t.row, 0);
    case 9 => MoveLimitedConfined(t, t.row, NextTab(t.tabs, t.col + 1));
    case 14 =>
    case 15 =>
    case 127 =>
    case _ => if c >= 32 { PrintCharConfined(t, c); }
  }

  /** Text written from inside the scroll region never leaves it, and never touches another row. */
  lemma {:induction false} TextStaysInItsRegion(t: Term, input: seq<Input>)
    requires Safe(t) && InRegion(t) && t.parser.state == Normal
    requires forall k :: 0 <= k < |input| ==> input[k].c != ESC
    ensures var r := FeedAll(t, input); InRegion(r) && SameOutside(t, r)
    decreases |input|
  {
    if input != [] {
      var c := input[0].c;
      var u := Feed(t, c, input[0].stray);
      assert u == ProcessText(t, c);
      TextConfined(t, c);
      ProcessTextSafe(t, c);
      FeedSafe(t, c, input[0].stray);
      TextStaysInItsRegion(u, input[1..]);
    }
  }
}
