/** Control sequences as they are written (ECMA-48, section 5.4), and what the parser makes of them. */
module ControlSequences {
  import opened Words
  import opened Grid
  import opened Vt
  import opened VtSafety

  // ---- Parsing a run of bytes ----

  function ParseAll(p: Parser, bytes: seq<byte>): (r: (Parser, seq<Event>))
    requires Reading(p)
    ensures Reading(r.0) && |r.1| == |bytes|
    decreases |bytes|
  {
    if bytes == [] then (p, [])
    else
      var (p1, e) := Parse(p, bytes[0]);
      var (p2, es) := ParseAll(p1, bytes[1..]);
      (p2, [e] + es)
  }

  lemma {:induction false} ParseAppend(p: Parser, a: seq<byte>, b: seq<byte>)
    requires Reading(p)
    ensures var left := ParseAll(p, a);
      var right := ParseAll(left.0, b);
      ParseAll(p, a + b).0 == right.0 && ParseAll(p, a + b).1 == left.1 + right.1
    decreases |a|
  {
    if a == [] {
      assert a + b == b;
    } else {
      var (q, e) := Parse(p, a[0]);
      ParseAppend(q, a[1..], b);
      assert (a + b)[0] == a[0] && (a + b)[1..] == a[1..] + b;
      var left := ParseAll(q, a[1..]);
      assert [e] + (left.1 + ParseAll(left.0, b).1) == ([e] + left.1) + ParseAll(left.0, b).1;
    }
  }

  lemma ParseOne(p: Parser, c: byte)
    requires Reading(p)
    ensures ParseAll(p, [c]).0 == Parse(p, c).0 && ParseAll(p, [c]).1 == [Parse(p, c).1]
  {
    var rest := [c][1..];
    assert rest == [];
    assert ParseAll(Parse(p, c).0, rest) == (Parse(p, c).0, []);
  }

  /** Wherever a broken sequence has left the parser, a letter ends it; only `[` can also open one. */
  lemma LetterEnds(p: Parser, c: byte)
    requires Reading(p) && 0x40 <= c <= 0x7E
    ensures Parse(p, c).0.state == Normal <==> !(p.state == WaitBracket && c == 0x5B)
  {
  }

  // ---- Writing a control sequence ----

  function Decimal(v: byte): (s: seq<byte>)
    ensures 1 <= |s|
  {
    if v < 10 then [48 + v] else Decimal(v / 10) + [48 + v % 10]
  }

  /** One parameter; `terse` leaves a zero out. */
  function Argument(v: byte, terse: bool): seq<byte> {
    if terse && v == 0 then [] else Decimal(v)
  }

  function Arguments(args: seq<byte>, terse: bool, i: nat): seq<byte>
    requires i < |args|
    decreases |args| - i
  {
    Argument(args[i], terse) + if i + 1 < |args| then [SEMICOLON] + Arguments(args, terse, i + 1) else []
  }

  function Sequence(question: bool, args: seq<byte>, terse: bool, final: byte): seq<byte>
    requires 1 <= |args|
  {
    [ESC, 91] + (if question then [QUESTION] else []) + Arguments(args, terse, 0) + [final]
  }

  function Silence(n: nat): seq<Event> {
    seq(n, _ => Nothing)
  }

  // ---- The round trip ----

  predicate InArguments(p: Parser) {
    (p.state == StartChar || p.state == ReadParam) && 1 <= p.num <= 16
  }

  /** A number's digits, one by one, leave the number. */
  lemma {:induction false} ParseDecimal(p: Parser, v: byte)
    requires InArguments(p) && p.params[p.num - 1] == 0
    ensures var (q, es) := ParseAll(p, Decimal(v));
      q == p.(state := ReadParam, params := p.params[p.num - 1 := v]) && es == Silence(|Decimal(v)|)
    decreases v
  {
    var i := p.num - 1;
    if v < 10 {
      ParseOne(p, 48 + v);
    } else {
      ParseDecimal(p, v / 10);
      ParseAppend(p, Decimal(v / 10), [48 + v % 10]);
      var q := p.(state := ReadParam, params := p.params[i := v / 10]);
      assert Parse(q, 48 + v % 10) == (q.(params := q.params[i := v]), Nothing);
      ParseOne(q, 48 + v % 10);
      assert q.params[i := v] == p.params[i := v];
    }
  }

  lemma ParseArgument(p: Parser, v: byte, terse: bool)
    requires InArguments(p) && p.params[p.num - 1] == 0
    ensures var (q, es) := ParseAll(p, Argument(v, terse));
      && InArguments(q) && q == p.(state := q.state, params := p.params[p.num - 1 := v])
      && es == Silence(|Argument(v, terse)|)
  {
    if terse && v == 0 {
      assert p.params[p.num - 1 := 0] == p.params;
    } else {
      ParseDecimal(p, v);
    }
  }

  /** All arguments from the `i`th on. */
  lemma {:induction false} ParseArguments(p: Parser, args: seq<byte>, terse: bool, i: nat)
    requires i < |args| <= 16
    requires InArguments(p) && p.num == i + 1 && p.params[i] == 0 && p.params[..i] == args[..i]
    ensures var (q, es) := ParseAll(p, Arguments(args, terse, i));
      && InArguments(q) && q.start == p.start && q.num == |args| && q.params[..|args|] == args
      && es == Silence(|Arguments(args, terse, i)|)
    decreases |args| - i
  {
    ParseArgument(p, args[i], terse);
    var q := ParseAll(p, Argument(args[i], terse)).0;
    assert q.params[..i + 1] == args[..i + 1];
    if i + 1 < |args| {
      var next := q.(state := ReadParam, num := i + 2, params := q.params[i + 1 := 0]);
      var rest := Arguments(args, terse, i + 1);
      assert Parse(q, SEMICOLON) == (next, Nothing);
      assert next.params[..i + 1] == args[..i + 1];
      ParseArguments(next, args, terse, i + 1);
      assert ([SEMICOLON] + rest)[1..] == rest;
      ParseAppend(p, Argument(args[i], terse), [SEMICOLON] + rest);
    } else {
      ParseAppend(p, Argument(args[i], terse), []);
      assert args[..i + 1] == args;
    }
  }

  /**
   * Any control sequence of 1 to 16 parameters, written out and parsed, asks for its command
   * once, at its last byte, with those parameters; nothing comes before. Zeros may be left out.
   */
  lemma {:induction false} RoundTrip(p: Parser, question: bool, args: seq<byte>, terse: bool, final: byte)
    requires p.state == Normal && 1 <= |args| <= 16 && 0x40 <= final <= 0x7E
    ensures var s := Sequence(question, args, terse, final);
      var (q, es) := ParseAll(p, s);
      && q.state == Normal
      && q.params[..|args|] == args
      && es == Silence(|s| - 1) + [Command(if question then QUESTION else 0, final, args, q.params)]
  {
    var head := [ESC, 91] + if question then [QUESTION] else [];
    var start: byte := if question then QUESTION else 0;
    var ready := p.(state := if question then ReadParam else StartChar,
      start := start, num := 1, params := p.params[0 := 0]);
    Opening(p, question);
    ParseArguments(ready, args, terse, 0);
    var body := Arguments(args, terse, 0);
    ParseAppend(p, head, body);
    ParseAppend(p, head + body, [final]);
    assert Sequence(question, args, terse, final) == (head + body) + [final];
    var q := ParseAll(p, head + body).0;
    ParseOne(q, final);
  }

  lemma Opening(p: Parser, question: bool)
    requires p.state == Normal
    ensures var head := [ESC, 91] + if question then [QUESTION] else [];
      var (q, es) := ParseAll(p, head);
      && q == p.(state := if question then ReadParam else StartChar,
           start := if question then QUESTION else 0, num := 1, params := p.params[0 := 0])
      && es == Silence(|head|)
  {
    var p1 := Parse(p, ESC).0;
    var p2 := Parse(p1, 91).0;
    assert [ESC, 91] == [ESC] + [91];
    ParseAppend(p, [ESC], [91]);
    ParseOne(p, ESC);
    ParseOne(p1, 91);
    if question {
      ParseAppend(p, [ESC, 91], [QUESTION]);
      ParseOne(p2, QUESTION);
    } else {
      assert [ESC, 91] + [] == [ESC, 91];
    }
  }

  // ---- Cursor controls inside a sequence ----

  /** The bytes without BS, LF and CR. */
  function Plain(bytes: seq<byte>): seq<byte> {
    if bytes == [] then []
    else (if IsInner(bytes[0]) then [] else [bytes[0]]) + Plain(bytes[1..])
  }

  /** What was asked for beside writing those three. */
  function Asked(es: seq<Event>): seq<Event> {
    if es == [] then []
    else (if es[0].Text? && IsInner(es[0].c) then [] else [es[0]]) + Asked(es[1..])
  }

  /** The cursor controls that were carried out. */
  function Moved(es: seq<Event>): seq<byte> {
    if es == [] then []
    else (if es[0].Text? && IsInner(es[0].c) then [es[0].c] else []) + Moved(es[1..])
  }

  function InnerOf(bytes: seq<byte>): seq<byte> {
    if bytes == [] then []
    else (if IsInner(bytes[0]) then [bytes[0]] else []) + InnerOf(bytes[1..])
  }

  /**
   * BS, LF and CR may come anywhere, inside a sequence or out of it: each is carried out, in
   * order, and every other request is the one that would have been made without them.
   */
  lemma {:induction false} InnerControlsAreTransparent(p: Parser, bytes: seq<byte>)
    requires Reading(p)
    ensures ParseAll(p, bytes).0 == ParseAll(p, Plain(bytes)).0
    ensures Asked(ParseAll(p, bytes).1) == ParseAll(p, Plain(bytes)).1
    ensures Moved(ParseAll(p, bytes).1) == InnerOf(bytes)
    decreases |bytes|
  {
    if bytes != [] {
      var (q, e) := Parse(p, bytes[0]);
      InnerControlsAreTransparent(q, bytes[1..]);
      var es := ParseAll(q, bytes[1..]).1;
      assert ([e] + es)[1..] == es;
      if IsInner(bytes[0]) {
        assert q == p && e == Text(bytes[0]);
        assert Plain(bytes) == Plain(bytes[1..]);
      } else {
        assert Plain(bytes) == [bytes[0]] + Plain(bytes[1..]);
        assert ([bytes[0]] + Plain(bytes[1..]))[1..] == Plain(bytes[1..]);
      }
    }
  }

  // ---- The terminal ----

  function Bytes(input: seq<Input>): (r: seq<byte>)
    ensures |r| == |input|
  {
    seq(|input|, k requires 0 <= k < |input| => input[k].c)
  }

  /** Bytes that ask for nothing change nothing but the parser. */
  lemma {:induction false} SilentBytes(t: Term, input: seq<Input>)
    requires Safe(t) && !t.modes.vt52
    requires ParseAll(t.parser, Bytes(input)).1 == Silence(|input|)
    ensures FeedAll(t, input) == t.(parser := ParseAll(t.parser, Bytes(input)).0)
    decreases |input|
  {
    if input != [] {
      var b := Bytes(input);
      var (q, e) := Parse(t.parser, b[0]);
      var es := ParseAll(q, b[1..]).1;
      assert b[1..] == Bytes(input[1..]);
      assert ([e] + es)[0] == Nothing && ([e] + es)[1..] == es;
      assert Silence(|input|)[1..] == Silence(|input| - 1);
      FeedSafe(t, input[0].c, input[0].stray);
      assert Feed(t, input[0].c, input[0].stray) == t.(parser := q);
      SilentBytes(t.(parser := q), input[1..]);
    }
  }

  /** The events of a control sequence, split before its last byte. */
  lemma SplitLast(p: Parser, question: bool, args: seq<byte>, terse: bool, final: byte, bytes: seq<byte>)
    requires p.state == Normal && 1 <= |args| <= 16 && 0x40 <= final <= 0x7E
    requires bytes == Sequence(question, args, terse, final)
    ensures var n := |bytes| - 1;
      var (q, es) := ParseAll(p, bytes[..n]);
      && es == Silence(n)
      && bytes[n] == final
      && Parse(q, final).0 == ParseAll(p, bytes).0
      && Parse(q, final).1 ==
           Command(if question then QUESTION else 0, final, args, ParseAll(p, bytes).0.params)
  {
    RoundTrip(p, question, args, terse, final);
    var n := |bytes| - 1;
    assert bytes == bytes[..n] + [final];
    ParseAppend(p, bytes[..n], [final]);
    var (q, es) := ParseAll(p, bytes[..n]);
    ParseOne(q, final);
    var whole := ParseAll(p, bytes).1;
    assert es == whole[..n] == Silence(n);
    assert Parse(q, final).1 == whole[n];
  }

  lemma Dispatch(t: Term, q: Parser, last: Input, start: byte, args: seq<byte>)
    requires Reading(q) && !t.modes.vt52 && |args| <= 16
    requires var (r, e) := Parse(q, last.c); e == Command(start, last.c, args, r.params)
    ensures var r := Parse(q, last.c).0;
      Feed(t.(parser := q), last.c, last.stray) ==
        Execute(t.(parser := r), start, FinalOf(last.c), |args|, r.params, last.stray)
  {
  }

  lemma FrontThenLast(t: Term, input: seq<Input>)
    requires Safe(t) && !t.modes.vt52 && |input| > 0
    requires ParseAll(t.parser, Bytes(input)[..|input| - 1]).1 == Silence(|input| - 1)
    ensures var q := ParseAll(t.parser, Bytes(input)[..|input| - 1]).0;
      var last := input[|input| - 1];
      FeedAll(t, input) == Feed(t.(parser := q), last.c, last.stray)
  {
    hide Feed, FeedAll, ParseAll;
    var n := |input| - 1;
    var front, last := input[..n], input[n];
    assert Bytes(input)[..n] == Bytes(front);
    SilentBytes(t, front);
    assert input == front + [last];
    FeedAllAppend(t, front, [last]);
    FeedAllOne(FeedAll(t, front), last);
  }

  /** Sent to the terminal, a control sequence carries out its command once, and that is all it does. */
  lemma SequenceRunsOnce(t: Term, question: bool, args: seq<byte>, terse: bool, final: byte, input: seq<Input>)
    requires Safe(t) && !t.modes.vt52 && t.parser.state == Normal
    requires 1 <= |args| <= 16 && 0x40 <= final <= 0x7E
    requires Bytes(input) == Sequence(question, args, terse, final)
    ensures var q := ParseAll(t.parser, Bytes(input)).0;
      && q.state == Normal && q.params[..|args|] == args
      && FeedAll(t, input) == Execute(t.(parser := q), if question then QUESTION else 0,
           FinalOf(final), |args|, q.params, input[|input| - 1].stray)
  {
    var n := |input| - 1;
    RoundTrip(t.parser, question, args, terse, final);
    SplitLast(t.parser, question, args, terse, final, Bytes(input));
    FrontThenLast(t, input);
    var q := ParseAll(t.parser, Bytes(input)[..n]).0;
    Dispatch(t, q, input[n], if question then QUESTION else 0, args);
  }

  /** Which DECSTBM sequences leave the terminal with an inverted region. */
  lemma RegionSequence(t: Term, args: seq<byte>, terse: bool, input: seq<Input>)
    requires Safe(t) && !t.modes.vt52 && t.parser.state == Normal
    requires 1 <= |args| <= 16 && Bytes(input) == Sequence(false, args, terse, 114)
    ensures Inverted(FeedAll(t, input)) <==>
      || (|args| == 2 && ROWS < args[0] < args[1])
      || (Inverted(t) && args[0] != 0 && !(|args| == 2 && args[0] < args[1]))
  {
    SequenceRunsOnce(t, false, args, terse, 114, input);
    var q := ParseAll(t.parser, Bytes(input)).0;
    var u := t.(parser := q);
    assert Safe(u);
    assert FeedAll(t, input) == SetRegion(u, |args|, q.params);
    InvertedExactly(u, |args|, q.params);
    assert q.params[0] == q.params[..|args|][0];
    if |args| == 2 {
      assert q.params[1] == q.params[..|args|][1];
    }
  }
}
