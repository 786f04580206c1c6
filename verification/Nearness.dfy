/** What the decoder's score counts, and what it makes of a glyph with noise on it (tools/screen.py). */
module Nearness {
  import opened Words
  import opened Renderer
  import opened Font
  import opened Decoder

  /** The columns, of the first `n`, in which two rows of a bitmap agree. */
  function AgreeingColumns(a: byte, b: byte, n: nat): set<nat>
    requires n <= 8
  {
    set x: nat | x < n && (Bit(a, x) <==> Bit(b, x))
  }

  /** The pixels, as row and column, in which two bitmaps agree. */
  function Agreeing(key: seq<byte>, glyph: seq<byte>): set<(nat, nat)>
    requires |key| == |glyph|
  {
    set y: nat, x: nat | y < |key| && x < 8 && (Bit(key[y], x) <==> Bit(glyph[y], x)) :: (y, x)
  }

  /** And those in which they do not. */
  function Differing(key: seq<byte>, glyph: seq<byte>): set<(nat, nat)>
    requires |key| == |glyph|
  {
    set y: nat, x: nat | y < |key| && x < 8 && !(Bit(key[y], x) <==> Bit(glyph[y], x)) :: (y, x)
  }

  lemma OneColumnMore(a: byte, b: byte, n: nat)
    requires n < 8
    ensures |AgreeingColumns(a, b, n + 1)| == |AgreeingColumns(a, b, n)| + Value(Bit(a, n) == Bit(b, n))
  {
    hide Bit;
    var s := AgreeingColumns(a, b, n);
    assert AgreeingColumns(a, b, n + 1) == if Bit(a, n) == Bit(b, n) then s + {n} else s;
  }

  lemma ColumnsAreAlike(a: byte, b: byte)
    ensures |AgreeingColumns(a, b, 8)| == Alike(a, b)
  {
    hide Bit;
    assert AgreeingColumns(a, b, 0) == {};
    OneColumnMore(a, b, 0);
    OneColumnMore(a, b, 1);
    OneColumnMore(a, b, 2);
    OneColumnMore(a, b, 3);
    OneColumnMore(a, b, 4);
    OneColumnMore(a, b, 5);
    OneColumnMore(a, b, 6);
    OneColumnMore(a, b, 7);
  }

  /** The pixels of row `y` at the columns of a set. */
  function InRow(y: nat, columns: set<nat>): set<(nat, nat)> {
    set x: nat | x in columns :: (y, x)
  }

  lemma {:induction false} InRowIsAsMany(y: nat, columns: set<nat>)
    ensures |InRow(y, columns)| == |columns|
    decreases columns
  {
    if columns == {} {
      assert InRow(y, columns) == {};
    } else {
      var x: nat :| x in columns;
      InRowIsAsMany(y, columns - {x});
      assert InRow(y, columns) == InRow(y, columns - {x}) + {(y, x)};
      assert (y, x) !in InRow(y, columns - {x});
    }
  }

  lemma OneRowMore(key: seq<byte>, glyph: seq<byte>)
    requires |key| == |glyph| > 0
    ensures var last := |key| - 1;
      |Agreeing(key, glyph)| == |Agreeing(key[..last], glyph[..last])| + Alike(key[last], glyph[last])
  {
    var last := |key| - 1;
    ColumnsAreAlike(key[last], glyph[last]);
    hide Bit, Alike;
    var before, row := Agreeing(key[..last], glyph[..last]), AgreeingColumns(key[last], glyph[last], 8);
    InRowIsAsMany(last, row);
    assert Agreeing(key, glyph) == before + InRow(last, row);
    assert before !! InRow(last, row);
  }

  /** The score is the number of pixels in which the bitmaps agree. */
  lemma {:induction false} ScoreCounts(key: seq<byte>, glyph: seq<byte>)
    requires |key| == |glyph|
    ensures Score(key, glyph) == |Agreeing(key, glyph)|
    decreases |key|
  {
    hide Bit, Alike;
    if key == [] {
      assert Agreeing(key, glyph) == {};
    } else {
      var last := |key| - 1;
      ScoreCounts(key[..last], glyph[..last]);
      OneRowMore(key, glyph);
    }
  }

  /** All the pixels of a bitmap of `n` rows. */
  function Pixels(n: nat): set<(nat, nat)> {
    set y: nat, x: nat | y < n && x < 8 :: (y, x)
  }

  lemma {:induction false} PixelsCount(n: nat)
    ensures |Pixels(n)| == 8 * n
    decreases n
  {
    if n == 0 {
      assert Pixels(0) == {};
    } else {
      PixelsCount(n - 1);
      InRowIsAsMany(n - 1, COLUMNS);
      hide Pixels, InRow;
      PixelsUnroll(n - 1);
      EightColumns();
    }
  }

  lemma EightColumns()
    ensures |COLUMNS| == 8
  {
  }

  const COLUMNS: set<nat> := {0, 1, 2, 3, 4, 5, 6, 7}

  lemma PixelsUnroll(n: nat)
    ensures |Pixels(n + 1)| == |Pixels(n)| + |InRow(n, COLUMNS)|
  {
    forall p | p in Pixels(n + 1) ensures p in Pixels(n) + InRow(n, COLUMNS) {
      assert p.1 in COLUMNS;
    }
    assert Pixels(n + 1) == Pixels(n) + InRow(n, COLUMNS);
    assert Pixels(n) !! InRow(n, COLUMNS);
  }

  /** What agrees and what differs are together all the pixels. */
  lemma ScoreIsWhatIsLeft(key: seq<byte>, glyph: seq<byte>)
    requires |key| == |glyph|
    ensures Score(key, glyph) == 8 * |key| - |Differing(key, glyph)|
  {
    hide Bit, Score;
    ScoreCounts(key, glyph);
    PixelsCount(|key|);
    assert Pixels(|key|) == Agreeing(key, glyph) + Differing(key, glyph);
    assert Agreeing(key, glyph) !! Differing(key, glyph);
  }

  lemma SameDiffersNowhere(key: seq<byte>, glyph: seq<byte>)
    requires |key| == |glyph|
    ensures key == glyph <==> |Differing(key, glyph)| == 0
  {
    ScoreIsWhatIsLeft(key, glyph);
  }

  /**
   A bitmap is taken for a glyph from which it differs in the fewest pixels, of several for the one with
   the least code; and the confidence is the share of the pixels that are right.
   */
  lemma MatchIsNearest(f: FontTable, key: seq<byte>)
    requires |key| == f.height
    ensures var (code, conf) := MatchOf(f, key);
      && code < 256
      && (forall c :: 0 <= c < 256 ==> |Differing(key, f.glyphs[code])| <= |Differing(key, f.glyphs[c])|)
      && (forall c :: 0 <= c < code ==> |Differing(key, f.glyphs[code])| < |Differing(key, f.glyphs[c])|)
      && conf == (8 * f.height - |Differing(key, f.glyphs[code])|) as real / (8 * f.height) as real
  {
    hide Bit, Score, Differing, Nearest;
    Distances(f, key);
    Whole(8 * f.height);
  }

  lemma Distances(f: FontTable, key: seq<byte>)
    requires |key| == f.height
    ensures forall c :: 0 <= c < 256 ==> Score(key, f.glyphs[c]) == 8 * f.height - |Differing(key, f.glyphs[c])|
    ensures forall c :: 0 <= c < 256 ==> (f.glyphs[c] == key <==> |Differing(key, f.glyphs[c])| == 0)
  {
    hide Score, Differing;
    forall c | 0 <= c < 256
      ensures Score(key, f.glyphs[c]) == 8 * f.height - |Differing(key, f.glyphs[c])|
      ensures f.glyphs[c] == key <==> |Differing(key, f.glyphs[c])| == 0
    {
      ScoreIsWhatIsLeft(key, f.glyphs[c]);
      SameDiffersNowhere(key, f.glyphs[c]);
    }
  }

  lemma Whole(n: nat)
    requires n > 0
    ensures n as real / n as real == 1.0
  {
  }

  /** A glyph with noise on it is read as that glyph, if every other differs more; so sure is the decoder. */
  lemma NoisyGlyphIsRead(f: FontTable, key: seq<byte>, g: nat)
    requires |key| == f.height && g < 256
    requires forall c :: 0 <= c < 256 && c != g ==> |Differing(key, f.glyphs[g])| < |Differing(key, f.glyphs[c])|
    ensures var (code, conf) := MatchOf(f, key);
      var d := |Differing(key, f.glyphs[g])|;
      code == g && conf == (8 * f.height - d) as real / (8 * f.height) as real
  {
    hide Bit, Score, Differing, MatchOf;
    MatchIsNearest(f, key);
    var (code, conf) := MatchOf(f, key);
    assert code == g;
    assert conf == (8 * f.height - |Differing(key, f.glyphs[g])|) as real / (8 * f.height) as real;
  }
}
