/** Machine words and the sequence vocabulary shared by the other modules. */
module Words {

  const TWO32 := 0x1_0000_0000

  type byte = b: int | 0 <= b < 256
  type u32 = w: int | 0 <= w < TWO32

  /** Unsigned subtraction with wrap-around. */
  function Sub32(a: u32, b: u32): u32 {
    (a - b) % TWO32
  }

  /** Unsigned addition with wrap-around. */
  function Add32(a: u32, b: u32): u32 {
    (a + b) % TWO32
  }

  function Min(a: int, b: int): int {
    if a < b then a else b
  }

  function Max(a: int, b: int): int {
    if a < b then b else a
  }

  /** `(n + 3) & ~3`: the next multiple of four. */
  function PadWord(n: nat): (r: nat)
    ensures r % 4 == 0 && n <= r < n + 4
  {
    (n + 3) / 4 * 4
  }

  // ---- Products and quotients ----

  lemma TimesMonotone(a: nat, b: nat, d: nat)
    requires a <= b
    ensures a * d <= b * d
  {
  }

  lemma TimesSuccessor(a: nat, d: nat)
    ensures (a + 1) * d == a * d + d
  {
  }

  lemma DivModUnique(q: nat, r: nat, d: nat)
    requires r < d
    ensures (q * d + r) / d == q && (q * d + r) % d == r
  {
    var x := q * d + r;
    var a, b := x / d, x % d;
    assert x == a * d + b && b < d;
    TimesSuccessor(a, d);
    TimesSuccessor(q, d);
    if a < q {
      TimesMonotone(a + 1, q, d);
    } else if q < a {
      TimesMonotone(q + 1, a, d);
    }
  }

  /** Row `row` of `rows`, column `col` of `d`, is a place among `rows * d`. */
  lemma PlaceInRange(rows: nat, d: nat, row: nat, col: nat)
    requires row < rows && col < d
    ensures 0 <= row * d + col < rows * d
  {
    TimesSuccessor(row, d);
    TimesMonotone(row + 1, rows, d);
  }

  // ---- Sequences ----

  function Zeros(n: nat): (z: seq<byte>)
    ensures |z| == n
  {
    seq(n, _ => 0)
  }

  /** The concatenation of a list of chunks. */
  function Flatten<T>(chunks: seq<seq<T>>): seq<T> {
    if chunks == [] then [] else Flatten(chunks[..|chunks| - 1]) + chunks[|chunks| - 1]
  }

  /** `at` lists positions of `s`, each at most once and in increasing order. */
  ghost predicate Positions(at: seq<nat>, n: nat) {
    && (forall i :: 0 <= i < |at| ==> at[i] < n)
    && (forall i, j :: 0 <= i < j < |at| ==> at[i] < at[j])
  }

  /** The elements of `s` at the listed positions. */
  function Select<T>(s: seq<T>, at: seq<nat>): (r: seq<T>)
    requires forall i :: 0 <= i < |at| ==> at[i] < |s|
    ensures |r| == |at|
  {
    seq(|at|, i requires 0 <= i < |at| => s[at[i]])
  }

  /** `sub` is `s` with some elements left out: order kept, nothing repeated. */
  ghost predicate IsSubsequence<T>(sub: seq<T>, s: seq<T>) {
    exists at: seq<nat> :: Positions(at, |s|) && sub == Select(s, at)
  }

  /** The integers from `lo` up to but excluding `hi`. */
  function Range(lo: nat, hi: nat): (r: seq<nat>)
    requires lo <= hi
    ensures |r| == hi - lo
  {
    seq(hi - lo, i requires 0 <= i < hi - lo => lo + i)
  }

  lemma FlattenSnoc<T>(chunks: seq<seq<T>>, c: seq<T>)
    ensures Flatten(chunks + [c]) == Flatten(chunks) + c
  {
    assert (chunks + [c])[..|chunks|] == chunks;
  }

  lemma SelectRange<T>(s: seq<T>, at: seq<nat>, lo: nat, hi: nat)
    requires forall i :: 0 <= i < |at| ==> at[i] < |s|
    requires lo <= hi <= |s|
    ensures Select(s, at + Range(lo, hi)) == Select(s, at) + s[lo..hi]
  {
  }

  lemma PrefixDrop<T>(front: seq<T>, s: seq<T>, more: seq<T>)
    requires front <= s && more <= s[|front|..]
    ensures front + more <= s
    ensures s[|front + more|..] == s[|front|..][|more|..]
  {
    assert s == front + s[|front|..];
    assert s[|front|..] == more + s[|front|..][|more|..];
  }

  /** Leaving elements out twice is leaving elements out. */
  lemma SelectTwice<T>(whole: seq<T>, at: seq<nat>, front: seq<T>, rest: seq<T>, from: seq<nat>)
    requires Positions(at, |whole|) && Select(whole, at) == front + rest && Positions(from, |front|)
    ensures IsSubsequence(Select(front, from), whole)
  {
    var both := seq(|from|, i requires 0 <= i < |from| => at[from[i]]);
    assert Positions(both, |whole|);
    forall i | 0 <= i < |from| ensures Select(front, from)[i] == Select(whole, both)[i] {
      assert Select(whole, at)[from[i]] == front[from[i]];
    }
    assert Select(front, from) == Select(whole, both);
  }
}
