/** How much PSRAM there is, found by writing where it would alias (afboot-rp2350/src/main.c). */
module Psram {
  import opened Words

  const MARKER: u32 := 0x5AA51234
  const SMALLEST := 1024
  const LARGEST := 16777216

  /** `~marker`. */
  const UNMARKED: u32 := 0xFFFF_FFFF - MARKER

  function Pow2(n: nat): (p: nat)
    ensures p > 0
  {
    if n == 0 then 1 else 2 * Pow2(n - 1)
  }

  lemma {:induction false} Pow2Adds(a: nat, b: nat)
    ensures Pow2(a + b) == Pow2(a) * Pow2(b)
  {
    if a > 0 {
      Pow2Adds(a - 1, b);
      assert Pow2(a) * Pow2(b) == 2 * (Pow2(a - 1) * Pow2(b));
    }
  }

  lemma Pow2Divides(a: nat, b: nat)
    requires a >= b
    ensures Pow2(a) % Pow2(b) == 0
  {
    Pow2Adds(a - b, b);
    DivModUnique(Pow2(a - b), 0, Pow2(b));
  }

  lemma {:induction false} Pow2Grows(a: nat, b: nat)
    requires a < b
    ensures Pow2(a) < Pow2(b)
    decreases b
  {
    if a < b - 1 {
      Pow2Grows(a, b - 1);
    }
  }

  /** `size` bytes on is the first byte again: the chip has `words` words and wraps round. */
  predicate Aliases(words: nat, size: nat)
    requires words > 0
  {
    size / 4 % words == 0
  }

  /** What the doubling loop comes to from `size` on. */
  function Found(words: nat, size: nat): (s: nat)
    requires words > 0 && size > 0
    decreases LARGEST - size
  {
    if size > LARGEST then LARGEST else if Aliases(words, size) then size else Found(words, 2 * size)
  }

  function Clamp(bytes: nat): nat {
    Min(Max(bytes, SMALLEST), LARGEST)
  }

  lemma Ladder()
    ensures Pow2(10) == SMALLEST && Pow2(24) == LARGEST && Pow2(25) == 2 * LARGEST
  {
    assert Pow2(5) == 32;
    assert Pow2(10) == 1024;
    assert Pow2(15) == 32768;
    assert Pow2(20) == 1048576;
  }

  /** A chip of `2^k` bytes comes round at `2^j` exactly when it is no larger. */
  lemma AliasesFrom(k: nat, j: nat)
    requires 2 <= k && 2 <= j
    ensures Aliases(Pow2(k - 2), Pow2(j)) <==> k <= j
  {
    assert Pow2(j) == 2 * Pow2(j - 1) == 4 * Pow2(j - 2);
    assert Pow2(j) / 4 == Pow2(j - 2);
    hide Pow2;
    if k <= j {
      Pow2Divides(j - 2, k - 2);
    } else {
      Pow2Grows(j - 2, k - 2);
      SmallRemainder(Pow2(j - 2), Pow2(k - 2));
    }
  }

  lemma SmallRemainder(a: nat, d: nat)
    requires a < d
    ensures a % d == a
  {
  }

  lemma {:induction false} FoundFrom(k: nat, j: nat)
    requires 2 <= k && 10 <= j <= 25
    ensures Found(Pow2(k - 2), Pow2(j)) == Min(Pow2(if k < j then j else k), LARGEST)
    decreases 25 - j
  {
    Ladder();
    AliasesFrom(k, j);
    if j == 25 {
      if k > 25 {
        Pow2Grows(25, k);
      }
    } else {
      if j < 24 {
        Pow2Grows(j, 24);
      }
      if k > j {
        FoundFrom(k, j + 1);
      }
    }
  }

  /** On a chip of `2^k` bytes the probe's answer is its size, between 1 KiB and 16 MiB. */
  lemma ProbeFindsTheSize(k: nat)
    requires 2 <= k
    ensures Found(Pow2(k - 2), SMALLEST) == Clamp(Pow2(k))
  {
    Ladder();
    FoundFrom(k, 10);
    if k < 10 {
      Pow2Grows(k, 10);
    } else if k > 10 {
      Pow2Grows(10, k);
    }
  }

  /** What answers at the PSRAM's address: a chip of so many words, or nothing but a floating bus. */
  class Memory {
    const cells: array<u32>
    const floating: u32

    constructor (words: nat, floating: u32)
      ensures cells.Length == words && this.floating == floating && fresh(cells)
    {
      cells := new u32[words](_ => 0);
      this.floating := floating;
    }

    function Load(word: nat): u32
      reads cells
    {
      if cells.Length == 0 then floating else cells[word % cells.Length]
    }

    method Store(word: nat, value: u32)
      modifies cells
      ensures cells[..] == if cells.Length == 0 then [] else old(cells[..])[word % cells.Length := value]
    {
      if cells.Length != 0 {
        cells[word % cells.Length] := value;
      }
    }

    /** One rung of the ladder: does this size come round to word 0? Whatever was there is put back. */
    method ProbeAt(size: nat) returns (aliased: bool)
      requires cells.Length > 0 ==> cells[0] == MARKER
      modifies cells
      ensures cells[..] == old(cells[..])
      ensures aliased <==> if cells.Length == 0 then floating != MARKER else Aliases(cells.Length, size)
    {
      ghost var was := cells[..];
      var word := size / 4;
      var saved := Load(word);
      Store(word, UNMARKED);
      aliased := Load(0) != MARKER;
      Store(word, saved);
      assert cells[..] == was;
      Store(0, MARKER);
      assert cells[..] == was;
    }

    /** `psram_probe_bytes`. */
    method Probe() returns (size: nat)
      modifies cells
      ensures cells.Length > 0 ==> size == Found(cells.Length, SMALLEST)
      ensures cells.Length > 0 ==> cells[..] == old(cells[..])[0 := MARKER]
      ensures cells.Length == 0 ==> size == if floating == MARKER then LARGEST else 0
    {
      Store(0, MARKER);
      if Load(0) != MARKER {
        return 0;
      }
      ghost var was := cells[..];
      size := SMALLEST;
      while size <= LARGEST
        invariant size > 0 && cells[..] == was
        invariant cells.Length > 0 ==> Found(cells.Length, size) == Found(cells.Length, SMALLEST)
        decreases LARGEST - size
      {
        var aliased := ProbeAt(size);
        if aliased {
          return;
        }
        size := 2 * size;
      }
      return LARGEST;
    }
  }
}
