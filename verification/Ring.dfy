/**
 The byte ring between the two cores (firmware/common/frank_ring.h).

 Two views of the same code. `FrankRing` is the structure with its two calls,
 each run to completion. `RingMachine` is the same two calls cut at every load
 and store of a shared word, so that the core that fills the ring and the core
 that drains it may be interleaved in any way.
 */
module RingIndex {
  import opened Words

  /** The masks in use: 2 kB for the rings, 4 kB for the console fan-out, 256 for the key queue. */
  type Mask = m: int | m == 2047 || m == 4095 || m == 255 witness 2047

  /** `x & mask`. */
  function Masked(x: int, mask: Mask): (r: nat)
    ensures r <= mask
  {
    if mask == 2047 then x % 2048 else if mask == 4095 then x % 4096 else x % 256
  }

  /** `(head - tail) & mask` on 32-bit words. */
  function Used(head: u32, tail: u32, mask: Mask): (n: nat)
    ensures n <= mask
  {
    Masked(Sub32(head, tail), mask)
  }

  function Space(head: u32, tail: u32, mask: Mask): nat {
    mask - Used(head, tail, mask)
  }

  /** The `n` bytes from index `tail` onward, wrapping at the end of the buffer. */
  function Window(data: seq<byte>, tail: nat, n: nat, mask: Mask): (w: seq<byte>)
    requires |data| == mask + 1
    ensures |w| == n
  {
    seq(n, i requires 0 <= i < n => data[Masked(tail + i, mask)])
  }

  /** Masking an index that is at most one lap over. */
  lemma MaskOnce(x: nat, mask: Mask)
    requires x < 2 * (mask + 1)
    ensures Masked(x, mask) == if x <= mask then x else x - mask - 1
  {
  }

  /** Whole laps of any of the buffers come off by themselves. */
  lemma LapsOf2048(d: int)
    ensures (d + 0x1_0000_0000) % 2048 == d % 2048
  {
  }

  lemma LapsOf4096(d: int)
    ensures (d + 0x1_0000_0000) % 4096 == d % 4096
  {
  }

  lemma LapsOf256(d: int)
    ensures (d + 0x1_0000_0000) % 256 == d % 256
  {
  }

  /** The wrap at 2^32 is invisible through the mask. */
  lemma WordWrapIsMasked(d: int, mask: Mask)
    requires -TWO32 < d < 0
    ensures Masked(d % TWO32, mask) == Masked(d, mask)
  {
    assert d % 0x1_0000_0000 == d + 0x1_0000_0000;
    LapsOf2048(d);
    LapsOf4096(d);
    LapsOf256(d);
  }

  /** The two cases of the fill: the head has wrapped past the tail, or not. */
  lemma UsedCases(head: u32, tail: u32, mask: Mask)
    requires head <= mask && tail <= mask
    ensures Used(head, tail, mask) == if head < tail then head - tail + mask + 1 else head - tail
  {
    if head < tail {
      WordWrapIsMasked(head - tail, mask);
    }
  }

  /** Publishing `n` more bytes adds `n` to the fill. */
  lemma HeadMoves(head: u32, tail: u32, n: nat, mask: Mask)
    requires head <= mask && tail <= mask && Used(head, tail, mask) + n <= mask
    ensures Used(Masked(head + n, mask), tail, mask) == Used(head, tail, mask) + n
  {
    UsedCases(head, tail, mask);
    MaskOnce(head + n, mask);
    UsedCases(Masked(head + n, mask), tail, mask);
  }

  /** Handing back `n` slots takes `n` from the fill. */
  lemma TailMoves(head: u32, tail: u32, n: nat, mask: Mask)
    requires head <= mask && tail <= mask && n <= Used(head, tail, mask)
    ensures Used(head, Masked(tail + n, mask), mask) == Used(head, tail, mask) - n
  {
    UsedCases(head, tail, mask);
    MaskOnce(tail + n, mask);
    UsedCases(head, Masked(tail + n, mask), mask);
  }

  /** The slot the producer fills next, counted from either index. */
  lemma NextSlot(head: u32, tail: u32, i: nat, mask: Mask)
    requires head <= mask && tail <= mask && Used(head, tail, mask) + i <= mask
    ensures Masked(head + i, mask) == Masked(tail + (Used(head, tail, mask) + i), mask)
  {
    UsedCases(head, tail, mask);
    MaskOnce(head + i, mask);
    MaskOnce(tail + (Used(head, tail, mask) + i), mask);
  }

  /** A store one past the window extends it and disturbs nothing inside. */
  lemma StoreExtends(data: seq<byte>, tail: nat, n: nat, b: byte, mask: Mask)
    requires |data| == mask + 1 && tail <= mask && n <= mask
    ensures Window(data[Masked(tail + n, mask) := b], tail, n + 1, mask) == Window(data, tail, n, mask) + [b]
  {
    var w := Window(data[Masked(tail + n, mask) := b], tail, n + 1, mask);
    MaskOnce(tail + n, mask);
    forall k | 0 <= k < n
      ensures w[k] == Window(data, tail, n, mask)[k]
    {
      MaskOnce(tail + k, mask);
    }
  }

  /** Taking from the front of the window is moving the tail. */
  lemma WindowDrop(data: seq<byte>, tail: nat, n: nat, k: nat, mask: Mask)
    requires |data| == mask + 1 && tail <= mask && k <= n <= mask + 1
    ensures Window(data, Masked(tail + k, mask), n - k, mask) == Window(data, tail, n, mask)[k..]
    ensures Window(data, tail, k, mask) == Window(data, tail, n, mask)[..k]
  {
    var w := Window(data, Masked(tail + k, mask), n - k, mask);
    MaskOnce(tail + k, mask);
    forall i | 0 <= i < n - k
      ensures w[i] == Window(data, tail, n, mask)[k + i]
    {
      MaskOnce(Masked(tail + k, mask) + i, mask);
      MaskOnce(tail + (k + i), mask);
    }
  }
}

module Ring {
  import opened Words
  import opened RingIndex

  const MASK: Mask := 2047

  class FrankRing {
    var head: u32
    var tail: u32
    const data: array<byte>

    ghost predicate Valid()
      reads this
    {
      data.Length == MASK + 1 && head <= MASK && tail <= MASK
    }

    /** The published bytes not yet read, oldest first. */
    ghost function Contents(): (s: seq<byte>)
      reads this, data
      requires Valid()
    {
      Window(data[..], tail, Used(head, tail, MASK), MASK)
    }

    constructor ()
      ensures Valid() && Contents() == [] && fresh(data)
    {
      head, tail := 0, 0;
      data := new byte[MASK + 1](_ => 0);
    }

    /** Producer side: stores what fits and says how much that was. */
    method Put(src: seq<byte>) returns (n: nat)
      requires Valid()
      modifies this`head, data
      ensures Valid() && tail == old(tail)
      ensures n == Min(|src|, MASK - |old(Contents())|)
      ensures Contents() == old(Contents()) + src[..n]
    {
      ghost var was := Contents();
      ghost var used := Used(head, tail, MASK);
      var space := Space(head, tail, MASK);
      n := Min(|src|, space);
      HeadMoves(head, tail, n, MASK);
      var i := 0;
      while i < n
        invariant 0 <= i <= n && head == old(head)
        invariant Window(data[..], tail, used + i, MASK) == was + src[..i]
      {
        NextSlot(head, tail, i, MASK);
        StoreExtends(data[..], tail, used + i, src[i], MASK);
        ghost var next := data[..][Masked(head + i, MASK) := src[i]];
        data[Masked(head + i, MASK)] := src[i];
        assert data[..] == next;
        assert src[..i + 1] == src[..i] + [src[i]];
        i := i + 1;
      }
      head := Masked(head + n, MASK);
    }

    /** Consumer side: hands over up to `max` of the oldest bytes. */
    method Get(max: nat) returns (dst: seq<byte>)
      requires Valid()
      modifies this`tail
      ensures Valid() && head == old(head)
      ensures |dst| == Min(max, |old(Contents())|)
      ensures old(Contents()) == dst + Contents()
    {
      ghost var was := Contents();
      var used := Used(head, tail, MASK);
      var n := Min(max, used);
      dst := [];
      var i := 0;
      while i < n
        invariant 0 <= i <= n
        invariant dst == was[..i]
      {
        dst := dst + [data[Masked(tail + i, MASK)]];
        i := i + 1;
      }
      WindowDrop(data[..], tail, used, n, MASK);
      TailMoves(head, tail, n, MASK);
      tail := Masked(tail + n, MASK);
    }
  }
}
