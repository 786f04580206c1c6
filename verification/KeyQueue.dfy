/** Keystrokes on their way to Linux (firmware/master-ioserver/term/term_compat.c). */
module KeyQueue {
  import opened Words
  import opened RingIndex

  const SIZE := 256
  const KEY_MASK: Mask := 255

  /** The oldest keys have been taken, as many as fit, and the rest are left in order. */
  predicate IsTake(was: seq<byte>, max: nat, taken: seq<byte>, left: seq<byte>) {
    was == taken + left && |taken| <= max && (|taken| == max || left == [])
  }

  class Keys {
    const keyq: array<byte>
    var head: u32
    var tail: u32

    ghost predicate Valid()
      reads this
    {
      keyq.Length == SIZE && head < SIZE && tail < SIZE
    }

    /** The waiting keystrokes, oldest first. */
    ghost function Contents(): (s: seq<byte>)
      reads this, keyq
      requires Valid()
    {
      Window(keyq[..], tail, Used(head, tail, KEY_MASK), KEY_MASK)
    }

    constructor ()
      ensures Valid() && Contents() == [] && fresh(keyq)
    {
      head, tail := 0, 0;
      keyq := new byte[SIZE](_ => 0);
    }

    /** `serial_send_char`: a keystroke is dropped if and only if 255 are waiting. */
    method Send(c: byte)
      requires Valid()
      modifies this`head, keyq
      ensures Valid() && tail == old(tail)
      ensures Contents() == if |old(Contents())| < KEY_MASK then old(Contents()) + [c] else old(Contents())
    {
      ghost var used := Used(head, tail, KEY_MASK);
      UsedCases(head, tail, KEY_MASK);
      MaskOnce(head + 1, KEY_MASK);
      var next := (head + 1) % SIZE;
      if next == tail {
        return;
      }
      assert used < KEY_MASK;
      NextSlot(head, tail, 0, KEY_MASK);
      MaskOnce(head, KEY_MASK);
      StoreExtends(keyq[..], tail, used, c, KEY_MASK);
      HeadMoves(head, tail, 1, KEY_MASK);
      ghost var after := keyq[..][head := c];
      keyq[head] := c;
      assert keyq[..] == after;
      head := next;
    }

    /** `term_compat_take_keys`: up to `max` of the oldest keystrokes. */
    method TakeKeys(max: nat) returns (dst: seq<byte>)
      requires Valid()
      modifies this`tail
      ensures Valid() && head == old(head)
      ensures IsTake(old(Contents()), max, dst, Contents())
    {
      ghost var was := Contents();
      dst := [];
      while |dst| < max && tail != head
        invariant Valid() && head == old(head)
        invariant was == dst + Contents() && |dst| <= max
        decreases max - |dst|
      {
        Advance();
        ghost var rest := Window(keyq[..], (tail + 1) % SIZE, Used(head, (tail + 1) % SIZE, KEY_MASK), KEY_MASK);
        assert dst + ([keyq[tail]] + rest) == dst + [keyq[tail]] + rest;
        dst := dst + [keyq[tail]];
        tail := (tail + 1) % SIZE;
      }
      UsedCases(head, tail, KEY_MASK);
    }

    /** Moving the tail by one takes the first of the waiting keystrokes. */
    lemma Advance()
      requires Valid() && tail != head
      ensures Contents() ==
        [keyq[tail]] + Window(keyq[..], (tail + 1) % SIZE, Used(head, (tail + 1) % SIZE, KEY_MASK), KEY_MASK)
    {
      UsedCases(head, tail, KEY_MASK);
      MaskOnce(tail, KEY_MASK);
      TailMoves(head, tail, 1, KEY_MASK);
      WindowDrop(keyq[..], tail, Used(head, tail, KEY_MASK), 1, KEY_MASK);
    }
  }
}
