/**
 The console fan-out of core 1 (firmware/common/core1_usb.c): one stream taken
 out of the ring once, read by two consumers that come and go.
 */
module FanSpec {
  import opened Words

  const MASK := 4095
  const BURST := 64

  datatype Reader = Usb | Link

  /**
   What the masked indices stand for. `log` is every byte ever taken out of the
   ring; each reader has a position in it and the list of positions it was given.
   */
  datatype Fan = Fan(log: seq<byte>, usbPos: nat, linkPos: nat, usbGot: seq<nat>, linkGot: seq<nat>)
  {
    function Pos(r: Reader): nat {
      if r.Usb? then usbPos else linkPos
    }

    function Got(r: Reader): seq<nat> {
      if r.Usb? then usbGot else linkGot
    }
  }

  datatype Event =
    | Fill(usbUp: bool, linkUp: bool, ring: seq<byte>)   // `ring` is what could be read at that moment
    | Take(reader: Reader, max: nat)

  const EMPTY := Fan([], 0, 0, [], [])

  ghost predicate Inv(f: Fan) {
    && f.usbPos <= |f.log| <= f.usbPos + MASK
    && f.linkPos <= |f.log| <= f.linkPos + MASK
    && Positions(f.usbGot, f.usbPos)
    && Positions(f.linkGot, f.linkPos)
  }

  /** Absent readers are moved up to the present; with no reader at all nothing moves. */
  function Snap(f: Fan, usbUp: bool, linkUp: bool): Fan {
    f.(usbPos := if usbUp then f.usbPos else |f.log|, linkPos := if linkUp then f.linkPos else |f.log|)
  }

  /** How many bytes one fill may take: bounded by the slowest reader that is there. */
  function Room(f: Fan, usbUp: bool, linkUp: bool): int {
    if !usbUp && !linkUp then 0
    else Min(BURST, MASK - Max(if usbUp then |f.log| - f.usbPos else 0,
                               if linkUp then |f.log| - f.linkPos else 0))
  }

  function AfterFill(f: Fan, usbUp: bool, linkUp: bool, bytes: seq<byte>): Fan {
    if !usbUp && !linkUp then f else Snap(f, usbUp, linkUp).(log := f.log + bytes)
  }

  function Taken(f: Fan, r: Reader, max: nat): seq<byte>
    requires f.Pos(r) <= |f.log|
  {
    f.log[f.Pos(r)..f.Pos(r) + Min(max, |f.log| - f.Pos(r))]
  }

  function AfterTake(f: Fan, r: Reader, max: nat): Fan
    requires f.Pos(r) <= |f.log|
  {
    var p := f.Pos(r);
    var n := Min(max, |f.log| - p);
    if r.Usb?
    then f.(usbPos := p + n, usbGot := f.usbGot + Range(p, p + n))
    else f.(linkPos := p + n, linkGot := f.linkGot + Range(p, p + n))
  }

  function After(f: Fan, e: Event): Fan
    requires f.usbPos <= |f.log| && f.linkPos <= |f.log|
  {
    match e
    case Fill(u, l, ring) => AfterFill(f, u, l, ring[..Max(0, Min(Room(f, u, l), |ring|))])
    case Take(r, max) => AfterTake(f, r, max)
  }

  lemma AppendRange(at: seq<nat>, lo: nat, hi: nat)
    requires Positions(at, lo) && lo <= hi
    ensures Positions(at + Range(lo, hi), hi)
  {
  }

  lemma AfterKeepsInv(f: Fan, e: Event)
    requires Inv(f)
    ensures Inv(After(f, e))
  {
    if e.Take? {
      var p := f.Pos(e.reader);
      AppendRange(f.Got(e.reader), p, p + Min(e.max, |f.log| - p));
    }
  }

  /** This reader is there, and as far behind as the buffer allows. */
  predicate HoldsBack(f: Fan, r: Reader, there: bool) {
    there && |f.log| - f.Pos(r) == 4095
  }

  /**
   A fill is as large as it may be: the front of the ring goes to the log, and that is 64 bytes, or the
   whole ring, or all that some reader who is there lets through; never more than 64.
   */
  lemma FillIsLargest(f: Fan, usbUp: bool, linkUp: bool, ring: seq<byte>)
    requires Inv(f) && (usbUp || linkUp)
    ensures var g := After(f, Fill(usbUp, linkUp, ring));
      var n := |g.log| - |f.log|;
      && 0 <= n <= 64 && n <= |ring| && g.log == f.log + ring[..n]
      && (n == 64 || n == |ring| || HoldsBack(g, Usb, usbUp) || HoldsBack(g, Link, linkUp))
      && (usbUp ==> g.usbPos == f.usbPos) && (linkUp ==> g.linkPos == f.linkPos)
      && g.usbGot == f.usbGot && g.linkGot == f.linkGot
  {
  }

  /** A take hands over as much as is asked for, or all there is, from where the reader is on. */
  lemma TakeIsLargest(f: Fan, r: Reader, max: nat)
    requires Inv(f)
    ensures var taken, g := Taken(f, r, max), After(f, Take(r, max));
      && taken <= f.log[f.Pos(r)..] && g.log == f.log && g.Pos(r) == f.Pos(r) + |taken|
      && |taken| <= max && (|taken| == max || g.Pos(r) == |g.log|)
      && (r.Usb? ==> g.linkPos == f.linkPos) && (r.Link? ==> g.usbPos == f.usbPos)
  {
  }

  // ---- Runs ----

  ghost function Run(f: Fan, events: seq<Event>): Fan
    requires Inv(f)
    decreases |events|
  {
    if events == [] then f
    else
      AfterKeepsInv(f, events[0]);
      Run(After(f, events[0]), events[1..])
  }

  /** A fill for the other reader alone: it takes bytes that this one will never see. */
  predicate LeavesOut(e: Event, r: Reader) {
    e.Fill? && if r.Usb? then e.linkUp && !e.usbUp else e.usbUp && !e.linkUp
  }

  /** The reader is there at every fill that moves anything. */
  predicate PresentThroughout(events: seq<Event>, r: Reader) {
    forall i :: 0 <= i < |events| ==> !LeavesOut(events[i], r)
  }

  /** The bytes a reader has been given, in the order it was given them. */
  ghost function Output(f: Fan, r: Reader): seq<byte>
    requires Inv(f)
  {
    if r.Usb? then Select(f.log, f.usbGot) else Select(f.log, f.linkGot)
  }

  lemma FillIsSilent(f: Fan, usbUp: bool, linkUp: bool, bytes: seq<byte>, r: Reader)
    requires Inv(f) && Inv(AfterFill(f, usbUp, linkUp, bytes))
    ensures Output(AfterFill(f, usbUp, linkUp, bytes), r) == Output(f, r)
  {
    assert Select(AfterFill(f, usbUp, linkUp, bytes).log, f.Got(r)) == Select(f.log, f.Got(r));
  }

  /** What a take hands over is exactly what it adds to the reader's output; a fill adds nothing. */
  lemma TakeIsOutput(f: Fan, e: Event, r: Reader)
    requires Inv(f)
    ensures Inv(After(f, e))
    ensures Output(After(f, e), r) ==
      Output(f, r) + (if e.Take? && e.reader == r then Taken(f, r, e.max) else [])
  {
    AfterKeepsInv(f, e);
    match e
    case Fill(u, l, ring) => FillIsSilent(f, u, l, ring[..Max(0, Min(Room(f, u, l), |ring|))], r);
    case Take(reader, max) => TakeAdds(f, reader, max, r);
  }

  lemma TakeAdds(f: Fan, reader: Reader, max: nat, r: Reader)
    requires Inv(f) && Inv(AfterTake(f, reader, max))
    requires forall k :: 0 <= k < |f.Got(r)| ==> f.Got(r)[k] < |f.log|
    ensures Output(AfterTake(f, reader, max), r) ==
      Output(f, r) + (if reader == r then Taken(f, r, max) else [])
  {
    hide Positions;
    if r == reader {
      var p := f.Pos(r);
      SelectRange(f.log, f.Got(r), p, p + Min(max, |f.log| - p));
    }
  }

  lemma {:induction false} RunGrows(f: Fan, events: seq<Event>)
    requires Inv(f)
    ensures Inv(Run(f, events)) && f.log <= Run(f, events).log
    decreases |events|
  {
    if events != [] {
      AfterKeepsInv(f, events[0]);
      RunGrows(After(f, events[0]), events[1..]);
    }
  }

  /**
   Whatever the pattern of arrivals and departures, a reader's output is the ring
   stream with bytes left out: in order, nothing twice, nothing invented. And no
   reader is ever more than 4095 bytes behind, so no byte it still has to read
   has been overwritten.
   */
  lemma OutputIsSubsequence(events: seq<Event>, r: Reader)
    ensures var e := Run(EMPTY, events);
      && Inv(e)
      && IsSubsequence(Output(e, r), e.log)
      && |e.log| - e.Pos(r) <= MASK
  {
    RunGrows(EMPTY, events);
    var e := Run(EMPTY, events);
    assert Positions(e.Got(r), |e.log|) && Output(e, r) == Select(e.log, e.Got(r));
  }

  /** One event, and a reader that is there has been given just the bytes it has passed. */
  lemma PresentStep(f: Fan, e: Event, r: Reader)
    requires Inv(f) && !LeavesOut(e, r)
    ensures var g := After(f, e);
      f.Pos(r) <= g.Pos(r) <= |g.log| && g.Got(r) == f.Got(r) + Range(f.Pos(r), g.Pos(r))
  {
  }

  lemma RangesMeet(lo: nat, mid: nat, hi: nat)
    requires lo <= mid <= hi
    ensures Range(lo, mid) + Range(mid, hi) == Range(lo, hi)
  {
  }

  /**
   A reader that is there at every fill of an interval at which any reader is, is given every byte,
   once. Fills that find nobody, like those of a boot, do no harm.
   */
  lemma {:induction false} PresentMissesNothing(f: Fan, events: seq<Event>, r: Reader)
    requires Inv(f) && PresentThroughout(events, r)
    ensures var e := Run(f, events);
      && f.Pos(r) <= e.Pos(r) <= |e.log|
      && e.Got(r) == f.Got(r) + Range(f.Pos(r), e.Pos(r))
    decreases |events|
  {
    if events != [] {
      AfterKeepsInv(f, events[0]);
      var g := After(f, events[0]);
      PresentStep(f, events[0], r);
      hide After, Positions;
      PresentMissesNothing(g, events[1..], r);
      RangesMeet(f.Pos(r), g.Pos(r), Run(g, events[1..]).Pos(r));
    }
  }

  /** From power-up, a reader that is never left out has been given a prefix of the stream. */
  lemma PresentOutputIsPrefix(events: seq<Event>, r: Reader)
    requires PresentThroughout(events, r)
    ensures var e := Run(EMPTY, events);
      Inv(e) && Output(e, r) == e.log[..e.Pos(r)]
  {
    RunGrows(EMPTY, events);
    PresentMissesNothing(EMPTY, events, r);
  }

  /** With neither reader there, a run of fills changes nothing and drains nothing. */
  lemma {:induction false} NobodyThereHolds(f: Fan, events: seq<Event>)
    requires Inv(f)
    requires forall i :: 0 <= i < |events| ==> events[i].Fill? && !events[i].usbUp && !events[i].linkUp
    ensures Run(f, events) == f
    decreases |events|
  {
    if events != [] {
      assert After(f, events[0]) == f;
      NobodyThereHolds(f, events[1..]);
    }
  }
}

module FanOut {
  import opened Words
  import opened RingIndex
  import Ring
  import opened FanSpec

  const FAN_MASK: Mask := FanSpec.MASK

  /** Read from `tail` up to `head`, the buffer yields exactly `unread`. */
  ghost predicate Holds(data: seq<byte>, head: u32, tail: u32, unread: seq<byte>)
    requires |data| == FAN_MASK + 1
  {
    && head <= FAN_MASK && tail <= FAN_MASK
    && Used(head, tail, FAN_MASK) == |unread|
    && Window(data, tail, |unread|, FAN_MASK) == unread
  }

  lemma HoldsNothing(data: seq<byte>, head: u32)
    requires |data| == FAN_MASK + 1 && head <= FAN_MASK
    ensures Holds(data, head, head, [])
  {
    UsedCases(head, head, FAN_MASK);
  }

  lemma HoldsAfterTake(data: seq<byte>, head: u32, tail: u32, unread: seq<byte>, n: nat)
    requires |data| == FAN_MASK + 1 && Holds(data, head, tail, unread) && n <= |unread|
    ensures Holds(data, head, Masked(tail + n, FAN_MASK), unread[n..])
    ensures Window(data, tail, n, FAN_MASK) == unread[..n]
  {
    TailMoves(head, tail, n, FAN_MASK);
    WindowDrop(data, tail, |unread|, n, FAN_MASK);
  }

  /** The buffer after `bytes` have been stored one by one from `head` on. */
  function StoreAll(data: seq<byte>, head: u32, bytes: seq<byte>): (r: seq<byte>)
    requires |data| == FAN_MASK + 1
    ensures |r| == |data|
  {
    if bytes == [] then data
    else
      var n := |bytes| - 1;
      StoreAll(data, head, bytes[..n])[Masked(head + n, FAN_MASK) := bytes[n]]
  }

  lemma {:induction false} StoreAllExtends(data: seq<byte>, head: u32, tail: u32, unread: seq<byte>, bytes: seq<byte>)
    requires |data| == FAN_MASK + 1 && Holds(data, head, tail, unread) && |unread| + |bytes| <= FAN_MASK
    ensures Window(StoreAll(data, head, bytes), tail, |unread| + |bytes|, FAN_MASK) == unread + bytes
    decreases |bytes|
  {
    if bytes != [] {
      var n := |bytes| - 1;
      StoreAllExtends(data, head, tail, unread, bytes[..n]);
      NextSlot(head, tail, n, FAN_MASK);
      StoreExtends(StoreAll(data, head, bytes[..n]), tail, |unread| + n, bytes[n], FAN_MASK);
      assert bytes == bytes[..n] + [bytes[n]];
    }
  }

  lemma HoldsAfterAppend(data: seq<byte>, head: u32, tail: u32, unread: seq<byte>, bytes: seq<byte>)
    requires |data| == FAN_MASK + 1 && Holds(data, head, tail, unread) && |unread| + |bytes| <= FAN_MASK
    ensures Holds(StoreAll(data, head, bytes), Masked(head + |bytes|, FAN_MASK), tail, unread + bytes)
  {
    StoreAllExtends(data, head, tail, unread, bytes);
    HeadMoves(head, tail, |bytes|, FAN_MASK);
  }

  /** A fill moves what there is room for from the ring to the log, and nothing else. */
  lemma FillTakes(f: Fan, usbUp: bool, linkUp: bool, waiting: seq<byte>, room: nat)
    requires Inv(f) && (usbUp || linkUp) && room == Room(f, usbUp, linkUp)
    ensures var n := Min(room, |waiting|);
      && After(f, FanSpec.Fill(usbUp, linkUp, waiting)) == Snap(f, usbUp, linkUp).(log := f.log + waiting[..n])
      && (room == 0 ==> After(f, FanSpec.Fill(usbUp, linkUp, waiting)) == Snap(f, usbUp, linkUp))
      && (f.log + waiting[..n]) + waiting[n..] == f.log + waiting
  {
    var n := Min(room, |waiting|);
    assert waiting == waiting[..n] + waiting[n..];
    assert f.log + waiting[..0] == f.log;
  }

  class ConsoleFan {
    const fan: array<byte>
    var head: u32
    var usbTail: u32
    var linkTail: u32
    ghost var state: Fan

    ghost predicate Valid()
      reads this, fan
    {
      && fan.Length == FAN_MASK + 1
      && Inv(state)
      && Holds(fan[..], head, usbTail, state.log[state.usbPos..])
      && Holds(fan[..], head, linkTail, state.log[state.linkPos..])
    }

    constructor ()
      ensures Valid() && state == EMPTY && fresh(fan)
    {
      fan := new byte[FAN_MASK + 1](_ => 0);
      head, usbTail, linkTail := 0, 0, 0;
      state := EMPTY;
      new;
      HoldsNothing(fan[..], 0);
    }

    /** The copying loop of a take, for either tail. */
    method Copy(tail: u32, n: nat) returns (dst: seq<byte>)
      requires fan.Length == FAN_MASK + 1
      ensures dst == Window(fan[..], tail, n, FAN_MASK)
    {
      dst := [];
      var i := 0;
      while i < n
        invariant 0 <= i <= n
        invariant dst == Window(fan[..], tail, i, FAN_MASK)
      {
        dst := dst + [fan[Masked(tail + i, FAN_MASK)]];
        i := i + 1;
      }
    }

    method Take(reader: Reader, max: nat) returns (dst: seq<byte>)
      requires Valid()
      modifies this
      ensures Valid() && dst == Taken(old(state), reader, max)
      ensures state == AfterTake(old(state), reader, max)
    {
      var tail := if reader.Usb? then usbTail else linkTail;
      var n := Min(max, Used(head, tail, FAN_MASK));
      dst := Copy(tail, n);
      ghost var unread := state.log[state.Pos(reader)..];
      HoldsAfterTake(fan[..], head, tail, unread, n);
      AfterKeepsInv(state, FanSpec.Take(reader, max));
      state := AfterTake(state, reader, max);
      assert unread[n..] == state.log[state.Pos(reader)..];
      if reader.Usb? {
        usbTail := Masked(tail + n, FAN_MASK);
      } else {
        linkTail := Masked(tail + n, FAN_MASK);
      }
    }

    /** The storing loop of a fill. */
    method Store(bytes: seq<byte>)
      requires fan.Length == FAN_MASK + 1
      modifies fan
      ensures fan[..] == StoreAll(old(fan[..]), head, bytes)
    {
      var i := 0;
      while i < |bytes|
        invariant 0 <= i <= |bytes|
        invariant fan[..] == StoreAll(old(fan[..]), head, bytes[..i])
      {
        assert bytes[..i + 1][..i] == bytes[..i];
        fan[Masked(head + i, FAN_MASK)] := bytes[i];
        i := i + 1;
      }
      assert bytes[..i] == bytes;
    }

    /** Readers that are not there are moved up to the head. */
    method SnapAbsent(usbUp: bool, linkUp: bool) returns (held: nat)
      requires Valid()
      modifies this`usbTail, this`linkTail, this`state
      ensures Valid() && state == Snap(old(state), usbUp, linkUp)
      ensures held == Max(if usbUp then |state.log| - state.usbPos else 0,
                          if linkUp then |state.log| - state.linkPos else 0)
    {
      HoldsNothing(fan[..], head);
      assert state.log[|state.log|..] == [];
      held := 0;
      if usbUp {
        held := Used(head, usbTail, FAN_MASK);
      } else {
        usbTail := head;
      }
      if !linkUp {
        linkTail := head;
      } else if Used(head, linkTail, FAN_MASK) > held {
        held := Used(head, linkTail, FAN_MASK);
      }
      state := Snap(state, usbUp, linkUp);
    }

    /** The bytes a fill has taken go in at the head, unread by either reader. */
    method Append(buf: seq<byte>)
      requires Valid()
      requires |state.log| + |buf| <= Min(state.usbPos, state.linkPos) + FAN_MASK
      modifies this`head, this`state, fan
      ensures Valid() && state == old(state).(log := old(state.log) + buf)
    {
      ghost var log := state.log;
      HoldsAfterAppend(fan[..], head, usbTail, log[state.usbPos..], buf);
      HoldsAfterAppend(fan[..], head, linkTail, log[state.linkPos..], buf);
      Store(buf);
      head := Masked(head + |buf|, FAN_MASK);
      state := state.(log := log + buf);
      assert state.log[state.usbPos..] == log[state.usbPos..] + buf;
      assert state.log[state.linkPos..] == log[state.linkPos..] + buf;
    }

    /** As much of the ring as there is room for, once the absent readers are out of the way. */
    method Move(ring: Ring.FrankRing, room: nat)
      requires Valid() && ring.Valid() && ring.data != fan
      requires |state.log| + room <= Min(state.usbPos, state.linkPos) + FAN_MASK
      modifies this`head, this`state, fan, ring`tail
      ensures Valid() && ring.Valid()
      ensures var n := Min(room, |old(ring.Contents())|);
        && state == old(state).(log := old(state.log) + old(ring.Contents())[..n])
        && ring.Contents() == old(ring.Contents())[n..]
    {
      var buf := ring.Get(room);
      Append(buf);
    }

    method Fill(ring: Ring.FrankRing, usbUp: bool, linkUp: bool)
      requires Valid() && ring.Valid() && ring.data != fan
      modifies this, fan, ring`tail
      ensures Valid() && ring.Valid()
      ensures state == After(old(state), FanSpec.Fill(usbUp, linkUp, old(ring.Contents())))
      ensures state.log + ring.Contents() == old(state.log + ring.Contents())
    {
      if !usbUp && !linkUp {
        return;
      }
      ghost var was, waiting := state, ring.Contents();
      var held := SnapAbsent(usbUp, linkUp);
      var room := Min(FAN_MASK - held, BURST);
      FillTakes(was, usbUp, linkUp, waiting, room);
      hide After, Holds, Snap;
      if room == 0 {
        return;
      }
      Move(ring, room);
    }
  }
}
