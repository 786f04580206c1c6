/** A run in which the terminal misses what Linux wrote first, and one in which it nearly does. */
module TtyWitness {
  import opened Words
  import Ring
  import RingMachine
  import FanSpec
  import InputMerge
  import PipelineWitness
  import opened TtyMachine
  import opened TtyProgress
  import Tty

  /** Power-up. */
  function Start(): State {
    State(
      RingMachine.State(0, 0, Zeros(2048), RingMachine.Producer(RingMachine.PIdle, [], 0, 0, 0),
        RingMachine.Consumer(RingMachine.CIdle, 0, 0, []), [], []),
      FanSpec.EMPTY, PipelineWitness.PowerUp(), InputMerge.EMPTY, false, 0)
  }

  /** Linux has written one byte. */
  function Written(b: byte): State {
    var s := Start();
    s.(ring := s.ring.(head := 1, data := s.ring.data[0 := b], written := [b],
                       producer := RingMachine.Producer(RingMachine.PIdle, [b], 1, 1, 0)))
  }

  /** The byte is in its slot, and not yet published. */
  function Stored(b: byte): State {
    var s := Start();
    s.(ring := s.ring.(data := s.ring.data[0 := b],
                       producer := RingMachine.Producer(RingMachine.PStore, [b], 1, 1, 0)))
  }

  lemma StoredRun(b: byte)
    ensures Reaches(Start(), Stored(b))
  {
    var s := Start();
    assert Legal(s, []) && Run(s, []) == s;
    var t := Go(s, s, LinuxWrites(RingMachine.BeginPut([b])));
    t := Go(s, t, LinuxWrites(RingMachine.ProducerStep));
    t := Go(s, t, LinuxWrites(RingMachine.ProducerStep));
    assert t == Stored(b);
  }

  lemma WrittenRun(b: byte)
    ensures Reaches(Start(), Written(b))
  {
    var s := Start();
    StoredRun(b);
    var t := Go(s, Stored(b), LinuxWrites(RingMachine.ProducerStep));
    t := Go(s, t, LinuxWrites(RingMachine.ProducerStep));
    assert t == Written(b);
  }

  /** The byte has gone to the fan-out, for the USB console. */
  function Moved(b: byte): State {
    var s := Written(b);
    s.(ring := s.ring.(tail := 1, read := [b], consumer := RingMachine.Consumer(RingMachine.CIdle, 64, 1, [b])),
       fan := FanSpec.Fan([b], 0, 0, [], []), usbUp := true)
  }

  /** A fill that core 1 has begun and not yet published, with `dst` in hand. */
  function Filling(s: State, pc: RingMachine.ConsumerPc, dst: seq<byte>): State {
    s.(ring := s.ring.(consumer := RingMachine.Consumer(pc, 64, |dst|, dst)), usbUp := true)
  }

  lemma MovedRun(b: byte)
    ensures Reaches(Start(), Moved(b))
  {
    var s := Start();
    WrittenRun(b);
    var t := Go(s, Written(b), FillBegin(true));
    t := Go(s, t, FillStep);
    t := Go(s, t, FillStep);
    t := Go(s, t, FillStep);
    assert t == Filling(Written(b), RingMachine.CPublish, [b]);
    t := Go(s, t, FillStep);
    assert t == Moved(b);
  }

  /**
   From power-up, with the link not up: after one fill for the USB console nothing is missed, and the
   link's reader will still be given its bytes; after one more, though it moves nothing, they are.
   */
  lemma FirstByteCanBeMissed(b: byte) returns (before: State, after: State)
    ensures Init(Start()) && Reaches(Start(), before) && Reaches(Start(), after)
    ensures before.fan.log == before.ring.read == [b] && before.fan.linkPos == before.missed == 0
    ensures after.ring.read == [b] && after.missed == 1 && !LinkUp(after)
  {
    var s := Start();
    MovedRun(b);
    before := Moved(b);
    after := Go(s, before, FillBegin(true));
    after := Go(s, after, FillStep);
    after := Go(s, after, FillStep);
    assert after == Filling(before, RingMachine.CPublish, []);
    ReachedInv(s, after);
    Tty.MissedIs(after, FillStep);
    after := Go(s, after, FillStep);
  }
}
