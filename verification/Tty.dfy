/**
 The console from end to end: what a user of the terminal sees of what Linux writes, and what Linux
 reads of what is typed, in every run of `TtyMachine`.
 */
module Tty {
  import opened Words
  import DiskSpec
  import Ring
  import FanSpec
  import InputMerge
  import Pipeline
  import opened PipelineInv
  import PipelineKeys
  import PipelineTheorems
  import opened TtyMachine

  // ---- What the link misses ----

  /** A fill for the USB console alone comes to its end. It moves the link's reader up to where it began. */
  predicate EndsUsbFill(s: State, a: Action) {
    !LinkUp(s) &&
    ((a.FillStep? && s.ring.consumer.pc.CPublish?) ||
     (a.FillBegin? && a.usb && FanSpec.Room(s.fan, true, false) <= 0))
  }

  /**
   What the terminal will have missed is, at any time before the link is up, what had left the ring when
   the last fill for the USB console began; from then on it stays. The bytes of that fill are not missed.
   */
  lemma MissedIs(s: State, a: Action)
    requires TtyMachine.Inv(s) && TtyMachine.Enabled(s, a)
    ensures TtyMachine.Step(s, a).missed == if EndsUsbFill(s, a) then |s.ring.read| else s.missed
  {
    hide Pipeline.Step, RingMachine.Step, InputMerge.After;
  }

  /** No fill for the USB console alone ends with bytes before it that had left the ring. */
  ghost predicate NoneBehind(s: State, run: seq<Action>)
    requires TtyMachine.Legal(s, run)
    decreases |run|
  {
    run == [] ||
    ((EndsUsbFill(s, run[0]) ==> s.ring.read == []) && NoneBehind(TtyMachine.Step(s, run[0]), run[1..]))
  }

  lemma MissedGrows(s: State, a: Action)
    requires TtyMachine.Inv(s) && TtyMachine.Enabled(s, a)
    ensures s.missed <= TtyMachine.Step(s, a).missed
  {
    MissedIs(s, a);
  }

  lemma {:induction false} MissedStays(s: State, run: seq<Action>)
    requires TtyMachine.Inv(s) && TtyMachine.Legal(s, run)
    ensures s.missed <= TtyMachine.Run(s, run).missed
    decreases |run|
  {
    if run != [] {
      TtyMachine.StepKeepsInv(s, run[0]);
      MissedGrows(s, run[0]);
      MissedStays(TtyMachine.Step(s, run[0]), run[1..]);
    }
  }

  /** Nothing is missed exactly if no fill for the USB console alone leaves bytes behind. */
  lemma {:induction false} NothingMissed(s: State, run: seq<Action>)
    requires TtyMachine.Inv(s) && TtyMachine.Legal(s, run) && s.missed == 0
    ensures TtyMachine.Run(s, run).missed == 0 <==> NoneBehind(s, run)
    decreases |run|
  {
    if run != [] {
      var t := TtyMachine.Step(s, run[0]);
      TtyMachine.StepKeepsInv(s, run[0]);
      MissedIs(s, run[0]);
      if t.missed == 0 {
        NothingMissed(t, run[1..]);
      } else {
        MissedStays(t, run[1..]);
      }
    }
  }

  // ---- The terminal ----

  /** The chunks put on the link are one piece of what has left the ring: from what was missed on. */
  lemma ChunksAreTheStream(s: State)
    requires TtyMachine.Inv(s)
    ensures s.missed <= s.fan.linkPos <= |s.ring.read| <= s.fan.linkPos + FanSpec.MASK
    ensures Flatten(s.link.console.chunks) == s.ring.read[s.missed..s.fan.linkPos]
    ensures s.ring.read <= s.ring.written && |s.ring.written| <= |s.ring.read| + Ring.MASK
  {
    assert FanSpec.Output(s.fan, FanSpec.Link) == s.ring.read[s.missed..s.fan.linkPos];
  }

  lemma EarlierIsPrefix(k: Pipeline.Console)
    ensures Flatten(Earlier(k)) <= Flatten(k.chunks)
  {
  }

  lemma MiddleOfPrefix(a: seq<byte>, b: seq<byte>, lo: nat, hi: nat)
    requires lo <= hi <= |a| && a <= b
    ensures a[lo..hi] <= b[lo..]
  {
    assert b[lo..][..hi - lo] == a[lo..hi];
  }

  /** Where the link has got to, the terminal has, but for the chunk in hand. */
  lemma ScreenIsTheStream(s: State)
    requires TtyMachine.Inv(s)
    requires var k := s.link.console; k.screen == Flatten(k.chunks) || k.screen == Flatten(Earlier(k))
    ensures s.missed <= |s.ring.written|
    ensures s.link.console.screen <= s.ring.written[s.missed..]
    ensures s.link.console.screen == Flatten(s.link.console.chunks) ==>
      |s.ring.written| - s.missed <= |s.link.console.screen| + Ring.MASK + FanSpec.MASK
  {
    ChunksAreTheStream(s);
    EarlierIsPrefix(s.link.console);
    MiddleOfPrefix(s.ring.read, s.ring.written, s.missed, s.fan.linkPos);
    hide TtyMachine.Inv, Flatten;
  }

  /**
   In a calm run in which no wait of the master for a payload runs out, the terminal has been fed just
   what Linux has written, from what was missed on: no byte lost, added, moved or repeated. Nothing is
   missed exactly if no fill for the USB console alone leaves bytes behind. And between transactions the
   terminal is behind by no more than the ring and the fan-out hold.
   */
  lemma TerminalShowsWhatLinuxWrote(s: State, run: seq<Action>)
    requires TtyMachine.Init(s) && TtyMachine.Legal(s, run)
    requires var link := TtyMachine.Run(s, run).link; Calm(link) && !link.faults.payload
    ensures var e := TtyMachine.Run(s, run);
      && e.missed <= |e.ring.written|
      && e.link.console.screen <= e.ring.written[e.missed..]
      && (e.missed == 0 <==> NoneBehind(s, run))
      && (e.link.core.pc.Top? ==>
            |e.ring.written| - e.missed <= |e.link.console.screen| + Ring.MASK + FanSpec.MASK)
  {
    TtyMachine.InitInv(s);
    TtyMachine.RunKeepsInv(s, run);
    NothingMissed(s, run);
    var e := TtyMachine.Run(s, run);
    LinkRunIsRun(s, run);
    PipelineTheorems.TerminalMissesNothing(s.link, LinkRun(s, run));
    hide *;
    ScreenIsTheStream(e);
  }

  /**
   Whatever the master's waits and the other console do, the terminal is fed whole chunks, in order
   and none twice, and the chunks in a row are Linux's stream from what was missed on.
   */
  lemma TerminalShowsNothingElse(s: State, run: seq<Action>)
    requires TtyMachine.Init(s) && TtyMachine.Legal(s, run) && Calm(TtyMachine.Run(s, run).link)
    ensures var e := TtyMachine.Run(s, run);
      var k := e.link.console;
      && Positions(k.shown, |k.chunks|)
      && k.screen == Flatten(Select(k.chunks, k.shown))
      && e.missed <= |e.ring.written| && Flatten(k.chunks) <= e.ring.written[e.missed..]
  {
    TtyMachine.InitInv(s);
    TtyMachine.RunKeepsInv(s, run);
    LinkRunIsRun(s, run);
    PipelineTheorems.LinuxSeesATerminal(s.link, LinkRun(s, run));
    hide TtyMachine.Init, LinkRun, Pipeline.Run, Pipeline.Legal, TtyMachine.Run, TtyMachine.Legal;
    var e := TtyMachine.Run(s, run);
    ChunksAreTheStream(e);
    MiddleOfPrefix(e.ring.read, e.ring.written, e.missed, e.fan.linkPos);
  }

  // ---- The keyboard ----

  /**
   What Linux reads is a shuffle of two streams, each in order: every byte that was read from the USB
   host, and keys that were typed, none of them twice.
   */
  lemma LinuxReadsWhatWasTyped(s: State, run: seq<Action>)
    requires TtyMachine.Init(s) && TtyMachine.Legal(s, run) && Calm(TtyMachine.Run(s, run).link)
    ensures var e := TtyMachine.Run(s, run);
      var m := e.input;
      && |m.origin| == |m.stream| && m.consumed <= |m.stream| <= m.consumed + Ring.MASK
      && InputMerge.Only(m.stream, m.origin, InputMerge.Host) == m.hostRead
      && IsSubsequence(InputMerge.Only(m.stream, m.origin, InputMerge.Keyboard), e.link.console.typed)
  {
    TtyMachine.InitInv(s);
    TtyMachine.RunKeepsInv(s, run);
    var e := TtyMachine.Run(s, run);
    var k := e.link.console;
    assert QueueInv(k) && KeysJoint(e);
    SelectTwice(k.typed, k.queuedAt, k.sent, k.keys, k.fedAt);
  }

  /**
   If, besides, the master gives up on no payload and the ring to Linux has room for a reply's keys
   whenever core 1 takes one, then between transactions every key that found room in the queue is in the
   queue still or in Linux's input, in order.
   */
  lemma EveryKeyReachesLinux(s: State, run: seq<Action>)
    requires TtyMachine.Init(s) && TtyMachine.Legal(s, run)
    requires PipelineKeys.RoomForKeys(s.link, LinkRun(s, run))
    requires var link := TtyMachine.Run(s, run).link; Calm(link) && !link.faults.payload && link.core.pc.Top?
    ensures var e := TtyMachine.Run(s, run);
      var m, k := e.input, e.link.console;
      && |m.origin| == |m.stream| && Positions(k.queuedAt, |k.typed|)
      && InputMerge.Only(m.stream, m.origin, InputMerge.Keyboard) + k.keys == Select(k.typed, k.queuedAt)
  {
    TtyMachine.InitInv(s);
    TtyMachine.RunKeepsInv(s, run);
    LinkRunIsRun(s, run);
    PipelineKeys.EveryKeyArrives(s.link, LinkRun(s, run));
    hide TtyMachine.Init, LinkRun, Pipeline.Run, Pipeline.Legal, TtyMachine.Run, TtyMachine.Legal;
    var e := TtyMachine.Run(s, run);
    var k := e.link.console;
    assert QueueInv(k) && KeysJoint(e);
    assert Select(k.sent, Range(0, |k.sent|)) == k.sent;
  }

  // ---- The disk ----

  /** And all the while Linux has its disk: the link is the same, whoever shares core 1 with it. */
  lemma DiskMeanwhile(s: State, run: seq<Action>)
    requires TtyMachine.Init(s) && TtyMachine.Legal(s, run) && Calm(TtyMachine.Run(s, run).link)
    ensures Pipeline.Legal(s.link, LinkRun(s, run))
    ensures var trace := PipelineTheorems.Trace(s.link, LinkRun(s, run));
      && DiskSpec.Behaviour(trace)
      && trace[|trace| - 1] == PipelineTheorems.Abstract(TtyMachine.Run(s, run).link)
  {
    LinkRunIsRun(s, run);
    PipelineTheorems.LinuxSeesADisk(s.link, LinkRun(s, run));
  }
}
