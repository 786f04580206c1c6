/** What Linux has written does move on: to the fan-out by the fills, and to the link by the pumps. */
module TtyProgress {
  import opened Words
  import opened Wire
  import Ring
  import RingMachine
  import opened FanSpec
  import InputMerge
  import Pipeline
  import PipelineInv
  import opened TtyMachine

  ghost predicate Reaches(s: State, t: State) {
    exists run: seq<Action> :: TtyMachine.Legal(s, run) && TtyMachine.Run(s, run) == t
  }

  lemma {:induction false} RunExtends(s: State, run: seq<Action>, a: Action)
    requires TtyMachine.Legal(s, run) && Enabled(TtyMachine.Run(s, run), a)
    ensures TtyMachine.Legal(s, run + [a]) && TtyMachine.Run(s, run + [a]) == Step(TtyMachine.Run(s, run), a)
    decreases |run|
  {
    hide Enabled, Step;
    if run == [] {
      assert run + [a] == [a];
      assert [a][1..] == [];
    } else {
      RunExtends(Step(s, run[0]), run[1..], a);
      assert (run + [a])[1..] == run[1..] + [a];
      assert (run + [a])[0] == run[0];
    }
  }

  /** One more step of a run under construction. */
  lemma Go(s: State, t: State, a: Action) returns (u: State)
    requires Reaches(s, t) && Enabled(t, a)
    ensures Reaches(s, u) && u == Step(t, a)
  {
    var run: seq<Action> :| TtyMachine.Legal(s, run) && TtyMachine.Run(s, run) == t;
    RunExtends(s, run, a);
    u := Step(t, a);
  }

  lemma {:induction false} ReachedInv(s: State, t: State)
    requires TtyMachine.Init(s) && Reaches(s, t)
    ensures TtyMachine.Inv(t)
  {
    var run: seq<Action> :| TtyMachine.Legal(s, run) && TtyMachine.Run(s, run) == t;
    InitInv(s);
    RunKeepsInv(s, run);
  }

  /** What is in the ring. */
  function Waiting(s: State): seq<byte>
    requires |s.ring.read| <= |s.ring.written|
  {
    s.ring.written[|s.ring.read|..]
  }

  /** The copying of a fill, to its end. */
  lemma {:induction false} CopyToTheEnd(s0: State, s: State) returns (t: State)
    requires Reaches(s0, s) && TtyMachine.Inv(s) && s.ring.consumer.pc.CCopy?
    ensures Reaches(s0, t) && TtyMachine.Inv(t) && t.ring.consumer.pc.CPublish?
    ensures t == s.(ring := s.ring.(consumer := t.ring.consumer))
    ensures t.ring.consumer.len == s.ring.consumer.len == |t.ring.consumer.dst|
    decreases s.ring.consumer.len - |s.ring.consumer.dst|
  {
    t := Go(s0, s, FillStep);
    StepKeepsInv(s, FillStep);
    if t.ring.consumer.pc.CCopy? {
      t := CopyToTheEnd(s0, t);
    }
  }

  /** The fill looks at the head of the ring. */
  lemma LookAtHead(s0: State, s: State) returns (t: State)
    requires Reaches(s0, s) && TtyMachine.Inv(s) && s.ring.consumer.pc.CLoadHead?
    ensures Reaches(s0, t) && TtyMachine.Inv(t) && t.ring.consumer.pc.CCopy?
    ensures t == s.(ring := s.ring.(consumer := t.ring.consumer))
    ensures t.ring.consumer.len == Min(s.ring.consumer.max, |Waiting(s)|)
  {
    RingMachine.GetTakes(s.ring);
    t := Go(s0, s, FillStep);
    StepKeepsInv(s, FillStep);
    hide TtyMachine.Inv, RingMachine.Inv;
  }

  /** What it has copied goes to the fan-out. */
  lemma HandOver(s0: State, s: State) returns (t: State)
    requires Reaches(s0, s) && TtyMachine.Inv(s) && s.ring.consumer.pc.CPublish?
    ensures Reaches(s0, t) && TtyMachine.Inv(t) && t.ring.consumer.pc.CIdle?
    ensures t.link == s.link && t.ring.written == s.ring.written && t.usbUp == s.usbUp
    ensures |s.ring.consumer.dst| <= |Waiting(s)|
    ensures t.fan == After(s.fan, Fill(s.usbUp, LinkUp(s), Waiting(s)[..|s.ring.consumer.dst|]))
  {
    assert s.ring.consumer.dst == Waiting(s)[..|s.ring.consumer.dst|];
    t := Go(s0, s, FillStep);
    StepKeepsInv(s, FillStep);
    hide TtyMachine.Inv, RingMachine.Inv, After;
  }

  /** A fill that has begun to read the ring, and that nobody interrupts, moves what it asked for or all there is. */
  lemma FillToTheEnd(s0: State, s: State) returns (t: State)
    requires Reaches(s0, s) && TtyMachine.Inv(s) && s.ring.consumer.pc.CLoadHead?
    ensures Reaches(s0, t) && TtyMachine.Inv(t) && t.ring.consumer.pc.CIdle?
    ensures t.link == s.link && t.ring.written == s.ring.written && t.usbUp == s.usbUp
    ensures var n := Min(s.ring.consumer.max, |Waiting(s)|);
      t.fan == After(s.fan, Fill(s.usbUp, LinkUp(s), Waiting(s)[..n]))
  {
    t := LookAtHead(s0, s);
    hide Step, After, RingMachine.Inv;
    t := CopyToTheEnd(s0, t);
    t := HandOver(s0, t);
  }

  lemma FillCutsItself(f: Fan, usbUp: bool, linkUp: bool, ring: seq<byte>)
    requires FanSpec.Inv(f) && (usbUp || linkUp) && Room(f, usbUp, linkUp) > 0
    ensures var n := Min(Room(f, usbUp, linkUp), |ring|);
      After(f, Fill(usbUp, linkUp, ring[..n])) == After(f, Fill(usbUp, linkUp, ring))
  {
    var n := Min(Room(f, usbUp, linkUp), |ring|);
    assert ring[..n][..n] == ring[..n];
  }

  /** A fill that may move something begins to read the ring. */
  lemma BeginFill(s0: State, s: State, usb: bool) returns (t: State)
    requires Reaches(s0, s) && TtyMachine.Inv(s) && CoreFree(s) && Room(s.fan, usb, LinkUp(s)) > 0
    ensures Reaches(s0, t) && TtyMachine.Inv(t) && t.ring.consumer.pc.CLoadHead?
    ensures t.link == s.link && t.ring.written == s.ring.written && t.fan == s.fan && t.usbUp == usb
    ensures Waiting(t) == Waiting(s) && t.ring.consumer.max == Room(s.fan, usb, LinkUp(s))
  {
    t := Go(s0, s, FillBegin(usb));
    StepKeepsInv(s, FillBegin(usb));
  }

  /** And one that may not is over. */
  lemma EmptyFill(s0: State, s: State, usb: bool) returns (t: State)
    requires Reaches(s0, s) && TtyMachine.Inv(s) && CoreFree(s) && Room(s.fan, usb, LinkUp(s)) <= 0
    requires usb || LinkUp(s)
    ensures Reaches(s0, t) && TtyMachine.Inv(t) && CoreFree(t)
    ensures t.link == s.link && t.ring.written == s.ring.written
    ensures t.fan == After(s.fan, Fill(usb, LinkUp(s), Waiting(s)))
  {
    t := Go(s0, s, FillBegin(usb));
    StepKeepsInv(s, FillBegin(usb));
    assert Waiting(s)[..0] == [];
  }

  /** One fill, from beginning to end. */
  lemma FillOnce(s0: State, s: State, usb: bool) returns (t: State)
    requires Reaches(s0, s) && TtyMachine.Inv(s) && CoreFree(s) && (usb || LinkUp(s))
    ensures Reaches(s0, t) && TtyMachine.Inv(t) && CoreFree(t)
    ensures t.link == s.link && t.ring.written == s.ring.written
    ensures t.fan == After(s.fan, Fill(usb, LinkUp(s), Waiting(s)))
  {
    if Room(s.fan, usb, LinkUp(s)) > 0 {
      FillCutsItself(s.fan, usb, LinkUp(s), Waiting(s));
      hide Step, After, Room, RingMachine.Inv;
      t := BeginFill(s0, s, usb);
      t := FillToTheEnd(s0, t);
    } else {
      hide Step, After, Room, RingMachine.Inv;
      t := EmptyFill(s0, s, usb);
    }
  }

  /** One pump. */
  lemma PumpOnce(s0: State, s: State) returns (t: State)
    requires Reaches(s0, s) && TtyMachine.Inv(s) && CoreFree(s) && LinkUp(s)
    ensures Reaches(s0, t) && t.ring.written == s.ring.written
    ensures t.link.console.chunks == s.link.console.chunks + [Chunk(s)]
  {
    t := Go(s0, s, Pump);
    PumpAddsChunk(s.link, Chunk(s));
  }

  /** The USB console is there, as far behind as it may be, and the link has had all there is. */
  predicate HeldUp(s: State, usb: bool) {
    usb && s.fan.linkPos == |s.fan.log| && |s.fan.log| == s.fan.usbPos + 4095
  }

  /** With the link held up by nobody, there is something for it after one fill, if Linux has written more. */
  lemma FillBringsMore(s: State, usb: bool)
    requires TtyMachine.Inv(s) && LinkUp(s) && !HeldUp(s, usb) && s.fan.linkPos < |s.ring.written|
    ensures var g := After(s.fan, Fill(usb, true, Waiting(s))); g.linkPos == s.fan.linkPos < |g.log| <= |s.ring.written|
    ensures After(s.fan, Fill(usb, true, Waiting(s))).log <= s.ring.written
  {
    FillIsLargest(s.fan, usb, true, Waiting(s));
    assert s.ring.read <= s.ring.written;
  }

  /**
   Once the link is up, whatever state core 1 is in between two things to do, and if no USB console that
   is there and not read holds it up, one fill and one pump put the next byte that Linux has written on
   the link, and those after it up to 512 or to all that is in the fan-out.
   */
  lemma NextByteComes(s0: State, s: State, usb: bool) returns (t: State)
    requires TtyMachine.Init(s0) && Reaches(s0, s) && CoreFree(s) && LinkUp(s)
    requires !HeldUp(s, usb) && s.fan.linkPos < |s.ring.written|
    ensures Reaches(s0, t) && t.ring.written == s.ring.written
    ensures |t.link.console.chunks| == |s.link.console.chunks| + 1
    ensures t.link.console.chunks[..|s.link.console.chunks|] == s.link.console.chunks
    ensures var c := t.link.console.chunks[|s.link.console.chunks|];
      && 0 < |c| <= 512 && c <= s.ring.written[s.fan.linkPos..]
      && (|c| == 512 || s.fan.linkPos + |c| >= |s.fan.log|)
  {
    ReachedInv(s0, s);
    FillBringsMore(s, usb);
    var u := FillOnce(s0, s, usb);
    t := PumpOnce(s0, u);
    TakeIsLargest(u.fan, Link, 512);
    FillIsLargest(s.fan, usb, true, Waiting(s));
    ChunkIsNext(u.fan.log, s.ring.written, s.fan.linkPos, Chunk(u));
  }

  lemma ChunkIsNext(log: seq<byte>, written: seq<byte>, at: nat, chunk: seq<byte>)
    requires log <= written && at <= |log| && chunk <= log[at..]
    ensures chunk <= written[at..]
  {
    assert written[at..][..|log| - at] == log[at..];
  }
}
