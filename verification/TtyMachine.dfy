/**
 The whole console as one state machine: Linux writing the `tx` ring at single loads and stores,
 core 1 moving it into the fan-out and on to the link, the link with its three processes, and what
 comes back from the keyboard and the USB host (firmware/common/core1_usb.c and core1_blk.c).

 Core 1 is one program. Between two rounds of its loop it may fill the fan-out, serve the USB
 console, read the USB host or start a transaction; while it is in the middle of a fill or of a
 transaction it does nothing else. Everybody else moves at any time.
 */
module TtyMachine {
  import opened Words
  import opened Wire
  import Ring
  import RingMachine
  import opened FanSpec
  import InputMerge
  import Pipeline
  import PipelineInv
  import PipelineStreams
  import PipelineTheorems

  /**
   `usbUp` is what the fill in progress found. `missed` counts the bytes that the fan-out had moved
   on for the USB console when the link came up.
   */
  datatype State = State(
    ring: RingMachine.State, fan: Fan, link: Pipeline.State, input: InputMerge.Merge, usbUp: bool, missed: nat)

  datatype Action =
    | LinuxWrites(step: RingMachine.Action)
    | LinuxReads(n: nat)
    | FillBegin(usb: bool)
    | FillStep
    | UsbTake(room: nat)
    | HostRead(available: seq<byte>, meanwhile: nat)
    | Pump
    | LinkStep(action: Pipeline.Action)

  ghost predicate Init(s: State) {
    && RingMachine.Init(s.ring)
    && s.fan == FanSpec.EMPTY
    && Pipeline.Init(s.link)
    && s.input == InputMerge.EMPTY
    && s.missed == 0
  }

  /** `frank_link_console_up`: the capacity probe has been answered. */
  predicate LinkUp(s: State) {
    s.link.core.probed
  }

  /** Core 1 is between two things to do. */
  predicate CoreFree(s: State) {
    s.link.core.pc.Top? && s.ring.consumer.pc.CIdle?
  }

  /** What the link's consumer would take now. */
  function Chunk(s: State): seq<byte>
    requires s.fan.linkPos <= |s.fan.log|
  {
    Taken(s.fan, Link, MAX_CONSOLE)
  }

  ghost predicate Enabled(s: State, a: Action) {
    && |s.ring.data| == Ring.MASK + 1 && FanSpec.Inv(s.fan)
    && match a
       case LinuxWrites(w) => (w.AskSpace? || w.BeginPut? || w.ProducerStep?) && RingMachine.Enabled(s.ring, w)
       case LinuxReads(_) => true
       case FillBegin(_) => CoreFree(s)
       case FillStep => !s.ring.consumer.pc.CIdle?
       case UsbTake(_) => CoreFree(s)
       case HostRead(_, _) => CoreFree(s)
       case Pump => CoreFree(s) && LinkUp(s)
       case LinkStep(p) =>
         && Pipeline.Enabled(s.link, p) && !p.CorePump?
         && (p.CoreProbe? ==> CoreFree(s))
         && (p.CoreSkip? ==> CoreFree(s) && Chunk(s) == [])
         && (p.CoreStep? ==> p.room == Max(0, InputMerge.Room(s.input)))
  }

  /** The start of `fan_fill`: nothing, a mere moving up of whoever is absent, or a read of the ring. */
  function BeginFill(s: State, usb: bool): State
    requires |s.ring.data| == Ring.MASK + 1 && FanSpec.Inv(s.fan) && CoreFree(s)
  {
    if !usb && !LinkUp(s) then s
    else if Room(s.fan, usb, LinkUp(s)) <= 0 then Filled(s.(usbUp := usb), [])
    else s.(ring := RingMachine.Step(s.ring, RingMachine.BeginGet(Room(s.fan, usb, LinkUp(s)))), usbUp := usb)
  }

  /** The end of it. */
  function Filled(s: State, bytes: seq<byte>): State
    requires FanSpec.Inv(s.fan)
  {
    var fan := After(s.fan, Fill(s.usbUp, LinkUp(s), bytes));
    s.(fan := fan, missed := if LinkUp(s) then s.missed else fan.linkPos)
  }

  function StepFill(s: State): State
    requires |s.ring.data| == Ring.MASK + 1 && FanSpec.Inv(s.fan) && !s.ring.consumer.pc.CIdle?
  {
    var t := s.(ring := RingMachine.Step(s.ring, RingMachine.ConsumerStep));
    if s.ring.consumer.pc.CPublish? then Filled(t, s.ring.consumer.dst) else t
  }

  /** Core 1 takes a reply whose keystrokes it passes on. */
  predicate Feeds(s: Pipeline.State, p: Pipeline.Action)
    requires Pipeline.Enabled(s, p)
  {
    p.CoreStep? && s.core.pc.AwaitReply? && s.core.op == CON && DecodeReply(s.core.rx.data).status == 0
  }

  /** The keystrokes in a reply. */
  function KeysIn(reply: seq<byte>): seq<byte>
    requires |reply| >= REPLY_BYTES
  {
    reply[REPLY_BYTES..][..Min(Min(DecodeReply(reply).value, MAX_KEYS), |reply| - REPLY_BYTES)]
  }

  function StepLink(s: State, p: Pipeline.Action): State
    requires Pipeline.Enabled(s.link, p)
  {
    s.(link := Pipeline.Step(s.link, p),
       input := if Feeds(s.link, p) then InputMerge.After(s.input, InputMerge.FromKeyboard(KeysIn(s.link.core.rx.data)))
                else s.input)
  }

  ghost function Step(s: State, a: Action): State
    requires Enabled(s, a)
  {
    match a
    case LinuxWrites(w) => s.(ring := RingMachine.Step(s.ring, w))
    case LinuxReads(n) => s.(input := InputMerge.After(s.input, InputMerge.Taken(n)))
    case FillBegin(usb) => BeginFill(s, usb)
    case FillStep => StepFill(s)
    case UsbTake(room) => s.(fan := After(s.fan, Take(Usb, room)))
    case HostRead(available, meanwhile) =>
      s.(input := InputMerge.After(s.input, InputMerge.FromHost(available, meanwhile)))
    case Pump =>
      s.(fan := After(s.fan, Take(Link, MAX_CONSOLE)), link := Pipeline.Step(s.link, Pipeline.CorePump(Chunk(s))))
    case LinkStep(p) => StepLink(s, p)
  }

  ghost predicate Legal(s: State, run: seq<Action>)
    decreases |run|
  {
    run == [] || (Enabled(s, run[0]) && Legal(Step(s, run[0]), run[1..]))
  }

  ghost function Run(s: State, run: seq<Action>): State
    requires Legal(s, run)
    decreases |run|
  {
    if run == [] then s else Run(Step(s, run[0]), run[1..])
  }

  // ---- The joints ----

  /** What has left the ring is what the fan-out has logged, and a fill in progress takes no more than fits. */
  ghost predicate RingJoint(s: State) {
    var c := s.ring.consumer;
    && s.fan.log == s.ring.read
    && (!c.pc.CIdle? ==>
          && s.link.core.pc.Top? && (s.usbUp || LinkUp(s))
          && c.max == Room(s.fan, s.usbUp, LinkUp(s)))
    && (c.pc.CCopy? || c.pc.CPublish? ==> c.len <= c.max)
  }

  /** The chunks on the link are what its reader has been given: all that came after what it missed. */
  ghost predicate LinkJoint(s: State)
    requires FanSpec.Inv(s.fan)
  {
    && Flatten(s.link.console.chunks) == Output(s.fan, Link)
    && s.missed <= s.fan.linkPos
    && s.fan.linkGot == Range(s.missed, s.fan.linkPos)
    && (!LinkUp(s) ==> s.fan.linkPos == s.missed)
  }

  /** The keystrokes in Linux's input are those that were passed on. */
  ghost predicate KeysJoint(s: State) {
    var k := s.link.console;
    && |s.input.origin| == |s.input.stream|
    && Positions(k.fedAt, |k.sent|)
    && InputMerge.Only(s.input.stream, s.input.origin, InputMerge.Keyboard) == Select(k.sent, k.fedAt)
  }

  ghost predicate Inv(s: State) {
    && RingMachine.Inv(s.ring) && FanSpec.Inv(s.fan) && PipelineInv.Inv(s.link) && InputMerge.Inv(s.input)
    && RingJoint(s) && LinkJoint(s)
    && (PipelineInv.Calm(s.link) ==> KeysJoint(s))
  }

  lemma InitInv(s: State)
    requires Init(s)
    ensures Inv(s)
  {
    RingMachine.InitInv(s.ring);
    PipelineInv.InitInv(s.link);
    assert Output(s.fan, Link) == [];
    assert s.fan.linkGot == Range(0, 0);
  }

  // ---- The ring's side ----

  lemma WriterKeeps(s: State, w: RingMachine.Action)
    requires Inv(s) && Enabled(s, LinuxWrites(w))
    ensures Inv(Step(s, LinuxWrites(w)))
  {
    RingMachine.StepKeepsInv(s.ring, w);
    hide RingMachine.Inv, PipelineInv.Inv, FanSpec.Inv, InputMerge.Inv, KeysJoint, LinkJoint;
    assert RingJoint(Step(s, LinuxWrites(w)));
  }

  lemma FilledKeeps(s: State, bytes: seq<byte>)
    requires FanSpec.Inv(s.fan) && LinkJoint(s)
    requires |bytes| <= Max(0, Room(s.fan, s.usbUp, LinkUp(s)))
    ensures var t := Filled(s, bytes);
      && FanSpec.Inv(t.fan) && LinkJoint(t) && t == s.(fan := t.fan, missed := t.missed)
      && t.fan.log == if s.usbUp || LinkUp(s) then s.fan.log + bytes else s.fan.log
  {
    var e := Fill(s.usbUp, LinkUp(s), bytes);
    AfterKeepsInv(s.fan, e);
    TakeIsOutput(s.fan, e, Link);
    assert bytes[..|bytes|] == bytes;
    if !LinkUp(s) {
      assert Range(s.missed, s.fan.linkPos) == [];
    }
  }

  lemma FillBeginKeeps(s: State, usb: bool)
    requires Inv(s) && Enabled(s, FillBegin(usb))
    ensures Inv(Step(s, FillBegin(usb)))
  {
    var t := s.(usbUp := usb);
    if usb || LinkUp(s) {
      if Room(s.fan, usb, LinkUp(s)) <= 0 {
        FilledKeeps(t, []);
        assert s.fan.log + [] == s.fan.log;
      } else {
        RingMachine.StepKeepsInv(s.ring, RingMachine.BeginGet(Room(s.fan, usb, LinkUp(s))));
      }
    }
    hide RingMachine.Inv, PipelineInv.Inv, FanSpec.Inv, InputMerge.Inv, Flatten, Output;
  }

  lemma FillStepKeeps(s: State)
    requires Inv(s) && Enabled(s, FillStep)
    ensures Inv(Step(s, FillStep))
  {
    RingMachine.StepKeepsInv(s.ring, RingMachine.ConsumerStep);
    var t := s.(ring := RingMachine.Step(s.ring, RingMachine.ConsumerStep));
    if s.ring.consumer.pc.CPublish? {
      FilledKeeps(t, s.ring.consumer.dst);
    }
    hide RingMachine.Inv, PipelineInv.Inv, FanSpec.Inv, InputMerge.Inv, Flatten, Output;
  }

  // ---- The fan-out's other side ----

  lemma UsbTakeKeeps(s: State, room: nat)
    requires Inv(s) && Enabled(s, UsbTake(room))
    ensures Inv(Step(s, UsbTake(room)))
  {
    AfterKeepsInv(s.fan, Take(Usb, room));
    TakeIsOutput(s.fan, Take(Usb, room), Link);
    hide RingMachine.Inv, PipelineInv.Inv, FanSpec.Inv, InputMerge.Inv, Flatten, Output;
  }

  lemma PumpAddsChunk(l: Pipeline.State, chunk: seq<byte>)
    requires Pipeline.Enabled(l, Pipeline.CorePump(chunk))
    ensures var t := Pipeline.Step(l, Pipeline.CorePump(chunk));
      && t.console == l.console.(chunks := l.console.chunks + [chunk])
      && t.core.probed == l.core.probed && t.faults == l.faults
  {
  }

  /** What a pump takes from the fan-out is what it puts on the link. */
  lemma PumpKeeps(s: State)
    requires Inv(s) && Enabled(s, Pump)
    ensures Inv(Step(s, Pump))
  {
    hide RingMachine.Inv, InputMerge.Inv, InputMerge.Only, PipelineInv.Inv, Pipeline.Step;
    var e := Take(Link, MAX_CONSOLE);
    var p := Pipeline.CorePump(Chunk(s));
    AfterKeepsInv(s.fan, e);
    TakeIsOutput(s.fan, e, Link);
    PipelineTheorems.StepKeepsInv(s.link, p);
    PumpAddsChunk(s.link, Chunk(s));
    FlattenSnoc(s.link.console.chunks, Chunk(s));
    var t := Step(s, Pump);
    assert t.fan.linkGot == Range(s.missed, t.fan.linkPos);
    hide FanSpec.Inv, Flatten, Output;
  }

  // ---- The link ----

  /** A step of the link that is not a pump leaves its chunks alone, and core 1 at rest where it is. */
  lemma LinkKeeps(l: Pipeline.State, p: Pipeline.Action)
    requires Pipeline.Enabled(l, p) && !p.CorePump?
    ensures var t := Pipeline.Step(l, p);
      && t.console.chunks == l.console.chunks
      && (l.core.probed ==> t.core.probed)
      && (l.core.pc.Top? && !p.CoreSkip? && !p.CoreProbe? ==> t.core.pc.Top? && t.core.probed == l.core.probed)
  {
    PipelineTheorems.OnlyPumpAdds(l, p);
    hide DecodeReply, EncodeHeader, Pipeline.Deliver, Pipeline.Payload, Pipeline.ReplyFrame;
  }

  ghost predicate SameFed(k: Pipeline.Console, k': Pipeline.Console) {
    k'.fedAt == k.fedAt && k.sent <= k'.sent
  }

  lemma CoreKeepsFed(l: Pipeline.State, room: nat, spill: bool)
    requires Pipeline.CoreReady(l) && !Feeds(l, Pipeline.CoreStep(room, spill))
    ensures SameFed(l.console, Pipeline.StepCore(l, room, spill).console)
  {
    hide DecodeReply, EncodeHeader, Pipeline.Deliver, Pipeline.Payload;
    match l.core.pc
    case AwaitReply =>
    case AwaitClear =>
    case _ =>
  }

  lemma MasterKeepsFed(l: Pipeline.State, ok: bool, spill: bool, caught: nat)
    requires Pipeline.MasterReady(l)
    ensures SameFed(l.console, Pipeline.StepMaster(l, ok, spill, caught).console)
  {
    hide Pipeline.Deliver, Pipeline.ReplyFrame, DecodeHeader;
    match l.master.pc
    case MAwaitPayload =>
    case MSend =>
    case _ =>
  }

  /** Unless keystrokes are passed on, the list of those that were stays as it is. */
  lemma LinkKeepsFed(l: Pipeline.State, p: Pipeline.Action)
    requires Pipeline.Enabled(l, p) && !Feeds(l, p)
    ensures SameFed(l.console, Pipeline.Step(l, p).console)
  {
    match p
    case CoreStep(room, spill) => CoreKeepsFed(l, room, spill);
    case MasterStep(ok, spill, caught) => MasterKeepsFed(l, ok, spill, caught);
    case LinuxStep => PipelineStreams.LinuxFaultsStay(l);
    case CoreExpire => PipelineStreams.CoreExpiryStays(l);
    case MasterExpire => PipelineStreams.MasterExpiryStays(l);
    case _ =>
  }

  /** In a calm run the keystrokes in a reply are the last that left the queue. */
  lemma ReplyCarries(l: Pipeline.State, p: Pipeline.Action)
    requires PipelineInv.KeysInv(l) && Pipeline.Enabled(l, p) && Feeds(l, p)
    ensures var keys, base := KeysIn(l.core.rx.data), l.core.keyBase;
      && base + |keys| == |l.console.sent| && l.console.sent[base..] == keys
      && |keys| == Min(DecodeReply(l.core.rx.data).value, MAX_KEYS)
      && Positions(l.console.fedAt, base)
  {
    var k, c := l.console, l.core;
    var status: Status, n: nat :| PipelineInv.KeysIn(l, status, n);
    ReplyRoundTrip(Reply(status, n), k.sent[c.keyBase..c.keyBase + n] + Zeros(MAX_KEYS - n));
    hide DecodeReply, EncodeReply, PipelineInv.QueueInv, Select;
    assert KeysIn(c.rx.data) == k.sent[c.keyBase..c.keyBase + n];
  }

  /** As many are passed on as there is room for. */
  lemma FeedAdds(l: Pipeline.State, p: Pipeline.Action)
    requires Pipeline.Enabled(l, p) && Feeds(l, p)
    ensures var k, k', base := l.console, Pipeline.Step(l, p).console, l.core.keyBase;
      var m := Min(p.room, Min(DecodeReply(l.core.rx.data).value, MAX_KEYS));
      k'.sent == k.sent && k'.fedAt == k.fedAt + Range(base, base + m)
  {
    hide DecodeReply;
  }

  /** And they go into Linux's input. */
  lemma InputTakes(m: InputMerge.Merge, keys: seq<byte>)
    requires InputMerge.Inv(m)
    ensures var t := InputMerge.After(m, InputMerge.FromKeyboard(keys));
      && InputMerge.Inv(t)
      && InputMerge.Only(t.stream, t.origin, InputMerge.Keyboard) ==
           InputMerge.Only(m.stream, m.origin, InputMerge.Keyboard) + keys[..Min(Max(0, InputMerge.Room(m)), |keys|)]
  {
    InputMerge.AfterKeepsInv(m, InputMerge.FromKeyboard(keys));
    var n := Max(0, Min(|keys|, InputMerge.Room(m)));
    InputMerge.OnlyAppend(m.stream, m.origin, keys[..n], InputMerge.Keyboard, InputMerge.Keyboard);
  }

  /** The next `n` keys go on, to join those before them. */
  lemma FeedSelects(sent: seq<byte>, at: seq<nat>, base: nat, n: nat)
    requires Positions(at, base) && base + n <= |sent|
    ensures Positions(at + Range(base, base + n), |sent|)
    ensures Select(sent, at + Range(base, base + n)) == Select(sent, at) + sent[base..][..n]
  {
    SelectRange(sent, at, base, base + n);
    assert sent[base..base + n] == sent[base..][..n];
  }

  lemma FeedingKeeps(s: State, p: Pipeline.Action)
    requires Inv(s) && PipelineInv.Calm(s.link) && Enabled(s, LinkStep(p)) && Feeds(s.link, p)
    ensures KeysJoint(StepLink(s, p))
  {
    assert InputMerge.Inv(s.input) && KeysJoint(s) && PipelineInv.KeysInv(s.link);
    hide Inv, FanSpec.Inv, DecodeReply, KeysIn, Pipeline.Step, InputMerge.After, InputMerge.Only;
    hide PipelineInv.Inv, PipelineInv.KeysInv, PipelineInv.Calm, Select;
    var keys := KeysIn(s.link.core.rx.data);
    ReplyCarries(s.link, p);
    FeedAdds(s.link, p);
    InputTakes(s.input, keys);
    hide InputMerge.Inv;
    FeedSelects(s.link.console.sent, s.link.console.fedAt, s.link.core.keyBase, Min(p.room, |keys|));
  }

  lemma LinkStepKeepsLink(s: State, p: Pipeline.Action)
    requires Inv(s) && Enabled(s, LinkStep(p))
    ensures var t := Step(s, LinkStep(p)); PipelineInv.Inv(t.link) && RingJoint(t) && LinkJoint(t)
  {
    PipelineTheorems.StepKeepsInv(s.link, p);
    LinkKeeps(s.link, p);
    hide RingMachine.Inv, PipelineInv.Inv, InputMerge.Inv, Flatten, Output, Pipeline.Step;
  }

  lemma LinkStepKeepsKeys(s: State, p: Pipeline.Action)
    requires Inv(s) && Enabled(s, LinkStep(p)) && PipelineInv.Calm(s.link)
    ensures KeysJoint(Step(s, LinkStep(p)))
  {
    if Feeds(s.link, p) {
      FeedingKeeps(s, p);
    } else {
      LinkKeepsFed(s.link, p);
      SelectOfLonger(s.link.console.sent, Step(s, LinkStep(p)).link.console.sent, s.link.console.fedAt);
      hide Pipeline.Step;
    }
  }

  lemma SelectOfLonger(s: seq<byte>, t: seq<byte>, at: seq<nat>)
    requires Positions(at, |s|) && s <= t
    ensures Select(t, at) == Select(s, at) && Positions(at, |t|)
  {
  }

  lemma LinkStepKeeps(s: State, p: Pipeline.Action)
    requires Inv(s) && Enabled(s, LinkStep(p))
    ensures Inv(Step(s, LinkStep(p)))
  {
    var t := Step(s, LinkStep(p));
    LinkStepKeepsLink(s, p);
    PipelineStreams.FaultsStay(s.link, p);
    if PipelineInv.Calm(t.link) {
      LinkStepKeepsKeys(s, p);
    }
    if Feeds(s.link, p) {
      InputTakes(s.input, KeysIn(s.link.core.rx.data));
    }
    hide RingMachine.Inv, PipelineInv.Inv, FanSpec.Inv, InputMerge.Inv, RingJoint, LinkJoint, KeysJoint;
    hide Pipeline.Step, InputMerge.After;
    assert t.ring == s.ring && t.fan == s.fan;
  }

  // ---- Linux's input ----

  lemma InputKeeps(s: State, a: Action)
    requires Inv(s) && Enabled(s, a) && (a.LinuxReads? || a.HostRead?)
    ensures Inv(Step(s, a))
  {
    var e := if a.LinuxReads? then InputMerge.Taken(a.n) else InputMerge.FromHost(a.available, a.meanwhile);
    InputMerge.AfterKeepsInv(s.input, e);
    var t := InputMerge.After(s.input, e);
    if a.HostRead? {
      var buf := InputMerge.ReadFromHost(s.input, a.available);
      InputMerge.HostLosesNothing(s.input, a.available, a.meanwhile);
      InputMerge.OnlyAppend(s.input.stream, s.input.origin, buf, InputMerge.Host, InputMerge.Keyboard);
    }
    assert InputMerge.Only(t.stream, t.origin, InputMerge.Keyboard) ==
           InputMerge.Only(s.input.stream, s.input.origin, InputMerge.Keyboard);
    hide RingMachine.Inv, PipelineInv.Inv, FanSpec.Inv, InputMerge.Inv, InputMerge.After, Flatten, Output;
  }

  /** Every step of anybody keeps the parts well and the joints tight. */
  lemma StepKeepsInv(s: State, a: Action)
    requires Inv(s) && Enabled(s, a)
    ensures Inv(Step(s, a))
  {
    match a
    case LinuxWrites(w) => WriterKeeps(s, w);
    case LinuxReads(_) => InputKeeps(s, a);
    case FillBegin(usb) => FillBeginKeeps(s, usb);
    case FillStep => FillStepKeeps(s);
    case UsbTake(room) => UsbTakeKeeps(s, room);
    case HostRead(_, _) => InputKeeps(s, a);
    case Pump => PumpKeeps(s);
    case LinkStep(p) => LinkStepKeeps(s, p);
  }

  lemma {:induction false} RunKeepsInv(s: State, run: seq<Action>)
    requires Inv(s) && Legal(s, run)
    ensures Inv(Run(s, run))
    decreases |run|
  {
    if run != [] {
      StepKeepsInv(s, run[0]);
      RunKeepsInv(Step(s, run[0]), run[1..]);
    }
  }

  // ---- What the link alone sees of a run ----

  ghost function LinkRun(s: State, run: seq<Action>): seq<Pipeline.Action>
    requires Legal(s, run)
    decreases |run|
  {
    if run == [] then []
    else
      (match run[0]
       case Pump => [Pipeline.CorePump(Chunk(s))]
       case LinkStep(p) => [p]
       case _ => []) + LinkRun(Step(s, run[0]), run[1..])
  }

  lemma OthersKeepLink(s: State, a: Action)
    requires Enabled(s, a) && !a.Pump? && !a.LinkStep?
    ensures Step(s, a).link == s.link
  {
    hide Room, After, Pipeline.Step, InputMerge.After, RingMachine.Step;
  }

  /** A run of the whole is, to the link, a run of its own: all that is proved of the link holds here. */
  lemma {:induction false} LinkRunIsRun(s: State, run: seq<Action>)
    requires Legal(s, run)
    ensures Pipeline.Legal(s.link, LinkRun(s, run))
    ensures Pipeline.Run(s.link, LinkRun(s, run)) == Run(s, run).link
    decreases |run|
  {
    if run != [] {
      var t := Step(s, run[0]);
      var rest := LinkRun(t, run[1..]);
      LinkRunIsRun(t, run[1..]);
      hide After, Pipeline.Step, InputMerge.After, RingMachine.Step;
      if run[0].Pump? || run[0].LinkStep? {
        var p := if run[0].Pump? then Pipeline.CorePump(Chunk(s)) else run[0].action;
        assert ([p] + rest)[0] == p && ([p] + rest)[1..] == rest;
      } else {
        OthersKeepLink(s, run[0]);
        assert [] + rest == rest;
      }
    }
  }
}
