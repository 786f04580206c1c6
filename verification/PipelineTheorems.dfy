/**
 What Linux is promised: a disk and a terminal, in every interleaving.
 */
module PipelineTheorems {
  import opened Words
  import opened Wire
  import opened DiskSpec
  import opened Pipeline
  import opened PipelineInv
  import PipelineLink
  import opened PipelineStreams

  lemma StepKeepsInv(s: State, a: Action)
    requires Inv(s) && Enabled(s, a)
    ensures Inv(Step(s, a))
  {
    PipelineLink.StepKeepsLink(s, a);
    StepKeepsStreams(s, a);
  }

  lemma {:induction false} RunKeepsInv(s: State, run: seq<Action>)
    requires Inv(s) && Legal(s, run)
    ensures Inv(Run(s, run))
    decreases |run|
  {
    if run != [] {
      StepKeepsInv(s, run[0]);
      RunKeepsInv(Step(s, run[0]), run[1..]);
    }
  }

  // ---- The disk ----

  /** The disk Linux sees: the store, and how far its one request has got. */
  function Abstract(s: State): Disk {
    var phase :=
      if s.linux.pc.LPoll? || s.linux.pc.LStatus? then
        match s.outcome
        case Unsettled => Waiting(s.linux.request)
        case SettledAs(status, data) => Settled(Result(s.linux.request, status, data))
      else Idle;
    Disk(s.store, phase, s.linux.log)
  }

  lemma LinuxRefines(s: State)
    requires LinkInv(s) && Calm(s) && !s.linux.pc.LIdle?
    ensures Next(Abstract(s), Abstract(StepLinux(s)))
  {
    var d, d' := Abstract(s), Abstract(StepLinux(s));
    if s.linux.pc.LStoreSeq? {
      assert Submits(d, d');
    } else if s.linux.pc.LStatus? {
      assert Completes(d, d');
    } else {
      assert d' == d;
    }
  }

  lemma CoreRefines(s: State, room: nat, spill: bool)
    requires LinkInv(s) && Calm(s) && CoreReady(s) && !s.core.pc.Decide?
    ensures Abstract(StepCore(s, room, spill)) == Abstract(s)
  {
  }

  lemma CoreRefusesRefines(s: State, room: nat, spill: bool)
    requires LinkInv(s) && Calm(s) && s.core.pc.Decide?
    ensures Next(Abstract(s), Abstract(StepCore(s, room, spill)))
  {
    if s.core.count == 0 || s.core.count > MAX_SECTORS {
      assert Settles(Abstract(s), Abstract(StepCore(s, room, spill)));
    }
  }

  lemma MasterRefines(s: State, ok: bool, spill: bool, caught: nat)
    requires LinkInv(s) && Calm(s) && MasterReady(s)
    ensures Next(Abstract(s), Abstract(StepMaster(s, ok, spill, caught)))
  {
    var d, d' := Abstract(s), Abstract(StepMaster(s, ok, spill, caught));
    hide EncodeHeader, EncodeReply, DecodeHeader, CapacityInv, DoorbellInv;
    match s.master.pc
    case MDecide => assert d' != d ==> Settles(d, d');
    case MAwaitPayload => assert d' != d ==> Settles(d, d');
    case MRead => assert d' != d ==> Settles(d, d');
    case _ => assert d' == d;
  }

  lemma ExpiryRefines(s: State)
    requires LinkInv(s) && Calm(s) && MasterMayExpire(s.master.pc)
    ensures Next(Abstract(s), Abstract(ExpireMaster(s)))
  {
    var d, d' := Abstract(s), Abstract(ExpireMaster(s));
    if d' != d {
      assert Settles(d, d');
    }
  }

  lemma OthersRefine(s: State, a: Action)
    requires Enabled(s, a) && (a.LinuxBegin? || a.CoreProbe? || a.CorePump? || a.CoreSkip? || a.KeyPress?)
    ensures Next(Abstract(s), Abstract(Step(s, a)))
  {
    assert Abstract(Step(s, a)) == Abstract(s);
  }

  /** The main result for the disk, one step at a time. */
  lemma StepRefinesDisk(s: State, a: Action)
    requires Inv(s) && Enabled(s, a) && Calm(Step(s, a))
    ensures Next(Abstract(s), Abstract(Step(s, a)))
  {
    FaultsStay(s, a);
    match a
    case LinuxStep => LinuxRefines(s);
    case CoreStep(room, spill) =>
      if s.core.pc.Decide? { CoreRefusesRefines(s, room, spill); } else { CoreRefines(s, room, spill); }
    case MasterStep(ok, spill, caught) => MasterRefines(s, ok, spill, caught);
    case MasterExpire => ExpiryRefines(s);
    case CoreExpire =>
    case _ => OthersRefine(s, a);
  }

  /** The run as Linux sees it. */
  ghost function Trace(s: State, run: seq<Action>): (t: seq<Disk>)
    requires Legal(s, run)
    ensures |t| == |run| + 1 && t[0] == Abstract(s)
    decreases |run|
  {
    if run == [] then [Abstract(s)] else [Abstract(s)] + Trace(Step(s, run[0]), run[1..])
  }

  lemma {:induction false} CalmToTheEnd(s: State, run: seq<Action>)
    requires Legal(s, run) && Calm(Run(s, run))
    ensures Calm(s)
    decreases |run|
  {
    if run != [] {
      CalmToTheEnd(Step(s, run[0]), run[1..]);
      FaultsStay(s, run[0]);
    }
  }

  lemma {:induction false} TraceIsBehaviour(s: State, run: seq<Action>)
    requires Inv(s) && Legal(s, run) && Calm(Run(s, run))
    ensures Behaviour(Trace(s, run)) && Trace(s, run)[|run|] == Abstract(Run(s, run))
    decreases |run|
  {
    if run != [] {
      var t := Step(s, run[0]);
      CalmToTheEnd(t, run[1..]);
      StepKeepsInv(s, run[0]);
      StepRefinesDisk(s, run[0]);
      TraceIsBehaviour(t, run[1..]);
    }
  }

  /**
   Linux has a disk. In every run in which no wait of core 1 runs out and no
   payload is taken for a header, what Linux sees is a behaviour of the disk of
   `DiskSpec`: each request is settled once, in one step, with a result of its own.
   */
  lemma LinuxSeesADisk(s: State, run: seq<Action>)
    requires Init(s) && Legal(s, run) && Calm(Run(s, run))
    ensures Behaviour(Trace(s, run))
    ensures Trace(s, run)[0] == Disk(s.store, Idle, [])
    ensures Trace(s, run)[|run|] == Abstract(Run(s, run))
  {
    InitInv(s);
    TraceIsBehaviour(s, run);
  }

  /** And so every successful read Linux has been given holds the latest written bytes. */
  lemma LinuxReadsWhatItWrote(s: State, run: seq<Action>, i: nat, k: nat)
    requires Init(s) && Legal(s, run) && Calm(Run(s, run))
    requires i < |Run(s, run).linux.log|
    requires var r := Run(s, run).linux.log[i]; r.status == 0 && r.request.op == READ && k < r.request.count
    ensures ReadsLatest(s.store, Run(s, run).linux.log, i, k)
  {
    LinuxSeesADisk(s, run);
    ReadsSeeLatestWrites(s.store, Trace(s, run), i, k);
  }

  // ---- The mailbox, in all runs ----

  /** The master has no hand in the mailbox or in the kernel's memory. */
  lemma MasterKeepsOff(s: State, a: Action)
    requires Enabled(s, a) && (a.MasterStep? || a.MasterExpire?)
    ensures var t := Step(s, a);
      t.box == s.box && t.mem == s.mem && t.linux == s.linux && t.core.served == s.core.served
  {
    match s.master.pc
    case MDecide =>
    case MAwaitPayload =>
    case MRead =>
    case MSend =>
    case _ =>
  }

  /** Nor has a wait of core 1 that runs out, but for the capacity. */
  lemma ExpiryKeepsOff(s: State)
    requires CoreMayExpire(s.core.pc)
    ensures var t := ExpireCore(s);
      && t.box == s.box.(capacity := t.box.capacity) && t.mem == s.mem && t.linux == s.linux
      && t.core.served == s.core.served
  {
  }

  /** What one step may do to the mailbox. */
  ghost predicate MailboxStep(s: State, t: State) {
    && (t.box.status != s.box.status ==> s.linux.submits == s.core.served + 1 && s.linux.pc.LPoll?)
    && (t.core.served != s.core.served ==>
          && t.core.served == s.core.served + 1 == s.linux.submits
          && t.box.done == s.box.seqno
          && s.box.status == s.core.status)
    && (t.linux.log != s.linux.log ==>
          && s.core.served == s.linux.submits == |t.linux.log|
          && |t.linux.log| == |s.linux.log| + 1
          && t.linux.log[..|s.linux.log|] == s.linux.log
          && t.linux.log[|s.linux.log|].request == s.linux.request
          && t.linux.log[|s.linux.log|].status == s.box.status)
  }

  lemma MailboxOnceCore(s: State, room: nat, spill: bool)
    requires WiresInv(s) && MailboxInv(s) && CoreReady(s)
    ensures MailboxStep(s, StepCore(s, room, spill))
  {
    assert CountsInv(s);
  }

  lemma MailboxOnceLinux(s: State)
    requires MailboxInv(s) && !s.linux.pc.LIdle?
    ensures MailboxStep(s, StepLinux(s))
  {
  }

  /**
   One step, whatever has gone wrong before it. The status changes only while a
   published request is outstanding. `done` catches up with `seq` once per request,
   also across the wrap of the 32-bit words. Linux is told the status once per
   request, when nothing is outstanding.
   */
  lemma MailboxOnce(s: State, a: Action)
    requires Inv(s) && Enabled(s, a)
    ensures MailboxStep(s, Step(s, a))
  {
    match a
    case LinuxStep => MailboxOnceLinux(s);
    case CoreStep(room, spill) => MailboxOnceCore(s, room, spill);
    case MasterStep(_, _, _) => MasterKeepsOff(s, a);
    case MasterExpire => MasterKeepsOff(s, a);
    case CoreExpire => ExpiryKeepsOff(s);
    case _ =>
  }

  /** What core 1 acts on is what Linux wrote before it published the request. */
  lemma DescriptorIsTheRequest(s: State)
    requires Inv(s) && s.core.pc.Decide?
    ensures s.linux.pc.LPoll? && s.linux.submits == s.core.served + 1
    ensures s.core.op == s.linux.request.op && s.core.lba == s.linux.request.lba
    ensures s.core.count == s.linux.request.count && s.core.addr == s.linux.request.addr
    ensures s.linux.request.op == WRITE ==> BufferAt(s.mem, s.core.addr) == s.linux.request.data
  {
  }

  /** `done == seq` means that nothing is outstanding, for words that wrap. */
  lemma DoneMeansDone(s: State)
    requires Inv(s)
    ensures s.box.done == s.box.seqno <==> s.linux.submits == s.core.served
  {
  }

  /** The capacity Linux is shown, once the probe has been answered, is the medium's. */
  lemma LinuxLearnsTheCapacity(s: State, run: seq<Action>)
    requires Init(s) && Legal(s, run) && Calm(Run(s, run)) && Run(s, run).core.probed
    ensures Run(s, run).box.capacity * 512 == |Run(s, run).store|
  {
    InitInv(s);
    RunKeepsInv(s, run);
  }

  // ---- The terminal ----

  /** The bytes Linux has been sent from the keyboard. */
  ghost function Fed(k: Console): seq<byte>
    requires Positions(k.fedAt, |k.sent|)
  {
    Select(k.sent, k.fedAt)
  }

  /**
   Linux has a terminal. In the same runs, the terminal is fed whole chunks of the
   link consumer's stream, in order, each at most once and without padding. What left
   the key queue or waits in it is what found room there of the keys typed, in order;
   and what Linux is fed is the typed stream with keys left out, none twice.
   */
  lemma LinuxSeesATerminal(s: State, run: seq<Action>)
    requires Init(s) && Legal(s, run) && Calm(Run(s, run))
    ensures var k := Run(s, run).console;
      && Positions(k.shown, |k.chunks|)
      && k.screen == Flatten(Select(k.chunks, k.shown))
      && Positions(k.queuedAt, |k.typed|)
      && k.sent + k.keys == Select(k.typed, k.queuedAt)
      && Positions(k.fedAt, |k.sent|)
      && IsSubsequence(Fed(k), k.typed)
  {
    InitInv(s);
    RunKeepsInv(s, run);
    var k := Run(s, run).console;
    assert ShownInv(k) && QueueInv(k);
    SelectTwice(k.typed, k.queuedAt, k.sent, k.keys, k.fedAt);
  }

  /**
   If, besides, the master never gives up on a payload, nothing is lost: the terminal
   has been fed the whole of the stream, up to the chunk that is on its way. It may
   give up on headers: a chunk whose header met nobody stays on its way for good.
   */
  lemma TerminalMissesNothing(s: State, run: seq<Action>)
    requires Init(s) && Legal(s, run) && Calm(Run(s, run))
    requires !Run(s, run).faults.payload
    ensures var k := Run(s, run).console;
      k.screen == Flatten(k.chunks) || k.screen == Flatten(Earlier(k))
    ensures var e := Run(s, run);
      e.core.pc.Top? ==> e.console.screen == Flatten(e.console.chunks)
  {
    InitInv(s);
    RunKeepsInv(s, run);
  }

  // ---- The doorbells ----

  /**
   Lockstep. Whenever the master has a request to answer it is the one core 1 is
   waiting on, core 1 is armed for that answer, and has had no other.
   */
  lemma ReplyBelongsToItsRequest(s: State, run: seq<Action>)
    requires Init(s) && Legal(s, run) && Calm(Run(s, run))
    ensures var e := Run(s, run);
      Serving(e.master.pc) ==>
        && e.master.req == HeaderOf(e.core)
        && e.core.rx == Armed(ArmedBytes(e.core.op, e.core.count))
        && (e.core.pc.SendPayload? || e.core.pc.AwaitReply?)
  {
    InitInv(s);
    RunKeepsInv(s, run);
  }

  /** A reply that comes is the whole of the answer core 1 armed for; a failed read's never does. */
  lemma FailedReadIsNotDelivered(s: State, ok: bool, spill: bool, caught: nat)
    requires Inv(s) && Calm(s) && s.master.pc.MSend?
    ensures StepMaster(s, ok, spill, caught).core.rx.Full? <==> ok && !(s.core.op == READ && s.master.status != 0)
  {
    FramingAgrees(s.core.op, s.core.count, s.master.status);
    assert |ReplyFrame(s)| == SentBytes(s.core.op, s.core.count, s.master.status);
  }

  /** Unless a header wait of the master has run out, the header goes to an armed receiver. */
  lemma HeaderMeetsArmedReceiver(s: State, run: seq<Action>)
    requires Init(s) && Legal(s, run) && Calm(Run(s, run)) && !Run(s, run).faults.header
    ensures var e := Run(s, run);
      e.core.pc.SendHeader? ==> e.master.pc.MAwaitHeader? && e.master.rx == Armed(HEADER_BYTES)
  {
    InitInv(s);
    RunKeepsInv(s, run);
  }

  /** Unless a doorbell wait of the master has run out, its doorbell is low when core 1 raises its own. */
  lemma DoorbellLowBeforeRaise(s: State, run: seq<Action>)
    requires Init(s) && Legal(s, run) && Calm(Run(s, run)) && !Run(s, run).faults.clear
    ensures Run(s, run).core.pc.Raise? ==> !Run(s, run).ms
  {
    InitInv(s);
    RunKeepsInv(s, run);
  }

  // ---- When a payload can be taken for a header ----

  /** The requests Linux has made, the current one included. */
  function Requests(l: Linux): seq<Request> {
    seq(|l.log|, i requires 0 <= i < |l.log| => l.log[i].request) + if l.pc.LIdle? then [] else [l.request]
  }

  predicate NoWrites(l: Linux) {
    forall r :: r in Requests(l) ==> r.op != WRITE
  }

  /** No payload is on the way, and none has been: neither console bytes nor a write. */
  ghost predicate Quiet(s: State) {
    && (forall i :: 0 <= i < |s.console.chunks| ==> s.console.chunks[i] == [])
    && NoWrites(s.linux)
  }

  lemma QuietSendsNothing(s: State)
    requires Inv(s) && Calm(s) && Quiet(s) && (s.core.pc.SendPayload? || s.core.pc.AwaitReply?)
    ensures !SendsPayload(s.core.op, s.core.count)
  {
    assert ConsoleInv(s);
    assert !s.linux.pc.LIdle? ==> s.linux.request in Requests(s.linux);
  }

  /** Requests and chunks are only ever added. */
  lemma OnlyAdded(s: State, a: Action)
    requires Enabled(s, a)
    ensures Requests(s.linux) <= Requests(Step(s, a).linux)
    ensures s.console.chunks <= Step(s, a).console.chunks
  {
    FaultsStay(s, a);
    match a
    case LinuxBegin(r) => assert Requests(s.linux) == Requests(Step(s, a).linux)[..|s.linux.log|];
    case LinuxStep => LinuxOnlyAdds(s);
    case CoreStep(room, spill) => CoreKeepsLinux(s, room, spill);
    case MasterStep(ok, spill, caught) => MasterKeepsOff(s, a);
    case CoreExpire => ExpiryKeepsOff(s);
    case MasterExpire => MasterKeepsOff(s, a);
    case _ =>
  }

  lemma LinuxOnlyAdds(s: State)
    requires !s.linux.pc.LIdle?
    ensures Requests(s.linux) == Requests(StepLinux(s).linux)
  {
  }

  lemma OnlyPumpAdds(s: State, a: Action)
    requires Enabled(s, a)
    ensures Step(s, a).console.chunks == if a.CorePump? then s.console.chunks + [a.chunk] else s.console.chunks
  {
    match a
    case LinuxStep => LinuxFaultsStay(s);
    case CoreStep(room, spill) => CoreFaultsStay(s, room, spill);
    case MasterStep(ok, spill, caught) => MasterFaultsStay(s, ok, spill, caught);
    case CoreExpire => CoreExpiryStays(s);
    case MasterExpire => MasterExpiryStays(s);
    case _ =>
  }

  lemma QuietBefore(s: State, a: Action)
    requires Enabled(s, a) && Quiet(Step(s, a))
    ensures Quiet(s)
  {
    OnlyAdded(s, a);
    var t := Step(s, a);
    forall r | r in Requests(s.linux) ensures r.op != WRITE {
      var i :| 0 <= i < |Requests(s.linux)| && Requests(s.linux)[i] == r;
      assert Requests(t.linux)[i] == r;
    }
    forall i | 0 <= i < |s.console.chunks| ensures s.console.chunks[i] == [] {
      assert t.console.chunks[i] == s.console.chunks[i];
    }
  }

  lemma CoreKeepsLinux(s: State, room: nat, spill: bool)
    requires CoreReady(s)
    ensures StepCore(s, room, spill).linux == s.linux
  {
  }

  /** Core 1 sends a payload, or has just sent one that was not met. */
  predicate PayloadOut(c: Core) {
    c.pc.SendPayload? || (c.air.Passing? && !c.air.header)
  }

  /** A receiver armed for a header takes words of a payload only when there is one on the wire. */
  lemma MistakeIsCores(s: State, a: Action)
    requires Enabled(s, a) && !s.faults.mistaken && Step(s, a).faults.mistaken
    ensures PayloadOut(s.core)
    ensures s.master.pc.MArm? || ((s.master.pc.MRaise? || s.master.pc.MAwaitHeader?) && !s.master.rx.Off?)
  {
    match a
    case CoreStep(room, spill) => MistakeIsSending(s, room, spill);
    case MasterStep(ok, spill, caught) => MasterFaultsStay(s, ok, spill, caught);
    case LinuxStep => LinuxFaultsStay(s);
    case MasterExpire => MasterExpiryStays(s);
    case CoreExpire => CoreExpiryStays(s);
    case _ =>
  }

  lemma MistakeIsSending(s: State, room: nat, spill: bool)
    requires CoreReady(s) && !s.faults.mistaken && StepCore(s, room, spill).faults.mistaken
    ensures s.core.pc.SendPayload? && (s.master.pc.MRaise? || s.master.pc.MAwaitHeader?) && !s.master.rx.Off?
  {
    hide DecodeReply, EncodeHeader, Payload;
  }

  /** And that takes a doorbell wait of the master that has run out. */
  lemma MistakeNeedsAWait(s: State, a: Action)
    requires Inv(s) && Calm(s) && Enabled(s, a) && Step(s, a).faults.mistaken
    ensures s.faults.clear && !Quiet(s)
  {
    MistakeIsCores(s, a);
    if Quiet(s) {
      QuietSendsNothing(s);
    }
  }

  /**
   The condition on the results above, in terms of waits and of what is sent: a run in which no
   wait of core 1 runs out is calm if no doorbell wait of the master does either, or if neither
   console bytes nor writes have been sent. `AlwaysCalm` in `PipelineWitness` has the other half.
   */
  lemma {:induction false} CalmUnless(s: State, run: seq<Action>)
    requires Init(s) && Legal(s, run)
    requires !Run(s, run).faults.core && (!Run(s, run).faults.clear || Quiet(Run(s, run)))
    ensures Calm(Run(s, run))
  {
    InitInv(s);
    CalmWhile(s, run);
  }

  lemma {:induction false} CalmWhile(s: State, run: seq<Action>)
    requires Inv(s) && Calm(s) && Legal(s, run)
    requires !Run(s, run).faults.core
    requires !Run(s, run).faults.clear || Quiet(Run(s, run))
    ensures Calm(Run(s, run))
    decreases |run|
  {
    if run != [] {
      var t := Step(s, run[0]);
      StepKeepsInv(s, run[0]);
      RunFaultsStay(t, run[1..]);
      FaultsStay(s, run[0]);
      if Quiet(Run(s, run)) {
        QuietAllAlong(t, run[1..]);
        QuietBefore(s, run[0]);
      }
      if t.faults.mistaken {
        MistakeNeedsAWait(s, run[0]);
      }
      CalmWhile(t, run[1..]);
    }
  }

  lemma {:induction false} QuietAllAlong(s: State, run: seq<Action>)
    requires Legal(s, run) && Quiet(Run(s, run))
    ensures Quiet(s)
    decreases |run|
  {
    if run != [] {
      QuietAllAlong(Step(s, run[0]), run[1..]);
      QuietBefore(s, run[0]);
    }
  }

  lemma {:induction false} RunFaultsStay(s: State, run: seq<Action>)
    requires Legal(s, run)
    ensures NoWorse(s.faults, Run(s, run).faults)
    decreases |run|
  {
    if run != [] {
      FaultsStay(s, run[0]);
      RunFaultsStay(Step(s, run[0]), run[1..]);
    }
  }

  // ---- After anything at all ----

  lemma CoreWritesBuffer(s: State, room: nat, spill: bool)
    requires WiresInv(s) && CoreReady(s) && StepCore(s, room, spill).mem != s.mem
    ensures s.core.pc.AwaitReply? && s.core.op == READ && s.core.rx.Full?
    ensures |s.core.rx.data| == ArmedBytes(s.core.op, s.core.count)
    ensures DecodeReply(s.core.rx.data).status == 0
    ensures StepCore(s, room, spill).mem == s.mem[s.core.addr := s.core.rx.data[REPLY_BYTES..]]
  {
  }

  /**
   In every run: the kernel's buffer is written by core 1 only from a complete
   reply, of the length armed for, that reports success.
   */
  lemma BufferOnlyFromWholeReply(s: State, a: Action)
    requires Inv(s) && Enabled(s, a) && !a.LinuxBegin? && Step(s, a).mem != s.mem
    ensures s.core.pc.AwaitReply? && s.core.op == READ && s.core.rx.Full?
    ensures |s.core.rx.data| == ArmedBytes(s.core.op, s.core.count)
    ensures DecodeReply(s.core.rx.data).status == 0
    ensures Step(s, a).mem == s.mem[s.core.addr := s.core.rx.data[REPLY_BYTES..]]
  {
    match a
    case MasterStep(_, _, _) => MasterKeepsOff(s, a);
    case MasterExpire => MasterKeepsOff(s, a);
    case CoreStep(room, spill) => CoreWritesBuffer(s, room, spill);
    case CoreExpire => ExpiryKeepsOff(s);
    case _ =>
  }

  /** Core 1 has begun a transaction and neither has its reply nor has given up. */
  predicate Exchanging(pc: CorePc) {
    pc.Raise? || pc.AwaitReady? || pc.ArmReply? || pc.SendHeader? || pc.SendPayload? || pc.AwaitReply?
  }

  lemma CoreEndsExchange(s: State, room: nat, spill: bool)
    requires WiresInv(s) && CoreReady(s) && Exchanging(s.core.pc) && !Exchanging(StepCore(s, room, spill).core.pc)
    ensures s.core.pc.AwaitReply? && s.core.rx.Full? && |s.core.rx.data| == ArmedBytes(s.core.op, s.core.count)
    ensures StepCore(s, room, spill).core.status == DecodeReply(s.core.rx.data).status
  {
    hide DecodeReply, EncodeHeader, Deliver, Payload;
  }

  lemma CoreKeepsStatus(s: State, room: nat, spill: bool)
    requires CoreReady(s) && !Exchanging(s.core.pc)
    ensures var t := StepCore(s, room, spill).core;
      t.status == s.core.status || (s.core.pc.Decide? && t.status == EINVAL)
  {
  }

  lemma ExpiryIsNoSuccess(s: State)
    requires CoreMayExpire(s.core.pc)
    ensures Exchanging(s.core.pc) ==> ExpireCore(s).core.status != 0
    ensures !Exchanging(s.core.pc) ==> ExpireCore(s).core.status == s.core.status
  {
  }

  lemma OthersKeepCore(s: State, a: Action)
    requires Enabled(s, a) && (a.LinuxBegin? || a.LinuxStep? || a.MasterStep? || a.MasterExpire? || a.KeyPress?)
    ensures Step(s, a).core == s.core.(rx := Step(s, a).core.rx, keyBase := Step(s, a).core.keyBase)
  {
    hide DecodeHeader, ReplyFrame, Deliver, StorageRead, StorageWrite, Catch;
    match a
    case LinuxStep =>
    case MasterStep(_, _, _) =>
    case MasterExpire =>
    case _ =>
  }

  /**
   In every run, for reads and writes alike: a transaction comes out as a success only if its reply, of
   the length armed for, arrived whole and said so; and what came out of it stays until the next one.
   */
  lemma SuccessOnlyFromWholeReply(s: State, a: Action)
    requires Inv(s) && Enabled(s, a)
    ensures var c, c' := s.core, Step(s, a).core;
      && (Exchanging(c.pc) && !Exchanging(c'.pc) && c'.status == 0 ==>
            c.pc.AwaitReply? && c.rx.Full? && |c.rx.data| == ArmedBytes(c.op, c.count) &&
            DecodeReply(c.rx.data).status == 0)
      && (!Exchanging(c.pc) ==> c'.status == c.status || (c.pc.Decide? && c'.status == EINVAL))
  {
    match a
    case CoreStep(room, spill) =>
      if Exchanging(s.core.pc) {
        if !Exchanging(StepCore(s, room, spill).core.pc) {
          CoreEndsExchange(s, room, spill);
        }
      } else {
        CoreKeepsStatus(s, room, spill);
      }
    case CoreExpire => ExpiryIsNoSuccess(s);
    case CoreProbe =>
    case CorePump(_) =>
    case CoreSkip =>
    case _ => OthersKeepCore(s, a);
  }
}
