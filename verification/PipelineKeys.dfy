/** What becomes of a key that is typed, on its way to Linux. */
module PipelineKeys {
  import opened Words
  import opened Wire
  import KeyQueue
  import opened Pipeline
  import opened PipelineInv
  import opened PipelineStreams
  import opened PipelineTheorems

  /** Core 1 waits for the reply of a console transaction, and it is there. */
  predicate HasConsoleReply(s: State) {
    s.core.pc.AwaitReply? && ReplyIn(s.core) && |s.core.rx.data| >= REPLY_BYTES
  }

  predicate TakesConsoleReply(s: State, a: Action) {
    a.CoreStep? && HasConsoleReply(s)
  }

  /** What settles a key's fate, one way or another. */
  predicate Because(s: State, a: Action, fate: Fate) {
    match fate
    case Fed => TakesConsoleReply(s, a) && DecodeReply(s.core.rx.data).status == 0
    case LostWithReply =>
      || (a.MasterStep? && s.master.pc.MSend? && !a.ok)
      || (TakesConsoleReply(s, a) && DecodeReply(s.core.rx.data).status != 0)
    case LostAtFullRing => TakesConsoleReply(s, a) && a.room < DecodeReply(s.core.rx.data).value
  }

  /** Every key whose fate a step settles is fed, or lost for a reason. */
  ghost predicate FatesExplained(s: State, a: Action, t: State) {
    && s.console.fates <= t.console.fates
    && (forall p :: |s.console.fates| <= p < |t.console.fates| ==> Because(s, a, t.console.fates[p]))
  }

  lemma CoreExplainsFates(s: State, room: nat, spill: bool)
    requires CoreReady(s) && Inv(s) && Calm(s)
    ensures FatesExplained(s, CoreStep(room, spill), StepCore(s, room, spill))
  {
    hide EncodeHeader, Deliver, Payload, Inv, DecodeReply;
    var t := StepCore(s, room, spill);
    if s.core.pc.AwaitReply? {
      assert t.console.fates[..|s.console.fates|] == s.console.fates;
    } else {
      assert t.console == s.console;
    }
  }

  lemma MasterExplainsFates(s: State, ok: bool, spill: bool, caught: nat)
    requires MasterReady(s) && Inv(s) && Calm(s)
    ensures FatesExplained(s, MasterStep(ok, spill, caught), StepMaster(s, ok, spill, caught))
  {
    var t := StepMaster(s, ok, spill, caught);
    if s.master.pc.MSend? && s.core.op == CON {
      SendsTheKeys(s, ok, spill, caught);
      hide Inv;
      assert t.console.fates[..|s.console.fates|] == s.console.fates;
    } else if s.master.pc.MSend? {
      assert s.master.req.op != CON;
      assert All(0, LostWithReply) == [];
      assert t.console.fates == s.console.fates;
    } else {
      MasterKeepsFates(s, ok, spill, caught);
    }
  }

  lemma MasterKeepsFates(s: State, ok: bool, spill: bool, caught: nat)
    requires MasterReady(s) && !s.master.pc.MSend?
    ensures StepMaster(s, ok, spill, caught).console.fates == s.console.fates
  {
  }

  /**
   A key is lost for one of four reasons and no other: the queue was full when it was typed, the
   master's transmitter gave up on the reply that carried it, that reply reported a failure, or the
   ring to Linux had no room for it.
   */
  lemma KeyLostOnlyFor(s: State, a: Action)
    requires Inv(s) && Enabled(s, a) && Calm(s)
    ensures FatesExplained(s, a, Step(s, a))
    ensures var k, k' := s.console, Step(s, a).console;
      && (k'.typed != k.typed ==> a.KeyPress?)
      && (a.KeyPress? ==> k'.typed == k.typed + [a.key])
      && (a.KeyPress? ==> k'.queuedAt == if |k.keys| < KEY_QUEUE then k.queuedAt + [|k.typed|] else k.queuedAt)
  {
    match a
    case CoreStep(room, spill) =>
      CoreExplainsFates(s, room, spill);
      CoreKeepsTyped(s, room, spill);
    case MasterStep(ok, spill, caught) =>
      MasterExplainsFates(s, ok, spill, caught);
      MasterKeepsTyped(s, ok, spill, caught);
    case LinuxStep => LinuxFaultsStay(s);
    case CoreExpire => CoreExpiryStays(s);
    case MasterExpire => MasterExpiryStays(s);
    case _ =>
  }

  lemma CoreKeepsTyped(s: State, room: nat, spill: bool)
    requires CoreReady(s)
    ensures StepCore(s, room, spill).console.typed == s.console.typed
  {
    hide EncodeHeader, Deliver, Payload, DecodeReply;
  }

  lemma MasterKeepsTyped(s: State, ok: bool, spill: bool, caught: nat)
    requires MasterReady(s)
    ensures StepMaster(s, ok, spill, caught).console.typed == s.console.typed
  {
    hide ReplyFrame, Deliver;
  }

  /** Console transactions succeed, as far as they have got. */
  ghost predicate StatusGood(s: State) {
    && (s.core.op == CON && (s.master.pc.MArmPayload? || s.master.pc.MAwaitPayload? || s.master.pc.MSend?) ==>
          s.master.status == 0)
    && (ReplyIn(s.core) ==> exists n: nat :: KeysIn(s, 0, n))
  }

  /** Core 1 waits for a reply that nobody is going to send. */
  predicate Stranded(s: State) {
    && (s.core.pc.SendPayload? || s.core.pc.AwaitReply?)
    && s.core.op == CON && s.core.rx.Armed?
    && !Serving(s.master.pc) && !HeaderIn(s.master)
  }

  predicate AllFed(fates: seq<Fate>) {
    forall p :: 0 <= p < |fates| ==> fates[p].Fed?
  }

  /** If there is a console reply to be taken, and a good one, its keys find room. */
  predicate FitsKeys(s: State, room: nat) {
    HasConsoleReply(s) ==>
      var r := DecodeReply(s.core.rx.data); r.status == 0 ==> Min(r.value, MAX_KEYS) <= room
  }

  /** Every key that left the queue is with Linux or on its way, unless core 1 has been left waiting. */
  ghost predicate KeysWell(s: State) {
    StatusGood(s) && (AllFed(s.console.fates) || Stranded(s))
  }

  lemma StatusFrame(s: State, t: State)
    requires StatusGood(s)
    requires t.console.fates == s.console.fates && t.console.sent == s.console.sent
    requires t.console.fedAt == s.console.fedAt
    requires ReplyIn(t.core) ==> ReplyIn(s.core) && t.core.rx == s.core.rx && t.core.keyBase == s.core.keyBase
    requires t.core.op == CON && (t.master.pc.MArmPayload? || t.master.pc.MAwaitPayload? || t.master.pc.MSend?) ==>
      t.master.status == 0
    ensures StatusGood(t)
  {
    if ReplyIn(t.core) {
      var n: nat :| KeysIn(s, 0, n);
      assert KeysIn(t, 0, n);
    }
  }

  lemma CoreStaysWell(s: State, room: nat, spill: bool)
    requires Inv(s) && Calm(s) && KeysWell(s) && CoreReady(s) && Calm(StepCore(s, room, spill))
    requires !s.core.pc.AwaitReply?
    ensures KeysWell(StepCore(s, room, spill))
  {
    CoreKeepsStatus(s, room, spill);
    hide StatusGood, KeysInv, ConsoleInv, EncodeHeader, Payload, ResultInv, MailboxInv;
    assert StepCore(s, room, spill).console == s.console;
    if Stranded(s) {
      assert s.core.pc.SendPayload?;
    }
  }

  lemma CoreKeepsStatus(s: State, room: nat, spill: bool)
    requires PhaseInv(s) && WiresInv(s) && StatusGood(s) && CoreReady(s) && !s.core.pc.AwaitReply?
    ensures StatusGood(StepCore(s, room, spill))
  {
    hide EncodeHeader, Payload, KeysIn;
    var t := StepCore(s, room, spill);
    assert Serving(s.master.pc) ==> AwaitsReply(s.core);
    assert ReplyIn(t.core) ==> ReplyIn(s.core) && t.core.rx == s.core.rx;
    StatusFrame(s, t);
  }

  lemma ReplyFeedsAll(s: State, room: nat, n: nat)
    requires KeysIn(s, 0, n) && AllFed(s.console.fates) && FitsKeys(s, room)
    requires s.core.pc.AwaitReply? && CoreReady(s) && s.core.op == CON
    ensures AllFed(TakeReply(s, room).console.fates) && TakeReply(s, room).core.rx.Off?
  {
    ReplyRoundTrip(Reply(0, n), s.console.sent[s.core.keyBase..s.core.keyBase + n] + Zeros(MAX_KEYS - n));
    hide EncodeReply, DecodeReply;
    assert TakeReply(s, room).console.fates == s.console.fates + (All(n, Fate.Fed) + All(0, LostAtFullRing));
  }

  lemma ReplyKeepsFates(s: State, room: nat)
    requires s.core.pc.AwaitReply? && CoreReady(s) && s.core.op != CON
    ensures TakeReply(s, room).console == s.console && TakeReply(s, room).core.rx.Off?
  {
  }

  lemma ReplyStaysWell(s: State, room: nat)
    requires PhaseInv(s) && KeysWell(s) && CoreReady(s) && s.core.pc.AwaitReply? && FitsKeys(s, room)
    ensures KeysWell(TakeReply(s, room))
  {
    hide EncodeHeader;
    assert !Serving(s.master.pc);
    if s.core.op == CON {
      var n: nat :| KeysIn(s, 0, n);
      ReplyFeedsAll(s, room, n);
    } else {
      ReplyKeepsFates(s, room);
    }
    hide KeysIn, AllFed;
    assert TakeReply(s, room).master == s.master;
  }

  lemma MasterStaysWell(s: State, ok: bool, spill: bool, caught: nat)
    requires Inv(s) && Calm(s) && KeysWell(s) && MasterReady(s) && !s.master.pc.MSend?
    requires Calm(StepMaster(s, ok, spill, caught))
    ensures KeysWell(StepMaster(s, ok, spill, caught))
  {
    hide KeysIn, EncodeHeader;
    var t := StepMaster(s, ok, spill, caught);
    MasterKeepsFates(s, ok, spill, caught);
    if s.master.pc.MAwaitHeader? {
      assert HeaderIn(s.master);
    }
    StatusFrame(s, t);
  }

  lemma SendStaysWell(s: State, ok: bool, spill: bool, caught: nat)
    requires Inv(s) && Calm(s) && KeysWell(s) && s.master.pc.MSend?
    ensures KeysWell(StepMaster(s, ok, spill, caught))
  {
    var t := StepMaster(s, ok, spill, caught);
    assert Serving(s.master.pc) && AwaitsReply(s.core);
    if s.core.op == CON {
      SendsTheKeys(s, ok, spill, caught);
      hide KeysIn;
      if ok {
        assert t.console.fates == s.console.fates;
      }
    } else {
      assert All(0, LostWithReply) == [];
      assert t.console.fates == s.console.fates;
    }
  }

  lemma OthersStayWell(s: State, a: Action)
    requires Inv(s) && Calm(s) && KeysWell(s) && Enabled(s, a) && !Step(s, a).faults.payload
    requires !a.CoreStep? && !a.MasterStep? && !a.CoreExpire? && !a.KeyPress?
    ensures KeysWell(Step(s, a))
  {
    hide KeysIn, KeysInv, ConsoleInv, ResultInv, MailboxInv, EncodeHeader, EncodeReply;
    assert Serving(s.master.pc) ==> AwaitsReply(s.core);
    match a
    case LinuxBegin(_) => StatusFrame(s, Step(s, a));
    case LinuxStep => LinuxFaultsStay(s); LinuxKeepsLink(s); StatusFrame(s, Step(s, a));
    case CoreProbe => StatusFrame(s, Step(s, a));
    case CorePump(_) => StatusFrame(s, Step(s, a));
    case CoreSkip => StatusFrame(s, Step(s, a));
    case MasterExpire => StatusFrame(s, Step(s, a));
  }

  lemma LinuxKeepsLink(s: State)
    requires !s.linux.pc.LIdle?
    ensures StepLinux(s).core == s.core && StepLinux(s).master == s.master
  {
  }

  lemma PressStaysWell(s: State, key: byte)
    requires KeysWell(s)
    ensures KeysWell(Press(s, key))
  {
    StatusFrame(s, Press(s, key));
  }

  lemma StepStaysWell(s: State, a: Action)
    requires Inv(s) && Calm(s) && KeysWell(s) && Enabled(s, a) && Calm(Step(s, a)) && !Step(s, a).faults.payload
    requires a.CoreStep? ==> FitsKeys(s, a.room)
    ensures KeysWell(Step(s, a))
  {
    match a
    case CoreStep(room, spill) =>
      if s.core.pc.AwaitReply? { ReplyStaysWell(s, room); } else { CoreStaysWell(s, room, spill); }
    case MasterStep(ok, spill, caught) =>
      if s.master.pc.MSend? { SendStaysWell(s, ok, spill, caught); } else { MasterStaysWell(s, ok, spill, caught); }
    case CoreExpire =>
    case KeyPress(key) => PressStaysWell(s, key);
    case _ => OthersStayWell(s, a);
  }

  /** The ring to Linux has room for the keys of a reply whenever core 1 takes one. */
  ghost predicate RoomForKeys(s: State, run: seq<Action>)
    decreases |run|
  {
    run != [] && Enabled(s, run[0]) ==>
      (run[0].CoreStep? ==> FitsKeys(s, run[0].room)) && RoomForKeys(Step(s, run[0]), run[1..])
  }

  lemma {:induction false} RunStaysWell(s: State, run: seq<Action>)
    requires Inv(s) && KeysWell(s) && Legal(s, run) && RoomForKeys(s, run)
    requires Calm(Run(s, run)) && !Run(s, run).faults.payload
    ensures KeysWell(Run(s, run))
    decreases |run|
  {
    if run != [] {
      var t := Step(s, run[0]);
      StepKeepsInv(s, run[0]);
      CalmToTheEnd(t, run[1..]);
      RunFaultsStay(t, run[1..]);
      FaultsStay(s, run[0]);
      StepStaysWell(s, run[0]);
      RunStaysWell(t, run[1..]);
    }
  }

  lemma LastPosition(at: seq<nat>, n: nat, i: nat)
    requires Positions(at, n) && i < |at| && at[i] == n - 1
    ensures i == |at| - 1
  {
    assert n - 1 <= at[|at| - 1] < n;
  }

  lemma {:induction false} AllPositions(at: seq<nat>, n: nat)
    requires Positions(at, n) && forall p :: 0 <= p < n ==> p in at
    ensures at == Range(0, n)
    decreases n
  {
    if n == 0 {
      assert at == [];
    } else {
      assert n - 1 in at;
      var i :| 0 <= i < |at| && at[i] == n - 1;
      LastPosition(at, n, i);
      var front := at[..i];
      forall p | 0 <= p < n - 1 ensures p in front {
        assert p in at;
        var j :| 0 <= j < |at| && at[j] == p;
        assert front[j] == p;
      }
      AllPositions(front, n - 1);
      assert at == front + [n - 1];
    }
  }

  /** With no reply on its way, all that left the queue is with Linux. */
  lemma WellIsFed(e: State)
    requires Inv(e) && Calm(e) && KeysWell(e) && !ReplyIn(e.core) && !Stranded(e)
    ensures Positions(e.console.fedAt, |e.console.sent|)
    ensures e.console.fedAt == Range(0, |e.console.sent|) && PipelineTheorems.Fed(e.console) == e.console.sent
  {
    assert KeysInv(e);
    AllPositions(e.console.fedAt, |e.console.sent|);
  }

  /**
   In calm runs in which no wait of the master for a payload runs out, and the ring has room, every
   key that has left the queue is with Linux, in order, whenever core 1 is between transactions.
   */
  lemma EveryKeyArrives(s: State, run: seq<Action>)
    requires Init(s) && Legal(s, run) && Calm(Run(s, run)) && !Run(s, run).faults.payload
    requires RoomForKeys(s, run)
    ensures var e := Run(s, run);
      e.core.pc.Top? ==> e.console.fedAt == Range(0, |e.console.sent|)
  {
    InitInv(s);
    RunKeepsInv(s, run);
    RunStaysWell(s, run);
    if Run(s, run).core.pc.Top? {
      WellIsFed(Run(s, run));
    }
  }

  // ---- The keys of one transaction ----

  /**
   The master answers a console request with the keys that wait, the oldest first and no more than 32,
   just as its key queue hands them over; answered or not, they leave the queue.
   */
  lemma AnswerTakesKeys(s: State, ok: bool, spill: bool, caught: nat, taken: seq<byte>, left: seq<byte>)
    requires Inv(s) && Calm(s) && s.master.pc.MSend? && s.core.op == CON
    requires KeyQueue.IsTake(s.console.keys, 32, taken, left)
    ensures var k := StepMaster(s, ok, spill, caught).console; k.sent == s.console.sent + taken && k.keys == left
  {
    assert taken == s.console.keys[..|taken|] && left == s.console.keys[|taken|..];
    hide ReplyFrame, Deliver;
  }

  /** The console request in hand has had its answer, or there is none in hand. */
  predicate Answered(s: State) {
    s.core.op == CON ==>
      && !s.core.pc.Raise? && !s.core.pc.AwaitReady? && !s.core.pc.ArmReply? && !s.core.pc.SendHeader?
      && !HeaderIn(s.master) && !Serving(s.master.pc)
  }

  lemma ReplyStaysAnswered(s: State, room: nat)
    requires PhaseInv(s) && CoreReady(s) && s.core.pc.AwaitReply? && Answered(s)
    ensures Answered(TakeReply(s, room)) && TakeReply(s, room).console.sent == s.console.sent
  {
    hide DecodeReply, EncodeHeader, All;
  }

  lemma DecideStaysAnswered(s: State, room: nat, spill: bool)
    requires MailboxInv(s) && PhaseInv(s) && s.core.pc.Decide?
    ensures Answered(StepCore(s, room, spill)) && StepCore(s, room, spill).console.sent == s.console.sent
  {
  }

  lemma CoreStaysAnswered(s: State, room: nat, spill: bool)
    requires WiresInv(s) && PhaseInv(s) && CoreReady(s) && !s.core.pc.AwaitReply? && !s.core.pc.Decide?
    requires Answered(s) && Calm(StepCore(s, room, spill))
    ensures Answered(StepCore(s, room, spill)) && StepCore(s, room, spill).console.sent == s.console.sent
  {
    hide EncodeHeader, Payload;
    match s.core.pc
    case SendHeader =>
    case SendPayload =>
    case AwaitClear =>
    case _ =>
  }

  lemma MasterStaysAnswered(s: State, ok: bool, spill: bool, caught: nat)
    requires Inv(s) && Calm(s) && MasterReady(s) && Answered(s) && Calm(StepMaster(s, ok, spill, caught))
    ensures Answered(StepMaster(s, ok, spill, caught))
    ensures StepMaster(s, ok, spill, caught).console.sent == s.console.sent
  {
    hide ReplyFrame, Deliver, EncodeHeader, DecodeHeader, KeysInv, ConsoleInv, ResultInv, LosslessInv;
    match s.master.pc
    case MArm =>
    case MAwaitHeader =>
    case MAwaitPayload =>
    case MSend =>
    case _ =>
  }

  lemma CoreStepStaysAnswered(s: State, room: nat, spill: bool)
    requires Inv(s) && Calm(s) && CoreReady(s) && Answered(s) && Calm(StepCore(s, room, spill))
    ensures Answered(StepCore(s, room, spill)) && StepCore(s, room, spill).console.sent == s.console.sent
  {
    assert WiresInv(s) && MailboxInv(s) && PhaseInv(s);
    hide Inv, WiresInv, MailboxInv, PhaseInv, Answered, StepCore;
    match s.core.pc
    case AwaitReply => ReplyAsStep(s, room, spill); ReplyStaysAnswered(s, room);
    case Decide => DecideStaysAnswered(s, room, spill);
    case _ => CoreStaysAnswered(s, room, spill);
  }

  lemma ReplyAsStep(s: State, room: nat, spill: bool)
    requires CoreReady(s) && s.core.pc.AwaitReply?
    ensures StepCore(s, room, spill) == TakeReply(s, room)
  {
    hide TakeReply;
  }

  lemma OthersStayAnswered(s: State, a: Action)
    requires Enabled(s, a) && Answered(s) && !a.CoreStep? && !a.MasterStep? && !a.CorePump? && !a.CoreExpire?
    ensures Answered(Step(s, a)) && Step(s, a).console.sent == s.console.sent
  {
    match a
    case LinuxStep =>
      LinuxFaultsStay(s);
      LinuxKeepsLink(s);
    case MasterExpire => MasterExpiryStays(s);
    case _ =>
  }

  lemma StepStaysAnswered(s: State, a: Action)
    requires Inv(s) && Calm(s) && Enabled(s, a) && Calm(Step(s, a)) && Answered(s) && !a.CorePump?
    ensures Answered(Step(s, a)) && Step(s, a).console.sent == s.console.sent
  {
    hide Answered, Inv;
    match a
    case CoreStep(room, spill) => CoreStepStaysAnswered(s, room, spill);
    case MasterStep(ok, spill, caught) => MasterStaysAnswered(s, ok, spill, caught);
    case CoreExpire =>
    case _ => OthersStayAnswered(s, a);
  }

  lemma {:induction false} RunStaysAnswered(s: State, run: seq<Action>)
    requires Inv(s) && Legal(s, run) && Calm(Run(s, run)) && Answered(s)
    requires forall a :: a in run ==> !a.CorePump?
    ensures Run(s, run).console.sent == s.console.sent
    decreases |run|
  {
    if run != [] {
      var t := Step(s, run[0]);
      CalmToTheEnd(t, run[1..]);
      FaultsStay(s, run[0]);
      StepStaysAnswered(s, run[0]);
      StepKeepsInv(s, run[0]);
      RunStaysAnswered(t, run[1..]);
    }
  }

  lemma AnsweringAnswers(s: State, ok: bool, spill: bool, caught: nat)
    requires Inv(s) && Calm(s) && s.master.pc.MSend? && s.core.op == CON
    ensures Answered(StepMaster(s, ok, spill, caught))
  {
    assert AwaitsReply(s.core);
    hide ReplyFrame, Deliver, KeysInv, ConsoleInv, ResultInv;
  }

  /**
   What one console transaction brings. Some run from power-up has come to the master's answer to a
   console request; the answer goes out; and by the time core 1 is back at its loop, with no new console
   transaction begun, Linux has been fed what it had been fed before and, after that, just the keys that
   waited then, the oldest first and no more than 32.
   */
  lemma TransactionFeedsKeys(
    s0: State, before: seq<Action>, after: seq<Action>, spill: bool, caught: nat, taken: seq<byte>, left: seq<byte>)
    requires Init(s0) && Legal(s0, before) && RoomForKeys(s0, before)
    requires var s := Run(s0, before);
      && s.master.pc.MSend? && s.core.op == CON && KeyQueue.IsTake(s.console.keys, 32, taken, left)
      && var t := StepMaster(s, true, spill, caught);
         && Legal(t, after) && RoomForKeys(t, after) && (forall a :: a in after ==> !a.CorePump?)
         && var e := Run(t, after);
            Calm(e) && !e.faults.payload && e.core.pc.Top?
    ensures var s := Run(s0, before);
      var e := Run(StepMaster(s, true, spill, caught), after);
      && Positions(s.console.fedAt, |s.console.sent|) && Positions(e.console.fedAt, |e.console.sent|)
      && PipelineTheorems.Fed(e.console) == PipelineTheorems.Fed(s.console) + taken
  {
    var s := Run(s0, before);
    var a := MasterStep(true, spill, caught);
    var t := StepMaster(s, true, spill, caught);
    var e := Run(t, after);
    assert t == Step(s, a);
    hide Init, StepMaster, RoomForKeys, Run, Legal, KeyQueue.IsTake;
    CalmToTheEnd(t, after);
    RunFaultsStay(t, after);
    FaultsStay(s, a);
    InitInv(s0);
    RunKeepsInv(s0, before);
    RunStaysWell(s0, before);
    StepKeepsInv(s, a);
    StepStaysWell(s, a);
    AnswerTakesKeys(s, true, spill, caught, taken, left);
    AnsweringAnswers(s, true, spill, caught);
    RunStaysAnswered(t, after);
    RunKeepsInv(t, after);
    RunStaysWell(t, after);
    WellIsFed(s);
    WellIsFed(e);
  }
}
