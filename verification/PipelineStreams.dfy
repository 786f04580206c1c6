/** Each step keeps the invariants about the byte streams. */
module PipelineStreams {
  import opened Words
  import opened Wire
  import opened Pipeline
  import opened PipelineInv

  // ---- The console ----

  /** A new chunk, of which nothing has been shown. */
  lemma PumpKeepsConsole(s: State, chunk: seq<byte>)
    requires Inv(s) && Calm(s) && Enabled(s, CorePump(chunk))
    ensures ConsoleInv(Step(s, CorePump(chunk)))
  {
    var k, k' := s.console, Step(s, CorePump(chunk)).console;
    assert Select(k'.chunks, k'.shown) == Select(k.chunks, k.shown);
  }

  lemma ShowLast(k: Console, k': Console)
    requires ShownInv(k) && k.chunks != []
    requires forall i :: 0 <= i < |k.shown| ==> k.shown[i] < |k.chunks| - 1
    requires k'.chunks == k.chunks && k'.shown == k.shown + [|k.chunks| - 1]
    requires k'.screen == k.screen + k.chunks[|k.chunks| - 1]
    ensures ShownInv(k')
  {
    var last := k.chunks[|k.chunks| - 1];
    assert Select(k'.chunks, k'.shown) == Select(k.chunks, k.shown) + [last];
    FlattenSnoc(Select(k.chunks, k.shown), last);
  }

  /** The chunk in hand reaches the terminal, without its padding. */
  lemma PayloadKeepsConsole(s: State, ok: bool, spill: bool, caught: nat)
    requires Inv(s) && Calm(s) && s.master.pc.MAwaitPayload? && MasterReady(s)
    ensures ConsoleInv(StepMaster(s, ok, spill, caught))
  {
    if s.master.req.op == CON {
      assert s.master.rx.data[..s.master.req.count] == s.core.out;
      assert NotYetShown(s);
      ShowLast(s.console, StepMaster(s, ok, spill, caught).console);
    } else {
      assert ShownInv(StepMaster(s, ok, spill, caught).console);
    }
  }

  lemma CoreKeepsConsole(s: State, room: nat, spill: bool)
    requires Inv(s) && Calm(s) && !s.core.pc.AwaitReply? && CoreReady(s)
    ensures Calm(StepCore(s, room, spill)) ==> ConsoleInv(StepCore(s, room, spill))
  {
    assert ConsoleInv(s);
    if Calm(StepCore(s, room, spill)) {
      CoreKeepsChunk(s, room, spill);
    }
  }

  lemma CoreKeepsChunk(s: State, room: nat, spill: bool)
    requires WiresInv(s) && MailboxInv(s) && PhaseInv(s) && !s.core.pc.AwaitReply? && CoreReady(s)
    requires Calm(StepCore(s, room, spill))
    ensures var t := StepCore(s, room, spill);
      && t.console == s.console
      && (InTransaction(t.core.pc) && t.core.op == CON ==>
            InTransaction(s.core.pc) && s.core.op == CON && t.core.out == s.core.out)
      && (NotYetShown(t) ==> NotYetShown(s))
  {
    hide EncodeHeader, Payload;
    match s.core.pc
    case Decide =>
    case SendHeader =>
    case SendPayload =>
    case AwaitClear =>
    case _ =>
  }

  lemma ReplyKeepsConsole(s: State, room: nat, spill: bool)
    requires PhaseInv(s) && ConsoleInv(s) && s.core.pc.AwaitReply? && CoreReady(s)
    ensures ConsoleInv(StepCore(s, room, spill))
  {
    ReplyKeepsChunks(s, room);
    hide TakeReply, Select, EncodeHeader;
    assert ShownInv(StepCore(s, room, spill).console);
    assert !NotYetShown(StepCore(s, room, spill));
  }

  lemma ReplyKeepsChunks(s: State, room: nat)
    requires s.core.pc.AwaitReply? && CoreReady(s)
    ensures var t := TakeReply(s, room);
      && t.console.chunks == s.console.chunks
      && t.console.shown == s.console.shown && t.console.screen == s.console.screen
      && t.core.pc.Lower? && t.core.op == s.core.op && t.core.out == s.core.out && t.master == s.master
  {
    hide DecodeReply, All, Range;
  }

  lemma MasterKeepsChunk(s: State, ok: bool, spill: bool, caught: nat)
    requires WiresInv(s) && PhaseInv(s) && !s.master.pc.MAwaitPayload? && MasterReady(s)
    requires Calm(StepMaster(s, ok, spill, caught))
    ensures var t := StepMaster(s, ok, spill, caught);
      && t.console.chunks == s.console.chunks
      && t.console.shown == s.console.shown && t.console.screen == s.console.screen
      && t.core == s.core.(rx := t.core.rx, keyBase := t.core.keyBase)
      && (NotYetShown(t) ==> NotYetShown(s))
  {
    match s.master.pc
    case MArm =>
    case MAwaitHeader =>
    case MDecide =>
    case MSend =>
    case _ =>
  }

  lemma MasterKeepsConsole(s: State, ok: bool, spill: bool, caught: nat)
    requires Inv(s) && Calm(s) && !s.master.pc.MAwaitPayload? && MasterReady(s)
    requires Calm(StepMaster(s, ok, spill, caught))
    ensures ConsoleInv(StepMaster(s, ok, spill, caught))
  {
    hide StepMaster, NotYetShown;
    MasterKeepsChunk(s, ok, spill, caught);
  }

  lemma LinuxKeepsConsole(s: State)
    requires Inv(s) && Calm(s) && !s.linux.pc.LIdle?
    ensures ConsoleInv(StepLinux(s))
  {
    assert StepLinux(s).console == s.console;
  }

  lemma ExpiryKeepsConsole(s: State)
    requires PhaseInv(s) && ConsoleInv(s) && MasterMayExpire(s.master.pc)
    ensures ConsoleInv(ExpireMaster(s))
  {
    assert ExpireMaster(s).console == s.console;
  }

  lemma OthersKeepConsole(s: State, a: Action)
    requires ConsoleInv(s) && Enabled(s, a)
    requires a.LinuxBegin? || a.CoreProbe? || a.CoreSkip? || a.KeyPress?
    ensures ConsoleInv(Step(s, a))
  {
    assert ShownInv(Step(s, a).console);
  }

  // ---- Keystrokes ----

  /** A step that leaves the keys alone, and any reply on its way to core 1. */
  lemma KeysFrame(s: State, t: State)
    requires KeysInv(s)
    requires var k, k' := s.console, t.console;
      && k'.typed == k.typed && k'.queuedAt == k.queuedAt && k'.keys == k.keys && k'.sent == k.sent
      && k'.fates == k.fates && k'.fedAt == k.fedAt
    requires ReplyIn(t.core) == ReplyIn(s.core)
    requires ReplyIn(t.core) ==> t.core.rx == s.core.rx && t.core.keyBase == s.core.keyBase
    ensures KeysInv(t)
  {
    if ReplyIn(t.core) {
      var status: Status, n: nat :| KeysIn(s, status, n);
      assert KeysIn(t, status, n);
    }
  }

  /** A key joins the end of the queue, if there is room. */
  lemma PressKeepsQueue(s: State, key: byte)
    requires QueueInv(s.console)
    ensures QueueInv(Press(s, key).console)
  {
    var k, k' := s.console, Press(s, key).console;
    assert Select(k'.typed, k.queuedAt) == Select(k.typed, k.queuedAt);
    if |k.keys| < KEY_QUEUE {
      assert k'.sent + k'.keys == (k.sent + k.keys) + [key];
      assert Select(k'.typed, k'.queuedAt) == Select(k'.typed, k.queuedAt) + [key];
    }
  }

  lemma PressKeepsKeys(s: State, key: byte)
    requires KeysInv(s)
    ensures KeysInv(Press(s, key))
  {
    PressKeepsQueue(s, key);
    hide QueueInv, Positions;
    var t := Press(s, key);
    assert FatesInv(t.console);
    if ReplyIn(t.core) {
      var status: Status, n: nat :| KeysIn(s, status, n);
      assert KeysIn(t, status, n);
    }
  }

  /** Fates are appended: `n` keys fed, and `m` lost. */
  lemma FatesExtend(fates: seq<Fate>, fedAt: seq<nat>, n: nat, m: nat, lost: Fate)
    requires Positions(fedAt, |fates|) && !lost.Fed?
    requires forall p :: 0 <= p < |fates| ==> (fates[p].Fed? <==> p in fedAt)
    ensures var fates', fedAt' := fates + (All(n, Fed) + All(m, lost)), fedAt + Range(|fates|, |fates| + n);
      && Positions(fedAt', |fates'|)
      && (forall p :: 0 <= p < |fates'| ==> (fates'[p].Fed? <==> p in fedAt'))
  {
    var b := |fates|;
    var fates', fedAt' := fates + (All(n, Fed) + All(m, lost)), fedAt + Range(b, b + n);
    forall p | 0 <= p < |fates'| ensures fates'[p].Fed? <==> p in fedAt' {
      if b <= p < b + n {
        assert fedAt'[|fedAt| + (p - b)] == p;
      } else if p in fedAt' {
        var i :| 0 <= i < |fedAt'| && fedAt'[i] == p;
        assert i < |fedAt|;
        assert p in fedAt;
      }
    }
  }

  /** The keys of a reply are fed in the order they were sent, each at most once, or lost. */
  lemma ReplyFates(s: State, room: nat, status: Status, n: nat)
    requires FatesInv(s.console) && KeysIn(s, status, n) && s.core.pc.AwaitReply? && s.core.op == CON
    requires CoreReady(s)
    ensures var k, k' := s.console, TakeReply(s, room).console;
      && FatesInv(k') && |k'.fates| == |k'.sent|
      && k'.typed == k.typed && k'.queuedAt == k.queuedAt && k'.keys == k.keys && k'.sent == k.sent
      && TakeReply(s, room).core.rx.Off?
  {
    hide EncodeReply, DecodeReply, Positions;
    var k, base := s.console, s.core.keyBase;
    ReplyRoundTrip(Reply(status, n), k.sent[base..base + n] + Zeros(MAX_KEYS - n));
    if status == 0 {
      FatesExtend(k.fates, k.fedAt, Min(room, n), n - Min(room, n), LostAtFullRing);
    } else {
      FatesExtend(k.fates, k.fedAt, 0, n, LostWithReply);
      assert k.fates + (All(0, Fed) + All(n, LostWithReply)) == k.fates + All(n, LostWithReply);
      assert k.fedAt == k.fedAt + Range(base, base);
    }
  }

  lemma ReplyKeepsKeys(s: State, room: nat, spill: bool)
    requires KeysInv(s) && s.core.pc.AwaitReply? && CoreReady(s)
    ensures KeysInv(StepCore(s, room, spill))
  {
    if s.core.op == CON {
      var status: Status, n: nat :| KeysIn(s, status, n);
      ReplyFates(s, room, status, n);
      hide FatesInv, Positions, TakeReply;
      assert StepCore(s, room, spill) == TakeReply(s, room);
    } else {
      KeysFrame(s, StepCore(s, room, spill));
    }
  }

  /** The reply carries the front of the key queue and says how much of it is keys. */
  lemma SendKeepsKeys(s: State, ok: bool, spill: bool, caught: nat)
    requires Inv(s) && Calm(s) && s.master.pc.MSend?
    ensures KeysInv(StepMaster(s, ok, spill, caught))
  {
    SendKeepsQueue(s, ok, spill, caught);
    if s.core.op == CON {
      SendsTheKeys(s, ok, spill, caught);
    } else {
      SendsNoKeys(s, ok, spill, caught);
    }
  }

  /** What leaves the queue joins what has left it. */
  lemma SendKeepsQueue(s: State, ok: bool, spill: bool, caught: nat)
    requires KeysInv(s) && s.master.pc.MSend?
    ensures QueueInv(StepMaster(s, ok, spill, caught).console)
  {
    hide Deliver, ReplyFrame;
    var k, k' := s.console, StepMaster(s, ok, spill, caught).console;
    assert k'.sent + k'.keys == k.sent + k.keys;
  }

  lemma SendsNoKeys(s: State, ok: bool, spill: bool, caught: nat)
    requires PhaseInv(s) && KeysInv(s) && s.master.pc.MSend? && s.core.op != CON
    ensures var t := StepMaster(s, ok, spill, caught);
      && FatesInv(t.console) && !ReplyIn(t.core) && |t.console.fates| == |t.console.sent|
  {
    hide Deliver, ReplyFrame, EncodeHeader, QueueInv;
    var k, k' := s.console, StepMaster(s, ok, spill, caught).console;
    assert All(0, LostWithReply) == [];
    assert k'.fates == k.fates && k'.sent == k.sent;
  }

  lemma SendsTheKeys(s: State, ok: bool, spill: bool, caught: nat)
    requires Inv(s) && Calm(s) && s.master.pc.MSend? && s.core.op == CON
    ensures var t := StepMaster(s, ok, spill, caught);
      && FatesInv(t.console)
      && (ReplyIn(t.core) <==> ok)
      && (ok ==> KeysIn(t, s.master.status, |KeysNow(s)|))
      && (!ok ==> |t.console.fates| == |t.console.sent|)
  {
    var t := StepMaster(s, ok, spill, caught);
    var k, n := s.console, |KeysNow(s)|;
    assert |ReplyFrame(s)| == ArmedBytes(CON, s.core.count);
    if ok {
      assert t.console.sent[|k.sent|..|k.sent| + n] == KeysNow(s);
    } else {
      FatesExtend(k.fates, k.fedAt, 0, n, LostWithReply);
      assert t.console.fates == k.fates + (All(0, Fed) + All(n, LostWithReply));
      assert k.fedAt == k.fedAt + Range(|k.fates|, |k.fates|);
    }
  }

  lemma CoreKeepsKeys(s: State, room: nat, spill: bool)
    requires Inv(s) && Calm(s) && !s.core.pc.AwaitReply? && CoreReady(s)
    ensures KeysInv(StepCore(s, room, spill))
  {
    KeysFrame(s, StepCore(s, room, spill));
  }

  lemma MasterKeepsKeys(s: State, ok: bool, spill: bool, caught: nat)
    requires Inv(s) && Calm(s) && !s.master.pc.MSend? && MasterReady(s)
    ensures KeysInv(StepMaster(s, ok, spill, caught))
  {
    KeysFrame(s, StepMaster(s, ok, spill, caught));
  }

  lemma OthersKeepKeys(s: State, a: Action)
    requires WiresInv(s) && PhaseInv(s) && KeysInv(s) && Enabled(s, a)
    requires !a.CoreStep? && !a.MasterStep? && !a.CoreExpire? && !a.KeyPress?
    ensures KeysInv(Step(s, a))
  {
    KeysFrame(s, Step(s, a));
  }

  // ---- Nothing lost ----

  lemma PumpKeepsLossless(s: State, chunk: seq<byte>)
    requires Inv(s) && Calm(s) && LosslessInv(s) && Enabled(s, CorePump(chunk))
    ensures LosslessInv(Step(s, CorePump(chunk)))
  {
    assert Earlier(Step(s, CorePump(chunk)).console) == s.console.chunks;
  }

  lemma CoreSendsLossless(s: State, room: nat, spill: bool)
    requires WiresInv(s) && PhaseInv(s) && Calm(s) && LosslessInv(s) && CoreReady(s)
    requires (s.core.pc.SendHeader? || s.core.pc.SendPayload?) && Calm(StepCore(s, room, spill))
    ensures LosslessInv(StepCore(s, room, spill))
  {
    hide EncodeHeader, Payload;
    match s.core.pc
    case SendHeader =>
    case SendPayload =>
  }

  lemma CoreKeepsLossless(s: State, room: nat, spill: bool)
    requires WiresInv(s) && MailboxInv(s) && PhaseInv(s) && LosslessInv(s) && CoreReady(s)
    requires !s.core.pc.AwaitReply? && !s.core.pc.SendHeader? && !s.core.pc.SendPayload?
    ensures LosslessInv(StepCore(s, room, spill))
  {
    hide EncodeHeader, Payload;
    match s.core.pc
    case Decide =>
    case Lower =>
    case AwaitClear =>
    case _ =>
  }

  lemma ReplyKeepsLossless(s: State, room: nat, spill: bool)
    requires PhaseInv(s) && LosslessInv(s) && CoreReady(s) && s.core.pc.AwaitReply?
    ensures LosslessInv(StepCore(s, room, spill))
  {
    hide DecodeReply, EncodeHeader, Payload;
    assert !NotYetShown(StepCore(s, room, spill));
  }

  lemma SendKeepsLossless(s: State, ok: bool, spill: bool, caught: nat)
    requires PhaseInv(s) && LosslessInv(s) && s.master.pc.MSend?
    ensures LosslessInv(StepMaster(s, ok, spill, caught))
  {
    hide ReplyFrame;
    assert Serving(s.master.pc);
  }

  lemma DecideKeepsLossless(s: State, ok: bool, spill: bool, caught: nat)
    requires WiresInv(s) && PhaseInv(s) && ConsoleInv(s) && LosslessInv(s) && s.master.pc.MDecide?
    ensures LosslessInv(StepMaster(s, ok, spill, caught))
  {
  }

  lemma MasterKeepsLossless(s: State, ok: bool, spill: bool, caught: nat)
    requires WiresInv(s) && PhaseInv(s) && LosslessInv(s) && MasterReady(s)
    requires !s.master.pc.MAwaitPayload? && !s.master.pc.MSend? && !s.master.pc.MDecide?
    requires Calm(StepMaster(s, ok, spill, caught))
    ensures LosslessInv(StepMaster(s, ok, spill, caught))
  {
    match s.master.pc
    case MArm =>
    case MAwaitHeader =>
    case MRead =>
    case MLower =>
    case _ =>
  }

  lemma PayloadKeepsLossless(s: State, ok: bool, spill: bool, caught: nat)
    requires Inv(s) && Calm(s) && LosslessInv(s) && MasterReady(s) && s.master.pc.MAwaitPayload?
    ensures LosslessInv(StepMaster(s, ok, spill, caught))
  {
    if s.master.req.op == CON {
      assert s.master.rx.data[..s.master.req.count] == s.core.out;
    }
  }

  lemma LinuxKeepsLossless(s: State)
    requires Inv(s) && Calm(s) && LosslessInv(s) && !s.linux.pc.LIdle?
    ensures LosslessInv(StepLinux(s))
  {
    assert StepLinux(s).console == s.console;
  }

  lemma ExpiryKeepsLossless(s: State)
    requires PhaseInv(s) && LosslessInv(s)
    requires s.master.pc.MAwaitHeader? || s.master.pc.MFailClear? || s.master.pc.MClear?
    ensures LosslessInv(ExpireMaster(s))
  {
    assert ExpireMaster(s).console == s.console;
  }

  lemma OthersKeepLossless(s: State, a: Action)
    requires WiresInv(s) && PhaseInv(s) && LosslessInv(s) && Enabled(s, a)
    requires a.LinuxBegin? || a.CoreProbe? || a.CoreSkip?
    ensures LosslessInv(Step(s, a))
  {
    match a
    case LinuxBegin(_) =>
    case CoreProbe =>
    case CoreSkip =>
  }

  lemma PressKeepsLossless(s: State, key: byte)
    requires LosslessInv(s)
    ensures LosslessInv(Press(s, key))
  {
    var k, k' := s.console, Press(s, key).console;
    assert k'.chunks == k.chunks && k'.screen == k.screen && Earlier(k') == Earlier(k);
    assert NotYetShown(Press(s, key)) == NotYetShown(s);
  }

  predicate NoWorse(f: Faults, f': Faults) {
    && (f.core ==> f'.core) && (f.header ==> f'.header) && (f.payload ==> f'.payload)
    && (f.clear ==> f'.clear) && (f.mistaken ==> f'.mistaken)
  }

  lemma CoreFaultsStay(s: State, room: nat, spill: bool)
    requires CoreReady(s)
    ensures NoWorse(s.faults, StepCore(s, room, spill).faults) && StepCore(s, room, spill).faults.core == s.faults.core
    ensures StepCore(s, room, spill).console.chunks == s.console.chunks
  {
    hide EncodeHeader, DecodeReply, Payload, Deliver, All;
    match s.core.pc
    case SendPayload =>
    case AwaitReply =>
    case AwaitClear =>
    case _ =>
  }

  lemma MasterArmsFaults(s: State, ok: bool, spill: bool, caught: nat)
    requires s.master.pc.MArm?
    ensures var t := StepMaster(s, ok, spill, caught);
      && t.console.chunks == s.console.chunks
      && t.faults == s.faults.(mistaken := t.faults.mistaken) && (s.faults.mistaken ==> t.faults.mistaken)
      && (t.faults.mistaken && !s.faults.mistaken ==> s.core.air.Passing? && !s.core.air.header)
  {
  }

  lemma MasterKeepsFaults(s: State, ok: bool, spill: bool, caught: nat)
    requires MasterReady(s) && !s.master.pc.MArm?
    ensures StepMaster(s, ok, spill, caught).faults == s.faults
    ensures StepMaster(s, ok, spill, caught).console.chunks == s.console.chunks
  {
    hide ReplyFrame, Deliver, DecodeHeader, Catch, StorageRead, StorageWrite;
  }

  lemma MasterFaultsStay(s: State, ok: bool, spill: bool, caught: nat)
    requires MasterReady(s)
    ensures var t := StepMaster(s, ok, spill, caught);
      && t.console.chunks == s.console.chunks
      && t.faults == s.faults.(mistaken := t.faults.mistaken) && (s.faults.mistaken ==> t.faults.mistaken)
      && (t.faults.mistaken && !s.faults.mistaken ==>
            s.master.pc.MArm? && s.core.air.Passing? && !s.core.air.header)
  {
    hide StepMaster;
    if s.master.pc.MArm? {
      MasterArmsFaults(s, ok, spill, caught);
    } else {
      MasterKeepsFaults(s, ok, spill, caught);
    }
  }

  lemma LinuxFaultsStay(s: State)
    requires !s.linux.pc.LIdle?
    ensures StepLinux(s).faults == s.faults && StepLinux(s).console == s.console
  {
  }

  lemma CoreExpiryStays(s: State)
    requires CoreMayExpire(s.core.pc)
    ensures var t := ExpireCore(s);
      t.faults == s.faults.(core := true) && t.console == s.console
  {
  }

  lemma MasterExpiryStays(s: State)
    requires MasterMayExpire(s.master.pc)
    ensures var t := ExpireMaster(s);
      NoWorse(s.faults, t.faults) && t.console == s.console &&
      t.faults.core == s.faults.core && t.faults.mistaken == s.faults.mistaken
  {
  }

  /** What has gone wrong stays on record; chunks are only ever added. */
  lemma FaultsStay(s: State, a: Action)
    requires Enabled(s, a)
    ensures NoWorse(s.faults, Step(s, a).faults)
    ensures s.console.chunks <= Step(s, a).console.chunks
  {
    match a
    case LinuxStep => LinuxFaultsStay(s);
    case CoreStep(room, spill) => CoreFaultsStay(s, room, spill);
    case MasterStep(ok, spill, caught) => MasterFaultsStay(s, ok, spill, caught);
    case CoreExpire => CoreExpiryStays(s);
    case MasterExpire => MasterExpiryStays(s);
    case _ => assert Step(s, a).faults == s.faults;
  }

  /** Every step of the system keeps the stream invariants. */
  lemma StepKeepsStreams(s: State, a: Action)
    requires Inv(s) && Enabled(s, a)
    ensures StreamInv(Step(s, a))
  {
    FaultsStay(s, a);
    hide Step, ConsoleInv, KeysInv, LosslessInv, LinkInv;
    if Calm(Step(s, a)) {
      StepKeepsConsole(s, a);
      StepKeepsKeys(s, a);
      if !Step(s, a).faults.payload {
        StepKeepsLossless(s, a);
      }
    }
  }

  lemma StepKeepsConsole(s: State, a: Action)
    requires Inv(s) && Enabled(s, a) && Calm(s) && Calm(Step(s, a))
    ensures ConsoleInv(Step(s, a))
  {
    match a
    case LinuxStep => LinuxKeepsConsole(s);
    case CorePump(chunk) => PumpKeepsConsole(s, chunk);
    case CoreStep(room, spill) =>
      if s.core.pc.AwaitReply? { ReplyKeepsConsole(s, room, spill); } else { CoreKeepsConsole(s, room, spill); }
    case CoreExpire => assert false;
    case MasterStep(ok, spill, caught) =>
      if s.master.pc.MAwaitPayload? {
        PayloadKeepsConsole(s, ok, spill, caught);
      } else {
        MasterKeepsConsole(s, ok, spill, caught);
      }
    case MasterExpire => ExpiryKeepsConsole(s);
    case _ => OthersKeepConsole(s, a);
  }

  lemma StepKeepsKeys(s: State, a: Action)
    requires Inv(s) && Enabled(s, a) && Calm(s) && Calm(Step(s, a))
    ensures KeysInv(Step(s, a))
  {
    match a
    case CoreStep(room, spill) =>
      if s.core.pc.AwaitReply? { ReplyKeepsKeys(s, room, spill); } else { CoreKeepsKeys(s, room, spill); }
    case CoreExpire => assert false;
    case MasterStep(ok, spill, caught) =>
      if s.master.pc.MSend? { SendKeepsKeys(s, ok, spill, caught); } else { MasterKeepsKeys(s, ok, spill, caught); }
    case KeyPress(key) => PressKeepsKeys(s, key);
    case _ => OthersKeepKeys(s, a);
  }

  lemma StepKeepsLossless(s: State, a: Action)
    requires Inv(s) && Enabled(s, a) && Calm(s) && LosslessInv(s)
    requires !a.CoreExpire? && !s.faults.payload && Calm(Step(s, a))
    requires !Step(s, a).faults.payload
    ensures LosslessInv(Step(s, a))
  {
    match a
    case LinuxStep => LinuxKeepsLossless(s);
    case CorePump(chunk) => PumpKeepsLossless(s, chunk);
    case CoreStep(room, spill) =>
      if s.core.pc.AwaitReply? { ReplyKeepsLossless(s, room, spill); }
      else if s.core.pc.SendHeader? || s.core.pc.SendPayload? { CoreSendsLossless(s, room, spill); }
      else { CoreKeepsLossless(s, room, spill); }
    case MasterStep(ok, spill, caught) =>
      if s.master.pc.MAwaitPayload? { PayloadKeepsLossless(s, ok, spill, caught); }
      else if s.master.pc.MSend? { SendKeepsLossless(s, ok, spill, caught); }
      else if s.master.pc.MDecide? { DecideKeepsLossless(s, ok, spill, caught); }
      else { MasterKeepsLossless(s, ok, spill, caught); }
    case MasterExpire => ExpiryKeepsLossless(s);
    case KeyPress(key) => PressKeepsLossless(s, key);
    case _ => OthersKeepLossless(s, a);
  }
}
