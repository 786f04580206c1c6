/** Each step keeps the invariants about the link and the mailbox. */
module PipelineLink {
  import opened Words
  import opened Wire
  import opened DiskSpec
  import opened Pipeline
  import opened PipelineInv

  lemma CoreChecks(s: State, room: nat, spill: bool)
    requires LinkInv(s) && s.core.pc.CheckSeq? && CoreReady(s)
    ensures LinkInv(StepCore(s, room, spill))
  {
  }

  lemma CoreLoads(s: State, room: nat, spill: bool)
    requires LinkInv(s) && CoreReady(s)
    requires s.core.pc.LoadOp? || s.core.pc.LoadLba? || s.core.pc.LoadCount? || s.core.pc.LoadAddr?
    ensures LinkInv(StepCore(s, room, spill))
  {
  }

  lemma CoreRefuses(s: State, room: nat, spill: bool)
    requires LinkInv(s) && s.core.pc.Decide? && (s.core.count == 0 || s.core.count > MAX_SECTORS)
    ensures LinkInv(StepCore(s, room, spill))
  {
  }

  lemma CoreAccepts(s: State, room: nat, spill: bool)
    requires LinkInv(s) && s.core.pc.Decide? && 1 <= s.core.count <= MAX_SECTORS
    ensures LinkInv(StepCore(s, room, spill))
  {
  }

  lemma CoreRises(s: State, room: nat, spill: bool)
    requires LinkInv(s) && (s.core.pc.Raise? || s.core.pc.AwaitReady? || s.core.pc.ArmReply?) && CoreReady(s)
    ensures LinkInv(StepCore(s, room, spill))
  {
  }

  lemma CoreSendsHeaderFrame(s: State, room: nat, spill: bool)
    requires WiresInv(s) && MailboxInv(s) && s.core.pc.SendHeader? && CoreReady(s)
    ensures WiresInv(StepCore(s, room, spill)) && MailboxInv(StepCore(s, room, spill))
  {
  }

  lemma CoreSendsHeader(s: State, room: nat, spill: bool)
    requires LinkInv(s) && s.core.pc.SendHeader? && CoreReady(s)
    ensures LinkInv(StepCore(s, room, spill))
  {
    CoreSendsHeaderFrame(s, room, spill);
    hide WiresInv, CountsInv, DescriptorInv, LoadedInv;
    assert WiresInv(StepCore(s, room, spill)) && MailboxInv(StepCore(s, room, spill));
  }

  lemma CoreSendsPayloadFrame(s: State, room: nat, spill: bool)
    requires WiresInv(s) && MailboxInv(s) && s.core.pc.SendPayload? && CoreReady(s)
    ensures WiresInv(StepCore(s, room, spill)) && MailboxInv(StepCore(s, room, spill))
  {
  }

  lemma PayloadSize(s: State)
    requires WiresInv(s) && MailboxInv(s) && s.core.pc.SendPayload? && SendsPayload(s.core.op, s.core.count)
    ensures |Payload(s)| == PayloadBytes(s.core.op, s.core.count)
  {
  }

  lemma CoreSendsPayloadPhase(s: State, room: nat, spill: bool)
    requires LinkInv(s) && Calm(s) && s.core.pc.SendPayload? && CoreReady(s) && Calm(StepCore(s, room, spill))
    ensures PhaseInv(StepCore(s, room, spill)) && DoorbellInv(StepCore(s, room, spill))
  {
    PayloadSize(s);
    hide WiresInv, MailboxInv, ResultInv, CapacityInv, EncodeHeader, EncodeReply;
  }

  lemma CoreSendsPayloadResult(s: State, room: nat, spill: bool)
    requires LinkInv(s) && Calm(s) && s.core.pc.SendPayload? && CoreReady(s) && Calm(StepCore(s, room, spill))
    ensures ResultInv(StepCore(s, room, spill)) && CapacityInv(StepCore(s, room, spill))
  {
    hide MailboxInv, DoorbellInv, EncodeHeader, EncodeReply, Payload;
  }

  lemma CoreSendsPayload(s: State, room: nat, spill: bool)
    requires LinkInv(s) && s.core.pc.SendPayload? && CoreReady(s)
    ensures LinkInv(StepCore(s, room, spill))
  {
    CoreSendsPayloadFrame(s, room, spill);
    var t := StepCore(s, room, spill);
    assert Calm(t) ==> Calm(s);
    if Calm(t) {
      CoreSendsPayloadPhase(s, room, spill);
      CoreSendsPayloadResult(s, room, spill);
    }
    hide WiresInv, MailboxInv, PhaseInv, ResultInv, CapacityInv, DoorbellInv;
  }

  lemma CoreTakesDiskReply(s: State, room: nat, spill: bool)
    requires LinkInv(s) && s.core.pc.AwaitReply? && CoreReady(s)
    requires Calm(s) && DiskBusy(s.core)
    ensures ResultInv(StepCore(s, room, spill))
  {
    ReplyRoundTrip(Reply(s.outcome.status, s.capacity), s.outcome.data);
    hide EncodeHeader, EncodeReply, DecodeReply, CapacityInv, DoorbellInv;
  }

  lemma CoreTakesInfoReply(s: State, room: nat, spill: bool)
    requires LinkInv(s) && s.core.pc.AwaitReply? && CoreReady(s)
    requires Calm(s) && s.core.op == INFO
    ensures CapacityInv(StepCore(s, room, spill))
  {
    ReplyRoundTrip(Reply(0, s.capacity), []);
  }

  lemma CoreTakesReplyMailbox(s: State, room: nat, spill: bool)
    requires WiresInv(s) && MailboxInv(s) && s.core.pc.AwaitReply? && CoreReady(s)
    ensures MailboxInv(StepCore(s, room, spill))
  {
    hide DecodeReply, Submittable, All;
  }

  lemma CoreTakesReplyWires(s: State, room: nat, spill: bool)
    requires WiresInv(s) && s.core.pc.AwaitReply? && CoreReady(s)
    ensures WiresInv(StepCore(s, room, spill))
  {
    hide DecodeReply, EncodeHeader, All;
  }

  lemma CoreTakesReplyPhase(s: State, room: nat, spill: bool)
    requires LinkInv(s) && s.core.pc.AwaitReply? && CoreReady(s) && Calm(s)
    ensures PhaseInv(StepCore(s, room, spill)) && DoorbellInv(StepCore(s, room, spill))
  {
    hide DecodeReply, EncodeHeader, Payload, ResultInv, CapacityInv, MailboxInv;
  }

  lemma CoreTakesConsoleReply(s: State, room: nat, spill: bool)
    requires MailboxInv(s) && PhaseInv(s) && ResultInv(s)
    requires s.core.pc.AwaitReply? && CoreReady(s) && !DiskBusy(s.core)
    ensures ResultInv(StepCore(s, room, spill))
  {
    hide EncodeReply, EncodeHeader, DecodeReply, AirInv, DescriptorInv, LoadedInv;
  }

  lemma CoreKeepsCapacity(s: State, room: nat, spill: bool)
    requires LinkInv(s) && s.core.pc.AwaitReply? && CoreReady(s) && Calm(s) && s.core.op != INFO
    ensures CapacityInv(StepCore(s, room, spill))
  {
  }

  lemma CoreTakesReply(s: State, room: nat, spill: bool)
    requires LinkInv(s) && s.core.pc.AwaitReply? && CoreReady(s)
    ensures LinkInv(StepCore(s, room, spill))
  {
    CoreTakesReplyWires(s, room, spill);
    CoreTakesReplyMailbox(s, room, spill);
    if Calm(s) {
      CoreTakesReplyPhase(s, room, spill);
      if DiskBusy(s.core) { CoreTakesDiskReply(s, room, spill); } else { CoreTakesConsoleReply(s, room, spill); }
      if s.core.op == INFO { CoreTakesInfoReply(s, room, spill); } else { CoreKeepsCapacity(s, room, spill); }
    }
  }

  lemma CoreFalls(s: State, room: nat, spill: bool)
    requires LinkInv(s) && s.core.pc.Lower? && CoreReady(s)
    ensures LinkInv(StepCore(s, room, spill))
  {
  }

  lemma CoreReturnsConsole(s: State, room: nat, spill: bool)
    requires LinkInv(s) && s.core.pc.AwaitClear? && CoreReady(s) && s.core.op == CON
    ensures LinkInv(StepCore(s, room, spill))
  {
  }

  lemma CoreReturnsProbe(s: State, room: nat, spill: bool)
    requires LinkInv(s) && s.core.pc.AwaitClear? && CoreReady(s) && s.core.op == INFO
    ensures LinkInv(StepCore(s, room, spill))
  {
  }

  lemma CoreReturnsDisk(s: State, room: nat, spill: bool)
    requires LinkInv(s) && s.core.pc.AwaitClear? && CoreReady(s) && s.core.op != CON && s.core.op != INFO
    ensures LinkInv(StepCore(s, room, spill))
  {
  }

  lemma CoreFinishes(s: State, room: nat, spill: bool)
    requires LinkInv(s) && (s.core.pc.StoreStatus? || s.core.pc.StoreDone?) && CoreReady(s)
    ensures LinkInv(StepCore(s, room, spill))
  {
  }

  lemma MasterPolls(s: State, ok: bool, spill: bool, caught: nat)
    requires LinkInv(s) && s.master.pc.MPoll? && MasterReady(s)
    ensures LinkInv(StepMaster(s, ok, spill, caught))
  {
  }

  lemma MasterArms(s: State, ok: bool, spill: bool, caught: nat)
    requires LinkInv(s) && s.master.pc.MArm?
    ensures LinkInv(StepMaster(s, ok, spill, caught))
  {
  }

  lemma MasterRaises(s: State, ok: bool, spill: bool, caught: nat)
    requires LinkInv(s) && s.master.pc.MRaise? && MasterReady(s)
    ensures LinkInv(StepMaster(s, ok, spill, caught))
  {
  }

  lemma MasterTakesHeader(s: State, ok: bool, spill: bool, caught: nat)
    requires LinkInv(s) && s.master.pc.MAwaitHeader? && MasterReady(s)
    ensures LinkInv(StepMaster(s, ok, spill, caught))
  {
    HeaderRoundTrip(HeaderOf(s.core));
    var req := DecodeHeader(s.master.rx.data);
    assert Calm(s) ==> req == HeaderOf(s.core);
  }

  lemma MasterRecovers(s: State, ok: bool, spill: bool, caught: nat)
    requires LinkInv(s) && (s.master.pc.MFailLower? || s.master.pc.MFailClear?) && MasterReady(s)
    ensures LinkInv(StepMaster(s, ok, spill, caught))
  {
  }

  lemma MasterDecides(s: State, ok: bool, spill: bool, caught: nat)
    requires LinkInv(s) && s.master.pc.MDecide? && MasterReady(s)
    ensures LinkInv(StepMaster(s, ok, spill, caught))
  {
  }

  lemma MasterArmsPayload(s: State, ok: bool, spill: bool, caught: nat)
    requires LinkInv(s) && s.master.pc.MArmPayload? && MasterReady(s)
    ensures LinkInv(StepMaster(s, ok, spill, caught))
  {
    hide EncodeHeader, EncodeReply;
  }

  lemma MasterTakesConsole(s: State, ok: bool, spill: bool, caught: nat)
    requires LinkInv(s) && s.master.pc.MAwaitPayload? && MasterReady(s) && s.master.req.op == CON
    ensures LinkInv(StepMaster(s, ok, spill, caught))
  {
  }

  lemma MasterTakesSectors(s: State, ok: bool, spill: bool, caught: nat)
    requires LinkInv(s) && s.master.pc.MAwaitPayload? && MasterReady(s) && s.master.req.op != CON
    ensures LinkInv(StepMaster(s, ok, spill, caught))
  {
  }

  lemma MasterReads(s: State, ok: bool, spill: bool, caught: nat)
    requires LinkInv(s) && s.master.pc.MRead? && MasterReady(s)
    ensures LinkInv(StepMaster(s, ok, spill, caught))
  {
  }

  lemma MasterReplies(s: State, ok: bool, spill: bool, caught: nat)
    requires LinkInv(s) && s.master.pc.MSend? && MasterReady(s)
    ensures LinkInv(StepMaster(s, ok, spill, caught))
  {
    hide EncodeHeader, EncodeReply, All;
  }

  lemma MasterLowers(s: State, ok: bool, spill: bool, caught: nat)
    requires LinkInv(s) && s.master.pc.MLower? && MasterReady(s)
    ensures LinkInv(StepMaster(s, ok, spill, caught))
  {
  }

  lemma MasterClears(s: State, ok: bool, spill: bool, caught: nat)
    requires LinkInv(s) && s.master.pc.MClear? && MasterReady(s)
    ensures LinkInv(StepMaster(s, ok, spill, caught))
  {
  }

  lemma LinuxBegins(s: State, r: Request)
    requires LinkInv(s) && s.linux.pc.LIdle? && Submittable(r)
    ensures LinkInv(Begin(s, r))
  {
  }

  lemma LinuxStoresFirst(s: State)
    requires LinkInv(s) && (s.linux.pc.LStoreOp? || s.linux.pc.LStoreLba?)
    ensures LinkInv(StepLinux(s))
  {
  }

  lemma LinuxStoresLast(s: State)
    requires LinkInv(s) && (s.linux.pc.LStoreCount? || s.linux.pc.LStoreAddr?)
    ensures LinkInv(StepLinux(s))
  {
  }

  lemma NextCount(n: nat)
    ensures Add32(n % TWO32, 1) == (n + 1) % TWO32
  {
  }

  lemma LinuxPublishes(s: State)
    requires LinkInv(s) && !s.linux.pc.LIdle? && s.linux.pc.LStoreSeq?
    ensures LinkInv(StepLinux(s))
  {
    NextCount(s.linux.submits);
    hide Add32;
  }

  lemma LinuxPolls(s: State)
    requires LinkInv(s) && !s.linux.pc.LIdle? && (s.linux.pc.LPoll? || s.linux.pc.LStatus?)
    ensures LinkInv(StepLinux(s))
  {
  }

  lemma CoreProbes(s: State)
    requires LinkInv(s) && Enabled(s, CoreProbe)
    ensures LinkInv(Step(s, CoreProbe))
  {
  }

  lemma CoreSkips(s: State)
    requires LinkInv(s) && Enabled(s, CoreSkip)
    ensures LinkInv(Step(s, CoreSkip))
  {
  }

  /** Of the console, the link cares only for the size of the key queue. */
  lemma AnyConsole(s: State, k: Console)
    requires LinkInv(s) && |k.keys| <= KEY_QUEUE
    ensures LinkInv(s.(console := k))
  {
    var t := s.(console := k);
    assert CountsInv(t) && DescriptorInv(t) && LoadedInv(t);
    if Calm(s) {
      assert PhaseInv(t);
      assert ResultInv(t);
    }
  }

  lemma KeyIsPressed(s: State, key: byte)
    requires LinkInv(s)
    ensures LinkInv(Press(s, key))
  {
    hide LinkInv;
    var k := Press(s, key).console;
    assert Press(s, key) == s.(console := k);
    assert |s.console.keys| <= KEY_QUEUE by { KeysFit(s); }
    AnyConsole(s, k);
  }

  lemma KeysFit(s: State)
    requires LinkInv(s)
    ensures |s.console.keys| <= KEY_QUEUE
  {
  }

  lemma CorePumps(s: State, chunk: seq<byte>)
    requires LinkInv(s) && Enabled(s, CorePump(chunk))
    ensures LinkInv(Step(s, CorePump(chunk)))
  {
  }

  lemma CoreExpiresWires(s: State)
    requires WiresInv(s) && (s.core.pc.AwaitReady? || s.core.pc.AwaitClear?)
    ensures WiresInv(ExpireCore(s))
  {
  }

  lemma CoreExpiresFrameWires(s: State)
    requires WiresInv(s) && (s.core.pc.SendHeader? || s.core.pc.SendPayload? || s.core.pc.AwaitReply?)
    ensures WiresInv(ExpireCore(s))
  {
  }

  lemma CoreExpiresOnReady(s: State)
    requires WiresInv(s) && MailboxInv(s) && s.core.pc.AwaitReady?
    ensures MailboxInv(ExpireCore(s))
  {
  }

  lemma CoreExpiresOnClear(s: State)
    requires MailboxInv(s) && s.core.pc.AwaitClear? && WellSized(s.core.op, s.core.count)
    ensures MailboxInv(ExpireCore(s))
  {
  }

  lemma CoreExpiresOnFrame(s: State)
    requires WiresInv(s) && MailboxInv(s)
    requires s.core.pc.SendHeader? || s.core.pc.SendPayload? || s.core.pc.AwaitReply?
    ensures MailboxInv(ExpireCore(s))
  {
  }

  lemma MasterExpiresHeader(s: State)
    requires LinkInv(s) && s.master.pc.MAwaitHeader?
    ensures LinkInv(ExpireMaster(s))
  {
  }

  lemma MasterExpiresPayload(s: State)
    requires LinkInv(s) && s.master.pc.MAwaitPayload?
    ensures LinkInv(ExpireMaster(s))
  {
  }

  lemma MasterExpiresClear(s: State)
    requires LinkInv(s) && (s.master.pc.MFailClear? || s.master.pc.MClear?)
    ensures LinkInv(ExpireMaster(s))
  {
    hide EncodeHeader, EncodeReply;
  }

  lemma LinuxKeeps(s: State)
    requires LinkInv(s) && !s.linux.pc.LIdle?
    ensures LinkInv(StepLinux(s))
  {
    match s.linux.pc
    case LStoreOp => LinuxStoresFirst(s);
    case LStoreLba => LinuxStoresFirst(s);
    case LStoreCount => LinuxStoresLast(s);
    case LStoreAddr => LinuxStoresLast(s);
    case LStoreSeq => LinuxPublishes(s);
    case LPoll => LinuxPolls(s);
    case LStatus => LinuxPolls(s);
  }

  lemma CoreKeeps(s: State, room: nat, spill: bool)
    requires LinkInv(s) && CoreReady(s)
    ensures LinkInv(StepCore(s, room, spill))
  {
    match s.core.pc
    case CheckSeq => CoreChecks(s, room, spill);
    case LoadOp => CoreLoads(s, room, spill);
    case LoadLba => CoreLoads(s, room, spill);
    case LoadCount => CoreLoads(s, room, spill);
    case LoadAddr => CoreLoads(s, room, spill);
    case Decide =>
      if s.core.count == 0 || s.core.count > MAX_SECTORS {
        CoreRefuses(s, room, spill);
      } else {
        CoreAccepts(s, room, spill);
      }
    case Raise => CoreRises(s, room, spill);
    case AwaitReady => CoreRises(s, room, spill);
    case ArmReply => CoreRises(s, room, spill);
    case SendHeader => CoreSendsHeader(s, room, spill);
    case SendPayload => CoreSendsPayload(s, room, spill);
    case AwaitReply => CoreTakesReply(s, room, spill);
    case Lower => CoreFalls(s, room, spill);
    case AwaitClear =>
      if s.core.op == CON { CoreReturnsConsole(s, room, spill); }
      else if s.core.op == INFO { CoreReturnsProbe(s, room, spill); }
      else { CoreReturnsDisk(s, room, spill); }
    case StoreStatus => CoreFinishes(s, room, spill);
    case StoreDone => CoreFinishes(s, room, spill);
  }

  lemma MasterKeeps(s: State, ok: bool, spill: bool, caught: nat)
    requires LinkInv(s) && MasterReady(s)
    ensures LinkInv(StepMaster(s, ok, spill, caught))
  {
    match s.master.pc
    case MPoll => MasterPolls(s, ok, spill, caught);
    case MArm => MasterArms(s, ok, spill, caught);
    case MRaise => MasterRaises(s, ok, spill, caught);
    case MAwaitHeader => MasterTakesHeader(s, ok, spill, caught);
    case MFailLower => MasterRecovers(s, ok, spill, caught);
    case MFailClear => MasterRecovers(s, ok, spill, caught);
    case MDecide => MasterDecides(s, ok, spill, caught);
    case MArmPayload => MasterArmsPayload(s, ok, spill, caught);
    case MAwaitPayload =>
      if s.master.req.op == CON {
        MasterTakesConsole(s, ok, spill, caught);
      } else {
        MasterTakesSectors(s, ok, spill, caught);
      }
    case MRead => MasterReads(s, ok, spill, caught);
    case MSend => MasterReplies(s, ok, spill, caught);
    case MLower => MasterLowers(s, ok, spill, caught);
    case MClear => MasterClears(s, ok, spill, caught);
  }

  lemma CoreExpires(s: State)
    requires LinkInv(s) && CoreMayExpire(s.core.pc)
    ensures LinkInv(ExpireCore(s))
  {
    match s.core.pc {
      case AwaitReady =>
        CoreExpiresWires(s);
        CoreExpiresOnReady(s);
      case AwaitClear =>
        CoreExpiresWires(s);
        CoreExpiresOnClear(s);
      case _ =>
        CoreExpiresFrameWires(s);
        CoreExpiresOnFrame(s);
    }
    hide WiresInv, MailboxInv;
    assert !Calm(ExpireCore(s));
  }

  lemma MasterExpires(s: State)
    requires LinkInv(s) && MasterMayExpire(s.master.pc)
    ensures LinkInv(ExpireMaster(s))
  {
    match s.master.pc
    case MAwaitHeader => MasterExpiresHeader(s);
    case MAwaitPayload => MasterExpiresPayload(s);
    case _ => MasterExpiresClear(s);
  }

  /** Every step of the system keeps the link invariants. */
  lemma StepKeepsLink(s: State, a: Action)
    requires LinkInv(s) && Enabled(s, a)
    ensures LinkInv(Step(s, a))
  {
    match a
    case LinuxBegin(r) => LinuxBegins(s, r);
    case LinuxStep => LinuxKeeps(s);
    case CoreProbe => CoreProbes(s);
    case CorePump(chunk) => CorePumps(s, chunk);
    case CoreSkip => CoreSkips(s);
    case CoreStep(room, spill) => CoreKeeps(s, room, spill);
    case CoreExpire => CoreExpires(s);
    case MasterStep(ok, spill, caught) => MasterKeeps(s, ok, spill, caught);
    case MasterExpire => MasterExpires(s);
    case KeyPress(key) => KeyIsPressed(s, key);
  }
}
