/**
 Linux, core 1 and the master as three processes (firmware/common/core1_blk.c,
 firmware/master-ioserver/src/main.c, and the mailbox rule of
 firmware/common/frank_ring.h).

 Each process is a program counter and its local variables. A step is one load or
 store of a shared word, one change of a doorbell wire, one arming of a receiver,
 one frame, or one wait that ends. A wait may end because what it waits for has
 happened or, at any moment, because its time is up; `Faults` remembers which
 kinds of wait have ever run out of time. Nothing else is assumed about timing.

 A receiver that was armed for a frame's length before it started receives it. A
 frame of any other length is lost or, as each step may choose, taken in word by
 word until the receiver's count is reached; and a receiver of the master that is
 armed while a frame is passing may catch the rest of it.
 */
module Pipeline {
  import opened Words
  import opened Wire
  import opened DiskSpec

  /** A receiver. `header` tells a header frame from a payload frame; the wire does not. */
  datatype Rx = Off | Armed(len: nat) | Partial(len: nat, got: seq<byte>) | Full(data: seq<byte>, header: bool)

  /** What a receiver has taken in since it was armed. */
  function Got(rx: Rx): seq<byte> {
    if rx.Partial? then rx.got else []
  }

  /**
   A frame reaches a receiver. One armed for its length takes it. Into any other that is still
   waiting the frame either goes nowhere, or (`spill`) its words are taken in one by one until the
   count is reached, however many frames that takes: the hardware knows no frame boundaries.
   */
  function Deliver(rx: Rx, frame: seq<byte>, header: bool, spill: bool): Rx {
    if rx == Armed(|frame|) then Full(frame, header)
    else if spill && frame != [] && (rx.Armed? || rx.Partial?) then
      var got := Got(rx) + frame;
      if |got| < rx.len then Partial(rx.len, got) else Full(got[..rx.len], false)
    else rx
  }

  /** What core 1's transmitter may have on the wire: a frame that was not met by a receiver armed for it. */
  datatype Air = Silent | Passing(frame: seq<byte>, header: bool)

  function Sent(rx: Rx, frame: seq<byte>, header: bool): Air {
    if rx == Armed(|frame|) then Silent else Passing(frame, header)
  }

  /** A receiver armed for `len` bytes while a frame passes catches the last `caught` of them, or none. */
  function Catch(len: nat, air: Air, caught: nat): Rx {
    if air.Passing? && 0 < caught < |air.frame| then
      var rest := air.frame[|air.frame| - caught..];
      if caught < len then Partial(len, rest) else Full(rest[..len], false)
    else Armed(len)
  }

  datatype LinuxPc = LIdle | LStoreOp | LStoreLba | LStoreCount | LStoreAddr | LStoreSeq | LPoll | LStatus

  /** `submits` counts the requests published; `log` is what Linux was told, in order. */
  datatype Linux = Linux(pc: LinuxPc, request: Request, submits: nat, log: seq<Result>)

  /** The shared descriptor, `frank_blk_t`. */
  datatype Mailbox = Mailbox(
    seqno: u32, done: u32, op: u32, lba: u32, count: u32, addr: u32, status: Status, capacity: u32)

  datatype CorePc =
    | Top | CheckSeq | LoadOp | LoadLba | LoadCount | LoadAddr | Decide
    | Raise | AwaitReady | ArmReply | SendHeader | SendPayload | AwaitReply | Lower | AwaitClear
    | StoreStatus | StoreDone

  /**
   Core 1. `op`, `lba`, `count`, `addr` and `out` belong to the transaction in
   hand; `served` counts the requests completed; `keyBase` says where in the
   stream of sent keystrokes the last delivered reply begins.
   */
  datatype Core = Core(
    pc: CorePc, seqno: u32, op: u32, lba: u32, count: u32, addr: u32, out: seq<byte>,
    rx: Rx, status: Status, value: u32, probed: bool, served: nat, keyBase: nat, air: Air)

  datatype MasterPc =
    | MPoll | MArm | MRaise | MAwaitHeader | MFailLower | MFailClear
    | MDecide | MArmPayload | MAwaitPayload | MRead | MSend | MLower | MClear

  /** The master. `genuine` says that what it took for a header was sent as one. */
  datatype Master = Master(
    pc: MasterPc, rx: Rx, req: Header, status: Status, rdata: seq<byte>, genuine: bool)

  /**
   What has gone wrong so far. The first four are waits that ran out of time: any
   of core 1's, the master's for a header, for a payload, for the doorbell to
   clear. The last says that words of a payload were received where a header was due.
   */
  datatype Faults = Faults(core: bool, header: bool, payload: bool, clear: bool, mistaken: bool)

  /** The moment a request's result is fixed. */
  datatype Outcome = Unsettled | SettledAs(status: Status, data: seq<byte>)

  /** What became of a key that left the queue: on to Linux, or lost, and why. */
  datatype Fate = Fed | LostWithReply | LostAtFullRing

  /**
   The console. `chunks` were taken from the fan-out, those at `shown` reached the
   terminal as `screen`. Of the keys `typed`, those at `queuedAt` found room in the
   queue; `keys` is the queue and `sent` all that ever left it. `fates` says what
   became of those, in order, and `fedAt` lists the ones that went on to Linux.
   */
  datatype Console = Console(
    chunks: seq<seq<byte>>, shown: seq<nat>, screen: seq<byte>,
    typed: seq<byte>, queuedAt: seq<nat>, keys: seq<byte>, sent: seq<byte>,
    fates: seq<Fate>, fedAt: seq<nat>)

  datatype State = State(
    linux: Linux, box: Mailbox, mem: map<u32, seq<byte>>,
    core: Core, sm: bool, ms: bool, master: Master,
    store: seq<byte>, capacity: u32, outcome: Outcome, console: Console, faults: Faults)

  datatype Action =
    | LinuxBegin(request: Request)
    | LinuxStep
    | CoreProbe
    | CorePump(chunk: seq<byte>)
    | CoreSkip
    | CoreStep(room: nat, spill: bool)    // `room`: the free space of the `rx` ring
    | CoreExpire
    | MasterStep(ok: bool, spill: bool, caught: nat)   // `ok`: the card, or the transmitter, did its work
    | MasterExpire
    | KeyPress(key: byte)

  const KEY_QUEUE := 255

  function BufferAt(mem: map<u32, seq<byte>>, addr: u32): seq<byte> {
    if addr in mem then mem[addr] else []
  }

  ghost predicate Init(s: State) {
    && s.linux.pc.LIdle? && s.linux.submits == 0 && s.linux.log == []
    && s.box.seqno == 0 && s.box.done == 0 && s.box.capacity == 0
    && s.core.pc.Top? && s.core.rx.Off? && s.core.air.Silent? && !s.core.probed && s.core.served == 0
    && !s.sm && !s.ms
    && s.master.pc.MPoll? && s.master.rx.Off?
    && |s.store| == s.capacity * SECTOR
    && s.outcome.Unsettled?
    && s.console == Console([], [], [], [], [], [], [], [], [])
    && s.faults == Faults(false, false, false, false, false)
  }

  // ---- Linux ----

  function Begin(s: State, r: Request): State {
    s.(linux := s.linux.(pc := LStoreOp, request := r),
       mem := if r.op == WRITE then s.mem[r.addr := r.data] else s.mem)
  }

  function StepLinux(s: State): State
    requires !s.linux.pc.LIdle?
  {
    var l := s.linux;
    var r := l.request;
    match l.pc
    case LStoreOp => s.(linux := l.(pc := LStoreLba), box := s.box.(op := r.op))
    case LStoreLba => s.(linux := l.(pc := LStoreCount), box := s.box.(lba := r.lba))
    case LStoreCount => s.(linux := l.(pc := LStoreAddr), box := s.box.(count := r.count))
    case LStoreAddr => s.(linux := l.(pc := LStoreSeq), box := s.box.(addr := r.addr))
    case LStoreSeq =>
      s.(linux := l.(pc := LPoll, submits := l.submits + 1),
         box := s.box.(seqno := Add32(s.box.seqno, 1)), outcome := Unsettled)
    case LPoll => s.(linux := l.(pc := if s.box.done == s.box.seqno then LStatus else LPoll))
    case LStatus =>
      s.(linux := l.(pc := LIdle, log := l.log + [Result(r, s.box.status,
        if s.box.status == 0 && r.op == READ then BufferAt(s.mem, r.addr) else [])]))
  }

  // ---- Core 1 ----

  /** The start of `blk_transact`. */
  function Transact(s: State, op: u32, count: u32, out: seq<byte>): State {
    s.(core := s.core.(pc := Raise, op := op, lba := 0, count := count, out := out))
  }

  /** What core 1 does once `blk_transact` has returned to its caller. */
  function Return(s: State): State {
    var c := s.core;
    if c.op == CON then s.(core := c.(pc := CheckSeq))
    else if c.op == INFO then
      if c.status == 0
      then s.(core := c.(pc := Top, probed := true), box := s.box.(capacity := c.value))
      else s.(core := c.(pc := Top))
    else s.(core := c.(pc := StoreStatus))
  }

  /** The payload frame: console bytes padded to a word, or the kernel's buffer. */
  function Payload(s: State): seq<byte> {
    if s.core.op == CON
    then s.core.out + Zeros(PadWord(|s.core.out|) - |s.core.out|)
    else BufferAt(s.mem, s.core.addr)
  }

  /** The same fate for each of a number of keys. */
  function All(n: nat, fate: Fate): seq<Fate> {
    seq(n, _ => fate)
  }

  /** `blk_transact` after its reply is complete. */
  function TakeReply(s: State, room: nat): State
    requires s.core.rx.Full? && |s.core.rx.data| >= REPLY_BYTES
  {
    var c := s.core;
    var r := DecodeReply(c.rx.data);
    var c' := c.(pc := Lower, rx := Off, status := r.status, value := r.value, air := Silent);
    if r.status == 0 && c.op == READ then
      s.(core := c', mem := s.mem[c.addr := c.rx.data[REPLY_BYTES..]])
    else if c.op == CON then
      var keys := Min(r.value, MAX_KEYS);
      var k := s.console;
      if r.status == 0 then
        var n := Min(room, keys);
        s.(core := c', console := k.(
          fates := k.fates + (All(n, Fed) + All(keys - n, LostAtFullRing)),
          fedAt := k.fedAt + Range(c.keyBase, c.keyBase + n)))
      else s.(core := c', console := k.(fates := k.fates + All(keys, LostWithReply)))
    else s.(core := c')
  }

  predicate CoreReady(s: State) {
    match s.core.pc
    case Top => false
    case AwaitReady => s.ms
    case AwaitReply => s.core.rx.Full? && |s.core.rx.data| >= REPLY_BYTES
    case AwaitClear => !s.ms
    case _ => true
  }

  function StepCore(s: State, room: nat, spill: bool): State
    requires CoreReady(s)
  {
    var c := s.core;
    match c.pc
    case CheckSeq =>
      s.(core := c.(pc := if s.box.seqno == s.box.done then Top else LoadOp, seqno := s.box.seqno))
    case LoadOp => s.(core := c.(pc := LoadLba, op := s.box.op))
    case LoadLba => s.(core := c.(pc := LoadCount, lba := s.box.lba))
    case LoadCount => s.(core := c.(pc := LoadAddr, count := s.box.count))
    case LoadAddr => s.(core := c.(pc := Decide, addr := s.box.addr))
    case Decide =>
      if c.count == 0 || c.count > MAX_SECTORS
      then s.(core := c.(pc := StoreStatus, status := EINVAL), outcome := SettledAs(EINVAL, []))
      else s.(core := c.(pc := Raise))
    case Raise => s.(core := c.(pc := AwaitReady), sm := true)
    case AwaitReady => s.(core := c.(pc := ArmReply))
    case ArmReply => s.(core := c.(pc := SendHeader, rx := Armed(ArmedBytes(c.op, c.count))))
    case SendHeader =>
      var header := EncodeHeader(Header(MAGIC, c.op, c.lba, c.count));
      s.(core := c.(pc := if SendsPayload(c.op, c.count) then SendPayload else AwaitReply,
                    air := Sent(s.master.rx, header, true)),
         master := s.master.(rx := Deliver(s.master.rx, header, true, spill)))
    case SendPayload =>
      var rx := Deliver(s.master.rx, Payload(s), false, spill);
      s.(core := c.(pc := AwaitReply, air := Sent(s.master.rx, Payload(s), false)), master := s.master.(rx := rx),
         faults := s.faults.(mistaken := s.faults.mistaken ||
           (rx != s.master.rx && (s.master.pc.MRaise? || s.master.pc.MAwaitHeader?))))
    case AwaitReply => TakeReply(s, room)
    case Lower => s.(core := c.(pc := AwaitClear), sm := false)
    case AwaitClear => Return(s)
    case StoreStatus => s.(core := c.(pc := StoreDone), box := s.box.(status := c.status))
    case StoreDone =>
      s.(core := c.(pc := Top, served := c.served + 1), box := s.box.(done := c.seqno))
  }

  predicate CoreMayExpire(pc: CorePc) {
    pc.AwaitReady? || pc.SendHeader? || pc.SendPayload? || pc.AwaitReply? || pc.AwaitClear?
  }

  /** One of core 1's own waits runs out of time. */
  function ExpireCore(s: State): State
    requires CoreMayExpire(s.core.pc)
  {
    var c := s.core;
    var t := s.(faults := s.faults.(core := true));
    if c.pc.AwaitReady? then Return(t.(sm := false, core := c.(status := ETIMEDOUT)))
    else if c.pc.AwaitClear? then Return(t)
    else if c.pc.AwaitReply? then t.(core := c.(pc := Lower, status := EIO, rx := Off, air := Silent))
    else t.(core := c.(pc := Lower, status := EIO, air := Silent))
  }

  // ---- The master ----

  /** A request that came in a header frame and is Linux's settles Linux's request. */
  function Settle(s: State, status: Status, data: seq<byte>): Outcome {
    if s.master.genuine && (s.master.req.op == READ || s.master.req.op == WRITE)
    then SettledAs(status, data) else s.outcome
  }

  /** `storage_read`; `ok` is the card's answer. */
  function StorageRead(store: seq<byte>, lba: u32, count: u32, ok: bool): (r: (Status, seq<byte>)) {
    if ok && (lba + count) * SECTOR <= |store| then (0, Slice(store, lba, count)) else (EIO, [])
  }

  /** `storage_write`: all of it or none of it. */
  function StorageWrite(store: seq<byte>, lba: u32, count: u32, data: seq<byte>, ok: bool): (r: (Status, seq<byte>)) {
    if ok && |data| == count * SECTOR && (lba + count) * SECTOR <= |store|
    then (0, Overwrite(store, lba, data)) else (EIO, store)
  }

  function Decided(s: State): State {
    var m := s.master;
    var status := DoRequest(m.req, s.capacity);
    var pc :=
      if status == 0 && (m.req.op == WRITE || (m.req.op == CON && m.req.count > 0)) then MArmPayload
      else if status == 0 && m.req.op == READ then MRead
      else MSend;
    s.(master := m.(pc := pc, status := status, rdata := []),
       outcome := if status != 0 then Settle(s, status, []) else s.outcome)
  }

  function PayloadExpected(h: Header): nat {
    if h.op == CON then PadWord(h.count) else h.count * SECTOR
  }

  function TakePayload(s: State, ok: bool): State
    requires s.master.rx.Full?
  {
    var m := s.master;
    var data := m.rx.data;
    var k := s.console;
    if m.req.op == CON then
      s.(master := m.(pc := MSend, rx := Off),
         console := k.(screen := k.screen + data[..Min(m.req.count, |data|)],
                       shown := k.shown + (if k.chunks == [] then [] else [|k.chunks| - 1])))
    else
      var (status, store) := StorageWrite(s.store, m.req.lba, m.req.count, data, ok);
      s.(master := m.(pc := MSend, rx := Off, status := status), store := store,
         outcome := Settle(s, status, []))
  }

  /** The keystrokes that go with the next console reply. */
  function KeysNow(s: State): seq<byte> {
    s.console.keys[..Min(|s.console.keys|, MAX_KEYS)]
  }

  /** The reply frame. */
  function ReplyFrame(s: State): seq<byte> {
    var m := s.master;
    if m.status == 0 && m.req.op == READ then EncodeReply(Reply(m.status, s.capacity)) + m.rdata
    else if m.req.op == CON then
      EncodeReply(Reply(m.status, |KeysNow(s)|)) + (KeysNow(s) + Zeros(MAX_KEYS - |KeysNow(s)|))
    else EncodeReply(Reply(m.status, s.capacity)) + []
  }

  /** Sends the reply. When the transmitter gives up (`!ok`) it is lost, with the keys in it. */
  function SendReply(s: State, ok: bool, spill: bool): State {
    var k := s.console;
    var keys := if s.master.req.op == CON then KeysNow(s) else [];
    var rx := if ok then Deliver(s.core.rx, ReplyFrame(s), false, spill) else s.core.rx;
    var arrived := rx.Full? && rx != s.core.rx;
    s.(master := s.master.(pc := MLower),
       core := s.core.(rx := rx, keyBase := if arrived then |k.sent| else s.core.keyBase),
       console := k.(keys := k.keys[|keys|..], sent := k.sent + keys,
         fates := if arrived then k.fates else k.fates + All(|keys|, LostWithReply)))
  }

  predicate MasterReady(s: State) {
    match s.master.pc
    case MPoll => s.sm
    case MAwaitHeader => s.master.rx.Full? && |s.master.rx.data| == HEADER_BYTES
    case MFailClear => !s.sm
    case MAwaitPayload => s.master.rx.Full?
    case MClear => !s.sm
    case _ => true
  }

  function StepMaster(s: State, ok: bool, spill: bool, caught: nat): State
    requires MasterReady(s)
  {
    var m := s.master;
    match m.pc
    case MPoll => s.(master := m.(pc := MArm))
    case MArm =>
      var rx := Catch(HEADER_BYTES, s.core.air, caught);
      s.(master := m.(pc := MRaise, rx := rx),
         faults := s.faults.(mistaken := s.faults.mistaken || (!rx.Armed? && !s.core.air.header)))
    case MRaise => s.(master := m.(pc := MAwaitHeader), ms := true)
    case MAwaitHeader =>
      s.(master := m.(pc := MDecide, rx := Off, req := DecodeHeader(m.rx.data), genuine := m.rx.header))
    case MFailLower => s.(master := m.(pc := MFailClear), ms := false)
    case MFailClear => s.(master := m.(pc := MPoll))
    case MDecide => Decided(s)
    case MArmPayload => s.(master := m.(pc := MAwaitPayload, rx := Catch(PayloadExpected(m.req), s.core.air, caught)))
    case MAwaitPayload => TakePayload(s, ok)
    case MRead =>
      var (status, data) := StorageRead(s.store, m.req.lba, m.req.count, ok);
      s.(master := m.(pc := MSend, status := status, rdata := data), outcome := Settle(s, status, data))
    case MSend => SendReply(s, ok, spill)
    case MLower => s.(master := m.(pc := MClear), ms := false)
    case MClear => s.(master := m.(pc := MPoll))
  }

  predicate MasterMayExpire(pc: MasterPc) {
    pc.MAwaitHeader? || pc.MAwaitPayload? || pc.MFailClear? || pc.MClear?
  }

  /**
   One of the master's waits runs out of time; the receiver is aborted. The source looks once more
   before it gives up on a frame; here a wait may also give up on one that has just arrived, so what
   is proved covers more than can happen.
   */
  function ExpireMaster(s: State): State
    requires MasterMayExpire(s.master.pc)
  {
    var m := s.master.(rx := Off);
    var f := s.faults;
    match s.master.pc
    case MAwaitHeader => s.(master := m.(pc := MFailLower), faults := f.(header := true))
    case MAwaitPayload =>
      s.(master := m.(pc := MSend, status := EIO), outcome := Settle(s, EIO, []), faults := f.(payload := true))
    case _ => s.(master := m.(pc := MPoll), faults := f.(clear := true))
  }

  /** `serial_send_char`: a key that finds the queue full is dropped. */
  function Press(s: State, key: byte): State {
    var k := s.console;
    if |k.keys| < KEY_QUEUE
    then s.(console := k.(typed := k.typed + [key], queuedAt := k.queuedAt + [|k.typed|], keys := k.keys + [key]))
    else s.(console := k.(typed := k.typed + [key]))
  }

  // ---- The system ----

  predicate Enabled(s: State, a: Action) {
    match a
    case LinuxBegin(r) => s.linux.pc.LIdle? && Submittable(r)
    case LinuxStep => !s.linux.pc.LIdle?
    case CoreProbe => s.core.pc.Top? && !s.core.probed
    case CorePump(chunk) => s.core.pc.Top? && s.core.probed && |chunk| <= MAX_CONSOLE
    case CoreSkip => s.core.pc.Top? && s.core.probed
    case CoreStep(_, _) => CoreReady(s)
    case CoreExpire => CoreMayExpire(s.core.pc)
    case MasterStep(_, _, _) => MasterReady(s)
    case MasterExpire => MasterMayExpire(s.master.pc)
    case KeyPress(_) => true
  }

  function Step(s: State, a: Action): State
    requires Enabled(s, a)
  {
    match a
    case LinuxBegin(r) => Begin(s, r)
    case LinuxStep => StepLinux(s)
    case CoreProbe => Transact(s, INFO, 0, [])
    case CorePump(chunk) =>
      Transact(s, CON, |chunk|, chunk).(console := s.console.(chunks := s.console.chunks + [chunk]))
    case CoreSkip => s.(core := s.core.(pc := CheckSeq))
    case CoreStep(room, spill) => StepCore(s, room, spill)
    case CoreExpire => ExpireCore(s)
    case MasterStep(ok, spill, caught) => StepMaster(s, ok, spill, caught)
    case MasterExpire => ExpireMaster(s)
    case KeyPress(key) => Press(s, key)
  }

  ghost predicate Legal(s: State, run: seq<Action>)
    decreases |run|
  {
    run == [] || (Enabled(s, run[0]) && Legal(Step(s, run[0]), run[1..]))
  }

  ghost function Run(s: State, run: seq<Action>): State
    requires Legal(s, run)
    decreases |run|
  {
    if run == [] then s else Run(Step(s, run[0]), run[1..])
  }
}
