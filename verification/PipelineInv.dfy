/**
 What every interleaving of Linux, core 1 and the master keeps.

 The invariants come in groups. The first two hold in all runs. The rest hold for
 as long as no wait of core 1 has run out of time and no payload has been taken
 for a header: frames carry no request number, so after that nothing ties them to
 their request.
 */
module PipelineInv {
  import opened Words
  import opened Wire
  import opened DiskSpec
  import opened Pipeline

  /** Core 1 is inside `blk_transact`. */
  predicate InTransaction(pc: CorePc) {
    || pc.Raise? || pc.AwaitReady? || pc.ArmReply? || pc.SendHeader? || pc.SendPayload?
    || pc.AwaitReply? || pc.Lower? || pc.AwaitClear?
  }

  /** Core 1 is between taking up a descriptor and completing it. */
  predicate DiskBusy(c: Core) {
    || c.pc.LoadOp? || c.pc.LoadLba? || c.pc.LoadCount? || c.pc.LoadAddr? || c.pc.Decide?
    || c.pc.StoreStatus? || c.pc.StoreDone?
    || (InTransaction(c.pc) && (c.op == READ || c.op == WRITE))
  }

  /** The master has taken a header and not yet answered it. */
  predicate Serving(pc: MasterPc) {
    pc.MDecide? || pc.MArmPayload? || pc.MAwaitPayload? || pc.MRead? || pc.MSend?
  }

  // ---- Group 1: wires, receivers and lengths ----

  ghost predicate WiresInv(s: State) {
    var c, m := s.core, s.master;
    && (s.sm <==> c.pc.AwaitReady? || c.pc.ArmReply? || c.pc.SendHeader? || c.pc.SendPayload? ||
                  c.pc.AwaitReply? || c.pc.Lower?)
    && (s.ms <==> m.pc.MAwaitHeader? || m.pc.MFailLower? || Serving(m.pc) || m.pc.MLower?)
    && (!m.rx.Off? ==> m.pc.MRaise? || m.pc.MAwaitHeader? || m.pc.MAwaitPayload?)
    && (m.rx.Partial? ==> |m.rx.got| < m.rx.len)
    && (m.pc.MRaise? || m.pc.MAwaitHeader? || m.pc.MAwaitPayload? ==> !m.rx.Off?)
    && ((m.pc.MRaise? || m.pc.MAwaitHeader?) && (m.rx.Armed? || m.rx.Partial?) ==> m.rx.len == HEADER_BYTES)
    && ((m.pc.MRaise? || m.pc.MAwaitHeader?) && m.rx.Full? ==> |m.rx.data| == HEADER_BYTES)
    && (m.pc.MAwaitPayload? && (m.rx.Armed? || m.rx.Partial?) ==> m.rx.len == PayloadExpected(m.req))
    && (m.pc.MAwaitPayload? && m.rx.Full? ==> |m.rx.data| == PayloadExpected(m.req))
    && (InTransaction(c.pc) ==> WellSized(c.op, c.count))
    && (InTransaction(c.pc) && c.op == CON ==> |c.out| == c.count)
    && (c.pc.SendHeader? || c.pc.SendPayload? || c.pc.AwaitReply? ==>
          || c.rx == Armed(ArmedBytes(c.op, c.count))
          || (c.rx.Partial? && c.rx.len == ArmedBytes(c.op, c.count) && |c.rx.got| < c.rx.len)
          || (c.rx.Full? && |c.rx.data| == ArmedBytes(c.op, c.count)))
    && |s.store| == s.capacity * SECTOR
    && |s.console.keys| <= KEY_QUEUE
  }

  // ---- Group 2: the mailbox ----

  ghost predicate CountsInv(s: State) {
    && s.core.served <= s.linux.submits <= s.core.served + 1
    && s.box.seqno == s.linux.submits % TWO32
    && s.box.done == s.core.served % TWO32
    && s.linux.submits == |s.linux.log| + (if s.linux.pc.LPoll? || s.linux.pc.LStatus? then 1 else 0)
    && (!s.linux.pc.LPoll? ==> s.linux.submits == s.core.served)
    && (DiskBusy(s.core) ==> s.linux.submits == s.core.served + 1 && s.core.seqno == s.box.seqno)
  }

  /** The shared words already stored are those of the request in hand. */
  ghost predicate DescriptorInv(s: State) {
    var pc, r, b := s.linux.pc, s.linux.request, s.box;
    && (!pc.LIdle? ==> Submittable(r))
    && (!pc.LIdle? && r.op == WRITE ==> BufferAt(s.mem, r.addr) == r.data)
    && (!pc.LIdle? && !pc.LStoreOp? ==> b.op == r.op)
    && (!pc.LIdle? && !pc.LStoreOp? && !pc.LStoreLba? ==> b.lba == r.lba)
    && (pc.LStoreAddr? || pc.LStoreSeq? || pc.LPoll? || pc.LStatus? ==> b.count == r.count)
    && (pc.LStoreSeq? || pc.LPoll? || pc.LStatus? ==> b.addr == r.addr)
  }

  /** What core 1 has loaded of the descriptor it is busy with. */
  ghost predicate LoadedInv(s: State) {
    var c, r := s.core, s.linux.request;
    DiskBusy(c) ==>
      && (!c.pc.LoadOp? ==> c.op == r.op)
      && (!c.pc.LoadOp? && !c.pc.LoadLba? ==> c.lba == r.lba)
      && (!c.pc.LoadOp? && !c.pc.LoadLba? && !c.pc.LoadCount? ==> c.count == r.count)
      && (!c.pc.LoadOp? && !c.pc.LoadLba? && !c.pc.LoadCount? && !c.pc.LoadAddr? ==> c.addr == r.addr)
  }

  ghost predicate MailboxInv(s: State) {
    && CountsInv(s)
    && DescriptorInv(s)
    && LoadedInv(s)
    && (s.core.pc.StoreDone? ==> s.box.status == s.core.status)
  }

  // ---- Group 3: who may be where ----

  /** Core 1 has sent its header, is armed for the reply, and has not had it. */
  ghost predicate AwaitsReply(c: Core) {
    (c.pc.SendPayload? || c.pc.AwaitReply?) && c.rx == Armed(ArmedBytes(c.op, c.count))
  }

  function HeaderOf(c: Core): Header {
    Header(MAGIC, c.op, c.lba, c.count)
  }

  /** A header frame sits in the master's receiver. */
  predicate HeaderIn(m: Master) {
    (m.pc.MRaise? || m.pc.MAwaitHeader?) && m.rx.Full?
  }

  /** A frame that passed its receiver by is of the transaction in hand, which has not been answered since. */
  ghost predicate AirInv(s: State) {
    var c, m := s.core, s.master;
    c.air.Passing? ==>
      && (c.pc.SendPayload? || c.pc.AwaitReply?)
      && (c.air.header ==> |c.air.frame| == HEADER_BYTES && AwaitsReply(c) && !HeaderIn(m) && !Serving(m.pc))
      && (!c.air.header ==>
            c.pc.AwaitReply? && SendsPayload(c.op, c.count) && |c.air.frame| == PayloadBytes(c.op, c.count))
  }

  ghost predicate PhaseInv(s: State) {
    var c, m := s.core, s.master;
    && AirInv(s)
    && (m.rx.Partial? ==> AwaitsReply(c) && (m.pc.MAwaitPayload? ==> c.pc.AwaitReply?))
    && (HeaderIn(m) ==> m.rx.header && AwaitsReply(c) && m.rx.data == EncodeHeader(HeaderOf(c)))
    && (Serving(m.pc) ==> m.genuine && AwaitsReply(c) && m.req == HeaderOf(c))
    && (m.pc.MLower? ==> c.pc.SendPayload? || c.pc.AwaitReply? || c.pc.Lower? || c.pc.AwaitClear?)
    && (c.pc.SendHeader? ==> c.rx == Armed(ArmedBytes(c.op, c.count)))
    && (!c.pc.SendHeader? && !c.pc.SendPayload? && !c.pc.AwaitReply? ==> c.rx.Off?)
    && (c.pc.SendPayload? ==> SendsPayload(c.op, c.count))
    && (m.pc.MAwaitPayload? && m.rx.Full? ==>
          c.pc.AwaitReply? && SendsPayload(c.op, c.count) && m.rx.data == Payload(s))
    && (m.pc.MArmPayload? || m.pc.MAwaitPayload? ==>
          (m.req.op == WRITE || (m.req.op == CON && m.req.count > 0)))
    && (m.pc.MRead? ==> m.req.op == READ)
  }

  // ---- Group 4: one result per request ----

  /** Core 1 has not yet put the header of Linux's request on the wire. */
  predicate BeforeHeader(c: Core) {
    || c.pc.LoadOp? || c.pc.LoadLba? || c.pc.LoadCount? || c.pc.LoadAddr? || c.pc.Decide?
    || c.pc.Raise? || c.pc.AwaitReady? || c.pc.ArmReply? || c.pc.SendHeader?
  }

  /** The data that goes with a status. */
  ghost predicate Delivered(s: State, status: Status) {
    && s.outcome.SettledAs? && s.outcome.status == status
    && (s.linux.request.op == READ && status == 0 ==>
          BufferAt(s.mem, s.linux.request.addr) == s.outcome.data)
    && (!(s.linux.request.op == READ && status == 0) ==> s.outcome.data == [])
  }

  ghost predicate ResultInv(s: State) {
    var c, m, o := s.core, s.master, s.outcome;
    && (s.linux.submits == c.served + 1 && (!DiskBusy(c) || BeforeHeader(c)) ==> o.Unsettled?)
    && (DiskBusy(c) && HeaderIn(m) ==> o.Unsettled?)
    && (DiskBusy(c) && Serving(m.pc) && !m.pc.MSend? ==> o.Unsettled?)
    && (DiskBusy(c) && m.pc.MSend? ==>
          o == SettledAs(m.status, if m.status == 0 && m.req.op == READ then m.rdata else []))
    && (DiskBusy(c) && c.rx.Full? ==>
          o.SettledAs? && c.rx.data == EncodeReply(Reply(o.status, s.capacity)) + o.data
          && (!(c.op == READ && o.status == 0) ==> o.data == []))
    && (DiskBusy(c) && (c.pc.Lower? || c.pc.AwaitClear? || c.pc.StoreStatus? || c.pc.StoreDone?) ==>
          Delivered(s, c.status))
    && (s.linux.submits == c.served && (s.linux.pc.LPoll? || s.linux.pc.LStatus?) ==>
          Delivered(s, s.box.status))
    && (m.pc.MSend? && m.status == 0 && m.req.op == READ ==> |m.rdata| == m.req.count * SECTOR)
  }

  // ---- Group 5: the console ----

  /** The chunk in hand cannot have been shown yet. */
  ghost predicate NotYetShown(s: State) {
    var c, m := s.core, s.master;
    && InTransaction(c.pc) && c.op == CON
    && (|| c.pc.Raise? || c.pc.AwaitReady? || c.pc.ArmReply? || c.pc.SendHeader?
        || HeaderIn(m)
        || (Serving(m.pc) && !m.pc.MSend?))
  }

  /** The screen is made of whole chunks, each at most once, in order. */
  ghost predicate ShownInv(k: Console) {
    && Positions(k.shown, |k.chunks|)
    && k.screen == Flatten(Select(k.chunks, k.shown))
  }

  ghost predicate ConsoleInv(s: State) {
    var k := s.console;
    && ShownInv(k)
    && (InTransaction(s.core.pc) && s.core.op == CON ==>
          k.chunks != [] && k.chunks[|k.chunks| - 1] == s.core.out)
    && (NotYetShown(s) ==> forall i :: 0 <= i < |k.shown| ==> k.shown[i] < |k.chunks| - 1)
  }

  // ---- Group 6: keystrokes ----

  /** The queue takes keys in order, each at most once, and gives them up in that order. */
  ghost predicate QueueInv(k: Console) {
    && Positions(k.queuedAt, |k.typed|)
    && k.sent + k.keys == Select(k.typed, k.queuedAt)
  }

  /** The keys listed as fed are those whose fate it was. */
  ghost predicate FatesInv(k: Console) {
    && |k.fates| <= |k.sent|
    && Positions(k.fedAt, |k.fates|)
    && (forall p :: 0 <= p < |k.fates| ==> (k.fates[p].Fed? <==> p in k.fedAt))
  }

  /** A delivered console reply carries all the keys whose fate is open. */
  ghost predicate KeysIn(s: State, status: Status, n: nat) {
    var k, base := s.console, s.core.keyBase;
    && n <= MAX_KEYS && base == |k.fates| && base + n == |k.sent|
    && s.core.rx.Full?
    && s.core.rx.data ==
         EncodeReply(Reply(status, n)) + (k.sent[base..base + n] + Zeros(MAX_KEYS - n))
  }

  /** A console reply is on its way to core 1. */
  predicate ReplyIn(c: Core) {
    c.rx.Full? && c.op == CON
  }

  ghost predicate KeysInv(s: State) {
    && QueueInv(s.console)
    && FatesInv(s.console)
    && (ReplyIn(s.core) ==> exists status: Status, n: nat :: KeysIn(s, status, n))
    && (!ReplyIn(s.core) ==> |s.console.fates| == |s.console.sent|)
  }

  /** The capacity Linux is shown is the master's. */
  ghost predicate CapacityInv(s: State) {
    && (s.core.probed ==> s.box.capacity == s.capacity)
    && (s.core.rx.Full? && s.core.op == INFO ==> s.core.rx.data == EncodeReply(Reply(0, s.capacity)) + [])
    && (s.core.op == INFO && (s.core.pc.Lower? || s.core.pc.AwaitClear?) ==> s.core.value == s.capacity)
    && (s.core.op == INFO && s.master.pc.MSend? ==> s.master.status == 0)
  }

  // ---- Group 7: the two doorbells ----

  /** Core 1 is between transactions, or about to raise its doorbell. */
  predicate Between(pc: CorePc) {
    !InTransaction(pc) || pc.Raise?
  }

  /** Core 1 has seen the master ready and has not yet lowered its own doorbell. */
  predicate Engaged(pc: CorePc) {
    pc.ArmReply? || pc.SendHeader? || pc.SendPayload? || pc.AwaitReply? || pc.Lower?
  }

  ghost predicate DoorbellInv(s: State) {
    var c, m := s.core, s.master;
    && (m.pc.MFailLower? || m.pc.MFailClear? ==> s.faults.header)
    && (!s.faults.header && (c.pc.ArmReply? || c.pc.SendHeader?) ==>
          m.pc.MAwaitHeader? && m.rx == Armed(HEADER_BYTES))
    && (!s.faults.clear && Between(c.pc) ==> m.pc.MPoll? || m.pc.MClear? || m.pc.MFailClear?)
    && (!s.faults.clear && (Engaged(c.pc) || c.pc.AwaitClear?) ==> !m.pc.MArm? && !m.pc.MRaise?)
    && (!s.faults.clear && Engaged(c.pc) ==> !m.pc.MPoll?)
    && (!s.faults.clear && (c.pc.SendPayload? || c.pc.AwaitReply? || c.pc.Lower? || c.pc.AwaitClear?) ==>
          !(m.pc.MAwaitHeader? && !m.rx.Full?))
  }

  // ---- Group 8: nothing lost while the master keeps up ----

  /** All chunks but the one in hand. */
  function Earlier(k: Console): seq<seq<byte>> {
    if k.chunks == [] then [] else k.chunks[..|k.chunks| - 1]
  }

  ghost predicate LosslessInv(s: State) {
    var c, m, k := s.core, s.master, s.console;
    && (|| k.screen == Flatten(k.chunks)
        || (InTransaction(c.pc) && c.op == CON && !c.pc.Lower? && !c.pc.AwaitClear? && !c.rx.Full? &&
             k.screen == Flatten(Earlier(k))))
    && (NotYetShown(s) ==> k.screen == Flatten(Earlier(k)))
    && (c.op == CON && m.pc.MSend? ==> k.screen == Flatten(k.chunks))
    && (c.op == CON && (c.rx.Full? || m.pc.MLower?) ==> k.screen == Flatten(k.chunks))
  }

  predicate Calm(s: State) {
    !s.faults.core && !s.faults.mistaken
  }

  /** Everything about the wires, the mailbox and who is serving what. */
  ghost predicate LinkInv(s: State) {
    && WiresInv(s)
    && MailboxInv(s)
    && (Calm(s) ==> PhaseInv(s) && ResultInv(s) && CapacityInv(s) && DoorbellInv(s))
  }

  /** Everything about the byte streams. */
  ghost predicate StreamInv(s: State) {
    Calm(s) ==>
      && ConsoleInv(s) && KeysInv(s)
      && (!s.faults.payload ==> LosslessInv(s))
  }

  ghost predicate Inv(s: State) {
    LinkInv(s) && StreamInv(s)
  }

  lemma InitInv(s: State)
    requires Init(s)
    ensures Inv(s)
  {
    assert 0 % TWO32 == 0;
  }
}
