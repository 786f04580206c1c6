/**
 Runs that show the conditions of `PipelineTheorems` are needed. None of core 1's
 waits runs out in any of them.
 */
module PipelineWitness {
  import opened Words
  import opened Wire
  import opened DiskSpec
  import opened Pipeline
  import opened PipelineInv
  import opened PipelineTheorems

  ghost predicate Reaches(s: State, t: State) {
    exists run: seq<Action> :: Legal(s, run) && Run(s, run) == t
  }

  lemma {:induction false} RunExtends(s: State, run: seq<Action>, a: Action)
    requires Legal(s, run) && Enabled(Run(s, run), a)
    ensures Legal(s, run + [a]) && Run(s, run + [a]) == Step(Run(s, run), a)
    decreases |run|
  {
    if run == [] {
      assert run + [a] == [a];
      assert [a][1..] == [];
    } else {
      RunExtends(Step(s, run[0]), run[1..], a);
      assert (run + [a])[1..] == run[1..] + [a];
      assert (run + [a])[0] == run[0];
    }
  }

  /** One more step of a run under construction. */
  lemma Go(s: State, t: State, a: Action) returns (u: State)
    requires Reaches(s, t) && Enabled(t, a)
    ensures Reaches(s, u) && u == Step(t, a)
  {
    var run: seq<Action> :| Legal(s, run) && Run(s, run) == t;
    RunExtends(s, run, a);
    u := Step(t, a);
  }

  lemma GoCore(s: State, t: State) returns (u: State)
    requires Reaches(s, t) && CoreReady(t)
    ensures Reaches(s, u) && u == StepCore(t, 0, true)
  {
    u := Go(s, t, CoreStep(0, true));
  }

  lemma GoMaster(s: State, t: State) returns (u: State)
    requires Reaches(s, t) && MasterReady(t)
    ensures Reaches(s, u) && u == StepMaster(t, true, true, 0)
  {
    u := Go(s, t, MasterStep(true, true, 0));
  }

  lemma GoLinux(s: State, t: State) returns (u: State)
    requires Reaches(s, t) && !t.linux.pc.LIdle?
    ensures Reaches(s, u) && u == StepLinux(t)
  {
    u := Go(s, t, LinuxStep);
  }

  lemma Stay(s: State)
    ensures Reaches(s, s)
  {
    assert Legal(s, []) && Run(s, []) == s;
  }

  /** Power-up, on a disk of eight empty sectors. */
  function PowerUp(): State {
    State(
      Linux(LIdle, Request(READ, 0, 0, 0, []), 0, []),
      Mailbox(0, 0, 0, 0, 0, 0, 0, 0), map[],
      Core(Top, 0, 0, 0, 0, 0, [], Off, 0, 0, false, 0, 0, Silent), false, false,
      Master(MPoll, Off, Header(0, 0, 0, 0), 0, [], false),
      Zeros(8 * SECTOR), 8, Unsettled, Console([], [], [], [], [], [], [], [], []),
      Faults(false, false, false, false, false))
  }

  /** From core 1 about to raise its doorbell to its header about to go out. */
  lemma Meet(s: State, t: State) returns (u: State)
    requires Reaches(s, t) && t.core.pc.Raise? && t.master.pc.MPoll? && !t.ms
    ensures Reaches(s, u)
    ensures u == t.(core := t.core.(pc := SendHeader, rx := Armed(ArmedBytes(t.core.op, t.core.count))),
                    master := t.master.(pc := MAwaitHeader, rx := Armed(HEADER_BYTES)), sm := true, ms := true)
  {
    u := GoCore(s, t);
    u := GoMaster(s, u);
    u := GoMaster(s, u);
    u := GoMaster(s, u);
    u := GoCore(s, u);
    u := GoCore(s, u);
  }

  /** The header goes out and the master takes it. */
  lemma Ask(s: State, t: State) returns (u: State)
    requires Reaches(s, t) && t.core.pc.SendHeader? && t.master.pc.MAwaitHeader?
    requires t.master.rx == Armed(HEADER_BYTES)
    ensures Reaches(s, u)
    ensures u == t.(core := t.core.(pc := if SendsPayload(t.core.op, t.core.count) then SendPayload else AwaitReply,
                                    air := Silent),
                    master := t.master.(pc := MDecide, rx := Off, req := HeaderOf(t.core), genuine := true))
  {
    HeaderRoundTrip(HeaderOf(t.core));
    u := GoCore(s, t);
    u := GoMaster(s, u);
  }

  /** Linux writes the first half of the descriptor. */
  lemma Describe(s: State, t: State, r: Request) returns (u: State)
    requires Reaches(s, t) && t.linux.pc.LIdle? && Submittable(r) && r.op == WRITE
    ensures Reaches(s, u)
    ensures u == t.(linux := t.linux.(pc := LStoreCount, request := r), mem := t.mem[r.addr := r.data],
                    box := t.box.(op := r.op, lba := r.lba))
  {
    u := Go(s, t, LinuxBegin(r));
    u := GoLinux(s, u);
    u := GoLinux(s, u);
  }

  /** Linux writes the rest and publishes it. */
  lemma Publish(s: State, t: State) returns (u: State)
    requires Reaches(s, t) && t.linux.pc.LStoreCount?
    ensures Reaches(s, u)
    ensures var r := t.linux.request;
      u == t.(linux := t.linux.(pc := LPoll, submits := t.linux.submits + 1), outcome := Unsettled,
              box := t.box.(seqno := Add32(t.box.seqno, 1), count := r.count, addr := r.addr))
  {
    u := GoLinux(s, t);
    u := GoLinux(s, u);
    u := GoLinux(s, u);
  }

  /** The master gives up on a console payload. */
  lemma GiveUp(s: State, t: State) returns (u: State)
    requires Reaches(s, t) && t.master.pc.MDecide? && t.master.req.magic == MAGIC && t.master.req.op == CON
    requires 0 < t.master.req.count <= MAX_CONSOLE
    ensures Reaches(s, u)
    ensures u == t.(master := t.master.(pc := MSend, rx := Off, status := EIO, rdata := []),
                    faults := t.faults.(payload := true))
  {
    u := GoMaster(s, t);
    u := GoMaster(s, u);
    u := Go(s, u, MasterExpire);
  }

  /** It answers, gives up on core 1's doorbell and arms afresh. */
  lemma Rearm(s: State, t: State) returns (u: State)
    requires Reaches(s, t) && t.master.pc.MSend? && t.master.req.op == CON && t.master.status == EIO
    requires t.core.rx == Armed(REPLY_BYTES + MAX_KEYS) && t.console.keys == [] && t.sm
    ensures Reaches(s, u)
    ensures u == t.(
      core := t.core.(rx := Full(EncodeReply(Reply(EIO, 0)) + ([] + Zeros(MAX_KEYS)), false),
                      keyBase := |t.console.sent|),
      master := t.master.(pc := MRaise, rx := Armed(HEADER_BYTES)), ms := false, faults := t.faults.(clear := true))
  {
    u := GoMaster(s, t);
    u := GoMaster(s, u);
    u := Go(s, u, MasterExpire);
    u := GoMaster(s, u);
    u := GoMaster(s, u);
  }

  /** The state in which the answer to the capacity probe has just arrived. */
  function Probed(): State {
    var s := PowerUp();
    s.(core := s.core.(pc := AwaitReply, op := INFO, rx := Full(EncodeReply(Reply(0, 8)) + [], false)),
       master := Master(MLower, Off, Header(MAGIC, INFO, 0, 0), 0, [], true), sm := true, ms := true)
  }

  lemma ProbeRun()
    ensures Reaches(PowerUp(), Probed())
  {
    var s := PowerUp();
    Stay(s);
    var t := Go(s, s, CoreProbe);
    t := Meet(s, t);
    t := Ask(s, t);
    t := GoMaster(s, t);
    t := GoMaster(s, t);
    assert t == Probed();
  }

  /**
   A header wait that runs out between the master's doorbell and core 1's header:
   the header then meets no receiver.
   */
  lemma HeaderCanMeetNobody() returns (t: State)
    ensures Init(PowerUp()) && Reaches(PowerUp(), t)
    ensures t.faults == Faults(false, true, false, false, false)
    ensures t.core.pc.SendHeader? && t.master.rx.Off?
  {
    var s := PowerUp();
    Stay(s);
    t := Go(s, s, CoreProbe);
    t := Meet(s, t);
    t := Go(s, t, MasterExpire);
  }

  /** The master has answered the probe and given up waiting for core 1's doorbell to fall. */
  function GivenUp(): State {
    var s := Probed();
    s.(ms := false, master := s.master.(pc := MArm), faults := Faults(false, false, false, true, false))
  }

  /** Core 1 has taken the answer since. */
  function Stale(): State {
    var s := GivenUp();
    s.(core := s.core.(pc := Top, rx := Off, value := 8, probed := true), box := s.box.(capacity := 8), sm := false)
  }

  lemma StaleRun()
    ensures Reaches(PowerUp(), Stale())
  {
    var s := PowerUp();
    ProbeRun();
    var t := GoMaster(s, Probed());
    t := Go(s, t, MasterExpire);
    t := GoMaster(s, t);
    assert t == GivenUp();
    TakesProbe(s);
  }

  lemma TakesProbe(s: State)
    requires Reaches(s, GivenUp())
    ensures Reaches(s, Stale())
  {
    ReplyRoundTrip(Reply(0, 8), []);
    var t := GoCore(s, GivenUp());
    t := GoCore(s, t);
    t := GoCore(s, t);
    assert t == Stale();
  }

  /** A doorbell wait that runs out: the master's doorbell is then high when core 1 raises its own. */
  lemma DoorbellCanBeHigh() returns (t: State)
    ensures Init(PowerUp()) && Reaches(PowerUp(), t)
    ensures t.faults == Faults(false, false, false, true, false)
    ensures t.core.pc.Raise? && t.ms
  {
    var s := PowerUp();
    StaleRun();
    t := Go(s, Stale(), CorePump([]));
    t := GoMaster(s, t);
    t := GoMaster(s, t);
  }

  // ---- A write that goes astray ----

  /** A console chunk that happens to read as a header: write one sector at 5. */
  function HeaderLike(): seq<byte> {
    EncodeHeader(Header(MAGIC, WRITE, 5, 1))
  }

  /** The capacity probe has run its course. */
  function AtRest(): State {
    var s := PowerUp();
    s.(core := s.core.(pc := Top, op := INFO, value := 8, probed := true),
       box := s.box.(capacity := 8),
       master := Master(MPoll, Off, Header(MAGIC, INFO, 0, 0), 0, [], true))
  }

  lemma RestRun()
    ensures Reaches(PowerUp(), AtRest())
  {
    var s := PowerUp();
    ProbeRun();
    ReplyRoundTrip(Reply(0, 8), []);
    var t := GoCore(s, Probed());
    t := GoCore(s, t);
    t := GoMaster(s, t);
    t := GoCore(s, t);
    t := GoMaster(s, t);
    assert t == AtRest();
  }

  /** A chunk with bytes in it, no longer than core 1 takes. */
  predicate IsChunk(c: seq<byte>) {
    0 < |c| <= MAX_CONSOLE
  }

  /**
   The header of chunk `c` has been taken and answered without its payload; the master
   has given up on both the payload and core 1's doorbell and armed afresh.
   */
  function Rearmed(c: seq<byte>): State
    requires IsChunk(c)
  {
    var s := AtRest();
    var reply := EncodeReply(Reply(EIO, 0)) + ([] + Zeros(MAX_KEYS));
    s.(core := s.core.(pc := SendPayload, op := CON, count := |c|, out := c, rx := Full(reply, false)),
       master := Master(MRaise, Armed(HEADER_BYTES), Header(MAGIC, CON, 0, |c|), EIO, [], true), sm := true,
       console := Console([c], [], [], [], [], [], [], [], []),
       faults := Faults(false, false, true, true, false))
  }

  lemma RearmedRun(c: seq<byte>)
    requires IsChunk(c)
    ensures Reaches(PowerUp(), Rearmed(c))
  {
    var s := PowerUp();
    RestRun();
    var t := Go(s, AtRest(), CorePump(c));
    t := Meet(s, t);
    t := Ask(s, t);
    t := GiveUp(s, t);
    t := Rearm(s, t);
    assert t == Rearmed(c);
  }

  /** The payload has landed in the header's place, and core 1 has moved on. */
  function Planted(): State {
    var s := Rearmed(HeaderLike());
    s.(core := s.core.(pc := CheckSeq, rx := Off, status := EIO, value := 0), sm := false,
       master := s.master.(rx := Full(HeaderLike(), false)),
       faults := Faults(false, false, true, true, true))
  }

  lemma PlantedRun()
    ensures Reaches(PowerUp(), Planted())
  {
    var s := PowerUp();
    RearmedRun(HeaderLike());
    ReplyRoundTrip(Reply(EIO, 0), [] + Zeros(MAX_KEYS));
    assert Payload(Rearmed(HeaderLike())) == HeaderLike();
    var t := GoCore(s, Rearmed(HeaderLike()));
    t := GoCore(s, t);
    t := GoCore(s, t);
    t := GoCore(s, t);
    assert t == Planted();
  }

  /** Linux writes one sector of ones at 0. */
  function Ones(): Request {
    Request(WRITE, 0, 1, 0, seq(SECTOR, _ => 1))
  }

  function Submitted(): State {
    var s := Planted();
    s.(linux := Linux(LPoll, Ones(), 1, []), mem := map[0 := Ones().data],
       box := Mailbox(1, 0, WRITE, 0, 1, 0, 0, 8))
  }

  lemma SubmittedRun()
    ensures Reaches(PowerUp(), Submitted())
  {
    var s := PowerUp();
    PlantedRun();
    var t := Describe(s, Planted(), Ones());
    t := Publish(s, t);
    assert t == Submitted();
  }

  /** Core 1 has loaded the descriptor of Linux's write. */
  function Loaded(): State {
    var s := Submitted();
    s.(core := s.core.(pc := Decide, seqno := 1, op := WRITE, lba := 0, count := 1, addr := 0))
  }

  lemma LoadedRun()
    ensures Reaches(PowerUp(), Loaded())
  {
    var s := PowerUp();
    SubmittedRun();
    var t := GoCore(s, Submitted());
    t := GoCore(s, t);
    t := GoCore(s, t);
    t := GoCore(s, t);
    t := GoCore(s, t);
    assert t == Loaded();
  }

  /** Core 1 and the master have rung each other. */
  function Rung(): State {
    var s := Submitted();
    s.(core := s.core.(pc := AwaitReady, seqno := 1, op := WRITE, lba := 0, count := 1, addr := 0),
       sm := true, ms := true, master := s.master.(pc := MAwaitHeader))
  }

  lemma RungRun()
    ensures Reaches(PowerUp(), Rung())
  {
    var s := PowerUp();
    LoadedRun();
    var t := GoCore(s, Loaded());
    t := GoCore(s, t);
    t := GoMaster(s, t);
    assert t == Rung();
  }

  /** Core 1 has sent the header of Linux's write to a receiver that is already full. */
  function Crossed(): State {
    var s := Rung();
    s.(core := s.core.(pc := SendPayload, rx := Armed(REPLY_BYTES),
                       air := Passing(EncodeHeader(Header(MAGIC, WRITE, 0, 1)), true)))
  }

  lemma CrossedRun()
    ensures Reaches(PowerUp(), Crossed())
  {
    var s := PowerUp();
    RungRun();
    var t := GoCore(s, Rung());
    t := GoCore(s, t);
    t := GoCore(s, t);
    assert t == Crossed();
  }

  /** The master takes the payload for the sector the chunk named. */
  lemma Misplace(s: State, t: State) returns (u: State)
    requires Reaches(s, t) && t.core.pc.SendPayload? && t.core.op == WRITE && t.core.rx == Armed(REPLY_BYTES)
    requires t.master.pc.MArmPayload? && !t.master.genuine && t.master.req == Header(MAGIC, WRITE, 5, 1)
    requires |Payload(t)| == SECTOR && |t.store| == 8 * SECTOR
    ensures Reaches(s, u)
    ensures u == t.(
      core := t.core.(pc := AwaitReply, rx := Full(EncodeReply(Reply(0, t.capacity)) + [], false),
                      keyBase := |t.console.sent|, air := Silent),
      master := t.master.(pc := MLower, rx := Off, status := 0),
      store := Overwrite(t.store, 5, Payload(t)))
  {
    u := GoMaster(s, t);
    u := GoCore(s, u);
    u := GoMaster(s, u);
    u := GoMaster(s, u);
  }

  /** The master has written Linux's sector where the chunk said, and answers. */
  function Astray(): State {
    var s := Crossed();
    s.(core := s.core.(pc := AwaitReply, rx := Full(EncodeReply(Reply(0, 8)) + [], false), air := Silent),
       master := Master(MLower, Off, Header(MAGIC, WRITE, 5, 1), 0, [], false),
       store := Overwrite(s.store, 5, Ones().data))
  }

  lemma AstrayRun()
    ensures Reaches(PowerUp(), Astray())
  {
    var s := PowerUp();
    CrossedRun();
    HeaderRoundTrip(Header(MAGIC, WRITE, 5, 1));
    var t := GoMaster(s, Crossed());
    t := GoMaster(s, t);
    t := Misplace(s, t);
    assert t == Astray();
  }

  lemma Complete(s: State, t: State) returns (u: State)
    requires Reaches(s, t) && t.core.pc.StoreStatus? && t.core.status == 0
    requires t.linux.pc.LPoll? && t.linux.request.op == WRITE && t.core.seqno == t.box.seqno
    ensures Reaches(s, u) && u.store == t.store && u.faults == t.faults
    ensures u.linux.log == t.linux.log + [Result(t.linux.request, 0, [])]
  {
    u := GoCore(s, t);
    u := GoCore(s, u);
    u := GoLinux(s, u);
    u := GoLinux(s, u);
  }

  /**
   With a doorbell wait of the master run out and a chunk of header size, Linux can
   be told that its write succeeded when its sector was not written. No wait of
   core 1 has run out, and no header wait of the master.
   */
  lemma WriteCanGoAstray() returns (t: State)
    ensures Init(PowerUp()) && Reaches(PowerUp(), t)
    ensures !t.faults.core && !t.faults.header
    ensures t.linux.log == [Result(Ones(), 0, [])]
    ensures |t.store| == |PowerUp().store| && Slice(t.store, 0, 1) == Slice(PowerUp().store, 0, 1) != Ones().data
  {
    var s := PowerUp();
    AstrayRun();
    ReplyRoundTrip(Reply(0, 8), []);
    t := GoCore(s, Astray());
    t := GoCore(s, t);
    t := GoMaster(s, t);
    t := GoCore(s, t);
    t := Complete(s, t);
    assert Ones().data[0] == 1 && Slice(t.store, 0, 1)[0] == 0;
  }

  // ---- When runs are calm, exactly ----

  /** Any chunk with bytes in it can end up in a receiver armed for a header. */
  lemma ChunkCanBeMistaken(c: seq<byte>) returns (t: State)
    requires IsChunk(c)
    ensures Reaches(PowerUp(), t) && t.faults.mistaken && !t.faults.core && !t.faults.header
    ensures t.console.chunks == [c] && t.linux == PowerUp().linux
  {
    RearmedRun(c);
    t := GoCore(PowerUp(), Rearmed(c));
  }

  /** Linux's write has been loaded, with the console quiet. */
  function WriteLoaded(): State {
    var s := AtRest();
    s.(linux := Linux(LPoll, Ones(), 1, []), mem := map[0 := Ones().data],
       box := Mailbox(1, 0, WRITE, 0, 1, 0, 0, 8),
       core := s.core.(pc := Raise, seqno := 1, op := WRITE, lba := 0, count := 1, addr := 0))
  }

  lemma WriteLoadedRun()
    ensures Reaches(PowerUp(), WriteLoaded())
  {
    var s := PowerUp();
    RestRun();
    var t := Describe(s, AtRest(), Ones());
    t := Publish(s, t);
    t := Go(s, t, CoreSkip);
    t := GoCore(s, t);
    t := GoCore(s, t);
    t := GoCore(s, t);
    t := GoCore(s, t);
    t := GoCore(s, t);
    t := GoCore(s, t);
    assert t == WriteLoaded();
  }

  /** The master gives up on the payload of a write. */
  lemma GiveUpOnWrite(s: State, t: State) returns (u: State)
    requires Reaches(s, t) && t.master.pc.MDecide? && t.master.req == Header(MAGIC, WRITE, 0, 1) && t.capacity == 8
    ensures Reaches(s, u)
    ensures u == t.(master := t.master.(pc := MSend, rx := Off, status := EIO, rdata := []),
                    outcome := u.outcome, faults := t.faults.(payload := true))
  {
    u := GoMaster(s, t);
    u := GoMaster(s, u);
    u := Go(s, u, MasterExpire);
  }

  /** It answers, gives up on core 1's doorbell and arms afresh. */
  lemma RearmAfterWrite(s: State, t: State) returns (u: State)
    requires Reaches(s, t) && t.master.pc.MSend? && t.master.req.op == WRITE && t.master.status == EIO
    requires t.sm
    ensures Reaches(s, u)
    ensures u.master.pc.MRaise? && u.master.rx == Armed(HEADER_BYTES)
    ensures u.core == t.core.(rx := u.core.rx, keyBase := u.core.keyBase)
    ensures u.linux == t.linux && u.mem == t.mem && u.console.chunks == t.console.chunks
    ensures u.faults == t.faults.(clear := true)
  {
    u := GoMaster(s, t);
    hide Deliver, ReplyFrame, EncodeReply;
    u := GoMaster(s, u);
    u := Go(s, u, MasterExpire);
    u := GoMaster(s, u);
    u := GoMaster(s, u);
  }

  /** So can a write. */
  lemma WriteCanBeMistaken() returns (t: State)
    ensures Reaches(PowerUp(), t) && t.faults.mistaken && !t.faults.core && !t.faults.header
    ensures t.console.chunks == []
  {
    var s := PowerUp();
    WriteLoadedRun();
    t := Meet(s, WriteLoaded());
    t := Ask(s, t);
    t := GiveUpOnWrite(s, t);
    t := RearmAfterWrite(s, t);
    assert Payload(t) == Ones().data;
    t := GoCore(s, t);
  }

  /** What has been sent is within a policy on console chunks and on writes. */
  ghost predicate Within(e: State, allowed: seq<byte> -> bool, writes: bool) {
    && (forall i :: 0 <= i < |e.console.chunks| ==> allowed(e.console.chunks[i]))
    && (writes || NoWrites(e.linux))
  }

  /** Every run from power-up that keeps to the policy, and in which core 1 waits long enough, is calm. */
  ghost predicate AlwaysCalmUnder(allowed: seq<byte> -> bool, writes: bool) {
    forall s: State, run: seq<Action> ::
      Init(s) && Legal(s, run) && Within(Run(s, run), allowed, writes) && !Run(s, run).faults.core ==>
        Calm(Run(s, run))
  }

  lemma {:induction false} ChunksAreChunks(s: State, run: seq<Action>)
    requires Legal(s, run) && forall i :: 0 <= i < |s.console.chunks| ==> |s.console.chunks[i]| <= MAX_CONSOLE
    ensures forall i :: 0 <= i < |Run(s, run).console.chunks| ==> |Run(s, run).console.chunks[i]| <= MAX_CONSOLE
    decreases |run|
  {
    if run != [] {
      OnlyPumpAdds(s, run[0]);
      ChunksAreChunks(Step(s, run[0]), run[1..]);
    }
  }

  /**
   Calm is a matter of what is sent: all runs that keep to a policy are calm, whatever the master's
   waits do, exactly when the policy lets through no console byte and no write.
   */
  lemma AlwaysCalm(allowed: seq<byte> -> bool, writes: bool)
    ensures AlwaysCalmUnder(allowed, writes) <==> !writes && forall c :: IsChunk(c) ==> !allowed(c)
  {
    if AlwaysCalmUnder(allowed, writes) {
      if writes {
        var t := WriteCanBeMistaken();
        NotCalm(t, allowed, writes);
      }
      forall c | IsChunk(c) ensures !allowed(c) {
        var t := ChunkCanBeMistaken(c);
        if allowed(c) {
          assert Requests(t.linux) == [];
          NotCalm(t, allowed, writes);
        }
      }
    }
    if !writes && forall c :: IsChunk(c) ==> !allowed(c) {
      forall s: State, run: seq<Action> |
        Init(s) && Legal(s, run) && Within(Run(s, run), allowed, writes) && !Run(s, run).faults.core
        ensures Calm(Run(s, run))
      {
        ChunksAreChunks(s, run);
        CalmUnless(s, run);
      }
    }
  }

  lemma NotCalm(t: State, allowed: seq<byte> -> bool, writes: bool)
    requires Reaches(PowerUp(), t) && t.faults.mistaken && !t.faults.core && Within(t, allowed, writes)
    ensures !AlwaysCalmUnder(allowed, writes)
  {
    var run: seq<Action> :| Legal(PowerUp(), run) && Run(PowerUp(), run) == t;
    assert Init(PowerUp());
  }
}
