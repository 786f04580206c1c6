/**
 What Linux is entitled to expect of its disk, with no chips in it: one request
 at a time, each settled once, in one indivisible step, on a store of sectors.
 */
module DiskSpec {
  import opened Words
  import opened Wire

  /** A request as Linux describes it. `data` is what the buffer holds when it is submitted. */
  datatype Request = Request(op: u32, lba: u32, count: u32, addr: u32, data: seq<byte>)

  datatype Result = Result(request: Request, status: Status, data: seq<byte>)

  datatype Phase =
    | Idle
    | Waiting(request: Request)
    | Settled(result: Result)

  datatype Disk = Disk(store: seq<byte>, phase: Phase, log: seq<Result>)

  /** What the block layer submits: one of the two operations, a sum that fits a word. */
  predicate Submittable(r: Request) {
    && (r.op == READ || r.op == WRITE)
    && r.lba + r.count < TWO32
    && (r.op == WRITE ==> |r.data| == r.count * SECTOR)
  }

  predicate InRange(store: seq<byte>, r: Request) {
    (r.lba + r.count) * SECTOR <= |store|
  }

  function Slice(store: seq<byte>, lba: nat, count: nat): (s: seq<byte>)
    requires (lba + count) * SECTOR <= |store|
    ensures |s| == count * SECTOR
  {
    store[lba * SECTOR..(lba + count) * SECTOR]
  }

  function Overwrite(store: seq<byte>, lba: nat, data: seq<byte>): (s: seq<byte>)
    requires lba * SECTOR + |data| <= |store|
    ensures |s| == |store|
  {
    store[..lba * SECTOR] + data + store[lba * SECTOR + |data|..]
  }

  /** The store after a request has been settled with this result. */
  function StoreAfter(store: seq<byte>, r: Result): (s: seq<byte>)
    ensures |s| == |store|
  {
    if r.status == 0 && r.request.op == WRITE && r.request.lba * SECTOR + |r.request.data| <= |store|
    then Overwrite(store, r.request.lba, r.request.data) else store
  }

  /** A result the store may give: success means what it says, failure changes nothing. */
  predicate Answers(store: seq<byte>, r: Result) {
    && Submittable(r.request)
    && (r.status == 0 ==> InRange(store, r.request) && 1 <= r.request.count <= MAX_SECTORS)
    && (r.data == if r.status == 0 && r.request.op == READ && InRange(store, r.request)
                  then Slice(store, r.request.lba, r.request.count) else [])
  }

  ghost predicate Submits(d: Disk, d': Disk) {
    d.phase.Idle? && d'.phase.Waiting? && Submittable(d'.phase.request) && d' == d.(phase := d'.phase)
  }

  ghost predicate Settles(d: Disk, d': Disk) {
    && d.phase.Waiting? && d'.phase.Settled?
    && d'.phase.result.request == d.phase.request
    && Answers(d.store, d'.phase.result)
    && d' == d.(store := StoreAfter(d.store, d'.phase.result), phase := d'.phase)
  }

  ghost predicate Completes(d: Disk, d': Disk) {
    d.phase.Settled? && d' == d.(phase := Idle, log := d.log + [d.phase.result])
  }

  ghost predicate Next(d: Disk, d': Disk) {
    d' == d || Submits(d, d') || Settles(d, d') || Completes(d, d')
  }

  // ---- What that means for the bytes ----

  /** The store after a list of results, oldest first. */
  function Replay(store: seq<byte>, log: seq<Result>): (s: seq<byte>)
    ensures |s| == |store|
  {
    if log == [] then store else StoreAfter(Replay(store, log[..|log| - 1]), log[|log| - 1])
  }

  predicate Covers(r: Result, sector: nat) {
    r.status == 0 && r.request.op == WRITE && r.request.lba <= sector < r.request.lba + r.request.count
  }

  /** The contents of one sector: from the latest successful write that covers it. */
  function Latest(store: seq<byte>, log: seq<Result>, sector: nat): seq<byte>
    requires (sector + 1) * SECTOR <= |store|
  {
    if log == [] then Slice(store, sector, 1)
    else
      var r := log[|log| - 1];
      if Covers(r, sector) && |r.request.data| == r.request.count * SECTOR
      then r.request.data[(sector - r.request.lba) * SECTOR..(sector - r.request.lba + 1) * SECTOR]
      else Latest(store, log[..|log| - 1], sector)
  }

  ghost predicate AnswersAt(store: seq<byte>, log: seq<Result>, i: nat)
    requires i < |log|
  {
    Answers(Replay(store, log[..i]), log[i])
  }

  /** Each result is one the store could give after the results before it. */
  ghost predicate Consistent(store: seq<byte>, log: seq<Result>) {
    forall i :: 0 <= i < |log| ==> AnswersAt(store, log, i)
  }

  ghost predicate LogInv(store: seq<byte>, d: Disk) {
    && |d.store| == |store|
    && Consistent(store, d.log)
    && (match d.phase
        case Idle => d.store == Replay(store, d.log)
        case Waiting(r) => Submittable(r) && d.store == Replay(store, d.log)
        case Settled(r) =>
          && Answers(Replay(store, d.log), r)
          && d.store == StoreAfter(Replay(store, d.log), r))
  }

  lemma ConsistentPrefix(store: seq<byte>, log: seq<Result>, n: nat)
    requires Consistent(store, log) && n <= |log|
    ensures Consistent(store, log[..n])
  {
    forall i | 0 <= i < n
      ensures AnswersAt(store, log[..n], i)
    {
      assert AnswersAt(store, log, i);
      assert log[..n][..i] == log[..i];
    }
  }

  lemma ConsistentSnoc(store: seq<byte>, log: seq<Result>, r: Result)
    requires Consistent(store, log) && Answers(Replay(store, log), r)
    ensures Consistent(store, log + [r])
    ensures Replay(store, log + [r]) == StoreAfter(Replay(store, log), r)
  {
    assert (log + [r])[..|log|] == log;
    forall i | 0 <= i < |log| + 1
      ensures AnswersAt(store, log + [r], i)
    {
      if i < |log| {
        assert AnswersAt(store, log, i);
        assert (log + [r])[..i] == log[..i];
      }
    }
  }

  lemma NextKeepsLog(store: seq<byte>, d: Disk, d': Disk)
    requires LogInv(store, d) && Next(d, d')
    ensures LogInv(store, d')
  {
    if Completes(d, d') {
      ConsistentSnoc(store, d.log, d.phase.result);
    }
  }

  /** One sector of an overwritten store. */
  lemma OverwriteSector(store: seq<byte>, lba: nat, count: nat, data: seq<byte>, sector: nat)
    requires |data| == count * SECTOR && (lba + count) * SECTOR <= |store| && (sector + 1) * SECTOR <= |store|
    ensures Slice(Overwrite(store, lba, data), sector, 1) ==
      if lba <= sector < lba + count
      then data[(sector - lba) * SECTOR..(sector - lba + 1) * SECTOR] else Slice(store, sector, 1)
  {
  }

  lemma SliceSector(store: seq<byte>, lba: nat, count: nat, k: nat)
    requires (lba + count) * SECTOR <= |store| && k < count
    ensures Slice(store, lba, count)[k * SECTOR..(k + 1) * SECTOR] == Slice(store, lba + k, 1)
  {
    var a, b := Slice(store, lba, count)[k * SECTOR..(k + 1) * SECTOR], Slice(store, lba + k, 1);
    assert |a| == |b| == SECTOR;
    forall i | 0 <= i < SECTOR
      ensures a[i] == b[i]
    {
      assert a[i] == store[lba * SECTOR + (k * SECTOR + i)];
    }
  }

  /** Replaying the log leaves in each sector what was last written there. */
  lemma {:induction false} ReplayIsLatest(store: seq<byte>, log: seq<Result>, sector: nat)
    requires (sector + 1) * SECTOR <= |store|
    requires Consistent(store, log)
    ensures Slice(Replay(store, log), sector, 1) == Latest(store, log, sector)
    decreases |log|
  {
    if log != [] {
      var n := |log| - 1;
      ConsistentPrefix(store, log, n);
      ReplayIsLatest(store, log[..n], sector);
      var r := log[n];
      assert AnswersAt(store, log, n);
      if r.status == 0 && r.request.op == WRITE {
        OverwriteSector(Replay(store, log[..n]), r.request.lba, r.request.count, r.request.data, sector);
      }
    }
  }

  // ---- Runs ----

  /** A behaviour of the disk: each state follows from the one before. */
  ghost predicate Behaviour(run: seq<Disk>) {
    && run != []
    && (forall i :: 0 < i < |run| ==> Next(run[i - 1], run[i]))
  }

  lemma {:induction false} BehaviourKeepsLog(store: seq<byte>, run: seq<Disk>)
    requires Behaviour(run) && run[0] == Disk(store, Idle, [])
    ensures LogInv(store, run[|run| - 1])
    decreases |run|
  {
    if |run| > 1 {
      BehaviourKeepsLog(store, run[..|run| - 1]);
      NextKeepsLog(store, run[|run| - 2], run[|run| - 1]);
    }
  }

  /** The `k`-th sector of the `i`-th result holds what was last written there. */
  ghost predicate ReadsLatest(store: seq<byte>, log: seq<Result>, i: nat, k: nat)
    requires i < |log|
  {
    var r := log[i];
    && (r.request.lba + k + 1) * SECTOR <= |store|
    && |r.data| == r.request.count * SECTOR
    && k < r.request.count
    && r.data[k * SECTOR..(k + 1) * SECTOR] == Latest(store, log[..i], r.request.lba + k)
  }

  lemma ReadIsLatest(store: seq<byte>, log: seq<Result>, i: nat, k: nat)
    requires Consistent(store, log) && i < |log|
    requires log[i].status == 0 && log[i].request.op == READ && k < log[i].request.count
    ensures ReadsLatest(store, log, i, k)
  {
    var r := log[i];
    assert AnswersAt(store, log, i);
    hide Replay, Slice, Latest;
    ConsistentPrefix(store, log, i);
    TimesMonotone(r.request.lba + k + 1, r.request.lba + r.request.count, SECTOR);
    ReplayIsLatest(store, log[..i], r.request.lba + k);
    SliceSector(Replay(store, log[..i]), r.request.lba, r.request.count, k);
  }

  /**
   A successful read returns, sector by sector, what the latest successful write
   before it put there, or what the disk held to begin with.
   */
  lemma ReadsSeeLatestWrites(store: seq<byte>, run: seq<Disk>, i: nat, k: nat)
    requires Behaviour(run) && run[0] == Disk(store, Idle, [])
    requires i < |run[|run| - 1].log|
    requires var r := run[|run| - 1].log[i]; r.status == 0 && r.request.op == READ && k < r.request.count
    ensures ReadsLatest(store, run[|run| - 1].log, i, k)
  {
    BehaviourKeepsLog(store, run);
    ReadIsLatest(store, run[|run| - 1].log, i, k);
  }
}
