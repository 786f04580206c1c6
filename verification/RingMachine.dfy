/**
 One producer core and one consumer core on the same ring, interleaved at single
 loads and stores (firmware/common/frank_ring.h). There is no lock: the claim is
 that none is needed.

 Each party is a program counter and its local variables. Every step touches at
 most one word the other party can see. The barriers of the source fix the
 order of the steps within one party and nothing else.
 */
module RingMachine {
  import opened Words
  import opened RingIndex
  import opened Ring

  datatype ProducerPc = PIdle | PLoadTail | PStore | PPublish

  /** `room` is what the last stand-alone call of `frank_ring_space` answered. */
  datatype Producer = Producer(pc: ProducerPc, src: seq<byte>, len: nat, i: nat, room: nat)

  datatype ConsumerPc = CIdle | CLoadHead | CCopy | CPublish

  datatype Consumer = Consumer(pc: ConsumerPc, max: nat, len: nat, dst: seq<byte>)

  /**
   `head`, `tail` and `data` are the shared words. `written` and `read` are the
   history: what finished puts have published and what finished gets have taken.
   */
  datatype State = State(
    head: u32, tail: u32, data: seq<byte>,
    producer: Producer, consumer: Consumer,
    written: seq<byte>, read: seq<byte>)

  datatype Action =
    | AskSpace                 // frank_ring_space on its own
    | BeginPut(src: seq<byte>)
    | ProducerStep
    | BeginGet(max: nat)
    | ConsumerStep

  ghost predicate Init(s: State) {
    && s.head == 0 && s.tail == 0 && |s.data| == MASK + 1
    && s.producer == Producer(PIdle, [], 0, 0, 0)
    && s.consumer == Consumer(CIdle, 0, 0, [])
    && s.written == [] && s.read == []
  }

  predicate Enabled(s: State, a: Action) {
    match a
    case AskSpace => s.producer.pc.PIdle?
    case BeginPut(_) => s.producer.pc.PIdle?
    case ProducerStep => !s.producer.pc.PIdle?
    case BeginGet(_) => s.consumer.pc.CIdle?
    case ConsumerStep => !s.consumer.pc.CIdle?
  }

  function Step(s: State, a: Action): State
    requires |s.data| == MASK + 1 && Enabled(s, a)
  {
    match a
    case AskSpace => s.(producer := s.producer.(room := Space(s.head, s.tail, MASK)))
    case BeginPut(src) => s.(producer := s.producer.(pc := PLoadTail, src := src, len := 0, i := 0))
    case ProducerStep => StepProducer(s)
    case BeginGet(max) => s.(consumer := Consumer(CLoadHead, max, 0, []))
    case ConsumerStep => StepConsumer(s)
  }

  function StepProducer(s: State): State
    requires |s.data| == MASK + 1 && !s.producer.pc.PIdle?
  {
    var p := s.producer;
    match p.pc
    case PLoadTail =>
      s.(producer := p.(pc := PStore, len := Min(|p.src|, Space(s.head, s.tail, MASK))))
    case PStore =>
      if p.i < p.len && p.i < |p.src| then
        s.(data := s.data[Masked(s.head + p.i, MASK) := p.src[p.i]], producer := p.(i := p.i + 1))
      else
        s.(producer := p.(pc := PPublish))
    case PPublish =>
      s.(head := Masked(s.head + p.len, MASK),
         written := s.written + p.src[..Min(p.len, |p.src|)],
         producer := p.(pc := PIdle, room := Max(0, p.room - p.len)))
  }

  function StepConsumer(s: State): State
    requires |s.data| == MASK + 1 && !s.consumer.pc.CIdle?
  {
    var c := s.consumer;
    match c.pc
    case CLoadHead =>
      s.(consumer := c.(pc := CCopy, len := Min(c.max, Used(s.head, s.tail, MASK))))
    case CCopy =>
      if |c.dst| < c.len then
        s.(consumer := c.(dst := c.dst + [s.data[Masked(s.tail + |c.dst|, MASK)]]))
      else
        s.(consumer := c.(pc := CPublish))
    case CPublish =>
      s.(tail := Masked(s.tail + c.len, MASK), read := s.read + c.dst, consumer := c.(pc := CIdle))
  }

  /** Published and not yet taken: the queue the two ends believe they share. */
  function Queue(s: State): seq<byte>
    requires |s.read| <= |s.written|
  {
    s.written[|s.read|..]
  }

  /** Bytes stored by a put that has not been published yet. */
  function Pending(p: Producer): seq<byte>
    requires p.i <= |p.src|
  {
    if p.pc.PStore? || p.pc.PPublish? then p.src[..p.i] else []
  }

  ghost predicate IndicesInv(s: State) {
    && |s.data| == MASK + 1
    && s.head <= MASK && s.tail <= MASK
    && s.read <= s.written
    && |s.written| - |s.read| == Used(s.head, s.tail, MASK)
  }

  ghost predicate ProducerInv(s: State) {
    var p := s.producer;
    && p.i <= |p.src|
    && p.room + Used(s.head, s.tail, MASK) <= MASK
    && (p.pc.PStore? || p.pc.PPublish? ==>
      p.i <= p.len <= |p.src| && Used(s.head, s.tail, MASK) + p.len <= MASK)
    && (p.pc.PLoadTail? ==> p.i == 0)
    && (p.pc.PPublish? ==> p.i == p.len)
  }

  ghost predicate ConsumerInv(s: State)
    requires s.read <= s.written
  {
    var c := s.consumer;
    && (c.pc.CLoadHead? ==> c.dst == [])
    && (c.pc.CCopy? || c.pc.CPublish? ==>
      && |c.dst| <= c.len <= Used(s.head, s.tail, MASK)
      && c.dst <= Queue(s)
      && (c.pc.CPublish? ==> |c.dst| == c.len))
  }

  /** The slots from the tail hold the queue, then what the current put has stored. */
  ghost predicate DataInv(s: State)
    requires |s.data| == MASK + 1 && s.read <= s.written && s.producer.i <= |s.producer.src|
  {
    var q := Queue(s) + Pending(s.producer);
    Window(s.data, s.tail, |q|, MASK) == q
  }

  ghost predicate Inv(s: State) {
    IndicesInv(s) && ProducerInv(s) && ConsumerInv(s) && DataInv(s)
  }

  lemma InitInv(s: State)
    requires Init(s)
    ensures Inv(s)
  {
  }

  /** One byte stored by the producer. */
  lemma StoreKeeps(s: State)
    requires Inv(s) && s.producer.pc.PStore?
    ensures Inv(StepProducer(s))
  {
    var p := s.producer;
    if p.i < p.len {
      var q := Queue(s) + Pending(p);
      NextSlot(s.head, s.tail, p.i, MASK);
      StoreExtends(s.data, s.tail, |q|, p.src[p.i], MASK);
      assert p.src[..p.i + 1] == p.src[..p.i] + [p.src[p.i]];
      assert Queue(s) + p.src[..p.i + 1] == q + [p.src[p.i]];
    }
  }

  lemma PublishHeadKeeps(s: State)
    requires Inv(s) && s.producer.pc.PPublish?
    ensures Inv(StepProducer(s))
    ensures Queue(StepProducer(s)) == Queue(s) + s.producer.src[..s.producer.len]
  {
    var s' := StepProducer(s);
    HeadMoves(s.head, s.tail, s.producer.len, MASK);
    assert Queue(s') == Queue(s) + s.producer.src[..s.producer.len];
    assert Queue(s') + Pending(s'.producer) == Queue(s) + Pending(s.producer);
  }

  lemma CopyKeeps(s: State)
    requires Inv(s) && s.consumer.pc.CCopy?
    ensures Inv(StepConsumer(s))
  {
    var c := s.consumer;
    if |c.dst| < c.len {
      var q := Queue(s) + Pending(s.producer);
      assert Window(s.data, s.tail, |q|, MASK)[|c.dst|] == q[|c.dst|] == Queue(s)[|c.dst|];
    }
  }

  lemma PublishTailKeeps(s: State)
    requires Inv(s) && s.consumer.pc.CPublish?
    ensures Inv(StepConsumer(s))
    ensures Queue(s) == s.consumer.dst + Queue(StepConsumer(s))
  {
    var s' := StepConsumer(s);
    var c := s.consumer;
    TailMoves(s.head, s.tail, c.len, MASK);
    var q := Queue(s) + Pending(s.producer);
    PrefixDrop(s.read, s.written, c.dst);
    assert Queue(s') + Pending(s'.producer) == q[c.len..];
    WindowDrop(s.data, s.tail, |q|, c.len, MASK);
  }

  lemma StepKeepsInv(s: State, a: Action)
    requires Inv(s) && Enabled(s, a)
    ensures Inv(Step(s, a))
  {
    match a
    case AskSpace =>
    case BeginPut(_) =>
    case BeginGet(_) =>
    case ProducerStep =>
      match s.producer.pc {
        case PLoadTail =>
        case PStore => StoreKeeps(s);
        case PPublish => PublishHeadKeeps(s);
      }
    case ConsumerStep =>
      match s.consumer.pc {
        case CLoadHead =>
        case CCopy => CopyKeeps(s);
        case CPublish => PublishTailKeeps(s);
      }
  }

  // ---- Whole runs ----

  ghost predicate Legal(s: State, run: seq<Action>)
    requires |s.data| == MASK + 1
    decreases |run|
  {
    run == [] || (Enabled(s, run[0]) && |Step(s, run[0]).data| == MASK + 1 && Legal(Step(s, run[0]), run[1..]))
  }

  ghost function Run(s: State, run: seq<Action>): State
    requires |s.data| == MASK + 1 && Legal(s, run)
    decreases |run|
  {
    if run == [] then s else Run(Step(s, run[0]), run[1..])
  }

  lemma {:induction false} RunKeepsInv(s: State, run: seq<Action>)
    requires Inv(s) && Legal(s, run)
    ensures Inv(Run(s, run))
    decreases |run|
  {
    if run != [] {
      StepKeepsInv(s, run[0]);
      RunKeepsInv(Step(s, run[0]), run[1..]);
    }
  }

  /**
   The main result. However the two cores are interleaved, what has been read is
   a prefix of what has been written, the ring holds exactly the difference, and
   it never holds more than 2047 bytes.
   */
  lemma RingIsFifo(s: State, run: seq<Action>)
    requires Init(s) && Legal(s, run)
    ensures
      var e := Run(s, run);
      && |e.data| == MASK + 1
      && e.read <= e.written
      && Window(e.data, e.tail, Used(e.head, e.tail, MASK), MASK) == e.written[|e.read|..]
      && |e.written| - |e.read| == Used(e.head, e.tail, MASK) <= MASK
  {
    InitInv(s);
    RunKeepsInv(s, run);
    var e := Run(s, run);
    var q := Queue(e) + Pending(e.producer);
    WindowDrop(e.data, e.tail, |q|, |Queue(e)|, MASK);
    assert q[..|Queue(e)|] == Queue(e);
  }

  /** What one step may do to a queue shared by one writer and one reader. */
  ghost predicate FifoStep(s: State, s': State) {
    && |s.read| <= |s.written|
    && |s'.read| <= |s'.written|
    && (|| (s'.written == s.written && s'.read == s.read)
        || (exists n: nat :: n <= |s.producer.src| && s'.read == s.read &&
             s'.written == s.written + s.producer.src[..n])
        || (s'.written == s.written && s'.read == s.read + s.consumer.dst &&
             s.consumer.dst <= Queue(s)))
  }

  /**
   Every step at load and store grain is, to the queue, either invisible, or one
   put of a prefix of the source, or one get from the front. Slots that are
   published and unread keep their bytes.
   */
  lemma StepRefinesFifo(s: State, a: Action)
    requires Inv(s) && Enabled(s, a)
    ensures FifoStep(s, Step(s, a))
    ensures Window(Step(s, a).data, s.tail, |Queue(s)|, MASK) == Queue(s)
  {
    StepKeepsInv(s, a);
    var s' := Step(s, a);
    WindowDrop(s.data, s.tail, |Queue(s) + Pending(s.producer)|, |Queue(s)|, MASK);
    if s'.data != s.data {
      WindowDrop(s'.data, s.tail, |Queue(s) + Pending(s'.producer)|, |Queue(s)|, MASK);
    }
    if a.ProducerStep? && s.producer.pc.PPublish? {
      assert s.producer.len <= |s.producer.src|;
    }
  }

  /**
   A put accepts all that fits at the moment it looks at the tail; and a put of
   no more than an earlier answer of `frank_ring_space` is accepted whole, since
   only the consumer has moved since (firmware/common/core1_usb.c:191-197).
   */
  lemma PutAccepts(s: State)
    requires Inv(s) && s.producer.pc.PLoadTail?
    ensures StepProducer(s).producer.len == Min(|s.producer.src|, MASK - |Queue(s)|)
    ensures |s.producer.src| <= s.producer.room ==>
      StepProducer(s).producer.len == |s.producer.src|
  {
  }

  /** `frank_ring_space` answers exactly how much is free when it is asked. */
  lemma SpaceIsExact(s: State)
    requires Inv(s) && s.producer.pc.PIdle?
    ensures Step(s, AskSpace).producer.room == MASK - |Queue(s)|
  {
  }

  /** A get takes as much as it is asked for, or all there is at the moment it looks at the head. */
  lemma GetTakes(s: State)
    requires Inv(s) && s.consumer.pc.CLoadHead?
    ensures StepConsumer(s).consumer.len == Min(s.consumer.max, |Queue(s)|)
  {
  }

  /** The answer of `frank_ring_space` stays good while the producer holds still. */
  lemma RoomStaysGood(s: State, a: Action)
    requires Inv(s) && Enabled(s, a) && !(a.ProducerStep? && s.producer.pc.PPublish?) && !a.AskSpace?
    ensures Step(s, a).producer.room == s.producer.room
    ensures s.producer.room + |Queue(Step(s, a))| <= MASK
  {
    StepKeepsInv(s, a);
  }

  // ---- Uninterrupted calls are the calls of the class ----

  lemma {:induction false} StoresRun(s: State)
    requires Inv(s) && s.producer.pc.PStore?
    ensures
      var p := s.producer;
      var run := seq(p.len - p.i + 2, _ => ProducerStep);
      && Legal(s, run)
      && Run(s, run).written == s.written + p.src[..p.len]
      && Run(s, run).read == s.read
      && Run(s, run).producer.pc.PIdle?
    decreases s.producer.len - s.producer.i
  {
    var p := s.producer;
    var run := seq(p.len - p.i + 2, _ => ProducerStep);
    var t := Step(s, ProducerStep);
    StepKeepsInv(s, ProducerStep);
    if p.i < p.len {
      StoresRun(t);
      assert run[1..] == seq(p.len - p.i + 1, _ => ProducerStep);
    } else {
      StepKeepsInv(t, ProducerStep);
      var u := Step(t, ProducerStep);
      assert run[1..] == [ProducerStep];
      assert [ProducerStep][1..] == [];
      assert Legal(u, []);
      assert Run(t, [ProducerStep]) == Run(u, []) == u;
    }
  }

  /** Two steps in front of a run. */
  lemma TwoMore(s: State, a: Action, b: Action, run: seq<Action>)
    requires |s.data| == MASK + 1 && Enabled(s, a)
    requires var t := Step(s, a); |t.data| == MASK + 1 && Enabled(t, b)
    requires var u := Step(Step(s, a), b); |u.data| == MASK + 1 && Legal(u, run)
    ensures Legal(s, [a, b] + run) && Run(s, [a, b] + run) == Run(Step(Step(s, a), b), run)
  {
    hide Step, Enabled;
    var t := Step(s, a);
    assert ([a, b] + run)[1..] == [b] + run;
    assert ([b] + run)[1..] == run;
    assert Legal(t, [b] + run) && Run(t, [b] + run) == Run(Step(t, b), run);
  }

  /** The put has looked at the tail and knows how much it will store. */
  lemma PutBegins(s: State, src: seq<byte>)
    requires Inv(s) && s.producer.pc.PIdle?
    ensures var t := Step(s, BeginPut(src));
      var u := StepProducer(t);
      && Inv(t) && Inv(u) && u.producer.pc.PStore? && u.producer.src == src && u.producer.i == 0
      && u.producer.len == Min(|src|, MASK - |Queue(s)|)
      && u.written == s.written && u.read == s.read
  {
    StepKeepsInv(s, BeginPut(src));
    StepKeepsInv(Step(s, BeginPut(src)), ProducerStep);
  }

  lemma QueueAppends(s: State, e: State, bytes: seq<byte>)
    requires |s.read| <= |s.written| && e.read == s.read && e.written == s.written + bytes
    ensures Queue(e) == Queue(s) + bytes
  {
  }

  /**
   A put that nobody interrupts, step by step, does what `FrankRing.Put` says it
   does: it appends the longest prefix that fits.
   */
  lemma SoloPut(s: State, src: seq<byte>)
    requires Inv(s) && s.producer.pc.PIdle?
    ensures
      var n := Min(|src|, MASK - |Queue(s)|);
      var run := [BeginPut(src), ProducerStep] + seq(n + 2, _ => ProducerStep);
      && Legal(s, run)
      && Inv(Run(s, run))
      && Queue(Run(s, run)) == Queue(s) + src[..n]
  {
    var n := Min(|src|, MASK - |Queue(s)|);
    var stores := seq(n + 2, _ => ProducerStep);
    var run := [BeginPut(src), ProducerStep] + stores;
    PutBegins(s, src);
    var u := Step(Step(s, BeginPut(src)), ProducerStep);
    StoresRun(u);
    TwoMore(s, BeginPut(src), ProducerStep, stores);
    RunKeepsInv(s, run);
    QueueAppends(s, Run(s, run), src[..n]);
    hide ProducerInv, ConsumerInv, DataInv, Queue, Window, Step;
  }
}
