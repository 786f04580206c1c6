/** What travels between the two chips (firmware/common/link_blk.h). */
module Wire {
  import opened Words

  const MAGIC: u32 := 0x4b4c4246
  const SECTOR := 512
  const MAX_SECTORS := 8
  const MAX_CONSOLE := 512
  const MAX_KEYS := 32

  const READ: u32 := 0
  const WRITE: u32 := 1
  const INFO: u32 := 2
  const CON: u32 := 3

  const EIO := -5
  const EINVAL := -22
  const ETIMEDOUT := -110

  const HEADER_BYTES := 16
  const REPLY_BYTES := 8

  /** A negative errno or zero, as it fits the signed status word. */
  type Status = s: int | -0x8000_0000 <= s < 0x8000_0000

  datatype Header = Header(magic: u32, op: u32, lba: u32, count: u32)
  datatype Reply = Reply(status: Status, value: u32)

  function Word(w: u32): (b: seq<byte>)
    ensures |b| == 4
  {
    [w % 256, w / 256 % 256, w / 0x1_0000 % 256, w / 0x100_0000]
  }

  function UnWord(b: seq<byte>): u32
    requires |b| == 4
  {
    (b[0] as int) + (b[1] as int) * 256 + (b[2] as int) * 0x1_0000 + (b[3] as int) * 0x100_0000
  }

  function EncodeHeader(h: Header): (b: seq<byte>)
    ensures |b| == HEADER_BYTES
  {
    Word(h.magic) + Word(h.op) + Word(h.lba) + Word(h.count)
  }

  function DecodeHeader(b: seq<byte>): Header
    requires |b| == HEADER_BYTES
  {
    Header(UnWord(b[0..4]), UnWord(b[4..8]), UnWord(b[8..12]), UnWord(b[12..16]))
  }

  function EncodeReply(r: Reply): (b: seq<byte>)
    ensures |b| == REPLY_BYTES
  {
    Word(if r.status < 0 then r.status + TWO32 else r.status) + Word(r.value)
  }

  function DecodeReply(b: seq<byte>): Reply
    requires |b| >= REPLY_BYTES
  {
    var s := UnWord(b[0..4]);
    Reply(if s < 0x8000_0000 then s else s - TWO32, UnWord(b[4..8]))
  }

  lemma WordRoundTrip(w: u32)
    ensures UnWord(Word(w)) == w
  {
    assert w / 256 == (w / 0x1_0000) * 256 + w / 256 % 256;
    assert w / 0x1_0000 == (w / 0x100_0000) * 256 + w / 0x1_0000 % 256;
  }

  lemma HeaderRoundTrip(h: Header)
    ensures DecodeHeader(EncodeHeader(h)) == h
  {
    var b := EncodeHeader(h);
    assert b[0..4] == Word(h.magic) && b[4..8] == Word(h.op);
    assert b[8..12] == Word(h.lba) && b[12..16] == Word(h.count);
    WordRoundTrip(h.magic);
    WordRoundTrip(h.op);
    WordRoundTrip(h.lba);
    WordRoundTrip(h.count);
  }

  lemma ReplyRoundTrip(r: Reply, rest: seq<byte>)
    ensures DecodeReply(EncodeReply(r) + rest) == r
    ensures (EncodeReply(r) + rest)[REPLY_BYTES..] == rest
  {
    var s := if r.status < 0 then r.status + TWO32 else r.status;
    var b := EncodeReply(r) + rest;
    assert b[0..4] == Word(s) && b[4..8] == Word(r.value);
    WordRoundTrip(s);
    WordRoundTrip(r.value);
  }

  // ---- Frame lengths, computed separately at the two ends ----

  /** `bytes` in `blk_transact`: the payload length core 1 works with. */
  function PayloadBytes(op: u32, count: u32): nat {
    if op == CON then PadWord(count) % TWO32 else count * SECTOR % TWO32
  }

  /** Whether core 1 sends a payload frame after the header. */
  predicate SendsPayload(op: u32, count: u32) {
    op == WRITE || (op == CON && PayloadBytes(op, count) != 0)
  }

  /** `reply_bytes` in `blk_transact`: what core 1 arms its receiver for. */
  function ArmedBytes(op: u32, count: u32): nat {
    REPLY_BYTES + (if op == READ then PayloadBytes(op, count) else if op == CON then MAX_KEYS else 0)
  }

  /** `reply_bytes` in the service loop: what the master puts on the wire. */
  function SentBytes(op: u32, count: u32, status: Status): nat {
    REPLY_BYTES + (if status == 0 && op == READ then count * SECTOR else if op == CON then MAX_KEYS else 0)
  }

  /** `do_request`. The sum wraps, as it does in the source. */
  function DoRequest(h: Header, capacity: u32): Status {
    if h.magic != MAGIC then EINVAL
    else if h.op == INFO then 0
    else if h.op == CON then (if h.count <= MAX_CONSOLE then 0 else EINVAL)
    else if h.count == 0 || h.count > MAX_SECTORS then EINVAL
    else if Add32(h.lba, h.count) > capacity then EIO
    else 0
  }

  /** What core 1 may put in a header. */
  predicate WellSized(op: u32, count: u32) {
    match op
    case 0 => 1 <= count <= MAX_SECTORS
    case 1 => 1 <= count <= MAX_SECTORS
    case 2 => count == 0
    case 3 => count <= MAX_CONSOLE
    case _ => false
  }

  /**
   The receiver must know the length before the sender starts. The two ends
   compute it independently and agree on every request and status but one: a
   failed read, whose reply is shorter than what core 1 waits for.
   */
  lemma FramingAgrees(op: u32, count: u32, status: Status)
    requires WellSized(op, count)
    ensures ArmedBytes(op, count) == SentBytes(op, count, status) <==> !(op == READ && status != 0)
    ensures op == READ && status != 0 ==> SentBytes(op, count, status) < ArmedBytes(op, count)
  {
  }

  /** In what core 1 sends nothing wraps. */
  lemma PayloadIsExact(op: u32, count: u32)
    requires WellSized(op, count)
    ensures PayloadBytes(op, count) == if op == CON then PadWord(count) else count * 512
  {
    hide PadWord;
    assert 0 <= count * 512 < 0x1_0000_0000 && 0 <= PadWord(count) < 0x1_0000_0000;
  }

  /** A frame is moved as whole words: no frame of either end has a remainder to lose. */
  lemma FramesAreWholeWords(op: u32, count: u32, status: Status)
    requires WellSized(op, count)
    ensures HEADER_BYTES % 4 == 0
    ensures PayloadBytes(op, count) % 4 == 0
    ensures ArmedBytes(op, count) % 4 == 0
    ensures SentBytes(op, count, status) % 4 == 0
    ensures op == CON ==> count <= PayloadBytes(op, count) < count + 4
  {
    PayloadIsExact(op, count);
    hide PadWord, PayloadBytes;
    assert count * 512 == 4 * (count * 128);
  }

  /**
   A transfer the master accepts lies on the medium exactly when its end does not wrap
   round 32 bits; the master adds in 32 bits, so it cannot tell.
   */
  lemma AcceptedIsInRange(h: Header, capacity: u32)
    requires DoRequest(h, capacity) == 0 && h.op != INFO && h.op != CON
    ensures 1 <= h.count <= MAX_SECTORS
    ensures h.lba + h.count <= capacity <==> h.lba + h.count < TWO32
  {
  }

  /** The wrap does happen: the last sector number of all is accepted on any medium. */
  lemma WrappedIsAccepted(capacity: u32)
    ensures DoRequest(Header(MAGIC, READ, 0xFFFF_FFFF, 1), capacity) == 0
  {
    assert Add32(0xFFFF_FFFF, 1) == 0;
  }
}
