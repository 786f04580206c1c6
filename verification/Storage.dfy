/** The RAM disk behind the protocol (firmware/master-ioserver/src/storage.c). */
module Storage {
  import opened Words
  import opened Wire
  import opened DiskSpec

  const RAMDISK_SECTORS := 128

  /** As much of the memory in front of the array as a transfer can reach. */
  const FRONT := MAX_SECTORS * SECTOR

  class RamDisk {
    const mem: array<byte>

    ghost predicate Valid() {
      mem.Length == FRONT + RAMDISK_SECTORS * SECTOR
    }

    /** The array itself. */
    ghost function Disk(): (d: seq<byte>)
      reads mem
      requires Valid()
      ensures |d| == RAMDISK_SECTORS * SECTOR
    {
      mem[FRONT..]
    }

    /** What lies in front of it, which is not the disk's. */
    ghost function Front(): (f: seq<byte>)
      reads mem
      requires Valid()
      ensures |f| == FRONT
    {
      mem[..FRONT]
    }

    constructor ()
      ensures Valid() && fresh(mem)
    {
      mem := new byte[FRONT + RAMDISK_SECTORS * SECTOR];
    }

    /** Sector `s` is filled with a pattern that names it. */
    method Fill()
      requires Valid()
      modifies mem
      ensures forall s, w :: 0 <= s < RAMDISK_SECTORS && 0 <= w < SECTOR / 4 ==> Names(Disk(), s, w)
      ensures Front() == old(Front())
    {
      for s := 0 to RAMDISK_SECTORS
        invariant forall q, w :: 0 <= q < s && 0 <= w < SECTOR / 4 ==> Names(Disk(), q, w)
        invariant Front() == old(Front())
      {
        for w := 0 to SECTOR / 4
          invariant forall q, v :: 0 <= q < s && 0 <= v < SECTOR / 4 ==> Names(Disk(), q, v)
          invariant forall v :: 0 <= v < w ==> Names(Disk(), s, v)
          invariant Front() == old(Front())
        {
          ghost var was := Disk();
          var p := FRONT + s * SECTOR + 4 * w;
          var v := s * 0x1_0000 + 4 * w;
          mem[p], mem[p + 1] := v % 256, v / 256 % 256;
          mem[p + 2], mem[p + 3] := v / 0x1_0000 % 256, v / 0x100_0000 % 256;
          NamesOneMore(was, Disk(), s, w);
        }
      }
    }

    /**
     A transfer whose end wraps round 32 bits passes the check. It begins in front of the array, as many
     sectors as are missing to the wrap, and ends in the first sectors of the disk.
     */
    method Read(lba: u32, count: u32) returns (status: Status, buf: seq<byte>)
      requires Valid() && count <= MAX_SECTORS
      ensures status == 0 <==> Add32(lba, count) <= RAMDISK_SECTORS
      ensures status != 0 ==> status == EIO && buf == []
      ensures status == 0 && lba + count < TWO32 ==> buf == Slice(Disk(), lba, count)
      ensures status == 0 && lba + count >= TWO32 ==>
        buf == Front()[FRONT - (TWO32 - lba) * SECTOR..] + Slice(Disk(), 0, lba + count - TWO32)
    {
      if Add32(lba, count) > RAMDISK_SECTORS {
        return EIO, [];
      }
      var base := Base(lba);
      TransferReaches(lba, count);
      hide Base, Add32;
      buf := mem[base..base + count * SECTOR];
      if lba + count < TWO32 {
        SliceBehindFront(mem[..], lba, count);
      } else {
        var end := lba + count - TWO32;
        SplitAtFront(mem[..], base, FRONT + end * SECTOR);
        assert Slice(Disk(), 0, end) == Disk()[..end * SECTOR];
      }
      status := 0;
    }

    /** `memcpy` into the memory. */
    method CopyTo(base: nat, buf: seq<byte>)
      requires base + |buf| <= mem.Length
      modifies mem
      ensures mem[..] == old(mem[..])[..base] + buf + old(mem[..])[base + |buf|..]
    {
      for i := 0 to |buf|
        invariant forall k :: base <= k < base + i ==> mem[k] == buf[k - base]
        invariant forall k :: 0 <= k < base || base + i <= k < mem.Length ==> mem[k] == old(mem[k])
      {
        mem[base + i] := buf[i];
      }
    }

    method Write(lba: u32, count: u32, buf: seq<byte>) returns (status: Status)
      requires Valid() && count <= MAX_SECTORS && |buf| == count * SECTOR
      modifies mem
      ensures status == 0 <==> Add32(lba, count) <= RAMDISK_SECTORS
      ensures status != 0 ==> status == EIO && mem[..] == old(mem[..])
      ensures status == 0 && lba + count < TWO32 ==>
        Front() == old(Front()) && Disk() == Overwrite(old(Disk()), lba, buf)
      ensures status == 0 && lba + count >= TWO32 ==>
        var missing := (TWO32 - lba) * SECTOR;
        && Front() == old(Front())[..FRONT - missing] + buf[..missing]
        && Disk() == Overwrite(old(Disk()), 0, buf[missing..])
    {
      if Add32(lba, count) > RAMDISK_SECTORS {
        return EIO;
      }
      var base := Base(lba);
      TransferReaches(lba, count);
      hide Base, Add32;
      CopyTo(base, buf);
      OverwriteParts(old(mem[..]), mem[..], base, buf);
      status := 0;
    }
  }

  /** Where a transfer begins: `lba * STORAGE_SECTOR`, in 32 bits, from the start of the array. */
  function Base(lba: u32): int {
    var offset := lba * SECTOR % TWO32;
    FRONT + if offset < 0x8000_0000 then offset else offset - TWO32
  }

  /** What a transfer that passes the check reaches. */
  lemma TransferReaches(lba: u32, count: u32)
    requires count <= MAX_SECTORS && Add32(lba, count) <= RAMDISK_SECTORS
    ensures lba + count < TWO32 ==> lba + count <= RAMDISK_SECTORS && Base(lba) == FRONT + lba * SECTOR
    ensures lba + count >= TWO32 ==>
      lba + count - TWO32 <= RAMDISK_SECTORS && 0 <= Base(lba) == FRONT - (TWO32 - lba) * SECTOR < FRONT
  {
    if lba + count >= TWO32 {
      var missing := TWO32 - lba;
      assert lba * SECTOR == 511 * TWO32 + (TWO32 - missing * SECTOR);
    }
  }

  lemma SplitAtFront(mem: seq<byte>, base: nat, end: nat)
    requires base <= FRONT <= end <= |mem|
    ensures mem[base..end] == mem[..FRONT][base..] + mem[FRONT..][..end - FRONT]
  {
  }

  lemma SliceBehindFront(mem: seq<byte>, lba: nat, count: nat)
    requires FRONT + (lba + count) * SECTOR <= |mem|
    ensures mem[FRONT + lba * SECTOR..FRONT + lba * SECTOR + count * SECTOR] == Slice(mem[FRONT..], lba, count)
  {
  }

  /** Bytes stored from `base` on, seen from the memory in front of the array and from the array. */
  lemma OverwriteParts(was: seq<byte>, now: seq<byte>, base: nat, buf: seq<byte>)
    requires |was| == FRONT + RAMDISK_SECTORS * SECTOR && base + |buf| <= |was|
    requires now == was[..base] + buf + was[base + |buf|..]
    ensures base >= FRONT ==> now[..FRONT] == was[..FRONT]
    ensures forall lba: nat :: base == FRONT + lba * SECTOR ==> now[FRONT..] == Overwrite(was[FRONT..], lba, buf)
    ensures base < FRONT <= base + |buf| ==>
      && now[..FRONT] == was[..FRONT][..base] + buf[..FRONT - base]
      && now[FRONT..] == Overwrite(was[FRONT..], 0, buf[FRONT - base..])
  {
    forall lba: nat | base == FRONT + lba * SECTOR ensures now[FRONT..] == Overwrite(was[FRONT..], lba, buf) {
      assert now[FRONT..] == was[FRONT..][..lba * SECTOR] + buf + was[FRONT..][lba * SECTOR + |buf|..];
    }
  }

  /** Word `w` of sector `s` holds the sector and the offset. */
  ghost predicate Names(data: seq<byte>, s: nat, w: nat)
    requires |data| == RAMDISK_SECTORS * SECTOR && s < RAMDISK_SECTORS && w < SECTOR / 4
  {
    UnWord(data[s * SECTOR + 4 * w..s * SECTOR + 4 * w + 4]) == s * 0x1_0000 + 4 * w
  }

  /** Naming one more word leaves the others named as they were. */
  lemma NamesOneMore(was: seq<byte>, now: seq<byte>, s: nat, w: nat)
    requires |was| == |now| == RAMDISK_SECTORS * SECTOR && s < RAMDISK_SECTORS && w < SECTOR / 4
    requires var p := s * SECTOR + 4 * w; now == was[..p] + Word(s * 0x1_0000 + 4 * w) + was[p + 4..]
    ensures forall q, u :: 0 <= q < RAMDISK_SECTORS && 0 <= u < SECTOR / 4 ==>
      (Names(now, q, u) <==> (q == s && u == w) || Names(was, q, u))
  {
    WordRoundTrip(s * 0x1_0000 + 4 * w);
    forall q: nat, u: nat | q < RAMDISK_SECTORS && u < SECTOR / 4
      ensures Names(now, q, u) <==> (q == s && u == w) || Names(was, q, u)
    {
      var r := q * SECTOR + 4 * u;
      if q == s && u == w {
        assert now[r..r + 4] == Word(s * 0x1_0000 + 4 * w);
      } else {
        assert now[r..r + 4] == was[r..r + 4];
      }
    }
  }

  /** What has been written is what is read back, and nothing else has changed. */
  lemma ReadAfterWrite(store: seq<byte>, lba: nat, count: nat, data: seq<byte>, other: nat, n: nat)
    requires |data| == count * SECTOR && (lba + count) * SECTOR <= |store| && (other + n) * SECTOR <= |store|
    ensures Slice(Overwrite(store, lba, data), lba, count) == data
    ensures other + n <= lba || lba + count <= other ==>
      Slice(Overwrite(store, lba, data), other, n) == Slice(store, other, n)
  {
  }
}
