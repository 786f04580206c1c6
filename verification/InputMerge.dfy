/**
 What Linux is given to read: bytes from the USB host and keystrokes from the master,
 put into one ring by core 1 while Linux takes from it (core1_usb.c).
 */
module InputMerge {
  import opened Words
  import Ring

  const CHUNK := 64

  /** Who put a byte into the ring. */
  datatype Source = Host | Keyboard

  datatype Event =
    | FromHost(available: seq<byte>, meanwhile: nat)   // Linux takes `meanwhile` between the check and the put
    | FromKeyboard(keys: seq<byte>)
    | Taken(n: nat)

  /** The ring's stream so far with the source of each byte, and what either source has offered. */
  datatype Merge = Merge(
    stream: seq<byte>, origin: seq<Source>, consumed: nat,
    hostRead: seq<byte>, offered: seq<byte>, accepted: seq<nat>)

  const EMPTY := Merge([], [], 0, [], [], [])

  ghost predicate Inv(m: Merge) {
    && |m.origin| == |m.stream|
    && m.consumed <= |m.stream| <= m.consumed + Ring.MASK
    && Only(m.stream, m.origin, Host) == m.hostRead
    && Positions(m.accepted, |m.offered|)
    && Only(m.stream, m.origin, Keyboard) == Select(m.offered, m.accepted)
  }

  /** The bytes of one source, in order. */
  function Only(s: seq<byte>, origin: seq<Source>, who: Source): seq<byte>
    requires |s| == |origin|
  {
    if s == [] then []
    else
      var n := |s| - 1;
      Only(s[..n], origin[..n], who) + if origin[n] == who then [s[n]] else []
  }

  function Room(m: Merge): int {
    Ring.MASK - (|m.stream| - m.consumed)
  }

  function TakeSome(m: Merge, n: nat): Merge {
    m.(consumed := if m.consumed + n <= |m.stream| then m.consumed + n else |m.stream|)
  }

  /** `frank_ring_put`: as much as there is room for. */
  function Put(m: Merge, bytes: seq<byte>, who: Source): Merge {
    var n := Max(0, Min(|bytes|, Room(m)));
    m.(stream := m.stream + bytes[..n], origin := m.origin + seq(n, _ => who))
  }

  /** As much as is there, as much as fits by the check made before, and no more than a chunk. */
  function ReadFromHost(m: Merge, available: seq<byte>): seq<byte> {
    available[..Max(0, Min(|available|, Min(Room(m), CHUNK)))]
  }

  function After(m: Merge, e: Event): Merge {
    match e
    case FromHost(available, meanwhile) =>
      var buf := ReadFromHost(m, available);
      Put(TakeSome(m, meanwhile), buf, Host).(hostRead := m.hostRead + buf)
    case FromKeyboard(keys) =>
      var n := Max(0, Min(|keys|, Room(m)));
      Put(m, keys, Keyboard).(
        offered := m.offered + keys, accepted := m.accepted + Range(|m.offered|, |m.offered| + n))
    case Taken(n) => TakeSome(m, n)
  }

  function Run(m: Merge, events: seq<Event>): Merge
    decreases |events|
  {
    if events == [] then m else Run(After(m, events[0]), events[1..])
  }

  lemma {:induction false} OnlyAppend(s: seq<byte>, origin: seq<Source>, t: seq<byte>, from: Source, who: Source)
    requires |s| == |origin|
    ensures Only(s + t, origin + seq(|t|, _ => from), who) == Only(s, origin, who) + if from == who then t else []
    decreases |t|
  {
    var all, allOrigin := s + t, origin + seq(|t|, _ => from);
    if t == [] {
      assert all == s && allOrigin == origin;
    } else {
      var n := |t| - 1;
      OnlyAppend(s, origin, t[..n], from, who);
      assert all[..|all| - 1] == s + t[..n];
      assert allOrigin[..|all| - 1] == origin + seq(n, _ => from);
      assert t == t[..n] + [t[n]];
    }
  }

  /** Linux taking bytes only makes room: what fitted at the check still fits, and all of it goes in. */
  lemma HostLosesNothing(m: Merge, available: seq<byte>, meanwhile: nat)
    requires Inv(m)
    ensures var buf := ReadFromHost(m, available);
      Put(TakeSome(m, meanwhile), buf, Host).stream == m.stream + buf
  {
    var buf := ReadFromHost(m, available);
    assert buf[..|buf|] == buf;
  }

  /**
   From the host core 1 reads, in order, as much as there is, unless that is more than 64 bytes or more
   than Linux's ring has room for; and then as much as that.
   */
  lemma HostReadIsLargest(m: Merge, available: seq<byte>, meanwhile: nat)
    requires Inv(m)
    ensures var t := After(m, FromHost(available, meanwhile));
      var n := |t.hostRead| - |m.hostRead|;
      && 0 <= n <= 64 && n <= |available| && t.hostRead == m.hostRead + available[..n]
      && t.stream == m.stream + available[..n]
      && n + |m.stream| - m.consumed <= 2047
      && (n == |available| || n == 64 || n + |m.stream| - m.consumed == 2047)
  {
    HostLosesNothing(m, available, meanwhile);
  }

  lemma HostKeepsInv(m: Merge, available: seq<byte>, meanwhile: nat)
    requires Inv(m)
    ensures Inv(After(m, FromHost(available, meanwhile)))
  {
    hide Positions;
    var buf := ReadFromHost(m, available);
    HostLosesNothing(m, available, meanwhile);
    OnlyAppend(m.stream, m.origin, buf, Host, Host);
    OnlyAppend(m.stream, m.origin, buf, Host, Keyboard);
  }

  lemma AcceptedRange(offered: seq<byte>, accepted: seq<nat>, keys: seq<byte>, n: nat)
    requires Positions(accepted, |offered|) && n <= |keys|
    ensures var at := accepted + Range(|offered|, |offered| + n);
      Positions(at, |offered + keys|) && Select(offered + keys, at) == Select(offered, accepted) + keys[..n]
  {
    var all, lo := offered + keys, |offered|;
    SelectRange(all, accepted, lo, lo + n);
    assert Select(all, accepted) == Select(offered, accepted);
    assert all[lo..lo + n] == keys[..n];
  }

  lemma KeyboardKeepsInv(m: Merge, keys: seq<byte>)
    requires Inv(m)
    ensures Inv(After(m, FromKeyboard(keys)))
  {
    var n := Max(0, Min(|keys|, Room(m)));
    AcceptedRange(m.offered, m.accepted, keys, n);
    hide Positions;
    OnlyAppend(m.stream, m.origin, keys[..n], Keyboard, Host);
    OnlyAppend(m.stream, m.origin, keys[..n], Keyboard, Keyboard);
  }

  lemma AfterKeepsInv(m: Merge, e: Event)
    requires Inv(m)
    ensures Inv(After(m, e))
  {
    match e
    case FromHost(available, meanwhile) => HostKeepsInv(m, available, meanwhile);
    case FromKeyboard(keys) => KeyboardKeepsInv(m, keys);
    case Taken(n) =>
  }

  lemma {:induction false} RunKeepsInv(m: Merge, events: seq<Event>)
    requires Inv(m)
    ensures Inv(Run(m, events))
    decreases |events|
  {
    if events != [] {
      AfterKeepsInv(m, events[0]);
      RunKeepsInv(After(m, events[0]), events[1..]);
    }
  }

  /** A keystroke is dropped only when the ring is full. */
  lemma KeysWaitOnlyForRoom(m: Merge, keys: seq<byte>)
    requires Inv(m)
    ensures var a := After(m, FromKeyboard(keys));
      |a.accepted| == |m.accepted| + |keys| || Room(a) == 0
  {
  }

  /**
   In every run, what Linux is given is a shuffle of two streams, each in order: every byte that
   was read from the host, and some of the keystrokes offered, none of them twice.
   */
  lemma InputIsAShuffle(events: seq<Event>)
    ensures var m := Run(EMPTY, events);
      && |m.origin| == |m.stream|
      && Only(m.stream, m.origin, Host) == m.hostRead
      && IsSubsequence(Only(m.stream, m.origin, Keyboard), m.offered)
      && |m.stream| - m.consumed <= Ring.MASK
  {
    RunKeepsInv(EMPTY, events);
    var m := Run(EMPTY, events);
    assert Positions(m.accepted, |m.offered|) && Only(m.stream, m.origin, Keyboard) == Select(m.offered, m.accepted);
  }
}
