/**
 The sniffer of gcf.c: frames `01 len .. 04` found in the received stream are sent on as ZEP
 datagrams. The handlers are functions on the sniffer's state; a run starts where ST_SniffSyncData
 is entered.
 */
module Sniffer {
  import opened Bytes
  import opened Input

  const MARKER: u8 := 0x01
  const TRAILER: u8 := 0x04
  const MIN_LENGTH: nat := 8
  const DATA_LENGTH: nat := 13
  const DATAGRAM_MAX: nat := 256

  /** What can stand between the length byte and the trailer. */
  type Content = p: seq<u8> | |p| < 0x100 witness []

  datatype Mode = SyncData | RecvData | Teardown

  /** `got` is `sniffPacket[..sniffWp]`, `sent` the datagrams given to the socket. */
  datatype State = State(
    mode: Mode,
    ascii: InputBuffer,
    rp: InputIndex,
    wp: InputIndex,
    length: u8,
    got: seq<u8>,
    seqNum: u32,
    sent: seq<seq<u8>>)

  datatype Event = RxAscii | PlLoop | Timeout | Disconnected

  // ----- datagrams -----

  /**
   The ZEP datagram (data, or acknowledgement if short) for a frame's payload, whose first eight bytes
   are a dummy timestamp.
   */
  function Zep(channel: u8, seqNum: u32, payload: Content): (d: seq<u8>)
    ensures |d| == if |payload| >= DATA_LENGTH then |payload| + 24 else 8
  {
    if |payload| >= DATA_LENGTH then
      [0x45, 0x58, 2, 1] + [channel, 0, 0, 0, 0] + Zeros(8) + Be32(seqNum) + Zeros(10) + [|payload| - 8] + payload[8..]
    else
      [0x45, 0x58, 2, 2] + Be32(seqNum)
  }

  function Zeros(n: nat): (z: seq<u8>)
    ensures |z| == n
  {
    seq(n, _ => 0)
  }

  /** What fits into the buffer of 256 bytes. */
  function Datagram(channel: u8, seqNum: u32, payload: Content): seq<u8> {
    var d := Zep(channel, seqNum, payload);
    if |d| <= DATAGRAM_MAX then d else d[..DATAGRAM_MAX]
  }

  /**
   The datagrams byte by byte: "EX", version 2; for frames of 13 bytes and more type 1, the channel, the
   sequence number with its high byte first, the length without the timestamp, and zeros in between;
   for shorter ones type 2 and the sequence number.
   */
  lemma DatagramLayout(channel: u8, seqNum: u32, payload: Content)
    ensures
      var d := Datagram(channel, seqNum, payload);
      var number := [seqNum as int / 0x100_0000, seqNum as int / 0x1_0000 % 0x100,
                     seqNum as int / 0x100 % 0x100, seqNum as int % 0x100];
      if |payload| < 13 then d == [0x45, 0x58, 2, 2] + number
      else
        |d| >= 32 && d[..5] == [0x45, 0x58, 2, 1, channel] && d[5..17] == Zeros(12) && d[17..21] == number &&
        d[21..31] == Zeros(10) && d[31] as int == |payload| - 8
  {
    if |payload| >= 13 {
      var z := Zep(channel, seqNum, payload);
      assert z[..5] == [0x45, 0x58, 2, 1, channel] && z[5..17] == Zeros(12) && z[17..21] == Be32(seqNum);
      assert z[21..31] == Zeros(10);
      var d := Datagram(channel, seqNum, payload);
      assert d[..32] == z[..32];
      assert d[..5] == d[..32][..5] && d[5..17] == d[..32][5..17] && d[17..21] == d[..32][17..21];
      assert d[21..31] == d[..32][21..31] && d[31] == d[..32][31];
    }
  }

  /** A data datagram carries the whole payload behind its length exactly for frames up to 232 bytes. */
  lemma CarriesAllIff(channel: u8, seqNum: u32, payload: Content)
    requires DATA_LENGTH <= |payload|
    ensures
      var d := Datagram(channel, seqNum, payload);
      d[31] as int == |payload| - 8 && d[17..21] == Be32(seqNum) &&
      d[32..] <= payload[8..] && (d[32..] == payload[8..] <==> |payload| <= 232)
  {
    var z := Zep(channel, seqNum, payload);
    assert z[32..] == payload[8..];
    assert z[17..21] == Be32(seqNum);
    assert Datagram(channel, seqNum, payload)[32..] == payload[8..][..if |payload| <= 232 then |payload| - 8 else 224];
    assert Datagram(channel, seqNum, payload)[17..21] == z[17..21];
  }

  /** Sequence numbers: 32 bits, counting from 0. */
  function Next(n: u32): u32 { (n as int + 1) % 0x1_0000_0000 }

  function Number(k: nat): u32 { k % 0x1_0000_0000 }

  // ----- handlers -----

  /** The first marker in `ascii[rp..wp]`, or `wp`. */
  function Scan(ascii: InputBuffer, rp: nat, wp: InputIndex): (i: nat)
    requires rp <= wp
    ensures rp <= i <= wp && MARKER !in ascii[rp..i] && (i < wp ==> ascii[i] == MARKER)
    decreases wp - rp
  {
    if rp < wp && ascii[rp] != MARKER then Scan(ascii, rp + 1, wp) else rp
  }

  function Emptied(s: State): State { s.(rp := 0, wp := 0) }

  function Sync(channel: u8, s: State): State {
    var s0 := s.(length := 0);
    if s.rp < s.wp then
      var i := Scan(s.ascii, s.rp, s.wp);
      if i + 1 < s.wp then
        var length := s.ascii[i + 1];
        var s1 := s0.(rp := i, got := [], length := length);
        if length as int < MIN_LENGTH then s1.(rp := i + 1)
        else if 2 + length as int < s.wp - i then
          if s.ascii[i + 2 + length as int] == TRAILER then Recv(channel, s1.(rp := i + 2, mode := RecvData))
          else s1.(rp := i + 1)
        else s1
      else Emptied(s0)
    else Emptied(s0)
  }

  /** How many bytes the copy loop of ST_SniffRecvData takes. */
  function Taken(s: State): nat {
    var unread := if s.rp < s.wp then s.wp - s.rp else 0;
    var missing := if |s.got| <= s.length as int then s.length as int + 1 - |s.got| else unread;
    if missing < unread then missing else unread
  }

  function Recv(channel: u8, s: State): State {
    var mid := s.rp + Taken(s);
    var got := s.got + (if s.rp < s.wp then s.ascii[s.rp..mid] else []);
    var rest := if mid < s.wp then s.ascii[mid..s.wp] else [];
    var s1 := s.(ascii := Overwrite(s.ascii, rest), rp := 0, wp := |rest|, got := got);
    if |got| != s.length as int + 1 then s1
    else
      var s2 := s1.(got := [], length := 0, mode := SyncData);
      if got[s.length] == TRAILER then
        s2.(sent := s.sent + [Datagram(channel, s.seqNum, got[..s.length])],
            seqNum := Next(s.seqNum))
      else s2
  }

  /** `GCF_HandleEvent` for the two states; EV_PL_LOOP reaches ST_SniffSyncData only. */
  function Handle(channel: u8, s: State, ev: Event): State {
    match s.mode
    case Teardown => s
    case SyncData =>
      if ev.RxAscii? || ev.PlLoop? then Sync(channel, s) else s.(mode := Teardown)
    case RecvData =>
      if ev.RxAscii? then Recv(channel, s) else if ev.PlLoop? then s else s.(mode := Teardown)
  }

  /** `GCF_Received` for the sniffer. */
  function Received(channel: u8, s: State, data: seq<u8>): State {
    var (a, w, n) := Store(s.ascii, s.wp, data);
    var s1 := s.(ascii := a, wp := w);
    if n > 0 then Handle(channel, s1, RxAscii) else s1
  }

  // ----- what one event does -----

  /** The window holds the frame `01 len .. 04` at `i`. */
  predicate FrameAt(s: State, i: nat) {
    i + 1 < s.wp && s.ascii[i] == MARKER && MIN_LENGTH <= s.ascii[i + 1] as int < s.wp - i - 2 &&
    s.ascii[i + 2 + s.ascii[i + 1] as int] == TRAILER
  }

  /** The window starts with what may become a frame. */
  predicate Waiting(s: State) {
    s.rp + 1 < s.wp && s.ascii[s.rp] == MARKER &&
    MIN_LENGTH <= s.ascii[s.rp + 1] as int && s.wp - s.rp <= 2 + s.ascii[s.rp + 1] as int
  }

  function PayloadAt(s: State, i: nat): Content
    requires FrameAt(s, i)
  {
    s.ascii[i + 2..i + 2 + s.ascii[i + 1] as int]
  }

  /** The frame at `i` has been sent on, everything before its end is gone. */
  function Extracted(channel: u8, s: State, i: nat): State
    requires FrameAt(s, i)
  {
    var rest := s.ascii[i + 3 + s.ascii[i + 1] as int..s.wp];
    s.(ascii := Overwrite(s.ascii, rest), rp := 0, wp := |rest|, length := 0, got := [],
       sent := s.sent + [Datagram(channel, s.seqNum, PayloadAt(s, i))],
       seqNum := Next(s.seqNum))
  }

  lemma WholePayloadRead(channel: u8, s: State)
    requires s.mode.RecvData? && s.got == [] && s.rp + s.length as int < s.wp
    requires s.ascii[s.rp + s.length as int] == TRAILER
    ensures
      var end := s.rp + s.length as int;
      var rest := s.ascii[end + 1..s.wp];
      Recv(channel, s) ==
      s.(mode := SyncData, ascii := Overwrite(s.ascii, rest), rp := 0, wp := |rest|, length := 0, got := [],
         sent := s.sent + [Datagram(channel, s.seqNum, s.ascii[s.rp..end])],
         seqNum := Next(s.seqNum))
  {
    hide Datagram, Overwrite;
    var end := s.rp + s.length as int;
    var got := s.ascii[s.rp..end + 1];
    assert Taken(s) == s.length as int + 1;
    assert s.got + got == got && got[..s.length] == s.ascii[s.rp..end] && got[s.length] == s.ascii[end];
  }

  /** A full frame is taken out in one go, so the state never stays in ST_SniffRecvData. */
  lemma FrameExtracted(channel: u8, s: State)
    requires s.mode.SyncData? && s.rp < s.wp && FrameAt(s, Scan(s.ascii, s.rp, s.wp))
    ensures Sync(channel, s) == Extracted(channel, s, Scan(s.ascii, s.rp, s.wp))
  {
    hide Datagram, Overwrite, Scan, Recv;
    var i := Scan(s.ascii, s.rp, s.wp);
    var s1 := s.(rp := i + 2, got := [], length := s.ascii[i + 1], mode := RecvData);
    assert Sync(channel, s) == Recv(channel, s1);
    WholePayloadRead(channel, s1);
  }

  lemma NoFrameCases(channel: u8, s: State)
    requires s.mode.SyncData? && !(s.rp < s.wp && FrameAt(s, Scan(s.ascii, s.rp, s.wp)))
    ensures
      var r := Sync(channel, s);
      r == s.(rp := r.rp, wp := r.wp, length := r.length, got := r.got) &&
      (r.rp == r.wp == 0 ||
       (s.rp <= r.rp <= r.wp == s.wp && (r.rp > s.rp || Waiting(r))))
  {
    hide Recv, Overwrite, Datagram, Scan;
  }

  function Unread(s: State): nat { if s.rp < s.wp then s.wp - s.rp else 0 }

  lemma WaitingStays(channel: u8, s: State)
    requires s.mode.SyncData?
    ensures Waiting(s) ==> var r := Sync(channel, s); r == s.(length := r.length, got := r.got)
  {
    hide Recv, Overwrite, Datagram;
  }

  /** An event without new bytes shrinks the window, empties it, or waits for the rest of a frame. */
  lemma Progress(channel: u8, s: State)
    requires s.mode.SyncData?
    ensures
      var r := Sync(channel, s);
      r.mode.SyncData? && (Unread(r) < Unread(s) || r.rp == r.wp == 0 || Waiting(r))
    ensures Waiting(s) ==> var r := Sync(channel, s); r == s.(length := r.length, got := r.got)
  {
    hide Datagram, Overwrite;
    WaitingStays(channel, s);
    hide Scan, Sync;
    if s.rp < s.wp && FrameAt(s, Scan(s.ascii, s.rp, s.wp)) {
      FrameExtracted(channel, s);
    } else {
      NoFrameCases(channel, s);
    }
  }

  /** `n` loop events. */
  function Loops(channel: u8, s: State, n: nat): State
    decreases n
  {
    if n == 0 then s else Loops(channel, Handle(channel, s, PlLoop), n - 1)
  }

  /** The loop events alone use up the window, but for a frame whose end is still missing. */
  lemma {:induction false} LoopsSettle(channel: u8, s: State) returns (n: nat)
    requires s.mode.SyncData?
    ensures n <= Unread(s) + 1
    ensures var r := Loops(channel, s, n);
            r.mode.SyncData? && (r.rp == r.wp == 0 || Waiting(r))
    decreases Unread(s)
  {
    hide Sync;
    Progress(channel, s);
    var r := Handle(channel, s, PlLoop);
    if r.rp == r.wp == 0 || Waiting(r) {
      n := 1;
      assert Loops(channel, s, 1) == Loops(channel, r, 0) == r;
    } else {
      n := LoopsSettle(channel, r);
      n := n + 1;
    }
  }

  // ----- frames behind garbage -----

  /** A marker that begins no frame: no length behind it, or no trailer where that length puts it. */
  predicate FalseStart(s: State, i: nat) {
    i + 1 < s.wp && s.ascii[i] == 0x01 &&
    var n := s.ascii[i + 1] as int;
    n < 8 || (i + 2 + n < s.wp && s.ascii[i + 2 + n] != 0x04)
  }

  lemma FalseStartSkipped(channel: u8, s: State)
    requires s.mode.SyncData? && s.rp < s.wp && FalseStart(s, Scan(s.ascii, s.rp, s.wp))
    ensures var r := Sync(channel, s);
            r == s.(rp := Scan(s.ascii, s.rp, s.wp) + 1, got := [], length := r.length)
  {
    hide Datagram, Recv, Scan;
  }

  /** Every marker in front of `j` is a false start. */
  predicate Garbage(s: State, j: nat) {
    forall i | s.rp <= i < j && i < ASCII_SIZE && s.ascii[i] == 0x01 :: FalseStart(s, i)
  }

  lemma ScanStops(s: State, j: nat)
    requires s.rp <= j && FrameAt(s, j)
    ensures var i := Scan(s.ascii, s.rp, s.wp);
            s.rp <= i <= j && s.ascii[i] == 0x01
  {
    hide Scan;
    assert forall i | s.rp <= i < s.wp :: s.ascii[s.rp..s.wp][i - s.rp] == s.ascii[i];
  }

  lemma SameFrame(channel: u8, s: State, r: State, j: nat)
    requires FrameAt(s, j) && r == s.(rp := r.rp, got := r.got, length := r.length)
    ensures FrameAt(r, j) && Extracted(channel, r, j) == Extracted(channel, s, j)
    ensures s.rp <= r.rp && Garbage(s, j) ==> Garbage(r, j)
  {
    hide Datagram, Overwrite;
  }

  /** One event in front of a frame: it is the next and taken out, or a false start is passed. */
  lemma GarbagePassed(channel: u8, s: State, j: nat)
    requires s.mode.SyncData? && s.rp <= j && FrameAt(s, j) && Garbage(s, j)
    ensures
      var r := Handle(channel, s, PlLoop);
      r == Extracted(channel, s, j) ||
      (r.mode.SyncData? && s.rp < r.rp <= j && FrameAt(r, j) && Garbage(r, j) &&
       Extracted(channel, r, j) == Extracted(channel, s, j))
  {
    var r := Sync(channel, s);
    ScanStops(s, j);
    hide Sync, Scan, Datagram, Overwrite, Extracted;
    if Scan(s.ascii, s.rp, s.wp) == j {
      FrameExtracted(channel, s);
    } else {
      FalseStartSkipped(channel, s);
      SameFrame(channel, s, r, j);
    }
  }

  /**
   A frame is found behind any garbage, even inside of what looked like another frame: loop events alone
   send it on, if every marker in front of it is a false start.
   */
  lemma {:induction false} FrameBehindFound(channel: u8, s: State, j: nat) returns (n: nat)
    requires s.mode.SyncData? && s.rp <= j && FrameAt(s, j) && Garbage(s, j)
    ensures n <= j - s.rp + 1 && Loops(channel, s, n) == Extracted(channel, s, j)
    decreases j - s.rp
  {
    hide Handle, FrameAt, Garbage, Extracted;
    GarbagePassed(channel, s, j);
    var r := Handle(channel, s, PlLoop);
    n := 0;
    if r == Extracted(channel, s, j) {
      assert Loops(channel, r, 0) == r;
    } else {
      n := FrameBehindFound(channel, r, j);
    }
    n := n + 1;
  }
}
