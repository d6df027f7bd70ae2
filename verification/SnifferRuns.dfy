/**
 Captures as a whole: every datagram relays a frame of the received stream, and whole frames that
 arrive at once are all relayed.
 */
module SnifferRuns {
  import opened Bytes
  import opened Input
  import opened Sniffer

  /** What the main loop may do to the sniffer. */
  datatype Occurrence = Arrived(data: seq<u8>) | Raised(ev: Event)

  function Turn(channel: u8, s: State, x: Occurrence): State {
    match x
    case Arrived(data) => Received(channel, s, data)
    case Raised(ev) => Handle(channel, s, ev)
  }

  function Run(channel: u8, s: State, xs: seq<Occurrence>): State {
    if xs == [] then s else Turn(channel, Run(channel, s, xs[..|xs| - 1]), xs[|xs| - 1])
  }

  /** Everything received. */
  function Arrivals(xs: seq<Occurrence>): seq<u8> {
    if xs == [] then []
    else Arrivals(xs[..|xs| - 1]) + if xs[|xs| - 1].Arrived? then xs[|xs| - 1].data else []
  }

  /** ST_SniffConfigConfirm hands over with an empty buffer; the sequence numbers start at 0. */
  predicate Initial(s: State) {
    s.mode.SyncData? && s.rp == s.wp == 0 && s.seqNum == 0 && s.sent == []
  }

  /** Where a frame `01 len .. 04` starts in the stream, and its length byte. */
  datatype Frame = Frame(at: nat, length: nat)
  {
    function End(): nat { at + 3 + length }

    predicate In(stream: seq<u8>) {
      End() <= |stream| && 8 <= length < 0x100 &&
      stream[at] == 0x01 && stream[at + 1] as int == length && stream[at + 2 + length] == 0x04
    }

    function Payload(stream: seq<u8>): Content
      requires In(stream)
    {
      stream[at + 2..at + 2 + length]
    }
  }

  // ----- the log: which frames of the stream were sent on -----

  /** The state in which the event of an occurrence is handled. */
  function Seen(s: State, x: Occurrence): State {
    if x.Raised? then s
    else
      var (a, w, _) := Store(s.ascii, s.wp, x.data);
      s.(ascii := a, wp := w)
  }

  /** Whether the occurrence makes the machine look for a frame. */
  predicate Wakes(s: State, x: Occurrence) {
    if x.Raised? then x.ev.RxAscii? || x.ev.PlLoop? else Store(s.ascii, s.wp, x.data).2 > 0
  }

  /** The machine is about to send on the frame it finds. */
  predicate Sends(s: State) {
    s.mode.SyncData? && s.rp < s.wp && FrameAt(s, Scan(s.ascii, s.rp, s.wp))
  }

  /** That frame, by its place in the `received` bytes, of which the buffer holds the last. */
  function Found(s: State, received: nat): seq<Frame> {
    if Sends(s) && s.wp <= received then
      var i := Scan(s.ascii, s.rp, s.wp);
      [Frame(received - s.wp + i, s.ascii[i + 1] as int)]
    else []
  }

  function Log(channel: u8, s: State, xs: seq<Occurrence>): seq<Frame> {
    if xs == [] then []
    else
      var front, x := xs[..|xs| - 1], xs[|xs| - 1];
      var h := Run(channel, s, front);
      Log(channel, s, front) + if Wakes(h, x) then Found(Seen(h, x), |Arrivals(xs)|) else []
  }

  /** The `k`-th datagram is the frame `f` of the stream, under sequence number `k`. */
  ghost predicate Relays(channel: u8, stream: seq<u8>, f: Frame, k: nat, datagram: seq<u8>) {
    f.In(stream) && datagram == Datagram(channel, Number(k), f.Payload(stream))
  }

  /** One frame per datagram, in stream order, not overlapping, all of them before `limit`. */
  ghost predicate Relayed(channel: u8, stream: seq<u8>, fs: seq<Frame>, sent: seq<seq<u8>>, limit: nat) {
    |fs| == |sent| &&
    (forall k | 0 <= k < |fs| :: Relays(channel, stream, fs[k], k, sent[k]) && fs[k].End() <= limit) &&
    forall i, j | 0 <= i < j < |fs| :: fs[i].End() <= fs[j].at
  }

  ghost predicate Inv(channel: u8, s: State, stream: seq<u8>, fs: seq<Frame>) {
    !s.mode.RecvData? && s.seqNum == Number(|s.sent|) &&
    Holds(s.ascii, s.wp, stream) && Relayed(channel, stream, fs, s.sent, |stream| - s.wp)
  }

  lemma RelayedExtends(channel: u8, stream: seq<u8>, more: seq<u8>, fs: seq<Frame>, sent: seq<seq<u8>>,
                       limit: nat, limit': nat)
    requires Relayed(channel, stream, fs, sent, limit) && limit <= limit'
    ensures Relayed(channel, stream + more, fs, sent, limit')
  {
    hide Datagram;
    forall k | 0 <= k < |fs| ensures Relays(channel, stream + more, fs[k], k, sent[k]) {
      assert fs[k].Payload(stream + more) == fs[k].Payload(stream);
    }
  }

  lemma EmptiedKeeps(channel: u8, s: State, r: State, stream: seq<u8>, fs: seq<Frame>)
    requires Inv(channel, s, stream, fs) && r.wp <= s.wp && !r.mode.RecvData?
    requires r == s.(mode := r.mode, rp := r.rp, wp := r.wp, length := r.length, got := r.got)
    requires r.wp == 0 || r.wp == s.wp
    ensures Inv(channel, r, stream, fs)
  {
    hide Datagram;
    assert stream + [] == stream;
    RelayedExtends(channel, stream, [], fs, s.sent, |stream| - s.wp, |stream| - r.wp);
  }

  lemma ExtractedKeeps(channel: u8, s: State, i: nat, stream: seq<u8>, fs: seq<Frame>)
    requires Inv(channel, s, stream, fs) && FrameAt(s, i)
    ensures Inv(channel, Extracted(channel, s, i), stream, fs + [FrameOf(s, i, stream)])
  {
    assert s.seqNum == Number(|s.sent|) && Holds(s.ascii, s.wp, stream);
    var f := FrameOf(s, i, stream);
    ExtractedHolds(channel, s, i, stream);
    NextRelays(channel, s, i, stream, |s.sent|);
    var r, datagram := Extracted(channel, s, i), Datagram(channel, s.seqNum, PayloadAt(s, i));
    assert r.sent == s.sent + [datagram] && r.seqNum == Next(s.seqNum) && r.mode == s.mode;
    hide *;
    InvSnoc(channel, s, r, stream, fs, f, datagram);
  }

  /** The frame at `i` of the buffer, as a frame of the stream. */
  ghost function FrameOf(s: State, i: nat, stream: seq<u8>): (f: Frame)
    requires Holds(s.ascii, s.wp, stream) && FrameAt(s, i)
    ensures |stream| - s.wp <= f.at
  {
    Frame(|stream| - s.wp + i, s.ascii[i + 1] as int)
  }

  lemma InvSnoc(channel: u8, s: State, r: State, stream: seq<u8>, fs: seq<Frame>, f: Frame, datagram: seq<u8>)
    requires Inv(channel, s, stream, fs) && Relays(channel, stream, f, |s.sent|, datagram)
    requires !r.mode.RecvData? && r.seqNum == Next(s.seqNum) && r.sent == s.sent + [datagram]
    requires Holds(r.ascii, r.wp, stream) && |stream| - s.wp <= f.at && f.End() == |stream| - r.wp
    ensures Inv(channel, r, stream, fs + [f])
  {
    assert |fs| == |s.sent|;
    hide Relayed, Relays, Holds, Next, Number;
    RelayedSnoc(channel, stream, fs, s.sent, |stream| - s.wp, f, datagram);
    NextNumber(|s.sent|);
  }

  lemma NextNumber(k: nat)
    ensures Next(Number(k)) == Number(k + 1)
  {
  }

  lemma ExtractedHolds(channel: u8, s: State, i: nat, stream: seq<u8>)
    requires Holds(s.ascii, s.wp, stream) && FrameAt(s, i)
    ensures
      var r := Extracted(channel, s, i);
      Holds(r.ascii, r.wp, stream) && FrameOf(s, i, stream).End() == |stream| - r.wp
  {
    hide Datagram;
    WindowIs(s, stream, i);
    var r := Extracted(channel, s, i);
    assert r.ascii[..r.wp] == s.ascii[i + 3 + s.ascii[i + 1] as int..s.wp];
  }

  lemma NextRelays(channel: u8, s: State, i: nat, stream: seq<u8>, k: nat)
    requires Holds(s.ascii, s.wp, stream) && FrameAt(s, i) && s.seqNum == Number(k)
    ensures Relays(channel, stream, FrameOf(s, i, stream), k, Datagram(channel, s.seqNum, PayloadAt(s, i)))
  {
    hide Datagram, Number;
    WindowIs(s, stream, i);
  }

  lemma RelayedSnoc(channel: u8, stream: seq<u8>, fs: seq<Frame>, sent: seq<seq<u8>>, limit: nat,
                    f: Frame, datagram: seq<u8>)
    requires Relayed(channel, stream, fs, sent, limit) && limit <= f.at
    requires Relays(channel, stream, f, |fs|, datagram)
    ensures Relayed(channel, stream, fs + [f], sent + [datagram], f.End())
  {
    hide Relays;
  }

  /** The buffer as a window on the stream. */
  lemma WindowIs(s: State, stream: seq<u8>, i: nat)
    requires Holds(s.ascii, s.wp, stream) && FrameAt(s, i)
    ensures
      var start, length := |stream| - s.wp, s.ascii[i + 1] as int;
      Frame(start + i, length).In(stream) &&
      stream[start + i + 2..start + i + 2 + length] == PayloadAt(s, i) &&
      stream[start + i + 3 + length..] == s.ascii[i + 3 + length..s.wp]
  {
    var start, length := |stream| - s.wp, s.ascii[i + 1] as int;
    var w := s.ascii[..s.wp];
    assert forall j | 0 <= j < s.wp :: stream[start + j] == w[j] == s.ascii[j];
  }

  lemma HandleKeeps(channel: u8, s: State, ev: Event, stream: seq<u8>, fs: seq<Frame>)
    requires Inv(channel, s, stream, fs)
    ensures Inv(channel, Handle(channel, s, ev), stream,
                if ev.RxAscii? || ev.PlLoop? then fs + Found(s, |stream|) else fs)
  {
    hide Sync, Recv, Relayed, Scan, FrameAt, Found;
    assert fs + [] == fs;
    if s.mode.SyncData? && (ev.RxAscii? || ev.PlLoop?) {
      if Sends(s) { SendKeeps(channel, s, stream, fs); } else { SearchKeeps(channel, s, stream, fs); }
    } else {
      assert !s.mode.SyncData? ==> Found(s, |stream|) == [] by { NothingFound(s, |stream|); }
      EmptiedKeeps(channel, s, Handle(channel, s, ev), stream, fs);
    }
  }

  lemma NothingFound(s: State, received: nat)
    ensures !Sends(s) ==> Found(s, received) == []
  {
  }

  lemma SendKeeps(channel: u8, s: State, stream: seq<u8>, fs: seq<Frame>)
    requires Inv(channel, s, stream, fs) && Sends(s)
    ensures Inv(channel, Sync(channel, s), stream, fs + Found(s, |stream|))
  {
    hide Datagram, Relayed, Holds, Found, Sync, Extracted, FrameAt, Scan;
    InvHolds(channel, s, stream, fs);
    FoundIs(s, stream);
    FrameExtracted(channel, s);
    ExtractedKeeps(channel, s, Scan(s.ascii, s.rp, s.wp), stream, fs);
  }

  lemma InvHolds(channel: u8, s: State, stream: seq<u8>, fs: seq<Frame>)
    requires Inv(channel, s, stream, fs)
    ensures Holds(s.ascii, s.wp, stream)
  {
  }

  lemma FoundIs(s: State, stream: seq<u8>)
    requires Holds(s.ascii, s.wp, stream) && Sends(s)
    ensures Found(s, |stream|) == [FrameOf(s, Scan(s.ascii, s.rp, s.wp), stream)]
  {
    hide Scan;
  }

  lemma SearchKeeps(channel: u8, s: State, stream: seq<u8>, fs: seq<Frame>)
    requires Inv(channel, s, stream, fs) && s.mode.SyncData? && !Sends(s)
    ensures Inv(channel, Sync(channel, s), stream, fs + Found(s, |stream|))
  {
    NothingFound(s, |stream|);
    assert fs + [] == fs;
    NoFrameCases(channel, s);
    hide Sync, Recv, Relayed, Scan, FrameAt, Found;
    EmptiedKeeps(channel, s, Sync(channel, s), stream, fs);
  }

  /**
   Soundness over every run: the datagrams are the frames of the log, one each, which do not overlap
   and are numbered consecutively in stream order, and the machine never rests in ST_SniffRecvData.
   */
  lemma {:induction false} DatagramsRelayed(channel: u8, s: State, xs: seq<Occurrence>)
    requires Initial(s)
    ensures
      var r := Run(channel, s, xs);
      !r.mode.RecvData? && Relayed(channel, Arrivals(xs), Log(channel, s, xs), r.sent, |Arrivals(xs)|)
    ensures Inv(channel, Run(channel, s, xs), Arrivals(xs), Log(channel, s, xs))
  {
    hide Handle, Store, Relayed, Found;
    if xs == [] {
      assert Relayed(channel, [], [], [], 0) by { NothingRelayed(channel); }
    } else {
      var front, x := xs[..|xs| - 1], xs[|xs| - 1];
      DatagramsRelayed(channel, s, front);
      var h, stream, fs := Run(channel, s, front), Arrivals(front), Log(channel, s, front);
      assert fs + [] == fs;
      if x.Raised? {
        assert stream + [] == stream;
        HandleKeeps(channel, h, x.ev, stream, fs);
      } else {
        var h1 := Seen(h, x);
        StoreHolds(h.ascii, h.wp, stream, x.data);
        RelayedExtends(channel, stream, x.data, fs, h.sent, |stream| - h.wp, |stream + x.data| - h1.wp);
        if Wakes(h, x) { HandleKeeps(channel, h1, RxAscii, stream + x.data, fs); }
      }
      LimitRelaxed(channel, Run(channel, s, xs), Arrivals(xs), Log(channel, s, xs));
    }
  }

  lemma NothingRelayed(channel: u8)
    ensures Relayed(channel, [], [], [], 0)
  {
  }

  lemma LimitRelaxed(channel: u8, s: State, stream: seq<u8>, fs: seq<Frame>)
    requires Inv(channel, s, stream, fs)
    ensures Relayed(channel, stream, fs, s.sent, |stream|)
  {
    RelayedExtends(channel, stream, [], fs, s.sent, |stream| - s.wp, |stream|);
    assert stream + [] == stream;
  }

  /** A timeout or a lost device. */
  predicate EndsCapture(x: Occurrence) { x.Raised? && (x.ev.Timeout? || x.ev.Disconnected?) }

  /**
   A capture goes on until the first timeout or lost device, and no longer: nothing that comes later is
   relayed.
   */
  lemma {:induction false} CaptureEndsIff(channel: u8, s: State, xs: seq<Occurrence>)
    requires s.mode.SyncData?
    ensures Run(channel, s, xs).mode.Teardown? <==> exists i | 0 <= i < |xs| :: EndsCapture(xs[i])
  {
    hide Sync, Recv, Store;
    if xs != [] {
      var front, x := xs[..|xs| - 1], xs[|xs| - 1];
      CaptureEndsIff(channel, s, front);
      assert (exists i | 0 <= i < |xs| :: EndsCapture(xs[i])) <==>
             (exists i | 0 <= i < |front| :: EndsCapture(front[i])) || EndsCapture(x);
      ModeAfter(channel, Run(channel, s, front), x);
    }
  }

  lemma ModeAfter(channel: u8, s: State, x: Occurrence)
    ensures Turn(channel, s, x).mode.Teardown? <==> s.mode.Teardown? || EndsCapture(x)
    ensures s.mode.Teardown? ==> Turn(channel, s, x).sent == s.sent
  {
    hide Store, Datagram, Overwrite, Scan;
  }

  lemma {:induction false} NothingAfterEnd(channel: u8, s: State, xs: seq<Occurrence>)
    requires s.mode.Teardown?
    ensures Run(channel, s, xs).mode.Teardown? && Run(channel, s, xs).sent == s.sent
  {
    hide Turn;
    if xs != [] {
      NothingAfterEnd(channel, s, xs[..|xs| - 1]);
      ModeAfter(channel, Run(channel, s, xs[..|xs| - 1]), xs[|xs| - 1]);
    }
  }

  // ----- completeness -----

  ghost predicate Sized(ps: seq<Content>) { forall p <- ps :: 8 <= |p| }

  function Wire(p: Content): seq<u8> { [0x01, |p|] + p + [0x04] }

  function Wires(ps: seq<Content>): seq<u8> {
    if ps == [] then [] else Wire(ps[0]) + Wires(ps[1..])
  }

  /** The datagrams of these payloads, numbered from `seqNum` on. */
  function Datagrams(channel: u8, seqNum: u32, ps: seq<Content>): seq<seq<u8>>
    decreases |ps|
  {
    if ps == [] then []
    else [Datagram(channel, seqNum, ps[0])] + Datagrams(channel, Next(seqNum), ps[1..])
  }

  lemma FirstFrameFound(s: State, p: Content, rest: seq<u8>)
    requires s.ascii[..s.wp] == Wire(p) + rest && 8 <= |p|
    ensures FrameAt(s, 0) && PayloadAt(s, 0) == p && s.ascii[1] as int == |p| && s.ascii[3 + |p|..s.wp] == rest
    ensures Scan(s.ascii, 0, s.wp) == 0
  {
    var w := s.ascii[..s.wp];
    assert w[0] == 0x01 && w[1] as int == |p| && w[2..2 + |p|] == p && w[2 + |p|] == 0x04;
    assert s.ascii[0] == w[0] && s.ascii[1] == w[1] && s.ascii[2 + |p|] == w[2 + |p|];
    assert s.ascii[2..2 + |p|] == w[2..2 + |p|];
    assert s.ascii[3 + |p|..s.wp] == w[3 + |p|..];
    assert w[3 + |p|..] == rest;
  }

  /** A window that starts with a whole frame loses it to one datagram. */
  lemma FirstFrameSent(channel: u8, s: State, p: Content, rest: seq<u8>)
    requires s.mode.SyncData? && s.rp == 0 && 8 <= |p| && s.ascii[..s.wp] == Wire(p) + rest
    ensures
      var r := Sync(channel, s);
      r.mode.SyncData? && r.rp == 0 && r.ascii[..r.wp] == rest &&
      r.sent == s.sent + [Datagram(channel, s.seqNum, p)] && r.seqNum == Next(s.seqNum)
  {
    hide Datagram, Sync, Scan;
    FirstFrameFound(s, p, rest);
    FrameExtracted(channel, s);
  }

  /** A window of whole frames is sent on frame by frame, one event each. */
  lemma {:induction false} WindowSent(channel: u8, s: State, ps: seq<Content>)
    requires s.mode.SyncData? && s.rp == 0 && Sized(ps) && s.ascii[..s.wp] == Wires(ps)
    ensures
      var r := Loops(channel, s, |ps|);
      r.mode.SyncData? && r.rp == r.wp == 0 && r.sent == s.sent + Datagrams(channel, s.seqNum, ps)
    decreases |ps|
  {
    hide Datagram, Sync, Wire;
    if ps == [] {
      assert s.sent + [] == s.sent;
    } else {
      FirstFrameSent(channel, s, ps[0], Wires(ps[1..]));
      var r := Handle(channel, s, PlLoop);
      WindowSent(channel, r, ps[1..]);
      assert s.sent + [Datagram(channel, s.seqNum, ps[0])] + Datagrams(channel, r.seqNum, ps[1..])
          == s.sent + Datagrams(channel, s.seqNum, ps);
    }
  }

  /**
   Completeness: whole frames that arrive in one chunk of at most 510 bytes on an empty buffer are
   all sent on, in order, by that event and one loop event less than there are frames.
   */
  lemma ChunkSent(channel: u8, s: State, ps: seq<Content>)
    requires s.mode.SyncData? && s.rp == s.wp == 0
    requires ps != [] && Sized(ps) && |Wires(ps)| <= ASCII_SIZE - 2
    ensures
      var r := Loops(channel, Received(channel, s, Wires(ps)), |ps| - 1);
      r.mode.SyncData? && r.rp == r.wp == 0 && r.sent == s.sent + Datagrams(channel, s.seqNum, ps)
  {
    hide Datagram, Sync, Wire, Datagrams, Store;
    StoreAppends(s.ascii, s.wp, Wires(ps));
    var (a, w, n) := Store(s.ascii, s.wp, Wires(ps));
    var s1 := s.(ascii := a, wp := w);
    assert s.ascii[..0] + Wires(ps) == Wires(ps);
    assert n > 0 by { WireLength(ps[0]); }
    WindowSent(channel, s1, ps);
    assert Handle(channel, s1, RxAscii) == Handle(channel, s1, PlLoop);
  }

  lemma WireLength(p: Content)
    ensures |Wire(p)| == |p| + 3
  {
  }

  /**
   A frame that arrives in two pieces on an empty buffer: what is kept of the first piece is all of
   it, except that a lone marker is thrown away, and with it the frame.
   */
  lemma FirstPieceKeptIff(channel: u8, s: State, p: Content, k: nat)
    requires s.mode.SyncData? && s.rp == s.wp == 0 && 8 <= |p| && 0 < k < |Wire(p)|
    ensures
      var r := Received(channel, s, Wire(p)[..k]);
      r.mode.SyncData? && r.sent == s.sent && r.seqNum == s.seqNum && r.rp == 0 &&
      r.ascii[..r.wp] == (if k == 1 then [] else Wire(p)[..k])
  {
    var a := Wire(p)[..k];
    hide Sync;
    StoreAppends(s.ascii, 0, a);
    var (b, w, n) := Store(s.ascii, 0, a);
    hide Store;
    assert s.ascii[..0] + a == a;
    PieceWaits(channel, s.(ascii := b, wp := w), p, k);
  }

  lemma PieceWaits(channel: u8, s: State, p: Content, k: nat)
    requires s.mode.SyncData? && s.rp == 0 && 8 <= |p| && 0 < k < |Wire(p)|
    requires s.ascii[..s.wp] == Wire(p)[..k]
    ensures
      var r := Sync(channel, s);
      r.mode.SyncData? && r.sent == s.sent && r.seqNum == s.seqNum && r.rp == 0 &&
      r.ascii[..r.wp] == (if k == 1 then [] else Wire(p)[..k])
  {
    hide Recv, Datagram, Overwrite;
    var w := s.ascii[..s.wp];
    assert s.ascii[0] == w[0] == 0x01 && (k > 1 ==> s.ascii[1] == w[1]);
    assert Scan(s.ascii, 0, s.wp) == 0;
    hide Scan;
  }
}
