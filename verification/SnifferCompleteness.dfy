/**
 Streams of whole frames in any pieces: every frame is relayed if and only if no read overflows the
 buffer and the machine never looks when all it holds is one byte. Both are conditions on lengths.
 */
module SnifferCompleteness {
  import opened Bytes
  import opened Input
  import opened Sniffer
  import opened SnifferRuns

  /** Only reads and the event of the main loop: no timeout and no lost device. */
  predicate Undisturbed(xs: seq<Occurrence>) { forall x <- xs :: x.Arrived? || x.ev.PlLoop? }

  /** The first marker is the last byte of the window: looking for a frame empties the buffer. */
  predicate Drops(s: State) {
    s.mode.SyncData? && s.rp < s.wp && Scan(s.ascii, s.rp, s.wp) + 1 == s.wp
  }

  // ----- what the lengths say -----

  /** A read of at least one byte, or a loop event. */
  predicate Looks(x: Occurrence) { x.Arrived? ==> x.data != [] }

  /** How many frames have been sent if nothing was lost: each look sends one that has come whole. */
  function Count(ps: seq<Content>, xs: seq<Occurrence>): (j: nat)
    ensures j <= |ps|
  {
    if xs == [] then 0
    else
      var j := Count(ps, xs[..|xs| - 1]);
      if Looks(xs[|xs| - 1]) && j < |ps| && |Wires(ps[..j + 1])| <= |Arrivals(xs)| then j + 1 else j
  }

  /** The bytes received behind the first `j` frames. */
  function Held(ps: seq<Content>, j: nat, xs: seq<Occurrence>): int
    requires j <= |ps|
  {
    |Arrivals(xs)| - |Wires(ps[..j])|
  }

  /** No read brings more than the buffer holds, and no look finds exactly one byte. */
  predicate Smooth(ps: seq<Content>, xs: seq<Occurrence>) {
    xs == [] ||
    (var front, x := xs[..|xs| - 1], xs[|xs| - 1];
     var held := Held(ps, Count(ps, front), xs);
     Smooth(ps, front) && (Looks(x) ==> held != 1 && (x.Arrived? ==> held <= ASCII_SIZE - 2)))
  }

  /** Where the frames of these payloads stand in their stream. */
  function Positions(ps: seq<Content>): (fs: seq<Frame>)
    ensures |fs| == |ps|
  {
    if ps == [] then []
    else Positions(ps[..|ps| - 1]) + [Frame(|Wires(ps[..|ps| - 1])|, |ps[|ps| - 1]|)]
  }

  lemma {:induction false} WiresSplit(ps: seq<Content>, j: nat)
    requires j <= |ps|
    ensures Wires(ps) == Wires(ps[..j]) + Wires(ps[j..])
  {
    hide Wire;
    if j == 0 {
      assert ps[..0] == [] && ps[0..] == ps;
      assert [] + Wires(ps) == Wires(ps);
    } else {
      WiresSplit(ps[1..], j - 1);
      assert ps[1..][..j - 1] == ps[..j][1..] && ps[1..][j - 1..] == ps[j..];
      assert Wire(ps[0]) + (Wires(ps[..j][1..]) + Wires(ps[j..])) == Wires(ps[..j]) + Wires(ps[j..]);
    }
  }

  lemma WiresSnoc(ps: seq<Content>, j: nat)
    requires j < |ps|
    ensures Wires(ps[..j + 1]) == Wires(ps[..j]) + Wire(ps[j])
    ensures Positions(ps[..j + 1]) == Positions(ps[..j]) + [Frame(|Wires(ps[..j])|, |ps[j]|)]
  {
    hide Wire;
    assert ps[..j + 1][..j] == ps[..j] && ps[..j + 1][j..] == [ps[j]] && [ps[j]][1..] == [];
    WiresSplit(ps[..j + 1], j);
    assert Wire(ps[j]) + [] == Wire(ps[j]);
  }

  /** The first `j` frames have been sent on, and the buffer holds all that came after them. */
  ghost predicate Caught(s: State, stream: seq<u8>, log: seq<Frame>, ps: seq<Content>, j: nat) {
    j <= |ps| && s.mode.SyncData? && s.rp == 0 && log == Positions(ps[..j]) &&
    stream == Wires(ps[..j]) + s.ascii[..s.wp]
  }

  /** What the window of a machine that has missed nothing looks like. */
  lemma WindowCases(s: State, stream: seq<u8>, log: seq<Frame>, ps: seq<Content>, j: nat)
    requires Caught(s, stream, log, ps, j) && Sized(ps) && stream <= Wires(ps)
    ensures s.wp == 0 || j < |ps|
    ensures j < |ps| ==>
              var wire, window := Wire(ps[j]), s.ascii[..s.wp];
              if s.wp < |wire| then window == wire[..s.wp] else window == wire + window[|wire|..]
  {
    var window := s.ascii[..s.wp];
    WiresSplit(ps, j);
    hide Wire, Positions;
    PrefixCancel(Wires(ps[..j]), window, Wires(ps[j..]));
    if j < |ps| {
      assert ps[j..][0] == ps[j] && ps[j..][1..] == ps[j + 1..];
      PrefixOfSum(window, Wire(ps[j]), Wires(ps[j + 1..]));
    }
  }

  lemma PrefixCancel(a: seq<u8>, w: seq<u8>, b: seq<u8>)
    requires a + w <= a + b
    ensures w <= b
  {
    assert (a + w)[|a|..] == w && (a + b)[|a|..][..|w|] == b[..|w|];
    assert (a + b)[..|a + w|] == a + w;
  }

  lemma PrefixOfSum(w: seq<u8>, a: seq<u8>, b: seq<u8>)
    requires w <= a + b
    ensures if |w| < |a| then w == a[..|w|] else w == a + w[|a|..]
  {
  }

  /** The machine looks: it sends on the next frame if it is whole, and else leaves the window alone. */
  lemma CatchUp(channel: u8, s: State, stream: seq<u8>, log: seq<Frame>, ps: seq<Content>, j: nat)
    requires Caught(s, stream, log, ps, j) && Sized(ps) && stream <= Wires(ps) && !Drops(s)
    ensures
      var j' := if j < |ps| && |Wire(ps[j])| <= s.wp then j + 1 else j;
      Caught(Sync(channel, s), stream, log + Found(s, |stream|), ps, j')
  {
    hide Sync, Found, Drops, Wires, Positions, Wire;
    WindowCases(s, stream, log, ps, j);
    if s.wp == 0 {
      assert log + [] == log;
      WireLengths(ps, j);
      NothingThere(channel, s, |stream|);
    } else if s.wp < |Wire(ps[j])| {
      assert log + [] == log;
      PieceKept(channel, s, ps[j], |stream|);
    } else {
      FrameCaught(channel, s, stream, log, ps, j, s.ascii[..s.wp][|Wire(ps[j])|..]);
    }
  }

  lemma WireLengths(ps: seq<Content>, j: nat)
    ensures j < |ps| ==> |Wire(ps[j])| >= 3
  {
  }

  lemma FrameCaught(channel: u8, s: State, stream: seq<u8>, log: seq<Frame>, ps: seq<Content>, j: nat, rest: seq<u8>)
    requires Caught(s, stream, log, ps, j) && j < |ps| && 8 <= |ps[j]|
    requires s.ascii[..s.wp] == Wire(ps[j]) + rest
    ensures Caught(Sync(channel, s), stream, log + Found(s, |stream|), ps, j + 1)
  {
    hide Sync, Found, Wires, Positions, Wire, Datagram;
    var done := Wires(ps[..j]);
    WiresSnoc(ps, j);
    NextFrameFound(s, ps[j], rest, |stream|);
    FirstFrameSent(channel, s, ps[j], rest);
    assert done + (Wire(ps[j]) + rest) == done + Wire(ps[j]) + rest;
  }

  lemma NothingThere(channel: u8, s: State, received: nat)
    requires s.mode.SyncData? && s.rp == 0 && s.wp == 0
    ensures Found(s, received) == []
    ensures var r := Sync(channel, s); r.mode.SyncData? && r.rp == r.wp == 0
  {
    hide Recv, Datagram, Overwrite, Scan, FrameAt;
  }

  lemma PieceKept(channel: u8, s: State, p: Content, received: nat)
    requires s.mode.SyncData? && s.rp == 0 && 8 <= |p| && 0 < s.wp < |Wire(p)|
    requires s.ascii[..s.wp] == Wire(p)[..s.wp]
    ensures Drops(s) <==> s.wp == 1
    ensures Found(s, received) == []
    ensures s.wp > 1 ==>
              var r := Sync(channel, s); r.mode.SyncData? && r.rp == 0 && r.ascii[..r.wp] == s.ascii[..s.wp]
  {
    var w := s.ascii[..s.wp];
    assert s.ascii[0] == w[0] == 0x01 && (s.wp > 1 ==> s.ascii[1] == w[1] && w[1] as int == |p|);
    assert Scan(s.ascii, 0, s.wp) == 0;
    PieceWaits(channel, s, p, s.wp);
    hide Sync, Scan;
  }

  lemma NextFrameFound(s: State, p: Content, rest: seq<u8>, received: nat)
    requires s.mode.SyncData? && s.rp == 0 && 8 <= |p| && s.ascii[..s.wp] == Wire(p) + rest
    requires s.wp <= received
    ensures Found(s, received) == [Frame(received - s.wp, |p|)]
  {
    FirstFrameFound(s, p, rest);
    hide Scan;
  }

  /** A lone marker is met: it is the start of frame `j`, and it is gone. */
  lemma MarkerDropped(channel: u8, s: State, stream: seq<u8>, log: seq<Frame>, ps: seq<Content>, j: nat)
    requires Caught(s, stream, log, ps, j) && Sized(ps) && stream <= Wires(ps) && Drops(s)
    ensures j < |ps| && |stream| == |Wires(ps[..j])| + 1
    ensures Found(s, |stream|) == [] && Sync(channel, s).wp == 0 && !Sync(channel, s).mode.RecvData?
  {
    WindowCases(s, stream, log, ps, j);
    if s.wp < |Wire(ps[j])| {
      PieceKept(channel, s, ps[j], |stream|);
    } else {
      FirstFrameFound(s, ps[j], s.ascii[..s.wp][|Wire(ps[j])|..]);
      assert false;
    }
    LoneMarker(channel, s);
  }

  lemma LoneMarker(channel: u8, s: State)
    requires Drops(s)
    ensures Sync(channel, s).wp == 0 && !Sync(channel, s).mode.RecvData?
  {
    hide Recv, Datagram, Overwrite, Scan;
  }

  lemma DropsIff(channel: u8, s: State, stream: seq<u8>, log: seq<Frame>, ps: seq<Content>, j: nat)
    requires Caught(s, stream, log, ps, j) && Sized(ps) && stream <= Wires(ps)
    ensures Drops(s) <==> s.wp == 1
    ensures |stream| == |Wires(ps[..j])| + s.wp
  {
    hide Wires, Positions, Wire, Sync, Found;
    WindowCases(s, stream, log, ps, j);
    if s.wp > 0 {
      WireLengths(ps, j);
      hide Scan;
      if s.wp < |Wire(ps[j])| {
        PieceKept(channel, s, ps[j], |stream|);
      } else {
        FirstFrameFound(s, ps[j], s.ascii[..s.wp][|Wire(ps[j])|..]);
      }
    }
  }

  /** The machine is past the byte `at`, and nothing from `j` on in the log starts there. */
  ghost predicate Lost(s: State, stream: seq<u8>, log: seq<Frame>, j: nat, at: nat) {
    at + s.wp < |stream| && j <= |log| && (j < |log| ==> at < log[j].at)
  }

  lemma LostKeeps(channel: u8, s: State, stream: seq<u8>, log: seq<Frame>, j: nat, at: nat)
    requires Lost(s, stream, log, j, at) && !s.mode.RecvData?
    ensures Lost(Handle(channel, s, PlLoop), stream, log + Found(s, |stream|), j, at)
    ensures Handle(channel, s, PlLoop) == Handle(channel, s, RxAscii)
  {
    hide Sync, Scan, Datagram, Overwrite;
    NothingFound(s, |stream|);
    assert log + [] == log;
    if s.mode.SyncData? && Sends(s) {
      FrameExtracted(channel, s);
      assert Extracted(channel, s, Scan(s.ascii, s.rp, s.wp)).wp <= s.wp;
    } else if s.mode.SyncData? {
      NoFrameCases(channel, s);
    }
  }

  /** The machine has missed nothing, or has lost frame `j`. */
  ghost predicate Stands(channel: u8, s: State, xs: seq<Occurrence>, ps: seq<Content>, j: nat) {
    j <= |ps| &&
    var r, stream, log := Run(channel, s, xs), Arrivals(xs), Log(channel, s, xs);
    if Smooth(ps, xs) then j == Count(ps, xs) && Caught(r, stream, log, ps, j)
    else j < |ps| && Lost(r, stream, log, j, |Wires(ps[..j])|)
  }

  /**
   Of a stream of whole frames, in any pieces and with loop events anywhere between them, the machine
   misses nothing as long as the lengths are smooth, and never finds the frame at which they are not.
   */
  lemma {:induction false} CaughtOrLost(channel: u8, s: State, xs: seq<Occurrence>, ps: seq<Content>)
    returns (j: nat)
    requires Initial(s) && Undisturbed(xs) && Sized(ps) && Arrivals(xs) <= Wires(ps)
    ensures Stands(channel, s, xs, ps, j)
  {
    hide Handle, Store, Found, Drops, Caught, Lost, Wires, Positions, Stands, Smooth, Count, Log, Relayed;
    if xs == [] {
      j := 0;
      NothingYet(channel, s, ps);
    } else {
      var front, x := xs[..|xs| - 1], xs[|xs| - 1];
      assert Undisturbed(front) by { assert forall y <- front :: y in xs; }
      assert Arrivals(front) <= Arrivals(xs);
      j := CaughtOrLost(channel, s, front, ps);
      DatagramsRelayed(channel, s, front);
      assert xs[|xs| - 1] in xs;
      assert front + [x] == xs;
      hide Run, Arrivals;
      j := OneMore(channel, s, front, x, ps, j);
    }
  }

  lemma NothingYet(channel: u8, s: State, ps: seq<Content>)
    requires Initial(s)
    ensures Stands(channel, s, [], ps, 0)
  {
    assert ps[..0] == [] && s.ascii[..0] == [];
  }

  /** What one more read or loop event does to the lengths, and to the run. */
  lemma OneMoreIs(channel: u8, s: State, front: seq<Occurrence>, x: Occurrence, ps: seq<Content>)
    ensures
      var xs, j := front + [x], Count(ps, front);
      var h, held := Run(channel, s, front), Held(ps, j, xs);
      (Smooth(ps, xs) <==> Smooth(ps, front) && (Looks(x) ==> held != 1 && (x.Arrived? ==> held <= ASCII_SIZE - 2))) &&
      Count(ps, xs) == (if Looks(x) && j < |ps| && |Wires(ps[..j + 1])| <= |Arrivals(xs)| then j + 1 else j) &&
      Run(channel, s, xs) == Turn(channel, h, x) &&
      Arrivals(xs) == Arrivals(front) + (if x.Arrived? then x.data else []) &&
      Log(channel, s, xs) == Log(channel, s, front) + if Wakes(h, x) then Found(Seen(h, x), |Arrivals(xs)|) else []
  {
    hide Wires, Found, Turn, Wakes, Looks;
    assert (front + [x])[..|front|] == front;
  }

  /** The read finds room. */
  predicate Roomy(h: State, x: Occurrence) {
    x.Arrived? && x.data != [] ==> h.wp + |x.data| <= ASCII_SIZE - 2
  }

  /** One more read or loop event. */
  lemma OneMore(channel: u8, s: State, front: seq<Occurrence>, x: Occurrence, ps: seq<Content>, j: nat)
    returns (j': nat)
    requires Stands(channel, s, front, ps, j) && Sized(ps) && (x.Arrived? || x.ev.PlLoop?)
    requires Arrivals(front + [x]) <= Wires(ps)
    requires var h := Run(channel, s, front);
             !h.mode.RecvData? && Holds(h.ascii, h.wp, Arrivals(front))
    ensures Stands(channel, s, front + [x], ps, j')
  {
    var h := Run(channel, s, front);
    OneMoreIs(channel, s, front, x, ps);
    hide Smooth, Count, Run, Log, Arrivals, Handle, Store, Found, Wires, Positions, Caught, Lost, Wire, Looks, Holds;
    hide Turn, Drops, Roomy, Wakes, Seen;
    j' := j;
    if Smooth(ps, front) && Roomy(h, x) {
      if Looks(x) {
        j' := LookTaken(channel, h, x, Arrivals(front), Log(channel, s, front), ps, j);
      } else {
        Skipped(channel, h, x, Arrivals(front), Log(channel, s, front), ps, j);
      }
    } else {
      if Smooth(ps, front) {
        Overflowed(h, x, Arrivals(front), Log(channel, s, front), ps, j);
      } else {
        SeenLost(h, x, Arrivals(front), Log(channel, s, front), j, |Wires(ps[..j])|);
      }
      LostGoesOn(channel, h, x, Arrivals(front + [x]), Log(channel, s, front), j, |Wires(ps[..j])|);
    }
  }

  /** A look at a window that has missed nothing. */
  lemma LookTaken(channel: u8, h: State, x: Occurrence, before: seq<u8>, log: seq<Frame>, ps: seq<Content>, j: nat)
    returns (j': nat)
    requires Caught(h, before, log, ps, j) && Roomy(h, x) && Looks(x) && (x.Arrived? || x.ev.PlLoop?)
    requires Sized(ps) && before + (if x.Arrived? then x.data else []) <= Wires(ps)
    ensures
      var stream := before + if x.Arrived? then x.data else [];
      var r, held := Turn(channel, h, x), |stream| - |Wires(ps[..j])|;
      var log' := log + if Wakes(h, x) then Found(Seen(h, x), |stream|) else [];
      held <= ASCII_SIZE - 1 && (x.Arrived? ==> held <= ASCII_SIZE - 2) &&
      if held == 1 then j < |ps| && j' == j && Lost(r, stream, log', j, |Wires(ps[..j])|)
      else
        j' == (if j < |ps| && |Wires(ps[..j + 1])| <= |stream| then j + 1 else j) && Caught(r, stream, log', ps, j')
  {
    var v, stream := Seen(h, x), before + if x.Arrived? then x.data else [];
    assert Caught(h, before, log, ps, j) ==> !h.mode.RecvData?;
    LookIs(channel, h, x);
    SeenCaught(h, x, before, log, ps, j);
    DropsIff(channel, v, stream, log, ps, j);
    CaughtLooks(channel, v, stream, log, ps, j);
    RoomLeft(h, x);
    hide *;
    j' := j;
    if v.wp == 1 {
      MarkerDropped(channel, v, stream, log, ps, j);
      DroppedIsLost(channel, v, stream, log, ps, j);
    } else {
      CatchUp(channel, v, stream, log, ps, j);
      if j < |ps| { WiresSnoc(ps, j); }
      j' := if j < |ps| && |Wire(ps[j])| <= v.wp then j + 1 else j;
    }
  }

  lemma RoomLeft(h: State, x: Occurrence)
    requires Roomy(h, x)
    ensures Seen(h, x).wp <= ASCII_SIZE - 1 && (x.Arrived? && x.data != [] ==> Seen(h, x).wp <= ASCII_SIZE - 2)
  {
    hide Store;
    if x.Arrived? && x.data != [] { StoreAppends(h.ascii, h.wp, x.data); }
  }

  /** A read of no byte. */
  lemma Skipped(channel: u8, h: State, x: Occurrence, before: seq<u8>, log: seq<Frame>, ps: seq<Content>, j: nat)
    requires Caught(h, before, log, ps, j) && !Looks(x)
    ensures
      x.Arrived? && Turn(channel, h, x) == h && !Wakes(h, x) &&
      Caught(h, before + x.data, log + [], ps, j)
  {
    hide Caught;
    assert before + x.data == before && log + [] == log;
  }

  lemma LostGoesOn(channel: u8, h: State, x: Occurrence, stream: seq<u8>, log: seq<Frame>, j: nat, at: nat)
    requires Lost(Seen(h, x), stream, log, j, at) && !h.mode.RecvData? && (x.Arrived? || x.ev.PlLoop?)
    ensures Lost(Turn(channel, h, x), stream, log + (if Wakes(h, x) then Found(Seen(h, x), |stream|) else []), j, at)
  {
    LookIs(channel, h, x);
    hide Seen, Wakes, Found, Turn, Lost, Handle;
    assert log + [] == log;
    LostKeeps(channel, Seen(h, x), stream, log, j, at);
  }

  /** A read that overflows the buffer loses the frame that was next, with all that had come of it. */
  lemma Overflowed(h: State, x: Occurrence, before: seq<u8>, log: seq<Frame>, ps: seq<Content>, j: nat)
    requires Caught(h, before, log, ps, j) && !Roomy(h, x)
    requires before + (if x.Arrived? then x.data else []) <= Wires(ps)
    ensures
      var stream := before + if x.Arrived? then x.data else [];
      x.Arrived? && Looks(x) && j < |ps| && |stream| - |Wires(ps[..j])| > ASCII_SIZE - 2 &&
      Lost(Seen(h, x), stream, log, j, |Wires(ps[..j])|)
  {
    hide Wires, Positions;
    assert ps[..|ps|] == ps;
  }

  lemma CaughtLooks(channel: u8, s: State, stream: seq<u8>, log: seq<Frame>, ps: seq<Content>, j: nat)
    requires Caught(s, stream, log, ps, j)
    ensures Handle(channel, s, PlLoop) == Sync(channel, s)
  {
  }

  lemma SeenCaught(h: State, x: Occurrence, stream: seq<u8>, log: seq<Frame>, ps: seq<Content>, j: nat)
    requires Caught(h, stream, log, ps, j) && Roomy(h, x)
    ensures Caught(Seen(h, x), stream + (if x.Arrived? then x.data else []), log, ps, j)
    ensures Looks(x) && (x.Arrived? || x.ev.PlLoop?) ==> Wakes(h, x)
  {
    if x.Arrived? && x.data != [] {
      hide Wires, Positions, Store;
      StoreAppends(h.ascii, h.wp, x.data);
      assert Wires(ps[..j]) + (h.ascii[..h.wp] + x.data) == Wires(ps[..j]) + h.ascii[..h.wp] + x.data;
    } else {
      hide Wires, Positions;
      assert stream + [] == stream;
    }
  }

  lemma SeenLost(h: State, x: Occurrence, stream: seq<u8>, log: seq<Frame>, j: nat, at: nat)
    requires Lost(h, stream, log, j, at) && Holds(h.ascii, h.wp, stream)
    ensures Lost(Seen(h, x), stream + (if x.Arrived? then x.data else []), log, j, at)
  {
    hide Store;
    if x.Arrived? { StoreHolds(h.ascii, h.wp, stream, x.data); }
  }

  /** An occurrence that wakes the machine lets it look once. */
  lemma LookIs(channel: u8, h: State, x: Occurrence)
    requires !h.mode.RecvData? && (x.Arrived? || x.ev.PlLoop?)
    ensures Turn(channel, h, x) == if Wakes(h, x) then Handle(channel, Seen(h, x), PlLoop) else Seen(h, x)
    ensures Seen(h, x).mode == h.mode
  {
    hide Sync, Store;
  }

  lemma DroppedIsLost(channel: u8, s: State, stream: seq<u8>, log: seq<Frame>, ps: seq<Content>, j: nat)
    requires Caught(s, stream, log, ps, j) && |stream| == |Wires(ps[..j])| + 1 && Sync(channel, s).wp == 0
    ensures Lost(Sync(channel, s), stream, log, j, |Wires(ps[..j])|)
  {
    hide Sync, Wires;
  }

  function Ticks(n: nat): seq<Occurrence> { seq(n, _ => Raised(PlLoop)) }

  /** Loop events alone do not add to the stream. */
  lemma {:induction false} TicksQuiet(ps: seq<Content>, xs: seq<Occurrence>, n: nat)
    requires Undisturbed(xs)
    ensures
      var ys := xs + Ticks(n);
      Undisturbed(ys) && Arrivals(ys) == Arrivals(xs) && (Smooth(ps, ys) ==> Smooth(ps, xs))
  {
    if n == 0 {
      assert xs + Ticks(0) == xs;
    } else {
      TicksQuiet(ps, xs, n - 1);
      OneTick(xs, n);
      var front := xs + Ticks(n - 1);
      assert Arrivals(front) + [] == Arrivals(front);
      hide Wires, Count;
    }
  }

  lemma OneTick(xs: seq<Occurrence>, n: nat)
    requires n > 0
    ensures var ys := xs + Ticks(n);
            ys == xs + Ticks(n - 1) + [Raised(PlLoop)] && ys[..|ys| - 1] == xs + Ticks(n - 1)
  {
    assert Ticks(n) == Ticks(n - 1) + [Raised(PlLoop)];
  }

  /** What the last of `n` loop events adds to a run. */
  lemma TickIs(channel: u8, s: State, xs: seq<Occurrence>, n: nat)
    requires n > 0
    ensures
      var front, ys := xs + Ticks(n - 1), xs + Ticks(n);
      var h := Run(channel, s, front);
      Run(channel, s, ys) == Handle(channel, h, PlLoop) && Arrivals(ys) == Arrivals(front) &&
      Log(channel, s, ys) == Log(channel, s, front) + Found(h, |Arrivals(front)|)
  {
    hide Handle, Found, Drops;
    OneTick(xs, n);
    assert Arrivals(xs + Ticks(n - 1)) + [] == Arrivals(xs + Ticks(n - 1));
  }

  /** Once the whole stream is there, each loop event sends on one frame. */
  lemma TickCaught(channel: u8, s: State, stream: seq<u8>, log: seq<Frame>, ps: seq<Content>, j: nat)
    requires Caught(s, stream, log, ps, j) && Sized(ps) && stream == Wires(ps)
    ensures !Drops(s)
    ensures Caught(Handle(channel, s, PlLoop), stream, log + Found(s, |stream|), ps, if j < |ps| then j + 1 else j)
  {
    hide Handle, Found, Drops, Wires, Positions, Caught, Sync, Wire;
    NothingCut(s, stream, log, ps, j);
    CaughtLooks(channel, s, stream, log, ps, j);
    CatchUp(channel, s, stream, log, ps, j);
  }

  lemma {:induction false} TicksFinish(channel: u8, s: State, xs: seq<Occurrence>, ps: seq<Content>, j: nat, n: nat)
    requires Sized(ps) && Arrivals(xs) == Wires(ps) && j <= |ps|
    requires Caught(Run(channel, s, xs), Wires(ps), Log(channel, s, xs), ps, j)
    ensures
      var ys := xs + Ticks(n);
      var j' := if j + n <= |ps| then j + n else |ps|;
      Arrivals(ys) == Wires(ps) &&
      Caught(Run(channel, s, ys), Wires(ps), Log(channel, s, ys), ps, j')
  {
    hide Handle, Found, Drops, Wires, Positions, Caught, Run, Log, Arrivals;
    if n == 0 {
      assert xs + Ticks(0) == xs;
    } else {
      var front := xs + Ticks(n - 1);
      TicksFinish(channel, s, xs, ps, j, n - 1);
      TickIs(channel, s, xs, n);
      var i := if j + n - 1 <= |ps| then j + n - 1 else |ps|;
      TickCaught(channel, Run(channel, s, front), Wires(ps), Log(channel, s, front), ps, i);
    }
  }

  /** With the whole stream received the window consists of whole frames. */
  lemma NothingCut(s: State, stream: seq<u8>, log: seq<Frame>, ps: seq<Content>, j: nat)
    requires Caught(s, stream, log, ps, j) && Sized(ps) && stream == Wires(ps)
    ensures !Drops(s) && (j < |ps| ==> |Wire(ps[j])| <= s.wp)
  {
    WiresSplit(ps, j);
    PrefixCancel(Wires(ps[..j]), s.ascii[..s.wp], Wires(ps[j..]));
    PrefixCancel(Wires(ps[..j]), Wires(ps[j..]), s.ascii[..s.wp]);
    if j < |ps| {
      assert ps[j..][0] == ps[j] && ps[j..][1..] == ps[j + 1..];
      FirstFrameFound(s, ps[j], Wires(ps[j + 1..]));
    } else {
      assert ps[j..] == [];
    }
    hide Scan, Wire;
  }

  /**
   Completeness: a capture of a stream of whole frames, in any reads and with loop events anywhere
   between them, sends on exactly these frames if and only if no read brings more than the buffer has
   room for and the machine never looks when it holds the first byte of a frame and no more.
   */
  lemma CompleteIff(channel: u8, s: State, xs: seq<Occurrence>, ps: seq<Content>)
    requires Initial(s) && Undisturbed(xs) && Sized(ps) && Arrivals(xs) == Wires(ps)
    ensures Log(channel, s, xs + Ticks(|ps|)) == Positions(ps) <==> Smooth(ps, xs)
  {
    hide Initial, Run, Log, Wires, Drops, Found, Ticks, Smooth, Count;
    var ys := xs + Ticks(|ps|);
    TicksQuiet(ps, xs, |ps|);
    var j := CaughtOrLost(channel, s, xs, ps);
    assert ps[..|ps|] == ps;
    if Smooth(ps, xs) {
      TicksFinish(channel, s, xs, ps, j, |ps|);
    } else {
      var i := CaughtOrLost(channel, s, ys, ps);
      PositionAt(ps, i);
    }
  }

  lemma {:induction false} PositionAt(ps: seq<Content>, k: nat)
    requires k < |ps|
    ensures Positions(ps)[k] == Frame(|Wires(ps[..k])|, |ps[k]|)
  {
    if k < |ps| - 1 {
      PositionAt(ps[..|ps| - 1], k);
      assert ps[..|ps| - 1][..k] == ps[..k];
    }
  }

  lemma PositionPayload(ps: seq<Content>, k: nat)
    requires k < |ps| && Positions(ps)[k].In(Wires(ps))
    ensures Positions(ps)[k].Payload(Wires(ps)) == ps[k]
  {
    hide Wires, Positions, Wire, Frame.In, Frame.Payload;
    var f, a, b := Positions(ps)[k], Wires(ps[..k]), Wires(ps[k..][1..]);
    PositionAt(ps, k);
    WiresSplit(ps, k);
    WiresHead(ps[k..]);
    PayloadBehind(a, ps[k], b);
    PayloadIs(f, Wires(ps));
  }

  lemma WiresHead(ps: seq<Content>)
    requires ps != []
    ensures Wires(ps) == Wire(ps[0]) + Wires(ps[1..])
  {
  }

  lemma PayloadIs(f: Frame, stream: seq<u8>)
    requires f.In(stream)
    ensures f.at + 2 + f.length <= |stream| && f.Payload(stream) == stream[f.at + 2..f.at + 2 + f.length]
  {
  }

  lemma PayloadBehind(a: seq<u8>, p: Content, b: seq<u8>)
    ensures |a| + 2 + |p| <= |a + (Wire(p) + b)| && (a + (Wire(p) + b))[|a| + 2..|a| + 2 + |p|] == p
  {
    var w := Wire(p) + b;
    assert w[2..2 + |p|] == p;
    assert (a + w)[|a| + 2..|a| + 2 + |p|] == w[2..2 + |p|];
  }

  /** The datagrams of such a capture: all payloads, in order, numbered from 0. */
  lemma AllSent(channel: u8, s: State, xs: seq<Occurrence>, ps: seq<Content>)
    requires Initial(s) && Undisturbed(xs) && Sized(ps) && Arrivals(xs) == Wires(ps) && Smooth(ps, xs)
    ensures
      var r := Run(channel, s, xs + Ticks(|ps|));
      |r.sent| == |ps| && forall k | 0 <= k < |ps| :: r.sent[k] == Datagram(channel, Number(k), ps[k])
  {
    hide Initial, Run, Log, Wires, Drops, Found, Ticks, Positions, Datagram, Smooth;
    var ys := xs + Ticks(|ps|);
    TicksQuiet(ps, xs, |ps|);
    CompleteIff(channel, s, xs, ps);
    DatagramsRelayed(channel, s, ys);
    var r := Run(channel, s, ys);
    forall k | 0 <= k < |ps| ensures r.sent[k] == Datagram(channel, Number(k), ps[k]) {
      assert Relays(channel, Wires(ps), Positions(ps)[k], k, r.sent[k]);
      PositionPayload(ps, k);
    }
  }

  lemma OneFrame(p: Content)
    ensures Wires([p]) == Wire(p) && Positions([p]) == [Frame(0, |p|)] && Wires([p][..0]) == []
  {
    assert [p][1..] == [] && [p][..0] == [];
    assert Wire(p) + [] == Wire(p);
  }

  /** The first `k` bytes of a frame have come, and loop events: nothing is sent yet. */
  lemma {:induction false} PieceRemains(p: Content, k: nat, n: nat)
    requires 8 <= |p| && 0 < k < |Wire(p)|
    ensures
      var xs := [Arrived(Wire(p)[..k])] + Ticks(n);
      Undisturbed(xs) && Arrivals(xs) == Wire(p)[..k] && Count([p], xs) == 0 && (Smooth([p], xs) <==> k != 1)
  {
    var a := Wire(p)[..k];
    OneFrame(p);
    WireLength(p);
    hide Wire, Wires;
    if n == 0 {
      assert [Arrived(a)] + Ticks(0) == [Arrived(a)] && [Arrived(a)][..0] == [];
      assert [] + a == a && [p][..1] == [p];
    } else {
      PieceRemains(p, k, n - 1);
      OneTick([Arrived(a)], n);
      assert a + [] == a && [p][..1] == [p];
    }
  }

  /**
   A frame that arrives in two pieces, with any number of loop events between them, is sent on if and
   only if the first piece is more than its marker.
   */
  lemma SplitFrameSentIff(channel: u8, s: State, p: Content, k: nat, n: nat)
    requires Initial(s) && 8 <= |p| && 0 < k < |Wire(p)|
    ensures
      var xs := [Arrived(Wire(p)[..k])] + Ticks(n) + [Arrived(Wire(p)[k..])];
      Log(channel, s, xs + Ticks(1)) == [Frame(0, |p|)] <==> k != 1
  {
    var front, rest := [Arrived(Wire(p)[..k])] + Ticks(n), Wire(p)[k..];
    PieceRemains(p, k, n);
    OneFrame(p);
    WireLength(p);
    assert Wire(p)[..k] + rest == Wire(p);
    hide Log, Run, Wires, Wire, Initial, Positions, Ticks, Found;
    OneMoreIs(channel, s, front, Arrived(rest), [p]);
    CompleteIff(channel, s, front + [Arrived(rest)], [p]);
  }
}
