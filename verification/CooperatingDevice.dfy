/**
 A whole run from the start of the program to the success report: for every firmware file there is
 an environment and a device with which the upload succeeds, and the device then holds the image.
 */
module CooperatingDevice {
  import opened Bytes
  import opened Flasher
  import FlasherInvariant
  import opened Framing
  import opened GcfFile
  import opened Input
  import opened MainLoop
  import opened OpenPort
  import opened Trace
  import opened Transmit
  import opened Upload

  const IDENT: seq<u8> := [0x81, 0x82, 0, 0, 0, 0, 0, 0, 0, 0]
  const ACCEPT: seq<u8> := [0x81, 0x83, 0]

  /** A read that returns one whole frame. */
  function Chunk(p: seq<u8>): Poll { Polled(false, Frame(p), false) }

  /** What a Hive's firmware type makes of a ConBee II's path. */
  function DeviceOf(file: seq<u8>): Device {
    if Parse(file).Parsed? && Parse(file).header.fileType == APP_ENCRYPTED then Hive else ConBee2
  }

  /**
   A device whose port opens and takes every byte. The clock stands still but for one second, which
   passes while the device is in its bootloader and the port is still closed.
   */
  function CalmWorld(file: seq<u8>): World {
    World(Config(TaskProgram, DeviceOf(file), file, None), k => if k < 8 then 0 else 1000,
          _ => true, _ => true, _ => true, _ => seq(FLUSH_MAX, _ => Wrote(1)))
  }

  lemma {:induction false} OnesAccepted(n: nat, k: nat)
    requires n <= k
    ensures Transmit.Accepted(n, seq(k, _ => Wrote(1))) == n
  {
    if n > 0 {
      assert seq(k, _ => Wrote(1))[1..] == seq(k - 1, _ => Wrote(1));
      OnesAccepted(n - 1, k - 1);
    }
  }

  lemma CalmFacts(file: seq<u8>)
    ensures Willing(CalmWorld(file)) && FlasherInvariant.Monotone(CalmWorld(file))
  {
    forall k: nat, n: nat | n <= FLUSH_MAX ensures Transmit.Accepted(n, CalmWorld(file).writes(k)) == n {
      OnesAccepted(n, FLUSH_MAX);
    }
  }

  /** A short message leaves an empty ring at once. */
  lemma SendDrains(w: World, g: G, bytes: seq<u8>)
    requires g.port.connected && g.port.queue == [] && |bytes| <= 100 && Willing(w)
    ensures var r := w.SendFlagged(g, bytes);
            r == g.(port := r.port, calls := g.calls + 1, trace := r.trace) &&
            r.port.connected && r.port.queue == []
  {
    hide World.SendFlagged, Frame, Transmit.Accepted;
    SentFlagged(w, g, bytes);
    FrameFitsRing(bytes);
    PutAllKeepsNewest(g.port, Frame(bytes));
    assert [] + Frame(bytes) == Frame(bytes);
    FullFlush(PutAll(g.port, Frame(bytes)), w.writes(g.calls));
  }

  /** A turn that reads the frame of one packet, seen from the handling of the packet. */
  lemma FrameTurn(w: World, g: G, p: seq<u8>)
    requires g.running && !g.trapped && g.timer != 0 && InTime(w, g) && g.port.connected && g.rx == CLEAN
    requires 1 <= |p| <= HOST_BUFFER - 2
    ensures
      var text := w.ReceiveText(g.(calls := g.calls + 1), Frame(p));
      var h := w.Packet(text, p);
      text.rx == CLEAN && !text.trapped && !h.trapped && h.port.queue == [] ==> w.Iterate(g, Chunk(p)) == h
  {
    hide World.Packet, World.ReceiveText, Run, Frame, World.FlushPort;
    FrameFromClean(HOST_BUFFER, p);
    var g1 := g.(calls := g.calls + 1);
    PolledTurn(w, g, Frame(p));
    var text := w.ReceiveText(g1, Frame(p));
    FrameLength(p);
    if text.rx == CLEAN && !text.trapped {
      assert [p][..0] == [];
      assert w.Packets(text, [p]) == w.Packet(text, p);
      assert text == text.(rx := CLEAN);
      assert w.Received(g1, Frame(p)) == w.Packet(text, p);
    }
  }

  lemma FrameLength(p: seq<u8>)
    ensures 2 <= |Frame(p)| <= 2 * |p| + 6
  {
    FrameFitsRing(p);
  }

  // ----- to the bootloader -----

  lemma Starts(file: seq<u8>)
    requires Parse(file).Parsed?
    ensures
      var r := CalmWorld(file).Loop([]);
      r.running && !r.trapped && r.state.Reset? && r.substate.ResetUart? && r.calls == 5 && r.timer == 3000 &&
      r.port.connected && r.rx == CLEAN
  {
    var w := CalmWorld(file);
    CalmFacts(file);
    var g := w.Boot();
    var g1 := w.ProcessCommandline(g.(calls := 2));
    assert g1 == g.(state := Program, substate := NoSub, calls := 2, maxTime := g1.maxTime, trace := g1.trace);
    assert w.Handle(g, Started) == w.StInit(g, Started) == w.Handle(g1, Action);
    hide World.ProcessCommandline, World.StInit, Parse;
    var g2 := Log(g1.(state := State.Reset), EnterReset);
    assert w.Handle(g1, Action) == w.StProgram(g1, Action) == w.Handle(g2, Action);
    var g3 := g2.(wp := 0, substate := ResetUart);
    assert w.Handle(g2, Action) == w.StReset(g2, Action) == w.StResetUart(g3, Action);
    hide World.Handle;
    var g4 := w.Connect(w.SetTimeout(g3, 3000));
    assert w.StResetUart(g3, Action) == w.SendFlagged(g4, CMD_RESET_UART);
    hide World.SendFlagged;
    SendDrains(w, g4, CMD_RESET_UART);
  }

  /** The device restarts into its bootloader: the port hangs up. */
  lemma HangsUp(file: seq<u8>, g: G)
    requires g.running && !g.trapped && g.state.Reset? && g.substate.ResetUart? && g.calls == 5 && g.timer == 3000
    requires g.port.connected && g.rx == CLEAN
    ensures
      var r := CalmWorld(file).Iterate(g, Polled(true, [], false));
      r.running && !r.trapped && r.state.BootloaderConnect? && r.calls == 8 && r.timer == 500 &&
      !r.port.connected && r.rx == CLEAN
  {
    var w := CalmWorld(file);
    var g1 := g.(calls := 6);
    assert w.CheckTimer(g) == g1;
    var g2 := g1.(port := Port(false, [], g.port.wire));
    assert w.Iterate(g, Polled(true, [], false)) == w.Disconnect(g1) == w.Handle(g2, Disconnected);
    assert w.Handle(g2, Disconnected) == w.StReset(g2, Disconnected) == w.StResetUart(g2, Disconnected);
    var g3 := w.SetTimeout(g2, 500);
    assert w.StResetUart(g2, Disconnected) == w.Handle(g3, UartResetSuccess) == w.StReset(g3, UartResetSuccess);
    var g4 := Log(g3.(substate := NoSub, state := Program), LeaveReset);
    assert w.StReset(g3, UartResetSuccess) == w.Handle(g4, ResetSuccess) == w.StProgram(g4, ResetSuccess);
  }

  /** Half a second later the port opens again. */
  lemma Reconnects(file: seq<u8>, g: G)
    requires g.running && !g.trapped && g.state.BootloaderConnect? && g.calls == 8 && g.timer == 500
    requires !g.port.connected && g.rx == CLEAN
    ensures
      var r := CalmWorld(file).Iterate(g, Idle);
      r.running && !r.trapped && r.state.BootloaderQuery? && r.calls >= 8 && r.timer == 1200 && r.wp == 0 &&
      r.port.connected && r.port.queue == [] && r.rx == CLEAN
  {
    var w := CalmWorld(file);
    var g1 := g.(calls := 9, timer := 0);
    assert w.Iterate(g, Idle) == w.CheckTimer(g) == w.Handle(g1, Timeout);
    assert w.Handle(g1, Timeout) == w.StBootloaderConnect(g1, Timeout);
    var g2 := w.Connect(g1).(state := BootloaderQuery);
    assert w.StBootloaderConnect(g1, Timeout) == w.Handle(g2, Action) == w.StBootloaderQuery(g2, Action);
  }

  // ----- to the upload -----

  lemma Identifies(file: seq<u8>, g: G)
    requires g.running && !g.trapped && g.state.BootloaderQuery? && g.calls >= 8 && g.timer == 1200 && g.wp == 0
    requires g.port.connected && g.port.queue == [] && g.rx == CLEAN
    ensures
      var r := CalmWorld(file).Iterate(g, Chunk(IDENT));
      r.running && !r.trapped && r.state.V3Sync? && r.calls >= 8 && r.timer == 2000 &&
      r.port.connected && r.port.queue == [] && r.rx == CLEAN
  {
    var w := CalmWorld(file);
    CalmFacts(file);
    var g1 := g.(calls := g.calls + 1);
    FrameTurn(w, g, IDENT);
    FrameLength(IDENT);
    StoreAppends(g.ascii, 0, Frame(IDENT));
    var (a, n, _) := Store(g.ascii, 0, Frame(IDENT));
    var text := g1.(ascii := a, wp := n);
    assert w.ReceiveText(g1, Frame(IDENT)) == text by {
      assert w.Handle(text, RxAscii) == w.StBootloaderQuery(text, RxAscii) == text;
    }
    Identified(file, text);
    hide World.Iterate, World.ReceiveText, World.Packet, Frame, Store;
  }

  lemma Identified(file: seq<u8>, g: G)
    requires g.running && !g.trapped && g.state.BootloaderQuery? && g.calls >= 8
    requires g.port.connected && g.port.queue == [] && g.rx == CLEAN
    ensures
      var r := CalmWorld(file).Packet(g, IDENT);
      r.running && !r.trapped && r.state.V3Sync? && r.calls >= 8 && r.timer == 2000 &&
      r.port.connected && r.port.queue == [] && r.rx == CLEAN
  {
    var w := CalmWorld(file);
    CalmFacts(file);
    var g1 := Deliver(g, IDENT);
    assert w.Packet(g, IDENT) == w.Handle(g1, RxBootloader) == w.StBootloaderQuery(g1, RxBootloader);
    var g2 := g1.(state := V3Sync);
    assert w.StBootloaderQuery(g1, RxBootloader) == w.Handle(g2, Action) == w.StV3Sync(g2, Action);
    var request := V3SyncRequest(w.Head());
    var g3 := w.SetTimeout(g2, 1000);
    assert w.StV3Sync(g2, Action) == w.SendFlagged(g3, request);
    hide World.SendFlagged, World.Head, World.Packet, World.Handle, World.StV3Sync, World.StBootloaderQuery;
    SendDrains(w, g3, request);
  }

  lemma Accepts(file: seq<u8>, g: G)
    requires g.running && !g.trapped && g.state.V3Sync? && g.calls >= 8 && g.timer == 2000
    requires g.port.connected && g.port.queue == [] && g.rx == CLEAN
    ensures
      var r := CalmWorld(file).Iterate(g, Chunk(ACCEPT));
      Settled(r) && r.state.V3Upload? && Calm(r)
  {
    var w := CalmWorld(file);
    var g1 := g.(calls := g.calls + 1);
    FrameTurn(w, g, ACCEPT);
    assert w.ReceiveText(g1, Frame(ACCEPT)) == g1;
    var g2 := Deliver(g1, ACCEPT);
    assert w.Packet(g1, ACCEPT) == w.Handle(g2, RxBootloader) == w.StV3Sync(g2, RxBootloader);
    assert w.StV3Sync(g2, RxBootloader) == w.SetTimeout(Log(g2, Note.Accepted).(state := V3Upload), 3000);
    hide World.Iterate, World.ReceiveText, World.Packet, Frame;
  }

  /** The clock no longer moves, and the timer is ahead of it. */
  ghost predicate Calm(g: G) { g.calls >= 8 && g.timer >= 1000 }

  function Greeting(): seq<Poll> { [Polled(true, [], false), Idle, Chunk(IDENT), Chunk(ACCEPT)] }

  lemma Greets(file: seq<u8>)
    requires Parse(file).Parsed?
    ensures var g := CalmWorld(file).Loop(Greeting());
            Settled(g) && g.state.V3Upload? && Calm(g)
  {
    var w, ps := CalmWorld(file), Greeting();
    assert ps[..4][..3] == ps[..3] && ps[..3][..2] == ps[..2] && ps[..2][..1] == ps[..1] && ps[..1][..0] == [];
    hide CalmWorld, World.Iterate, World.Handle, Settled, Calm;
    Starts(file);
    HangsUp(file, w.Loop([]));
    assert w.Loop(ps[..1]) == w.Iterate(w.Loop([]), ps[0]);
    Reconnects(file, w.Loop(ps[..1]));
    assert w.Loop(ps[..2]) == w.Iterate(w.Loop(ps[..1]), ps[1]);
    Identifies(file, w.Loop(ps[..2]));
    assert w.Loop(ps[..3]) == w.Iterate(w.Loop(ps[..2]), ps[2]);
    Accepts(file, w.Loop(ps[..3]));
    assert w.Loop(ps[..4]) == w.Iterate(w.Loop(ps[..3]), ps[3]);
    assert ps[..4] == ps;
  }

  // ----- the upload, piece by piece -----

  /** An empty image takes one request too, for no byte. */
  function PieceCount(size: nat): nat { if size == 0 then 1 else (size + MAX_CHUNK - 1) / MAX_CHUNK }

  function Piece(size: nat, i: nat): Request
    requires i < PieceCount(size) && size < MAX_FILE_SIZE
  {
    var left := size - MAX_CHUNK * i;
    Request(MAX_CHUNK * i, if left < MAX_CHUNK then left else MAX_CHUNK)
  }

  lemma PieceFacts(size: nat, i: nat)
    requires i < PieceCount(size) && size < MAX_FILE_SIZE
    ensures var q := Piece(size, i);
            (size > 0 ==> q.Status(size) == 0) && (q.Ends(size) <==> i == PieceCount(size) - 1)
  {
  }

  /** The first `k` pieces, each requested by a frame that one read returns. */
  function Exchanges(size: nat, k: nat): (xs: seq<Exchange>)
    requires k <= PieceCount(size) && size < MAX_FILE_SIZE
    ensures |xs| == k
  {
    seq(k, i requires 0 <= i < k => Exchange(Piece(size, i), [Chunk(Piece(size, i).Bytes())]))
  }

  function Pulls(size: nat, k: nat): (ps: seq<Poll>)
    requires k <= PieceCount(size) && size < MAX_FILE_SIZE
    ensures |ps| == k
  {
    seq(k, i requires 0 <= i < k => Chunk(Piece(size, i).Bytes()))
  }

  /** One request in one read: it is answered, the reply leaves, and the timer stays ahead. */
  lemma OneExchange(file: seq<u8>, g: G, q: Request)
    requires Settled(g) && Calm(g) && |CalmWorld(file).Image()| < MAX_FILE_SIZE
    ensures
      var w, polls := CalmWorld(file), [Chunk(q.Bytes())];
      var r := w.Iterate(g, Chunk(q.Bytes()));
      Turns(w, g, polls) == r && Inputs(polls) == Frame(q.Bytes()) && Prompt(w, g, polls) &&
      r.port.queue == [] && Calm(r)
  {
    var w, frame, polls := CalmWorld(file), Frame(q.Bytes()), [Chunk(q.Bytes())];
    CalmFacts(file);
    assert InTime(w, g) && w.now(g.calls + 1) == w.now(g.calls + 3) == 1000;
    hide CalmWorld, World.Iterate, World.Image, Frame, Run, World.Received, World.Serve, SendFlagged, Willing;
    assert polls[..0] == [];
    assert Turns(w, g, polls[..0]) == g && Prompt(w, g, polls[..0]) && Inputs(polls[..0]) == [];
    assert [] + frame == frame && frame + [] == frame;
    TurnsDrain(w, g, q, polls, []);
    FrameFromClean(HOST_BUFFER, q.Bytes());
    if g.state.V3Upload? {
      AnswerTurn(w, g, frame, q);
      Flushed(w, w.Received(g.(calls := g.calls + 1), frame));
    } else {
      UnheardTurn(w, g, q);
    }
  }

  /** A request behind the end of the upload only costs a look at the clock. */
  lemma UnheardTurn(w: World, g: G, q: Request)
    requires Settled(g) && g.state.V3WaitID? && InTime(w, g)
    ensures var r := w.Iterate(g, Chunk(q.Bytes())); r.timer == g.timer && r.calls == g.calls + 1
  {
    var g1 := g.(calls := g.calls + 1);
    FrameTurn(w, g, q.Bytes());
    RequestReads(g, q);
    assert w.ReceiveText(g1, Frame(q.Bytes())) == g1;
    var g2 := Deliver(g1, q.Bytes());
    assert w.Packet(g1, q.Bytes()) == w.Handle(g2, RxBootloader) == w.StV3WaitID(g2, RxBootloader) == g2;
    hide World.Iterate, World.ReceiveText, World.Packet, Frame;
  }

  lemma {:induction false} Uploading(file: seq<u8>, g: G, k: nat)
    requires Settled(g) && g.state.V3Upload? && Calm(g)
    requires |CalmWorld(file).Image()| < MAX_FILE_SIZE && k <= PieceCount(|CalmWorld(file).Image()|)
    ensures
      var w, size := CalmWorld(file), |CalmWorld(file).Image()|;
      var r := Session(w, g, Exchanges(size, k));
      Orderly(w, g, Exchanges(size, k)) && Settled(r) && Calm(r) && r == Turns(w, g, Pulls(size, k)) &&
      (r.state.V3WaitID? <==> k == PieceCount(size))
  {
    var w := CalmWorld(file);
    hide CalmWorld, World.Iterate, World.Image, Frame, Settled, Calm, PieceCount, Piece, Request.Bytes, Request.Ends;
    hide Prompt, Inputs, Request.Status;
    var size := |w.Image()|;
    if k == 0 {
      SomePiece(size);
      assert Settled(g) ==> g.port.queue == [] by { SettledDrained(g); }
    } else {
      Uploading(file, g, k - 1);
      var h, q := Session(w, g, Exchanges(size, k - 1)), Piece(size, k - 1);
      assert Exchanges(size, k)[..k - 1] == Exchanges(size, k - 1);
      assert Pulls(size, k)[..k - 1] == Pulls(size, k - 1);
      StillUploading(h);
      OneExchange(file, h, q);
      ExchangeOk(w, h, Exchanges(size, k)[k - 1]);
      PieceFacts(size, k - 1);
    }
  }

  lemma SettledDrained(g: G)
    requires Settled(g)
    ensures g.port.queue == []
  {
  }

  lemma StillUploading(g: G)
    requires Settled(g) && !g.state.V3WaitID?
    ensures g.state.V3Upload?
  {
  }

  lemma Verified(file: seq<u8>, g: G)
    requires Settled(g) && g.state.V3WaitID? && Calm(g)
    ensures var r := CalmWorld(file).Iterate(g, Chunk(IDENT));
            !r.running && r.trace == g.trace + [Got(IDENT), V3Done] && r.port == g.port
  {
    var w := CalmWorld(file);
    var g1 := g.(calls := g.calls + 1);
    FrameTurn(w, g, IDENT);
    assert w.ReceiveText(g1, Frame(IDENT)) == g1;
    var g2 := Deliver(g1, IDENT);
    assert w.Packet(g1, IDENT) == w.Handle(g2, RxBootloader) == w.StV3WaitID(g2, RxBootloader);
    assert w.StV3WaitID(g2, RxBootloader) == ShutDown(Log(g2, V3Done));
    hide World.Iterate, World.ReceiveText, World.Packet, Frame;
  }

  /** The pieces cover the image. */
  lemma PiecesCover(size: nat, qs: seq<Request>, k: nat)
    requires k < size < MAX_FILE_SIZE && |qs| == PieceCount(size)
    requires forall i | 0 <= i < |qs| :: qs[i] == Piece(size, i)
    ensures Covered(qs, size, k)
  {
    var i := k / MAX_CHUNK;
    PieceFacts(size, i);
    assert qs[i] == Piece(size, i) && Covers(qs[i], size, k);
  }

  lemma {:induction false} AllHeard(size: nat, k: nat)
    requires k <= PieceCount(size) && size < MAX_FILE_SIZE
    ensures Heard(size, Requests(Exchanges(size, k))) == Requests(Exchanges(size, k))
  {
    var qs := Requests(Exchanges(size, k));
    HeardIsPrefix(size, qs);
    if k > 0 {
      forall i | 0 <= i < k - 1 ensures !qs[i].Ends(size) { PieceFacts(size, i); }
      assert forall q <- qs[..k - 1] :: !q.Ends(size);
    }
  }

  /**
   From the start of the program to the success report: for every file that parses, with an image of
   less than 4 MiB, this run ends
   with the report, and a device that unframes and stores what it was sent holds the whole image.
   */
  lemma DeviceProgrammed(file: seq<u8>, mem: seq<u8>, cap: nat)
    requires Parse(file).Parsed? && |CalmWorld(file).Image()| < MAX_FILE_SIZE
    requires |mem| == |CalmWorld(file).Image()| && cap >= 491
    ensures
      var w, image := CalmWorld(file), CalmWorld(file).Image();
      var start := w.Loop(Greeting()).port.wire;
      var r := w.Loop(Greeting() + Pulls(|image|, PieceCount(|image|)) + [Chunk(IDENT)]);
      FlasherInvariant.Monotone(w) && !r.running && r.trace != [] && r.trace[|r.trace| - 1] == V3Done &&
      start <= r.port.wire &&
      Flashed(mem, Run(cap, CLEAN, r.port.wire[|start|..]).packets) == image
  {
    var w, image := CalmWorld(file), CalmWorld(file).Image();
    CalmFacts(file);
    hide CalmWorld, World.Image, World.Iterate, World.Handle, World.Loop, Settled, Calm, Run, Flashed, Greeting;
    hide Pulls, Chunk, Session, Orderly, Heard, PieceCount, Piece, Covered;
    var size := |image|;
    var k := PieceCount(size);
    var greeting, pulls := Greeting(), Pulls(size, k);
    var g := w.Loop(greeting);
    Greets(file);
    Uploading(file, g, k);
    SomePiece(size);
    var xs := Exchanges(size, k);
    var h := Session(w, g, xs);
    LoopContinues(w, greeting, pulls);
    LoopContinues(w, greeting + pulls, [Chunk(IDENT)]);
    OneTurn(w, h, Chunk(IDENT));
    Verified(file, h);
    DeviceHoldsImage(w, g, xs, cap, mem);
    AllHeard(size, k);
    var device := Flashed(mem, Run(cap, CLEAN, h.port.wire[|g.port.wire|..]).packets);
    forall j | 0 <= j < size ensures device[j] == image[j] {
      assert forall i | 0 <= i < k :: Requests(xs)[i] == Piece(size, i);
      PiecesCover(size, Requests(xs), j);
    }
    assert device == image;
  }

  /**
   An image of 4 MiB, the largest there is, cannot be uploaded in this way: the request for its first
   byte stops the program.
   */
  lemma LargestImageStops(w: World, g: G, q: Request)
    requires g.state.V3Upload? && g.port.connected && !g.trapped
    requires |w.Image()| == 0x40_0000 && q.offset == 0
    ensures w.AnswerDataRequest(g, q.offset, q.length).trapped <==> 1 <= q.length as int <= 480
  {
    hide World.SendFlagged, SendFlagged, World.Image, Overwrite, Reply;
    var g1 := Log(w.SetTimeout(g, 5000).(remaining := 0), Asked(q.offset, q.length));
    var response := Reply(w.Image(), q.offset, q.length);
    SentFlagged(w, g1.(ascii := Overwrite(g1.ascii, response)), response);
  }

  /** The run in which the last byte of a two-byte image is asked for first: the first never arrives. */
  lemma LastPieceFirstRun(file: seq<u8>, mem: seq<u8>, cap: nat)
    requires Parse(file).Parsed? && |CalmWorld(file).Image()| == |mem| == 2 && cap >= 491
    ensures
      var w, start := CalmWorld(file), CalmWorld(file).Loop(Greeting()).port.wire;
      var r := w.Loop(Greeting() + [Chunk(Request(1, 1).Bytes()), Chunk(Request(0, 1).Bytes())]);
      start <= r.port.wire &&
      var device := Flashed(mem, Run(cap, CLEAN, r.port.wire[|start|..]).packets);
      device[0] == mem[0] && device[1] == w.Image()[1]
  {
    var w := CalmWorld(file);
    assert 2 < MAX_FILE_SIZE;
    hide *;
    var p, q := Request(1, 1), Request(0, 1);
    var g := w.Loop(Greeting());
    Greets(file);
    TwoRequests(file, g, p, q);
    LoopContinues(w, Greeting(), [Chunk(p.Bytes()), Chunk(q.Bytes())]);
    LastPieceFirst(w, g, Pair(p, q), cap, mem);
  }

  function Pair(p: Request, q: Request): seq<Exchange> {
    [Exchange(p, [Chunk(p.Bytes())]), Exchange(q, [Chunk(q.Bytes())])]
  }

  lemma TwoRequests(file: seq<u8>, g: G, p: Request, q: Request)
    requires Settled(g) && g.state.V3Upload? && Calm(g) && |CalmWorld(file).Image()| < MAX_FILE_SIZE
    ensures
      var w, xs := CalmWorld(file), Pair(p, q);
      Orderly(w, g, xs) && Session(w, g, xs) == Turns(w, g, [Chunk(p.Bytes()), Chunk(q.Bytes())]) &&
      Requests(xs) == [p, q]
  {
    var w, a, b := CalmWorld(file), Chunk(p.Bytes()), Chunk(q.Bytes());
    assert Requests(Pair(p, q)) == [p, q];
    hide CalmWorld, World.Image, World.Iterate, Settled, Calm, Chunk, Prompt, Inputs, Frame, Session, Orderly, Turns;
    hide Request.Bytes, Requests;
    OneExchange(file, g, p);
    ExchangeOk(w, g, Exchange(p, [a]));
    OneExchange(file, w.Iterate(g, a), q);
    TwoExchanges(w, g, Exchange(p, [a]), Exchange(q, [b]));
    TwoTurns(w, g, a, b);
  }

  lemma TwoExchanges(w: World, g: G, x: Exchange, y: Exchange)
    ensures
      var h := Turns(w, g, x.polls);
      Session(w, g, [x, y]) == Turns(w, h, y.polls) &&
      (Orderly(w, g, [x, y]) <==>
       Inputs(x.polls) == Frame(x.request.Bytes()) && Prompt(w, g, x.polls) && h.port.queue == [] &&
       Inputs(y.polls) == Frame(y.request.Bytes()) && Prompt(w, h, y.polls) && Turns(w, h, y.polls).port.queue == [])
  {
    hide Turns, Prompt, Inputs, Frame, Request.Bytes;
    assert [x, y][..1] == [x] && [x][..0] == [];
    assert Session(w, g, []) == g && Session(w, g, [x]) == Turns(w, g, x.polls);
    assert Orderly(w, g, []);
  }

  lemma TwoTurns(w: World, g: G, a: Poll, b: Poll)
    ensures Turns(w, g, [a, b]) == w.Iterate(w.Iterate(g, a), b)
  {
    hide World.Iterate;
    assert [a, b][..1] == [a];
    OneTurn(w, g, a);
  }

  lemma SomePiece(size: nat)
    ensures PieceCount(size) > 0
  {
  }

  lemma OneTurn(w: World, g: G, poll: Poll)
    ensures Turns(w, g, [poll]) == w.Iterate(g, poll)
  {
    assert [poll][..0] == [];
  }
}
