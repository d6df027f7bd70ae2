/**
 The upload from the image to the device: the reply to a V1 page request, and what reaches the wire
 when a V3 device asks for pieces of the image, in any order and with repeats, and the ring is
 drained between its requests.
 */
module Upload {
  import opened Bytes
  import opened Flasher
  import opened Framing
  import opened GcfFile
  import opened Input
  import opened MainLoop
  import opened OpenPort
  import opened Trace
  import opened Transmit

  // ----- V1 -----

  /**
   The answer to a page request depends on the page number alone; validation is entered exactly on
   the last page, and a page outside the image stops the program.
   */
  lemma PageAnswered(w: World, g: G, n: u16)
    requires g.state.V1Upload? && g.port.connected
    ensures
      var r, image := w.SendPage(g, n), w.Image();
      if n as int < PageCount(|image|) then
        r.port == Transmit.Write(g.port, Page(image, n), w.writes(g.calls)) && r.trapped == g.trapped &&
        r.wp == 0 && r.running == g.running &&
        if n as int == PageCount(|image|) - 1 then r.state.V1Validate? && r.timer == w.now(g.calls + 1) + 25600
        else r.state.V1Upload? && r.timer == w.now(g.calls + 1) + 2000
      else r == g.(trapped := true)
  {
    hide *;
    LastPageIff(w.Image(), n);
    if n as int * V1_PAGESIZE < |w.Image()| { PageGone(w, g, n); } else { PageSent(w, g, n); }
  }

  lemma PageGone(w: World, g: G, n: u16)
    requires g.state.V1Upload? && g.port.connected && n as int * V1_PAGESIZE < |w.Image()|
    ensures
      var r, image := w.SendPage(g, n), w.Image();
      r.port == Transmit.Write(g.port, Page(image, n), w.writes(g.calls)) && r.trapped == g.trapped &&
      r.wp == 0 && r.running == g.running &&
      if |image| - n as int * V1_PAGESIZE == |Page(image, n)| then
        r.state.V1Validate? && r.timer == w.now(g.calls + 1) + 25600
      else r.state.V1Upload? && r.timer == w.now(g.calls + 1) + 2000
  {
    PageSent(w, g, n);
    PageWritten(w, g, n);
    hide World.Image, World.SendPage, World.Write, Transmit.Write, Page, Turned;
  }

  lemma PageWritten(w: World, g: G, n: nat)
    requires g.state.V1Upload? && g.port.connected && n * V1_PAGESIZE < |w.Image()|
    ensures
      var r, page := w.Write(Turned(w, g, n), Page(w.Image(), n)), Page(w.Image(), n);
      r.port == Transmit.Write(g.port, page, w.writes(g.calls)) && r.calls == g.calls + 1 &&
      r.state == g.state && r.running == g.running && r.trapped == g.trapped && r.wp == 0 &&
      r.remaining == |w.Image()| - n * V1_PAGESIZE
  {
    TurnedIs(w, g, n);
    Written(w, Turned(w, g, n), Page(w.Image(), n));
    hide World.Image, World.Write, Transmit.Write, Page, Turned;
  }

  /** The host about to send page `n`. */
  ghost function Turned(w: World, g: G, n: nat): G
    requires n * V1_PAGESIZE < |w.Image()|
  {
    ResetInput(g).(remaining := |w.Image()| - n * V1_PAGESIZE)
  }

  lemma TurnedIs(w: World, g: G, n: nat)
    requires n * V1_PAGESIZE < |w.Image()|
    ensures var h := Turned(w, g, n);
            h.state == g.state && h.port == g.port && h.calls == g.calls && h.running == g.running &&
            h.trapped == g.trapped && h.wp == 0 && h.remaining == |w.Image()| - n * V1_PAGESIZE
  {
    hide World.Image;
  }

  lemma PageSent(w: World, g: G, n: u16)
    requires g.state.V1Upload?
    ensures w.SendPage(g, n)
         == if n as int * V1_PAGESIZE >= |w.Image()| then g.(trapped := true)
            else
              var r := w.Write(Turned(w, g, n), Page(w.Image(), n));
              if r.remaining == |Page(w.Image(), n)| then w.SetTimeout(r.(state := V1Validate), 25600)
              else w.SetTimeout(r, 2000)
  {
    hide World.Image, World.Write, Page, World.SetTimeout;
  }

  lemma LastPageIff(image: seq<u8>, n: nat)
    ensures n < PageCount(|image|) <==> n * V1_PAGESIZE < |image|
    ensures n * V1_PAGESIZE < |image| ==>
              (|image| - n * V1_PAGESIZE == |Page(image, n)| <==> n == PageCount(|image|) - 1)
  {
    if n * V1_PAGESIZE < |image| {
      PagesPartition(image);
      assert IsLastPage(|image|, n) <==> n == PageCount(|image|) - 1;
    }
  }

  // ----- V3 -----

  /** A data request of the bootloader, and the reply it should get. */
  datatype Request = Request(offset: u32, length: u16)
  {
    function Bytes(): (b: seq<u8>)
      ensures |b| == 8
    {
      [BTL_MAGIC, BTL_FW_DATA_REQUEST] + Le32(offset) + Le16(length)
    }

    function Status(size: nat): u8 { DataStatus(size, offset, length) }

    function Response(image: seq<u8>): (r: seq<u8>)
      ensures 9 <= |r| <= 489
    {
      Reply(image, offset, length)
    }

    /** The request reaches the end of the image, or asks for nothing at all. */
    predicate Ends(size: nat) {
      length == 0 || (length as int <= 480 && offset as int + length as int == size)
    }
  }

  // ----- one request -----

  lemma {:induction false} SendingKeepsStream(p: Port, data: seq<u8>, outcomes: seq<WriteOutcome>)
    requires p.connected && p.queue == [] && |data| <= 489
    ensures var q := SendFlagged(p, data, outcomes);
            q.connected && |q.queue| < RING && Stream(q) == Stream(p) + Frame(data)
  {
    hide Frame, FlushAmount;
    FrameFitsRing(data);
    PutAllKeepsNewest(p, Frame(data));
    assert [] + Frame(data) == Frame(data);
    FlushKeepsStream(PutAll(p, Frame(data)), outcomes);
    assert p.wire + [] == p.wire;
  }

  /**
   What the host does about a data request: the reply goes out as one frame, and the upload counts
   as done if and only if the request reached the end of the image or asked for zero bytes.
   */
  lemma AnswerIs(w: World, g: G, q: Request)
    requires g.state.V3Upload? && g.port.connected && |w.Image()| < MAX_FILE_SIZE
    ensures
      var r := w.AnswerDataRequest(g, q.offset, q.length);
      r.port == SendFlagged(g.port, q.Response(w.Image()), w.writes(g.calls + 1)) &&
      (r.state.V3Upload? || r.state.V3WaitID?) && (r.state.V3WaitID? <==> q.Ends(|w.Image()|)) &&
      r.running == g.running && r.trapped == g.trapped && r.rx == g.rx &&
      r.timer == (if r.state.V3WaitID? then w.now(g.calls + 2) + 20000 else w.now(g.calls) + 5000) &&
      r.calls == g.calls + if r.state.V3WaitID? then 3 else 2
  {
    hide World.Image, World.AnswerDataRequest, World.Handle, World.SendFlagged, SendFlagged;
    hide Overwrite, Request.Response;
    var response, g2 := q.Response(w.Image()), Prepared(w, g, q);
    AnswerUnfolds(w, g, q);
    EndsIff(q, |w.Image()|);
    SentFlagged(w, g2, response);
  }

  /** The host with the reply in its buffer, about to send it. */
  ghost function Prepared(w: World, g: G, q: Request): G {
    var remaining := Remaining(|w.Image()|, q.offset, q.length);
    var g1 := Log(w.SetTimeout(g, 5000).(remaining := remaining), Asked(q.offset, q.length));
    g1.(ascii := Overwrite(g1.ascii, q.Response(w.Image())))
  }

  lemma AnswerUnfolds(w: World, g: G, q: Request)
    requires g.state.V3Upload? && g.port.connected && |w.Image()| < MAX_FILE_SIZE
    ensures
      var h := Prepared(w, g, q);
      var r := w.SendFlagged(h, q.Response(w.Image()));
      r.remaining == h.remaining &&
      w.AnswerDataRequest(g, q.offset, q.length)
        == if h.remaining == q.length as int then w.SetTimeout(r.(state := V3WaitID), 20000) else r
  {
    hide World.Image, World.Handle, World.SendFlagged, SendFlagged, Overwrite, Reply, Remaining;
    SentFlagged(w, Prepared(w, g, q), q.Response(w.Image()));
  }

  /** The counter of remaining bytes meets the length exactly for the requests that end the upload. */
  lemma EndsIff(q: Request, size: nat)
    ensures Remaining(size, q.offset, q.length) == q.length as int <==> q.Ends(size)
  {
  }

  /** Between the first request and the verdict of the device. */
  ghost predicate Underway(g: G) {
    (g.state.V3Upload? || g.state.V3WaitID?) && g.port.connected && |g.port.queue| < RING &&
    g.running && !g.trapped && g.timer != 0
  }

  /** A request has been answered, or not heard because the upload counts as done. */
  ghost predicate Served(w: World, g: G, q: Request, r: G) {
    if g.state.V3WaitID? then
      r.state.V3WaitID? && r.port == g.port
    else
      (r.state.V3WaitID? <==> q.Ends(|w.Image()|)) &&
      Stream(r.port) == Stream(g.port) + Frame(q.Response(w.Image()))
  }

  lemma RequestReads(g: G, q: Request)
    ensures
      var a := Overwrite(g.ascii, q.Bytes());
      a[0] == BTL_MAGIC && a[1] == BTL_FW_DATA_REQUEST &&
      FromLe32(a[2..6]) == q.offset && FromLe16(a[6..8]) == q.length
  {
    var a := Overwrite(g.ascii, q.Bytes());
    assert a[2..6] == Le32(q.offset) && a[6..8] == Le16(q.length);
    LeRoundTrip(q.offset);
    LeRoundTrip(q.length);
  }

  lemma RequestServed(w: World, g: G, q: Request)
    requires Underway(g) && g.port.queue == [] && |w.Image()| < MAX_FILE_SIZE
    ensures var r := w.Packet(g, q.Bytes());
            Underway(r) && Served(w, g, q, r) && r.rx == g.rx
  {
    hide World.AnswerDataRequest, Overwrite, Frame, SendFlagged, Request.Response, World.Image;
    RequestReads(g, q);
    var g1 := Deliver(g, q.Bytes());
    assert w.Packet(g, q.Bytes()) == w.Handle(g1, RxBootloader);
    if g.state.V3WaitID? {
      assert w.Handle(g1, RxBootloader) == w.StV3WaitID(g1, RxBootloader) == g1;
    } else {
      assert w.Handle(g1, RxBootloader) == w.StV3Upload(g1, RxBootloader);
      assert w.StV3Upload(g1, RxBootloader) == w.AnswerDataRequest(g1, q.offset, q.length);
      AnswerIs(w, g1, q);
      SendingKeepsStream(g.port, q.Response(w.Image()), w.writes(g.calls + 1));
    }
  }

  // ----- the request arrives in pieces, the reply leaves in pieces -----

  /** What one read does, given the packets it completes. */
  lemma ReadOk(w: World, g: G, data: seq<u8>, q: Request)
    requires Underway(g) && |w.Image()| < MAX_FILE_SIZE
    requires Run(HOST_BUFFER, g.rx, data).packets == [] ||
             (Run(HOST_BUFFER, g.rx, data).packets == [q.Bytes()] && g.port.queue == [])
    ensures
      var run, r := Run(HOST_BUFFER, g.rx, data), w.Received(g, data);
      Underway(r) && r.rx == run.rx &&
      if run.packets == [] then r == g.(rx := run.rx) else Served(w, g, q, r)
  {
    hide World.Packet, Run, Underway, Served, World.Image;
    var run := Run(HOST_BUFFER, g.rx, data);
    BufferBounded(HOST_BUFFER, g.rx, data);
    DeliveredSizes(HOST_BUFFER, g.rx, data);
    var g1 := g.(rx := run.rx);
    assert Underway(g) ==> w.ReceiveText(g, data) == g && !g.trapped by { NoText(w, g, data); }
    assert Underway(g1) by { RxAside(w, g, q, run.rx, g); }
    if run.packets == [] {
      assert w.Packets(g1, []) == g1;
    } else {
      assert [q.Bytes()][..0] == [];
      assert w.Packets(g1, [q.Bytes()]) == w.Packet(g1, q.Bytes());
      RequestServed(w, g1, q);
      RxAside(w, g, q, run.rx, w.Packet(g1, q.Bytes()));
    }
  }

  lemma NoText(w: World, g: G, data: seq<u8>)
    requires Underway(g)
    ensures w.ReceiveText(g, data) == g && !g.trapped
  {
  }

  lemma RxAside(w: World, g: G, q: Request, rx: HostRx, r: G)
    requires Underway(g)
    ensures Underway(g.(rx := rx))
    ensures Served(w, g.(rx := rx), q, r) ==> Served(w, g, q, r)
  {
  }

  /** One turn of the loop: either nothing is completed by the bytes read, or the request is. */
  lemma TurnOk(w: World, g: G, poll: Poll, q: Request)
    requires Underway(g) && |w.Image()| < MAX_FILE_SIZE && Quiet(poll) && InTime(w, g)
    requires Run(HOST_BUFFER, g.rx, DataOf(poll)).packets == [] ||
             (Run(HOST_BUFFER, g.rx, DataOf(poll)).packets == [q.Bytes()] && g.port.queue == [])
    ensures
      var run, r := Run(HOST_BUFFER, g.rx, DataOf(poll)), w.Iterate(g, poll);
      Underway(r) && r.rx == run.rx &&
      if run.packets == [] then
        r.state == g.state && Stream(r.port) == Stream(g.port) && (g.port.queue == [] ==> r.port == g.port)
      else Served(w, g, q, r)
  {
    hide World.Iterate, World.Serve, World.Received, Run, Frame, Request.Response, World.Image;
    var g1, data := g.(calls := g.calls + 1), DataOf(poll);
    if poll.Idle? {
      IdleTurn(w, g);
      RunNothing(g.rx);
    } else {
      PolledTurn(w, g, data);
      assert poll == Polled(false, data, false);
      if data == [] {
        RunNothing(g.rx);
        Flushed(w, g1);
      } else {
        ReadOk(w, g1, data, q);
        ServeSplits(w, g1, data);
        Flushed(w, w.Received(g1, data));
      }
    }
  }

  lemma RunNothing(rx: Rx)
    ensures Run(HOST_BUFFER, rx, []) == Result(rx, [], 0)
  {
  }

  /** The beginning of a frame has completed nothing, or already the whole packet. */
  lemma FrameInTwo(p: seq<u8>, a: seq<u8>, b: seq<u8>)
    requires 1 <= |p| <= HOST_BUFFER - 2 && a + b == Frame(p)
    ensures
      var ra := Run(HOST_BUFFER, CLEAN, a);
      (ra.packets == [] || ra.packets == [p]) && ra.packets + Run(HOST_BUFFER, ra.rx, b).packets == [p]
  {
    hide Run, Frame;
    RunCompose(HOST_BUFFER, CLEAN, a, b);
    FrameFromClean(HOST_BUFFER, p);
    var x, y := Run(HOST_BUFFER, CLEAN, a).packets, Run(HOST_BUFFER, Run(HOST_BUFFER, CLEAN, a).rx, b).packets;
    assert x + y == [p];
    if x != [] { assert (x + y)[0] == x[0]; }
  }

  /** Ready for the next request: everything sent has left, and the receiver is between frames. */
  ghost predicate Settled(g: G) { Underway(g) && g.port.queue == [] && g.rx == CLEAN }

  ghost predicate Progress(w: World, g: G, q: Request, run: Result, r: G) {
    Underway(r) && r.rx == run.rx &&
    if run.packets == [] then r.state == g.state && r.port == g.port
    else Served(w, g, q, r)
  }

  lemma {:induction false} TurnsOk(w: World, g: G, q: Request, polls: seq<Poll>, rest: seq<u8>)
    requires Settled(g) && |w.Image()| < MAX_FILE_SIZE && Prompt(w, g, polls)
    requires Inputs(polls) + rest == Frame(q.Bytes())
    ensures Progress(w, g, q, Run(HOST_BUFFER, CLEAN, Inputs(polls)), Turns(w, g, polls))
  {
    hide Run, Frame, Served, World.Iterate, World.Image, Request.Bytes, DataOf, Quiet;
    if polls == [] {
      RunNothing(CLEAN);
    } else {
      var front, last := polls[..|polls| - 1], polls[|polls| - 1];
      var data := DataOf(last);
      assert Inputs(front) + (data + rest) == Inputs(polls) + rest;
      TurnsOk(w, g, q, front, data + rest);
      var h, before := Turns(w, g, front), Run(HOST_BUFFER, CLEAN, Inputs(front));
      var run := Run(HOST_BUFFER, h.rx, data);
      RunCompose(HOST_BUFFER, CLEAN, Inputs(front), data);
      FrameInTwo(q.Bytes(), Inputs(front), data + rest);
      FrameInTwo(q.Bytes(), Inputs(polls), rest);
      assert before.packets + run.packets == Run(HOST_BUFFER, CLEAN, Inputs(polls)).packets;
      Parts(before.packets, run.packets, q.Bytes());
      assert run.packets != [] ==> h.port == g.port;
      TurnOk(w, h, last, q);
      ProgressOn(w, g, q, before, h, run, Turns(w, g, polls));
    }
  }

  /** Progress made so far, then one more turn. */
  lemma ProgressOn(w: World, g: G, q: Request, before: Result, h: G, run: Result, r: G)
    requires Settled(g) && Progress(w, g, q, before, h) && Underway(r) && r.rx == run.rx
    requires before.packets == [] || run.packets == []
    requires if run.packets == [] then
               r.state == h.state && Stream(r.port) == Stream(h.port) && (h.port.queue == [] ==> r.port == h.port)
             else Served(w, h, q, r)
    ensures Progress(w, g, q, Then(before, run), r)
  {
    hide Frame, Request.Response, World.Image;
    if before.packets == [] {
      assert before.packets + run.packets == run.packets;
    } else {
      assert before.packets + run.packets == before.packets;
    }
  }

  lemma Parts(x: seq<seq<u8>>, y: seq<seq<u8>>, p: seq<u8>)
    requires x + y == [] || x + y == [p]
    ensures (x == [] && y == []) || (x == [] && y == [p]) || (x == [p] && y == [])
  {
    if x != [] {
      assert (x + y)[0] == x[0];
    } else {
      assert x + y == y;
    }
  }

  // ----- when the ring drains -----

  /** `write` takes all it is given, in as many calls as it likes. */
  ghost predicate Willing(w: World) {
    forall k: nat, n: nat | n <= FLUSH_MAX :: Transmit.Accepted(n, w.writes(k)) == n
  }

  lemma FullFlush(p: Port, outcomes: seq<WriteOutcome>)
    requires p.connected && forall n: nat | n <= FLUSH_MAX :: Transmit.Accepted(n, outcomes) == n
    ensures |Transmit.Flush(p, outcomes).queue| == if |p.queue| <= FLUSH_MAX then 0 else |p.queue| - FLUSH_MAX
  {
  }

  /** The turn that completes a data request: the reply is queued and flushed, then flushed again. */
  lemma AnswerTurn(w: World, g: G, data: seq<u8>, q: Request)
    requires Underway(g) && g.state.V3Upload? && g.port.queue == [] && |w.Image()| < MAX_FILE_SIZE
    requires InTime(w, g) && Run(HOST_BUFFER, g.rx, data).packets == [q.Bytes()]
    ensures
      var h := w.Received(g.(calls := g.calls + 1), data);
      w.Iterate(g, Polled(false, data, false)) == w.Serve(h, []) && Underway(h) &&
      h.port == SendFlagged(g.port, q.Response(w.Image()), w.writes(g.calls + 2)) &&
      h.timer == (if h.state.V3WaitID? then w.now(g.calls + 3) + 20000 else w.now(g.calls + 1) + 5000) &&
      h.calls > g.calls
  {
    hide World.Iterate, World.Serve, World.Received, Run, Frame, SendFlagged, World.Image, Request.Response;
    var g1 := g.(calls := g.calls + 1);
    PolledTurn(w, g, data);
    assert data != [] by { RunNothing(g.rx); }
    ReadOk(w, g1, data, q);
    ServeSplits(w, g1, data);
    ReadAnswers(w, g1, data, q);
    hide World.AnswerDataRequest, Overwrite;
    AnswerIs(w, Deliver(g1.(rx := Run(HOST_BUFFER, g.rx, data).rx), q.Bytes()), q);
  }

  lemma ReadAnswers(w: World, g: G, data: seq<u8>, q: Request)
    requires Underway(g) && g.state.V3Upload? && Run(HOST_BUFFER, g.rx, data).packets == [q.Bytes()]
    ensures
      var rx := Run(HOST_BUFFER, g.rx, data).rx;
      |rx.buf| <= HOST_BUFFER &&
      w.Received(g, data)
        == w.AnswerDataRequest(Deliver(g.(rx := rx), q.Bytes()), q.offset, q.length)
  {
    hide World.AnswerDataRequest, Overwrite, Run;
    var run := Run(HOST_BUFFER, g.rx, data);
    BufferBounded(HOST_BUFFER, g.rx, data);
    DeliveredSizes(HOST_BUFFER, g.rx, data);
    NoText(w, g, data);
    var g1 := g.(rx := run.rx);
    assert [q.Bytes()][..0] == [];
    assert w.Packets(g1, [q.Bytes()]) == w.Packet(g1, q.Bytes());
    RequestReads(g1, q);
    var g2 := Deliver(g1, q.Bytes());
    assert w.Packet(g1, q.Bytes()) == w.Handle(g2, RxBootloader);
    assert w.Handle(g2, RxBootloader) == w.StV3Upload(g2, RxBootloader);
  }

  /**
   A reply's frame has at most 984 bytes, so two flushes that are fully accepted, the one behind the
   reply and the one at the end of the turn, empty the ring within the turn that answers.
   */
  lemma ReplyLeaves(w: World, g: G, data: seq<u8>, q: Request)
    requires Underway(g) && g.state.V3Upload? && g.port.queue == [] && |w.Image()| < MAX_FILE_SIZE
    requires InTime(w, g) && Run(HOST_BUFFER, g.rx, data).packets == [q.Bytes()]
    requires Willing(w)
    ensures w.Iterate(g, Polled(false, data, false)).port.queue == []
  {
    hide World.Iterate, World.Received, Run, Frame, World.Image, Request.Response, Transmit.Accepted;
    AnswerTurn(w, g, data, q);
    var h, frame := w.Received(g.(calls := g.calls + 1), data), Frame(q.Response(w.Image()));
    FrameFitsRing(q.Response(w.Image()));
    PutAllKeepsNewest(g.port, frame);
    assert [] + frame == frame;
    FullFlush(PutAll(g.port, frame), w.writes(g.calls + 2));
    FullFlush(h.port, w.writes(h.calls));
  }

  /** If `write` takes all it is given, the ring is empty after every turn of an exchange. */
  lemma {:induction false} TurnsDrain(w: World, g: G, q: Request, polls: seq<Poll>, rest: seq<u8>)
    requires Settled(g) && |w.Image()| < MAX_FILE_SIZE && Prompt(w, g, polls) && Willing(w)
    requires Inputs(polls) + rest == Frame(q.Bytes())
    ensures Turns(w, g, polls).port.queue == []
  {
    hide Run, Frame, World.Iterate, World.Image, Request.Bytes, Willing;
    if polls != [] {
      var front, last := polls[..|polls| - 1], polls[|polls| - 1];
      var data := DataOf(last);
      assert Inputs(front) + (data + rest) == Inputs(polls) + rest;
      TurnsDrain(w, g, q, front, data + rest);
      TurnsOk(w, g, q, front, data + rest);
      var h := Turns(w, g, front);
      PiecePackets(w, g, q, front, data, rest);
      TurnOk(w, h, last, q);
      if Run(HOST_BUFFER, h.rx, data).packets != [] && h.state.V3Upload? {
        if last.Idle? { RunNothing(h.rx); }
        assert last == Polled(false, data, false);
        ReplyLeaves(w, h, data, q);
      }
    }
  }

  /** A read in the middle of a request completes nothing or the request. */
  lemma PiecePackets(w: World, g: G, q: Request, front: seq<Poll>, data: seq<u8>, rest: seq<u8>)
    requires Inputs(front) + (data + rest) == Frame(q.Bytes())
    ensures
      var ps := Run(HOST_BUFFER, Run(HOST_BUFFER, CLEAN, Inputs(front)).rx, data).packets;
      ps == [] || ps == [q.Bytes()]
  {
    hide Run, Frame, Request.Bytes;
    var a, p := Inputs(front), q.Bytes();
    FrameInTwo(p, a, data + rest);
    assert (a + data) + rest == Frame(p);
    FrameInTwo(p, a + data, rest);
    RunCompose(HOST_BUFFER, CLEAN, a, data);
    Parts(Run(HOST_BUFFER, CLEAN, a).packets, Run(HOST_BUFFER, Run(HOST_BUFFER, CLEAN, a).rx, data).packets, p);
  }

  // ----- whole uploads -----

  /** One request, and the turns in which it arrives and its reply leaves, idle turns among them. */
  datatype Exchange = Exchange(request: Request, polls: seq<Poll>)

  function Session(w: World, g: G, xs: seq<Exchange>): G {
    if xs == [] then g else Turns(w, Session(w, g, xs[..|xs| - 1]), xs[|xs| - 1].polls)
  }

  /** Every exchange delivers the frame of its request, in time, and lets the ring drain. */
  ghost predicate Orderly(w: World, g: G, xs: seq<Exchange>) {
    xs == [] ||
    (var h, x := Session(w, g, xs[..|xs| - 1]), xs[|xs| - 1];
     Orderly(w, g, xs[..|xs| - 1]) &&
     Inputs(x.polls) == Frame(x.request.Bytes()) && Prompt(w, h, x.polls) &&
     Turns(w, h, x.polls).port.queue == [])
  }

  function Requests(xs: seq<Exchange>): (qs: seq<Request>)
    ensures |qs| == |xs|
  {
    seq(|xs|, i requires 0 <= i < |xs| => xs[i].request)
  }

  /** The requests up to and including the first that ends the upload. */
  function Heard(size: nat, qs: seq<Request>): seq<Request> {
    if qs == [] then []
    else
      var front := Heard(size, qs[..|qs| - 1]);
      if Done(size, qs[..|qs| - 1]) then front else front + [qs[|qs| - 1]]
  }

  predicate Done(size: nat, qs: seq<Request>) { exists q <- qs :: q.Ends(size) }

  function Replies(image: seq<u8>, qs: seq<Request>): (rs: seq<seq<u8>>)
    ensures |rs| == |qs|
  {
    seq(|qs|, i requires 0 <= i < |qs| => qs[i].Response(image))
  }

  lemma ExchangeOk(w: World, g: G, x: Exchange)
    requires Settled(g) && |w.Image()| < MAX_FILE_SIZE
    requires Inputs(x.polls) == Frame(x.request.Bytes()) && Prompt(w, g, x.polls)
    requires Turns(w, g, x.polls).port.queue == []
    ensures
      var r := Turns(w, g, x.polls);
      Settled(r) &&
      (r.state.V3WaitID? <==> g.state.V3WaitID? || x.request.Ends(|w.Image()|)) &&
      r.port.wire == g.port.wire + if g.state.V3WaitID? then [] else Frame(x.request.Response(w.Image()))
  {
    hide Run, Frame, Turns, World.Image, Request.Bytes, Request.Response, Inputs;
    var p := x.request.Bytes();
    assert Inputs(x.polls) + [] == Frame(p);
    TurnsOk(w, g, x.request, x.polls, []);
    FrameFromClean(HOST_BUFFER, p);
    var r := Turns(w, g, x.polls);
    assert Stream(g.port) == g.port.wire && Stream(r.port) == r.port.wire;
  }

  lemma RepliesSnoc(image: seq<u8>, qs: seq<Request>, q: Request)
    ensures Frames(Replies(image, qs + [q])) == Frames(Replies(image, qs)) + Frame(q.Response(image))
  {
    assert Replies(image, qs + [q]) == Replies(image, qs) + [q.Response(image)];
    assert (qs + [q])[..|qs|] == qs;
    var rs := Replies(image, qs + [q]);
    assert rs[..|rs| - 1] == Replies(image, qs);
  }

  /** One more request extends what has been written by its reply, if it is still heard. */
  lemma HeardSnoc(image: seq<u8>, qs: seq<Request>, q: Request, start: seq<u8>, wire: seq<u8>)
    requires wire == start + Frames(Replies(image, Heard(|image|, qs)))
    ensures wire + (if Done(|image|, qs) then [] else Frame(q.Response(image)))
         == start + Frames(Replies(image, Heard(|image|, qs + [q])))
  {
    hide *;
    HeardGrows(|image|, qs, q);
    if Done(|image|, qs) {
      assert wire + [] == wire;
    } else {
      RepliesSnoc(image, Heard(|image|, qs), q);
      AppendedTwice(start, Frames(Replies(image, Heard(|image|, qs))), Frame(q.Response(image)));
    }
  }

  lemma HeardGrows(size: nat, qs: seq<Request>, q: Request)
    ensures Heard(size, qs + [q]) == if Done(size, qs) then Heard(size, qs) else Heard(size, qs) + [q]
  {
    assert (qs + [q])[..|qs|] == qs;
    hide Done;
  }

  lemma AppendedTwice(start: seq<u8>, a: seq<u8>, b: seq<u8>)
    ensures start + a + b == start + (a + b)
  {
  }

  /**
   The upload as a whole: however requests and replies are cut into pieces, with
   idle turns wherever they fall, the bytes that have
   reached the descriptor are the frames of the replies to all requests up to the first that ends
   the upload, and nothing else; the host then waits for the verdict.
   */
  lemma {:induction false} SessionDelivers(w: World, g: G, xs: seq<Exchange>)
    requires Settled(g) && g.state.V3Upload? && |w.Image()| < MAX_FILE_SIZE && Orderly(w, g, xs)
    ensures
      var r, size := Session(w, g, xs), |w.Image()|;
      Settled(r) && (r.state.V3WaitID? <==> Done(size, Requests(xs))) &&
      r.port.wire == g.port.wire + Frames(Replies(w.Image(), Heard(size, Requests(xs))))
  {
    hide Turns, Prompt, Frame, World.Image, Settled, Frames, Replies, Heard, Done, Inputs;
    hide Request.Response, Request.Ends;
    var size, qs := |w.Image()|, Requests(xs);
    if xs == [] {
      NoReplies(w.Image());
      assert g.port.wire + [] == g.port.wire;
    } else {
      var front, x := xs[..|xs| - 1], xs[|xs| - 1];
      SessionDelivers(w, g, front);
      assert qs == Requests(front) + [x.request];
      var h := Session(w, g, front);
      ExchangeOk(w, h, x);
      HeardSnoc(w.Image(), Requests(front), x.request, g.port.wire, h.port.wire);
      DoneSnoc(size, Requests(front), x.request);
    }
  }

  lemma NoReplies(image: seq<u8>)
    ensures Frames(Replies(image, Heard(|image|, []))) == [] && !Done(|image|, [])
  {
  }

  lemma DoneSnoc(size: nat, qs: seq<Request>, q: Request)
    ensures Done(size, qs + [q]) <==> Done(size, qs) || q.Ends(size)
  {
    assert q in qs + [q];
  }

  lemma DoneShrinks(size: nat, qs: seq<Request>)
    requires qs != [] && !Done(size, qs)
    ensures !Done(size, qs[..|qs| - 1])
  {
  }

  lemma {:induction false} HeardIsPrefix(size: nat, qs: seq<Request>)
    ensures Heard(size, qs) <= qs
    ensures |Heard(size, qs)| == |qs| <==> qs == [] || !Done(size, qs[..|qs| - 1])
  {
    if qs != [] {
      var front := qs[..|qs| - 1];
      HeardIsPrefix(size, front);
      assert qs == front + [qs[|qs| - 1]];
      if front != [] && !Done(size, front) { DoneShrinks(size, front); }
    }
  }

  lemma {:induction false} FramesGrow(ps: seq<seq<u8>>, k: nat)
    requires k < |ps|
    ensures |Frames(ps[..k])| < |Frames(ps)|
  {
    var front := ps[..|ps| - 1];
    if k < |front| {
      FramesGrow(front, k);
      assert front[..k] == ps[..k];
    } else {
      assert ps[..k] == front;
    }
  }

  /** Every request gets its reply if and only if none but the last ends the upload. */
  lemma AllAnsweredIff(w: World, g: G, xs: seq<Exchange>)
    requires Settled(g) && g.state.V3Upload? && |w.Image()| < MAX_FILE_SIZE && Orderly(w, g, xs) && xs != []
    ensures
      Session(w, g, xs).port.wire == g.port.wire + Frames(Replies(w.Image(), Requests(xs))) <==>
      !Done(|w.Image()|, Requests(xs)[..|xs| - 1])
  {
    hide Session, Orderly, Settled, Done, Heard, Frames, Frame, World.Image, Request.Response;
    var size, qs := |w.Image()|, Requests(xs);
    var heard := Heard(size, qs);
    SessionDelivers(w, g, xs);
    HeardIsPrefix(size, qs);
    if |heard| == |qs| {
      assert heard == qs;
    } else {
      assert Replies(w.Image(), heard) == Replies(w.Image(), qs)[..|heard|];
      FramesGrow(Replies(w.Image(), qs), |heard|);
    }
  }

  // ----- the device -----

  /** The device stores the data of a successful reply at the offset the reply names. */
  function Programmed(mem: seq<u8>, reply: seq<u8>): (r: seq<u8>)
    ensures |r| == |mem|
  {
    if |reply| < 9 || reply[2] != 0 then mem
    else
      var offset, data := FromLe32(reply[3..7]) as int, reply[9..];
      if |data| == FromLe16(reply[7..9]) as int && offset + |data| <= |mem| then
        mem[..offset] + data + mem[offset + |data|..]
      else mem
  }

  function Flashed(mem: seq<u8>, replies: seq<seq<u8>>): (r: seq<u8>)
    ensures |r| == |mem|
  {
    if replies == [] then mem else Programmed(Flashed(mem, replies[..|replies| - 1]), replies[|replies| - 1])
  }

  predicate Covers(q: Request, size: nat, k: nat) {
    q.Status(size) == 0 && q.offset as int <= k < q.offset as int + q.length as int
  }

  /**
   The reply to a request: 81 84, the status (1 beyond the image, 2 for more than 480 bytes, 3 for none),
   the offset and the length of the request, and exactly that piece of the image if the status is 0.
   */
  lemma ReplyFields(image: seq<u8>, q: Request)
    ensures
      var r := q.Response(image);
      r[0] == 0x81 && r[1] == 0x84 &&
      r[2] == (if q.offset as int + q.length as int > |image| then 1 else if q.length > 480 then 2
               else if q.length == 0 then 3 else 0) &&
      r[9..] == (if r[2] == 0 then image[q.offset as int..q.offset as int + q.length as int] else []) &&
      r[2] == q.Status(|image|) && FromLe32(r[3..7]) == q.offset && FromLe16(r[7..9]) == q.length &&
      r[9..] == ReplyData(image, q.offset, q.length)
  {
    ReplyParts(q.Status(|image|), q.offset, q.length, ReplyData(image, q.offset, q.length));
    hide DataResponse, FromLe32, FromLe16;
  }

  lemma ReplyParts(status: u8, offset: u32, length: u16, data: seq<u8>)
    ensures
      var r := DataResponse(status, offset, length, data);
      r[..3] == [0x81, 0x84, status] && FromLe32(r[3..7]) == offset && FromLe16(r[7..9]) == length && r[9..] == data
  {
    var r := DataResponse(status, offset, length, data);
    assert r[3..7] == Le32(offset) && r[7..9] == Le16(length);
    LeRoundTrip(offset);
    LeRoundTrip(length);
  }

  lemma ProgrammedAt(image: seq<u8>, mem: seq<u8>, q: Request, k: nat)
    requires |mem| == |image| && k < |image|
    ensures Programmed(mem, q.Response(image))[k] == if Covers(q, |image|, k) then image[k] else mem[k]
  {
    ReplyFields(image, q);
    hide Request.Response, FromLe32, FromLe16;
  }

  predicate Covered(qs: seq<Request>, size: nat, k: nat) { exists q <- qs :: Covers(q, size, k) }

  lemma CoveredSnoc(qs: seq<Request>, q: Request, size: nat, k: nat)
    ensures Covered(qs + [q], size, k) <==> Covered(qs, size, k) || Covers(q, size, k)
  {
    assert q in qs + [q];
  }

  lemma {:induction false} FlashedHolds(image: seq<u8>, mem: seq<u8>, qs: seq<Request>, k: nat)
    requires |mem| == |image| && k < |image|
    ensures Flashed(mem, Replies(image, qs))[k] == if Covered(qs, |image|, k) then image[k] else mem[k]
  {
    hide Programmed, Request.Response, Covers;
    if qs != [] {
      var front, q := qs[..|qs| - 1], qs[|qs| - 1];
      FlashedHolds(image, mem, front, k);
      assert Replies(image, qs)[..|qs| - 1] == Replies(image, front);
      ProgrammedAt(image, Flashed(mem, Replies(image, front)), q, k);
      CoveredSnoc(front, q, |image|, k);
      assert qs == front + [q];
    }
  }

  /**
   End to end: the device, which unframes what arrived and stores it, holds the image's byte at
   every position covered by a request it made in time, and its old byte everywhere else.
   */
  lemma DeviceHoldsImage(w: World, g: G, xs: seq<Exchange>, cap: nat, mem: seq<u8>)
    requires Settled(g) && g.state.V3Upload? && |w.Image()| < MAX_FILE_SIZE && Orderly(w, g, xs)
    requires cap >= 491 && |mem| == |w.Image()|
    ensures
      var image, wire := w.Image(), Session(w, g, xs).port.wire;
      var heard := Heard(|image|, Requests(xs));
      g.port.wire <= wire &&
      var got := Run(cap, CLEAN, wire[|g.port.wire|..]);
      got == Result(CLEAN, Replies(image, heard), 0) &&
      forall k | 0 <= k < |image| ::
        Flashed(mem, got.packets)[k] == if Covered(heard, |image|, k) then image[k] else mem[k]
  {
    hide Run, Frames, Session, Orderly, Settled, Heard, Flashed, World.Image, Request.Response, Covers;
    var image, wire := w.Image(), Session(w, g, xs).port.wire;
    var heard := Heard(|image|, Requests(xs));
    SessionDelivers(w, g, xs);
    assert wire[|g.port.wire|..] == Frames(Replies(image, heard));
    RepliesUnframe(cap, image, heard);
    forall k | 0 <= k < |image|
      ensures Flashed(mem, Replies(image, heard))[k]
           == if Covered(heard, |image|, k) then image[k] else mem[k]
    {
      FlashedHolds(image, mem, heard, k);
    }
  }

  lemma LastPieceHeard()
    ensures Done(2, [Request(1, 1), Request(0, 1)])
    ensures Heard(2, [Request(1, 1), Request(0, 1)]) == [Request(1, 1)]
    ensures !Covered([Request(1, 1)], 2, 0) && Covered([Request(1, 1)], 2, 1)
  {
    assert Covers(Request(1, 1), 2, 1);
    var qs := [Request(1, 1), Request(0, 1)];
    assert qs[..1] == [Request(1, 1)] && qs[..1][..0] == [];
    assert Request(1, 1) in [Request(1, 1)];
    DoneSnoc(2, [Request(1, 1)], Request(0, 1));
    assert [Request(1, 1)] + [Request(0, 1)] == qs;
  }

  /** A device that asks for the last piece first is never given the rest: it keeps its old byte. */
  lemma LastPieceFirst(w: World, g: G, xs: seq<Exchange>, cap: nat, mem: seq<u8>)
    requires Settled(g) && g.state.V3Upload? && Orderly(w, g, xs)
    requires Requests(xs) == [Request(1, 1), Request(0, 1)] && |w.Image()| == |mem| == 2 && cap >= 491
    ensures
      var r := Session(w, g, xs);
      r.state.V3WaitID? && g.port.wire <= r.port.wire &&
      var device := Flashed(mem, Run(cap, CLEAN, r.port.wire[|g.port.wire|..]).packets);
      device[0] == mem[0] && device[1] == w.Image()[1]
  {
    assert 2 < MAX_FILE_SIZE;
    hide *;
    LastPieceHeard();
    SessionDelivers(w, g, xs);
    DeviceHoldsImage(w, g, xs, cap, mem);
  }

  lemma RepliesUnframe(cap: nat, image: seq<u8>, qs: seq<Request>)
    requires cap >= 491
    ensures Run(cap, CLEAN, Frames(Replies(image, qs))) == Result(CLEAN, Replies(image, qs), 0)
  {
    hide Request.Response;
    var rs := Replies(image, qs);
    if rs != [] {
      forall r | r in rs ensures 1 <= |r| <= cap - 2 {
        var i :| 0 <= i < |rs| && rs[i] == r;
        assert rs[i] == qs[i].Response(image);
      }
      FramesDelivered(cap, CLEAN, rs);
      StepOutcome(cap, CLEAN, END);
      assert Step(cap, CLEAN, END).packets + rs == rs;
    }
  }
}
