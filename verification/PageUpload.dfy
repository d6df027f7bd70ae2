/**
 The V1 upload from the image to the device: page requests arrive as text in any pieces, pages leave
 as raw bytes under any partial writes.
 */
module PageUpload {
  import opened Bytes
  import opened Flasher
  import opened Framing
  import opened GcfFile
  import opened Input
  import opened MainLoop
  import opened OpenPort
  import opened RequestText
  import opened TextStream
  import opened Trace
  import opened Transmit
  import Upload

  ghost predicate Serving(g: G) {
    (g.state.V1Upload? || g.state.V1Validate?) && g.port.connected && |g.port.queue| < RING &&
    g.running && !g.trapped && g.timer != 0
  }

  lemma {:induction false} HarmlessPackets(w: World, g: G, ps: seq<seq<u8>>)
    requires Serving(g) && Harmless(ps)
    ensures w.Packets(g, ps) == g
  {
    if ps != [] {
      var front, p := ps[..|ps| - 1], ps[|ps| - 1];
      assert forall q <- front :: q in ps;
      HarmlessPackets(w, g, front);
      assert p in ps;
      HarmlessPacket(w, g, p);
    }
  }

  lemma HarmlessPacket(w: World, g: G, p: seq<u8>)
    requires Serving(g) && 1 <= |p| && p[0] != BTL_MAGIC
    ensures w.Packet(g, p) == g
  {
    assert w.Handle(g, PkgUartReset) == g && w.Handle(g, RxPacket) == g by {
      if g.state.V1Upload? {
        assert w.StV1Upload(g, PkgUartReset) == g && w.StV1Upload(g, RxPacket) == g;
      } else {
        assert w.StV1Validate(g, PkgUartReset) == g && w.StV1Validate(g, RxPacket) == g;
      }
    }
  }

  // ----- one request -----

  /** `t` has been received of a request that came when the port was as in `g0`. */
  ghost predicate Reading(g0: G, g: G, t: seq<u8>) {
    Serving(g) && g.state.V1Upload? && g.wp == |t| && g.ascii[..g.wp] == t && g.port == g0.port
  }

  /** Page `n` has been sent. */
  ghost predicate PageSent(w: World, g0: G, n: u16, g: G) {
    Serving(g) && g.wp == 0 && n as int * V1_PAGESIZE < |w.Image()| &&
    g.state == (if n as int == PageCount(|w.Image()|) - 1 then V1Validate else V1Upload) &&
    Stream(g.port) == Stream(g0.port) + Page(w.Image(), n)
  }

  lemma WriteKeepsStream(p: Port, data: seq<u8>, outcomes: seq<WriteOutcome>)
    requires p.connected && p.queue == [] && |data| < RING
    ensures var q := Transmit.Write(p, data, outcomes);
            q.connected && |q.queue| < RING && Stream(q) == Stream(p) + data
  {
    hide FlushAmount;
    PutAllKeepsNewest(p, data);
    assert [] + data == data;
    FlushKeepsStream(PutAll(p, data), outcomes);
    assert p.wire + [] == p.wire;
  }

  lemma PageReplied(w: World, g0: G, g: G, n: u16)
    requires Serving(g) && g.state.V1Upload? && g.port == g0.port && g0.port.queue == []
    requires n as int < PageCount(|w.Image()|)
    ensures var r := w.SendPage(g, n);
            PageSent(w, g0, n, r) && r.rx == g.rx && r.calls > g.calls
  {
    hide World.Image, Transmit.Write, Page;
    Upload.PageAnswered(w, g, n);
    Upload.LastPageIff(w.Image(), n);
    WriteKeepsStream(g.port, Page(w.Image(), n), w.writes(g.calls));
    PageKeeps(w, g, n);
    hide World.SendPage;
  }

  lemma PageKeeps(w: World, g: G, n: u16)
    requires g.state.V1Upload? && g.port.connected && n as int * V1_PAGESIZE < |w.Image()|
    ensures var r := w.SendPage(g, n);
            r.running == g.running && r.rx == g.rx && r.wp == 0 && r.timer != 0 && r.calls > g.calls
  {
    hide World.Image, World.Write, Transmit.Write, Page;
    Written(w, ResetInput(g).(remaining := |w.Image()| - n as int * V1_PAGESIZE), Page(w.Image(), n));
  }

  /** What a read of text does before the packets in it are looked at. */
  lemma TextRead(w: World, g0: G, g: G, data: seq<u8>, t: seq<u8>, n: u16)
    requires Reading(g0, g, t) && g0.port.queue == [] && data != [] && t + data <= Get(n)
    requires n as int < PageCount(|w.Image()|)
    ensures var r := w.ReceiveText(g, data);
            r.rx == g.rx && if |t + data| < 6 then Reading(g0, r, t + data) else PageSent(w, g0, n, r)
  {
    StoreAppends(g.ascii, g.wp, data);
    var (a, wp, k) := Store(g.ascii, g.wp, data);
    var g1 := g.(ascii := a, wp := wp);
    hide Store, World.SendPage, World.Image, PageSent;
    assert w.ReceiveText(g, data) == w.Handle(g1, RxAscii) == w.StV1Upload(g1, RxAscii);
    assert a[..wp] == t + data;
    if wp == 6 {
      GetReads(a, n);
      assert w.StV1Upload(g1, RxAscii) == w.SendPage(g1, n);
      PageReplied(w, g0, g1, n);
    }
  }

  lemma GetReads(a: InputBuffer, n: u16)
    requires a[..6] <= Get(n)
    ensures a[0] == 71 && a[5] == 59 && FromLe16(a[3..5]) == n
  {
    assert a[..6] == Get(n);
    assert a[0] == a[..6][0] && a[5] == a[..6][5];
    assert a[3..5] == a[..6][3..5] == Le16(n);
    LeRoundTrip(n);
  }

  // ----- behind the last page -----

  /** Request after request: every sixth byte is a G. */
  ghost predicate Periodic(text: seq<u8>) { forall i | 0 <= i < |text| && i % 6 == 0 :: text[i] == 71 }

  /** The page requests received in ST_V1ProgramValidate, of the last of which `t` has come. */
  ghost predicate Ignoring(g: G, t: seq<u8>) {
    Serving(g) && g.state.V1Validate? &&
    exists stream :: Periodic(stream) && |stream| % 6 == |t| % 6 && Holds(g.ascii, g.wp, stream)
  }

  lemma PeriodicGrows(stream: seq<u8>, t: seq<u8>, data: seq<u8>, n: u16)
    requires Periodic(stream) && |stream| % 6 == |t| % 6 && t + data <= Get(n)
    ensures Periodic(stream + data) && |stream + data| % 6 == |t + data| % 6
  {
    forall i | 0 <= i < |stream + data| && i % 6 == 0 ensures (stream + data)[i] == 71 {
      if i >= |stream| {
        var j := i - |stream|;
        assert (t + data)[|t| + j] == data[j] == (stream + data)[i];
        assert |t| + j == 0;
        assert (t + data)[0] == Get(n)[0];
      }
    }
  }

  /** No end of such a text contains the verdict of the device, which has no G. */
  lemma NoVerdict(text: seq<u8>, stream: seq<u8>)
    requires Periodic(stream) && |text| <= |stream| && text == stream[|stream| - |text|..]
    ensures !Contains(text, ValidCrc.Text())
  {
    var word := ValidCrc.Text();
    forall i | 0 <= i < |text| ensures !OccursAt(text, word, i) {
      if i + 10 <= |text| {
        var from := |stream| - |text| + i;
        var k := (6 - from % 6) % 6;
        assert (from + k) % 6 == 0;
        assert stream[from + k] == text[i + k] == text[i..i + 10][k];
        assert word[k] != 71;
      }
    }
  }

  lemma TextTaken(w: World, g: G, a: InputBuffer, wp: InputIndex, k: nat, data: seq<u8>)
    requires g.state.V1Validate? && Store(g.ascii, g.wp, data) == (a, wp, k) && !Contains(a[..wp], ValidCrc.Text())
    ensures var g1 := g.(ascii := a, wp := wp);
            w.ReceiveText(g, data) == if k > 0 then w.SetTimeout(g1, 1000) else g1
  {
    hide Store, Contains;
    var g1 := g.(ascii := a, wp := wp);
    assert w.Handle(g1, RxAscii) == w.StV1Validate(g1, RxAscii) == w.SetTimeout(g1, 1000);
  }

  /** Text of requests behind the one for the last page is stored and not answered. */
  lemma RequestUnanswered(w: World, g: G, data: seq<u8>, t: seq<u8>, n: u16)
    requires Ignoring(g, t) && data != [] && t + data <= Get(n)
    ensures var r := w.ReceiveText(g, data);
            Ignoring(r, t + data) && r.port == g.port && r.rx == g.rx &&
            (r.timer == g.timer || r.timer >= 1000) && r.calls >= g.calls
  {
    hide Store;
    var stream :| Periodic(stream) && |stream| % 6 == |t| % 6 && Holds(g.ascii, g.wp, stream);
    StoreHolds(g.ascii, g.wp, stream, data);
    PeriodicGrows(stream, t, data, n);
    var (a, wp, k) := Store(g.ascii, g.wp, data);
    NoVerdict(a[..wp], stream + data);
    hide Periodic, Contains, Holds;
    TextTaken(w, g, a, wp, k, data);
  }

  // ----- the request arrives in pieces, the page leaves in pieces -----

  /** Where an exchange stands after the text `t`. */
  ghost predicate Standing(w: World, g0: G, n: u16, t: seq<u8>, g: G) {
    if g0.state.V1Validate? then Ignoring(g, t) && g.port == g0.port
    else if |t| < 6 then Reading(g0, g, t) else PageSent(w, g0, n, g)
  }

  /** A read of text, with the packets the receiver makes of it. */
  lemma ReadText(w: World, g0: G, g: G, data: seq<u8>, t: seq<u8>, n: u16)
    requires Standing(w, g0, n, t, g) && g0.port.queue == [] && data != [] && t + data <= Get(n)
    requires n as int < PageCount(|w.Image()|) && Harmless(Run(HOST_BUFFER, g.rx, data).packets)
    ensures var r := w.Received(g, data);
            Standing(w, g0, n, t + data, r) && r.rx == Run(HOST_BUFFER, g.rx, data).rx && !r.trapped
  {
    hide Run, World.ReceiveText, World.Packets, World.Image, Ignoring;
    if g0.state.V1Validate? { RequestUnanswered(w, g, data, t, n); } else { TextRead(w, g0, g, data, t, n); }
    var g1 := w.ReceiveText(g, data);
    StandingServes(w, g0, n, t + data, g1);
    var run := Run(HOST_BUFFER, g1.rx, data);
    BufferBounded(HOST_BUFFER, g1.rx, data);
    DeliveredSizes(HOST_BUFFER, g1.rx, data);
    HarmlessPackets(w, g1.(rx := run.rx), run.packets);
    ReceiverAside(w, g0, n, t + data, g1, run.rx);
  }

  lemma StandingServes(w: World, g0: G, n: u16, t: seq<u8>, g: G)
    requires Standing(w, g0, n, t, g)
    ensures Serving(g) && (|t| < 6 ==> g.port == g0.port)
  {
  }

  lemma ReceiverAside(w: World, g0: G, n: u16, t: seq<u8>, g: G, rx: HostRx)
    requires Standing(w, g0, n, t, g)
    ensures Standing(w, g0, n, t, g.(rx := rx)) && Serving(g.(rx := rx))
  {
  }

  lemma OutputAside(w: World, g0: G, n: u16, t: seq<u8>, g: G, r: G)
    requires Standing(w, g0, n, t, g) && g0.port.queue == []
    requires r == g.(port := r.port, calls := r.calls) && r.port.connected && |r.port.queue| < RING
    requires Stream(r.port) == Stream(g.port) && (g.port.queue == [] ==> r.port == g.port)
    ensures Standing(w, g0, n, t, r)
  {
  }

  lemma CallsAside(w: World, g0: G, n: u16, t: seq<u8>, g: G, k: nat)
    requires Standing(w, g0, n, t, g)
    ensures Standing(w, g0, n, t, g.(calls := k))
  {
  }

  lemma TextTurn(w: World, g0: G, g: G, poll: Poll, t: seq<u8>, n: u16)
    requires Standing(w, g0, n, t, g) && g0.port.queue == [] && Quiet(poll) && InTime(w, g)
    requires t + DataOf(poll) <= Get(n) && n as int < PageCount(|w.Image()|)
    requires Harmless(Run(HOST_BUFFER, g.rx, DataOf(poll)).packets)
    ensures
      var r := w.Iterate(g, poll);
      Standing(w, g0, n, t + DataOf(poll), r) && r.rx == Run(HOST_BUFFER, g.rx, DataOf(poll)).rx
  {
    hide Standing, World.Iterate, World.Serve, World.Received, Run, World.Image;
    var g1, data := g.(calls := g.calls + 1), DataOf(poll);
    StandingServes(w, g0, n, t, g);
    CallsAside(w, g0, n, t, g, g.calls + 1);
    if data == [] {
      assert t + data == t;
      Upload.RunNothing(g.rx);
    }
    if poll.Idle? {
      IdleTurn(w, g);
    } else {
      PolledTurn(w, g, data);
      assert poll == Polled(false, data, false);
      if data == [] {
        Flushed(w, g1);
        OutputAside(w, g0, n, t, g1, w.Serve(g1, []));
      } else {
        ReadText(w, g0, g1, data, t, n);
        var h := w.Received(g1, data);
        ServeSplits(w, g1, data);
        StandingServes(w, g0, n, t + data, h);
        Flushed(w, h);
        OutputAside(w, g0, n, t + data, h, w.Serve(h, []));
      }
    }
  }

  lemma {:induction false} TurnsOk(w: World, g: G, n: u16, polls: seq<Poll>, rest: seq<u8>)
    requires Standing(w, g, n, [], g) && g.port.queue == [] && Prompt(w, g, polls)
    requires Inputs(polls) + rest == Get(n) && n as int < PageCount(|w.Image()|)
    requires Harmless(Run(HOST_BUFFER, g.rx, Get(n)).packets)
    ensures
      var r := Turns(w, g, polls);
      Standing(w, g, n, Inputs(polls), r) && r.rx == Run(HOST_BUFFER, g.rx, Inputs(polls)).rx
  {
    hide Standing, Run, World.Iterate, World.Image, Get, DataOf, Quiet;
    if polls == [] {
      Upload.RunNothing(g.rx);
    } else {
      var front, last := polls[..|polls| - 1], polls[|polls| - 1];
      var t, data := Inputs(front), DataOf(last);
      assert t + (data + rest) == Inputs(polls) + rest;
      TurnsOk(w, g, n, front, data + rest);
      RunCompose(HOST_BUFFER, g.rx, t, data);
      HarmlessPart(g.rx, t, data, rest);
      assert t + data <= t + data + rest;
      TextTurn(w, g, Turns(w, g, front), last, t, n);
    }
  }

  /** The packets of a part of a text are among those of the text. */
  lemma HarmlessPart(rx: Rx, a: seq<u8>, b: seq<u8>, c: seq<u8>)
    requires Harmless(Run(HOST_BUFFER, rx, a + b + c).packets)
    ensures Harmless(Run(HOST_BUFFER, Run(HOST_BUFFER, rx, a).rx, b).packets)
  {
    hide Run;
    RunCompose(HOST_BUFFER, rx, a + b, c);
    RunCompose(HOST_BUFFER, rx, a, b);
    var x, y := Run(HOST_BUFFER, rx, a).packets, Run(HOST_BUFFER, Run(HOST_BUFFER, rx, a).rx, b).packets;
    var all := Run(HOST_BUFFER, rx, a + b + c).packets;
    assert x + y <= all;
    assert forall p <- y :: p in x + y;
    assert forall p <- x + y :: p in all;
  }

  // ----- whole uploads -----

  /** One page request, and the turns in which it arrives and the page leaves. */
  datatype Exchange = Exchange(page: u16, polls: seq<Poll>)

  function Session(w: World, g: G, xs: seq<Exchange>): G {
    if xs == [] then g else Turns(w, Session(w, g, xs[..|xs| - 1]), xs[|xs| - 1].polls)
  }

  /** Between page requests. */
  ghost predicate Ready(g: G) { Serving(g) && g.state.V1Upload? && g.wp == 0 && g.port.queue == [] }

  /** Behind the last page, nothing waits to be sent. */
  ghost predicate Waiting(g: G) { Ignoring(g, []) && g.port.queue == [] }

  /** Every exchange brings the text of its request, in time, and lets the ring drain. */
  ghost predicate Orderly(w: World, g: G, xs: seq<Exchange>) {
    xs == [] ||
    (var h, x := Session(w, g, xs[..|xs| - 1]), xs[|xs| - 1];
     Orderly(w, g, xs[..|xs| - 1]) && Inputs(x.polls) == Get(x.page) && Prompt(w, h, x.polls) &&
     Turns(w, h, x.polls).port.queue == [])
  }

  function PageNumbers(xs: seq<Exchange>): (ns: seq<u16>)
    ensures |ns| == |xs|
  {
    seq(|xs|, i requires 0 <= i < |xs| => xs[i].page)
  }

  /** Pages of the image. */
  predicate InImage(size: nat, ns: seq<u16>) { forall i | 0 <= i < |ns| :: ns[i] as int < PageCount(size) }

  /** The last page has been asked for. */
  predicate Done(size: nat, ns: seq<u16>) {
    exists i | 0 <= i < |ns| :: ns[i] as int == PageCount(size) - 1
  }

  /** The requests up to and including the first for the last page. */
  function Heard(size: nat, ns: seq<u16>): seq<u16> {
    if ns == [] then []
    else
      var front := Heard(size, ns[..|ns| - 1]);
      if Done(size, ns[..|ns| - 1]) then front else front + [ns[|ns| - 1]]
  }

  lemma {:induction false} HeardIsPrefix(size: nat, ns: seq<u16>)
    ensures Heard(size, ns) <= ns
    ensures |Heard(size, ns)| == |ns| <==> ns == [] || !Done(size, ns[..|ns| - 1])
  {
    hide Done, PageCount;
    if ns != [] {
      var front := ns[..|ns| - 1];
      HeardIsPrefix(size, front);
      assert ns == front + [ns[|ns| - 1]];
      assert front != [] ==> front == front[..|front| - 1] + [front[|front| - 1]];
      if front != [] { DoneSnoc(size, front[..|front| - 1], front[|front| - 1]); }
    }
  }

  lemma DoneSnoc(size: nat, ns: seq<u16>, n: u16)
    ensures Done(size, ns + [n]) <==> Done(size, ns) || n as int == PageCount(size) - 1
  {
    var ms := ns + [n];
    assert ms[|ns|] == n && forall i | 0 <= i < |ns| :: ms[i] == ns[i];
  }

  lemma HeardSnoc(size: nat, ns: seq<u16>, n: u16)
    ensures Heard(size, ns + [n]) == if Done(size, ns) then Heard(size, ns) else Heard(size, ns) + [n]
  {
    assert (ns + [n])[..|ns|] == ns;
  }

  function PagesOf(image: seq<u8>, ns: seq<u16>): seq<u8>
    requires InImage(|image|, ns)
  {
    if ns == [] then []
    else
      InImageFront(|image|, ns);
      Upload.LastPageIff(image, ns[|ns| - 1]);
      PagesOf(image, ns[..|ns| - 1]) + Page(image, ns[|ns| - 1])
  }

  lemma InImageFront(size: nat, ns: seq<u16>)
    requires InImage(size, ns) && ns != []
    ensures InImage(size, ns[..|ns| - 1]) && ns[|ns| - 1] as int < PageCount(size)
  {
  }

  lemma InImagePrefix(size: nat, ms: seq<u16>, ns: seq<u16>)
    requires InImage(size, ns) && ms <= ns
    ensures InImage(size, ms)
  {
  }

  lemma ExchangeOk(w: World, g: G, x: Exchange)
    requires (Ready(g) || Waiting(g)) && Tame(g.rx) && x.page < 0xC000 && x.page as int < PageCount(|w.Image()|)
    requires Inputs(x.polls) == Get(x.page) && Prompt(w, g, x.polls) && Turns(w, g, x.polls).port.queue == []
    ensures
      var r := Turns(w, g, x.polls);
      x.page as int * V1_PAGESIZE < |w.Image()| &&
      r.rx == Run(HOST_BUFFER, g.rx, Get(x.page)).rx && Tame(r.rx) &&
      r.port.wire == g.port.wire + (if g.state.V1Validate? then [] else Page(w.Image(), x.page)) &&
      (!g.state.V1Validate? ==> r.wp == 0) &&
      if g.state.V1Validate? || x.page as int == PageCount(|w.Image()|) - 1 then Waiting(r) else Ready(r)
  {
    hide Run, Turns, Prompt, Inputs, World.Image, Get, Page, PageCount, Tame, Harmless, Ignoring;
    StartsStanding(w, g, x.page);
    assert Get(x.page) + [] == Get(x.page);
    RequestHarmless(g.rx, x.page);
    Upload.LastPageIff(w.Image(), x.page);
    TurnsOk(w, g, x.page, x.polls, []);
    var r := Turns(w, g, x.polls);
    if g.state.V1Validate? { SixIsNone(r, Get(x.page)); }
    if r.wp == 0 && r.state.V1Validate? && Serving(r) { NothingIgnored(r); }
    assert Stream(g.port) == g.port.wire && Stream(r.port) == r.port.wire;
  }

  lemma StartsStanding(w: World, g: G, n: u16)
    requires Ready(g) || Waiting(g)
    ensures Standing(w, g, n, [], g)
  {
    assert g.ascii[..0] == [];
    hide Ignoring, PageSent;
  }

  lemma SixIsNone(g: G, t: seq<u8>)
    requires Ignoring(g, t) && |t| == 6
    ensures Ignoring(g, [])
  {
  }

  lemma NothingIgnored(g: G)
    requires Serving(g) && g.state.V1Validate? && g.wp == 0
    ensures Ignoring(g, [])
  {
    assert Periodic([]) && g.ascii[..0] == [];
  }

  /** One more request extends what has been written by its page, if it is still heard. */
  lemma PagesOn(image: seq<u8>, ns: seq<u16>, n: u16, start: seq<u8>, wire: seq<u8>)
    requires InImage(|image|, ns) && n as int < PageCount(|image|) && n as int * V1_PAGESIZE < |image|
    requires InImage(|image|, Heard(|image|, ns)) && wire == start + PagesOf(image, Heard(|image|, ns))
    ensures InImage(|image|, Heard(|image|, ns + [n]))
    ensures wire + (if Done(|image|, ns) then [] else Page(image, n))
         == start + PagesOf(image, Heard(|image|, ns + [n]))
  {
    hide Page, PageCount, PagesOf, Done;
    HeardSnoc(|image|, ns, n);
    if Done(|image|, ns) {
      assert wire + [] == wire;
    } else {
      var heard := Heard(|image|, ns);
      PagesSnoc(image, heard, n);
      assert start + PagesOf(image, heard) + Page(image, n) == start + (PagesOf(image, heard) + Page(image, n));
    }
  }

  lemma NoPages(image: seq<u8>)
    ensures InImage(|image|, []) && PagesOf(image, []) == [] && Heard(|image|, []) == [] && !Done(|image|, [])
  {
  }

  lemma PagesSnoc(image: seq<u8>, ns: seq<u16>, n: u16)
    requires InImage(|image|, ns) && n as int < PageCount(|image|)
    ensures InImage(|image|, ns + [n]) && n as int * V1_PAGESIZE < |image|
    ensures PagesOf(image, ns + [n]) == PagesOf(image, ns) + Page(image, n)
  {
    hide Page, PageCount;
    assert (ns + [n])[..|ns|] == ns;
    Upload.LastPageIff(image, n);
  }

  /**
   The upload as a whole: however the requests and pages are cut into pieces, the bytes that have
   reached the descriptor are the pages asked for up to the first request for the last page, one after
   the other, and nothing else; validation begins exactly with the last page.
   */
  lemma {:induction false} PagesDelivered(w: World, g: G, xs: seq<Exchange>)
    requires Ready(g) && (g.rx.buf == [] || g.rx.buf[0] != BTL_MAGIC) && |w.Image()| <= MAX_FILE_SIZE
    requires Orderly(w, g, xs) && InImage(|w.Image()|, PageNumbers(xs))
    ensures
      var r, ns, size := Session(w, g, xs), PageNumbers(xs), |w.Image()|;
      InImage(size, Heard(size, ns)) && r.port.wire == g.port.wire + PagesOf(w.Image(), Heard(size, ns)) &&
      r.rx == Run(HOST_BUFFER, g.rx, Texts(ns)).rx && Tame(r.rx) &&
      (ns == [] || !Done(size, ns[..|ns| - 1]) ==> r.wp == 0) &&
      if Done(size, ns) then Waiting(r) else Ready(r)
  {
    hide Run, Turns, Prompt, World.Image, Get, Page, PageCount, Ready, Waiting, Inputs, PagesOf, InImage, Heard, Done;
    hide Tame;
    var ns, size := PageNumbers(xs), |w.Image()|;
    if xs == [] {
      StateIs(g);
      NoPages(w.Image());
      RunsNothing(g.rx);
      LeftoverTame(g.rx);
      assert g.port.wire + [] == g.port.wire;
    } else {
      var front, x := xs[..|xs| - 1], xs[|xs| - 1];
      var ms := PageNumbers(front);
      assert ms == ns[..|ns| - 1] && ns == ms + [x.page];
      InImageFront(size, ns);
      PagesDelivered(w, g, front);
      var h := Session(w, g, front);
      SmallNumber(size, x.page);
      StateIs(h);
      ExchangeOk(w, h, x);
      RunCompose(HOST_BUFFER, g.rx, Texts(ms), Get(x.page));
      PagesOn(w.Image(), ms, x.page, g.port.wire, h.port.wire);
      DoneSnoc(size, ms, x.page);
    }
  }

  lemma StateIs(g: G)
    ensures Ready(g) ==> !g.state.V1Validate? && g.wp == 0
    ensures Waiting(g) ==> g.state.V1Validate?
  {
  }

  lemma SmallNumber(size: nat, n: u16)
    requires n as int < PageCount(size) && size <= MAX_FILE_SIZE
    ensures n < 0xC000
  {
  }

  /** Every page asked for is delivered if and only if no request before the final one is for the last page. */
  lemma AllPagesIff(w: World, g: G, xs: seq<Exchange>)
    requires Ready(g) && (g.rx.buf == [] || g.rx.buf[0] != BTL_MAGIC) && |w.Image()| <= MAX_FILE_SIZE
    requires Orderly(w, g, xs) && InImage(|w.Image()|, PageNumbers(xs)) && xs != []
    ensures
      Session(w, g, xs).port.wire == g.port.wire + PagesOf(w.Image(), PageNumbers(xs)) <==>
      !Done(|w.Image()|, PageNumbers(xs)[..|xs| - 1])
  {
    hide Session, Orderly, Ready, Done, Heard, PagesOf, InImage, World.Image, PageCount, Run;
    var ns, size := PageNumbers(xs), |w.Image()|;
    PagesDelivered(w, g, xs);
    HeardIsPrefix(size, ns);
    if |Heard(size, ns)| == |ns| {
      assert Heard(size, ns) == ns;
    } else {
      PagesGrow(w.Image(), Heard(size, ns), ns);
    }
  }

  lemma {:induction false} PagesGrow(image: seq<u8>, ms: seq<u16>, ns: seq<u16>)
    requires InImage(|image|, ns) && ms <= ns && |ms| < |ns|
    ensures InImage(|image|, ms) && |PagesOf(image, ms)| < |PagesOf(image, ns)|
    decreases |ns|
  {
    var front, n := ns[..|ns| - 1], ns[|ns| - 1];
    InImagePrefix(|image|, ms, ns);
    InImageFront(|image|, ns);
    assert ns == front + [n];
    hide InImage, PagesOf, PageCount, Page;
    PagesSnoc(image, front, n);
    if |ms| < |front| {
      assert ms <= front;
      PagesGrow(image, ms, front);
    } else {
      assert ms == front;
    }
  }

  // ----- the device -----

  function PageSize(size: nat, n: nat): (len: nat)
    ensures len <= V1_PAGESIZE
  {
    if n * V1_PAGESIZE >= size then 0
    else if size - n * V1_PAGESIZE > V1_PAGESIZE then V1_PAGESIZE else size - n * V1_PAGESIZE
  }

  /** The device stores what arrives at the pages it asked for, in the order it asked. */
  function Stored(mem: seq<u8>, ns: seq<u16>, data: seq<u8>): (r: seq<u8>)
    ensures |r| == |mem|
    decreases |ns|
  {
    if ns == [] then mem
    else
      var at, len := ns[0] as int * V1_PAGESIZE, PageSize(|mem|, ns[0]);
      if |data| < len || at + len > |mem| then mem
      else Stored(mem[..at] + data[..len] + mem[at + len..], ns[1..], data[len..])
  }

  predicate Asked(ns: seq<u16>, k: nat) { exists n <- ns :: n as int == k / V1_PAGESIZE }

  lemma Associative(a: seq<u8>, b: seq<u8>, c: seq<u8>)
    ensures a + (b + c) == a + b + c
  {
  }

  lemma {:induction false} PagesCons(image: seq<u8>, ns: seq<u16>)
    requires InImage(|image|, ns) && ns != []
    ensures InImage(|image|, ns[1..]) && ns[0] as int * V1_PAGESIZE < |image|
    ensures PagesOf(image, ns) == Page(image, ns[0]) + PagesOf(image, ns[1..])
    decreases |ns|
  {
    InImageFront(|image|, ns);
    hide Page, PageCount, PagesOf, InImage;
    Upload.LastPageIff(image, ns[0]);
    var front, n := ns[..|ns| - 1], ns[|ns| - 1];
    assert ns == front + [n];
    PagesSnoc(image, front, n);
    if front == [] {
      assert ns[1..] == [];
      NoPages(image);
      assert Page(image, ns[0]) + [] == [] + Page(image, ns[0]);
    } else {
      assert ns[1..][..|ns| - 2] == front[1..] && ns[1..] == front[1..] + [n] && front[0] == ns[0];
      PagesCons(image, front);
      PagesSnoc(image, front[1..], n);
      Associative(Page(image, ns[0]), PagesOf(image, front[1..]), Page(image, n));
    }
  }

  /** `mem` with a page written to its place. */
  function Patched(mem: seq<u8>, n: nat, page: seq<u8>): (r: seq<u8>)
    requires n * V1_PAGESIZE + |page| <= |mem|
    ensures |r| == |mem|
  {
    mem[..n * V1_PAGESIZE] + page + mem[n * V1_PAGESIZE + |page|..]
  }

  lemma PageAt(image: seq<u8>, mem: seq<u8>, n: nat, k: nat)
    requires |mem| == |image| && n * V1_PAGESIZE < |image| && k < |image|
    ensures
      |Page(image, n)| == PageSize(|image|, n) && n * V1_PAGESIZE + |Page(image, n)| <= |image| &&
      Patched(mem, n, Page(image, n))[k] == if k / V1_PAGESIZE == n then image[k] else mem[k]
  {
  }

  lemma PageStored(image: seq<u8>, mem: seq<u8>, ns: seq<u16>, data: seq<u8>)
    requires ns != [] && |mem| == |image| && ns[0] as int * V1_PAGESIZE < |image|
    requires |Page(image, ns[0])| == PageSize(|image|, ns[0])
    requires ns[0] as int * V1_PAGESIZE + |Page(image, ns[0])| <= |image|
    ensures Stored(mem, ns, Page(image, ns[0]) + data) == Stored(Patched(mem, ns[0], Page(image, ns[0])), ns[1..], data)
  {
    hide Page, PageSize;
    Halves(Page(image, ns[0]), data);
  }

  lemma NothingStored(image: seq<u8>, mem: seq<u8>, ns: seq<u16>)
    requires |mem| == |image| && InImage(|image|, ns)
    ensures PagesOf(image, []) == [] && Stored(mem, ns, []) == mem
  {
    if ns != [] { Upload.LastPageIff(image, ns[0]); }
  }

  /** The pages of `ns` arrive, those of `rest` do not. */
  lemma {:induction false} StoredHolds(image: seq<u8>, mem: seq<u8>, ns: seq<u16>, rest: seq<u16>, k: nat)
    requires |mem| == |image| && InImage(|image|, ns) && InImage(|image|, rest) && k < |image|
    ensures Stored(mem, ns + rest, PagesOf(image, ns))[k] == if Asked(ns, k) then image[k] else mem[k]
    decreases |ns|
  {
    hide *;
    if ns == [] {
      assert ns + rest == rest;
      NothingStored(image, mem, rest);
      AskedNone(k);
    } else {
      PagesCons(image, ns);
      var page, tail := Page(image, ns[0]), ns[1..];
      PageAt(image, mem, ns[0], k);
      PageStored(image, mem, ns + rest, PagesOf(image, tail));
      assert (ns + rest)[1..] == tail + rest;
      StoredHolds(image, Patched(mem, ns[0], page), tail, rest, k);
      AskedCons(ns, k);
    }
  }

  lemma AskedNone(k: nat)
    ensures !Asked([], k)
  {
  }

  lemma Halves(a: seq<u8>, b: seq<u8>)
    ensures (a + b)[..|a|] == a && (a + b)[|a|..] == b
  {
  }

  lemma AskedCons(ns: seq<u16>, k: nat)
    requires ns != []
    ensures Asked(ns, k) <==> ns[0] as int == k / V1_PAGESIZE || Asked(ns[1..], k)
  {
    assert ns == [ns[0]] + ns[1..];
    assert ns[0] in ns && (forall n <- ns :: n == ns[0] || n in ns[1..]) && forall n <- ns[1..] :: n in ns;
  }

  /**
   End to end: the device, which stores what arrives at the pages it asked for, holds the image's byte
   on every page it asked for in time, and its own byte elsewhere.
   */
  lemma DeviceHoldsPages(w: World, g: G, xs: seq<Exchange>, mem: seq<u8>)
    requires Ready(g) && (g.rx.buf == [] || g.rx.buf[0] != BTL_MAGIC) && |w.Image()| <= MAX_FILE_SIZE
    requires Orderly(w, g, xs) && InImage(|w.Image()|, PageNumbers(xs)) && |mem| == |w.Image()|
    ensures
      var wire, ns := Session(w, g, xs).port.wire, PageNumbers(xs);
      var heard := Heard(|mem|, ns);
      g.port.wire <= wire &&
      forall k | 0 <= k < |mem| ::
        Stored(mem, ns, wire[|g.port.wire|..])[k] == if Asked(heard, k) then w.Image()[k] else mem[k]
  {
    hide Run, Session, Orderly, Ready, Waiting, World.Image, PagesOf, Stored, Asked, Texts, Heard, Done, Tame;
    hide PageCount;
    var wire, ns := Session(w, g, xs).port.wire, PageNumbers(xs);
    var heard := Heard(|mem|, ns);
    PagesDelivered(w, g, xs);
    HeardIsPrefix(|mem|, ns);
    var rest := ns[|heard|..];
    assert heard + rest == ns;
    assert wire[|g.port.wire|..] == PagesOf(w.Image(), heard);
    forall k | 0 <= k < |mem|
      ensures Stored(mem, ns, PagesOf(w.Image(), heard))[k] == if Asked(heard, k) then w.Image()[k] else mem[k]
    {
      StoredHolds(w.Image(), mem, heard, rest, k);
    }
  }

  /** A device that asks for the second of two pages first is never given the first. */
  lemma LastPageFirst(w: World, g: G, xs: seq<Exchange>, mem: seq<u8>)
    requires Ready(g) && (g.rx.buf == [] || g.rx.buf[0] != BTL_MAGIC)
    requires Orderly(w, g, xs) && PageNumbers(xs) == [1, 0]
    requires |mem| == |w.Image()| && V1_PAGESIZE < |mem| <= 2 * V1_PAGESIZE
    ensures
      var r := Session(w, g, xs);
      r.state.V1Validate? && g.port.wire <= r.port.wire &&
      Stored(mem, [1, 0], r.port.wire[|g.port.wire|..]) == mem[..V1_PAGESIZE] + w.Image()[V1_PAGESIZE..]
  {
    LastHeard(|mem|);
    hide *;
    assert PageNumbers(xs) == [1, 0] && |w.Image()| == |mem| && |mem| <= MAX_FILE_SIZE;
    PagesDelivered(w, g, xs);
    DeviceHoldsPages(w, g, xs, mem);
    StateIs(Session(w, g, xs));
    SecondPageOnly(mem, w.Image(), Stored(mem, [1, 0], Session(w, g, xs).port.wire[|g.port.wire|..]));
  }

  lemma SecondPageOnly(mem: seq<u8>, image: seq<u8>, got: seq<u8>)
    requires |got| == |mem| == |image| && V1_PAGESIZE < |mem| <= 2 * V1_PAGESIZE
    requires forall k | 0 <= k < |mem| :: got[k] == if Asked([1], k) then image[k] else mem[k]
    ensures got == mem[..V1_PAGESIZE] + image[V1_PAGESIZE..]
  {
    hide Asked;
    forall k | 0 <= k < |mem| ensures got[k] == (mem[..V1_PAGESIZE] + image[V1_PAGESIZE..])[k] {
      AskedLast(|mem|, k);
    }
  }

  lemma LastHeard(size: nat)
    requires V1_PAGESIZE < size <= 2 * V1_PAGESIZE
    ensures InImage(size, [1, 0]) && Done(size, [1, 0]) && Heard(size, [1, 0]) == [1] && size <= MAX_FILE_SIZE
  {
    assert PageCount(size) == 2;
    DoneSnoc(size, [], 1);
    DoneSnoc(size, [1], 0);
    HeardSnoc(size, [], 1);
    HeardSnoc(size, [1], 0);
    assert [] + [1] == [1] && [1] + [0] == [1, 0];
  }

  lemma AskedLast(size: nat, k: nat)
    requires k < size <= 2 * V1_PAGESIZE
    ensures Asked([1], k) <==> k >= V1_PAGESIZE
  {
    assert 1 in [1];
  }
}
