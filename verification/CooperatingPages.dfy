/**
 Whole runs of the V1 upload from the start of the program: for every image there is one that ends with
 the success report, and one in which a device that asks for the last page first never gets the rest.
 */
module CooperatingPages {
  import opened Bytes
  import opened CooperatingDevice
  import opened Flasher
  import opened Framing
  import opened GcfFile
  import opened Input
  import opened MainLoop
  import opened OpenPort
  import opened PageUpload
  import opened Reactions
  import opened RequestText
  import opened TextStream
  import opened Trace
  import opened Transmit

  /** A read that returns one text. */
  function Line(text: seq<u8>): Poll { Polled(false, text, false) }

  function Hello(): (b: seq<u8>)
    ensures |b| == 42
  {
    seq(31, _ => 46) + Ascii("Bootloader") + [10]
  }

  /** Text without END changes the receiver and otherwise does what the text does. */
  lemma LineTurn(w: World, g: G, text: seq<u8>)
    requires g.running && !g.trapped && g.timer != 0 && InTime(w, g) && g.port.connected
    requires END !in text && text != []
    requires var h := w.ReceiveText(g.(calls := g.calls + 1), text);
             !h.trapped && h.port.queue == [] && h.rx == g.rx
    ensures
      var rx := Run(HOST_BUFFER, g.rx, text).rx;
      |rx.buf| <= HOST_BUFFER &&
      w.Iterate(g, Line(text)) == w.ReceiveText(g.(calls := g.calls + 1), text).(rx := rx)
  {
    hide World.ReceiveText, Run, World.FlushPort;
    PolledTurn(w, g, text);
    BufferBounded(HOST_BUFFER, g.rx, text);
    Decoder.QuietWithoutEnd(HOST_BUFFER, g.rx, text);
    var h := w.ReceiveText(g.(calls := g.calls + 1), text);
    var h' := h.(rx := Run(HOST_BUFFER, g.rx, text).rx);
    assert w.Packets(h', []) == h';
    assert w.Received(g.(calls := g.calls + 1), text) == h';
  }

  /** A message of at most 512 bytes leaves an empty ring at once. */
  lemma WriteDrains(w: World, g: G, bytes: seq<u8>)
    requires g.port.connected && g.port.queue == [] && |bytes| <= FLUSH_MAX && Upload.Willing(w)
    ensures var r := w.Write(g, bytes);
            r == g.(port := r.port, calls := g.calls + 1, trace := r.trace) &&
            r.port.connected && r.port.queue == []
  {
    hide World.Write, Transmit.Accepted;
    Written(w, g, bytes);
    Drained(w, g.port, bytes, g.calls);
  }

  lemma Drained(w: World, p: Port, bytes: seq<u8>, k: nat)
    requires p.connected && p.queue == [] && |bytes| <= FLUSH_MAX && Upload.Willing(w)
    ensures Transmit.Write(p, bytes, w.writes(k)).queue == []
  {
    hide Transmit.Accepted;
    PutAllKeepsNewest(p, bytes);
    assert [] + bytes == bytes;
    Upload.FullFlush(PutAll(p, bytes), w.writes(k));
  }

  // ----- to the upload -----

  /** Where a dialogue in text stands: everything sent has left, and the clock stands still. */
  ghost predicate Talking(g: G) {
    g.running && !g.trapped && g.wp == 0 && g.port.connected && g.port.queue == [] && Calm(g)
  }

  /** What has been read of the dialogue before the upload. */
  predicate HasRead(g: G, text: seq<u8>) { g.rx == Rx(text, false) }

  lemma TextStored(a: InputBuffer, text: seq<u8>)
    requires 0 < |text| <= 100
    ensures
      var (b, n, k) := Store(a, 0, text);
      n == |text| && k > 0 && b[..n] == text && b[n - 1] == text[|text| - 1]
  {
    StoreAppends(a, 0, text);
    var (b, n, k) := Store(a, 0, text);
    assert a[..0] + text == text;
    hide Store;
    assert b[n - 1] == b[..n][n - 1];
  }

  lemma TextEnters(w: World, g: G, text: seq<u8>, a: InputBuffer, n: InputIndex, k: nat)
    requires w.TakesText(g.state) && Store(g.ascii, g.wp, text) == (a, n, k) && k > 0
    ensures w.ReceiveText(g, text) == w.Handle(g.(ascii := a, wp := n), RxAscii)
  {
    hide World.Handle, Store;
  }

  lemma WordFound(g: G, before: seq<u8>, word: Keyword, after: seq<u8>)
    requires g.ascii[..g.wp] == before + word.Text() + after
    ensures Finds(g, word)
  {
    var text := before + word.Text() + after;
    assert text[|before|..|before| + |word.Text()|] == word.Text();
    assert OccursAt(text, word.Text(), |before|);
  }

  /** An answer has left, and `ms` milliseconds are given for what follows. */
  ghost predicate Answered(w: World, g: G, s: State, ms: nat, r: G) {
    r.state == s && r.wp == 0 && r.rx == g.rx && r.running == g.running && r.trapped == g.trapped &&
    r.calls == g.calls + 2 && r.port.connected && r.port.queue == [] && r.timer == w.now(g.calls + 1) + ms
  }

  lemma Answers(w: World, g: G, bytes: seq<u8>, ms: nat)
    requires g.port.connected && g.port.queue == [] && |bytes| <= FLUSH_MAX && Upload.Willing(w) && g.wp == 0
    ensures Answered(w, g, g.state, ms, w.SetTimeout(w.Write(g, bytes), ms))
  {
    hide World.Write, Upload.Willing;
    WriteDrains(w, g, bytes);
  }

  function Synced(g: G): G { ResetInput(LogWord(ClearTimeout(g), Bootloader).(state := V1Sync)) }

  lemma HelloLeads(w: World, g: G)
    requires g.state.BootloaderQuery? && g.ascii[..g.wp] == Hello()
    ensures w.Handle(g, RxAscii) == w.SetTimeout(w.Write(Synced(g), V1_SYNC), 500)
  {
    hide World.Write;
    WordFound(g, seq(31, _ => 46), Bootloader, [10]);
    assert g.ascii[g.wp - 1] == g.ascii[..g.wp][g.wp - 1] == 10;
    hide Finds, LogWord, World.Handle, World.StBootloaderQuery;
    QueryHandles(w, g, RxAscii);
    GreetingRaised(w, g);
    SyncSent(w, LogWord(ClearTimeout(g), Bootloader).(state := V1Sync));
  }

  lemma SyncedIs(g: G)
    ensures var h := Synced(g);
            h.state.V1Sync? && h.wp == 0 &&
            h == g.(state := h.state, wp := 0, ascii := h.ascii, timer := 0, trace := h.trace)
  {
    FlasherInvariant.LogWordIs(ClearTimeout(g), Bootloader);
    hide LogWord;
  }

  lemma ShortSync()
    ensures |V1_SYNC| <= FLUSH_MAX
  {
  }

  lemma SyncedAnswered(w: World, g: G, r: G)
    requires Answered(w, Synced(g), Synced(g).state, 500, r)
    ensures Answered(w, g, V1Sync, 500, r)
  {
    SyncedIs(g);
    hide Synced;
  }

  lemma HelloTaken(w: World, g: G)
    requires g.state.BootloaderQuery? && g.ascii[..g.wp] == Hello() && Upload.Willing(w)
    requires g.port.connected && g.port.queue == []
    ensures Answered(w, g, V1Sync, 500, w.Handle(g, RxAscii))
  {
    hide *;
    HelloLeads(w, g);
    SyncedIs(g);
    ShortSync();
    Answers(w, Synced(g), V1_SYNC, 500);
    SyncedAnswered(w, g, w.Handle(g, RxAscii));
  }

  const READY: seq<u8> := [82, 69, 65, 68, 89]

  function Heading(g: G): G {
    ResetInput(LogWord(ClearTimeout(g), Keyword.Ready).(state := V1WriteHeader)).(state := V1Upload)
  }

  lemma ReadyLeads(w: World, g: G)
    requires g.state.V1Sync? && g.ascii[..g.wp] == READY
    ensures w.Handle(g, RxAscii) == w.SetTimeout(w.Write(Heading(g), V1Header(w.Head())), 1000)
  {
    hide World.Write, World.Head;
    assert READY == Keyword.Ready.Text() && [] + READY + [] == READY;
    WordFound(g, [], Keyword.Ready, []);
    hide Finds, LogWord, World.Handle, World.StV1Sync;
    V1SyncHandles(w, g, RxAscii);
    ReadyRaised(w, g);
    HeaderSent(w, LogWord(ClearTimeout(g), Keyword.Ready).(state := V1WriteHeader));
  }

  lemma HeadingIs(g: G)
    ensures var h := Heading(g);
            h.state.V1Upload? && h.wp == 0 &&
            h == g.(state := h.state, wp := 0, ascii := h.ascii, timer := 0, trace := h.trace)
  {
    FlasherInvariant.LogWordIs(ClearTimeout(g), Keyword.Ready);
    hide LogWord;
  }

  lemma ReadyTaken(w: World, g: G)
    requires g.state.V1Sync? && g.ascii[..g.wp] == READY && Upload.Willing(w)
    requires g.port.connected && g.port.queue == []
    ensures Answered(w, g, V1Upload, 1000, w.Handle(g, RxAscii))
  {
    ReadyLeads(w, g);
    HeadingIs(g);
    hide Heading, World.Write, World.Handle, World.Head, Upload.Willing, World.SetTimeout;
    Answers(w, Heading(g), V1Header(w.Head()), 1000);
  }

  lemma ClockStands(file: seq<u8>, g: G)
    requires g.calls >= 8 && g.timer >= 1000
    ensures InTime(CalmWorld(file), g) && CalmWorld(file).now(g.calls + 2) == 1000
  {
  }

  lemma TextReceived(w: World, g: G, text: seq<u8>, a: InputBuffer)
    requires w.TakesText(g.state) && g.wp == 0 && 0 < |text| <= 100 && Store(g.ascii, 0, text).0 == a
    ensures w.ReceiveText(g, text) == w.Handle(g.(ascii := a, wp := |text|), RxAscii)
  {
    hide World.Handle, Store;
    TextStored(g.ascii, text);
    var (_, n, k) := Store(g.ascii, 0, text);
    TextEnters(w, g, text, a, n, k);
  }

  lemma AnsweredTalks(w: World, g: G, s: State, ms: nat, h: G, rx: HostRx)
    requires Answered(w, g, s, ms, h) && g.running && !g.trapped && g.calls >= 8 && w.now(g.calls + 1) == 1000
    ensures Talking(h.(rx := rx)) && h.state == s && !h.trapped && h.port.queue == [] && h.rx == g.rx
  {
  }

  /** A turn that reads a text which is answered by `h`. */
  lemma TextTurned(w: World, g: G, before: seq<u8>, text: seq<u8>, h: G)
    requires g.running && !g.trapped && g.timer != 0 && InTime(w, g) && g.port.connected
    requires g.rx == Rx(before, false) && |before| + |text| <= HOST_BUFFER
    requires END !in text && ESC !in text && text != []
    requires h == w.ReceiveText(g.(calls := g.calls + 1), text) && !h.trapped && h.port.queue == [] && h.rx == g.rx
    ensures w.Iterate(g, Line(text)) == h.(rx := Rx(before + text, false))
  {
    hide World.ReceiveText, World.Iterate, Run;
    PlainHeld(HOST_BUFFER, before, text);
    LineTurn(w, g, text);
  }

  lemma HelloPlain()
    ensures END !in Hello() && ESC !in Hello()
  {
  }

  lemma Synchronises(file: seq<u8>, g: G)
    requires g.running && !g.trapped && g.state.BootloaderQuery? && g.calls >= 8 && g.timer == 1200 && g.wp == 0
    requires g.port.connected && g.port.queue == [] && g.rx == CLEAN
    ensures
      var r := CalmWorld(file).Iterate(g, Line(Hello()));
      Talking(r) && r.state.V1Sync? && HasRead(r, Hello())
  {
    var w, g1 := CalmWorld(file), g.(calls := g.calls + 1);
    CalmFacts(file);
    ClockStands(file, g);
    HelloPlain();
    hide CalmWorld, Upload.Willing, World.Handle, World.ReceiveText, World.Iterate, Store, Talking, Answered, Hello;
    TextStored(g.ascii, Hello());
    var (a, n, _) := Store(g.ascii, 0, Hello());
    HelloTaken(w, g1.(ascii := a, wp := n));
    TextReceived(w, g1, Hello(), a);
    assert [] + Hello() == Hello();
    AnsweredTalks(w, g1.(ascii := a, wp := n), V1Sync, 500, w.ReceiveText(g1, Hello()), Rx(Hello(), false));
    TextTurned(w, g, [], Hello(), w.ReceiveText(g1, Hello()));
  }

  lemma SendsHeader(file: seq<u8>, g: G)
    requires Talking(g) && g.state.V1Sync? && HasRead(g, Hello())
    ensures
      var r := CalmWorld(file).Iterate(g, Line(READY));
      Talking(r) && r.state.V1Upload? && HasRead(r, Hello() + READY)
  {
    var w, g1 := CalmWorld(file), g.(calls := g.calls + 1);
    CalmFacts(file);
    ClockStands(file, g);
    hide CalmWorld, Upload.Willing, World.Handle, World.ReceiveText, World.Iterate, Store, Answered, Hello;
    TextStored(g.ascii, READY);
    var (a, n, _) := Store(g.ascii, 0, READY);
    ReadyTaken(w, g1.(ascii := a, wp := n));
    TextReceived(w, g1, READY, a);
    var rx := Rx(Hello() + READY, false);
    AnsweredTalks(w, g1.(ascii := a, wp := n), V1Upload, 1000, w.ReceiveText(g1, READY), rx);
    TextTurned(w, g, Hello(), READY, w.ReceiveText(g1, READY));
  }

  function Dialogue(): seq<Poll> { [Polled(true, [], false), Idle, Line(Hello()), Line(READY)] }

  lemma Talks(file: seq<u8>)
    requires Parse(file).Parsed?
    ensures var g := CalmWorld(file).Loop(Dialogue());
            Talking(g) && g.state.V1Upload? && HasRead(g, Hello() + READY)
  {
    var w, ps := CalmWorld(file), Dialogue();
    assert ps[..4][..3] == ps[..3] && ps[..3][..2] == ps[..2] && ps[..2][..1] == ps[..1] && ps[..1][..0] == [];
    hide CalmWorld, World.Iterate, World.Handle, Hello, HasRead, Talking;
    Starts(file);
    HangsUp(file, w.Loop([]));
    assert w.Loop(ps[..1]) == w.Iterate(w.Loop([]), ps[0]);
    Reconnects(file, w.Loop(ps[..1]));
    assert w.Loop(ps[..2]) == w.Iterate(w.Loop(ps[..1]), ps[1]);
    Synchronises(file, w.Loop(ps[..2]));
    assert w.Loop(ps[..3]) == w.Iterate(w.Loop(ps[..2]), ps[2]);
    SendsHeader(file, w.Loop(ps[..3]));
    assert w.Loop(ps[..4]) == w.Iterate(w.Loop(ps[..3]), ps[3]);
    assert ps[..4] == ps;
  }

  lemma TalkingIsReady(g: G)
    requires Talking(g) && g.state.V1Upload? && HasRead(g, Hello() + READY)
    ensures PageUpload.Ready(g) && Calm(g) && g.rx.buf != [] && g.rx.buf[0] != BTL_MAGIC
  {
    assert (Hello() + READY)[0] == Hello()[0] == 46;
  }

  // ----- the upload, page by page -----

  /** The pages 0 to `k - 1`, each requested in one read. */
  function Numbers(k: nat): (ns: seq<u16>)
    requires k <= 0x4000
    ensures |ns| == k
  {
    seq(k, i requires 0 <= i < k => i)
  }

  function Asking(ns: seq<u16>): (xs: seq<Exchange>)
    ensures |xs| == |ns|
  {
    seq(|ns|, i requires 0 <= i < |ns| => Exchange(ns[i], [Line(Get(ns[i]))]))
  }

  function Lines(ns: seq<u16>): (ps: seq<Poll>)
    ensures |ps| == |ns|
  {
    seq(|ns|, i requires 0 <= i < |ns| => Line(Get(ns[i])))
  }

  lemma PageDrains(w: World, g: G, n: u16)
    requires g.state.V1Upload? && g.port.connected && g.port.queue == [] && Upload.Willing(w)
    requires n as int < PageCount(|w.Image()|)
    ensures var r := w.SendPage(g, n); r.port.queue == [] && r.timer >= 2000 && r.calls > g.calls
  {
    Upload.LastPageIff(w.Image(), n);
    hide World.Image, World.Write, Page, PageCount, Upload.Willing;
    var g1 := ResetInput(g).(remaining := |w.Image()| - n as int * V1_PAGESIZE);
    WriteDrains(w, g1, Page(w.Image(), n));
  }

  /** The turn that reads a whole request: the page leaves, and the timer stays ahead of the clock. */
  lemma PageTurn(file: seq<u8>, g: G, n: u16)
    requires PageUpload.Ready(g) && Calm(g) && Tame(g.rx) && n < 0xC000
    requires n as int < PageCount(|CalmWorld(file).Image()|)
    ensures var r := CalmWorld(file).Iterate(g, Line(Get(n)));
            r.port.queue == [] && Calm(r)
  {
    var w, g1 := CalmWorld(file), g.(calls := g.calls + 1);
    CalmFacts(file);
    assert InTime(w, g);
    hide CalmWorld, World.Image, World.Iterate, Upload.Willing, Get, PageCount, Tame;
    PolledTurn(w, g, Get(n));
    RequestHeard(w, g1, n);
    hide World.SendPage, Run, Harmless, Store;
    var (a, k, _) := Store(g.ascii, 0, Get(n));
    PageDrains(w, g1.(ascii := a, wp := k), n);
    hide World.Received, World.FlushPort;
  }

  /** A whole request in one read is answered, whatever packets the receiver makes of it. */
  lemma RequestHeard(w: World, g: G, n: u16)
    requires PageUpload.Ready(g) && Tame(g.rx) && n < 0xC000 && n as int < PageCount(|w.Image()|)
    ensures
      var (a, k, _) := Store(g.ascii, 0, Get(n));
      var rx := Run(HOST_BUFFER, g.rx, Get(n)).rx;
      |rx.buf| <= HOST_BUFFER && w.Received(g, Get(n)) == w.SendPage(g.(ascii := a, wp := k), n).(rx := rx) &&
      !w.Received(g, Get(n)).trapped && w.Received(g, Get(n)).port.connected
  {
    TextStored(g.ascii, Get(n));
    var (a, k, m) := Store(g.ascii, 0, Get(n));
    var g1 := g.(ascii := a, wp := k);
    TextEnters(w, g, Get(n), a, k, m);
    GetReads(a, n);
    assert w.Handle(g1, RxAscii) == w.StV1Upload(g1, RxAscii) == w.SendPage(g1, n);
    hide Store, World.SendPage, World.Image, World.Handle, World.ReceiveText, Run, PageCount, Get, Tame;
    PageReplied(w, g, g1, n);
    RequestHarmless(g.rx, n);
    var h, run := w.SendPage(g1, n), Run(HOST_BUFFER, g.rx, Get(n));
    BufferBounded(HOST_BUFFER, g.rx, Get(n));
    DeliveredSizes(HOST_BUFFER, g.rx, Get(n));
    HarmlessPackets(w, h.(rx := run.rx), run.packets);
  }

  /** The same behind the last page, where nothing is answered. */
  lemma UnheardTurn(file: seq<u8>, g: G, n: u16)
    requires Waiting(g) && Calm(g) && Tame(g.rx) && n < 0xC000
    ensures var r := CalmWorld(file).Iterate(g, Line(Get(n)));
            r.port.queue == [] && Calm(r)
  {
    var w, g1 := CalmWorld(file), g.(calls := g.calls + 1);
    assert InTime(w, g);
    assert Ignoring(g1, []);
    assert [] + Get(n) == Get(n);
    hide CalmWorld, World.Iterate, Ignoring, Get, Tame;
    PolledTurn(w, g, Get(n));
    RequestUnanswered(w, g1, Get(n), [], n);
    RequestHarmless(g.rx, n);
    hide World.ReceiveText, Run, Harmless;
    var h, run := w.ReceiveText(g1, Get(n)), Run(HOST_BUFFER, g.rx, Get(n));
    BufferBounded(HOST_BUFFER, g.rx, Get(n));
    DeliveredSizes(HOST_BUFFER, g.rx, Get(n));
    IgnoringServes(h, Get(n), run.rx);
    HarmlessPackets(w, h.(rx := run.rx), run.packets);
    hide World.FlushPort, World.Packets;
  }

  lemma IgnoringServes(g: G, t: seq<u8>, rx: HostRx)
    requires Ignoring(g, t)
    ensures Serving(g.(rx := rx)) && !g.trapped
  {
  }

  lemma OneRequest(file: seq<u8>, g: G, n: u16)
    requires (PageUpload.Ready(g) || Waiting(g)) && Calm(g) && Tame(g.rx) && n < 0xC000
    requires n as int < PageCount(|CalmWorld(file).Image()|)
    ensures
      var w, polls := CalmWorld(file), [Line(Get(n))];
      var r := w.Iterate(g, Line(Get(n)));
      Turns(w, g, polls) == r && Inputs(polls) == Get(n) && Prompt(w, g, polls) && r.port.queue == [] && Calm(r)
  {
    var w, polls := CalmWorld(file), [Line(Get(n))];
    assert InTime(w, g);
    hide CalmWorld, World.Iterate, World.Image, Get, Tame, PageUpload.Ready, Waiting, Calm, PageCount;
    if PageUpload.Ready(g) { PageTurn(file, g, n); } else { UnheardTurn(file, g, n); }
    OneTurn(w, g, Line(Get(n)));
    assert polls[..0] == [] && Prompt(w, g, []) && [] + Get(n) == Get(n);
    hide InTime;
    assert Turns(w, g, []) == g;
  }

  /** Whatever pages a device asks for, in whatever order, there is an orderly run in which it does. */
  lemma {:induction false} AnyOrder(file: seq<u8>, g: G, ns: seq<u16>)
    requires PageUpload.Ready(g) && Calm(g) && (g.rx.buf == [] || g.rx.buf[0] != BTL_MAGIC)
    requires |CalmWorld(file).Image()| <= MAX_FILE_SIZE && InImage(|CalmWorld(file).Image()|, ns)
    ensures
      var w, xs := CalmWorld(file), Asking(ns);
      var r := Session(w, g, xs);
      Orderly(w, g, xs) && PageNumbers(xs) == ns && r == Turns(w, g, Lines(ns)) && Calm(r)
  {
    var w, size := CalmWorld(file), |CalmWorld(file).Image()|;
    hide CalmWorld, World.Iterate, World.Image, Get, Tame, PageUpload.Ready, Waiting, Calm, InImage, Heard, Done;
    hide Prompt, Inputs, PagesOf, Run, PageCount, Texts, Line;
    assert PageNumbers(Asking(ns)) == ns;
    if ns != [] {
      var front, n := ns[..|ns| - 1], ns[|ns| - 1];
      InImageFront(size, ns);
      SmallNumber(size, n);
      AnyOrder(file, g, front);
      PagesDelivered(w, g, Asking(front));
      assert Asking(ns)[..|ns| - 1] == Asking(front) && Lines(ns)[..|ns| - 1] == Lines(front);
      OneRequest(file, Session(w, g, Asking(front)), n);
    }
  }

  const VERDICT: seq<u8> := [35, 86, 65, 76, 73, 68, 32, 67, 82, 67]

  lemma VerdictFound(g: G)
    requires g.ascii[..g.wp] == VERDICT
    ensures Finds(g, ValidCrc) && g.wp == 10
  {
    assert VERDICT == ValidCrc.Text() && [] + VERDICT + [] == VERDICT;
    WordFound(g, [], ValidCrc, []);
    hide Finds;
  }

  lemma VerdictTaken(w: World, g: G)
    requires g.state.V1Validate? && Finds(g, ValidCrc) && g.wp == 10
    ensures w.Handle(g, RxAscii) == ShutDown(Log(LogWord(g, ValidCrc), V1Done))
  {
    hide *;
    ValidateHandles(w, g, RxAscii);
    VerdictEnds(w, g);
  }

  lemma VerdictEnds(w: World, g: G)
    requires g.state.V1Validate? && Finds(g, ValidCrc) && g.wp == 10
    ensures w.StV1Validate(g, RxAscii) == ShutDown(Log(LogWord(g, ValidCrc), V1Done))
  {
    hide World.Handle, World.Retry, World.SetTimeout, Finds;
  }

  lemma Validated(file: seq<u8>, g: G)
    requires Waiting(g) && Calm(g) && g.wp == 0
    ensures var r := CalmWorld(file).Iterate(g, Line(VERDICT));
            !r.running && r.trace != [] && r.trace[|r.trace| - 1] == V1Done && r.port == g.port
  {
    var w, g1 := CalmWorld(file), g.(calls := g.calls + 1);
    ClockStands(file, g);
    hide CalmWorld, World.Iterate, World.Handle, Store, World.ReceiveText, Finds;
    TextStored(g.ascii, VERDICT);
    var (a, n, _) := Store(g.ascii, 0, VERDICT);
    VerdictFound(g1.(ascii := a, wp := n));
    VerdictTaken(w, g1.(ascii := a, wp := n));
    TextReceived(w, g1, VERDICT, a);
    VerdictPlain();
    LineTurn(w, g, VERDICT);
  }

  lemma VerdictPlain()
    ensures END !in VERDICT
  {
  }

  // ----- from the start of the program -----

  lemma AllPages(image: seq<u8>, mem: seq<u8>)
    requires 0 < |image| <= MAX_FILE_SIZE
    ensures
      var k := PageCount(|image|);
      0 < k <= 0x4000 && InImage(|image|, Numbers(k)) && Done(|image|, Numbers(k)) &&
      !Done(|image|, Numbers(k)[..k - 1]) && Heard(|image|, Numbers(k)) == Numbers(k) &&
      forall j | 0 <= j < |image| :: PageUpload.Asked(Numbers(k), j)
  {
    var k := PageCount(|image|);
    assert Numbers(k)[k - 1] as int == k - 1;
    HeardIsPrefix(|image|, Numbers(k));
    forall j | 0 <= j < |image| ensures PageUpload.Asked(Numbers(k), j) {
      assert Numbers(k)[j / V1_PAGESIZE] in Numbers(k);
    }
  }

  /**
   From the start of the program to the success report: for every file that parses and has an image,
   this run ends with the report, and a device that stores the pages it asked for holds the whole image.
   */
  lemma PagesProgrammed(file: seq<u8>, mem: seq<u8>)
    requires Parse(file).Parsed? && 0 < |CalmWorld(file).Image()| <= MAX_FILE_SIZE
    requires |mem| == |CalmWorld(file).Image()|
    ensures
      var w, image, k := CalmWorld(file), CalmWorld(file).Image(), PageCount(|mem|);
      k <= 0x4000 &&
      var start := w.Loop(Dialogue()).port.wire;
      var r := w.Loop(Dialogue() + Lines(Numbers(k)) + [Line(VERDICT)]);
      FlasherInvariant.Monotone(w) && !r.running && r.trace != [] && r.trace[|r.trace| - 1] == V1Done &&
      start <= r.port.wire && Stored(mem, Numbers(k), r.port.wire[|start|..]) == image
  {
    var w, image, k := CalmWorld(file), CalmWorld(file).Image(), PageCount(|mem|);
    CalmFacts(file);
    AllPages(image, mem);
    hide *;
    var ns, g := Numbers(k), w.Loop(Dialogue());
    Talks(file);
    TalkingIsReady(g);
    AnyOrder(file, g, ns);
    var xs := Asking(ns);
    PagesDelivered(w, g, xs);
    Validated(file, Session(w, g, xs));
    RunInThree(w, Dialogue(), Lines(ns), Line(VERDICT));
    WholeImage(w, g, xs, mem);
  }

  lemma RunInThree(w: World, a: seq<Poll>, b: seq<Poll>, c: Poll)
    ensures w.Loop(a + b + [c]) == w.Iterate(Turns(w, w.Loop(a), b), c)
  {
    hide *;
    LoopContinues(w, a, b);
    LoopContinues(w, a + b, [c]);
    OneTurn(w, Turns(w, w.Loop(a), b), c);
  }

  lemma WholeImage(w: World, g: G, xs: seq<Exchange>, mem: seq<u8>)
    requires PageUpload.Ready(g) && (g.rx.buf == [] || g.rx.buf[0] != BTL_MAGIC) && Orderly(w, g, xs)
    requires 0 < |mem| == |w.Image()| <= MAX_FILE_SIZE && PageCount(|mem|) <= 0x4000
    requires PageNumbers(xs) == Numbers(PageCount(|mem|))
    ensures var wire := Session(w, g, xs).port.wire;
            g.port.wire <= wire && Stored(mem, PageNumbers(xs), wire[|g.port.wire|..]) == w.Image()
  {
    AllPages(w.Image(), mem);
    hide *;
    DeviceHoldsPages(w, g, xs, mem);
    var device := Stored(mem, PageNumbers(xs), Session(w, g, xs).port.wire[|g.port.wire|..]);
    assert forall j | 0 <= j < |mem| :: device[j] == w.Image()[j];
    assert device == w.Image();
  }

  /** The run in which the second of two pages is asked for first: the first never arrives. */
  lemma LastPageFirstRun(file: seq<u8>, mem: seq<u8>)
    requires Parse(file).Parsed? && |mem| == |CalmWorld(file).Image()|
    requires V1_PAGESIZE < |mem| <= 2 * V1_PAGESIZE
    ensures
      var w, start := CalmWorld(file), CalmWorld(file).Loop(Dialogue()).port.wire;
      var r := w.Loop(Dialogue() + Lines([1, 0]));
      r.state.V1Validate? && start <= r.port.wire &&
      Stored(mem, [1, 0], r.port.wire[|start|..]) == mem[..V1_PAGESIZE] + w.Image()[V1_PAGESIZE..]
  {
    LastHeard(|mem|);
    hide *;
    var w, ns := CalmWorld(file), [1, 0];
    var g := w.Loop(Dialogue());
    Talks(file);
    TalkingIsReady(g);
    AnyOrder(file, g, ns);
    LoopContinues(w, Dialogue(), Lines(ns));
    LastPageFirst(w, g, Asking(ns), mem);
  }
}
