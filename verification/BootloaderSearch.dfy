/**
 The search for the bootloader: when it is given up, and why on RaspBee I and ConBee I it is given
 up at most once in a run.
 */
module BootloaderSearch {
  import opened Bytes
  import opened Flasher
  import opened FlasherInvariant
  import opened Framing
  import opened GcfFile
  import opened Input
  import opened MainLoop
  import opened OpenPort
  import opened Reactions
  import opened Trace
  import opened Transmit

  // ----- one search -----

  /** `n` timeouts in a row. */
  function Timeouts(w: World, g: G, n: nat): G {
    if n == 0 then g else w.Handle(Timeouts(w, g, n - 1), Timeout)
  }

  predicate Searching(w: World, g: G, n: nat) {
    Timeouts(w, g, n).state.BootloaderQuery? && Timeouts(w, g, n).running
  }

  /** The device has been asked once more, and 200 ms are given to it. */
  ghost predicate AskedOnce(w: World, g: G, r: G) {
    r == g.(retry := g.retry + 1, timer := r.timer, calls := g.calls + 2, port := r.port, trace := r.trace) &&
    r.port.connected && r.timer == w.now(g.calls + 1) + 200
  }

  lemma AskedOpen(w: World, g: G)
    requires g.state.BootloaderQuery? && g.port.connected && g.retry != 2
    ensures AskedOnce(w, g, w.StBootloaderQuery(g, Timeout))
  {
    QuestionIs(w, g);
    hide *;
    var g1 := g.(retry := g.retry + 1);
    if w.Head().fileType < 30 {
      Written(w, g1, Ascii("ID"));
      TimerSet(w, g, w.Write(g1, Ascii("ID")));
    } else {
      SentFlagged(w, g1, [BTL_MAGIC, 0x02]);
      TimerSet(w, g, w.SendFlagged(g1, [BTL_MAGIC, 0x02]));
    }
  }

  lemma TimerSet(w: World, g: G, h: G)
    requires h == g.(retry := g.retry + 1, port := h.port, calls := g.calls + 1, trace := h.trace)
    requires h.port.connected
    ensures AskedOnce(w, g, w.SetTimeout(h, 200))
  {
  }

  /** A timeout of the search on an open port: give up at the third, or ask once more. */
  lemma QueryStep(w: World, g: G)
    requires g.state.BootloaderQuery? && g.port.connected
    ensures var r := w.Handle(g, Timeout);
            if g.retry == 2 then r == w.Retry(g.(retry := 3)) else AskedOnce(w, g, r)
  {
    assert w.Handle(g, Timeout) == w.StBootloaderQuery(g, Timeout);
    hide World.StBootloaderQuery, World.Handle, World.Retry;
    if g.retry == 2 { GivenUp(w, g); } else { AskedOpen(w, g); }
  }

  lemma GivenUp(w: World, g: G)
    requires g.state.BootloaderQuery? && g.retry == 2
    ensures w.StBootloaderQuery(g, Timeout) == w.Retry(g.(retry := 3))
  {
    hide World.Write, World.SendFlagged, World.Retry, World.Head, Finds, World.Handle;
  }

  lemma RetryEnds(w: World, g: G)
    ensures var r := w.Retry(g);
            r.retry == g.retry && (r.state.Init? || !r.running)
  {
  }

  /** On a closed port the question raises EV_DISCONNECTED, which ends the search at once. */
  lemma ClosedQueryEnds(w: World, g: G)
    requires g.state.BootloaderQuery? && !g.port.connected
    ensures var r := w.Handle(g, Timeout);
            r.state.Init? || !r.running
  {
    assert w.Handle(g, Timeout) == w.StBootloaderQuery(g, Timeout);
    if g.retry == 2 {
      GivenUp(w, g);
      RetryEnds(w, g.(retry := 3));
    } else {
      ClosedWrite(w, g.(retry := g.retry + 1));
      hide World.Retry, World.Write, World.SendFlagged, World.Head, World.Handle, Finds;
    }
  }

  lemma ClosedWrite(w: World, g: G)
    requires g.state.BootloaderQuery? && !g.port.connected
    ensures var r := w.Write(g, Ascii("ID")); r.state.Init? || !r.running
    ensures var r := w.SendFlagged(g, [BTL_MAGIC, 0x02]); r.state.Init? || !r.running
  {
    var g1 := g.(port := g.port.(queue := []));
    assert w.FlushPort(g) == w.Handle(g1, Disconnected);
    assert w.Handle(g1, Disconnected) == w.StBootloaderQuery(g1, Disconnected) == w.Retry(g1);
    RetryEnds(w, g1);
    hide World.Retry, World.Handle, World.FlushPort;
  }

  lemma {:induction false} QueriesCount(w: World, g: G, n: nat)
    requires g.state.BootloaderQuery? && g.port.connected && (g.retry >= 3 || n < 3 - g.retry)
    ensures var r := Timeouts(w, g, n);
            r.state.BootloaderQuery? && r.port.connected && r.retry == g.retry + n && r.running == g.running
  {
    hide World.Handle;
    if n > 0 {
      QueriesCount(w, g, n - 1);
      QueryStep(w, Timeouts(w, g, n - 1));
    }
  }

  /**
   An unanswered search for the bootloader ends if and only if the retry counter is below 3 when it
   begins or the port is closed: after the third timeout, or after the first.
   */
  lemma QueryGivesUpIff(w: World, g: G)
    requires g.state.BootloaderQuery? && g.running
    ensures (exists n: nat :: !Searching(w, g, n)) <==> g.retry < 3 || !g.port.connected
    ensures !g.port.connected ==> !Searching(w, g, 1)
    ensures g.port.connected && g.retry < 3 ==>
              var r := Timeouts(w, g, 3 - g.retry);
              r.retry == 3 && (r.state.Init? || !r.running)
  {
    hide World.Handle;
    if !g.port.connected {
      ClosedQueryEnds(w, g);
      assert Timeouts(w, g, 1) == w.Handle(Timeouts(w, g, 0), Timeout);
      assert !Searching(w, g, 1);
    } else if g.retry < 3 {
      var n := 2 - g.retry;
      QueriesCount(w, g, n);
      QueryStep(w, Timeouts(w, g, n));
      assert Timeouts(w, g, n + 1) == w.Retry(Timeouts(w, g, n).(retry := 3));
      RetryEnds(w, Timeouts(w, g, n).(retry := 3));
      assert !Searching(w, g, n + 1);
    } else {
      forall n: nat
        ensures Searching(w, g, n)
      {
        QueriesCount(w, g, n);
      }
    }
  }

  // ----- the counter over a whole run -----

  /** The devices whose bootloader speaks up by itself, so that ST_BootloaderConnect is skipped. */
  predicate SpeaksUp(w: World) { w.cfg.device.RaspBee1? || w.cfg.device.ConBee1? }

  /** A search that is running has not been given up. */
  ghost predicate Low(g: G) { g.state.BootloaderQuery? && g.running ==> g.retry < 3 }

  ghost predicate Fit(w: World, g: G) { if SpeaksUp(w) then !g.state.BootloaderConnect? else Low(g) }

  /** What happens to the counter on the way from `g` to `r`. */
  ghost predicate Counts(w: World, g: G, r: G) {
    Fit(w, r) && (r.running ==> g.running) && (SpeaksUp(w) ==> g.retry <= r.retry)
  }

  /** The only event that resets the counter. */
  predicate Resets(g: G, ev: Event) { g.state.BootloaderQuery? && ev.Action? }

  /** Text is not handled in ST_BootloaderConnect. */
  ghost predicate Apt(w: World, g: G, ev: Event) {
    if SpeaksUp(w) then !Resets(g, ev) && !g.state.BootloaderConnect?
    else (Low(g) || ev.Action?) && !(g.state.BootloaderConnect? && ev.RxAscii?)
  }

  lemma HandleCounts(w: World, g: G, ev: Event)
    requires Apt(w, g, ev)
    ensures Counts(w, g, w.Handle(g, ev))
    decreases Rank(g.state, ev), 5
  {
    hide World.StInit, World.StProgram, World.StReset, World.StBootloaderConnect, World.StBootloaderQuery;
    hide World.StV1Sync;
    hide World.StV1WriteHeader, World.StV1Upload, World.StV1Validate, World.StV3Sync, World.StV3Upload;
    hide World.StV3WaitID;
    match g.state
    case Void =>
    case Init => InitCounts(w, g, ev);
    case Program => ProgramCounts(w, g, ev);
    case Reset => ResetCounts(w, g, ev);
    case BootloaderConnect => ConnectCounts(w, g, ev);
    case BootloaderQuery => QueryCounts(w, g, ev);
    case V1Sync => V1SyncCounts(w, g, ev);
    case V1WriteHeader => V1WriteHeaderCounts(w, g, ev);
    case V1Upload => V1UploadCounts(w, g, ev);
    case V1Validate => V1ValidateCounts(w, g, ev);
    case V3Sync => V3SyncCounts(w, g, ev);
    case V3Upload => V3UploadCounts(w, g, ev);
    case V3WaitID => V3WaitIDCounts(w, g, ev);
  }

  lemma FlushCounts(w: World, g: G)
    requires Fit(w, g)
    ensures Counts(w, g, w.FlushPort(g))
    decreases 5, 0
  {
    hide World.Handle, Transmit.Flush;
    if !g.port.connected { HandleCounts(w, g.(port := g.port.(queue := [])), Disconnected); }
  }

  lemma OutputCounts(w: World, g: G, bytes: seq<u8>)
    requires Fit(w, g)
    ensures Counts(w, g, w.Write(g, bytes)) && Counts(w, g, w.SendFlagged(g, bytes))
    decreases 5, 1
  {
    hide World.Handle, World.FlushPort, PutAll, Frame;
    FlushCounts(w, if g.port.connected then Log(g.(port := PutAll(g.port, bytes)), Sent(bytes)) else g);
    FlushCounts(w, if g.port.connected then Log(g.(port := PutAll(g.port, Frame(bytes))), Framed(bytes)) else g);
  }

  lemma InitCounts(w: World, g: G, ev: Event)
    requires g.state.Init?
    ensures Counts(w, g, w.StInit(g, ev))
    decreases Rank(g.state, ev), 2
  {
    hide World.Handle, World.CommandlineOk, World.Head;
    if (ev.Started? || ev.Timeout?) && w.loads(g.calls) && w.CommandlineOk() {
      HandleCounts(w, w.ProcessCommandline(g.(calls := g.calls + 1)), Action);
    }
  }

  lemma ProgramCounts(w: World, g: G, ev: Event)
    requires g.state.Program?
    ensures Counts(w, g, w.StProgram(g, ev))
    decreases Rank(g.state, ev), 2
  {
    hide World.Handle;
    if ev.Action? { HandleCounts(w, Log(g.(state := Reset), EnterReset), Action); }
  }

  lemma ResetCounts(w: World, g: G, ev: Event)
    requires g.state.Reset?
    ensures Counts(w, g, w.StReset(g, ev))
    decreases Rank(g.state, ev), 3
  {
    hide World.Handle, World.StResetUart, World.StResetFtdi, World.StResetRaspBee, World.Connect, Counts;
    match ev
    case Action => StartResetCounts(w, g);
    case UartResetSuccess | FtdiResetSuccess | RaspBeeResetSuccess => ResetDoneCounts(w, g, ev);
    case UartResetFailed => UartResetFailedCounts(w, g);
    case FtdiResetFailed => GiveUpCounts(w, g, w.SetTimeout(g, 1), FtdiResetSuccess);
    case RaspBeeResetFailed => GiveUpCounts(w, g, w.SetTimeout(g, 1), RaspBeeResetSuccess);
    case _ => SubstateCounts(w, g, ev);
  }

  lemma StartResetCounts(w: World, g: G)
    requires g.state.Reset?
    ensures Counts(w, g, w.StReset(g, Action))
    decreases 7, 2
  {
    hide World.Handle, World.StResetUart, World.StResetFtdi, World.StResetRaspBee, World.Connect;
    ResetUartCounts(w, g.(wp := 0, substate := ResetUart), Action);
  }

  lemma ResetDoneCounts(w: World, g: G, ev: Event)
    requires g.state.Reset?
    requires ev.UartResetSuccess? || ev.FtdiResetSuccess? || ev.RaspBeeResetSuccess?
    ensures Counts(w, g, w.StReset(g, ev))
    decreases 2, 1
  {
    hide World.Handle, World.StResetUart, World.StResetFtdi, World.StResetRaspBee, World.Connect;
    if !w.cfg.task.TaskReset? {
      HandleCounts(w, Log(g.(substate := NoSub, state := Program), LeaveReset), ResetSuccess);
    }
  }

  /** Going on as if a reset had worked, from `h`. */
  lemma GiveUpCounts(w: World, g: G, h: G, next: Event)
    requires h.state.Reset? && h.retry == g.retry && h.running == g.running
    requires next.UartResetSuccess? || next.FtdiResetSuccess? || next.RaspBeeResetSuccess?
    ensures Counts(w, g, w.Handle(h, next))
    decreases 2, 6
  {
    hide World.Handle;
    HandleCounts(w, h, next);
  }

  lemma UartResetFailedCounts(w: World, g: G)
    requires g.state.Reset?
    ensures Counts(w, g, w.StReset(g, UartResetFailed))
    decreases 5, 1
  {
    hide World.Handle, World.StResetUart, World.StResetFtdi, World.StResetRaspBee;
    var g1 := w.Connect(g);
    assert g1 == g.(port := g1.port, calls := g1.calls);
    hide World.Connect;
    GiveUpCounts(w, g, w.SetTimeout(g, 500), UartResetSuccess);
    if !g1.port.connected {
      GiveUpCounts(w, g, w.SetTimeout(g1, 500), UartResetSuccess);
    } else {
      PinCounts(w, g1.(substate := ResetFtdi), Action);
      PinCounts(w, g1.(substate := ResetRaspBee), Action);
    }
  }

  lemma SubstateCounts(w: World, g: G, ev: Event)
    requires g.state.Reset? && !ev.Action? && !ResetOutcome(ev)
    ensures Counts(w, g, w.StReset(g, ev))
    decreases Rank(g.state, ev), 2
  {
    hide World.Handle, World.StResetUart, World.StResetFtdi, World.StResetRaspBee, World.Connect;
    match g.substate
    case NoSub =>
    case ResetUart => ResetUartCounts(w, g, ev);
    case ResetFtdi => PinCounts(w, g, ev);
    case ResetRaspBee => PinCounts(w, g, ev);
  }

  lemma ResetUartCounts(w: World, g: G, ev: Event)
    requires g.state.Reset? && !ResetOutcome(ev)
    ensures Counts(w, g, w.StResetUart(g, ev))
    decreases Rank(g.state, ev), 1
  {
    hide World.Handle, World.Connect, World.Disconnect, World.SendFlagged;
    match ev
    case Action => StartUartResetCounts(w, g);
    case RxBootloader =>
      if g.ascii[1] == BTL_ID_RESPONSE { GiveUpCounts(w, g, w.SetTimeout(g, 100), UartResetSuccess); }
    case Disconnected => GiveUpCounts(w, g, w.SetTimeout(g, 500), UartResetSuccess);
    case PkgUartReset => GiveUpCounts(w, g, ClearTimeout(g), UartResetSuccess);
    case Timeout => UartTimeoutCounts(w, g);
    case _ =>
  }

  lemma StartUartResetCounts(w: World, g: G)
    requires g.state.Reset?
    ensures Counts(w, g, w.StResetUart(g, Action))
    decreases 7, 0
  {
    var g1 := w.Connect(w.SetTimeout(g, 3000));
    assert g1 == g.(timer := g1.timer, port := g1.port, calls := g1.calls);
    hide World.Handle, World.Connect, World.Disconnect, World.SendFlagged;
    OutputCounts(w, g1, CMD_QUERY_FIRMWARE);
    var g2 := if w.cfg.task.TaskReset? then w.SendFlagged(g1, CMD_QUERY_FIRMWARE) else g1;
    OutputCounts(w, g2, CMD_RESET_UART);
  }

  lemma UartTimeoutCounts(w: World, g: G)
    requires g.state.Reset?
    ensures Counts(w, g, w.StResetUart(g, Timeout))
    decreases 9, 0
  {
    var g1 := g.(substate := NoSub, port := Port(false, [], g.port.wire));
    assert w.StReset(g1, Disconnected) == g1;
    assert w.Handle(g1, Disconnected) == g1;
    assert w.Disconnect(g.(substate := NoSub)) == g1;
    hide World.Handle, World.Disconnect;
    HandleCounts(w, g1, UartResetFailed);
  }

  lemma PinCounts(w: World, g: G, ev: Event)
    requires g.state.Reset? && !ResetOutcome(ev)
    ensures Counts(w, g, w.StResetFtdi(g, ev)) && Counts(w, g, w.StResetRaspBee(g, ev))
    decreases if ev.Action? then 4 else 0, 0
  {
    hide World.Handle;
    if ev.Action? {
      HandleCounts(w, Log(g, FtdiReset).(calls := g.calls + 1),
                   if w.resets(g.calls) then FtdiResetSuccess else FtdiResetFailed);
      var g1 := Log(g, PinReset).(calls := g.calls + 1);
      HandleCounts(w, g1, if w.resets(g.calls) then RaspBeeResetSuccess else RaspBeeResetFailed);
    }
  }

  lemma RetryCounts(w: World, g: G)
    requires !g.state.BootloaderConnect?
    ensures Counts(w, g, w.Retry(g))
  {
  }

  lemma ConnectCounts(w: World, g: G, ev: Event)
    requires g.state.BootloaderConnect? && Apt(w, g, ev)
    ensures Counts(w, g, w.StBootloaderConnect(g, ev))
    decreases Rank(g.state, ev), 2
  {
    hide World.Handle;
    if ev.Timeout? && w.Connect(g).port.connected {
      HandleCounts(w, w.Connect(g).(state := BootloaderQuery), Action);
    }
  }

  lemma QueryCounts(w: World, g: G, ev: Event)
    requires g.state.BootloaderQuery? && Apt(w, g, ev)
    ensures Counts(w, g, w.StBootloaderQuery(g, ev))
    decreases Rank(g.state, ev), 2
  {
    hide World.Handle, World.Retry, World.Write, World.SendFlagged, World.Head, Finds;
    match ev
    case Timeout =>
      var g1 := g.(retry := g.retry + 1);
      RetryCounts(w, g1);
      if g1.retry != 3 {
        OutputCounts(w, g1, Ascii("ID"));
        OutputCounts(w, g1, [BTL_MAGIC, 0x02]);
      }
    case RxAscii => HandleCounts(w, LogWord(ClearTimeout(g), Bootloader).(state := V1Sync), Action);
    case RxBootloader => HandleCounts(w, g.(state := V3Sync), Action);
    case Disconnected => RetryCounts(w, g);
    case _ =>
  }

  lemma V1SyncCounts(w: World, g: G, ev: Event)
    requires g.state.V1Sync?
    ensures Counts(w, g, w.StV1Sync(g, ev))
    decreases Rank(g.state, ev), 3
  {
    hide World.Handle, World.Retry, World.Write, Finds;
    match ev
    case Action => OutputCounts(w, ResetInput(g), V1_SYNC);
    case RxAscii => HandleCounts(w, LogWord(ClearTimeout(g), Keyword.Ready).(state := V1WriteHeader), Action);
    case Timeout => RetryCounts(w, g);
    case _ =>
  }

  lemma V1WriteHeaderCounts(w: World, g: G, ev: Event)
    requires g.state.V1WriteHeader?
    ensures Counts(w, g, w.StV1WriteHeader(g, ev))
    decreases Rank(g.state, ev), 4
  {
    hide World.Handle, World.Write, World.Head, V1Header;
    if ev.Action? { OutputCounts(w, ResetInput(g).(state := V1Upload), V1Header(w.Head())); }
  }

  lemma V1UploadCounts(w: World, g: G, ev: Event)
    requires g.state.V1Upload?
    ensures Counts(w, g, w.StV1Upload(g, ev))
    decreases Rank(g.state, ev), 2
  {
    hide World.SendPage, World.Retry;
    match ev
    case RxAscii =>
      if !(g.wp < 6 || g.ascii[0] != 71 || g.ascii[5] != 59) { PageCounts(w, g, FromLe16(g.ascii[3..5])); }
    case Timeout => RetryCounts(w, g);
    case _ =>
  }

  lemma PageCounts(w: World, g: G, n: u16)
    requires g.state.V1Upload?
    ensures Counts(w, g, w.SendPage(g, n))
    decreases 5, 2
  {
    hide World.Handle, World.Write, World.Image;
    if n as int * V1_PAGESIZE < |w.Image()| {
      OutputCounts(w, ResetInput(g).(remaining := |w.Image()| - n as int * V1_PAGESIZE), Page(w.Image(), n));
    }
  }

  lemma V1ValidateCounts(w: World, g: G, ev: Event)
    requires g.state.V1Validate?
    ensures Counts(w, g, w.StV1Validate(g, ev))
  {
    hide World.Retry, Finds;
    if ev.Timeout? { RetryCounts(w, g); }
  }

  lemma V3SyncCounts(w: World, g: G, ev: Event)
    requires g.state.V3Sync?
    ensures Counts(w, g, w.StV3Sync(g, ev))
    decreases Rank(g.state, ev), 4
  {
    hide World.Retry, World.SendFlagged, World.Head, V3SyncRequest;
    match ev
    case Action => OutputCounts(w, w.SetTimeout(g, 1000), V3SyncRequest(w.Head()));
    case Timeout => RetryCounts(w, g);
    case _ =>
  }

  lemma V3UploadCounts(w: World, g: G, ev: Event)
    requires g.state.V3Upload?
    ensures Counts(w, g, w.StV3Upload(g, ev))
    decreases Rank(g.state, ev), 2
  {
    hide World.AnswerDataRequest, World.Retry;
    match ev
    case RxBootloader =>
      if g.ascii[1] == BTL_FW_DATA_REQUEST && g.wp == 8 {
        AnswerCounts(w, g, FromLe32(g.ascii[2..6]), FromLe16(g.ascii[6..8]));
      }
    case Timeout => RetryCounts(w, g);
    case _ =>
  }

  lemma AnswerCounts(w: World, g: G, offset: u32, length: u16)
    requires g.state.V3Upload?
    ensures Counts(w, g, w.AnswerDataRequest(g, offset, length))
    decreases 5, 2
  {
    hide World.Handle, World.SendFlagged, World.Image, Reply, Remaining;
    var remaining, response := Remaining(|w.Image()|, offset, length), Reply(w.Image(), offset, length);
    var g1 := Log(w.SetTimeout(g, 5000).(remaining := remaining), Asked(offset, length));
    OutputCounts(w, g1.(ascii := Overwrite(g1.ascii, response)), response);
  }

  lemma V3WaitIDCounts(w: World, g: G, ev: Event)
    requires g.state.V3WaitID?
    ensures Counts(w, g, w.StV3WaitID(g, ev))
  {
    hide World.Retry;
    if ev.Timeout? { RetryCounts(w, g); }
  }

  lemma PacketCounts(w: World, g: G, p: seq<u8>)
    requires Fit(w, g) && 1 <= |p|
    ensures Counts(w, g, w.Packet(g, p))
  {
    hide World.Handle;
    HandleCounts(w, g, PkgUartReset);
    HandleCounts(w, g, RxPacket);
    if |p| < ASCII_SIZE {
      HandleCounts(w, Deliver(g, p), RxBootloader);
    }
  }

  lemma {:induction false} PacketsCount(w: World, g: G, ps: seq<seq<u8>>)
    requires Fit(w, g) && forall p <- ps :: 1 <= |p|
    ensures Counts(w, g, w.Packets(g, ps))
  {
    hide World.Packet;
    if ps != [] {
      PacketsCount(w, g, ps[..|ps| - 1]);
      var g1 := w.Packets(g, ps[..|ps| - 1]);
      if !g1.trapped { PacketCounts(w, g1, ps[|ps| - 1]); }
    }
  }

  lemma ReceivedCounts(w: World, g: G, data: seq<u8>)
    requires Fit(w, g)
    ensures Counts(w, g, w.Received(g, data))
  {
    hide World.Handle, Store, World.Packets, Framing.Run;
    var (a, wp, n) := Store(g.ascii, g.wp, data);
    if w.TakesText(g.state) { HandleCounts(w, g.(ascii := a, wp := wp), RxAscii); }
    var g1 := w.ReceiveText(g, data);
    if !g1.trapped {
      var r := Framing.Run(HOST_BUFFER, g1.rx, data);
      BufferBounded(HOST_BUFFER, g1.rx, data);
      DeliveredSizes(HOST_BUFFER, g1.rx, data);
      PacketsCount(w, g1.(rx := r.rx), r.packets);
    }
  }

  lemma IterateCounts(w: World, g: G, poll: Poll)
    requires Fit(w, g)
    ensures Counts(w, g, w.Iterate(g, poll))
  {
    hide World.CheckTimer, World.Serve, World.Disconnect;
    CheckTimerCounts(w, g);
    var g1 := w.CheckTimer(g);
    DisconnectCounts(w, g1);
    if poll.Polled? { ServeCounts(w, g1, poll.data); }
  }

  lemma CheckTimerCounts(w: World, g: G)
    requires Fit(w, g)
    ensures Counts(w, g, w.CheckTimer(g))
  {
    hide World.Handle;
    HandleCounts(w, g.(calls := g.calls + 1, timer := 0), Timeout);
  }

  lemma DisconnectCounts(w: World, g: G)
    requires Fit(w, g)
    ensures Counts(w, g, w.Disconnect(g))
  {
    hide World.Handle;
    HandleCounts(w, g.(port := Port(false, [], g.port.wire)), Disconnected);
  }

  lemma ServeCounts(w: World, g: G, data: seq<u8>)
    requires Fit(w, g)
    ensures Counts(w, g, w.Serve(g, data))
  {
    hide World.Received, World.FlushPort;
    ReceivedCounts(w, g, data);
    FlushCounts(w, if data != [] && g.port.connected then w.Received(g, data) else g);
  }

  lemma {:induction false} NeverConnecting(w: World, polls: seq<Poll>)
    requires SpeaksUp(w)
    ensures !w.Loop(polls).state.BootloaderConnect?
  {
    hide World.Handle, World.Iterate;
    if polls == [] {
      HandleCounts(w, w.Boot(), Started);
    } else {
      NeverConnecting(w, polls[..|polls| - 1]);
      IterateCounts(w, w.Loop(polls[..|polls| - 1]), polls[|polls| - 1]);
    }
  }

  /** On RaspBee I and ConBee I the counter is never reset: over any run it only grows. */
  lemma {:induction false} CounterNeverReset(w: World, polls: seq<Poll>, more: seq<Poll>)
    requires SpeaksUp(w)
    ensures w.Loop(polls).retry <= w.Loop(polls + more).retry
  {
    hide World.Handle, World.Iterate;
    if more == [] {
      assert polls + more == polls;
    } else {
      var front, all := more[..|more| - 1], polls + more;
      CounterNeverReset(w, polls, front);
      assert all[..|all| - 1] == polls + front;
      NeverConnecting(w, polls + front);
      IterateCounts(w, w.Loop(polls + front), all[|all| - 1]);
    }
  }

  /**
   Once a search on RaspBee I or ConBee I has been given up after three timeouts, every later
   search of the run goes on for ever if nothing is received, as long as the port is open.
   */
  lemma SecondSearchNeverEnds(w: World, polls: seq<Poll>, more: seq<Poll>)
    requires SpeaksUp(w) && w.Loop(polls).retry >= 3
    ensures
      var g := w.Loop(polls + more);
      g.state.BootloaderQuery? && g.running ==>
      ((forall n: nat :: Searching(w, g, n)) <==> g.port.connected)
  {
    var g := w.Loop(polls + more);
    CounterNeverReset(w, polls, more);
    hide World.Loop, Searching;
    if g.state.BootloaderQuery? && g.running { QueryGivesUpIff(w, g); }
  }

  /**
   On every other device each search starts with a fresh counter: over any run, a search that is going
   on has counted less than three timeouts.
   */
  lemma {:induction false} CounterStaysLow(w: World, polls: seq<Poll>)
    requires !SpeaksUp(w)
    ensures var g := w.Loop(polls);
            g.state.BootloaderQuery? && g.running ==> g.retry < 3
  {
    hide World.Handle, World.Iterate;
    if polls == [] {
      HandleCounts(w, w.Boot(), Started);
    } else {
      CounterStaysLow(w, polls[..|polls| - 1]);
      IterateCounts(w, w.Loop(polls[..|polls| - 1]), polls[|polls| - 1]);
    }
  }

  /** So there every search that is not answered is given up, whatever happened before in the run. */
  lemma EverySearchEnds(w: World, polls: seq<Poll>)
    requires !SpeaksUp(w)
    ensures var g := w.Loop(polls);
            g.state.BootloaderQuery? && g.running ==> exists n: nat :: !Searching(w, g, n)
  {
    CounterStaysLow(w, polls);
    hide World.Loop, Searching;
    var g := w.Loop(polls);
    if g.state.BootloaderQuery? && g.running { QueryGivesUpIff(w, g); }
  }

  // ----- a run that gets there -----

  function Idles(n: nat): seq<Poll> { seq(n, _ => Idle) }

  /** RaspBee I, a file without GCF header, and a device that opens, resets and says nothing. */
  function SilentWorld(): World {
    World(Config(TaskProgram, RaspBee1, seq(HEADER_SIZE, _ => 0), Some(1000)),
          k => 10_000 * k, _ => true, _ => true, _ => true, _ => [])
  }

  lemma SilentFile()
    ensures Parse(SilentWorld().cfg.file).Parsed? && Monotone(SilentWorld())
  {
  }

  /** Waiting on an open port, early enough to be restarted, for a timeout that is due next. */
  ghost predicate Waits(w: World, g: G, limit: nat) {
    g.running && !g.trapped && g.port.connected && 0 < g.timer < w.now(g.calls) && g.calls <= limit
  }

  /** ST_Init has led to ST_ResetUart. */
  ghost function InReset(g: G): G {
    g.(state := Reset, substate := ResetUart, wp := 0, calls := g.calls + 1, maxTime := 1_000_000,
       trace := g.trace + [Pass] + [EnterReset])
  }

  lemma AttemptEntered(g: G, ev: Event)
    requires g.state.Init? && (ev.Started? || ev.Timeout?)
    ensures var w := SilentWorld(); w.Handle(g, ev) == w.StResetUart(InReset(g), Action)
  {
    var w := SilentWorld();
    SilentFile();
    var g1 := w.ProcessCommandline(g.(calls := g.calls + 1));
    assert g1 == g.(state := Program, substate := NoSub, calls := g.calls + 1, maxTime := 1_000_000,
                    trace := g.trace + [Pass]);
    assert w.Handle(g, ev) == w.StInit(g, ev) == w.Handle(g1, Action);
    hide World.ProcessCommandline, World.StInit, Parse;
    var g2 := Log(g1.(state := Reset), EnterReset);
    assert w.Handle(g1, Action) == w.StProgram(g1, Action) == w.Handle(g2, Action);
    assert InReset(g) == g2.(wp := 0, substate := ResetUart);
    assert w.Handle(g2, Action) == w.StReset(g2, Action) == w.StResetUart(InReset(g), Action);
  }

  /** An attempt starts: the reset command goes out. */
  lemma AttemptStarts(g: G, ev: Event, limit: nat)
    requires g.state.Init? && (ev.Started? || ev.Timeout?) && g.running && !g.trapped && 1 <= g.calls <= limit
    ensures
      var w := SilentWorld();
      var r := w.Handle(g, ev);
      Waits(w, r, limit + 4) && r.state.Reset? && r.substate.ResetUart? && r.retry == g.retry && r.maxTime == 1_000_000
  {
    var w := SilentWorld();
    AttemptEntered(g, ev);
    hide World.Handle;
    var h := w.Connect(w.SetTimeout(InReset(g), 3000));
    assert w.StResetUart(InReset(g), Action) == w.SendFlagged(h, CMD_RESET_UART);
    SentFlagged(w, h, CMD_RESET_UART);
    hide World.SendFlagged;
  }

  /** The reset command times out, the reset pin works, and the search begins with the old counter. */
  lemma ResetByPin(g: G, limit: nat)
    requires g.state.Reset? && g.substate.ResetUart? && Waits(SilentWorld(), g, limit)
    ensures
      var w := SilentWorld();
      var r := w.Iterate(g, Idle);
      Waits(w, r, limit + 4) && r.state.BootloaderQuery? && r.retry == g.retry && r.maxTime == g.maxTime
  {
    var w := SilentWorld();
    TimeoutTurn(w, g);
    var g0 := g.(calls := g.calls + 1, timer := 0);
    assert w.Handle(g0, Timeout) == w.StReset(g0, Timeout) == w.StResetUart(g0, Timeout);
    var g1 := g0.(substate := NoSub, port := Port(false, [], g.port.wire));
    assert w.StReset(g1, Disconnected) == g1;
    assert w.Handle(g1, Disconnected) == g1;
    assert w.Disconnect(g0.(substate := NoSub)) == g1;
    assert w.StResetUart(g0, Timeout) == w.Handle(g1, UartResetFailed) == w.StReset(g1, UartResetFailed);
    var g2 := w.Connect(g1).(substate := ResetRaspBee);
    assert g2.port.connected && g2.calls == g1.calls + 1;
    assert w.StReset(g1, UartResetFailed) == w.StResetRaspBee(g2, Action);
    PinWorks(g2);
    hide World.Handle, World.StReset, World.StResetUart, World.StResetRaspBee, World.Disconnect;
  }

  lemma PinWorks(g: G)
    requires g.state.Reset?
    ensures
      var w := SilentWorld();
      var g1 := g.(calls := g.calls + 1, substate := NoSub, state := BootloaderQuery);
      w.StResetRaspBee(g, Action) == w.SetTimeout(g1.(trace := g.trace + [PinReset] + [LeaveReset]), 5000)
  {
    var w := SilentWorld();
    var g1 := Log(g, PinReset).(calls := g.calls + 1);
    assert w.StResetRaspBee(g, Action) == w.Handle(g1, RaspBeeResetSuccess) == w.StReset(g1, RaspBeeResetSuccess);
    var g2 := Log(g1.(substate := NoSub, state := Program), LeaveReset);
    assert w.StReset(g1, RaspBeeResetSuccess) == w.Handle(g2, ResetSuccess) == w.StProgram(g2, ResetSuccess);
  }

  lemma AskTurn(g: G, limit: nat)
    requires g.state.BootloaderQuery? && Waits(SilentWorld(), g, limit) && g.retry != 2
    ensures
      var w := SilentWorld();
      var r := w.Iterate(g, Idle);
      Waits(w, r, limit + 3) && r.state.BootloaderQuery? && r.retry == g.retry + 1 && r.maxTime == g.maxTime
  {
    var w := SilentWorld();
    TimeoutTurn(w, g);
    QueryStep(w, g.(calls := g.calls + 1, timer := 0));
    hide World.Handle, World.Iterate;
  }

  lemma GiveUpTurn(g: G, limit: nat)
    requires g.state.BootloaderQuery? && Waits(SilentWorld(), g, limit) && g.retry == 2
    requires g.maxTime == 1_000_000 && limit < 98
    ensures
      var w := SilentWorld();
      var r := w.Iterate(g, Idle);
      Waits(w, r, limit + 3) && r.state.Init? && r.retry == 3
  {
    var w := SilentWorld();
    TimeoutTurn(w, g);
    QueryStep(w, g.(calls := g.calls + 1, timer := 0));
    hide World.Handle, World.Iterate;
  }

  lemma LoopIdle(w: World, n: nat)
    ensures w.Loop(Idles(n + 1)) == w.Iterate(w.Loop(Idles(n)), Idle)
  {
    hide World.Iterate, World.Handle;
    assert Idles(n + 1)[..n] == Idles(n);
  }

  /** The first search is given up after three timeouts, and the second begins. */
  lemma SearchGivenUp()
    ensures
      var w := SilentWorld();
      var g, h := w.Loop(Idles(4)), w.Loop(Idles(6));
      g.state.Init? && g.retry == 3 && Waits(w, h, 40) && h.state.BootloaderQuery? && h.retry == 3
  {
    var w := SilentWorld();
    AttemptStarts(w.Boot(), Started, 1);
    assert w.Loop(Idles(0)) == w.Handle(w.Boot(), Started);
    hide World.Handle, World.Iterate, World.Loop, SilentWorld, Idles;
    LoopIdle(w, 0);
    ResetByPin(w.Loop(Idles(0)), 5);
    LoopIdle(w, 1);
    AskTurn(w.Loop(Idles(1)), 9);
    LoopIdle(w, 2);
    AskTurn(w.Loop(Idles(2)), 12);
    LoopIdle(w, 3);
    GiveUpTurn(w.Loop(Idles(3)), 15);
    LoopIdle(w, 4);
    var g := w.Loop(Idles(4));
    TimeoutTurn(w, g);
    AttemptStarts(g.(calls := g.calls + 1, timer := 0), Timeout, 19);
    LoopIdle(w, 5);
    ResetByPin(w.Loop(Idles(5)), 23);
  }

  /** Such a run exists: from its sixth idle turn on it asks for ever. */
  lemma {:induction false} SilentRunNeverEnds(n: nat)
    requires n >= 6
    ensures
      var w := SilentWorld();
      var g := w.Loop(Idles(n));
      Monotone(w) && g.state.BootloaderQuery? && g.running && g.port.connected && g.retry == n - 3 &&
      Waits(w, g, 40 + 3 * n)
  {
    SilentFile();
    hide World.Handle, World.Iterate, World.Loop, SilentWorld, Idles;
    if n == 6 {
      SearchGivenUp();
    } else {
      SilentRunNeverEnds(n - 1);
      LoopIdle(SilentWorld(), n - 1);
      AskTurn(SilentWorld().Loop(Idles(n - 1)), 40 + 3 * (n - 1));
    }
  }
}
