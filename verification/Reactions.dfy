/**
 What the flasher answers to what it receives, byte by byte: which packets, texts and timeouts lead
 where, and what goes out.
 */
module Reactions {
  import opened Bytes
  import opened Flasher
  import opened FlasherInvariant
  import opened Framing
  import opened GcfFile
  import opened Input
  import opened OpenPort
  import TextStream
  import opened Trace
  import opened Transmit

  // ----- dispatch, state by state -----

  lemma ResetHandles(w: World, g: G, ev: Event)
    requires g.state.Reset?
    ensures w.Handle(g, ev) == w.StReset(g, ev)
  {
    hide World.StReset;
  }

  lemma ConnectHandles(w: World, g: G, ev: Event)
    requires g.state.BootloaderConnect?
    ensures w.Handle(g, ev) == w.StBootloaderConnect(g, ev)
  {
    hide World.StBootloaderConnect;
  }

  lemma QueryHandles(w: World, g: G, ev: Event)
    requires g.state.BootloaderQuery?
    ensures w.Handle(g, ev) == w.StBootloaderQuery(g, ev)
  {
    hide World.StBootloaderQuery;
  }

  lemma V1SyncHandles(w: World, g: G, ev: Event)
    requires g.state.V1Sync?
    ensures w.Handle(g, ev) == w.StV1Sync(g, ev)
  {
    hide World.StV1Sync;
  }

  lemma HeaderHandles(w: World, g: G, ev: Event)
    requires g.state.V1WriteHeader?
    ensures w.Handle(g, ev) == w.StV1WriteHeader(g, ev)
  {
    hide World.StV1WriteHeader;
  }

  lemma V1UploadHandles(w: World, g: G, ev: Event)
    requires g.state.V1Upload?
    ensures w.Handle(g, ev) == w.StV1Upload(g, ev)
  {
    hide World.StV1Upload;
  }

  lemma ValidateHandles(w: World, g: G, ev: Event)
    requires g.state.V1Validate?
    ensures w.Handle(g, ev) == w.StV1Validate(g, ev)
  {
    hide World.StV1Validate;
  }

  lemma V3SyncHandles(w: World, g: G, ev: Event)
    requires g.state.V3Sync?
    ensures w.Handle(g, ev) == w.StV3Sync(g, ev)
  {
    hide World.StV3Sync;
  }

  lemma V3UploadHandles(w: World, g: G, ev: Event)
    requires g.state.V3Upload?
    ensures w.Handle(g, ev) == w.StV3Upload(g, ev)
  {
    hide World.StV3Upload;
  }

  lemma WaitHandles(w: World, g: G, ev: Event)
    requires g.state.V3WaitID?
    ensures w.Handle(g, ev) == w.StV3WaitID(g, ev)
  {
    hide World.StV3WaitID;
  }

  // ----- the reset command -----

  /** Write parameter 0x26, the watchdog timeout: 2 seconds. */
  predicate IsResetCommand(p: seq<u8>) {
    |p| == 12 && p[0] == 0x0B && p[2] == 0 && FromLe16(p[3..5]) == 12 && FromLe16(p[5..7]) == 5 &&
    p[7] == 0x26 && FromLe32(p[8..12]) == 2
  }

  predicate IsVersionQuery(p: seq<u8>) {
    |p| == 9 && p[0] == 0x0D && p[2] == 0 && FromLe16(p[3..5]) == 9 && p[5..] == [0, 0, 0, 0]
  }

  lemma ResetCommandIs()
    ensures IsResetCommand(CMD_RESET_UART) && IsVersionQuery(CMD_QUERY_FIRMWARE)
  {
  }

  /** A short message on an open port with room in the ring is all there is between before and after. */
  lemma MessageAppended(w: World, g: G, bytes: seq<u8>)
    requires g.port.connected && |g.port.queue| <= 1900 && |bytes| <= 15
    ensures var r := w.SendFlagged(g, bytes);
            Stream(r.port) == Stream(g.port) + Frame(bytes) && |r.port.queue| <= |g.port.queue| + 36 &&
            r == g.(port := r.port, calls := g.calls + 1, trace := g.trace + [Framed(bytes)]) && r.port.connected
  {
    hide World.SendFlagged, Frame, FlushAmount;
    SentFlagged(w, g, bytes);
    FrameFitsRing(bytes);
    PutAllKeepsNewest(g.port, Frame(bytes));
    FlushKeepsStream(PutAll(g.port, Frame(bytes)), w.writes(g.calls));
    assert g.port.wire + (g.port.queue + Frame(bytes)) == Stream(g.port) + Frame(bytes);
  }

  /** What the program has to say in ST_Reset. */
  function Demands(task: Task): seq<seq<u8>> {
    if task.TaskReset? then [CMD_QUERY_FIRMWARE, CMD_RESET_UART] else [CMD_RESET_UART]
  }

  /**
   A reset begins: on a port that is or gets open, the bytes added to the stream are one packet, the
   reset command, behind a query for the firmware version if resetting is the task; 3 seconds are given.
   */
  lemma ResetRequested(w: World, g: G, cap: nat)
    requires g.state.Reset? && |g.port.queue| <= 1800 && cap >= 16
    requires g.port.connected || (w.opens(g.calls + 1) && g.port.queue == [])
    ensures
      var r := w.Handle(g, Action);
      r.port.connected && r.state.Reset? && r.substate.ResetUart? && r.timer == w.now(g.calls) + 3000 &&
      Stream(g.port) <= Stream(r.port) &&
      var got := Run(cap, CLEAN, Stream(r.port)[|Stream(g.port)|..]);
      got.rx == CLEAN && got.errors == 0 &&
      if w.cfg.task.TaskReset? then
        |got.packets| == 2 && IsVersionQuery(got.packets[0]) && IsResetCommand(got.packets[1])
      else |got.packets| == 1 && IsResetCommand(got.packets[0])
  {
    ResetStarts(w, g);
    ResetCommandIs();
    hide World.Handle, World.StReset, World.StResetUart, Run, Frames, IsResetCommand, IsVersionQuery;
    var before, added := Stream(g.port), Frames(Demands(w.cfg.task));
    assert (before + added)[|before|..] == added;
    FramesDelivered(cap, CLEAN, Demands(w.cfg.task));
    StepOutcome(cap, CLEAN, END);
    assert [] + Demands(w.cfg.task) == Demands(w.cfg.task);
    hide Step;
  }

  /** Where ST_ResetUart sends from. */
  ghost function Resetting(w: World, g: G): G { w.Connect(w.SetTimeout(g.(wp := 0, substate := ResetUart), 3000)) }

  lemma ResetAction(w: World, g: G)
    requires g.state.Reset? && (g.port.connected || w.opens(g.calls + 1))
    ensures
      var h := Resetting(w, g);
      h.port.connected && h.state.Reset? && h.substate.ResetUart? && h.timer == w.now(g.calls) + 3000 &&
      h.port.wire == g.port.wire && h.port.queue == (if g.port.connected then g.port.queue else []) &&
      w.Handle(g, Action)
        == w.SendFlagged(if w.cfg.task.TaskReset? then w.SendFlagged(h, CMD_QUERY_FIRMWARE) else h, CMD_RESET_UART)
  {
    ResetHandles(w, g, Action);
    hide World.Handle, World.SendFlagged;
  }

  lemma SameStream(p: Port, q: Port)
    requires p.wire == q.wire && p.queue == q.queue
    ensures Stream(p) == Stream(q)
  {
  }

  lemma ResetStarts(w: World, g: G)
    requires g.state.Reset? && |g.port.queue| <= 1800
    requires g.port.connected || (w.opens(g.calls + 1) && g.port.queue == [])
    ensures
      var r := w.Handle(g, Action);
      r.port.connected && r.state.Reset? && r.substate.ResetUart? && r.timer == w.now(g.calls) + 3000 &&
      Stream(r.port) == Stream(g.port) + Frames(Demands(w.cfg.task))
  {
    var h := Resetting(w, g);
    assert g.port.connected || g.port.queue == [];
    hide *;
    ResetAction(w, g);
    DemandFrames(w.cfg.task);
    SameStream(g.port, h.port);
    if w.cfg.task.TaskReset? {
      MessageAppended(w, h, CMD_QUERY_FIRMWARE);
      MessageAppended(w, w.SendFlagged(h, CMD_QUERY_FIRMWARE), CMD_RESET_UART);
      var a, b := Frame(CMD_QUERY_FIRMWARE), Frame(CMD_RESET_UART);
      assert Stream(g.port) + a + b == Stream(g.port) + (a + b);
    } else {
      MessageAppended(w, h, CMD_RESET_UART);
      assert [] + Frame(CMD_RESET_UART) == Frame(CMD_RESET_UART);
    }
  }

  lemma DemandFrames(task: Task)
    ensures Frames(Demands(task)) == (if task.TaskReset? then Frame(CMD_QUERY_FIRMWARE) else []) + Frame(CMD_RESET_UART)
  {
    hide Frame;
    var a, b := CMD_QUERY_FIRMWARE, CMD_RESET_UART;
    var none: seq<seq<u8>> := [];
    assert [b][..0] == none && [a][..0] == none && [a, b][..1] == [a];
    assert Frames(none) == [] && Frames([a]) == [] + Frame(a);
  }

  // ----- packets in the receive buffer -----

  /** Packets with the bootloader's code that fit the buffer; longer ones are dropped. */
  predicate FromBootloader(p: seq<u8>) { p != [] && p[0] == 0x81 && |p| < 512 }

  /** Byte `i` of the receive buffer once the packet is in it: a short packet leaves what was there. */
  function Byte(g: G, p: seq<u8>, i: nat): u8
    requires i < 512
  {
    if i < |p| then p[i] else g.ascii[i]
  }

  lemma DeliveredBytes(g: G, p: seq<u8>)
    requires |p| < 512
    ensures var h := Deliver(g, p);
            h == g.(ascii := h.ascii, wp := |p|, trace := g.trace + [Got(p)]) &&
            h.ascii[1] == Byte(g, p, 1) && h.ascii[2] == Byte(g, p, 2)
  {
  }

  lemma PacketDelivered(w: World, g: G, p: seq<u8>)
    requires FromBootloader(p)
    ensures w.Packet(g, p) == w.Handle(Deliver(g, p), RxBootloader)
  {
    hide World.Handle, Deliver;
  }

  // ----- how a reset ends -----

  predicate ResetWorked(ev: Event) { ev.UartResetSuccess? || ev.FtdiResetSuccess? || ev.RaspBeeResetSuccess? }

  /**
   The reset counts as done: the program ends if that was the task; else RaspBee I and ConBee I are given 5
   seconds to speak up, and the others are looked for in half a second.
   */
  ghost predicate Moved(w: World, g: G, r: G) {
    r.port == g.port &&
    if w.cfg.task.TaskReset? then !r.running && r.trace == g.trace
    else
      r.running == g.running && r.trace == g.trace + [LeaveReset] &&
      if w.cfg.device.RaspBee1? || w.cfg.device.ConBee1? then
        r.state.BootloaderQuery? && r.timer == w.now(g.calls) + 5000
      else r.state.BootloaderConnect? && r.timer == w.now(g.calls) + 500
  }

  lemma ResetDone(w: World, g: G, ev: Event)
    requires g.state.Reset? && ResetWorked(ev)
    ensures Moved(w, g, w.Handle(g, ev))
  {
    ResetHandles(w, g, ev);
    hide World.Handle, World.StResetUart, World.StResetFtdi, World.StResetRaspBee, World.Connect;
    if !w.cfg.task.TaskReset? {
      var h := Log(g.(substate := NoSub, state := Program), LeaveReset);
      assert w.StReset(g, ev) == w.Handle(h, ResetSuccess);
      ProgramHandles(w, h, ResetSuccess);
      hide World.StReset;
    }
  }

  lemma ProgramHandles(w: World, g: G, ev: Event)
    requires g.state.Program?
    ensures w.Handle(g, ev) == w.StProgram(g, ev)
  {
    hide World.StProgram;
  }

  /** `g` but for the clock readings and the timer. */
  ghost predicate Later(g: G, h: G) { h == g.(timer := h.timer, calls := h.calls, substate := h.substate) }

  /** What ends ST_ResetUart: an identification, the answer to the command where it is waited for, a hangup. */
  lemma ResetAnswered(w: World, g: G, p: seq<u8>)
    requires g.state.Reset? && g.substate.ResetUart? && p != []
    ensures
      var r := w.Packet(g, p);
      if FromBootloader(p) then
        if Byte(g, p, 1) == 0x82 then exists h :: Later(Deliver(g, p), h) && Moved(w, h, r) else r == Deliver(g, p)
      else if p[0] == 0x0B && |p| >= 8 && p[7] == 0x26 && (w.cfg.device.RaspBee1? || w.cfg.device.ConBee1?) then
        exists h :: Later(g, h) && Moved(w, h, r)
      else r == g
  {
    hide Moved, Later;
    if FromBootloader(p) {
      PacketDelivered(w, g, p);
      DeliveredBytes(g, p);
      var h := Deliver(g, p);
      UartHandles(w, h, RxBootloader);
      hide World.Packet, World.Handle, World.SendFlagged, World.Connect, World.Disconnect, Deliver;
      if Byte(g, p, 1) == 0x82 {
        ResetDone(w, w.SetTimeout(h, 100), UartResetSuccess);
        LaterTimer(w, h, 100);
      }
    } else {
      UartHandles(w, g, PkgUartReset);
      UartHandles(w, g, RxPacket);
      hide World.Handle, World.SendFlagged, World.Connect, World.Disconnect;
      ResetDone(w, ClearTimeout(g), UartResetSuccess);
      LaterTimer(w, g, 0);
    }
  }

  lemma LaterTimer(w: World, g: G, ms: nat)
    ensures Later(g, w.SetTimeout(g, ms)) && Later(g, ClearTimeout(g))
  {
  }

  lemma UartHandles(w: World, g: G, ev: Event)
    requires g.state.Reset? && g.substate.ResetUart?
    requires ev.RxBootloader? || ev.PkgUartReset? || ev.RxPacket? || ev.Disconnected? || ev.Timeout?
    ensures w.Handle(g, ev) == w.StResetUart(g, ev)
  {
    ResetHandles(w, g, ev);
    hide World.Handle, World.StResetUart;
  }

  /** The device that hangs up is taken for reset. */
  lemma HangupResets(w: World, g: G)
    requires g.state.Reset? && g.substate.ResetUart?
    ensures exists h :: Later(g, h) && Moved(w, h, w.Handle(g, Disconnected))
  {
    UartHandles(w, g, Disconnected);
    ResetDone(w, w.SetTimeout(g, 500), UartResetSuccess);
    LaterTimer(w, g, 500);
    hide World.Handle, World.SendFlagged, World.Connect, World.Disconnect, Moved, Later;
  }

  /** The line that is worked when the command has not helped: FTDI for ConBee I, the pin for RaspBee I and II. */
  function LineOf(w: World, opens: bool): seq<Note> {
    if !opens then []
    else if w.cfg.device.ConBee1? then [FtdiReset]
    else if w.cfg.device.RaspBee1? || w.cfg.device.RaspBee2? then [PinReset]
    else []
  }

  /**
   After 3 seconds without an answer the port is closed and opened again, for devices with a reset line,
   and that line is worked; whatever comes of it, the reset counts as done.
   */
  lemma LineWorked(w: World, g: G)
    requires g.state.Reset? && g.substate.ResetUart?
    ensures
      var r := w.Handle(g, Timeout);
      var lines := LineOf(w, w.opens(g.calls));
      r.trace == g.trace + lines + (if w.cfg.task.TaskReset? then [] else [LeaveReset]) &&
      (lines != [] ==> r.port.connected) && r.port.queue == [] && r.port.wire == g.port.wire &&
      if w.cfg.task.TaskReset? then !r.running
      else if w.cfg.device.RaspBee1? || w.cfg.device.ConBee1? then r.state.BootloaderQuery?
      else r.state.BootloaderConnect?
  {
    var h := g.(substate := NoSub, port := Port(false, [], g.port.wire));
    UartHandles(w, g, Timeout);
    ClosedIs(w, g);
    assert w.StResetUart(g, Timeout) == w.Handle(h, UartResetFailed);
    hide World.StResetUart, World.Handle, World.Disconnect;
    ResetHandles(w, h, UartResetFailed);
    FailedIs(w, h);
    hide World.StReset;
    var h1 := w.Connect(h);
    if w.cfg.device.ConBee1? && w.opens(g.calls) {
      PulseDone(w, h1, FtdiReset);
    } else if (w.cfg.device.RaspBee1? || w.cfg.device.RaspBee2?) && w.opens(g.calls) {
      PulseDone(w, h1, PinReset);
    } else {
      var pinned := w.cfg.device.ConBee1? || w.cfg.device.RaspBee1? || w.cfg.device.RaspBee2?;
      ResetDone(w, w.SetTimeout(if pinned then h1 else h, 500), UartResetSuccess);
      assert g.trace + [] == g.trace;
    }
  }

  lemma ClosedIs(w: World, g: G)
    requires g.state.Reset?
    ensures w.Disconnect(g.(substate := NoSub)) == g.(substate := NoSub, port := Port(false, [], g.port.wire))
  {
    var h := g.(substate := NoSub, port := Port(false, [], g.port.wire));
    ResetHandles(w, h, Disconnected);
    hide World.Handle, World.StResetUart, World.StResetFtdi, World.StResetRaspBee, World.Connect;
  }

  lemma FailedIs(w: World, g: G)
    requires g.state.Reset? && !g.port.connected
    ensures
      var h := w.Connect(g);
      w.StReset(g, UartResetFailed)
        == if w.cfg.device.ConBee1? && w.opens(g.calls) then w.StResetFtdi(h.(substate := ResetFtdi), Action)
           else if (w.cfg.device.RaspBee1? || w.cfg.device.RaspBee2?) && w.opens(g.calls) then
             w.StResetRaspBee(h.(substate := ResetRaspBee), Action)
           else
             var pinned := w.cfg.device.ConBee1? || w.cfg.device.RaspBee1? || w.cfg.device.RaspBee2?;
             w.Handle(w.SetTimeout(if pinned then h else g, 500), UartResetSuccess)
  {
    hide World.Handle, World.StResetUart, World.StResetFtdi, World.StResetRaspBee, World.SetTimeout;
  }

  lemma PulseDone(w: World, g: G, line: Note)
    requires g.state.Reset? && (line.FtdiReset? || line.PinReset?)
    ensures
      var r := if line.FtdiReset? then w.StResetFtdi(g.(substate := ResetFtdi), Action)
               else w.StResetRaspBee(g.(substate := ResetRaspBee), Action);
      r.port == g.port && r.trace == g.trace + [line] + (if w.cfg.task.TaskReset? then [] else [LeaveReset]) &&
      if w.cfg.task.TaskReset? then !r.running
      else if w.cfg.device.RaspBee1? || w.cfg.device.ConBee1? then r.state.BootloaderQuery?
      else r.state.BootloaderConnect?
  {
    var h := Log(g, line).(calls := g.calls + 1, substate := if line.FtdiReset? then ResetFtdi else ResetRaspBee);
    var worked := if line.FtdiReset? then FtdiResetSuccess else RaspBeeResetSuccess;
    var failed := if line.FtdiReset? then FtdiResetFailed else RaspBeeResetFailed;
    ResetHandles(w, h, failed);
    hide World.Handle, World.StResetUart, World.Connect;
    ResetDone(w, h, worked);
    ResetDone(w, w.SetTimeout(h, 1), worked);
    assert g.trace + [line] + [] == g.trace + [line];
  }

  // ----- packets -----

  /**
   The device's answer to the update request: it is accepted if and only if it says so (0x83 with status
   0); any other packet is only taken note of.
   */
  lemma UpdateAnswered(w: World, g: G, p: seq<u8>)
    requires g.state.V3Sync? && p != []
    ensures
      var r := w.Packet(g, p);
      r.port == g.port && r.running == g.running && r.trapped == g.trapped &&
      if !FromBootloader(p) then r == g
      else if Byte(g, p, 1) == 0x83 && Byte(g, p, 2) == 0 then
        r.state.V3Upload? && r.timer == w.now(g.calls) + 3000 && r.trace == g.trace + [Got(p), Accepted]
      else r.state.V3Sync? && r.timer == g.timer && r.calls == g.calls && r.trace == g.trace + [Got(p)]
  {
    if FromBootloader(p) {
      PacketDelivered(w, g, p);
      DeliveredBytes(g, p);
      var h := Deliver(g, p);
      V3SyncHandles(w, h, RxBootloader);
      hide World.Packet, World.Handle, World.SendFlagged, World.Retry, Deliver;
      assert g.trace + [Got(p)] + [Accepted] == g.trace + [Got(p), Accepted];
    } else {
      V3SyncHandles(w, g, PkgUartReset);
      V3SyncHandles(w, g, RxPacket);
      hide World.Handle, World.SendFlagged, World.Retry;
    }
  }

  /** A packet of two bytes can be an acceptance: what is left of an earlier packet is read as its status. */
  lemma ShortResponseAccepted(w: World, g: G)
    requires g.state.V3Sync? && g.ascii[2] == 0
    ensures w.Packet(g, [0x81, 0x83]).state.V3Upload?
  {
    UpdateAnswered(w, g, [0x81, 0x83]);
    hide World.Packet;
  }

  /**
   The search for the bootloader: a packet is an identification if and only if the buffer
   begins with 81 82 then; it is answered at once by the update request of the file.
   */
  lemma BootloaderIdentified(w: World, g: G, p: seq<u8>)
    requires g.state.BootloaderQuery? && p != [] && g.port.connected
    ensures
      var r := w.Packet(g, p);
      if !FromBootloader(p) then r == g
      else if Byte(g, p, 1) != 0x82 then r.state.BootloaderQuery? && r.port == g.port && r.timer == g.timer
      else
        r.state.V3Sync? && r.timer == w.now(g.calls) + 1000 &&
        r.port == SendFlagged(g.port, V3SyncRequest(w.Head()), w.writes(g.calls + 1)) &&
        r.trace == g.trace + [Got(p), Framed(V3SyncRequest(w.Head()))]
  {
    if FromBootloader(p) {
      PacketDelivered(w, g, p);
      DeliveredBytes(g, p);
      var h := Deliver(g, p);
      QueryHandles(w, h, RxBootloader);
      hide World.Packet, World.Write, World.SendFlagged, World.Retry, World.Head, V3SyncRequest, SendFlagged, Deliver;
      if Byte(g, p, 1) == 0x82 {
        var h1 := h.(state := V3Sync);
        V3SyncHandles(w, h1, Action);
        hide World.Handle;
        SentFlagged(w, w.SetTimeout(h1, 1000), V3SyncRequest(w.Head()));
        assert g.trace + [Got(p)] + [Framed(V3SyncRequest(w.Head()))]
            == g.trace + [Got(p), Framed(V3SyncRequest(w.Head()))];
      } else {
        hide World.Handle;
      }
    } else {
      QueryHandles(w, g, PkgUartReset);
      QueryHandles(w, g, RxPacket);
      hide World.Handle, World.Write, World.SendFlagged, World.Retry, World.Head;
    }
  }

  /** Waiting for the verdict: success is reported if and only if the bootloader identifies itself. */
  lemma VerdictAnswered(w: World, g: G, p: seq<u8>)
    requires g.state.V3WaitID? && p != []
    ensures
      var r := w.Packet(g, p);
      r.port == g.port && r.state.V3WaitID? &&
      if !FromBootloader(p) then r == g
      else if Byte(g, p, 1) == 0x82 then !r.running && r.trace == g.trace + [Got(p), V3Done]
      else r.running == g.running && r.timer == g.timer && r.trace == g.trace + [Got(p)]
  {
    if FromBootloader(p) {
      PacketDelivered(w, g, p);
      DeliveredBytes(g, p);
      WaitHandles(w, Deliver(g, p), RxBootloader);
      hide World.Packet, World.Handle, World.Retry, Deliver;
      assert g.trace + [Got(p)] + [V3Done] == g.trace + [Got(p), V3Done];
    } else {
      WaitHandles(w, g, PkgUartReset);
      WaitHandles(w, g, RxPacket);
      hide World.Handle, World.Retry;
    }
  }

  /** An upload serves data requests, packets 81 04 of eight bytes, and nothing else. */
  lemma OtherPacketsIgnored(w: World, g: G, p: seq<u8>)
    requires g.state.V3Upload? && p != [] && !(|p| == 8 && p[0] == 0x81 && p[1] == 0x04)
    ensures w.Packet(g, p) == if FromBootloader(p) then Deliver(g, p) else g
  {
    if FromBootloader(p) {
      PacketDelivered(w, g, p);
      DeliveredBytes(g, p);
      V3UploadHandles(w, Deliver(g, p), RxBootloader);
      hide World.Packet, World.Handle, World.AnswerDataRequest, World.Retry, Deliver;
    } else {
      V3UploadHandles(w, g, PkgUartReset);
      V3UploadHandles(w, g, RxPacket);
      hide World.Handle, World.AnswerDataRequest, World.Retry;
    }
  }

  // ----- texts -----

  /** The text in the buffer after a read, if anything of it was stored. */
  ghost predicate Reads(g: G, data: seq<u8>, text: seq<u8>) {
    var (a, n, k) := Store(g.ascii, g.wp, data);
    k > 0 && text == a[..n]
  }

  /** The event for a text, with the text in the buffer. */
  lemma TextRaised(w: World, g: G, data: seq<u8>, text: seq<u8>) returns (h: G)
    requires w.TakesText(g.state) && Reads(g, data, text)
    ensures h == g.(ascii := h.ascii, wp := h.wp) && h.ascii[..h.wp] == text
    ensures w.ReceiveText(g, data) == w.Handle(h, RxAscii)
  {
    hide Store, World.Handle;
    var (a, n, _) := Store(g.ascii, g.wp, data);
    h := g.(ascii := a, wp := n);
  }

  lemma ShownFinds(g: G, k: Keyword)
    ensures Occurs(k.Text(), g.ascii[..g.wp]) <==> Finds(g, k)
    ensures Occurs(k.Text(), g.ascii[..g.wp]) ==> |k.Text()| <= g.wp
  {
    var text, word := g.ascii[..g.wp], k.Text();
    if i :| 0 <= i <= |text| && OccursAt(word, text, i) {
      KeywordBytes(k);
      assert TextStream.OccursAt(text, word, i);
    }
    if Finds(g, k) { WordOccurs(text, word); }
  }

  /**
   The search for the bootloader: a text starts the V1 upload if and only if it is a line of more than 32
   bytes with "Bootloader" in it; the answer is 1A 1C A9 AE.
   */
  lemma BootloaderGreeted(w: World, g: G, data: seq<u8>, text: seq<u8>)
    requires g.state.BootloaderQuery? && g.port.connected && Reads(g, data, text)
    ensures
      var r := w.ReceiveText(g, data);
      if Shows(text, Bootloader) then
        r.state.V1Sync? && r.wp == 0 && r.timer == w.now(g.calls + 1) + 500 &&
        r.port == Transmit.Write(g.port, [0x1A, 0x1C, 0xA9, 0xAE], w.writes(g.calls))
      else r.state.BootloaderQuery? && r.port == g.port && r.timer == g.timer
  {
    var h := TextRaised(w, g, data, text);
    hide *;
    GreetingTaken(w, g, h, text);
  }

  lemma GreetingShown(h: G)
    ensures Shows(h.ascii[..h.wp], Bootloader) <==> 32 < h.wp && h.ascii[h.wp - 1] == 10 && Finds(h, Bootloader)
  {
    KeywordBytes(Bootloader);
    ShownFinds(h, Bootloader);
    hide Occurs, Finds, Keyword.Text;
  }

  lemma GreetingRaised(w: World, g: G)
    requires g.state.BootloaderQuery?
    ensures w.StBootloaderQuery(g, RxAscii)
         == if 32 < g.wp && g.ascii[g.wp - 1] == 10 && Finds(g, Bootloader) then
              w.Handle(LogWord(ClearTimeout(g), Bootloader).(state := V1Sync), Action)
            else g
  {
    hide World.Handle, World.Write, World.SendFlagged, World.Retry, World.Head, World.SetTimeout, Finds, LogWord;
  }

  lemma SyncSent(w: World, g: G)
    requires g.state.V1Sync?
    ensures w.Handle(g, Action) == w.SetTimeout(w.Write(ResetInput(g), V1_SYNC), 500)
  {
    V1SyncHandles(w, g, Action);
    hide World.Handle, World.Write, World.SetTimeout, World.Retry, ResetInput, Finds;
  }

  lemma GreetingTaken(w: World, g: G, h: G, text: seq<u8>)
    requires g.state.BootloaderQuery? && g.port.connected
    requires h == g.(ascii := h.ascii, wp := h.wp) && text == h.ascii[..h.wp]
    ensures
      var r := w.Handle(h, RxAscii);
      if Shows(text, Bootloader) then
        r.state.V1Sync? && r.wp == 0 && r.timer == w.now(g.calls + 1) + 500 &&
        r.port == Transmit.Write(g.port, [0x1A, 0x1C, 0xA9, 0xAE], w.writes(g.calls))
      else r.state.BootloaderQuery? && r.port == g.port && r.timer == g.timer
  {
    QueryHandles(w, h, RxAscii);
    GreetingRaised(w, h);
    GreetingShown(h);
    GreetingNoted(w, h);
    hide *;
  }

  lemma GreetingNoted(w: World, g: G)
    ensures
      var r := w.Handle(LogWord(ClearTimeout(g), Bootloader).(state := V1Sync), Action);
      g.port.connected ==>
        r.state.V1Sync? && r.wp == 0 && r.timer == w.now(g.calls + 1) + 500 &&
        r.port == Transmit.Write(g.port, [0x1A, 0x1C, 0xA9, 0xAE], w.writes(g.calls))
  {
    hide World.Handle, Transmit.Write, LogWord, ClearTimeout;
    WordNoted(g, Bootloader, V1Sync);
    if g.port.connected { SyncAnswered(w, LogWord(ClearTimeout(g), Bootloader).(state := V1Sync)); }
  }

  lemma WordNoted(g: G, k: Keyword, s: State)
    ensures var h := LogWord(ClearTimeout(g), k).(state := s);
            h.calls == g.calls && h.port == g.port
  {
  }

  lemma SyncAnswered(w: World, g: G)
    requires g.state.V1Sync? && g.port.connected
    ensures
      var r := w.Handle(g, Action);
      r.state.V1Sync? && r.wp == 0 && r.timer == w.now(g.calls + 1) + 500 &&
      r.port == Transmit.Write(g.port, [0x1A, 0x1C, 0xA9, 0xAE], w.writes(g.calls))
  {
    SyncSent(w, g);
    Written(w, ResetInput(g), V1_SYNC);
    hide World.Handle, World.Write, Transmit.Write;
  }

  lemma ReadyRaised(w: World, g: G)
    requires g.state.V1Sync?
    ensures w.StV1Sync(g, RxAscii)
         == if 4 < g.wp && Finds(g, Keyword.Ready) then
              w.Handle(LogWord(ClearTimeout(g), Keyword.Ready).(state := V1WriteHeader), Action)
            else w.SetTimeout(g, 500)
  {
    hide World.Handle, World.Write, World.Retry, World.SetTimeout, Finds, LogWord;
  }

  lemma HeaderSent(w: World, g: G)
    requires g.state.V1WriteHeader?
    ensures w.Handle(g, Action)
         == w.SetTimeout(w.Write(ResetInput(g).(state := V1Upload), V1Header(w.Head())), 1000)
  {
    HeaderHandles(w, g, Action);
    hide World.Handle, World.Write, World.SetTimeout, World.Head, V1Header, ResetInput;
  }

  lemma ReadyTaken(w: World, g: G)
    requires g.state.V1Sync? && g.port.connected
    ensures
      var r := w.Handle(g, RxAscii);
      if 4 < g.wp && Finds(g, Keyword.Ready) then
        r.state.V1Upload? && r.wp == 0 && r.timer == w.now(g.calls + 1) + 1000 &&
        r.port == Transmit.Write(g.port, V1Header(w.Head()), w.writes(g.calls))
      else r == w.SetTimeout(g, 500)
  {
    V1SyncHandles(w, g, RxAscii);
    ReadyRaised(w, g);
    hide World.StV1Sync, World.Handle, World.Write, World.Head, V1Header, Transmit.Write, LogWord, Finds;
    if 4 < g.wp && Finds(g, Keyword.Ready) {
      LogWordIs(ClearTimeout(g), Keyword.Ready);
      var h := LogWord(ClearTimeout(g), Keyword.Ready).(state := V1WriteHeader);
      HeaderSent(w, h);
      Written(w, ResetInput(h).(state := V1Upload), V1Header(w.Head()));
    }
  }

  /** READY in the text, and only that, is answered by the header of the file. */
  lemma ReadyAnswered(w: World, g: G, data: seq<u8>, text: seq<u8>)
    requires g.state.V1Sync? && g.port.connected && Reads(g, data, text)
    ensures
      var r := w.ReceiveText(g, data);
      if Shows(text, Keyword.Ready) then
        r.state.V1Upload? && r.wp == 0 && r.timer == w.now(g.calls + 1) + 1000 &&
        r.port == Transmit.Write(g.port, V1Header(w.Head()), w.writes(g.calls))
      else r.state.V1Sync? && r.port == g.port && r.timer == w.now(g.calls) + 500
  {
    hide Reads, World.Handle, World.ReceiveText;
    var h := TextRaised(w, g, data, text);
    KeywordBytes(Keyword.Ready);
    ShownFinds(h, Keyword.Ready);
    hide Occurs, Finds, Keyword.Text, World.Head, V1Header, Transmit.Write;
    ReadyTaken(w, h);
  }

  /** Text that asks for a page: six bytes or more, G first and a semicolon at the sixth byte. */
  predicate AsksPage(text: seq<u8>) { |text| >= 6 && text[0] == 71 && text[5] == 59 }

  /** The number of the page: the fourth and the fifth byte, low byte first. */
  function PageAsked(text: seq<u8>): u16
    requires |text| >= 6
  {
    text[3] as int + 0x100 * text[4] as int
  }

  lemma PageNumber(text: seq<u8>, ascii: seq<u8>)
    requires |text| >= 6 && text <= ascii
    ensures FromLe16(ascii[3..5]) == PageAsked(text)
  {
    assert ascii[3..5] == [text[3], text[4]];
  }

  lemma PageTextIs(w: World, h: G)
    requires h.state.V1Upload?
    ensures w.StV1Upload(h, RxAscii)
         == if AsksPage(h.ascii[..h.wp]) then w.SendPage(h, FromLe16(h.ascii[3..5])) else h
  {
    hide World.SendPage, World.Retry, World.Handle, FromLe16;
  }

  lemma PageTextTaken(w: World, h: G, text: seq<u8>)
    requires h.state.V1Upload? && text == h.ascii[..h.wp]
    ensures w.Handle(h, RxAscii) == if AsksPage(text) then w.SendPage(h, PageAsked(text)) else h
  {
    V1UploadHandles(w, h, RxAscii);
    PageTextIs(w, h);
    if AsksPage(text) { PageNumber(text, h.ascii); }
    hide *;
  }

  /** A text that asks for a page, and only that, is answered by that page. */
  lemma PageRequested(w: World, g: G, data: seq<u8>, text: seq<u8>) returns (h: G)
    requires g.state.V1Upload? && Reads(g, data, text)
    ensures h == g.(ascii := h.ascii, wp := h.wp)
    ensures w.ReceiveText(g, data) == if AsksPage(text) then w.SendPage(h, PageAsked(text)) else h
  {
    h := TextRaised(w, g, data, text);
    hide *;
    PageTextTaken(w, h, text);
  }

  /** #VALID CRC in the text, and only that, ends the V1 upload with the report of success. */
  lemma ValidityAnswered(w: World, g: G, data: seq<u8>, text: seq<u8>)
    requires g.state.V1Validate? && Reads(g, data, text)
    ensures
      var r := w.ReceiveText(g, data);
      r.port == g.port && r.state.V1Validate? &&
      if Shows(text, ValidCrc) then
        !r.running && r.trace == g.trace + [Words(text), Saw(ValidCrc), V1Done]
      else r.running == g.running && r.trace == g.trace && r.timer == w.now(g.calls) + 1000
  {
    hide Reads, World.Handle, World.ReceiveText;
    var h := TextRaised(w, g, data, text);
    KeywordBytes(ValidCrc);
    ShownFinds(h, ValidCrc);
    hide Occurs, Finds, World.Retry, Keyword.Text;
    ValidateHandles(w, h, RxAscii);
    assert g.trace + [Words(text)] + [Saw(ValidCrc)] + [V1Done] == g.trace + [Words(text), Saw(ValidCrc), V1Done];
  }

  // ----- timeouts and lost devices -----

  predicate Uploading(s: State) {
    s.V1Sync? || s.V1Upload? || s.V1Validate? || s.V3Sync? || s.V3Upload? || s.V3WaitID?
  }

  /** Another attempt in 250 ms before the deadline, the end of the program after it. */
  ghost predicate StartsOver(w: World, g: G, r: G) {
    r.port == g.port &&
    if w.now(g.calls) < g.maxTime then
      r.state.Init? && r.running == g.running && r.timer == w.now(g.calls + 1) + 250 &&
      r.trace == g.trace + [Restart(w.now(g.calls))]
    else !r.running && r.trace == g.trace
  }

  lemma RetryStartsOver(w: World, g: G)
    ensures StartsOver(w, g, w.Retry(g))
  {
  }

  /** Silence during an upload, and a device lost during the search, start the attempt over. */
  lemma SilenceStartsOver(w: World, g: G)
    ensures Uploading(g.state) ==> StartsOver(w, g, w.Handle(g, Timeout)) && w.Handle(g, Disconnected) == g
    ensures g.state.BootloaderQuery? ==> StartsOver(w, g, w.Handle(g, Disconnected))
  {
    RetryStartsOver(w, g);
    hide StartsOver, World.Retry, World.Handle, World.Write, World.SendFlagged;
    match g.state
    case V1Sync => V1SyncHandles(w, g, Timeout); V1SyncHandles(w, g, Disconnected);
    case V1Upload => V1UploadHandles(w, g, Timeout); V1UploadHandles(w, g, Disconnected);
    case V1Validate => ValidateHandles(w, g, Timeout); ValidateHandles(w, g, Disconnected);
    case V3Sync => V3SyncHandles(w, g, Timeout); V3SyncHandles(w, g, Disconnected);
    case V3Upload => V3UploadHandles(w, g, Timeout); V3UploadHandles(w, g, Disconnected);
    case V3WaitID => WaitHandles(w, g, Timeout); WaitHandles(w, g, Disconnected);
    case BootloaderQuery => QueryHandles(w, g, Disconnected);
    case _ =>
  }

  lemma QuestionIs(w: World, g: G)
    requires g.state.BootloaderQuery? && g.retry != 2
    ensures
      var h := g.(retry := g.retry + 1);
      w.StBootloaderQuery(g, Timeout)
        == w.SetTimeout(if w.Head().fileType < 30 then w.Write(h, Ascii("ID"))
                        else w.SendFlagged(h, [BTL_MAGIC, 0x02]), 200)
  {
    hide World.Handle, World.Write, World.SendFlagged, World.Retry, World.Head, World.SetTimeout, Ascii, Finds;
  }

  /** The question of the search: "ID" for file types below 30, 81 02 in a frame for the others. */
  lemma QuestionAsked(w: World, g: G)
    requires g.state.BootloaderQuery? && g.port.connected && g.retry != 2
    ensures
      var r := w.Handle(g, Timeout);
      r.state.BootloaderQuery? && r.retry == g.retry + 1 && r.timer == w.now(g.calls + 1) + 200 &&
      r.port == if w.Head().fileType < 30 then Transmit.Write(g.port, [73, 68], w.writes(g.calls))
                else SendFlagged(g.port, [0x81, 0x02], w.writes(g.calls))
  {
    QueryHandles(w, g, Timeout);
    QuestionIs(w, g);
    assert Ascii("ID") == [73, 68];
    hide World.Handle, World.StBootloaderQuery, World.Write, World.SendFlagged, World.Head;
    hide Ascii, Transmit.Write, SendFlagged;
    var h := g.(retry := g.retry + 1);
    if w.Head().fileType < 30 { Written(w, h, Ascii("ID")); } else { SentFlagged(w, h, [BTL_MAGIC, 0x02]); }
  }

  /** The device is looked for every 500 ms; once it is there the search begins, with a fresh counter. */
  lemma DeviceAwaited(w: World, g: G)
    requires g.state.BootloaderConnect?
    ensures
      var r := w.Handle(g, Timeout);
      if g.port.connected || w.opens(g.calls) then
        r.state.BootloaderQuery? && r.retry == 0 && r.wp == 0 && (forall b <- r.ascii :: b == 0) && r.port.connected &&
        r.timer == w.now(if g.port.connected then g.calls else g.calls + 1) + 200
      else r.state.BootloaderConnect? && !r.port.connected && r.timer == w.now(g.calls + 1) + 500
  {
    ConnectHandles(w, g, Timeout);
    var h := w.Connect(g);
    if h.port.connected { QueryHandles(w, h.(state := BootloaderQuery), Action); }
    hide World.Handle, World.Write, World.SendFlagged, World.Retry;
  }

  /**
   Two cases that no run comes to, as nothing raises their events: text during the wait for the device
   would begin the search at once, and a failed reset would end the program.
   */
  lemma ShortCuts(w: World, g: G)
    ensures g.state.BootloaderConnect? && !(32 < g.wp && g.ascii[g.wp - 1] == 10) ==>
              var r := w.Handle(g, RxAscii);
              r.state.BootloaderQuery? && r.retry == g.retry && r.timer == w.now(g.calls) + 100
    ensures g.state.Program? ==> w.Handle(g, ResetFailed) == g.(running := false)
  {
    if g.state.BootloaderConnect? {
      var h := w.SetTimeout(g.(state := BootloaderQuery, substate := NoSub), 100);
      ConnectHandles(w, g, RxAscii);
      assert w.StBootloaderConnect(g, RxAscii) == w.Handle(h, RxAscii);
      QueryHandles(w, h, RxAscii);
      GreetingRaised(w, h);
      hide World.Handle, World.StBootloaderQuery, World.StBootloaderConnect;
    } else if g.state.Program? {
      ProgramHandles(w, g, ResetFailed);
      hide World.Handle;
    }
  }

  // ----- the start of an attempt -----

  /**
   An attempt begins with the command line: if the file can be read and is what it says, or need not be,
   ST_Reset is entered; else the program ends without a byte sent.
   */
  lemma AttemptBegins(w: World, g: G, ev: Event)
    requires g.state.Init? && (ev.Started? || ev.Timeout?) && g.running && !g.trapped
    ensures
      var good := w.loads(g.calls) && (w.cfg.task.TaskReset? || Parse(w.cfg.file).Parsed?);
      var r := w.Handle(g, ev);
      if good then r == w.Handle(Attempt(w, g), Action)
      else
        r.state.Void? && r.port == g.port && r.trace == g.trace &&
        (r.trapped <==> w.loads(g.calls) && w.cfg.task.TaskProgram? && Parse(w.cfg.file).Trapped?) &&
        (!r.trapped ==> !r.running)
  {
    InitHandles(w, g, ev);
    hide World.Handle, World.ProcessCommandline;
    if w.loads(g.calls) && (w.cfg.task.TaskReset? || Parse(w.cfg.file).Parsed?) {
      var h := w.ProcessCommandline(g.(calls := g.calls + 1));
      assert w.StInit(g, ev) == w.Handle(h, Action);
      CommandlineIs(w, g);
      if h.state.Program? {
        ProgramHandles(w, h, Action);
        assert w.StProgram(h, Action) == w.Handle(Log(h.(state := State.Reset), EnterReset), Action);
        assert g.trace + [Pass] + [EnterReset] == g.trace + [Pass, EnterReset];
      }
    }
  }

  /** ST_Reset has been entered for a new attempt. */
  function Attempt(w: World, g: G): G {
    g.(state := State.Reset, substate := NoSub, maxTime := DeadlineOf(w, g.maxTime), calls := g.calls + 1,
       trace := g.trace + [Pass, EnterReset])
  }

  /** -t in seconds from the start of the program; without it 10 seconds for programming. */
  function DeadlineOf(w: World, before: nat): nat {
    var given := if w.cfg.seconds.Some? then 1000 * w.cfg.seconds.value + w.now(0) else before;
    if w.cfg.task.TaskProgram? && given < w.now(0) then w.now(0) + 10_000 else given
  }

  lemma CommandlineIs(w: World, g: G)
    ensures
      w.ProcessCommandline(g.(calls := g.calls + 1))
        == if w.cfg.task.TaskReset? then Attempt(w, g)
           else Attempt(w, g).(state := Program, trace := g.trace + [Pass])
  {
    assert g.trace + [Pass] + [EnterReset] == g.trace + [Pass, EnterReset];
  }

  lemma InitHandles(w: World, g: G, ev: Event)
    requires g.state.Init?
    ensures w.Handle(g, ev) == w.StInit(g, ev)
  {
    hide World.StInit;
  }

  /**
   The program starts: with a file it can use, the first bytes on a port that opens are the commands of a
   reset, and nothing is sent on one that does not; both are given 3 seconds.
   */
  lemma ProgramStarts(w: World, cap: nat)
    requires w.loads(1) && (w.cfg.task.TaskReset? || Parse(w.cfg.file).Parsed?) && cap >= 16
    ensures
      var g := w.Loop([]);
      var got := Run(cap, CLEAN, Stream(g.port));
      g.running && !g.trapped && g.state.Reset? && g.substate.ResetUart? && g.rx == CLEAN && g.retry == 0 &&
      g.maxTime == DeadlineOf(w, 0) && g.timer == w.now(2) + 3000 && g.port.connected == w.opens(3) &&
      if !w.opens(3) then Stream(g.port) == []
      else if w.cfg.task.TaskReset? then
        |got.packets| == 2 && IsVersionQuery(got.packets[0]) && IsResetCommand(got.packets[1])
      else |got.packets| == 1 && IsResetCommand(got.packets[0])
  {
    var b := w.Boot();
    AttemptBegins(w, b, Started);
    var h := Attempt(w, b);
    ResetCarries(w, h);
    assert Stream(b.port) == [];
    if w.opens(3) {
      ResetRequested(w, h, cap);
      assert Stream(w.Loop([]).port)[0..] == Stream(w.Loop([]).port);
    }
    hide World.Handle, Run, IsResetCommand, IsVersionQuery, DeadlineOf;
  }

  /** What the beginning of a reset leaves alone, and what it does with a port that does not open. */
  lemma ResetCarries(w: World, g: G)
    requires g.state.Reset?
    ensures
      var r := w.Handle(g, Action);
      r.running == g.running && r.trapped == g.trapped && r.rx == g.rx && r.retry == g.retry &&
      r.maxTime == g.maxTime && r.state.Reset? && r.substate.ResetUart? &&
      (!g.port.connected && !w.opens(g.calls + 1) ==>
         r.timer == w.now(g.calls) + 3000 && r.port == Port(false, [], g.port.wire))
  {
    ResetHandles(w, g, Action);
    hide World.Handle;
    var h := Resetting(w, g);
    if h.port.connected {
      ResetAction(w, g);
      hide World.StReset, World.StResetUart, World.SendFlagged;
      SentFlagged(w, h, CMD_QUERY_FIRMWARE);
      var k := if w.cfg.task.TaskReset? then w.SendFlagged(h, CMD_QUERY_FIRMWARE) else h;
      SentFlagged(w, k, CMD_RESET_UART);
    }
  }
}
