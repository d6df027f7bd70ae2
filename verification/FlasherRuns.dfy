/** What holds over whole runs of the flasher, for every environment with a monotone clock. */
module FlasherRuns {
  import opened Bytes
  import opened Flasher
  import opened FlasherInvariant
  import opened Framing
  import opened Input
  import opened Subsequence
  import opened Trace
  import opened Transmit

  // ----- one turn of the loop -----

  ghost predicate Good(w: World, g: G) { Inv(w, g) && Alive(g) }

  lemma PacketOk(w: World, g: G, p: seq<u8>)
    requires Good(w, g) && g.port.connected && 1 <= |p|
    ensures var r := w.Packet(g, p);
            Good(w, r) && Follows(g, r) && r.port.connected
  {
    hide Due;
    hide Steady, World.Handle;
    HandleOk(w, g, PkgUartReset);
    HandleOk(w, g, RxPacket);
    if p[0] == BTL_MAGIC && |p| < ASCII_SIZE {
      var g0 := g.(ascii := Overwrite(g.ascii, p), wp := |p|);
      InputKeeps(w, g, g0);
      GotKeeps(w, g0, p);
      HandleOk(w, Log(g0, Got(p)), RxBootloader);
    }
  }

  lemma GotKeeps(w: World, g: G, p: seq<u8>)
    requires Inv(w, g) && 1 <= |p| == g.wp && p[0] == 0x81 && g.ascii[..|p|] == p && g.port.connected
    ensures Prepared(w, Log(g, Got(p)), RxBootloader)
  {
    GotDue(w, g.trace, p);
    hide Due, Phase, Justified, Balanced, Timing, Carried;
    LogKeeps(w, g, Got(p));
  }

  /** The receive buffers are no part of the invariant. */
  lemma InputKeeps(w: World, g: G, h: G)
    requires Inv(w, g) && h == g.(ascii := h.ascii, wp := h.wp, rx := h.rx)
    ensures Inv(w, h)
  {
    hide Phase, Justified, Balanced, Timing, Carried;
  }

  lemma {:induction false} PacketsOk(w: World, g: G, ps: seq<seq<u8>>)
    requires Good(w, g) && g.port.connected && forall p <- ps :: 1 <= |p|
    ensures var r := w.Packets(g, ps);
            Good(w, r) && Follows(g, r) && r.port.connected
  {
    hide Good, World.Packet;
    if ps != [] {
      PacketsOk(w, g, ps[..|ps| - 1]);
      var g1 := w.Packets(g, ps[..|ps| - 1]);
      if !g1.trapped { PacketOk(w, g1, ps[|ps| - 1]); }
    }
  }

  lemma ReceivedOk(w: World, g: G, data: seq<u8>)
    requires Good(w, g) && g.port.connected
    ensures var r := w.Received(g, data);
            Good(w, r) && r.port.connected && g.calls <= r.calls
  {
    hide Steady, World.Handle, Store, World.Packets, Framing.Run;
    var (a, wp, n) := Store(g.ascii, g.wp, data);
    var g0 := g.(ascii := a, wp := wp);
    InputKeeps(w, g, g0);
    HandleOk(w, g0, RxAscii);
    var g1 := w.ReceiveText(g, data);
    if !g1.trapped {
      var r := Framing.Run(HOST_BUFFER, g1.rx, data);
      BufferBounded(HOST_BUFFER, g1.rx, data);
      DeliveredSizes(HOST_BUFFER, g1.rx, data);
      var g2 := g1.(rx := r.rx);
      InputKeeps(w, g1, g2);
      PacketsOk(w, g2, r.packets);
    }
  }

  lemma CheckTimerOk(w: World, g: G)
    requires Good(w, g) && g.running && !g.trapped
    ensures Good(w, w.CheckTimer(g))
  {
    hide World.Handle, Phase, Justified, Balanced, Restarts, LastRestart, Deadline, Carried;
    if g.timer != 0 {
      var g1 := g.(calls := g.calls + 1);
      CallKeeps(w, g, false, false);
      if g.timer < w.now(g.calls) {
        HandleOk(w, g1.(timer := 0), Timeout);
      }
    }
  }

  lemma ServeOk(w: World, g: G, data: seq<u8>)
    requires Good(w, g)
    ensures Good(w, w.Serve(g, data))
  {
    hide Steady, World.Received, World.FlushPort;
    if data != [] && g.port.connected { ReceivedOk(w, g, data); }
    var g1 := if data != [] && g.port.connected then w.Received(g, data) else g;
    if !g1.trapped && g1.port.queue != [] { FlushOk(w, g1); }
  }

  lemma HangupOk(w: World, g: G)
    requires Good(w, g)
    ensures Good(w, w.Disconnect(g))
  {
    hide Phase, Justified, Balanced, Timing, World.Handle, Carried;
    ClosedCarried(g.port, g.trace, false);
    HandleOk(w, g.(port := Port(false, [], g.port.wire)), Disconnected);
  }

  lemma IterateOk(w: World, g: G, poll: Poll)
    requires Good(w, g)
    ensures Good(w, w.Iterate(g, poll))
  {
    hide World.CheckTimer, World.Serve, World.Disconnect;
    assert Good(w, ShutDown(g)) by { StoppedGood(w, g); }
    if g.running && !g.trapped && !poll.Failed? {
      var g1 := w.CheckTimer(g);
      CheckTimerOk(w, g);
      if !poll.Idle? && !g1.trapped {
        if g.port.connected && poll.hangup {
          HangupOk(w, g1);
        } else {
          ServeOk(w, g1, poll.data);
          StoppedGood(w, if g.port.connected then w.Serve(g1, poll.data) else g1);
        }
      }
    }
  }

  lemma StoppedGood(w: World, g: G)
    requires Good(w, g)
    ensures Good(w, ShutDown(g))
  {
    hide Phase, Justified, Balanced, Timing, Carried;
  }

  lemma BootOk(w: World)
    requires Monotone(w)
    ensures Good(w, w.Handle(w.Boot(), Started))
  {
    hide World.Handle;
    assert Prepared(w, w.Boot(), Started);
    HandleOk(w, w.Boot(), Started);
  }

  lemma {:induction false} LoopOk(w: World, polls: seq<Poll>)
    requires Monotone(w)
    ensures Good(w, w.Loop(polls))
  {
    hide World.Handle, World.Iterate, Good;
    if polls == [] {
      BootOk(w);
    } else {
      LoopOk(w, polls[..|polls| - 1]);
      IterateOk(w, w.Loop(polls[..|polls| - 1]), polls[|polls| - 1]);
    }
  }

  // ----- the theorems -----

  /**
   No silent stall: after every turn of the loop, whatever was received, however connecting and
   resetting turned out, either the program has been stopped or it waits with a timeout armed.
   */
  lemma NoSilentStall(w: World, polls: seq<Poll>)
    requires Monotone(w)
    ensures var g := w.Loop(polls);
            g.running && !g.trapped ==> g.timer != 0 && Resting(g)
  {
    LoopOk(w, polls);
  }

  lemma {:induction false} JustifiedAt(w: World, t: seq<Note>, k: nat)
    requires Justified(w, t) && k < |t|
    ensures Due(w, t[..k], t[k])
  {
    hide Due;
    if k < |t| - 1 {
      JustifiedAt(w, t[..|t| - 1], k);
      assert t[..|t| - 1][..k] == t[..k];
    }
  }

  /** Every note of every run was due when it was made. */
  lemma EveryNoteDue(w: World, polls: seq<Poll>)
    requires Monotone(w)
    ensures var t := w.Loop(polls).trace;
            forall k | 0 <= k < |t| :: Due(w, t[..k], t[k])
  {
    LoopOk(w, polls);
    hide Due, World.Loop;
    var t := w.Loop(polls).trace;
    forall k | 0 <= k < |t| ensures Due(w, t[..k], t[k]) { JustifiedAt(w, t, k); }
  }

  /**
   Nothing reaches the device but these messages: over every run, the bytes on the wire and in the ring
   are, in order, bytes of the messages noted.
   */
  lemma WireIsNoted(w: World, polls: seq<Poll>)
    requires Monotone(w)
    ensures var g := w.Loop(polls);
            Subseq(g.port.wire + g.port.queue, Messages(g.trace))
  {
    LoopOk(w, polls);
    hide World.Loop, Subseq, Messages;
    assert Carried(w.Loop(polls).port, w.Loop(polls).trace);
  }

  /** Restarts are few, and none comes once the fixed deadline has passed. */
  lemma RestartsBounded(w: World, polls: seq<Poll>)
    requires Monotone(w)
    ensures var t := w.Loop(polls).trace;
            Restarts(t) > 0 ==>
              LastRestart(t) < Deadline(w) && Restarts(t) <= (Deadline(w) - w.StartTime()) / 200 + 1
    ensures var g := w.Loop(polls);
            g.maxTime == Deadline(w) || (g.maxTime == 0 && (g.state.Init? || g.state.Void?))
  {
    LoopOk(w, polls);
  }

  lemma {:induction false} LastRestartSince(w: World, t: seq<Note>, i: nat)
    requires Justified(w, t) && i < |t| && t[i].Restart?
    ensures Restarts(t) > 0 && t[i].at <= LastRestart(t)
  {
    if i < |t| - 1 { LastRestartSince(w, t[..|t| - 1], i); }
  }

  /** Any two restarts are at least 200 ms apart, and each comes before the deadline. */
  lemma RestartsSpaced(w: World, polls: seq<Poll>)
    requires Monotone(w)
    ensures var t := w.Loop(polls).trace;
            forall j | 0 <= j < |t| && t[j].Restart? ::
              t[j].at < Deadline(w) && forall i | 0 <= i < j && t[i].Restart? :: t[i].at + 200 <= t[j].at
  {
    LoopOk(w, polls);
    hide World.Loop, Restarts, LastRestart, Deadline;
    var t := w.Loop(polls).trace;
    forall j | 0 <= j < |t| && t[j].Restart?
      ensures t[j].at < Deadline(w) && forall i | 0 <= i < j && t[i].Restart? :: t[i].at + 200 <= t[j].at
    {
      JustifiedAt(w, t, j);
      forall i | 0 <= i < j && t[i].Restart? ensures t[i].at + 200 <= t[j].at {
        JustifiedPrefix(w, t, j);
        LastRestartSince(w, t[..j], i);
      }
    }
  }

  lemma {:induction false} JustifiedPrefix(w: World, t: seq<Note>, k: nat)
    requires Justified(w, t) && k <= |t|
    ensures Justified(w, t[..k])
  {
    hide Due;
    if k == |t| {
      assert t[..k] == t;
    } else {
      JustifiedPrefix(w, t[..|t| - 1], k);
      assert t[..|t| - 1][..k] == t[..k];
    }
  }

  /**
   Protocol order: every V1 success report comes after the sync bytes, READY, the header, the page
   with the last byte of the image and #VALID CRC, in this order and since the command line was
   last processed; every V3 success report comes after the update request, its acceptance and a
   response up to the end of the image, unless the device asked for zero bytes.
   */
  lemma SuccessIsEarned(w: World, polls: seq<Poll>, k: nat)
    requires Monotone(w) && k < |w.Loop(polls).trace|
    ensures var t := w.Loop(polls).trace;
            (t[k].V1Done? ==> Subseq(V1Order(w), Since(t[..k]))) &&
            (t[k].V3Done? ==> V3Complete(w, Since(t[..k])))
  {
    LoopOk(w, polls);
    hide World.Loop, V1Order, V3Complete, Since, Subseq;
    JustifiedAt(w, w.Loop(polls).trace, k);
  }

  /** Waiting for the V3 verdict implies a complete upload in the same attempt. */
  lemma WaitingIsEarned(w: World, polls: seq<Poll>)
    requires Monotone(w)
    ensures var g := w.Loop(polls);
            g.state.V3WaitID? ==> V3Complete(w, Since(g.trace))
  {
    LoopOk(w, polls);
  }

  lemma {:induction false} ResetsInTurn(w: World, t: seq<Note>, k: nat)
    requires Justified(w, t) && k <= |t|
    ensures Left(t[..k]) <= Entered(t[..k]) <= Left(t[..k]) + 1
  {
    hide V1Order, V3Complete, Since, Subseq, Restarts, LastRestart, Deadline;
    if k > 0 {
      ResetsInTurn(w, t, k - 1);
      JustifiedAt(w, t, k - 1);
      assert t[..k] == t[..k - 1] + [t[k - 1]];
      Noted(t[..k - 1], t[k - 1]);
    }
  }

  /**
   At every moment of every run ST_Reset has been left by EV_RESET_SUCCESS as often as it was
   entered, or once less; after a turn, once less exactly in ST_Reset. So entries and
   EV_RESET_SUCCESS alternate: each entry is left by exactly one.
   */
  lemma ResetsBalanced(w: World, polls: seq<Poll>)
    requires Monotone(w)
    ensures var g := w.Loop(polls);
            Entered(g.trace) == Left(g.trace) + if g.state.Reset? then 1 else 0
    ensures var t := w.Loop(polls).trace;
            forall k | 0 <= k <= |t| :: Left(t[..k]) <= Entered(t[..k]) <= Left(t[..k]) + 1
  {
    LoopOk(w, polls);
    hide World.Loop;
    var t := w.Loop(polls).trace;
    forall k | 0 <= k <= |t| ensures Left(t[..k]) <= Entered(t[..k]) <= Left(t[..k]) + 1 {
      ResetsInTurn(w, t, k);
    }
  }

  /**
   Outside the search and the V1 states received text is not even stored. So EV_RX_ASCII is not raised in
   ST_BootloaderConnect, whose short cut is never taken.
   */
  lemma TextIgnored(w: World, g: G, data: seq<u8>)
    ensures g.state.BootloaderQuery? || g.state.V1Sync? || g.state.V1WriteHeader? || g.state.V1Upload? ||
            g.state.V1Validate? || w.ReceiveText(g, data) == g
  {
  }
}
