/** Turns of the main loop in which the device is polled, no timeout is due and nothing ends. */
module MainLoop {
  import opened Bytes
  import opened Flasher
  import opened Transmit

  /**
   A turn that finds nothing for 5 ms, or bytes of the device (none, if only the keyboard was used):
   no error, no hangup and no end of the standard input.
   */
  predicate Quiet(poll: Poll) { poll.Idle? || (poll.Polled? && !poll.hangup && !poll.eof) }

  function DataOf(poll: Poll): seq<u8> { if poll.Polled? then poll.data else [] }

  /** All bytes read in these turns. */
  function Inputs(polls: seq<Poll>): seq<u8> {
    if polls == [] then [] else Inputs(polls[..|polls| - 1]) + DataOf(polls[|polls| - 1])
  }

  function Turns(w: World, g: G, polls: seq<Poll>): G {
    if polls == [] then g else w.Iterate(Turns(w, g, polls[..|polls| - 1]), polls[|polls| - 1])
  }

  /** Only quiet turns, and no timeout fires during them. */
  predicate Prompt(w: World, g: G, polls: seq<Poll>) {
    polls == [] ||
    (var front := polls[..|polls| - 1];
     Prompt(w, g, front) && Quiet(polls[|polls| - 1]) && InTime(w, Turns(w, g, front)))
  }

  predicate InTime(w: World, g: G) { w.now(g.calls) <= g.timer }

  lemma {:induction false} TurnsCompose(w: World, g: G, a: seq<Poll>, b: seq<Poll>)
    ensures Turns(w, g, a + b) == Turns(w, Turns(w, g, a), b)
  {
    hide World.Iterate;
    if b == [] {
      assert a + b == a;
    } else {
      TurnsCompose(w, g, a, b[..|b| - 1]);
      assert (a + b)[..|a + b| - 1] == a + b[..|b| - 1];
    }
  }

  lemma {:induction false} LoopContinues(w: World, a: seq<Poll>, b: seq<Poll>)
    ensures w.Loop(a + b) == Turns(w, w.Loop(a), b)
  {
    hide World.Iterate, World.Handle;
    if b == [] {
      assert a + b == a;
    } else {
      LoopContinues(w, a, b[..|b| - 1]);
      assert (a + b)[..|a + b| - 1] == a + b[..|b| - 1];
    }
  }

  /** An idle turn only reads the clock: what waits in the ring stays there. */
  lemma IdleTurn(w: World, g: G)
    requires g.running && !g.trapped && g.timer != 0 && InTime(w, g)
    ensures w.Iterate(g, Idle) == g.(calls := g.calls + 1)
  {
    hide World.Handle;
  }

  /** A timeout that is due is handled first, and is off the timer by then. */
  lemma TimeoutTurn(w: World, g: G)
    requires g.running && !g.trapped && 0 < g.timer < w.now(g.calls)
    ensures w.Iterate(g, Idle) == w.Handle(g.(calls := g.calls + 1, timer := 0), Timeout)
  {
    hide World.Handle;
  }

  /** Then comes what `poll` reported about the device, if it was open when `poll` was called. */
  lemma DeviceServed(w: World, g: G, data: seq<u8>)
    requires g.running && !g.trapped && !w.Iterate(g, Idle).trapped
    ensures
      var h := w.Iterate(g, Idle);
      w.Iterate(g, Polled(false, data, false)) == if g.port.connected then w.Serve(h, data) else h
  {
    hide World.Handle, World.Serve;
  }

  /** A device that hangs up is closed; what it may have sent is not read, nor is the standard input. */
  lemma HangupTurn(w: World, g: G, data: seq<u8>, eof: bool)
    requires g.running && !g.trapped && !w.Iterate(g, Idle).trapped && g.port.connected
    ensures
      var h := w.Iterate(g, Idle);
      w.Iterate(g, Polled(true, data, eof)) == w.Handle(h.(port := Port(false, [], h.port.wire)), Disconnected)
  {
    hide World.Handle, World.Serve;
  }

  /** An error of `poll` ends the program at once, the end of the standard input after everything else. */
  lemma LastTurn(w: World, g: G, data: seq<u8>)
    requires g.running && !g.trapped
    ensures w.Iterate(g, Poll.Failed) == g.(running := false)
    ensures
      !w.Iterate(g, Idle).trapped ==>
        w.Iterate(g, Polled(false, data, true)) == w.Iterate(g, Polled(false, data, false)).(running := false)
  {
    hide World.Handle, World.Serve;
  }

  lemma PolledTurn(w: World, g: G, data: seq<u8>)
    requires g.running && !g.trapped && g.timer != 0 && InTime(w, g) && g.port.connected
    ensures w.Iterate(g, Polled(false, data, false)) == w.Serve(g.(calls := g.calls + 1), data)
  {
    hide World.Serve, World.Handle;
  }
}
