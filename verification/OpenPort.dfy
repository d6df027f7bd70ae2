/** Sending and flushing on an open port: the port, the use of the environment and the trace change only. */
module OpenPort {
  import opened Bytes
  import opened Flasher
  import opened Framing
  import opened Trace
  import opened Transmit

  lemma FlushLinks(p: Port, outcomes: seq<WriteOutcome>)
    ensures Transmit.Flush(p, outcomes).connected == p.connected
  {
  }

  lemma Written(w: World, g: G, bytes: seq<u8>)
    requires g.port.connected
    ensures var r := w.Write(g, bytes);
            r == g.(port := r.port, calls := g.calls + 1, trace := g.trace + [Sent(bytes)]) && r.port.connected &&
            r.port == Transmit.Write(g.port, bytes, w.writes(g.calls))
  {
    hide Transmit.Flush;
    PutAllLinks(g.port, bytes);
    FlushLinks(PutAll(g.port, bytes), w.writes(g.calls));
  }

  lemma SentFlagged(w: World, g: G, bytes: seq<u8>)
    requires g.port.connected
    ensures var r := w.SendFlagged(g, bytes);
            r == g.(port := r.port, calls := g.calls + 1, trace := g.trace + [Framed(bytes)]) && r.port.connected &&
            r.port == SendFlagged(g.port, bytes, w.writes(g.calls))
  {
    hide Frame, Transmit.Flush;
    PutAllLinks(g.port, Frame(bytes));
    FlushLinks(PutAll(g.port, Frame(bytes)), w.writes(g.calls));
  }

  /** A flush moves bytes from the queue to the wire and changes nothing else. */
  lemma Flushed(w: World, g: G)
    requires g.port.connected && |g.port.queue| < RING
    ensures var r := w.Serve(g, []);
            r == g.(port := r.port, calls := r.calls) && r.calls >= g.calls &&
            r.port.connected && |r.port.queue| < RING && Stream(r.port) == Stream(g.port) &&
            (g.port.queue == [] ==> r.port == g.port)
  {
    hide FlushAmount;
    FlushKeepsStream(g.port, w.writes(g.calls));
  }

  /** A turn that reads something handles it first and flushes then. */
  lemma ServeSplits(w: World, g: G, data: seq<u8>)
    requires g.port.connected && data != [] && !w.Received(g, data).trapped
    ensures w.Serve(g, data) == w.Serve(w.Received(g, data), [])
  {
    hide World.Received, World.FlushPort;
  }
}
