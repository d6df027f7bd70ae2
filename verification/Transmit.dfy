/**
 The transmit side of main_posix.c as a queue: what `PROT_Putc`, `PROT_Flush`, `PL_Connect` and
 `PL_Disconnect` do to the bytes waiting for the serial line.
 */
module Transmit {
  import opened Bytes
  import opened Framing
  import opened Subsequence

  const RING: nat := 2048
  const FLUSH_MAX: nat := 512

  /** One result of the system call `write`. */
  datatype WriteOutcome = Interrupted | Failed | Wrote(n: int)

  /** How many of `room` bytes the calls of one flush hand over; no further outcome reads as an error. */
  function Accepted(room: nat, outcomes: seq<WriteOutcome>): (n: nat)
    ensures n <= room
  {
    if room == 0 || outcomes == [] then 0
    else
      match outcomes[0]
      case Interrupted => Accepted(room, outcomes[1..])
      case Failed => 0
      case Wrote(n) => if 0 < n <= room then n + Accepted(room - n, outcomes[1..]) else 0
  }

  /** `queue` waits to be written, `wire` has been accepted by the descriptor. */
  datatype Port = Port(connected: bool, queue: seq<u8>, wire: seq<u8>)

  function Newest(q: seq<u8>): (r: seq<u8>)
    ensures |r| <= RING - 1
  {
    if |q| < RING then q else q[|q| - (RING - 1)..]
  }

  function Putc(p: Port, b: u8): Port {
    if p.connected then p.(queue := Newest(p.queue + [b])) else p
  }

  function PutAll(p: Port, bs: seq<u8>): Port {
    if bs == [] then p else Putc(PutAll(p, bs[..|bs| - 1]), bs[|bs| - 1])
  }

  function FlushAmount(p: Port, outcomes: seq<WriteOutcome>): (n: nat)
    ensures n <= |p.queue| && n <= FLUSH_MAX
  {
    Accepted(if |p.queue| < FLUSH_MAX then |p.queue| else FLUSH_MAX, outcomes)
  }

  function Flush(p: Port, outcomes: seq<WriteOutcome>): Port {
    if p.connected then
      var n := FlushAmount(p, outcomes);
      p.(queue := p.queue[n..], wire := p.wire + p.queue[..n])
    else p.(queue := [])
  }

  function SendFlagged(p: Port, data: seq<u8>, outcomes: seq<WriteOutcome>): Port {
    Flush(PutAll(p, Frame(data)), outcomes)
  }

  function Write(p: Port, data: seq<u8>, outcomes: seq<WriteOutcome>): Port {
    Flush(PutAll(p, data), outcomes)
  }

  /**
   An interrupted call is made again, a failed one ends the flush; a flush that is never failed goes on
   until all is written or nothing more is reported.
   */
  lemma {:induction false} OutcomesCount(room: nat, a: seq<WriteOutcome>, b: seq<WriteOutcome>)
    ensures Accepted(room, a + [Interrupted] + b) == Accepted(room, a + b)
    ensures Accepted(room, a + [Failed] + b) == Accepted(room, a)
    decreases |a|
  {
    if a == [] {
      assert a + [Interrupted] + b == [Interrupted] + b && a + [Failed] + b == [Failed] + b && a + b == b;
      assert ([Interrupted] + b)[1..] == b;
    } else {
      assert (a + [Interrupted] + b)[1..] == a[1..] + [Interrupted] + b;
      assert (a + [Failed] + b)[1..] == a[1..] + [Failed] + b && (a + b)[1..] == a[1..] + b;
      var rest := match a[0] case Wrote(n) => if 0 < n <= room then room - n else 0 case _ => room;
      OutcomesCount(rest, a[1..], b);
    }
  }

  /** Positive counts that fit add up. */
  lemma {:induction false} WrittenAddsUp(room: nat, n: int, rest: seq<WriteOutcome>)
    ensures Accepted(room, [Wrote(n)] + rest) == if 1 <= n <= room then n + Accepted(room - n, rest) else 0
  {
    assert ([Wrote(n)] + rest)[1..] == rest;
  }

  // ----- laws of the queue -----

  lemma {:induction false} PutAllConcat(p: Port, a: seq<u8>, b: seq<u8>)
    ensures PutAll(p, a + b) == PutAll(PutAll(p, a), b)
  {
    if b == [] {
      assert a + b == a;
    } else {
      PutAllConcat(p, a, b[..|b| - 1]);
      assert (a + b)[..|a + b| - 1] == a + b[..|b| - 1];
    }
  }

  /** Putting bytes neither opens nor closes the port, and a closed port takes none. */
  lemma {:induction false} PutAllLinks(p: Port, bs: seq<u8>)
    ensures PutAll(p, bs).connected == p.connected
    ensures !p.connected ==> PutAll(p, bs) == p
  {
    if bs != [] { PutAllLinks(p, bs[..|bs| - 1]); }
  }

  lemma NewestSnoc(q: seq<u8>, b: u8)
    ensures Newest(Newest(q) + [b]) == Newest(q + [b])
  {
  }

  /** A burst of puts leaves exactly the newest 2047 bytes, however long it is. */
  lemma {:induction false} PutAllKeepsNewest(p: Port, bs: seq<u8>)
    requires p.connected && |p.queue| < RING
    ensures PutAll(p, bs) == p.(queue := Newest(p.queue + bs))
    ensures
      var all := p.queue + bs;
      PutAll(p, bs) == p.(queue := all[if |all| <= 2047 then 0 else |all| - 2047..])
  {
    if bs == [] {
      assert p.queue + bs == p.queue;
    } else {
      var front, b := bs[..|bs| - 1], bs[|bs| - 1];
      PutAllKeepsNewest(p, front);
      NewestSnoc(p.queue + front, b);
      assert p.queue + bs == p.queue + front + [b];
    }
  }

  lemma {:induction false} StuffAtMostDoubles(s: seq<u8>)
    ensures |s| <= |Stuff(s)| <= 2 * |s|
  {
    if s != [] { StuffAtMostDoubles(s[1..]); }
  }

  /** The longest response of the flasher, 489 bytes, can never overrun an empty ring. */
  lemma FrameFitsRing(data: seq<u8>)
    ensures |Frame(data)| <= 2 * |data| + 6
    ensures |data| <= 489 ==> |Frame(data)| <= 984 < RING
  {
    StuffAtMostDoubles(data + Trailer(data));
  }

  // ----- whole runs -----

  datatype Op = Put(b: u8) | Flushing(outcomes: seq<WriteOutcome>)

  function Apply(p: Port, op: Op): Port {
    match op
    case Put(b) => Putc(p, b)
    case Flushing(outcomes) => Flush(p, outcomes)
  }

  function RunOps(p: Port, ops: seq<Op>): Port {
    if ops == [] then p else Apply(RunOps(p, ops[..|ops| - 1]), ops[|ops| - 1])
  }

  /** Everything put, in order. */
  function Puts(ops: seq<Op>): seq<u8> {
    if ops == [] then []
    else Puts(ops[..|ops| - 1]) + (if ops[|ops| - 1].Put? then [ops[|ops| - 1].b] else [])
  }

  /** How many puts met a full ring. */
  function Overruns(p: Port, ops: seq<Op>): nat {
    if ops == [] then 0
    else
      var front := ops[..|ops| - 1];
      Overruns(p, front) + if ops[|ops| - 1].Put? && |RunOps(p, front).queue| == RING - 1 then 1 else 0
  }

  /** Bytes on the wire, then bytes still queued. */
  function Stream(p: Port): seq<u8> { p.wire + p.queue }

  lemma OnePut(p: Port, b: u8, all: seq<u8>)
    requires p.connected && |p.queue| < RING && Subseq(Stream(p), all)
    ensures
      var q := Putc(p, b);
      q.connected && |q.queue| < RING && q.wire == p.wire && Subseq(Stream(q), all + [b]) &&
      |Stream(q)| == |Stream(p)| + if |p.queue| == RING - 1 then 0 else 1
  {
    var q := Putc(p, b);
    SubseqSnoc(Stream(p), all, b);
    assert Stream(p) + [b] == p.wire + (p.queue + [b]);
    if |p.queue| == RING - 1 {
      assert q.queue == (p.queue + [b])[1..] && p.queue + [b] == [p.queue[0]] + q.queue;
      SubseqDrop(p.wire, p.queue[0], q.queue);
      assert p.wire + [p.queue[0]] + q.queue == Stream(p) + [b];
      SubseqTransitive(Stream(q), Stream(p) + [b], all + [b]);
    }
  }

  lemma FlushKeepsStream(p: Port, outcomes: seq<WriteOutcome>)
    requires p.connected
    ensures Stream(Flush(p, outcomes)) == Stream(p)
  {
    var n := FlushAmount(p, outcomes);
    assert p.wire + p.queue[..n] + p.queue[n..] == p.wire + p.queue;
  }

  /** A flush hands over the oldest 512 bytes, or as many as there are; a closed port has nothing to flush. */
  lemma FlushTakes(p: Port, n: nat)
    requires n == if |p.queue| <= 512 then |p.queue| else 512
    ensures p.connected ==> Flush(p, [Wrote(n)]) == p.(queue := p.queue[n..], wire := p.wire + p.queue[..n])
    ensures !p.connected ==> Flush(p, [Wrote(n)]) == p.(queue := [])
  {
    WrittenAddsUp(n, n, []);
    assert [Wrote(n)] + [] == [Wrote(n)];
  }

  /** A burst only appends, and may push out what waits longest. */
  lemma {:induction false} PutAllConserves(p: Port, bs: seq<u8>)
    requires p.connected && |p.queue| < RING
    ensures var q := PutAll(p, bs);
            q.connected && |q.queue| < RING && Subseq(Stream(q), Stream(p) + bs)
  {
    hide Subseq, Putc;
    if bs == [] {
      assert Stream(p) + bs == Stream(p);
      SubseqReflexive(Stream(p));
    } else {
      var front, b := bs[..|bs| - 1], bs[|bs| - 1];
      PutAllConserves(p, front);
      OnePut(PutAll(p, front), b, Stream(p) + front);
      assert Stream(p) + front + [b] == Stream(p) + bs;
    }
  }

  /** `q` is the end of `all`. */
  predicate IsEnd(q: seq<u8>, all: seq<u8>) { |q| <= |all| && q == all[|all| - |q|..] }

  lemma PutKeepsEnd(p: Port, b: u8, all: seq<u8>)
    requires p.connected && |p.queue| < RING && IsEnd(p.queue, all)
    ensures var q := Putc(p, b);
            q.connected && |q.queue| < RING && IsEnd(q.queue, all + [b])
  {
    assert (all + [b])[|all| - |p.queue|..] == p.queue + [b];
  }

  /** The queue is always the end of everything put. */
  lemma {:induction false} QueueIsEnd(p: Port, ops: seq<Op>)
    requires p.connected && |p.queue| < RING
    ensures var q := RunOps(p, ops);
            q.connected && |q.queue| < RING && IsEnd(q.queue, Stream(p) + Puts(ops))
  {
    hide Putc, FlushAmount;
    if ops == [] {
      assert Stream(p) + [] == Stream(p);
    } else {
      var front, op := ops[..|ops| - 1], ops[|ops| - 1];
      QueueIsEnd(p, front);
      var all := Stream(p) + Puts(front);
      assert all + (if op.Put? then [op.b] else []) == Stream(p) + Puts(ops);
      if op.Put? { PutKeepsEnd(RunOps(p, front), op.b, all); }
    }
  }

  /**
   Conservation over every run of puts and flushes, under every pattern of partial writes: the
   ring holds at most 2047 bytes, always the last ones put, bytes only ever leave in the order they
   were put, the number
   lost is the number of puts that met a full ring, and nothing is lost exactly when there was
   no such put.
   */
  lemma {:induction false} RunConserves(p: Port, ops: seq<Op>)
    requires p.connected && |p.queue| < RING
    ensures
      var q := RunOps(p, ops);
      var all := Stream(p) + Puts(ops);
      q.connected && |q.queue| <= 2047 && p.wire <= q.wire &&
      |q.queue| <= |all| && q.queue == all[|all| - |q.queue|..] &&
      Subseq(Stream(q), all) && |Stream(q)| + Overruns(p, ops) == |all| &&
      (Stream(q) == all <==> Overruns(p, ops) == 0)
  {
    var all := Stream(p) + Puts(ops);
    QueueIsEnd(p, ops);
    hide Putc, Newest, FlushAmount, Subseq;
    if ops == [] {
      SubseqReflexive(Stream(p));
      assert all == Stream(p);
    } else {
      var front, op := ops[..|ops| - 1], ops[|ops| - 1];
      RunConserves(p, front);
      var before := RunOps(p, front);
      if op.Put? {
        OnePut(before, op.b, Stream(p) + Puts(front));
        assert all == Stream(p) + Puts(front) + [op.b];
      } else {
        FlushKeepsStream(before, op.outcomes);
        assert Puts(ops) == Puts(front);
      }
    }
    SubseqLength(Stream(RunOps(p, ops)), all);
  }
}
