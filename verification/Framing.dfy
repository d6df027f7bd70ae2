/**
 The packet framing of protocol.c: byte stuffing with the four codes of the PROTOCOL section of
 RFC 1055 and a two's-complement 16-bit sum in front of the closing END.

 `Frame` says what `PROT_SendFlagged` emits. `Step` is one turn of the loop in
 `PROT_ReceiveFlagged`, for a receive buffer of `cap` bytes: the host has 256, a device may
 have more.
 */
module Framing {
  import opened Bytes

  const END: u8 := 0xC0
  const ESC: u8 := 0xDB
  const T_END: u8 := 0xDC
  const T_ESC: u8 := 0xDD
  const HOST_BUFFER: nat := 256

  // ----- encoder -----

  function StuffByte(b: u8): seq<u8> {
    if b == ESC then [ESC, T_ESC] else if b == END then [ESC, T_END] else [b]
  }

  function Stuff(s: seq<u8>): seq<u8> {
    if s == [] then [] else StuffByte(s[0]) + Stuff(s[1..])
  }

  function Plus16(a: nat, b: nat): u16 { (a + b) % 0x1_0000 }

  function Sum16(s: seq<u8>): u16 {
    if s == [] then 0 else Plus16(Sum16(s[..|s| - 1]), s[|s| - 1])
  }

  function Checksum(s: seq<u8>): u16 { (0x1_0000 - Sum16(s) as int) % 0x1_0000 }

  function Trailer(s: seq<u8>): seq<u8> { Le16(Checksum(s)) }

  function Frame(s: seq<u8>): seq<u8> { [END] + Stuff(s + Trailer(s)) + [END] }

  function Frames(ps: seq<seq<u8>>): seq<u8> {
    if ps == [] then [] else Frames(ps[..|ps| - 1]) + Frame(ps[|ps| - 1])
  }

  // ----- receiver -----

  datatype Rx = Rx(buf: seq<u8>, escaped: bool)

  const CLEAN := Rx([], false)

  /** What a stretch of input did: the state after it, the packets delivered, the errors counted. */
  datatype Result = Result(rx: Rx, packets: seq<seq<u8>>, errors: nat)

  /** END on an unescaped buffer: deliver, count a checksum error, or ignore a short packet. */
  function Close(buf: seq<u8>): Result {
    var n := |buf| - 2;
    if n <= 0 then Result(CLEAN, [], 0)
    else if FromLe16(buf[n..]) == Checksum(buf[..n]) then Result(CLEAN, [buf[..n]], 0)
    else Result(CLEAN, [], 1)
  }

  function Append(cap: nat, buf: seq<u8>, c: u8): Rx {
    if |buf| < cap then Rx(buf + [c], false) else CLEAN
  }

  function Step(cap: nat, rx: Rx, c: u8): Result {
    if c == END then
      if rx.escaped then Result(CLEAN, [], 0) else Close(rx.buf)
    else if c == ESC then Result(Rx(rx.buf, true), [], 0)
    else if !rx.escaped then Result(Append(cap, rx.buf, c), [], 0)
    else if c == T_ESC then Result(Append(cap, rx.buf, ESC), [], 0)
    else if c == T_END then Result(Append(cap, rx.buf, END), [], 0)
    else Result(Append(cap, [], c), [], 0)
  }

  function Then(p: Result, q: Result): Result {
    Result(q.rx, p.packets + q.packets, p.errors + q.errors)
  }

  function Run(cap: nat, rx: Rx, s: seq<u8>): Result {
    if s == [] then Result(rx, [], 0)
    else
      var p := Run(cap, rx, s[..|s| - 1]);
      Then(p, Step(cap, p.rx, s[|s| - 1]))
  }

  /** Input in chunks, as `read` happens to return it. */
  function Feed(cap: nat, rx: Rx, chunks: seq<seq<u8>>): Result {
    if chunks == [] then Result(rx, [], 0)
    else
      var p := Feed(cap, rx, chunks[..|chunks| - 1]);
      Then(p, Run(cap, p.rx, chunks[|chunks| - 1]))
  }

  function Concat(chunks: seq<seq<u8>>): seq<u8> {
    if chunks == [] then [] else Concat(chunks[..|chunks| - 1]) + chunks[|chunks| - 1]
  }

  // ----- chunking does not matter -----

  lemma ThenLaws(p: Result, q: Result, r: Result)
    ensures Then(Then(p, q), r) == Then(p, Then(q, r))
    ensures q.packets == [] && q.errors == 0 ==> Then(p, q) == p.(rx := q.rx)
    ensures p.packets == [] && p.errors == 0 ==> Then(p, q) == q
  {
    assert p.packets + q.packets + r.packets == p.packets + (q.packets + r.packets);
  }

  lemma {:induction false} RunCompose(cap: nat, rx: Rx, a: seq<u8>, b: seq<u8>)
    ensures var p := Run(cap, rx, a);
            Run(cap, rx, a + b) == Then(p, Run(cap, p.rx, b))
  {
    var p := Run(cap, rx, a);
    if b == [] {
      assert a + b == a;
      ThenLaws(p, Run(cap, p.rx, b), p);
    } else {
      var front := b[..|b| - 1];
      var q := Run(cap, p.rx, front);
      RunCompose(cap, rx, a, front);
      assert (a + b)[..|a + b| - 1] == a + front;
      ThenLaws(p, q, Step(cap, q.rx, b[|b| - 1]));
    }
  }

  lemma {:induction false} ChunkingIrrelevant(cap: nat, rx: Rx, chunks: seq<seq<u8>>)
    ensures Feed(cap, rx, chunks) == Run(cap, rx, Concat(chunks))
  {
    if chunks != [] {
      var n := |chunks| - 1;
      ChunkingIrrelevant(cap, rx, chunks[..n]);
      RunCompose(cap, rx, Concat(chunks[..n]), chunks[n]);
    }
  }

  lemma {:induction false} BufferBounded(cap: nat, rx: Rx, s: seq<u8>)
    requires |rx.buf| <= cap
    ensures |Run(cap, rx, s).rx.buf| <= cap
  {
    if s != [] { BufferBounded(cap, rx, s[..|s| - 1]); }
  }

  /** One byte yields at most one delivery or one error, and an END always leaves a clean state. */
  lemma StepOutcome(cap: nat, rx: Rx, c: u8)
    ensures var r := Step(cap, rx, c);
            |r.packets| + r.errors <= 1 &&
            (c == END ==> r.rx == CLEAN) &&
            (c != END || rx == CLEAN ==> r.packets == [] && r.errors == 0)
  {
  }

  // ----- a grammar for what the receiver accepts -----

  /** One payload byte on the wire: itself, or a run of one or more ESC and a transposed code. */
  datatype Token = Plain(b: u8) | Escaped(repeats: nat, b: u8)
  {
    predicate Valid() {
      if Plain? then b != END && b != ESC else b == END || b == ESC
    }

    function Wire(): seq<u8> {
      if Plain? then [b] else seq(repeats + 1, _ => ESC) + [if b == END then T_END else T_ESC]
    }
  }

  ghost predicate AllValid(ts: seq<Token>) { forall t <- ts :: t.Valid() }

  function WireOf(ts: seq<Token>): seq<u8> {
    if ts == [] then [] else WireOf(ts[..|ts| - 1]) + ts[|ts| - 1].Wire()
  }

  function ValueOf(ts: seq<Token>): seq<u8> {
    if ts == [] then [] else ValueOf(ts[..|ts| - 1]) + [ts[|ts| - 1].b]
  }

  function Canonical(s: seq<u8>): seq<Token> {
    seq(|s|, i requires 0 <= i < |s| => if s[i] == END || s[i] == ESC then Escaped(0, s[i]) else Plain(s[i]))
  }

  function Escapes(k: nat): seq<u8> { seq(k, _ => ESC) }

  lemma {:induction false} EscapesAccumulate(cap: nat, rx: Rx, k: nat)
    ensures Run(cap, rx, Escapes(k)) == Result(Rx(rx.buf, rx.escaped || k > 0), [], 0)
  {
    if k > 0 {
      EscapesAccumulate(cap, rx, k - 1);
      assert Escapes(k)[..k - 1] == Escapes(k - 1);
    }
  }

  lemma TokenFillsBuffer(cap: nat, buf: seq<u8>, t: Token)
    requires t.Valid() && |buf| < cap
    ensures Run(cap, Rx(buf, false), t.Wire()) == Result(Rx(buf + [t.b], false), [], 0)
  {
    var rx := Rx(buf, false);
    if t.Plain? {
      RunOne(cap, rx, t.b);
    } else {
      var code := if t.b == END then T_END else T_ESC;
      EscapesAccumulate(cap, rx, t.repeats + 1);
      RunCompose(cap, rx, Escapes(t.repeats + 1), [code]);
      RunOne(cap, Rx(buf, true), code);
    }
  }

  lemma RunOne(cap: nat, rx: Rx, c: u8)
    ensures Run(cap, rx, [c]) == Step(cap, rx, c)
  {
    assert [c][..0] == [];
    assert Run(cap, rx, []) == Result(rx, [], 0);
  }

  lemma {:induction false} TokensFillBuffer(cap: nat, buf: seq<u8>, ts: seq<Token>)
    requires AllValid(ts) && |buf| + |ts| <= cap
    ensures |ValueOf(ts)| == |ts|
    ensures Run(cap, Rx(buf, false), WireOf(ts)) == Result(Rx(buf + ValueOf(ts), false), [], 0)
  {
    if ts == [] {
      assert buf + ValueOf(ts) == buf;
    } else {
      var front, t := ts[..|ts| - 1], ts[|ts| - 1];
      TokensFillBuffer(cap, buf, front);
      var mid := buf + ValueOf(front);
      RunCompose(cap, Rx(buf, false), WireOf(front), t.Wire());
      TokenFillsBuffer(cap, mid, t);
      assert buf + ValueOf(ts) == mid + [t.b];
    }
  }

  /** Bytes that are no framing codes are held as they are. */
  lemma {:induction false} PlainHeld(cap: nat, buf: seq<u8>, s: seq<u8>)
    requires END !in s && ESC !in s && |buf| + |s| <= cap
    ensures Run(cap, Rx(buf, false), s) == Result(Rx(buf + s, false), [], 0)
  {
    if s == [] {
      assert buf + s == buf;
    } else {
      var front, c := s[..|s| - 1], s[|s| - 1];
      PlainHeld(cap, buf, front);
      assert c in s && buf + s == buf + front + [c];
    }
  }

  lemma TrailerChecks(p: seq<u8>, x: seq<u8>)
    requires x == p + Trailer(p) && p != []
    ensures Close(x) == Result(CLEAN, [p], 0)
  {
    LeRoundTrip(Checksum(p));
    assert x[..|x| - 2] == p && x[|x| - 2..] == Trailer(p);
  }

  /** Completeness: any lenient encoding of a packet and its trailer is delivered at the next END. */
  lemma LenientRunDelivered(cap: nat, p: seq<u8>, ts: seq<Token>)
    requires AllValid(ts) && ValueOf(ts) == p + Trailer(p)
    requires 1 <= |p| && |ts| <= cap
    ensures Run(cap, CLEAN, WireOf(ts) + [END]) == Result(CLEAN, [p], 0)
  {
    TokensFillBuffer(cap, [], ts);
    RunCompose(cap, CLEAN, WireOf(ts), [END]);
    assert [] + ValueOf(ts) == ValueOf(ts);
    TrailerChecks(p, ValueOf(ts));
    RunOne(cap, Rx(ValueOf(ts), false), END);
  }

  lemma CanonicalByte(b: u8)
    ensures Canonical([b])[0].Valid() && Canonical([b])[0].b == b && Canonical([b])[0].Wire() == StuffByte(b)
  {
    assert Escapes(1) == [ESC];
  }

  lemma {:induction false} StuffIsCanonical(s: seq<u8>)
    ensures AllValid(Canonical(s)) && |Canonical(s)| == |s|
    ensures WireOf(Canonical(s)) == Stuff(s) && ValueOf(Canonical(s)) == s
  {
    if s != [] {
      var front, b := s[..|s| - 1], s[|s| - 1];
      var t := Canonical([b])[0];
      StuffIsCanonical(front);
      CanonicalByte(b);
      StuffSnoc(front, b);
      assert s == front + [b];
      assert Canonical(s) == Canonical(front) + [t];
      assert Canonical(s)[..|front|] == Canonical(front);
    }
  }

  lemma {:induction false} StuffSnoc(s: seq<u8>, b: u8)
    ensures Stuff(s + [b]) == Stuff(s) + StuffByte(b)
  {
    if s == [] {
      assert [b][1..] == [];
    } else {
      StuffSnoc(s[1..], b);
      assert (s + [b])[1..] == s[1..] + [b];
    }
  }

  lemma {:induction false} StuffConcat(a: seq<u8>, b: seq<u8>)
    ensures Stuff(a + b) == Stuff(a) + Stuff(b)
  {
    if a == [] {
      assert a + b == b;
    } else {
      StuffConcat(a[1..], b);
      assert (a + b)[1..] == a[1..] + b && (a + b)[0] == a[0];
      assert StuffByte(a[0]) + (Stuff(a[1..]) + Stuff(b)) == StuffByte(a[0]) + Stuff(a[1..]) + Stuff(b);
    }
  }

  lemma StuffFillsBuffer(cap: nat, x: seq<u8>)
    requires |x| <= cap
    ensures Run(cap, CLEAN, Stuff(x)) == Result(Rx(x, false), [], 0)
  {
    StuffIsCanonical(x);
    TokensFillBuffer(cap, [], Canonical(x));
    assert [] + x == x;
  }

  /** A stuffed buffer between two ENDs is judged as a whole. */
  lemma FramedBuffer(cap: nat, rx: Rx, x: seq<u8>)
    requires |x| <= cap
    ensures Run(cap, rx, [END] + Stuff(x) + [END]) == Then(Step(cap, rx, END), Close(x))
  {
    hide Stuff;
    hide Close;
    hide Run;
    var lead := Step(cap, rx, END);
    assert lead.rx == CLEAN by { StepOutcome(cap, rx, END); }
    assert Run(cap, rx, [END]) == lead by { RunOne(cap, rx, END); }
    StuffFillsBuffer(cap, x);
    var held := Result(Rx(x, false), [], 0);
    assert Run(cap, rx, [END] + Stuff(x)) == Then(lead, held) by { RunCompose(cap, rx, [END], Stuff(x)); }
    assert Run(cap, held.rx, [END]) == Close(x) by { RunOne(cap, held.rx, END); }
    RunCompose(cap, rx, [END] + Stuff(x), [END]);
    ThenLaws(lead, held, Close(x));
  }

  /** The host takes payloads of up to 254 bytes. */
  lemma HostTakesIff(payload: seq<u8>)
    ensures Run(HOST_BUFFER, CLEAN, Frame(payload)).packets == [payload] <==> 1 <= |payload| <= 254
  {
    RoundTripIffFits(HOST_BUFFER, payload);
    hide Run, Frame;
  }

  // ----- what a frame looks like -----

  /** C0 in the payload becomes DB DC, DB becomes DB DD, other bytes stay. */
  lemma StuffingIs(a: seq<u8>, c: u8, b: seq<u8>)
    ensures Stuff(a + [c] + b)
         == Stuff(a) + (if c == 0xC0 then [0xDB, 0xDC] else if c == 0xDB then [0xDB, 0xDD] else [c]) + Stuff(b)
  {
    StuffSnoc(a, c);
    StuffConcat(a + [c], b);
  }

  function Total(s: seq<u8>): nat {
    if s == [] then 0 else Total(s[..|s| - 1]) + s[|s| - 1]
  }

  lemma {:induction false} SumIsTotal(s: seq<u8>)
    ensures Sum16(s) == Total(s) % 0x1_0000
  {
    if s != [] { SumIsTotal(s[..|s| - 1]); }
  }

  lemma {:induction false} NoEndStuffed(s: seq<u8>)
    ensures 0xC0 !in Stuff(s)
  {
    if s != [] { NoEndStuffed(s[1..]); }
  }

  lemma SumFits(s: seq<u8>, lo: u8, hi: u8)
    ensures lo as int + 0x100 * hi as int == Checksum(s) <==>
            (Total(s) + lo as int + 0x100 * hi as int) % 0x1_0000 == 0
  {
    SumIsTotal(s);
    hide Total, Sum16;
  }

  lemma TrailerWord(p: seq<u8>)
    ensures var t := Trailer(p);
            |t| == 2 && t[0] as int + 0x100 * t[1] as int == Checksum(p)
  {
    hide Checksum;
  }

  /**
   A frame is closed in by C0, which does not occur inside; the two bytes behind the payload, low byte
   first, bring its sum to a multiple of 65536.
   */
  lemma FrameShape(p: seq<u8>)
    ensures
      var f, n := Frame(p), |Frame(p)|;
      n >= 2 && f[0] == 0xC0 && f[n - 1] == 0xC0 && 0xC0 !in f[1..n - 1] &&
      f[1..n - 1] == Stuff(p + Trailer(p)) && |Trailer(p)| == 2 &&
      (Total(p) + Trailer(p)[0] as int + 0x100 * Trailer(p)[1] as int) % 0x1_0000 == 0
  {
    NoEndStuffed(p + Trailer(p));
    TrailerWord(p);
    SumFits(p, Trailer(p)[0], Trailer(p)[1]);
    hide Stuff, Total, Trailer, Checksum;
    var f, s := Frame(p), Stuff(p + Trailer(p));
    assert f[1..|f| - 1] == s;
  }

  // ----- round trip and self-synchronisation -----

  lemma FrameFromAnyState(cap: nat, rx: Rx, p: seq<u8>)
    requires 1 <= |p| <= cap - 2
    ensures
      var lead := Step(cap, rx, END);
      Run(cap, rx, Frame(p)) == Result(CLEAN, lead.packets + [p], lead.errors)
  {
    hide Stuff;
    hide Run;
    hide Step;
    FramedBuffer(cap, rx, p + Trailer(p));
    TrailerChecks(p, p + Trailer(p));
  }

  ghost predicate AllFit(cap: nat, ps: seq<seq<u8>>) { forall p <- ps :: 1 <= |p| <= cap - 2 }

  /**
   Whatever state earlier input left, the frames of `ps`, in any chunking, deliver exactly `ps`
   after at most one leftover delivery or error, and leave a clean state.
   */
  lemma {:induction false} SelfSynchronising(cap: nat, rx: Rx, ps: seq<seq<u8>>, chunks: seq<seq<u8>>)
    requires ps != [] && AllFit(cap, ps) && Concat(chunks) == Frames(ps)
    ensures
      var lead := Step(cap, rx, END);
      Feed(cap, rx, chunks) == Result(CLEAN, lead.packets + ps, lead.errors) &&
      |lead.packets| + lead.errors <= 1 && (rx == CLEAN ==> lead.packets == [] && lead.errors == 0)
  {
    ChunkingIrrelevant(cap, rx, chunks);
    StepOutcome(cap, rx, END);
    FramesDelivered(cap, rx, ps);
  }

  lemma {:induction false} FramesDelivered(cap: nat, rx: Rx, ps: seq<seq<u8>>)
    requires ps != [] && AllFit(cap, ps)
    ensures
      var lead := Step(cap, rx, END);
      Run(cap, rx, Frames(ps)) == Result(CLEAN, lead.packets + ps, lead.errors)
  {
    hide Frame;
    hide Run;
    hide Step;
    var front, p := ps[..|ps| - 1], ps[|ps| - 1];
    var lead := Step(cap, rx, END);
    assert ps == front + [p];
    RunCompose(cap, rx, Frames(front), Frame(p));
    if front == [] {
      assert Frames(front) + Frame(p) == Frame(p);
      FrameFromAnyState(cap, rx, p);
    } else {
      FramesDelivered(cap, rx, front);
      FrameFromClean(cap, p);
      assert lead.packets + front + [p] == lead.packets + ps;
    }
  }

  lemma FrameFromClean(cap: nat, p: seq<u8>)
    requires 1 <= |p| <= cap - 2
    ensures Run(cap, CLEAN, Frame(p)) == Result(CLEAN, [p], 0)
  {
    FrameFromAnyState(cap, CLEAN, p);
    assert [] + [p] == [p];
  }

  /** The payload sizes that survive the trip are exactly 1 up to two less than the buffer. */
  lemma RoundTripIffFits(cap: nat, p: seq<u8>)
    ensures Run(cap, CLEAN, Frame(p)).packets == [p] <==> 1 <= |p| <= cap - 2
  {
    if 1 <= |p| <= cap - 2 {
      FrameFromClean(cap, p);
    } else {
      DeliveredSizes(cap, CLEAN, Frame(p));
      assert p !in Run(cap, CLEAN, Frame(p)).packets && p in [p];
    }
  }

  lemma {:induction false} DeliveredSizes(cap: nat, rx: Rx, s: seq<u8>)
    requires |rx.buf| <= cap
    ensures forall p <- Run(cap, rx, s).packets :: 1 <= |p| <= cap - 2
  {
    if s != [] {
      DeliveredSizes(cap, rx, s[..|s| - 1]);
      BufferBounded(cap, rx, s[..|s| - 1]);
    }
  }

  lemma ClosedBy(buf: seq<u8>, n: nat)
    requires n > 0 && |buf| == n + 2
    ensures Close(buf) ==
            if buf[n] as int + 0x100 * buf[n + 1] as int == Checksum(buf[..n]) then Result(CLEAN, [buf[..n]], 0)
            else Result(CLEAN, [], 1)
  {
    hide Checksum;
    assert buf[n..] == [buf[n], buf[n + 1]];
  }

  /**
   A closing C0 delivers what is held but for its last two bytes, if these bring the sum to a multiple of
   65536; it counts an error if they do not. Less than three bytes, and a DB in front, make it do neither.
   */
  lemma ClosingIs(cap: nat, buf: seq<u8>, escaped: bool)
    ensures
      var r, n := Run(cap, Rx(buf, escaped), [0xC0]), |buf| - 2;
      r.rx.buf == [] && !r.rx.escaped &&
      if escaped || n <= 0 then r.packets == [] && r.errors == 0
      else if (Total(buf[..n]) + buf[n] as int + 0x100 * buf[n + 1] as int) % 0x1_0000 == 0 then
        r.packets == [buf[..n]] && r.errors == 0
      else r.packets == [] && r.errors == 1
  {
    var n := |buf| - 2;
    assert Run(cap, Rx(buf, escaped), [0xC0]) == Step(cap, Rx(buf, escaped), 0xC0) by {
      assert [0xC0][..0] == [];
      hide Step;
    }
    hide Run, Total, Checksum;
    if !escaped && n > 0 {
      ClosedBy(buf, n);
      SumFits(buf[..n], buf[n], buf[n + 1]);
      hide Close;
    }
  }
}
