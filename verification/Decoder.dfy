/**
 What the receiver of protocol.c may deliver from arbitrary bytes, and what a damaged byte does.
 */
module Decoder {
  import opened Bytes
  import opened Framing

  // ----- every delivery is somewhere in the stream -----

  /** The bytes `s[from..to]`, closed by the END at `s[to]`. */
  datatype Span = Span(from: nat, to: nat)

  /** `s[from..to]` is an END-free run that leniently encodes `p` and its checksum. */
  ghost predicate Encodes(cap: nat, s: seq<u8>, at: Span, p: seq<u8>) {
    at.from <= at.to < |s| && s[at.to] == END && END !in s[at.from..at.to] &&
    1 <= |p| <= cap - 2 &&
    exists ts ::
      AllValid(ts) && WireOf(ts) == s[at.from..at.to] && ValueOf(ts) == p + Trailer(p)
  }

  /** One span per packet, in stream order and pairwise disjoint, all of them before `limit`. */
  ghost predicate Located(cap: nat, s: seq<u8>, spans: seq<Span>, packets: seq<seq<u8>>, limit: nat) {
    |spans| == |packets| &&
    (forall i | 0 <= i < |spans| :: Encodes(cap, s, spans[i], packets[i]) && spans[i].to < limit) &&
    forall i, j | 0 <= i < j < |spans| :: spans[i].to < spans[j].from
  }

  /** The receiver holds the decoding of `s[from..]`: tokens `ts`, then `k` pending ESC bytes. */
  ghost predicate Holds(s: seq<u8>, rx: Rx, from: nat, ts: seq<Token>, k: nat) {
    from <= |s| && AllValid(ts) &&
    s[from..] == WireOf(ts) + Escapes(k) && END !in s[from..] &&
    rx == Rx(ValueOf(ts), k > 0)
  }

  lemma EncodesExtends(cap: nat, s: seq<u8>, c: u8, at: Span, p: seq<u8>)
    requires Encodes(cap, s, at, p)
    ensures Encodes(cap, s + [c], at, p)
  {
    assert (s + [c])[at.from..at.to] == s[at.from..at.to];
  }

  lemma LocatedExtends(cap: nat, s: seq<u8>, c: u8, spans: seq<Span>, packets: seq<seq<u8>>, limit: nat, wider: nat)
    requires Located(cap, s, spans, packets, limit) && limit <= wider
    ensures Located(cap, s + [c], spans, packets, wider)
  {
    forall i | 0 <= i < |spans| ensures Encodes(cap, s + [c], spans[i], packets[i]) {
      EncodesExtends(cap, s, c, spans[i], packets[i]);
    }
  }

  lemma CloseSplits(x: seq<u8>)
    ensures Close(x).packets == [] ||
            exists p :: Close(x).packets == [p] && 1 <= |p| == |x| - 2 && x == p + Trailer(p)
  {
    if Close(x).packets != [] {
      var p, t := x[..|x| - 2], x[|x| - 2..];
      LeBytesRoundTrip(t);
      assert x == p + t && Close(x).packets == [p] && 1 <= |p|;
    }
  }

  lemma HeldTokenAppended(s: seq<u8>, c: u8, rx: Rx, from: nat, ts: seq<Token>, k: nat, t: Token)
    requires Holds(s, rx, from, ts, k) && t.Valid() && c != END
    requires Escapes(k) + [c] == t.Wire()
    ensures Holds(s + [c], Rx(rx.buf + [t.b], false), from, ts + [t], 0)
  {
    var ts' := ts + [t];
    assert ts'[..|ts'| - 1] == ts;
    assert (s + [c])[from..] == s[from..] + [c];
    assert WireOf(ts) + (Escapes(k) + [c]) == WireOf(ts) + Escapes(k) + [c];
  }

  lemma NothingHeld(s: seq<u8>)
    ensures Holds(s, CLEAN, |s|, [], 0)
  {
    assert s[|s|..] == [];
  }

  /** The state a byte other than END leads to decodes a (possibly restarted) END-free tail. */
  lemma StepHolds(cap: nat, s: seq<u8>, c: u8, rx: Rx, from: nat, ts: seq<Token>, k: nat)
    returns (from': nat, ts': seq<Token>, k': nat)
    requires Holds(s, rx, from, ts, k) && c != END
    ensures from <= from' && Holds(s + [c], Step(cap, rx, c).rx, from', ts', k')
    ensures cap > 0 ==>
              from' == from || (from' == |s| && rx.escaped && !IsCode(c)) ||
              (from' == |s| + 1 && |rx.buf| >= cap && c != ESC && (rx.escaped ==> IsCode(c)))
  {
    hide WireOf, ValueOf;
    var s' := s + [c];
    if c == ESC {
      from', ts', k' := from, ts, k + 1;
      assert s'[from..] == s[from..] + [c];
      assert WireOf(ts) + Escapes(k + 1) == WireOf(ts) + Escapes(k) + [ESC];
    } else if !rx.escaped && |rx.buf| < cap {
      from', ts', k' := from, ts + [Plain(c)], 0;
      assert Escapes(0) + [c] == Plain(c).Wire();
      HeldTokenAppended(s, c, rx, from, ts, k, Plain(c));
    } else if rx.escaped && (c == T_ESC || c == T_END) && |rx.buf| < cap {
      var t := Escaped(k - 1, if c == T_END then END else ESC);
      from', ts', k' := from, ts + [t], 0;
      assert Escapes(k) + [c] == t.Wire();
      HeldTokenAppended(s, c, rx, from, ts, k, t);
    } else if rx.escaped && c != T_ESC && c != T_END && 0 < cap {
      NothingHeld(s);
      assert Escapes(0) + [c] == Plain(c).Wire();
      from', ts', k' := |s|, [Plain(c)], 0;
      HeldTokenAppended(s, c, CLEAN, |s|, [], 0, Plain(c));
      assert [] + [Plain(c)] == [Plain(c)] && CLEAN.buf + [c] == [c];
    } else {
      from', ts', k' := |s'|, [], 0;
      NothingHeld(s');
    }
  }

  /**
   Soundness on arbitrary bytes: every packet delivered from a clean start is the decoding of an
   END-free run of the stream together with a checksum that matches, and different packets come
   from different runs, in order.
   */
  lemma {:induction false} DeliveriesLocated(cap: nat, s: seq<u8>)
    returns (spans: seq<Span>, from: nat, ts: seq<Token>, k: nat)
    ensures Located(cap, s, spans, Run(cap, CLEAN, s).packets, from)
    ensures Holds(s, Run(cap, CLEAN, s).rx, from, ts, k)
  {
    if s == [] {
      spans, from, ts, k := [], 0, [], 0;
      NothingHeld(s);
    } else {
      var front, c := s[..|s| - 1], s[|s| - 1];
      assert s == front + [c];
      spans, from, ts, k := DeliveriesLocated(cap, front);
      var before := Run(cap, CLEAN, front);
      BufferBounded(cap, CLEAN, front);
      if c != END {
        var from';
        from', ts, k := StepHolds(cap, front, c, before.rx, from, ts, k);
        LocatedExtends(cap, front, c, spans, before.packets, from, from');
        from := from';
        assert before.packets + [] == before.packets;
      } else {
        spans := CloseLocated(cap, front, before, spans, from, ts, k);
        from, ts, k := |s|, [], 0;
        NothingHeld(s);
      }
    }
  }

  lemma CloseLocated(cap: nat, front: seq<u8>, before: Result, spans: seq<Span>, from: nat, ts: seq<Token>, k: nat)
    returns (spans': seq<Span>)
    requires Located(cap, front, spans, before.packets, from)
    requires Holds(front, before.rx, from, ts, k) && |before.rx.buf| <= cap
    ensures Located(cap, front + [END], spans', before.packets + Step(cap, before.rx, END).packets, |front| + 1)
  {
    hide Run, WireOf, ValueOf, Close, Checksum;
    var s, step := front + [END], Step(cap, before.rx, END);
    LocatedExtends(cap, front, END, spans, before.packets, from, |s|);
    if step.packets == [] {
      spans' := spans;
      assert before.packets + [] == before.packets;
    } else {
      CloseSplits(before.rx.buf);
      var p := step.packets[0];
      var here := Span(from, |front|);
      assert s[from..|front|] == front[from..] == WireOf(ts) by { assert Escapes(0) == []; }
      assert Encodes(cap, s, here, p);
      spans' := spans + [here];
    }
  }

  // ----- exactly which END-free runs deliver -----

  predicate IsCode(c: u8) { c == END || c == ESC || c == T_END || c == T_ESC }

  /**
   `u[from..to]` leaves nothing behind: it is one token more than the buffer holds, or (`k > 0`) tokens
   and then ESC in front of a byte that is no code.
   */
  ghost predicate Dropped(cap: nat, u: seq<u8>, from: nat, to: nat, ts: seq<Token>, k: nat) {
    from < to <= |u| && AllValid(ts) && u[from..to] == WireOf(ts) + Escapes(k) &&
    if k == 0 then |ts| == cap + 1 else |ts| <= cap && to < |u| && !IsCode(u[to])
  }

  /** The receiver starts over at `at`: `u[..at]` is a series of such pieces. */
  ghost predicate StartsOver(cap: nat, u: seq<u8>, at: nat) {
    at == 0 || exists from, ts, k :: Dropped(cap, u, from, at, ts, k) && StartsOver(cap, u, from)
  }

  /** From `from` on, `u` leniently encodes `p` and its checksum, in tokens that fit the buffer. */
  ghost predicate Encoded(cap: nat, u: seq<u8>, from: nat, ts: seq<Token>, p: seq<u8>) {
    from <= |u| && StartsOver(cap, u, from) && AllValid(ts) && |ts| <= cap &&
    WireOf(ts) == u[from..] && ValueOf(ts) == p + Trailer(p) && 1 <= |p|
  }

  lemma {:induction false} QuietWithoutEnd(cap: nat, rx: Rx, u: seq<u8>)
    requires END !in u
    ensures Run(cap, rx, u).packets == [] && Run(cap, rx, u).errors == 0
  {
    if u != [] {
      QuietWithoutEnd(cap, rx, u[..|u| - 1]);
      StepOutcome(cap, Run(cap, rx, u[..|u| - 1]).rx, u[|u| - 1]);
      assert u[|u| - 1] in u;
    }
  }

  /** A byte that is no code does the same behind ESC as in an empty buffer. */
  lemma DroppedIsClean(cap: nat, rx: Rx, c: u8, rest: seq<u8>)
    requires rx.escaped && !IsCode(c)
    ensures Run(cap, rx, [c] + rest).rx == Run(cap, CLEAN, [c] + rest).rx
  {
    hide Run;
    RunOne(cap, rx, c);
    RunOne(cap, CLEAN, c);
    RunCompose(cap, rx, [c], rest);
    RunCompose(cap, CLEAN, [c], rest);
  }

  /** A full buffer and one more token: all of it is gone. */
  lemma TokenOverflows(cap: nat, buf: seq<u8>, t: Token)
    requires t.Valid() && |buf| == cap
    ensures Run(cap, Rx(buf, false), t.Wire()).rx == CLEAN
  {
    var rx := Rx(buf, false);
    if t.Plain? {
      RunOne(cap, rx, t.b);
    } else {
      var code := if t.b == END then T_END else T_ESC;
      EscapesAccumulate(cap, rx, t.repeats + 1);
      RunCompose(cap, rx, Escapes(t.repeats + 1), [code]);
      RunOne(cap, Rx(buf, true), code);
    }
  }

  lemma TokensOverflow(cap: nat, ts: seq<Token>)
    requires AllValid(ts) && |ts| == cap + 1
    ensures Run(cap, CLEAN, WireOf(ts)).rx == CLEAN
  {
    var front, t := ts[..cap], ts[cap];
    assert WireOf(ts) == WireOf(front) + t.Wire();
    hide Run, WireOf, Token.Wire;
    TokensFillBuffer(cap, [], front);
    RunCompose(cap, CLEAN, WireOf(front), t.Wire());
    TokenOverflows(cap, [] + ValueOf(front), t);
  }

  lemma DroppedLeavesNothing(cap: nat, u: seq<u8>, from: nat, to: nat, ts: seq<Token>, k: nat)
    requires Dropped(cap, u, from, to, ts, k)
    ensures Run(cap, CLEAN, u[from..]).rx == Run(cap, CLEAN, u[to..]).rx
  {
    hide Run, WireOf, ValueOf, Step;
    assert u[from..] == u[from..to] + u[to..];
    RunCompose(cap, CLEAN, u[from..to], u[to..]);
    if k == 0 {
      assert WireOf(ts) + Escapes(0) == WireOf(ts);
      TokensOverflow(cap, ts);
    } else {
      TokensFillBuffer(cap, [], ts);
      var rx := Rx([] + ValueOf(ts), false);
      RunCompose(cap, CLEAN, WireOf(ts), Escapes(k));
      EscapesAccumulate(cap, rx, k);
      assert u[to..] == [u[to]] + u[to + 1..];
      DroppedIsClean(cap, Rx(rx.buf, true), u[to], u[to + 1..]);
    }
  }

  lemma {:induction false} StartedOver(cap: nat, u: seq<u8>, at: nat)
    requires at <= |u| && StartsOver(cap, u, at)
    ensures Run(cap, CLEAN, u).rx == Run(cap, CLEAN, u[at..]).rx
  {
    hide Run, WireOf, Escapes;
    if at == 0 {
      assert u[0..] == u;
    } else {
      var from: nat, ts, k: nat :| Dropped(cap, u, from, at, ts, k) && StartsOver(cap, u, from);
      StartedOver(cap, u, from);
      DroppedLeavesNothing(cap, u, from, at, ts, k);
    }
  }

  lemma {:induction false} StartsOverExtends(cap: nat, u: seq<u8>, c: u8, at: nat)
    requires at <= |u| && StartsOver(cap, u, at)
    ensures StartsOver(cap, u + [c], at)
  {
    hide WireOf, Escapes;
    if at > 0 {
      var from: nat, ts, k: nat :| Dropped(cap, u, from, at, ts, k) && StartsOver(cap, u, from);
      StartsOverExtends(cap, u, c, from);
      assert (u + [c])[from..at] == u[from..at];
      assert Dropped(cap, u + [c], from, at, ts, k);
    }
  }

  lemma {:induction false} HeldSince(cap: nat, u: seq<u8>) returns (from: nat, ts: seq<Token>, k: nat)
    requires END !in u && cap > 0
    ensures Holds(u, Run(cap, CLEAN, u).rx, from, ts, k) && StartsOver(cap, u, from)
  {
    hide WireOf, ValueOf;
    if u == [] {
      from, ts, k := 0, [], 0;
      NothingHeld(u);
    } else {
      var front, c := u[..|u| - 1], u[|u| - 1];
      assert u == front + [c] && c in u;
      var was, held, n := HeldSince(cap, front);
      var rx := Run(cap, CLEAN, front).rx;
      BufferBounded(cap, CLEAN, front);
      from, ts, k := StepHolds(cap, front, c, rx, was, held, n);
      hide Step, Run;
      StartsOverExtends(cap, front, c, was);
      if from == was {
      } else if from == |front| {
        DroppedAtEscape(cap, front, c, rx, was, held, n);
      } else {
        var _ := DroppedAtFull(cap, front, c, rx, was, held, n);
      }
    }
  }

  /** A byte that is no code behind ESC. */
  lemma DroppedAtEscape(cap: nat, s: seq<u8>, c: u8, rx: Rx, from: nat, ts: seq<Token>, k: nat)
    requires Holds(s, rx, from, ts, k) && |rx.buf| <= cap && rx.escaped && !IsCode(c)
    ensures Dropped(cap, s + [c], from, |s|, ts, k)
  {
    hide WireOf, ValueOf;
    ValueLength(ts);
    assert (s + [c])[from..|s|] == s[from..];
    assert |Escapes(k)| == k;
  }

  /** One more token for a full buffer. */
  lemma DroppedAtFull(cap: nat, s: seq<u8>, c: u8, rx: Rx, from: nat, ts: seq<Token>, k: nat)
    returns (ts': seq<Token>)
    requires Holds(s, rx, from, ts, k) && |rx.buf| == cap && c != END && c != ESC && (rx.escaped ==> IsCode(c))
    ensures Dropped(cap, s + [c], from, |s| + 1, ts', 0)
  {
    hide WireOf, ValueOf;
    ValueLength(ts);
    var t := if rx.escaped then Escaped(k - 1, if c == T_END then END else ESC) else Plain(c);
    assert Escapes(k) + [c] == t.Wire();
    HeldTokenAppended(s, c, rx, from, ts, k, t);
    assert (s + [c])[from..|s| + 1] == (s + [c])[from..];
    ts' := ts + [t];
  }

  lemma ValueLength(ts: seq<Token>)
    ensures |ValueOf(ts)| == |ts|
  {
  }

  /**
   Soundness and completeness meet: an END-free run between two ENDs delivers `p` if and only if,
   behind a series of dropped pieces, it is a lenient encoding of `p` and its checksum that fits the
   buffer.
   */
  lemma DeliversIff(cap: nat, u: seq<u8>, p: seq<u8>)
    requires END !in u
    ensures Run(cap, CLEAN, u + [END]).packets == [p] <==> exists from, ts :: Encoded(cap, u, from, ts, p)
  {
    hide Run, WireOf, ValueOf, Checksum, Close;
    var rx := Run(cap, CLEAN, u).rx;
    QuietWithoutEnd(cap, CLEAN, u);
    RunCompose(cap, CLEAN, u, [END]);
    RunOne(cap, rx, END);
    assert Run(cap, CLEAN, u + [END]).packets == Step(cap, rx, END).packets;
    if Step(cap, rx, END).packets == [p] {
      CloseSplits(rx.buf);
      BufferBounded(cap, CLEAN, u);
      var from, ts, k := HeldSince(cap, u);
      ValueLength(ts);
      assert Escapes(0) == [] && WireOf(ts) + [] == WireOf(ts);
      assert Encoded(cap, u, from, ts, p);
    }
    if from, ts :| Encoded(cap, u, from, ts, p) {
      StartedOver(cap, u, from);
      TokensFillBuffer(cap, [], ts);
      assert [] + ValueOf(ts) == ValueOf(ts);
      TrailerChecks(p, ValueOf(ts));
    }
  }

  // ----- a damaged byte is noticed -----

  lemma PlusLaws(x: u16, y: nat, z: nat)
    ensures Plus16(x, 0) == x
    ensures Plus16(Plus16(x, y), z) == Plus16(x, Plus16(y, z))
  {
  }

  lemma {:induction false} SumOfConcat(a: seq<u8>, b: seq<u8>)
    ensures Sum16(a + b) == Plus16(Sum16(a), Sum16(b))
  {
    hide Plus16;
    if b == [] {
      assert a + b == a;
      PlusLaws(Sum16(a), 0, 0);
    } else {
      var front, c := b[..|b| - 1], b[|b| - 1];
      SumOfConcat(a, front);
      assert (a + b)[..|a + b| - 1] == a + front;
      PlusLaws(Sum16(a), Sum16(front), c);
    }
  }

  lemma SumOfOne(b: u8)
    ensures Sum16([b]) == b
  {
    assert [b][..0] == [];
  }

  lemma SumSeesByte(pre: seq<u8>, b: u8, b': u8, post: seq<u8>)
    requires b != b'
    ensures Checksum(pre + [b] + post) != Checksum(pre + [b'] + post)
  {
    SumOfOne(b);
    SumOfOne(b');
    SumOfConcat(pre, [b]);
    SumOfConcat(pre, [b']);
    SumOfConcat(pre + [b], post);
    SumOfConcat(pre + [b'], post);
    hide Sum16;
    PlusSeparates(Sum16(pre), b, b', Sum16(post));
    NegationInjective(Sum16(pre + [b] + post), Sum16(pre + [b'] + post));
  }

  lemma PlusSeparates(x: u16, b: u8, b': u8, y: u16)
    requires b != b'
    ensures Plus16(Plus16(x, b), y) != Plus16(Plus16(x, b'), y)
  {
  }

  lemma NegationInjective(a: u16, b: u16)
    requires a != b
    ensures (0x1_0000 - a as int) % 0x1_0000 != (0x1_0000 - b as int) % 0x1_0000
  {
  }

  /** Replacing one byte of a buffer whose checksum matches makes the checksum fail. */
  lemma ByteChangeBreaksSum(p: seq<u8>, pre: seq<u8>, b: u8, b': u8, post: seq<u8>)
    requires p != [] && b != b' && p + Trailer(p) == pre + [b] + post
    ensures Close(pre + [b'] + post) == Result(CLEAN, [], 1)
  {
    var n := |p|;
    var x, y := p + Trailer(p), pre + [b'] + post;
    assert x[..n] == p && x[n..] == Trailer(p) && |y| == n + 2;
    if |pre| < n {
      var tail := post[..n - |pre| - 1];
      assert x[..n] == pre + [b] + tail;
      assert y[..n] == pre + [b'] + tail;
      assert y[n..] == x[n..];
      SumSeesByte(pre, b, b', tail);
      LeRoundTrip(Checksum(p));
    } else {
      var i := |pre| - n;
      assert y[..n] == x[..n];
      assert y[n..] == Trailer(p)[i := b'] && Trailer(p)[i] == x[n + i] == b;
      LeBytesRoundTrip(y[n..]);
    }
  }

  /** Where a byte of a stuffed text that is no ESC and not preceded by ESC comes from. */
  lemma {:induction false} PlainByteOrigin(x: seq<u8>, k: nat) returns (m: nat)
    requires k < |Stuff(x)| && Stuff(x)[k] != ESC && (k > 0 ==> Stuff(x)[k - 1] != ESC)
    ensures m < |x| && Stuff(x)[k] == x[m]
    ensures Stuff(x)[..k] == Stuff(x[..m]) && Stuff(x)[k + 1..] == Stuff(x[m + 1..])
  {
    var w, head, rest := Stuff(x), StuffByte(x[0]), Stuff(x[1..]);
    assert w == head + rest && 1 <= |head| <= 2 && (|head| == 2 ==> head[0] == ESC);
    assert |head| == 1 ==> head[0] == x[0];
    if k == 0 {
      m := 0;
    } else {
      hide Stuff, StuffByte;
      var j := k - |head|;
      SplitAt(head, rest, k);
      m := PlainByteOrigin(x[1..], j);
      StuffPrefix(x, m);
      assert x[1..][m + 1..] == x[m + 2..];
      m := m + 1;
    }
  }

  lemma SplitAt(head: seq<u8>, rest: seq<u8>, k: nat)
    requires |head| <= k < |head + rest|
    ensures
      var w, j := head + rest, k - |head|;
      w[k] == rest[j] && (j > 0 ==> w[k - 1] == rest[j - 1]) &&
      w[..k] == head + rest[..j] && w[k + 1..] == rest[j + 1..]
  {
  }

  lemma StuffPrefix(x: seq<u8>, m: nat)
    requires m < |x| - 1
    ensures Stuff(x[..m + 1]) == StuffByte(x[0]) + Stuff(x[1..][..m])
  {
    assert x[..m + 1][1..] == x[1..][..m];
  }

  /**
   Corruption detection: in the frame of any packet that fits, overwriting one byte that is not a
   framing code, nor the byte after ESC, with another byte that is neither END nor ESC delivers
   nothing and counts exactly one error, whether the byte belongs to the payload or the checksum.
   */
  lemma CorruptionDetected(cap: nat, p: seq<u8>, k: nat, bad: u8)
    requires 1 <= |p| <= cap - 2 && k < |Frame(p)|
    requires Frame(p)[k] != END && Frame(p)[k] != ESC && Frame(p)[k - 1] != ESC
    requires bad != END && bad != ESC && bad != Frame(p)[k]
    ensures Run(cap, CLEAN, Frame(p)[k := bad]) == Result(CLEAN, [], 1)
  {
    hide Run, Step, Stuff, Close, Checksum;
    var x := p + Trailer(p);
    var w, b := Stuff(x), Frame(p)[k];
    assert 1 <= k <= |w| && w[k - 1] == b;
    var m := PlainByteOrigin(x, k - 1);
    var pre, post := x[..m], x[m + 1..];
    assert x == pre + [b] + post;
    var y := pre + [bad] + post;
    StuffedChange(x, k - 1, pre, post, bad);
    assert Frame(p)[k := bad] == [END] + w[k - 1 := bad] + [END];
    ByteChangeBreaksSum(p, pre, b, bad, post);
    FramedBuffer(cap, CLEAN, y);
    QuietEnd(cap, Close(y));
  }

  lemma QuietEnd(cap: nat, r: Result)
    ensures Then(Step(cap, CLEAN, END), r) == r
  {
    ThenLaws(Step(cap, CLEAN, END), r, r);
  }

  lemma StuffedChange(x: seq<u8>, k: nat, pre: seq<u8>, post: seq<u8>, bad: u8)
    requires k < |Stuff(x)| && Stuff(x)[..k] == Stuff(pre) && Stuff(x)[k + 1..] == Stuff(post)
    requires bad != END && bad != ESC
    ensures Stuff(x)[k := bad] == Stuff(pre + [bad] + post)
  {
    StuffSnoc(pre, bad);
    StuffConcat(pre + [bad], post);
    var w := Stuff(x);
    assert w[k := bad] == w[..k] + [bad] + w[k + 1..];
  }
}
