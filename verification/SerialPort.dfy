/** The transmit ring of main_posix.c and the sender of protocol.c that fills it. */
module SerialPort {
  import opened Bytes
  import opened Framing
  import opened Transmit

  const WRAP: nat := 0x1_0000_0000

  function Slot(r: nat, i: nat): nat { (r + i) % RING }

  /** The `n` ring entries from counter value `r` on. */
  function Window(ring: seq<u8>, r: nat, n: nat): seq<u8>
    requires |ring| == RING
  {
    seq(n, i requires 0 <= i < n => ring[Slot(r, i)])
  }

  /** Two offsets less than a turn apart share a ring entry only if they are equal. */
  lemma SlotDistinct(r: nat, i: nat, j: nat)
    requires i <= j <= i + RING
    ensures Slot(r, i) == Slot(r, j) <==> j == i || j == i + RING
  {
  }

  lemma WindowPut(ring: seq<u8>, r: nat, n: nat, b: u8)
    requires |ring| == RING && n < RING
    ensures Window(ring[Slot(r, n) := b], r, n + 1) == Window(ring, r, n) + [b]
  {
    forall i | 0 <= i < n ensures Slot(r, i) != Slot(r, n) { SlotDistinct(r, i, n); }
  }

  /** 2048 divides 2^32, so ring entries survive the wrap of the free-running counters. */
  lemma SlotSurvivesWrap(x: nat, i: nat)
    ensures Slot(x % WRAP, i) == Slot(x, i)
  {
    var turns := 0x20_0000 * (x / WRAP);
    assert x + i == RING * turns + (x % WRAP + i);
    TurnsVanish(x % WRAP + i, turns);
  }

  lemma TurnsVanish(a: nat, turns: nat)
    ensures (RING * turns + a) % RING == a % RING
  {
  }

  lemma SlotShift(r: nat, k: nat, i: nat)
    ensures Slot((r + k) % WRAP, i) == Slot(r, k + i)
  {
    SlotSurvivesWrap(r + k, i);
  }

  lemma WindowDrop(ring: seq<u8>, r: nat, k: nat, n: nat)
    requires |ring| == RING && k <= n
    ensures Window(ring, (r + k) % WRAP, n - k) == Window(ring, r, n)[k..]
  {
    var w, v := Window(ring, (r + k) % WRAP, n - k), Window(ring, r, n);
    forall i | 0 <= i < n - k ensures w[i] == v[k + i] { SlotShift(r, k, i); }
  }

  ghost function Distance(rp: u32, wp: u32): nat { (wp as int - rp as int) % WRAP }

  lemma DistanceMeaning(rp: u32, wp: u32)
    ensures Distance(rp, wp) == if rp <= wp then wp - rp else wp as int + WRAP - rp as int
    ensures wp as int == (rp as int + Distance(rp, wp)) % WRAP
  {
  }

  lemma CounterStep(rp: u32, wp: u32)
    requires Distance(rp, wp) < RING
    ensures
      var n := Distance(rp, wp);
      var wp': u32 := (wp as int + 1) % WRAP;
      wp as int % RING == Slot(rp, n) && Distance(rp, wp') == n + 1 &&
      (wp' as int % RING == rp as int % RING <==> n == RING - 1)
  {
    var n := Distance(rp, wp);
    var wp': u32 := (wp as int + 1) % WRAP;
    DistanceMeaning(rp, wp);
    DistanceMeaning(rp, wp');
    assert Distance(rp, wp') == n + 1;
    hide Distance;
    SlotShift(rp, n, 0);
    SlotShift(rp, n + 1, 0);
    SlotDistinct(rp, 0, n + 1);
  }

  lemma CounterRead(rp: u32, wp: u32, k: nat)
    requires k <= Distance(rp, wp) < RING
    ensures
      var n := Distance(rp, wp);
      var rp': u32 := (rp as int + k) % WRAP;
      rp' as int % RING == Slot(rp, k) && Distance(rp', wp) == n - k &&
      (wp as int % RING == rp' as int % RING <==> k == n)
  {
    var n := Distance(rp, wp);
    var rp': u32 := (rp as int + k) % WRAP;
    DistanceMeaning(rp, wp);
    DistanceMeaning(rp', wp);
    assert Distance(rp', wp) == n - k;
    hide Distance;
    SlotShift(rp, n, 0);
    SlotShift(rp, k, 0);
    SlotDistinct(rp, k, n);
  }

  lemma Drained(ring: seq<u8>, rp: u32, wp: u32, k: nat)
    requires |ring| == RING && k <= Distance(rp, wp) < RING
    ensures
      var n := Distance(rp, wp);
      var rp': u32 := (rp as int + k) % WRAP;
      Distance(rp', wp) == n - k && Window(ring, rp', n - k) == Window(ring, rp, n)[k..]
  {
    CounterRead(rp, wp, k);
    WindowDrop(ring, rp, k, Distance(rp, wp));
  }

  lemma CounterDrop(rp: u32, wp: u32)
    requires 0 < Distance(rp, wp)
    ensures Distance((rp as int + 1) % WRAP, wp) == Distance(rp, wp) - 1
  {
  }

  /** The `platform` struct as far as transmission is concerned. */
  class Serial {
    var connected: bool
    const txbuf: array<u8>
    var rp: u32
    var wp: u32
    ghost var wire: seq<u8>

    ghost function Pending(): nat
      reads this
    {
      Distance(rp, wp)
    }

    ghost predicate Valid()
      reads this
    {
      txbuf.Length == RING && Pending() < RING
    }

    ghost function Queue(): (q: seq<u8>)
      requires Valid()
      reads this, txbuf
      ensures |q| == Pending()
    {
      Window(txbuf[..], rp, Pending())
    }

    ghost function View(): (p: Port)
      requires Valid()
      reads this, txbuf
      ensures p.connected == connected
    {
      Port(connected, Queue(), wire)
    }

    /** The main loop tests the counters for equality to see whether anything is queued. */
    lemma EmptyIff()
      requires Valid()
      ensures rp == wp <==> View().queue == []
    {
      DistanceMeaning(rp, wp);
    }

    constructor ()
      ensures Valid() && fresh(txbuf) && View() == Port(false, [], [])
    {
      connected, rp, wp, wire := false, 0, 0, [];
      txbuf := new u8[RING];
    }

    /** `PL_Connect` after the `already connected` test; `ok` is the outcome of `open`. */
    method Open(ok: bool)
      requires Valid()
      modifies this
      ensures Valid() && View() == Port(ok, [], old(wire))
    {
      connected, rp, wp := ok, 0, 0;
    }

    /** `PL_Disconnect` before it raises its event. */
    method Close()
      requires Valid()
      modifies this
      ensures Valid() && View() == Port(false, [], old(wire))
    {
      connected, rp, wp := false, 0, 0;
    }

    method Putc(ch: u8) returns (n: nat)
      requires Valid()
      modifies this, txbuf
      ensures Valid() && View() == Transmit.Putc(old(View()), ch)
      ensures n == (if old(connected) then 1 else 0) && connected == old(connected)
    {
      if !connected {
        return 0;
      }
      ghost var ring, size := txbuf[..], Pending();
      CounterStep(rp, wp);
      txbuf[wp as int % RING] := ch;
      assert txbuf[..] == ring[Slot(rp, size) := ch];
      WindowPut(ring, rp, size, ch);
      wp := (wp as int + 1) % WRAP;
      if wp as int % RING == rp as int % RING {
        WindowDrop(txbuf[..], rp, 1, size + 1);
        CounterDrop(rp, wp);
        rp := (rp as int + 1) % WRAP;
      }
      return 1;
    }

    /** The first loop of `PROT_Flush`: copy at most 512 queued bytes, oldest first. */
    method Gather(buf: array<u8>) returns (len: nat)
      requires Valid() && buf.Length == FLUSH_MAX && buf != txbuf
      modifies buf
      ensures len == if |Queue()| < FLUSH_MAX then |Queue()| else FLUSH_MAX
      ensures buf[..len] == Queue()[..len]
    {
      ghost var q := Queue();
      len := 0;
      while len < FLUSH_MAX && wp as int % RING != (rp as int + len) % WRAP % RING
        invariant len <= FLUSH_MAX && len <= |q| && q == Queue()
        invariant buf[..len] == q[..len]
      {
        CounterRead(rp, wp, len);
        buf[len] := txbuf[(rp as int + len) % WRAP % RING];
        assert buf[len] == q[len];
        len := len + 1;
      }
      CounterRead(rp, wp, len);
    }

    /** The second loop of `PROT_Flush`: call `write` until all is handed over or it fails. */
    method HandOver(buf: array<u8>, len: nat, outcomes: seq<WriteOutcome>) returns (pos: nat)
      requires len <= buf.Length
      modifies `wire
      ensures pos == Accepted(len, outcomes)
      ensures wire == old(wire) + buf[..pos]
    {
      pos := 0;
      var k := 0;
      while pos < len && k < |outcomes|
        invariant pos <= len && k <= |outcomes|
        invariant pos + Accepted(len - pos, outcomes[k..]) == Accepted(len, outcomes)
        invariant wire == old(wire) + buf[..pos]
        decreases |outcomes| - k
      {
        assert outcomes[k..][1..] == outcomes[k + 1..];
        match outcomes[k] {
          case Interrupted =>
          case Failed => break;
          case Wrote(n) =>
            if !(0 < n <= len - pos) { break; }
            wire := wire + buf[pos..pos + n];
            assert buf[..pos + n] == buf[..pos] + buf[pos..pos + n];
            pos := pos + n;
        }
        k := k + 1;
      }
    }

    /** `PROT_Flush`; -1 tells the caller to raise the disconnect event. */
    method Flush(outcomes: seq<WriteOutcome>) returns (n: int)
      requires Valid()
      modifies this
      ensures Valid() && View() == Transmit.Flush(old(View()), outcomes) && connected == old(connected)
      ensures n == if old(connected) then FlushAmount(old(View()), outcomes) else -1
    {
      if !connected {
        wp, rp := 0, 0;
        return -1;
      }
      hide Window, Distance, Accepted;
      ghost var q := Queue();
      var buf := new u8[FLUSH_MAX];
      var len := Gather(buf);
      var pos := HandOver(buf, len, outcomes);
      assert buf[..pos] == q[..pos] by { PrefixOfPrefix(buf[..len], q, len, pos); }
      Drained(txbuf[..], rp, wp, pos);
      rp := (rp as int + pos) % WRAP;
      return pos;
    }

    /** `protPutc`. */
    method PutStuffed(c: u8)
      requires Valid()
      modifies this, txbuf
      ensures Valid() && View() == PutAll(old(View()), StuffByte(c)) && connected == old(connected)
    {
      ghost var before := View();
      if c == ESC || c == END {
        var code := if c == ESC then T_ESC else T_END;
        var _ := Putc(ESC);
        var _ := Putc(code);
        PutTwo(before, ESC, code);
      } else {
        var _ := Putc(c);
        PutOne(before, c);
      }
    }

    /** The payload loop of `PROT_SendFlagged`, behind the opening END. */
    method PutPayload(data: seq<u8>) returns (crc: u16)
      requires Valid()
      modifies this, txbuf
      ensures Valid() && connected == old(connected)
      ensures View() == PutAll(old(View()), [END] + Stuff(data)) && crc == Sum16(data)
    {
      ghost var before := View();
      crc := 0;
      var _ := Putc(END);
      PutOne(before, END);
      assert [END] + Stuff(data[..0]) == [END] && Sum16(data[..0]) == 0;
      hide Stuff, StuffByte, Transmit.Putc, Newest, Window, Distance;
      for i := 0 to |data|
        invariant Valid() && connected == before.connected
        invariant crc == Sum16(data[..i])
        invariant View() == PutAll(before, [END] + Stuff(data[..i]))
      {
        assert data[..i + 1][..i] == data[..i] && data[..i + 1] == data[..i] + [data[i]];
        crc := Plus16(crc, data[i]);
        PutStuffed(data[i]);
        PutStuffedByte(before, data[..i], data[i]);
      }
      assert data[..|data|] == data;
    }

    method SendFlagged(data: seq<u8>, outcomes: seq<WriteOutcome>) returns (n: int)
      requires Valid()
      modifies this, txbuf
      ensures Valid() && View() == Transmit.SendFlagged(old(View()), data, outcomes)
      ensures connected == old(connected)
      ensures n < 0 <==> !old(connected)
    {
      hide Stuff, StuffByte, Transmit.Putc, Newest, Window, Distance, Sum16, Transmit.Flush;
      ghost var before := View();
      var crc := PutPayload(data);
      crc := (0x1_0000 - crc as int) % 0x1_0000;
      var lo: u8, hi: u8 := crc as int % 0x100, crc as int / 0x100 % 0x100;
      PutStuffed(lo);
      PutStuffedByte(before, data, lo);
      PutStuffed(hi);
      PutStuffedByte(before, data + [lo], hi);
      assert data + [lo] + [hi] == data + Trailer(data);
      var _ := Putc(END);
      PutEnd(before, data);
      n := Flush(outcomes);
    }

    /** `PROT_Write`: raw bytes, then one flush. */
    method Write(data: seq<u8>, outcomes: seq<WriteOutcome>) returns (n: int)
      requires Valid()
      modifies this, txbuf
      ensures Valid() && View() == Transmit.Write(old(View()), data, outcomes)
      ensures connected == old(connected)
      ensures n < 0 <==> !old(connected)
    {
      for i := 0 to |data|
        invariant Valid() && View() == PutAll(old(View()), data[..i]) && connected == old(connected)
      {
        var _ := Putc(data[i]);
        assert data[..i + 1][..i] == data[..i];
      }
      assert data[..|data|] == data;
      n := Flush(outcomes);
    }
  }

  lemma PrefixOfPrefix(b: seq<u8>, q: seq<u8>, len: nat, pos: nat)
    requires pos <= len <= |q| && b == q[..len]
    ensures b[..pos] == q[..pos]
  {
  }

  lemma PutOne(p: Port, a: u8)
    ensures PutAll(p, [a]) == Transmit.Putc(p, a)
  {
    assert [a][..0] == [];
  }

  lemma PutTwo(p: Port, a: u8, b: u8)
    ensures PutAll(p, [a, b]) == Transmit.Putc(Transmit.Putc(p, a), b)
  {
    PutOne(p, a);
    assert [a, b][..1] == [a];
  }

  lemma PutStuffedByte(p: Port, done: seq<u8>, c: u8)
    ensures PutAll(PutAll(p, [END] + Stuff(done)), StuffByte(c)) == PutAll(p, [END] + Stuff(done + [c]))
  {
    PutAllConcat(p, [END] + Stuff(done), StuffByte(c));
    StuffSnoc(done, c);
    assert [END] + Stuff(done) + StuffByte(c) == [END] + Stuff(done + [c]);
  }

  lemma PutEnd(p: Port, data: seq<u8>)
    ensures Transmit.Putc(PutAll(p, [END] + Stuff(data + Trailer(data))), END) == PutAll(p, Frame(data))
  {
    PutAllConcat(p, [END] + Stuff(data + Trailer(data)), [END]);
    PutOne(PutAll(p, [END] + Stuff(data + Trailer(data))), END);
  }
}
