/**
 The sniffer as the source has it: one object whose buffers are scanned, copied and compacted in
 place. Every method is proved to do what its function in `Sniffer` says.
 */
module SnifferMachine {
  import opened Bytes
  import opened ByteStream
  import opened Input
  import opened Sniffer
  import opened SnifferRuns

  // ----- building a datagram -----

  method PutByte(bs: BStream, b: u8, ghost all: seq<u8>)
    requires bs.Valid() && bs.data != null && Filled(bs.View(), DATAGRAM_MAX, all)
    modifies bs, bs.data
    ensures bs.Valid() && Filled(bs.View(), DATAGRAM_MAX, all + [b])
  {
    FilledPut(bs.View(), DATAGRAM_MAX, all, [b]);
    bs.PutU8(b);
  }

  /** `U_bstream_put_u8` for each byte of `bytes`. */
  method PutBytes(bs: BStream, bytes: seq<u8>, ghost all: seq<u8>)
    requires bs.Valid() && bs.data != null && Filled(bs.View(), DATAGRAM_MAX, all)
    modifies bs, bs.data
    ensures bs.Valid() && Filled(bs.View(), DATAGRAM_MAX, all + bytes)
  {
    hide Filled;
    assert all + bytes[..0] == all;
    for i := 0 to |bytes|
      invariant bs.Valid() && Filled(bs.View(), DATAGRAM_MAX, all + bytes[..i])
    {
      assert all + bytes[..i] + [bytes[i]] == all + bytes[..i + 1];
      PutByte(bs, bytes[i], all + bytes[..i]);
    }
    assert bytes[..|bytes|] == bytes;
  }

  method PutNumber(bs: BStream, n: u32, ghost all: seq<u8>)
    requires bs.Valid() && bs.data != null && Filled(bs.View(), DATAGRAM_MAX, all) && |all| + 4 <= DATAGRAM_MAX
    modifies bs, bs.data
    ensures bs.Valid() && Filled(bs.View(), DATAGRAM_MAX, all + Be32(n))
  {
    FilledPut(bs.View(), DATAGRAM_MAX, all, Be32(n));
    bs.PutU32Be(n);
  }

  /** The fields of a ZEP header and the payload, in the order of the source. */
  method WriteZep(bs: BStream, channel: u8, seqNum: u32, payload: Content)
    requires bs.Valid() && bs.data != null && Filled(bs.View(), DATAGRAM_MAX, [])
    modifies bs, bs.data
    ensures bs.Valid() && Filled(bs.View(), DATAGRAM_MAX, Zep(channel, seqNum, payload))
  {
    hide Filled, Be32, BStream.View;
    if |payload| >= DATA_LENGTH {
      PutBytes(bs, [0x45, 0x58, 2, 1], []);
      assert [] + [0x45, 0x58, 2, 1] == [0x45, 0x58, 2, 1];
      PutBytes(bs, [channel, 0, 0, 0, 0], [0x45, 0x58, 2, 1]);
      ghost var all := [0x45, 0x58, 2, 1] + [channel, 0, 0, 0, 0];
      PutBytes(bs, Zeros(8), all);
      PutNumber(bs, seqNum, all + Zeros(8));
      all := all + Zeros(8) + Be32(seqNum);
      PutBytes(bs, Zeros(10), all);
      PutByte(bs, |payload| - 8, all + Zeros(10));
      PutBytes(bs, payload[8..], all + Zeros(10) + [|payload| - 8]);
    } else {
      PutBytes(bs, [0x45, 0x58, 2, 2], []);
      assert [] + [0x45, 0x58, 2, 2] == [0x45, 0x58, 2, 2];
      PutNumber(bs, seqNum, [0x45, 0x58, 2, 2]);
    }
  }

  /** The end of ST_SniffRecvData: `bs.data` and `bs.pos` as they are given to the socket. */
  method BuildDatagram(channel: u8, seqNum: u32, payload: Content) returns (d: seq<u8>)
    ensures d == Datagram(channel, seqNum, payload)
  {
    var buf := new u8[DATAGRAM_MAX];
    var bs := new BStream(buf, DATAGRAM_MAX);
    hide Filled, Zep;
    NothingFilled(bs.View());
    WriteZep(bs, channel, seqNum, payload);
    FilledMeans(bs.View(), DATAGRAM_MAX, Zep(channel, seqNum, payload));
    d := buf[..bs.pos];
    assert d == bs.View().Written();
  }

  // ----- the machine -----

  class Machine {
    const channel: u8
    const ascii: array<u8>
    const sniffPacket: array<u8>
    var mode: Mode
    var rp: nat
    var wp: nat
    var sniffWp: nat
    var sniffLength: u8
    var seqNum: u32
    ghost var sent: seq<seq<u8>>

    ghost predicate Valid()
      reads this
    {
      ascii.Length == ASCII_SIZE && rp < ASCII_SIZE && wp < ASCII_SIZE &&
      sniffPacket.Length == 256 && ascii != sniffPacket &&
      sniffWp <= sniffLength as int && (mode.SyncData? ==> sniffWp == 0)
    }

    ghost function View(): State
      requires Valid()
      reads this, ascii, sniffPacket
    {
      State(mode, ascii[..], rp, wp, sniffLength, sniffPacket[..sniffWp], seqNum, sent)
    }

    /** The transition into ST_SniffSyncData. */
    constructor (chan: u8)
      ensures Valid() && channel == chan && Initial(View()) && fresh(ascii) && fresh(sniffPacket)
    {
      channel := chan;
      ascii, sniffPacket := new u8[ASCII_SIZE], new u8[256];
      mode, rp, wp, sniffWp, sniffLength, seqNum := SyncData, 0, 0, 0, 0, 0;
      sent := [];
    }

    /** The first loop of ST_SniffSyncData. */
    method SkipToMarker()
      requires Valid() && rp <= wp
      modifies `rp
      ensures Valid() && rp == Scan(ascii[..], old(rp), wp)
    {
      while ascii[rp] != MARKER && rp < wp
        invariant rp <= wp && Scan(ascii[..], rp, wp) == Scan(ascii[..], old(rp), wp)
        decreases wp - rp
      {
        rp := rp + 1;
      }
    }

    method SyncReceived()
      requires Valid() && mode.SyncData?
      modifies this, ascii, sniffPacket
      ensures Valid() && View() == Sync(channel, old(View()))
      decreases 1, 0
    {
      hide Scan, Recv;
      sniffLength := 0;
      if rp < wp {
        SkipToMarker();
        var i := rp;
        if ascii[i] == MARKER && i + 1 < wp {
          sniffWp, sniffLength := 0, ascii[i + 1];
          assert sniffPacket[..sniffWp] == [];
          if sniffLength as int < MIN_LENGTH {
            rp := rp + 1;
            return;
          }
          if 2 + sniffLength as int < wp - rp {
            if ascii[i + 2 + sniffLength as int] == TRAILER {
              rp, mode := i + 2, RecvData;
              HandleEvent(RxAscii);
            } else {
              rp := rp + 1;
            }
          }
          return;
        }
      }
      rp, wp := 0, 0;
    }

    /** The copy loop of ST_SniffRecvData. */
    method TakePayload()
      requires Valid()
      modifies `rp, `sniffWp, sniffPacket
      ensures rp == old(rp) + Taken(old(View()))
      ensures old(rp) <= rp && (rp > old(rp) ==> rp <= wp) && sniffWp == old(sniffWp) + (rp - old(rp)) <= 256
      ensures sniffPacket[..sniffWp] == old(sniffPacket[..sniffWp]) + ascii[old(rp)..rp]
    {
      ghost var was, from := sniffPacket[..sniffWp], rp;
      for i := rp to if rp < wp then wp else rp
        invariant i == rp && sniffWp == |was| + (rp - from) <= sniffLength as int
        invariant sniffPacket[..sniffWp] == was + ascii[from..rp]
      {
        sniffPacket[sniffWp] := ascii[rp];
        sniffWp := sniffWp + 1;
        rp := rp + 1;
        if sniffWp == sniffLength as int + 1 {
          break;
        }
      }
    }

    /** The loop that moves unprocessed data to the start of the buffer. */
    method Compact()
      requires ascii.Length == ASCII_SIZE && rp < ASCII_SIZE && wp < ASCII_SIZE
      modifies `rp, `wp, ascii
      ensures rp == 0 && wp == (if old(rp) < old(wp) then old(wp) - old(rp) else 0)
      ensures ascii[..] == Overwrite(old(ascii[..]), if old(rp) < old(wp) then old(ascii[rp..wp]) else [])
    {
      var i := 0;
      ghost var gap := rp;
      while rp < wp
        invariant wp == old(wp) && rp == gap + i && (rp <= wp || i == 0)
        invariant forall k | 0 <= k < i :: ascii[k] == old(ascii[gap + k])
        invariant forall k | i <= k < ASCII_SIZE :: ascii[k] == old(ascii[k])
      {
        ascii[i] := ascii[rp];
        rp := rp + 1;
        i := i + 1;
      }
      rp, wp := 0, i;
    }

    method DataReceived()
      requires Valid() && mode.RecvData?
      modifies this, ascii, sniffPacket
      ensures Valid() && View() == Recv(channel, old(View()))
      decreases 0, 0
    {
      hide Datagram;
      ghost var s := View();
      TakePayload();
      ghost var mid := s.rp + Taken(s);
      ghost var got := s.got + (if s.rp < s.wp then s.ascii[s.rp..mid] else []);
      assert sniffPacket[..sniffWp] == got;
      Compact();
      assert ascii[..] == Overwrite(s.ascii, if mid < s.wp then s.ascii[mid..s.wp] else []);
      hide Taken, Overwrite;
      if sniffWp == sniffLength as int + 1 {
        assert sniffPacket[..0] == [];
        assert got[sniffLength] == sniffPacket[sniffLength] && got[..sniffLength] == sniffPacket[..sniffLength];
        FinishFrame();
      }
    }

    /** A frame is complete: send it on and look for the next. */
    method FinishFrame()
      requires ascii.Length == ASCII_SIZE && rp < ASCII_SIZE && wp < ASCII_SIZE && sniffPacket.Length == 256
      requires ascii != sniffPacket
      modifies `sent, `seqNum, `sniffWp, `sniffLength, `mode
      ensures Valid() && mode == SyncData && sniffWp == 0 && sniffLength == 0
      ensures
        var full := old(sniffPacket[sniffLength]) == TRAILER;
        sent == old(sent) + (if full then [Datagram(channel, old(seqNum), old(sniffPacket[..sniffLength]))] else []) &&
        seqNum == if full then Next(old(seqNum)) else old(seqNum)
    {
      hide Datagram;
      if sniffPacket[sniffLength] == TRAILER {
        var d := BuildDatagram(channel, seqNum, sniffPacket[..sniffLength]);
        sent := sent + [d];
        seqNum := Next(seqNum);
      }
      sniffWp, sniffLength, mode := 0, 0, SyncData;
    }

    method HandleEvent(ev: Event)
      requires Valid()
      modifies this, ascii, sniffPacket
      ensures Valid() && View() == Handle(channel, old(View()), ev)
      decreases if mode.SyncData? then 1 else 0, 1
    {
      hide Sync, Recv;
      match mode
      case Teardown =>
      case SyncData =>
        if ev.RxAscii? || ev.PlLoop? {
          SyncReceived();
        } else {
          mode := Mode.Teardown;
        }
      case RecvData =>
        if ev.RxAscii? {
          DataReceived();
        } else if !ev.PlLoop? {
          mode := Mode.Teardown;
        }
    }

    /** `GCF_Received` */
    method Receive(data: seq<u8>)
      requires Valid()
      modifies this, ascii, sniffPacket
      ensures Valid() && View() == Received(channel, old(View()), data)
    {
      hide Store, Handle;
      var n;
      wp, n := StoreInput(ascii, wp, data);
      if n > 0 {
        HandleEvent(RxAscii);
      }
    }
  }

  /** A capture from its start: what has been sent are frames of the received stream, one each. */
  method Capture(channel: u8, xs: seq<Occurrence>) returns (m: Machine, ghost start: State)
    ensures fresh(m) && m.Valid() && Initial(start) && m.View() == Run(channel, start, xs)
    ensures !m.mode.RecvData?
    ensures Relayed(channel, Arrivals(xs), Log(channel, start, xs), m.sent, |Arrivals(xs)|)
  {
    hide Received, Handle, Relayed;
    m := new Machine(channel);
    start := m.View();
    for i := 0 to |xs|
      invariant fresh(m) && fresh(m.ascii) && fresh(m.sniffPacket) && m.Valid() && m.channel == channel
      invariant m.View() == Run(channel, start, xs[..i])
    {
      assert xs[..i + 1][..i] == xs[..i];
      match xs[i]
      case Arrived(data) => m.Receive(data);
      case Raised(ev) => m.HandleEvent(ev);
    }
    assert xs[..|xs|] == xs;
    DatagramsRelayed(channel, start, xs);
  }
}
