/**
 The flash dump as the source has it: one object, responses read from its packet buffer, commands
 built in a local one. Every method is proved to do what its function in `FlashDump` says.
 */
module FlashDumpMachine {
  import opened Bytes
  import opened ByteStream
  import opened FlashDump

  /** The fields of `GCF` and of the platform that the dump uses. */
  class Machine {
    const rxPacket: array<u8>
    var rxPacketLength: nat
    var state: Phase
    var evAction: bool
    var flashAddress: u32
    var flashSize: u32
    var flashStep: u32
    var gcfSeq: u8
    var timer: bool
    var running: bool
    ghost var asked: seq<seq<u8>>

    ghost predicate Valid()
      reads this
    {
      rxPacket.Length == 256 && rxPacketLength < 256
    }

    ghost function View(): Dump
      reads this
    {
      Dump(state, evAction, flashAddress, flashSize, flashStep, gcfSeq, timer, running, asked)
    }

    constructor (connects: bool)
      ensures Valid() && fresh(rxPacket) && View() == Begin(connects)
    {
      rxPacket := new u8[256];
      rxPacketLength, flashAddress, flashSize, flashStep, gcfSeq, timer, asked := 0, 0, 0, 0, 1, false, [];
      state := if connects then Query else Connect;
      evAction, running := connects, connects;
    }

    method CommandReadFlash(address: u32) returns (bytes: seq<u8>)
      modifies `gcfSeq
      ensures bytes == ReadCommand(old(gcfSeq), address) && gcfSeq as int == (old(gcfSeq) as int + 1) % 0x100
    {
      bytes := BuildReadCommand(gcfSeq, address);
      gcfSeq := (gcfSeq as int + 1) % 0x100;
    }

    /** EV_ACTION */
    method Action()
      requires Valid()
      modifies this
      ensures Valid() && View() == Act(old(View()))
    {
      hide ReadCommand;
      match state
      case Query =>
        timer := true;
      case Send =>
        if flashAddress == flashSize {
          running := false;
        } else {
          timer := true;
          var cmd := CommandReadFlash(flashAddress);
          asked := asked + [cmd];
          state := Wait;
        }
      case _ =>
    }

    /** EV_RX_PKG_DATA in ST_DumpFlashQueryFirmwareVersion. */
    method CheckFirmware()
      requires Valid() && state.Query? && rxPacketLength > 0
      modifies this
      ensures Valid() && View() == Respond(old(View()), rxPacket[..old(rxPacketLength)])
    {
      var bs := new BStream(rxPacket, rxPacketLength);
      var cmd := ReadByte(bs, rxPacket[..rxPacketLength], 0);
      if cmd == CMD_FIRMWARE_VERSION {
        timer := false;
        var fwVersion := ReadVersion(bs, rxPacket[..rxPacketLength]);
        if Byte1(fwVersion) == PLATFORM_R21 {
          flashSize, flashAddress, flashStep := END, START, STEP;
          state, evAction := Send, true;
        } else {
          running := false;
        }
      }
    }

    /** EV_RX_PKG_DATA in ST_DumpFlashWait, but for the line it prints. */
    method CheckResponse()
      requires Valid() && state.Wait? && rxPacketLength > 0
      modifies this
      ensures Valid() && View() == Respond(old(View()), rxPacket[..old(rxPacketLength)])
    {
      ghost var p := rxPacket[..rxPacketLength];
      var bs := new BStream(rxPacket, rxPacketLength);
      var cmd := ReadByte(bs, p, 0);
      var _ := ReadByte(bs, p, 1); // sequence number
      var status := ReadByte(bs, p, 2);
      if cmd == CMD_READ_REGISTER {
        timer := false;
        if status == STATUS_SUCCESS || status == STATUS_EOFFSET {
          flashAddress := (flashAddress as int + flashStep as int) % 0x1_0000_0000;
          state, evAction := Send, true;
        } else {
          running := false;
        }
      }
    }

    method CopyPacket(p: seq<u8>)
      requires Valid() && |p| < 256
      modifies `rxPacketLength, rxPacket
      ensures Valid() && rxPacketLength == |p| && rxPacket[..rxPacketLength] == p
    {
      for i := 0 to |p|
        invariant rxPacket[..i] == p[..i]
      {
        rxPacket[i] := p[i];
      }
      rxPacketLength := |p|;
    }

    /** The end of `PROT_Packet`. */
    method Deliver(p: seq<u8>)
      requires Valid() && p != []
      modifies this, rxPacket
      ensures Valid() && View() == Handle(old(View()), Packet(p))
    {
      if |p| < 256 {
        CopyPacket(p);
        match state
        case Query => CheckFirmware();
        case Wait => CheckResponse();
        case _ =>
      }
    }

    method HandleEvent(ev: Event)
      requires Valid()
      modifies this, rxPacket
      ensures Valid() && View() == Handle(old(View()), ev)
    {
      hide Act, Respond;
      match ev
      case Loop =>
        if running && evAction {
          evAction := false;
          Action();
        }
      case Packet(p) =>
        if p != [] {
          Deliver(p);
        }
      case Expired =>
        if timer {
          timer := false;
          if state.Query? || state.Wait? {
            running := false;
          }
        }
      case Disconnected =>
    }
  }

  /** A dump from its start to any point of its run: its requests are in order, and it never stalls. */
  method RunDump(connects: bool, evs: seq<Event>) returns (m: Machine)
    ensures fresh(m) && m.Valid() && m.View() == Run(connects, evs)
    ensures |m.asked| <= REQUESTS && (m.running ==> m.evAction || m.timer)
    ensures forall k | 0 <= k < |m.asked| :: |m.asked[k]| == 13 && FromLe32(m.asked[k][8..12]) as int == Address(k)
  {
    hide Handle;
    m := new Machine(connects);
    for i := 0 to |evs|
      invariant fresh(m) && fresh(m.rxPacket) && m.Valid() && m.View() == Run(connects, evs[..i])
    {
      assert evs[..i + 1][..i] == evs[..i];
      m.HandleEvent(evs[i]);
    }
    assert evs[..|evs|] == evs;
    RequestsInOrder(connects, evs);
    NeverStalls(connects, evs);
  }

  /** Behind the command byte: sequence number, status and length are skipped. */
  method ReadVersion(bs: BStream, ghost p: seq<u8>) returns (version: u32)
    requires bs.Valid() && Reading(bs.View(), p, 1)
    modifies bs
    ensures version == VersionOf(p)
  {
    hide Reading, FromLe16, FromLe32, BStream.View;
    var _ := ReadByte(bs, p, 1);
    var _ := ReadByte(bs, p, 2);
    var _ := ReadHalf(bs, p, 3);
    version := ReadWord(bs, p, 5);
  }

  /** The command, field by field, in a buffer of 32 bytes. */
  method BuildReadCommand(seqNum: u8, address: u32) returns (bytes: seq<u8>)
    ensures bytes == ReadCommand(seqNum, address)
  {
    var cmd := new u8[32];
    var bs := new BStream(cmd, 32);
    NothingFilled(bs.View());
    hide Le16, Le32, Stream.Put, Filled;
    PutField1(bs, CMD_READ_REGISTER, []);
    ghost var all := [CMD_READ_REGISTER];
    assert [] + all == all;
    PutField1(bs, seqNum, all);
    PutField1(bs, 0, all + [seqNum]);
    all := all + [seqNum] + [0];
    PutField2(bs, 13, all);
    PutField2(bs, 6, all + Le16(13));
    all := all + Le16(13) + Le16(6);
    PutField1(bs, 2, all);
    PutField4(bs, address, all + [2]);
    PutField1(bs, STEP as int, all + [2] + Le32(address));
    hide ReadCommand;
    bytes := TakeWritten(bs, cmd, ReadCommand(seqNum, address));
  }

  method TakeWritten(bs: BStream, buf: array<u8>, ghost all: seq<u8>) returns (bytes: seq<u8>)
    requires bs.Valid() && bs.data == buf && Filled(bs.View(), 32, all) && |all| <= 32
    ensures bytes == all
  {
    FilledMeans(bs.View(), 32, all);
    bytes := buf[..bs.pos];
    assert bytes == bs.View().Written();
  }

  method PutField4(bs: BStream, v: u32, ghost all: seq<u8>)
    requires bs.Valid() && bs.data != null && Filled(bs.View(), 32, all) && |all| + 4 <= 32
    modifies bs, bs.data
    ensures bs.Valid() && Filled(bs.View(), 32, all + Le32(v))
  {
    FilledPut(bs.View(), 32, all, Le32(v));
    bs.PutU32Le(v);
  }

  method PutField1(bs: BStream, v: u8, ghost all: seq<u8>)
    requires bs.Valid() && bs.data != null && Filled(bs.View(), 32, all)
    modifies bs, bs.data
    ensures bs.Valid() && Filled(bs.View(), 32, all + [v])
  {
    FilledPut(bs.View(), 32, all, [v]);
    bs.PutU8(v);
  }

  method PutField2(bs: BStream, v: u16, ghost all: seq<u8>)
    requires bs.Valid() && bs.data != null && Filled(bs.View(), 32, all) && |all| + 2 <= 32
    modifies bs, bs.data
    ensures bs.Valid() && Filled(bs.View(), 32, all + Le16(v))
  {
    FilledPut(bs.View(), 32, all, Le16(v));
    bs.PutU16Le(v);
  }
}
