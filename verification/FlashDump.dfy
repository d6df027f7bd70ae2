/** The flash dump of gcf.c: read the flash of a device in steps of 32 bytes, one request at a time. */
module FlashDump {
  import opened Bytes

  const START: u32 := 0x5100
  const END: u32 := 0x4_0000
  const STEP: u32 := 32
  const REQUESTS: nat := 7544
  const CMD_FIRMWARE_VERSION: u8 := 0x0D
  const CMD_READ_REGISTER: u8 := 0x18
  const STATUS_SUCCESS: u8 := 0x00
  const STATUS_EOFFSET: u8 := 0x09
  const PLATFORM_R21: u8 := 0x07

  datatype Phase = Connect | Query | Send | Wait

  /** `pending` is `evAction`, `armed` says whether a timeout is set, `asked` the read commands sent. */
  datatype Dump = Dump(
    phase: Phase,
    pending: bool,
    address: u32,
    size: u32,
    step: u32,
    seqNum: u8,
    armed: bool,
    running: bool,
    asked: seq<seq<u8>>)

  /** What the main loop and the receiver may do; a lost device is only noticed by the timeout. */
  datatype Event = Loop | Packet(p: seq<u8>) | Expired | Disconnected

  /** `gcfCommandReadFlash` */
  function ReadCommand(seqNum: u8, address: u32): seq<u8> {
    [CMD_READ_REGISTER] + [seqNum] + [0] + Le16(13) + Le16(6) + [2] + Le32(address) + [STEP as int]
  }

  lemma CommandFields(seqNum: u8, address: u32)
    ensures
      var c := ReadCommand(seqNum, address);
      |c| == 13 && c[0] == 0x18 && c[1] == seqNum && c[2..8] == [0, 13, 0, 6, 0, 2] &&
      FromLe32(c[8..12]) == address && c[12] == 32
  {
    assert ReadCommand(seqNum, address)[8..12] == Le32(address);
    LeRoundTrip(address);
  }

  // ----- reading responses: what is not there reads as zero -----

  function StatusOf(p: seq<u8>): u8 { if |p| >= 3 then p[2] else 0 }

  function VersionOf(p: seq<u8>): u32 { if |p| >= 9 then FromLe32(p[5..9]) else 0 }

  // ----- handlers -----

  /** ST_DumpFlashConnect at EV_ACTION. */
  function Begin(connects: bool): Dump {
    if connects then Dump(Query, true, 0, 0, 0, 1, false, true, [])
    else Dump(Connect, false, 0, 0, 0, 1, false, false, [])
  }

  function Act(d: Dump): Dump {
    match d.phase
    case Query => d.(armed := true)
    case Send =>
      if d.address == d.size then d.(running := false)
      else
        d.(armed := true, phase := Wait, asked := d.asked + [ReadCommand(d.seqNum, d.address)],
           seqNum := (d.seqNum as int + 1) % 0x100)
    case _ => d
  }

  function Respond(d: Dump, p: seq<u8>): Dump
    requires p != []
  {
    if d.phase.Query? && p[0] == CMD_FIRMWARE_VERSION then
      if Byte1(VersionOf(p)) == PLATFORM_R21 then
        d.(armed := false, size := END, address := START, step := STEP, phase := Send, pending := true)
      else d.(armed := false, running := false)
    else if d.phase.Wait? && p[0] == CMD_READ_REGISTER then
      if StatusOf(p) == STATUS_SUCCESS || StatusOf(p) == STATUS_EOFFSET then
        d.(armed := false, address := (d.address as int + d.step as int) % 0x1_0000_0000,
           phase := Send, pending := true)
      else d.(armed := false, running := false)
    else d
  }

  function Handle(d: Dump, ev: Event): Dump {
    match ev
    case Loop => if d.running && d.pending then Act(d.(pending := false)) else d
    case Packet(p) => if p != [] && |p| < 256 then Respond(d, p) else d
    case Expired =>
      if !d.armed then d
      else if d.phase.Query? || d.phase.Wait? then d.(armed := false, running := false)
      else d.(armed := false)
    case Disconnected => d
  }

  function Run(connects: bool, evs: seq<Event>): Dump {
    if evs == [] then Begin(connects) else Handle(Run(connects, evs[..|evs| - 1]), evs[|evs| - 1])
  }

  /**
   A device starts the dump if and only if the second byte of its firmware version, counted from the low
   end, is 7; any other version ends the program.
   */
  lemma DumpStartsIff(d: Dump, p: seq<u8>)
    requires d.phase.Query? && d.running
    ensures
      var r := Handle(d, Packet(p));
      if p == [] || |p| >= 256 || p[0] != 0x0D then r == d
      else if |p| >= 9 && p[6] == 0x07 then
        r.phase.Send? && r.pending && r.running && !r.armed && r.address == 0x5100 && r.size == 0x4_0000
      else !r.running
  {
    if |p| >= 9 { SecondByte(p[5..9]); }
  }

  /** Silence where a response is waited for ends the program, and only the timeout that was set is one. */
  lemma SilenceEnds(d: Dump)
    ensures var r := Handle(d, Expired);
            r.asked == d.asked && r.phase == d.phase && !r.armed &&
            (r.running <==> d.running && !(d.armed && (d.phase.Query? || d.phase.Wait?)))
  {
  }

  lemma SecondByte(b: seq<u8>)
    requires |b| == 4
    ensures Byte1(FromLe32(b)) == b[1]
  {
    LeBytesRoundTrip(b);
    assert Le32(FromLe32(b))[1] == b[1];
  }

  /** A response to a read: status 0 and status 9 go on 32 bytes further, any other status ends the program. */
  lemma ResponseTaken(d: Dump, p: seq<u8>)
    requires d.phase.Wait? && d.running && d.step == 32
    ensures
      var r := Handle(d, Packet(p));
      if p == [] || |p| >= 256 || p[0] != 0x18 then r == d
      else if |p| < 3 || p[2] == 0 || p[2] == 9 then
        r.phase.Send? && r.pending && r.running && !r.armed && r.asked == d.asked &&
        r.address as int == (d.address as int + 32) % 0x1_0000_0000
      else !r.running
  {
  }

  // ----- whole runs -----

  function Address(k: nat): nat { START as int + STEP as int * k }

  /** The commands for the first `k` addresses, numbered from 1 on. */
  function Reads(k: nat): (r: seq<seq<u8>>)
    requires k <= REQUESTS
    ensures |r| == k
  {
    seq(k, i requires 0 <= i < k => ReadCommand((1 + i) % 0x100, Address(i)))
  }

  ghost predicate Inv(d: Dump) {
    var k := |d.asked|;
    k <= REQUESTS && d.asked == Reads(k) && d.seqNum as int == (1 + k) % 0x100 &&
    match d.phase
    case Connect => k == 0 && !d.running
    case Query => k == 0 && (d.running ==> d.pending || d.armed)
    case Send => d.size == END && d.step == STEP && d.address as int == Address(k) && (d.running ==> d.pending)
    case Wait =>
      d.size == END && d.step == STEP && k >= 1 && d.address as int == Address(k - 1) && !d.pending &&
      (d.running ==> d.armed)
  }

  lemma ReadsGrow(k: nat)
    requires k < REQUESTS
    ensures Reads(k + 1) == Reads(k) + [ReadCommand((1 + k) % 0x100, Address(k))]
  {
  }

  lemma ActKeeps(d: Dump)
    requires Inv(d.(pending := true)) && d.running && !d.pending
    ensures Inv(Act(d))
  {
    hide ReadCommand, Reads;
    var k := |d.asked|;
    if d.phase.Send? && d.address != d.size {
      assert k < REQUESTS;
      ReadsGrow(k);
    }
  }

  lemma HandleKeeps(d: Dump, ev: Event)
    requires Inv(d)
    ensures Inv(Handle(d, ev))
  {
    hide ReadCommand, Reads, Act;
    if ev.Loop? && d.running && d.pending {
      assert d.(pending := false).(pending := true) == d;
      ActKeeps(d.(pending := false));
    }
  }

  lemma {:induction false} RunKeeps(connects: bool, evs: seq<Event>)
    ensures Inv(Run(connects, evs))
  {
    hide Inv, Handle;
    if evs == [] {
      BeginOk(connects);
    } else {
      RunKeeps(connects, evs[..|evs| - 1]);
      HandleKeeps(Run(connects, evs[..|evs| - 1]), evs[|evs| - 1]);
    }
  }

  lemma BeginOk(connects: bool)
    ensures Inv(Begin(connects))
  {
  }

  /**
   Under every sequence of responses, duplicates, errors and timeouts the addresses requested are
   exactly 0x5100, 0x5120, ... in order and without repetition; the address never passes 0x40000,
   so the test for equality ends the dump, and at most 7544 requests are sent.
   */
  lemma RequestsInOrder(connects: bool, evs: seq<Event>)
    ensures
      var d := Run(connects, evs);
      |d.asked| <= REQUESTS &&
      (forall k | 0 <= k < |d.asked| ::
         |d.asked[k]| == 13 && d.asked[k][0] == 0x18 && d.asked[k][1] as int == (1 + k) % 256 &&
         FromLe32(d.asked[k][8..12]) as int == 0x5100 + 32 * k < 0x4_0000 && d.asked[k][12] == 32) &&
      ((d.phase.Send? || d.phase.Wait?) ==> d.address as int % 32 == 0 && d.address <= 0x4_0000)
  {
    RunKeeps(connects, evs);
    var d := Run(connects, evs);
    hide Run;
    forall k | 0 <= k < |d.asked|
      ensures
        |d.asked[k]| == 13 && d.asked[k][0] == 0x18 && d.asked[k][1] as int == (1 + k) % 256 &&
        FromLe32(d.asked[k][8..12]) as int == 0x5100 + 32 * k < 0x4_0000 && d.asked[k][12] == 32
    {
      assert d.asked[k] == Reads(|d.asked|)[k];
      CommandFields((1 + k) % 0x100, Address(k));
    }
  }

  /** The dump never waits for something that cannot come: an action is due or a timeout is set. */
  lemma NeverStalls(connects: bool, evs: seq<Event>)
    ensures var d := Run(connects, evs);
            d.running ==> d.pending || d.armed
  {
    RunKeeps(connects, evs);
  }

  // ----- a dump that goes well -----

  /** A response that lets the dump go on. */
  predicate Good(p: seq<u8>) {
    p != [] && |p| < 256 && p[0] == CMD_READ_REGISTER &&
    (StatusOf(p) == STATUS_SUCCESS || StatusOf(p) == STATUS_EOFFSET)
  }

  /** Request, response, request, response, ... */
  function Rounds(d: Dump, ps: seq<seq<u8>>): Dump {
    if ps == [] then d
    else Handle(Handle(Rounds(d, ps[..|ps| - 1]), Loop), Packet(ps[|ps| - 1]))
  }

  lemma OneRound(d: Dump, p: seq<u8>)
    requires Inv(d) && d.phase.Send? && d.running && |d.asked| < REQUESTS && Good(p)
    ensures
      var r := Handle(Handle(d, Loop), Packet(p));
      Inv(r) && r.phase.Send? && r.running && |r.asked| == |d.asked| + 1
  {
    HandleKeeps(d, Loop);
    HandleKeeps(Handle(d, Loop), Packet(p));
    hide ReadCommand, Reads;
  }

  lemma {:induction false} RoundsAdvance(d: Dump, ps: seq<seq<u8>>)
    requires Inv(d) && d.phase.Send? && d.running && |d.asked| + |ps| <= REQUESTS
    requires forall p <- ps :: Good(p)
    ensures
      var r := Rounds(d, ps);
      Inv(r) && r.phase.Send? && r.running && |r.asked| == |d.asked| + |ps|
  {
    hide Inv, Handle, Good;
    if ps != [] {
      RoundsAdvance(d, ps[..|ps| - 1]);
      OneRound(Rounds(d, ps[..|ps| - 1]), ps[|ps| - 1]);
    }
  }

  /**
   From any point of any run that is about to send, good responses all the way end the dump by
   itself, after exactly 7544 requests in all.
   */
  lemma DumpCompletes(connects: bool, evs: seq<Event>, ps: seq<seq<u8>>)
    requires var d := Run(connects, evs);
             d.phase.Send? && d.running && |d.asked| + |ps| == REQUESTS
    requires forall p <- ps :: Good(p)
    ensures
      var r := Handle(Rounds(Run(connects, evs), ps), Loop);
      !r.running && r.asked == Reads(REQUESTS)
  {
    hide Rounds, Good, Reads, Run;
    RunKeeps(connects, evs);
    RoundsAdvance(Run(connects, evs), ps);
  }
}
