/**
 The event-driven flasher of gcf.c on the platform layer of main_posix.c, as functions on its
 state: what every handler does, for the tasks "program" and "reset".
 */
module Flasher {
  import opened Bytes
  import opened Framing
  import opened GcfFile
  import opened Input
  import opened TextStream
  import opened Trace
  import opened Transmit

  datatype State =
    | Void | Init | Program | Reset | BootloaderConnect | BootloaderQuery
    | V1Sync | V1WriteHeader | V1Upload | V1Validate
    | V3Sync | V3Upload | V3WaitID

  datatype Substate = NoSub | ResetUart | ResetFtdi | ResetRaspBee

  datatype Event =
    | Action | Started | Timeout | Disconnected
    | RxAscii | RxBootloader | RxPacket | PkgUartReset
    | ResetSuccess | ResetFailed
    | UartResetSuccess | UartResetFailed
    | FtdiResetSuccess | FtdiResetFailed
    | RaspBeeResetSuccess | RaspBeeResetFailed

  datatype Device = Unknown | RaspBee1 | RaspBee2 | ConBee1 | ConBee2 | Hive

  datatype Task = TaskReset | TaskProgram

  /** The command line: it reads the same on every pass. `seconds` is the argument of -t. */
  datatype Config = Config(task: Task, device: Device, file: seq<u8>, seconds: Option<nat>)

  type HostRx = r: Rx | |r.buf| <= HOST_BUFFER witness CLEAN

  /** The fields of `GCF` and of the platform that programming uses. */
  datatype G = G(
    state: State,
    substate: Substate,
    ascii: InputBuffer,
    wp: InputIndex,
    retry: nat,
    remaining: nat,
    maxTime: nat,
    timer: nat,             // 0: no timeout armed
    running: bool,
    trapped: bool,          // a failed Assert stops the program
    port: Port,
    rx: HostRx,
    calls: nat,             // how many answers of the environment are used up
    trace: seq<Note>)

  const V1_SYNC: seq<u8> := [0x1A, 0x1C, 0xA9, 0xAE]
  const BTL_MAGIC: u8 := 0x81
  const BTL_ID_RESPONSE: u8 := 0x82
  const BTL_FW_UPDATE_RESPONSE: u8 := 0x83
  const BTL_FW_DATA_REQUEST: u8 := 0x04
  const CMD_WRITE_PARAMETER: u8 := 0x0B
  const PARAM_WATCHDOG_TIMEOUT: u8 := 0x26
  const CMD_RESET_UART: seq<u8> := [0x0B, 0x03, 0x00, 0x0C, 0x00, 0x05, 0x00, 0x26, 0x02, 0x00, 0x00, 0x00]
  const CMD_QUERY_FIRMWARE: seq<u8> := [0x0D, 0x05, 0x00, 0x09, 0x00, 0x00, 0x00, 0x00, 0x00]
  const MAX_CHUNK: nat := 480

  /**
   The outcome of `poll` and of the reads it leads to: nothing for 5 ms, an error, or a hangup of
   the device, bytes from the device (none if `data` is empty) and the end of the standard input.
   */
  datatype Poll = Idle | Failed | Polled(hangup: bool, data: seq<u8>, eof: bool)

  /** The reply to a V3 data request. */
  function DataResponse(status: u8, offset: u32, length: u16, data: seq<u8>): seq<u8> {
    [BTL_MAGIC, 0x84, status] + Le32(offset) + Le16(length) + data
  }

  function DataStatus(size: nat, offset: u32, length: u16): u8 {
    if offset as int + length as int > size then 1
    else if length as int > MAX_CHUNK then 2
    else if length == 0 then 3
    else 0
  }

  function ReplyData(image: seq<u8>, offset: u32, length: u16): (d: seq<u8>)
    ensures |d| <= MAX_CHUNK
  {
    if DataStatus(|image|, offset, length) == 0 then image[offset as int..offset as int + length as int] else []
  }

  /** The reply to a data request, and the number of bytes from its offset to the end of the image. */
  function Reply(image: seq<u8>, offset: u32, length: u16): (r: seq<u8>)
    ensures 9 <= |r| <= 9 + MAX_CHUNK
  {
    DataResponse(DataStatus(|image|, offset, length), offset, length, ReplyData(image, offset, length))
  }

  function Remaining(size: nat, offset: u32, length: u16): (n: nat)
    ensures n <= size
  {
    if DataStatus(size, offset, length) == 0 then size - offset as int else 0
  }

  /** Events that re-arm the timer, or end the program, whatever the timer was. */
  predicate Rearms(g: G, ev: Event) {
    match ev
    case Started => g.state.Init?
    case Timeout => Resting(g)
    case Action =>
      (match g.state
       case Program | Reset | BootloaderQuery | V1Sync | V1WriteHeader | V3Sync => true
       case _ => false)
    case ResetSuccess => g.state.Program?
    case UartResetSuccess | UartResetFailed | FtdiResetSuccess | FtdiResetFailed
       | RaspBeeResetSuccess | RaspBeeResetFailed => g.state.Reset?
    case _ => false
  }

  /** The states the flasher may be in between events. */
  predicate Resting(g: G) {
    match g.state
    case Init | BootloaderConnect | BootloaderQuery | V1Sync | V1Upload | V1Validate
       | V3Sync | V3Upload | V3WaitID => true
    case Reset => g.substate.ResetUart?
    case Void | Program | V1WriteHeader => false
  }

  /** Not stalled: still running means waiting in a resting state with a timeout armed. */
  predicate Alive(g: G) { g.running && !g.trapped ==> g.timer != 0 && Resting(g) }

  /** The rank that every synchronous event strictly lowers; it bounds the nesting of events. */
  function Rank(state: State, ev: Event): (r: nat)
    ensures r <= 9
  {
    match ev
    case Started | Timeout => 9
    case Action => if state.Program? then 8 else if state.Reset? then 7 else 5
    case RxAscii => if state.BootloaderConnect? then 7 else 6
    case RxBootloader => 6
    case UartResetFailed => 5
    case PkgUartReset | Disconnected => 4
    case FtdiResetFailed | RaspBeeResetFailed => 3
    case UartResetSuccess | FtdiResetSuccess | RaspBeeResetSuccess => 2
    case ResetSuccess => 1
    case RxPacket | ResetFailed => 0
  }

  function ShutDown(g: G): G { g.(running := false) }

  function ClearTimeout(g: G): G { g.(timer := 0) }

  function Log(g: G, n: Note): G { g.(trace := g.trace + [n]) }

  function LogWord(g: G, k: Keyword): G { Log(Log(g, Words(g.ascii[..g.wp])), Saw(k)) }

  /** A bootloader packet in the receive buffer. */
  function Deliver(g: G, p: seq<u8>): G
    requires |p| < ASCII_SIZE
  {
    Log(g.(ascii := Overwrite(g.ascii, p), wp := |p|), Got(p))
  }

  /** An empty text in the receive buffer. */
  function ResetInput(g: G): G { g.(wp := 0, ascii := g.ascii[0 := 0]) }

  /** `U_sstream_find` on the receive buffer. */
  predicate Finds(g: G, k: Keyword) { Contains(g.ascii[..g.wp], k.Text()) }

  /**
   The program in its environment. Each use of the environment takes the answer numbered by
   `calls`: the clock, whether a device file opens, whether a reset pin works, whether the firmware
   file can still be read, and what `write` accepts during a flush.
   */
  datatype World = World(
    cfg: Config,
    now: nat -> nat,
    opens: nat -> bool,
    resets: nat -> bool,
    loads: nat -> bool,
    writes: nat -> seq<WriteOutcome>)
  {
    // ----- the firmware file -----

    function Head(): Header {
      if Parse(cfg.file).Parsed? then Parse(cfg.file).header else Header(0, 0, 0, 0, 0, 0)
    }

    function Image(): (r: seq<u8>)
      ensures |r| == Head().size
    {
      if Parse(cfg.file).Parsed? then Payload(cfg.file, Head()) else []
    }

    // ----- clock and timer -----

    /** `GCF_Init` read the clock first. */
    function StartTime(): nat { now(0) }

    function SetTimeout(g: G, ms: nat): G {
      g.(timer := now(g.calls) + ms, calls := g.calls + 1)
    }

    // ----- serial port -----

    /** `PL_Connect`: whether it reported success is whether the port is connected afterwards. */
    function Connect(g: G): G {
      if g.port.connected then g
      else g.(port := Port(opens(g.calls), [], g.port.wire), calls := g.calls + 1)
    }

    function FlushPort(g: G): G
      decreases 5, 0
    {
      if g.port.connected then g.(port := Transmit.Flush(g.port, writes(g.calls)), calls := g.calls + 1)
      else Handle(g.(port := g.port.(queue := [])), Disconnected)
    }

    function Write(g: G, bytes: seq<u8>): G
      decreases 5, 1
    {
      FlushPort(if g.port.connected then Log(g.(port := PutAll(g.port, bytes)), Sent(bytes)) else g)
    }

    function SendFlagged(g: G, bytes: seq<u8>): G
      decreases 5, 1
    {
      FlushPort(if g.port.connected then Log(g.(port := PutAll(g.port, Frame(bytes))), Framed(bytes)) else g)
    }

    function Disconnect(g: G): G
      decreases 5, 0
    {
      Handle(g.(port := Port(false, [], g.port.wire)), Disconnected)
    }

    // ----- dispatch -----

    /** `GCF_HandleEvent` */
    function Handle(g: G, ev: Event): G
      decreases Rank(g.state, ev), 3
    {
      match g.state
      case Void => g
      case Init => StInit(g, ev)
      case Program => StProgram(g, ev)
      case Reset => StReset(g, ev)
      case BootloaderConnect => StBootloaderConnect(g, ev)
      case BootloaderQuery => StBootloaderQuery(g, ev)
      case V1Sync => StV1Sync(g, ev)
      case V1WriteHeader => StV1WriteHeader(g, ev)
      case V1Upload => StV1Upload(g, ev)
      case V1Validate => StV1Validate(g, ev)
      case V3Sync => StV3Sync(g, ev)
      case V3Upload => StV3Upload(g, ev)
      case V3WaitID => StV3WaitID(g, ev)
    }

    predicate CommandlineOk() { cfg.task.TaskReset? || Parse(cfg.file).Parsed? }

    /** `gcfProcessCommandline` on success. */
    function ProcessCommandline(g: G): G {
      var maxTime := if cfg.seconds.Some? then cfg.seconds.value * 1000 + StartTime() else g.maxTime;
      if cfg.task.TaskReset? then
        Log(Log(g.(state := Reset, substate := NoSub, maxTime := maxTime), Pass), EnterReset)
      else
        Log(g.(state := Program, substate := NoSub,
               maxTime := if maxTime < StartTime() then 10000 + StartTime() else maxTime), Pass)
    }

    function StInit(g: G, ev: Event): G
      requires g.state.Init?
      decreases Rank(g.state, ev), 2
    {
      if !(ev.Started? || ev.Timeout?) then g
      else
        var g1 := g.(calls := g.calls + 1);
        if loads(g.calls) && CommandlineOk() then Handle(ProcessCommandline(g1), Action)
        else if loads(g.calls) && cfg.task.TaskProgram? && Parse(cfg.file).Trapped? then
          g1.(state := Void, substate := NoSub, trapped := true)
        else ShutDown(g1.(state := Void, substate := NoSub))
    }

    function StProgram(g: G, ev: Event): G
      requires g.state.Program?
      decreases Rank(g.state, ev), 2
    {
      match ev
      case Action => Handle(Log(g.(state := Reset), EnterReset), Action)
      case ResetSuccess =>
        if cfg.device.RaspBee1? || cfg.device.ConBee1? then SetTimeout(g.(state := BootloaderQuery), 5000)
        else SetTimeout(g.(state := BootloaderConnect), 500)
      case ResetFailed => ShutDown(g)
      case _ => g
    }

    function StReset(g: G, ev: Event): G
      requires g.state.Reset?
      decreases Rank(g.state, ev), 2
    {
      match ev
      case Action => StResetUart(g.(wp := 0, substate := ResetUart), Action)
      case UartResetSuccess | FtdiResetSuccess | RaspBeeResetSuccess =>
        var g1 := g.(substate := NoSub);
        if cfg.task.TaskReset? then ShutDown(g1)
        else Handle(Log(g1.(state := Program), LeaveReset), ResetSuccess)
      case UartResetFailed =>
        var pinned := cfg.device.ConBee1? || cfg.device.RaspBee1? || cfg.device.RaspBee2?;
        var g1 := if pinned then Connect(g) else g;
        if !pinned || !g1.port.connected then Handle(SetTimeout(g1, 500), UartResetSuccess)
        else if cfg.device.ConBee1? then StResetFtdi(g1.(substate := ResetFtdi), Action)
        else StResetRaspBee(g1.(substate := ResetRaspBee), Action)
      case FtdiResetFailed => Handle(SetTimeout(g, 1), FtdiResetSuccess)
      case RaspBeeResetFailed => Handle(SetTimeout(g, 1), RaspBeeResetSuccess)
      case _ =>
        match g.substate
        case NoSub => g
        case ResetUart => StResetUart(g, ev)
        case ResetFtdi => StResetFtdi(g, ev)
        case ResetRaspBee => StResetRaspBee(g, ev)
    }

    function StResetUart(g: G, ev: Event): G
      requires g.state.Reset?
      decreases Rank(g.state, ev), 1
    {
      match ev
      case Action =>
        var g1 := Connect(SetTimeout(g, 3000));
        if !g1.port.connected then g1
        else SendFlagged(if cfg.task.TaskReset? then SendFlagged(g1, CMD_QUERY_FIRMWARE) else g1, CMD_RESET_UART)
      case RxBootloader =>
        if g.ascii[1] == BTL_ID_RESPONSE then
          Handle(SetTimeout(g, 100), UartResetSuccess)
        else g
      case Disconnected => Handle(SetTimeout(g, 500), UartResetSuccess)
      case PkgUartReset =>
        if cfg.device.RaspBee1? || cfg.device.ConBee1? then Handle(ClearTimeout(g), UartResetSuccess) else g
      case Timeout => Handle(Disconnect(g.(substate := NoSub)), UartResetFailed)
      case _ => g
    }

    function StResetFtdi(g: G, ev: Event): G
      requires g.state.Reset?
      decreases if ev.Action? then 4 else 0, 0
    {
      if !ev.Action? then g
      else
        var g1 := Log(g, FtdiReset).(calls := g.calls + 1);
        Handle(g1, if resets(g.calls) then FtdiResetSuccess else FtdiResetFailed)
    }

    function StResetRaspBee(g: G, ev: Event): G
      requires g.state.Reset?
      decreases if ev.Action? then 4 else 0, 0
    {
      if !ev.Action? then g
      else
        var g1 := Log(g, PinReset).(calls := g.calls + 1);
        Handle(g1, if resets(g.calls) then RaspBeeResetSuccess else RaspBeeResetFailed)
    }

    function StBootloaderConnect(g: G, ev: Event): G
      requires g.state.BootloaderConnect?
      decreases Rank(g.state, ev), 2
    {
      match ev
      case Timeout =>
        var g1 := Connect(g);
        if g1.port.connected then Handle(g1.(state := BootloaderQuery), Action) else SetTimeout(g1, 500)
      case RxAscii =>
        Handle(SetTimeout(g.(state := BootloaderQuery, substate := NoSub), 100), RxAscii)
      case _ => g
    }

    /** `gcfRetry` */
    function Retry(g: G): G {
      var g1 := g.(calls := g.calls + 1);
      if g.maxTime > now(g.calls) then
        SetTimeout(Log(g1, Restart(now(g.calls))).(state := Init, substate := NoSub), 250)
      else ShutDown(g1)
    }

    function StBootloaderQuery(g: G, ev: Event): G
      requires g.state.BootloaderQuery?
      decreases Rank(g.state, ev), 2
    {
      match ev
      case Action => SetTimeout(g.(retry := 0, wp := 0, ascii := seq(ASCII_SIZE, _ => 0)), 200)
      case Timeout =>
        var g1 := g.(retry := g.retry + 1);
        if g1.retry == 3 then Retry(g1)
        else if Head().fileType < 30 then SetTimeout(Write(g1, Ascii("ID")), 200)
        else SetTimeout(SendFlagged(g1, [BTL_MAGIC, 0x02]), 200)
      case RxAscii =>
        if 32 < g.wp && g.ascii[g.wp - 1] == 10 && Finds(g, Bootloader) then
          Handle(LogWord(ClearTimeout(g), Bootloader).(state := V1Sync), Action)
        else g
      case RxBootloader =>
        if g.ascii[1] == BTL_ID_RESPONSE then Handle(g.(state := V3Sync), Action) else g
      case Disconnected => Retry(g)
      case _ => g
    }

    function StV1Sync(g: G, ev: Event): G
      requires g.state.V1Sync?
      decreases Rank(g.state, ev), 2
    {
      match ev
      case Action => SetTimeout(Write(ResetInput(g), V1_SYNC), 500)
      case RxAscii =>
        if 4 < g.wp && Finds(g, Ready) then
          Handle(LogWord(ClearTimeout(g), Ready).(state := V1WriteHeader), Action)
        else SetTimeout(g, 500)
      case Timeout => Retry(g)
      case _ => g
    }

    function StV1WriteHeader(g: G, ev: Event): G
      requires g.state.V1WriteHeader?
      decreases Rank(g.state, ev), 2
    {
      if !ev.Action? then g
      else SetTimeout(Write(ResetInput(g).(state := V1Upload), V1Header(Head())), 1000)
    }

    function StV1Upload(g: G, ev: Event): G
      requires g.state.V1Upload?
      decreases Rank(g.state, ev), 2
    {
      match ev
      case RxAscii =>
        if g.wp < 6 || g.ascii[0] != 71 || g.ascii[5] != 59 then g
        else
          SendPage(g, FromLe16(g.ascii[3..5]))
      case Timeout => Retry(g)
      case _ => g
    }

    function SendPage(g: G, n: u16): G
      requires g.state.V1Upload?
      decreases 5, 2
    {
      if n as int * V1_PAGESIZE >= |Image()| then g.(trapped := true)
      else
        var page := Page(Image(), n);
        var g1 := Write(ResetInput(g).(remaining := |Image()| - n as int * V1_PAGESIZE), page);
        if g1.remaining == |page| then SetTimeout(g1.(state := V1Validate), 25600) else SetTimeout(g1, 2000)
    }

    function StV1Validate(g: G, ev: Event): G
      requires g.state.V1Validate?
      decreases Rank(g.state, ev), 2
    {
      match ev
      case RxAscii =>
        if 6 < g.wp && Finds(g, ValidCrc) then
          ShutDown(Log(LogWord(g, ValidCrc), V1Done))
        else SetTimeout(g, 1000)
      case Timeout => Retry(g)
      case _ => g
    }

    function StV3Sync(g: G, ev: Event): G
      requires g.state.V3Sync?
      decreases Rank(g.state, ev), 2
    {
      match ev
      case Action => SendFlagged(SetTimeout(g, 1000), V3SyncRequest(Head()))
      case RxBootloader =>
        if g.ascii[1] == BTL_FW_UPDATE_RESPONSE && g.ascii[2] == 0 then
          SetTimeout(Log(g, Accepted).(state := V3Upload), 3000)
        else g
      case Timeout => Retry(g)
      case _ => g
    }

    function StV3Upload(g: G, ev: Event): G
      requires g.state.V3Upload?
      decreases Rank(g.state, ev), 2
    {
      match ev
      case RxBootloader =>
        if g.ascii[1] == BTL_FW_DATA_REQUEST && g.wp == 8 then
          AnswerDataRequest(g, FromLe32(g.ascii[2..6]), FromLe16(g.ascii[6..8]))
        else g
      case Timeout => Retry(g)
      case _ => g
    }

    function AnswerDataRequest(g: G, offset: u32, length: u16): G
      requires g.state.V3Upload?
      decreases 5, 2
    {
      var remaining := Remaining(|Image()|, offset, length);
      var g1 := Log(SetTimeout(g, 5000).(remaining := remaining), Asked(offset, length));
      if remaining >= MAX_FILE_SIZE then g1.(trapped := true)
      else
        var response := Reply(Image(), offset, length);
        var g2 := SendFlagged(g1.(ascii := Overwrite(g1.ascii, response)), response);
        if g2.remaining == length as int then SetTimeout(g2.(state := V3WaitID), 20000) else g2
    }

    function StV3WaitID(g: G, ev: Event): G
      requires g.state.V3WaitID?
      decreases Rank(g.state, ev), 2
    {
      match ev
      case RxBootloader =>
        if g.ascii[1] == BTL_ID_RESPONSE then ShutDown(Log(g, V3Done)) else g
      case Timeout => Retry(g)
      case _ => g
    }

    // ----- input -----

    /** `PROT_Packet` */
    function Packet(g: G, p: seq<u8>): G
      requires 1 <= |p|
    {
      if p[0] == CMD_WRITE_PARAMETER && |p| >= 8 then
        if p[7] == PARAM_WATCHDOG_TIMEOUT then Handle(g, PkgUartReset) else g
      else if p[0] == BTL_MAGIC then
        if |p| < ASCII_SIZE then Handle(Deliver(g, p), RxBootloader) else g
      else if |p| < 256 then Handle(g, RxPacket)
      else g
    }

    function Packets(g: G, ps: seq<seq<u8>>): G
      requires forall p <- ps :: 1 <= |p|
    {
      if ps == [] then g
      else
        var g1 := Packets(g, ps[..|ps| - 1]);
        if g1.trapped then g1 else Packet(g1, ps[|ps| - 1])
    }

    predicate TakesText(s: State) {
      s.BootloaderQuery? || s.V1Sync? || s.V1WriteHeader? || s.V1Upload? || s.V1Validate?
    }

    /** The first half of `GCF_Received`: store the bytes as text and raise the event. */
    function ReceiveText(g: G, data: seq<u8>): G {
      if !TakesText(g.state) then g
      else
        var (a, w, n) := Store(g.ascii, g.wp, data);
        var g1 := g.(ascii := a, wp := w);
        if n > 0 then Handle(g1, RxAscii) else g1
    }

    /** `GCF_Received`; the packets are handled in the order the receiver finds them. */
    function Received(g: G, data: seq<u8>): G {
      var g1 := ReceiveText(g, data);
      if g1.trapped then g1
      else
        var r := Framing.Run(HOST_BUFFER, g1.rx, data);
        BufferBounded(HOST_BUFFER, g1.rx, data);
        DeliveredSizes(HOST_BUFFER, g1.rx, data);
        Packets(g1.(rx := r.rx), r.packets)
    }

    // ----- the main loop -----

    /** After `GCF_Init` and the start of `PL_Loop`; `GCF_Init` has read the clock once. */
    function Boot(): G {
      G(Init, NoSub, seq(ASCII_SIZE, _ => 0), 0, 0, 0, 0, 0, true, false, Port(false, [], []), CLEAN, 1, [])
    }

    function CheckTimer(g: G): G {
      if g.timer == 0 then g
      else
        var g1 := g.(calls := g.calls + 1);
        if g.timer < now(g.calls) then Handle(g1.(timer := 0), Timeout) else g1
    }

    /** What the loop does for a device that was connected when it called `poll`. */
    function Serve(g: G, data: seq<u8>): G {
      var g1 := if data != [] && g.port.connected then Received(g, data) else g;
      if !g1.trapped && g1.port.queue != [] then FlushPort(g1) else g1
    }

    /** One turn of the loop in `PL_Loop`. */
    function Iterate(g: G, poll: Poll): G {
      if !g.running || g.trapped then g
      else if poll.Failed? then ShutDown(g)
      else
        var g1 := CheckTimer(g);
        if poll.Idle? || g1.trapped then g1
        else if g.port.connected && poll.hangup then Disconnect(g1)
        else
          var g2 := if g.port.connected then Serve(g1, poll.data) else g1;
          if poll.eof then ShutDown(g2) else g2
    }

    function Loop(polls: seq<Poll>): G {
      if polls == [] then Handle(Boot(), Started)
      else Iterate(Loop(polls[..|polls| - 1]), polls[|polls| - 1])
    }
  }
}
