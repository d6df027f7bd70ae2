/**
 The flasher as the source has it: handlers that update the fields of one object, call the serial
 port and raise events in turn. Every method is proved to do what its function in `Flasher` says.
 */
module GcfMachine {
  import opened Bytes
  import opened Flasher
  import FlasherInvariant
  import FlasherRuns
  import opened Framing
  import opened GcfFile
  import opened Input
  import opened Trace
  import opened TextStream
  import opened SerialPort
  import opened Receiver

  /** `GCF` together with the platform state it drives. */
  class Gcf {
    const w: World
    const ascii: array<u8>
    const serial: Serial
    const rxstate: RxState
    var state: State
    var substate: Substate
    var wp: nat
    var retry: nat
    var remaining: nat
    var maxTime: nat
    var timer: nat
    var running: bool
    var trapped: bool
    var calls: nat
    ghost var trace: seq<Note>

    ghost predicate Valid()
      reads this, serial, rxstate
    {
      ascii.Length == ASCII_SIZE && wp < ASCII_SIZE && serial.Valid() && rxstate.Valid() &&
      ascii != serial.txbuf && ascii != rxstate.buf && serial.txbuf != rxstate.buf
    }

    ghost function View(): G
      requires Valid()
      reads this, ascii, serial, serial.txbuf, rxstate, rxstate.buf
    {
      G(state, substate, ascii[..], wp, retry, remaining, maxTime, timer, running, trapped,
        serial.View(), rxstate.View(), calls, trace)
    }

    constructor (world: World)
      ensures Valid() && w == world && View() == w.Boot()
      ensures fresh(ascii) && fresh(serial) && fresh(serial.txbuf) && fresh(rxstate) && fresh(rxstate.buf)
    {
      w := world;
      ascii := new u8[ASCII_SIZE](_ => 0);
      serial := new Serial();
      rxstate := new RxState();
      state, substate := Init, NoSub;
      wp, retry, remaining, maxTime, timer, calls := 0, 0, 0, 0, 0, 1;
      running, trapped := true, false;
      trace := [];
    }

    // ----- small steps -----

    method SetTimeout(ms: nat)
      requires Valid()
      modifies this`timer, this`calls
      ensures Valid() && View() == w.SetTimeout(old(View()), ms)
    {
      timer := w.now(calls) + ms;
      calls := calls + 1;
    }

    method ResetInput()
      requires Valid()
      modifies this`wp, ascii
      ensures Valid() && View() == Flasher.ResetInput(old(View()))
    {
      wp := 0;
      ascii[0] := 0;
    }

    method Connect()
      requires Valid()
      modifies this`calls, serial
      ensures Valid() && View() == w.Connect(old(View()))
    {
      if !serial.connected {
        serial.Open(w.opens(calls));
        calls := calls + 1;
      }
    }

    method Find(k: Keyword) returns (found: bool)
      requires Valid()
      ensures found == Finds(View(), k)
    {
      var ss := new SStream(ascii, wp);
      found := ss.Find(k.Text());
      assert ascii[..wp] == ascii[..][..wp];
    }

    method Retry()
      requires Valid()
      modifies this
      ensures Valid() && View() == w.Retry(old(View()))
    {
      hide Serial.View, RxState.View;
      var now := w.now(calls);
      calls := calls + 1;
      if maxTime > now {
        trace := trace + [Restart(now)];
        state, substate := Init, NoSub;
        SetTimeout(250);
      } else {
        running := false;
      }
    }

    method ProcessCommandline()
      requires Valid()
      modifies this
      ensures Valid() && View() == w.ProcessCommandline(old(View()))
    {
      substate := NoSub;
      if w.cfg.seconds.Some? {
        maxTime := w.cfg.seconds.value * 1000 + w.StartTime();
      }
      trace := trace + [Pass];
      if w.cfg.task.TaskReset? {
        state := State.Reset;
        trace := trace + [EnterReset];
      } else {
        if maxTime < w.StartTime() {
          maxTime := 10000 + w.StartTime();
        }
        state := State.Program;
      }
    }

    /** `U_memcpy` into the buffer. */
    method CopyBytes(at: nat, p: seq<u8>)
      requires at + |p| <= ascii.Length
      modifies ascii
      ensures ascii[..] == old(ascii[..])[..at] + p + old(ascii[..])[at + |p|..]
    {
      ghost var was := ascii[..];
      for i := 0 to |p|
        invariant ascii[..] == was[..at] + p[..i] + was[at + i..]
      {
        ascii[at + i] := p[i];
      }
      assert p[..|p|] == p;
    }

    // ----- output -----

    /** The end of every output: `PROT_Flush` has returned -1 for a closed port. */
    method AfterFlush(n: int)
      requires Valid() && (n < 0 <==> !serial.connected)
      modifies this, ascii, serial, serial.txbuf
      ensures Valid()
      ensures View() == if n < 0 then w.Handle(old(View()), Disconnected)
                        else old(View()).(calls := old(calls) + 1)
      decreases 5, 0
    {
      if n < 0 {
        Handle(Disconnected);
      } else {
        calls := calls + 1;
      }
    }

    method FlushPort()
      requires Valid()
      modifies this, ascii, serial, serial.txbuf
      ensures Valid() && View() == w.FlushPort(old(View()))
      decreases 5, 1
    {
      hide World.Handle, Transmit.FlushAmount;
      var n := serial.Flush(w.writes(calls));
      AfterFlush(n);
    }

    method Write(bytes: seq<u8>)
      requires Valid()
      modifies this, ascii, serial, serial.txbuf
      ensures Valid() && View() == w.Write(old(View()), bytes)
      decreases 5, 1
    {
      ghost var before := View();
      if serial.connected {
        trace := trace + [Sent(bytes)];
      }
      var n := serial.Write(bytes, w.writes(calls));
      assert View() == WrittenView(w, before, bytes, Sent(bytes));
      WrittenIs(w, before, bytes);
      hide World.Handle, World.Write, Transmit.PutAll, Transmit.Flush;
      AfterFlush(n);
    }

    method SendFlagged(bytes: seq<u8>)
      requires Valid()
      modifies this, ascii, serial, serial.txbuf
      ensures Valid() && View() == w.SendFlagged(old(View()), bytes)
      decreases 5, 1
    {
      ghost var before := View();
      if serial.connected {
        trace := trace + [Framed(bytes)];
      }
      var n := serial.SendFlagged(bytes, w.writes(calls));
      assert View() == WrittenView(w, before, Frame(bytes), Framed(bytes));
      WrittenIs(w, before, bytes);
      hide World.Handle, World.SendFlagged, Transmit.PutAll, Transmit.Flush, Frame;
      AfterFlush(n);
    }

    method Disconnect()
      requires Valid()
      modifies this, ascii, serial, serial.txbuf
      ensures Valid() && View() == w.Disconnect(old(View()))
      decreases 5, 0
    {
      hide World.Handle;
      serial.Close();
      Handle(Disconnected);
    }

    // ----- dispatch -----

    method Handle(ev: Event)
      requires Valid()
      modifies this, ascii, serial, serial.txbuf
      ensures Valid() && View() == w.Handle(old(View()), ev)
      decreases Rank(state, ev), 3
    {
      hide World.StInit, World.StProgram, World.StReset, World.StBootloaderConnect, World.StBootloaderQuery;
      hide World.StV1Sync, World.StV1WriteHeader, World.StV1Upload, World.StV1Validate;
      hide World.StV3Sync, World.StV3Upload, World.StV3WaitID, Serial.View, RxState.View;
      match state
      case Void =>
      case Init => StInit(ev);
      case Program => StProgram(ev);
      case Reset => StReset(ev);
      case BootloaderConnect => StBootloaderConnect(ev);
      case BootloaderQuery => StBootloaderQuery(ev);
      case _ => HandleUpload(ev);
    }

    /** The states of the two upload protocols. */
    method HandleUpload(ev: Event)
      requires Valid() && !state.Void? && !state.Init? && !state.Program? && !state.Reset?
      requires !state.BootloaderConnect? && !state.BootloaderQuery?
      modifies this, ascii, serial, serial.txbuf
      ensures Valid() && View() == w.Handle(old(View()), ev)
      decreases Rank(state, ev), 3, 0
    {
      hide World.StInit, World.StProgram, World.StReset, World.StBootloaderConnect, World.StBootloaderQuery;
      hide World.StV1Sync, World.StV1WriteHeader, World.StV1Upload, World.StV1Validate;
      hide World.StV3Sync, World.StV3Upload, World.StV3WaitID, Serial.View, RxState.View;
      match state
      case V1Sync => StV1Sync(ev);
      case V1WriteHeader => StV1WriteHeader(ev);
      case V1Upload => StV1Upload(ev);
      case V1Validate => StV1Validate(ev);
      case V3Sync => StV3Sync(ev);
      case V3Upload => StV3Upload(ev);
      case V3WaitID => StV3WaitID(ev);
    }

    method StInit(ev: Event)
      requires Valid() && state.Init?
      modifies this, ascii, serial, serial.txbuf
      ensures Valid() && View() == w.StInit(old(View()), ev)
      decreases Rank(state, ev), 2
    {
      hide Serial.View, RxState.View;
      hide World.Handle, World.ProcessCommandline, World.CommandlineOk, Parse;
      if ev.Started? || ev.Timeout? {
        var loaded := w.loads(calls);
        calls := calls + 1;
        if loaded && w.CommandlineOk() {
          StartTask();
        } else {
          state, substate := Void, NoSub;
          if loaded && w.cfg.task.TaskProgram? && Parse(w.cfg.file).Trapped? {
            trapped := true;
          } else {
            running := false;
          }
        }
      }
    }

    /** A command line that makes sense: enter the state of the task and raise EV_ACTION. */
    method StartTask()
      requires Valid() && state.Init?
      modifies this, ascii, serial, serial.txbuf
      ensures Valid() && View() == w.Handle(w.ProcessCommandline(old(View())), Action)
      decreases 8, 4
    {
      hide Serial.View, RxState.View, World.Handle, World.ProcessCommandline;
      CommandlineState(w, View());
      ProcessCommandline();
      Handle(Action);
    }

    method StProgram(ev: Event)
      requires Valid() && state.Program?
      modifies this, ascii, serial, serial.txbuf
      ensures Valid() && View() == w.StProgram(old(View()), ev)
      decreases Rank(state, ev), 2
    {
      hide Serial.View, RxState.View;
      hide World.Handle;
      match ev
      case Action =>
        state := State.Reset;
        trace := trace + [EnterReset];
        Handle(Action);
      case ResetSuccess =>
        if w.cfg.device.RaspBee1? || w.cfg.device.ConBee1? {
          state := BootloaderQuery;
          SetTimeout(5000);
        } else {
          state := BootloaderConnect;
          SetTimeout(500);
        }
      case ResetFailed => running := false;
      case _ =>
    }

    method StReset(ev: Event)
      requires Valid() && state.Reset?
      modifies this, ascii, serial, serial.txbuf
      ensures Valid() && View() == w.StReset(old(View()), ev)
      decreases Rank(state, ev), 2
    {
      hide Serial.View, RxState.View;
      hide World.Handle, World.StResetUart, World.StResetFtdi, World.StResetRaspBee;
      match ev
      case Action =>
        wp, substate := 0, ResetUart;
        StResetUart(Action);
      case UartResetSuccess | FtdiResetSuccess | RaspBeeResetSuccess => StResetDone();
      case UartResetFailed => StResetFailed();
      case FtdiResetFailed =>
        SetTimeout(1);
        Handle(FtdiResetSuccess);
      case RaspBeeResetFailed =>
        SetTimeout(1);
        Handle(RaspBeeResetSuccess);
      case _ => StResetOther(ev);
    }

    /** The branch of `ST_Reset` for the events that report success. */
    method StResetDone()
      requires Valid() && state.Reset?
      modifies this, ascii, serial, serial.txbuf
      ensures Valid()
      ensures
        var g := old(View()).(substate := NoSub);
        View() == if w.cfg.task.TaskReset? then ShutDown(g)
                  else w.Handle(Log(g.(state := State.Program), LeaveReset), ResetSuccess)
      decreases 2, 1
    {
      hide Serial.View, RxState.View, World.Handle;
      substate := NoSub;
      if w.cfg.task.TaskReset? {
        running := false;
      } else {
        state := State.Program;
        trace := trace + [LeaveReset];
        Handle(ResetSuccess);
      }
    }

    /** The branch of `ST_Reset` that passes the event to the substate. */
    method StResetOther(ev: Event)
      requires Valid() && state.Reset? && !ev.Action? && !FlasherInvariant.ResetOutcome(ev)
      modifies this, ascii, serial, serial.txbuf
      ensures Valid() && View() == w.StReset(old(View()), ev)
      decreases Rank(state, ev), 1, 0
    {
      hide Serial.View, RxState.View;
      hide World.Handle, World.StResetUart, World.StResetFtdi, World.StResetRaspBee;
      match substate
      case NoSub =>
      case ResetUart => StResetUart(ev);
      case ResetFtdi => StResetFtdi(ev);
      case ResetRaspBee => StResetRaspBee(ev);
    }

    /** The branch of `ST_Reset` for EV_UART_RESET_FAILED. */
    method StResetFailed()
      requires Valid() && state.Reset?
      modifies this, ascii, serial, serial.txbuf
      ensures Valid() && View() == w.StReset(old(View()), UartResetFailed)
      decreases 5, 1
    {
      hide Serial.View, RxState.View;
      hide World.Handle, World.StResetUart, World.StResetFtdi, World.StResetRaspBee, World.Connect;
      if w.cfg.device.ConBee1? {
        Connect();
        if serial.connected {
          substate := ResetFtdi;
          StResetFtdi(Action);
          return;
        }
      } else if w.cfg.device.RaspBee1? || w.cfg.device.RaspBee2? {
        Connect();
        if serial.connected {
          substate := ResetRaspBee;
          StResetRaspBee(Action);
          return;
        }
      }
      SetTimeout(500);
      Handle(UartResetSuccess);
    }

    method StResetUart(ev: Event)
      requires Valid() && state.Reset?
      modifies this, ascii, serial, serial.txbuf
      ensures Valid() && View() == w.StResetUart(old(View()), ev)
      decreases Rank(state, ev), 0
    {
      hide Serial.View, RxState.View;
      hide World.Handle, World.SendFlagged, World.Connect, World.Disconnect;
      match ev
      case Action => StartUartReset();
      case RxBootloader =>
        if ascii[1] == BTL_ID_RESPONSE {
          FinishUartReset(100);
        }
      case Disconnected => FinishUartReset(500);
      case PkgUartReset =>
        if w.cfg.device.RaspBee1? || w.cfg.device.ConBee1? {
          timer := 0;
          Handle(UartResetSuccess);
        }
      case Timeout => UartResetTimeout();
      case _ =>
    }

    /** The device is gone or in its bootloader: go on after a while. */
    method FinishUartReset(ms: nat)
      requires Valid() && state.Reset?
      modifies this, ascii, serial, serial.txbuf
      ensures Valid() && View() == w.Handle(w.SetTimeout(old(View()), ms), UartResetSuccess)
      decreases 2, 4
    {
      hide Serial.View, RxState.View, World.Handle;
      ghost var g := View();
      timer := 0;
      SetTimeout(ms);
      assert View() == w.SetTimeout(g, ms);
      Handle(UartResetSuccess);
    }

    /** The branch of `ST_ResetUart` for EV_TIMEOUT. */
    method UartResetTimeout()
      requires Valid() && state.Reset?
      modifies this, ascii, serial, serial.txbuf
      ensures Valid() && View() == w.StResetUart(old(View()), Timeout)
      decreases 8, 4
    {
      hide Serial.View, RxState.View, World.Handle, World.Disconnect;
      substate := NoSub;
      Disconnect();
      Handle(UartResetFailed);
    }

    /** The branch of `ST_ResetUart` for EV_ACTION. */
    method StartUartReset()
      requires Valid() && state.Reset?
      modifies this, ascii, serial, serial.txbuf
      ensures Valid() && View() == w.StResetUart(old(View()), Action)
      decreases 6, 0
    {
      hide Serial.View, RxState.View, World.Handle, World.SendFlagged, World.Connect;
      SetTimeout(3000);
      Connect();
      if serial.connected {
        if w.cfg.task.TaskReset? {
          SendFlagged(CMD_QUERY_FIRMWARE);
        }
        SendFlagged(CMD_RESET_UART);
      }
    }

    method StResetFtdi(ev: Event)
      requires Valid() && state.Reset?
      modifies this, ascii, serial, serial.txbuf
      ensures Valid() && View() == w.StResetFtdi(old(View()), ev)
      decreases if ev.Action? then 4 else 0, 0
    {
      hide Serial.View, RxState.View;
      hide World.Handle;
      if ev.Action? {
        var done := w.resets(calls);
        calls, trace := calls + 1, trace + [FtdiReset];
        if done {
          Handle(FtdiResetSuccess);
        } else {
          Handle(FtdiResetFailed);
        }
      }
    }

    method StResetRaspBee(ev: Event)
      requires Valid() && state.Reset?
      modifies this, ascii, serial, serial.txbuf
      ensures Valid() && View() == w.StResetRaspBee(old(View()), ev)
      decreases if ev.Action? then 4 else 0, 0
    {
      hide Serial.View, RxState.View;
      hide World.Handle;
      if ev.Action? {
        var done := w.resets(calls);
        calls, trace := calls + 1, trace + [PinReset];
        if done {
          Handle(RaspBeeResetSuccess);
        } else {
          Handle(RaspBeeResetFailed);
        }
      }
    }

    method StBootloaderConnect(ev: Event)
      requires Valid() && state.BootloaderConnect?
      modifies this, ascii, serial, serial.txbuf
      ensures Valid() && View() == w.StBootloaderConnect(old(View()), ev)
      decreases Rank(state, ev), 2
    {
      hide Serial.View, RxState.View;
      hide World.Handle, World.Connect;
      match ev
      case Timeout =>
        Connect();
        if serial.connected {
          state := BootloaderQuery;
          Handle(Action);
        } else {
          SetTimeout(500);
        }
      case RxAscii => StartQueryEarly();
      case _ =>
    }

    /** The branch of `ST_BootloaderConnect` for EV_RX_ASCII. */
    method StartQueryEarly()
      requires Valid() && state.BootloaderConnect?
      modifies this, ascii, serial, serial.txbuf
      ensures Valid() && View() == w.StBootloaderConnect(old(View()), RxAscii)
      decreases 6, 4
    {
      hide Serial.View, RxState.View, World.Handle, World.Connect;
      ghost var g := View();
      timer := 0;
      SetTimeout(100);
      state, substate := BootloaderQuery, NoSub;
      assert View() == w.SetTimeout(g.(state := BootloaderQuery, substate := NoSub), 100);
      hide World.SetTimeout;
      Handle(RxAscii);
    }

    method StBootloaderQuery(ev: Event)
      requires Valid() && state.BootloaderQuery?
      modifies this, ascii, serial, serial.txbuf
      ensures Valid() && View() == w.StBootloaderQuery(old(View()), ev)
      decreases Rank(state, ev), 2
    {
      hide Serial.View, RxState.View;
      hide World.Handle, World.SendFlagged, World.Write, World.Retry, World.Head, Finds;
      match ev
      case Action =>
        retry, wp := 0, 0;
        forall i | 0 <= i < ascii.Length { ascii[i] := 0; }
        SetTimeout(200);
      case Timeout => AskBootloader();
      case RxAscii => DetectV1();
      case RxBootloader =>
        if ascii[1] == BTL_ID_RESPONSE {
          state := V3Sync;
          Handle(Action);
        }
      case Disconnected => Retry();
      case _ =>
    }

    /** The branch of `ST_BootloaderQuery` for EV_TIMEOUT. */
    method AskBootloader()
      requires Valid() && state.BootloaderQuery?
      modifies this, ascii, serial, serial.txbuf
      ensures Valid() && View() == w.StBootloaderQuery(old(View()), Timeout)
      decreases 9, 1
    {
      hide Serial.View, RxState.View;
      hide World.Handle, World.SendFlagged, World.Write, World.Retry, World.Head;
      retry := retry + 1;
      if retry == 3 {
        Retry();
      } else if w.Head().fileType < 30 {
        Write(Ascii("ID"));
        SetTimeout(200);
      } else {
        SendFlagged([BTL_MAGIC, 0x02]);
        SetTimeout(200);
      }
    }

    /** The branch of `ST_BootloaderQuery` for EV_RX_ASCII. */
    method DetectV1()
      requires Valid() && state.BootloaderQuery?
      modifies this, ascii, serial, serial.txbuf
      ensures Valid() && View() == w.StBootloaderQuery(old(View()), RxAscii)
      decreases 6, 1
    {
      hide Serial.View, RxState.View, World.Handle, Finds;
      if wp > 32 && ascii[wp - 1] == 10 {
        var found := Find(Bootloader);
        if found {
          timer := 0;
          NoteWord(Bootloader);
          state := V1Sync;
          Handle(Action);
        }
      }
    }

    /** A keyword has been found in the text. */
    ghost method NoteWord(k: Keyword)
      requires Valid()
      modifies this`trace
      ensures Valid() && View() == LogWord(old(View()), k)
    {
      hide Serial.View, RxState.View;
      assert ascii[..][..wp] == ascii[..wp];
      trace := trace + [Words(ascii[..wp])] + [Saw(k)];
    }

    // ----- V1 -----

    method StV1Sync(ev: Event)
      requires Valid() && state.V1Sync?
      modifies this, ascii, serial, serial.txbuf
      ensures Valid() && View() == w.StV1Sync(old(View()), ev)
      decreases Rank(state, ev), 2
    {
      hide Serial.View, RxState.View;
      hide World.Handle, World.Write, World.Retry, Finds;
      match ev
      case Action =>
        ResetInput();
        Write(V1_SYNC);
        SetTimeout(500);
      case RxAscii =>
        var found := Find(Keyword.Ready);
        if wp > 4 && found {
          timer := 0;
          NoteWord(Keyword.Ready);
          state := V1WriteHeader;
          Handle(Action);
        } else {
          SetTimeout(500);
        }
      case Timeout => Retry();
      case _ =>
    }

    /** The ten bytes for the V1 bootloader, written field by field. */
    method BuildV1Header() returns (bytes: seq<u8>)
      ensures bytes == V1Header(w.Head())
    {
      hide Serial.View, RxState.View;
      hide World.Head, Le32;
      var h := w.Head();
      var buf := new u8[10];
      var p := PutU32Le(buf, 0, h.size);
      assert buf[..4] == Le32(h.size);
      p := PutU32Le(buf, p, h.target);
      buf[p], buf[p + 1] := h.fileType, h.crc;
      bytes := buf[..];
    }

    method StV1WriteHeader(ev: Event)
      requires Valid() && state.V1WriteHeader?
      modifies this, ascii, serial, serial.txbuf
      ensures Valid() && View() == w.StV1WriteHeader(old(View()), ev)
      decreases Rank(state, ev), 2
    {
      hide Serial.View, RxState.View;
      hide World.Handle, World.Write, World.Head, V1Header;
      if ev.Action? {
        ResetInput();
        var buf := BuildV1Header();
        state := V1Upload;
        Write(buf);
        SetTimeout(1000);
      }
    }

    method StV1Upload(ev: Event)
      requires Valid() && state.V1Upload?
      modifies this, ascii, serial, serial.txbuf
      ensures Valid() && View() == w.StV1Upload(old(View()), ev)
      decreases Rank(state, ev), 2
    {
      hide Serial.View, RxState.View;
      hide World.SendPage, World.Retry;
      match ev
      case RxAscii =>
        if wp < 6 || ascii[0] != 71 || ascii[5] != 59 {
          return;
        }
        var pageNumber := ascii[4] as int * 0x100 + ascii[3] as int;
        assert pageNumber == FromLe16(ascii[..][3..5]);
        SendPage(pageNumber);
      case Timeout => Retry();
      case _ =>
    }

    method SendPage(n: u16)
      requires Valid() && state.V1Upload?
      modifies this, ascii, serial, serial.txbuf
      ensures Valid() && View() == w.SendPage(old(View()), n)
      decreases 5, 4
    {
      hide Serial.View, RxState.View, World.Handle, World.Image, PageReply;
      SendPageIs(w, View(), n);
      hide World.SendPage;
      if n as int * V1_PAGESIZE >= |w.Image()| {
        trapped := true;
      } else {
        ReplyPage(n);
      }
    }

    /** The part of `ST_V1ProgramUpload` behind the assertion. */
    method ReplyPage(n: u16)
      requires Valid() && n as int * V1_PAGESIZE < |w.Image()|
      modifies this, ascii, serial, serial.txbuf
      ensures Valid() && View() == PageReply(w, old(View()), n)
      decreases 5, 3
    {
      hide Serial.View, RxState.View, World.Handle, World.Write, World.Image, Page, Flasher.ResetInput;
      ghost var g := View();
      var left := |w.Image()| - n as int * V1_PAGESIZE;
      remaining := left;
      assert View() == g.(remaining := left);
      var page := TakePage(n);
      WritePage(page);
      assert View() == w.Write(Flasher.ResetInput(g.(remaining := left)), page);
      FinishPage(|page|);
    }

    /** The `size` bytes from the start of the page. */
    method TakePage(n: u16) returns (page: seq<u8>)
      requires n as int * V1_PAGESIZE < |w.Image()|
      ensures page == Page(w.Image(), n)
    {
      hide World.Image;
      var from := n as int * V1_PAGESIZE;
      var left := |w.Image()| - from;
      var size := if left > V1_PAGESIZE then V1_PAGESIZE else left;
      PageIs(w.Image(), n);
      page := w.Image()[from..from + size];
    }

    method WritePage(page: seq<u8>)
      requires Valid()
      modifies this, ascii, serial, serial.txbuf
      ensures Valid() && View() == w.Write(Flasher.ResetInput(old(View())), page)
      decreases 5, 2, 0
    {
      hide Serial.View, RxState.View, World.Write, World.Handle;
      ResetInput();
      Write(page);
    }

    /** The end of a page: was it the last one? */
    method FinishPage(size: nat)
      requires Valid()
      modifies this`state, this`timer, this`calls
      ensures Valid()
      ensures
        var g := old(View());
        View() == if g.remaining == size then w.SetTimeout(g.(state := V1Validate), 25600) else w.SetTimeout(g, 2000)
    {
      if remaining == size {
        state := V1Validate;
        SetTimeout(25600);
      } else {
        SetTimeout(2000);
      }
    }

    method StV1Validate(ev: Event)
      requires Valid() && state.V1Validate?
      modifies this, ascii, serial, serial.txbuf
      ensures Valid() && View() == w.StV1Validate(old(View()), ev)
      decreases Rank(state, ev), 2
    {
      hide Serial.View, RxState.View;
      hide World.Retry, Finds;
      match ev
      case RxAscii =>
        var found := Find(ValidCrc);
        if wp > 6 && found {
          NoteWord(ValidCrc);
          trace := trace + [V1Done];
          running := false;
        } else {
          SetTimeout(1000);
        }
      case Timeout => Retry();
      case _ =>
    }

    // ----- V3 -----

    method StV3Sync(ev: Event)
      requires Valid() && state.V3Sync?
      modifies this, ascii, serial, serial.txbuf
      ensures Valid() && View() == w.StV3Sync(old(View()), ev)
      decreases Rank(state, ev), 2
    {
      hide Serial.View, RxState.View;
      hide World.Handle, World.SendFlagged, World.Retry, World.Head, V3SyncRequest;
      match ev
      case Action =>
        SetTimeout(1000);
        var cmd := BuildV3Request();
        SendFlagged(cmd);
      case RxBootloader =>
        if ascii[1] == BTL_FW_UPDATE_RESPONSE && ascii[2] == 0 {
          trace := trace + [Accepted];
          state := V3Upload;
          SetTimeout(3000);
        }
      case Timeout => Retry();
      case _ =>
    }

    /** The update request, written field by field over its template. */
    method BuildV3Request() returns (bytes: seq<u8>)
      ensures bytes == V3SyncRequest(w.Head())
    {
      hide Serial.View, RxState.View;
      hide World.Head, Le32;
      var h := w.Head();
      var cmd := new u8[15];
      cmd[0], cmd[1] := BTL_MAGIC, 0x03;
      var p := PutU32Le(cmd, 2, h.size);
      p := PutU32Le(cmd, p, h.target);
      cmd[p] := h.fileType;
      p := PutU32Le(cmd, p + 1, h.crc32);
      bytes := cmd[..];
    }

    method StV3Upload(ev: Event)
      requires Valid() && state.V3Upload?
      modifies this, ascii, serial, serial.txbuf
      ensures Valid() && View() == w.StV3Upload(old(View()), ev)
      decreases Rank(state, ev), 2
    {
      hide Serial.View, RxState.View;
      hide World.AnswerDataRequest, World.Retry;
      match ev
      case RxBootloader =>
        if ascii[1] == BTL_FW_DATA_REQUEST && wp == 8 {
          var a := ascii[..];
          AnswerDataRequest(FromLe32(a[2..6]), FromLe16(a[6..8]));
        }
      case Timeout => Retry();
      case _ =>
    }

    method AnswerDataRequest(offset: u32, length: u16)
      requires Valid() && state.V3Upload?
      modifies this, ascii, serial, serial.txbuf
      ensures Valid() && View() == w.AnswerDataRequest(old(View()), offset, length)
      decreases 5, 3
    {
      hide Serial.View, RxState.View;
      hide World.Handle, World.SendFlagged, World.Image, DataResponse;
      ghost var g := View();
      SetTimeout(5000);
      trace := trace + [Asked(offset, length)];
      var status := DataStatus(|w.Image()|, offset, length);
      remaining := if status == 0 then |w.Image()| - offset as int else 0;
      ghost var g1 := View();
      assert g1 == Log(w.SetTimeout(g, 5000).(remaining := Remaining(|w.Image()|, offset, length)),
                       Asked(offset, length));
      if remaining >= MAX_FILE_SIZE {
        trapped := true;
        return;
      }
      var data := if status == 0 then w.Image()[offset as int..offset as int + length as int] else [];
      SendResponse(status, offset, length, data);
      FinishAnswer(length);
    }

    /** The end of a data response: was it the last one? */
    method FinishAnswer(length: u16)
      requires Valid()
      modifies this`state, this`timer, this`calls
      ensures Valid()
      ensures
        var g := old(View());
        View() == if g.remaining == length as int then w.SetTimeout(g.(state := V3WaitID), 20000) else g
    {
      if remaining == length as int {
        state := V3WaitID;
        SetTimeout(20000);
      }
    }

    method SendResponse(status: u8, offset: u32, length: u16, data: seq<u8>)
      requires Valid() && |data| <= MAX_CHUNK
      modifies this, ascii, serial, serial.txbuf
      ensures Valid()
      ensures
        var response := DataResponse(status, offset, length, data);
        var g := old(View());
        |response| <= ASCII_SIZE &&
        View() == w.SendFlagged(g.(ascii := Overwrite(g.ascii, response)), response)
      decreases 5, 2
    {
      hide Serial.View, RxState.View, World.Handle, World.SendFlagged, DataResponse;
      BuildResponse(status, offset, length, data);
      ghost var response := DataResponse(status, offset, length, data);
      assert ascii[..9 + |data|] == ascii[..][..9 + |data|] == response;
      SendFlagged(ascii[..9 + |data|]);
    }

    /** The response is put together in the receive buffer itself. */
    method BuildResponse(status: u8, offset: u32, length: u16, data: seq<u8>)
      requires ascii.Length == ASCII_SIZE && |data| <= MAX_CHUNK
      modifies ascii
      ensures |DataResponse(status, offset, length, data)| == 9 + |data|
      ensures ascii[..] == DataResponse(status, offset, length, data) + old(ascii[..])[9 + |data|..]
    {
      hide Le16, Le32;
      ascii[0], ascii[1], ascii[2] := BTL_MAGIC, 0x84, status;
      var p := PutU32Le(ascii, 3, offset);
      p := PutU16Le(ascii, p, length);
      assert ascii[..9] == DataResponse(status, offset, length, []);
      ghost var head := ascii[..9];
      CopyBytes(9, data);
      assert head + data == DataResponse(status, offset, length, data);
    }

    method StV3WaitID(ev: Event)
      requires Valid() && state.V3WaitID?
      modifies this, ascii, serial, serial.txbuf
      ensures Valid() && View() == w.StV3WaitID(old(View()), ev)
      decreases Rank(state, ev), 2
    {
      hide Serial.View, RxState.View;
      hide World.Retry;
      match ev
      case RxBootloader =>
        if ascii[1] == BTL_ID_RESPONSE {
          trace := trace + [V3Done];
          running := false;
        }
      case Timeout => Retry();
      case _ =>
    }

    // ----- input -----

    method Packet(p: seq<u8>)
      requires Valid() && 1 <= |p|
      modifies this, ascii, serial, serial.txbuf
      ensures Valid() && View() == w.Packet(old(View()), p)
    {
      hide Serial.View, RxState.View, World.Handle;
      if p[0] == CMD_WRITE_PARAMETER && |p| >= 8 {
        if p[7] == PARAM_WATCHDOG_TIMEOUT {
          Handle(PkgUartReset);
        }
      } else if p[0] == BTL_MAGIC {
        if |p| < ASCII_SIZE {
          CopyPacket(p);
          trace := trace + [Got(p)];
          Handle(RxBootloader);
        }
      } else if |p| < 256 {
        Handle(RxPacket);
      }
    }

    method CopyPacket(p: seq<u8>)
      requires Valid() && |p| < ASCII_SIZE
      modifies this`wp, ascii
      ensures Valid() && View() == old(View()).(ascii := Overwrite(old(ascii[..]), p), wp := |p|)
    {
      hide Serial.View, RxState.View;
      CopyBytes(0, p);
      wp := |p|;
    }

    method Packets(ps: seq<seq<u8>>)
      requires Valid() && forall p <- ps :: 1 <= |p|
      modifies this, ascii, serial, serial.txbuf
      ensures Valid() && View() == w.Packets(old(View()), ps)
    {
      hide Serial.View, RxState.View, World.Packet;
      for i := 0 to |ps|
        invariant Valid() && View() == w.Packets(old(View()), ps[..i])
      {
        assert ps[..i + 1][..i] == ps[..i];
        if !trapped {
          Packet(ps[i]);
        }
      }
      assert ps[..|ps|] == ps;
    }

    method ReceiveText(data: seq<u8>)
      requires Valid()
      modifies this, ascii, serial, serial.txbuf
      ensures Valid() && View() == w.ReceiveText(old(View()), data)
    {
      hide Serial.View, RxState.View, World.Handle, Store;
      if w.TakesText(state) {
        var n;
        wp, n := StoreInput(ascii, wp, data);
        if n > 0 {
          Handle(RxAscii);
        }
      }
    }

    /** `GCF_Received` */
    method Received(data: seq<u8>)
      requires Valid()
      modifies this, ascii, serial, serial.txbuf, rxstate, rxstate.buf
      ensures Valid() && View() == w.Received(old(View()), data)
    {
      hide Serial.View, World.ReceiveText, World.Packets, Framing.Run;
      ReceiveText(data);
      if !trapped {
        BufferBounded(HOST_BUFFER, rxstate.View(), data);
        DeliveredSizes(HOST_BUFFER, rxstate.View(), data);
        var packets, _ := rxstate.ReceiveFlagged(data);
        Packets(packets);
      }
    }

    // ----- the main loop -----

    method CheckTimer()
      requires Valid()
      modifies this, ascii, serial, serial.txbuf
      ensures Valid() && View() == w.CheckTimer(old(View()))
    {
      hide Serial.View, RxState.View, World.Handle;
      if timer != 0 {
        var now := w.now(calls);
        calls := calls + 1;
        if timer < now {
          timer := 0;
          Handle(Timeout);
        }
      }
    }

    method Serve(data: seq<u8>)
      requires Valid()
      modifies this, ascii, serial, serial.txbuf, rxstate, rxstate.buf
      ensures Valid() && View() == w.Serve(old(View()), data)
    {
      hide RxState.View, World.Received, World.FlushPort, Window;
      if data != [] && serial.connected {
        Received(data);
      }
      if !trapped {
        serial.EmptyIff();
        if serial.rp != serial.wp {
          FlushPort();
        }
      }
    }

    /** One turn of the loop in `PL_Loop`. */
    method Iterate(poll: Poll)
      requires Valid()
      modifies this, ascii, serial, serial.txbuf, rxstate, rxstate.buf
      ensures Valid() && View() == w.Iterate(old(View()), poll)
    {
      hide Serial.View, RxState.View, World.CheckTimer, World.Serve, World.Disconnect;
      if !running || trapped {
        return;
      }
      if poll.Failed? {
        running := false;
        return;
      }
      var polled := serial.connected;
      CheckTimer();
      if poll.Idle? || trapped {
        return;
      }
      if polled {
        if poll.hangup {
          Disconnect();
          return;
        }
        Serve(poll.data);
      }
      if poll.eof {
        running := false;
      }
    }
  }

  /**
   `PL_Loop`: the whole program from start to any point of its run. With a monotone clock it never
   stalls, its restarts are spaced, and every success report it has made was earned.
   */
  method Loop(w: World, polls: seq<Poll>) returns (gcf: Gcf)
    ensures fresh(gcf) && gcf.Valid() && gcf.w == w && gcf.View() == w.Loop(polls)
    ensures FlasherInvariant.Monotone(w) ==>
              (gcf.running && !gcf.trapped ==> gcf.timer != 0) &&
              forall k | 0 <= k < |gcf.trace| :: FlasherInvariant.Due(w, gcf.trace[..k], gcf.trace[k])
  {
    hide Serial.View, RxState.View, World.Handle, World.Iterate, FlasherInvariant.Due;
    gcf := new Gcf(w);
    gcf.Handle(Started);
    for i := 0 to |polls|
      invariant fresh(gcf) && fresh(gcf.ascii) && fresh(gcf.serial) && fresh(gcf.serial.txbuf)
      invariant fresh(gcf.rxstate) && fresh(gcf.rxstate.buf)
      invariant gcf.Valid() && gcf.w == w && gcf.View() == w.Loop(polls[..i])
    {
      assert polls[..i + 1][..i] == polls[..i];
      gcf.Iterate(polls[i]);
    }
    assert polls[..|polls|] == polls;
    if FlasherInvariant.Monotone(w) {
      FlasherRuns.NoSilentStall(w, polls);
      FlasherRuns.EveryNoteDue(w, polls);
    }
  }

  lemma CommandlineState(w: World, g: G)
    ensures var s := w.ProcessCommandline(g).state; s.Program? || s.Reset?
  {
  }

  /** The steps of a page reply, in the order of the source. */
  ghost function PageReply(w: World, g: G, n: u16): G
    requires n as int * V1_PAGESIZE < |w.Image()|
  {
    var page := Page(w.Image(), n);
    var left := |w.Image()| - n as int * V1_PAGESIZE;
    var g1 := w.Write(Flasher.ResetInput(g.(remaining := left)), page);
    if g1.remaining == |page| then w.SetTimeout(g1.(state := V1Validate), 25600) else w.SetTimeout(g1, 2000)
  }

  lemma SendPageIs(w: World, g: G, n: u16)
    requires g.state.V1Upload?
    ensures w.SendPage(g, n)
         == if n as int * V1_PAGESIZE >= |w.Image()| then g.(trapped := true) else PageReply(w, g, n)
  {
    hide World.Handle, World.Write, World.Image, Page;
  }

  lemma PageIs(image: seq<u8>, n: nat)
    requires n * V1_PAGESIZE < |image|
    ensures var from := n * V1_PAGESIZE;
            var left := |image| - from;
            Page(image, n) == image[from..from + if left > V1_PAGESIZE then V1_PAGESIZE else left]
  {
  }

  /** The state once the bytes are in the ring and the first flush has been tried. */
  ghost function WrittenView(w: World, g: G, bytes: seq<u8>, note: Note): G {
    var port := Transmit.Flush(Transmit.PutAll(g.port, bytes), w.writes(g.calls));
    if g.port.connected then Log(g, note).(port := port) else g.(port := port)
  }

  lemma WrittenIs(w: World, g: G, bytes: seq<u8>)
    ensures
      var v := WrittenView(w, g, bytes, Sent(bytes));
      w.Write(g, bytes) == if g.port.connected then v.(calls := g.calls + 1) else w.Handle(v, Disconnected)
    ensures
      var v := WrittenView(w, g, Frame(bytes), Framed(bytes));
      w.SendFlagged(g, bytes) == if g.port.connected then v.(calls := g.calls + 1) else w.Handle(v, Disconnected)
  {
    Transmit.PutAllLinks(g.port, bytes);
    Transmit.PutAllLinks(g.port, Frame(bytes));
    hide World.Handle, Transmit.PutAll, Frame;
  }
}
