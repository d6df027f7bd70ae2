/** What an observer of the flasher can note down, and what may be said about such notes. */
module Trace {
  import opened Bytes

  /** The words the flasher looks for in the text a V1 bootloader sends. */
  datatype Keyword = Bootloader | Ready | ValidCrc
  {
    function Text(): seq<u8> {
      match this
      case Bootloader => Ascii("Bootloader")
      case Ready => Ascii("READY")
      case ValidCrc => Ascii("#VALID CRC")
    }
  }

  datatype Note =
    | Pass                        // the command line was processed, from ST_Init
    | EnterReset | LeaveReset     // ST_Reset entered; EV_RESET_SUCCESS raised
    | Sent(bytes: seq<u8>)        // PROT_Write to a connected port
    | Framed(bytes: seq<u8>)      // PROT_SendFlagged to a connected port
    | Got(packet: seq<u8>)        // a packet with the bootloader's code
    | Words(text: seq<u8>)        // the text in the receive buffer when a keyword was found
    | Saw(word: Keyword)          // that keyword
    | Accepted                    // an update response with status 0
    | Asked(offset: u32, length: u16) // a V3 data request
    | V1Done | V3Done             // the two success reports
    | FtdiReset | PinReset        // PL_ResetFTDI and PL_ResetRaspBee called
    | Restart(at: nat)            // gcfRetry granted another attempt

  /** The notes since the command line was last processed. */
  function Since(t: seq<Note>): seq<Note> {
    if t == [] || t[|t| - 1].Pass? then [] else Since(t[..|t| - 1]) + [t[|t| - 1]]
  }

  function Restarts(t: seq<Note>): nat {
    if t == [] then 0 else Restarts(t[..|t| - 1]) + if t[|t| - 1].Restart? then 1 else 0
  }

  /** The time of the last restart, 0 if there was none. */
  function LastRestart(t: seq<Note>): nat {
    if t == [] then 0 else if t[|t| - 1].Restart? then t[|t| - 1].at else LastRestart(t[..|t| - 1])
  }

  function Entered(t: seq<Note>): nat {
    if t == [] then 0 else Entered(t[..|t| - 1]) + if t[|t| - 1].EnterReset? then 1 else 0
  }

  function Left(t: seq<Note>): nat {
    if t == [] then 0 else Left(t[..|t| - 1]) + if t[|t| - 1].LeaveReset? then 1 else 0
  }

  /** One more note. */
  lemma Noted(t: seq<Note>, n: Note)
    ensures
      var t' := t + [n];
      Since(t') == (if n.Pass? then [] else Since(t) + [n]) &&
      Restarts(t') == Restarts(t) + (if n.Restart? then 1 else 0) &&
      LastRestart(t') == (if n.Restart? then n.at else LastRestart(t)) &&
      Entered(t') == Entered(t) + (if n.EnterReset? then 1 else 0) &&
      Left(t') == Left(t) + (if n.LeaveReset? then 1 else 0)
  {
    assert (t + [n])[..|t|] == t;
  }
}
