/** `PROT_RxState` and `PROT_ReceiveFlagged` of protocol.c. */
module Receiver {
  import opened Bytes
  import opened Framing

  /**
   The receive state. `PROT_Packet` is called from inside the byte loop in the source and never
   touches this state, so the method hands the packets back in order instead.
   */
  class RxState {
    var bufpos: nat
    var escaped: bool
    const buf: array<u8>

    ghost predicate Valid()
      reads this
    {
      buf.Length == HOST_BUFFER && bufpos <= HOST_BUFFER
    }

    ghost function View(): Rx
      requires Valid()
      reads this, buf
    {
      Rx(buf[..bufpos], escaped)
    }

    constructor ()
      ensures Valid() && View() == CLEAN && fresh(buf)
    {
      bufpos, escaped := 0, false;
      buf := new u8[HOST_BUFFER];
    }

    method ReceiveFlagged(data: seq<u8>) returns (packets: seq<seq<u8>>, err: nat)
      requires Valid()
      modifies this, buf
      ensures Valid()
      ensures Result(View(), packets, err) == Run(HOST_BUFFER, old(View()), data)
    {
      packets, err := [], 0;
      for pos := 0 to |data|
        invariant Valid()
        invariant Result(View(), packets, err) == Run(HOST_BUFFER, old(View()), data[..pos])
      {
        assert data[..pos + 1][..pos] == data[..pos];
        var ps, e := ReceiveByte(data[pos]);
        packets, err := packets + ps, err + e;
      }
      assert data[..|data|] == data;
    }

    /** One turn of the loop. */
    method ReceiveByte(ch: u8) returns (packets: seq<seq<u8>>, err: nat)
      requires Valid()
      modifies this, buf
      ensures Valid()
      ensures Result(View(), packets, err) == Step(HOST_BUFFER, old(View()), ch)
    {
      packets, err := [], 0;
      var c := ch;
      if c == END {
        if !escaped {
          packets, err := CheckPacket();
        }
        bufpos := 0;
        escaped := false;
        return;
      } else if c == ESC {
        escaped := true;
        return;
      }
      if escaped {
        escaped := false;
        if c == T_ESC {
          c := ESC;
        } else if c == T_END {
          c := END;
        } else {
          bufpos := 0;
        }
      }
      if bufpos < HOST_BUFFER {
        buf[bufpos] := c;
        bufpos := bufpos + 1;
      } else {
        bufpos := 0;
      }
    }

    /** What an END finds in the buffer. */
    method CheckPacket() returns (packets: seq<seq<u8>>, err: nat)
      requires Valid()
      ensures Result(CLEAN, packets, err) == Close(buf[..bufpos])
    {
      packets, err := [], 0;
      if bufpos > 2 {
        var crc := SumBuffer(bufpos - 2);
        crc := (0x1_0000 - crc as int) % 0x1_0000;
        var crc1 := buf[bufpos - 1] as int * 0x100 + buf[bufpos - 2] as int;
        assert buf[..bufpos][..bufpos - 2] == buf[..bufpos - 2];
        if crc1 == crc {
          packets := [buf[..bufpos - 2]];
        } else {
          err := 1;
        }
      }
    }

    /** The inner loop: a 16-bit sum of the first `n` buffered bytes. */
    method SumBuffer(n: nat) returns (crc: u16)
      requires Valid() && n <= bufpos
      ensures crc == Sum16(buf[..n])
    {
      crc := 0;
      for i := 0 to n
        invariant crc == Sum16(buf[..i])
      {
        assert buf[..i + 1][..i] == buf[..i];
        crc := Plus16(crc, buf[i]);
      }
    }
  }
}
