/** The bounded byte stream of u_bstream.c, whose first failure sticks. */
module ByteStream {
  import opened Bytes

  datatype Status = Ok | ReadPastEnd | WritePastEnd | NotInitialised

  /** A stream over `data`; `bound` is false for a null buffer. */
  datatype Stream = Stream(bound: bool, data: seq<u8>, pos: nat, status: Status)
  {
    predicate Valid() { pos <= |data| }

    /** The outcome of the check in front of every access of `n` bytes. */
    function Checked(n: nat, failure: Status): Status {
      if !status.Ok? then status
      else if !bound then NotInitialised
      else if pos + n > |data| then failure
      else Ok
    }

    predicate CanRead(n: nat) { Checked(n, ReadPastEnd).Ok? }

    /** The next `n` bytes, or `n` zeroes if they are not there. */
    function Peek(n: nat): (r: seq<u8>)
      ensures |r| == n
    {
      if CanRead(n) then data[pos..pos + n] else seq(n, _ => 0)
    }

    function Skip(n: nat): Stream {
      this.(pos := if CanRead(n) then pos + n else pos, status := Checked(n, ReadPastEnd))
    }

    function Put(bytes: seq<u8>): Stream {
      var st := Checked(|bytes|, WritePastEnd);
      if st.Ok? then this.(data := data[..pos] + bytes + data[pos + |bytes|..], pos := pos + |bytes|)
      else this.(status := st)
    }

    /** One `U_bstream_put_u8` after another. */
    function PutEach(bytes: seq<u8>): Stream {
      if bytes == [] then this else PutEach(bytes[..|bytes| - 1]).Put([bytes[|bytes| - 1]])
    }

    /** What has been written. */
    function Written(): seq<u8>
      requires Valid()
    {
      data[..pos]
    }
  }

  /** After the first failure no access changes anything, and reads give zero. */
  lemma FailureSticks(s: Stream, n: nat, bytes: seq<u8>)
    requires !s.status.Ok?
    ensures s.Skip(n) == s && s.Put(bytes) == s && s.Peek(n) == seq(n, _ => 0)
  {
  }

  /** A put that succeeds can be read back where it was written and leaves the rest alone. */
  lemma PutThenPeek(s: Stream, bytes: seq<u8>)
    requires s.Valid() && s.Put(bytes).status.Ok?
    ensures var t := s.Put(bytes);
            t.(pos := s.pos).Peek(|bytes|) == bytes && t.Written() == s.Written() + bytes &&
            |t.data| == |s.data| && t.data[t.pos..] == s.data[t.pos..]
  {
  }

  /**
   Byte-wise writing stores as many bytes as fit, in order, and reports an overflow exactly when
   one did not fit.
   */
  lemma {:induction false} PutEachFillsUp(s: Stream, bytes: seq<u8>)
    requires s.Valid() && s.bound && s.status.Ok?
    ensures
      var t := s.PutEach(bytes);
      var room := |s.data| - s.pos;
      t.Valid() && t.bound && |t.data| == |s.data| &&
      t.Written() == s.Written() + (if |bytes| <= room then bytes else bytes[..room]) &&
      t.status == if |bytes| <= room then Ok else WritePastEnd
  {
    if bytes == [] {
      assert s.Written() + bytes == s.Written();
    } else {
      var front, b := bytes[..|bytes| - 1], bytes[|bytes| - 1];
      PutEachFillsUp(s, front);
      var t := s.PutEach(front);
      if t.Put([b]).status.Ok? {
        PutThenPeek(t, [b]);
        assert bytes == front + [b];
        assert s.Written() + front + [b] == s.Written() + bytes;
      } else {
        var room := |s.data| - s.pos;
        assert |front| >= room;
        assert bytes[..room] == front[..room];
      }
    }
  }

  /** A buffer of `cap` bytes to which `all` has been written from the start, as far as it fits. */
  ghost predicate Filled(s: Stream, cap: nat, all: seq<u8>) {
    s.Valid() && s.bound && |s.data| == cap &&
    if |all| <= cap then s.status == Ok && s.Written() == all
    else s.status == WritePastEnd && s.Written() == all[..cap]
  }

  lemma NothingFilled(s: Stream)
    requires s.bound && s.pos == 0 && s.status == Ok
    ensures Filled(s, |s.data|, [])
  {
  }

  lemma FilledPut(s: Stream, cap: nat, all: seq<u8>, bytes: seq<u8>)
    requires Filled(s, cap, all) && (|bytes| == 1 || |all| + |bytes| <= cap)
    ensures Filled(s.Put(bytes), cap, all + bytes)
  {
    if |all| + |bytes| <= cap {
      PutThenPeek(s, bytes);
    } else if |all| == cap {
      assert (all + bytes)[..cap] == all;
    } else {
      assert (all + bytes)[..cap] == all[..cap];
    }
  }

  lemma FilledMeans(s: Stream, cap: nat, all: seq<u8>)
    requires Filled(s, cap, all)
    ensures s.Valid() && s.Written() == if |all| <= cap then all else all[..cap]
  {
  }

  /** `U_BStream` and its operations. */
  class BStream {
    const data: array?<u8>
    const size: nat
    var pos: nat
    var status: Status

    ghost predicate Valid()
      reads this
    {
      if data == null then pos == 0 else pos <= size <= data.Length
    }

    ghost function View(): Stream
      requires Valid()
      reads this, data
    {
      Stream(data != null, if data == null then [] else data[..size], pos, status)
    }

    constructor (buf: array?<u8>, length: nat)
      requires buf == null || length <= buf.Length
      ensures Valid() && data == buf && size == length && pos == 0 && status == Ok
    {
      data, size, pos, status := buf, length, 0, Ok;
    }

    method Verify(n: nat, failure: Status) returns (ok: bool)
      requires Valid() && !failure.Ok?
      modifies `status
      ensures Valid() && status == old(View()).Checked(n, failure) && (ok <==> status.Ok?)
    {
      if status != Ok {
        return false;
      }
      if data == null {
        status := NotInitialised;
        return false;
      }
      if pos + n > size {
        status := failure;
        return false;
      }
      return true;
    }

    method PutU8(v: u8)
      requires Valid()
      modifies this, data
      ensures Valid() && View() == old(View()).Put([v])
    {
      var ok := Verify(1, WritePastEnd);
      if ok {
        data[pos] := v;
        pos := pos + 1;
      }
    }

    method PutU16Le(v: u16)
      requires Valid()
      modifies this, data
      ensures Valid() && View() == old(View()).Put(Le16(v))
    {
      var ok := Verify(2, WritePastEnd);
      if ok {
        data[pos] := Byte0(v);
        data[pos + 1] := Byte1(v);
        pos := pos + 2;
      }
    }

    method PutU32Le(v: nat)
      requires Valid()
      modifies this, data
      ensures Valid() && View() == old(View()).Put(Le32(v))
    {
      var ok := Verify(4, WritePastEnd);
      if ok {
        assert Le32(v) == [Byte0(v), Byte1(v), Byte2(v), Byte3(v)];
        hide Le32, Byte0, Byte1, Byte2, Byte3;
        data[pos] := Byte0(v);
        data[pos + 1] := Byte1(v);
        data[pos + 2] := Byte2(v);
        data[pos + 3] := Byte3(v);
        pos := pos + 4;
      }
    }

    method PutU32Be(v: nat)
      requires Valid()
      modifies this, data
      ensures Valid() && View() == old(View()).Put(Be32(v))
    {
      var ok := Verify(4, WritePastEnd);
      if ok {
        data[pos] := Byte3(v);
        data[pos + 1] := Byte2(v);
        data[pos + 2] := Byte1(v);
        data[pos + 3] := Byte0(v);
        pos := pos + 4;
      }
    }

    method GetU8() returns (r: u8)
      requires Valid()
      modifies this
      ensures Valid() && View() == old(View()).Skip(1) && r == old(View()).Peek(1)[0]
    {
      r := 0;
      var ok := Verify(1, ReadPastEnd);
      if ok {
        r := data[pos];
        pos := pos + 1;
      }
    }

    method GetU16Le() returns (r: u16)
      requires Valid()
      modifies this
      ensures Valid() && View() == old(View()).Skip(2) && r == FromLe16(old(View()).Peek(2))
    {
      r := 0;
      var ok := Verify(2, ReadPastEnd);
      if ok {
        r := data[pos + 1] as int * 0x100 + data[pos] as int;
        pos := pos + 2;
      }
    }

    method GetU32Le() returns (r: u32)
      requires Valid()
      modifies this
      ensures Valid() && View() == old(View()).Skip(4) && r == FromLe32(old(View()).Peek(4))
    {
      r := 0;
      var ok := Verify(4, ReadPastEnd);
      if ok {
        var acc: int := data[pos + 3];
        acc := acc * 0x100 + data[pos + 2] as int;
        acc := acc * 0x100 + data[pos + 1] as int;
        r := acc * 0x100 + data[pos] as int;
        pos := pos + 4;
      }
    }
  }

  // ----- reading a buffer from its start -----

  /** The stream has been asked for the first `p` bytes of `c`. */
  ghost predicate Reading(s: Stream, c: seq<u8>, p: nat) {
    s.bound && s.data == c &&
    if p <= |c| then s.status == Status.Ok && s.pos == p else s.status == ReadPastEnd
  }

  method ReadByte(bs: BStream, ghost c: seq<u8>, ghost p: nat) returns (b: u8)
    requires bs.Valid() && Reading(bs.View(), c, p)
    modifies bs
    ensures bs.Valid() && Reading(bs.View(), c, p + 1) && b == if p < |c| then c[p] else 0
  {
    b := bs.GetU8();
  }

  method ReadHalf(bs: BStream, ghost c: seq<u8>, ghost p: nat) returns (h: u16)
    requires bs.Valid() && Reading(bs.View(), c, p)
    modifies bs
    ensures bs.Valid() && Reading(bs.View(), c, p + 2) && h == if p + 2 <= |c| then FromLe16(c[p..p + 2]) else 0
  {
    h := bs.GetU16Le();
  }

  method ReadWord(bs: BStream, ghost c: seq<u8>, ghost p: nat) returns (w: u32)
    requires bs.Valid() && Reading(bs.View(), c, p)
    modifies bs
    ensures bs.Valid() && Reading(bs.View(), c, p + 4) && w == if p + 4 <= |c| then FromLe32(c[p..p + 4]) else 0
  {
    w := bs.GetU32Le();
  }
}
