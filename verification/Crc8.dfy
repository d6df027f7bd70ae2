/** `CRC8_Dallas` of gcf.c: polynomial 0x31, most significant bit first, and its algebra. */
module Crc8 {

  function ShiftBit(c: bv8): bv8 {
    if c & 0x80 != 0 then (c << 1) ^ 0x31 else c << 1
  }

  function ShiftBits(c: bv8, n: nat): bv8 {
    if n == 0 then c else ShiftBit(ShiftBits(c, n - 1))
  }

  function ShiftByte(c: bv8): bv8 { ShiftBits(c, 8) }

  function Mix(a: bv8, b: bv8): bv8 { a ^ b }

  function Crc(crc: bv8, data: seq<bv8>): bv8 {
    if data == [] then crc else ShiftByte(Mix(Crc(crc, data[..|data| - 1]), data[|data| - 1]))
  }

  method CRC8_Dallas(start: bv8, data: seq<bv8>) returns (crc: bv8)
    ensures crc == Crc(start, data)
  {
    crc := start;
    for k := 0 to |data|
      invariant crc == Crc(start, data[..k])
    {
      assert data[..k + 1][..k] == data[..k];
      crc := crc ^ data[k];
      ghost var mixed := crc;
      for i := 0 to 8
        invariant crc == ShiftBits(mixed, i)
      {
        crc := if crc & 0x80 != 0 then (crc << 1) ^ 0x31 else crc << 1;
      }
    }
    assert data[..|data|] == data;
  }

  function Xor(a: seq<bv8>, b: seq<bv8>): (r: seq<bv8>)
    requires |a| == |b|
    ensures |r| == |a|
  {
    seq(|a|, i requires 0 <= i < |a| => Mix(a[i], b[i]))
  }

  // ----- composition -----

  lemma {:induction false} Compose(crc: bv8, a: seq<bv8>, b: seq<bv8>)
    ensures Crc(crc, a + b) == Crc(Crc(crc, a), b)
  {
    if b == [] {
      assert a + b == a;
    } else {
      Compose(crc, a, b[..|b| - 1]);
      assert (a + b)[..|a + b| - 1] == a + b[..|b| - 1];
    }
  }

  // ----- linearity -----

  lemma MixLaws(a: bv8, b: bv8, c: bv8, d: bv8)
    ensures Mix(Mix(a, b), Mix(c, d)) == Mix(Mix(a, c), Mix(b, d))
    ensures Mix(a, 0) == a && Mix(0, a) == a
    ensures Mix(a, b) == 0 <==> a == b
    ensures Mix(a, b) == a <==> b == 0
  {
  }

  lemma BitLinear(a: bv8, b: bv8)
    ensures ShiftBit(Mix(a, b)) == Mix(ShiftBit(a), ShiftBit(b))
  {
    if a & 0x80 != 0 {
      if b & 0x80 != 0 {} else {}
    } else {
      if b & 0x80 != 0 {} else {}
    }
  }

  lemma BitKernel(a: bv8)
    ensures ShiftBit(a) == 0 <==> a == 0
  {
  }

  lemma {:induction false} BitsLinear(a: bv8, b: bv8, n: nat)
    ensures ShiftBits(Mix(a, b), n) == Mix(ShiftBits(a, n), ShiftBits(b, n))
  {
    hide ShiftBit, Mix;
    if n > 0 {
      BitsLinear(a, b, n - 1);
      BitLinear(ShiftBits(a, n - 1), ShiftBits(b, n - 1));
    }
  }

  lemma {:induction false} BitsKernel(a: bv8, n: nat)
    ensures ShiftBits(a, n) == 0 <==> a == 0
  {
    hide ShiftBit;
    if n > 0 {
      BitsKernel(a, n - 1);
      BitKernel(ShiftBits(a, n - 1));
    }
  }

  lemma CrcSnoc(crc: bv8, data: seq<bv8>, b: bv8)
    ensures Crc(crc, data + [b]) == ShiftByte(Mix(Crc(crc, data), b))
  {
    assert (data + [b])[..|data|] == data;
  }

  /** Over equal lengths the checksum of a combination is the combination of the checksums. */
  lemma {:induction false} Linear(x: bv8, y: bv8, a: seq<bv8>, b: seq<bv8>)
    requires |a| == |b|
    ensures Crc(Mix(x, y), Xor(a, b)) == Mix(Crc(x, a), Crc(y, b))
  {
    hide ShiftBits, Mix;
    if a != [] {
      var a', b', u, v := a[..|a| - 1], b[..|b| - 1], a[|a| - 1], b[|b| - 1];
      Linear(x, y, a', b');
      assert a == a' + [u] && b == b' + [v] && Xor(a, b) == Xor(a', b') + [Mix(u, v)];
      hide Crc;
      CrcSnoc(x, a', u);
      CrcSnoc(y, b', v);
      CrcSnoc(Mix(x, y), Xor(a', b'), Mix(u, v));
      MixLaws(Crc(x, a'), Crc(y, b'), u, v);
      BitsLinear(Mix(Crc(x, a'), u), Mix(Crc(y, b'), v), 8);
    }
  }

  // ----- error detection -----

  /** Appending a byte brings the checksum to zero exactly if it is the checksum. */
  lemma SelfCheck(crc: bv8, data: seq<bv8>, e: bv8)
    ensures Crc(crc, data + [e]) == 0 <==> e == Crc(crc, data)
  {
    hide ShiftBits, Crc, Mix;
    CrcSnoc(crc, data, e);
    MixLaws(Crc(crc, data), e, 0, 0);
    BitsKernel(Mix(Crc(crc, data), e), 8);
  }

  ghost predicate AllZero(s: seq<bv8>) { forall i | 0 <= i < |s| :: s[i] == 0 }

  lemma {:induction false} ZeroTail(crc: bv8, zeroes: seq<bv8>)
    requires AllZero(zeroes)
    ensures Crc(crc, zeroes) == 0 <==> crc == 0
  {
    hide ShiftBits, Mix;
    if zeroes != [] {
      var front := zeroes[..|zeroes| - 1];
      ZeroTail(crc, front);
      MixLaws(Crc(crc, front), 0, 0, 0);
      BitsKernel(Crc(crc, front), 8);
    }
  }

  function Up(b: bv8, n: nat): bv8
    requires n <= 8
  {
    b << n
  }

  function Down(b: bv8, n: nat): bv8
    requires n <= 8
  {
    b >> n
  }

  /** The error `e` flips only bits among the eight that start `s` bits into byte `k`. */
  ghost predicate IsBurst(e: seq<bv8>, k: nat, s: nat, bits: bv8) {
    k < |e| && s < 8 && bits != 0 &&
    e[k] == Down(bits, s) &&
    (if k + 1 < |e| then e[k + 1] == Up(bits, 8 - s) else Up(bits, 8 - s) == 0) &&
    forall i | 0 <= i < |e| && i != k && i != k + 1 :: e[i] == 0
  }

  /** A byte whose top `s` bits are clear is only moved by the first `s` shifts. */
  lemma {:induction false} PlainShifts(high: bv8, s: nat)
    requires s <= 8 && Down(high, 8 - s) == 0
    ensures ShiftBits(high, s) == Up(high, s)
  {
    if s > 0 {
      HigherClear(high, s);
      PlainShifts(high, s - 1);
    }
  }

  lemma HigherClear(high: bv8, s: nat)
    requires 0 < s <= 8 && Down(high, 8 - s) == 0
    ensures Down(high, 8 - (s - 1)) == 0
    ensures ShiftBit(Up(high, s - 1)) == Up(high, s)
  {
    if s == 1 {} else if s == 2 {} else if s == 3 {} else if s == 4 {}
    else if s == 5 {} else if s == 6 {} else if s == 7 {} else {}
  }

  lemma {:induction false} ShiftsCompose(c: bv8, m: nat, n: nat)
    ensures ShiftBits(c, m + n) == ShiftBits(ShiftBits(c, m), n)
  {
    if n > 0 { ShiftsCompose(c, m, n - 1); }
  }

  lemma SplitClears(bits: bv8, s: nat)
    requires s < 8
    ensures
      var high, low := Down(bits, s), Down(Up(bits, 8 - s), 8 - s);
      Down(high, 8 - s) == 0 && Down(low, s) == 0 && Up(low, 8 - s) == Up(bits, 8 - s)
  {
    if s == 0 {} else if s == 1 {} else if s == 2 {} else if s == 3 {}
    else if s == 4 {} else if s == 5 {} else if s == 6 {} else {}
  }

  lemma SplitJoins(bits: bv8, s: nat)
    requires s < 8
    ensures Mix(Up(Down(bits, s), s), Down(Up(bits, 8 - s), 8 - s)) == bits
  {
    if s == 0 {} else if s == 1 {} else if s == 2 {} else if s == 3 {}
    else if s == 4 {} else if s == 5 {} else if s == 6 {} else {}
  }

  lemma ByteIsBits(c: bv8)
    ensures ShiftByte(c) == ShiftBits(c, 8)
  {
    hide ShiftBits;
  }

  /** The two bytes of a burst together shift the burst itself. */
  lemma BurstShifts(bits: bv8, s: nat)
    requires s < 8
    ensures Mix(ShiftByte(Down(bits, s)), Up(bits, 8 - s)) == ShiftBits(bits, 8 - s)
  {
    hide *;
    var high, low := Down(bits, s), Down(Up(bits, 8 - s), 8 - s);
    SplitClears(bits, s);
    SplitJoins(bits, s);
    ByteIsBits(high);
    PlainShifts(high, s);
    ShiftsCompose(high, s, 8 - s);
    PlainShifts(low, 8 - s);
    BitsLinear(Up(high, s), low, 8 - s);
  }

  /** They never cancel. */
  lemma BurstSurvives(bits: bv8, s: nat)
    requires s < 8 && bits != 0
    ensures Mix(ShiftByte(Down(bits, s)), Up(bits, 8 - s)) != 0
    ensures Up(bits, 8 - s) == 0 ==> Down(bits, s) != 0
  {
    BurstParts(bits, s);
    hide *;
    BurstShifts(bits, s);
    BitsKernel(bits, 8 - s);
  }

  lemma BurstParts(bits: bv8, s: nat)
    requires s < 8 && bits != 0
    ensures Up(bits, 8 - s) == 0 ==> Down(bits, s) != 0
  {
    if s == 0 {} else if s == 1 {} else if s == 2 {} else if s == 3 {}
    else if s == 4 {} else if s == 5 {} else if s == 6 {} else {}
  }

  lemma CrcCons(crc: bv8, b: bv8, data: seq<bv8>)
    ensures Crc(crc, [b] + data) == Crc(ShiftByte(Mix(crc, b)), data)
  {
    Compose(crc, [b], data);
    CrcSnoc(crc, [], b);
    assert [] + [b] == [b];
  }

  lemma BurstChecksum(e: seq<bv8>, k: nat, s: nat, bits: bv8)
    requires IsBurst(e, k, s, bits)
    ensures Crc(0, e) != 0
  {
    BurstSurvives(bits, s);
    TwoBytesSurvive(e, k, Down(bits, s), Up(bits, 8 - s));
  }

  lemma TwoBytesSurvive(e: seq<bv8>, k: nat, b: bv8, b': bv8)
    requires k < |e| && e[k] == b && (if k + 1 < |e| then e[k + 1] == b' else b' == 0)
    requires forall i | 0 <= i < |e| && i != k && i != k + 1 :: e[i] == 0
    requires Mix(ShiftByte(b), b') != 0 && (b' == 0 ==> b != 0)
    ensures Crc(0, e) != 0
  {
    hide ShiftByte, Crc, Mix;
    var c, rest := ShiftByte(b), e[k + 1..];
    assert e == e[..k] + ([b] + rest);
    ZeroTail(0, e[..k]);
    Compose(0, e[..k], [b] + rest);
    CrcCons(0, b, rest);
    MixLaws(b, 0, 0, 0);
    if rest != [] {
      assert rest == [b'] + e[k + 2..];
      CrcCons(c, b', e[k + 2..]);
      NonzeroKept(Mix(c, b'));
      ZeroTail(ShiftByte(Mix(c, b')), e[k + 2..]);
    } else {
      ZeroTail(c, rest);
      NonzeroKept(b);
    }
  }

  lemma NonzeroKept(b: bv8)
    ensures ShiftByte(b) == 0 <==> b == 0
  {
    BitsKernel(b, 8);
  }

  /** Every error confined to eight consecutive bits, wherever it lies, changes the checksum. */
  lemma BurstDetected(crc: bv8, data: seq<bv8>, e: seq<bv8>, k: nat, s: nat, bits: bv8)
    requires |e| == |data| && IsBurst(e, k, s, bits)
    ensures Crc(crc, Xor(data, e)) != Crc(crc, data)
  {
    hide Crc, Mix;
    BurstChecksum(e, k, s, bits);
    Linear(crc, 0, data, e);
    MixLaws(crc, 0, 0, 0);
    MixLaws(Crc(crc, data), Crc(0, e), 0, 0);
  }

  // ----- the one error of nine bits that goes unnoticed -----

  /**
   The error `e` flips only bits among the nine that start `s` bits into byte `k`: `bits`, of which the
   first is set, and then a one.
   */
  ghost predicate IsWideBurst(e: seq<bv8>, k: nat, s: nat, bits: bv8) {
    k + 1 < |e| && s < 8 && bits & 0x80 != 0 &&
    e[k] == Down(bits, s) && e[k + 1] == Mix(Up(bits, 8 - s), Up(1, 7 - s)) &&
    forall i | 0 <= i < |e| && i != k && i != k + 1 :: e[i] == 0
  }

  lemma OneShifted(bits: bv8)
    ensures ShiftBit(bits) == 1 <==> bits == 0x98
  {
  }

  lemma LowOne(s: nat)
    requires s < 8
    ensures Down(1, 8 - (7 - s)) == 0 && ShiftBits(1, 7 - s) == Up(1, 7 - s)
  {
    assert Down(1, 8 - (7 - s)) == 0 by {
      if s == 0 {} else if s == 1 {} else if s == 2 {} else if s == 3 {}
      else if s == 4 {} else if s == 5 {} else if s == 6 {} else {}
    }
    hide *;
    PlainShifts(1, 7 - s);
  }

  lemma WideBurstCancels(bits: bv8, s: nat)
    requires s < 8
    ensures Mix(ShiftByte(Down(bits, s)), Mix(Up(bits, 8 - s), Up(1, 7 - s))) == 0 <==> bits == 0x98
  {
    var m := 7 - s;
    var a, b, c := ShiftByte(Down(bits, s)), Up(bits, 8 - s), Up(1, m);
    assert ShiftBits(bits, 1) == ShiftBit(bits) by { assert ShiftBits(bits, 0) == bits; }
    hide *;
    BurstShifts(bits, s);
    LowOne(s);
    ShiftsCompose(bits, 1, m);
    assert 1 + m == 8 - s;
    MixAssociates(a, b, c);
    BitsLinear(ShiftBit(bits), 1, m);
    BitsKernel(Mix(ShiftBit(bits), 1), m);
    MixLaws(ShiftBit(bits), 1, 0, 0);
    OneShifted(bits);
  }

  lemma MixAssociates(a: bv8, b: bv8, c: bv8)
    ensures Mix(a, Mix(b, c)) == Mix(Mix(a, b), c)
  {
  }

  lemma TwoBytesCancel(e: seq<bv8>, k: nat, b: bv8, b': bv8)
    requires k + 1 < |e| && e[k] == b && e[k + 1] == b'
    requires forall i | 0 <= i < |e| && i != k && i != k + 1 :: e[i] == 0
    ensures Crc(0, e) == 0 <==> Mix(ShiftByte(b), b') == 0
  {
    hide ShiftByte, Crc, Mix;
    var c, tail := ShiftByte(b), e[k + 2..];
    assert e == e[..k] + ([b] + ([b'] + tail));
    ZeroTail(0, e[..k]);
    Compose(0, e[..k], [b] + ([b'] + tail));
    CrcCons(0, b, [b'] + tail);
    MixLaws(b, 0, 0, 0);
    CrcCons(c, b', tail);
    NonzeroKept(Mix(c, b'));
    ZeroTail(ShiftByte(Mix(c, b')), tail);
  }

  /**
   An error confined to nine consecutive bits of which the first and the last are flipped, wherever it
   lies, goes unnoticed if and only if it is 1 0011 0001, the generator.
   */
  lemma NineBitsMissedIff(crc: bv8, data: seq<bv8>, e: seq<bv8>, k: nat, s: nat, bits: bv8)
    requires |e| == |data| && IsWideBurst(e, k, s, bits)
    ensures Crc(crc, Xor(data, e)) == Crc(crc, data) <==> bits == 0x98
  {
    hide Crc, Mix;
    TwoBytesCancel(e, k, e[k], e[k + 1]);
    WideBurstCancels(bits, s);
    Linear(crc, 0, data, e);
    MixLaws(crc, 0, 0, 0);
    MixLaws(Crc(crc, data), Crc(0, e), 0, 0);
  }
}
