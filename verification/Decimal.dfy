/** Decimal text: what `U_sstream_put_long` writes and `U_strtol` reads. */
module Decimal {
  import opened Bytes

  const ZERO: u8 := 48
  const MINUS: u8 := 45
  const LONG_MAX: int := 0x7FFF_FFFF_FFFF_FFFF
  const MODULUS: int := 0x1_0000_0000_0000_0000

  predicate IsDigit(c: u8) { ZERO <= c <= ZERO + 9 }

  predicate AllDigits(s: seq<u8>) { forall i | 0 <= i < |s| :: IsDigit(s[i]) }

  predicate IsBlank(c: u8) { c == 32 || c == 9 }

  function Digits(n: nat): seq<u8> {
    if n < 10 then [ZERO + n] else Digits(n / 10) + [ZERO + n % 10]
  }

  function Text(num: int): seq<u8> {
    if num < 0 then [MINUS] + Digits(-num) else Digits(num)
  }

  function Value(s: seq<u8>): nat
    requires AllDigits(s)
  {
    if s == [] then 0
    else Value(s[..|s| - 1]) * 10 + (s[|s| - 1] - ZERO)
  }

  /** Digit accumulation as the source does it: 64 bits, and a flag for sums that fall back. */
  datatype Acc = Acc(result: u64, wrapped: bool)

  function Accumulate(s: seq<u8>): Acc
    requires AllDigits(s)
  {
    if s == [] then Acc(0, false)
    else
      var a := Accumulate(s[..|s| - 1]);
      var next := (a.result as int * 10 + (s[|s| - 1] - ZERO)) % MODULUS;
      Acc(next, a.wrapped || next < a.result)
  }

  datatype Error = Error(invalid: bool, overflow: bool, underflow: bool)
  {
    predicate None() { !invalid && !overflow && !underflow }
  }

  /** Conversion of an `unsigned long` to `long`, and the negation of the result, both wrapping. */
  function ToLong(x: u64): int { if x <= LONG_MAX then x else x as int - MODULUS }

  function Negated(x: u64): int { if x <= LONG_MAX + 1 then -(x as int) else MODULUS - x as int }

  /** The verdict on a number's sign and digits. */
  function Judge(negative: bool, digits: seq<u8>): (int, Error)
    requires AllDigits(digits)
  {
    var a := Accumulate(digits);
    (if negative then Negated(a.result) else ToLong(a.result),
     Error(digits == [],
           a.wrapped || (!negative && a.result > LONG_MAX),
           negative && a.result > LONG_MAX + 1))
  }

  // ----- accumulation is exact below 2^64 -----

  lemma {:induction false} AccumulateExact(s: seq<u8>)
    requires AllDigits(s) && Value(s) < MODULUS
    ensures Accumulate(s) == Acc(Value(s), false)
  {
    if s != [] {
      AccumulateExact(s[..|s| - 1]);
      assert Value(s) % MODULUS == Value(s) by { ModSmall(Value(s)); }
    }
  }

  lemma ModSmall(n: nat)
    requires n < MODULUS
    ensures n % MODULUS == n
  {
  }

  /** For every number below 2^64 the flags and the result are exact. */
  lemma {:induction false} JudgeExact(negative: bool, s: seq<u8>)
    requires AllDigits(s) && Value(s) < MODULUS
    ensures
      var (r, e) := Judge(negative, s);
      var num: int := if negative then -(Value(s) as int) else Value(s);
      (e.invalid <==> s == []) && (e.overflow <==> num > LONG_MAX) &&
      (e.underflow <==> num < -LONG_MAX - 1) && (e.None() ==> r == num)
  {
    AccumulateExact(s);
  }

  /** No digit brings the value modulo 2^64 below what it was before. */
  predicate NeverFallsBack(s: seq<u8>)
    requires AllDigits(s)
  {
    s == [] ||
    (NeverFallsBack(s[..|s| - 1]) && Value(s[..|s| - 1]) % MODULUS <= Value(s) % MODULUS)
  }

  lemma MultiplesVanish(x: nat, d: nat)
    ensures (x % MODULUS * 10 + d) % MODULUS == (x * 10 + d) % MODULUS
  {
    var turns, rest := x / MODULUS, x % MODULUS;
    assert x * 10 + d == MODULUS * (10 * turns) + (rest * 10 + d);
    Turns(rest * 10 + d, 10 * turns);
  }

  lemma Turns(a: nat, turns: nat)
    ensures (MODULUS * turns + a) % MODULUS == a % MODULUS
  {
  }

  /** Accumulation is arithmetic modulo 2^64, and the flag says that some digit fell back. */
  lemma {:induction false} AccumulateIs(s: seq<u8>)
    requires AllDigits(s)
    ensures Accumulate(s).result as int == Value(s) % MODULUS
    ensures Accumulate(s).wrapped <==> !NeverFallsBack(s)
  {
    if s != [] {
      var front, d := s[..|s| - 1], s[|s| - 1] - ZERO;
      AccumulateIs(front);
      MultiplesVanish(Value(front), d);
      assert Value(s) == Value(front) * 10 + d;
    }
  }

  /**
   From 2^64 on, an overflow can pass for a number. For all texts of digits: no error is reported
   exactly if no digit falls back modulo 2^64 and the wrapped value is in range. The condition
   speaks of every digit, because each of them can trip the test; for up to twenty digits
   `ShortOverflowMissedIff` has one that a caller can check on the value alone.
   */
  lemma OverflowMissedIff(negative: bool, s: seq<u8>)
    requires AllDigits(s) && MODULUS <= Value(s)
    ensures
      Judge(negative, s).1.None() <==>
      NeverFallsBack(s) && Value(s) % MODULUS <= if negative then LONG_MAX + 1 else LONG_MAX
  {
    AccumulateIs(s);
    hide NeverFallsBack, Accumulate;
  }

  /** For texts of up to twenty digits only the last digit can fall back. */
  lemma ShortOverflowMissedIff(negative: bool, s: seq<u8>)
    requires AllDigits(s) && MODULUS <= Value(s) < 10 * MODULUS
    ensures
      var wrapped := Value(s) % MODULUS;
      Judge(negative, s).1.None() <==>
      Value(s) / 10 <= wrapped <= if negative then LONG_MAX + 1 else LONG_MAX
  {
    var front, d := s[..|s| - 1], s[|s| - 1] - ZERO;
    assert Value(s) == Value(front) * 10 + d && Value(s) / 10 == Value(front);
    AccumulateExact(front);
  }

  /** Such an input: 24000000000000000000 reads as 5553255926290448384 without an error. */
  lemma OverflowMissed()
    ensures
      var s := Digits(24_000_000_000_000_000_000);
      AllDigits(s) && Judge(false, s) == (5_553_255_926_290_448_384, Error(false, false, false))
  {
    var v := 24_000_000_000_000_000_000;
    DigitsValue(v);
    ShortOverflowMissedIff(false, Digits(v));
    var front := Digits(v)[..|Digits(v)| - 1];
    assert Value(front) == v / 10;
    AccumulateExact(front);
  }

  // ----- round trip -----

  lemma {:induction false} DigitsValue(n: nat)
    ensures AllDigits(Digits(n)) && Value(Digits(n)) == n
  {
    if n < 10 {
      assert [ZERO + n][..0] == [];
    } else {
      DigitsValue(n / 10);
      assert Digits(n)[..|Digits(n)| - 1] == Digits(n / 10);
    }
  }

  function Pow10(k: nat): nat { if k == 0 then 1 else 10 * Pow10(k - 1) }

  lemma {:induction false} DigitsLength(n: nat, k: nat)
    requires 0 < k && n < Pow10(k)
    ensures 1 <= |Digits(n)| <= k
  {
    if 10 <= n {
      DigitsLength(n / 10, k - 1);
    }
  }

  lemma LongLength(n: nat)
    requires n <= LONG_MAX + 1
    ensures 1 <= |Digits(n)| <= 19
  {
    assert Pow10(5) == 100_000;
    assert Pow10(10) == 100_000 * Pow10(5);
    assert Pow10(15) == 100_000 * Pow10(10);
    assert Pow10(19) == 10_000 * Pow10(15);
    DigitsLength(n, 19);
  }

  // ----- reading -----

  /** How many bytes at the start of `s` are blanks; how many are digits. */
  function BlankRun(s: seq<u8>): (n: nat)
    ensures n <= |s|
  {
    if s == [] || !IsBlank(s[0]) then 0 else 1 + BlankRun(s[1..])
  }

  function DigitRun(s: seq<u8>): (n: nat)
    ensures n <= |s| && AllDigits(s[..n])
  {
    if s == [] || !IsDigit(s[0]) then 0 else 1 + DigitRun(s[1..])
  }

  lemma {:induction false} BlankRunUnique(s: seq<u8>, n: nat)
    requires n <= |s| && (forall i | 0 <= i < n :: IsBlank(s[i])) && (n < |s| ==> !IsBlank(s[n]))
    ensures BlankRun(s) == n
  {
    if n > 0 { BlankRunUnique(s[1..], n - 1); }
  }

  lemma {:induction false} DigitRunUnique(s: seq<u8>, n: nat)
    requires n <= |s| && AllDigits(s[..n]) && (n < |s| ==> !IsDigit(s[n]))
    ensures DigitRun(s) == n
  {
    if n > 0 {
      assert s[..n][0] == s[0] && s[1..][..n - 1] == s[..n][1..];
      DigitRunUnique(s[1..], n - 1);
    }
  }

  /** Number, end position and error of a text; `beyond` is the byte after it in memory. */
  function Parse(s: seq<u8>, beyond: u8): (int, nat, Error) {
    if s == [] then (0, 0, Error(true, false, false))
    else
      var b := BlankRun(s);
      var negative := (if b < |s| then s[b] else beyond) == MINUS;
      var from := if negative then b + 1 else b;
      var rest := if from <= |s| then s[from..] else [];
      var n := DigitRun(rest);
      var (r, e) := Judge(negative, rest[..n]);
      (r, from + n, e)
  }

  /**
   A number as it is read: blanks and tabulators, a minus sign or none, and digits up to the first byte that
   is none; anything else in front of the digits, a plus sign too, leaves no digits.
   */
  lemma NumberRead(blanks: seq<u8>, negative: bool, ds: seq<u8>, rest: seq<u8>, beyond: u8)
    requires forall i | 0 <= i < |blanks| :: blanks[i] == 32 || blanks[i] == 9
    requires forall i | 0 <= i < |ds| :: 48 <= ds[i] <= 57
    requires rest != [] ==> !(48 <= rest[0] <= 57)
    requires ds == [] ==> rest != [] && (negative || rest[0] !in [32, 9, 45])
    ensures
      var sign := if negative then [45] else [];
      AllDigits(ds) &&
      Parse(blanks + sign + ds + rest, beyond)
        == (Judge(negative, ds).0, |blanks| + |sign| + |ds|, Judge(negative, ds).1)
  {
    var sign := if negative then [45] else [];
    var tail := ds + rest;
    var s := blanks + sign + ds + rest;
    assert tail[..|ds|] == ds && s[|blanks|] == (sign + tail)[0];
    assert s[|blanks| + |sign|..] == tail;
    BlankRunUnique(s, |blanks|);
    DigitRunUnique(tail, |ds|);
    hide Judge, BlankRun, DigitRun, IsBlank, IsDigit, AllDigits;
  }

  /** The digit loop. */
  method ScanDigits(s: seq<u8>) returns (i: nat, acc: Acc)
    ensures i == DigitRun(s) && acc == Accumulate(s[..i])
  {
    i, acc := 0, Acc(0, false);
    while i < |s| && IsDigit(s[i])
      invariant i <= |s| && AllDigits(s[..i]) && acc == Accumulate(s[..i])
    {
      var next := (acc.result as int * 10 + (s[i] - ZERO)) % MODULUS;
      acc := Acc(next, acc.wrapped || next < acc.result);
      assert s[..i + 1][..i] == s[..i];
      i := i + 1;
    }
    DigitRunUnique(s, i);
  }

  /** `U_strtol`: what it returns, where `endp` points, and its error bits. */
  method U_strtol(s: seq<u8>, beyond: u8) returns (r: int, end: nat, err: Error)
    ensures (r, end, err) == Parse(s, beyond)
  {
    if s == [] {
      return 0, 0, Error(true, false, false);
    }
    var b := 0;
    while b < |s| && IsBlank(s[b])
      invariant b <= |s| && forall i | 0 <= i < b :: IsBlank(s[i])
    {
      b := b + 1;
    }
    BlankRunUnique(s, b);
    var negative := (if b < |s| then s[b] else beyond) == MINUS;
    var from := if negative then b + 1 else b;
    var i, acc := ScanDigits(if from <= |s| then s[from..] else []);
    err := Error(i == 0, acc.wrapped, false);
    if acc.result > LONG_MAX {
      if !negative {
        err := err.(overflow := true);
      } else if acc.result > LONG_MAX + 1 {
        err := err.(underflow := true);
      }
    }
    end := from + i;
    r := if negative then Negated(acc.result) else ToLong(acc.result);
  }

  /** Every long but the smallest survives printing and parsing, to the last byte. */
  lemma RoundTrip(num: int, beyond: u8)
    requires -LONG_MAX <= num <= LONG_MAX
    ensures Parse(Text(num), beyond) == (num, |Text(num)|, Error(false, false, false))
  {
    var s, m := Text(num), if num < 0 then -num else num;
    var ds := Digits(m);
    DigitsValue(m);
    LongLength(m);
    hide Digits;
    assert IsDigit(ds[0]);
    BlankRunUnique(s, 0);
    DigitRunUnique(ds, |ds|);
    assert s[if num < 0 then 1 else 0..] == ds && ds[..|ds|] == ds;
    JudgeExact(num < 0, ds);
  }
}
