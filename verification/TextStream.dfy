/** The text stream of u_sstream.c, as far as the flasher needs it. */
module TextStream {
  import opened Bytes
  import opened Decimal

  datatype Status = Ok | ErrRange | ErrInvalid | ErrNoSpace

  predicate OccursAt(text: seq<u8>, word: seq<u8>, i: nat) {
    i < |text| && i + |word| <= |text| && text[i..i + |word|] == word
  }

  predicate Contains(text: seq<u8>, word: seq<u8>) {
    exists i | 0 <= i < |text| :: OccursAt(text, word, i)
  }

  /** C's `/` and `%` truncate toward zero. */
  function TruncDiv(n: int): int { if n < 0 then -((-n) / 10) else n / 10 }

  function TruncMod(n: int): int { n - 10 * TruncDiv(n) }

  function Magnitude(n: int): nat { if n < 0 then -n else n }

  lemma LastDigit(n: int)
    ensures var m := Magnitude(n);
            Magnitude(TruncMod(n)) == m % 10 && Magnitude(TruncDiv(n)) == m / 10 &&
            |Digits(m)| >= 1 && (TruncDiv(n) == 0 <==> m < 10)
  {
  }

  function Reversed(s: seq<u8>): (r: seq<u8>)
    ensures |r| == |s|
  {
    if s == [] then [] else Reversed(s[1..]) + [s[0]]
  }

  lemma {:induction false} ReversedLaws(s: seq<u8>, b: u8)
    ensures Reversed(s + [b]) == [b] + Reversed(s)
  {
    if s != [] {
      ReversedLaws(s[1..], b);
      assert (s + [b])[1..] == s[1..] + [b];
    }
  }

  lemma {:induction false} ReversedAt(s: seq<u8>, k: nat)
    requires k < |s|
    ensures Reversed(s)[k] == s[|s| - 1 - k]
  {
    if k < |s| - 1 { ReversedAt(s[1..], k); }
  }

  /** `s` with `bytes` written over it from `at` on. */
  function Spliced(s: seq<u8>, at: nat, bytes: seq<u8>): seq<u8>
    requires at + |bytes| <= |s|
  {
    s[..at] + bytes + s[at + |bytes|..]
  }

  lemma SplicedTwice(s: seq<u8>, at: nat, a: seq<u8>, b: seq<u8>)
    requires at + |a| + |b| <= |s|
    ensures Spliced(Spliced(s, at, a), at + |a|, b) == Spliced(s, at, a + b)
  {
  }

  /** `U_SStream` over `str[..len]`. */
  class SStream {
    const str: array<u8>
    const len: nat
    var pos: nat
    var status: Status

    /** A stream in good order has room for the terminating NUL. */
    ghost predicate Valid()
      reads this
    {
      pos <= len <= str.Length && (status.Ok? ==> pos < len)
    }

    constructor (buf: array<u8>, size: nat)
      requires size <= buf.Length
      ensures Valid() && str == buf && len == size && pos == 0
      ensures status == if size > 0 then Ok else ErrInvalid
    {
      str, len, pos := buf, size, 0;
      status := if size > 0 then Ok else ErrInvalid;
    }

    /** `U_sstream_find`: move to the first occurrence at or after the position, if there is one. */
    method Find(word: seq<u8>) returns (found: bool)
      requires len <= str.Length
      modifies `pos
      ensures found <==> exists i | old(pos) <= i < len :: OccursAt(str[..len], word, i)
      ensures found ==> OccursAt(str[..len], word, pos) && old(pos) <= pos
      ensures found ==> forall i | old(pos) <= i < pos :: !OccursAt(str[..len], word, i)
      ensures !found ==> pos == old(pos)
    {
      var p := pos;
      ghost var text := str[..len];
      while p < len && len - p >= |word|
        invariant pos == old(pos) <= p
        invariant forall i | pos <= i < p :: !OccursAt(text, word, i)
      {
        var matched := 0;
        while matched < |word| && str[p + matched] == word[matched]
          invariant matched <= |word| && str[p..p + matched] == word[..matched]
        {
          matched := matched + 1;
        }
        assert text[p..p + |word|] == str[p..p + |word|];
        if matched == |word| {
          assert word[..|word|] == word;
          pos := p;
          assert OccursAt(text, word, p) && text == str[..len];
          return true;
        }
        assert text[p..p + |word|][matched] != word[matched];
        p := p + 1;
      }
      return false;
    }

    /** The digits of `num`, least significant first, as the do-while loop leaves them in `buf`. */
    method ReverseDigits(num: int) returns (buf: array<u8>, n: nat)
      requires -LONG_MAX - 1 <= num <= LONG_MAX
      ensures fresh(buf) && buf.Length == 24 && 1 <= n <= 19
      ensures Reversed(buf[..n]) == Digits(Magnitude(num))
    {
      LongLength(Magnitude(num));
      buf := new u8[24];
      var rest, more := num, true;
      n := 0;
      while more
        invariant n + (if more then |Digits(Magnitude(rest))| else 0) == |Digits(Magnitude(num))|
        invariant more ==> Digits(Magnitude(num)) == Digits(Magnitude(rest)) + Reversed(buf[..n])
        invariant !more ==> Digits(Magnitude(num)) == Reversed(buf[..n])
        decreases more, Magnitude(rest)
      {
        var remainder := Magnitude(TruncMod(rest));
        LastDigit(rest);
        rest := TruncDiv(rest);
        hide Magnitude, TruncDiv, TruncMod;
        buf[n] := ZERO + remainder;
        ReversedLaws(buf[..n], buf[n]);
        assert buf[..n + 1] == buf[..n] + [buf[n]];
        n := n + 1;
        more := rest != 0;
      }
    }

    /** The reverse copy: the digits and a NUL. */
    method PutReversed(buf: array<u8>, n: nat)
      requires n <= buf.Length && buf != str && pos + n < len <= str.Length
      modifies `pos, str
      ensures pos == old(pos) + n
      ensures str[..] == Spliced(old(str[..]), old(pos), Reversed(buf[..n]) + [0])
    {
      ghost var before, start, ds := str[..], pos, Reversed(buf[..n]);
      assert Spliced(before, start, ds[..0]) == before;
      var i := n;
      while i > 0
        invariant i <= n && pos == start + (n - i)
        invariant str[..] == Spliced(before, start, ds[..n - i])
      {
        ReversedAt(buf[..n], n - i);
        str[pos] := buf[i - 1];
        assert ds[..n - i + 1] == ds[..n - i] + [buf[i - 1]];
        SplicedTwice(before, start, ds[..n - i], [buf[i - 1]]);
        pos := pos + 1;
        i := i - 1;
      }
      str[pos] := 0;
    }

    /**
     `U_sstream_put_long`. Note the sign: it is written before the space is checked, so it stays
     behind when the digits do not fit.
     */
    method PutLong(num: int)
      requires Valid() && -LONG_MAX - 1 <= num <= LONG_MAX
      modifies this, str
      ensures Valid()
      ensures !old(status).Ok? ==> pos == old(pos) && status == old(status) && str[..] == old(str[..])
      ensures old(status).Ok? ==>
                var fits := old(pos) + |Text(num)| < len;
                var sign := if num < 0 then [MINUS] else [];
                status == (if fits then Ok else ErrNoSpace) &&
                pos == old(pos) + (if fits then |Text(num)| else |sign|) &&
                str[..] == Spliced(old(str[..]), old(pos), if fits then Text(num) + [0] else sign)
    {
      if status != Ok {
        return;
      }
      ghost var before, start := str[..], pos;
      ghost var sign, ds := if num < 0 then [MINUS] else [], Digits(Magnitude(num));
      if num < 0 {
        str[pos] := MINUS;
        pos := pos + 1;
      }
      assert str[..] == Spliced(before, start, sign) && Text(num) == sign + ds;
      var buf, n := ReverseDigits(num);
      hide Reversed, Digits;
      if len - pos < n + 1 {
        status := ErrNoSpace;
        return;
      }
      PutReversed(buf, n);
      SplicedTwice(before, start, sign, ds + [0]);
      assert sign + (ds + [0]) == Text(num) + [0];
    }

    /** `U_sstream_get_long`; `beyond` is the byte after the stream's text. */
    method GetLong(beyond: u8) returns (r: int)
      requires pos <= len <= str.Length
      modifies this
      ensures old(pos) == len ==> r == 0 && pos == old(pos) && status == old(status)
      ensures old(pos) < len ==>
                var (num, end, err) := Parse(str[old(pos)..len], beyond);
                r == (if err.None() then num else 0) &&
                pos == old(pos) + (if old(pos) + end <= len then end else 0) &&
                status == if err.invalid then ErrInvalid else if err.None() then old(status) else ErrRange
    {
      r := 0;
      if pos < len {
        var num, end, err := U_strtol(str[pos..len], beyond);
        r := num;
        if !err.None() {
          status := if err.invalid then ErrInvalid else ErrRange;
          r := 0;
        }
        if pos + end <= len {
          pos := pos + end;
        }
      }
    }
  }
}
