/**
 The text of V1 page requests, which the packet receiver reads too: what it makes of it.
 */
module RequestText {
  import opened Bytes
  import opened Flasher
  import opened Framing
  import Decoder

  /** The six bytes "GET", page number and ";". */
  function Get(n: u16): (b: seq<u8>)
    ensures |b| == 6
  {
    [71, 69, 84] + Le16(n) + [59]
  }

  function Texts(ns: seq<u16>): seq<u8> {
    if ns == [] then [] else Texts(ns[..|ns| - 1]) + Get(ns[|ns| - 1])
  }

  /** Only a bootloader packet would be copied over the text buffer. */
  ghost predicate Harmless(packets: seq<seq<u8>>) {
    forall p <- packets :: 1 <= |p| && p[0] != BTL_MAGIC
  }

  /** Page numbers below 49152; a file of 4 MiB has 16384 pages. */
  ghost predicate Ordinary(ns: seq<u16>) { forall n <- ns :: n < 0xC000 }

  // ----- text is too light for its checksum -----

  lemma TotalSnoc(s: seq<u8>, b: u8)
    ensures Total(s + [b]) == Total(s) + b
  {
    assert (s + [b])[..|s|] == s;
  }

  lemma {:induction false} TotalGrows(s: seq<u8>, k: nat)
    requires k <= |s|
    ensures Total(s[..k]) <= Total(s)
  {
    if k < |s| {
      TotalGrows(s[..|s| - 1], k);
      assert s[..|s| - 1][..k] == s[..k];
    } else {
      assert s[..k] == s;
    }
  }

  /** Twice the bytes of a request come to at most 243 each; the slack behind its first `k` bytes. */
  function Slack(k: nat): nat
    requires k <= 6
  {
    match k
    case 0 => 281
    case 1 => 180
    case 2 => 75
    case 3 => 0
    case 4 => 267
    case 5 => 406
    case 6 => 281
  }

  /** The buffer, `k` bytes into a request, holds nothing but text. */
  ghost predicate Light(rx: Rx, k: nat)
    requires k <= 6
  {
    |rx.buf| <= HOST_BUFFER && 2 * Total(rx.buf) <= 243 * |rx.buf| + Slack(k) &&
    (k == 2 && rx.buf != [] ==> rx.buf[|rx.buf| - 1] == 69) &&
    (k == 3 && |rx.buf| >= 2 ==> rx.buf[|rx.buf| - 2..] == [69, 84])
  }

  /** What earlier input left in the buffer is still there; no bootloader packet can come of it. */
  ghost predicate Kept(rx: Rx) { 0 < |rx.buf| <= HOST_BUFFER && rx.buf[0] != BTL_MAGIC }

  ghost predicate Tame(rx: Rx) { Light(rx, 0) || Kept(rx) }

  /** An END behind "GET" would take "ET" for the checksum, and text never sums up to what that needs. */
  lemma TextNotClosed(rx: Rx)
    requires Light(rx, 3)
    ensures Close(rx.buf).packets == []
  {
    var n := |rx.buf| - 2;
    if n > 0 {
      assert rx.buf[n..] == [69, 84];
      TotalGrows(rx.buf, n);
      LightSum(rx.buf[..n]);
      hide Checksum, Total;
    }
  }

  lemma LightSum(s: seq<u8>)
    requires Total(s) < 43963
    ensures Checksum(s) != FromLe16([69, 84])
  {
    SumIsTotal(s);
    hide Total, Sum16;
  }

  lemma KeptCloses(rx: Rx)
    requires Kept(rx)
    ensures Harmless(Close(rx.buf).packets)
  {
    hide FromLe16, Checksum;
  }

  lemma AppendText(buf: seq<u8>, c: u8, k: nat)
    requires k < 6 && (Light(Rx(buf, false), k) || buf == []) && 2 * c <= 243 + Slack(k + 1) - Slack(k)
    requires k == 1 ==> c == 69
    requires k == 2 ==> c == 84
    ensures Light(Append(HOST_BUFFER, buf, c), k + 1)
  {
    TotalSnoc(buf, c);
    hide Total, Slack;
    assert Total([]) == 0 by { NothingLight(k); }
  }

  lemma NothingLight(k: nat)
    requires k <= 6
    ensures Total([]) == 0 && Light(CLEAN, k)
  {
  }

  /** Byte `k` of a request. */
  lemma TextStep(rx: Rx, n: u16, k: nat)
    requires k < 6 && n < 0xC000 && (Light(rx, k) || Kept(rx))
    ensures
      var r := Step(HOST_BUFFER, rx, Get(n)[k]);
      Harmless(r.packets) && (Light(r.rx, k + 1) || Kept(r.rx)) &&
      (Light(rx, k) ==> Light(r.rx, k + 1) && r.packets == [])
  {
    var c := Get(n)[k];
    NothingLight(k + 1);
    if c == END {
      assert k == 3;
      if Light(rx, k) { TextNotClosed(rx); } else { KeptCloses(rx); }
      hide *;
    } else if c != ESC {
      hide Close, Total;
      var b := if rx.escaped && c == T_END then END else if rx.escaped && c == T_ESC then ESC else c;
      AppendText([], b, k);
      if Light(rx, k) { AppendText(rx.buf, b, k); }
    }
  }

  // ----- whole requests -----

  lemma {:induction false} TextPart(rx: Rx, n: u16, k: nat)
    requires k <= 6 && n < 0xC000 && Tame(rx)
    ensures
      var r := Run(HOST_BUFFER, rx, Get(n)[..k]);
      Harmless(r.packets) && (Light(r.rx, k) || Kept(r.rx)) &&
      (Light(rx, 0) ==> Light(r.rx, k) && r.packets == [])
  {
    hide Kept, Light, Step;
    if k == 0 {
      assert Get(n)[..0] == [];
    } else {
      TextPart(rx, n, k - 1);
      var r := Run(HOST_BUFFER, rx, Get(n)[..k - 1]);
      assert Get(n)[..k][..k - 1] == Get(n)[..k - 1];
      TextStep(r.rx, n, k - 1);
      var ps, qs := r.packets, Step(HOST_BUFFER, r.rx, Get(n)[k - 1]).packets;
      assert forall p <- ps + qs :: p in ps || p in qs;
    }
  }

  /** One whole request. */
  lemma RequestHarmless(rx: Rx, n: u16)
    requires n < 0xC000 && Tame(rx)
    ensures
      var r := Run(HOST_BUFFER, rx, Get(n));
      Harmless(r.packets) && Tame(r.rx) && (Light(rx, 0) ==> Light(r.rx, 0) && r.packets == [])
  {
    assert Get(n)[..6] == Get(n);
    TextPart(rx, n, 6);
    hide Run, Total;
  }

  lemma {:induction false} TextsHarmless(rx: Rx, ns: seq<u16>)
    requires Ordinary(ns) && Tame(rx)
    ensures
      var r := Run(HOST_BUFFER, rx, Texts(ns));
      Harmless(r.packets) && Tame(r.rx) && (Light(rx, 0) ==> Light(r.rx, 0) && r.packets == [])
  {
    hide Run, Kept, Light, Get;
    if ns == [] {
      assert Run(HOST_BUFFER, rx, []) == Result(rx, [], 0) by { RunsNothing(rx); }
    } else {
      var front, n := ns[..|ns| - 1], ns[|ns| - 1];
      assert n in ns && forall m <- front :: m in ns;
      TextsHarmless(rx, front);
      RunCompose(HOST_BUFFER, rx, Texts(front), Get(n));
      var r := Run(HOST_BUFFER, rx, Texts(front));
      RequestHarmless(r.rx, n);
      assert forall p <- r.packets + Run(HOST_BUFFER, r.rx, Get(n)).packets ::
          p in r.packets || p in Run(HOST_BUFFER, r.rx, Get(n)).packets;
    }
  }

  lemma LeftoverTame(rx: Rx)
    requires |rx.buf| <= HOST_BUFFER && (rx.buf == [] || rx.buf[0] != BTL_MAGIC)
    ensures Tame(rx)
  {
  }

  lemma RunsNothing(rx: Rx)
    ensures Run(HOST_BUFFER, rx, []) == Result(rx, [], 0)
  {
  }

  /**
   Requests for the pages of any file make no packet at all of an empty buffer, and none with the
   bootloader's code of one that begins with another byte.
   */
  lemma TextMakesNoPackets(rx: Rx, ns: seq<u16>)
    requires Ordinary(ns) && |rx.buf| <= HOST_BUFFER && (rx.buf == [] || rx.buf[0] != BTL_MAGIC)
    ensures
      var packets := Run(HOST_BUFFER, rx, Texts(ns)).packets;
      (forall p <- packets :: 1 <= |p| && p[0] != BTL_MAGIC) && (rx.buf == [] ==> packets == [])
  {
    TextsHarmless(rx, ns);
    hide Run;
  }

  /** Page numbers whose two bytes are no END make no packets, whatever the buffer holds. */
  lemma {:induction false} TextWithoutEnd(rx: Rx, ns: seq<u16>)
    requires forall n <- ns :: END !in Le16(n)
    ensures Run(HOST_BUFFER, rx, Texts(ns)).packets == []
  {
    NoEndInTexts(ns);
    Decoder.QuietWithoutEnd(HOST_BUFFER, rx, Texts(ns));
  }

  lemma {:induction false} NoEndInTexts(ns: seq<u16>)
    requires forall n <- ns :: END !in Le16(n)
    ensures END !in Texts(ns)
  {
    if ns != [] {
      assert forall n <- ns[..|ns| - 1] :: n in ns;
      NoEndInTexts(ns[..|ns| - 1]);
      assert ns[|ns| - 1] in ns;
    }
  }

  // ----- what the buffer would have to hold -----

  function Full(k: nat): seq<u8> { seq(k, _ => 255) }

  lemma {:induction false} FullTotal(s: seq<u8>, k: nat)
    ensures Total(s + Full(k)) == Total(s) + 255 * k
  {
    if k == 0 {
      assert s + Full(0) == s;
    } else {
      FullTotal(s, k - 1);
      assert s + Full(k) == s + Full(k - 1) + [255];
      TotalSnoc(s + Full(k - 1), 255);
    }
  }

  /**
   A buffer that begins with the bootloader's code and is heavy enough does make such a packet of the
   request for page 192.
   */
  lemma HeavyLeftover()
    ensures
      var buf := [BTL_MAGIC] + Full(171) + [158];
      Run(HOST_BUFFER, Rx(buf, false), Get(192)).packets == [buf + [71]]
  {
    var buf := [BTL_MAGIC] + Full(171) + [158];
    var p := buf + [71];
    TotalSnoc([], BTL_MAGIC);
    assert [] + [BTL_MAGIC] == [BTL_MAGIC];
    FullTotal([BTL_MAGIC], 171);
    TotalSnoc([BTL_MAGIC] + Full(171), 158);
    TotalSnoc(buf, 71);
    SumIsTotal(p);
    assert Total([]) == 0;
    hide Total;
    assert Trailer(p) == [69, 84];
    TextRuns(buf);
    TrailerChecks(p, buf + [71, 69, 84]);
  }

  lemma TextRuns(buf: seq<u8>)
    requires |buf| <= HOST_BUFFER - 3
    ensures Run(HOST_BUFFER, Rx(buf, false), Get(192)).packets == Close(buf + [71, 69, 84]).packets
  {
    hide Run, Close;
    var rx, text, tail := Rx(buf, false), [71, 69, 84], [0, 59];
    assert Get(192) == text + [END] + tail;
    PlainHeld(HOST_BUFFER, buf, text);
    RunOne(HOST_BUFFER, Rx(buf + text, false), END);
    Decoder.QuietWithoutEnd(HOST_BUFFER, Run(HOST_BUFFER, rx, text + [END]).rx, tail);
    hide *;
    RunCompose(HOST_BUFFER, rx, text + [END], tail);
    RunCompose(HOST_BUFFER, rx, text, [END]);
    var ps := Close(buf + text).packets;
    assert [] + ps + [] == ps;
  }
}
