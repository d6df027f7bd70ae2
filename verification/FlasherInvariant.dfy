/** What every event keeps, whatever it raises in turn. */
module FlasherInvariant {
  import opened Bytes
  import opened Flasher
  import opened Framing
  import opened GcfFile
  import opened Input
  import opened Subsequence
  import TextStream
  import opened Trace
  import opened Transmit

  ghost predicate Monotone(w: World) { forall i: nat, j: nat | i <= j :: w.now(i) <= w.now(j) }

  ghost predicate Shape(g: G) { ShapeOf(g.calls, g.port) && Carried(g.port, g.trace) }

  /** The bytes of all messages noted, in order. */
  function Messages(t: seq<Note>): seq<u8> {
    if t == [] then []
    else
      Messages(t[..|t| - 1]) +
      match t[|t| - 1]
      case Sent(b) => b
      case Framed(b) => Frame(b)
      case _ => []
  }

  /** What is on the wire or waits for it comes from these messages. */
  ghost predicate Carried(p: Port, t: seq<Note>) { Subseq(Stream(p), Messages(t)) }

  lemma NoteCarried(p: Port, t: seq<Note>, n: Note)
    requires Carried(p, t)
    ensures Carried(p, t + [n])
  {
    hide Frame;
    assert (t + [n])[..|t|] == t;
    SubseqAppend(Stream(p), Messages(t), match n case Sent(b) => b case Framed(b) => Frame(b) case _ => []);
  }

  lemma MessageCarried(p: Port, t: seq<Note>, b: seq<u8>)
    requires Carried(p, t) && p.connected && |p.queue| < RING
    ensures Carried(PutAll(p, b), t + [Sent(b)])
    ensures Carried(PutAll(p, Frame(b)), t + [Framed(b)])
  {
    hide Frame, Subseq, PutAll;
    assert (t + [Sent(b)])[..|t|] == t && (t + [Framed(b)])[..|t|] == t;
    PutCarried(p, t, b);
    PutCarried(p, t, Frame(b));
  }

  lemma PutCarried(p: Port, t: seq<Note>, b: seq<u8>)
    requires Carried(p, t) && p.connected && |p.queue| < RING
    ensures Subseq(Stream(PutAll(p, b)), Messages(t) + b)
  {
    PutAllConserves(p, b);
    SubseqAppend(Stream(p), Messages(t), b);
    hide PutAll, Messages, Subseq;
    SubseqTransitive(Stream(PutAll(p, b)), Stream(p) + b, Messages(t) + b);
  }

  lemma ClosedCarried(p: Port, t: seq<Note>, connected: bool)
    requires Carried(p, t)
    ensures Carried(Port(connected, [], p.wire), t)
  {
    hide Subseq, Messages;
    assert p.wire + [] == (p.wire + p.queue)[..|p.wire|];
    SubseqPrefix(Stream(p), |p.wire|, Messages(t));
  }

  lemma FlushCarried(p: Port, t: seq<Note>, outcomes: seq<WriteOutcome>)
    requires Carried(p, t) && p.connected
    ensures Carried(Flush(p, outcomes), t)
  {
    FlushKeepsStream(p, outcomes);
    hide Subseq, Messages, Flush;
  }

  ghost predicate ShapeOf(calls: nat, port: Port) {
    1 <= calls && |port.queue| < RING && (!port.connected ==> port.queue == [])
  }

  // ----- the retry deadline -----

  /** The deadline the first pass over the command line fixes for good. */
  function Deadline(w: World): nat {
    var start := w.StartTime();
    var given := if w.cfg.seconds.Some? then w.cfg.seconds.value * 1000 + start else 0;
    if w.cfg.task.TaskProgram? && given < start then 10000 + start else given
  }

  /** `fired`: the timeout that the state waited for has just been taken off the timer. */
  ghost predicate Timing(w: World, s: State, t: seq<Note>, maxTime: nat, timer: nat, calls: nat, fired: bool) {
    var now := if calls == 0 then 0 else w.now(calls - 1);
    w.StartTime() <= now && LastRestart(t) <= now &&
    (maxTime == Deadline(w) || (maxTime == 0 && (s.Init? || s.Void?))) &&
    (Restarts(t) > 0 ==>
      w.StartTime() + 200 * (Restarts(t) - 1) <= LastRestart(t) < Deadline(w) &&
      if s.Init? && !fired then timer >= LastRestart(t) + 200 else now > LastRestart(t) + 200)
  }

  // ----- the order of the protocol -----

  function LastPage(w: World): seq<u8> {
    if w.Image() == [] then [] else Page(w.Image(), PageCount(|w.Image()|) - 1)
  }

  /** What must have happened, in this order, before a V1 upload may be called a success. */
  function V1Order(w: World): seq<Note> {
    [Sent(V1_SYNC), Saw(Ready), Sent(V1Header(w.Head())), Sent(LastPage(w)), Saw(ValidCrc)]
  }

  function V3Order(w: World): seq<Note> { [Framed(V3SyncRequest(w.Head())), Accepted] }

  /** The V3 responses that reach the end of the image. */
  function FinalResponse(w: World, offset: u32): seq<u8>
    requires offset < |w.Image()|
  {
    DataResponse(0, offset, (|w.Image()| - offset as int) % 0x1_0000, w.Image()[offset as int..])
  }

  ghost predicate SentFinalChunk(w: World, offset: u32, s: seq<Note>) {
    offset < |w.Image()| <= offset as int + MAX_CHUNK &&
    Subseq(V3Order(w) + [Framed(FinalResponse(w, offset))], s)
  }

  ghost predicate AskedForNothing(w: World, offset: u32, s: seq<Note>) {
    Subseq(V3Order(w) + [Asked(offset, 0)], s)
  }

  ghost predicate V3Complete(w: World, s: seq<Note>) {
    (exists offset :: SentFinalChunk(w, offset, s)) || (exists offset :: AskedForNothing(w, offset, s))
  }

  ghost predicate Reached(order: seq<Note>, k: nat, t: seq<Note>)
    requires k <= |order|
  {
    Subseq(order[..k], Since(t))
  }

  /** `entering`: the state is about to handle its first event. */
  ghost predicate Phase(w: World, s: State, t: seq<Note>, entering: bool) {
    match s
    case V1Sync => if entering then EndsIn(t, Saw(Bootloader)) else Reached(V1Order(w), 1, t)
    case V1WriteHeader => Reached(V1Order(w), 2, t) && (entering ==> EndsIn(t, Saw(Keyword.Ready)))
    case V1Upload => Reached(V1Order(w), 3, t)
    case V1Validate => Reached(V1Order(w), 4, t)
    case V3Sync => if entering then JustGot(t, [0x81, 0x82]) else Reached(V3Order(w), 1, t)
    case V3Upload => Reached(V3Order(w), 2, t)
    case V3WaitID => V3Complete(w, Since(t))
    case _ => true
  }

  // ----- when a note is due -----

  ghost predicate EndsIn(t: seq<Note>, n: Note) { t != [] && t[|t| - 1] == n }

  /** The packet just received begins with `bytes`, as far as it goes. */
  ghost predicate JustGot(t: seq<Note>, bytes: seq<u8>) {
    t != [] && t[|t| - 1].Got? && t[|t| - 1].packet != [] &&
    (t[|t| - 1].packet <= bytes || bytes <= t[|t| - 1].packet)
  }

  /** The packet just received is the data request for these bytes of the image. */
  ghost predicate JustAsked(t: seq<Note>, offset: u32, length: u16) {
    t != [] && t[|t| - 1].Got? &&
    var p := t[|t| - 1].packet;
    |p| == 8 && p[0] == 0x81 && p[1] == 0x04 &&
    offset as int == p[2] as int + 0x100 * p[3] as int + 0x1_0000 * p[4] as int + 0x100_0000 * p[5] as int &&
    length as int == p[6] as int + 0x100 * p[7] as int
  }

  predicate Occurs(word: seq<u8>, text: seq<u8>) {
    exists i | 0 <= i <= |text| :: OccursAt(word, text, i)
  }

  predicate OccursAt(word: seq<u8>, text: seq<u8>, i: nat) {
    i + |word| <= |text| && text[i..i + |word|] == word
  }

  /** "Bootloader" in a line of more than 32 bytes, "READY", "#VALID CRC". */
  predicate Shows(text: seq<u8>, k: Keyword) {
    match k
    case Bootloader =>
      |text| > 32 && text[|text| - 1] == 10 && Occurs([66, 111, 111, 116, 108, 111, 97, 100, 101, 114], text)
    case Ready => Occurs([82, 69, 65, 68, 89], text)
    case ValidCrc => Occurs([35, 86, 65, 76, 73, 68, 32, 67, 82, 67], text)
  }

  /** Raw messages: "ID", the sync bytes, the header of the file, a page of 256 bytes. */
  ghost predicate SentDue(w: World, t: seq<Note>, b: seq<u8>) {
    (w.Head().fileType < 30 && b == [73, 68]) ||
    (EndsIn(t, Saw(Bootloader)) && b == [0x1A, 0x1C, 0xA9, 0xAE]) ||
    (EndsIn(t, Saw(Keyword.Ready)) && b == V1Header(w.Head())) ||
    exists n: nat :: IsPage(w.Image(), n, b)
  }

  predicate IsPage(image: seq<u8>, n: nat, b: seq<u8>) {
    256 * n < |image| && b == image[256 * n..if 256 * n + 256 <= |image| then 256 * n + 256 else |image|]
  }

  /**
   Packets: in ST_Reset the reset command (write parameter 0x26, 2 seconds) and under task reset the
   query for the firmware version; the query for the bootloader; the update request to a bootloader
   that has identified itself; the reply to a request.
   */
  ghost predicate FramedDue(w: World, t: seq<Note>, b: seq<u8>) {
    (Entered(t) == Left(t) + 1 &&
     (b == [0x0B, 3, 0, 12, 0, 5, 0, 0x26, 2, 0, 0, 0] ||
      (w.cfg.task.TaskReset? && b == [0x0D, 5, 0, 9, 0, 0, 0, 0, 0]))) ||
    (w.Head().fileType >= 30 && b == [0x81, 0x02]) ||
    (JustGot(t, [0x81, 0x82]) && b == V3SyncRequest(w.Head())) ||
    (t != [] && t[|t| - 1].Asked? && b == Reply(w.Image(), t[|t| - 1].offset, t[|t| - 1].length))
  }

  /**
   Every note was due: every message was the answer to what had just been received, keywords and
   acceptance were really received, success reports were earned, resets are entered and left in turn
   and done by the line of the device, and restarts come before the deadline and at least 200 ms after
   each other.
   */
  ghost predicate Justified(w: World, t: seq<Note>) {
    t == [] || (Justified(w, t[..|t| - 1]) && Due(w, t[..|t| - 1], t[|t| - 1]))
  }

  ghost predicate Due(w: World, t: seq<Note>, n: Note) {
    match n
    case Sent(b) => SentDue(w, t, b)
    case Framed(b) => FramedDue(w, t, b)
    case Saw(k) => t != [] && t[|t| - 1].Words? && Shows(t[|t| - 1].text, k)
    case Accepted => JustGot(t, [0x81, 0x83, 0])
    case Asked(offset, length) => JustAsked(t, offset, length)
    case V1Done => Subseq(V1Order(w), Since(t)) && EndsIn(t, Saw(ValidCrc))
    case V3Done => V3Complete(w, Since(t)) && JustGot(t, [0x81, 0x82])
    case FtdiReset => w.cfg.device.ConBee1? && Entered(t) == Left(t) + 1
    case PinReset => (w.cfg.device.RaspBee1? || w.cfg.device.RaspBee2?) && Entered(t) == Left(t) + 1
    case EnterReset => Entered(t) == Left(t)
    case LeaveReset => Entered(t) == Left(t) + 1
    case Restart(at) => at < Deadline(w) && (Restarts(t) > 0 ==> LastRestart(t) + 200 <= at)
    case _ => true
  }

  /** One EV_RESET_SUCCESS for each time ST_Reset was entered and left. */
  ghost predicate Balanced(s: State, t: seq<Note>) {
    Entered(t) == Left(t) + if s.Reset? then 1 else 0
  }

  // ----- the invariant -----

  ghost predicate Steady(w: World, g: G, fired: bool, entering: bool) {
    Monotone(w) && Shape(g) &&
    Timing(w, g.state, g.trace, g.maxTime, g.timer, g.calls, fired) &&
    Phase(w, g.state, g.trace, entering) && Justified(w, g.trace) && Balanced(g.state, g.trace)
  }

  ghost predicate Inv(w: World, g: G) { Steady(w, g, false, false) }

  /** Bytes only come from a connected port, and uploads start on one. */
  ghost predicate Linked(g: G, ev: Event) {
    (ev.RxAscii? || ev.RxBootloader? ||
     (ev.Action? && (g.state.V1Sync? || g.state.V1WriteHeader? || g.state.V3Sync?)) ==>
       g.port.connected) &&
    (ev.RxBootloader? ==> Delivered(g))
  }

  /** The buffer holds the bootloader packet just received. */
  ghost predicate Delivered(g: G) { 1 <= g.wp && g.ascii[0] == 0x81 && EndsIn(g.trace, Got(g.ascii[..g.wp])) }

  ghost predicate Prepared(w: World, g: G, ev: Event) {
    Steady(w, g, ev.Timeout? || ev.Started?, ev.Action?) && Linked(g, ev)
  }

  /** What a step from `g` to `r` keeps in any case. */
  ghost predicate Follows(g: G, r: G) {
    (r.running ==> g.running) && (g.trapped ==> r.trapped) && g.calls <= r.calls && r.rx == g.rx
  }

  ghost predicate Poised(g: G) { g.running && !g.trapped ==> Resting(g) }

  /** What handling `ev` in `g` achieves. */
  ghost predicate Kept(w: World, g: G, ev: Event, r: G) {
    Inv(w, r) && Follows(g, r) &&
    (Alive(g) || Rearms(g, ev) ==> Alive(r)) && (Poised(g) || Rearms(g, ev) ==> Poised(r)) &&
    (!ev.Timeout? && !ev.Started? && g.port.connected ==> r.port.connected)
  }

  // ----- small steps -----

  lemma Clock(w: World, i: nat, j: nat)
    requires Monotone(w) && i <= j
    ensures w.now(i) <= w.now(j)
  {
  }

  lemma ReachedGrows(order: seq<Note>, k: nat, t: seq<Note>, n: Note)
    requires k <= |order| && Reached(order, k, t) && !n.Pass?
    ensures Reached(order, k, t + [n])
    ensures k < |order| && order[k] == n ==> Reached(order, k + 1, t + [n])
  {
    Noted(t, n);
    var s := Since(t);
    assert Since(t + [n]) == s + [n];
    hide Since, Subseq, Restarts, LastRestart, Entered, Left;
    SubseqWeaken(order[..k], s, n);
    if k < |order| && order[k] == n {
      SubseqSnoc(order[..k], s, n);
      assert order[..k + 1] == order[..k] + [n];
    }
  }

  lemma OrderNotes(w: World)
    ensures |V1Order(w)| == 5 && |V3Order(w)| == 2
    ensures V1Order(w)[0] == Sent(V1_SYNC) && V1Order(w)[1] == Saw(Keyword.Ready)
    ensures V1Order(w)[2] == Sent(V1Header(w.Head())) && V1Order(w)[3] == Sent(LastPage(w))
    ensures V1Order(w)[4] == Saw(ValidCrc)
    ensures V3Order(w)[0] == Framed(V3SyncRequest(w.Head())) && V3Order(w)[1] == Accepted
  {
  }

  lemma AllReached(w: World, t: seq<Note>)
    requires Reached(V1Order(w), 5, t)
    ensures Subseq(V1Order(w), Since(t))
  {
    assert V1Order(w)[..5] == V1Order(w);
  }

  lemma NothingReached(order: seq<Note>, t: seq<Note>)
    ensures Reached(order, 0, t)
  {
    assert order[..0] == [];
  }

  lemma CompleteGrows(w: World, s: seq<Note>, n: Note)
    requires V3Complete(w, s)
    ensures V3Complete(w, s + [n])
  {
    if offset :| SentFinalChunk(w, offset, s) {
      SubseqWeaken(V3Order(w) + [Framed(FinalResponse(w, offset))], s, n);
      assert SentFinalChunk(w, offset, s + [n]);
    } else {
      var offset :| AskedForNothing(w, offset, s);
      SubseqWeaken(V3Order(w) + [Asked(offset, 0)], s, n);
      assert AskedForNothing(w, offset, s + [n]);
    }
  }

  lemma PhaseGrows(w: World, s: State, t: seq<Note>, n: Note)
    requires Phase(w, s, t, false) && !n.Pass?
    ensures Phase(w, s, t + [n], false)
  {
    Noted(t, n);
    hide Since, Reached, V3Complete;
    match s
    case V1Sync => ReachedGrows(V1Order(w), 1, t, n);
    case V1WriteHeader => ReachedGrows(V1Order(w), 2, t, n);
    case V1Upload => ReachedGrows(V1Order(w), 3, t, n);
    case V1Validate => ReachedGrows(V1Order(w), 4, t, n);
    case V3Sync => ReachedGrows(V3Order(w), 1, t, n);
    case V3Upload => ReachedGrows(V3Order(w), 2, t, n);
    case V3WaitID => CompleteGrows(w, Since(t), n);
    case _ =>
  }

  lemma JustifiedGrows(w: World, t: seq<Note>, n: Note)
    requires Justified(w, t) && Due(w, t, n)
    ensures Justified(w, t + [n])
  {
    assert (t + [n])[..|t|] == t;
  }

  /** The buffer says what has been received. */
  lemma DeliveredIs(g: G, bytes: seq<u8>)
    requires Delivered(g) && 2 <= |bytes| <= 3 && g.ascii[..|bytes|] == bytes
    ensures JustGot(g.trace, bytes)
  {
    var p := g.ascii[..g.wp];
    if |p| <= |bytes| {
      assert bytes[..|p|] == g.ascii[..|bytes|][..|p|] == p;
    } else {
      assert p[..|bytes|] == bytes;
    }
  }

  lemma KeywordBytes(k: Keyword)
    ensures k.Text() == match k
                        case Bootloader => [66, 111, 111, 116, 108, 111, 97, 100, 101, 114]
                        case Ready => [82, 69, 65, 68, 89]
                        case ValidCrc => [35, 86, 65, 76, 73, 68, 32, 67, 82, 67]
  {
  }

  lemma WordOccurs(text: seq<u8>, word: seq<u8>)
    requires TextStream.Contains(text, word)
    ensures Occurs(word, text)
  {
    var i :| 0 <= i < |text| && TextStream.OccursAt(text, word, i);
    assert OccursAt(word, text, i);
  }

  lemma WordShown(g: G, k: Keyword)
    requires Finds(g, k) && (k.Bootloader? ==> 32 < g.wp && g.ascii[g.wp - 1] == 10)
    ensures Shows(g.ascii[..g.wp], k)
  {
    KeywordBytes(k);
    hide Occurs, TextStream.Contains, Keyword.Text;
    WordOccurs(g.ascii[..g.wp], k.Text());
  }

  lemma WordDue(w: World, t: seq<Note>, text: seq<u8>, k: Keyword)
    requires Shows(text, k)
    ensures Due(w, t + [Words(text)], Saw(k)) && Due(w, t, Words(text))
  {
    hide Shows;
  }

  lemma LogWordIs(g: G, k: Keyword)
    ensures LogWord(g, k) == g.(trace := LogWord(g, k).trace) && EndsIn(LogWord(g, k).trace, Saw(k))
    ensures LogWord(g, k) == Log(Log(g, Words(g.ascii[..g.wp])), Saw(k))
  {
  }

  /** A keyword noted in a state that goes on. */
  lemma WordKeeps(w: World, g: G, k: Keyword)
    requires Inv(w, g) && Finds(g, k) && (k.Bootloader? ==> 32 < g.wp && g.ascii[g.wp - 1] == 10)
    ensures var h := Log(g, Words(g.ascii[..g.wp]));
            Inv(w, h) && Due(w, h.trace, Saw(k))
    ensures Inv(w, LogWord(g, k))
  {
    WordShown(g, k);
    LogWordIs(g, k);
    hide Due, Finds, Shows, LogWord, Inv, EndsIn;
    var text := g.ascii[..g.wp];
    WordDue(w, g.trace, text, k);
    LogKeeps(w, g, Words(text));
    LogKeeps(w, Log(g, Words(text)), Saw(k));
  }

  lemma GotDue(w: World, t: seq<Note>, p: seq<u8>)
    ensures Due(w, t, Got(p))
  {
  }

  /** Notes that only the order of the protocol speaks about. */
  predicate Neutral(n: Note) { !n.Pass? && !n.EnterReset? && !n.LeaveReset? && !n.Restart? }

  /** A note in a state that has already been entered; `s` is the state afterwards. */
  lemma NoteKeeps(w: World, g: G, n: Note, s: State, entering: bool)
    requires Steady(w, g, false, entering) && Neutral(n)
    requires s == g.state || (Working(g.state) && Working(s))
    requires Phase(w, s, g.trace + [n], false) && Due(w, g.trace, n)
    ensures Steady(w, Log(g, n).(state := s), false, false)
  {
    JustifiedGrows(w, g.trace, n);
    NoteCarried(g.port, g.trace, n);
    CountsKeep(w, g, n, s);
    hide Carried, Due, Phase, Justified, Timing, Balanced, Monotone;
  }

  lemma CountsKeep(w: World, g: G, n: Note, s: State)
    requires Neutral(n) && (s == g.state || (Working(g.state) && Working(s)))
    requires Timing(w, g.state, g.trace, g.maxTime, g.timer, g.calls, false) && Balanced(g.state, g.trace)
    ensures Timing(w, s, g.trace + [n], g.maxTime, g.timer, g.calls, false) && Balanced(s, g.trace + [n])
  {
    Noted(g.trace, n);
    hide Deadline, Restarts, LastRestart, Entered, Left;
  }

  lemma LogKeeps(w: World, g: G, n: Note)
    requires Inv(w, g) && Neutral(n) && Due(w, g.trace, n)
    ensures Inv(w, Log(g, n))
  {
    hide Due;
    PhaseGrows(w, g.state, g.trace, n);
    NoteKeeps(w, g, n, g.state, false);
  }

  /** States in which the timing and the balance of notes are the same. */
  predicate Working(s: State) { !s.Init? && !s.Void? && !s.Reset? }

  lemma MoveKeeps(w: World, g: G, s: State, fired: bool, entering: bool, fired': bool, entering': bool)
    requires Steady(w, g, fired, entering) && Working(g.state) && Working(s)
    requires Phase(w, s, g.trace, entering')
    ensures Steady(w, g.(state := s), fired', entering')
  {
  }

  lemma TimeoutKeeps(w: World, g: G, ms: nat, fired: bool, entering: bool)
    requires Steady(w, g, fired, entering) && (g.state.Init? ==> ms >= 200)
    ensures Steady(w, w.SetTimeout(g, ms), fired, entering)
    ensures !g.state.Init? ==> Steady(w, w.SetTimeout(g, ms), !fired, entering)
  {
    hide Phase, Justified, Balanced, Restarts, LastRestart, Deadline;
    Clock(w, g.calls - 1, g.calls);
  }

  lemma CallKeeps(w: World, g: G, fired: bool, entering: bool)
    requires Steady(w, g, fired, entering)
    ensures Steady(w, g.(calls := g.calls + 1), fired, entering)
  {
    hide Phase, Justified, Balanced, Restarts, LastRestart, Deadline;
    Clock(w, g.calls - 1, g.calls);
  }

  lemma ConnectOk(w: World, g: G, fired: bool, entering: bool)
    requires Steady(w, g, fired, entering)
    ensures var r := w.Connect(g);
            Steady(w, r, fired, entering) && Follows(g, r) && (g.port.connected ==> r.port.connected) &&
            r == g.(port := r.port, calls := r.calls)
  {
    hide Phase, Justified, Balanced, Timing, Carried;
    CallKeeps(w, g, fired, entering);
    ClosedCarried(g.port, g.trace, w.opens(g.calls));
  }

  lemma RetryOk(w: World, g: G)
    requires Inv(w, g) && Working(g.state)
    ensures var r := w.Retry(g);
            Inv(w, r) && Follows(g, r) && Alive(r) && r.port == g.port
  {
    hide Steady;
    if g.maxTime > w.now(g.calls) {
      RestartKeeps(w, g, w.now(g.calls));
    } else {
      CallKeeps(w, g, false, false);
      StopKeeps(w, g.(calls := g.calls + 1));
    }
  }

  lemma RestartKeeps(w: World, g: G, t: nat)
    requires Inv(w, g) && Working(g.state) && g.maxTime > t == w.now(g.calls)
    ensures
      var h := g.(calls := g.calls + 1);
      Inv(w, w.SetTimeout(Log(h, Restart(t)).(state := Init, substate := NoSub), 250))
  {
    RestartJustified(w, g, t);
    Clock(w, g.calls - 1, g.calls);
    Clock(w, g.calls, g.calls + 1);
    hide Carried, Justified, Restarts, LastRestart, Entered, Left, Deadline, Reached, V3Complete;
  }

  lemma RestartJustified(w: World, g: G, t: nat)
    requires Inv(w, g) && Working(g.state) && g.maxTime > t && w.now(g.calls) == t
    ensures Justified(w, g.trace + [Restart(t)]) && Carried(g.port, g.trace + [Restart(t)])
    ensures
      var t' := g.trace + [Restart(t)];
      Restarts(t') == Restarts(g.trace) + 1 && LastRestart(t') == t &&
      Entered(t') == Entered(g.trace) && Left(t') == Left(g.trace)
  {
    Clock(w, g.calls - 1, g.calls);
    hide Carried, Phase;
    NoteCarried(g.port, g.trace, Restart(t));
    Noted(g.trace, Restart(t));
    JustifiedGrows(w, g.trace, Restart(t));
  }

  // ----- output -----

  lemma FlushOk(w: World, g: G)
    requires Inv(w, g)
    ensures var r := w.FlushPort(g);
            Inv(w, r) && Follows(g, r) && (Alive(g) ==> Alive(r)) && (Poised(g) ==> Poised(r)) &&
            (g.port.connected ==> r.port.connected)
    decreases 5, 0
  {
    hide Phase, Justified, Balanced, Timing, Carried;
    if g.port.connected {
      CallKeeps(w, g, false, false);
      FlushCarried(g.port, g.trace, w.writes(g.calls));
    } else {
      HandleOk(w, g.(port := g.port.(queue := [])), Disconnected);
    }
  }

  lemma WriteOk(w: World, g: G, bytes: seq<u8>)
    requires !g.state.Init? && |g.port.queue| < RING && Carried(g.port, g.trace)
    requires Inv(w, if g.port.connected then Log(g, Sent(bytes)) else g)
    ensures var r := w.Write(g, bytes);
            Inv(w, r) && Follows(g, r) && (Alive(g) ==> Alive(r)) && (Poised(g) ==> Poised(r)) &&
            (g.port.connected ==>
              r.port.connected && r.state == g.state && r.remaining == g.remaining &&
              r.trace == g.trace + [Sent(bytes)])
    decreases 5, 1
  {
    hide Phase, Justified, Balanced, Timing, Carried;
    if g.port.connected {
      PutAllKeepsNewest(g.port, bytes);
      MessageCarried(g.port, g.trace, bytes);
      FlushOk(w, Log(g.(port := PutAll(g.port, bytes)), Sent(bytes)));
    } else {
      FlushOk(w, g);
    }
  }

  lemma SendOk(w: World, g: G, bytes: seq<u8>)
    requires !g.state.Init? && |g.port.queue| < RING && Carried(g.port, g.trace)
    requires Inv(w, if g.port.connected then Log(g, Framed(bytes)) else g)
    ensures var r := w.SendFlagged(g, bytes);
            Inv(w, r) && Follows(g, r) && (Alive(g) ==> Alive(r)) && (Poised(g) ==> Poised(r)) &&
            (g.port.connected ==>
              r.port.connected && r.state == g.state && r.substate == g.substate &&
              r.timer == g.timer && r.remaining == g.remaining && r.trace == g.trace + [Framed(bytes)])
    decreases 5, 1
  {
    hide Phase, Justified, Balanced, Timing, Carried;
    if g.port.connected {
      PutAllKeepsNewest(g.port, Frame(bytes));
      MessageCarried(g.port, g.trace, bytes);
      FlushOk(w, Log(g.(port := PutAll(g.port, Frame(bytes))), Framed(bytes)));
    } else {
      FlushOk(w, g);
    }
  }

  // ----- how handlers are put together -----

  /** The event changed nothing that matters. */
  lemma IdleKept(w: World, g: G, ev: Event)
    requires Inv(w, g) && !Rearms(g, ev)
    ensures Kept(w, g, ev, g)
  {
  }

  /** The handler got to `h` and armed the timer there. */
  lemma TimedKept(w: World, g: G, ev: Event, h: G, ms: nat)
    requires Inv(w, h) && Follows(g, h) && 0 < ms && (h.state.Init? ==> ms >= 200)
    requires h.running && !h.trapped ==> Resting(h)
    requires g.port.connected ==> h.port.connected
    ensures Kept(w, g, ev, w.SetTimeout(h, ms))
  {
    TimeoutKeeps(w, h, ms, false, false);
  }

  /** The handler got to `h` and raised `ev'` there. */
  lemma RaisedKept(w: World, g: G, ev: Event, h: G, ev': Event, r: G)
    requires Kept(w, h, ev', r) && Follows(g, h)
    requires Rearms(h, ev') || (Alive(g) && Alive(h) && !Rearms(g, ev))
          || (!Rearms(g, ev) && (Alive(g) ==> Alive(h)) && (Poised(g) ==> Poised(h)))
    requires !ev.Timeout? && !ev.Started? ==>
               !ev'.Timeout? && !ev'.Started? && (g.port.connected ==> h.port.connected)
    ensures Kept(w, g, ev, r)
  {
  }

  /** The handler stopped the program. */
  lemma StoppedKept(w: World, g: G, ev: Event, h: G)
    requires Inv(w, h) && Follows(g, h) && (!h.running || h.trapped)
    requires g.port.connected ==> h.port.connected
    ensures Kept(w, g, ev, h)
  {
  }

  lemma TrapKeeps(w: World, g: G)
    requires Inv(w, g)
    ensures Inv(w, g.(trapped := true))
  {
  }

  lemma RetryKept(w: World, g: G, ev: Event)
    requires Inv(w, g) && Working(g.state)
    ensures Kept(w, g, ev, w.Retry(g))
  {
    RetryOk(w, g);
  }

  // ----- the handlers -----

  lemma HandleOk(w: World, g: G, ev: Event)
    requires Prepared(w, g, ev)
    ensures Kept(w, g, ev, w.Handle(g, ev))
    decreases Rank(g.state, ev), 5
  {
    hide Kept, Prepared;
    match g.state
    case Void => VoidOk(w, g, ev);
    case Init => InitOk(w, g, ev);
    case Program => ProgramOk(w, g, ev);
    case Reset => ResetOk(w, g, ev);
    case BootloaderConnect => BootloaderConnectOk(w, g, ev);
    case BootloaderQuery => BootloaderQueryOk(w, g, ev);
    case V1Sync => V1SyncOk(w, g, ev);
    case V1WriteHeader => V1WriteHeaderOk(w, g, ev);
    case V1Upload => V1UploadOk(w, g, ev);
    case V1Validate => V1ValidateOk(w, g, ev);
    case V3Sync => V3SyncOk(w, g, ev);
    case V3Upload => V3UploadOk(w, g, ev);
    case V3WaitID => V3WaitIDOk(w, g, ev);
  }

  lemma VoidOk(w: World, g: G, ev: Event)
    requires Prepared(w, g, ev) && g.state.Void?
    ensures Kept(w, g, ev, g)
  {
  }

  lemma CommandlineOk(w: World, g: G)
    requires Steady(w, g, true, false) && g.state.Init?
    ensures var r := w.ProcessCommandline(g);
            Prepared(w, r, Action) && Rearms(r, Action) && Follows(g, r) && r.port == g.port
    ensures var r := w.ProcessCommandline(g);
            r.state.Program? || r.state.Reset?
  {
    hide Carried;
    NoteCarried(g.port, g.trace, Pass);
    NoteCarried(g.port, g.trace + [Pass], EnterReset);
    Noted(g.trace, Pass);
    Noted(g.trace + [Pass], EnterReset);
    JustifiedGrows(w, g.trace, Pass);
    JustifiedGrows(w, g.trace + [Pass], EnterReset);
  }

  lemma FailedPassKeeps(w: World, g: G)
    requires Steady(w, g, true, false) && g.state.Init?
    ensures Inv(w, g.(state := Void, substate := NoSub, trapped := true))
    ensures Inv(w, g.(state := Void, substate := NoSub, running := false))
  {
  }

  lemma InitOk(w: World, g: G, ev: Event)
    requires Prepared(w, g, ev) && g.state.Init?
    ensures Kept(w, g, ev, w.StInit(g, ev))
    decreases Rank(g.state, ev), 2
  {
    hide World.Handle, World.ProcessCommandline, Shape, Phase, Justified, Balanced, Timing, Carried;
    if ev.Started? || ev.Timeout? {
      var g1 := g.(calls := g.calls + 1);
      CallKeeps(w, g, true, false);
      CommandlineOk(w, g1);
      FailedPassKeeps(w, g1);
      if w.loads(g.calls) && w.CommandlineOk() {
        HandleOk(w, w.ProcessCommandline(g1), Action);
        RaisedKept(w, g, ev, w.ProcessCommandline(g1), Action, w.Handle(w.ProcessCommandline(g1), Action));
      } else {
        StoppedKept(w, g, ev, w.StInit(g, ev));
      }
    } else {
      assert Inv(w, g) by { InitIdle(w, g, ev); }
      IdleKept(w, g, ev);
    }
  }

  lemma InitIdle(w: World, g: G, ev: Event)
    requires Prepared(w, g, ev) && g.state.Init? && !ev.Started? && !ev.Timeout?
    ensures Inv(w, g)
  {
  }

  lemma ProgramOk(w: World, g: G, ev: Event)
    requires Prepared(w, g, ev) && g.state.Program?
    ensures Kept(w, g, ev, w.StProgram(g, ev))
    decreases Rank(g.state, ev), 2
  {
    Settled(w, g, ev);
    hide World.Handle, Kept, Steady;
    match ev
    case Action => StartProgramOk(w, g);
    case ResetSuccess => FindBootloaderOk(w, g);
    case ResetFailed => StopKeeps(w, g); StoppedKept(w, g, ev, ShutDown(g));
    case _ => IdleKept(w, g, ev);
  }

  lemma StopKeeps(w: World, g: G)
    requires Inv(w, g)
    ensures Inv(w, ShutDown(g))
  {
    hide Justified, Balanced, Timing, Carried, ShapeOf, Phase;
  }

  lemma StartProgramOk(w: World, g: G)
    requires Inv(w, g) && g.state.Program?
    ensures Kept(w, g, Action, w.StProgram(g, Action))
    decreases 8, 1
  {
    hide World.Handle, Justified, Balanced, Timing, Carried, ShapeOf, Phase;
    EnterResetKeeps(w, g);
    var g1 := Log(g.(state := Reset), EnterReset);
    HandleOk(w, g1, Action);
    RaisedKept(w, g, Action, g1, Action, w.Handle(g1, Action));
  }

  lemma FindBootloaderOk(w: World, g: G)
    requires Inv(w, g) && g.state.Program?
    ensures Kept(w, g, ResetSuccess, w.StProgram(g, ResetSuccess))
  {
    hide Justified, Balanced, Timing, Carried, ShapeOf;
    if w.cfg.device.RaspBee1? || w.cfg.device.ConBee1? {
      MoveKeeps(w, g, BootloaderQuery, false, false, false, false);
      TimedKept(w, g, ResetSuccess, g.(state := BootloaderQuery), 5000);
    } else {
      MoveKeeps(w, g, BootloaderConnect, false, false, false, false);
      TimedKept(w, g, ResetSuccess, g.(state := BootloaderConnect), 500);
    }
  }

  lemma EnterResetKeeps(w: World, g: G)
    requires Inv(w, g) && g.state.Program?
    ensures Steady(w, Log(g.(state := Reset), EnterReset), false, true)
  {
    Noted(g.trace, EnterReset);
    NoteCarried(g.port, g.trace, EnterReset);
    JustifiedGrows(w, g.trace, EnterReset);
    hide Carried;
  }

  lemma LeaveResetKeeps(w: World, g: G)
    requires Inv(w, g) && g.state.Reset?
    ensures Inv(w, Log(g.(state := Program), LeaveReset))
  {
    Noted(g.trace, LeaveReset);
    NoteCarried(g.port, g.trace, LeaveReset);
    JustifiedGrows(w, g.trace, LeaveReset);
    hide Carried;
  }

  /** Events that the handlers of the substates leave to `StReset`. */
  predicate ResetOutcome(ev: Event) {
    match ev
    case UartResetSuccess | UartResetFailed | FtdiResetSuccess | FtdiResetFailed
       | RaspBeeResetSuccess | RaspBeeResetFailed => true
    case _ => false
  }

  /** Outside ST_Init and the first event of a state, the two modes of the invariant agree. */
  lemma Settled(w: World, g: G, ev: Event)
    requires Prepared(w, g, ev) && !g.state.Init?
    ensures !(ev.Action? && (g.state.V1Sync? || g.state.V3Sync?)) ==> Inv(w, g)
  {
  }

  lemma BeforeActionKeeps(w: World, g: G)
    requires Inv(w, g) && !g.state.V1Sync? && !g.state.V1WriteHeader? && !g.state.V3Sync?
    ensures Steady(w, g, false, true)
  {
  }

  lemma ResetOk(w: World, g: G, ev: Event)
    requires Prepared(w, g, ev) && g.state.Reset?
    ensures Kept(w, g, ev, w.StReset(g, ev))
    decreases Rank(g.state, ev), 3
  {
    Settled(w, g, ev);
    hide World.Handle, Kept, Steady;
    match ev
    case Action => StartResetOk(w, g);
    case UartResetSuccess | FtdiResetSuccess | RaspBeeResetSuccess => ResetDoneOk(w, g, ev);
    case UartResetFailed => UartResetFailedOk(w, g);
    case FtdiResetFailed => GiveUpOk(w, g, ev, 1, FtdiResetSuccess);
    case RaspBeeResetFailed => GiveUpOk(w, g, ev, 1, RaspBeeResetSuccess);
    case _ =>
      match g.substate
      case NoSub => IdleKept(w, g, ev);
      case ResetUart => ResetUartOk(w, g, ev);
      case ResetFtdi => ResetFtdiOk(w, g, ev);
      case ResetRaspBee => ResetRaspBeeOk(w, g, ev);
  }

  lemma StartResetOk(w: World, g: G)
    requires Inv(w, g) && g.state.Reset?
    ensures Kept(w, g, Action, w.StReset(g, Action))
    decreases 7, 2
  {
    hide World.Handle, World.StResetUart, Justified, Balanced, Timing, Carried, ShapeOf, Phase;
    var g1 := g.(wp := 0, substate := ResetUart);
    BeforeActionKeeps(w, g1);
    ResetUartOk(w, g1, Action);
    RaisedKept(w, g, Action, g1, Action, w.StResetUart(g1, Action));
  }

  lemma ResetDoneOk(w: World, g: G, ev: Event)
    requires Inv(w, g) && g.state.Reset?
    requires ev.UartResetSuccess? || ev.FtdiResetSuccess? || ev.RaspBeeResetSuccess?
    ensures Kept(w, g, ev, w.StReset(g, ev))
    decreases 2, 1
  {
    hide World.Handle, Justified, Balanced, Timing, Carried, ShapeOf, Phase;
    var g1 := g.(substate := NoSub);
    if w.cfg.task.TaskReset? {
      StoppedKept(w, g, ev, ShutDown(g1));
    } else {
      var g2 := Log(g1.(state := Program), LeaveReset);
      LeaveResetKeeps(w, g1);
      HandleOk(w, g2, ResetSuccess);
      RaisedKept(w, g, ev, g2, ResetSuccess, w.Handle(g2, ResetSuccess));
    }
  }

  /** Pretending that a reset worked: arm the timer and go on. */
  lemma GiveUpOk(w: World, g: G, ev: Event, ms: nat, next: Event)
    requires Inv(w, g) && g.state.Reset? && Rank(g.state, ev) >= 3
    requires next.UartResetSuccess? || next.FtdiResetSuccess? || next.RaspBeeResetSuccess?
    requires !ev.Timeout? && !ev.Started?
    ensures Kept(w, g, ev, w.Handle(w.SetTimeout(g, ms), next))
    decreases 2, 6
  {
    TimeoutKeeps(w, g, ms, false, false);
    hide Justified, Balanced, Timing, Carried, ShapeOf, Phase, World.Handle;
    var g1 := w.SetTimeout(g, ms);
    HandleOk(w, g1, next);
    RaisedKept(w, g, ev, g1, next, w.Handle(g1, next));
  }

  lemma UartResetFailedOk(w: World, g: G)
    requires Inv(w, g) && g.state.Reset?
    ensures Kept(w, g, UartResetFailed, w.StReset(g, UartResetFailed))
    decreases 5, 1
  {
    hide World.Handle, Justified, Balanced, Timing, Carried, ShapeOf, Phase;
    ConnectOk(w, g, false, false);
    var pinned := w.cfg.device.ConBee1? || w.cfg.device.RaspBee1? || w.cfg.device.RaspBee2?;
    var g1 := if pinned then w.Connect(g) else g;
    var r := w.StReset(g, UartResetFailed);
    BeforeActionKeeps(w, g1);
    if !pinned || !g1.port.connected {
      GiveUpOk(w, g1, UartResetFailed, 500, UartResetSuccess);
      RaisedKept(w, g, UartResetFailed, g1, UartResetFailed, r);
    } else if w.cfg.device.ConBee1? {
      ResetFtdiOk(w, g1.(substate := ResetFtdi), Action);
      RaisedKept(w, g, UartResetFailed, g1.(substate := ResetFtdi), Action, r);
    } else {
      ResetRaspBeeOk(w, g1.(substate := ResetRaspBee), Action);
      RaisedKept(w, g, UartResetFailed, g1.(substate := ResetRaspBee), Action, r);
    }
  }

  lemma ResetUartOk(w: World, g: G, ev: Event)
    requires Prepared(w, g, ev) && g.state.Reset? && g.substate.ResetUart? && !ResetOutcome(ev)
    ensures Kept(w, g, ev, w.StResetUart(g, ev))
    decreases Rank(g.state, ev), 1
  {
    Settled(w, g, ev);
    hide World.Handle, Kept, Steady;
    match ev
    case Action => StartUartResetOk(w, g);
    case RxBootloader =>
      if g.ascii[1] == BTL_ID_RESPONSE { GiveUpOk(w, g, ev, 100, UartResetSuccess); } else { IdleKept(w, g, ev); }
    case Disconnected => GiveUpOk(w, g, ev, 500, UartResetSuccess);
    case PkgUartReset => CommandAnsweredOk(w, g);
    case Timeout => UartTimeoutOk(w, g);
    case _ => IdleKept(w, g, ev);
  }

  lemma CommandAnsweredOk(w: World, g: G)
    requires Inv(w, g) && g.state.Reset? && g.substate.ResetUart?
    ensures Kept(w, g, PkgUartReset, w.StResetUart(g, PkgUartReset))
    decreases 4, 0
  {
    hide World.Handle, Justified, Balanced, Timing, Phase, Carried;
    if w.cfg.device.RaspBee1? || w.cfg.device.ConBee1? {
      var g1 := ClearTimeout(g);
      ClearKeeps(w, g);
      HandleOk(w, g1, UartResetSuccess);
      RaisedKept(w, g, PkgUartReset, g1, UartResetSuccess, w.Handle(g1, UartResetSuccess));
    } else {
      IdleKept(w, g, PkgUartReset);
    }
  }

  /** Outside ST_Init the timer is no part of the invariant. */
  lemma ClearKeeps(w: World, g: G)
    requires Inv(w, g) && !g.state.Init?
    ensures Inv(w, ClearTimeout(g))
  {
  }

  lemma UartTimeoutOk(w: World, g: G)
    requires Inv(w, g) && g.state.Reset? && g.substate.ResetUart?
    ensures Kept(w, g, Timeout, w.StResetUart(g, Timeout))
    decreases 9, 0
  {
    hide Justified, Balanced, Timing, Carried, Phase;
    var g1 := g.(substate := NoSub, port := Port(false, [], g.port.wire));
    assert w.StReset(g1, Disconnected) == g1;
    assert w.Handle(g1, Disconnected) == g1;
    assert w.Disconnect(g.(substate := NoSub)) == g1;
    ClosedCarried(g.port, g.trace, false);
    hide Carried;
    HandleOk(w, g1, UartResetFailed);
    hide World.Handle;
    RaisedKept(w, g, Timeout, g1, UartResetFailed, w.StResetUart(g, Timeout));
  }

  lemma StartUartResetOk(w: World, g: G)
    requires Inv(w, g) && g.state.Reset? && g.substate.ResetUart?
    ensures Kept(w, g, Action, w.StResetUart(g, Action))
    decreases 7, 0
  {
    hide World.Handle, World.SendFlagged, Justified, Balanced, Timing, Carried, Phase, Due;
    TimeoutKeeps(w, g, 3000, false, false);
    ConnectOk(w, w.SetTimeout(g, 3000), false, false);
    var g1 := w.Connect(w.SetTimeout(g, 3000));
    if g1.port.connected {
      if w.cfg.task.TaskReset? { ResetMessageOk(w, g1, CMD_QUERY_FIRMWARE); }
      var g2 := if w.cfg.task.TaskReset? then w.SendFlagged(g1, CMD_QUERY_FIRMWARE) else g1;
      ResetMessageOk(w, g2, CMD_RESET_UART);
    }
  }

  lemma ResetMessageOk(w: World, g: G, bytes: seq<u8>)
    requires Inv(w, g) && g.state.Reset? && g.port.connected
    requires bytes == CMD_RESET_UART || (w.cfg.task.TaskReset? && bytes == CMD_QUERY_FIRMWARE)
    ensures var r := w.SendFlagged(g, bytes);
            Inv(w, r) && Follows(g, r) && r.port.connected && r.state == g.state && r.substate == g.substate &&
            r.timer == g.timer
    decreases 5, 2
  {
    ResetMessageDue(w, g, bytes);
    hide World.SendFlagged, Justified, Balanced, Timing, Carried, Phase, Due;
    LogKeeps(w, g, Framed(bytes));
    SendOk(w, g, bytes);
  }

  lemma ResetMessageDue(w: World, g: G, bytes: seq<u8>)
    requires Inv(w, g) && g.state.Reset?
    requires bytes == CMD_RESET_UART || (w.cfg.task.TaskReset? && bytes == CMD_QUERY_FIRMWARE)
    ensures Due(w, g.trace, Framed(bytes))
  {
    hide Justified, Timing, Carried, Phase;
  }

  /** A reset line has been worked, and its outcome is raised. */
  lemma LineWorkedOk(w: World, g: G, line: Note, next: Event)
    requires Inv(w, g) && g.state.Reset? && ResetOutcome(next) && !next.UartResetFailed?
    requires if line.FtdiReset? then w.cfg.device.ConBee1?
             else line.PinReset? && (w.cfg.device.RaspBee1? || w.cfg.device.RaspBee2?)
    ensures Kept(w, g, Action, w.Handle(Log(g, line).(calls := g.calls + 1), next))
    decreases 3, 6
  {
    LineDue(w, g, line);
    hide World.Handle, Justified, Balanced, Timing, Carried, Phase, Shape, Due;
    LogKeeps(w, g, line);
    var g1 := Log(g, line).(calls := g.calls + 1);
    CallKeeps(w, Log(g, line), false, false);
    HandleOk(w, g1, next);
    RaisedKept(w, g, Action, g1, next, w.Handle(g1, next));
  }

  lemma LineDue(w: World, g: G, line: Note)
    requires Inv(w, g) && g.state.Reset?
    requires if line.FtdiReset? then w.cfg.device.ConBee1?
             else line.PinReset? && (w.cfg.device.RaspBee1? || w.cfg.device.RaspBee2?)
    ensures Due(w, g.trace, line)
  {
    hide Justified, Timing, Carried, Phase;
  }

  lemma ResetFtdiOk(w: World, g: G, ev: Event)
    requires Prepared(w, g, ev) && g.state.Reset? && g.substate.ResetFtdi? && !ResetOutcome(ev)
    requires ev.Action? ==> w.cfg.device.ConBee1?
    ensures Kept(w, g, ev, w.StResetFtdi(g, ev))
    decreases if ev.Action? then 4 else 0, 0
  {
    Settled(w, g, ev);
    hide World.Handle, Kept, Steady;
    if ev.Action? {
      LineWorkedOk(w, g, FtdiReset, if w.resets(g.calls) then FtdiResetSuccess else FtdiResetFailed);
    } else {
      IdleKept(w, g, ev);
    }
  }

  lemma ResetRaspBeeOk(w: World, g: G, ev: Event)
    requires Prepared(w, g, ev) && g.state.Reset? && g.substate.ResetRaspBee? && !ResetOutcome(ev)
    requires ev.Action? ==> w.cfg.device.RaspBee1? || w.cfg.device.RaspBee2?
    ensures Kept(w, g, ev, w.StResetRaspBee(g, ev))
    decreases if ev.Action? then 4 else 0, 0
  {
    Settled(w, g, ev);
    hide World.Handle, Kept, Steady;
    if ev.Action? {
      LineWorkedOk(w, g, PinReset, if w.resets(g.calls) then RaspBeeResetSuccess else RaspBeeResetFailed);
    } else {
      IdleKept(w, g, ev);
    }
  }

  lemma BootloaderConnectOk(w: World, g: G, ev: Event)
    requires Prepared(w, g, ev) && g.state.BootloaderConnect?
    ensures Kept(w, g, ev, w.StBootloaderConnect(g, ev))
    decreases Rank(g.state, ev), 2
  {
    Settled(w, g, ev);
    hide World.Handle, Kept, Steady;
    match ev
    case Timeout => ConnectTimeoutOk(w, g);
    case RxAscii => ShortcutOk(w, g);
    case _ => IdleKept(w, g, ev);
  }

  lemma ConnectTimeoutOk(w: World, g: G)
    requires Inv(w, g) && g.state.BootloaderConnect?
    ensures Kept(w, g, Timeout, w.StBootloaderConnect(g, Timeout))
    decreases 9, 1
  {
    hide World.Handle, Justified, Balanced, Timing, Carried, ShapeOf;
    ConnectOk(w, g, false, false);
    var g1 := w.Connect(g);
    if g1.port.connected {
      var g2 := g1.(state := BootloaderQuery);
      MoveKeeps(w, g1, BootloaderQuery, false, false, false, true);
      HandleOk(w, g2, Action);
      RaisedKept(w, g, Timeout, g2, Action, w.Handle(g2, Action));
    } else {
      TimedKept(w, g, Timeout, g1, 500);
    }
  }

  lemma ShortcutOk(w: World, g: G)
    requires Inv(w, g) && g.state.BootloaderConnect? && g.port.connected
    ensures Kept(w, g, RxAscii, w.StBootloaderConnect(g, RxAscii))
    decreases 7, 1
  {
    hide World.Handle, Justified, Balanced, Timing, Carried, ShapeOf;
    var g1 := g.(state := BootloaderQuery, substate := NoSub);
    MoveKeeps(w, g.(substate := NoSub), BootloaderQuery, false, false, false, false);
    TimeoutKeeps(w, g1, 100, false, false);
    var g2 := w.SetTimeout(g1, 100);
    HandleOk(w, g2, RxAscii);
    RaisedKept(w, g, RxAscii, g2, RxAscii, w.Handle(g2, RxAscii));
  }

  lemma BootloaderQueryOk(w: World, g: G, ev: Event)
    requires Prepared(w, g, ev) && g.state.BootloaderQuery?
    ensures Kept(w, g, ev, w.StBootloaderQuery(g, ev))
    decreases Rank(g.state, ev), 2
  {
    Settled(w, g, ev);
    hide World.Handle, World.Retry, Finds, Kept, Steady;
    match ev
    case Action => StartQueryOk(w, g);
    case Timeout => QueryTimeoutOk(w, g);
    case RxAscii => DetectedV1Ok(w, g);
    case RxBootloader => DetectedV3Ok(w, g);
    case Disconnected => RetryKept(w, g, ev);
    case _ => IdleKept(w, g, ev);
  }

  lemma StartQueryOk(w: World, g: G)
    requires Inv(w, g) && g.state.BootloaderQuery?
    ensures Kept(w, g, Action, w.StBootloaderQuery(g, Action))
  {
    hide Justified, Balanced, Timing, Carried, Phase;
    TimedKept(w, g, Action, g.(retry := 0, wp := 0, ascii := seq(ASCII_SIZE, _ => 0)), 200);
  }

  lemma IdReceived(g: G)
    requires Delivered(g) && g.ascii[1] == 0x82
    ensures JustGot(g.trace, [0x81, 0x82])
  {
    assert g.ascii[..2] == [0x81, 0x82];
    DeliveredIs(g, [0x81, 0x82]);
  }

  lemma DetectedV3Ok(w: World, g: G)
    requires Inv(w, g) && g.state.BootloaderQuery? && g.port.connected && Delivered(g)
    ensures Kept(w, g, RxBootloader, w.StBootloaderQuery(g, RxBootloader))
    decreases 6, 1
  {
    hide World.Handle, Justified, Balanced, Timing, Carried, JustGot, Delivered;
    if g.ascii[1] == BTL_ID_RESPONSE {
      IdReceived(g);
      var g1 := g.(state := V3Sync);
      MoveKeeps(w, g, V3Sync, false, false, false, true);
      HandleOk(w, g1, Action);
      RaisedKept(w, g, RxBootloader, g1, Action, w.Handle(g1, Action));
    } else {
      IdleKept(w, g, RxBootloader);
    }
  }

  lemma SameInput(g: G, h: G, k: Keyword)
    requires Finds(g, k) && h.ascii == g.ascii && h.wp == g.wp
    ensures Finds(h, k)
  {
  }

  lemma DetectedV1Ok(w: World, g: G)
    requires Inv(w, g) && g.state.BootloaderQuery? && g.port.connected
    ensures Kept(w, g, RxAscii, w.StBootloaderQuery(g, RxAscii))
    decreases 6, 1
  {
    hide World.Handle, Justified, Balanced, Timing, Carried, Finds, LogWord, EndsIn;
    if !(32 < g.wp && g.ascii[g.wp - 1] == 10 && Finds(g, Bootloader)) {
      IdleKept(w, g, RxAscii);
    } else {
      var g1 := ClearTimeout(g);
      ClearKeeps(w, g);
      SameInput(g, g1, Bootloader);
      WordKeeps(w, g1, Bootloader);
      LogWordIs(g1, Bootloader);
      var g2 := LogWord(g1, Bootloader).(state := V1Sync);
      MoveKeeps(w, LogWord(g1, Bootloader), V1Sync, false, false, false, true);
      HandleOk(w, g2, Action);
      RaisedKept(w, g, RxAscii, g2, Action, w.Handle(g2, Action));
    }
  }

  lemma QueryDue(w: World, t: seq<Note>)
    ensures w.Head().fileType < 30 ==> Due(w, t, Sent(Ascii("ID")))
    ensures w.Head().fileType >= 30 ==> Due(w, t, Framed([BTL_MAGIC, 0x02]))
  {
    assert Ascii("ID") == [73, 68];
  }

  lemma QueryTimeoutOk(w: World, g: G)
    requires Inv(w, g) && g.state.BootloaderQuery?
    ensures Kept(w, g, Timeout, w.StBootloaderQuery(g, Timeout))
    decreases 9, 1
  {
    hide World.Handle, World.Retry, World.Write, World.SendFlagged, Justified, Balanced, Timing, Carried, Phase, Due;
    var g1 := g.(retry := g.retry + 1);
    assert Poised(g1);
    if g1.retry == 3 {
      RetryKept(w, g1, Timeout);
      RaisedKept(w, g, Timeout, g1, Timeout, w.Retry(g1));
    } else if w.Head().fileType < 30 {
      QueryDue(w, g1.trace);
      LogKeeps(w, g1, Sent(Ascii("ID")));
      WriteOk(w, g1, Ascii("ID"));
      TimedKept(w, g, Timeout, w.Write(g1, Ascii("ID")), 200);
    } else {
      QueryDue(w, g1.trace);
      LogKeeps(w, g1, Framed([BTL_MAGIC, 0x02]));
      SendOk(w, g1, [BTL_MAGIC, 0x02]);
      TimedKept(w, g, Timeout, w.SendFlagged(g1, [BTL_MAGIC, 0x02]), 200);
    }
  }

  // ----- V1 -----

  lemma V1SyncOk(w: World, g: G, ev: Event)
    requires Prepared(w, g, ev) && g.state.V1Sync?
    ensures Kept(w, g, ev, w.StV1Sync(g, ev))
    decreases Rank(g.state, ev), 3
  {
    Settled(w, g, ev);
    hide World.Handle, World.Retry, World.Write, Finds, Kept, Steady;
    match ev
    case Action => StartV1Ok(w, g);
    case RxAscii => SyncedV1Ok(w, g);
    case Timeout => RetryKept(w, g, ev);
    case _ => IdleKept(w, g, ev);
  }

  lemma StartV1Ok(w: World, g: G)
    requires Prepared(w, g, Action) && g.state.V1Sync?
    ensures Kept(w, g, Action, w.StV1Sync(g, Action))
    decreases 5, 2
  {
    var g1 := ResetInput(g);
    SyncNoteKeeps(w, g1);
    hide V1Order, Reached, Justified, Balanced, Timing, Carried, Phase, World.Write, World.Handle;
    WriteOk(w, g1, V1_SYNC);
    TimedKept(w, g, Action, w.Write(g1, V1_SYNC), 500);
  }

  lemma SyncNoteKeeps(w: World, g: G)
    requires Steady(w, g, false, true) && g.state.V1Sync?
    ensures Inv(w, Log(g, Sent(V1_SYNC)))
  {
    hide V1Order, Reached, Justified, Balanced, Timing, Carried, Due;
    SyncIsDue(w, g.trace);
    OrderNotes(w);
    NothingReached(V1Order(w), g.trace);
    ReachedGrows(V1Order(w), 0, g.trace, Sent(V1_SYNC));
    NoteKeeps(w, g, Sent(V1_SYNC), V1Sync, true);
  }

  lemma SyncIsDue(w: World, t: seq<Note>)
    requires EndsIn(t, Saw(Bootloader))
    ensures Due(w, t, Sent(V1_SYNC))
  {
    hide World.Head, V1Header, IsPage;
  }

  lemma SyncedV1Ok(w: World, g: G)
    requires Inv(w, g) && g.state.V1Sync? && g.port.connected
    ensures Kept(w, g, RxAscii, w.StV1Sync(g, RxAscii))
    decreases 6, 1
  {
    OrderNotes(w);
    hide World.Handle, Justified, Balanced, Timing, Carried, Finds, V1Order, Reached, Due, LogWord, EndsIn;
    if 4 < g.wp && Finds(g, Keyword.Ready) {
      var g1 := ClearTimeout(g);
      ClearKeeps(w, g);
      SameInput(g, g1, Keyword.Ready);
      HeaderIsNext(w, g1);
      LogWordIs(g1, Keyword.Ready);
      var g2 := LogWord(g1, Keyword.Ready).(state := V1WriteHeader);
      HandleOk(w, g2, Action);
      RaisedKept(w, g, RxAscii, g2, Action, w.Handle(g2, Action));
    } else {
      TimedKept(w, g, RxAscii, g, 500);
    }
  }

  lemma HeaderIsNext(w: World, g: G)
    requires Inv(w, g) && g.state.V1Sync? && Finds(g, Keyword.Ready)
    ensures Steady(w, LogWord(g, Keyword.Ready).(state := V1WriteHeader), false, true)
  {
    hide Justified, Balanced, Timing, Carried, Finds, V1Order, Reached, Due, LogWord, EndsIn, ShapeOf;
    WordKeeps(w, g, Keyword.Ready);
    ReadyReached(w, Log(g, Words(g.ascii[..g.wp])));
    LogWordIs(g, Keyword.Ready);
    EnteringHeader(w, LogWord(g, Keyword.Ready).(state := V1WriteHeader));
  }

  lemma ReadyReached(w: World, g: G)
    requires Inv(w, g) && g.state.V1Sync? && Due(w, g.trace, Saw(Keyword.Ready))
    ensures Inv(w, Log(g, Saw(Keyword.Ready)).(state := V1WriteHeader))
  {
    OrderNotes(w);
    hide Justified, Balanced, Timing, Carried, V1Order, Reached, Due, EndsIn;
    ReachedGrows(V1Order(w), 1, g.trace, Saw(Keyword.Ready));
    NoteKeeps(w, g, Saw(Keyword.Ready), V1WriteHeader, false);
  }

  lemma EnteringHeader(w: World, g: G)
    requires Inv(w, g) && g.state.V1WriteHeader? && EndsIn(g.trace, Saw(Keyword.Ready))
    ensures Steady(w, g, false, true)
  {
    hide Justified, Balanced, Reached, Timing, Carried;
  }

  lemma V1WriteHeaderOk(w: World, g: G, ev: Event)
    requires Prepared(w, g, ev) && g.state.V1WriteHeader?
    ensures Kept(w, g, ev, w.StV1WriteHeader(g, ev))
    decreases Rank(g.state, ev), 4
  {
    Settled(w, g, ev);
    assert ev.Action? ==> EndsIn(g.trace, Saw(Keyword.Ready));
    hide World.Write, World.Handle, V1Header, Kept, Steady;
    if ev.Action? { SendHeaderOk(w, g); } else { IdleKept(w, g, ev); }
  }

  lemma SendHeaderOk(w: World, g: G)
    requires Inv(w, g) && g.state.V1WriteHeader? && g.port.connected && EndsIn(g.trace, Saw(Keyword.Ready))
    ensures Kept(w, g, Action, w.StV1WriteHeader(g, Action))
    decreases 5, 3
  {
    var bytes := V1Header(w.Head());
    assert Inv(w, ResetInput(g)) by { hide Phase, Justified, Balanced, Timing; }
    hide World.Write, World.Handle, V1Header, World.Head, Steady;
    HeaderNoteKeeps(w, ResetInput(g), bytes);
    assert ShapeOf(g.calls, g.port) && Carried(g.port, g.trace) by { ShapeHolds(w, g); }
    HeaderSentOk(w, g, ResetInput(g).(state := V1Upload), bytes);
  }

  lemma ShapeHolds(w: World, g: G)
    requires Inv(w, g)
    ensures ShapeOf(g.calls, g.port) && Carried(g.port, g.trace)
  {
  }

  lemma HeaderNoteKeeps(w: World, g: G, bytes: seq<u8>)
    requires Inv(w, g) && g.state.V1WriteHeader? && bytes == V1Header(w.Head())
    requires EndsIn(g.trace, Saw(Keyword.Ready))
    ensures Inv(w, Log(g.(state := V1Upload), Sent(bytes)))
  {
    OrderNotes(w);
    assert Due(w, g.trace, Sent(bytes)) by { hide V1Order, Reached, Justified, Balanced, Timing, V1Header, World.Head; }
    hide Due;
    hide V1Order, Reached, Justified, Balanced, Timing, Carried, V1Header, World.Head;
    ReachedGrows(V1Order(w), 2, g.trace, Sent(bytes));
    NoteKeeps(w, g, Sent(bytes), V1Upload, false);
  }

  lemma HeaderSentOk(w: World, g: G, h: G, bytes: seq<u8>)
    requires Inv(w, Log(h, Sent(bytes))) && g.port.connected && h.port == g.port && h.state.V1Upload?
    requires Follows(g, h) && |h.port.queue| < RING && Carried(h.port, h.trace)
    ensures Kept(w, g, Action, w.SetTimeout(w.Write(h, bytes), 1000))
    decreases 5, 2
  {
    hide World.Write, World.Handle, Justified, Balanced, Timing, Carried, Phase;
    WriteOk(w, h, bytes);
    TimedKept(w, g, Action, w.Write(h, bytes), 1000);
  }

  lemma V1UploadOk(w: World, g: G, ev: Event)
    requires Prepared(w, g, ev) && g.state.V1Upload?
    ensures Kept(w, g, ev, w.StV1Upload(g, ev))
    decreases Rank(g.state, ev), 2
  {
    Settled(w, g, ev);
    hide World.SendPage, World.Retry, Justified, Balanced, Timing, Carried, Phase;
    match ev
    case RxAscii =>
      if g.wp < 6 || g.ascii[0] != 71 || g.ascii[5] != 59 {
        IdleKept(w, g, ev);
      } else {
        PageOk(w, g, FromLe16(g.ascii[3..5]));
      }
    case Timeout => RetryKept(w, g, ev);
    case _ => IdleKept(w, g, ev);
  }

  lemma PageOk(w: World, g: G, n: u16)
    requires Inv(w, g) && g.state.V1Upload? && g.port.connected
    ensures Kept(w, g, RxAscii, w.SendPage(g, n))
    decreases 5, 2
  {
    hide Reached, V1Order, Justified, Balanced, Timing, Carried, World.Write, World.Handle, Due;
    if n as int * V1_PAGESIZE >= |w.Image()| {
      StoppedKept(w, g, RxAscii, g.(trapped := true));
    } else {
      var page := Page(w.Image(), n);
      var g1 := ResetInput(g).(remaining := |w.Image()| - n as int * V1_PAGESIZE);
      PageDue(w, g.trace, n);
      LogKeeps(w, g1, Sent(page));
      WriteOk(w, g1, page);
      var g2 := w.Write(g1, page);
      if g1.remaining == |page| {
        LastPageSent(w, n, g.trace);
        MoveKeeps(w, g2, V1Validate, false, false, false, false);
        TimedKept(w, g, RxAscii, g2.(state := V1Validate), 25600);
      } else {
        TimedKept(w, g, RxAscii, g2, 2000);
      }
    }
  }

  lemma PageDue(w: World, t: seq<Note>, n: u16)
    requires n as int * V1_PAGESIZE < |w.Image()|
    ensures Due(w, t, Sent(Page(w.Image(), n)))
  {
    assert IsPage(w.Image(), n, Page(w.Image(), n));
  }

  lemma LastPageSent(w: World, n: u16, t: seq<Note>)
    requires n as int * V1_PAGESIZE < |w.Image()| && Reached(V1Order(w), 3, t)
    requires |w.Image()| - n as int * V1_PAGESIZE == |Page(w.Image(), n)|
    ensures Reached(V1Order(w), 4, t + [Sent(Page(w.Image(), n))])
  {
    PagesPartition(w.Image());
    assert IsLastPage(|w.Image()|, n);
    ReachedGrows(V1Order(w), 3, t, Sent(Page(w.Image(), n)));
  }

  lemma V1ValidateOk(w: World, g: G, ev: Event)
    requires Prepared(w, g, ev) && g.state.V1Validate?
    ensures Kept(w, g, ev, w.StV1Validate(g, ev))
    decreases Rank(g.state, ev), 2
  {
    Settled(w, g, ev);
    hide World.Retry, Kept, Steady, Finds, LogWord;
    match ev
    case RxAscii => ValidityOk(w, g);
    case Timeout => RetryKept(w, g, ev);
    case _ => IdleKept(w, g, ev);
  }

  lemma ValidityOk(w: World, g: G)
    requires Inv(w, g) && g.state.V1Validate?
    ensures Kept(w, g, RxAscii, w.StV1Validate(g, RxAscii))
  {
    hide World.Retry, Kept, Steady, Finds, LogWord;
    if 6 < g.wp && Finds(g, ValidCrc) {
      LogWordIs(g, ValidCrc);
      ValidatedOk(w, g);
      StopKeeps(w, Log(LogWord(g, ValidCrc), V1Done));
      StoppedKept(w, g, RxAscii, ShutDown(Log(LogWord(g, ValidCrc), V1Done)));
    } else {
      TimedKept(w, g, RxAscii, g, 1000);
    }
  }

  lemma ValidatedOk(w: World, g: G)
    requires Inv(w, g) && g.state.V1Validate? && Finds(g, ValidCrc)
    ensures Inv(w, Log(LogWord(g, ValidCrc), V1Done))
  {
    hide Justified, Balanced, Timing, Carried, Phase, ShapeOf, Finds, V1Order, Reached, Due, LogWord, EndsIn;
    WordKeeps(w, g, ValidCrc);
    LogWordIs(g, ValidCrc);
    VerdictReached(w, Log(g, Words(g.ascii[..g.wp])));
  }

  lemma VerdictReached(w: World, g: G)
    requires Inv(w, g) && g.state.V1Validate? && Due(w, g.trace, Saw(ValidCrc))
    ensures Inv(w, Log(Log(g, Saw(ValidCrc)), V1Done))
  {
    hide Justified, Balanced, Timing, Carried, Due, V1Order, Reached, Since, Subseq;
    OrderNotes(w);
    LogKeeps(w, g, Saw(ValidCrc));
    ReachedGrows(V1Order(w), 4, g.trace, Saw(ValidCrc));
    var g1 := Log(g, Saw(ValidCrc));
    AllReached(w, g1.trace);
    V1DoneDue(w, g1.trace);
    LogKeeps(w, g1, V1Done);
  }

  lemma V1DoneDue(w: World, t: seq<Note>)
    requires Subseq(V1Order(w), Since(t)) && EndsIn(t, Saw(ValidCrc))
    ensures Due(w, t, V1Done)
  {
    hide V1Order, Since, Subseq;
  }

  // ----- V3 -----

  lemma V3SyncOk(w: World, g: G, ev: Event)
    requires Prepared(w, g, ev) && g.state.V3Sync?
    ensures Kept(w, g, ev, w.StV3Sync(g, ev))
    decreases Rank(g.state, ev), 4
  {
    Settled(w, g, ev);
    hide World.Retry, World.SendFlagged, Kept, Steady;
    match ev
    case Action => StartV3Ok(w, g);
    case RxBootloader => AcceptedV3Ok(w, g);
    case Timeout => RetryKept(w, g, ev);
    case _ => IdleKept(w, g, ev);
  }

  lemma AcceptanceDue(w: World, g: G)
    requires Delivered(g) && g.ascii[1] == 0x83 && g.ascii[2] == 0
    ensures Due(w, g.trace, Accepted)
  {
    assert g.ascii[..3] == [0x81, 0x83, 0];
    DeliveredIs(g, [0x81, 0x83, 0]);
    hide JustGot, Delivered;
  }

  lemma AcceptedV3Ok(w: World, g: G)
    requires Inv(w, g) && g.state.V3Sync? && Delivered(g)
    ensures Kept(w, g, RxBootloader, w.StV3Sync(g, RxBootloader))
  {
    hide Steady, Kept, Delivered;
    if g.ascii[1] == BTL_FW_UPDATE_RESPONSE && g.ascii[2] == 0 {
      AcceptanceDue(w, g);
      AcceptanceKeeps(w, g);
      TimedKept(w, g, RxBootloader, Log(g, Accepted).(state := V3Upload), 3000);
    } else {
      IdleKept(w, g, RxBootloader);
    }
  }

  lemma AcceptanceKeeps(w: World, g: G)
    requires Inv(w, g) && g.state.V3Sync? && Due(w, g.trace, Accepted)
    ensures Inv(w, Log(g, Accepted).(state := V3Upload))
  {
    OrderNotes(w);
    hide V3Order, Reached, Justified, Balanced, Timing, Carried, Due;
    ReachedGrows(V3Order(w), 1, g.trace, Accepted);
    NoteKeeps(w, g, Accepted, V3Upload, false);
  }

  lemma StartV3Ok(w: World, g: G)
    requires Prepared(w, g, Action) && g.state.V3Sync?
    ensures Kept(w, g, Action, w.StV3Sync(g, Action))
    decreases 5, 3
  {
    var g1 := w.SetTimeout(g, 1000);
    var bytes := V3SyncRequest(w.Head());
    TimeoutKeeps(w, g, 1000, false, true);
    RequestNoteKeeps(w, g1, bytes);
    hide Phase, Justified, Balanced, Timing, Carried, World.SendFlagged, World.Handle, V3SyncRequest, World.Head;
    RequestSentOk(w, g, g1, bytes);
  }

  lemma RequestNoteKeeps(w: World, g: G, bytes: seq<u8>)
    requires Steady(w, g, false, true) && g.state.V3Sync? && bytes == V3SyncRequest(w.Head())
    ensures Inv(w, Log(g, Framed(bytes)))
  {
    hide V3Order, Reached, Justified, Balanced, Timing, Carried, V3SyncRequest, World.Head, Due, JustGot;
    RequestIsDue(w, g.trace, bytes);
    OrderNotes(w);
    NothingReached(V3Order(w), g.trace);
    ReachedGrows(V3Order(w), 0, g.trace, Framed(bytes));
    NoteKeeps(w, g, Framed(bytes), V3Sync, true);
  }

  lemma RequestIsDue(w: World, t: seq<Note>, bytes: seq<u8>)
    requires JustGot(t, [0x81, 0x82]) && bytes == V3SyncRequest(w.Head())
    ensures Due(w, t, Framed(bytes))
  {
    hide JustGot, V3SyncRequest, World.Head, Entered, Left;
  }

  lemma RequestSentOk(w: World, g: G, h: G, bytes: seq<u8>)
    requires Inv(w, Log(h, Framed(bytes))) && g.port.connected && h.port == g.port && h.state.V3Sync?
    requires Follows(g, h) && |h.port.queue| < RING && h.timer != 0 && Carried(h.port, h.trace)
    ensures Kept(w, g, Action, w.SendFlagged(h, bytes))
    decreases 5, 2
  {
    hide World.SendFlagged, World.Handle, Justified, Balanced, Timing, Carried, Phase;
    SendOk(w, h, bytes);
  }

  lemma V3UploadOk(w: World, g: G, ev: Event)
    requires Prepared(w, g, ev) && g.state.V3Upload?
    ensures Kept(w, g, ev, w.StV3Upload(g, ev))
    decreases Rank(g.state, ev), 2
  {
    Settled(w, g, ev);
    hide World.AnswerDataRequest, World.Retry, Justified, Balanced, Timing, Carried, Phase, Due;
    match ev
    case RxBootloader =>
      if g.ascii[1] == BTL_FW_DATA_REQUEST && g.wp == 8 {
        RequestDue(w, g);
        AnswerOk(w, g, FromLe32(g.ascii[2..6]), FromLe16(g.ascii[6..8]));
      } else {
        IdleKept(w, g, ev);
      }
    case Timeout => RetryKept(w, g, ev);
    case _ => IdleKept(w, g, ev);
  }

  lemma AnswerOk(w: World, g: G, offset: u32, length: u16)
    requires Inv(w, g) && g.state.V3Upload? && g.port.connected && Due(w, g.trace, Asked(offset, length))
    ensures Kept(w, g, RxBootloader, w.AnswerDataRequest(g, offset, length))
    decreases 5, 3
  {
    hide Reached, V3Order, V3Complete, Since, Justified, Balanced, Timing, Carried, Due;
    hide World.SendFlagged, World.Handle;
    hide Reply, Remaining, World.Image;
    var remaining, response := Remaining(|w.Image()|, offset, length), Reply(w.Image(), offset, length);
    var g0 := w.SetTimeout(g, 5000).(remaining := remaining);
    var g1 := Log(g0, Asked(offset, length));
    TimeoutKeeps(w, g, 5000, false, false);
    LogKeeps(w, g0, Asked(offset, length));
    hide Steady;
    if remaining >= MAX_FILE_SIZE {
      TrapKeeps(w, g1);
      StoppedKept(w, g, RxBootloader, g1.(trapped := true));
    } else {
      if remaining == length as int { FinalRequest(w, g.trace, offset, length); }
      ReplyDue(w, g.trace, offset, length);
      ReplyOk(w, g, g1, response, remaining == length as int);
    }
  }

  lemma RequestDue(w: World, g: G)
    requires Delivered(g) && g.ascii[1] == 0x04 && g.wp == 8
    ensures Due(w, g.trace, Asked(FromLe32(g.ascii[2..6]), FromLe16(g.ascii[6..8])))
  {
    var p := g.ascii[..8];
    assert g.ascii[2..6] == p[2..6] && g.ascii[6..8] == p[6..8];
  }

  lemma ReplyDue(w: World, t: seq<Note>, offset: u32, length: u16)
    ensures Due(w, t + [Asked(offset, length)], Framed(Reply(w.Image(), offset, length)))
  {
    hide Reply, World.Image, Entered, Left;
  }

  lemma ReplyOk(w: World, g: G, h: G, response: seq<u8>, final: bool)
    requires Inv(w, h) && Follows(g, h) && h.state.V3Upload? && g.port.connected && h.port == g.port
    requires |response| <= 489 && h.timer != 0
    requires final ==> V3Complete(w, Since(h.trace + [Framed(response)]))
    requires Due(w, h.trace, Framed(response))
    ensures
      var h1 := w.SendFlagged(h.(ascii := Overwrite(h.ascii, response)), response);
      h1.remaining == h.remaining &&
      Kept(w, g, RxBootloader, if final then w.SetTimeout(h1.(state := V3WaitID), 20000) else h1)
    decreases 5, 2
  {
    hide Reached, V3Complete, Since, Justified, Balanced, Timing, Carried, World.SendFlagged, World.Handle, Due;
    var h0 := h.(ascii := Overwrite(h.ascii, response));
    LogKeeps(w, h0, Framed(response));
    SendOk(w, h0, response);
    if final {
      var h1 := w.SendFlagged(h0, response);
      MoveKeeps(w, h1, V3WaitID, false, false, false, false);
      TimedKept(w, g, RxBootloader, h1.(state := V3WaitID), 20000);
    }
  }

  lemma FinalIs(w: World, offset: u32, length: u16)
    requires DataStatus(|w.Image()|, offset, length) == 0 && offset as int + length as int == |w.Image()|
    ensures offset < |w.Image()| <= offset as int + MAX_CHUNK
    ensures FinalResponse(w, offset) == Reply(w.Image(), offset, length)
  {
    hide DataResponse, World.Image;
    var image := w.Image();
    LastChunk(image, offset, length);
    assert (|image| - offset as int) % 0x1_0000 == length as int;
  }

  lemma LastChunk(image: seq<u8>, from: nat, n: nat)
    requires from + n == |image|
    ensures image[from..] == image[from..from + n]
  {
  }

  /** The request that ends the upload leaves the trace of a complete one. */
  lemma FinalRequest(w: World, t: seq<Note>, offset: u32, length: u16)
    requires Reached(V3Order(w), 2, t) && length as int == Remaining(|w.Image()|, offset, length)
    ensures V3Complete(w, Since(t + [Asked(offset, length)] + [Framed(Reply(w.Image(), offset, length))]))
  {
    var response := Reply(w.Image(), offset, length);
    var s, asked := Since(t), Asked(offset, length);
    Noted(t, asked);
    Noted(t + [asked], Framed(response));
    assert V3Order(w)[..2] == V3Order(w);
    if DataStatus(|w.Image()|, offset, length) == 0 {
      FinalIs(w, offset, length);
      hide *;
      SubseqWeaken(V3Order(w), s, asked);
      SubseqSnoc(V3Order(w), s + [asked], Framed(response));
      FinalByChunk(w, offset, response, s + [asked] + [Framed(response)]);
    } else {
      hide *;
      SubseqSnoc(V3Order(w), s, asked);
      FinalByNothing(w, offset, s + [asked]);
      CompleteGrows(w, s + [asked], Framed(response));
    }
  }

  lemma FinalByChunk(w: World, offset: u32, response: seq<u8>, s: seq<Note>)
    requires offset < |w.Image()| <= offset as int + MAX_CHUNK && response == FinalResponse(w, offset)
    requires Subseq(V3Order(w) + [Framed(response)], s)
    ensures V3Complete(w, s)
  {
    assert SentFinalChunk(w, offset, s);
  }

  lemma FinalByNothing(w: World, offset: u32, s: seq<Note>)
    requires Subseq(V3Order(w) + [Asked(offset, 0)], s)
    ensures V3Complete(w, s)
  {
    assert AskedForNothing(w, offset, s);
  }

  lemma V3DoneDue(w: World, t: seq<Note>)
    requires V3Complete(w, Since(t)) && JustGot(t, [0x81, 0x82])
    ensures Due(w, t, V3Done)
  {
    hide V3Complete, Since;
  }

  lemma V3WaitIDOk(w: World, g: G, ev: Event)
    requires Prepared(w, g, ev) && g.state.V3WaitID?
    ensures Kept(w, g, ev, w.StV3WaitID(g, ev))
    decreases Rank(g.state, ev), 2
  {
    Settled(w, g, ev);
    hide World.Retry, Justified, Balanced, Timing, Carried, V3Complete, Since, Due;
    match ev
    case RxBootloader =>
      if g.ascii[1] == BTL_ID_RESPONSE {
        IdReceived(g);
        V3DoneDue(w, g.trace);
        LogKeeps(w, g, V3Done);
        StoppedKept(w, g, ev, ShutDown(Log(g, V3Done)));
      } else {
        IdleKept(w, g, ev);
      }
    case Timeout => RetryKept(w, g, ev);
    case _ => IdleKept(w, g, ev);
  }
}
