/** `GCF::ascii`, the buffer in which the program collects what it receives. */
module Input {
  import opened Bytes

  const ASCII_SIZE: nat := 512

  type InputBuffer = s: seq<u8> | |s| == ASCII_SIZE witness seq(ASCII_SIZE, _ => 0)
  type InputIndex = n: nat | n < ASCII_SIZE

  /** Bytes written over the front of the buffer. */
  function Overwrite(ascii: InputBuffer, bytes: seq<u8>): InputBuffer
    requires |bytes| <= ASCII_SIZE
  {
    bytes + ascii[|bytes|..]
  }

  /** Storing received bytes; a full buffer starts over. The last component counts stored bytes. */
  function Store(ascii: InputBuffer, wp: InputIndex, data: seq<u8>): (InputBuffer, InputIndex, nat) {
    if data == [] then (ascii, wp, 0)
    else
      var (a, w, n) := Store(ascii, wp, data[..|data| - 1]);
      var ch := data[|data| - 1];
      if w < ASCII_SIZE - 2 then (a[w := ch][w + 1 := 0], w + 1, n + 1) else (a[0 := 0], 0, n)
  }

  /** The first loop of `GCF_Received`. */
  method StoreInput(ascii: array<u8>, start: InputIndex, data: seq<u8>) returns (wp: InputIndex, n: nat)
    requires ascii.Length == ASCII_SIZE
    modifies ascii
    ensures (ascii[..], wp, n) == Store(old(ascii[..]), start, data)
  {
    wp, n := start, 0;
    for i := 0 to |data|
      invariant (ascii[..], wp, n) == Store(old(ascii[..]), start, data[..i])
    {
      assert data[..i + 1][..i] == data[..i];
      if wp < ASCII_SIZE - 2 {
        ascii[wp] := data[i];
        wp := wp + 1;
        ascii[wp] := 0;
        n := n + 1;
      } else {
        wp := 0;
        ascii[0] := 0;
      }
    }
    assert data[..|data|] == data;
  }

  /** The buffer holds the end of everything received so far. */
  ghost predicate Holds(ascii: InputBuffer, wp: InputIndex, stream: seq<u8>) {
    wp <= |stream| && ascii[..wp] == stream[|stream| - wp..]
  }

  /** Storing keeps the buffer at the end of the stream and never reaches back. */
  lemma {:induction false} StoreHolds(ascii: InputBuffer, wp: InputIndex, stream: seq<u8>, data: seq<u8>)
    requires Holds(ascii, wp, stream)
    ensures
      var (a, w, n) := Store(ascii, wp, data);
      Holds(a, w, stream + data) && |stream| - wp <= |stream + data| - w
  {
    if data == [] {
      assert stream + data == stream;
    } else {
      var front, ch := data[..|data| - 1], data[|data| - 1];
      StoreHolds(ascii, wp, stream, front);
      var (a, w, n) := Store(ascii, wp, front);
      assert stream + data == stream + front + [ch];
      if w < ASCII_SIZE - 2 { HoldsOneMore(a, w, stream + front, ch); }
    }
  }

  lemma HoldsOneMore(a: InputBuffer, w: InputIndex, stream: seq<u8>, ch: u8)
    requires Holds(a, w, stream) && w < ASCII_SIZE - 2
    ensures Holds(a[w := ch][w + 1 := 0], w + 1, stream + [ch])
  {
    assert a[w := ch][w + 1 := 0][..w + 1] == a[..w] + [ch];
  }

  /** A full buffer starts over without the byte that did not fit. */
  lemma StoreRolls(ascii: InputBuffer, ch: u8)
    ensures Store(ascii, 510, [ch]).1 == 0 && Store(ascii, 510, [ch]).2 == 0
    ensures Store(ascii, 509, [ch]).1 == 510 && Store(ascii, 509, [ch]).2 == 1
  {
    assert [ch][..0] == [];
    assert Store(ascii, 510, []) == (ascii, 510, 0) && Store(ascii, 509, []) == (ascii, 509, 0);
  }

  /** As long as there is room, storing appends. */
  lemma {:induction false} StoreAppends(ascii: InputBuffer, wp: InputIndex, data: seq<u8>)
    requires wp + |data| <= ASCII_SIZE - 2
    ensures
      var (a, w, n) := Store(ascii, wp, data);
      w == wp + |data| && n == |data| && a[..w] == ascii[..wp] + data
  {
    if data == [] {
      assert ascii[..wp] + data == ascii[..wp];
    } else {
      var front, ch := data[..|data| - 1], data[|data| - 1];
      StoreAppends(ascii, wp, front);
      var (a, w, n) := Store(ascii, wp, front);
      assert a[w := ch][w + 1 := 0][..w + 1] == a[..w] + [ch];
      assert ascii[..wp] + front + [ch] == ascii[..wp] + data;
    }
  }
}
