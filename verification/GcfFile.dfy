/** The firmware file: `GCF_ParseFile` of gcf.c and what the upload takes from its result. */
module GcfFile {
  import opened Bytes
  import opened ByteStream
  import Crc8

  const MAGIC: u32 := 0xCAFE_FEED
  const HEADER_SIZE: nat := 14
  const MAX_FILE_SIZE: nat := 0x40_0000
  const APP_ENCRYPTED: u8 := 60
  const APP_ENCRYPTED_2: u8 := 90
  const V1_PAGESIZE: nat := 256

  /** The fields the parser sets. */
  datatype Header = Header(fileType: u8, target: u32, size: nat, crc: u8, crc32: u32, dataOffset: nat)

  /** The return codes 0, -1 and -3, and the assertion that stops the program. */
  datatype Outcome = Parsed(header: Header) | TooShort | SizeMismatch | Trapped

  /** The little-endian word at `at`, or 0 where the file has ended. */
  function Word(c: seq<u8>, at: nat): u32 {
    if at + 4 <= |c| then FromLe32(c[at..at + 4]) else 0
  }

  function Bits(c: seq<u8>): seq<bv8> { seq(|c|, i requires 0 <= i < |c| => c[i] as bv8) }

  /** The header of a file whose magic has been read, and whether the assertion on type 60 fails. */
  function HeaderOf(c: seq<u8>): (Header, bool)
    requires |c| >= HEADER_SIZE
  {
    var offset := if c[4] == APP_ENCRYPTED_2 then HEADER_SIZE + 4 else HEADER_SIZE;
    var crc32 :=
      if c[4] == APP_ENCRYPTED then Word(c, 38) else if c[4] == APP_ENCRYPTED_2 then Word(c, 14) else 0;
    (Header(c[4], Word(c, 5), Word(c, 9), c[13], crc32, offset), c[4] == APP_ENCRYPTED && Word(c, 18) != Word(c, 9))
  }

  /** The parser by file positions. */
  function Parse(c: seq<u8>): Outcome {
    if |c| < HEADER_SIZE then TooShort
    else if Word(c, 0) != MAGIC then
      Parsed(Header(0, 0, |c|, Crc8.Crc(0, Bits(c)) as u8, 0, 0))
    else
      var (h, trapped) := HeaderOf(c);
      if trapped then Trapped else if h.size != |c| - h.dataOffset then SizeMismatch else Parsed(h)
  }

  /** `GCF_File`: the file as read, and the parsed fields. */
  class File {
    const fcontent: array<u8>
    const fsize: nat
    var header: Header

    ghost predicate Valid() {
      fsize <= MAX_FILE_SIZE == fcontent.Length
    }

    constructor (content: array<u8>, size: nat)
      requires size <= MAX_FILE_SIZE == content.Length
      ensures Valid() && fcontent == content && fsize == size
    {
      fcontent, fsize, header := content, size, Header(0, 0, 0, 0, 0, 0);
    }

    method ParseFile() returns (outcome: Outcome)
      requires Valid()
      modifies this
      ensures outcome == Parse(fcontent[..fsize])
      ensures outcome.Parsed? ==> header == outcome.header
    {
      if fsize < HEADER_SIZE {
        return TooShort;
      }
      ghost var c := fcontent[..fsize];
      var bs := new BStream(fcontent, fsize);
      header := Header(0, 0, 0, 0, 0, 0);
      var magic := ReadWord(bs, c, 0);
      if magic == MAGIC {
        var trapped;
        header, trapped := ReadHeader(bs, c);
        if trapped {
          return Trapped;
        }
      } else {
        var crc := Crc8.CRC8_Dallas(0, Bits(fcontent[..fsize]));
        header := Header(0, 0, fsize, crc as u8, 0, 0);
      }
      // unsigned long arithmetic: a file shorter than its header wraps to a huge size
      WrapIsHuge(fsize, header.dataOffset);
      if header.size != (fsize - header.dataOffset) % 0x1_0000_0000_0000_0000 {
        return SizeMismatch;
      }
      return Parsed(header);
    }
  }

  lemma WrapIsHuge(fsize: nat, offset: nat)
    requires fsize <= MAX_FILE_SIZE && offset <= HEADER_SIZE + 4
    ensures var room := (fsize - offset) % 0x1_0000_0000_0000_0000;
            if offset <= fsize then room == fsize - offset else room > 0xFFFF_FFFF
  {
  }

  method ReadHeader(bs: BStream, ghost c: seq<u8>) returns (h: Header, trapped: bool)
    requires bs.Valid() && Reading(bs.View(), c, 4) && |c| >= HEADER_SIZE
    modifies bs
    ensures trapped == HeaderOf(c).1 && (!trapped ==> h == HeaderOf(c).0)
  {
    var fileType := ReadByte(bs, c, 4);
    var target := ReadWord(bs, c, 5);
    var size := ReadWord(bs, c, 9);
    var crc := ReadByte(bs, c, 13);
    h, trapped := Header(fileType, target, size, crc, 0, HEADER_SIZE), false;
    if fileType == APP_ENCRYPTED {
      var totalSize, crc32 := ReadImageHeader(bs, c);
      h, trapped := h.(crc32 := crc32), totalSize != size;
    } else if fileType == APP_ENCRYPTED_2 {
      var crc32 := ReadWord(bs, c, 14);
      h := h.(crc32 := crc32, dataOffset := HEADER_SIZE + 4);
    }
  }

  /** The inner header of type 60: the total size and the CRC32 are used, the rest is skipped. */
  method ReadImageHeader(bs: BStream, ghost c: seq<u8>) returns (totalSize: u32, crc32: u32)
    requires bs.Valid() && Reading(bs.View(), c, 14)
    modifies bs
    ensures totalSize == Word(c, 18) && crc32 == Word(c, 38)
  {
    var _ := ReadWord(bs, c, 14); // product magic
    totalSize := ReadWord(bs, c, 18);
    var _ := ReadWord(bs, c, 22); // image size
    var _ := ReadWord(bs, c, 26); // image type
    var _ := ReadWord(bs, c, 30); // target address
    var _ := ReadWord(bs, c, 34); // plain size
    crc32 := ReadWord(bs, c, 38);
  }

  // ----- what the headers on the wire repeat -----

  /** The ten bytes of `ST_V1ProgramWriteHeader`. */
  function V1Header(h: Header): seq<u8> { Le32(h.size) + Le32(h.target) + [h.fileType, h.crc] }

  /** The update request of `ST_V3ProgramSync`. */
  function V3SyncRequest(h: Header): seq<u8> {
    [0x81, 0x03] + Le32(h.size) + Le32(h.target) + [h.fileType] + Le32(h.crc32)
  }

  /** The part of the file that is uploaded. */
  function Payload(c: seq<u8>, h: Header): (r: seq<u8>)
    requires h.dataOffset + h.size == |c|
    ensures |r| == h.size
  {
    c[h.dataOffset..h.dataOffset + h.size]
  }

  /** A parsed header accounts for every byte of the file. */
  lemma ParsedAccountsForFile(c: seq<u8>)
    requires Parse(c).Parsed?
    ensures var h := Parse(c).header;
            h.dataOffset + h.size == |c| && |c| >= HEADER_SIZE && (h.dataOffset > 0 ==> Word(c, 0) == MAGIC)
  {
  }

  lemma WordBytes(c: seq<u8>, at: nat)
    requires at + 4 <= |c|
    ensures Le32(Word(c, at)) == c[at..at + 4]
  {
    LeBytesRoundTrip(c[at..at + 4]);
  }

  /** Both upload headers repeat the file's own bytes, field by field. */
  lemma HeaderFidelity(c: seq<u8>)
    requires Parse(c).Parsed? && Word(c, 0) == MAGIC
    ensures V1Header(Parse(c).header) == c[9..13] + c[5..9] + [c[4], c[13]]
    ensures V3SyncRequest(Parse(c).header)
         == [0x81, 0x03] + c[9..13] + c[5..9] + [c[4]] +
            (if c[4] == APP_ENCRYPTED_2 then c[14..18]
             else if c[4] == APP_ENCRYPTED && |c| >= 42 then c[38..42]
             else [0, 0, 0, 0])
  {
    WordBytes(c, 9);
    WordBytes(c, 5);
    if c[4] == APP_ENCRYPTED_2 { WordBytes(c, 14); }
    if c[4] == APP_ENCRYPTED && |c| >= 42 { WordBytes(c, 38); }
  }

  predicate HasMagic(c: seq<u8>) { |c| >= 4 && c[..4] == [0xED, 0xFE, 0xFE, 0xCA] }

  lemma MagicWord(c: seq<u8>)
    requires |c| >= 4
    ensures Word(c, 0) == MAGIC <==> HasMagic(c)
  {
    var b := c[..4];
    assert c[0..4] == b && [b[0], b[1], b[2], b[3]] == b;
    LeBytesRoundTrip(b);
    assert Le32(MAGIC) == [0xED, 0xFE, 0xFE, 0xCA];
  }

  /**
   What becomes of a file, whole: below 14 bytes it is too short; with the magic it must have the size its
   header says, behind 14 bytes or, for type 90, 18, and type 60 must say the same twice.
   */
  lemma ParsedIff(c: seq<u8>)
    ensures Parse(c).TooShort? <==> |c| < 14
    ensures HasMagic(c) && |c| >= 14 ==>
              (Parse(c).Trapped? <==> c[4] == 60 && Word(c, 18) != Word(c, 9)) &&
              (Parse(c).Parsed? <==>
               !(c[4] == 60 && Word(c, 18) != Word(c, 9)) &&
               |c| == Word(c, 9) as int + if c[4] == 90 then 18 else 14)
    ensures !HasMagic(c) && |c| >= 14 ==> Parse(c).Parsed?
  {
    if |c| >= 14 { MagicWord(c); }
    hide Word;
  }

  /** A file without the magic is uploaded as it is: type and target 0, and its own checksum. */
  lemma HeaderlessFidelity(c: seq<u8>)
    requires |c| >= 14 && !HasMagic(c)
    ensures
      var h := Parse(c).header;
      h.size == |c| && Payload(c, h) == c && Crc8.Crc(0, Bits(c) + [h.crc as bv8]) == 0 &&
      V1Header(h) == Le32(|c|) + [0, 0, 0, 0, 0, h.crc] &&
      V3SyncRequest(h) == [0x81, 0x03] + Le32(|c|) + [0, 0, 0, 0, 0, 0, 0, 0, 0]
  {
    MagicWord(c);
    Crc8.SelfCheck(0, Bits(c), Crc8.Crc(0, Bits(c)));
    hide Word, Crc8.Crc, Bits;
    var h := Parse(c).header;
    assert h == Header(0, 0, |c|, Crc8.Crc(0, Bits(c)) as u8, 0, 0);
    assert c[0..|c|] == c;
    assert Le32(0) == [0, 0, 0, 0];
    hide Le32;
  }

  // ----- V1 pages -----

  /** The reply to a request for page `n`; the program asserts that the page starts inside the image. */
  function Page(payload: seq<u8>, n: nat): (r: seq<u8>)
    requires n * V1_PAGESIZE < |payload|
    ensures 1 <= |r| <= V1_PAGESIZE
  {
    var from := n * V1_PAGESIZE;
    if |payload| - from > V1_PAGESIZE then payload[from..from + V1_PAGESIZE] else payload[from..]
  }

  function PageCount(size: nat): nat { (size + V1_PAGESIZE - 1) / V1_PAGESIZE }

  predicate IsLastPage(size: nat, n: nat) { n * V1_PAGESIZE < size <= (n + 1) * V1_PAGESIZE }

  function Pages(payload: seq<u8>, n: nat): seq<u8>
    requires n <= PageCount(|payload|)
  {
    if n == 0 then [] else Pages(payload, n - 1) + Page(payload, n - 1)
  }

  lemma {:induction false} PagesPrefix(payload: seq<u8>, n: nat)
    requires n <= PageCount(|payload|)
    ensures Pages(payload, n) == if n * V1_PAGESIZE <= |payload| then payload[..n * V1_PAGESIZE] else payload
  {
    if n > 0 { PagesPrefix(payload, n - 1); }
  }

  /** The replies to pages 0, 1, ... concatenate to the payload, and exactly one page is the last. */
  lemma PagesPartition(payload: seq<u8>)
    requires payload != []
    ensures Pages(payload, PageCount(|payload|)) == payload
    ensures forall n: nat :: IsLastPage(|payload|, n) <==> n == PageCount(|payload|) - 1
  {
    PagesPrefix(payload, PageCount(|payload|));
  }
}
