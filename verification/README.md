# The GCFFlasher upload stack in Dafny

This project models the firmware upload of GCFFlasher, from the file on disk to the bytes on the
serial line, together with its two smaller machines, the sniffer and the flash dump, and proves
what they keep over whole runs. The platform is POSIX with 64-bit `long`: `unsigned` has 32 bits,
`unsigned short` 16 and `unsigned long` 64, and every wrap-around that matters is written out.

Layers, from the bottom:

| files | content |
|---|---|
| `Bytes`, `ByteStream` | machine integers, `buffer_helper.c`, the bounded byte stream of `u_bstream.c` |
| `Decimal`, `TextStream` | `U_strtol` and the text stream of `u_sstream.c` |
| `Crc8`, `GcfFile` | `CRC8_Dallas` and its algebra, `GCF_ParseFile`, the upload headers, the V1 pages |
| `Framing`, `Decoder`, `Receiver` | the packet codec of `protocol.c`: sender, receiver, round trip, soundness on arbitrary bytes, damaged bytes |
| `Subsequence`, `Transmit`, `SerialPort` | the transmit side of `main_posix.c` as a queue, and the 2048-byte ring with wrapping counters that refines it |
| `Input`, `Trace`, `Flasher`, `FlasherInvariant`, `FlasherRuns` | the event-driven flasher of `gcf.c` as functions, what every event keeps, and theorems over whole runs |
| `Reactions` | what the flasher answers to each packet, text, timeout and hangup, in bytes and milliseconds |
| `BootloaderSearch` | when the search for the bootloader ends, over one search and over whole runs |
| `GcfMachine` | the same flasher as an object whose handlers update its fields, proved equal to the functions |
| `MainLoop`, `OpenPort`, `Upload`, `RequestText`, `PageUpload` | the V3 and the V1 upload end to end, from requests in pieces to the memory of the device; what the packet receiver makes of V1 text |
| `CooperatingDevice`, `CooperatingPages` | whole runs from the start of the program, V3 and V1: uploads that succeed for every file, and some that go wrong |
| `Sniffer`, `SnifferRuns`, `SnifferCompleteness`, `SnifferMachine` | re-framing of sniffed packets: single events, soundness, completeness, and the object with its in-place buffers |
| `FlashDump`, `FlashDumpMachine` | reading a device's flash: theorems, and the object |

Where the source changes state in place, a class has the source's fields and methods, and each method
states its new state by a function on values; the theorems are about those functions.

The environment is an oracle. Whatever the program asks of the outside (the clock, opening the
device, a reset pin, reading the firmware file, what `write` accepts) is answered by functions of
the number of questions asked so far, so the theorems hold for all behaviours of the outside; the
clock only has to be monotone. What `poll` and `read` return is the input of a run. `Assert` stops
the program (`trapped`), as in a build with assertions. A trace records the messages sent, the packets
and texts received, what the flasher took them for, resets, restarts and reports; nothing in the
program depends on it, and nothing reaches the wire that it does not record (`WireIsNoted`).

## What the model shows about the source

Some behaviour of the source differs from what one would expect. The model follows the source; the
lemmas are named in brackets.

- A V3 upload counts as done as soon as one request reaches the end of the image. Later requests get
  no reply, so a device gets all it asks for if and only if no request before its last one reaches
  the end (`AllAnsweredIff`); a device that asks for the last byte first keeps its old first byte,
  and there is a run from the start of the program in which that happens (`LastPieceFirst`,
  `LastPieceFirstRun`). A request for zero bytes also ends the upload (`AnswerIs`), which is why the
  success report speaks about that case (`SuccessIsEarned`).
- After a partial write the rest of a reply waits in the ring until `poll` reports something: idle
  turns of the main loop do not flush (`IdleTurn`). Two fully accepted flushes are enough for any
  reply, and both come in the turn that answers (`ReplyLeaves`).
- The counter of unanswered bootloader queries is compared with `==`. A search on an open port gives
  up if and only if the counter is below 3 when it begins; on a closed port it ends with its first
  question (`QueryGivesUpIff`). On RaspBee I and ConBee I nothing resets the counter
  (`CounterNeverReset`): once a search has been given up after three timeouts, no later search on an
  open port of that run is (`SecondSearchNeverEnds`), and such a run exists (`SilentRunNeverEnds`). On
  all other devices every search starts with a fresh counter and, unanswered, ends (`CounterStaysLow`,
  `EverySearchEnds`).
- A bootloader packet of one or two bytes is judged with what an earlier packet left behind it in the
  buffer: 81 83 alone is an accepted update if the byte behind it was 0 (`UpdateAnswered`,
  `ShortResponseAccepted`).
- `U_strtol` detects overflow by a sum that falls back, which a factor of ten can jump over:
  24000000000000000000 reads as 5553255926290448384 without an error (`OverflowMissedIff`,
  `ShortOverflowMissedIff`, `OverflowMissed`).
- `U_sstream_put_long` leaves a minus sign behind when the digits do not fit (`PutLong`).
- The framing silently loses payloads of no byte and of more than 254 bytes at the host
  (`RoundTripIffFits`); V3 replies of up to 489 bytes need a larger buffer on the device.
- A V1 upload goes to validation as soon as the last page has been asked for, and there no page is sent
  any more: a device gets all it asks for if and only if no request before its final one is for the
  last page (`AllPagesIff`); one that asks for the second of two pages first never gets the first, and
  there is a run from the start of the program in which that happens (`LastPageFirst`,
  `LastPageFirstRun`).
- The text of V1 page requests also runs through the packet receiver. With an empty buffer it makes no
  packet at all of it, for all page numbers of a file of at most 4 MiB, because text is too light for
  the checksum it would have to carry. A packet that overwrites the text buffer needs bytes left over
  from before that begin with the bootloader's code (`TextMakesNoPackets`, `HeavyLeftover`).
- An image of exactly 4 MiB, which the program can hold, cannot be uploaded to a V3 device: the request
  for its first byte fails an assertion (`LargestImageStops`).
- The sniffer drops a marker byte that is the last byte of the buffer when it looks, and never finds
  that frame; a read that overflows the buffer loses the frame that was next. A stream of whole frames
  is relayed completely if and only if neither happens, which the lengths alone decide (`CompleteIff`);
  a frame cut in two is relayed if and only if the first piece is more than its marker
  (`SplitFrameSentIff`). Its datagram buffer is too small for frames of 233 to 255 bytes,
  which go out cut short under their full length byte (`CarriesAllIff`).
- The short cut of `ST_BootloaderConnect` for text from the bootloader is modelled, but
  `GCF_Received` never raises that event in this state (`TextIgnored`, `ShortCuts`).

## Model

| member | source | states |
|---|---|---|
| Bytes.LeRoundTrip | buffer_helper.c:13-33 | reading a little-endian word that was written gives the value back, truncated to the word's width |
| Bytes.LeBytesRoundTrip | buffer_helper.c:13-33 | writing a word that was read gives the same bytes back |
| Bytes.PutU16Le | buffer_helper.c:19-24 | the two bytes go to the output position, nothing else changes, the returned position is behind them |
| Bytes.PutU32Le | buffer_helper.c:26-34 | the same for four bytes |
| ByteStream.FailureSticks | u_bstream.c:21-59 | after the first failure no access changes anything and reads give zero |
| ByteStream.PutThenPeek | u_bstream.c:61-98 | a successful put can be read back at its place and leaves the bytes before and behind alone |
| ByteStream.PutEachFillsUp | u_bstream.c:61-67 | byte-wise writing stores exactly the bytes that fit, in order, and reports an overflow exactly if one did not |
| ByteStream.BStream.Verify | u_bstream.c:21-59 | the check in front of every access: sticky status, null buffer, bounds |
| ByteStream.BStream.PutU8 | u_bstream.c:61-67 | all or nothing, at the position, which moves behind it |
| ByteStream.BStream.PutU16Le | u_bstream.c:69-76 | the same for two bytes, low byte first |
| ByteStream.BStream.PutU32Le | u_bstream.c:78-87 | the same for four bytes, low byte first |
| ByteStream.BStream.PutU32Be | u_bstream.c:89-98 | the same for four bytes, high byte first |
| ByteStream.BStream.GetU8 | u_bstream.c:100-112 | the next byte, or zero and a sticky failure past the end |
| ByteStream.BStream.GetU16Le | u_bstream.c:114-128 | the next two bytes as a number, or zero |
| ByteStream.BStream.GetU32Le | u_bstream.c:146-164 | the next four bytes as a number, or zero |
| Crc8.CRC8_Dallas | gcf.c:258-271 | the two nested loops compute the byte-wise recursive checksum |
| Crc8.Compose | gcf.c:258-271 | the checksum of a concatenation is that of the second part started with that of the first |
| Crc8.Linear | gcf.c:258-271 | over equal lengths the checksum is linear for exclusive or, start values included |
| Crc8.SelfCheck | gcf.c:258-271 | appending a byte brings the checksum to zero if and only if it is the checksum |
| Crc8.BurstDetected | gcf.c:258-271 | any error confined to eight consecutive bits, at any position, changes the checksum |
| Crc8.NineBitsMissedIff | gcf.c:258-271 | an error confined to nine consecutive bits with both ends flipped, at any position and bit offset, goes unnoticed if and only if it is the pattern 1 0011 0001 |
| Decimal.ScanDigits | u_sstream.c:638-648 | the digit loop stops behind the longest run of digits with the wrapped value and the overflow flag of exactly these digits |
| Decimal.U_strtol | u_sstream.c:607-666 | result, end position and error bits for every text, with the byte behind it that the source looks at |
| Decimal.JudgeExact | u_sstream.c:636-665 | below 2^64 the flags for missing digits, overflow and underflow are exact, and without a flag the number is |
| Decimal.OverflowMissedIff | u_sstream.c:638-657 | for every text of digits from 2^64 on: the overflow goes unreported if and only if no digit brings the value modulo 2^64 below what it was and the final one is in range |
| Decimal.ShortOverflowMissedIff | u_sstream.c:638-657 | up to twenty digits only the last digit matters for that |
| Decimal.OverflowMissed | u_sstream.c:638-657 | one such text and the number it reads as |
| Decimal.NumberRead | u_sstream.c:622-660 | blanks and tabulators are skipped, one minus sign is taken, and the number is that of the digits up to the first byte that is none; without digits there it is invalid |
| Decimal.RoundTrip | u_sstream.c:238-286 | every long from -(2^63-1) to 2^63-1 is read back from its text without error, to the last byte |
| TextStream.SStream.Find | u_sstream.c:179-212 | moves to the first occurrence at or behind the position if there is one, and stays otherwise |
| TextStream.SStream.ReverseDigits | u_sstream.c:264-272 | the do-while loop leaves the decimal digits of the magnitude in reverse, at most 19 |
| TextStream.SStream.PutLong | u_sstream.c:247-286 | the decimal text and a NUL at the position if they fit; the error, and the sign left behind, if not |
| TextStream.SStream.GetLong | u_sstream.c:63-95 | number, new position and status, with zero and an error status for each failure |
| GcfFile.File.ParseFile | gcf.c:1727-1864 | reading through the byte stream finds the same header, error code or assertion failure as parsing by file positions |
| GcfFile.ParsedAccountsForFile | gcf.c:1849-1861 | a parsed header accounts for the whole file: data offset plus image size is the file size |
| GcfFile.HeaderFidelity | gcf.c:854-870 | the ten V1 header bytes are file bytes 9-12, 5-8, 4 and 13; the V3 request carries 9-12, 5-8, 4 and the CRC32 from 14-17, 38-41 or zero by file type |
| GcfFile.ParsedIff | gcf.c:1752-1864 | exactly which files are too short, fail the assertion on the two sizes, or parse: with the magic, size field and file length must agree; without it every file of 14 bytes or more parses |
| GcfFile.HeaderlessFidelity | gcf.c:1849-1861 | a file without the magic is uploaded whole, as type and target 0, and its CRC byte brings the checksum of file and byte to zero |
| GcfFile.PagesPartition | gcf.c:897-928 | the replies to pages 0, 1, ... concatenate to the image, and exactly one page number is the last |
| Framing.ChunkingIrrelevant | protocol.c:62-143 | processing input in chunks is processing it at once, error counts added |
| Framing.BufferBounded | protocol.c:120-139 | the receive buffer never holds more bytes than its size |
| Framing.DeliveredSizes | protocol.c:72-98 | every packet delivered has 1 to size-2 bytes, whatever the input |
| Framing.LenientRunDelivered | protocol.c:62-143 | every lenient encoding (repeated ESC collapses) of a packet and its checksum is delivered at the next END |
| Framing.ClosingIs | protocol.c:72-105 | what a closing END does to any buffer: three bytes or more whose sum, the final two as a word, is a multiple of 65536 are delivered, others count an error; fewer bytes or a pending ESC do neither |
| Framing.SelfSynchronising | protocol.c:37-143 | from any state and in any chunking, the frames of packets that fit deliver exactly these after at most one leftover delivery or error, none from a clean state, and leave a clean state |
| Framing.FrameShape | protocol.c:37-60 | C0 at both ends and nowhere between, and two bytes behind the payload, low byte first, that bring the sum of the payload to a multiple of 65536 |
| Framing.StuffingIs | protocol.c:19-35 | anywhere in a payload C0 goes out as DB DC, DB as DB DD and any other byte as it is |
| Framing.RoundTripIffFits | protocol.c:37-143 | a frame delivers its payload if and only if the payload has 1 to size-2 bytes |
| Framing.HostTakesIff | protocol.h:17 | the host's buffer takes payloads of 1 to 254 bytes |
| Decoder.DeliveriesLocated | protocol.c:62-143 | on arbitrary bytes every delivered packet is the lenient decoding, with matching checksum, of its own END-free stretch of the input, stretches disjoint and in order |
| Decoder.DeliversIff | protocol.c:62-143 | an END-free run between two ENDs delivers a packet if and only if it is a series of dropped pieces, each one token more than the buffer holds or ending in ESC before a byte that is no code, and then a lenient encoding of the packet and its checksum that fits the buffer |
| Decoder.CorruptionDetected | protocol.c:86-133 | overwriting one byte of a frame that is no code nor behind ESC by another that is neither END nor ESC delivers nothing and counts one error |
| Receiver.RxState.ReceiveFlagged | protocol.c:62-143 | the byte loop on buffer, position and escape flag ends in the state, with the deliveries and errors, of the functional receiver |
| Receiver.RxState.CheckPacket | protocol.c:72-98 | what an END finds: a packet with a matching checksum, an error, or too few bytes |
| Transmit.PutAllKeepsNewest | main_posix.c:316-328 | after a burst of puts, however long, the queue is the last 2047 bytes of what waited and was put |
| Transmit.OutcomesCount | main_posix.c:354-372 | an interrupted `write` counts for nothing and is repeated, a failed one ends the flush |
| Transmit.FlushTakes | main_posix.c:330-377 | a willing `write` takes the oldest 512 bytes, or all there are, in one flush; on a closed port a flush drops what waits |
| Transmit.FrameFitsRing | gcf.c:1007-1107 | the longest reply, 489 bytes, becomes at most 984 wire bytes and cannot overrun an empty ring |
| Transmit.RunConserves | main_posix.c:316-377 | over every run of puts and partial flushes at most 2047 bytes wait, they are the end of all bytes put, bytes leave in the order they were put, the number lost is the number of puts into a full ring, and nothing is lost if and only if there was none |
| SerialPort.SlotSurvivesWrap | main_posix.c:316-377 | ring positions survive the wrap of the 32-bit counters |
| SerialPort.Serial.Open | main_posix.c:168-220 | connecting empties the queue, and the port is connected as `open` says |
| SerialPort.Serial.Close | main_posix.c:222-233 | disconnecting empties the queue |
| SerialPort.Serial.Putc | main_posix.c:316-328 | the ring with its counters is a queue of the newest 2047 bytes |
| SerialPort.Serial.Gather | main_posix.c:345-350 | the copy loop collects the oldest queued bytes in order, at most 512 |
| SerialPort.Serial.HandOver | main_posix.c:354-372 | the write loop hands over exactly the prefix that the outcomes of `write` accept |
| SerialPort.Serial.Flush | main_posix.c:330-377 | a flush moves a prefix of at most 512 bytes from the queue to the wire, or reports a closed port |
| SerialPort.Serial.PutStuffed | protocol.c:19-35 | one byte, or ESC and its code |
| SerialPort.Serial.SendFlagged | protocol.c:37-60 | the queue gets the frame of the data, then is flushed |
| SerialPort.Serial.Write | main_posix.c:302-314 | the queue gets the raw data, then is flushed |
| SerialPort.Serial.EmptyIff | main_posix.c:504-507 | the counters are equal if and only if nothing is queued |
| Input.StoreInput | gcf.c:1883-1911 | received bytes are appended, and a full buffer starts over at the byte that did not fit, which is lost |
| Input.StoreRolls | gcf.c:1896-1906 | the byte that meets 510 stored ones is dropped and the next is the first again |
| Input.StoreHolds | gcf.c:1883-1911 | the buffer always holds the end of everything received |
| FlasherInvariant.HandleOk | gcf.c:1687-1725 | every event, with all it raises in turn, keeps the timing, the order of the protocol, the justified reports and the balance of resets, and ends with a timeout armed whenever it began so |
| FlasherInvariant.ResetOk | gcf.c:418-571 | the same for ST_Reset and its three substates |
| FlasherInvariant.RetryOk | gcf.c:2260-2283 | a retry before the deadline restarts with a timeout of at least 200 ms, a later one stops the program |
| FlasherInvariant.FinalRequest | gcf.c:1034-1105 | a request after which the host waits for the verdict has been answered up to the end of the image, or asked for nothing |
| FlasherRuns.NoSilentStall | main_posix.c:451-515 | after every turn of the main loop the program has stopped or waits in a resting state with a timeout armed |
| FlasherRuns.RestartsBounded | gcf.c:2260-2283 | the deadline is fixed at the first pass, the last restart comes before it, and there are at most (deadline - start)/200 + 1 restarts |
| FlasherRuns.RestartsSpaced | gcf.c:2260-2283 | every restart comes before the deadline, and any two are at least 200 ms apart |
| FlasherRuns.EveryNoteDue | gcf.c:403-1149 | every note was due: a message only as the answer to the packet, text or request noted just before, or as the reset command in ST_Reset or a query of the search; an acceptance only on 81 83 00 received (as far as the packet goes); a keyword only on a text with it; a reset line only by the device that has it; success earned; resets in turn; restarts in time |
| FlasherRuns.WireIsNoted | gcf.c:403-1149 | over every run the bytes on the wire and in the ring are, in order, bytes of the messages noted, so nothing is sent that was not due |
| FlasherRuns.SuccessIsEarned | gcf.c:714-1149 | a V1 success report comes after sync bytes, READY, header, last page and #VALID CRC in this order since the command line was last processed; a V3 report after request, acceptance and a reply up to the end of the image or a request for nothing |
| FlasherRuns.WaitingIsEarned | gcf.c:1091-1097 | waiting for the V3 verdict implies a complete upload in the same attempt |
| FlasherRuns.ResetsBalanced | gcf.c:418-571 | at every moment of every run ST_Reset has been left by EV_RESET_SUCCESS as often as entered or once less, so each entry is left by exactly one |
| FlasherRuns.TextIgnored | gcf.c:1875-1916 | outside the search and the V1 states received text changes nothing; so it raises no event in ST_BootloaderConnect |
| Reactions.ResetRequested | gcf.c:483-500 | when a reset begins on a port that opens, the bytes added to the stream unframe to exactly one packet, write parameter 0x26 with value 2, behind one query for the firmware version if resetting is the task |
| Reactions.ResetDone | gcf.c:423-437 | each success of a reset ends the program if resetting was the task; else it waits 5 seconds for RaspBee I and ConBee I and looks for the others in half a second |
| Reactions.ResetAnswered | gcf.c:503-526 | which packets, of all, end the reset by command: an ID response, and the answer to the command on RaspBee I and ConBee I |
| Reactions.HangupResets | gcf.c:512-517 | a device that hangs up during the reset by command counts as reset |
| Reactions.LineWorked | gcf.c:440-476 | after the timeout the port is closed and opened again and the line of the device worked, FTDI for ConBee I, the pin for RaspBee I and II, and whatever comes of it the reset counts as done |
| Reactions.DeviceAwaited | gcf.c:684-702 | the device is looked for every 500 ms; once it is there, the search begins with counter 0 and an empty buffer |
| Reactions.QuestionAsked | gcf.c:730-769 | the questions of the search: "ID" for file types below 30, the frame of 81 02 for the others, 200 ms each |
| Reactions.BootloaderGreeted | gcf.c:771-784 | a text starts the V1 upload if and only if it is a line of more than 32 bytes with "Bootloader" in it, and is answered by 1A 1C A9 AE |
| Reactions.BootloaderIdentified | gcf.c:786-801 | of all packets, exactly an ID response starts the V3 upload, and is answered by the update request of the file |
| Reactions.ReadyAnswered | gcf.c:829-850 | a text with READY, and only that, is answered by the header of the file |
| Reactions.PageRequested | gcf.c:882-897 | a text is a page request if and only if it has six bytes or more, G first and a semicolon sixth; the number is in bytes four and five, low byte first |
| Reactions.ValidityAnswered | gcf.c:940-953 | a text with #VALID CRC, and only that, reports V1 success and ends the program |
| Reactions.UpdateAnswered | gcf.c:990-999 | of all packets, the update is accepted if and only if the buffer then begins with 81 83 00; any other packet leaves state and timer alone |
| Reactions.ShortResponseAccepted | gcf.c:990-999 | 81 83 alone is accepted if the third byte of the buffer was 0 |
| Reactions.OtherPacketsIgnored | gcf.c:1009-1015 | during a V3 upload every packet but a data request of eight bytes is only stored |
| Reactions.VerdictAnswered | gcf.c:1109-1149 | of all packets, exactly an ID response reports V3 success and ends the program |
| Reactions.SilenceStartsOver | gcf.c:2260-2283 | silence in each of the six upload states, and a device lost during the search, lead to another attempt in 250 ms before the deadline and to the end after it |
| Reactions.ShortCuts | gcf.c:675-712 | what text during the wait for the device and a failed reset would do, although nothing raises their events |
| Reactions.AttemptBegins | gcf.c:403-416 | an attempt enters ST_Reset, with the deadline of the command line, if and only if the file can be read and parses or need not be; else nothing is sent and the program ends |
| Reactions.ProgramStarts | main_posix.c:431-450 | before its first turn the program has put the commands of a reset, and nothing else, on a port that opened, nothing on one that did not, and waits 3 seconds with the deadline of the command line |
| BootloaderSearch.QueryGivesUpIff | gcf.c:730-805 | an unanswered search for the bootloader ends if and only if its counter is below 3 when it begins or the port is closed |
| BootloaderSearch.CounterNeverReset | gcf.c:665-728 | on RaspBee I and ConBee I the counter only grows, over any run |
| BootloaderSearch.SecondSearchNeverEnds | gcf.c:665-671 | there, once the counter has reached 3, every later search of the run goes on for ever if nothing is received, if and only if the port is open |
| BootloaderSearch.CounterStaysLow | gcf.c:720-730 | on all other devices a search that is going on has counted less than three timeouts, at every moment of every run |
| BootloaderSearch.EverySearchEnds | gcf.c:720-735 | so there every search of every run ends if it is not answered |
| BootloaderSearch.SearchGivenUp | gcf.c:730-735 | a run from the start in which the first search is given up after three timeouts and the second begins with the counter at 3 |
| BootloaderSearch.SilentRunNeverEnds | gcf.c:730-790 | that run asks for ever from its sixth idle turn on |
| GcfMachine.Gcf.SetTimeout | main_posix.c:271-274 | the timer is the current time plus the delay |
| GcfMachine.Gcf.Connect | main_posix.c:168-220 | a closed port is opened if `open` succeeds, an open one stays |
| GcfMachine.Gcf.Disconnect | main_posix.c:222-233 | the port is closed and EV_DISCONNECTED handled |
| GcfMachine.Gcf.Retry | gcf.c:2260-2283 | back to ST_Init with 250 ms before the deadline, shut down after it |
| GcfMachine.Gcf.ProcessCommandline | gcf.c:2702-2775 | deadline and first state of the two tasks |
| GcfMachine.Gcf.Write | main_posix.c:302-314 | raw bytes are queued and flushed, or EV_DISCONNECTED handled |
| GcfMachine.Gcf.SendFlagged | protocol.c:37-60 | a frame is queued and flushed, or EV_DISCONNECTED handled |
| GcfMachine.Gcf.Handle | gcf.c:1687-1725 | dispatch does what the function on values says, and all nested events end, by a rank on state and event |
| GcfMachine.Gcf.StInit | gcf.c:403-416 | start or timeout processes the command line and raises EV_ACTION, or shuts down |
| GcfMachine.Gcf.StProgram | gcf.c:653-679 | reset first, then look for the bootloader as the device type demands |
| GcfMachine.Gcf.StReset | gcf.c:418-481 | what each outcome of a reset leads to |
| GcfMachine.Gcf.StResetUart | gcf.c:483-535 | the reset by command, its answers and its timeout |
| GcfMachine.Gcf.StResetFtdi | gcf.c:538-553 | the reset by FTDI, whose outcome is raised as an event |
| GcfMachine.Gcf.StResetRaspBee | gcf.c:556-571 | the reset by pin, whose outcome is raised as an event |
| GcfMachine.Gcf.StBootloaderConnect | gcf.c:681-712 | connect, or try again in 500 ms |
| GcfMachine.Gcf.StBootloaderQuery | gcf.c:714-806 | the search for either bootloader |
| GcfMachine.Gcf.StV1Sync | gcf.c:808-852 | sync bytes, then READY |
| GcfMachine.Gcf.BuildV1Header | gcf.c:864-868 | the ten header bytes written field by field are the header of the file |
| GcfMachine.Gcf.StV1WriteHeader | gcf.c:854-876 | the header goes out and the upload begins |
| GcfMachine.Gcf.StV1Upload | gcf.c:878-936 | page requests are recognised and answered |
| GcfMachine.Gcf.SendPage | gcf.c:897-928 | the page of that number goes out, and the last one starts validation |
| GcfMachine.Gcf.StV1Validate | gcf.c:938-961 | #VALID CRC ends the upload with success |
| GcfMachine.Gcf.BuildV3Request | gcf.c:969-985 | the request written field by field over its template is the request of the file |
| GcfMachine.Gcf.StV3Sync | gcf.c:963-1005 | the update request and its acceptance |
| GcfMachine.Gcf.StV3Upload | gcf.c:1007-1107 | data requests of exactly eight bytes are decoded and answered |
| GcfMachine.Gcf.AnswerDataRequest | gcf.c:1019-1097 | status, remaining bytes, reply and the end of the upload |
| GcfMachine.Gcf.BuildResponse | gcf.c:1028-1080 | the reply put together in the receive buffer itself is status, offset, length and data, the rest of the buffer unchanged |
| GcfMachine.Gcf.StV3WaitID | gcf.c:1109-1149 | an ID response ends the upload with success |
| GcfMachine.Gcf.Packet | gcf.c:2115-2201 | which event a packet raises |
| GcfMachine.Gcf.Received | gcf.c:1866-1928 | text first, then packets in the order the receiver finds them |
| GcfMachine.Gcf.CheckTimer | main_posix.c:472-479 | the timeout is taken off the timer before it is raised |
| GcfMachine.Gcf.Iterate | main_posix.c:451-515 | one turn of the main loop: timer, hangup, input, flush, in this order |
| GcfMachine.Loop | main_posix.c:431-515 | the object, from its construction through any number of turns, is in the state of the function on values; with a monotone clock it never stalls and everything it has recorded was due |
| MainLoop.IdleTurn | main_posix.c:464-484 | a turn in which `poll` finds nothing and no timeout is due reads the clock and changes nothing else |
| MainLoop.TimeoutTurn | main_posix.c:472-484 | a timeout that is due is handled before anything is read, and is off the timer by then |
| MainLoop.DeviceServed | main_posix.c:486-508 | then input is read and the ring flushed, if the port was open when `poll` was called |
| MainLoop.HangupTurn | main_posix.c:486-492 | a device that hangs up is closed, and neither what it may have sent nor the standard input is read |
| MainLoop.LastTurn | main_posix.c:464-513 | an error of `poll` ends the program at once, even before a timeout; the end of the standard input after everything else |
| Upload.PageAnswered | gcf.c:878-931 | the answer to a page request is that page alone; validation is entered exactly on the last page, for 25.6 seconds; a page outside the image stops the program |
| Upload.AnswerIs | gcf.c:1007-1107 | a data request is answered by one frame, and the upload counts as done if and only if the request reached the end of the image or asked for nothing |
| Upload.RequestServed | gcf.c:2169-2178 | the packet of a data request is decoded to the same offset and length and answered, or ignored once the upload counts as done |
| Upload.ReplyLeaves | main_posix.c:330-377 | if `write` takes all it is given, the ring is empty again at the end of the turn that answers a request |
| Upload.TurnsDrain | main_posix.c:451-515 | the same for every turn of an exchange |
| Upload.SessionDelivers | gcf.c:1007-1107 | for requests in any order with repeats, cut into any pieces, with idle turns anywhere and under any partial writes, once the ring has drained the wire carries exactly the frames of the replies up to the first request that ends the upload |
| Upload.AllAnsweredIff | gcf.c:1091-1097 | every request gets its reply if and only if none but the last ends the upload |
| Upload.ReplyFields | gcf.c:1066-1074 | a reply is 81 84, the status, its request's offset and length and exactly that piece of the image; the status is 1 for a piece outside the image, 2 for more than 480 bytes, 3 for none |
| Upload.DeviceHoldsImage | gcf.c:1007-1107 | a device that unframes the wire and stores the replies holds the image at every position covered by an answered request, and its old bytes elsewhere |
| Upload.LastPieceFirst | gcf.c:1091-1097 | a device that asks for the last byte of a two-byte image first gets it and keeps its old first byte, although it asks for that too |
| PageUpload.TextRead | gcf.c:878-931 | text that completes a page request sends that page; text that does not waits in the buffer |
| PageUpload.RequestUnanswered | gcf.c:938-961 | in ST_V1ProgramValidate text of page requests, in any pieces, is stored and not answered, and never taken for the verdict |
| PageUpload.PagesDelivered | gcf.c:878-961 | for page requests in any order with repeats, cut into any pieces, with idle turns anywhere and under any partial writes, the wire carries exactly the pages asked for up to the first request for the last page, and validation begins exactly with that |
| PageUpload.AllPagesIff | gcf.c:920-925 | every page asked for is sent if and only if no request before the final one is for the last page |
| PageUpload.DeviceHoldsPages | gcf.c:878-961 | a device that stores what arrives at the pages it asked for holds the image on those asked for up to the first request for the last page, and its old bytes elsewhere |
| PageUpload.LastPageFirst | gcf.c:920-925 | a device that asks for the second of two pages first gets it and keeps its old bytes on the first, although it asks for that too |
| RequestText.TextMakesNoPackets | gcf.c:1913-1925 | the receiver makes no packet of the text of page requests below 49152 if its buffer is empty, and none with the bootloader's code if its buffer begins with another byte |
| RequestText.HeavyLeftover | gcf.c:1913-1925 | a buffer that begins with the bootloader's code and is heavy enough becomes a bootloader packet with the request for page 192 |
| RequestText.TextWithoutEnd | gcf.c:1913-1925 | texts of page numbers without the byte 0xC0 make no packets, whatever the buffer holds |
| CooperatingDevice.DeviceProgrammed | gcf.c:403-1149 | for every file that parses and has an image of less than 4 MiB, empty images included, there is a run from the start of the program to the V3 success report after which the device holds the whole image |
| CooperatingDevice.LargestImageStops | gcf.c:1056-1060 | with an image of 4 MiB a request at offset 0 stops the program if and only if it asks for 1 to 480 bytes |
| CooperatingDevice.LastPieceFirstRun | gcf.c:1007-1107 | a run from the start of the program in which the last byte is asked for first and the first never arrives |
| CooperatingPages.AnyOrder | gcf.c:878-961 | whatever pages of the image a device asks for, in whatever order, there is an undisturbed session from the start of a V1 upload in which it does |
| CooperatingPages.PagesProgrammed | gcf.c:403-961 | for every file that parses and has an image there is a run from the start of the program to the V1 success report after which the device holds the whole image |
| CooperatingPages.LastPageFirstRun | gcf.c:878-961 | a run from the start of the program in which the second of two pages is asked for first and the first never arrives |
| Sniffer.CarriesAllIff | gcf.c:1419-1458 | sequence number and length field are in place, and the whole payload is carried if and only if the frame has at most 232 bytes |
| Sniffer.DatagramLayout | gcf.c:1419-1458 | every byte of the header: "EX", version 2, type 1 with channel, number (high byte first) and length from 13 bytes of frame on, type 2 with the number below |
| Sniffer.FrameExtracted | gcf.c:1307-1325 | a full frame is copied out, the buffer compacted and the state back at ST_SniffSyncData in one go |
| Sniffer.FrameBehindFound | gcf.c:1278-1330 | a frame behind any garbage, even inside of what looked like a frame, is sent on by loop events alone, within one more than bytes in front of it, if every marker before it is a false start |
| Sniffer.Progress | gcf.c:1278-1330 | an event without new bytes shrinks the unread window, empties it or leaves it waiting on a partial frame, where it stays |
| Sniffer.LoopsSettle | gcf.c:1708-1724 | loop events alone use up the window, but for a frame whose end is missing, within one event more than there are unread bytes |
| SnifferRuns.DatagramsRelayed | gcf.c:1278-1477 | over every run the datagrams are the logged frames of the received stream, one each, disjoint, in order and numbered consecutively from 0, and the machine never rests in ST_SniffRecvData |
| SnifferRuns.CaptureEndsIff | gcf.c:1327-1341 | a capture has ended if and only if a timeout or the loss of the device has occurred |
| SnifferRuns.NothingAfterEnd | gcf.c:1479-1490 | nothing that comes later is sent on |
| SnifferRuns.ChunkSent | gcf.c:1278-1464 | whole frames in one chunk of at most 510 bytes are all sent on in order by that event and one loop event less than there are frames |
| SnifferRuns.FirstPieceKeptIff | gcf.c:1295-1330 | on an empty buffer the first piece of a frame is kept whole, except that a lone marker is thrown away |
| SnifferCompleteness.CompleteIff | gcf.c:1278-1464 | a stream of whole frames, read in any pieces with loop events anywhere, is sent on frame for frame if and only if no read brings more bytes than the buffer has room for and the machine never looks when it holds just the first byte of a frame; both are told from the lengths of frames and reads alone |
| SnifferCompleteness.AllSent | gcf.c:1419-1458 | the datagrams are then those of all payloads in order, numbered from 0 |
| SnifferCompleteness.SplitFrameSentIff | gcf.c:1278-1464 | a frame in two pieces with any number of loop events between them is sent on if and only if the first piece has more than one byte |
| SnifferMachine.BuildDatagram | gcf.c:1419-1458 | the fields written through a byte stream of 256 bytes are the datagram, cut at the end of the buffer |
| SnifferMachine.Machine.SkipToMarker | gcf.c:1288-1291 | the scan stops at the first marker or the end |
| SnifferMachine.Machine.SyncReceived | gcf.c:1278-1330 | the search for a frame |
| SnifferMachine.Machine.TakePayload | gcf.c:1353-1363 | the copy loop takes the payload and the trailer, or all there is |
| SnifferMachine.Machine.Compact | gcf.c:1366-1373 | the unread bytes move to the front in place and unchanged |
| SnifferMachine.Machine.DataReceived | gcf.c:1343-1464 | one event of ST_SniffRecvData |
| SnifferMachine.Machine.Receive | gcf.c:1866-1921 | received bytes are stored, and the event raised if one was |
| SnifferMachine.Capture | gcf.c:1253-1464 | the object, from the start of a capture through any events, is in the state of the function on values, has sent frames of the stream only, and is not in ST_SniffRecvData |
| FlashDump.RequestsInOrder | gcf.c:1534-1540 | under every sequence of responses the addresses requested are exactly 0x5100 + 32k in order, all below 0x40000, numbered from 1 on, and the address stays aligned and never passes the end |
| FlashDump.NeverStalls | gcf.c:1492-1651 | while the dump runs, an action is due or a timeout is set |
| FlashDump.DumpCompletes | gcf.c:1556-1630 | from any point of any run, good responses end the dump by the test for equality after exactly 7544 requests in all |
| FlashDump.DumpStartsIff | gcf.c:1520-1548 | of all packets, a firmware version whose second byte from the low end is 7, and only that, starts the dump at 0x5100; another version ends the program |
| FlashDump.ResponseTaken | gcf.c:1582-1644 | status 0 and status 9 go on 32 bytes further, any other status ends the program, other packets change nothing |
| FlashDump.SilenceEnds | gcf.c:1549-1651 | a timeout ends the program if and only if one was set and a response is waited for |
| FlashDump.CommandFields | gcf.c:2850-2868 | the 13 bytes of a read command, each in place |
| FlashDumpMachine.BuildReadCommand | gcf.c:2850-2868 | the fields written through a byte stream of 32 bytes are the command |
| FlashDumpMachine.Machine.Action | gcf.c:1556-1570 | EV_ACTION: send the next command, or stop at the end address |
| FlashDumpMachine.Machine.CheckFirmware | gcf.c:1520-1548 | only a device of the right platform starts the dump; missing bytes read as zero |
| FlashDumpMachine.Machine.CheckResponse | gcf.c:1582-1644 | success and unreadable offsets go on to the next address, other states stop |
| FlashDumpMachine.Machine.HandleEvent | gcf.c:1712-1724 | loop events deliver the scheduled action, once |
| FlashDumpMachine.RunDump | gcf.c:1492-1651 | the object, through any events, is in the state of the function on values, has requested the addresses in order and does not stall |

## Left out

- Device enumeration, reset hardware, `termios`, signals and the Windows and DOS platforms: only success or failure of connecting and resetting is modelled.
- Sockets and the UDP client table: a datagram is appended to a list.
- Terminal output, progress, help and debug dumps: they have no effect on the upload.
- Keyboard input and the interactive tasks: a command typed during an upload (gcf.c:1976-2011) sends a frame of its own and is not modelled; the end of the standard input is.
- `PL_Disconnect` behind the main loop (main_posix.c:565): it closes the port when the program ends.
- Floating-point text: outside the upload.
- S-record text of the flash dump, and the data it prints: its checksum field is a placeholder in the source.
- The firmware version taken from the file name, which selects the baud rate and nothing else here.
- Command-line parsing: the task, the device type (as adjusted by the firmware file), the file and the argument of `-t` are values that read the same on every pass; the file may fail to be read on any pass.
- `open` returning descriptor 0, which the source would take for a closed port.
- An endless series of interrupted `write` calls, on which the source would loop: a list of outcomes is finite, and no further outcome reads as an error.
- The wrap of the signed retry counter after 2^31 timeouts.
- EV_PL_LOOP for the tasks "program" and "reset", where no action is ever scheduled; its effect on the sniffer and the flash dump is modelled.
- Bytes on the wire during `PL_MSleep`: it only delays.
- Receiver.RxState.ReceiveFlagged: hands packets back in order instead of calling `PROT_Packet` inside the loop, because no handler touches the receive state.
- GcfMachine.Gcf.ProcessCommandline: takes the result of option parsing as given, for the two tasks modelled.
- Upload.SessionDelivers: images of exactly 4 MiB are excluded, because the source asserts against them when offset 0 is requested; turns that end the exchange (a timeout, a hangup, a poll error, the end of the standard input) are covered by `NoSilentStall` and `RestartsBounded` only.
- Upload.PageAnswered: starts with the page number; the text that carries it is in `PageUpload`.
- PageUpload.PagesDelivered: page numbers outside the image are excluded, since such a request stops the program (Upload.PageAnswered), and so is a receive buffer that already begins with the bootloader's code.
- SnifferCompleteness.CompleteIff: which of the later frames are found again after a loss is not characterised.
- SnifferRuns.DatagramsRelayed: covers one capture, from ST_SniffSyncData to ST_SniffTeardown; configuring the sniffer and starting again are not modelled.
- FlashDumpMachine.Machine.CheckResponse: does not print the line for the data it receives.
- The query for the firmware version that precedes a flash dump: only the read commands are recorded.
- FlashDump.RequestsInOrder: says nothing about the data, since the source does not compare the address of a response with the one it asked for.
