# AEROLINK verification

AEROLINK is a small delivery fleet: a flight controller (a fork of Betaflight), a vehicle node on a Raspberry Pi that talks to it
over a serial line, and a fleet server. This project models the parts of it that carry state and protocols, and proves what they
promise, for all inputs and over whole runs. `dafny verify dfyconfig.toml` checks everything.

The code that changes things in place is written here as classes and loops, each held to a function that says what it does; what
the source promises is proved about those functions and about whole runs of them.

- **Blackbox log** (`Blackbox*.dfy`). The five variable-size encodings, as imperative writers on a byte stream and as functions with
  decoders. `BlackboxFields` is the field table and the state; `BlackboxFrames`, `BlackboxRoundTrip`, `BlackboxMainFrames` and
  `BlackboxReading` are a reader driven by the table alone and its agreement with the frames; `BlackboxWriters` and
  `BlackboxInterWriter` are the two frame writers statement by statement; `BlackboxSchedule` and `BlackboxLogger` are the counters,
  the ring of three states and the running and paused logger, up to the theorem that what is written can be read.
  `BlackboxExceptions`, `BlackboxRunOn` and `BlackboxVoltages` settle exactly where it cannot. `BlackboxHeader` is the resumable
  header printer, `BlackboxAnnouncement` shows that its text tells a reader the very table the log is read by, and `BlackboxTable`
  which fields those are.
- **MAVLink** (`Mav*.dfy`). The CRC-16/MCRF4XX bit trick, streaming SHA-256 cut to 48 bits with its functions and constants
  held to the standard and to the example "abc", the message table, the parser with its 17 states, the packer that trims zeros,
  and both as objects working in place. The parser is proved sound and complete against a
  definition of a complete frame that does not mention it; `MavDetection` says which damage is sure to be noticed and
  how it is reported.
- **AEROLINK UART protocol** (`Uart*.dfy`). The frame codec, the resynchronising stream decoder and the wrapping sequence tracker.
- **Fleet server** (`Fleet*.dfy`). Breadth-first routing, the hash-chained audit log, missions, vehicles, reservations, persistence
  and restart reconciliation as one state machine, and the server as an object that refines it. `FleetEffects` says exactly when
  each operation succeeds and that no mission is ever stuck.
- **Vehicle node** (`Vehicle*.dfy`). Packet validation, the bounded queue, the mission states and the line to the flight controller,
  as a state machine with failures that leave partial effects, and as objects that refine it. `VehicleEffects` says what each
  command of the server leads to.
- **Admission control** (`NodeSecurity.dfy`). The token bucket over real numbers and the nonce cache.
- **Coordinates on the command line** (`CliCoordinates.dfy`). Fixed-point printing and parsing in 32-bit arithmetic.

`Words`, `Octets` and the modules `Arithmetic` and `Outcomes` hold what the others share: 32-bit words, conversions between bytes
and numbers, division facts, and `Option` and `Result`.

## Where the code falls short of its own description

Each of these is proved, with the exact condition under which the promise does hold.

- An I frame writes the first motor even when the configured motor count is zero, while its header announces no motor field. A
  reader is then one byte off (`BlackboxExceptions.MotorlessFrame`, `BlackboxExceptions.IntraExactly`).
- In a P frame the servo group directly follows an optional group of one to seven fields when every field between the two is off.
  A reader takes both for one group (`BlackboxRunOn.ServosLost`, `BlackboxRunOn.InterExactly`).
- The battery voltage of an I frame has 14 bits; larger differences from the reference are read back wrong, in that frame and in
  the P frames up to the next I frame (`BlackboxExceptions.IntraReads`, `BlackboxVoltages.AnyLogReads`).
- The header printer takes a lack of room that no waiting can end for a passing one: it waits for ever on a piece larger than the
  device or the budget can ever hold (`BlackboxHeader.EndsExactly`). The main header needs room for 20 bytes
  (`BlackboxAnnouncement.MainHeaderEndsExactly`).
- The SHA-256 bit count carries only from its low word's overflow, so a single update of 2^29 bytes or more loses count
  (`MavSha256.CarryExactly`).
- The smallest 32-bit number, INT32_MIN, is printed as a coordinate that the parser refuses (`CliCoordinates.PrintedIsParsed`).
- A command packet that meets a full queue uses up its sequence number, so it cannot be sent again
  (`VehicleSafety.DroppedIsNeverApplied`, `VehicleSafety.DropHappens`); with room in the queue it can still be applied
  (`VehicleSafety.KeptExactly`).
- A refused assignment has already replaced the vehicle's mission (`VehicleEffects.AssignExactly`), and a queue in which a command
  fails in each tick keeps the silent line from being noticed (`VehicleEffects.TimeoutExactly`).
- A request stamped exactly 30 ahead can be accepted a second time in the second that begins 60 after the first, since its nonce is
  forgotten when its stamp is still within the window (`NodeSecurity.AcceptedAgainExactly`, `NodeSecurity.AcceptedAgainHappens`).
- Before a node's first key rotation the second key its requests are checked against is the empty one
  (`NodeSecurity.AcceptedUnder`).
- Every mission route passes every node of the building, so the reservations never allow two live missions
  (`FleetHistory.OneLiveMission`, `FleetHistory.CreateExactly`).

## Model

| member | source | states |
|---|---|---|
| BlackboxEncoding.UnsignedVBRoundTrip | flight-controller/src/main/blackbox/blackbox_encoding.c:89-97 | In front of any following bytes a reader of unsigned LEB128 (section 7.6 of DWARF 5) gets every 32-bit value back and leaves exactly those bytes; the encoding has at most 5 bytes |
| BlackboxEncoding.UnsignedVBSize | flight-controller/src/main/blackbox/blackbox_encoding.c:89-97 | The number of bytes is the one the size of the value calls for |
| BlackboxEncoding.SignedVBRoundTrip | flight-controller/src/main/blackbox/blackbox_encoding.c:102-106 | The same for every signed 32-bit value through zigzag |
| BlackboxEncoding.ZigzagIs | flight-controller/src/main/blackbox/blackbox_encoding.c:102-106 | The code of a value is twice it, and that of a negative one twice its magnitude less one |
| BlackboxEncoding.SignedVBSize | flight-controller/src/main/blackbox/blackbox_encoding.c:102-106 | One byte for values from -64 to 63, and one more for each further seven bits |
| BlackboxEncoding.Tag2_3S32RoundTrip | flight-controller/src/main/blackbox/blackbox_encoding.c:131-250 | Every triple of 32-bit values is read back in front of any bytes, whichever of the three packed selectors or, value by value, four byte widths is chosen |
| BlackboxEncoding.Tag2_3S32Size | flight-controller/src/main/blackbox/blackbox_encoding.c:131-250 | One, two or three bytes exactly when all three values fit 2, 4 or 6 signed bits, else one byte and the fewest whole bytes each value fits |
| BlackboxEncoding.Tag8_4S16RoundTrip | flight-controller/src/main/blackbox/blackbox_encoding.c:377-453 | Four values are read back modulo 2^16 in front of any bytes |
| BlackboxEncoding.Tag8_4S16Size | flight-controller/src/main/blackbox/blackbox_encoding.c:377-453 | One byte, and half a byte for each nibble the values take, rounded up: none for zero, one for 4 signed bits, two for 8, else four |
| BlackboxEncoding.UnpackPack | flight-controller/src/main/blackbox/blackbox_encoding.c:377-453 | The nibbles packed high half first, padded with zero, are read back in order |
| BlackboxEncoding.Tag8_8SVBRoundTrip | flight-controller/src/main/blackbox/blackbox_encoding.c:461-491 | Up to eight values, with their count known, are read back in front of any bytes |
| BlackboxStream.LogStream.WriteUnsignedVB | flight-controller/src/main/blackbox/blackbox_encoding.c:89-97 | The loop appends exactly the specified encoding |
| BlackboxStream.LogStream.WriteSignedVB | flight-controller/src/main/blackbox/blackbox_encoding.c:102-106 | The same for signed values |
| BlackboxStream.LogStream.WriteSignedVBArray | flight-controller/src/main/blackbox/blackbox_encoding.c:108-113 | One signed encoding for each of the first `count` values, in order |
| BlackboxStream.LogStream.WriteTag2_3S32 | flight-controller/src/main/blackbox/blackbox_encoding.c:131-250 | The shifting loops over selectors and values append exactly the specified encoding |
| BlackboxStream.LogStream.WriteTag8_4S16 | flight-controller/src/main/blackbox/blackbox_encoding.c:377-453 | The buffer of half-written bytes refines packing the whole nibble stream and padding it |
| BlackboxStream.LogStream.WriteTag8_8SVB | flight-controller/src/main/blackbox/blackbox_encoding.c:461-491 | Header mask and values are exactly the specified encoding, with the single value and empty special cases |
| BlackboxFrames.Corrects | flight-controller/src/main/blackbox/blackbox.c:657-806 | What a writer subtracts, whole or cut to the width of its encoding, a reader that adds its own prediction puts back |
| BlackboxFields.HalfSumExactly | flight-controller/src/main/blackbox/blackbox.c:808-820 | The average prediction is the sum of the two last values halved towards zero, for both signs, and no other number is |
| BlackboxFields.SteadyAverage | flight-controller/src/main/blackbox/blackbox.c:808-820 | A value below 2^30 in magnitude that stays the same, negative or not, is predicted exactly |
| BlackboxFields.SteadyGrowth | flight-controller/src/main/blackbox/blackbox.c:822-846 | A straight-line prediction adds what the field grew by last |
| BlackboxFields.MotorsAnnounced | flight-controller/src/main/blackbox/blackbox.c:487-513 | The table announces as many motors as are configured, at most eight, and none when they are not logged |
| BlackboxRoundTrip.DecodeParts | flight-controller/src/main/blackbox/blackbox.c:194-302 | A table-driven reader that is given only the field table, the condition flags and its own earlier frames recovers every field of a frame written part by part |
| BlackboxMainFrames.OptionalGroup | flight-controller/src/main/blackbox/blackbox.c:890-924 | The optional group of a frame has as many members as there are enabled optional fields, never more than 8 |
| BlackboxReading.LayoutSizes | flight-controller/src/main/blackbox/blackbox.c:822-981 | A frame keeps to group sizes a reader can follow exactly when it is an I frame or the servo group does not run on from the optional group |
| BlackboxReading.IntraRoundTrip | flight-controller/src/main/blackbox/blackbox.c:657-806 | An I frame is read back, every enabled field, whatever the reader knew before and whatever bytes follow |
| BlackboxReading.InterRoundTrip | flight-controller/src/main/blackbox/blackbox.c:822-981 | A P frame is read back from the two frames before it, with the predictors the table declares |
| BlackboxLog.LogRoundTrip | flight-controller/src/main/blackbox/blackbox.c:657-981 | From the bytes of any run of I and P frames that starts with an I frame, a reader of declared predictors recovers every enabled field of every logged state |
| BlackboxVoltages.AnyLogReads | flight-controller/src/main/blackbox/blackbox.c:657-981 | With any battery voltages a log in order is read to its end, every field but the voltage is recovered in every frame, and the voltage of a frame if and only if that of the last I frame fits 14 signed bits |
| BlackboxExceptions.IntraReads | flight-controller/src/main/blackbox/blackbox.c:711 | With any battery voltage the rest of the I frame is still read back, and the voltage is exactly when its difference from the reference fits 14 signed bits |
| BlackboxExceptions.MotorlessFrame | flight-controller/src/main/blackbox/blackbox.c:763-772 | With motors enabled but none configured a whole I frame is read and one byte of it is left over: motor 0 is written though the table does not announce it |
| BlackboxExceptions.IntraExactly | flight-controller/src/main/blackbox/blackbox.c:763-772 | For all states whose voltage fits and all continuations, I frames can be followed by a reader if and only if motors are not enabled with a count of zero |
| BlackboxRunOn.ServosLost | flight-controller/src/main/blackbox/blackbox.c:924-961 | A state whose P frame a reader gets wrong, when the servo group runs on from an unfilled optional group |
| BlackboxRunOn.InterExactly | flight-controller/src/main/blackbox/blackbox.c:822-981 | For all states and histories, P frames can be followed by a reader if and only if the servo group does not run on from the optional group |
| BlackboxWriters.WriteIntraFields | flight-controller/src/main/blackbox/blackbox.c:657-800 | The statements of the I frame writer, with their conditions and groups, write exactly the specified frame body |
| BlackboxInterWriter.WriteInterFields | flight-controller/src/main/blackbox/blackbox.c:822-974 | The same for the P frame writer, straight-line time, previous-value and average predictions included |
| BlackboxInterWriter.WriteUsingAverage | flight-controller/src/main/blackbox/blackbox.c:808-820 | Each value is written as its difference from the average of its two predecessors, halved towards zero as C divides |
| BlackboxLogger.NextSlots | flight-controller/src/main/blackbox/blackbox.c:790-800 | The three slots a step visits differ and return to the first: no state still needed as history is overwritten |
| BlackboxLogger.Logger.constructor | flight-controller/src/main/blackbox/blackbox.c:1083-1121 | A log just started has written nothing and its counters are at zero |
| BlackboxLogger.Logger.WriteIntraframe | flight-controller/src/main/blackbox/blackbox.c:657-806 | The current slot is logged as an I frame, and the ring still holds the last frame in both history places |
| BlackboxLogger.Logger.WriteInterframe | flight-controller/src/main/blackbox/blackbox.c:822-981 | The current slot is logged as a P frame, and the history pointers still point at the last two logged states |
| BlackboxLogger.Logger.ShouldLogIFrame | flight-controller/src/main/blackbox/blackbox.c:1958-1961 | True exactly when n mod I = 0, with n the iterations since the log started |
| BlackboxLogger.Logger.ShouldLogPFrame | flight-controller/src/main/blackbox/blackbox.c:1953-1956 | Where no I frame is due, true exactly when P is not 0 and (n mod I) mod P = 0 |
| BlackboxLogger.Logger.AdvanceIterationTimers | flight-controller/src/main/blackbox/blackbox.c:1984-1997 | The two counters stay n mod I and (n mod I) mod P |
| BlackboxLogger.Logger.LogIteration | flight-controller/src/main/blackbox/blackbox.c:1999-2026 | Exactly the main frame that is due at this iteration is added to the log, or none |
| BlackboxLogger.Logger.Update | flight-controller/src/main/blackbox/blackbox.c:2151-2177 | One RUNNING or PAUSED iteration keeps the whole invariant: state, counters, ring, bytes and schedule belong to the run so far |
| BlackboxLogger.WrittenIsRead | flight-controller/src/main/blackbox/blackbox.c:1953-2177 | End to end: after any sequence of iterations, pauses and resumptions, with voltages that fit where an I frame is due, the bytes written read back as the frames the schedule demands |
| BlackboxVoltages.AnyWrittenReads | flight-controller/src/main/blackbox/blackbox.c:1953-2177 | End to end with any voltages: what the logger wrote is always read, and only voltages can be off |
| BlackboxSchedule.CountersStep | flight-controller/src/main/blackbox/blackbox.c:1984-1997 | Incrementing with wrap is counting modulo I, and modulo P within it, for all I > 0 and all P |
| BlackboxSchedule.RunFollows | flight-controller/src/main/blackbox/blackbox.c:2151-2177 | At every P frame the last main frame lies exactly P iterations back, over any pattern of pauses |
| BlackboxSchedule.ScheduleOk | flight-controller/src/main/blackbox/blackbox.c:1999-2177 | The frames of any run form a log that starts with an I frame and in which each P frame follows its predecessor by P iterations |
| BlackboxSchedule.ResumesWithIntra | flight-controller/src/main/blackbox/blackbox.c:2151-2166 | The first main frame after a start or a resumption is an I frame |
| BlackboxHeader.ProgressPrefix | flight-controller/src/main/blackbox/blackbox.c:1352-1447 | What has been sent at any point of the transmission is a prefix of one fixed header text |
| BlackboxHeader.OutputGrows | flight-controller/src/main/blackbox/blackbox.c:1352-1447 | Output only grows along the transmission, and at its end is the whole text |
| BlackboxHeader.ReserveExactly | flight-controller/src/main/blackbox/blackbox.c:1396-1436 | The space set aside for a field covers it exactly when its number takes at most two characters after a comma, and at most three without one |
| BlackboxHeader.ReserveSuffices | flight-controller/src/main/blackbox/blackbox.c:1396-1436 | With all numbers of at most two digits it covers every field of every line |
| BlackboxHeader.HeaderPrinter.SendFieldDefinition | flight-controller/src/main/blackbox/blackbox.c:1352-1447 | Any call, under any budget, moves exactly as far as heading, fields and line end each find room, extends a prefix of the fixed text, never drives the budget below zero, spends at least what it writes when numbers have at most two digits, and reports the end only when all is out |
| BlackboxHeader.HeaderPrinter.ReplenishHeaderBudget | flight-controller/src/main/blackbox/blackbox_io.c:725-752 | The budget is the least of the free space, the old budget with one portion more and 256, or 8192 on the virtual device |
| BlackboxHeader.HeaderPrinter.SendHeaders | flight-controller/src/main/blackbox/blackbox.c:2089-2101 | One iteration replenishes and sends; when it reports the end the whole text is out |
| BlackboxHeader.TransmissionEnds | flight-controller/src/main/blackbox/blackbox.c:2089-2101 | From any place and with any budget, over any run of iterations: if no heading and no enabled field needs more than some number of bytes, and as often as there are places ahead the device has that much room and grants something for that many iterations on end, the transmission is over, whatever happens in between |
| BlackboxHeader.DrainingChances | flight-controller/src/main/blackbox/blackbox_io.c:725-752 | Where every iteration has that much room, as many iterations as bytes are enough for each place ahead |
| BlackboxHeader.EndedIsRoomy | flight-controller/src/main/blackbox/blackbox_io.c:725-778 | A transmission that ended had no heading and no enabled field larger than the most room any of its iterations gave |
| BlackboxHeader.EndsExactly | flight-controller/src/main/blackbox/blackbox.c:2089-2101 | On a device whose free space stays the same the transmission ends if and only if every heading and enabled field fits the free space and the 256 bytes that can accumulate (8192 on the virtual device) |
| BlackboxAnnouncement.MainHeaderFits | flight-controller/src/main/blackbox/blackbox.c:194-302 | The header of the main frames has numbers of at most two digits and names of at most 14 characters, for every configuration |
| BlackboxAnnouncement.MainHeaderEnds | flight-controller/src/main/blackbox/blackbox.c:2089-2101 | For every configuration the main header is over after draining often enough with room for 20 bytes |
| BlackboxAnnouncement.MainHeaderEndsExactly | flight-controller/src/main/blackbox/blackbox.c:2089-2101 | On a device whose free space stays the same, the main header is sent to its end if and only if there is room for 20 bytes |
| BlackboxAnnouncement.HeaderAnnouncesTable | flight-controller/src/main/blackbox/blackbox.c:194-302 | Reading the transmitted header text alone, its names, predictors and encodings, gives exactly the fields, in order, that the log reader decodes I frames and P frames by |
| BlackboxTable.LoggedExactly | flight-controller/src/main/blackbox/blackbox.c:487-596 | A field is in the frames, and so in the header, if and only if the configuration asks for it: its group is enabled, its sensor or term is there, and there are enough motors |
| BlackboxTable.SignedExactly | flight-controller/src/main/blackbox/blackbox.c:194-302 | A field is announced as signed if and only if an I frame writes it without prediction in the signed form |
| BlackboxTable.FramesAreAnnounced | flight-controller/src/main/blackbox/blackbox.c:657-661 | The marker a frame begins with is the character under which the header announces its fields |
| MavCrc.TrickIsBitwise | flight-controller/lib/main/MAVLink/checksum.h:35-44 | The shift-and-xor trick equals eight steps of the bitwise CRC-16/MCRF4XX on every byte and every accumulator |
| MavCrc.CheckValue | flight-controller/lib/main/MAVLink/checksum.h:18-76 | The CRC of the digits 123456789 is 0x6F91, the check value of CRC-16/MCRF4XX |
| MavCrc.OwnBytesGiveZero | flight-controller/lib/main/MAVLink/checksum.h:35-76 | A message followed by its own CRC, low byte first, has CRC zero |
| MavCrc.BurstDetected | flight-controller/lib/main/MAVLink/checksum.h:35-76 | Two messages that differ in at most two adjacent bytes never have the same CRC, wherever the difference lies |
| MavCrc.AccumulateBuffer | flight-controller/lib/main/MAVLink/checksum.h:85-91 | The loop over a buffer gives the CRC of exactly its first `length` bytes from `start` |
| MavCrc.Calculate | flight-controller/lib/main/MAVLink/checksum.h:65-76 | The same from the initial value |
| MavSha256.CarryExactly | flight-controller/lib/main/MAVLink/mavlink_sha256.h:152-160 | The two-word bit count stays right after an update if and only if the update is shorter than 2^29 bytes |
| MavSha256.PaddingFits | flight-controller/lib/main/MAVLink/mavlink_sha256.h:192-216 | The padding the code computes is the fewest zero bytes of section 5.1.1 of FIPS 180-4, ends on a block boundary and fits 72 bytes |
| MavSha256.DigestIsUnique | flight-controller/lib/main/MAVLink/mavlink_sha256.h:192-221 | The specification leaves one digest for a message |
| MavSha256Standard.ChooseBits | flight-controller/lib/main/MAVLink/mavlink_sha256.h:62 | Where the first word has ones the second is taken, where it has zeros the third (section 4.1.2 of FIPS 180-4) |
| MavSha256Standard.MajorityBits | flight-controller/lib/main/MAVLink/mavlink_sha256.h:63 | Each bit is the one at least two of the three words have |
| MavSha256Standard.SigmaBits | flight-controller/lib/main/MAVLink/mavlink_sha256.h:65-70 | Each bit of the four sums is the parity of the bits at the places the standard names |
| MavSha256Standard.ConstantsAre | flight-controller/lib/main/MAVLink/mavlink_sha256.h:72-89 | Constant t is the first 32 bits of the fraction of the cube root of the t-th prime; the primes named are all the first 64 (section 4.2.2) |
| MavSha256Standard.InitialWordsAre | flight-controller/lib/main/MAVLink/mavlink_sha256.h:91-103 | The initial words are the same of the square roots of the first eight primes (section 5.3.3) |
| MavSha256Example.AbcDigest | flight-controller/lib/main/MAVLink/mavlink_sha256.h:91-221 | The first 48 bits of the digest of "abc" are ba7816bf8f01 |
| MavSha256.Context.Init | flight-controller/lib/main/MAVLink/mavlink_sha256.h:91-103 | The context stands for the empty message |
| MavSha256.Context.Calc | flight-controller/lib/main/MAVLink/mavlink_sha256.h:105-150 | The rolled-up schedule and rounds compute the compression of section 6.2.2 of FIPS 180-4 for the block |
| MavSha256.Context.Update | flight-controller/lib/main/MAVLink/mavlink_sha256.h:152-190 | The context then stands for the message with these bytes added, in any split; the size stays right exactly for updates below 2^29 bytes |
| MavSha256.Context.Final48 | flight-controller/lib/main/MAVLink/mavlink_sha256.h:192-221 | The first 48 bits of SHA-256 of everything added since init |
| MavMessages.GetMsgEntry | flight-controller/lib/main/MAVLink/mavlink_helpers.h:517-543 | Bisection on a sorted table finds what a search of the whole table finds, also when the id is below or above all entries |
| MavMessages.LookupFinds | flight-controller/lib/main/MAVLink/mavlink_helpers.h:517-543 | In a sorted table every entry is found under its id |
| MavMessages.LookupMisses | flight-controller/lib/main/MAVLink/mavlink_helpers.h:517-543 | An id no entry has is not found |
| MavParser.AnyByte | flight-controller/lib/main/MAVLink/mavlink_helpers.h:589-877 | Whatever the parser has taken since a frame began, the next byte leaves it tracking exactly those bytes, or delivers exactly when they are a complete frame |
| MavStream.OnlyCompleteFrames | flight-controller/lib/main/MAVLink/mavlink_helpers.h:589-877 | From any byte stream OK is reported only when the bytes since the marker are a complete v1 or v2 frame of a known message with a matching CRC, they are the last bytes received, and the message delivered is their parse |
| MavStream.IndexInBounds | flight-controller/lib/main/MAVLink/mavlink_helpers.h:733-737 | While payload is stored the index is within the length and the payload buffer |
| MavStream.EveryFrameRead | flight-controller/lib/main/MAVLink/mavlink_helpers.h:589-877 | Every complete frame fed to an idle parser gives INCOMPLETE on each byte but the last and OK on the last |
| MavStream.FramesRead | flight-controller/lib/main/MAVLink/mavlink_helpers.h:589-877 | Any concatenation of complete frames is delivered frame by frame, nothing lost and nothing added |
| MavDetection.FrameShape | flight-controller/lib/main/MAVLink/mavlink_helpers.h:589-877 | A complete frame begins with 0xFE or 0xFD, has no flag set but that of a signature, and has the length its second byte and that flag give |
| MavDetection.OtherDialect | flight-controller/lib/main/MAVLink/mavlink_helpers.h:742-774 | A frame is refused by a receiver whose table has another extra byte for its type |
| MavDetection.DamageDetected | flight-controller/lib/main/MAVLink/mavlink_helpers.h:733-774 | A complete frame whose payload is changed within two adjacent bytes is complete no more |
| MavDetection.FramedRead | flight-controller/lib/main/MAVLink/mavlink_helpers.h:742-877 | Bytes framed as a frame, fed to a parser at rest, keep it busy up to the last one, which reports OK if they are a complete frame and BAD_CRC if not, then with the checksum that stood on the line |
| MavDetection.DamageReported | flight-controller/lib/main/MAVLink/mavlink_helpers.h:733-877 | A complete frame whose payload is changed within two adjacent bytes is reported as BAD_CRC at its last byte |
| MavSender.TrimTwice | flight-controller/lib/main/MAVLink/mavlink_helpers.h:110-116 | Trimming what has been trimmed changes nothing |
| MavSender.SentIsComplete | flight-controller/lib/main/MAVLink/mavlink_helpers.h:222-289 | What the sender puts together is a complete frame, for both protocol versions |
| MavSender.SentIsReceived | flight-controller/lib/main/MAVLink/mavlink_helpers.h:446-487 | The message parsed from a sent frame has its header fields, its checksum and its payload, filled with zeros to the longest length |
| MavSender.TrimAndFill | flight-controller/lib/main/MAVLink/mavlink_helpers.h:222-289 | A message finalized, serialized and fed byte by byte is OK on its last byte only, and is delivered with every header field, the checksum and the original payload: trimming and zero filling undo each other |
| MavBuffers.MessageBuffer.TrimPayload | flight-controller/lib/main/MAVLink/mavlink_helpers.h:110-116 | The loop finds the last byte that is not zero, and keeps at least one byte |
| MavBuffers.MessageBuffer.Finalize | flight-controller/lib/main/MAVLink/mavlink_helpers.h:222-289 | Header, trimmed length and CRC bytes are those of the frame specified, the payload before them is untouched, and the next sequence number is one higher |
| MavBuffers.MessageBuffer.ToSendBuffer | flight-controller/lib/main/MAVLink/mavlink_helpers.h:446-487 | The buffer holds header, trimmed payload and checksum, and the length returned is theirs |
| MavBuffers.Pack | flight-controller/lib/main/MAVLink/mavlink_helpers.h:222-487 | Finalizing and serializing give exactly the frame the receiving theorems are about |
| MavBuffers.Receiver.FrameChar | flight-controller/lib/main/MAVLink/mavlink_helpers.h:589-877 | The in-place parser does exactly the specified step on every byte, and stays within its buffers |
| UartFrame.DecodeEncode | raspberry-pi/src/aerolink_pi/protocol.py:66-112 | Every valid frame is decoded from its encoding by its own vehicle, and refused by another |
| UartFrame.EncodeDecode | raspberry-pi/src/aerolink_pi/protocol.py:75-98 | Bytes that decode are the encoding of the frame they decode to: no second form is accepted |
| UartFrame.DecodesExactly | raspberry-pi/src/aerolink_pi/protocol.py:66-112 | Bytes decode if and only if they are the encoding of some frame for this vehicle |
| UartFrame.EncodesExactly | raspberry-pi/src/aerolink_pi/protocol.py:101-111 | Exactly frames of version 1 with a vehicle from 0 to 15, 16-bit formation, 32-bit sequence and time and at most 512 bytes of payload are encoded |
| UartFrame.DecodedShape | raspberry-pi/src/aerolink_pi/protocol.py:75-98 | Bytes that decode begin with AL and 1, have from 21 to 533 bytes, and end in the checksum of the rest |
| UartFrame.WrongCrc | raspberry-pi/src/aerolink_pi/protocol.py:75-98 | The bytes of a frame with any other checksum are refused for it |
| UartFrame.RefusedExactly | raspberry-pi/src/aerolink_pi/protocol.py:75-98 | Bytes decode if and only if they are marked, of version 1, as long as they say, with their own checksum, one of the ten types and this vehicle; each refusal has its reason |
| UartFrame.EncodedLayout | raspberry-pi/src/aerolink_pi/protocol.py:66-73 | Each field of a frame stands in its place in the bytes, numbers with their low byte first |
| UartFrame.NumbersAre | raspberry-pi/src/aerolink_pi/protocol.py:18-28 | The types of both sides are numbered from 1, the commands from 16 and the reports from 32, in their order |
| UartStream.RoundShortens | raspberry-pi/src/aerolink_pi/protocol.py:150-173 | Each round of the decoder that does not stop shortens the buffer |
| UartStream.ResidualIsShort | raspberry-pi/src/aerolink_pi/protocol.py:146-175 | What stays buffered is always shorter than the longest frame, so the final trim never fires |
| UartStream.ScanInTwo | raspberry-pi/src/aerolink_pi/protocol.py:146-175 | Scanning two pieces, the second behind what the first left, equals scanning them together |
| UartStream.ChunksDoNotMatter | raspberry-pi/src/aerolink_pi/protocol.py:146-175 | Any split of a stream into chunks gives the same frames, rejections and residual as one feed |
| UartStream.CleanStream | raspberry-pi/src/aerolink_pi/protocol.py:146-175 | A stream of frames for this vehicle gives exactly those frames, with no rejection and nothing left over |
| UartStream.TooLongIsRejected | raspberry-pi/src/aerolink_pi/protocol.py:160-164 | A header that announces more than 512 bytes is rejected for its length, and the scan goes on one byte later |
| UartStream.DamagedIsRejected | raspberry-pi/src/aerolink_pi/protocol.py:165-173 | A frame with another checksum is rejected for that, and the scan goes on one byte later |
| UartStream.NoiseHidesNothing | raspberry-pi/src/aerolink_pi/protocol.py:146-175 | A valid frame at position p with at least MAX_FRAME bytes from p is emitted unless p lies strictly inside another emitted frame, whatever comes before it |
| UartStream.EmissionsAreFrames | raspberry-pi/src/aerolink_pi/protocol.py:146-175 | The positions of that statement belong to exactly the frames the decoder returns, in order |
| UartStream.StreamDecoder.Feed | raspberry-pi/src/aerolink_pi/protocol.py:146-175 | The loop over the buffer returns what the scan of buffer and chunk gives and keeps its residual |
| UartSequence.DecideExactly | raspberry-pi/src/aerolink_pi/protocol.py:120-128 | The same number is a duplicate, one that is behind by at most 2^31 is reordered, and any other is accepted |
| UartSequence.LiftCongruent | raspberry-pi/src/aerolink_pi/protocol.py:120-128 | The unbounded counter behind accepted numbers agrees with them modulo 2^32 |
| UartSequence.LiftIncreases | raspberry-pi/src/aerolink_pi/protocol.py:120-128 | That counter strictly increases with every number accepted (the comparison of section 3.2 of RFC 1982, SERIAL_BITS = 32) |
| UartSequence.ReplayRejected | raspberry-pi/src/aerolink_pi/protocol.py:120-128 | A number accepted before is rejected now if and only if the counter has advanced since by at most 2^31, taken modulo 2^32 |
| UartSequence.OfTypeMore | raspberry-pi/src/aerolink_pi/protocol.py:120-128 | A number of one message type changes the history of no other type |
| UartSequence.SequenceTracker.Accept | raspberry-pi/src/aerolink_pi/protocol.py:120-128 | The tracker decides by the last number accepted of that type, and records exactly the accepted ones |
| UartSequence.SequenceTracker.Reset | raspberry-pi/src/aerolink_pi/protocol.py:130-131 | Everything is forgotten |
| FleetGraph.Route | server/src/aerolink_server/core.py:47-54 | On every finite graph and for every order of neighbours: a shortest walk from start to end, and none if and only if the end cannot be reached |
| FleetGraph.JoinedRoutesAreValid | server/src/aerolink_server/core.py:55-57 | A walk from a known node joined with one from its end passes validation |
| FleetGraph.WalksAreValid | server/src/aerolink_server/core.py:55-57 | Validation accepts exactly the walks whose first node is in the edge table |
| FleetGraph.MissionRouteIs | server/src/aerolink_server/core.py:142-143 | In the building of the server the three legs have one shortest route each, and joined they are valid: the "invalid route" branch is never taken |
| FleetAudit.AppendedVerifies | server/src/aerolink_server/core.py:25-28 | A log that verifies still does after any entry is appended |
| FleetAudit.ChainedTo | server/src/aerolink_server/core.py:24-44 | The first entry of a log that verifies is chained to 64 zeros, and each later one to the hash of the body before it |
| FleetAudit.SameHashSameLog | server/src/aerolink_server/core.py:38-44 | With an injective hash two logs that verify and end in the same hash are the same log, their lengths included, if and only if both or neither are empty, and always if no entry has the hash the empty log starts from |
| FleetAudit.ReplayAppended | server/src/aerolink_server/core.py:25-28 | Replaying a longer log applies the last event to the replay of the rest |
| FleetAudit.AuditLog.Append | server/src/aerolink_server/core.py:25-28 | The entry carries its index, the hash before it and its own; repository and memory stay equal |
| FleetAudit.AuditLog.LoadFrom | server/src/aerolink_server/core.py:29-30 | The stored log comes back with its last hash |
| FleetAudit.AuditLog.Verify | server/src/aerolink_server/core.py:38-44 | True if and only if every entry has its index, its predecessor's hash and its own hash |
| FleetInvariant.NoConflict | server/src/aerolink_server/core.py:144-145 | Every route passes the same nodes, so a corridor conflict arises exactly while some mission is live |
| FleetInvariant.EndedOwnership | server/src/aerolink_server/core.py:153-166 | Ending a mission frees its vehicles and nodes and leaves every other mission all it owns |
| FleetInvariant.CreatedOwnership | server/src/aerolink_server/core.py:139-152 | The new mission owns its vehicles and its whole route under a number never used, and takes nothing from others |
| FleetInvariant.ReconciliationIsReplayed | server/src/aerolink_server/core.py:104-113 | In whatever order the repository lists missions, the restart entries verify and replay to the reconciled states |
| FleetInvariant.RestartedIsIdle | server/src/aerolink_server/core.py:82-116 | After a restart no vehicle is on a mission, nothing is reserved and no mission is live |
| FleetInvariant.RestartKeeps | server/src/aerolink_server/core.py:82-116 | A restart keeps ownership, the equality of memory and repository, and the audit log's agreement |
| FleetEffects.RestartExactly | server/src/aerolink_server/core.py:82-116 | A restart leaves a requested abort of every mission that had not ended, frees every vehicle, available if healthy and else offline, forgets the reservations and changes nothing else |
| FleetRuns.StepKeeps | server/src/aerolink_server/core.py:117-189 | Every operation, failing or not, keeps all three |
| FleetRuns.EveryRun | server/src/aerolink_server/core.py:82-189 | In every state reachable by any operations and restarts: a set mission names a live mission that lists the vehicle, live missions own exactly their vehicles and route nodes, memory equals repository, the audit log verifies and replays to the ids and states of the mission table |
| FleetHistory.RunIsLater | server/src/aerolink_server/core.py:82-189 | Over any run no mission is lost or changed but in state, states only move forward, new missions have numbers above every earlier one, and the audit log only grows |
| FleetHistory.InterruptedEndsAborted | server/src/aerolink_server/core.py:104-113 | A mission still active at a restart is, in every later state, ABORT_REQUESTED or ABORTED |
| FleetHistory.StaleConfirmTakesNothing | server/src/aerolink_server/core.py:153-166 | Confirming the abort of a mission from before the restart changes no vehicle and no reservation, in memory or saved |
| FleetHistory.OneLiveMission | server/src/aerolink_server/core.py:144-147 | Two live missions are one: every route starts at HOME |
| FleetHistory.CreateExactly | server/src/aerolink_server/core.py:139-152 | Creation succeeds if and only if the count is 1 to 15, that many vehicles are healthy and available, and no mission is live |
| FleetEffects.CreateEffect | server/src/aerolink_server/core.py:139-152 | The new mission is planned, unauthorized, with the first eligible vehicles, which are assigned to it; every other vehicle and mission stays as it is |
| FleetEffects.AuthorizeExactly | server/src/aerolink_server/core.py:167-170 | In every state with the invariant, authorization succeeds if and only if the operator is named and the mission planned; it becomes authorized and nothing else changes |
| FleetEffects.RequestAbortExactly | server/src/aerolink_server/core.py:171-174 | An abort can be requested if and only if the operator is named and the mission planned or authorized; its vehicles and nodes stay its own |
| FleetEffects.ConfirmAbortExactly | server/src/aerolink_server/core.py:175-178 | An abort can be confirmed if and only if the operator is named and the abort was requested; then no vehicle and no node belongs to the mission |
| FleetEffects.CompleteExactly | server/src/aerolink_server/core.py:179-181 | A mission can be completed if and only if it is authorized; then no vehicle and no node belongs to it |
| FleetEffects.AbortAlways | server/src/aerolink_server/core.py:171-178 | From every state of every run, each mission that has not ended is brought to ABORTED by at most two operations |
| FleetEffects.CompleteAlways | server/src/aerolink_server/core.py:167-181 | From every state of every run, each planned mission is authorized and completed by two operations |
| FleetEffects.StateAfterTelemetry | server/src/aerolink_server/core.py:117-123 | Telemetry is taken over, and the state follows from health, battery and mission |
| FleetEffects.StateAfterUpdate | server/src/aerolink_server/core.py:182-189 | A node update takes over session and health, and the state follows from health and mission |
| FleetEffects.EligibleAfterTelemetry | server/src/aerolink_server/core.py:117-123 | After telemetry a vehicle can be chosen if and only if it is healthy, has at least 30 percent, has no mission and is not in maintenance |
| FleetEffects.EligibleAfterUpdate | server/src/aerolink_server/core.py:182-189 | After a node update, if and only if it is online, has no mission and is not in maintenance |
| FleetEffects.EligibleAfterEnd | server/src/aerolink_server/core.py:153-166 | When a mission ends, each vehicle it held can be chosen if and only if it is healthy |
| FleetEffects.StartsEmpty | server/src/aerolink_server/core.py:67-77 | A server started on nothing has fifteen vehicles, offline, free and not eligible, and no mission |
| FleetEffects.MaintenanceExactly | server/src/aerolink_server/core.py:124-133 | Maintenance begins if and only if the operator is named and the vehicle known and free, and ends in OFFLINE |
| FleetHistory.HeldUntilTheEnd | server/src/aerolink_server/core.py:117-189 | No operation but the end of its mission or a restart takes a vehicle from its mission |
| FleetHistory.CompletedWasAuthorized | server/src/aerolink_server/core.py:167-181 | In every run a mission that is authorized or completed has an authorization by a named operator in the audit log |
| FleetServer.Server.constructor | server/src/aerolink_server/core.py:66-116 | Starting on what any earlier server left gives exactly the reconciled state |
| FleetServer.Server.TakeTelemetry | server/src/aerolink_server/core.py:117-123 | The method has exactly the effect of its operation, and on an error none; the invariant holds after it |
| FleetServer.Server.TakeNodeUpdate | server/src/aerolink_server/core.py:182-189 | The same for node updates |
| FleetServer.Server.StartMaintenance | server/src/aerolink_server/core.py:124-129 | The same for maintenance, refused for a vehicle on a mission |
| FleetServer.Server.EndMaintenance | server/src/aerolink_server/core.py:130-133 | The same for the end of maintenance |
| FleetServer.Server.Choose | server/src/aerolink_server/core.py:134-138 | The first available, healthy vehicles in ascending order, as many as asked for |
| FleetOperations.EligibleAre | server/src/aerolink_server/core.py:134-138 | The vehicles chosen from are exactly the available healthy ones |
| FleetOperations.EligibleAscend | server/src/aerolink_server/core.py:134-138 | They are listed in ascending order, so the source's sorting changes nothing and none is listed twice |
| FleetServer.Server.PlanRoute | server/src/aerolink_server/core.py:142-143 | The three searches joined give the mission route, and it validates |
| FleetServer.Server.CreateMission | server/src/aerolink_server/core.py:139-152 | Exactly the effect of creation with its errors in their order; the invariant holds after it |
| FleetServer.Server.Release | server/src/aerolink_server/core.py:153-166 | Exactly the mission's reservations go, and exactly the listed vehicles that still point to it become free |
| FleetServer.Server.Transition | server/src/aerolink_server/core.py:63-65 | The state moves exactly along the allowed transitions |
| FleetServer.Server.AuthorizeMission | server/src/aerolink_server/core.py:167-170 | Exactly the effect of authorization; the invariant holds after it |
| FleetServer.Server.RequestAbortOf | server/src/aerolink_server/core.py:171-174 | The same for an abort request |
| FleetServer.Server.ConfirmAbortOf | server/src/aerolink_server/core.py:175-178 | The same for its confirmation, which releases the mission |
| FleetServer.Server.CompleteMission | server/src/aerolink_server/core.py:179-181 | The same for completion |
| VehicleSafety.AcceptedIsNewer | raspberry-pi/src/aerolink_pi/fleet.py:35-44 | An accepted packet is signed for this vehicle by its server, within its life of at most a second, and lexicographically newer than all accepted before |
| VehicleEffects.AcceptExactly | raspberry-pi/src/aerolink_pi/fleet.py:35-44 | A packet is accepted if and only if it has version 1, this sender and vehicle, a known kind, a life of 1 to 1000, at most 4096 bytes, the right signature, is in time and newer than all before |
| VehicleSafety.AppliedInOrder | raspberry-pi/src/aerolink_pi/service.py:36-51 | In every run each packet applied was accepted, and packets are applied in strictly ascending (epoch, sequence): none twice, through rejections, full queues, reconnects and failed commands |
| VehicleSafety.DroppedIsNeverApplied | raspberry-pi/src/aerolink_pi/service.py:36-39 | A packet that found the queue full is lost for good: no later packet with its number is ever applied |
| VehicleSafety.KeptExactly | raspberry-pi/src/aerolink_pi/service.py:36-39 | An accepted packet can still come to be applied if and only if the queue was not full when it came |
| VehicleSafety.QueuedIsApplied | raspberry-pi/src/aerolink_pi/service.py:40-51 | Ticks alone work off the queue: after some run of nothing but ticks whatever is queued is applied |
| VehicleSafety.DropHappens | raspberry-pi/src/aerolink_pi/service.py:36-39 | For every queue limit there is a run from a new node to a packet that is accepted and lost |
| VehicleEffects.MovesExactly | raspberry-pi/src/aerolink_pi/service.py:14 | The moves are one on along the mission from IDLE back to IDLE, to ABORT from between start and landing, from there to LAND or FAULT, and from FAULT to IDLE |
| VehicleEffects.PlanIsFlown | raspberry-pi/src/aerolink_pi/service.py:40-44 | Commands that follow the mission from any place in it, one after the other in the queue, are all carried out and lead to its later states |
| VehicleEffects.AssignExactly | raspberry-pi/src/aerolink_pi/service.py:43 | An assignment succeeds if and only if the vehicle is at rest; refused elsewhere, it has replaced the mission all the same |
| VehicleSafety.AbortsAreObeyed | raspberry-pi/src/aerolink_pi/service.py:45 | In every run the marks tell what was applied and the state, and each ABORT packet applied put the vehicle into ABORT before anything else happened |
| VehicleEffects.AbortAtOnce | raspberry-pi/src/aerolink_pi/service.py:45 | A tick that takes an ABORT packet applies it without failing, and the vehicle enters ABORT at once |
| VehicleEffects.AbortLast | raspberry-pi/src/aerolink_pi/service.py:45 | When an ABORT packet is the last of a queue that is worked off, the vehicle is in ABORT |
| VehicleSafety.NoSteeringAfterAbort | raspberry-pi/src/aerolink_pi/service.py:40-51 | In every run, after an ABORT packet was taken, or ABORT entered otherwise, no setpoint goes out except in LAND until the vehicle entered IDLE and then AUTHORIZED |
| VehicleEffects.TimeoutExactly | raspberry-pi/src/aerolink_pi/service.py:50 | A tick gives the line up if and only if no queued command fails in it and nothing was heard for more than 300 ms; the vehicle is then in ABORT |
| VehicleEffects.SilenceAborts | raspberry-pi/src/aerolink_pi/service.py:40-50 | Whatever happens short of a connection, by the first tick that succeeds more than 300 ms after the flight controller was last heard the vehicle has entered ABORT |
| VehicleSafety.LineIsOrdered | raspberry-pi/src/aerolink_pi/service.py:27-49 | In every run frames reach the flight controller with strictly ascending numbers, for its vehicle, and setpoints only under the session it has |
| VehicleSafety.ReceivedAsSent | raspberry-pi/src/aerolink_pi/service.py:60-67 | The bytes on the line lose nothing: the frame received is the frame sent |
| VehicleSafety.ConnectAgrees | raspberry-pi/src/aerolink_pi/service.py:27-35 | A connection agrees on a session that is new and not zero, empties the queue and uses one number |
| VehicleSafety.SteeringArrives | raspberry-pi/src/aerolink_pi/service.py:45-49 | A setpoint arrives if and only if its values are in bounds, the line is up, both ends have the same session and its numbers fit a frame |
| VehicleEffects.SteeringDelivers | raspberry-pi/src/aerolink_pi/service.py:45-49 | A setpoint that goes through is the last frame at the flight controller, which reads session, roll, pitch, yaw rate, vertical rate and validity of at most 100 ms, each from its place |
| VehicleEffects.SetpointReadsBack | raspberry-pi/src/aerolink_pi/protocol.py:189-195 | Every value put into a setpoint is read back from its place, negative ones included |
| VehicleEffects.OutOfRangeExactly | raspberry-pi/src/aerolink_pi/protocol.py:189-195 | A setpoint is refused for its values if and only if roll or pitch is beyond 3000, the yaw rate beyond 18000, the vertical rate beyond 300 or its life is not positive |
| VehicleEffects.GreetingArrives | raspberry-pi/src/aerolink_pi/service.py:27-35 | A connection leaves the flight controller with one frame, its greeting by role, version 1 and the new session |
| VehicleEffects.SteeredExactlyIn | raspberry-pi/src/aerolink_pi/service.py:47 | A setpoint packet steers in LAUNCH, FORM, the two transits, RETURN and LAND, and is refused in every other state |
| VehicleNode.Read8Pack8 | raspberry-pi/src/aerolink_pi/service.py:64 | The session nonce is read back from its eight bytes |
| VehicleService.FleetValidator.Check | raspberry-pi/src/aerolink_pi/fleet.py:35-44 | The checks in their order; a refused packet changes nothing |
| VehicleService.FakeFc.Receive | raspberry-pi/src/aerolink_pi/service.py:60-67 | Exactly the specified reception; on an error nothing changes |
| VehicleService.Service.ReceiveServer | raspberry-pi/src/aerolink_pi/service.py:36-39 | Exactly the specified effect, the number being used up even when the queue is full; the run invariants hold after it |
| VehicleService.Service.DoTick | raspberry-pi/src/aerolink_pi/service.py:40-51 | The queue is worked off up to the first failure, which leaves the rest queued; then the line timeout; the run invariants hold after it |
| VehicleService.Service.ConnectFc | raspberry-pi/src/aerolink_pi/service.py:27-35 | Exactly the specified effect, also when no session is found or the line is down; the run invariants hold after it |
| VehicleService.Service.TransitionTo | raspberry-pi/src/aerolink_pi/service.py:52-54 | The state moves exactly along the allowed transitions |
| NodeSecurity.WindowBoundEver | server/src/aerolink_server/security.py:64-67 | For each node, over any window of length d in any run, at most burst + rate * d requests pass the limiter, those that fail later checks included |
| NodeSecurity.StepTakes | server/src/aerolink_server/security.py:64-67 | A request that passes costs its node exactly one token, and no other step changes any node's tokens |
| NodeSecurity.LevelGrows | server/src/aerolink_server/security.py:65 | Between two readings of the clock a node gains no more than the rate gives and never exceeds the burst |
| NodeSecurity.Recovers | server/src/aerolink_server/security.py:65 | With room for one token, a node is let through again once the rate has given one back |
| NodeSecurity.ReplayExactly | server/src/aerolink_server/security.py:68-72 | A request past the limiter is called a replay if and only if it has no nonce or the node used it within the last 60 |
| NodeSecurity.NoNonceTwiceEver | server/src/aerolink_server/security.py:68-72 | In every run no node has a nonce accepted twice within 60, whatever keys are rotated |
| NodeSecurity.AcceptedInTime | server/src/aerolink_server/security.py:57-72 | An accepted request has at most 16384 bytes, the expected node, a nonce, and a timestamp within 30 of the wall clock |
| NodeSecurity.AcceptedTwice | server/src/aerolink_server/security.py:61-72 | In every run a request is accepted twice only with at least 60 between on the clock and at most 60 on the wall |
| NodeSecurity.AcceptedTwiceWhen | server/src/aerolink_server/security.py:61-72 | If the wall clock goes with the clock, read in whole seconds, only a request stamped exactly 30 ahead is accepted twice, from 60 to less than 61 later |
| NodeSecurity.AcceptedAgainExactly | server/src/aerolink_server/security.py:61-72 | Sent again, a request last accepted under its nonce, still signed and within the limit, is accepted if and only if 60 have passed, the wall reads 60 more and its stamp was exactly 30 ahead |
| NodeSecurity.AcceptedAgainHappens | server/src/aerolink_server/security.py:61-72 | For every signed request there is a run in which it is accepted a second time |
| NodeSecurity.KeysAre | server/src/aerolink_server/security.py:47-49 | In every run a node has the last key rotated in, and as previous key the one before it, if there was one |
| NodeSecurity.AcceptedUnder | server/src/aerolink_server/security.py:70 | In any run, a request past the limiter that is no replay is accepted if and only if it is signed under its newest key or the one before it, in whose place the empty key stands before the first rotation |
| NodeSecurity.SecurityContext.VerifyNode | server/src/aerolink_server/security.py:57-72 | Exactly the specified refusals in their order, with the token taken and expired nonces dropped even when a later check fails |
| NodeSecurity.SecurityContext.RotateNodeKey | server/src/aerolink_server/security.py:47-49 | The old key becomes the previous one; short keys and unknown nodes change nothing |
| CliCoordinates.SplitExactly | flight-controller/src/main/cli/cli.c:2588-2652 | The texts accepted are those of the grammar (sign, digits, optional point and digits), each split in one way only |
| CliCoordinates.MagnitudeIsTruncated | flight-controller/src/main/cli/cli.c:2588-2652 | The magnitude is the decimal value written, in ten-millionths, without what is less than one of them, for any number of decimals |
| CliCoordinates.ParseDecimalCoordinate | flight-controller/src/main/cli/cli.c:2588-2679 | A text is accepted if and only if it is a number of the grammar whose value, truncated to 7 decimals, has a magnitude of at most INT32_MAX, and that value is returned; no intermediate result leaves 32 bits |
| CliCoordinates.FormatDecimalCoordinate | flight-controller/src/main/cli/cli.c:2682-2701 | The text printed for every 32-bit number, its smallest included, without overflow |
| CliCoordinates.PrintedIsParsed | flight-controller/src/main/cli/cli.c:2588-2701 | Parsing what was printed gives the number back if and only if it is not INT32_MIN, whose text is refused |
| CliCoordinates.PrintedShape | flight-controller/src/main/cli/cli.c:2681-2701 | A coordinate is printed with a minus sign if and only if it is negative, with no zeros in front, with seven decimals, and as the number it is |

## Left out

- Blackbox slow, GPS, home and event frames, and the event bytes of a resumption: they carry no prediction, and the reader is given the main frames only.
- Blackbox sensor reading, system-information header lines, the log devices and the states before RUNNING and after PAUSED: input and output.
- blackboxWriteTag2_3SVariable: the frame writers do not use it, and no round trip holds on its whole range.
- Servos and the first motor in I frames are relative to configured constants, which are taken as whole numbers; the conversion from floating point is not modelled.
- BlackboxHeader.TransmissionEnds: the free space and the bytes granted in each iteration are given, not derived from the driver that empties the buffer.
- BlackboxHeader.ReserveSuffices: for numbers of at most two digits only, because the space set aside is a constant; `BlackboxHeader.ReserveExactly` says this is the exact bound for a field after a comma, and three characters the bound without one.
- BlackboxLog.LogRoundTrip: for configurations without the two faults above and I frames whose voltage has 14 bits; `BlackboxVoltages.AnyLogReads` covers all voltages, and outside of those configurations `BlackboxExceptions` and `BlackboxRunOn` show that it fails.
- Text formatting: `%d` and `%07d` are the usual decimal forms; tfp_sprintf and zigzagEncode are not part of this model beyond their standard meaning.
- MAVLink signing keys, signature checks, statistics counters, forwarding of untrimmed frames, bit fields and float conversions. A frame with the signed flag is parsed to its end, its signature bytes included.
- MavSender.TrimAndFill: for messages the table knows with lengths it allows, since others are rejected by the parser; unsigned only.
- The high and low parts of a message id are sums of bytes rather than shifts.
- CRC-32, HMAC and the audit hash are arbitrary functions; only `FleetAudit.SameHashSameLog` assumes that the hash is injective.
- Audit texts: the JSON text that is hashed is represented by the record it is the text of, and entries no other code reads back keep only kind, vehicle and a text.
- The server without a repository, crashes in the middle of an operation, SQLite, HTTP, the lock (operations are atomic steps), AI advice beyond its audit entry, and metrics.
- Vehicle telemetry that no operation reads (latency, packet age, faults, capacity) and malformed node updates.
- Vehicles and missions are values in the server's tables, so the aliasing of a mission object handed to a caller is not captured.
- FleetGraph.Route: neighbours are visited in any order with the same members, of which the sorted order is one.
- A restart takes place between operations, on a repository that an earlier server left.
- Operator sessions, key loading, response signing and redaction: single-step checks that would only add easy members.
- Clocks and random numbers are parameters; the node's event texts are reduced to the states entered and the setpoints sent.
- Packet payloads are reduced to the fields a command uses, each absent when missing or malformed.
- CLI text: a string is the content of a C string, without its terminator.
- PickupController, CMS, dashboards, simulators and device drivers.
