# Verification of cc2obp

cc2obp carries group voice calls between CC-CC links and OpenBridge peers. This
project models its core in Dafny and proves what that core is for:

- **The DMR coding layer** (`Bits`, `Hamming`, `Bptc`, `GaloisField`, `ReedSolomon`,
  `LinkControl`, `EmbeddedLc`, `Golay`, `Ambe`, `CcccAmbe`). The source builds its
  codewords by in-place bit insertion, table interleaves, a shift register over
  GF(256), a Golay divider and a self-inverse scrambler. Each of those loops is a method
  proved equal to a specification function, and the coding theorems (product code,
  zeros of the generator, minimum distances, round trips) are proved about the functions.
  The supporting theory is in `Distance`, `ParityCheck`, `ProductCode` and
  `EmbeddedDistance`.
- **The call translator** (`Burst`, `BurstLayout`, `DmrdBody`, `CallModel`, `Translator`). `CallModel`
  says what each event does to one link; the class `CallTranslator` updates the link
  table and the per-peer counters in place and does exactly that. `CallTheorems`,
  `CallRuns`, `CallTraces`, `CallNumbers` and `CallClock` prove what every run sends on
  both sides; `CallHistory`, `CallCauses` and `CallProvenance` tie every request to the
  event it was made at, and back; `CallOnAir` tells which OpenBridge calls come of what the
  CC-CC side does, and `CallRelay` puts two bridges in a row. A request to either side is
  an entry of a trace.
- **The OpenBridge link** (`ObpLink`): stamping and signing a body, and the checks at the
  far end.
- **The link multiplexer** (`MuxModel`, `MuxTheorems`, `MuxRuns`, `MuxDiary`,
  `MuxClock`, `MuxChannel`, `LinkMux`), **its line channel and signalling text** (`Text`, `LineChannel`,
  `Signalling`), and **the configured link table** (`LinkTable`).
- **The bridge as a whole** (`Bridge`): the multiplexer tells the translator what it
  hears, from the bytes of a CC-CC socket to the frames on OpenBridge.
- **Streaming SHA-1 and HMAC** (`Sha1`, `Sha1Example`) and **the timer list** (`Timers`).

What a value must be is told by value: the polynomial of each code, the place of every bit
on air, sync patterns, flags, offsets, timeouts and text fields stand in the theorems as
numbers, and what a run depends on is told from its events and from what was sent.

Distances are Hamming distances (`Distance.Dist`): the number of positions where two
sequences of equal length differ. Bits are `bv1` values, most significant bit first.

Two places where the text and the code of the repository part ways, and the model
follows the code:

- The embedded-LC table sends buffer bit 24 twice and bit 25 never; these are bits 19
  and 20 of the LC. The fragments are the whole matrix, whose distance is 8, if and only
  if the two bits agree (`EmbeddedDistance.WholeMatrixOnAir`), as they do in every LC the
  translator sends (`Burst.CallFragmentsDistance`). For LCs at large the distance on air
  is 7, and `EmbeddedDistance.EmbeddedLcDistance` says exactly for which pairs;
  `EmbeddedDistance.SevenApart` names some.
- A B-on line prints its LID with at least two digits and reads exactly two characters
  back. `Signalling.DispatchPrinted` gives the exact condition: the meaning of a B-on
  arrives unchanged if and only if its LID is from -9 to 99.

## Model

| member | source | states |
|---|---|---|
| Bits.BytesToBitsInto | dmr/dmr_bits.c:4-9 | the bits of the bytes are written over the output from the given place on, nothing else changes |
| Bits.BitsToBytesOf | dmr/dmr_bits.c:11-18 | OR-ing bits into zeroed bytes packs them, a missing tail read as zeros |
| Bits.BitsRoundTrip | dmr/dmr_bits.c:4-18 | packing and unpacking a whole number of bytes of bits gives the same bits |
| Bits.BytesRoundTrip | dmr/dmr_bits.c:4-18 | unpacking and packing bytes gives the same bytes |
| Bits.BitsByShift | dmr/dmr_bits.c:4-9 | bit 8 i + b is bit 7 - b of byte i, counted from the least significant |
| Hamming.Ham15113InCode | dmr/hamming.c:4-10 | data followed by its parity meets all four checks of the (15,11) code |
| Hamming.Ham1393InCode | dmr/hamming.c:12-18 | data followed by its parity meets all four checks of the (13,9) code |
| Hamming.Ham16114InCode | dmr/hamming.c:20-27 | data followed by its parity meets all five checks of the (16,11) code |
| Hamming.H15Separates | dmr/hamming.c:4-10 | every column of the (15,11) check matrix is non-zero and no two are equal |
| Hamming.H13Separates | dmr/hamming.c:12-18 | the same for the (13,9) check matrix |
| Hamming.H16Separates | dmr/hamming.c:20-27 | the same for the (16,11) check matrix |
| Hamming.H16OddColumns | dmr/hamming.c:20-27 | every column of the (16,11) check matrix has odd weight |
| Hamming.H15IsCyclic | dmr/hamming.c:4-10 | the (15,11) check matrix lists the powers of x modulo x^4 + x + 1 |
| Hamming.H13IsShortened | dmr/hamming.c:12-18 | the (13,9) check matrix is its last thirteen columns |
| Hamming.H16IsExtended | dmr/hamming.c:20-27 | the (16,11) check matrix is that of the (15,11) code and a row that makes its columns odd |
| ParityCheck.DistanceThree | dmr/hamming.c:4-18 | two different words of a code with separating checks differ in three places, which it names |
| ParityCheck.DistanceFour | dmr/hamming.c:20-27 | with odd columns besides, they differ in four |
| Bptc.BitInsert | dmr/bptc.c:37-43 | the shifting loop inserts one bit and moves the rest up by one |
| Bptc.BptcEncode19696 | dmr/bptc.c:45-81 | insertion, padding and column parity in place build the specified 196-bit matrix |
| ProductCode.EncodeIsProductCodeword | dmr/bptc.c:45-81 | all 13 rows of the matrix are (15,11) codewords and all 15 columns (13,9) codewords, the checks on checks included |
| ProductCode.EncodeDistance | dmr/bptc.c:45-81 | two different 12-byte inputs are encoded at least 9 positions apart |
| LinkControl.Index181Formula | dmr/bptc.c:11-23 | entry i of the interleaver table is 181 i modulo 196 |
| LinkControl.Interleave19696 | dmr/bptc.c:83-87 | the loop computes the interleaving |
| LinkControl.InterleaveKeepsDistance | dmr/bptc.c:83-87 | interleaving neither adds nor removes differences |
| LinkControl.BptcEncodeLc | dmr/bptc.c:89-97 | parity, product code and interleaving in sequence |
| LinkControl.DecodeLcIdxFormula | dmr/bptc.c:26-34 | every pick index is the interleaved place of the matrix cell that holds that LC bit |
| LinkControl.BptcDecodeFullLc | dmr/bptc.c:99-105 | the loop picks and packs the 72 bits |
| LinkControl.LcRoundTrip | dmr/bptc.c:89-105 | decoding inverts encoding for every 9-byte LC, header and terminator |
| LinkControl.EncodeLcDistance | dmr/bptc.c:89-97 | two different LCs of the same frame kind are at least 9 positions apart |
| LinkControl.DataCellHolds | dmr/bptc.c:45-81 | behind the first cell, bit i of the twelve bytes stands in row (i + 3) / 11 and column (i + 3) mod 11 of the matrix |
| LinkControl.ReservedCells | dmr/bptc.c:45-66 | the cells without data are zero |
| LinkControl.BitOnAir | dmr/bptc.c:83-97 | where on air bit i of LC and parity is sent |
| GaloisField.ExpStep | dmr/rs129.c:8-60 | each entry of the exponential table is twice the one before it, modulo x^8+x^4+x^3+x^2+1 |
| GaloisField.LogMultIsMul | dmr/rs129.c:62-67 | the table product is the carry-less product reduced by the field polynomial |
| GaloisField.LogMultAssociates | dmr/rs129.c:62-67 | the table product is associative |
| GaloisField.LogMultAddRight | dmr/rs129.c:62-67 | it distributes over XOR |
| GaloisField.NoZeroDivisors | dmr/rs129.c:62-67 | it is zero only when a factor is |
| ReedSolomon.Rs129Encode | dmr/rs129.c:69-82 | the register loop computes the specified parity, highest byte first |
| ReedSolomon.Rs129LcEncode | dmr/rs129.c:84-91 | the parity with the mask of the frame kind |
| ReedSolomon.RegisterIsRemainder | dmr/rs129.c:69-82 | at every zero of the generator the register takes the value of the message times the cube |
| ReedSolomon.CodewordVanishes | dmr/rs129.c:69-82 | message and parity, as a polynomial, vanish at 2, 4 and 8 |
| ReedSolomon.VanishingDistance | dmr/rs129.c:69-82 | two different 12-byte words that vanish there differ in at least 4 bytes |
| ReedSolomon.LcDistance | dmr/rs129.c:84-91 | two different LCs with parity under the same mask differ in at least 4 of 12 bytes |
| ReedSolomon.UnmaskedVanishes | dmr/rs129.c:84-91 | with 0x96, for a terminator 0x99, taken off its last three bytes the word vanishes at 2, 4 and 8 |
| EmbeddedLc.DmrCsum5 | dmr/crc.c:8-14 | the accumulator loop gives the byte sum modulo 31 |
| EmbeddedLc.EmblcIdxFormula | dmr/bptc.c:109-118 | the segment table reads the matrix column by column, save one entry that reads bit 24 again |
| EmbeddedLc.EncodeEmblc | dmr/bptc.c:120-159 | the checksum, row and column insertions and the segment picks compute the four specified fragments |
| EmbeddedDistance.MatrixIsCodeword | dmr/bptc.c:136-150 | every row of the matrix meets the (16,11) checks and every column has even weight |
| EmbeddedDistance.OnAirByColumns | dmr/bptc.c:152-158 | what is sent is the matrix read by columns with one position overwritten |
| EmbeddedDistance.TwiceAndNever | dmr/bptc.c:109-118 | buffer bits 24 and 25, the one sent twice and the one never sent, are bits 19 and 20 of the LC |
| EmbeddedDistance.WholeMatrixOnAir | dmr/bptc.c:120-159 | the fragments are the whole matrix if and only if LC bits 19 and 20 agree |
| EmbeddedDistance.OnAirDistance | dmr/bptc.c:120-159 | the distance on air is that of the matrices, less one if bit 20 differs, plus one if bit 19 does |
| EmbeddedDistance.EmbeddedLcDistance | dmr/bptc.c:120-159 | two different LCs give fragment sets at least 7 of 128 positions apart, exactly 7 if and only if the matrices are 8 apart, bit 20 differs and bit 19 does not |
| EmbeddedDistance.WholeMatrixDistance | dmr/bptc.c:120-159 | two different LCs whose bits 19 and 20 agree are at least 8 apart on air |
| EmbeddedDistance.SevenApart | dmr/bptc.c:109-118 | a family of pairs of LCs that are 7 apart on air |
| EmbeddedDistance.FragmentsDetermineLc | dmr/bptc.c:120-159 | equal fragments come from equal LCs |
| EmbeddedDistance.EmbeddedCell | dmr/bptc.c:128-135 | where in the matrix bit k of the LC stands |
| EmbeddedDistance.ChecksumCells | dmr/crc.c:8-14 | the last places of rows 2 to 6 are the byte sum modulo 31, most significant bit on top |
| Golay.Golay2312 | dmr/golay.c:5-16 | the divider loop computes the specified word |
| Golay.DivisionEquation | dmr/golay.c:10-14 | dividend equals quotient times polynomial plus remainder shifted by the steps taken, over GF(2) |
| Golay.EncodeIsCodeword | dmr/golay.c:5-16 | the result is a GF(2) multiple of 0xAE3 of at most 23 bits whose low 12 bits are the data |
| Golay.CodewordUnique | dmr/golay.c:5-16 | it is the only codeword with those data |
| Golay.EncodeXor | dmr/golay.c:5-16 | the encoder is linear |
| Golay.ParityXor | dmr/golay.c:18-27 | the folded parity is linear |
| Golay.ExtendedIsHeavy | dmr/golay.c:5-27 | with the parity bit every non-zero codeword has at least eight one bits |
| Golay.ExtendedDistance | dmr/golay.c:5-27 | data that differ in their low 12 bits are encoded at least 8 bits apart |
| Ambe.Tables | dmr/ambe.c:10-25 | the four schedule tables address the flattened frame as a block interleave by four |
| Ambe.DemodulateInPlace | dmr/ambe.c:28-44 | C1 is XORed with the congruential sequence that C0 seeds, all else stays; what the sequence is, is the next row |
| Ambe.ScramblerFlips | dmr/ambe.c:28-44 | with s the number in the first 12 bits, bit n of C1 is flipped if and only if (173^n * 16 s + 13849 * (173^n - 1) / 172) mod 65536 is at least 32768, for n from 1 to 23; C0, C2 and C3 stay |
| Ambe.FramesFrom49 | dmr/ambe.c:47-72 | the matrix holds the two Golay words and the raw bits, each row from its highest column down |
| Ambe.EccExtract49 | dmr/ambe.c:75-82 | the 49 data bits are read back from the matrix |
| Ambe.AmbeEncode49To72 | dmr/ambe.c:84-95 | frame, scrambler and interleave in sequence |
| Ambe.AmbeDecode72To49 | dmr/ambe.c:97-110 | deinterleave, scrambler and extraction in sequence |
| Ambe.DemodulateInvolution | dmr/ambe.c:28-44 | scrambling twice changes nothing |
| Ambe.AmbeRoundTrip | dmr/ambe.c:84-110 | 49 bits to 72 and back is the identity, for every frame |
| Ambe.DataOnAir | dmr/ambe.c:84-95 | the place on air of each of the 49 data bits, sent as it is or flipped by the sequence of the first twelve |
| Ambe.DataFromAir | dmr/ambe.c:97-110 | each data bit is read from that place, in valid and damaged frames alike |
| Ambe.ReencodeIsProjection | dmr/ambe.c:84-110 | 72 bits to 49 and back leave a frame unchanged if and only if its C0 is a Golay codeword with correct parity and its descrambled C1 a Golay codeword |
| Ambe.AmbeDistance | dmr/ambe.c:52-58 | frames that differ in their first 12 bits are at least 8 bits apart on air |
| Ambe.AmbeSecondDistance | dmr/ambe.c:28-72 | frames that agree in their first 12 bits share the scrambler sequence, and those that then differ in the next 12 are at least 7 bits apart on air |
| CcccAmbe.PermIsLane | cccc/cccc_ambe.c:22-26 | the permutation is a column read of the 18/18/13 grid, with an inverse |
| CcccAmbe.Pack21 | cccc/cccc_ambe.c:28-37 | three frames fill 21 bytes, one bit in every seventh byte |
| CcccAmbe.Unpack21 | cccc/cccc_ambe.c:39-48 | the permuted writes rebuild the three frames |
| CcccAmbe.UnpackPack | cccc/cccc_ambe.c:28-48 | unpacking inverts packing for all frames |
| CcccAmbe.PackUnpack | cccc/cccc_ambe.c:28-48 | packing what was unpacked clears the 21 pad bits and nothing else |
| CcccAmbe.FrameBitAt | cccc/cccc_ambe.c:22-37 | the byte and bit that hold bit b of frame i |
| Burst.BuildHeadTermPayload | translate.c:106-117 | the copies assemble the 264 bits of a header or terminator burst |
| Burst.HeadTermCentre | translate.c:110-114 | data sync stands in the centre between the halves of the slot type |
| BurstLayout.HeadTermLayout | translate.c:106-117 | the outer halves are the LC codeword, the centre is the data sync DFF5 7D75 DF5D |
| BurstLayout.HeadTermSlotType | dmr/dmr_const.c:26-30 | the slot type is a (20,8) Golay codeword that says colour code 1 and data type 1 for a header, 2 for a terminator |
| Burst.HeadAndTermCarryTheCall | translate.c:106-117 | both bursts decode to zero options and the low 24 bits of talkgroup and source |
| BurstLayout.CallLcLayout | translate.c:376-381 | the LC is three zero bytes, then talkgroup and source, most significant byte first |
| Burst.BuildEmbed | translate.c:121-129 | sync at position 0, a fragment behind its EMB header at 1 to 4, a null fragment at 5 |
| BurstLayout.VoiceSyncWords | dmr/dmr_const.c:5-9 | position 0 carries the voice sync 755F D7DF 75F7 |
| BurstLayout.EmbHeaders | dmr/dmr_const.c:17-24 | positions 1 to 5 carry a quadratic-residue codeword that says colour code 1, no privacy and first, middle, last or no fragment |
| BurstLayout.EmbedCentre | translate.c:121-129 | between its halves stands the fragment of the position, at 5 zeros |
| Burst.BuildVoicePayload | translate.c:402-419 | unpacking, 49-to-72 conversion and assembly of a voice burst |
| BurstLayout.VoiceLayout | translate.c:410-416 | first frame, half of the second, centre, other half, third frame |
| Burst.ExtractAmbe | translate.c:132-143 | the three frames of a received burst |
| Burst.VoiceTransparency | translate.c:132-143 | for every payload and position, assembling a burst and extracting it again returns the payload with only its pad bits cleared |
| Burst.CentreCarriesEmbed | translate.c:413-418 | whatever the audio, the centre of the burst carries the embed bits |
| Burst.CallFragmentsDistance | translate.c:378-381 | the fragments of a call's LC are its whole matrix, and those of two different calls are at least 8 positions apart |
| Burst.SuperframeDeterminesLc | translate.c:121-129 | the bursts at positions 1 to 4 determine the LC |
| DmrdBody.BuildBody | translate.c:154-164 | every field of the 53-byte body is at its offset, cut to its width |
| DmrdBody.ParseBody | translate.c:303-308 | a receiver reads back every field the sender wrote |
| DmrdBody.BodyLayout | openbridge/obp_const.h:11-22 | the body byte by byte: the letters DMRD, then number, source, talkgroup, repeater, flags, stream and payload, most significant byte first |
| Translator.CallTranslator.ObpGateOpen | translate.c:84-101 | open exactly when the link is cross-connected to an enabled peer; a closed gate is noted once |
| Translator.CallTranslator.SendDmrdFrame | translate.c:147-167 | one frame to the link's peer with the next number, nothing without a peer |
| Translator.CallTranslator.EndObpOriginCall | translate.c:185-194 | a B-off with the slots used, for an obp-origin call only |
| Translator.CallTranslator.EndCcOriginCall | translate.c:196-204 | a TERM, for a cc-origin call only |
| Translator.CallTranslator.HandleObpVoiceHead | translate.c:208-249 | duplicate, orphaned, contending and fresh HEAD |
| Translator.CallTranslator.HandleObpVoiceBurst | translate.c:251-283 | voice of the active stream, with sequence and timestamp from the wall-clock slot that CallProvenance.SlotByClock tells |
| Translator.CallTranslator.HandleObpVoiceTerm | translate.c:285-299 | ends the call of the same stream only |
| Translator.CallTranslator.DmrdReceived | translate.c:301-340 | classification by the bits that CallProvenance.KindsByBits tells, first-match routing, gate and handler for a received body |
| Translator.CallTranslator.CcccBon | translate.c:344-386 | starts a cc-origin call with a HEAD unless disabled, gated or contended |
| Translator.CallTranslator.CcccVoice | translate.c:388-424 | one burst at the next position for a cc-origin call that is cross-connected |
| Translator.CallTranslator.CcccBoff | translate.c:426-430 | ends a cc-origin call |
| Translator.CallTranslator.CcccLinkUp | translate.c:432-436 | clears the drop note |
| Translator.CallTranslator.CcccLinkDown | translate.c:438-449 | a TERM for a cc-origin call, and no call is left |
| Translator.CallTranslator.Tick | translate.c:472-485 | visits every link and ends its idle call |
| Translator.CallTranslator.Reload | config.c:331-353 | a reload changes the toggles and sends nothing |
| CallTheorems.LinkStepKeeps | translate.c:185-485 | every event on a link appends only what may follow the last request, and its call record still agrees with the last request |
| CallRuns.CallsAreBracketed | translate.c:185-485 | over any sequence of events, reloads included, the trace of every link is a prefix of whole calls, HEAD burst* TERM or B-on voice* (B-off or link loss) |
| CallTraces.EveryFrameHasItsCall | translate.c:388-424 | every frame belongs to a call its HEAD opened, the n-th burst at position n mod 6 with its flags and embed, all with the same stream, source and talkgroup |
| CallTraces.OnlyFramesUntilTerm | translate.c:196-204 | between a HEAD and its TERM the link sends only that call's frames |
| CallTraces.FlagsOnAir | translate.c:421-422 | the flags of the n-th frame of a call: 0x21, then 0x10 and 1 to 5 over and over, then 0x22 |
| CallTraces.OneTermPerHead | translate.c:196-204 | as many TERMs as HEADs, one fewer while a call is open |
| CallTraces.SuperframeOnAir | translate.c:409-411 | four bursts in a row at positions 1 to 4 carry the LC that encodes the call's own talkgroup and source |
| CallTraces.SuperframeTellsTheCall | translate.c:409-411 | equal superframes, of whatever links and runs, come from the same talkgroup and source |
| CallTraces.HeadersDecode | translate.c:169-181 | every HEAD and TERM sent decodes to its own header's talkgroup and source |
| CallTraces.EveryRequestHasItsCall | translate.c:185-194 | voice belongs to a B-on and is marked exactly when first; a B-off tells the last slot plus one, or 0 without voice |
| CallTraces.OnlyVoiceUntilBoff | translate.c:251-283 | from a B-on until a B-off or link loss only that call's voice is sent |
| CallTraces.RtpConsistent | translate.c:274-282 | less than 65536 slots apart in one call, the timestamp difference modulo 2^32 is 480 times the sequence difference modulo 2^16 |
| CallNumbers.FramesAreNumbered | translate.c:156-156 | over any run the k-th frame handed to a peer carries k mod 256, however the links that share it interleave |
| CallClock.TickEndsIdleCalls | translate.c:472-485 | after a tick in any reachable state no call has been idle for more than five seconds |
| CallClock.EveryEndedCallHasOneTerm | translate.c:185-204 | over any run every HEAD has had one TERM save that of the cc-origin call still up; an obp-origin call is up exactly when the last request was a B-on or voice |
| CallClock.SlotsFollowTheClock | translate.c:274-280 | with a clock that never goes back, the slots of a call are non-negative and never go back |
| CallClock.RtpFollowsTheClock | translate.c:274-282 | over any run with such a clock, packets of a call less than 65536 slots apart have timestamps that differ modulo 2^32 by 480 times the sequence difference modulo 2^16 |
| CallHistory.LogIsTrace | translate.c:185-485 | the dated log of a link holds exactly its trace |
| CallCauses.LinkStepAnswers | translate.c:185-485 | what a link sends at an event is explained by that event and the requests before, and the event gets audio, an opening or a closing request exactly when those and the toggles call for it |
| CallProvenance.EveryEventIsAnswered | translate.c:185-485 | the same at every event of every run, told from the log alone, with the gate open exactly for a cross-connected link to an enabled peer; a link the event does not concern sends nothing |
| CallProvenance.EveryRequestHasItsCause | translate.c:185-485 | in every run each request of a link is explained by the event it was made at |
| CallProvenance.VoiceIsOfItsStream | translate.c:251-299 | in every run the voice of a call toward CC-CC is the audio of bursts of the stream whose HEAD opened it, in their wall-clock slots; its B-off comes of that stream's TERM, another stream's HEAD or five idle seconds |
| CallProvenance.BurstCarriesItsPacket | translate.c:344-449 | in every run the n-th burst of a call toward OpenBridge is built from the voice packet it was sent at, at position n mod 6 and with the LC of the B-on; its TERM comes of the B-off, link loss or five idle seconds |
| CallProvenance.AudioInOrder | translate.c:251-283 | audio requests follow the order of the events that brought them, one each |
| CallProvenance.NoAudioIsLost | translate.c:251-424 | the events whose audio is to be relayed, by the log and the toggles, are exactly those behind audio requests |
| CallProvenance.AudioBetween | translate.c:388-424 | within a call the n-th audio request carries the n-th frame or packet to be relayed since its opening |
| CallProvenance.ObpCallHoldsTheLink | translate.c:218-226 | in every run, while a call toward CC-CC is up other streams change nothing, save a HEAD let in, which sends B-off then B-on; a B-on from the cc side changes nothing |
| CallProvenance.CcCallHoldsTheLink | translate.c:227-231 | in every run, while a call toward OpenBridge is up no frame from there and no second B-on is relayed or changes it |
| CallProvenance.KindsByBits | translate.c:310-332 | a frame is ignored if and only if bit 6, or bits 5, 1 and 0, of its flags are set; of the others HEAD and TERM are frame type 2 with data type 1 and 2, and all else is a burst |
| CallProvenance.OutOfScopeIsDropped | translate.c:310-311 | a frame with those bits set leaves the state of the translator as it is and sends nothing |
| CallProvenance.RequestsByBits | translate.c:301-340 | in every run no request comes of such a frame; a B-on comes of a HEAD, a B-off of a HEAD or TERM, voice of neither, told by the bits |
| CallProvenance.SlotByClock | translate.c:275-277 | with the clock at or after the start, the slot is k if and only if the clock is less than 0.03 s after and at most 0.03 s before start + 0.06 k; for a clock that went back the truncated value |
| CallProvenance.VoiceIsOnTheClock | translate.c:271-282 | in every run a voice request carries slot k if and only if its frame was read in that slot after the HEAD, and then sequence number k mod 65536 and timestamp 480 k mod 2^32 |
| CallProvenance.DropsAreNoted | translate.c:84-101 | at every event of every run a drop is noted, or the note cleared, as the event and the toggles say |
| CallOnAir.CallsGoOnAir | translate.c:344-449 | in any run that hinders it in none of the named ways, what the cc side does on a silent link goes out as exactly the calls it makes: each B-on out of a call a HEAD, each packet in a call its next burst, each B-off in a call a TERM, header, position and payload told |
| ObpLink.ObpSendDmrd | openbridge/obp_link.c:112-140 | the network id is written over the source peer in place unless that is preserved, and the digest appended |
| ObpLink.OnObpReadable | openbridge/obp_link.c:37-81 | a datagram passes if and only if length, tag, address, digest and slot are right |
| ObpLink.CtEq | openbridge/obp_link.c:28-33 | OR-ing the differences of all bytes decides equality |
| ObpLink.PassesIff | openbridge/obp_link.c:37-81 | what passes is a body tagged DMRD with bit 7 of its flags clear, followed by its HMAC, from the right address, and nothing else |
| ObpLink.StampedFields | openbridge/obp_link.c:120-133 | stamping changes the repeater field and no other |
| ObpLink.StampLayout | openbridge/obp_link.c:120-133 | the network id stands in bytes 11 to 14, most significant first, and the rest stays |
| ObpLink.PacketArrives | openbridge/obp_link.c:37-140 | a frame signed at one end passes the other, with the same passphrase, if and only if it is not on slot 2, and is read as it was sent but for the stamp |
| ObpLink.FramesAreOnSlotOne | openbridge/obp_link.c:72-79 | no frame of any trace is on slot 2 |
| CallRelay.PacketIsDelivered | openbridge/obp_link.c:120-133 | what a bridge makes of its frames on the way out, by default or with the source peer preserved, is a delivery as the next row takes it |
| CallRelay.CallCrossesTheBridge | translate.c:301-424 | in any run of another bridge, when the frames of a call reach an idle link there, in order from the HEAD on and with any number and repeater field, the link's log grows by exactly the call: B-on with its source and the repeater of the HEAD that arrived, one marked first voice, audio intact save pad bits, B-off for the TERM. Link and gate are open to these frames; meanwhile other links, reloads, ticks in time, cc-side signals and voice on the link (a B-on only during the call) and frames of other streams but a HEAD are allowed |
| Text.ScanPadded | cccc/cccc_link.c:146-156 | a number printed with any zero padding is scanned back whole |
| Text.HexRoundTrip | cccc/cccc_link.c:124-133 | a 32-bit number printed in hexadecimal is scanned back |
| Text.ScanForm | cccc/cccc_link.c:166-189 | space, a sign or none, and digits are read up to the first other character |
| Text.ScanNothing | cccc/cccc_link.c:188-189 | without a digit behind space and sign there is no number |
| Text.NumberByPlace | cccc/cccc_link.c:166-182 | a decimal number is the sum of its digits times powers of ten |
| Text.HexByPlace | cccc/cccc_link.c:124-133 | a hexadecimal number is the sum of its digits, in either case, times powers of sixteen |
| Text.PrintedIsRead | cccc/cccc_link.c:166-182 | what a printed number is read as: congruent modulo 2^32 and in 32-bit range, by strtoul all ones beyond 64 bits |
| LineChannel.LineBuffer.FeedBytes | cccc/cccc_link.c:110-122 | the byte loop leaves the specified buffer and completes the specified lines, full buffers included |
| LineChannel.ChunksDoNotMatter | cccc/cccc_link.c:110-122 | how the stream is cut into chunks changes neither lines nor buffer |
| LineChannel.LinesArrive | cccc/cccc_link.c:110-122 | lines sent one after the other arrive as they were sent |
| LineChannel.FeedCrLf | cccc/cccc_link.c:115-117 | one carriage return before the newline is dropped, whatever else the line holds |
| LineChannel.FeedOverlong | cccc/cccc_link.c:113-119 | a line of 2047 characters or more is delivered cut to its first 2046, less a carriage return there, and the lines after it are not affected |
| Signalling.ParseBonTail | cccc/cccc_link.c:169-182 | the trimming loop and the fixed-width fields of a B-on |
| Signalling.BonRoundTrip | cccc/cccc_link.c:146-183 | radio, peer and type always come back; the LID if and only if it is from -9 to 99, and then the talkgroup |
| Signalling.BoffRoundTrip | cccc/cccc_link.c:153-192 | lost and total come back for all 32-bit values |
| Signalling.TrailingIgnored | cccc/cccc_link.c:170-172 | blanks and line ends behind the call type do not matter |
| Signalling.AnyBon | cccc/cccc_link.c:160-183 | any line of three words of at most 63, 31 and 31 characters with Bee=B01 behind them is a B-on with these words as radio and peer |
| Signalling.BonHeadFields | cccc/cccc_link.c:146-151 | a B-on begins with B01, two digits of LID, three of the user and a space |
| Signalling.BonLabels | cccc/cccc_link.c:146-151 | behind radioid= and peerid= it names radio and peer again |
| Signalling.BonTailFields | cccc/cccc_link.c:146-151 | it ends with two digits of LID, three of the talkgroup and the call type |
| Signalling.BoffFields | cccc/cccc_link.c:153-156 | a B-off begins with B, two digits of LID and five zeros, and its RSSI= is followed by the RSSI |
| Signalling.DispatchPrinted | cccc/cccc_link.c:369-392 | a printed line is dispatched as what it means if and only if a B-on's LID is from -9 to 99 |
| Signalling.ChannelRoundTrip | cccc/cccc_link.c:110-192 | any sequence of signals, printed and split into arbitrary chunks, arrives line by line and is dispatched as exactly what it means if and only if every B-on's LID is from -9 to 99 |
| LinkMux.CcccMux.FindLinkBySsrc | cccc/cccc_link.c:87-93 | the first link that holds the source |
| LinkMux.CcccMux.MintSyncSource | cccc/cccc_link.c:97-103 | a drawn value that no link holds |
| LinkMux.CcccMux.TeardownLinkConnection | cccc/cccc_link.c:276-303 | down, without keepalive, source and buffered bytes; a notice if it was up; a reconnect if outbound and active |
| LinkMux.CcccMux.ReconnectCb | cccc/cccc_link.c:305-311 | the timer is spent and an active link tries again |
| LinkMux.CcccMux.StartOutboundConnect | cccc/cccc_link.c:461-479 | connecting with an empty buffer, or a reconnect when no socket could be had |
| LinkMux.CcccMux.OnConnectWritable | cccc/cccc_link.c:428-459 | shaking hands with a fresh source and a Question, or down with a reconnect |
| LinkMux.CcccMux.FinishOutboundHandshake | cccc/cccc_link.c:349-367 | up and armed when codec and frame length agree, else torn down |
| LinkMux.CcccMux.LinkOnLine | cccc/cccc_link.c:369-409 | collects the seven Answer lines and finishes; dispatches the lines of an established link |
| LinkMux.CcccMux.OnLinkReadable | cccc/cccc_link.c:411-424 | the bytes of a recv one by one, each newline handing over a line before the buffer is emptied |
| LinkMux.CcccMux.OnTcpClosed | cccc/cccc_link.c:411-424 | a closed or failed connection is torn down |
| LinkMux.CcccMux.KeepaliveCb | cccc/cccc_link.c:322-339 | sends, then rearms or tears down a silent link |
| LinkMux.CcccMux.OnKeepaliveReceived | cccc/cccc_link.c:627-642 | stamps the one link whose source and address match, and reflects the packet |
| LinkMux.CcccMux.OnVoiceReceived | cccc/cccc_link.c:644-660 | passes voice on for the link whose source and address match |
| LinkMux.CcccMux.HandleQuestionComplete | cccc/cccc_link.c:500-559 | reads source and LID off the Question; accept, refuse on a collision, or replace the link's own connection |
| LinkMux.CcccMux.StartMux | cccc/cccc_link.c:709-714 | mirrors the toggles and starts enabled outbound links |
| LinkMux.CcccMux.Reconcile | cccc/cccc_link.c:718-738 | brings every link in line with its toggle |
| LinkMux.CcccMux.StopMux | cccc/cccc_link.c:740-747 | deactivates and tears down every link |
| MuxTheorems.StepKeeps | cccc/cccc_link.c:276-747 | every event keeps timers, source and activity of every link in step with its phase, and sources unique |
| MuxTheorems.LookupFindsTheHolder | cccc/cccc_link.c:87-93 | with unique sources the lookup finds the one holder wherever it stands |
| MuxRuns.SyncSourcesAreUnique | cccc/cccc_link.c:87-103 | in every reachable state no two links hold the same sync source |
| MuxRuns.PacketsReachTheirLink | cccc/cccc_link.c:627-657 | in every reachable state a packet with a held source finds exactly its holder |
| MuxRuns.VoiceGoesToTheHolder | cccc/cccc_link.c:644-660 | in every reachable state voice is passed on for a link if and only if it holds the source and the packet comes from its address |
| MuxRuns.KeepaliveGoesToTheHolder | cccc/cccc_link.c:627-642 | in every reachable state a keepalive is sent back for a link if and only if it holds the source and the packet comes from its address |
| MuxRuns.TimersFollowThePhase | cccc/cccc_link.c:276-345 | while running, a reconnect is pending if and only if the link is outbound, enabled and down; a keepalive if and only if it is up; a source is held if and only if it is shaking hands or up; an enabled outbound link has no timer pending if and only if it is connecting or shaking hands |
| MuxRuns.StopLeavesNothing | cccc/cccc_link.c:740-747 | after stop no link has a timer, a source or a connection |
| MuxRuns.TranslatorKnowsWhoIsUp | cccc/cccc_link.c:294-299 | link-up notices exceed link-down notices by one exactly for the links that are up |
| MuxDiary.DiaryIsBorneOut | cccc/cccc_link.c:322-345 | in every reachable state the record of a link is what its events and messages tell: whether it is up, its source, when it last came up or was heard, and when its keepalive timer is due |
| MuxDiary.WatchdogDecides | cccc/cccc_link.c:322-339 | in every reachable state a fired keepalive timer sends a keepalive with the source of the link and takes it down if and only if it came up and was last heard, by the events, more than the timeout ago; otherwise the timer is set an interval later |
| MuxDiary.PhasesMove | cccc/cccc_link.c:305-479 | the phase of a link after every event but bytes, a Question and its keepalive timer: connecting if the socket could be had, shaking hands with a Question sent if connected, else down |
| MuxDiary.QuestionDecides | cccc/cccc_link.c:500-559 | a Question is answered by exactly the link it matches, unless another link holds its source; a link that was up goes down first |
| MuxDiary.FreshStart | cccc/cccc_link.c:276-479 | a link that begins to connect, comes up by a Question or is dropped other than by a line has nothing buffered |
| MuxDiary.ReconnectsInFive | cccc/cccc_link.c:313-318 | in every step a pending reconnect stays as it is until it fires, and a new one is due five seconds later |
| MuxClock.LinksAreWatched | cccc/cccc_link.c:322-345 | with punctual timers a link that is up, by the notices sent, came up or heard a keepalive of its source from its address, by the events, within the timeout plus one interval; and an enabled outbound link that is down tries again within five seconds |
| MuxChannel.BytesAreLines | cccc/cccc_link.c:110-122 | a recv does to a link what its lines do, even when one of them tears the link down, and leaves the rest buffered |
| MuxChannel.RunHearing | cccc/cccc_link.c:394-424 | in any run a link that is up hears exactly the lines its bytes complete, in whatever pieces and among whatever other events, unless it is dropped |
| MuxChannel.BytesIgnored | cccc/cccc_link.c:394-409 | bytes on a link that is down or connecting only fill its buffer |
| MuxChannel.SignalsAreHeard | cccc/cccc_link.c:369-424 | in any run the signals sent to a link that stays up are heard as they are meant if and only if every B-on's LID is from -9 to 99 |
| MuxChannel.QuestionIsRead | cccc/cccc_link.c:500-505 | a Question tells its reader the sync source and LID it was built from |
| MuxChannel.QuestionArrives | cccc/cccc_link.c:124-133 | the bytes of a Question arrive as eight lines, source, LID and the site in order |
| MuxChannel.SevenLinesDecide | cccc/cccc_link.c:349-409 | seven lines end a handshake: up if and only if the first is AMBE and the second reads 60, else down, with a reconnect in five seconds if outbound and active |
| MuxChannel.FewerLinesWait | cccc/cccc_link.c:397-405 | fewer lines leave it shaking hands with its source |
| MuxChannel.ClippedIsKept | cccc/cccc_link.c:398-402 | a line is kept up to its first NUL and to at most 255 characters |
| MuxChannel.AnswerBringsUp | cccc/cccc_link.c:349-409 | the bytes of an Answer bring a link that is shaking hands up |
| MuxChannel.BridgesConnect | cccc/cccc_link.c:349-559 | by Question and Answer two bridges come up with the same source, under which each finds that link |
| Bridge.DeedsAreHeard | cccc/cccc_link.c:369-392 | in any run of the whole bridge what the translator takes the cc side of a link to do is what the multiplexer heard on it, in order |
| Bridge.LossIsHeard | cccc/cccc_link.c:294-299 | the translator is told of the loss of a link exactly when the multiplexer drops it |
| Bridge.SocketToAir | translate.c:344-449 | in any run of the whole bridge the signals that arrive as bytes on a link that stays up, and the voice packets under its source, go out on OpenBridge as the calls they make and as nothing else, given that nothing hinders them as in CallOnAir.CallsGoOnAir |
| LinkTable.ValidateLinks | config.c:215-241 | the pairwise loops report no error if and only if names, (peer, talkgroup) and inbound (address, LID) are unique |
| LinkTable.RoutingIsUnambiguous | translate.c:313-319 | in a checked table a link is the first match for a peer and talkgroup if and only if it wants them |
| LinkTable.InboundIsUnambiguous | cccc/cccc_link.c:507-515 | the same for an enabled inbound link and its address and LID |
| LinkTable.RulesAreExact | config.c:215-241 | two links break the rule for routes if and only if some frame is for both, and the rule for inbound links if and only if, enabled, both would take some Question |
| LinkTable.ReloadToggles | config.c:331-353 | a file without errors changes toggles of entries of the same name only, for links and OpenBridge systems; one with an error of any kind changes nothing |
| LinkTable.ReloadBringsToggles | config.c:331-353 | whatever was loaded before, after a valid file a link has the toggles of the entry of its name, for translator and multiplexer |
| LinkTable.ReloadLeavesTheRest | config.c:331-353 | a link that the file does not name, or whose file is faulty, keeps its toggles |
| LinkTable.ReloadBringsPeers | config.c:304-329 | an OpenBridge system takes the toggle of the first entry of its name, else it keeps its own |
| LinkTable.ReloadsKeepDispatch | config.c:331-353 | any number of reloads, with errors and without, keeps the table checked and is a reload for translator and multiplexer |
| Sha1.Block | crypto.c:11-30 | the schedule and round loops compute the compression function |
| Sha1Example.AbcDigest | crypto.c:11-66 | the digest of "abc" is the one FIPS 180-4 gives |
| Sha1.Context.Update | crypto.c:38-48 | the context always holds the compressed whole blocks and the buffered tail of all bytes fed so far |
| Sha1.Context.Final | crypto.c:50-66 | the padding loop ends from every fill and the digest is that of the padded message (section 5.1.1 of FIPS 180-4), which Sha1.PaddedIs tells in full |
| Sha1.HashChunks | crypto.c:38-71 | any split of the message across updates gives the digest of the whole |
| Sha1.DigestIsFolded | crypto.c:11-66 | a digest is what the padded blocks make of the initial value, each from what the one before it made |
| Sha1.HmacSha1 | crypto.c:160-182 | the construction of section 2 of RFC 2104, for short and long keys |
| Sha1.HmacIsTwoPasses | crypto.c:160-182 | two digests, of a block and what follows it, whose bytes are the key or zero XORed with 0x36 and 0x5c |
| Sha1.KeysAlike | crypto.c:163-168 | a long key stands for its digest, and zero bytes at the end of a short key do not count |
| Sha1.Padded | crypto.c:50-59 | padding fills whole blocks and adds fewer than 73 bytes |
| Sha1.PaddedIs | crypto.c:50-59 | the padding in full: 0x80, zeros, and eight bytes that read most significant first are 8 times the length modulo 2^64 |
| Sha1.PaddingIsInjective | crypto.c:50-59 | different messages have different paddings |
| Timers.EvLoop.TimerAt | eventloop.c:114-121 | a new active timer at the head of the linked list |
| Timers.EvLoop.TimerCancel | eventloop.c:128-132 | the timer goes inactive and stays linked; a null timer is ignored |
| Timers.EvLoop.ReapInactive | eventloop.c:134-146 | unlinking in place leaves exactly the active timers in order |
| Timers.EvLoop.FireExpired | eventloop.c:192-204 | the scanning and firing loop performs the specified pass whenever that ends, also when a callback stops the loop |
| Timers.LaterEnds | eventloop.c:192-204 | a pass whose callbacks add timers only for later ends after at most as many callbacks as timers were due |
| Timers.DueForever | eventloop.c:192-204 | a pass whose callbacks each add a timer that is already due never ends |
| Timers.EachFiresOnce | eventloop.c:192-204 | whatever callbacks add, no timer fires twice in a pass, and none after one that stops the loop |
| Timers.PassFiresInOrder | eventloop.c:192-204 | with callbacks that add only for later, a pass fires timers due when it began, each at most once, in order of time and of two at the same time the newer first, none that an earlier callback cancelled |
| Timers.PassSettlesEveryTimer | eventloop.c:192-204 | after such a pass nothing is due unless the loop was stopped, and a timer is still active if and only if it was and the pass neither fired nor cancelled it |
| Timers.ReapedKeepsActive | eventloop.c:134-146 | reaping keeps every active timer as often as before and drops the rest |
| Timers.ReapedInOrder | eventloop.c:134-146 | a list is reaped part by part, so the order is kept |

## Left out

- Sockets, poll, signals, logging, argument parsing and file reading: events arrive as method calls, clock readings and random draws as parameters, requests and notices as trace entries.
- toml.c and the typed getters of config.c: the link table starts from parsed entries, the error bag is a count, and only the pairwise rules for links are modelled. The errors found by other means (ranges, missing keys, OpenBridge names and bind ports) are one number, an input.
- openbridge/obp_link.c: binding and unbinding of sockets. `obp_send_dmrd` is a trace entry, `ObpLink` says what becomes of its frame, and whether a peer is enabled is an input.
- SHA-256, which nothing in this daemon calls, and any claim about the strength of SHA-1. Messages of 2^61 bytes and more are hashed with the length modulo 2^64, as in the source.
- Binary floating point: times and slots are exact reals. A handler of the link multiplexer takes one clock reading where the source may take several; the voice handler of the translator takes its two.
- Overflow of counters after 2^31 frames, and of the numbers of `atoi` and `%d` beyond 64 bits.
- Wire-level delivery on CC-CC: `cccc_send_bon`, `cccc_send_voice` and `cccc_send_boff` drop what they are asked while the link is not up, and the RTP and keepalive packet layouts are not modelled. Received voice is its source and payload, because nobody reads its sequence number, timestamp and marker. Traces of the translator are of requests.
- The table of pending inbound connections and who owns a socket: a completed Question is one event with its address and eight lines. When bytes follow the eighth line in one read the source handles it again, which is one more such event.
- Strictly consecutive RTP sequence numbers: slots come from the clock and two bursts may share one.
- Callbacks of the event loop are modelled by what they do to the list and whether they stop the loop; descriptors and freeing memory are not.
- Uniqueness of bind ports across reloads, and the warning for likely typing errors in outbound links.
- A Question or Answer of more than 512 bytes; the texts a bridge tells about itself are single lines.
- LinkMux.CcccMux.MintSyncSource: the endless draw is a list of draws with at least one unused value, because the source draws until it finds one.
- Timers.EvLoop.FireExpired: it is required that the pass ends, because the source's loop may not. `Timers.LaterEnds` is enough for it to end and `Timers.DueForever` for it not to; callbacks in between are undecided. Every timer this daemon adds from a timer callback is later than the pass (the tick by one second, a reconnect by five, a keepalive by its interval of at least one), so `Timers.LaterEnds` covers the daemon.
