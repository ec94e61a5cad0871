# gr-dab receiver core in Dafny

This project models the integer, bit-level and counter-driven core of gr-dab,
a GNU Radio receiver for DAB and DAB+ digital radio, and proves what that core
promises. Each GNU Radio block of the core is a Dafny class. Its fields are the
block's state, its methods are the block's `work`/`general_work` loops, and
each method is proved against a specification function over the input. The
floating-point signal maths (FFT energies, correlations, phases) is either
exact `real` arithmetic or a parameter of uninterpreted functions
(`Signal.FloatMath`).

The core covers the following:

- **Synchronisation**: the OFDM synchroniser's acquisition and tracking state
  machine with its triangle hysteresis detector and sliding sums
  (`ofdm_synchronization.dfy`, `synchronization_ff.dfy`,
  `delayed_correlation.dfy`).
- **Per-frame symbol processing**: coarse frequency correction, pilot phase
  correction and the FIC/MSC demultiplexer (`coarse_frequency_correction.dfy`,
  `phase_correction.dfy`, `demux.dfy`).
- **Parsers and checkers**: the FIB/FIG walker (`fib_sink.dfy`); the DAB+
  audio superframe decoder's CRC, AudioSpecificConfig and AU start table
  (`mp4_decode_bs.dfy`) and its AU loop (`mp4_superframe.dfy`); PAD/X-PAD
  parsing (`xpad.dfy`); and the superframe synchroniser (`mp4_decoder.dfy`).
- **Parameters**: the mode tables, the frequency-interleaving congruential
  sequence and its filtering into a permutation, and the PRN phase reference
  (`parameters.dfy`, `congruential.dfy`, `sequences.dfy`).
- **Small vector transforms**: frequency deinterleaving, capacity-unit
  selection, QPSK mapping and the real/imaginary layout
  (`frequency_deinterleave.dfy`, `select_cus.dfy`, `qpsk_mapper.dfy`,
  `complex_to_interleaved_float.dfy`).

The standards referred to are ETSI EN 300 401 (DAB) and ETSI TS 102 563
(DAB+).

## Model

| member | source | states |
|---|---|---|
| ComplexToInterleavedFloat.ComplexToInterleavedFloat.Work | lib/complex_to_interleaved_float_cf_impl.cc:57-74 | every output float is the value the loop `out[i] = re; out[i+symbol_length] = im` leaves there (later writes win), the rest keep their old value; returns noutput |
| ComplexToInterleavedFloat.OneSymbolLayout | lib/complex_to_interleaved_float_cf_impl.cc:65-70 | with one symbol per call the output is all real parts in order, then all imaginary parts in order |
| ComplexToInterleavedFloat.TwoSymbolsOverwrite | lib/complex_to_interleaved_float_cf_impl.cc:65-70 | with two symbols per call the second symbol's real parts overwrite the first symbol's imaginary parts |
| ComplexToInterleavedFloat.WholeSymbols | lib/complex_to_interleaved_float_cf_impl.cc:47 | with the output multiple 2*symbol_length every write `i + symbol_length` stays inside the output |
| ComplexToInterleavedFloat.ComplexToInterleavedFloat.constructor | lib/complex_to_interleaved_float_cf_impl.cc:41-48 | keeps the symbol length; interpolation 2, output multiple 2*symbol_length |
| QpskMapper.MapVector | lib/qpsk_mapper_vbvc_impl.cc:63-73 | output k of a vector is the signs of bit k%8 of real-part byte k/8 and of imaginary-part byte symbol_length/8 + k/8, set bit giving the negative amplitude |
| QpskMapper.DemapInvertsMap | lib/qpsk_mapper_vbvc_impl.cc:65-72 | reading the signs back recovers every input byte of the vector |
| QpskMapper.MapperIsInjective | lib/qpsk_mapper_vbvc_impl.cc:65-72 | two different input vectors map to different output vectors |
| QpskMapper.SignsOfMapped | lib/qpsk_mapper_vbvc_impl.cc:67-70 | outputs 8j..8j+7 carry the bits of byte j, most significant bit first (mask 0x80>>k) |
| QpskMapper.TestVectors | python/qa/qa_qpsk_mapper_vbvc.py:21-52 | the two test vectors (31, 255) and (0, 3) give the expected sign patterns |
| QpskMapper.QpskMapper.Work | lib/qpsk_mapper_vbvc_impl.cc:55-76 | row i of the output is MapVector of input vector i for every i < noutput; returns noutput |
| QpskMapper.QpskMapper.MapRow | lib/qpsk_mapper_vbvc_impl.cc:65-72 | the two inner loops write row i with the mapping of one vector and leave other rows unchanged |
| SelectCus.Selection | lib/select_cus_vcvc_impl.cc:74-79 | at most one item is kept per input item, and each kept item lies in the call |
| SelectCus.SelectionMembers | lib/select_cus_vcvc_impl.cc:74-79 | an item is kept exactly when its absolute position modulo frame_len lies in [address, address+size), the sum wrapping at 2^32, and the kept items are in input order |
| SelectCus.SelectionCountInFrame | lib/select_cus_vcvc_impl.cc:74-79 | over a frame-aligned stretch the kept items are the positions that fall in the window |
| SelectCus.CompleteFrameYieldsSize | lib/select_cus_vcvc_impl.cc:74-79 | a complete frame yields exactly size vectors when the window fits in the frame |
| SelectCus.KeepsFirstOfEachPair | python/qa/qa_select_cus_vfvf.py:39-52 | vector length 4, frame length 2, address 0, size 1 keeps vectors 1 and 3 of the test input |
| SelectCus.SelectCus.GeneralWork | lib/select_cus_vcvc_impl.cc:64-86 | the output's front holds the selected vectors in order, the rest is unchanged; returns their count; consumes noutput |
| SelectCus.SelectCus.constructor | lib/select_cus_vcvc_impl.cc:41-49 | keeps vlen, frame_len, address and size |
| FrequencyDeinterleave.AsUnsigned | lib/frequency_deinterleave_cc_impl.cc:50 | the conversion of a short to unsigned: non-negative values unchanged, negative ones wrapped by 2^32 |
| FrequencyDeinterleave.Validate | lib/frequency_deinterleave_cc_impl.cc:49-53 | the check loop accepts exactly when every entry is below the length as unsigned values |
| FrequencyDeinterleave.AcceptedMeansInRange | lib/frequency_deinterleave_cc_impl.cc:49-53 | a table is accepted exactly when all entries lie in [0, length) |
| FrequencyDeinterleave.ScatteredSlots | lib/frequency_deinterleave_cc_impl.cc:72-74 | with distinct entries each written slot holds its own input and unnamed slots keep their value |
| FrequencyDeinterleave.DeinterleaveIsInversePermutation | lib/frequency_deinterleave_cc_impl.cc:72-74 | for a permutation table and a whole symbol the output is the input reordered by the inverse permutation |
| FrequencyDeinterleave.FrequencyDeinterleave.constructor | lib/frequency_deinterleave_cc_impl.cc:41-55 | keeps the table and runs the check loop: `accepted` is false, where the source throws invalid_argument, exactly when some entry is not below the length as unsigned values; Work runs only on an accepted block |
| FrequencyDeinterleave.FrequencyDeinterleave.Work | lib/frequency_deinterleave_cc_impl.cc:54-78 | for any noutput up to the input (a multiple of the length under the output multiple), out is the scatter `out[table[i]] = in[i]` over i < min(noutput, length), later writes winning; the call ends with `ReadsPastTable(length)` and produces nothing exactly when noutput exceeds the table length, where the loop reads past the table, and otherwise produces noutput |
| Signal.TagCursorPosition | lib/phase_correction_cc_impl.cc:103-110 | with strictly ascending tag offsets the cursor before item i has passed exactly the tags below i |
| Signal.TagsHonoured | lib/phase_correction_cc_impl.cc:106-110 | with strictly ascending tags an item is acted on exactly when a tag sits on it |
| Signal.DuplicateTagBlocks | lib/phase_correction_cc_impl.cc:105-110 | a second tag on the same item is never consumed and blocks the cursor for the rest of the call |
| Signal.CursorPassed | lib/phase_correction_cc_impl.cc:106-109 | every consumed tag sat on an earlier item |
| Sequences.DistinctInRangeCovers | src/python/parameters.py:253-256 | n distinct values in [0, n) are a permutation: every value of the range occurs |
| Sequences.InverseIsInverse | src/python/parameters.py:259 | the list.index inverse of a permutation undoes it from both sides and is itself a permutation |
| Sequences.IndexOf | src/python/parameters.py:259 | list.index: the position holds x and no earlier position does |
| Congruential.LcgClosedForm | src/python/parameters.py:242-246 | A[n] = c(1 + a + ... + a^(n-1)) mod m |
| Congruential.GeoSumNotDivisible | src/python/parameters.py:242-246 | for a = 1 mod 4, 2^e does not divide the geometric sum of d terms when 0 < d < 2^e |
| Congruential.LcgDistinct | src/python/parameters.py:242-246 | full period: with a = 1 mod 4 and odd c the first 2^e terms modulo 2^e are pairwise distinct |
| DabParameters.ModeTablesConsistent | src/python/parameters.py:183-185 | every mode's frame is its symbols plus the null symbol, and every symbol is FFT plus cyclic prefix |
| DabParameters.ModeShape | src/python/parameters.py:38-44 | every FFT length is a power of two and a multiple of 8, carriers are 3/4 of it, fft/4-1 is odd, carriers split into 32-blocks |
| DabParameters.BytesPerFrameExact | src/python/parameters.py:215 | the division by 4 in bytes_per_frame is exact |
| DabParameters.LcgTermsAt | src/python/parameters.py:244-246 | the list A holds the terms of the congruential sequence 13, fft/4-1 modulo fft |
| DabParameters.KeepFilterMembers | src/python/parameters.py:247 | D holds exactly the kept values of A |
| DabParameters.KeepFilterDistinct | src/python/parameters.py:247 | filtering keeps distinct values distinct |
| DabParameters.KeptTermsArePermutation | src/python/parameters.py:247-256 | of a permutation of 0..fft-1 the kept entries number 3fft/4 and their array indices are a permutation of 0..N-1 |
| DabParameters.CongruentialTermsArePermutation | src/python/parameters.py:242-246 | the first fft terms of A are a permutation of 0..fft-1 |
| DabParameters.InterleavingIsPermutation | src/python/parameters.py:247-256 | the assertions hold in every mode: D has num_carriers entries and the array is a permutation of 0..N-1 |
| DabParameters.LeadingEntriesMatchStandard | src/python/parameters.py:160-165 | the first ten interleaving values of every mode are the ones the standard lists (the assertion of line 250) |
| DabParameters.ArrayIndexBijection | src/python/parameters.py:252 | `k + N/2 - (k>0)` is a bijection from the kept centred values onto 0..N-1 |
| DabParameters.RowOfCarrier | src/python/parameters.py:276-281 | the computed row index contains carrier k and starts at the computed k' |
| DabParameters.RowsDisjoint | src/python/parameters.py:55-149 | no two rows of a PRN table overlap |
| DabParameters.GetPrnKkIN | src/python/parameters.py:273-287 | the row picked contains k (the assertions of lines 283-284 hold) and (k', i, n) are that row's |
| DabParameters.LookupFindsContainingRow | src/python/parameters.py:273-287 | the row the lookup picks is the one row of the table whose [k_min, k_max] contains k |
| DabParameters.CarriersAscend | src/python/parameters.py:224-229 | entry j of prn belongs to an active carrier and the carriers ascend, skipping 0 |
| DabParameters.PilotPhaseOfRow | src/python/parameters.py:229-231 | entry j's phase is h of row j/32 at offset j%32 plus that row's n, modulo 4 |
| DabParameters.PhasorOnUnitCircle | src/python/parameters.py:232-239 | every prn value lies on the unit circle |
| DabParameters.PhasorQuarterTurn | src/python/parameters.py:232-239 | each step of the phase index is a quarter turn |
| DabParameters.PrnSequence | src/python/parameters.py:223-239 | the loop builds one phasor per active carrier, in ascending carrier order, equal to PrnOf |
| DabParameters.PhaseReferenceEntry | src/python/parameters.py:229-239 | the loop body for carrier k gives the phasor of (h + n) mod 4 |
| DabParameters.CongruentialSequence | src/python/parameters.py:244-246 | the A loop gives fft terms, each the congruential sequence's term |
| DabParameters.InterleavingArrays | src/python/parameters.py:241-259 | the interleaving sequence and array of the mode, the array a permutation, the deinterleaving array its inverse |
| DabParameters.DeinterleavingInvertsInterleaving | src/python/parameters.py:252-259 | the deinterleaving array undoes the interleaving array from both sides |
| DabParameters.Parameters.constructor | src/python/parameters.py:167-187 | the object holds the mode and every field as the update leaves it |
| DabParameters.Parameters.SetMode | src/python/parameters.py:189-193 | the new mode and all fields recomputed for it |
| DabParameters.Parameters.UpdateParameters | src/python/parameters.py:201-259 | scalar fields, prn and interleaving arrays are those of the mode |
| DabParameters.Parameters.SetPrn | src/python/parameters.py:222-239 | prn holds the phase reference of every active carrier |
| DabParameters.Parameters.SetInterleaving | src/python/parameters.py:241-259 | the interleaving arrays of the mode, mutually inverse permutations |
| DabParameters.Parameters.SetTableFields | src/python/parameters.py:204-219 | the scalar parameters are the mode's row of the tables |
| XPad.CopiedAu | lib/mp4_decode_bs_impl.cc:166-169 | the copy of the AU is the AU followed by ten zero bytes |
| XPad.PadOfFramed | lib/mp4_decode_bs_impl.cc:171-177 | an AU opening with a data stream element (id 4 in the top three bits) and a count byte hands exactly the count bytes after it to process_pad |
| XPad.PadOfOther | lib/mp4_decode_bs_impl.cc:172 | an AU whose first element is not a data stream element, or an empty AU, has no PAD |
| XPad.FPadRoundTrip | lib/mp4_decode_bs_impl.cc:192-195 | the F-PAD fields written into the last two PAD bytes are read back unchanged by the four masks and shifts |
| XPad.FPadFieldsInRange | lib/mp4_decode_bs_impl.cc:192-195 | the F-PAD type and X-PAD indicator are below 4, the byte L indicator below 16, the CI flag below 2 |
| XPad.AppType | lib/mp4_decode_bs_impl.cc:211 | the application type `ci & 0x1f` is below 32 |
| XPad.LengthIndicator | lib/mp4_decode_bs_impl.cc:232-233 | the length indicator the standard defines, bits 7 to 5 of the CI (the intended `>> 5`), is below 8, an index of the length table; the block itself uses LengthIndicatorAsWritten |
| XPad.LengthIndicatorAsWritten | lib/mp4_decode_bs_impl.cc:232 | the indicator as process_pad computes it, `(ci & 0xe0) >> 6`, is below 4 |
| XPad.ContentIndicatorRoundTrip | lib/mp4_decode_bs_impl.cc:232-234 | a content indicator built from a length indicator and an application type gives both back |
| XPad.LengthIndicatorAsWrittenHalves | lib/mp4_decode_bs_impl.cc:232-233 | the shift by six yields half the length indicator, at most 3, so only 4-, 6-, 8- or 12-byte sub-fields are read; CI 0x21 is read as 4 bytes instead of 6 |
| XPad.ScanMeaning | lib/mp4_decode_bs_impl.cc:214-227 | the CI scan, which reads CI k at pad[length - 3 - k] down to and including pad[0], finds exactly the CIs before the first end marker (at most four), and fails only when the PAD is shorter than six bytes and a CI would be read before pad[0] |
| XPad.ScanUnique | lib/mp4_decode_bs_impl.cc:214-227 | any CI list that describes the PAD, with CIs read down to pad[0], is the one the scan finds |
| XPad.ScanContentIndicators | lib/mp4_decode_bs_impl.cc:216-227 | the while loop, whose guard lets it read pad[0], yields the CI list of ScanFrom from entry 0, which ScanMeaning and ScanUnique characterise |
| XPad.DataGroupLengthRoundTrip | lib/mp4_decode_bs_impl.cc:246 | a data group length below 2^14 written into two bytes is read back unchanged by the intended `(b0 & 0x3f) << 8 \| b1` |
| XPad.DataGroupLengthAsWrittenIsFlag | lib/mp4_decode_bs_impl.cc:246 | as written the length is 0 or 1, 1 exactly when the intended length is non-zero; bytes 0x01 0x00 give 1 instead of 256 |
| XPad.SubfieldBytes | lib/mp4_decode_bs_impl.cc:239-242 | the sub-field holds len bytes, byte j being pad[length - idx - j] |
| XPad.SubfieldsMeaning | lib/mp4_decode_bs_impl.cc:230-289 | every sub-field read has its CI's application type and the table length the as-written indicator `(ci & 0xe0) >> 6` selects, its bytes read downwards from where the one before ended |
| XPad.SubfieldLengthListed | lib/mp4_decode_bs_impl.cc:232-233 | every sub-field length is 4, 6, 8 or 12: the as-written indicator reaches only the first four table entries |
| XPad.ReadSubfield | lib/mp4_decode_bs_impl.cc:239-242 | the copy loop gives SubfieldBytes |
| XPad.ReadSubfields | lib/mp4_decode_bs_impl.cc:230-289 | the for loop over the CIs, with lengths from the as-written indicator, gives the sub-fields of SubfieldsFrom, or the failure when one would reach before the PAD |
| XPad.PadContentsVariable | lib/mp4_decode_bs_impl.cc:214-289 | a decoded variable X-PAD has the CI list before the first end marker and one sub-field per CI, of the length the as-written indicator selects, laid out one after the other right after the list |
| XPad.PadContentsFails | lib/mp4_decode_bs_impl.cc:189-292 | process_pad fails for lack of an F-PAD exactly when the PAD has under two bytes; any other failure is a CI-flagged short or variable X-PAD whose reads reach before pad[0] |
| XPad.ProcessPad | lib/mp4_decode_bs_impl.cc:189-292 | the method with its loops computes PadContents as the block does: continuation, short X-PAD app type, variable X-PAD CIs scanned down to pad[0] and sub-fields with the as-written length indicator and data group length, or another indicator |
| XPad.PadSubfieldLengths | lib/mp4_decode_bs_impl.cc:230-289 | every sub-field of a decoded variable X-PAD is 4, 6, 8 or 12 bytes long |
| XPad.EndMarkerAtFirstByte | lib/mp4_decode_bs_impl.cc:214-227 | the PAD 0x00 0x20 0x02, whose only CI position is pad[0] and holds an end marker, decodes to a variable X-PAD with no sub-fields |
| XPad.LabelSegmentRoundTrip | lib/mp4_decode_bs_impl.cc:294-314 | a dynamic-label segment's header, charset or segment number and characters are read back as written |
| XPad.HeaderByteFields | lib/mp4_decode_bs_impl.cc:296-300 | the toggle, first, last, C flag and length field are read back from the header byte |
| XPad.DynamicLabelSegmentInRange | lib/mp4_decode_bs_impl.cc:294-314 | every segment read has its fields in range and a message carries at most 15 characters |
| Mp4Decoder.FlattenLength | lib/mp4_decoder_impl.cc:94-96 | k frames of frame_size bytes flatten to k*frame_size bytes |
| Mp4Decoder.ScanFound | lib/mp4_decoder_impl.cc:89-107 | the superframe starts found ascend at least five frames apart, lie below the bound and inside the input, and the fire code check passes on the frames from each of them on |
| Mp4Decoder.ScanSkipped | lib/mp4_decoder_impl.cc:91-104 | every frame the loop stepped over outside a superframe lies inside the input and failed the check on the frames from it on |
| Mp4Decoder.ScanEnds | lib/mp4_decoder_impl.cc:89-107 | the loop stops at most four frames past the bound, and without a capacity limit not before it |
| Mp4Decoder.ScanOverrun | lib/mp4_decoder_impl.cc:91-97 | the loop reaches past the input only at a frame in [n, bound) that is past the last frame, or at a frame where the check passes with fewer than five frames left; with bound + 4 frames it never does |
| Mp4Decoder.AsWrittenTakesAll | lib/mp4_decoder_impl.cc:89-107 | when every check passes, the loop as written takes at least (noutput - n)/5 superframes |
| Mp4Decoder.AsWrittenWritesPastOutput | lib/mp4_decoder_impl.cc:89-107 | with frame_size of at least 2 and every check passing, the bytes written exceed noutput |
| Mp4Decoder.StoppingScanFits | lib/mp4_decoder_impl.cc:89-104 | the intended loop, which stops once a further superframe would not fit in its room, never copies more bytes than its room |
| Mp4Decoder.StoppingScanOutputFits | lib/mp4_decoder_impl.cc:89-104 | with the intended bound the superframes copied lie inside the input and fit in the noutput bytes of the output |
| Mp4Decoder.WorkIsScan | lib/mp4_decoder_impl.cc:89-104 | the block's loop copies exactly when the as-written scan stays inside the input and its superframes fit in the room, and then copies what that scan finds; it reads past the input where the scan does; a write past the output happens at a frame inside the input where the check passes |
| Mp4Decoder.WorkConsumes | lib/mp4_decoder_impl.cc:89-113 | a call that copies stops between noutput and noutput + 4 frames |
| Mp4Decoder.FailingChecksStepThrough | lib/mp4_decoder_impl.cc:89-104 | when the check fails at every frame from n up to a bound inside the input, the loop steps through to the bound and copies nothing, whatever the room |
| Mp4Decoder.BlockWritesPastOutput | lib/mp4_decoder_impl.cc:89-104 | with frame_size of at least 2 and every check passing, the block's loop ends with WritesPastOutput |
| Mp4Decoder.SuperframesLength | lib/mp4_decoder_impl.cc:94-97 | the superframes copied hold 5*frame_size bytes each |
| Mp4Decoder.Decoder.constructor | lib/mp4_decoder_impl.cc:47-62 | frame_size is 24 times bit_rate_n |
| Mp4Decoder.Decoder.OutputMultiple | lib/mp4_decoder_impl.cc:54 | the output multiple is five frames |
| Mp4Decoder.Decoder.GeneralWork | lib/mp4_decoder_impl.cc:79-114 | the loop as written, while n < noutput from frame 0, returns what Work gives: the check runs on frame n and a failing one steps to n + 1; a frame past the input, a passing check with fewer than five frames left, or a copy past the noutput-byte output is an error; otherwise the output is the passing superframes in order, copied whole, produced is their byte count and consumed the frame the loop stopped at, from noutput to noutput + 4 |
| Mp4Decoder.CopySuperframe | lib/mp4_decoder_impl.cc:94-96 | the copy loops append the five frames of the window, in order |
| Mp4DecodeBs.CrcPassesMeaning | lib/mp4_decode_bs_impl.cc:428-430 | crc16 passes exactly when the stored word is the complement of the register over the data word |
| Mp4DecodeBs.CrcRoundTrip | lib/mp4_decode_bs_impl.cc:411-431 | data followed by its complemented CRC-16 (generator 0x1021, preset 0xFFFF), high byte first, passes the check |
| Mp4DecodeBs.CrcTrailerUnique | lib/mp4_decode_bs_impl.cc:411-431 | no other two bytes after the data pass it |
| Mp4DecodeBs.CrcByteLoop | lib/mp4_decode_bs_impl.cc:419-426 | the bit loop leaves the register of one more message byte |
| Mp4DecodeBs.Crc16 | lib/mp4_decode_bs_impl.cc:411-431 | the two loops return true exactly when the CRC check of the first len bytes passes |
| Mp4DecodeBs.BinToDecReadsField | lib/mp4_decode_bs_impl.cc:433-443 | for a field of at most 16 bits BinToDec is the value of the stream's bits [offset, offset + length), most significant first, below 2^length |
| Mp4DecodeBs.ValueBitsOf | lib/mp4_decode_bs_impl.cc:433-443 | the bits listed for x are its low bits: their value is x mod 2^n |
| Mp4DecodeBs.ChannelConfigurations | lib/mp4_decode_bs_impl.cc:92-105 | -1 exactly for a surround mode other than 0, 1, 2; otherwise mono or stereo by the channel mode, 6 for 5.1, 7 for 7.1 |
| Mp4DecodeBs.CoreRateHalvedBySbr | lib/mp4_decode_bs_impl.cc:131-133 | the core sampling rate times 2 with SBR (1 without) is 48 kHz with the DAC rate flag and 32 kHz without |
| Mp4DecodeBs.AscRoundTrip | lib/mp4_decode_bs_impl.cc:131-142 | the AudioSpecificConfig reads back as AAC LC, the core rate index, the channel configuration and 960-sample frames; it is missing exactly when the configuration is unrecognised |
| Mp4DecodeBs.AudioParametersInRange | lib/mp4_decode_bs_impl.cc:461-466 | every header field is a bit, the surround mode below 8 |
| Mp4DecodeBs.AudioParametersRoundTrip | lib/mp4_decode_bs_impl.cc:461-466 | the audio parameters written into the third header byte are read back unchanged |
| Mp4DecodeBs.HeaderLayoutOfParameters | lib/mp4_decode_bs_impl.cc:474 | the switch value 2*dac_rate + sbr_flag is bits 6 and 5 of the header byte, below 4, so the default case never runs |
| Mp4DecodeBs.AuStartsLayout | lib/mp4_decode_bs_impl.cc:474-519 | 4, 2, 6 or 3 AUs starting at 8, 5, 11 or 6, the last ending at the superframe size, each other start the 12-bit field at bit 12k + 12 |
| Mp4DecodeBs.HighFieldBits | lib/mp4_decode_bs_impl.cc:479-480 | `in[p]*16 + (in[p+1] >> 4)` is the 12-bit field that starts on byte p, as BinToDec reads it |
| Mp4DecodeBs.LowFieldBits | lib/mp4_decode_bs_impl.cc:481-482 | `(in[p] & 0xf)*256 + in[p+1]` is the 12-bit field that starts in the middle of byte p |
| Mp4DecodeBs.AsWrittenFirstSuperframe | lib/mp4_decode_bs_impl.cc:474-519 | for the first superframe of a call the table as written agrees with the standard's |
| Mp4DecodeBs.AsWrittenLayoutsZeroAndThree | lib/mp4_decode_bs_impl.cc:476-486 | layouts 0 and 3 are right for every superframe |
| Mp4DecodeBs.AsWrittenAgreesWhere | lib/mp4_decode_bs_impl.cc:488-509 | the table as written is right except where case 1 indexes by n*superframe_size and case 2 reads in[8] |
| Mp4DecodeBs.AsWrittenLaterSuperframes | lib/mp4_decode_bs_impl.cc:488-509 | in later superframes case 1 writes outside the ten-entry array and case 2 gets start 4 wrong whenever in[8] differs from the superframe's own byte 8 |
| Mp4DecodeBs.AuStartsCorrected | lib/mp4_decode_bs_impl.cc:474-519 | the corrected table agrees with the standard's for every superframe and keeps the entries past the last start |
| Mp4Superframe.TableOverrunExactly | lib/mp4_decode_bs_impl.cc:488-494 | the table as written is missing (case 1 writes outside the ten entries) exactly for layout 1 once n * superframe_size reaches 10 |
| Mp4Superframe.BlockReadsStandardTable | lib/mp4_decode_bs_impl.cc:474-519 | for the first superframe of a call and for layouts 0 and 3 the block's table agrees with the header's and its AUs are the AU loop over the header's table |
| Mp4Superframe.BlockLaterSingleLayout | lib/mp4_decode_bs_impl.cc:488-494 | a later superframe with layout 1 hands on no AU and ends the call with WritesOutsideTable |
| Mp4Superframe.BlockLaterSixLayout | lib/mp4_decode_bs_impl.cc:496-506 | a later superframe with layout 2 gets a table that differs from its header's whenever in[8] differs from its own byte 8 |
| Mp4Superframe.AusThroughSound | lib/mp4_decode_bs_impl.cc:524-558 | every AU handed to handle_aac_frame is a whole frame inside the input, shorter than 960 bytes, whose CRC holds |
| Mp4Superframe.AusThroughOrdered | lib/mp4_decode_bs_impl.cc:524 | the AUs of a superframe are handed on by increasing number |
| Mp4Superframe.AusThroughComplete | lib/mp4_decode_bs_impl.cc:541-557 | when no sanity check fails, every AU whose CRC holds is handed on and no error is raised |
| Mp4Superframe.AusThroughError | lib/mp4_decode_bs_impl.cc:527-539 | an error is the exception of the first AU failing a sanity check |
| Mp4Superframe.FramedAuPasses | lib/mp4_decode_bs_impl.cc:527-553 | an AU framed with ascending starts, a payload below 960 bytes and its CRC trailer passes and its payload is what is handed on |
| Mp4Superframe.RunSound | lib/mp4_decode_bs_impl.cc:457-559 | with the start table as the block writes it, every AU of a call passed all checks, lies inside the input, belongs to one of its superframes, and they come superframe by superframe in order |
| Mp4Superframe.CombineStops | lib/mp4_decode_bs_impl.cc:528-539 | once a superframe throws, later superframes change nothing |
| Mp4Superframe.ConsumedBounds | lib/mp4_decode_bs_impl.cc:563 | the bytes consumed cover the whole superframes processed and stay below one more superframe |
| Mp4Superframe.DecodeBs.constructor | lib/mp4_decode_bs_impl.cc:60-75 | superframe size 110*bit_rate_n, a ten-entry start table, nothing handled yet |
| Mp4Superframe.DecodeBs.ReadHeader | lib/mp4_decode_bs_impl.cc:461-519 | the header fields and the number of AUs of the header byte, and the start table as the switch writes it (TableAsWritten); a case-1 write outside the ten entries ends the call with WritesOutsideTable and leaves the table unchanged |
| Mp4Superframe.DecodeBs.WriteStarts | lib/mp4_decode_bs_impl.cc:474-519 | the switch writes, entry by entry, the table AuStartsAsWritten gives, case 1 at index n*superframe_size and case 2 with in[8] |
| Mp4Superframe.DecodeBs.CheckAus | lib/mp4_decode_bs_impl.cc:524-558 | the AU loop returns the AUs that pass, in order, stopping at the first rejected one, whose error it returns; AusThroughSound, AusThroughComplete and AusThroughError state what that sequence holds |
| Mp4Superframe.CheckAuAt | lib/mp4_decode_bs_impl.cc:527-557 | one AU's checks (start addresses not decreasing, frame length from 0 to 959, CRC over the AU) give the outcome CheckAu defines: an error, a CRC failure that is skipped, or the AU to hand on |
| Mp4Superframe.DecodeBs.ReadAndCheck | lib/mp4_decode_bs_impl.cc:461-558 | one superframe: the header fields, the start table as written and the AUs its loop hands on over that table, or the error that ends the call |
| Mp4Superframe.DecodeBs.Superframe | lib/mp4_decode_bs_impl.cc:457-559 | one more superframe moves the handled AUs, the start table and the header fields on by its outcome over the table as written; a header past the input ends the call |
| Mp4Superframe.DecodeBs.GeneralWork | lib/mp4_decode_bs_impl.cc:445-567 | the call handles noutput/3840 superframes from in[superframe_size..] with the start table as written: AUs handed on, final table and fields as Run says; consumes noutput*size/3840 bytes unless it ends with an error |
| DelayedCorrelation.FullCorrelation | lib/ofdm_synchronization_cvf_impl.cc:97-110 | the three from-scratch loops give the correlation of the cyclic-prefix window with the window one symbol later and the energies of both windows |
| DelayedCorrelation.Step | lib/ofdm_synchronization_cvf_impl.cc:86-122 | a forced recomputation resets the counter to 0; an incremental update adds one to it; the counter stays in [0, 100001] |
| DelayedCorrelation.UpdatesBounded | lib/ofdm_synchronization_cvf_impl.cc:88-95 | a counter of 100001 or 0 recomputes from scratch, to 0 and to 1 respectively; a forced recomputation yields the exact correlation |
| DelayedCorrelation.SlideClosedForm | lib/ofdm_synchronization_cvf_impl.cc:111-121 | after k <= 100000 moving-sum updates the sums are the from-scratch window's first terms plus the window at the current sample, and the counter is k + 1 |
| DelayedCorrelation.SlideMissesWindow | lib/ofdm_synchronization_cvf_impl.cc:111-121 | after k >= 1 updates the correlation is the sliding window's exactly when the stale term of the from-scratch sample equals that of the current sample |
| DelayedCorrelation.SlidingClosedForm | lib/ofdm_synchronization_cvf_impl.cc:111-121 | the corrected update, which removes the sample that left the window, keeps the correlation and both energies equal to the sums over the window [i0 + k, i0 + k + cp) |
| DelayedCorrelation.SlideStep | lib/ofdm_synchronization_cvf_impl.cc:111-121 | one update turns the sums at sample i - 1 into those at i: the last window sample is added and the current first one removed |
| DelayedCorrelation.CorrelationSumFirst | lib/ofdm_synchronization_cvf_impl.cc:97-100 | a correlation sum is its first term plus the rest |
| DelayedCorrelation.EnergyOfProduct | lib/ofdm_synchronization_cvf_impl.cc:104 | std::real(x * conj(x)) is the energy \|x\|^2 |
| DelayedCorrelation.MagnitudeScale | lib/ofdm_synchronization_cvf_impl.cc:123-127 | the normalised magnitude is finite exactly for a positive energy product, is then non-negative, and times the product gives \|correlation\|^2 |
| DelayedCorrelation.Detect | lib/ofdm_synchronization_cvf_impl.cc:134-158 | a start is reported exactly when not on a triangle and the magnitude exceeds 0.85; the triangle is left exactly when the magnitude falls below 0.5 |
| DelayedCorrelation.StaysOnTriangle | lib/ofdm_synchronization_cvf_impl.cc:134-145 | without a magnitude below 0.5 the detector stays on the triangle |
| DelayedCorrelation.NoDoubleStart | lib/ofdm_synchronization_cvf_impl.cc:134-158 | between two reported starts the magnitude fell below 0.5 |
| OfdmSynchronization.SampleStep | lib/ofdm_synchronization_cvf_impl.cc:187-259 | one sample keeps the state well formed; samples are emitted only in tracking; a "Start" tag only when acquisition ends |
| OfdmSynchronization.StartTagPastOutput | lib/ofdm_synchronization_cvf_impl.cc:187-254 | the "Start" tag added at sample n sits at output offset n + 1, past every sample written so far (at most n), so not on the frame's first sample, which later goes to index \|out\| |
| OfdmSynchronization.RunOutGrows | lib/ofdm_synchronization_cvf_impl.cc:185-254 | the samples written by a call only grow: those after k samples begin those after any later count |
| OfdmSynchronization.RunTaggedSamples | lib/ofdm_synchronization_cvf_impl.cc:187-254 | tagging at the output index changes only the tags: state and samples are the block's |
| OfdmSynchronization.CorrectedTagOnFrameStart | lib/ofdm_synchronization_cvf_impl.cc:187-254 | with the tag at the output index, the tag added at sample k is \|out\|, and every later output begins with exactly the samples written before it, so the tag sits on the first sample written after it |
| OfdmSynchronization.AcquisitionEnds | lib/ofdm_synchronization_cvf_impl.cc:189-211 | acquisition ends exactly on a detected start with a NULL symbol seen and prefix energy above twice its energy; that adds the "Start" tag and resets the counts and the NULL flag |
| OfdmSynchronization.NullDetection | lib/ofdm_synchronization_cvf_impl.cc:213-218 | the NULL flag is raised exactly in acquisition, without a start, when prefix/repetition energy is below 0.1; the prefix energy becomes the NULL energy |
| OfdmSynchronization.SymbolBoundary | lib/ofdm_synchronization_cvf_impl.cc:221-250 | at a symbol boundary the element count restarts; a full frame returns to acquisition; otherwise the symbol count rises and a recomputed magnitude not above 0.5 returns to acquisition |
| OfdmSynchronization.InsideSymbol | lib/ofdm_synchronization_cvf_impl.cc:252-256 | a tracked sample inside a symbol only counts, and is emitted, frequency-corrected, once past the cyclic prefix |
| OfdmSynchronization.RunShape | lib/ofdm_synchronization_cvf_impl.cc:187-270 | a call writes at most one sample per input and its tags are strictly ascending positions in (0, n] |
| OfdmSynchronization.TrackedSymbol | lib/ofdm_synchronization_cvf_impl.cc:221-256 | over one symbol period in tracking exactly symbol_length samples are emitted, the ones after the cyclic prefix, derotated by the frequency offset |
| OfdmSynchronization.OfdmSynchronization.constructor | lib/ofdm_synchronization_cvf_impl.cc:48-70 | acquisition, no NULL symbol, zero correlation, unit energies, counters 0 |
| OfdmSynchronization.OfdmSynchronization.Forecast | lib/ofdm_synchronization_cvf_impl.cc:80-83 | the samples asked for exceed noutput plus one symbol period |
| OfdmSynchronization.OfdmSynchronization.DelayedCorrelationAt | lib/ofdm_synchronization_cvf_impl.cc:86-128 | the moving sums take one Step and the magnitude follows them; the controller is unchanged |
| OfdmSynchronization.OfdmSynchronization.DetectStartOfSymbol | lib/ofdm_synchronization_cvf_impl.cc:134-158 | the answer and the new triangle flag are Detect's; nothing else changes |
| OfdmSynchronization.OfdmSynchronization.GeneralWork | lib/ofdm_synchronization_cvf_impl.cc:178-271 | the state, samples written and tags are those of Run over noutput samples; the rest of out is unchanged; consumes noutput |
| OfdmSynchronization.OfdmSynchronization.ProcessSample | lib/ofdm_synchronization_cvf_impl.cc:188-259 | one loop iteration advances the written trace by one sample |
| OfdmSynchronization.OfdmSynchronization.SampleUpdate | lib/ofdm_synchronization_cvf_impl.cc:188-256 | the fields of the block become the next state of SampleStep; the sample and the "Start" flag returned are the step's |
| SynchronizationFf.SampleStep | lib/synchronization_ff_impl.cc:188-249 | one sample keeps the state well formed; a value is written only with a "Start" tag on a frame start or on a boundary |
| SynchronizationFf.FrameStart | lib/synchronization_ff_impl.cc:190-208 | acquisition ends exactly on a detected start with a NULL symbol and enough energy, writing the frequency offset with a "Start" tag |
| SynchronizationFf.StartTagOffValue | lib/synchronization_ff_impl.cc:188-201 | the "Start" tag added at sample n sits at output offset n, while the frequency offset it marks is written at index \|out\| <= n |
| SynchronizationFf.RunTaggedValues | lib/synchronization_ff_impl.cc:188-249 | tagging at the output index changes only the tags: state, values and frame start are the block's |
| SynchronizationFf.CorrectedStartTagOnValue | lib/synchronization_ff_impl.cc:188-201 | with the tag at the output index, the "Start" tag added at sample n sits on the frequency offset written there |
| SynchronizationFf.NullDetection | lib/synchronization_ff_impl.cc:209-215 | the NULL flag is raised exactly in acquisition, without a start, when prefix/repetition energy is below 0.1 |
| SynchronizationFf.SymbolBoundary | lib/synchronization_ff_impl.cc:217-246 | at a boundary a magnitude above 0.5 writes the offset and counts the symbol, ending the frame at num_ofdm_symbols; otherwise a "Lost" tag and acquisition |
| SynchronizationFf.NextConsistent | lib/synchronization_ff_impl.cc:188-249 | a frame that ends in tracking has written exactly num_ofdm_symbols values, or fewer with a "Lost" tag |
| SynchronizationFf.RunConsistent | lib/synchronization_ff_impl.cc:188-249 | throughout a call, the values written in the current frame are its frame count |
| SynchronizationFf.RunShape | lib/synchronization_ff_impl.cc:188-249 | at most one value per sample and tags at ascending positions |
| SynchronizationFf.TrackedSymbol | lib/synchronization_ff_impl.cc:217-246 | inside a tracked symbol nothing is written until its boundary, one period on |
| SynchronizationFf.SynchronizationFf.constructor | lib/synchronization_ff_impl.cc:48-70 | acquisition, frame count 1, no NULL symbol, unit energies |
| SynchronizationFf.SynchronizationFf.MinOutputItems | lib/synchronization_ff_impl.cc:57 | the minimum output exceeds one symbol period |
| SynchronizationFf.SynchronizationFf.Forecast | lib/synchronization_ff_impl.cc:80-83 | asks for at least noutput samples |
| SynchronizationFf.SynchronizationFf.DelayedCorrelationAt | lib/synchronization_ff_impl.cc:86-128 | the moving sums take one Step and the magnitude follows them |
| SynchronizationFf.SynchronizationFf.DetectStartOfSymbol | lib/synchronization_ff_impl.cc:134-158 | the answer and the new triangle flag are Detect's |
| SynchronizationFf.SynchronizationFf.GeneralWork | lib/synchronization_ff_impl.cc:178-262 | consumes noutput minus one period; the state, values and tags are those of Run over that many samples |
| SynchronizationFf.SynchronizationFf.ProcessSample | lib/synchronization_ff_impl.cc:188-249 | one loop iteration advances the written trace by one sample |
| SynchronizationFf.SynchronizationFf.SampleUpdate | lib/synchronization_ff_impl.cc:188-246 | the fields of the block become the next state of SampleStep; the value and tag returned are the step's |
| CoarseFrequencyCorrection.Powers | lib/ofdm_coarse_frequency_correction_vcvc_impl.cc:73 | every bin's energy is std::real(x * conj(x)) |
| CoarseFrequencyCorrection.SumSplit | lib/ofdm_coarse_frequency_correction_vcvc_impl.cc:66-96 | an energy sum over a range splits at any midpoint |
| CoarseFrequencyCorrection.WindowStep | lib/ofdm_coarse_frequency_correction_vcvc_impl.cc:80-88 | the four-term update of measure_energy moves the window from offset i - 1 to i exactly: the window energy at i |
| CoarseFrequencyCorrection.WindowStepOfSymbol | lib/ofdm_coarse_frequency_correction_vcvc_impl.cc:80-88 | the same step with the energies read off the symbol |
| CoarseFrequencyCorrection.FirstMax | lib/ofdm_coarse_frequency_correction_vcvc_impl.cc:89-95 | the offset kept is one of the fft - n candidates |
| CoarseFrequencyCorrection.FirstMaxIsFirstMaximum | lib/ofdm_coarse_frequency_correction_vcvc_impl.cc:66-96 | the strict `energy > max` scan keeps the smallest offset of maximal window energy |
| CoarseFrequencyCorrection.FirstMaximumUnique | lib/ofdm_coarse_frequency_correction_vcvc_impl.cc:66-96 | there is only one first maximum, so the scan's answer is determined by the energies |
| CoarseFrequencyCorrection.EnergyPartition | lib/ofdm_coarse_frequency_correction_vcvc_impl.cc:105-118 | the occupied and the empty bins of measure_snr partition the symbol: their energies add up to the whole |
| CoarseFrequencyCorrection.BinCounts | lib/ofdm_coarse_frequency_correction_vcvc_impl.cc:121-122 | the divisors num_carriers and fft - num_carriers are the sizes of the two parts |
| CoarseFrequencyCorrection.SnrKeptUnlessSignalDominates | lib/ofdm_coarse_frequency_correction_vcvc_impl.cc:124-127 | the SNR changes only when the occupied bins carry more energy per bin than the empty ones |
| CoarseFrequencyCorrection.Extract | lib/ofdm_coarse_frequency_correction_vcvc_impl.cc:150-153 | the output vector is bins [off, off + n/2) then the n/2 bins after the DC bin off + n/2 |
| CoarseFrequencyCorrection.ExtractedEnergy | lib/ofdm_coarse_frequency_correction_vcvc_impl.cc:150-153 | the sub-carriers copied carry the energy of the window that decided the offset (less the top bin for an odd num_carriers) |
| CoarseFrequencyCorrection.ExtractedHalves | lib/ofdm_coarse_frequency_correction_vcvc_impl.cc:150-153 | each half of the output carries the energy of the bins it was copied from |
| CoarseFrequencyCorrection.UpperHalfCopied | lib/ofdm_coarse_frequency_correction_vcvc_impl.cc:153 | the upper half of the output is the bins just above the window's centre bin |
| CoarseFrequencyCorrection.CoarseFrequencyCorrection.constructor | lib/ofdm_coarse_frequency_correction_vcvc_impl.cc:42-52 | offset 0, SNR 0 and the given lengths |
| CoarseFrequencyCorrection.CoarseFrequencyCorrection.MeasureEnergy | lib/ofdm_coarse_frequency_correction_vcvc_impl.cc:66-96 | the offset becomes the first offset of maximal window energy; the SNR is unchanged |
| CoarseFrequencyCorrection.CoarseFrequencyCorrection.ScanStep | lib/ofdm_coarse_frequency_correction_vcvc_impl.cc:80-93 | one scan step leaves the window energy at i and the first maximum among offsets up to i |
| CoarseFrequencyCorrection.CoarseFrequencyCorrection.OccupiedEnergy | lib/ofdm_coarse_frequency_correction_vcvc_impl.cc:105-109 | the loop sums the window at the offset without its centre bin |
| CoarseFrequencyCorrection.CoarseFrequencyCorrection.EmptyEnergy | lib/ofdm_coarse_frequency_correction_vcvc_impl.cc:112-119 | the loops sum the bins outside the window plus its centre bin |
| CoarseFrequencyCorrection.CoarseFrequencyCorrection.MeasureSnr | lib/ofdm_coarse_frequency_correction_vcvc_impl.cc:102-128 | the SNR becomes MeasuredSnr of the current offset, the offset unchanged |
| CoarseFrequencyCorrection.CoarseFrequencyCorrection.Measure | lib/ofdm_coarse_frequency_correction_vcvc_impl.cc:146-148 | a tagged symbol leaves an offset whose window fits in the symbol |
| CoarseFrequencyCorrection.CoarseFrequencyCorrection.UntaggedKeepsEstimate | lib/ofdm_coarse_frequency_correction_vcvc_impl.cc:141-149 | without a tag on the items so far, every item uses the offset and SNR from before the call |
| CoarseFrequencyCorrection.CoarseFrequencyCorrection.TaggedItemMeasures | lib/ofdm_coarse_frequency_correction_vcvc_impl.cc:145-149 | a tagged item re-measures on its own symbol: the offset is that symbol's first maximum |
| CoarseFrequencyCorrection.CoarseFrequencyCorrection.Work | lib/ofdm_coarse_frequency_correction_vcvc_impl.cc:131-159 | every output vector is Extract of its input at the estimate of that item, the rest of out unchanged; returns noutput |
| CoarseFrequencyCorrection.CoarseFrequencyCorrection.UpdateEstimate | lib/ofdm_coarse_frequency_correction_vcvc_impl.cc:145-149 | after item i the estimate is EstimateAt(i) and the tag cursor has passed the tags up to i |
| PhaseCorrection.LookupTablesMatchParameters | lib/phase_correction_cc_impl.cc:34-39 | d_lookup_n is the n column of the mode I phase reference table and d_lookup_h is the h table of the parameter module |
| PhaseCorrection.LookupInBounds | lib/phase_correction_cc_impl.cc:71-80 | the two table reads stay inside the tables exactly for 0 <= k < 1536, and there the indices are k%32, k/32 and (k/32)%4 |
| PhaseCorrection.QuarterTurnsAtIndices | lib/phase_correction_cc_impl.cc:71-80 | the quarter turns calc_phase_diff uses for pilot k are d_lookup_h[(k/32)%4][k%32] + d_lookup_n[k/32], read inside the tables |
| PhaseCorrection.NegativePilotOutOfBounds | lib/phase_correction_cc_impl.cc:74-78 | for a negative k the truncating C division and remainder give an index outside the tables |
| PhaseCorrection.TurnsAt | lib/phase_correction_cc_impl.cc:78-81 | h + n is a sum of two quarter-turn counts, between 0 and 6 |
| PhaseCorrection.StandardRowPattern | lib/phase_correction_cc_impl.cc:76 | the i column of the mode I table runs 0,1,2,3 below the DC carrier and 0,3,2,1 above it |
| PhaseCorrection.TableLookupMatchesPhaseReference | lib/phase_correction_cc_impl.cc:71-89 | with the standard's row the looked-up phase of pilot k is the phase reference of its carrier |
| PhaseCorrection.AsWrittenAgreesWithTable | lib/phase_correction_cc_impl.cc:76 | the row (k/32)%4 agrees with the standard's below the DC carrier and on even blocks |
| PhaseCorrection.AsWrittenLookupDiffers | lib/phase_correction_cc_impl.cc:76 | pilot 801 reads row 1 where the table has row 3, so it gets phase 0 where the phase reference is 2 |
| PhaseCorrection.Output | lib/phase_correction_cc_impl.cc:105-132 | a call writes at most one sample per input item |
| PhaseCorrection.OutputIsRotatedSelection | lib/phase_correction_cc_impl.cc:105-132 | the output is exactly the items that meet a pilot counter of at least num_carriers, in input order, each times the fixed rotation exp(j pi/4) |
| PhaseCorrection.PilotsCounted | lib/phase_correction_cc_impl.cc:106-114 | after a tag the pilot counter counts the items since it and the phase difference is the sum of their calc_phase_diff values, each with the as-written row (k/32)%4 |
| PhaseCorrection.PhaseReferenceSwallowed | lib/phase_correction_cc_impl.cc:111-114 | the num_carriers items after a tag meet the counters 0 .. num_carriers - 1 and none is emitted |
| PhaseCorrection.AveragingStep | lib/phase_correction_cc_impl.cc:115-121 | the item num_carriers after a tag divides the sum of the as-written phase differences by num_carriers once and is itself emitted |
| PhaseCorrection.EmittedUntilNextTag | lib/phase_correction_cc_impl.cc:115-131 | once an item is emitted, every item up to the next tag is emitted too and the state no longer changes |
| PhaseCorrection.PhaseCorrection.constructor | lib/phase_correction_cc_impl.cc:50-55 | keeps num_carriers; the pilot counter and the phase difference keep whatever the uninitialised fields hold |
| PhaseCorrection.PhaseCorrection.GeneralWork | lib/phase_correction_cc_impl.cc:94-140 | the new counter and phase difference are those after the call with the block's calc_phase_diff (row (k/32)%4), out begins with Output, the rest is unchanged; returns their number |
| PhaseCorrection.PhaseCorrection.ProcessItem | lib/phase_correction_cc_impl.cc:105-132 | one loop iteration advances the tag cursor, the pilot state (with the as-written calc_phase_diff) and the output by one item |
| Demux.Filled | lib/demux_cc_impl.cc:103-105 | the len elements from start on hold the fill value, every other element keeps its value |
| Demux.Copied | lib/demux_cc_impl.cc:121 | the elements from start on hold the symbol, every other element keeps its value |
| Demux.SymbolCursor | lib/demux_cc_impl.cc:96-98 | the tag cursor moves only past a tag that sits exactly on the start of the current symbol |
| Demux.ConsumedTagsAligned | lib/demux_cc_impl.cc:97 | every tag consumed sat on a symbol start |
| Demux.MisalignedTagBlocks | lib/demux_cc_impl.cc:89-97 | a tag off a symbol start is only warned about, is never consumed, and blocks every later tag of the call |
| Demux.SymbolCursorPosition | lib/demux_cc_impl.cc:96-98 | with aligned, ascending tags the cursor has passed exactly the tags before symbol i |
| Demux.TagsAtSymbolStarts | lib/demux_cc_impl.cc:97 | with aligned, ascending tags a symbol starts a frame exactly when a tag sits on its start |
| Demux.CountSymbol | lib/demux_cc_impl.cc:119-136 | a routed symbol is counted against the active channel, which switches once its quota is reached |
| Demux.CountsBelowQuota | lib/demux_cc_impl.cc:115-136 | routing a symbol or starting a frame keeps the count below the active channel's quota |
| Demux.FrameStart | lib/demux_cc_impl.cc:99-117 | a tag pads the active channel to its quota and starts a frame on the FIC |
| Demux.PadsActiveChannelOnly | lib/demux_cc_impl.cc:99-112 | only the active channel is padded, by exactly its missing symbols |
| Demux.FrameCycle | lib/demux_cc_impl.cc:119-136 | from a frame start, symbols_fic symbols go to the FIC, then symbols_msc to the MSC, and the next frame starts on the FIC |
| Demux.Demux.constructor | lib/demux_cc_impl.cc:46-60 | a frame starts on the FIC with nothing written |
| Demux.Demux.UntaggedRun | lib/demux_cc_impl.cc:96-137 | without tags a call routes its symbols in the frame rhythm |
| Demux.Demux.TagAtFrameStartPadsWholeFic | lib/demux_cc_impl.cc:99-106 | a tag at a frame start pads a whole FIC part with fill values and leaves the MSC alone |
| Demux.Demux.CopiesOverlap | lib/demux_cc_impl.cc:121 | as written, symbol w is copied to element w while fill puts it at w*symbol_length, so with symbol_length 2 the second FIC symbol overwrites half of the first |
| Demux.Demux.AlignedCopiesKeepBoth | lib/demux_cc_impl.cc:121 | with copies at w*symbol_length two FIC symbols in a row are both kept whole, one after the other |
| Demux.Demux.CountersCarryOver | lib/demux_cc_impl.cc:57-144 | a call never lowers the written counters, and every element it writes lies at or past the counters it started from, so a later call writes from there on and produces the cumulative counts |
| Demux.Demux.CountersShift | lib/demux_cc_impl.cc:97-138 | a call's counters are those of the same call from zero written symbols, plus the counts it started from |
| Demux.Demux.PerCallWritesFit | lib/demux_cc_impl.cc:97-144 | with the counters reset at each call they fall short of the block's by exactly what earlier calls wrote, and every element the call writes lies below its produced count |
| Demux.Demux.WritesBelowCounters | lib/demux_cc_impl.cc:97-138 | from written elements below the produced counts, a call keeps them there |
| Demux.Demux.GeneralWork | lib/demux_cc_impl.cc:75-146 | the counters and outputs are Run over the whole symbols of the call, each copy at element syms_written as written; consumes noutput; produces the cumulative counters times symbol_length |
| Demux.Demux.ProcessSymbol | lib/demux_cc_impl.cc:96-137 | one loop iteration advances the tag cursor and the state by one symbol, copying it at element syms_written as written |
| Demux.Demux.StartFrame | lib/demux_cc_impl.cc:99-117 | the tag branch leaves the state OnTag gives |
| Demux.Demux.PadFic | lib/demux_cc_impl.cc:101-106 | the FIC fill loop writes the missing FIC symbols with fill values and counts them |
| Demux.Demux.PadMsc | lib/demux_cc_impl.cc:108-113 | the MSC fill loop writes the missing MSC symbols with fill values and counts them |
| Demux.Demux.Fill | lib/demux_cc_impl.cc:103-105 | the fill loop leaves Filled |
| Demux.Demux.RouteSymbol | lib/demux_cc_impl.cc:119-136 | the copy branch puts the symbol at element syms_written of the active channel, as written, and counts it (OnSymbol) |
| FibSink.Word12 | lib/fib_sink_vb_impl.cc:97 | a 12-bit reference is the low nibble of the first byte above the second byte, below 4096 |
| FibSink.FigLength | lib/fib_sink_vb_impl.cc:71 | the FIG length is the low 5 bits of the header, at most 31 |
| FibSink.HeaderFields | lib/fib_sink_vb_impl.cc:70-71 | type is the top 3 bits and length the low 5 bits of the header; with a signed char a header of 0x80 or more gives a type of 0xFC to 0xFF |
| FibSink.HeaderSplit | lib/fib_sink_vb_impl.cc:70-71 | type and length together determine the header byte |
| FibSink.SignedCharHidesHighTypes | lib/fib_sink_vb_impl.cc:70 | with a signed char, `fib[pos] >> 5` is negative for FIG types 4 to 7, so they never reach their branches (the FIDC and conditional-access cases) |
| FibSink.EnsembleInfoOf | lib/fib_sink_vb_impl.cc:96-109 | FIG 0/0 fields: reference, change flag, occurrence change, alarm flag and CIF counter from their bit fields; None when a read lies past the input |
| FibSink.CifCounterBound | lib/fib_sink_vb_impl.cc:106 | with an unsigned char the CIF counter is high part times 250 plus low byte, at most 8005 |
| FibSink.SignedCifCounterWraps | lib/fib_sink_vb_impl.cc:106 | with a signed char a low byte of 0xFF gives 65535 instead of 255 |
| FibSink.SubchannelAt | lib/fib_sink_vb_impl.cc:115-136 | a FIG 0/1 entry: sub-channel id, start address, and the short form's table fields or the long form's option, protection level and size |
| FibSink.SubchannelsConsume | lib/fib_sink_vb_impl.cc:112-137 | the FIG 0/1 loop decodes at least one entry, continued after each entry while 1 + counter was below the length, and stops once it is not |
| FibSink.SubchannelsOneForm | lib/fib_sink_vb_impl.cc:118 | as written every FIG 0/1 entry takes its form from data[4] |
| FibSink.MixedFormsMisread | lib/fib_sink_vb_impl.cc:118 | a short entry followed by a long one is misread as written and read as two entries per the standard's per-entry form bit |
| FibSink.DecodeSubchannels | lib/fib_sink_vb_impl.cc:111-139 | the do-while loop returns the entries Subchannels gives |
| FibSink.ComponentAt | lib/fib_sink_vb_impl.cc:153-156 | a service component's TMID, type, sub-channel id and P/S flag from their bit fields |
| FibSink.ServiceAt | lib/fib_sink_vb_impl.cc:143-172 | a FIG 0/2 service: reference, local flag, CA and its components, None when a read lies past the input |
| FibSink.ServicesShape | lib/fib_sink_vb_impl.cc:141-174 | the services are read back to back, each advancing the counter by 3 + 2 times its component count (at most 15) |
| FibSink.PrimaryFlagMisread | lib/fib_sink_vb_impl.cc:156 | as written the P/S flag comes from the byte after the component, so a one-component service followed by a header 0x10 is read as secondary |
| FibSink.ServiceLocal | lib/fib_sink_vb_impl.cc:143-173 | per the standard a service depends on its own 3 + 2n bytes only |
| FibSink.DecodeServices | lib/fib_sink_vb_impl.cc:140-176 | the service loop returns the services Services gives |
| FibSink.DecodeService | lib/fib_sink_vb_impl.cc:143-173 | one service with its component for loop returns ServiceAt |
| FibSink.DefinitionAt | lib/fib_sink_vb_impl.cc:189-205 | a FIG 0/8 entry: reference, SCIdS and a 6-bit sub-channel id (short form) or 12-bit SCId (long form) chosen by bit 7 |
| FibSink.DefinitionsShape | lib/fib_sink_vb_impl.cc:186-208 | a FIG 0/8 body decodes to at least one entry, the first read at the start; every entry has its fields in range and takes 5 bytes in the short form and 6 in the long one; the loop stops once the counter reaches the length and not before the last entry |
| FibSink.DecodeDefinitions | lib/fib_sink_vb_impl.cc:186-208 | the do-while loop returns the entries Definitions gives |
| FibSink.Warnings | lib/fib_sink_vb_impl.cc:88-93 | the masked C/N, OE and P/D bits never equal 1, so no warning is ever given |
| FibSink.FigOf | lib/fib_sink_vb_impl.cc:81-291 | type 0 decodes the MCI extension named by the low 5 bits of data[1], types 1 and 2 a label with a 3-bit extension, type 5 FIDC, other types are only reported; a label of extension 0, 1, 4 or 5 is the 16 bytes from data[4] (0, 1) or data[5] (4, 5), with the 12-bit service reference for extension 1, and the result is None exactly when those bytes lie past the input |
| FibSink.LabelRoundTrip | lib/fib_sink_vb_impl.cc:235-262 | sixteen label characters placed after a FIG 1 or 2 header of the copied extensions are read back, with the service reference for extension 1 |
| FibSink.ProcessFig | lib/fib_sink_vb_impl.cc:81-291 | the switch returns FigOf |
| FibSink.WalkChained | lib/fib_sink_vb_impl.cc:67-76 | the FIGs are met back to back from pos, each after the data of the one before, and the walk stops right after the last, at most 30 FIGs later |
| FibSink.WalkStops | lib/fib_sink_vb_impl.cc:68-73 | a walk ends past the data field, at an end marker or at a zero header; it aborts only with asserts in, at a FIG that is empty or leaves the data field |
| FibSink.WalkInside | lib/fib_sink_vb_impl.cc:72-73 | with asserts in every FIG decoded is non-empty and lies inside the 30-byte data field |
| FibSink.Fib | lib/fib_sink_vb_impl.cc:59-78 | a CRC failure returns 1 and walks nothing; otherwise returns 0 with every FIG of the walk decoded |
| FibSink.ProcessFib | lib/fib_sink_vb_impl.cc:59-78 | the CRC check and the header walk return what Fib gives |
| FibSink.WalkHeaders | lib/fib_sink_vb_impl.cc:67-76 | the while loop returns WalkFrom from position 0 |
| FibSink.Work | lib/fib_sink_vb_impl.cc:294-306 | FIB i is bytes 32i onwards, each is processed in order, and all noutput_items are consumed |

## Left out

- The AAC decoding of an access unit (faad2 through `MP42PCM` and `NeAACDecInit2`) is not part of this model. The superframe decoder records the AUs it hands to `handle_aac_frame`, in order, and stops there.
- Mp4Superframe.DecodeBs.GeneralWork: returns the error and the bytes consumed, not the source's return value. The sample count `d_nsamples_produced`, which `MP42PCM` builds up from `samples / 2` per decoded AU (lib/mp4_decode_bs_impl.cc:401-402) and `general_work` returns (:566), is not modelled; nor are the PCM samples written to the two outputs.
- Mp4Superframe.DecodeBs.Superframe: the path on which `MP42PCM` returns 0 because `initialize` fails (lib/mp4_decode_bs_impl.cc:358-359), leaving the decoder uninitialised for the next AU, and the `baudRate` and `d_sample_rate` updates from the decoder's frame info (:370-374) are not modelled. The configuration `initialize` would build is modelled by itself (`Mp4DecodeBs.AscRoundTrip`, `Mp4DecodeBs.ChannelConfigurations`).
- The fire code check of `mp4_decoder` is a parameter (`passes`), since firecode-checker is not part of this model. It is a predicate on the frames from frame n on, which is what it sees through `&in[n * d_frame_size]`; how many of them it reads is not modelled.
- The FIB CRC (`crc16.h`) is a parameter (`FibSink.Config.crcPasses`), since crc16 is not part of this model. The FIG constants of `FIC.h` are taken from ETSI EN 300 401, since that header is not part of this model.
- GNU Radio scheduling, stream tags as a runtime service, logging and message output are left out. Tags are inputs and outputs of the work methods.
- Floating-point maths is either exact `real` arithmetic or an uninterpreted parameter (`Signal.FloatMath`: argument, unit phasor, SNR formula). Rounding, NaN propagation and the drift of the moving sums in the synchronisers are not modelled.
- Reads past the end of an input are undefined in C++. They become error results here: `Mp4Superframe.AuError.ReadsOutsideInput`, `XPad.PadField.PadBeyondCopy`, `XPad.PadError.ReadsBeforePad`, `XPad.PadError.FPadMissing`, `Mp4Decoder.WorkError.ReadsPastInput`, `None` from `XPad.DynamicLabelSegment` when the length field reaches past the segment, `FrequencyDeinterleave.WorkError.ReadsPastTable` (the table read at an index past its length), and `None` from the FIG decoders (`FibSink.FigOf` and the FIG 0/0, 0/1, 0/2 and 0/8 decoders it calls, including the 16 label bytes that FIG 1 and 2 copy). What the source would compute from the bytes it reads there is not modelled.
- Writes outside an array are undefined in C++ too, and also become error results: case 1 of the AU start switch in a later superframe (`Mp4Superframe.AuError.WritesOutsideTable`) and a superframe copied past the output of `mp4_decoder` (`Mp4Decoder.WorkError.WritesPastOutput`). The memory the source would overwrite is not modelled, and the call ends there instead of going on.
- SelectCus.Selection: requires frame_len > 0. The source takes `% d_frame_len` with no guard (lib/select_cus_vcvc_impl.cc:75), so a block built with frame_len 0 divides by zero; that crash is not modelled.
- SelectCus.SelectionMembers: requires frame_len > 0, for the same division by zero.
- SelectCus.SelectCus.GeneralWork: requires frame_len > 0, for the same division by zero.
- CoarseFrequencyCorrection.CoarseFrequencyCorrection.constructor: requires 0 < num_carriers < fft_length. With num_carriers >= fft_length the energy measurement reads past the symbol (lib/ofdm_coarse_frequency_correction_vcvc_impl.cc:71-84); those reads, and a block without carriers, are not modelled.
- XPad.PadContents: a PAD of fewer than two bytes ends in `FPadMissing`, where the source reads the F-PAD from `pad[-2]` and `pad[-1]`, before the PAD; what it would read there is not modelled.
- Demux.Demux.GeneralWork: the written counters are never reset between calls, so from the second call on the block writes past the noutput elements of that call's output and produces the cumulative counts. The outputs are modelled as unbounded memory images, so those writes succeed here instead of being undefined; the Findings row for lib/demux_cc_impl.cc:57,143 gives both readings.
- FrequencyDeinterleave.FrequencyDeinterleave.constructor: the `invalid_argument` it throws for an entry out of range is the flag `accepted` set to false; the block without an object that follows the throw is not modelled, and Work requires an accepted block.
- DabParameters.Parameters.SetMode: takes a mode in 1..4 (the `Mode` type). The source's `set_mode` checks nothing (src/python/parameters.py:189-193): mode 0 and negative modes index the mode tables from the end, so the object takes another mode's fields while `mode` keeps the value given, and modes above 4 raise IndexError in `__update_parameters__`. Neither behaviour is modelled.
- The parameter object works at the default sample rate of 2.048 MHz only. `sample_rate`, `set_sample_rate` and the rescaling of ns, cp and FFT lengths with float `round` for another rate (src/python/parameters.py:195-199, 262-270) are not modelled.
- `d_au_start` is an `int16_t` array. Its entries are modelled as unbounded integers; the header fields that fill them are at most 12 bits plus the superframe base, so the width is not reached for the superframe sizes of the standard.
- `pad_subfield_index` is a `uint8_t`. It is modelled as a `nat`, so its wrap-around past 255 is not modelled.
- The commented-out X-PAD application types 2 and 3 (dynamic label continuation) are not modelled. The dynamic-label toggle comparisons in the source affect no state and are left out.
- `detect_peak` in both synchronisers is never called and is not modelled.
- `mp4_decoder` works on its input as a sequence of frames of `frame_size` bytes (`Mp4Decoder.FramesOf`), not as a flat byte stream.
- PhaseCorrection.PhaseCorrection.GeneralWork: requires at most 1536 carriers, since the lookup tables of `phase_correction` cover 1536 pilots. With more carriers the source reads past its tables.
- `d_pilot_counter` and `d_phase_difference` are never initialised in the source. They are parameters of `PhaseCorrection.PhaseCorrection.constructor`, with the counter taken as non-negative.
- The normalised correlation magnitude of the synchronisers is not initialised before the first sample. It is a parameter of their constructors.
- With an odd `num_carriers`, coarse frequency correction leaves the last output element of each symbol unwritten. The model emits 2·(n/2) bins, and `CoarseFrequencyCorrection.CoarseFrequencyCorrection.Work` ensures that the unwritten element keeps its old value.
- Whether `char` is signed depends on the platform. It is a parameter (`FibSink.Config.signedChar`), and both readings are modelled.
- The `forecast` functions of the demultiplexer, phase correction, capacity-unit selection and the superframe decoder ask for one input item per output item. They are plain functions without a contract of their own, used in the preconditions of the work methods.
- The FIG 0/1 and FIG 0/2 loops are modelled as the code reads them: the form bit comes from `data[4]` and the P/S flag from the byte after the component. The standard's readings are modelled beside them (`FibSink.MixedFormsMisread`, `FibSink.PrimaryFlagMisread`, `FibSink.ServiceLocal`). The block only logs what it decodes, so the as-written reading is what it reports.

## Findings

The blocks are modelled as the code is written, including each of the lines below: the phase correction uses the row (k/32)%4, the demultiplexer copies at element syms_written, the superframe decoder writes its start table as the switch does and reads X-PAD lengths with `>> 6` and `||`, the superframe synchroniser runs its loop while n < noutput, and the moving sums of both OFDM synchronisers remove the terms of the current first sample, both synchronisers place their tags at input indices, and the demultiplexer keeps its written counters across calls. The corrected definition of each row stands beside the as-written one, with the intended property proved about it.

| source | as written | input that shows it | evidently intended | confidence | as-written member | corrected member |
|---|---|---|---|---|---|---|
| lib/phase_correction_cc_impl.cc:76 | the PRN row index is `((k - k%32)/32) % 4` | pilot 801 (above DC): row 1 as written, row 3 per the standard's column of i values | the standard's i for the block of 32 pilots (0, 1, 2, 3 below DC and 0, 3, 2, 1 above) | not executed | PhaseCorrection.AsWrittenLookupDiffers | PhaseCorrection.TableLookupMatchesPhaseReference |
| lib/demux_cc_impl.cc:121,130 | a symbol is copied to `&out[syms_written++]`, an element index | symbol_length 2 with two FIC symbols in a row: the second copy overwrites half of the first | the copy goes to `syms_written * symbol_length`, as the fill loop writes | not executed | Demux.Demux.CopiesOverlap | Demux.Demux.AlignedCopiesKeepBoth |
| lib/mp4_decode_bs_impl.cc:490,505 | `d_au_start[n * d_superframe_size + 0] = 5` and `in[8]` with no superframe offset | any superframe after the first: with AU layout 1 the first start is written outside the ten entries; with layout 2 the fifth start reads byte 8 of the first superframe | index 0 and `in[n * d_superframe_size + 8]` | not executed | Mp4DecodeBs.AsWrittenLaterSuperframes | Mp4DecodeBs.AuStartsCorrected |
| lib/mp4_decode_bs_impl.cc:246 | the data group length is combined with `\|\|` | bytes 0x01, 0x00 give 1 instead of 256 | a bitwise `\|`: the 14-bit length | not executed | XPad.DataGroupLengthAsWrittenIsFlag | XPad.DataGroupLengthRoundTrip |
| lib/mp4_decode_bs_impl.cc:232 | the length indicator is `(ci & 0xe0) >> 6` | content indicator 0x21: indicator 0 (4 bytes) instead of 1 (6 bytes) | `>> 5`: the top three bits | not executed | XPad.LengthIndicatorAsWrittenHalves | XPad.ContentIndicatorRoundTrip |
| lib/ofdm_synchronization_cvf_impl.cc:118-120 | the moving update removes the terms of `sample[0]`, the current first sample | symbol_length 1, cyclic prefix 1 and samples 1, 1, 0: after one update the correlation is 1, the sliding window's is 0 | remove the terms of `sample[-1]`, the sample that left the window | not executed | DelayedCorrelation.SlideMissesWindow | DelayedCorrelation.SlidingClosedForm |
| lib/demux_cc_impl.cc:57,143 | `d_fic_syms_written` and `d_msc_syms_written` are set to 0 only in the constructor and produced as they stand | symbol_length 2, symbols_fic 3: a first call of 2 symbols writes 2 FIC symbols; a second call of 2 symbols writes its FIC symbol from element 2 on and produces 6 FIC items for the 2 it wrote | reset both counters at the start of every call, as `d_nwritten` is in the synchronisers | not executed | Demux.Demux.CountersCarryOver | Demux.Demux.PerCallWritesFit |
| lib/ofdm_synchronization_cvf_impl.cc:197,254 | the "Start" tag goes to output offset `nitems_written(0) + i + 1`, an input index, while samples go to `out[d_nwritten++]` | any frame: the tag sits at i + 1 while the frame's first sample is written later at index d_nwritten <= i | tag at `nitems_written(0) + d_nwritten`, the frame's first written sample | not executed | OfdmSynchronization.StartTagPastOutput | OfdmSynchronization.CorrectedTagOnFrameStart |
| lib/synchronization_ff_impl.cc:198,201 | the "Start" tag goes to output offset `nitems_written(0) + i` while the frequency offset goes to `out[d_nwritten++]` | a frame start at sample 1 of a call (after a sample that wrote nothing): tag at 1, value at 0 | tag at `nitems_written(0) + d_nwritten` | not executed | SynchronizationFf.StartTagOffValue | SynchronizationFf.CorrectedStartTagOnValue |
| lib/mp4_decoder_impl.cc:89-98 | the loop runs while `n < noutput_items`, counting input frames against the output capacity | bit_rate_n 1 (frames of 24 bytes), noutput 120 and every fire code passing: 24 superframes, 2880 bytes written | stop once a further superframe would not fit in the output | not executed | Mp4Decoder.AsWrittenWritesPastOutput | Mp4Decoder.StoppingScanOutputFits |
